/** The text keys of grace seats, which the other modules treat as (room, user) pairs. */
module SeatKeyText {

  function KeyText(room: string, user: string): string { room + ":" + user }

  predicate NoColon(s: string) { ':' !in s }

  /** Two seats share a key only if they are the same seat, provided room ids hold no colon; user ids may. */
  lemma KeyTextInjective(room: string, user: string, room': string, user': string)
    requires NoColon(room) && NoColon(room')
    ensures KeyText(room, user) == KeyText(room', user') <==> room == room' && user == user'
  {
    if KeyText(room, user) == KeyText(room', user') {
      var a, b := KeyText(room, user), KeyText(room', user');
      ColonAt(room, user, room', user');
      ColonAt(room', user', room, user);
      assert a[..|room|] == room && b[..|room'|] == room';
      assert a[|room| + 1..] == user && b[|room'| + 1..] == user';
    }
  }

  /** The first colon of a key ends its room id. */
  lemma ColonAt(room: string, user: string, room': string, user': string)
    requires NoColon(room') && KeyText(room, user) == KeyText(room', user')
    ensures |room'| <= |room|
  {
    var b := KeyText(room', user');
    assert KeyText(room, user)[|room|] == ':';
    assert forall i | 0 <= i < |room'| :: b[i] == room'[i];
  }

  /** The text is the room id followed by a colon and more. */
  predicate Extends(text: string, room: string) { |text| > |room| && text[..|room|] == room && text[|room|] == ':' }

  /**
   Two different rooms have seats that share a key if and only if one room id is the other one followed
   by a colon and more.
   */
  lemma CollideExactly(room: string, room': string)
    requires room != room'
    ensures (exists user, user' :: KeyText(room, user) == KeyText(room', user')) <==> Extends(room, room') || Extends(room', room)
  {
    if user, user' :| KeyText(room, user) == KeyText(room', user') {
      if |room| <= |room'| { SharedKey(room, user, room', user'); } else { SharedKey(room', user', room, user); }
    }
    if Extends(room, room') { Collide(room, room'); }
    if Extends(room', room) {
      Collide(room', room);
      assert KeyText(room, room'[|room| + 1..] + ":") == KeyText(room', "");
    }
  }

  lemma SharedKey(room: string, user: string, room': string, user': string)
    requires room != room' && |room| <= |room'| && KeyText(room, user) == KeyText(room', user')
    ensures Extends(room', room)
  {
    var a, b := KeyText(room, user), KeyText(room', user');
    assert a[..|room|] == room && b[..|room'|] == room';
    assert b[..|room'|][..|room|] == b[..|room|];
    assert |room| == |room'| ==> room == room';
    assert a[|room|] == ':' && b[..|room'|] == room' && (|room| < |room'| ==> b[|room|] == room'[|room|]);
  }

  lemma Collide(room: string, room': string)
    requires Extends(room, room')
    ensures KeyText(room, "") == KeyText(room', room[|room'| + 1..] + ":")
  {
    assert room == room' + ":" + room[|room'| + 1..];
  }
}
