/** Turning the shared order array into the local scene's order by single edits, each of which is synced to peers. */
module OrderReconcile {
  import opened Common

  type Id = nat

  datatype Edit = Delete(index: nat, count: nat) | Insert(index: nat, id: Id)

  /** A Yjs array refuses an edit outside its range. */
  predicate InRange(order: seq<Id>, e: Edit) {
    match e
    case Delete(i, n) => i + n <= |order|
    case Insert(i, _) => i <= |order|
  }

  function Edited(order: seq<Id>, e: Edit): seq<Id>
    requires InRange(order, e)
  {
    match e
    case Delete(i, n) => order[..i] + order[i + n..]
    case Insert(i, id) => order[..i] + [id] + order[i..]
  }

  /** What the edits make of the order, unless one of them is out of range when its turn comes. */
  function Replay(order: seq<Id>, edits: seq<Edit>): Option<seq<Id>> {
    if edits == [] then Some(order)
    else
      var before := Replay(order, edits[..|edits| - 1]);
      var last := edits[|edits| - 1];
      if before.Some? && InRange(before.value, last) then Some(Edited(before.value, last)) else None
  }

  lemma ReplayAppend(order: seq<Id>, edits: seq<Edit>, e: Edit)
    ensures Replay(order, edits + [e]) ==
            var before := Replay(order, edits);
            if before.Some? && InRange(before.value, e) then Some(Edited(before.value, e)) else None
  {
    assert (edits + [e])[..|edits|] == edits;
  }

  /** First position of an id, if any. */
  function IndexOf(order: seq<Id>, id: Id): (i: int)
    ensures i == -1 <==> id !in order
    ensures i != -1 ==> 0 <= i < |order| && order[i] == id && id !in order[..i]
  {
    if order == [] then -1
    else if order[0] == id then 0
    else
      var rest := IndexOf(order[1..], id);
      assert order == [order[0]] + order[1..];
      if rest == -1 then -1 else
        assert order[..rest + 1] == [order[0]] + order[1..][..rest];
        rest + 1
  }

  lemma DeletedPrefix(order: seq<Id>, cursor: nat, i: nat)
    requires cursor <= i < |order|
    ensures Edited(order, Delete(i, 1))[..cursor] == order[..cursor] && |Edited(order, Delete(i, 1))| == |order| - 1
  {
  }

  lemma InsertedPrefix(order: seq<Id>, cursor: nat, id: Id)
    requires cursor <= |order|
    ensures Edited(order, Insert(cursor, id))[..cursor + 1] == order[..cursor] + [id]
  {
  }

  lemma NotBefore(order: seq<Id>, cursor: nat, id: Id)
    requires cursor <= |order| && id !in order[..cursor]
    ensures forall i | 0 <= i < cursor :: order[i] != id
  {
    forall i | 0 <= i < cursor ensures order[i] != id { assert order[..cursor][i] == order[i]; }
  }

  class Binding {
    var order: seq<Id>
    ghost var edits: seq<Edit>

    /** The edits made since the binding opened, replayed from the order it found, give the order. */
    ghost predicate Valid(origin: seq<Id>)
      reads this
    {
      Replay(origin, edits) == Some(order)
    }

    constructor (order: seq<Id>)
      ensures this.order == order && edits == [] && Valid(order)
    {
      this.order, edits := order, [];
    }

    /** One edit of the shared array, refused outside its range. */
    method Perform(e: Edit, ghost origin: seq<Id>)
      requires Valid(origin) && InRange(order, e)
      modifies this
      ensures Valid(origin) && order == Edited(old(order), e) && edits == old(edits) + [e]
    {
      ReplayAppend(origin, edits, e);
      hide Replay;
      order := Edited(order, e);
      edits := edits + [e];
    }

    /** Moves an id from later in the order, or from nowhere, to the cursor; the settled prefix stays as it is. */
    method Place(id: Id, cursor: nat, ghost origin: seq<Id>)
      requires Valid(origin) && cursor <= |order| && id !in order[..cursor]
      modifies this
      ensures Valid(origin) && cursor < |order| && order[..cursor + 1] == old(order)[..cursor] + [id]
      ensures old(edits) < edits
    {
      var existing := IndexOf(order, id);
      if existing != -1 {
        NotBefore(order, cursor, id);
        DeletedPrefix(order, cursor, existing);
        hide Edited;
        Perform(Delete(existing, 1), origin);
      }
      InsertedPrefix(order, cursor, id);
      Perform(Insert(cursor, id), origin);
    }

    /**
     From any order, duplicates included, to exactly the duplicate-free target, by edits that are each in
     range; no edit is made exactly when there is nothing to change.
     */
    method ReconcileOrder(target: seq<Id>, ghost origin: seq<Id>)
      requires Distinct(target) && Valid(origin)
      modifies this
      ensures Valid(origin) && order == target
      ensures old(edits) <= edits && (edits == old(edits) <==> old(order) == target)
    {
      var cursor := 0;
      for k := 0 to |target|
        invariant cursor == k <= |order| && order[..cursor] == target[..k]
        invariant Valid(origin) && old(edits) <= edits
        invariant edits == old(edits) ==> order == old(order)
        invariant edits != old(edits) ==> old(order) != target
      {
        var id := target[k];
        assert target[..k + 1] == target[..k] + [id];
        hide Replay;
        if cursor < |order| && order[cursor] == id {
          assert order[..cursor + 1] == order[..cursor] + [id];
        } else {
          assert id !in target[..k];
          assert order != target;
          Place(id, cursor, origin);
        }
        cursor := cursor + 1;
      }
      assert target[..|target|] == target;
      if cursor < |order| {
        assert order != target;
        assert order[..cursor] + order[|order|..] == target;
        Perform(Delete(cursor, |order| - cursor), origin);
      } else {
        assert order[..cursor] == order;
      }
    }
  }
}
