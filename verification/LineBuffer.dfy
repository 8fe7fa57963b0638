/**
 The streaming line splitter in front of FFmpeg's stdout and stderr, against splitting the whole text
 at once: whatever the chunking, no character is lost and only empty lines can differ, one for each
 chunk boundary that falls inside a CRLF.
 */
module LineBuffer {
  import opened Common

  predicate IsSeparator(c: char) { c == '\n' || c == '\r' }

  /** First position of a separator, or the length of the text. */
  function FirstSeparator(s: string): (i: nat)
    ensures i <= |s|
  {
    if s == "" || IsSeparator(s[0]) then 0 else 1 + FirstSeparator(s[1..])
  }

  lemma {:induction false} FirstSeparatorExact(s: string)
    ensures var i := FirstSeparator(s); (forall k | 0 <= k < i :: !IsSeparator(s[k])) && (i < |s| ==> IsSeparator(s[i]))
  {
    if s != "" && !IsSeparator(s[0]) {
      FirstSeparatorExact(s[1..]);
      forall k | 0 <= k < FirstSeparator(s) ensures !IsSeparator(s[k]) {
        if k > 0 { assert s[k] == s[1..][k - 1]; }
      }
    }
  }

  /** A separator is CRLF, LF or CR. */
  function SeparatorLength(s: string, i: nat): (n: nat)
    requires i < |s|
    ensures 1 <= n <= 2 && i + n <= |s|
  {
    if s[i] == '\r' && i + 1 < |s| && s[i + 1] == '\n' then 2 else 1
  }

  datatype Parts = Parts(lines: seq<string>, tail: string)

  function After(first: string, rest: Parts): Parts { Parts([first] + rest.lines, rest.tail) }

  /** Splitting a text that is all there: complete lines, and the partial line after the last separator. */
  function Split(s: string): Parts
    decreases |s|
  {
    var i := FirstSeparator(s);
    if i == |s| then Parts([], s)
    else After(s[..i], Split(s[i + SeparatorLength(s, i)..]))
  }

  function Whole(s: string): seq<string> {
    Split(s).lines + Flushed(Split(s).tail)
  }

  function Flushed(tail: string): seq<string> {
    if tail == "" then [] else [tail]
  }

  /** What the buffer has emitted and kept after these chunks. */
  function Feed(chunks: seq<string>): Parts {
    if chunks == [] then Parts([], "")
    else
      var before := Feed(chunks[..|chunks| - 1]);
      var now := Split(before.tail + chunks[|chunks| - 1]);
      Parts(before.lines + now.lines, now.tail)
  }

  function Text(chunks: seq<string>): string {
    if chunks == [] then "" else Text(chunks[..|chunks| - 1]) + chunks[|chunks| - 1]
  }

  /** The boundary between two texts falls inside a CRLF. */
  predicate Cut(a: string, b: string) {
    a != "" && b != "" && a[|a| - 1] == '\r' && b[0] == '\n'
  }

  /** How many chunk boundaries fall inside a CRLF. */
  function Cuts(chunks: seq<string>): nat {
    if chunks == [] then 0
    else
      var before := chunks[..|chunks| - 1];
      Cuts(before) + (if Cut(Text(before), chunks[|chunks| - 1]) then 1 else 0)
  }

  function NonEmpty(lines: seq<string>): seq<string> {
    if lines == [] then [] else (if lines[0] == "" then [] else [lines[0]]) + NonEmpty(lines[1..])
  }

  function Content(s: string): string {
    if s == "" then "" else (if IsSeparator(s[0]) then "" else [s[0]]) + Content(s[1..])
  }

  function Joined(lines: seq<string>): string {
    if lines == [] then "" else lines[0] + Joined(lines[1..])
  }

  // ----- Split -----

  lemma {:induction false} FirstSeparatorAppend(a: string, b: string)
    requires FirstSeparator(a) < |a|
    ensures FirstSeparator(a + b) == FirstSeparator(a)
  {
    if !IsSeparator(a[0]) {
      assert (a + b)[1..] == a[1..] + b;
      FirstSeparatorAppend(a[1..], b);
    }
  }

  lemma SplitHead(s: string)
    ensures var i := FirstSeparator(s);
            if i == |s| then Split(s) == Parts([], s)
            else Split(s) == After(s[..i], Split(s[i + SeparatorLength(s, i)..]))
  {
    hide FirstSeparator, SeparatorLength, IsSeparator;
  }

  lemma HeadAppend(a: string, b: string, i: nat)
    requires i < |a| && !(Cut(a, b) && i == |a| - 1)
    ensures (a + b)[..i] == a[..i] && SeparatorLength(a + b, i) == SeparatorLength(a, i)
    ensures (a + b)[i + SeparatorLength(a, i)..] == a[i + SeparatorLength(a, i)..] + b
    ensures IsSeparator(a[i]) ==> Cut(a[i + SeparatorLength(a, i)..], b) == Cut(a, b)
  {
    assert (a + b)[..i] == a[..i];
    assert forall k | 0 <= k <= |a| :: (a + b)[k..] == a[k..] + b;
  }

  /** The first line of the first text is the first line of both, unless the cut is right there. */
  lemma SplitHeadAppend(a: string, b: string)
    requires FirstSeparator(a) < |a| && !(Cut(a, b) && FirstSeparator(a) == |a| - 1)
    ensures var i := FirstSeparator(a);
            var a' := a[i + SeparatorLength(a, i)..];
            && Split(a).lines == [a[..i]] + Split(a').lines && Split(a).tail == Split(a').tail
            && Split(a + b).lines == [a[..i]] + Split(a' + b).lines && Split(a + b).tail == Split(a' + b).tail
            && Cut(a', b) == Cut(a, b)
  {
    hide Split, FirstSeparator, SeparatorLength, Cut, IsSeparator;
    var i := FirstSeparator(a);
    FirstSeparatorExact(a);
    FirstSeparatorAppend(a, b);
    SplitHead(a);
    SplitHead(a + b);
    HeadAppend(a, b, i);
  }

  lemma CutFacts(a: string, b: string)
    requires Cut(a, b)
    ensures var i := |a| - 1;
            && SeparatorLength(a, i) == 1 && a[i + 1..] == "" && (a + b)[..i] == a[..i]
            && SeparatorLength(a + b, i) == 2 && (a + b)[i + 2..] == b[1..]
            && FirstSeparator(b) == 0 && SeparatorLength(b, 0) == 1 && b[..0] == ""
  {
  }

  lemma SplitAtCut(a: string, b: string)
    requires Cut(a, b) && FirstSeparator(a) == |a| - 1
    ensures Split(a) == Parts([a[..|a| - 1]], "")
    ensures Split(b).lines == [""] + Split(b[1..]).lines && Split(b).tail == Split(b[1..]).tail
    ensures Split(a + b).lines == [a[..|a| - 1]] + Split(b[1..]).lines && Split(a + b).tail == Split(b[1..]).tail
  {
    FirstSeparatorAppend(a, b);
    CutFacts(a, b);
    SplitHead(a);
    SplitHead("");
    SplitHead(a + b);
    SplitHead(b);
    assert FirstSeparator("") == 0;
    hide Split, FirstSeparator, SeparatorLength, Cut, IsSeparator;
    assert [a[..|a| - 1]] + [] == [a[..|a| - 1]];
  }

  /**
   Splitting in two instalments, the second one continuing the first one's tail, is splitting at once,
   except that a CRLF cut in two counts as two separators with an empty line between them.
   */
  lemma {:induction false} SplitAppend(a: string, b: string)
    ensures Split(a + b).tail == Split(Split(a).tail + b).tail
    ensures !Cut(a, b) ==> Split(a + b).lines == Split(a).lines + Split(Split(a).tail + b).lines
    ensures Cut(a, b) ==> Split(Split(a).tail + b).lines == [""] + Split(b[1..]).lines
                          && Split(a + b).lines == Split(a).lines + Split(b[1..]).lines
    decreases |a|
  {
    hide Split, FirstSeparator, SeparatorLength;
    var i := FirstSeparator(a);
    if i == |a| {
      FirstSeparatorExact(a);
      assert !Cut(a, b);
      SplitHead(a);
    } else if Cut(a, b) && i == |a| - 1 {
      SplitAtCut(a, b);
      assert "" + b == b;
    } else {
      SplitHeadAppend(a, b);
      var a' := a[i + SeparatorLength(a, i)..];
      SplitAppend(a', b);
      hide Cut;
      AppendAssoc([a[..i]], Split(a').lines, Split(Split(a').tail + b).lines);
      if Cut(a, b) { AppendAssoc([a[..i]], Split(a').lines, Split(b[1..]).lines); }
    }
  }

  lemma {:induction false} SplitClean(s: string)
    ensures forall l, k | l in Split(s).lines && 0 <= k < |l| :: !IsSeparator(l[k])
    ensures forall k | 0 <= k < |Split(s).tail| :: !IsSeparator(Split(s).tail[k])
    decreases |s|
  {
    var i := FirstSeparator(s);
    FirstSeparatorExact(s);
    if i < |s| { SplitClean(s[i + SeparatorLength(s, i)..]); }
  }

  lemma {:induction false} ContentAppend(a: string, b: string)
    ensures Content(a + b) == Content(a) + Content(b)
  {
    if a == "" {
      assert a + b == b;
    } else {
      assert (a + b)[1..] == a[1..] + b;
      ContentAppend(a[1..], b);
    }
  }

  lemma {:induction false} ContentOfClean(s: string)
    requires forall k | 0 <= k < |s| :: !IsSeparator(s[k])
    ensures Content(s) == s
  {
    if s != "" { ContentOfClean(s[1..]); }
  }

  lemma {:induction false} JoinedAppend(a: seq<string>, b: seq<string>)
    ensures Joined(a + b) == Joined(a) + Joined(b)
  {
    if a == [] {
      assert a + b == b;
    } else {
      assert (a + b)[1..] == a[1..] + b;
      JoinedAppend(a[1..], b);
    }
  }

  lemma SeparatorsHaveNoContent(s: string)
    requires |s| <= 2 && forall k | 0 <= k < |s| :: IsSeparator(s[k])
    ensures Content(s) == ""
  {
    if s != "" {
      assert s[1..] == "" || s[1..] == [s[1]];
      assert |s| == 2 ==> s[1..][1..] == "";
    }
  }

  lemma ContentAround(a: string, b: string, c: string)
    requires Content(a) == a && Content(b) == ""
    ensures Content(a + (b + c)) == a + Content(c)
  {
    ContentAppend(a, b + c);
    ContentAppend(b, c);
    hide *;
    assert "" + Content(c) == Content(c);
  }

  lemma InThree<T>(s: seq<T>, i: nat, j: nat)
    requires i <= j <= |s|
    ensures s == s[..i] + (s[i..j] + s[j..])
  {
  }

  lemma SeparatorSpan(s: string, i: nat)
    requires i < |s| && IsSeparator(s[i])
    ensures var n := SeparatorLength(s, i); i + n <= |s| && Content(s[i..i + n]) == ""
  {
    SeparatorsHaveNoContent(s[i..i + SeparatorLength(s, i)]);
  }

  lemma HeadContent(s: string, i: nat)
    requires i < |s| && i == FirstSeparator(s)
    ensures Content(s) == s[..i] + Content(s[i + SeparatorLength(s, i)..])
  {
    hide *;
    var n := SeparatorLength(s, i);
    FirstSeparatorExact(s);
    SeparatorSpan(s, i);
    ContentOfClean(s[..i]);
    InThree(s, i, i + n);
    ContentAround(s[..i], s[i..i + n], s[i + n..]);
  }

  lemma JoinedCons(l: string, ls: seq<string>)
    ensures Joined([l] + ls) == l + Joined(ls)
  {
    assert ([l] + ls)[1..] == ls;
  }

  lemma {:induction false} SplitContent(s: string)
    ensures Joined(Split(s).lines) + Split(s).tail == Content(s)
    decreases |s|
  {
    var i := FirstSeparator(s);
    FirstSeparatorExact(s);
    SplitHead(s);
    if i == |s| {
      ContentOfClean(s);
    } else {
      var rest := s[i + SeparatorLength(s, i)..];
      SplitContent(rest);
      HeadContent(s, i);
      JoinedCons(s[..i], Split(rest).lines);
      AppendAssoc(s[..i], Joined(Split(rest).lines), Split(rest).tail);
      hide *;
    }
  }

  lemma {:induction false} NonEmptyAppend(a: seq<string>, b: seq<string>)
    ensures NonEmpty(a + b) == NonEmpty(a) + NonEmpty(b)
  {
    if a == [] {
      assert a + b == b;
    } else {
      assert (a + b)[1..] == a[1..] + b;
      NonEmptyAppend(a[1..], b);
    }
  }

  // ----- Any chunking -----

  lemma FeedLast(chunks: seq<string>)
    requires chunks != []
    ensures var before, chunk := chunks[..|chunks| - 1], chunks[|chunks| - 1];
            && Text(chunks) == Text(before) + chunk
            && Cuts(chunks) == Cuts(before) + (if Cut(Text(before), chunk) then 1 else 0)
            && Feed(chunks).lines == Feed(before).lines + Split(Feed(before).tail + chunk).lines
            && Feed(chunks).tail == Split(Feed(before).tail + chunk).tail
  {
  }

  /** No line contains a separator, nor does the tail. */
  lemma {:induction false} LinesClean(chunks: seq<string>)
    ensures forall l, k | l in Feed(chunks).lines && 0 <= k < |l| :: !IsSeparator(l[k])
    ensures forall k | 0 <= k < |Feed(chunks).tail| :: !IsSeparator(Feed(chunks).tail[k])
  {
    if chunks != [] {
      var before, chunk := chunks[..|chunks| - 1], chunks[|chunks| - 1];
      LinesClean(before);
      FeedLast(chunks);
      SplitClean(Feed(before).tail + chunk);
      hide *;
    }
  }

  lemma Stitch(lines: seq<string>, tail: string, text: string, chunk: string)
    requires Joined(lines) + tail == Content(text) && Content(tail) == tail
    ensures var now := Split(tail + chunk); Joined(lines + now.lines) + now.tail == Content(text + chunk)
  {
    var now := Split(tail + chunk);
    SplitContent(tail + chunk);
    ContentAppend(tail, chunk);
    ContentAppend(text, chunk);
    JoinedAppend(lines, now.lines);
    AppendAssoc(Joined(lines), Joined(now.lines), now.tail);
    AppendAssoc(Joined(lines), tail, Content(chunk));
    hide *;
  }

  /** Emitted lines and the buffered tail hold exactly the non-separator characters, in order. */
  lemma {:induction false} NothingLost(chunks: seq<string>)
    ensures Joined(Feed(chunks).lines) + Feed(chunks).tail == Content(Text(chunks))
  {
    if chunks != [] {
      var before, chunk := chunks[..|chunks| - 1], chunks[|chunks| - 1];
      NothingLost(before);
      FeedLast(chunks);
      LinesClean(before);
      ContentOfClean(Feed(before).tail);
      Stitch(Feed(before).lines, Feed(before).tail, Text(before), chunk);
      hide *;
    }
  }

  /** What `fed` lines emitted so far and the lines of the text so far have to do with each other. */
  ghost predicate SameUpToEmpty(fed: seq<string>, split: seq<string>, cuts: nat) {
    NonEmpty(fed) == NonEmpty(split) && |fed| == |split| + cuts && (cuts == 0 ==> fed == split)
  }

  lemma SameStep(fed: seq<string>, text: string, chunk: string, cuts: nat)
    requires SameUpToEmpty(fed, Split(text).lines, cuts)
    ensures SameUpToEmpty(fed + Split(Split(text).tail + chunk).lines, Split(text + chunk).lines,
                          cuts + (if Cut(text, chunk) then 1 else 0))
  {
    assert NonEmpty([""]) == [];
    hide Split, Cut, NonEmpty;
    var lines, more := Split(text).lines, Split(Split(text).tail + chunk).lines;
    SplitAppend(text, chunk);
    NonEmptyAppend(fed, more);
    if Cut(text, chunk) {
      var rest := Split(chunk[1..]).lines;
      NonEmptyAppend([""], rest);
      NonEmptyAppend(lines, rest);
      assert NonEmpty(more) == NonEmpty(rest);
    } else {
      NonEmptyAppend(lines, more);
    }
  }

  /**
   Against splitting the whole text: the same tail, the same non-empty lines, and one extra (empty)
   line for every chunk boundary inside a CRLF.
   */
  lemma {:induction false} ChunkingExact(chunks: seq<string>)
    ensures Feed(chunks).tail == Split(Text(chunks)).tail
    ensures SameUpToEmpty(Feed(chunks).lines, Split(Text(chunks)).lines, Cuts(chunks))
  {
    if chunks == [] {
      SplitHead("");
    } else {
      var before, chunk := chunks[..|chunks| - 1], chunks[|chunks| - 1];
      ChunkingExact(before);
      FeedLast(chunks);
      SplitAppend(Text(before), chunk);
      SameStep(Feed(before).lines, Text(before), chunk, Cuts(before));
      hide *;
    }
  }

  /** After the flush: equal non-empty lines always, and equal lines exactly when no CRLF was cut. */
  lemma ChunkingIndependent(chunks: seq<string>)
    ensures var emitted := Feed(chunks).lines + Flushed(Feed(chunks).tail);
            && NonEmpty(emitted) == NonEmpty(Whole(Text(chunks)))
            && (emitted == Whole(Text(chunks)) <==> Cuts(chunks) == 0)
  {
    ChunkingExact(chunks);
    var f, w := Feed(chunks), Split(Text(chunks));
    NonEmptyAppend(f.lines, Flushed(f.tail));
    NonEmptyAppend(w.lines, Flushed(w.tail));
    assert |f.lines + Flushed(f.tail)| == |Whole(Text(chunks))| + Cuts(chunks);
  }

  // ----- The buffer -----

  class LineBuffer {
    var pending: string
    /** The calls of onLine so far. */
    var emitted: seq<string>
    ghost var received: seq<string>
    ghost var flushed: bool

    ghost predicate Valid()
      reads this
    {
      !flushed ==> Parts(emitted, pending) == Feed(received)
    }

    constructor ()
      ensures Valid() && !flushed && received == [] && emitted == []
    {
      pending, emitted, received, flushed := "", [], [], false;
    }

    method Push(chunk: string)
      requires Valid() && !flushed
      modifies this
      ensures Valid() && !flushed && received == old(received) + [chunk]
    {
      received := received + [chunk];
      pending := pending + chunk;
      ghost var all := Split(pending);
      ghost var before := emitted;
      assert received[..|received| - 1] == old(received);
      FeedLast(received);
      hide *;
      var index := FirstSeparator(pending);
      while index < |pending|
        invariant index == FirstSeparator(pending) && !flushed && received == old(received) + [chunk]
        invariant emitted + Split(pending).lines == before + all.lines && Split(pending).tail == all.tail
        decreases |pending|
      {
        var separatorLength := SeparatorLength(pending, index);
        SplitHead(pending);
        AppendAssoc(emitted, [pending[..index]], Split(pending[index + separatorLength..]).lines);
        emitted := emitted + [pending[..index]];
        pending := pending[index + separatorLength..];
        index := FirstSeparator(pending);
      }
      SplitHead(pending);
    }

    /** The process closed: the partial line, if any, is a line too. */
    method Flush()
      requires Valid() && !flushed
      modifies this
      ensures flushed && pending == "" && received == old(received)
      ensures emitted == Feed(received).lines + Flushed(Feed(received).tail)
      ensures NonEmpty(emitted) == NonEmpty(Whole(Text(received)))
      ensures emitted == Whole(Text(received)) <==> Cuts(received) == 0
    {
      ChunkingIndependent(received);
      hide Feed, Text, Whole, Cuts;
      if |pending| > 0 {
        emitted := emitted + [pending];
      }
      pending := "";
      flushed := true;
    }
  }
}
