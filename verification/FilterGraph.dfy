/**
 The FFmpeg filter graph of one egress pipeline: the order of the inputs, and the wiring of input pads
 and labels. A graph is well formed when every input is used once under its own kind and every
 intermediate label is made once, before it is used once.
 */
module FilterGraph {
  import opened Common

  datatype Kind = Audio | Video
  datatype Source = Camera | Screen
  datatype Input = Input(kind: Kind, source: Source, sdp: nat)

  /** The groups of the input order. */
  datatype Group = Audios | Screens | Cameras

  datatype Label = Aout | Vout | Base | Stacked | TileLabel(tile: nat)

  /** `[k:a]` or `[k:v]` for the k-th `-i` option, or the output of an earlier segment. */
  datatype Pad = InputPad(index: nat, kind: Kind) | LabelPad(name: Label)

  datatype Op = Anull | Amix(inputs: nat) | FitCanvas | Color | FitTile | Xstack(inputs: nat, layout: seq<string>) | Overlay

  datatype Segment = Segment(pads: seq<Pad>, op: Op, output: Label)

  datatype Outputs = Outputs(rtmpEndpoints: nat, hls: bool, record: bool, hlsDir: bool, recordingDir: bool)

  datatype Error = NoAudio | TooManyVideos | NoOutput | NoHlsDir | NoRecordingDir

  /** Options in front of the filter graph: the whitelist is scoped to the input that follows it. */
  datatype InputOption = ProtocolWhitelist | InputFile(sdp: nat)

  datatype Args = Args(inputs: seq<InputOption>, graph: seq<Segment>, maps: seq<Label>)

  datatype Result<T> = Ok(value: T) | Err(error: Error)

  const XSTACK_LAYOUT_2X2: seq<string> := ["0_0", "w0_0", "0_h0", "w0_h0"]

  // ----- Input order -----

  function GroupOf(i: Input): Group {
    if i.kind == Audio then Audios else if i.source == Screen then Screens else Cameras
  }

  /** The inputs of one group, in the caller's order. */
  function Select(inputs: seq<Input>, g: Group): seq<Input> {
    if inputs == [] then [] else (if GroupOf(inputs[0]) == g then [inputs[0]] else []) + Select(inputs[1..], g)
  }

  function SortedInputs(inputs: seq<Input>): seq<Input> {
    Select(inputs, Audios) + Select(inputs, Screens) + Select(inputs, Cameras)
  }

  lemma {:induction false} SelectAppend(a: seq<Input>, b: seq<Input>, g: Group)
    ensures Select(a + b, g) == Select(a, g) + Select(b, g)
  {
    if a == [] {
      assert a + b == b;
    } else {
      assert (a + b)[1..] == a[1..] + b && (a + b)[0] == a[0];
      SelectAppend(a[1..], b, g);
      SelectHead(a, g);
      SelectHead(a + b, g);
      hide *;
    }
  }

  lemma SelectHead(inputs: seq<Input>, g: Group)
    requires inputs != []
    ensures Select(inputs, g) == (if GroupOf(inputs[0]) == g then [inputs[0]] else []) + Select(inputs[1..], g)
  {
  }

  lemma {:induction false} SelectSelect(inputs: seq<Input>, g: Group, h: Group)
    ensures Select(Select(inputs, g), h) == if g == h then Select(inputs, g) else []
    ensures forall i | i in Select(inputs, g) :: GroupOf(i) == g
  {
    if inputs != [] {
      SelectSelect(inputs[1..], g, h);
      var rest := Select(inputs[1..], g);
      if GroupOf(inputs[0]) == g {
        assert Select(inputs, g) == [inputs[0]] + rest;
        assert ([inputs[0]] + rest)[1..] == rest;
      } else {
        assert Select(inputs, g) == rest;
      }
    }
  }

  lemma {:induction false} GroupsPartition(inputs: seq<Input>)
    ensures multiset(inputs) == multiset(Select(inputs, Audios)) + multiset(Select(inputs, Screens)) + multiset(Select(inputs, Cameras))
  {
    if inputs != [] {
      GroupsPartition(inputs[1..]);
      assert inputs == [inputs[0]] + inputs[1..];
    }
  }

  /** The order is a permutation, stable within each group; SortedKinds says where the groups lie. */
  lemma SortedInputsStable(inputs: seq<Input>)
    ensures forall g :: Select(SortedInputs(inputs), g) == Select(inputs, g)
    ensures multiset(SortedInputs(inputs)) == multiset(inputs)
  {
    forall g ensures Select(SortedInputs(inputs), g) == Select(inputs, g) { SortedGroup(inputs, g); }
    GroupsPartition(inputs);
    hide Select;
  }

  lemma SortedGroup(inputs: seq<Input>, g: Group)
    ensures Select(SortedInputs(inputs), g) == Select(inputs, g)
  {
    hide Select;
    var a, s, c := Select(inputs, Audios), Select(inputs, Screens), Select(inputs, Cameras);
    SelectAppend(a + s, c, g);
    SelectAppend(a, s, g);
    SelectSelect(inputs, Audios, g);
    SelectSelect(inputs, Screens, g);
    SelectSelect(inputs, Cameras, g);
  }

  /** Audio comes first, then screens, then cameras. */
  lemma SortedKinds(inputs: seq<Input>, k: nat)
    requires k < |SortedInputs(inputs)|
    ensures var a, s := |Select(inputs, Audios)|, |Select(inputs, Screens)|; var i := SortedInputs(inputs)[k];
            && (i.kind == Audio <==> k < a)
            && (i.kind == Video && i.source == Screen <==> a <= k < a + s)
            && (i.kind == Video && i.source == Camera <==> a + s <= k)
  {
    SortedGroups(inputs, k);
    hide SortedInputs, Select;
  }

  lemma SortedGroups(inputs: seq<Input>, k: nat)
    requires k < |SortedInputs(inputs)|
    ensures var a, s := |Select(inputs, Audios)|, |Select(inputs, Screens)|;
            GroupOf(SortedInputs(inputs)[k]) == if k < a then Audios else if k < a + s then Screens else Cameras
  {
    hide Select, GroupOf;
    var a, s, c := Select(inputs, Audios), Select(inputs, Screens), Select(inputs, Cameras);
    SelectSelect(inputs, Audios, Audios);
    SelectSelect(inputs, Screens, Screens);
    SelectSelect(inputs, Cameras, Cameras);
    if k < |a| {
      assert SortedInputs(inputs)[k] == a[k] && a[k] in a;
    } else if k < |a| + |s| {
      assert SortedInputs(inputs)[k] == s[k - |a|] && s[k - |a|] in s;
    } else {
      assert SortedInputs(inputs)[k] == c[k - |a| - |s|] && c[k - |a| - |s|] in c;
    }
  }

  // ----- The graph -----

  function InputPads(from: nat, n: nat, kind: Kind): (ps: seq<Pad>)
    ensures |ps| == n && forall i | 0 <= i < n :: ps[i] == InputPad(from + i, kind)
  {
    seq(n, i requires 0 <= i < n => InputPad(from + i, kind))
  }

  function TilePads(n: nat): (ps: seq<Pad>)
    ensures |ps| == n && forall i | 0 <= i < n :: ps[i] == LabelPad(TileLabel(i))
  {
    seq(n, i requires 0 <= i < n => LabelPad(TileLabel(i)))
  }

  function TileSegments(audioCount: nat, n: nat): (gs: seq<Segment>)
    ensures |gs| == n && forall i | 0 <= i < n :: gs[i] == Segment([InputPad(audioCount + i, Video)], FitTile, TileLabel(i))
  {
    seq(n, i requires 0 <= i < n => Segment([InputPad(audioCount + i, Video)], FitTile, TileLabel(i)))
  }

  function AudioSegment(audioCount: nat): Segment {
    if audioCount == 1 then Segment([InputPad(0, Audio)], Anull, Aout)
    else Segment(InputPads(0, audioCount, Audio), Amix(audioCount), Aout)
  }

  function VideoSegments(audioCount: nat, videoCount: nat): seq<Segment>
    requires videoCount <= |XSTACK_LAYOUT_2X2|
  {
    if videoCount == 0 then []
    else if videoCount == 1 then [Segment([InputPad(audioCount, Video)], FitCanvas, Vout)]
    else [Segment([], Color, Base)] + TileSegments(audioCount, videoCount)
         + [Segment(TilePads(videoCount), Xstack(videoCount, XSTACK_LAYOUT_2X2[..videoCount]), Stacked),
            Segment([LabelPad(Base), LabelPad(Stacked)], Overlay, Vout)]
  }

  function Graph(audioCount: nat, videoCount: nat): seq<Segment>
    requires videoCount <= |XSTACK_LAYOUT_2X2|
  {
    [AudioSegment(audioCount)] + VideoSegments(audioCount, videoCount)
  }

  /** amix over the audio inputs; scale, stack and overlay of the videos. */
  method ComposeFilterComplex(audioCount: nat, videoCount: nat) returns (segments: seq<Segment>)
    requires videoCount <= |XSTACK_LAYOUT_2X2|
    ensures segments == Graph(audioCount, videoCount)
  {
    segments := [];
    if audioCount == 1 {
      segments := segments + [Segment([InputPad(0, Audio)], Anull, Aout)];
    } else {
      var audioLabels := [];
      for index := 0 to audioCount
        invariant audioLabels == InputPads(0, index, Audio)
      {
        audioLabels := audioLabels + [InputPad(index, Audio)];
      }
      segments := segments + [Segment(audioLabels, Amix(audioCount), Aout)];
    }
    assert segments == [AudioSegment(audioCount)];
    if videoCount == 1 {
      segments := segments + [Segment([InputPad(audioCount, Video)], FitCanvas, Vout)];
    } else if videoCount > 1 {
      var video := [Segment([], Color, Base)];
      for tile := 0 to videoCount
        invariant video == [Segment([], Color, Base)] + TileSegments(audioCount, tile)
      {
        video := video + [Segment([InputPad(audioCount + tile, Video)], FitTile, TileLabel(tile))];
      }
      var tileLabels := [];
      for tile := 0 to videoCount
        invariant tileLabels == TilePads(tile)
      {
        tileLabels := tileLabels + [LabelPad(TileLabel(tile))];
      }
      var stack := [Segment(tileLabels, Xstack(videoCount, XSTACK_LAYOUT_2X2[..videoCount]), Stacked),
                    Segment([LabelPad(Base), LabelPad(Stacked)], Overlay, Vout)];
      segments := segments + (video + stack);
    }
  }

  // ----- Well-formedness -----

  /** Every pad consumed by the segments, in order. */
  function Uses(gs: seq<Segment>): seq<Pad> {
    if gs == [] then [] else gs[0].pads + Uses(gs[1..])
  }

  function Made(gs: seq<Segment>): (ls: seq<Label>)
    ensures |ls| == |gs| && forall i | 0 <= i < |gs| :: ls[i] == gs[i].output
  {
    seq(|gs|, i requires 0 <= i < |gs| => gs[i].output)
  }

  /** Labels left for `-map`: made by a segment and used by none. */
  ghost predicate Free(gs: seq<Segment>, l: Label) { l in Made(gs) && LabelPad(l) !in Uses(gs) }

  /** Every input is used once, under its own kind. */
  ghost predicate PadsOk(gs: seq<Segment>, inputs: seq<Input>) {
    && Distinct(Uses(gs))
    && (forall p | p in Uses(gs) && p.InputPad? :: p.index < |inputs| && inputs[p.index].kind == p.kind)
    && (forall k | 0 <= k < |inputs| :: InputPad(k, inputs[k].kind) in Uses(gs))
  }

  /** A label used by a segment is made by an earlier one. */
  ghost predicate OrderOk(gs: seq<Segment>) {
    forall i, p | 0 <= i < |gs| && p in gs[i].pads && p.LabelPad? :: exists j | 0 <= j < i :: gs[j].output == p.name
  }

  /** Filters declare as many inputs, and tile positions, as they are given pads. */
  ghost predicate ArityOk(gs: seq<Segment>) {
    forall i | 0 <= i < |gs| ::
      && (gs[i].op.Amix? || gs[i].op.Xstack? ==> gs[i].op.inputs == |gs[i].pads|)
      && (gs[i].op.Xstack? ==> |gs[i].op.layout| == |gs[i].pads|)
  }

  ghost predicate WellFormed(gs: seq<Segment>, inputs: seq<Input>) {
    PadsOk(gs, inputs) && Distinct(Made(gs)) && OrderOk(gs) && ArityOk(gs)
  }

  lemma {:induction false} UsesAppend(a: seq<Segment>, b: seq<Segment>)
    ensures Uses(a + b) == Uses(a) + Uses(b)
  {
    if a == [] {
      assert a + b == b;
    } else {
      assert (a + b)[1..] == a[1..] + b;
      UsesAppend(a[1..], b);
    }
  }

  lemma {:induction false} TileUses(audioCount: nat, n: nat)
    ensures Uses(TileSegments(audioCount, n)) == InputPads(audioCount, n, Video)
  {
    if n > 0 {
      TileUses(audioCount, n - 1);
      var last := Segment([InputPad(audioCount + (n - 1), Video)], FitTile, TileLabel(n - 1));
      assert TileSegments(audioCount, n) == TileSegments(audioCount, n - 1) + [last];
      UsesAppend(TileSegments(audioCount, n - 1), [last]);
      assert Uses([last]) == last.pads + Uses([]) == last.pads;
    }
  }

  lemma UsesOne(g: Segment)
    ensures Uses([g]) == g.pads
  {
    assert [g][1..] == [] && Uses([]) == [];
  }

  lemma StackUses(a: nat, v: nat)
    requires 2 <= v <= |XSTACK_LAYOUT_2X2|
    ensures Uses(VideoSegments(a, v)) == InputPads(a, v, Video) + (TilePads(v) + [LabelPad(Base), LabelPad(Stacked)])
  {
    var color := Segment([], Color, Base);
    var stack := Segment(TilePads(v), Xstack(v, XSTACK_LAYOUT_2X2[..v]), Stacked);
    var over := Segment([LabelPad(Base), LabelPad(Stacked)], Overlay, Vout);
    assert VideoSegments(a, v) == [color] + TileSegments(a, v) + [stack, over];
    hide Uses, VideoSegments;
    UsesAppend([color] + TileSegments(a, v), [stack, over]);
    UsesAppend([color], TileSegments(a, v));
    TileUses(a, v);
    UsesOne(color);
    UsesOne(stack);
    UsesOne(over);
    UsesAppend([stack], [over]);
    assert [stack] + [over] == [stack, over];
    assert [] + InputPads(a, v, Video) == InputPads(a, v, Video);
  }

  /** All pads of the graph, in order. */
  lemma GraphUses(a: nat, v: nat)
    requires v <= |XSTACK_LAYOUT_2X2|
    ensures Uses(Graph(a, v)) == InputPads(0, a, Audio) + InputPads(a, v, Video)
                                 + (if v <= 1 then [] else TilePads(v) + [LabelPad(Base), LabelPad(Stacked)])
  {
    UsesAppend([AudioSegment(a)], VideoSegments(a, v));
    UsesOne(AudioSegment(a));
    assert AudioSegment(a).pads == InputPads(0, a, Audio);
    if v == 0 {
      assert Uses(VideoSegments(a, 0)) == [] && InputPads(a, 0, Video) == [];
    } else if v == 1 {
      UsesOne(Segment([InputPad(a, Video)], FitCanvas, Vout));
      assert [InputPad(a, Video)] == InputPads(a, 1, Video);
    } else {
      hide Uses, VideoSegments, AudioSegment;
      StackUses(a, v);
      AppendAssoc(InputPads(0, a, Audio), InputPads(a, v, Video), TilePads(v) + [LabelPad(Base), LabelPad(Stacked)]);
    }
  }

  lemma DistinctAppend<T(!new)>(a: seq<T>, b: seq<T>)
    requires Distinct(a) && Distinct(b) && forall x | x in a :: x !in b
    ensures Distinct(a + b)
  {
    forall i, j | 0 <= i < j < |a + b| ensures (a + b)[i] != (a + b)[j] {
      if i < |a| && j >= |a| { assert a[i] in a && b[j - |a|] in b; }
    }
  }

  lemma UsesDistinct(a: nat, v: nat)
    ensures Distinct(InputPads(0, a, Audio) + InputPads(a, v, Video) + (TilePads(v) + [LabelPad(Base), LabelPad(Stacked)]))
    ensures Distinct(InputPads(0, a, Audio) + InputPads(a, v, Video) + [])
  {
    DistinctAppend(InputPads(0, a, Audio), InputPads(a, v, Video));
    DistinctAppend(TilePads(v), [LabelPad(Base), LabelPad(Stacked)]);
    DistinctAppend(InputPads(0, a, Audio) + InputPads(a, v, Video), TilePads(v) + [LabelPad(Base), LabelPad(Stacked)]);
    DistinctAppend(InputPads(0, a, Audio) + InputPads(a, v, Video), []);
  }

  /** The segments of a graph by position. */
  ghost predicate Shape(gs: seq<Segment>, a: nat, v: nat)
    requires v <= |XSTACK_LAYOUT_2X2|
  {
    && |gs| == (if v <= 1 then v + 1 else v + 4) && gs[0] == AudioSegment(a)
    && (v == 1 ==> gs[1] == Segment([InputPad(a, Video)], FitCanvas, Vout))
    && (v >= 2 ==>
          && gs[1] == Segment([], Color, Base)
          && (forall i | 2 <= i < v + 2 :: gs[i] == Segment([InputPad(a + i - 2, Video)], FitTile, TileLabel(i - 2)))
          && gs[v + 2] == Segment(TilePads(v), Xstack(v, XSTACK_LAYOUT_2X2[..v]), Stacked)
          && gs[v + 3] == Segment([LabelPad(Base), LabelPad(Stacked)], Overlay, Vout))
  }

  lemma GraphShape(a: nat, v: nat)
    requires v <= |XSTACK_LAYOUT_2X2|
    ensures Shape(Graph(a, v), a, v)
  {
  }

  lemma ShapeOrdered(gs: seq<Segment>, a: nat, v: nat)
    requires v <= |XSTACK_LAYOUT_2X2| && Shape(gs, a, v)
    ensures OrderOk(gs)
  {
    forall i, p | 0 <= i < |gs| && p in gs[i].pads && p.LabelPad? ensures exists j | 0 <= j < i :: gs[j].output == p.name {
      assert i == v + 2 || i == v + 3;
      if i == v + 2 {
        var k :| 0 <= k < v && TilePads(v)[k] == p;
        assert gs[k + 2].output == p.name;
      } else {
        assert gs[1].output == Base && gs[v + 2].output == Stacked;
      }
    }
  }

  lemma ShapeArity(gs: seq<Segment>, a: nat, v: nat)
    requires v <= |XSTACK_LAYOUT_2X2| && Shape(gs, a, v)
    ensures ArityOk(gs) && Distinct(Made(gs))
  {
  }

  /** Where a label is made. */
  function Maker(v: nat, l: Label): nat {
    match l case Aout => 0 case Base => 1 case TileLabel(t) => t + 2 case Stacked => v + 2 case Vout => if v == 1 then 1 else v + 3
  }

  predicate IsIntermediate(v: nat, l: Label) { v >= 2 && (l == Base || l == Stacked || (l.TileLabel? && l.tile < v)) }

  predicate IsFinal(v: nat, l: Label) { l == Aout || (l == Vout && v > 0) }

  lemma ShapeMakes(gs: seq<Segment>, a: nat, v: nat, l: Label)
    requires v <= |XSTACK_LAYOUT_2X2| && Shape(gs, a, v)
    ensures l in Made(gs) <==> IsFinal(v, l) || IsIntermediate(v, l)
  {
    if IsFinal(v, l) || IsIntermediate(v, l) {
      assert gs[Maker(v, l)].output == l;
      assert Made(gs)[Maker(v, l)] == l;
    }
  }

  lemma TileMembers(v: nat, l: Label)
    ensures LabelPad(l) in TilePads(v) <==> l.TileLabel? && l.tile < v
  {
    if l.TileLabel? && l.tile < v { assert TilePads(v)[l.tile] == LabelPad(l); }
  }

  lemma InputMembers(from: nat, n: nat, kind: Kind)
    ensures forall l :: LabelPad(l) !in InputPads(from, n, kind)
    ensures forall k: nat, x :: InputPad(k, x) in InputPads(from, n, kind) <==> x == kind && from <= k < from + n
  {
    forall k: nat | from <= k < from + n ensures InputPad(k, kind) in InputPads(from, n, kind) {
      assert InputPads(from, n, kind)[k - from] == InputPad(k, kind);
    }
  }

  lemma LabelsUsed(a: nat, v: nat, l: Label)
    requires v <= |XSTACK_LAYOUT_2X2|
    ensures LabelPad(l) in Uses(Graph(a, v)) <==> IsIntermediate(v, l)
  {
    hide Uses, Graph, InputPads, TilePads;
    GraphUses(a, v);
    TileMembers(v, l);
    InputMembers(0, a, Audio);
    InputMembers(a, v, Video);
  }

  /** The free labels are aout, plus vout exactly when there is a video. */
  lemma FreeLabels(a: nat, v: nat, l: Label)
    requires v <= |XSTACK_LAYOUT_2X2|
    ensures Free(Graph(a, v), l) <==> IsFinal(v, l)
  {
    GraphShape(a, v);
    ShapeMakes(Graph(a, v), a, v, l);
    LabelsUsed(a, v, l);
    hide Graph, Shape, Made, Uses;
  }

  lemma GraphPadsOk(a: nat, v: nat, inputs: seq<Input>)
    requires v <= |XSTACK_LAYOUT_2X2| && |inputs| == a + v
    requires forall k | 0 <= k < a + v :: inputs[k].kind == if k < a then Audio else Video
    ensures PadsOk(Graph(a, v), inputs)
  {
    hide Uses, Graph, InputPads, TilePads, Distinct;
    GraphUses(a, v);
    UsesDistinct(a, v);
    InputMembers(0, a, Audio);
    InputMembers(a, v, Video);
    forall k: nat, x ensures InputPad(k, x) !in TilePads(v) { TileInputs(v, k, x); }
  }

  lemma TileInputs(v: nat, k: nat, x: Kind)
    ensures InputPad(k, x) !in TilePads(v)
  {
  }

  /**
   For any number of audio inputs and up to four videos: every pad refers to an input of its own kind
   or to an earlier label, every input and every intermediate label is used exactly once, and the
   free labels are aout, plus vout exactly when there is a video.
   */
  lemma GraphWellFormed(inputs: seq<Input>)
    requires |SortedInputs(inputs)| - |Select(inputs, Audios)| <= |XSTACK_LAYOUT_2X2|
    ensures var a := |Select(inputs, Audios)|;
            var v := |SortedInputs(inputs)| - a;
            && WellFormed(Graph(a, v), SortedInputs(inputs))
            && (forall l :: Free(Graph(a, v), l) <==> l == Aout || (l == Vout && v > 0))
  {
    var ordered, a := SortedInputs(inputs), |Select(inputs, Audios)|;
    var v := |ordered| - a;
    forall k | 0 <= k < |ordered| ensures ordered[k].kind == if k < a then Audio else Video { SortedKinds(inputs, k); }
    hide SortedInputs, Select;
    GraphPadsOk(a, v, ordered);
    GraphShape(a, v);
    ShapeOrdered(Graph(a, v), a, v);
    ShapeArity(Graph(a, v), a, v);
    hide Graph, Free, Shape, OrderOk, ArityOk, PadsOk;
    forall l ensures Free(Graph(a, v), l) <==> l == Aout || (l == Vout && v > 0) { FreeLabels(a, v, l); }
  }

  /** Tile `i` of the stack lies in column `i % 2` and row `i / 2` of a two by two grid. */
  lemma LayoutExactly(i: nat)
    requires i < |XSTACK_LAYOUT_2X2|
    ensures |XSTACK_LAYOUT_2X2| == 4
    ensures XSTACK_LAYOUT_2X2[i] == (if i % 2 == 0 then "0" else "w0") + "_" + (if i / 2 == 0 then "0" else "h0")
  {
    assert i == 0 || i == 1 || i == 2 || i == 3;
  }

  // ----- The arguments -----

  function TeeError(o: Outputs): Option<Error> {
    if o.rtmpEndpoints == 0 && !o.hls && !o.record then Some(NoOutput)
    else if o.hls && !o.hlsDir then Some(NoHlsDir)
    else if o.record && !o.recordingDir then Some(NoRecordingDir)
    else None
  }

  /** The first error the composition meets, if any. */
  function ArgsError(inputs: seq<Input>, o: Outputs): Option<Error> {
    var audioCount := |Select(inputs, Audios)|;
    if audioCount == 0 then Some(NoAudio)
    else if |SortedInputs(inputs)| - audioCount > |XSTACK_LAYOUT_2X2| then Some(TooManyVideos)
    else TeeError(o)
  }

  /** How many inputs are of the kind. */
  function Count(inputs: seq<Input>, kind: Kind): nat {
    if inputs == [] then 0 else (if inputs[0].kind == kind then 1 else 0) + Count(inputs[1..], kind)
  }

  lemma {:induction false} CountExactly(inputs: seq<Input>)
    ensures |Select(inputs, Audios)| == Count(inputs, Audio)
    ensures |Select(inputs, Screens)| + |Select(inputs, Cameras)| == Count(inputs, Video)
  {
    if inputs != [] { CountExactly(inputs[1..]); }
  }

  /** What the composition refuses, in this order: no audio, more than four videos, no output, a directory missing. */
  lemma ArgsErrorExactly(inputs: seq<Input>, o: Outputs)
    ensures var e := ArgsError(inputs, o);
            var graphable := Count(inputs, Audio) > 0 && Count(inputs, Video) <= 4;
            var output := o.rtmpEndpoints > 0 || o.hls || o.record;
            && (e == Some(NoAudio) <==> Count(inputs, Audio) == 0)
            && (e == Some(TooManyVideos) <==> Count(inputs, Audio) > 0 && Count(inputs, Video) > 4)
            && (e == Some(NoOutput) <==> graphable && !output)
            && (e == Some(NoHlsDir) <==> graphable && o.hls && !o.hlsDir)
            && (e == Some(NoRecordingDir) <==> graphable && (o.hls ==> o.hlsDir) && o.record && !o.recordingDir)
            && (e == None <==> graphable && output && (o.hls ==> o.hlsDir) && (o.record ==> o.recordingDir))
  {
    CountExactly(inputs);
    hide Select, Count;
  }

  /** The k-th input option is the k-th input's file, each directly behind a whitelist of its own. */
  ghost predicate ListsInputs(options: seq<InputOption>, inputs: seq<Input>) {
    && |options| == 2 * |inputs|
    && forall k | 0 <= k < |inputs| :: options[2 * k] == ProtocolWhitelist && options[2 * k + 1] == InputFile(inputs[k].sdp)
  }

  method ListInputs(ordered: seq<Input>) returns (options: seq<InputOption>)
    ensures ListsInputs(options, ordered)
  {
    options := [];
    for k := 0 to |ordered|
      invariant |options| == 2 * k
      invariant forall j | 0 <= j < k :: options[2 * j] == ProtocolWhitelist && options[2 * j + 1] == InputFile(ordered[j].sdp)
    {
      options := options + [ProtocolWhitelist, InputFile(ordered[k].sdp)];
    }
  }

  /** The graph and the labels mapped to the outputs, which are exactly its free ones. */
  method ComposeGraph(audioCount: nat, videoCount: nat) returns (graph: seq<Segment>, maps: seq<Label>)
    requires videoCount <= |XSTACK_LAYOUT_2X2|
    ensures graph == Graph(audioCount, videoCount)
    ensures Distinct(maps) && forall l :: l in maps <==> Free(graph, l)
  {
    graph := ComposeFilterComplex(audioCount, videoCount);
    maps := [Aout];
    if videoCount > 0 {
      maps := maps + [Vout];
    }
    hide Graph, Free;
    forall l ensures l in maps <==> Free(graph, l) { FreeLabels(audioCount, videoCount, l); }
  }

  /** The input options in sorted order, the filter graph over them, and the mapped labels. */
  method ComposeEgressArgs(inputs: seq<Input>, o: Outputs) returns (r: Result<Args>)
    ensures r.Err? <==> ArgsError(inputs, o).Some?
    ensures r.Err? ==> Some(r.error) == ArgsError(inputs, o)
    ensures r.Ok? <==> Count(inputs, Audio) > 0 && Count(inputs, Video) <= 4 && (o.rtmpEndpoints > 0 || o.hls || o.record)
                       && (o.hls ==> o.hlsDir) && (o.record ==> o.recordingDir)
    ensures r.Ok? ==> ListsInputs(r.value.inputs, SortedInputs(inputs)) && WellFormed(r.value.graph, SortedInputs(inputs))
    ensures r.Ok? ==> Distinct(r.value.maps) && forall l :: l in r.value.maps <==> Free(r.value.graph, l)
  {
    ArgsErrorExactly(inputs, o);
    hide Select, Free, WellFormed, Graph, TeeError, Distinct, ListsInputs;
    var ordered := SortedInputs(inputs);
    var audioCount := |Select(ordered, Audios)|;
    SortedInputsStable(inputs);
    assert audioCount == |Select(inputs, Audios)| <= |ordered|;
    hide SortedInputs;
    var videoCount := |ordered| - audioCount;
    if audioCount == 0 { return Err(NoAudio); }
    if videoCount > |XSTACK_LAYOUT_2X2| { return Err(TooManyVideos); }
    GraphWellFormed(inputs);
    var options := ListInputs(ordered);
    var graph, maps := ComposeGraph(audioCount, videoCount);
    var error := TeeError(o);
    if error.Some? { return Err(error.value); }
    r := Ok(Args(options, graph, maps));
  }
}
