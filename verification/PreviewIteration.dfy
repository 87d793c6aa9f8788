/** One whole turn of the preview loop: what it leaves in the segment, and that it is a run of the
    pipeline's small steps. */
module PreviewIteration {
  import opened Wrappers
  import opened Bytes
  import opened Modular
  import opened Layout
  import opened Segment
  import opened FramePublication

  function Truncated(sample: seq<byte>, capacity: nat): (frame: seq<byte>)
    ensures frame <= sample && |frame| == if |sample| > capacity then capacity else |sample|
  {
    if |sample| > capacity then sample[..capacity] else sample
  }

  /** updateMetaBuffer and updateSolutionBuffer: a text that does not fit is left out. */
  function SetText(g: Geometry, seg: seq<byte>, i: nat, c: Channel, text: seq<byte>): (t: seq<byte>)
    requires Fits(g, seg) && i < g.bufferCount
    ensures |t| == |seg|
  {
    if |text| <= Cap(g, c) then SetPayload(g, seg, i, c, text) else seg
  }

  /** The segment after frame `frame` went through slot `i`. */
  function Published(g: Geometry, seg: seq<byte>, i: nat, frame: seq<byte>, meta: seq<byte>,
                     solution: seq<byte>): (t: seq<byte>)
    requires Fits(g, seg) && i < g.bufferCount && |frame| <= g.dataSize
    ensures |t| == |seg|
  {
    var s := SetText(g, SetText(g, SetPayload(g, seg, i, Data, frame), i, Meta, meta), i, Solution, solution);
    Increment(g, WriteHeader(g, s, i, |frame|))
  }

  /** The small steps of that turn. */
  function TurnSteps(sample: seq<byte>, frame: seq<byte>, meta: seq<byte>, solution: seq<byte>): seq<Step> {
    [Pull(Some(sample))] + seq(|frame|, _ => CopyByte)
    + [CopyDone, Annotate(Meta, meta), Annotate(Solution, solution)] + [StoreIndex, StoreSize, Advance]
  }

  /** The state after the turn. */
  function Turn(g: Geometry, p: Pipeline, sample: seq<byte>, meta: seq<byte>, solution: seq<byte>): (q: Pipeline)
    requires Sound(g, p)
    ensures Sound(g, q)
  {
    var i := p.nextBuffer;
    var frame := Truncated(sample, g.dataSize);
    p.(seg := Published(g, p.seg, i, frame, meta, solution), lengths := p.lengths[i := |frame|],
       nextBuffer := Next(i, g.bufferCount), phase := Ready, index := i, frame := frame,
       published := p.published + [frame])
  }

  lemma {:induction false} StepsAppend(g: Geometry, p: Pipeline, a: seq<Step>, b: seq<Step>)
    requires Sound(g, p)
    ensures Steps(g, p, a + b) == Steps(g, Steps(g, p, a), b)
  {
    if b == [] {
      assert a + b == a;
    } else {
      StepsAppend(g, p, a, b[..|b| - 1]);
      assert (a + b)[..|a + b| - 1] == a + b[..|b| - 1];
    }
  }

  lemma SetPayloadGrows(g: Geometry, seg: seq<byte>, i: nat, frame: seq<byte>, k: nat)
    requires Fits(g, seg) && i < g.bufferCount && k < |frame| <= g.dataSize
    ensures SetByte(g, SetPayload(g, seg, i, Data, frame[..k]), i, k, frame[k]) ==
            SetPayload(g, seg, i, Data, frame[..k + 1])
  {
  }

  /** k bytes into the memcpy. */
  lemma {:induction false} CopySteps(g: Geometry, p: Pipeline, k: nat)
    requires Sound(g, p) && p.phase == Copying(0) && k <= |p.frame|
    ensures Steps(g, p, seq(k, _ => CopyByte)) ==
            p.(seg := SetPayload(g, p.seg, p.nextBuffer, Data, p.frame[..k]), phase := Copying(k))
  {
    var steps: seq<Step> := seq(k, _ => CopyByte);
    if k == 0 {
      FieldBounds(g, p.nextBuffer, Data);
      assert SetPayload(g, p.seg, p.nextBuffer, Data, []) == p.seg;
    } else {
      assert steps[..k - 1] == seq(k - 1, _ => CopyByte);
      CopySteps(g, p, k - 1);
      SetPayloadGrows(g, p.seg, p.nextBuffer, p.frame, k - 1);
    }
  }

  lemma AnnotateIsSetText(g: Geometry, p: Pipeline, c: Channel, text: seq<byte>)
    requires Sound(g, p) && p.phase.Copied? && (c.Meta? || c.Solution?)
    ensures Apply(g, p, Annotate(c, text)) == p.(seg := SetText(g, p.seg, p.index, c, text))
  {
  }

  lemma OneMore(g: Geometry, p: Pipeline, steps: seq<Step>, s: Step)
    requires Sound(g, p)
    ensures Steps(g, p, steps + [s]) == Apply(g, Steps(g, p, steps), s)
  {
    assert (steps + [s])[..|steps + [s]| - 1] == steps;
  }

  lemma ThreeSteps(g: Geometry, p: Pipeline, a: Step, b: Step, c: Step)
    requires Sound(g, p)
    ensures Steps(g, p, [a, b, c]) == Apply(g, Apply(g, Apply(g, p, a), b), c)
  {
    hide Apply;
    assert Steps(g, p, []) == p;
    OneMore(g, p, [], a);
    OneMore(g, p, [a], b);
    OneMore(g, p, [a, b], c);
    assert [] + [a] == [a] && [a] + [b] == [a, b] && [a, b] + [c] == [a, b, c];
  }

  lemma FourParts(g: Geometry, p: Pipeline, a: seq<Step>, b: seq<Step>, c: seq<Step>, d: seq<Step>)
    requires Sound(g, p)
    ensures Steps(g, p, a + b + c + d) == Steps(g, Steps(g, Steps(g, Steps(g, p, a), b), c), d)
  {
    hide Steps;
    StepsAppend(g, p, a + b + c, d);
    StepsAppend(g, p, a + b, c);
    StepsAppend(g, p, a, b);
  }

  lemma OneStep(g: Geometry, p: Pipeline, s: Step)
    requires Sound(g, p)
    ensures Steps(g, p, [s]) == Apply(g, p, s)
  {
    hide Apply;
    assert Steps(g, p, []) == p;
    OneMore(g, p, [], s);
    assert [] + [s] == [s];
  }

  /** The turn is exactly its small steps, so all that holds between any two of them holds of the
      loop the service runs. */
  lemma TurnIsItsSteps(g: Geometry, p: Pipeline, sample: seq<byte>, meta: seq<byte>, solution: seq<byte>)
    requires Sound(g, p) && p.phase.Ready?
    ensures Steps(g, p, TurnSteps(sample, Truncated(sample, g.dataSize), meta, solution)) ==
            Turn(g, p, sample, meta, solution)
  {
    hide Steps, SetText, SetPayload, WriteHeader, Increment;
    var frame := Truncated(sample, g.dataSize);
    var copies: seq<Step> := seq(|frame|, _ => CopyByte);
    var texts := [CopyDone, Annotate(Meta, meta), Annotate(Solution, solution)];
    FourParts(g, p, [Pull(Some(sample))], copies, texts, [StoreIndex, StoreSize, Advance]);
    OneStep(g, p, Pull(Some(sample)));
    var pulled := Apply(g, p, Pull(Some(sample)));
    assert pulled == p.(phase := Copying(0), frame := frame);
    hide Apply;
    CopySteps(g, pulled, |frame|);
    assert frame[..|frame|] == frame;
    var copied := Steps(g, pulled, copies);
    TextSteps(g, copied, meta, solution);
    StoreSteps(g, Steps(g, copied, texts));
  }

  lemma TextSteps(g: Geometry, p: Pipeline, meta: seq<byte>, solution: seq<byte>)
    requires Sound(g, p) && p.phase == Copying(|p.frame|)
    ensures Steps(g, p, [CopyDone, Annotate(Meta, meta), Annotate(Solution, solution)]) ==
            p.(seg := SetText(g, SetText(g, p.seg, p.nextBuffer, Meta, meta), p.nextBuffer, Solution, solution),
               nextBuffer := Next(p.nextBuffer, g.bufferCount), phase := Copied, index := p.nextBuffer)
  {
    var p1 := Apply(g, p, CopyDone);
    ThreeSteps(g, p, CopyDone, Annotate(Meta, meta), Annotate(Solution, solution));
    AnnotateIsSetText(g, p1, Meta, meta);
    AnnotateIsSetText(g, Apply(g, p1, Annotate(Meta, meta)), Solution, solution);
  }

  /** The two stores of writeHeader, then the index moves on. */
  lemma StoreSteps(g: Geometry, p: Pipeline)
    requires Sound(g, p) && p.phase.Copied?
    ensures Steps(g, p, [StoreIndex, StoreSize, Advance]) ==
            p.(seg := Increment(g, WriteHeader(g, p.seg, p.index, |p.frame|)),
               lengths := p.lengths[p.index := |p.frame|], phase := Ready, published := p.published + [p.frame])
  {
    ThreeSteps(g, p, StoreIndex, StoreSize, Advance);
  }

  /** A turn keeps the pipeline invariant and publishes its frame. */
  lemma TurnKeeps(g: Geometry, p: Pipeline, sample: seq<byte>, meta: seq<byte>, solution: seq<byte>)
    requires Inv(g, p) && p.phase.Ready?
    ensures Inv(g, Turn(g, p, sample, meta, solution))
  {
    TurnIsItsSteps(g, p, sample, meta, solution);
    RunKeeps(g, p, TurnSteps(sample, Truncated(sample, g.dataSize), meta, solution));
  }

  // ---- the texts ----

  /** Channel `c` of slot `i` holds the text if it fits, and otherwise what it held in `was`. */
  ghost predicate HoldsText(g: Geometry, was: seq<byte>, t: seq<byte>, i: nat, c: Channel, text: seq<byte>)
    requires Fits(g, was) && |t| == |was| && i < g.bufferCount
  {
    if |text| <= Cap(g, c) then PayloadAt(g, t, i, c, |text|) == text
    else PayloadAt(g, t, i, c, Cap(g, c)) == PayloadAt(g, was, i, c, Cap(g, c))
  }

  lemma SetTextHolds(g: Geometry, seg: seq<byte>, i: nat, c: Channel, text: seq<byte>)
    requires Fits(g, seg) && i < g.bufferCount
    ensures HoldsText(g, seg, SetText(g, seg, i, c, text), i, c, text)
    ensures SameOutside(seg, SetText(g, seg, i, c, text), SizeOff(g, i, c), PayloadOff(g, i, c) + Cap(g, c))
  {
    if |text| <= Cap(g, c) {
      SetPayloadEffect(g, seg, i, c, text);
    }
  }

  /** A text stays through stores that leave its channel alone. */
  lemma TextStays(g: Geometry, was: seq<byte>, s: seq<byte>, t: seq<byte>, i: nat, c: Channel, text: seq<byte>)
    requires Fits(g, was) && |s| == |t| == |was| && i < g.bufferCount
    requires HoldsText(g, was, s, i, c, text) && SameChannel(g, s, t, i, c)
    ensures HoldsText(g, was, t, i, c, text)
  {
    if |text| <= Cap(g, c) {
      SamePrefix(g, s, t, i, c, |text|);
    }
  }

  /** And through stores before them. */
  lemma TextOver(g: Geometry, was: seq<byte>, s: seq<byte>, t: seq<byte>, i: nat, c: Channel, text: seq<byte>)
    requires Fits(g, was) && |s| == |t| == |was| && i < g.bufferCount
    requires SameChannel(g, was, s, i, c) && HoldsText(g, s, t, i, c, text)
    ensures HoldsText(g, was, t, i, c, text)
  {
  }

  /** A store inside channel `d` of the slot leaves channel `c` alone. */
  lemma OtherChannelSame(g: Geometry, s: seq<byte>, t: seq<byte>, i: nat, d: Channel, c: Channel)
    requires Fits(g, s) && i < g.bufferCount && c != d
    requires SameOutside(s, t, SizeOff(g, i, d), PayloadOff(g, i, d) + Cap(g, d))
    ensures SameChannel(g, s, t, i, c)
  {
    ChannelsApart(g, i, d, i, c);
    ChannelElsewhere(g, s, t, SizeOff(g, i, d), PayloadOff(g, i, d) + Cap(g, d), i, c);
  }

  lemma IndexStoreKeeps(g: Geometry, s: seq<byte>, v: int32, i: nat, c: Channel)
    requires Fits(g, s) && i < g.bufferCount
    ensures SameChannel(g, s, SetIndex(s, v), i, c) && Index(SetIndex(s, v)) == v
  {
    SetIndexEffect(g, s, v);
    FieldBounds(g, i, c);
    ChannelElsewhere(g, s, SetIndex(s, v), 0, 4, i, c);
  }

  lemma SizeStoreKeeps(g: Geometry, s: seq<byte>, v: nat, i: nat, c: Channel)
    requires Fits(g, s) && i < g.bufferCount && v <= g.dataSize && !c.Data?
    ensures SameChannel(g, s, SetSize(g, s, i, Data, v), i, c) && Index(SetSize(g, s, i, Data, v)) == Index(s)
  {
    var t := SetSize(g, s, i, Data, v);
    WordHolds(g, Data, v);
    SetSizeEffect(g, s, i, Data, v);
    FieldBounds(g, i, Data);
    SameSlice(s, t, 0, 4);
    ChannelsApart(g, i, Data, i, c);
    ChannelElsewhere(g, s, t, SizeOff(g, i, Data), PayloadOff(g, i, Data), i, c);
  }

  /** The stores of writeHeader and incrementWriteIndex leave the texts alone, and lead readers to the slot. */
  lemma AnnouncedSlot(g: Geometry, s: seq<byte>, i: nat, length: nat, c: Channel)
    requires Fits(g, s) && i < g.bufferCount && length <= g.dataSize && !c.Data?
    ensures var t := Increment(g, WriteHeader(g, s, i, length));
            && Read(g, t).Frame? && Read(g, t).slot == i
            && SameChannel(g, s, t, i, c)
  {
    var s1 := SetIndex(s, i);
    var s2 := SetSize(g, s1, i, Data, length);
    assert WriteHeader(g, s, i, length) == s2;
    IndexStoreKeeps(g, s, i, i, c);
    SizeStoreKeeps(g, s1, length, i, c);
    IndexStoreKeeps(g, s2, Next(i, g.bufferCount), i, c);
    PrevNext(i, g.bufferCount);
    hide Fits, SetIndex, SetSize, Index, SizeAt, PayloadAt, WriteHeader;
  }

  /** Behind a turn the slot readers are given shows, beside the frame, the texts of that turn that fit; a text that
      does not fit leaves what was there. */
  lemma TextsArePublished(g: Geometry, p: Pipeline, sample: seq<byte>, meta: seq<byte>, solution: seq<byte>)
    requires Inv(g, p) && p.phase.Ready?
    ensures var q := Turn(g, p, sample, meta, solution);
            && Read(g, q.seg).Frame? && Read(g, q.seg).slot == p.nextBuffer
            && HoldsText(g, p.seg, q.seg, p.nextBuffer, Meta, meta)
            && HoldsText(g, p.seg, q.seg, p.nextBuffer, Solution, solution)
  {
    var i, frame := p.nextBuffer, Truncated(sample, g.dataSize);
    var s1 := SetPayload(g, p.seg, i, Data, frame);
    var s2 := SetText(g, s1, i, Meta, meta);
    var s3 := SetText(g, s2, i, Solution, solution);
    var t := Increment(g, WriteHeader(g, s3, i, |frame|));
    SetPayloadEffect(g, p.seg, i, Data, frame);
    SetTextHolds(g, s1, i, Meta, meta);
    SetTextHolds(g, s2, i, Solution, solution);
    AnnouncedSlot(g, s3, i, |frame|, Meta);
    AnnouncedSlot(g, s3, i, |frame|, Solution);
    assert Turn(g, p, sample, meta, solution).seg == t;
    hide Inv, SetPayload, SetText, Increment, WriteHeader, HoldsText, Fits;
    OtherChannelSame(g, p.seg, s1, i, Data, Meta);
    OtherChannelSame(g, p.seg, s1, i, Data, Solution);
    OtherChannelSame(g, s1, s2, i, Meta, Solution);
    OtherChannelSame(g, s2, s3, i, Solution, Meta);
    TextOver(g, p.seg, s1, s2, i, Meta, meta);
    TextStays(g, p.seg, s2, s3, i, Meta, meta);
    TextStays(g, p.seg, s3, t, i, Meta, meta);
    TextOver(g, s1, s2, s3, i, Solution, solution);
    TextOver(g, p.seg, s1, s3, i, Solution, solution);
    TextStays(g, p.seg, s3, t, i, Solution, solution);
  }
}
