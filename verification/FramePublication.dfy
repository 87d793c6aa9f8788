/** The preview pipeline, one step at a time: the plugin copies a frame into a slot byte by byte, the
    service announces it with the two stores of writeHeader and publishes it with incrementWriteIndex.
    Between any two steps a reader may look at the segment. */
module FramePublication {
  import opened Wrappers
  import opened Bytes
  import opened Modular
  import opened Layout
  import opened Segment
  import opened RingHistory

  /** Where the preview loop stands within one frame. */
  datatype Phase = Ready | Copying(pos: nat) | Copied | Pointed | Announced | Ended

  /** `slotLengths` are the capacities the plugin noted in setBuffer, `lengths` the live length fields
      of the service's buffer array, `index` the slot number the plugin handed back, `frame` the bytes
      of the frame under way and `published` the frames published so far. */
  datatype Pipeline = Pipeline(seg: seq<byte>, slotLengths: seq<nat>, lengths: seq<nat>, nextBuffer: nat,
                               phase: Phase, index: nat, frame: seq<byte>, published: seq<seq<byte>>)

  datatype Step =
    | Pull(sample: Option<seq<byte>>)         // try-pull-sample: a frame, or none and the loop ends
    | CopyByte                                // one byte of the plugin's memcpy
    | CopyDone                                // getBuffer returns
    | Annotate(c: Channel, text: seq<byte>)   // updateMetaBuffer, updateSolutionBuffer
    | StoreIndex                              // the length field, then writeHeader up to its first store
    | StoreSize                               // the second store of writeHeader
    | Advance                                 // incrementWriteIndex

  ghost predicate Sound(g: Geometry, p: Pipeline) {
    && Fits(g, p.seg)
    && |p.slotLengths| == |p.lengths| == g.bufferCount
    && p.nextBuffer < g.bufferCount && p.index < g.bufferCount
    && (forall i :: 0 <= i < g.bufferCount ==> p.slotLengths[i] == g.dataSize)
    && |p.frame| <= g.dataSize
  }

  function SetByte(g: Geometry, seg: seq<byte>, i: nat, pos: nat, b: byte): (t: seq<byte>)
    requires Fits(g, seg) && i < g.bufferCount && pos < g.dataSize
    ensures |t| == |seg|
  {
    FieldBounds(g, i, Data);
    Splice(seg, PayloadOff(g, i, Data) + pos, [b])
  }

  /** One step; a step that is not enabled changes nothing. */
  function Apply(g: Geometry, p: Pipeline, step: Step): (q: Pipeline)
    requires Sound(g, p)
    ensures Sound(g, q)
  {
    match step
    case Pull(None) => if p.phase.Ready? then p.(phase := Ended) else p
    case Pull(Some(sample)) =>
      if p.phase.Ready? then
        var capacity := p.slotLengths[p.nextBuffer];
        p.(phase := Copying(0), frame := if |sample| > capacity then sample[..capacity] else sample)
      else p
    case CopyByte =>
      if p.phase.Copying? && p.phase.pos < |p.frame| then
        p.(seg := SetByte(g, p.seg, p.nextBuffer, p.phase.pos, p.frame[p.phase.pos]),
           phase := Copying(p.phase.pos + 1))
      else p
    case CopyDone =>
      if p.phase.Copying? && p.phase.pos == |p.frame| then
        p.(phase := Copied, index := p.nextBuffer, nextBuffer := Next(p.nextBuffer, g.bufferCount))
      else p
    case Annotate(c, text) =>
      if p.phase.Copied? && (c.Meta? || c.Solution?) && |text| <= Cap(g, c) then
        p.(seg := SetPayload(g, p.seg, p.index, c, text))
      else p
    case StoreIndex =>
      if p.phase.Copied? then
        var q := p.(lengths := p.lengths[p.index := |p.frame|]);
        if HeaderAccepts(g, p.index, |p.frame|) then q.(seg := SetIndex(p.seg, p.index), phase := Pointed)
        else q.(phase := Announced)
      else p
    case StoreSize =>
      if p.phase.Pointed? then
        p.(seg := SetSize(g, p.seg, p.index, Data, |p.frame|), phase := Announced)
      else p
    case Advance =>
      if p.phase.Announced? then
        p.(seg := Increment(g, p.seg), phase := Ready, published := p.published + [p.frame])
      else p
  }

  function Steps(g: Geometry, p: Pipeline, steps: seq<Step>): (q: Pipeline)
    requires Sound(g, p)
    ensures Sound(g, q)
  {
    if steps == [] then p else Apply(g, Steps(g, p, steps[..|steps| - 1]), steps[|steps| - 1])
  }

  /** startPreview done: a created segment, capacities noted, nothing pulled yet. */
  ghost predicate Started(g: Geometry, p: Pipeline) {
    && Sound(g, p) && Created(g, p.seg)
    && p.nextBuffer == 0 && p.phase.Ready? && p.published == []
  }

  /** The slot of the next frame to publish. */
  function Current(g: Geometry, p: Pipeline): (i: nat)
    requires Sound(g, p)
    ensures i < g.bufferCount
  {
    Modulo(|p.published|, g.bufferCount)
  }

  /** How many frames have had their slot touched. */
  function Begun(p: Pipeline): nat {
    |p.published| + if p.phase.Ready? || p.phase.Ended? then 0 else 1
  }

  /** Frame number `o`, with the bytes `b`, is whole in its slot. */
  ghost predicate InSlot(g: Geometry, seg: seq<byte>, o: nat, b: seq<byte>)
    requires Fits(g, seg)
  {
    Contains(g, seg, Modulo(o, g.bufferCount), Data, Some(b))
  }

  /** Every published frame whose slot has not been begun again is there, whole. */
  ghost predicate Window(g: Geometry, seg: seq<byte>, published: seq<seq<byte>>, begun: nat)
    requires Fits(g, seg)
  {
    forall o: nat :: o < |published| && begun <= o + g.bufferCount ==>
      InSlot(g, seg, o, published[o])
  }

  ghost predicate Unused(g: Geometry, seg: seq<byte>, from: nat)
    requires Fits(g, seg)
  {
    forall j: nat :: from <= j < g.bufferCount ==> SizeAt(g, seg, j, Data) == 0
  }

  ghost predicate Progress(g: Geometry, p: Pipeline)
    requires Sound(g, p)
  {
    match p.phase
    case Ready => p.nextBuffer == Current(g, p)
    case Ended => p.nextBuffer == Current(g, p)
    case Copying(pos) =>
      p.nextBuffer == Current(g, p) && pos <= |p.frame| &&
      PayloadAt(g, p.seg, Current(g, p), Data, pos) == p.frame[..pos]
    case Copied =>
      p.nextBuffer == Next(Current(g, p), g.bufferCount) && p.index == Current(g, p) &&
      PayloadAt(g, p.seg, Current(g, p), Data, |p.frame|) == p.frame
    case Pointed =>
      p.nextBuffer == Next(Current(g, p), g.bufferCount) && p.index == Current(g, p) &&
      PayloadAt(g, p.seg, Current(g, p), Data, |p.frame|) == p.frame
    case Announced =>
      p.nextBuffer == Next(Current(g, p), g.bufferCount) && p.index == Current(g, p) &&
      Contains(g, p.seg, Current(g, p), Data, Some(p.frame))
  }

  ghost predicate Inv(g: Geometry, p: Pipeline) {
    && Sound(g, p)
    && Progress(g, p)
    && Index(p.seg) == (if p.published == [] && !p.phase.Pointed? && !p.phase.Announced? then -1 else Current(g, p))
    && Window(g, p.seg, p.published, Begun(p))
    && Unused(g, p.seg, if p.phase.Announced? then |p.published| + 1 else |p.published|)
  }

  // ---- what a step leaves alone ----

  /** The data channels of all slots but `cur` read the same. */
  ghost predicate KeepsOthers(g: Geometry, s: seq<byte>, t: seq<byte>, cur: nat)
    requires Fits(g, s) && |t| == |s|
  {
    forall j: nat :: j < g.bufferCount && j != cur ==> SameChannel(g, s, t, j, Data)
  }

  lemma ContainsKept(g: Geometry, s: seq<byte>, t: seq<byte>, j: nat, b: seq<byte>)
    requires Fits(g, s) && |t| == |s| && j < g.bufferCount
    requires Contains(g, s, j, Data, Some(b)) && SameChannel(g, s, t, j, Data)
    ensures Contains(g, t, j, Data, Some(b))
  {
    SamePrefix(g, s, t, j, Data, |b|);
  }

  lemma WindowKept(g: Geometry, s: seq<byte>, t: seq<byte>, published: seq<seq<byte>>)
    requires Fits(g, s) && |t| == |s|
    requires Window(g, s, published, |published| + 1)
    requires KeepsOthers(g, s, t, Modulo(|published|, g.bufferCount))
    ensures Window(g, t, published, |published| + 1)
  {
    forall o: nat | o < |published| && |published| + 1 <= o + g.bufferCount
      ensures InSlot(g, t, o, published[o])
    {
      var j := Modulo(o, g.bufferCount);
      if j == Modulo(|published|, g.bufferCount) {
        SameSlot(o, |published|, g.bufferCount);
      } else {
        assert InSlot(g, s, o, published[o]);
        ContainsKept(g, s, t, j, published[o]);
      }
    }
  }

  lemma UnusedKept(g: Geometry, s: seq<byte>, t: seq<byte>, cur: nat, from: nat)
    requires Fits(g, s) && |t| == |s| && cur < g.bufferCount
    requires Unused(g, s, from) && KeepsOthers(g, s, t, cur)
    requires SizeAt(g, t, cur, Data) == SizeAt(g, s, cur, Data) || cur < from
    ensures Unused(g, t, from)
  {
    forall j: nat | from <= j < g.bufferCount ensures SizeAt(g, t, j, Data) == 0 {
      if j != cur { assert SameChannel(g, s, t, j, Data); }
    }
  }

  lemma SetByteKeeps(g: Geometry, seg: seq<byte>, i: nat, pos: nat, b: byte, j: nat)
    requires Fits(g, seg) && i < g.bufferCount && pos < g.dataSize && j < g.bufferCount && i != j
    ensures SameChannel(g, seg, SetByte(g, seg, i, pos, b), j, Data)
  {
    var off := PayloadOff(g, i, Data) + pos;
    FieldBounds(g, i, Data);
    SpliceReads(seg, off, [b]);
    ChannelsApart(g, i, Data, j, Data);
    ChannelElsewhere(g, seg, SetByte(g, seg, i, pos, b), off, off + 1, j, Data);
  }

  lemma SetByteAppends(g: Geometry, seg: seq<byte>, i: nat, pos: nat, b: byte)
    requires Fits(g, seg) && i < g.bufferCount && pos < g.dataSize
    ensures var t := SetByte(g, seg, i, pos, b);
            && Index(t) == Index(seg)
            && SizeAt(g, t, i, Data) == SizeAt(g, seg, i, Data)
            && PayloadAt(g, t, i, Data, pos + 1) == PayloadAt(g, seg, i, Data, pos) + [b]
  {
    var t := SetByte(g, seg, i, pos, b);
    var lo, off := PayloadOff(g, i, Data), PayloadOff(g, i, Data) + pos;
    FieldBounds(g, i, Data);
    SpliceReads(seg, off, [b]);
    SameSlice(seg, t, 0, 4);
    SameSlice(seg, t, SizeOff(g, i, Data), lo);
    AppendSlice(seg, t, lo, off, b);
  }

  lemma AnnotateEffect(g: Geometry, seg: seq<byte>, i: nat, c: Channel, text: seq<byte>, j: nat)
    requires Fits(g, seg) && i < g.bufferCount && j < g.bufferCount
    requires !c.Data? && |text| <= Cap(g, c)
    ensures var t := SetPayload(g, seg, i, c, text);
            SameChannel(g, seg, t, j, Data) && Index(t) == Index(seg)
  {
    var t := SetPayload(g, seg, i, c, text);
    SetPayloadEffect(g, seg, i, c, text);
    FieldBounds(g, i, c);
    SameSlice(seg, t, 0, 4);
    ChannelsApart(g, i, c, j, Data);
    ChannelElsewhere(g, seg, t, PayloadOff(g, i, c), PayloadOff(g, i, c) + |text|, j, Data);
  }

  lemma StoreIndexEffect(g: Geometry, seg: seq<byte>, i: nat, j: nat)
    requires Fits(g, seg) && i < g.bufferCount && j < g.bufferCount
    ensures Index(SetIndex(seg, i)) == i
    ensures SameChannel(g, seg, SetIndex(seg, i), j, Data)
  {
    SetIndexEffect(g, seg, i);
    FieldBounds(g, j, Data);
    ChannelElsewhere(g, seg, SetIndex(seg, i), 0, 4, j, Data);
  }

  lemma StoreSizeEffect(g: Geometry, seg: seq<byte>, i: nat, len: nat)
    requires Fits(g, seg) && HeaderAccepts(g, i, len)
    ensures var t := SetSize(g, seg, i, Data, len);
            && Index(t) == Index(seg) && SizeAt(g, t, i, Data) == len
            && PayloadAt(g, t, i, Data, len) == PayloadAt(g, seg, i, Data, len)
  {
    var t := SetSize(g, seg, i, Data, len);
    WordHolds(g, Data, len);
    SetSizeEffect(g, seg, i, Data, len);
    FieldBounds(g, i, Data);
    SameSlice(seg, t, 0, 4);
    SameSlice(seg, t, PayloadOff(g, i, Data), PayloadOff(g, i, Data) + len);
  }

  lemma StoreSizeKeeps(g: Geometry, seg: seq<byte>, i: nat, len: nat, j: nat)
    requires Fits(g, seg) && HeaderAccepts(g, i, len) && j < g.bufferCount && i != j
    ensures SameChannel(g, seg, SetSize(g, seg, i, Data, len), j, Data)
  {
    WordHolds(g, Data, len);
    SetSizeEffect(g, seg, i, Data, len);
    FieldBounds(g, i, Data);
    FieldBounds(g, j, Data);
    ChannelsApart(g, i, Data, j, Data);
    ChannelElsewhere(g, seg, SetSize(g, seg, i, Data, len), SizeOff(g, i, Data), PayloadOff(g, i, Data), j, Data);
  }

  lemma AdvanceEffect(g: Geometry, seg: seq<byte>, j: nat)
    requires Fits(g, seg) && 0 <= Index(seg) < g.bufferCount && j < g.bufferCount
    ensures Index(Increment(g, seg)) == Next(Index(seg), g.bufferCount)
    ensures SameChannel(g, seg, Increment(g, seg), j, Data)
  {
    IncrementEffect(g, seg);
    FieldBounds(g, j, Data);
    ChannelElsewhere(g, seg, Increment(g, seg), 0, 4, j, Data);
  }

  // ---- every step keeps the invariant ----

  lemma StartedIsInv(g: Geometry, p: Pipeline)
    requires Started(g, p)
    ensures Inv(g, p)
  {
  }

  lemma PullKeeps(g: Geometry, p: Pipeline, sample: Option<seq<byte>>)
    requires Inv(g, p)
    ensures Inv(g, Apply(g, p, Pull(sample)))
  {
  }

  lemma CopyByteKeeps(g: Geometry, p: Pipeline)
    requires Inv(g, p)
    ensures Inv(g, Apply(g, p, CopyByte))
  {
    if p.phase.Copying? && p.phase.pos < |p.frame| {
      var cur, pos := Current(g, p), p.phase.pos;
      var t := SetByte(g, p.seg, cur, pos, p.frame[pos]);
      forall j: nat | j < g.bufferCount && j != cur ensures SameChannel(g, p.seg, t, j, Data) {
        SetByteKeeps(g, p.seg, cur, pos, p.frame[pos], j);
      }
      SetByteAppends(g, p.seg, cur, pos, p.frame[pos]);
      WindowKept(g, p.seg, t, p.published);
      UnusedKept(g, p.seg, t, cur, |p.published|);
      assert p.frame[..pos + 1] == p.frame[..pos] + [p.frame[pos]];
    }
  }

  lemma CopyDoneKeeps(g: Geometry, p: Pipeline)
    requires Inv(g, p)
    ensures Inv(g, Apply(g, p, CopyDone))
  {
  }

  lemma AnnotateKeeps(g: Geometry, p: Pipeline, c: Channel, text: seq<byte>)
    requires Inv(g, p)
    ensures Inv(g, Apply(g, p, Annotate(c, text)))
  {
    if p.phase.Copied? && !c.Data? && |text| <= Cap(g, c) {
      var cur := Current(g, p);
      var t := SetPayload(g, p.seg, cur, c, text);
      forall j: nat | j < g.bufferCount && j != cur ensures SameChannel(g, p.seg, t, j, Data) {
        AnnotateEffect(g, p.seg, cur, c, text, j);
      }
      AnnotateEffect(g, p.seg, cur, c, text, cur);
      WindowKept(g, p.seg, t, p.published);
      UnusedKept(g, p.seg, t, cur, |p.published|);
      SamePrefix(g, p.seg, t, cur, Data, |p.frame|);
    }
  }

  lemma StoreIndexKeeps(g: Geometry, p: Pipeline)
    requires Inv(g, p)
    ensures Inv(g, Apply(g, p, StoreIndex))
  {
    if p.phase.Copied? {
      var cur := Current(g, p);
      var t := SetIndex(p.seg, cur);
      forall j: nat | j < g.bufferCount ensures SameChannel(g, p.seg, t, j, Data) {
        StoreIndexEffect(g, p.seg, cur, j);
      }
      StoreIndexEffect(g, p.seg, cur, cur);
      WindowKept(g, p.seg, t, p.published);
      UnusedKept(g, p.seg, t, cur, |p.published|);
      SamePrefix(g, p.seg, t, cur, Data, |p.frame|);
    }
  }

  lemma StoreSizeKeepsInv(g: Geometry, p: Pipeline)
    requires Inv(g, p)
    ensures Inv(g, Apply(g, p, StoreSize))
  {
    if p.phase.Pointed? {
      var cur := Current(g, p);
      var t := SetSize(g, p.seg, cur, Data, |p.frame|);
      forall j: nat | j < g.bufferCount && j != cur ensures SameChannel(g, p.seg, t, j, Data) {
        StoreSizeKeeps(g, p.seg, cur, |p.frame|, j);
      }
      StoreSizeEffect(g, p.seg, cur, |p.frame|);
      WindowKept(g, p.seg, t, p.published);
      UnusedKept(g, p.seg, t, cur, |p.published| + 1);
    }
  }

  lemma AdvanceKeeps(g: Geometry, p: Pipeline)
    requires Inv(g, p)
    ensures Inv(g, Apply(g, p, Advance))
  {
    if p.phase.Announced? {
      var q := Apply(g, p, Advance);
      ModuloNext(|p.published|, g.bufferCount);
      forall j: nat | j < g.bufferCount ensures SameChannel(g, p.seg, q.seg, j, Data) {
        AdvanceEffect(g, p.seg, j);
      }
      AdvanceEffect(g, p.seg, 0);
      WindowKept(g, p.seg, q.seg, p.published);
      UnusedKept(g, p.seg, q.seg, Current(g, p), |p.published| + 1);
      ContainsKept(g, p.seg, q.seg, Current(g, p), p.frame);
      AdvanceWindow(g, q.seg, p.published, p.frame);
    }
  }

  lemma AdvanceWindow(g: Geometry, seg: seq<byte>, published: seq<seq<byte>>, frame: seq<byte>)
    requires Fits(g, seg) && Window(g, seg, published, |published| + 1)
    requires InSlot(g, seg, |published|, frame)
    ensures Window(g, seg, published + [frame], |published| + 1)
  {
  }

  lemma StepKeeps(g: Geometry, p: Pipeline, step: Step)
    requires Inv(g, p)
    ensures Inv(g, Apply(g, p, step))
    ensures p.published <= Apply(g, p, step).published
  {
    match step
    case Pull(sample) => PullKeeps(g, p, sample);
    case CopyByte => CopyByteKeeps(g, p);
    case CopyDone => CopyDoneKeeps(g, p);
    case Annotate(c, text) => AnnotateKeeps(g, p, c, text);
    case StoreIndex => StoreIndexKeeps(g, p);
    case StoreSize => StoreSizeKeepsInv(g, p);
    case Advance => AdvanceKeeps(g, p);
  }

  lemma {:induction false} RunKeeps(g: Geometry, p: Pipeline, steps: seq<Step>)
    requires Inv(g, p)
    ensures Inv(g, Steps(g, p, steps))
    ensures p.published <= Steps(g, p, steps).published
  {
    if steps != [] {
      RunKeeps(g, p, steps[..|steps| - 1]);
      StepKeeps(g, Steps(g, p, steps[..|steps| - 1]), steps[|steps| - 1]);
    }
  }

  // ---- what readers see ----

  /** What a reader is entitled to in state `p`: before the first publication a failure or an empty
      slot, afterwards the last published frame, whole; and never the slot being filled. */
  ghost predicate ReaderSafe(g: Geometry, p: Pipeline)
    requires Sound(g, p)
  {
    var r := Read(g, p.seg);
    && (r.Frame? ==> r.slot != Current(g, p))
    && (p.published == [] ==> r.NoFrame? || r.length == 0)
    && (p.published != [] ==>
          var last := p.published[|p.published| - 1];
          && r == Frame(Modulo(|p.published| - 1, g.bufferCount), |last|)
          && PayloadAt(g, p.seg, r.slot, Data, r.length) == last)
  }

  /** Publication is atomic to readers: after any steps whatever of the pipeline, in any state between
      two of them, a ring of two slots or more shows readers only complete frames. */
  lemma PublicationIsAtomic(g: Geometry, p: Pipeline, steps: seq<Step>)
    requires Started(g, p) && g.bufferCount >= 2
    ensures ReaderSafe(g, Steps(g, p, steps))
  {
    StartedIsInv(g, p);
    RunKeeps(g, p, steps);
    InvIsReaderSafe(g, Steps(g, p, steps));
  }

  lemma NothingPublishedYet(g: Geometry, p: Pipeline)
    requires Inv(g, p) && g.bufferCount >= 2 && p.published == []
    ensures ReaderSafe(g, p)
  {
    var n := g.bufferCount;
    if Index(p.seg) != -1 {
      assert Index(p.seg) == 0 && Prev(0, n) == n - 1;
      assert SizeAt(g, p.seg, n - 1, Data) == 0;
    }
  }

  lemma LastFrameShown(g: Geometry, p: Pipeline)
    requires Inv(g, p) && g.bufferCount >= 2 && p.published != []
    ensures ReaderSafe(g, p)
  {
    var f := |p.published|;
    ModuloNext(f - 1, g.bufferCount);
    PrevNext(Modulo(f - 1, g.bufferCount), g.bufferCount);
    assert InSlot(g, p.seg, f - 1, p.published[f - 1]);
  }

  lemma InvIsReaderSafe(g: Geometry, p: Pipeline)
    requires Inv(g, p) && g.bufferCount >= 2
    ensures ReaderSafe(g, p)
  {
    hide Inv, ReaderSafe;
    if p.published == [] {
      NothingPublishedYet(g, p);
    } else {
      LastFrameShown(g, p);
    }
  }

  /** A ring of one slot cannot: the frame a reader was just given is in the slot being filled. */
  lemma OneSlotIsNotEnough(g: Geometry, p: Pipeline)
    requires Inv(g, p) && g.bufferCount == 1 && p.published != []
    ensures !ReaderSafe(g, p)
  {
  }

  /** The frame that was the last one in state `seen` is still whole in state `now`. */
  lemma SeenStays(g: Geometry, seen: Pipeline, now: Pipeline)
    requires Inv(g, seen) && Inv(g, now) && g.bufferCount >= 2
    requires seen.published != [] && seen.published <= now.published
    requires Begun(now) < |seen.published| + g.bufferCount
    ensures Read(g, seen.seg).Frame?
    ensures Contains(g, now.seg, Read(g, seen.seg).slot, Data, Some(seen.published[|seen.published| - 1]))
  {
    hide Progress, Unused, Contains;
    InvIsReaderSafe(g, seen);
    var o: nat := |seen.published| - 1;
    assert now.published[o] == seen.published[o];
    assert InSlot(g, now.seg, o, now.published[o]);
  }

  /** A reader that looked at the index when `f` frames were out may take its time: the size word and
      the bytes of the frame it was given stay whole until the producer starts on frame f - 1 + n. */
  lemma ReaderMayTakeItsTime(g: Geometry, p: Pipeline, before: seq<Step>, after: seq<Step>)
    requires Started(g, p) && g.bufferCount >= 2
    requires Steps(g, p, before).published != []
    requires Begun(Steps(g, Steps(g, p, before), after)) <
             |Steps(g, p, before).published| + g.bufferCount
    ensures var seen := Steps(g, p, before); var now := Steps(g, seen, after);
            && Read(g, seen.seg).Frame?
            && Contains(g, now.seg, Read(g, seen.seg).slot, Data, Some(seen.published[|seen.published| - 1]))
  {
    hide Inv, Steps, Begun, Contains, Read;
    StartedIsInv(g, p);
    RunKeeps(g, p, before);
    RunKeeps(g, Steps(g, p, before), after);
    SeenStays(g, Steps(g, p, before), Steps(g, Steps(g, p, before), after));
  }

  /** Frame f goes to slot f mod n, though the service has overwritten the length of every slot it
      passed, the copy stays within the slot's true capacity, so writeHeader is never refused. */
  lemma SlotAndCapacity(g: Geometry, p: Pipeline, steps: seq<Step>)
    requires Started(g, p)
    ensures var q := Steps(g, p, steps);
            && (q.phase.Copying? ==> q.nextBuffer == Modulo(|q.published|, g.bufferCount) &&
                                     |q.frame| <= g.dataSize)
            && (q.phase.Copied? || q.phase.Pointed? || q.phase.Announced? ==>
                  q.index == Modulo(|q.published|, g.bufferCount) && HeaderAccepts(g, q.index, |q.frame|))
  {
    StartedIsInv(g, p);
    RunKeeps(g, p, steps);
  }
}
