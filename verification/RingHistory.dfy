/** The frame ring as a history of writes: what a reader finds after any run of write calls, how long
    a pointer it was given stays good, and what survives a peer that rewrites the segment. */
module RingHistory {
  import opened Wrappers
  import opened Bytes
  import opened Modular
  import opened Layout
  import opened Segment

  /** The segment as create leaves it: no write yet, every size word zero. */
  ghost predicate Created(g: Geometry, seg: seq<byte>) {
    && Fits(g, seg)
    && Index(seg) == -1
    && forall i: nat, c: Channel :: i < g.bufferCount ==> SizeAt(g, seg, i, c) == 0
  }

  function Run(g: Geometry, seg: seq<byte>, ws: seq<Payloads>): (t: seq<byte>)
    requires Fits(g, seg)
    ensures |t| == |seg|
  {
    if ws == [] then seg else Write(g, Run(g, seg, ws[..|ws| - 1]), ws[|ws| - 1])
  }

  /** The writes the capacity test lets through. */
  function Accepted(g: Geometry, ws: seq<Payloads>): (acc: seq<Payloads>)
    ensures |acc| <= |ws|
  {
    if ws == [] then []
    else
      var rest := Accepted(g, ws[..|ws| - 1]);
      if Accepts(g, ws[|ws| - 1]) then rest + [ws[|ws| - 1]] else rest
  }

  /** What channel `c` of slot `j` should hold after the writes `acc`. */
  function Latest(n: nat, acc: seq<Payloads>, j: nat, c: Channel): Option<seq<byte>>
    requires n > 0
  {
    if acc == [] then None
    else
      var k := |acc| - 1;
      if Modulo(k, n) == j && acc[k].At(c).Some? then acc[k].At(c) else Latest(n, acc[..k], j, c)
  }

  /** `Latest` is the last non-null buffer among the writes whose ordinal is congruent to the slot. */
  lemma {:induction false} LatestIsLast(n: nat, acc: seq<Payloads>, j: nat, c: Channel)
    requires n > 0
    ensures Latest(n, acc, j, c).None? ==>
              forall o: nat :: o < |acc| && Modulo(o, n) == j ==> acc[o].At(c).None?
    ensures Latest(n, acc, j, c).Some? ==>
              exists o: nat :: o < |acc| && Modulo(o, n) == j && acc[o].At(c) == Latest(n, acc, j, c) &&
                forall p: nat :: o < p < |acc| && Modulo(p, n) == j ==> acc[p].At(c).None?
  {
    if acc != [] {
      var k := |acc| - 1;
      LatestIsLast(n, acc[..k], j, c);
      if !(Modulo(k, n) == j && acc[k].At(c).Some?) && Latest(n, acc, j, c).Some? {
        var o: nat :| o < k && Modulo(o, n) == j && acc[..k][o].At(c) == Latest(n, acc, j, c) &&
          forall p: nat :: o < p < k && Modulo(p, n) == j ==> acc[..k][p].At(c).None?;
        assert acc[o] == acc[..k][o];
        forall p: nat | o < p < |acc| && Modulo(p, n) == j ensures acc[p].At(c).None? {
          if p < k { assert acc[p] == acc[..k][p]; }
        }
      } else if Latest(n, acc, j, c).None? {
        forall o: nat | o < |acc| && Modulo(o, n) == j ensures acc[o].At(c).None? {
          if o < k { assert acc[o] == acc[..k][o]; }
        }
      }
    }
  }

  /** Channel `c` of slot `j` holds exactly `b`. */
  ghost predicate Contains(g: Geometry, seg: seq<byte>, j: nat, c: Channel, b: Option<seq<byte>>)
    requires Fits(g, seg) && j < g.bufferCount
  {
    match b
    case None => SizeAt(g, seg, j, c) == 0
    case Some(bytes) =>
      |bytes| <= Cap(g, c) && SizeAt(g, seg, j, c) == |bytes| && PayloadAt(g, seg, j, c, |bytes|) == bytes
  }

  ghost predicate Reflects(g: Geometry, seg: seq<byte>, acc: seq<Payloads>) {
    && Fits(g, seg)
    && Index(seg) == (if acc == [] then -1 else Modulo(|acc|, g.bufferCount))
    && forall j: nat, c: Channel :: j < g.bufferCount ==>
         Contains(g, seg, j, c, Latest(g.bufferCount, acc, j, c))
  }

  /** The ring refines its history: after create and any calls of write, accepted or rejected, the
      index counts the accepted ones modulo the ring size and every slot holds the latest of those
      whose ordinal falls on it. */
  lemma {:induction false} RingRefinesHistory(g: Geometry, seg: seq<byte>, ws: seq<Payloads>)
    requires Created(g, seg)
    ensures Reflects(g, Run(g, seg, ws), Accepted(g, ws))
  {
    if ws == [] {
    } else {
      var before := ws[..|ws| - 1];
      var w := ws[|ws| - 1];
      RingRefinesHistory(g, seg, before);
      if Accepts(g, w) {
        WriteExtends(g, Run(g, seg, before), Accepted(g, before), w);
      }
    }
  }

  lemma WriteExtends(g: Geometry, seg: seq<byte>, acc: seq<Payloads>, w: Payloads)
    requires Reflects(g, seg, acc) && Accepts(g, w)
    ensures Reflects(g, Write(g, seg, w), acc + [w])
    ensures WriteSlot(g, seg) == Modulo(|acc|, g.bufferCount)
  {
    hide Write, Contains, Latest, Accepts, Modulo;
    var n := g.bufferCount;
    ModuloNext(|acc|, n);
    WriteEffect(g, seg, w, 0, Data);
    forall j: nat, c: Channel | j < n
      ensures Contains(g, Write(g, seg, w), j, c, Latest(n, acc + [w], j, c))
    {
      assert Contains(g, seg, j, c, Latest(n, acc, j, c));
      ChannelExtends(g, seg, acc, w, j, c);
    }
  }

  lemma ChannelExtends(g: Geometry, seg: seq<byte>, acc: seq<Payloads>, w: Payloads, j: nat, c: Channel)
    requires Fits(g, seg) && Accepts(g, w) && j < g.bufferCount
    requires WriteSlot(g, seg) == Modulo(|acc|, g.bufferCount)
    requires Contains(g, seg, j, c, Latest(g.bufferCount, acc, j, c))
    ensures Contains(g, Write(g, seg, w), j, c, Latest(g.bufferCount, acc + [w], j, c))
  {
    hide Write, Accepts, Modulo;
    var was := Latest(g.bufferCount, acc, j, c);
    assert (acc + [w])[..|acc|] == acc;
    WriteEffect(g, seg, w, j, c);
    if !(j == Modulo(|acc|, g.bufferCount) && w.At(c).Some?) && was.Some? {
      SamePrefix(g, seg, Write(g, seg, w), j, c, |was.value|);
    }
  }

  /** What readData must answer after the accepted writes `acc`: nothing before the first; after
      that the slot of the last one, and, if that one carried a frame, exactly its bytes. */
  ghost predicate ShowsLast(g: Geometry, seg: seq<byte>, acc: seq<Payloads>) {
    && Fits(g, seg)
    && (acc == [] <==> Read(g, seg).NoFrame?)
    && (acc != [] ==>
          && Read(g, seg).slot == Modulo(|acc| - 1, g.bufferCount)
          && (acc[|acc| - 1].data.Some? ==>
                && Read(g, seg).length == |acc[|acc| - 1].data.value|
                && PayloadAt(g, seg, Read(g, seg).slot, Data, Read(g, seg).length) == acc[|acc| - 1].data.value))
  }

  /** A reader sees exactly the last accepted write, whatever calls came before it. */
  lemma ReadReturnsLastWrite(g: Geometry, seg: seq<byte>, ws: seq<Payloads>)
    requires Created(g, seg)
    ensures ShowsLast(g, Run(g, seg, ws), Accepted(g, ws))
  {
    RingRefinesHistory(g, seg, ws);
    ReadReflects(g, Run(g, seg, ws), Accepted(g, ws));
  }

  lemma ReadReflects(g: Geometry, seg: seq<byte>, acc: seq<Payloads>)
    requires Reflects(g, seg, acc)
    ensures ShowsLast(g, seg, acc)
  {
    if acc != [] {
      ModuloNext(|acc| - 1, g.bufferCount);
      PrevNext(Modulo(|acc| - 1, g.bufferCount), g.bufferCount);
      var r := Modulo(|acc| - 1, g.bufferCount);
      assert Contains(g, seg, r, Data, Latest(g.bufferCount, acc, r, Data));
    }
  }

  /** A reader fails exactly if the index is unset or corrupt. Otherwise it is given the slot before the index, and as
      length the slot's size word, or the capacity when that is less. */
  lemma ReadIsExact(g: Geometry, seg: seq<byte>)
    requires Fits(g, seg)
    ensures Read(g, seg).Frame? <==> 0 <= Index(seg) < g.bufferCount
    ensures Read(g, seg).Frame? ==>
              && Next(Read(g, seg).slot, g.bufferCount) == Index(seg)
              && Read(g, seg).length <= SizeAt(g, seg, Read(g, seg).slot, Data)
              && Read(g, seg).length <= g.dataSize
              && (Read(g, seg).length == SizeAt(g, seg, Read(g, seg).slot, Data) || Read(g, seg).length == g.dataSize)
  {
    if 0 <= Index(seg) < g.bufferCount {
      PrevNext(Index(seg), g.bufferCount);
    }
  }

  // ---- how long a pointer handed out by readData stays good ----

  /** The index counts accepted writes, from any valid index. */
  lemma OneMoreWrite(g: Geometry, seg: seq<byte>, w: Payloads, k: nat)
    requires Fits(g, seg) && Accepts(g, w) && Index(seg) == Modulo(k, g.bufferCount)
    ensures Index(Write(g, seg, w)) == Modulo(k + 1, g.bufferCount)
  {
    hide Write, Accepts;
    ModuloNext(k, g.bufferCount);
    WriteEffect(g, seg, w, 0, Data);
  }

  lemma {:induction false} RunIndex(g: Geometry, seg: seq<byte>, ws: seq<Payloads>)
    requires Fits(g, seg) && 0 <= Index(seg) < g.bufferCount
    ensures Index(Run(g, seg, ws)) == Modulo(Index(seg) + |Accepted(g, ws)|, g.bufferCount)
  {
    var x := Index(seg);
    if ws == [] {
    } else {
      var before, w := ws[..|ws| - 1], ws[|ws| - 1];
      assert Run(g, seg, ws) == Write(g, Run(g, seg, before), w);
      assert !Accepts(g, w) ==> Write(g, Run(g, seg, before), w) == Run(g, seg, before);
      assert Accepted(g, ws) == if Accepts(g, w) then Accepted(g, before) + [w] else Accepted(g, before);
      hide Write, Run, Accepted, Accepts, Modulo, Index;
      RunIndex(g, seg, before);
      if Accepts(g, w) {
        OneMoreWrite(g, Run(g, seg, before), w, x + |Accepted(g, before)|);
      }
    }
  }

  lemma {:induction false} SectionSurvives(g: Geometry, seg: seq<byte>, ws: seq<Payloads>, r: nat)
    requires Fits(g, seg) && 0 <= Index(seg) < g.bufferCount
    requires r == Prev(Index(seg), g.bufferCount)
    requires |Accepted(g, ws)| < g.bufferCount
    ensures SectionAt(g, Run(g, seg, ws), r) == SectionAt(g, seg, r)
  {
    if ws != [] {
      SectionSurvives(g, seg, ws[..|ws| - 1], r);
      RunIndex(g, seg, ws[..|ws| - 1]);
      if Accepts(g, ws[|ws| - 1]) {
        SlotsDiffer(Index(seg), |Accepted(g, ws[..|ws| - 1])|, g.bufferCount);
      }
      WriteKeepsSection(g, Run(g, seg, ws[..|ws| - 1]), ws[|ws| - 1], r);
    }
  }

  lemma SlotsDiffer(x: nat, a: nat, n: nat)
    requires x < n && a + 1 < n
    ensures Modulo(x + a, n) != Prev(x, n)
  {
  }

  /** Zero-copy stability: everything behind the pointers readData handed out, the size slot
      included, is untouched while fewer than n further writes are accepted; and it is the n-th that
      reuses the slot, so the bound is exact. */
  lemma ZeroCopyStable(g: Geometry, seg: seq<byte>, ws: seq<Payloads>)
    requires Fits(g, seg) && Read(g, seg).Frame?
    requires |Accepted(g, ws)| < g.bufferCount
    ensures SectionAt(g, Run(g, seg, ws), Read(g, seg).slot) == SectionAt(g, seg, Read(g, seg).slot)
    ensures |Accepted(g, ws)| == g.bufferCount - 1 ==>
              WriteSlot(g, Run(g, seg, ws)) == Read(g, seg).slot
  {
    SectionSurvives(g, seg, ws, Read(g, seg).slot);
    RunIndex(g, seg, ws);
  }

  // ---- a peer that rewrites the segment ----

  /** One step seen by the segment: a peer leaving any bytes at all, or one of our own calls. */
  datatype Action =
    | Peer(left: seq<byte>)
    | DoWrite(w: Payloads)
    | DoIncrement
    | DoWriteHeader(index: int, dataSize: nat)

  function Act(g: Geometry, seg: seq<byte>, a: Action): (t: seq<byte>)
    requires Fits(g, seg)
    ensures |t| == |seg|
  {
    match a
    case Peer(left) => if |left| == |seg| then left else seg
    case DoWrite(w) => Write(g, seg, w)
    case DoIncrement => Increment(g, seg)
    case DoWriteHeader(index, dataSize) => WriteHeader(g, seg, index, dataSize)
  }

  function Interfered(g: Geometry, seg: seq<byte>, actions: seq<Action>): (t: seq<byte>)
    requires Fits(g, seg)
    ensures |t| == |seg|
  {
    if actions == [] then seg
    else Act(g, Interfered(g, seg, actions[..|actions| - 1]), actions[|actions| - 1])
  }

  /** The calls of ours that set the index, and are not refused. */
  predicate Publishes(g: Geometry, a: Action) {
    match a
    case Peer(_) => false
    case DoWrite(w) => Accepts(g, w)
    case DoIncrement => true
    case DoWriteHeader(index, dataSize) => HeaderAccepts(g, index, dataSize)
  }

  /** Whatever peers did before, our own call leaves an index inside the ring, a successful read
      stays inside the mapped segment with a length within the slot's capacity, and one accepted
      frame is read back exactly. */
  lemma SelfStabilising(g: Geometry, seg: seq<byte>, actions: seq<Action>, a: Action)
    requires Fits(g, seg)
    ensures var t := Act(g, Interfered(g, seg, actions), a);
            && (Publishes(g, a) ==> 0 <= Index(t) < g.bufferCount && Read(g, t).Frame?)
            && (Read(g, t).Frame? ==>
                  PayloadOff(g, Read(g, t).slot, Data) + Read(g, t).length <= |seg|)
            && (a.DoWrite? && Accepts(g, a.w) && a.w.data.Some? ==>
                  var d := a.w.data.value;
                  && Read(g, t) == Frame(WriteSlot(g, Interfered(g, seg, actions)), |d|)
                  && |d| <= g.dataSize && PayloadAt(g, t, Read(g, t).slot, Data, |d|) == d)
  {
    var s := Interfered(g, seg, actions);
    var t := Act(g, s, a);
    if Read(g, t).Frame? {
      FieldBounds(g, Read(g, t).slot, Data);
    }
    match a
    case Peer(_) =>
    case DoWrite(w) =>
      if Accepts(g, w) {
        var i := WriteSlot(g, s);
        WriteEffect(g, s, w, i, Data);
        PrevNext(i, g.bufferCount);
      }
    case DoIncrement =>
      SetIndexEffect(g, s, Index(t));
      IncrementEffect(g, s);
    case DoWriteHeader(index, dataSize) =>
      if HeaderAccepts(g, index, dataSize) {
        WriteHeaderEffect(g, s, index, dataSize);
      }
  }

  /** An index that is unset or corrupt counts as slot 0 to a write, and becomes 0 by an increment. */
  lemma CorruptIndexRestarts(g: Geometry, seg: seq<byte>, w: Payloads, c: Channel)
    requires Fits(g, seg) && Accepts(g, w) && !(0 <= Index(seg) < g.bufferCount)
    ensures Index(Increment(g, seg)) == 0
    ensures var t := Write(g, seg, w);
            && Index(t) == Next(0, g.bufferCount)
            && (w.At(c).Some? ==> Contains(g, t, 0, c, w.At(c)))
  {
    SetIndexEffect(g, seg, 0);
    WriteEffect(g, seg, w, 0, c);
  }


  lemma IncrementEffect(g: Geometry, seg: seq<byte>)
    requires Fits(g, seg)
    ensures 0 <= Index(Increment(g, seg)) < g.bufferCount
    ensures 0 <= Index(seg) < g.bufferCount ==>
              Index(Increment(g, seg)) == Next(Index(seg), g.bufferCount)
    ensures Index(seg) == -1 ==> Index(Increment(g, seg)) == 0
    ensures SameOutside(seg, Increment(g, seg), 0, 4)
  {
    var n := g.bufferCount;
    var v := if Index(seg) < 0 || Index(seg) >= n - 1 then 0 else Index(seg) + 1;
    SetIndexEffect(g, seg, v);
  }

  lemma WriteHeaderEffect(g: Geometry, seg: seq<byte>, index: nat, dataSize: nat)
    requires Fits(g, seg) && HeaderAccepts(g, index, dataSize)
    ensures var t := WriteHeader(g, seg, index, dataSize);
            && Index(t) == index && SizeAt(g, t, index, Data) == dataSize
            && forall p :: 4 <= p < |seg| && !(SizeOff(g, index, Data) <= p < PayloadOff(g, index, Data))
                 ==> t[p] == seg[p]
  {
    var s := SetIndex(seg, index);
    SetIndexEffect(g, seg, index);
    WordHolds(g, Data, dataSize);
    SetSizeEffect(g, s, index, Data, dataSize);
    FieldBounds(g, index, Data);
    SameSlice(s, WriteHeader(g, seg, index, dataSize), 0, 4);
  }
}
