/** The library's calls one load and one store at a time, while peers, who do not share its mutex, store into
    the segment between any two of them. */
module PeerInterference {
  import opened Wrappers
  import opened Bytes
  import opened Modular
  import opened Layout
  import opened Segment

  datatype Call = OfWrite(w: Payloads) | OfIncrement | OfHeader(index: int, dataSize: nat)

  /** Where a call stands. The index is loaded once, on the step out of `Entered`. */
  datatype Pc =
    | Entered
    | Sizing(i: nat, c: Channel)              // write: at the block of channel `c`
    | Copying(i: nat, c: Channel, pos: nat)   // write: `pos` bytes into its memcpy
    | Publishing(i: nat)                      // write: only the index is left
    | Stepping(v: nat)                        // incrementWriteIndex: `v` is left to store
    | Pointing(i: nat)                        // writeHeader: index and size word are left
    | Measuring(i: nat)                       // writeHeader: the size word is left
    | Returned
    | Refused

  datatype State = State(seg: seq<byte>, pc: Pc)

  predicate Filling(g: Geometry, call: Call, i: nat) {
    call.OfWrite? && Accepts(g, call.w) && i < g.bufferCount
  }

  predicate At(g: Geometry, call: Call, pc: Pc) {
    match pc
    case Sizing(i, c) => Filling(g, call, i)
    case Copying(i, c, pos) => Filling(g, call, i) && call.w.At(c).Some? && pos <= |call.w.At(c).value|
    case Publishing(i) => Filling(g, call, i)
    case Stepping(v) => call.OfIncrement? && v < g.bufferCount
    case Pointing(i) => call.OfHeader? && HeaderAccepts(g, call.index, call.dataSize) && i == call.index
    case Measuring(i) => call.OfHeader? && HeaderAccepts(g, call.index, call.dataSize) && i == call.index
    case _ => true
  }

  ghost predicate Sound(g: Geometry, call: Call, s: State) {
    Fits(g, s.seg) && At(g, call, s.pc)
  }

  /** Behind the block of channel `c`. */
  function Behind(i: nat, c: Channel): Pc {
    match c
    case Data => Sizing(i, Meta)
    case Meta => Sizing(i, Extra)
    case Extra => Sizing(i, Solution)
    case Solution => Publishing(i)
  }

  function PutByte(g: Geometry, seg: seq<byte>, i: nat, c: Channel, pos: nat, b: byte): (t: seq<byte>)
    requires Fits(g, seg) && i < g.bufferCount && pos < Cap(g, c)
    ensures |t| == |seg|
  {
    FieldBounds(g, i, c);
    Splice(seg, PayloadOff(g, i, c) + pos, [b])
  }

  /** The call's own next step. */
  function Own(g: Geometry, call: Call, s: State): (t: State)
    requires Sound(g, call, s)
    ensures Sound(g, call, t) && |t.seg| == |s.seg|
  {
    match s.pc
    case Entered =>
      (match call
       case OfWrite(w) => s.(pc := if Accepts(g, w) then Sizing(WriteSlot(g, s.seg), Data) else Refused)
       case OfIncrement =>
         s.(pc := Stepping(if Index(s.seg) < 0 || Index(s.seg) >= g.bufferCount - 1 then 0 else Index(s.seg) + 1))
       case OfHeader(index, dataSize) =>
         s.(pc := if HeaderAccepts(g, index, dataSize) then Pointing(index) else Refused))
    case Sizing(i, c) =>
      (match call.w.At(c)
       case None => s.(pc := Behind(i, c))
       case Some(b) => State(SetSize(g, s.seg, i, c, |b|), Copying(i, c, 0)))
    case Copying(i, c, pos) =>
      var b := call.w.At(c).value;
      if pos < |b| then State(PutByte(g, s.seg, i, c, pos, b[pos]), Copying(i, c, pos + 1))
      else s.(pc := Behind(i, c))
    case Publishing(i) => State(SetIndex(s.seg, Next(i, g.bufferCount)), Returned)
    case Stepping(v) => State(SetIndex(s.seg, v), Returned)
    case Pointing(i) => State(SetIndex(s.seg, i), Measuring(i))
    case Measuring(i) => State(SetSize(g, s.seg, i, Data, call.dataSize), Returned)
    case Returned => s
    case Refused => s
  }

  // ---- without peers: the steps are the call ----

  function CopyWork(w: Payloads, c: Channel): nat {
    1 + match w.At(c) case None => 0 case Some(b) => |b| + 1
  }

  /** Own steps from the block of channel `c` to the store of the index. */
  function BlocksWork(w: Payloads, c: Channel): nat {
    CopyWork(w, c) +
    match c
    case Data => CopyWork(w, Meta) + CopyWork(w, Extra) + CopyWork(w, Solution)
    case Meta => CopyWork(w, Extra) + CopyWork(w, Solution)
    case Extra => CopyWork(w, Solution)
    case Solution => 0
  }

  /** How many own steps are left at most. */
  function Left(g: Geometry, call: Call, pc: Pc): nat
    requires At(g, call, pc)
  {
    match pc
    case Entered => (match call case OfWrite(w) => 2 + BlocksWork(w, Data) case _ => 3)
    case Sizing(i, c) => 1 + BlocksWork(call.w, c)
    case Copying(i, c, pos) => BlocksWork(call.w, c) - pos
    case Publishing(_) => 1
    case Stepping(_) => 1
    case Pointing(_) => 2
    case Measuring(_) => 1
    case _ => 0
  }

  lemma OwnAdvances(g: Geometry, call: Call, s: State)
    requires Sound(g, call, s) && s.pc != Returned && s.pc != Refused
    ensures Left(g, call, Own(g, call, s).pc) < Left(g, call, s.pc)
  {
    hide Fits, Index, WriteSlot, SetSize, SetIndex, PutByte, Accepts;
  }

  function Finish(g: Geometry, call: Call, s: State): State
    requires Sound(g, call, s)
    decreases Left(g, call, s.pc)
  {
    if s.pc == Returned || s.pc == Refused then s
    else
      OwnAdvances(g, call, s);
      Finish(g, call, Own(g, call, s))
  }

  lemma ByteGrows(g: Geometry, seg: seq<byte>, i: nat, c: Channel, b: seq<byte>, k: nat)
    requires Fits(g, seg) && i < g.bufferCount && k < |b| <= Cap(g, c)
    ensures PutByte(g, SetPayload(g, seg, i, c, b[..k]), i, c, k, b[k]) == SetPayload(g, seg, i, c, b[..k + 1])
  {
  }

  lemma NoByte(g: Geometry, seg: seq<byte>, i: nat, c: Channel)
    requires Fits(g, seg) && i < g.bufferCount
    ensures SetPayload(g, seg, i, c, []) == seg
  {
  }

  lemma {:induction false} FinishCopy(g: Geometry, w: Payloads, seg: seq<byte>, i: nat, c: Channel, pos: nat)
    requires Fits(g, seg) && Filling(g, OfWrite(w), i) && w.At(c).Some? && pos <= |w.At(c).value|
    ensures var b := w.At(c).value;
            Finish(g, OfWrite(w), State(SetPayload(g, seg, i, c, b[..pos]), Copying(i, c, pos))) ==
            Finish(g, OfWrite(w), State(SetPayload(g, seg, i, c, b), Behind(i, c)))
    decreases |w.At(c).value| - pos
  {
    var b := w.At(c).value;
    if pos == |b| {
      assert b[..pos] == b;
    } else {
      ByteGrows(g, seg, i, c, b, pos);
      FinishCopy(g, w, seg, i, c, pos + 1);
    }
  }

  lemma FinishBlock(g: Geometry, w: Payloads, seg: seq<byte>, i: nat, c: Channel)
    requires Fits(g, seg) && Filling(g, OfWrite(w), i)
    ensures Finish(g, OfWrite(w), State(seg, Sizing(i, c))) ==
            Finish(g, OfWrite(w), State(Put(g, seg, i, c, w.At(c)), Behind(i, c)))
  {
    if w.At(c).Some? {
      var b := w.At(c).value;
      var t := SetSize(g, seg, i, c, |b|);
      NoByte(g, t, i, c);
      FinishCopy(g, w, t, i, c, 0);
      assert b[..0] == [];
    }
  }

  /** What the call does when nobody comes in between. */
  function Whole(g: Geometry, call: Call, seg: seq<byte>): seq<byte>
    requires Fits(g, seg)
  {
    match call
    case OfWrite(w) => Write(g, seg, w)
    case OfIncrement => Increment(g, seg)
    case OfHeader(index, dataSize) => WriteHeader(g, seg, index, dataSize)
  }

  lemma FinishStep(g: Geometry, call: Call, s: State)
    requires Sound(g, call, s)
    ensures Finish(g, call, s) == Finish(g, call, Own(g, call, s))
  {
  }

  /** incrementWriteIndex, writeHeader and refusals are over after three steps. */
  lemma ShortCall(g: Geometry, call: Call, seg: seq<byte>)
    requires Fits(g, seg) && (call.OfWrite? ==> !Accepts(g, call.w))
    ensures var s := Own(g, call, Own(g, call, Own(g, call, State(seg, Entered))));
            s.seg == Whole(g, call, seg) && Finish(g, call, s) == s
  {
    hide Fits, Index, SetIndex, SetSize, WriteSlot, Accepts;
  }

  /** Undisturbed, the loads and stores of a call are the call. */
  lemma UndisturbedIsWhole(g: Geometry, call: Call, seg: seq<byte>)
    requires Fits(g, seg)
    ensures Finish(g, call, State(seg, Entered)).seg == Whole(g, call, seg)
  {
    var s0 := State(seg, Entered);
    if call.OfWrite? && Accepts(g, call.w) {
      UndisturbedWrite(g, call.w, seg);
    } else {
      hide Own;
      var s1 := Own(g, call, s0);
      FinishStep(g, call, s0);
      FinishStep(g, call, s1);
      FinishStep(g, call, Own(g, call, s1));
      ShortCall(g, call, seg);
    }
  }

  lemma UndisturbedWrite(g: Geometry, w: Payloads, seg: seq<byte>)
    requires Fits(g, seg) && Accepts(g, w)
    ensures Finish(g, OfWrite(w), State(seg, Entered)).seg == Write(g, seg, w)
  {
    var i := WriteSlot(g, seg);
    var s1 := Put(g, seg, i, Data, w.data);
    var s2 := Put(g, s1, i, Meta, w.meta);
    var s3 := Put(g, s2, i, Extra, w.extra);
    FinishBlock(g, w, seg, i, Data);
    FinishBlock(g, w, s1, i, Meta);
    FinishBlock(g, w, s2, i, Extra);
    FinishBlock(g, w, s3, i, Solution);
  }

  // ---- with peers ----

  /** What happens next: the call's own step, or a peer leaving any bytes at all. */
  datatype Move = Ours | Peers(left: seq<byte>)

  function Apply(g: Geometry, call: Call, s: State, m: Move): (t: State)
    requires Sound(g, call, s)
    ensures Sound(g, call, t) && |t.seg| == |s.seg|
  {
    match m
    case Ours => Own(g, call, s)
    case Peers(left) => if |left| == |s.seg| then s.(seg := left) else s
  }

  function Run(g: Geometry, call: Call, s: State, moves: seq<Move>): (t: State)
    requires Sound(g, call, s)
    ensures Sound(g, call, t) && |t.seg| == |s.seg|
  {
    if moves == [] then s else Apply(g, call, Run(g, call, s, moves[..|moves| - 1]), moves[|moves| - 1])
  }

  function OursIn(moves: seq<Move>): nat {
    if moves == [] then 0
    else OursIn(moves[..|moves| - 1]) + if moves[|moves| - 1].Ours? then 1 else 0
  }

  lemma MoveCosts(g: Geometry, call: Call, s: State, m: Move)
    requires Sound(g, call, s)
    ensures var t := Apply(g, call, s, m);
            || t.pc == Returned || t.pc == Refused
            || (s.pc != Returned && s.pc != Refused
                && Left(g, call, t.pc) + (if m.Ours? then 1 else 0) <= Left(g, call, s.pc))
  {
    if s.pc != Returned && s.pc != Refused {
      OwnAdvances(g, call, s);
    }
    hide Left, Fits, At;
  }

  /** Peers cannot hold a call up: it is over after a number of own steps fixed at its start. */
  lemma {:induction false} CallIsBounded(g: Geometry, call: Call, seg: seq<byte>, moves: seq<Move>)
    requires Fits(g, seg)
    ensures var s := Run(g, call, State(seg, Entered), moves);
            s.pc == Returned || s.pc == Refused || OursIn(moves) + Left(g, call, s.pc) <= Left(g, call, Entered)
  {
    if moves != [] {
      var rest := moves[..|moves| - 1];
      CallIsBounded(g, call, seg, rest);
      hide Own, Left, Fits, At, Apply;
      MoveCosts(g, call, Run(g, call, State(seg, Entered), rest), moves[|moves| - 1]);
    }
  }

  /** The step stores at most the index, a value inside the ring; or part of one channel of the slot the
      call works on. */
  ghost predicate InPlace(g: Geometry, s: State, t: State)
    requires Fits(g, s.seg) && Fits(g, t.seg)
  {
    match s.pc
    case Sizing(i, c) => i < g.bufferCount && SameOutside(s.seg, t.seg, SizeOff(g, i, c), PayloadOff(g, i, c))
    case Copying(i, c, pos) =>
      i < g.bufferCount && pos <= Cap(g, c) &&
      (if pos == Cap(g, c) then t.seg == s.seg
       else SameOutside(s.seg, t.seg, PayloadOff(g, i, c) + pos, PayloadOff(g, i, c) + pos + 1))
    case Measuring(i) =>
      i < g.bufferCount && SameOutside(s.seg, t.seg, SizeOff(g, i, Data), PayloadOff(g, i, Data))
      && SizeAt(g, t.seg, i, Data) <= g.dataSize
    case Publishing(i) => SetsIndex(g, s, t) && Read(g, t.seg).Frame? && Read(g, t.seg).slot == i
    case Stepping(_) => SetsIndex(g, s, t)
    case Pointing(i) => SetsIndex(g, s, t) && Index(t.seg) == i
    case _ => t.seg == s.seg
  }

  ghost predicate SetsIndex(g: Geometry, s: State, t: State)
    requires Fits(g, s.seg) && Fits(g, t.seg)
  {
    SameOutside(s.seg, t.seg, 0, 4) && 0 <= Index(t.seg) < g.bufferCount && Read(g, t.seg).Frame?
  }

  lemma SizingInPlace(g: Geometry, call: Call, s: State)
    requires Sound(g, call, s) && s.pc.Sizing?
    ensures InPlace(g, s, Own(g, call, s))
  {
    var c := s.pc.c;
    if call.w.At(c).Some? {
      assert |call.w.At(c).value| <= Cap(g, c);
      WordHolds(g, c, |call.w.At(c).value|);
      SetSizeEffect(g, s.seg, s.pc.i, c, |call.w.At(c).value|);
    }
    hide Fits, SetSize, SizeAt, Cap, Accepts;
  }

  lemma CopyingInPlace(g: Geometry, call: Call, s: State)
    requires Sound(g, call, s) && s.pc.Copying?
    ensures InPlace(g, s, Own(g, call, s))
  {
    var b := call.w.At(s.pc.c).value;
    assert |b| <= Cap(g, s.pc.c);
    if s.pc.pos < |b| {
      FieldBounds(g, s.pc.i, s.pc.c);
      SpliceReads(s.seg, PayloadOff(g, s.pc.i, s.pc.c) + s.pc.pos, [b[s.pc.pos]]);
    }
    hide Fits, Splice, Cap, Accepts;
  }

  lemma MeasuringInPlace(g: Geometry, call: Call, s: State)
    requires Sound(g, call, s) && s.pc.Measuring?
    ensures InPlace(g, s, Own(g, call, s))
  {
    WordHolds(g, Data, call.dataSize);
    SetSizeEffect(g, s.seg, s.pc.i, Data, call.dataSize);
  }

  lemma IndexInPlace(g: Geometry, call: Call, s: State)
    requires Sound(g, call, s) && (s.pc.Publishing? || s.pc.Stepping? || s.pc.Pointing?)
    ensures InPlace(g, s, Own(g, call, s))
  {
    var v := if s.pc.Stepping? then s.pc.v else if s.pc.Pointing? then s.pc.i else Next(s.pc.i, g.bufferCount);
    if s.pc.Publishing? {
      PrevNext(s.pc.i, g.bufferCount);
    }
    SetIndexEffect(g, s.seg, v);
    hide Fits, SetIndex, Index, Accepts, SizeAt, SameOutside;
  }

  lemma OwnInPlace(g: Geometry, call: Call, s: State)
    requires Sound(g, call, s)
    ensures InPlace(g, s, Own(g, call, s))
  {
    hide InPlace, Fits, SetSize, SetIndex, PutByte, Accepts;
    match s.pc
    case Sizing(_, _) => SizingInPlace(g, call, s);
    case Copying(_, _, _) => CopyingInPlace(g, call, s);
    case Measuring(_) => MeasuringInPlace(g, call, s);
    case Publishing(_) => IndexInPlace(g, call, s);
    case Stepping(_) => IndexInPlace(g, call, s);
    case Pointing(_) => IndexInPlace(g, call, s);
    case _ => NothingStored(g, call, s);
  }

  lemma NothingStored(g: Geometry, call: Call, s: State)
    requires Sound(g, call, s) && (s.pc.Entered? || s.pc.Returned? || s.pc.Refused?)
    ensures InPlace(g, s, Own(g, call, s))
  {
  }

  /** Whatever peers store and whenever, every store of ours is in its place: an index inside the ring, or
      part of one channel of the slot the call chose when it loaded the index. */
  lemma StoresStayInPlace(g: Geometry, call: Call, seg: seq<byte>, moves: seq<Move>)
    requires Fits(g, seg)
    ensures var s := Run(g, call, State(seg, Entered), moves); InPlace(g, s, Own(g, call, s))
  {
    OwnInPlace(g, call, Run(g, call, State(seg, Entered), moves));
  }

  // ---- what the reader of a disturbed write finds ----

  function Place(c: Channel): nat {
    match c
    case Data => 0
    case Meta => 1
    case Extra => 2
    case Solution => 3
  }

  /** Channel `c` of the frame is in its slot; its size word too, if peers leave size words alone. */
  ghost predicate Filled(g: Geometry, w: Payloads, seg: seq<byte>, i: nat, c: Channel, sizes: bool)
    requires Fits(g, seg) && i < g.bufferCount && Accepts(g, w)
  {
    w.At(c).Some? ==>
      var b := w.At(c).value;
      |b| <= Cap(g, c) && PayloadAt(g, seg, i, c, |b|) == b && (sizes ==> SizeAt(g, seg, i, c) == |b|)
  }

  ghost predicate FilledBefore(g: Geometry, w: Payloads, seg: seq<byte>, i: nat, k: nat, sizes: bool)
    requires Fits(g, seg) && i < g.bufferCount && Accepts(g, w)
  {
    forall c :: Place(c) < k ==> Filled(g, w, seg, i, c, sizes)
  }

  ghost predicate Progress(g: Geometry, w: Payloads, s: State, sizes: bool)
    requires Sound(g, OfWrite(w), s)
  {
    match s.pc
    case Sizing(i, c) => FilledBefore(g, w, s.seg, i, Place(c), sizes)
    case Copying(i, c, pos) =>
      && FilledBefore(g, w, s.seg, i, Place(c), sizes)
      && pos <= Cap(g, c) && PayloadAt(g, s.seg, i, c, pos) == w.At(c).value[..pos]
      && (sizes ==> SizeAt(g, s.seg, i, c) == |w.At(c).value|)
    case Publishing(i) => FilledBefore(g, w, s.seg, i, 4, sizes)
    case _ => true
  }

  /** Slot `i` holds the same payloads, and the same size words if `sizes`. */
  ghost predicate SameSlotBytes(g: Geometry, seg: seq<byte>, left: seq<byte>, i: nat, sizes: bool)
    requires Fits(g, seg) && |left| == |seg| && i < g.bufferCount
  {
    forall c :: PayloadAt(g, seg, i, c, Cap(g, c)) == PayloadAt(g, left, i, c, Cap(g, c))
                && (sizes ==> SizeAt(g, seg, i, c) == SizeAt(g, left, i, c))
  }

  /** The slot being filled. */
  function Slot(pc: Pc): Option<nat> {
    match pc
    case Sizing(i, _) => Some(i)
    case Copying(i, _, _) => Some(i)
    case Publishing(i) => Some(i)
    case _ => None
  }

  /** A peer stores what it likes into the header, other slots and the size words, but not into the payloads
      of the slot being filled; if `sizes`, nor into its size words. */
  ghost predicate Spares(g: Geometry, call: Call, s: State, m: Move, sizes: bool)
    requires Sound(g, call, s)
  {
    m.Peers? && |m.left| == |s.seg| && Slot(s.pc).Some? ==>
      SameSlotBytes(g, s.seg, m.left, Slot(s.pc).value, sizes)
  }

  ghost predicate SparingRun(g: Geometry, call: Call, s: State, moves: seq<Move>, sizes: bool)
    requires Sound(g, call, s)
  {
    moves == [] ||
    (SparingRun(g, call, s, moves[..|moves| - 1], sizes)
     && Spares(g, call, Run(g, call, s, moves[..|moves| - 1]), moves[|moves| - 1], sizes))
  }

  lemma FilledKept(g: Geometry, w: Payloads, s: seq<byte>, t: seq<byte>, i: nat, c: Channel, sizes: bool)
    requires Fits(g, s) && |t| == |s| && i < g.bufferCount && Accepts(g, w)
    requires PayloadAt(g, s, i, c, Cap(g, c)) == PayloadAt(g, t, i, c, Cap(g, c))
    requires sizes ==> SizeAt(g, s, i, c) == SizeAt(g, t, i, c)
    requires Filled(g, w, s, i, c, sizes)
    ensures Filled(g, w, t, i, c, sizes)
  {
    if w.At(c).Some? {
      SamePrefix(g, s, t, i, c, |w.At(c).value|);
    }
  }

  /** A store inside channel `c` leaves the channels before it filled. */
  lemma StoreKeepsBefore(g: Geometry, w: Payloads, s: seq<byte>, t: seq<byte>, i: nat, c: Channel, sizes: bool)
    requires Fits(g, s) && i < g.bufferCount && Accepts(g, w)
    requires SameOutside(s, t, SizeOff(g, i, c), PayloadOff(g, i, c) + Cap(g, c))
    requires FilledBefore(g, w, s, i, Place(c), sizes)
    ensures FilledBefore(g, w, t, i, Place(c), sizes)
  {
    forall d | Place(d) < Place(c) ensures Filled(g, w, t, i, d, sizes) {
      ChannelsApart(g, i, c, i, d);
      ChannelElsewhere(g, s, t, SizeOff(g, i, c), PayloadOff(g, i, c) + Cap(g, c), i, d);
      FilledKept(g, w, s, t, i, d, sizes);
    }
  }

  lemma PeersKeep(g: Geometry, w: Payloads, s: State, left: seq<byte>, sizes: bool)
    requires Sound(g, OfWrite(w), s) && Progress(g, w, s, sizes) && |left| == |s.seg|
    requires Spares(g, OfWrite(w), s, Peers(left), sizes)
    ensures Progress(g, w, s.(seg := left), sizes)
  {
    if Slot(s.pc).Some? {
      var i := Slot(s.pc).value;
      forall c | Filled(g, w, s.seg, i, c, sizes) ensures Filled(g, w, left, i, c, sizes) {
        FilledKept(g, w, s.seg, left, i, c, sizes);
      }
      if s.pc.Copying? {
        SamePrefix(g, s.seg, left, i, s.pc.c, s.pc.pos);
      }
    }
  }

  /** The block of channel `c` is done. */
  lemma BlockDone(g: Geometry, w: Payloads, seg: seq<byte>, i: nat, c: Channel, sizes: bool)
    requires Fits(g, seg) && Filling(g, OfWrite(w), i)
    requires FilledBefore(g, w, seg, i, Place(c), sizes) && Filled(g, w, seg, i, c, sizes)
    ensures Progress(g, w, State(seg, Behind(i, c)), sizes)
  {
    hide Fits, Filled;
    assert forall d :: Place(d) < Place(c) + 1 ==> Filled(g, w, seg, i, d, sizes);
  }

  lemma SizingKeeps(g: Geometry, w: Payloads, s: State, sizes: bool)
    requires Sound(g, OfWrite(w), s) && Progress(g, w, s, sizes) && s.pc.Sizing?
    ensures Progress(g, w, Own(g, OfWrite(w), s), sizes)
  {
    var i, c := s.pc.i, s.pc.c;
    if w.At(c).Some? {
      var n := |w.At(c).value|;
      assert n <= Cap(g, c);
      WordHolds(g, c, n);
      SetSizeEffect(g, s.seg, i, c, n);
      StoreKeepsBefore(g, w, s.seg, SetSize(g, s.seg, i, c, n), i, c, sizes);
      hide Fits, SetSize, SizeAt, FilledBefore, Cap, Accepts, SameOutside;
      assert w.At(c).value[..0] == [];
    } else {
      assert Filled(g, w, s.seg, i, c, sizes);
      hide Fits, Filled, Accepts, Progress;
      BlockDone(g, w, s.seg, i, c, sizes);
    }
  }

  lemma ByteStored(g: Geometry, seg: seq<byte>, i: nat, c: Channel, pos: nat, b: byte)
    requires Fits(g, seg) && i < g.bufferCount && pos < Cap(g, c)
    ensures var t := PutByte(g, seg, i, c, pos, b);
            && SizeAt(g, t, i, c) == SizeAt(g, seg, i, c)
            && PayloadAt(g, t, i, c, pos + 1) == PayloadAt(g, seg, i, c, pos) + [b]
            && SameOutside(seg, t, SizeOff(g, i, c), PayloadOff(g, i, c) + Cap(g, c))
  {
    var t := PutByte(g, seg, i, c, pos, b);
    var lo, off := PayloadOff(g, i, c), PayloadOff(g, i, c) + pos;
    FieldBounds(g, i, c);
    SpliceReads(seg, off, [b]);
    assert SizeOff(g, i, c) <= lo <= off < lo + Cap(g, c) <= |seg|;
    hide Fits, PutByte, Splice, TotalSize, SectionSize, SectionOff, Cap, Decode, SizeOff;
    OutsideSlice(seg, t, off, off + 1, SizeOff(g, i, c), lo);
    AppendSlice(seg, t, lo, off, b);
  }

  lemma ByteKeeps(g: Geometry, w: Payloads, s: State, sizes: bool)
    requires Sound(g, OfWrite(w), s) && Progress(g, w, s, sizes) && s.pc.Copying?
    requires s.pc.pos < |w.At(s.pc.c).value|
    ensures Progress(g, w, Own(g, OfWrite(w), s), sizes)
  {
    var i, c, pos := s.pc.i, s.pc.c, s.pc.pos;
    var b := w.At(c).value;
    var t := PutByte(g, s.seg, i, c, pos, b[pos]);
    assert |b| <= Cap(g, c);
    ByteStored(g, s.seg, i, c, pos, b[pos]);
    StoreKeepsBefore(g, w, s.seg, t, i, c, sizes);
    hide Fits, PutByte, PayloadAt, SizeAt, FilledBefore, Cap, Accepts, SameOutside;
    assert b[..pos + 1] == b[..pos] + [b[pos]];
  }

  lemma LastByteKeeps(g: Geometry, w: Payloads, s: State, sizes: bool)
    requires Sound(g, OfWrite(w), s) && Progress(g, w, s, sizes) && s.pc.Copying?
    requires s.pc.pos == |w.At(s.pc.c).value|
    ensures Progress(g, w, Own(g, OfWrite(w), s), sizes)
  {
    var i, c := s.pc.i, s.pc.c;
    assert w.At(c).value[..s.pc.pos] == w.At(c).value;
    assert Filled(g, w, s.seg, i, c, sizes);
    hide Fits, PayloadAt, SizeAt, Accepts, Filled, Progress;
    BlockDone(g, w, s.seg, i, c, sizes);
  }

  lemma {:induction false} RunProgress(g: Geometry, w: Payloads, seg: seq<byte>, moves: seq<Move>, sizes: bool)
    requires Fits(g, seg) && SparingRun(g, OfWrite(w), State(seg, Entered), moves, sizes)
    ensures Progress(g, w, Run(g, OfWrite(w), State(seg, Entered), moves), sizes)
  {
    if moves != [] {
      var rest, m := moves[..|moves| - 1], moves[|moves| - 1];
      RunProgress(g, w, seg, rest, sizes);
      var s := Run(g, OfWrite(w), State(seg, Entered), rest);
      match m
      case Peers(left) => if |left| == |s.seg| { PeersKeep(g, w, s, left, sizes); }
      case Ours =>
        if s.pc.Sizing? {
          SizingKeeps(g, w, s, sizes);
        } else if s.pc.Copying? {
          if s.pc.pos < |w.At(s.pc.c).value| {
            ByteKeeps(g, w, s, sizes);
          } else {
            LastByteKeeps(g, w, s, sizes);
          }
        }
    }
  }

  /** readData with peers between its two loads: the index of one moment, the size word of a later one. */
  function TornRead(g: Geometry, first: seq<byte>, later: seq<byte>): (r: ReadResult)
    requires Fits(g, first) && |later| == |first|
    ensures r.Frame? ==> r.slot < g.bufferCount && r.length <= g.dataSize
    ensures first == later ==> r == Read(g, first)
  {
    if Index(first) < 0 || Index(first) >= g.bufferCount then NoFrame
    else
      var slot := Prev(Index(first), g.bufferCount);
      var length := SizeAt(g, later, slot, Data);
      Frame(slot, if length <= g.dataSize then length else g.dataSize)
  }

  /** From the last store of a write to a later load. */
  lemma FilledLater(g: Geometry, w: Payloads, s: seq<byte>, i: nat, sizes: bool, later: seq<byte>)
    requires Fits(g, s) && Filling(g, OfWrite(w), i) && FilledBefore(g, w, s, i, 4, sizes) && |later| == |s|
    requires SameSlotBytes(g, SetIndex(s, Next(i, g.bufferCount)), later, i, sizes)
    ensures forall c :: Filled(g, w, later, i, c, sizes)
  {
    var t := SetIndex(s, Next(i, g.bufferCount));
    SetIndexEffect(g, s, Next(i, g.bufferCount));
    forall c ensures Filled(g, w, later, i, c, sizes) {
      FieldBounds(g, i, c);
      ChannelElsewhere(g, s, t, 0, 4, i, c);
      FilledKept(g, w, s, t, i, c, sizes);
      FilledKept(g, w, t, later, i, c, sizes);
    }
  }

  /** What a reader is given that loads the index from `seg` and the size word from `later`: slot `i`, a length
      within capacity, and in `later` the bytes of the frame. */
  ghost predicate Delivers(g: Geometry, w: Payloads, seg: seq<byte>, later: seq<byte>, i: nat, sizes: bool)
    requires Fits(g, seg) && |later| == |seg| && Filling(g, OfWrite(w), i)
  {
    var r := TornRead(g, seg, later);
    && r.Frame? && r.slot == i && r.length <= g.dataSize
    && (forall c :: w.At(c).Some? ==>
          |w.At(c).value| <= Cap(g, c) && PayloadAt(g, later, i, c, |w.At(c).value|) == w.At(c).value)
    && (sizes && w.data.Some? ==> r.length == |w.data.value|)
  }

  lemma FilledDelivers(g: Geometry, w: Payloads, s: seq<byte>, i: nat, sizes: bool, later: seq<byte>)
    requires Fits(g, s) && Filling(g, OfWrite(w), i) && FilledBefore(g, w, s, i, 4, sizes) && |later| == |s|
    requires SameSlotBytes(g, SetIndex(s, Next(i, g.bufferCount)), later, i, sizes)
    ensures Delivers(g, w, SetIndex(s, Next(i, g.bufferCount)), later, i, sizes)
  {
    FilledLater(g, w, s, i, sizes, later);
    SetIndexEffect(g, s, Next(i, g.bufferCount));
    PrevNext(i, g.bufferCount);
    assert w.At(Data) == w.data && Filled(g, w, later, i, Data, sizes);
    hide Fits, Index, SetIndex, PayloadAt, SizeAt, SameSlotBytes, SameOutside;
    forall c | w.At(c).Some?
      ensures |w.At(c).value| <= Cap(g, c) && PayloadAt(g, later, i, c, |w.At(c).value|) == w.At(c).value
    {
      assert Filled(g, w, later, i, c, sizes);
    }
  }

  /** A write that was disturbed at any points, though not in the payloads of its slot, still publishes its
      frame: a reader that loads the index behind its last store, and the size word at any time while the slot's
      payloads are spared, is given the slot of the frame, a length within capacity, and pointers behind which
      all bytes of the frame are. If the size words were spared too, the length is the frame's. */
  lemma DisturbedWriteIsReadBack(g: Geometry, w: Payloads, seg: seq<byte>, moves: seq<Move>, sizes: bool,
                                 later: seq<byte>)
    requires Fits(g, seg) && SparingRun(g, OfWrite(w), State(seg, Entered), moves, sizes) && |later| == |seg|
    requires var s := Run(g, OfWrite(w), State(seg, Entered), moves);
             s.pc.Publishing? && SameSlotBytes(g, Own(g, OfWrite(w), s).seg, later, s.pc.i, sizes)
    ensures var s := Run(g, OfWrite(w), State(seg, Entered), moves);
            Delivers(g, w, Own(g, OfWrite(w), s).seg, later, s.pc.i, sizes)
  {
    hide Run, SparingRun, Fits, Delivers, SetIndex, SameSlotBytes, FilledBefore, Accepts;
    var s := Run(g, OfWrite(w), State(seg, Entered), moves);
    RunProgress(g, w, seg, moves, sizes);
    FilledDelivers(g, w, s.seg, s.pc.i, sizes, later);
  }
}
