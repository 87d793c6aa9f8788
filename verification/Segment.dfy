/** What the library's operations do to the bytes of a mapped segment. The segment is shared: a
    peer may store anything in it at any time, so nothing here assumes its contents. */
module Segment {
  import opened Wrappers
  import opened Bytes
  import opened Modular
  import opened Layout

  ghost predicate Fits(g: Geometry, seg: seq<byte>) {
    Validates(g) && TotalSize(g) <= |seg|
  }

  // ---- the fields of a segment ----

  /** shmHeader_->writeIndex. */
  function Index(seg: seq<byte>): int32
    requires |seg| >= 4
  {
    DecodeInt(seg[0..4])
  }

  /** The size word of channel `c` in slot `i`. */
  function SizeAt(g: Geometry, seg: seq<byte>, i: nat, c: Channel): (v: nat)
    requires Fits(g, seg) && i < g.bufferCount
    ensures v < Pow256(g.word)
  {
    FieldBounds(g, i, c);
    DecodeBound(seg[SizeOff(g, i, c)..PayloadOff(g, i, c)]);
    Decode(seg[SizeOff(g, i, c)..PayloadOff(g, i, c)])
  }

  /** The first `len` payload bytes of channel `c` in slot `i`. */
  function PayloadAt(g: Geometry, seg: seq<byte>, i: nat, c: Channel, len: nat): (b: seq<byte>)
    requires Fits(g, seg) && i < g.bufferCount && len <= Cap(g, c)
    ensures |b| == len
  {
    FieldBounds(g, i, c);
    seg[PayloadOff(g, i, c)..PayloadOff(g, i, c) + len]
  }

  /** All of section `i`. */
  function SectionAt(g: Geometry, seg: seq<byte>, i: nat): seq<byte>
    requires Fits(g, seg) && i < g.bufferCount
  {
    FieldBounds(g, i, Data);
    seg[SectionOff(g, i)..SectionOff(g, i) + SectionSize(g)]
  }

  // ---- stores ----

  function SetIndex(seg: seq<byte>, v: int32): (t: seq<byte>)
    requires |seg| >= 4
    ensures |t| == |seg|
  {
    Splice(seg, 0, EncodeInt(v))
  }

  function SetSize(g: Geometry, seg: seq<byte>, i: nat, c: Channel, v: nat): (t: seq<byte>)
    requires Fits(g, seg) && i < g.bufferCount
    ensures |t| == |seg|
  {
    FieldBounds(g, i, c);
    Splice(seg, SizeOff(g, i, c), Encode(v, g.word))
  }

  function SetPayload(g: Geometry, seg: seq<byte>, i: nat, c: Channel, b: seq<byte>): (t: seq<byte>)
    requires Fits(g, seg) && i < g.bufferCount && |b| <= Cap(g, c)
    ensures |t| == |seg|
  {
    FieldBounds(g, i, c);
    Splice(seg, PayloadOff(g, i, c), b)
  }

  /** One `if (p) { size word; memcpy }` block of write: nothing for a null pointer. */
  function Put(g: Geometry, seg: seq<byte>, i: nat, c: Channel, b: Option<seq<byte>>): (t: seq<byte>)
    requires Fits(g, seg) && i < g.bufferCount
    requires b.Some? ==> |b.value| <= Cap(g, c)
    ensures |t| == |seg|
  {
    match b
    case None => seg
    case Some(bytes) => SetPayload(g, SetSize(g, seg, i, c, |bytes|), i, c, bytes)
  }

  // ---- the operations ----

  /** The four buffers handed to write, each possibly a null pointer. */
  datatype Payloads = Payloads(data: Option<seq<byte>>, meta: Option<seq<byte>>,
                               extra: Option<seq<byte>>, solution: Option<seq<byte>>) {
    function At(c: Channel): Option<seq<byte>> {
      match c
      case Data => data
      case Meta => meta
      case Extra => extra
      case Solution => solution
    }
  }

  predicate ChannelFits(g: Geometry, w: Payloads, c: Channel) {
    w.At(c).Some? ==> |w.At(c).value| <= Cap(g, c)
  }

  predicate Accepts(g: Geometry, w: Payloads) {
    ChannelFits(g, w, Data) && ChannelFits(g, w, Meta) && ChannelFits(g, w, Extra) &&
    ChannelFits(g, w, Solution)
  }

  /** The slot write fills: the shared index, or 0 when it is unset or corrupt. */
  function WriteSlot(g: Geometry, seg: seq<byte>): (i: nat)
    requires Fits(g, seg)
    ensures i < g.bufferCount
  {
    if 0 <= Index(seg) < g.bufferCount then Index(seg) else 0
  }

  function PutAll(g: Geometry, seg: seq<byte>, i: nat, w: Payloads): (t: seq<byte>)
    requires Fits(g, seg) && i < g.bufferCount && Accepts(g, w)
    ensures |t| == |seg|
  {
    Put(g, Put(g, Put(g, Put(g, seg, i, Data, w.data), i, Meta, w.meta), i, Extra, w.extra),
        i, Solution, w.solution)
  }

  function Write(g: Geometry, seg: seq<byte>, w: Payloads): (t: seq<byte>)
    requires Fits(g, seg)
    ensures |t| == |seg|
  {
    if Accepts(g, w) then
      var i := WriteSlot(g, seg);
      SetIndex(PutAll(g, seg, i, w), Next(i, g.bufferCount))
    else seg
  }

  function Increment(g: Geometry, seg: seq<byte>): (t: seq<byte>)
    requires Fits(g, seg)
    ensures |t| == |seg|
  {
    SetIndex(seg, if Index(seg) < 0 || Index(seg) >= g.bufferCount - 1 then 0 else Index(seg) + 1)
  }

  predicate HeaderAccepts(g: Geometry, index: int, dataSize: nat) {
    0 <= index < g.bufferCount && dataSize <= g.dataSize
  }

  function WriteHeader(g: Geometry, seg: seq<byte>, index: int, dataSize: nat): (t: seq<byte>)
    requires Fits(g, seg)
    ensures |t| == |seg|
  {
    if HeaderAccepts(g, index, dataSize)
    then SetSize(g, SetIndex(seg, index), index, Data, dataSize)
    else seg
  }

  /** What readData answers: failure, or the slot whose four payload pointers it hands out and the
      frame length, clamped to the slot's capacity. */
  datatype ReadResult = NoFrame | Frame(slot: nat, length: nat)

  function Read(g: Geometry, seg: seq<byte>): (r: ReadResult)
    requires Fits(g, seg)
    ensures r.Frame? ==> r.slot < g.bufferCount && r.length <= g.dataSize
  {
    if Index(seg) < 0 || Index(seg) >= g.bufferCount then NoFrame
    else
      var slot := Prev(Index(seg), g.bufferCount);
      var length := SizeAt(g, seg, slot, Data);
      Frame(slot, if length <= g.dataSize then length else g.dataSize)
  }

  // ---- the header and the segment create leaves ----

  /** Word `k` of the header, after the write index. */
  function HeaderOff(word: nat, k: nat): nat {
    4 + Copies(k, word)
  }

  lemma HeaderWordInside(word: nat, k: nat)
    requires IsWord(word) && k < 5
    ensures 4 <= HeaderOff(word, k) && HeaderOff(word, k) + word <= HeaderSize(word)
  {
    CopiesLess(k, 5, word);
    CopiesIsProduct(5, word);
  }

  function HeaderWord(word: nat, seg: seq<byte>, k: nat): nat
    requires IsWord(word) && HeaderSize(word) <= |seg| && k < 5
  {
    HeaderWordInside(word, k);
    Decode(seg[HeaderOff(word, k)..HeaderOff(word, k) + word])
  }

  /** The geometry a peer finds in the header. */
  function DecodeHeader(word: nat, seg: seq<byte>): Geometry
    requires IsWord(word) && HeaderSize(word) <= |seg|
  {
    Geometry(word, HeaderWord(word, seg, 1), HeaderWord(word, seg, 2), HeaderWord(word, seg, 3),
             HeaderWord(word, seg, 4), HeaderWord(word, seg, 0))
  }

  function SetHeaderWord(word: nat, seg: seq<byte>, k: nat, v: nat): (t: seq<byte>)
    requires IsWord(word) && HeaderSize(word) <= |seg| && k < 5
    ensures |t| == |seg|
  {
    HeaderWordInside(word, k);
    Splice(seg, HeaderOff(word, k), Encode(v, word))
  }

  function SetHeader(g: Geometry, seg: seq<byte>): (t: seq<byte>)
    requires IsWord(g.word) && HeaderSize(g.word) <= |seg|
    ensures |t| == |seg|
  {
    var s0 := SetHeaderWord(g.word, SetIndex(seg, -1), 0, g.bufferCount);
    var s1 := SetHeaderWord(g.word, s0, 1, g.dataSize);
    var s2 := SetHeaderWord(g.word, s1, 2, g.metaSize);
    var s3 := SetHeaderWord(g.word, s2, 3, g.extraSize);
    SetHeaderWord(g.word, s3, 4, g.solutionSize)
  }

  /** The size words of the channels `cs` of slot `i` set to zero, one after the other. */
  function ClearSlot(g: Geometry, seg: seq<byte>, i: nat, cs: seq<Channel>): (t: seq<byte>)
    requires Fits(g, seg) && i < g.bufferCount
    ensures |t| == |seg|
  {
    if cs == [] then seg
    else SetSize(g, ClearSlot(g, seg, i, cs[..|cs| - 1]), i, cs[|cs| - 1], 0)
  }

  /** The size words of the first `k` slots set to zero. */
  function ClearSlots(g: Geometry, seg: seq<byte>, k: nat): (t: seq<byte>)
    requires Fits(g, seg) && k <= g.bufferCount
    ensures |t| == |seg|
  {
    if k == 0 then seg else ClearSlot(g, ClearSlots(g, seg, k - 1), k - 1, CHANNELS)
  }

  /** What create leaves in memory it has just mapped. */
  function CreateSegment(g: Geometry, mapped: seq<byte>): (t: seq<byte>)
    requires Fits(g, mapped)
    ensures |t| == |mapped|
  {
    ClearSlots(g, SetHeader(g, mapped), g.bufferCount)
  }

  // ---- what a store changes ----

  lemma SetIndexEffect(g: Geometry, seg: seq<byte>, v: int32)
    requires Fits(g, seg)
    ensures Index(SetIndex(seg, v)) == v
    ensures SameOutside(seg, SetIndex(seg, v), 0, 4)
  {
    SpliceReads(seg, 0, EncodeInt(v));
    DecodeEncodeInt(v);
  }

  lemma SetSizeEffect(g: Geometry, seg: seq<byte>, i: nat, c: Channel, v: nat)
    requires Fits(g, seg) && i < g.bufferCount && v < Pow256(g.word)
    ensures SizeAt(g, SetSize(g, seg, i, c, v), i, c) == v
    ensures SameOutside(seg, SetSize(g, seg, i, c, v), SizeOff(g, i, c), PayloadOff(g, i, c))
  {
    FieldBounds(g, i, c);
    SpliceReads(seg, SizeOff(g, i, c), Encode(v, g.word));
    DecodeEncode(v, g.word);
  }

  lemma SetPayloadEffect(g: Geometry, seg: seq<byte>, i: nat, c: Channel, b: seq<byte>)
    requires Fits(g, seg) && i < g.bufferCount && |b| <= Cap(g, c)
    ensures PayloadAt(g, SetPayload(g, seg, i, c, b), i, c, |b|) == b
    ensures SameOutside(seg, SetPayload(g, seg, i, c, b), PayloadOff(g, i, c), PayloadOff(g, i, c) + |b|)
  {
    FieldBounds(g, i, c);
    SpliceReads(seg, PayloadOff(g, i, c), b);
  }

  /** Channel `c` of slot `i` reads the same in both segments. */
  ghost predicate SameChannel(g: Geometry, s: seq<byte>, t: seq<byte>, i: nat, c: Channel)
    requires Fits(g, s) && |t| == |s| && i < g.bufferCount
  {
    && SizeAt(g, s, i, c) == SizeAt(g, t, i, c)
    && PayloadAt(g, s, i, c, Cap(g, c)) == PayloadAt(g, t, i, c, Cap(g, c))
  }

  /** A channel is what its two slices say. */
  lemma SameSlicesSameChannel(g: Geometry, s: seq<byte>, t: seq<byte>, i: nat, c: Channel)
    requires Fits(g, s) && |t| == |s| && i < g.bufferCount
    requires PayloadOff(g, i, c) + Cap(g, c) <= |s|
    requires s[SizeOff(g, i, c)..PayloadOff(g, i, c)] == t[SizeOff(g, i, c)..PayloadOff(g, i, c)]
    requires var p := PayloadOff(g, i, c); s[p..p + Cap(g, c)] == t[p..p + Cap(g, c)]
    ensures SameChannel(g, s, t, i, c)
  {
    hide Decode, TotalSize, SectionOff;
  }

  /** A change confined to [lo, hi) leaves every channel outside that range alone. */
  lemma ChannelElsewhere(g: Geometry, s: seq<byte>, t: seq<byte>, lo: nat, hi: nat, i: nat, c: Channel)
    requires Fits(g, s) && SameOutside(s, t, lo, hi) && i < g.bufferCount
    requires hi <= SizeOff(g, i, c) || PayloadOff(g, i, c) + Cap(g, c) <= lo
    ensures SameChannel(g, s, t, i, c)
  {
    FieldBounds(g, i, c);
    var at, mid, end := SizeOff(g, i, c), PayloadOff(g, i, c), PayloadOff(g, i, c) + Cap(g, c);
    assert at <= mid <= end <= |s| && |s| == |t|;
    hide *;
    OutsideSlice(s, t, lo, hi, at, mid);
    OutsideSlice(s, t, lo, hi, mid, end);
    SameSlicesSameChannel(g, s, t, i, c);
  }

  /** Different channels stand apart. */
  lemma ChannelsApart(g: Geometry, i: nat, c: Channel, j: nat, d: Channel)
    requires i != j || c != d
    ensures SizeOff(g, i, c) >= PayloadOff(g, j, d) + Cap(g, d) ||
            SizeOff(g, j, d) >= PayloadOff(g, i, c) + Cap(g, c)
  {
    if i < j {
      SectionsInOrder(g, i, j);
    } else if j < i {
      SectionsInOrder(g, j, i);
    }
  }

  lemma SamePrefix(g: Geometry, s: seq<byte>, t: seq<byte>, i: nat, c: Channel, len: nat)
    requires Fits(g, s) && |t| == |s| && i < g.bufferCount && len <= Cap(g, c)
    requires PayloadAt(g, s, i, c, Cap(g, c)) == PayloadAt(g, t, i, c, Cap(g, c))
    ensures PayloadAt(g, s, i, c, len) == PayloadAt(g, t, i, c, len)
  {
    FieldBounds(g, i, c);
    var off := PayloadOff(g, i, c);
    SamePart(s, t, off, off + Cap(g, c), off, off + len);
  }

  lemma WordHolds(g: Geometry, c: Channel, v: nat)
    requires Validates(g) && v <= Cap(g, c)
    ensures v < Pow256(g.word)
  {
  }

  /** Put stores size and bytes in its channel and nothing anywhere else. */
  lemma PutEffect(g: Geometry, seg: seq<byte>, i: nat, c: Channel, b: Option<seq<byte>>)
    requires Fits(g, seg) && i < g.bufferCount
    requires b.Some? ==> |b.value| <= Cap(g, c)
    ensures var t := Put(g, seg, i, c, b);
            && SameOutside(seg, t, SizeOff(g, i, c), PayloadOff(g, i, c) + Cap(g, c))
            && (b.None? ==> t == seg)
            && (b.Some? ==> SizeAt(g, t, i, c) == |b.value| && PayloadAt(g, t, i, c, |b.value|) == b.value)
  {
    if b.Some? {
      var s := SetSize(g, seg, i, c, |b.value|);
      WordHolds(g, c, |b.value|);
      SetSizeEffect(g, seg, i, c, |b.value|);
      SetPayloadEffect(g, s, i, c, b.value);
      FieldBounds(g, i, c);
      SameSlice(s, Put(g, seg, i, c, b), SizeOff(g, i, c), PayloadOff(g, i, c));
    }
  }

  /** Slot `i`, channel `c` after `b` was put there over `seg`. */
  ghost predicate Stored(g: Geometry, seg: seq<byte>, t: seq<byte>, i: nat, c: Channel, b: Option<seq<byte>>)
    requires Fits(g, seg) && |t| == |seg| && i < g.bufferCount
  {
    match b
    case None => SameChannel(g, seg, t, i, c)
    case Some(bytes) =>
      |bytes| <= Cap(g, c) && SizeAt(g, t, i, c) == |bytes| && PayloadAt(g, t, i, c, |bytes|) == bytes
  }

  lemma StoredThrough(g: Geometry, seg: seq<byte>, s: seq<byte>, t: seq<byte>, i: nat, c: Channel,
                      b: Option<seq<byte>>)
    requires Fits(g, seg) && |t| == |s| == |seg| && i < g.bufferCount
    requires Stored(g, seg, s, i, c, b) && SameChannel(g, s, t, i, c)
    ensures Stored(g, seg, t, i, c, b)
  {
    if b.Some? {
      SamePrefix(g, s, t, i, c, |b.value|);
    }
  }

  /** One more channel put: what was stored in the other channels stays, and this one is stored. */
  lemma PutKeeps(g: Geometry, seg: seq<byte>, s: seq<byte>, i: nat, c: Channel, b: Option<seq<byte>>,
                 j: nat, d: Channel, e: Option<seq<byte>>)
    requires Fits(g, seg) && |s| == |seg| && i < g.bufferCount && j < g.bufferCount
    requires b.Some? ==> |b.value| <= Cap(g, c)
    requires Stored(g, seg, s, j, d, e) && (i != j || c != d)
    ensures Stored(g, seg, Put(g, s, i, c, b), j, d, e)
  {
    var t := Put(g, s, i, c, b);
    PutEffect(g, s, i, c, b);
    ChannelsApart(g, i, c, j, d);
    ChannelElsewhere(g, s, t, SizeOff(g, i, c), PayloadOff(g, i, c) + Cap(g, c), j, d);
    StoredThrough(g, seg, s, t, j, d, e);
  }

  lemma PutStores(g: Geometry, seg: seq<byte>, s: seq<byte>, i: nat, c: Channel, b: Option<seq<byte>>)
    requires Fits(g, seg) && |s| == |seg| && i < g.bufferCount
    requires b.Some? ==> |b.value| <= Cap(g, c)
    requires Stored(g, seg, s, i, c, None)
    ensures Stored(g, seg, Put(g, s, i, c, b), i, c, b)
  {
    PutEffect(g, s, i, c, b);
  }

  /** An accepted write stores each non-null buffer in its channel of the slot at the write index,
      keeps every other channel of every slot, keeps the geometry words of the header, and moves the
      index to the next slot. */
  lemma WriteEffect(g: Geometry, seg: seq<byte>, w: Payloads, j: nat, d: Channel)
    requires Fits(g, seg) && Accepts(g, w) && j < g.bufferCount
    ensures var i := WriteSlot(g, seg); var t := Write(g, seg, w);
            && Index(t) == Next(i, g.bufferCount)
            && Stored(g, seg, t, j, d, if j == i then w.At(d) else None)
            && t[4..HeaderSize(g.word)] == seg[4..HeaderSize(g.word)]
  {
    var i := WriteSlot(g, seg);
    PutAllEffect(g, seg, i, w, j, d);
    var p := PutAll(g, seg, i, w);
    var t := Write(g, seg, w);
    SetIndexEffect(g, p, Next(i, g.bufferCount));
    FieldBounds(g, j, d);
    ChannelElsewhere(g, p, t, 0, 4, j, d);
    StoredThrough(g, seg, p, t, j, d, if j == i then w.At(d) else None);
    SameSlice(p, t, 4, HeaderSize(g.word));
  }

  lemma PutAllEffect(g: Geometry, seg: seq<byte>, i: nat, w: Payloads, j: nat, d: Channel)
    requires Fits(g, seg) && Accepts(g, w) && i < g.bufferCount && j < g.bufferCount
    ensures Stored(g, seg, PutAll(g, seg, i, w), j, d, if j == i then w.At(d) else None)
    ensures PutAll(g, seg, i, w)[4..HeaderSize(g.word)] == seg[4..HeaderSize(g.word)]
  {
    var s1 := PutStep(g, seg, seg, i, Data, w, j, d, false);
    var s2 := PutStep(g, seg, s1, i, Meta, w, j, d, d.Data?);
    var s3 := PutStep(g, seg, s2, i, Extra, w, j, d, d.Data? || d.Meta?);
    var s4 := PutStep(g, seg, s3, i, Solution, w, j, d, !d.Solution?);
  }

  /** A write touches the write index and its own section only. */
  lemma WriteKeepsSection(g: Geometry, seg: seq<byte>, w: Payloads, j: nat)
    requires Fits(g, seg) && j < g.bufferCount
    requires Accepts(g, w) ==> j != WriteSlot(g, seg)
    ensures SectionAt(g, Write(g, seg, w), j) == SectionAt(g, seg, j)
  {
    if Accepts(g, w) {
      var i := WriteSlot(g, seg);
      var p := PutAll(g, seg, i, w);
      PutAllWithin(g, seg, i, w);
      SetIndexEffect(g, p, Next(i, g.bufferCount));
      SectionElsewhere(g, seg, p, i, j);
      FieldBounds(g, j, Data);
      SameSlice(p, Write(g, seg, w), SectionOff(g, j), SectionOff(g, j) + SectionSize(g));
    }
  }

  lemma SectionElsewhere(g: Geometry, s: seq<byte>, t: seq<byte>, i: nat, j: nat)
    requires Fits(g, s) && i < g.bufferCount && j < g.bufferCount && i != j
    requires SameOutside(s, t, SectionOff(g, i), SectionOff(g, i) + SectionSize(g))
    ensures SectionAt(g, t, j) == SectionAt(g, s, j)
  {
    FieldBounds(g, j, Data);
    if i < j { SectionsInOrder(g, i, j); } else { SectionsInOrder(g, j, i); }
    SameSlice(s, t, SectionOff(g, j), SectionOff(g, j) + SectionSize(g));
  }

  lemma PutAllWithin(g: Geometry, seg: seq<byte>, i: nat, w: Payloads)
    requires Fits(g, seg) && i < g.bufferCount && Accepts(g, w)
    ensures SameOutside(seg, PutAll(g, seg, i, w), SectionOff(g, i), SectionOff(g, i) + SectionSize(g))
  {
    PutWithin(g, seg, i, Data, w.data);
    var s1 := Put(g, seg, i, Data, w.data);
    PutWithin(g, s1, i, Meta, w.meta);
    var s2 := Put(g, s1, i, Meta, w.meta);
    PutWithin(g, s2, i, Extra, w.extra);
    var s3 := Put(g, s2, i, Extra, w.extra);
    PutWithin(g, s3, i, Solution, w.solution);
  }

  lemma PutWithin(g: Geometry, seg: seq<byte>, i: nat, c: Channel, b: Option<seq<byte>>)
    requires Fits(g, seg) && i < g.bufferCount
    requires b.Some? ==> |b.value| <= Cap(g, c)
    ensures SameOutside(seg, Put(g, seg, i, c, b), SectionOff(g, i), SectionOff(g, i) + SectionSize(g))
  {
  }

  /** One of the four puts, seen from channel `d` of slot `j`; `done` says its own put is past. */
  lemma PutStep(g: Geometry, seg: seq<byte>, s: seq<byte>, i: nat, c: Channel, w: Payloads,
                j: nat, d: Channel, done: bool) returns (t: seq<byte>)
    requires Fits(g, seg) && |s| == |seg| && Accepts(g, w) && i < g.bufferCount && j < g.bufferCount
    requires Stored(g, seg, s, j, d, if done && j == i then w.At(d) else None)
    requires done ==> c != d
    requires s[4..HeaderSize(g.word)] == seg[4..HeaderSize(g.word)]
    ensures t == Put(g, s, i, c, w.At(c))
    ensures Stored(g, seg, t, j, d, if (done || c == d) && j == i then w.At(d) else None)
    ensures t[4..HeaderSize(g.word)] == seg[4..HeaderSize(g.word)]
  {
    hide Put, Stored, Decode;
    t := Put(g, s, i, c, w.At(c));
    PutEffect(g, s, i, c, w.At(c));
    FieldBounds(g, i, c);
    SameSlice(s, t, 4, HeaderSize(g.word));
    if i == j && c == d {
      PutStores(g, seg, s, i, c, w.At(c));
    } else {
      PutKeeps(g, seg, s, i, c, w.At(c), j, d, if done && j == i then w.At(d) else None);
    }
  }
}
