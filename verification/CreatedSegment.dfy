/** What the freshly created segment says to whoever maps it. */
module CreatedSegment {
  import opened Bytes
  import opened Layout
  import opened Segment
  import RingHistory

  lemma HeaderWordsApart(word: nat, k: nat, l: nat)
    requires IsWord(word) && k < l < 5
    ensures HeaderOff(word, k) + word <= HeaderOff(word, l)
    ensures HeaderOff(word, l) + word <= HeaderSize(word)
  {
    CopiesLess(k, l, word);
    HeaderWordInside(word, l);
  }

  lemma SetHeaderWordEffect(word: nat, seg: seq<byte>, k: nat, v: nat, l: nat)
    requires IsWord(word) && HeaderSize(word) <= |seg| && k < 5 && l < 5 && v < Pow256(word)
    ensures var t := SetHeaderWord(word, seg, k, v);
            && HeaderWord(word, t, l) == (if l == k then v else HeaderWord(word, seg, l))
            && Index(t) == Index(seg)
  {
    var t := SetHeaderWord(word, seg, k, v);
    SpliceReads(seg, HeaderOff(word, k), Encode(v, word));
    SameSlice(seg, t, 0, 4);
    if k == l {
      DecodeEncode(v, word);
    } else {
      if k < l { HeaderWordsApart(word, k, l); } else { HeaderWordsApart(word, l, k); }
      SameSlice(seg, t, HeaderOff(word, l), HeaderOff(word, l) + word);
    }
  }

  lemma SetHeaderWordKeeps(word: nat, seg: seq<byte>, k: nat, v: nat, a: nat, b: nat, c: nat, d: nat, e: nat)
    requires IsWord(word) && HeaderSize(word) <= |seg| && k < 5 && v < Pow256(word)
    requires HeaderWord(word, seg, 0) == a && HeaderWord(word, seg, 1) == b
    requires HeaderWord(word, seg, 2) == c && HeaderWord(word, seg, 3) == d && HeaderWord(word, seg, 4) == e
    ensures var t := SetHeaderWord(word, seg, k, v);
            && Index(t) == Index(seg)
            && HeaderWord(word, t, 0) == (if k == 0 then v else a)
            && HeaderWord(word, t, 1) == (if k == 1 then v else b)
            && HeaderWord(word, t, 2) == (if k == 2 then v else c)
            && HeaderWord(word, t, 3) == (if k == 3 then v else d)
            && HeaderWord(word, t, 4) == (if k == 4 then v else e)
  {
    SetHeaderWordEffect(word, seg, k, v, 0);
    SetHeaderWordEffect(word, seg, k, v, 1);
    SetHeaderWordEffect(word, seg, k, v, 2);
    SetHeaderWordEffect(word, seg, k, v, 3);
    SetHeaderWordEffect(word, seg, k, v, 4);
  }

  function Words(word: nat, seg: seq<byte>): (nat, nat, nat, nat, nat)
    requires IsWord(word) && HeaderSize(word) <= |seg|
  {
    (HeaderWord(word, seg, 0), HeaderWord(word, seg, 1), HeaderWord(word, seg, 2),
     HeaderWord(word, seg, 3), HeaderWord(word, seg, 4))
  }

  lemma SetHeaderEffect(g: Geometry, seg: seq<byte>)
    requires Fits(g, seg)
    ensures DecodeHeader(g.word, SetHeader(g, seg)) == g
    ensures Index(SetHeader(g, seg)) == -1
  {
    GeometryWords(g);
    var s := SetIndex(seg, -1);
    SetIndexEffect(g, seg, -1);
    var w := Words(g.word, s);
    SetHeaderWordKeeps(g.word, s, 0, g.bufferCount, w.0, w.1, w.2, w.3, w.4);
    var s0 := SetHeaderWord(g.word, s, 0, g.bufferCount);
    SetHeaderWordKeeps(g.word, s0, 1, g.dataSize, g.bufferCount, w.1, w.2, w.3, w.4);
    var s1 := SetHeaderWord(g.word, s0, 1, g.dataSize);
    SetHeaderWordKeeps(g.word, s1, 2, g.metaSize, g.bufferCount, g.dataSize, w.2, w.3, w.4);
    var s2 := SetHeaderWord(g.word, s1, 2, g.metaSize);
    SetHeaderWordKeeps(g.word, s2, 3, g.extraSize, g.bufferCount, g.dataSize, g.metaSize, w.3, w.4);
    var s3 := SetHeaderWord(g.word, s2, 3, g.extraSize);
    SetHeaderWordKeeps(g.word, s3, 4, g.solutionSize, g.bufferCount, g.dataSize, g.metaSize, g.extraSize, w.4);
  }

  lemma GeometryWords(g: Geometry)
    requires Validates(g)
    ensures g.bufferCount < Pow256(g.word) && g.dataSize < Pow256(g.word)
    ensures g.metaSize < Pow256(g.word) && g.extraSize < Pow256(g.word) && g.solutionSize < Pow256(g.word)
  {
  }

  lemma SetSizeKeeps(g: Geometry, seg: seq<byte>, i: nat, c: Channel, j: nat, d: Channel)
    requires Fits(g, seg) && i < g.bufferCount && j < g.bufferCount
    ensures var t := SetSize(g, seg, i, c, 0);
            && SizeAt(g, t, j, d) == (if i == j && c == d then 0 else SizeAt(g, seg, j, d))
            && t[0..HeaderSize(g.word)] == seg[0..HeaderSize(g.word)]
  {
    var t := SetSize(g, seg, i, c, 0);
    SetSizeEffect(g, seg, i, c, 0);
    FieldBounds(g, i, c);
    SameSlice(seg, t, 0, HeaderSize(g.word));
    if i != j || c != d {
      ChannelsApart(g, i, c, j, d);
      ChannelElsewhere(g, seg, t, SizeOff(g, i, c), PayloadOff(g, i, c), j, d);
    }
  }

  lemma {:induction false} ClearSlotEffect(g: Geometry, seg: seq<byte>, i: nat, cs: seq<Channel>, j: nat, d: Channel)
    requires Fits(g, seg) && i < g.bufferCount && j < g.bufferCount
    ensures var t := ClearSlot(g, seg, i, cs);
            && SizeAt(g, t, j, d) == (if i == j && d in cs then 0 else SizeAt(g, seg, j, d))
            && t[0..HeaderSize(g.word)] == seg[0..HeaderSize(g.word)]
  {
    if cs != [] {
      ClearSlotEffect(g, seg, i, cs[..|cs| - 1], j, d);
      SetSizeKeeps(g, ClearSlot(g, seg, i, cs[..|cs| - 1]), i, cs[|cs| - 1], j, d);
    }
  }

  lemma {:induction false} ClearSlotsEffect(g: Geometry, seg: seq<byte>, k: nat, j: nat, d: Channel)
    requires Fits(g, seg) && k <= g.bufferCount && j < g.bufferCount
    ensures var t := ClearSlots(g, seg, k);
            && (j < k ==> SizeAt(g, t, j, d) == 0)
            && t[0..HeaderSize(g.word)] == seg[0..HeaderSize(g.word)]
  {
    if k == 0 {
    } else {
      ClearSlotsEffect(g, seg, k - 1, j, d);
      ClearSlotEffect(g, ClearSlots(g, seg, k - 1), k - 1, CHANNELS, j, d);
      assert d in CHANNELS;
    }
  }

  /** Segments with the same header bytes announce the same index and geometry. */
  lemma SameHeader(word: nat, s: seq<byte>, t: seq<byte>)
    requires IsWord(word) && HeaderSize(word) <= |s| && |t| == |s|
    requires s[4..HeaderSize(word)] == t[4..HeaderSize(word)]
    ensures DecodeHeader(word, s) == DecodeHeader(word, t)
  {
    hide Decode;
    forall k: nat | k < 5 ensures HeaderWord(word, s, k) == HeaderWord(word, t, k) {
      var lo, hi := HeaderOff(word, k), HeaderOff(word, k) + word;
      HeaderWordInside(word, k);
      SamePart(s, t, 4, HeaderSize(word), lo, hi);
    }
  }

  /** A created segment has no frame, empty slots, and a header that decodes to the geometry asked
      for: what a peer that opens it will validate and adopt. */
  lemma CreateSegmentIsCreated(g: Geometry, mapped: seq<byte>)
    requires Fits(g, mapped)
    ensures RingHistory.Created(g, CreateSegment(g, mapped))
    ensures DecodeHeader(g.word, CreateSegment(g, mapped)) == g
  {
    var s := SetHeader(g, mapped);
    var t := CreateSegment(g, mapped);
    SetHeaderEffect(g, mapped);
    forall j: nat, d: Channel | j < g.bufferCount ensures SizeAt(g, t, j, d) == 0 {
      ClearSlotsEffect(g, s, g.bufferCount, j, d);
    }
    ClearSlotsEffect(g, s, g.bufferCount, 0, Data);
    SamePart(s, t, 0, HeaderSize(g.word), 0, 4);
    SamePart(s, t, 0, HeaderSize(g.word), 4, HeaderSize(g.word));
    SameHeader(g.word, s, t);
  }

  /** However many frames were written since, a peer that maps the segment still decodes the
      creator's geometry, so its own validation accepts it. */
  lemma {:induction false} GeometrySurvivesWrites(g: Geometry, mapped: seq<byte>, ws: seq<Payloads>)
    requires Fits(g, mapped)
    ensures DecodeHeader(g.word, RingHistory.Run(g, CreateSegment(g, mapped), ws)) == g
  {
    if ws == [] {
      CreateSegmentIsCreated(g, mapped);
    } else {
      GeometrySurvivesWrites(g, mapped, ws[..|ws| - 1]);
      var s := RingHistory.Run(g, CreateSegment(g, mapped), ws[..|ws| - 1]);
      if Accepts(g, ws[|ws| - 1]) {
        WriteEffect(g, s, ws[|ws| - 1], 0, Data);
        SameHeader(g.word, s, Write(g, s, ws[|ws| - 1]));
      }
    }
  }
}
