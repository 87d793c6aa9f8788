/** Bytes of a memory segment, and the numbers stored in them. Words are little-endian, as on
    every machine the service is built for. */
module Bytes {

  type byte = b: int | 0 <= b < 256

  function Pow256(n: nat): (p: nat)
    ensures p >= 1
  {
    if n == 0 then 1 else 256 * Pow256(n - 1)
  }

  function Decode(s: seq<byte>): nat {
    if s == [] then 0 else s[0] + 256 * Decode(s[1..])
  }

  function Encode(v: nat, n: nat): (s: seq<byte>)
    ensures |s| == n
  {
    if n == 0 then [] else [v % 256] + Encode(v / 256, n - 1)
  }

  lemma {:induction false} DecodeEncode(v: nat, n: nat)
    requires v < Pow256(n)
    ensures Decode(Encode(v, n)) == v
  {
    if n == 0 {
    } else {
      DecodeEncode(v / 256, n - 1);
      assert Encode(v, n)[1..] == Encode(v / 256, n - 1);
    }
  }

  lemma {:induction false} DecodeBound(s: seq<byte>)
    ensures Decode(s) < Pow256(|s|)
  {
    if s == [] {
    } else {
      DecodeBound(s[1..]);
    }
  }

  /** The two sizes of size_t the library is built with. */
  lemma Pow256Values()
    ensures Pow256(4) == 0x1_0000_0000
    ensures Pow256(8) == 0x1_0000_0000_0000_0000
  {
  }

  /** A C int, 32 bits, two's complement. */
  type int32 = v: int | -0x8000_0000 <= v < 0x8000_0000

  function EncodeInt(v: int32): (s: seq<byte>)
    ensures |s| == 4
  {
    Encode(if v < 0 then v + 0x1_0000_0000 else v, 4)
  }

  function DecodeInt(s: seq<byte>): int32
    requires |s| == 4
  {
    DecodeBound(s);
    Pow256Values();
    var u := Decode(s);
    if u < 0x8000_0000 then u else u - 0x1_0000_0000
  }

  lemma DecodeEncodeInt(v: int32)
    ensures DecodeInt(EncodeInt(v)) == v
  {
    Pow256Values();
    DecodeEncode(if v < 0 then v + 0x1_0000_0000 else v, 4);
  }

  /** memcpy: `s` with the bytes `b` written at `off`. */
  function Splice(s: seq<byte>, off: nat, b: seq<byte>): (r: seq<byte>)
    requires off + |b| <= |s|
    ensures |r| == |s|
  {
    seq(|s|, p requires 0 <= p < |s| => if off <= p < off + |b| then b[p - off] else s[p])
  }

  lemma SpliceReads(s: seq<byte>, off: nat, b: seq<byte>)
    requires off + |b| <= |s|
    ensures Splice(s, off, b)[off..off + |b|] == b
    ensures SameOutside(s, Splice(s, off, b), off, off + |b|)
  {
  }

  /** Two segments of one size that differ at most in [lo, hi). */
  ghost predicate SameOutside(s: seq<byte>, t: seq<byte>, lo: int, hi: int) {
    && |s| == |t|
    && forall p :: 0 <= p < |s| && !(lo <= p < hi) ==> t[p] == s[p]
  }

  lemma SliceOfSlice(s: seq<byte>, a: nat, b: nat, lo: nat, hi: nat)
    requires a <= lo <= hi <= b <= |s|
    ensures s[a..b][lo - a..hi - a] == s[lo..hi]
  {
    var t := s[a..b];
    forall i | 0 <= i < hi - lo ensures t[lo - a..hi - a][i] == s[lo..hi][i] {
      assert t[lo - a..hi - a][i] == t[lo - a + i];
    }
  }

  lemma SamePart(s: seq<byte>, t: seq<byte>, a: nat, b: nat, lo: nat, hi: nat)
    requires a <= lo <= hi <= b <= |s| && |t| == |s|
    requires s[a..b] == t[a..b]
    ensures s[lo..hi] == t[lo..hi]
  {
    SliceOfSlice(s, a, b, lo, hi);
    SliceOfSlice(t, a, b, lo, hi);
  }

  lemma SameSlice(s: seq<byte>, t: seq<byte>, lo: nat, hi: nat)
    requires |s| == |t| && lo <= hi <= |s|
    requires forall p :: lo <= p < hi ==> s[p] == t[p]
    ensures s[lo..hi] == t[lo..hi]
  {
  }

  /** A slice outside the range in which two segments may differ. */
  lemma OutsideSlice(s: seq<byte>, t: seq<byte>, lo: int, hi: int, a: nat, b: nat)
    requires SameOutside(s, t, lo, hi) && a <= b <= |s| && (b <= lo || hi <= a)
    ensures s[a..b] == t[a..b]
  {
    SameSlice(s, t, a, b);
  }

  lemma AppendSlice(s: seq<byte>, t: seq<byte>, lo: nat, off: nat, b: byte)
    requires lo <= off < |s| && |t| == |s|
    requires t[off..off + 1] == [b] && SameOutside(s, t, off, off + 1)
    ensures t[lo..off + 1] == s[lo..off] + [b]
  {
  }
}
