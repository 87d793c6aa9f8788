/** The layout of the shared segment: a header, then `bufferCount` sections of four channels,
    each a size word followed by its payload. */
module Layout {
  import opened Bytes
  import opened Modular

  const MAX_DATA_SIZE: nat := 66355200
  const MAX_META_SIZE: nat := 4 * 1024 * 1024
  const MAX_EXTRA_SIZE: nat := 4 * 1024 * 1024
  const MAX_SOLUTION_SIZE: nat := 4 * 1024 * 1024
  const MAX_BUFFER_COUNT: nat := 64

  /** `word` is sizeof(size_t). */
  datatype Geometry = Geometry(word: nat, dataSize: nat, metaSize: nat, extraSize: nat,
                               solutionSize: nat, bufferCount: nat)

  datatype Channel = Data | Meta | Extra | Solution

  const CHANNELS: seq<Channel> := [Data, Meta, Extra, Solution]

  predicate IsWord(word: nat) {
    word == 4 || word == 8
  }

  predicate InRange(g: Geometry) {
    && 1 <= g.bufferCount <= MAX_BUFFER_COUNT
    && 1 <= g.dataSize <= MAX_DATA_SIZE
    && g.metaSize <= MAX_META_SIZE
    && g.extraSize <= MAX_EXTRA_SIZE
    && g.solutionSize <= MAX_SOLUTION_SIZE
  }

  /** sizeof(ShmHeader): an int and five size_t, packed to four bytes. */
  function HeaderSize(word: nat): nat {
    4 + 5 * word
  }

  function SectionSize(g: Geometry): nat {
    g.dataSize + g.metaSize + g.extraSize + g.solutionSize + 4 * g.word
  }

  /** The space `n` blocks of `s` bytes take. It is the product (`CopiesIsProduct`), defined by
      recursion so that proofs about sections stay linear. */
  function Copies(n: nat, s: nat): nat {
    if n == 0 then 0 else Copies(n - 1, s) + s
  }

  lemma {:induction false} CopiesIsProduct(n: nat, s: nat)
    ensures Copies(n, s) == n * s
  {
    if n == 0 {
    } else {
      CopiesIsProduct(n - 1, s);
      assert n * s == (n - 1) * s + s;
    }
  }

  lemma {:induction false} CopiesLess(i: nat, j: nat, s: nat)
    requires i < j
    ensures Copies(i, s) + s <= Copies(j, s)
  {
    if i + 1 == j {
    } else {
      CopiesLess(i, j - 1, s);
    }
  }

  function TotalSize(g: Geometry): nat {
    HeaderSize(g.word) + Copies(g.bufferCount, SectionSize(g))
  }

  /** What validateGeometry is for: caps respected and the exact total representable. */
  predicate Validates(g: Geometry) {
    IsWord(g.word) && InRange(g) && TotalSize(g) < Pow256(g.word)
  }

  function Cap(g: Geometry, c: Channel): nat {
    match c
    case Data => g.dataSize
    case Meta => g.metaSize
    case Extra => g.extraSize
    case Solution => g.solutionSize
  }

  /** Where the size word of channel `c` stands within a section. */
  function ChannelOff(g: Geometry, c: Channel): nat {
    match c
    case Data => 0
    case Meta => g.word + g.dataSize
    case Extra => 2 * g.word + g.dataSize + g.metaSize
    case Solution => 3 * g.word + g.dataSize + g.metaSize + g.extraSize
  }

  function SectionOff(g: Geometry, i: nat): nat {
    HeaderSize(g.word) + Copies(i, SectionSize(g))
  }

  function SizeOff(g: Geometry, i: nat, c: Channel): nat {
    SectionOff(g, i) + ChannelOff(g, c)
  }

  function PayloadOff(g: Geometry, i: nat, c: Channel): nat {
    SizeOff(g, i, c) + g.word
  }

  lemma SectionsInOrder(g: Geometry, i: nat, j: nat)
    requires i < j
    ensures SectionOff(g, i) + SectionSize(g) <= SectionOff(g, j)
  {
    CopiesLess(i, j, SectionSize(g));
  }

  /** Every field of slot `i` lies inside its section, and the section inside the segment. */
  lemma FieldBounds(g: Geometry, i: nat, c: Channel)
    requires i < g.bufferCount
    ensures HeaderSize(g.word) <= SectionOff(g, i) <= SizeOff(g, i, c)
    ensures PayloadOff(g, i, c) + Cap(g, c) <= SectionOff(g, i) + SectionSize(g) <= TotalSize(g)
  {
    SectionsInOrder(g, i, g.bufferCount);
  }

  // ---- validateGeometry ----

  /** __builtin_add_overflow on a size_t of `word` bytes: the wrapped sum, and whether it wrapped. */
  method AddOverflow(word: nat, a: nat, b: nat) returns (overflow: bool, sum: nat)
    ensures overflow <==> a + b >= Pow256(word)
    ensures !overflow ==> sum == a + b
  {
    sum := Modulo(a + b, Pow256(word));
    overflow := a + b >= Pow256(word);
  }

  /** __builtin_mul_overflow on a size_t of `word` bytes. */
  method MulOverflow(word: nat, a: nat, b: nat) returns (overflow: bool, product: nat)
    ensures overflow <==> Copies(b, a) >= Pow256(word)
    ensures !overflow ==> product == Copies(b, a)
  {
    CopiesIsProduct(b, a);
    var exact := b * a;
    product := Modulo(exact, Pow256(word));
    overflow := exact >= Pow256(word);
  }

  /** The range test, then the chain of wrapping operations with an overflow test at each. It accepts
      exactly the geometries whose mathematical total is representable, and its two results are
      those mathematical sizes. */
  method ValidateGeometry(g: Geometry) returns (ok: bool, sectionSize: nat, totalSize: nat)
    requires IsWord(g.word)
    ensures ok <==> Validates(g)
    ensures ok ==> sectionSize == SectionSize(g) && totalSize == TotalSize(g)
  {
    sectionSize, totalSize := 0, 0;
    if g.bufferCount == 0 || g.bufferCount > MAX_BUFFER_COUNT || g.dataSize == 0 ||
       g.dataSize > MAX_DATA_SIZE || g.metaSize > MAX_META_SIZE || g.extraSize > MAX_EXTRA_SIZE ||
       g.solutionSize > MAX_SOLUTION_SIZE
    {
      return false, 0, 0;
    }
    CopiesLess(0, g.bufferCount, SectionSize(g));
    var overflow;
    overflow, sectionSize := AddOverflow(g.word, g.dataSize, g.metaSize);
    if !overflow {
      overflow, sectionSize := AddOverflow(g.word, sectionSize, g.extraSize);
    }
    if !overflow {
      overflow, sectionSize := AddOverflow(g.word, sectionSize, g.solutionSize);
    }
    if !overflow {
      overflow, sectionSize := AddOverflow(g.word, sectionSize, 4 * g.word);
    }
    if !overflow {
      overflow, totalSize := MulOverflow(g.word, sectionSize, g.bufferCount);
    }
    if !overflow {
      overflow, totalSize := AddOverflow(g.word, totalSize, HeaderSize(g.word));
    }
    ok := !overflow;
  }

  /** With a 64-bit size_t the overflow tests are dead code: the caps alone decide. */
  lemma CapsSufficeOn64Bit(g: Geometry)
    requires g.word == 8
    ensures Validates(g) <==> InRange(g)
  {
    Pow256Values();
    if InRange(g) {
      CopiesBound(g.bufferCount, MAX_BUFFER_COUNT, SectionSize(g), 80_000_000);
      CopiesIsProduct(MAX_BUFFER_COUNT, 80_000_000);
    }
  }

  lemma {:induction false} CopiesBound(n: nat, m: nat, s: nat, t: nat)
    requires n <= m && s <= t
    ensures Copies(n, s) <= Copies(m, t)
    decreases m
  {
    if m == 0 {
    } else {
      CopiesBound(if n == m then n - 1 else n, m - 1, s, t);
    }
  }

  /** With a 32-bit size_t they are not: 64 buffers of the largest frame and the largest meta area
      respect every cap, and the total wraps. */
  lemma CapsDoNotSufficeOn32Bit()
    ensures var g := Geometry(4, MAX_DATA_SIZE, MAX_META_SIZE, 0, 0, MAX_BUFFER_COUNT);
            InRange(g) && !Validates(g)
  {
    Pow256Values();
    CopiesIsProduct(MAX_BUFFER_COUNT, MAX_DATA_SIZE + MAX_META_SIZE + 16);
  }

  // ---- tiling ----

  /** The parts a segment is made of. */
  datatype Region = Header | SizeWord(i: nat, c: Channel) | Payload(i: nat, c: Channel)

  predicate IsRegion(g: Geometry, r: Region) {
    r.Header? || r.i < g.bufferCount
  }

  function Lo(g: Geometry, r: Region): nat {
    match r
    case Header => 0
    case SizeWord(i, c) => SizeOff(g, i, c)
    case Payload(i, c) => PayloadOff(g, i, c)
  }

  function Hi(g: Geometry, r: Region): nat {
    match r
    case Header => HeaderSize(g.word)
    case SizeWord(i, c) => SizeOff(g, i, c) + g.word
    case Payload(i, c) => PayloadOff(g, i, c) + Cap(g, c)
  }

  predicate Holds(g: Geometry, r: Region, p: nat) {
    Lo(g, r) <= p < Hi(g, r)
  }

  function ChannelAt(g: Geometry, q: nat): Channel {
    if q < ChannelOff(g, Meta) then Data
    else if q < ChannelOff(g, Extra) then Meta
    else if q < ChannelOff(g, Solution) then Extra
    else Solution
  }

  /** The section whose block of `s` bytes covers the `p`-th byte after the header. */
  function BlockOf(p: nat, s: nat): (i: nat)
    requires s > 0
    ensures Copies(i, s) <= p < Copies(i, s) + s
  {
    if p < s then 0 else BlockOf(p - s, s) + 1
  }

  /** The region position `p` belongs to. */
  function RegionAt(g: Geometry, p: nat): Region
    requires IsWord(g.word)
  {
    if p < HeaderSize(g.word) then Header
    else
      var i := BlockOf(p - HeaderSize(g.word), SectionSize(g));
      var c := ChannelAt(g, p - SectionOff(g, i));
      if p < PayloadOff(g, i, c) then SizeWord(i, c) else Payload(i, c)
  }

  /** A position behind the header lies in the section that is computed for it. */
  lemma BlockInRange(g: Geometry, p: nat)
    requires IsWord(g.word) && HeaderSize(g.word) <= p < TotalSize(g)
    ensures var i := BlockOf(p - HeaderSize(g.word), SectionSize(g));
            i < g.bufferCount && SectionOff(g, i) <= p < SectionOff(g, i) + SectionSize(g)
  {
    var i := BlockOf(p - HeaderSize(g.word), SectionSize(g));
    if i >= g.bufferCount {
      CopiesBound(g.bufferCount, i, SectionSize(g), SectionSize(g));
      assert false;
    }
  }

  /** The regions a position behind the header can lie in. */
  lemma SectionTiles(g: Geometry, p: nat, r: Region)
    requires IsWord(g.word) && HeaderSize(g.word) <= p < TotalSize(g) && IsRegion(g, r)
    ensures IsRegion(g, RegionAt(g, p)) && Holds(g, RegionAt(g, p), p)
    ensures Holds(g, r, p) <==> r == RegionAt(g, p)
  {
    BlockInRange(g, p);
    var i := BlockOf(p - HeaderSize(g.word), SectionSize(g));
    var c := ChannelAt(g, p - SectionOff(g, i));
    assert RegionAt(g, p) == if p < PayloadOff(g, i, c) then SizeWord(i, c) else Payload(i, c);
    assert PayloadOff(g, i, c) == SizeOff(g, i, c) + g.word;
    FieldsTile(g, i, p, c);
    if !r.Header? {
      assert PayloadOff(g, r.i, r.c) == SizeOff(g, r.i, r.c) + g.word;
      RegionInSection(g, p, i, r.i, r.c);
    }
    hide RegionAt, TotalSize, ChannelAt, SectionOff, BlockOf, SectionSize, Cap, SizeOff, PayloadOff, HeaderSize;
  }

  /** The header and the eight fields of each section tile the segment: every byte lies in one
      region and in no other, and no region leaves the segment. */
  lemma RegionsTile(g: Geometry, p: nat, r: Region)
    requires IsWord(g.word) && p < TotalSize(g) && IsRegion(g, r)
    ensures IsRegion(g, RegionAt(g, p)) && Holds(g, RegionAt(g, p), p)
    ensures Holds(g, r, p) <==> r == RegionAt(g, p)
    ensures Hi(g, r) <= TotalSize(g)
  {
    if !r.Header? {
      FieldBounds(g, r.i, r.c);
    }
    if p >= HeaderSize(g.word) {
      hide RegionAt, TotalSize;
      SectionTiles(g, p, r);
    } else {
      hide TotalSize, SectionSize, Cap;
    }
  }

  /** A position of section `i` lies in a channel of section `j` only if the sections are the same
      and the channel is its own. */
  lemma RegionInSection(g: Geometry, p: nat, i: nat, j: nat, c: Channel)
    requires j < g.bufferCount
    requires SectionOff(g, i) <= p < SectionOff(g, i) + SectionSize(g)
    ensures SizeOff(g, j, c) <= p < PayloadOff(g, j, c) + Cap(g, c) <==>
            i == j && c == ChannelAt(g, p - SectionOff(g, i))
  {
    FieldBounds(g, j, c);
    if j < i {
      SectionsInOrder(g, j, i);
    } else if j > i {
      SectionsInOrder(g, i, j);
    } else {
      FieldsTile(g, i, p, c);
    }
  }

  /** Within section `i`, position `p` lies in channel `c` exactly when `ChannelAt` says so. */
  lemma FieldsTile(g: Geometry, i: nat, p: nat, c: Channel)
    requires SectionOff(g, i) <= p < SectionOff(g, i) + SectionSize(g)
    ensures SizeOff(g, i, c) <= p < PayloadOff(g, i, c) + Cap(g, c) <==>
            c == ChannelAt(g, p - SectionOff(g, i))
  {
  }
}
