/** The library object a process maps a segment with. `segment` is the mapping: an array other
    objects may hold too, as peers do. Pointers into it are offsets. `Valid` reads the object's own
    fields and never the bytes of the segment, so no store by a peer can break it: every bound is
    checked against the private copies taken when the segment was mapped. */
module CameraSharedMemory {
  import opened Wrappers
  import opened Bytes
  import opened Modular
  import opened Layout
  import opened Segment
  import RingHistory

  /** The eight pointers of one slot. */
  datatype ShmBuffer = ShmBuffer(pDataSize: nat, pData: nat, pMetaSize: nat, pMeta: nat,
                                 pExtraSize: nat, pExtra: nat, pSolutionSize: nat, pSolution: nat)

  function PointersOf(g: Geometry, i: nat): ShmBuffer {
    ShmBuffer(SizeOff(g, i, Data), PayloadOff(g, i, Data), SizeOff(g, i, Meta), PayloadOff(g, i, Meta),
              SizeOff(g, i, Extra), PayloadOff(g, i, Extra),
              SizeOff(g, i, Solution), PayloadOff(g, i, Solution))
  }

  /** The answers of shm_open, ftruncate and mmap to one create. */
  datatype CreateAnswers = CreateAnswers(shmOpen: Option<nat>, ftruncate: bool, mmap: bool)

  /** The pointers and sizes a successful readData hands out. */
  datatype ReadView = ReadView(pData: nat, dataSize: nat, pMeta: nat, metaSize: nat,
                               pExtra: nat, extraSize: nat, pSolution: nat, solutionSize: nat)

  function ViewOf(g: Geometry, r: ReadResult): Option<ReadView> {
    match r
    case NoFrame => None
    case Frame(slot, length) =>
      Some(ReadView(PayloadOff(g, slot, Data), length, PayloadOff(g, slot, Meta), g.metaSize,
                    PayloadOff(g, slot, Extra), g.extraSize, PayloadOff(g, slot, Solution), g.solutionSize))
  }

  function Pointer(v: ReadView, c: Channel): nat {
    match c
    case Data => v.pData
    case Meta => v.pMeta
    case Extra => v.pExtra
    case Solution => v.pSolution
  }

  function Size(v: ReadView, c: Channel): nat {
    match c
    case Data => v.dataSize
    case Meta => v.metaSize
    case Extra => v.extraSize
    case Solution => v.solutionSize
  }

  /** What a reader finds behind the pointers it is given after the accepted writes `acc`: nothing before the
      first; then, through each pointer and within its size, what the last of them stored in that channel, of
      the data exactly as many bytes as the size says. No pointer leads out of the segment. */
  ghost predicate Shows(seg: seq<byte>, view: Option<ReadView>, acc: seq<Payloads>) {
    && (view.None? <==> acc == [])
    && (view.Some? ==> ShowsAll(seg, view.value, acc[|acc| - 1]))
  }

  ghost predicate ShowsAll(seg: seq<byte>, v: ReadView, w: Payloads) {
    forall c: Channel :: ShowsIn(seg, v, w.At(c), c)
  }

  predicate ShowsIn(seg: seq<byte>, v: ReadView, b: Option<seq<byte>>, c: Channel) {
    var at, size := Pointer(v, c), Size(v, c);
    && at + size <= |seg|
    && (b.Some? ==> |b.value| <= size && seg[at..at + |b.value|] == b.value && (c.Data? ==> size == |b.value|))
  }

  /** What stands behind the pointers of a view is the slot it is a view of. */
  lemma ViewPointsIntoSlot(g: Geometry, seg: seq<byte>, c: Channel)
    requires Fits(g, seg) && Read(g, seg).Frame?
    ensures ViewOf(g, Read(g, seg)).Some?
    ensures var v, slot := ViewOf(g, Read(g, seg)).value, Read(g, seg).slot;
            var at, size := Pointer(v, c), Size(v, c);
            && size <= Cap(g, c) && (if c.Data? then size == Read(g, seg).length else size == Cap(g, c))
            && SectionOff(g, slot) <= at && at + size <= SectionOff(g, slot) + SectionSize(g) <= |seg|
            && forall len: nat :: len <= size ==> seg[at..at + len] == PayloadAt(g, seg, slot, c, len)
  {
    FieldBounds(g, Read(g, seg).slot, c);
  }

  /** A channel that holds exactly `b`, seen through the view of its slot. */
  lemma ChannelShown(g: Geometry, seg: seq<byte>, b: Option<seq<byte>>, c: Channel)
    requires Fits(g, seg) && Read(g, seg).Frame?
    requires b.Some? ==> RingHistory.Contains(g, seg, Read(g, seg).slot, c, b)
    ensures ViewOf(g, Read(g, seg)).Some? && ShowsIn(seg, ViewOf(g, Read(g, seg)).value, b, c)
  {
    ViewPointsIntoSlot(g, seg, c);
    assert Cap(g, Data) == g.dataSize;
    hide Fits, ViewOf, PayloadAt, Pointer, Size, Cap, SizeAt, SectionOff, SectionSize, Index;
  }

  lemma LatestOfAll(n: nat, acc: seq<Payloads>, c: Channel)
    requires n > 0 && acc != [] && acc[|acc| - 1].At(c).Some?
    ensures RingHistory.Latest(n, acc, Modulo(|acc| - 1, n), c) == acc[|acc| - 1].At(c)
  {
  }

  lemma ViewShowsLast(g: Geometry, was: seq<byte>, ws: seq<Payloads>)
    requires RingHistory.Created(g, was)
    ensures var seg := RingHistory.Run(g, was, ws);
            Shows(seg, ViewOf(g, Read(g, seg)), RingHistory.Accepted(g, ws))
  {
    var seg, acc := RingHistory.Run(g, was, ws), RingHistory.Accepted(g, ws);
    RingHistory.RingRefinesHistory(g, was, ws);
    RingHistory.ReadReflects(g, seg, acc);
    if acc != [] {
      var slot, last := Modulo(|acc| - 1, g.bufferCount), acc[|acc| - 1];
      hide RingHistory.Run, RingHistory.Accepted, ViewOf, RingHistory.Contains, RingHistory.Latest, ShowsIn;
      forall c: Channel ensures ShowsIn(seg, ViewOf(g, Read(g, seg)).value, last.At(c), c) {
        assert RingHistory.Contains(g, seg, slot, c, RingHistory.Latest(g.bufferCount, acc, slot, c));
        if last.At(c).Some? {
          LatestOfAll(g.bufferCount, acc, c);
        }
        ChannelShown(g, seg, last.At(c), c);
      }
    }
  }

  /** Whatever writes led to the segment. */
  lemma AllViewsShowLast(g: Geometry, seg: seq<byte>)
    requires Fits(g, seg)
    ensures forall was, ws :: RingHistory.Created(g, was) && seg == RingHistory.Run(g, was, ws) ==>
              Shows(seg, ViewOf(g, Read(g, seg)), RingHistory.Accepted(g, ws))
  {
    forall was, ws | RingHistory.Created(g, was) && seg == RingHistory.Run(g, was, ws)
      ensures Shows(seg, ViewOf(g, Read(g, seg)), RingHistory.Accepted(g, ws))
    {
      ViewShowsLast(g, was, ws);
    }
  }

  lemma SectionSlice(g: Geometry, s: seq<byte>, t: seq<byte>, i: nat)
    requires Fits(g, s) && |t| == |s| && i < g.bufferCount && SectionAt(g, s, i) == SectionAt(g, t, i)
    ensures SectionOff(g, i) + SectionSize(g) <= |s|
    ensures var lo, hi := SectionOff(g, i), SectionOff(g, i) + SectionSize(g); s[lo..hi] == t[lo..hi]
  {
    FieldBounds(g, i, Data);
  }

  /** What stands behind the pointers of a view stays there while fewer than n further writes are accepted. */
  lemma ViewStaysGood(g: Geometry, seg: seq<byte>, ws: seq<Payloads>, c: Channel)
    requires Fits(g, seg) && Read(g, seg).Frame? && |RingHistory.Accepted(g, ws)| < g.bufferCount
    ensures var t := RingHistory.Run(g, seg, ws); var v := ViewOf(g, Read(g, seg));
            && v.Some? && Pointer(v.value, c) + Size(v.value, c) <= |seg|
            && var at, end := Pointer(v.value, c), Pointer(v.value, c) + Size(v.value, c);
               t[at..end] == seg[at..end]
  {
    hide ViewOf, RingHistory.Run, RingHistory.Accepted, Fits, Read, Pointer, Size, SectionAt, SectionOff, SectionSize;
    var t, slot := RingHistory.Run(g, seg, ws), Read(g, seg).slot;
    RingHistory.ZeroCopyStable(g, seg, ws);
    ViewPointsIntoSlot(g, seg, c);
    var v := ViewOf(g, Read(g, seg)).value;
    var lo, hi := SectionOff(g, slot), SectionOff(g, slot) + SectionSize(g);
    SectionSlice(g, seg, t, slot);
    SamePart(seg, t, lo, hi, Pointer(v, c), Pointer(v, c) + Size(v, c));
  }

  /** memcpy into the mapping. */
  method CopyIn(mem: array<byte>, off: nat, b: seq<byte>)
    requires off + |b| <= mem.Length
    modifies mem
    ensures mem[..] == Splice(old(mem[..]), off, b)
  {
    ghost var was := mem[..];
    for k := 0 to |b|
      invariant forall p :: 0 <= p < mem.Length ==>
                  mem[p] == if off <= p < off + k then b[p - off] else was[p]
    {
      mem[off + k] := b[k];
    }
    assert mem[..] == Splice(was, off, b);
  }

  /** A store of a size_t. */
  method StoreWord(mem: array<byte>, off: nat, word: nat, v: nat)
    requires off + word <= mem.Length
    modifies mem
    ensures mem[..] == Splice(old(mem[..]), off, Encode(v, word))
  {
    CopyIn(mem, off, Encode(v, word));
  }

  /** What the process holds of the system: open descriptors, mappings, and names it created. */
  datatype Resources = Resources(fds: set<int>, mappings: set<array<byte>>, names: set<string>)

  const NOTHING: Resources := Resources({}, {}, {})

  lemma FirstAcquired<T>(x: T)
    ensures {} + {x} == {x} && {x} - {x} == {}
  {
  }

  class CameraSharedMemory {
    const word: nat
    var isCreated: bool
    var shmFd: int
    var shmName: string
    var segment: array?<byte>
    var shmSize: nat
    var shmBuffers: seq<ShmBuffer>
    var bufferCount: nat
    var dataSize: nat
    var metaSize: nat
    var extraSize: nat
    var solutionSize: nat

    /** What system calls made through this object have acquired and not released. */
    ghost var held: Resources

    /** The private copies of the geometry. */
    function G(): Geometry
      reads this
    {
      Geometry(word, dataSize, metaSize, extraSize, solutionSize, bufferCount)
    }

    /** The private state of a mapped object. */
    ghost predicate MappedWith(g: Geometry)
      reads this
    {
      && segment != null
      && G() == g && Validates(g) && TotalSize(g) <= segment.Length == shmSize
      && |shmBuffers| == g.bufferCount
      && forall i :: 0 <= i < g.bufferCount ==> shmBuffers[i] == PointersOf(g, i)
    }

    ghost predicate Valid()
      reads this
    {
      && IsWord(word)
      && (segment == null ==> shmBuffers == [])
      && (segment != null ==> MappedWith(G()))
    }

    /** The state of a new object, and of one that was reset. */
    ghost predicate IsReset()
      reads this
    {
      && segment == null && shmBuffers == [] && shmSize == 0 && shmFd == -1 && shmName == "" && !isCreated
      && bufferCount == 0 && dataSize == 0 && metaSize == 0 && extraSize == 0 && solutionSize == 0
    }

    /** What is left of `r` after the three guarded calls of a reset: munmap, close and shm_unlink. */
    ghost function Released(r: Resources): Resources
      reads this
    {
      Resources(if shmFd == -1 then r.fds else r.fds - {shmFd},
                if segment == null then r.mappings else r.mappings - {segment},
                if isCreated && shmName != "" then r.names - {shmName} else r.names)
    }

    /** What the fields name. */
    ghost function Own(): Resources
      reads this
    {
      Resources(if shmFd == -1 then {} else {shmFd}, if segment == null then {} else {segment},
                if isCreated && shmName != "" then {shmName} else {})
    }

    function Mapping(): set<object>
      reads this
    {
      if segment == null then {} else {segment}
    }

    constructor (word: nat)
      requires IsWord(word)
      ensures this.word == word && Valid() && IsReset() && held == NOTHING
    {
      this.word := word;
      held := NOTHING;
      isCreated, shmFd, shmName, segment, shmSize, shmBuffers := false, -1, "", null, 0, [];
      bufferCount, dataSize, metaSize, extraSize, solutionSize := 0, 0, 0, 0, 0;
    }

    /** The three guarded calls of a reset: munmap, close and shm_unlink. */
    method Release()
      modifies this`held
      ensures held == Released(old(held))
    {
      if segment != null {
        held := held.(mappings := held.mappings - {segment});
      }
      if shmFd != -1 {
        held := held.(fds := held.fds - {shmFd});
      }
      if isCreated && shmName != "" {
        held := held.(names := held.names - {shmName});
      }
    }

    method ResetLocked()
      modifies this
      ensures IsReset() && held == old(Released(held))
    {
      Release();
      shmBuffers := [];
      KeepGeometry(Geometry(word, 0, 0, 0, 0, 0));
      segment := null;
      shmSize := 0;
      shmFd := -1;
      shmName := "";
      isCreated := false;
    }

    /** Lay the slot pointers over the mapping, from the private copies. */
    method InitBuffers()
      requires segment != null && Validates(G()) && TotalSize(G()) <= segment.Length == shmSize
      modifies this`shmBuffers
      ensures MappedWith(G())
    {
      var headerSize := HeaderSize(word);
      var dataSectionSize := dataSize + metaSize + extraSize + solutionSize + 4 * word;
      shmBuffers := [];
      for i := 0 to bufferCount
        invariant |shmBuffers| == i
        invariant forall k :: 0 <= k < i ==> shmBuffers[k] == PointersOf(G(), k)
      {
        CopiesIsProduct(i, dataSectionSize);
        var base := headerSize + i * dataSectionSize;
        var pData := base + word;
        var pMetaSize := pData + dataSize;
        var pMeta := pMetaSize + word;
        var pExtraSize := pMeta + metaSize;
        var pExtra := pExtraSize + word;
        var pSolutionSize := pExtra + extraSize;
        shmBuffers := shmBuffers +
          [ShmBuffer(base, pData, pMetaSize, pMeta, pExtraSize, pExtra, pSolutionSize, pSolutionSize + word)];
      }
    }

    /** create: a fresh segment, laid out as `CreateSegment` says, or -1. From the reset state a failure
        leaves nothing open, mapped or named, and all that a success acquires is named by the fields. */
    method Create(name: string, g: Geometry, os: CreateAnswers) returns (fd: int)
      requires Valid() && g.word == word
      modifies this
      ensures Valid()
      ensures fd == -1 <==> !(Validates(g) && os.shmOpen.Some? && os.ftruncate && os.mmap)
      ensures fd != -1 ==> MappedWith(g) && isCreated && shmName == name && fd == shmFd == os.shmOpen.value
      ensures fd != -1 ==> fresh(segment) && segment.Length == TotalSize(g) &&
                           segment[..] == CreateSegment(g, Zeros(TotalSize(g)))
      ensures fd == -1 && old(IsReset()) ==> IsReset()
      ensures old(IsReset()) && old(held) == NOTHING && (os.shmOpen.Some? ==> name != "") ==> held == Own()
    {
      var ok, _, totalSize := ValidateGeometry(g);
      if !ok {
        return -1;
      }
      if os.shmOpen.None? {
        shmFd := -1;
        return -1;
      }
      fd := MapNew(name, g, os.shmOpen.value, totalSize, os);
    }

    /** shm_open succeeded: the descriptor and the name are noted before anything can fail. */
    method RecordName(name: string, openFd: nat, totalSize: nat)
      modifies this`held, this`shmFd, this`isCreated, this`shmName, this`shmSize
      ensures held == Resources(old(held.fds) + {openFd}, old(held.mappings), old(held.names) + {name})
      ensures shmFd == openFd && isCreated && shmName == name && shmSize == totalSize
    {
      held := held.(fds := held.fds + {openFd}, names := held.names + {name});
      shmFd := openFd;
      isCreated := true;
      shmName := name;
      shmSize := totalSize;
    }

    /** The private copies of a geometry. */
    method KeepGeometry(g: Geometry)
      requires g.word == word
      modifies this`bufferCount, this`dataSize, this`metaSize, this`extraSize, this`solutionSize
      ensures G() == g
    {
      bufferCount := g.bufferCount;
      dataSize := g.dataSize;
      metaSize := g.metaSize;
      extraSize := g.extraSize;
      solutionSize := g.solutionSize;
    }

    /** create from the open descriptor on. */
    method MapNew(name: string, g: Geometry, openFd: nat, totalSize: nat, os: CreateAnswers) returns (fd: int)
      requires g.word == word && Validates(g) && totalSize == TotalSize(g)
      modifies this
      ensures os.ftruncate && os.mmap ==> MappedWith(g) && isCreated && shmName == name && fd == shmFd == openFd
      ensures os.ftruncate && os.mmap ==> fresh(segment) && segment.Length == TotalSize(g) &&
                                          segment[..] == CreateSegment(g, Zeros(TotalSize(g)))
      ensures !(os.ftruncate && os.mmap) ==> fd == -1 && IsReset()
      ensures old(segment) == null && old(held) == NOTHING && name != "" ==> held == Own()
    {
      FirstAcquired(openFd);
      FirstAcquired(name);
      RecordName(name, openFd, totalSize);
      if !os.ftruncate {
        ResetLocked();
        return -1;
      }
      if !os.mmap {
        ResetLocked();
        return -1;
      }
      var mem := MapFresh(totalSize);
      FirstAcquired(mem);
      held := held.(mappings := held.mappings + {mem});
      LayOut(mem, g);
      return shmFd;
    }

    /** The pages a successful ftruncate and mmap give. */
    static method MapFresh(size: nat) returns (mem: array<byte>)
      ensures fresh(mem) && mem[..] == Zeros(size)
    {
      mem := new byte[size](_ => 0);
      assert mem[..] == Zeros(size);
    }

    /** create once the memory is mapped: header, private copies, slot pointers, empty slots. */
    method LayOut(mem: array<byte>, g: Geometry)
      requires g.word == word && Fits(g, mem[..]) && shmSize == mem.Length
      modifies this`segment, this`bufferCount, this`dataSize, this`metaSize, this`extraSize,
        this`solutionSize, this`shmBuffers, mem
      ensures MappedWith(g) && segment == mem
      ensures mem[..] == CreateSegment(g, old(mem[..]))
    {
      segment := mem;
      StoreHeader(mem, g);
      KeepGeometry(g);
      InitBuffers();
      ClearSizes(mem, g);
    }

    /** The header stores of create. */
    static method StoreHeader(mem: array<byte>, g: Geometry)
      requires Fits(g, mem[..])
      modifies mem
      ensures mem[..] == SetHeader(g, old(mem[..]))
    {
      var w := g.word;
      HeaderWordInside(w, 0);
      HeaderWordInside(w, 1);
      HeaderWordInside(w, 2);
      HeaderWordInside(w, 3);
      HeaderWordInside(w, 4);
      CopyIn(mem, 0, EncodeInt(-1));
      StoreWord(mem, HeaderOff(w, 0), w, g.bufferCount);
      StoreWord(mem, HeaderOff(w, 1), w, g.dataSize);
      StoreWord(mem, HeaderOff(w, 2), w, g.metaSize);
      StoreWord(mem, HeaderOff(w, 3), w, g.extraSize);
      StoreWord(mem, HeaderOff(w, 4), w, g.solutionSize);
    }

    /** The loop of create that empties every slot. */
    method ClearSizes(mem: array<byte>, g: Geometry)
      requires MappedWith(g) && segment == mem
      modifies mem
      ensures mem[..] == ClearSlots(g, old(mem[..]), g.bufferCount)
    {
      ghost var was := mem[..];
      for i := 0 to |shmBuffers|
        invariant mem[..] == ClearSlots(g, was, i)
      {
        ClearBuffer(mem, g, i, shmBuffers[i]);
      }
    }

    static method ClearBuffer(mem: array<byte>, g: Geometry, i: nat, buffer: ShmBuffer)
      requires Fits(g, mem[..]) && i < g.bufferCount && buffer == PointersOf(g, i)
      modifies mem
      ensures mem[..] == ClearSlot(g, old(mem[..]), i, CHANNELS)
    {
      ghost var s := mem[..];
      assert CHANNELS[..0] == [] && CHANNELS[..4] == CHANNELS;
      ClearOne(mem, g, i, 0, buffer.pDataSize, s);
      ClearOne(mem, g, i, 1, buffer.pMetaSize, s);
      ClearOne(mem, g, i, 2, buffer.pExtraSize, s);
      ClearOne(mem, g, i, 3, buffer.pSolutionSize, s);
    }

    /** The `k`-th store of that loop's body. */
    static method ClearOne(mem: array<byte>, g: Geometry, i: nat, k: nat, p: nat, ghost s: seq<byte>)
      requires Fits(g, mem[..]) && |s| == mem.Length && i < g.bufferCount
      requires k < 4 && p == SizeOff(g, i, CHANNELS[k])
      requires mem[..] == ClearSlot(g, s, i, CHANNELS[..k])
      modifies mem
      ensures mem[..] == ClearSlot(g, s, i, CHANNELS[..k + 1])
    {
      FieldBounds(g, i, CHANNELS[k]);
      assert CHANNELS[..k + 1][..k] == CHANNELS[..k];
      StoreWord(mem, p, g.word, 0);
    }

    /** What a peer's segment must show for open to accept it. */
    ghost predicate Acceptable(stat: bool, mem: array<byte>, mmap: bool)
      requires IsWord(word)
      reads mem
    {
      && stat && mmap && HeaderSize(word) <= mem.Length
      && Fits(DecodeHeader(word, mem[..]), mem[..])
    }

    /** Map the segment and validate the header the peer left in it. */
    method ReadHeader(stat: bool, mem: array<byte>, mmap: bool) returns (ok: bool, header: Geometry)
      requires IsWord(word)
      ensures ok <==> Acceptable(stat, mem, mmap)
      ensures ok ==> header == DecodeHeader(word, mem[..])
    {
      header := Geometry(word, 0, 0, 0, 0, 0);
      if !stat {
        return false, header;
      }
      if mem.Length < HeaderSize(word) {
        return false, header;
      }
      if !mmap {
        return false, header;
      }
      header := DecodeHeader(word, mem[..]);
      var accepted, _, totalSize := ValidateGeometry(header);
      return accepted && totalSize <= mem.Length, header;
    }

    /** Keep private copies of a valid header. */
    method InitShmem(fd: int, stat: bool, mem: array<byte>, mmap: bool) returns (ok: bool)
      requires IsWord(word)
      modifies this`segment, this`shmSize, this`shmFd, this`bufferCount, this`dataSize, this`metaSize,
        this`extraSize, this`solutionSize, this`held
      ensures ok <==> Acceptable(stat, mem, mmap)
      ensures ok ==> segment == mem && shmSize == mem.Length && shmFd == fd
      ensures ok ==> G() == DecodeHeader(word, mem[..])
      ensures ok ==> held == Resources(old(held.fds) + {fd}, old(held.mappings) + {mem}, old(held.names))
      ensures !ok ==> unchanged(this)
    {
      var accepted, header := ReadHeader(stat, mem, mmap);
      if !accepted {
        return false;
      }
      held := held.(fds := held.fds + {fd}, mappings := held.mappings + {mem});
      segment := mem;
      shmSize := mem.Length;
      shmFd := fd;
      KeepGeometry(header);
      return true;
    }

    /** open on a descriptor: adopt the announced geometry exactly when it is valid and mapped. From the
        reset state all that is then held, the descriptor included, is named by the fields. */
    method Open(fd: int, stat: bool, mem: array<byte>, mmap: bool) returns (ok: bool)
      requires Valid()
      modifies this
      ensures Valid()
      ensures ok <==> Acceptable(stat, mem, mmap)
      ensures ok ==> segment == mem && shmFd == fd && MappedWith(DecodeHeader(word, mem[..]))
      ensures ok && old(IsReset()) && old(held) == NOTHING && fd != -1 ==> held == Own()
      ensures !ok ==> unchanged(this)
    {
      FirstAcquired(fd);
      FirstAcquired(mem);
      ok := InitShmem(fd, stat, mem, mmap);
      if ok {
        InitBuffers();
      }
    }

    /** close: an object that names all it holds then holds nothing. */
    method Close()
      modifies this
      ensures Valid() == IsWord(word) && IsReset()
      ensures old(held == Own()) ==> held == NOTHING
    {
      ResetLocked();
    }

    method IncrementWriteIndex() returns (ok: bool)
      requires Valid()
      modifies Mapping()
      ensures ok <==> segment != null
      ensures ok ==> segment[..] == Increment(G(), old(segment[..]))
    {
      if segment == null || |shmBuffers| == 0 {
        return false;
      }
      var mem := segment;
      var index: int32 := DecodeInt(mem[0..4]);
      assert mem[..][0..4] == mem[0..4];
      if index < 0 || index >= |shmBuffers| - 1 {
        index := 0;
      } else {
        index := index + 1;
      }
      CopyIn(mem, 0, EncodeInt(index));
      return true;
    }

    method WriteHeader(index: int, frameSize: nat) returns (ok: bool)
      requires Valid()
      modifies Mapping()
      ensures ok <==> segment != null && HeaderAccepts(G(), index, frameSize)
      ensures segment != null ==> segment[..] == Segment.WriteHeader(G(), old(segment[..]), index, frameSize)
    {
      if segment == null {
        return false;
      }
      if index < 0 || index >= |shmBuffers| {
        return false;
      }
      if frameSize > dataSize {
        return false;
      }
      var mem := segment;
      FieldBounds(G(), index, Data);
      CopyIn(mem, 0, EncodeInt(index));
      StoreWord(mem, shmBuffers[index].pDataSize, word, frameSize);
      return true;
    }

    /** The four pointer lists handed to the service. */
    method GetBufferList() returns (ok: bool, dataList: seq<nat>, metaList: seq<nat>,
                                    extraList: seq<nat>, solutionList: seq<nat>)
      requires Valid()
      ensures ok <==> segment != null
      ensures ok ==> |dataList| == |metaList| == |extraList| == |solutionList| == bufferCount
      ensures ok ==> forall i :: 0 <= i < bufferCount ==>
                       && dataList[i] == PayloadOff(G(), i, Data) && metaList[i] == PayloadOff(G(), i, Meta)
                       && extraList[i] == PayloadOff(G(), i, Extra) && solutionList[i] == PayloadOff(G(), i, Solution)
    {
      dataList, metaList, extraList, solutionList := [], [], [], [];
      if segment == null {
        return false, [], [], [], [];
      }
      for i := 0 to |shmBuffers|
        invariant |dataList| == |metaList| == |extraList| == |solutionList| == i
        invariant forall k :: 0 <= k < i ==>
                    && dataList[k] == PayloadOff(G(), k, Data) && metaList[k] == PayloadOff(G(), k, Meta)
                    && extraList[k] == PayloadOff(G(), k, Extra) && solutionList[k] == PayloadOff(G(), k, Solution)
      {
        dataList := dataList + [shmBuffers[i].pData];
        metaList := metaList + [shmBuffers[i].pMeta];
        extraList := extraList + [shmBuffers[i].pExtra];
        solutionList := solutionList + [shmBuffers[i].pSolution];
      }
      ok := true;
    }

    method ReadData() returns (view: Option<ReadView>)
      requires Valid()
      ensures segment == null ==> view == None
      ensures segment != null ==> view == ViewOf(G(), Read(G(), segment[..]))
      ensures segment != null ==> forall was, ws ::
                RingHistory.Created(G(), was) && segment[..] == RingHistory.Run(G(), was, ws) ==>
                  Shows(segment[..], view, RingHistory.Accepted(G(), ws))
    {
      if segment != null {
        AllViewsShowLast(G(), segment[..]);
      }
      if segment == null || |shmBuffers| == 0 {
        return None;
      }
      var mem := segment;
      assert mem[..][0..4] == mem[0..4];
      var writeIndex := DecodeInt(mem[0..4]);
      if writeIndex == -1 {
        return None;
      }
      var count := |shmBuffers|;
      if writeIndex < 0 || writeIndex >= count {
        return None;
      }
      StepsAsRemainders(writeIndex, count);
      var readIndex := (writeIndex + count - 1) % count;
      var buffer := shmBuffers[readIndex];
      FieldBounds(G(), readIndex, Data);
      var lo, hi := buffer.pDataSize, buffer.pDataSize + word;
      assert mem[..][lo..hi] == mem[lo..hi];
      var size := Decode(mem[lo..hi]);
      view := Some(ReadView(buffer.pData, if size <= dataSize then size else dataSize,
                            buffer.pMeta, metaSize, buffer.pExtra, extraSize, buffer.pSolution, solutionSize));
    }

    method Write(w: Payloads) returns (ok: bool)
      requires Valid()
      modifies Mapping()
      ensures ok <==> segment != null && Accepts(G(), w)
      ensures segment != null ==> segment[..] == Segment.Write(G(), old(segment[..]), w)
    {
      if segment == null || |shmBuffers| == 0 {
        return false;
      }
      if (w.data.Some? && |w.data.value| > dataSize) || (w.meta.Some? && |w.meta.value| > metaSize) ||
         (w.extra.Some? && |w.extra.value| > extraSize) ||
         (w.solution.Some? && |w.solution.value| > solutionSize)
      {
        return false;
      }
      var mem := segment;
      ghost var g, was := G(), mem[..];
      assert was[0..4] == mem[0..4];
      var writeIndex: int := DecodeInt(mem[0..4]);
      if writeIndex < 0 || writeIndex >= |shmBuffers| {
        writeIndex := 0;
      }
      assert writeIndex == WriteSlot(g, was);
      PutSlot(mem, writeIndex, w);
      StepsAsRemainders(writeIndex, |shmBuffers|);
      CopyIn(mem, 0, EncodeInt((writeIndex + 1) % |shmBuffers|));
      return true;
    }

    /** The four blocks of write that fill a slot. */
    method PutSlot(mem: array<byte>, i: nat, w: Payloads)
      requires Valid() && segment == mem && i < bufferCount && Accepts(G(), w)
      modifies mem
      ensures mem[..] == PutAll(G(), old(mem[..]), i, w)
    {
      var buffer := shmBuffers[i];
      PutOne(mem, G(), i, Data, buffer.pDataSize, buffer.pData, w.data);
      PutOne(mem, G(), i, Meta, buffer.pMetaSize, buffer.pMeta, w.meta);
      PutOne(mem, G(), i, Extra, buffer.pExtraSize, buffer.pExtra, w.extra);
      PutOne(mem, G(), i, Solution, buffer.pSolutionSize, buffer.pSolution, w.solution);
    }

    /** One `if (p)` block of write, through the slot's pointers. */
    method PutOne(mem: array<byte>, ghost g: Geometry, ghost i: nat, ghost c: Channel,
                  pSize: nat, pPayload: nat, b: Option<seq<byte>>)
      requires Fits(g, mem[..]) && i < g.bufferCount && g.word == word
      requires pSize == SizeOff(g, i, c) && pPayload == PayloadOff(g, i, c)
      requires b.Some? ==> |b.value| <= Cap(g, c)
      modifies mem
      ensures mem[..] == Put(g, old(mem[..]), i, c, b)
    {
      if b.Some? {
        FieldBounds(g, i, c);
        StoreWord(mem, pSize, word, |b.value|);
        CopyIn(mem, pPayload, b.value);
      }
    }

    method GetWriteIndex() returns (index: int)
      requires Valid()
      ensures index == if segment == null then -1 else Index(segment[..])
    {
      if segment == null {
        return -1;
      }
      assert segment[..][0..4] == segment[0..4];
      index := DecodeInt(segment[0..4]);
    }
  }

  /** A freshly truncated segment. */
  function Zeros(n: nat): (s: seq<byte>)
    ensures |s| == n
  {
    seq(n, _ => 0)
  }
}
