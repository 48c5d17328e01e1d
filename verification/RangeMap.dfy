/** Mapping the memory of a range: its lengths in a size_t, and what the system answers. */
module RangeMap {
  import opened Bits
  import opened AlignedMmap
  import opened Layout
  import opened Pool

  /** What the system answers while a range is created: the mapping, whether each trimming
      munmap fails (which aborts), and whether a later step fails (memfd, remapping,
      madvise, the bitmap or the init callback). */
  datatype System = System(result: Mmap, firstUnmapFails: bool, secondUnmapFails: bool, setupFails: bool)

  const HEADER_PAGES := 2

  // The bytes of a range and of its header, and these lengths in a size_t.
  function HeaderLen(c: Config): nat { HEADER_PAGES * Pow2(c.pageOrder) }
  function RangeLen(c: Config): nat { Blocks(c) * Stride(c) }
  function HeaderWord(c: Config): nat { HeaderLen(c) % WORD }
  function RangeWord(c: Config): nat { RangeLen(c) % WORD }

  // The bytes that are mapped for good, and those asked of mmap.
  function KeepLen(c: Config): nat { Keep(RangeWord(c), HeaderWord(c)) }
  function AskedLen(c: Config): nat { Asked(Pow2(c.pageOrder), RangeWord(c), Stride(c), HeaderWord(c)) }

  /** The condition on a configuration for its ranges to be mapped in full. */
  predicate RangeFits(c: Config) { HeaderLen(c) + RangeLen(c) + Stride(c) - Pow2(c.pageOrder) < WORD }

  // The aligned mapping fails its assertion, or calls mmap; a length that wraps to 0 is refused.
  predicate RangeAsserts(c: Config) {
    RangeWord(c) != 0 && Wraps(Pow2(c.pageOrder), RangeWord(c), Stride(c), HeaderWord(c))
  }

  predicate RangeAsks(c: Config) {
    RangeWord(c) != 0 && !Wraps(Pow2(c.pageOrder), RangeWord(c), Stride(c), HeaderWord(c))
  }

  /** A mapping is page-aligned; one of the size asked for is inside the address space, and apart
      from the ranges of the pool. */
  ghost predicate MappedApart(c: Config, s: Pool, sys: System) {
    sys.result.MappedAt? ==> Aligned(sys.result.ptr, c.pageOrder) && (RangeAsks(c) ==> AskedApart(c, s, sys.result.ptr))
  }

  ghost predicate AskedApart(c: Config, s: Pool, ptr: nat) {
    && ptr + AskedLen(c) <= WORD
    && (forall i :: 0 <= i < |s.ranges| ==> ptr + AskedLen(c) <= s.ranges[i] || s.ranges[i] + RangeLen(c) <= ptr)
    && (forall b :: b in s.headers ==> b < ptr || ptr + AskedLen(c) <= b)
  }

  // A munmap that trims the mapping of a new range fails.
  predicate RangeTrimFails(c: Config, sys: System) {
    && RangeAsks(c) && sys.result.MappedAt?
    && TrimFails(Pow2(c.pageOrder), Stride(c), (sys.result.ptr + HeaderWord(c)) % WORD,
                 sys.firstUnmapFails, sys.secondUnmapFails)
  }

  // Mapping a range aborts, maps less than the range, or fails.
  predicate MapDies(c: Config, sys: System) { RangeAsserts(c) || RangeTrimFails(c, sys) }

  predicate MapShort(c: Config, sys: System) {
    RangeAsks(c) && sys.result.MappedAt? && !RangeTrimFails(c, sys) && !RangeFits(c)
  }

  predicate MapFails(c: Config, sys: System) {
    && !MapDies(c, sys) && !MapShort(c, sys)
    && (RangeWord(c) == 0 || sys.result.MapFailed? || sys.setupFails)
  }

  // malloc finds neither a freed nor an unused item.
  ghost predicate NeedsRange(c: Config, s: Pool)
    requires WellFormed(c)
  {
    s.free == [] && Full(c, s)
  }

  // A range cannot be added, the attempt aborts, or the new range is not mapped in full.
  predicate RangeFails(c: Config, s: Pool, sys: System) { LimitReached(c, s) || MapFails(c, sys) }
  predicate RangeAborts(c: Config, s: Pool, sys: System) { !LimitReached(c, s) && MapDies(c, sys) }
  predicate RangeShort(c: Config, s: Pool, sys: System) { !LimitReached(c, s) && MapShort(c, sys) }

  lemma StrideIsPow2(c: Config)
    requires WellFormed(c)
    ensures Stride(c) < WORD && IsPow2(Stride(c)) && Pow2(c.pageOrder) <= Stride(c)
  {
    Pow64();
    PowMono(c.strideOrder, 64);
    PowMono(c.pageOrder, c.strideOrder);
    SmallWord(Stride(c) - 1);
    PowPred(c.strideOrder);
  }

  // A multiple of 2^k other than 0 is at least 2^k.
  lemma UnitOrMore(x: nat, k: nat)
    requires Aligned(x, k) && x > 0
    ensures x >= Pow2(k)
  {
    PagesOf(x, k);
    MulAtLeast(High(x, k), Pow2(k));
  }

  // The arguments of the aligned mapping pass its checks unless the length wraps to 0.
  lemma RangeArguments(c: Config)
    requires WellFormed(c)
    ensures Stride(c) < WORD
    ensures ArgumentsOk(Pow2(c.pageOrder), RangeWord(c), Stride(c), HeaderWord(c)) <==> RangeWord(c) != 0
  {
    hide Pow2, BitAnd, Low, High;
    StrideIsPow2(c);
    PagesAligned(Blocks(c), c.strideOrder);
    WrapAligned(RangeLen(c), c.strideOrder);
    MaskLow(RangeWord(c), c.strideOrder);
    PagesAligned(HEADER_PAGES, c.pageOrder);
    WrapAligned(HeaderLen(c), c.pageOrder);
    MaskLow(HeaderWord(c), c.pageOrder);
    if RangeWord(c) > 0 { UnitOrMore(RangeWord(c), c.strideOrder); }
  }

  /** A range that fits is asked for in full; any other is refused, fails the assertion, or is
      mapped with fewer bytes than it has. */
  lemma FitsIff(c: Config)
    requires WellFormed(c)
    ensures RangeFits(c) <==> RangeAsks(c) && KeepLen(c) == HeaderLen(c) + RangeLen(c)
    ensures KeepLen(c) <= HeaderLen(c) + RangeLen(c)
    ensures RangeFits(c) ==>
              HeaderWord(c) == HeaderLen(c) && AskedLen(c) == HeaderLen(c) + RangeLen(c) + Stride(c) - Pow2(c.pageOrder)
  {
    BlockFits(c);
    StrideIsPow2(c);
    assert Stride(c) <= RangeLen(c) && 0 < Pow2(c.pageOrder) <= Stride(c);
    hide Pow2, HeaderLen, RangeLen;
    KeepFits(HeaderLen(c), RangeLen(c), Stride(c), Pow2(c.pageOrder));
  }

  // The same for any lengths h and r, r at least the alignment a.
  lemma KeepFits(h: nat, r: nat, a: nat, q: nat)
    requires 0 < q <= a < WORD && a <= r
    ensures var (h', r') := (h % WORD, r % WORD);
            && (h + r + a - q < WORD <==> r' != 0 && !Wraps(q, r', a, h') && Keep(r', h') == h + r)
            && Keep(r', h') <= h + r
            && (h + r + a - q < WORD ==> h' == h && Asked(q, r', a, h') == h + r + a - q)
  {
    KeepIsSum(h, r);
    WrapIsLess(h + r);
    if h + r + a - q < WORD {
      SmallWord(h);
      SmallWord(r);
      SmallWord(h + r);
      SmallWord(h + r + a - q);
    }
  }

  lemma WrapIsLess(x: nat)
    ensures x % WORD <= x && x % WORD < WORD
  {
    assert x == (x / WORD) * WORD + x % WORD;
  }

  lemma KeepIsSum(x: nat, y: nat)
    ensures (x % WORD + y % WORD) % WORD == (x + y) % WORD
  {
    WrapSum(x, y % WORD);
    WrapSum(y, x);
  }

  /** Strides of 2^63, which creation accepts, never get a range: an odd number of blocks fails the
      assertion, an even number is refused. */
  lemma HalfSpaceStride(c: Config)
    requires WellFormed(c) && c.strideOrder == 63 && c.pageOrder < 62
    ensures !RangeFits(c) && (Blocks(c) % 2 == 1 ==> RangeAsserts(c)) && (Blocks(c) % 2 == 0 ==> RangeWord(c) == 0)
  {
    hide *;
    HalfBlocks(c);
    HeaderIsSmall(c);
    FitsIff(c);
    if Blocks(c) % 2 == 1 {
      HalfSpaceAsserts(c.pageOrder, HeaderLen(c));
      HalfAsserts(c);
    } else {
      NoneAsked(c);
    }
  }

  lemma HalfAsserts(c: Config)
    requires RangeWord(c) == Pow2(63) == Stride(c) && HeaderWord(c) == HeaderLen(c)
    requires Wraps(Pow2(c.pageOrder), Pow2(63), Pow2(63), HeaderLen(c))
    ensures RangeAsserts(c) && !RangeAsks(c)
  {
  }

  lemma NoneAsked(c: Config)
    requires RangeWord(c) == 0
    ensures !RangeAsks(c)
  {
  }

  // An even number of strides of 2^63 wraps to none, an odd number to one.
  lemma HalfBlocks(c: Config)
    requires c.strideOrder == 63
    ensures RangeWord(c) == (if Blocks(c) % 2 == 1 then Pow2(63) else 0) && Stride(c) == Pow2(63)
  {
    hide Pow2, Blocks;
    Pow64();
    HalvesWrap(Blocks(c), Pow2(63));
  }

  lemma HalvesWrap(n: nat, p: nat)
    requires 2 * p == WORD
    ensures (n * p) % WORD == if n % 2 == 1 then p else 0
  {
    var m := n / 2;
    if n % 2 == 1 {
      assert n * p == m * WORD + p by { assert n == 2 * m + 1; DoubleFactor(m, p); }
      WrapMultiple(m, p);
    } else {
      assert n * p == m * WORD + 0 by { assert n == 2 * m; DoubleFactor(m, p); }
      WrapMultiple(m, 0);
    }
  }

  lemma HeaderIsSmall(c: Config)
    requires c.pageOrder < 62
    ensures HeaderWord(c) == HeaderLen(c) && Pow2(c.pageOrder) <= HeaderLen(c) < Pow2(63) < WORD
    ensures Aligned(HeaderLen(c), c.pageOrder)
  {
    Pow64();
    PowMono(c.pageOrder + 1, 62);
    PowMono(62, 63);
    PagesAligned(HEADER_PAGES, c.pageOrder);
  }

  /** When the length of a range wraps to a single stride, only the block of CPU 0 is mapped. */
  lemma WrappedRangeIsShort(c: Config, sys: System)
    requires WellFormed(c) && RangeLen(c) == WORD + Stride(c) && HeaderLen(c) + 2 * Stride(c) < WORD
    requires sys.result.MappedAt? && !sys.firstUnmapFails && !sys.secondUnmapFails
    ensures MapShort(c, sys) && KeepLen(c) == HeaderLen(c) + Stride(c)
  {
    hide Pow2, OffsetAlign, RangeLen, HeaderLen;
    StrideIsPow2(c);
    SmallWord(Stride(c));
    SmallWord(HeaderLen(c));
    SmallWord(HeaderLen(c) + Stride(c));
    WrapMultiple(1, Stride(c));
  }

  // A pool without init values and with a stride of 2^o is accepted.
  lemma CreationAccepts(a: Attributes, o: nat, pageOrder: nat)
    requires a.policy == CowZero && (a.percpu ==> a.maxCpus > 0) && a.stride == Pow2(o)
    requires WORD_ORDER <= pageOrder <= o < 64
    ensures var r := Configure(LINK_LEN, a, 1, pageOrder);
            && r.Accepted? && WellFormed(r.config) && r.config.strideOrder == o && r.config.pageOrder == pageOrder
            && r.config.nCpus == (if a.percpu then a.maxCpus else 1) && r.config.robust == a.robust && !r.config.cowInit
  {
    assert Pow2(WORD_ORDER) == LINK_LEN;
    hide Pow2, Configure;
    Pow64();
    PowMono(o + 1, 64);
    PowMono(WORD_ORDER, o);
    ConfigureExact(LINK_LEN, a, 1, pageOrder);
    ConfigureKeeps(LINK_LEN, a, 1, pageOrder);
    ConfigureAccepts(LINK_LEN, a, 1, pageOrder, o);
    PowInjective(o, Configure(LINK_LEN, a, 1, pageOrder).config.strideOrder);
  }

  lemma LargePowers()
    ensures Pow2(12) == 0x1000 && Pow2(34) == 0x4_0000_0000 && Pow2(63) == 0x8000_0000_0000_0000
  {
    Pow64();
    assert Pow2(5) == 0x20 && Pow2(6) == 0x40;
    hide Pow2;
    PowDouble(5, 0x20);
    PowDouble(6, 0x40);
    PowDouble(12, 0x1000);
    PowAdd(10, 24);
  }

  /** Creation accepts a pool for 2^30 + 1 CPUs with a stride of 2^34, whose range length wraps
      to one stride: malloc goes on with a range that only has the block of CPU 0. */
  lemma WrappedPoolIsAccepted(sys: System)
    requires sys.result.MappedAt? && !sys.firstUnmapFails && !sys.secondUnmapFails
    ensures var a := Attributes(true, 0x4_0000_0000, 0x4000_0001, false, CowZero, false, 0, 0);
            var r := Configure(LINK_LEN, a, 1, 12);
            r.Accepted? && MapShort(r.config, sys) && KeepLen(r.config) == HeaderLen(r.config) + Stride(r.config)
  {
    hide Pow2, OffsetAlign, MapShort, KeepLen, Configure;
    LargePowers();
    var a := Attributes(true, 0x4_0000_0000, 0x4000_0001, false, CowZero, false, 0, 0);
    CreationAccepts(a, 34, 12);
    WrappedRangeIsShort(Configure(LINK_LEN, a, 1, 12).config, sys);
  }

  /** Creation accepts a global pool with a stride of 2^63, whose first malloc fails the assertion. */
  lemma HalfSpacePoolIsAccepted()
    ensures var a := Attributes(false, 0x8000_0000_0000_0000, 0, false, CowZero, false, 0, 0);
            var r := Configure(LINK_LEN, a, 1, 12);
            r.Accepted? && RangeAsserts(r.config)
  {
    hide Pow2, RangeAsserts, Configure;
    LargePowers();
    var a := Attributes(false, 0x8000_0000_0000_0000, 0, false, CowZero, false, 0, 0);
    CreationAccepts(a, 63, 12);
    HalfSpaceStride(Configure(LINK_LEN, a, 1, 12).config);
  }

  // A carved mapping of a range that fits is a fresh range.
  lemma CarvedIsFresh(c: Config, s: Pool, sys: System, r: Carved)
    requires WellFormed(c) && RangeFits(c) && sys.result.MappedAt? && MappedApart(c, s, sys) && r.Carved?
    requires r.base == (r.lo + HeaderWord(c)) % WORD && r.hi == r.lo + KeepLen(c)
    requires exists k: nat :: Stride(c) == Pow2(k) && Aligned(r.base, k)
    requires sys.result.ptr <= r.lo && r.hi <= sys.result.ptr + AskedLen(c)
    ensures Fresh(c, s, r.base)
  {
    var k: nat :| Stride(c) == Pow2(k) && Aligned(r.base, k);
    PowInjective(k, c.strideOrder);
    BlockFits(c);
    FitsIff(c);
    assert HeaderLen(c) > 0 && 0 < Stride(c) <= RangeLen(c);
    hide Pow2, RangeFits, HeaderLen, KeepLen, AskedLen, HeaderWord, Aligned;
    SmallWord(r.lo + HeaderLen(c));
    assert r.base == r.lo + HeaderLen(c);
  }

  // The system maps what it is asked for.
  predicate SystemWorks(sys: System) {
    sys.result.MappedAt? && !sys.firstUnmapFails && !sys.secondUnmapFails && !sys.setupFails
  }

  /** While the system works, malloc from a pool limited to some number of ranges that fit returns
      no memory exactly when that number times the capacity items are live. */
  lemma NoMemoryIff(c: Config, s: Pool, sys: System)
    requires WellFormed(c) && Inv(c, s) && c.maxRanges > 0 && RangeFits(c) && SystemWorks(sys)
    ensures NeedsRange(c, s) && RangeFails(c, s, sys) <==> |s.live| == c.maxRanges * Capacity(c)
    ensures !RangeAborts(c, s, sys) && !RangeShort(c, s, sys)
  {
    hide Inv, Pow2, OffsetAlign;
    ExactCapacity(c, s);
    FitsIff(c);
  }

  /** The limit in the attributes is the one that counts: a pool created with a limit of ranges is
      exhausted exactly when that number times the capacity items are live, and without a limit never. */
  lemma CreatedCapacity(itemLen: nat, a: Attributes, detectedCpus: nat, pageOrder: nat, s: Pool)
    requires Configure(itemLen, a, detectedCpus, pageOrder).Accepted? && a.stride < WORD && pageOrder >= WORD_ORDER
    requires WellFormed(Configure(itemLen, a, detectedCpus, pageOrder).config)
    requires Inv(Configure(itemLen, a, detectedCpus, pageOrder).config, s)
    ensures var c := Configure(itemLen, a, detectedCpus, pageOrder).config;
            Exhausted(c, s) <==> a.maxRanges > 0 && |s.live| == a.maxRanges * Capacity(c)
  {
    hide Configure, Inv, Pow2;
    ConfigureKeeps(itemLen, a, detectedCpus, pageOrder);
    if a.maxRanges > 0 { ExactCapacity(Configure(itemLen, a, detectedCpus, pageOrder).config, s); }
  }

  /** A new range, a failure, an abort, or a range of which only the bytes [lo, hi) are mapped. */
  datatype Mapping = Ranged(base: nat) | Failed | Died | PartlyMapped(lo: nat, hi: nat)

  /** Map a range: its lengths and the answers of the system decide between a fresh range, failure,
      abort and a range that is not mapped in full. */
  method MapRange(c: Config, ghost s: Pool, sys: System) returns (r: Mapping)
    requires WellFormed(c) && MappedApart(c, s, sys)
    ensures r.Died? <==> MapDies(c, sys)
    ensures r.PartlyMapped? <==> MapShort(c, sys)
    ensures r.Failed? <==> MapFails(c, sys)
    ensures r.Ranged? ==> RangeFits(c) && Fresh(c, s, r.base)
    ensures r.PartlyMapped? ==> r.hi - r.lo == KeepLen(c) < HeaderLen(c) + RangeLen(c)
  {
    hide Pow2, TrimFails, AskedApart, Fresh, ArgumentsOk;
    StrideIsPow2(c);
    RangeArguments(c);
    FitsIff(c);
    var carved := AlignedMmapAnonymous(c.pageOrder, RangeWord(c), Stride(c), HeaderWord(c), sys.result,
                                       sys.firstUnmapFails, sys.secondUnmapFails);
    if carved.Aborted? || carved.AssertionFailed? { return Died; }
    if !carved.Carved? { return Failed; }
    if carved.hi - carved.lo < HeaderLen(c) + RangeLen(c) { return PartlyMapped(carved.lo, carved.hi); }
    if sys.setupFails { return Failed; }
    CarvedIsFresh(c, s, sys, carved);
    return Ranged(carved.base);
  }
}
