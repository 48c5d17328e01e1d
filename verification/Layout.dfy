/** Address layout of a pool: stride-aligned ranges of per-CPU blocks, followed by the
    init values (COW_INIT) and the dedicated free list (robust pools). */
module Layout {
  import opened Bits
  import opened AlignedMmap

  /** Attributes of a pool after creation; the orders are of powers of two. */
  datatype Config = Config(itemOrder: nat, strideOrder: nat, pageOrder: nat, nCpus: nat,
                           robust: bool, cowInit: bool, poisonSet: bool, poison: int, maxRanges: nat)

  // An allocated or freed item: its range and its index in it.
  datatype Item = Item(base: nat, idx: nat)

  // Eight-byte words hold links and poison.
  const WORD_ORDER := 3

  predicate WellFormed(c: Config) {
    && WORD_ORDER <= c.itemOrder <= c.strideOrder < 64 && WORD_ORDER <= c.pageOrder <= c.strideOrder
    && c.nCpus >= 1 && (c.robust ==> c.poisonSet)
  }

  function ItemLen(c: Config): nat { Pow2(c.itemOrder) }
  function Stride(c: Config): nat { Pow2(c.strideOrder) }
  function Capacity(c: Config): (n: nat)
    requires WellFormed(c)
    ensures n >= 1
  {
    Pow2(c.strideOrder - c.itemOrder)
  }

  function Flag(b: bool): nat { if b then 1 else 0 }

  // Blocks of a stride each: the CPUs, the init values, the free list.
  function Blocks(c: Config): nat { c.nCpus + Flag(c.cowInit) + Flag(c.robust) }

  // The block that holds the links of freed items.
  function LinkBlock(c: Config): nat {
    if c.robust then c.nCpus + Flag(c.cowInit) else if c.cowInit then c.nCpus else 0
  }

  function Address(c: Config, base: nat, block: nat, off: nat): nat { base + block * Stride(c) + off }

  // A range as aligned_mmap_anonymous leaves it, inside the address space.
  predicate RangeOk(c: Config, base: nat) {
    base > 0 && Aligned(base, c.strideOrder) && base + Blocks(c) * Stride(c) <= WORD
  }

  predicate Apart(c: Config, a: nat, b: nat) {
    a + Blocks(c) * Stride(c) <= b || b + Blocks(c) * Stride(c) <= a
  }

  function ItemOffset(c: Config, idx: nat): nat { idx * ItemLen(c) }
  function Pointer(c: Config, x: Item): nat { x.base + ItemOffset(c, x.idx) }

  predicate InRange(c: Config, x: Item)
    requires WellFormed(c)
  {
    RangeOk(c, x.base) && x.idx < Capacity(c)
  }

  /** The free-list node of a per-CPU pointer. */
  function ToFreeList(c: Config, p: int): int {
    if c.robust then
      var q := p + c.nCpus * Stride(c);
      if c.cowInit then q + Stride(c) else q
    else if c.cowInit then p + c.nCpus * Stride(c) else p
  }

  /** The per-CPU pointer of a free-list node. */
  function ToPercpu(c: Config, node: int): int {
    if c.robust then
      var p := node - c.nCpus * Stride(c);
      if c.cowInit then p - Stride(c) else p
    else if c.cowInit then node - c.nCpus * Stride(c) else node
  }

  /** In all four layouts the translations are inverse, and the node of an item is the
      same offset in the link block. */
  lemma Translations(c: Config, p: int, base: nat, off: nat)
    ensures ToPercpu(c, ToFreeList(c, p)) == p && ToFreeList(c, ToPercpu(c, p)) == p
    ensures ToFreeList(c, base + off) == Address(c, base, LinkBlock(c), off)
  {
    assert (c.nCpus + 1) * Stride(c) == c.nCpus * Stride(c) + Stride(c);
    assert (c.nCpus + 0) * Stride(c) == c.nCpus * Stride(c);
    assert 0 * Stride(c) == 0;
  }

  // Rounding down to, and the remainder modulo, a power of two, as masks.
  function MaskBase(p: nat, stride: nat): nat
    requires 0 < stride <= WORD
  {
    BitAnd(p, BitNot(stride - 1))
  }

  function MaskOffset(p: nat, stride: nat): nat
    requires stride > 0
  {
    BitAnd(p, stride - 1)
  }

  lemma StrideFits(c: Config)
    requires WellFormed(c)
    ensures Stride(c) <= WORD && Stride(c) == Capacity(c) * ItemLen(c)
  {
    Pow64();
    PowMono(c.strideOrder, 64);
    PowAdd(c.strideOrder - c.itemOrder, c.itemOrder);
  }

  lemma BlockFits(c: Config)
    requires WellFormed(c)
    ensures Stride(c) <= Blocks(c) * Stride(c)
  {
    MulMono(1, Blocks(c), Stride(c));
  }

  lemma LowOfSum(base: nat, off: nat, k: nat)
    requires Aligned(base, k) && off < Pow2(k)
    ensures Low(base + off, k) == off
  {
    PagesOf(base, k);
    SplitUnique(base + off, k, High(base, k), off);
  }

  lemma MaskAligned(base: nat, off: nat, k: nat)
    requires Aligned(base, k) && off < Pow2(k) && k <= 64 && base + off < WORD
    ensures Pow2(k) <= WORD && MaskBase(base + off, Pow2(k)) == base && MaskOffset(base + off, Pow2(k)) == off
  {
    hide Pow2, BitAnd, Low;
    LowOfSum(base, off, k);
    MaskLow(base + off, k);
    Pow64();
    MaskDown(base, off, k, 64);
    assert BitNot(Pow2(k) - 1) == Pow2(64) - Pow2(k);
  }

  lemma MaskDown(base: nat, off: nat, k: nat, w: nat)
    requires k <= w && base + off < Pow2(w) && Low(base + off, k) == off
    ensures Pow2(k) <= Pow2(w) && BitAnd(base + off, Pow2(w) - Pow2(k)) == base
  {
    MaskHigh(base + off, k, w);
  }

  /** Masking any pointer into CPU 0's block recovers its own range and offset. */
  lemma MaskRecovers(c: Config, base: nat, off: nat)
    requires WellFormed(c) && RangeOk(c, base) && off < Stride(c)
    ensures Stride(c) <= WORD
    ensures MaskBase(base + off, Stride(c)) == base && MaskOffset(base + off, Stride(c)) == off
  {
    BlockFits(c);
    MaskAligned(base, off, c.strideOrder);
  }

  lemma OffsetOfItem(c: Config, idx: nat, b: nat)
    requires WellFormed(c) && idx < Capacity(c) && b < ItemLen(c)
    ensures ItemOffset(c, idx) + b < Stride(c)
    ensures High(ItemOffset(c, idx) + b, c.itemOrder) == idx && Low(ItemOffset(c, idx) + b, c.itemOrder) == b
  {
    StrideFits(c);
    MulMono(idx + 1, Capacity(c), ItemLen(c));
    assert (idx + 1) * ItemLen(c) == idx * ItemLen(c) + ItemLen(c);
    SplitUnique(ItemOffset(c, idx) + b, c.itemOrder, idx, b);
  }

  // An item-aligned offset is that of the item it lies in.
  lemma ItemOfOffset(c: Config, off: nat)
    requires WellFormed(c) && off < Stride(c)
    ensures High(off, c.itemOrder) < Capacity(c)
    ensures Aligned(off, c.itemOrder) ==> off == ItemOffset(c, High(off, c.itemOrder))
  {
    StrideFits(c);
    Split(off, c.itemOrder);
    var (i, n) := (High(off, c.itemOrder), Capacity(c));
    if i >= n { MulMono(n, i, ItemLen(c)); }
  }

  // The pointer and the node of an item are not NULL, and name each other.
  lemma NodeNames(c: Config, x: Item)
    requires WellFormed(c) && InRange(c, x)
    ensures Pointer(c, x) > 0 && ToFreeList(c, Pointer(c, x)) > 0
    ensures ToPercpu(c, ToFreeList(c, Pointer(c, x))) == Pointer(c, x)
  {
    Translations(c, Pointer(c, x), x.base, ItemOffset(c, x.idx));
  }

  /** What malloc and free compute from an item's pointer or from its free-list node. */
  lemma PointerRecovers(c: Config, x: Item)
    requires WellFormed(c) && InRange(c, x)
    ensures Stride(c) <= WORD && Pointer(c, x) > 0 && ToFreeList(c, Pointer(c, x)) > 0
    ensures ToPercpu(c, ToFreeList(c, Pointer(c, x))) == Pointer(c, x)
    ensures MaskBase(Pointer(c, x), Stride(c)) == x.base
    ensures MaskOffset(Pointer(c, x), Stride(c)) == ItemOffset(c, x.idx) < Stride(c)
    ensures High(ItemOffset(c, x.idx), c.itemOrder) == x.idx && Aligned(ItemOffset(c, x.idx), c.itemOrder)
  {
    OffsetOfItem(c, x.idx, 0);
    MaskRecovers(c, x.base, ItemOffset(c, x.idx));
    NodeNames(c, x);
  }

  lemma BlockBounds(c: Config, block: nat, off: nat)
    requires block < Blocks(c) && off < Stride(c)
    ensures block * Stride(c) + off < Blocks(c) * Stride(c)
  {
    MulMono(block + 1, Blocks(c), Stride(c));
    assert (block + 1) * Stride(c) == block * Stride(c) + Stride(c);
  }

  /** Different (range, block, offset) triples are different addresses. */
  lemma AddressInjective(c: Config, a: nat, i: nat, off: nat, b: nat, j: nat, off': nat)
    requires i < Blocks(c) && j < Blocks(c) && off < Stride(c) && off' < Stride(c)
    requires a == b || Apart(c, a, b)
    requires Address(c, a, i, off) == Address(c, b, j, off')
    ensures a == b && i == j && off == off'
  {
    BlockBounds(c, i, off);
    BlockBounds(c, j, off');
    assert 0 <= i * Stride(c) && 0 <= j * Stride(c);
    assert a == b;
    QuotientUnique(Stride(c), i, off, j, off');
  }

  /** Byte d of item x in block i and byte e of item y in block j share an address only
      when they are the same byte of the same item in the same block. In particular the
      links of freed items never overlap the data of other items. */
  lemma BytesDisjoint(c: Config, x: Item, i: nat, d: nat, y: Item, j: nat, e: nat)
    requires WellFormed(c) && InRange(c, x) && InRange(c, y) && (x.base == y.base || Apart(c, x.base, y.base))
    requires i < Blocks(c) && j < Blocks(c) && d < ItemLen(c) && e < ItemLen(c)
    ensures Address(c, x.base, i, ItemOffset(c, x.idx) + d) == Address(c, y.base, j, ItemOffset(c, y.idx) + e)
            <==> x == y && i == j && d == e
  {
    OffsetOfItem(c, x.idx, d);
    OffsetOfItem(c, y.idx, e);
    if Address(c, x.base, i, ItemOffset(c, x.idx) + d) == Address(c, y.base, j, ItemOffset(c, y.idx) + e) {
      AddressInjective(c, x.base, i, ItemOffset(c, x.idx) + d, y.base, j, ItemOffset(c, y.idx) + e);
    }
  }

  // The test for room in a range that holds n items.
  lemma RoomLeft(c: Config, n: nat)
    requires WellFormed(c)
    ensures ItemOffset(c, n) + ItemLen(c) > Stride(c) <==> n >= Capacity(c)
    ensures ItemOffset(c, n) + ItemLen(c) == ItemOffset(c, n + 1)
  {
    StrideFits(c);
    assert (n + 1) * ItemLen(c) == n * ItemLen(c) + ItemLen(c);
    if n < Capacity(c) {
      MulMono(n + 1, Capacity(c), ItemLen(c));
    } else {
      MulMono(Capacity(c), n, ItemLen(c));
    }
  }

  // ---- Creating a configuration --------------------------------------------------------

  datatype Policy = CowInit | CowZero | UnknownPolicy

  /** The attributes a caller may set. */
  datatype Attributes = Attributes(percpu: bool, stride: nat, maxCpus: int, robust: bool, policy: Policy,
                                   poisonSet: bool, poison: int, maxRanges: nat)

  datatype Creation = Refused | Accepted(config: Config)

  const LINK_LEN := 8
  const DEFAULT_STRIDE := 0x1_0000
  const INIT_POISON := 0x5555555555555555
  const ZERO_POISON := 0

  /** What rseq_mempool_create makes of an item length and attributes, for a page size
      2^pageOrder and detected CPUs. */
  function Configure(itemLen: nat, a: Attributes, detectedCpus: nat, pageOrder: nat): Creation {
    var len := if itemLen < LINK_LEN then LINK_LEN else itemLen;
    var order := CountOrder(len);
    var cowInit := a.policy == CowInit && a.percpu;
    var nCpus := if !a.percpu then 1 else if a.maxCpus == 0 then detectedCpus else a.maxCpus;
    var stride := if a.stride == 0 then DEFAULT_STRIDE else a.stride;
    var defaultPoison := a.robust && !a.poisonSet;
    var poison := if !defaultPoison then a.poison else if cowInit then INIT_POISON else ZERO_POISON;
    if order < 0 || a.policy == UnknownPolicy || (a.percpu && (a.maxCpus < 0 || nCpus == 0)) then Refused
    else if Pow2(order) > stride || stride < Pow2(pageOrder) || !IsPow2(stride) then Refused
    else Accepted(Config(order, CountOrder(stride), pageOrder, nCpus, a.robust, cowInit,
                         a.poisonSet || defaultPoison, poison, a.maxRanges))
  }

  /** Accepted attributes give a well-formed pool of the stride asked for, whose item length
      is the least power of two that holds a link and the length asked for. */
  lemma ConfigureAccepts(itemLen: nat, a: Attributes, detectedCpus: nat, pageOrder: nat, k: nat)
    requires Configure(itemLen, a, detectedCpus, pageOrder).Accepted? && a.stride < WORD && pageOrder >= WORD_ORDER
    ensures var c := Configure(itemLen, a, detectedCpus, pageOrder).config;
            && WellFormed(c) && Stride(c) == (if a.stride == 0 then DEFAULT_STRIDE else a.stride)
            && (itemLen <= Pow2(k) && WORD_ORDER <= k <==> c.itemOrder <= k)
  {
    var c := Configure(itemLen, a, detectedCpus, pageOrder).config;
    var stride := if a.stride == 0 then DEFAULT_STRIDE else a.stride;
    var len := if itemLen < LINK_LEN then LINK_LEN else itemLen;
    var o := StrideOrder(stride, pageOrder);
    CountOrderLeast(len, k);
    assert Pow2(WORD_ORDER) == LINK_LEN;
    if k < WORD_ORDER { PowMono(k, WORD_ORDER); } else { PowMono(WORD_ORDER, k); }
    CountOrderLeast(len, c.itemOrder);
    if c.itemOrder < WORD_ORDER { PowMono(c.itemOrder, WORD_ORDER); }
    if c.itemOrder > o { PowMono(o, c.itemOrder); }
  }

  /** A pool keeps what it was asked for: the init values of a per-CPU pool with that policy, one CPU for a
      global pool and the number asked for, or detected, for others, the limit of ranges, and the
      poison set, or by default the one robust pools use. */
  lemma ConfigureKeeps(itemLen: nat, a: Attributes, detectedCpus: nat, pageOrder: nat)
    requires Configure(itemLen, a, detectedCpus, pageOrder).Accepted?
    ensures var c := Configure(itemLen, a, detectedCpus, pageOrder).config;
            && c.pageOrder == pageOrder && c.robust == a.robust && c.maxRanges == a.maxRanges
            && (c.cowInit <==> a.percpu && a.policy == CowInit)
            && (!a.percpu ==> c.nCpus == 1)
            && (a.percpu ==> c.nCpus > 0 && c.nCpus == if a.maxCpus != 0 then a.maxCpus else detectedCpus)
            && (c.poisonSet <==> a.poisonSet || a.robust)
            && (a.poisonSet ==> c.poison == a.poison)
            && (a.robust && !a.poisonSet ==> c.poison == if c.cowInit then 0x5555555555555555 else 0)
  {
    hide Pow2, IsPow2, CountOrder;
  }

  /** Exactly these are accepted: a known policy, a positive number of CPUs, and a stride that
      is a power of two, at least a page, and holds an item. */
  lemma ConfigureExact(itemLen: nat, a: Attributes, detectedCpus: nat, pageOrder: nat)
    requires a.stride < WORD
    ensures var stride := if a.stride == 0 then DEFAULT_STRIDE else a.stride;
            Configure(itemLen, a, detectedCpus, pageOrder).Accepted?
            <==> && a.policy != UnknownPolicy
                 && (a.percpu ==> a.maxCpus > 0 || (a.maxCpus == 0 && detectedCpus > 0))
                 && (exists o: nat :: stride == Pow2(o) && pageOrder <= o && LINK_LEN <= Pow2(o) && itemLen <= Pow2(o))
  {
    var stride := if a.stride == 0 then DEFAULT_STRIDE else a.stride;
    var len := if itemLen < LINK_LEN then LINK_LEN else itemLen;
    IsPow2Exact(stride);
    forall o: nat | stride == Pow2(o) ensures Pow2(CountOrder(len)) <= stride <==> len <= Pow2(o) {
      CountOrderLeast(len, o);
      OrderLess(CountOrder(len), o);
    }
    forall o: nat | stride == Pow2(o) ensures Pow2(pageOrder) <= stride <==> pageOrder <= o {
      OrderLess(pageOrder, o);
    }
  }

  lemma OrderLess(a: nat, b: nat)
    ensures Pow2(a) <= Pow2(b) <==> a <= b
  {
    if a <= b { PowMono(a, b); } else { PowMono(b, a); }
  }

  lemma StrideOrder(stride: nat, pageOrder: nat) returns (o: nat)
    requires 0 < stride < WORD && IsPow2(stride) && Pow2(pageOrder) <= stride
    ensures stride == Pow2(o) && CountOrder(stride) == o && pageOrder <= o < 64
  {
    SmallWord(stride - 1);
    o := OnlyPow(stride);
    CountOrderPow2(o);
    Pow64();
    if o >= 64 { PowMono(64, o); }
    if o < pageOrder { PowMono(o, pageOrder); }
  }
}
