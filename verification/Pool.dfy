/** The state of a memory pool, what every operation does to it, and the invariant that
    every run of operations keeps. */
module Pool {
  import opened Bits
  import opened AlignedMmap
  import opened Layout
  import opened CowMemory
  import opened Bitmap
  import opened ItemFill

  // A range header. The bitmap is empty in pools that are not robust.
  datatype Header = Header(nextUnused: nat, bitmap: seq<nat>)

  /** A pool: its ranges (most recent first) with their headers, the free-list head, the
      memory of the CPUs and of the init values, and the dedicated link words of robust
      pools. Live and free are the items handed out and the items on the free list. */
  datatype Pool = Pool(ranges: seq<nat>, headers: map<nat, Header>, nrRanges: nat, freeHead: int,
                       mem: Memory, links: map<Loc, int>, live: set<Item>, free: seq<Item>)

  // ---- Words of items ------------------------------------------------------------

  function WordsPerItem(c: Config): nat
    requires WellFormed(c)
  {
    Pow2(c.itemOrder - WORD_ORDER)
  }

  function WordPageOrder(c: Config): nat
    requires WellFormed(c)
  {
    c.pageOrder - WORD_ORDER
  }

  predicate OfItem(c: Config, l: Loc, x: Item)
    requires WellFormed(c)
  {
    l.base == x.base && High(l.off, c.itemOrder - WORD_ORDER) == x.idx
  }

  function ItemSpan(c: Config, x: Item): Span
    requires WellFormed(c)
  {
    Span(x.base, x.idx * WordsPerItem(c), x.idx * WordsPerItem(c) + WordsPerItem(c))
  }

  // The word that links a freed item.
  function LinkLoc(c: Config, x: Item): Loc
    requires WellFormed(c)
  {
    Loc(x.base, x.idx * WordsPerItem(c))
  }

  lemma SpanIsItem(c: Config, x: Item, l: Loc)
    requires WellFormed(c)
    ensures Inside(ItemSpan(c, x), l) <==> OfItem(c, l, x)
  {
    var k := c.itemOrder - WORD_ORDER;
    Split(l.off, k);
    if Inside(ItemSpan(c, x), l) {
      SplitUnique(l.off, k, x.idx, l.off - x.idx * WordsPerItem(c));
    }
  }

  lemma LinkOfItem(c: Config, x: Item)
    requires WellFormed(c)
    ensures OfItem(c, LinkLoc(c, x), x)
  {
    SpanIsItem(c, x, LinkLoc(c, x));
  }

  // The link word is the first word of the item, at its byte offset.
  lemma LinkAtOffset(c: Config, x: Item)
    requires WellFormed(c)
    ensures LinkLoc(c, x) == Loc(x.base, High(ItemOffset(c, x.idx), WORD_ORDER))
  {
    PowAdd(c.itemOrder - WORD_ORDER, WORD_ORDER);
    MulAssoc(x.idx, WordsPerItem(c), Pow2(WORD_ORDER));
    PagesAligned(x.idx * WordsPerItem(c), WORD_ORDER);
  }

  // No one sees a change outside item x.
  ghost predicate SameElsewhere(c: Config, m: Memory, m': Memory, x: Item)
    requires WellFormed(c)
  {
    && (forall cpu: nat, l :: !OfItem(c, l, x) ==>
        View(m', WordPageOrder(c), cpu, l) == View(m, WordPageOrder(c), cpu, l))
    && (forall l :: !OfItem(c, l, x) ==> Get(m'.shared, l) == Get(m.shared, l))
  }

  lemma OutsideIsElsewhere(c: Config, m: Memory, m': Memory, x: Item)
    requires WellFormed(c) && SameOutside(m, m', WordPageOrder(c), ItemSpan(c, x))
    ensures SameElsewhere(c, m, m', x)
  {
    forall l ensures Inside(ItemSpan(c, x), l) <==> OfItem(c, l, x) { SpanIsItem(c, x, l); }
  }

  // ---- Links ---------------------------------------------------------------------

  // The link words are dedicated in robust pools, and overlay the init values or CPU 0 in others.
  function LinkIn(c: Config, mem: Memory, links: map<Loc, int>, l: Loc): int
    requires WellFormed(c)
  {
    if c.robust then Get(links, l)
    else if c.cowInit then Get(mem.shared, l)
    else View(mem, WordPageOrder(c), 0, l)
  }

  function ReadLink(c: Config, s: Pool, l: Loc): int
    requires WellFormed(c)
  {
    LinkIn(c, s.mem, s.links, l)
  }

  // The address of the i-th node of a free list; NULL at its end.
  function NodeOf(c: Config, free: seq<Item>, i: nat): int {
    if i < |free| then ToFreeList(c, Pointer(c, free[i])) else 0
  }

  // ---- The invariant ---------------------------------------------------------------

  function Used(c: Config, h: Header): nat { High(h.nextUnused, c.itemOrder) }

  ghost predicate RangesOk(c: Config, s: Pool) {
    && (forall i :: 0 <= i < |s.ranges| ==> RangeOk(c, s.ranges[i]) && s.ranges[i] in s.headers)
    && (forall i, j :: 0 <= i < j < |s.ranges| ==> s.ranges[i] != s.ranges[j] && Apart(c, s.ranges[i], s.ranges[j]))
    && s.nrRanges == |s.ranges| && (c.maxRanges > 0 ==> s.nrRanges <= c.maxRanges)
  }

  // Only the head range has room.
  ghost predicate HeadersOk(c: Config, s: Pool)
    requires WellFormed(c)
  {
    forall i :: 0 <= i < |s.ranges| ==>
      && s.ranges[i] in s.headers
      && var h := s.headers[s.ranges[i]];
         && h.nextUnused == ItemOffset(c, Used(c, h)) && Used(c, h) <= Capacity(c)
         && (i > 0 ==> Used(c, h) == Capacity(c))
  }

  // The items below next_unused of their range.
  ghost predicate InUse(c: Config, s: Pool, x: Item) {
    x.base in s.ranges && x.base in s.headers && x.idx < Used(c, s.headers[x.base])
  }

  // Every used item is either live or on the free list, once.
  ghost predicate Partition(c: Config, s: Pool) {
    && (forall x :: InUse(c, s, x) <==> x in s.live || x in s.free)
    && (forall i :: 0 <= i < |s.free| ==> s.free[i] !in s.live)
    && (forall i, j :: 0 <= i < j < |s.free| ==> s.free[i] != s.free[j])
  }

  // The links of the free list, in whichever block they live.
  ghost predicate Chain(c: Config, s: Pool)
    requires WellFormed(c)
  {
    && s.freeHead == NodeOf(c, s.free, 0)
    && forall i :: 0 <= i < |s.free| ==> ReadLink(c, s, LinkLoc(c, s.free[i])) == NodeOf(c, s.free, i + 1)
  }

  // The bits of a range are its live items.
  ghost predicate BitsOk(c: Config, bitmap: seq<nat>, base: nat, live: set<Item>)
    requires WellFormed(c)
  {
    && |bitmap| == Words(Capacity(c)) && AllWords(bitmap)
    && forall i: nat :: i / PER_WORD < |bitmap| ==> (IsSet(bitmap, i) <==> Item(base, i) in live)
  }

  // Only robust pools have bitmaps.
  ghost predicate SlotsOk(c: Config, s: Pool)
    requires WellFormed(c)
  {
    forall b :: b in s.ranges ==>
      b in s.headers && if c.robust then BitsOk(c, s.headers[b].bitmap, b, s.live) else s.headers[b].bitmap == []
  }

  // In robust pools every view of a freed item holds the poison.
  ghost predicate PoisonOk(c: Config, s: Pool)
    requires WellFormed(c)
  {
    c.robust ==> forall x :: x in s.free ==> Poisoned(c, s.mem, x)
  }

  ghost predicate Poisoned(c: Config, m: Memory, x: Item)
    requires WellFormed(c)
  {
    Holds(m, WordPageOrder(c), c.nCpus, c.cowInit, ItemSpan(c, x), c.poison)
  }

  ghost function Total(ranges: seq<nat>, f: nat -> nat): nat {
    if ranges == [] then 0 else f(ranges[0]) + Total(ranges[1..], f)
  }

  ghost function UsedOf(c: Config, s: Pool): nat -> nat {
    (b: nat) => if b in s.headers then Used(c, s.headers[b]) else 0
  }

  ghost function WeightOf(s: Pool): nat -> nat {
    (b: nat) => if b in s.headers then Weight(s.headers[b].bitmap) else 0
  }

  /** Items ever used are live or freed; in robust pools the weights of the bitmaps add up
      to the number of live items. */
  ghost predicate Counts(c: Config, s: Pool) {
    && |s.live| + |s.free| == Total(s.ranges, UsedOf(c, s))
    && (c.robust ==> Total(s.ranges, WeightOf(s)) == |s.live|)
  }

  ghost predicate Inv(c: Config, s: Pool)
    requires WellFormed(c)
  {
    RangesOk(c, s) && HeadersOk(c, s) && Partition(c, s) && Chain(c, s)
    && SlotsOk(c, s) && PoisonOk(c, s) && Counts(c, s)
  }

  // ---- Operations ------------------------------------------------------------------

  // Slot i turned on or off, and no other.
  ghost predicate SlotChange(b: seq<nat>, b': seq<nat>, i: nat, on: bool) {
    && i / PER_WORD < |b| == |b'| && AllWords(b')
    && (if on then Weight(b') == Weight(b) + 1 else Weight(b') + 1 == Weight(b))
    && forall j: nat :: j / PER_WORD < |b| ==> (IsSet(b', j) <==> if j == i then on else IsSet(b, j))
  }

  // The header of x's range with its bump pointer at next and x's slot turned.
  ghost predicate HeaderChange(c: Config, s: Pool, s': Pool, x: Item, next: nat, on: bool) {
    && x.base in s.ranges && x.base in s.headers && s'.ranges == s.ranges && s'.nrRanges == s.nrRanges
    && exists h :: HeaderTurned(c, s.headers[x.base], h, x.idx, next, on) && s'.headers == s.headers[x.base := h]
  }

  ghost predicate HeaderTurned(c: Config, h: Header, h': Header, idx: nat, next: nat, on: bool) {
    h'.nextUnused == next && if c.robust then SlotChange(h.bitmap, h'.bitmap, idx, on) else h'.bitmap == h.bitmap
  }

  // malloc takes the first item of the free list.
  ghost predicate Reuse(c: Config, s: Pool, s': Pool, x: Item) {
    && s.free != [] && x == s.free[0] && s'.free == s.free[1..] && s'.freeHead == NodeOf(c, s.free, 1)
    && s'.live == s.live + {x} && s'.mem == s.mem && s'.links == s.links
    && x.base in s.headers && HeaderChange(c, s, s', x, s.headers[x.base].nextUnused, true)
  }

  // malloc takes the first item of the head range that was never used.
  ghost predicate Bump(c: Config, s: Pool, s': Pool, x: Item)
    requires WellFormed(c)
  {
    && s.free == [] && s.ranges != [] && s.ranges[0] in s.headers
    && x == Item(s.ranges[0], Used(c, s.headers[s.ranges[0]])) && x.idx < Capacity(c)
    && s'.free == s.free && s'.freeHead == s.freeHead && s'.live == s.live + {x}
    && s'.mem == s.mem && s'.links == s.links
    && HeaderChange(c, s, s', x, s.headers[x.base].nextUnused + ItemLen(c), true)
  }

  ghost predicate Full(c: Config, s: Pool)
    requires WellFormed(c)
  {
    s.ranges == [] || (s.ranges[0] in s.headers && Used(c, s.headers[s.ranges[0]]) == Capacity(c))
  }

  predicate LimitReached(c: Config, s: Pool) { c.maxRanges > 0 && s.nrRanges >= c.maxRanges }

  // A new mapping lies apart from the others.
  ghost predicate Fresh(c: Config, s: Pool, base: nat) {
    RangeOk(c, base) && base !in s.headers && forall i :: 0 <= i < |s.ranges| ==> Apart(c, base, s.ranges[i])
  }

  // A new range goes to the head of the list.
  ghost predicate Extend(c: Config, s: Pool, s': Pool, base: nat, bitmap: seq<nat>)
    requires WellFormed(c)
  {
    && Full(c, s) && !LimitReached(c, s) && Fresh(c, s, base)
    && s' == s.(ranges := [base] + s.ranges, nrRanges := s.nrRanges + 1,
                headers := s.headers[base := Header(0, bitmap)])
    && if c.robust then
         |bitmap| == Words(Capacity(c)) && AllWords(bitmap) && Weight(bitmap) == 0
         && forall i: nat :: i / PER_WORD < |bitmap| ==> !IsSet(bitmap, i)
       else bitmap == []
  }

  // A word of a freed item: poisoned for everyone when the pool has a poison, as it was otherwise.
  ghost predicate WordScrubbed(c: Config, m: Memory, m': Memory, l: Loc)
    requires WellFormed(c)
  {
    && (c.cowInit ==> Get(m'.shared, l) == if c.poisonSet then c.poison else Get(m.shared, l))
    && forall cpu: nat :: cpu < c.nCpus ==> View(m', WordPageOrder(c), cpu, l) == ScrubbedView(c, m, cpu, l)
  }

  ghost function ScrubbedView(c: Config, m: Memory, cpu: nat, l: Loc): int
    requires WellFormed(c)
  {
    if c.poisonSet then c.poison else View(m, WordPageOrder(c), cpu, l)
  }

  // Where the link overlays the item: the first word of CPU 0, or the first init value, which the
  // CPUs that have not copied its page see too.
  ghost predicate LinkScrubbed(c: Config, m: Memory, m': Memory, x: Item, head: int)
    requires WellFormed(c)
  {
    var link := LinkLoc(c, x);
    && (c.cowInit ==> Get(m'.shared, link) == head)
    && forall cpu: nat :: cpu < c.nCpus ==>
         var seen := View(m', WordPageOrder(c), cpu, link);
         seen == if Overlaid(c, m', cpu, link) then head else ScrubbedView(c, m, cpu, link)
  }

  ghost predicate Overlaid(c: Config, m: Memory, cpu: nat, link: Loc)
    requires WellFormed(c)
  {
    if c.cowInit then PageOf(WordPageOrder(c), cpu, link) !in m.copies else cpu == 0
  }

  /** What free leaves in an item: the poison in every view of every word, or what was there when the
      pool has none, but for the link word of pools that are not robust. */
  ghost predicate Scrubbed(c: Config, m: Memory, m': Memory, x: Item, head: int)
    requires WellFormed(c)
  {
    && (forall l :: OfItem(c, l, x) && (c.robust || l != LinkLoc(c, x)) ==> WordScrubbed(c, m, m', l))
    && (!c.robust ==> LinkScrubbed(c, m, m', x, head))
  }

  // free puts a live item at the head of the free list.
  ghost predicate Release(c: Config, s: Pool, s': Pool, x: Item)
    requires WellFormed(c)
  {
    && x in s.live && s'.live == s.live - {x} && s'.free == [x] + s.free && s'.freeHead == NodeOf(c, s'.free, 0)
    && SameElsewhere(c, s.mem, s'.mem, x) && (c.robust ==> Poisoned(c, s'.mem, x))
    && Scrubbed(c, s.mem, s'.mem, x, s.freeHead)
    && ReadLink(c, s', LinkLoc(c, x)) == s.freeHead
    && (forall l :: !OfItem(c, l, x) ==> ReadLink(c, s', l) == ReadLink(c, s, l))
    && x.base in s.headers && HeaderChange(c, s, s', x, s.headers[x.base].nextUnused, false)
  }

  // A store inside a live item: by a client, or while the item is zeroed or initialised.
  ghost predicate Store(c: Config, s: Pool, s': Pool, x: Item)
    requires WellFormed(c)
  {
    x in s.live && SameElsewhere(c, s.mem, s'.mem, x) && s' == s.(mem := s'.mem)
  }

  // ---- What the operations keep ----------------------------------------------------

  lemma {:induction false} TotalSame(ranges: seq<nat>, f: nat -> nat, g: nat -> nat)
    requires forall i :: 0 <= i < |ranges| ==> f(ranges[i]) == g(ranges[i])
    ensures Total(ranges, f) == Total(ranges, g)
  {
    if ranges != [] { TotalSame(ranges[1..], f, g); }
  }

  // Changing one term of a total.
  lemma {:induction false} TotalUpdate(ranges: seq<nat>, k: nat, f: nat -> nat, g: nat -> nat)
    requires k < |ranges| && forall i :: 0 <= i < |ranges| && i != k ==> f(ranges[i]) == g(ranges[i])
    ensures Total(ranges, g) + f(ranges[k]) == Total(ranges, f) + g(ranges[k])
    decreases |ranges|
  {
    if k == 0 {
      TotalSame(ranges[1..], f, g);
    } else {
      TotalUpdate(ranges[1..], k - 1, f, g);
    }
  }

  lemma PositionOf(s: Pool, b: nat) returns (k: nat)
    requires b in s.ranges
    ensures k < |s.ranges| && s.ranges[k] == b
  {
    k :| 0 <= k < |s.ranges| && s.ranges[k] == b;
  }

  // How the totals follow a change of one header.
  lemma HeaderTotals(c: Config, s: Pool, s': Pool, x: Item, next: nat, on: bool)
    requires WellFormed(c) && RangesOk(c, s) && SlotsOk(c, s) && HeaderChange(c, s, s', x, next, on)
    ensures x.base in s'.headers
    ensures Total(s'.ranges, UsedOf(c, s')) + Used(c, s.headers[x.base])
            == Total(s.ranges, UsedOf(c, s)) + Used(c, s'.headers[x.base])
    ensures c.robust && on ==> Total(s'.ranges, WeightOf(s')) == Total(s.ranges, WeightOf(s)) + 1
    ensures c.robust && !on ==> Total(s'.ranges, WeightOf(s')) + 1 == Total(s.ranges, WeightOf(s))
  {
    var k := PositionOf(s, x.base);
    TotalUpdate(s.ranges, k, UsedOf(c, s), UsedOf(c, s'));
    TotalUpdate(s.ranges, k, WeightOf(s), WeightOf(s'));
  }

  // Ranges and bits after one header changed.
  lemma HeaderSlots(c: Config, s: Pool, s': Pool, x: Item, next: nat, on: bool)
    requires WellFormed(c) && RangesOk(c, s) && SlotsOk(c, s) && HeaderChange(c, s, s', x, next, on)
    requires s'.live == if on then s.live + {x} else s.live - {x}
    ensures RangesOk(c, s') && SlotsOk(c, s')
  {
    var h :| HeaderTurned(c, s.headers[x.base], h, x.idx, next, on) && s'.headers == s.headers[x.base := h];
    forall b | b in s'.ranges && c.robust ensures BitsOk(c, s'.headers[b].bitmap, b, s'.live) {
      assert BitsOk(c, s.headers[b].bitmap, b, s.live);
      if b == x.base { TurnedBits(c, s.headers[b].bitmap, h.bitmap, x, s.live, s'.live, on); }
    }
  }

  lemma TurnedBits(c: Config, bitmap: seq<nat>, bitmap': seq<nat>, x: Item, live: set<Item>, live': set<Item>, on: bool)
    requires WellFormed(c) && BitsOk(c, bitmap, x.base, live) && SlotChange(bitmap, bitmap', x.idx, on)
    requires live' == if on then live + {x} else live - {x}
    ensures BitsOk(c, bitmap', x.base, live')
  {
  }

  // Used items when no bump pointer moved.
  lemma SameUse(c: Config, s: Pool, s': Pool, x: Item, on: bool)
    requires WellFormed(c) && HeadersOk(c, s) && x.base in s.headers
             && HeaderChange(c, s, s', x, s.headers[x.base].nextUnused, on)
    ensures HeadersOk(c, s') && forall y :: InUse(c, s', y) <==> InUse(c, s, y)
  {
  }

  lemma AddOne(live: set<Item>, x: Item)
    requires x !in live
    ensures |live + {x}| == |live| + 1
  {
  }

  lemma RemoveOne(live: set<Item>, x: Item)
    requires x in live
    ensures |live - {x}| + 1 == |live|
  {
    assert live == (live - {x}) + {x};
  }

  // Ranges, bits and counts after x became live: freed before, or never used before.
  lemma TakeSlot(c: Config, s: Pool, s': Pool, x: Item, next: nat)
    requires WellFormed(c) && RangesOk(c, s) && SlotsOk(c, s) && Counts(c, s) && HeaderChange(c, s, s', x, next, true)
    requires x !in s.live && s'.live == s.live + {x} && x.base in s'.headers
    requires |s'.free| + 1 + Used(c, s.headers[x.base]) == |s.free| + Used(c, s'.headers[x.base])
    ensures RangesOk(c, s') && SlotsOk(c, s') && Counts(c, s')
  {
    HeaderSlots(c, s, s', x, next, true);
    HeaderTotals(c, s, s', x, next, true);
    AddOne(s.live, x);
  }

  // Ranges, bits and counts after x was freed.
  lemma GiveSlot(c: Config, s: Pool, s': Pool, x: Item, next: nat)
    requires WellFormed(c) && RangesOk(c, s) && SlotsOk(c, s) && Counts(c, s) && HeaderChange(c, s, s', x, next, false)
    requires x in s.live && s'.live == s.live - {x} && x.base in s'.headers
    requires |s'.free| == |s.free| + 1 && Used(c, s.headers[x.base]) == Used(c, s'.headers[x.base])
    ensures RangesOk(c, s') && SlotsOk(c, s') && Counts(c, s')
  {
    HeaderSlots(c, s, s', x, next, false);
    HeaderTotals(c, s, s', x, next, false);
    RemoveOne(s.live, x);
  }

  lemma ReuseKeepsChain(c: Config, s: Pool, s': Pool, x: Item)
    requires WellFormed(c) && Chain(c, s) && PoisonOk(c, s) && Reuse(c, s, s', x)
    ensures Chain(c, s') && PoisonOk(c, s')
  {
    assert s.free == [x] + s'.free;
  }

  lemma ReuseKeepsList(c: Config, s: Pool, s': Pool, x: Item)
    requires WellFormed(c) && HeadersOk(c, s) && Partition(c, s) && Chain(c, s) && PoisonOk(c, s) && Reuse(c, s, s', x)
    ensures HeadersOk(c, s') && Partition(c, s') && Chain(c, s') && PoisonOk(c, s') && x !in s.live
    ensures x.base in s'.headers && Used(c, s'.headers[x.base]) == Used(c, s.headers[x.base])
  {
    hide Chain, PoisonOk;
    ReuseKeepsChain(c, s, s', x);
    SameUse(c, s, s', x, true);
    assert s.free == [x] + s'.free;
  }

  lemma ReuseKeepsInv(c: Config, s: Pool, s': Pool, x: Item)
    requires WellFormed(c) && Inv(c, s) && Reuse(c, s, s', x)
    ensures Inv(c, s')
  {
    ReuseKeepsList(c, s, s', x);
    TakeSlot(c, s, s', x, s.headers[x.base].nextUnused);
  }

  lemma BumpUse(c: Config, s: Pool, s': Pool, x: Item)
    requires WellFormed(c) && RangesOk(c, s) && HeadersOk(c, s) && Bump(c, s, s', x)
    ensures HeadersOk(c, s') && !InUse(c, s, x) && forall y :: InUse(c, s', y) <==> y == x || InUse(c, s, y)
    ensures x.base in s'.headers && Used(c, s'.headers[x.base]) == Used(c, s.headers[x.base]) + 1
  {
    RoomLeft(c, x.idx);
    PagesAligned(x.idx + 1, c.itemOrder);
  }

  lemma BumpKeepsList(c: Config, s: Pool, s': Pool, x: Item)
    requires WellFormed(c) && RangesOk(c, s) && HeadersOk(c, s) && Partition(c, s) && Chain(c, s) && Bump(c, s, s', x)
    ensures HeadersOk(c, s') && Partition(c, s') && Chain(c, s') && PoisonOk(c, s') && x !in s.live
    ensures x.base in s'.headers && Used(c, s'.headers[x.base]) == Used(c, s.headers[x.base]) + 1
  {
    BumpUse(c, s, s', x);
  }

  lemma BumpSlot(c: Config, s: Pool, s': Pool, x: Item)
    requires WellFormed(c) && RangesOk(c, s) && SlotsOk(c, s) && Counts(c, s) && Bump(c, s, s', x) && x !in s.live
    requires x.base in s'.headers && Used(c, s'.headers[x.base]) == Used(c, s.headers[x.base]) + 1
    ensures RangesOk(c, s') && SlotsOk(c, s') && Counts(c, s')
  {
    TakeSlot(c, s, s', x, s.headers[x.base].nextUnused + ItemLen(c));
  }

  lemma BumpKeepsInv(c: Config, s: Pool, s': Pool, x: Item)
    requires WellFormed(c) && Inv(c, s) && Bump(c, s, s', x)
    ensures Inv(c, s')
  {
    BumpKeepsList(c, s, s', x);
    BumpSlot(c, s, s', x);
  }

  lemma {:induction false} TotalCons(base: nat, ranges: seq<nat>, f: nat -> nat)
    ensures Total([base] + ranges, f) == f(base) + Total(ranges, f)
  {
    assert ([base] + ranges)[1..] == ranges;
  }

  lemma ExtendHeaders(c: Config, s: Pool, s': Pool, base: nat, bitmap: seq<nat>)
    requires WellFormed(c) && RangesOk(c, s) && HeadersOk(c, s) && Extend(c, s, s', base, bitmap)
    ensures HeadersOk(c, s') && base !in s.ranges && Used(c, s'.headers[base]) == 0
  {
    hide WellFormed;
    PagesAligned(0, c.itemOrder);
    assert forall i :: 0 < i < |s'.ranges| ==> s'.ranges[i] == s.ranges[i - 1];
    assert forall i :: 0 <= i < |s.ranges| ==> s.ranges[i] in s.headers;
  }

  lemma ExtendRanges(c: Config, s: Pool, s': Pool, base: nat, bitmap: seq<nat>)
    requires WellFormed(c) && RangesOk(c, s) && HeadersOk(c, s) && Extend(c, s, s', base, bitmap)
    ensures RangesOk(c, s') && HeadersOk(c, s') && base !in s.ranges
    ensures Used(c, s'.headers[base]) == 0 && forall y :: InUse(c, s', y) <==> InUse(c, s, y)
  {
    ExtendHeaders(c, s, s', base, bitmap);
    hide WellFormed, HeadersOk, Used;
    assert forall i :: 0 < i < |s'.ranges| ==> s'.ranges[i] == s.ranges[i - 1];
    assert forall b :: b in s'.ranges <==> b == base || b in s.ranges;
  }

  lemma ExtendTotals(c: Config, s: Pool, s': Pool, base: nat, bitmap: seq<nat>)
    requires WellFormed(c) && RangesOk(c, s) && Extend(c, s, s', base, bitmap)
    requires Used(c, s'.headers[base]) == 0
    ensures Total(s'.ranges, UsedOf(c, s')) == Total(s.ranges, UsedOf(c, s))
    ensures c.robust ==> Total(s'.ranges, WeightOf(s')) == Total(s.ranges, WeightOf(s))
  {
    TotalCons(base, s.ranges, UsedOf(c, s'));
    TotalCons(base, s.ranges, WeightOf(s'));
    TotalSame(s.ranges, UsedOf(c, s), UsedOf(c, s'));
    TotalSame(s.ranges, WeightOf(s), WeightOf(s'));
  }

  lemma ExtendSlots(c: Config, s: Pool, s': Pool, base: nat, bitmap: seq<nat>)
    requires WellFormed(c) && RangesOk(c, s) && Partition(c, s) && SlotsOk(c, s) && Extend(c, s, s', base, bitmap)
    requires base !in s.ranges
    ensures SlotsOk(c, s')
  {
    forall i: nat ensures Item(base, i) !in s.live {
      assert !InUse(c, s, Item(base, i));
    }
  }

  lemma ExtendKeepsInv(c: Config, s: Pool, s': Pool, base: nat, bitmap: seq<nat>)
    requires WellFormed(c) && Inv(c, s) && Extend(c, s, s', base, bitmap)
    ensures Inv(c, s')
  {
    ExtendRanges(c, s, s', base, bitmap);
    ExtendTotals(c, s, s', base, bitmap);
    ExtendSlots(c, s, s', base, bitmap);
    ExtendList(c, s, s', base, bitmap);
  }

  lemma ExtendList(c: Config, s: Pool, s': Pool, base: nat, bitmap: seq<nat>)
    requires WellFormed(c) && Chain(c, s) && PoisonOk(c, s) && Extend(c, s, s', base, bitmap)
    ensures Chain(c, s') && PoisonOk(c, s')
  {
  }

  // A freed item keeps its poison while another item changes.
  lemma PoisonFrame(c: Config, m: Memory, m': Memory, x: Item, y: Item)
    requires WellFormed(c) && SameElsewhere(c, m, m', x) && x != y && Poisoned(c, m, y)
    ensures Poisoned(c, m', y)
  {
    var span := ItemSpan(c, y);
    forall l | Inside(span, l) ensures !OfItem(c, l, x) { SpanIsItem(c, y, l); }
    forall cpu: nat | cpu < c.nCpus ensures CpuHolds(m', WordPageOrder(c), cpu, span, c.poison) {
      assert CpuHolds(m, WordPageOrder(c), cpu, span, c.poison);
    }
  }

  lemma ReleaseChain(c: Config, s: Pool, s': Pool, x: Item)
    requires WellFormed(c) && Partition(c, s) && Chain(c, s) && Release(c, s, s', x)
    ensures Chain(c, s')
  {
    forall i | 0 <= i < |s'.free| ensures ReadLink(c, s', LinkLoc(c, s'.free[i])) == NodeOf(c, s'.free, i + 1) {
      if i > 0 {
        assert s'.free[i] == s.free[i - 1];
        LinkOfItem(c, s.free[i - 1]);
      }
    }
  }

  lemma ReleasePartition(c: Config, s: Pool, s': Pool, x: Item)
    requires WellFormed(c) && HeadersOk(c, s) && Partition(c, s) && Release(c, s, s', x)
    ensures HeadersOk(c, s') && Partition(c, s')
    ensures x.base in s'.headers && Used(c, s'.headers[x.base]) == Used(c, s.headers[x.base])
  {
    SameUse(c, s, s', x, false);
    assert forall i :: 0 < i < |s'.free| ==> s'.free[i] == s.free[i - 1];
    assert forall y :: y in s'.free <==> y == x || y in s.free;
  }

  lemma ReleasePoison(c: Config, s: Pool, s': Pool, x: Item)
    requires WellFormed(c) && Partition(c, s) && PoisonOk(c, s) && Release(c, s, s', x)
    ensures PoisonOk(c, s')
  {
    forall y | c.robust && y in s'.free ensures Poisoned(c, s'.mem, y) {
      if y != x {
        assert y in s.free;
        PoisonFrame(c, s.mem, s'.mem, x, y);
      }
    }
  }

  lemma ReleaseKeepsInv(c: Config, s: Pool, s': Pool, x: Item)
    requires WellFormed(c) && Inv(c, s) && Release(c, s, s', x)
    ensures Inv(c, s')
  {
    ReleaseChain(c, s, s', x);
    ReleasePartition(c, s, s', x);
    ReleasePoison(c, s, s', x);
    var next := s.headers[x.base].nextUnused;
    GiveSlot(c, s, s', x, next);
  }

  lemma StoreKeepsList(c: Config, s: Pool, s': Pool, x: Item)
    requires WellFormed(c) && Partition(c, s) && Chain(c, s) && PoisonOk(c, s) && Store(c, s, s', x)
    ensures Chain(c, s') && PoisonOk(c, s')
  {
    forall i | 0 <= i < |s.free|
      ensures ReadLink(c, s', LinkLoc(c, s.free[i])) == ReadLink(c, s, LinkLoc(c, s.free[i]))
    {
      LinkOfItem(c, s.free[i]);
    }
    forall y | c.robust && y in s.free ensures Poisoned(c, s'.mem, y) {
      PoisonFrame(c, s.mem, s'.mem, x, y);
    }
  }

  lemma StoreKeepsInv(c: Config, s: Pool, s': Pool, x: Item)
    requires WellFormed(c) && Inv(c, s) && Store(c, s, s', x)
    ensures Inv(c, s')
  {
    StoreKeepsList(c, s, s', x);
    TotalSame(s.ranges, UsedOf(c, s), UsedOf(c, s'));
    TotalSame(s.ranges, WeightOf(s), WeightOf(s'));
  }

  // ---- Runs --------------------------------------------------------------------------

  datatype Move = Reused(x: Item) | Bumped(x: Item) | Extended(base: nat, bitmap: seq<nat>)
                | Released(x: Item) | Stored(x: Item)

  ghost predicate Step(c: Config, s: Pool, s': Pool, move: Move)
    requires WellFormed(c)
  {
    match move
    case Reused(x) => Reuse(c, s, s', x)
    case Bumped(x) => Bump(c, s, s', x)
    case Extended(base, bitmap) => Extend(c, s, s', base, bitmap)
    case Released(x) => Release(c, s, s', x)
    case Stored(x) => Store(c, s, s', x)
  }

  // A pool as it is before its first range exists; its memory holds anything.
  ghost predicate Initial(s: Pool) {
    s.ranges == [] && s.headers == map[] && s.nrRanges == 0 && s.freeHead == 0 && s.live == {} && s.free == []
  }

  ghost predicate IsRun(c: Config, run: seq<Pool>, moves: seq<Move>)
    requires WellFormed(c)
  {
    && |run| == |moves| + 1 && Initial(run[0])
    && forall i :: 0 <= i < |moves| ==> Step(c, run[i], run[i + 1], moves[i])
  }

  lemma StepKeepsInv(c: Config, s: Pool, s': Pool, move: Move)
    requires WellFormed(c) && Inv(c, s) && Step(c, s, s', move)
    ensures Inv(c, s')
  {
    match move
    case Reused(x) => ReuseKeepsInv(c, s, s', x);
    case Bumped(x) => BumpKeepsInv(c, s, s', x);
    case Extended(base, bitmap) => ExtendKeepsInv(c, s, s', base, bitmap);
    case Released(x) => ReleaseKeepsInv(c, s, s', x);
    case Stored(x) => StoreKeepsInv(c, s, s', x);
  }

  lemma InitialInv(c: Config, s: Pool)
    requires WellFormed(c) && Initial(s)
    ensures Inv(c, s)
  {
  }

  /** Over every run of malloc, free, range creation and stores inside live items, the
      invariant holds in every state. */
  lemma {:induction false} RunKeepsInv(c: Config, run: seq<Pool>, moves: seq<Move>, i: nat)
    requires WellFormed(c) && IsRun(c, run, moves) && i < |run|
    ensures Inv(c, run[i])
  {
    hide Inv, Step, Initial;
    if i == 0 {
      InitialInv(c, run[0]);
    } else {
      RunKeepsInv(c, run, moves, i - 1);
      StepKeepsInv(c, run[i - 1], run[i], moves[i - 1]);
    }
  }

  // ---- What the invariant means --------------------------------------------------------

  /** Any two items in use, live or freed, have disjoint bytes in every pair of blocks: the
      same address is the same byte of the same item in the same block. */
  lemma ItemsAreDisjoint(c: Config, s: Pool, x: Item, i: nat, d: nat, y: Item, j: nat, e: nat)
    requires WellFormed(c) && Inv(c, s) && InUse(c, s, x) && InUse(c, s, y)
    requires i < Blocks(c) && j < Blocks(c) && d < ItemLen(c) && e < ItemLen(c)
    ensures Address(c, x.base, i, ItemOffset(c, x.idx) + d) == Address(c, y.base, j, ItemOffset(c, y.idx) + e)
            <==> x == y && i == j && d == e
  {
    var k := PositionOf(s, x.base);
    var l := PositionOf(s, y.base);
    BytesDisjoint(c, x, i, d, y, j, e);
  }

  /** The link of a freed item never overlaps a byte that a live item has on any CPU or in
      the init values. */
  lemma LinksSpareLiveItems(c: Config, s: Pool, x: Item, d: nat, y: Item, block: nat, e: nat)
    requires WellFormed(c) && Inv(c, s) && x in s.free && y in s.live && block < Blocks(c) && d < 8 && e < ItemLen(c)
    ensures d < ItemLen(c)
    ensures ToFreeList(c, Pointer(c, x)) + d != Address(c, y.base, block, ItemOffset(c, y.idx) + e)
  {
    PowMono(WORD_ORDER, c.itemOrder);
    assert Pow2(WORD_ORDER) == 8;
    Translations(c, 0, x.base, ItemOffset(c, x.idx));
    assert InUse(c, s, x) && InUse(c, s, y);
    ItemsAreDisjoint(c, s, x, LinkBlock(c), d, y, block, e);
  }

  // Items of a range that were never handed out, as the free-list check counts them.
  function NeverUsed(c: Config, h: Header): nat
    requires WellFormed(c)
  {
    High(if h.nextUnused <= Stride(c) then Stride(c) - h.nextUnused else 0, c.itemOrder)
  }

  lemma NeverUsedIs(c: Config, h: Header)
    requires WellFormed(c) && h.nextUnused == ItemOffset(c, Used(c, h)) && Used(c, h) <= Capacity(c)
    ensures h.nextUnused <= Stride(c) && NeverUsed(c, h) == Capacity(c) - Used(c, h)
  {
    StrideFits(c);
    SkipPages(Capacity(c), Used(c, h), ItemLen(c));
    PagesAligned(Capacity(c) - Used(c, h), c.itemOrder);
  }

  ghost function NeverOf(c: Config, s: Pool): nat -> nat
    requires WellFormed(c)
  {
    (b: nat) => if b in s.headers then NeverUsed(c, s.headers[b]) else 0
  }

  lemma {:induction false} TotalsAdd(c: Config, s: Pool, ranges: seq<nat>)
    requires WellFormed(c)
    requires forall i :: 0 <= i < |ranges| ==> NeverOf(c, s)(ranges[i]) + UsedOf(c, s)(ranges[i]) == Capacity(c)
    ensures Total(ranges, NeverOf(c, s)) + Total(ranges, UsedOf(c, s)) == |ranges| * Capacity(c)
  {
    if ranges != [] {
      TotalsAdd(c, s, ranges[1..]);
      assert |ranges| * Capacity(c) == (|ranges| - 1) * Capacity(c) + Capacity(c);
    }
  }

  /** In every reachable state the items of all ranges are never used, freed or live; and in
      robust pools the weights of the bitmaps count what is neither never used nor freed. */
  lemma ItemsAreAccountedFor(c: Config, s: Pool)
    requires WellFormed(c) && Inv(c, s)
    ensures |s.ranges| * Capacity(c) == Total(s.ranges, NeverOf(c, s)) + |s.free| + |s.live|
    ensures c.robust ==>
              Total(s.ranges, WeightOf(s)) == |s.ranges| * Capacity(c) - Total(s.ranges, NeverOf(c, s)) - |s.free|
  {
    forall i | 0 <= i < |s.ranges| ensures NeverOf(c, s)(s.ranges[i]) + UsedOf(c, s)(s.ranges[i]) == Capacity(c) {
      NeverUsedIs(c, s.headers[s.ranges[i]]);
    }
    TotalsAdd(c, s, s.ranges);
  }

  lemma {:induction false} TotalZero(ranges: seq<nat>, f: nat -> nat)
    requires forall i :: 0 <= i < |ranges| ==> f(ranges[i]) == 0
    ensures Total(ranges, f) == 0
  {
    if ranges != [] { TotalZero(ranges[1..], f); }
  }

  // Never-used items are all in the head range.
  lemma NeverUsedInHead(c: Config, s: Pool)
    requires WellFormed(c) && Inv(c, s)
    ensures Total(s.ranges, NeverOf(c, s)) == if s.ranges == [] then 0 else NeverOf(c, s)(s.ranges[0])
    ensures s.ranges != [] ==> NeverOf(c, s)(s.ranges[0]) == Capacity(c) - Used(c, s.headers[s.ranges[0]])
  {
    if s.ranges != [] {
      NeverUsedIs(c, s.headers[s.ranges[0]]);
      var rest := s.ranges[1..];
      forall i | 0 <= i < |rest| ensures NeverOf(c, s)(rest[i]) == 0 {
        assert rest[i] == s.ranges[i + 1];
        NeverUsedIs(c, s.headers[rest[i]]);
      }
      TotalZero(rest, NeverOf(c, s));
    }
  }

  // malloc finds no item when the free list is empty, the head is full and no range may be added.
  ghost predicate Exhausted(c: Config, s: Pool)
    requires WellFormed(c)
  {
    s.free == [] && Full(c, s) && LimitReached(c, s)
  }

  // An exhausted pool has its full number of live items.
  lemma ExhaustedIsFull(c: Config, s: Pool)
    requires WellFormed(c) && Inv(c, s) && c.maxRanges > 0 && Exhausted(c, s)
    ensures |s.live| == c.maxRanges * Capacity(c)
  {
    ItemsAreAccountedFor(c, s);
    NeverUsedInHead(c, s);
    assert |s.ranges| == c.maxRanges;
  }

  // r ranges of n items, less some, are R ranges of n items only when nothing is missing.
  lemma FullCount(r: nat, bound: nat, n: nat, never: nat, free: nat, live: nat)
    requires r <= bound && n >= 1 && r * n == never + free + live
    ensures live <= bound * n
    ensures live == bound * n ==> r == bound && never == 0 && free == 0
  {
    MulMono(r, bound, n);
    if r < bound {
      MulMono(r + 1, bound, n);
      assert (r + 1) * n == r * n + n;
    }
  }

  /** With a limit of R ranges, malloc is exhausted exactly when R * capacity items are live. */
  lemma ExactCapacity(c: Config, s: Pool)
    requires WellFormed(c) && Inv(c, s) && c.maxRanges > 0
    ensures Exhausted(c, s) <==> |s.live| == c.maxRanges * Capacity(c)
    ensures |s.live| <= c.maxRanges * Capacity(c)
  {
    if Exhausted(c, s) { ExhaustedIsFull(c, s); }
    FullIsExhausted(c, s);
  }

  // A pool with its full number of live items is exhausted, and no pool has more.
  lemma FullIsExhausted(c: Config, s: Pool)
    requires WellFormed(c) && Inv(c, s) && c.maxRanges > 0
    ensures |s.live| <= c.maxRanges * Capacity(c)
    ensures |s.live| == c.maxRanges * Capacity(c) ==> Exhausted(c, s)
  {
    ItemsAreAccountedFor(c, s);
    NeverUsedInHead(c, s);
    FullCount(|s.ranges|, c.maxRanges, Capacity(c), Total(s.ranges, NeverOf(c, s)), |s.free|, |s.live|);
  }
}
