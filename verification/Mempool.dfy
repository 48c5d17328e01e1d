/** The memory pool: creation, malloc, free and the checks of destroy, in place. */
module Mempool {
  import opened Bits
  import opened AlignedMmap
  import opened Layout
  import opened CowMemory
  import opened Bitmap
  import opened ItemFill
  import opened Pool
  import opened RangeMap
  import FreeListCheck

  /** What malloc does: it hands out a pointer, fails, aborts (a failed munmap or assertion), or
      goes on with a range that is not mapped in full. */
  datatype Outcome = Allocated(ptr: int) | NoMemory | Invalid | Aborted | Short

  ghost predicate SlotIs(bitmap: seq<nat>, i: nat, on: bool) { i / PER_WORD < |bitmap| && (IsSet(bitmap, i) <==> on) }

  // A bitmap for the items of a range in robust pools, none in others.
  ghost predicate BitmapOf(c: Config, bitmap: seq<nat>)
    requires WellFormed(c)
  {
    if c.robust then |bitmap| == Words(Capacity(c)) && AllWords(bitmap) else bitmap == []
  }

  /** Turn the slot of an item when there is a bitmap: set_alloc_slot and clear_alloc_slot.
      It fails, for the caller to abort, exactly when the slot is already turned. */
  method TurnSlot(c: Config, h: Header, off: nat, ghost i: nat, on: bool) returns (ok: bool, h': Header)
    requires WellFormed(c) && BitmapOf(c, h.bitmap) && i == High(off, c.itemOrder) < Capacity(c)
    ensures ok <==> (c.robust ==> SlotIs(h.bitmap, i, !on))
    ensures ok ==> HeaderTurned(c, h, h', i, h.nextUnused, on)
  {
    IndexInWords(Capacity(c), i);
    if h.bitmap == [] {
      return true, h;
    }
    var bitmap := h.bitmap;
    if on {
      ok, bitmap := SetSlot(h.bitmap, High(off, c.itemOrder));
    } else {
      ok, bitmap := ClearSlot(h.bitmap, High(off, c.itemOrder));
    }
    h' := h.(bitmap := bitmap);
  }

  // The words of the item at a byte offset.
  function SpanAt(c: Config, base: nat, off: nat): Span
    requires WellFormed(c)
  {
    Span(base, High(off, WORD_ORDER), High(off, WORD_ORDER) + WordsPerItem(c))
  }

  // The item that holds a per-CPU pointer.
  function ItemAt(c: Config, ptr: nat): Item
    requires Stride(c) <= WORD
  {
    Item(MaskBase(ptr, Stride(c)), High(MaskOffset(ptr, Stride(c)), c.itemOrder))
  }

  lemma UsedInRange(c: Config, s: Pool, x: Item)
    requires WellFormed(c) && Inv(c, s) && InUse(c, s, x)
    ensures InRange(c, x)
  {
    var k := PositionOf(s, x.base);
  }

  lemma LiveInRange(c: Config, s: Pool, x: Item)
    requires WellFormed(c) && Inv(c, s) && x in s.live
    ensures InRange(c, x)
  {
    assert InUse(c, s, x);
    UsedInRange(c, s, x);
  }

  // What the invariant says about the slot of an item of a range.
  lemma SlotOf(c: Config, s: Pool, x: Item)
    requires WellFormed(c) && SlotsOk(c, s) && x.base in s.ranges
    ensures x.base in s.headers && BitmapOf(c, s.headers[x.base].bitmap)
    ensures c.robust && x.idx < Capacity(c) ==> SlotIs(s.headers[x.base].bitmap, x.idx, x in s.live)
  {
    if c.robust {
      assert BitsOk(c, s.headers[x.base].bitmap, x.base, s.live);
      if x.idx < Capacity(c) { IndexInWords(Capacity(c), x.idx); }
    }
  }

  // What malloc and free compute from the pointer of an item.
  lemma Decoded(c: Config, x: Item)
    requires WellFormed(c) && InRange(c, x)
    ensures Stride(c) <= WORD && ToPercpu(c, ToFreeList(c, Pointer(c, x))) == Pointer(c, x)
    ensures Pointer(c, x) >= 0 && MaskBase(Pointer(c, x), Stride(c)) == x.base
    ensures Pointer(c, x) - x.base == ItemOffset(c, x.idx) && High(ItemOffset(c, x.idx), c.itemOrder) == x.idx
    ensures Loc(x.base, High(ItemOffset(c, x.idx), WORD_ORDER)) == LinkLoc(c, x)
    ensures SpanAt(c, x.base, ItemOffset(c, x.idx)) == ItemSpan(c, x)
  {
    PointerRecovers(c, x);
    LinkAtOffset(c, x);
  }

  /** Take an item off the free list: its pointer, the next node, and its slot turned on.
      In robust pools it fails when the item lost its poison or is already allocated. */
  method TakeNode(c: Config, mem: Memory, links: map<Loc, int>, headers: map<nat, Header>, node: int, ghost x: Item)
      returns (ok: bool, ptr: int, next: int, base: nat, h: Header)
    requires WellFormed(c) && InRange(c, x) && node == ToFreeList(c, Pointer(c, x))
    requires x.base in headers && BitmapOf(c, headers[x.base].bitmap)
    ensures base == x.base && ptr == Pointer(c, x) && next == LinkIn(c, mem, links, LinkLoc(c, x))
    ensures ok <==> (c.robust ==> Poisoned(c, mem, x) && SlotIs(headers[x.base].bitmap, x.idx, false))
    ensures ok ==> HeaderTurned(c, headers[x.base], h, x.idx, headers[x.base].nextUnused, true)
  {
    Decoded(c, x);
    ptr := ToPercpu(c, node);
    base := MaskBase(ptr, Stride(c));
    var off := ptr - base;
    next := LinkIn(c, mem, links, Loc(base, High(off, WORD_ORDER)));
    h := headers[base];
    if c.robust {
      ok := CheckItem(mem, WordPageOrder(c), c.nCpus, c.cowInit, SpanAt(c, base, off), c.poison);
      if !ok { return; }
    }
    ok, h := TurnSlot(c, headers[base], off, x.idx, true);
  }

  /** Poison a freed item and link it in front of head, wherever its link lives. */
  method PutNode(c: Config, mem: Memory, links: map<Loc, int>, ptr: nat, head: int, ghost x: Item)
      returns (mem': Memory, links': map<Loc, int>, node: int)
    requires WellFormed(c) && InRange(c, x) && ptr == Pointer(c, x)
    ensures node == ToFreeList(c, Pointer(c, x))
    ensures SameElsewhere(c, mem, mem', x) && (c.robust ==> Poisoned(c, mem', x)) && Scrubbed(c, mem, mem', x, head)
    ensures LinkIn(c, mem', links', LinkLoc(c, x)) == head
    ensures forall l :: !OfItem(c, l, x) ==> LinkIn(c, mem', links', l) == LinkIn(c, mem, links, l)
  {
    Decoded(c, x);
    var base := MaskBase(ptr, Stride(c));
    var off := ptr - base;
    mem', links' := mem, links;
    if c.poisonSet {
      mem' := SetItem(mem, WordPageOrder(c), c.nCpus, c.cowInit, SpanAt(c, base, off), c.poison);
    }
    OutsideIsElsewhere(c, mem, mem', x);
    ghost var poisoned := mem';
    PoisonScrubs(c, mem, poisoned, x);
    var l := Loc(base, High(off, WORD_ORDER));
    if c.robust {
      links' := links[l := head];
    } else if c.cowInit {
      mem' := StoreShared(mem', l, head);
    } else {
      mem' := StoreCpu(mem', WordPageOrder(c), 0, l, head);
    }
    LinkStored(c, mem, links, poisoned, mem', links', x, head);
    LinkScrubs(c, mem, poisoned, mem', x, head);
    node := ToFreeList(c, ptr);
  }

  // Every word of the item after it was poisoned, or left alone.
  lemma PoisonScrubs(c: Config, mem: Memory, poisoned: Memory, x: Item)
    requires WellFormed(c)
    requires if c.poisonSet then Holds(poisoned, WordPageOrder(c), c.nCpus, c.cowInit, ItemSpan(c, x), c.poison)
             else poisoned == mem
    ensures forall l :: OfItem(c, l, x) ==> WordScrubbed(c, mem, poisoned, l)
  {
    forall l | OfItem(c, l, x) ensures WordScrubbed(c, mem, poisoned, l) {
      SpanIsItem(c, x, l);
      forall cpu: nat | cpu < c.nCpus ensures View(poisoned, WordPageOrder(c), cpu, l) == ScrubbedView(c, mem, cpu, l) {
        assert c.poisonSet ==> CpuHolds(poisoned, WordPageOrder(c), cpu, ItemSpan(c, x), c.poison);
      }
    }
  }

  lemma HeaderTaken(c: Config, s: Pool, s': Pool, x: Item, next: nat, h: Header, on: bool)
    requires x.base in s.ranges && x.base in s.headers && s'.ranges == s.ranges && s'.nrRanges == s.nrRanges
    requires s'.headers == s.headers[x.base := h] && HeaderTurned(c, s.headers[x.base], h, x.idx, next, on)
    ensures HeaderChange(c, s, s', x, next, on)
  {
  }

  // The room test of malloc.
  lemma HeadHasRoom(c: Config, s: Pool)
    requires WellFormed(c) && Inv(c, s)
    ensures s.ranges != [] ==>
              && s.ranges[0] in s.headers
              && (s.headers[s.ranges[0]].nextUnused + ItemLen(c) > Stride(c) <==> Full(c, s))
  {
    if s.ranges != [] { RoomLeft(c, Used(c, s.headers[s.ranges[0]])); }
  }

  lemma ListEmpty(c: Config, s: Pool)
    requires WellFormed(c) && Inv(c, s)
    ensures s.freeHead == 0 <==> s.free == []
  {
    if s.free != [] {
      UsedInRange(c, s, s.free[0]);
      PointerRecovers(c, s.free[0]);
    }
  }

  // A link written behind the poison: what the links and the memory then hold.
  lemma LinkStored(c: Config, mem: Memory, links: map<Loc, int>, poisoned: Memory,
                   mem': Memory, links': map<Loc, int>, x: Item, head: int)
    requires WellFormed(c) && SameElsewhere(c, mem, poisoned, x) && (c.robust ==> Poisoned(c, poisoned, x))
    requires links' == (if c.robust then links[LinkLoc(c, x) := head] else links)
    requires mem' == if c.robust then poisoned
                     else if c.cowInit then StoreShared(poisoned, LinkLoc(c, x), head)
                     else StoreCpu(poisoned, WordPageOrder(c), 0, LinkLoc(c, x), head)
    ensures SameElsewhere(c, mem, mem', x) && (c.robust ==> Poisoned(c, mem', x))
    ensures LinkIn(c, mem', links', LinkLoc(c, x)) == head
    ensures forall l :: !OfItem(c, l, x) ==> LinkIn(c, mem', links', l) == LinkIn(c, mem, links, l)
  {
    LinkOfItem(c, x);
    forall cpu: nat, l { StoreCpuSees(poisoned, WordPageOrder(c), 0, LinkLoc(c, x), head, cpu, l); }
  }

  // What the link leaves of the poison.
  lemma LinkScrubs(c: Config, mem: Memory, poisoned: Memory, mem': Memory, x: Item, head: int)
    requires WellFormed(c) && forall l :: OfItem(c, l, x) ==> WordScrubbed(c, mem, poisoned, l)
    requires mem' == if c.robust then poisoned
                     else if c.cowInit then StoreShared(poisoned, LinkLoc(c, x), head)
                     else StoreCpu(poisoned, WordPageOrder(c), 0, LinkLoc(c, x), head)
    ensures Scrubbed(c, mem, mem', x, head)
  {
    var link := LinkLoc(c, x);
    LinkOfItem(c, x);
    assert WordScrubbed(c, mem, poisoned, link);
    forall l | OfItem(c, l, x) && (c.robust || l != link) ensures WordScrubbed(c, mem, mem', l) {
      assert WordScrubbed(c, mem, poisoned, l);
    }
  }

  /** The link memory as the free-list check reads it: one word per node of a used part,
      the links of the pool at the nodes of items, anything at other addresses. */
  ghost predicate Reflects(c: Config, s: Pool, memory: map<int, int>)
    requires WellFormed(c)
  {
    && FreeListCheck.LinkMemory(c, s, memory)
    && forall x :: InUse(c, s, x) ==> NodeHolds(memory, ToFreeList(c, Pointer(c, x)), ReadLink(c, s, LinkLoc(c, x)))
  }

  predicate NodeHolds(memory: map<int, int>, node: int, v: int) { node in memory ==> memory[node] == v }

  lemma UsedNodeInPool(c: Config, s: Pool, x: Item)
    requires WellFormed(c) && Inv(c, s) && InUse(c, s, x)
    ensures FreeListCheck.InPool(c, s, ToFreeList(c, Pointer(c, x))) && ToFreeList(c, Pointer(c, x)) != 0
  {
    UsedInRange(c, s, x);
    PointerRecovers(c, x);
    var k := PositionOf(s, x.base);
    OffsetBelow(c, x.idx, Used(c, s.headers[x.base]));
    assert FreeListCheck.InPart(s, s.ranges[k], Pointer(c, x));
  }

  lemma OffsetBelow(c: Config, i: nat, n: nat)
    ensures ItemOffset(c, i) < ItemOffset(c, n) <==> i < n
  {
    if i < n {
      MulMono(i + 1, n, ItemLen(c));
      assert (i + 1) * ItemLen(c) == i * ItemLen(c) + ItemLen(c);
    } else {
      MulMono(n, i, ItemLen(c));
    }
  }

  /** The free list of the pool is a list in the link memory. */
  lemma FreeListIsPath(c: Config, s: Pool, memory: map<int, int>) returns (nodes: seq<int>)
    requires WellFormed(c) && Inv(c, s) && Reflects(c, s, memory)
    ensures |nodes| == |s.free| && FreeListCheck.Path(memory, s.freeHead, nodes, 0)
  {
    hide RangesOk, HeadersOk, SlotsOk, PoisonOk, Counts, ToFreeList, Pointer, LinkIn;
    nodes := seq(|s.free|, (i: nat) => NodeOf(c, s.free, i));
    forall i | 0 <= i < |nodes|
      ensures nodes[i] != 0 && nodes[i] in memory && memory[nodes[i]] == FreeListCheck.NodeAt(nodes, 0, i + 1)
    {
      assert InUse(c, s, s.free[i]);
      UsedNodeInPool(c, s, s.free[i]);
      assert NodeHolds(memory, nodes[i], NodeOf(c, s.free, i + 1));
    }
  }

  // The check sees the ranges and headers only.
  lemma SameShape(c: Config, s: Pool, view: Pool)
    requires WellFormed(c) && Inv(c, s) && view.ranges == s.ranges && view.headers == s.headers
             && view.nrRanges == s.nrRanges
    ensures RangesOk(c, view) && HeadersOk(c, view) && Total(view.ranges, UsedOf(c, view)) == |s.live| + |s.free|
    ensures forall memory :: FreeListCheck.LinkMemory(c, s, memory) ==> FreeListCheck.LinkMemory(c, view, memory)
  {
    hide SlotsOk, PoisonOk, Chain, Partition, ToPercpu;
    TotalSame(s.ranges, UsedOf(c, s), UsedOf(c, view));
    forall n ensures FreeListCheck.InPool(c, s, n) <==> FreeListCheck.InPool(c, view, n) {
      var p := ToPercpu(c, n);
      assert forall i :: 0 <= i < |s.ranges| ==>
        (FreeListCheck.InPart(s, s.ranges[i], p) <==> FreeListCheck.InPart(view, s.ranges[i], p));
    }
  }

  /** In a reachable state the free-list check passes exactly when no item is live. */
  lemma ListPasses(c: Config, s: Pool, memory: map<int, int>, ok: bool, visited: seq<int>)
    requires WellFormed(c) && Inv(c, s) && Reflects(c, s, memory)
    requires ok ==> FreeListCheck.Path(memory, s.freeHead, visited, 0) && |visited| == |s.live| + |s.free|
    requires !ok ==> forall list: seq<int> :: |list| == |s.live| + |s.free| ==>
               !FreeListCheck.Path(memory, s.freeHead, list, 0)
    ensures ok <==> s.live == {}
  {
    var nodes := FreeListIsPath(c, s, memory);
    if ok {
      FreeListCheck.PathsAgree(memory, s.freeHead, visited, 0, nodes, |visited|);
    }
  }

  /** Zero the item of a pointer that malloc returned. */
  method ZeroItem(c: Config, mem: Memory, ptr: nat, ghost x: Item) returns (mem': Memory)
    requires WellFormed(c) && InRange(c, x) && ptr == Pointer(c, x)
    ensures SameElsewhere(c, mem, mem', x) && Holds(mem', WordPageOrder(c), c.nCpus, c.cowInit, ItemSpan(c, x), 0)
  {
    Decoded(c, x);
    var base := MaskBase(ptr, Stride(c));
    mem' := SetItem(mem, WordPageOrder(c), c.nCpus, c.cowInit, SpanAt(c, base, ptr - base), 0);
    OutsideIsElsewhere(c, mem, mem', x);
  }

  // The head of the free list, as malloc finds it.
  lemma FirstFree(c: Config, s: Pool) returns (x: Item)
    requires WellFormed(c) && Inv(c, s) && s.freeHead != 0
    ensures s.free != [] && x == s.free[0] && x !in s.live
            && InRange(c, x) && s.freeHead == ToFreeList(c, Pointer(c, x))
    ensures x.base in s.ranges && x.base in s.headers && BitmapOf(c, s.headers[x.base].bitmap)
    ensures c.robust ==> Poisoned(c, s.mem, x) && SlotIs(s.headers[x.base].bitmap, x.idx, false)
    ensures ReadLink(c, s, LinkLoc(c, x)) == NodeOf(c, s.free, 1)
  {
    x := s.free[0];
    assert InUse(c, s, x);
    UsedInRange(c, s, x);
    SlotOf(c, s, x);
  }

  // The next item of the head range.
  lemma NextUnused(c: Config, s: Pool) returns (x: Item)
    requires WellFormed(c) && Inv(c, s) && s.ranges != [] && !Full(c, s)
    ensures s.ranges[0] in s.headers && x == Item(s.ranges[0], Used(c, s.headers[s.ranges[0]])) && x.idx < Capacity(c)
    ensures s.ranges[0] + s.headers[s.ranges[0]].nextUnused == Pointer(c, x) && x !in s.live
    ensures BitmapOf(c, s.headers[x.base].bitmap) && (c.robust ==> SlotIs(s.headers[x.base].bitmap, x.idx, false))
  {
    x := Item(s.ranges[0], Used(c, s.headers[s.ranges[0]]));
    assert !InUse(c, s, x);
    SlotOf(c, s, x);
  }

  lemma IndexBelow(c: Config, ptr: nat)
    requires WellFormed(c) && Stride(c) <= WORD
    ensures ItemAt(c, ptr).idx < Capacity(c)
  {
    MaskLow(ptr, c.strideOrder);
    ItemOfOffset(c, MaskOffset(ptr, Stride(c)));
  }

  // A pool with a new range has room in it.
  lemma ExtendedHasRoom(c: Config, s: Pool, s': Pool, base: nat, bitmap: seq<nat>)
    requires WellFormed(c) && Extend(c, s, s', base, bitmap)
    ensures s'.ranges != [] && !Full(c, s') && s'.free == s.free
  {
    PagesAligned(0, c.itemOrder);
    assert s'.ranges[0] == base;
  }

  /** Take the next item that was never used: its offset, and the header behind it. */
  method TakeUnused(c: Config, h: Header, ghost i: nat) returns (ok: bool, off: nat, h': Header)
    requires WellFormed(c) && BitmapOf(c, h.bitmap) && i == Used(c, h) < Capacity(c)
    ensures off == h.nextUnused && (ok <==> (c.robust ==> SlotIs(h.bitmap, i, false)))
    ensures ok ==> HeaderTurned(c, h, h', i, h.nextUnused + ItemLen(c), true)
  {
    off := h.nextUnused;
    ok, h' := TurnSlot(c, h, off, i, true);
    h' := h'.(nextUnused := off + ItemLen(c));
  }

  // The pool after x was taken from the head range.
  lemma Taken(c: Config, s: Pool, s': Pool, x: Item, h: Header)
    requires WellFormed(c) && Inv(c, s) && s.free == [] && s.ranges != [] && s.ranges[0] in s.headers
    requires x == Item(s.ranges[0], Used(c, s.headers[s.ranges[0]])) && x.idx < Capacity(c)
    requires HeaderTurned(c, s.headers[x.base], h, x.idx, s.headers[x.base].nextUnused + ItemLen(c), true)
    requires s' == s.(headers := s.headers[x.base := h], live := s.live + {x})
    ensures Bump(c, s, s', x) && Inv(c, s')
  {
    HeaderTaken(c, s, s', x, s.headers[x.base].nextUnused + ItemLen(c), h, true);
    BumpKeepsInv(c, s, s', x);
  }

  // The pool after x was freed.
  lemma Freed(c: Config, s: Pool, s': Pool, x: Item, h: Header)
    requires WellFormed(c) && Inv(c, s) && x in s.live && x.base in s.ranges && x.base in s.headers
    requires s'.ranges == s.ranges && s'.nrRanges == s.nrRanges && s'.headers == s.headers[x.base := h]
    requires HeaderTurned(c, s.headers[x.base], h, x.idx, s.headers[x.base].nextUnused, false)
    requires s'.live == s.live - {x} && s'.free == [x] + s.free && s'.freeHead == ToFreeList(c, Pointer(c, x))
    requires SameElsewhere(c, s.mem, s'.mem, x) && (c.robust ==> Poisoned(c, s'.mem, x))
    requires Scrubbed(c, s.mem, s'.mem, x, s.freeHead)
    requires LinkIn(c, s'.mem, s'.links, LinkLoc(c, x)) == s.freeHead
    requires forall l :: !OfItem(c, l, x) ==> LinkIn(c, s'.mem, s'.links, l) == LinkIn(c, s.mem, s.links, l)
    ensures Release(c, s, s', x) && Inv(c, s')
  {
    HeaderTaken(c, s, s', x, s.headers[x.base].nextUnused, h, false);
    ReleaseKeepsInv(c, s, s', x);
  }

  /** The poison check of a range with n used items: every one of them holds the poison. */
  method CheckRangePoison(c: Config, mem: Memory, base: nat, nextUnused: nat, ghost n: nat) returns (ok: bool)
    requires WellFormed(c) && nextUnused == ItemOffset(c, n)
    ensures ok <==> forall i: nat :: i < n ==> Poisoned(c, mem, Item(base, i))
  {
    var off := 0;
    ghost var i := 0;
    while off < nextUnused
      invariant i <= n && off == ItemOffset(c, i)
      invariant forall j: nat :: j < i ==> Poisoned(c, mem, Item(base, j))
      decreases n - i
    {
      OffsetBelow(c, i, n);
      LinkAtOffset(c, Item(base, i));
      ok := CheckItem(mem, WordPageOrder(c), c.nCpus, c.cowInit, SpanAt(c, base, off), c.poison);
      if !ok { return; }
      RoomLeft(c, i);
      off := off + ItemLen(c);
      i := i + 1;
    }
    OffsetBelow(c, i, n);
    return true;
  }

  // The item that a pointer into a range names, and whether its slot is set.
  lemma NamedItem(c: Config, s: Pool, ptr: nat) returns (x: Item)
    requires WellFormed(c) && Inv(c, s) && Stride(c) <= WORD && MaskBase(ptr, Stride(c)) in s.ranges
    ensures x == ItemAt(c, ptr) && x.base in s.headers && x.idx < Capacity(c) && BitmapOf(c, s.headers[x.base].bitmap)
    ensures c.robust ==> SlotIs(s.headers[x.base].bitmap, x.idx, x in s.live)
    ensures x in s.live ==> InRange(c, x)
  {
    x := ItemAt(c, ptr);
    IndexBelow(c, ptr);
    SlotOf(c, s, x);
    if x in s.live {
      assert InUse(c, s, x);
      UsedInRange(c, s, x);
    }
  }

  class Mempool {
    const c: Config
    var ranges: seq<nat>
    var headers: map<nat, Header>
    var nrRanges: nat
    var freeHead: int
    var mem: Memory
    var links: map<Loc, int>
    ghost var live: set<Item>
    ghost var free: seq<Item>

    ghost function State(): Pool
      reads this
    {
      Pool(ranges, headers, nrRanges, freeHead, mem, links, live, free)
    }

    ghost predicate Valid()
      reads this
    {
      WellFormed(c) && Inv(c, State())
    }

    constructor (c: Config, mem: Memory)
      requires WellFormed(c)
      ensures Valid() && this.c == c && Initial(State())
    {
      this.c, this.ranges, this.headers, this.nrRanges, this.freeHead := c, [], map[], 0, 0;
      this.mem, this.links, this.live, this.free := mem, map[], {}, [];
    }

    /** Create a range and put it at the head of the list. */
    method CreateRange(sys: System) returns (r: Mapping)
      requires Valid() && Full(c, State()) && MappedApart(c, State(), sys)
      modifies this
      ensures Valid()
      ensures r.Died? <==> old(RangeAborts(c, State(), sys))
      ensures r.PartlyMapped? <==> old(RangeShort(c, State(), sys))
      ensures r.Failed? <==> old(RangeFails(c, State(), sys))
      ensures !r.Ranged? ==> State() == old(State())
      ensures r.Ranged? ==>
                RangeFits(c) && r.base in headers && Extend(c, old(State()), State(), r.base, headers[r.base].bitmap)
    {
      hide Inv, Fresh, Full, MappedApart, MapDies, MapShort, MapFails, RangeFits, Weight, IsSet;
      if c.maxRanges > 0 && nrRanges >= c.maxRanges { return Failed; }
      ghost var s := State();
      r := MapRange(c, s, sys);
      if !r.Ranged? { return; }
      var base := r.base;
      var bitmap := [];
      if c.robust { bitmap := Bitmap.Create(Capacity(c)); }
      ranges, nrRanges, headers := [base] + ranges, nrRanges + 1, headers[base := Header(0, bitmap)];
      assert State() == s.(ranges := [base] + s.ranges, nrRanges := s.nrRanges + 1,
                        headers := s.headers[base := Header(0, bitmap)]);
      ExtendKeepsInv(c, s, State(), base, bitmap);
    }

    // malloc from the free list.
    method MallocReuse() returns (r: Outcome, ghost x: Item)
      requires Valid() && freeHead != 0
      modifies this
      ensures Valid() && Reuse(c, old(State()), State(), x) && r == Allocated(Pointer(c, x))
    {
      hide Inv, HeaderTurned, HeaderChange, Poisoned, BitmapOf, SlotIs, LinkIn;
      ghost var s := State();
      x := FirstFree(c, s);
      var ok, ptr, next, base, h := TakeNode(c, mem, links, headers, freeHead, x);
      assert ok;  // the poison was intact and the slot clear: no abort
      freeHead := next;
      headers := headers[base := h];
      live, free := live + {x}, free[1..];
      HeaderTaken(c, s, State(), x, s.headers[base].nextUnused, h, true);
      ReuseKeepsInv(c, s, State(), x);
      r := Allocated(ptr);
    }

    // malloc from the head range, which has room.
    method MallocBump() returns (r: Outcome, ghost x: Item)
      requires Valid() && free == [] && ranges != [] && !Full(c, State())
      modifies this
      ensures Valid() && Bump(c, old(State()), State(), x) && r == Allocated(Pointer(c, x))
    {
      hide Inv, Bump, HeaderTurned, SlotIs, BitmapOf, Full;
      ghost var s := State();
      x := NextUnused(c, s);
      var base := ranges[0];
      var ok, off, h := TakeUnused(c, headers[base], x.idx);
      assert ok;  // the slot was clear: no abort
      Advance(base, h, x);
      r := Allocated(base + off);
    }

    // The head range with its next item taken.
    method Advance(base: nat, h: Header, ghost x: Item)
      requires Valid() && free == [] && ranges != [] && base == ranges[0] && base in headers
      requires x == Item(base, Used(c, headers[base])) && x.idx < Capacity(c)
      requires HeaderTurned(c, headers[base], h, x.idx, headers[base].nextUnused + ItemLen(c), true)
      modifies this
      ensures Valid() && Bump(c, old(State()), State(), x)
    {
      hide Inv, Bump, HeaderTurned;
      ghost var s := State();
      headers, live := headers[base := h], live + {x};
      Taken(c, s, State(), x, h);
    }

    /** malloc: the pointer of an item that was not live, from the free list first, then
        from the head range, then from a new range; no memory exactly when the list is
        empty, the head is full and no range can be added. It aborts only when a munmap or the
        assertion fails while a range is created: it never raises an alarm. A range that is not
        mapped in full can come only of a configuration that does not fit (`MapShort`). */
    method Malloc(initLen: nat, sys: System) returns (r: Outcome, ghost x: Item)
      requires Valid() && MappedApart(c, State(), sys)
      modifies this
      ensures Valid()
      ensures r.Invalid? <==> initLen > ItemLen(c)
      ensures r.NoMemory? <==> initLen <= ItemLen(c) && old(NeedsRange(c, State()) && RangeFails(c, State(), sys))
      ensures r.Aborted? <==> initLen <= ItemLen(c) && old(NeedsRange(c, State()) && RangeAborts(c, State(), sys))
      ensures r.Short? <==> initLen <= ItemLen(c) && old(NeedsRange(c, State()) && RangeShort(c, State(), sys))
      ensures !r.Allocated? ==> State() == old(State())
      ensures r.Allocated? ==>
                && r.ptr == Pointer(c, x) && x !in old(live) && live == old(live) + {x}
                && (if old(free) == [] then free == [] else x == old(free)[0] && free == old(free)[1..])
                && mem == old(mem) && links == old(links)
    {
      x := Item(0, 0);
      if initLen > ItemLen(c) { return Outcome.Invalid, x; }
      if freeHead != 0 {
        r, x := MallocReuse();
        return;
      }
      ghost var s := State();
      ListEmpty(c, s);
      HeadHasRoom(c, s);
      if ranges == [] || headers[ranges[0]].nextUnused + ItemLen(c) > Stride(c) {
        var created := CreateRange(sys);
        match created {
          case Died => return Outcome.Aborted, x;
          case PartlyMapped(_, _) => return Outcome.Short, x;
          case Failed => return Outcome.NoMemory, x;
          case Ranged(base) => ExtendedHasRoom(c, s, State(), base, headers[base].bitmap);
        }
      }
      r, x := MallocBump();
    }

    /** zmalloc: as malloc, and every CPU and the init values then see the new item zeroed,
        while nobody sees another item change. */
    method Zmalloc(sys: System) returns (r: Outcome, ghost x: Item)
      requires Valid() && MappedApart(c, State(), sys)
      modifies this
      ensures Valid() && !r.Invalid?
      ensures r.NoMemory? <==> old(NeedsRange(c, State()) && RangeFails(c, State(), sys))
      ensures r.Aborted? <==> old(NeedsRange(c, State()) && RangeAborts(c, State(), sys))
      ensures r.Short? <==> old(NeedsRange(c, State()) && RangeShort(c, State(), sys))
      ensures !r.Allocated? ==> State() == old(State())
      ensures r.Allocated? ==>
                && r.ptr == Pointer(c, x) && x !in old(live) && live == old(live) + {x}
                && SameElsewhere(c, old(mem), mem, x)
                && Holds(mem, WordPageOrder(c), c.nCpus, c.cowInit, ItemSpan(c, x), 0)
    {
      hide Inv, MappedApart, RangeFails, RangeAborts, RangeShort, SameElsewhere, Holds;
      r, x := Malloc(0, sys);
      if r.Allocated? {
        ghost var s := State();
        LiveInRange(c, s, x);
        mem := ZeroItem(c, mem, r.ptr, x);
        StoreKeepsInv(c, s, State(), x);
      }
    }

    /** The double-free test, for any pointer into a range: in a robust pool it fails exactly
        when the item that holds the pointer is not live. A pointer inside a live item, away
        from its start, passes. */
    method ClearAllocSlot(ptr: nat) returns (aborted: bool, h: Header, ghost x: Item)
      requires Valid() && Stride(c) <= WORD && MaskBase(ptr, Stride(c)) in ranges
      ensures x == ItemAt(c, ptr) && x.base in headers && (aborted <==> c.robust && x !in live)
      ensures x in live ==> InRange(c, x)
      ensures !aborted ==> HeaderTurned(c, headers[x.base], h, x.idx, headers[x.base].nextUnused, false)
    {
      x := NamedItem(c, State(), ptr);
      hide Valid;
      h := headers[MaskBase(ptr, Stride(c))];
      var ok, h' := TurnSlot(c, h, MaskOffset(ptr, Stride(c)), x.idx, false);
      aborted, h := !ok, h';
    }

    /** free: in a robust pool it aborts exactly when the item that holds the pointer is not
        live; otherwise the item leaves the live ones and heads the free list. */
    method Free(ptr: nat) returns (aborted: bool, ghost x: Item)
      requires Valid() && Stride(c) <= WORD && MaskBase(ptr, Stride(c)) in ranges
      requires ptr == Pointer(c, ItemAt(c, ptr)) || (c.robust && ItemAt(c, ptr) !in live)
      requires !c.robust ==> ItemAt(c, ptr) in live
      modifies this
      ensures Valid() && x == ItemAt(c, ptr)
      ensures aborted <==> x !in old(live)
      ensures aborted ==> State() == old(State())
      ensures !aborted ==> Release(c, old(State()), State(), x)
    {
      hide Valid, Release, HeaderTurned;
      var h;
      aborted, h, x := ClearAllocSlot(ptr);
      if aborted { return; }
      Recycle(ptr, MaskBase(ptr, Stride(c)), h, x);
    }

    // The rest of free, once the slot of the item is cleared.
    method Recycle(ptr: nat, base: nat, h: Header, ghost x: Item)
      requires Valid() && x in live && InRange(c, x) && ptr == Pointer(c, x)
               && base == x.base && base in ranges && base in headers
      requires HeaderTurned(c, headers[base], h, x.idx, headers[base].nextUnused, false)
      modifies this
      ensures Valid() && Release(c, old(State()), State(), x)
    {
      hide Inv, Release, SameElsewhere, Poisoned, HeaderTurned, LinkIn;
      ghost var s := State();
      headers := headers[base := h];
      mem, links, freeHead := PutNode(c, mem, links, ptr, freeHead, x);
      live, free := live - {x}, [x] + free;
      Freed(c, s, State(), x, h);
    }

    /** A client's store to its own CPU's copy of a live item. */
    method StoreToCpu(ghost x: Item, cpu: nat, l: Loc, v: int)
      requires Valid() && x in live && OfItem(c, l, x)
      modifies this
      ensures Valid() && State() == old(State()).(mem := mem)
      ensures forall cpu': nat, l' :: View(mem, WordPageOrder(c), cpu', l')
                == if cpu' == cpu && l' == l then v else View(old(mem), WordPageOrder(c), cpu', l')
    {
      ghost var s := State();
      mem := StoreCpu(mem, WordPageOrder(c), cpu, l, v);
      forall cpu': nat, l' { StoreCpuSees(s.mem, WordPageOrder(c), cpu, l, v, cpu', l'); }
      StoreKeepsInv(c, s, State(), x);
    }

    /** A store to the init values of a live item, while it is initialised. */
    method StoreToInit(ghost x: Item, l: Loc, v: int)
      requires Valid() && x in live && OfItem(c, l, x)
      modifies this
      ensures Valid() && State() == old(State()).(mem := mem)
      ensures Get(mem.shared, l) == v && forall l' :: l' != l ==> Get(mem.shared, l') == Get(old(mem).shared, l')
    {
      ghost var s := State();
      mem := StoreShared(mem, l, v);
      StoreKeepsInv(c, s, State(), x);
    }

    /** The free-list and poison checks that destroy makes of an accessible robust pool, whatever
        the memory now holds where it should be as in `good`: they pass exactly when nothing
        leaked and every freed item has its poison. */
    method DestroyChecks(memory: map<int, int>, ghost good: Memory) returns (ok: bool)
      requires WellFormed(c) && c.robust && Inv(c, State().(mem := good)) && Reflects(c, State().(mem := good), memory)
      ensures ok <==> live == {} && forall x :: x in free ==> Poisoned(c, mem, x)
    {
      ghost var s := State().(mem := good);
      var view := Pool(ranges, headers, nrRanges, freeHead, mem, links, {}, []);
      SameShape(c, s, view);
      var linked, visited := FreeListCheck.CheckFreeList(c, view, memory, freeHead);
      ListPasses(c, s, memory, linked, visited);
      if !linked { return false; }
      hide Inv, Reflects, Poisoned;
      ok := CheckPoolPoison(s);
      if ok { PoolPoison(c, s, mem); }
    }

    // The poison of all used items of a pool without leaks.
    method CheckPoolPoison(ghost s: Pool) returns (ok: bool)
      requires WellFormed(c) && Inv(c, s) && s.ranges == ranges && s.headers == headers && s.live == {}
      ensures ok ==> forall j :: 0 <= j < |ranges| ==> RangePoisoned(c, s, mem, ranges[j])
      ensures !ok ==> exists x :: x in s.free && !Poisoned(c, mem, x)
    {
      hide Inv, Poisoned;
      var i := 0;
      while i < |ranges|
        invariant 0 <= i <= |ranges| && forall j :: 0 <= j < i ==> RangePoisoned(c, s, mem, ranges[j])
      {
        RangeIsUsed(c, s, ranges[i]);
        var intact := CheckRangePoison(c, mem, ranges[i], headers[ranges[i]].nextUnused, Used(c, headers[ranges[i]]));
        if !intact {
          DamagedIsFree(c, s, mem, ranges[i]);
          return false;
        }
        i := i + 1;
      }
      return true;
    }
  }

  // Every used item of a range has the poison.
  ghost predicate RangePoisoned(c: Config, s: Pool, mem: Memory, base: nat)
    requires WellFormed(c)
  {
    base in s.headers && forall i: nat :: i < Used(c, s.headers[base]) ==> Poisoned(c, mem, Item(base, i))
  }

  lemma RangeIsUsed(c: Config, s: Pool, base: nat)
    requires WellFormed(c) && Inv(c, s) && base in s.ranges
    ensures base in s.headers && s.headers[base].nextUnused == ItemOffset(c, Used(c, s.headers[base]))
  {
    var k := PositionOf(s, base);
  }

  // Without leaks the used items are the freed ones.
  lemma DamagedIsFree(c: Config, s: Pool, mem: Memory, base: nat)
    requires WellFormed(c) && Inv(c, s) && s.live == {} && base in s.ranges && base in s.headers
    requires !RangePoisoned(c, s, mem, base)
    ensures exists x :: x in s.free && !Poisoned(c, mem, x)
  {
    var i: nat :| i < Used(c, s.headers[base]) && !Poisoned(c, mem, Item(base, i));
    assert InUse(c, s, Item(base, i));
  }

  lemma PoolPoison(c: Config, s: Pool, mem: Memory)
    requires WellFormed(c) && Inv(c, s) && forall j :: 0 <= j < |s.ranges| ==> RangePoisoned(c, s, mem, s.ranges[j])
    ensures forall x :: x in s.free ==> Poisoned(c, mem, x)
  {
    forall x | x in s.free ensures Poisoned(c, mem, x) {
      assert InUse(c, s, x);
      var k := PositionOf(s, x.base);
      assert RangePoisoned(c, s, mem, s.ranges[k]);
    }
  }

  // A live item has its bit set.
  lemma LiveHasSlot(c: Config, s: Pool, x: Item)
    requires WellFormed(c) && Inv(c, s) && c.robust && x in s.live
    ensures x.base in s.ranges && x.base in s.headers && SlotIs(s.headers[x.base].bitmap, x.idx, true)
  {
    assert InUse(c, s, x);
    UsedInRange(c, s, x);
    SlotOf(c, s, x);
  }

  /** The bitmap of a range weighs nothing exactly when none of its items is live. */
  lemma LeaksAreLive(c: Config, s: Pool, base: nat)
    requires WellFormed(c) && Inv(c, s) && base in s.ranges
    ensures base in s.headers && AllWords(s.headers[base].bitmap)
    ensures Weight(s.headers[base].bitmap) == 0 <==> !c.robust || forall x :: x in s.live ==> x.base != base
  {
    SlotOf(c, s, Item(base, 0));
    var bitmap := s.headers[base].bitmap;
    if c.robust {
      assert BitsOk(c, bitmap, base, s.live);
      WeightZero(bitmap);
      forall x | x in s.live && x.base == base ensures SlotIs(bitmap, x.idx, true) { LiveHasSlot(c, s, x); }
      if i: nat :| i / PER_WORD < |bitmap| && IsSet(bitmap, i) { assert Item(base, i) in s.live; }
    }
  }
}
