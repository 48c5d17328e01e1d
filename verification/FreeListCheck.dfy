/** The free-list check of a robust pool, on any contents of the link memory. */
module FreeListCheck {
  import opened Bits
  import opened AlignedMmap
  import opened Layout
  import opened Pool

  // Whether a per-CPU address lies in the used part of a range.
  ghost predicate InUsedPart(s: Pool, p: int) {
    exists i :: 0 <= i < |s.ranges| && InPart(s, s.ranges[i], p)
  }

  predicate InPart(s: Pool, base: nat, p: int) {
    base in s.headers && base <= p < base + s.headers[base].nextUnused
  }

  ghost predicate InPool(c: Config, s: Pool, node: int) { InUsedPart(s, ToPercpu(c, node)) }

  /** The words at the nodes of the used parts, whatever they hold. No other address can be read. */
  ghost predicate LinkMemory(c: Config, s: Pool, memory: map<int, int>) {
    forall n :: n in memory <==> InPool(c, s, n)
  }

  // The i-th node of a path that goes on at end.
  function NodeAt(path: seq<int>, end: int, i: nat): int { if i < |path| then path[i] else end }

  /** The nodes reached from head by following the links in memory; a list is a path that
      ends at NULL (0). */
  ghost predicate Path(memory: map<int, int>, head: int, path: seq<int>, end: int) {
    && head == NodeAt(path, end, 0)
    && forall i :: 0 <= i < |path| ==>
         path[i] != 0 && path[i] in memory && memory[path[i]] == NodeAt(path, end, i + 1)
  }

  /** Whether an address belongs to the pool: a walk over the ranges. */
  method PercpuAddrInPool(s: Pool, p: int) returns (found: bool)
    requires forall i :: 0 <= i < |s.ranges| ==> s.ranges[i] in s.headers
    ensures found <==> InUsedPart(s, p)
  {
    var i := 0;
    while i < |s.ranges|
      invariant 0 <= i <= |s.ranges|
      invariant forall j :: 0 <= j < i ==> !InPart(s, s.ranges[j], p)
    {
      var base := s.ranges[i];
      if base <= p && p < base + s.headers[base].nextUnused {
        assert InPart(s, s.ranges[i], p);
        return true;
      }
      i := i + 1;
    }
    return false;
  }

  /** Two paths from the same head agree: one that ends at NULL extends the other. */
  lemma {:induction false} PathsAgree(memory: map<int, int>, head: int, path: seq<int>, end: int,
                                   list: seq<int>, i: nat)
    requires Path(memory, head, path, end) && Path(memory, head, list, 0) && i <= |path|
    ensures i <= |list| && NodeAt(path, end, i) == NodeAt(list, 0, i)
  {
    if i > 0 { PathsAgree(memory, head, path, end, list, i - 1); }
  }

  /** A list that ends at NULL visits no node twice. */
  lemma {:induction false} ListIsAcyclic(memory: map<int, int>, head: int, list: seq<int>, i: nat, j: nat)
    requires Path(memory, head, list, 0) && i < j < |list|
    ensures list[i] != list[j]
    decreases |list| - j
  {
    if list[i] == list[j] && j + 1 < |list| {
      ListIsAcyclic(memory, head, list, i + 1, j + 1);
    }
  }

  // The totals the check compares: all items, and those never used.
  method CountItems(c: Config, s: Pool) returns (total: nat, never: nat)
    requires WellFormed(c) && RangesOk(c, s) && HeadersOk(c, s)
    ensures total == |s.ranges| * Capacity(c) && never == Total(s.ranges, NeverOf(c, s)) && never <= total
    ensures total - never == Total(s.ranges, UsedOf(c, s))
  {
    total, never := 0, 0;
    var i := 0;
    StrideFits(c);
    PagesAligned(Capacity(c), c.itemOrder);
    while i < |s.ranges|
      invariant 0 <= i <= |s.ranges| && total == i * Capacity(c)
      invariant never + Total(s.ranges[i..], NeverOf(c, s)) == Total(s.ranges, NeverOf(c, s))
    {
      total := total + High(Stride(c), c.itemOrder);
      never := never + NeverUsed(c, s.headers[s.ranges[i]]);
      assert s.ranges[i..][1..] == s.ranges[i + 1..];
      i := i + 1;
    }
    forall i | 0 <= i < |s.ranges| ensures NeverOf(c, s)(s.ranges[i]) + UsedOf(c, s)(s.ranges[i]) == Capacity(c) {
      NeverUsedIs(c, s.headers[s.ranges[i]]);
    }
    TotalsAdd(c, s, s.ranges);
  }

  // One more node of a path.
  lemma PathGrows(memory: map<int, int>, head: int, path: seq<int>, node: int)
    requires Path(memory, head, path, node) && node != 0 && node in memory
    ensures Path(memory, head, path + [node], memory[node])
  {
  }

  /** The check, for any contents of the link words: it follows nodes of the used
      parts only, terminates, and passes exactly when the links form a NULL-terminated list
      of as many nodes as there are used items. Visited are the nodes it followed. */
  method CheckFreeList(c: Config, s: Pool, memory: map<int, int>, head: int) returns (ok: bool, visited: seq<int>)
    requires WellFormed(c) && RangesOk(c, s) && HeadersOk(c, s) && LinkMemory(c, s, memory)
    ensures forall i :: 0 <= i < |visited| ==> InPool(c, s, visited[i])
    ensures ok ==> Path(memory, head, visited, 0) && |visited| == Total(s.ranges, UsedOf(c, s))
    ensures !ok ==> forall list: seq<int> :: |list| == Total(s.ranges, UsedOf(c, s)) ==> !Path(memory, head, list, 0)
  {
    hide ToPercpu, InUsedPart;
    var total, never := CountItems(c, s);
    var limit := total - never;
    var node := head;
    visited := [];
    while node != 0
      invariant |visited| <= limit && Path(memory, head, visited, node)
      decreases limit - |visited|
    {
      var inside := PercpuAddrInPool(s, ToPercpu(c, node));
      if |visited| >= limit || !inside {
        forall list: seq<int> | |list| == limit ensures !Path(memory, head, list, 0) {
          if Path(memory, head, list, 0) {
            PathsAgree(memory, head, visited, node, list, |visited|);
          }
        }
        return false, visited;
      }
      PathGrows(memory, head, visited, node);
      visited := visited + [node];
      node := memory[node];
    }
    ok := never + |visited| == total;
    forall list: seq<int> | !ok && |list| == limit ensures !Path(memory, head, list, 0) {
      if Path(memory, head, list, 0) {
        PathsAgree(memory, head, visited, 0, list, |visited|);
      }
    }
  }

  // ---- A list that passes and is item-aligned holds every used item ------------------

  ghost function ItemsBelow(base: nat, n: nat): set<Item> { set i: nat | i < n :: Item(base, i) }

  ghost function ItemsIn(c: Config, s: Pool, ranges: seq<nat>): set<Item> {
    if ranges == [] then {} else ItemsBelow(ranges[0], UsedOf(c, s)(ranges[0])) + ItemsIn(c, s, ranges[1..])
  }

  lemma {:induction false} BelowCount(base: nat, n: nat)
    ensures |ItemsBelow(base, n)| == n
  {
    if n > 0 {
      BelowCount(base, n - 1);
      assert ItemsBelow(base, n) == ItemsBelow(base, n - 1) + {Item(base, n - 1)};
    } else {
      assert ItemsBelow(base, n) == {};
    }
  }

  lemma {:induction false} InMember(c: Config, s: Pool, ranges: seq<nat>, x: Item)
    ensures x in ItemsIn(c, s, ranges) <==> x.base in ranges && x.idx < UsedOf(c, s)(x.base)
  {
    if ranges != [] { InMember(c, s, ranges[1..], x); }
  }

  lemma DisjointCount(a: set<Item>, b: set<Item>)
    requires a !! b
    ensures |a + b| == |a| + |b|
  {
  }

  lemma {:induction false} InCount(c: Config, s: Pool, ranges: seq<nat>)
    requires forall i, j :: 0 <= i < j < |ranges| ==> ranges[i] != ranges[j]
    ensures |ItemsIn(c, s, ranges)| == Total(ranges, UsedOf(c, s))
  {
    if ranges != [] {
      var (a, b) := (ItemsBelow(ranges[0], UsedOf(c, s)(ranges[0])), ItemsIn(c, s, ranges[1..]));
      InCount(c, s, ranges[1..]);
      BelowCount(ranges[0], UsedOf(c, s)(ranges[0]));
      forall x | x in a ensures x !in b { InMember(c, s, ranges[1..], x); }
      DisjointCount(a, b);
    }
  }

  // Equally many distinct elements of a set are all of it.
  lemma {:induction false} Pigeonhole(xs: seq<Item>, all: set<Item>)
    requires forall i :: 0 <= i < |xs| ==> xs[i] in all
    requires forall i, j :: 0 <= i < j < |xs| ==> xs[i] != xs[j]
    requires |xs| == |all|
    ensures forall x :: x in all ==> x in xs
  {
    if xs == [] {
      assert all == {};
    } else {
      var rest := all - {xs[0]};
      RemoveOne(all, xs[0]);
      Pigeonhole(xs[1..], rest);
      forall x | x in all ensures x in xs {
        if x != xs[0] { assert x in rest && x in xs[1..]; }
      }
    }
  }

  /** An item-aligned node in the pool is the node of a used item. */
  lemma AlignedNodeIsItem(c: Config, s: Pool, node: int) returns (x: Item)
    requires WellFormed(c) && RangesOk(c, s) && HeadersOk(c, s) && InPool(c, s, node)
    requires ToPercpu(c, node) >= 0 && Aligned(ToPercpu(c, node), c.itemOrder)
    ensures InUse(c, s, x) && node == ToFreeList(c, Pointer(c, x))
  {
    var p := ToPercpu(c, node);
    var i :| 0 <= i < |s.ranges| && InPart(s, s.ranges[i], p);
    var base := s.ranges[i];
    var h := s.headers[base];
    CoarserAligned(base, c.itemOrder, c.strideOrder);
    DiffAligned(p, base, c.itemOrder);
    PagesOf(p - base, c.itemOrder);
    x := Item(base, High(p - base, c.itemOrder));
    if x.idx >= Used(c, h) { MulMono(Used(c, h), x.idx, ItemLen(c)); }
    Translations(c, node, base, 0);
  }

  /** A list that passes the check and is item-aligned is a permutation of the used items. */
  lemma CheckedListIsPermutation(c: Config, s: Pool, memory: map<int, int>, head: int, list: seq<int>)
    requires WellFormed(c) && RangesOk(c, s) && HeadersOk(c, s)
    requires LinkMemory(c, s, memory) && Path(memory, head, list, 0) && |list| == Total(s.ranges, UsedOf(c, s))
    requires forall i :: 0 <= i < |list| ==> ToPercpu(c, list[i]) >= 0 && Aligned(ToPercpu(c, list[i]), c.itemOrder)
    ensures forall i, j :: 0 <= i < j < |list| ==> list[i] != list[j]
    ensures forall x :: InUse(c, s, x) ==> ToFreeList(c, Pointer(c, x)) in list
    ensures forall i :: 0 <= i < |list| ==> exists x :: InUse(c, s, x) && list[i] == ToFreeList(c, Pointer(c, x))
  {
    forall i, j | 0 <= i < j < |list| ensures list[i] != list[j] { ListIsAcyclic(memory, head, list, i, j); }
    var xs := ItemsOfNodes(c, s, list);
    NodesCoverItems(c, s, list, xs);
    forall i | 0 <= i < |list| ensures exists x :: InUse(c, s, x) && list[i] == ToFreeList(c, Pointer(c, x)) {
      assert InUse(c, s, xs[i]);
    }
  }

  // As many distinct used items as there are used items are all of them.
  lemma ItemsCover(c: Config, s: Pool, xs: seq<Item>)
    requires RangesOk(c, s) && |xs| == Total(s.ranges, UsedOf(c, s))
    requires forall i :: 0 <= i < |xs| ==> InUse(c, s, xs[i])
    requires forall i, j :: 0 <= i < j < |xs| ==> xs[i] != xs[j]
    ensures forall x :: InUse(c, s, x) ==> x in xs
  {
    var all := ItemsIn(c, s, s.ranges);
    InCount(c, s, s.ranges);
    forall x ensures x in all <==> InUse(c, s, x) { InMember(c, s, s.ranges, x); }
    Pigeonhole(xs, all);
  }

  lemma NodesCoverItems(c: Config, s: Pool, list: seq<int>, xs: seq<Item>)
    requires RangesOk(c, s) && |xs| == |list| == Total(s.ranges, UsedOf(c, s))
    requires forall i :: 0 <= i < |list| ==> InUse(c, s, xs[i]) && list[i] == ToFreeList(c, Pointer(c, xs[i]))
    requires forall i, j :: 0 <= i < j < |list| ==> list[i] != list[j]
    ensures forall x :: InUse(c, s, x) ==> ToFreeList(c, Pointer(c, x)) in list
  {
    ItemsCover(c, s, xs);
    forall x | InUse(c, s, x) ensures ToFreeList(c, Pointer(c, x)) in list {
      var i :| 0 <= i < |xs| && xs[i] == x;
      assert list[i] in list;
    }
  }

  lemma {:induction false} ItemsOfNodes(c: Config, s: Pool, list: seq<int>) returns (xs: seq<Item>)
    requires WellFormed(c) && RangesOk(c, s) && HeadersOk(c, s)
    requires forall i :: 0 <= i < |list| ==>
            InPool(c, s, list[i]) && ToPercpu(c, list[i]) >= 0 && Aligned(ToPercpu(c, list[i]), c.itemOrder)
    ensures |xs| == |list|
            && forall i :: 0 <= i < |list| ==> InUse(c, s, xs[i]) && list[i] == ToFreeList(c, Pointer(c, xs[i]))
  {
    hide WellFormed, RangesOk, HeadersOk, InPool, InUse, ToPercpu, Aligned, ToFreeList;
    if list == [] { return []; }
    var rest := ItemsOfNodes(c, s, list[1..]);
    var x := AlignedNodeIsItem(c, s, list[0]);
    xs := [x] + rest;
  }
}
