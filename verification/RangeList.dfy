/** The circular list of ranges, whose nodes live inside the mappings that destroy removes. */
module RangeList {
  import opened Bits
  import opened Bitmap

  // Bytes removed from the address space.
  datatype Extent = Extent(addr: nat, len: nat)

  /** A list node. Mapped tells whether the memory it lives in still exists; the head
      lives in the pool structure, the others in the headers of their ranges, next to the
      allocation bitmap (empty when there is none). Marker is the first byte of the range's
      header pages. */
  class Node {
    var next: Node
    var prev: Node
    var mapped: bool
    var bitmap: seq<nat>
    const header: nat
    const mmapAddr: nat
    const mmapLen: nat
    const marker: nat

    // An empty list.
    constructor (header: nat, mmapAddr: nat, mmapLen: nat, marker: nat, bitmap: seq<nat>)
      ensures Ring(this, []) && mapped && this.bitmap == bitmap
    {
      this.header, this.mmapAddr, this.mmapLen, this.marker := header, mmapAddr, mmapLen, marker;
      this.bitmap := bitmap;
      next, prev, mapped := this, this, true;
    }

    // Memory is only ever read and written while it is mapped.
    method GetNext() returns (n: Node)
      requires mapped
      ensures n == next
    {
      n := next;
    }

    method GetPrev() returns (n: Node)
      requires mapped
      ensures n == prev
    {
      n := prev;
    }

    method GetBitmap() returns (b: seq<nat>)
      requires mapped
      ensures b == bitmap
    {
      b := bitmap;
    }

    method GetExtent(accessible: bool, pageSize: nat) returns (e: Extent)
      requires mapped
      ensures e == Removed(this, accessible, pageSize)
    {
      if accessible { return Extent(mmapAddr, mmapLen); }
      return Extent(header, 2 * pageSize);
    }

    method GetMarker() returns (b: nat)
      requires mapped
      ensures b == marker
    {
      b := marker;
    }

    method SetNext(n: Node)
      requires mapped
      modifies this`next
      ensures next == n
    {
      next := n;
    }

    method SetPrev(n: Node)
      requires mapped
      modifies this`prev
      ensures prev == n
    {
      prev := n;
    }
  }

  // The nodes from the head around to the head.
  ghost function Around(head: Node, q: seq<Node>): seq<Node> { [head] + q + [head] }

  ghost function NodeAt(head: Node, q: seq<Node>, i: nat): Node
    requires i < |q| + 2
  {
    Around(head, q)[i]
  }

  ghost predicate Linked(a: Node, b: Node)
    reads a, b
  {
    a.next == b && b.prev == a
  }

  ghost predicate Distinct(head: Node, q: seq<Node>) {
    head !in q && forall i, j :: 0 <= i < j < |q| ==> q[i] != q[j]
  }

  /** The list at head holds exactly the nodes q, in order. */
  ghost predicate Ring(head: Node, q: seq<Node>)
    reads head, q
  {
    Distinct(head, q) && forall i :: 0 <= i <= |q| ==> Linked(Around(head, q)[i], Around(head, q)[i + 1])
  }

  ghost predicate AllMapped(head: Node, q: seq<Node>)
    reads head, q
  {
    head.mapped && forall i :: 0 <= i < |q| ==> q[i].mapped
  }

  lemma First(head: Node, q: seq<Node>)
    requires Ring(head, q)
    ensures head.next == (if q == [] then head else q[0]) && head.next == Around(head, q)[1]
    ensures head.next == head <==> q == []
  {
    assert Linked(Around(head, q)[0], Around(head, q)[1]);
  }

  /** Add at the head. */
  method ListAdd(newp: Node, head: Node, ghost q: seq<Node>)
    requires Ring(head, q) && AllMapped(head, q) && newp.mapped && newp != head && newp !in q
    modifies newp`next, newp`prev, head`next, NodeAt(head, q, 1)`prev
    ensures Ring(head, [newp] + q) && AllMapped(head, [newp] + q)
  {
    First(head, q);
    ghost var around := Around(head, q);
    ghost var around' := Around(head, [newp] + q);
    assert forall i :: 2 <= i < |around'| ==> around'[i] == around[i - 1];
    assert forall i :: 1 <= i <= |q| ==> around[i] == q[i - 1];
    var first := head.GetNext();
    first.SetPrev(newp);
    newp.SetNext(first);
    newp.SetPrev(head);
    head.SetNext(newp);
    forall i | 0 <= i <= |q| + 1 ensures Linked(around'[i], around'[i + 1]) {
      if i >= 2 { assert old(Linked(around[i - 1], around[i])); }
    }
  }

  /** Remove node k, whose own links stay as they are. */
  method ListDel(elem: Node, ghost head: Node, ghost q: seq<Node>, ghost k: nat)
    requires k < |q| && elem == q[k] && Ring(head, q) && AllMapped(head, q)
    modifies NodeAt(head, q, k)`next, NodeAt(head, q, k + 2)`prev
    ensures Ring(head, q[..k] + q[k + 1..]) && AllMapped(head, q[..k] + q[k + 1..]) && elem.mapped
  {
    ghost var around := Around(head, q);
    ghost var rest := q[..k] + q[k + 1..];
    ghost var around' := Around(head, rest);
    assert forall i :: 1 <= i <= |q| ==> around[i] == q[i - 1];
    assert forall i :: 0 <= i < |around'| ==> around'[i] == if i <= k then around[i] else around[i + 1];
    assert Linked(around[k], around[k + 1]) && Linked(around[k + 1], around[k + 2]);
    var prev := elem.GetPrev();
    var next := elem.GetNext();
    next.SetPrev(prev);
    prev.SetNext(next);
    forall i | 0 <= i <= |rest| ensures Linked(around'[i], around'[i + 1]) {
      if i < k {
        assert old(Linked(around[i], around[i + 1]));
      } else if i > k {
        assert old(Linked(around[i + 1], around[i + 2]));
      }
    }
  }

  /** The range to unmap: all of it, or the two header pages in a forked child. */
  ghost function Removed(n: Node, accessible: bool, pageSize: nat): Extent {
    if accessible then Extent(n.mmapAddr, n.mmapLen) else Extent(n.header, 2 * pageSize)
  }

  // Remove the first node.
  method DelFirst(pos: Node, ghost head: Node, ghost q: seq<Node>)
    requires q != [] && pos == q[0] && Ring(head, q) && AllMapped(head, q)
    modifies head`next, NodeAt(head, q, 2)`prev
    ensures Ring(head, q[1..]) && AllMapped(head, q[1..]) && pos.mapped
    ensures pos != head && pos !in q[1..] && NodeAt(head, q[1..], 1) == NodeAt(head, q, 2)
  {
    assert q[..0] + q[1..] == q[1..];
    Neighbours(head, q);
    ListDel(pos, head, q, 0);
  }

  // How destroying the ranges ends.
  datatype Ending = AllGone | UnmapFailed | Leaked

  /** Remove the first range from the list, check its bitmap for leaks, free the bitmap and
      unmap the range; when munmap fails the range goes back where it was. */
  method DestroyFirst(pos: Node, head: Node, ghost q: seq<Node>, fails: bool, accessible: bool, pageSize: nat)
      returns (r: Ending, e: Extent)
    requires q != [] && pos == q[0] && Ring(head, q) && AllMapped(head, q) && AllWords(pos.bitmap)
    modifies pos, head`next, NodeAt(head, q, 2)`prev
    ensures r == if Weight(old(pos.bitmap)) > 0 then Leaked else if fails then UnmapFailed else AllGone
    ensures e == Removed(pos, accessible, pageSize)
    ensures r.UnmapFailed? ==> Ring(head, q) && AllMapped(head, q)
    ensures !r.UnmapFailed? ==> Ring(head, q[1..]) && AllMapped(head, q[1..]) && (pos.mapped <==> r.Leaked?)
  {
    ghost var rest := q[1..];
    hide Ring, AllMapped, Weight;
    DelFirst(pos, head, q);
    var bitmap := pos.GetBitmap();
    var leaks := CountLeaks(bitmap);
    e := pos.GetExtent(accessible, pageSize);
    if leaks > 0 { return Leaked, e; }
    FreeBitmap(pos, head, rest);
    if fails {
      ListAdd(pos, head, rest);
      assert [pos] + rest == q;
      return UnmapFailed, e;
    }
    Unmap(pos, head, rest);
    return AllGone, e;
  }

  // Freeing the bitmap of a range that left the list.
  method FreeBitmap(pos: Node, ghost head: Node, ghost q: seq<Node>)
    requires Ring(head, q) && AllMapped(head, q) && pos != head && pos !in q && pos.mapped
    modifies pos`bitmap
    ensures Ring(head, q) && AllMapped(head, q) && pos.bitmap == []
  {
    pos.bitmap := [];
    assert forall i :: 0 <= i <= |q| ==> Around(head, q)[i] != pos;
  }

  lemma Neighbours(head: Node, q: seq<Node>)
    requires Distinct(head, q) && q != []
    ensures NodeAt(head, q, 0) == head && (NodeAt(head, q, 2) == head || NodeAt(head, q, 2) in q)
    ensures NodeAt(head, q[1..], 1) == NodeAt(head, q, 2) && q[0] != head && q[0] !in q[1..]
  {
  }

  // Unmapping a range that left the list.
  method Unmap(pos: Node, ghost head: Node, ghost q: seq<Node>)
    requires Ring(head, q) && AllMapped(head, q) && pos != head && pos !in q
    modifies pos`mapped
    ensures Ring(head, q) && AllMapped(head, q) && !pos.mapped
  {
    pos.mapped := false;
    assert forall i :: 0 <= i <= |q| ==> Around(head, q)[i] != pos;
  }

  // The node after the first one.
  lemma Second(head: Node, q: seq<Node>)
    requires Ring(head, q) && q != []
    ensures head.next == q[0] && q[0] != head && q[0].next == Around(head, q[1..])[1]
    ensures NodeAt(head, q, 2) == head || NodeAt(head, q, 2) in q
  {
    assert Linked(Around(head, q)[0], Around(head, q)[1]);
    assert Linked(Around(head, q)[1], Around(head, q)[2]);
  }

  // The bitmaps of the ranges of a list.
  ghost predicate Bitmaps(q: seq<Node>, bitmaps: seq<seq<nat>>)
    reads q
  {
    |bitmaps| == |q| && forall i :: 0 <= i < |q| ==> q[i].bitmap == bitmaps[i] && AllWords(bitmaps[i])
  }

  /** The first n of the ranges q are unmapped; the list has the others, as they were. */
  ghost predicate Progress(head: Node, q: seq<Node>, bitmaps: seq<seq<nat>>, n: nat)
    reads head, q
  {
    && n <= |q| == |bitmaps| && Distinct(head, q) && Ring(head, q[n..]) && AllMapped(head, q[n..])
    && (forall i :: 0 <= i < n ==> !q[i].mapped)
    && (forall i :: n <= i < |q| ==> q[i].bitmap == bitmaps[i] && AllWords(bitmaps[i]))
  }

  // The range after the first n, or the head.
  ghost function Cursor(head: Node, q: seq<Node>, n: nat): Node { if n < |q| then q[n] else head }

  lemma ProgressStarts(head: Node, q: seq<Node>, bitmaps: seq<seq<nat>>)
    requires Ring(head, q) && AllMapped(head, q) && Bitmaps(q, bitmaps)
    ensures Progress(head, q, bitmaps, 0)
  {
    assert q[0..] == q;
  }

  // What the removal-safe iteration reads.
  lemma ProgressReads(head: Node, q: seq<Node>, bitmaps: seq<seq<nat>>, n: nat)
    requires Progress(head, q, bitmaps, n)
    ensures n <= |q| && head.mapped && head.next == Cursor(head, q, n) && Cursor(head, q, n).mapped
    ensures n < |q| ==> Cursor(head, q, n).next == Cursor(head, q, n + 1) && q[n] != head
    ensures (forall i :: 0 <= i < n ==> !q[i].mapped) && |q| == |bitmaps|
    ensures n == |q| ==> Ring(head, [])
  {
    var rest := q[n..];
    First(head, rest);
    if n < |q| { Second(head, rest); }
  }

  // The first n ranges had no leak, and their munmaps succeed.
  ghost predicate Clean(bitmaps: seq<seq<nat>>, fails: nat -> bool, n: nat) {
    n <= |bitmaps| && forall i :: 0 <= i < n ==> !fails(i) && Weight(bitmaps[i]) == 0
  }

  // The first n ranges were unmapped, in order.
  ghost predicate Logged(log: seq<Extent>, q: seq<Node>, n: nat, accessible: bool, pageSize: nat) {
    |log| == n <= |q| && forall i :: 0 <= i < n ==> log[i] == Removed(q[i], accessible, pageSize)
  }

  lemma OneMore(bitmaps: seq<seq<nat>>, fails: nat -> bool, n: nat, log: seq<Extent>, q: seq<Node>, x: Extent,
                accessible: bool, pageSize: nat)
    requires Clean(bitmaps, fails, n) && n < |bitmaps| == |q| && !fails(n) && Weight(bitmaps[n]) == 0
    requires Logged(log, q, n, accessible, pageSize) && x == Removed(q[n], accessible, pageSize)
    ensures Clean(bitmaps, fails, n + 1) && Logged(log + [x], q, n + 1, accessible, pageSize)
  {
  }

  // The first n ranges are unmapped, the others are not.
  ghost predicate Gone(q: seq<Node>, n: nat)
    reads q
  {
    n <= |q| && (forall i :: 0 <= i < n ==> !q[i].mapped) && forall i :: n <= i < |q| ==> q[i].mapped
  }

  // After n ranges.
  ghost predicate Going(head: Node, q: seq<Node>, bitmaps: seq<seq<nat>>, fails: nat -> bool, n: nat,
                        log: seq<Extent>, accessible: bool, pageSize: nat)
    reads head, q
  {
    Progress(head, q, bitmaps, n) && Clean(bitmaps, fails, n) && Logged(log, q, n, accessible, pageSize)
  }

  lemma GoingReads(head: Node, q: seq<Node>, bitmaps: seq<seq<nat>>, fails: nat -> bool, n: nat,
                   log: seq<Extent>, accessible: bool, pageSize: nat)
    requires Going(head, q, bitmaps, fails, n, log, accessible, pageSize)
    ensures n <= |q| == |bitmaps| && head.mapped && head.next == Cursor(head, q, n) && Cursor(head, q, n).mapped
    ensures if n == |q| then Cursor(head, q, n) == head else Cursor(head, q, n) == q[n] != head
    ensures n < |q| ==> q[n].next == Cursor(head, q, n + 1)
  {
    ProgressReads(head, q, bitmaps, n);
  }

  lemma GoingStarts(head: Node, q: seq<Node>, bitmaps: seq<seq<nat>>, fails: nat -> bool,
                    accessible: bool, pageSize: nat)
    requires Ring(head, q) && AllMapped(head, q) && Bitmaps(q, bitmaps)
    ensures Going(head, q, bitmaps, fails, 0, [], accessible, pageSize)
  {
    ProgressStarts(head, q, bitmaps);
  }

  /** The first n ranges are unmapped and had no leak. Either these are all, or the next one
      leaked and has left the list, or its munmap failed and it is back in the list. */
  ghost predicate Ended(head: Node, q: seq<Node>, bitmaps: seq<seq<nat>>, fails: nat -> bool, r: Ending, n: nat)
    reads head, q
  {
    && n <= |q| == |bitmaps| && (r.AllGone? <==> n == |q|) && Clean(bitmaps, fails, n) && Gone(q, n)
    && match r
       case AllGone => Ring(head, [])
       case Leaked => Weight(bitmaps[n]) > 0 && Ring(head, q[n + 1..])
       case UnmapFailed => Weight(bitmaps[n]) == 0 && fails(n) && Ring(head, q[n..])
  }

  lemma GoingEnds(head: Node, q: seq<Node>, bitmaps: seq<seq<nat>>, fails: nat -> bool,
                  log: seq<Extent>, accessible: bool, pageSize: nat)
    requires Going(head, q, bitmaps, fails, |q|, log, accessible, pageSize)
    ensures Ended(head, q, bitmaps, fails, AllGone, |q|) && Logged(log, q, |q|, accessible, pageSize)
  {
    ProgressReads(head, q, bitmaps, |q|);
  }

  // Destroy the range after the first n.
  method DestroyNext(pos: Node, head: Node, ghost q: seq<Node>, ghost bitmaps: seq<seq<nat>>,
                     fails: nat -> bool, n: nat, log: seq<Extent>, accessible: bool, pageSize: nat)
      returns (r: Ending, log': seq<Extent>)
    requires Going(head, q, bitmaps, fails, n, log, accessible, pageSize) && n < |q| == |bitmaps| && pos == q[n]
    modifies head, q
    ensures r.AllGone? ==> Going(head, q, bitmaps, fails, n + 1, log', accessible, pageSize)
    ensures !r.AllGone? ==> Ended(head, q, bitmaps, fails, r, n) && Logged(log', q, n, accessible, pageSize)
  {
    ghost var rest := q[n..];
    assert rest[1..] == q[n + 1..] && rest[0] == pos;
    Second(head, rest);
    hide Weight, Clean, Logged;
    var e;
    r, e := DestroyFirst(pos, head, rest, fails(n), accessible, pageSize);
    log' := log;
    if r.AllGone? {
      log' := log + [e];
      OneMore(bitmaps, fails, n, log, q, e, accessible, pageSize);
    }
  }

  /** Destroy the ranges of a list, which have these bitmaps, where the i-th munmap fails when
      fails(i). Every node is read and written only while it is mapped. */
  method DestroyRanges(head: Node, ghost q: seq<Node>, ghost bitmaps: seq<seq<nat>>, accessible: bool, pageSize: nat,
                       fails: nat -> bool) returns (r: Ending, done: nat, log: seq<Extent>)
    requires Ring(head, q) && AllMapped(head, q) && Bitmaps(q, bitmaps)
    modifies head, q
    ensures Ended(head, q, bitmaps, fails, r, done) && Logged(log, q, done, accessible, pageSize)
  {
    hide *;
    done, log := 0, [];
    GoingStarts(head, q, bitmaps, fails, accessible, pageSize);
    GoingReads(head, q, bitmaps, fails, 0, [], accessible, pageSize);
    var pos := head.GetNext();
    var p := pos.GetNext();
    while pos != head
      invariant Going(head, q, bitmaps, fails, done, log, accessible, pageSize) && done <= |q| == |bitmaps|
      invariant pos == Cursor(head, q, done) && p == Cursor(head, q, done).next
      decreases |q| - done
    {
      GoingReads(head, q, bitmaps, fails, done, log, accessible, pageSize);
      r, log := DestroyNext(pos, head, q, bitmaps, fails, done, log, accessible, pageSize);
      if !r.AllGone? { return; }
      done := done + 1;
      GoingReads(head, q, bitmaps, fails, done, log, accessible, pageSize);
      pos := p;
      p := pos.GetNext();
    }
    GoingReads(head, q, bitmaps, fails, done, log, accessible, pageSize);
    GoingEnds(head, q, bitmaps, fails, log, accessible, pageSize);
    r := AllGone;
  }

  /** Whether the mappings of a pool exist in this process: only COW_INIT pools have the
      marker byte that fork wipes, and only the first range is asked. */
  method MappingsAccessible(cowInit: bool, head: Node, ghost q: seq<Node>) returns (r: bool)
    requires Ring(head, q) && AllMapped(head, q)
    ensures r <==> (cowInit && q != [] ==> q[0].marker == 1)
  {
    First(head, q);
    if !cowInit { return true; }
    var first := head.GetNext();
    if first == head { return true; }
    var marker := first.GetMarker();
    return marker == 1;
  }

  /** The marker is found from the range structure, which ends where the base begins: two
      pages before the base, whatever the size of the structure (up to a page). */
  lemma MarkerAddress(base: nat, size: nat, k: nat)
    requires k <= 64 && Aligned(base, k) && 0 < size <= Pow2(k) && 2 * Pow2(k) <= base <= WORD
    ensures Pow2(k) <= WORD && BitAnd(base - size, BitNot(Pow2(k) - 1)) - Pow2(k) == base - 2 * Pow2(k)
  {
    hide Pow2, BitAnd, High;
    Pow64();
    PowMono(k, 64);
    MaskHigh(base - size, k, 64);
    Split(base, k);
    var n := High(base, k);
    assert (n - 1) * Pow2(k) == n * Pow2(k) - Pow2(k);
    SplitUnique(base - size, k, n - 1, Pow2(k) - size);
  }
}
