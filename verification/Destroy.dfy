/** Destroying a pool: the checks, then the ranges one by one, in the process that created it
    or in a forked child. */
module Destroy {
  import opened Bits
  import opened Bitmap
  import opened Layout
  import opened Pool
  import opened Mempool
  import opened RangeMap
  import opened RangeList

  datatype Result = Destroyed | Kept | Aborted

  // The bitmaps of the ranges of the pool.
  ghost predicate Mirrors(s: Pool, bitmaps: seq<seq<nat>>) {
    && |bitmaps| == |s.ranges|
    && forall i :: 0 <= i < |s.ranges| ==> s.ranges[i] in s.headers && bitmaps[i] == s.headers[s.ranges[i]].bitmap
  }

  // The nodes are those of the ranges, each at the header in front of its range.
  ghost predicate NodesOf(c: Config, ranges: seq<nat>, q: seq<Node>) {
    |q| == |ranges| && forall i :: 0 <= i < |q| ==> RangeNode(c, ranges[i], q[i])
  }

  ghost predicate RangeNode(c: Config, base: nat, n: Node) {
    n.mmapAddr == n.header && n.header + HeaderLen(c) == base && n.mmapLen == HeaderLen(c) + RangeLen(c)
  }

  // The bytes of a range: its header pages, with the blocks where they are accessible.
  ghost predicate IsExtent(c: Config, base: nat, accessible: bool, e: Extent) {
    e.addr + HeaderLen(c) == base && e.len == HeaderLen(c) + if accessible then RangeLen(c) else 0
  }

  /** The bytes removed are those of the first ranges, in order. */
  ghost predicate RemovedRanges(c: Config, ranges: seq<nat>, accessible: bool, log: seq<Extent>) {
    |log| <= |ranges| && forall i :: 0 <= i < |log| ==> IsExtent(c, ranges[i], accessible, log[i])
  }

  lemma LoggedRanges(c: Config, ranges: seq<nat>, q: seq<Node>, log: seq<Extent>, n: nat, accessible: bool)
    requires NodesOf(c, ranges, q) && Logged(log, q, n, accessible, Pow2(c.pageOrder))
    ensures RemovedRanges(c, ranges, accessible, log) && |log| == n
  {
    forall i | 0 <= i < n ensures IsExtent(c, ranges[i], accessible, log[i]) {
      assert RangeNode(c, ranges[i], q[i]) && log[i] == Removed(q[i], accessible, Pow2(c.pageOrder));
    }
  }

  /** A range with a leak comes before, or at, the first munmap that fails. */
  ghost predicate LeakFirst(s: Pool, fails: nat -> bool) {
    exists i: nat :: LeaksAt(s, i) && forall j: nat :: j < i ==> !fails(j)
  }

  // An item of the i-th range is live.
  ghost predicate LeaksAt(s: Pool, i: nat) {
    i < |s.ranges| && exists x :: x in s.live && x.base == s.ranges[i]
  }

  lemma BitmapTellsLeak(c: Config, s: Pool, bitmaps: seq<seq<nat>>, i: nat)
    requires WellFormed(c) && Inv(c, s) && Mirrors(s, bitmaps) && i < |s.ranges|
    ensures AllWords(bitmaps[i]) && (Weight(bitmaps[i]) > 0 <==> c.robust && LeaksAt(s, i))
  {
    LeaksAreLive(c, s, s.ranges[i]);
  }

  // Every live item is in some range.
  lemma LeakIsSomewhere(c: Config, s: Pool)
    requires WellFormed(c) && Inv(c, s)
    ensures s.live != {} <==> exists i: nat :: LeaksAt(s, i)
  {
    if s.live != {} {
      var x :| x in s.live;
      assert InUse(c, s, x);
      var i := PositionOf(s, x.base);
      assert LeaksAt(s, i);
    }
  }

  // What the bitmaps say about leaks.
  ghost predicate BitmapsTell(robust: bool, s: Pool, bitmaps: seq<seq<nat>>) {
    && |bitmaps| == |s.ranges|
    && (forall i :: 0 <= i < |bitmaps| ==>
          AllWords(bitmaps[i]) && (Weight(bitmaps[i]) > 0 <==> robust && LeaksAt(s, i)))
    && (s.live != {} <==> exists i: nat :: LeaksAt(s, i))
  }

  lemma BitmapsDoTell(c: Config, s: Pool, bitmaps: seq<seq<nat>>)
    requires WellFormed(c) && Inv(c, s) && Mirrors(s, bitmaps)
    ensures BitmapsTell(c.robust, s, bitmaps)
  {
    LeakIsSomewhere(c, s);
    forall i | 0 <= i < |bitmaps|
      ensures AllWords(bitmaps[i]) && (Weight(bitmaps[i]) > 0 <==> c.robust && LeaksAt(s, i))
    {
      BitmapTellsLeak(c, s, bitmaps, i);
    }
  }

  // What the way the destruction ended says about leaks and failures.
  lemma EndingTells(robust: bool, s: Pool, bitmaps: seq<seq<nat>>, fails: nat -> bool, ending: Ending, done: nat)
    requires BitmapsTell(robust, s, bitmaps) && done <= |bitmaps| && Clean(bitmaps, fails, done)
    requires ending.AllGone? <==> done == |bitmaps|
    requires ending.Leaked? ==> Weight(bitmaps[done]) > 0
    requires ending.UnmapFailed? ==> Weight(bitmaps[done]) == 0 && fails(done)
    ensures ending.Leaked? <==> robust && LeakFirst(s, fails)
    ensures ending.Leaked? ==> s.live != {}
    ensures ending.AllGone? && robust ==> s.live == {}
    ensures ending.UnmapFailed? <==> !ending.Leaked? && exists i :: 0 <= i < |bitmaps| && fails(i)
  {
    if ending.Leaked? { assert LeaksAt(s, done); }
    if !ending.Leaked? && robust {
      forall i: nat | LeaksAt(s, i) ensures exists j: nat :: j < i && fails(j) { assert Weight(bitmaps[i]) > 0; }
    }
    if ending.AllGone? && robust {
      forall i: nat ensures !LeaksAt(s, i) {
        if i < |bitmaps| { assert Weight(bitmaps[i]) == 0; }
      }
    }
  }

  lemma FreedArePoisoned(c: Config, s: Pool)
    requires WellFormed(c) && Inv(c, s) && c.robust
    ensures s.(mem := s.mem) == s && forall x :: x in s.free ==> Poisoned(c, s.mem, x)
  {
  }

  // The checks before the first range is touched, which need the mappings.
  method CheckPool(pool: Mempool, accessible: bool, memory: map<int, int>) returns (ok: bool)
    requires pool.Valid() && Reflects(pool.c, pool.State(), memory)
    ensures ok <==> !(pool.c.robust && accessible && pool.live != {})
  {
    if !pool.c.robust || !accessible { return true; }
    hide Reflects;
    FreedArePoisoned(pool.c, pool.State());
    ok := pool.DestroyChecks(memory, pool.mem);
  }

  // What becomes of the nodes q: the first done are unmapped, and what was removed is logged.
  ghost predicate RangesGone(q: seq<Node>, done: nat, log: seq<Extent>, accessible: bool, pageSize: nat)
    reads q
  {
    Gone(q, done) && Logged(log, q, done, accessible, pageSize)
  }

  // Destroy the ranges of a pool in state s.
  method DestroyList(robust: bool, ghost s: Pool, ghost live: set<Item>,
                     head: Node, ghost q: seq<Node>, ghost bitmaps: seq<seq<nat>>,
                     accessible: bool, pageSize: nat, fails: nat -> bool)
      returns (r: Result, done: nat, log: seq<Extent>)
    requires Ring(head, q) && AllMapped(head, q) && Bitmaps(q, bitmaps)
    requires BitmapsTell(robust, s, bitmaps) && s.live == live
    modifies head, q
    ensures r.Aborted? <==> robust && LeakFirst(s, fails)
    ensures r.Aborted? ==> live != {}
    ensures r.Kept? <==> !r.Aborted? && exists i :: 0 <= i < |q| && fails(i)
    ensures r.Destroyed? ==> done == |q| && Ring(head, []) && (robust ==> live == {})
    ensures r.Kept? ==> done < |q| && fails(done) && Ring(head, q[done..])
    ensures RangesGone(q, done, log, accessible, pageSize)
  {
    hide BitmapsTell, LeakFirst, Ring, AllMapped, Clean, Logged, Weight;
    var ending;
    ending, done, log := DestroyRanges(head, q, bitmaps, accessible, pageSize, fails);
    EndingTells(robust, s, bitmaps, fails, ending, done);
    r := if ending.AllGone? then Destroyed else if ending.UnmapFailed? then Kept else Result.Aborted;
  }

  // The mappings exist in this process.
  ghost predicate Accessible(c: Config, q: seq<Node>) { c.cowInit && q != [] ==> q[0].marker == 1 }

  /** Destroy a pool whose ranges have the nodes q. It aborts exactly for a robust pool with
      a leak that the checks before the loop see (where the mappings are accessible), or
      that is in a range the loop reaches before a munmap fails. Otherwise it keeps ranges
      exactly when some munmap fails: those from the first failure on, which stay on the list and
      mapped. The bytes removed are those of the ranges before, in order: in a forked child only
      the header pages. */
  method DestroyPool(pool: Mempool, head: Node, ghost q: seq<Node>, ghost bitmaps: seq<seq<nat>>,
                     memory: map<int, int>, fails: nat -> bool)
      returns (r: Result, done: nat, log: seq<Extent>)
    requires pool.Valid() && Reflects(pool.c, pool.State(), memory)
    requires Ring(head, q) && AllMapped(head, q) && Mirrors(pool.State(), bitmaps) && Bitmaps(q, bitmaps)
    requires NodesOf(pool.c, pool.ranges, q)
    modifies head, q
    ensures r.Aborted? <==>
              pool.c.robust && ((Accessible(pool.c, q) && pool.live != {}) || LeakFirst(pool.State(), fails))
    ensures r.Aborted? ==> pool.live != {}
    ensures r.Kept? <==> !r.Aborted? && exists i :: 0 <= i < |q| && fails(i)
    ensures (forall i :: 0 <= i < |q| ==> !fails(i)) ==>
              r == if pool.c.robust && pool.live != {} then Result.Aborted else Destroyed
    ensures r.Destroyed? ==> done == |q| && Ring(head, [])
    ensures r.Kept? ==> done < |q| && fails(done) && Ring(head, q[done..])
    ensures Gone(q, done) && |log| == done && RemovedRanges(pool.c, pool.ranges, Accessible(pool.c, q), log)
  {
    hide *;
    ghost var s := pool.State();
    PoolTells(pool, bitmaps);
    var accessible := MappingsAccessible(pool.c.cowInit, head, q);
    AccessibleIs(pool.c, q);
    NoneGone(head, q, accessible, Pow2(pool.c.pageOrder));
    var ok := CheckPool(pool, accessible, memory);
    if !ok {
      r, done, log := Result.Aborted, 0, [];
    } else {
      r, done, log := DestroyList(pool.c.robust, s, pool.live, head, q, bitmaps, accessible,
                                  Pow2(pool.c.pageOrder), fails);
    }
    GoneRanges(pool.c, pool.ranges, q, done, log, accessible);
  }

  lemma AccessibleIs(c: Config, q: seq<Node>)
    ensures Accessible(c, q) <==> (c.cowInit && q != [] ==> q[0].marker == 1)
  {
  }

  lemma GoneRanges(c: Config, ranges: seq<nat>, q: seq<Node>, n: nat, log: seq<Extent>, accessible: bool)
    requires NodesOf(c, ranges, q) && RangesGone(q, n, log, accessible, Pow2(c.pageOrder))
    ensures Gone(q, n) && |log| == n && RemovedRanges(c, ranges, accessible, log)
  {
    LoggedRanges(c, ranges, q, log, n, accessible);
  }

  lemma PoolTells(pool: Mempool, bitmaps: seq<seq<nat>>)
    requires pool.Valid() && Mirrors(pool.State(), bitmaps)
    ensures BitmapsTell(pool.c.robust, pool.State(), bitmaps) && pool.State().live == pool.live
  {
    BitmapsDoTell(pool.c, pool.State(), bitmaps);
  }

  lemma NoneGone(head: Node, q: seq<Node>, accessible: bool, pageSize: nat)
    requires AllMapped(head, q)
    ensures RangesGone(q, 0, [], accessible, pageSize)
  {
  }
}
