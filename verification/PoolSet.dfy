/** A set of pools indexed by item order; allocation tries the pools that fit, smallest first. */
module PoolSet {
  import opened Bits
  import opened Layout
  import opened Pool
  import opened Mempool
  import opened RangeMap

  const ENTRIES := 64
  const MIN_ENTRY := 3

  /** malloc from a pool in state s would find nothing, abort, or get a range not mapped in full. */
  ghost predicate NoRoom(c: Config, s: Pool, sys: System) {
    WellFormed(c) && NeedsRange(c, s) && RangeFails(c, s, sys)
  }

  ghost predicate Aborts(c: Config, s: Pool, sys: System) {
    WellFormed(c) && NeedsRange(c, s) && RangeAborts(c, s, sys)
  }

  ghost predicate IsShort(c: Config, s: Pool, sys: System) {
    WellFormed(c) && NeedsRange(c, s) && RangeShort(c, s, sys)
  }

  datatype Added = Ok | Busy

  // malloc from one pool, in terms of the two conditions.
  method MallocFrom(pool: Mempool, len: nat, sys: System) returns (r: Outcome, ghost x: Item)
    requires PoolOk(pool) && len <= Pow2(pool.c.itemOrder) && MappedApart(pool.c, pool.State(), sys)
    modifies pool
    ensures PoolOk(pool) && !r.Invalid?
    ensures r.Aborted? <==> old(Aborts(pool.c, pool.State(), sys))
    ensures r.Short? <==> old(IsShort(pool.c, pool.State(), sys))
    ensures r.NoMemory? <==> old(NoRoom(pool.c, pool.State(), sys))
    ensures !r.Allocated? ==> pool.State() == old(pool.State())
    ensures r.Allocated? ==> Took(pool.c, old(pool.State()), pool.State(), r.ptr, x)
  {
    r, x := pool.Malloc(len, sys);
  }

  class PoolSet {
    var entries: seq<Mempool?>

    ghost predicate Valid()
      reads this, Pools()
    {
      ByOrder() && forall i :: 0 <= i < ENTRIES ==> PoolOk(entries[i])
    }

    // Every pool is in the slot of its item order.
    ghost predicate ByOrder()
      reads this
    {
      |entries| == ENTRIES && forall i :: 0 <= i < ENTRIES && entries[i] != null ==> entries[i].c.itemOrder == i
    }

    ghost function Pools(): set<Mempool>
      reads this
    {
      set p: Mempool | p in entries
    }

    constructor ()
      ensures Valid() && forall i :: 0 <= i < ENTRIES ==> entries[i] == null
    {
      entries := seq(ENTRIES, _ => null);
    }

    /** Hand a pool over to the set, unless its order is taken. */
    method AddPool(pool: Mempool) returns (r: Added)
      requires Valid() && pool.Valid() && pool.c.itemOrder < ENTRIES
      modifies this
      ensures Valid()
      ensures r == (if old(entries[pool.c.itemOrder]) == null then Ok else Busy)
      ensures entries == if r == Ok then old(entries)[pool.c.itemOrder := pool] else old(entries)
    {
      if entries[pool.c.itemOrder] != null { return Busy; }
      entries := entries[pool.c.itemOrder := pool];
      return Ok;
    }

    // A pool of the set that holds items of len bytes.
    predicate Fits(i: nat, len: nat)
      requires i < |entries|
      reads this
    {
      entries[i] != null && len <= Pow2(i)
    }

    // The states of the pools; absent pools have any.
    ghost predicate InStates(states: seq<Pool>)
      requires |entries| == ENTRIES
      reads this, Pools()
    {
      |states| == ENTRIES && forall i :: 0 <= i < ENTRIES && entries[i] != null ==> entries[i].State() == states[i]
    }

    // In these states malloc from pool i finds nothing, aborts, or gets a range not mapped in full.
    ghost predicate Exhausted(states: seq<Pool>, i: nat, sys: System)
      requires i < |entries| && i < |states|
      reads this
    {
      entries[i] != null && NoRoom(entries[i].c, states[i], sys)
    }

    ghost predicate AbortsAt(states: seq<Pool>, i: nat, sys: System)
      requires i < |entries| && i < |states|
      reads this
    {
      entries[i] != null && Aborts(entries[i].c, states[i], sys)
    }

    ghost predicate ShortAt(states: seq<Pool>, i: nat, sys: System)
      requires i < |entries| && i < |states|
      reads this
    {
      entries[i] != null && IsShort(entries[i].c, states[i], sys)
    }

    // Every pool below order that fits is exhausted.
    ghost predicate ExhaustedBelow(states: seq<Pool>, order: nat, len: nat, sys: nat -> System)
      requires order <= |entries| && order <= |states|
      reads this
    {
      forall i: nat :: i < order && Fits(i, len) ==> Exhausted(states, i, sys(i))
    }

    // What the system may answer to each pool.
    ghost predicate SystemOk(states: seq<Pool>, sys: nat -> System)
      requires |entries| == |states|
      reads this
    {
      forall i: nat :: i < |entries| && entries[i] != null ==> MappedApart(entries[i].c, states[i], sys(i))
    }

    /** The first pool from order min on; every one of those before it is absent. */
    method FirstFit(len: nat, min: nat) returns (order: nat)
      requires ByOrder() && min <= ENTRIES && len <= Pow2(min)
      ensures min <= order <= ENTRIES && forall i :: min <= i < order ==> entries[i] == null
      ensures order < ENTRIES ==> Fits(order, len)
    {
      order := min;
      while order < ENTRIES
        invariant min <= order <= ENTRIES && forall i :: min <= i < order ==> entries[i] == null
      {
        var pool := entries[order];
        PowMono(min, order);
        if pool != null && Pow2(pool.c.itemOrder) >= len { return; }
        order := order + 1;
      }
    }

    // No pool below the starting order fits: there are none of less than a link, and those
    // between are too small.
    lemma NoneBelow(len: nat, min: nat)
      requires Valid() && min <= ENTRIES && forall i: nat :: MIN_ENTRY <= i < min ==> len > Pow2(i)
      ensures forall i: nat :: i < min ==> !Fits(i, len)
    {
      forall i: nat | i < min ensures !Fits(i, len) { assert PoolOk(entries[i]); }
    }

    // One attempt, at a pool that fits; the other pools are different objects.
    method Try(order: nat, len: nat, sys: System, ghost states: seq<Pool>) returns (r: Outcome, ghost x: Item)
      requires Valid() && InStates(states) && order < ENTRIES && Fits(order, len)
      requires MappedApart(entries[order].c, states[order], sys)
      modifies entries[order]
      ensures Valid() && InStates(states[order := entries[order].State()]) && !r.Invalid?
      ensures r.Aborted? <==> AbortsAt(states, order, sys)
      ensures r.Short? <==> ShortAt(states, order, sys)
      ensures r.NoMemory? <==> Exhausted(states, order, sys)
      ensures !r.Allocated? ==> entries[order].State() == states[order]
      ensures r.Allocated? ==> Took(entries[order].c, states[order], entries[order].State(), r.ptr, x)
    {
      hide PoolOk;
      var pool := entries[order];
      assert PoolOk(pool);
      r, x := MallocFrom(pool, len, sys);
      assert forall i :: 0 <= i < ENTRIES && i != order ==> entries[i] != pool;
      assert forall i :: 0 <= i < ENTRIES ==> old(PoolOk(entries[i]));
    }

    /** Allocate len bytes from a set whose pools are in the given states: order is the
        smallest pool that fits and is not exhausted, and the item comes from it (or its
        malloc aborts); there is none exactly when no memory is returned. All other pools
        are left unchanged. */
    method Malloc(len: nat, sys: nat -> System, ghost states: seq<Pool>)
        returns (r: Outcome, order: nat, ghost x: Item)
      requires Valid() && InStates(states) && len < WORD && SystemOk(states, sys)
      modifies Pools()
      ensures Valid() && order <= ENTRIES && !r.Invalid? && (r.NoMemory? <==> order == ENTRIES)
      ensures ExhaustedBelow(states, order, len, sys)
      ensures order < ENTRIES ==> Fits(order, len) && !Exhausted(states, order, sys(order))
      ensures order < ENTRIES ==> (r.Aborted? <==> AbortsAt(states, order, sys(order)))
      ensures order < ENTRIES ==> (r.Short? <==> ShortAt(states, order, sys(order)))
      ensures r.Allocated? ==>
                && Took(entries[order].c, states[order], entries[order].State(), r.ptr, x)
                && InStates(states[order := entries[order].State()])
      ensures !r.Allocated? ==> InStates(states)
    {
      hide PoolOk;
      var min := MIN_ENTRY;
      if CountOrder(len) > MIN_ENTRY { min := CountOrder(len); }
      LeastOrder(len, min);
      NoneBelow(len, min);
      while true
        invariant min <= ENTRIES && len <= Pow2(min) && Valid() && InStates(states)
        invariant ExhaustedBelow(states, min, len, sys)
        decreases ENTRIES - min
      {
        order := FirstFit(len, min);
        if order == ENTRIES { return Outcome.NoMemory, order, Item(0, 0); }
        r, x := Try(order, len, sys(order), states);
        if !r.NoMemory? { break; }
        PowMono(min, order + 1);
        min := order + 1;
        assert states[order := states[order]] == states;
      }
      assert !r.Allocated? ==> states[order := states[order]] == states;
    }
  }

  // A pool of configuration c handed out x, which was not live.
  ghost predicate Took(c: Config, s: Pool, s': Pool, ptr: int, x: Item) {
    ptr == Pointer(c, x) && x !in s.live && s'.live == s.live + {x}
  }

  ghost predicate PoolOk(p: Mempool?)
    reads if p == null then {} else {p}
  {
    p != null ==> p.Valid()
  }

  // The orders below the starting one do not fit len; those from it on do.
  lemma LeastOrder(len: nat, min: int)
    requires len < WORD && min == if CountOrder(len) > MIN_ENTRY then CountOrder(len) else MIN_ENTRY
    ensures MIN_ENTRY <= min <= ENTRIES && len <= Pow2(min)
    ensures forall i: nat :: MIN_ENTRY <= i < min ==> len > Pow2(i)
  {
    if len > 0 {
      CountOrderRange(len);
      CountOrderLeast(len, min);
      forall i: nat | MIN_ENTRY <= i < min ensures len > Pow2(i) { CountOrderLeast(len, i); }
    }
  }
}
