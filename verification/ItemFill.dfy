/** Setting and checking all the words of an item, in the init values and for every CPU. */
module ItemFill {
  import opened CowMemory

  // The words [lo, hi) of a range.
  datatype Span = Span(base: nat, lo: nat, hi: nat)

  predicate Inside(s: Span, l: Loc) { l.base == s.base && s.lo <= l.off < s.hi }

  // No CPU sees a change outside the span, and neither do the init values.
  ghost predicate SameOutside(m: Memory, m': Memory, pageOrder: nat, s: Span) {
    && (forall cpu: nat, l :: !Inside(s, l) ==> View(m', pageOrder, cpu, l) == View(m, pageOrder, cpu, l))
    && (forall l :: !Inside(s, l) ==> Get(m'.shared, l) == Get(m.shared, l))
  }

  lemma SameOutsideTransitive(m: Memory, m': Memory, m'': Memory, pageOrder: nat, s: Span)
    requires SameOutside(m, m', pageOrder, s) && SameOutside(m', m'', pageOrder, s)
    ensures SameOutside(m, m'', pageOrder, s)
  {
  }

  // What a CPU reads in the span is v throughout.
  ghost predicate CpuHolds(m: Memory, pageOrder: nat, cpu: nat, s: Span, v: int) {
    forall l :: Inside(s, l) ==> View(m, pageOrder, cpu, l) == v
  }

  ghost predicate SharedHolds(m: Memory, s: Span, v: int) {
    forall l :: Inside(s, l) ==> Get(m.shared, l) == v
  }

  /** The init values (when there are any) and the views of all n CPUs hold v. */
  ghost predicate Holds(m: Memory, pageOrder: nat, n: nat, hasInit: bool, s: Span, v: int) {
    (hasInit ==> SharedHolds(m, s, v)) && forall cpu: nat :: cpu < n ==> CpuHolds(m, pageOrder, cpu, s, v)
  }

  // Pages are copied for one CPU only.
  ghost predicate CopiesOnly(m: Memory, m': Memory, cpu: nat) {
    forall p: Page :: p.cpu != cpu ==> (p in m'.copies <==> p in m.copies)
  }

  // No page is copied for a CPU.
  ghost predicate CopiesNothing(m: Memory, m': Memory, cpu: nat) {
    forall p: Page :: p.cpu == cpu ==> (p in m'.copies <==> p in m.copies)
  }

  /** The CPU sees v throughout the span, or will once the init values hold it: on the pages it has not
      copied it sees them. */
  ghost predicate Agrees(m: Memory, pageOrder: nat, hasInit: bool, cpu: nat, s: Span, v: int) {
    forall l :: Inside(s, l) && (hasInit ==> PageOf(pageOrder, cpu, l) in m.copies) ==> View(m, pageOrder, cpu, l) == v
  }

  /** Compare a CPU's words with v. */
  method CompareCpu(m: Memory, pageOrder: nat, cpu: nat, s: Span, v: int) returns (same: bool)
    ensures same <==> CpuHolds(m, pageOrder, cpu, s, v)
  {
    var off := s.lo;
    while off < s.hi
      invariant s.lo <= off
      invariant forall l :: Inside(s, l) && l.off < off ==> View(m, pageOrder, cpu, l) == v
    {
      var l := Loc(s.base, off);
      if View(m, pageOrder, cpu, l) != v {
        assert Inside(s, l);
        return false;
      }
      off := off + 1;
    }
    return true;
  }

  method CompareShared(m: Memory, s: Span, v: int) returns (same: bool)
    ensures same <==> SharedHolds(m, s, v)
  {
    var off := s.lo;
    while off < s.hi
      invariant s.lo <= off
      invariant forall l :: Inside(s, l) && l.off < off ==> Get(m.shared, l) == v
    {
      var l := Loc(s.base, off);
      if Get(m.shared, l) != v {
        assert Inside(s, l);
        return false;
      }
      off := off + 1;
    }
    return true;
  }

  method FillShared(m: Memory, pageOrder: nat, s: Span, v: int) returns (m': Memory)
    ensures SameOutside(m, m', pageOrder, s) && SharedHolds(m', s, v) && m'.copies == m.copies
  {
    m' := m;
    var off := s.lo;
    while off < s.hi
      invariant s.lo <= off
      invariant SameOutside(m, m', pageOrder, s) && m'.copies == m.copies
      invariant forall l :: Inside(s, l) && l.off < off ==> Get(m'.shared, l) == v
    {
      m' := StoreShared(m', Loc(s.base, off), v);
      off := off + 1;
    }
  }

  method FillCpu(m: Memory, pageOrder: nat, cpu: nat, s: Span, v: int) returns (m': Memory)
    ensures SameOutside(m, m', pageOrder, s) && m'.shared == m.shared && CpuHolds(m', pageOrder, cpu, s, v)
    ensures forall other: nat, l :: other != cpu ==> View(m', pageOrder, other, l) == View(m, pageOrder, other, l)
    ensures CopiesOnly(m, m', cpu)
  {
    m' := m;
    var off := s.lo;
    while off < s.hi
      invariant s.lo <= off
      invariant SameOutside(m, m', pageOrder, s) && m'.shared == m.shared
      invariant forall l :: Inside(s, l) && l.off < off ==> View(m', pageOrder, cpu, l) == v
      invariant forall other: nat, l :: other != cpu ==> View(m', pageOrder, other, l) == View(m, pageOrder, other, l)
      invariant CopiesOnly(m, m', cpu)
    {
      forall c: nat, l {
        StoreCpuSees(m', pageOrder, cpu, Loc(s.base, off), v, c, l);
      }
      m' := StoreCpu(m', pageOrder, cpu, Loc(s.base, off), v);
      off := off + 1;
    }
  }

  // Filling the init values of the span, where there are any, is all that a CPU that agrees needs.
  lemma AgreeingSees(m: Memory, filled: Memory, pageOrder: nat, hasInit: bool, cpu: nat, s: Span, v: int)
    requires Agrees(m, pageOrder, hasInit, cpu, s, v) && filled.copies == m.copies
    requires if hasInit then SharedHolds(filled, s, v) else filled == m
    ensures CpuHolds(filled, pageOrder, cpu, s, v)
  {
    forall l | Inside(s, l) ensures View(filled, pageOrder, cpu, l) == v {
      if !hasInit || PageOf(pageOrder, cpu, l) in m.copies { assert View(m, pageOrder, cpu, l) == v; }
    }
  }

  // What is left to do for the CPUs from i on, which still see what they saw.
  ghost predicate Untouched(filled: Memory, m': Memory, pageOrder: nat, i: nat) {
    forall cpu: nat :: cpu >= i ==> SeesSame(filled, m', pageOrder, cpu)
  }

  ghost predicate SeesSame(m: Memory, m': Memory, pageOrder: nat, cpu: nat) {
    CopiesNothing(m, m', cpu) && forall l :: View(m', pageOrder, cpu, l) == View(m, pageOrder, cpu, l)
  }

  lemma CopiesChain(m: Memory, m': Memory, m'': Memory, cpu: nat, i: nat)
    requires CopiesNothing(m, m', cpu) && CopiesOnly(m', m'', i) && cpu != i
    ensures CopiesNothing(m, m'', cpu)
  {
    forall p: Page | p.cpu == cpu ensures p in m''.copies <==> p in m.copies {
      assert p in m'.copies <==> p in m.copies;
    }
  }

  /** One CPU: its bytes are overwritten when it does not see v throughout. */
  method SetCpu(m: Memory, pageOrder: nat, i: nat, s: Span, v: int) returns (m': Memory)
    ensures SameOutside(m, m', pageOrder, s) && m'.shared == m.shared && CpuHolds(m', pageOrder, i, s, v)
    ensures forall other: nat, l :: other != i ==> View(m', pageOrder, other, l) == View(m, pageOrder, other, l)
    ensures CopiesOnly(m, m', i) && (CpuHolds(m, pageOrder, i, s, v) ==> m' == m)
  {
    var same := CompareCpu(m, pageOrder, i, s, v);
    m' := m;
    if !same { m' := FillCpu(m, pageOrder, i, s, v); }
  }

  /** Zeroing (v = 0) and poisoning an item: the init values first, then every CPU whose
      view differs. All CPUs then see v, and nothing changed outside the item. CPUs that agreed
      keep sharing the pages they shared. */
  method SetItem(m: Memory, pageOrder: nat, n: nat, hasInit: bool, s: Span, v: int) returns (m': Memory)
    ensures SameOutside(m, m', pageOrder, s) && Holds(m', pageOrder, n, hasInit, s, v)
    ensures !hasInit ==> m'.shared == m.shared
    ensures forall cpu: nat :: Agrees(m, pageOrder, hasInit, cpu, s, v) ==> CopiesNothing(m, m', cpu)
  {
    m' := m;
    if hasInit {
      m' := FillShared(m', pageOrder, s, v);
    }
    ghost var filled := m';
    var i := 0;
    while i < n
      invariant 0 <= i <= n
      invariant SameOutside(m, m', pageOrder, s) && m'.shared == filled.shared
      invariant forall cpu: nat :: cpu < i ==> CpuHolds(m', pageOrder, cpu, s, v)
      invariant Untouched(filled, m', pageOrder, i)
      invariant forall cpu: nat :: Agrees(m, pageOrder, hasInit, cpu, s, v) ==> CopiesNothing(m, m', cpu)
    {
      m' := SetOne(m, filled, m', pageOrder, i, hasInit, s, v);
      i := i + 1;
    }
  }

  // One round of the loop.
  method SetOne(ghost m: Memory, ghost filled: Memory, before: Memory, pageOrder: nat, i: nat, ghost hasInit: bool,
                s: Span, v: int) returns (m': Memory)
    requires SameOutside(m, before, pageOrder, s) && Untouched(filled, before, pageOrder, i)
    requires filled.copies == m.copies && if hasInit then SharedHolds(filled, s, v) else filled == m
    requires forall cpu: nat :: cpu < i ==> CpuHolds(before, pageOrder, cpu, s, v)
    requires forall cpu: nat :: Agrees(m, pageOrder, hasInit, cpu, s, v) ==> CopiesNothing(m, before, cpu)
    ensures SameOutside(m, m', pageOrder, s) && m'.shared == before.shared && Untouched(filled, m', pageOrder, i + 1)
    ensures forall cpu: nat :: cpu < i + 1 ==> CpuHolds(m', pageOrder, cpu, s, v)
    ensures forall cpu: nat :: Agrees(m, pageOrder, hasInit, cpu, s, v) ==> CopiesNothing(m, m', cpu)
  {
    m' := SetCpu(before, pageOrder, i, s, v);
    SameOutsideTransitive(m, before, m', pageOrder, s);
    forall cpu: nat | cpu < i ensures CpuHolds(m', pageOrder, cpu, s, v) {
      assert CpuHolds(before, pageOrder, cpu, s, v);
    }
    forall cpu: nat | cpu >= i + 1 ensures SeesSame(filled, m', pageOrder, cpu) {
      assert SeesSame(filled, before, pageOrder, cpu);
      CopiesChain(filled, before, m', cpu, i);
    }
    forall cpu: nat | Agrees(m, pageOrder, hasInit, cpu, s, v) ensures CopiesNothing(m, m', cpu) {
      if cpu == i {
        AgreeingSees(m, filled, pageOrder, hasInit, i, s, v);
        assert SeesSame(filled, before, pageOrder, i);
      } else {
        CopiesChain(m, before, m', cpu, i);
      }
    }
  }

  /** The poison check of an item passes exactly when every view of it holds the poison. */
  method CheckItem(m: Memory, pageOrder: nat, n: nat, hasInit: bool, s: Span, v: int) returns (ok: bool)
    ensures ok <==> Holds(m, pageOrder, n, hasInit, s, v)
  {
    if hasInit {
      ok := CompareShared(m, s, v);
      if !ok { return; }
    }
    var i := 0;
    while i < n
      invariant 0 <= i <= n
      invariant forall cpu: nat :: cpu < i ==> CpuHolds(m, pageOrder, cpu, s, v)
    {
      ok := CompareCpu(m, pageOrder, i, s, v);
      if !ok { return; }
      i := i + 1;
    }
    return true;
  }
}
