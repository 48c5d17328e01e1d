/** Initialising an item while other threads store to its neighbours: every interleaving
    of single-byte steps with the page copies that the neighbours' stores cause. */
module CowRace {
  import opened Bits
  import opened CowMemory
  import opened ItemFill

  /** What is being written: value into the bytes of span, for n CPUs, through the init
      values first when the pool has them. Zeroing and poisoning are jobs like any other. */
  datatype Job = Job(span: Span, value: seq<int>, n: nat, hasInit: bool, pageOrder: nat)

  ghost predicate Valid(job: Job) { job.span.lo <= job.span.hi && |job.value| == job.span.hi - job.span.lo }

  function Wanted(job: Job, l: Loc): int
    requires Valid(job) && Inside(job.span, l)
  {
    job.value[l.off - job.span.lo]
  }

  /** Where the initialising thread is: storing the init values, comparing a CPU's bytes
      (k of them agreed so far), overwriting a CPU's bytes, or finished. Bytes are stored in
      any order. */
  datatype Phase = Filling(written: set<nat>)
    | Comparing(cpu: nat, k: nat) | Repairing(cpu: nat, written: set<nat>) | Finished

  datatype State = State(mem: Memory, phase: Phase)

  datatype Action =
    | FillByte(off: nat) | EndFill | Agree | Differ | NextCpu | RepairByte(off: nat) | EndRepair | Return
    | OtherStore(cpu: nat, l: Loc, v: int)    // a store of another thread through a CPU's mapping
    | OtherInit(l: Loc, v: int)               // another item being initialised
    | PageCopy(page: Page)                    // the page fault of a store on its own

  predicate Others(a: Action) { a.OtherStore? || a.OtherInit? || a.PageCopy? }

  ghost predicate AllWritten(job: Job, written: set<nat>) {
    forall off :: job.span.lo <= off < job.span.hi ==> off in written
  }

  function Between(lo: nat, hi: nat): (r: set<nat>)
    requires lo <= hi
    ensures |r| == hi - lo && forall off :: off in r <==> lo <= off < hi
    decreases hi - lo
  {
    if lo == hi then {} else Between(lo, hi - 1) + {hi - 1}
  }

  function Offsets(job: Job): (r: set<nat>)
    requires Valid(job)
    ensures |r| == |job.value| && forall off :: off in r <==> job.span.lo <= off < job.span.hi
  {
    Between(job.span.lo, job.span.hi)
  }

  function ByteAt(job: Job, off: nat): Loc { Loc(job.span.base, off) }

  // What the initialising thread can do next; others stay outside the item.
  ghost predicate Enabled(job: Job, s: State, a: Action)
    requires Valid(job)
  {
    match a
    case FillByte(off) => s.phase.Filling? && off in Offsets(job) && off !in s.phase.written
    case EndFill => s.phase.Filling? && AllWritten(job, s.phase.written)
    case Agree =>
      && s.phase.Comparing? && s.phase.cpu < job.n && s.phase.k < |job.value|
      && View(s.mem, job.pageOrder, s.phase.cpu, ByteAt(job, job.span.lo + s.phase.k)) == job.value[s.phase.k]
    case Differ =>
      && s.phase.Comparing? && s.phase.cpu < job.n && s.phase.k < |job.value|
      && View(s.mem, job.pageOrder, s.phase.cpu, ByteAt(job, job.span.lo + s.phase.k)) != job.value[s.phase.k]
    case NextCpu => s.phase.Comparing? && s.phase.cpu < job.n && s.phase.k == |job.value|
    case RepairByte(off) => s.phase.Repairing? && off in Offsets(job) && off !in s.phase.written
    case EndRepair => s.phase.Repairing? && AllWritten(job, s.phase.written)
    case Return => s.phase.Comparing? && s.phase.cpu == job.n
    case OtherStore(cpu, l, v) => !Inside(job.span, l)
    case OtherInit(l, v) => job.hasInit && !Inside(job.span, l)
    case PageCopy(page) => true
  }

  // What the steps of other threads do to memory.
  ghost function OthersDo(job: Job, m: Memory, a: Action): Memory {
    match a
    case OtherStore(cpu, l, v) => StoreCpu(m, job.pageOrder, cpu, l, v)
    case OtherInit(l, v) => StoreShared(m, l, v)
    case PageCopy(page) => Copy(m, page)
    case _ => m
  }

  ghost function Next(job: Job, s: State, a: Action): State
    requires Valid(job) && Enabled(job, s, a)
  {
    match a
    case FillByte(off) =>
      State(StoreShared(s.mem, ByteAt(job, off), Wanted(job, ByteAt(job, off))), Filling(s.phase.written + {off}))
    case EndFill => s.(phase := Comparing(0, 0))
    case Agree => s.(phase := Comparing(s.phase.cpu, s.phase.k + 1))
    case Differ => s.(phase := Repairing(s.phase.cpu, {}))
    case NextCpu => s.(phase := Comparing(s.phase.cpu + 1, 0))
    case RepairByte(off) =>
      State(StoreCpu(s.mem, job.pageOrder, s.phase.cpu, ByteAt(job, off), Wanted(job, ByteAt(job, off))),
            Repairing(s.phase.cpu, s.phase.written + {off}))
    case EndRepair => s.(phase := Comparing(s.phase.cpu + 1, 0))
    case Return => s.(phase := Finished)
    case _ => s.(mem := OthersDo(job, s.mem, a))
  }

  ghost predicate Start(job: Job, s: State) {
    s.phase == if job.hasInit then Filling({}) else Comparing(0, 0)
  }

  ghost predicate IsRun(job: Job, run: seq<State>, actions: seq<Action>)
    requires Valid(job)
  {
    && |run| == |actions| + 1 && Start(job, run[0])
    && forall i :: 0 <= i < |actions| ==>
      Enabled(job, run[i], actions[i]) && run[i + 1] == Next(job, run[i], actions[i])
  }

  // ---- The invariant ---------------------------------------------------------------

  // The init values hold what was written so far.
  ghost predicate SharedOk(job: Job, s: State)
    requires Valid(job)
  {
    job.hasInit ==> forall l :: Inside(job.span, l) && (s.phase.Filling? ==> l.off in s.phase.written) ==>
                                  Get(s.mem.shared, l) == Wanted(job, l)
  }

  ghost predicate Sees(job: Job, m: Memory, cpu: nat, l: Loc)
    requires Valid(job) && Inside(job.span, l)
  {
    View(m, job.pageOrder, cpu, l) == Wanted(job, l)
  }

  // Whether the invariant promises that the CPU sees the byte already.
  ghost predicate Settled(job: Job, p: Phase, cpu: nat, off: nat) {
    match p
    case Filling(_) => false
    case Comparing(i, k) => cpu < i || (cpu == i && off < job.span.lo + k)
    case Repairing(i, written) => cpu < i || (cpu == i && off in written)
    case Finished => true
  }

  ghost predicate ViewsOk(job: Job, s: State)
    requires Valid(job)
  {
    forall cpu: nat, l :: cpu < job.n && Inside(job.span, l) && Settled(job, s.phase, cpu, l.off) ==>
      Sees(job, s.mem, cpu, l)
  }

  ghost predicate PhaseOk(job: Job, s: State) {
    && (s.phase.Comparing? ==> s.phase.k <= |job.value| && s.phase.cpu <= job.n)
    && (s.phase.Comparing? && s.phase.cpu == job.n ==> s.phase.k == 0)
    && (s.phase.Repairing? ==> s.phase.cpu < job.n)
    && (s.phase.Filling? ==> job.hasInit)
  }

  ghost predicate Inv(job: Job, s: State)
    requires Valid(job)
  {
    PhaseOk(job, s) && SharedOk(job, s) && ViewsOk(job, s)
  }

  // Other threads leave the item's bytes alone, for every CPU.
  lemma OthersSpareItem(job: Job, s: State, a: Action, cpu: nat, l: Loc)
    requires Valid(job) && Others(a) && Enabled(job, s, a) && Inside(job.span, l)
    ensures View(Next(job, s, a).mem, job.pageOrder, cpu, l) == View(s.mem, job.pageOrder, cpu, l)
    ensures Get(Next(job, s, a).mem.shared, l) == Get(s.mem.shared, l)
  {
    match a
    case OtherStore(cpu', l', v) => StoreCpuSees(s.mem, job.pageOrder, cpu', l', v, cpu, l);
    case OtherInit(l', v) => StoreSharedSees(s.mem, job.pageOrder, l', v, cpu, l);
    case PageCopy(page) => CopyIsInvisible(s.mem, job.pageOrder, page, cpu, l);
  }

  lemma OthersKeepInv(job: Job, s: State, a: Action)
    requires Valid(job) && Inv(job, s) && Others(a) && Enabled(job, s, a)
    ensures Inv(job, Next(job, s, a))
  {
    forall cpu: nat, l | Inside(job.span, l)
      ensures View(Next(job, s, a).mem, job.pageOrder, cpu, l) == View(s.mem, job.pageOrder, cpu, l)
      ensures Get(Next(job, s, a).mem.shared, l) == Get(s.mem.shared, l)
    {
      OthersSpareItem(job, s, a, cpu, l);
    }
    forall cpu: nat, l | cpu < job.n && Inside(job.span, l) && Settled(job, s.phase, cpu, l.off)
      ensures Sees(job, Next(job, s, a).mem, cpu, l)
    {
      assert Sees(job, s.mem, cpu, l);
    }
  }

  lemma FillKeepsInv(job: Job, s: State, a: Action)
    requires Valid(job) && Inv(job, s) && (a.FillByte? || a.EndFill?) && Enabled(job, s, a)
    ensures Inv(job, Next(job, s, a))
  {
  }

  lemma CompareKeepsInv(job: Job, s: State, a: Action)
    requires Valid(job) && Inv(job, s) && (a.Agree? || a.Differ? || a.NextCpu? || a.Return?) && Enabled(job, s, a)
    ensures Inv(job, Next(job, s, a))
  {
    var s' := Next(job, s, a);
    forall cpu: nat, l | cpu < job.n && Inside(job.span, l) && Settled(job, s'.phase, cpu, l.off)
      ensures Sees(job, s'.mem, cpu, l)
    {
      if a.Agree? && cpu == s.phase.cpu && l.off == job.span.lo + s.phase.k {
        assert l == ByteAt(job, job.span.lo + s.phase.k);
      } else {
        assert Settled(job, s.phase, cpu, l.off);
      }
    }
  }

  lemma RepairKeepsInv(job: Job, s: State, a: Action)
    requires Valid(job) && Inv(job, s) && (a.RepairByte? || a.EndRepair?) && Enabled(job, s, a)
    ensures Inv(job, Next(job, s, a))
  {
    var s' := Next(job, s, a);
    forall cpu: nat, l | cpu < job.n && Inside(job.span, l) && Settled(job, s'.phase, cpu, l.off)
      ensures Sees(job, s'.mem, cpu, l)
    {
      if a.RepairByte? {
        var b := ByteAt(job, a.off);
        StoreCpuSees(s.mem, job.pageOrder, s.phase.cpu, b, Wanted(job, b), cpu, l);
        if !(cpu == s.phase.cpu && l == b) { assert Settled(job, s.phase, cpu, l.off) && Sees(job, s.mem, cpu, l); }
      } else {
        assert Settled(job, s.phase, cpu, l.off);
      }
    }
  }

  lemma StepKeepsInv(job: Job, s: State, a: Action)
    requires Valid(job) && Inv(job, s) && Enabled(job, s, a)
    ensures Inv(job, Next(job, s, a))
  {
    if Others(a) { OthersKeepInv(job, s, a); }
    else if a.FillByte? || a.EndFill? { FillKeepsInv(job, s, a); }
    else if a.RepairByte? || a.EndRepair? { RepairKeepsInv(job, s, a); }
    else { CompareKeepsInv(job, s, a); }
  }

  lemma {:induction false} RunKeepsInv(job: Job, run: seq<State>, actions: seq<Action>, i: nat)
    requires Valid(job) && IsRun(job, run, actions) && i < |run|
    ensures Inv(job, run[i])
  {
    if i > 0 {
      RunKeepsInv(job, run, actions, i - 1);
      StepKeepsInv(job, run[i - 1], actions[i - 1]);
    }
  }

  // ---- Main results ------------------------------------------------------------------

  /** In every interleaving, from the moment the initialisation returns every CPU sees the
      whole value, and so do the init values when the pool has them. */
  lemma EveryCpuSeesTheValue(job: Job, run: seq<State>, actions: seq<Action>, i: nat)
    requires Valid(job) && IsRun(job, run, actions) && i < |run| && run[i].phase.Finished?
    ensures forall cpu: nat, l :: cpu < job.n && Inside(job.span, l) ==>
            View(run[i].mem, job.pageOrder, cpu, l) == Wanted(job, l)
    ensures job.hasInit ==> forall l :: Inside(job.span, l) ==> Get(run[i].mem.shared, l) == Wanted(job, l)
  {
    RunKeepsInv(job, run, actions, i);
    forall cpu: nat, l | cpu < job.n && Inside(job.span, l)
      ensures View(run[i].mem, job.pageOrder, cpu, l) == Wanted(job, l)
    {
      assert Settled(job, run[i].phase, cpu, l.off) && Sees(job, run[i].mem, cpu, l);
    }
  }

  /** The memory had the initialising thread not existed: the steps of the others alone. */
  ghost function Alone(job: Job, m: Memory, actions: seq<Action>): Memory {
    if actions == [] then m else
    OthersDo(job, Alone(job, m, actions[..|actions| - 1]), actions[|actions| - 1])
  }

  // Two memories that look the same at a location.
  ghost predicate Alike(m: Memory, m': Memory, pageOrder: nat, l: Loc) {
    && Get(m.shared, l) == Get(m'.shared, l)
    && forall cpu: nat :: View(m, pageOrder, cpu, l) == View(m', pageOrder, cpu, l)
  }

  // A step of the initialising thread is seen in its item only.
  lemma OwnStepIsLocal(job: Job, s: State, a: Action, l: Loc)
    requires Valid(job) && Enabled(job, s, a) && !Others(a) && !Inside(job.span, l)
    ensures Alike(Next(job, s, a).mem, s.mem, job.pageOrder, l)
  {
    forall cpu: nat ensures View(Next(job, s, a).mem, job.pageOrder, cpu, l) == View(s.mem, job.pageOrder, cpu, l) {
      if a.RepairByte? {
        StoreCpuSees(s.mem, job.pageOrder, s.phase.cpu, ByteAt(job, a.off), Wanted(job, ByteAt(job, a.off)), cpu, l);
      }
    }
  }

  // A store or page copy of the others looks the same on memories that look the same.
  lemma OtherStepIsAlike(job: Job, m: Memory, m': Memory, a: Action, l: Loc)
    requires Alike(m, m', job.pageOrder, l) && (a.OtherStore? || a.PageCopy?)
    ensures Alike(OthersDo(job, m, a), OthersDo(job, m', a), job.pageOrder, l)
  {
    forall cpu: nat
      ensures View(OthersDo(job, m, a), job.pageOrder, cpu, l) == View(OthersDo(job, m', a), job.pageOrder, cpu, l)
    {
      assert View(m, job.pageOrder, cpu, l) == View(m', job.pageOrder, cpu, l);
      match a
      case OtherStore(cpu', l', v) =>
        StoreCpuSees(m, job.pageOrder, cpu', l', v, cpu, l);
        StoreCpuSees(m', job.pageOrder, cpu', l', v, cpu, l);
      case PageCopy(page) =>
        CopyIsInvisible(m, job.pageOrder, page, cpu, l);
        CopyIsInvisible(m', job.pageOrder, page, cpu, l);
    }
  }

  // A pool without init values: the others only store and copy.
  lemma {:induction false} StoresAreAlike(job: Job, run: seq<State>, actions: seq<Action>, i: nat, l: Loc)
    requires Valid(job) && IsRun(job, run, actions) && i < |run| && !Inside(job.span, l) && !job.hasInit
    ensures Alike(run[i].mem, Alone(job, run[0].mem, actions[..i]), job.pageOrder, l)
  {
    if i > 0 {
      StoresAreAlike(job, run, actions, i - 1, l);
      var (a, s) := (actions[i - 1], run[i - 1]);
      assert actions[..i][..i - 1] == actions[..i - 1] && actions[..i][i - 1] == a;
      if Others(a) {
        OtherStepIsAlike(job, s.mem, Alone(job, run[0].mem, actions[..i - 1]), a, l);
      } else {
        OwnStepIsLocal(job, s, a, l);
      }
    }
  }

  /** With init values the repair of a CPU's bytes starts only where that CPU has copied a
      page of the item: otherwise it would see the init values, which are in place. */
  ghost predicate RepairsCopy(job: Job, s: State) {
    job.hasInit && s.phase.Repairing? ==>
      exists k :: Inside(job.span, k) && PageOf(job.pageOrder, s.phase.cpu, k) in s.mem.copies
  }

  lemma DifferFindsCopy(job: Job, s: State)
    requires Valid(job) && Inv(job, s) && Enabled(job, s, Differ)
    ensures RepairsCopy(job, Next(job, s, Differ))
  {
    var k := ByteAt(job, job.span.lo + s.phase.k);
    assert Inside(job.span, k) && Wanted(job, k) == job.value[s.phase.k];
  }

  lemma StepKeepsCopy(job: Job, s: State, a: Action)
    requires Valid(job) && Inv(job, s) && RepairsCopy(job, s) && Enabled(job, s, a)
    ensures RepairsCopy(job, Next(job, s, a))
  {
    if a.Differ? {
      DifferFindsCopy(job, s);
    } else if job.hasInit && s.phase.Repairing? {
      var k :| Inside(job.span, k) && PageOf(job.pageOrder, s.phase.cpu, k) in s.mem.copies;
      assert PageOf(job.pageOrder, s.phase.cpu, k) in Next(job, s, a).mem.copies;
    }
  }

  lemma {:induction false} RunRepairsCopy(job: Job, run: seq<State>, actions: seq<Action>, i: nat)
    requires Valid(job) && IsRun(job, run, actions) && i < |run|
    ensures RepairsCopy(job, run[i])
  {
    if i > 0 {
      RunRepairsCopy(job, run, actions, i - 1);
      RunKeepsInv(job, run, actions, i - 1);
      StepKeepsCopy(job, run[i - 1], actions[i - 1]);
    }
  }

  /** An item that shares a page with anything else lies in that one page. */
  ghost predicate Whole(item: Span, pageOrder: nat) {
    forall k, k', l :: Inside(item, k) && Inside(item, k') && !Inside(item, l) &&
                       PageOf(pageOrder, 0, k) == PageOf(pageOrder, 0, l) ==>
                         PageOf(pageOrder, 0, k') == PageOf(pageOrder, 0, k)
  }

  // The pages of the item are those it needs for its bytes: a power of two of them or one.
  lemma ItemIsWhole(base: nat, n: nat, order: nat, pageOrder: nat)
    ensures Whole(Span(base, n * Pow2(order), n * Pow2(order) + Pow2(order)), pageOrder)
  {
    var item := Span(base, n * Pow2(order), n * Pow2(order) + Pow2(order));
    forall k, k', l | Inside(item, k) && Inside(item, k') && !Inside(item, l) &&
                      PageOf(pageOrder, 0, k) == PageOf(pageOrder, 0, l)
      ensures PageOf(pageOrder, 0, k') == PageOf(pageOrder, 0, k)
    {
      BlockOf(k.off, n, order);
      BlockOf(k'.off, n, order);
      BlockOf(l.off, n, order);
      if order <= pageOrder {
        HighHigh(k.off, order, pageOrder - order);
        HighHigh(k'.off, order, pageOrder - order);
      } else {
        HighHigh(k.off, pageOrder, order - pageOrder);
        HighHigh(l.off, pageOrder, order - pageOrder);
      }
    }
  }

  lemma BlockOf(x: nat, n: nat, order: nat)
    ensures n * Pow2(order) <= x < n * Pow2(order) + Pow2(order) <==> High(x, order) == n
  {
    Split(x, order);
    if n * Pow2(order) <= x < n * Pow2(order) + Pow2(order) {
      SplitUnique(x, order, n, x - n * Pow2(order));
    }
  }

  lemma {:induction false} HighHigh(x: nat, j: nat, k: nat)
    ensures High(High(x, j), k) == High(x, j + k)
  {
    if j > 0 { HighHigh(x / 2, j - 1, k); }
  }

  // Two memories with the same copies of the page of a location, and the same values there.
  ghost predicate Twin(m: Memory, m': Memory, pageOrder: nat, l: Loc) {
    && Get(m.shared, l) == Get(m'.shared, l)
    && forall cpu: nat :: SameCopy(m.copies, m'.copies, PageOf(pageOrder, cpu, l), l)
  }

  ghost predicate SameCopy(copies: map<Page, map<Loc, int>>, copies': map<Page, map<Loc, int>>, p: Page, l: Loc) {
    (p in copies <==> p in copies') && (p in copies ==> Get(copies[p], l) == Get(copies'[p], l))
  }

  // A repair copies no page that another item is on.
  lemma RepairCopiesOwnPages(job: Job, item: Span, s: State, off: nat, l: Loc)
    requires Valid(job) && Enabled(job, s, RepairByte(off)) && job.hasInit && RepairsCopy(job, s)
    requires PartOf(job, item) && Whole(item, job.pageOrder) && !Inside(item, l)
    requires PageOf(job.pageOrder, s.phase.cpu, ByteAt(job, off)) == PageOf(job.pageOrder, s.phase.cpu, l)
    ensures PageOf(job.pageOrder, s.phase.cpu, l) in s.mem.copies
  {
    var k :| Inside(job.span, k) && PageOf(job.pageOrder, s.phase.cpu, k) in s.mem.copies;
    assert Inside(job.span, ByteAt(job, off)) && Inside(item, ByteAt(job, off)) && Inside(item, k);
    assert PageOf(job.pageOrder, 0, k) == PageOf(job.pageOrder, 0, ByteAt(job, off));
  }

  ghost predicate PartOf(job: Job, item: Span) { forall l :: Inside(job.span, l) ==> Inside(item, l) }

  lemma OwnStepIsTwin(job: Job, item: Span, s: State, a: Action, l: Loc)
    requires Valid(job) && Enabled(job, s, a) && !Others(a) && job.hasInit && RepairsCopy(job, s)
    requires PartOf(job, item) && Whole(item, job.pageOrder) && !Inside(item, l)
    ensures Twin(Next(job, s, a).mem, s.mem, job.pageOrder, l)
  {
    assert !Inside(job.span, l);
    if a.RepairByte? {
      var (p, p') := (PageOf(job.pageOrder, s.phase.cpu, ByteAt(job, a.off)), PageOf(job.pageOrder, s.phase.cpu, l));
      if p == p' { RepairCopiesOwnPages(job, item, s, a.off, l); }
    }
  }

  lemma CopyIsSame(m: Memory, m': Memory, page: Page, p: Page, l: Loc)
    requires Get(m.shared, l) == Get(m'.shared, l) && SameCopy(m.copies, m'.copies, p, l)
    ensures SameCopy(Copy(m, page).copies, Copy(m', page).copies, p, l)
  {
  }

  lemma OtherStepIsSame(job: Job, m: Memory, m': Memory, a: Action, p: Page, l: Loc)
    requires Get(m.shared, l) == Get(m'.shared, l) && SameCopy(m.copies, m'.copies, p, l)
    ensures SameCopy(OthersDo(job, m, a).copies, OthersDo(job, m', a).copies, p, l)
  {
    hide PageOf;
    match a
    case OtherStore(cpu, l', v) =>
      var page := PageOf(job.pageOrder, cpu, l');
      CopyIsSame(m, m', page, p, l);
      assert page in Copy(m, page).copies && page in Copy(m', page).copies;
      hide Copy;
    case PageCopy(page) => CopyIsSame(m, m', page, p, l);
    case _ =>
  }

  lemma OtherStepIsTwin(job: Job, m: Memory, m': Memory, a: Action, l: Loc)
    requires Twin(m, m', job.pageOrder, l)
    ensures Twin(OthersDo(job, m, a), OthersDo(job, m', a), job.pageOrder, l)
  {
    hide PageOf, SameCopy;
    forall cpu: nat {
      OtherStepIsSame(job, m, m', a, PageOf(job.pageOrder, cpu, l), l);
    }
  }

  // A pool with init values: the same pages of other items are copied.
  lemma {:induction false} CopiesAreTwin(job: Job, item: Span, run: seq<State>, actions: seq<Action>, i: nat, l: Loc)
    requires Valid(job) && IsRun(job, run, actions) && i < |run| && job.hasInit
    requires PartOf(job, item) && Whole(item, job.pageOrder) && !Inside(item, l)
    ensures Twin(run[i].mem, Alone(job, run[0].mem, actions[..i]), job.pageOrder, l)
  {
    if i > 0 {
      CopiesAreTwin(job, item, run, actions, i - 1, l);
      var (a, s) := (actions[i - 1], run[i - 1]);
      assert actions[..i][..i - 1] == actions[..i - 1] && actions[..i][i - 1] == a;
      if Others(a) {
        OtherStepIsTwin(job, s.mem, Alone(job, run[0].mem, actions[..i - 1]), a, l);
      } else {
        RunRepairsCopy(job, run, actions, i - 1);
        OwnStepIsTwin(job, item, s, a, l);
        TwinChain(run[i].mem, s.mem, Alone(job, run[0].mem, actions[..i]), job.pageOrder, l);
      }
    }
  }

  lemma TwinChain(m: Memory, m': Memory, m'': Memory, pageOrder: nat, l: Loc)
    requires Twin(m, m', pageOrder, l) && Twin(m', m'', pageOrder, l)
    ensures Twin(m, m'', pageOrder, l)
  {
    forall cpu: nat ensures SameCopy(m.copies, m''.copies, PageOf(pageOrder, cpu, l), l) {
      assert SameCopy(m.copies, m'.copies, PageOf(pageOrder, cpu, l), l);
      assert SameCopy(m'.copies, m''.copies, PageOf(pageOrder, cpu, l), l);
    }
  }

  lemma TwinIsAlike(m: Memory, m': Memory, pageOrder: nat, l: Loc)
    requires Twin(m, m', pageOrder, l)
    ensures Alike(m, m', pageOrder, l)
  {
    forall cpu: nat ensures View(m, pageOrder, cpu, l) == View(m', pageOrder, cpu, l) {
      assert SameCopy(m.copies, m'.copies, PageOf(pageOrder, cpu, l), l);
    }
  }

  /** No interference: initialising an item, or a part of it, changes nothing outside. At
      every moment every CPU and the init values have of every other item, also of those
      that other threads are initialising, exactly what they would have without it. */
  lemma OtherItemsUnaffected(job: Job, item: Span, run: seq<State>, actions: seq<Action>, i: nat, l: Loc)
    requires Valid(job) && IsRun(job, run, actions) && i < |run|
    requires PartOf(job, item) && Whole(item, job.pageOrder) && !Inside(item, l)
    ensures Alike(run[i].mem, Alone(job, run[0].mem, actions[..i]), job.pageOrder, l)
  {
    if job.hasInit {
      CopiesAreTwin(job, item, run, actions, i, l);
      TwinIsAlike(run[i].mem, Alone(job, run[0].mem, actions[..i]), job.pageOrder, l);
    } else {
      StoresAreAlike(job, run, actions, i, l);
    }
  }

  /** The initialising thread always has a next step until it returns. */
  lemma NeverStuck(job: Job, run: seq<State>, actions: seq<Action>, i: nat) returns (a: Action)
    requires Valid(job) && IsRun(job, run, actions) && i < |run| && !run[i].phase.Finished?
    ensures !Others(a) && Enabled(job, run[i], a)
  {
    RunKeepsInv(job, run, actions, i);
    var s := run[i];
    match s.phase
    case Filling(written) =>
      if off: nat :| job.span.lo <= off < job.span.hi && off !in written { a := FillByte(off); } else { a := EndFill; }
    case Repairing(cpu, written) =>
      if off: nat :| job.span.lo <= off < job.span.hi && off !in written {
        a := RepairByte(off);
      } else {
        a := EndRepair;
      }
    case Comparing(cpu, k) =>
      if cpu == job.n { a := Return; }
      else if k == |job.value| { a := NextCpu; }
      else if View(s.mem, job.pageOrder, cpu, ByteAt(job, job.span.lo + k)) == job.value[k] { a := Agree; }
      else { a := Differ; }
  }

  // Steps for the CPUs from cpu on, at most.
  ghost function Rest(job: Job, cpu: int): int { (job.n - cpu) * (2 * |job.value| + 3) }

  lemma RestStep(job: Job, cpu: int)
    ensures Rest(job, cpu) == Rest(job, cpu + 1) + 2 * |job.value| + 3
    ensures cpu == job.n ==> Rest(job, cpu) == 0
    ensures cpu <= job.n ==> Rest(job, cpu) >= 0
  {
  }

  /** Steps the initialising thread has left at most. */
  ghost function Rank(job: Job, p: Phase): int
    requires Valid(job)
  {
    match p
    case Filling(written) => Rest(job, 0) + 2 + |Offsets(job) - written|
    case Comparing(cpu, k) => Rest(job, cpu) + 1 - k
    case Repairing(cpu, written) => Rest(job, cpu + 1) + 2 + |Offsets(job) - written|
    case Finished => 0
  }

  lemma OneLess(all: set<nat>, written: set<nat>, off: nat)
    requires off in all && off !in written
    ensures |all - (written + {off})| == |all - written| - 1
  {
    assert all - written == (all - (written + {off})) + {off};
  }

  // Each step of the initialising thread brings it nearer to its end.
  lemma WritingUsesRank(job: Job, s: State, a: Action)
    requires Valid(job) && PhaseOk(job, s) && Enabled(job, s, a) && !Others(a)
    requires s.phase.Filling? || s.phase.Repairing?
    ensures Rank(job, Next(job, s, a).phase) < Rank(job, s.phase)
  {
    hide Rest, Between;
    if a.FillByte? || a.RepairByte? { OneLess(Offsets(job), s.phase.written, a.off); }
  }

  lemma ComparingUsesRank(job: Job, s: State, a: Action)
    requires Valid(job) && PhaseOk(job, s) && Enabled(job, s, a) && !Others(a) && s.phase.Comparing?
    ensures Rank(job, Next(job, s, a).phase) < Rank(job, s.phase)
  {
    hide Rest, Between, View;
    RestStep(job, s.phase.cpu);
    assert Offsets(job) - {} == Offsets(job);
  }

  // Steps of the initialising thread among the first i.
  ghost function OwnSteps(actions: seq<Action>, i: nat): nat
    requires i <= |actions|
  {
    if i == 0 then 0 else OwnSteps(actions, i - 1) + if Others(actions[i - 1]) then 0 else 1
  }

  /** The initialisation ends: in every interleaving its thread makes at most as many steps as the
      rank it starts with, which depends on the number of CPUs and the length only. */
  lemma {:induction false} StepsAreBounded(job: Job, run: seq<State>, actions: seq<Action>, i: nat)
    requires Valid(job) && IsRun(job, run, actions) && i < |run|
    ensures OwnSteps(actions, i) + Rank(job, run[i].phase) <= Rest(job, 0) + 2 + |job.value|
    ensures Rank(job, run[i].phase) >= 0 && (Rank(job, run[i].phase) == 0 <==> run[i].phase.Finished?)
  {
    hide Inv, Enabled, Next;
    if i == 0 {
      RankStarts(job, run[0]);
    } else {
      StepsAreBounded(job, run, actions, i - 1);
      RunKeepsInv(job, run, actions, i - 1);
      RunKeepsInv(job, run, actions, i);
      RankIsPositive(job, run[i]);
      if Others(actions[i - 1]) {
        OthersKeepPhase(job, run[i - 1], actions[i - 1]);
      } else {
        OwnUsesRank(job, run[i - 1], actions[i - 1]);
      }
    }
  }

  lemma RankStarts(job: Job, s: State)
    requires Valid(job) && Start(job, s)
    ensures 0 < Rank(job, s.phase) <= Rest(job, 0) + 2 + |job.value|
  {
    hide Rest, Between;
    RestStep(job, 0);
    assert Offsets(job) - {} == Offsets(job);
  }

  lemma RankIsPositive(job: Job, s: State)
    requires Valid(job) && Inv(job, s)
    ensures Rank(job, s.phase) >= 0 && (Rank(job, s.phase) == 0 <==> s.phase.Finished?)
  {
    hide Rest, Between;
    RestStep(job, 0);
    if s.phase.Comparing? || s.phase.Repairing? {
      RestStep(job, s.phase.cpu);
      RestStep(job, s.phase.cpu + 1);
    }
  }

  lemma OwnUsesRank(job: Job, s: State, a: Action)
    requires Valid(job) && Inv(job, s) && Enabled(job, s, a) && !Others(a)
    ensures Rank(job, Next(job, s, a).phase) < Rank(job, s.phase)
  {
    if s.phase.Comparing? { ComparingUsesRank(job, s, a); } else { WritingUsesRank(job, s, a); }
  }

  lemma OthersKeepPhase(job: Job, s: State, a: Action)
    requires Valid(job) && Enabled(job, s, a) && Others(a)
    ensures Next(job, s, a).phase == s.phase
  {
  }

  // A page copied before the store of the init value.
  lemma MissedCopy() returns (run: seq<State>, actions: seq<Action>)
    ensures var job := Job(Span(0, 0, 1), [1], 1, true, 0);
            && Valid(job) && job.value[0] == 1 && IsRun(job, run, actions)
            && actions == [PageCopy(Page(0, 0, 0)), FillByte(0), EndFill]
            && SharedOk(job, run[3]) && View(run[3].mem, job.pageOrder, 0, Loc(0, 0)) != 1
  {
    hide Between;
    var job := Job(Span(0, 0, 1), [1], 1, true, 0);
    var s0 := State(Memory(map[], map[]), Filling({}));
    var s1 := State(Memory(map[], map[Page(0, 0, 0) := map[]]), Filling({}));
    assert s1 == Next(job, s0, PageCopy(Page(0, 0, 0)));
    var s2 := State(Memory(map[Loc(0, 0) := 1], s1.mem.copies), Filling({0}));
    assert s2 == Next(job, s1, FillByte(0)) by { assert {} + {0} == {0}; }
    assert AllWritten(job, {0});
    var s3 := s2.(phase := Comparing(0, 0));
    run, actions := [s0, s1, s2, s3], [PageCopy(Page(0, 0, 0)), FillByte(0), EndFill];
    assert PageOf(0, 0, Loc(0, 0)) == Page(0, 0, 0);
    assert View(s3.mem, 0, 0, Loc(0, 0)) == 0;
  }

  /** The repair is needed: a neighbour's page copy before the init store leaves a CPU
      without the value, although every byte of the init values was stored. */
  lemma StoringInitValuesIsNotEnough()
    ensures exists job: Job, run: seq<State>, actions: seq<Action> ::
              && Valid(job) && job.n == 1 && |job.value| == 1
              && IsRun(job, run, actions) && actions == [PageCopy(Page(0, 0, 0)), FillByte(0), EndFill]
              && SharedOk(job, run[3]) && View(run[3].mem, job.pageOrder, 0, Loc(0, 0)) != job.value[0]
  {
    var run, actions := MissedCopy();
    var job := Job(Span(0, 0, 1), [1], 1, true, 0);
    hide IsRun, SharedOk, View, Valid;
    assert Valid(job) && IsRun(job, run, actions);
  }
}
