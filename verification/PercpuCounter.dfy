/**
 Per-CPU counting, two ways: under a per-CPU spinlock taken inside a section and
 released with a plain store from wherever the holder runs by then, and with the
 single-instruction add helper.
 */
module PercpuCounter {
  import opened Machine
  import opened Sections
  import opened Atomicity
  import opened Conservation
  import opened Returns

  // Per CPU: the lock word, the count it protects, and the count of the add helper.
  function Lock(base: Addr, c: int): Addr { base + STRIDE * c }
  function Count(base: Addr, c: int): Addr { base + STRIDE * c + 8 }
  function Adds(base: Addr, c: int): Addr { base + STRIDE * c + 16 }

  lemma Apart(base: Addr, c: int)
    ensures forall d :: Lock(base, d) !in {Count(base, c), Adds(base, c)} && Adds(base, c) != Count(base, d)
  {
    forall d ensures Lock(base, d) !in {Count(base, c), Adds(base, c)} && Adds(base, c) != Count(base, d) {
      assert STRIDE * (d - c) != 8 && STRIDE * (d - c) != 16;
    }
  }

  datatype Pc =
    | Ready
    | Spin | SpinCpu | Spinning | Locked | Loaded | Counted | Checked | Failed
    | Add | AddCpu | Adding

  // The C locals; `regions` and `adds` count what the thread has completed, the other two
  // counts the iterations it has begun of each test.
  datatype Local = Local(pc: Pc, cpu: int, tmp: Word, regions: nat, adds: nat, lockIterations: nat, addIterations: nat)

  type World = Program<Local>

  function LockCall(base: Addr, c: int): Call { CbneStore(Lock(base, c), 0, 1) }
  function AddCall(base: Addr, c: int): Call { AddStore(Adds(base, c), 1) }

  predicate CanGo(w: World, t: nat) {
    && t < |w.s.th| && t < |w.loc| && w.s.th[t].on >= 0 && w.loc[t].pc != Failed
    && var act := w.s.th[t].act;
       if w.loc[t].pc in {Spinning, Adding} then act.Busy? && act.pc.Exit? else act.Idle?
  }

  /** The locals after the next C statement; at Ready the thread picks a test (`spin`). */
  function NextLocal(base: Addr, w: World, t: nat, spin: bool): Local
    requires CanGo(w, t)
  {
    var (x, l, m) := (w.s.th[t], w.loc[t], w.s.mem);
    match l.pc
    case Ready =>
      if spin then l.(pc := Spin, lockIterations := l.lockIterations + 1)
      else l.(pc := Add, addIterations := l.addIterations + 1)
    case Spin => l.(pc := SpinCpu, cpu := CpuStart(x))
    case SpinCpu => l.(pc := Spinning)
    case Spinning => l.(pc := if ReturnValue(x.act.pc.l) == 0 then Locked else Spin)
    case Locked => l.(pc := Loaded, tmp := Get(m, Count(base, l.cpu)))
    case Loaded => l.(pc := Counted, regions := l.regions + 1)
    case Counted => l.(pc := if Get(m, Lock(base, l.cpu)) == 1 then Checked else Failed)
    case Checked => l.(pc := Ready)
    case Add => l.(pc := AddCpu, cpu := CpuStart(x))
    case AddCpu => l.(pc := Adding)
    case Adding => if ReturnValue(x.act.pc.l) == 0 then l.(pc := Ready, adds := l.adds + 1) else l.(pc := Add)
    case Failed => l
  }

  /** The machine step behind the next C statement of thread t. */
  ghost function Statement(base: Addr, w: World, t: nat, site: nat, junk: Regs): Step
    requires CanGo(w, t)
  {
    var l := w.loc[t];
    match l.pc
    case SpinCpu => Begin(t, LockCall(base, l.cpu), l.cpu, site, junk)
    case AddCpu => Begin(t, AddCall(base, l.cpu), l.cpu, site, junk)
    case Spinning => Return(t)
    case Adding => Return(t)
    case Loaded => Plain(t, Count(base, l.cpu), l.tmp + 1)
    case Checked => Plain(t, Lock(base, l.cpu), 0)
    case _ => Compute(t)
  }

  datatype Move = K(e: Event) | I(t: nat) | C(t: nat, spin: bool, site: nat, junk: Regs)

  ghost predicate CanMove(base: Addr, w: World, v: Move) {
    match v
    case K(e) => Enabled(w.s, e)
    case I(t) => t < |w.s.th| && CanStep(w.s.th[t])
    case C(t, _, site, junk) => CanGo(w, t) && EnabledStep(w.s, Statement(base, w, t, site, junk))
  }

  /** The machine step of a move. */
  ghost function StepOf(base: Addr, w: World, v: Move): Step
    requires CanMove(base, w, v)
    ensures EnabledStep(w.s, StepOf(base, w, v))
  {
    match v
    case K(e) => Kern(e)
    case I(t) => User(t)
    case C(t, _, site, junk) => Statement(base, w, t, site, junk)
  }

  ghost function Do(base: Addr, w: World, v: Move): World
    requires CanMove(base, w, v)
  {
    Program(Apply(w.s, StepOf(base, w, v)), if v.C? then w.loc[v.t := NextLocal(base, w, v.t, v.spin)] else w.loc)
  }

  // ---------------------------------------------------------------- invariant

  /** The thread owns the lock of CPU l.cpu: from the commit of its lock section to
      the store that releases it, wherever it runs. */
  ghost predicate Owns(x: Thread, l: Local) {
    l.pc in {Locked, Loaded, Counted, Checked} || (l.pc == Spinning && x.act.Busy? && x.act.commits == 1)
  }

  // Completed adds, counting one that has committed but not returned.
  ghost function AddsDone(x: Thread, l: Local): int {
    l.adds + if l.pc == Adding && x.act.Busy? && x.act.commits == 1 then 1 else 0
  }

  ghost predicate LocalOk(base: Addr, x: Thread, l: Local, m: Mem, t: nat, who: seq<int>) {
    && 0 <= l.cpu < |who|
    && l.pc != Failed
    && (l.pc in {Spinning, Adding} ==> x.act.Busy? && x.act.cpu == l.cpu)
    && (l.pc !in {Spinning, Adding} ==> x.act.Idle?)
    && (l.pc == Spinning ==> x.act.call == LockCall(base, l.cpu))
    && (l.pc == Adding ==> x.act.call == AddCall(base, l.cpu))
    && (Owns(x, l) ==> who[l.cpu] == t)
    && (l.pc == Loaded ==> l.tmp == Get(m, Count(base, l.cpu)))
  }

  // who[c] is the thread that owns CPU c's lock, or -1.
  ghost predicate LockOk(base: Addr, w: World, c: nat, who: seq<int>)
    requires c < |who| && |w.loc| == |w.s.th|
  {
    && -1 <= who[c] < |w.loc|
    && Get(w.s.mem, Lock(base, c)) == (if who[c] >= 0 then 1 else 0)
    && (who[c] >= 0 ==> Owns(w.s.th[who[c]], w.loc[who[c]]) && w.loc[who[c]].cpu == c)
  }

  ghost function Counts(base: Addr, m: Mem, n: nat): seq<int> { seq(n, c => Get(m, Count(base, c))) }
  ghost function AddCounts(base: Addr, m: Mem, n: nat): seq<int> { seq(n, c => Get(m, Adds(base, c))) }
  ghost function Regions(w: World): seq<int> { seq(|w.loc|, t requires 0 <= t < |w.loc| => w.loc[t].regions as int) }

  ghost function AllAdds(w: World): seq<int>
    requires |w.loc| == |w.s.th|
  {
    seq(|w.loc|, t requires 0 <= t < |w.loc| => AddsDone(w.s.th[t], w.loc[t]))
  }

  ghost predicate Locals(base: Addr, w: World, who: seq<int>) {
    && |w.s.th| == |w.loc|
    && forall t :: 0 <= t < |w.loc| ==> LocalOk(base, w.s.th[t], w.loc[t], w.s.mem, t, who)
  }

  ghost predicate Locks(base: Addr, w: World, who: seq<int>) {
    && |w.s.th| == |w.loc|
    && forall c :: 0 <= c < |who| ==> LockOk(base, w, c, who)
  }

  // The counters hold what the threads have completed.
  ghost predicate Sums(base: Addr, w: World) {
    && |w.s.th| == |w.loc|
    && Total(Counts(base, w.s.mem, w.s.nCpus)) == Total(Regions(w))
    && Total(AddCounts(base, w.s.mem, w.s.nCpus)) == Total(AllAdds(w))
  }

  ghost predicate Content(base: Addr, w: World, who: seq<int>) {
    |who| == w.s.nCpus > 0 && Locks(base, w, who) && Locals(base, w, who) && Sums(base, w)
  }

  ghost predicate Inv(base: Addr, w: World, who: seq<int>) {
    KInv(w.s) && SInv(w.s) && Content(base, w, who)
  }

  // ---------------------------------------------------------------- no move disturbs a section

  /** A running section depends at most on the lock word of the CPU it runs on, and
      once it does, that lock is free. */
  lemma SectionCells(base: Addr, w: World, who: seq<int>, u: nat, a: Addr)
    requires Content(base, w, who) && u < |w.loc| && ThreadOk(w.s.th[u], w.s.nCpus) && SThread(w.s.th[u], w.s.mem)
    requires Active(w.s.th[u]) && Depends(w.s.th[u].act, w.s.mem, a)
    ensures var c := w.s.th[u].on; 0 <= c < |who| && a == Lock(base, c) && Get(w.s.mem, a) == 0 && who[c] == -1
  {
    assert LocalOk(base, w.s.th[u], w.loc[u], w.s.mem, u, who);
    assert LockOk(base, w, w.s.th[u].on, who);
  }

  // A cell that is no lock word but one that thread t owns, or that of the CPU it runs on.
  ghost predicate Private(base: Addr, who: seq<int>, t: nat, on: int, a: Addr) {
    forall c :: 0 <= c < |who| && a == Lock(base, c) ==> who[c] == t || c == on
  }

  // Such a cell is in no section of another thread.
  lemma PrivateIsIndependent(base: Addr, w: World, who: seq<int>, t: nat, u: nat, a: Addr)
    requires Inv(base, w, who) && t < |w.loc| && u < |w.loc| && w.s.th[t].on >= 0 && Active(w.s.th[u])
    requires Private(base, who, t, w.s.th[t].on, a) && (u == t ==> !Active(w.s.th[t]))
    ensures !Depends(w.s.th[u].act, w.s.mem, a)
  {
    assert ThreadOk(w.s.th[u], w.s.nCpus) && SThread(w.s.th[u], w.s.mem);
    if Depends(w.s.th[u].act, w.s.mem, a) { SectionCells(base, w, who, u, a); }
  }

  /** A step of thread t that stores to such a cell disturbs no other section. */
  lemma StoreIsQuiet(base: Addr, w: World, who: seq<int>, p: Step, t: nat, a: Addr)
    requires Inv(base, w, who) && EnabledStep(w.s, p) && t < |w.loc| && w.s.th[t].on >= 0
    requires p == User(t) || (p.Plain? && p.t == t)
    requires Private(base, who, t, w.s.th[t].on, a)
    requires forall x :: x != a ==> Get(Apply(w.s, p).mem, x) == Get(w.s.mem, x)
    ensures Quiet(w.s, p)
  {
    forall u, x | 0 <= u < |w.s.th| && Active(w.s.th[u]) && !(p.User? && p.t == u) && Depends(w.s.th[u].act, w.s.mem, x)
      ensures Get(Apply(w.s, p).mem, x) == Get(w.s.mem, x)
    {
      PrivateIsIndependent(base, w, who, t, u, a);
    }
  }

  // The only cell an instruction can change: the lock word or the add counter of its CPU.
  lemma InstructionWrites(base: Addr, w: World, t: nat, who: seq<int>) returns (a: Addr)
    requires Content(base, w, who) && t < |w.loc| && CanStep(w.s.th[t]) && ThreadOk(w.s.th[t], w.s.nCpus)
    ensures 0 <= w.s.th[t].on < |who| && a in {Lock(base, w.s.th[t].on), Adds(base, w.s.th[t].on)}
    ensures forall x :: x != a ==> Get(Instruction(w.s, t).mem, x) == Get(w.s.mem, x)
  {
    var (x, l) := (w.s.th[t], w.loc[t]);
    assert LocalOk(base, x, l, w.s.mem, t, who);
    a := if l.pc == Spinning then Lock(base, x.on) else Adds(base, x.on);
  }

  lemma InstructionIsQuiet(base: Addr, w: World, t: nat, who: seq<int>)
    requires Inv(base, w, who) && t < |w.loc| && CanStep(w.s.th[t])
    ensures Quiet(w.s, User(t))
  {
    assert ThreadOk(w.s.th[t], w.s.nCpus);
    var a := InstructionWrites(base, w, t, who);
    Apart(base, w.s.th[t].on);
    StoreIsQuiet(base, w, who, User(t), t, a);
  }

  lemma StatementIsQuiet(base: Addr, w: World, v: Move, who: seq<int>)
    requires Inv(base, w, who) && CanMove(base, w, v) && v.C?
    ensures Quiet(w.s, StepOf(base, w, v))
  {
    hide Sums, Quiet;
    var (t, p) := (v.t, StepOf(base, w, v));
    if p.Plain? {
      assert LocalOk(base, w.s.th[t], w.loc[t], w.s.mem, t, who);
      Apart(base, w.loc[t].cpu);
      StoreIsQuiet(base, w, who, p, t, p.x);
    } else {
      SilentIsQuiet(w.s, p);
    }
  }

  /** No move of this system changes a cell that another running section depends on. */
  lemma MoveIsQuiet(base: Addr, w: World, v: Move, who: seq<int>)
    requires Inv(base, w, who) && CanMove(base, w, v)
    ensures Quiet(w.s, StepOf(base, w, v))
  {
    match v
    case K(e) => KernelKeepsCalls(w.s, e); SilentIsQuiet(w.s, Kern(e));
    case I(t) => InstructionIsQuiet(base, w, t, who);
    case C(_, _, _, _) => StatementIsQuiet(base, w, v, who);
  }

  // ---------------------------------------------------------------- what the moves do to the content

  lemma KernelMove(base: Addr, w: World, e: Event, who: seq<int>)
    requires Content(base, w, who) && Enabled(w.s, e)
    ensures Content(base, w.(s := Kernel(w.s, e)), who)
  {
    KernelKeepsCalls(w.s, e);
    var w' := w.(s := Kernel(w.s, e));
    forall u | 0 <= u < |w.loc| ensures LocalOk(base, w'.s.th[u], w'.loc[u], w'.s.mem, u, who) {
      assert LocalOk(base, w.s.th[u], w.loc[u], w.s.mem, u, who);
    }
    forall c | 0 <= c < |who| ensures LockOk(base, w', c, who) {
      assert LockOk(base, w, c, who);
      if who[c] >= 0 { assert LocalOk(base, w.s.th[who[c]], w.loc[who[c]], w.s.mem, who[c], who); }
    }
    assert Regions(w') == Regions(w) && AllAdds(w') == AllAdds(w);
  }

  // Only thread t changes.
  ghost predicate OthersStay(w: World, w': World, t: nat) {
    && |w'.s.th| == |w.s.th| == |w'.loc| == |w.loc| && t < |w.loc| && w'.s.nCpus == w.s.nCpus
    && forall u :: 0 <= u < |w.loc| && u != t ==> w'.s.th[u] == w.s.th[u] && w'.loc[u] == w.loc[u]
  }

  // Another thread's locals after a step of thread t.
  lemma LocalFrame(base: Addr, x: Thread, l: Local, m: Mem, m': Mem, u: nat, who: seq<int>, who': seq<int>)
    requires LocalOk(base, x, l, m, u, who) && |who'| == |who| && (who[l.cpu] == u ==> who'[l.cpu] == u)
    requires who[l.cpu] == u ==> Get(m', Count(base, l.cpu)) == Get(m, Count(base, l.cpu))
    ensures LocalOk(base, x, l, m', u, who')
  {
  }

  // What thread t may change: locks it owns or takes, and counts under locks it owns.
  ghost predicate SparesOwners(base: Addr, m: Mem, m': Mem, t: nat, who: seq<int>, who': seq<int>)
    requires |who'| == |who|
  {
    forall c :: 0 <= c < |who| && who[c] >= 0 && who[c] != t ==>
      who'[c] == who[c] && Get(m', Count(base, c)) == Get(m, Count(base, c))
  }

  /** The locals after a step of thread t. */
  lemma LocalsAfter(base: Addr, w: World, w': World, t: nat, who: seq<int>, who': seq<int>)
    requires Locals(base, w, who) && OthersStay(w, w', t) && |who'| == |who|
    requires SparesOwners(base, w.s.mem, w'.s.mem, t, who, who')
    requires LocalOk(base, w'.s.th[t], w'.loc[t], w'.s.mem, t, who')
    ensures Locals(base, w', who')
  {
    forall u | 0 <= u < |w.loc| ensures LocalOk(base, w'.s.th[u], w'.loc[u], w'.s.mem, u, who') {
      if u != t {
        assert LocalOk(base, w.s.th[u], w.loc[u], w.s.mem, u, who);
        LocalFrame(base, w.s.th[u], w.loc[u], w.s.mem, w'.s.mem, u, who, who');
      }
    }
  }

  // Locks keep their owners when thread t changes nothing about ownership.
  lemma LocksStay(base: Addr, w: World, w': World, t: nat, who: seq<int>)
    requires Locks(base, w, who) && OthersStay(w, w', t)
    requires Owns(w.s.th[t], w.loc[t]) ==> Owns(w'.s.th[t], w'.loc[t]) && w'.loc[t].cpu == w.loc[t].cpu
    requires forall c :: 0 <= c < |who| ==> Get(w'.s.mem, Lock(base, c)) == Get(w.s.mem, Lock(base, c))
    ensures Locks(base, w', who)
  {
    forall c | 0 <= c < |who| ensures LockOk(base, w', c, who) {
      assert LockOk(base, w, c, who);
    }
  }

  // The locals of thread t after a helper instruction before the commit.
  lemma SilentLocal(base: Addr, w: World, t: nat, who: seq<int>)
    requires Content(base, w, who) && t < |w.loc| && CanStep(w.s.th[t]) && ThreadOk(w.s.th[t], w.s.nCpus)
    requires w.s.th[t].act.pc.At? ==> w.s.th[t].act.pc.i < Len(w.s.th[t].act.call) - 1
    ensures var (x, x') := (w.s.th[t], Instruction(w.s, t).th[t]);
            && Instruction(w.s, t).mem == w.s.mem && x'.act.Busy? && x'.act.commits == x.act.commits
            && LocalOk(base, x', w.loc[t], w.s.mem, t, who)
  {
    assert LocalOk(base, w.s.th[t], w.loc[t], w.s.mem, t, who);
  }

  // A helper instruction before the commit, or a teardown: nothing changes but the ip.
  lemma SilentInstruction(base: Addr, w: World, t: nat, who: seq<int>)
    requires Content(base, w, who) && t < |w.loc| && CanStep(w.s.th[t]) && ThreadOk(w.s.th[t], w.s.nCpus)
    requires w.s.th[t].act.pc.At? ==> w.s.th[t].act.pc.i < Len(w.s.th[t].act.call) - 1
    ensures Content(base, w.(s := Instruction(w.s, t)), who)
  {
    var w' := w.(s := Instruction(w.s, t));
    SilentLocal(base, w, t, who);
    LocksStay(base, w, w', t, who);
    assert Regions(w') == Regions(w) && AllAdds(w') == AllAdds(w);
    LocalsAfter(base, w, w', t, who, who);
  }

  // One more in CPU c's protected counter.
  lemma CountSum(base: Addr, m: Mem, n: nat, c: nat)
    requires c < n
    ensures var m' := m[Count(base, c) := Get(m, Count(base, c)) + 1];
            Total(Counts(base, m', n)) == Total(Counts(base, m, n)) + 1
            && AddCounts(base, m', n) == AddCounts(base, m, n)
  {
    var q := Counts(base, m, n);
    TotalUpdate(q, c, 1);
    assert Counts(base, m[Count(base, c) := Get(m, Count(base, c)) + 1], n) == q[c := q[c] + 1];
  }

  // One more in CPU c's add counter.
  lemma AddSum(base: Addr, m: Mem, n: nat, c: nat)
    requires c < n
    ensures var m' := m[Adds(base, c) := Get(m, Adds(base, c)) + 1];
            Total(AddCounts(base, m', n)) == Total(AddCounts(base, m, n)) + 1
            && Counts(base, m', n) == Counts(base, m, n)
  {
    var q := AddCounts(base, m, n);
    TotalUpdate(q, c, 1);
    assert AddCounts(base, m[Adds(base, c) := Get(m, Adds(base, c)) + 1], n) == q[c := q[c] + 1];
  }

  // A change of CPU c's lock word.
  lemma LockSum(base: Addr, m: Mem, n: nat, c: nat, k: Word)
    ensures var m' := m[Lock(base, c) := k];
            Counts(base, m', n) == Counts(base, m, n) && AddCounts(base, m', n) == AddCounts(base, m, n)
  {
  }

  // One more in thread t's account of adds, or of regions.
  lemma AccountSums(w: World, w': World, t: nat)
    requires t < |w.loc| == |w.s.th| == |w'.loc| == |w'.s.th|
    requires forall u :: 0 <= u < |w.loc| && u != t ==> w'.s.th[u] == w.s.th[u] && w'.loc[u] == w.loc[u]
    ensures Total(Regions(w')) == Total(Regions(w)) + w'.loc[t].regions - w.loc[t].regions
    ensures Total(AllAdds(w')) == Total(AllAdds(w)) + AddsDone(w'.s.th[t], w'.loc[t]) - AddsDone(w.s.th[t], w.loc[t])
  {
    var (r, a) := (Regions(w), AllAdds(w));
    var (dr, da) := (w'.loc[t].regions - w.loc[t].regions,
                     AddsDone(w'.s.th[t], w'.loc[t]) - AddsDone(w.s.th[t], w.loc[t]));
    TotalUpdate(r, t, dr);
    TotalUpdate(a, t, da);
    assert Regions(w') == r[t := r[t] + dr];
    assert AllAdds(w') == a[t := a[t] + da];
  }

  // At its commit a lock section is on the CPU whose lock it found free.
  lemma LockFacts(base: Addr, w: World, t: nat, who: seq<int>)
    requires Content(base, w, who) && t < |w.loc| && CanStep(w.s.th[t])
    requires ThreadOk(w.s.th[t], w.s.nCpus) && SThread(w.s.th[t], w.s.mem)
    requires w.loc[t].pc == Spinning && w.s.th[t].act.pc == At(6)
    ensures var (x, c) := (w.s.th[t], w.s.th[t].on);
            && 0 <= c < |who| && w.loc[t].cpu == c && who[c] == -1
            && Instruction(w.s, t).mem == w.s.mem[Lock(base, c) := 1]
            && Instruction(w.s, t).th[t] == x.(act := x.act.(pc := Exit(Ok), commits := 1))
  {
    assert LocalOk(base, w.s.th[t], w.loc[t], w.s.mem, t, who);
    assert LockOk(base, w, w.s.th[t].on, who);
    CommitStep(w.s.th[t].act, w.s.twice, w.s.th[t].cpuId, w.s.mem);
  }

  // The locks after the one of CPU c changed hands, from nobody or to nobody.
  lemma LockChanges(base: Addr, w: World, w': World, t: nat, who: seq<int>, who': seq<int>, c: nat, owner: int)
    requires Locks(base, w, who) && OthersStay(w, w', t) && c < |who| && w.loc[t].cpu == c && w'.loc[t].cpu == c
    requires (owner == -1 || owner == t) && who' == who[c := owner] && who[c] == (if owner == t then -1 else t)
    requires w'.s.mem == w.s.mem[Lock(base, c) := if owner == t then 1 else 0]
    requires Owns(w'.s.th[t], w'.loc[t]) <==> owner == t
    ensures Locks(base, w', who')
  {
    forall d | 0 <= d < |who'| ensures LockOk(base, w', d, who') {
      assert LockOk(base, w, d, who);
    }
  }

  lemma LockContent(base: Addr, w: World, t: nat, who: seq<int>)
    requires Content(base, w, who) && t < |w.loc| && CanStep(w.s.th[t])
    requires ThreadOk(w.s.th[t], w.s.nCpus) && SThread(w.s.th[t], w.s.mem)
    requires w.loc[t].pc == Spinning && w.s.th[t].act.pc == At(6)
    ensures var c := w.s.th[t].on;
            0 <= c < |who| && who[c] == -1 && Content(base, w.(s := Instruction(w.s, t)), who[c := t])
  {
    var (c, w') := (w.s.th[t].on, w.(s := Instruction(w.s, t)));
    LockFacts(base, w, t, who);
    assert LocalOk(base, w.s.th[t], w.loc[t], w.s.mem, t, who);
    LockChanges(base, w, w', t, who, who[c := t], c, t);
    LockSum(base, w.s.mem, w.s.nCpus, c, 1);
    AccountSums(w, w', t);
    Apart(base, c);
    LocalsAfter(base, w, w', t, who, who[c := t]);
  }

  /** The commit of a lock section takes a free lock: nobody else owns it. */
  lemma LockCommits(base: Addr, w: World, t: nat, who: seq<int>)
    requires Inv(base, w, who) && t < |w.loc| && CanStep(w.s.th[t])
    requires w.loc[t].pc == Spinning && w.s.th[t].act.pc == At(6)
    ensures var c := w.s.th[t].on;
            0 <= c < |who| && who[c] == -1 && Inv(base, w.(s := Instruction(w.s, t)), who[c := t])
  {
    assert ThreadOk(w.s.th[t], w.s.nCpus) && SThread(w.s.th[t], w.s.mem);
    LockContent(base, w, t, who);
    InstructionIsQuiet(base, w, t, who);
    StepKeepsInv(w.s, User(t));
  }

  // The commit of an add.
  lemma AddFacts(base: Addr, w: World, t: nat, who: seq<int>)
    requires Content(base, w, who) && t < |w.loc| && CanStep(w.s.th[t]) && ThreadOk(w.s.th[t], w.s.nCpus)
    requires w.loc[t].pc == Adding && w.s.th[t].act.pc == At(4)
    ensures var (x, c, m) := (w.s.th[t], w.s.th[t].on, w.s.mem);
            && 0 <= c < |who| && x.act.commits == 0
            && Instruction(w.s, t).mem == m[Adds(base, c) := Get(m, Adds(base, c)) + 1]
            && Instruction(w.s, t).th[t] == x.(act := x.act.(pc := Exit(Ok), commits := 1))
  {
    assert LocalOk(base, w.s.th[t], w.loc[t], w.s.mem, t, who);
    CommitStep(w.s.th[t].act, w.s.twice, w.s.th[t].cpuId, w.s.mem);
  }

  lemma AddContent(base: Addr, w: World, t: nat, who: seq<int>)
    requires Content(base, w, who) && t < |w.loc| && CanStep(w.s.th[t]) && ThreadOk(w.s.th[t], w.s.nCpus)
    requires w.loc[t].pc == Adding && w.s.th[t].act.pc == At(4)
    ensures Content(base, w.(s := Instruction(w.s, t)), who)
  {
    hide ThreadOk, LockOk, Total;
    var (c, w') := (w.s.th[t].on, w.(s := Instruction(w.s, t)));
    AddFacts(base, w, t, who);
    assert LocalOk(base, w.s.th[t], w.loc[t], w.s.mem, t, who);
    Apart(base, c);
    LocksStay(base, w, w', t, who);
    AddSum(base, w.s.mem, w.s.nCpus, c);
    AccountSums(w, w', t);
    LocalsAfter(base, w, w', t, who, who);
  }

  /** The commit of an add adds one to one CPU's counter and to one thread's account. */
  lemma AddCommits(base: Addr, w: World, t: nat, who: seq<int>)
    requires Inv(base, w, who) && t < |w.loc| && CanStep(w.s.th[t])
    requires w.loc[t].pc == Adding && w.s.th[t].act.pc == At(4)
    ensures var (c, m, w') := (w.s.th[t].on, w.s.mem, w.(s := Instruction(w.s, t)));
            && 0 <= c < |who| && w'.s.mem == m[Adds(base, c) := Get(m, Adds(base, c)) + 1]
            && AddsDone(w'.s.th[t], w'.loc[t]) == AddsDone(w.s.th[t], w.loc[t]) + 1
            && Inv(base, w', who)
  {
    assert ThreadOk(w.s.th[t], w.s.nCpus);
    AddFacts(base, w, t, who);
    AddContent(base, w, t, who);
    InstructionIsQuiet(base, w, t, who);
    StepKeepsInv(w.s, User(t));
  }

  /** What a move does to the owners: the commit of a lock section takes the lock of the CPU it runs
      on, the release frees the owner's, nothing else changes any. */
  ghost predicate After(w: World, v: Move, who: seq<int>, who': seq<int>)
    requires v.K? || (v.t < |w.loc| && v.t < |w.s.th| && (v.I? ==> w.s.th[v.t].act.Busy?))
  {
    if v.I? && w.loc[v.t].pc == Spinning && w.s.th[v.t].act.pc == At(Len(w.s.th[v.t].act.call) - 1) then
      0 <= w.s.th[v.t].on < |who| && who[w.s.th[v.t].on] == -1 && who' == who[w.s.th[v.t].on := v.t]
    else if v.C? && w.loc[v.t].pc == Checked then
      0 <= w.loc[v.t].cpu < |who| && who[w.loc[v.t].cpu] == v.t && who' == who[w.loc[v.t].cpu := -1]
    else who' == who
  }

  lemma InstructionMove(base: Addr, w: World, t: nat, who: seq<int>) returns (who': seq<int>)
    requires Content(base, w, who) && t < |w.loc| && CanStep(w.s.th[t])
    requires ThreadOk(w.s.th[t], w.s.nCpus) && SThread(w.s.th[t], w.s.mem)
    ensures Content(base, w.(s := Instruction(w.s, t)), who') && After(w, I(t), who, who')
  {
    who' := who;
    var x := w.s.th[t];
    assert LocalOk(base, x, w.loc[t], w.s.mem, t, who);
    if x.act.pc != At(Len(x.act.call) - 1) {
      SilentInstruction(base, w, t, who);
    } else if w.loc[t].pc == Spinning {
      LockContent(base, w, t, who);
      who' := who[x.on := t];
    } else {
      AddContent(base, w, t, who);
    }
  }

  // ---------------------------------------------------------------- C statements

  /** The owner's store of the count it loaded plus one. */
  lemma CountMove(base: Addr, w: World, w': World, t: nat, who: seq<int>)
    requires Content(base, w, who) && t < |w.loc| && w.loc[t].pc == Loaded
    requires w'.s == w.s.(mem := w.s.mem[Count(base, w.loc[t].cpu) := w.loc[t].tmp + 1])
    requires w'.loc == w.loc[t := w.loc[t].(pc := Counted, regions := w.loc[t].regions + 1)]
    ensures Content(base, w', who)
  {
    hide Total, LockOk;
    var l := w.loc[t];
    assert LocalOk(base, w.s.th[t], l, w.s.mem, t, who);
    Apart(base, l.cpu);
    LocksStay(base, w, w', t, who);
    CountSum(base, w.s.mem, w.s.nCpus, l.cpu);
    AccountSums(w, w', t);
    LocalsAfter(base, w, w', t, who, who);
  }

  /** The owner's release, possibly from another CPU. */
  lemma UnlockMove(base: Addr, w: World, w': World, t: nat, who: seq<int>)
    requires Content(base, w, who) && t < |w.loc| && w.loc[t].pc == Checked
    requires w'.s == w.s.(mem := w.s.mem[Lock(base, w.loc[t].cpu) := 0])
    requires w'.loc == w.loc[t := w.loc[t].(pc := Ready)]
    ensures 0 <= w.loc[t].cpu < |who| && who[w.loc[t].cpu] == t && Content(base, w', who[w.loc[t].cpu := -1])
  {
    var l := w.loc[t];
    assert LocalOk(base, w.s.th[t], l, w.s.mem, t, who);
    LockChanges(base, w, w', t, who, who[l.cpu := -1], l.cpu, -1);
    LockSum(base, w.s.mem, w.s.nCpus, l.cpu, 0);
    AccountSums(w, w', t);
    LocalsAfter(base, w, w', t, who, who[l.cpu := -1]);
  }

  // A statement of thread t that changes no memory, no ownership and no account.
  ghost predicate Passive(base: Addr, w: World, w': World, t: nat, who: seq<int>)
    requires t < |w.loc| && t < |w.s.th| && t < |w'.loc| && t < |w'.s.th|
  {
    && w'.s.mem == w.s.mem
    && LocalOk(base, w'.s.th[t], w'.loc[t], w.s.mem, t, who)
    && (Owns(w.s.th[t], w.loc[t]) <==> Owns(w'.s.th[t], w'.loc[t]))
    && (Owns(w.s.th[t], w.loc[t]) ==> w'.loc[t].cpu == w.loc[t].cpu)
    && w'.loc[t].regions == w.loc[t].regions
    && AddsDone(w'.s.th[t], w'.loc[t]) == AddsDone(w.s.th[t], w.loc[t])
  }

  // Leaving a helper.
  lemma ReturnLocals(base: Addr, w: World, v: Move, who: seq<int>)
    requires Content(base, w, who) && CanMove(base, w, v) && v.C? && w.loc[v.t].pc in {Spinning, Adding}
    requires ThreadOk(w.s.th[v.t], w.s.nCpus) && SThread(w.s.th[v.t], w.s.mem)
    ensures Passive(base, w, Do(base, w, v), v.t, who)
  {
    hide Sums, Locks;
    assert LocalOk(base, w.s.th[v.t], w.loc[v.t], w.s.mem, v.t, who);
  }

  // Entering a helper.
  lemma BeginLocals(base: Addr, w: World, v: Move, who: seq<int>)
    requires Content(base, w, who) && CanMove(base, w, v) && v.C? && w.loc[v.t].pc in {SpinCpu, AddCpu}
    ensures Passive(base, w, Do(base, w, v), v.t, who)
  {
    hide Sums, Locks;
    assert LocalOk(base, w.s.th[v.t], w.loc[v.t], w.s.mem, v.t, who);
  }

  // Every other statement changes no memory; the assertion in the unlock finds the lock taken.
  lemma OtherLocals(base: Addr, w: World, v: Move, who: seq<int>)
    requires Content(base, w, who) && CanMove(base, w, v) && v.C? && w.loc[v.t].pc !in {Loaded, Checked}
    requires ThreadOk(w.s.th[v.t], w.s.nCpus) && SThread(w.s.th[v.t], w.s.mem)
    ensures Passive(base, w, Do(base, w, v), v.t, who)
  {
    hide Sums, SThread;
    if w.loc[v.t].pc in {Spinning, Adding} {
      ReturnLocals(base, w, v, who);
    } else if w.loc[v.t].pc in {SpinCpu, AddCpu} {
      BeginLocals(base, w, v, who);
    } else {
      assert LocalOk(base, w.s.th[v.t], w.loc[v.t], w.s.mem, v.t, who);
      assert LockOk(base, w, w.loc[v.t].cpu, who);
    }
  }

  lemma OtherMove(base: Addr, w: World, v: Move, who: seq<int>)
    requires Content(base, w, who) && CanMove(base, w, v) && v.C? && w.loc[v.t].pc !in {Loaded, Checked}
    requires ThreadOk(w.s.th[v.t], w.s.nCpus) && SThread(w.s.th[v.t], w.s.mem)
    ensures Content(base, Do(base, w, v), who)
  {
    hide KInv, SThread, ThreadOk, LockOk, LocalOk, Counts, AddCounts;
    var (t, w') := (v.t, Do(base, w, v));
    OtherLocals(base, w, v, who);
    LocksStay(base, w, w', t, who);
    AccountSums(w, w', t);
    LocalsAfter(base, w, w', t, who, who);
  }

  lemma StatementMove(base: Addr, w: World, v: Move, who: seq<int>) returns (who': seq<int>)
    requires Content(base, w, who) && CanMove(base, w, v) && v.C?
    requires ThreadOk(w.s.th[v.t], w.s.nCpus) && SThread(w.s.th[v.t], w.s.mem)
    ensures Content(base, Do(base, w, v), who') && After(w, v, who, who')
  {
    who' := who;
    var t := v.t;
    if w.loc[t].pc == Loaded {
      CountMove(base, w, Do(base, w, v), t, who);
    } else if w.loc[t].pc == Checked {
      UnlockMove(base, w, Do(base, w, v), t, who);
      who' := who[w.loc[t].cpu := -1];
    } else {
      OtherMove(base, w, v, who);
    }
  }

  lemma MoveKeepsContent(base: Addr, w: World, v: Move, who: seq<int>) returns (who': seq<int>)
    requires Inv(base, w, who) && CanMove(base, w, v)
    ensures Content(base, Do(base, w, v), who') && (!v.K? ==> v.t < |w.loc|) && After(w, v, who, who')
  {
    who' := who;
    match v {
      case K(e) => KernelMove(base, w, e, who);
      case I(t) =>
        assert ThreadOk(w.s.th[t], w.s.nCpus) && SThread(w.s.th[t], w.s.mem);
        who' := InstructionMove(base, w, t, who);
      case C(t, _, _, _) =>
        assert ThreadOk(w.s.th[t], w.s.nCpus) && SThread(w.s.th[t], w.s.mem);
        who' := StatementMove(base, w, v, who);
    }
  }

  /** Every move keeps the invariant. */
  lemma MoveKeepsInv(base: Addr, w: World, v: Move, who: seq<int>) returns (who': seq<int>)
    requires Inv(base, w, who) && CanMove(base, w, v)
    ensures Inv(base, Do(base, w, v), who') && (!v.K? ==> v.t < |w.loc|) && After(w, v, who, who')
  {
    who' := MoveKeepsContent(base, w, v, who);
    MoveIsQuiet(base, w, v, who);
    StepKeepsInv(w.s, StepOf(base, w, v));
  }

  // ---------------------------------------------------------------- whole runs

  // All locks free, all counters zero, nobody in the middle of anything.
  ghost predicate Initial(base: Addr, w: World) {
    && KInv(w.s) && |w.s.th| == |w.loc| && w.s.nCpus > 0
    && (forall t :: 0 <= t < |w.loc| ==> w.s.th[t].act.Idle? && w.loc[t] == Local(Ready, 0, 0, 0, 0, 0, 0))
    && (forall c :: 0 <= c < w.s.nCpus ==>
          Get(w.s.mem, Lock(base, c)) == Get(w.s.mem, Count(base, c)) == Get(w.s.mem, Adds(base, c)) == 0)
  }

  ghost predicate IsRun(base: Addr, ws: seq<World>, vs: seq<Move>) {
    && |ws| == |vs| + 1 && Initial(base, ws[0])
    && forall k :: 0 <= k < |vs| ==> CanMove(base, ws[k], vs[k]) && ws[k + 1] == Do(base, ws[k], vs[k])
  }

  // The machine steps behind a run of this system.
  ghost function Steps(base: Addr, ws: seq<World>, vs: seq<Move>): seq<Step>
    requires IsRun(base, ws, vs)
  {
    seq(|vs|, k requires 0 <= k < |vs| => StepOf(base, ws[k], vs[k]))
  }

  lemma InitialInv(base: Addr, w: World) returns (who: seq<int>)
    requires Initial(base, w)
    ensures Inv(base, w, who)
  {
    who := seq(w.s.nCpus, _ => -1);
    TotalZero(Counts(base, w.s.mem, w.s.nCpus));
    TotalZero(AddCounts(base, w.s.mem, w.s.nCpus));
    TotalZero(Regions(w));
    TotalZero(AllAdds(w));
  }

  lemma {:induction false} RunKeepsInv(base: Addr, ws: seq<World>, vs: seq<Move>, k: nat) returns (who: seq<int>)
    requires IsRun(base, ws, vs) && k < |ws|
    ensures Inv(base, ws[k], who)
  {
    if k == 0 {
      who := InitialInv(base, ws[0]);
    } else {
      who := RunKeepsInv(base, ws, vs, k - 1);
      who := MoveKeepsInv(base, ws[k - 1], vs[k - 1], who);
    }
  }

  /** At most one thread owns a CPU's lock, and the assertion in the unlock never fails. */
  lemma MutualExclusion(base: Addr, ws: seq<World>, vs: seq<Move>, k: nat, t: nat, u: nat)
    requires IsRun(base, ws, vs) && k < |ws| && t < |ws[k].loc| && u < |ws[k].loc|
    ensures |ws[k].loc| == |ws[k].s.th|
    ensures var (w, lt, lu) := (ws[k], ws[k].loc[t], ws[k].loc[u]);
            && lt.pc != Failed && (lt.pc == Counted ==> Get(w.s.mem, Lock(base, lt.cpu)) == 1)
            && (Owns(w.s.th[t], lt) && Owns(w.s.th[u], lu) && lt.cpu == lu.cpu ==> t == u)
  {
    var who := RunKeepsInv(base, ws, vs, k);
    assert LocalOk(base, ws[k].s.th[t], ws[k].loc[t], ws[k].s.mem, t, who);
    assert LockOk(base, ws[k], ws[k].loc[t].cpu, who);
    assert LocalOk(base, ws[k].s.th[u], ws[k].loc[u], ws[k].s.mem, u, who);
  }

  /** No count is lost: the protected counters sum to the completed regions, the
      others to the successful adds. */
  lemma NothingLost(base: Addr, ws: seq<World>, vs: seq<Move>, k: nat)
    requires IsRun(base, ws, vs) && k < |ws|
    ensures |ws[k].loc| == |ws[k].s.th|
    ensures Total(Counts(base, ws[k].s.mem, ws[k].s.nCpus)) == Total(Regions(ws[k]))
    ensures Total(AddCounts(base, ws[k].s.mem, ws[k].s.nCpus)) == Total(AllAdds(ws[k]))
  {
    var who := RunKeepsInv(base, ws, vs, k);
  }

  // What a thread has completed is what it has begun, up to the iteration it is in.
  ghost predicate Balanced(l: Local) {
    && l.lockIterations == l.regions + (if l.pc in {Spin, SpinCpu, Spinning, Locked, Loaded} then 1 else 0)
    && l.addIterations == l.adds + (if l.pc in {Add, AddCpu, Adding} then 1 else 0)
  }

  lemma {:induction false} RunIsBalanced(base: Addr, ws: seq<World>, vs: seq<Move>, k: nat, t: nat)
    requires IsRun(base, ws, vs) && k < |ws| && t < |ws[k].loc|
    ensures Balanced(ws[k].loc[t])
    decreases k
  {
    hide KInv, Apply, EnabledStep;
    if k > 0 {
      assert CanMove(base, ws[k - 1], vs[k - 1]) && ws[k] == Do(base, ws[k - 1], vs[k - 1]);
      RunIsBalanced(base, ws, vs, k - 1, t);
    }
  }

  /** Every iteration counts once: in every run a thread between two iterations has completed as
      many locked regions and as many adds as it has begun iterations of each. */
  lemma IterationsCount(base: Addr, ws: seq<World>, vs: seq<Move>, k: nat, t: nat)
    requires IsRun(base, ws, vs) && k < |ws| && t < |ws[k].loc| && ws[k].loc[t].pc == Ready
    ensures ws[k].loc[t].regions == ws[k].loc[t].lockIterations && ws[k].loc[t].adds == ws[k].loc[t].addIterations
  {
    RunIsBalanced(base, ws, vs, k, t);
  }

  ghost function LockIterations(w: World): seq<int> {
    seq(|w.loc|, t requires 0 <= t < |w.loc| => w.loc[t].lockIterations as int)
  }

  ghost function AddIterations(w: World): seq<int> {
    seq(|w.loc|, t requires 0 <= t < |w.loc| => w.loc[t].addIterations as int)
  }

  /** The final assertion of both tests: when all threads are between iterations, the counters
      sum to the iterations begun. */
  lemma SumsAreIterations(base: Addr, ws: seq<World>, vs: seq<Move>, k: nat)
    requires IsRun(base, ws, vs) && k < |ws| && forall t :: 0 <= t < |ws[k].loc| ==> ws[k].loc[t].pc == Ready
    ensures Total(Counts(base, ws[k].s.mem, ws[k].s.nCpus)) == Total(LockIterations(ws[k]))
    ensures Total(AddCounts(base, ws[k].s.mem, ws[k].s.nCpus)) == Total(AddIterations(ws[k]))
  {
    hide IsRun, Counts, AddCounts, Total;
    NothingLost(base, ws, vs, k);
    forall t | 0 <= t < |ws[k].loc|
      ensures ws[k].loc[t].regions == ws[k].loc[t].lockIterations && ws[k].loc[t].adds == ws[k].loc[t].addIterations
    {
      IterationsCount(base, ws, vs, k, t);
    }
    assert Regions(ws[k]) == LockIterations(ws[k]) && AllAdds(ws[k]) == AddIterations(ws[k]);
  }

  /** A thread asks for the CPU it is on. */
  lemma AsksForItsCpu(base: Addr, w: World, v: Move, who: seq<int>)
    requires Inv(base, w, who) && CanMove(base, w, v) && v.C? && w.loc[v.t].pc in {Spin, Add}
    ensures w.s.th[v.t].reg ==> Do(base, w, v).loc[v.t].cpu == w.s.th[v.t].on
  {
    assert ThreadOk(w.s.th[v.t], w.s.nCpus);
  }

  /** Every run of this system is an undisturbed run of the machine, so its helper calls are
      atomic. */
  lemma RunIsQuiet(base: Addr, ws: seq<World>, vs: seq<Move>)
    requires IsRun(base, ws, vs)
    ensures Atomicity.IsRun(States(ws), Steps(base, ws, vs)) && QuietRun(States(ws), Steps(base, ws, vs))
  {
    var (ss, ps) := (States(ws), Steps(base, ws, vs));
    forall k | 0 <= k < |ps| ensures Quiet(ss[k], ps[k]) {
      var who := RunKeepsInv(base, ws, vs, k);
      MoveIsQuiet(base, ws[k], vs[k], who);
    }
  }

  /** Every lock attempt and every add that returns was atomic. */
  lemma CallsAreAtomic(base: Addr, ws: seq<World>, vs: seq<Move>, k: nat) returns (i: nat)
    requires IsRun(base, ws, vs) && k < |vs| && Steps(base, ws, vs)[k].Return?
    ensures AtomicCall(States(ws), Steps(base, ws, vs), Steps(base, ws, vs)[k].t, i, k)
  {
    RunIsQuiet(base, ws, vs);
    i := Atomicity.CallsAreAtomic(States(ws), Steps(base, ws, vs), k);
  }

  /** The bug labels of RSEQ_COMPARE_TWICE are never reached. */
  lemma ComparesTwiceAgree(base: Addr, ws: seq<World>, vs: seq<Move>, k: nat, t: nat)
    requires IsRun(base, ws, vs) && k < |ws| && t < |ws[k].s.th|
    ensures var a := ws[k].s.th[t].act; a.Busy? && !a.pc.At? ==> a.pc.l in {Ok, Differs, Abort}
  {
    var who := RunKeepsInv(base, ws, vs, k);
    assert SThread(ws[k].s.th[t], ws[k].s.mem);
  }

  /** Every lock attempt and every add of a registered thread that asks for the CPU it is on, and that no
      event hits, returns what the pseudo-code returns. */
  lemma UndisturbedReturns(base: Addr, ws: seq<World>, vs: seq<Move>, t: nat, i: nat, k: nat) returns (j: nat)
    requires IsRun(base, ws, vs) && Undisturbed(States(ws), Steps(base, ws, vs), t, i, k)
    requires k < |ws| && HasLeft(ws[k].s, t)
    ensures ReturnsPseudo(States(ws), Steps(base, ws, vs), t, i, k, j)
  {
    RunIsQuiet(base, ws, vs);
    j := Returns.UndisturbedReturns(States(ws), Steps(base, ws, vs), t, i, k);
  }
}
