/**
 Swapping a per-CPU data structure under running sections.  Workers increment a
 node they reach through a shared pointer, inside a section.  A manager swaps
 that pointer between two lists and uses the rseq memory barrier on one CPU to
 flush sections that may still be using the list it replaced.
 */
module MembarrierSwap {
  import opened Machine
  import opened Sections
  import opened Atomicity
  import opened Conservation

  /** The shared pointer, the two per-CPU lists, and their one node per CPU. */
  datatype Layout = Layout(ptr: Addr, a: Addr, b: Addr, nodeA: seq<Addr>, nodeB: seq<Addr>)

  function Head(list: Addr, c: int): Addr { list + STRIDE * c }

  // Cells that never change while the test runs.
  ghost predicate IsHead(y: Layout, x: Addr) {
    exists c :: 0 <= c < |y.nodeA| && (x == Head(y.a, c) || x == Head(y.b, c))
  }

  ghost predicate LayoutOk(y: Layout, nCpus: nat) {
    && nCpus > 0 && |y.nodeA| == |y.nodeB| == nCpus
    && y.a != 0 && y.b != 0 && y.a != y.b
    && (forall c, d :: 0 <= c < nCpus && 0 <= d < nCpus && c != d ==>
        y.nodeA[c] != y.nodeA[d] && y.nodeB[c] != y.nodeB[d])
    && (forall c, d :: 0 <= c < nCpus && 0 <= d < nCpus ==> y.nodeA[c] != y.nodeB[d])
    && (forall c :: 0 <= c < nCpus ==>
        y.nodeA[c] != y.ptr && y.nodeB[c] != y.ptr && !IsHead(y, y.nodeA[c]) && !IsHead(y, y.nodeB[c]))
    && !IsHead(y, y.ptr)
  }

  // Ready is between two iterations, Retry inside one whose increment was aborted; `done` counts
  // the increments completed, `begun` the iterations begun.
  datatype WorkerPc = Waiting | Ready | Retry | GotCpu | Incrementing
  datatype Worker = Worker(pc: WorkerPc, cpu: int, done: nat, begun: nat)

  datatype ManagerPc =
    | Publish                                                          // first store of the pointer
    | PickA | CheckB | SwapToB | BarrierA | NoteA | PickB | CheckA | SwapToA | BarrierB | NoteB
    | Failed                                                           // "Membarrier test failed"
  datatype Manager = Manager(pc: ManagerPc, cpuA: int, cpuB: int, expectA: Word, expectB: Word)

  datatype World = World(s: State, loc: seq<Worker>, mgr: Manager)

  function IncCall(y: Layout, c: int): Call { AddLoadLoadAddStore(y.ptr, STRIDE * c, 1) }

  predicate CanGo(w: World, t: nat) {
    && t < |w.s.th| && t < |w.loc| && w.s.th[t].on >= 0
    && (if w.loc[t].pc == Incrementing then w.s.th[t].act.Busy? && w.s.th[t].act.pc.Exit? else w.s.th[t].act.Idle?)
  }

  function NextWorker(y: Layout, w: World, t: nat): Worker
    requires CanGo(w, t)
  {
    var (x, l) := (w.s.th[t], w.loc[t]);
    match l.pc
    case Waiting => if Get(w.s.mem, y.ptr) == 0 then l else l.(pc := Ready)
    case Ready => l.(pc := GotCpu, cpu := CpuStart(x), begun := l.begun + 1)
    case Retry => l.(pc := GotCpu, cpu := CpuStart(x))
    case GotCpu => l.(pc := Incrementing)
    case Incrementing => if ReturnValue(x.act.pc.l) == 0 then l.(pc := Ready, done := l.done + 1) else l.(pc := Retry)
  }

  function NextState(y: Layout, w: World, t: nat, site: nat, junk: Regs): State
    requires CanGo(w, t)
  {
    var (x, l) := (w.s.th[t], w.loc[t]);
    match l.pc
    case GotCpu => w.s.(th := w.s.th[t := x.(act := Enter(IncCall(y, l.cpu), l.cpu, site, junk))])
    case Incrementing => w.s.(th := w.s.th[t := x.(act := Idle)])
    case _ => w.s
  }

  /** The manager's next statement; `c` is the CPU it draws at random. */
  function NextManager(y: Layout, w: World, c: int): Manager
    requires 0 <= w.mgr.cpuA < |y.nodeA| && 0 <= w.mgr.cpuB < |y.nodeB|
  {
    var (g, m) := (w.mgr, w.s.mem);
    match g.pc
    case Publish => g.(pc := PickA)
    case PickA => g.(pc := CheckB, cpuA := c)
    case CheckB => g.(pc := if g.expectB == Get(m, y.nodeB[g.cpuB]) then SwapToB else Failed)
    case SwapToB => g.(pc := BarrierA)
    case BarrierA => g.(pc := NoteA)
    case NoteA => g.(pc := PickB, expectA := Get(m, y.nodeA[g.cpuA]))
    case PickB => g.(pc := CheckA, cpuB := c)
    case CheckA => g.(pc := if g.expectA == Get(m, y.nodeA[g.cpuA]) then SwapToA else Failed)
    case SwapToA => g.(pc := BarrierB)
    case BarrierB => g.(pc := NoteB)
    case NoteB => g.(pc := PickA, expectB := Get(m, y.nodeB[g.cpuB]))
    case Failed => g
  }

  function ManagerState(y: Layout, w: World): State {
    match w.mgr.pc
    case Publish => w.s.(mem := w.s.mem[y.ptr := y.a])
    case SwapToB => w.s.(mem := w.s.mem[y.ptr := y.b])
    case SwapToA => w.s.(mem := w.s.mem[y.ptr := y.a])
    case BarrierA => Kernel(w.s, Membarrier(w.mgr.cpuA))
    case BarrierB => Kernel(w.s, Membarrier(w.mgr.cpuB))
    case _ => w.s
  }

  datatype Move = K(e: Event) | I(t: nat) | C(t: nat, site: nat, junk: Regs) | M(c: int)

  ghost predicate CanMove(y: Layout, w: World, v: Move) {
    match v
    case K(e) => Enabled(w.s, e)
    case I(t) => t < |w.s.th| && CanStep(w.s.th[t])
    case C(t, _, _) => CanGo(w, t)
    case M(c) => 0 <= c < |y.nodeA| && 0 <= w.mgr.cpuA < |y.nodeA| && 0 <= w.mgr.cpuB < |y.nodeB|
  }

  ghost function Do(y: Layout, w: World, v: Move): World
    requires CanMove(y, w, v)
  {
    match v
    case K(e) => w.(s := Kernel(w.s, e))
    case I(t) => w.(s := Instruction(w.s, t))
    case C(t, site, junk) => w.(s := NextState(y, w, t, site, junk), loc := w.loc[t := NextWorker(y, w, t)])
    case M(c) => w.(s := ManagerState(y, w), mgr := NextManager(y, w, c))
  }

  // ---------------------------------------------------------------- invariant

  /** The increment in progress has picked up list `list` (whose node here is `node`). */
  ghost predicate Uses(a: Act, list: Addr, node: Addr) {
    && a.Busy? && a.pc.At? && a.call.AddLoadLoadAddStore?
    && (match a.pc.i
        case 5 => a.r.rbx == list
        case 6 => a.r.rbx == list + a.call.off
        case 7 => a.r.rcx == node
        case _ => false)
  }

  ghost predicate WorkerOk(y: Layout, x: Thread, l: Worker, m: Mem) {
    && 0 <= l.cpu < |y.nodeA| == |y.nodeB|
    && (l.pc == Incrementing ==>
          && x.act.Busy? && x.act.cpu == l.cpu && x.act.call == IncCall(y, l.cpu)
          && (x.act.pc.At? && x.act.pc.i in {5, 6, 7} ==>
                Uses(x.act, y.a, y.nodeA[l.cpu]) || Uses(x.act, y.b, y.nodeB[l.cpu]))
          && (!x.act.pc.At? ==> x.act.pc.l in {Ok, Abort}))
    && (l.pc != Incrementing ==> x.act.Idle?)
    && (l.pc != Waiting ==> Get(m, y.ptr) != 0)
  }

  /** No section running on CPU c uses the list. */
  ghost predicate Flushed(s: State, c: int, list: Addr, node: Addr) {
    forall t :: 0 <= t < |s.th| && s.th[t].on == c && c >= 0 ==> !Uses(s.th[t].act, list, node)
  }

  ghost predicate ManagerOk(y: Layout, s: State, g: Manager)
    requires 0 <= g.cpuA < |y.nodeA| && 0 <= g.cpuB < |y.nodeB|
  {
    && g.pc != Failed
    && (g.pc == Publish ==> Get(s.mem, y.ptr) == 0)
    && (g.pc in {PickA, CheckB, SwapToB, BarrierB, NoteB} ==> Get(s.mem, y.ptr) == y.a)
    && (g.pc in {BarrierA, NoteA, PickB, CheckA, SwapToA} ==> Get(s.mem, y.ptr) == y.b)
    && (g.pc in {NoteA, PickB, CheckA, SwapToA} ==> Flushed(s, g.cpuA, y.a, y.nodeA[g.cpuA]))
    && (g.pc in {PickB, CheckA} ==> g.expectA == Get(s.mem, y.nodeA[g.cpuA]))
    && (g.pc in {Publish, NoteB, PickA, CheckB, SwapToB} ==> Flushed(s, g.cpuB, y.b, y.nodeB[g.cpuB]))
    && (g.pc in {Publish, PickA, CheckB} ==> g.expectB == Get(s.mem, y.nodeB[g.cpuB]))
  }

  // Successful increments of thread t, counting one that has committed but not returned.
  ghost function Done(x: Thread, l: Worker): int {
    l.done + if l.pc == Incrementing && x.act.Busy? && x.act.commits == 1 then 1 else 0
  }

  ghost function Dones(w: World): seq<int>
    requires |w.loc| == |w.s.th|
  {
    seq(|w.loc|, t requires 0 <= t < |w.loc| => Done(w.s.th[t], w.loc[t]))
  }

  ghost function Data(m: Mem, nodes: seq<Addr>): seq<int> {
    seq(|nodes|, c requires 0 <= c < |nodes| => Get(m, nodes[c]))
  }

  ghost predicate HeadsOk(y: Layout, m: Mem)
    requires |y.nodeA| == |y.nodeB|
  {
    forall c :: 0 <= c < |y.nodeA| ==> Get(m, Head(y.a, c)) == y.nodeA[c] && Get(m, Head(y.b, c)) == y.nodeB[c]
  }

  ghost predicate Workers(y: Layout, w: World) {
    && |w.s.th| == |w.loc|
    && forall t :: 0 <= t < |w.loc| ==> WorkerOk(y, w.s.th[t], w.loc[t], w.s.mem)
  }

  ghost predicate ManagerInv(y: Layout, w: World) {
    0 <= w.mgr.cpuA < |y.nodeA| && 0 <= w.mgr.cpuB < |y.nodeB| && ManagerOk(y, w.s, w.mgr)
  }

  // The lists hold the successful increments.
  ghost predicate Sums(y: Layout, w: World) {
    && |w.s.th| == |w.loc|
    && Total(Data(w.s.mem, y.nodeA)) + Total(Data(w.s.mem, y.nodeB)) == Total(Dones(w))
  }

  ghost predicate Content(y: Layout, w: World) {
    && LayoutOk(y, w.s.nCpus) && HeadsOk(y, w.s.mem) && Get(w.s.mem, y.ptr) in {0, y.a, y.b}
    && Workers(y, w) && ManagerInv(y, w) && Sums(y, w)
  }

  ghost predicate Inv(y: Layout, w: World) { KInv(w.s) && Content(y, w) }

  /** The kernel only makes a CPU's running sections fewer: it never lets one resume. */
  lemma KernelKeepsFlushed(s: State, e: Event, c: int, list: Addr, node: Addr)
    requires KInv(s) && Enabled(s, e) && Flushed(s, c, list, node)
    ensures Flushed(Kernel(s, e), c, list, node)
  {
    var s' := Kernel(s, e);
    forall t | 0 <= t < |s'.th| && s'.th[t].on == c && c >= 0 ensures !Uses(s'.th[t].act, list, node) {
      assert ThreadOk(s.th[t], s.nCpus);
    }
  }

  /** After the barrier on CPU c no section at all is past its first instructions there. */
  lemma BarrierFlushes(s: State, c: int, list: Addr, node: Addr)
    requires KInv(s) && c >= 0
    ensures Flushed(Kernel(s, Membarrier(c)), c, list, node)
  {
    var s' := Kernel(s, Membarrier(c));
    forall t | 0 <= t < |s'.th| && s'.th[t].on == c ensures !Uses(s'.th[t].act, list, node) {
      assert ThreadOk(s.th[t], s.nCpus);
    }
  }

  lemma KernelMove(y: Layout, w: World, e: Event)
    requires Inv(y, w) && Enabled(w.s, e)
    ensures Inv(y, w.(s := Kernel(w.s, e)))
  {
    KernelKeepsKInv(w.s, e);
    KernelKeepsCalls(w.s, e);
    var w' := w.(s := Kernel(w.s, e));
    KernelWorkers(y, w, e);
    KernelKeepsManager(y, w, e);
    assert Dones(w') == Dones(w);
  }

  lemma KernelWorkers(y: Layout, w: World, e: Event)
    requires Workers(y, w) && Enabled(w.s, e)
    ensures Workers(y, w.(s := Kernel(w.s, e)))
  {
    KernelKeepsCalls(w.s, e);
    var s' := Kernel(w.s, e);
    forall t | 0 <= t < |w.loc| ensures WorkerOk(y, s'.th[t], w.loc[t], s'.mem) {
      assert WorkerOk(y, w.s.th[t], w.loc[t], w.s.mem);
      WorkerAborts(y, w.s, e, t, w.loc[t]);
    }
  }

  // A worker after a kernel event, which at most aborts it.
  lemma WorkerAborts(y: Layout, s: State, e: Event, t: nat, l: Worker)
    requires Enabled(s, e) && t < |s.th| && WorkerOk(y, s.th[t], l, s.mem)
    ensures WorkerOk(y, Kernel(s, e).th[t], l, s.mem)
  {
  }

  lemma KernelKeepsManager(y: Layout, w: World, e: Event)
    requires KInv(w.s) && ManagerInv(y, w) && Enabled(w.s, e)
    ensures ManagerOk(y, Kernel(w.s, e), w.mgr)
  {
    var g := w.mgr;
    KernelKeepsCalls(w.s, e);
    if Flushed(w.s, g.cpuA, y.a, y.nodeA[g.cpuA]) {
      KernelKeepsFlushed(w.s, e, g.cpuA, y.a, y.nodeA[g.cpuA]);
    }
    if Flushed(w.s, g.cpuB, y.b, y.nodeB[g.cpuB]) {
      KernelKeepsFlushed(w.s, e, g.cpuB, y.b, y.nodeB[g.cpuB]);
    }
  }

  // ---------------------------------------------------------------- instructions

  /** An increment picks up whichever list is published when it loads it, and
      then stays with that list. */
  lemma InstructionUses(y: Layout, a: Act, twice: bool, cpuId: int, m: Mem, c: nat)
    requires |y.nodeA| == |y.nodeB| && c < |y.nodeA| && HeadsOk(y, m) && y.a != y.b && y.nodeA[c] != y.nodeB[c]
    requires a.Busy? && a.call == IncCall(y, c) && a.pc.At? && a.pc.i < 7
    requires a.pc.i in {5, 6} ==> Uses(a, y.a, y.nodeA[c]) || Uses(a, y.b, y.nodeB[c])
    requires a.pc.i == 4 ==> Get(m, y.ptr) in {y.a, y.b}
    ensures var (a', m') := Exec(a, twice, cpuId, m);
            && m' == m && a'.commits == a.commits && a'.call == a.call && (!a'.pc.At? ==> a'.pc.l in {Abort, Err1})
            && (a'.pc.At? && a'.pc.i in {5, 6, 7} ==> Uses(a', y.a, y.nodeA[c]) || Uses(a', y.b, y.nodeB[c]))
            && (Uses(a', y.a, y.nodeA[c]) ==> Uses(a, y.a, y.nodeA[c]) || (a.pc.i == 4 && Get(m, y.ptr) == y.a))
            && (Uses(a', y.b, y.nodeB[c]) ==> Uses(a, y.b, y.nodeB[c]) || (a.pc.i == 4 && Get(m, y.ptr) == y.b))
  {
  }

  // Thread t of this system, before its commit.
  ghost predicate BeforeCommit(y: Layout, w: World, t: nat) {
    && Content(y, w) && t < |w.loc| && CanStep(w.s.th[t]) && ThreadOk(w.s.th[t], w.s.nCpus)
    && w.s.th[t].act.pc.At? && w.s.th[t].act.pc.i < 7
  }

  // What its instruction does.
  lemma SilentFacts(y: Layout, w: World, t: nat)
    requires BeforeCommit(y, w, t)
    ensures var (x, l, m, s') := (w.s.th[t], w.loc[t], w.s.mem, Instruction(w.s, t));
            var (a, a', c) := (x.act, s'.th[t].act, l.cpu);
            && s'.mem == m && s'.nCpus == w.s.nCpus && |s'.th| == |w.s.th| && s'.th[t].on == x.on
            && (x.act.pc.i >= 3 ==> c == x.on) && 0 <= c < |y.nodeA| == |y.nodeB|
            && a'.Busy? && a'.commits == a.commits && a'.call == a.call && a'.cpu == a.cpu
            && (!a'.pc.At? ==> a'.pc.l in {Abort, Err1})
            && (a'.pc.At? && a'.pc.i in {5, 6, 7} ==> Uses(a', y.a, y.nodeA[c]) || Uses(a', y.b, y.nodeB[c]))
            && (Uses(a', y.a, y.nodeA[c]) ==> Uses(a, y.a, y.nodeA[c]) || (a.pc.i == 4 && Get(m, y.ptr) == y.a))
            && (Uses(a', y.b, y.nodeB[c]) ==> Uses(a, y.b, y.nodeB[c]) || (a.pc.i == 4 && Get(m, y.ptr) == y.b))
  {
    assert WorkerOk(y, w.s.th[t], w.loc[t], w.s.mem);
    InstructionUses(y, w.s.th[t].act, w.s.twice, w.s.th[t].cpuId, w.s.mem, w.loc[t].cpu);
  }

  // An instruction before the commit keeps the flushed lists flushed.
  lemma InstructionKeepsFlushed(y: Layout, w: World, t: nat)
    requires BeforeCommit(y, w, t)
    ensures var (g, s', p) := (w.mgr, Instruction(w.s, t), Get(w.s.mem, y.ptr));
            && (Flushed(w.s, g.cpuA, y.a, y.nodeA[g.cpuA]) && p != y.a ==> Flushed(s', g.cpuA, y.a, y.nodeA[g.cpuA]))
            && (Flushed(w.s, g.cpuB, y.b, y.nodeB[g.cpuB]) && p != y.b ==> Flushed(s', g.cpuB, y.b, y.nodeB[g.cpuB]))
  {
    hide Sums, Workers;
    SilentFacts(y, w, t);
  }

  lemma SilentWorkers(y: Layout, w: World, t: nat)
    requires BeforeCommit(y, w, t) && ThreadOk(Instruction(w.s, t).th[t], w.s.nCpus)
    ensures Workers(y, w.(s := Instruction(w.s, t)))
  {
    SilentFacts(y, w, t);
    assert WorkerOk(y, w.s.th[t], w.loc[t], w.s.mem);
  }

  lemma SilentManager(y: Layout, w: World, t: nat)
    requires BeforeCommit(y, w, t)
    ensures ManagerInv(y, w.(s := Instruction(w.s, t)))
  {
    SilentFacts(y, w, t);
    InstructionKeepsFlushed(y, w, t);
    hide Workers, Sums, Flushed;
  }

  lemma SilentInstruction(y: Layout, w: World, t: nat)
    requires BeforeCommit(y, w, t) && ThreadOk(Instruction(w.s, t).th[t], w.s.nCpus)
    ensures Content(y, w.(s := Instruction(w.s, t)))
  {
    var s' := Instruction(w.s, t);
    SilentFacts(y, w, t);
    SilentWorkers(y, w, t);
    SilentManager(y, w, t);
    assert Dones(w.(s := s')) == Dones(w);
    hide Workers, ManagerInv;
  }

  // One more in a node of one list.
  lemma DataSum(y: Layout, m: Mem, c: nat, n: nat)
    requires LayoutOk(y, n) && c < n
    ensures var m' := m[y.nodeA[c] := Get(m, y.nodeA[c]) + 1];
            Total(Data(m', y.nodeA)) == Total(Data(m, y.nodeA)) + 1 && Data(m', y.nodeB) == Data(m, y.nodeB)
    ensures var m' := m[y.nodeB[c] := Get(m, y.nodeB[c]) + 1];
            Total(Data(m', y.nodeB)) == Total(Data(m, y.nodeB)) + 1 && Data(m', y.nodeA) == Data(m, y.nodeA)
  {
    var (da, db) := (Data(m, y.nodeA), Data(m, y.nodeB));
    TotalUpdate(da, c, 1);
    TotalUpdate(db, c, 1);
    assert Data(m[y.nodeA[c] := Get(m, y.nodeA[c]) + 1], y.nodeA) == da[c := da[c] + 1];
    assert Data(m[y.nodeB[c] := Get(m, y.nodeB[c]) + 1], y.nodeB) == db[c := db[c] + 1];
  }

  lemma NodeSum(y: Layout, m: Mem, c: nat, n: nat, a: Addr)
    requires LayoutOk(y, n) && c < n && a in {y.nodeA[c], y.nodeB[c]}
    ensures var m' := m[a := Get(m, a) + 1];
            Total(Data(m', y.nodeA)) + Total(Data(m', y.nodeB)) == Total(Data(m, y.nodeA)) + Total(Data(m, y.nodeB)) + 1
  {
    DataSum(y, m, c, n);
  }

  lemma DoneSum(w: World, w': World, t: nat)
    requires t < |w.loc| == |w.s.th| == |w'.s.th| && w'.loc == w.loc
    requires forall u :: 0 <= u < |w.loc| && u != t ==> w'.s.th[u] == w.s.th[u]
    requires Done(w'.s.th[t], w.loc[t]) == Done(w.s.th[t], w.loc[t]) + 1
    ensures Total(Dones(w')) == Total(Dones(w)) + 1
  {
    TotalUpdate(Dones(w), t, 1);
    assert Dones(w') == Dones(w)[t := Dones(w)[t] + 1];
  }

  // Thread t of this system, at its commit.
  ghost predicate AtCommit(y: Layout, w: World, t: nat) {
    && Content(y, w) && t < |w.loc| && CanStep(w.s.th[t]) && ThreadOk(w.s.th[t], w.s.nCpus)
    && w.s.th[t].act.pc == At(7)
  }

  /** The commit increments the node of the CPU it runs on, in the list it uses. */
  lemma CommitFacts(y: Layout, w: World, t: nat)
    requires AtCommit(y, w, t)
    ensures var (x, m, c) := (w.s.th[t], w.s.mem, w.s.th[t].on);
            && 0 <= c < |y.nodeA| == |y.nodeB| && w.loc[t].cpu == c && x.act.r.rcx in {y.nodeA[c], y.nodeB[c]}
            && (x.act.r.rcx == y.nodeA[c] ==> Uses(x.act, y.a, y.nodeA[c]))
            && (x.act.r.rcx == y.nodeB[c] ==> Uses(x.act, y.b, y.nodeB[c]))
            && w.loc[t].pc == Incrementing && x.act.call == IncCall(y, c)
            && Instruction(w.s, t).mem == m[x.act.r.rcx := Get(m, x.act.r.rcx) + 1]
            && x.act.commits == 0 && Instruction(w.s, t).th[t] == x.(act := x.act.(pc := Exit(Ok), commits := 1))
  {
    assert WorkerOk(y, w.s.th[t], w.loc[t], w.s.mem);
    CommitStep(w.s.th[t].act, w.s.twice, w.s.th[t].cpuId, w.s.mem);
  }

  lemma SumsAfter(y: Layout, w: World, w': World, t: nat, c: nat, a: Addr)
    requires LayoutOk(y, w.s.nCpus) && Sums(y, w) && t < |w.loc| && c < w.s.nCpus && a in {y.nodeA[c], y.nodeB[c]}
    requires |w'.s.th| == |w.s.th| && w'.loc == w.loc && w'.s.mem == w.s.mem[a := Get(w.s.mem, a) + 1]
    requires forall u :: 0 <= u < |w.loc| && u != t ==> w'.s.th[u] == w.s.th[u]
    requires Done(w'.s.th[t], w.loc[t]) == Done(w.s.th[t], w.loc[t]) + 1
    ensures Sums(y, w')
  {
    NodeSum(y, w.s.mem, c, w.s.nCpus, a);
    DoneSum(w, w', t);
  }

  lemma CommitSums(y: Layout, w: World, t: nat)
    requires AtCommit(y, w, t)
    ensures Sums(y, w.(s := Instruction(w.s, t)))
  {
    CommitFacts(y, w, t);
    SumsAfter(y, w, w.(s := Instruction(w.s, t)), t, w.s.th[t].on, w.s.th[t].act.r.rcx);
  }

  // A store to a node touches neither the pointer nor the heads.
  lemma NodeStoreFrame(y: Layout, m: Mem, n: nat, c: nat, a: Addr, k: Word)
    requires LayoutOk(y, n) && HeadsOk(y, m) && c < |y.nodeA| && a in {y.nodeA[c], y.nodeB[c]}
    ensures var m' := m[a := k]; Get(m', y.ptr) == Get(m, y.ptr) && HeadsOk(y, m')
  {
    assert y.nodeA[c] != y.ptr && y.nodeB[c] != y.ptr && !IsHead(y, y.nodeA[c]) && !IsHead(y, y.nodeB[c]);
  }

  lemma CommitWorkers(y: Layout, w: World, t: nat)
    requires AtCommit(y, w, t) && Get(Instruction(w.s, t).mem, y.ptr) == Get(w.s.mem, y.ptr)
    ensures Workers(y, w.(s := Instruction(w.s, t)))
  {
    var w' := w.(s := Instruction(w.s, t));
    CommitFacts(y, w, t);
    forall u | 0 <= u < |w.loc| ensures WorkerOk(y, w'.s.th[u], w'.loc[u], w'.s.mem) {
      assert WorkerOk(y, w.s.th[u], w.loc[u], w.s.mem);
    }
  }

  /** A commit never touches the node of a list that is flushed on that CPU. */
  lemma CommitSparesFlushed(y: Layout, w: World, t: nat)
    requires AtCommit(y, w, t)
    ensures forall c :: 0 <= c < |y.nodeA| && Flushed(w.s, c, y.a, y.nodeA[c]) ==>
              Get(Instruction(w.s, t).mem, y.nodeA[c]) == Get(w.s.mem, y.nodeA[c])
    ensures forall c :: 0 <= c < |y.nodeA| && Flushed(w.s, c, y.b, y.nodeB[c]) ==>
              Get(Instruction(w.s, t).mem, y.nodeB[c]) == Get(w.s.mem, y.nodeB[c])
  {
    CommitFacts(y, w, t);
  }

  lemma CommitKeepsFlushed(y: Layout, w: World, t: nat, c: int, list: Addr, node: Addr)
    requires AtCommit(y, w, t) && Flushed(w.s, c, list, node)
    ensures Flushed(Instruction(w.s, t), c, list, node)
  {
    CommitFacts(y, w, t);
  }

  lemma CommitKeepsManager(y: Layout, w: World, t: nat)
    requires AtCommit(y, w, t) && Get(Instruction(w.s, t).mem, y.ptr) == Get(w.s.mem, y.ptr)
    ensures ManagerOk(y, Instruction(w.s, t), w.mgr)
  {
    var g := w.mgr;
    CommitSparesFlushed(y, w, t);
    if Flushed(w.s, g.cpuA, y.a, y.nodeA[g.cpuA]) { CommitKeepsFlushed(y, w, t, g.cpuA, y.a, y.nodeA[g.cpuA]); }
    if Flushed(w.s, g.cpuB, y.b, y.nodeB[g.cpuB]) { CommitKeepsFlushed(y, w, t, g.cpuB, y.b, y.nodeB[g.cpuB]); }
  }

  lemma CommitMove(y: Layout, w: World, t: nat)
    requires AtCommit(y, w, t)
    ensures Content(y, w.(s := Instruction(w.s, t)))
  {
    hide LayoutOk, Flushed, WorkerOk, Total, Data, Dones;
    CommitFacts(y, w, t);
    var (x, m) := (w.s.th[t], w.s.mem);
    NodeStoreFrame(y, m, w.s.nCpus, x.on, x.act.r.rcx, Get(m, x.act.r.rcx) + 1);
    CommitSums(y, w, t);
    CommitKeepsManager(y, w, t);
    CommitWorkers(y, w, t);
  }

  // ---------------------------------------------------------------- statements

  lemma WorkerLocals(y: Layout, w: World, t: nat, site: nat, junk: Regs)
    requires Workers(y, w) && CanGo(w, t) && ThreadOk(w.s.th[t], w.s.nCpus) && w.s.nCpus == |y.nodeA|
    ensures var (l', s') := (NextWorker(y, w, t), NextState(y, w, t, site, junk));
            && s'.mem == w.s.mem && WorkerOk(y, s'.th[t], l', w.s.mem)
            && Done(s'.th[t], l') == Done(w.s.th[t], w.loc[t])
            && s'.th[t].on == w.s.th[t].on
            && (s'.th[t].act.Busy? ==> s'.th[t].act.pc == At(0))
  {
    assert WorkerOk(y, w.s.th[t], w.loc[t], w.s.mem);
  }

  lemma WorkerKeepsKInv(y: Layout, w: World, t: nat, site: nat, junk: Regs)
    requires KInv(w.s) && Workers(y, w) && CanGo(w, t)
    ensures KInv(NextState(y, w, t, site, junk))
  {
    var l := w.loc[t];
    assert WorkerOk(y, w.s.th[t], l, w.s.mem) && ThreadOk(w.s.th[t], w.s.nCpus);
    if l.pc == GotCpu {
      EnterSection(IncCall(y, l.cpu), l.cpu, site, junk, w.s.mem);
    }
  }

  // Other workers are as before.
  lemma OtherWorkers(y: Layout, w: World, w': World, t: nat)
    requires Workers(y, w) && t < |w.loc| && |w'.s.th| == |w'.loc| == |w.loc|
    requires forall u :: 0 <= u < |w.loc| && u != t ==> w'.s.th[u] == w.s.th[u] && w'.loc[u] == w.loc[u]
    requires w'.s.mem == w.s.mem && WorkerOk(y, w'.s.th[t], w'.loc[t], w'.s.mem)
    requires Done(w'.s.th[t], w'.loc[t]) == Done(w.s.th[t], w.loc[t])
    ensures Workers(y, w') && Dones(w') == Dones(w)
  {
  }

  lemma WorkerMove(y: Layout, w: World, t: nat, site: nat, junk: Regs)
    requires Content(y, w) && CanGo(w, t) && ThreadOk(w.s.th[t], w.s.nCpus)
    ensures Content(y, Do(y, w, C(t, site, junk)))
  {
    var w' := Do(y, w, C(t, site, junk));
    WorkerLocals(y, w, t, site, junk);
    OtherWorkers(y, w, w', t);
    WorkerKeepsManager(y, w, t, site, junk);
  }

  lemma WorkerKeepsManager(y: Layout, w: World, t: nat, site: nat, junk: Regs)
    requires Content(y, w) && CanGo(w, t) && ThreadOk(w.s.th[t], w.s.nCpus)
    ensures ManagerOk(y, NextState(y, w, t, site, junk), w.mgr)
  {
    var s' := NextState(y, w, t, site, junk);
    WorkerLocals(y, w, t, site, junk);
    assert forall u :: 0 <= u < |w.s.th| && u != t ==> s'.th[u] == w.s.th[u];
    assert forall list, node :: !Uses(s'.th[t].act, list, node);
  }

  lemma ManagerMove(y: Layout, w: World, c: int)
    requires Inv(y, w) && CanMove(y, w, M(c))
    ensures Inv(y, Do(y, w, M(c)))
  {
    hide LayoutOk;
    hide KInv, Content;
    var (g, w') := (w.mgr, Do(y, w, M(c)));
    if g.pc in {Publish, SwapToA, SwapToB} {
      PointerStore(y, w, if g.pc == SwapToB then y.b else y.a, c);
      OnlyMemory(w.s, w'.s.mem);
    } else if g.pc in {BarrierA, BarrierB} {
      BarrierMove(y, w, c);
    } else {
      ManagerReads(y, w, c);
    }
  }

  // The manager's other statements change nothing but its locals.
  lemma ManagerReads(y: Layout, w: World, c: int)
    requires Content(y, w) && CanMove(y, w, M(c)) && w.mgr.pc !in {Publish, SwapToA, SwapToB, BarrierA, BarrierB}
    ensures Content(y, Do(y, w, M(c)))
  {
    assert Dones(Do(y, w, M(c))) == Dones(w);
  }

  // A store changes nothing the kernel looks at.
  lemma OnlyMemory(s: State, m: Mem)
    requires KInv(s)
    ensures KInv(s.(mem := m))
  {
  }

  lemma BarrierMove(y: Layout, w: World, c: int)
    requires Inv(y, w) && CanMove(y, w, M(c)) && w.mgr.pc in {BarrierA, BarrierB}
    ensures Inv(y, Do(y, w, M(c)))
  {
    var (g, w') := (w.mgr, Do(y, w, M(c)));
    var d := if g.pc == BarrierA then g.cpuA else g.cpuB;
    KernelMove(y, w, Membarrier(d));
    BarrierFlushes(w.s, d, y.a, y.nodeA[d]);
    BarrierFlushes(w.s, d, y.b, y.nodeB[d]);
    assert Dones(w') == Dones(w.(s := w'.s));
  }

  // The pointer is no node.
  lemma PointerStoreFrame(y: Layout, m: Mem, n: nat, list: Addr)
    requires LayoutOk(y, n) && HeadsOk(y, m)
    ensures var m' := m[y.ptr := list];
            && HeadsOk(y, m') && Data(m', y.nodeA) == Data(m, y.nodeA) && Data(m', y.nodeB) == Data(m, y.nodeB)
            && forall d :: 0 <= d < |y.nodeA| ==>
                 Get(m', y.nodeA[d]) == Get(m, y.nodeA[d]) && Get(m', y.nodeB[d]) == Get(m, y.nodeB[d])
  {
    var m' := m[y.ptr := list];
    forall d | 0 <= d < |y.nodeA|
      ensures Get(m', y.nodeA[d]) == Get(m, y.nodeA[d]) && Get(m', y.nodeB[d]) == Get(m, y.nodeB[d])
    {
      assert y.nodeA[d] != y.ptr && y.nodeB[d] != y.ptr;
    }
  }

  // The manager's store of the pointer.
  lemma PointerStore(y: Layout, w: World, list: Addr, c: int)
    requires Content(y, w) && CanMove(y, w, M(c)) && w.mgr.pc in {Publish, SwapToA, SwapToB}
    requires list == if w.mgr.pc == SwapToB then y.b else y.a
    ensures Content(y, Do(y, w, M(c)))
  {
    var w' := Do(y, w, M(c));
    assert w'.s == w.s.(mem := w.s.mem[y.ptr := list]);
    PointerStoreFrame(y, w.s.mem, w.s.nCpus, list);
    forall t | 0 <= t < |w.loc| ensures WorkerOk(y, w'.s.th[t], w'.loc[t], w'.s.mem) {
      assert WorkerOk(y, w.s.th[t], w.loc[t], w.s.mem);
    }
    assert Dones(w') == Dones(w);
  }

  lemma InstructionMove(y: Layout, w: World, t: nat)
    requires Inv(y, w) && t < |w.s.th| && CanStep(w.s.th[t])
    ensures Inv(y, w.(s := Instruction(w.s, t)))
  {
    InstructionKeepsKInv(w.s, t);
    assert WorkerOk(y, w.s.th[t], w.loc[t], w.s.mem);
    assert ThreadOk(w.s.th[t], w.s.nCpus) && ThreadOk(Instruction(w.s, t).th[t], w.s.nCpus);
    if w.s.th[t].act.pc == At(7) {
      CommitMove(y, w, t);
    } else {
      SilentInstruction(y, w, t);
    }
  }

  /** Every move keeps the invariant. */
  lemma MoveKeepsInv(y: Layout, w: World, v: Move)
    requires Inv(y, w) && CanMove(y, w, v)
    ensures Inv(y, Do(y, w, v))
  {
    match v
    case K(e) => KernelMove(y, w, e);
    case I(t) => InstructionMove(y, w, t);
    case M(c) => ManagerMove(y, w, c);
    case C(t, site, junk) =>
      assert ThreadOk(w.s.th[t], w.s.nCpus);
      WorkerKeepsKInv(y, w, t, site, junk);
      WorkerMove(y, w, t, site, junk);
  }

  // ---------------------------------------------------------------- whole runs

  ghost predicate Initial(y: Layout, w: World) {
    && KInv(w.s) && LayoutOk(y, w.s.nCpus) && HeadsOk(y, w.s.mem) && |w.s.th| == |w.loc|
    && Get(w.s.mem, y.ptr) == 0
    && (forall t :: 0 <= t < |w.loc| ==> w.s.th[t].act.Idle? && w.loc[t] == Worker(Waiting, 0, 0, 0))
    && (forall c :: 0 <= c < |y.nodeA| ==> Get(w.s.mem, y.nodeA[c]) == Get(w.s.mem, y.nodeB[c]) == 0)
    && w.mgr == Manager(Publish, 0, 0, 0, 0)
  }

  ghost predicate IsRun(y: Layout, ws: seq<World>, vs: seq<Move>) {
    && |ws| == |vs| + 1 && Initial(y, ws[0])
    && forall k :: 0 <= k < |vs| ==> CanMove(y, ws[k], vs[k]) && ws[k + 1] == Do(y, ws[k], vs[k])
  }

  lemma InitialInv(y: Layout, w: World)
    requires Initial(y, w)
    ensures Inv(y, w)
  {
    TotalZero(Data(w.s.mem, y.nodeA));
    TotalZero(Data(w.s.mem, y.nodeB));
    TotalZero(Dones(w));
  }

  lemma {:induction false} RunKeepsInv(y: Layout, ws: seq<World>, vs: seq<Move>, k: nat)
    requires IsRun(y, ws, vs) && k < |ws|
    ensures Inv(y, ws[k])
  {
    if k == 0 {
      InitialInv(y, ws[0]);
    } else {
      RunKeepsInv(y, ws, vs, k - 1);
      MoveKeepsInv(y, ws[k - 1], vs[k - 1]);
    }
  }

  /** The manager's comparisons never fail, and the two lists together have exactly
      the successful increments. */
  lemma SwapIsSafe(y: Layout, ws: seq<World>, vs: seq<Move>, k: nat)
    requires IsRun(y, ws, vs) && k < |ws|
    ensures ws[k].mgr.pc != Failed && |ws[k].loc| == |ws[k].s.th|
    ensures var (m, g) := (ws[k].s.mem, ws[k].mgr);
            && 0 <= g.cpuA < |y.nodeA| && 0 <= g.cpuB < |y.nodeB|
            && (g.pc == CheckA ==> g.expectA == Get(m, y.nodeA[g.cpuA]))
            && (g.pc == CheckB ==> g.expectB == Get(m, y.nodeB[g.cpuB]))
    ensures Total(Data(ws[k].s.mem, y.nodeA)) + Total(Data(ws[k].s.mem, y.nodeB)) == Total(Dones(ws[k]))
  {
    RunKeepsInv(y, ws, vs, k);
  }

  // What a worker has completed is what it has begun, up to the iteration it is in.
  ghost predicate Balanced(l: Worker) {
    l.begun == l.done + if l.pc in {Retry, GotCpu, Incrementing} then 1 else 0
  }

  lemma {:induction false} RunIsBalanced(y: Layout, ws: seq<World>, vs: seq<Move>, k: nat, t: nat)
    requires IsRun(y, ws, vs) && k < |ws| && t < |ws[k].loc|
    ensures Balanced(ws[k].loc[t])
    decreases k
  {
    hide KInv, Kernel, Instruction, NextState, ManagerState, NextManager;
    if k > 0 {
      assert CanMove(y, ws[k - 1], vs[k - 1]) && ws[k] == Do(y, ws[k - 1], vs[k - 1]);
      RunIsBalanced(y, ws, vs, k - 1, t);
    }
  }

  /** Every iteration counts once: a worker between two iterations has completed as many increments as it
      has begun iterations. */
  lemma IterationsCount(y: Layout, ws: seq<World>, vs: seq<Move>, k: nat, t: nat)
    requires IsRun(y, ws, vs) && k < |ws| && t < |ws[k].loc| && ws[k].loc[t].pc in {Waiting, Ready}
    ensures ws[k].loc[t].done == ws[k].loc[t].begun
  {
    RunIsBalanced(y, ws, vs, k, t);
  }

  ghost function Iterations(w: World): seq<int> { seq(|w.loc|, t requires 0 <= t < |w.loc| => w.loc[t].begun) }

  /** The final validation of the test: when all workers are between two iterations the two lists together
      count the iterations begun. */
  lemma TotalIsIterations(y: Layout, ws: seq<World>, vs: seq<Move>, k: nat)
    requires IsRun(y, ws, vs) && k < |ws| && forall t :: 0 <= t < |ws[k].loc| ==> ws[k].loc[t].pc in {Waiting, Ready}
    ensures Total(Data(ws[k].s.mem, y.nodeA)) + Total(Data(ws[k].s.mem, y.nodeB)) == Total(Iterations(ws[k]))
  {
    SwapIsSafe(y, ws, vs, k);
    forall t | 0 <= t < |ws[k].loc| ensures Dones(ws[k])[t] == Iterations(ws[k])[t] {
      IterationsCount(y, ws, vs, k, t);
    }
    assert Dones(ws[k]) == Iterations(ws[k]);
  }

  /** A worker asks for the CPU it is on. */
  lemma AsksForItsCpu(y: Layout, w: World, v: Move)
    requires Inv(y, w) && CanMove(y, w, v) && v.C? && w.loc[v.t].pc in {Ready, Retry}
    ensures w.s.th[v.t].reg ==> Do(y, w, v).loc[v.t].cpu == w.s.th[v.t].on
  {
    assert ThreadOk(w.s.th[v.t], w.s.nCpus);
  }

  /** From the end of the barrier on a CPU until the retired list is published
      again, no step of anybody changes that CPU's node of the retired list. */
  lemma RetiredListIsStable(y: Layout, ws: seq<World>, vs: seq<Move>, k: nat)
    requires IsRun(y, ws, vs) && k < |vs|
    ensures var (w, w', g) := (ws[k], ws[k + 1], ws[k].mgr);
            && 0 <= g.cpuA < |y.nodeA| && 0 <= g.cpuB < |y.nodeB|
            && (g.pc in {NoteA, PickB, CheckA, SwapToA} ==>
                  Get(w'.s.mem, y.nodeA[g.cpuA]) == Get(w.s.mem, y.nodeA[g.cpuA]))
            && (g.pc in {NoteB, PickA, CheckB, SwapToB} ==>
                  Get(w'.s.mem, y.nodeB[g.cpuB]) == Get(w.s.mem, y.nodeB[g.cpuB]))
  {
    RunKeepsInv(y, ws, vs, k);
    NodesStay(y, ws[k], vs[k]);
  }

  // What an instruction does to the nodes of flushed lists.
  lemma InstructionSparesNodes(y: Layout, w: World, t: nat)
    requires Inv(y, w) && t < |w.loc| && CanStep(w.s.th[t])
    ensures var (m', g) := (Instruction(w.s, t).mem, w.mgr);
            && (Flushed(w.s, g.cpuA, y.a, y.nodeA[g.cpuA]) ==>
                  Get(m', y.nodeA[g.cpuA]) == Get(w.s.mem, y.nodeA[g.cpuA]))
            && (Flushed(w.s, g.cpuB, y.b, y.nodeB[g.cpuB]) ==>
                  Get(m', y.nodeB[g.cpuB]) == Get(w.s.mem, y.nodeB[g.cpuB]))
  {
    assert WorkerOk(y, w.s.th[t], w.loc[t], w.s.mem) && ThreadOk(w.s.th[t], w.s.nCpus);
    if w.s.th[t].act.pc == At(7) {
      CommitSparesFlushed(y, w, t);
    } else {
      SilentFacts(y, w, t);
    }
  }

  // ... and what any move does.
  lemma NodesStay(y: Layout, w: World, v: Move)
    requires Inv(y, w) && CanMove(y, w, v)
    ensures var (w', g) := (Do(y, w, v), w.mgr);
            && (Flushed(w.s, g.cpuA, y.a, y.nodeA[g.cpuA]) ==>
                  Get(w'.s.mem, y.nodeA[g.cpuA]) == Get(w.s.mem, y.nodeA[g.cpuA]))
            && (Flushed(w.s, g.cpuB, y.b, y.nodeB[g.cpuB]) ==>
                  Get(w'.s.mem, y.nodeB[g.cpuB]) == Get(w.s.mem, y.nodeB[g.cpuB]))
  {
    hide Sums;
    match v
    case K(e) => KernelKeepsCalls(w.s, e);
    case C(t, _, _) =>
    case M(c) => PointerStoreFrame(y, w.s.mem, w.s.nCpus, if w.mgr.pc == SwapToB then y.b else y.a);
    case I(t) => InstructionSparesNodes(y, w, t);
  }

  /** The bug labels of RSEQ_COMPARE_TWICE are never reached. */
  lemma ComparesTwiceAgree(y: Layout, ws: seq<World>, vs: seq<Move>, k: nat, t: nat)
    requires IsRun(y, ws, vs) && k < |ws| && t < |ws[k].s.th|
    ensures var a := ws[k].s.th[t].act; a.Busy? && !a.pc.At? ==> a.pc.l in {Ok, Abort}
  {
    RunKeepsInv(y, ws, vs, k);
    assert WorkerOk(y, ws[k].s.th[t], ws[k].loc[t], ws[k].s.mem);
  }

  // ---------------------------------------------------------------- without the barrier

  /** An increment is atomic exactly when the list it picked up is still the published one:
      a swap between its load and its commit makes it go to the list just retired. */
  lemma CommitAtomicIffPublished(y: Layout, w: World, t: nat)
    requires Inv(y, w) && t < |w.loc| && CanStep(w.s.th[t]) && w.s.th[t].act.pc == At(7)
    ensures var (x, m) := (w.s.th[t], w.s.mem);
            && 0 <= x.on < |y.nodeA| && x.act.call == IncCall(y, x.on)
            && (CommitAtomic(x.act, w.s.twice, x.cpuId, m)
                <==> (x.act.r.rcx == y.nodeA[x.on] <==> Get(m, y.ptr) == y.a))
  {
    var (x, d) := (w.s.th[t], w.s.th[t].on);
    assert WorkerOk(y, x, w.loc[t], w.s.mem) && ThreadOk(x, w.s.nCpus);
    CommitFacts(y, w, t);
    assert Get(w.s.mem, Head(y.a, d)) == y.nodeA[d] && Get(w.s.mem, Head(y.b, d)) == y.nodeB[d];
    assert y.nodeA[d] != y.nodeB[d];
    hide Sums, Workers, ManagerInv, CommitAtomic;
    AddCommitAtomicIff(x.act, w.s.twice, x.cpuId, w.s.mem);
  }

  ghost predicate Reachable(y: Layout, w: World) {
    exists ws, vs :: IsRun(y, ws, vs) && ws[|vs|] == w
  }

  lemma ReachStep(y: Layout, w: World, v: Move, w': World)
    requires Reachable(y, w) && CanMove(y, w, v) && Do(y, w, v) == w'
    ensures Reachable(y, w')
  {
    var ws, vs :| IsRun(y, ws, vs) && ws[|vs|] == w;
    var (ws', vs') := (ws + [w'], vs + [v]);
    forall k | 0 <= k < |vs'| ensures CanMove(y, ws'[k], vs'[k]) && ws'[k + 1] == Do(y, ws'[k], vs'[k]) {
      if k < |vs| { assert ws'[k] == ws[k] && vs'[k] == vs[k] && ws'[k + 1] == ws[k + 1]; }
    }
    assert IsRun(y, ws', vs') && ws'[|vs'|] == w';
  }

  // A system of one CPU, one worker and the manager.
  const SMALL := Layout(1, 2, 3, [4], [5])
  const ZERO := Regs(0, 0, 0, 0, 0, 0, 0, 0, 0, 0)

  ghost function Small(ptr: Word, cs: int, act: Act, pc: WorkerPc, mgr: ManagerPc): World {
    World(State(map[1 := ptr, 2 := 4, 3 := 5], [Thread(0, true, 0, cs, act)], 1, false),
          [Worker(pc, 0, 0, if pc in {GotCpu, Incrementing} then 1 else 0)], Manager(mgr, 0, 0, 0, 0))
  }

  // The increment at instruction i, having picked up the first list.
  ghost function SmallAct(i: nat): Act {
    Busy(IncCall(SMALL, 0), 0, 0, At(i), ZERO.(rbx := if i >= 5 then 2 else 0, rcx := if i >= 7 then 4 else 0), 0)
  }

  lemma SmallStarts()
    ensures Initial(SMALL, Small(0, -1, Idle, Waiting, Publish))
    ensures Reachable(SMALL, Small(0, -1, Idle, Waiting, Publish))
  {
    var w := Small(0, -1, Idle, Waiting, Publish);
    assert Initial(SMALL, w) by {
      hide Enabled, Kernel;
      assert forall x :: IsHead(SMALL, x) ==> x == 2 || x == 3;
    }
    hide Initial;
    var vs: seq<Move> := [];
    assert IsRun(SMALL, [w], vs) && [w][|vs|] == w;
  }

  // The first list is published.
  lemma SmallPublishes()
    ensures Reachable(SMALL, Small(2, -1, Idle, Waiting, PickA))
  {
    hide Reachable;
    var (w, w') := (Small(0, -1, Idle, Waiting, Publish), Small(2, -1, Idle, Waiting, PickA));
    assert w.s.mem[1 := 2] == w'.s.mem;
    SmallStarts();
    ReachStep(SMALL, w, M(0), w');
  }

  // The worker's statements up to the helper, and what they do.
  ghost function SmallBefore(i: nat): World {
    if i < 3 then Small(2, -1, Idle, if i == 0 then Waiting else if i == 1 then Ready else GotCpu, PickA)
    else Small(2, -1, SmallAct(0), Incrementing, PickA)
  }

  lemma SmallStatement(i: nat)
    requires i < 3
    ensures CanMove(SMALL, SmallBefore(i), C(0, 0, ZERO))
            && Do(SMALL, SmallBefore(i), C(0, 0, ZERO)) == SmallBefore(i + 1)
  {
  }

  lemma {:induction false} SmallEnters(i: nat)
    requires i <= 3
    ensures Reachable(SMALL, SmallBefore(i))
  {
    if i == 0 {
      SmallPublishes();
    } else {
      SmallEnters(i - 1);
      SmallStatement(i - 1);
      ReachStep(SMALL, SmallBefore(i - 1), C(0, 0, ZERO), SmallBefore(i));
    }
  }

  // One instruction of the increment.
  ghost function SmallInside(i: nat): World {
    Small(2, if i >= 2 then 0 else -1, SmallAct(i), Incrementing, PickA)
  }

  lemma SmallPrologue(i: nat)
    requires i < 4
    ensures CanMove(SMALL, SmallInside(i), I(0)) && Do(SMALL, SmallInside(i), I(0)) == SmallInside(i + 1)
  {
  }

  lemma SmallLoad(i: nat)
    requires 4 <= i < 7
    ensures CanMove(SMALL, SmallInside(i), I(0)) && Do(SMALL, SmallInside(i), I(0)) == SmallInside(i + 1)
  {
  }

  lemma SmallInstruction(i: nat)
    requires i < 7
    ensures CanMove(SMALL, SmallInside(i), I(0)) && Do(SMALL, SmallInside(i), I(0)) == SmallInside(i + 1)
  {
    hide *;
    if i < 4 { SmallPrologue(i); } else { SmallLoad(i); }
  }

  lemma {:induction false} SmallReaches(i: nat)
    requires i <= 7
    ensures Reachable(SMALL, SmallInside(i))
  {
    if i == 0 {
      SmallEnters(3);
    } else {
      SmallReaches(i - 1);
      SmallInstruction(i - 1);
      ReachStep(SMALL, SmallInside(i - 1), I(0), SmallInside(i));
    }
  }

  // The manager publishes the second list while the increment is about to commit.
  ghost function SmallManager(i: nat): World {
    Small(if i < 3 then 2 else 3, 0, SmallAct(7), Incrementing,
          if i == 0 then PickA else if i == 1 then CheckB else if i == 2 then SwapToB else BarrierA)
  }

  lemma SmallManages(i: nat)
    requires i < 3
    ensures CanMove(SMALL, SmallManager(i), M(0)) && Do(SMALL, SmallManager(i), M(0)) == SmallManager(i + 1)
  {
    assert map[1 := 2, 2 := 4, 3 := 5][1 := 3] == map[1 := 3, 2 := 4, 3 := 5];
  }

  lemma {:induction false} SmallSwaps(i: nat)
    requires i <= 3
    ensures Reachable(SMALL, SmallManager(i))
  {
    if i == 0 {
      SmallReaches(7);
    } else {
      SmallSwaps(i - 1);
      SmallManages(i - 1);
      ReachStep(SMALL, SmallManager(i - 1), M(0), SmallManager(i));
    }
  }

  // An increment that is about to commit to the first list while the second is published.
  ghost predicate Poised(y: Layout, w: World, t: nat) {
    && t < |w.s.th| && CanStep(w.s.th[t]) && w.s.th[t].act.pc == At(7) && 0 <= w.s.th[t].on < |y.nodeA|
    && w.s.th[t].act.r.rcx == y.nodeA[w.s.th[t].on] && Get(w.s.mem, y.ptr) == y.b
  }

  lemma SmallIsPoised()
    ensures exists y, w :: Reachable(y, w) && Poised(y, w, 0)
  {
    SmallSwaps(3);
    assert Poised(SMALL, SmallManager(3), 0) by { hide Reachable; }
    hide *;
  }

  // A commit that increments a node of the first list while the second is published, which
  // is not what the pseudo-code does.
  ghost predicate Stale(y: Layout, w: World, t: nat) {
    && Poised(y, w, t) && y.a != y.b && Len(w.s.th[t].act.call) == 8
    && (var node := y.nodeA[w.s.th[t].on];
        Instruction(w.s, t).mem == w.s.mem[node := Get(w.s.mem, node) + 1])
    && !CommitAtomic(w.s.th[t].act, w.s.twice, w.s.th[t].cpuId, w.s.mem)
  }

  lemma PoisedIsStale(y: Layout, w: World, t: nat)
    requires Inv(y, w) && Poised(y, w, t)
    ensures Stale(y, w, t)
  {
    assert ThreadOk(w.s.th[t], w.s.nCpus);
    CommitFacts(y, w, t);
    CommitAtomicIffPublished(y, w, t);
  }

  /** Without the barrier the helper is not atomic: a run from the start of the test reaches
      a state where the second list is published and a commit increments the first. */
  lemma SwapMakesCommitStale()
    ensures exists y, w :: Reachable(y, w) && Stale(y, w, 0)
  {
    SmallIsPoised();
    var y, w :| Reachable(y, w) && Poised(y, w, 0);
    var ws, vs :| IsRun(y, ws, vs) && ws[|vs|] == w;
    RunKeepsInv(y, ws, vs, |vs|);
    PoisedIsStale(y, w, 0);
  }
}
