/**
 The per-CPU linked list: threads pop a node from the list of the CPU they run
 on and push it back on the list of the CPU they then run on.  Everything is at
 instruction granularity, so a node popped and pushed again between a pusher's
 read of the head and its section is among the runs considered.
 */
module PercpuList {
  import opened Machine
  import opened Sections
  import opened Atomicity
  import opened Conservation

  const NEXT: int := 8        // offsetof(struct percpu_list_node, next)

  /** Where things are: the per-CPU heads, each thread's local `head` variable, and the nodes. */
  datatype Layout = Layout(list: Addr, load: seq<Addr>, nodes: set<Addr>)

  function Head(y: Layout, c: int): Addr { y.list + STRIDE * c }

  // Distinct objects occupy distinct cells, none of them in the first page.
  ghost predicate LayoutOk(y: Layout, nCpus: nat) {
    && nCpus > 0
    && y.list > 4095
    && (forall n :: n in y.nodes ==> n > 4095)
    && (forall n, c :: n in y.nodes && 0 <= c < nCpus ==> n + NEXT != Head(y, c))
    && (forall t :: 0 <= t < |y.load| ==> y.load[t] > 4095 && y.load[t] - NEXT !in y.nodes)
    && (forall t, c :: 0 <= t < |y.load| && 0 <= c < nCpus ==> y.load[t] != Head(y, c))
    && (forall t, u :: 0 <= t < u < |y.load| ==> y.load[t] != y.load[u])
  }

  // Ready is between two iterations, Retry inside one whose pop was aborted.
  datatype Pc = Ready | Retry | PopCpu | Popping | Holding | PushCpu | PushRead | PushLinked | Pushing

  // The C locals of a thread: cpu, the head value it read, the node it holds.
  datatype Local = Local(pc: Pc, cpu: int, want: Word, node: Addr)

  type World = Program<Local>

  function PopCall(y: Layout, c: int, t: nat): Call
    requires t < |y.load|
  {
    CbeqStoreAddLoadStore(Head(y, c), 0, NEXT, y.load[t])
  }

  function PushCall(y: Layout, l: Local): Call {
    CbneStore(Head(y, l.cpu), l.want, l.node)
  }

  /** A thread can execute its next C statement: it runs, and is at a statement or
      back from a helper. */
  predicate CanGo(w: World, t: nat) {
    && t < |w.s.th| && t < |w.loc| && w.s.th[t].on >= 0
    && var act := w.s.th[t].act;
       if w.loc[t].pc in {Popping, Pushing} then act.Busy? && act.pc.Exit? else act.Idle?
  }

  /** The machine step behind the next C statement of thread t. */
  ghost function Statement(y: Layout, w: World, t: nat, site: nat, junk: Regs): Step
    requires CanGo(w, t) && t < |y.load|
  {
    var l := w.loc[t];
    match l.pc
    case PopCpu => Begin(t, PopCall(y, l.cpu, t), l.cpu, site, junk)
    case PushRead => Plain(t, l.node + NEXT, l.want)
    case PushLinked => Begin(t, PushCall(y, l), l.cpu, site, junk)
    case Popping => Return(t)
    case Pushing => Return(t)
    case _ => Compute(t)
  }

  /** The locals after the next C statement of thread t. */
  function NextLocal(y: Layout, w: World, t: nat): Local
    requires CanGo(w, t) && t < |y.load|
  {
    var (x, l) := (w.s.th[t], w.loc[t]);
    match l.pc
    case Ready => l.(pc := PopCpu, cpu := CpuStart(x))
    case Retry => l.(pc := PopCpu, cpu := CpuStart(x))
    case PopCpu => l.(pc := Popping)
    case Popping =>
      if ReturnValue(x.act.pc.l) == 0 then l.(pc := Holding, node := Get(w.s.mem, y.load[t]))
      else l.(pc := if ReturnValue(x.act.pc.l) > 0 then Ready else Retry)
    case Holding => l.(pc := PushCpu, cpu := CpuStart(x))
    case PushCpu => l.(pc := PushRead, want := Get(w.s.mem, Head(y, l.cpu)))
    case PushRead => l.(pc := PushLinked)
    case PushLinked => l.(pc := Pushing)
    case Pushing => if ReturnValue(x.act.pc.l) == 0 then l.(pc := Ready) else l.(pc := Holding)
  }

  // A move of the whole system: the kernel, one helper instruction, or one C statement.
  datatype Move = K(e: Event) | I(t: nat) | C(t: nat, site: nat, junk: Regs)

  ghost predicate CanMove(y: Layout, w: World, v: Move) {
    match v
    case K(e) => Enabled(w.s, e)
    case I(t) => t < |w.s.th| && CanStep(w.s.th[t])
    case C(t, site, junk) => CanGo(w, t) && t < |y.load| && EnabledStep(w.s, Statement(y, w, t, site, junk))
  }

  /** The machine step of a move. */
  ghost function StepOf(y: Layout, w: World, v: Move): Step
    requires CanMove(y, w, v)
    ensures EnabledStep(w.s, StepOf(y, w, v))
  {
    match v
    case K(e) => Kern(e)
    case I(t) => User(t)
    case C(t, site, junk) => Statement(y, w, t, site, junk)
  }

  ghost function Do(y: Layout, w: World, v: Move): World
    requires CanMove(y, w, v)
  {
    Program(Apply(w.s, StepOf(y, w, v)), if v.C? then w.loc[v.t := NextLocal(y, w, v.t)] else w.loc)
  }

  // ---------------------------------------------------------------- invariant

  /** Memory holds the NULL-terminated list q from pointer p on. */
  ghost predicate Chain(m: Mem, p: Addr, q: seq<Addr>)
    decreases |q|
  {
    if q == [] then p == 0 else p == q[0] && p != 0 && Chain(m, Get(m, p + NEXT), q[1..])
  }

  /** What thread t holds, and what its C statement knows of memory. */
  ghost predicate LocalOk(y: Layout, x: Thread, l: Local, m: Mem, t: nat, nCpus: nat, h: seq<Addr>)
    requires t < |y.load|
  {
    && 0 <= l.cpu < nCpus
    && (l.pc in {Popping, Pushing} ==> x.act.Busy? && x.act.cpu == l.cpu)
    && (l.pc !in {Popping, Pushing} ==> x.act.Idle?)
    && match l.pc
       case Ready => h == []
       case Retry => h == []
       case PopCpu => h == []
       case Popping => x.act.call == PopCall(y, l.cpu, t) && h == if x.act.commits == 1 then [Get(m, y.load[t])] else []
       case PushLinked => h == [l.node] && Get(m, l.node + NEXT) == l.want
       case Pushing =>
         && x.act.call == PushCall(y, l)
         && (if x.act.commits == 1 then h == [] else h == [l.node] && Get(m, l.node + NEXT) == l.want)
       case _ => h == [l.node]
  }

  // held[t] is what thread t holds.
  ghost predicate Hands(y: Layout, w: World, held: seq<seq<Addr>>) {
    && |w.s.th| == |w.loc| == |y.load| == |held|
    && forall t :: 0 <= t < |held| ==> LocalOk(y, w.s.th[t], w.loc[t], w.s.mem, t, w.s.nCpus, held[t])
  }

  // lists[c] is the list at the head of CPU c.
  ghost predicate Lists(y: Layout, m: Mem, lists: seq<seq<Addr>>) {
    forall c :: 0 <= c < |lists| ==> Chain(m, Get(m, Head(y, c)), lists[c])
  }

  ghost predicate Content(y: Layout, w: World, lists: seq<seq<Addr>>, held: seq<seq<Addr>>) {
    && LayoutOk(y, w.s.nCpus) && Hands(y, w, held) && |lists| == w.s.nCpus && Lists(y, w.s.mem, lists)
    && Sum(lists) + Sum(held) == multiset(y.nodes)
  }

  ghost predicate Inv(y: Layout, w: World, lists: seq<seq<Addr>>, held: seq<seq<Addr>>) {
    KInv(w.s) && SInv(w.s) && Content(y, w, lists, held)
  }

  lemma {:induction false} ChainFrame(m: Mem, m': Mem, p: Addr, q: seq<Addr>)
    requires Chain(m, p, q)
    requires forall n :: n in q ==> Get(m', n + NEXT) == Get(m, n + NEXT)
    ensures Chain(m', p, q)
    decreases |q|
  {
    if q != [] {
      assert q[0] in q;
      forall n | n in q[1..] ensures Get(m', n + NEXT) == Get(m, n + NEXT) { assert n in q; }
      ChainFrame(m, m', Get(m, p + NEXT), q[1..]);
    }
  }

  lemma ListNodes(y: Layout, w: World, lists: seq<seq<Addr>>, held: seq<seq<Addr>>, c: nat)
    requires Content(y, w, lists, held) && c < |lists|
    ensures forall n :: n in lists[c] ==> n in y.nodes
  {
    SumContains(lists, c);
    forall n | n in lists[c] ensures n in y.nodes {
      assert n in multiset(lists[c]);
      assert n in multiset(y.nodes);
    }
  }

  // What thread t holds is in no list and with no other thread.
  lemma HeldIsExclusive(y: Layout, w: World, lists: seq<seq<Addr>>, held: seq<seq<Addr>>, t: nat, n: Addr)
    requires Content(y, w, lists, held) && t < |held| && n in held[t]
    ensures n in y.nodes
    ensures forall c :: 0 <= c < |lists| ==> n !in lists[c]
    ensures forall u :: 0 <= u < |held| && u != t ==> n !in held[u]
  {
    forall c | 0 <= c < |lists| ensures n !in lists[c] {
      Exclusive(lists, held, y.nodes, c, t, n);
    }
    if |lists| > 0 { Exclusive(lists, held, y.nodes, 0, t, n); }
    forall u | 0 <= u < |held| && u != t ensures n !in held[u] {
      assert multiset(y.nodes)[n] <= 1;
      if n in held[u] { SumDisjoint(held, t, u, n); }
    }
  }

  // A cell that is no head and no next field of a list node.
  ghost predicate OffLists(y: Layout, lists: seq<seq<Addr>>, a: Addr) {
    forall c :: 0 <= c < |lists| ==> a != Head(y, c) && a - NEXT !in lists[c]
  }

  /** A store to a cell off the lists leaves every list alone. */
  lemma StoreKeepsChains(y: Layout, m: Mem, m': Mem, lists: seq<seq<Addr>>, a: Addr)
    requires Lists(y, m, lists) && OffLists(y, lists, a) && forall x :: x != a ==> Get(m', x) == Get(m, x)
    ensures Lists(y, m', lists)
  {
    forall c | 0 <= c < |lists| ensures Chain(m', Get(m', Head(y, c)), lists[c]) {
      forall n | n in lists[c] ensures Get(m', n + NEXT) == Get(m, n + NEXT) {
        assert n + NEXT - NEXT == n;
      }
      ChainFrame(m, m', Get(m, Head(y, c)), lists[c]);
    }
  }

  // A thread's own local is off the lists.
  lemma OwnLocalIsApart(y: Layout, w: World, t: nat, lists: seq<seq<Addr>>, held: seq<seq<Addr>>)
    requires Content(y, w, lists, held) && t < |held|
    ensures OffLists(y, lists, y.load[t])
  {
    forall c | 0 <= c < |lists| ensures y.load[t] != Head(y, c) && y.load[t] - NEXT !in lists[c] {
      ListNodes(y, w, lists, held, c);
    }
  }

  // The next field of a held node is off the lists.
  lemma HeldIsApart(y: Layout, w: World, t: nat, lists: seq<seq<Addr>>, held: seq<seq<Addr>>, n: Addr)
    requires Content(y, w, lists, held) && t < |held| && n in held[t]
    ensures n in y.nodes && OffLists(y, lists, n + NEXT)
  {
    HeldIsExclusive(y, w, lists, held, t, n);
    assert n + NEXT - NEXT == n;
  }

  // ---------------------------------------------------------------- no move disturbs a section

  /** The cells a running section of this system depends on: the head of its own
      CPU, its thread's local, and the first node of that list. */
  lemma SectionCells(y: Layout, w: World, lists: seq<seq<Addr>>, held: seq<seq<Addr>>, u: nat, a: Addr)
    requires Content(y, w, lists, held) && u < |held| && ThreadOk(w.s.th[u], w.s.nCpus)
    requires Active(w.s.th[u]) && Depends(w.s.th[u].act, w.s.mem, a)
    ensures var c := w.s.th[u].on;
            0 <= c < |lists| && (a == Head(y, c) || a == y.load[u] || a == NEXT || a - NEXT in lists[c])
  {
    assert LocalOk(y, w.s.th[u], w.loc[u], w.s.mem, u, w.s.nCpus, held[u]);
    assert Chain(w.s.mem, Get(w.s.mem, Head(y, w.s.th[u].on)), lists[w.s.th[u].on]);
  }

  // A cell outside everything that sections on other CPUs than thread t's depend on.
  ghost predicate Private(y: Layout, lists: seq<seq<Addr>>, t: nat, on: int, a: Addr) {
    && a > 4095
    && (forall u :: 0 <= u < |y.load| && u != t ==> a != y.load[u])
    && (forall c :: 0 <= c < |lists| && c != on ==> a != Head(y, c) && a - NEXT !in lists[c])
  }

  // Such a cell is in no section of another thread.
  lemma PrivateIsIndependent(y: Layout, w: World, lists: seq<seq<Addr>>, held: seq<seq<Addr>>, t: nat, u: nat, a: Addr)
    requires Content(y, w, lists, held) && KInv(w.s) && t < |held| && u < |held| && w.s.th[t].on >= 0
    requires Private(y, lists, t, w.s.th[t].on, a) && (u == t ==> !Active(w.s.th[t]))
    requires Active(w.s.th[u])
    ensures !Depends(w.s.th[u].act, w.s.mem, a)
  {
    assert ThreadOk(w.s.th[u], w.s.nCpus);
    if Depends(w.s.th[u].act, w.s.mem, a) { SectionCells(y, w, lists, held, u, a); }
  }

  /** A machine step by thread t that changes at most such a cell disturbs no other section. */
  lemma StoreIsQuiet(y: Layout, w: World, lists: seq<seq<Addr>>, held: seq<seq<Addr>>, p: Step, t: nat, a: Addr)
    requires Content(y, w, lists, held) && KInv(w.s) && EnabledStep(w.s, p) && t < |held| && w.s.th[t].on >= 0
    requires p == User(t) || (p.Plain? && p.t == t)
    requires Private(y, lists, t, w.s.th[t].on, a)
    requires forall x :: x != a ==> Get(Apply(w.s, p).mem, x) == Get(w.s.mem, x)
    ensures Quiet(w.s, p)
  {
    forall u, x | 0 <= u < |w.s.th| && Active(w.s.th[u]) && !(p.User? && p.t == u) && Depends(w.s.th[u].act, w.s.mem, x)
      ensures Get(Apply(w.s, p).mem, x) == Get(w.s.mem, x)
    {
      PrivateIsIndependent(y, w, lists, held, t, u, a);
    }
  }

  // The local of a thread, the head of its CPU and the next field of its node are private.
  lemma OwnCells(y: Layout, w: World, lists: seq<seq<Addr>>, held: seq<seq<Addr>>, t: nat)
    requires Content(y, w, lists, held) && t < |held|
    ensures Private(y, lists, t, w.s.th[t].on, y.load[t])
    ensures 0 <= w.s.th[t].on < |lists| ==> Private(y, lists, t, w.s.th[t].on, Head(y, w.s.th[t].on))
  {
    OwnLocalIsApart(y, w, t, lists, held);
    forall c | 0 <= c < |lists| ensures forall n :: n in lists[c] ==> n in y.nodes {
      ListNodes(y, w, lists, held, c);
    }
  }

  lemma OwnNode(y: Layout, w: World, lists: seq<seq<Addr>>, held: seq<seq<Addr>>, t: nat, n: Addr)
    requires Content(y, w, lists, held) && t < |held| && n in held[t]
    ensures Private(y, lists, t, w.s.th[t].on, n + NEXT)
  {
    HeldIsApart(y, w, t, lists, held, n);
  }

  // The only cell an instruction of thread t can change: its local, or the head of its CPU.
  lemma InstructionWrites(y: Layout, w: World, t: nat, lists: seq<seq<Addr>>, held: seq<seq<Addr>>) returns (a: Addr)
    requires Content(y, w, lists, held) && t < |held| && CanStep(w.s.th[t]) && ThreadOk(w.s.th[t], w.s.nCpus)
    ensures a == y.load[t] || (0 <= w.s.th[t].on < |lists| && a == Head(y, w.s.th[t].on))
    ensures forall x :: x != a ==> Get(Instruction(w.s, t).mem, x) == Get(w.s.mem, x)
  {
    var x := w.s.th[t];
    assert LocalOk(y, x, w.loc[t], w.s.mem, t, w.s.nCpus, held[t]);
    a := if x.act.pc == At(Len(x.act.call) - 1) then Head(y, x.on) else y.load[t];
  }

  lemma InstructionIsQuiet(y: Layout, w: World, t: nat, lists: seq<seq<Addr>>, held: seq<seq<Addr>>)
    requires Content(y, w, lists, held) && KInv(w.s) && t < |held| && CanStep(w.s.th[t])
    ensures Quiet(w.s, User(t))
  {
    assert ThreadOk(w.s.th[t], w.s.nCpus);
    var a := InstructionWrites(y, w, t, lists, held);
    OwnCells(y, w, lists, held, t);
    StoreIsQuiet(y, w, lists, held, User(t), t, a);
  }

  lemma StatementIsQuiet(y: Layout, w: World, v: Move, lists: seq<seq<Addr>>, held: seq<seq<Addr>>)
    requires Content(y, w, lists, held) && KInv(w.s) && CanMove(y, w, v) && v.C?
    ensures Quiet(w.s, StepOf(y, w, v))
  {
    var (t, p) := (v.t, StepOf(y, w, v));
    if p.Plain? {
      assert LocalOk(y, w.s.th[t], w.loc[t], w.s.mem, t, w.s.nCpus, held[t]);
      OwnNode(y, w, lists, held, t, w.loc[t].node);
      StoreIsQuiet(y, w, lists, held, p, t, p.x);
    } else {
      SilentIsQuiet(w.s, p);
    }
  }

  /** No move of this system changes a cell that another running section depends on. */
  lemma MoveIsQuiet(y: Layout, w: World, v: Move, lists: seq<seq<Addr>>, held: seq<seq<Addr>>)
    requires Content(y, w, lists, held) && KInv(w.s) && CanMove(y, w, v)
    ensures Quiet(w.s, StepOf(y, w, v))
  {
    match v
    case K(e) => KernelKeepsCalls(w.s, e); SilentIsQuiet(w.s, Kern(e));
    case I(t) => InstructionIsQuiet(y, w, t, lists, held);
    case C(_, _, _) => StatementIsQuiet(y, w, v, lists, held);
  }

  // ---------------------------------------------------------------- what the moves do to the content

  // What a thread holds and knows survives stores elsewhere.
  lemma LocalFrame(y: Layout, x: Thread, l: Local, m: Mem, m': Mem, u: nat, nCpus: nat, h: seq<Addr>)
    requires u < |y.load| && LocalOk(y, x, l, m, u, nCpus, h) && Get(m', y.load[u]) == Get(m, y.load[u])
    requires forall n :: n in h ==> Get(m', n + NEXT) == Get(m, n + NEXT)
    ensures LocalOk(y, x, l, m', u, nCpus, h)
  {
    if h != [] { assert h[0] in h; }
  }

  // The cells of the threads other than t are untouched.
  ghost predicate SparesOthers(y: Layout, m: Mem, m': Mem, held: seq<seq<Addr>>, t: nat)
    requires |y.load| == |held|
  {
    && (forall u :: 0 <= u < |held| && u != t ==> Get(m', y.load[u]) == Get(m, y.load[u]))
    && (forall u, n :: 0 <= u < |held| && u != t && n in held[u] ==> Get(m', n + NEXT) == Get(m, n + NEXT))
  }

  // Only thread t and its cells change.
  ghost predicate OthersStay(y: Layout, w: World, w': World, held: seq<seq<Addr>>, t: nat)
    requires |y.load| == |held|
  {
    && w'.s.nCpus == w.s.nCpus && |w'.s.th| == |w.s.th| == |w'.loc| == |w.loc|
    && (forall u :: 0 <= u < |w.loc| && u != t ==> w'.s.th[u] == w.s.th[u] && w'.loc[u] == w.loc[u])
    && SparesOthers(y, w.s.mem, w'.s.mem, held, t)
  }

  /** The hands after a step of thread t. */
  lemma HandsAfter(y: Layout, w: World, w': World, t: nat, held: seq<seq<Addr>>, h: seq<Addr>)
    requires Hands(y, w, held) && t < |held| && OthersStay(y, w, w', held, t)
    requires LocalOk(y, w'.s.th[t], w'.loc[t], w'.s.mem, t, w'.s.nCpus, h)
    ensures Hands(y, w', held[t := h])
  {
    forall u | 0 <= u < |held| && u != t
      ensures LocalOk(y, w'.s.th[u], w'.loc[u], w'.s.mem, u, w'.s.nCpus, held[u])
    {
      LocalFrame(y, w.s.th[u], w.loc[u], w.s.mem, w'.s.mem, u, w.s.nCpus, held[u]);
    }
  }

  // A step of thread t that changes no list and nothing it holds.
  lemma SameContent(y: Layout, w: World, w': World, t: nat, lists: seq<seq<Addr>>, held: seq<seq<Addr>>)
    requires Content(y, w, lists, held) && t < |held| && OthersStay(y, w, w', held, t) && Lists(y, w'.s.mem, lists)
    requires LocalOk(y, w'.s.th[t], w'.loc[t], w'.s.mem, t, w'.s.nCpus, held[t])
    ensures Content(y, w', lists, held)
  {
    assert held[t := held[t]] == held;
    HandsAfter(y, w, w', t, held, held[t]);
  }

  lemma KernelMove(y: Layout, w: World, e: Event, lists: seq<seq<Addr>>, held: seq<seq<Addr>>)
    requires Content(y, w, lists, held) && Enabled(w.s, e)
    ensures Content(y, w.(s := Kernel(w.s, e)), lists, held)
  {
    KernelKeepsCalls(w.s, e);
    var s' := Kernel(w.s, e);
    forall u | 0 <= u < |held|
      ensures LocalOk(y, s'.th[u], w.loc[u], s'.mem, u, s'.nCpus, held[u])
    {
      assert LocalOk(y, w.s.th[u], w.loc[u], w.s.mem, u, w.s.nCpus, held[u]);
    }
  }

  // A helper instruction that changes no memory.
  lemma SilentInstruction(y: Layout, w: World, t: nat, lists: seq<seq<Addr>>, held: seq<seq<Addr>>)
    requires Content(y, w, lists, held) && t < |held| && CanStep(w.s.th[t])
    requires Instruction(w.s, t).mem == w.s.mem && Instruction(w.s, t).th[t].act.commits == w.s.th[t].act.commits
    ensures Content(y, w.(s := Instruction(w.s, t)), lists, held)
  {
    assert LocalOk(y, w.s.th[t], w.loc[t], w.s.mem, t, w.s.nCpus, held[t]);
    SameContent(y, w, w.(s := Instruction(w.s, t)), t, lists, held);
  }

  // A store to the next field of a node in hand, or to a thread's own local.
  lemma OwnStoreSpares(y: Layout, w: World, t: nat, lists: seq<seq<Addr>>, held: seq<seq<Addr>>, a: Addr, k: Word)
    requires Content(y, w, lists, held) && t < |held| && (a == y.load[t] || a - NEXT in held[t])
    ensures SparesOthers(y, w.s.mem, w.s.mem[a := k], held, t)
    ensures OffLists(y, lists, a)
  {
    if a == y.load[t] {
      OwnLocalIsApart(y, w, t, lists, held);
    } else {
      HeldIsApart(y, w, t, lists, held, a - NEXT);
      HeldIsExclusive(y, w, lists, held, t, a - NEXT);
    }
    forall u, n | 0 <= u < |held| && u != t && n in held[u] ensures n + NEXT != a {
      HeldIsExclusive(y, w, lists, held, u, n);
    }
  }

  // The speculative store of a pop: the head into the thread's own local.
  lemma PopSpeculates(y: Layout, w: World, t: nat, lists: seq<seq<Addr>>, held: seq<seq<Addr>>)
    requires Content(y, w, lists, held) && t < |held| && CanStep(w.s.th[t]) && ThreadOk(w.s.th[t], w.s.nCpus)
    requires w.loc[t].pc == Popping && w.s.th[t].act.pc == At(8)
    ensures Content(y, w.(s := Instruction(w.s, t)), lists, held)
  {
    var (x, w') := (w.s.th[t], w.(s := Instruction(w.s, t)));
    assert LocalOk(y, x, w.loc[t], w.s.mem, t, w.s.nCpus, held[t]);
    OwnStoreSpares(y, w, t, lists, held, y.load[t], x.act.r.rbx);
    StoreKeepsChains(y, w.s.mem, w'.s.mem, lists, y.load[t]);
    SameContent(y, w, w', t, lists, held);
  }

  // A store to a head touches no cell of a thread.
  lemma HeadStoreSpares(y: Layout, w: World, t: nat, lists: seq<seq<Addr>>, held: seq<seq<Addr>>, c: nat, k: Word)
    requires Content(y, w, lists, held) && t < |held| && c < |lists|
    ensures var m' := w.s.mem[Head(y, c) := k];
            SparesOthers(y, w.s.mem, m', held, t) && Get(m', y.load[t]) == Get(w.s.mem, y.load[t])
  {
    forall u, n | 0 <= u < |held| && n in held[u] ensures n + NEXT != Head(y, c) {
      HeldIsExclusive(y, w, lists, held, u, n);
    }
  }

  // After a store k to the head of CPU c, where k leads to list q, CPU c has q and the others are as before.
  lemma HeadStoreKeepsChains(y: Layout, w: World, lists: seq<seq<Addr>>, held: seq<seq<Addr>>,
                             c: nat, k: Word, q: seq<Addr>)
    requires Content(y, w, lists, held) && c < |lists| && Chain(w.s.mem, k, q)
    requires forall n :: n in q ==> n in y.nodes
    ensures Lists(y, w.s.mem[Head(y, c) := k], lists[c := q])
  {
    var (m', lists') := (w.s.mem[Head(y, c) := k], lists[c := q]);
    forall c' | 0 <= c' < |lists'| ensures Chain(m', Get(m', Head(y, c')), lists'[c']) {
      ListNodes(y, w, lists, held, c');
      if c' == c {
        ChainFrame(w.s.mem, m', k, q);
      } else {
        ChainFrame(w.s.mem, m', Get(w.s.mem, Head(y, c')), lists[c']);
      }
    }
  }

  // The content after CPU c's list became q and thread t's hand h, by a store to the head.
  lemma HeadStoreContent(y: Layout, w: World, w': World, t: nat, lists: seq<seq<Addr>>, held: seq<seq<Addr>>,
                         c: nat, k: Word, q: seq<Addr>, h: seq<Addr>)
    requires Content(y, w, lists, held) && t < |held| && c < |lists|
    requires Chain(w.s.mem, k, q) && (forall n :: n in q ==> n in y.nodes)
    requires multiset(q) + multiset(h) == multiset(lists[c]) + multiset(held[t])
    requires w'.loc == w.loc && w'.s.mem == w.s.mem[Head(y, c) := k] && w'.s.nCpus == w.s.nCpus && |w'.s.th| == |w.s.th|
    requires forall u :: 0 <= u < |held| && u != t ==> w'.s.th[u] == w.s.th[u]
    requires LocalOk(y, w'.s.th[t], w'.loc[t], w'.s.mem, t, w'.s.nCpus, h)
    ensures Content(y, w', lists[c := q], held[t := h])
  {
    HeadStoreSpares(y, w, t, lists, held, c, k);
    HeadStoreKeepsChains(y, w, lists, held, c, k, q);
    Transfer(lists, held, c, t, q, h);
    HandsAfter(y, w, w', t, held, h);
  }

  // At its commit a pop has the first node in its local and the second in rbx.
  lemma PopFacts(y: Layout, w: World, t: nat, lists: seq<seq<Addr>>, held: seq<seq<Addr>>)
    requires Content(y, w, lists, held) && t < |held| && CanStep(w.s.th[t])
    requires ThreadOk(w.s.th[t], w.s.nCpus) && SThread(w.s.th[t], w.s.mem)
    requires w.loc[t].pc == Popping && w.s.th[t].act.pc == At(11)
    ensures var (x, m) := (w.s.th[t], w.s.mem);
            && 0 <= x.on < |lists| && lists[x.on] != [] && held[t] == []
            && Get(m, y.load[t]) == lists[x.on][0]
            && Chain(m, x.act.r.rbx, lists[x.on][1..])
            && Instruction(w.s, t).mem == m[Head(y, x.on) := x.act.r.rbx]
            && Instruction(w.s, t).th[t] == x.(act := x.act.(pc := Exit(Ok), commits := 1))
  {
    var x := w.s.th[t];
    assert LocalOk(y, x, w.loc[t], w.s.mem, t, w.s.nCpus, held[t]);
    assert Chain(w.s.mem, Get(w.s.mem, Head(y, x.on)), lists[x.on]);
  }

  // The popper's locals after its commit.
  lemma PopLocal(y: Layout, x: Thread, l: Local, m: Mem, c: int, k: Word, t: nat, n: nat, q: seq<Addr>)
    requires t < |y.load| && l.pc == Popping && LocalOk(y, x, l, m, t, n, []) && q != []
    requires Get(m, y.load[t]) == q[0] && y.load[t] != Head(y, c)
    ensures x.act.Busy? ==>
              LocalOk(y, x.(act := x.act.(pc := Exit(Ok), commits := 1)), l, m[Head(y, c) := k], t, n, [q[0]])
  {
  }

  lemma PopContent(y: Layout, w: World, t: nat, lists: seq<seq<Addr>>, held: seq<seq<Addr>>)
    requires Content(y, w, lists, held) && t < |held| && CanStep(w.s.th[t])
    requires ThreadOk(w.s.th[t], w.s.nCpus) && SThread(w.s.th[t], w.s.mem)
    requires w.loc[t].pc == Popping && w.s.th[t].act.pc == At(11)
    ensures var c := w.s.th[t].on;
            && 0 <= c < |lists| && lists[c] != []
            && Content(y, w.(s := Instruction(w.s, t)), lists[c := lists[c][1..]], held[t := [lists[c][0]]])
  {
    var (x, c) := (w.s.th[t], w.s.th[t].on);
    PopFacts(y, w, t, lists, held);
    ListNodes(y, w, lists, held, c);
    var (q, k) := (lists[c][1..], x.act.r.rbx);
    assert lists[c] == [lists[c][0]] + q;
    PopLocal(y, x, w.loc[t], w.s.mem, c, k, t, w.s.nCpus, lists[c]);
    HeadStoreContent(y, w, w.(s := Instruction(w.s, t)), t, lists, held, c, k, q, [lists[c][0]]);
  }

  /** The commit of a pop takes exactly the first node off the list of the CPU it runs on. */
  lemma PopCommits(y: Layout, w: World, t: nat, lists: seq<seq<Addr>>, held: seq<seq<Addr>>)
    requires Inv(y, w, lists, held) && t < |held| && CanStep(w.s.th[t])
    requires w.loc[t].pc == Popping && w.s.th[t].act.pc == At(11)
    ensures var c := w.s.th[t].on;
            && 0 <= c < |lists| && lists[c] != []
            && Inv(y, w.(s := Instruction(w.s, t)), lists[c := lists[c][1..]], held[t := [lists[c][0]]])
  {
    assert ThreadOk(w.s.th[t], w.s.nCpus) && SThread(w.s.th[t], w.s.mem);
    PopContent(y, w, t, lists, held);
    InstructionIsQuiet(y, w, t, lists, held);
    StepKeepsInv(w.s, User(t));
  }

  // At its commit a push has its node linked in front of the current list.
  lemma PushFacts(y: Layout, w: World, t: nat, lists: seq<seq<Addr>>, held: seq<seq<Addr>>)
    requires Content(y, w, lists, held) && t < |held| && CanStep(w.s.th[t])
    requires ThreadOk(w.s.th[t], w.s.nCpus) && SThread(w.s.th[t], w.s.mem)
    requires w.loc[t].pc == Pushing && w.s.th[t].act.pc == At(6)
    ensures var (x, m, n) := (w.s.th[t], w.s.mem, w.loc[t].node);
            && 0 <= x.on < |lists| && held[t] == [n] && n in y.nodes
            && Chain(m, n, [n] + lists[x.on])
            && Instruction(w.s, t).mem == m[Head(y, x.on) := n]
            && Instruction(w.s, t).th[t] == x.(act := x.act.(pc := Exit(Ok), commits := 1))
  {
    var (x, n) := (w.s.th[t], w.loc[t].node);
    assert LocalOk(y, x, w.loc[t], w.s.mem, t, w.s.nCpus, held[t]);
    assert Chain(w.s.mem, Get(w.s.mem, Head(y, x.on)), lists[x.on]);
    HeldIsApart(y, w, t, lists, held, n);
    assert ([n] + lists[x.on])[1..] == lists[x.on];
  }

  // The pusher's locals after its commit.
  lemma PushLocal(y: Layout, x: Thread, l: Local, m: Mem, m': Mem, t: nat, n: nat, h: seq<Addr>)
    requires t < |y.load| && l.pc == Pushing && LocalOk(y, x, l, m, t, n, h)
    ensures x.act.Busy? ==> LocalOk(y, x.(act := x.act.(pc := Exit(Ok), commits := 1)), l, m', t, n, [])
  {
  }

  lemma PushContent(y: Layout, w: World, t: nat, lists: seq<seq<Addr>>, held: seq<seq<Addr>>)
    requires Content(y, w, lists, held) && t < |held| && CanStep(w.s.th[t])
    requires ThreadOk(w.s.th[t], w.s.nCpus) && SThread(w.s.th[t], w.s.mem)
    requires w.loc[t].pc == Pushing && w.s.th[t].act.pc == At(6)
    ensures var (c, n) := (w.s.th[t].on, w.loc[t].node);
            && 0 <= c < |lists| && held[t] == [n]
            && Content(y, w.(s := Instruction(w.s, t)), lists[c := [n] + lists[c]], held[t := []])
  {
    var (x, c, n) := (w.s.th[t], w.s.th[t].on, w.loc[t].node);
    PushFacts(y, w, t, lists, held);
    ListNodes(y, w, lists, held, c);
    PushLocal(y, x, w.loc[t], w.s.mem, w.s.mem[Head(y, c) := n], t, w.s.nCpus, held[t]);
    HeadStoreContent(y, w, w.(s := Instruction(w.s, t)), t, lists, held, c, n, [n] + lists[c], []);
  }

  /** The commit of a push puts the held node in front of the list of the CPU it
      runs on, whatever happened to that list since the head was read. */
  lemma PushCommits(y: Layout, w: World, t: nat, lists: seq<seq<Addr>>, held: seq<seq<Addr>>)
    requires Inv(y, w, lists, held) && t < |held| && CanStep(w.s.th[t])
    requires w.loc[t].pc == Pushing && w.s.th[t].act.pc == At(6)
    ensures var (c, n) := (w.s.th[t].on, w.loc[t].node);
            && 0 <= c < |lists| && held[t] == [n]
            && Inv(y, w.(s := Instruction(w.s, t)), lists[c := [n] + lists[c]], held[t := []])
  {
    assert ThreadOk(w.s.th[t], w.s.nCpus) && SThread(w.s.th[t], w.s.mem);
    PushContent(y, w, t, lists, held);
    InstructionIsQuiet(y, w, t, lists, held);
    StepKeepsInv(w.s, User(t));
  }

  // Before its speculative store and its commit a section stores nothing.
  lemma InstructionIsSilent(y: Layout, w: World, t: nat, held: seq<Addr>)
    requires t < |w.loc| == |w.s.th| && t < |y.load| && CanStep(w.s.th[t]) && ThreadOk(w.s.th[t], w.s.nCpus)
    requires LocalOk(y, w.s.th[t], w.loc[t], w.s.mem, t, w.s.nCpus, held)
    requires w.loc[t].pc == Popping ==> w.s.th[t].act.pc.i !in {8, 11}
    requires w.loc[t].pc == Pushing ==> w.s.th[t].act.pc.i != 6
    ensures Instruction(w.s, t).mem == w.s.mem && Instruction(w.s, t).th[t].act.commits == w.s.th[t].act.commits
  {
  }

  /** What an instruction of thread t does to the lists and the hands: nothing before the
      commit; a commit moves one node between its hand and the front of the CPU it runs on. */
  ghost predicate After(w: World, t: nat, lists: seq<seq<Addr>>, held: seq<seq<Addr>>,
                        lists': seq<seq<Addr>>, held': seq<seq<Addr>>)
    requires t < |w.s.th| && t < |w.loc| && t < |held| && w.s.th[t].act.Busy?
  {
    var (c, a) := (w.s.th[t].on, w.s.th[t].act);
    if a.pc != At(Len(a.call) - 1) then lists' == lists && held' == held
    else
      && 0 <= c < |lists|
      && if w.loc[t].pc == Pushing then lists' == lists[c := held[t] + lists[c]] && held' == held[t := []]
         else lists[c] != [] && lists' == lists[c := lists[c][1..]] && held' == held[t := [lists[c][0]]]
  }

  lemma InstructionMove(y: Layout, w: World, t: nat, lists: seq<seq<Addr>>, held: seq<seq<Addr>>)
      returns (lists': seq<seq<Addr>>, held': seq<seq<Addr>>)
    requires Content(y, w, lists, held) && t < |held| && CanStep(w.s.th[t])
    requires ThreadOk(w.s.th[t], w.s.nCpus) && SThread(w.s.th[t], w.s.mem)
    ensures Content(y, w.(s := Instruction(w.s, t)), lists', held') && After(w, t, lists, held, lists', held')
  {
    lists', held' := lists, held;
    var (x, l) := (w.s.th[t], w.loc[t]);
    assert LocalOk(y, x, l, w.s.mem, t, w.s.nCpus, held[t]);
    var i := x.act.pc.i;
    if l.pc == Popping && i == 8 {
      PopSpeculates(y, w, t, lists, held);
    } else if l.pc == Popping && i == 11 {
      PopContent(y, w, t, lists, held);
      lists', held' := lists[x.on := lists[x.on][1..]], held[t := [lists[x.on][0]]];
    } else if l.pc == Pushing && i == 6 {
      PushContent(y, w, t, lists, held);
      lists', held' := lists[x.on := [l.node] + lists[x.on]], held[t := []];
    } else {
      InstructionIsSilent(y, w, t, held[t]);
      SilentInstruction(y, w, t, lists, held);
    }
  }

  // The locals behind the link.
  lemma LinkLocal(y: Layout, x: Thread, l: Local, m: Mem, t: nat, nCpus: nat, h: seq<Addr>)
    requires t < |y.load| && LocalOk(y, x, l, m, t, nCpus, h) && l.pc == PushRead
    ensures h == [l.node] && LocalOk(y, x, l.(pc := PushLinked), m[l.node + NEXT := l.want], t, nCpus, h)
  {
  }

  /** Linking a held node touches a cell no list, no section and no other thread uses. */
  lemma LinkMove(y: Layout, w: World, v: Move, lists: seq<seq<Addr>>, held: seq<seq<Addr>>)
    requires Content(y, w, lists, held) && CanMove(y, w, v) && v.C? && w.loc[v.t].pc == PushRead
    ensures Content(y, Do(y, w, v), lists, held)
  {
    hide Sum;
    var (t, l, w') := (v.t, w.loc[v.t], Do(y, w, v));
    LinkLocal(y, w.s.th[t], l, w.s.mem, t, w.s.nCpus, held[t]);
    OwnStoreSpares(y, w, t, lists, held, l.node + NEXT, l.want);
    StoreKeepsChains(y, w.s.mem, w'.s.mem, lists, l.node + NEXT);
    SameContent(y, w, w', t, lists, held);
  }

  // Leaving a helper: a pop that returned 0 hands over the node its commit took.
  lemma ReturnLocal(y: Layout, w: World, v: Move, lists: seq<seq<Addr>>, held: seq<seq<Addr>>)
    requires Content(y, w, lists, held) && CanMove(y, w, v) && v.C? && w.loc[v.t].pc in {Popping, Pushing}
    requires ThreadOk(w.s.th[v.t], w.s.nCpus) && SThread(w.s.th[v.t], w.s.mem)
    ensures var (t, w') := (v.t, Do(y, w, v));
            w'.s.mem == w.s.mem && LocalOk(y, w'.s.th[t], w'.loc[t], w.s.mem, t, w.s.nCpus, held[t])
  {
    assert LocalOk(y, w.s.th[v.t], w.loc[v.t], w.s.mem, v.t, w.s.nCpus, held[v.t]);
  }

  // Every other statement reads, or enters or leaves a helper.
  lemma StatementLocal(y: Layout, w: World, v: Move, lists: seq<seq<Addr>>, held: seq<seq<Addr>>)
    requires Content(y, w, lists, held) && CanMove(y, w, v) && v.C? && w.loc[v.t].pc != PushRead
    requires ThreadOk(w.s.th[v.t], w.s.nCpus) && SThread(w.s.th[v.t], w.s.mem)
    ensures var (t, w') := (v.t, Do(y, w, v));
            w'.s.mem == w.s.mem && LocalOk(y, w'.s.th[t], w'.loc[t], w.s.mem, t, w.s.nCpus, held[t])
  {
    if w.loc[v.t].pc in {Popping, Pushing} {
      ReturnLocal(y, w, v, lists, held);
    } else {
      assert LocalOk(y, w.s.th[v.t], w.loc[v.t], w.s.mem, v.t, w.s.nCpus, held[v.t]);
    }
  }

  // A statement of thread t leaves the others alone.
  lemma StatementSparesOthers(y: Layout, w: World, v: Move, held: seq<seq<Addr>>)
    requires CanMove(y, w, v) && v.C? && w.loc[v.t].pc != PushRead && |y.load| == |held| && |w.s.th| == |w.loc|
    ensures var w' := Do(y, w, v);
            OthersStay(y, w, w', held, v.t) && w'.s.nCpus == w.s.nCpus && |w'.s.th| == |w'.loc| == |w.loc|
  {
  }

  lemma OtherMove(y: Layout, w: World, v: Move, lists: seq<seq<Addr>>, held: seq<seq<Addr>>)
    requires Content(y, w, lists, held) && CanMove(y, w, v) && v.C? && w.loc[v.t].pc != PushRead
    requires ThreadOk(w.s.th[v.t], w.s.nCpus) && SThread(w.s.th[v.t], w.s.mem)
    ensures Content(y, Do(y, w, v), lists, held)
  {
    assert v.t < |held| == |y.load| == |w.s.th| == |w.loc| && Lists(y, w.s.mem, lists);
    hide *;
    StatementLocal(y, w, v, lists, held);
    StatementSparesOthers(y, w, v, held);
    SameContent(y, w, Do(y, w, v), v.t, lists, held);
  }

  lemma StatementMove(y: Layout, w: World, v: Move, lists: seq<seq<Addr>>, held: seq<seq<Addr>>)
    requires Content(y, w, lists, held) && CanMove(y, w, v) && v.C?
    requires ThreadOk(w.s.th[v.t], w.s.nCpus) && SThread(w.s.th[v.t], w.s.mem)
    ensures Content(y, Do(y, w, v), lists, held)
  {
    hide Content, Do;
    if w.loc[v.t].pc == PushRead {
      LinkMove(y, w, v, lists, held);
    } else {
      OtherMove(y, w, v, lists, held);
    }
  }

  lemma MoveKeepsContent(y: Layout, w: World, v: Move, lists: seq<seq<Addr>>, held: seq<seq<Addr>>)
      returns (lists': seq<seq<Addr>>, held': seq<seq<Addr>>)
    requires Inv(y, w, lists, held) && CanMove(y, w, v)
    ensures Content(y, Do(y, w, v), lists', held')
    ensures if v.I? then v.t < |held| && After(w, v.t, lists, held, lists', held') else lists' == lists && held' == held
  {
    lists', held' := lists, held;
    match v {
      case K(e) => KernelMove(y, w, e, lists, held);
      case I(t) =>
        assert ThreadOk(w.s.th[t], w.s.nCpus) && SThread(w.s.th[t], w.s.mem);
        lists', held' := InstructionMove(y, w, t, lists, held);
      case C(t, _, _) =>
        assert ThreadOk(w.s.th[t], w.s.nCpus) && SThread(w.s.th[t], w.s.mem);
        StatementMove(y, w, v, lists, held);
    }
  }

  /** Every move keeps the invariant. */
  lemma MoveKeepsInv(y: Layout, w: World, v: Move, lists: seq<seq<Addr>>, held: seq<seq<Addr>>)
      returns (lists': seq<seq<Addr>>, held': seq<seq<Addr>>)
    requires Inv(y, w, lists, held) && CanMove(y, w, v)
    ensures Inv(y, Do(y, w, v), lists', held')
    ensures if v.I? then v.t < |held| && After(w, v.t, lists, held, lists', held') else lists' == lists && held' == held
  {
    lists', held' := MoveKeepsContent(y, w, v, lists, held);
    MoveIsQuiet(y, w, v, lists, held);
    StepKeepsInv(w.s, StepOf(y, w, v));
  }

  /** A running thread can always go on: no helper is stuck, no bug label stops it. */
  lemma NeverStuck(y: Layout, w: World, t: nat, site: nat, junk: Regs, lists: seq<seq<Addr>>, held: seq<seq<Addr>>)
    requires Inv(y, w, lists, held) && t < |held| && w.s.th[t].on >= 0
    ensures CanMove(y, w, I(t)) || CanMove(y, w, C(t, site, junk))
  {
    hide SInv, Chain, LayoutOk;
    assert LocalOk(y, w.s.th[t], w.loc[t], w.s.mem, t, w.s.nCpus, held[t]);
    assert ThreadOk(w.s.th[t], w.s.nCpus);
  }

  // ---------------------------------------------------------------- whole runs

  ghost predicate Initial(y: Layout, w: World, lists: seq<seq<Addr>>) {
    && KInv(w.s) && LayoutOk(y, w.s.nCpus)
    && |w.s.th| == |w.loc| == |y.load| && |lists| == w.s.nCpus
    && (forall t :: 0 <= t < |w.loc| ==> w.s.th[t].act.Idle? && w.loc[t].pc == Ready && w.loc[t].cpu == 0)
    && Lists(y, w.s.mem, lists) && Sum(lists) == multiset(y.nodes)
  }

  ghost predicate IsRun(y: Layout, ws: seq<World>, vs: seq<Move>) {
    && |ws| == |vs| + 1
    && (exists lists :: Initial(y, ws[0], lists))
    && forall k :: 0 <= k < |vs| ==> CanMove(y, ws[k], vs[k]) && ws[k + 1] == Do(y, ws[k], vs[k])
  }

  // The machine steps behind a run of this system.
  ghost function Steps(y: Layout, ws: seq<World>, vs: seq<Move>): seq<Step>
    requires IsRun(y, ws, vs)
  {
    seq(|vs|, k requires 0 <= k < |vs| => StepOf(y, ws[k], vs[k]))
  }

  /** The nodes thread t has popped and not pushed back. */
  ghost function HeldBy(y: Layout, w: World, t: nat): seq<Addr>
    requires t < |w.loc| && t < |w.s.th| && t < |y.load|
    requires w.loc[t].pc in {Popping, Pushing} ==> w.s.th[t].act.Busy?
  {
    match w.loc[t].pc
    case Ready => []
    case Retry => []
    case PopCpu => []
    case Popping => if w.s.th[t].act.commits == 1 then [Get(w.s.mem, y.load[t])] else []
    case Pushing => if w.s.th[t].act.commits == 1 then [] else [w.loc[t].node]
    case _ => [w.loc[t].node]
  }

  /** Each CPU's list is NULL-terminated without repetition, the lists are disjoint,
      and lists and hands together have every node exactly once. */
  ghost predicate Safe(y: Layout, w: World, lists: seq<seq<Addr>>, held: seq<seq<Addr>>) {
    && |lists| == w.s.nCpus && |held| == |w.s.th| == |w.loc| == |y.load|
    && (forall c :: 0 <= c < |lists| ==> Chain(w.s.mem, Get(w.s.mem, Head(y, c)), lists[c]) && Distinct(lists[c]))
    && (forall c, d, n :: 0 <= c < |lists| && 0 <= d < |lists| && c != d && n in lists[c] ==> n !in lists[d])
    && (forall t :: 0 <= t < |held| ==>
          && (w.loc[t].pc in {Popping, Pushing} ==> w.s.th[t].act.Busy?)
          && held[t] == HeldBy(y, w, t))
    && Sum(lists) + Sum(held) == multiset(y.nodes)
  }

  lemma {:induction false} RunKeepsInv(y: Layout, ws: seq<World>, vs: seq<Move>, k: nat)
      returns (lists: seq<seq<Addr>>, held: seq<seq<Addr>>)
    requires IsRun(y, ws, vs) && k < |ws|
    ensures Inv(y, ws[k], lists, held)
  {
    if k == 0 {
      lists :| Initial(y, ws[0], lists);
      held := seq(|ws[0].loc|, _ => []);
      SumOfEmpty(held);
    } else {
      lists, held := RunKeepsInv(y, ws, vs, k - 1);
      lists, held := MoveKeepsInv(y, ws[k - 1], vs[k - 1], lists, held);
    }
  }

  /** In every state of every run the lists are well formed and no node is lost,
      duplicated or on two lists. */
  lemma ListIsSafe(y: Layout, ws: seq<World>, vs: seq<Move>, k: nat)
    requires IsRun(y, ws, vs) && k < |ws|
    ensures exists lists, held :: Safe(y, ws[k], lists, held)
  {
    var lists, held := RunKeepsInv(y, ws, vs, k);
    SharesAreDisjoint(lists, held, y.nodes);
    forall t | 0 <= t < |held|
      ensures (ws[k].loc[t].pc in {Popping, Pushing} ==> ws[k].s.th[t].act.Busy?) && held[t] == HeldBy(y, ws[k], t)
    {
      assert LocalOk(y, ws[k].s.th[t], ws[k].loc[t], ws[k].s.mem, t, ws[k].s.nCpus, held[t]);
    }
    assert Safe(y, ws[k], lists, held);
  }

  /** When every thread is between iterations, the lists hold all the nodes again. */
  lemma AllAccountedFor(y: Layout, ws: seq<World>, vs: seq<Move>, k: nat)
    requires IsRun(y, ws, vs) && k < |ws|
    requires forall t :: 0 <= t < |ws[k].loc| ==> ws[k].loc[t].pc == Ready
    ensures exists lists ::
              |lists| == ws[k].s.nCpus && Sum(lists) == multiset(y.nodes) && Lists(y, ws[k].s.mem, lists)
  {
    var lists, held := RunKeepsInv(y, ws, vs, k);
    forall t | 0 <= t < |held| ensures held[t] == [] {
      assert LocalOk(y, ws[k].s.th[t], ws[k].loc[t], ws[k].s.mem, t, ws[k].s.nCpus, held[t]);
    }
    SumOfEmpty(held);
    assert Sum(lists) == multiset(y.nodes);
  }

  /** The bug labels of RSEQ_COMPARE_TWICE are never reached. */
  lemma ComparesTwiceAgree(y: Layout, ws: seq<World>, vs: seq<Move>, k: nat, t: nat)
    requires IsRun(y, ws, vs) && k < |ws| && t < |ws[k].s.th|
    ensures var a := ws[k].s.th[t].act; a.Busy? && !a.pc.At? ==> a.pc.l in {Ok, Differs, Abort}
  {
    var lists, held := RunKeepsInv(y, ws, vs, k);
    assert SThread(ws[k].s.th[t], ws[k].s.mem);
  }

  /** Every run of this system is an undisturbed run of the machine, so its helper calls are
      atomic. */
  lemma RunIsQuiet(y: Layout, ws: seq<World>, vs: seq<Move>)
    requires IsRun(y, ws, vs)
    ensures Atomicity.IsRun(States(ws), Steps(y, ws, vs)) && QuietRun(States(ws), Steps(y, ws, vs))
  {
    var (ss, ps) := (States(ws), Steps(y, ws, vs));
    forall k | 0 <= k < |ps| ensures Quiet(ss[k], ps[k]) {
      var lists, held := RunKeepsInv(y, ws, vs, k);
      MoveIsQuiet(y, ws[k], vs[k], lists, held);
    }
  }

  /** Every push and pop that returns was atomic. */
  lemma CallsAreAtomic(y: Layout, ws: seq<World>, vs: seq<Move>, k: nat) returns (i: nat)
    requires IsRun(y, ws, vs) && k < |vs| && Steps(y, ws, vs)[k].Return?
    ensures AtomicCall(States(ws), Steps(y, ws, vs), Steps(y, ws, vs)[k].t, i, k)
  {
    RunIsQuiet(y, ws, vs);
    i := Atomicity.CallsAreAtomic(States(ws), Steps(y, ws, vs), k);
  }
}
