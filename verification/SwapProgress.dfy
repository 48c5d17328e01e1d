/**
 An increment of a worker that no kernel event and no barrier hits: however the manager and the
 others move in between, it succeeds after boundedly many moves of its own.
 */
module SwapProgress {
  import opened Machine
  import opened Sections
  import opened MembarrierSwap
  import opened Returns

  // The move neither stops nor hits thread t, by the kernel or by the barrier of the manager.
  ghost predicate Leaves(w: World, v: Move, t: nat) {
    && (v.K? && t < |w.s.th| ==> Passes(w.s, v.e, t))
    && (v.M? && t < |w.s.th| && w.mgr.pc == BarrierA ==> w.s.th[t].on != w.mgr.cpuA)
    && (v.M? && t < |w.s.th| && w.mgr.pc == BarrierB ==> w.s.th[t].on != w.mgr.cpuB)
  }

  // The move is one of thread t.
  predicate Own(v: Move, t: nat) { (v.I? || v.C?) && v.t == t }

  /** Thread t, on CPU c, is about to increment or incrementing the node of that CPU, having completed n
      increments, or has completed one more. */
  ghost predicate Increments(w: World, t: nat, c: nat, n: nat) {
    && t < |w.loc| == |w.s.th| && w.s.th[t].reg && w.s.th[t].on == c && w.s.th[t].cpuId == c
    && var (x, l) := (w.s.th[t], w.loc[t]);
       match l.pc
       case Waiting => false
       case Ready => l.done == n || l.done == n + 1
       case Retry => false
       case GotCpu => l.done == n && l.cpu == c
       case Incrementing =>
         && l.done == n && x.act.Busy? && x.act.cpu == c && x.act.call.AddLoadLoadAddStore?
         && (!x.act.pc.At? ==> x.act.pc.l == Ok)
  }

  lemma MoveSparesThread(y: Layout, w: World, v: Move, t: nat)
    requires CanMove(y, w, v) && t < |w.s.th| == |w.loc| && !Own(v, t) && Leaves(w, v, t)
    ensures var w' := Do(y, w, v);
            |w'.s.th| == |w'.loc| == |w.loc| && w'.s.th[t] == w.s.th[t] && w'.loc[t] == w.loc[t]
  {
    if v.K? { KernelSpares(w.s, v.e, t); }
  }

  lemma OwnInstruction(y: Layout, w: World, t: nat, c: nat, n: nat)
    requires Inv(y, w) && Increments(w, t, c, n) && CanStep(w.s.th[t])
    ensures var (x, x') := (w.s.th[t], Instruction(w.s, t).th[t]);
            && w.loc[t].pc == Incrementing && Rank(x'.act) < Rank(x.act)
            && Increments(w.(s := Instruction(w.s, t)), t, c, n)
  {
    var x := w.s.th[t];
    assert ThreadOk(x, w.s.nCpus) && WorkerOk(y, x, w.loc[t], w.s.mem);
    if x.act.pc.At? { RankDecreases(x.act, w.s.twice, x.cpuId, w.s.mem); }
  }

  // Instructions of the helper.
  const BOUND := 10

  /** Moves an increment has left at most. */
  ghost function IncRank(w: World, t: nat, n: nat): nat
    requires t < |w.loc| && t < |w.s.th|
  {
    match w.loc[t].pc
    case Ready => if w.loc[t].done == n then 3 + BOUND else 0
    case GotCpu => 2 + BOUND
    case Incrementing => 1 + Rank(w.s.th[t].act)
    case _ => 0
  }

  // One more increment is completed.
  ghost predicate Done(w: World, t: nat, n: nat) { t < |w.loc| && w.loc[t].pc == Ready && w.loc[t].done == n + 1 }

  lemma OwnStatement(y: Layout, w: World, v: Move, t: nat, c: nat, n: nat)
    requires v.C? && v.t == t && CanMove(y, w, v) && Increments(w, t, c, n) && !Done(w, t, n)
    ensures Increments(Do(y, w, v), t, c, n) && IncRank(Do(y, w, v), t, n) < IncRank(w, t, n)
  {
    if w.loc[t].pc == GotCpu { EnterRank(IncCall(y, w.loc[t].cpu), w.loc[t].cpu, v.site, v.junk); }
  }

  /** Every move that does not stop or hit thread t keeps its increment on course, and its own moves bring it
      nearer to its end. */
  lemma MoveKeepsIncrement(y: Layout, w: World, v: Move, t: nat, c: nat, n: nat)
    requires Inv(y, w) && CanMove(y, w, v) && Increments(w, t, c, n) && Leaves(w, v, t)
    requires Own(v, t) ==> !Done(w, t, n)
    ensures Increments(Do(y, w, v), t, c, n)
    ensures IncRank(Do(y, w, v), t, n) + (if Own(v, t) then 1 else 0) <= IncRank(w, t, n)
  {
    hide Content;
    if !Own(v, t) {
      MoveSparesThread(y, w, v, t);
    } else if v.I? {
      OwnInstruction(y, w, t, c, n);
    } else {
      OwnStatement(y, w, v, t, c, n);
    }
  }

  // Moves of thread t from the i-th on, before the k-th.
  ghost function OwnMoves(vs: seq<Move>, t: nat, i: nat, k: nat): nat
    requires i <= k <= |vs|
  {
    if k == i then 0 else OwnMoves(vs, t, i, k - 1) + if Own(vs[k - 1], t) then 1 else 0
  }

  // From state i to state k nothing stops or hits thread t, which stops once it is done.
  ghost predicate IncRuns(ws: seq<World>, vs: seq<Move>, t: nat, i: nat, k: nat, n: nat) {
    && i <= k < |ws| && |ws| == |vs| + 1
    && forall j :: i <= j < k ==> Leaves(ws[j], vs[j], t) && (Own(vs[j], t) ==> !Done(ws[j], t, n))
  }

  /** In every run, when a registered worker is between two iterations, and no kernel event and no barrier
      stops or hits it, it completes one more increment after at most 3 + BOUND moves of its own. */
  lemma {:induction false} UndisturbedIncrement(y: Layout, ws: seq<World>, vs: seq<Move>, t: nat, i: nat, k: nat)
    requires IsRun(y, ws, vs) && i < |ws| && t < |ws[i].loc| && t < |ws[i].s.th| && ws[i].loc[t].pc == Ready
    requires ws[i].s.th[t].reg && ws[i].s.th[t].on >= 0 && IncRuns(ws, vs, t, i, k, ws[i].loc[t].done)
    ensures var (c, n) := (ws[i].s.th[t].on, ws[i].loc[t].done);
            && Increments(ws[k], t, c, n) && OwnMoves(vs, t, i, k) + IncRank(ws[k], t, n) <= 3 + BOUND
            && (OwnMoves(vs, t, i, k) == 3 + BOUND ==> Done(ws[k], t, n))
    decreases k
  {
    hide Inv, Do, CanMove, Initial;
    var (c, n) := (ws[i].s.th[t].on, ws[i].loc[t].done);
    if k == i {
      assert Increments(ws[i], t, c, n) by { IncrementStarts(y, ws, vs, i, t); }
    } else {
      UndisturbedIncrement(y, ws, vs, t, i, k - 1);
      assert CanMove(y, ws[k - 1], vs[k - 1]) && ws[k] == Do(y, ws[k - 1], vs[k - 1]);
      RunKeepsInv(y, ws, vs, k - 1);
      MoveKeepsIncrement(y, ws[k - 1], vs[k - 1], t, c, n);
    }
  }

  lemma IncrementStarts(y: Layout, ws: seq<World>, vs: seq<Move>, i: nat, t: nat)
    requires IsRun(y, ws, vs) && i < |ws| && t < |ws[i].loc| && t < |ws[i].s.th| && ws[i].loc[t].pc == Ready
    requires ws[i].s.th[t].reg && ws[i].s.th[t].on >= 0
    ensures Increments(ws[i], t, ws[i].s.th[t].on, ws[i].loc[t].done)
  {
    RunKeepsInv(y, ws, vs, i);
    assert ThreadOk(ws[i].s.th[t], ws[i].s.nCpus);
  }

  /** A call that failed is not repeated for the CPU it was made for: the next statement asks for the CPU the
      thread is on by then. */
  lemma StartsOver(y: Layout, w: World, v: Move, u: Move)
    requires Inv(y, w) && CanMove(y, w, v) && v.C? && w.loc[v.t].pc == Incrementing
    requires ReturnValue(w.s.th[v.t].act.pc.l) != 0
    requires CanMove(y, Do(y, w, v), u) && u.C? && u.t == v.t && w.s.th[v.t].reg
    ensures Do(y, w, v).loc[v.t].pc == Retry
    ensures Do(y, Do(y, w, v), u).loc[v.t].cpu == w.s.th[v.t].on
  {
    assert ThreadOk(w.s.th[v.t], w.s.nCpus);
  }

  /** A running worker and the manager always have a next step. */
  lemma NeverStuck(y: Layout, ws: seq<World>, vs: seq<Move>, k: nat, t: nat, site: nat, junk: Regs, c: int)
    requires IsRun(y, ws, vs) && k < |ws| && 0 <= c < |y.nodeA|
    requires t < |ws[k].s.th| && ws[k].s.th[t].on >= 0
    ensures CanMove(y, ws[k], M(c)) && (CanMove(y, ws[k], I(t)) || CanMove(y, ws[k], C(t, site, junk)))
  {
    RunKeepsInv(y, ws, vs, k);
    assert ThreadOk(ws[k].s.th[t], ws[k].s.nCpus) && WorkerOk(y, ws[k].s.th[t], ws[k].loc[t], ws[k].s.mem);
    hide Inv, Content, KInv, IsRun;
  }

  // ---------------------------------------------------------------- the manager

  // The statements of one round of the manager.
  const ROUND := [PickA, CheckB, SwapToB, BarrierA, NoteA, PickB, CheckA, SwapToA, BarrierB, NoteB]

  ghost function ManagerMoves(vs: seq<Move>, k: nat): nat
    requires k <= |vs|
  {
    if k == 0 then 0 else ManagerMoves(vs, k - 1) + if vs[k - 1].M? then 1 else 0
  }

  // Where the manager is after n statements, and the list that is published then.
  ghost function Stage(n: nat): ManagerPc { if n == 0 then Publish else ROUND[(n - 1) % 10] }

  ghost function Published(y: Layout, n: nat): Addr {
    if n == 0 then 0 else if 3 <= (n - 1) % 10 < 8 then y.b else y.a
  }

  // A comparison that never fails never holds the manager up.
  lemma ManagerAdvances(y: Layout, w: World, c: int, n: nat)
    requires Inv(y, w) && CanMove(y, w, M(c)) && w.mgr.pc == Stage(n)
    ensures NextManager(y, w, c).pc == Stage(n + 1)
  {
    hide KInv, Workers, Sums, HeadsOk, LayoutOk, Flushed;
    assert n > 0 ==> n % 10 == if (n - 1) % 10 == 9 then 0 else (n - 1) % 10 + 1;
  }

  // Nobody else moves the manager.
  lemma MoveManages(y: Layout, w: World, v: Move, n: nat)
    requires Inv(y, w) && CanMove(y, w, v) && w.mgr.pc == Stage(n)
    ensures Do(y, w, v).mgr.pc == Stage(n + if v.M? then 1 else 0)
  {
    hide Inv, Stage, NextManager, ManagerState, Kernel, Instruction, NextState, NextWorker;
    if v.M? { ManagerAdvances(y, w, v.c, n); }
  }

  lemma StageStarts(y: Layout, w: World)
    requires Initial(y, w)
    ensures w.mgr.pc == Stage(0)
  {
  }

  lemma StagePublishes(y: Layout, w: World, n: nat)
    requires Inv(y, w) && w.mgr.pc == Stage(n)
    ensures Get(w.s.mem, y.ptr) == Published(y, n)
  {
    hide KInv, Workers, Sums, HeadsOk, LayoutOk, Flushed;
  }

  /** In every run the manager goes round and round: ten statements of its own swap to the second list,
      flush, note and compare, and back, whatever the workers do. */
  lemma {:induction false} ManagerGoesRound(y: Layout, ws: seq<World>, vs: seq<Move>, k: nat)
    requires IsRun(y, ws, vs) && k < |ws|
    ensures ws[k].mgr.pc == Stage(ManagerMoves(vs, k))
    ensures Get(ws[k].s.mem, y.ptr) == Published(y, ManagerMoves(vs, k))
    decreases k
  {
    hide Inv, Do, CanMove, Stage, Published;
    if k == 0 { StageStarts(y, ws[0]); }
    if k > 0 {
      ManagerGoesRound(y, ws, vs, k - 1);
      RunKeepsInv(y, ws, vs, k - 1);
      assert CanMove(y, ws[k - 1], vs[k - 1]) && ws[k] == Do(y, ws[k - 1], vs[k - 1]);
      MoveManages(y, ws[k - 1], vs[k - 1], ManagerMoves(vs, k - 1));
    }
    assert Inv(y, ws[k]) by { RunKeepsInv(y, ws, vs, k); }
    StagePublishes(y, ws[k], ManagerMoves(vs, k));
  }

  /** A waiting worker begins with its first move after the first list is published, and not before. */
  lemma BeginsWhenPublished(y: Layout, ws: seq<World>, vs: seq<Move>, k: nat)
    requires IsRun(y, ws, vs) && k < |vs| && vs[k].C? && vs[k].t < |ws[k].loc| && ws[k].loc[vs[k].t].pc == Waiting
    ensures vs[k].t < |ws[k + 1].loc|
    ensures ws[k + 1].loc[vs[k].t].pc == if ManagerMoves(vs, k) == 0 then Waiting else Ready
  {
    ManagerGoesRound(y, ws, vs, k);
    RunKeepsInv(y, ws, vs, k);
    hide KInv, Workers, Sums, HeadsOk, ManagerInv;
  }
}
