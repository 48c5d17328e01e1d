/**
 A lock attempt on a free lock, and an add, that no kernel event hits: however the other threads
 move in between, they succeed after boundedly many moves of their own.
 */
module CounterProgress {
  import opened Machine
  import opened Sections
  import opened Atomicity
  import opened Conservation
  import opened PercpuCounter
  import opened Returns

  // The move is no kernel event that stops or hits thread t.
  ghost predicate Leaves(w: World, v: Move, t: nat) {
    v.K? && t < |w.s.th| ==> Passes(w.s, v.e, t)
  }

  // The move is one of thread t.
  predicate Own(v: Move, t: nat) { !v.K? && v.t == t }

  /** Thread t, on CPU c, is taking the free lock of that CPU, or has it; or it is adding to that CPU's
      counter, or has done so, with n adds completed before. */
  ghost predicate Works(w: World, t: nat, c: nat, n: nat, who: seq<int>) {
    && t < |w.loc| == |w.s.th| && c < |who| && w.s.th[t].reg && w.s.th[t].on == c
    && var (x, l) := (w.s.th[t], w.loc[t]);
       && (l.pc !in {Spin, Add, Ready} ==> l.cpu == c)
       && match l.pc
          case Spin => who[c] == -1
          case SpinCpu => who[c] == -1
          case Spinning => x.act.Busy? && if x.act.pc.At? then who[c] == -1 else x.act.pc.l == Ok && who[c] == t
          case Locked => who[c] == t
          case Add => l.adds == n
          case AddCpu => l.adds == n
          case Adding => l.adds == n && x.act.Busy? && (!x.act.pc.At? ==> x.act.pc.l == Ok)
          case Ready => l.adds == n + 1
          case _ => false
  }

  lemma StepSparesThread(base: Addr, w: World, v: Move, t: nat)
    requires CanMove(base, w, v) && t < |w.s.th| == |w.loc| && !Own(v, t) && Leaves(w, v, t)
    ensures var w' := Do(base, w, v);
            |w'.s.th| == |w'.loc| == |w.loc| && w'.s.th[t] == w.s.th[t] && w'.loc[t] == w.loc[t]
  {
    if v.K? { KernelSpares(w.s, v.e, t); }
  }

  // Another thread runs on another CPU: it cannot take this lock, and frees only its own.
  lemma OtherSpares(w: World, v: Move, t: nat, who: seq<int>, who': seq<int>)
    requires KInv(w.s) && t < |w.s.th| == |w.loc| && 0 <= w.s.th[t].on < |who| && !Own(v, t)
    requires v.K? || (v.t < |w.loc| && w.s.th[v.t].on >= 0 && (v.I? ==> w.s.th[v.t].act.Busy?))
    requires After(w, v, who, who') && (who[w.s.th[t].on] == -1 || who[w.s.th[t].on] == t)
    ensures |who'| == |who| && who'[w.s.th[t].on] == who[w.s.th[t].on]
  {
  }

  lemma SameKeepsWork(w: World, w': World, t: nat, c: nat, n: nat, who: seq<int>, who': seq<int>)
    requires Works(w, t, c, n, who) && t < |w'.loc| == |w'.s.th| && w'.s.th[t] == w.s.th[t] && w'.loc[t] == w.loc[t]
    requires |who'| == |who| && (who[c] == -1 || who[c] == t ==> who'[c] == who[c])
    ensures Works(w', t, c, n, who')
  {
  }

  lemma OtherKeepsWork(base: Addr, w: World, v: Move, t: nat, c: nat, n: nat, who: seq<int>) returns (who': seq<int>)
    requires Inv(base, w, who) && CanMove(base, w, v) && Works(w, t, c, n, who) && !Own(v, t) && Leaves(w, v, t)
    ensures Inv(base, Do(base, w, v), who') && Works(Do(base, w, v), t, c, n, who')
  {
    StepSparesThread(base, w, v, t);
    who' := MoveKeepsInv(base, w, v, who);
    if who[c] == -1 || who[c] == t { OtherSpares(w, v, t, who, who'); }
    hide Inv, Do, CanMove;
    SameKeepsWork(w, Do(base, w, v), t, c, n, who, who');
  }

  // ---------------------------------------------------------------- its own moves

  lemma OwnInstruction(base: Addr, w: World, t: nat, c: nat, n: nat, who: seq<int>)
    requires Inv(base, w, who) && Works(w, t, c, n, who) && CanStep(w.s.th[t])
    ensures var (x, x') := (w.s.th[t], Instruction(w.s, t).th[t]);
            && x'.reg && x'.on == x.on && x'.act.Busy? && Rank(x'.act) < Rank(x.act)
            && w.loc[t].pc in {Spinning, Adding}
            && (if x.act.pc == At(Len(x.act.call) - 1) then !x'.act.pc.At? else x'.act.pc.At? <==> x.act.pc.At?)
            && (!x'.act.pc.At? ==> x'.act.pc.l == Ok)
  {
    var x := w.s.th[t];
    assert ThreadOk(x, w.s.nCpus) && SThread(x, w.s.mem);
    assert LocalOk(base, x, w.loc[t], w.s.mem, t, who);
    assert LockOk(base, w, c, who);
    if x.act.pc.At? {
      RankDecreases(x.act, w.s.twice, x.cpuId, w.s.mem);
      if x.act.pc.i < Len(x.act.call) - 1 {
        GoesOnUnlessRefused(x.act, w.s.twice, x.cpuId, w.s.mem);
      } else {
        CommitStep(x.act, w.s.twice, x.cpuId, w.s.mem);
      }
    }
  }

  lemma InstructionKeepsWork(base: Addr, w: World, v: Move, t: nat, c: nat, n: nat, who: seq<int>)
      returns (who': seq<int>)
    requires Inv(base, w, who) && v == I(t) && CanMove(base, w, v) && Works(w, t, c, n, who)
    ensures var w' := Do(base, w, v);
            && Inv(base, w', who') && Works(w', t, c, n, who')
            && Rank(w'.s.th[t].act) < Rank(w.s.th[t].act)
            && w'.loc[t].pc == w.loc[t].pc && w.loc[t].pc in {Spinning, Adding}
  {
    OwnInstruction(base, w, t, c, n, who);
    who' := MoveKeepsInv(base, w, v, who);
    assert |Do(base, w, v).s.th| == |w.s.th|;
    hide Inv, Content, Rank, Instruction;
  }

  // Instructions of the two helpers at most.
  const BOUND := 9

  /** Moves left at most. */
  ghost function WorkRank(w: World, t: nat): nat
    requires t < |w.loc| && t < |w.s.th|
  {
    match w.loc[t].pc
    case Spin => 3 + BOUND
    case SpinCpu => 2 + BOUND
    case Spinning => 1 + Rank(w.s.th[t].act)
    case Add => 3 + BOUND
    case AddCpu => 2 + BOUND
    case Adding => 1 + Rank(w.s.th[t].act)
    case _ => 0
  }

  // A C statement before the end.
  lemma StatementKeepsWork(base: Addr, w: World, v: Move, t: nat, c: nat, n: nat, who: seq<int>)
    requires KInv(w.s) && v.C? && v.t == t && CanMove(base, w, v) && Works(w, t, c, n, who) && !Done(w, t)
    ensures Works(Do(base, w, v), t, c, n, who) && WorkRank(Do(base, w, v), t) < WorkRank(w, t)
  {
    assert ThreadOk(w.s.th[t], w.s.nCpus);
    if w.loc[t].pc == SpinCpu {
      EnterRank(LockCall(base, w.loc[t].cpu), w.loc[t].cpu, v.site, v.junk);
    } else if w.loc[t].pc == AddCpu {
      EnterRank(AddCall(base, w.loc[t].cpu), w.loc[t].cpu, v.site, v.junk);
    }
  }

  // The lock is taken, or the add done.
  ghost predicate Done(w: World, t: nat) { t < |w.loc| && w.loc[t].pc in {Locked, Ready} }

  /** Every move that is no kernel event against thread t keeps its work on course, and its own moves bring
      it nearer to its end. */
  lemma MoveKeepsWork(base: Addr, w: World, v: Move, t: nat, c: nat, n: nat, who: seq<int>) returns (who': seq<int>)
    requires Inv(base, w, who) && CanMove(base, w, v) && Works(w, t, c, n, who) && Leaves(w, v, t)
    requires Own(v, t) ==> !Done(w, t)
    ensures var w' := Do(base, w, v);
            && Inv(base, w', who') && Works(w', t, c, n, who')
            && WorkRank(w', t) + (if Own(v, t) then 1 else 0) <= WorkRank(w, t)
  {
    if !Own(v, t) {
      StepSparesThread(base, w, v, t);
      who' := OtherKeepsWork(base, w, v, t, c, n, who);
    } else if v.I? {
      who' := InstructionKeepsWork(base, w, v, t, c, n, who);
    } else {
      StatementKeepsWork(base, w, v, t, c, n, who);
      who' := MoveKeepsInv(base, w, v, who);
    }
  }

  // Moves of thread t from the i-th on, before the k-th.
  ghost function OwnMoves(vs: seq<Move>, t: nat, i: nat, k: nat): nat
    requires i <= k <= |vs|
  {
    if k == i then 0 else OwnMoves(vs, t, i, k - 1) + if Own(vs[k - 1], t) then 1 else 0
  }

  // From state i to state k no kernel event stops or hits thread t, which stops once it is done.
  ghost predicate WorkRuns(ws: seq<World>, vs: seq<Move>, t: nat, i: nat, k: nat) {
    && i <= k < |ws| && |ws| == |vs| + 1
    && forall j :: i <= j < k ==> Leaves(ws[j], vs[j], t) && (Own(vs[j], t) ==> !Done(ws[j], t))
  }

  /** In every run, when thread t on CPU c goes to take the lock of that CPU, which is free, or to add,
      and no kernel event stops or hits it, it gets that lock, or counts one more add, after at most
      3 + BOUND moves of its own. */
  lemma {:induction false} UndisturbedWork(base: Addr, ws: seq<World>, vs: seq<Move>, t: nat, i: nat, k: nat,
                                           who: seq<int>) returns (who': seq<int>)
    requires PercpuCounter.IsRun(base, ws, vs) && WorkRuns(ws, vs, t, i, k) && Inv(base, ws[i], who)
    requires t < |ws[i].loc| && t < |ws[i].s.th| && ws[i].s.th[t].reg && 0 <= ws[i].s.th[t].on < |who|
    requires ws[i].loc[t].pc == Add || (ws[i].loc[t].pc == Spin && who[ws[i].s.th[t].on] == -1)
    ensures var (c, n) := (ws[i].s.th[t].on, ws[i].loc[t].adds);
            && Inv(base, ws[k], who') && Works(ws[k], t, c, n, who')
            && OwnMoves(vs, t, i, k) + WorkRank(ws[k], t) <= 3 + BOUND
            && (OwnMoves(vs, t, i, k) == 3 + BOUND ==> Done(ws[k], t))
            && (ws[k].loc[t].pc == Locked ==> ws[k].loc[t].cpu == c && who'[c] == t)
            && (ws[k].loc[t].pc == Ready ==> ws[k].loc[t].adds == n + 1)
    decreases k
  {
    hide Inv, Do, CanMove, Initial;
    var (c, n) := (ws[i].s.th[t].on, ws[i].loc[t].adds);
    if k == i {
      assert |ws[i].loc| == |ws[i].s.th| by { NothingLost(base, ws, vs, i); }
      who' := who;
    } else {
      who' := UndisturbedWork(base, ws, vs, t, i, k - 1, who);
      assert CanMove(base, ws[k - 1], vs[k - 1]) && ws[k] == Do(base, ws[k - 1], vs[k - 1]);
      who' := MoveKeepsWork(base, ws[k - 1], vs[k - 1], t, c, n, who');
    }
  }

  /** A call that failed is not repeated for the CPU it was made for: the next statement asks for the CPU the
      thread is on by then. */
  lemma StartsOver(base: Addr, w: World, v: Move, u: Move, who: seq<int>)
    requires Inv(base, w, who) && CanMove(base, w, v) && v.C? && w.loc[v.t].pc in {Spinning, Adding}
    requires ReturnValue(w.s.th[v.t].act.pc.l) != 0
    requires CanMove(base, Do(base, w, v), u) && u.C? && u.t == v.t && w.s.th[v.t].reg
    ensures Do(base, w, v).loc[v.t].pc in {Spin, Add}
    ensures Do(base, Do(base, w, v), u).loc[v.t].cpu == w.s.th[v.t].on
  {
    assert ThreadOk(w.s.th[v.t], w.s.nCpus);
  }

  /** A running thread always has a next step. */
  lemma NeverStuck(base: Addr, ws: seq<World>, vs: seq<Move>, k: nat, t: nat, spin: bool, site: nat, junk: Regs)
    requires PercpuCounter.IsRun(base, ws, vs) && k < |ws| && t < |ws[k].s.th| && ws[k].s.th[t].on >= 0
    ensures CanMove(base, ws[k], I(t)) || CanMove(base, ws[k], C(t, spin, site, junk))
  {
    var who := PercpuCounter.RunKeepsInv(base, ws, vs, k);
    assert ThreadOk(ws[k].s.th[t], ws[k].s.nCpus) && LocalOk(base, ws[k].s.th[t], ws[k].loc[t], ws[k].s.mem, t, who);
    hide Inv, Content, KInv, SInv;
  }

  // ---------------------------------------------------------------- the locked region

  // Statements the owner of a lock has left before it is between two iterations.
  function RegionRank(pc: PercpuCounter.Pc): nat {
    match pc
    case Locked => 4
    case Loaded => 3
    case Counted => 2
    case Checked => 1
    case _ => 0
  }

  predicate InRegion(pc: PercpuCounter.Pc) { pc in {Locked, Loaded, Counted, Checked} }

  // Thread t, which owned the lock of CPU c with n regions completed, is in its region or past it.
  ghost predicate Regional(l: Local, c: int, n: nat) {
    if InRegion(l.pc) then l.cpu == c && l.regions == n + (if RegionRank(l.pc) <= 2 then 1 else 0)
    else l.pc == Ready && l.regions == n + 1
  }

  lemma MoveKeepsRegion(base: Addr, w: World, v: Move, who: seq<int>, t: nat, c: int, n: nat)
    requires Inv(base, w, who) && CanMove(base, w, v) && t < |w.loc| && Regional(w.loc[t], c, n)
    requires Own(v, t) ==> InRegion(w.loc[t].pc)
    ensures var w' := Do(base, w, v);
            && t < |w'.loc| && Regional(w'.loc[t], c, n)
            && RegionRank(w'.loc[t].pc) + (if Own(v, t) then 1 else 0) == RegionRank(w.loc[t].pc)
  {
    assert LocalOk(base, w.s.th[t], w.loc[t], w.s.mem, t, who);
    if w.loc[t].pc == Counted { assert LockOk(base, w, w.loc[t].cpu, who); }
    hide KInv, Kernel, Instruction, Content;
  }

  // From state i to state k thread t stops once it has left the region.
  ghost predicate RegionRuns(ws: seq<World>, vs: seq<Move>, t: nat, i: nat, k: nat) {
    && i <= k < |ws| && |ws| == |vs| + 1
    && forall j :: i <= j < k && Own(vs[j], t) ==> t < |ws[j].loc| && InRegion(ws[j].loc[t].pc)
  }

  /** In every run the owner of a lock counts its region once and releases the lock with its fourth move,
      also when it is preempted, signalled or migrated in between. */
  lemma {:induction false} OwnerReleases(base: Addr, ws: seq<World>, vs: seq<Move>, t: nat, i: nat, k: nat)
    requires PercpuCounter.IsRun(base, ws, vs) && RegionRuns(ws, vs, t, i, k)
    requires t < |ws[i].loc| && ws[i].loc[t].pc == Locked
    ensures t < |ws[k].loc| && Regional(ws[k].loc[t], ws[i].loc[t].cpu, ws[i].loc[t].regions)
    ensures OwnMoves(vs, t, i, k) + RegionRank(ws[k].loc[t].pc) == 4
    decreases k
  {
    hide Inv, Do, CanMove, Initial;
    if k > i {
      OwnerReleases(base, ws, vs, t, i, k - 1);
      assert CanMove(base, ws[k - 1], vs[k - 1]) && ws[k] == Do(base, ws[k - 1], vs[k - 1]);
      var who := PercpuCounter.RunKeepsInv(base, ws, vs, k - 1);
      MoveKeepsRegion(base, ws[k - 1], vs[k - 1], who, t, ws[i].loc[t].cpu, ws[i].loc[t].regions);
    }
  }
}
