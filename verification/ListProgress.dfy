/**
 A pop from, or a push to, a per-CPU list that no kernel event hits: however the other threads move in
 between, it takes the first node, or puts its node in front, after boundedly many moves of its own.
 And in every run a pop gives up only when the list was empty.
 */
module ListProgress {
  import opened Machine
  import opened Sections
  import opened Atomicity
  import opened Conservation
  import opened PercpuList
  import opened Returns

  // The move is no kernel event that stops or hits thread t.
  ghost predicate Leaves(w: World, v: Move, t: nat) {
    v.K? && t < |w.s.th| ==> Passes(w.s, v.e, t)
  }

  // The move is one of thread t.
  predicate Own(v: Move, t: nat) { !v.K? && v.t == t }

  /** Thread t, on CPU c, is about to pop or popping the first node of the list q of that CPU, or has done
      so and holds it. */
  ghost predicate Pops(y: Layout, w: World, t: nat, c: nat, q: seq<Addr>, lists: seq<seq<Addr>>, held: seq<seq<Addr>>) {
    && q != [] && t < |held| && |held| == |w.loc| == |w.s.th| && c < |lists| && w.s.th[t].reg && w.s.th[t].on == c
    && var (x, l) := (w.s.th[t], w.loc[t]);
       && (l.pc !in {Ready, Retry} ==> l.cpu == c)
       && match l.pc
          case Ready => lists[c] == q
          case Retry => lists[c] == q
          case PopCpu => lists[c] == q
          case Popping =>
            && x.act.Busy?
            && (if x.act.pc.At? then lists[c] == q else x.act.pc.l == Ok && Popped(t, c, q, lists, held))
          case Holding => Popped(t, c, q, lists, held)
          case _ => false
  }

  ghost predicate Popped(t: nat, c: nat, q: seq<Addr>, lists: seq<seq<Addr>>, held: seq<seq<Addr>>)
    requires q != [] && t < |held| && c < |lists|
  {
    lists[c] == q[1..] && held[t] == [q[0]]
  }

  // ---------------------------------------------------------------- moves of others

  // Another thread runs on another CPU, and changes neither this list nor this hand.
  lemma OtherSpares(w: World, v: Move, t: nat, lists: seq<seq<Addr>>, held: seq<seq<Addr>>,
                    lists': seq<seq<Addr>>, held': seq<seq<Addr>>)
    requires KInv(w.s) && v.I? && v.t != t && t < |held| == |w.s.th| == |w.loc| && v.t < |held|
    requires CanStep(w.s.th[v.t]) && 0 <= w.s.th[t].on < |lists| && After(w, v.t, lists, held, lists', held')
    ensures |lists'| == |lists| && |held'| == |held|
    ensures lists'[w.s.th[t].on] == lists[w.s.th[t].on] && held'[t] == held[t]
  {
  }

  lemma StepSparesThread(y: Layout, w: World, v: Move, t: nat)
    requires CanMove(y, w, v) && t < |w.s.th| == |w.loc| && !Own(v, t) && Leaves(w, v, t)
    ensures var w' := Do(y, w, v); |w'.s.th| == |w'.loc| == |w.loc| && w'.s.th[t] == w.s.th[t] && w'.loc[t] == w.loc[t]
  {
    if v.K? { KernelSpares(w.s, v.e, t); }
  }

  // Thread t, its list and its hand are as they were.
  ghost predicate Same(w: World, w': World, t: nat, c: nat, lists: seq<seq<Addr>>, held: seq<seq<Addr>>,
                       lists': seq<seq<Addr>>, held': seq<seq<Addr>>) {
    && t < |w.loc| == |w.s.th| == |w'.loc| == |w'.s.th| == |held| == |held'| && c < |lists| == |lists'|
    && w'.s.th[t] == w.s.th[t] && w'.loc[t] == w.loc[t] && lists'[c] == lists[c] && held'[t] == held[t]
  }

  lemma SameKeepsPop(y: Layout, w: World, w': World, t: nat, c: nat, q: seq<Addr>, lists: seq<seq<Addr>>,
                     held: seq<seq<Addr>>, lists': seq<seq<Addr>>, held': seq<seq<Addr>>)
    requires Pops(y, w, t, c, q, lists, held) && Same(w, w', t, c, lists, held, lists', held')
    ensures Pops(y, w', t, c, q, lists', held')
  {
  }

  // A move that is not one of thread t, on CPU c, and passes it.
  lemma OtherIsSame(y: Layout, w: World, v: Move, t: nat, c: nat, lists: seq<seq<Addr>>,
                    held: seq<seq<Addr>>) returns (lists': seq<seq<Addr>>, held': seq<seq<Addr>>)
    requires Inv(y, w, lists, held) && CanMove(y, w, v) && !Own(v, t) && Leaves(w, v, t)
    requires t < |w.s.th| == |w.loc| == |held| && c < |lists| && w.s.th[t].on == c
    ensures Inv(y, Do(y, w, v), lists', held') && Same(w, Do(y, w, v), t, c, lists, held, lists', held')
  {
    StepSparesThread(y, w, v, t);
    lists', held' := MoveKeepsInv(y, w, v, lists, held);
    if v.I? { OtherSpares(w, v, t, lists, held, lists', held'); }
    hide Inv, Content, Do, After;
  }

  lemma OtherKeepsPop(y: Layout, w: World, v: Move, t: nat, c: nat, q: seq<Addr>, lists: seq<seq<Addr>>,
                      held: seq<seq<Addr>>) returns (lists': seq<seq<Addr>>, held': seq<seq<Addr>>)
    requires Inv(y, w, lists, held) && CanMove(y, w, v) && Pops(y, w, t, c, q, lists, held)
    requires !Own(v, t) && Leaves(w, v, t)
    ensures Inv(y, Do(y, w, v), lists', held') && Pops(y, Do(y, w, v), t, c, q, lists', held')
  {
    lists', held' := OtherIsSame(y, w, v, t, c, lists, held);
    hide Inv, Do, CanMove;
    SameKeepsPop(y, w, Do(y, w, v), t, c, q, lists, held, lists', held');
  }

  // ---------------------------------------------------------------- its own moves

  // The section of the pop finds a first node.
  lemma PopIsNotRefused(y: Layout, w: World, t: nat, c: nat, q: seq<Addr>, lists: seq<seq<Addr>>, held: seq<seq<Addr>>)
    requires Content(y, w, lists, held) && Pops(y, w, t, c, q, lists, held)
    requires w.loc[t].pc == Popping && w.s.th[t].act.pc.At?
    ensures t < |y.load| && w.s.th[t].act.call == PopCall(y, c, t) && Pseudo(w.s.th[t].act.call, w.s.mem).1 == 0
  {
    assert LocalOk(y, w.s.th[t], w.loc[t], w.s.mem, t, w.s.nCpus, held[t]);
    assert Chain(w.s.mem, Get(w.s.mem, Head(y, c)), q);
  }

  lemma OwnInstruction(y: Layout, w: World, t: nat, c: nat, q: seq<Addr>, lists: seq<seq<Addr>>, held: seq<seq<Addr>>)
    requires Inv(y, w, lists, held) && Pops(y, w, t, c, q, lists, held) && CanStep(w.s.th[t])
    ensures var (x, x') := (w.s.th[t], Instruction(w.s, t).th[t]);
            && x'.reg && x'.on == x.on && x'.act.Busy? && Rank(x'.act) < Rank(x.act) && w.loc[t].pc == Popping
            && (if x.act.pc == At(Len(x.act.call) - 1) then !x'.act.pc.At? else x'.act.pc.At? <==> x.act.pc.At?)
            && (!x'.act.pc.At? ==> x'.act.pc.l == Ok)
  {
    var x := w.s.th[t];
    assert ThreadOk(x, w.s.nCpus) && SThread(x, w.s.mem);
    assert LocalOk(y, x, w.loc[t], w.s.mem, t, w.s.nCpus, held[t]);
    if x.act.pc.At? {
      RankDecreases(x.act, w.s.twice, x.cpuId, w.s.mem);
      PopIsNotRefused(y, w, t, c, q, lists, held);
      if x.act.pc.i < Len(x.act.call) - 1 {
        GoesOnUnlessRefused(x.act, w.s.twice, x.cpuId, w.s.mem);
      } else {
        CommitStep(x.act, w.s.twice, x.cpuId, w.s.mem);
      }
    }
  }

  lemma OwnInstructionPops(y: Layout, w: World, t: nat, c: nat, q: seq<Addr>, lists: seq<seq<Addr>>,
                           held: seq<seq<Addr>>) returns (lists': seq<seq<Addr>>, held': seq<seq<Addr>>)
    requires Inv(y, w, lists, held) && CanMove(y, w, I(t)) && Pops(y, w, t, c, q, lists, held)
    ensures var w' := Do(y, w, I(t));
            && Inv(y, w', lists', held') && Pops(y, w', t, c, q, lists', held')
            && Rank(w'.s.th[t].act) < Rank(w.s.th[t].act) && w'.loc[t].pc == w.loc[t].pc == Popping
  {
    OwnInstruction(y, w, t, c, q, lists, held);
    lists', held' := MoveKeepsInv(y, w, I(t), lists, held);
    assert |Do(y, w, I(t)).s.th| == |w.s.th|;
    hide Inv, Content, Rank, Instruction;
  }

  // Instructions of the helper that a pop calls.
  const POP_BOUND := 14

  /** Moves a pop has left at most. */
  ghost function PopRank(w: World, t: nat): nat
    requires t < |w.loc| && t < |w.s.th|
  {
    match w.loc[t].pc
    case Ready => 3 + POP_BOUND
    case Retry => 3 + POP_BOUND
    case PopCpu => 2 + POP_BOUND
    case Popping => 1 + Rank(w.s.th[t].act)
    case _ => 0
  }

  // A C statement of the pop.
  lemma OwnStatement(y: Layout, w: World, v: Move, t: nat, c: nat, q: seq<Addr>, lists: seq<seq<Addr>>,
                     held: seq<seq<Addr>>)
    requires KInv(w.s) && v.C? && v.t == t && CanMove(y, w, v) && Pops(y, w, t, c, q, lists, held)
    requires w.loc[t].pc != Holding
    ensures Pops(y, Do(y, w, v), t, c, q, lists, held) && PopRank(Do(y, w, v), t) < PopRank(w, t)
  {
    assert ThreadOk(w.s.th[t], w.s.nCpus);
    if w.loc[t].pc == PopCpu {
      EnterRank(PopCall(y, w.loc[t].cpu, t), w.loc[t].cpu, v.site, v.junk);
    }
  }

  /** Every move that is no kernel event against thread t keeps its pop on course, and its own moves
      bring it nearer to its end. */
  lemma MoveKeepsPop(y: Layout, w: World, v: Move, t: nat, c: nat, q: seq<Addr>, lists: seq<seq<Addr>>,
                     held: seq<seq<Addr>>) returns (lists': seq<seq<Addr>>, held': seq<seq<Addr>>)
    requires Inv(y, w, lists, held) && CanMove(y, w, v) && Pops(y, w, t, c, q, lists, held) && Leaves(w, v, t)
    requires Own(v, t) ==> w.loc[t].pc != Holding
    ensures var w' := Do(y, w, v);
            && Inv(y, w', lists', held') && Pops(y, w', t, c, q, lists', held')
            && PopRank(w', t) + (if Own(v, t) then 1 else 0) <= PopRank(w, t)
  {
    if !Own(v, t) {
      StepSparesThread(y, w, v, t);
      lists', held' := OtherKeepsPop(y, w, v, t, c, q, lists, held);
    } else if v.I? {
      lists', held' := OwnInstructionPops(y, w, t, c, q, lists, held);
    } else {
      OwnStatement(y, w, v, t, c, q, lists, held);
      lists', held' := MoveKeepsInv(y, w, v, lists, held);
    }
  }

  // ---------------------------------------------------------------- whole runs

  // Moves of thread t from the i-th on, before the k-th.
  ghost function OwnMoves(vs: seq<Move>, t: nat, i: nat, k: nat): nat
    requires i <= k <= |vs|
  {
    if k == i then 0 else OwnMoves(vs, t, i, k - 1) + if Own(vs[k - 1], t) then 1 else 0
  }

  /** From state i to state k no kernel event stops or hits thread t, and it does not go on once it
      holds a node. */
  ghost predicate PopRuns(ws: seq<World>, vs: seq<Move>, t: nat, i: nat, k: nat) {
    && i <= k < |ws| && |ws| == |vs| + 1
    && forall n :: i <= n < k ==> Leaves(ws[n], vs[n], t) && (Own(vs[n], t) ==> NotHolding(ws[n], t))
  }

  ghost predicate NotHolding(w: World, t: nat) { t < |w.loc| && w.loc[t].pc != Holding }

  /** In every run, when thread t is between two iterations on CPU c whose list has nodes, and no
      kernel event stops or hits it, it goes on to pop, and pops, exactly the first node, and is done
      after at most 3 + POP_BOUND moves of its own, whatever the others do meanwhile. */
  lemma {:induction false} UndisturbedPop(y: Layout, ws: seq<World>, vs: seq<Move>, t: nat, i: nat, k: nat,
                                          lists: seq<seq<Addr>>, held: seq<seq<Addr>>)
      returns (lists': seq<seq<Addr>>, held': seq<seq<Addr>>)
    requires PercpuList.IsRun(y, ws, vs) && PopRuns(ws, vs, t, i, k) && Inv(y, ws[i], lists, held)
    requires t < |ws[i].loc| && ws[i].loc[t].pc == Ready && t < |ws[i].s.th| && ws[i].s.th[t].reg
    requires 0 <= ws[i].s.th[t].on < |lists| && lists[ws[i].s.th[t].on] != []
    ensures var c := ws[i].s.th[t].on;
            && Inv(y, ws[k], lists', held') && Pops(y, ws[k], t, c, lists[c], lists', held')
            && OwnMoves(vs, t, i, k) + PopRank(ws[k], t) <= 3 + POP_BOUND
            && (ws[k].loc[t].pc == Holding ==> Popped(t, c, lists[c], lists', held'))
            && (OwnMoves(vs, t, i, k) == 3 + POP_BOUND ==> ws[k].loc[t].pc == Holding)
    decreases k
  {
    hide Inv, Content, Do, CanMove, Initial;
    var c := ws[i].s.th[t].on;
    if k == i {
      assert Pops(y, ws[i], t, c, lists[c], lists, held) by { PopStarts(y, ws[i], t, c, lists, held); }
      lists', held' := lists, held;
    } else {
      lists', held' := UndisturbedPop(y, ws, vs, t, i, k - 1, lists, held);
      assert CanMove(y, ws[k - 1], vs[k - 1]) && ws[k] == Do(y, ws[k - 1], vs[k - 1]);
      lists', held' := MoveKeepsPop(y, ws[k - 1], vs[k - 1], t, c, lists[c], lists', held');
    }
  }

  lemma PopStarts(y: Layout, w: World, t: nat, c: nat, lists: seq<seq<Addr>>, held: seq<seq<Addr>>)
    requires Inv(y, w, lists, held) && t < |w.loc| && w.loc[t].pc == Ready && t < |w.s.th| && w.s.th[t].reg
    requires w.s.th[t].on == c < |lists| && lists[c] != []
    ensures Pops(y, w, t, c, lists[c], lists, held)
  {
  }

  // ---------------------------------------------------------------- pop of an empty list

  /** Thread t, on CPU c, is popping from the empty list of that CPU, or has given up. */
  ghost predicate FindsEmpty(y: Layout, w: World, t: nat, c: nat, lists: seq<seq<Addr>>, held: seq<seq<Addr>>) {
    && t < |held| && |held| == |w.loc| == |w.s.th| && c < |lists| && w.s.th[t].reg
    && w.s.th[t].on == c && lists[c] == []
    && var (x, l) := (w.s.th[t], w.loc[t]);
       && (l.pc != Ready ==> l.cpu == c)
       && match l.pc
          case PopCpu => true
          case Popping => x.act.Busy? && (!x.act.pc.At? ==> x.act.pc.l == Differs)
          case Ready => true
          case _ => false
  }

  lemma OtherKeepsEmpty(y: Layout, w: World, v: Move, t: nat, c: nat, lists: seq<seq<Addr>>, held: seq<seq<Addr>>)
      returns (lists': seq<seq<Addr>>, held': seq<seq<Addr>>)
    requires Inv(y, w, lists, held) && CanMove(y, w, v) && FindsEmpty(y, w, t, c, lists, held)
    requires !Own(v, t) && Leaves(w, v, t)
    ensures Inv(y, Do(y, w, v), lists', held') && FindsEmpty(y, Do(y, w, v), t, c, lists', held')
  {
    lists', held' := OtherIsSame(y, w, v, t, c, lists, held);
    hide Inv, Do, CanMove;
  }

  lemma OwnInstructionEmpty(y: Layout, w: World, t: nat, c: nat, lists: seq<seq<Addr>>, held: seq<seq<Addr>>)
    requires Inv(y, w, lists, held) && FindsEmpty(y, w, t, c, lists, held) && CanStep(w.s.th[t])
    ensures var (x, x') := (w.s.th[t], Instruction(w.s, t).th[t]);
            && x'.reg && x'.on == x.on && x'.act.Busy? && Rank(x'.act) < Rank(x.act) && w.loc[t].pc == Popping
            && x.act.pc != At(Len(x.act.call) - 1) && (!x'.act.pc.At? ==> x'.act.pc.l == Differs)
  {
    var x := w.s.th[t];
    assert ThreadOk(x, w.s.nCpus) && SThread(x, w.s.mem);
    assert LocalOk(y, x, w.loc[t], w.s.mem, t, w.s.nCpus, held[t]);
    assert Chain(w.s.mem, Get(w.s.mem, Head(y, c)), lists[c]);
    if x.act.pc.At? {
      RankDecreases(x.act, w.s.twice, x.cpuId, w.s.mem);
      RefusedDiffers(x.act, w.s.twice, x.cpuId, w.s.mem);
    }
  }

  lemma InstructionKeepsEmpty(y: Layout, w: World, t: nat, c: nat, lists: seq<seq<Addr>>, held: seq<seq<Addr>>)
      returns (lists': seq<seq<Addr>>, held': seq<seq<Addr>>)
    requires Inv(y, w, lists, held) && CanMove(y, w, I(t)) && FindsEmpty(y, w, t, c, lists, held)
    ensures var w' := Do(y, w, I(t));
            && Inv(y, w', lists', held') && FindsEmpty(y, w', t, c, lists', held')
            && Rank(w'.s.th[t].act) < Rank(w.s.th[t].act) && w'.loc[t].pc == w.loc[t].pc == Popping
  {
    OwnInstructionEmpty(y, w, t, c, lists, held);
    lists', held' := MoveKeepsInv(y, w, I(t), lists, held);
    assert |Do(y, w, I(t)).s.th| == |w.s.th|;
    hide Inv, Content, Rank, Instruction;
  }

  // Moves left until the thread has given up.
  ghost function EmptyRank(w: World, t: nat): nat
    requires t < |w.loc| && t < |w.s.th|
  {
    match w.loc[t].pc
    case PopCpu => 2 + POP_BOUND
    case Popping => 1 + Rank(w.s.th[t].act)
    case _ => 0
  }

  lemma StatementKeepsEmpty(y: Layout, w: World, v: Move, t: nat, c: nat, lists: seq<seq<Addr>>, held: seq<seq<Addr>>)
    requires v.C? && v.t == t && CanMove(y, w, v) && FindsEmpty(y, w, t, c, lists, held) && w.loc[t].pc != Ready
    ensures FindsEmpty(y, Do(y, w, v), t, c, lists, held) && EmptyRank(Do(y, w, v), t) < EmptyRank(w, t)
  {
    if w.loc[t].pc == PopCpu {
      EnterRank(PopCall(y, w.loc[t].cpu, t), w.loc[t].cpu, v.site, v.junk);
    }
  }

  lemma MoveKeepsEmpty(y: Layout, w: World, v: Move, t: nat, c: nat, lists: seq<seq<Addr>>, held: seq<seq<Addr>>)
      returns (lists': seq<seq<Addr>>, held': seq<seq<Addr>>)
    requires Inv(y, w, lists, held) && CanMove(y, w, v) && FindsEmpty(y, w, t, c, lists, held) && Leaves(w, v, t)
    requires Own(v, t) ==> w.loc[t].pc != Ready
    ensures var w' := Do(y, w, v);
            && Inv(y, w', lists', held') && FindsEmpty(y, w', t, c, lists', held')
            && EmptyRank(w', t) + (if Own(v, t) then 1 else 0) <= EmptyRank(w, t)
  {
    if !Own(v, t) {
      StepSparesThread(y, w, v, t);
      lists', held' := OtherKeepsEmpty(y, w, v, t, c, lists, held);
    } else if v.I? {
      lists', held' := InstructionKeepsEmpty(y, w, t, c, lists, held);
    } else {
      StatementKeepsEmpty(y, w, v, t, c, lists, held);
      lists', held' := MoveKeepsInv(y, w, v, lists, held);
    }
  }

  /** In every run, when thread t has asked for the CPU it is on, whose list is empty, and no kernel event
      stops or hits it, it gives up, after at most 2 + POP_BOUND moves of its own. */
  lemma {:induction false} UndisturbedEmptyPop(y: Layout, ws: seq<World>, vs: seq<Move>, t: nat, i: nat, k: nat,
                                               lists: seq<seq<Addr>>, held: seq<seq<Addr>>)
      returns (lists': seq<seq<Addr>>, held': seq<seq<Addr>>)
    requires PercpuList.IsRun(y, ws, vs) && PushRuns(ws, vs, t, i, k) && Inv(y, ws[i], lists, held)
    requires t < |ws[i].loc| && ws[i].loc[t].pc == PopCpu && t < |ws[i].s.th| && ws[i].s.th[t].reg
    requires 0 <= ws[i].s.th[t].on == ws[i].loc[t].cpu < |lists| && lists[ws[i].s.th[t].on] == []
    ensures var c := ws[i].s.th[t].on;
            && Inv(y, ws[k], lists', held') && FindsEmpty(y, ws[k], t, c, lists', held')
            && OwnMoves(vs, t, i, k) + EmptyRank(ws[k], t) <= 2 + POP_BOUND
            && (OwnMoves(vs, t, i, k) == 2 + POP_BOUND ==> ws[k].loc[t].pc == Ready)
    decreases k
  {
    hide Inv, Content, Do, CanMove, Initial;
    var c := ws[i].s.th[t].on;
    if k == i {
      assert FindsEmpty(y, ws[i], t, c, lists, held) by { EmptyStarts(y, ws[i], t, c, lists, held); }
      lists', held' := lists, held;
    } else {
      lists', held' := UndisturbedEmptyPop(y, ws, vs, t, i, k - 1, lists, held);
      assert CanMove(y, ws[k - 1], vs[k - 1]) && ws[k] == Do(y, ws[k - 1], vs[k - 1]);
      lists', held' := MoveKeepsEmpty(y, ws[k - 1], vs[k - 1], t, c, lists', held');
    }
  }

  lemma EmptyStarts(y: Layout, w: World, t: nat, c: nat, lists: seq<seq<Addr>>, held: seq<seq<Addr>>)
    requires Inv(y, w, lists, held) && t < |w.loc| && w.loc[t].pc == PopCpu && t < |w.s.th| && w.s.th[t].reg
    requires w.s.th[t].on == w.loc[t].cpu == c < |lists| && lists[c] == []
    ensures FindsEmpty(y, w, t, c, lists, held)
  {
  }

  // ---------------------------------------------------------------- push

  // The pointer to the first node of a list.
  function First(q: seq<Addr>): Addr { if q == [] then 0 else q[0] }

  /** Thread t, on CPU c, is about to push or pushing node n in front of the list q of that CPU, or has
      done so. */
  ghost predicate Pushes(y: Layout, w: World, t: nat, c: nat, n: Addr, q: seq<Addr>,
                         lists: seq<seq<Addr>>, held: seq<seq<Addr>>) {
    && t < |held| && |held| == |w.loc| == |w.s.th| && c < |lists| && w.s.th[t].reg && w.s.th[t].on == c
    && var (x, l) := (w.s.th[t], w.loc[t]);
       && (l.pc !in {Ready, Holding} ==> l.cpu == c)
       && (l.pc != Ready ==> l.node == n)
       && match l.pc
          case Holding => lists[c] == q
          case PushCpu => lists[c] == q
          case PushRead => lists[c] == q && l.want == First(q)
          case PushLinked => lists[c] == q && l.want == First(q)
          case Pushing =>
            && x.act.Busy? && l.want == First(q)
            && (if x.act.pc.At? then lists[c] == q && held[t] == [n] else x.act.pc.l == Ok && lists[c] == [n] + q)
          case Ready => lists[c] == [n] + q
          case _ => false
  }

  lemma SameKeepsPush(y: Layout, w: World, w': World, t: nat, c: nat, n: Addr, q: seq<Addr>, lists: seq<seq<Addr>>,
                      held: seq<seq<Addr>>, lists': seq<seq<Addr>>, held': seq<seq<Addr>>)
    requires Pushes(y, w, t, c, n, q, lists, held) && Same(w, w', t, c, lists, held, lists', held')
    ensures Pushes(y, w', t, c, n, q, lists', held')
  {
  }

  lemma OtherKeepsPush(y: Layout, w: World, v: Move, t: nat, c: nat, n: Addr, q: seq<Addr>, lists: seq<seq<Addr>>,
                       held: seq<seq<Addr>>) returns (lists': seq<seq<Addr>>, held': seq<seq<Addr>>)
    requires Inv(y, w, lists, held) && CanMove(y, w, v) && Pushes(y, w, t, c, n, q, lists, held)
    requires !Own(v, t) && Leaves(w, v, t)
    ensures Inv(y, Do(y, w, v), lists', held') && Pushes(y, Do(y, w, v), t, c, n, q, lists', held')
  {
    lists', held' := OtherIsSame(y, w, v, t, c, lists, held);
    hide Inv, Do, CanMove;
    SameKeepsPush(y, w, Do(y, w, v), t, c, n, q, lists, held, lists', held');
  }

  lemma HeadIsFirst(y: Layout, w: World, c: nat, lists: seq<seq<Addr>>, held: seq<seq<Addr>>)
    requires Content(y, w, lists, held) && c < |lists|
    ensures Get(w.s.mem, Head(y, c)) == First(lists[c])
  {
    assert Chain(w.s.mem, Get(w.s.mem, Head(y, c)), lists[c]);
  }

  lemma OwnInstructionPushes(y: Layout, w: World, t: nat, c: nat, n: Addr, q: seq<Addr>,
                             lists: seq<seq<Addr>>, held: seq<seq<Addr>>)
    requires Inv(y, w, lists, held) && Pushes(y, w, t, c, n, q, lists, held) && CanStep(w.s.th[t])
    ensures var (x, x') := (w.s.th[t], Instruction(w.s, t).th[t]);
            && x'.reg && x'.on == x.on && x'.act.Busy? && Rank(x'.act) < Rank(x.act) && w.loc[t].pc == Pushing
            && (if x.act.pc == At(Len(x.act.call) - 1) then !x'.act.pc.At? else x'.act.pc.At? <==> x.act.pc.At?)
            && (!x'.act.pc.At? ==> x'.act.pc.l == Ok)
  {
    var x := w.s.th[t];
    assert ThreadOk(x, w.s.nCpus) && SThread(x, w.s.mem);
    assert LocalOk(y, x, w.loc[t], w.s.mem, t, w.s.nCpus, held[t]);
    if x.act.pc.At? {
      RankDecreases(x.act, w.s.twice, x.cpuId, w.s.mem);
      HeadIsFirst(y, w, c, lists, held);
      if x.act.pc.i < Len(x.act.call) - 1 {
        GoesOnUnlessRefused(x.act, w.s.twice, x.cpuId, w.s.mem);
      } else {
        CommitStep(x.act, w.s.twice, x.cpuId, w.s.mem);
      }
    }
  }

  lemma InstructionKeepsPush(y: Layout, w: World, t: nat, c: nat, n: Addr, q: seq<Addr>, lists: seq<seq<Addr>>,
                             held: seq<seq<Addr>>) returns (lists': seq<seq<Addr>>, held': seq<seq<Addr>>)
    requires Inv(y, w, lists, held) && CanMove(y, w, I(t)) && Pushes(y, w, t, c, n, q, lists, held)
    ensures var w' := Do(y, w, I(t));
            && Inv(y, w', lists', held') && Pushes(y, w', t, c, n, q, lists', held')
            && Rank(w'.s.th[t].act) < Rank(w.s.th[t].act) && w'.loc[t].pc == w.loc[t].pc == Pushing
  {
    OwnInstructionPushes(y, w, t, c, n, q, lists, held);
    lists', held' := MoveKeepsInv(y, w, I(t), lists, held);
    assert |Do(y, w, I(t)).s.th| == |w.s.th|;
    hide Inv, Content, Rank, Instruction;
  }

  // Instructions of the helper that a push calls.
  const PUSH_BOUND := 9

  /** Moves a push has left at most. */
  ghost function PushRank(w: World, t: nat): nat
    requires t < |w.loc| && t < |w.s.th|
  {
    match w.loc[t].pc
    case Holding => 5 + PUSH_BOUND
    case PushCpu => 4 + PUSH_BOUND
    case PushRead => 3 + PUSH_BOUND
    case PushLinked => 2 + PUSH_BOUND
    case Pushing => 1 + Rank(w.s.th[t].act)
    case _ => 0
  }

  // A C statement of the push that reads or links.
  lemma PushReads(y: Layout, w: World, v: Move, t: nat, c: nat, n: Addr, q: seq<Addr>, lists: seq<seq<Addr>>,
                  held: seq<seq<Addr>>)
    requires v.C? && v.t == t && CanMove(y, w, v) && Pushes(y, w, t, c, n, q, lists, held)
    requires w.s.th[t].cpuId == c && Get(w.s.mem, Head(y, c)) == First(lists[c])
    requires w.loc[t].pc in {Holding, PushCpu, PushRead}
    ensures Pushes(y, Do(y, w, v), t, c, n, q, lists, held) && PushRank(Do(y, w, v), t) < PushRank(w, t)
  {
  }

  // ... that enters the helper or comes back from it.
  lemma PushCalls(y: Layout, w: World, v: Move, t: nat, c: nat, n: Addr, q: seq<Addr>, lists: seq<seq<Addr>>,
                  held: seq<seq<Addr>>)
    requires v.C? && v.t == t && CanMove(y, w, v) && Pushes(y, w, t, c, n, q, lists, held)
    requires w.loc[t].pc in {PushLinked, Pushing} && (w.loc[t].pc == PushLinked ==> held[t] == [n])
    ensures Pushes(y, Do(y, w, v), t, c, n, q, lists, held) && PushRank(Do(y, w, v), t) < PushRank(w, t)
  {
    if w.loc[t].pc == PushLinked {
      EnterRank(PushCall(y, w.loc[t]), w.loc[t].cpu, v.site, v.junk);
    }
  }

  lemma StatementKeepsPush(y: Layout, w: World, v: Move, t: nat, c: nat, n: Addr, q: seq<Addr>, lists: seq<seq<Addr>>,
                           held: seq<seq<Addr>>)
    requires Inv(y, w, lists, held) && v.C? && v.t == t && CanMove(y, w, v) && Pushes(y, w, t, c, n, q, lists, held)
    requires w.loc[t].pc != Ready
    ensures Pushes(y, Do(y, w, v), t, c, n, q, lists, held) && PushRank(Do(y, w, v), t) < PushRank(w, t)
  {
    assert ThreadOk(w.s.th[t], w.s.nCpus);
    assert LocalOk(y, w.s.th[t], w.loc[t], w.s.mem, t, w.s.nCpus, held[t]);
    HeadIsFirst(y, w, c, lists, held);
    hide Inv, Content, Do, PushRank;
    if w.loc[t].pc in {PushLinked, Pushing} {
      PushCalls(y, w, v, t, c, n, q, lists, held);
    } else {
      PushReads(y, w, v, t, c, n, q, lists, held);
    }
  }

  /** ... and the same for a push. */
  lemma MoveKeepsPush(y: Layout, w: World, v: Move, t: nat, c: nat, n: Addr, q: seq<Addr>, lists: seq<seq<Addr>>,
                      held: seq<seq<Addr>>) returns (lists': seq<seq<Addr>>, held': seq<seq<Addr>>)
    requires Inv(y, w, lists, held) && CanMove(y, w, v) && Pushes(y, w, t, c, n, q, lists, held) && Leaves(w, v, t)
    requires Own(v, t) ==> w.loc[t].pc != Ready
    ensures var w' := Do(y, w, v);
            && Inv(y, w', lists', held') && Pushes(y, w', t, c, n, q, lists', held')
            && PushRank(w', t) + (if Own(v, t) then 1 else 0) <= PushRank(w, t)
  {
    if !Own(v, t) {
      StepSparesThread(y, w, v, t);
      lists', held' := OtherKeepsPush(y, w, v, t, c, n, q, lists, held);
    } else if v.I? {
      lists', held' := InstructionKeepsPush(y, w, t, c, n, q, lists, held);
    } else {
      StatementKeepsPush(y, w, v, t, c, n, q, lists, held);
      lists', held' := MoveKeepsInv(y, w, v, lists, held);
    }
  }

  // From state i to state k no kernel event stops or hits thread t, which stops once it is Ready.
  ghost predicate PushRuns(ws: seq<World>, vs: seq<Move>, t: nat, i: nat, k: nat) {
    && i <= k < |ws| && |ws| == |vs| + 1
    && forall n :: i <= n < k ==> Leaves(ws[n], vs[n], t) && (Own(vs[n], t) ==> NotReady(ws[n], t))
  }

  ghost predicate NotReady(w: World, t: nat) { t < |w.loc| && w.loc[t].pc != Ready }

  /** In every run, when thread t on CPU c holds a node, and no kernel event stops or hits it, it
      puts that node in front of the list of CPU c, after at most 5 + PUSH_BOUND moves of its own. */
  lemma {:induction false} UndisturbedPush(y: Layout, ws: seq<World>, vs: seq<Move>, t: nat, i: nat, k: nat,
                                           lists: seq<seq<Addr>>, held: seq<seq<Addr>>)
      returns (lists': seq<seq<Addr>>, held': seq<seq<Addr>>)
    requires PercpuList.IsRun(y, ws, vs) && PushRuns(ws, vs, t, i, k) && Inv(y, ws[i], lists, held)
    requires t < |ws[i].loc| && ws[i].loc[t].pc == Holding && t < |ws[i].s.th| && ws[i].s.th[t].reg
    requires 0 <= ws[i].s.th[t].on < |lists|
    ensures var (c, n) := (ws[i].s.th[t].on, ws[i].loc[t].node);
            && Inv(y, ws[k], lists', held') && Pushes(y, ws[k], t, c, n, lists[c], lists', held')
            && OwnMoves(vs, t, i, k) + PushRank(ws[k], t) <= 5 + PUSH_BOUND
            && (OwnMoves(vs, t, i, k) == 5 + PUSH_BOUND ==> ws[k].loc[t].pc == Ready)
            && (ws[k].loc[t].pc == Ready ==> lists'[c] == [n] + lists[c])
    decreases k
  {
    hide Inv, Content, Do, CanMove, Initial;
    var (c, n) := (ws[i].s.th[t].on, ws[i].loc[t].node);
    if k == i {
      assert Pushes(y, ws[i], t, c, n, lists[c], lists, held) by { PushStarts(y, ws[i], t, c, lists, held); }
      lists', held' := lists, held;
    } else {
      lists', held' := UndisturbedPush(y, ws, vs, t, i, k - 1, lists, held);
      assert CanMove(y, ws[k - 1], vs[k - 1]) && ws[k] == Do(y, ws[k - 1], vs[k - 1]);
      lists', held' := MoveKeepsPush(y, ws[k - 1], vs[k - 1], t, c, n, lists[c], lists', held');
    }
  }

  lemma PushStarts(y: Layout, w: World, t: nat, c: nat, lists: seq<seq<Addr>>, held: seq<seq<Addr>>)
    requires Inv(y, w, lists, held) && t < |w.loc| && w.loc[t].pc == Holding && t < |w.s.th| && w.s.th[t].reg
    requires w.s.th[t].on == c < |lists|
    ensures Pushes(y, w, t, c, w.loc[t].node, lists[c], lists, held)
  {
  }

  // ---------------------------------------------------------------- how iterations end

  /** In every run, when a pop gives up, there was a moment during its call when the list it asked
      for was empty. */
  lemma GivesUpOnEmpty(y: Layout, ws: seq<World>, vs: seq<Move>, k: nat, t: nat)
      returns (j: nat, lists: seq<seq<Addr>>, held: seq<seq<Addr>>)
    requires PercpuList.IsRun(y, ws, vs) && k < |vs| && vs[k].C? && vs[k].t == t < |ws[k].loc| && t < |ws[k + 1].loc|
    requires ws[k].loc[t].pc == Popping && ws[k + 1].loc[t].pc == Ready
    ensures j < k && Inv(y, ws[j], lists, held) && 0 <= ws[k].loc[t].cpu < |lists| && lists[ws[k].loc[t].cpu] == []
  {
    var i;
    i, j := GivesUpAt(y, ws, vs, k, t);
    var lists', held' := PercpuList.RunKeepsInv(y, ws, vs, k);
    assert LocalOk(y, ws[k].s.th[t], ws[k].loc[t], ws[k].s.mem, t, ws[k].s.nCpus, held'[t]);
    lists, held := PercpuList.RunKeepsInv(y, ws, vs, j);
    hide Inv, LocalOk;
    CpusStay(y, ws, vs, j, k);
    EmptyHead(y, ws[j], ws[k].loc[t].cpu, lists, held);
  }

  lemma PopGaveUp(y: Layout, w: World, v: Move, t: nat, lists: seq<seq<Addr>>, held: seq<seq<Addr>>)
    requires Inv(y, w, lists, held) && CanMove(y, w, v) && v.C? && v.t == t < |w.loc| && w.loc[t].pc == Popping
    requires t < |Do(y, w, v).loc| && Do(y, w, v).loc[t].pc == Ready
    ensures StepOf(y, w, v) == Return(t) && t < |w.s.th| && w.s.th[t].act.Busy? && w.s.th[t].act.pc.Exit?
    ensures w.s.th[t].act.call.CbeqStoreAddLoadStore? && ReturnValue(w.s.th[t].act.pc.l) == 1
  {
    assert LocalOk(y, w.s.th[t], w.loc[t], w.s.mem, t, w.s.nCpus, held[t]);
  }

  // The step at which the helper of a pop that gives up found the head NULL.
  lemma GivesUpAt(y: Layout, ws: seq<World>, vs: seq<Move>, k: nat, t: nat) returns (i: nat, j: nat)
    requires PercpuList.IsRun(y, ws, vs) && k < |vs| && vs[k].C? && vs[k].t == t < |ws[k].loc| && t < |ws[k + 1].loc|
    requires ws[k].loc[t].pc == Popping && ws[k + 1].loc[t].pc == Ready
    ensures i < j < k && t < |ws[k].s.th| && ws[k].s.th[t].act.Busy? && ws[k].s.th[t].act.call.CbeqStoreAddLoadStore?
    ensures Get(ws[j].s.mem, ws[k].s.th[t].act.call.v) == ws[k].s.th[t].act.call.avoid
  {
    var (ss, ps) := (States(ws), Steps(y, ws, vs));
    RunIsQuiet(y, ws, vs);
    var lists, held := PercpuList.RunKeepsInv(y, ws, vs, k);
    PopGaveUp(y, ws[k], vs[k], t, lists, held);
    hide Inv, PercpuList.IsRun, Atomicity.IsRun, QuietRun, CanMove, Do;
    i, j := OneIsRefused(ss, ps, k);
  }

  lemma EmptyHead(y: Layout, w: World, c: int, lists: seq<seq<Addr>>, held: seq<seq<Addr>>)
    requires Inv(y, w, lists, held) && 0 <= c < w.s.nCpus && Get(w.s.mem, Head(y, c)) == 0
    ensures 0 <= c < |lists| && lists[c] == []
  {
    assert Chain(w.s.mem, Get(w.s.mem, Head(y, c)), lists[c]);
  }

  lemma {:induction false} CpusStay(y: Layout, ws: seq<World>, vs: seq<Move>, j: nat, k: nat)
    requires PercpuList.IsRun(y, ws, vs) && j <= k < |ws|
    ensures ws[k].s.nCpus == ws[j].s.nCpus
    decreases k
  {
    if j < k {
      CpusStay(y, ws, vs, j, k - 1);
      assert ws[k] == Do(y, ws[k - 1], vs[k - 1]);
    }
  }

  /** An iteration ends in one of two ways: its pop gave up, or its push has put the node back. */
  lemma IterationEnds(y: Layout, ws: seq<World>, vs: seq<Move>, k: nat, t: nat)
    requires PercpuList.IsRun(y, ws, vs) && k < |vs| && t < |ws[k].loc| && t < |ws[k + 1].loc|
    requires ws[k].loc[t].pc != Ready && ws[k + 1].loc[t].pc == Ready
    ensures vs[k].C? && vs[k].t == t && t < |ws[k].s.th|
    ensures var (x, l) := (ws[k].s.th[t], ws[k].loc[t]);
            && x.act.Busy? && x.act.pc.Exit?
            && ((l.pc == Popping && ReturnValue(x.act.pc.l) == 1) || (l.pc == Pushing && x.act.commits == 1))
  {
    var lists, held := PercpuList.RunKeepsInv(y, ws, vs, k);
    assert ws[k + 1] == Do(y, ws[k], vs[k]);
    if vs[k].C? && vs[k].t == t {
      assert ThreadOk(ws[k].s.th[t], ws[k].s.nCpus);
      assert LocalOk(y, ws[k].s.th[t], ws[k].loc[t], ws[k].s.mem, t, ws[k].s.nCpus, held[t]);
    }
  }

  /** A thread asks for the CPU it is on. */
  lemma AsksForItsCpu(y: Layout, w: World, v: Move, lists: seq<seq<Addr>>, held: seq<seq<Addr>>)
    requires Inv(y, w, lists, held) && CanMove(y, w, v) && v.C? && w.loc[v.t].pc in {Ready, Retry, Holding}
    ensures w.s.th[v.t].reg ==> Do(y, w, v).loc[v.t].cpu == w.s.th[v.t].on
  {
    assert ThreadOk(w.s.th[v.t], w.s.nCpus);
  }

  lemma Asks(y: Layout, w: World, u: Move)
    requires CanMove(y, w, u) && u.C? && w.loc[u.t].pc in {Ready, Retry, Holding}
    ensures Do(y, w, u).loc[u.t].cpu == CpuStart(w.s.th[u.t])
  {
  }

  lemma FailureReturns(y: Layout, w: World, v: Move)
    requires CanMove(y, w, v) && v.C? && w.loc[v.t].pc in {Popping, Pushing}
    requires ReturnValue(w.s.th[v.t].act.pc.l) != 0
    ensures var w' := Do(y, w, v);
            && v.t < |w'.loc| && v.t < |w'.s.th| && w'.loc[v.t].pc in {Ready, Retry, Holding}
            && w'.s.th[v.t] == w.s.th[v.t].(act := Idle)
  {
  }

  /** A call that failed is not repeated for the CPU it was made for: the next statement asks for the CPU the
      thread is on by then. */
  lemma StartsOver(y: Layout, w: World, v: Move, u: Move, lists: seq<seq<Addr>>, held: seq<seq<Addr>>)
    requires Inv(y, w, lists, held) && CanMove(y, w, v) && v.C? && w.loc[v.t].pc in {Popping, Pushing}
    requires ReturnValue(w.s.th[v.t].act.pc.l) != 0
    requires CanMove(y, Do(y, w, v), u) && u.C? && u.t == v.t && w.s.th[v.t].reg
    ensures Do(y, w, v).loc[v.t].pc in {Ready, Retry, Holding}
    ensures Do(y, Do(y, w, v), u).loc[v.t].cpu == w.s.th[v.t].on
  {
    assert ThreadOk(w.s.th[v.t], w.s.nCpus);
    hide Inv, Content, KInv, SInv, Do, CanMove;
    FailureReturns(y, w, v);
    Asks(y, Do(y, w, v), u);
  }

  /** Every push and pop call of a registered thread that asks for the CPU it is on, and that no event
      hits, returns what the pseudo-code returns. */
  lemma UndisturbedReturns(y: Layout, ws: seq<World>, vs: seq<Move>, t: nat, i: nat, k: nat) returns (j: nat)
    requires PercpuList.IsRun(y, ws, vs) && Undisturbed(States(ws), Steps(y, ws, vs), t, i, k)
    requires k < |ws| && HasLeft(ws[k].s, t)
    ensures ReturnsPseudo(States(ws), Steps(y, ws, vs), t, i, k, j)
  {
    RunIsQuiet(y, ws, vs);
    j := Returns.UndisturbedReturns(States(ws), Steps(y, ws, vs), t, i, k);
  }
}
