/**
 A pop from, or a push to, a per-CPU buffer that no kernel event hits: however the other threads move in
 between, it takes the top item, or puts its item on top, after boundedly many moves of its own.  And
 in every run a pop gives up exactly on an empty buffer.
 */
module BufferProgress {
  import opened Machine
  import opened Sections
  import opened Atomicity
  import opened Conservation
  import opened PercpuBuffer
  import opened Returns

  // The move is no kernel event that stops or hits thread t.
  ghost predicate Leaves(w: World, v: Move, t: nat) {
    v.K? && t < |w.s.th| ==> Passes(w.s, v.e, t)
  }

  // The move is one of thread t.
  predicate Own(v: Move, t: nat) { !v.K? && v.t == t }

  // The word of the top item where items are pointers.
  ghost predicate Top(y: Layout, l: Local, q: seq<Item>)
    requires q != []
  {
    l.want == |q| && (y.kind.Pointers? ==> q[|q| - 1] == [l.node])
  }

  /** Thread t, on CPU c, is about to pop or popping the top of the buffer q of that CPU, or has done so
      and holds it. */
  ghost predicate Pops(y: Layout, w: World, t: nat, c: nat, q: seq<Item>, bufs: seq<seq<Item>>, held: seq<seq<Item>>) {
    && q != [] && t < |held| && |held| == |w.loc| == |w.s.th| && c < |bufs| && w.s.th[t].reg && w.s.th[t].on == c
    && var (x, l) := (w.s.th[t], w.loc[t]);
       && (l.pc !in {Ready, Retry} ==> l.cpu == c)
       && match l.pc
          case Ready => bufs[c] == q
          case Retry => bufs[c] == q
          case PopCpu => bufs[c] == q
          case PopRead => bufs[c] == q && l.want == |q|
          case PopLoaded => bufs[c] == q && Top(y, l, q)
          case Popping =>
            && x.act.Busy? && Top(y, l, q)
            && (if x.act.pc.At? then bufs[c] == q else x.act.pc.l == Ok && Popped(t, c, q, bufs, held))
          case Holding => Popped(t, c, q, bufs, held)
          case _ => false
  }

  ghost predicate Popped(t: nat, c: nat, q: seq<Item>, bufs: seq<seq<Item>>, held: seq<seq<Item>>)
    requires q != [] && t < |held| && c < |bufs|
  {
    bufs[c] == q[..|q| - 1] && held[t] == [q[|q| - 1]]
  }

  // ---------------------------------------------------------------- moves of others

  // Another thread runs on another CPU, and changes neither this buffer nor this hand.
  lemma OtherSpares(y: Layout, w: World, v: Move, t: nat, bufs: seq<seq<Item>>, held: seq<seq<Item>>,
                    bufs': seq<seq<Item>>, held': seq<seq<Item>>)
    requires KInv(w.s) && v.I? && v.t != t && t < |held| == |w.s.th| == |w.loc| && v.t < |held|
    requires CanStep(w.s.th[v.t]) && 0 <= w.s.th[t].on < |bufs|
    requires After(w, v.t, bufs, held, bufs', held')
    ensures |bufs'| == |bufs| && |held'| == |held|
    ensures bufs'[w.s.th[t].on] == bufs[w.s.th[t].on] && held'[t] == held[t]
  {
  }

  lemma StepSparesThread(y: Layout, w: World, v: Move, t: nat)
    requires CanMove(y, w, v) && t < |w.s.th| == |w.loc| && !Own(v, t) && Leaves(w, v, t)
    ensures var w' := Do(y, w, v); |w'.s.th| == |w'.loc| == |w.loc| && w'.s.th[t] == w.s.th[t] && w'.loc[t] == w.loc[t]
  {
    if v.K? { KernelSpares(w.s, v.e, t); }
  }

  // Thread t, its buffer and its hand are as they were.
  ghost predicate Same(w: World, w': World, t: nat, c: nat, bufs: seq<seq<Item>>, held: seq<seq<Item>>,
                       bufs': seq<seq<Item>>, held': seq<seq<Item>>) {
    && t < |w.loc| == |w.s.th| == |w'.loc| == |w'.s.th| == |held| == |held'| && c < |bufs| == |bufs'|
    && w'.s.th[t] == w.s.th[t] && w'.loc[t] == w.loc[t] && bufs'[c] == bufs[c] && held'[t] == held[t]
  }

  lemma SameKeepsPop(y: Layout, w: World, w': World, t: nat, c: nat, q: seq<Item>, bufs: seq<seq<Item>>,
                     held: seq<seq<Item>>, bufs': seq<seq<Item>>, held': seq<seq<Item>>)
    requires Pops(y, w, t, c, q, bufs, held) && Same(w, w', t, c, bufs, held, bufs', held')
    ensures Pops(y, w', t, c, q, bufs', held')
  {
  }

  // A move that is not one of thread t, on CPU c, and passes it.
  lemma OtherIsSame(y: Layout, w: World, v: Move, t: nat, c: nat, all: multiset<Item>, bufs: seq<seq<Item>>,
                    held: seq<seq<Item>>) returns (bufs': seq<seq<Item>>, held': seq<seq<Item>>)
    requires Inv(y, w, all, bufs, held) && CanMove(y, w, v) && !Own(v, t) && Leaves(w, v, t)
    requires t < |w.s.th| == |w.loc| == |held| && c < |bufs| && w.s.th[t].on == c
    ensures Inv(y, Do(y, w, v), all, bufs', held') && Same(w, Do(y, w, v), t, c, bufs, held, bufs', held')
  {
    StepSparesThread(y, w, v, t);
    bufs', held' := MoveKeepsInv(y, w, v, all, bufs, held);
    if v.I? { OtherSpares(y, w, v, t, bufs, held, bufs', held'); }
    hide Inv, Content, Do, After;
  }

  lemma OtherKeepsPop(y: Layout, w: World, v: Move, t: nat, c: nat, q: seq<Item>, all: multiset<Item>,
                      bufs: seq<seq<Item>>, held: seq<seq<Item>>)
      returns (bufs': seq<seq<Item>>, held': seq<seq<Item>>)
    requires Inv(y, w, all, bufs, held) && CanMove(y, w, v) && Pops(y, w, t, c, q, bufs, held)
    requires !Own(v, t) && Leaves(w, v, t)
    ensures Inv(y, Do(y, w, v), all, bufs', held') && Pops(y, Do(y, w, v), t, c, q, bufs', held')
  {
    bufs', held' := OtherIsSame(y, w, v, t, c, all, bufs, held);
    hide Inv, Do, CanMove;
    SameKeepsPop(y, w, Do(y, w, v), t, c, q, bufs, held, bufs', held');
  }

  // ---------------------------------------------------------------- its own moves

  // The section of the pop finds the offset and the slot as it read them.
  lemma PopIsNotRefused(y: Layout, w: World, t: nat, c: nat, q: seq<Item>, all: multiset<Item>,
                        bufs: seq<seq<Item>>, held: seq<seq<Item>>)
    requires Content(y, w, all, bufs, held) && Pops(y, w, t, c, q, bufs, held)
    requires w.loc[t].pc == Popping && w.s.th[t].act.pc.At?
    ensures w.s.th[t].act.call == PopCall(y, w.loc[t], t) && Pseudo(w.s.th[t].act.call, w.s.mem).1 == 0
  {
    var l := w.loc[t];
    assert LocalOk(y, w.s.th[t], l, w.s.mem, t, held[t]);
    assert Holds(y, w.s.mem, c, q);
    assert q[|q| - 1] == ItemAt(y.kind, w.s.mem, Slot(y, c, |q| - 1));
  }

  lemma OwnInstruction(y: Layout, w: World, t: nat, c: nat, q: seq<Item>, all: multiset<Item>,
                       bufs: seq<seq<Item>>, held: seq<seq<Item>>)
    requires Inv(y, w, all, bufs, held) && Pops(y, w, t, c, q, bufs, held) && CanStep(w.s.th[t])
    ensures var (x, x') := (w.s.th[t], Instruction(w.s, t).th[t]);
            && x'.reg && x'.on == x.on && x'.act.Busy? && Rank(x'.act) < Rank(x.act) && w.loc[t].pc == Popping
            && (if BeforeCommit(x) then x'.act.pc.At? <==> x.act.pc.At? else x.act.pc.At? && !x'.act.pc.At?)
            && (!x'.act.pc.At? ==> x'.act.pc.l == Ok)
  {
    var x := w.s.th[t];
    assert ThreadOk(x, w.s.nCpus) && SThread(x, w.s.mem) && LocalOk(y, x, w.loc[t], w.s.mem, t, held[t]);
    if x.act.pc.At? {
      RankDecreases(x.act, w.s.twice, x.cpuId, w.s.mem);
      PopIsNotRefused(y, w, t, c, q, all, bufs, held);
      if BeforeCommit(x) {
        GoesOnUnlessRefused(x.act, w.s.twice, x.cpuId, w.s.mem);
      } else {
        CommitStep(x.act, w.s.twice, x.cpuId, w.s.mem);
      }
    }
  }

  lemma OwnInstructionPops(y: Layout, w: World, t: nat, c: nat, q: seq<Item>, all: multiset<Item>,
                           bufs: seq<seq<Item>>, held: seq<seq<Item>>)
      returns (bufs': seq<seq<Item>>, held': seq<seq<Item>>)
    requires Inv(y, w, all, bufs, held) && CanMove(y, w, I(t)) && Pops(y, w, t, c, q, bufs, held)
    ensures var w' := Do(y, w, I(t));
            && Inv(y, w', all, bufs', held') && Pops(y, w', t, c, q, bufs', held')
            && Rank(w'.s.th[t].act) < Rank(w.s.th[t].act) && w'.loc[t].pc == w.loc[t].pc == Popping
  {
    OwnInstruction(y, w, t, c, q, all, bufs, held);
    bufs', held' := MoveKeepsInv(y, w, I(t), all, bufs, held);
    assert |Do(y, w, I(t)).s.th| == |w.s.th|;
    hide Inv, Content, Rank, BeforeCommit, Instruction;
  }

  /** Moves a pop has left at most. */
  ghost function PopRank(y: Layout, w: World, t: nat): nat
    requires t < |w.loc| && t < |w.s.th|
  {
    match w.loc[t].pc
    case Ready => 5 + PopBound(y)
    case Retry => 5 + PopBound(y)
    case PopCpu => 4 + PopBound(y)
    case PopRead => 3 + PopBound(y)
    case PopLoaded => 2 + PopBound(y)
    case Popping => 1 + Rank(w.s.th[t].act)
    case _ => 0
  }

  // Instructions of the helper that a pop calls.
  ghost function PopBound(y: Layout): nat { if y.kind.Pointers? then 11 else 15 + 5 * RECORD }

  lemma PopCallBound(y: Layout, l: Local, t: nat)
    requires 0 <= l.cpu < |y.arr| && t < |y.item|
    ensures Bound(PopCall(y, l, t)) == PopBound(y)
  {
  }

  // A C statement of the pop that only reads.
  lemma OwnRead(y: Layout, w: World, v: Move, t: nat, c: nat, q: seq<Item>, bufs: seq<seq<Item>>, held: seq<seq<Item>>)
    requires v.C? && v.t == t && CanMove(y, w, v) && Pops(y, w, t, c, q, bufs, held)
    requires w.s.th[t].cpuId == c && c < |y.arr| && Holds(y, w.s.mem, c, q)
    requires w.loc[t].pc in {Ready, Retry, PopCpu, PopRead}
    ensures Pops(y, Do(y, w, v), t, c, q, bufs, held) && PopRank(y, Do(y, w, v), t) < PopRank(y, w, t)
  {
    assert q[|q| - 1] == ItemAt(y.kind, w.s.mem, Slot(y, c, |q| - 1));
    hide Holds;
  }

  // ... that enters the helper or comes back from it.
  lemma OwnCall(y: Layout, w: World, v: Move, t: nat, c: nat, q: seq<Item>, bufs: seq<seq<Item>>, held: seq<seq<Item>>)
    requires v.C? && v.t == t && CanMove(y, w, v) && Pops(y, w, t, c, q, bufs, held)
    requires w.loc[t].pc in {PopLoaded, Popping}
    ensures Pops(y, Do(y, w, v), t, c, q, bufs, held) && PopRank(y, Do(y, w, v), t) < PopRank(y, w, t)
  {
    var l := w.loc[t];
    if l.pc == PopLoaded {
      EnterRank(PopCall(y, l, t), l.cpu, v.site, v.junk);
      PopCallBound(y, l, t);
    }
  }

  lemma OwnStatement(y: Layout, w: World, v: Move, t: nat, c: nat, q: seq<Item>, all: multiset<Item>,
                     bufs: seq<seq<Item>>, held: seq<seq<Item>>)
    requires Inv(y, w, all, bufs, held) && v.C? && v.t == t && CanMove(y, w, v) && Pops(y, w, t, c, q, bufs, held)
    requires w.loc[t].pc != Holding
    ensures Pops(y, Do(y, w, v), t, c, q, bufs, held) && PopRank(y, Do(y, w, v), t) < PopRank(y, w, t)
  {
    assert ThreadOk(w.s.th[t], w.s.nCpus) && c < |y.arr| && Holds(y, w.s.mem, c, bufs[c]);
    hide Inv, Content, Do, PopRank, Holds;
    if w.loc[t].pc in {PopLoaded, Popping} {
      OwnCall(y, w, v, t, c, q, bufs, held);
    } else {
      OwnRead(y, w, v, t, c, q, bufs, held);
    }
  }

  /** Every move that is no kernel event against thread t keeps its pop on course, and its own moves
      bring it nearer to its end. */
  lemma MoveKeepsPop(y: Layout, w: World, v: Move, t: nat, c: nat, q: seq<Item>, all: multiset<Item>,
                     bufs: seq<seq<Item>>, held: seq<seq<Item>>)
      returns (bufs': seq<seq<Item>>, held': seq<seq<Item>>)
    requires Inv(y, w, all, bufs, held) && CanMove(y, w, v) && Pops(y, w, t, c, q, bufs, held) && Leaves(w, v, t)
    requires Own(v, t) ==> w.loc[t].pc != Holding
    ensures var w' := Do(y, w, v);
            && Inv(y, w', all, bufs', held') && Pops(y, w', t, c, q, bufs', held')
            && PopRank(y, w', t) + (if Own(v, t) then 1 else 0) <= PopRank(y, w, t)
  {
    if !Own(v, t) {
      StepSparesThread(y, w, v, t);
      bufs', held' := OtherKeepsPop(y, w, v, t, c, q, all, bufs, held);
    } else if v.I? {
      bufs', held' := OwnInstructionPops(y, w, t, c, q, all, bufs, held);
    } else {
      OwnStatement(y, w, v, t, c, q, all, bufs, held);
      bufs', held' := MoveKeepsInv(y, w, v, all, bufs, held);
    }
  }

  // ---------------------------------------------------------------- whole runs

  // Moves of thread t from the i-th on, before the k-th.
  ghost function OwnMoves(vs: seq<Move>, t: nat, i: nat, k: nat): nat
    requires i <= k <= |vs|
  {
    if k == i then 0 else OwnMoves(vs, t, i, k - 1) + if Own(vs[k - 1], t) then 1 else 0
  }

  /** From state i to state k no kernel event stops or hits thread t, and it does not go on once it
      holds an item. */
  ghost predicate PopRuns(ws: seq<World>, vs: seq<Move>, t: nat, i: nat, k: nat) {
    && i <= k < |ws| && |ws| == |vs| + 1
    && forall n :: i <= n < k ==> Leaves(ws[n], vs[n], t) && (Own(vs[n], t) ==> NotHolding(ws[n], t))
  }

  ghost predicate NotHolding(w: World, t: nat) { t < |w.loc| && w.loc[t].pc != Holding }

  /** In every run, when thread t is between two iterations on CPU c whose buffer has items, and no
      kernel event stops or hits it, it goes on to pop, and pops, exactly the top item, and is done
      after at most 5 + PopBound moves of its own, whatever the others do meanwhile. */
  lemma {:induction false} UndisturbedPop(y: Layout, all: multiset<Item>, ws: seq<World>, vs: seq<Move>,
                                          t: nat, i: nat, k: nat, bufs: seq<seq<Item>>, held: seq<seq<Item>>)
      returns (bufs': seq<seq<Item>>, held': seq<seq<Item>>)
    requires PercpuBuffer.IsRun(y, all, ws, vs) && PopRuns(ws, vs, t, i, k) && Inv(y, ws[i], all, bufs, held)
    requires t < |ws[i].loc| && ws[i].loc[t].pc == Ready && t < |ws[i].s.th| && ws[i].s.th[t].reg
    requires 0 <= ws[i].s.th[t].on < |bufs| && bufs[ws[i].s.th[t].on] != []
    ensures var c := ws[i].s.th[t].on;
            && Inv(y, ws[k], all, bufs', held') && Pops(y, ws[k], t, c, bufs[c], bufs', held')
            && OwnMoves(vs, t, i, k) + PopRank(y, ws[k], t) <= 5 + PopBound(y)
            && (ws[k].loc[t].pc == Holding ==> Popped(t, c, bufs[c], bufs', held'))
            && (OwnMoves(vs, t, i, k) == 5 + PopBound(y) ==> ws[k].loc[t].pc == Holding)
    decreases k
  {
    hide Inv, Content, Do, CanMove, Initial;
    var c := ws[i].s.th[t].on;
    if k == i {
      assert Pops(y, ws[i], t, c, bufs[c], bufs, held) by { PopStarts(y, ws[i], t, c, all, bufs, held); }
      bufs', held' := bufs, held;
    } else {
      bufs', held' := UndisturbedPop(y, all, ws, vs, t, i, k - 1, bufs, held);
      assert CanMove(y, ws[k - 1], vs[k - 1]) && ws[k] == Do(y, ws[k - 1], vs[k - 1]);
      bufs', held' := MoveKeepsPop(y, ws[k - 1], vs[k - 1], t, c, bufs[c], all, bufs', held');
    }
  }

  lemma PopStarts(y: Layout, w: World, t: nat, c: nat, all: multiset<Item>, bufs: seq<seq<Item>>, held: seq<seq<Item>>)
    requires Inv(y, w, all, bufs, held) && t < |w.loc| && w.loc[t].pc == Ready && t < |w.s.th| && w.s.th[t].reg
    requires w.s.th[t].on == c < |bufs| && bufs[c] != []
    ensures Pops(y, w, t, c, bufs[c], bufs, held)
  {
  }

  // ---------------------------------------------------------------- push

  /** Thread t, on CPU c, is about to push or pushing the item it on top of the buffer q of that CPU, or
      has done so. */
  ghost predicate Pushes(y: Layout, w: World, t: nat, c: nat, it: Item, q: seq<Item>,
                         bufs: seq<seq<Item>>, held: seq<seq<Item>>) {
    && t < |held| && |held| == |w.loc| == |w.s.th| && c < |bufs| && w.s.th[t].reg && w.s.th[t].on == c
    && |q| < y.cap
    && var (x, l) := (w.s.th[t], w.loc[t]);
       && (l.pc !in {Ready, Holding} ==> l.cpu == c)
       && match l.pc
          case Holding => bufs[c] == q && held[t] == [it]
          case PushCpu => bufs[c] == q && held[t] == [it]
          case PushRead => bufs[c] == q && held[t] == [it] && l.want == |q|
          case Pushing =>
            && x.act.Busy? && l.want == |q|
            && (if x.act.pc.At? then bufs[c] == q && held[t] == [it] else x.act.pc.l == Ok && bufs[c] == q + [it])
          case Ready => bufs[c] == q + [it]
          case _ => false
  }

  lemma SameKeepsPush(y: Layout, w: World, w': World, t: nat, c: nat, it: Item, q: seq<Item>, bufs: seq<seq<Item>>,
                      held: seq<seq<Item>>, bufs': seq<seq<Item>>, held': seq<seq<Item>>)
    requires Pushes(y, w, t, c, it, q, bufs, held) && Same(w, w', t, c, bufs, held, bufs', held')
    ensures Pushes(y, w', t, c, it, q, bufs', held')
  {
  }

  lemma OtherKeepsPush(y: Layout, w: World, v: Move, t: nat, c: nat, it: Item, q: seq<Item>, all: multiset<Item>,
                       bufs: seq<seq<Item>>, held: seq<seq<Item>>)
      returns (bufs': seq<seq<Item>>, held': seq<seq<Item>>)
    requires Inv(y, w, all, bufs, held) && CanMove(y, w, v) && Pushes(y, w, t, c, it, q, bufs, held)
    requires !Own(v, t) && Leaves(w, v, t)
    ensures Inv(y, Do(y, w, v), all, bufs', held') && Pushes(y, Do(y, w, v), t, c, it, q, bufs', held')
  {
    bufs', held' := OtherIsSame(y, w, v, t, c, all, bufs, held);
    hide Inv, Do, CanMove;
    SameKeepsPush(y, w, Do(y, w, v), t, c, it, q, bufs, held, bufs', held');
  }

  // The section of the push finds the offset as it read it.
  lemma PushIsNotRefused(y: Layout, w: World, t: nat, c: nat, it: Item, q: seq<Item>, all: multiset<Item>,
                         bufs: seq<seq<Item>>, held: seq<seq<Item>>)
    requires Content(y, w, all, bufs, held) && Pushes(y, w, t, c, it, q, bufs, held)
    requires w.loc[t].pc == Pushing && w.s.th[t].act.pc.At?
    ensures Pseudo(w.s.th[t].act.call, w.s.mem).1 == 0
  {
    assert LocalOk(y, w.s.th[t], w.loc[t], w.s.mem, t, held[t]);
    assert Holds(y, w.s.mem, c, q);
  }

  lemma OwnInstructionPushes(y: Layout, w: World, t: nat, c: nat, it: Item, q: seq<Item>, all: multiset<Item>,
                             bufs: seq<seq<Item>>, held: seq<seq<Item>>)
    requires Inv(y, w, all, bufs, held) && Pushes(y, w, t, c, it, q, bufs, held) && CanStep(w.s.th[t])
    ensures var (x, x') := (w.s.th[t], Instruction(w.s, t).th[t]);
            && x'.reg && x'.on == x.on && x'.act.Busy? && Rank(x'.act) < Rank(x.act) && w.loc[t].pc == Pushing
            && (if BeforeCommit(x) then x'.act.pc.At? <==> x.act.pc.At? else x.act.pc.At? && !x'.act.pc.At?)
            && (!x'.act.pc.At? ==> x'.act.pc.l == Ok)
  {
    var x := w.s.th[t];
    assert ThreadOk(x, w.s.nCpus) && SThread(x, w.s.mem) && LocalOk(y, x, w.loc[t], w.s.mem, t, held[t]);
    if x.act.pc.At? {
      RankDecreases(x.act, w.s.twice, x.cpuId, w.s.mem);
      PushIsNotRefused(y, w, t, c, it, q, all, bufs, held);
      if BeforeCommit(x) {
        GoesOnUnlessRefused(x.act, w.s.twice, x.cpuId, w.s.mem);
      } else {
        CommitStep(x.act, w.s.twice, x.cpuId, w.s.mem);
      }
    }
  }

  lemma InstructionKeepsPush(y: Layout, w: World, t: nat, c: nat, it: Item, q: seq<Item>, all: multiset<Item>,
                             bufs: seq<seq<Item>>, held: seq<seq<Item>>)
      returns (bufs': seq<seq<Item>>, held': seq<seq<Item>>)
    requires Inv(y, w, all, bufs, held) && CanMove(y, w, I(t)) && Pushes(y, w, t, c, it, q, bufs, held)
    ensures var w' := Do(y, w, I(t));
            && Inv(y, w', all, bufs', held') && Pushes(y, w', t, c, it, q, bufs', held')
            && Rank(w'.s.th[t].act) < Rank(w.s.th[t].act) && w'.loc[t].pc == w.loc[t].pc == Pushing
  {
    OwnInstructionPushes(y, w, t, c, it, q, all, bufs, held);
    bufs', held' := MoveKeepsInv(y, w, I(t), all, bufs, held);
    assert |Do(y, w, I(t)).s.th| == |w.s.th|;
    hide Inv, Content, Rank, BeforeCommit, Instruction;
  }

  // Instructions of the helper that a push calls.
  ghost function PushBound(y: Layout): nat { if y.kind.Pointers? then 10 else 15 + 5 * RECORD }

  /** Moves a push has left at most. */
  ghost function PushRank(y: Layout, w: World, t: nat): nat
    requires t < |w.loc| && t < |w.s.th|
  {
    match w.loc[t].pc
    case Holding => 4 + PushBound(y)
    case PushCpu => 3 + PushBound(y)
    case PushRead => 2 + PushBound(y)
    case Pushing => 1 + Rank(w.s.th[t].act)
    case _ => 0
  }

  // A C statement of the push that only reads.
  lemma PushReads(y: Layout, w: World, v: Move, t: nat, c: nat, it: Item, q: seq<Item>,
                  bufs: seq<seq<Item>>, held: seq<seq<Item>>)
    requires v.C? && v.t == t && CanMove(y, w, v) && Pushes(y, w, t, c, it, q, bufs, held)
    requires w.s.th[t].cpuId == c && c < |y.arr| && Holds(y, w.s.mem, c, q) && w.loc[t].pc in {Holding, PushCpu}
    ensures Pushes(y, Do(y, w, v), t, c, it, q, bufs, held) && PushRank(y, Do(y, w, v), t) < PushRank(y, w, t)
  {
  }

  // ... that enters the helper or comes back from it.
  lemma PushCalls(y: Layout, w: World, v: Move, t: nat, c: nat, it: Item, q: seq<Item>,
                  bufs: seq<seq<Item>>, held: seq<seq<Item>>)
    requires v.C? && v.t == t && CanMove(y, w, v) && Pushes(y, w, t, c, it, q, bufs, held)
    requires w.loc[t].pc in {PushRead, Pushing}
    ensures Pushes(y, Do(y, w, v), t, c, it, q, bufs, held) && PushRank(y, Do(y, w, v), t) < PushRank(y, w, t)
  {
    if w.loc[t].pc == PushRead {
      EnterRank(PushCall(y, w.loc[t], t), w.loc[t].cpu, v.site, v.junk);
    }
  }

  lemma StatementKeepsPush(y: Layout, w: World, v: Move, t: nat, c: nat, it: Item, q: seq<Item>, all: multiset<Item>,
                           bufs: seq<seq<Item>>, held: seq<seq<Item>>)
    requires Inv(y, w, all, bufs, held) && v.C? && v.t == t && CanMove(y, w, v) && Pushes(y, w, t, c, it, q, bufs, held)
    requires w.loc[t].pc != Ready
    ensures Pushes(y, Do(y, w, v), t, c, it, q, bufs, held) && PushRank(y, Do(y, w, v), t) < PushRank(y, w, t)
  {
    assert ThreadOk(w.s.th[t], w.s.nCpus) && c < |y.arr| && Holds(y, w.s.mem, c, bufs[c]);
    hide Inv, Content, Do, PushRank, Holds;
    if w.loc[t].pc in {PushRead, Pushing} {
      PushCalls(y, w, v, t, c, it, q, bufs, held);
    } else {
      PushReads(y, w, v, t, c, it, q, bufs, held);
    }
  }

  /** ... and the same for a push. */
  lemma MoveKeepsPush(y: Layout, w: World, v: Move, t: nat, c: nat, it: Item, q: seq<Item>, all: multiset<Item>,
                      bufs: seq<seq<Item>>, held: seq<seq<Item>>)
      returns (bufs': seq<seq<Item>>, held': seq<seq<Item>>)
    requires Inv(y, w, all, bufs, held) && CanMove(y, w, v) && Pushes(y, w, t, c, it, q, bufs, held) && Leaves(w, v, t)
    requires Own(v, t) ==> w.loc[t].pc != Ready
    ensures var w' := Do(y, w, v);
            && Inv(y, w', all, bufs', held') && Pushes(y, w', t, c, it, q, bufs', held')
            && PushRank(y, w', t) + (if Own(v, t) then 1 else 0) <= PushRank(y, w, t)
  {
    if !Own(v, t) {
      StepSparesThread(y, w, v, t);
      bufs', held' := OtherKeepsPush(y, w, v, t, c, it, q, all, bufs, held);
    } else if v.I? {
      bufs', held' := InstructionKeepsPush(y, w, t, c, it, q, all, bufs, held);
    } else {
      StatementKeepsPush(y, w, v, t, c, it, q, all, bufs, held);
      bufs', held' := MoveKeepsInv(y, w, v, all, bufs, held);
    }
  }

  // From state i to state k no kernel event stops or hits thread t, which stops once it is Ready.
  ghost predicate PushRuns(ws: seq<World>, vs: seq<Move>, t: nat, i: nat, k: nat) {
    && i <= k < |ws| && |ws| == |vs| + 1
    && forall n :: i <= n < k ==> Leaves(ws[n], vs[n], t) && (Own(vs[n], t) ==> NotReady(ws[n], t))
  }

  ghost predicate NotReady(w: World, t: nat) { t < |w.loc| && w.loc[t].pc != Ready }

  /** In every run, when thread t on CPU c holds an item, that CPU's buffer has room, and no kernel
      event stops or hits it, it puts that item on top of that buffer, after at most 4 + PushBound
      moves of its own. */
  lemma {:induction false} UndisturbedPush(y: Layout, all: multiset<Item>, ws: seq<World>, vs: seq<Move>,
                                           t: nat, i: nat, k: nat, bufs: seq<seq<Item>>, held: seq<seq<Item>>)
      returns (bufs': seq<seq<Item>>, held': seq<seq<Item>>)
    requires PercpuBuffer.IsRun(y, all, ws, vs) && PushRuns(ws, vs, t, i, k) && Inv(y, ws[i], all, bufs, held)
    requires t < |ws[i].loc| && ws[i].loc[t].pc == Holding && t < |ws[i].s.th| && ws[i].s.th[t].reg
    requires 0 <= ws[i].s.th[t].on < |bufs| && |bufs[ws[i].s.th[t].on]| < y.cap
    ensures t < |held| && |held[t]| == 1
    ensures var (c, it) := (ws[i].s.th[t].on, held[t][0]);
            && Inv(y, ws[k], all, bufs', held') && Pushes(y, ws[k], t, c, it, bufs[c], bufs', held')
            && OwnMoves(vs, t, i, k) + PushRank(y, ws[k], t) <= 4 + PushBound(y)
            && (OwnMoves(vs, t, i, k) == 4 + PushBound(y) ==> ws[k].loc[t].pc == Ready)
            && (ws[k].loc[t].pc == Ready ==> bufs'[c] == bufs[c] + [it])
    decreases k
  {
    hide Inv, Content, Do, CanMove, Initial;
    var c := ws[i].s.th[t].on;
    PushStarts(y, ws[i], t, c, all, bufs, held);
    if k == i {
      bufs', held' := bufs, held;
    } else {
      bufs', held' := UndisturbedPush(y, all, ws, vs, t, i, k - 1, bufs, held);
      assert CanMove(y, ws[k - 1], vs[k - 1]) && ws[k] == Do(y, ws[k - 1], vs[k - 1]);
      bufs', held' := MoveKeepsPush(y, ws[k - 1], vs[k - 1], t, c, held[t][0], bufs[c], all, bufs', held');
    }
  }

  lemma PushStarts(y: Layout, w: World, t: nat, c: nat, all: multiset<Item>, bufs: seq<seq<Item>>, held: seq<seq<Item>>)
    requires Inv(y, w, all, bufs, held) && t < |w.loc| && w.loc[t].pc == Holding && t < |w.s.th| && w.s.th[t].reg
    requires w.s.th[t].on == c < |bufs| && |bufs[c]| < y.cap
    ensures t < |held| && |held[t]| == 1 && Pushes(y, w, t, c, held[t][0], bufs[c], bufs, held)
  {
    assert LocalOk(y, w.s.th[t], w.loc[t], w.s.mem, t, held[t]);
  }

  // ---------------------------------------------------------------- how iterations end

  /** In every run a pop gives up exactly when the buffer of the CPU it asked for is empty at that
      move. */
  lemma GivesUpIff(y: Layout, all: multiset<Item>, ws: seq<World>, vs: seq<Move>, k: nat)
      returns (bufs: seq<seq<Item>>, held: seq<seq<Item>>)
    requires PercpuBuffer.IsRun(y, all, ws, vs) && k < |vs| && vs[k].C? && vs[k].t < |ws[k].loc|
    requires ws[k].loc[vs[k].t].pc == PopCpu
    ensures var (t, l) := (vs[k].t, ws[k].loc[vs[k].t]);
            && Inv(y, ws[k], all, bufs, held) && 0 <= l.cpu < |bufs| && t < |ws[k + 1].loc|
            && (ws[k + 1].loc[t].pc == Ready <==> bufs[l.cpu] == [])
  {
    bufs, held := PercpuBuffer.RunKeepsInv(y, all, ws, vs, k);
    ReadsOffset(y, ws[k], vs[k], all, bufs, held);
  }

  // What the two reads of an offset find.
  lemma ReadsOffset(y: Layout, w: World, v: Move, all: multiset<Item>, bufs: seq<seq<Item>>, held: seq<seq<Item>>)
    requires Inv(y, w, all, bufs, held) && CanMove(y, w, v) && v.C?
    ensures var (l, l') := (w.loc[v.t], Do(y, w, v).loc[v.t]);
            && 0 <= l.cpu < |bufs| && |Do(y, w, v).loc| == |w.loc|
            && (l.pc == PopCpu ==> (l'.pc == Ready <==> bufs[l.cpu] == []))
            && (l.pc == PushCpu ==> (l'.pc == Full <==> |bufs[l.cpu]| == y.cap))
  {
    assert LocalOk(y, w.s.th[v.t], w.loc[v.t], w.s.mem, v.t, held[v.t]);
    assert Holds(y, w.s.mem, w.loc[v.t].cpu, bufs[w.loc[v.t].cpu]);
    hide Inv, Content, LocalOk;
  }

  /** ... and a push finds a full buffer exactly when that buffer has buflen items. */
  lemma FindsFullIff(y: Layout, all: multiset<Item>, ws: seq<World>, vs: seq<Move>, k: nat)
      returns (bufs: seq<seq<Item>>, held: seq<seq<Item>>)
    requires PercpuBuffer.IsRun(y, all, ws, vs) && k < |vs| && vs[k].C? && vs[k].t < |ws[k].loc|
    requires ws[k].loc[vs[k].t].pc == PushCpu
    ensures var (t, l) := (vs[k].t, ws[k].loc[vs[k].t]);
            && Inv(y, ws[k], all, bufs, held) && 0 <= l.cpu < |bufs| && t < |ws[k + 1].loc|
            && (ws[k + 1].loc[t].pc == Full <==> |bufs[l.cpu]| == y.cap)
  {
    bufs, held := PercpuBuffer.RunKeepsInv(y, all, ws, vs, k);
    ReadsOffset(y, ws[k], vs[k], all, bufs, held);
  }

  /** An iteration ends in one of two ways: its pop found the buffer empty, or its push has put the
      item back. */
  lemma IterationEnds(y: Layout, all: multiset<Item>, ws: seq<World>, vs: seq<Move>, k: nat, t: nat)
      returns (bufs: seq<seq<Item>>, held: seq<seq<Item>>)
    requires PercpuBuffer.IsRun(y, all, ws, vs) && k < |vs| && t < |ws[k].loc| && t < |ws[k + 1].loc|
    requires ws[k].loc[t].pc != Ready && ws[k + 1].loc[t].pc == Ready
    ensures Inv(y, ws[k], all, bufs, held) && vs[k].C? && vs[k].t == t && t < |held|
    ensures var (x, l) := (ws[k].s.th[t], ws[k].loc[t]);
            && 0 <= l.cpu < |bufs| && held[t] == []
            && ((l.pc == PopCpu && bufs[l.cpu] == []) || (l.pc == Pushing && x.act.Busy? && x.act.commits == 1))
  {
    bufs, held := PercpuBuffer.RunKeepsInv(y, all, ws, vs, k);
    assert ws[k + 1] == Do(y, ws[k], vs[k]);
    if vs[k].C? && vs[k].t == t {
      ReadsOffset(y, ws[k], vs[k], all, bufs, held);
      assert ThreadOk(ws[k].s.th[t], ws[k].s.nCpus) && LocalOk(y, ws[k].s.th[t], ws[k].loc[t], ws[k].s.mem, t, held[t]);
    }
  }

  /** A thread asks for the CPU it is on. */
  lemma AsksForItsCpu(y: Layout, w: World, v: Move, all: multiset<Item>, bufs: seq<seq<Item>>, held: seq<seq<Item>>)
    requires Inv(y, w, all, bufs, held) && CanMove(y, w, v) && v.C? && w.loc[v.t].pc in {Ready, Retry, Holding}
    ensures w.s.th[v.t].reg ==> Do(y, w, v).loc[v.t].cpu == w.s.th[v.t].on
  {
    assert ThreadOk(w.s.th[v.t], w.s.nCpus);
  }

  lemma Asks(y: Layout, w: World, u: Move)
    requires CanMove(y, w, u) && u.C? && w.loc[u.t].pc in {Ready, Retry, Holding}
    ensures Do(y, w, u).loc[u.t].cpu == CpuStart(w.s.th[u.t])
  {
  }

  lemma FailureReturns(y: Layout, w: World, v: Move)
    requires CanMove(y, w, v) && v.C? && w.loc[v.t].pc in {Popping, Pushing}
    requires ReturnValue(w.s.th[v.t].act.pc.l) != 0
    ensures var w' := Do(y, w, v);
            && v.t < |w'.loc| && v.t < |w'.s.th| && w'.loc[v.t].pc in {Ready, Retry, Holding}
            && w'.s.th[v.t] == w.s.th[v.t].(act := Idle)
  {
  }

  /** A call that failed is not repeated for the CPU it was made for: the next statement asks for the CPU the
      thread is on by then. */
  lemma StartsOver(y: Layout, w: World, v: Move, u: Move,
                   all: multiset<Item>, bufs: seq<seq<Item>>, held: seq<seq<Item>>)
    requires Inv(y, w, all, bufs, held) && CanMove(y, w, v) && v.C? && w.loc[v.t].pc in {Popping, Pushing}
    requires ReturnValue(w.s.th[v.t].act.pc.l) != 0
    requires CanMove(y, Do(y, w, v), u) && u.C? && u.t == v.t && w.s.th[v.t].reg
    ensures Do(y, w, v).loc[v.t].pc in {Ready, Retry, Holding}
    ensures Do(y, Do(y, w, v), u).loc[v.t].cpu == w.s.th[v.t].on
  {
    assert ThreadOk(w.s.th[v.t], w.s.nCpus);
    hide Inv, Content, KInv, SInv, Do, CanMove;
    FailureReturns(y, w, v);
    Asks(y, Do(y, w, v), u);
  }

  /** Every push and pop call of a registered thread that asks for the CPU it is on, and that no event
      hits, returns what the pseudo-code returns. */
  lemma UndisturbedReturns(y: Layout, all: multiset<Item>, ws: seq<World>, vs: seq<Move>, t: nat, i: nat, k: nat)
      returns (j: nat)
    requires PercpuBuffer.IsRun(y, all, ws, vs) && Undisturbed(States(ws), Steps(y, all, ws, vs), t, i, k)
    requires k < |ws| && HasLeft(ws[k].s, t)
    ensures ReturnsPseudo(States(ws), Steps(y, all, ws, vs), t, i, k, j)
  {
    RunIsQuiet(y, all, ws, vs);
    j := Returns.UndisturbedReturns(States(ws), Steps(y, all, ws, vs), t, i, k);
  }
}
