/**
 When a call returns what.  A call returns -1 only for a cause: it asked for a CPU the thread
 is not on, or the kernel hit the thread inside its section.  Without a cause it returns,
 after boundedly many instructions of its own, what the pseudo-code returns.
 */
module Returns {
  import opened Machine
  import opened Sections
  import opened Atomicity

  // ---------------------------------------------------------------- one instruction

  /** A helper takes its abort label only at the first cpu_id comparison, when it fails. */
  lemma AbortsAtCpuCheck(a: Act, twice: bool, cpuId: int, m: Mem)
    requires a.Busy? && a.pc.At? && ActOk(a)
    ensures var a' := Exec(a, twice, cpuId, m).0;
            !a'.pc.At? && a'.pc.l == Abort <==> a.pc.i == 2 && a.cpu != cpuId
  {
    FetchShape(a.call, twice, a.pc.i);
  }

  /** On the CPU asked for a section goes on to its commit unless the pseudo-code gives up. */
  lemma GoesOnUnlessRefused(a: Act, twice: bool, cpuId: int, m: Mem)
    requires a.Busy? && a.pc.At? && ActOk(a) && WellFormed(a.call) && Section(a, m) && a.cpu == cpuId
    requires a.pc.i < Len(a.call) - 1
    ensures Exec(a, twice, cpuId, m).0.pc.At? || Pseudo(a.call, m) == (m, 1)
  {
    var a' := Exec(a, twice, cpuId, m).0;
    AbortsAtCpuCheck(a, twice, cpuId, m);
    ExecKeepsSection(a, twice, cpuId, m);
    FetchShape(a.call, twice, a.pc.i);
    if !a'.pc.At? && a'.pc.l == Differs { BranchIsPseudo(a, twice, cpuId, m); }
  }

  /** A section whose pseudo-code gives up goes on or leaves through its "ne"/"eq" label; it never
      reaches its commit. */
  lemma RefusedDiffers(a: Act, twice: bool, cpuId: int, m: Mem)
    requires a.Busy? && a.pc.At? && ActOk(a) && WellFormed(a.call) && Section(a, m) && a.cpu == cpuId
    requires Pseudo(a.call, m).1 != 0
    ensures a.pc.i < Len(a.call) - 1
    ensures var a' := Exec(a, twice, cpuId, m).0; a'.pc.At? || a'.pc.l == Differs
  {
    if a.pc.i == Len(a.call) - 1 { CommitAtomicIff(a, twice, cpuId, m); }
    AbortsAtCpuCheck(a, twice, cpuId, m);
    ExecKeepsSection(a, twice, cpuId, m);
    FetchShape(a.call, twice, a.pc.i);
  }

  lemma EnterRank(c: Call, cpu: int, site: nat, junk: Regs)
    ensures Rank(Enter(c, cpu, site, junk)) == Bound(c)
  {
  }

  // Bytes a copy still has to do, from a count in a register.
  function Left(n: int): nat { if n > 0 then n else 0 }

  /** Instructions a call has left at most. */
  function Rank(a: Act): nat {
    if a.Idle? || a.pc.Exit? then 0
    else if a.pc.Tear? then 1
    else if a.pc.i >= Len(a.call) then 0
    else
      var straight := Len(a.call) - a.pc.i + 2;
      if !a.call.CbneMemcpyStore? || a.pc.i == 12 then straight
      else if a.pc.i <= 6 then straight + 5 * a.call.len
      else if !a.call.backward then straight + 5 * Left(a.r.len - 1)
      else if a.pc.i == 7 then straight + 4 * Left(a.r.len)
      else if a.pc.i == 8 then straight + 4 * Left(a.r.tmp - 1)
      else straight + 4 * Left(a.r.tmp)
  }

  // Instructions of a whole call at most.
  function Bound(c: Call): nat { Len(c) + 2 + if c.CbneMemcpyStore? then 5 * c.len else 0 }

  lemma RankDecreases(a: Act, twice: bool, cpuId: int, m: Mem)
    requires a.Busy? && a.pc.At? && ActOk(a) && (a.call.CbneMemcpyStore? ==> Section(a, m))
    requires a.pc.i >= 3 ==> a.cpu == cpuId
    ensures Rank(Exec(a, twice, cpuId, m).0) < Rank(a)
  {
    FetchShape(a.call, twice, a.pc.i);
  }

  // ---------------------------------------------------------------- whole calls

  // The event neither stops nor hits thread t.
  ghost predicate Passes(s: State, e: Event, t: nat)
    requires t < |s.th|
  {
    e != Preempt(t) && !Hits(s, e, t)
  }

  lemma KernelSpares(s: State, e: Event, t: nat)
    requires Enabled(s, e) && t < |s.th| && Passes(s, e, t)
    ensures |Kernel(s, e).th| == |s.th| && Kernel(s, e).th[t] == s.th[t]
  {
  }

  /** What made a call leave through its abort label at step j. */
  ghost predicate AbortCause(ss: seq<State>, ps: seq<Step>, t: nat, j: nat) {
    && j < |ps| < |ss| && t < |ss[j].th| && ss[j].th[t].act.Busy? && ss[j].th[t].act.pc.At?
    && var x := ss[j].th[t];
       || (ps[j] == User(t) && x.act.pc.i == 2 && x.act.cpu != x.cpuId)
       || (ps[j].Kern? && Hits(ss[j], ps[j].e, t) && x.reg && x.act.pc.i >= 2)
  }

  /** A call that left through its abort label did so for a cause. */
  lemma AbortHasCause(ss: seq<State>, ps: seq<Step>, t: nat, i: nat, k: nat) returns (j: nat)
    requires IsRun(ss, ps) && InCall(ss, ps, t, i, k) && !ss[k].th[t].act.pc.At? && ss[k].th[t].act.pc.l == Abort
    ensures i < j < k && AbortCause(ss, ps, t, j)
  {
    j := CallLeaves(ss, ps, t, i, k);
    assert Calling(ss[j], t, ps[i].c) && Calling(ss[j + 1], t, ps[i].c);
    RunKeepsKInv(ss, ps, j);
    LeavesForCause(ss[j], ps[j], t);
  }

  lemma LeavesForCause(s: State, p: Step, t: nat)
    requires KInv(s) && EnabledStep(s, p) && t < |s.th| && s.th[t].act.Busy? && s.th[t].act.pc.At?
    requires Apply(s, p).th[t].act.Busy? && !Apply(s, p).th[t].act.pc.At? && Apply(s, p).th[t].act.pc.l == Abort
    ensures var x := s.th[t];
            || (p == User(t) && x.act.pc.i == 2 && x.act.cpu != x.cpuId)
            || (p.Kern? && Hits(s, p.e, t) && x.reg && x.act.pc.i >= 2)
  {
    assert ThreadOk(s.th[t], s.nCpus);
    if p.Kern? {
      KernelAbortsIff(s, p.e, t);
    } else if p == User(t) {
      AbortsAtCpuCheck(s.th[t].act, s.twice, s.th[t].cpuId, s.mem);
    }
  }

  /** Thread t is registered, asks for the CPU it is on, and no event hits it from step i, which
      entered the call, to step k. */
  ghost predicate Undisturbed(ss: seq<State>, ps: seq<Step>, t: nat, i: nat, k: nat) {
    && InCall(ss, ps, t, i, k) && t < |ss[i].th| && ss[i].th[t].reg && ps[i].cpu == ss[i].th[t].cpuId
    && forall n :: i < n < k ==> Misses(ss[n], ps[n], t)
  }

  ghost predicate Misses(s: State, p: Step, t: nat) { p.Kern? && t < |s.th| ==> !Hits(s, p.e, t) }

  // Such a thread keeps its cpu_id field, and its call the CPU it asked for.
  lemma {:induction false} CpuStays(ss: seq<State>, ps: seq<Step>, t: nat, i: nat, k: nat, n: nat)
    requires IsRun(ss, ps) && Undisturbed(ss, ps, t, i, k) && i < n <= k
    ensures Calling(ss[n], t, ps[i].c) && ss[n].th[t].act.cpu == ss[n].th[t].cpuId
    decreases n
  {
    assert Calling(ss[n], t, ps[i].c) && ss[n] == Apply(ss[n - 1], ps[n - 1]);
    if n > i + 1 {
      CpuStays(ss, ps, t, i, k, n - 1);
      assert Misses(ss[n - 1], ps[n - 1], t);
      StepKeepsCpu(ss[n - 1], ps[n - 1], t);
    }
  }

  lemma StepKeepsCpu(s: State, p: Step, t: nat)
    requires EnabledStep(s, p) && t < |s.th| && s.th[t].act.Busy? && Misses(s, p, t)
    ensures |Apply(s, p).th| == |s.th| && Apply(s, p).th[t].cpuId == s.th[t].cpuId
    ensures Apply(s, p).th[t].act.Busy? ==> Apply(s, p).th[t].act.cpu == s.th[t].act.cpu
  {
    if p.Kern? {
      KernelAbortsIff(s, p.e, t);
      KernelKeepsCalls(s, p.e);
    }
  }

  // Instructions of thread t in the steps between i and k.
  ghost function OwnSteps(ps: seq<Step>, t: nat, i: nat, k: nat): nat
    requires i < k <= |ps|
  {
    if k == i + 1 then 0 else OwnSteps(ps, t, i, k - 1) + if ps[k - 1] == User(t) then 1 else 0
  }

  // A step uses up an instruction of thread t only when it is one.
  lemma StepUsesRank(s: State, p: Step, t: nat)
    requires KInv(s) && SInv(s) && EnabledStep(s, p) && t < |s.th| && s.th[t].act.Busy?
    requires Apply(s, p).th[t].act.Busy?
    ensures Rank(Apply(s, p).th[t].act) + (if p == User(t) then 1 else 0) <= Rank(s.th[t].act)
  {
    assert ThreadOk(s.th[t], s.nCpus) && SThread(s.th[t], s.mem);
    if p == User(t) {
      if s.th[t].act.pc.At? { RankDecreases(s.th[t].act, s.twice, s.th[t].cpuId, s.mem); }
    } else if p.Kern? {
      KernelSparesRank(s, p.e, t);
    }
  }

  lemma KernelSparesRank(s: State, e: Event, t: nat)
    requires Enabled(s, e) && t < |s.th| && s.th[t].act.Busy?
    ensures Rank(Kernel(s, e).th[t].act) <= Rank(s.th[t].act)
  {
  }

  /** A call executes at most `Bound` instructions, whatever the others do. */
  lemma {:induction false} StepsAreBounded(ss: seq<State>, ps: seq<Step>, t: nat, i: nat, k: nat)
    requires IsRun(ss, ps) && QuietRun(ss, ps) && InCall(ss, ps, t, i, k)
    ensures OwnSteps(ps, t, i, k) + Rank(ss[k].th[t].act) <= Bound(ps[i].c)
    decreases k
  {
    assert Calling(ss[k], t, ps[i].c) && ss[k] == Apply(ss[k - 1], ps[k - 1]);
    if k > i + 1 {
      assert Calling(ss[k - 1], t, ps[i].c);
      StepsAreBounded(ss, ps, t, i, k - 1);
      RunKeepsInv(ss, ps, k - 1);
      StepUsesRank(ss[k - 1], ps[k - 1], t);
    }
  }

  /** A running thread inside a helper can execute an instruction or return, until it has. */
  lemma CallGoesOn(ss: seq<State>, ps: seq<Step>, t: nat, k: nat)
    requires IsRun(ss, ps) && k < |ss| && t < |ss[k].th| && ss[k].th[t].act.Busy? && ss[k].th[t].on >= 0
    ensures EnabledStep(ss[k], User(t)) || EnabledStep(ss[k], Return(t))
  {
    RunKeepsKInv(ss, ps, k);
    assert ThreadOk(ss[k].th[t], ss[k].nCpus);
  }

  /** A call that returns -1 in a quiet run does so for a cause. */
  lemma MinusOneHasCause(ss: seq<State>, ps: seq<Step>, k: nat) returns (i: nat, j: nat)
    requires IsRun(ss, ps) && QuietRun(ss, ps) && k < |ps| && ps[k].Return?
    requires ReturnValue(ss[k].th[ps[k].t].act.pc.l) == -1
    ensures i < j < k && InCall(ss, ps, ps[k].t, i, k) && AbortCause(ss, ps, ps[k].t, j)
  {
    i := CallBegins(ss, ps, ps[k].t, k);
    RunKeepsInv(ss, ps, k);
    assert SThread(ss[k].th[ps[k].t], ss[k].mem);
    j := AbortHasCause(ss, ps, ps[k].t, i, k);
  }

  /** A call that returns 1 in a quiet run was refused by the pseudo-code at one of its steps. */
  lemma OneIsRefused(ss: seq<State>, ps: seq<Step>, k: nat) returns (i: nat, j: nat)
    requires IsRun(ss, ps) && QuietRun(ss, ps) && k < |ps| && ps[k].Return?
    requires ReturnValue(ss[k].th[ps[k].t].act.pc.l) == 1
    ensures i < j < k && InCall(ss, ps, ps[k].t, i, k) && ps[j] == User(ps[k].t)
    ensures Refuses(ss[j].mem, ss[j + 1].mem, ps[i].c)
  {
    i := CallBegins(ss, ps, ps[k].t, k);
    CallOutcome(ss, ps, ps[k].t, i, k);
    assert Calling(ss[k], ps[k].t, ps[i].c);
    hide Refuses, EffectAt, QuietRun, IsRun;
    j :| i < j < k && ps[j] == User(ps[k].t) && Refuses(ss[j].mem, ss[j + 1].mem, ps[i].c);
  }

  /** The call entered at step i and returning at step k returns what the pseudo-code returns
      at step j, one of its own: there it has the whole effect, or gives up. */
  ghost predicate ReturnsPseudo(ss: seq<State>, ps: seq<Step>, t: nat, i: nat, k: nat, j: nat) {
    && i < j < k <= |ps| < |ss| && ps[i].Begin? && ps[j] == User(t)
    && t < |ss[k].th| && ss[k].th[t].act.Busy? && ss[k].th[t].act.pc.Exit?
    && var (c, value) := (ps[i].c, ReturnValue(ss[k].th[t].act.pc.l));
       && value == Pseudo(c, ss[j].mem).1
       && (if value == 0 then EffectAt(ss, ps, t, i, k, j) else value == 1 && Refuses(ss[j].mem, ss[j + 1].mem, c))
  }

  ghost predicate HasLeft(s: State, t: nat) { t < |s.th| && s.th[t].act.Busy? && s.th[t].act.pc.Exit? }

  /** In every quiet run a call of a registered thread that asks for the CPU the thread is on,
      and that no event hits, returns what the pseudo-code returns, after boundedly many
      instructions. */
  lemma UndisturbedReturns(ss: seq<State>, ps: seq<Step>, t: nat, i: nat, k: nat) returns (j: nat)
    requires IsRun(ss, ps) && QuietRun(ss, ps) && Undisturbed(ss, ps, t, i, k) && HasLeft(ss[k], t)
    ensures ReturnsPseudo(ss, ps, t, i, k, j) && OwnSteps(ps, t, i, k) <= Bound(ps[i].c)
  {
    hide Quiet, Apply, EnabledStep, Refuses, EffectAt;
    StepsAreBounded(ss, ps, t, i, k);
    CallOutcome(ss, ps, t, i, k);
    assert Calling(ss[k], t, ps[i].c);
    RunKeepsInv(ss, ps, k);
    assert SThread(ss[k].th[t], ss[k].mem);
    if ss[k].th[t].act.pc.l == Abort {
      NotAborted(ss, ps, t, i, k);
    } else if ss[k].th[t].act.pc.l == Ok {
      j :| i < j < k && EffectAt(ss, ps, t, i, k, j);
      EffectReturns(ss, ps, t, i, k, j);
    } else {
      j :| i < j < k && ps[j] == User(t) && Refuses(ss[j].mem, ss[j + 1].mem, ps[i].c);
      assert Pseudo(ps[i].c, ss[j].mem).1 == 1 by { RefusalReturns(ss[j].mem, ss[j + 1].mem, ps[i].c); }
    }
  }

  lemma NotAborted(ss: seq<State>, ps: seq<Step>, t: nat, i: nat, k: nat)
    requires IsRun(ss, ps) && Undisturbed(ss, ps, t, i, k) && ss[k].th[t].act.pc.Exit?
    ensures ss[k].th[t].act.pc.l != Abort
  {
    if ss[k].th[t].act.pc.l == Abort {
      var j := AbortHasCause(ss, ps, t, i, k);
      assert Misses(ss[j], ps[j], t);
      CpuStays(ss, ps, t, i, k, j);
    }
  }

  lemma EffectReturns(ss: seq<State>, ps: seq<Step>, t: nat, i: nat, k: nat, j: nat)
    requires EffectAt(ss, ps, t, i, k, j)
    ensures ps[j] == User(t) && Pseudo(ps[i].c, ss[j].mem).1 == 0
  {
  }

  lemma RefusalReturns(m: Mem, m': Mem, c: Call)
    requires Refuses(m, m', c)
    ensures Pseudo(c, m).1 == 1
  {
  }
}
