/**
 The helpers are atomic.  Any number of threads call any helpers with any
 arguments, store anywhere between calls, and are preempted, migrated and
 signalled at any instruction.  If no step on another CPU changes a cell that a
 running section depends on, every commit has exactly the effect of the whole
 pseudo-code run at that instant.
 */
module Atomicity {
  import opened Machine
  import opened Sections

  // ---------------------------------------------------------------- one commit

  lemma {:induction false} CopyBytesReads(m: Mem, dst: Addr, src: Addr, len: nat, x: Addr)
    ensures Get(CopyBytes(m, dst, src, len), x) == if dst <= x < dst + len then Get(m, src + (x - dst)) else Get(m, x)
  {
    if len > 0 {
      CopyBytesReads(m, dst, src, len - 1, x);
    }
  }

  lemma CopyIsNoop(m: Mem, dst: Addr, src: Addr, len: nat)
    ensures SameMem(CopyBytes(m, dst, src, len), m) <==> Copied(m, dst, src, 0, len)
  {
    var m' := CopyBytes(m, dst, src, len);
    if Copied(m, dst, src, 0, len) {
      forall x ensures Get(m', x) == Get(m, x) {
        CopyBytesReads(m, dst, src, len, x);
        if dst <= x < dst + len { assert SameByte(m, dst, src, x - dst); }
      }
    }
    if SameMem(m', m) {
      forall j | 0 <= j < len ensures SameByte(m, dst, src, j) {
        CopyBytesReads(m, dst, src, len, dst + j);
      }
    }
  }

  // The commit of `a` does to `m` what the pseudo-code does, and the pseudo-code succeeds.
  ghost predicate CommitAtomic(a: Act, twice: bool, cpuId: int, m: Mem)
    requires a.Busy? && a.pc == At(Len(a.call) - 1)
  {
    && Pseudo(a.call, m).1 == 0
    && SameMem(Exec(a, twice, cpuId, m).1, Pseudo(a.call, m).0)
  }

  lemma MemcpyCommitAtomicIff(a: Act, twice: bool, cpuId: int, m: Mem)
    requires a.Busy? && a.pc == At(Len(a.call) - 1)
    requires a.call.CbneMemcpyStore? && !(a.call.dst <= a.call.v < a.call.dst + a.call.len)
    ensures CommitAtomic(a, twice, cpuId, m) <==> Section(a, m)
  {
    var c := a.call;
    var m1 := CopyBytes(m, c.dst, c.src, c.len);
    CopyIsNoop(m, c.dst, c.src, c.len);
    var (m2, m3) := (m[c.v := c.newv], m1[c.v := c.newv]);
    CopyBytesReads(m, c.dst, c.src, c.len, c.v);
    if SameMem(m1, m) {
      forall x ensures Get(m2, x) == Get(m3, x) { assert Get(m1, x) == Get(m, x); }
    }
    if SameMem(m2, m3) {
      forall x ensures Get(m1, x) == Get(m, x) { assert Get(m2, x) == Get(m3, x); }
    }
  }

  lemma PopCommitAtomicIff(a: Act, twice: bool, cpuId: int, m: Mem)
    requires a.Busy? && a.pc == At(Len(a.call) - 1)
    requires a.call.CbeqStoreAddLoadStore?
    ensures CommitAtomic(a, twice, cpuId, m) <==> Section(a, m)
  {
    var c := a.call;
    var r1 := Get(m, c.v);
    var m1 := m[c.load := r1];
    var (m2, m3) := (m[c.v := a.r.rbx], m1[c.v := Get(m1, r1 + c.voffp)]);
    if SameMem(m2, m3) {
      assert Get(m2, c.v) == Get(m3, c.v);
      assert Get(m2, c.load) == Get(m3, c.load);
    }
  }

  lemma StoreStoreCommitAtomicIff(a: Act, twice: bool, cpuId: int, m: Mem)
    requires a.Busy? && a.pc == At(Len(a.call) - 1)
    requires a.call.CbneStoreStore? && a.call.v != a.call.v2
    ensures CommitAtomic(a, twice, cpuId, m) <==> Section(a, m)
  {
    var (v, v2, n2, n) := (a.call.v, a.call.v2, a.call.newv2, a.call.newv);
    var (m1, m2) := (Exec(a, twice, cpuId, m).1, m[v2 := n2][v := n]);
    if SameMem(m1, m2) { assert Get(m1, v2) == Get(m2, v2); }
  }

  lemma AddCommitAtomicIff(a: Act, twice: bool, cpuId: int, m: Mem)
    requires a.Busy? && a.pc == At(Len(a.call) - 1)
    requires a.call.AddLoadLoadAddStore?
    ensures CommitAtomic(a, twice, cpuId, m) <==> Section(a, m) || a.call.inc == 0
  {
    var r2 := Get(m, Get(m, a.call.ptr) + a.call.off);
    var (m1, m2) := (Exec(a, twice, cpuId, m).1, m[r2 := Get(m, r2) + a.call.inc]);
    if SameMem(m1, m2) { assert Get(m1, r2) == Get(m2, r2); }
  }

  /** A commit is atomic exactly when, at that instant, what the section loaded is
      still current and what it stored speculatively is still there; an increment of
      zero is atomic always. */
  lemma CommitAtomicIff(a: Act, twice: bool, cpuId: int, m: Mem)
    requires a.Busy? && a.pc == At(Len(a.call) - 1)
    requires TargetIsApart(a.call)
    ensures CommitAtomic(a, twice, cpuId, m) <==> Section(a, m) || (a.call.AddLoadLoadAddStore? && a.call.inc == 0)
  {
    match a.call
    case CbneMemcpyStore(_, _, _, _, _, _, _) => MemcpyCommitAtomicIff(a, twice, cpuId, m);
    case CbeqStoreAddLoadStore(_, _, _, _) => PopCommitAtomicIff(a, twice, cpuId, m);
    case AddLoadLoadAddStore(_, _, _) => AddCommitAtomicIff(a, twice, cpuId, m);
    case CbneStoreStore(_, _, _, _, _) => StoreStoreCommitAtomicIff(a, twice, cpuId, m);
    case _ =>
  }

  // The cells a section may scribble on before it commits.
  ghost predicate Speculative(c: Call, x: Addr) {
    match c
    case CbeqStoreAddLoadStore(_, _, _, load) => x == load
    case CbneStoreStore(_, _, v2, _, _) => x == v2
    case CbneMemcpyStore(_, _, dst, _, len, _, _) => dst <= x < dst + len
    case _ => false
  }

  // The copy or the first of two stores must not overwrite the commit target.
  ghost predicate TargetIsApart(c: Call) {
    c.CbneStoreStore? || c.CbneMemcpyStore? ==> !Speculative(c, c.v)
  }

  /** Before its commit a section changes nothing but its speculative cells. */
  lemma OnlyCommitWrites(a: Act, twice: bool, cpuId: int, m: Mem, x: Addr)
    requires a.Busy? && a.pc.At? && ActOk(a) && Section(a, m) && a.pc.i < Len(a.call) - 1
    requires !Speculative(a.call, x)
    ensures Get(Exec(a, twice, cpuId, m).1, x) == Get(m, x)
  {
  }

  /** A section leaves through its "ne"/"eq" label only when the pseudo-code would. */
  lemma BranchIsPseudo(a: Act, twice: bool, cpuId: int, m: Mem)
    requires a.Busy? && a.pc.At? && ActOk(a) && WellFormed(a.call) && Section(a, m)
    requires a.pc.i >= 3 ==> a.cpu == cpuId
    requires !Exec(a, twice, cpuId, m).0.pc.At? && Exec(a, twice, cpuId, m).0.pc.l == Differs
    ensures Exec(a, twice, cpuId, m).1 == m && Pseudo(a.call, m) == (m, 1)
  {
    FetchShape(a.call, twice, a.pc.i);
  }

  // ---------------------------------------------------------------- whole runs

  /** A program on the machine: its state and, for each thread, the locals of the C code. */
  datatype Program<L> = Program(s: State, loc: seq<L>)

  // The machine states of a run of a program.
  ghost function States<L>(ws: seq<Program<L>>): seq<State> { seq(|ws|, k requires 0 <= k < |ws| => ws[k].s) }

  /** Kernel events, helper instructions, calls and returns, and, by threads outside a
      helper, arbitrary stores and statements that store nothing. */
  datatype Step =
    | Kern(e: Event)
    | User(t: nat)
    | Begin(t: nat, c: Call, cpu: int, site: nat, junk: Regs)
    | Return(t: nat)
    | Plain(t: nat, x: Addr, w: Word)
    | Compute(t: nat)

  ghost predicate EnabledStep(s: State, p: Step) {
    match p
    case Kern(e) => Enabled(s, e)
    case User(t) => t < |s.th| && CanStep(s.th[t])
    case Begin(t, c, cpu, _, _) => t < |s.th| && s.th[t].on >= 0 && s.th[t].act.Idle? && cpu >= 0 && WellFormed(c)
    case Return(t) => t < |s.th| && s.th[t].on >= 0 && s.th[t].act.Busy? && s.th[t].act.pc.Exit?
    case Plain(t, _, _) => t < |s.th| && s.th[t].on >= 0 && s.th[t].act.Idle?
    case Compute(t) => t < |s.th| && s.th[t].on >= 0 && s.th[t].act.Idle?
  }

  ghost function Apply(s: State, p: Step): State
    requires EnabledStep(s, p)
  {
    match p
    case Kern(e) => Kernel(s, e)
    case User(t) => Instruction(s, t)
    case Begin(t, c, cpu, site, junk) => s.(th := s.th[t := s.th[t].(act := Enter(c, cpu, site, junk))])
    case Return(t) => s.(th := s.th[t := s.th[t].(act := Idle)])
    case Plain(t, x, w) => s.(mem := s.mem[x := w])
    case Compute(_) => s
  }

  /** No running section loses a cell it depends on to somebody else's step. */
  ghost predicate Quiet(s: State, p: Step)
    requires EnabledStep(s, p)
  {
    forall u, x :: 0 <= u < |s.th| && Active(s.th[u]) && !(p.User? && p.t == u) && Depends(s.th[u].act, s.mem, x) ==>
      Get(Apply(s, p).mem, x) == Get(s.mem, x)
  }

  // A step that stores nothing disturbs nobody.
  lemma SilentIsQuiet(s: State, p: Step)
    requires EnabledStep(s, p) && Apply(s, p).mem == s.mem
    ensures Quiet(s, p)
  {
  }

  ghost predicate SThread(x: Thread, m: Mem) {
    x.act.Busy? ==>
      && WellFormed(x.act.call)
      && (x.act.pc.At? && (x.on >= 0 || x.act.pc.i < 3) ==> Section(x.act, m))
      && (!x.act.pc.At? ==> x.act.pc.l in {Ok, Differs, Abort})
  }

  ghost predicate SInv(s: State) {
    forall t :: 0 <= t < |s.th| ==> SThread(s.th[t], s.mem)
  }

  lemma EarlySection(a: Act, m: Mem, m': Mem)
    requires a.Busy? && a.pc.At? && a.pc.i < 3 && Section(a, m)
    ensures Section(a, m')
  {
  }

  lemma OthersKeepSThread(s: State, p: Step, u: nat)
    requires KInv(s) && SInv(s) && EnabledStep(s, p) && Quiet(s, p)
    requires u < |s.th| && !(p.User? && p.t == u)
    ensures SThread(s.th[u], Apply(s, p).mem)
  {
    var x := s.th[u];
    var m' := Apply(s, p).mem;
    assert SThread(x, s.mem);
    if x.act.Busy? && x.act.pc.At? {
      if x.act.pc.i < 3 {
        EarlySection(x.act, s.mem, m');
      } else if x.on >= 0 {
        SectionFrame(x.act, s.mem, m');
      }
    }
  }

  lemma ActorKeepsSThread(s: State, t: nat)
    requires KInv(s) && SInv(s) && t < |s.th| && CanStep(s.th[t])
    ensures SThread(Instruction(s, t).th[t], Instruction(s, t).mem)
  {
    assert ThreadOk(s.th[t], s.nCpus) && SThread(s.th[t], s.mem);
    if s.th[t].act.pc.At? {
      ExecKeepsSection(s.th[t].act, s.twice, s.th[t].cpuId, s.mem);
    }
  }

  lemma EnterSection(c: Call, cpu: int, site: nat, junk: Regs, m: Mem)
    requires cpu >= 0
    ensures ActOk(Enter(c, cpu, site, junk)) && Section(Enter(c, cpu, site, junk), m)
  {
  }

  lemma StepKeepsKInv(s: State, p: Step)
    requires KInv(s) && EnabledStep(s, p)
    ensures KInv(Apply(s, p))
  {
    match p
    case Kern(e) => KernelKeepsKInv(s, e);
    case User(t) => InstructionKeepsKInv(s, t);
    case Begin(t, c, cpu, site, junk) => EnterSection(c, cpu, site, junk, s.mem);
    case _ =>
  }

  // A thread resumed on any CPU after the fix-up knows of memory what it needs to.
  lemma ResumeKeepsSThread(x: Thread, n: nat, c: int, m: Mem)
    requires ThreadOk(x, n) && SThread(x, m)
    ensures SThread(if x.reg then Fixup(x.(on := c, cpuId := c)) else x.(on := c), m)
    ensures SThread(Fixup(x), m) && SThread(x.(on := -1), m)
  {
  }

  /** Whatever a step other than its own instruction does to a thread (run it
      elsewhere, abort it, enter or leave a helper), it keeps `SThread`. */
  lemma RescheduledKeepsSThread(s: State, p: Step, u: nat, m: Mem)
    requires KInv(s) && EnabledStep(s, p) && u < |s.th| && !(p.User? && p.t == u)
    requires SThread(s.th[u], m)
    ensures SThread(Apply(s, p).th[u], m)
  {
    var (x, y) := (s.th[u], Apply(s, p).th[u]);
    if p.Begin? && p.t == u {
      EnterSection(p.c, p.cpu, p.site, p.junk, m);
    } else if p.Kern? {
      assert ThreadOk(x, s.nCpus);
      var c := if p.e.Schedule? then p.e.c else 0;
      ResumeKeepsSThread(x, s.nCpus, c, m);
      assert y in {x, Fixup(x), x.(on := -1), if x.reg then Fixup(x.(on := c, cpuId := c)) else x.(on := c)};
    }
  }

  /** Each quiet step keeps the machine invariant. */
  lemma StepKeepsInv(s: State, p: Step)
    requires KInv(s) && SInv(s) && EnabledStep(s, p) && Quiet(s, p)
    ensures KInv(Apply(s, p)) && SInv(Apply(s, p))
  {
    StepKeepsKInv(s, p);
    var s' := Apply(s, p);
    forall u | 0 <= u < |s'.th| ensures SThread(s'.th[u], s'.mem) {
      if p.User? && p.t == u {
        ActorKeepsSThread(s, u);
      } else {
        OthersKeepSThread(s, p, u);
        RescheduledKeepsSThread(s, p, u, s'.mem);
      }
    }
  }

  ghost predicate IsRun(ss: seq<State>, ps: seq<Step>) {
    && |ss| == |ps| + 1
    && (forall t :: 0 <= t < |ss[0].th| ==> ss[0].th[t].act.Idle?)
    && KInv(ss[0])
    && forall k :: 0 <= k < |ps| ==> EnabledStep(ss[k], ps[k]) && ss[k + 1] == Apply(ss[k], ps[k])
  }

  ghost predicate QuietRun(ss: seq<State>, ps: seq<Step>)
    requires IsRun(ss, ps)
  {
    forall k :: 0 <= k < |ps| ==> Quiet(ss[k], ps[k])
  }

  lemma {:induction false} RunKeepsInv(ss: seq<State>, ps: seq<Step>, k: nat)
    requires IsRun(ss, ps) && QuietRun(ss, ps) && k < |ss|
    ensures KInv(ss[k]) && SInv(ss[k])
  {
    if k > 0 {
      RunKeepsInv(ss, ps, k - 1);
      StepKeepsInv(ss[k - 1], ps[k - 1]);
    }
  }

  /** Every helper instruction of a quiet run has one of three effects: a commit does
      exactly what the pseudo-code does to the memory of that instant; a branch
      to "ne"/"eq" happens where the pseudo-code takes it; anything else spares
      every cell that is not speculative.  No bug label is ever reached. */
  lemma HelpersAreAtomic(ss: seq<State>, ps: seq<Step>, k: nat)
    requires IsRun(ss, ps) && QuietRun(ss, ps) && k < |ps| && ps[k].User?
    ensures var a, m, a', m' := ss[k].th[ps[k].t].act, ss[k].mem, ss[k + 1].th[ps[k].t].act, ss[k + 1].mem;
            && a.Busy? && a'.Busy? && a'.call == a.call
            && (a'.commits != a.commits <==> a.pc == At(Len(a.call) - 1))
            && (a'.commits != a.commits ==> Pseudo(a.call, m).1 == 0 && SameMem(m', Pseudo(a.call, m).0))
            && (a.pc.At? && !a'.pc.At? && a'.pc.l == Differs ==> m' == m && Pseudo(a.call, m) == (m, 1))
            && (a'.commits == a.commits ==> forall x :: !Speculative(a.call, x) ==> Get(m', x) == Get(m, x))
            && (!a'.pc.At? ==> a'.pc.l in {Ok, Differs, Abort})
  {
    var (s, t) := (ss[k], ps[k].t);
    RunKeepsInv(ss, ps, k);
    RunKeepsInv(ss, ps, k + 1);
    var x := s.th[t];
    assert ThreadOk(x, s.nCpus) && SThread(x, s.mem) && SThread(ss[k + 1].th[t], ss[k + 1].mem);
    if x.act.pc.At? {
      InstructionEffect(x.act, s.twice, x.cpuId, s.mem);
    }
  }

  lemma InstructionEffect(a: Act, twice: bool, cpuId: int, m: Mem)
    requires a.Busy? && a.pc.At? && ActOk(a) && WellFormed(a.call) && Section(a, m)
    requires a.pc.i >= 3 ==> a.cpu == cpuId
    ensures var (a', m') := Exec(a, twice, cpuId, m);
            && (a'.commits != a.commits <==> a.pc == At(Len(a.call) - 1))
            && (a'.commits != a.commits ==> Pseudo(a.call, m).1 == 0 && SameMem(m', Pseudo(a.call, m).0))
            && (!a'.pc.At? && a'.pc.l == Differs ==> m' == m && Pseudo(a.call, m) == (m, 1))
            && (a'.commits == a.commits ==> forall x :: !Speculative(a.call, x) ==> Get(m', x) == Get(m, x))
  {
    var (a', m') := Exec(a, twice, cpuId, m);
    if a.pc.i == Len(a.call) - 1 {
      FetchShape(a.call, twice, a.pc.i);
      CommitAtomicIff(a, twice, cpuId, m);
    } else {
      forall x | !Speculative(a.call, x) ensures Get(m', x) == Get(m, x) {
        OnlyCommitWrites(a, twice, cpuId, m, x);
      }
      if !a'.pc.At? && a'.pc.l == Differs {
        BranchIsPseudo(a, twice, cpuId, m);
      }
    }
  }

  /** A call that returns in a run, quiet or not, returns 0 exactly when its final
      store ran, and it ran once; otherwise it never ran.  A thread that never
      registered always gets -1. */
  lemma ReturnValueTellsCommit(ss: seq<State>, ps: seq<Step>, k: nat)
    requires IsRun(ss, ps) && k < |ps| && ps[k].Return?
    ensures var x := ss[k].th[ps[k].t];
            && x.act.commits == (if ReturnValue(x.act.pc.l) == 0 then 1 else 0)
            && (!x.reg ==> ReturnValue(x.act.pc.l) == -1)
  {
    RunKeepsKInv(ss, ps, k);
    assert ThreadOk(ss[k].th[ps[k].t], ss[k].nCpus);
  }

  lemma {:induction false} RunKeepsKInv(ss: seq<State>, ps: seq<Step>, k: nat)
    requires IsRun(ss, ps) && k < |ss|
    ensures KInv(ss[k])
  {
    if k > 0 {
      RunKeepsKInv(ss, ps, k - 1);
      StepKeepsKInv(ss[k - 1], ps[k - 1]);
    }
  }

  // ---------------------------------------------------------------- whole calls

  /** Thread t is in one call from step i, which entered it, up to state k. */
  ghost predicate InCall(ss: seq<State>, ps: seq<Step>, t: nat, i: nat, k: nat) {
    && i < k <= |ps| < |ss| && ps[i].Begin? && ps[i].t == t
    && forall n :: i < n <= k ==> Calling(ss[n], t, ps[i].c)
  }

  ghost predicate Calling(s: State, t: nat, c: Call) {
    t < |s.th| && s.th[t].act.Busy? && s.th[t].act.call == c
  }

  // Step j is the final store of thread t's call.
  ghost predicate Commits(ss: seq<State>, ps: seq<Step>, t: nat, c: Call, j: nat) {
    j < |ps| < |ss| && ps[j] == User(t) && Calling(ss[j], t, c) && ss[j].th[t].act.pc == At(Len(c) - 1)
  }

  // What the pseudo-code does, in one step and successfully.
  ghost predicate TakesEffect(m: Mem, m': Mem, c: Call) {
    Pseudo(c, m).1 == 0 && SameMem(m', Pseudo(c, m).0)
  }

  // The pseudo-code compares and gives up.
  ghost predicate Refuses(m: Mem, m': Mem, c: Call) {
    m' == m && Pseudo(c, m) == (m, 1)
  }

  // Nothing changes but cells the call may write speculatively.
  ghost predicate Spares(m: Mem, m': Mem, c: Call) {
    forall x :: !Speculative(c, x) ==> Get(m', x) == Get(m, x)
  }

  /** The call of thread t entered at step i and returning at step k is atomic. When it
      returns 0, one step of it is the final store, and that step is the whole pseudo-code
      run on the memory of that instant. When it returns 1, the pseudo-code would have
      given up at one of its steps. No other step of it changes a cell that is not
      speculative, and when it does not return 0 the final store never runs. */
  ghost predicate AtomicCall(ss: seq<State>, ps: seq<Step>, t: nat, i: nat, k: nat) {
    && InCall(ss, ps, t, i, k) && ss[k].th[t].act.pc.Exit?
    && var (c, value) := (ps[i].c, ReturnValue(ss[k].th[t].act.pc.l));
       && (value == 0 ==> exists j :: i < j < k && EffectAt(ss, ps, t, i, k, j))
       && (value != 0 ==> forall j :: i < j < k ==> !Commits(ss, ps, t, c, j))
       && (value == 1 ==> exists j :: i < j < k && ps[j] == User(t) && Refuses(ss[j].mem, ss[j + 1].mem, c))
       && (forall j :: i < j < k && ps[j] == User(t) && !Commits(ss, ps, t, c, j) ==>
            Spares(ss[j].mem, ss[j + 1].mem, c))
  }

  ghost predicate EffectAt(ss: seq<State>, ps: seq<Step>, t: nat, i: nat, k: nat, j: nat) {
    && i < j < k <= |ps| < |ss| && ps[i].Begin? && Commits(ss, ps, t, ps[i].c, j)
    && TakesEffect(ss[j].mem, ss[j + 1].mem, ps[i].c)
    && forall n :: i < n < k && n != j ==> !Commits(ss, ps, t, ps[i].c, n)
  }

  // What one step does to a thread inside a helper.
  lemma StepKeepsCall(s: State, p: Step, t: nat)
    requires EnabledStep(s, p) && t < |s.th| && Apply(s, p).th[t].act.Busy?
    ensures |Apply(s, p).th| == |s.th|
    ensures p.Begin? && p.t == t ==> Apply(s, p).th[t].act.call == p.c
    ensures !(p.Begin? && p.t == t) ==>
              var (a, a') := (s.th[t].act, Apply(s, p).th[t].act);
              && a.Busy? && a'.call == a.call && a'.commits >= a.commits
              && (a'.pc.At? ==> a.pc.At?)
              && (!a.pc.At? && !a'.pc.At? ==> a'.pc.l == a.pc.l)
              && (a.pc.At? && !a'.pc.At? && p != User(t) ==> a'.pc.l == Abort)
  {
    if p.Kern? { KernelKeepsCalls(s, p.e); }
  }

  /** Whoever is inside a helper entered it at some step, and has been in it since. */
  lemma {:induction false} CallBegins(ss: seq<State>, ps: seq<Step>, t: nat, k: nat) returns (i: nat)
    requires IsRun(ss, ps) && k < |ss| && t < |ss[k].th| && ss[k].th[t].act.Busy?
    ensures InCall(ss, ps, t, i, k)
  {
    StepKeepsCall(ss[k - 1], ps[k - 1], t);
    if ps[k - 1].Begin? && ps[k - 1].t == t {
      i := k - 1;
    } else {
      i := CallBegins(ss, ps, t, k - 1);
    }
  }

  // The call starts at its first instruction.
  lemma JustEntered(ss: seq<State>, ps: seq<Step>, t: nat, i: nat, k: nat)
    requires IsRun(ss, ps) && InCall(ss, ps, t, i, k) && !ss[k].th[t].act.pc.At?
    ensures i + 1 < k
  {
    assert ss[i + 1] == Apply(ss[i], ps[i]);
  }

  /** A call that has left its section did so at one step, with the label it still has. */
  lemma {:induction false} CallLeaves(ss: seq<State>, ps: seq<Step>, t: nat, i: nat, k: nat) returns (j: nat)
    requires IsRun(ss, ps) && InCall(ss, ps, t, i, k) && !ss[k].th[t].act.pc.At?
    ensures i < j < k && ss[j].th[t].act.pc.At? && !ss[j + 1].th[t].act.pc.At?
    ensures ss[j + 1].th[t].act.pc.l == ss[k].th[t].act.pc.l
    decreases k
  {
    hide ThreadOk, Exec, SameMem;
    JustEntered(ss, ps, t, i, k);
    hide Apply, EnabledStep, KInv;
    assert Calling(ss[k], t, ps[i].c) && Calling(ss[k - 1], t, ps[i].c);
    StepKeepsCall(ss[k - 1], ps[k - 1], t);
    if ss[k - 1].th[t].act.pc.At? {
      j := k - 1;
    } else {
      j := CallLeaves(ss, ps, t, i, k - 1);
    }
  }

  // The number of final stores never goes down during a call.
  lemma {:induction false} CommitsGrow(ss: seq<State>, ps: seq<Step>, t: nat, i: nat, k: nat, j: nat)
    requires IsRun(ss, ps) && InCall(ss, ps, t, i, k) && i < j <= k
    ensures Calling(ss[j], t, ps[i].c) && Calling(ss[k], t, ps[i].c)
    ensures ss[j].th[t].act.commits <= ss[k].th[t].act.commits
    decreases k
  {
    hide Apply, KInv;
    assert Calling(ss[j], t, ps[i].c) && Calling(ss[k], t, ps[i].c);
    if j < k {
      assert Calling(ss[k - 1], t, ps[i].c);
      CommitsGrow(ss, ps, t, i, k - 1, j);
      StepKeepsCall(ss[k - 1], ps[k - 1], t);
    }
  }

  // A final store takes the count from 0 to 1.
  lemma CommitCounts(ss: seq<State>, ps: seq<Step>, t: nat, c: Call, j: nat)
    requires IsRun(ss, ps) && Commits(ss, ps, t, c, j)
    ensures t < |ss[j + 1].th| && ss[j + 1].th[t].act.Busy?
    ensures ss[j].th[t].act.commits == 0 && ss[j + 1].th[t].act.commits == 1
  {
    RunKeepsKInv(ss, ps, j);
    assert ThreadOk(ss[j].th[t], ss[j].nCpus);
  }

  // The final store runs at most once in a call.
  lemma OneCommit(ss: seq<State>, ps: seq<Step>, t: nat, i: nat, k: nat, j: nat, n: nat)
    requires IsRun(ss, ps) && InCall(ss, ps, t, i, k) && i < j < k && i < n < k
    requires Commits(ss, ps, t, ps[i].c, j) && Commits(ss, ps, t, ps[i].c, n)
    ensures j == n
  {
    var (lo, hi) := if j <= n then (j, n) else (n, j);
    CommitCounts(ss, ps, t, ps[i].c, lo);
    CommitCounts(ss, ps, t, ps[i].c, hi);
    if lo < hi {
      assert forall m :: i < m <= hi ==> Calling(ss[m], t, ps[i].c);
      CommitsGrow(ss, ps, t, i, hi, lo + 1);
    }
  }

  // A call with a final store behind it has the count of one.
  lemma CommitLeavesOk(ss: seq<State>, ps: seq<Step>, t: nat, i: nat, k: nat, j: nat)
    requires IsRun(ss, ps) && InCall(ss, ps, t, i, k) && i < j < k && Commits(ss, ps, t, ps[i].c, j)
    requires ss[k].th[t].act.pc.Exit?
    ensures ss[k].th[t].act.pc.l == Ok
  {
    CommitCounts(ss, ps, t, ps[i].c, j);
    CommitsGrow(ss, ps, t, i, k, j + 1);
    RunKeepsKInv(ss, ps, k);
    assert ThreadOk(ss[k].th[t], ss[k].nCpus);
  }

  // What a step of thread t inside its call does.
  lemma CallStep(ss: seq<State>, ps: seq<Step>, t: nat, i: nat, k: nat, j: nat)
    requires IsRun(ss, ps) && QuietRun(ss, ps) && InCall(ss, ps, t, i, k) && i < j < k && ps[j] == User(t)
    ensures Commits(ss, ps, t, ps[i].c, j) ==> TakesEffect(ss[j].mem, ss[j + 1].mem, ps[i].c)
    ensures !Commits(ss, ps, t, ps[i].c, j) ==> Spares(ss[j].mem, ss[j + 1].mem, ps[i].c)
    ensures Calling(ss[j], t, ps[i].c) && Calling(ss[j + 1], t, ps[i].c)
    ensures ss[j].th[t].act.pc.At? && !ss[j + 1].th[t].act.pc.At? && ss[j + 1].th[t].act.pc.l == Differs ==>
              Refuses(ss[j].mem, ss[j + 1].mem, ps[i].c)
  {
    assert Calling(ss[j], t, ps[i].c) && Calling(ss[j + 1], t, ps[i].c);
    HelpersAreAtomic(ss, ps, j);
  }

  // The step at which a successful call left its section is its final store.
  lemma OkIsCommit(ss: seq<State>, ps: seq<Step>, t: nat, i: nat, k: nat, j: nat)
    requires IsRun(ss, ps) && InCall(ss, ps, t, i, k) && i < j < k
    requires ss[j].th[t].act.pc.At? && !ss[j + 1].th[t].act.pc.At? && ss[j + 1].th[t].act.pc.l == Ok
    ensures Commits(ss, ps, t, ps[i].c, j)
  {
    assert Calling(ss[j], t, ps[i].c) && Calling(ss[j + 1], t, ps[i].c);
    StepKeepsCall(ss[j], ps[j], t);
    RunKeepsKInv(ss, ps, j);
    RunKeepsKInv(ss, ps, j + 1);
    assert ThreadOk(ss[j].th[t], ss[j].nCpus) && ThreadOk(ss[j + 1].th[t], ss[j + 1].nCpus);
  }

  // What a returning call did at the step at which it left its section.
  lemma CallOutcome(ss: seq<State>, ps: seq<Step>, t: nat, i: nat, k: nat)
    requires IsRun(ss, ps) && QuietRun(ss, ps) && InCall(ss, ps, t, i, k) && ss[k].th[t].act.pc.Exit?
    ensures ss[k].th[t].act.pc.l == Ok ==> exists j :: i < j < k && EffectAt(ss, ps, t, i, k, j)
    ensures ss[k].th[t].act.pc.l == Differs ==>
              exists j :: i < j < k && ps[j] == User(t) && Refuses(ss[j].mem, ss[j + 1].mem, ps[i].c)
  {
    var j := CallLeaves(ss, ps, t, i, k);
    assert Calling(ss[j], t, ps[i].c) && Calling(ss[j + 1], t, ps[i].c);
    StepKeepsCall(ss[j], ps[j], t);
    if ss[k].th[t].act.pc.l == Ok {
      OkIsCommit(ss, ps, t, i, k, j);
      CallStep(ss, ps, t, i, k, j);
      forall n | i < n < k && n != j ensures !Commits(ss, ps, t, ps[i].c, n) {
        if Commits(ss, ps, t, ps[i].c, n) { OneCommit(ss, ps, t, i, k, j, n); }
      }
      assert EffectAt(ss, ps, t, i, k, j);
    } else if ss[k].th[t].act.pc.l == Differs {
      CallStep(ss, ps, t, i, k, j);
    }
  }

  /** In every quiet run every call that returns is atomic. */
  lemma CallsAreAtomic(ss: seq<State>, ps: seq<Step>, k: nat) returns (i: nat)
    requires IsRun(ss, ps) && QuietRun(ss, ps) && k < |ps| && ps[k].Return?
    ensures AtomicCall(ss, ps, ps[k].t, i, k)
  {
    var t := ps[k].t;
    i := CallBegins(ss, ps, t, k);
    CallOutcome(ss, ps, t, i, k);
    RunKeepsInv(ss, ps, k);
    assert SThread(ss[k].th[t], ss[k].mem);
    forall j | i < j < k && ps[j] == User(t) && !Commits(ss, ps, t, ps[i].c, j)
      ensures Spares(ss[j].mem, ss[j + 1].mem, ps[i].c)
    {
      CallStep(ss, ps, t, i, k, j);
    }
    forall j | i < j < k && ss[k].th[t].act.pc.l != Ok ensures !Commits(ss, ps, t, ps[i].c, j) {
      if Commits(ss, ps, t, ps[i].c, j) { CommitLeavesOk(ss, ps, t, i, k, j); }
    }
  }
}
