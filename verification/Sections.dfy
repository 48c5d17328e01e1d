/**
 What holds of every thread of the machine, whatever the data structure: the
 kernel side (`KInv`), and what a running section knows about memory
 (`Section`), which survives as long as no other CPU touches the cells it
 depends on.
 */
module Sections {
  import opened Machine

  // ---------------------------------------------------------------- kernel side

  ghost predicate ArgsSaved(a: Act)
    requires a.Busy?
  {
    a.call.CbneMemcpyStore? ==>
      var c, r := a.call, a.r;
      && (!c.backward && (a.pc.Tear? || (a.pc.At? && a.pc.i >= 1)) ==>
            r.scratch0 == c.src && r.scratch1 == c.dst && r.scratch2 == c.len)
      && (c.backward || a.pc.Exit? || (a.pc.At? && a.pc.i == 0) ==> r.src == c.src && r.dst == c.dst && r.len == c.len)
  }

  /** The final store ran exactly once at label Ok and never elsewhere; the label
      of a failed second cpu_id comparison is never reached. */
  ghost predicate ActOk(a: Act)
    requires a.Busy?
  {
    && a.cpu >= 0
    && (match a.pc
        case At(i) => i < Len(a.call) && a.commits == 0
        case Tear(l) =>
          a.call.CbneMemcpyStore? && !a.call.backward && l != Err1 && a.commits == (if l == Ok then 1 else 0)
        case Exit(l) => l != Err1 && a.commits == (if l == Ok then 1 else 0))
    && ArgsSaved(a)
  }

  /** A running thread past the first cpu_id comparison sits on the CPU it asked
      for, with rseq_cs naming its own section. */
  ghost predicate ThreadOk(x: Thread, nCpus: nat) {
    && -1 <= x.on < nCpus
    && (x.reg && x.on >= 0 ==> x.cpuId == x.on)
    && (!x.reg ==> x.cpuId == -1 && (x.act.Busy? && !x.act.pc.At? ==> x.act.pc.l == Abort))
    && (x.act.Busy? ==> ActOk(x.act))
    && (x.act.Busy? && x.act.pc.At? ==>
          && (x.act.pc.i >= 2 ==> x.cs == x.act.site)
          && (x.act.pc.i >= 3 && (x.on >= 0 || !x.reg) ==> x.act.cpu == x.cpuId))
  }

  ghost predicate KInv(s: State) {
    && (forall t :: 0 <= t < |s.th| ==> ThreadOk(s.th[t], s.nCpus))
    && (forall t, u :: 0 <= t < |s.th| && 0 <= u < |s.th| && t != u && s.th[t].on >= 0 ==> s.th[t].on != s.th[u].on)
  }

  /** The kernel changes no memory and no call: at most it moves a thread's ip to
      its abort label. */
  lemma KernelKeepsCalls(s: State, e: Event)
    requires Enabled(s, e)
    ensures var s' := Kernel(s, e);
            && s'.mem == s.mem && s'.nCpus == s.nCpus && s'.twice == s.twice && |s'.th| == |s.th|
            && forall u :: 0 <= u < |s.th| ==>
                 && (s'.th[u].act.Busy? <==> s.th[u].act.Busy?)
                 && s'.th[u].reg == s.th[u].reg
                 && (s.th[u].act.Busy? ==>
                      var (a, a') := (s.th[u].act, s'.th[u].act);
                      && a'.call == a.call && a'.cpu == a.cpu && a'.commits == a.commits
                      && (a'.pc == a.pc || (a.pc.At? && a'.pc == Goto(a.call, Abort))))
  {
  }

  // The event makes the kernel run the fix-up of thread t.
  ghost predicate Hits(s: State, e: Event, t: nat)
    requires t < |s.th|
  {
    match e
    case Preempt(_) => false
    case Schedule(u, _) => u == t
    case Signal(u) => u == t
    case Membarrier(c) => c >= 0 && s.th[t].on == c
  }

  /** An event moves the ip of a thread exactly when it hits it, the thread is registered, and
      the ip is behind the store of rseq_cs and not behind the final store of the section that
      rseq_cs names. It then goes to the abort label. */
  lemma KernelAbortsIff(s: State, e: Event, t: nat)
    requires Enabled(s, e) && t < |s.th| && s.th[t].act.Busy?
    ensures var (x, x') := (s.th[t], Kernel(s, e).th[t]);
            && (x'.act.pc != x.act.pc <==>
                  Hits(s, e, t) && x.reg && x.act.pc.At? && 1 < x.act.pc.i < Len(x.act.call) && x.cs == x.act.site)
            && (x'.act.pc != x.act.pc ==> x'.act.pc == Goto(x.act.call, Abort))
            && (!Hits(s, e, t) ==> x'.cpuId == x.cpuId && x'.cs == x.cs)
            && (Hits(s, e, t) && x.reg ==> x'.cs == -1)
  {
  }

  /** Where the threads run after an event: a preempted thread nowhere, a scheduled one on its CPU, which a
      registered thread finds in its cpu_id field, the others where they were. */
  lemma KernelSchedules(s: State, e: Event, t: nat)
    requires Enabled(s, e) && t < |s.th|
    ensures var (x, x') := (s.th[t], Kernel(s, e).th[t]);
            if e == Preempt(t) then x'.on == -1 && x'.act == x.act
            else if e.Schedule? && e.t == t then x'.on == e.c && (x.reg ==> x'.cpuId == e.c)
            else x'.on == x.on
  {
  }

  /** An abort can come at every instruction of the window, the final store included: a signal is always
      possible, and so is a migration to any CPU that no other thread runs on. */
  lemma AbortsAnywhere(s: State, t: nat, c: int)
    requires t < |s.th| && s.th[t].on >= 0 && s.th[t].reg && InWindow(s.th[t])
    requires 0 <= c < s.nCpus && forall u :: 0 <= u < |s.th| && u != t ==> s.th[u].on != c
    ensures Enabled(s, Signal(t)) && Kernel(s, Signal(t)).th[t].act.pc == Goto(s.th[t].act.call, Abort)
    ensures Enabled(s, Preempt(t)) && Enabled(Kernel(s, Preempt(t)), Schedule(t, c))
    ensures var s' := Kernel(Kernel(s, Preempt(t)), Schedule(t, c));
            && s'.mem == s.mem && s'.th[t].on == c && s'.th[t].cpuId == c
            && s'.th[t].act.pc == Goto(s.th[t].act.call, Abort)
  {
  }

  // The thread is running and in the part of its section guarded by the cpu_id comparison.
  ghost predicate Active(x: Thread) {
    x.on >= 0 && x.act.Busy? && x.act.pc.At? && x.act.pc.i >= 3
  }

  lemma KernelKeepsKInv(s: State, e: Event)
    requires KInv(s) && Enabled(s, e)
    ensures KInv(Kernel(s, e))
  {
    var s' := Kernel(s, e);
    forall t | 0 <= t < |s'.th| ensures ThreadOk(s'.th[t], s'.nCpus) {
      assert ThreadOk(s.th[t], s.nCpus);
    }
  }

  /** Where the helpers branch to, and which instructions they end with. */
  ghost predicate Shape(c: Call, i: nat, ins: Instr) {
    && i < Len(c)
    && (ins.Setup? <==> i == 0)
    && (ins.CbneCpu? ==> i >= 2 && ins.to == if i == 2 then Abort else Err1)
    && (i == 2 ==> ins.CbneCpu?)
    && (ins.CbneMem? || ins.CbeqRbx? ==> i >= 3 && ins.to in {Differs, Err2, Err3})
    && (ins.TestLen? ==> ins.end == 12)
    && (ins.DecLen? ==> ins.loop == 7)
    && (ins.LoopTmp? ==> ins.loop == 8)
    && (ins.TestLen? || ins.DecLen? || ins.LoopTmp? || ins.IncSrc? || ins.IncDst? ==> i >= 3 && c.CbneMemcpyStore?)
    && (ins.DecLen? || ins.IncSrc? || ins.IncDst? ==> !c.backward)
    && (i == Len(c) - 1 ==> ins.StoreWord? || ins.StoreRbx? || ins.AddMem? || ins.AddMemRcx?)
  }

  lemma FetchShape(c: Call, twice: bool, i: nat)
    requires i < Len(c)
    ensures Shape(c, i, Fetch(c, twice, i))
  {
  }

  lemma ExecKeepsActOk(a: Act, ins: Instr, cpuId: int, m: Mem)
    requires a.Busy? && a.pc.At? && ActOk(a) && Shape(a.call, a.pc.i, ins)
    requires a.pc.i >= 3 ==> a.cpu == cpuId
    ensures var a' := ExecInstr(a, ins, cpuId, m);
            && a'.Busy? && a'.call == a.call && a'.cpu == a.cpu && a'.site == a.site && ActOk(a')
            && (a'.pc.At? && a'.pc.i >= 3 ==> a.cpu == cpuId)
            && (a'.pc.At? && a'.pc.i >= 2 ==> a.pc.i >= 1)
            && (!a'.pc.At? && a.cpu != cpuId ==> a'.pc.l == Abort)
  {
  }

  lemma InstructionKeepsKInv(s: State, t: nat)
    requires KInv(s) && t < |s.th| && CanStep(s.th[t])
    ensures KInv(Instruction(s, t))
  {
    var x := s.th[t];
    if x.act.pc.At? {
      FetchShape(x.act.call, s.twice, x.act.pc.i);
      ExecKeepsActOk(x.act, Fetch(x.act.call, s.twice, x.act.pc.i), x.cpuId, s.mem);
    }
  }

  // The cell the final store of a section writes, and what it puts there.
  ghost function Target(a: Act): Addr
    requires a.Busy?
  {
    if a.call.AddLoadLoadAddStore? then a.r.rcx else a.call.v
  }

  ghost function Stored(a: Act, m: Mem): Word
    requires a.Busy?
  {
    match a.call
    case CbeqStoreAddLoadStore(_, _, _, _) => a.r.rbx
    case AddStore(v, count) => Get(m, v) + count
    case AddLoadLoadAddStore(_, _, inc) => Get(m, a.r.rcx) + inc
    case _ => a.call.newv
  }

  /** The commit instruction leaves through label Ok and writes one cell: the target of
      the helper gets its new value. */
  lemma CommitStep(a: Act, twice: bool, cpuId: int, m: Mem)
    requires a.Busy? && a.pc == At(Len(a.call) - 1)
    ensures Exec(a, twice, cpuId, m).0 == a.(pc := Goto(a.call, Ok), commits := a.commits + 1)
    ensures Exec(a, twice, cpuId, m).1 == m[Target(a) := Stored(a, m)]
  {
  }

  // ---------------------------------------------------------------- memory side

  /** The arguments a caller may pass: the speculative stores must not overwrite
      the commit target, nor the source they copy from. */
  ghost predicate WellFormed(c: Call) {
    match c
    case CbneStoreStore(v, _, v2, _, _) => v != v2
    case CbneMemcpyStore(v, _, dst, src, len, _, _) =>
      !(dst <= v < dst + len) && (dst + len <= src || src + len <= dst)
    case _ => true
  }

  ghost predicate SameByte(m: Mem, dst: Addr, src: Addr, j: int) {
    Get(m, dst + j) == Get(m, src + j)
  }

  ghost predicate Copied(m: Mem, dst: Addr, src: Addr, lo: int, hi: int) {
    forall j :: lo <= j < hi ==> SameByte(m, dst, src, j)
  }

  /** What a section at instruction i knows about the current memory: its loads
      are still up to date and its speculative stores are still in place. */
  ghost predicate Section(a: Act, m: Mem)
    requires a.Busy? && a.pc.At?
  {
    var i, r := a.pc.i, a.r;
    match a.call
    case CbneStore(v, e, _) => i >= 4 ==> Get(m, v) == e
    case CbeqStoreAddLoadStore(v, x, off, load) =>
      var r1 := Get(m, v);
      && (4 <= i <= 9 ==> r.rbx == r1)
      && (i >= 5 ==> r1 != x)
      && (i >= 9 ==> Get(m, load) == r1)
      && (i == 10 ==> r.rbx == r1 + off)
      && (i >= 11 ==> r.rbx == Get(m, r1 + off))
    case AddStore(_, _) => true
    case AddLoadLoadAddStore(p, off, _) =>
      var r1 := Get(m, p);
      && (i == 5 ==> r.rbx == r1)
      && (i == 6 ==> r.rbx == r1 + off)
      && (i >= 7 ==> r.rcx == Get(m, r1 + off))
    case CbneLoadCbneStore(v, e, v2, e2, _) =>
      && (i >= 4 ==> Get(m, v) == e)
      && (i >= 5 ==> Get(m, v2) == e2)
    case CbneStoreStore(v, e, v2, n2, _) =>
      && (i >= 4 ==> Get(m, v) == e)
      && (i >= 7 ==> Get(m, v2) == n2)
    case CbneMemcpyStore(v, e, dst, src, len, _, backward) =>
      && (i >= 4 ==> Get(m, v) == e)
      && (i >= 12 ==> Copied(m, dst, src, 0, len))
      && (if backward then
            && (7 <= i <= 11 ==> len > 0)
            && (8 <= i <= 10 ==> 0 <= r.tmp <= len && (i == 8 ==> 0 < r.tmp) && (i > 8 ==> r.tmp < len))
            && (i == 11 ==> 0 <= r.tmp < len)
            && (i == 8 ==> Copied(m, dst, src, r.tmp, len))
            && (9 <= i <= 10 ==> Copied(m, dst, src, r.tmp + 1, len))
            && (i == 10 ==> r.al == Get(m, src + r.tmp))
            && (i == 11 ==> Copied(m, dst, src, r.tmp, len))
          else
            && (1 <= i <= 6 ==> r.src == src && r.dst == dst && r.len == len)
            && (7 <= i <= 11 ==>
                  var k := len - r.len;
                  && 0 <= k < len
                  && r.src == src + k + (if i >= 10 then 1 else 0)
                  && r.dst == dst + k + (if i >= 11 then 1 else 0)
                  && Copied(m, dst, src, 0, if i >= 9 then k + 1 else k)
                  && (i == 8 ==> r.al == Get(m, src + k))))
  }

  /** The cells `Section` depends on, from the first comparison or load on. */
  ghost predicate Depends(a: Act, m: Mem, x: Addr)
    requires a.Busy?
  {
    a.pc.At? && a.pc.i >= 4 &&
    match a.call
    case CbneStore(v, _, _) => x == v
    case CbeqStoreAddLoadStore(v, _, off, load) => x == v || x == load || x == Get(m, v) + off
    case AddStore(_, _) => false
    case AddLoadLoadAddStore(p, off, _) => x == p || x == Get(m, p) + off
    case CbneLoadCbneStore(v, _, v2, _, _) => x == v || x == v2
    case CbneStoreStore(v, _, v2, _, _) => x == v || x == v2
    case CbneMemcpyStore(v, _, dst, src, len, _, _) => x == v || dst <= x < dst + len || src <= x < src + len
  }

  lemma CopyFrame(a: Act, m: Mem, m': Mem)
    requires a.Busy? && a.pc.At? && a.call.CbneMemcpyStore? && Section(a, m)
    requires forall x :: Depends(a, m, x) ==> Get(m', x) == Get(m, x)
    ensures Section(a, m')
  {
    var c := a.call;
    if a.pc.i < 4 { return; }
    assert Depends(a, m, c.v);
    forall j | 0 <= j < c.len && SameByte(m, c.dst, c.src, j)
      ensures SameByte(m', c.dst, c.src, j)
    {
      assert Depends(a, m, c.dst + j) && Depends(a, m, c.src + j);
    }
    if !c.backward && 7 <= a.pc.i <= 11 {
      assert Depends(a, m, c.src + (c.len - a.r.len));
    }
    if c.backward && a.pc.i == 10 {
      assert Depends(a, m, c.src + a.r.tmp);
    }
  }

  /** `Section` survives every change that spares the cells it depends on. */
  lemma SectionFrame(a: Act, m: Mem, m': Mem)
    requires a.Busy? && a.pc.At? && Section(a, m)
    requires forall x :: Depends(a, m, x) ==> Get(m', x) == Get(m, x)
    ensures Section(a, m')
  {
    if a.pc.i < 4 { return; }
    match a.call
    case CbneMemcpyStore(_, _, _, _, _, _, _) => CopyFrame(a, m, m');
    case CbeqStoreAddLoadStore(v, _, off, load) =>
      assert Depends(a, m, v) && Depends(a, m, load) && Depends(a, m, Get(m, v) + off);
    case AddLoadLoadAddStore(p, off, _) =>
      assert Depends(a, m, p) && Depends(a, m, Get(m, p) + off);
    case CbneStore(v, _, _) => assert Depends(a, m, v);
    case CbneLoadCbneStore(v, _, v2, _, _) => assert Depends(a, m, v) && Depends(a, m, v2);
    case CbneStoreStore(v, _, v2, _, _) => assert Depends(a, m, v) && Depends(a, m, v2);
    case AddStore(_, _) =>
  }

  /** A copying section keeps `Section` through the forward loop. */
  lemma ForwardCopyKeepsSection(a: Act, twice: bool, cpuId: int, m: Mem)
    requires a.Busy? && a.pc.At? && ActOk(a) && WellFormed(a.call) && Section(a, m)
    requires a.call.CbneMemcpyStore? && !a.call.backward && 6 <= a.pc.i < 12
    ensures var (a', m') := Exec(a, twice, cpuId, m);
            && a'.pc.At? && Section(a', m')
            && forall x :: !(a.call.dst <= x < a.call.dst + a.call.len) ==> Get(m', x) == Get(m, x)
  {
    var (a', m') := Exec(a, twice, cpuId, m);
    var (dst, src, len) := (a.call.dst, a.call.src, a.call.len);
    if a.pc.i == 8 {
      var k := len - a.r.len;
      forall j | 0 <= j < k + 1 ensures SameByte(m', dst, src, j) {
        if j < k { assert SameByte(m, dst, src, j); }
      }
    }
  }

  /** ... and through the backward loop. */
  lemma BackwardCopyKeepsSection(a: Act, twice: bool, cpuId: int, m: Mem)
    requires a.Busy? && a.pc.At? && ActOk(a) && WellFormed(a.call) && Section(a, m)
    requires a.call.CbneMemcpyStore? && a.call.backward && 6 <= a.pc.i < 12
    ensures var (a', m') := Exec(a, twice, cpuId, m);
            && a'.pc.At? && Section(a', m')
            && forall x :: !(a.call.dst <= x < a.call.dst + a.call.len) ==> Get(m', x) == Get(m, x)
  {
    var (a', m') := Exec(a, twice, cpuId, m);
    var (dst, src, len) := (a.call.dst, a.call.src, a.call.len);
    if a.pc.i == 10 {
      forall j | a.r.tmp <= j < len ensures SameByte(m', dst, src, j) {
        if a.r.tmp < j { assert SameByte(m, dst, src, j); }
      }
    }
  }

  /** A section keeps `Section` through its own instructions, and never branches to
      a bug label. */
  lemma ExecKeepsSection(a: Act, twice: bool, cpuId: int, m: Mem)
    requires a.Busy? && a.pc.At? && ActOk(a) && WellFormed(a.call) && Section(a, m)
    requires a.pc.i >= 3 ==> a.cpu == cpuId
    ensures var (a', m') := Exec(a, twice, cpuId, m);
            && (a'.pc.At? ==> Section(a', m'))
            && (!a'.pc.At? ==> a'.pc.l == Ok || a'.pc.l == Differs || a'.pc.l == Abort)
  {
    if a.call.CbneMemcpyStore? {
      CopyingExecKeepsSection(a, twice, cpuId, m);
    } else if a.call.CbeqStoreAddLoadStore? {
      PopExecKeepsSection(a, twice, cpuId, m);
    } else if a.call.AddLoadLoadAddStore? || a.call.CbneLoadCbneStore? {
      LoadExecKeepsSection(a, twice, cpuId, m);
    }
  }

  lemma LoadExecKeepsSection(a: Act, twice: bool, cpuId: int, m: Mem)
    requires a.Busy? && a.pc.At? && ActOk(a) && Section(a, m)
    requires a.call.AddLoadLoadAddStore? || a.call.CbneLoadCbneStore?
    requires a.pc.i >= 3 ==> a.cpu == cpuId
    ensures var (a', m') := Exec(a, twice, cpuId, m);
            && (a'.pc.At? ==> Section(a', m'))
            && (!a'.pc.At? ==> a'.pc.l == Ok || a'.pc.l == Differs || a'.pc.l == Abort)
  {
  }

  lemma PopExecKeepsSection(a: Act, twice: bool, cpuId: int, m: Mem)
    requires a.Busy? && a.pc.At? && ActOk(a) && Section(a, m)
    requires a.call.CbeqStoreAddLoadStore?
    requires a.pc.i >= 3 ==> a.cpu == cpuId
    ensures var (a', m') := Exec(a, twice, cpuId, m);
            && (a'.pc.At? ==> Section(a', m'))
            && (!a'.pc.At? ==> a'.pc.l == Ok || a'.pc.l == Differs || a'.pc.l == Abort)
  {
  }

  lemma CopyingExecKeepsSection(a: Act, twice: bool, cpuId: int, m: Mem)
    requires a.Busy? && a.pc.At? && ActOk(a) && WellFormed(a.call) && Section(a, m)
    requires a.call.CbneMemcpyStore?
    requires a.pc.i >= 3 ==> a.cpu == cpuId
    ensures var (a', m') := Exec(a, twice, cpuId, m);
            && (a'.pc.At? ==> Section(a', m'))
            && (!a'.pc.At? ==> a'.pc.l == Ok || a'.pc.l == Differs || a'.pc.l == Abort)
  {
    if 6 <= a.pc.i < 12 {
      if a.call.backward {
        BackwardCopyKeepsSection(a, twice, cpuId, m);
      } else {
        ForwardCopyKeepsSection(a, twice, cpuId, m);
      }
    }
  }
}
