/**
 The restartable-sequence machine: threads that run the seven critical-section
 helpers one instruction at a time, and a kernel that preempts, schedules,
 migrates, signals and runs the rseq memory barrier.

 Memory is sequentially consistent.  A cell is a word or a byte, depending on
 how the data structure that owns it declares it; a cell never written reads 0.
 */
module Machine {

  const STRIDE: int := 65536  // RSEQ_MEMPOOL_STRIDE, between the per-CPU areas of a pool

  type Addr = int
  type Word = int
  type Mem = map<Addr, Word>

  function Get(m: Mem, a: Addr): Word {
    if a in m then m[a] else 0
  }

  // Two memories that no load can tell apart.
  ghost predicate SameMem(m: Mem, m': Mem) {
    forall a: Addr :: Get(m, a) == Get(m', a)
  }

  /** The seven helpers with their C arguments.  A memory copy runs forwards on
      x86-64 and backwards on aarch64. */
  datatype Call =
    | CbneStore(v: Addr, want: Word, newv: Word)
    | CbeqStoreAddLoadStore(v: Addr, avoid: Word, voffp: int, load: Addr)
    | AddStore(v: Addr, count: Word)
    | AddLoadLoadAddStore(ptr: Addr, off: int, inc: Word)
    | CbneLoadCbneStore(v: Addr, want: Word, v2: Addr, want2: Word, newv: Word)
    | CbneStoreStore(v: Addr, want: Word, v2: Addr, newv2: Word, newv: Word)
    | CbneMemcpyStore(v: Addr, want: Word, dst: Addr, src: Addr, len: nat, newv: Word, backward: bool)

  /** The exit labels: fall through after the commit, the "ne"/"eq" branch, the
      abort handler and the three RSEQ_COMPARE_TWICE bug labels. */
  datatype Label = Ok | Differs | Abort | Err1 | Err2 | Err3

  // Instruction pointer inside a helper: an instruction, a teardown, a C label.
  datatype Pc = At(i: nat) | Tear(l: Label) | Exit(l: Label)

  datatype Instr =
    | Setup                                       // descriptor address to rax; save src, dst, len
    | StoreCs                                     // publish rseq_cs
    | CbneCpu(to: Label)                          // cmpl cpu_id, current cpu_id; jnz
    | CbneMem(a: Addr, k: Word, to: Label)        // cmpq mem, k; jne
    | LoadRbx(a: Addr)
    | CbeqRbx(k: Word, to: Label)
    | StoreRbx(a: Addr)
    | AddRbx(k: int)
    | LoadRbxInd                                  // rbx := [rbx]
    | LoadRcxInd                                  // rcx := [rbx]
    | StoreWord(k: Word, a: Addr)
    | AddMem(k: Word, a: Addr)
    | AddMemRcx(k: Word)                          // [rcx] += k
    | TestLen(end: nat)
    | LoadAl | StoreAl | IncSrc | IncDst
    | DecLen(loop: nat)
    | MovTmp | SubTmp | LoadAlIdx | StoreAlIdx    // aarch64: tmp counts down from len
    | LoopTmp(loop: nat)
    | Skip                                        // a check compiled out

  datatype Regs = Regs(rbx: Word, rcx: Word, al: Word, tmp: int,
                       src: Addr, dst: Addr, len: int,
                       scratch0: Word, scratch1: Word, scratch2: Word)

  /** A helper call in progress.  `commits` counts the executions of its final store. */
  datatype Act =
    | Idle
    | Busy(call: Call, cpu: int, site: nat, pc: Pc, r: Regs, commits: nat)

  /** A thread: the CPU it runs on (-1 when preempted), whether it registered its
      struct rseq, the cpu_id field, and rseq_cs (-1 for NULL). */
  datatype Thread = Thread(on: int, reg: bool, cpuId: int, cs: int, act: Act)

  datatype State = State(mem: Mem, th: seq<Thread>, nCpus: nat, twice: bool)

  // ---------------------------------------------------------------- code

  function Len(c: Call): nat
    ensures Len(c) >= 5
  {
    match c
    case CbneStore(_, _, _) => 7
    case CbeqStoreAddLoadStore(_, _, _, _) => 12
    case AddStore(_, _) => 5
    case AddLoadLoadAddStore(_, _, _) => 8
    case CbneLoadCbneStore(_, _, _, _, _) => 9
    case CbneStoreStore(_, _, _, _, _) => 8
    case CbneMemcpyStore(_, _, _, _, _, _, _) => 13
  }

  // The second comparisons exist only under RSEQ_COMPARE_TWICE.
  function Twice(twice: bool, i: Instr): Instr {
    if twice then i else Skip
  }

  /** Instruction i of a helper.  Instructions 2 .. Len-1 form the window
      [start_ip, start_ip + post_commit_offset); the last one is the commit. */
  function Fetch(c: Call, twice: bool, i: nat): Instr
    requires i < Len(c)
  {
    if i == 0 then Setup
    else if i == 1 then StoreCs
    else if i == 2 then CbneCpu(Abort)
    else match c
      case CbneStore(v, e, n) =>
        if i == 3 then CbneMem(v, e, Differs)
        else if i == 4 then Twice(twice, CbneCpu(Err1))
        else if i == 5 then Twice(twice, CbneMem(v, e, Err2))
        else StoreWord(n, v)
      case CbeqStoreAddLoadStore(v, x, off, load) =>
        if i == 3 then LoadRbx(v)
        else if i == 4 then CbeqRbx(x, Differs)
        else if i == 5 then Twice(twice, CbneCpu(Err1))
        else if i == 6 then Twice(twice, LoadRbx(v))
        else if i == 7 then Twice(twice, CbeqRbx(x, Err2))
        else if i == 8 then StoreRbx(load)
        else if i == 9 then AddRbx(off)
        else if i == 10 then LoadRbxInd
        else StoreRbx(v)
      case AddStore(v, k) =>
        if i == 3 then Twice(twice, CbneCpu(Err1))
        else AddMem(k, v)
      case AddLoadLoadAddStore(p, off, k) =>
        if i == 3 then Twice(twice, CbneCpu(Err1))
        else if i == 4 then LoadRbx(p)
        else if i == 5 then AddRbx(off)
        else if i == 6 then LoadRcxInd
        else AddMemRcx(k)
      case CbneLoadCbneStore(v, e, v2, e2, n) =>
        if i == 3 then CbneMem(v, e, Differs)
        else if i == 4 then CbneMem(v2, e2, Differs)
        else if i == 5 then Twice(twice, CbneCpu(Err1))
        else if i == 6 then Twice(twice, CbneMem(v, e, Err2))
        else if i == 7 then Twice(twice, CbneMem(v2, e2, Err3))
        else StoreWord(n, v)
      case CbneStoreStore(v, e, v2, n2, n) =>
        if i == 3 then CbneMem(v, e, Differs)
        else if i == 4 then Twice(twice, CbneCpu(Err1))
        else if i == 5 then Twice(twice, CbneMem(v, e, Err2))
        else if i == 6 then StoreWord(n2, v2)
        else StoreWord(n, v)
      case CbneMemcpyStore(v, e, _, _, _, n, backward) =>
        if i == 3 then CbneMem(v, e, Differs)
        else if i == 4 then Twice(twice, CbneCpu(Err1))
        else if i == 5 then Twice(twice, CbneMem(v, e, Err2))
        else if i == 6 then TestLen(12)
        else if i == 12 then StoreWord(n, v)
        else if backward then
          (if i == 7 then MovTmp
           else if i == 8 then SubTmp
           else if i == 9 then LoadAlIdx
           else if i == 10 then StoreAlIdx
           else LoopTmp(8))
        else
          (if i == 7 then LoadAl
           else if i == 8 then StoreAl
           else if i == 9 then IncSrc
           else if i == 10 then IncDst
           else DecLen(7))
  }

  // Jump to an exit label; the x86-64 copy restores src, dst and len first.
  function Goto(c: Call, l: Label): Pc {
    if c.CbneMemcpyStore? && !c.backward then Tear(l) else Exit(l)
  }

  // Where an instruction goes; `fall` is the next instruction or the fall-through exit.
  function Jump(a: Act, ins: Instr, cpuId: int, m: Mem, fall: Pc): Pc
    requires a.Busy?
  {
    match ins
    case CbneCpu(to) => if a.cpu != cpuId then Goto(a.call, to) else fall
    case CbneMem(x, k, to) => if Get(m, x) != k then Goto(a.call, to) else fall
    case CbeqRbx(k, to) => if a.r.rbx == k then Goto(a.call, to) else fall
    case TestLen(end) => if a.r.len == 0 then At(end) else fall
    case DecLen(loop) => if a.r.len - 1 != 0 then At(loop) else fall
    case LoopTmp(loop) => if a.r.tmp != 0 then At(loop) else fall
    case _ => fall
  }

  // What an instruction does to the registers.
  function Operate(r: Regs, ins: Instr, m: Mem): Regs {
    match ins
    case Setup => r.(scratch0 := r.src, scratch1 := r.dst, scratch2 := r.len)
    case LoadRbx(x) => r.(rbx := Get(m, x))
    case AddRbx(k) => r.(rbx := r.rbx + k)
    case LoadRbxInd => r.(rbx := Get(m, r.rbx))
    case LoadRcxInd => r.(rcx := Get(m, r.rbx))
    case LoadAl => r.(al := Get(m, r.src))
    case IncSrc => r.(src := r.src + 1)
    case IncDst => r.(dst := r.dst + 1)
    case DecLen(_) => r.(len := r.len - 1)
    case MovTmp => r.(tmp := r.len)
    case SubTmp => r.(tmp := r.tmp - 1)
    case LoadAlIdx => r.(al := Get(m, r.src + r.tmp))
    case _ => r
  }

  // What an instruction does to memory.
  function Effect(r: Regs, ins: Instr, m: Mem): Mem {
    match ins
    case StoreRbx(x) => m[x := r.rbx]
    case StoreWord(k, x) => m[x := k]
    case AddMem(k, x) => m[x := Get(m, x) + k]
    case AddMemRcx(k) => m[r.rcx := Get(m, r.rcx) + k]
    case StoreAl => m[r.dst := r.al]
    case StoreAlIdx => m[r.dst + r.tmp := r.al]
    case _ => m
  }

  function ExecInstr(a: Act, ins: Instr, cpuId: int, m: Mem): Act
    requires a.Busy? && a.pc.At? && a.pc.i < Len(a.call)
  {
    var last := a.pc.i == Len(a.call) - 1;
    var fall := if last then Goto(a.call, Ok) else At(a.pc.i + 1);
    a.(pc := Jump(a, ins, cpuId, m, fall),
       r := Operate(a.r, ins, m),
       commits := if last then a.commits + 1 else a.commits)
  }

  /** One instruction of a helper at At(i) on a thread whose cpu_id field is `cpuId`. */
  function Exec(a: Act, twice: bool, cpuId: int, m: Mem): (Act, Mem)
    requires a.Busy? && a.pc.At? && a.pc.i < Len(a.call)
  {
    var ins := Fetch(a.call, twice, a.pc.i);
    (ExecInstr(a, ins, cpuId, m), Effect(a.r, ins, m))
  }

  // The teardown reloads the three registers from their scratch slots.
  function Teardown(a: Act): Act
    requires a.Busy? && a.pc.Tear?
  {
    a.(pc := Exit(a.pc.l),
       r := a.r.(len := a.r.scratch2, dst := a.r.scratch1, src := a.r.scratch0))
  }

  /** One user instruction of a running thread that is inside a helper. */
  function Instruction(s: State, t: nat): State
    requires t < |s.th| && CanStep(s.th[t])
  {
    var x := s.th[t];
    if x.act.pc.Tear? then s.(th := s.th[t := x.(act := Teardown(x.act))])
    else
      var (a, m) := Exec(x.act, s.twice, x.cpuId, s.mem);
      var cs := if x.act.pc.i == 1 then x.act.site else x.cs;
      s.(mem := m, th := s.th[t := x.(act := a, cs := cs)])
  }

  predicate CanStep(x: Thread) {
    x.on >= 0 && x.act.Busy? && (x.act.pc.At? ==> x.act.pc.i < Len(x.act.call)) && !x.act.pc.Exit?
  }

  // Entry to a helper: the registers hold the C arguments, the rest is arbitrary.
  function Enter(c: Call, cpu: int, site: nat, junk: Regs): Act {
    Busy(c, cpu, site, At(0),
         if c.CbneMemcpyStore? then junk.(src := c.src, dst := c.dst, len := c.len) else junk, 0)
  }

  // Return value at a C label: 0, 1 or -1.
  function ReturnValue(l: Label): int {
    if l == Ok then 0 else if l == Differs then 1 else -1
  }

  // ---------------------------------------------------------------- kernel

  /** The thread's ip lies in the window of the descriptor rseq_cs points to. */
  predicate InWindow(x: Thread) {
    x.act.Busy? && x.act.pc.At? && 2 <= x.act.pc.i < Len(x.act.call) && x.cs == x.act.site
  }

  /** The fix-up on return to user space: abort a section whose window holds ip,
      and clear rseq_cs either way. */
  function Fixup(x: Thread): Thread {
    if !x.reg then x
    else if InWindow(x) then x.(act := x.act.(pc := Goto(x.act.call, Abort)), cs := -1)
    else x.(cs := -1)
  }

  datatype Event = Preempt(t: nat) | Schedule(t: nat, c: int) | Signal(t: nat) | Membarrier(c: int)

  predicate Enabled(s: State, e: Event) {
    match e
    case Preempt(t) => t < |s.th| && s.th[t].on >= 0
    case Schedule(t, c) =>
      t < |s.th| && s.th[t].on == -1 && 0 <= c < s.nCpus && forall u :: 0 <= u < |s.th| ==> s.th[u].on != c
    case Signal(t) => t < |s.th| && s.th[t].on >= 0
    case Membarrier(c) => true
  }

  /** A kernel step.  A migration is a Preempt followed by a Schedule elsewhere. */
  function Kernel(s: State, e: Event): State
    requires Enabled(s, e)
  {
    match e
    case Preempt(t) => s.(th := s.th[t := s.th[t].(on := -1)])
    case Schedule(t, c) =>
      var x := s.th[t].(on := c);
      s.(th := s.th[t := if x.reg then Fixup(x.(cpuId := c)) else x])
    case Signal(t) => s.(th := s.th[t := Fixup(s.th[t])])
    case Membarrier(c) =>
      s.(th := seq(|s.th|, i requires 0 <= i < |s.th| => if c >= 0 && s.th[i].on == c then Fixup(s.th[i]) else s.th[i]))
  }

  // cpu_id_start: the current CPU of a registered running thread, else 0.
  function CpuStart(x: Thread): int {
    if x.reg then x.cpuId else 0
  }

  // ---------------------------------------------------------------- pseudo-code

  function CopyBytes(m: Mem, dst: Addr, src: Addr, len: nat): Mem
  {
    if len == 0 then m
    else
      var m' := CopyBytes(m, dst, src, len - 1);
      m'[dst + len - 1 := Get(m, src + len - 1)]
  }

  /** The reference pseudo-code of a helper, run in one go: new memory and return value. */
  function Pseudo(c: Call, m: Mem): (Mem, int) {
    match c
    case CbneStore(v, e, n) =>
      if Get(m, v) != e then (m, 1) else (m[v := n], 0)
    case AddStore(v, k) =>
      (m[v := Get(m, v) + k], 0)
    case CbeqStoreAddLoadStore(v, x, off, load) =>
      var r1 := Get(m, v);
      if r1 == x then (m, 1)
      else
        var m1 := m[load := r1];
        var r2 := Get(m1, r1 + off);
        (m1[v := r2], 0)
    case AddLoadLoadAddStore(p, off, k) =>
      var r2 := Get(m, Get(m, p) + off);
      (m[r2 := Get(m, r2) + k], 0)
    case CbneLoadCbneStore(v, e, v2, e2, n) =>
      if Get(m, v) != e then (m, 1)
      else if Get(m, v2) != e2 then (m, 1)
      else (m[v := n], 0)
    case CbneStoreStore(v, e, v2, n2, n) =>
      if Get(m, v) != e then (m, 1) else (m[v2 := n2][v := n], 0)
    case CbneMemcpyStore(v, e, dst, src, len, n, _) =>
      if Get(m, v) != e then (m, 1) else (CopyBytes(m, dst, src, len)[v := n], 0)
  }
}
