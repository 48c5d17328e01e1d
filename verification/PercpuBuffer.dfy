/**
 The per-CPU buffers: an array of slots and an offset per CPU.  Threads pop the
 top item of the CPU they run on and push it back where they then run.  Items
 are node pointers, or 16-byte records copied byte by byte inside the section.
 */
module PercpuBuffer {
  import opened Machine
  import opened Sections
  import opened Atomicity
  import opened Conservation

  const RECORD: int := 16     // sizeof(struct percpu_memcpy_buffer_node)

  // What the slots hold; the byte copy of aarch64 runs backwards.
  datatype Kind = Pointers | Bytes(backward: bool)

  type Item = seq<Word>

  /** Offsets are in per-CPU memory; each CPU has an array of `cap` slots (buflen);
      each thread has a local record. */
  datatype Layout = Layout(kind: Kind, base: Addr, cap: nat, arr: seq<Addr>, item: seq<Addr>)

  function Off(y: Layout, c: int): Addr { y.base + STRIDE * c }

  // Bytes taken by i slots: a slot is a pointer or a record.
  function Slots(k: Kind, i: int): int { if k.Pointers? then 8 * i else RECORD * i }

  function Slot(y: Layout, c: nat, i: int): Addr
    requires c < |y.arr|
  {
    y.arr[c] + Slots(y.kind, i)
  }

  datatype Place = OffOf(c: nat) | ArrOf(c: nat) | ItemOf(t: nat)

  // Cell a belongs to place p.
  ghost predicate In(y: Layout, p: Place, a: Addr) {
    match p
    case OffOf(c) => c < |y.arr| && a == Off(y, c)
    case ArrOf(c) => c < |y.arr| && y.arr[c] <= a < Slot(y, c, y.cap)
    case ItemOf(t) => t < |y.item| && y.item[t] <= a < y.item[t] + RECORD
  }

  // Distinct places share no cell.
  ghost predicate LayoutOk(y: Layout, nCpus: nat) {
    && nCpus > 0 && |y.arr| == nCpus
    && forall p, q, a :: In(y, p, a) && In(y, q, a) ==> p == q
  }

  // Ready is between two iterations, Retry inside one whose pop has failed.
  datatype Pc = Ready | Retry | PopCpu | PopRead | PopLoaded | Popping | Holding | PushCpu | PushRead | Pushing | Full

  // The C locals: cpu, the offset read, and the node pointer.
  datatype Local = Local(pc: Pc, cpu: int, want: Word, node: Word)

  type World = Program<Local>

  function PushCall(y: Layout, l: Local, t: nat): Call
    requires 0 <= l.cpu < |y.arr| && t < |y.item|
  {
    var (off, slot) := (Off(y, l.cpu), Slot(y, l.cpu, l.want));
    match y.kind
    case Pointers => CbneStoreStore(off, l.want, slot, l.node, l.want + 1)
    case Bytes(backward) => CbneMemcpyStore(off, l.want, slot, y.item[t], RECORD, l.want + 1, backward)
  }

  function PopCall(y: Layout, l: Local, t: nat): Call
    requires 0 <= l.cpu < |y.arr| && t < |y.item|
  {
    var (off, slot) := (Off(y, l.cpu), Slot(y, l.cpu, l.want - 1));
    match y.kind
    case Pointers => CbneLoadCbneStore(off, l.want, slot, l.node, l.want - 1)
    case Bytes(backward) => CbneMemcpyStore(off, l.want, y.item[t], slot, RECORD, l.want - 1, backward)
  }

  predicate CanGo(y: Layout, w: World, t: nat) {
    && t < |w.s.th| && t < |w.loc| && t < |y.item| && 0 <= w.loc[t].cpu < |y.arr| && w.s.th[t].on >= 0
    && w.loc[t].pc != Full
    && var act := w.s.th[t].act;
       if w.loc[t].pc in {Popping, Pushing} then act.Busy? && act.pc.Exit? else act.Idle?
  }

  /** The locals after the next C statement of thread t. */
  function NextLocal(y: Layout, w: World, t: nat): Local
    requires CanGo(y, w, t)
  {
    var (x, l, m) := (w.s.th[t], w.loc[t], w.s.mem);
    match l.pc
    case Ready => l.(pc := PopCpu, cpu := CpuStart(x))
    case Retry => l.(pc := PopCpu, cpu := CpuStart(x))
    case PopCpu =>
      var o := Get(m, Off(y, l.cpu));
      if o == 0 then l.(pc := Ready)
      else l.(pc := if y.kind.Pointers? then PopRead else PopLoaded, want := o)
    case PopRead => l.(pc := PopLoaded, node := Get(m, Slot(y, l.cpu, l.want - 1)))
    case PopLoaded => l.(pc := Popping)
    case Popping => l.(pc := if ReturnValue(x.act.pc.l) == 0 then Holding else Retry)
    case Holding => l.(pc := PushCpu, cpu := CpuStart(x))
    case PushCpu =>
      var o := Get(m, Off(y, l.cpu));
      if o == y.cap then l.(pc := Full) else l.(pc := PushRead, want := o)
    case PushRead => l.(pc := Pushing)
    case Pushing => l.(pc := if ReturnValue(x.act.pc.l) == 0 then Ready else Holding)
    case Full => l
  }

  /** The machine step behind the next C statement of thread t. */
  ghost function Statement(y: Layout, w: World, t: nat, site: nat, junk: Regs): Step
    requires CanGo(y, w, t)
  {
    var l := w.loc[t];
    match l.pc
    case PopLoaded => Begin(t, PopCall(y, l, t), l.cpu, site, junk)
    case PushRead => Begin(t, PushCall(y, l, t), l.cpu, site, junk)
    case Popping => Return(t)
    case Pushing => Return(t)
    case _ => Compute(t)
  }

  datatype Move = K(e: Event) | I(t: nat) | C(t: nat, site: nat, junk: Regs)

  ghost predicate CanMove(y: Layout, w: World, v: Move) {
    match v
    case K(e) => Enabled(w.s, e)
    case I(t) => t < |w.s.th| && CanStep(w.s.th[t])
    case C(t, site, junk) => CanGo(y, w, t) && EnabledStep(w.s, Statement(y, w, t, site, junk))
  }

  /** The machine step of a move. */
  ghost function StepOf(y: Layout, w: World, v: Move): Step
    requires CanMove(y, w, v)
    ensures EnabledStep(w.s, StepOf(y, w, v))
  {
    match v
    case K(e) => Kern(e)
    case I(t) => User(t)
    case C(t, site, junk) => Statement(y, w, t, site, junk)
  }

  ghost function Do(y: Layout, w: World, v: Move): World
    requires CanMove(y, w, v)
  {
    Program(Apply(w.s, StepOf(y, w, v)), if v.C? then w.loc[v.t := NextLocal(y, w, v.t)] else w.loc)
  }

  // ---------------------------------------------------------------- invariant

  // The item stored from address a on.
  ghost function ItemAt(k: Kind, m: Mem, a: Addr): Item {
    if k.Pointers? then [Get(m, a)] else seq(RECORD, j requires 0 <= j < RECORD => Get(m, a + j))
  }

  // The item thread t has in hand.
  ghost function Mine(y: Layout, m: Mem, t: nat, l: Local): Item
    requires t < |y.item|
  {
    if y.kind.Pointers? then [l.node] else ItemAt(y.kind, m, y.item[t])
  }

  ghost predicate LocalOk(y: Layout, x: Thread, l: Local, m: Mem, t: nat, h: seq<Item>)
    requires t < |y.item|
  {
    && 0 <= l.cpu < |y.arr|
    && (l.pc in {Popping, Pushing} ==> x.act.Busy? && x.act.cpu == l.cpu)
    && (l.pc !in {Popping, Pushing} ==> x.act.Idle?)
    && (l.pc in {PopRead, PopLoaded, Popping} ==> 0 < l.want <= y.cap)
    && (l.pc in {PushRead, Pushing} ==> 0 <= l.want < y.cap)
    && (l.pc == Popping ==> x.act.call == PopCall(y, l, t))
    && (l.pc == Pushing ==> x.act.call == PushCall(y, l, t))
    && (var has := if l.pc == Popping then x.act.commits == 1
                   else if l.pc == Pushing then x.act.commits != 1
                   else l.pc in {Holding, PushCpu, PushRead, Full};
        h == if has then [Mine(y, m, t, l)] else [])
  }

  // CPU c's buffer holds q: the offset counts the items, and each slot below it has its item.
  ghost predicate Holds(y: Layout, m: Mem, c: nat, q: seq<Item>)
    requires c < |y.arr|
  {
    && Get(m, Off(y, c)) == |q| <= y.cap
    && forall i :: 0 <= i < |q| ==> q[i] == ItemAt(y.kind, m, Slot(y, c, i))
  }

  // held[t] is what thread t has in hand.
  ghost predicate Hands(y: Layout, w: World, held: seq<seq<Item>>) {
    && |w.s.th| == |w.loc| == |y.item| == |held|
    && forall t :: 0 <= t < |held| ==> LocalOk(y, w.s.th[t], w.loc[t], w.s.mem, t, held[t])
  }

  // bufs[c] is the content of CPU c's buffer.
  ghost predicate Content(y: Layout, w: World, all: multiset<Item>, bufs: seq<seq<Item>>, held: seq<seq<Item>>) {
    && LayoutOk(y, w.s.nCpus) && Hands(y, w, held) && |bufs| == w.s.nCpus
    && (forall c :: 0 <= c < |bufs| ==> Holds(y, w.s.mem, c, bufs[c]))
    && Sum(bufs) + Sum(held) == all
  }

  ghost predicate Inv(y: Layout, w: World, all: multiset<Item>, bufs: seq<seq<Item>>, held: seq<seq<Item>>) {
    KInv(w.s) && SInv(w.s) && Content(y, w, all, bufs, held)
  }

  lemma ItemFrame(k: Kind, m: Mem, m': Mem, a: Addr)
    requires forall x :: a <= x < a + Slots(k, 1) ==> Get(m', x) == Get(m, x)
    ensures ItemAt(k, m', a) == ItemAt(k, m, a)
  {
  }

  lemma HoldsFrame(y: Layout, m: Mem, m': Mem, c: nat, q: seq<Item>)
    requires c < |y.arr| && Holds(y, m, c, q) && Get(m', Off(y, c)) == |q|
    requires forall a :: y.arr[c] <= a < Slot(y, c, |q|) ==> Get(m', a) == Get(m, a)
    ensures Holds(y, m', c, q)
  {
    forall i | 0 <= i < |q| ensures q[i] == ItemAt(y.kind, m', Slot(y, c, i)) {
      ItemFrame(y.kind, m, m', Slot(y, c, i));
    }
  }

  // ---------------------------------------------------------------- instructions before the commit

  // What is known of thread t itself.
  ghost predicate ThreadInv(w: World, t: nat)
    requires t < |w.s.th|
  {
    ThreadOk(w.s.th[t], w.s.nCpus) && SThread(w.s.th[t], w.s.mem)
  }

  /** The cells thread t may scribble on before its commit: the slot above the
      current top when it pushes, its own record when it pops. */
  ghost predicate Scratch(y: Layout, w: World, bufs: seq<seq<Item>>, t: nat, a: Addr)
    requires t < |w.loc| && t < |y.item| && 0 <= w.loc[t].cpu < |bufs| == |y.arr|
  {
    if w.loc[t].pc == Pushing then
      && Slot(y, w.loc[t].cpu, |bufs[w.loc[t].cpu]|) <= a < Slot(y, w.loc[t].cpu, |bufs[w.loc[t].cpu]| + 1)
      && In(y, ArrOf(w.loc[t].cpu), a)
    else In(y, ItemOf(t), a)
  }

  lemma EarlyInstructionsStoreNothing(a: Act, twice: bool, m: Mem)
    requires a.Busy? && a.pc.At? && a.pc.i < 6
    requires a.call.CbneStoreStore? || a.call.CbneMemcpyStore? || a.call.CbneLoadCbneStore?
    ensures Effect(a.r, Fetch(a.call, twice, a.pc.i), m) == m
  {
  }

  // An instruction before the commit, or a teardown.
  ghost predicate BeforeCommit(x: Thread) {
    CanStep(x) && (x.act.pc.At? ==> x.act.pc.i < Len(x.act.call) - 1)
  }

  // Such an instruction changes scratch cells only.
  lemma SpeculationStaysInScratch(y: Layout, w: World, all: multiset<Item>, bufs: seq<seq<Item>>, held: seq<seq<Item>>,
                                  t: nat, a: Addr)
    requires Content(y, w, all, bufs, held) && t < |held| && BeforeCommit(w.s.th[t]) && ThreadInv(w, t)
    requires Get(Instruction(w.s, t).mem, a) != Get(w.s.mem, a)
    ensures w.loc[t].pc in {Popping, Pushing} && 0 <= w.loc[t].cpu < |bufs| == |y.arr| && Scratch(y, w, bufs, t, a)
    ensures w.loc[t].cpu == w.s.th[t].on
  {
    var x := w.s.th[t];
    assert LocalOk(y, x, w.loc[t], w.s.mem, t, held[t]);
    assert Holds(y, w.s.mem, w.loc[t].cpu, bufs[w.loc[t].cpu]);
    if !Speculative(x.act.call, a) {
      OnlyCommitWrites(x.act, w.s.twice, x.cpuId, w.s.mem, a);
    }
    if x.act.pc.i < 6 {
      EarlyInstructionsStoreNothing(x.act, w.s.twice, w.s.mem);
    }
  }

  lemma ScratchChanges(y: Layout, w: World, all: multiset<Item>, bufs: seq<seq<Item>>, held: seq<seq<Item>>, t: nat)
    requires Content(y, w, all, bufs, held) && t < |held| && BeforeCommit(w.s.th[t]) && ThreadInv(w, t)
    ensures 0 <= w.loc[t].cpu < |bufs| == |y.arr|
    ensures forall a :: Get(Instruction(w.s, t).mem, a) != Get(w.s.mem, a) ==>
              Scratch(y, w, bufs, t, a) && w.loc[t].pc in {Popping, Pushing} && w.loc[t].cpu == w.s.th[t].on
  {
    assert LocalOk(y, w.s.th[t], w.loc[t], w.s.mem, t, held[t]);
    forall a | Get(Instruction(w.s, t).mem, a) != Get(w.s.mem, a)
      ensures Scratch(y, w, bufs, t, a) && w.loc[t].pc in {Popping, Pushing} && w.loc[t].cpu == w.s.th[t].on
    {
      SpeculationStaysInScratch(y, w, all, bufs, held, t, a);
    }
  }

  // ---------------------------------------------------------------- no move disturbs a section

  /** A running section touches and reads only the offset and array of the CPU it
      runs on and its thread's own record. */
  lemma SectionCells(y: Layout, w: World, all: multiset<Item>, bufs: seq<seq<Item>>, held: seq<seq<Item>>,
                     u: nat, a: Addr)
    requires Content(y, w, all, bufs, held) && u < |held| && ThreadOk(w.s.th[u], w.s.nCpus)
    requires Active(w.s.th[u]) && Depends(w.s.th[u].act, w.s.mem, a)
    ensures var c := w.s.th[u].on; c >= 0 && (In(y, OffOf(c), a) || In(y, ArrOf(c), a) || In(y, ItemOf(u), a))
  {
    assert LocalOk(y, w.s.th[u], w.loc[u], w.s.mem, u, held[u]);
  }

  // The cells of a thread: those of its CPU and its own record.
  ghost predicate OwnCell(y: Layout, x: Thread, t: nat, a: Addr) {
    x.on >= 0 && (In(y, OffOf(x.on), a) || In(y, ArrOf(x.on), a) || In(y, ItemOf(t), a))
  }

  // Threads on different CPUs share no cell.
  lemma OwnCellsAreDisjoint(y: Layout, x: Thread, t: nat, z: Thread, u: nat, n: nat, a: Addr)
    requires LayoutOk(y, n) && t != u && x.on != z.on && OwnCell(y, x, t, a)
    ensures !OwnCell(y, z, u, a)
  {
  }

  /** A helper instruction of thread t that changes only its own cells disturbs no other section. */
  lemma OwnCellsAreQuiet(y: Layout, w: World, all: multiset<Item>, bufs: seq<seq<Item>>, held: seq<seq<Item>>, t: nat)
    requires Content(y, w, all, bufs, held) && KInv(w.s) && t < |held| && CanStep(w.s.th[t])
    requires forall a :: Get(Instruction(w.s, t).mem, a) != Get(w.s.mem, a) ==> OwnCell(y, w.s.th[t], t, a)
    ensures Quiet(w.s, User(t))
  {
    forall u, x | 0 <= u < |w.s.th| && Active(w.s.th[u]) && u != t && Depends(w.s.th[u].act, w.s.mem, x)
      ensures Get(Instruction(w.s, t).mem, x) == Get(w.s.mem, x)
    {
      assert ThreadOk(w.s.th[u], w.s.nCpus);
      SectionCells(y, w, all, bufs, held, u, x);
      if OwnCell(y, w.s.th[t], t, x) { OwnCellsAreDisjoint(y, w.s.th[t], t, w.s.th[u], u, w.s.nCpus, x); }
    }
  }

  // The commit of a push or a pop writes the offset of its CPU.
  lemma CommitWritesOffset(y: Layout, w: World, all: multiset<Item>, bufs: seq<seq<Item>>, held: seq<seq<Item>>, t: nat)
    requires Content(y, w, all, bufs, held) && t < |held| && CanStep(w.s.th[t]) && ThreadOk(w.s.th[t], w.s.nCpus)
    requires w.s.th[t].act.pc == At(Len(w.s.th[t].act.call) - 1)
    ensures var (x, m) := (w.s.th[t], w.s.mem);
            && w.loc[t].cpu == x.on && 0 <= x.on < |y.arr| && x.act.commits == 0
            && Instruction(w.s, t).mem == m[Off(y, x.on) := x.act.call.newv]
            && Instruction(w.s, t).th[t] == x.(act := x.act.(pc := Goto(x.act.call, Ok), commits := 1))
  {
    assert LocalOk(y, w.s.th[t], w.loc[t], w.s.mem, t, held[t]);
    CommitStep(w.s.th[t].act, w.s.twice, w.s.th[t].cpuId, w.s.mem);
  }

  lemma InstructionIsQuiet(y: Layout, w: World, all: multiset<Item>, bufs: seq<seq<Item>>, held: seq<seq<Item>>, t: nat)
    requires Inv(y, w, all, bufs, held) && t < |held| && CanStep(w.s.th[t])
    ensures Quiet(w.s, User(t))
  {
    assert ThreadOk(w.s.th[t], w.s.nCpus) && SThread(w.s.th[t], w.s.mem);
    if BeforeCommit(w.s.th[t]) {
      ScratchChanges(y, w, all, bufs, held, t);
    } else {
      CommitWritesOffset(y, w, all, bufs, held, t);
    }
    OwnCellsAreQuiet(y, w, all, bufs, held, t);
  }

  /** No move of this system changes a cell that another running section depends on. */
  lemma MoveIsQuiet(y: Layout, w: World, v: Move, all: multiset<Item>, bufs: seq<seq<Item>>, held: seq<seq<Item>>)
    requires Inv(y, w, all, bufs, held) && CanMove(y, w, v)
    ensures Quiet(w.s, StepOf(y, w, v))
  {
    match v
    case K(e) => KernelKeepsCalls(w.s, e); SilentIsQuiet(w.s, Kern(e));
    case I(t) => InstructionIsQuiet(y, w, all, bufs, held, t);
    case C(_, _, _) => SilentIsQuiet(w.s, StepOf(y, w, v));
  }

  // ---------------------------------------------------------------- what the moves do to the content

  // Thread u's hand is untouched by a change outside its record.
  lemma HandFrame(y: Layout, x: Thread, l: Local, m: Mem, m': Mem, u: nat, h: seq<Item>)
    requires u < |y.item| && LocalOk(y, x, l, m, u, h)
    requires forall a :: In(y, ItemOf(u), a) ==> Get(m', a) == Get(m, a)
    ensures LocalOk(y, x, l, m', u, h)
  {
    forall a | y.item[u] <= a < y.item[u] + RECORD ensures Get(m', a) == Get(m, a) {
      assert In(y, ItemOf(u), a);
    }
    ItemFrame(y.kind, m, m', y.item[u]);
  }

  // The records of the threads other than t are untouched.
  ghost predicate SparesOthers(y: Layout, m: Mem, m': Mem, t: nat) {
    forall u, a :: 0 <= u < |y.item| && u != t && In(y, ItemOf(u), a) ==> Get(m', a) == Get(m, a)
  }

  // Only thread t changes, and no record but its own.
  ghost predicate OthersStay(y: Layout, w: World, w': World, t: nat) {
    && w'.s.nCpus == w.s.nCpus && |w'.s.th| == |w.s.th| == |w'.loc| == |w.loc|
    && (forall u :: 0 <= u < |w.loc| && u != t ==> w'.s.th[u] == w.s.th[u] && w'.loc[u] == w.loc[u])
    && SparesOthers(y, w.s.mem, w'.s.mem, t)
  }

  /** The hands after a step of thread t. */
  lemma HandsAfter(y: Layout, w: World, w': World, t: nat, held: seq<seq<Item>>, h: seq<Item>)
    requires Hands(y, w, held) && t < |held| && OthersStay(y, w, w', t)
    requires LocalOk(y, w'.s.th[t], w'.loc[t], w'.s.mem, t, h)
    ensures Hands(y, w', held[t := h])
  {
    forall u | 0 <= u < |held| && u != t
      ensures LocalOk(y, w'.s.th[u], w'.loc[u], w'.s.mem, u, held[u])
    {
      HandFrame(y, w.s.th[u], w.loc[u], w.s.mem, w'.s.mem, u, held[u]);
    }
  }

  // A step of thread t that changes no buffer and nothing in its hand.
  lemma SameContent(y: Layout, w: World, w': World, t: nat, all: multiset<Item>,
                    bufs: seq<seq<Item>>, held: seq<seq<Item>>)
    requires Content(y, w, all, bufs, held) && t < |held| && OthersStay(y, w, w', t)
    requires forall c :: 0 <= c < |bufs| ==> Holds(y, w'.s.mem, c, bufs[c])
    requires LocalOk(y, w'.s.th[t], w'.loc[t], w'.s.mem, t, held[t])
    ensures Content(y, w', all, bufs, held)
  {
    assert held[t := held[t]] == held;
    HandsAfter(y, w, w', t, held, held[t]);
  }

  lemma KernelMove(y: Layout, w: World, e: Event, all: multiset<Item>, bufs: seq<seq<Item>>, held: seq<seq<Item>>)
    requires Content(y, w, all, bufs, held) && Enabled(w.s, e)
    ensures Content(y, w.(s := Kernel(w.s, e)), all, bufs, held)
  {
    KernelKeepsCalls(w.s, e);
    var s' := Kernel(w.s, e);
    forall u | 0 <= u < |held| ensures LocalOk(y, s'.th[u], w.loc[u], s'.mem, u, held[u]) {
      assert LocalOk(y, w.s.th[u], w.loc[u], w.s.mem, u, held[u]);
    }
  }

  lemma ScratchSparesBuffers(y: Layout, w: World, m': Mem, all: multiset<Item>,
                             bufs: seq<seq<Item>>, held: seq<seq<Item>>,
                             t: nat, c: nat)
    requires Content(y, w, all, bufs, held) && t < |held| && c < |bufs| && 0 <= w.loc[t].cpu < |bufs| == |y.arr|
    requires forall a :: Get(m', a) != Get(w.s.mem, a) ==> Scratch(y, w, bufs, t, a)
    ensures Holds(y, m', c, bufs[c])
  {
    assert Holds(y, w.s.mem, c, bufs[c]);
    assert In(y, OffOf(c), Off(y, c));
    forall a | y.arr[c] <= a < Slot(y, c, |bufs[c]|) ensures Get(m', a) == Get(w.s.mem, a) {
      assert In(y, ArrOf(c), a);
    }
    HoldsFrame(y, w.s.mem, m', c, bufs[c]);
  }

  lemma ScratchSparesOthers(y: Layout, w: World, m': Mem, all: multiset<Item>, bufs: seq<seq<Item>>,
                            held: seq<seq<Item>>, t: nat)
    requires Content(y, w, all, bufs, held) && t < |held| && 0 <= w.loc[t].cpu < |bufs| == |y.arr|
    requires forall a :: Get(m', a) != Get(w.s.mem, a) ==> Scratch(y, w, bufs, t, a)
    ensures SparesOthers(y, w.s.mem, m', t)
    ensures w.loc[t].pc == Pushing ==> forall a :: In(y, ItemOf(t), a) ==> Get(m', a) == Get(w.s.mem, a)
  {
  }

  // The speculating thread still has what it had.
  lemma ScratchSparesHand(y: Layout, w: World, all: multiset<Item>, bufs: seq<seq<Item>>, held: seq<seq<Item>>, t: nat)
    requires Content(y, w, all, bufs, held) && t < |held| && BeforeCommit(w.s.th[t]) && ThreadInv(w, t)
    requires w.loc[t].pc == Pushing ==>
               forall a :: In(y, ItemOf(t), a) ==> Get(Instruction(w.s, t).mem, a) == Get(w.s.mem, a)
    ensures LocalOk(y, Instruction(w.s, t).th[t], w.loc[t], Instruction(w.s, t).mem, t, held[t])
  {
    var (x, l, s') := (w.s.th[t], w.loc[t], Instruction(w.s, t));
    assert LocalOk(y, x, l, w.s.mem, t, held[t]);
    if l.pc == Pushing { HandFrame(y, x, l, w.s.mem, s'.mem, t, held[t]); }
    assert s'.th[t].act.commits == x.act.commits && s'.th[t].act.call == x.act.call && s'.th[t].act.cpu == x.act.cpu;
  }

  lemma SpeculationContent(y: Layout, w: World, all: multiset<Item>, bufs: seq<seq<Item>>, held: seq<seq<Item>>, t: nat)
    requires Content(y, w, all, bufs, held) && t < |held| && BeforeCommit(w.s.th[t]) && ThreadInv(w, t)
    ensures Content(y, w.(s := Instruction(w.s, t)), all, bufs, held)
  {
    var s' := Instruction(w.s, t);
    ScratchChanges(y, w, all, bufs, held, t);
    ScratchSparesOthers(y, w, s'.mem, all, bufs, held, t);
    ScratchSparesHand(y, w, all, bufs, held, t);
    forall c | 0 <= c < |bufs| ensures Holds(y, s'.mem, c, bufs[c]) {
      ScratchSparesBuffers(y, w, s'.mem, all, bufs, held, t, c);
    }
    SameContent(y, w, w.(s := s'), t, all, bufs, held);
  }

  /** Whatever instruction an abort lands on, speculation has touched no slot below
      any offset and nothing any thread holds. */
  lemma SpeculationIsHarmless(y: Layout, w: World, all: multiset<Item>, bufs: seq<seq<Item>>,
                              held: seq<seq<Item>>, t: nat)
    requires Inv(y, w, all, bufs, held) && t < |held| && BeforeCommit(w.s.th[t])
    ensures Inv(y, w.(s := Instruction(w.s, t)), all, bufs, held)
  {
    assert ThreadOk(w.s.th[t], w.s.nCpus) && SThread(w.s.th[t], w.s.mem);
    SpeculationContent(y, w, all, bufs, held, t);
    InstructionIsQuiet(y, w, all, bufs, held, t);
    StepKeepsInv(w.s, User(t));
  }

  lemma CopiedItem(k: Kind, m: Mem, dst: Addr, src: Addr)
    requires k.Bytes? && Copied(m, dst, src, 0, RECORD)
    ensures ItemAt(k, m, dst) == ItemAt(k, m, src)
  {
    forall j | 0 <= j < RECORD ensures ItemAt(k, m, dst)[j] == ItemAt(k, m, src)[j] {
      assert SameByte(m, dst, src, j);
    }
  }

  /** At its commit a push has its whole item in the slot above the top. */
  lemma PushFacts(y: Layout, w: World, all: multiset<Item>, bufs: seq<seq<Item>>, held: seq<seq<Item>>, t: nat)
    requires Content(y, w, all, bufs, held) && t < |held| && CanStep(w.s.th[t]) && ThreadInv(w, t)
    requires w.loc[t].pc == Pushing && w.s.th[t].act.pc == At(Len(w.s.th[t].act.call) - 1)
    ensures var (x, m, c) := (w.s.th[t], w.s.mem, w.s.th[t].on);
            && 0 <= c < |bufs| == |y.arr| && |bufs[c]| < y.cap && x.act.call.newv == |bufs[c]| + 1
            && held[t] == [ItemAt(y.kind, m, Slot(y, c, |bufs[c]|))]
  {
    var (x, l, m) := (w.s.th[t], w.loc[t], w.s.mem);
    assert LocalOk(y, x, l, m, t, held[t]);
    assert Holds(y, m, l.cpu, bufs[l.cpu]);
    if y.kind.Bytes? {
      CopiedItem(y.kind, m, x.act.call.dst, x.act.call.src);
    }
  }

  /** At its commit a pop has the whole top item in hand. */
  lemma PopFacts(y: Layout, w: World, all: multiset<Item>, bufs: seq<seq<Item>>, held: seq<seq<Item>>, t: nat)
    requires Content(y, w, all, bufs, held) && t < |held| && CanStep(w.s.th[t]) && ThreadInv(w, t)
    requires w.loc[t].pc == Popping && w.s.th[t].act.pc == At(Len(w.s.th[t].act.call) - 1)
    ensures var (x, m, c) := (w.s.th[t], w.s.mem, w.s.th[t].on);
            && 0 <= c < |bufs| == |y.arr| && |bufs[c]| > 0 && x.act.call.newv == |bufs[c]| - 1 && held[t] == []
            && Mine(y, m, t, w.loc[t]) == bufs[c][|bufs[c]| - 1]
  {
    var (x, l, m) := (w.s.th[t], w.loc[t], w.s.mem);
    assert LocalOk(y, x, l, m, t, held[t]);
    assert Holds(y, m, l.cpu, bufs[l.cpu]);
    if y.kind.Bytes? {
      CopiedItem(y.kind, m, x.act.call.dst, x.act.call.src);
    }
  }

  // The buffer of CPU c after its offset moved.
  lemma OffsetUpdate(y: Layout, m: Mem, c: nat, k: int, q: seq<Item>, n: nat)
    requires LayoutOk(y, n) && c < |y.arr| && k == |q| <= y.cap
    requires forall i :: 0 <= i < |q| ==> q[i] == ItemAt(y.kind, m, Slot(y, c, i))
    ensures Holds(y, m[Off(y, c) := k], c, q)
  {
    var m' := m[Off(y, c) := k];
    assert In(y, OffOf(c), Off(y, c));
    forall a | y.arr[c] <= a < Slot(y, c, y.cap) ensures Get(m', a) == Get(m, a) {
      assert In(y, ArrOf(c), a);
    }
    forall i | 0 <= i < |q| ensures q[i] == ItemAt(y.kind, m', Slot(y, c, i)) {
      ItemFrame(y.kind, m, m', Slot(y, c, i));
    }
  }

  // The buffers of the other CPUs, and the records, after the offset of CPU d moved.
  lemma OffsetFrame(y: Layout, m: Mem, c: nat, d: nat, k: int, q: seq<Item>, n: nat)
    requires LayoutOk(y, n) && c < |y.arr| && d < |y.arr| && c != d && Holds(y, m, c, q)
    ensures Holds(y, m[Off(y, d) := k], c, q)
  {
    assert In(y, OffOf(d), Off(y, d)) && In(y, OffOf(c), Off(y, c));
    var m' := m[Off(y, d) := k];
    forall a | y.arr[c] <= a < Slot(y, c, |q|) ensures Get(m', a) == Get(m, a) {
      assert In(y, ArrOf(c), a);
    }
    HoldsFrame(y, m, m', c, q);
  }

  lemma OffsetSparesRecords(y: Layout, m: Mem, d: nat, k: int, n: nat)
    requires LayoutOk(y, n) && d < |y.arr|
    ensures forall u, a :: In(y, ItemOf(u), a) ==> Get(m[Off(y, d) := k], a) == Get(m, a)
  {
    assert In(y, OffOf(d), Off(y, d));
  }

  // The content after the buffer of CPU c became q and the hand of thread t h, by a store
  // to the offset.
  lemma OffsetContent(y: Layout, w: World, w': World, t: nat, all: multiset<Item>, bufs: seq<seq<Item>>,
                      held: seq<seq<Item>>, c: nat, q: seq<Item>, h: seq<Item>)
    requires Content(y, w, all, bufs, held) && t < |held| && c < |bufs| && |q| <= y.cap
    requires forall i :: 0 <= i < |q| ==> q[i] == ItemAt(y.kind, w.s.mem, Slot(y, c, i))
    requires multiset(q) + multiset(h) == multiset(bufs[c]) + multiset(held[t])
    requires w'.loc == w.loc && w'.s.mem == w.s.mem[Off(y, c) := |q|]
             && w'.s.nCpus == w.s.nCpus && |w'.s.th| == |w.s.th|
    requires forall u :: 0 <= u < |held| && u != t ==> w'.s.th[u] == w.s.th[u]
    requires LocalOk(y, w'.s.th[t], w'.loc[t], w'.s.mem, t, h)
    ensures Content(y, w', all, bufs[c := q], held[t := h])
  {
    var bufs' := bufs[c := q];
    OffsetUpdate(y, w.s.mem, c, |q|, q, w.s.nCpus);
    forall d | 0 <= d < |bufs'| ensures Holds(y, w'.s.mem, d, bufs'[d]) {
      if d != c { OffsetFrame(y, w.s.mem, d, c, |q|, bufs[d], w.s.nCpus); }
    }
    OffsetSparesRecords(y, w.s.mem, c, |q|, w.s.nCpus);
    Transfer(bufs, held, c, t, q, h);
    HandsAfter(y, w, w', t, held, h);
  }

  // The locals of a thread whose commit just ran.
  lemma CommitLocal(y: Layout, x: Thread, l: Local, m: Mem, m': Mem, t: nat, h: seq<Item>)
    requires t < |y.item| && x.act.Busy? && l.pc in {Popping, Pushing} && LocalOk(y, x, l, m, t, h)
    requires forall a :: In(y, ItemOf(t), a) ==> Get(m', a) == Get(m, a)
    ensures var x' := x.(act := x.act.(pc := Goto(x.act.call, Ok), commits := 1));
            LocalOk(y, x', l, m', t, if l.pc == Popping then [Mine(y, m, t, l)] else [])
  {
    forall a | y.item[t] <= a < y.item[t] + RECORD ensures Get(m', a) == Get(m, a) {
      assert In(y, ItemOf(t), a);
    }
    ItemFrame(y.kind, m, m', y.item[t]);
  }

  lemma PushContent(y: Layout, w: World, all: multiset<Item>, bufs: seq<seq<Item>>, held: seq<seq<Item>>, t: nat)
    requires Content(y, w, all, bufs, held) && t < |held| && CanStep(w.s.th[t]) && ThreadInv(w, t)
    requires w.loc[t].pc == Pushing && w.s.th[t].act.pc == At(Len(w.s.th[t].act.call) - 1)
    ensures var c := w.s.th[t].on;
            0 <= c < |bufs|
            && Content(y, w.(s := Instruction(w.s, t)), all, bufs[c := bufs[c] + held[t]], held[t := []])
  {
    hide SThread, ThreadOk;
    var (c, m) := (w.s.th[t].on, w.s.mem);
    PushFacts(y, w, all, bufs, held, t);
    CommitWritesOffset(y, w, all, bufs, held, t);
    var q := bufs[c] + held[t];
    assert Holds(y, m, c, bufs[c]);
    OffsetSparesRecords(y, m, c, |q|, w.s.nCpus);
    CommitLocal(y, w.s.th[t], w.loc[t], m, m[Off(y, c) := |q|], t, held[t]);
    OffsetContent(y, w, w.(s := Instruction(w.s, t)), t, all, bufs, held, c, q, []);
  }

  /** The commit of a push appends exactly the item in hand. */
  lemma PushCommits(y: Layout, w: World, all: multiset<Item>, bufs: seq<seq<Item>>, held: seq<seq<Item>>, t: nat)
    requires Inv(y, w, all, bufs, held) && t < |held| && CanStep(w.s.th[t])
    requires w.loc[t].pc == Pushing && w.s.th[t].act.pc == At(Len(w.s.th[t].act.call) - 1)
    ensures var c := w.s.th[t].on;
            0 <= c < |bufs| && Inv(y, w.(s := Instruction(w.s, t)), all, bufs[c := bufs[c] + held[t]], held[t := []])
  {
    assert ThreadOk(w.s.th[t], w.s.nCpus) && SThread(w.s.th[t], w.s.mem);
    PushContent(y, w, all, bufs, held, t);
    InstructionIsQuiet(y, w, all, bufs, held, t);
    StepKeepsInv(w.s, User(t));
  }

  lemma PopContent(y: Layout, w: World, all: multiset<Item>, bufs: seq<seq<Item>>, held: seq<seq<Item>>, t: nat)
    requires Content(y, w, all, bufs, held) && t < |held| && CanStep(w.s.th[t]) && ThreadInv(w, t)
    requires w.loc[t].pc == Popping && w.s.th[t].act.pc == At(Len(w.s.th[t].act.call) - 1)
    ensures var c := w.s.th[t].on;
            && 0 <= c < |bufs| && |bufs[c]| > 0
            && Content(y, w.(s := Instruction(w.s, t)), all, bufs[c := bufs[c][..|bufs[c]| - 1]],
                       held[t := [bufs[c][|bufs[c]| - 1]]])
  {
    var (c, m) := (w.s.th[t].on, w.s.mem);
    PopFacts(y, w, all, bufs, held, t);
    CommitWritesOffset(y, w, all, bufs, held, t);
    var (q, top) := (bufs[c][..|bufs[c]| - 1], bufs[c][|bufs[c]| - 1]);
    assert Holds(y, m, c, bufs[c]);
    assert bufs[c] == q + [top];
    OffsetSparesRecords(y, m, c, |q|, w.s.nCpus);
    CommitLocal(y, w.s.th[t], w.loc[t], m, m[Off(y, c) := |q|], t, held[t]);
    OffsetContent(y, w, w.(s := Instruction(w.s, t)), t, all, bufs, held, c, q, [top]);
  }

  /** The commit of a pop removes exactly the top item, whole. */
  lemma PopCommits(y: Layout, w: World, all: multiset<Item>, bufs: seq<seq<Item>>, held: seq<seq<Item>>, t: nat)
    requires Inv(y, w, all, bufs, held) && t < |held| && CanStep(w.s.th[t])
    requires w.loc[t].pc == Popping && w.s.th[t].act.pc == At(Len(w.s.th[t].act.call) - 1)
    ensures var c := w.s.th[t].on;
            && 0 <= c < |bufs| && |bufs[c]| > 0
            && Inv(y, w.(s := Instruction(w.s, t)), all, bufs[c := bufs[c][..|bufs[c]| - 1]],
                   held[t := [bufs[c][|bufs[c]| - 1]]])
  {
    assert ThreadOk(w.s.th[t], w.s.nCpus) && SThread(w.s.th[t], w.s.mem);
    PopContent(y, w, all, bufs, held, t);
    InstructionIsQuiet(y, w, all, bufs, held, t);
    StepKeepsInv(w.s, User(t));
  }

  /** What an instruction of thread t does to the buffers and the hands: nothing before the
      commit; a commit moves one item between its hand and the top of the CPU it runs on. */
  ghost predicate After(w: World, t: nat, bufs: seq<seq<Item>>, held: seq<seq<Item>>,
                        bufs': seq<seq<Item>>, held': seq<seq<Item>>)
    requires t < |w.s.th| && t < |w.loc| && t < |held|
  {
    var c := w.s.th[t].on;
    if BeforeCommit(w.s.th[t]) then bufs' == bufs && held' == held
    else
      && 0 <= c < |bufs|
      && if w.loc[t].pc == Pushing then bufs' == bufs[c := bufs[c] + held[t]] && held' == held[t := []]
         else
           && bufs[c] != []
           && var top := |bufs[c]| - 1;
              bufs' == bufs[c := bufs[c][..top]] && held' == held[t := [bufs[c][top]]]
  }

  lemma InstructionMove(y: Layout, w: World, all: multiset<Item>, bufs: seq<seq<Item>>, held: seq<seq<Item>>, t: nat)
      returns (bufs': seq<seq<Item>>, held': seq<seq<Item>>)
    requires Content(y, w, all, bufs, held) && t < |held| && CanStep(w.s.th[t]) && ThreadInv(w, t)
    ensures Content(y, w.(s := Instruction(w.s, t)), all, bufs', held')
    ensures After(w, t, bufs, held, bufs', held')
  {
    bufs', held' := bufs, held;
    var c := w.s.th[t].on;
    assert LocalOk(y, w.s.th[t], w.loc[t], w.s.mem, t, held[t]);
    if BeforeCommit(w.s.th[t]) {
      SpeculationContent(y, w, all, bufs, held, t);
    } else if w.loc[t].pc == Pushing {
      PushContent(y, w, all, bufs, held, t);
      bufs', held' := bufs[c := bufs[c] + held[t]], held[t := []];
    } else {
      PopContent(y, w, all, bufs, held, t);
      bufs', held' := bufs[c := bufs[c][..|bufs[c]| - 1]], held[t := [bufs[c][|bufs[c]| - 1]]];
    }
  }

  // ---------------------------------------------------------------- C statements

  // A statement that only reads.
  lemma ReadLocals(y: Layout, w: World, v: Move, all: multiset<Item>, bufs: seq<seq<Item>>, held: seq<seq<Item>>)
    requires Content(y, w, all, bufs, held) && CanMove(y, w, v) && v.C? && ThreadOk(w.s.th[v.t], w.s.nCpus)
    requires StepOf(y, w, v).Compute?
    ensures LocalOk(y, w.s.th[v.t], NextLocal(y, w, v.t), w.s.mem, v.t, held[v.t])
  {
    var (t, l) := (v.t, w.loc[v.t]);
    assert LocalOk(y, w.s.th[t], l, w.s.mem, t, held[t]);
    assert Holds(y, w.s.mem, l.cpu, bufs[l.cpu]);
    assert |y.arr| == w.s.nCpus;
    hide Content, ItemAt, PushCall, PopCall;
  }

  // Entering or leaving a helper.
  lemma CallLocals(y: Layout, w: World, v: Move, all: multiset<Item>, bufs: seq<seq<Item>>, held: seq<seq<Item>>)
    requires Content(y, w, all, bufs, held) && CanMove(y, w, v) && v.C? && ThreadInv(w, v.t)
    requires !StepOf(y, w, v).Compute?
    ensures LocalOk(y, Apply(w.s, StepOf(y, w, v)).th[v.t], NextLocal(y, w, v.t), w.s.mem, v.t, held[v.t])
  {
    assert LocalOk(y, w.s.th[v.t], w.loc[v.t], w.s.mem, v.t, held[v.t]);
  }

  lemma StatementMove(y: Layout, w: World, v: Move, all: multiset<Item>, bufs: seq<seq<Item>>, held: seq<seq<Item>>)
    requires Content(y, w, all, bufs, held) && CanMove(y, w, v) && v.C? && ThreadInv(w, v.t)
    ensures Content(y, Do(y, w, v), all, bufs, held)
  {
    if StepOf(y, w, v).Compute? {
      ReadLocals(y, w, v, all, bufs, held);
    } else {
      CallLocals(y, w, v, all, bufs, held);
    }
    SameContent(y, w, Do(y, w, v), v.t, all, bufs, held);
  }

  lemma MoveKeepsContent(y: Layout, w: World, v: Move, all: multiset<Item>, bufs: seq<seq<Item>>, held: seq<seq<Item>>)
      returns (bufs': seq<seq<Item>>, held': seq<seq<Item>>)
    requires Inv(y, w, all, bufs, held) && CanMove(y, w, v)
    ensures Content(y, Do(y, w, v), all, bufs', held')
    ensures if v.I? then v.t < |held| && After(w, v.t, bufs, held, bufs', held') else bufs' == bufs && held' == held
  {
    bufs', held' := bufs, held;
    match v {
      case K(e) => KernelMove(y, w, e, all, bufs, held);
      case I(t) =>
        assert ThreadInv(w, t);
        bufs', held' := InstructionMove(y, w, all, bufs, held, t);
      case C(t, _, _) =>
        assert ThreadInv(w, t);
        StatementMove(y, w, v, all, bufs, held);
    }
  }

  /** Every move keeps the invariant. */
  lemma MoveKeepsInv(y: Layout, w: World, v: Move, all: multiset<Item>, bufs: seq<seq<Item>>, held: seq<seq<Item>>)
      returns (bufs': seq<seq<Item>>, held': seq<seq<Item>>)
    requires Inv(y, w, all, bufs, held) && CanMove(y, w, v)
    ensures Inv(y, Do(y, w, v), all, bufs', held')
    ensures if v.I? then v.t < |held| && After(w, v.t, bufs, held, bufs', held') else bufs' == bufs && held' == held
  {
    bufs', held' := MoveKeepsContent(y, w, v, all, bufs, held);
    MoveIsQuiet(y, w, v, all, bufs, held);
    StepKeepsInv(w.s, StepOf(y, w, v));
  }

  // A call about to begin has the arguments its helper asks for.
  lemma CanBegin(y: Layout, w: World, t: nat, site: nat, junk: Regs, held: seq<Item>)
    requires LayoutOk(y, |y.arr|) && CanGo(y, w, t) && LocalOk(y, w.s.th[t], w.loc[t], w.s.mem, t, held)
    requires w.loc[t].pc in {PushRead, PopLoaded} && |y.arr| == w.s.nCpus
    ensures CanMove(y, w, C(t, site, junk))
  {
    DisjointTargets(y, w.loc[t], t);
  }

  /** A running thread that has not found a full buffer can always go on. */
  lemma NeverStuck(y: Layout, w: World, t: nat, site: nat, junk: Regs,
                   all: multiset<Item>, bufs: seq<seq<Item>>, held: seq<seq<Item>>)
    requires Inv(y, w, all, bufs, held) && t < |held| && w.s.th[t].on >= 0 && w.loc[t].pc != Full
    ensures CanMove(y, w, I(t)) || CanMove(y, w, C(t, site, junk))
  {
    assert LocalOk(y, w.s.th[t], w.loc[t], w.s.mem, t, held[t]);
    assert ThreadOk(w.s.th[t], w.s.nCpus);
    hide Inv, Content, KInv, SInv;
    if w.loc[t].pc in {PushRead, PopLoaded} {
      CanBegin(y, w, t, site, junk, held[t]);
    }
  }

  // The calls of this system are well formed: the offset, the slot and the record are distinct places.
  lemma DisjointTargets(y: Layout, l: Local, t: nat)
    requires LayoutOk(y, |y.arr|) && 0 <= l.cpu < |y.arr| && t < |y.item|
    ensures 0 <= l.want < y.cap ==> WellFormed(PushCall(y, l, t))
    ensures 0 < l.want <= y.cap ==> WellFormed(PopCall(y, l, t))
  {
    assert In(y, OffOf(l.cpu), Off(y, l.cpu));
    if 0 <= l.want < y.cap {
      SlotApart(y, l.cpu, l.want, t);
    }
    if 0 < l.want <= y.cap {
      SlotApart(y, l.cpu, l.want - 1, t);
    }
  }

  lemma SlotApart(y: Layout, c: nat, i: nat, t: nat)
    requires LayoutOk(y, |y.arr|) && c < |y.arr| && t < |y.item| && i < y.cap
    ensures var slot := Slot(y, c, i);
            && !(slot <= Off(y, c) < slot + Slots(y.kind, 1))
            && !(y.item[t] <= Off(y, c) < y.item[t] + RECORD)
            && (y.kind.Bytes? ==> slot + RECORD <= y.item[t] || y.item[t] + RECORD <= slot)
  {
    var (slot, off) := (Slot(y, c, i), Off(y, c));
    assert In(y, OffOf(c), off);
    if slot <= off < slot + Slots(y.kind, 1) { assert In(y, ArrOf(c), off); }
    if y.item[t] <= off < y.item[t] + RECORD { assert In(y, ItemOf(t), off); }
    if y.kind.Bytes? && slot < y.item[t] + RECORD && y.item[t] < slot + RECORD {
      var a := if slot <= y.item[t] then y.item[t] else slot;
      assert In(y, ItemOf(t), a) && In(y, ArrOf(c), a);
    }
  }

  // ---------------------------------------------------------------- whole runs

  ghost predicate Initial(y: Layout, w: World, bufs: seq<seq<Item>>) {
    && KInv(w.s) && LayoutOk(y, w.s.nCpus)
    && |w.s.th| == |w.loc| == |y.item| && |bufs| == w.s.nCpus
    && (forall t :: 0 <= t < |w.loc| ==> w.s.th[t].act.Idle? && w.loc[t].pc == Ready && w.loc[t].cpu == 0)
    && (forall c :: 0 <= c < |bufs| ==> Holds(y, w.s.mem, c, bufs[c]))
  }

  /** A run in which the buffers start out with the items `all` between them. */
  ghost predicate IsRun(y: Layout, all: multiset<Item>, ws: seq<World>, vs: seq<Move>) {
    && |ws| == |vs| + 1
    && (exists bufs :: Initial(y, ws[0], bufs) && Sum(bufs) == all)
    && forall k :: 0 <= k < |vs| ==> CanMove(y, ws[k], vs[k]) && ws[k + 1] == Do(y, ws[k], vs[k])
  }

  // The machine steps behind a run of this system.
  ghost function Steps(y: Layout, all: multiset<Item>, ws: seq<World>, vs: seq<Move>): seq<Step>
    requires IsRun(y, all, ws, vs)
  {
    seq(|vs|, k requires 0 <= k < |vs| => StepOf(y, ws[k], vs[k]))
  }

  lemma {:induction false} RunKeepsInv(y: Layout, all: multiset<Item>, ws: seq<World>, vs: seq<Move>, k: nat)
      returns (bufs: seq<seq<Item>>, held: seq<seq<Item>>)
    requires IsRun(y, all, ws, vs) && k < |ws|
    ensures Inv(y, ws[k], all, bufs, held)
  {
    if k == 0 {
      bufs :| Initial(y, ws[0], bufs) && Sum(bufs) == all;
      held := seq(|ws[0].loc|, _ => []);
      SumOfEmpty(held);
    } else {
      bufs, held := RunKeepsInv(y, all, ws, vs, k - 1);
      bufs, held := MoveKeepsInv(y, ws[k - 1], vs[k - 1], all, bufs, held);
    }
  }

  /** The item thread t has popped and not pushed back, if any. */
  ghost function HeldBy(y: Layout, w: World, t: nat): seq<Item>
    requires t < |w.loc| && t < |w.s.th| && t < |y.item|
    requires w.loc[t].pc in {Popping, Pushing} ==> w.s.th[t].act.Busy?
  {
    var l := w.loc[t];
    var has := if l.pc == Popping then w.s.th[t].act.commits == 1
               else if l.pc == Pushing then w.s.th[t].act.commits == 0
               else l.pc in {Holding, PushCpu, PushRead, Full};
    if has then [Mine(y, w.s.mem, t, l)] else []
  }

  /** The slots below the offsets and the hands of the threads have together exactly
      the items `all`, each of them whole. */
  ghost predicate Safe(y: Layout, w: World, all: multiset<Item>, bufs: seq<seq<Item>>, held: seq<seq<Item>>) {
    && |bufs| == |y.arr| && |held| == |w.s.th| == |w.loc| == |y.item|
    && (forall c :: 0 <= c < |bufs| ==> Holds(y, w.s.mem, c, bufs[c]))
    && (forall t :: 0 <= t < |held| ==>
          && (w.loc[t].pc in {Popping, Pushing} ==> w.s.th[t].act.Busy?)
          && held[t] == HeldBy(y, w, t))
    && Sum(bufs) + Sum(held) == all
  }

  /** In every state of every run no item is lost, duplicated or torn, and every
      offset is between 0 and buflen. */
  lemma BufferIsSafe(y: Layout, all: multiset<Item>, ws: seq<World>, vs: seq<Move>, k: nat)
    requires IsRun(y, all, ws, vs) && k < |ws|
    ensures exists bufs, held :: Safe(y, ws[k], all, bufs, held)
  {
    var bufs, held := RunKeepsInv(y, all, ws, vs, k);
    forall t | 0 <= t < |held|
      ensures (ws[k].loc[t].pc in {Popping, Pushing} ==> ws[k].s.th[t].act.Busy?) && held[t] == HeldBy(y, ws[k], t)
    {
      assert LocalOk(y, ws[k].s.th[t], ws[k].loc[t], ws[k].s.mem, t, held[t]);
      assert ThreadOk(ws[k].s.th[t], ws[k].s.nCpus);
    }
    assert Safe(y, ws[k], all, bufs, held);
  }

  /** Every item a pop hands over is one of the items the buffers started with. */
  lemma PoppedItemsAreWhole(y: Layout, all: multiset<Item>, ws: seq<World>, vs: seq<Move>, k: nat, t: nat)
    requires IsRun(y, all, ws, vs) && k < |ws| && t < |ws[k].loc| && t < |y.item|
    requires ws[k].loc[t].pc == Holding
    ensures Mine(y, ws[k].s.mem, t, ws[k].loc[t]) in all
  {
    var bufs, held := RunKeepsInv(y, all, ws, vs, k);
    assert LocalOk(y, ws[k].s.th[t], ws[k].loc[t], ws[k].s.mem, t, held[t]);
    SumContains(held, t);
    assert held[t][0] in multiset(held[t]);
  }

  // While a thread holds an item, no buffer that has room for all items is full.
  lemma RoomForHeld(y: Layout, w: World, t: nat, c: nat, all: multiset<Item>, bufs: seq<seq<Item>>,
                    held: seq<seq<Item>>)
    requires Inv(y, w, all, bufs, held) && |all| <= y.cap && t < |held| && c < |bufs| && held[t] != []
    ensures Get(w.s.mem, Off(y, c)) < y.cap
  {
    assert Holds(y, w.s.mem, c, bufs[c]);
    SumContains(bufs, c);
    SumContains(held, t);
    SubCount(multiset(bufs[c]), Sum(bufs));
    SubCount(multiset(held[t]), Sum(held));
    assert |Sum(bufs) + Sum(held)| == |Sum(bufs)| + |Sum(held)|;
  }

  lemma SubCount<T>(a: multiset<T>, b: multiset<T>)
    requires a <= b
    ensures |a| <= |b|
  {
    assert b == a + (b - a);
  }

  /** With room for all items in every buffer, a push never finds its buffer full. */
  lemma PushNeverFull(y: Layout, all: multiset<Item>, ws: seq<World>, vs: seq<Move>, k: nat, t: nat)
    requires IsRun(y, all, ws, vs) && k < |ws| && |all| <= y.cap && t < |ws[k].loc|
    ensures ws[k].loc[t].pc != Full
    decreases k
  {
    hide Content, KInv, SInv, NextLocal, Apply, EnabledStep, LayoutOk;
    if k > 0 {
      assert ws[k] == Do(y, ws[k - 1], vs[k - 1]);
      PushNeverFull(y, all, ws, vs, k - 1, t);
      var bufs, held := RunKeepsInv(y, all, ws, vs, k - 1);
      FindsRoom(y, ws[k - 1], vs[k - 1], t, all, bufs, held);
    }
  }

  // With room for all items, no move takes a thread to a full buffer.
  lemma FindsRoom(y: Layout, w: World, v: Move, t: nat, all: multiset<Item>, bufs: seq<seq<Item>>, held: seq<seq<Item>>)
    requires Inv(y, w, all, bufs, held) && CanMove(y, w, v) && |all| <= y.cap && t < |w.loc| && w.loc[t].pc != Full
    ensures t < |Do(y, w, v).loc| && Do(y, w, v).loc[t].pc != Full
  {
    if v.C? && v.t == t && w.loc[t].pc == PushCpu {
      assert LocalOk(y, w.s.th[t], w.loc[t], w.s.mem, t, held[t]);
      RoomForHeld(y, w, t, w.loc[t].cpu, all, bufs, held);
    }
    hide Apply, Inv, Content, Holds, LocalOk, Statement;
  }

  /** The bug labels of RSEQ_COMPARE_TWICE are never reached. */
  lemma ComparesTwiceAgree(y: Layout, all: multiset<Item>, ws: seq<World>, vs: seq<Move>, k: nat, t: nat)
    requires IsRun(y, all, ws, vs) && k < |ws| && t < |ws[k].s.th|
    ensures var a := ws[k].s.th[t].act; a.Busy? && !a.pc.At? ==> a.pc.l in {Ok, Differs, Abort}
  {
    var bufs, held := RunKeepsInv(y, all, ws, vs, k);
    assert SThread(ws[k].s.th[t], ws[k].s.mem);
  }

  /** Every run of this system is an undisturbed run of the machine, so its helper calls are
      atomic. */
  lemma RunIsQuiet(y: Layout, all: multiset<Item>, ws: seq<World>, vs: seq<Move>)
    requires IsRun(y, all, ws, vs)
    ensures Atomicity.IsRun(States(ws), Steps(y, all, ws, vs)) && QuietRun(States(ws), Steps(y, all, ws, vs))
  {
    var (ss, ps) := (States(ws), Steps(y, all, ws, vs));
    forall k | 0 <= k < |ps| ensures Quiet(ss[k], ps[k]) {
      var bufs, held := RunKeepsInv(y, all, ws, vs, k);
      MoveIsQuiet(y, ws[k], vs[k], all, bufs, held);
    }
  }

  /** Every push and pop that returns was atomic. */
  lemma CallsAreAtomic(y: Layout, all: multiset<Item>, ws: seq<World>, vs: seq<Move>, k: nat) returns (i: nat)
    requires IsRun(y, all, ws, vs) && k < |vs| && Steps(y, all, ws, vs)[k].Return?
    ensures AtomicCall(States(ws), Steps(y, all, ws, vs), Steps(y, all, ws, vs)[k].t, i, k)
  {
    RunIsQuiet(y, all, ws, vs);
    i := Atomicity.CallsAreAtomic(States(ws), Steps(y, all, ws, vs), k);
  }
}
