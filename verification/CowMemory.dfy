/** Per-CPU views of shared pages. A page of a CPU's private mapping reads the shared
    init values (or zeroes) until the first store through it, which copies the page. */
module CowMemory {
  import opened Bits

  // A location of a range, at the same offset in every block.
  datatype Loc = Loc(base: nat, off: nat)

  datatype Page = Page(cpu: nat, base: nat, no: nat)

  /** The shared init values, and the pages copied so far. Unwritten locations read 0,
      so a pool without init values (COW_ZERO) keeps shared empty. A copy is a snapshot
      of the shared values; only the locations of its own page are ever read from it. */
  datatype Memory = Memory(shared: map<Loc, int>, copies: map<Page, map<Loc, int>>)

  function Get(m: map<Loc, int>, l: Loc): int { if l in m then m[l] else 0 }

  // Pages hold 2^pageOrder locations.
  function PageOf(pageOrder: nat, cpu: nat, l: Loc): Page { Page(cpu, l.base, High(l.off, pageOrder)) }

  function View(m: Memory, pageOrder: nat, cpu: nat, l: Loc): int {
    var page := PageOf(pageOrder, cpu, l);
    if page in m.copies then Get(m.copies[page], l) else Get(m.shared, l)
  }

  // A store through the shared mapping.
  function StoreShared(m: Memory, l: Loc, v: int): Memory { m.(shared := m.shared[l := v]) }

  // The page fault of a first store: the page is copied as it is.
  function Copy(m: Memory, page: Page): Memory {
    if page in m.copies then m else m.(copies := m.copies[page := m.shared])
  }

  // A store through a CPU's private mapping.
  function StoreCpu(m: Memory, pageOrder: nat, cpu: nat, l: Loc, v: int): Memory {
    var page := PageOf(pageOrder, cpu, l);
    var m' := Copy(m, page);
    m'.(copies := m'.copies[page := m'.copies[page][l := v]])
  }

  /** Copying a page changes what no CPU sees. */
  lemma CopyIsInvisible(m: Memory, pageOrder: nat, page: Page, cpu: nat, l: Loc)
    ensures View(Copy(m, page), pageOrder, cpu, l) == View(m, pageOrder, cpu, l)
    ensures Copy(m, page).shared == m.shared
  {
  }

  /** A private store changes one location, for one CPU. */
  lemma StoreCpuSees(m: Memory, pageOrder: nat, cpu: nat, l: Loc, v: int, cpu': nat, l': Loc)
    ensures View(StoreCpu(m, pageOrder, cpu, l, v), pageOrder, cpu', l')
            == if cpu' == cpu && l' == l then v else View(m, pageOrder, cpu', l')
    ensures StoreCpu(m, pageOrder, cpu, l, v).shared == m.shared
  {
    CopyIsInvisible(m, pageOrder, PageOf(pageOrder, cpu, l), cpu', l');
  }

  /** A shared store changes one location, for exactly the CPUs that have not copied its page. */
  lemma StoreSharedSees(m: Memory, pageOrder: nat, l: Loc, v: int, cpu': nat, l': Loc)
    ensures View(StoreShared(m, l, v), pageOrder, cpu', l')
            == if l' == l && PageOf(pageOrder, cpu', l) !in m.copies then v else View(m, pageOrder, cpu', l')
  {
  }
}
