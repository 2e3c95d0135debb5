/** What a process loses when page tables run out: malloc_page succeeds, and the pages it answers for are not mapped. */
module TablesLost {
  import opened Common
  import opened Paging
  import opened PagingMap
  import opened PageAlloc
  import opened PageSupply
  import opened PageAllocProofs
  import opened PageAllocRuns
  import opened PoolInit
  import opened NewDirectory

  /** The loop, cut in two. */
  lemma {:induction false} MapPagesSplit(s: Sys, pf: Flags, v: nat, m: nat, n: nat)
    requires m <= n
    ensures var (s1, status) := MapPages(s, pf, v, m);
            MapPages(s, pf, v, n)
            == if status != Mapped then (s1, status) else MapPages(s1, pf, v + m * PG_SIZE, n - m)
    decreases m
  {
    hide Palloc, AddPage;
    if m > 0 {
      var (s0, got) := Palloc(s, pf);
      if got != None {
        var (s1, status) := AddPage(s0, v, got.value);
        if status == Mapped {
          MapPagesSplit(s1, pf, v + PG_SIZE, m - 1, n - 1);
          assert v + PG_SIZE + (m - 1) * PG_SIZE == v + m * PG_SIZE;
        }
      }
    } else {
      assert v + 0 * PG_SIZE == v;
    }
  }

  /** Whether the loop comes up short is the same seen from its start and from any point it gets to. */
  lemma {:induction false} ShortRest(s: Sys, v: nat, m: nat, n: nat)
    requires Steady(s) && Ready(s, User, v, n) && m <= n && !Short(s, User, v, m) && FreeCount(s.userPool) >= m
    ensures Short(s, User, v, n) <==> Short(MapPages(s, User, v, m).0, User, v + m * PG_SIZE, n - m)
    decreases m
  {
    hide Translate, In, Palloc, AddPage, Steady, FreeCount, Short, Starved, UserCost, OnlyMaps, Kept, OnFrame;
    hide OneTaken, Slack, PageCost;
    if m == 0 {
      assert v + 0 * PG_SIZE == v;
    } else {
      ReadyLess(s, v, m, n);
      PallocTakes(s, User);
      var (s0, got) := Palloc(s, User);
      FirstReady(s, User, v, n);
      OnePageNotStarved(s, User, v, m);
      OnePageOk(s, User, v);
      var s1 := AddPage(s0, v, got.value).0;
      KeptVirt(s, s1);
      ReadyNext(s, s1, User, v, n);
      CostStep(s, s1, User, v, m);
      CostStep(s, s1, User, v, n);
      ShortRest(s1, v + PG_SIZE, m - 1, n - 1);
      assert v + PG_SIZE + (m - 1) * PG_SIZE == v + m * PG_SIZE;
    }
  }

  lemma ReadyLess(s: Sys, v: nat, m: nat, n: nat)
    requires Ready(s, User, v, n) && m <= n
    ensures Ready(s, User, v, m)
  {
    hide Translate, In;
  }

  /** The n pages from a on are the rest of one directory entry's and the first of the next, and neither has a table. */
  ghost predicate Crosses(s: Sys, a: nat, n: nat) {
    && n > 1 && PteIdx(a) > 0 && PteIdx(a) + n - 1 == 1024
    && !HasTable(s, PdeIdx(a)) && !HasTable(s, PdeIdx(a) + 1)
  }

  lemma CrossingIndices(a: nat, n: nat, i: nat)
    requires Aligned(a) && n > 1 && PteIdx(a) + n - 1 == 1024 && i < n
    ensures PdeIdx(a + i * PG_SIZE) == (if i == n - 1 then PdeIdx(a) + 1 else PdeIdx(a))
    ensures PteIdx(a + i * PG_SIZE) == (if i == n - 1 then 0 else PteIdx(a) + i)
    ensures Aligned(a + i * PG_SIZE)
  {
    var p := a / PG_SIZE;
    assert a == p * PG_SIZE;
    assert (a + i * PG_SIZE) / PG_SIZE == p + i;
    assert PdeIdx(a) == p / 1024 && PdeIdx(a + i * PG_SIZE) == (p + i) / 1024;
  }

  lemma CrossingMissing(s: Sys, a: nat, n: nat)
    requires Crosses(s, a, n) && Aligned(a)
    ensures MissingFor(s, a, n - 1) == 1 && MissingFor(s, a, n) == 2
  {
    CrossingIndices(a, n, n - 1);
    CrossingIndices(a, n, n - 2);
    var e := PdeIdx(a);
    hide HasTable, PdeIdx, PteIdx;
    assert (set i: nat | e <= i <= e && !HasTable(s, i)) == {e};
    assert (set i: nat | e <= i <= e + 1 && !HasTable(s, i)) == {e, e + 1};
  }

  /** A table at page 0 that was not there before belongs to the pages just mapped. */
  lemma NewZeroTable(s: Sys, s1: Sys, a: nat, n: nat)
    requires n > 1 && Steady(s1) && Kept(s, s1) && OnlyMaps(s, s1, a, n - 1) && !ZeroTable(s) && ZeroTable(s1)
    requires Core(s) && Aligned(a) && PteIdx(a) + n - 1 == 1024 && PdeIdx(a) < 1023
    ensures HasTable(s1, PdeIdx(a)) && TableAt(s1, PdeIdx(a)) == 0
  {
    hide Translate, HasTable, TableAt, In, PdeIdx, PteIdx, Aligned, HistoryOk, OwnFrames, TablesOk, OwnTables;
    CoreOf(s1);
    var w := ZeroInUse(s1);
    var i := PdeIdx(w);
    IndexRange(w);
    assert HasTable(s, i) ==> TableAt(s, i) != 0 && TableAt(s1, i) == TableAt(s, i);
    NoTableNoPage(s, w);
    KeptManaged(s, s1, w);
    assert a <= w < a + (n - 1) * PG_SIZE;
    InCrossing(a, n, w);
  }

  lemma CoreOf(s: Sys)
    requires Steady(s)
    ensures Core(s) && TablesUsed(s) && Layout(s) && DirectoryOk(s)
  {
  }

  lemma NoTableNoPage(s: Sys, w: nat)
    requires !HasTable(s, PdeIdx(w))
    ensures Translate(s.mem, s.dir, w) == None
  {
  }

  lemma KeptManaged(s: Sys, s1: Sys, w: nat)
    requires Kept(s, s1) && Managed(s1, w)
    ensures Managed(s, w)
  {
    hide Translate;
  }

  lemma InCrossing(a: nat, n: nat, w: nat)
    requires Aligned(a) && n > 1 && PteIdx(a) + n - 1 == 1024 && a <= w < a + (n - 1) * PG_SIZE
    ensures PdeIdx(w) == PdeIdx(a)
  {
    var p, q := a / PG_SIZE, w / PG_SIZE;
    assert p <= q <= p + n - 2;
    assert PdeIdx(a) == p / 1024 && PdeIdx(w) == q / 1024;
  }

  /** The last page of the crossing takes the table of all the others. */
  lemma LastPageTakes(s: Sys, v: nat, w: nat)
    requires Steady(s) && In(s.userVirt, v) && Starved(s, v) && FreeCount(s.userPool) > 0
    requires w < 0xffc0_0000 && HasTable(s, PdeIdx(w)) && TableAt(s, PdeIdx(w)) == 0 && PteIdx(w) != PteIdx(v)
    ensures var (s', status) := MapPages(s, User, v, 1);
            status == Mapped && Translate(s'.mem, s'.dir, w) == None
  {
    hide Translate, In, Palloc, AddPage, FreeCount, OneTaken, HasTable, TableAt, ZeroTable, HistoryOk, Aligned;
    hide DirectoryOk, OwnTables, TablesUsed, OwnFrames, PdeIdx, PteIdx;
    PallocTakes(s, User);
    PallocFresh(s, User);
    var (s0, got) := Palloc(s, User);
    PallocKept(s, User, s0, got);
    SameEntries(s, s0);
    CoreSame(s, s0);
    VirtManaged(s, User, v);
    SameManaged(s, s0, v);
    SameTableAt(s, s0, PdeIdx(w));
    StarvedLoses(s0, v, got.value, w);
    var (s1, status) := AddPage(s0, v, got.value);
    assert MapPages(s1, User, v + PG_SIZE, 0) == (s1, Mapped);
  }

  lemma SameTableAt(s: Sys, s1: Sys, i: nat)
    requires s1.mem == s.mem && s1.dir == s.dir
    ensures TableAt(s1, i) == TableAt(s, i)
  {
  }

  /**
    With no frame left for tables, a call that crosses from one directory entry into the next answers with an address,
    and yet none of its pages but the last is mapped.
  */
  lemma AllButLastLost(s: Sys, n: nat, a: nat, i: nat)
    requires Inv(s) && FreeCount(s.kernelPool) == 0 && !ZeroTable(s)
    requires Chosen(s, User, n) == Some(a) && !Refused(s, User, n) && FreeCount(s.userPool) >= n
    requires Crosses(s, a, n) && i < n - 1
    ensures TablesRunOut(s, User, n)
    ensures var (s', out) := MallocPage(s, User, n);
            out == Address(a) && Translate(s'.mem, s'.dir, a + i * PG_SIZE) == None
  {
    hide Inv, HandsOut, Translate, FreeCount, HasTable, ZeroTable, PdeIdx, PteIdx, MapPages, VaddrGet, Aligned, Short;
    var (s1, got) := VaddrGet(s, User, n);
    VaddrChosen(s, User, n);
    VaddrFresh(s, User, n, s1, a);
    HandsOutOnly(s, n, s1, a);
    SameEntries(s, s1);
    CoreSame(s, s1);
    SameSupply(s, s1, User, a, n);
    PageRange(s1, a, n);
    LostInLoop(s1, n, a, i);
    CrossingShort(s1, n, a);
  }

  lemma HandsOutOnly(s: Sys, n: nat, s1: Sys, a: nat)
    requires HandsOut(s, User, n, s1, a)
    ensures s1.mem == s.mem && s1.dir == s.dir && s1.kernelPool == s.kernelPool && s1.userPool == s.userPool
  {
    hide Run;
  }

  lemma PageRange(s: Sys, a: nat, n: nat)
    requires Inv(s) && Ready(s, User, a, n) && n > 0
    ensures Aligned(a) && PdeIdx(a) < 1023 && Steady(s)
  {
    hide Translate;
    FirstReady(s, User, a, n);
    VirtManaged(s, User, a);
    ManagedRange(s, a);
  }

  lemma CrossingShort(s: Sys, n: nat, a: nat)
    requires FreeCount(s.kernelPool) == 0 && !ZeroTable(s)
    requires FreeCount(s.userPool) >= n && Crosses(s, a, n) && Aligned(a)
    ensures Short(s, User, a, n) && !Short(s, User, a, n - 1)
  {
    hide FreeCount, ZeroTable, MissingFor, Crosses;
    CrossingMissing(s, a, n);
    assert n > 1 by { CrossesMore(s, a, n); }
  }

  lemma CrossesMore(s: Sys, a: nat, n: nat)
    requires Crosses(s, a, n)
    ensures n > 1 && PteIdx(a) + n - 1 == 1024 && PteIdx(a) > 0
  {
  }

  lemma LostInLoop(s: Sys, n: nat, a: nat, i: nat)
    requires Steady(s) && Ready(s, User, a, n) && FreeCount(s.kernelPool) == 0
    requires !ZeroTable(s) && FreeCount(s.userPool) >= n
    requires Crosses(s, a, n) && i < n - 1 && Aligned(a) && PdeIdx(a) < 1023
    ensures var (s', status) := MapPages(s, User, a, n);
            status == Mapped && Translate(s'.mem, s'.dir, a + i * PG_SIZE) == None
  {
    hide Steady, Ready, Translate, FreeCount, HasTable, ZeroTable, PdeIdx, PteIdx, MapPages, Short, Kept;
    hide OnlyMaps, Backed, Slack, TableAt, Aligned, In, Crosses;
    CrossesMore(s, a, n);
    CrossingShort(s, n, a);
    var last := a + (n - 1) * PG_SIZE;
    ReadyLess(s, a, n - 1, n);
    MapPagesOk(s, User, a, n - 1);
    var s1 := MapPages(s, User, a, n - 1).0;
    MapPagesSplit(s, User, a, n - 1, n);
    ShortRest(s, a, n - 1, n);
    OneShort(s1, last);
    CoreOf(s);
    NewZeroTable(s, s1, a, n);
    CrossingIndices(a, n, i);
    CrossingIndices(a, n, n - 1);
    InRangeOf(s, s1, a, n, i);
    LastPageTakes(s1, last, a + i * PG_SIZE);
  }

  lemma OneShort(s: Sys, v: nat)
    requires Short(s, User, v, 1) && FreeCount(s.userPool) > 0
    ensures Starved(s, v)
  {
    hide FreeCount, ZeroTable, HasTable;
    var e := PdeIdx(v);
    assert v + 0 * PG_SIZE == v;
    assert (set i: nat | e <= i <= e && !HasTable(s, i)) == if HasTable(s, e) then {} else {e};
  }

  lemma InRangeOf(s: Sys, s1: Sys, a: nat, n: nat, i: nat)
    requires Steady(s) && Ready(s, User, a, n) && n > 0 && Kept(s, s1) && i < n
    ensures In(s1.userVirt, a + (n - 1) * PG_SIZE) && a + i * PG_SIZE < 0xffc0_0000
  {
    hide Translate, In;
    assert In(s.userVirt, a + i * PG_SIZE);
    VirtManaged(s, User, a + i * PG_SIZE);
    ManagedRange(s, a + i * PG_SIZE);
  }

  // ---------------------------------------------------------------- a run that comes to it

  /** 9.5 MiB: 960 frames in either pool. */
  const MEMORY: nat := 0x98_0000

  lemma StartNumbers(m: Memory)
    requires Booted(m) && HeapClear(m, MEMORY)
    ensures var s := Start(m, MEMORY);
            && Inv(s) && FreeCount(s.kernelPool) == 960 && FreeCount(s.userPool) == 960
            && s.kernelVirt == Pool(NoneSet(960), K_HEAP_START) && Chosen(s, Kernel, 1) == Some(K_HEAP_START)
            && VaddrGet(s, Kernel, 1).0.kernelVirt == Take(s.kernelVirt, 0, 1)
  {
    StartInvExactly(m, MEMORY);
    StartCount(m, MEMORY);
    var s := Start(m, MEMORY);
    FirstFitIs(s.kernelVirt.bits, 1, 0);
    assert Clear(s.kernelVirt.bits, 0, 1);
    hide Inv, FreeCount, Booted, HeapClear;
  }

  /** The first process, before its first page. */
  lemma FirstProcess(m: Memory) returns (p: Sys)
    requires Booted(m) && HeapClear(m, MEMORY)
    ensures var (s1, c) := CreatePageDir(Start(m, MEMORY));
            && c.Directory? && Translate(s1.mem, s1.dir, c.vaddr) != None
            && p == Enter(s1, Translate(s1.mem, s1.dir, c.vaddr).value)
    ensures Inv(p) && FreeCount(p.kernelPool) == 959 && FreeCount(p.userPool) == 960
    ensures p.kernelVirt == Take(Pool(NoneSet(960), K_HEAP_START), 0, 1) && p.userVirt == AllUserPages()
    ensures forall i: nat :: i < 768 ==> !HasTable(p, i)
  {
    hide Start, Inv, FreeCount, Translate, CreatePageDir, HasTable, Booted, HeapClear, AllUserPages, KernelPages;
    hide Chosen, TranslationsKept;
    var s := Start(m, MEMORY);
    StartNumbers(m);
    CreatePageDirOk(s, 0);
    CreatePageDirTakes(s);
    var (s1, c) := CreatePageDir(s);
    p := Enter(s1, Translate(s1.mem, s1.dir, c.vaddr).value);
  }

  lemma FirstFitPastOne()
    ensures FirstFit(Take(Pool(NoneSet(960), K_HEAP_START), 0, 1).bits, 959, 0) == Some(1)
  {
    var bits := SetBits(NoneSet(960), 0, 1);
    assert bits[0] && |bits| == 960;
    assert forall k | 1 <= k < 960 :: !bits[k];
    assert !Clear(bits, 0, 959);
    assert Clear(bits, 1, 959);
    assert FirstFit(bits, 959, 1) == Some(1);
  }

  /** The kernel then takes all the frames that are left. */
  lemma KernelTakesAll(p: Sys)
    requires Inv(p) && FreeCount(p.kernelPool) == 959 && p.kernelVirt == Take(Pool(NoneSet(960), K_HEAP_START), 0, 1)
    requires forall i: nat :: i < 768 ==> !HasTable(p, i)
    ensures var (p1, out) := MallocPage(p, Kernel, 959);
            && out == Address(K_HEAP_START + PG_SIZE) && Inv(p1)
            && FreeCount(p1.kernelPool) == 0 && p1.userPool == p.userPool && p1.userVirt == p.userVirt
            && !ZeroTable(p1) && forall i: nat :: i < 768 ==> !HasTable(p1, i)
  {
    hide Inv, FreeCount, MallocPage, HasTable, TableAt, Slack, Backed, TranslationsKept, FirstFit, Clear;
    hide NoneSet, SetBits;
    FirstFitPastOne();
    MallocOk(p, Kernel, 959);
    var p1 := MallocPage(p, Kernel, 959).0;
    hide Run;
    OnlyKernelTables(p1);
  }

  lemma OnlyKernelTables(p: Sys)
    requires Inv(p) && forall i: nat :: i < 768 ==> !HasTable(p, i)
    ensures !ZeroTable(p)
  {
    hide HasTable, TableAt;
  }

  /**
    A run that loses pages: on 9.5 MiB the first process gets its directory, the kernel takes all the frames it has
    left, and the process asks for 953 pages. It is given the address 0x8048000, and nothing is mapped there, nor at
    any of the next 951 pages.
  */
  lemma PagesLost(m: Memory, i: nat)
    requires Booted(m) && HeapClear(m, MEMORY) && i < 952
    ensures var (s1, c) := CreatePageDir(Start(m, MEMORY));
            && c.Directory? && Translate(s1.mem, s1.dir, c.vaddr) != None
            && var p := Enter(s1, Translate(s1.mem, s1.dir, c.vaddr).value);
               var (p1, out1) := MallocPage(p, Kernel, 959);
               var (p2, out2) := MallocPage(p1, User, 953);
               && Inv(p1) && out1.Address? && out2 == Address(0x804_8000)
               && Translate(p2.mem, p2.dir, 0x804_8000 + i * PG_SIZE) == None
  {
    hide Start, Inv, FreeCount, Translate, CreatePageDir, HasTable, Booted, HeapClear, MallocPage, Enter;
    hide ZeroTable, Take, NoneSet, TablesRunOut;
    var p := FirstProcess(m);
    KernelTakesAll(p);
    var p1 := MallocPage(p, Kernel, 959).0;
    FirstUserPages(p1);
    AllButLastLost(p1, 953, 0x804_8000, i);
  }

  lemma FirstUserPages(s: Sys)
    requires s.userVirt == AllUserPages()
    ensures Chosen(s, User, 953) == Some(0x804_8000) && !Refused(s, User, 953)
    ensures PteIdx(0x804_8000) == 72 && PdeIdx(0x804_8000) == 32
  {
    assert Clear(s.userVirt.bits, 0, 953);
    assert FirstFit(s.userVirt.bits, 953, 0) == Some(0);
  }
}
