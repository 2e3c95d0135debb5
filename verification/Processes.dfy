/** Every interleaving of the processes' allocations, and of new processes, keeps the address spaces apart. */
module Processes {
  import opened Common
  import opened Paging
  import opened PagingMap
  import opened PageAlloc
  import opened PageSupply
  import opened PageAllocProofs
  import opened PageAllocRuns
  import opened PageRights
  import opened PageSteps
  import opened PoolInit
  import opened NewDirectory
  import opened AddressSpaces

  type Pid = nat

  datatype Process = Process(dir: nat, virt: Pool, pages: seq<nat>)

  /** Memory, the pools, the kernel's virtual pages and the frames handed out; and each process's own. */
  datatype World = World(mem: Memory, kernelPool: Pool, userPool: Pool, kernelVirt: Pool, frames: seq<nat>,
                         procs: map<Pid, Process>)

  /** What malloc_page works on while p runs. */
  function Space(w: World, p: Pid): Sys
    requires p in w.procs
  {
    var own := w.procs[p];
    Sys(w.mem, own.dir, w.kernelPool, w.userPool, w.kernelVirt, own.virt, w.frames, own.pages)
  }

  function Added(pages: seq<nat>, pages': seq<nat>): seq<nat> {
    if |pages| <= |pages'| then pages'[|pages|..] else []
  }

  /** p's work is done: its own is what it has made of it, and new kernel pages are everybody's. */
  function Absorb(w: World, p: Pid, s': Sys): World
    requires p in w.procs
  {
    var added := KernelPages(Added(w.procs[p].pages, s'.pages));
    World(s'.mem, s'.kernelPool, s'.userPool, s'.kernelVirt, s'.frames,
          map q | q in w.procs :: if q == p then Process(s'.dir, s'.userVirt, s'.pages)
                                  else w.procs[q].(pages := w.procs[q].pages + added))
  }

  /** The running process asks for pages, or makes a process. */
  datatype Act = Malloc(p: Pid, pf: Flags, n: nat) | Create(p: Pid, q: Pid)

  function Do(w: World, a: Act): World
    requires a.p in w.procs
  {
    match a
    case Malloc(p, pf, n) => Absorb(w, p, MallocPage(Space(w, p), pf, n).0)
    case Create(p, q) =>
      var (s', c) := CreatePageDir(Space(w, p));
      var w' := Absorb(w, p, s');
      if !c.Directory? then w'
      else
        var page := Translate(s'.mem, s'.dir, c.vaddr);
        if page == None then w' else w'.(procs := w'.procs[q := ProcessOf(Enter(s', page.value))])
  }

  function ProcessOf(s: Sys): Process {
    Process(s.dir, s.userVirt, s.pages)
  }

  /** All address spaces in good order and side by side. */
  ghost predicate WorldOk(w: World) {
    && (forall p :: p in w.procs ==> Good(Space(w, p)))
    && (forall p, q :: p in w.procs && q in w.procs && p != q ==> Beside(Space(w, p), Space(w, q)))
  }

  /** What the others notice of a step: no translation lost, and their own half to the last entry as it was. */
  ghost predicate Undisturbed(t: Sys, t': Sys) {
    && t'.dir == t.dir && t'.userVirt == t.userVirt && TranslationsKept(t, t')
    && forall u: nat :: 32 <= PdeIdx(u) < 768 ==> Translate(t'.mem, t'.dir, u) == Translate(t.mem, t.dir, u)
  }

  // ---------------------------------------------------------------- one call

  lemma MallocVirt(s: Sys, pf: Flags, n: nat)
    requires Inv(s) && !TablesRunOut(s, pf, n)
    ensures VirtGrow(s, MallocPage(s, pf, n).0)
  {
    hide Steady, Untouched, VaddrGet, MallocPage, Run, Translate, FreeCount, Slack, HandsOut, Backed, Free;
    hide Taken, NoNewTables, TranslationsKept;
    MallocOk(s, pf, n);
    var s' := MallocPage(s, pf, n).0;
    if 0 < n < 3840 {
      var (s1, got) := VaddrGet(s, pf, n);
      VaddrChosen(s, pf, n);
      if got != Nothing { HandedVirt(s, pf, n, s1, Chosen(s, pf, n).value); }
      assert s1.pages == s'.pages;
    }
  }

  lemma HandedVirt(s: Sys, pf: Flags, n: nat, s1: Sys, a: nat)
    requires Inv(s) && HandsOut(s, pf, n, s1, a)
    ensures VirtGrow(s, s1)
  {
    hide Steady, Untouched, Translate, Free, Taken, In;
    VirtTaken(s, pf, n, s1, a);
    LayoutHolds(s);
    assert s1.pages[|s.pages|..] == Run(a, n);
    forall v | v in Run(a, n) && v >= K_HEAP_START
      ensures !Taken(s.kernelVirt, v)
    {
      RunPage(a, n, v);
      var i: nat :| i < n && v == a + i * PG_SIZE;
      FreeMeans(VirtPool(s, pf), v);
      FreeMeans(s.kernelVirt, v);
      VirtualHalves(s, v);
    }
  }

  lemma LayoutHolds(s: Sys)
    requires Inv(s)
    ensures Layout(s)
  {
  }

  /** A call by a process in good order leaves it so, and writes and takes only what it may. */
  lemma MallocGood(s: Sys, pf: Flags, n: nat)
    requires Good(s) && !TablesRunOut(s, pf, n)
    ensures var s' := MallocPage(s, pf, n).0;
            && Good(s') && Steps(s, s') && VirtGrow(s, s') && (ZeroTable(s') <==> ZeroTable(s) || !TablesFit(s, pf, n))
  {
    hide Inv, MallocPage, TablesFit, TablesRunOut, Steps, VirtGrow, Backed, ZeroTable, NoNewTables, TranslationsKept;
    MallocFits(s, pf, n);
    MallocOk(s, pf, n);
    MallocSteps(s, pf, n);
    MallocVirt(s, pf, n);
    OwnPool(s, MallocPage(s, pf, n).0);
    MallocKeepsOpen(s, pf, n);
    hide OwnInUserPool, OwnHalfOpen;
  }

  // ---------------------------------------------------------------- one create_page_dir

  /** So does create_page_dir, its new page included. */
  lemma CreateGood(s: Sys)
    requires Good(s)
    ensures var s' := CreatePageDir(s).0; Good(s') && Steps(s, s') && VirtGrow(s, s') && (ZeroTable(s') <==> ZeroTable(s))
  {
    assert TablesFit(s, Kernel, 1);
    FitsNotOut(s, Kernel, 1);
    hide Inv, MallocPage, Steps, VirtGrow, Backed, ZeroTable, NoNewTables, TranslationsKept, FillDirectory;
    hide FreeCount, Slack, DataPage, Fresh, Translate, OwnHalfOpen, OwnInUserPool, Enter, SelfMapped, PdeAt;
    MallocOk(s, Kernel, 1);
    MallocGood(s, Kernel, 1);
    GoodParts(MallocPage(s, Kernel, 1).0);
    CreatePageDirOk(s, 0);
    if MallocPage(s, Kernel, 1).1.Address? {
      var s1, v, page := Creation(s);
      FilledSteps(s, s1, v, page, CreatePageDir(s).0);
      FilledOpen(s1, v, page, CreatePageDir(s).0);
    }
    OwnPool(s, CreatePageDir(s).0);
  }

  lemma GoodParts(s: Sys)
    requires Good(s)
    ensures Inv(s) && OwnHalfOpen(s)
  {
  }

  /** Filling the new page changes nothing of what the process may use. */
  lemma FilledOpen(s1: Sys, v: nat, page: nat, s': Sys)
    requires DataPage(s1, v, page) && s' == s1.(mem := s'.mem) && Fresh(s1.mem, s'.mem, s1.dir, page) && OwnHalfOpen(s1)
    ensures OwnHalfOpen(s')
  {
    hide Translate, In, PageOf, PdeAt, Aligned, SelfMapped, Writable, NotATable, PdeIdx, Open, OutsideSame, Fresh;
    FreshOutside(s1.mem, s'.mem, s1.dir, page);
    DataPageWritable(s1, v, page);
    EntriesSame(s1, v, s'.mem, page);
    DataLayout(s1, v, page);
    hide DataPage;
    forall i: nat | 32 <= i < 768 && HasTable(s', i)
      ensures Open(PdeAt(s'.mem, s'.dir, i))
    {
      assert HasTable(s1, i);
    }
    forall u: nat | OwnMapped(s', u)
      ensures UserWrites(s'.mem, s'.dir, u)
    {
      OwnRange(s1, u);
      OldDirectorySame(s1, s'.mem, v, page, u);
      assert OwnMapped(s1, u) && UserWrites(s1.mem, s1.dir, u);
      OpenPresent(s1.mem, s1.dir, u);
    }
  }

  lemma OpenPresent(m: Memory, dir: nat, u: nat)
    requires UserWrites(m, dir, u)
    ensures Present(Pde(m, dir, u))
  {
  }

  lemma DataLayout(s: Sys, v: nat, page: nat)
    requires DataPage(s, v, page)
    ensures Layout(s)
  {
  }

  lemma FilledSteps(s: Sys, s1: Sys, v: nat, page: nat, s': Sys)
    requires Good(s) && Steps(s, s1) && VirtGrow(s, s1)
    requires DataPage(s1, v, page) && page in s1.frames && page !in s.frames
    requires s' == s1.(mem := s'.mem) && Fresh(s1.mem, s'.mem, s1.dir, page)
    ensures Steps(s, s') && VirtGrow(s, s') && (ZeroTable(s') <==> ZeroTable(s1))
  {
    hide DataPage, Translate, Free, In, Taken, PageOf, PdeAt, Aligned, SelfMapped, Writable, NotATable, Core;
    hide HistoryOk, TablesUsed, OwnFrames, Untouched;
    FreshOutside(s1.mem, s'.mem, s1.dir, page);
    DataPageWritable(s1, v, page);
    EntriesSame(s1, v, s'.mem, page);
    PageIsAligned(s1, v, page);
    forall w: nat | w < TWO32
      ensures Translate(s'.mem, s'.dir, w) == Translate(s1.mem, s1.dir, w)
    {
      OldDirectorySame(s1, s'.mem, v, page, w);
    }
    forall a: nat | Word(s'.mem, a) != Word(s.mem, a)
      ensures MayWrite(s, s', a)
    {
      InPage(page, a);
      assert PageOf(a) != page ==> Word(s'.mem, a) == Word(s1.mem, a);
      assert PageOf(a) != page ==> MayWrite(s, s1, a);
    }
    assert WritesOwn(s, s');
    hide HasTable, TableAt, MayWrite, Fresh, OutsideSame, Word;
    AllManaged(s, s);
    SteadyOf(s);
    assert forall f: nat :: NewFrame(s, s', f) <==> NewFrame(s, s1, f);
    assert PoolsGrow(s, s');
    assert TablesKept(s, s');
    assert NewMapsFresh(s, s') by { hide Managed; }
  }

  lemma SteadyOf(s: Sys)
    requires Inv(s)
    ensures Steady(s)
  {
  }

  lemma FreshOutside(m: Memory, m': Memory, dir: nat, page: nat)
    requires Fresh(m, m', dir, page)
    ensures OutsideSame(m, m', page)
  {
  }

  lemma PageIsAligned(s: Sys, v: nat, page: nat)
    requires DataPage(s, v, page)
    ensures Aligned(page)
  {
    PoolsApart(s, page);
  }

  // ---------------------------------------------------------------- the new process beside the others

  lemma BesideBack(s: Sys, t: Sys)
    requires Beside(s, t)
    ensures Beside(t, s)
  {
    hide Translate, HasTable, TableAt, In;
  }

  lemma NewBeside(s: Sys, page: nat, t: Sys)
    requires Good(s) && Good(t) && NewSpace(s, page) && Good(Enter(s, page)) && !Read(t, page)
    requires SameMachine(s, t) && KernelShared(s, t)
    ensures Beside(Enter(s, page), t) && Beside(t, Enter(s, page))
  {
    var p := Enter(s, page);
    LayoutOf(p);
    KernelTablesOf(s);
    KernelTablesOf(t);
    TablesOfGood(t);
    NewEntries(s, page);
    OnlyKernelHalf(p);
    EnterFields(s, page);
    EnterMachine(s, page);
    hide Translate, PdeAt, In, Free, SelfMapped, PageOf, NewSpace, Enter, Good, HasTable, TableAt;
    forall u: nat
      ensures !OwnMapped(p, u)
    {
      if In(p.userVirt, u) { NewUnmapped(s, page, u); }
    }
    assert ClearOf(p, t);
    assert ClearOf(t, p);
    assert KernelShared(p, t) && OwnFramesApart(p, t);
    BesideBack(p, t);
  }

  lemma OnlyKernelHalf(p: Sys)
    requires Good(p) && forall i: nat :: i < 768 ==> !HasTable(p, i)
    ensures !ZeroTable(p)
  {
    hide HasTable, TableAt;
  }

  lemma TablesOfGood(t: Sys)
    requires Good(t)
    ensures forall i: nat :: i < 1023 && HasTable(t, i) ==> TableAt(t, i) != t.dir
    ensures OwnTables(t)
  {
    hide HasTable, TableAt;
  }

  lemma EnterMachine(s: Sys, page: nat)
    ensures SameMachine(s, Enter(s, page))
  {
  }

  /** Its tables are the kernel's. */
  lemma NewEntries(s: Sys, page: nat)
    requires NewSpace(s, page)
    ensures var p := Enter(s, page);
            && (forall i: nat :: i < 768 ==> !HasTable(p, i))
            && (forall i: nat :: 768 <= i < 1023 ==> TableAt(p, i) == TableAt(s, i))
  {
    hide Translate, PageOf, KernelPages;
  }

  lemma NewUnmapped(s: Sys, page: nat, u: nat)
    requires NewSpace(s, page) && Layout(Enter(s, page)) && In(Enter(s, page).userVirt, u)
    ensures Translate(s.mem, page, u) == None
  {
    InRange(Enter(s, page).userVirt, u);
    hide Translate, In;
  }

  lemma EnterGood(s: Sys, page: nat)
    requires Good(s) && NewSpace(s, page)
    ensures Good(Enter(s, page))
  {
    EnterInv(s, page);
    hide Inv, HasTable, TableAt, KernelPages;
  }

  /** The directory that create_page_dir has made, and its page. */
  lemma Made(s: Sys) returns (page: nat)
    requires Good(s) && CreatePageDir(s).1.Directory?
    ensures var (s', c) := CreatePageDir(s);
            && Translate(s'.mem, s'.dir, c.vaddr) == Some(page) && NewSpace(s', page) && NewFrame(s, s', page) && !Read(s', page)
  {
    hide Inv, MallocPage, Backed, ZeroTable, NoNewTables, TranslationsKept, FillDirectory, FreeCount, Slack;
    hide DataPage, Fresh, Translate, NewSpace, Read;
    MallocOk(s, Kernel, 1);
    var s1, v, page' := Creation(s);
    page := page';
    var s' := CreatePageDir(s).0;
    Filled(s, s1, v, page, s'.mem);
    NotReadHere(s1, v, page, s');
  }

  lemma NotReadHere(s1: Sys, v: nat, page: nat, s': Sys)
    requires DataPage(s1, v, page) && s' == s1.(mem := s'.mem) && OutsideSame(s1.mem, s'.mem, page)
    ensures !Read(s', page)
  {
    DataPageWritable(s1, v, page);
    EntriesSame(s1, v, s'.mem, page);
    hide HasTable, TableAt, Translate, In, Writable, NotATable, Core, OutsideSame, SelfMapped;
  }

  // ---------------------------------------------------------------- one step of the world

  lemma SpacesAfter(w: World, p: Pid, s': Sys, q: Pid)
    requires p in w.procs && q in w.procs && Space(w, p).pages <= s'.pages
    ensures q in Absorb(w, p, s').procs
    ensures Space(Absorb(w, p, s'), q) == if q == p then s' else Beheld(Space(w, p), s', Space(w, q))
  {
    hide KernelPages;
  }

  lemma PairOf(w: World, p: Pid, q: Pid)
    requires WorldOk(w) && p in w.procs && q in w.procs
    ensures Good(Space(w, p)) && (p != q ==> Beside(Space(w, p), Space(w, q)))
  {
    hide Good, Beside;
  }

  lemma FollowsUndisturbed(s': Sys, t: Sys, t': Sys)
    requires Follows(s', t, t')
    ensures Undisturbed(t, t')
  {
    hide Translate, PdeIdx;
  }

  /** Whatever p does within its rights, all spaces are in good order and side by side afterwards. */
  lemma AbsorbOk(w: World, p: Pid, s': Sys)
    requires WorldOk(w) && p in w.procs && Good(s') && Steps(Space(w, p), s') && VirtGrow(Space(w, p), s')
    requires forall q :: q in w.procs && q != p ==> OneZero(s', Space(w, q))
    ensures var w' := Absorb(w, p, s');
            && WorldOk(w') && w'.procs.Keys == w.procs.Keys && Space(w', p) == s'
            && forall q :: q in w.procs && q != p ==> Undisturbed(Space(w, q), Space(w', q))
  {
    hide Good, Beside, Steps, VirtGrow, Follows, Undisturbed, Absorb, Space, Beheld, OneZero;
    var s, w' := Space(w, p), Absorb(w, p, s');
    GrowsPages(s, s');
    AbsorbKeys(w, p, s');
    forall q | q in w.procs
      ensures Good(Space(w', q))
      ensures q == p ==> Space(w', q) == s'
      ensures q != p ==> Follows(s', Space(w, q), Space(w', q)) && Undisturbed(Space(w, q), Space(w', q))
    {
      SpacesAfter(w, p, s', q);
      PairOf(w, p, q);
      PairOf(w, q, p);
      if q != p {
        OtherGood(s, s', Space(w, q));
        FollowsUndisturbed(s', Space(w, q), Space(w', q));
      }
    }
    forall q, r | q in w'.procs && r in w'.procs && q != r
      ensures Beside(Space(w', q), Space(w', r))
    {
      PairsAfter(w, p, s', w', q, r);
    }
  }

  lemma AbsorbKeys(w: World, p: Pid, s': Sys)
    requires p in w.procs
    ensures Absorb(w, p, s').procs.Keys == w.procs.Keys
  {
  }

  lemma PairsAfter(w: World, p: Pid, s': Sys, w': World, q: Pid, r: Pid)
    requires WorldOk(w) && p in w.procs && q in w.procs && r in w.procs && q != r && w'.procs.Keys == w.procs.Keys
    requires Good(s') && Steps(Space(w, p), s') && VirtGrow(Space(w, p), s') && Space(w', p) == s'
    requires forall x :: x in w.procs && x != p ==> OneZero(s', Space(w, x)) && Follows(s', Space(w, x), Space(w', x))
    ensures Beside(Space(w', q), Space(w', r))
  {
    hide Good, Beside, Steps, VirtGrow, Follows, Space, OneZero;
    PairOf(w, p, q);
    PairOf(w, p, r);
    PairOf(w, q, r);
    PairOf(w, r, q);
    if q == p {
      BesideAfter(Space(w, p), s', Space(w, r), Space(w', r));
    } else if r == p {
      BesideAfter(Space(w, p), s', Space(w, q), Space(w', q));
      BesideBack(s', Space(w', q));
    } else {
      BesideOthers(s', Space(w, q), Space(w', q), Space(w, r), Space(w', r));
    }
  }

  /**
    The calls a process may make: it is there, a new process is not, and its tables do not run out; page 0 may stand in
    for a frame once, for one process.
  */
  ghost predicate Provided(w: World, a: Act) {
    && a.p in w.procs
    && (match a
        case Malloc(p, pf, n) =>
          && !TablesRunOut(Space(w, p), pf, n)
          && (TablesFit(Space(w, p), pf, n) || forall q :: q in w.procs && q != p ==> !ZeroTable(Space(w, q)))
        case Create(p, q) => q !in w.procs)
  }

  lemma MallocStep(w: World, p: Pid, pf: Flags, n: nat)
    requires WorldOk(w) && Provided(w, Malloc(p, pf, n))
    ensures StepOk(w, Malloc(p, pf, n))
  {
    hide WorldOk, Good, Steps, VirtGrow, Absorb, MallocPage, TablesFit, Undisturbed, TablesRunOut, Space;
    hide ZeroTable, Beside;
    PairOf(w, p, p);
    MallocGood(Space(w, p), pf, n);
    forall q | q in w.procs && q != p
      ensures OneZero(MallocPage(Space(w, p), pf, n).0, Space(w, q))
    {
      PairOf(w, p, q);
      ZeroApart(Space(w, p), Space(w, q));
    }
    AbsorbOk(w, p, MallocPage(Space(w, p), pf, n).0);
    StepsPools(Space(w, p), MallocPage(Space(w, p), pf, n).0);
  }

  lemma ZeroApart(s: Sys, t: Sys)
    requires Beside(s, t)
    ensures OneZero(s, t)
  {
  }

  /** Good order after the step, and nothing lost: the others have not noticed, p has only gained. */
  ghost predicate StepOk(w: World, a: Act)
    requires a.p in w.procs
  {
    var w' := Do(w, a);
    && WorldOk(w') && w.procs.Keys <= w'.procs.Keys
    && (forall q {:trigger Space(w', q)} :: q in w.procs && q != a.p ==> Undisturbed(Space(w, q), Space(w', q)))
    && TranslationsKept(Space(w, a.p), Space(w', a.p))
  }

  lemma CreateStep(w: World, p: Pid, q: Pid)
    requires WorldOk(w) && Provided(w, Create(p, q))
    ensures StepOk(w, Create(p, q))
  {
    hide WorldOk, Good, Steps, VirtGrow, Absorb, CreatePageDir, Undisturbed, Beside, Translate, Enter, Space;
    hide Read, NewSpace, TranslationsKept, ZeroTable;
    var s := Space(w, p);
    PairOf(w, p, p);
    CreateGood(s);
    var (s', c) := CreatePageDir(s);
    forall q | q in w.procs && q != p
      ensures OneZero(s', Space(w, q))
    {
      PairOf(w, p, q);
      ZeroApart(s, Space(w, q));
    }
    AbsorbOk(w, p, s');
    StepsPools(s, s');
    var w1 := Absorb(w, p, s');
    if c.Directory? {
      var page := Made(s);
      EnterGood(s', page);
      forall r | r in w1.procs
        ensures Beside(Enter(s', page), Space(w1, r)) && Beside(Space(w1, r), Enter(s', page))
      {
        PairOf(w1, p, r);
        PairOf(w1, r, p);
        Unread(w, p, s', w1, page, r);
        SharedWith(w1, p, r);
        NewBeside(s', page, Space(w1, r));
      }
      var w' := w1.(procs := w1.procs[q := ProcessOf(Enter(s', page))]);
      NewcomerSpace(w1, s', page, p, q);
      JoinWorld(w1, w', q, Enter(s', page));
    }
  }

  lemma SharedWith(w: World, p: Pid, r: Pid)
    requires WorldOk(w) && p in w.procs && r in w.procs
    ensures SameMachine(Space(w, p), Space(w, r)) && KernelShared(Space(w, p), Space(w, r))
  {
    PairOf(w, p, r);
    hide WorldOk, Translate, Good, ClearOf, OwnFramesApart, TableAt;
  }

  /** Nobody's walks read the page that has just been handed out. */
  lemma Unread(w: World, p: Pid, s': Sys, w1: World, page: nat, r: Pid)
    requires WorldOk(w) && p in w.procs && Good(s') && Steps(Space(w, p), s')
    requires VirtGrow(Space(w, p), s') && w1 == Absorb(w, p, s')
    requires NewFrame(Space(w, p), s', page) && !Read(s', page) && r in w1.procs
    requires forall q :: q in w.procs && q != p ==> OneZero(s', Space(w, q))
    ensures !Read(Space(w1, r), page)
  {
    hide Good, Steps, VirtGrow, Absorb, Beside, Read, WorldOk, Space, NewFrame, Follows, Beheld, OneZero;
    GrowsPages(Space(w, p), s');
    AbsorbKeys(w, p, s');
    SpacesAfter(w, p, s', r);
    if r != p {
      PairOf(w, p, r);
      PairOf(w, r, p);
      OtherGood(Space(w, p), s', Space(w, r));
      SharesMachine(Space(w, p), Space(w, r));
      StepsPools(Space(w, p), s');
      NewFrameUnread(Space(w, p), s', Space(w, r), page);
      SameRead(s', Space(w, r), Space(w1, r), page);
    }
  }

  lemma SameRead(s': Sys, t: Sys, t': Sys, f: nat)
    requires Follows(s', t, t')
    ensures Read(t', f) <==> Read(t, f)
  {
    FollowsEntries(s', t, t');
    FollowsDir(s', t, t');
    hide Follows, HasTable, TableAt;
  }

  lemma FollowsDir(s': Sys, t: Sys, t': Sys)
    requires Follows(s', t, t')
    ensures t'.dir == t.dir
  {
  }

  lemma NewcomerSpace(w1: World, s': Sys, page: nat, p: Pid, q: Pid)
    requires p in w1.procs && q !in w1.procs && Space(w1, p) == s'
    ensures var w' := w1.(procs := w1.procs[q := ProcessOf(Enter(s', page))]);
            && w'.procs.Keys == w1.procs.Keys + {q} && Space(w', q) == Enter(s', page)
            && forall r :: r in w1.procs ==> Space(w', r) == Space(w1, r)
  {
    hide KernelPages;
  }

  lemma JoinWorld(w1: World, w': World, q: Pid, s: Sys)
    requires WorldOk(w1) && q !in w1.procs && w'.procs.Keys == w1.procs.Keys + {q} && Space(w', q) == s && Good(s)
    requires forall r :: r in w1.procs ==> Space(w', r) == Space(w1, r)
    requires forall r :: r in w1.procs ==> Beside(s, Space(w1, r)) && Beside(Space(w1, r), s)
    ensures WorldOk(w')
  {
    hide Good, Beside, Space;
  }

  /** Every step of any process. */
  lemma DoOk(w: World, a: Act)
    requires WorldOk(w) && Provided(w, a)
    ensures StepOk(w, a)
  {
    hide WorldOk, TablesFit, StepOk, TablesRunOut, ZeroTable;
    match a
    case Malloc(p, pf, n) => MallocStep(w, p, pf, n);
    case Create(p, q) => CreateStep(w, p, q);
  }

  /**
    And only those: a call that is not among them leaves two directory entries with one table, be they of one process
    or of two.
  */
  lemma MallocExactly(w: World, p: Pid, pf: Flags, n: nat)
    requires WorldOk(w) && p in w.procs
    ensures WorldOk(Do(w, Malloc(p, pf, n))) <==> Provided(w, Malloc(p, pf, n))
  {
    hide WorldOk, Good, Steps, VirtGrow, Absorb, MallocPage, TablesFit, TablesRunOut, Space, ZeroTable, Beside;
    hide OwnTables, StepOk;
    var s := Space(w, p);
    var s' := MallocPage(s, pf, n).0;
    PairOf(w, p, p);
    if Provided(w, Malloc(p, pf, n)) {
      MallocStep(w, p, pf, n);
      OneStep(w, Malloc(p, pf, n), p);
    } else if TablesRunOut(s, pf, n) {
      RunOutShares(s, pf, n);
      SpacesAfter(w, p, s', p);
      if WorldOk(Absorb(w, p, s')) {
        PairOf(Absorb(w, p, s'), p, p);
        TablesOfGood(s');
      }
    } else {
      var q :| q in w.procs && q != p && ZeroTable(Space(w, q));
      MallocGood(s, pf, n);
      GrowsPages(s, s');
      SpacesAfter(w, p, s', p);
      SpacesAfter(w, p, s', q);
      PairOf(w, p, q);
      PairOf(w, q, q);
      ZeroSeen(s, s', Space(w, q));
      if WorldOk(Absorb(w, p, s')) {
        PairOf(Absorb(w, p, s'), p, q);
        ZeroApart(s', Beheld(s, s', Space(w, q)));
      }
    }
  }

  lemma RunOutShares(s: Sys, pf: Flags, n: nat)
    requires Good(s) && TablesRunOut(s, pf, n)
    ensures !OwnTables(MallocPage(s, pf, n).0) && s.pages <= MallocPage(s, pf, n).0.pages
  {
    hide Inv, OwnTables, TablesRunOut, MallocPage, OwnInUserPool, Layout, HistoryOk;
    MallocOk(s, pf, n);
    DirectoryOf(s);
    CallHistory(s, pf, n);
  }

  /** A table that t has at page 0 it has still. */
  lemma ZeroSeen(s: Sys, s': Sys, t: Sys)
    requires Good(t) && Beside(s, t) && Steps(s, s') && s.pages <= s'.pages && ZeroTable(t)
    ensures ZeroTable(Beheld(s, s', t))
  {
    hide Good, Beside, Steps, PageOf, KernelPages;
    DirectoryKept(s, s', t);
    var i: nat :| i < 1023 && HasTable(t, i) && TableAt(t, i) == 0;
    assert HasTable(Beheld(s, s', t), i);
  }

  // ---------------------------------------------------------------- runs

  /** A bad count, or the stack's page: an ASSERT stops the machine. */
  predicate Stops(w: World, a: Act)
    requires a.p in w.procs
  {
    a.Malloc? && MallocPage(Space(w, a.p), a.pf, a.n).1 == Dead
  }

  /** Each step is one that its process may take in the world it finds. */
  ghost predicate Allowed(w: World, acts: seq<Act>)
    decreases |acts|
  {
    acts != [] ==> Provided(w, acts[0]) && (Stops(w, acts[0]) || Allowed(Do(w, acts[0]), acts[1..]))
  }

  ghost function RunAll(w: World, acts: seq<Act>): World
    requires Allowed(w, acts)
    decreases |acts|
  {
    if acts == [] then w
    else if Stops(w, acts[0]) then Do(w, acts[0])
    else RunAll(Do(w, acts[0]), acts[1..])
  }

  lemma UndisturbedMore(t: Sys, t1: Sys, t2: Sys)
    requires Undisturbed(t, t1) && Undisturbed(t1, t2)
    ensures Undisturbed(t, t2)
  {
    hide Translate, PdeIdx;
  }

  lemma NotDisturbedAtAll(t: Sys)
    ensures Undisturbed(t, t)
  {
  }

  lemma KeptOver(t: Sys, t1: Sys, t2: Sys)
    requires TranslationsKept(t, t1) && TranslationsKept(t1, t2)
    ensures TranslationsKept(t, t2)
  {
    hide Translate;
  }

  lemma KeptOfUndisturbed(t: Sys, t1: Sys)
    requires Undisturbed(t, t1)
    ensures TranslationsKept(t, t1)
  {
    hide Translate;
  }

  /**
    Over every interleaving: all address spaces stay in good order and side by side, no process ever loses a
    translation, and one that makes no call finds its own half as it was, to the last entry.
  */
  lemma {:induction false} RunOk(w: World, acts: seq<Act>, q: Pid)
    requires WorldOk(w) && Allowed(w, acts) && q in w.procs
    ensures var w' := RunAll(w, acts);
            && WorldOk(w') && q in w'.procs && TranslationsKept(Space(w, q), Space(w', q))
            && ((forall a <- acts :: a.p != q) ==> Undisturbed(Space(w, q), Space(w', q)))
    decreases |acts|
  {
    hide WorldOk, Provided, Space, Do, Undisturbed, TranslationsKept, Stops;
    if acts == [] {
      NotDisturbedAtAll(Space(w, q));
      KeptOfUndisturbed(Space(w, q), Space(w, q));
    } else {
      ActorThere(w, acts[0]);
      var w1 := Do(w, acts[0]);
      DoOk(w, acts[0]);
      OneStep(w, acts[0], q);
      if !Stops(w, acts[0]) {
        RunOk(w1, acts[1..], q);
        var w' := RunAll(w1, acts[1..]);
        KeptOver(Space(w, q), Space(w1, q), Space(w', q));
        if forall a <- acts :: a.p != q {
          assert acts[0] in acts;
          UndisturbedMore(Space(w, q), Space(w1, q), Space(w', q));
        }
      }
    }
  }

  lemma ActorThere(w: World, a: Act)
    requires Provided(w, a)
    ensures a.p in w.procs
  {
  }

  lemma OneStep(w: World, a: Act, q: Pid)
    requires a.p in w.procs && StepOk(w, a) && q in w.procs
    ensures var w' := Do(w, a);
            && WorldOk(w') && q in w'.procs && TranslationsKept(Space(w, q), Space(w', q))
            && (a.p != q ==> Undisturbed(Space(w, q), Space(w', q)))
  {
    hide WorldOk, Undisturbed, TranslationsKept, Space, Do;
    if a.p != q { KeptOfUndisturbed(Space(w, q), Space(Do(w, a), q)); }
  }

  // ---------------------------------------------------------------- from boot

  /** The machine after mem_init: main's address space and no process yet. */
  function BootWorld(m: Memory, allMem: nat, main: Pid): World
    requires allMem < TWO32
  {
    var s := Start(m, allMem);
    World(m, s.kernelPool, s.userPool, s.kernelVirt, [], map[main := ProcessOf(s)])
  }

  lemma BootWorldOk(m: Memory, allMem: nat, main: Pid)
    requires Booted(m) && allMem < TWO32 && HeapClear(m, allMem)
    ensures WorldOk(BootWorld(m, allMem, main))
  {
    hide Start, Core, HistoryOk, HeapClear, Inv, ZeroTable, Translate, In;
    var s := Start(m, allMem);
    StartInvExactly(m, allMem);
    StartCore(m, allMem);
    StartFields(m, allMem);
    assert Space(BootWorld(m, allMem, main), main) == s;
    BootUnmapped(m, allMem);
    forall u: nat
      ensures !OwnMapped(s, u)
    {
      if In(s.userVirt, u) { assert Managed(s, u); }
    }
  }

  /** Two address spaces side by side share no frame of their own halves, and neither can reach the other's tables. */
  lemma Apart(s: Sys, t: Sys, u: nat)
    requires Good(s) && Good(t) && (s == t || Beside(s, t)) && OwnMapped(s, u)
    ensures var f := Translate(s.mem, s.dir, u).value;
            && UserWrites(s.mem, s.dir, u)
            && f != t.dir && (forall i: nat :: i < 1023 && HasTable(t, i) ==> TableAt(t, i) != f)
            && (s != t ==> forall x: nat :: OwnMapped(t, x) ==> Translate(t.mem, t.dir, x).value != f)
  {
    hide Translate, In, HasTable, TableAt, SelfMapped, HistoryOk, OwnFrames, TablesUsed, Untouched, ZeroTable;
    hide ClearOf, KernelShared;
  }

  /**
    From boot, whatever the processes ask for and in whatever order, as long as tables do not run out: no
    page of one process's own half is on a frame of another's, and none is on a page table or a directory of any; and the
    process may read and write all of its own.
  */
  lemma {:induction false} Isolation(m: Memory, allMem: nat, main: Pid, acts: seq<Act>, p: Pid, q: Pid, u: nat)
    requires Booted(m) && allMem < TWO32 && HeapClear(m, allMem) && Allowed(BootWorld(m, allMem, main), acts)
    ensures var w := RunAll(BootWorld(m, allMem, main), acts);
            p in w.procs && q in w.procs && OwnMapped(Space(w, p), u) ==>
              var s, t := Space(w, p), Space(w, q);
              var f := Translate(s.mem, s.dir, u).value;
              && UserWrites(s.mem, s.dir, u)
              && f != t.dir && (forall i: nat :: i < 1023 && HasTable(t, i) ==> TableAt(t, i) != f)
              && (p != q ==> forall x: nat :: OwnMapped(t, x) ==> Translate(t.mem, t.dir, x).value != f)
  {
    hide WorldOk, Allowed, RunAll, Space, Translate, HasTable, TableAt, OwnMapped, Good, Beside, Booted, HeapClear;
    BootWorldOk(m, allMem, main);
    MainThere(m, allMem, main);
    RunOk(BootWorld(m, allMem, main), acts, main);
    var w := RunAll(BootWorld(m, allMem, main), acts);
    if p in w.procs && q in w.procs && OwnMapped(Space(w, p), u) {
      PairOf(w, p, q);
      PairOf(w, q, p);
      if p != q { Separate(Space(w, p), Space(w, q)); }
      Apart(Space(w, p), Space(w, q), u);
    }
  }

  lemma MainThere(m: Memory, allMem: nat, main: Pid)
    requires allMem < TWO32
    ensures main in BootWorld(m, allMem, main).procs
  {
  }

  lemma Separate(s: Sys, t: Sys)
    requires Beside(s, t)
    ensures s != t
  {
    hide ClearOf, KernelShared, OwnFramesApart;
  }
}
