/** create_page_dir: a new directory that shares the kernel half and maps itself, and the process's start in it. */
module NewDirectory {
  import opened Common
  import opened Paging
  import opened PagingMap
  import opened PageAlloc
  import opened PageAllocProofs
  import opened PageSupply
  import opened PageAllocRuns
  import opened PoolInit

  /** memcpy of n words between virtual addresses. */
  function CopyWords(m: Memory, dir: nat, dst: nat, src: nat, n: nat): Option<Memory>
    decreases n
  {
    if n == 0 then Some(m)
    else
      var r := CopyWords(m, dir, dst, src, n - 1);
      if r == None then None
      else
        var w := Load(r.value, dir, src + 4 * (n - 1));
        if w == None then None else Store(r.value, dir, dst + 4 * (n - 1), w.value)
  }

  datatype Created = Directory(vaddr: nat, mem: Memory) | Failed | Trapped

  /** The steps after get_kernel_pages(1) has returned v, its memset first. */
  function FillDirectory(m: Memory, dir: nat, v: nat): Created {
    var m1 := StoreZeros(m, dir, v, 1024);
    if m1 == None then Trapped
    else
      var m2 := CopyWords(m1.value, dir, v + 4 * 0x300, 0xffff_f000 + 4 * 0x300, 256);
      if m2 == None then Trapped
      else
        var p := AddrV2P(m2.value, dir, v);
        if p == None then Trapped
        else
          var m3 := Store(m2.value, dir, v + 4 * 1023, Entry(p.value));
          if m3 == None then Trapped else Directory(v, m3.value)
  }

  function CreatePageDir(s: Sys): (Sys, Created) {
    var r := MallocPage(s, Kernel, 1);
    match r.1
    case Null => (r.0, Failed)
    case Dead => (r.0, Trapped)
    case Address(v) =>
      var c := FillDirectory(r.0.mem, r.0.dir, v);
      (if c.Directory? then r.0.(mem := c.mem) else r.0, c)
  }

  // ---------------------------------------------------------------- writes inside one page

  /** Nothing outside the page differs. */
  ghost predicate OutsideSame(m: Memory, m': Memory, page: nat) {
    forall a: nat :: !(page <= a < page + PG_SIZE) ==> Word(m', a) == Word(m, a)
  }

  /** v's walk does not go through the page. */
  lemma WalkSame(m: Memory, m': Memory, dir: nat, v: nat, page: nat)
    requires OutsideSame(m, m', page) && Aligned(page) && WalkAvoids(m, dir, v, page)
    ensures Translate(m', dir, v) == Translate(m, dir, v) && WalkAvoids(m', dir, v, page)
    ensures Pde(m', dir, v) == Pde(m, dir, v) && Pte(m', dir, v) == Pte(m, dir, v)
  {
    hide PteAddress, PdeIdx, PageOf, Aligned;
    var a, b := dir + 4 * PdeIdx(v), PteAddress(Pde(m, dir, v), v);
    InPage(page, a);
    InPage(page, b);
    assert Word(m', a) == Word(m, a);
    assert Word(m', b) == Word(m, b);
  }

  /** The copy so far: n directory entries from 768 on. */
  ghost predicate CopiedTo(m: Memory, m': Memory, dir: nat, page: nat, n: nat) {
    && OutsideSame(m, m', page)
    && (forall i: nat :: i < 768 ==> PdeAt(m', page, i) == PdeAt(m, page, i))
    && (forall i: nat :: 768 <= i < 768 + n ==> PdeAt(m', page, i) == PdeAt(m, dir, i))
  }

  lemma CopyOne(m: Memory, m': Memory, dir: nat, page: nat, n: nat)
    requires CopiedTo(m, m', dir, page, n) && n < 256
    ensures CopiedTo(m, m'[page + 4 * (768 + n) := PdeAt(m, dir, 768 + n)], dir, page, n + 1)
  {
  }

  /** A page whose mapping is not through itself, in a directory that maps itself. */
  ghost predicate Writable(m: Memory, dir: nat, v: nat, page: nat) {
    && SelfMapped(m, dir) && Aligned(v) && Aligned(page) && page != dir && v < 0xffc0_0000
    && Translate(m, dir, v) == Some(page) && PageOf(Pde(m, dir, v)) != page
  }

  lemma WritableAvoids(m: Memory, dir: nat, v: nat, page: nat)
    requires Writable(m, dir, v, page)
    ensures WalkAvoids(m, dir, v, page)
  {
    IndexRange(v);
    WalkParts(m, dir, v);
    hide PageOf, PdeIdx, PteAddress;
  }

  lemma WritableStays(m: Memory, m': Memory, dir: nat, v: nat, page: nat)
    requires Writable(m, dir, v, page) && OutsideSame(m, m', page)
    ensures Writable(m', dir, v, page)
    ensures forall i: nat :: i <= 1023 ==> PdeAt(m', dir, i) == PdeAt(m, dir, i)
  {
    hide PdeIdx, PageOf, PteAddress;
    WritableAvoids(m, dir, v, page);
    WalkSame(m, m', dir, v, page);
    forall i: nat | i <= 1023
      ensures PdeAt(m', dir, i) == PdeAt(m, dir, i)
    {
      EntryInPage(dir, i);
      InPage(page, dir + 4 * i);
    }
  }

  /** Where the copy reads and writes. */
  lemma CopyAddresses(m: Memory, dir: nat, v: nat, page: nat, n: nat)
    requires Writable(m, dir, v, page) && n < 256
    ensures Translate(m, dir, 0xffff_f000 + 4 * 0x300 + 4 * n) == Some(dir + 4 * (768 + n))
    ensures Translate(m, dir, v + 4 * 0x300 + 4 * n) == Some(page + 4 * (768 + n))
  {
    var w := (768 + n) * 0x40_0000;
    assert PdePtr(w) == 0xffff_f000 + 4 * 0x300 + 4 * n;
    PdePtrReaches(m, dir, w);
    SamePage(m, dir, v, 4 * (768 + n));
  }

  lemma {:induction false} CopyWordsCopies(m: Memory, dir: nat, v: nat, page: nat, n: nat)
    requires Writable(m, dir, v, page) && n <= 256
    ensures var r := CopyWords(m, dir, v + 4 * 0x300, 0xffff_f000 + 4 * 0x300, n);
            r != None && CopiedTo(m, r.value, dir, page, n)
    decreases n
  {
    hide Translate, Writable, PageOf;
    if n > 0 {
      CopyWordsCopies(m, dir, v, page, n - 1);
      var m' := CopyWords(m, dir, v + 4 * 0x300, 0xffff_f000 + 4 * 0x300, n - 1).value;
      WritableStays(m, m', dir, v, page);
      CopyAddresses(m', dir, v, page, n - 1);
      CopyOne(m, m', dir, page, n - 1);
      assert Word(m', dir + 4 * (768 + n - 1)) == PdeAt(m', dir, 768 + n - 1) == PdeAt(m, dir, 768 + n - 1);
    }
  }

  // ---------------------------------------------------------------- the new directory

  /** The directory at `page`: empty user half, the kernel's entries, and itself. */
  ghost predicate Fresh(m: Memory, m': Memory, dir: nat, page: nat) {
    && OutsideSame(m, m', page)
    && (forall i: nat :: i < 768 ==> PdeAt(m', page, i) == 0)
    && (forall i: nat :: 768 <= i < 1023 ==> PdeAt(m', page, i) == PdeAt(m, dir, i))
    && PdeAt(m', page, 1023) == Entry(page)
  }

  lemma ZeroedPage(m: Memory, m1: Memory, page: nat)
    requires ClearedTo(m, m1, page, 1024) && Aligned(page)
    ensures OutsideSame(m, m1, page) && forall i: nat :: i < 1024 ==> PdeAt(m1, page, i) == 0
  {
    forall i: nat | i < 1024
      ensures PdeAt(m1, page, i) == 0
    {
      assert (page + 4 * i) % 4 == 0;
      assert Word(m1, page + 4 * i) == 0;
    }
  }

  lemma LastEntry(m: Memory, m1: Memory, m2: Memory, dir: nat, page: nat)
    requires OutsideSame(m, m1, page) && (forall i: nat :: i < 1024 ==> PdeAt(m1, page, i) == 0)
    requires CopiedTo(m1, m2, dir, page, 256)
    requires forall i: nat :: i <= 1023 ==> PdeAt(m1, dir, i) == PdeAt(m, dir, i)
    ensures Fresh(m, m2[page + 4 * 1023 := Entry(page)], dir, page)
  {
    hide Entry;
    var m3 := m2[page + 4 * 1023 := Entry(page)];
    forall a: nat | !(page <= a < page + PG_SIZE)
      ensures Word(m3, a) == Word(m, a)
    {
      assert Word(m2, a) == Word(m1, a) == Word(m, a);
    }
    forall i: nat | i < 1023
      ensures PdeAt(m3, page, i) == if i < 768 then 0 else PdeAt(m, dir, i)
    {
      assert PdeAt(m3, page, i) == PdeAt(m2, page, i);
      assert PdeAt(m1, page, i) == 0;
      if i >= 768 { assert PdeAt(m2, page, i) == PdeAt(m1, dir, i) == PdeAt(m, dir, i); }
    }
  }

  lemma FillDirectoryFills(m: Memory, dir: nat, v: nat, page: nat)
    requires Writable(m, dir, v, page)
    ensures var c := FillDirectory(m, dir, v); c.Directory? && c.vaddr == v && Fresh(m, c.mem, dir, page)
  {
    hide Translate, Writable, PageOf, StoreZeros, CopyWords, AddrV2P, OutsideSame, CopiedTo, Fresh, ClearedTo;
    hide Entry, PdeAt;
    WritableParts(m, dir, v, page);
    WritableAvoids(m, dir, v, page);
    StoreZerosClears(m, dir, v, page, 1024);
    var m1 := StoreZeros(m, dir, v, 1024).value;
    ZeroedPage(m, m1, page);
    WritableStays(m, m1, dir, v, page);
    CopyWordsCopies(m1, dir, v, page, 256);
    var m2 := CopyWords(m1, dir, v + 4 * 0x300, 0xffff_f000 + 4 * 0x300, 256).value;
    CopiedOutside(m1, m2, dir, page);
    WritableStays(m1, m2, dir, v, page);
    WritableParts(m2, dir, v, page);
    AddrV2PAgrees(m2, dir, v);
    SamePage(m2, dir, v, 4 * 1023);
    LastEntry(m, m1, m2, dir, page);
  }

  lemma WritableParts(m: Memory, dir: nat, v: nat, page: nat)
    requires Writable(m, dir, v, page)
    ensures SelfMapped(m, dir) && Aligned(v) && Aligned(page) && v < TWO32 && Translate(m, dir, v) == Some(page)
  {
  }

  lemma CopiedOutside(m1: Memory, m2: Memory, dir: nat, page: nat)
    requires CopiedTo(m1, m2, dir, page, 256)
    ensures OutsideSame(m1, m2, page)
  {
  }

  /** No table of the kernel half is the page. */
  ghost predicate NotATable(m: Memory, dir: nat, page: nat) {
    forall i: nat :: 768 <= i < 1023 && Present(PdeAt(m, dir, i)) ==> PageOf(PdeAt(m, dir, i)) != page
  }

  /** The new directory maps itself, the kernel half as the old one does, and nothing below it. */
  lemma NewDirectoryMaps(m: Memory, m': Memory, dir: nat, page: nat, w: nat)
    requires Fresh(m, m', dir, page) && Aligned(page) && Aligned(dir) && w < 0xffc0_0000 && NotATable(m, dir, page)
    ensures SelfMapped(m', page)
    ensures Translate(m', page, w) == if w < 0xc000_0000 then None else Translate(m, dir, w)
  {
    EntryParts(page);
    IndexRange(w);
    var i := PdeIdx(w);
    HalfIndex(w);
    if w >= 0xc000_0000 && Present(PdeAt(m, dir, i)) {
      WalkParts(m, dir, w);
      var b := PteAddress(Pde(m, dir, w), w);
      InPage(page, b);
      assert Word(m', b) == Word(m, b);
    }
    hide PdeIdx, PteIdx, PageOf, Entry;
  }

  lemma HalfIndex(w: nat)
    ensures PdeIdx(w) >= 768 <==> w >= 0xc000_0000
  {
  }

  // ---------------------------------------------------------------- create_page_dir

  lemma TableNot(s: Sys, page: nat, i: nat)
    requires SelfMapped(s.mem, s.dir) && page != s.dir && NoTable(s, page) && i <= 1023
    ensures Present(PdeAt(s.mem, s.dir, i)) ==> PageOf(PdeAt(s.mem, s.dir, i)) != page
  {
    if i < 1023 && Present(PdeAt(s.mem, s.dir, i)) { assert HasTable(s, i) && TableAt(s, i) != page; }
  }

  /** A page of data, at v: a frame of the kernel pool that is neither the directory nor a table. */
  ghost predicate DataPage(s: Sys, v: nat, page: nat) {
    && Core(s) && Managed(s, v) && Translate(s.mem, s.dir, v) == Some(page)
    && NoTable(s, page) && page != s.dir && In(s.kernelPool, page)
  }

  lemma DataPageWritable(s: Sys, v: nat, page: nat)
    requires DataPage(s, v, page)
    ensures Writable(s.mem, s.dir, v, page) && NotATable(s.mem, s.dir, page)
  {
    hide In, PdeIdx, PteAddress, TablesOk, OwnTables;
    ManagedRange(s, v);
    PoolsApart(s, page);
    forall i: nat | i <= 1023 && Present(PdeAt(s.mem, s.dir, i))
      ensures PageOf(PdeAt(s.mem, s.dir, i)) != page
    {
      TableNot(s, page, i);
    }
  }

  /** Writing inside a data page changes no translation of the old directory. */
  lemma OldDirectorySame(s: Sys, m': Memory, v: nat, page: nat, w: nat)
    requires DataPage(s, v, page) && w < TWO32 && OutsideSame(s.mem, m', page)
    ensures Translate(m', s.dir, w) == Translate(s.mem, s.dir, w)
    ensures Present(Pde(s.mem, s.dir, w)) ==> Pte(m', s.dir, w) == Pte(s.mem, s.dir, w)
  {
    hide In, PdeIdx, PteAddress, TablesOk, OwnTables, OutsideSame, PageOf, Aligned;
    PoolsApart(s, page);
    WalkParts(s.mem, s.dir, w);
    TableNot(s, page, PdeIdx(w));
    if Present(Pde(s.mem, s.dir, w)) {
      WalkSame(s.mem, m', s.dir, w, page);
    } else {
      InPage(page, s.dir + 4 * PdeIdx(w));
      OutsideWord(s.mem, m', page, s.dir + 4 * PdeIdx(w));
    }
  }

  lemma OutsideWord(m: Memory, m': Memory, page: nat, a: nat)
    requires OutsideSame(m, m', page) && !(page <= a < page + PG_SIZE)
    ensures Word(m', a) == Word(m, a)
  {
  }

  /** The old directory's entries, and with them its tables, are as before. */
  lemma EntriesSame(s: Sys, v: nat, m': Memory, page: nat)
    requires Writable(s.mem, s.dir, v, page) && OutsideSame(s.mem, m', page)
    ensures var s' := s.(mem := m');
            && (forall i: nat :: i < 1023 ==> (HasTable(s', i) <==> HasTable(s, i)) && TableAt(s', i) == TableAt(s, i))
            && (forall i: nat :: i <= 1023 ==> PdeAt(m', s.dir, i) == PdeAt(s.mem, s.dir, i))
            && SelfMapped(m', s.dir)
  {
    hide PageOf, OutsideSame;
    WritableStays(s.mem, m', s.dir, v, page);
  }

  /** Writing inside a data page keeps the invariant. */
  lemma DataWritten(s: Sys, v: nat, m': Memory, page: nat)
    requires Inv(s) && DataPage(s, v, page) && OutsideSame(s.mem, m', page)
    ensures Inv(s.(mem := m'))
  {
    var s' := s.(mem := m');
    DataPageWritable(s, v, page);
    EntriesSame(s, v, m', page);
    hide Translate, In, Free, Taken, PageOf, PdeAt, OutsideSame, Aligned, SelfMapped, Writable, NotATable;
    hide DataPage, PdeIdx;
    SameLayout(s, s');
    SameHistory(s, s');
    assert Core(s') by {
      hide HasTable, TableAt, HistoryOk, OwnFrames, TablesUsed, Untouched;
    }
    forall w: nat
      ensures MappedPage(s', w) <==> MappedPage(s, w)
      ensures Managed(s, w) ==> Translate(s'.mem, s'.dir, w) == Translate(s.mem, s.dir, w)
    {
      if Managed(s, w) {
        ManagedRange(s, w);
        OldDirectorySame(s, m', v, page, w);
      }
    }
    MappingsSame(s, s');
    forall w: nat | Unclaimed(s', w)
      ensures Translate(s'.mem, s'.dir, w) == None
    {
      FreeMeans(s.kernelVirt, w);
      FreeMeans(s.userVirt, w);
      assert Unclaimed(s, w) && Managed(s, w);
    }
  }

  /** Pages mapped as before, in the tables there were. */
  lemma MappingsSame(s: Sys, s': Sys)
    requires s'.frames == s.frames && OwnFrames(s) && TablesUsed(s)
    requires forall i: nat :: i < 1023 ==> (HasTable(s', i) <==> HasTable(s, i)) && TableAt(s', i) == TableAt(s, i)
    requires forall w: nat :: MappedPage(s', w) <==> MappedPage(s, w)
    requires forall w: nat :: Managed(s, w) ==> Translate(s'.mem, s'.dir, w) == Translate(s.mem, s.dir, w)
    ensures OwnFrames(s') && TablesUsed(s')
  {
    hide Translate, In, HasTable, TableAt, PdeIdx;
    assert forall w: nat :: MappedPage(s, w) ==> Managed(s, w) && OnDataFrame(s, w);
    hide Managed;
    forall f: nat
      ensures NoTable(s, f) ==> NoTable(s', f)
    {
    }
    forall i: nat | 32 <= i < 768 && HasTable(s', i)
      ensures exists w: nat :: Uses(s', i, w)
    {
      var w: nat :| Uses(s, i, w);
      assert Uses(s', i, w);
    }
    hide NoTable;
  }

  // ---------------------------------------------------------------- the process in its new directory

  /** The kernel's among the pages handed out; the others were another process's. */
  function KernelPages(pages: seq<nat>): (r: seq<nat>)
    ensures forall x :: x in r <==> x in pages && x >= K_HEAP_START
  {
    if pages == [] then []
    else (if pages[0] >= K_HEAP_START then [pages[0]] else []) + KernelPages(pages[1..])
  }

  lemma {:induction false} KernelPagesOnce(pages: seq<nat>)
    requires NoDup(pages)
    ensures NoDup(KernelPages(pages))
  {
    if pages != [] {
      NoDupSplit(pages);
      KernelPagesOnce(pages[1..]);
      if pages[0] >= K_HEAP_START {
        NoDupAdd(KernelPages(pages[1..]), pages[0]);
        assert KernelPages(pages) == [pages[0]] + KernelPages(pages[1..]);
      } else {
        assert KernelPages(pages) == KernelPages(pages[1..]);
      }
    }
  }

  /** page_dir_activate for a process that has the directory and a bitmap of its own, all clear. */
  function Enter(s: Sys, page: nat): Sys {
    s.(dir := page, userVirt := AllUserPages(), pages := KernelPages(s.pages))
  }

  /** The new directory against the current one. */
  ghost predicate NewSpace(s: Sys, page: nat) {
    && SelfMapped(s.mem, page) && In(s.kernelPool, page) && page in s.frames && NoTable(s, page)
    && (forall i: nat :: i < 1023 ==> PdeAt(s.mem, page, i) == if i < 768 then 0 else PdeAt(s.mem, s.dir, i))
    && (forall w: nat :: w < 0xffc0_0000
          ==> Translate(s.mem, page, w) == if w < 0xc000_0000 then None else Translate(s.mem, s.dir, w))
  }

  lemma EnterTables(s: Sys, page: nat)
    requires Core(s) && HistoryOk(s) && NewSpace(s, page)
    ensures var p := Enter(s, page);
            && Core(p) && forall i: nat :: i < 1023 && HasTable(p, i) ==> 768 <= i && HasTable(s, i) && TableAt(p, i) == TableAt(s, i)
  {
    hide Translate, PageOf, KernelPages, In, Free, Taken, Aligned;
    var p := Enter(s, page);
    forall i: nat | i < 1023
      ensures HasTable(p, i) <==> 768 <= i && HasTable(s, i)
      ensures HasTable(p, i) ==> TableAt(p, i) == TableAt(s, i)
    {
    }
    hide HasTable, TableAt, PdeAt;
    assert FrameTaken(s, page);
    FreeMeans(s.kernelPool, page);
    FreeMeans(s.userPool, page);
    PoolsApart(s, page);
    EnterLayout(s, page);
  }

  lemma EnterLayout(s: Sys, page: nat)
    requires Layout(s) && Aligned(page) && 0 < page < TWO32
    ensures Layout(Enter(s, page))
  {
    assert |AllUserPages().bits| * PG_SIZE <= 0xc000_0000 - USER_VADDR_START;
  }

  lemma EnterHistory(s: Sys, page: nat)
    requires Layout(s) && HistoryOk(s)
    ensures HistoryOk(Enter(s, page))
  {
    hide Taken, Free, In;
    var p := Enter(s, page);
    KernelPagesOnce(s.pages);
    forall v | v in p.pages
      ensures PageTaken(p, v)
    {
      assert PageTaken(s, v);
      FreeMeans(s.userVirt, v);
      InRange(s.userVirt, v);
    }
  }

  /** The process's pages are free and not mapped; the kernel's are as they were. */
  lemma EnterPages(s: Sys, page: nat, w: nat)
    requires Layout(s) && NewSpace(s, page)
    ensures var p := Enter(s, page);
            && (In(p.userVirt, w) ==> Translate(p.mem, p.dir, w) == None)
            && (In(s.kernelVirt, w) ==> Managed(s, w) && Translate(p.mem, p.dir, w) == Translate(s.mem, s.dir, w))
            && (Free(s.kernelVirt, w) ==> In(s.kernelVirt, w)) && (Free(p.userVirt, w) ==> In(p.userVirt, w))
  {
    hide Translate, KernelPages;
    var p := Enter(s, page);
    if In(p.userVirt, w) {
      EnterLayout(s, page);
      InRange(p.userVirt, w);
    }
    InRange(s.kernelVirt, w);
    FreeMeans(s.kernelVirt, w);
    FreeMeans(p.userVirt, w);
  }

  /** The process starts in a state that every run of malloc_page is covered from. */
  lemma EnterInv(s: Sys, page: nat)
    requires Inv(s) && NewSpace(s, page)
    ensures Inv(Enter(s, page))
  {
    var p := Enter(s, page);
    EnterTables(s, page);
    EnterHistory(s, page);
    hide Translate, In, Free, Taken, KernelPages, PageOf, PdeAt, SelfMapped, Core, HistoryOk, HasTable, TableAt;
    hide PdeIdx, Enter;
    EnterFields(s, page);
    forall w: nat
      ensures MappedPage(p, w) ==> MappedPage(s, w) && Translate(p.mem, p.dir, w) == Translate(s.mem, s.dir, w)
      ensures Unclaimed(p, w) ==> Translate(p.mem, p.dir, w) == None
    {
      EnterMapped(s, page, w);
    }
    forall w: nat | MappedPage(p, w)
      ensures OnDataFrame(p, w)
    {
      assert OnDataFrame(s, w);
    }
    hide NewSpace;
  }

  lemma EnterFields(s: Sys, page: nat)
    ensures var p := Enter(s, page); p.mem == s.mem && p.dir == page && p.frames == s.frames && p.kernelVirt == s.kernelVirt
  {
  }

  lemma EnterMapped(s: Sys, page: nat, w: nat)
    requires Inv(s) && NewSpace(s, page)
    ensures var p := Enter(s, page);
            && (MappedPage(p, w) ==> MappedPage(s, w) && Translate(p.mem, p.dir, w) == Translate(s.mem, s.dir, w))
            && (Unclaimed(p, w) ==> Translate(p.mem, p.dir, w) == None)
  {
    EnterPages(s, page, w);
    hide Translate, In, Free, KernelPages, NewSpace, OwnFrames, TablesUsed, Core, HistoryOk;
    if Free(s.kernelVirt, w) { assert Unclaimed(s, w); }
  }

  // ---------------------------------------------------------------- the theorem

  /**
    create_page_dir succeeds exactly when there is a kernel page and a frame for it, and never faults. Then the frame
    is a new one and holds a directory that maps itself, nothing below 0xc0000000, and the kernel half as the current
    directory does; no translation of the current directory is touched, and both the current process and the new one,
    with all its pages free, are in the invariant of all runs.
  */
  lemma CreatePageDirOk(s: Sys, w: nat)
    requires Inv(s) && w < 0xffc0_0000
    ensures var (s', c) := CreatePageDir(s);
            && Inv(s') && Grows(s, s')
            && c != Trapped && (c.Directory? <==> Chosen(s, Kernel, 1) != None && FreeCount(s.kernelPool) >= 1)
            && (c.Directory? ==>
                  var page := Translate(s'.mem, s'.dir, c.vaddr);
                  && page != None && page.value !in s.frames && page.value in s'.frames
                  && PdeAt(s'.mem, page.value, 1023) % 4096 == 7 && PdeAt(s'.mem, page.value, 1023) / 4096 * 4096 == page.value
                  && (forall i: nat :: i < 1023 ==>
                        PdeAt(s'.mem, page.value, i) == if i < 768 then 0 else PdeAt(s'.mem, s'.dir, i))
                  && Translate(s'.mem, page.value, w)
                     == (if w < 0xc000_0000 then None else Translate(s'.mem, s'.dir, w))
                  && Inv(Enter(s', page.value)) && forall i: nat :: i < 768 ==> !HasTable(Enter(s', page.value), i))
  {
    hide Translate, Inv, In, SelfMapped, FillDirectory, MallocPage, Backed, NoTable, FreeCount, Slack, Enter;
    hide NewSpace, TranslationsKept, HasTable, Fresh, DataPage;
    MallocOk(s, Kernel, 1);
    if MallocPage(s, Kernel, 1).1.Address? {
      var s1, v, page := Creation(s);
      var s' := CreatePageDir(s).0;
      Filled(s, s1, v, page, s'.mem);
      DataWritten(s1, v, s'.mem, page);
      EnterInv(s', page);
      EnterEmpty(s', page);
      NewSpaceAt(s', page, w);
      DataParts(s1, v, page);
      SelfEntry(s1, page, s'.mem);
    }
  }

  /** The new page, before and after it is filled. */
  lemma Creation(s: Sys) returns (s1: Sys, v: nat, page: nat)
    requires Inv(s) && MallocPage(s, Kernel, 1).1.Address?
    ensures MallocPage(s, Kernel, 1) == (s1, Address(v)) && Inv(s1)
    ensures DataPage(s1, v, page) && page in s1.frames && page !in s.frames && Translate(s1.mem, s1.dir, v) == Some(page)
    ensures var (s', c) := CreatePageDir(s);
            && c.Directory? && c.vaddr == v && s' == s1.(mem := s'.mem) && Fresh(s1.mem, s'.mem, s1.dir, page)
  {
    hide Translate, Inv, In, SelfMapped, FillDirectory, MallocPage, Backed, NoTable, FreeCount, Slack;
    hide TranslationsKept, HasTable, DataPage, Fresh;
    MallocOk(s, Kernel, 1);
    s1 := MallocPage(s, Kernel, 1).0;
    v := MallocPage(s, Kernel, 1).1.addr;
    page := HandedPage(s, s1, v);
    DataPageWritable(s1, v, page);
    FillDirectoryFills(s1.mem, s1.dir, v, page);
  }

  lemma DataParts(s: Sys, v: nat, page: nat)
    requires DataPage(s, v, page)
    ensures Core(s) && In(s.kernelPool, page)
  {
  }

  /** The directory's entry for itself: its own frame, and the three rights and no other bit. */
  lemma SelfEntry(s1: Sys, page: nat, m': Memory)
    requires Core(s1) && In(s1.kernelPool, page) && Fresh(s1.mem, m', s1.dir, page)
    ensures PdeAt(m', page, 1023) % 4096 == 7 && PdeAt(m', page, 1023) / 4096 * 4096 == page
  {
    PagesAligned(s1, page);
  }

  lemma NewSpaceAt(s: Sys, page: nat, w: nat)
    requires NewSpace(s, page) && w < 0xffc0_0000
    ensures SelfMapped(s.mem, page)
    ensures forall i: nat :: i < 1023 ==> PdeAt(s.mem, page, i) == if i < 768 then 0 else PdeAt(s.mem, s.dir, i)
    ensures Translate(s.mem, page, w) == if w < 0xc000_0000 then None else Translate(s.mem, s.dir, w)
  {
    hide Translate, SelfMapped;
  }

  lemma EnterEmpty(s: Sys, page: nat)
    requires NewSpace(s, page)
    ensures forall i: nat :: i < 768 ==> !HasTable(Enter(s, page), i)
  {
    hide Translate, KernelPages;
  }

  /** What create_page_dir takes. */
  lemma CreatePageDirTakes(s: Sys)
    requires Inv(s) && Chosen(s, Kernel, 1) != None && FreeCount(s.kernelPool) >= 1
    ensures var s' := CreatePageDir(s).0;
            && FreeCount(s'.kernelPool) == FreeCount(s.kernelPool) - 1 && s'.userPool == s.userPool
            && s'.kernelVirt == VaddrGet(s, Kernel, 1).0.kernelVirt
  {
    hide Inv, Translate, FillDirectory, MallocPage, VaddrGet, Backed, FreeCount, Slack, TranslationsKept;
    MallocOk(s, Kernel, 1);
  }

  lemma HandedPage(s: Sys, s1: Sys, v: nat) returns (page: nat)
    requires Inv(s) && Inv(s1) && Backed(s, s1, Kernel, v, 1) && s1.pages == s.pages + Run(v, 1)
    ensures DataPage(s1, v, page) && page in s1.frames && page !in s.frames
    ensures Translate(s1.mem, s1.dir, v) == Some(page)
  {
    hide Translate, In, NoTable, Steady, Untouched, Taken;
    BackedFirst(s, s1, v);
    page := Translate(s1.mem, s1.dir, v).value;
    PageManaged(s1, v, |s.pages|);
    CoreHolds(s1);
  }

  lemma BackedFirst(s: Sys, s1: Sys, v: nat)
    requires Backed(s, s1, Kernel, v, 1)
    ensures OnFrame(s, s1, Kernel, v)
  {
    hide OnFrame, Translate;
    assert v + 0 * PG_SIZE == v;
    assert OnFrame(s, s1, Kernel, v + 0 * PG_SIZE);
  }

  lemma CoreHolds(s: Sys)
    requires Inv(s)
    ensures Core(s)
  {
  }

  lemma PageManaged(s: Sys, v: nat, i: nat)
    requires Inv(s) && i < |s.pages| && s.pages[i] == v
    ensures Managed(s, v)
  {
    hide Free, Taken, In, Core, OwnFrames, TablesUsed, Untouched;
    assert v in s.pages && PageTaken(s, v);
    FreeMeans(s.kernelVirt, v);
    FreeMeans(s.userVirt, v);
  }

  /** The new page filled, seen from the current directory. */
  lemma Filled(s: Sys, s1: Sys, v: nat, page: nat, m': Memory)
    requires DataPage(s1, v, page) && page in s1.frames && Fresh(s1.mem, m', s1.dir, page)
    requires TranslationsKept(s, s1) && s1.dir == s.dir
    ensures var s' := s1.(mem := m');
            && NewSpace(s', page) && TranslationsKept(s, s') && OutsideSame(s1.mem, m', page)
            && Translate(m', s1.dir, v) == Translate(s1.mem, s1.dir, v)
  {
    var s' := s1.(mem := m');
    DataPageWritable(s1, v, page);
    EntriesSame(s1, v, m', page);
    PagesAligned(s1, page);
    ManagedRange(s1, v);
    hide Translate, In, PdeIdx, PageOf, SelfMapped, Writable, NotATable, OutsideSame, Entry, TablesOk, OwnTables;
    OldDirectorySame(s1, m', v, page, v);
    assert NoTable(s', page);
    hide NoTable, HasTable, TableAt;
    forall w: nat | w < TWO32
      ensures Translate(m', s1.dir, w) == Translate(s1.mem, s1.dir, w)
    {
      OldDirectorySame(s1, m', v, page, w);
    }
    NewDirectoryMaps(s1.mem, m', s1.dir, page, 0);
    forall w: nat | w < 0xffc0_0000
      ensures Translate(m', page, w) == if w < 0xc000_0000 then None else Translate(m', s1.dir, w)
    {
      NewDirectoryMaps(s1.mem, m', s1.dir, page, w);
    }
    forall i: nat | i < 1023
      ensures PdeAt(m', page, i) == if i < 768 then 0 else PdeAt(m', s1.dir, i)
    {
    }
  }

  lemma PagesAligned(s: Sys, page: nat)
    requires Core(s) && In(s.kernelPool, page)
    ensures Aligned(page) && Aligned(s.dir)
  {
    PoolsApart(s, page);
  }
}
