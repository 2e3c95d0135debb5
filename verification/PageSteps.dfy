/** What malloc_page writes, and what it takes: nothing of any other process's. */
module PageSteps {
  import opened Common
  import opened Paging
  import opened PagingMap
  import opened PageAlloc
  import opened PageSupply
  import opened PageAllocProofs
  import opened PageAllocRuns

  predicate NewFrame(s: Sys, s': Sys, f: nat) {
    f in s'.frames && f !in s.frames
  }

  ghost predicate IsTable(s: Sys, f: nat) {
    exists i: nat :: 32 <= i < 1023 && HasTable(s, i) && TableAt(s, i) == f
  }

  /**
    The words it may change: in a frame handed out since, in page 0 once that is a table, or an absent entry of its
    directory and tables.
  */
  ghost predicate MayWrite(s: Sys, s': Sys, a: nat) {
    || (PageOf(a) == 0 && ZeroTable(s'))
    || NewFrame(s, s', PageOf(a))
    || (!Present(Word(s.mem, a)) && (PageOf(a) == s.dir || IsTable(s, PageOf(a))))
  }

  ghost predicate WritesOwn(s: Sys, s': Sys) {
    forall a: nat :: Word(s'.mem, a) != Word(s.mem, a) ==> MayWrite(s, s', a)
  }

  /** What is free still was free before, and so was every frame handed out since. */
  ghost predicate PoolsGrow(s: Sys, s': Sys) {
    && s'.kernelPool.start == s.kernelPool.start && |s'.kernelPool.bits| == |s.kernelPool.bits|
    && s'.userPool.start == s.userPool.start && |s'.userPool.bits| == |s.userPool.bits|
    && (forall a: nat :: Free(s'.kernelPool, a) ==> Free(s.kernelPool, a))
    && (forall a: nat :: Free(s'.userPool, a) ==> Free(s.userPool, a))
    && (forall f: nat :: NewFrame(s, s', f) ==> Free(s.kernelPool, f) || Free(s.userPool, f))
  }

  /** A page that has become mapped is on a frame handed out since; a page of the process, on one of the user pool. */
  ghost predicate NewMapsFresh(s: Sys, s': Sys) {
    forall w: nat :: Managed(s, w) && Translate(s.mem, s.dir, w) == None && Translate(s'.mem, s'.dir, w) != None
      ==> NewlyOn(s, w, Translate(s'.mem, s'.dir, w).value)
  }

  predicate NewlyOn(s: Sys, w: nat, f: nat) {
    f !in s.frames && (In(s.userVirt, w) ==> In(s.userPool, f))
  }

  ghost predicate Steps(s: Sys, s': Sys) {
    && s'.dir == s.dir && s.frames <= s'.frames && TablesKept(s, s') && TranslationsKept(s, s')
    && WritesOwn(s, s') && PoolsGrow(s, s') && NewMapsFresh(s, s')
  }

  // ---------------------------------------------------------------- one after another

  lemma WritesMore(s: Sys, s1: Sys, s2: Sys)
    requires WritesOwn(s, s1) && WritesOwn(s1, s2) && TablesKept(s, s1) && TablesKept(s1, s2) && s1.dir == s.dir
    requires s.frames <= s1.frames <= s2.frames
    ensures WritesOwn(s, s2)
  {
    hide PageOf, Present, ZeroTable, TablesKept;
    ZeroStays(s1, s2);
    forall a: nat | Word(s2.mem, a) != Word(s.mem, a)
      ensures MayWrite(s, s2, a)
    {
      if Word(s1.mem, a) != Word(s.mem, a) {
        assert MayWrite(s, s1, a);
      } else {
        assert MayWrite(s1, s2, a);
        if IsTable(s1, PageOf(a)) { TableBefore(s, s1, PageOf(a)); }
      }
    }
    hide IsTable, Word;
  }

  lemma TableBefore(s: Sys, s1: Sys, f: nat)
    requires TablesKept(s, s1) && IsTable(s1, f)
    ensures (f == 0 && ZeroTable(s1)) || IsTable(s, f) || NewFrame(s, s1, f)
  {
    hide HasTable, TableAt;
  }

  lemma ZeroStays(s: Sys, s1: Sys)
    requires TablesKept(s, s1)
    ensures ZeroTable(s) ==> ZeroTable(s1)
  {
    hide HasTable, TableAt;
  }

  lemma PoolsGrowMore(s: Sys, s1: Sys, s2: Sys)
    requires PoolsGrow(s, s1) && PoolsGrow(s1, s2) && s.frames <= s1.frames <= s2.frames
    ensures PoolsGrow(s, s2)
  {
    hide Free;
    forall f: nat | NewFrame(s, s2, f)
      ensures Free(s.kernelPool, f) || Free(s.userPool, f)
    {
      assert NewFrame(s, s1, f) || NewFrame(s1, s2, f);
    }
  }

  lemma NewMapsMore(s: Sys, s1: Sys, s2: Sys)
    requires NewMapsFresh(s, s1) && NewMapsFresh(s1, s2) && TranslationsKept(s1, s2) && s.frames <= s1.frames
    requires (forall w: nat :: Managed(s, w) ==> Managed(s1, w) && w < TWO32)
    requires forall w: nat, f: nat :: NewlyOn(s1, w, f) ==> NewlyOn(s, w, f)
    ensures NewMapsFresh(s, s2)
  {
    hide Translate, Managed, NewlyOn;
  }

  lemma NewlySince(s: Sys, s1: Sys)
    requires s.frames <= s1.frames && PoolsGrow(s, s1) && SameVirtShape(s, s1)
    ensures forall w: nat, f: nat :: NewlyOn(s1, w, f) ==> NewlyOn(s, w, f)
  {
    hide In, Free;
    forall w: nat, f: nat
      ensures NewlyOn(s1, w, f) ==> NewlyOn(s, w, f)
    {
      SameIn(s.userVirt, s1.userVirt, w);
      SameIn(s.userPool, s1.userPool, f);
    }
  }

  ghost predicate SameVirtShape(s: Sys, s1: Sys) {
    && s1.kernelVirt.start == s.kernelVirt.start && |s1.kernelVirt.bits| == |s.kernelVirt.bits|
    && s1.userVirt.start == s.userVirt.start && |s1.userVirt.bits| == |s.userVirt.bits|
  }

  lemma StepsMore(s: Sys, s1: Sys, s2: Sys)
    requires Steps(s, s1) && Steps(s1, s2)
    requires SameVirtShape(s, s1) && forall w: nat :: Managed(s, w) ==> Managed(s1, w) && w < TWO32
    ensures Steps(s, s2)
  {
    hide Translate, Managed, WritesOwn, PoolsGrow, NewMapsFresh, TablesKept, NewlyOn, SameVirtShape;
    NewlySince(s, s1);
    TablesKeptMore(s, s1, s2);
    WritesMore(s, s1, s2);
    PoolsGrowMore(s, s1, s2);
    NewMapsMore(s, s1, s2);
  }

  /** No memory written, nothing taken. */
  lemma StepsNone(s: Sys, s': Sys)
    requires s'.mem == s.mem && s'.dir == s.dir && s'.frames == s.frames
    requires s'.kernelPool == s.kernelPool && s'.userPool == s.userPool
    ensures Steps(s, s')
  {
    SameTablesKept(s, s');
    hide Translate, TablesKept, Free, In;
  }

  // ---------------------------------------------------------------- one page

  lemma PallocGrows(s: Sys, pf: Flags, s0: Sys, got: Option<nat>)
    requires PallocResult(s, pf, s0, got)
    ensures PoolsGrow(s, s0) && s.frames <= s0.frames && s0.mem == s.mem && s0.dir == s.dir
  {
    hide FreeCount, Free, Taken;
  }

  /** page_table_add writes v's entry, and if the table is new its directory entry and the table. */
  lemma AddWrites(s: Sys, s1: Sys, s2: Sys, v: nat, page: nat, table: nat)
    requires CanAdd(s1.mem, s1.dir, v, page, table) && Updated(s1.mem, s2.mem, s1.dir, v, page, table)
    requires s1.mem == s.mem && s1.dir == s.dir && 32 <= PdeIdx(v) < 1023 && s2.frames == s1.frames
    requires !HasTable(s, PdeIdx(v)) ==> table == 0 || NewFrame(s, s1, table)
    requires s2.dir == s.dir
    ensures WritesOwn(s, s2)
  {
    hide Entry, PteIdx, PdeIdx, PageOf, Aligned, Updated;
    UpdatedHere(s.mem, s2.mem, s.dir, v, page, table);
    assert !HasTable(s, PdeIdx(v)) && table == 0 ==> HasTable(s2, PdeIdx(v)) && TableAt(s2, PdeIdx(v)) == 0;
    forall a: nat | Word(s2.mem, a) != Word(s.mem, a)
      ensures MayWrite(s, s2, a)
    {
      ChangedWord(s.mem, s2.mem, s.dir, v, page, table, a);
      assert HasTable(s, PdeIdx(v)) ==> IsTable(s, TableAt(s, PdeIdx(v)));
    }
  }

  lemma ChangedWord(m: Memory, m': Memory, dir: nat, v: nat, page: nat, table: nat, a: nat)
    requires CanAdd(m, dir, v, page, table) && Updated(m, m', dir, v, page, table) && Word(m', a) != Word(m, a)
    ensures if Present(Pde(m, dir, v)) then PageOf(a) == PageOf(Pde(m, dir, v)) && !Present(Word(m, a))
            else PageOf(a) == table || (PageOf(a) == dir && !Present(Word(m, a)))
  {
    IndexRange(v);
    TableParts(m, dir, v, page, table);
    EntryInPage(dir, PdeIdx(v));
    assert Word(m', a) == WordAfter(m, dir, v, page, table, a);
    if !Present(Pde(m, dir, v)) { InPage(table, a); }
    hide Entry, PteIdx, PdeIdx, PageOf, Aligned, Updated;
  }

  lemma OnePageSteps(s: Sys, pf: Flags, v: nat)
    requires Steady(s) && In(VirtPool(s, pf), v) && Translate(s.mem, s.dir, v) == None
    requires FreeCount(FramePool(s, pf)) > 0 && (pf == User ==> !Starved(s, v))
    ensures var (s0, got) := Palloc(s, pf);
            && got != None && Steps(s, AddPage(s0, v, got.value).0)
  {
    hide Translate, Aligned, In, Free, Taken, Palloc, AddPage, Core, HistoryOk, PdeIdx, FreeCount, HasTable;
    hide ZeroTable, CanAdd, CanEdit, Unused;
    hide OneTaken, TablesUsed, OwnFrames, Starved, AddCost, NoTable, PageCost, TablesKept, TranslationsKept;
    hide WritesOwn, PoolsGrow, PageTableAdd, Updated, Prepared;
    PallocTakes(s, pf);
    PallocFresh(s, pf);
    OnePageOk(s, pf, v);
    var (s0, got) := Palloc(s, pf);
    VirtManaged(s, pf, v);
    SameManaged(s, s0, v);
    NotStarved(s, pf, v, s0, got);
    PallocGrows(s, pf, s0, got);
    PallocKept(s, pf, s0, got);
    CoreParts(s0);
    CoreRange(s, v);
    var s1, table := AddPageParts(s0, v, got.value);
    TableUnused(s0, v, s1, table);
    PreparedGrows(s0, v, s1, table);
    SameEntries(s0, s1);
    Edits(s1, v, got.value, table);
    CanAddNow(s1, v, got.value, table);
    var s2 := s1.(mem := PageTableAdd(s0.mem, s0.dir, v, got.value, table).mem);
    AddWrites(s0, s1, s2, v, got.value, table);
    assert AddPage(s0, v, got.value).0 == s2;
    PoolsGrowMore(s, s0, s1);
    SamePoolsGrow(s, s1, s2);
    WritesFrom(s, s0, s2);
    KeepsTables(s, s2);
    OneNewMap(s, s2, pf, v);
  }

  lemma CoreParts(s: Sys)
    requires Core(s)
    ensures Layout(s) && DirectoryOk(s)
  {
  }

  lemma PreparedGrows(s: Sys, v: nat, s1: Sys, table: nat)
    requires Prepared(s, v, s1, table)
    ensures PoolsGrow(s, s1) && s.frames <= s1.frames
  {
    hide FreeCount, Free, Taken, Palloc, OneTaken;
    PallocTakes(s, Kernel);
    if !HasTable(s, PdeIdx(v)) { PallocGrows(s, Kernel, s1, Palloc(s, Kernel).1); }
  }

  lemma SamePoolsGrow(s: Sys, s1: Sys, s2: Sys)
    requires PoolsGrow(s, s1) && s2 == s1.(mem := s2.mem)
    ensures PoolsGrow(s, s2)
  {
    hide Free;
    assert forall f: nat :: NewFrame(s, s2, f) <==> NewFrame(s, s1, f);
  }

  lemma WritesFrom(s: Sys, s0: Sys, s2: Sys)
    requires WritesOwn(s0, s2) && s0.mem == s.mem && s0.dir == s.dir && s.frames <= s0.frames
    ensures WritesOwn(s, s2)
  {
    hide PageOf, Present, ZeroTable;
    SameEntries(s, s0);
    forall a: nat | Word(s2.mem, a) != Word(s.mem, a)
      ensures MayWrite(s, s2, a)
    {
      assert MayWrite(s0, s2, a);
      SameIsTable(s, s0, PageOf(a));
    }
  }

  lemma SameIsTable(s: Sys, s0: Sys, f: nat)
    requires s0.mem == s.mem && s0.dir == s.dir
    ensures IsTable(s0, f) <==> IsTable(s, f)
  {
    SameEntries(s, s0);
    assert forall i: nat :: TableAt(s0, i) == TableAt(s, i);
    hide HasTable, TableAt;
  }

  lemma OneNewMap(s: Sys, s2: Sys, pf: Flags, v: nat)
    requires Core(s) && In(VirtPool(s, pf), v) && OnlyMaps(s, s2, v, 1) && OnFrame(s, s2, pf, v) && PoolsGrow(s, s2)
    ensures NewMapsFresh(s, s2)
  {
    hide Translate, In, NoTable, Core, Free;
    VirtManaged(s, pf, v);
    forall w: nat | Managed(s, w) && Translate(s.mem, s.dir, w) == None && Translate(s2.mem, s2.dir, w) != None
      ensures NewlyOn(s, w, Translate(s2.mem, s2.dir, w).value)
    {
      CoreRange(s, v);
      CoreRange(s, w);
      if w != v { SeparatePages(v, w); }
      SameIn(s.userPool, s2.userPool, Translate(s2.mem, s2.dir, w).value);
      if pf == Kernel { NotBothHalves(s, v); }
    }
  }

  lemma NotBothHalves(s: Sys, v: nat)
    requires Core(s) && In(s.kernelVirt, v)
    ensures !In(s.userVirt, v)
  {
    VirtsApart(s, v);
    InRange(s.kernelVirt, v);
    InRange(s.userVirt, v);
    hide In;
  }

  // ---------------------------------------------------------------- the loop and the call

  lemma {:induction false} MapPagesSteps(s: Sys, pf: Flags, v: nat, n: nat)
    requires Steady(s) && Ready(s, pf, v, n) && !Short(s, pf, v, n)
    ensures Steps(s, MapPages(s, pf, v, n).0)
    decreases n
  {
    hide Translate, In, Palloc, AddPage, Steady, FreeCount, Short, Starved, UserCost, OnlyMaps, Kept, OnFrame;
    hide OneTaken, Slack;
    hide PageCost, HasTable, Steps, Managed;
    if n == 0 {
      StepsNone(s, s);
    } else {
      PallocTakes(s, pf);
      var (s0, got) := Palloc(s, pf);
      if got == None {
        StepsNone(s, s);
      } else {
        FirstReady(s, pf, v, n);
        OnePageNotStarved(s, pf, v, n);
        OnePageOk(s, pf, v);
        OnePageSteps(s, pf, v);
        var s1 := AddPage(s0, v, got.value).0;
        KeptVirt(s, s1);
        ReadyNext(s, s1, pf, v, n);
        CostStep(s, s1, pf, v, n);
        MapPagesSteps(s1, pf, v + PG_SIZE, n - 1);
        AllManaged(s, s1);
        StepsMore(s, s1, MapPages(s1, pf, v + PG_SIZE, n - 1).0);
      }
    }
  }

  lemma AllManaged(s: Sys, s1: Sys)
    requires Steady(s) && SameVirtShape(s, s1)
    ensures forall w: nat :: Managed(s, w) ==> Managed(s1, w) && w < TWO32
  {
    hide In, Core;
    forall w: nat | Managed(s, w)
      ensures Managed(s1, w) && w < TWO32
    {
      SameIn(s.kernelVirt, s1.kernelVirt, w);
      SameIn(s.userVirt, s1.userVirt, w);
      CoreRange(s, w);
    }
  }

  /** A call that does not find the tables running out writes only what is its own, and takes only what is free. */
  lemma MallocSteps(s: Sys, pf: Flags, n: nat)
    requires Inv(s) && !TablesRunOut(s, pf, n)
    ensures Steps(s, MallocPage(s, pf, n).0)
  {
    hide Steady, Untouched, VaddrGet, MapPages, Run, Translate, FreeCount, Short, Slack, Ready, Steps, HandsOut;
    hide Managed;
    StepsNone(s, s);
    if 0 < n < 3840 {
      var (s1, got) := VaddrGet(s, pf, n);
      VaddrChosen(s, pf, n);
      if got != Nothing {
        var a := Chosen(s, pf, n).value;
        VaddrFresh(s, pf, n, s1, a);
        VirtTaken(s, pf, n, s1, a);
        StepsNone(s, s1);
        if got.Got? {
          SameSupply(s, s1, pf, a, n);
          MapPagesSteps(s1, pf, a, n);
          AllManaged(s, s1);
          StepsMore(s, s1, MapPages(s1, pf, a, n).0);
        }
      }
    }
  }

  lemma VirtTaken(s: Sys, pf: Flags, n: nat, s1: Sys, a: nat)
    requires HandsOut(s, pf, n, s1, a)
    ensures s1.mem == s.mem && s1.dir == s.dir && s1.frames == s.frames
    ensures s1.kernelPool == s.kernelPool && s1.userPool == s.userPool
    ensures SameVirtShape(s, s1)
  {
    hide Run, Free, Taken;
  }

  // ---------------------------------------------------------------- a frame for every table

  /** There is a frame for every table that the pages the loop gets to lack; page 0 is not wanted. */
  ghost predicate Fits(s: Sys, pf: Flags, v: nat, n: nat) {
    pf == Kernel || MissingFor(s, v, Least(n, FreeCount(s.userPool))) <= FreeCount(s.kernelPool)
  }

  lemma FitsNotShort(s: Sys, pf: Flags, v: nat, n: nat)
    requires Fits(s, pf, v, n)
    ensures !Short(s, pf, v, n)
  {
    hide MissingFor, FreeCount, ZeroTable;
  }

  lemma FitsNext(s: Sys, s1: Sys, pf: Flags, v: nat, n: nat)
    requires Steady(s) && Ready(s, pf, v, n) && n > 0 && PageCost(s, s1, pf, v)
    requires FreeCount(FramePool(s, pf)) > 0
    ensures ZeroTable(s1) || !Fits(s1, pf, v + PG_SIZE, n - 1) <==> ZeroTable(s) || !Fits(s, pf, v, n)
  {
    hide Translate, In, FreeCount, MissingFor, ZeroTable, PdeIdx, Core, HistoryOk, OwnFrames, TablesUsed;
    hide HasTable, Ready;
    if pf == User {
      var m := Least(n, FreeCount(s.userPool));
      LastRange(s, v, n, m);
      MissingNext(s, s1, v, m);
      if !HasTable(s, PdeIdx(v)) { MissingFirst(s, v, m); }
      assert m - 1 == Least(n - 1, FreeCount(s1.userPool));
    }
  }

  lemma LastRange(s: Sys, v: nat, n: nat, m: nat)
    requires Steady(s) && Ready(s, User, v, n) && 0 < m <= n
    ensures PdeIdx(v + (m - 1) * PG_SIZE) < 1023
  {
    hide Translate, In, Core;
    VirtManaged(s, User, v + (m - 1) * PG_SIZE);
    CoreRange(s, v + (m - 1) * PG_SIZE);
  }

  /** Exactly then no table goes to page 0. */
  lemma {:induction false} MapPagesFits(s: Sys, pf: Flags, v: nat, n: nat)
    requires Steady(s) && Ready(s, pf, v, n) && !Short(s, pf, v, n)
    ensures ZeroTable(MapPages(s, pf, v, n).0) <==> ZeroTable(s) || !Fits(s, pf, v, n)
    decreases n
  {
    hide Translate, In, Palloc, AddPage, Steady, FreeCount, Short, Starved, UserCost, OnlyMaps, Kept, OnFrame;
    hide OneTaken;
    hide PageCost, HasTable, Fits, ZeroTable;
    if n == 0 {
      NothingFits(s, pf, v, n);
    } else {
      PallocTakes(s, pf);
      var (s0, got) := Palloc(s, pf);
      if got == None {
        NothingFits(s, pf, v, n);
      } else {
        FirstReady(s, pf, v, n);
        OnePageNotStarved(s, pf, v, n);
        OnePageOk(s, pf, v);
        var s1 := AddPage(s0, v, got.value).0;
        KeptVirt(s, s1);
        ReadyNext(s, s1, pf, v, n);
        CostStep(s, s1, pf, v, n);
        FitsNext(s, s1, pf, v, n);
        MapPagesFits(s1, pf, v + PG_SIZE, n - 1);
      }
    }
  }

  lemma NothingFits(s: Sys, pf: Flags, v: nat, n: nat)
    requires n == 0 || FreeCount(FramePool(s, pf)) == 0
    ensures Fits(s, pf, v, n)
  {
    NothingMissing(s, v);
    hide MissingFor, FreeCount;
  }

  /** The same of a whole call. */
  ghost predicate TablesFit(s: Sys, pf: Flags, n: nat) {
    Refused(s, pf, n) || Chosen(s, pf, n) == None || Fits(s, pf, Chosen(s, pf, n).value, n)
  }

  lemma FitsNotOut(s: Sys, pf: Flags, n: nat)
    requires TablesFit(s, pf, n)
    ensures !TablesRunOut(s, pf, n)
  {
    hide Fits, Short, Refused, Chosen;
    if !Refused(s, pf, n) && Chosen(s, pf, n) != None { FitsNotShort(s, pf, Chosen(s, pf, n).value, n); }
  }

  lemma MallocFits(s: Sys, pf: Flags, n: nat)
    requires Inv(s) && !TablesRunOut(s, pf, n)
    ensures ZeroTable(MallocPage(s, pf, n).0) <==> ZeroTable(s) || !TablesFit(s, pf, n)
  {
    hide Steady, Untouched, VaddrGet, MapPages, Run, Translate, FreeCount, Short, Ready, HandsOut, ZeroTable, Fits;
    if 0 < n < 3840 {
      var (s1, got) := VaddrGet(s, pf, n);
      VaddrChosen(s, pf, n);
      if got != Nothing {
        var a := Chosen(s, pf, n).value;
        VaddrFresh(s, pf, n, s1, a);
        VirtTaken(s, pf, n, s1, a);
        CoreSame(s, s1);
        if got.Got? {
          SameFits(s, s1, pf, a, n);
          SameSupply(s, s1, pf, a, n);
          MapPagesFits(s1, pf, a, n);
        }
      }
    }
  }

  lemma SameFits(s: Sys, s1: Sys, pf: Flags, a: nat, n: nat)
    requires s1.mem == s.mem && s1.dir == s.dir && s1.kernelPool == s.kernelPool && s1.userPool == s.userPool
    ensures Fits(s1, pf, a, n) <==> Fits(s, pf, a, n)
  {
    SameEntries(s, s1);
    SameMissing(s, s1, a, Least(n, FreeCount(s.userPool)));
    hide MissingFor, FreeCount;
  }
}
