/** What a process may do with the pages it is given: read and write them, at its own privilege level. */
module PageRights {
  import opened Common
  import opened Paging
  import opened PagingMap
  import opened PageAlloc
  import opened PageSupply
  import opened PageAllocProofs
  import opened PageAllocRuns

  /** P (bit 0), R/W (bit 1) and U/S (bit 2) of an entry are set. */
  predicate Open(entry: nat) {
    entry % 2 == 1 && entry / 2 % 2 == 1 && entry / 4 % 2 == 1
  }

  /** A level-3 write to v is allowed at both levels of the walk. */
  predicate UserWrites(m: Memory, dir: nat, v: nat) {
    Open(Pde(m, dir, v)) && Open(Pte(m, dir, v))
  }

  lemma EntryOpen(page: nat)
    requires Aligned(page)
    ensures Open(Entry(page)) && Entry(page) % 4096 == 7 && Entry(page) / 4096 * 4096 == page
  {
  }

  lemma SamePageSameEntries(m: Memory, dir: nat, v: nat, k: nat)
    requires Aligned(v) && k < PG_SIZE
    ensures Pde(m, dir, v + k) == Pde(m, dir, v) && Pte(m, dir, v + k) == Pte(m, dir, v)
  {
    SamePage(m, dir, v, k);
  }

  /**
    page_table_add(v, page): a process may write to every address of v's page, if it may go through the directory entry
    that was there; a new one it may. The entries written are the frame, the three bits, and nothing else; the entries
    of every other mapped page are as they were, rights included.
  */
  lemma PageTableAddOpens(m: Memory, dir: nat, v: nat, page: nat, table: nat, k: nat, w: nat)
    requires CanAdd(m, dir, v, page, table) && k < 4096 && w < 0x1_0000_0000
    requires Present(Pde(m, dir, v)) ==> Open(Pde(m, dir, v))
    ensures var r := PageTableAdd(m, dir, v, page, table);
            && r.Done? && UserWrites(r.mem, dir, v + k)
            && Pte(r.mem, dir, v) % 4096 == 7 && Pte(r.mem, dir, v) / 4096 * 4096 == page
            && (Present(Pde(m, dir, v)) ==> Pde(r.mem, dir, v) == Pde(m, dir, v))
            && (!Present(Pde(m, dir, v)) ==> Pde(r.mem, dir, v) % 4096 == 7 && Pde(r.mem, dir, v) / 4096 * 4096 == table)
            && (Translate(m, dir, w) == None || (Pde(r.mem, dir, w) == Pde(m, dir, w) && Pte(r.mem, dir, w) == Pte(m, dir, w)))
  {
    hide PageTableAdd, Translate, TablesApart, Unused, Updated, Entry, Open, PdeIdx, PteIdx, PageOf, Aligned;
    if Present(Pde(m, dir, v)) {
      AddToTable(m, dir, v, page, table);
    } else {
      AddWithTable(m, dir, v, page, table);
    }
    var m' := PageTableAdd(m, dir, v, page, table).mem;
    WrittenEntries(m, m', dir, v, page, table);
    EntryOpen(page);
    if !Present(Pde(m, dir, v)) { EntryOpen(table); }
    SamePageSameEntries(m', dir, v, k);
    if Translate(m, dir, w) != None { UpdatedKeeps(m, m', dir, v, page, table, w); }
  }

  lemma WrittenEntries(m: Memory, m': Memory, dir: nat, v: nat, page: nat, table: nat)
    requires CanAdd(m, dir, v, page, table) && Updated(m, m', dir, v, page, table)
    ensures Pte(m', dir, v) == Entry(page)
    ensures Pde(m', dir, v) == if Present(Pde(m, dir, v)) then Pde(m, dir, v) else Entry(table)
  {
    IndexRange(v);
    UpdatedDirectory(m, m', dir, v, page, table, PdeIdx(v));
    UpdatedHere(m, m', dir, v, page, table);
    var e := TableFor(m, dir, v, table) + 4 * PteIdx(v);
    assert Word(m', e) == WordAfter(m, dir, v, page, table, e);
    hide Entry, PteIdx, PdeIdx, PageOf, Updated;
  }

  // ---------------------------------------------------------------- a process's own half

  predicate OwnMapped(s: Sys, u: nat) {
    In(s.userVirt, u) && Translate(s.mem, s.dir, u) != None
  }

  /** A process may use all its tables and all its mapped pages. */
  ghost predicate OwnHalfOpen(s: Sys) {
    && (forall i: nat :: 32 <= i < 768 && HasTable(s, i) ==> Open(PdeAt(s.mem, s.dir, i)))
    && (forall u: nat :: OwnMapped(s, u) ==> UserWrites(s.mem, s.dir, u))
  }

  lemma OwnRange(s: Sys, v: nat)
    requires Layout(s) && In(s.userVirt, v)
    ensures 32 <= PdeIdx(v) < 768 && v < TWO32 && Managed(s, v) && Aligned(v)
  {
    assert USER_VADDR_START <= v < 0xc000_0000;
  }

  /** The same entries in the same places. */
  lemma OpenSame(s: Sys, s': Sys)
    requires s'.mem == s.mem && s'.dir == s.dir && OwnHalfOpen(s)
    requires s'.userVirt.start == s.userVirt.start && |s'.userVirt.bits| == |s.userVirt.bits|
    ensures OwnHalfOpen(s')
  {
    hide In, Translate, Open, PdeIdx;
    SameEntries(s, s');
    forall u: nat | OwnMapped(s', u)
      ensures OwnMapped(s, u)
    {
      SameIn(s.userVirt, s'.userVirt, u);
    }
  }

  lemma AddOpens(s: Sys, s': Sys, v: nat, page: nat, table: nat)
    requires Core(s) && OwnHalfOpen(s) && Managed(s, v) && CanAdd(s.mem, s.dir, v, page, table)
    requires Updated(s.mem, s'.mem, s.dir, v, page, table) && s' == s.(mem := s'.mem) && OnlyMaps(s, s', v, 1)
    ensures OwnHalfOpen(s')
  {
    hide In, Translate, Open, PdeIdx, Updated, Entry, Aligned, CanEdit, OwnTables, TablesOk, DirectoryOk, KernelTables, Unused;
    CoreRange(s, v);
    AddMeans(s, v, page, table);
    EntryOpens(s, v, page, table);
    WrittenEntries(s.mem, s'.mem, s.dir, v, page, table);
    forall i: nat | 32 <= i < 768 && HasTable(s', i)
      ensures Open(PdeAt(s'.mem, s'.dir, i))
    {
      UpdatedDirectory(s.mem, s'.mem, s.dir, v, page, table, i);
      assert i != PdeIdx(v) || HasTable(s, PdeIdx(v)) ==> HasTable(s, i);
    }
    forall u: nat | OwnMapped(s', u)
      ensures UserWrites(s'.mem, s'.dir, u)
    {
      OwnRange(s, u);
      if Translate(s.mem, s.dir, u) != None {
        assert OwnMapped(s, u);
        UpdatedKeeps(s.mem, s'.mem, s.dir, v, page, table, u);
      } else {
        if u != v { SeparatePages(v, u); }
        assert HasTable(s, PdeIdx(v)) ==> Open(PdeAt(s.mem, s.dir, PdeIdx(v)));
      }
    }
  }

  lemma EntryOpens(s: Sys, v: nat, page: nat, table: nat)
    requires CanEdit(s.mem, s.dir, v, page, table)
    ensures Open(Entry(page)) && (!HasTable(s, PdeIdx(v)) ==> Open(Entry(table)))
  {
    EntryOpen(page);
    if !HasTable(s, PdeIdx(v)) { EntryOpen(table); }
    hide Open, Entry;
  }

  lemma AddPageOpens(s: Sys, v: nat, page: nat)
    requires Core(s) && HistoryOk(s) && !Starved(s, v) && OwnHalfOpen(s)
    requires Managed(s, v) && Translate(s.mem, s.dir, v) == None && Aligned(page)
    ensures OwnHalfOpen(AddPage(s, v, page).0)
  {
    hide Translate, Aligned, In, Free, PdeIdx, Updated, CanEdit, Unused, PageTableAdd, Palloc, AddPage, OnlyMaps, Kept;
    hide FreeCount, Starved, HistoryOk, TablesOk, OwnTables, KernelTables, Prepared, AddCost, HasTable, OwnHalfOpen;
    AddPageOk(s, v, page);
    var s1, table := AddPageParts(s, v, page);
    PreparedState(s, v, s1, table);
    TableUnused(s, v, s1, table);
    SameEntries(s, s1);
    Edits(s1, v, page, table);
    CanAddNow(s1, v, page, table);
    var s2 := s1.(mem := PageTableAdd(s.mem, s.dir, v, page, table).mem);
    OpenSame(s, s1);
    SameManaged(s, s1, v);
    OnlyMapsFrom(s1, s, s2, v);
    AddOpens(s1, s2, v, page, table);
  }

  lemma OnePageOpens(s: Sys, pf: Flags, v: nat)
    requires Steady(s) && In(VirtPool(s, pf), v) && Translate(s.mem, s.dir, v) == None && OwnHalfOpen(s)
    requires FreeCount(FramePool(s, pf)) > 0 && (pf == User ==> !Starved(s, v))
    ensures var (s0, got) := Palloc(s, pf);
            got != None && OwnHalfOpen(AddPage(s0, v, got.value).0)
  {
    hide Translate, Aligned, In, Free, Taken, Palloc, AddPage, Core, HistoryOk, PdeIdx, FreeCount, HasTable, ZeroTable;
    hide OneTaken, TablesUsed, OwnFrames, Starved, NoTable, TablesKept, TranslationsKept, OwnHalfOpen;
    PallocTakes(s, pf);
    PallocFresh(s, pf);
    var (s0, got) := Palloc(s, pf);
    VirtManaged(s, pf, v);
    PallocKept(s, pf, s0, got);
    SameManaged(s, s0, v);
    NotStarved(s, pf, v, s0, got);
    OpenSame(s, s0);
    AddPageOpens(s0, v, got.value);
  }

  lemma {:induction false} MapPagesOpens(s: Sys, pf: Flags, v: nat, n: nat)
    requires Steady(s) && Ready(s, pf, v, n) && !Short(s, pf, v, n) && OwnHalfOpen(s)
    ensures OwnHalfOpen(MapPages(s, pf, v, n).0)
    decreases n
  {
    hide Translate, In, Palloc, AddPage, Steady, FreeCount, Short, Starved, UserCost, OnlyMaps, Kept, OnFrame, OneTaken;
    hide Slack, PageCost, HasTable, OwnHalfOpen;
    if n > 0 {
      PallocTakes(s, pf);
      var (s0, got) := Palloc(s, pf);
      if got != None {
        FirstReady(s, pf, v, n);
        OnePageNotStarved(s, pf, v, n);
        OnePageOk(s, pf, v);
        OnePageOpens(s, pf, v);
        var s1 := AddPage(s0, v, got.value).0;
        KeptVirt(s, s1);
        ReadyNext(s, s1, pf, v, n);
        CostStep(s, s1, pf, v, n);
        MapPagesOpens(s1, pf, v + PG_SIZE, n - 1);
      }
    }
  }

  /** Over a whole call: what the process could use it still can. */
  lemma MallocKeepsOpen(s: Sys, pf: Flags, n: nat)
    requires Inv(s) && !TablesRunOut(s, pf, n) && OwnHalfOpen(s)
    ensures OwnHalfOpen(MallocPage(s, pf, n).0)
  {
    hide Steady, Untouched, VaddrGet, MapPages, Run, Translate, FreeCount, Short, Slack, Ready, HandsOut, OwnHalfOpen;
    if 0 < n < 3840 {
      var (s1, got) := VaddrGet(s, pf, n);
      VaddrChosen(s, pf, n);
      if got != Nothing {
        var a := Chosen(s, pf, n).value;
        VaddrFresh(s, pf, n, s1, a);
        HandedShape(s, pf, n, s1, a);
        OpenSame(s, s1);
        if got.Got? {
          SameSupply(s, s1, pf, a, n);
          MapPagesOpens(s1, pf, a, n);
        }
      }
    }
  }

  lemma HandedShape(s: Sys, pf: Flags, n: nat, s1: Sys, a: nat)
    requires HandsOut(s, pf, n, s1, a)
    ensures s1.mem == s.mem && s1.dir == s.dir && s1.kernelPool == s.kernelPool && s1.userPool == s.userPool
    ensures s1.userVirt.start == s.userVirt.start && |s1.userVirt.bits| == |s.userVirt.bits|
    ensures s1.frames == s.frames
  {
    hide Run, Free, Taken;
  }

  /** Each page that malloc_page gives a process, the process may read and write, to its last byte. */
  lemma MallocOpens(s: Sys, n: nat, i: nat, k: nat)
    requires Inv(s) && !TablesRunOut(s, User, n) && OwnHalfOpen(s) && i < n && k < 4096
    ensures var (s', out) := MallocPage(s, User, n);
            out.Address? ==> UserWrites(s'.mem, s'.dir, out.addr + i * 4096 + k)
  {
    hide Inv, MallocPage, TablesRunOut, OwnHalfOpen, FreeCount, Slack, Translate, In, NoNewTables, UserWrites, VaddrGet;
    MallocOk(s, User, n);
    MallocKeepsOpen(s, User, n);
    var (s', out) := MallocPage(s, User, n);
    if out.Address? {
      var v := out.addr + i * PG_SIZE;
      assert OnFrame(s, s', User, v);
      ChosenPage(s, s', n, out.addr, i);
      OpenPage(s', v);
      SamePageSameEntries(s'.mem, s'.dir, v, k);
      SameRights(s'.mem, s'.dir, v, k);
    }
  }

  lemma SameRights(m: Memory, dir: nat, v: nat, k: nat)
    requires Pde(m, dir, v + k) == Pde(m, dir, v) && Pte(m, dir, v + k) == Pte(m, dir, v) && UserWrites(m, dir, v)
    ensures UserWrites(m, dir, v + k)
  {
  }

  lemma OpenPage(s: Sys, v: nat)
    requires OwnHalfOpen(s) && In(s.userVirt, v) && Translate(s.mem, s.dir, v) != None
    ensures UserWrites(s.mem, s.dir, v)
  {
    hide UserWrites, Translate, In, Open, HasTable;
  }

  lemma ChosenPage(s: Sys, s': Sys, n: nat, a: nat, i: nat)
    requires Inv(s) && Inv(s') && 0 < n && i < n && Chosen(s, User, n) == Some(a)
    requires s'.userVirt == VaddrGet(s, User, n).0.userVirt
    ensures In(s'.userVirt, a + i * PG_SIZE) && Aligned(a + i * PG_SIZE)
  {
    hide Steady, Untouched, Translate, Run, Taken;
    VaddrChosen(s, User, n);
    FreeMeans(s.userVirt, a + i * PG_SIZE);
    FreeMeans(s'.userVirt, a + i * PG_SIZE);
    LayoutIn(s');
    InAligned(s'.userVirt, a + i * PG_SIZE);
  }

  lemma LayoutIn(s: Sys)
    requires Inv(s)
    ensures Aligned(s.userVirt.start)
  {
  }
}
