/** Frames from palloc are new, and page_table_add with them keeps what was mapped: exactly when, and what else is lost. */
module PageAllocProofs {
  import opened Common
  import opened Paging
  import opened PagingMap
  import opened PageAlloc
  import opened PageSupply

  // ---------------------------------------------------------------- bits

  lemma InAligned(p: Pool, a: nat)
    requires Aligned(p.start) && In(p, a)
    ensures Aligned(a)
  {
  }

  /** After taking n pages from bit i on. */
  lemma TakeEffect(p: Pool, i: nat, n: nat, a: nat)
    requires Clear(p.bits, i, n)
    ensures In(Take(p, i, n), a) <==> In(p, a)
    ensures Free(Take(p, i, n), a) <==> Free(p, a) && !(PageAt(p, i) <= a < PageAt(p, i) + n * PG_SIZE)
    ensures Taken(p, a) ==> Taken(Take(p, i, n), a)
  {
    if In(p, a) {
      assert Index(Take(p, i, n), a) == Index(p, a);
    }
  }

  lemma ClearIsFree(p: Pool, i: nat, n: nat, k: nat)
    requires Clear(p.bits, i, n) && k < n
    ensures var a := PageAt(p, i) + k * PG_SIZE;
            Free(p, a) && Taken(Take(p, i, n), a)
  {
    InAt(p, i + k);
    InAt(Take(p, i, n), i + k);
    assert PageAt(p, i + k) == PageAt(p, i) + k * PG_SIZE;
  }

  // ---------------------------------------------------------------- palloc

  lemma OneBit(p: Pool, i: nat, a: nat)
    requires Clear(p.bits, i, 1)
    ensures In(p, a) && PageAt(p, i) <= a < PageAt(p, i) + PG_SIZE <==> a == PageAt(p, i)
  {
    InAt(p, i);
  }

  /** The pool is the same but for one page, which was free and is taken. */
  ghost predicate OneTaken(p: Pool, p': Pool, got: nat) {
    && p'.start == p.start && |p'.bits| == |p.bits|
    && Free(p, got) && Taken(p', got)
    && (forall a: nat :: Free(p', a) <==> Free(p, a) && a != got)
    && (forall a: nat :: Taken(p, a) ==> Taken(p', a))
  }

  lemma TakeOne(p: Pool, i: nat)
    requires Clear(p.bits, i, 1)
    ensures OneTaken(p, Take(p, i, 1), PageAt(p, i))
  {
    ClearIsFree(p, i, 1, 0);
    var p' := Take(p, i, 1);
    forall a: nat
      ensures Free(p', a) <==> Free(p, a) && a != PageAt(p, i)
      ensures Taken(p, a) ==> Taken(p', a)
    {
      TakeEffect(p, i, 1, a);
      OneBit(p, i, a);
    }
  }

  ghost predicate PallocResult(s: Sys, pf: Flags, s': Sys, got: Option<nat>) {
    if got == None then s' == s && FreeCount(FramePool(s, pf)) == 0
    else
      && FreeCount(FramePool(s, pf)) == FreeCount(FramePool(s', pf)) + 1
      && OneTaken(FramePool(s, pf), FramePool(s', pf), got.value)
      && s' == (if pf == Kernel then s.(kernelPool := s'.kernelPool) else s.(userPool := s'.userPool))
              .(frames := s.frames + [got.value])
  }

  lemma PallocTakes(s: Sys, pf: Flags)
    ensures PallocResult(s, pf, Palloc(s, pf).0, Palloc(s, pf).1)
  {
    var p := FramePool(s, pf);
    FirstFitIs(p.bits, 1, 0);
    var i := FirstFit(p.bits, 1, 0);
    if i == None {
      forall a: nat
        ensures !Free(p, a)
      {
        if In(p, a) { assert !Clear(p.bits, Index(p, a), 1); }
      }
      CountZero(p);
    } else {
      TakeOne(p, i.value);
      CountTaken(p, i.value);
    }
    hide FreeCount, Free, Taken, OneTaken;
  }

  /** palloc gives the lowest frame there is. */
  lemma PallocLowest(s: Sys, pf: Flags, a: nat)
    requires Free(FramePool(s, pf), a)
    ensures Palloc(s, pf).1 != None && Palloc(s, pf).1.value <= a
  {
    var p := FramePool(s, pf);
    FirstFitIs(p.bits, 1, 0);
    assert Clear(p.bits, Index(p, a), 1);
    var i := FirstFit(p.bits, 1, 0);
    assert i != None && i.value <= Index(p, a);
  }

  lemma PoolsApart(s: Sys, a: nat)
    requires Layout(s)
    ensures !(In(s.kernelPool, a) && In(s.userPool, a))
    ensures In(s.kernelPool, a) || In(s.userPool, a) ==> Aligned(a) && 0 < a < TWO32
  {
    if In(s.kernelPool, a) { InAligned(s.kernelPool, a); }
    if In(s.userPool, a) { InAligned(s.userPool, a); }
    hide Aligned;
  }

  /** Whatever the page tables hold, palloc's frames and the history of them stay in order. */
  lemma PallocHistory(s: Sys, pf: Flags)
    requires Layout(s) && HistoryOk(s)
    ensures var (s', got) := Palloc(s, pf);
            && Layout(s') && HistoryOk(s') && s.frames <= s'.frames && s'.pages == s.pages
            && (got != None ==> got.value !in s.frames && got.value in s'.frames && In(FramePool(s', pf), got.value))
  {
    hide Free, Taken, In, PageAt, Aligned, FreeCount;
    var (s', got) := Palloc(s, pf);
    PallocTakes(s, pf);
    if got != None {
      var f := got.value;
      FreeMeans(FramePool(s, pf), f);
      FreeMeans(FramePool(s', pf), f);
      PoolsApart(s, f);
      SameShape(s, s');
      forall a: nat
        ensures FrameTaken(s, a) ==> FrameTaken(s', a) && a != f
      {
        FreeMeans(s.kernelPool, a);
        FreeMeans(s.userPool, a);
      }
      NoDupAppend(s.frames, [f]);
    }
  }

  /** A frame from palloc was never handed out before, and is neither the directory nor a table. */
  lemma PallocFresh(s: Sys, pf: Flags)
    requires Core(s) && HistoryOk(s)
    ensures var (s', got) := Palloc(s, pf);
            && Core(s') && HistoryOk(s')
            && (got != None ==> got.value !in s.frames && got.value in s'.frames && got.value < TWO32 && Aligned(got.value))
            && (got != None && pf == Kernel ==> Unused(s.mem, s.dir, got.value))
            && (got != None ==> NoTable(s', got.value) && got.value != s.dir)
            && (got != None ==> !Free(s'.kernelPool, got.value) && In(FramePool(s', pf), got.value))
  {
    hide Free, Taken, In, PageAt, Aligned, PageOf, PdeAt, SelfMapped, HistoryOk, FreeCount;
    var (s', got) := Palloc(s, pf);
    PallocTakes(s, pf);
    PallocHistory(s, pf);
    if got != None {
      var f := got.value;
      FreeMeans(FramePool(s, pf), f);
      PoolsApart(s, f);
      PallocPools(s, pf, s', got);
      FreshUnused(s, f);
      SameTables(s, s');
      FreshNoTable(s, s', pf, f);
    }
  }

  lemma PallocPools(s: Sys, pf: Flags, s': Sys, got: Option<nat>)
    requires PallocResult(s, pf, s', got) && got != None && Layout(s)
    ensures forall a: nat :: Free(s'.kernelPool, a) ==> Free(s.kernelPool, a)
    ensures forall a: nat :: In(s'.userPool, a) <==> In(s.userPool, a)
    ensures !Free(s'.kernelPool, got.value)
  {
    hide Free, Taken, In, PageAt, FreeCount;
    FreeMeans(FramePool(s, pf), got.value);
    PoolsApart(s, got.value);
    FreeMeans(s.kernelPool, got.value);
    forall a: nat
      ensures In(s'.userPool, a) <==> In(s.userPool, a)
    {
      SameIn(s.userPool, s'.userPool, a);
    }
  }

  /** The same tables in pools from which more has been taken. */
  lemma SameTables(s: Sys, s': Sys)
    requires s'.mem == s.mem && s'.dir == s.dir
    requires forall a: nat :: Free(s'.kernelPool, a) ==> Free(s.kernelPool, a)
    requires forall a: nat :: In(s'.userPool, a) <==> In(s.userPool, a)
    ensures TablesOk(s) ==> TablesOk(s')
    ensures OwnTables(s) ==> OwnTables(s')
    ensures KernelTables(s) ==> KernelTables(s')
    ensures DirectoryOk(s) ==> DirectoryOk(s')
    ensures ZeroTable(s') <==> ZeroTable(s)
  {
    forall i: nat
      ensures HasTable(s', i) <==> HasTable(s, i)
      ensures TableAt(s', i) == TableAt(s, i)
    {
    }
    hide Free, In, TableAt, HasTable;
  }

  lemma FreeMeans(p: Pool, a: nat)
    ensures Free(p, a) ==> In(p, a) && !Taken(p, a)
    ensures Taken(p, a) ==> In(p, a) && !Free(p, a)
  {
  }

  lemma SameIn(p: Pool, p': Pool, a: nat)
    requires p'.start == p.start && |p'.bits| == |p.bits|
    ensures In(p', a) <==> In(p, a)
  {
  }

  lemma SameShape(s: Sys, s': Sys)
    requires s'.kernelPool.start == s.kernelPool.start && |s'.kernelPool.bits| == |s.kernelPool.bits|
    requires s'.userPool.start == s.userPool.start && |s'.userPool.bits| == |s.userPool.bits|
    requires s'.kernelVirt.start == s.kernelVirt.start && |s'.kernelVirt.bits| == |s.kernelVirt.bits|
    requires s'.userVirt.start == s.userVirt.start && |s'.userVirt.bits| == |s.userVirt.bits|
    requires s'.dir == s.dir
    ensures Layout(s') <==> Layout(s)
  {
  }

  lemma FreshNoTable(s: Sys, s': Sys, pf: Flags, f: nat)
    requires Core(s) && Free(FramePool(s, pf), f) && s'.mem == s.mem && s'.dir == s.dir
    ensures NoTable(s', f) && f != s.dir
  {
    FreeMeans(FramePool(s, pf), f);
    PoolsApart(s, f);
    forall i: nat | i < 1023 && HasTable(s', i)
      ensures TableAt(s', i) != f
    {
      assert HasTable(s, i) && TableAt(s, i) == TableAt(s', i);
    }
    hide TableAt, HasTable, Free, In;
  }

  lemma FreshUnused(s: Sys, f: nat)
    requires Core(s)
    ensures Free(s.kernelPool, f) ==> Unused(s.mem, s.dir, f)
  {
    hide In, Aligned;
    if Free(s.kernelPool, f) {
      PoolsApart(s, f);
      forall i: nat | i <= 1023 && Present(PdeAt(s.mem, s.dir, i))
        ensures PageOf(PdeAt(s.mem, s.dir, i)) != f
      {
        if i < 1023 { assert HasTable(s, i) && TableAt(s, i) != f; }
      }
    }
  }

  // ---------------------------------------------------------------- one page mapped

  lemma ManagedRange(s: Sys, v: nat)
    requires Layout(s) && Managed(s, v)
    ensures v < 0xffc0_0000 && Aligned(v) && 32 <= PdeIdx(v) < 1023
  {
  }

  /** Every table is where it was; a new one is on a frame handed out since, or on page 0. */
  ghost predicate TablesKept(s: Sys, s': Sys) {
    forall i: nat :: i < 1023 ==>
      if HasTable(s, i) then HasTable(s', i) && TableAt(s', i) == TableAt(s, i)
      else HasTable(s', i) ==> TableAt(s', i) == 0 || (TableAt(s', i) in s'.frames && TableAt(s', i) !in s.frames)
  }

  lemma StillNoTable(s: Sys, s': Sys, frame: nat)
    requires TablesKept(s, s') && NoTable(s, frame) && frame in s.frames
    ensures NoTable(s', frame)
  {
    hide TableAt, HasTable;
  }

  lemma TablesKeptMore(s: Sys, s1: Sys, s2: Sys)
    requires TablesKept(s, s1) && TablesKept(s1, s2) && s.frames <= s1.frames <= s2.frames
    ensures TablesKept(s, s2)
  {
    hide TableAt, HasTable;
  }

  lemma SameTablesKept(s: Sys, s': Sys)
    requires s'.mem == s.mem && s'.dir == s.dir
    ensures TablesKept(s, s')
  {
    forall i: nat | i < 1023 && HasTable(s', i)
      ensures HasTable(s, i) && TableAt(s', i) == TableAt(s, i)
    {
    }
    hide TableAt, HasTable;
  }

  /** What mapping leaves alone: the virtual pages, the shape of the pools, and every translation there was. */
  ghost predicate Kept(s: Sys, s': Sys) {
    && s'.dir == s.dir && s'.kernelVirt == s.kernelVirt && s'.userVirt == s.userVirt && s'.pages == s.pages
    && s'.kernelPool.start == s.kernelPool.start && |s'.kernelPool.bits| == |s.kernelPool.bits|
    && s'.userPool.start == s.userPool.start && |s'.userPool.bits| == |s.userPool.bits|
    && s.frames <= s'.frames && TablesKept(s, s') && TranslationsKept(s, s')
  }

  /** Every address that went somewhere goes there still. */
  ghost predicate TranslationsKept(s: Sys, s': Sys) {
    forall w: nat :: w < TWO32 && Translate(s.mem, s.dir, w) != None
      ==> Translate(s'.mem, s'.dir, w) == Translate(s.mem, s.dir, w)
  }

  /** Of the managed pages, none but those from v on, n of them, has become mapped. */
  ghost predicate OnlyMaps(s: Sys, s': Sys, v: nat, n: nat) {
    forall w: nat :: Managed(s, w) && Translate(s.mem, s.dir, w) == None && !(v <= w < v + n * PG_SIZE)
      ==> Translate(s'.mem, s'.dir, w) == None
  }

  lemma NeedsTableIs(s: Sys, v: nat)
    requires DirectoryOk(s) && v < TWO32
    ensures NeedsTable(s.mem, s.dir, v) <==> !HasTable(s, PdeIdx(v))
  {
    PdePtrReaches(s.mem, s.dir, v);
    hide PdePtr;
  }

  lemma Editable(s: Sys, v: nat, page: nat, table: nat)
    requires Layout(s) && DirectoryOk(s) && Managed(s, v) && Aligned(page)
    requires !HasTable(s, PdeIdx(v)) ==> Aligned(table) && table != s.dir
    ensures CanEdit(s.mem, s.dir, v, page, table)
  {
    hide Aligned, PdeIdx, In, Free;
    ManagedRange(s, v);
    forall i: nat | i < 1023 && Present(PdeAt(s.mem, s.dir, i))
      ensures PageOf(PdeAt(s.mem, s.dir, i)) != s.dir
    {
      assert HasTable(s, i) && TableAt(s, i) != s.dir;
    }
  }

  /** The update done by page_table_add in either branch, unless it meets a present entry. */
  lemma Edits(s: Sys, v: nat, page: nat, table: nat)
    requires CanEdit(s.mem, s.dir, v, page, table)
    ensures var r := PageTableAdd(s.mem, s.dir, v, page, table);
            && (HasTable(s, PdeIdx(v)) && Translate(s.mem, s.dir, v) != None ==> r == Halt)
            && (!(HasTable(s, PdeIdx(v)) && Translate(s.mem, s.dir, v) != None)
                ==> r.Done? && Updated(s.mem, r.mem, s.dir, v, page, table))
  {
    hide PageTableAdd, Translate, Updated, CanEdit, PdeIdx;
    if Present(Pde(s.mem, s.dir, v)) {
      AddToTable(s.mem, s.dir, v, page, table);
    } else {
      AddWithTable(s.mem, s.dir, v, page, table);
    }
  }

  /** The directory after the update: the tables there were, and one for v. */
  lemma Edited(s: Sys, s': Sys, v: nat, page: nat, table: nat)
    requires Layout(s) && DirectoryOk(s) && Managed(s, v) && CanEdit(s.mem, s.dir, v, page, table)
    requires Updated(s.mem, s'.mem, s.dir, v, page, table) && s' == s.(mem := s'.mem)
    ensures DirectoryOk(s') && GainsTable(s, s', v)
    ensures forall i: nat :: i < 1023 && HasTable(s, i) ==> HasTable(s', i) && TableAt(s', i) == TableAt(s, i)
    ensures !HasTable(s, PdeIdx(v)) ==> TableAt(s', PdeIdx(v)) == table
  {
    hide Translate, Updated, Aligned, In, Free, PdeIdx, Entry, PageOf;
    ManagedRange(s, v);
    UpdatedHere(s.mem, s'.mem, s.dir, v, page, table);
    if !HasTable(s, PdeIdx(v)) { EntryParts(table); }
    forall i: nat | i < 1023
      ensures if i == PdeIdx(v) && !HasTable(s, i) then HasTable(s', i) && TableAt(s', i) == table
              else (HasTable(s', i) <==> HasTable(s, i)) && TableAt(s', i) == TableAt(s, i)
    {
      UpdatedDirectory(s.mem, s'.mem, s.dir, v, page, table, i);
    }
    hide CanEdit;
  }

  /** The state AddPage writes in, and the table it writes: for a missing one a frame from palloc, or else page 0. */
  ghost predicate Prepared(s: Sys, v: nat, s1: Sys, table: nat) {
    var got := if HasTable(s, PdeIdx(v)) then (s, None) else Palloc(s, Kernel);
    s1 == got.0 && table == if got.1 == None then 0 else got.1.value
  }

  lemma PreparedState(s: Sys, v: nat, s1: Sys, table: nat)
    requires Layout(s) && DirectoryOk(s) && Prepared(s, v, s1, table)
    ensures Layout(s1) && DirectoryOk(s1) && Aligned(table) && table != s.dir
    ensures s1.mem == s.mem && s1.dir == s.dir && s1.kernelVirt == s.kernelVirt && s1.userVirt == s.userVirt
    ensures s1.userPool == s.userPool && s1.pages == s.pages
  {
    hide FreeCount, In, Free, Taken, PageOf, PdeAt, SelfMapped, Palloc, PdeIdx, HasTable, OneTaken;
    assert Aligned(0);
    var (s', got) := Palloc(s, Kernel);
    PallocTakes(s, Kernel);
    if got != None && !HasTable(s, PdeIdx(v)) {
      FreeOf(s, s1, table);
      PoolsApart(s, table);
      PallocPools(s, Kernel, s1, got);
      SameShape(s, s1);
      SameTables(s, s1);
      hide Layout, DirectoryOk;
    }
  }

  lemma FreeOf(s: Sys, s1: Sys, f: nat)
    requires PallocResult(s, Kernel, s1, Some(f))
    ensures Free(s.kernelPool, f) && In(s.kernelPool, f)
    ensures s1.kernelPool.start == s.kernelPool.start && |s1.kernelPool.bits| == |s.kernelPool.bits|
  {
    hide FreeCount;
  }

  lemma ManagedBound(s: Sys, v: nat)
    requires Layout(s) && Managed(s, v)
    ensures v < TWO32
  {
    ManagedRange(s, v);
  }

  lemma AddPageParts(s: Sys, v: nat, page: nat) returns (s1: Sys, table: nat)
    requires Layout(s) && DirectoryOk(s) && Managed(s, v) && Aligned(page)
    ensures Prepared(s, v, s1, table) && Layout(s1) && DirectoryOk(s1) && CanEdit(s1.mem, s1.dir, v, page, table)
    ensures s1.mem == s.mem && s1.dir == s.dir && s1.kernelVirt == s.kernelVirt && s1.userVirt == s.userVirt
    ensures var r := PageTableAdd(s.mem, s.dir, v, page, table);
            && (r.Done? ==> AddPage(s, v, page) == (s1.(mem := r.mem), Mapped))
            && (r == Halt ==> AddPage(s, v, page) == (s1, Halted))
  {
    hide PageTableAdd, Palloc, NeedsTable, PdeIdx, In, Aligned, CanEdit, HasTable;
    ManagedBound(s, v);
    NeedsTableIs(s, v);
    var got := if HasTable(s, PdeIdx(v)) then (s, None) else Palloc(s, Kernel);
    s1, table := got.0, if got.1 == None then 0 else got.1.value;
    PreparedState(s, v, s1, table);
    SameEntries(s, s1);
    SameManaged(s, s1, v);
    Editable(s1, v, page, table);
  }

  lemma SameEntries(s: Sys, s1: Sys)
    requires s1.mem == s.mem && s1.dir == s.dir
    ensures forall i: nat :: HasTable(s1, i) <==> HasTable(s, i)
  {
  }

  /** Whatever the tables hold, page_table_add never faults, and no directory entry is lost or changed. */
  lemma AddPageAny(s: Sys, v: nat, page: nat)
    requires Layout(s) && DirectoryOk(s) && Managed(s, v) && Aligned(page)
    ensures var (s', status) := AddPage(s, v, page);
            && (status == Mapped || status == Halted) && Layout(s') && DirectoryOk(s')
            && s'.kernelVirt == s.kernelVirt && s'.userVirt == s.userVirt
            && (!OwnTables(s) ==> !OwnTables(s'))
  {
    hide AddPage, PageTableAdd, Prepared, PdeIdx, In, Aligned, CanEdit, HasTable, TableAt, DirectoryOk, Updated;
    hide Translate, Layout;
    var s1, table := AddPageParts(s, v, page);
    Edits(s1, v, page, table);
    SameOwnTables(s, s1);
    var r := PageTableAdd(s.mem, s.dir, v, page, table);
    if r.Done? {
      var s' := s1.(mem := r.mem);
      SameManaged(s, s1, v);
      Edited(s1, s', v, page, table);
      SameLayout(s1, s');
    }
  }

  lemma SameLayout(s: Sys, s': Sys)
    requires Layout(s) && s' == s.(mem := s'.mem)
    ensures Layout(s')
  {
  }

  lemma SameManaged(s: Sys, s1: Sys, v: nat)
    requires Managed(s, v) && s1.kernelVirt == s.kernelVirt && s1.userVirt == s.userVirt
    ensures Managed(s1, v)
  {
  }

  lemma SameOwnTables(s: Sys, s1: Sys)
    requires s1.mem == s.mem && s1.dir == s.dir
    ensures OwnTables(s1) <==> OwnTables(s)
  {
    SameEntries(s, s1);
    assert forall i: nat :: TableAt(s1, i) == TableAt(s, i);
    hide HasTable, TableAt;
  }

  // ---------------------------------------------------------------- while the supply lasts

  /** The tables after the update: at most one more, which was unused and is no longer free. */
  lemma CoreAfter(s: Sys, s': Sys, v: nat, page: nat, table: nat)
    requires Core(s) && Managed(s, v) && CanAdd(s.mem, s.dir, v, page, table)
    requires Updated(s.mem, s'.mem, s.dir, v, page, table) && s' == s.(mem := s'.mem)
    requires !HasTable(s, PdeIdx(v)) ==> table == 0 || (In(s.kernelPool, table) && !Free(s.kernelPool, table))
    ensures Core(s') && GainsTable(s, s', v)
    ensures forall i: nat :: i < 1023 && HasTable(s', i)
              ==> (HasTable(s, i) && TableAt(s', i) == TableAt(s, i))
                  || (TableAt(s', i) == table && i == PdeIdx(v) && !HasTable(s, i))
  {
    hide Translate, Updated, Aligned, In, Free, PdeIdx, Entry, PageOf, CanEdit, Unused, PdeAt;
    ManagedRange(s, v);
    Edited(s, s', v, page, table);
    SameLayout(s, s');
    if !HasTable(s, PdeIdx(v)) {
      PoolsApart(s, table);
      PoolsApart(s, 0);
      ZeroInNoPool(s);
      UnusedTables(s, v, page, table);
    }
    hide HasTable, TableAt, CanAdd;
  }

  lemma ZeroInNoPool(s: Sys)
    requires Layout(s)
    ensures !In(s.kernelPool, 0) && !In(s.userPool, 0) && !Free(s.kernelPool, 0)
  {
  }

  lemma UnusedTables(s: Sys, v: nat, page: nat, table: nat)
    requires CanAdd(s.mem, s.dir, v, page, table) && !HasTable(s, PdeIdx(v))
    ensures forall i: nat :: i < 1023 && HasTable(s, i) ==> TableAt(s, i) != table
  {
  }

  lemma OnlyThis(s: Sys, s': Sys, v: nat, page: nat, table: nat)
    requires Core(s) && Managed(s, v) && CanAdd(s.mem, s.dir, v, page, table)
    requires Updated(s.mem, s'.mem, s.dir, v, page, table) && s'.dir == s.dir
    ensures OnlyMaps(s, s', v, 1)
  {
    hide In, Translate, Updated, CanAdd, Core;
    forall w: nat | Managed(s, w) && Translate(s.mem, s.dir, w) == None && !(v <= w < v + PG_SIZE)
      ensures Translate(s'.mem, s'.dir, w) == None
    {
      CoreRange(s, v);
      CoreRange(s, w);
      Elsewhere(s, s', v, page, table, w);
    }
  }

  lemma CoreRange(s: Sys, v: nat)
    requires Core(s) && Managed(s, v)
    ensures v < 0xffc0_0000 && Aligned(v) && 32 <= PdeIdx(v) < 1023
  {
    ManagedRange(s, v);
  }

  lemma Elsewhere(s: Sys, s': Sys, v: nat, page: nat, table: nat, w: nat)
    requires Core(s) && CanAdd(s.mem, s.dir, v, page, table) && w != v && Aligned(w) && w < 0xffc0_0000
    requires 32 <= PdeIdx(v) < 1023 && 32 <= PdeIdx(w) < 1023 && Translate(s.mem, s.dir, w) == None
    requires Updated(s.mem, s'.mem, s.dir, v, page, table) && s'.dir == s.dir
    ensures Translate(s'.mem, s'.dir, w) == None
  {
    assert PageOf(w) == w;
    hide Translate, Updated, PdeIdx, PageOf, Unused, TablesOk, Layout, CanEdit;
    var i, j := PdeIdx(v), PdeIdx(w);
    if i != j && Present(Pde(s.mem, s.dir, w)) {
      assert HasTable(s, j);
      if Present(Pde(s.mem, s.dir, v)) {
        assert HasTable(s, i) && TableAt(s, i) != TableAt(s, j);
      } else {
        UnusedTables(s, v, page, table);
      }
    }
    UpdatedElsewhere(s.mem, s'.mem, s.dir, v, page, table, w);
  }

  lemma AddedTables(s: Sys, s1: Sys, s2: Sys, v: nat, table: nat)
    requires s1.mem == s.mem && s1.dir == s.dir && s2.frames == s1.frames && GainsTable(s1, s2, v)
    requires !HasTable(s, PdeIdx(v)) ==> table == 0 || (table in s1.frames && table !in s.frames)
    requires forall i: nat :: i < 1023 && HasTable(s2, i)
               ==> (HasTable(s1, i) && TableAt(s2, i) == TableAt(s1, i))
                   || (TableAt(s2, i) == table && i == PdeIdx(v) && !HasTable(s1, i))
    ensures TablesKept(s, s2)
  {
    SameEntries(s, s1);
    assert forall i: nat :: TableAt(s1, i) == TableAt(s, i);
    hide TableAt, HasTable, PdeIdx;
  }

  lemma ZeroUnused(s: Sys)
    requires Core(s) && !ZeroTable(s)
    ensures Unused(s.mem, s.dir, 0)
  {
    forall i: nat | i <= 1023 && Present(PdeAt(s.mem, s.dir, i))
      ensures PageOf(PdeAt(s.mem, s.dir, i)) != 0
    {
      if i < 1023 { assert HasTable(s, i) && TableAt(s, i) != 0; }
    }
  }

  /** The new table is nobody else's, page 0 included. */
  lemma TableUnused(s: Sys, v: nat, s1: Sys, table: nat)
    requires Core(s) && HistoryOk(s) && !Starved(s, v) && Prepared(s, v, s1, table)
    ensures Core(s1) && HistoryOk(s1) && s.frames <= s1.frames && s1.kernelPool.start == s.kernelPool.start
    ensures |s1.kernelPool.bits| == |s.kernelPool.bits| && (ZeroTable(s1) <==> ZeroTable(s))
    ensures FreeCount(s.kernelPool) == FreeCount(s1.kernelPool) + (if HasTable(s, PdeIdx(v)) || FreeCount(s.kernelPool) == 0 then 0 else 1)
    ensures !HasTable(s, PdeIdx(v)) ==>
              && Unused(s1.mem, s1.dir, table) && (table == 0 <==> FreeCount(s.kernelPool) == 0)
              && (table == 0 || (In(s1.kernelPool, table) && !Free(s1.kernelPool, table)))
              && (table == 0 || (table in s1.frames && table !in s.frames))
  {
    hide FreeCount, In, Free, Taken, PdeIdx, Aligned, PageOf, PdeAt, Palloc, HasTable, Unused, Core, HistoryOk;
    hide OneTaken, ZeroTable;
    if !HasTable(s, PdeIdx(v)) {
      PallocFresh(s, Kernel);
      PallocTakes(s, Kernel);
      var (s', got) := Palloc(s, Kernel);
      if got == None {
        ZeroUnused(s);
      } else {
        FreeOf(s, s1, table);
        NotZero(s, table);
        CoreSame(s, s1);
      }
    }
  }

  lemma NotZero(s: Sys, table: nat)
    requires Core(s) && In(s.kernelPool, table)
    ensures table != 0
  {
  }

  lemma CoreSame(s: Sys, s1: Sys)
    requires s1.mem == s.mem && s1.dir == s.dir
    ensures ZeroTable(s1) <==> ZeroTable(s)
  {
    SameEntries(s, s1);
    assert forall i: nat :: TableAt(s1, i) == TableAt(s, i);
    hide HasTable, TableAt;
  }

  /** After the update everything is as AddPageOk says. */
  lemma Added(s: Sys, s1: Sys, s2: Sys, v: nat, page: nat, table: nat)
    requires Core(s) && HistoryOk(s) && !Starved(s, v) && Prepared(s, v, s1, table) && Managed(s, v)
    requires s1.mem == s.mem && s1.dir == s.dir && s1.kernelVirt == s.kernelVirt && s1.userVirt == s.userVirt
    requires s1.userPool == s.userPool && s1.pages == s.pages
    requires CanAdd(s1.mem, s1.dir, v, page, table) && Updated(s1.mem, s2.mem, s1.dir, v, page, table)
    requires s2 == s1.(mem := s2.mem)
    ensures Core(s2) && HistoryOk(s2) && Kept(s, s2) && OnlyMaps(s, s2, v, 1)
    ensures Translate(s2.mem, s2.dir, v) == Some(page) && AddCost(s, s2, v) && s2.userPool == s.userPool
  {
    hide Translate, Aligned, In, Free, Taken, PdeIdx, Updated, CanAdd, Core, Prepared, FreeCount, HasTable;
    hide TableAt, Unused, ZeroTable, TablesKept, OnlyMaps;
    TableUnused(s, v, s1, table);
    SameManaged(s, s1, v);
    SameEntries(s, s1);
    CoreAfter(s1, s2, v, page, table);
    OnlyThis(s1, s2, v, page, table);
    AddMeans(s1, v, page, table);
    UpdatedHere(s1.mem, s2.mem, s1.dir, v, page, table);
    AddedTables(s, s1, s2, v, table);
    CoreRange(s, v);
    AddedZero(s1, s2, v, table);
    OnlyMapsFrom(s, s1, s2, v);
    SameHistory(s1, s2);
    forall w: nat | w < TWO32 && Translate(s.mem, s.dir, w) != None
      ensures Translate(s2.mem, s2.dir, w) == Translate(s.mem, s.dir, w)
    {
      UpdatedKeeps(s1.mem, s2.mem, s1.dir, v, page, table, w);
    }
  }

  lemma AddMeans(s: Sys, v: nat, page: nat, table: nat)
    requires CanAdd(s.mem, s.dir, v, page, table)
    ensures CanEdit(s.mem, s.dir, v, page, table)
  {
  }

  lemma SameHistory(s: Sys, s': Sys)
    requires HistoryOk(s) && s' == s.(mem := s'.mem)
    ensures HistoryOk(s')
  {
    hide Taken;
  }

  lemma OnlyMapsFrom(s: Sys, s1: Sys, s2: Sys, v: nat)
    requires OnlyMaps(s1, s2, v, 1) && s1.mem == s.mem && s1.dir == s.dir
    requires s1.kernelVirt == s.kernelVirt && s1.userVirt == s.userVirt
    ensures OnlyMaps(s, s2, v, 1)
  {
    hide Translate, In;
  }

  lemma AddedZero(s: Sys, s': Sys, v: nat, table: nat)
    requires GainsTable(s, s', v) && PdeIdx(v) < 1023
    requires forall i: nat :: i < 1023 && HasTable(s', i)
               ==> (HasTable(s, i) && TableAt(s', i) == TableAt(s, i))
                   || (TableAt(s', i) == table && i == PdeIdx(v) && !HasTable(s, i))
    ensures ZeroTable(s') <==> ZeroTable(s) || (!HasTable(s, PdeIdx(v)) && table == 0)
  {
    hide HasTable, TableAt, PdeIdx;
    if ZeroTable(s) {
      var i: nat :| i < 1023 && HasTable(s, i) && TableAt(s, i) == 0;
      assert HasTable(s', i);
    }
    assert HasTable(s', PdeIdx(v));
  }

  /**
    page_table_add while there is a table for the page, a frame for one, or page 0 for the first without: the page is
    mapped, nothing else is, and nothing is unmapped.
  */
  lemma AddPageOk(s: Sys, v: nat, page: nat)
    requires Core(s) && HistoryOk(s) && !Starved(s, v)
    requires Managed(s, v) && Translate(s.mem, s.dir, v) == None && Aligned(page)
    ensures var (s', status) := AddPage(s, v, page);
            && status == Mapped && Core(s') && HistoryOk(s') && Kept(s, s') && OnlyMaps(s, s', v, 1)
            && Translate(s'.mem, s'.dir, v) == Some(page) && AddCost(s, s', v) && s'.userPool == s.userPool
  {
    hide Translate, Aligned, In, Free, PdeIdx, Updated, CanEdit, Unused, PageTableAdd, Palloc, AddPage, OnlyMaps;
    hide Kept;
    hide FreeCount, Starved, HistoryOk, TablesOk, OwnTables, KernelTables, Prepared, AddCost, HasTable;
    var s1, table := AddPageParts(s, v, page);
    PreparedState(s, v, s1, table);
    TableUnused(s, v, s1, table);
    SameEntries(s, s1);
    Edits(s1, v, page, table);
    CanAddNow(s1, v, page, table);
    Added(s, s1, s1.(mem := PageTableAdd(s.mem, s.dir, v, page, table).mem), v, page, table);
  }

  lemma CanAddNow(s: Sys, v: nat, page: nat, table: nat)
    requires CanEdit(s.mem, s.dir, v, page, table) && Translate(s.mem, s.dir, v) == None
    requires !HasTable(s, PdeIdx(v)) ==> Unused(s.mem, s.dir, table)
    ensures CanAdd(s.mem, s.dir, v, page, table)
  {
  }

  // ---------------------------------------------------------------- and when it is out

  /**
    page_table_add with no frame for the table and page 0 already one: the same table is given to a second directory
    entry and cleared, so every page mapped through it is lost, but for the place that v itself takes.
  */
  lemma StarvedLoses(s: Sys, v: nat, page: nat, w: nat)
    requires Core(s) && Managed(s, v) && Aligned(page) && Starved(s, v)
    requires w < 0xffc0_0000 && HasTable(s, PdeIdx(w)) && TableAt(s, PdeIdx(w)) == 0
    ensures var (s', status) := AddPage(s, v, page);
            && status == Mapped && !OwnTables(s') && Translate(s'.mem, s'.dir, v) == Some(page)
            && Translate(s'.mem, s'.dir, w) == if PteIdx(w) == PteIdx(v) then Some(page + w % PG_SIZE) else None
  {
    hide Translate, Aligned, In, Free, PdeIdx, PteIdx, Updated, CanEdit, PageTableAdd, Palloc, AddPage, Layout, Entry;
    hide FreeCount, PageOf;
    PallocTakes(s, Kernel);
    var s1, table := AddPageParts(s, v, page);
    assert s1 == s && table == 0;
    Edits(s, v, page, 0);
    var s' := s.(mem := PageTableAdd(s.mem, s.dir, v, page, 0).mem);
    Edited(s, s', v, page, 0);
    UpdatedShared(s.mem, s'.mem, s.dir, v, page, 0, w);
    UpdatedHere(s.mem, s'.mem, s.dir, v, page, 0);
    IndexRange(w);
    SecondUse(s, s', v, w);
  }

  lemma SecondUse(s: Sys, s': Sys, v: nat, w: nat)
    requires Core(s) && Managed(s, v) && !HasTable(s, PdeIdx(v)) && w < 0xffc0_0000
    requires HasTable(s, PdeIdx(w)) && TableAt(s, PdeIdx(w)) == 0
    requires HasTable(s', PdeIdx(w)) && TableAt(s', PdeIdx(w)) == 0
    requires HasTable(s', PdeIdx(v)) && TableAt(s', PdeIdx(v)) == 0
    ensures !OwnTables(s')
  {
    ManagedRange(s, v);
    IndexRange(w);
    var i, j := PdeIdx(v), PdeIdx(w);
    assert 32 <= j < 768;
    hide HasTable, TableAt, PdeIdx;
  }

  /** A table at page 0 belongs to the process, and some page is mapped through it. */
  lemma ZeroInUse(s: Sys) returns (w: nat)
    requires Core(s) && TablesUsed(s) && ZeroTable(s)
    ensures MappedPage(s, w) && w < 0xffc0_0000 && Aligned(w)
    ensures HasTable(s, PdeIdx(w)) && TableAt(s, PdeIdx(w)) == 0
  {
    var i: nat :| i < 1023 && HasTable(s, i) && TableAt(s, i) == 0;
    assert 32 <= i < 768;
    var u: nat :| Uses(s, i, u);
    w := u;
    ManagedRange(s, w);
    hide HasTable, TableAt, PdeIdx;
  }

  /** page_table_add keeps every translation exactly when there is somewhere to put the table. */
  lemma AddPageExactly(s: Sys, v: nat, page: nat)
    requires Steady(s) && Managed(s, v) && Translate(s.mem, s.dir, v) == None && Aligned(page)
    requires forall w: nat :: MappedPage(s, w) ==> Translate(s.mem, s.dir, w) != Some(page)
    ensures TranslationsKept(s, AddPage(s, v, page).0) <==> !Starved(s, v)
  {
    hide Core, HistoryOk, AddPage, Translate, FreeCount, HasTable, TableAt, In, ZeroTable, OwnFrames, OwnTables;
    hide TablesUsed;
    if Starved(s, v) {
      var w := ZeroInUse(s);
      StarvedLoses(s, v, page, w);
      assert w % PG_SIZE == 0;
      assert Translate(s.mem, s.dir, w) != None && w < TWO32;
    } else {
      AddPageOk(s, v, page);
    }
  }

  // ---------------------------------------------------------------- one page of the loop

  lemma KeptMore(s: Sys, s1: Sys, s2: Sys)
    requires Kept(s, s1) && Kept(s1, s2)
    ensures Kept(s, s2)
  {
    hide Translate, TablesKept;
    TablesKeptMore(s, s1, s2);
  }

  lemma OnlyMapsMore(s: Sys, s1: Sys, s2: Sys, v: nat, n: nat)
    requires OnlyMaps(s, s1, v, 1) && OnlyMaps(s1, s2, v + PG_SIZE, n)
    requires s1.kernelVirt == s.kernelVirt && s1.userVirt == s.userVirt
    ensures OnlyMaps(s, s2, v, n + 1)
  {
    hide Translate, In;
  }

  /** n pages from v on, of the range asked for and not mapped. */
  ghost predicate Ready(s: Sys, pf: Flags, v: nat, n: nat) {
    Pages(s, pf, v, n) && forall i: nat :: i < n ==> Translate(s.mem, s.dir, v + i * PG_SIZE) == None
  }

  ghost predicate Pages(s: Sys, pf: Flags, v: nat, n: nat) {
    forall i: nat :: i < n ==> In(VirtPool(s, pf), v + i * PG_SIZE)
  }

  /** The n pages from v on, each on a frame of the pool that was handed out since s, no two on the same. */
  ghost predicate Backed(s: Sys, s': Sys, pf: Flags, v: nat, n: nat) {
    && (forall i: nat :: i < n ==> OnFrame(s, s', pf, v + i * PG_SIZE))
    && (forall i: nat, j: nat :: i < j < n
          ==> Translate(s'.mem, s'.dir, v + i * PG_SIZE) != Translate(s'.mem, s'.dir, v + j * PG_SIZE))
  }

  ghost predicate OnFrame(s: Sys, s': Sys, pf: Flags, v: nat) {
    var f := Translate(s'.mem, s'.dir, v);
    && f != None && In(FramePool(s', pf), f.value)
    && f.value in s'.frames && f.value !in s.frames && NoTable(s', f.value) && f.value != s'.dir
  }

  lemma ReadyNext(s: Sys, s1: Sys, pf: Flags, v: nat, n: nat)
    requires Ready(s, pf, v, n) && n > 0 && OnlyMaps(s, s1, v, 1)
    requires s1.kernelVirt == s.kernelVirt && s1.userVirt == s.userVirt
    ensures Ready(s1, pf, v + PG_SIZE, n - 1)
  {
    hide Translate, In;
    forall i: nat | i < n - 1
      ensures In(VirtPool(s1, pf), v + PG_SIZE + i * PG_SIZE)
      ensures Translate(s1.mem, s1.dir, v + PG_SIZE + i * PG_SIZE) == None
    {
      assert v + PG_SIZE + i * PG_SIZE == v + (i + 1) * PG_SIZE;
      assert Managed(s, v + (i + 1) * PG_SIZE);
    }
  }

  lemma PagesNext(s: Sys, s1: Sys, pf: Flags, v: nat, n: nat)
    requires Pages(s, pf, v, n) && n > 0 && s1.kernelVirt == s.kernelVirt && s1.userVirt == s.userVirt
    ensures Pages(s1, pf, v + PG_SIZE, n - 1) && In(VirtPool(s, pf), v)
  {
    hide In;
    assert v + 0 * PG_SIZE == v;
    forall i: nat | i < n - 1
      ensures In(VirtPool(s1, pf), v + PG_SIZE + i * PG_SIZE)
    {
      assert v + PG_SIZE + i * PG_SIZE == v + (i + 1) * PG_SIZE;
    }
  }

  lemma BackedMore(s: Sys, s1: Sys, s2: Sys, pf: Flags, v: nat, n: nat)
    requires OnFrame(s, s1, pf, v) && Backed(s1, s2, pf, v + PG_SIZE, n) && Kept(s1, s2) && v < TWO32
    requires s.frames <= s1.frames
    ensures Backed(s, s2, pf, v, n + 1)
  {
    hide Translate, In;
    SamePools(s1, s2, pf);
    var f := Translate(s1.mem, s1.dir, v);
    StillNoTable(s1, s2, f.value);
    assert Translate(s2.mem, s2.dir, v) == f;
    forall i: nat | i < n + 1
      ensures OnFrame(s, s2, pf, v + i * PG_SIZE)
      ensures i > 0 ==> Translate(s2.mem, s2.dir, v + i * PG_SIZE) != f
    {
      if i > 0 {
        assert v + i * PG_SIZE == v + PG_SIZE + (i - 1) * PG_SIZE;
        assert OnFrame(s1, s2, pf, v + PG_SIZE + (i - 1) * PG_SIZE);
      } else {
        assert v + i * PG_SIZE == v;
      }
    }
    forall i: nat, j: nat | i < j < n + 1
      ensures Translate(s2.mem, s2.dir, v + i * PG_SIZE) != Translate(s2.mem, s2.dir, v + j * PG_SIZE)
    {
      if i > 0 {
        assert v + i * PG_SIZE == v + PG_SIZE + (i - 1) * PG_SIZE;
        assert v + j * PG_SIZE == v + PG_SIZE + (j - 1) * PG_SIZE;
      } else {
        assert v + i * PG_SIZE == v;
      }
    }
  }

  lemma SamePools(s: Sys, s': Sys, pf: Flags)
    requires Kept(s, s')
    ensures forall a: nat :: In(FramePool(s', pf), a) <==> In(FramePool(s, pf), a)
  {
    hide Translate;
    forall a: nat
      ensures In(FramePool(s', pf), a) <==> In(FramePool(s, pf), a)
    {
      SameIn(s.kernelPool, s'.kernelPool, a);
      SameIn(s.userPool, s'.userPool, a);
    }
  }

  /** What one page takes from the pools. */
  ghost predicate PageCost(s: Sys, s': Sys, pf: Flags, v: nat) {
    && FreeCount(FramePool(s, pf)) == FreeCount(FramePool(s', pf)) + 1
    && (pf == User ==> UserCost(s, s', v))
    && (pf == Kernel ==> GainsTable(s, s', v) && HasTable(s, PdeIdx(v)) && (ZeroTable(s') <==> ZeroTable(s)))
  }

  lemma PallocKept(s: Sys, pf: Flags, s0: Sys, got: Option<nat>)
    requires PallocResult(s, pf, s0, got)
    ensures Kept(s, s0) && s0.mem == s.mem && s0.dir == s.dir
    ensures s0.kernelVirt == s.kernelVirt && s0.userVirt == s.userVirt
  {
    hide Translate, Free, Taken, TablesKept, FreeCount;
    SameTablesKept(s, s0);
  }

  lemma VirtManaged(s: Sys, pf: Flags, v: nat)
    requires In(VirtPool(s, pf), v)
    ensures Managed(s, v)
  {
  }

  lemma KernelRange(s: Sys, v: nat)
    requires Layout(s) && In(s.kernelVirt, v)
    ensures 768 <= PdeIdx(v) < 1023
  {
  }

  /** The frame just taken is not the last thing the table needs: kernel pages have their tables. */
  lemma NotStarved(s: Sys, pf: Flags, v: nat, s0: Sys, got: Option<nat>)
    requires Core(s) && PallocResult(s, pf, s0, got) && In(VirtPool(s, pf), v) && (pf == User ==> !Starved(s, v))
    ensures !Starved(s0, v) && (HasTable(s0, PdeIdx(v)) <==> HasTable(s, PdeIdx(v))) && (ZeroTable(s0) <==> ZeroTable(s))
    ensures pf == Kernel ==> HasTable(s, PdeIdx(v))
  {
    hide FreeCount, In, Free, Taken, PdeIdx, OneTaken, TableAt, TablesOk, OwnTables;
    CoreSame(s, s0);
    SameEntries(s, s0);
    if pf == Kernel { KernelRange(s, v); }
    hide HasTable, ZeroTable;
  }

  lemma CostOf(s: Sys, pf: Flags, v: nat, s0: Sys, s1: Sys, got: Option<nat>)
    requires PallocResult(s, pf, s0, got) && got != None && AddCost(s0, s1, v) && s1.userPool == s0.userPool
    requires (pf == Kernel ==> HasTable(s, PdeIdx(v))) && (ZeroTable(s0) <==> ZeroTable(s))
    ensures PageCost(s, s1, pf, v) && GainsTable(s, s1, v)
  {
    SameEntries(s, s0);
    hide FreeCount, OneTaken, HasTable, ZeroTable, PdeIdx;
  }

  /** One page, while the supply lasts: a frame, and its mapping. */
  lemma OnePageOk(s: Sys, pf: Flags, v: nat)
    requires Steady(s) && In(VirtPool(s, pf), v) && Translate(s.mem, s.dir, v) == None
    requires FreeCount(FramePool(s, pf)) > 0 && (pf == User ==> !Starved(s, v))
    ensures var (s0, got) := Palloc(s, pf);
            && got != None
            && var (s1, status) := AddPage(s0, v, got.value);
               && status == Mapped && Steady(s1) && Kept(s, s1) && OnlyMaps(s, s1, v, 1)
               && OnFrame(s, s1, pf, v) && PageCost(s, s1, pf, v) && (pf == Kernel ==> s1.userPool == s.userPool)
  {
    hide Translate, Aligned, In, Free, Taken, Palloc, AddPage, Core, HistoryOk, PdeIdx, FreeCount, HasTable;
    hide ZeroTable;
    hide OneTaken, TablesUsed, OwnFrames, Starved, AddCost, NoTable, PageCost, TablesKept, TranslationsKept;
    PallocTakes(s, pf);
    PallocFresh(s, pf);
    var (s0, got) := Palloc(s, pf);
    VirtManaged(s, pf, v);
    PallocKept(s, pf, s0, got);
    SameManaged(s, s0, v);
    NotStarved(s, pf, v, s0, got);
    AddPageOk(s0, v, got.value);
    var s1 := AddPage(s0, v, got.value).0;
    KeptMore(s, s0, s1);
    OnlyMapsFrom(s, s0, s1, v);
    SamePools(s0, s1, pf);
    KeepsTables(s0, s1);
    StillNoTable(s0, s1, got.value);
    CostOf(s, pf, v, s0, s1, got);
    SteadyAfter(s, s1, v, got.value);
  }

  lemma KeepsTables(s: Sys, s1: Sys)
    requires Kept(s, s1)
    ensures TablesKept(s, s1) && s.frames <= s1.frames && TranslationsKept(s, s1)
  {
  }

  lemma SteadyAfter(s: Sys, s1: Sys, v: nat, f: nat)
    requires Steady(s) && Core(s1) && HistoryOk(s1) && Kept(s, s1) && OnlyMaps(s, s1, v, 1) && GainsTable(s, s1, v)
    requires Managed(s, v) && Translate(s1.mem, s1.dir, v) == Some(f)
    requires f !in s.frames && f in s1.frames && NoTable(s1, f)
    ensures Steady(s1)
  {
    hide Core, HistoryOk, Translate, In, HasTable, NoTable, TablesKept, PdeIdx;
    forall w: nat | MappedPage(s1, w) && w != v
      ensures MappedPage(s, w) && Translate(s1.mem, s1.dir, w) == Translate(s.mem, s.dir, w)
      ensures Translate(s.mem, s.dir, w).value in s.frames && NoTable(s1, Translate(s.mem, s.dir, w).value)
    {
      assert Managed(s, w);
      CoreRange(s, v);
      CoreRange(s, w);
      SeparatePages(v, w);
      assert OnDataFrame(s, w);
      StillNoTable(s, s1, Translate(s.mem, s.dir, w).value);
    }
    assert OwnFrames(s1);
    forall i: nat | 32 <= i < 768 && HasTable(s1, i)
      ensures exists w: nat :: Uses(s1, i, w)
    {
      if i == PdeIdx(v) {
        assert Uses(s1, i, v);
      } else {
        assert HasTable(s, i);
        var w: nat :| Uses(s, i, w);
        CoreRange(s, w);
        assert Uses(s1, i, w);
      }
    }
  }

  lemma SeparatePages(v: nat, w: nat)
    requires Aligned(v) && Aligned(w) && v != w
    ensures !(v <= w < v + PG_SIZE)
  {
  }

  // ---------------------------------------------------------------- the loop

  ghost predicate NoNewTables(s: Sys, s': Sys) {
    forall i: nat :: i < 1023 ==> (HasTable(s', i) <==> HasTable(s, i))
  }

  /** The loop while the supply lasts; it stops early exactly when the pool has too few frames. */
  lemma {:induction false} MapPagesOk(s: Sys, pf: Flags, v: nat, n: nat)
    requires Steady(s) && Ready(s, pf, v, n) && !Short(s, pf, v, n)
    ensures var (s', status) := MapPages(s, pf, v, n);
            && status == (if FreeCount(FramePool(s, pf)) >= n then Mapped else OutOfFrames)
            && Steady(s') && Kept(s, s') && OnlyMaps(s, s', v, n)
            && (status == Mapped ==> Backed(s, s', pf, v, n))
            && FreeCount(FramePool(s', pf)) == (if status == Mapped then FreeCount(FramePool(s, pf)) - n else 0)
            && Slack(s') == Slack(s) - (if pf == Kernel then Least(n, FreeCount(s.kernelPool)) else 0)
            && (pf == Kernel ==> s'.userPool == s.userPool && NoNewTables(s, s'))
    decreases n
  {
    hide Translate, In, Palloc, AddPage, Steady, FreeCount, Short, Starved, UserCost, OnlyMaps, Kept, OnFrame;
    hide OneTaken, Slack;
    hide PageCost, HasTable;
    if n == 0 {
      NothingDone(s, v, 0);
    } else {
      PallocTakes(s, pf);
      var (s0, got) := Palloc(s, pf);
      if got == None {
        NothingDone(s, v, n);
      } else {
        FirstReady(s, pf, v, n);
        OnePageNotStarved(s, pf, v, n);
        OnePageOk(s, pf, v);
        var s1 := AddPage(s0, v, got.value).0;
        KeptVirt(s, s1);
        ReadyNext(s, s1, pf, v, n);
        CostStep(s, s1, pf, v, n);
        MapPagesOk(s1, pf, v + PG_SIZE, n - 1);
        var (s2, status) := MapPages(s1, pf, v + PG_SIZE, n - 1);
        KeptMore(s, s1, s2);
        OnlyMapsMore(s, s1, s2, v, n - 1);
        if status == Mapped { BackedMore(s, s1, s2, pf, v, n - 1); }
      }
    }
  }

  lemma NothingDone(s: Sys, v: nat, n: nat)
    ensures Kept(s, s) && OnlyMaps(s, s, v, n)
  {
    hide Translate, In;
    SameTablesKept(s, s);
  }

  lemma KeptVirt(s: Sys, s1: Sys)
    requires Kept(s, s1)
    ensures s1.kernelVirt == s.kernelVirt && s1.userVirt == s.userVirt && s.frames <= s1.frames
  {
  }

  lemma FirstReady(s: Sys, pf: Flags, v: nat, n: nat)
    requires Steady(s) && Ready(s, pf, v, n) && n > 0
    ensures In(VirtPool(s, pf), v) && Translate(s.mem, s.dir, v) == None && v < TWO32
  {
    hide Translate, In, Core;
    assert v + 0 * PG_SIZE == v;
    VirtManaged(s, pf, v);
    CoreRange(s, v);
  }

  lemma OnePageNotStarved(s: Sys, pf: Flags, v: nat, n: nat)
    requires !Short(s, pf, v, n) && n > 0 && FreeCount(FramePool(s, pf)) > 0
    ensures pf == User ==> !Starved(s, v)
  {
    hide Short, Starved, FreeCount;
    if pf == User && Starved(s, v) { StarvedIsShort(s, v, n); }
  }

  /** Coming up short is the same before and after a page that does not. */
  lemma ShortStep(s: Sys, s1: Sys, pf: Flags, v: nat, n: nat)
    requires Steady(s) && Ready(s, pf, v, n) && n > 0 && PageCost(s, s1, pf, v) && (pf == User ==> !Starved(s, v))
    requires FreeCount(FramePool(s, pf)) > 0
    ensures Short(s, pf, v, n) <==> Short(s1, pf, v + PG_SIZE, n - 1)
  {
    hide Translate, In, Starved, FreeCount, MissingFor, ZeroTable, AddCost, PdeIdx, Core, HistoryOk, OwnFrames;
    hide TablesUsed;
    if pf == User {
      var last := Least(n, FreeCount(s.userPool)) - 1;
      assert In(VirtPool(s, pf), v + last * PG_SIZE);
      VirtManaged(s, pf, v + last * PG_SIZE);
      CoreRange(s, v + last * PG_SIZE);
      ShortNext(s, s1, v, n);
    }
  }

  lemma CostStep(s: Sys, s1: Sys, pf: Flags, v: nat, n: nat)
    requires Steady(s) && Ready(s, pf, v, n) && n > 0 && PageCost(s, s1, pf, v) && (pf == User ==> !Starved(s, v))
    requires FreeCount(FramePool(s, pf)) > 0
    ensures Short(s, pf, v, n) <==> Short(s1, pf, v + PG_SIZE, n - 1)
    ensures Slack(s1) == Slack(s) - (if pf == Kernel then 1 else 0)
    ensures pf == Kernel ==> NoNewTables(s, s1)
    ensures FreeCount(FramePool(s1, pf)) == FreeCount(FramePool(s, pf)) - 1
  {
    hide Translate, In, Starved, FreeCount, ZeroTable, UserCost, Core, HistoryOk, OwnFrames, TablesUsed, Short;
    hide Ready, Slack, HasTable;
    ShortStep(s, s1, pf, v, n);
    FirstReady(s, pf, v, n);
    if pf == User {
      UserRange(s, v);
      SlackUser(s, s1, v);
    } else {
      SlackKernel(s, s1, v);
    }
  }

  lemma UserRange(s: Sys, v: nat)
    requires Steady(s) && In(s.userVirt, v)
    ensures 32 <= PdeIdx(v) < 768
  {
    assert USER_VADDR_START <= v < 0xc000_0000;
    hide In;
  }

  /** And when the supply does not last: two directory entries end up with one table. */
  lemma {:induction false} MapPagesShort(s: Sys, v: nat, n: nat)
    requires Steady(s) && Ready(s, User, v, n) && Short(s, User, v, n)
    ensures !OwnTables(MapPages(s, User, v, n).0)
    decreases n
  {
    hide Translate, In, Palloc, AddPage, Steady, FreeCount, Short, Starved, UserCost, OnlyMaps, Kept, OnFrame;
    hide OneTaken;
    hide OwnTables;
    if n == 0 || FreeCount(s.userPool) == 0 {
      NoPageNotShort(s, User, v, n);
    } else {
      PallocTakes(s, User);
      var (s0, got) := Palloc(s, User);
      FirstReady(s, User, v, n);
      if Starved(s, v) {
        StarvedPage(s, v);
        var (s1, status) := AddPage(s0, v, got.value);
        PallocKept(s, User, s0, got);
        PagesNext(s, s1, User, v, n);
        DirectoryStays(s1, User, v + PG_SIZE, n - 1);
      } else {
        OnePageOk(s, User, v);
        var s1 := AddPage(s0, v, got.value).0;
        KeptVirt(s, s1);
        ReadyNext(s, s1, User, v, n);
        ShortStep(s, s1, User, v, n);
        MapPagesShort(s1, v + PG_SIZE, n - 1);
      }
    }
  }

  lemma StarvedPage(s: Sys, v: nat)
    requires Steady(s) && In(s.userVirt, v) && Starved(s, v) && FreeCount(s.userPool) > 0
    ensures var (s0, got) := Palloc(s, User);
            && got != None
            && var (s1, status) := AddPage(s0, v, got.value);
               && status == Mapped && Layout(s1) && DirectoryOk(s1) && !OwnTables(s1)
               && s1.kernelVirt == s.kernelVirt && s1.userVirt == s.userVirt
  {
    hide Translate, In, Palloc, AddPage, FreeCount, OneTaken, HasTable, TableAt, ZeroTable, HistoryOk, Aligned;
    hide DirectoryOk, OwnTables, TablesUsed;
    PallocTakes(s, User);
    PallocFresh(s, User);
    var (s0, got) := Palloc(s, User);
    PallocKept(s, User, s0, got);
    SameEntries(s, s0);
    CoreSame(s, s0);
    VirtManaged(s, User, v);
    SameManaged(s, s0, v);
    var w := ZeroAddress(s0);
    StarvedLoses(s0, v, got.value, w);
    AddPageAny(s0, v, got.value);
  }

  lemma ZeroAddress(s: Sys) returns (w: nat)
    requires ZeroTable(s)
    ensures w < 0xffc0_0000 && HasTable(s, PdeIdx(w)) && TableAt(s, PdeIdx(w)) == 0
  {
    var i: nat :| i < 1023 && HasTable(s, i) && TableAt(s, i) == 0;
    w := i * 0x40_0000;
    assert PdeIdx(w) == i;
  }

  lemma PallocDirectory(s: Sys, pf: Flags)
    requires Layout(s) && DirectoryOk(s)
    ensures var (s0, got) := Palloc(s, pf);
            && Layout(s0) && DirectoryOk(s0) && (OwnTables(s0) <==> OwnTables(s))
            && s0.kernelVirt == s.kernelVirt && s0.userVirt == s.userVirt
            && (got != None ==> Aligned(got.value))
  {
    hide Translate, In, Free, Taken, Palloc, FreeCount, HasTable, TableAt, Aligned, PageAt;
    PallocTakes(s, pf);
    var (s0, got) := Palloc(s, pf);
    PallocKept(s, pf, s0, got);
    SameOwnTables(s, s0);
    if got != None {
      FreeMeans(FramePool(s, pf), got.value);
      PoolsApart(s, got.value);
      PallocPools(s, pf, s0, got);
      SameShape(s, s0);
      SameTables(s, s0);
    }
  }

  /** Directory entries that share a table go on sharing it, and the directory goes on mapping itself. */
  lemma {:induction false} DirectoryStays(s: Sys, pf: Flags, v: nat, n: nat)
    requires Layout(s) && DirectoryOk(s) && Pages(s, pf, v, n)
    ensures var s' := MapPages(s, pf, v, n).0; Layout(s') && DirectoryOk(s') && (!OwnTables(s) ==> !OwnTables(s'))
    decreases n
  {
    hide Translate, In, Palloc, AddPage, Layout, DirectoryOk, OwnTables, Aligned;
    if n > 0 {
      PallocDirectory(s, pf);
      var (s0, got) := Palloc(s, pf);
      if got != None {
        PagesNext(s, s, pf, v, n);
        VirtManaged(s, pf, v);
        SameManaged(s, s0, v);
        AddPageAny(s0, v, got.value);
        var (s1, status) := AddPage(s0, v, got.value);
        PagesNext(s, s1, pf, v, n);
        if status == Mapped { DirectoryStays(s1, pf, v + PG_SIZE, n - 1); }
      }
    }
  }

  // ---------------------------------------------------------------- the history alone

  /** The bitmaps do not depend on the page tables, so neither does what has been handed out. */
  ghost predicate HistoryGrows(s: Sys, s': Sys) {
    Layout(s') && HistoryOk(s') && s.frames <= s'.frames && s'.pages == s.pages
    && s'.kernelVirt == s.kernelVirt && s'.userVirt == s.userVirt
  }

  lemma AddPageHistory(s: Sys, v: nat, page: nat)
    requires Layout(s) && HistoryOk(s)
    ensures HistoryGrows(s, AddPage(s, v, page).0)
  {
    hide PageTableAdd, NeedsTable, Palloc, HistoryOk, FreeCount, OneTaken, Layout;
    PallocHistory(s, Kernel);
    PallocTakes(s, Kernel);
    var s1 := if NeedsTable(s.mem, s.dir, v) then Palloc(s, Kernel).0 else s;
    var s' := AddPage(s, v, page).0;
    assert s' == s1.(mem := s'.mem);
    SameHistory(s1, s');
    SameLayout(s1, s');
  }

  lemma {:induction false} MapPagesHistory(s: Sys, pf: Flags, v: nat, n: nat)
    requires Layout(s) && HistoryOk(s)
    ensures HistoryGrows(s, MapPages(s, pf, v, n).0)
    decreases n
  {
    hide Palloc, AddPage, HistoryOk, Layout, FreeCount, OneTaken;
    if n > 0 {
      PallocHistory(s, pf);
      PallocTakes(s, pf);
      var (s0, got) := Palloc(s, pf);
      if got != None {
        AddPageHistory(s0, v, got.value);
        var (s1, status) := AddPage(s0, v, got.value);
        if status == Mapped { MapPagesHistory(s1, pf, v + PG_SIZE, n - 1); }
      }
    }
  }
}
