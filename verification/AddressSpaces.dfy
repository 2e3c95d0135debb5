/**
  Many processes, each with a directory of its own and all with the kernel half in common: what one of them allocates
  leaves the others' address spaces as they were.
*/
module AddressSpaces {
  import opened Common
  import opened Paging
  import opened PagingMap
  import opened PageAlloc
  import opened PageSupply
  import opened PageAllocProofs
  import opened PageAllocRuns
  import opened PageRights
  import opened PageSteps
  import opened PoolInit
  import opened NewDirectory

  // ---------------------------------------------------------------- two address spaces

  /** The memory, the pools and the kernel's virtual pages in common. */
  ghost predicate SameMachine(s: Sys, t: Sys) {
    && t.mem == s.mem && t.kernelPool == s.kernelPool && t.userPool == s.userPool
    && t.kernelVirt == s.kernelVirt && t.frames == s.frames
  }

  /** No table of s is t's directory, and no table of s's own half is a table of t. */
  ghost predicate ClearOf(s: Sys, t: Sys) {
    && (forall i: nat :: i < 1023 && HasTable(s, i) ==> TableAt(s, i) != t.dir)
    && (forall i: nat, j: nat :: 32 <= i < 768 && j < 1023 && HasTable(s, i) && HasTable(t, j)
          ==> TableAt(s, i) != TableAt(t, j))
  }

  /** No frame is mapped in the own halves of both. */
  ghost predicate OwnFramesApart(s: Sys, t: Sys) {
    forall u: nat, x: nat :: OwnMapped(s, u) && OwnMapped(t, x)
      ==> Translate(s.mem, s.dir, u) != Translate(t.mem, t.dir, x)
  }

  ghost predicate KernelShared(s: Sys, t: Sys) {
    forall i: nat :: 768 <= i < 1023 ==> TableAt(s, i) == TableAt(t, i)
  }

  /** Page 0 is a table of one of them at most. */
  ghost predicate OneZero(s: Sys, t: Sys) {
    !(ZeroTable(s) && ZeroTable(t))
  }

  /** Two address spaces side by side: nothing in common but the kernel half. */
  ghost predicate Beside(s: Sys, t: Sys) {
    && SameMachine(s, t) && s.dir != t.dir && ClearOf(s, t) && ClearOf(t, s)
    && KernelShared(s, t) && OwnFramesApart(s, t) && OneZero(s, t)
  }

  /** The process's own pages are on frames of the user pool, where no table or directory ever is. */
  ghost predicate OwnInUserPool(s: Sys) {
    forall u: nat :: OwnMapped(s, u) ==> In(s.userPool, Translate(s.mem, s.dir, u).value)
  }

  /** An address space in good order. */
  ghost predicate Good(s: Sys) {
    Inv(s) && OwnInUserPool(s) && OwnHalfOpen(s)
  }

  /** Kernel pages are taken as they are handed out. */
  ghost predicate VirtGrow(s: Sys, s': Sys) {
    && SameVirtShape(s, s')
    && (forall v: nat :: Taken(s.kernelVirt, v) ==> Taken(s'.kernelVirt, v))
    && s.pages <= s'.pages && forall v <- s'.pages[|s.pages|..] :: v >= K_HEAP_START ==> !Taken(s.kernelVirt, v)
  }

  /** t, once s has become s'. */
  function Beheld(s: Sys, s': Sys, t: Sys): Sys
    requires s.pages <= s'.pages
  {
    t.(mem := s'.mem, kernelPool := s'.kernelPool, userPool := s'.userPool, kernelVirt := s'.kernelVirt,
       frames := s'.frames, pages := t.pages + KernelPages(s'.pages[|s.pages|..]))
  }

  // ---------------------------------------------------------------- what s writes is nothing of t's

  /** A word that t's walks read: in t's directory or in a table of t. */
  ghost predicate Read(t: Sys, f: nat) {
    f == t.dir || exists i: nat :: i < 1023 && HasTable(t, i) && TableAt(t, i) == f
  }

  /** Nothing that t's walks read is a frame still to be had, and page 0 only if it is a table. */
  lemma ReadsTaken(t: Sys, f: nat)
    requires Good(t) && Read(t, f)
    ensures !Free(t.kernelPool, f) && !Free(t.userPool, f) && (f == 0 ==> ZeroTable(t))
  {
    FreeMeans(t.userPool, f);
    hide Free, In, HasTable, TableAt;
  }

  lemma PresentKept(s: Sys, s': Sys, t: Sys, a: nat)
    requires Good(t) && SameMachine(s, t) && Steps(s, s') && OneZero(s', t)
    requires Read(t, PageOf(a)) && Present(Word(t.mem, a))
    ensures Word(s'.mem, a) == Word(t.mem, a)
  {
    hide Good, Read, Free, Translate, IsTable, PageOf, HasTable, TableAt;
    ReadsTaken(t, PageOf(a));
    assert Word(s'.mem, a) != Word(s.mem, a) ==> MayWrite(s, s', a);
    assert NewFrame(s, s', PageOf(a)) ==> Free(s.kernelPool, PageOf(a)) || Free(s.userPool, PageOf(a));
  }

  /** A page of t that is neither s's directory nor one of its tables. */
  lemma NotWritten(s: Sys, s': Sys, t: Sys, a: nat)
    requires Good(t) && SameMachine(s, t) && Steps(s, s') && Read(t, PageOf(a))
    requires PageOf(a) != s.dir && !IsTable(s, PageOf(a)) && (PageOf(a) != 0 || OneZero(s', t))
    ensures Word(s'.mem, a) == Word(t.mem, a)
  {
    hide Good, Read, Free, Translate, IsTable, PageOf, HasTable, TableAt;
    ReadsTaken(t, PageOf(a));
    assert Word(s'.mem, a) != Word(s.mem, a) ==> MayWrite(s, s', a);
    assert NewFrame(s, s', PageOf(a)) ==> Free(s.kernelPool, PageOf(a)) || Free(s.userPool, PageOf(a));
  }

  /** t's directory is as it was. */
  ghost predicate SameDirectory(s': Sys, t: Sys) {
    forall i: nat :: i <= 1023 ==> PdeAt(s'.mem, t.dir, i) == PdeAt(t.mem, t.dir, i)
  }

  lemma DirectoryKept(s: Sys, s': Sys, t: Sys)
    requires Good(t) && Beside(s, t) && Steps(s, s')
    ensures SameDirectory(s', t)
  {
    hide Steps, Free, Translate, PageOf, HasTable, TableAt, OwnFramesApart, KernelShared;
    NotATableOf(s, t);
    DirAligned(t);
    forall i: nat | i <= 1023
      ensures PdeAt(s'.mem, t.dir, i) == PdeAt(t.mem, t.dir, i)
    {
      EntryInPage(t.dir, i);
      NotWritten(s, s', t, t.dir + 4 * i);
    }
  }

  lemma DirAligned(t: Sys)
    requires Good(t)
    ensures Aligned(t.dir) && 0 < t.dir < TWO32 && Core(t) && Layout(t) && HistoryOk(t)
  {
  }

  lemma NotATableOf(s: Sys, t: Sys)
    requires ClearOf(s, t)
    ensures !IsTable(s, t.dir)
  {
    hide HasTable, TableAt;
  }

  lemma OwnTableUnwritten(s: Sys, s': Sys, t: Sys, i: nat)
    requires Good(t) && Beside(s, t) && Steps(s, s') && OneZero(s', t) && 32 <= i < 768 && HasTable(t, i)
    ensures forall a: nat :: PageOf(a) == TableAt(t, i) ==> Word(s'.mem, a) == Word(t.mem, a)
  {
    hide Steps, Free, Translate, PageOf, HasTable, TableAt, OwnFramesApart, KernelShared, Good;
    assert !IsTable(s, TableAt(t, i));
    forall a: nat | PageOf(a) == TableAt(t, i)
      ensures Word(s'.mem, a) == Word(t.mem, a)
    {
      assert Read(t, TableAt(t, i));
      NotWritten(s, s', t, a);
    }
  }

  /** In its own half t maps what it did, where it did. */
  lemma OwnHalfKept(s: Sys, s': Sys, t: Sys, u: nat)
    requires Good(t) && Beside(s, t) && Steps(s, s') && OneZero(s', t) && SameDirectory(s', t) && 32 <= PdeIdx(u) < 768
    ensures Translate(s'.mem, t.dir, u) == Translate(t.mem, t.dir, u)
    ensures HasTable(t, PdeIdx(u)) ==> Pte(s'.mem, t.dir, u) == Pte(t.mem, t.dir, u)
  {
    hide Steps, Beside, PdeIdx, PageOf, Good;
    assert Pde(s'.mem, t.dir, u) == Pde(t.mem, t.dir, u);
    if HasTable(t, PdeIdx(u)) {
      OwnTableUnwritten(s, s', t, PdeIdx(u));
      PteInTable(Pde(t.mem, t.dir, u), u);
      assert Word(s'.mem, PteAddress(Pde(t.mem, t.dir, u), u)) == Word(t.mem, PteAddress(Pde(t.mem, t.dir, u), u));
    }
  }

  lemma PteInTable(pde: nat, v: nat)
    ensures PageOf(PteAddress(pde, v)) == PageOf(pde)
  {
    PageOfAligned(pde);
    EntryInPage(PageOf(pde), PteIdx(v));
  }

  /** Nothing t had mapped anywhere is lost. */
  lemma OthersKept(s: Sys, s': Sys, t: Sys, w: nat)
    requires Good(t) && Beside(s, t) && Steps(s, s') && OneZero(s', t) && SameDirectory(s', t)
    requires w < TWO32 && Translate(t.mem, t.dir, w) != None
    ensures Translate(s'.mem, t.dir, w) == Translate(t.mem, t.dir, w)
  {
    hide Steps, Beside, PageOf, Good, Aligned;
    DirAligned(t);
    WalkParts(t.mem, t.dir, w);
    assert Pde(s'.mem, t.dir, w) == Pde(t.mem, t.dir, w);
    TableRead(t, w);
    PteInTable(Pde(t.mem, t.dir, w), w);
    SharesMachine(s, t);
    PresentKept(s, s', t, PteAddress(Pde(t.mem, t.dir, w), w));
  }

  lemma SharesMachine(s: Sys, t: Sys)
    requires Beside(s, t)
    ensures SameMachine(s, t)
  {
  }

  lemma TableRead(t: Sys, w: nat)
    requires Good(t) && PdeIdx(w) <= 1023 && Present(Pde(t.mem, t.dir, w))
    ensures Read(t, PageOf(Pde(t.mem, t.dir, w)))
  {
    if PdeIdx(w) < 1023 { assert HasTable(t, PdeIdx(w)) && TableAt(t, PdeIdx(w)) == PageOf(Pde(t.mem, t.dir, w)); }
  }

  /** In the kernel half both map the same. */
  lemma KernelHalfSame(s: Sys, s': Sys, t: Sys, w: nat)
    requires Good(s) && Good(s') && Good(t) && Beside(s, t) && Steps(s, s')
    requires SameDirectory(s', t) && 768 <= PdeIdx(w) < 1023
    ensures Translate(s'.mem, t.dir, w) == Translate(s'.mem, s'.dir, w)
  {
    var i := PdeIdx(w);
    KernelEntries(s, s', t, i);
    hide PdeIdx, PageOf, Good, Beside, Steps, SameDirectory;
    assert PteAddress(Pde(s'.mem, t.dir, w), w) == PteAddress(Pde(s'.mem, s'.dir, w), w);
  }

  lemma KernelEntries(s: Sys, s': Sys, t: Sys, i: nat)
    requires Good(s) && Good(s') && Good(t) && Beside(s, t) && Steps(s, s') && SameDirectory(s', t) && 768 <= i < 1023
    ensures Present(PdeAt(s'.mem, t.dir, i)) && Present(PdeAt(s'.mem, s'.dir, i))
    ensures PageOf(PdeAt(s'.mem, t.dir, i)) == PageOf(PdeAt(s'.mem, s'.dir, i))
  {
    assert HasTable(t, i) && HasTable(s, i) && HasTable(s', i);
    assert TableAt(s', i) == TableAt(s, i) == TableAt(t, i);
    hide PageOf;
  }

  // ---------------------------------------------------------------- t afterwards

  /** What is known of t afterwards, all that its invariant needs. */
  ghost predicate Follows(s': Sys, t: Sys, t': Sys) {
    && t'.dir == t.dir && t'.mem == s'.mem && t'.userVirt == t.userVirt && t'.kernelVirt == s'.kernelVirt
    && t'.kernelPool == s'.kernelPool && t'.userPool == s'.userPool && t'.frames == s'.frames
    && (forall i: nat :: i <= 1023 ==> PdeAt(t'.mem, t'.dir, i) == PdeAt(t.mem, t.dir, i))
    && (forall u: nat :: 32 <= PdeIdx(u) < 768 ==> Translate(t'.mem, t'.dir, u) == Translate(t.mem, t.dir, u))
    && (forall u: nat :: 32 <= PdeIdx(u) < 768 && HasTable(t, PdeIdx(u)) ==> Pte(t'.mem, t'.dir, u) == Pte(t.mem, t.dir, u))
    && (forall w: nat :: 768 <= PdeIdx(w) < 1023 ==> Translate(t'.mem, t'.dir, w) == Translate(s'.mem, s'.dir, w))
    && (forall w: nat :: w < TWO32 && Translate(t.mem, t.dir, w) != None
          ==> Translate(t'.mem, t'.dir, w) == Translate(t.mem, t.dir, w))
  }

  lemma FollowsOn(s: Sys, s': Sys, t: Sys)
    requires Good(s) && Good(s') && Good(t) && Beside(s, t) && Steps(s, s') && OneZero(s', t) && s.pages <= s'.pages
    ensures Follows(s', t, Beheld(s, s', t))
  {
    hide Good, Beside, Steps, Translate, PdeIdx, KernelPages, PdeAt;
    DirectoryKept(s, s', t);
    var t' := Beheld(s, s', t);
    forall u: nat | 32 <= PdeIdx(u) < 768
      ensures Translate(t'.mem, t'.dir, u) == Translate(t.mem, t.dir, u)
      ensures HasTable(t, PdeIdx(u)) ==> Pte(t'.mem, t'.dir, u) == Pte(t.mem, t.dir, u)
    {
      OwnHalfKept(s, s', t, u);
    }
    forall w: nat | 768 <= PdeIdx(w) < 1023
      ensures Translate(t'.mem, t'.dir, w) == Translate(s'.mem, s'.dir, w)
    {
      KernelHalfSame(s, s', t, w);
    }
    forall w: nat | w < TWO32 && Translate(t.mem, t.dir, w) != None
      ensures Translate(t'.mem, t'.dir, w) == Translate(t.mem, t.dir, w)
    {
      OthersKept(s, s', t, w);
    }
  }

  lemma FollowsEntries(s': Sys, t: Sys, t': Sys)
    requires Follows(s', t, t')
    ensures forall i: nat :: i <= 1023 ==> (HasTable(t', i) <==> HasTable(t, i)) && TableAt(t', i) == TableAt(t, i)
    ensures SelfMapped(t'.mem, t'.dir) <==> SelfMapped(t.mem, t.dir)
  {
    hide Translate, PdeIdx, PageOf;
  }

  lemma FollowsCore(s: Sys, s': Sys, t: Sys, t': Sys)
    requires Good(t) && SameMachine(s, t) && PoolsGrow(s, s') && VirtGrow(s, s') && Follows(s', t, t')
    ensures Core(t') && (ZeroTable(t') <==> ZeroTable(t))
  {
    hide Translate, PdeAt, PageOf, Free, In, SelfMapped, Taken, HistoryOk, OwnFrames, TablesUsed, Untouched, PdeIdx;
    FollowsEntries(s', t, t');
    SameShape(t, t');
    forall a: nat
      ensures In(t'.userPool, a) <==> In(t.userPool, a)
    {
      SameIn(t.userPool, t'.userPool, a);
    }
    hide HasTable, TableAt, Aligned;
  }

  lemma VirtualHalves(s: Sys, v: nat)
    requires Layout(s)
    ensures In(s.kernelVirt, v) ==> 768 <= PdeIdx(v) < 1023 && v >= K_HEAP_START
    ensures In(s.userVirt, v) ==> 32 <= PdeIdx(v) < 768 && v < K_HEAP_START
  {
    if In(s.userVirt, v) { assert USER_VADDR_START <= v < 0xc000_0000; }
    if In(s.kernelVirt, v) { KernelRange(s, v); }
  }

  lemma FollowsHistory(s: Sys, s': Sys, t: Sys, t': Sys)
    requires Good(s') && Good(t) && SameMachine(s, t) && VirtGrow(s, s') && Follows(s', t, t') && t' == Beheld(s, s', t)
    ensures HistoryOk(t')
  {
    hide Translate, PdeAt, PageOf, Free, In, Taken, OwnFrames, TablesUsed, Untouched, Core, KernelPages, PdeIdx;
    hide ZeroTable, Follows;
    LayoutOf(t);
    LayoutOf(s');
    var added := s'.pages[|s.pages|..];
    var extra := KernelPages(added);
    NoDupSuffix(s'.pages, |s.pages|);
    KernelPagesOnce(added);
    forall v | v in extra
      ensures Taken(s'.kernelVirt, v) && v !in t.pages
    {
      assert v in s'.pages;
      KernelPageTaken(s', v);
      if v in t.pages { KernelPageTaken(t, v); }
    }
    NoDupAppend(t.pages, extra);
    forall v | v in t.pages
      ensures PageTaken(t', v)
    {
      assert PageTaken(t, v);
    }
  }

  lemma LayoutOf(s: Sys)
    requires Good(s)
    ensures Layout(s) && HistoryOk(s)
  {
  }

  lemma NoDupSuffix(xs: seq<nat>, n: nat)
    requires NoDup(xs) && n <= |xs|
    ensures NoDup(xs[n..])
  {
  }

  lemma KernelPageTaken(s: Sys, v: nat)
    requires Layout(s) && HistoryOk(s) && v in s.pages && v >= K_HEAP_START
    ensures Taken(s.kernelVirt, v)
  {
    assert PageTaken(s, v);
    FreeMeans(s.userVirt, v);
    VirtualHalves(s, v);
    hide Taken, In;
  }

  lemma FollowsUntouched(s: Sys, s': Sys, t: Sys, t': Sys)
    requires Good(s') && Good(t) && Follows(s', t, t')
    ensures Untouched(t')
  {
    hide Translate, PdeAt, PageOf, Taken, In, OwnFrames, TablesUsed, HistoryOk, PdeIdx, ZeroTable;
    DirAligned(s');
    DirAligned(t);
    hide Core, Layout;
    forall w: nat | Unclaimed(t', w)
      ensures Translate(t'.mem, t'.dir, w) == None
    {
      VirtualHalves(t, w);
      VirtualHalves(s', w);
      FreeMeans(t.userVirt, w);
      FreeMeans(s'.kernelVirt, w);
      assert Free(t.userVirt, w) ==> Unclaimed(t, w);
      assert Free(s'.kernelVirt, w) ==> Unclaimed(s', w);
    }
  }

  /** A mapped page of t afterwards: one it had, on the frame it had; or a kernel page newly mapped, on a new frame. */
  lemma FollowsPage(s: Sys, s': Sys, t: Sys, t': Sys, w: nat)
    requires Good(s) && Good(s') && Good(t) && Beside(s, t) && Steps(s, s')
    requires VirtGrow(s, s') && Follows(s', t, t') && MappedPage(t', w)
    ensures if MappedPage(t, w) then Translate(t'.mem, t'.dir, w) == Translate(t.mem, t.dir, w)
            else MappedPage(s', w) && In(s'.kernelVirt, w) && Translate(t'.mem, t'.dir, w) == Translate(s'.mem, s'.dir, w)
                 && NewFrame(s, s', Translate(t'.mem, t'.dir, w).value)
  {
    hide Translate, PdeAt, PageOf, Taken, In, OwnTables, TablesOk, KernelTables, TablesUsed, HistoryOk, PdeIdx;
    hide ZeroTable, WritesOwn, PoolsGrow, TablesKept, HasTable, TableAt, KernelShared, ClearOf, OwnFramesApart;
    LayoutOf(t);
    LayoutOf(s');
    LayoutOf(s);
    VirtualHalves(t, w);
    VirtualHalves(s', w);
    SameIn(s.kernelVirt, s'.kernelVirt, w);
    if In(t.userVirt, w) {
      assert MappedPage(t, w);
    } else {
      ManagedRange(s', w);
      assert OnDataFrame(s', w);
      KernelSame(s, t, w);
    }
  }

  /** The kernel half of two spaces side by side. */
  lemma KernelSame(s: Sys, t: Sys, w: nat)
    requires Good(s) && Good(t) && Beside(s, t) && 768 <= PdeIdx(w) < 1023
    ensures Translate(t.mem, t.dir, w) == Translate(s.mem, s.dir, w)
  {
    var i := PdeIdx(w);
    assert HasTable(s, i) && HasTable(t, i) && TableAt(s, i) == TableAt(t, i);
    hide PdeIdx, PageOf;
    assert PteAddress(Pde(t.mem, t.dir, w), w) == PteAddress(Pde(s.mem, s.dir, w), w);
  }

  lemma NewFrameNoTable(s: Sys, s': Sys, t: Sys, t': Sys, f: nat)
    requires Good(t) && SameMachine(s, t) && PoolsGrow(s, s') && NewFrame(s, s', f) && Follows(s', t, t')
    ensures NoTable(t', f) && f !in t.frames
  {
    hide Translate, PdeAt, PageOf, Free, Taken, In, HistoryOk, OwnFrames, TablesUsed, Untouched, PdeIdx;
    hide OwnTables, KernelTables, ZeroTable;
    FollowsEntries(s', t, t');
    FreeMeans(s.kernelPool, f);
    FreeMeans(s.userPool, f);
    DirAligned(t);
    ZeroInNoPool(t);
    hide HasTable, TableAt;
  }

  lemma FollowsFrames(s: Sys, s': Sys, t: Sys, t': Sys)
    requires Good(s) && Good(s') && Good(t) && Beside(s, t) && Steps(s, s') && VirtGrow(s, s') && Follows(s', t, t')
    ensures OwnFrames(t')
  {
    hide Translate, PdeAt, PageOf, Taken, In, Free, PdeIdx, ZeroTable, WritesOwn, PoolsGrow, TablesKept;
    hide HasTable, TableAt, KernelShared, ClearOf, OwnFramesApart, Core, HistoryOk, TablesUsed, Untouched;
    hide VirtGrow, MappedPage, NewMapsFresh, TranslationsKept, NoTable;
    forall w: nat | MappedPage(t', w)
      ensures OnDataFrame(t', w)
    {
      FollowsPage(s, s', t, t', w);
      if MappedPage(t, w) {
        assert OnDataFrame(t, w);
        FollowsNoTable(s', t, t', Translate(t.mem, t.dir, w).value);
      } else {
        assert OnDataFrame(s', w);
        NewFrameNoTable(s, s', t, t', Translate(t'.mem, t'.dir, w).value);
      }
    }
    forall w: nat, x: nat | MappedPage(t', w) && MappedPage(t', x) && w != x
      ensures Translate(t'.mem, t'.dir, w) != Translate(t'.mem, t'.dir, x)
    {
      FollowsPage(s, s', t, t', w);
      FollowsPage(s, s', t, t', x);
      assert MappedPage(t, w) ==> OnDataFrame(t, w);
      assert MappedPage(t, x) ==> OnDataFrame(t, x);
    }
  }

  lemma FollowsNoTable(s': Sys, t: Sys, t': Sys, f: nat)
    requires Follows(s', t, t')
    ensures NoTable(t, f) ==> NoTable(t', f)
  {
    FollowsEntries(s', t, t');
    hide HasTable, TableAt, Translate;
  }

  lemma FollowsUsed(s: Sys, s': Sys, t: Sys, t': Sys)
    requires Good(t) && Follows(s', t, t')
    ensures TablesUsed(t')
  {
    hide Translate, PdeAt, PageOf, In, PdeIdx, ZeroTable, HistoryOk, OwnFrames, Untouched;
    FollowsEntries(s', t, t');
    DirAligned(t);
    hide Core;
    forall i: nat | 32 <= i < 768 && HasTable(t', i)
      ensures exists w: nat :: Uses(t', i, w)
    {
      assert HasTable(t, i);
      var w: nat :| Uses(t, i, w);
      VirtualHalves(t, w);
      assert Uses(t', i, w);
    }
  }

  lemma FollowsPool(s: Sys, s': Sys, t: Sys, t': Sys)
    requires Good(t) && SameMachine(s, t) && PoolsGrow(s, s') && Follows(s', t, t')
    ensures OwnInUserPool(t')
  {
    hide Translate, PdeAt, PageOf, In, Free, PdeIdx, Inv, ZeroTable;
    LayoutOf(t);
    forall u: nat | OwnMapped(t', u)
      ensures In(t'.userPool, Translate(t'.mem, t'.dir, u).value)
    {
      VirtualHalves(t, u);
      assert OwnMapped(t, u);
      SameIn(t.userPool, t'.userPool, Translate(t'.mem, t'.dir, u).value);
    }
  }

  /** What the other process could use it still can. */
  lemma FollowsOpen(s': Sys, t: Sys, t': Sys)
    requires Good(t) && Follows(s', t, t')
    ensures OwnHalfOpen(t')
  {
    LayoutOf(t);
    FollowsEntries(s', t, t');
    hide Translate, In, PdeIdx, Inv, OwnInUserPool, Open, PageOf, Layout;
    forall i: nat | 32 <= i < 768 && HasTable(t', i)
      ensures Open(PdeAt(t'.mem, t'.dir, i))
    {
      assert HasTable(t, i);
    }
    forall u: nat | OwnMapped(t', u)
      ensures UserWrites(t'.mem, t'.dir, u)
    {
      VirtualHalves(t, u);
      assert OwnMapped(t, u) && UserWrites(t.mem, t.dir, u);
      assert HasTable(t, PdeIdx(u));
    }
  }

  /** Nor does the process that ran get a page anywhere but there. */
  lemma OwnPool(s: Sys, s': Sys)
    requires Good(s) && Steps(s, s') && VirtGrow(s, s')
    ensures OwnInUserPool(s')
  {
    LayoutOf(s);
    hide Translate, In, Free, Taken, Inv, ZeroTable, TablesKept, WritesOwn, PdeIdx, Layout;
    forall u: nat | OwnMapped(s', u)
      ensures In(s'.userPool, Translate(s'.mem, s'.dir, u).value)
    {
      SameIn(s.userVirt, s'.userVirt, u);
      VirtualHalves(s, u);
      InBound(u);
      SameIn(s.userPool, s'.userPool, Translate(s'.mem, s'.dir, u).value);
      if Translate(s.mem, s.dir, u) != None { assert OwnMapped(s, u); } else { assert Managed(s, u); }
    }
  }

  /** The other space is in good order still. */
  lemma OtherGood(s: Sys, s': Sys, t: Sys)
    requires Good(s) && Good(s') && Good(t) && Beside(s, t) && Steps(s, s') && VirtGrow(s, s') && OneZero(s', t)
    ensures Good(Beheld(s, s', t)) && Follows(s', t, Beheld(s, s', t))
  {
    hide Beheld, Beside, Steps, VirtGrow, Follows, Core, HistoryOk, OwnFrames, TablesUsed, Untouched, ZeroTable;
    hide OwnInUserPool;
    hide OwnHalfOpen;
    GrowsPages(s, s');
    var t' := Beheld(s, s', t);
    FollowsOn(s, s', t);
    SharesMachine(s, t);
    StepsPools(s, s');
    FollowsCore(s, s', t, t');
    FollowsHistory(s, s', t, t');
    FollowsUntouched(s, s', t, t');
    FollowsFrames(s, s', t, t');
    FollowsUsed(s, s', t, t');
    FollowsPool(s, s', t, t');
    FollowsOpen(s', t, t');
  }

  lemma GrowsPages(s: Sys, s': Sys)
    requires VirtGrow(s, s')
    ensures s.pages <= s'.pages
  {
  }

  lemma StepsPools(s: Sys, s': Sys)
    requires Steps(s, s')
    ensures PoolsGrow(s, s') && TablesKept(s, s') && TranslationsKept(s, s') && s'.dir == s.dir && s.frames <= s'.frames && NewMapsFresh(s, s')
  {
  }

  // ---------------------------------------------------------------- still side by side

  lemma ClearStays(s: Sys, s': Sys, t: Sys, t': Sys)
    requires Good(s') && Good(t) && Beside(s, t) && Steps(s, s') && OneZero(s', t) && Follows(s', t, t')
    ensures ClearOf(s', t') && ClearOf(t', s')
  {
    hide Translate, PdeAt, PageOf, In, Free, Taken, PdeIdx, Good, OwnFramesApart, SameMachine, KernelShared;
    hide TranslationsKept, NewMapsFresh, WritesOwn;
    FollowsEntries(s', t, t');
    DirAligned(t);
    hide Core, Layout, HistoryOk;
    forall f: nat
      ensures NewFrame(s, s', f) ==> f != t.dir
      ensures NewFrame(s, s', f) ==> forall j: nat :: j < 1023 && HasTable(t, j) ==> TableAt(t, j) != f
    {
      if NewFrame(s, s', f) { NewFrameUnread(s, s', t, f); }
    }
    assert forall i: nat :: i < 1023 && HasTable(s', i) && !HasTable(s, i) ==> TableAt(s', i) == 0 || NewFrame(s, s', TableAt(s', i));
    hide HasTable, TableAt, NewFrame;
  }

  lemma NewFrameUnread(s: Sys, s': Sys, t: Sys, f: nat)
    requires Good(t) && SameMachine(s, t) && PoolsGrow(s, s') && NewFrame(s, s', f)
    ensures !Read(t, f)
  {
    hide Good, Read, Free;
    if Read(t, f) { ReadsTaken(t, f); }
  }

  lemma SharedStays(s: Sys, s': Sys, t: Sys, t': Sys)
    requires Good(s) && Beside(s, t) && Steps(s, s') && Follows(s', t, t')
    ensures KernelShared(s', t') && SameMachine(s', t')
  {
    hide Translate, PdeAt, PageOf, In, Free, PdeIdx, OwnFramesApart, ClearOf, TranslationsKept, NewMapsFresh;
    hide WritesOwn;
    FollowsEntries(s', t, t');
    KernelTablesOf(s);
    hide HasTable, TableAt, Good;
  }

  lemma KernelTablesOf(s: Sys)
    requires Good(s)
    ensures KernelTables(s)
  {
  }

  lemma FramesStayApart(s: Sys, s': Sys, t: Sys, t': Sys)
    requires Good(s) && Good(s') && Good(t) && Beside(s, t) && Steps(s, s') && VirtGrow(s, s') && Follows(s', t, t')
    ensures OwnFramesApart(s', t')
  {
    hide Translate, PdeAt, PageOf, In, Free, Taken, PdeIdx, ClearOf, KernelShared, PoolsGrow, WritesOwn;
    hide TablesKept, Core, HistoryOk, TablesUsed, Untouched, ZeroTable, NoTable;
    LayoutOf(s);
    LayoutOf(t);
    hide Layout;
    forall u: nat, x: nat | OwnMapped(s', u) && OwnMapped(t', x)
      ensures Translate(s'.mem, s'.dir, u) != Translate(t'.mem, t'.dir, x)
    {
      VirtualHalves(t, x);
      SameIn(s.userVirt, s'.userVirt, u);
      VirtualHalves(s, u);
      InBound(u);
      assert OwnMapped(t, x);
      assert MappedPage(t, x) && OnDataFrame(t, x);
      assert Managed(s, u);
      if Translate(s.mem, s.dir, u) != None { assert OwnMapped(s, u); }
    }
  }

  lemma InBound(u: nat)
    ensures PdeIdx(u) < 768 ==> u < TWO32
  {
  }

  lemma FollowsZero(s': Sys, t: Sys, t': Sys)
    requires Follows(s', t, t')
    ensures ZeroTable(t') <==> ZeroTable(t)
  {
    FollowsEntries(s', t, t');
    hide Follows, HasTable, TableAt;
  }

  /** The process that ran, beside every other one. */
  lemma BesideAfter(s: Sys, s': Sys, t: Sys, t': Sys)
    requires Good(s) && Good(s') && Good(t) && Beside(s, t) && Steps(s, s')
    requires VirtGrow(s, s') && OneZero(s', t) && Follows(s', t, t')
    ensures Beside(s', t')
  {
    FollowsZero(s', t, t');
    ClearStays(s, s', t, t');
    SharedStays(s, s', t, t');
    FramesStayApart(s, s', t, t');
    hide Translate, ClearOf, KernelShared, OwnFramesApart, SameMachine, PdeAt, PdeIdx, Good, TablesKept;
    hide TranslationsKept, WritesOwn, PoolsGrow, NewMapsFresh, ZeroTable;
  }

  /** Any two others, beside each other. */
  lemma BesideOthers(s': Sys, t: Sys, t': Sys, r: Sys, r': Sys)
    requires Good(t) && Good(r) && Beside(t, r) && Follows(s', t, t') && Follows(s', r, r')
    ensures Beside(t', r')
  {
    FollowsZero(s', t, t');
    FollowsZero(s', r, r');
    FollowsEntries(s', t, t');
    FollowsEntries(s', r, r');
    LayoutOf(t);
    LayoutOf(r);
    hide Translate, PdeAt, PageOf, In, PdeIdx, HasTable, TableAt, Good, Layout;
    forall u: nat
      ensures OwnMapped(t', u) ==> OwnMapped(t, u) && Translate(t'.mem, t'.dir, u) == Translate(t.mem, t.dir, u)
      ensures OwnMapped(r', u) ==> OwnMapped(r, u) && Translate(r'.mem, r'.dir, u) == Translate(r.mem, r.dir, u)
    {
      VirtualHalves(t, u);
      VirtualHalves(r, u);
    }
    hide OwnMapped;
  }
}
