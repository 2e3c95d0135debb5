/** Whole calls of malloc_page, and runs of them. */
module PageAllocRuns {
  import opened Common
  import opened Paging
  import opened PagingMap
  import opened PageAlloc
  import opened PageSupply
  import opened PageAllocProofs

  // ---------------------------------------------------------------- virtual pages

  lemma RunPage(a: nat, n: nat, x: nat)
    ensures x in Run(a, n) <==> exists i: nat :: i < n && x == a + i * PG_SIZE
  {
    var r := Run(a, n);
    if i: nat :| i < n && x == a + i * PG_SIZE {
      assert r[i] == x;
    }
    if x in r {
      var i :| 0 <= i < |r| && r[i] == x;
      assert x == a + i * PG_SIZE;
    }
  }

  lemma RunDistinct(a: nat, n: nat)
    ensures NoDup(Run(a, n))
  {
  }

  /** The range is the same but for n pages from a on, which were free and are taken. */
  ghost predicate ManyTaken(p: Pool, p': Pool, a: nat, n: nat) {
    && p'.start == p.start && |p'.bits| == |p.bits| && p.start <= a && a + n * PG_SIZE <= End(p)
    && (forall i: nat :: i < n ==> Free(p, a + i * PG_SIZE) && Taken(p', a + i * PG_SIZE))
    && (forall w: nat :: Free(p', w) <==> Free(p, w) && !(a <= w < a + n * PG_SIZE))
    && (forall w: nat :: Taken(p, w) ==> Taken(p', w))
  }

  lemma TakeMany(p: Pool, i: nat, n: nat)
    requires Clear(p.bits, i, n)
    ensures ManyTaken(p, Take(p, i, n), PageAt(p, i), n)
  {
    hide Free, Taken, In;
    var a, p' := PageAt(p, i), Take(p, i, n);
    forall k: nat | k < n
      ensures Free(p, a + k * PG_SIZE) && Taken(p', a + k * PG_SIZE)
    {
      ClearIsFree(p, i, n, k);
    }
    forall w: nat
      ensures Free(p', w) <==> Free(p, w) && !(a <= w < a + n * PG_SIZE)
      ensures Taken(p, w) ==> Taken(p', w)
    {
      TakeEffect(p, i, n, w);
    }
  }

  /** n pages from a on go from free to taken, and into the history; nothing else differs. */
  ghost predicate HandsOut(s: Sys, pf: Flags, n: nat, s': Sys, a: nat) {
    && ManyTaken(VirtPool(s, pf), VirtPool(s', pf), a, n)
    && s' == (if pf == Kernel then s.(kernelVirt := s'.kernelVirt) else s.(userVirt := s'.userVirt))
            .(pages := s.pages + Run(a, n))
  }

  /** The ASSERT on user addresses. */
  function AnswerFor(pf: Flags, a: nat): Got {
    if pf == User && a >= 0xc000_0000 - PG_SIZE then Stopped else Got(a)
  }

  lemma VirtsApart(s: Sys, v: nat)
    requires Layout(s)
    ensures s.userVirt.start <= v < End(s.userVirt) ==> v < s.kernelVirt.start
  {
  }

  /** Whatever the page tables hold, virtual pages come new out of their bitmap. */
  lemma VaddrHistory(s: Sys, pf: Flags, n: nat, s': Sys, a: nat)
    requires Layout(s) && HistoryOk(s) && HandsOut(s, pf, n, s', a)
    ensures Layout(s') && HistoryOk(s') && s'.frames == s.frames && s.pages <= s'.pages
    ensures forall w: nat :: Unclaimed(s', w) ==> Unclaimed(s, w) && !(a <= w < a + n * PG_SIZE)
    ensures forall x <- Run(a, n) :: x !in s.pages
  {
    hide Free, Taken, In, PageAt, Aligned;
    SameShape(s, s');
    forall w: nat
      ensures Unclaimed(s', w) ==> Unclaimed(s, w) && !(a <= w < a + n * PG_SIZE)
      ensures PageTaken(s, w) ==> PageTaken(s', w)
    {
      VirtsApart(s, w);
      FreeMeans(s.kernelVirt, w);
      FreeMeans(s.userVirt, w);
      InRange(s.kernelVirt, w);
      InRange(s.userVirt, w);
    }
    forall x | x in Run(a, n)
      ensures PageTaken(s', x) && x !in s.pages
    {
      RunPage(a, n, x);
      var i: nat :| i < n && x == a + i * PG_SIZE;
      NotTaken(s, pf, x);
    }
    RunDistinct(a, n);
    NoDupAppend(s.pages, Run(a, n));
  }

  /** Fresh virtual pages: never handed out before, not mapped, and the invariant stays. */
  lemma VaddrFresh(s: Sys, pf: Flags, n: nat, s': Sys, a: nat)
    requires Inv(s) && HandsOut(s, pf, n, s', a)
    ensures Inv(s') && Ready(s', pf, a, n)
    ensures forall w: nat :: Unclaimed(s', w) ==> !(a <= w < a + n * PG_SIZE)
    ensures forall x <- Run(a, n) :: x !in s.pages
  {
    hide Free, Taken, In, Translate, PageOf, PdeAt, SelfMapped, PageAt, Aligned, Layout, HistoryOk, Unclaimed;
    VaddrHistory(s, pf, n, s', a);
    SameTables(s, s');
    VirtOnly(s, s');
    forall i: nat | i < n
      ensures In(VirtPool(s', pf), a + i * PG_SIZE)
      ensures Translate(s'.mem, s'.dir, a + i * PG_SIZE) == None
    {
      FreeMeans(VirtPool(s, pf), a + i * PG_SIZE);
      FreeMeans(VirtPool(s', pf), a + i * PG_SIZE);
      FreeUnclaimed(s, pf, a + i * PG_SIZE);
    }
  }

  lemma FreeUnclaimed(s: Sys, pf: Flags, w: nat)
    requires Free(VirtPool(s, pf), w)
    ensures Unclaimed(s, w)
  {
  }

  /** Handing out virtual pages maps nothing. */
  lemma VirtOnly(s: Sys, s': Sys)
    requires s'.mem == s.mem && s'.dir == s.dir && s'.frames == s.frames
    requires s'.kernelVirt.start == s.kernelVirt.start && |s'.kernelVirt.bits| == |s.kernelVirt.bits|
    requires s'.userVirt.start == s.userVirt.start && |s'.userVirt.bits| == |s.userVirt.bits|
    ensures OwnFrames(s) ==> OwnFrames(s')
    ensures TablesUsed(s) ==> TablesUsed(s')
  {
    hide Translate, In, PdeIdx;
    SameEntries(s, s');
    forall w: nat
      ensures MappedPage(s', w) <==> MappedPage(s, w)
      ensures NoTable(s, w) ==> NoTable(s', w)
    {
      SameIn(s.kernelVirt, s'.kernelVirt, w);
      SameIn(s.userVirt, s'.userVirt, w);
      SameNoTable(s, s', w);
    }
    assert forall w: nat :: OnDataFrame(s, w) ==> OnDataFrame(s', w);
    assert forall i: nat, w: nat :: Uses(s, i, w) ==> Uses(s', i, w);
    hide MappedPage, HasTable, NoTable;
  }

  lemma SameNoTable(s: Sys, s': Sys, f: nat)
    requires s'.mem == s.mem && s'.dir == s.dir
    ensures NoTable(s, f) ==> NoTable(s', f)
  {
    SameEntries(s, s');
    assert forall i: nat :: TableAt(s', i) == TableAt(s, i);
    hide HasTable, TableAt;
  }

  lemma InRange(p: Pool, w: nat)
    ensures In(p, w) ==> p.start <= w < End(p)
  {
  }

  lemma NotTaken(s: Sys, pf: Flags, x: nat)
    requires Layout(s) && Free(VirtPool(s, pf), x)
    ensures !PageTaken(s, x)
  {
    FreeMeans(s.kernelVirt, x);
    FreeMeans(s.userVirt, x);
    VirtsApart(s, x);
    InRange(s.kernelVirt, x);
    InRange(s.userVirt, x);
    hide Free, Taken, In;
  }

  // ---------------------------------------------------------------- malloc_page

  /** From s to s': more handed out, and no translation lost or changed. */
  ghost predicate Grows(s: Sys, s': Sys) {
    s'.dir == s.dir && s.frames <= s'.frames && s.pages <= s'.pages && TranslationsKept(s, s')
  }

  /** A page still to be had has not been mapped by the loop. */
  lemma StillUntouched(s: Sys, s': Sys, a: nat, n: nat)
    requires Untouched(s) && OnlyMaps(s, s', a, n) && Kept(s, s')
    requires forall w: nat :: Unclaimed(s, w) ==> !(a <= w < a + n * PG_SIZE)
    ensures Untouched(s')
  {
    hide Translate, In, Taken;
    forall v: nat | Unclaimed(s', v)
      ensures Translate(s'.mem, s'.dir, v) == None
    {
      assert Unclaimed(s, v);
      FreeMeans(s.kernelVirt, v);
      FreeMeans(s.userVirt, v);
      assert Managed(s, v);
    }
  }

  /** Where the lowest n free pages in a row are. */
  function Chosen(s: Sys, pf: Flags, n: nat): Option<nat> {
    var i := FirstFit(VirtPool(s, pf).bits, n, 0);
    if i == None then None else Some(PageAt(VirtPool(s, pf), i.value))
  }

  /** A bad count, or the user page that the ASSERT in vaddr_get keeps for the stack. */
  predicate Refused(s: Sys, pf: Flags, n: nat) {
    || !(0 < n < 3840)
    || (pf == User && Chosen(s, pf, n) != None && Chosen(s, pf, n).value >= 0xc000_0000 - PG_SIZE)
  }

  /** What a call answers, from the bitmaps before it. */
  function Answer(s: Sys, pf: Flags, n: nat): Outcome {
    if Refused(s, pf, n) then Dead
    else if Chosen(s, pf, n) == None || FreeCount(FramePool(s, pf)) < n then Null
    else Address(Chosen(s, pf, n).value)
  }

  /** The call will want one more page table than there are frames, and page 0, to put them in. */
  ghost predicate TablesRunOut(s: Sys, pf: Flags, n: nat) {
    !Refused(s, pf, n) && Chosen(s, pf, n) != None && Short(s, pf, Chosen(s, pf, n).value, n)
  }

  ghost predicate MallocResult(s: Sys, pf: Flags, n: nat, s': Sys, out: Outcome) {
    && Inv(s') && Grows(s, s') && out == Answer(s, pf, n)
    && (out.Address? ==>
          && s'.pages == s.pages + Run(out.addr, n) && (forall x <- Run(out.addr, n) :: x !in s.pages)
          && Backed(s, s', pf, out.addr, n)
          && FreeCount(FramePool(s', pf)) == FreeCount(FramePool(s, pf)) - n)
    && (0 < n < 3840 ==> var s1 := VaddrGet(s, pf, n).0;
                         s'.kernelVirt == s1.kernelVirt && s'.userVirt == s1.userVirt && s'.pages == s1.pages)
    && (!(0 < n < 3840) ==> s' == s)
    && (pf == Kernel ==> s'.userPool == s.userPool && NoNewTables(s, s'))
    && Slack(s') >= Slack(s) - (if pf == Kernel then n else 0)
  }

  /**
    A call of malloc_page. It succeeds exactly when there are n free pages in a row and n frames, with pages never
    handed out before, each mapped to a frame of its own, from the pool asked for, never handed out before; it never
    faults or meets an entry that is already present. All of that holds if and only if the tables do not run out;
    when they do, two directory entries are left with one table.
  */
  lemma MallocOk(s: Sys, pf: Flags, n: nat)
    requires Inv(s)
    ensures MallocResult(s, pf, n, MallocPage(s, pf, n).0, MallocPage(s, pf, n).1) <==> !TablesRunOut(s, pf, n)
    ensures TablesRunOut(s, pf, n) <==> !OwnTables(MallocPage(s, pf, n).0)
  {
    hide Steady, Untouched, Backed, VaddrGet, MapPages, Run, Translate, Clear, FreeCount, Short, Slack, Ready;
    hide OwnTables, NoNewTables;
    OwnTablesOf(s);
    NoneNew(s, s);
    if 0 < n < 3840 {
      var (s1, got) := VaddrGet(s, pf, n);
      VaddrChosen(s, pf, n);
      if got != Nothing {
        var a := Chosen(s, pf, n).value;
        VaddrFresh(s, pf, n, s1, a);
        OwnTablesOf(s1);
        SameSupply(s, s1, pf, a, n);
        NoneNew(s, s1);
        if got.Got? { MapsOk(s, pf, n, s1, a); }
      }
    }
    if Inv(MallocPage(s, pf, n).0) { OwnTablesOf(MallocPage(s, pf, n).0); }
  }

  lemma NoneNew(s: Sys, s1: Sys)
    requires s1.mem == s.mem && s1.dir == s.dir
    ensures NoNewTables(s, s1)
  {
    SameEntries(s, s1);
    hide HasTable;
  }

  lemma OwnTablesOf(s: Sys)
    requires Inv(s)
    ensures OwnTables(s)
  {
  }

  lemma DirectoryOf(s: Sys)
    requires Inv(s)
    ensures Layout(s) && DirectoryOk(s) && HistoryOk(s)
  {
  }

  /** vaddr_get in terms of the bitmap it finds. */
  lemma VaddrChosen(s: Sys, pf: Flags, n: nat)
    requires n > 0
    ensures var (s', got) := VaddrGet(s, pf, n);
            && (got == Nothing <==> Chosen(s, pf, n) == None) && (got == Nothing ==> s' == s)
            && (got != Nothing ==> HandsOut(s, pf, n, s', Chosen(s, pf, n).value) && got == AnswerFor(pf, Chosen(s, pf, n).value))
  {
    hide ManyTaken, FirstFit, Clear, Run, SetBits, PageAt;
    var p := VirtPool(s, pf);
    FirstFitIs(p.bits, n, 0);
    var i := FirstFit(p.bits, n, 0);
    if i != None { TakeMany(p, i.value, n); }
  }

  /** Handing out virtual pages leaves the supply of frames and tables as it was. */
  lemma SameSupply(s: Sys, s1: Sys, pf: Flags, a: nat, n: nat)
    requires s1.mem == s.mem && s1.dir == s.dir && s1.kernelPool == s.kernelPool && s1.userPool == s.userPool
    ensures Short(s1, pf, a, n) <==> Short(s, pf, a, n)
    ensures Slack(s1) == Slack(s)
  {
    CoreSame(s, s1);
    SameEntries(s, s1);
    assert (set i: nat | 32 <= i <= 767 && !HasTable(s1, i)) == (set i: nat | 32 <= i <= 767 && !HasTable(s, i));
    SameMissing(s, s1, a, Least(n, FreeCount(s.userPool)));
    hide HasTable, FreeCount, ZeroTable, MissingFor, PdeIdx;
  }

  lemma SameMissing(s: Sys, s1: Sys, a: nat, n: nat)
    requires forall i: nat :: HasTable(s1, i) <==> HasTable(s, i)
    ensures MissingFor(s1, a, n) == MissingFor(s, a, n)
  {
    hide HasTable, PdeIdx;
    if n > 0 {
      var lo, hi := PdeIdx(a), PdeIdx(a + (n - 1) * PG_SIZE);
      assert (set i: nat | lo <= i <= hi && !HasTable(s1, i)) == (set i: nat | lo <= i <= hi && !HasTable(s, i));
    }
  }

  lemma MapsOk(s: Sys, pf: Flags, n: nat, s1: Sys, a: nat)
    requires Inv(s1) && Ready(s1, pf, a, n) && s1.pages == s.pages + Run(a, n)
    requires s1.mem == s.mem && s1.dir == s.dir && s1.frames == s.frames
    requires forall w: nat :: Unclaimed(s1, w) ==> !(a <= w < a + n * PG_SIZE)
    ensures var (s2, status) := MapPages(s1, pf, a, n);
            if Short(s1, pf, a, n) then !OwnTables(s2)
            else
              && status == (if FreeCount(FramePool(s1, pf)) >= n then Mapped else OutOfFrames)
              && Inv(s2) && Grows(s, s2) && s2.pages == s1.pages && OwnTables(s2)
              && s2.kernelVirt == s1.kernelVirt && s2.userVirt == s1.userVirt
              && (pf == Kernel ==> s2.userPool == s1.userPool && NoNewTables(s, s2))
              && (status == Mapped ==> Backed(s, s2, pf, a, n)
                                       && FreeCount(FramePool(s2, pf)) == FreeCount(FramePool(s1, pf)) - n)
              && Slack(s2) >= Slack(s1) - (if pf == Kernel then n else 0)
  {
    hide Steady, Unclaimed, Translate, MapPages, Ready, Short, FreeCount, Slack, OwnTables, HasTable;
    SameEntries(s, s1);
    var (s2, status) := MapPages(s1, pf, a, n);
    if Short(s1, pf, a, n) {
      ShortIsUser(s1, pf, a, n);
      MapPagesShort(s1, a, n);
    } else {
      MapPagesOk(s1, pf, a, n);
      StillUntouched(s1, s2, a, n);
      OwnTablesOf(s2);
      BackedSame(s, s1, s2, pf, a, n);
      hide Backed, Untouched;
    }
  }

  lemma ShortIsUser(s: Sys, pf: Flags, a: nat, n: nat)
    requires Short(s, pf, a, n)
    ensures pf == User
  {
  }

  lemma BackedSame(s: Sys, s1: Sys, s2: Sys, pf: Flags, a: nat, n: nat)
    requires s1.frames == s.frames
    ensures Backed(s1, s2, pf, a, n) ==> Backed(s, s2, pf, a, n)
  {
    hide Translate, In;
    assert forall v: nat :: OnFrame(s1, s2, pf, v) ==> OnFrame(s, s2, pf, v);
    hide OnFrame;
  }

  // ---------------------------------------------------------------- runs

  datatype Call = Call(pf: Flags, n: nat)

  /** The calls one after another, as far as the machine lives. */
  function After(s: Sys, calls: seq<Call>): Sys
    decreases |calls|
  {
    if calls == [] then s
    else
      var r := MallocPage(s, calls[0].pf, calls[0].n);
      if r.1 == Dead then r.0 else After(r.0, calls[1..])
  }

  lemma CallHistory(s: Sys, pf: Flags, n: nat)
    requires Layout(s) && HistoryOk(s)
    ensures var s' := MallocPage(s, pf, n).0;
            Layout(s') && HistoryOk(s') && s.frames <= s'.frames && s.pages <= s'.pages
  {
    hide Layout, HistoryOk, VaddrGet, MapPages, HandsOut, Unclaimed;
    if 0 < n < 3840 {
      var (s1, got) := VaddrGet(s, pf, n);
      VaddrChosen(s, pf, n);
      if got != Nothing { VaddrHistory(s, pf, n, s1, Chosen(s, pf, n).value); }
      if got.Got? { MapPagesHistory(s1, pf, got.addr, n); }
    }
  }

  /** Over every run, whatever becomes of the page tables, no frame and no virtual page is handed out twice. */
  lemma {:induction false} HandedOutOnce(s: Sys, calls: seq<Call>)
    requires Layout(s) && HistoryOk(s)
    ensures var s' := After(s, calls);
            && Layout(s') && HistoryOk(s') && s.frames <= s'.frames && s.pages <= s'.pages
            && NoDup(s'.frames) && NoDup(s'.pages)
    decreases |calls|
  {
    hide MallocPage, Layout;
    if calls != [] {
      var (s1, out) := MallocPage(s, calls[0].pf, calls[0].n);
      CallHistory(s, calls[0].pf, calls[0].n);
      if out != Dead { HandedOutOnce(s1, calls[1..]); }
    }
  }

  /** No call along the run finds the tables running out. */
  ghost predicate Supplied(s: Sys, calls: seq<Call>)
    decreases |calls|
  {
    calls != [] ==>
      && !TablesRunOut(s, calls[0].pf, calls[0].n)
      && var r := MallocPage(s, calls[0].pf, calls[0].n);
         r.1 != Dead ==> Supplied(r.0, calls[1..])
  }

  lemma GrowsMore(s: Sys, s1: Sys, s2: Sys)
    requires Grows(s, s1) && Grows(s1, s2)
    ensures Grows(s, s2)
  {
    hide Translate;
  }

  lemma VirtDirectory(s: Sys, s1: Sys)
    requires s1.mem == s.mem && s1.dir == s.dir && s1.kernelPool == s.kernelPool && s1.userPool == s.userPool
    ensures DirectoryOk(s1) <==> DirectoryOk(s)
    ensures OwnTables(s1) <==> OwnTables(s)
  {
    SameEntries(s, s1);
    SameOwnTables(s, s1);
    assert forall i: nat :: TableAt(s1, i) == TableAt(s, i);
    hide HasTable, TableAt, Free, In;
  }

  /** A call keeps the directory, and one table in two entries stays so. */
  lemma CallDirectory(s: Sys, pf: Flags, n: nat)
    requires Layout(s) && DirectoryOk(s) && HistoryOk(s)
    ensures var s' := MallocPage(s, pf, n).0;
            Layout(s') && DirectoryOk(s') && HistoryOk(s') && (!OwnTables(s) ==> !OwnTables(s'))
  {
    hide Layout, HistoryOk, VaddrGet, MapPages, Unclaimed, DirectoryOk, OwnTables, Free, Taken, Run, In;
    CallHistory(s, pf, n);
    if 0 < n < 3840 {
      var (s1, got) := VaddrGet(s, pf, n);
      VaddrChosen(s, pf, n);
      if got != Nothing {
        var a := Chosen(s, pf, n).value;
        VaddrHistory(s, pf, n, s1, a);
        VirtDirectory(s, s1);
        forall i: nat | i < n
          ensures In(VirtPool(s1, pf), a + i * PG_SIZE)
        {
          FreeMeans(VirtPool(s1, pf), a + i * PG_SIZE);
        }
        if got.Got? { DirectoryStays(s1, pf, a, n); }
      }
    }
  }

  lemma {:induction false} RunShared(s: Sys, calls: seq<Call>)
    requires Layout(s) && DirectoryOk(s) && !OwnTables(s) && HistoryOk(s)
    ensures !OwnTables(After(s, calls))
    decreases |calls|
  {
    hide MallocPage, Layout, DirectoryOk, HistoryOk, OwnTables;
    if calls != [] {
      CallDirectory(s, calls[0].pf, calls[0].n);
      var (s1, out) := MallocPage(s, calls[0].pf, calls[0].n);
      if out != Dead { RunShared(s1, calls[1..]); }
    }
  }

  /**
    Over every run: the invariant holds at the end exactly when no call found the tables running out; and then every
    mapping made is still there.
  */
  lemma {:induction false} RunExactly(s: Sys, calls: seq<Call>)
    requires Inv(s)
    ensures Inv(After(s, calls)) <==> Supplied(s, calls)
    ensures Supplied(s, calls) ==> Grows(s, After(s, calls))
    decreases |calls|
  {
    if calls != [] {
      hide MallocPage, Steady, Untouched, Backed, Run, Translate, TablesRunOut, OwnTables, Answer, FreeCount;
      hide Slack, Layout, DirectoryOk, HistoryOk;
      var (s1, out) := MallocPage(s, calls[0].pf, calls[0].n);
      MallocOk(s, calls[0].pf, calls[0].n);
      if TablesRunOut(s, calls[0].pf, calls[0].n) {
        DirectoryOf(s);
        CallDirectory(s, calls[0].pf, calls[0].n);
        if out != Dead { RunShared(s1, calls[1..]); }
        if Inv(After(s, calls)) { OwnTablesOf(After(s, calls)); }
      } else if out != Dead {
        RunExactly(s1, calls[1..]);
        if Supplied(s1, calls[1..]) { GrowsMore(s, s1, After(s1, calls[1..])); }
      }
    } else {
      hide Inv, Translate;
    }
  }

  // ---------------------------------------------------------------- runs that cannot run out

  /** How many pages the kernel asks for along the run. */
  function KernelDemand(calls: seq<Call>): nat
    decreases |calls|
  {
    if calls == [] then 0 else (if calls[0].pf == Kernel then calls[0].n else 0) + KernelDemand(calls[1..])
  }

  lemma ChosenRange(s: Sys, n: nat, a: nat)
    requires Inv(s) && 0 < n && Chosen(s, User, n) == Some(a)
    ensures 32 <= PdeIdx(a) && PdeIdx(a + (n - 1) * PG_SIZE) < 768
  {
    hide Run, FirstFit, Translate, Free, Taken, In;
    VaddrChosen(s, User, n);
    assert s.userVirt.start <= a && a + n * PG_SIZE <= End(s.userVirt);
  }

  /**
    With a frame of the kernel pool, or page 0, for every table the process has not got yet and for every page the
    kernel asks for on the way, no run finds the tables running out.
  */
  lemma {:induction false} EnoughFrames(s: Sys, calls: seq<Call>)
    requires Inv(s) && Slack(s) >= KernelDemand(calls)
    ensures Supplied(s, calls)
    decreases |calls|
  {
    hide MallocPage, Inv, Backed, Run, Translate, Answer, FreeCount, Slack, Short, Refused;
    if calls != [] {
      var pf, n := calls[0].pf, calls[0].n;
      if TablesRunOut(s, pf, n) {
        ShortIsUser(s, pf, Chosen(s, pf, n).value, n);
        RefusedCount(s, pf, n);
        ChosenRange(s, n, Chosen(s, pf, n).value);
        ShortMeansNoSlack(s, pf, Chosen(s, pf, n).value, n);
      }
      MallocOk(s, pf, n);
      var (s1, out) := MallocPage(s, pf, n);
      if out != Dead { EnoughFrames(s1, calls[1..]); }
    }
  }

  lemma RefusedCount(s: Sys, pf: Flags, n: nat)
    requires !Refused(s, pf, n)
    ensures 0 < n < 3840
  {
  }

  /** Kernel pages always have their table: no run of kernel calls ever wants one. */
  lemma {:induction false} KernelRunsSafe(s: Sys, calls: seq<Call>)
    requires Inv(s) && forall c <- calls :: c.pf == Kernel
    ensures Supplied(s, calls) && Inv(After(s, calls)) && Grows(s, After(s, calls))
    decreases |calls|
  {
    hide MallocPage, Inv, Backed, Run, Translate, Answer, FreeCount, Slack, Refused, TranslationsKept;
    RunExactly(s, calls);
    if calls != [] {
      assert calls[0] in calls;
      MallocOk(s, Kernel, calls[0].n);
      var (s1, out) := MallocPage(s, Kernel, calls[0].n);
      if out != Dead { KernelRunsSafe(s1, calls[1..]); }
    }
  }
}
