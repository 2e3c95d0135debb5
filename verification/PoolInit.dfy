/** mem_pool_init, and the state the first call of malloc_page starts from. */
module PoolInit {
  import opened Common
  import opened Paging
  import opened PageAlloc
  import opened PageSupply
  import opened PageAllocProofs
  import opened PageAllocRuns

  const MEM_BITMAP_BASE: nat := 0xc009_a000
  const USED_MEM: nat := 0x20_0000

  function U16(x: nat): nat {
    x % 0x1_0000
  }

  /** Subtraction of 32-bit words. */
  function Minus32(x: nat, y: nat): nat
    requires x < TWO32 && y < TWO32
  {
    if x >= y then x - y else x + TWO32 - y
  }

  datatype Pools = Pools(kernelStart: nat, userStart: nat, kernelPages: nat, userPages: nat,
                         kernelBytes: nat, userBytes: nat)

  /** The page counts are 16-bit words. */
  function MemPoolInit(allMem: nat): Pools
    requires allMem < TWO32
  {
    var allFree := U16(Minus32(allMem, USED_MEM) / PG_SIZE);
    var kernelFree := U16(allFree / 2);
    var userFree := U16(allFree - kernelFree);
    Pools(USED_MEM, USED_MEM + kernelFree * PG_SIZE, kernelFree, userFree, kernelFree / 8, userFree / 8)
  }

  function KernelEnd(p: Pools): nat {
    p.kernelStart + p.kernelPages * PG_SIZE
  }

  function UserEnd(p: Pools): nat {
    p.userStart + p.userPages * PG_SIZE
  }

  /** The pools are next to each other, and inside memory exactly when there are at least 2 MiB of it. */
  lemma PoolsInside(allMem: nat)
    requires allMem < TWO32
    ensures var p := MemPoolInit(allMem);
            && p.kernelStart <= KernelEnd(p) == p.userStart <= UserEnd(p) < TWO32
            && p.kernelBytes * 8 <= p.kernelPages && p.userBytes * 8 <= p.userPages
            && (UserEnd(p) <= allMem <==> allMem >= USED_MEM)
  {
  }

  /** The three bitmaps follow each other and end below the main thread's control block. */
  lemma BitmapsFit(allMem: nat)
    requires allMem < TWO32
    ensures var p := MemPoolInit(allMem);
            var userBits := MEM_BITMAP_BASE + p.kernelBytes;
            var virtBits := MEM_BITMAP_BASE + p.kernelBytes + p.userBytes;
            MEM_BITMAP_BASE <= userBits <= virtBits && virtBits + p.kernelBytes < 0xc009_e000
  {
  }

  /** No free page is left out of the counts exactly below 256 MiB of free memory, half of what the comment says. */
  lemma AllPagesCounted(allMem: nat)
    requires USED_MEM <= allMem < TWO32
    ensures var p := MemPoolInit(allMem);
            p.kernelPages + p.userPages == (allMem - USED_MEM) / PG_SIZE <==> allMem - USED_MEM < 0x1000_0000
  {
  }

  /** On a machine with 32 MiB each pool is 15 MiB, the kernel's from 2 MiB and the users' from 17 MiB on. */
  lemma PoolsOf32MiB()
    ensures MemPoolInit(0x200_0000) == Pools(0x20_0000, 0x110_0000, 3840, 3840, 480, 480)
    ensures MEM_BITMAP_BASE + MemPoolInit(0x200_0000).kernelBytes == 0xc009_a1e0
  {
  }

  /** With 1 MiB the subtraction wraps, and the pools are of memory that is not there. */
  lemma PoolsOf1MiB()
    ensures MemPoolInit(0x10_0000) == Pools(0x20_0000, 0x818_0000, 32640, 32640, 4080, 4080)
  {
  }

  // ---------------------------------------------------------------- after the loader

  const BOOT_DIR: nat := 0x10_0000

  /** The directory and the first table as the loader leaves them. */
  function BootWord(a: nat): nat {
    if a == BOOT_DIR || a == BOOT_DIR + 4 * 768 then BOOT_DIR + 0x1000 + 7
    else if BOOT_DIR + 4 * 769 <= a < BOOT_DIR + 4 * 1023 && a % 4 == 0 then
      BOOT_DIR + 0x2000 + (a - BOOT_DIR - 4 * 769) / 4 * PG_SIZE + 7
    else if a == BOOT_DIR + 4 * 1023 then BOOT_DIR + 7
    else if BOOT_DIR + 0x1000 <= a < BOOT_DIR + 0x1000 + 4 * 256 && a % 4 == 0 then
      (a - BOOT_DIR - 0x1000) / 4 * PG_SIZE + 7
    else 0
  }

  /** The words that loader.S writes; the rest of the tables it leaves as memory was. */
  ghost predicate Booted(m: Memory) {
    forall a: nat :: BOOT_DIR <= a < BOOT_DIR + 0x1000 + 4 * 256 ==> Word(m, a) == BootWord(a)
  }

  /** The kernel heap's page-table entry number k. */
  function HeapEntry(m: Memory, k: nat): nat {
    Word(m, BOOT_DIR + 0x1000 + 4 * (256 + k))
  }

  /** Memory happens to hold no present entry for any page of the kernel heap. */
  ghost predicate HeapClear(m: Memory, allMem: nat)
    requires allMem < TWO32
  {
    forall k: nat :: k < 8 * MemPoolInit(allMem).kernelBytes ==> !Present(HeapEntry(m, k))
  }

  /** One such memory, with nothing in it but what the loader writes. */
  function LoaderMemory(): Memory {
    map a: nat | BOOT_DIR <= a < BOOT_DIR + 0x1000 + 4 * 256 :: BootWord(a)
  }

  lemma LoaderMemoryOk(allMem: nat)
    requires allMem < TWO32
    ensures Booted(LoaderMemory()) && HeapClear(LoaderMemory(), allMem)
  {
    hide BootWord, MemPoolInit;
  }

  function NoneSet(n: nat): (r: seq<bool>)
    ensures |r| == n && forall i | 0 <= i < n :: !r[i]
  {
    seq(n, _ => false)
  }

  /** create_user_vaddr_bitmap */
  function AllUserPages(): Pool {
    Pool(NoneSet((0xc000_0000 - USER_VADDR_START) / PG_SIZE / 8 * 8), USER_VADDR_START)
  }

  /** After mem_init, in a process whose pages are all still free. */
  function Start(m: Memory, allMem: nat): Sys
    requires allMem < TWO32
  {
    var p := MemPoolInit(allMem);
    Sys(m, BOOT_DIR,
        Pool(NoneSet(8 * p.kernelBytes), p.kernelStart), Pool(NoneSet(8 * p.userBytes), p.userStart),
        Pool(NoneSet(8 * p.kernelBytes), K_HEAP_START), AllUserPages(),
        [], [])
  }

  lemma BootPde(m: Memory, i: nat)
    requires Booted(m) && i <= 1023
    ensures PdeAt(m, BOOT_DIR, i)
            == if i == 0 || i == 768 then 0x10_1007
               else if 769 <= i < 1023 then 0x10_2007 + (i - 769) * PG_SIZE
               else if i == 1023 then 0x10_0007
               else 0
  {
    assert Word(m, BOOT_DIR + 4 * i) == BootWord(BOOT_DIR + 4 * i);
  }

  lemma BootTables(m: Memory, allMem: nat, i: nat)
    requires Booted(m) && allMem < TWO32 && i < 1023
    ensures var s := Start(m, allMem);
            && (HasTable(s, i) <==> i == 0 || 768 <= i)
            && (HasTable(s, i) ==> TableAt(s, i) == if i == 0 then 0x10_1000 else 0x10_1000 + (i - 768) * PG_SIZE)
  {
    hide Start, PageOf, BootWord;
    StartFields(m, allMem);
    BootPde(m, i);
    if i >= 768 { TableBase(i); }
    FirstTable();
    assert Start(m, allMem).mem == m && Start(m, allMem).dir == BOOT_DIR;
  }

  lemma FirstTable()
    ensures PageOf(0x10_1007) == 0x10_1000
  {
  }

  /** The pages are counted in halves of a 16-bit word. */
  lemma PoolNumbers(allMem: nat)
    requires allMem < TWO32
    ensures var p := MemPoolInit(allMem);
            && p.kernelStart == USED_MEM && p.userStart == USED_MEM + p.kernelPages * PG_SIZE && p.kernelPages < 0x8000
            && 8 * p.kernelBytes <= p.kernelPages && 8 * p.userBytes <= p.userPages < 0x1_0000
  {
  }

  lemma BootLayout(m: Memory, allMem: nat)
    requires allMem < TWO32
    ensures Layout(Start(m, allMem))
  {
    hide MemPoolInit;
    PoolNumbers(allMem);
    UserPagesEnd();
  }

  /** The bitmap covers a process's pages to the last one below the kernel's. */
  lemma UserPagesEnd()
    ensures End(AllUserPages()) == 0xc000_0000 && AllUserPages().start == 0x804_8000
    ensures forall i | 0 <= i < |AllUserPages().bits| :: !AllUserPages().bits[i]
  {
  }

  lemma HeapTranslate(m: Memory, allMem: nat, k: nat)
    requires Booted(m) && allMem < TWO32 && k < 8 * MemPoolInit(allMem).kernelBytes
    ensures Translate(m, BOOT_DIR, K_HEAP_START + k * PG_SIZE) == None <==> !Present(HeapEntry(m, k))
  {
    hide MemPoolInit, PdeIdx, PteIdx, PageOf, BootWord;
    var v := K_HEAP_START + k * PG_SIZE;
    PoolNumbers(allMem);
    HeapIndices(k);
    BootPde(m, PdeIdx(v));
    TableBase(PdeIdx(v));
    KernelEntryPresent(PdeIdx(v));
  }

  lemma KernelEntryPresent(i: nat)
    requires 768 <= i
    ensures Present(0x10_1007 + (i - 768) * PG_SIZE)
  {
  }

  lemma HeapIndices(k: nat)
    requires k < 0x8000
    ensures var v := K_HEAP_START + k * PG_SIZE;
            && 768 <= PdeIdx(v) < 1023
            && 0x10_1000 + (PdeIdx(v) - 768) * PG_SIZE + 4 * PteIdx(v) == BOOT_DIR + 0x1000 + 4 * (256 + k)
  {
    var v := K_HEAP_START + k * PG_SIZE;
    assert v / PG_SIZE == 768 * 1024 + 256 + k;
    assert PdeIdx(v) == v / PG_SIZE / 1024;
  }

  lemma UserUnmapped(m: Memory, allMem: nat, v: nat)
    requires Booted(m) && allMem < TWO32 && In(Start(m, allMem).userVirt, v)
    ensures Translate(m, BOOT_DIR, v) == None
  {
    BootLayout(m, allMem);
    UserIndices(Start(m, allMem), v);
    BootPde(m, PdeIdx(v));
  }

  /** No managed page is mapped exactly when the heap's entries are clear. */
  lemma BootUnmapped(m: Memory, allMem: nat)
    requires Booted(m) && allMem < TWO32
    ensures HeapClear(m, allMem) <==> forall v: nat :: Managed(Start(m, allMem), v) ==> Translate(m, BOOT_DIR, v) == None
  {
    hide Translate, HeapEntry, In, Index, MemPoolInit;
    var s := Start(m, allMem);
    if HeapClear(m, allMem) {
      forall v: nat | Managed(s, v)
        ensures Translate(m, BOOT_DIR, v) == None
      {
        if In(s.kernelVirt, v) {
          HeapPage(m, allMem, v);
          HeapTranslate(m, allMem, Index(s.kernelVirt, v));
        } else {
          UserUnmapped(m, allMem, v);
        }
      }
    }
    if forall v: nat :: Managed(s, v) ==> Translate(m, BOOT_DIR, v) == None {
      forall k: nat | k < 8 * MemPoolInit(allMem).kernelBytes
        ensures !Present(HeapEntry(m, k))
      {
        HeapTranslate(m, allMem, k);
        HeapManaged(m, allMem, k);
      }
    }
  }

  lemma HeapPage(m: Memory, allMem: nat, v: nat)
    requires allMem < TWO32 && In(Start(m, allMem).kernelVirt, v)
    ensures var k := Index(Start(m, allMem).kernelVirt, v);
            k < 8 * MemPoolInit(allMem).kernelBytes && v == K_HEAP_START + k * PG_SIZE
  {
  }

  lemma HeapManaged(m: Memory, allMem: nat, k: nat)
    requires allMem < TWO32 && k < 8 * MemPoolInit(allMem).kernelBytes
    ensures Managed(Start(m, allMem), K_HEAP_START + k * PG_SIZE)
  {
    InAt(Start(m, allMem).kernelVirt, k);
  }

  /** Every page is free at the start. */
  lemma StartFree(m: Memory, allMem: nat, v: nat)
    requires allMem < TWO32
    ensures Unclaimed(Start(m, allMem), v) <==> Managed(Start(m, allMem), v)
  {
  }

  lemma TableBase(i: nat)
    requires 768 <= i < 1023
    ensures PageOf(0x10_1007 + (i - 768) * PG_SIZE) == 0x10_1000 + (i - 768) * PG_SIZE
  {
  }

  lemma UserIndices(s: Sys, v: nat)
    requires Layout(s) && In(s.userVirt, v)
    ensures 32 <= PdeIdx(v) < 768 && PteIdx(v) < 1024
  {
    assert USER_VADDR_START <= v < 0xc000_0000;
  }

  /** The directory and the tables satisfy what every run keeps. */
  lemma StartCore(m: Memory, allMem: nat)
    requires Booted(m) && allMem < TWO32
    ensures var s := Start(m, allMem);
            Core(s) && HistoryOk(s) && !ZeroTable(s) && forall i: nat :: 32 <= i < 768 ==> !HasTable(s, i)
  {
    var s := Start(m, allMem);
    BootLayout(m, allMem);
    BootPde(m, 1023);
    hide Free, In, PdeAt, PageOf, Translate, Start, Layout, TableAt, HasTable;
    forall i: nat | i < 1023
      ensures HasTable(s, i) <==> i == 0 || 768 <= i
      ensures HasTable(s, i) ==> TableAt(s, i) == if i == 0 then 0x10_1000 else 0x10_1000 + (i - 768) * PG_SIZE
      ensures HasTable(s, i) ==> !In(s.userPool, TableAt(s, i)) && !Free(s.kernelPool, TableAt(s, i))
    {
      BootTables(m, allMem, i);
      BelowPools(m, allMem, TableAt(s, i));
    }
    BelowPools(m, allMem, BOOT_DIR);
    StartFields(m, allMem);
    StartSelf(m);
  }

  /**
    The state after the loader and mem_init satisfies the invariant of all runs exactly when memory held no present
    entry for a page of the kernel heap: the loader clears the directory, but not the tables.
  */
  lemma StartInvExactly(m: Memory, allMem: nat)
    requires Booted(m) && allMem < TWO32
    ensures Inv(Start(m, allMem)) <==> HeapClear(m, allMem)
  {
    hide Start, Core, HistoryOk, Managed, Unclaimed, Translate, HeapClear, HasTable, PdeIdx;
    var s := Start(m, allMem);
    StartCore(m, allMem);
    StartFields(m, allMem);
    BootUnmapped(m, allMem);
    forall v: nat
      ensures Unclaimed(s, v) <==> Managed(s, v)
    {
      StartFree(m, allMem, v);
    }
  }

  /** What there is for page tables at the start, beyond the 736 that a process can come to need. */
  lemma StartSlack(m: Memory, allMem: nat)
    requires Booted(m) && allMem < TWO32
    ensures Slack(Start(m, allMem)) == 8 * MemPoolInit(allMem).kernelBytes - 735
  {
    hide Start, Core, HistoryOk, HasTable;
    var s := Start(m, allMem);
    StartCore(m, allMem);
    StartCount(m, allMem);
    var missing := set i: nat | 32 <= i <= 767 && !HasTable(s, i);
    assert missing == Below(768) - Below(32);
    assert Below(32) <= Below(768);
  }

  /**
    From the boot state no frame and no virtual page is ever handed out twice; and if all calls are the kernel's, or
    its frames suffice for all the tables and its own calls, no mapping is ever lost.
  */
  lemma BootRunsSafe(m: Memory, allMem: nat, calls: seq<Call>)
    requires Booted(m) && allMem < TWO32 && HeapClear(m, allMem)
    ensures var s, s' := Start(m, allMem), After(Start(m, allMem), calls);
            && NoDup(s'.frames) && NoDup(s'.pages)
            && ((forall c <- calls :: c.pf == Kernel) ==> Inv(s') && Grows(s, s'))
            && (8 * MemPoolInit(allMem).kernelBytes >= 735 + KernelDemand(calls) ==> Inv(s') && Grows(s, s'))
  {
    hide Start, Core, After, OwnFrames, TablesUsed, Untouched, Slack, HeapClear, Layout, TranslationsKept;
    var s := Start(m, allMem);
    StartInvExactly(m, allMem);
    DirectoryOf(s);
    HandedOutOnce(s, calls);
    RunExactly(s, calls);
    if forall c <- calls :: c.pf == Kernel {
      KernelRunsSafe(s, calls);
    } else if 8 * MemPoolInit(allMem).kernelBytes >= 735 + KernelDemand(calls) {
      StartSlack(m, allMem);
      EnoughFrames(s, calls);
    }
  }

  lemma StartCount(m: Memory, allMem: nat)
    requires allMem < TWO32
    ensures FreeCount(Start(m, allMem).kernelPool) == 8 * MemPoolInit(allMem).kernelBytes
    ensures FreeCount(Start(m, allMem).userPool) == 8 * MemPoolInit(allMem).userBytes
  {
    CountAll(Start(m, allMem).kernelPool);
    CountAll(Start(m, allMem).userPool);
    hide FreeCount;
  }

  lemma StartFields(m: Memory, allMem: nat)
    requires allMem < TWO32
    ensures var s := Start(m, allMem);
            s.mem == m && s.dir == BOOT_DIR && s.frames == [] && s.pages == []
  {
  }

  lemma StartSelf(m: Memory)
    requires Booted(m)
    ensures SelfMapped(m, BOOT_DIR)
  {
    BootPde(m, 1023);
  }

  lemma BelowPools(m: Memory, allMem: nat, a: nat)
    requires allMem < TWO32 && a < USED_MEM
    ensures var s := Start(m, allMem); !In(s.userPool, a) && !Free(s.kernelPool, a)
  {
  }

  /** The first pages: the kernel's at 0xc0100000 on the frame at 2 MiB, the process's at 0x8048000 on the one at 17 MiB. */
  lemma FirstPages(m: Memory, pf: Flags)
    requires Booted(m) && HeapClear(m, 0x200_0000)
    ensures var (s', out) := MallocPage(Start(m, 0x200_0000), pf, 1);
            && out == Address(if pf == Kernel then 0xc010_0000 else 0x804_8000)
            && Translate(s'.mem, s'.dir, out.addr) == Some(if pf == Kernel then 0x20_0000 else 0x110_0000)
  {
    StartInvExactly(m, 0x200_0000);
    StartCount(m, 0x200_0000);
    var s := Start(m, 0x200_0000);
    FirstFree(m, pf);
    hide Start, MemPoolInit, Booted, HeapClear, FreeCount, Translate, Palloc, AddPage, Run, FirstFit, VaddrGet, Steady, Untouched;
    var (s1, got) := VaddrGet(s, pf, 1);
    VaddrChosen(s, pf, 1);
    var a := Chosen(s, pf, 1).value;
    VaddrFresh(s, pf, 1, s1, a);
    FirstMapped(s, s1, pf, a);
    var (s2, frame) := Palloc(s1, pf);
    var (s3, status) := AddPage(s2, a, frame.value);
    assert MapPages(s3, pf, a + PG_SIZE, 0) == (s3, Mapped);
  }

  lemma FirstFree(m: Memory, pf: Flags)
    ensures var s := Start(m, 0x200_0000);
            && Chosen(s, pf, 1) == Some(if pf == Kernel then 0xc010_0000 else 0x804_8000)
            && FramePool(s, pf).start == (if pf == Kernel then 0x20_0000 else 0x110_0000)
            && FirstFit(FramePool(s, pf).bits, 1, 0) == Some(0)
            && MemPoolInit(0x200_0000).kernelBytes == 480
  {
    PoolsOf32MiB();
    var s := Start(m, 0x200_0000);
    hide MemPoolInit;
    assert Clear(VirtPool(s, pf).bits, 0, 1) && Clear(FramePool(s, pf).bits, 0, 1);
    assert FirstFit(VirtPool(s, pf).bits, 1, 0) == Some(0);
  }

  lemma FirstMapped(s: Sys, s1: Sys, pf: Flags, a: nat)
    requires Inv(s1) && Ready(s1, pf, a, 1) && HandsOut(s, pf, 1, s1, a) && FreeCount(s.kernelPool) > 1
    requires FirstFit(FramePool(s, pf).bits, 1, 0) == Some(0)
    ensures var (s2, frame) := Palloc(s1, pf);
            && frame == Some(FramePool(s, pf).start)
            && var (s3, status) := AddPage(s2, a, frame.value);
               status == Mapped && Translate(s3.mem, s3.dir, a) == frame
  {
    hide FreeCount, Translate, AddPage, Run, Untouched, OwnFrames, TablesUsed, OwnTables, TablesOk, DirectoryOk, KernelTables, Layout;
    hide HistoryOk, Free, Taken, In, OneTaken, ManyTaken;
    FirstReady(s1, pf, a, 1);
    VirtManaged(s1, pf, a);
    PallocTakes(s1, pf);
    PallocFresh(s1, pf);
    var (s2, frame) := Palloc(s1, pf);
    PallocKept(s1, pf, s2, frame);
    SameManaged(s1, s2, a);
    hide Palloc;
    AddPageOk(s2, a, frame.value);
  }
}
