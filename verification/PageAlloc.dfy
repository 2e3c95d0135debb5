/**
  malloc_page: virtual pages and frames handed out from bitmaps, and mapped one by one.
*/
module PageAlloc {
  import opened Common
  import opened Paging

  /** A bitmap and the address its first bit stands for: a pool of frames, or a range of virtual pages. */
  datatype Pool = Pool(bits: seq<bool>, start: nat)

  function PageAt(p: Pool, i: nat): nat {
    p.start + i * PG_SIZE
  }

  function End(p: Pool): nat {
    PageAt(p, |p.bits|)
  }

  predicate In(p: Pool, a: nat) {
    p.start <= a < End(p) && Aligned(a - p.start)
  }

  function Index(p: Pool, a: nat): (i: nat)
    requires In(p, a)
    ensures i < |p.bits| && PageAt(p, i) == a
  {
    (a - p.start) / PG_SIZE
  }

  predicate Free(p: Pool, a: nat) {
    In(p, a) && !p.bits[Index(p, a)]
  }

  predicate Taken(p: Pool, a: nat) {
    In(p, a) && p.bits[Index(p, a)]
  }

  // ---------------------------------------------------------------- bitmaps

  predicate Clear(bits: seq<bool>, i: nat, n: nat) {
    i + n <= |bits| && forall k | i <= k < i + n :: !bits[k]
  }

  /** bitmap_scan: the first run of n clear bits, from bit i on. */
  function FirstFit(bits: seq<bool>, n: nat, i: nat): Option<nat>
    decreases |bits| - i
  {
    if i + n > |bits| || i >= |bits| then None
    else if Clear(bits, i, n) then Some(i)
    else FirstFit(bits, n, i + 1)
  }

  /** bitmap_set, n times from bit i on. */
  function SetBits(bits: seq<bool>, i: nat, n: nat): (r: seq<bool>)
    requires i + n <= |bits|
    ensures |r| == |bits|
    ensures forall k | 0 <= k < |bits| :: r[k] == (bits[k] || i <= k < i + n)
  {
    seq(|bits|, k requires 0 <= k < |bits| => bits[k] || i <= k < i + n)
  }

  /** The scan finds the lowest run there is, and fails only if there is none. */
  lemma {:induction false} FirstFitIs(bits: seq<bool>, n: nat, i: nat)
    requires n > 0
    ensures var r := FirstFit(bits, n, i);
            && (r == None ==> forall k: nat :: k >= i ==> !Clear(bits, k, n))
            && (r != None ==> r.value >= i && Clear(bits, r.value, n))
            && (r != None ==> forall k: nat :: i <= k < r.value ==> !Clear(bits, k, n))
    decreases |bits| - i
  {
    if i + n <= |bits| && !Clear(bits, i, n) {
      FirstFitIs(bits, n, i + 1);
    }
  }

  // ---------------------------------------------------------------- the allocator

  datatype Flags = Kernel | User

  /**
    The memory, the directory in use, the two pools of frames, and the virtual pages of the kernel and of the
    running process. frames and pages are the history of everything handed out.
  */
  datatype Sys = Sys(mem: Memory, dir: nat, kernelPool: Pool, userPool: Pool, kernelVirt: Pool, userVirt: Pool,
                     frames: seq<nat>, pages: seq<nat>)

  function FramePool(s: Sys, pf: Flags): Pool {
    if pf == Kernel then s.kernelPool else s.userPool
  }

  function VirtPool(s: Sys, pf: Flags): Pool {
    if pf == Kernel then s.kernelVirt else s.userVirt
  }

  function Take(p: Pool, i: nat, n: nat): Pool
    requires i + n <= |p.bits|
  {
    p.(bits := SetBits(p.bits, i, n))
  }

  function Run(start: nat, n: nat): (r: seq<nat>)
    ensures |r| == n
  {
    seq(n, i => start + i * PG_SIZE)
  }

  /** palloc */
  function Palloc(s: Sys, pf: Flags): (Sys, Option<nat>) {
    var p := FramePool(s, pf);
    var i := FirstFit(p.bits, 1, 0);
    FirstFitIs(p.bits, 1, 0);
    if i == None then (s, None)
    else
      var p' := Take(p, i.value, 1);
      var a := PageAt(p, i.value);
      var s' := if pf == Kernel then s.(kernelPool := p') else s.(userPool := p');
      (s'.(frames := s.frames + [a]), Some(a))
  }

  datatype Got = Got(addr: nat) | Nothing | Stopped

  /** vaddr_get */
  function VaddrGet(s: Sys, pf: Flags, n: nat): (Sys, Got)
    requires n > 0
  {
    var p := VirtPool(s, pf);
    var i := FirstFit(p.bits, n, 0);
    FirstFitIs(p.bits, n, 0);
    if i == None then (s, Nothing)
    else
      var p' := Take(p, i.value, n);
      var a := PageAt(p, i.value);
      var s' := if pf == Kernel then s.(kernelVirt := p') else s.(userVirt := p');
      (s'.(pages := s.pages + Run(a, n)), if pf == User && a >= 0xc000_0000 - PG_SIZE then Stopped else Got(a))
  }

  datatype Status = Mapped | OutOfFrames | Halted | Faulted

  /** page_table_add(v, page), with the frame for a missing table; a failed palloc's 0 is used as it is. */
  function AddPage(s: Sys, v: nat, page: nat): (Sys, Status) {
    var got := if NeedsTable(s.mem, s.dir, v) then Palloc(s, Kernel) else (s, None);
    match PageTableAdd(s.mem, s.dir, v, page, if got.1 == None then 0 else got.1.value)
    case Done(m) => (got.0.(mem := m), Mapped)
    case Fault => (got.0, Faulted)
    case Halt => (got.0, Halted)
  }

  /** The loop of malloc_page. */
  function MapPages(s: Sys, pf: Flags, v: nat, n: nat): (Sys, Status)
    decreases n
  {
    if n == 0 then (s, Mapped)
    else
      var got := Palloc(s, pf);
      if got.1 == None then (s, OutOfFrames)
      else
        var added := AddPage(got.0, v, got.1.value);
        if added.1 != Mapped then added else MapPages(added.0, pf, v + PG_SIZE, n - 1)
  }

  datatype Outcome = Address(addr: nat) | Null | Dead

  /** malloc_page(pf, n) */
  function MallocPage(s: Sys, pf: Flags, n: nat): (Sys, Outcome) {
    if !(0 < n < 3840) then (s, Dead)
    else
      var got := VaddrGet(s, pf, n);
      match got.1
      case Nothing => (got.0, Null)
      case Stopped => (got.0, Dead)
      case Got(a) =>
        var r := MapPages(got.0, pf, a, n);
        (r.0, match r.1
              case Mapped => Address(a)
              case OutOfFrames => Null
              case _ => Dead)
  }

  // ---------------------------------------------------------------- the invariant

  const K_HEAP_START: nat := 0xc010_0000
  const USER_VADDR_START: nat := 0x804_8000

  ghost predicate Layout(s: Sys) {
    && Aligned(s.dir) && Aligned(s.kernelPool.start) && Aligned(s.userPool.start)
    && 0 < s.dir < TWO32 && 0 < s.kernelPool.start
    && End(s.kernelPool) <= s.userPool.start && End(s.userPool) <= TWO32
    && s.kernelVirt.start == K_HEAP_START && End(s.kernelVirt) <= 0xffc0_0000
    && s.userVirt.start == USER_VADDR_START && End(s.userVirt) <= 0xc000_0000
  }

  function TableAt(s: Sys, i: nat): nat {
    PageOf(PdeAt(s.mem, s.dir, i))
  }

  predicate HasTable(s: Sys, i: nat) {
    Present(PdeAt(s.mem, s.dir, i))
  }

  /** The directory maps itself, is no frame still to be handed out, and is no table. */
  ghost predicate DirectoryOk(s: Sys) {
    && SelfMapped(s.mem, s.dir) && !In(s.userPool, s.dir) && !Free(s.kernelPool, s.dir)
    && forall i: nat :: i < 1023 && HasTable(s, i) ==> TableAt(s, i) != s.dir
  }

  /**
    No table is in the user pool, or a frame still to be handed out. Only one of the process's own directory entries
    may name physical page 0, which is where a table goes that there was no frame for.
  */
  ghost predicate TablesOk(s: Sys) {
    forall i: nat :: i < 1023 && HasTable(s, i) ==>
      && !In(s.userPool, TableAt(s, i)) && !Free(s.kernelPool, TableAt(s, i))
      && (i < 32 || 768 <= i ==> TableAt(s, i) != 0)
  }

  /** From the process's first page up, directory entries do not share tables. */
  ghost predicate OwnTables(s: Sys) {
    forall i: nat, j: nat :: 32 <= i < j < 1023 && HasTable(s, i) && HasTable(s, j) ==> TableAt(s, i) != TableAt(s, j)
  }

  /** The loader gives every kernel directory entry a table. */
  ghost predicate KernelTables(s: Sys) {
    forall i: nat :: 768 <= i < 1023 ==> HasTable(s, i)
  }

  ghost predicate Core(s: Sys) {
    Layout(s) && DirectoryOk(s) && TablesOk(s) && OwnTables(s) && KernelTables(s)
  }

  predicate Managed(s: Sys, v: nat) {
    In(s.kernelVirt, v) || In(s.userVirt, v)
  }

  predicate Unclaimed(s: Sys, v: nat) {
    Free(s.kernelVirt, v) || Free(s.userVirt, v)
  }

  /** A page not handed out is not mapped. */
  ghost predicate Untouched(s: Sys) {
    forall v: nat :: Unclaimed(s, v) ==> Translate(s.mem, s.dir, v) == None
  }

  predicate FrameTaken(s: Sys, a: nat) {
    Taken(s.kernelPool, a) || Taken(s.userPool, a)
  }

  predicate PageTaken(s: Sys, v: nat) {
    Taken(s.kernelVirt, v) || Taken(s.userVirt, v)
  }

  /** Nothing was handed out twice, or is still to be had. */
  ghost predicate HistoryOk(s: Sys) {
    && NoDup(s.frames) && (forall a <- s.frames :: FrameTaken(s, a))
    && NoDup(s.pages) && (forall v <- s.pages :: PageTaken(s, v))
  }

  /** The frame holds no page table. */
  ghost predicate NoTable(s: Sys, frame: nat) {
    frame != 0 && forall i: nat :: i < 1023 && HasTable(s, i) ==> TableAt(s, i) != frame
  }

  predicate MappedPage(s: Sys, w: nat) {
    Managed(s, w) && Translate(s.mem, s.dir, w) != None
  }

  /** Every mapped page is on a frame that was handed out and is no table, and no two pages are on the same. */
  ghost predicate OwnFrames(s: Sys) {
    && (forall w: nat :: MappedPage(s, w) ==> OnDataFrame(s, w))
    && (forall w: nat, x: nat :: MappedPage(s, w) && MappedPage(s, x) && w != x
          ==> Translate(s.mem, s.dir, w) != Translate(s.mem, s.dir, x))
  }

  ghost predicate OnDataFrame(s: Sys, w: nat) {
    var f := Translate(s.mem, s.dir, w);
    f != None && f.value in s.frames && NoTable(s, f.value)
  }

  predicate Uses(s: Sys, i: nat, w: nat) {
    MappedPage(s, w) && PdeIdx(w) == i
  }

  /** No table of the process is there for nothing. */
  ghost predicate TablesUsed(s: Sys) {
    forall i: nat :: 32 <= i < 768 && HasTable(s, i) ==> exists w: nat :: Uses(s, i, w)
  }

  /** What holds between any two pages the loop maps. */
  ghost predicate Steady(s: Sys) {
    Core(s) && HistoryOk(s) && OwnFrames(s) && TablesUsed(s)
  }

  ghost predicate Inv(s: Sys) {
    Steady(s) && Untouched(s)
  }

  // ---------------------------------------------------------------- how many frames there are, and how many it takes

  ghost predicate Full(p: Pool) {
    forall a: nat :: !Free(p, a)
  }

  /** How many pages can still be had from the pool. */
  function FreeCount(p: Pool): nat {
    |set i: nat | i < |p.bits| && !p.bits[i]|
  }

  /** How many of the directory entries from lo to hi have no table. */
  function MissingTables(s: Sys, lo: nat, hi: nat): nat {
    |set i: nat | lo <= i <= hi && !HasTable(s, i)|
  }

  /** How many tables the n pages from v on still lack. */
  function MissingFor(s: Sys, v: nat, n: nat): nat {
    if n == 0 then 0 else MissingTables(s, PdeIdx(v), PdeIdx(v + (n - 1) * PG_SIZE))
  }

  /** Physical page 0 is already some table. */
  ghost predicate ZeroTable(s: Sys) {
    exists i: nat :: i < 1023 && HasTable(s, i) && TableAt(s, i) == 0
  }

  function Least(a: nat, b: nat): nat {
    if a < b then a else b
  }

  /**
    The pages the loop gets to need more tables than the kernel pool has frames, by at least one more than
    physical page 0 can stand in for.
  */
  ghost predicate Short(s: Sys, pf: Flags, v: nat, n: nat) {
    && pf == User
    && MissingFor(s, v, Least(n, FreeCount(s.userPool))) > FreeCount(s.kernelPool) + (if ZeroTable(s) then 0 else 1)
  }
}
