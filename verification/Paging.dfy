/**
  Two-level 32-bit paging (Intel SDM volume 3A, section 4.3) with page tables edited through the directory's
  own last entry. Addresses are naturals below 2^32; memory is given word by word.
*/
module Paging {
  import opened Common

  const PG_SIZE: nat := 4096
  const TWO32: nat := 0x1_0000_0000

  /** Physical memory: word address to word. Words that are not listed are zero. */
  type Memory = map<nat, nat>

  function Word(m: Memory, a: nat): nat {
    if a in m then m[a] else 0
  }

  predicate Aligned(a: nat) {
    a % PG_SIZE == 0
  }

  function PageOf(a: nat): nat {
    a / PG_SIZE * PG_SIZE
  }

  function PdeIdx(v: nat): nat {
    v / 0x40_0000
  }

  function PteIdx(v: nat): nat {
    v / PG_SIZE % 1024
  }

  predicate Present(entry: nat) {
    entry % 2 == 1
  }

  /** page_phyaddr | PG_US_U | PG_RW_W | PG_P_1, for a page-aligned address. */
  function Entry(page: nat): nat {
    page + 7
  }

  // ---------------------------------------------------------------- masks and shifts

  /** The program's masks and shifts on 32-bit words are these quotients and remainders. */
  lemma MasksAreDivisions(v: bv32)
    ensures (v & 0xffc0_0000) >> 22 == v / 0x40_0000
    ensures (v & 0x003f_f000) >> 12 == v / 0x1000 % 0x400
    ensures v & 0xffff_f000 == v / 0x1000 * 0x1000
    ensures v & 0xfff == v % 0x1000
    ensures v & 1 == v % 2
  {
  }

  /** An address is ten bits of directory index, ten of table index, and twelve of offset. */
  lemma AddressParts(v: nat)
    ensures v == PdeIdx(v) * 0x40_0000 + PteIdx(v) * 0x1000 + v % 0x1000 && PteIdx(v) < 0x400
    ensures v < 0x1_0000_0000 ==> PdeIdx(v) < 0x400
    ensures PageOf(v) + v % 0x1000 == v && PageOf(v) % 0x1000 == 0
    ensures Present(v) <==> v % 2 == 1
  {
    assert v / PG_SIZE / 1024 == v / 0x40_0000;
  }

  lemma PtePtrBits(v: bv32)
    ensures 0xffc0_0000 + ((v & 0xffc0_0000) >> 10) + ((v & 0x003f_f000) >> 12) * 4
            == 0xffc0_0000 + v / 0x40_0000 * 0x1000 + v / 0x1000 % 0x400 * 4
  {
  }

  lemma FlagsAreAdded(page: bv32)
    requires page % 0x1000 == 0
    ensures page | 4 | 2 | 1 == page + 7
  {
  }

  // ---------------------------------------------------------------- the walk

  function PdeAt(m: Memory, dir: nat, i: nat): nat {
    Word(m, dir + 4 * i)
  }

  function Pde(m: Memory, dir: nat, v: nat): nat {
    PdeAt(m, dir, PdeIdx(v))
  }

  /** Where v's page-table entry is, given its directory entry. */
  function PteAddress(pde: nat, v: nat): nat {
    PageOf(pde) + 4 * PteIdx(v)
  }

  function Pte(m: Memory, dir: nat, v: nat): nat {
    Word(m, PteAddress(Pde(m, dir, v), v))
  }

  /** The address v goes to, or nothing on a page fault. */
  function Translate(m: Memory, dir: nat, v: nat): Option<nat> {
    if !Present(Pde(m, dir, v)) then None
    else if !Present(Pte(m, dir, v)) then None
    else Some(PageOf(Pte(m, dir, v)) + v % PG_SIZE)
  }

  predicate SelfMapped(m: Memory, dir: nat) {
    Aligned(dir) && Present(PdeAt(m, dir, 1023)) && PageOf(PdeAt(m, dir, 1023)) == dir
  }

  function PtePtr(v: nat): nat {
    0xffc0_0000 + PdeIdx(v) * 0x1000 + PteIdx(v) * 4
  }

  function PdePtr(v: nat): nat {
    0xffff_f000 + PdeIdx(v) * 4
  }

  lemma PtePtrParts(v: nat)
    requires v < TWO32
    ensures PtePtr(v) < TWO32 && PdeIdx(PtePtr(v)) == 1023
    ensures PteIdx(PtePtr(v)) == PdeIdx(v) && PtePtr(v) % PG_SIZE == 4 * PteIdx(v)
    ensures PageOf(PtePtr(v)) == 0xffc0_0000 + PdeIdx(v) * 0x1000
  {
  }

  lemma PdePtrParts(v: nat)
    requires v < TWO32
    ensures PdePtr(v) < TWO32 && PdeIdx(PdePtr(v)) == 1023
    ensures PteIdx(PdePtr(v)) == 1023 && PdePtr(v) % PG_SIZE == 4 * PdeIdx(v)
  {
  }

  /** A walk of pde_ptr(v) reaches v's directory entry. */
  lemma PdePtrReaches(m: Memory, dir: nat, v: nat)
    requires SelfMapped(m, dir) && v < TWO32
    ensures Translate(m, dir, PdePtr(v)) == Some(dir + 4 * PdeIdx(v))
  {
    PdePtrParts(v);
  }

  /** A walk of pte_ptr(v) reaches v's page-table entry, and faults exactly when there is no table. */
  lemma PtePtrReaches(m: Memory, dir: nat, v: nat)
    requires SelfMapped(m, dir) && v < TWO32
    ensures Translate(m, dir, PtePtr(v))
            == if Present(Pde(m, dir, v)) then Some(PteAddress(Pde(m, dir, v), v)) else None
  {
    PtePtrParts(v);
  }

  // ---------------------------------------------------------------- through virtual addresses

  function Load(m: Memory, dir: nat, v: nat): Option<nat> {
    var p := Translate(m, dir, v);
    if p == None then None else Some(Word(m, p.value))
  }

  function Store(m: Memory, dir: nat, v: nat, w: nat): Option<Memory> {
    var p := Translate(m, dir, v);
    if p == None then None else Some(m[p.value := w])
  }

  /** memset(v, 0, 4 * n), word by word, each store going through the tables as they then are. */
  function StoreZeros(m: Memory, dir: nat, v: nat, n: nat): Option<Memory>
    decreases n
  {
    if n == 0 then Some(m)
    else
      var r := StoreZeros(m, dir, v, n - 1);
      if r == None then None else Store(r.value, dir, v + 4 * (n - 1), 0)
  }

  /** addr_v2p; nothing on a page fault. */
  function AddrV2P(m: Memory, dir: nat, v: nat): Option<nat> {
    var e := Load(m, dir, PtePtr(v));
    if e == None then None else Some(PageOf(e.value) + v % PG_SIZE)
  }

  /** addr_v2p agrees with the walk wherever the walk ends. */
  lemma AddrV2PAgrees(m: Memory, dir: nat, v: nat)
    requires SelfMapped(m, dir) && v < TWO32
    ensures Translate(m, dir, v) != None ==> AddrV2P(m, dir, v) == Translate(m, dir, v)
    ensures AddrV2P(m, dir, v) == None <==> !Present(Pde(m, dir, v))
  {
    PtePtrReaches(m, dir, v);
    hide PtePtr;
  }

  // ---------------------------------------------------------------- page_table_add

  datatype Added = Done(mem: Memory) | Fault | Halt

  /** The last part of both branches: the ASSERT and the new entry. */
  function SetPte(m: Memory, dir: nat, v: nat, page: nat): Added {
    var pte := Load(m, dir, PtePtr(v));
    if pte == None then Fault
    else if Present(pte.value) then Halt
    else
      var r := Store(m, dir, PtePtr(v), Entry(page));
      if r == None then Fault else Done(r.value)
  }

  /** A new table, at physical address `table`, cleared through the self-map. */
  function AddTable(m: Memory, dir: nat, v: nat, table: nat): Option<Memory> {
    var r := Store(m, dir, PdePtr(v), Entry(table));
    if r == None then None else StoreZeros(r.value, dir, PageOf(PtePtr(v)), 1024)
  }

  predicate NeedsTable(m: Memory, dir: nat, v: nat) {
    var pde := Load(m, dir, PdePtr(v));
    pde != None && !Present(pde.value)
  }

  /** page_table_add(v, page), where `table` is what palloc would return for a new page table. */
  function PageTableAdd(m: Memory, dir: nat, v: nat, page: nat, table: nat): Added {
    if Load(m, dir, PdePtr(v)) == None then Fault
    else if !NeedsTable(m, dir, v) then SetPte(m, dir, v, page)
    else
      var r := AddTable(m, dir, v, table);
      if r == None then Fault else SetPte(r.value, dir, v, page)
  }

  // ---------------------------------------------------------------- clearing a page

  /** The page at `page` with its first n words cleared; everything else as before. */
  ghost predicate ClearedTo(m: Memory, m': Memory, page: nat, n: nat) {
    forall a: nat :: Word(m', a) == if page <= a < page + 4 * n && a % 4 == 0 then 0 else Word(m, a)
  }

  /** The two entries of v's walk are outside the page. */
  ghost predicate WalkAvoids(m: Memory, dir: nat, v: nat, page: nat) {
    PageOf(dir + 4 * PdeIdx(v)) != page && PageOf(PteAddress(Pde(m, dir, v), v)) != page
  }

  lemma ClearedWalk(m: Memory, m': Memory, dir: nat, v: nat, page: nat, n: nat)
    requires ClearedTo(m, m', page, n) && Aligned(page) && n <= 1024 && WalkAvoids(m, dir, v, page)
    ensures Translate(m', dir, v) == Translate(m, dir, v)
  {
    hide PteAddress, PdeIdx, PageOf, Aligned;
    var a, b := dir + 4 * PdeIdx(v), PteAddress(Pde(m, dir, v), v);
    InPage(page, a);
    InPage(page, b);
    assert Word(m', a) == Word(m, a);
    assert Word(m', b) == Word(m, b);
  }

  lemma InPage(page: nat, a: nat)
    requires Aligned(page)
    ensures PageOf(a) == page <==> page <= a < page + PG_SIZE
  {
  }

  lemma OneMoreCleared(m: Memory, m': Memory, page: nat, n: nat)
    requires ClearedTo(m, m', page, n) && Aligned(page)
    ensures ClearedTo(m, m'[page + 4 * n := 0], page, n + 1)
  {
    var m1 := m'[page + 4 * n := 0];
    forall a: nat
      ensures Word(m1, a) == if page <= a < page + 4 * (n + 1) && a % 4 == 0 then 0 else Word(m, a)
    {
      WordsOfPage(page, n, a);
      assert Word(m', a) == if page <= a < page + 4 * n && a % 4 == 0 then 0 else Word(m, a);
    }
  }

  lemma WordsOfPage(page: nat, n: nat, a: nat)
    requires Aligned(page)
    ensures page <= a < page + 4 * (n + 1) && a % 4 == 0 <==> (page <= a < page + 4 * n && a % 4 == 0) || a == page + 4 * n
  {
  }

  /** Same page, same walk. */
  lemma SamePage(m: Memory, dir: nat, v: nat, k: nat)
    requires Aligned(v) && k < PG_SIZE
    ensures PdeIdx(v + k) == PdeIdx(v) && PteIdx(v + k) == PteIdx(v) && (v + k) % PG_SIZE == k
    ensures Translate(m, dir, v) == None ==> Translate(m, dir, v + k) == None
    ensures Translate(m, dir, v) != None ==> Translate(m, dir, v + k) == Some(Translate(m, dir, v).value + k)
  {
  }

  lemma {:induction false} StoreZerosClears(m: Memory, dir: nat, v: nat, page: nat, n: nat)
    requires n <= 1024 && Aligned(v) && Aligned(page)
    requires Translate(m, dir, v) == Some(page) && WalkAvoids(m, dir, v, page)
    ensures var r := StoreZeros(m, dir, v, n); r != None && ClearedTo(m, r.value, page, n)
    decreases n
  {
    hide Translate, WalkAvoids;
    if n > 0 {
      StoreZerosClears(m, dir, v, page, n - 1);
      var m' := StoreZeros(m, dir, v, n - 1).value;
      ClearedWalk(m, m', dir, v, page, n - 1);
      SamePage(m', dir, v, 4 * (n - 1));
      OneMoreCleared(m, m', page, n - 1);
    }
  }
}
