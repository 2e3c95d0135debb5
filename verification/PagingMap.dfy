/** What page_table_add does to the address space. */
module PagingMap {
  import opened Common
  import opened Paging

  /** The directory entries that are tables' addresses never name the directory, the self-map apart. */
  ghost predicate TablesApart(m: Memory, dir: nat) {
    forall i: nat :: i < 1023 && Present(PdeAt(m, dir, i)) ==> PageOf(PdeAt(m, dir, i)) != dir
  }

  /** No present entry names the frame. */
  ghost predicate Unused(m: Memory, dir: nat, frame: nat) {
    forall i: nat :: i <= 1023 && Present(PdeAt(m, dir, i)) ==> PageOf(PdeAt(m, dir, i)) != frame
  }

  /** A page below the self-map, and the frame its table would get. */
  ghost predicate CanEdit(m: Memory, dir: nat, v: nat, page: nat, table: nat) {
    && SelfMapped(m, dir) && TablesApart(m, dir)
    && v < 0xffc0_0000 && Aligned(v) && Aligned(page)
    && (!Present(Pde(m, dir, v)) ==> Aligned(table) && table != dir)
  }

  /** What page_table_add relies on: the page is not mapped, and its new table is nobody else's. */
  ghost predicate CanAdd(m: Memory, dir: nat, v: nat, page: nat, table: nat) {
    && CanEdit(m, dir, v, page, table) && Translate(m, dir, v) == None
    && (!Present(Pde(m, dir, v)) ==> Unused(m, dir, table))
  }

  /** The table that v's entry is in after the call. */
  function TableFor(m: Memory, dir: nat, v: nat, table: nat): nat {
    if Present(Pde(m, dir, v)) then PageOf(Pde(m, dir, v)) else table
  }

  /** What the call writes: v's entry; and if there was no table, the directory entry and a cleared table. */
  function WordAfter(m: Memory, dir: nat, v: nat, page: nat, table: nat, a: nat): nat {
    if a == TableFor(m, dir, v, table) + 4 * PteIdx(v) then Entry(page)
    else if Present(Pde(m, dir, v)) then Word(m, a)
    else if a == dir + 4 * PdeIdx(v) then Entry(table)
    else if table <= a < table + PG_SIZE && a % 4 == 0 then 0
    else Word(m, a)
  }

  ghost predicate Updated(m: Memory, m': Memory, dir: nat, v: nat, page: nat, table: nat) {
    forall a: nat :: Word(m', a) == WordAfter(m, dir, v, page, table, a)
  }

  lemma EntryParts(page: nat)
    requires Aligned(page)
    ensures Present(Entry(page)) && PageOf(Entry(page)) == page
  {
  }

  lemma IndexRange(v: nat)
    requires v < 0xffc0_0000
    ensures PdeIdx(v) < 1023 && PteIdx(v) < 1024
  {
  }

  lemma PageOfAligned(a: nat)
    ensures Aligned(PageOf(a))
  {
  }

  lemma EntryInPage(page: nat, i: nat)
    requires Aligned(page) && i < 1024
    ensures PageOf(page + 4 * i) == page
  {
  }

  // ---------------------------------------------------------------- the two branches

  lemma AddToTable(m: Memory, dir: nat, v: nat, page: nat, table: nat)
    requires CanEdit(m, dir, v, page, table) && Present(Pde(m, dir, v))
    ensures var r := PageTableAdd(m, dir, v, page, table);
            if Translate(m, dir, v) == None then r.Done? && Updated(m, r.mem, dir, v, page, table) else r == Halt
  {
    hide PdePtr, PtePtr, Entry, PageOf, PteIdx, PdeIdx, TablesApart, Unused;
    PdePtrReaches(m, dir, v);
    PtePtrReaches(m, dir, v);
  }

  /** The directory entry for the new table, and the self-map with it. */
  lemma EntryForTable(m: Memory, dir: nat, v: nat, page: nat, table: nat)
    requires CanEdit(m, dir, v, page, table) && !Present(Pde(m, dir, v))
    ensures var m' := m[dir + 4 * PdeIdx(v) := Entry(table)];
            && Store(m, dir, PdePtr(v), Entry(table)) == Some(m')
            && SelfMapped(m', dir) && Pde(m', dir, v) == Entry(table)
            && Translate(m', dir, PageOf(PtePtr(v))) == Some(table)
            && WalkAvoids(m', dir, PageOf(PtePtr(v)), table)
  {
    hide PdePtr, PtePtr, Entry, PageOf, PteIdx, PdeIdx;
    PdePtrReaches(m, dir, v);
    EntryParts(table);
    IndexRange(v);
    PtePtrPage(v);
    EntryInPage(dir, PdeIdx(v));
    EntryInPage(dir, 1023);
  }

  lemma PtePtrPage(v: nat)
    requires v < 0xffc0_0000
    ensures var p := PageOf(PtePtr(v)); PdeIdx(p) == 1023 && PteIdx(p) == PdeIdx(v) && p % PG_SIZE == 0 && Aligned(p)
  {
  }

  lemma ClearedKeepsDirectory(m: Memory, m': Memory, dir: nat, table: nat, i: nat)
    requires ClearedTo(m, m', table, 1024) && Aligned(dir) && Aligned(table) && dir != table && i < 1024
    ensures PdeAt(m', dir, i) == PdeAt(m, dir, i)
  {
    EntryInPage(dir, i);
    InPage(table, dir + 4 * i);
  }

  lemma ClearedEntry(m: Memory, m': Memory, table: nat, i: nat)
    requires ClearedTo(m, m', table, 1024) && i < 1024 && Aligned(table)
    ensures Word(m', table + 4 * i) == 0
  {
  }

  /** The new table in the directory, and cleared. */
  lemma TableAdded(m: Memory, dir: nat, v: nat, page: nat, table: nat)
    requires CanEdit(m, dir, v, page, table) && !Present(Pde(m, dir, v))
    ensures NeedsTable(m, dir, v)
    ensures var r := AddTable(m, dir, v, table);
            r != None && ClearedTo(m[dir + 4 * PdeIdx(v) := Entry(table)], r.value, table, 1024)
  {
    hide PdePtr, PtePtr, Entry, StoreZeros, PteIdx, PdeIdx, WalkAvoids;
    PdePtrReaches(m, dir, v);
    EntryForTable(m, dir, v, page, table);
    PtePtrPage(v);
    StoreZerosClears(m[dir + 4 * PdeIdx(v) := Entry(table)], dir, PageOf(PtePtr(v)), table, 1024);
  }

  lemma AddWithTable(m: Memory, dir: nat, v: nat, page: nat, table: nat)
    requires CanEdit(m, dir, v, page, table) && !Present(Pde(m, dir, v))
    ensures var r := PageTableAdd(m, dir, v, page, table); r.Done? && Updated(m, r.mem, dir, v, page, table)
  {
    hide PdePtr, PtePtr, Entry, AddTable, PteIdx, PdeIdx, Translate, Updated, Unused, TablesApart, WalkAvoids, ClearedTo;
    IndexRange(v);
    EntryParts(table);
    TableParts(m, dir, v, page, table);
    PdePtrReaches(m, dir, v);
    TableAdded(m, dir, v, page, table);
    EntryForTable(m, dir, v, page, table);
    var m1 := m[dir + 4 * PdeIdx(v) := Entry(table)];
    var m2 := AddTable(m, dir, v, table).value;
    ClearedKeepsDirectory(m1, m2, dir, table, PdeIdx(v));
    ClearedKeepsDirectory(m1, m2, dir, table, 1023);
    ClearedEntry(m1, m2, table, PteIdx(v));
    PtePtrReaches(m2, dir, v);
    AddedWords(m, m1, m2, dir, v, page, table);
    assert Load(m2, dir, PtePtr(v)) == Some(0);
  }

  lemma AddedWords(m: Memory, m1: Memory, m2: Memory, dir: nat, v: nat, page: nat, table: nat)
    requires CanEdit(m, dir, v, page, table) && !Present(Pde(m, dir, v))
    requires m1 == m[dir + 4 * PdeIdx(v) := Entry(table)] && ClearedTo(m1, m2, table, 1024)
    ensures Updated(m, m2[table + 4 * PteIdx(v) := Entry(page)], dir, v, page, table)
  {
    IndexRange(v);
    var d, e := dir + 4 * PdeIdx(v), table + 4 * PteIdx(v);
    EntryInPage(dir, PdeIdx(v));
    InPage(table, d);
    assert dir != table;
    assert !(table <= d < table + PG_SIZE);
    hide Entry, PteIdx, PdeIdx, Translate, PageOf, Aligned;
    var m3 := m2[e := Entry(page)];
    forall a: nat
      ensures Word(m3, a) == WordAfter(m, dir, v, page, table, a)
    {
      assert Word(m2, a) == if table <= a < table + 4 * 1024 && a % 4 == 0 then 0 else Word(m1, a);
    }
  }

  // ---------------------------------------------------------------- what it means for translations

  lemma TableParts(m: Memory, dir: nat, v: nat, page: nat, table: nat)
    requires CanEdit(m, dir, v, page, table)
    ensures var t := TableFor(m, dir, v, table);
            t != dir && Aligned(t) && PageOf(t + 4 * PteIdx(v)) == t
  {
    IndexRange(v);
    PageOfAligned(Pde(m, dir, v));
    EntryInPage(TableFor(m, dir, v, table), PteIdx(v));
  }

  /** The directory afterwards. */
  lemma UpdatedDirectory(m: Memory, m': Memory, dir: nat, v: nat, page: nat, table: nat, i: nat)
    requires CanEdit(m, dir, v, page, table) && Updated(m, m', dir, v, page, table) && i <= 1023
    ensures PdeAt(m', dir, i)
            == if i == PdeIdx(v) && !Present(Pde(m, dir, v)) then Entry(table) else PdeAt(m, dir, i)
  {
    TableParts(m, dir, v, page, table);
    EntryInPage(dir, i);
    if !Present(Pde(m, dir, v)) { InPage(table, dir + 4 * i); }
    hide Entry, PteIdx, PdeIdx, PageOf, Aligned, Translate;
    assert Word(m', dir + 4 * i) == WordAfter(m, dir, v, page, table, dir + 4 * i);
  }

  lemma UpdatedHere(m: Memory, m': Memory, dir: nat, v: nat, page: nat, table: nat)
    requires CanEdit(m, dir, v, page, table) && Updated(m, m', dir, v, page, table)
    ensures Translate(m', dir, v) == Some(page) && SelfMapped(m', dir)
    ensures Present(Pde(m', dir, v)) && PageOf(Pde(m', dir, v)) == TableFor(m, dir, v, table)
  {
    IndexRange(v);
    EntryParts(page);
    if !Present(Pde(m, dir, v)) { EntryParts(table); }
    UpdatedDirectory(m, m', dir, v, page, table, 1023);
    UpdatedDirectory(m, m', dir, v, page, table, PdeIdx(v));
    var e := TableFor(m, dir, v, table) + 4 * PteIdx(v);
    assert Word(m', e) == WordAfter(m, dir, v, page, table, e);
    assert v % PG_SIZE == 0;
    hide Entry, PteIdx, PdeIdx, PageOf, Updated;
  }

  /** A translation reads two present entries, and the call writes over none. */
  lemma UpdatedKeeps(m: Memory, m': Memory, dir: nat, v: nat, page: nat, table: nat, w: nat)
    requires CanAdd(m, dir, v, page, table) && Updated(m, m', dir, v, page, table)
    requires w < TWO32 && Translate(m, dir, w) != None
    ensures Translate(m', dir, w) == Translate(m, dir, w)
    ensures Pde(m', dir, w) == Pde(m, dir, w) && Pte(m', dir, w) == Pte(m, dir, w)
  {
    WalkParts(m, dir, w);
    hide Entry, PteIdx, PdeIdx, PageOf, Aligned, Updated, WordAfter;
    KeptWord(m, m', dir, v, page, table, dir + 4 * PdeIdx(w));
    KeptWord(m, m', dir, v, page, table, PteAddress(Pde(m, dir, w), w));
  }

  /** Where the two entries of a walk are. */
  lemma WalkParts(m: Memory, dir: nat, w: nat)
    requires Aligned(dir) && w < TWO32
    ensures PdeIdx(w) <= 1023 && PageOf(dir + 4 * PdeIdx(w)) == dir
    ensures PageOf(PteAddress(Pde(m, dir, w), w)) == PageOf(Pde(m, dir, w))
  {
    EntryInPage(dir, PdeIdx(w));
    PageOfAligned(Pde(m, dir, w));
    EntryInPage(PageOf(Pde(m, dir, w)), PteIdx(w));
  }

  /** A present word outside the new table is kept. */
  lemma KeptWord(m: Memory, m': Memory, dir: nat, v: nat, page: nat, table: nat, a: nat)
    requires CanAdd(m, dir, v, page, table) && Updated(m, m', dir, v, page, table)
    requires Present(Word(m, a)) && (!Present(Pde(m, dir, v)) ==> PageOf(a) != table)
    ensures Word(m', a) == Word(m, a)
  {
    assert Word(m', a) == WordAfter(m, dir, v, page, table, a);
    if !Present(Pde(m, dir, v)) {
      InPage(table, a);
      IndexRange(v);
      EntryInPage(table, PteIdx(v));
    }
    hide Entry, PteIdx, PdeIdx;
  }

  /** A page whose directory entry does not share v's table does not become mapped either. */
  lemma UpdatedElsewhere(m: Memory, m': Memory, dir: nat, v: nat, page: nat, table: nat, w: nat)
    requires CanAdd(m, dir, v, page, table) && Updated(m, m', dir, v, page, table)
    requires w < 0xffc0_0000 && PageOf(w) != v && Translate(m, dir, w) == None
    requires PdeIdx(w) == PdeIdx(v) || !Present(Pde(m, dir, w))
             || PageOf(Pde(m, dir, w)) != TableFor(m, dir, v, table)
    ensures Translate(m', dir, w) == None
  {
    hide Entry, PteIdx, PdeIdx, PageOf, Aligned, Word, WordAfter, TableFor, PteAddress, Updated, PdeAt, CanAdd;
    if Translate(m', dir, w) != None { NotMapped(m, m', dir, v, page, table, w); }
  }

  lemma NotMapped(m: Memory, m': Memory, dir: nat, v: nat, page: nat, table: nat, w: nat)
    requires CanAdd(m, dir, v, page, table) && Updated(m, m', dir, v, page, table)
    requires w < 0xffc0_0000 && PageOf(w) != v && Translate(m, dir, w) == None
    requires PdeIdx(w) == PdeIdx(v) || !Present(Pde(m, dir, w))
             || PageOf(Pde(m, dir, w)) != TableFor(m, dir, v, table)
    ensures !Present(Pde(m', dir, w)) || !Present(Pte(m', dir, w))
  {
    hide Entry, PteIdx, PdeIdx, PageOf, Aligned;
    IndexRange(w);
    IndexRange(v);
    UpdatedDirectory(m, m', dir, v, page, table, PdeIdx(w));
    WalkParts(m', dir, w);
    var t, b := TableFor(m, dir, v, table), PteAddress(Pde(m', dir, w), w);
    assert Word(m', b) == WordAfter(m, dir, v, page, table, b);
    TableParts(m, dir, v, page, table);
    if PdeIdx(w) == PdeIdx(v) {
      if PteIdx(w) == PteIdx(v) { SameIndices(v, w); }
      if !Present(Pde(m, dir, v)) {
        EntryParts(table);
        InPage(table, b);
        MultipleOfFour(table, PteIdx(w));
      }
    } else if Present(Pde(m, dir, w)) {
      assert PageOf(b) != t;
      EntryInPage(dir, PdeIdx(v));
      if !Present(Pde(m, dir, v)) { InPage(table, b); }
    }
  }

  /** A table given out a second time: what was mapped through it is lost, but for v's own place in it. */
  lemma UpdatedShared(m: Memory, m': Memory, dir: nat, v: nat, page: nat, table: nat, w: nat)
    requires CanEdit(m, dir, v, page, table) && Updated(m, m', dir, v, page, table) && !Present(Pde(m, dir, v))
    requires w < 0xffc0_0000 && PdeIdx(w) != PdeIdx(v) && Present(Pde(m, dir, w)) && PageOf(Pde(m, dir, w)) == table
    ensures Translate(m', dir, w) == if PteIdx(w) == PteIdx(v) then Some(page + w % PG_SIZE) else None
  {
    IndexRange(w);
    IndexRange(v);
    EntryParts(page);
    UpdatedDirectory(m, m', dir, v, page, table, PdeIdx(w));
    var b := PteAddress(Pde(m', dir, w), w);
    assert Word(m', b) == WordAfter(m, dir, v, page, table, b);
    EntryInPage(table, PteIdx(w));
    InPage(table, b);
    MultipleOfFour(table, PteIdx(w));
    EntryInPage(dir, PdeIdx(v));
    hide Entry, PteIdx, PdeIdx, PageOf, Aligned;
  }

  lemma MultipleOfFour(table: nat, i: nat)
    requires Aligned(table)
    ensures (table + 4 * i) % 4 == 0
  {
  }

  lemma SameIndices(v: nat, w: nat)
    requires Aligned(v) && PdeIdx(v) == PdeIdx(w) && PteIdx(v) == PteIdx(w)
    ensures PageOf(w) == v
  {
  }

  // ---------------------------------------------------------------- the theorem

  /**
    page_table_add(v, page), with or without a new table: every address of v's page goes to the same place in
    `page`, and addr_v2p says so; every translation there was is kept, and the self-map.
  */
  lemma PageTableAddMaps(m: Memory, dir: nat, v: nat, page: nat, table: nat, k: nat, w: nat)
    requires CanAdd(m, dir, v, page, table) && k < PG_SIZE && w < TWO32
    ensures var r := PageTableAdd(m, dir, v, page, table);
            && r.Done?
            && Translate(r.mem, dir, v + k) == Some(page + k) == AddrV2P(r.mem, dir, v + k)
            && (Translate(m, dir, w) != None ==> Translate(r.mem, dir, w) == Translate(m, dir, w))
            && SelfMapped(r.mem, dir)
  {
    hide PageTableAdd, Translate, TablesApart, Unused, Updated, AddrV2P;
    if Present(Pde(m, dir, v)) {
      AddToTable(m, dir, v, page, table);
    } else {
      AddWithTable(m, dir, v, page, table);
    }
    var m' := PageTableAdd(m, dir, v, page, table).mem;
    UpdatedHere(m, m', dir, v, page, table);
    SamePage(m', dir, v, k);
    if Translate(m, dir, w) != None { UpdatedKeeps(m, m', dir, v, page, table, w); }
    SameEnd(v, k);
    AddrV2PAgrees(m', dir, v + k);
  }

  lemma SameEnd(v: nat, k: nat)
    requires v < 0xffc0_0000 && Aligned(v) && k < PG_SIZE
    ensures v + k < TWO32
  {
  }
}
