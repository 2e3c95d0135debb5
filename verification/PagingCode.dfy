/** memory.c: the allocator with its pools, bitmaps and page tables updated in place. */
module PagingCode {
  import opened Common
  import opened Paging
  import opened PageAlloc
  import opened PoolInit
  import opened NewDirectory

  class Machine {
    var mem: Memory
    /** The directory in cr3. */
    const dir: nat
    var kernelPool: Pool
    var userPool: Pool
    var kernelVirt: Pool
    var userVirt: Pool
    ghost var frames: seq<nat>
    ghost var pages: seq<nat>

    ghost function View(): Sys
      reads this
    {
      Sys(mem, dir, kernelPool, userPool, kernelVirt, userVirt, frames, pages)
    }

    /** mem_init, on the memory the loader leaves, and a process with all its pages free. */
    constructor (m: Memory, allMem: nat)
      requires allMem < TWO32
      ensures View() == Start(m, allMem)
    {
      var usedMem := PG_SIZE * 256 + 0x10_0000;
      var freeMem := Minus32(allMem, usedMem);
      var allFreePages := U16(freeMem / PG_SIZE);
      var kernelFreePages := U16(allFreePages / 2);
      var userFreePages := U16(allFreePages - kernelFreePages);
      var kbmLength, ubmLength := kernelFreePages / 8, userFreePages / 8;
      var kpStart := usedMem;
      var upStart := kpStart + kernelFreePages * PG_SIZE;
      mem, dir := m, BOOT_DIR;
      kernelPool := Pool(NoneSet(8 * kbmLength), kpStart);
      userPool := Pool(NoneSet(8 * ubmLength), upStart);
      kernelVirt := Pool(NoneSet(8 * kbmLength), K_HEAP_START);
      userVirt := AllUserPages();
      frames, pages := [], [];
    }

    /** *v */
    method Read(v: nat) returns (w: Option<nat>)
      ensures w == Load(mem, dir, v)
    {
      var p := Translate(mem, dir, v);
      w := if p == None then None else Some(Word(mem, p.value));
    }

    /** *v = w, unless the page is not there. */
    method Write(v: nat, w: nat) returns (ok: bool)
      modifies this`mem
      ensures ok <==> Store(old(mem), dir, v, w) != None
      ensures ok ==> Some(mem) == Store(old(mem), dir, v, w)
      ensures !ok ==> mem == old(mem)
    {
      var p := Translate(mem, dir, v);
      ok := p != None;
      if ok { mem := mem[p.value := w]; }
    }

    /** memset(v, 0, 4 * n) */
    method Clear(v: nat, n: nat) returns (ok: bool)
      modifies this`mem
      ensures ok <==> StoreZeros(old(mem), dir, v, n) != None
      ensures ok ==> Some(mem) == StoreZeros(old(mem), dir, v, n)
    {
      hide Translate, Store;
      var i := 0;
      while i < n
        invariant 0 <= i <= n
        invariant Some(mem) == StoreZeros(old(mem), dir, v, i)
      {
        ok := Write(v + 4 * i, 0);
        if !ok {
          ZerosStop(old(mem), dir, v, i + 1, n);
          return false;
        }
        i := i + 1;
      }
      return true;
    }

    /** bitmap_set, bit by bit. */
    static method SetRange(bits: seq<bool>, start: nat, n: nat) returns (r: seq<bool>)
      requires start + n <= |bits|
      ensures r == SetBits(bits, start, n)
    {
      r := bits;
      var cnt := 0;
      while cnt < n
        invariant 0 <= cnt <= n
        invariant r == SetBits(bits, start, cnt)
      {
        r := r[start + cnt := true];
        cnt := cnt + 1;
      }
    }

    method Palloc(pf: Flags) returns (page: Option<nat>)
      modifies this`kernelPool, this`userPool, this`frames
      ensures (View(), page) == old(PageAlloc.Palloc(View(), pf))
    {
      var pool := if pf == Kernel then kernelPool else userPool;
      var bit := FirstFit(pool.bits, 1, 0);
      FirstFitIs(pool.bits, 1, 0);
      if bit == None {
        return None;
      }
      var bits := SetRange(pool.bits, bit.value, 1);
      if pf == Kernel {
        kernelPool := pool.(bits := bits);
      } else {
        userPool := pool.(bits := bits);
      }
      var address := pool.start + bit.value * PG_SIZE;
      frames := frames + [address];
      return Some(address);
    }

    method VaddrGet(pf: Flags, n: nat) returns (got: Got)
      requires n > 0
      modifies this`kernelVirt, this`userVirt, this`pages
      ensures (View(), got) == old(PageAlloc.VaddrGet(View(), pf, n))
    {
      var virt := if pf == Kernel then kernelVirt else userVirt;
      var bit := FirstFit(virt.bits, n, 0);
      FirstFitIs(virt.bits, n, 0);
      if bit == None {
        return Nothing;
      }
      var bits := SetRange(virt.bits, bit.value, n);
      var address := virt.start + bit.value * PG_SIZE;
      pages := pages + Run(address, n);
      if pf == Kernel {
        kernelVirt := virt.(bits := bits);
        return Got(address);
      }
      userVirt := virt.(bits := bits);
      return if address < 0xc000_0000 - PG_SIZE then Got(address) else Stopped;
    }

    /** The part both branches of page_table_add end with. */
    method WritePte(v: nat, page: nat) returns (status: Status)
      modifies this`mem
      ensures var r := SetPte(old(mem), dir, v, page);
              && (status == Mapped ==> r == Done(mem))
              && (status == Faulted <==> r == Fault) && (status == Halted <==> r == Halt) && status != OutOfFrames
    {
      hide Translate, PtePtr;
      var pte := Read(PtePtr(v));
      if pte == None {
        return Faulted;
      }
      if Present(pte.value) {
        return Halted;
      }
      var ok := Write(PtePtr(v), Entry(page));
      return if ok then Mapped else Faulted;
    }

    method PageTableAdd(v: nat, page: nat) returns (status: Status)
      modifies this`mem, this`kernelPool, this`userPool, this`frames
      ensures status == old(AddPage(View(), v, page)).1 != OutOfFrames
      ensures status == Mapped ==> View() == old(AddPage(View(), v, page)).0
    {
      hide Translate, PtePtr, PdePtr, StoreZeros, SetPte, PageAlloc.Palloc, Store;
      var pde := Read(PdePtr(v));
      if pde == None {
        return Faulted;
      }
      if Present(pde.value) {
        status := WritePte(v, page);
        return;
      }
      var got := Palloc(Kernel);
      var table := if got == None then 0 else got.value;
      var ok := Write(PdePtr(v), Entry(table));
      if !ok {
        return Faulted;
      }
      ok := Clear(PageOf(PtePtr(v)), 1024);
      if !ok {
        return Faulted;
      }
      status := WritePte(v, page);
    }

    method MallocPage(pf: Flags, n: nat) returns (out: Outcome)
      modifies this
      ensures out == old(PageAlloc.MallocPage(View(), pf, n)).1
      ensures out != Dead ==> View() == old(PageAlloc.MallocPage(View(), pf, n)).0
    {
      hide AddPage, PageAlloc.Palloc, PageAlloc.VaddrGet, MapPages;
      if !(0 < n < 3840) {
        return Dead;
      }
      var got := VaddrGet(pf, n);
      if got == Nothing {
        return Null;
      }
      if got == Stopped {
        return Dead;
      }
      ghost var start := View();
      var vaddr: nat, cnt: nat := got.addr, n;
      while cnt > 0
        invariant cnt <= n
        invariant MapPages(View(), pf, vaddr, cnt) == MapPages(start, pf, got.addr, n)
      {
        MapPagesStep(View(), pf, vaddr, cnt);
        var page := Palloc(pf);
        if page == None {
          return Null;
        }
        var status := PageTableAdd(vaddr, page.value);
        if status != Mapped {
          return Dead;
        }
        vaddr := vaddr + PG_SIZE;
        cnt := cnt - 1;
      }
      NothingToMap(View(), pf, vaddr);
      return Address(got.addr);
    }

    /** memcpy of n words */
    method Copy(dst: nat, src: nat, n: nat) returns (ok: bool)
      modifies this`mem
      ensures ok <==> CopyWords(old(mem), dir, dst, src, n) != None
      ensures ok ==> Some(mem) == CopyWords(old(mem), dir, dst, src, n)
    {
      hide Translate, Load, Store;
      var i := 0;
      while i < n
        invariant 0 <= i <= n
        invariant Some(mem) == CopyWords(old(mem), dir, dst, src, i)
      {
        var w := Read(src + 4 * i);
        if w == None {
          CopyStops(old(mem), dir, dst, src, i + 1, n);
          return false;
        }
        ok := Write(dst + 4 * i, w.value);
        if !ok {
          CopyStops(old(mem), dir, dst, src, i + 1, n);
          return false;
        }
        i := i + 1;
      }
      return true;
    }

    /** create_page_dir */
    method CreatePageDir() returns (c: Created)
      modifies this
      ensures c == old(NewDirectory.CreatePageDir(View())).1
      ensures c != Trapped ==> View() == old(NewDirectory.CreatePageDir(View())).0
    {
      hide PageAlloc.MallocPage, StoreZeros, CopyWords, Translate, PtePtr, Store;
      var page := MallocPage(Kernel, 1);
      if page == Null {
        return Failed;
      }
      if page == Dead {
        return Trapped;
      }
      var v := page.addr;
      var ok := Clear(v, 1024);
      if !ok {
        return Trapped;
      }
      ok := Copy(v + 4 * 0x300, 0xffff_f000 + 4 * 0x300, 256);
      if !ok {
        return Trapped;
      }
      var pte := Read(PtePtr(v));
      if pte == None {
        return Trapped;
      }
      var newPageDir := PageOf(pte.value) + v % PG_SIZE;
      ok := Write(v + 4 * 1023, Entry(newPageDir));
      if !ok {
        return Trapped;
      }
      return Directory(v, mem);
    }

    /** addr_v2p, for an address whose table exists. */
    method AddrV2P(v: nat) returns (p: nat)
      requires SelfMapped(mem, dir) && v < TWO32 && Translate(mem, dir, v) != None
      ensures Some(p) == Translate(mem, dir, v)
    {
      AddrV2PAgrees(mem, dir, v);
      var pte := Read(PtePtr(v));
      p := PageOf(pte.value) + v % PG_SIZE;
    }
  }

  /** Nor does the rest of a copy. */
  lemma {:induction false} CopyStops(m: Memory, dir: nat, dst: nat, src: nat, i: nat, n: nat)
    requires i <= n && CopyWords(m, dir, dst, src, i) == None
    ensures CopyWords(m, dir, dst, src, n) == None
    decreases n
  {
    hide Store, Load;
    if i < n { CopyStops(m, dir, dst, src, i, n - 1); }
  }

  lemma {:induction false} MapPagesStep(s: Sys, pf: Flags, v: nat, n: nat)
    requires n > 0
    ensures var got := PageAlloc.Palloc(s, pf);
            && (got.1 == None ==> got.0 == s)
            && MapPages(s, pf, v, n)
            == if got.1 == None then (s, OutOfFrames)
               else
                 var added := AddPage(got.0, v, got.1.value);
                 if added.1 != Mapped then added else MapPages(added.0, pf, v + PG_SIZE, n - 1)
  {
    hide AddPage;
  }

  lemma {:induction false} NothingToMap(s: Sys, pf: Flags, v: nat)
    ensures MapPages(s, pf, v, 0) == (s, Mapped)
  {
  }

  /** Once a store has faulted the rest of the clearing does not happen. */
  lemma {:induction false} ZerosStop(m: Memory, dir: nat, v: nat, i: nat, n: nat)
    requires i <= n && StoreZeros(m, dir, v, i) == None
    ensures StoreZeros(m, dir, v, n) == None
    decreases n
  {
    hide Store;
    if i < n { ZerosStop(m, dir, v, i, n - 1); }
  }
}
