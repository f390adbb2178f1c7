/** The page tables that abstract-machine/am/src/x86/qemu/start64.S builds with 1 GiB pages, and
    that `vme_init` adopts on x86_64. */
module BootTables {
  import opened Words
  import opened Paging
  import opened PageTree
  import opened KernelInit

  const PML4_ADDR: nat := 0x1000
  const PDPT_ADDR: nat := 0x2000
  const PTE_PS: nat := 128

  /** `PDPT_ADDR | PTE_P | PTE_W` and `PTE_P | PTE_W | PTE_PS`. */
  const ROOT_ENTRY: nat := PDPT_ADDR + PTE_P + PTE_W
  const LARGE_FLAGS: nat := PTE_P + PTE_W + PTE_PS

  const GIB: nat := 0x4000_0000

  /** The entry of the i-th large page. */
  function LargeEntry(i: nat): nat { i * GIB + LARGE_FLAGS }

  predicate TablePage(mem: Mem, p: nat) { p in mem && |mem[p]| == 512 }

  /** One entry in the PML4, and 512 pages of 1 GiB below it. */
  ghost predicate Booted(mem: Mem) {
    && TablePage(mem, PML4_ADDR) && TablePage(mem, PDPT_ADDR)
    && mem[PML4_ADDR][0] == ROOT_ENTRY
    && (forall i {:trigger mem[PML4_ADDR][i]} :: 1 <= i < 512 ==> mem[PML4_ADDR][i] == 0)
    && (forall i {:trigger mem[PDPT_ADDR][i]} :: 0 <= i < 512 ==> mem[PDPT_ADDR][i] == LargeEntry(i))
  }

  // ---------------------------------------------------------- the loop of start64.S

  /** A 32-bit store into the low or the high half of a 64-bit entry. */
  function LowStored(e: nat, w: U32): nat { e / W32 * W32 + w }
  function HighStored(e: nat, w: U32): nat { w * W32 + e % W32 }

  /** The two halves of lines 18-25 make up the entry of a 1 GiB page, although `i << 30` does not
      fit 32 bits. */
  lemma Halves(i: nat, e: nat)
    requires i < 512
    ensures Or(i * GIB % W32, LARGE_FLAGS) < W32 && i / 4 < W32
    ensures HighStored(LowStored(e, Or(i * GIB % W32, LARGE_FLAGS)), i / 4) == LargeEntry(i)
  {
    var low := i % 4 * GIB;
    DivUnique(i * GIB, W32, i / 4, low);
    DivUnique(low, 4096, i % 4 * 0x4_0000, 0);
    SmallPowers();
    OrDisjoint(low, LARGE_FLAGS, 12);
    DivUnique(e / W32 * W32 + low + LARGE_FLAGS, W32, e / W32, low + LARGE_FLAGS);
  }

  /** Lines 7-29.  The first CPU finds a cleared PML4; the others find its tables and change nothing. */
  method BuildTables(mem: Mem) returns (mem': Mem)
    requires TablePage(mem, PML4_ADDR) && TablePage(mem, PDPT_ADDR)
    requires Booted(mem) || forall i {:trigger mem[PML4_ADDR][i]} :: 0 <= i < 512 ==> mem[PML4_ADDR][i] == 0
    ensures Booted(mem') && mem'.Keys == mem.Keys
    ensures forall p {:trigger mem'[p]} :: p in mem && p != PML4_ADDR && p != PDPT_ADDR ==> mem'[p] == mem[p]
    ensures Booted(mem) ==> mem' == mem
  {
    mem' := mem;
    if mem[PML4_ADDR][0] % W32 == ROOT_ENTRY { return; }
    mem' := Put(mem', PML4_ADDR, 0, LowStored(mem'[PML4_ADDR][0], ROOT_ENTRY));
    var i := 0;
    while i != 512
      invariant 0 <= i <= 512 && TablePage(mem', PML4_ADDR) && TablePage(mem', PDPT_ADDR) && mem'.Keys == mem.Keys
      invariant mem'[PML4_ADDR][0] == ROOT_ENTRY
      invariant forall k {:trigger mem'[PML4_ADDR][k]} :: 1 <= k < 512 ==> mem'[PML4_ADDR][k] == 0
      invariant forall k {:trigger mem'[PDPT_ADDR][k]} :: 0 <= k < i ==> mem'[PDPT_ADDR][k] == LargeEntry(k)
      invariant forall p {:trigger mem'[p]} :: p in mem && p != PML4_ADDR && p != PDPT_ADDR ==> mem'[p] == mem[p]
    {
      var e := mem'[PDPT_ADDR][i];
      Halves(i, e);
      var low := LowStored(e, Or(i * GIB % W32, LARGE_FLAGS));
      mem' := Put(mem', PDPT_ADDR, i, low);
      mem' := Put(mem', PDPT_ADDR, i, HighStored(low, i / 4));
      i := i + 1;
    }
  }

  // ---------------------------------------------------------- what the tables mean

  lemma LargeEntryMeans(i: nat)
    requires i < 512
    ensures var e := LargeEntry(i);
            e < W64 && Present(e) && Writable(e) && !User(e) && LargeAt(X86_64, 2, e) && e - e % GIB == i * GIB
  {
    var e := LargeEntry(i);
    DivUnique(e, 2, i * 0x2000_0000 + 65, 1);
    DivUnique(e / 2, 2, i * 0x1000_0000 + 32, 1);
    DivUnique(e, 4, i * 0x1000_0000 + 32, 3);
    DivUnique(e / 4, 2, i * 0x800_0000 + 16, 0);
    DivUnique(e, 128, i * 0x80_0000 + 1, 3);
    DivUnique(e / 128, 2, i * 0x40_0000, 1);
    DivUnique(e, GIB, i, LARGE_FLAGS);
  }

  /** Which entries an address below 2^48 selects. */
  lemma Selected(va: nat)
    requires X86_64.Valid() && va < 512 * 0x80_0000_0000
    ensures Index(X86_64, va, 1) == va / 0x80_0000_0000 < 512 && Index(X86_64, va, 2) == va / GIB % 512
    ensures va < 0x80_0000_0000 ==> va / GIB < 512
  {
    SmallPowers();
    IndexField(X86_64, va, 1);
    IndexField(X86_64, va, 2);
    DivBelow(va, 0x80_0000_0000, 512);
    SmallMod(va / 0x80_0000_0000, 512);
  }

  lemma PageOfLarge(va: nat)
    requires va % PGSIZE == 0
    ensures va / GIB * GIB + BaseOf(va % GIB) == va
  {
    var q := va / GIB;
    assert va == q * GIB + va % GIB;
    DivUnique(q * GIB, PGSIZE, q * 0x4_0000, 0);
    MultipleAdd(va, q * GIB, PGSIZE);
  }

  /** The 1 GiB page that holds va, below 512 GiB. */
  lemma LargeWalk(mem: Mem, va: nat)
    requires X86_64.Valid() && Booted(mem) && va % PGSIZE == 0 && va < 0x80_0000_0000
    ensures Walk(X86_64, mem, 2, PDPT_ADDR, va) == IdentityOf(va)
  {
    Selected(va);
    SmallMod(va / GIB, 512);
    var i := va / GIB;
    var e := mem[PDPT_ADDR][i];
    LargeEntryMeans(i);
    WalkLarge(X86_64, mem, 2, PDPT_ADDR, va, e);
    SmallPowers();
    assert X86_64.tables[2].shift == 30;
    PageOfLarge(va);
  }

  lemma RootEntryMeans()
    ensures Present(ROOT_ENTRY) && Writable(ROOT_ENTRY) && !User(ROOT_ENTRY) && BaseOf(ROOT_ENTRY) == PDPT_ADDR
    ensures !LargeAt(X86_64, 1, ROOT_ENTRY)
  {
  }

  /** Below the one entry of the PML4 that is set. */
  lemma LowWalk(mem: Mem, va: nat)
    requires X86_64.Valid() && Booted(mem) && Index(X86_64, va, 1) == 0
    requires Walk(X86_64, mem, 2, PDPT_ADDR, va) == IdentityOf(va)
    ensures Walk(X86_64, mem, 1, PML4_ADDR, va) == IdentityOf(va)
  {
    RootEntryMeans();
    WalkVia(X86_64, mem, 1, PML4_ADDR, va, ROOT_ENTRY);
  }

  lemma HighWalk(mem: Mem, va: nat)
    requires X86_64.Valid() && Booted(mem) && 1 <= Index(X86_64, va, 1) < 512
    ensures Walk(X86_64, mem, 1, PML4_ADDR, va) == None
  {
    WalkAbsent(X86_64, mem, 1, PML4_ADDR, va);
  }

  /** Pages below 512 GiB translate to themselves, others do not translate. */
  lemma BootWalk(mem: Mem, va: nat)
    requires X86_64.Valid() && Booted(mem) && va % PGSIZE == 0 && va < 512 * 0x80_0000_0000
    ensures Walk(X86_64, mem, 1, PML4_ADDR, va) == if va < 0x80_0000_0000 then IdentityOf(va) else None
  {
    Selected(va);
    if va < 0x80_0000_0000 {
      SmallMod(va, 0x80_0000_0000);
      LargeWalk(mem, va);
      LowWalk(mem, va);
    } else {
      assert va / 0x80_0000_0000 >= 1;
      HighWalk(mem, va);
    }
  }

  function BootLevels(): map<nat, nat> { map[PML4_ADDR := 1, PDPT_ADDR := 2] }

  lemma RootEntryOk(e: nat)
    requires e == ROOT_ENTRY || e == 0
    ensures KernelEntry(X86_64, BootLevels(), 1, e)
  {
    Pow2Words();
    RootEntryMeans();
  }

  lemma LargeEntryOk(i: nat)
    requires i < 512
    ensures KernelEntry(X86_64, BootLevels(), 2, LargeEntry(i))
  {
    Pow2Words();
    LargeEntryMeans(i);
  }

  /** The boot tables are closed: they lead to each other and to large pages only. */
  lemma BootFrozen(mem: Mem)
    requires X86_64.Valid() && Booted(mem)
    ensures Frozen(X86_64, mem, BootLevels())
  {
    var kern := BootLevels();
    forall i | 0 <= i < 512 ensures KernelEntry(X86_64, kern, 1, mem[PML4_ADDR][i]) {
      RootEntryOk(mem[PML4_ADDR][i]);
    }
    forall i | 0 <= i < 512 ensures KernelEntry(X86_64, kern, 2, mem[PDPT_ADDR][i]) {
      LargeEntryOk(i);
    }
  }

  /** What `vme_init` adopts is what it would otherwise build: the kernel's pages translate to themselves. */
  lemma BootReady(mem: Mem)
    requires Booted(mem)
    ensures X86_64.Valid() && X86_64.AreasOk() && KernelReady(X86_64, mem, PML4_ADDR, BootLevels())
  {
    ConfigsValid();
    BootFrozen(mem);
    SmallPowers();
    Pow2Add(39, 9);
    forall va: nat | InSpace(X86_64, va) && va % PGSIZE == 0
      ensures Walk(X86_64, mem, 1, PML4_ADDR, va) == if KernelPage(X86_64, 2, va) then IdentityOf(va) else None
    {
      BootWalk(mem, va);
      KernelIsLow(va);
    }
  }

  lemma KernelIsLow(va: nat)
    ensures KernelPage(X86_64, 2, va) <==> va < 0x80_0000_0000
  {
    if va < 0x80_0000_0000 { assert X86_64.areas[1].kernel && InArea(X86_64, X86_64.areas[1], va); }
  }
}
