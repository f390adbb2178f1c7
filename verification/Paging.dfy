/** The geometry of abstract-machine/am/src/x86/qemu/vme.c: how an address selects one entry
    at each level of the page tables, for any number of levels. */
module Paging {
  import opened Words

  const PGSIZE: nat := 4096
  const PTE_P: nat := 1
  const PTE_W: nat := 2
  const PTE_U: nat := 4

  /** One row of `mmu.pgtables`. */
  datatype PtInfo = PtInfo(mask: nat, shift: nat, bits: nat)

  datatype Area = Area(start: nat, end: nat, kernel: bool)

  /** `mmu` and `vm_areas`: `levels` levels of tables below the CR3 cell, words of `width` bits.
      A table fills one page with 2^tableBits entries.  areas[0] is the user area. */
  datatype Config = Config(levels: nat, tables: seq<PtInfo>, width: nat, tableBits: nat, areas: seq<Area>) {
    predicate Valid() {
      && levels >= 2 && |tables| == levels + 1 && width >= 12 && 1 <= tableBits
      && tables[0] == PtInfo(0, 0, 0)
      && tables[levels].shift == 12
      && (forall l {:trigger tables[l]} :: 1 <= l <= levels ==>
         tables[l].bits == tableBits && tables[l].mask == Mask(tableBits, tables[l].shift))
      && (forall l {:trigger Adjoins(l)} :: 1 <= l < levels ==> Adjoins(l))
      && Top() <= width
    }

    /** Level l selects by the field just above that of level l + 1. */
    predicate Adjoins(l: nat)
      requires 1 <= l < |tables| - 1
    {
      tables[l].shift == tables[l + 1].shift + tableBits
    }

    /** Addresses below 2^Top() are translated. */
    function Top(): nat
      requires |tables| >= 2
    {
      tables[1].shift + tables[1].bits
    }

    /** Where an area stops; the last one may wrap around to address 0. */
    function End(a: Area): nat {
      if a.end == 0 then Pow2(width) else a.end
    }

    /** Areas are made of whole level-1 entries. */
    predicate AreaOk(a: Area)
      requires |tables| >= 2
    {
      && a.start < End(a) <= Pow2(Top()) && (a.end == 0 ==> a.start > 0) && a.end < Pow2(width)
      && a.start % Pow2(tables[1].shift) == 0 && End(a) % Pow2(tables[1].shift) == 0
    }

    predicate AreasOk()
      requires |tables| >= 2
    {
      && |areas| >= 2 && !areas[0].kernel && areas[1].kernel
      && (forall k {:trigger areas[k]} :: 0 <= k < |areas| ==>
            AreaOk(areas[k]) && (areas[k].kernel ==>
              End(areas[k]) <= areas[0].start || End(areas[0]) <= areas[k].start))
    }

    function Bits(l: nat): nat
      requires Valid() && l <= levels
    {
      tables[l].bits
    }
  }

  const I386 := Config(2, [PtInfo(0, 0, 0), PtInfo(0xffc00000, 22, 10), PtInfo(0x003ff000, 12, 10)], 32, 10,
                       [Area(0x40000000, 0x80000000, false), Area(0x00000000, 0x40000000, true),
                         Area(0xfd000000, 0x00000000, true)])

  const X86_64 := Config(4, [PtInfo(0, 0, 0), PtInfo(0xff8000000000, 39, 9), PtInfo(0x007fc0000000, 30, 9),
                             PtInfo(0x00003fe00000, 21, 9), PtInfo(0x0000001ff000, 12, 9)], 64, 9,
                         [Area(0x100000000000, 0x108000000000, false), Area(0x000000000000, 0x008000000000, true)])

  /** Both builds of the repository are configurations in this sense. */
  lemma ConfigsValid()
    ensures I386.Valid() && I386.Top() == 32 && I386.AreasOk() && X86_64.Valid() && X86_64.Top() == 48 &&
        X86_64.AreasOk()
  {
    Masks();
    ConfigsShaped();
    AreasOk();
  }

  lemma ConfigsShaped()
    requires Mask(10, 22) == 0xffc00000 && Mask(10, 12) == 0x003ff000
    requires Mask(9, 39) == 0xff8000000000 && Mask(9, 30) == 0x007fc0000000 && Mask(9, 21) == 0x00003fe00000 &&
        Mask(9, 12) == 0x0000001ff000
    ensures I386.Valid() && I386.Top() == 32 && X86_64.Valid() && X86_64.Top() == 48
  {
  }

  lemma AreasOk()
    ensures I386.AreasOk() && X86_64.AreasOk()
  {
    SmallPowers();
    AreasOk32();
    AreasOk64();
  }

  lemma AreasOk32()
    requires Pow2(22) == 0x400000
    ensures I386.AreasOk()
  {
    Pow2Words();
    assert I386.Top() == 32;
    assert I386.AreaOk(I386.areas[0]) && I386.AreaOk(I386.areas[1]) && I386.AreaOk(I386.areas[2]);
  }

  lemma AreasOk64()
    requires Pow2(39) == 0x80_0000_0000 && Pow2(9) == 512
    ensures X86_64.AreasOk()
  {
    Pow2Add(39, 9);
    Pow2Words();
    assert X86_64.Top() == 48;
    assert X86_64.AreaOk(X86_64.areas[0]) && X86_64.AreaOk(X86_64.areas[1]);
  }

  lemma Masks()
    ensures Mask(10, 22) == 0xffc00000 && Mask(10, 12) == 0x003ff000
    ensures Mask(9, 39) == 0xff8000000000 && Mask(9, 30) == 0x007fc0000000 && Mask(9, 21) == 0x00003fe00000 &&
        Mask(9, 12) == 0x0000001ff000
  {
    MaskValue(10, 22); MaskValue(10, 12); MaskValue(9, 39); MaskValue(9, 30); MaskValue(9, 21); MaskValue(9, 12);
    SmallPowers();
  }

  lemma SmallPowers()
    ensures Pow2(9) == 512 && Pow2(10) == 1024 && Pow2(12) == 4096 && Pow2(21) == 0x200000 && Pow2(22) == 0x400000
    ensures Pow2(30) == 0x4000_0000 && Pow2(39) == 0x80_0000_0000
  {
    assert Pow2(3) == 8 && Pow2(6) == 64;
    Pow2Add(3, 6); Pow2Add(9, 1); Pow2Add(9, 3); Pow2Add(12, 9); Pow2Add(21, 1); Pow2Add(21, 9); Pow2Add(30, 9);
  }

  // ---------------------------------------------------------- bit operations of the code

  /** `indexof` (lines 49-51). */
  function IndexOf(addr: nat, info: PtInfo): nat {
    DivBound(And(addr, info.mask), Pow2(info.shift));
    And(addr, info.mask) / Pow2(info.shift)
  }

  /** `~(mmu.pgsize - 1)` on a word. */
  function PageMask(cfg: Config): nat
    requires cfg.width >= 12
  {
    Mask(cfg.width - 12, 12)
  }

  /** `baseof` (lines 53-55), also ROUNDDOWN to a page. */
  function BaseOfWord(cfg: Config, addr: nat): nat
    requires cfg.width >= 12
  {
    And(addr, PageMask(cfg))
  }

  function BaseOf(e: nat): nat { e - e % PGSIZE }
  predicate Present(e: nat) { e % 2 == 1 }
  predicate Writable(e: nat) { e / 2 % 2 == 1 }
  predicate User(e: nat) { e / 4 % 2 == 1 }

  /** PTE_PS: below level 1 and above the last, such an entry is not a link but maps a large page.
      Level-1 entries have no such bit; with two levels it does nothing unless CR4.PSE is set. */
  predicate LargeAt(cfg: Config, l: nat, e: nat) { 2 <= l < cfg.levels && e / 128 % 2 == 1 }

  lemma {:induction false} AndMask(x: nat, j: nat, k: nat)
    ensures And(x, Mask(j, k)) == (x / Pow2(k) % Pow2(j)) * Pow2(k)
    decreases k
  {
    if k == 0 {
      AndLowMask(x, j);
      assert x / 1 == x;
    } else {
      AndDouble(x, Mask(j, k - 1));
      AndMask(x / 2, j, k - 1);
      DivDiv(x, 2, Pow2(k - 1));
      MulAssoc(2, x / Pow2(k) % Pow2(j), Pow2(k - 1));
    }
  }

  /** What the masks of the code extract from a word. */
  lemma WordParts(cfg: Config, e: nat)
    requires cfg.width >= 12 && e < Pow2(cfg.width)
    ensures And(e, PTE_P) != 0 <==> Present(e)
    ensures And(e, PTE_U) != 0 <==> User(e)
    ensures BaseOfWord(cfg, e) == BaseOf(e)
  {
    AndLowMask(e, 1);
    assert Pow2(1) == 2;
    AndFieldMask(e, 1, 2);
    assert Mask(1, 2) == 4 && Pow2(2) == 4;
    AndMask(e, cfg.width - 12, 12);
    SmallPowers();
    Pow2Add(12, cfg.width - 12);
    DivBelow(e, 4096, Pow2(cfg.width - 12));
    SmallMod(e / 4096, Pow2(cfg.width - 12));
    assert e == 4096 * (e / 4096) + e % 4096;
  }

  lemma DivBelow(x: nat, a: nat, b: nat)
    requires a > 0 && b > 0 && x < a * b
    ensures x / a < b
  {
    if x / a >= b {
      MulMono(b, x / a, a);
    }
  }

  lemma OrPage(base: nat, flags: nat)
    requires base % PGSIZE == 0 && flags < 8
    ensures Or(base, flags) == base + flags
  {
    SmallPowers();
    OrDisjoint(base, flags, 12);
  }

  lemma NotLarge(base: nat, flags: nat)
    requires base % PGSIZE == 0 && flags < 8
    ensures (base + flags) / 128 % 2 == 0
  {
    var q := base / PGSIZE;
    DivUnique(base + flags, 128, 32 * q, flags);
    DivUnique(32 * q, 2, 16 * q, 0);
  }

  lemma FlagsBelow(base: nat, flags: nat)
    requires base % PGSIZE == 0 && flags < 8
    ensures (base + flags) % PGSIZE == flags && (base + flags) % 8 == flags
    ensures (base + flags) % 2 == flags % 2 && (base + flags) / 2 % 2 == flags / 2 % 2 &&
        (base + flags) / 4 % 2 == flags / 4 % 2
  {
    var q := base / PGSIZE;
    DivUnique(base + flags, PGSIZE, q, flags);
    DivUnique(base + flags, 8, 512 * q, flags);
    DivUnique(base + flags, 2, 2048 * q + flags / 2, flags % 2);
    DivUnique((base + flags) / 2, 2, 1024 * q + flags / 4, flags / 2 % 2);
    DivUnique(base + flags, 4, 1024 * q + flags / 4, flags % 4);
    DivUnique((base + flags) / 4, 2, 512 * q, flags / 4);
  }

  /** An entry is a page base with flag bits below it. */
  lemma EntryParts(base: nat, flags: nat)
    requires base % PGSIZE == 0 && flags < 8
    ensures Or(base, flags) == base + flags && BaseOf(base + flags) == base
    ensures Present(base + flags) <==> Present(flags)
    ensures Writable(base + flags) <==> Writable(flags)
    ensures User(base + flags) <==> User(flags)
    ensures (base + flags) / 128 % 2 == 0
  {
    OrPage(base, flags);
    NotLarge(base, flags);
    FlagsBelow(base, flags);
  }

  // ---------------------------------------------------------- the path of an address

  /** A table is named by the indices that lead to it from the CR3 cell. */
  type Path = seq<nat>

  function Index(cfg: Config, va: nat, l: nat): nat
    requires cfg.Valid() && l <= cfg.levels
  {
    IndexOf(va, cfg.tables[l])
  }

  /** The table an address uses at level l. */
  function At(cfg: Config, va: nat, l: nat): (n: Path)
    requires cfg.Valid() && l <= cfg.levels
    ensures |n| == l && forall k {:trigger n[k]} :: 0 <= k < l ==> n[k] == Index(cfg, va, k)
  {
    seq(l, k requires 0 <= k < l => Index(cfg, va, k))
  }

  /** The entry an address selects at level l leads to the table it uses at level l + 1. */
  lemma PathStep(cfg: Config, va: nat, l: nat)
    requires cfg.Valid() && l < cfg.levels
    ensures At(cfg, va, l + 1) == At(cfg, va, l) + [Index(cfg, va, l)]
  {
  }

  /** The masks and shifts of the code extract an index field that fits the table. */
  lemma IndexField(cfg: Config, va: nat, l: nat)
    requires cfg.Valid() && 1 <= l <= cfg.levels
    ensures Index(cfg, va, l) == va / Pow2(cfg.tables[l].shift) % Pow2(cfg.tableBits)
    ensures Index(cfg, va, l) < Pow2(cfg.tableBits)
  {
    AndFieldMask(va, cfg.tableBits, cfg.tables[l].shift);
  }

  lemma CellIndex(cfg: Config, va: nat)
    requires cfg.Valid()
    ensures Index(cfg, va, 0) == 0
  {
    assert And(va, 0) == 0;
  }

  lemma IndexBound(cfg: Config, va: nat, l: nat)
    requires cfg.Valid() && l <= cfg.levels
    ensures Index(cfg, va, l) < Pow2(cfg.Bits(l))
  {
    if l == 0 { CellIndex(cfg, va); } else { IndexField(cfg, va, l); }
  }

  /** An address agrees with another above bit s if they agree above bit s + b and in the field between. */
  lemma FieldsAgree(va: nat, wa: nat, s: nat, b: nat)
    requires va / Pow2(s + b) == wa / Pow2(s + b)
    requires va / Pow2(s) % Pow2(b) == wa / Pow2(s) % Pow2(b)
    ensures va / Pow2(s) == wa / Pow2(s)
  {
    Pow2Add(s, b);
    DivDiv(va, Pow2(s), Pow2(b));
    DivDiv(wa, Pow2(s), Pow2(b));
    SameQuotient(va / Pow2(s), wa / Pow2(s), Pow2(b));
  }

  lemma SameQuotient(x: int, y: int, p: nat)
    requires p > 0 && x / p == y / p && x % p == y % p
    ensures x == y
  {
    assert x == p * (x / p) + x % p && y == p * (y / p) + y % p;
  }

  predicate InSpace(cfg: Config, va: nat)
    requires cfg.Valid()
  {
    va < Pow2(cfg.Top())
  }

  /** Every level's index is the same for both addresses. */
  ghost predicate SameIndices(cfg: Config, va: nat, wa: nat)
    requires cfg.Valid()
  {
    forall l {:trigger Index(cfg, va, l)} :: 0 <= l <= cfg.levels ==> Index(cfg, va, l) == Index(cfg, wa, l)
  }

  /** va and wa agree from bit s upwards. */
  predicate SameAbove(va: nat, wa: nat, s: nat) {
    if s == 0 then va == wa else SameAbove(va / 2, wa / 2, s - 1)
  }

  lemma {:induction false} SameAboveIs(va: nat, wa: nat, s: nat)
    ensures SameAbove(va, wa, s) <==> va / Pow2(s) == wa / Pow2(s)
    decreases s
  {
    if s > 0 {
      SameAboveIs(va / 2, wa / 2, s - 1);
      DivDiv(va, 2, Pow2(s - 1));
      DivDiv(wa, 2, Pow2(s - 1));
    }
  }

  lemma SameAboveTop(va: nat, wa: nat, s: nat)
    requires va < Pow2(s) && wa < Pow2(s)
    ensures SameAbove(va, wa, s)
  {
    SmallMod(va, Pow2(s));
    SmallMod(wa, Pow2(s));
    SameAboveIs(va, wa, s);
  }

  lemma SameAboveField(cfg: Config, va: nat, wa: nat, l: nat)
    requires cfg.Valid() && 1 <= l <= cfg.levels && Index(cfg, va, l) == Index(cfg, wa, l)
    requires SameAbove(va, wa, cfg.tables[l].shift + cfg.tableBits)
    ensures SameAbove(va, wa, cfg.tables[l].shift)
  {
    IndexField(cfg, va, l);
    IndexField(cfg, wa, l);
    SameAboveIs(va, wa, cfg.tables[l].shift + cfg.tableBits);
    SameAboveIs(va, wa, cfg.tables[l].shift);
    FieldsAgree(va, wa, cfg.tables[l].shift, cfg.tableBits);
  }

  lemma AgreeAbove(cfg: Config, va: nat, wa: nat, l: nat)
    requires cfg.Valid() && InSpace(cfg, va) && InSpace(cfg, wa) && 1 <= l <= cfg.levels && SameIndices(cfg, va, wa)
    ensures SameAbove(va, wa, cfg.tables[l].shift)
    decreases l
  {
    if l == 1 {
      AgreeTop(cfg, va, wa);
    } else {
      AgreeAbove(cfg, va, wa, l - 1);
      assert cfg.Adjoins(l - 1);
    }
    SameAboveField(cfg, va, wa, l);
  }

  lemma AgreeTop(cfg: Config, va: nat, wa: nat)
    requires cfg.Valid() && InSpace(cfg, va) && InSpace(cfg, wa)
    ensures SameAbove(va, wa, cfg.tables[1].shift + cfg.tableBits)
  {
    assert cfg.tables[1].bits == cfg.tableBits;
    SameAboveTop(va, wa, cfg.Top());
  }

  lemma AlignedSame(va: nat, wa: nat)
    requires SameAbove(va, wa, 12) && va % PGSIZE == 0 && wa % PGSIZE == 0
    ensures va == wa
  {
    SmallPowers();
    SameAboveIs(va, wa, 12);
    SameQuotient(va, wa, PGSIZE);
  }

  /** The index vector determines a page-aligned address. */
  lemma IndexVectorUnique(cfg: Config, va: nat, wa: nat)
    requires cfg.Valid() && InSpace(cfg, va) && InSpace(cfg, wa) && va % PGSIZE == 0 && wa % PGSIZE == 0
    requires SameIndices(cfg, va, wa)
    ensures va == wa
  {
    AgreeAbove(cfg, va, wa, cfg.levels);
    AlignedSame(va, wa);
  }

  /** Two page-aligned addresses that use the same leaf entry are the same address. */
  lemma LeafUnique(cfg: Config, va: nat, wa: nat)
    requires cfg.Valid() && InSpace(cfg, va) && InSpace(cfg, wa) && va % PGSIZE == 0 && wa % PGSIZE == 0
    requires At(cfg, va, cfg.levels) == At(cfg, wa, cfg.levels) &&
        Index(cfg, va, cfg.levels) == Index(cfg, wa, cfg.levels)
    ensures va == wa
  {
    forall l | 0 <= l <= cfg.levels ensures Index(cfg, va, l) == Index(cfg, wa, l) {
      if l < cfg.levels {
        assert At(cfg, va, cfg.levels)[l] == At(cfg, wa, cfg.levels)[l];
      }
    }
    IndexVectorUnique(cfg, va, wa);
  }

  // ---------------------------------------------------------- areas and level-1 entries

  /** Some address of `lo .. hi` uses slot j of the level-1 table. */
  ghost predicate UsesSlot(cfg: Config, lo: nat, hi: nat, j: nat)
    requires cfg.Valid()
  {
    exists va: nat {:trigger Index(cfg, va, 1)} :: lo <= va < hi && Index(cfg, va, 1) == j
  }

  /** The kernel areas among the first k areas use slot j. */
  ghost predicate KernelSlot(cfg: Config, k: nat, j: nat)
    requires cfg.Valid() && k <= |cfg.areas|
  {
    exists a {:trigger cfg.areas[a]} ::
      0 <= a < k && cfg.areas[a].kernel && UsesSlot(cfg, cfg.areas[a].start, cfg.End(cfg.areas[a]), j)
  }

  function Chunk(cfg: Config): (r: nat)
    requires |cfg.tables| >= 2
    ensures r > 0
  {
    Pow2(cfg.tables[1].shift)
  }

  lemma ChunkOrder(x: nat, y: nat, m: nat, d: nat)
    requires d > 0 && m % d == 0 && x < m <= y
    ensures x / d < y / d
  {
    var q := m / d;
    assert m == q * d;
    DivBelow(x, d, q);
    var z := y - m;
    Distribute(q, z / d, d);
    DivUnique(y, d, q + z / d, z % d);
  }

  /** Addresses with the same level-1 index lie in the same chunk. */
  lemma SameSlot(cfg: Config, va: nat, wa: nat)
    requires cfg.Valid() && InSpace(cfg, va) && InSpace(cfg, wa) && Index(cfg, va, 1) == Index(cfg, wa, 1)
    ensures va / Chunk(cfg) == wa / Chunk(cfg)
  {
    AgreeTop(cfg, va, wa);
    SameAboveField(cfg, va, wa, 1);
    SameAboveIs(va, wa, cfg.tables[1].shift);
  }

  lemma SlotOfChunk(cfg: Config, va: nat, wa: nat)
    requires cfg.Valid() && va / Chunk(cfg) == wa / Chunk(cfg)
    ensures Index(cfg, va, 1) == Index(cfg, wa, 1)
  {
    IndexField(cfg, va, 1);
    IndexField(cfg, wa, 1);
  }

  lemma InOneChunk(x: nat, c: nat, d: nat)
    requires d > 0 && c % d == 0 && c <= x < c + d
    ensures x / d == c / d
  {
    assert c == (c / d) * d;
    DivUnique(x, d, c / d, x - c);
  }

  /** User addresses share no level-1 entry with the kernel. */
  lemma UserSlot(cfg: Config, va: nat)
    requires cfg.Valid() && cfg.AreasOk() && cfg.areas[0].start <= va < cfg.End(cfg.areas[0])
    ensures InSpace(cfg, va) && !KernelSlot(cfg, |cfg.areas|, Index(cfg, va, 1))
  {
    assert cfg.AreaOk(cfg.areas[0]);
    forall a, wa: nat | 0 <= a < |cfg.areas| && cfg.areas[a].kernel && cfg.areas[a].start <= wa < cfg.End(cfg.areas[a])
      ensures Index(cfg, wa, 1) != Index(cfg, va, 1)
    {
      UserKernelApart(cfg, va, a, wa);
    }
  }

  lemma UserKernelApart(cfg: Config, va: nat, a: nat, wa: nat)
    requires cfg.Valid() && cfg.AreasOk() && cfg.areas[0].start <= va < cfg.End(cfg.areas[0])
    requires a < |cfg.areas| && cfg.areas[a].kernel && cfg.areas[a].start <= wa < cfg.End(cfg.areas[a])
    ensures Index(cfg, wa, 1) != Index(cfg, va, 1)
  {
    assert cfg.AreaOk(cfg.areas[0]) && cfg.AreaOk(cfg.areas[a]);
    if Index(cfg, wa, 1) == Index(cfg, va, 1) {
      SameSlot(cfg, va, wa);
      if cfg.End(cfg.areas[a]) <= cfg.areas[0].start {
        ChunkOrder(wa, va, cfg.areas[0].start, Chunk(cfg));
      } else {
        ChunkOrder(va, wa, cfg.areas[a].start, Chunk(cfg));
      }
    }
  }

  /** The next chunk adds its own slot. */
  lemma UsesNext(cfg: Config, lo: nat, c: nat, j: nat)
    requires cfg.Valid() && lo <= c && c % Chunk(cfg) == 0
    ensures UsesSlot(cfg, lo, c + Chunk(cfg), j) <==> UsesSlot(cfg, lo, c, j) || j == Index(cfg, c, 1)
  {
    if UsesSlot(cfg, lo, c + Chunk(cfg), j) && !UsesSlot(cfg, lo, c, j) {
      var va: nat :| lo <= va < c + Chunk(cfg) && Index(cfg, va, 1) == j;
      assert !(va < c);
      InOneChunk(va, c, Chunk(cfg));
      SlotOfChunk(cfg, va, c);
    }
    if UsesSlot(cfg, lo, c, j) {
      var va: nat :| lo <= va < c && Index(cfg, va, 1) == j;
      assert lo <= va < c + Chunk(cfg);
    }
    assert lo <= c < c + Chunk(cfg);
  }
}
