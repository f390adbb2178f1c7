/** `vme_init` of abstract-machine/am/src/x86/qemu/vme.c: the kernel's identity map. */
module KernelInit {
  import opened Words
  import opened Paging
  import opened PageTree
  import opened VmeCode
  import opened MapCode
  import opened KernelSpace
  import opened TableCount

  predicate InArea(cfg: Config, a: Area, va: nat) { a.start <= va < cfg.End(a) }

  /** va lies in a kernel area among the first k, or below c in area k. */
  ghost predicate Covered(cfg: Config, k: nat, c: nat, va: nat)
    requires k < |cfg.areas|
  {
    KernelPage(cfg, k, va) || (cfg.areas[k].kernel && cfg.areas[k].start <= va < c)
  }

  ghost predicate KernelPage(cfg: Config, k: nat, va: nat)
    requires k <= |cfg.areas|
  {
    exists a {:trigger cfg.areas[a]} :: 0 <= a < k && cfg.areas[a].kernel && InArea(cfg, cfg.areas[a], va)
  }

  function IdentityOf(va: nat): Option<Mapping> { Some(Mapping(va, true, false)) }

  /** Pages of the first k kernel areas, and of area k up to c, are mapped to themselves; no other is. */
  ghost predicate IdentityTo(cfg: Config, mem: Mem, cell: nat, k: nat, c: nat)
    requires cfg.Valid() && k < |cfg.areas|
  {
    forall va: nat {:trigger Flat(cfg, mem, cell, va)} :: InSpace(cfg, va) && va % PGSIZE == 0 ==>
      Flat(cfg, mem, cell, va) == if Covered(cfg, k, c, va) then IdentityOf(va) else None
  }

  ghost predicate Identity(cfg: Config, mem: Mem, cell: nat, k: nat)
    requires cfg.Valid() && k <= |cfg.areas|
  {
    forall va: nat {:trigger Flat(cfg, mem, cell, va)} :: InSpace(cfg, va) && va % PGSIZE == 0 ==>
      Flat(cfg, mem, cell, va) == if KernelPage(cfg, k, va) then IdentityOf(va) else None
  }

  /** The kernel's own tree: it shares nothing and its entries are not for user code. */
  ghost predicate Built(cfg: Config, mem: Mem, pool: seq<nat>, cell: nat, sp: Space)
    requires cfg.Valid()
  {
    match sp
    case Space(own, kern, foreign, user) =>
      && TreeOk(cfg, mem, sp) && PoolOk(cfg, mem, pool) && PoolApart(pool, sp)
      && own[[]] == cell && kern == map[] && foreign == {} && !user
  }

  lemma IdentityStarts(cfg: Config, mem: Mem, cell: nat, k: nat)
    requires cfg.Valid() && k < |cfg.areas| && Identity(cfg, mem, cell, k)
    ensures IdentityTo(cfg, mem, cell, k, cfg.areas[k].start)
  {
  }

  lemma KernelPageStep(cfg: Config, k: nat, va: nat)
    requires k < |cfg.areas|
    ensures KernelPage(cfg, k + 1, va) <==>
        KernelPage(cfg, k, va) || (cfg.areas[k].kernel && InArea(cfg, cfg.areas[k], va))
  {
    if KernelPage(cfg, k, va) {
      var a :| 0 <= a < k && cfg.areas[a].kernel && InArea(cfg, cfg.areas[a], va);
      assert 0 <= a < k + 1;
    }
  }

  lemma IdentityEnds(cfg: Config, mem: Mem, cell: nat, k: nat)
    requires cfg.Valid() && k < |cfg.areas|
    requires if cfg.areas[k].kernel then IdentityTo(cfg, mem, cell, k, cfg.End(cfg.areas[k]))
        else Identity(cfg, mem, cell, k)
    ensures Identity(cfg, mem, cell, k + 1)
  {
    forall va: nat | InSpace(cfg, va) && va % PGSIZE == 0
      ensures Flat(cfg, mem, cell, va) == if KernelPage(cfg, k + 1, va) then IdentityOf(va) else None
    {
      KernelPageStep(cfg, k, va);
    }
  }

  lemma IdentityNext(cfg: Config, mem: Mem, mem': Mem, cell: nat, k: nat, c: nat)
    requires cfg.Valid() && k < |cfg.areas| && cfg.areas[k].kernel && cfg.areas[k].start <= c && c % PGSIZE == 0
    requires IdentityTo(cfg, mem, cell, k, c) && Flat(cfg, mem', cell, c) == IdentityOf(c)
    requires forall wa: nat {:trigger Flat(cfg, mem', cell, wa)} :: InSpace(cfg, wa) && wa % PGSIZE == 0 && wa != c ==>
               Flat(cfg, mem', cell, wa) == Flat(cfg, mem, cell, wa)
    ensures IdentityTo(cfg, mem', cell, k, c + PGSIZE)
  {
    forall va: nat | InSpace(cfg, va) && va % PGSIZE == 0
      ensures Flat(cfg, mem', cell, va) == if Covered(cfg, k, c + PGSIZE, va) then IdentityOf(va) else None
    {
      if va != c {
        assert Flat(cfg, mem', cell, va) == Flat(cfg, mem, cell, va);
        PagesBetween(va, c);
      }
    }
  }

  lemma PagesBetween(va: nat, c: nat)
    requires va % PGSIZE == 0 && c % PGSIZE == 0 && va != c
    ensures va < c <==> va < c + PGSIZE
  {
  }

  /** The empty tree: a NULL `as.ptr`. */
  lemma EmptyTree(cfg: Config, mem: Mem, pool: seq<nat>, cell: nat)
    requires cfg.Valid() && cell in mem && mem[cell] == [0] && cell !in pool && PoolOk(cfg, mem, pool)
    ensures Built(cfg, mem, pool, cell, Space(map[[] := cell], map[], {}, false)) && Identity(cfg, mem, cell, 0)
  {
    var nil: Path := [];
    var sp := Space(map[nil := cell], map[], {}, false);
    assert Pow2(0) == 1;
    forall i | 0 <= i < |mem[cell]| ensures EntryOk(cfg, sp, nil, i, mem[cell][i]) {}
    assert NodeOk(cfg, mem, sp, nil);
    forall va: nat ensures Flat(cfg, mem, cell, va) == None {
      CellIndex(cfg, va);
      WalkAbsent(cfg, mem, 0, cell, va);
    }
  }

  /** One page of the loop: `*ptwalk(&as, cur, PTE_W) = cur | PTE_P | PTE_W`. */
  method MapIdentity(cfg: Config, mem: Mem, pool: seq<nat>, cell: nat, cur: nat, ghost sp: Space)
    returns (ok: bool, mem': Mem, pool': seq<nat>, ghost sp': Space)
    requires cfg.Valid() && Built(cfg, mem, pool, cell, sp) && InSpace(cfg, cur) && cur % PGSIZE == 0 &&
        cur < Pow2(cfg.width)
    ensures ok <==> |sp.own.Keys + PathsTo(cfg, cur, cfg.levels)| <= |sp.own.Keys| + |pool|
    ensures ok ==>
        Counted(sp'.own, |pool'|, sp.own.Keys + PathsTo(cfg, cur, cfg.levels), |sp.own.Keys| + |pool|)
    ensures ok ==>
              && Built(cfg, mem', pool', cell, sp') && [0] in sp'.own && Flat(cfg, mem', cell, cur) == IdentityOf(cur)
              && forall wa: nat {:trigger Flat(cfg, mem', cell, wa)} ::
                 InSpace(cfg, wa) && wa % PGSIZE == 0 && wa != cur ==>
                   Flat(cfg, mem', cell, wa) == Flat(cfg, mem, cell, wa)
  {
    var pt;
    ghost var taken;
    ok, mem', pool', pt, sp', taken := PtWalk(cfg, mem, pool, cell, cur, PTE_W, sp);
    WalkAdds(cfg, sp, cur);
    if !ok { return; }
    var e := LinkWord(cur, PTE_W);
    LinkWordParts(cfg, cur, PTE_W);
    LeafMapped(cfg, mem, mem', pool, taken, sp, sp', cur, e);
    mem' := Put(mem', pt, IndexOf(cur, cfg.tables[cfg.levels]), e);
    MappedPool(cfg, mem, mem', pool, taken, sp, sp', cur, LeafMapping(e));
    RootLinked(cfg, mem', sp', cur);
  }

  lemma RootLinked(cfg: Config, mem: Mem, sp: Space, va: nat)
    requires cfg.Valid() && TreeOk(cfg, mem, sp) && At(cfg, va, cfg.levels) in sp.own
    ensures [0] in sp.own
  {
    WalkToLeaf(cfg, mem, sp, 1, va);
    CellIndex(cfg, va);
    assert At(cfg, va, 1) == [0];
  }

  lemma ShiftAtLeast(cfg: Config, l: nat)
    requires cfg.Valid() && 1 <= l <= cfg.levels
    ensures cfg.tables[l].shift >= 12
    decreases cfg.levels - l
  {
    if l < cfg.levels {
      ShiftAtLeast(cfg, l + 1);
      assert cfg.Adjoins(l);
    }
  }

  lemma ChunkPages(cfg: Config, x: nat)
    requires cfg.Valid() && x % Chunk(cfg) == 0
    ensures x % PGSIZE == 0
  {
    ShiftAtLeast(cfg, 1);
    var s := cfg.tables[1].shift;
    Pow2Add(12, s - 12);
    SmallPowers();
    var q := x / Chunk(cfg);
    assert x == q * Chunk(cfg);
    MulAssoc(q, PGSIZE, Pow2(s - 12));
    DivUnique(x, PGSIZE, q * Pow2(s - 12), 0);
  }

  /** The loop variable stands at address c of the area, or at its end, counted without wrap-around. */
  ghost predicate OnPage(w: nat, a: Area, stop: nat, cur: nat, c: nat) {
    && 0 < w && 0 < stop <= w && stop == (if a.end == 0 then w else a.end) && a.end < w && (a.end == 0 ==> a.start > 0)
    && a.start <= c <= stop && c % PGSIZE == 0 && stop % PGSIZE == 0 && cur == c % w && (cur != a.end <==> c != stop)
  }

  lemma AreaPages(cfg: Config, k: nat)
    requires cfg.Valid() && k < |cfg.areas| && cfg.AreaOk(cfg.areas[k])
    ensures cfg.End(cfg.areas[k]) <= Pow2(cfg.Top())
    ensures OnPage(Pow2(cfg.width), cfg.areas[k], cfg.End(cfg.areas[k]), cfg.areas[k].start, cfg.areas[k].start)
  {
    var a := cfg.areas[k];
    Pow2Mono(cfg.Top(), cfg.width);
    ChunkPages(cfg, a.start);
    ChunkPages(cfg, cfg.End(a));
    LoopTest(Pow2(cfg.width), a, cfg.End(a), a.start);
  }

  lemma PageStep(w: nat, a: Area, stop: nat, cur: nat, c: nat)
    requires OnPage(w, a, stop, cur, c) && cur != a.end
    ensures cur == c && c + PGSIZE <= stop && OnPage(w, a, stop, (cur + PGSIZE) % w, c + PGSIZE)
  {
    LoopTest(w, a, stop, c);
    LoopStep(w, a.end, stop, c, PGSIZE);
    LoopTest(w, a, stop, c + PGSIZE);
  }

  /** The pages of kernel area k below c are mapped, and the tables for them are accounted for. */
  ghost predicate AreaTo(cfg: Config, mem: Mem, pool: seq<nat>, cell: nat, k: nat, c: nat, sp: Space, keys: set<Path>,
      total: nat)
    requires cfg.Valid() && k < |cfg.areas|
  {
    match sp
    case Space(own, _, _, _) =>
      && Built(cfg, mem, pool, cell, sp) && IdentityTo(cfg, mem, cell, k, c)
      && (c != cfg.areas[k].start ==> [0] in own)
      && Counted(own, |pool|, keys + PathsIn(cfg, cfg.areas[k].start, c), total)
  }

  /** Line 105 for one page of kernel area k. */
  method NextPage(cfg: Config, mem: Mem, pool: seq<nat>, cell: nat, k: nat, cur: nat, ghost sp: Space,
      ghost keys: set<Path>, ghost total: nat)
    returns (ok: bool, mem': Mem, pool': seq<nat>, ghost sp': Space)
    requires cfg.Valid() && k < |cfg.areas| && cfg.areas[k].kernel && cfg.End(cfg.areas[k]) <= Pow2(cfg.Top())
    requires cfg.areas[k].start <= cur && cur + PGSIZE <= cfg.End(cfg.areas[k]) && cur % PGSIZE == 0
    requires AreaTo(cfg, mem, pool, cell, k, cur, sp, keys, total)
    ensures ok ==> AreaTo(cfg, mem', pool', cell, k, cur + PGSIZE, sp', keys, total)
    ensures !ok ==> |keys + AreaPaths(cfg, k)| > total
  {
    Pow2Mono(cfg.Top(), cfg.width);
    AreaStep(cfg, keys, cfg.areas[k].start, cur, cfg.End(cfg.areas[k]));
    ok, mem', pool', sp' := MapIdentity(cfg, mem, pool, cell, cur, sp);
    if ok { IdentityNext(cfg, mem, mem', cell, k, cur); }
  }

  /** The inner loop of `vme_init` (lines 103-107). */
  method MapPages(cfg: Config, mem: Mem, pool: seq<nat>, cell: nat, k: nat, w: nat, ghost sp: Space,
      ghost keys: set<Path>, ghost total: nat)
    returns (ok: bool, mem': Mem, pool': seq<nat>, ghost sp': Space)
    requires cfg.Valid() && k < |cfg.areas| && cfg.areas[k].kernel && cfg.End(cfg.areas[k]) <= Pow2(cfg.Top())
    requires OnPage(w, cfg.areas[k], cfg.End(cfg.areas[k]), cfg.areas[k].start, cfg.areas[k].start)
    requires AreaTo(cfg, mem, pool, cell, k, cfg.areas[k].start, sp, keys, total)
    ensures ok ==> AreaTo(cfg, mem', pool', cell, k, cfg.End(cfg.areas[k]), sp', keys, total)
    ensures !ok ==> |keys + AreaPaths(cfg, k)| > total
  {
    ok, mem', pool', sp' := true, mem, pool, sp;
    var a := cfg.areas[k];
    var cur: nat := a.start;
    ghost var c: nat := a.start;
    while cur != a.end
      invariant OnPage(w, a, cfg.End(a), cur, c)
      invariant AreaTo(cfg, mem', pool', cell, k, c, sp', keys, total)
      decreases cfg.End(a) - c
    {
      PageStep(w, a, cfg.End(a), cur, c);
      ok, mem', pool', sp' := NextPage(cfg, mem', pool', cell, k, cur, sp', keys, total);
      if !ok { return; }
      cur := (cur + PGSIZE) % w;
      c := c + PGSIZE;
    }
    ok := true;
  }

  /** One kernel area (lines 102-108). */
  method MapArea(cfg: Config, mem: Mem, pool: seq<nat>, cell: nat, k: nat, ghost sp: Space)
    returns (ok: bool, mem': Mem, pool': seq<nat>, ghost sp': Space)
    requires cfg.Valid() && k < |cfg.areas| && cfg.areas[k].kernel && cfg.AreaOk(cfg.areas[k])
    requires Built(cfg, mem, pool, cell, sp) && Identity(cfg, mem, cell, k)
    ensures ok ==> Built(cfg, mem', pool', cell, sp') && [0] in sp'.own
    ensures ok ==> IdentityTo(cfg, mem', cell, k, cfg.End(cfg.areas[k]))
    ensures ok <==> |sp.own.Keys + AreaPaths(cfg, k)| <= |sp.own.Keys| + |pool|
    ensures ok ==> Counted(sp'.own, |pool'|, sp.own.Keys + AreaPaths(cfg, k), |sp.own.Keys| + |pool|)
  {
    AreaPages(cfg, k);
    IdentityStarts(cfg, mem, cell, k);
    AreaStarts(cfg, sp.own.Keys, cfg.areas[k].start);
    ok, mem', pool', sp' :=
      MapPages(cfg, mem, pool, cell, k, Pow2(cfg.width), sp, sp.own.Keys, |sp.own.Keys| + |pool|);
  }

  ghost function TablesBelow(sp: Space): set<nat> {
    set n | n in sp.own && n != [] :: sp.own[n]
  }

  ghost function LevelOf(sp: Space, p: nat): nat
    requires p in TablesBelow(sp)
  {
    var n :| n in sp.own && n != [] && sp.own[n] == p;
    |n|
  }

  /** The kernel's tables, by level. */
  ghost function KernelTables(sp: Space): map<nat, nat> {
    map p | p in TablesBelow(sp) :: LevelOf(sp, p)
  }

  lemma TableLevel(cfg: Config, mem: Mem, sp: Space, n: Path)
    requires cfg.Valid() && TreeOk(cfg, mem, sp) && n in sp.own && n != []
    ensures sp.own[n] in KernelTables(sp) && KernelTables(sp)[sp.own[n]] == |n|
  {
    var p := sp.own[n];
    assert p in TablesBelow(sp);
    var m :| m in sp.own && m != [] && sp.own[m] == p && LevelOf(sp, p) == |m|;
    assert SameTable(sp, n, m);
  }

  /** Seen as shared tables, the kernel's own tree is closed. */
  lemma KernelFrozen(cfg: Config, mem: Mem, pool: seq<nat>, cell: nat, sp: Space)
    requires cfg.Valid() && Built(cfg, mem, pool, cell, sp)
    ensures Frozen(cfg, mem, KernelTables(sp))
  {
    var kern := KernelTables(sp);
    forall p | p in kern
      ensures 1 <= kern[p] <= cfg.levels && p in mem
      ensures forall i {:trigger mem[p][i]} :: 0 <= i < |mem[p]| ==> KernelEntry(cfg, kern, kern[p], mem[p][i])
    {
      var n :| n in sp.own && n != [] && sp.own[n] == p;
      TableLevel(cfg, mem, sp, n);
      assert NodeOk(cfg, mem, sp, n);
      forall i: nat | 0 <= i < |mem[p]| ensures KernelEntry(cfg, kern, |n|, mem[p][i]) {
        assert EntryOk(cfg, sp, n, i, mem[p][i]);
        if Present(mem[p][i]) && |n| < cfg.levels {
          assert n + [i] in sp.own && n + [i] != [] && |n + [i]| == |n| + 1;
          TableLevel(cfg, mem, sp, n + [i]);
        }
      }
    }
  }

  /** What `vme_init` establishes: the kernel's pages translate to themselves below `kpt`. */
  ghost predicate KernelReady(cfg: Config, mem: Mem, kpt: nat, kern: map<nat, nat>)
    requires cfg.Valid()
  {
    && Frozen(cfg, mem, kern) && kpt in kern && kern[kpt] == 1 && kpt in mem && |mem[kpt]| == Pow2(cfg.tableBits)
    && forall va: nat {:trigger Walk(cfg, mem, 1, kpt, va)} :: InSpace(cfg, va) && va % PGSIZE == 0 ==>
         Walk(cfg, mem, 1, kpt, va) == if KernelPage(cfg, |cfg.areas|, va) then IdentityOf(va) else None
  }

  lemma KernelIsReady(cfg: Config, mem: Mem, pool: seq<nat>, cell: nat, sp: Space)
    requires cfg.Valid() && Built(cfg, mem, pool, cell, sp) && [0] in sp.own && Identity(cfg, mem, cell, |cfg.areas|)
    ensures cell in mem && |mem[cell]| == 1 && BaseOfWord(cfg, mem[cell][0]) == sp.own[[0]]
    ensures KernelReady(cfg, mem, sp.own[[0]], KernelTables(sp))
  {
    KernelFrozen(cfg, mem, pool, cell, sp);
    var kern, one: Path := KernelTables(sp), [0];
    var nil: Path := [];
    assert one in sp.own && one != [];
    assert NodeOk(cfg, mem, sp, one) && NodeOk(cfg, mem, sp, nil);
    assert one[..|one| - 1] == nil && one[|one| - 1] == 0 && Pow2(0) == 1;
    assert cfg.tables[1].bits == cfg.tableBits;
    assert EntryOk(cfg, sp, nil, 0, mem[cell][0]);
    WordParts(cfg, mem[cell][0]);
    TableLevel(cfg, mem, sp, one);
    forall va: nat | InSpace(cfg, va) && va % PGSIZE == 0
      ensures Walk(cfg, mem, 1, sp.own[one], va) == if KernelPage(cfg, |cfg.areas|, va) then IdentityOf(va) else None
    {
      CellIndex(cfg, va);
      WalkVia(cfg, mem, 0, cell, va, mem[cell][0]);
      assert Flat(cfg, mem, cell, va) == if KernelPage(cfg, |cfg.areas|, va) then IdentityOf(va) else None;
    }
  }

  lemma NoTables(cfg: Config, cell: nat, free: nat)
    requires cfg.Valid()
    ensures Counted(map[[] := cell], free, KernelTree(cfg, 0), 1 + free)
  {
    assert KernelTree(cfg, 0) == {[]} + {};
  }

  /** One round of the outer loop (lines 99-108); fails when the pages do not suffice. */
  method NextArea(cfg: Config, mem: Mem, pool: seq<nat>, cell: nat, k: nat, ghost sp: Space, ghost total: nat)
    returns (ok: bool, mem': Mem, pool': seq<nat>, ghost sp': Space)
    requires cfg.Valid() && cfg.AreasOk() && k < |cfg.areas|
    requires Built(cfg, mem, pool, cell, sp) && Identity(cfg, mem, cell, k)
    requires Counted(sp.own, |pool|, KernelTree(cfg, k), 1 + total)
    ensures ok ==> Built(cfg, mem', pool', cell, sp') && Identity(cfg, mem', cell, k + 1)
    ensures ok ==> (cfg.areas[k].kernel || [0] in sp.own ==> [0] in sp'.own)
    ensures ok ==> Counted(sp'.own, |pool'|, KernelTree(cfg, k + 1), 1 + total)
    ensures !ok ==> |KernelPaths(cfg, |cfg.areas|)| > total
  {
    ok, mem', pool', sp' := true, mem, pool, sp;
    KernelStep(cfg, k);
    if cfg.areas[k].kernel {
      assert cfg.AreaOk(cfg.areas[k]);
      ok, mem', pool', sp' := MapArea(cfg, mem, pool, cell, k, sp);
      if !ok { return; }
    }
    IdentityEnds(cfg, mem', cell, k);
  }

  /** The outer loop (lines 99-108). */
  method BuildAreas(cfg: Config, mem: Mem, pool: seq<nat>, cell: nat, ghost sp: Space)
    returns (ok: bool, mem': Mem, pool': seq<nat>, ghost sp': Space)
    requires cfg.Valid() && cfg.AreasOk() && Built(cfg, mem, pool, cell, sp) && Identity(cfg, mem, cell, 0)
    requires Counted(sp.own, |pool|, KernelTree(cfg, 0), 1 + |pool|)
    ensures ok ==> Built(cfg, mem', pool', cell, sp') && [0] in sp'.own && Identity(cfg, mem', cell, |cfg.areas|)
    ensures ok ==> Counted(sp'.own, |pool'|, KernelTree(cfg, |cfg.areas|), 1 + |pool|)
    ensures !ok ==> |KernelPaths(cfg, |cfg.areas|)| > |pool|
  {
    ok, mem', pool', sp' := true, mem, pool, sp;
    var i := 0;
    while i < |cfg.areas|
      invariant 0 <= i <= |cfg.areas|
      invariant Built(cfg, mem', pool', cell, sp') && Identity(cfg, mem', cell, i)
      invariant i >= 2 ==> [0] in sp'.own
      invariant Counted(sp'.own, |pool'|, KernelTree(cfg, i), 1 + |pool|)
    {
      ok, mem', pool', sp' := NextArea(cfg, mem', pool', cell, i, sp', |pool|);
      if !ok { return; }
      i := i + 1;
    }
    ok := true;
  }

  /** `vme_init` (lines 89-110) for the configurations that build the kernel's tables themselves:
      it succeeds exactly when the tables of all kernel pages find a page each. */
  method BuildKernel(cfg: Config, mem: Mem, pool: seq<nat>, cell: nat)
    returns (ok: bool, mem': Mem, pool': seq<nat>, kpt: nat, ghost kern: map<nat, nat>)
    requires cfg.Valid() && cfg.AreasOk() && PoolOk(cfg, mem, pool) && cell in mem && cell !in pool
    ensures ok <==> |KernelPaths(cfg, |cfg.areas|)| <= |pool|
    ensures ok ==> |pool'| == |pool| - |KernelPaths(cfg, |cfg.areas|)|
    ensures ok ==> KernelReady(cfg, mem', kpt, kern) && PoolOk(cfg, mem', pool') && forall p {:trigger p in pool'} ::
        p in pool' ==> p !in kern
  {
    ghost var sp := Space(map[[] := cell], map[], {}, false);
    CellNotInPool(cfg, mem, pool, cell);
    EmptyTree(cfg, mem[cell := [0]], pool, cell);
    NoTables(cfg, cell, |pool|);
    TreeSize(cfg, |cfg.areas|);
    ok, mem', pool', sp := BuildAreas(cfg, mem[cell := [0]], pool, cell, sp);
    if !ok { kpt, kern := 0, map[]; return; }
    KernelIsReady(cfg, mem', pool', cell, sp);
    kpt, kern := BaseOfWord(cfg, mem'[cell][0]), KernelTables(sp);
  }

  lemma CellNotInPool(cfg: Config, mem: Mem, pool: seq<nat>, cell: nat)
    requires PoolOk(cfg, mem, pool) && cell !in pool
    ensures PoolOk(cfg, mem[cell := [0]], pool)
  {
    forall k | 0 <= k < |pool| ensures PageOk(cfg, mem[cell := [0]], pool[k]) {
      assert PageOk(cfg, mem, pool[k]) && pool[k] in pool;
    }
  }

  /** A fresh address space: the kernel's pages translate to themselves, for the kernel only, and
      no user page translates. */
  lemma FreshSpaceMeans(cfg: Config, mem: Mem, mem': Mem, cell: nat, upt: nat, kpt: nat, kern: map<nat, nat>, va: nat)
    requires cfg.Valid() && cfg.AreasOk() && KernelReady(cfg, mem, kpt, kern) &&
        Protected(cfg, mem, mem', cell, upt, kpt, kern)
    requires InSpace(cfg, va) && va % PGSIZE == 0
    ensures KernelPage(cfg, |cfg.areas|, va) ==> Flat(cfg, mem', cell, va) == IdentityOf(va)
    ensures InUserArea(cfg, va) ==> Flat(cfg, mem', cell, va) == None
  {
    assert Flat(cfg, mem', cell, va) == if Index(cfg, va, 1) in KernelSlots(cfg) then Walk(cfg, mem, 1, kpt, va)
      else None;
    IndexField(cfg, va, 1);
    if KernelPage(cfg, |cfg.areas|, va) {
      var a :| 0 <= a < |cfg.areas| && cfg.areas[a].kernel && InArea(cfg, cfg.areas[a], va);
      assert UsesSlot(cfg, cfg.areas[a].start, cfg.End(cfg.areas[a]), Index(cfg, va, 1));
      assert KernelSlot(cfg, |cfg.areas|, Index(cfg, va, 1));
    }
    if InUserArea(cfg, va) {
      assert cfg.areas[0].end != 0;
      UserSlot(cfg, va);
    }
  }
}
