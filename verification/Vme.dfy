/** The code of abstract-machine/am/src/x86/qemu/vme.c on a memory of pages. */
module VmeCode {
  import opened Words
  import opened Paging
  import opened PageTree

  // ---------------------------------------------------------- entries

  lemma {:induction false} OrAssoc(x: nat, y: nat, z: nat)
    ensures Or(Or(x, y), z) == Or(x, Or(y, z))
    decreases x + y + z
  {
    if x > 0 && y > 0 && z > 0 {
      OrAssoc(x / 2, y / 2, z / 2);
      OrHalves(x, y);
      OrHalves(y, z);
      OrHalves(Or(x, y), z);
      OrHalves(x, Or(y, z));
    }
  }

  lemma OrHalves(x: nat, y: nat)
    ensures Or(x, y) / 2 == Or(x / 2, y / 2) && Or(x, y) % 2 == if x % 2 + y % 2 == 0 then 0 else 1
  {
  }

  lemma PagesFit(cfg: Config, p: nat)
    requires cfg.width >= 12 && p % PGSIZE == 0 && p < Pow2(cfg.width)
    ensures p + PGSIZE <= Pow2(cfg.width)
  {
    SmallPowers();
    Pow2Add(12, cfg.width - 12);
    DivBelow(p, PGSIZE, Pow2(cfg.width - 12));
    MulMono(p / PGSIZE + 1, Pow2(cfg.width - 12), PGSIZE);
  }

  /** `!(pt[index] & PTE_P)` (line 66). */
  predicate Absent(e: nat) {
    And(e, PTE_P) == 0
  }

  /** `next_page | PTE_P | flags` (line 68). */
  function LinkWord(page: nat, flags: nat): nat {
    Or(Or(page, PTE_P), flags)
  }

  /** `pa | PTE_P | PTE_U | ...` (line 152). */
  function PageWord(pa: nat, write: bool): nat {
    Or(Or(Or(pa, PTE_P), PTE_U), if write then PTE_W else 0)
  }

  lemma LinkWordParts(cfg: Config, page: nat, flags: nat)
    requires cfg.width >= 12 && page % PGSIZE == 0 && page < Pow2(cfg.width) && flags in {PTE_W, PTE_W + PTE_U, PTE_U}
    ensures var e := LinkWord(page, flags);
            e < Pow2(cfg.width) && Present(e) && (Writable(e) <==> flags != PTE_U) && (User(e) <==> flags != PTE_W) &&
              BaseOf(e) == page && forall l {:trigger LargeAt(cfg, l, e)} :: !LargeAt(cfg, l, e)
  {
    OrAssoc(page, PTE_P, flags);
    assert Or(PTE_P, flags) == PTE_P + flags;
    EntryParts(page, PTE_P + flags);
    PagesFit(cfg, page);
  }

  lemma PageWordParts(cfg: Config, pa: nat, write: bool)
    requires cfg.width >= 12 && pa % PGSIZE == 0 && pa < Pow2(cfg.width)
    ensures var e := PageWord(pa, write); e < Pow2(cfg.width) && LeafMapping(e) == Some(Mapping(pa, write, true))
  {
    var w := if write then PTE_W else 0;
    OrAssoc(pa, PTE_P, PTE_U);
    OrAssoc(pa, Or(PTE_P, PTE_U), w);
    assert Or(PTE_P, PTE_U) == 5;
    assert Or(5, w) == 5 + w;
    EntryParts(pa, 5 + w);
    PagesFit(cfg, pa);
  }

  // ---------------------------------------------------------- pages

  predicate PageOk(cfg: Config, mem: Mem, p: nat) {
    p in mem && |mem[p]| == Pow2(cfg.tableBits) && p % PGSIZE == 0 && p < Pow2(cfg.width)
  }

  /** The pages `pgalloc` will hand out, in order. */
  ghost predicate PoolOk(cfg: Config, mem: Mem, pool: seq<nat>) {
    && (forall i {:trigger pool[i]} :: 0 <= i < |pool| ==> PageOk(cfg, mem, pool[i]))
    && (forall i, j {:trigger pool[i], pool[j]} :: 0 <= i < j < |pool| ==> pool[i] != pool[j])
  }

  ghost predicate PoolApart(pool: seq<nat>, sp: Space) {
    && (forall p {:trigger p in pool} :: p in pool ==> p !in sp.kern)
    && (forall m {:trigger sp.own[m]} {:trigger m in sp.own} :: m in sp.own ==> sp.own[m] !in pool)
  }

  /** `pgallocz` (lines 40-47); fails when `pgalloc` returns NULL. */
  method PgAllocZ(cfg: Config, mem: Mem, pool: seq<nat>) returns (ok: bool, mem': Mem, pool': seq<nat>, p: nat)
    requires PoolOk(cfg, mem, pool)
    ensures ok <==> pool != []
    ensures ok ==> p == pool[0] && pool' == pool[1..] && Cleared(cfg, mem', p) && mem' == mem[p := mem'[p]]
  {
    mem', pool', p := mem, pool, 0;
    if pool == [] { return false, mem, pool, 0; }
    ok, p, pool' := true, pool[0], pool[1..];
    var i := 0;
    while i < Pow2(cfg.tableBits)
      invariant 0 <= i <= Pow2(cfg.tableBits)
      invariant p in mem' && |mem'[p]| == Pow2(cfg.tableBits) && mem' == mem[p := mem'[p]]
      invariant forall j {:trigger mem'[p][j]} :: 0 <= j < i ==> mem'[p][j] == 0
    {
      mem' := Put(mem', p, i, 0);
      i := i + 1;
    }
  }

  // ---------------------------------------------------------- ptwalk

  /** How many tables va still needs from level l down. */
  function Missing(cfg: Config, sp: Space, va: nat, l: nat): nat
    requires cfg.Valid() && l <= cfg.levels + 1
    decreases cfg.levels + 1 - l
  {
    if l > cfg.levels then 0 else (if At(cfg, va, l) in sp.own then 0 else 1) + Missing(cfg, sp, va, l + 1)
  }

  /** The tables va uses at levels 1 to l. */
  function PathsTo(cfg: Config, va: nat, l: nat): set<Path>
    requires cfg.Valid() && l <= cfg.levels
  {
    set k: nat | 1 <= k <= l :: At(cfg, va, k)
  }

  lemma {:induction false} MissingBelow(cfg: Config, sp: Space, n: Path, i: nat, p: nat, va: nat, l: nat)
    requires cfg.Valid() && |n| + 1 < l <= cfg.levels + 1
    ensures Missing(cfg, Grown(sp, n, i, p), va, l) == Missing(cfg, sp, va, l)
    decreases cfg.levels + 1 - l
  {
    if l <= cfg.levels { MissingBelow(cfg, sp, n, i, p, va, l + 1); }
  }

  /** The flags a tree links its tables with: the kernel's own tree has no PTE_U (lines 106, 145). */
  function LinkFlags(sp: Space): nat {
    if sp.user then PTE_W + PTE_U else PTE_W
  }

  /** From mem to mem', only tables of sp and pages in `taken` changed. */
  ghost predicate OnlyWrote(mem: Mem, mem': Mem, sp: Space, taken: seq<nat>) {
    forall p {:trigger p in mem} {:trigger mem'[p]} ::
      p in mem && p !in taken && (forall m {:trigger m in sp.own} :: m in sp.own ==> sp.own[m] != p) ==>
      p in mem' && mem'[p] == mem[p]
  }

  /** The tables sp' has beyond those of sp are in `taken`. */
  ghost predicate NewFrom(sp: Space, sp': Space, taken: seq<nat>) {
    forall m {:trigger sp'.own[m]} {:trigger m in sp'.own} :: m in sp'.own && m !in sp.own ==> sp'.own[m] in taken
  }

  ghost predicate HasTable(sp: Space, p: nat) {
    exists m {:trigger sp.own[m]} :: m in sp.own && m != [] && sp.own[m] == p
  }

  /** Every page taken became a table. */
  ghost predicate UsedUp(sp: Space, taken: seq<nat>) {
    forall p {:trigger p in taken} :: p in taken ==> HasTable(sp, p)
  }

  /** What one round of the walk does when the next table is missing. */
  lemma GrowTree(cfg: Config, mem: Mem, mem0: Mem, mem': Mem, sp: Space, va: nat, l: nat, p: nat, pool: seq<nat>)
    requires cfg.Valid() && TreeOk(cfg, mem, sp) && Frozen(cfg, mem, sp.kern) && l < cfg.levels &&
        At(cfg, va, l) in sp.own
    requires Index(cfg, va, 1) !in sp.foreign
    requires pool != [] && pool[0] == p && PoolOk(cfg, mem, pool) && PoolApart(pool, sp)
    requires Cleared(cfg, mem0, p) && mem0 == mem[p := mem0[p]]
    requires var pt, i := sp.own[At(cfg, va, l)], Index(cfg, va, l);
             pt in mem && pt in mem0 && i < |mem[pt]| && !Present(mem[pt][i])
             && i < |mem0[pt]| && mem' == Put(mem0, pt, i, LinkWord(p, LinkFlags(sp)))
    ensures var sp' := Grown(sp, At(cfg, va, l), Index(cfg, va, l), p);
            && TreeOk(cfg, mem', sp') && Extends(sp, sp') && At(cfg, va, l + 1) in sp'.own &&
               sp'.own[At(cfg, va, l + 1)] == p
            && Frozen(cfg, mem', sp.kern) && PoolOk(cfg, mem', pool[1..]) && PoolApart(pool[1..], sp')
    ensures forall wa {:trigger Flat(cfg, mem', Root(sp), wa)} ::
        Flat(cfg, mem', Root(sp), wa) == Flat(cfg, mem, Root(sp), wa)
  {
    var n, i, e := At(cfg, va, l), Index(cfg, va, l), LinkWord(p, LinkFlags(sp));
    LinkWordParts(cfg, p, LinkFlags(sp));
    PathStep(cfg, va, l);
    assert p in pool && Fresh(mem, sp, p);
    assert NodeOk(cfg, mem, sp, n);
    forall m | m in sp.own && sp.own[m] == sp.own[n] ensures m == n {
      assert SameTable(sp, m, n);
    }
    WroteLink(mem, mem0, mem', sp, n, i, e, p);
    LinkKeepsTree(cfg, mem, mem', sp, n, i, e, p);
    forall wa ensures Flat(cfg, mem', Root(sp), wa) == Flat(cfg, mem, Root(sp), wa) {
      LinkKeepsFlat(cfg, mem, mem', sp, n, i, e, wa);
    }
    FrozenFrame(cfg, mem, mem', sp.kern);
    GrowPool(cfg, mem, mem0, mem', sp, n, i, p, pool, mem'[sp.own[n]]);
  }

  lemma WroteLink(mem: Mem, mem0: Mem, mem': Mem, sp: Space, n: Path, i: nat, e: nat, p: nat)
    requires n in sp.own && sp.own[n] in mem && i < |mem[sp.own[n]]| && Fresh(mem, sp, p) && sp.own[n] !in sp.kern
    requires forall m {:trigger sp.own[m]} :: m in sp.own && sp.own[m] == sp.own[n] ==> m == n
    requires forall q {:trigger q in sp.kern} :: q in sp.kern ==> q in mem
    requires p in mem0 && mem0 == mem[p := mem0[p]] && mem' == Put(mem0, sp.own[n], i, e)
    ensures Wrote(mem, mem', sp, n, i, e) && p in mem' && mem'[p] == mem0[p]
  {
  }

  lemma GrowPool(cfg: Config, mem: Mem, mem0: Mem, mem': Mem, sp: Space, n: Path, i: nat, p: nat, pool: seq<nat>,
      s: seq<nat>)
    requires n in sp.own && sp.own[n] in mem0
    requires pool != [] && pool[0] == p && PoolOk(cfg, mem, pool) && PoolApart(pool, sp)
    requires p in mem0 && mem0 == mem[p := mem0[p]] && mem' == mem0[sp.own[n] := s] && |s| == |mem0[sp.own[n]]|
    ensures PoolOk(cfg, mem', pool[1..]) && PoolApart(pool[1..], Grown(sp, n, i, p))
  {
    var rest, sp' := pool[1..], Grown(sp, n, i, p);
    forall k | 0 <= k < |rest| ensures PageOk(cfg, mem', rest[k]) && rest[k] !in sp'.kern {
      assert rest[k] == pool[k + 1] && pool[0] != pool[k + 1] && pool[k + 1] in pool;
    }
    forall j, k | 0 <= j < k < |rest| ensures rest[j] != rest[k] {
      assert rest[j] == pool[j + 1] && rest[k] == pool[k + 1];
    }
    assert p !in rest by {
      forall k | 0 <= k < |rest| ensures rest[k] != p { assert rest[k] == pool[k + 1] && pool[0] != pool[k + 1]; }
    }
    forall q | q in rest ensures q in pool {
      var k :| 0 <= k < |rest| && rest[k] == q;
      assert q == pool[k + 1];
    }
  }

  /** Bookkeeping of one allocation: which pages were taken, and that nothing else was written. */
  lemma Taken(mem: Mem, mem1: Mem, mem0: Mem, sp: Space, sp1: Space, pool: seq<nat>, taken: nat, pt: nat, i: nat,
      e: nat, n: Path, p: nat)
    requires taken < |pool| && p == pool[taken] && Extends(sp, sp1) && n in sp1.own && sp1.own[n] == pt
    requires NewFrom(sp, sp1, pool[..taken]) && OnlyWrote(mem, mem1, sp, pool[..taken])
    requires p in mem0 && mem0 == mem1[p := mem0[p]] && pt in mem0 && i < |mem0[pt]|
    requires UsedUp(sp1, pool[..taken]) && n + [i] !in sp1.own
    ensures NewFrom(sp, Grown(sp1, n, i, p), pool[..taken + 1]) &&
        OnlyWrote(mem, Put(mem0, pt, i, e), sp, pool[..taken + 1])
    ensures UsedUp(Grown(sp1, n, i, p), pool[..taken + 1])
    ensures pool[taken..][1..] == pool[taken + 1..]
  {
    var more := pool[..taken + 1];
    assert more == pool[..taken] + [p];
    UsedOne(sp1, n, i, p, pool[..taken]);
    var mem' := Put(mem0, pt, i, e);
    forall q | q in mem && q !in more && (forall m {:trigger m in sp.own} :: m in sp.own ==> sp.own[m] != q)
      ensures q in mem' && mem'[q] == mem[q] {
      assert q != p && q !in pool[..taken];
      assert q in mem1 && mem1[q] == mem[q];
      assert q != pt by {
        if n in sp.own { assert sp.own[n] != q; } else { assert sp1.own[n] in pool[..taken]; }
      }
    }
  }

  lemma UsedOne(sp: Space, n: Path, i: nat, p: nat, taken: seq<nat>)
    requires UsedUp(sp, taken) && n + [i] !in sp.own
    ensures UsedUp(Grown(sp, n, i, p), taken + [p])
  {
    var sp', c := Grown(sp, n, i, p), n + [i];
    assert c != [] && sp'.own[c] == p;
    forall q | q in taken + [p] ensures HasTable(sp', q) {
      if q != p {
        var m :| m in sp.own && m != [] && sp.own[m] == q;
        assert sp'.own[m] == q;
      }
    }
  }

  /** The state of a walk before round i: i tables found or allocated, `taken` of them allocated. */
  ghost predicate Walking(cfg: Config, mem: Mem, mem1: Mem, pool: seq<nat>, taken: nat, sp: Space, sp1: Space, va: nat,
      i: nat)
    requires cfg.Valid() && i <= cfg.levels && [] in sp.own
  {
    match sp1
    case Space(own, kern, _, _) =>
    && TreeOk(cfg, mem1, sp1) && Extends(sp, sp1) && Frozen(cfg, mem1, kern)
    && At(cfg, va, i) in own
    && taken <= |pool| && taken + Missing(cfg, sp1, va, i + 1) == Missing(cfg, sp, va, 0)
    && PoolOk(cfg, mem1, pool[taken..]) && PoolApart(pool[taken..], sp1)
    && NewFrom(sp, sp1, pool[..taken]) && UsedUp(sp1, pool[..taken]) && OnlyWrote(mem, mem1, sp, pool[..taken])
    && (forall wa {:trigger Flat(cfg, mem1, Root(sp), wa)} ::
       Flat(cfg, mem1, Root(sp), wa) == Flat(cfg, mem, Root(sp), wa))
    && (taken == 0 ==> mem1 == mem && sp1 == sp)
  }

  lemma WalkStarts(cfg: Config, mem: Mem, pool: seq<nat>, sp: Space, va: nat)
    requires cfg.Valid() && TreeOk(cfg, mem, sp) && Frozen(cfg, mem, sp.kern) && PoolOk(cfg, mem, pool) &&
        PoolApart(pool, sp)
    ensures Walking(cfg, mem, mem, pool, 0, sp, sp, va, 0) && At(cfg, va, 0) == []
  {
    assert At(cfg, va, 0) == [];
    assert pool[0..] == pool;
  }

  /** The round finds the next table. */
  lemma WalkFinds(cfg: Config, mem: Mem, mem1: Mem, pool: seq<nat>, taken: nat, sp: Space, sp1: Space, va: nat, i: nat)
    requires cfg.Valid() && [] in sp.own && i < cfg.levels && Walking(cfg, mem, mem1, pool, taken, sp, sp1, va, i)
    requires Index(cfg, va, 1) !in sp.foreign
    ensures var p, k := sp1.own[At(cfg, va, i)], Index(cfg, va, i);
            p in mem1 && k < |mem1[p]|
            && if Absent(mem1[p][k]) then !Present(mem1[p][k]) && At(cfg, va, i + 1) !in sp1.own
               else Walking(cfg, mem, mem1, pool, taken, sp, sp1, va, i + 1)
                    && sp1.own[At(cfg, va, i + 1)] == BaseOfWord(cfg, mem1[p][k])
  {
    EntryFacts(cfg, mem1, sp1, i, va);
    PathStep(cfg, va, i);
    var p, k := sp1.own[At(cfg, va, i)], Index(cfg, va, i);
    WordParts(cfg, mem1[p][k]);
    if !Present(mem1[p][k]) { EmptySlot(cfg, mem1, sp1, At(cfg, va, i), k); }
  }

  /** The round allocates the next table. */
  lemma WalkGrows(cfg: Config, mem: Mem, mem1: Mem, mem0: Mem, pool: seq<nat>, taken: nat, sp: Space, sp1: Space,
      va: nat, i: nat, p: nat)
    requires cfg.Valid() && [] in sp.own && i < cfg.levels && Walking(cfg, mem, mem1, pool, taken, sp, sp1, va, i)
    requires Index(cfg, va, 1) !in sp.foreign && taken < |pool| && pool[taken] == p
    requires Cleared(cfg, mem0, p) && mem0 == mem1[p := mem0[p]]
    requires var pt, k := sp1.own[At(cfg, va, i)], Index(cfg, va, i);
             pt in mem1 && k < |mem1[pt]| && !Present(mem1[pt][k]) && At(cfg, va, i + 1) !in sp1.own
    ensures var pt, k := sp1.own[At(cfg, va, i)], Index(cfg, va, i);
            var sp2 := Grown(sp1, At(cfg, va, i), k, p);
            pt in mem0 && k < |mem0[pt]|
            && Walking(cfg, mem, Put(mem0, pt, k, LinkWord(p, LinkFlags(sp))), pool, taken + 1, sp, sp2, va, i + 1)
            && sp2.own[At(cfg, va, i + 1)] == p
  {
    var n := At(cfg, va, i);
    var pt, k := sp1.own[n], Index(cfg, va, i);
    var e := LinkWord(p, LinkFlags(sp));
    assert pool[taken..][0] == p;
    assert pt != p && Root(sp1) == Root(sp);
    GrowTree(cfg, mem1, mem0, Put(mem0, pt, k, e), sp1, va, i, p, pool[taken..]);
    MissingBelow(cfg, sp1, n, k, p, va, i + 2);
    Taken(mem, mem1, mem0, sp, sp1, pool, taken, pt, k, e, n, p);
  }

  lemma WalkEndsWith(cfg: Config, mem: Mem, mem1: Mem, pool: seq<nat>, taken: nat, sp: Space, sp1: Space, va: nat)
    requires cfg.Valid() && [] in sp.own && Walking(cfg, mem, mem1, pool, taken, sp, sp1, va, cfg.levels)
    ensures taken == Missing(cfg, sp, va, 0)
  {
  }

  lemma PathsStep(cfg: Config, va: nat, l: nat)
    requires cfg.Valid() && l < cfg.levels
    ensures PathsTo(cfg, va, l + 1) == PathsTo(cfg, va, l) + {At(cfg, va, l + 1)}
  {
    var more := PathsTo(cfg, va, l + 1);
    forall n ensures n in more <==> n in PathsTo(cfg, va, l) + {At(cfg, va, l + 1)} {
      if n in more {
        var k: nat :| 1 <= k <= l + 1 && n == At(cfg, va, k);
        if k <= l { assert n in PathsTo(cfg, va, l); }
      }
      if n in PathsTo(cfg, va, l) {
        var k: nat :| 1 <= k <= l && n == At(cfg, va, k);
        assert n in more;
      }
    }
  }

  /** One round of the walk (lines 60-72): the table below, found or allocated. */
  method NextTable(cfg: Config, mem: Mem, mem1: Mem, pool1: seq<nat>, pt: nat, va: nat, flags: nat, i: nat,
                   ghost pool: seq<nat>, ghost taken: nat, ghost sp: Space, ghost sp1: Space)
    returns (ok: bool, mem2: Mem, pool2: seq<nat>, next: nat, ghost sp2: Space, ghost taken2: nat)
    requires cfg.Valid() && [] in sp.own && i < cfg.levels && Walking(cfg, mem, mem1, pool, taken, sp, sp1, va, i)
    requires flags == LinkFlags(sp) && Index(cfg, va, 1) !in sp.foreign && taken <= |pool| && pool1 == pool[taken..]
    requires pt == sp1.own[At(cfg, va, i)]
    ensures ok ==> Walking(cfg, mem, mem2, pool, taken2, sp, sp2, va, i + 1)
    ensures ok ==> taken2 <= |pool| && pool2 == pool[taken2..] && next == sp2.own[At(cfg, va, i + 1)]
    ensures ok ==> sp2.own.Keys == sp1.own.Keys + {At(cfg, va, i + 1)}
    ensures !ok ==> Missing(cfg, sp, va, 0) > |pool|
  {
    ok, mem2, pool2, sp2, taken2 := true, mem1, pool1, sp1, taken;
    var index := IndexOf(va, cfg.tables[i]);
    WalkFinds(cfg, mem, mem1, pool, taken, sp, sp1, va, i);
    PathStep(cfg, va, i);
    if Absent(mem1[pt][index]) {
      ok, mem2, pool2, next := PgAllocZ(cfg, mem1, pool1);
      if ok {
        WalkGrows(cfg, mem, mem1, mem2, pool, taken, sp, sp1, va, i, next);
        mem2 := Put(mem2, pt, index, LinkWord(next, flags));
        sp2 := Grown(sp1, At(cfg, va, i), index, next);
        taken2 := taken + 1;
      }
    } else {
      next := BaseOfWord(cfg, mem1[pt][index]);
    }
  }

  /** `ptwalk` (lines 57-75): the entry of va in a table of the last level, allocating the tables
      that are missing.  Fails exactly when the pool does not hold enough pages. */
  method PtWalk(cfg: Config, mem: Mem, pool: seq<nat>, cell: nat, va: nat, flags: nat, ghost sp: Space)
    returns (ok: bool, mem': Mem, pool': seq<nat>, pt: nat, ghost sp': Space, ghost taken: nat)
    requires cfg.Valid() && TreeOk(cfg, mem, sp) && Frozen(cfg, mem, sp.kern) && PoolOk(cfg, mem, pool) &&
        PoolApart(pool, sp)
    requires cell == Root(sp) && flags == LinkFlags(sp) && Index(cfg, va, 1) !in sp.foreign
    ensures ok <==> Missing(cfg, sp, va, 0) <= |pool|
    ensures ok ==> taken == Missing(cfg, sp, va, 0) && Walking(cfg, mem, mem', pool, taken, sp, sp', va, cfg.levels)
                   && pool' == pool[taken..] && pt == sp'.own[At(cfg, va, cfg.levels)]
    ensures ok ==> sp'.own.Keys == sp.own.Keys + PathsTo(cfg, va, cfg.levels)
  {
    mem', pool', pt, sp' := mem, pool, cell, sp;
    var i := 0;
    taken := 0;
    WalkStarts(cfg, mem, pool, sp, va);
    while i < cfg.levels
      invariant 0 <= i <= cfg.levels && taken <= |pool| && pool' == pool[taken..]
      invariant Walking(cfg, mem, mem', pool, taken, sp, sp', va, i) && pt == sp'.own[At(cfg, va, i)]
      invariant sp'.own.Keys == sp.own.Keys + PathsTo(cfg, va, i)
    {
      PathsStep(cfg, va, i);
      ok, mem', pool', pt, sp', taken := NextTable(cfg, mem, mem', pool', pt, va, flags, i, pool, taken, sp, sp');
      if !ok { return; }
      i := i + 1;
    }
    WalkEndsWith(cfg, mem, mem', pool, taken, sp, sp', va);
    ok := true;
  }
}
