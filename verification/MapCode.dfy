/** `map` of abstract-machine/am/src/x86/qemu/vme.c on the tables of one address space. */
module MapCode {
  import opened Words
  import opened Paging
  import opened PageTree
  import opened VmeCode

  const MMAP_NONE: nat := 0
  const MMAP_WRITE: nat := 2

  /** How a call of `map` ends: normally, or in one of its panics. */
  datatype Outcome = Done | InvalidAddress | NotOnPageBoundary | OutOfPages | UnmapsNonMapped | RemapsMapped

  predicate InUserArea(cfg: Config, va: nat) {
    |cfg.areas| >= 1 && cfg.areas[0].start <= va < cfg.areas[0].end
  }

  /** What `map` does, in terms of the flat map and of the pages still to be had. */
  function Expected(cfg: Config, va: nat, pa: nat, prot: nat, missing: nat, free: nat, now: Option<Mapping>): Outcome {
    if !InUserArea(cfg, va) then InvalidAddress
    else if va % PGSIZE != 0 || pa % PGSIZE != 0 then NotOnPageBoundary
    else if missing > free then OutOfPages
    else if prot == MMAP_NONE && now.None? then UnmapsNonMapped
    else if prot != MMAP_NONE && now.Some? then RemapsMapped
    else Done
  }

  /** What va translates to afterwards. */
  function Wanted(pa: nat, prot: nat): Option<Mapping> {
    if prot == MMAP_NONE then None else Some(Mapping(pa, prot / 2 % 2 == 1, true))
  }

  /** What a call asks for is possible: a page of the user area, mapped if it is to be unmapped and not
      mapped otherwise, and pages enough for the tables. */
  predicate Possible(cfg: Config, va: nat, pa: nat, prot: nat, missing: nat, free: nat, mapped: bool) {
    && |cfg.areas| >= 1 && cfg.areas[0].start <= va < cfg.areas[0].end && va % 4096 == 0 && pa % 4096 == 0
    && missing <= free && (prot == 0) == mapped
  }

  /** `map` does what it is asked exactly when that is possible, and then exactly that. */
  lemma MapMeans(cfg: Config, va: nat, pa: nat, prot: nat, missing: nat, free: nat, now: Option<Mapping>)
    ensures Expected(cfg, va, pa, prot, missing, free, now) == Done <==>
              Possible(cfg, va, pa, prot, missing, free, now.Some?)
    ensures prot == 0 ==> Wanted(pa, prot) == None
    ensures prot != 0 ==> Wanted(pa, prot) == Some(Mapping(pa, And(prot, 2) != 0, true))
  {
    AndFieldMask(prot, 1, 1);
    assert Mask(1, 1) == 2 && Pow2(1) == 2;
  }

  /** `*ptentry = ...`: lines 149 and 153. */
  function LeafWord(pa: nat, prot: nat): nat {
    if prot == MMAP_NONE then 0 else PageWord(pa, And(prot, MMAP_WRITE) != 0)
  }

  lemma LeafWordMeans(cfg: Config, pa: nat, prot: nat)
    requires cfg.width >= 12 && pa % PGSIZE == 0 && pa < Pow2(cfg.width)
    ensures LeafWord(pa, prot) < Pow2(cfg.width) && LeafMapping(LeafWord(pa, prot)) == Wanted(pa, prot)
    ensures Present(LeafWord(pa, prot)) ==> User(LeafWord(pa, prot))
  {
    AndFieldMask(prot, 1, 1);
    assert Mask(1, 1) == 2 && Pow2(1) == 2;
    PageWordParts(cfg, pa, And(prot, MMAP_WRITE) != 0);
  }

  /** Rounding down to a page boundary leaves an aligned word, and only that, as it is. */
  lemma RoundDownIs(cfg: Config, x: nat)
    requires cfg.width >= 12 && x < Pow2(cfg.width)
    ensures x == BaseOfWord(cfg, x) <==> x % PGSIZE == 0
  {
    WordParts(cfg, x);
  }

  /** The leaf entry that `ptwalk` returned, and what the tree says of it. */
  lemma LeafFound(cfg: Config, mem: Mem, mem1: Mem, pool: seq<nat>, taken: nat, sp: Space, sp1: Space, va: nat)
    requires cfg.Valid() && [] in sp.own && Walking(cfg, mem, mem1, pool, taken, sp, sp1, va, cfg.levels) && sp.user
    ensures var pt, i := sp1.own[At(cfg, va, cfg.levels)], Index(cfg, va, cfg.levels);
            pt in mem1 && i < |mem1[pt]| && (Absent(mem1[pt][i]) <==> Flat(cfg, mem, Root(sp), va) == None)
  {
    assert Root(sp1) == Root(sp) && At(cfg, va, 0) == [];
    EntryFacts(cfg, mem1, sp1, cfg.levels, va);
    WalkToLeaf(cfg, mem1, sp1, 0, va);
    var pt, i := sp1.own[At(cfg, va, cfg.levels)], Index(cfg, va, cfg.levels);
    WordParts(cfg, mem1[pt][i]);
    assert Flat(cfg, mem1, Root(sp), va) == Flat(cfg, mem, Root(sp), va);
  }

  /** The tables after the leaf entry of va was written. */
  ghost predicate Mapped(cfg: Config, mem: Mem, mem': Mem, pool: seq<nat>, taken: nat, sp: Space, sp': Space, va: nat,
      r: Option<Mapping>)
    requires cfg.Valid() && [] in sp.own
  {
    match sp'
    case Space(_, kern, _, _) =>
      && TreeOk(cfg, mem', sp') && Extends(sp, sp') && Frozen(cfg, mem', kern)
      && taken <= |pool| && PoolOk(cfg, mem', pool[taken..]) && PoolApart(pool[taken..], sp')
      && NewFrom(sp, sp', pool[..taken]) && UsedUp(sp', pool[..taken]) && OnlyWrote(mem, mem', sp, pool[..taken])
      && Flat(cfg, mem', Root(sp), va) == r
      && forall wa: nat {:trigger Flat(cfg, mem', Root(sp), wa)} :: InSpace(cfg, wa) && wa % PGSIZE == 0 && wa != va ==>
           Flat(cfg, mem', Root(sp), wa) == Flat(cfg, mem, Root(sp), wa)
  }

  lemma WroteLeaf(mem1: Mem, sp1: Space, n: Path, i: nat, e: nat)
    requires n in sp1.own && sp1.own[n] in mem1 && i < |mem1[sp1.own[n]]| && sp1.own[n] !in sp1.kern
    requires forall m {:trigger sp1.own[m]} :: m in sp1.own && sp1.own[m] == sp1.own[n] ==> m == n
    requires forall q {:trigger q in sp1.kern} :: q in sp1.kern ==> q in mem1
    ensures Wrote(mem1, Put(mem1, sp1.own[n], i, e), sp1, n, i, e)
  {
  }

  lemma PoolKept(cfg: Config, mem1: Mem, pt: nat, i: nat, e: nat, pool: seq<nat>)
    requires pt in mem1 && i < |mem1[pt]| && PoolOk(cfg, mem1, pool)
    ensures PoolOk(cfg, Put(mem1, pt, i, e), pool)
  {
    forall k | 0 <= k < |pool| ensures PageOk(cfg, Put(mem1, pt, i, e), pool[k]) {
      assert PageOk(cfg, mem1, pool[k]);
    }
  }

  lemma OnlyWroteLeaf(mem: Mem, mem1: Mem, sp: Space, sp1: Space, n: Path, i: nat, e: nat, taken: seq<nat>)
    requires OnlyWrote(mem, mem1, sp, taken) && NewFrom(sp, sp1, taken) && Extends(sp, sp1)
    requires n in sp1.own && sp1.own[n] in mem1 && i < |mem1[sp1.own[n]]|
    ensures OnlyWrote(mem, Put(mem1, sp1.own[n], i, e), sp, taken)
  {
    forall q | q in mem && q !in taken && (forall m {:trigger m in sp.own} :: m in sp.own ==> sp.own[m] != q)
      ensures q in mem1 && Put(mem1, sp1.own[n], i, e)[q] == mem[q]
    {
      assert q in mem1 && mem1[q] == mem[q];
      assert q != sp1.own[n] by {
        if n in sp.own { assert sp.own[n] != q; } else { assert sp1.own[n] in taken; }
      }
    }
  }

  /** Writing the leaf entry found by `ptwalk` gives the wanted flat map. */
  lemma LeafMapped(cfg: Config, mem: Mem, mem1: Mem, pool: seq<nat>, taken: nat, sp: Space, sp1: Space, va: nat, e: nat)
    requires cfg.Valid() && [] in sp.own && Walking(cfg, mem, mem1, pool, taken, sp, sp1, va, cfg.levels)
    requires InSpace(cfg, va) && va % PGSIZE == 0 && e < Pow2(cfg.width) && (Present(e) ==> User(e) == sp.user)
    ensures var pt, i := sp1.own[At(cfg, va, cfg.levels)], Index(cfg, va, cfg.levels);
            pt in mem1 && i < |mem1[pt]|
            && Mapped(cfg, mem, Put(mem1, pt, i, e), pool, taken, sp, sp1, va, LeafMapping(e))
  {
    var n := At(cfg, va, cfg.levels);
    var pt, i := sp1.own[n], Index(cfg, va, cfg.levels);
    EntryFacts(cfg, mem1, sp1, cfg.levels, va);
    assert Root(sp1) == Root(sp) && NodeOk(cfg, mem1, sp1, n);
    forall m | m in sp1.own && sp1.own[m] == pt ensures m == n {
      assert SameTable(sp1, m, n);
    }
    WroteLeaf(mem1, sp1, n, i, e);
    var mem' := Put(mem1, pt, i, e);
    assert EntryOk(cfg, sp1, n, i, e);
    LeafKeepsTree(cfg, mem1, mem', sp1, n, i, e);
    FrozenFrame(cfg, mem1, mem', sp.kern);
    PoolKept(cfg, mem1, pt, i, e, pool[taken..]);
    OnlyWroteLeaf(mem, mem1, sp, sp1, n, i, e, pool[..taken]);
    LeafFlats(cfg, mem, mem1, mem', sp1, va, e);
  }

  lemma LeafFlats(cfg: Config, mem: Mem, mem1: Mem, mem': Mem, sp1: Space, va: nat, e: nat)
    requires cfg.Valid() && TreeOk(cfg, mem1, sp1) && TreeOk(cfg, mem', sp1) && Frozen(cfg, mem1, sp1.kern)
    requires InSpace(cfg, va) && va % PGSIZE == 0 && At(cfg, va, cfg.levels) in sp1.own
    requires Wrote(mem1, mem', sp1, At(cfg, va, cfg.levels), Index(cfg, va, cfg.levels), e)
    requires forall wa {:trigger Flat(cfg, mem1, Root(sp1), wa)} ::
        Flat(cfg, mem1, Root(sp1), wa) == Flat(cfg, mem, Root(sp1), wa)
    ensures Flat(cfg, mem', Root(sp1), va) == LeafMapping(e)
    ensures forall wa: nat {:trigger Flat(cfg, mem', Root(sp1), wa)} ::
        InSpace(cfg, wa) && wa % PGSIZE == 0 && wa != va ==>
              Flat(cfg, mem', Root(sp1), wa) == Flat(cfg, mem, Root(sp1), wa)
  {
    LeafChangesFlat(cfg, mem1, mem', sp1, va, e, va);
    forall wa: nat | InSpace(cfg, wa) && wa % PGSIZE == 0 && wa != va
      ensures Flat(cfg, mem', Root(sp1), wa) == Flat(cfg, mem, Root(sp1), wa) {
      LeafChangesFlat(cfg, mem1, mem', sp1, va, e, wa);
      assert Flat(cfg, mem1, Root(sp1), wa) == Flat(cfg, mem, Root(sp1), wa);
    }
  }

  lemma NothingMissing(cfg: Config, mem: Mem, mem1: Mem, pool: seq<nat>, taken: nat, sp: Space, sp1: Space, va: nat,
      r: Option<Mapping>)
    requires cfg.Valid() && [] in sp.own && Mapped(cfg, mem, mem1, pool, taken, sp, sp1, va, r) &&
        At(cfg, va, cfg.levels) in sp1.own
    ensures Missing(cfg, sp1, va, 0) == 0
  {
    NoneMissing(cfg, mem1, sp1, va, 0);
  }

  lemma MappedPool(cfg: Config, mem: Mem, mem1: Mem, pool: seq<nat>, taken: nat, sp: Space, sp1: Space, va: nat,
      r: Option<Mapping>)
    requires cfg.Valid() && [] in sp.own && Mapped(cfg, mem, mem1, pool, taken, sp, sp1, va, r)
    ensures TreeOk(cfg, mem1, sp1) && Frozen(cfg, mem1, sp1.kern) && PoolOk(cfg, mem1, pool[taken..]) &&
        PoolApart(pool[taken..], sp1)
    ensures Root(sp1) == Root(sp) && sp1.user == sp.user && sp1.foreign == sp.foreign
  {
  }

  lemma {:induction false} NoneMissing(cfg: Config, mem: Mem, sp: Space, va: nat, l: nat)
    requires cfg.Valid() && TreeOk(cfg, mem, sp) && l <= cfg.levels + 1 && At(cfg, va, cfg.levels) in sp.own
    ensures Missing(cfg, sp, va, l) == 0
    decreases cfg.levels + 1 - l
  {
    if l <= cfg.levels {
      NoneMissing(cfg, mem, sp, va, l + 1);
      WalkToLeaf(cfg, mem, sp, l, va);
    }
  }

  /** `map` (lines 141-156): its outcome, and the flat map afterwards. */
  method MapPage(cfg: Config, mem: Mem, pool: seq<nat>, cell: nat, va: nat, pa: nat, prot: nat, ghost sp: Space)
    returns (out: Outcome, mem': Mem, pool': seq<nat>, ghost sp': Space)
    requires cfg.Valid() && TreeOk(cfg, mem, sp) && Frozen(cfg, mem, sp.kern) && PoolOk(cfg, mem, pool) &&
        PoolApart(pool, sp)
    requires cell == Root(sp) && sp.user && va < Pow2(cfg.width) && pa < Pow2(cfg.width)
    requires InUserArea(cfg, va) ==> InSpace(cfg, va) && Index(cfg, va, 1) !in sp.foreign
    ensures out == Expected(cfg, va, pa, prot, Missing(cfg, sp, va, 0), |pool|, Flat(cfg, mem, cell, va))
    ensures out.Done? ==> Mapped(cfg, mem, mem', pool, Missing(cfg, sp, va, 0), sp, sp', va, Wanted(pa, prot))
                          && pool' == pool[Missing(cfg, sp, va, 0)..]
    ensures out.Done? <==> Possible(cfg, va, pa, prot, Missing(cfg, sp, va, 0), |pool|, Flat(cfg, mem, cell, va).Some?)
    ensures out.Done? && prot == 0 ==> Flat(cfg, mem', cell, va) == None
    ensures out.Done? && prot != 0 ==> Flat(cfg, mem', cell, va) == Some(Mapping(pa, And(prot, 2) != 0, true))
  {
    MapMeans(cfg, va, pa, prot, Missing(cfg, sp, va, 0), |pool|, Flat(cfg, mem, cell, va));
    mem', pool', sp' := mem, pool, sp;
    if !(cfg.areas != [] && cfg.areas[0].start <= va && va < cfg.areas[0].end) { return InvalidAddress, mem, pool, sp; }
    RoundDownIs(cfg, va);
    RoundDownIs(cfg, pa);
    if va != BaseOfWord(cfg, va) || pa != BaseOfWord(cfg, pa) { return NotOnPageBoundary, mem, pool, sp; }
    var ok, mem1, pool1, pt;
    ghost var taken;
    ok, mem1, pool1, pt, sp', taken := PtWalk(cfg, mem, pool, cell, va, PTE_W + PTE_U, sp);
    if !ok { return OutOfPages, mem, pool, sp; }
    LeafFound(cfg, mem, mem1, pool, taken, sp, sp', va);
    var index := IndexOf(va, cfg.tables[cfg.levels]);
    if prot == MMAP_NONE {
      if Absent(mem1[pt][index]) { return UnmapsNonMapped, mem1, pool1, sp'; }
    } else {
      if !Absent(mem1[pt][index]) { return RemapsMapped, mem1, pool1, sp'; }
    }
    LeafWordMeans(cfg, pa, prot);
    LeafMapped(cfg, mem, mem1, pool, taken, sp, sp', va, LeafWord(pa, prot));
    mem' := Put(mem1, pt, index, LeafWord(pa, prot));
    NothingMissing(cfg, mem, mem', pool, taken, sp, sp', va, Wanted(pa, prot));
    MappedPool(cfg, mem, mem', pool, taken, sp, sp', va, Wanted(pa, prot));
    ghost var sp2, none;
    ok, mem', pool', pt, sp2, none := PtWalk(cfg, mem', pool1, cell, va, PTE_W + PTE_U, sp');
    assert pool1[0..] == pool1;
    out := Done;
  }
}
