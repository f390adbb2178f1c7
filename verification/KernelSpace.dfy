/** Setting up address spaces in abstract-machine/am/src/x86/qemu/vme.c: the kernel's identity
    map of `vme_init` and the fresh user spaces of `protect`. */
module KernelSpace {
  import opened Words
  import opened Paging
  import opened PageTree
  import opened VmeCode
  import opened MapCode

  /** The level-1 slots used by the kernel areas among the first k. */
  ghost function SlotsOf(cfg: Config, k: nat): set<nat>
    requires cfg.Valid() && k <= |cfg.areas|
  {
    set j: nat | 0 <= j < Pow2(cfg.tableBits) && KernelSlot(cfg, k, j) :: j
  }

  ghost function KernelSlots(cfg: Config): set<nat>
    requires cfg.Valid()
  {
    SlotsOf(cfg, |cfg.areas|)
  }

  /** The slots used by addresses lo .. hi. */
  ghost function RangeSlots(cfg: Config, lo: nat, hi: nat): set<nat>
    requires cfg.Valid()
  {
    set j: nat | 0 <= j < Pow2(cfg.tableBits) && UsesSlot(cfg, lo, hi, j) :: j
  }

  lemma SlotsStep(cfg: Config, k: nat)
    requires cfg.Valid() && k < |cfg.areas|
    ensures var a := cfg.areas[k];
            SlotsOf(cfg, k + 1) == if a.kernel then SlotsOf(cfg, k) + RangeSlots(cfg, a.start, cfg.End(a))
              else SlotsOf(cfg, k)
  {
    var a := cfg.areas[k];
    var more := if a.kernel then SlotsOf(cfg, k) + RangeSlots(cfg, a.start, cfg.End(a)) else SlotsOf(cfg, k);
    forall j: nat ensures j in SlotsOf(cfg, k + 1) <==> j in more {
      KernelSlotStep(cfg, k, j);
    }
    assert SlotsOf(cfg, k + 1) == more;
  }

  lemma KernelSlotStep(cfg: Config, k: nat, j: nat)
    requires cfg.Valid() && k < |cfg.areas|
    ensures KernelSlot(cfg, k + 1, j) <==>
              KernelSlot(cfg, k, j) || (cfg.areas[k].kernel &&
                UsesSlot(cfg, cfg.areas[k].start, cfg.End(cfg.areas[k]), j))
  {
    if KernelSlot(cfg, k, j) {
      var a :| 0 <= a < k && cfg.areas[a].kernel && UsesSlot(cfg, cfg.areas[a].start, cfg.End(cfg.areas[a]), j);
      assert 0 <= a < k + 1;
    }
  }

  lemma RangeStep(cfg: Config, lo: nat, c: nat)
    requires cfg.Valid() && lo <= c && c % Chunk(cfg) == 0
    ensures RangeSlots(cfg, lo, c + Chunk(cfg)) == RangeSlots(cfg, lo, c) + {Index(cfg, c, 1)}
  {
    IndexBound(cfg, c, 1);
    assert cfg.tables[1].bits == cfg.tableBits;
    forall j: nat ensures j in RangeSlots(cfg, lo, c + Chunk(cfg)) <==>
      j in RangeSlots(cfg, lo, c) + {Index(cfg, c, 1)} {
      UsesNext(cfg, lo, c, j);
    }
    assert RangeSlots(cfg, lo, c + Chunk(cfg)) == RangeSlots(cfg, lo, c) + {Index(cfg, c, 1)};
  }

  // ---------------------------------------------------------- protect

  /** The page `upt` after the given slots were copied from `kpt`; nothing else changed. */
  ghost predicate Copied(cfg: Config, mem: Mem, mem': Mem, upt: nat, kpt: nat, slots: set<nat>) {
    && upt in mem && upt in mem' && kpt in mem && kpt != upt
    && |mem[upt]| == |mem'[upt]| == |mem[kpt]| == Pow2(cfg.tableBits)
    && mem' == mem[upt := mem'[upt]]
    && forall j {:trigger mem'[upt][j]} :: 0 <= j < |mem'[upt]| ==>
       mem'[upt][j] == if j in slots then mem[kpt][j] else mem[upt][j]
  }

  lemma CopyOne(cfg: Config, mem: Mem, mem': Mem, upt: nat, kpt: nat, slots: set<nat>, i: nat)
    requires Copied(cfg, mem, mem', upt, kpt, slots) && i < Pow2(cfg.tableBits)
    ensures kpt in mem' && i < |mem'[kpt]| && i < |mem'[upt]|
    ensures Copied(cfg, mem, Put(mem', upt, i, mem'[kpt][i]), upt, kpt, slots + {i})
  {
  }

  /** One step of `for (cur = start; cur != end; cur += step)` on words: c counts without wrap-around. */
  lemma LoopStep(w: nat, end: nat, stop: nat, c: nat, step: nat)
    requires step > 0 && c < stop <= w && stop % step == 0 && c % step == 0 && c % w == c
    ensures c + step <= stop && (c + step) % step == 0
    ensures (c % w + step) % w == (c + step) % w
  {
    MultipleSelf(step);
    MultipleAdd(stop, c, step);
    MultipleAtLeast(stop - c, step);
    MultipleAdd(c, step, step);
  }

  /** The loop's test `cur != end` is c != stop, although the last area ends at address 0. */
  lemma LoopTest(w: nat, a: Area, stop: nat, c: nat)
    requires w > 0 && a.end < w && a.start <= c <= stop <= w && stop == (if a.end == 0 then w else a.end) &&
        (a.end == 0 ==> a.start > 0)
    ensures c % w != a.end <==> c != stop
    ensures c < w ==> c % w == c
  {
    if c < w { SmallMod(c, w); } else { MultipleSelf(w); }
  }

  /** The inner loop of `protect` (lines 124-129) over one kernel area. */
  method CopyArea(cfg: Config, mem: Mem, upt: nat, kpt: nat, k: nat, ghost mem0: Mem, ghost slots: set<nat>)
    returns (mem': Mem)
    requires cfg.Valid() && cfg.AreasOk() && k < |cfg.areas| && Copied(cfg, mem0, mem, upt, kpt, slots)
    ensures Copied(cfg, mem0, mem', upt, kpt, slots + RangeSlots(cfg, cfg.areas[k].start, cfg.End(cfg.areas[k])))
  {
    mem' := mem;
    var a := cfg.areas[k];
    var w := Pow2(cfg.width);
    assert cfg.AreaOk(a);
    Pow2Mono(cfg.Top(), cfg.width);
    var cur := a.start;
    ghost var c := a.start;
    LoopTest(w, a, cfg.End(a), c);
    assert RangeSlots(cfg, c, c) == {};
    assert slots + {} == slots;
    while cur != a.end
      invariant a.start <= c <= cfg.End(a) && cur == c % w && c % Chunk(cfg) == 0
      invariant cur != a.end <==> c != cfg.End(a)
      invariant Copied(cfg, mem0, mem', upt, kpt, slots + RangeSlots(cfg, a.start, c))
      decreases cfg.End(a) - c
    {
      LoopTest(w, a, cfg.End(a), c);
      LoopStep(w, a.end, cfg.End(a), c, Chunk(cfg));
      var index := IndexOf(cur, cfg.tables[1]);
      IndexBound(cfg, c, 1);
      CopyOne(cfg, mem0, mem', upt, kpt, slots + RangeSlots(cfg, a.start, c), index);
      RangeStep(cfg, a.start, c);
      assert slots + RangeSlots(cfg, a.start, c) + {index} == slots + RangeSlots(cfg, a.start, c + Chunk(cfg));
      mem' := Put(mem', upt, index, mem'[kpt][index]);
      cur := (cur + Pow2(cfg.tables[1].shift)) % w;
      c := c + Chunk(cfg);
      LoopTest(w, a, cfg.End(a), c);
    }
  }

  /** The tables of a fresh address space. */
  function FreshSpace(cell: nat, upt: nat, kern: map<nat, nat>, slots: set<nat>): Space {
    Space(map[[] := cell, [0] := upt], kern, slots, true)
  }

  /** A CR3 cell and a page that holds only kernel entries form a tree. */
  lemma FreshTree(cfg: Config, mem: Mem, mem': Mem, cell: nat, upt: nat, kpt: nat, kern: map<nat, nat>, slots: set<nat>)
    requires cfg.Valid() && Frozen(cfg, mem, kern) && kpt in kern && kern[kpt] == 1 && KernelKept(mem, mem', kern)
    requires cell != upt && cell !in kern && upt !in kern && cell in mem' && upt in mem' && upt % PGSIZE == 0 &&
        upt < Pow2(cfg.width)
    requires mem'[cell] == [LinkWord(upt, PTE_U)]
    requires |mem'[upt]| == |mem[kpt]| == Pow2(cfg.tableBits)
    requires forall j {:trigger mem'[upt][j]} :: 0 <= j < |mem'[upt]| ==>
        mem'[upt][j] == if j in slots then mem[kpt][j] else 0
    ensures TreeOk(cfg, mem', FreshSpace(cell, upt, kern, slots))
  {
    var sp := FreshSpace(cell, upt, kern, slots);
    LinkWordParts(cfg, upt, PTE_U);
    var e := LinkWord(upt, PTE_U);
    var nil: Path, one: Path := [], [0];
    assert nil + [0] == one && one[..|one| - 1] == nil && one[|one| - 1] == 0;
    assert Pow2(0) == 1 && cfg.tables[1].bits == cfg.tableBits;
    forall i | 0 <= i < |mem'[cell]| ensures EntryOk(cfg, sp, nil, i, mem'[cell][i]) {
    }
    forall j | 0 <= j < |mem'[upt]| ensures EntryOk(cfg, sp, one, j, mem'[upt][j]) {
      if j in slots { assert KernelEntry(cfg, kern, kern[kpt], mem[kpt][j]); }
    }
    assert NodeOk(cfg, mem', sp, nil);
    assert NodeOk(cfg, mem', sp, one);
  }

  /** It translates what the copied kernel entries translate, and nothing else. */
  lemma FreshFlat(cfg: Config, mem: Mem, mem': Mem, cell: nat, upt: nat, kpt: nat, kern: map<nat, nat>, slots: set<nat>,
      va: nat)
    requires cfg.Valid() && Frozen(cfg, mem, kern) && kpt in kern && kern[kpt] == 1 && KernelKept(mem, mem', kern)
    requires cell in mem' && upt in mem' && upt % PGSIZE == 0 && upt < Pow2(cfg.width)
    requires mem'[cell] == [LinkWord(upt, PTE_U)]
    requires |mem'[upt]| == |mem[kpt]| == Pow2(cfg.tableBits)
    requires forall j {:trigger mem'[upt][j]} :: 0 <= j < |mem'[upt]| ==>
        mem'[upt][j] == if j in slots then mem[kpt][j] else 0
    ensures Flat(cfg, mem', cell, va) == if Index(cfg, va, 1) in slots then Walk(cfg, mem, 1, kpt, va) else None
  {
    var e, i := LinkWord(upt, PTE_U), Index(cfg, va, 1);
    LinkWordParts(cfg, upt, PTE_U);
    CellIndex(cfg, va);
    IndexField(cfg, va, 1);
    WalkVia(cfg, mem', 0, cell, va, e);
    if i in slots && Present(mem[kpt][i]) {
      var x := mem[kpt][i];
      assert KernelEntry(cfg, kern, kern[kpt], x);
      WalkVia(cfg, mem', 1, upt, va, x);
      WalkVia(cfg, mem, 1, kpt, va, x);
      KernelWalkSame(cfg, mem, mem', kern, 2, BaseOf(x), va);
    } else {
      assert mem'[upt][i] == if i in slots then mem[kpt][i] else 0;
      WalkAbsent(cfg, mem', 1, upt, va);
      if i in slots { WalkAbsent(cfg, mem, 1, kpt, va); }
    }
  }

  /** What `protect` leaves: a tree with one table, the kernel's translations in it, no others. */
  ghost predicate Protected(cfg: Config, mem: Mem, mem': Mem, cell: nat, upt: nat, kpt: nat, kern: map<nat, nat>)
    requires cfg.Valid()
  {
    && TreeOk(cfg, mem', FreshSpace(cell, upt, kern, KernelSlots(cfg))) && Frozen(cfg, mem', kern)
    && (forall p {:trigger p in mem} {:trigger mem'[p]} :: p in mem && p != cell && p != upt ==>
       p in mem' && mem'[p] == mem[p])
    && (forall va: nat {:trigger Flat(cfg, mem', cell, va)} ::
          Flat(cfg, mem', cell, va) == if Index(cfg, va, 1) in KernelSlots(cfg) then Walk(cfg, mem, 1, kpt, va)
            else None)
  }

  /** `protect` (lines 117-135). */
  method ProtectSpace(cfg: Config, mem: Mem, pool: seq<nat>, cell: nat, kpt: nat, ghost kern: map<nat, nat>)
    returns (ok: bool, mem': Mem, pool': seq<nat>, upt: nat)
    requires cfg.Valid() && cfg.AreasOk() && Frozen(cfg, mem, kern) && kpt in kern && kern[kpt] == 1 &&
        |mem[kpt]| == Pow2(cfg.tableBits)
    requires PoolOk(cfg, mem, pool) && (forall p {:trigger p in pool} :: p in pool ==> p !in kern) && cell !in pool &&
        cell !in kern
    ensures ok <==> pool != []
    ensures ok ==> upt == pool[0] && pool' == pool[1..] && PoolOk(cfg, mem', pool')
    ensures ok ==> Protected(cfg, mem, mem', cell, upt, kpt, kern)
  {
    ok, mem', pool', upt := PgAllocZ(cfg, mem, pool);
    if !ok { return; }
    assert upt in pool && PageOk(cfg, mem, upt);
    ghost var mem0 := mem';
    ghost var none: set<nat> := {};
    var i := 0;
    assert SlotsOf(cfg, 0) == {};
    while i < |cfg.areas|
      invariant 0 <= i <= |cfg.areas|
      invariant Copied(cfg, mem0, mem', upt, kpt, SlotsOf(cfg, i))
    {
      SlotsStep(cfg, i);
      if cfg.areas[i].kernel {
        mem' := CopyArea(cfg, mem', upt, kpt, i, mem0, SlotsOf(cfg, i));
      }
      i := i + 1;
    }
    ghost var mem1 := mem';
    mem' := mem'[cell := [LinkWord(upt, PTE_U)]];
    FinishProtect(cfg, mem, mem0, mem1, mem', pool, cell, upt, kpt, kern);
  }

  lemma FinishProtect(cfg: Config, mem: Mem, mem0: Mem, mem1: Mem, mem': Mem, pool: seq<nat>, cell: nat, upt: nat,
      kpt: nat, kern: map<nat, nat>)
    requires cfg.Valid() && Frozen(cfg, mem, kern) && kpt in kern && kern[kpt] == 1
    requires PoolOk(cfg, mem, pool) && pool != [] && pool[0] == upt && cell !in pool && cell !in kern && upt !in kern
    requires Cleared(cfg, mem0, upt) && mem0 == mem[upt := mem0[upt]] &&
        Copied(cfg, mem0, mem1, upt, kpt, KernelSlots(cfg))
    requires mem' == mem1[cell := [LinkWord(upt, PTE_U)]]
    ensures Protected(cfg, mem, mem', cell, upt, kpt, kern) && PoolOk(cfg, mem', pool[1..])
  {
    assert PageOk(cfg, mem, upt) && upt in pool && cell != upt;
    assert KernelKept(mem, mem', kern);
    var slots := KernelSlots(cfg);
    forall j | 0 <= j < |mem'[upt]| ensures mem'[upt][j] == if j in slots then mem[kpt][j] else 0 {
      assert mem0[upt][j] == 0;
      assert mem1[upt][j] == if j in slots then mem0[kpt][j] else mem0[upt][j];
    }
    FreshTree(cfg, mem, mem', cell, upt, kpt, kern, slots);
    FrozenFrame(cfg, mem, mem', kern);
    forall va: nat ensures Flat(cfg, mem', cell, va) == if Index(cfg, va, 1) in slots then Walk(cfg, mem, 1, kpt, va)
      else None {
      FreshFlat(cfg, mem, mem', cell, upt, kpt, kern, slots, va);
    }
    RestOfPool(cfg, mem, mem', pool, cell);
  }

  lemma RestOfPool(cfg: Config, mem: Mem, mem': Mem, pool: seq<nat>, cell: nat)
    requires PoolOk(cfg, mem, pool) && pool != [] && cell !in pool
    requires forall p {:trigger p in mem} :: p in mem && p != cell && p != pool[0] ==> p in mem' && mem'[p] == mem[p]
    ensures PoolOk(cfg, mem', pool[1..])
  {
    var rest := pool[1..];
    forall k | 0 <= k < |rest| ensures PageOk(cfg, mem', rest[k]) {
      assert rest[k] == pool[k + 1] && pool[0] != pool[k + 1] && pool[k + 1] in pool;
      assert PageOk(cfg, mem, pool[k + 1]);
    }
    forall j, k | 0 <= j < k < |rest| ensures rest[j] != rest[k] {
      assert rest[j] == pool[j + 1] && rest[k] == pool[k + 1];
    }
  }
}
