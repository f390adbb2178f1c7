/** The page tables of one address space as a radix tree in memory, and the flat map from
    pages to frames that they stand for. */
module PageTree {
  import opened Words
  import opened Paging

  /** Physical pages (and CR3 cells), by address: the words they hold. */
  type Mem = map<nat, seq<nat>>

  /** Memory after `pt[i] = e`. */
  function Put(mem: Mem, pt: nat, i: nat, e: nat): Mem
    requires pt in mem && i < |mem[pt]|
  {
    var s: seq<nat> := mem[pt][i := e];
    mem[pt := s]
  }

  /** What a page translates to. */
  datatype Mapping = Mapping(frame: nat, writable: bool, user: bool)

  datatype Option<T> = Some(value: T) | None

  /** The tables of one address space.  `own` are its own tables by the path that leads to them,
      the CR3 cell at the empty path; they are linked by entries whose PTE_U bit is `user`.  `kern`
      are the tables it shares with all others, by level; they hang off the level-1 slots `foreign`. */
  datatype Space = Space(own: map<Path, nat>, kern: map<nat, nat>, foreign: set<nat>, user: bool)

  // ---------------------------------------------------------- what the tables mean

  /** The translation of va found below a table of level l. */
  function Walk(cfg: Config, mem: Mem, l: nat, pt: nat, va: nat): Option<Mapping>
    requires cfg.Valid() && l <= cfg.levels
    decreases cfg.levels - l
  {
    var i := Index(cfg, va, l);
    if pt !in mem || i >= |mem[pt]| || !Present(mem[pt][i]) then None
    else
      var e := mem[pt][i];
      if l == cfg.levels then Some(Mapping(BaseOf(e), Writable(e), User(e)))
      else if LargeAt(cfg, l, e) then Some(Mapping(LargeFrame(cfg, l, e, va), Writable(e), User(e)))
      else Restrict(l, e, Walk(cfg, mem, l + 1, BaseOf(e), va))
  }

  /** The frame of va's page inside the large page that e maps at level l. */
  function LargeFrame(cfg: Config, l: nat, e: nat, va: nat): nat
    requires cfg.Valid() && l <= cfg.levels
  {
    var size := Pow2(cfg.tables[l].shift);
    e - e % size + BaseOf(va % size)
  }

  /** A permission holds only if the entries of all levels grant it; CR3 grants everything. */
  function Restrict(l: nat, e: nat, r: Option<Mapping>): Option<Mapping> {
    if r.None? || l == 0 then r
    else Some(Mapping(r.value.frame, r.value.writable && Writable(e), r.value.user && User(e)))
  }

  // ---------------------------------------------------------- the shape of the tables

  ghost predicate EntryOk(cfg: Config, sp: Space, n: Path, i: nat, e: nat)
    requires cfg.Valid()
  {
    e < Pow2(cfg.width) && (Present(e) ==>
      if User(e) == sp.user then
        |n| < cfg.levels ==>
          n + [i] in sp.own && sp.own[n + [i]] == BaseOf(e) && (|n| >= 1 ==> Writable(e)) && !LargeAt(cfg, |n|, e)
      else
        |n| == 1 < cfg.levels && i in sp.foreign && BaseOf(e) in sp.kern && sp.kern[BaseOf(e)] == 2)
  }

  /** Table n holds an entry in slot i that leads to page p. */
  predicate Links(mem: Mem, sp: Space, n: Path, i: nat, p: nat) {
    n in sp.own && sp.own[n] in mem && i < |mem[sp.own[n]]|
    && var e := mem[sp.own[n]][i]; Present(e) && User(e) == sp.user && BaseOf(e) == p
  }

  predicate PlaceOk(cfg: Config, mem: Mem, sp: Space, n: Path)
    requires cfg.Valid()
  {
    n in sp.own && |n| <= cfg.levels && sp.own[n] in mem && sp.own[n] !in sp.kern &&
      |mem[sp.own[n]]| == Pow2(cfg.Bits(|n|))
  }

  ghost predicate EntriesOk(cfg: Config, sp: Space, n: Path, s: seq<nat>)
    requires cfg.Valid()
  {
    forall i {:trigger s[i]} :: 0 <= i < |s| ==> EntryOk(cfg, sp, n, i, s[i])
  }

  ghost predicate NodeOk(cfg: Config, mem: Mem, sp: Space, n: Path)
    requires cfg.Valid()
  {
    && PlaceOk(cfg, mem, sp, n)
    && EntriesOk(cfg, sp, n, mem[sp.own[n]])
    && (n != [] ==> Links(mem, sp, n[..|n| - 1], n[|n| - 1], sp.own[n]))
  }

  predicate SameTable(sp: Space, n: Path, m: Path) {
    n in sp.own && m in sp.own && sp.own[n] == sp.own[m]
  }

  /** A tree: distinct tables, each below the CR3 cell, each the target of one entry of its
      parent, every entry either empty, a link to a table below, a mapping, or a shared kernel table. */
  ghost predicate TreeOk(cfg: Config, mem: Mem, sp: Space)
    requires cfg.Valid()
  {
    && [] in sp.own
    && (forall n, m {:trigger SameTable(sp, n, m)} :: SameTable(sp, n, m) ==> n == m)
    && (forall n {:trigger NodeOk(cfg, mem, sp, n)} :: n in sp.own ==> NodeOk(cfg, mem, sp, n))
  }

  /** The shared kernel tables: they lead only to each other and to frames, and no entry is for user code. */
  ghost predicate Frozen(cfg: Config, mem: Mem, kern: map<nat, nat>)
    requires cfg.Valid()
  {
    forall p {:trigger kern[p]} {:trigger p in kern} :: p in kern ==>
      && 1 <= kern[p] <= cfg.levels && p in mem
      && forall i {:trigger mem[p][i]} :: 0 <= i < |mem[p]| ==> KernelEntry(cfg, kern, kern[p], mem[p][i])
  }

  predicate KernelEntry(cfg: Config, kern: map<nat, nat>, l: nat, e: nat) {
    e < Pow2(cfg.width) && (Present(e) ==>
      !User(e) && (l < cfg.levels && !LargeAt(cfg, l, e) ==> BaseOf(e) in kern && kern[BaseOf(e)] == l + 1))
  }

  // ---------------------------------------------------------- kernel tables

  /** Translations below a shared table depend on the shared tables only. */
  lemma {:induction false} KernelWalkSame(cfg: Config, mem: Mem, mem': Mem, kern: map<nat, nat>, l: nat, pt: nat,
      va: nat)
    requires cfg.Valid() && Frozen(cfg, mem, kern) && 1 <= l <= cfg.levels && pt in kern && kern[pt] == l
    requires KernelKept(mem, mem', kern)
    ensures Walk(cfg, mem', l, pt, va) == Walk(cfg, mem, l, pt, va)
    decreases cfg.levels - l
  {
    var i := Index(cfg, va, l);
    if i < |mem[pt]| && Present(mem[pt][i]) && l < cfg.levels && !LargeAt(cfg, l, mem[pt][i]) {
      assert KernelEntry(cfg, kern, kern[pt], mem[pt][i]);
      KernelWalkSame(cfg, mem, mem', kern, l + 1, BaseOf(mem[pt][i]), va);
    }
  }

  ghost predicate KernelKept(mem: Mem, mem': Mem, kern: map<nat, nat>) {
    forall p {:trigger p in kern} :: p in kern ==> p in mem' && (p in mem ==> mem'[p] == mem[p])
  }

  // ---------------------------------------------------------- writing one entry

  /** From sp to sp', and from mem to mem', entry i of table n became e; every other entry of
      the tables of sp, and all shared tables, are as before. */
  ghost predicate Wrote(mem: Mem, mem': Mem, sp: Space, n: Path, i: nat, e: nat) {
    && n in sp.own && sp.own[n] in mem && i < |mem[sp.own[n]]|
    && sp.own[n] in mem' && mem'[sp.own[n]] == mem[sp.own[n]][i := e]
    && (forall m {:trigger sp.own[m]} {:trigger m in sp.own} :: m in sp.own && m != n && sp.own[m] in mem ==>
          sp.own[m] in mem' && mem'[sp.own[m]] == mem[sp.own[m]])
    && KernelKept(mem, mem', sp.kern)
  }

  /** sp' has the tables of sp and perhaps more. */
  ghost predicate Extends(sp: Space, sp': Space) {
    && sp'.kern == sp.kern && sp'.foreign == sp.foreign && sp'.user == sp.user
    && (forall m {:trigger m in sp.own} :: m in sp.own ==> m in sp'.own && sp'.own[m] == sp.own[m])
  }

  lemma EntriesExtend(cfg: Config, sp: Space, sp': Space, n: Path, s: seq<nat>)
    requires cfg.Valid() && EntriesOk(cfg, sp, n, s) && Extends(sp, sp')
    ensures EntriesOk(cfg, sp', n, s)
  {
    forall i | 0 <= i < |s| ensures EntryOk(cfg, sp', n, i, s[i]) {
      assert EntryOk(cfg, sp, n, i, s[i]);
    }
  }

  /** Tables other than the one written stay well formed. */
  lemma OtherNodeKept(cfg: Config, mem: Mem, mem': Mem, sp: Space, sp': Space, n: Path, i: nat, e: nat, m: Path)
    requires cfg.Valid() && NodeOk(cfg, mem, sp, m) && NodeOk(cfg, mem, sp, n) && m != n && Extends(sp, sp')
    requires m != [] ==> m[..|m| - 1] in sp.own && sp.own[m[..|m| - 1]] in mem
    requires Wrote(mem, mem', sp, n, i, e) && (|n| == cfg.levels || !Present(mem[sp.own[n]][i]))
    ensures NodeOk(cfg, mem', sp', m)
  {
    EntriesExtend(cfg, sp, sp', m, mem[sp.own[m]]);
    if m != [] {
      var q, j := m[..|m| - 1], m[|m| - 1];
      assert Links(mem, sp, q, j, sp.own[m]);
      if q == n { assert i != j; }
    }
  }

  /** The table written stays well formed if the new entry is. */
  lemma WrittenNodeKept(cfg: Config, mem: Mem, mem': Mem, sp: Space, sp': Space, n: Path, i: nat, e: nat)
    requires cfg.Valid() && NodeOk(cfg, mem, sp, n) && Extends(sp, sp') && EntryOk(cfg, sp', n, i, e)
    requires n != [] ==> n[..|n| - 1] in sp.own && sp.own[n[..|n| - 1]] in mem
    requires Wrote(mem, mem', sp, n, i, e)
    ensures NodeOk(cfg, mem', sp', n)
  {
    EntriesExtend(cfg, sp, sp', n, mem[sp.own[n]]);
    var s, s' := mem[sp.own[n]], mem'[sp.own[n]];
    forall j | 0 <= j < |s'| ensures EntryOk(cfg, sp', n, j, s'[j]) {
      if j != i { assert s'[j] == s[j]; }
    }
    if n != [] {
      var q, j := n[..|n| - 1], n[|n| - 1];
      assert Links(mem, sp, q, j, sp.own[n]);
      assert q != n;
    }
  }

  lemma ParentIn(cfg: Config, mem: Mem, sp: Space, m: Path)
    requires cfg.Valid() && TreeOk(cfg, mem, sp) && m in sp.own && m != []
    ensures m[..|m| - 1] in sp.own && sp.own[m[..|m| - 1]] in mem
  {
    assert NodeOk(cfg, mem, sp, m);
  }

  /** Storing a mapping, or clearing one, keeps the tree. */
  lemma LeafKeepsTree(cfg: Config, mem: Mem, mem': Mem, sp: Space, n: Path, i: nat, e: nat)
    requires cfg.Valid() && TreeOk(cfg, mem, sp) && |n| == cfg.levels && Wrote(mem, mem', sp, n, i, e)
    requires EntryOk(cfg, sp, n, i, e)
    ensures TreeOk(cfg, mem', sp)
  {
    assert NodeOk(cfg, mem, sp, n);
    forall m | m in sp.own ensures NodeOk(cfg, mem', sp, m) {
      assert NodeOk(cfg, mem, sp, m);
      if m != [] { ParentIn(cfg, mem, sp, m); }
      if m == n {
        WrittenNodeKept(cfg, mem, mem', sp, sp, n, i, e);
      } else {
        OtherNodeKept(cfg, mem, mem', sp, sp, n, i, e, m);
      }
    }
  }

  /** The tree with a fresh table p below slot i of table n. */
  function Grown(sp: Space, n: Path, i: nat, p: nat): Space {
    sp.(own := sp.own[n + [i] := p])
  }

  /** A slot that holds no link has no table below it. */
  lemma EmptySlot(cfg: Config, mem: Mem, sp: Space, n: Path, i: nat)
    requires cfg.Valid() && TreeOk(cfg, mem, sp) && n in sp.own && sp.own[n] in mem && i < |mem[sp.own[n]]| &&
        !Present(mem[sp.own[n]][i])
    ensures n + [i] !in sp.own
  {
    assert (n + [i])[..|n + [i]| - 1] == n && (n + [i])[|n + [i]| - 1] == i;
    assert n + [i] in sp.own ==> NodeOk(cfg, mem, sp, n + [i]);
  }

  ghost predicate Fresh(mem: Mem, sp: Space, p: nat) {
    p !in sp.kern && forall m {:trigger sp.own[m]} {:trigger m in sp.own} :: m in sp.own ==> sp.own[m] != p
  }

  predicate Cleared(cfg: Config, mem: Mem, p: nat) {
    p in mem && |mem[p]| == Pow2(cfg.tableBits) && forall i {:trigger mem[p][i]} :: 0 <= i < |mem[p]| ==> mem[p][i] == 0
  }

  /** Linking a cleared fresh page into an empty slot keeps the tree. */
  lemma LinkKeepsTree(cfg: Config, mem: Mem, mem': Mem, sp: Space, n: Path, i: nat, e: nat, p: nat)
    requires cfg.Valid() && TreeOk(cfg, mem, sp) && n in sp.own && |n| < cfg.levels && Wrote(mem, mem', sp, n, i, e)
    requires !Present(mem[sp.own[n]][i]) && Fresh(mem, sp, p) && Cleared(cfg, mem', p)
    requires e < Pow2(cfg.width) && Present(e) && User(e) == sp.user && BaseOf(e) == p && (|n| >= 1 ==> Writable(e))
    requires !LargeAt(cfg, |n|, e)
    ensures TreeOk(cfg, mem', Grown(sp, n, i, p)) && Extends(sp, Grown(sp, n, i, p))
  {
    var sp', c := Grown(sp, n, i, p), n + [i];
    EmptySlot(cfg, mem, sp, n, i);
    assert NodeOk(cfg, mem, sp, n);
    if n != [] { ParentIn(cfg, mem, sp, n); }
    NewNode(cfg, mem, mem', sp, n, i, e, p);
    WrittenNodeKept(cfg, mem, mem', sp, sp', n, i, e);
    forall k, m | SameTable(sp', k, m) ensures k == m {
      if k != c && m != c { assert SameTable(sp, k, m); }
    }
    forall m | m in sp'.own ensures NodeOk(cfg, mem', sp', m) {
      if m != c && m != n {
        assert NodeOk(cfg, mem, sp, m);
        if m != [] { ParentIn(cfg, mem, sp, m); }
        OtherNodeKept(cfg, mem, mem', sp, sp', n, i, e, m);
      }
    }
  }

  lemma NewNode(cfg: Config, mem: Mem, mem': Mem, sp: Space, n: Path, i: nat, e: nat, p: nat)
    requires cfg.Valid() && |n| < cfg.levels && Wrote(mem, mem', sp, n, i, e) && n + [i] !in sp.own
    requires p !in sp.kern && Cleared(cfg, mem', p) && Present(e) && User(e) == sp.user && BaseOf(e) == p
    ensures NodeOk(cfg, mem', Grown(sp, n, i, p), n + [i])
  {
    var sp', c := Grown(sp, n, i, p), n + [i];
    assert c[..|c| - 1] == n && c[|c| - 1] == i && n != c;
    assert cfg.tables[|c|].bits == cfg.tableBits;
    forall j | 0 <= j < |mem'[p]| ensures EntryOk(cfg, sp', c, j, mem'[p][j]) {
      assert mem'[p][j] == 0;
    }
  }

  // ---------------------------------------------------------- effect on translations

  /** What TreeOk says about one entry of one table. */
  lemma EntryFacts(cfg: Config, mem: Mem, sp: Space, l: nat, va: nat)
    requires cfg.Valid() && TreeOk(cfg, mem, sp) && l <= cfg.levels && At(cfg, va, l) in sp.own
    ensures var p, i := sp.own[At(cfg, va, l)], Index(cfg, va, l);
            p in mem && i < |mem[p]| && EntryOk(cfg, sp, At(cfg, va, l), i, mem[p][i])
  {
    IndexBound(cfg, va, l);
    assert NodeOk(cfg, mem, sp, At(cfg, va, l));
    var s := mem[sp.own[At(cfg, va, l)]];
    assert EntryOk(cfg, sp, At(cfg, va, l), Index(cfg, va, l), s[Index(cfg, va, l)]);
  }

  lemma WalkVia(cfg: Config, mem: Mem, l: nat, pt: nat, va: nat, e: nat)
    requires cfg.Valid() && l < cfg.levels && pt in mem && Index(cfg, va, l) < |mem[pt]| &&
        mem[pt][Index(cfg, va, l)] == e && Present(e) && !LargeAt(cfg, l, e)
    ensures Walk(cfg, mem, l, pt, va) == Restrict(l, e, Walk(cfg, mem, l + 1, BaseOf(e), va))
  {
  }

  lemma WalkLarge(cfg: Config, mem: Mem, l: nat, pt: nat, va: nat, e: nat)
    requires cfg.Valid() && l < cfg.levels && pt in mem && Index(cfg, va, l) < |mem[pt]| &&
        mem[pt][Index(cfg, va, l)] == e && Present(e) && LargeAt(cfg, l, e)
    ensures Walk(cfg, mem, l, pt, va) == Some(Mapping(LargeFrame(cfg, l, e, va), Writable(e), User(e)))
  {
  }

  lemma WalkAbsent(cfg: Config, mem: Mem, l: nat, pt: nat, va: nat)
    requires cfg.Valid() && l <= cfg.levels && pt in mem && Index(cfg, va, l) < |mem[pt]|
    requires !Present(mem[pt][Index(cfg, va, l)])
    ensures Walk(cfg, mem, l, pt, va) == None
  {
  }

  lemma WalkEnds(cfg: Config, mem: Mem, pt: nat, va: nat)
    requires cfg.Valid() && pt in mem && Index(cfg, va, cfg.levels) < |mem[pt]|
    ensures Walk(cfg, mem, cfg.levels, pt, va) == LeafMapping(mem[pt][Index(cfg, va, cfg.levels)])
  {
  }

  function LeafMapping(e: nat): Option<Mapping> {
    if Present(e) then Some(Mapping(BaseOf(e), Writable(e), User(e))) else None
  }

  lemma EntryWalkSame(cfg: Config, mem: Mem, mem': Mem, l: nat, pt: nat, va: nat, e: nat)
    requires cfg.Valid() && l <= cfg.levels && pt in mem && pt in mem'
    requires Index(cfg, va, l) < |mem[pt]| == |mem'[pt]| && mem[pt][Index(cfg, va, l)] == e &&
        mem'[pt][Index(cfg, va, l)] == e
    requires Present(e) && l < cfg.levels && !LargeAt(cfg, l, e) ==>
        Walk(cfg, mem', l + 1, BaseOf(e), va) == Walk(cfg, mem, l + 1, BaseOf(e), va)
    ensures Walk(cfg, mem', l, pt, va) == Walk(cfg, mem, l, pt, va)
  {
    if !Present(e) {
      WalkAbsent(cfg, mem, l, pt, va);
      WalkAbsent(cfg, mem', l, pt, va);
    } else if l < cfg.levels && LargeAt(cfg, l, e) {
      WalkLarge(cfg, mem, l, pt, va, e);
      WalkLarge(cfg, mem', l, pt, va, e);
    } else if l < cfg.levels {
      WalkVia(cfg, mem, l, pt, va, e);
      WalkVia(cfg, mem', l, pt, va, e);
    } else {
      WalkEnds(cfg, mem, pt, va);
      WalkEnds(cfg, mem', pt, va);
    }
  }

  /** If va's walk does not pass the written entry, or finds the same there, va translates as before. */
  lemma {:induction false} WalkSame(cfg: Config, mem: Mem, mem': Mem, sp: Space, n: Path, i: nat, e: nat, l: nat,
      va: nat)
    requires cfg.Valid() && TreeOk(cfg, mem, sp) && Frozen(cfg, mem, sp.kern) && Wrote(mem, mem', sp, n, i, e)
    requires l <= cfg.levels && At(cfg, va, l) in sp.own && |n| <= cfg.levels
    requires At(cfg, va, |n|) == n && Index(cfg, va, |n|) == i ==>
               Walk(cfg, mem', |n|, sp.own[n], va) == Walk(cfg, mem, |n|, sp.own[n], va)
    ensures Walk(cfg, mem', l, sp.own[At(cfg, va, l)], va) == Walk(cfg, mem, l, sp.own[At(cfg, va, l)], va)
    decreases cfg.levels - l
  {
    var m, k := At(cfg, va, l), Index(cfg, va, l);
    EntryFacts(cfg, mem, sp, l, va);
    if m != n || k != i {
      var x := mem[sp.own[m]][k];
      OtherEntry(mem, mem', sp, n, i, e, m, k);
      if Present(x) && l < cfg.levels {
        PathStep(cfg, va, l);
        if User(x) == sp.user {
          WalkSame(cfg, mem, mem', sp, n, i, e, l + 1, va);
        } else {
          KernelWalkSame(cfg, mem, mem', sp.kern, l + 1, BaseOf(x), va);
        }
      }
      EntryWalkSame(cfg, mem, mem', l, sp.own[m], va, x);
    }
  }

  lemma OtherEntry(mem: Mem, mem': Mem, sp: Space, n: Path, i: nat, e: nat, m: Path, k: nat)
    requires Wrote(mem, mem', sp, n, i, e) && m in sp.own && sp.own[m] in mem && k < |mem[sp.own[m]]| &&
        (m != n || k != i)
    ensures sp.own[m] in mem' && |mem'[sp.own[m]]| == |mem[sp.own[m]]| && mem'[sp.own[m]][k] == mem[sp.own[m]][k]
  {
  }

  /** The entry that links the table va uses at level l + 1. */
  lemma LinkFacts(cfg: Config, mem: Mem, sp: Space, l: nat, va: nat)
    requires cfg.Valid() && TreeOk(cfg, mem, sp) && l < cfg.levels && At(cfg, va, l + 1) in sp.own
    ensures At(cfg, va, l) in sp.own
    ensures var p, i := sp.own[At(cfg, va, l)], Index(cfg, va, l);
            p in mem && i < |mem[p]| && Present(mem[p][i]) && User(mem[p][i]) == sp.user
            && BaseOf(mem[p][i]) == sp.own[At(cfg, va, l + 1)] && (l >= 1 ==> Writable(mem[p][i]))
            && !LargeAt(cfg, l, mem[p][i])
  {
    var c := At(cfg, va, l + 1);
    PathStep(cfg, va, l);
    assert c[..|c| - 1] == At(cfg, va, l) && c[|c| - 1] == Index(cfg, va, l);
    assert NodeOk(cfg, mem, sp, c);
    EntryFacts(cfg, mem, sp, l, va);
  }

  /** A walk through the tree's own tables ends in the leaf entry, with the permissions of the tree. */
  lemma {:induction false} WalkToLeaf(cfg: Config, mem: Mem, sp: Space, l: nat, va: nat)
    requires cfg.Valid() && TreeOk(cfg, mem, sp) && l <= cfg.levels && At(cfg, va, cfg.levels) in sp.own
    ensures At(cfg, va, l) in sp.own
    ensures var p, i := sp.own[At(cfg, va, cfg.levels)], Index(cfg, va, cfg.levels);
            p in mem && i < |mem[p]| && (Present(mem[p][i]) ==> User(mem[p][i]) == sp.user)
            && Walk(cfg, mem, l, sp.own[At(cfg, va, l)], va) == LeafMapping(mem[p][i])
    decreases cfg.levels - l
  {
    if l == cfg.levels {
      EntryFacts(cfg, mem, sp, l, va);
      WalkEnds(cfg, mem, sp.own[At(cfg, va, l)], va);
    } else {
      WalkToLeaf(cfg, mem, sp, l + 1, va);
      LinkFacts(cfg, mem, sp, l, va);
      var p := sp.own[At(cfg, va, l)];
      WalkVia(cfg, mem, l, p, va, mem[p][Index(cfg, va, l)]);
    }
  }

  function Root(sp: Space): nat
    requires [] in sp.own
  {
    sp.own[[]]
  }

  /** What page va translates to. */
  function Flat(cfg: Config, mem: Mem, cell: nat, va: nat): Option<Mapping>
    requires cfg.Valid()
  {
    Walk(cfg, mem, 0, cell, va)
  }

  /** Allocating a table on the way changes no translation. */
  lemma LinkKeepsFlat(cfg: Config, mem: Mem, mem': Mem, sp: Space, n: Path, i: nat, e: nat, va: nat)
    requires cfg.Valid() && TreeOk(cfg, mem, sp) && Frozen(cfg, mem, sp.kern) && Wrote(mem, mem', sp, n, i, e)
    requires |n| < cfg.levels && !Present(mem[sp.own[n]][i]) && Present(e) && Cleared(cfg, mem', BaseOf(e)) &&
        !LargeAt(cfg, |n|, e)
    ensures Flat(cfg, mem', Root(sp), va) == Flat(cfg, mem, Root(sp), va)
  {
    if At(cfg, va, |n|) == n && Index(cfg, va, |n|) == i {
      WalkAbsent(cfg, mem, |n|, sp.own[n], va);
      WalkVia(cfg, mem', |n|, sp.own[n], va, e);
      IndexBound(cfg, va, |n| + 1);
      assert cfg.tables[|n| + 1].bits == cfg.tableBits;
      assert mem'[BaseOf(e)][Index(cfg, va, |n| + 1)] == 0;
      WalkAbsent(cfg, mem', |n| + 1, BaseOf(e), va);
    }
    assert At(cfg, va, 0) == [];
    WalkSame(cfg, mem, mem', sp, n, i, e, 0, va);
  }

  /** Writing the leaf entry of va changes the translation of va and of no other page. */
  lemma LeafChangesFlat(cfg: Config, mem: Mem, mem': Mem, sp: Space, va: nat, e: nat, wa: nat)
    requires cfg.Valid() && TreeOk(cfg, mem, sp) && TreeOk(cfg, mem', sp) && Frozen(cfg, mem, sp.kern)
    requires InSpace(cfg, va) && InSpace(cfg, wa) && va % PGSIZE == 0 && wa % PGSIZE == 0
    requires At(cfg, va, cfg.levels) in sp.own &&
        Wrote(mem, mem', sp, At(cfg, va, cfg.levels), Index(cfg, va, cfg.levels), e)
    ensures Flat(cfg, mem', Root(sp), wa) == if wa == va then LeafMapping(e) else Flat(cfg, mem, Root(sp), wa)
  {
    assert At(cfg, va, 0) == [] && At(cfg, wa, 0) == [];
    if wa == va {
      WalkToLeaf(cfg, mem', sp, 0, va);
    } else {
      if At(cfg, wa, cfg.levels) == At(cfg, va, cfg.levels) &&
        Index(cfg, wa, cfg.levels) == Index(cfg, va, cfg.levels) {
        LeafUnique(cfg, va, wa);
      }
      WalkSame(cfg, mem, mem', sp, At(cfg, va, cfg.levels), Index(cfg, va, cfg.levels), e, 0, wa);
    }
  }

  // ---------------------------------------------------------- frames

  ghost predicate Kept(mem: Mem, mem': Mem, sp: Space) {
    && (forall m {:trigger sp.own[m]} {:trigger m in sp.own} :: m in sp.own && sp.own[m] in mem ==>
          sp.own[m] in mem' && mem'[sp.own[m]] == mem[sp.own[m]])
    && KernelKept(mem, mem', sp.kern)
  }

  /** A tree whose tables are not written stays a tree. */
  lemma TreeFrame(cfg: Config, mem: Mem, mem': Mem, sp: Space)
    requires cfg.Valid() && TreeOk(cfg, mem, sp) && Kept(mem, mem', sp)
    ensures TreeOk(cfg, mem', sp)
  {
    forall m | m in sp.own ensures NodeOk(cfg, mem', sp, m) {
      assert NodeOk(cfg, mem, sp, m);
      if m != [] { ParentIn(cfg, mem, sp, m); }
      NodeFrame(cfg, mem, mem', sp, m);
    }
  }

  lemma NodeFrame(cfg: Config, mem: Mem, mem': Mem, sp: Space, m: Path)
    requires cfg.Valid() && NodeOk(cfg, mem, sp, m) && Kept(mem, mem', sp)
    ensures NodeOk(cfg, mem', sp, m)
  {
    if m != [] { assert Links(mem, sp, m[..|m| - 1], m[|m| - 1], sp.own[m]); }
  }

  lemma {:induction false} WalkFrame(cfg: Config, mem: Mem, mem': Mem, sp: Space, l: nat, va: nat)
    requires cfg.Valid() && TreeOk(cfg, mem, sp) && Frozen(cfg, mem, sp.kern) && Kept(mem, mem', sp)
    requires l <= cfg.levels && At(cfg, va, l) in sp.own
    ensures Walk(cfg, mem', l, sp.own[At(cfg, va, l)], va) == Walk(cfg, mem, l, sp.own[At(cfg, va, l)], va)
    decreases cfg.levels - l
  {
    EntryFacts(cfg, mem, sp, l, va);
    var x := mem[sp.own[At(cfg, va, l)]][Index(cfg, va, l)];
    if Present(x) && l < cfg.levels {
      PathStep(cfg, va, l);
      if User(x) == sp.user {
        WalkFrame(cfg, mem, mem', sp, l + 1, va);
      } else {
        KernelWalkSame(cfg, mem, mem', sp.kern, l + 1, BaseOf(x), va);
      }
    }
    EntryWalkSame(cfg, mem, mem', l, sp.own[At(cfg, va, l)], va, x);
  }

  /** An address space whose tables are not written translates as before. */
  lemma FlatFrame(cfg: Config, mem: Mem, mem': Mem, sp: Space, va: nat)
    requires cfg.Valid() && TreeOk(cfg, mem, sp) && Frozen(cfg, mem, sp.kern) && Kept(mem, mem', sp)
    ensures Flat(cfg, mem', Root(sp), va) == Flat(cfg, mem, Root(sp), va)
  {
    assert At(cfg, va, 0) == [];
    WalkFrame(cfg, mem, mem', sp, 0, va);
  }

  lemma FrozenFrame(cfg: Config, mem: Mem, mem': Mem, kern: map<nat, nat>)
    requires cfg.Valid() && Frozen(cfg, mem, kern) && KernelKept(mem, mem', kern)
    ensures Frozen(cfg, mem', kern)
  {
    forall p | p in kern ensures p in mem' && forall i {:trigger mem'[p][i]} :: 0 <= i < |mem'[p]| ==>
      KernelEntry(cfg, kern, kern[p], mem'[p][i]) {
      assert mem'[p] == mem[p];
    }
  }
}
