/** All address spaces of abstract-machine/am/src/x86/qemu/vme.c at once: `vme_init`, `protect`,
    `unprotect` and `map` over one memory and one supply of pages. */
module AddressSpaces {
  import opened Words
  import opened Paging
  import opened PageTree
  import opened VmeCode
  import opened MapCode
  import opened TeardownCode
  import opened KernelSpace
  import opened KernelInit
  import opened BootTables
  import opened TableCount

  /** The own tables of each address space, by the address of its CR3 cell. */
  type Spaces = map<nat, map<Path, nat>>

  ghost function SpaceIn(cfg: Config, kern: map<nat, nat>, own: map<Path, nat>): Space
    requires cfg.Valid()
  {
    Space(own, kern, KernelSlots(cfg), true)
  }

  // ---------------------------------------------------------- the invariant

  ghost predicate SpaceOk(cfg: Config, mem: Mem, pool: seq<nat>, kern: map<nat, nat>, a: nat, own: map<Path, nat>)
    requires cfg.Valid()
  {
    var sp := SpaceIn(cfg, kern, own);
    TreeOk(cfg, mem, sp) && own[[]] == a && PoolApart(pool, sp)
  }

  predicate Shares(spaces: Spaces, a: nat, n: Path, b: nat, m: Path) {
    a in spaces && b in spaces && n in spaces[a] && m in spaces[b] && spaces[a][n] == spaces[b][m]
  }

  /** No table belongs to two address spaces. */
  ghost predicate Apart(spaces: Spaces) {
    forall a, n, b, m {:trigger Shares(spaces, a, n, b, m)} :: Shares(spaces, a, n, b, m) ==> a == b
  }

  ghost predicate KernelOk(cfg: Config, mem: Mem, pool: seq<nat>, kpt: nat, kern: map<nat, nat>)
    requires cfg.Valid()
  {
    && Frozen(cfg, mem, kern) && kpt in kern && kern[kpt] == 1 && kpt in mem && |mem[kpt]| == Pow2(cfg.tableBits)
    && (forall p {:trigger p in pool} :: p in pool ==> p !in kern)
  }

  ghost predicate WorldOk(cfg: Config, mem: Mem, pool: seq<nat>, kpt: nat, kern: map<nat, nat>, spaces: Spaces)
    requires cfg.Valid()
  {
    && KernelOk(cfg, mem, pool, kpt, kern) && PoolOk(cfg, mem, pool) && Apart(spaces)
    && forall a {:trigger SpaceOk(cfg, mem, pool, kern, a, spaces[a])} :: a in spaces ==>
       SpaceOk(cfg, mem, pool, kern, a, spaces[a])
  }

  /** Page p is free or a table of some address space. */
  ghost predicate Held(pool: seq<nat>, spaces: Spaces, p: nat) {
    p in pool || exists b, n {:trigger spaces[b][n]} :: b in spaces && n in spaces[b] && n != [] && spaces[b][n] == p
  }

  // ---------------------------------------------------------- other address spaces

  /** A call that works on space a (and on pages of the pool) leaves space b alone. */
  lemma OthersKept(cfg: Config, mem: Mem, mem': Mem, pool: seq<nat>, kpt: nat, kern: map<nat, nat>, spaces: Spaces,
      a: nat, b: nat, taken: seq<nat>)
    requires cfg.Valid() && WorldOk(cfg, mem, pool, kpt, kern, spaces) && b in spaces && b != a
    requires forall p {:trigger p in taken} :: p in taken ==> p in pool
    requires a in spaces ==> OnlyWrote(mem, mem', SpaceIn(cfg, kern, spaces[a]), taken)
    requires a !in spaces ==> NotTable(pool, kern, spaces, a)
    requires a !in spaces ==> forall p {:trigger p in mem} {:trigger mem'[p]} :: p in mem && p != a && p !in taken ==>
        p in mem' && mem'[p] == mem[p]
    requires KernelKept(mem, mem', kern)
    ensures Kept(mem, mem', SpaceIn(cfg, kern, spaces[b]))
  {
    var sp := SpaceIn(cfg, kern, spaces[b]);
    assert SpaceOk(cfg, mem, pool, kern, b, spaces[b]);
    forall m | m in sp.own && sp.own[m] in mem ensures sp.own[m] in mem' && mem'[sp.own[m]] == mem[sp.own[m]] {
      var p := sp.own[m];
      assert p !in taken;
      if a in spaces {
        forall n | n in spaces[a] ensures spaces[a][n] != p { assert !Shares(spaces, a, n, b, m); }
      } else {
        assert p != a;
      }
    }
  }

  /** Address a is not in use as a table, a CR3 cell or a free page. */
  ghost predicate NotTable(pool: seq<nat>, kern: map<nat, nat>, spaces: Spaces, a: nat) {
    && a !in pool && a !in kern
    && forall b, n {:trigger spaces[b][n]} :: b in spaces && n in spaces[b] ==> spaces[b][n] != a
  }

  lemma KernelUntouched(cfg: Config, mem: Mem, mem': Mem, pool: seq<nat>, kpt: nat, kern: map<nat, nat>,
      own: map<Path, nat>, taken: seq<nat>)
    requires cfg.Valid() && KernelOk(cfg, mem, pool, kpt, kern) && TreeOk(cfg, mem, SpaceIn(cfg, kern, own))
    requires OnlyWrote(mem, mem', SpaceIn(cfg, kern, own), taken) && forall p {:trigger p in taken} :: p in taken ==>
        p in pool
    ensures KernelKept(mem, mem', kern)
  {
    forall p | p in kern ensures p in mem' && (p in mem ==> mem'[p] == mem[p]) {
      forall m | m in own ensures own[m] != p { assert NodeOk(cfg, mem, SpaceIn(cfg, kern, own), m); }
    }
  }

  lemma KernelStays(cfg: Config, mem: Mem, mem': Mem, pool: seq<nat>, pool': seq<nat>, kpt: nat, kern: map<nat, nat>)
    requires cfg.Valid() && KernelOk(cfg, mem, pool, kpt, kern) && KernelKept(mem, mem', kern)
    requires forall p {:trigger p in pool'} :: p in pool' ==> p !in kern
    ensures KernelOk(cfg, mem', pool', kpt, kern)
    ensures forall va: nat {:trigger Walk(cfg, mem', 1, kpt, va)} ::
        Walk(cfg, mem', 1, kpt, va) == Walk(cfg, mem, 1, kpt, va)
  {
    FrozenFrame(cfg, mem, mem', kern);
    forall va: nat ensures Walk(cfg, mem', 1, kpt, va) == Walk(cfg, mem, 1, kpt, va) {
      KernelWalkSame(cfg, mem, mem', kern, 1, kpt, va);
    }
  }

  lemma SpaceStays(cfg: Config, mem: Mem, mem': Mem, pool: seq<nat>, pool': seq<nat>, kern: map<nat, nat>, b: nat,
      own: map<Path, nat>)
    requires cfg.Valid() && SpaceOk(cfg, mem, pool, kern, b, own) && Frozen(cfg, mem, kern) &&
        Kept(mem, mem', SpaceIn(cfg, kern, own))
    requires forall p {:trigger p in pool'} :: p in pool' ==> p in pool
    ensures SpaceOk(cfg, mem', pool', kern, b, own)
    ensures forall va: nat {:trigger Flat(cfg, mem', b, va)} :: Flat(cfg, mem', b, va) == Flat(cfg, mem, b, va)
  {
    TreeFrame(cfg, mem, mem', SpaceIn(cfg, kern, own));
    forall va: nat ensures Flat(cfg, mem', b, va) == Flat(cfg, mem, b, va) {
      FlatFrame(cfg, mem, mem', SpaceIn(cfg, kern, own), va);
    }
  }

  // ---------------------------------------------------------- map

  lemma SuffixIn(pool: seq<nat>, k: nat)
    requires k <= |pool|
    ensures forall p {:trigger p in pool[k..]} :: p in pool[k..] ==> p in pool
    ensures forall p {:trigger p in pool[..k]} :: p in pool[..k] ==> p in pool
    ensures forall p {:trigger p in pool} :: p in pool ==> p in pool[..k] || p in pool[k..]
  {
    assert pool == pool[..k] + pool[k..];
  }

  /** The spaces after `map` on space a. */
  lemma MapApart(spaces: Spaces, spaces': Spaces, a: nat, taken: seq<nat>)
    requires Apart(spaces) && a in spaces && a in spaces' && spaces' == spaces[a := spaces'[a]]
    requires forall m {:trigger spaces'[a][m]} :: m in spaces'[a] ==>
        (m in spaces[a] && spaces[a][m] == spaces'[a][m]) || spaces'[a][m] in taken
    requires forall b, n {:trigger spaces[b][n]} :: b in spaces && n in spaces[b] ==> spaces[b][n] !in taken
    ensures Apart(spaces')
  {
    forall b, n, d, m | Shares(spaces', b, n, d, m) ensures b == d {
      if b != a && d != a {
        assert Shares(spaces, b, n, d, m);
      } else if b == a && d != a {
        if n in spaces[a] && spaces[a][n] == spaces'[a][n] { assert Shares(spaces, b, n, d, m); }
      } else if b != a && d == a {
        if m in spaces[a] && spaces[a][m] == spaces'[a][m] { assert Shares(spaces, b, n, d, m); }
      }
    }
  }

  lemma TakenFree(cfg: Config, mem: Mem, pool: seq<nat>, kpt: nat, kern: map<nat, nat>, spaces: Spaces, b: nat, n: Path)
    requires cfg.Valid() && WorldOk(cfg, mem, pool, kpt, kern, spaces) && b in spaces && n in spaces[b]
    ensures spaces[b][n] !in pool
  {
    assert SpaceOk(cfg, mem, pool, kern, b, spaces[b]);
    var sp := SpaceIn(cfg, kern, spaces[b]);
    assert sp.own[n] !in pool;
  }

  /** Everything a successful `map` leaves as it was, and that no page is lost. */
  ghost predicate MapFrame(cfg: Config, mem: Mem, mem': Mem, pool: seq<nat>, pool': seq<nat>, kpt: nat, spaces: Spaces,
      spaces': Spaces, a: nat)
    requires cfg.Valid()
  {
    && (forall b, va: nat {:trigger Flat(cfg, mem', b, va)} :: b in spaces && b != a ==>
       Flat(cfg, mem', b, va) == Flat(cfg, mem, b, va))
    && (forall va: nat {:trigger Walk(cfg, mem', 1, kpt, va)} ::
       Walk(cfg, mem', 1, kpt, va) == Walk(cfg, mem, 1, kpt, va))
    && (forall p {:trigger Held(pool', spaces', p)} :: Held(pool', spaces', p) <==> Held(pool, spaces, p))
  }

  lemma MapHeld(pool: seq<nat>, k: nat, spaces: Spaces, spaces': Spaces, a: nat, sp': Space, p: nat)
    requires k <= |pool| && a in spaces && spaces' == spaces[a := sp'.own] && UsedUp(sp', pool[..k])
    requires forall m {:trigger m in spaces[a]} :: m in spaces[a] ==> m in sp'.own && sp'.own[m] == spaces[a][m]
    requires forall m {:trigger sp'.own[m]} {:trigger m in sp'.own} :: m in sp'.own && m !in spaces[a] ==>
        sp'.own[m] in pool[..k]
    ensures Held(pool[k..], spaces', p) <==> Held(pool, spaces, p)
  {
    SuffixIn(pool, k);
    if Held(pool, spaces, p) {
      if p in pool {
        if p in pool[..k] {
          var m :| m in sp'.own && m != [] && sp'.own[m] == p;
          assert spaces'[a][m] == p;
        }
      } else {
        var b, n :| b in spaces && n in spaces[b] && n != [] && spaces[b][n] == p;
        assert spaces'[b][n] == p;
      }
    }
    if Held(pool[k..], spaces', p) && p !in pool[k..] {
      var b, n :| b in spaces' && n in spaces'[b] && n != [] && spaces'[b][n] == p;
      if b == a && n !in spaces[a] { assert p in pool[..k]; } else { assert spaces[b][n] == p; }
    }
  }

  lemma MapWorld(cfg: Config, mem: Mem, mem': Mem, pool: seq<nat>, k: nat, kpt: nat, kern: map<nat, nat>,
                 spaces: Spaces, a: nat, sp': Space, va: nat, r: Option<Mapping>)
    requires cfg.Valid() && WorldOk(cfg, mem, pool, kpt, kern, spaces) && a in spaces && k <= |pool|
    requires [] in spaces[a] && Mapped(cfg, mem, mem', pool, k, SpaceIn(cfg, kern, spaces[a]), sp', va, r)
    ensures WorldOk(cfg, mem', pool[k..], kpt, kern, spaces[a := sp'.own])
    ensures MapFrame(cfg, mem, mem', pool, pool[k..], kpt, spaces, spaces[a := sp'.own], a)
  {
    var spaces', sp, taken := spaces[a := sp'.own], SpaceIn(cfg, kern, spaces[a]), pool[..k];
    SuffixIn(pool, k);
    assert SpaceOk(cfg, mem, pool, kern, a, spaces[a]);
    KernelUntouched(cfg, mem, mem', pool, kpt, kern, spaces[a], taken);
    KernelStays(cfg, mem, mem', pool, pool[k..], kpt, kern);
    assert sp' == SpaceIn(cfg, kern, sp'.own);
    assert SpaceOk(cfg, mem', pool[k..], kern, a, spaces'[a]);
    forall b | b in spaces && b != a
      ensures SpaceOk(cfg, mem', pool[k..], kern, b, spaces[b])
      ensures forall wa: nat {:trigger Flat(cfg, mem', b, wa)} :: Flat(cfg, mem', b, wa) == Flat(cfg, mem, b, wa)
    {
      assert SpaceOk(cfg, mem, pool, kern, b, spaces[b]);
      OthersKept(cfg, mem, mem', pool, kpt, kern, spaces, a, b, taken);
      SpaceStays(cfg, mem, mem', pool, pool[k..], kern, b, spaces[b]);
    }
    forall b, n | b in spaces && n in spaces[b] ensures spaces[b][n] !in taken {
      TakenFree(cfg, mem, pool, kpt, kern, spaces, b, n);
    }
    MapApart(spaces, spaces', a, taken);
    forall p ensures Held(pool[k..], spaces', p) <==> Held(pool, spaces, p) {
      MapHeld(pool, k, spaces, spaces', a, sp', p);
    }
  }

  // ---------------------------------------------------------- protect

  function FreshOwn(a: nat, upt: nat): map<Path, nat> { map[[] := a, [0] := upt] }

  lemma FreshApart(spaces: Spaces, pool: seq<nat>, kern: map<nat, nat>, a: nat, upt: nat)
    requires Apart(spaces) && a !in spaces && NotTable(pool, kern, spaces, a)
    requires forall b, n {:trigger spaces[b][n]} :: b in spaces && n in spaces[b] ==> spaces[b][n] != upt
    ensures Apart(spaces[a := FreshOwn(a, upt)])
  {
    var spaces' := spaces[a := FreshOwn(a, upt)];
    forall b, n, d, m | Shares(spaces', b, n, d, m) ensures b == d {
      if b != a && d != a { assert Shares(spaces, b, n, d, m); }
    }
  }

  lemma FreshHeld(pool: seq<nat>, spaces: Spaces, a: nat, p: nat)
    requires pool != [] && a !in spaces
    ensures Held(pool[1..], spaces[a := FreshOwn(a, pool[0])], p) <==> Held(pool, spaces, p)
  {
    var own, spaces' := FreshOwn(a, pool[0]), spaces[a := FreshOwn(a, pool[0])];
    var one: Path := [0];
    assert pool == [pool[0]] + pool[1..];
    assert one in own && one != [] && spaces'[a][one] == pool[0];
    if Held(pool, spaces, p) && p !in pool {
      var b, n :| b in spaces && n in spaces[b] && n != [] && spaces[b][n] == p;
      assert spaces'[b][n] == p;
    }
    if Held(pool[1..], spaces', p) && p !in pool[1..] {
      var b, n :| b in spaces' && n in spaces'[b] && n != [] && spaces'[b][n] == p;
      if b != a { assert spaces[b][n] == p; }
    }
  }

  lemma ProtectWorld(cfg: Config, mem: Mem, mem': Mem, pool: seq<nat>, kpt: nat, kern: map<nat, nat>, spaces: Spaces,
      a: nat)
    requires cfg.Valid() && WorldOk(cfg, mem, pool, kpt, kern, spaces) && a !in spaces &&
        NotTable(pool, kern, spaces, a)
    requires pool != [] && Protected(cfg, mem, mem', a, pool[0], kpt, kern) && PoolOk(cfg, mem', pool[1..])
    ensures WorldOk(cfg, mem', pool[1..], kpt, kern, spaces[a := FreshOwn(a, pool[0])])
    ensures MapFrame(cfg, mem, mem', pool, pool[1..], kpt, spaces, spaces[a := FreshOwn(a, pool[0])], a)
  {
    var upt, own, rest := pool[0], FreshOwn(a, pool[0]), pool[1..];
    var spaces' := spaces[a := own];
    SuffixIn(pool, 1);
    assert upt in pool && FreshSpace(a, upt, kern, KernelSlots(cfg)) == SpaceIn(cfg, kern, own);
    assert KernelKept(mem, mem', kern);
    KernelStays(cfg, mem, mem', pool, rest, kpt, kern);
    NotInRest(cfg, mem, pool);
    assert SpaceOk(cfg, mem', rest, kern, a, own);
    forall b | b in spaces
      ensures SpaceOk(cfg, mem', rest, kern, b, spaces[b])
      ensures forall wa: nat {:trigger Flat(cfg, mem', b, wa)} :: Flat(cfg, mem', b, wa) == Flat(cfg, mem, b, wa)
    {
      assert SpaceOk(cfg, mem, pool, kern, b, spaces[b]);
      OthersKept(cfg, mem, mem', pool, kpt, kern, spaces, a, b, [upt]);
      SpaceStays(cfg, mem, mem', pool, rest, kern, b, spaces[b]);
    }
    forall b, n | b in spaces && n in spaces[b] ensures spaces[b][n] != upt {
      TakenFree(cfg, mem, pool, kpt, kern, spaces, b, n);
    }
    FreshApart(spaces, pool, kern, a, upt);
    forall p ensures Held(rest, spaces', p) <==> Held(pool, spaces, p) {
      FreshHeld(pool, spaces, a, p);
    }
  }

  lemma NotInRest(cfg: Config, mem: Mem, pool: seq<nat>)
    requires PoolOk(cfg, mem, pool) && pool != []
    ensures pool[0] !in pool[1..]
  {
    forall i | 0 <= i < |pool[1..]| ensures pool[1..][i] != pool[0] {
      assert pool[1..][i] == pool[i + 1] && pool[0] != pool[i + 1];
    }
  }

  // ---------------------------------------------------------- unprotect

  /** The pages freed are the tables of the space, all of them pages that may be handed out again. */
  lemma FreedPages(cfg: Config, mem: Mem, sp: Space, n: Path)
    requires cfg.Valid() && TreeOk(cfg, mem, sp) && n in sp.own && n != []
    ensures PageOk(cfg, mem, sp.own[n])
  {
    assert NodeOk(cfg, mem, sp, n);
    var q, i := n[..|n| - 1], n[|n| - 1];
    assert Links(mem, sp, q, i, sp.own[n]);
    assert NodeOk(cfg, mem, sp, q);
    LinkedPage(cfg, sp, q, i, mem[sp.own[q]][i]);
    assert cfg.tables[|n|].bits == cfg.tableBits;
  }

  /** The target of a link is a page base that fits a word. */
  lemma LinkedPage(cfg: Config, sp: Space, q: Path, i: nat, e: nat)
    requires cfg.Valid() && EntryOk(cfg, sp, q, i, e)
    ensures BaseOf(e) % PGSIZE == 0 && BaseOf(e) < Pow2(cfg.width)
  {
  }

  /** The spaces without a. */
  function Without(spaces: Spaces, a: nat): Spaces { map b | b in spaces && b != a :: spaces[b] }

  ghost predicate FreedOf(own: map<Path, nat>, freed: seq<nat>) {
    NoDup(freed) && forall p {:trigger p in freed} :: p in freed <==>
      exists n {:trigger own[n]} :: n in own && n != [] && own[n] == p
  }

  lemma JoinPool(cfg: Config, mem: Mem, pool: seq<nat>, kpt: nat, kern: map<nat, nat>, spaces: Spaces, a: nat,
      freed: seq<nat>)
    requires cfg.Valid() && WorldOk(cfg, mem, pool, kpt, kern, spaces) && a in spaces && FreedOf(spaces[a], freed)
    ensures PoolOk(cfg, mem, pool + freed)
    ensures forall p {:trigger p in freed} :: p in freed ==> p !in kern && p !in pool
  {
    var sp := SpaceIn(cfg, kern, spaces[a]);
    assert SpaceOk(cfg, mem, pool, kern, a, spaces[a]);
    forall p | p in freed ensures p !in kern && p !in pool && PageOk(cfg, mem, p) {
      var n :| n in sp.own && n != [] && sp.own[n] == p;
      FreedPages(cfg, mem, sp, n);
      assert NodeOk(cfg, mem, sp, n);
      TakenFree(cfg, mem, pool, kpt, kern, spaces, a, n);
    }
    var all := pool + freed;
    forall i | 0 <= i < |all| ensures PageOk(cfg, mem, all[i]) {
      if i < |pool| {
        assert PageOk(cfg, mem, pool[i]);
      } else {
        assert all[i] == freed[i - |pool|] && all[i] in freed;
      }
    }
    forall i, j | 0 <= i < j < |all| ensures all[i] != all[j] {
      if j < |pool| { assert pool[i] != pool[j]; }
      else if i >= |pool| { assert freed[i - |pool|] != freed[j - |pool|]; }
      else { assert pool[i] in pool && freed[j - |pool|] in freed; }
    }
  }

  lemma UnprotectHeld(pool: seq<nat>, spaces: Spaces, a: nat, freed: seq<nat>, p: nat)
    requires a in spaces && FreedOf(spaces[a], freed)
    ensures Held(pool + freed, Without(spaces, a), p) <==> Held(pool, spaces, p)
  {
    var spaces' := Without(spaces, a);
    if Held(pool, spaces, p) && p !in pool {
      var b, n :| b in spaces && n in spaces[b] && n != [] && spaces[b][n] == p;
      if b == a { assert p in freed; } else { assert spaces'[b][n] == p; }
    }
    if Held(pool + freed, spaces', p) && p !in pool {
      if p in freed {
        var n :| n in spaces[a] && n != [] && spaces[a][n] == p;
        assert spaces[a][n] == p;
      } else {
        var b, n :| b in spaces' && n in spaces'[b] && n != [] && spaces'[b][n] == p;
        assert spaces[b][n] == p;
      }
    }
  }

  lemma UnprotectWorld(cfg: Config, mem: Mem, pool: seq<nat>, kpt: nat, kern: map<nat, nat>, spaces: Spaces, a: nat,
      freed: seq<nat>)
    requires cfg.Valid() && WorldOk(cfg, mem, pool, kpt, kern, spaces) && a in spaces && FreedOf(spaces[a], freed)
    ensures WorldOk(cfg, mem, pool + freed, kpt, kern, Without(spaces, a))
    ensures forall p {:trigger Held(pool + freed, Without(spaces, a), p)} ::
        Held(pool + freed, Without(spaces, a), p) <==> Held(pool, spaces, p)
  {
    var all, spaces' := pool + freed, Without(spaces, a);
    JoinPool(cfg, mem, pool, kpt, kern, spaces, a, freed);
    forall b | b in spaces' ensures SpaceOk(cfg, mem, all, kern, b, spaces'[b]) {
      assert SpaceOk(cfg, mem, pool, kern, b, spaces[b]);
      forall m | m in spaces[b] ensures spaces[b][m] !in all {
        TakenFree(cfg, mem, pool, kpt, kern, spaces, b, m);
        NotFreed(spaces, a, b, m, freed);
      }
    }
    forall b, n, d, m | Shares(spaces', b, n, d, m) ensures b == d {
      assert Shares(spaces, b, n, d, m);
    }
    forall p ensures Held(all, spaces', p) <==> Held(pool, spaces, p) {
      UnprotectHeld(pool, spaces, a, freed, p);
    }
  }

  lemma NotFreed(spaces: Spaces, a: nat, b: nat, m: Path, freed: seq<nat>)
    requires Apart(spaces) && a in spaces && b in spaces && a != b && m in spaces[b] && FreedOf(spaces[a], freed)
    ensures spaces[b][m] !in freed
  {
    forall n | n in spaces[a] ensures spaces[a][n] != spaces[b][m] { assert !Shares(spaces, a, n, b, m); }
  }

  lemma FreedAll(own: map<Path, nat>, sp: Space, mem: Mem, cfg: Config, freed: seq<nat>)
    requires cfg.Valid() && TreeOk(cfg, mem, sp) && sp.own == own && NoDup(freed)
    requires forall p {:trigger p in freed} :: p in freed <==> p in Subtree(sp, []) - {own[[]]}
    ensures FreedOf(own, freed)
  {
    var nil: Path := [];
    forall p ensures p in freed <==> exists n {:trigger own[n]} :: n in own && n != [] && own[n] == p {
      if p in freed {
        var n :| n in sp.own && nil <= n && sp.own[n] == p;
        assert n != nil;
      }
      if n :| n in own && n != [] && own[n] == p {
        assert nil <= n;
        assert !SameTable(sp, n, nil);
        assert p in Subtree(sp, nil);
      }
    }
  }

  // ---------------------------------------------------------- the module

  /** The globals of vme.c with the memory they describe. */
  class Vme {
    const cfg: Config
    var mem: Mem
    /** The pages `pgalloc` will hand out. */
    var pool: seq<nat>
    var kpt: nat
    /** The kernel's tables, and the tables of each address space. */
    ghost var kern: map<nat, nat>
    ghost var spaces: Spaces

    ghost predicate Valid()
      reads this
    {
      cfg.Valid() && cfg.AreasOk() && WorldOk(cfg, mem, pool, kpt, kern, spaces)
    }

    /** Memory before `vme_init`: some pages, no tables. */
    constructor (cfg: Config, mem: Mem, pool: seq<nat>)
      ensures this.cfg == cfg && this.mem == mem && this.pool == pool && spaces == map[]
    {
      this.cfg, this.mem, this.pool, this.kpt, this.kern, this.spaces := cfg, mem, pool, 0, map[], map[];
    }

    /** `vme_init` (line 95) on x86_64, after the boot code has built its tables of 1 GiB pages. */
    constructor Booted64(mem: Mem, pool: seq<nat>)
      requires Booted(mem) && PoolOk(X86_64, mem, pool) && PML4_ADDR !in pool && PDPT_ADDR !in pool
      ensures Valid() && spaces == map[] && cfg == X86_64 && this.mem == mem && this.pool == pool && kpt == PML4_ADDR
      ensures KernelReady(cfg, mem, kpt, kern)
    {
      cfg, this.mem, this.pool, kpt, kern, spaces := X86_64, mem, pool, PML4_ADDR, BootLevels(), map[];
      new;
      BootReady(mem);
    }

    /** `vme_init` with any kernel tables that are there already. */
    constructor Preset(cfg: Config, mem: Mem, pool: seq<nat>, kpt: nat, ghost kern: map<nat, nat>)
      requires cfg.Valid() && cfg.AreasOk() && PoolOk(cfg, mem, pool) && KernelOk(cfg, mem, pool, kpt, kern)
      ensures Valid() && spaces == map[]
      ensures this.cfg == cfg && this.mem == mem && this.pool == pool && this.kpt == kpt && this.kern == kern
    {
      this.cfg, this.mem, this.pool, this.kpt, this.kern, this.spaces := cfg, mem, pool, kpt, kern, map[];
    }

    /** `vme_init` (lines 89-115), the branch that builds the kernel's tables.  `as` is its local AddressSpace. */
    method VmeInit(cell: nat) returns (ok: bool)
      requires cfg.Valid() && cfg.AreasOk() && PoolOk(cfg, mem, pool) && cell in mem && cell !in pool && spaces == map[]
      modifies this
      ensures ok <==> |KernelPaths(cfg, |cfg.areas|)| <= |old(pool)|
      ensures ok ==> |pool| == |old(pool)| - |KernelPaths(cfg, |cfg.areas|)|
      ensures ok ==> Valid() && KernelReady(cfg, mem, kpt, kern) && spaces == map[]
    {
      ghost var k;
      ok, mem, pool, kpt, k := BuildKernel(cfg, mem, pool, cell);
      kern := k;
    }

    /** `protect` (lines 117-135). */
    method Protect(a: nat) returns (ok: bool)
      requires Valid() && a !in spaces && NotTable(pool, kern, spaces, a)
      modifies this`mem, this`pool, this`spaces
      ensures ok <==> old(pool) != []
      ensures ok ==> Valid() && pool == old(pool)[1..] && spaces == old(spaces)[a := FreshOwn(a, old(pool)[0])]
      ensures ok ==> MapFrame(cfg, old(mem), mem, old(pool), pool, kpt, old(spaces), spaces, a)
      ensures ok ==> forall va: nat {:trigger Flat(cfg, mem, a, va)} ::
                Flat(cfg, mem, a, va) == if Index(cfg, va, 1) in KernelSlots(cfg) then Walk(cfg, mem, 1, kpt, va)
                  else None
    {
      ghost var mem0, pool0 := mem, pool;
      var mem1, pool1, upt;
      ok, mem1, pool1, upt := ProtectSpace(cfg, mem, pool, a, kpt, kern);
      if !ok { return; }
      ProtectWorld(cfg, mem0, mem1, pool0, kpt, kern, spaces, a);
      mem, pool := mem1, pool1;
      spaces := spaces[a := FreshOwn(a, upt)];
    }

    /** `map` (lines 141-156). */
    method Map(a: nat, va: nat, pa: nat, prot: nat) returns (out: Outcome)
      requires Valid() && a in spaces && va < Pow2(cfg.width) && pa < Pow2(cfg.width)
      modifies this`mem, this`pool, this`spaces
      ensures out == Expected(cfg, va, pa, prot, Missing(cfg, SpaceIn(cfg, kern, old(spaces)[a]), va, 0), |old(pool)|,
          Flat(cfg, old(mem), a, va))
      ensures out.Done? <==> Possible(cfg, va, pa, prot, Missing(cfg, SpaceIn(cfg, kern, old(spaces)[a]), va, 0),
          |old(pool)|, Flat(cfg, old(mem), a, va).Some?)
      ensures out.Done? && prot == 0 ==> Flat(cfg, mem, a, va) == None
      ensures out.Done? && prot != 0 ==> Flat(cfg, mem, a, va) == Some(Mapping(pa, And(prot, 2) != 0, true))
      ensures out.Done? ==> Valid() && pool == old(pool)[Missing(cfg, SpaceIn(cfg, kern, old(spaces)[a]), va, 0)..]
      ensures out.Done? ==> forall wa: nat {:trigger Flat(cfg, mem, a, wa)} ::
          InSpace(cfg, wa) && wa % PGSIZE == 0 && wa != va ==>
                Flat(cfg, mem, a, wa) == Flat(cfg, old(mem), a, wa)
      ensures out.Done? ==> MapFrame(cfg, old(mem), mem, old(pool), pool, kpt, old(spaces), spaces, a)
      ensures out.Done? ==> spaces.Keys == old(spaces).Keys
    {
      ghost var mem0, pool0, spaces0 := mem, pool, spaces;
      ghost var sp := SpaceIn(cfg, kern, spaces[a]);
      assert SpaceOk(cfg, mem, pool, kern, a, spaces[a]);
      if InUserArea(cfg, va) { UserSlot(cfg, va); }
      var mem1, pool1;
      ghost var sp1;
      out, mem1, pool1, sp1 := MapPage(cfg, mem, pool, a, va, pa, prot, sp);
      if out.Done? {
        ghost var k := Missing(cfg, sp, va, 0);
        MapWorld(cfg, mem0, mem1, pool0, k, kpt, kern, spaces0, a, sp1, va, Wanted(pa, prot));
        mem, pool := mem1, pool1;
        spaces := spaces[a := sp1.own];
      }
    }

    /** `unprotect` (lines 137-139): every table of the space goes back to the allocator, once, and
        nothing else does. */
    method Unprotect(a: nat)
      requires Valid() && a in spaces
      modifies this`pool, this`spaces
      ensures Valid() && spaces == Without(old(spaces), a)
      ensures exists freed :: pool == old(pool) + freed && FreedOf(old(spaces)[a], freed)
      ensures forall p {:trigger Held(pool, spaces, p)} :: Held(pool, spaces, p) <==> Held(old(pool), old(spaces), p)
    {
      ghost var sp := SpaceIn(cfg, kern, spaces[a]);
      assert SpaceOk(cfg, mem, pool, kern, a, spaces[a]);
      var freed := Teardown(cfg, mem, 0, a, [], sp, []);
      FreedAll(spaces[a], sp, mem, cfg, freed);
      UnprotectWorld(cfg, mem, pool, kpt, kern, spaces, a, freed);
      pool := pool + freed;
      spaces := Without(spaces, a);
    }
  }

  // ---------------------------------------------------------- two calls

  lemma {:induction false} MissingFew(cfg: Config, sp: Space, va: nat, l: nat)
    requires cfg.Valid() && l <= cfg.levels + 1
    ensures Missing(cfg, sp, va, l) <= cfg.levels + 1 - l
    decreases cfg.levels + 1 - l
  {
    if l <= cfg.levels { MissingFew(cfg, sp, va, l + 1); }
  }

  predicate Page32(va: nat) { 0x4000_0000 <= va < 0x8000_0000 && va % PGSIZE == 0 }

  lemma UserPage32(va: nat)
    requires Page32(va)
    ensures I386.Valid() && I386.AreasOk() && va < Pow2(I386.width) && InSpace(I386, va)
    ensures Index(I386, va, 1) !in KernelSlots(I386)
  {
    ConfigsValid();
    Pow2Words();
    UserSlot(I386, va);
  }

  /** One call of `map` for a page that is not mapped yet, with pages enough. */
  method MapNew(vme: Vme, a: nat, va: nat, pa: nat, prot: nat) returns (out: Outcome)
    requires vme.Valid() && vme.cfg == I386 && a in vme.spaces && Page32(va) && Flat(I386, vme.mem, a, va) == None
    requires |vme.pool| >= 3 && pa % PGSIZE == 0 && pa < 0x1_0000_0000 && prot != 0
    modifies vme`mem, vme`pool, vme`spaces
    ensures out.Done? && vme.Valid() && a in vme.spaces && |vme.pool| >= |old(vme.pool)| - 3
    ensures Flat(I386, vme.mem, a, va) == Some(Mapping(pa, And(prot, 2) != 0, true))
    ensures forall wa: nat {:trigger Flat(I386, vme.mem, a, wa)} :: Page32(wa) && wa != va ==>
      Flat(I386, vme.mem, a, wa) == Flat(I386, old(vme.mem), a, wa)
  {
    UserPage32(va);
    Pow2Words();
    MissingFew(I386, SpaceIn(I386, vme.kern, vme.spaces[a]), va, 0);
    out := vme.Map(a, va, pa, prot);
    forall wa: nat | Page32(wa) ensures InSpace(I386, wa) { UserPage32(wa); }
  }

  /** A page mapped with MMAP_READ is read-only, one mapped with MMAP_READ | MMAP_WRITE is writable. */
  method ReadOnlyAndWritable(vme: Vme, a: nat, pa: nat) returns (ok: bool)
    requires vme.Valid() && vme.cfg == I386 && a !in vme.spaces && NotTable(vme.pool, vme.kern, vme.spaces, a)
    requires |vme.pool| >= 7 && pa % PGSIZE == 0 && pa < 0x1_0000_0000
    modifies vme
    ensures ok && vme.Valid() && vme.cfg == I386
    ensures Flat(I386, vme.mem, a, 0x4000_0000) == Some(Mapping(pa, false, true))
    ensures Flat(I386, vme.mem, a, 0x4000_1000) == Some(Mapping(pa, true, true))
  {
    UserPage32(0x4000_0000);
    UserPage32(0x4000_1000);
    ok := vme.Protect(a);
    var read := MapNew(vme, a, 0x4000_0000, pa, 1);
    var write := MapNew(vme, a, 0x4000_1000, pa, 3);
    assert And(1, 2) == 0 && And(3, 2) == 2;
  }
}
