/** `teardown` of abstract-machine/am/src/x86/qemu/vme.c: which pages it frees. */
module TeardownCode {
  import opened Words
  import opened Paging
  import opened PageTree

  /** The tables at or below n. */
  ghost function Subtree(sp: Space, n: Path): set<nat> {
    set m | m in sp.own && n <= m :: sp.own[m]
  }

  /** The tables below n that hang off its first k slots. */
  ghost function Below(sp: Space, n: Path, k: nat): set<nat> {
    set m | m in sp.own && n < m && m[|n|] < k :: sp.own[m]
  }

  ghost predicate NoDup(s: seq<nat>) {
    forall i, j {:trigger s[i], s[j]} :: 0 <= i < j < |s| ==> s[i] != s[j]
  }

  /** The ancestors of a table are tables of the tree. */
  lemma {:induction false} PrefixIn(cfg: Config, mem: Mem, sp: Space, m: Path, k: nat)
    requires cfg.Valid() && TreeOk(cfg, mem, sp) && m in sp.own && k <= |m|
    ensures m[..k] in sp.own
    decreases |m| - k
  {
    if k == |m| {
      assert m[..k] == m;
    } else {
      PrefixIn(cfg, mem, sp, m, k + 1);
      ParentIn(cfg, mem, sp, m[..k + 1]);
      assert m[..k + 1][..k] == m[..k];
    }
  }

  lemma BelowLink(sp: Space, n: Path, k: nat)
    ensures Below(sp, n, k + 1) == Below(sp, n, k) + Subtree(sp, n + [k])
  {
    forall p | p in Subtree(sp, n + [k]) ensures p in Below(sp, n, k + 1) {
      var m :| m in sp.own && n + [k] <= m && sp.own[m] == p;
      assert n < m && m[|n|] == k;
    }
    forall p | p in Below(sp, n, k + 1) ensures p in Below(sp, n, k) + Subtree(sp, n + [k]) {
      var m :| m in sp.own && n < m && m[|n|] < k + 1 && sp.own[m] == p;
      if m[|n|] == k { assert n + [k] <= m; }
    }
  }

  /** A slot without a table contributes nothing. */
  lemma BelowSkip(cfg: Config, mem: Mem, sp: Space, n: Path, k: nat)
    requires cfg.Valid() && TreeOk(cfg, mem, sp) && n + [k] !in sp.own
    ensures Below(sp, n, k + 1) == Below(sp, n, k)
  {
    BelowLink(sp, n, k);
    forall m | m in sp.own ensures !(n + [k] <= m) {
      if |n| + 1 <= |m| {
        PrefixIn(cfg, mem, sp, m, |n| + 1);
        assert m[..|n| + 1] != n + [k];
      }
    }
    assert Subtree(sp, n + [k]) == {};
  }

  /** All slots together, and the table itself, are the subtree. */
  lemma SubtreeIs(cfg: Config, mem: Mem, sp: Space, n: Path)
    requires cfg.Valid() && TreeOk(cfg, mem, sp) && n in sp.own && |n| <= cfg.levels
    ensures Subtree(sp, n) == Below(sp, n, Pow2(cfg.Bits(|n|))) + {sp.own[n]}
    ensures sp.own[n] !in Below(sp, n, Pow2(cfg.Bits(|n|)))
  {
    var N := Pow2(cfg.Bits(|n|));
    forall m | m in sp.own && n < m ensures m[|n|] < N && sp.own[m] != sp.own[n] {
      PrefixIn(cfg, mem, sp, m, |n| + 1);
      var c := m[..|n| + 1];
      assert NodeOk(cfg, mem, sp, c);
      assert c[..|c| - 1] == n && c[|c| - 1] == m[|n|];
      assert NodeOk(cfg, mem, sp, n);
      assert !SameTable(sp, m, n);
    }
    forall p ensures p in Subtree(sp, n) <==> p in Below(sp, n, N) + {sp.own[n]} {
      if p in Subtree(sp, n) {
        var m :| m in sp.own && n <= m && sp.own[m] == p;
        assert m == n || n < m;
      }
      if p in Below(sp, n, N) {
        var m :| m in sp.own && n < m && m[|n|] < N && sp.own[m] == p;
        assert n <= m;
      }
      assert n <= n;
    }
  }

  /** Only a link leads to a table. */
  lemma NoTable(cfg: Config, mem: Mem, sp: Space, n: Path, i: nat)
    requires cfg.Valid() && TreeOk(cfg, mem, sp) && n in sp.own && sp.own[n] in mem && i < |mem[sp.own[n]]|
    requires |n| == cfg.levels || !Present(mem[sp.own[n]][i]) || User(mem[sp.own[n]][i]) != sp.user
    ensures n + [i] !in sp.own
  {
    assert (n + [i])[..|n + [i]| - 1] == n && (n + [i])[|n + [i]| - 1] == i;
    assert n + [i] in sp.own ==> NodeOk(cfg, mem, sp, n + [i]);
  }

  /** Tables that hang off different slots are different tables. */
  lemma SlotsApart(cfg: Config, mem: Mem, sp: Space, n: Path, k: nat, p: nat)
    requires cfg.Valid() && TreeOk(cfg, mem, sp) && p in Subtree(sp, n + [k])
    ensures p !in Below(sp, n, k)
  {
    var m :| m in sp.own && n + [k] <= m && sp.own[m] == p;
    forall w | w in sp.own && n < w && w[|n|] < k ensures sp.own[w] != p {
      assert w != m;
      assert !SameTable(sp, w, m);
    }
  }

  lemma SubtreeSmaller(sp: Space, n: Path, k: nat)
    ensures Subtree(sp, n + [k]) <= Subtree(sp, n)
  {
    forall p | p in Subtree(sp, n + [k]) ensures p in Subtree(sp, n) {
      var m :| m in sp.own && n + [k] <= m && sp.own[m] == p;
      assert n <= m;
    }
  }

  /** What `teardown(level, pt)` frees: the tables below pt and, unless it is the CR3 cell, pt itself. */
  ghost function Freed(cfg: Config, sp: Space, level: nat, n: Path): set<nat>
    requires cfg.Valid() && (level <= cfg.levels ==> n in sp.own)
  {
    if level > cfg.levels then {} else if level == 0 then Subtree(sp, n) - {sp.own[n]} else Subtree(sp, n)
  }

  /** `teardown` (lines 77-87).  `freed` lists the pages handed to `pgfree`, in order: each table
      once, after all the tables below it, and none is read after it was freed. */
  method Teardown(cfg: Config, mem: Mem, level: nat, pt: nat, freed: seq<nat>, ghost sp: Space, ghost n: Path)
    returns (freed': seq<nat>)
    requires cfg.Valid() && TreeOk(cfg, mem, sp) && sp.user && level <= cfg.levels + 1
    requires level <= cfg.levels ==> |n| == level && n in sp.own && sp.own[n] == pt
    requires NoDup(freed) && (level <= cfg.levels ==> forall p {:trigger p in freed} :: p in freed ==>
        p !in Subtree(sp, n))
    ensures NoDup(freed') && freed <= freed'
    ensures forall p {:trigger p in freed'} :: p in freed' <==> p in freed || p in Freed(cfg, sp, level, n)
    ensures 1 <= level <= cfg.levels ==> freed' != freed && freed'[|freed'| - 1] == pt
    decreases cfg.levels + 1 - level
  {
    freed' := freed;
    if level > cfg.levels { return; }
    assert NodeOk(cfg, mem, sp, n);
    SubtreeIs(cfg, mem, sp, n);
    var index := 0;
    while index < Pow2(cfg.tables[level].bits)
      invariant 0 <= index <= Pow2(cfg.tables[level].bits)
      invariant NoDup(freed') && freed <= freed'
      invariant forall p {:trigger p in freed'} :: p in freed' <==> p in freed || p in Below(sp, n, index)
    {
      assert pt !in freed';
      var e := mem[pt][index];
      assert EntryOk(cfg, sp, n, index, mem[pt][index]);
      WordParts(cfg, e);
      BelowLink(sp, n, index);
      if And(e, PTE_P) != 0 && And(e, PTE_U) != 0 {
        if level < cfg.levels {
          SubtreeSmaller(sp, n, index);
          forall p | p in freed' ensures p !in Subtree(sp, n + [index]) {
            if p in Subtree(sp, n + [index]) { SlotsApart(cfg, mem, sp, n, index, p); }
          }
        } else {
          NoTable(cfg, mem, sp, n, index);
          BelowSkip(cfg, mem, sp, n, index);
        }
        freed' := Teardown(cfg, mem, level + 1, BaseOfWord(cfg, e), freed', sp, n + [index]);
      } else {
        NoTable(cfg, mem, sp, n, index);
        BelowSkip(cfg, mem, sp, n, index);
      }
      index := index + 1;
    }
    assert pt !in freed';
    if level >= 1 {
      ghost var children := freed';
      freed' := freed' + [pt];
      assert forall p {:trigger p in freed'} :: p in freed' <==> p in children || p == pt;
    }
  }
}
