/** How many pages the tables of abstract-machine/am/src/x86/qemu/vme.c take. */
module TableCount {
  import opened Words
  import opened Paging
  import opened PageTree
  import opened VmeCode

  /** The tables va uses at level l and below. */
  function PathsFrom(cfg: Config, va: nat, l: nat): set<Path>
    requires cfg.Valid() && l <= cfg.levels + 1
  {
    set k: nat | l <= k <= cfg.levels :: At(cfg, va, k)
  }

  lemma PathsFromStep(cfg: Config, va: nat, l: nat)
    requires cfg.Valid() && l <= cfg.levels
    ensures PathsFrom(cfg, va, l) == PathsFrom(cfg, va, l + 1) + {At(cfg, va, l)} &&
        At(cfg, va, l) !in PathsFrom(cfg, va, l + 1)
  {
    forall n ensures n in PathsFrom(cfg, va, l) <==> n in PathsFrom(cfg, va, l + 1) + {At(cfg, va, l)} {
      if n in PathsFrom(cfg, va, l) {
        var k: nat :| l <= k <= cfg.levels && n == At(cfg, va, k);
        if k > l { assert n in PathsFrom(cfg, va, l + 1); }
      }
      if n in PathsFrom(cfg, va, l + 1) {
        var k: nat :| l + 1 <= k <= cfg.levels && n == At(cfg, va, k);
        assert n in PathsFrom(cfg, va, l);
      }
    }
  }

  lemma AddOne(keys: set<Path>, rest: set<Path>, n: Path)
    requires n !in rest
    ensures |keys + (rest + {n})| == |keys + rest| + if n in keys then 0 else 1
  {
    if n in keys {
      assert keys + (rest + {n}) == keys + rest;
    } else {
      assert keys + (rest + {n}) == (keys + rest) + {n};
    }
  }

  lemma MissingStep(cfg: Config, sp: Space, va: nat, l: nat, keys: set<Path>)
    requires cfg.Valid() && l <= cfg.levels && keys == sp.own.Keys
    requires |keys + PathsFrom(cfg, va, l + 1)| == |keys| + Missing(cfg, sp, va, l + 1)
    ensures |keys + PathsFrom(cfg, va, l)| == |keys| + Missing(cfg, sp, va, l)
  {
    PathsFromStep(cfg, va, l);
    AddOne(keys, PathsFrom(cfg, va, l + 1), At(cfg, va, l));
  }

  /** `Missing` counts the tables a walk adds. */
  lemma {:induction false} MissingAre(cfg: Config, sp: Space, va: nat, l: nat)
    requires cfg.Valid() && l <= cfg.levels + 1
    ensures |sp.own.Keys + PathsFrom(cfg, va, l)| == |sp.own.Keys| + Missing(cfg, sp, va, l)
    decreases cfg.levels + 1 - l
  {
    if l > cfg.levels {
      assert PathsFrom(cfg, va, l) == {};
      assert sp.own.Keys + {} == sp.own.Keys;
    } else {
      MissingAre(cfg, sp, va, l + 1);
      MissingStep(cfg, sp, va, l, sp.own.Keys);
    }
  }

  /** The same for a tree, whose root is always there. */
  lemma WalkAdds(cfg: Config, sp: Space, va: nat)
    requires cfg.Valid() && [] in sp.own
    ensures |sp.own.Keys + PathsTo(cfg, va, cfg.levels)| == |sp.own.Keys| + Missing(cfg, sp, va, 0)
  {
    MissingAre(cfg, sp, va, 0);
    PathsFromStep(cfg, va, 0);
    assert At(cfg, va, 0) == [];
    assert PathsFrom(cfg, va, 1) == PathsTo(cfg, va, cfg.levels);
    assert sp.own.Keys + PathsFrom(cfg, va, 0) == sp.own.Keys + PathsTo(cfg, va, cfg.levels);
  }

  /** The tables used by the pages of lo .. hi. */
  ghost function PathsIn(cfg: Config, lo: nat, hi: nat): set<Path>
    requires cfg.Valid()
  {
    set va: nat, k: nat | lo <= va < hi && va % PGSIZE == 0 && 1 <= k <= cfg.levels :: At(cfg, va, k)
  }

  ghost function AreaPaths(cfg: Config, k: nat): set<Path>
    requires cfg.Valid() && k < |cfg.areas|
  {
    PathsIn(cfg, cfg.areas[k].start, cfg.End(cfg.areas[k]))
  }

  /** The tables used by the pages of the first k kernel areas. */
  ghost function KernelPaths(cfg: Config, k: nat): set<Path>
    requires cfg.Valid() && k <= |cfg.areas|
  {
    if k == 0 then {}
    else if cfg.areas[k - 1].kernel then KernelPaths(cfg, k - 1) + AreaPaths(cfg, k - 1)
    else KernelPaths(cfg, k - 1)
  }

  lemma {:induction false} PathsGrow(cfg: Config, i: nat, k: nat)
    requires cfg.Valid() && i <= k <= |cfg.areas|
    ensures KernelPaths(cfg, i) <= KernelPaths(cfg, k)
    decreases k
  {
    if i < k { PathsGrow(cfg, i, k - 1); }
  }

  lemma {:induction false} RootApart(cfg: Config, k: nat, root: Path)
    requires cfg.Valid() && k <= |cfg.areas| && root == []
    ensures root !in KernelPaths(cfg, k)
  {
    if k > 0 { RootApart(cfg, k - 1, root); }
  }

  lemma PathsInStep(cfg: Config, lo: nat, c: nat)
    requires cfg.Valid() && lo <= c && c % PGSIZE == 0
    ensures PathsIn(cfg, lo, c + PGSIZE) == PathsIn(cfg, lo, c) + PathsTo(cfg, c, cfg.levels)
  {
    forall n ensures n in PathsIn(cfg, lo, c + PGSIZE) <==> n in PathsIn(cfg, lo, c) + PathsTo(cfg, c, cfg.levels) {
      if n in PathsIn(cfg, lo, c + PGSIZE) {
        var va: nat, k: nat :|
          lo <= va < c + PGSIZE && va % PGSIZE == 0 && 1 <= k <= cfg.levels && n == At(cfg, va, k);
        if va < c { assert n in PathsIn(cfg, lo, c); } else { assert va == c; }
      }
      if n in PathsIn(cfg, lo, c) {
        var va: nat, k: nat :| lo <= va < c && va % PGSIZE == 0 && 1 <= k <= cfg.levels && n == At(cfg, va, k);
        assert lo <= va < c + PGSIZE;
      }
      if n in PathsTo(cfg, c, cfg.levels) {
        var k: nat :| 1 <= k <= cfg.levels && n == At(cfg, c, k);
        assert lo <= c < c + PGSIZE;
      }
    }
  }

  lemma PathsInGrow(cfg: Config, lo: nat, c: nat, hi: nat)
    requires cfg.Valid() && c <= hi
    ensures PathsIn(cfg, lo, c) <= PathsIn(cfg, lo, hi)
  {
    forall n | n in PathsIn(cfg, lo, c) ensures n in PathsIn(cfg, lo, hi) {
      var va: nat, k: nat :| lo <= va < c && va % PGSIZE == 0 && 1 <= k <= cfg.levels && n == At(cfg, va, k);
      assert lo <= va < hi;
    }
  }

  /** One page more of an area, with the tables there are already. */
  lemma AreaStep(cfg: Config, keys: set<Path>, lo: nat, c: nat, hi: nat)
    requires cfg.Valid() && lo <= c && c % PGSIZE == 0 && c + PGSIZE <= hi
    ensures (keys + PathsIn(cfg, lo, c)) + PathsTo(cfg, c, cfg.levels) == keys + PathsIn(cfg, lo, c + PGSIZE)
    ensures |keys + PathsIn(cfg, lo, c + PGSIZE)| <= |keys + PathsIn(cfg, lo, hi)|
  {
    PathsInStep(cfg, lo, c);
    PathsInGrow(cfg, lo, c + PGSIZE, hi);
    Larger(keys + PathsIn(cfg, lo, c + PGSIZE), keys + PathsIn(cfg, lo, hi));
  }

  lemma AreaStarts(cfg: Config, keys: set<Path>, lo: nat)
    requires cfg.Valid()
    ensures keys == keys + PathsIn(cfg, lo, lo)
  {
  }

  /** The root and the tables of the first k kernel areas. */
  ghost function KernelTree(cfg: Config, k: nat): set<Path>
    requires cfg.Valid() && k <= |cfg.areas|
  {
    {[]} + KernelPaths(cfg, k)
  }

  /** No table below the root is the root. */
  lemma TreeSize(cfg: Config, k: nat)
    requires cfg.Valid() && k <= |cfg.areas|
    ensures |KernelTree(cfg, k)| == 1 + |KernelPaths(cfg, k)|
  {
    var root: Path := [];
    RootApart(cfg, k, root);
  }

  /** One kernel area more. */
  lemma KernelStep(cfg: Config, k: nat)
    requires cfg.Valid() && k < |cfg.areas|
    ensures KernelTree(cfg, k + 1) ==
        if cfg.areas[k].kernel then KernelTree(cfg, k) + AreaPaths(cfg, k) else KernelTree(cfg, k)
    ensures |KernelTree(cfg, k + 1)| <= 1 + |KernelPaths(cfg, |cfg.areas|)|
  {
    PathsGrow(cfg, k + 1, |cfg.areas|);
    TreeSize(cfg, |cfg.areas|);
    Larger(KernelTree(cfg, k + 1), KernelTree(cfg, |cfg.areas|));
  }

  /** The tables `own` are those at `paths`; with the free pages they make up `total`. */
  ghost predicate Counted(own: map<Path, nat>, free: nat, paths: set<Path>, total: nat) {
    own.Keys == paths && |paths| + free == total
  }

  lemma Larger(a: set<Path>, b: set<Path>)
    requires a <= b
    ensures |a| <= |b|
  {
    assert b == a + (b - a);
  }

  // ---------------------------------------------------------- the 32-bit build

  const CHUNK: nat := 0x40_0000

  /** The last-level tables of the chunks a .. b. */
  function Boxes(a: nat, b: nat): set<Path> {
    set j: nat | a <= j < b :: [0, j]
  }

  lemma {:induction false} BoxCount(a: nat, b: nat)
    requires a <= b
    ensures |Boxes(a, b)| == b - a
    decreases b - a
  {
    if a == b {
      assert Boxes(a, b) == {};
    } else {
      BoxCount(a, b - 1);
      var last: Path := [0, b - 1];
      assert Boxes(a, b) == Boxes(a, b - 1) + {last};
    }
  }

  lemma ChunkOf(va: nat, a: nat, b: nat)
    requires I386.Valid() && a * CHUNK <= va < b * CHUNK && b <= 1024
    ensures a <= Index(I386, va, 1) < b
    ensures At(I386, va, 1) == [0] && At(I386, va, 2) == [0, Index(I386, va, 1)]
  {
    SmallPowers();
    IndexField(I386, va, 1);
    CellIndex(I386, va);
    assert a <= va / CHUNK < b;
    SmallMod(va / CHUNK, 1024);
  }

  /** An area made of chunks takes the directory and one table per chunk. */
  lemma ChunkPaths(a: nat, b: nat)
    requires I386.Valid() && a < b <= 1024
    ensures PathsIn(I386, a * CHUNK, b * CHUNK) == {[0]} + Boxes(a, b)
  {
    var all, root: Path := {[0]} + Boxes(a, b), [0];
    forall n | n in PathsIn(I386, a * CHUNK, b * CHUNK) ensures n in all {
      var va: nat, k: nat :| a * CHUNK <= va < b * CHUNK && va % PGSIZE == 0 && 1 <= k <= 2 && n == At(I386, va, k);
      ChunkOf(va, a, b);
    }
    forall j: nat, k: nat | a <= j < b && 1 <= k <= 2
      ensures At(I386, j * CHUNK, k) in PathsIn(I386, a * CHUNK, b * CHUNK)
      ensures At(I386, j * CHUNK, 1) == root && At(I386, j * CHUNK, 2) == [0, j]
    {
      DivUnique(j * CHUNK, PGSIZE, j * 1024, 0);
      ChunkOf(j * CHUNK, j, j + 1);
      assert a * CHUNK <= j * CHUNK < b * CHUNK;
    }
    assert root == At(I386, a * CHUNK, 1);
    forall n | n in all ensures n in PathsIn(I386, a * CHUNK, b * CHUNK) {
      if n != root {
        var j: nat :| a <= j < b && n == [0, j];
        assert n == At(I386, j * CHUNK, 2);
      }
    }
  }

  /** On x86 `vme_init` needs 269 pages: the directory, 256 tables for the first GiB and 12 for the
      memory-mapped I/O. */
  lemma TablesOfI386()
    ensures I386.Valid() && |KernelPaths(I386, 3)| == 269
  {
    ConfigsValid();
    ChunkPaths(0, 256);
    ChunkPaths(1012, 1024);
    KernelPathsOfI386();
    BoxesApart([0], 0, 256, 1012, 1024);
  }

  lemma BoxesApart(root: Path, a: nat, b: nat, c: nat, d: nat)
    requires |root| == 1 && a <= b < c <= d
    ensures |({root} + Boxes(a, b)) + ({root} + Boxes(c, d))| == 1 + (b - a) + (d - c)
  {
    BoxCount(a, b);
    BoxCount(c, d);
    assert Boxes(a, b) * Boxes(c, d) == {};
    assert {root} * (Boxes(a, b) + Boxes(c, d)) == {};
    assert ({root} + Boxes(a, b)) + ({root} + Boxes(c, d)) == {root} + (Boxes(a, b) + Boxes(c, d));
  }

  lemma KernelPathsOfI386()
    requires I386.Valid()
    ensures KernelPaths(I386, 3) == PathsIn(I386, 0, 256 * CHUNK) + PathsIn(I386, 1012 * CHUNK, 1024 * CHUNK)
  {
    Pow2Words();
    assert !I386.areas[0].kernel && I386.areas[1].kernel && I386.areas[2].kernel;
    assert KernelPaths(I386, 1) == {};
    assert KernelPaths(I386, 2) == PathsIn(I386, 0, 256 * CHUNK);
    assert KernelPaths(I386, 3) == KernelPaths(I386, 2) + AreaPaths(I386, 2);
  }
}
