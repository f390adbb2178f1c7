/** Physical memory as kernel/src/pmm.c uses it.  freenode_t, pagefreenode_t,
    pageheader_t and header_t share one 16-byte layout (pointer, int, int), so
    memory is a map from addresses to such records, whatever they are read as;
    an address with no entry reads as zero bytes. */
module Memory {

  /** `tag` is `magic` or, in a page header, `pagefreehead_index`. */
  datatype Node = Node(next: int, size: int, tag: int)

  type Mem = map<int, Node>

  const ZERO := Node(0, 0, 0)

  /** `size` and `tag` are ints of 32 bits. */
  const INT_LIMIT := 0x8000_0000

  /** What is left of x when it is stored in an int. */
  function AsInt(x: int): int { (x + INT_LIMIT) % (2 * INT_LIMIT) - INT_LIMIT }

  lemma AsIntFits(x: int)
    requires -INT_LIMIT <= x < INT_LIMIT
    ensures AsInt(x) == x
  {
  }

  /** An int as the size_t it is compared with. */
  function AsSizeT(x: int): int { if x < 0 then x + 0x1_0000_0000_0000_0000 else x }

  function Read(m: Mem, a: int): Node {
    if a in m then m[a] else ZERO
  }

  function Write(m: Mem, a: int, n: Node): (r: Mem)
    ensures forall x {:trigger Read(r, x)} :: Read(r, x) == if x == a then n else Read(m, x)
  {
    m[a := n]
  }

  function SetNext(m: Mem, a: int, v: int): (r: Mem)
    ensures forall x {:trigger Read(r, x)} :: Read(r, x) == if x == a then Read(m, x).(next := v) else Read(m, x)
  {
    Write(m, a, Read(m, a).(next := v))
  }

  function SetSize(m: Mem, a: int, v: int): (r: Mem)
    ensures forall x {:trigger Read(r, x)} :: Read(r, x) == if x == a then Read(m, x).(size := v) else Read(m, x)
  {
    Write(m, a, Read(m, a).(size := v))
  }

  function SetTag(m: Mem, a: int, v: int): (r: Mem)
    ensures forall x {:trigger Read(r, x)} :: Read(r, x) == if x == a then Read(m, x).(tag := v) else Read(m, x)
  {
    Write(m, a, Read(m, a).(tag := v))
  }

  /** `memset((void *)lo, 0, len)` on whole records. */
  function Clear(m: Mem, lo: int, len: int): (r: Mem)
    ensures forall x {:trigger Read(r, x)} :: Read(r, x) == if lo <= x < lo + len then ZERO else Read(m, x)
  {
    map a | a in m && !(lo <= a < lo + len) :: m[a]
  }

  /** Every record of the block is zero. */
  ghost predicate Zeroed(m: Mem, lo: int, len: int) {
    forall x {:trigger Read(m, x)} :: lo <= x < lo + len ==> Read(m, x) == ZERO
  }
}

/** Singly linked lists laid over memory: `Chain(m, s)` says that following `next`
    from the first address of s visits s and ends in NULL. */
module Chains {
  import opened Memory

  /** The i-th address, NULL past the end. */
  function At(s: seq<int>, i: int): int {
    if 0 <= i < |s| then s[i] else 0
  }

  function Elem(s: seq<int>, i: int): int
    requires 0 <= i < |s|
  {
    s[i]
  }

  /** No address twice.  Stated through Elem, so that provers meet the pairs only where
      DistinctIndices brings them in. */
  ghost predicate Distinct(s: seq<int>) {
    forall i, j {:trigger Elem(s, i), Elem(s, j)} :: 0 <= i < j < |s| ==> Elem(s, i) != Elem(s, j)
  }

  lemma DistinctIndices(s: seq<int>)
    requires Distinct(s)
    ensures forall i, j {:trigger s[i], s[j]} :: 0 <= i < j < |s| ==> s[i] != s[j]
  {
    forall i, j | 0 <= i < j < |s| ensures s[i] != s[j] { assert Elem(s, i) != Elem(s, j); }
  }

  lemma ListMembers(s: seq<int>)
    ensures forall i {:trigger s[i]} :: 0 <= i < |s| ==> s[i] in s
  {
  }

  ghost predicate Chain(m: Mem, s: seq<int>) {
    && Distinct(s)
    && 0 !in s
    && forall i {:trigger Read(m, s[i])} :: 0 <= i < |s| ==> Read(m, s[i]).next == At(s, i + 1)
  }

  ghost function IndexOf(s: seq<int>, x: int): (i: nat)
    requires x in s
    ensures i < |s| && s[i] == x
  {
    var i :| 0 <= i < |s| && s[i] == x;
    i
  }

  lemma IndexOfAt(s: seq<int>, i: nat)
    requires Distinct(s) && i < |s|
    ensures s[i] in s && IndexOf(s, s[i]) == i
  {
    DistinctIndices(s);
  }

  /** s with its i-th element taken out. */
  function Drop(s: seq<int>, i: nat): seq<int>
    requires i < |s|
  {
    s[..i] + s[i + 1..]
  }

  ghost function Without(s: seq<int>, x: int): seq<int>
    requires x in s
  {
    Drop(s, IndexOf(s, x))
  }

  lemma DropMembers(s: seq<int>, i: nat)
    requires i < |s| && Distinct(s)
    ensures Distinct(Drop(s, i))
    ensures forall x {:trigger x in Drop(s, i)} :: x in Drop(s, i) <==> x in s && x != s[i]
  {
    DistinctIndices(s);
    var d := Drop(s, i);
    forall x ensures x in d <==> x in s && x != s[i] {
      if x in d {
        var k :| 0 <= k < |d| && d[k] == x;
        assert x == s[if k < i then k else k + 1];
      }
      if x in s && x != s[i] {
        var k :| 0 <= k < |s| && s[k] == x;
        assert d[if k < i then k else k - 1] == x;
      }
    }
  }

  /** r is the greatest element below x, NULL if there is none. */
  ghost predicate IsBelow(s: seq<int>, x: int, r: int) {
    && (r != 0 ==> r in s && r < x)
    && (forall y {:trigger y in s} :: y in s && y < x ==> r != 0 && y <= r)
  }

  /** r is the least element above x, NULL if there is none. */
  ghost predicate IsAbove(s: seq<int>, x: int, r: int) {
    && (r != 0 ==> r in s && r > x)
    && (forall y {:trigger y in s} :: y in s && y > x ==> r != 0 && r <= y)
  }

  lemma {:induction false} NeighboursExist(s: seq<int>, x: int)
    requires 0 !in s
    ensures exists r :: IsBelow(s, x, r)
    ensures exists r :: IsAbove(s, x, r)
    decreases |s|
  {
    if s == [] {
      assert IsBelow(s, x, 0) && IsAbove(s, x, 0);
    } else {
      var front, y := s[..|s| - 1], s[|s| - 1];
      assert s == front + [y] && y in s;
      assert forall z :: z in front ==> z in s;
      NeighboursExist(front, x);
      var b :| IsBelow(front, x, b);
      var a :| IsAbove(front, x, a);
      assert IsBelow(s, x, if y < x && (b == 0 || y > b) then y else b);
      assert IsAbove(s, x, if y > x && (a == 0 || y < a) then y else a);
    }
  }

  ghost function Below(s: seq<int>, x: int): (r: int)
    requires 0 !in s
    ensures IsBelow(s, x, r)
  {
    NeighboursExist(s, x);
    var r :| IsBelow(s, x, r);
    r
  }

  ghost function Above(s: seq<int>, x: int): (r: int)
    requires 0 !in s
    ensures IsAbove(s, x, r)
  {
    NeighboursExist(s, x);
    var r :| IsAbove(s, x, r);
    r
  }

  // ---------------------------------------------------------- surgery on chains

  lemma ChainFrame(m: Mem, m': Mem, s: seq<int>)
    requires Chain(m, s)
    requires forall a :: a in s ==> Read(m', a).next == Read(m, a).next
    ensures Chain(m', s)
  {
    forall i | 0 <= i < |s| ensures Read(m', s[i]).next == At(s, i + 1) {
      assert s[i] in s;
      assert Read(m, s[i]).next == At(s, i + 1);
    }
  }

  lemma ChainPrepend(m: Mem, s: seq<int>, x: int)
    requires Chain(m, s) && x != 0 && x !in s && Read(m, x).next == At(s, 0)
    ensures Chain(m, [x] + s)
  {
    DistinctIndices(s);
    var t := [x] + s;
    forall i | 0 <= i < |t| ensures Read(m, t[i]).next == At(t, i + 1) {
      if i > 0 { assert Read(m, s[i - 1]).next == At(s, i); }
    }
  }

  lemma ChainSuffix(m: Mem, s: seq<int>, k: nat)
    requires Chain(m, s) && k <= |s|
    ensures Chain(m, s[k..])
  {
    DistinctIndices(s);
    var t := s[k..];
    forall i | 0 <= i < |t| ensures Read(m, t[i]).next == At(t, i + 1) {
      assert Read(m, s[k + i]).next == At(s, k + i + 1);
    }
  }

  /** Unlinking the i-th node by redirecting its predecessor. */
  lemma ChainDrop(m: Mem, s: seq<int>, i: nat)
    requires Chain(m, s) && 0 < i < |s|
    ensures Chain(SetNext(m, s[i - 1], Read(m, s[i]).next), Drop(s, i))
  {
    DistinctIndices(s);
    var m', t := SetNext(m, s[i - 1], Read(m, s[i]).next), Drop(s, i);
    DropMembers(s, i);
    forall k | 0 <= k < |t| ensures Read(m', t[k]).next == At(t, k + 1) {
      var j := if k < i then k else k + 1;
      assert t[k] == s[j];
      assert Read(m, s[j]).next == At(s, j + 1);
      assert Read(m, s[i]).next == At(s, i + 1);
    }
  }

  /** Replacing the i-th node by y, which takes over its successor. */
  lemma ChainReplace(m: Mem, s: seq<int>, i: nat, y: int)
    requires Chain(m, s) && i < |s| && y != 0 && y !in s
    requires Read(m, y).next == At(s, i + 1)
    ensures Chain(if i == 0 then m else SetNext(m, s[i - 1], y), s[i := y])
  {
    DistinctIndices(s);
    var m', t := if i == 0 then m else SetNext(m, s[i - 1], y), s[i := y];
    forall k | 0 <= k < |t| ensures Read(m', t[k]).next == At(t, k + 1) {
      assert Read(m, s[k]).next == At(s, k + 1);
    }
  }

  /** Memory with x unlinked from the list: its predecessor, if any, skips it. */
  ghost function Unlink(m: Mem, s: seq<int>, x: int): Mem
    requires x in s
  {
    var i := IndexOf(s, x);
    if i == 0 then m else SetNext(m, s[i - 1], Read(m, x).next)
  }

  lemma UnlinkChain(m: Mem, s: seq<int>, x: int)
    requires Chain(m, s) && x in s
    ensures Chain(Unlink(m, s, x), Without(s, x))
    ensures At(Without(s, x), 0) == if s[0] == x then Read(m, x).next else s[0]
  {
    var i := IndexOf(s, x);
    assert Read(m, s[i]).next == At(s, i + 1);
    if i == 0 {
      ChainSuffix(m, s, 1);
      assert Without(s, x) == s[1..];
    } else {
      ChainDrop(m, s, i);
      DistinctIndices(s);
    }
  }

  lemma WithoutCons(s: seq<int>, a: int, x: int)
    requires x in s && a !in s && Distinct(s)
    ensures Distinct([a] + s) && x in [a] + s
    ensures IndexOf([a] + s, x) == 1 + IndexOf(s, x)
    ensures Without([a] + s, x) == [a] + Without(s, x)
  {
    DistinctIndices(s);
    var t, i := [a] + s, IndexOf(s, x);
    assert t[i + 1] == x;
    assert Distinct(t);
    IndexOfAt(t, i + 1);
  }

  // ---------------------------------------------------------- the two search loops of kfree

  /** The neighbours of address x in the list starting at `start`: lines 341-359 and 424-447. */
  method Neighbours(m: Mem, start: int, x: int, ghost s: seq<int>) returns (before: int, after: int)
    requires Chain(m, s) && start == At(s, 0)
    ensures before == Below(s, x) && after == Above(s, x)
  {
    before, after := 0, 0;
    var h := start;
    ghost var i := 0;
    assert |s| > 0 ==> s[0] in s;
    while h != 0
      invariant 0 <= i <= |s| && h == At(s, i) && (h == 0 <==> i == |s|)
      invariant IsBelow(s[..i], x, before) && IsAbove(s[..i], x, after)
      decreases |s| - i
    {
      if h > x {
        if after == 0 {
          after := h;
        } else if h < after {
          after := h;
        }
      }
      if h < x {
        if before == 0 {
          before := h;
        } else if h > before {
          before := h;
        }
      }
      assert s[..i + 1] == s[..i] + [h];
      assert h == s[i] && Read(m, s[i]).next == At(s, i + 1);
      assert i + 1 < |s| ==> s[i + 1] in s;
      h, i := Read(m, h).next, i + 1;
    }
    assert s[..i] == s;
  }

  /** The node whose `next` is `target`: lines 366-372, 391-397, 454-460 and 472-478. */
  method Predecessor(m: Mem, start: int, target: int, ghost s: seq<int>) returns (h: int)
    requires Chain(m, s) && start == At(s, 0) && target in s
    ensures h == At(s, IndexOf(s, target) - 1)
  {
    DistinctIndices(s);
    h := start;
    ghost var i, k := 0, IndexOf(s, target);
    assert s[0] in s;
    while h != 0
      invariant 0 <= i <= |s| && h == At(s, i) && (h == 0 <==> i == |s|)
      invariant k > 0 ==> i < k
      decreases |s| - i
    {
      assert h == s[i] && Read(m, s[i]).next == At(s, i + 1);
      if Read(m, h).next == target {
        assert i + 1 == k;
        break;
      }
      assert i + 1 < |s| ==> s[i + 1] in s;
      h, i := Read(m, h).next, i + 1;
    }
  }
}
