/** A tiling cuts an address range into consecutive blocks, keyed by their base
    address.  Disjointness and full coverage are part of the definition, so
    whatever keeps a tiling neither overlaps blocks nor loses bytes. */
module Tilings {

  datatype Kind = Free | Page | Huge | Lost | Header | Live

  datatype Tile = Tile(len: int, kind: Kind)

  type Tiling = map<int, Tile>

  predicate Is(t: Tiling, a: int, k: Kind) {
    a in t && t[a].kind == k
  }

  function End(t: Tiling, a: int): int
    requires a in t
  {
    a + t[a].len
  }

  ghost predicate IsTiling(t: Tiling, lo: int, hi: int) {
    && lo in t
    && (forall a {:trigger t[a]} :: a in t ==> lo <= a && 0 < t[a].len && a + t[a].len <= hi)
    && (forall a {:trigger End(t, a)} :: a in t ==> End(t, a) == hi || End(t, a) in t)
    && (forall a, b {:trigger t[a], b in t} :: a in t && b in t && a < b ==> a + t[a].len <= b)
  }

  function Retag(t: Tiling, a: int, k: Kind): Tiling
    requires a in t
  {
    t[a := Tile(t[a].len, k)]
  }

  /** Block a becomes a block of `len` bytes followed by the rest. */
  function Cut(t: Tiling, a: int, len: int, front: Kind, back: Kind): Tiling
    requires a in t
  {
    t[a := Tile(len, front)][a + len := Tile(t[a].len - len, back)]
  }

  /** Block a absorbs the block that starts where it ends. */
  function Join(t: Tiling, a: int, k: Kind): Tiling
    requires a in t && End(t, a) in t
  {
    (t - {End(t, a)})[a := Tile(t[a].len + t[End(t, a)].len, k)]
  }

  /** The blocks in s take kind k. */
  function RetagAll(t: Tiling, s: seq<int>, k: Kind): Tiling {
    map a | a in t :: if a in s then Tile(t[a].len, k) else t[a]
  }

  lemma RetagAllTiling(t: Tiling, lo: int, hi: int, s: seq<int>, k: Kind)
    requires IsTiling(t, lo, hi)
    ensures IsTiling(RetagAll(t, s, k), lo, hi)
  {
    var r := RetagAll(t, s, k);
    forall b | b in r ensures End(r, b) == hi || End(r, b) in r { assert End(t, b) == End(r, b); }
  }

  lemma RetagTiling(t: Tiling, lo: int, hi: int, a: int, k: Kind)
    requires IsTiling(t, lo, hi) && a in t
    ensures IsTiling(Retag(t, a, k), lo, hi)
  {
    var r := Retag(t, a, k);
    forall b | b in r ensures End(r, b) == hi || End(r, b) in r {
      assert End(t, b) == End(r, b);
    }
  }

  lemma NotInside(t: Tiling, lo: int, hi: int, a: int, x: int)
    requires IsTiling(t, lo, hi) && a in t && a < x < End(t, a)
    ensures x !in t
  {
  }

  lemma CutTiling(t: Tiling, lo: int, hi: int, a: int, len: int, front: Kind, back: Kind)
    requires IsTiling(t, lo, hi) && a in t && 0 < len < t[a].len
    ensures a + len !in t
    ensures IsTiling(Cut(t, a, len, front, back), lo, hi)
  {
    NotInside(t, lo, hi, a, a + len);
    CutDisjoint(t, lo, hi, a, len, front, back);
    var r := Cut(t, a, len, front, back);
    forall b | b in r ensures End(r, b) == hi || End(r, b) in r {
      if b == a + len { assert End(t, a) == End(r, b); }
      else if b != a { assert End(t, b) == End(r, b); }
    }
  }

  lemma CutDisjoint(t: Tiling, lo: int, hi: int, a: int, len: int, front: Kind, back: Kind)
    requires IsTiling(t, lo, hi) && a in t && 0 < len < t[a].len
    ensures var r := Cut(t, a, len, front, back);
            forall b, c {:trigger r[b], c in r} :: b in r && c in r && b < c ==> b + r[b].len <= c
  {
    var r := Cut(t, a, len, front, back);
    forall b, c | b in r && c in r && b < c ensures b + r[b].len <= c {
      var ob, oc := if b == a + len then a else b, if c == a + len then a else c;
      assert ob in t && oc in t && (ob < oc ==> ob + t[ob].len <= oc);
    }
  }

  lemma JoinTiling(t: Tiling, lo: int, hi: int, a: int, k: Kind)
    requires IsTiling(t, lo, hi) && a in t && End(t, a) in t
    ensures IsTiling(Join(t, a, k), lo, hi)
  {
    var e, r := End(t, a), Join(t, a, k);
    forall b | b in r ensures End(r, b) == hi || End(r, b) in r {
      if b == a {
        assert End(r, b) == End(t, e);
      } else {
        assert End(t, b) == End(r, b);
        assert End(t, b) != e by { assert t[a].len > 0 && t[b].len > 0; }
      }
    }
  }

  // ---------------------------------------------------------- accounting

  /** Bytes in blocks of kind k at or after a. */
  function Bytes(t: Tiling, a: int, hi: int, k: Kind): int
    decreases hi - a
  {
    if a in t && t[a].len > 0 && a < hi
    then (if t[a].kind == k then t[a].len else 0) + Bytes(t, a + t[a].len, hi, k)
    else 0
  }

  /** The kinds of block account for the whole range. */
  lemma {:induction false} BytesTotal(t: Tiling, lo: int, hi: int, a: int)
    requires IsTiling(t, lo, hi) && (a in t || a == hi)
    ensures Bytes(t, a, hi, Free) + Bytes(t, a, hi, Page) + Bytes(t, a, hi, Huge)
         + Bytes(t, a, hi, Lost) + Bytes(t, a, hi, Header) + Bytes(t, a, hi, Live) == hi - a
    decreases hi - a
  {
    if a in t && a < hi {
      assert End(t, a) == hi || End(t, a) in t;
      BytesTotal(t, lo, hi, End(t, a));
    }
  }

  lemma {:induction false} BytesAgree(t: Tiling, r: Tiling, a: int, hi: int, k: Kind)
    requires forall b :: b >= a ==> (b in t <==> b in r) && (b in t ==> t[b] == r[b])
    ensures Bytes(t, a, hi, k) == Bytes(r, a, hi, k)
    decreases hi - a
  {
    if a in t && t[a].len > 0 && a < hi { BytesAgree(t, r, a + t[a].len, hi, k); }
  }

  /** Tilings that agree below x differ in their bytes by what happens from x on. */
  lemma {:induction false} BytesBelow(t: Tiling, r: Tiling, lo: int, hi: int, a: int, x: int, k: Kind)
    requires IsTiling(t, lo, hi) && a in t && x in t && a <= x
    requires forall b :: b < x ==> (b in t <==> b in r) && (b in t ==> t[b] == r[b])
    ensures Bytes(r, a, hi, k) - Bytes(t, a, hi, k) == Bytes(r, x, hi, k) - Bytes(t, x, hi, k)
    decreases hi - a
  {
    if a < x {
      var e := End(t, a);
      assert t[a].len > 0 && e <= x && t[x].len > 0;
      BytesBelow(t, r, lo, hi, e, x, k);
    }
  }

  function Weight(k: Kind, l: Kind, len: int): int { if k == l then len else 0 }

  lemma Unroll(t: Tiling, a: int, hi: int, k: Kind)
    requires a in t && t[a].len > 0 && a < hi
    ensures Bytes(t, a, hi, k) == Weight(t[a].kind, k, t[a].len) + Bytes(t, a + t[a].len, hi, k)
  {
  }

  /** The local change at block a and agreement from f on, carried to the start of the range. */
  lemma Localise(t: Tiling, r: Tiling, lo: int, hi: int, a: int, f: int, k: Kind)
    requires IsTiling(t, lo, hi) && a in t
    requires forall b :: b < a || b >= f ==> (b in t <==> b in r) && (b in t ==> t[b] == r[b])
    requires a < f
    ensures Bytes(r, lo, hi, k) - Bytes(t, lo, hi, k) == Bytes(r, a, hi, k) - Bytes(t, a, hi, k)
    ensures Bytes(t, f, hi, k) == Bytes(r, f, hi, k)
  {
    BytesBelow(t, r, lo, hi, lo, a, k);
    BytesAgree(t, r, f, hi, k);
  }

  lemma RetagBytes(t: Tiling, lo: int, hi: int, a: int, n: Kind, k: Kind)
    requires IsTiling(t, lo, hi) && a in t
    ensures Bytes(Retag(t, a, n), lo, hi, k) ==
            Bytes(t, lo, hi, k) - Weight(t[a].kind, k, t[a].len) + Weight(n, k, t[a].len)
  {
    var r := Retag(t, a, n);
    BytesBelow(t, r, lo, hi, lo, a, k);
    BytesAgree(t, r, End(t, a), hi, k);
    Unroll(t, a, hi, k);
    Unroll(r, a, hi, k);
  }

  lemma CutBytes(t: Tiling, lo: int, hi: int, a: int, len: int, front: Kind, back: Kind, k: Kind)
    requires IsTiling(t, lo, hi) && a in t && 0 < len < t[a].len
    ensures Bytes(Cut(t, a, len, front, back), lo, hi, k) ==
            Bytes(t, lo, hi, k) - Weight(t[a].kind, k, t[a].len) + Weight(front, k, len) +
              Weight(back, k, t[a].len - len)
  {
    var r, e := Cut(t, a, len, front, back), End(t, a);
    CutTiling(t, lo, hi, a, len, front, back);
    Localise(t, r, lo, hi, a, e, k);
    TwoBlocks(r, a, hi, k, a + len, e);
    Unroll(t, a, hi, k);
  }

  lemma TwoBlocks(t: Tiling, a: int, hi: int, k: Kind, b: int, c: int)
    requires a in t && b in t && a < b < c <= hi && End(t, a) == b && End(t, b) == c
    ensures Bytes(t, a, hi, k) == Weight(t[a].kind, k, t[a].len) + Weight(t[b].kind, k, t[b].len) + Bytes(t, c, hi, k)
  {
    Unroll(t, a, hi, k);
    Unroll(t, b, hi, k);
  }

  lemma JoinBytes(t: Tiling, lo: int, hi: int, a: int, n: Kind, k: Kind)
    requires IsTiling(t, lo, hi) && a in t && End(t, a) in t
    ensures var e := End(t, a);
            Bytes(Join(t, a, n), lo, hi, k) ==
            Bytes(t, lo, hi, k) - Weight(t[a].kind, k, t[a].len) - Weight(t[e].kind, k, t[e].len)
              + Weight(n, k, t[a].len + t[e].len)
  {
    var e, r := End(t, a), Join(t, a, n);
    var f := End(t, e);
    assert t[a].len > 0 && t[e].len > 0;
    Localise(t, r, lo, hi, a, f, k);
    TwoBlocks(t, a, hi, k, e, f);
    Unroll(r, a, hi, k);
  }

  /** Re-tagging free blocks takes their bytes out of the free bytes. */
  lemma {:induction false} RetagAllFreeBytes(t: Tiling, lo: int, hi: int, a: int, s: seq<int>, k: Kind)
    requires IsTiling(t, lo, hi) && (a in t || a == hi) && k != Free
    ensures Bytes(RetagAll(t, s, k), a, hi, Free) <= Bytes(t, a, hi, Free)
    ensures (exists x :: x in s && x >= a && Is(t, x, Free)) ==>
        Bytes(RetagAll(t, s, k), a, hi, Free) < Bytes(t, a, hi, Free)
    decreases hi - a
  {
    if a in t && a < hi {
      var e := End(t, a);
      RetagAllFreeBytes(t, lo, hi, e, s, k);
      Unroll(t, a, hi, Free);
      Unroll(RetagAll(t, s, k), a, hi, Free);
      if x :| x in s && x >= a && Is(t, x, Free) { assert x == a || x >= e; }
    }
  }
}
