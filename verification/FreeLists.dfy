/** A free list over a tiling: the list names exactly the free blocks, each once.
    Both levels of the allocator keep one, and the lemmas follow the few surgeries
    they perform on a tiling and its list together. */
module FreeLists {
  import opened Chains
  import opened Tilings

  ghost predicate Listed(t: Tiling, list: seq<int>) {
    && Distinct(list)
    && (forall a {:trigger Is(t, a, Free)} :: Is(t, a, Free) ==> a in list)
    && (forall a {:trigger a in list} :: a in list ==> Is(t, a, Free))
  }

  lemma ListedAt(t: Tiling, list: seq<int>, i: nat)
    requires Listed(t, list) && i < |list|
    ensures Is(t, list[i], Free)
  {
    assert list[i] in list;
  }

  lemma ReplaceMembers(s: seq<int>, i: nat, y: int)
    requires i < |s| && Distinct(s) && y !in s
    ensures Distinct(s[i := y])
    ensures forall x {:trigger x in s[i := y]} :: x in s[i := y] <==> x == y || (x in s && x != s[i])
  {
    DistinctIndices(s);
    var r := s[i := y];
    forall x ensures x in r <==> x == y || (x in s && x != s[i]) {
      if x in s && x != s[i] {
        var k :| 0 <= k < |s| && s[k] == x;
        assert r[k] == x;
      }
      assert r[i] == y;
    }
  }

  /** A free block leaves the list and takes another kind. */
  lemma ListedTake(t: Tiling, list: seq<int>, i: nat, k: Kind)
    requires Listed(t, list) && i < |list| && list[i] in t && k != Free
    ensures Listed(Retag(t, list[i], k), Drop(list, i))
  {
    var a := list[i];
    DropMembers(list, i);
    forall b ensures Is(Retag(t, a, k), b, Free) <==> Is(t, b, Free) && b != a {}
  }

  /** The front of a free block is taken; the rest stands in its place in the list. */
  lemma ListedTakeFront(t: Tiling, list: seq<int>, i: nat, len: int, k: Kind)
    requires Listed(t, list) && i < |list| && list[i] in t && k != Free && len != 0
    requires list[i] + len !in t
    ensures Listed(Cut(t, list[i], len, k, Free), list[i := list[i] + len])
  {
    var a := list[i];
    assert !Is(t, a + len, Free);
    ReplaceMembers(list, i, a + len);
    forall b ensures Is(Cut(t, a, len, k, Free), b, Free) <==> b == a + len || (Is(t, b, Free) && b != a) {}
  }

  /** The tail of a free block is taken. */
  lemma ListedTakeBack(t: Tiling, list: seq<int>, a: int, len: int, k: Kind)
    requires Listed(t, list) && Is(t, a, Free) && k != Free && len != 0
    requires a + len !in t
    ensures Listed(Cut(t, a, len, Free, k), list)
  {
    forall b ensures Is(Cut(t, a, len, Free, k), b, Free) <==> Is(t, b, Free) {}
  }

  /** A free block absorbs a block that was not free. */
  lemma ListedAbsorb(t: Tiling, list: seq<int>, a: int)
    requires Listed(t, list) && Is(t, a, Free) && End(t, a) in t && t[End(t, a)].kind != Free && End(t, a) != a
    ensures Listed(Join(t, a, Free), list)
  {
    forall b ensures Is(Join(t, a, Free), b, Free) <==> Is(t, b, Free) {}
  }

  /** Two neighbouring free blocks become one; the second leaves the list. */
  lemma ListedFuse(t: Tiling, list: seq<int>, a: int)
    requires Listed(t, list) && Is(t, a, Free) && Is(t, End(t, a), Free) && End(t, a) != a && End(t, a) in list
    ensures Listed(Join(t, a, Free), Without(list, End(t, a)))
  {
    DropMembers(list, IndexOf(list, End(t, a)));
    forall b ensures Is(Join(t, a, Free), b, Free) <==> Is(t, b, Free) && b != End(t, a) {}
  }

  /** A block that was not free absorbs the free block behind it and enters at the head. */
  lemma ListedAbsorbAfter(t: Tiling, list: seq<int>, a: int)
    requires Listed(t, list) && a in t && t[a].kind != Free && Is(t, End(t, a), Free) && End(t, a) != a &&
        End(t, a) in list
    ensures Listed(Join(t, a, Free), [a] + Without(list, End(t, a)))
  {
    var e := End(t, a);
    var w := Without(list, e);
    DropMembers(list, IndexOf(list, e));
    assert a !in list by { assert !Is(t, a, Free); }
    ConsMembers(w, a);
    forall b ensures Is(Join(t, a, Free), b, Free) <==> b == a || (Is(t, b, Free) && b != e) {}
  }

  /** The first k nodes fall off the list and stop being free. */
  lemma ListedForget(t: Tiling, list: seq<int>, k: nat, lost: Kind)
    requires Listed(t, list) && k <= |list| && lost != Free
    ensures Listed(RetagAll(t, list[..k], lost), list[k..])
  {
    DistinctIndices(list);
    var r, rest := RetagAll(t, list[..k], lost), list[k..];
    forall q | 0 <= q < k ensures list[q] in list[..k] { assert list[..k][q] == list[q]; }
    forall b ensures Is(r, b, Free) <==> b in rest {
      if b in rest {
        var i :| 0 <= i < |rest| && rest[i] == b;
        assert b == list[k + i] && b in list;
        assert b !in list[..k];
      }
      if Is(r, b, Free) {
        assert Is(t, b, Free);
        var i :| 0 <= i < |list| && list[i] == b;
        assert b !in list[..k];
        assert rest[i - k] == b;
      }
    }
  }

  lemma CoalescedForget(t: Tiling, s: seq<int>, lost: Kind)
    requires Coalesced(t) && lost != Free
    ensures Coalesced(RetagAll(t, s, lost))
  {
    var r := RetagAll(t, s, lost);
    forall c | Is(r, c, Free) ensures !Is(r, End(r, c), Free) { assert Is(t, c, Free) && !Is(t, End(t, c), Free); }
  }

  lemma ConsMembers(s: seq<int>, a: int)
    requires Distinct(s) && a !in s
    ensures Distinct([a] + s)
    ensures forall x {:trigger x in [a] + s} :: x in [a] + s <==> x == a || x in s
  {
    DistinctIndices(s);
  }

  /** A block that was not free becomes free and enters at the head. */
  lemma ListedFree(t: Tiling, list: seq<int>, a: int)
    requires Listed(t, list) && a in t && t[a].kind != Free
    ensures Listed(Retag(t, a, Free), [a] + list)
  {
    assert a !in list by { assert !Is(t, a, Free); }
    ConsMembers(list, a);
    forall b ensures Is(Retag(t, a, Free), b, Free) <==> b == a || Is(t, b, Free) {}
  }

  // ---------------------------------------------------------- coalescing

  /** No two free blocks touch. */
  ghost predicate Coalesced(t: Tiling) {
    forall a {:trigger End(t, a)} :: Is(t, a, Free) ==> !Is(t, End(t, a), Free)
  }

  ghost predicate NoFreeBefore(t: Tiling, b: int) {
    forall a {:trigger Is(t, a, Free)} :: Is(t, a, Free) ==> End(t, a) != b
  }

  lemma CoalescedTake(t: Tiling, a: int, k: Kind)
    requires Coalesced(t) && a in t && k != Free
    ensures Coalesced(Retag(t, a, k))
  {
    var r := Retag(t, a, k);
    forall c | Is(r, c, Free) ensures !Is(r, End(r, c), Free) { assert Is(t, c, Free) && !Is(t, End(t, c), Free); }
  }

  lemma CoalescedTakeFront(t: Tiling, lo: int, hi: int, a: int, len: int, k: Kind)
    requires Coalesced(t) && IsTiling(t, lo, hi) && Is(t, a, Free) && k != Free && 0 < len < t[a].len
    ensures Coalesced(Cut(t, a, len, k, Free))
  {
    var r := Cut(t, a, len, k, Free);
    NotInside(t, lo, hi, a, a + len);
    forall c | Is(r, c, Free) ensures !Is(r, End(r, c), Free) {
      if c != a + len { assert Is(t, c, Free) && End(t, c) == End(r, c); EndsOutside(t, lo, hi, c, a, a + len); }
    }
  }

  lemma CoalescedTakeBack(t: Tiling, lo: int, hi: int, a: int, len: int, k: Kind)
    requires Coalesced(t) && IsTiling(t, lo, hi) && Is(t, a, Free) && k != Free && 0 < len < t[a].len
    ensures Coalesced(Cut(t, a, len, Free, k))
  {
    var r := Cut(t, a, len, Free, k);
    NotInside(t, lo, hi, a, a + len);
    forall c | Is(r, c, Free) ensures !Is(r, End(r, c), Free) {
      assert Is(t, c, Free);
      if c != a { assert End(t, c) == End(r, c); }
    }
  }

  /** No block ends strictly inside another. */
  lemma EndsOutside(t: Tiling, lo: int, hi: int, c: int, a: int, x: int)
    requires IsTiling(t, lo, hi) && a in t && c in t && a < x < End(t, a)
    ensures End(t, c) != x
  {
    assert t[c].len > 0;
  }

  lemma CoalescedFree(t: Tiling, b: int)
    requires Coalesced(t) && b in t && t[b].kind != Free && NoFreeBefore(t, b) && !Is(t, End(t, b), Free) &&
        t[b].len != 0
    ensures Coalesced(Retag(t, b, Free))
  {
    var r := Retag(t, b, Free);
    forall c | Is(r, c, Free) ensures !Is(r, End(r, c), Free) {
      if c != b { assert Is(t, c, Free) && !Is(t, End(t, c), Free); }
    }
  }

  lemma CoalescedAbsorb(t: Tiling, a: int)
    requires Coalesced(t) && Is(t, a, Free) && End(t, a) in t && t[End(t, a)].kind != Free
    requires !Is(t, End(t, End(t, a)), Free) && t[a].len > 0 && t[End(t, a)].len > 0
    ensures Coalesced(Join(t, a, Free))
  {
    var r := Join(t, a, Free);
    forall c | Is(r, c, Free) ensures !Is(r, End(r, c), Free) {
      assert Is(t, c, Free) && !Is(t, End(t, c), Free);
    }
  }

  lemma CoalescedAbsorbAfter(t: Tiling, b: int)
    requires Coalesced(t) && b in t && t[b].kind != Free && Is(t, End(t, b), Free) && NoFreeBefore(t, b)
    requires t[b].len > 0 && t[End(t, b)].len > 0
    ensures Coalesced(Join(t, b, Free))
  {
    var r := Join(t, b, Free);
    forall c | Is(r, c, Free) ensures !Is(r, End(r, c), Free) {
      assert c != b ==> Is(t, c, Free) && !Is(t, End(t, c), Free);
    }
  }

  /** Absorbing a used block and the free block behind it at once. */
  lemma CoalescedFuse(t: Tiling, a: int)
    requires Coalesced(t) && Is(t, a, Free) && End(t, a) in t && t[End(t, a)].kind != Free
    requires Is(t, End(t, End(t, a)), Free)
    requires t[a].len > 0 && t[End(t, a)].len > 0 && t[End(t, End(t, a))].len > 0
    ensures var u := Join(t, a, Free); End(u, a) in u && Coalesced(Join(u, a, Free))
  {
    var u := Join(t, a, Free);
    var r := Join(u, a, Free);
    forall c | Is(r, c, Free) ensures !Is(r, End(r, c), Free) {
      assert Is(t, c, Free) && !Is(t, End(t, c), Free);
      assert !Is(t, End(t, End(t, End(t, a))), Free);
    }
  }

  /** The list search finds the free block that ends at b, if there is one. */
  lemma BelowEndsAt(t: Tiling, lo: int, hi: int, list: seq<int>, b: int)
    requires 0 < lo && IsTiling(t, lo, hi) && Listed(t, list) && b in t
    ensures var before := Below(list, b);
            (before != 0 ==> Is(t, before, Free) && End(t, before) <= b)
            && (NoFreeBefore(t, b) <==> !(before != 0 && End(t, before) == b))
  {
    NoNull(t, lo, hi, list);
    var before := Below(list, b);
    forall a | Is(t, a, Free) && End(t, a) == b ensures before == a {
      assert t[a].len > 0 && a in list && a <= before;
      assert Is(t, before, Free);
    }
  }

  /** The list search finds the free block that starts where b ends, if there is one. */
  lemma AboveStartsAt(t: Tiling, lo: int, hi: int, list: seq<int>, b: int)
    requires 0 < lo && IsTiling(t, lo, hi) && Listed(t, list) && b in t && t[b].kind != Free
    ensures var after := Above(list, b);
            (after != 0 ==> Is(t, after, Free) && End(t, b) <= after)
            && (Is(t, End(t, b), Free) <==> after != 0 && after == End(t, b))
  {
    NoNull(t, lo, hi, list);
    var after := Above(list, b);
    assert t[b].len > 0;
  }

  lemma NoNull(t: Tiling, lo: int, hi: int, list: seq<int>)
    requires 0 < lo && IsTiling(t, lo, hi) && Listed(t, list)
    ensures 0 !in list
  {
    forall a | a in list ensures a > 0 { assert Is(t, a, Free) && t[a].len > 0; }
  }
}
