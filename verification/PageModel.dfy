/** One 64 KiB page of kernel/src/pmm.c as a state and its transitions: the page
    header, blocks of one size class, and the in-page free list in list order. */
module PageModel {
  import opened Words
  import opened Chains
  import opened Tilings
  import opened FreeLists
  import opened HeapModel

  /** The size classes `kalloc` rounds small requests up to. */
  predicate ClassOk(s: int) {
    s == 32 || s == 64 || s == 128 || s == 256 || s == 512 || s == 1024 || s == 2048 || s == 4096 || s == 8192 ||
      s == 16384
  }

  /** `empty` stands for the header's `size` field being 0: the page may be re-typed. */
  datatype SizedPage = SizedPage(base: int, cls: int, tiles: Tiling, list: seq<int>, empty: bool)

  /** Blocks lie on multiples of the class; the header takes the first, so every other index is at least 1. */
  predicate PageTileSound(a: int, t: Tile, base: int, cls: int)
    requires cls > 0
  {
    && (a - base) % cls == 0 && t.len % cls == 0
    && match t.kind
       case Header => a == base && t.len == cls
       case Live => a != base && t.len == cls
       case Free => a != base
       case Lost => a != base
       case _ => false
  }

  ghost predicate PageTilesSound(t: Tiling, base: int, cls: int)
    requires cls > 0
  {
    forall a {:trigger PageTileSound(a, t[a], base, cls)} :: a in t ==> PageTileSound(a, t[a], base, cls)
  }

  ghost predicate PageSound(p: SizedPage) {
    match p
    case SizedPage(base, cls, tiles, list, empty) =>
      && 0 < base && ClassOk(cls)
      && IsTiling(tiles, base, base + PAGE)
      && PageTilesSound(tiles, base, cls)
      && Listed(tiles, list)
      && Coalesced(tiles)
      && (empty ==> list == [base + cls] && Is(tiles, base + cls, Free) && tiles[base + cls].len == PAGE - cls)
  }

  lemma ClassFacts(s: int)
    requires ClassOk(s)
    ensures 32 <= s && 4 * s <= PAGE && PAGE % s == 0 && s % 16 == 0
  {
  }

  // ---------------------------------------------------------- transitions

  /** Lines 207-214: a page just carved from the heap, typed, with one free node. */
  function Fresh(base: int, s: int): SizedPage {
    SizedPage(base, s, map[base := Tile(s, Header), base + s := Tile(PAGE - s, Free)], [base + s], false)
  }

  /** Lines 230-257: a block from the head node. */
  ghost function Take(p: SizedPage): (SizedPage, int)
    requires PageSound(p) && p.list != []
  {
    var a := p.list[0];
    assert Is(p.tiles, a, Free) by { ListedAt(p.tiles, p.list, 0); }
    if p.tiles[a].len == p.cls
    then (p.(tiles := Retag(p.tiles, a, Live), list := p.list[1..], empty := false), a)
    else (p.(tiles := Cut(p.tiles, a, p.cls, Live, Free), list := p.list[0 := a + p.cls], empty := false), a)
  }

  ghost predicate JoinsBefore(p: SizedPage, b: int)
    requires PageSound(p) && Is(p.tiles, b, Live)
  {
    NoNull(p.tiles, p.base, p.base + PAGE, p.list);
    var before := Below(p.list, b);
    before != 0 && before in p.tiles && End(p.tiles, before) == b
  }

  ghost predicate JoinsAfter(p: SizedPage, b: int)
    requires PageSound(p) && Is(p.tiles, b, Live)
  {
    NoNull(p.tiles, p.base, p.base + PAGE, p.list);
    Above(p.list, b) != 0 && Above(p.list, b) == End(p.tiles, b)
  }

  /** The list nodes that line 376 skips when it makes `before` the head: those between
      `after`, which was the head, and `before`. */
  ghost function Skipped(p: SizedPage, b: int): seq<int>
    requires PageSound(p) && Is(p.tiles, b, Live) && JoinsBefore(p, b) && JoinsAfter(p, b)
  {
    NoNull(p.tiles, p.base, p.base + PAGE, p.list);
    var before, after := Below(p.list, b), Above(p.list, b);
    if p.list[0] == after && IndexOf(p.list, before) > 0 then p.list[1..IndexOf(p.list, before)] else []
  }

  /** Lines 360-413: block b returns to its page. */
  ghost function GiveBack(p: SizedPage, b: int): SizedPage
    requires PageSound(p) && Is(p.tiles, b, Live)
  {
    NoNull(p.tiles, p.base, p.base + PAGE, p.list);
    var before, after := Below(p.list, b), Above(p.list, b);
    assert before != 0 ==> Is(p.tiles, before, Free);
    assert after != 0 ==> Is(p.tiles, after, Free);
    assert p.tiles[b].len > 0;
    if JoinsBefore(p, b) then
      var t := Join(p.tiles, before, Free);
      if JoinsAfter(p, b) then
        assert End(t, before) == after && after in t;
        var u := RetagAll(Join(t, before, Free), Skipped(p, b), Lost);
        var list := if p.list[0] == after then p.list[IndexOf(p.list, before)..] else Without(p.list, after);
        SizedPage(p.base, p.cls, u, list, u[before].len == PAGE - p.cls)
      else
        SizedPage(p.base, p.cls, t, p.list, t[before].len == PAGE - p.cls)
    else if JoinsAfter(p, b) then
      var t := Join(p.tiles, b, Free);
      SizedPage(p.base, p.cls, t, [b] + Without(p.list, after), t[b].len == PAGE - p.cls)
    else
      SizedPage(p.base, p.cls, Retag(p.tiles, b, Free), [b] + p.list, false)
  }

  // ---------------------------------------------------------- block shapes survive the surgeries

  lemma CutPageTiles(t: Tiling, base: int, cls: int, a: int, k: Kind)
    requires cls > 0 && PageTilesSound(t, base, cls) && Is(t, a, Free) && t[a].len > cls && a + cls != base
    ensures PageTilesSound(Cut(t, a, cls, Live, Free), base, cls)
  {
    assert PageTileSound(a, t[a], base, cls);
    MultipleSelf(cls);
    MultipleAdd(a - base, cls, cls);
    MultipleAdd(t[a].len, cls, cls);
  }

  lemma RetagPageTiles(t: Tiling, base: int, cls: int, a: int, k: Kind)
    requires cls > 0 && PageTilesSound(t, base, cls) && a in t && t[a].len == cls && a != base &&
        (k == Live || k == Free)
    ensures PageTilesSound(Retag(t, a, k), base, cls)
  {
    assert PageTileSound(a, t[a], base, cls);
  }

  lemma JoinPageTiles(t: Tiling, base: int, cls: int, a: int)
    requires cls > 0 && PageTilesSound(t, base, cls) && a in t && End(t, a) in t && a != base
    ensures PageTilesSound(Join(t, a, Free), base, cls)
  {
    assert PageTileSound(a, t[a], base, cls) && PageTileSound(End(t, a), t[End(t, a)], base, cls);
    MultipleAdd(t[a].len, t[End(t, a)].len, cls);
  }

  lemma ForgetPageTiles(t: Tiling, list: seq<int>, base: int, cls: int)
    requires cls > 0 && PageTilesSound(t, base, cls) && forall a :: a in list ==> Is(t, a, Free)
    ensures PageTilesSound(RetagAll(t, list, Lost), base, cls)
  {
    var r := RetagAll(t, list, Lost);
    forall a | a in r ensures PageTileSound(a, r[a], base, cls) { assert PageTileSound(a, t[a], base, cls); }
  }

  // ---------------------------------------------------------- the empty page

  /** A free node that covers everything behind the header is the only block left. */
  lemma WholePageFree(t: Tiling, list: seq<int>, base: int, cls: int, a: int)
    requires ClassOk(cls) && 0 < base && IsTiling(t, base, base + PAGE) && PageTilesSound(t, base, cls) &&
        Listed(t, list)
    requires Is(t, a, Free) && t[a].len == PAGE - cls
    ensures a == base + cls && list == [base + cls]
    ensures forall x {:trigger t[x]} :: x in t ==> x == base || x == a
  {
    assert PageTileSound(base, t[base], base, cls) && PageTileSound(a, t[a], base, cls);
    assert base < a && base + t[base].len <= a;
    forall x | x in t ensures x == base || x == a {
      assert t[x].len > 0;
    }
    assert a in list;
    SingleMember(list, a);
  }

  lemma SingleMember(s: seq<int>, a: int)
    requires Distinct(s) && a in s && forall x :: x in s ==> x == a
    ensures s == [a]
  {
    DistinctIndices(s);
    ListMembers(s);
    var i := |s| - 1;
    assert s[i] == a && s[0] == a;
  }

  // ---------------------------------------------------------- every transition keeps the page sound

  lemma FreshSound(base: int, s: int)
    requires 0 < base && ClassOk(s)
    ensures PageSound(Fresh(base, s))
  {
    var p := Fresh(base, s);
    ClassFacts(s);
    TwoBlocksTiling(base, s, PAGE - s, Header, Free);
    FreshTiles(base, s);
    assert base + s in p.list;
    assert Distinct(p.list);
  }

  lemma TwoBlocksTiling(base: int, x: int, y: int, k: Kind, l: Kind)
    requires 0 < x && 0 < y
    ensures IsTiling(map[base := Tile(x, k), base + x := Tile(y, l)], base, base + x + y)
  {
    var t := map[base := Tile(x, k), base + x := Tile(y, l)];
    assert End(t, base) == base + x && End(t, base + x) == base + x + y;
  }

  lemma FreshTiles(base: int, s: int)
    requires ClassOk(s)
    ensures PageTilesSound(Fresh(base, s).tiles, base, s) && Coalesced(Fresh(base, s).tiles)
  {
    ClassFacts(s);
    MultipleSelf(s);
    MultipleAdd(PAGE, s, s);
  }

  lemma TakeSound(p: SizedPage)
    requires PageSound(p) && p.list != []
    ensures var (p', a) := Take(p);
            PageSound(p') && Is(p.tiles, a, Free) && Is(p'.tiles, a, Live)
  {
    var t, a := p.tiles, p.list[0];
    ListedAt(t, p.list, 0);
    assert PageTileSound(a, t[a], p.base, p.cls) && t[a].len > 0;
    MultipleAtLeast(t[a].len, p.cls);
    if t[a].len == p.cls {
      RetagTiling(t, p.base, p.base + PAGE, a, Live);
      RetagPageTiles(t, p.base, p.cls, a, Live);
      ListedTake(t, p.list, 0, Live);
      assert Drop(p.list, 0) == p.list[1..];
      CoalescedTake(t, a, Live);
    } else {
      CutTiling(t, p.base, p.base + PAGE, a, p.cls, Live, Free);
      CutPageTiles(t, p.base, p.cls, a, Live);
      ListedTakeFront(t, p.list, 0, p.cls, Live);
      CoalescedTakeFront(t, p.base, p.base + PAGE, a, p.cls, Live);
    }
  }

  /** The two searches detect adjacency exactly, as in the heap. */
  lemma JoinsMeanAdjacency(p: SizedPage, b: int)
    requires PageSound(p) && Is(p.tiles, b, Live)
    ensures 0 !in p.list
    ensures JoinsBefore(p, b) ==> Is(p.tiles, Below(p.list, b), Free)
    ensures JoinsBefore(p, b) <==> !NoFreeBefore(p.tiles, b)
    ensures JoinsAfter(p, b) <==> Is(p.tiles, End(p.tiles, b), Free)
  {
    NoNull(p.tiles, p.base, p.base + PAGE, p.list);
    BelowEndsAt(p.tiles, p.base, p.base + PAGE, p.list, b);
    AboveStartsAt(p.tiles, p.base, p.base + PAGE, p.list, b);
  }

  /** Whenever the code marks the page empty, the page is. */
  lemma MarkedEmpty(p: SizedPage, a: int)
    requires 0 < p.base && ClassOk(p.cls) && IsTiling(p.tiles, p.base, p.base + PAGE)
    requires PageTilesSound(p.tiles, p.base, p.cls) && Listed(p.tiles, p.list) && Coalesced(p.tiles)
    requires Is(p.tiles, a, Free) && (p.empty ==> p.tiles[a].len == PAGE - p.cls)
    ensures PageSound(p)
  {
    if p.empty { WholePageFree(p.tiles, p.list, p.base, p.cls, a); }
  }

  lemma GiveBackAlone(p: SizedPage, b: int)
    requires PageSound(p) && Is(p.tiles, b, Live) && !JoinsBefore(p, b) && !JoinsAfter(p, b)
    ensures PageSound(GiveBack(p, b))
  {
    JoinsMeanAdjacency(p, b);
    assert PageTileSound(b, p.tiles[b], p.base, p.cls) && p.tiles[b].len > 0;
    RetagTiling(p.tiles, p.base, p.base + PAGE, b, Free);
    RetagPageTiles(p.tiles, p.base, p.cls, b, Free);
    ListedFree(p.tiles, p.list, b);
    CoalescedFree(p.tiles, b);
  }

  lemma GiveBackAfter(p: SizedPage, b: int)
    requires PageSound(p) && Is(p.tiles, b, Live) && !JoinsBefore(p, b) && JoinsAfter(p, b)
    ensures PageSound(GiveBack(p, b))
  {
    var t := p.tiles;
    JoinsMeanAdjacency(p, b);
    var after := Above(p.list, b);
    assert PageTileSound(b, t[b], p.base, p.cls) && t[b].len > 0 && t[after].len > 0;
    JoinTiling(t, p.base, p.base + PAGE, b, Free);
    JoinPageTiles(t, p.base, p.cls, b);
    ListedAbsorbAfter(t, p.list, b);
    CoalescedAbsorbAfter(t, b);
    MarkedEmpty(GiveBack(p, b), b);
  }

  lemma GiveBackBefore(p: SizedPage, b: int)
    requires PageSound(p) && Is(p.tiles, b, Live) && JoinsBefore(p, b) && !JoinsAfter(p, b)
    ensures PageSound(GiveBack(p, b))
  {
    var t := p.tiles;
    JoinsMeanAdjacency(p, b);
    var before := Below(p.list, b);
    assert t[b].len > 0 && t[before].len > 0;
    assert PageTileSound(before, t[before], p.base, p.cls);
    JoinTiling(t, p.base, p.base + PAGE, before, Free);
    JoinPageTiles(t, p.base, p.cls, before);
    ListedAbsorb(t, p.list, before);
    CoalescedAbsorb(t, before);
    MarkedEmpty(GiveBack(p, b), before);
  }

  /** Absorbing the block and its successor into the predecessor, before any node is skipped. */
  lemma FuseBoth(p: SizedPage, b: int, before: int, after: int)
    requires PageSound(p) && Is(p.tiles, b, Live)
    requires Is(p.tiles, before, Free) && End(p.tiles, before) == b && Is(p.tiles, after, Free) &&
        End(p.tiles, b) == after
    ensures after in p.list && before in Without(p.list, after)
    ensures var u := Join(p.tiles, before, Free);
            End(u, before) == after && after in u &&
            var r := Join(u, before, Free);
            IsTiling(r, p.base, p.base + PAGE) && PageTilesSound(r, p.base, p.cls)
            && Listed(r, Without(p.list, after)) && Coalesced(r) && Is(r, before, Free)
  {
    var t := p.tiles;
    assert t[b].len > 0 && t[before].len > 0 && t[after].len > 0;
    assert PageTileSound(before, t[before], p.base, p.cls);
    var u := Join(t, before, Free);
    JoinTiling(t, p.base, p.base + PAGE, before, Free);
    JoinPageTiles(t, p.base, p.cls, before);
    ListedAbsorb(t, p.list, before);
    assert Is(u, after, Free);
    JoinTiling(u, p.base, p.base + PAGE, before, Free);
    JoinPageTiles(u, p.base, p.cls, before);
    ListedFuse(u, p.list, before);
    CoalescedFuse(t, before);
  }

  lemma GiveBackBoth(p: SizedPage, b: int)
    requires PageSound(p) && Is(p.tiles, b, Live) && JoinsBefore(p, b) && JoinsAfter(p, b)
    ensures PageSound(GiveBack(p, b))
  {
    JoinsMeanAdjacency(p, b);
    var before, after := Below(p.list, b), Above(p.list, b);
    FuseBoth(p, b, before, after);
    var r := Join(Join(p.tiles, before, Free), before, Free);
    SkipSound(p, r, before, after, Skipped(p, b));
    var q := GiveBack(p, b);
    assert q.tiles == RetagAll(r, Skipped(p, b), Lost);
    MarkedEmpty(q, before);
  }

  /** Making `before` the head forgets the nodes in front of it; nothing else changes. */
  lemma SkipSound(p: SizedPage, r: Tiling, before: int, after: int, skipped: seq<int>)
    requires p.cls > 0 && Distinct(p.list) && before in p.list && after in p.list && before != after
    requires IsTiling(r, p.base, p.base + PAGE) && PageTilesSound(r, p.base, p.cls)
    requires Listed(r, Without(p.list, after)) && Coalesced(r) && Is(r, before, Free)
    requires skipped == if p.list[0] == after && IndexOf(p.list, before) > 0 then p.list[1..IndexOf(p.list, before)]
        else []
    ensures var u := RetagAll(r, skipped, Lost);
            var list := if p.list[0] == after then p.list[IndexOf(p.list, before)..] else Without(p.list, after);
            IsTiling(u, p.base, p.base + PAGE) && PageTilesSound(u, p.base, p.cls)
            && Listed(u, list) && Coalesced(u) && Is(u, before, Free)
  {
    RetagAllTiling(r, p.base, p.base + PAGE, skipped, Lost);
    CoalescedForget(r, skipped, Lost);
    if p.list[0] == after {
      SkipList(p.list, r, before, after);
    } else {
      assert RetagAll(r, [], Lost) == r;
    }
    ForgetPageTiles(r, skipped, p.base, p.cls);
  }

  lemma SkipList(list: seq<int>, r: Tiling, before: int, after: int)
    requires Distinct(list) && before in list && list[0] == after && before != after && after in list
    requires Listed(r, Without(list, after)) && Is(r, before, Free)
    ensures IndexOf(list, before) > 0
    ensures var k := IndexOf(list, before);
            var u := RetagAll(r, list[1..k], Lost);
            Listed(u, list[k..]) && Is(u, before, Free) && forall x :: x in list[1..k] ==> Is(r, x, Free)
  {
    var w, k := Without(list, after), IndexOf(list, before);
    SkipShape(list, before, after);
    ListedForget(r, w, k - 1, Lost);
    forall x | x in list[1..k] ensures Is(r, x, Free) { assert x in w; }
  }

  lemma SkipShape(list: seq<int>, before: int, after: int)
    requires Distinct(list) && before in list && list[0] == after && before != after && after in list
    ensures var w, k := Without(list, after), IndexOf(list, before);
            k > 0 && |w| == |list| - 1 && list[1..k] == w[..k - 1] && list[k..] == w[k - 1..]
            && before in list[k..] && forall x :: x in list[1..k] ==> x in w
  {
    var w, k := Without(list, after), IndexOf(list, before);
    IndexOfAt(list, 0);
    assert w == list[1..];
    assert list[k..][0] == before;
    forall x | x in list[1..k] ensures x in w {
      var i :| 0 <= i < |list[1..k]| && list[1..k][i] == x;
      assert w[i] == x;
    }
  }

  lemma GiveBackSound(p: SizedPage, b: int)
    requires PageSound(p) && Is(p.tiles, b, Live)
    ensures PageSound(GiveBack(p, b))
  {
    if JoinsBefore(p, b) {
      if JoinsAfter(p, b) { GiveBackBoth(p, b); } else { GiveBackBefore(p, b); }
    } else {
      if JoinsAfter(p, b) { GiveBackAfter(p, b); } else { GiveBackAlone(p, b); }
    }
  }

  /** A page marked empty holds no live block, and its list is the one node at index 1:
      exactly what the re-typing of lines 274-276 and 297 relies on. */
  lemma EmptyPageIsReusable(p: SizedPage)
    requires PageSound(p) && p.empty
    ensures forall x {:trigger Is(p.tiles, x, Live)} :: !Is(p.tiles, x, Live)
    ensures p.list == [p.base + p.cls] && p.tiles == Fresh(p.base, p.cls).tiles
  {
    var a := p.base + p.cls;
    WholePageFree(p.tiles, p.list, p.base, p.cls, a);
    assert p.base in p.tiles && PageTileSound(p.base, p.tiles[p.base], p.base, p.cls);
    forall x | x in p.tiles ensures x == p.base || x == a { assert p.tiles[x].len > 0; }
    assert p.tiles.Keys == {p.base, a};
    forall x ensures !Is(p.tiles, x, Live) {}
  }

  // ---------------------------------------------------------- conservation inside the page

  function PageBytes(p: SizedPage, k: Kind): int {
    Bytes(p.tiles, p.base, p.base + PAGE, k)
  }

  /** The situation in which line 376 forgets nodes: the block closes the gap between
      `before` and `after`, `after` heads the list, and `before` is not second. */
  ghost predicate ForgetsNodes(p: SizedPage, b: int)
    requires PageSound(p) && Is(p.tiles, b, Live)
  {
    JoinsMeanAdjacency(p, b);
    JoinsBefore(p, b) && JoinsAfter(p, b) && p.list[0] == Above(p.list, b) && At(p.list, 1) != Below(p.list, b)
  }

  lemma SkippedIff(p: SizedPage, b: int)
    requires PageSound(p) && Is(p.tiles, b, Live) && JoinsBefore(p, b) && JoinsAfter(p, b)
    ensures Skipped(p, b) != [] <==> ForgetsNodes(p, b)
    ensures forall x :: x in Skipped(p, b) ==> x in p.list && x != Below(p.list, b) && x != Above(p.list, b)
  {
    JoinsMeanAdjacency(p, b);
    var before, after := Below(p.list, b), Above(p.list, b);
    assert Is(p.tiles, before, Free) && Is(p.tiles, after, Free) && p.tiles[b].len > 0;
    var k := IndexOf(p.list, before);
    if p.list[0] == after {
      IndexOfAt(p.list, 0);
      if |p.list| > 1 { IndexOfAt(p.list, 1); }
      NotInSlice(p.list, 1, k, before);
      NotInSlice(p.list, 1, k, after);
    }
  }

  lemma NotInSlice(s: seq<int>, i: nat, k: nat, x: int)
    requires Distinct(s) && i <= k <= |s| && x in s && !(i <= IndexOf(s, x) < k)
    ensures x !in s[i..k] && forall y :: y in s[i..k] ==> y in s
  {
    DistinctIndices(s);
    forall y | y in s[i..k] ensures y in s && y != x {
      var j :| 0 <= j < |s[i..k]| && s[i..k][j] == y;
      assert s[i + j] == y;
    }
  }

  /** Freeing a block gives its bytes back to the page's free list, and every byte that
      was listed stays listed, unless the code forgets nodes; then listed bytes are lost. */
  lemma GiveBackBytes(p: SizedPage, b: int)
    requires PageSound(p) && Is(p.tiles, b, Live)
    ensures PageBytes(GiveBack(p, b), Free) == PageBytes(p, Free) + p.cls <==> !ForgetsNodes(p, b)
  {
    var t, lo, hi := p.tiles, p.base, p.base + PAGE;
    JoinsMeanAdjacency(p, b);
    assert PageTileSound(b, t[b], p.base, p.cls);
    if JoinsBefore(p, b) {
      JoinBytes(t, lo, hi, Below(p.list, b), Free, Free);
      if JoinsAfter(p, b) { GiveBackBothBytes(p, b); }
    } else if JoinsAfter(p, b) {
      JoinBytes(t, lo, hi, b, Free, Free);
    } else {
      RetagBytes(t, lo, hi, b, Free, Free);
    }
  }

  lemma FuseBytes(t: Tiling, lo: int, hi: int, a: int, k: Kind)
    requires IsTiling(t, lo, hi) && Is(t, a, Free) && Is(t, End(t, a), Live) && Is(t, End(t, End(t, a)), Free)
    ensures var u := Join(t, a, Free);
            End(u, a) in u && Bytes(Join(u, a, Free), lo, hi, Free) == Bytes(t, lo, hi, Free) + t[End(t, a)].len
  {
    assert t[a].len > 0 && t[End(t, a)].len > 0;
    JoinTiling(t, lo, hi, a, Free);
    JoinBytes(t, lo, hi, a, Free, Free);
    JoinBytes(Join(t, a, Free), lo, hi, a, Free, Free);
  }

  lemma ForgottenBytes(r: Tiling, lo: int, hi: int, skipped: seq<int>)
    requires IsTiling(r, lo, hi) && forall x :: x in skipped ==> Is(r, x, Free)
    ensures Bytes(RetagAll(r, skipped, Lost), lo, hi, Free) == Bytes(r, lo, hi, Free) <==> skipped == []
  {
    RetagAllFreeBytes(r, lo, hi, lo, skipped, Lost);
    if skipped == [] {
      assert RetagAll(r, [], Lost) == r;
    } else {
      var x := skipped[0];
      assert x in skipped && Is(r, x, Free) && r[x].len > 0;
    }
  }

  lemma GiveBackBothBytes(p: SizedPage, b: int)
    requires PageSound(p) && Is(p.tiles, b, Live) && JoinsBefore(p, b) && JoinsAfter(p, b)
    ensures PageBytes(GiveBack(p, b), Free) == PageBytes(p, Free) + p.cls <==> !ForgetsNodes(p, b)
  {
    var t, lo, hi := p.tiles, p.base, p.base + PAGE;
    JoinsMeanAdjacency(p, b);
    var before, after := Below(p.list, b), Above(p.list, b);
    assert PageTileSound(b, t[b], p.base, p.cls) && t[b].len > 0;
    FuseBoth(p, b, before, after);
    FuseBytes(t, lo, hi, before, Free);
    var r := Join(Join(t, before, Free), before, Free);
    assert GiveBack(p, b).tiles == RetagAll(r, Skipped(p, b), Lost);
    SkippedIff(p, b);
    forall x | x in Skipped(p, b) ensures Is(r, x, Free) { assert Is(t, x, Free); }
    ForgottenBytes(r, lo, hi, Skipped(p, b));
  }
}
