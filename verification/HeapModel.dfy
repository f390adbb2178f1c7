/** The heap level of kernel/src/pmm.c as a state and its transitions: a tiling of
    [lo, hi) and the free list in list order. */
module HeapModel {
  import opened Chains
  import opened Tilings
  import opened FreeLists

  const PAGE := 65536
  const HEADER := 16

  datatype Heap = Heap(lo: int, hi: int, tiles: Tiling, list: seq<int>)

  ghost predicate Sound(h: Heap) {
    match h
    case Heap(lo, hi, tiles, list) =>
      0 < lo && IsTiling(tiles, lo, hi) && TilesSound(tiles) && Listed(tiles, list)
  }

  ghost predicate TilesSound(t: Tiling) {
    forall a {:trigger TileSound(a, t[a])} :: a in t ==> TileSound(a, t[a])
  }

  lemma CutTilesSound(t: Tiling, a: int, len: int, front: Kind, back: Kind)
    requires TilesSound(t) && a in t
    requires TileSound(a, Tile(len, front)) && TileSound(a + len, Tile(t[a].len - len, back))
    ensures TilesSound(Cut(t, a, len, front, back))
  {
  }

  lemma RetagTilesSound(t: Tiling, a: int, k: Kind)
    requires TilesSound(t) && a in t && TileSound(a, Tile(t[a].len, k))
    ensures TilesSound(Retag(t, a, k))
  {
  }

  lemma JoinTilesSound(t: Tiling, a: int)
    requires TilesSound(t) && a in t && End(t, a) in t
    ensures TilesSound(Join(t, a, Free))
  {
    assert TileSound(a, t[a]) && TileSound(End(t, a), t[End(t, a)]);
  }

  /** Cutting a sound block at a 16-byte boundary leaves two sound pieces. */
  lemma PiecesSound(a: int, whole: int, len: int)
    requires a % 16 == 0 && whole % 16 == 0 && len % 16 == 0
    ensures TileSound(a, Tile(len, Free)) && TileSound(a + len, Tile(whole - len, Free))
    ensures len == PAGE ==> TileSound(a, Tile(len, Page))
    ensures whole - len == HEADER ==> TileSound(a + len, Tile(whole - len, Lost))
    ensures whole - len > HEADER ==> TileSound(a + len, Tile(whole - len, Huge))
    ensures (whole - len) % 16 == 0
  {
  }

  lemma ListWithin(t: Tiling, list: seq<int>)
    requires Listed(t, list)
    ensures Within(list, t)
  {
    forall a | a in list ensures a in t { assert Is(t, a, Free); }
  }

  /** What each kind of heap block looks like; everything sits on 16-byte boundaries. */
  predicate TileSound(a: int, t: Tile) {
    && a % 16 == 0 && t.len % 16 == 0
    && match t.kind
       case Free => true
       case Page => t.len == PAGE
       case Huge => t.len > HEADER
       case Lost => t.len == HEADER
       case _ => false
  }

  ghost predicate Within(list: seq<int>, t: Tiling) {
    forall a {:trigger a in list} :: a in list ==> a in t
  }

  lemma WithinParts(x: seq<int>, y: seq<int>, t: Tiling)
    requires Within(x + y, t)
    ensures Within(x, t) && Within(y, t)
    ensures forall i {:trigger y[i]} :: 0 <= i < |y| ==> y[i] in t
    ensures forall i {:trigger x[i]} :: 0 <= i < |x| ==> x[i] in t
  {
    forall a | a in x || a in y ensures a in t { assert a in x + y; }
  }

  /** i is the index of the first list node that can hold `need` bytes, the length if none can. */
  ghost predicate IsFirstFit(t: Tiling, list: seq<int>, need: int, i: int) {
    && 0 <= i <= |list|
    && (i < |list| ==> list[i] in t && t[list[i]].len >= need)
    && forall j {:trigger list[j]} :: 0 <= j < i ==> list[j] in t && t[list[j]].len < need
  }

  /** r is the highest list node that can hold `need` bytes, NULL if none can. */
  ghost predicate IsHighestFit(t: Tiling, list: seq<int>, need: int, r: int) {
    && (r != 0 ==> r in list && r in t && t[r].len >= need)
    && forall y {:trigger y in list} :: y in list && y in t && t[y].len >= need ==> r != 0 && y <= r
  }

  lemma {:induction false} FirstFitExists(t: Tiling, list: seq<int>, need: int, k: nat)
    requires Within(list, t) && k <= |list|
    requires forall j {:trigger list[j]} :: 0 <= j < k ==> list[j] in t && t[list[j]].len < need
    ensures exists i :: IsFirstFit(t, list, need, i)
    decreases |list| - k
  {
    if k == |list| {
      assert IsFirstFit(t, list, need, k);
    } else {
      var a := list[k];
      assert a in list && a in t;
      if t[a].len >= need { assert IsFirstFit(t, list, need, k); } else { FirstFitExists(t, list, need, k + 1); }
    }
  }

  lemma {:induction false} HighestFitExists(t: Tiling, list: seq<int>, need: int)
    requires Within(list, t) && 0 !in list
    ensures exists r :: IsHighestFit(t, list, need, r)
    decreases |list|
  {
    if list == [] {
      assert IsHighestFit(t, list, need, 0);
    } else {
      var front, y := list[..|list| - 1], list[|list| - 1];
      assert list == front + [y];
      WithinParts(front, [y], t);
      assert forall z :: z in front ==> z in list;
      assert y in list;
      HighestFitExists(t, front, need);
      var r :| IsHighestFit(t, front, need, r);
      assert IsHighestFit(t, list, need, if t[y].len >= need && (r == 0 || y > r) then y else r);
    }
  }

  // ---------------------------------------------------------- transitions

  /** Where in the list `allockpage` finds its node. */
  ghost function PageIndex(h: Heap): (i: nat)
    requires Sound(h)
    ensures IsFirstFit(h.tiles, h.list, PAGE, i)
    ensures i < |h.list| ==> Is(h.tiles, h.list[i], Free)
  {
    ListWithin(h.tiles, h.list);
    FirstFitExists(h.tiles, h.list, PAGE, 0);
    var i :| IsFirstFit(h.tiles, h.list, PAGE, i);
    assert i < |h.list| ==> h.list[i] in h.list;
    i
  }

  /** `allockpage`: 64 KiB from the front of the first node that fits. */
  ghost function CarvePage(h: Heap): (r: (Heap, int))
    requires Sound(h)
  {
    var i := PageIndex(h);
    if i == |h.list| then (h, 0)
    else
      var a := h.list[i];
      if h.tiles[a].len == PAGE then (h.(tiles := Retag(h.tiles, a, Page), list := Drop(h.list, i)), a)
      else (h.(tiles := Cut(h.tiles, a, PAGE, Page, Free), list := h.list[i := a + PAGE]), a)
  }

  /** The node `kallocHugeMemory` chooses for a block of `size` bytes. */
  ghost function HugeNode(h: Heap, size: int): (r: int)
    requires Sound(h)
    ensures IsHighestFit(h.tiles, h.list, size, r)
    ensures r != 0 ==> Is(h.tiles, r, Free)
  {
    ListWithin(h.tiles, h.list);
    NoNull(h.tiles, h.lo, h.hi, h.list);
    HighestFitExists(h.tiles, h.list, size);
    var r :| IsHighestFit(h.tiles, h.list, size, r);
    r
  }

  /** The chosen node also has room for the header and for itself.  The code tests only `size`. */
  ghost predicate HugeFits(h: Heap, size: int)
    requires Sound(h)
  {
    var a := HugeNode(h, size);
    a == 0 || h.tiles[a].len >= size + HEADER + 16
  }

  /** `kallocHugeMemory`: header and block from the tail of the chosen node. */
  ghost function CarveHuge(h: Heap, size: int): (r: (Heap, int))
    requires Sound(h) && HugeFits(h, size)
  {
    var a := HugeNode(h, size);
    if a == 0 then (h, 0)
    else
      var len := h.tiles[a].len;
      (h.(tiles := Cut(h.tiles, a, len - size - HEADER, Free, Huge)), a + len - size)
  }

  /** No free node holds `need` bytes. */
  ghost predicate NoneHolds(h: Heap, need: int) {
    forall a {:trigger Is(h.tiles, a, Free)} :: Is(h.tiles, a, Free) ==> h.tiles[a].len < need
  }

  /** A page is found unless no node holds one. */
  lemma CarvePageFinds(h: Heap)
    requires Sound(h)
    ensures CarvePage(h).1 == 0 <==> NoneHolds(h, PAGE)
  {
    var i := PageIndex(h);
    ListWithin(h.tiles, h.list);
    if i < |h.list| {
      assert Is(h.tiles, h.list[i], Free) && h.tiles[h.list[i]].len > 0;
    } else {
      forall a | Is(h.tiles, a, Free) ensures h.tiles[a].len < PAGE {
        assert a in h.list;
        var j :| 0 <= j < |h.list| && h.list[j] == a;
      }
    }
  }

  /** So is a huge block. */
  lemma CarveHugeFinds(h: Heap, size: int)
    requires Sound(h) && size > 0 && HugeFits(h, size)
    ensures CarveHuge(h, size).1 == 0 <==> NoneHolds(h, size)
  {
    var a := HugeNode(h, size);
    if a == 0 {
      forall b | Is(h.tiles, b, Free) ensures h.tiles[b].len < size { assert b in h.list; }
    } else {
      assert Is(h.tiles, a, Free) && h.tiles[a].len > 0;
    }
  }

  /** A page is the front of the first node of the list that holds one. */
  lemma PageFrom(h: Heap)
    requires Sound(h) && CarvePage(h).1 != 0
    ensures exists i {:trigger h.list[i]} ::
      && 0 <= i < |h.list| && h.list[i] == CarvePage(h).1 && h.list[i] in h.tiles && h.tiles[h.list[i]].len >= 65536
      && forall k {:trigger h.list[k]} :: 0 <= k < i ==> h.list[k] in h.tiles && h.tiles[h.list[k]].len < 65536
  {
    assert h.list[PageIndex(h)] == CarvePage(h).1;
  }

  /** A huge block is the tail of the highest free node that holds it. */
  lemma HugeFrom(h: Heap, size: int)
    requires Sound(h) && size > 0 && HugeFits(h, size) && CarveHuge(h, size).1 != 0
    ensures exists a {:trigger Is(h.tiles, a, Free)} ::
      && Is(h.tiles, a, Free) && h.tiles[a].len >= size && CarveHuge(h, size).1 + size == End(h.tiles, a)
      && forall b {:trigger Is(h.tiles, b, Free)} :: Is(h.tiles, b, Free) && h.tiles[b].len >= size ==> b <= a
  {
    var a := HugeNode(h, size);
    assert Is(h.tiles, a, Free);
    forall b | Is(h.tiles, b, Free) && h.tiles[b].len >= size ensures b <= a { assert b in h.list; }
  }

  /** The free block that ends where b starts is the one the list search finds. */
  ghost predicate MergesBefore(h: Heap, b: int)
    requires Sound(h) && Is(h.tiles, b, Huge)
  {
    var before := Below(h.list, b);
    assert before != 0 ==> Is(h.tiles, before, Free);
    before != 0 && End(h.tiles, before) == b
  }

  ghost predicate MergesAfter(h: Heap, b: int)
    requires Sound(h) && Is(h.tiles, b, Huge)
  {
    Above(h.list, b) != 0 && Above(h.list, b) == End(h.tiles, b)
  }

  /** `kfree` of the huge block whose header is at b: the tiling afterwards. */
  ghost function ReleaseTiles(h: Heap, b: int): (t: Tiling)
    requires Sound(h) && Is(h.tiles, b, Huge)
  {
    var before, after := Below(h.list, b), Above(h.list, b);
    assert before != 0 ==> Is(h.tiles, before, Free);
    assert after != 0 ==> Is(h.tiles, after, Free);
    assert TileSound(b, h.tiles[b]);
    if MergesBefore(h, b) then
      var t := Join(h.tiles, before, Free);
      if MergesAfter(h, b) then assert after != before; assert End(t, before) == after; Join(t, before, Free) else t
    else if MergesAfter(h, b) then
      var t := Join(h.tiles, b, Free);
      Cut(t, b, t[b].len - HEADER, Free, Lost)
    else Cut(h.tiles, b, h.tiles[b].len - HEADER, Free, Lost)
  }

  /** ... and the free list afterwards. */
  ghost function ReleaseList(h: Heap, b: int): seq<int>
    requires Sound(h) && Is(h.tiles, b, Huge)
  {
    var rest := if MergesAfter(h, b) then Without(h.list, Above(h.list, b)) else h.list;
    if MergesBefore(h, b) then rest else [b] + rest
  }

  ghost function Release(h: Heap, b: int): Heap
    requires Sound(h) && Is(h.tiles, b, Huge)
  {
    h.(tiles := ReleaseTiles(h, b), list := ReleaseList(h, b))
  }

  /** A freed block that does not join the node in front of it heads the list. */
  lemma FreedNodeFirst(h: Heap, b: int)
    requires Sound(h) && Is(h.tiles, b, Huge) && !MergesBefore(h, b)
    ensures Release(h, b).list != [] && Release(h, b).list[0] == b
  {
  }

  // ---------------------------------------------------------- every transition keeps the heap sound

  lemma CarvePageSound(h: Heap)
    requires Sound(h)
    ensures var (h', a) := CarvePage(h);
            Sound(h') && (a != 0 ==> Is(h.tiles, a, Free) && Is(h'.tiles, a, Page))
  {
    var i := PageIndex(h);
    if i < |h.list| {
      var a := h.list[i];
      assert TileSound(a, h.tiles[a]);
      if h.tiles[a].len == PAGE {
        RetagTiling(h.tiles, h.lo, h.hi, a, Page);
        RetagTilesSound(h.tiles, a, Page);
        ListedTake(h.tiles, h.list, i, Page);
      } else {
        PiecesSound(a, h.tiles[a].len, PAGE);
        CutTiling(h.tiles, h.lo, h.hi, a, PAGE, Page, Free);
        CutTilesSound(h.tiles, a, PAGE, Page, Free);
        ListedTakeFront(h.tiles, h.list, i, PAGE, Page);
      }
    }
  }

  lemma CarveHugeSound(h: Heap, size: int)
    requires Sound(h) && size > 0 && size % 16 == 0 && HugeFits(h, size)
    ensures var (h', p) := CarveHuge(h, size);
            Sound(h') && (p != 0 ==> p - HEADER !in h.tiles && h'.tiles[p - HEADER] == Tile(size + HEADER, Huge))
  {
    var a := HugeNode(h, size);
    if a != 0 {
      var len := h.tiles[a].len;
      assert TileSound(a, h.tiles[a]);
      PiecesSound(a, len, len - size - HEADER);
      CutTiling(h.tiles, h.lo, h.hi, a, len - size - HEADER, Free, Huge);
      CutTilesSound(h.tiles, a, len - size - HEADER, Free, Huge);
      ListedTakeBack(h.tiles, h.list, a, len - size - HEADER, Huge);
      assert CarveHuge(h, size).0.tiles == Cut(h.tiles, a, len - size - HEADER, Free, Huge);
    }
  }

  lemma ReleaseSound(h: Heap, b: int)
    requires Sound(h) && Is(h.tiles, b, Huge)
    ensures Sound(Release(h, b))
  {
    if MergesBefore(h, b) {
      ReleaseIntoBefore(h, b);
    } else if MergesAfter(h, b) {
      ReleaseIntoAfter(h, b);
    } else {
      ReleaseAlone(h, b);
    }
  }

  lemma ReleaseAlone(h: Heap, b: int)
    requires Sound(h) && Is(h.tiles, b, Huge) && !MergesBefore(h, b) && !MergesAfter(h, b)
    ensures Sound(Release(h, b))
  {
    var t := Retag(h.tiles, b, Free);
    assert TileSound(b, h.tiles[b]);
    RetagTiling(h.tiles, h.lo, h.hi, b, Free);
    RetagTilesSound(h.tiles, b, Free);
    ListedFree(h.tiles, h.list, b);
    TrimTail(t, h.lo, h.hi, [b] + h.list, b);
    CutRetag(h.tiles, b, t[b].len - HEADER, Free, Lost);
  }

  lemma CutRetag(t: Tiling, a: int, len: int, front: Kind, back: Kind)
    requires a in t
    ensures Cut(Retag(t, a, front), a, len, front, back) == Cut(t, a, len, front, back)
  {
  }

  lemma ReleaseIntoAfter(h: Heap, b: int)
    requires Sound(h) && Is(h.tiles, b, Huge) && !MergesBefore(h, b) && MergesAfter(h, b)
    ensures Sound(Release(h, b))
  {
    var after := Above(h.list, b);
    assert Is(h.tiles, after, Free) && End(h.tiles, b) == after;
    assert TileSound(b, h.tiles[b]) && h.tiles[after].len > 0;
    var t := Join(h.tiles, b, Free);
    JoinTiling(h.tiles, h.lo, h.hi, b, Free);
    JoinTilesSound(h.tiles, b);
    ListedAbsorbAfter(h.tiles, h.list, b);
    assert ReleaseTiles(h, b) == Cut(t, b, t[b].len - HEADER, Free, Lost);
    TrimTail(t, h.lo, h.hi, [b] + Without(h.list, after), b);
  }

  /** A free block gives its last 16 bytes up: the header bytes that lines 469 and 483 drop. */
  lemma TrimTail(t: Tiling, lo: int, hi: int, list: seq<int>, b: int)
    requires IsTiling(t, lo, hi) && TilesSound(t) && Listed(t, list) && Is(t, b, Free) && t[b].len > HEADER
    ensures var r := Cut(t, b, t[b].len - HEADER, Free, Lost);
            IsTiling(r, lo, hi) && TilesSound(r) && Listed(r, list)
  {
    assert TileSound(b, t[b]);
    PiecesSound(b, t[b].len, t[b].len - HEADER);
    CutTiling(t, lo, hi, b, t[b].len - HEADER, Free, Lost);
    CutTilesSound(t, b, t[b].len - HEADER, Free, Lost);
    ListedTakeBack(t, list, b, t[b].len - HEADER, Lost);
  }

  lemma ReleaseIntoBefore(h: Heap, b: int)
    requires Sound(h) && Is(h.tiles, b, Huge) && MergesBefore(h, b)
    ensures Sound(Release(h, b))
  {
    var before, after := Below(h.list, b), Above(h.list, b);
    assert Is(h.tiles, before, Free) && End(h.tiles, before) == b;
    var t := Join(h.tiles, before, Free);
    JoinTiling(h.tiles, h.lo, h.hi, before, Free);
    JoinTilesSound(h.tiles, before);
    ListedAbsorb(h.tiles, h.list, before);
    if MergesAfter(h, b) {
      assert Is(h.tiles, after, Free) && End(t, before) == after;
      FuseSound(t, h.lo, h.hi, h.list, before);
    }
  }

  lemma FuseSound(t: Tiling, lo: int, hi: int, list: seq<int>, a: int)
    requires IsTiling(t, lo, hi) && TilesSound(t) && Listed(t, list)
    requires Is(t, a, Free) && Is(t, End(t, a), Free) && End(t, a) in list && End(t, a) != a
    ensures var r := Join(t, a, Free);
            IsTiling(r, lo, hi) && TilesSound(r) && Listed(r, Without(list, End(t, a)))
  {
    JoinTiling(t, lo, hi, a, Free);
    JoinTilesSound(t, a);
    ListedFuse(t, list, a);
  }

  // ---------------------------------------------------------- what the merges mean

  /** The two searches of `kfree` detect adjacency exactly. */
  lemma MergesMeanAdjacency(h: Heap, b: int)
    requires Sound(h) && Is(h.tiles, b, Huge)
    ensures MergesBefore(h, b) <==> !NoFreeBefore(h.tiles, b)
    ensures MergesAfter(h, b) <==> Is(h.tiles, End(h.tiles, b), Free)
  {
    BelowEndsAt(h.tiles, h.lo, h.hi, h.list, b);
    AboveStartsAt(h.tiles, h.lo, h.hi, h.list, b);
  }

  // Free blocks never touch: every transition keeps the heap coalesced.

  lemma CarvePageCoalesced(h: Heap)
    requires Sound(h) && Coalesced(h.tiles)
    ensures Coalesced(CarvePage(h).0.tiles)
  {
    var i := PageIndex(h);
    if i < |h.list| {
      var a := h.list[i];
      if h.tiles[a].len == PAGE { CoalescedTake(h.tiles, a, Page); }
      else { CoalescedTakeFront(h.tiles, h.lo, h.hi, a, PAGE, Page); }
    }
  }

  lemma CarveHugeCoalesced(h: Heap, size: int)
    requires Sound(h) && Coalesced(h.tiles) && size > 0 && HugeFits(h, size)
    ensures Coalesced(CarveHuge(h, size).0.tiles)
  {
    var a := HugeNode(h, size);
    if a != 0 { CoalescedTakeBack(h.tiles, h.lo, h.hi, a, h.tiles[a].len - size - HEADER, Huge); }
  }

  lemma ReleaseCoalesces(h: Heap, b: int)
    requires Sound(h) && Coalesced(h.tiles) && Is(h.tiles, b, Huge)
    ensures Coalesced(ReleaseTiles(h, b))
  {
    var t := h.tiles;
    MergesMeanAdjacency(h, b);
    assert TileSound(b, t[b]) && t[b].len > 0;
    if MergesBefore(h, b) {
      ReleaseCoalescesBefore(h, b);
    } else if MergesAfter(h, b) {
      var j := Join(t, b, Free);
      assert ReleaseTiles(h, b) == Cut(j, b, j[b].len - HEADER, Free, Lost);
      CoalescedAfterTrim(t, h.lo, h.hi, b);
    } else {
      assert ReleaseTiles(h, b) == Cut(t, b, t[b].len - HEADER, Free, Lost);
      CoalescedAloneTrim(t, h.lo, h.hi, b);
    }
  }

  lemma ReleaseCoalescesBefore(h: Heap, b: int)
    requires Sound(h) && Coalesced(h.tiles) && Is(h.tiles, b, Huge) && MergesBefore(h, b)
    ensures Coalesced(ReleaseTiles(h, b))
  {
    var t, before := h.tiles, Below(h.list, b);
    MergesMeanAdjacency(h, b);
    assert Is(t, before, Free) && t[before].len > 0 && t[b].len > 0;
    var u := Join(t, before, Free);
    if MergesAfter(h, b) {
      assert t[End(t, b)].len > 0;
      assert ReleaseTiles(h, b) == Join(u, before, Free);
      CoalescedFuse(t, before);
    } else {
      assert ReleaseTiles(h, b) == u;
      CoalescedAbsorb(t, before);
    }
  }

  lemma CoalescedAloneTrim(t: Tiling, lo: int, hi: int, b: int)
    requires Coalesced(t) && IsTiling(t, lo, hi) && Is(t, b, Huge) && t[b].len > HEADER
    requires !Is(t, End(t, b), Free) && NoFreeBefore(t, b)
    ensures Coalesced(Cut(t, b, t[b].len - HEADER, Free, Lost))
  {
    var r := Retag(t, b, Free);
    CoalescedFree(t, b);
    RetagTiling(t, lo, hi, b, Free);
    CoalescedTakeBack(r, lo, hi, b, r[b].len - HEADER, Lost);
    CutRetag(t, b, r[b].len - HEADER, Free, Lost);
  }

  lemma CoalescedAfterTrim(t: Tiling, lo: int, hi: int, b: int)
    requires Coalesced(t) && IsTiling(t, lo, hi) && Is(t, b, Huge) && t[b].len > HEADER
    requires Is(t, End(t, b), Free) && NoFreeBefore(t, b)
    ensures var j := Join(t, b, Free); Coalesced(Cut(j, b, j[b].len - HEADER, Free, Lost))
  {
    var j := Join(t, b, Free);
    assert t[End(t, b)].len > 0;
    CoalescedAbsorbAfter(t, b);
    JoinTiling(t, lo, hi, b, Free);
    CoalescedTakeBack(j, lo, hi, b, j[b].len - HEADER, Lost);
  }

  // ---------------------------------------------------------- conservation

  /** Bytes of the heap in blocks of kind k. */
  function InUse(h: Heap, k: Kind): int {
    Bytes(h.tiles, h.lo, h.hi, k)
  }

  lemma CarvePageBytes(h: Heap, k: Kind)
    requires Sound(h) && CarvePage(h).1 != 0
    ensures InUse(CarvePage(h).0, k) == InUse(h, k) - Weight(Free, k, PAGE) + Weight(Page, k, PAGE)
  {
    var a := h.list[PageIndex(h)];
    if h.tiles[a].len == PAGE { RetagBytes(h.tiles, h.lo, h.hi, a, Page, k); }
    else { CutBytes(h.tiles, h.lo, h.hi, a, PAGE, Page, Free, k); }
  }

  lemma CarveHugeBytes(h: Heap, size: int, k: Kind)
    requires Sound(h) && size > 0 && HugeFits(h, size) && HugeNode(h, size) != 0
    ensures InUse(CarveHuge(h, size).0, k) ==
            InUse(h, k) - Weight(Free, k, size + HEADER) + Weight(Huge, k, size + HEADER)
  {
    var a := HugeNode(h, size);
    assert Is(h.tiles, a, Free);
    CutBytes(h.tiles, h.lo, h.hi, a, h.tiles[a].len - size - HEADER, Free, Huge, k);
  }

  /** A huge free that merges into a predecessor returns the block with its header. */
  lemma ReleaseMergedBytes(h: Heap, b: int, k: Kind)
    requires Sound(h) && Is(h.tiles, b, Huge) && MergesBefore(h, b)
    ensures var len := h.tiles[b].len;
            InUse(Release(h, b), k) == InUse(h, k) - Weight(Huge, k, len) + Weight(Free, k, len)
  {
    var before, after := Below(h.list, b), Above(h.list, b);
    assert Is(h.tiles, before, Free);
    JoinBytes(h.tiles, h.lo, h.hi, before, Free, k);
    WeightAdd(k, h.tiles[before].len, h.tiles[b].len);
    if MergesAfter(h, b) {
      assert Is(h.tiles, after, Free);
      SecondJoinBytes(h.tiles, h.lo, h.hi, before, k);
    }
  }

  /** One that does not loses exactly the 16 header bytes. */
  lemma ReleaseUnmergedBytes(h: Heap, b: int, k: Kind)
    requires Sound(h) && Is(h.tiles, b, Huge) && !MergesBefore(h, b)
    ensures var len := h.tiles[b].len;
            InUse(Release(h, b), k) ==
            InUse(h, k) - Weight(Huge, k, len) + Weight(Free, k, len - HEADER) + Weight(Lost, k, HEADER)
  {
    var t := h.tiles;
    assert TileSound(b, t[b]);
    if MergesAfter(h, b) {
      assert Is(t, End(t, b), Free) by { MergesMeanAdjacency(h, b); }
      assert ReleaseTiles(h, b) == Cut(Join(t, b, Free), b, Join(t, b, Free)[b].len - HEADER, Free, Lost);
      JoinTrimBytes(t, h.lo, h.hi, b, k);
    } else {
      assert ReleaseTiles(h, b) == Cut(t, b, t[b].len - HEADER, Free, Lost);
      TrimBytes(t, h.lo, h.hi, b, k);
    }
  }

  lemma TrimBytes(t: Tiling, lo: int, hi: int, b: int, k: Kind)
    requires IsTiling(t, lo, hi) && Is(t, b, Huge) && t[b].len > HEADER
    ensures Bytes(Cut(t, b, t[b].len - HEADER, Free, Lost), lo, hi, k) ==
            Bytes(t, lo, hi, k) - Weight(Huge, k, t[b].len) + Weight(Free, k, t[b].len - HEADER) +
              Weight(Lost, k, HEADER)
  {
    CutBytes(t, lo, hi, b, t[b].len - HEADER, Free, Lost, k);
  }

  lemma WeightAdd(k: Kind, x: int, y: int)
    ensures Weight(Free, k, x + y) == Weight(Free, k, x) + Weight(Free, k, y)
  {
  }

  lemma SecondJoinBytes(t: Tiling, lo: int, hi: int, a: int, k: Kind)
    requires IsTiling(t, lo, hi) && Is(t, a, Free) && End(t, a) in t && Is(t, End(t, End(t, a)), Free)
    ensures var u, c := Join(t, a, Free), End(t, End(t, a));
            End(u, a) == c && c in u && Bytes(Join(u, a, Free), lo, hi, k) == Bytes(u, lo, hi, k)
  {
    var u, c := Join(t, a, Free), End(t, End(t, a));
    assert t[a].len > 0 && t[End(t, a)].len > 0;
    JoinTiling(t, lo, hi, a, Free);
    JoinBytes(u, lo, hi, a, Free, k);
    WeightAdd(k, u[a].len, u[c].len);
  }

  lemma JoinTrimBytes(t: Tiling, lo: int, hi: int, b: int, k: Kind)
    requires IsTiling(t, lo, hi) && Is(t, b, Huge) && t[b].len > HEADER && Is(t, End(t, b), Free)
    ensures var j := Join(t, b, Free);
            Bytes(Cut(j, b, j[b].len - HEADER, Free, Lost), lo, hi, k) ==
            Bytes(t, lo, hi, k) - Weight(Huge, k, t[b].len) + Weight(Free, k, t[b].len - HEADER) +
              Weight(Lost, k, HEADER)
  {
    var e, j := End(t, b), Join(t, b, Free);
    assert t[e].len > 0;
    JoinBytes(t, lo, hi, b, Free, k);
    JoinTiling(t, lo, hi, b, Free);
    CutBytes(j, lo, hi, b, j[b].len - HEADER, Free, Lost, k);
    WeightAdd(k, t[b].len - HEADER, t[e].len);
    WeightAdd(k, t[b].len, t[e].len);
  }

  /** Nothing but free nodes, pages, huge blocks and lost headers makes up the heap. */
  lemma HeapTotal(h: Heap)
    requires Sound(h)
    ensures InUse(h, Free) + InUse(h, Page) + InUse(h, Huge) + InUse(h, Lost) == h.hi - h.lo
  {
    BytesTotal(h.tiles, h.lo, h.hi, h.lo);
    NoSuchKind(h.tiles, h.lo, h.hi, Header);
    NoSuchKind(h.tiles, h.lo, h.hi, Live);
  }

  lemma {:induction false} NoSuchKind(t: Tiling, a: int, hi: int, k: Kind)
    requires TilesSound(t) && (k == Header || k == Live)
    ensures Bytes(t, a, hi, k) == 0
    decreases hi - a
  {
    if a in t && t[a].len > 0 && a < hi {
      assert TileSound(a, t[a]);
      NoSuchKind(t, a + t[a].len, hi, k);
    }
  }

  // ---------------------------------------------------------- alignment

  /** Free nodes and pages all start on 64 KiB boundaries. */
  ghost predicate PageAligned(h: Heap) {
    forall a {:trigger h.tiles[a]} :: a in h.tiles && (h.tiles[a].kind == Free || h.tiles[a].kind == Page) ==>
      a % PAGE == 0
  }

  lemma CarvePageAligned(h: Heap)
    requires Sound(h) && PageAligned(h)
    ensures PageAligned(CarvePage(h).0) && CarvePage(h).1 % PAGE == 0
  {
    var i := PageIndex(h);
    if i < |h.list| { MultiplePlus(h.list[i]); }
  }

  lemma MultiplePlus(a: int)
    ensures a % PAGE == 0 ==> (a + PAGE) % PAGE == 0
  {
  }

  lemma CarveHugeAligned(h: Heap, size: int)
    requires Sound(h) && PageAligned(h) && size > 0 && HugeFits(h, size)
    ensures PageAligned(CarveHuge(h, size).0)
  {
  }

  /** A huge free that merges into a predecessor starts no new node. */
  lemma ReleaseAligned(h: Heap, b: int)
    requires Sound(h) && PageAligned(h) && Is(h.tiles, b, Huge) && MergesBefore(h, b)
    ensures PageAligned(Release(h, b))
  {
    var before := Below(h.list, b);
    assert Is(h.tiles, before, Free);
    JoinAligned(h.tiles, before);
    if MergesAfter(h, b) { JoinAligned(Join(h.tiles, before, Free), before); }
  }

  lemma JoinAligned(t: Tiling, a: int)
    requires Is(t, a, Free) && End(t, a) in t && a % PAGE == 0
    requires forall b :: b in t && (t[b].kind == Free || t[b].kind == Page) ==> b % PAGE == 0
    ensures var r := Join(t, a, Free);
            forall b :: b in r && (r[b].kind == Free || r[b].kind == Page) ==> b % PAGE == 0
  {
  }
}
