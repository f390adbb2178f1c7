/** The allocator of kernel/src/pmm.c as a state machine: the heap, the pages carved
    from it, each CPU's page list, and the blocks clients hold. */
module Allocator {
  import opened Words
  import opened Memory
  import opened Chains
  import opened Tilings
  import opened FreeLists
  import opened HeapModel
  import opened PageModel

  /** A block a client holds: its size, and the page it lies in, NULL for a huge block. */
  datatype Block = Block(size: int, page: int)

  /** `cpuOf` names the CPU whose list a page is on; `dropped` counts the huge frees that
      found no predecessor to merge with. */
  datatype State = State(heap: Heap, pages: map<int, SizedPage>, lists: seq<seq<int>>, cpuOf: map<int, int>,
                         live: map<int, Block>, dropped: nat)

  // ---------------------------------------------------------- the invariant

  ghost predicate PagesSound(pages: map<int, SizedPage>, t: Tiling) {
    && (forall a {:trigger pages[a]} {:trigger a in pages} :: a in pages ==>
       Is(t, a, Page) && PageSound(pages[a]) && pages[a].base == a)
    && (forall a {:trigger Is(t, a, Page)} :: Is(t, a, Page) ==> a in pages)
  }

  /** Every page is on exactly one CPU's list. */
  ghost predicate ListsSound(lists: seq<seq<int>>, cpuOf: map<int, int>, pages: map<int, SizedPage>) {
    && (forall a {:trigger a in cpuOf} :: a in cpuOf <==> a in pages)
    && (forall a {:trigger cpuOf[a]} :: a in cpuOf ==> 0 <= cpuOf[a] < |lists| && a in lists[cpuOf[a]])
    && (forall c {:trigger lists[c]} :: 0 <= c < |lists| ==> Distinct(lists[c]) && 0 !in lists[c])
    && (forall c, a {:trigger a in lists[c]} :: 0 <= c < |lists| && a in lists[c] ==> a in cpuOf && cpuOf[a] == c)
  }

  /** The block the client holds at x is the block the allocator set aside. */
  ghost predicate BlockSound(x: int, b: Block, t: Tiling, pages: map<int, SizedPage>) {
    if b.page == 0 then Is(t, x - HEADER, Huge) && t[x - HEADER].len == b.size + HEADER
    else b.page in pages && Is(pages[b.page].tiles, x, Live) && b.size == pages[b.page].cls
  }

  ghost predicate LiveSound(live: map<int, Block>, t: Tiling, pages: map<int, SizedPage>) {
    && (forall x {:trigger live[x]} :: x in live ==> BlockSound(x, live[x], t, pages))
    && (forall b {:trigger Is(t, b, Huge)} :: Is(t, b, Huge) ==> b + HEADER in live && live[b + HEADER].page == 0)
    && (forall p, x {:trigger Is(pages[p].tiles, x, Live)} :: p in pages && Is(pages[p].tiles, x, Live) ==>
       x in live && live[x].page == p)
  }

  ghost predicate Inv(st: State) {
    match st
    case State(heap, pages, lists, cpuOf, live, dropped) =>
      && Sound(heap) && Coalesced(heap.tiles) && heap.hi - heap.lo < INT_LIMIT
      && PagesSound(pages, heap.tiles)
      && ListsSound(lists, cpuOf, pages)
      && LiveSound(live, heap.tiles, pages)
      && InUse(heap, Page) == PAGE * |pages|
      && InUse(heap, Lost) == HEADER * dropped
  }

  // ---------------------------------------------------------- what the invariant means for clients

  /** Where a live block lies: inside one heap block that is its own or its page's. */
  lemma LiveInside(st: State, x: int)
    requires Inv(st) && x in st.live
    ensures var b := st.live[x];
            var home := if b.page == 0 then x - HEADER else b.page;
            && home in st.heap.tiles && b.size > 0
            && home < x && x + b.size <= End(st.heap.tiles, home)
            && st.heap.lo <= home && End(st.heap.tiles, home) <= st.heap.hi
            && st.heap.tiles[home].kind == (if b.page == 0 then Huge else Page)
  {
    var b, t := st.live[x], st.heap.tiles;
    assert BlockSound(x, b, t, st.pages);
    if b.page == 0 {
      assert TileSound(x - HEADER, t[x - HEADER]) && t[x - HEADER].len > 0;
    } else {
      var p := st.pages[b.page];
      assert PageSound(p) && TileSound(b.page, t[b.page]) && t[b.page].len > 0;
      assert PageTileSound(x, p.tiles[x], p.base, p.cls) && p.tiles[x].len > 0;
      ClassFacts(p.cls);
    }
  }

  /** Live allocations never overlap, and all lie in the heap. */
  lemma LiveDisjoint(st: State, x: int, y: int)
    requires Inv(st) && x in st.live && y in st.live && x < y
    ensures st.heap.lo < x && x + st.live[x].size <= y && y + st.live[y].size <= st.heap.hi
  {
    LiveInside(st, x);
    LiveInside(st, y);
    var ox, oy, t := st.live[x], st.live[y], st.heap.tiles;
    assert BlockSound(x, ox, t, st.pages) && BlockSound(y, oy, t, st.pages);
    var hx, hy := if ox.page == 0 then x - HEADER else ox.page, if oy.page == 0 then y - HEADER else oy.page;
    if hx == hy {
      assert ox.page != 0 && oy.page == ox.page;
      var p := st.pages[ox.page];
      assert PageSound(p) && PageTileSound(x, p.tiles[x], p.base, p.cls);
    } else {
      assert t[hx].len > 0 && t[hy].len > 0;
    }
  }

  /** `kfree` dispatches exactly: a page of some list contains the address of a small block
      and only its own page does; no page contains the address of a huge block. */
  lemma DispatchExact(st: State, x: int, p: int)
    requires Inv(st) && x in st.live && p in st.pages
    ensures p < x < p + PAGE <==> p == st.live[x].page
  {
    LiveInside(st, x);
    var b, t := st.live[x], st.heap.tiles;
    assert BlockSound(x, b, t, st.pages) && Is(t, p, Page) && TileSound(p, t[p]);
    var home := if b.page == 0 then x - HEADER else b.page;
    assert TileSound(home, t[home]);
    assert t[home].len > 0 && t[p].len > 0;
  }

  /** Everything is accounted for: free nodes, 64 KiB per page, each huge block with its
      header, and 16 bytes per huge free that did not merge with a predecessor. */
  lemma Conservation(st: State)
    requires Inv(st)
    ensures InUse(st.heap, Free) + PAGE * |st.pages| + InUse(st.heap, Huge) +
        HEADER * st.dropped == st.heap.hi - st.heap.lo
  {
    HeapTotal(st.heap);
  }

  /** Every size the allocator keeps in a record is an int: storing it loses nothing. */
  lemma SizesAreInts(st: State, a: int)
    requires Inv(st) && a in st.heap.tiles
    ensures AsInt(st.heap.tiles[a].len) == st.heap.tiles[a].len &&
        AsInt(st.heap.tiles[a].len - HEADER) == st.heap.tiles[a].len - HEADER
  {
    var len := st.heap.tiles[a].len;
    assert TileSound(a, st.heap.tiles[a]) && len > 0;
    AsIntFits(len);
    AsIntFits(len - HEADER);
  }

  /** So is every size kept inside a page, its class, and the index of any of its blocks. */
  lemma PageSizesAreInts(st: State, page: int, a: int)
    requires Inv(st) && page in st.pages && a in st.pages[page].tiles
    ensures var p := st.pages[page];
            && AsInt(p.tiles[a].len) == p.tiles[a].len && AsInt(p.cls) == p.cls
            && 0 <= (a - p.base) / p.cls < PAGE
  {
    var p := st.pages[page];
    assert PageSound(p);
    ClassFacts(p.cls);
    assert p.tiles[a].len > 0;
    AsIntFits(p.tiles[a].len);
    AsIntFits(p.cls);
    Words.DivBound(a - p.base, p.cls);
  }

  /** A small block starts at a nonzero multiple of its class behind its page's base. */
  lemma SmallBlockIndex(st: State, x: int)
    requires Inv(st) && x in st.live && st.live[x].page != 0
    ensures ClassOk(st.live[x].size)
    ensures exists k :: 1 <= k < PAGE / st.live[x].size && x == st.live[x].page + k * st.live[x].size
    ensures PageAligned(st.heap) ==> x % st.live[x].size == 0
  {
    var b := st.live[x];
    assert BlockSound(x, b, st.heap.tiles, st.pages);
    var p := st.pages[b.page];
    assert PageSound(p) && PageTileSound(x, p.tiles[x], p.base, p.cls) && p.tiles[x].len > 0;
    ClassFacts(p.cls);
    BlockNumber(x - p.base, p.cls);
    if PageAligned(st.heap) {
      assert Is(st.heap.tiles, b.page, Page);
      AlignedSum(b.page, x - p.base, p.cls);
    }
  }

  lemma BlockNumber(d: int, s: int)
    requires ClassOk(s) && d % s == 0 && 0 < d && d + s <= PAGE
    ensures exists k :: 1 <= k < PAGE / s && d == k * s
  {
    var k := d / s;
    DivUnique(d, s, k, 0);
    ClassFacts(s);
    Distribute(k, 1, s);
    MultipleAtLeast(d, s);
    assert d == k * s by { assert d == s * k + d % s; }
    QuotientBounds(k, s);
  }

  lemma QuotientBounds(k: int, s: int)
    requires ClassOk(s) && s <= k * s && (k + 1) * s <= PAGE
    ensures 1 <= k < PAGE / s
  {
    ClassFacts(s);
    assert PAGE == PAGE / s * s;
    MulCancel(1, k, s);
    MulCancel(k + 1, PAGE / s, s);
  }

  lemma AlignedSum(a: int, d: int, s: int)
    requires ClassOk(s) && a % PAGE == 0 && d % s == 0
    ensures (a + d) % s == 0
  {
    var j := a / PAGE;
    assert PAGE == PAGE / s * s by { ClassFacts(s); }
    MulAssoc(j, PAGE / s, s);
    DivUnique(a, s, j * (PAGE / s), 0);
    MultipleAdd(a, d, s);
  }

  // ---------------------------------------------------------- transitions

  /** A fresh page of class s at the head of a CPU's list: lines 205-214 and 283-289. */
  ghost function AddPage(st: State, cpu: int, s: int): (State, int)
    requires Inv(st) && 0 <= cpu < |st.lists|
  {
    var (h, a) := CarvePage(st.heap);
    if a == 0 then (st, 0)
    else (State(h, st.pages[a := Fresh(a, s)], st.lists[cpu := [a] + st.lists[cpu]], st.cpuOf[a := cpu], st.live,
      st.dropped), a)
  }

  /** An empty page takes another class: line 276. */
  function Retype(st: State, ph: int, s: int): State {
    st.(pages := st.pages[ph := Fresh(ph, s)])
  }

  predicate HasRoom(st: State, ph: int) {
    ph in st.pages && st.pages[ph].list != [] && !st.pages[ph].empty
  }

  /** A block from a page with room. */
  ghost function TakeFrom(st: State, ph: int): (State, int)
    requires Inv(st) && HasRoom(st, ph)
  {
    var (p, a) := Take(st.pages[ph]);
    (st.(pages := st.pages[ph := p], live := st.live[a := Block(p.cls, ph)]), a)
  }

  /** `kallocHugeMemory`. */
  ghost function AllocHuge(st: State, size: int): (State, int)
    requires Inv(st) && HugeFits(st.heap, size)
  {
    var (h, x) := CarveHuge(st.heap, size);
    if x == 0 then (st, 0) else (st.(heap := h, live := st.live[x := Block(size, 0)]), x)
  }

  /** `kfree` of a huge block. */
  ghost function FreeHugeBlock(st: State, x: int): State
    requires Inv(st) && Is(st.heap.tiles, x - HEADER, Huge)
  {
    st.(heap := Release(st.heap, x - HEADER), live := st.live - {x},
        dropped := if MergesBefore(st.heap, x - HEADER) then st.dropped else st.dropped + 1)
  }

  /** `kfree` of a small block. */
  ghost function FreeSmallBlock(st: State, x: int, ph: int): State
    requires Inv(st) && ph in st.pages && Is(st.pages[ph].tiles, x, Live)
  {
    st.(pages := st.pages[ph := GiveBack(st.pages[ph], x)], live := st.live - {x})
  }

  // ---------------------------------------------------------- used blocks other than the one concerned stay put

  /** Blocks of kind k: r has those of t without `gone` and with `added` (NULL for none of either). */
  ghost predicate UsedChange(t: Tiling, r: Tiling, k: Kind, gone: int, added: int) {
    && (forall x {:trigger Is(r, x, k)} :: Is(r, x, k) ==>
       (Is(t, x, k) && (x != gone || x == 0) && r[x] == t[x]) || (x == added && x != 0))
    && (forall x {:trigger Is(t, x, k)} :: Is(t, x, k) && (x != gone || x == 0) ==> Is(r, x, k) && r[x] == t[x])
    && (added != 0 ==> Is(r, added, k) && !Is(t, added, k))
  }

  lemma CarvePageUsed(h: Heap)
    requires Sound(h) && CarvePage(h).1 != 0
    ensures UsedChange(h.tiles, CarvePage(h).0.tiles, Page, 0, CarvePage(h).1)
    ensures UsedChange(h.tiles, CarvePage(h).0.tiles, Huge, 0, 0)
  {
    var i := PageIndex(h);
    var a := h.list[i];
    assert h.tiles[a].len > 0;
    if h.tiles[a].len != PAGE { NotInside(h.tiles, h.lo, h.hi, a, a + PAGE); }
  }

  lemma CarveHugeUsed(h: Heap, size: int)
    requires Sound(h) && size > 0 && size % 16 == 0 && HugeFits(h, size) && CarveHuge(h, size).1 != 0
    ensures UsedChange(h.tiles, CarveHuge(h, size).0.tiles, Huge, 0, CarveHuge(h, size).1 - HEADER)
    ensures UsedChange(h.tiles, CarveHuge(h, size).0.tiles, Page, 0, 0)
  {
    var a := HugeNode(h, size);
    assert h.tiles[a].len > 0;
    NotInside(h.tiles, h.lo, h.hi, a, End(h.tiles, a) - size - HEADER);
  }

  lemma JoinUsed(t: Tiling, a: int, k: Kind, gone: int)
    requires a in t && End(t, a) in t && k != Free
    requires (t[a].kind == Free || a == gone) && (t[End(t, a)].kind == Free || End(t, a) == gone)
    requires gone != 0 && (gone == a || gone == End(t, a) || gone !in t)
    ensures UsedChange(t, Join(t, a, Free), k, gone, 0)
  {
  }

  lemma TrimUsed(t: Tiling, b: int, len: int, k: Kind)
    requires b in t && b + len !in t && k != Free && k != Lost && len != 0 && b != 0
    ensures UsedChange(t, Cut(t, b, len, Free, Lost), k, b, 0)
  {
  }

  lemma UsedCompose(t: Tiling, u: Tiling, r: Tiling, k: Kind, gone: int)
    requires UsedChange(t, u, k, gone, 0) && UsedChange(u, r, k, gone, 0)
    ensures UsedChange(t, r, k, gone, 0)
  {
  }

  lemma ReleaseUsed(h: Heap, b: int, k: Kind)
    requires Sound(h) && Is(h.tiles, b, Huge) && (k == Huge || k == Page)
    ensures UsedChange(h.tiles, ReleaseTiles(h, b), k, b, 0)
  {
    var t := h.tiles;
    assert TileSound(b, t[b]) && t[b].len > 0 && b != 0;
    MergesMeanAdjacency(h, b);
    if MergesBefore(h, b) {
      assert Is(t, Below(h.list, b), Free);
      ReleaseUsedBefore(h, b, Below(h.list, b), k);
    } else if MergesAfter(h, b) {
      assert ReleaseTiles(h, b) == Cut(Join(t, b, Free), b, Join(t, b, Free)[b].len - HEADER, Free, Lost);
      AbsorbTrimUsed(t, h.lo, h.hi, b, k);
    } else {
      NotInside(t, h.lo, h.hi, b, b + t[b].len - HEADER);
      TrimUsed(t, b, t[b].len - HEADER, k);
    }
  }

  lemma JoinInterior(t: Tiling, lo: int, hi: int, b: int)
    requires IsTiling(t, lo, hi) && b in t && End(t, b) in t && t[b].len > HEADER
    ensures var j := Join(t, b, Free); b + j[b].len - HEADER !in j && j[b].len > HEADER
  {
    var j := Join(t, b, Free);
    assert t[End(t, b)].len > 0;
    JoinTiling(t, lo, hi, b, Free);
    NotInside(j, lo, hi, b, b + j[b].len - HEADER);
  }

  lemma AbsorbTrimUsed(t: Tiling, lo: int, hi: int, b: int, k: Kind)
    requires IsTiling(t, lo, hi) && Is(t, b, Huge) && Is(t, End(t, b), Free) && t[b].len > HEADER && b != 0 &&
        (k == Huge || k == Page)
    ensures var j := Join(t, b, Free); UsedChange(t, Cut(j, b, j[b].len - HEADER, Free, Lost), k, b, 0)
  {
    var j := Join(t, b, Free);
    JoinInterior(t, lo, hi, b);
    JoinUsed(t, b, k, b);
    TrimUsed(j, b, j[b].len - HEADER, k);
    UsedCompose(t, j, Cut(j, b, j[b].len - HEADER, Free, Lost), k, b);
  }

  lemma ReleaseUsedBefore(h: Heap, b: int, before: int, k: Kind)
    requires Sound(h) && Is(h.tiles, b, Huge) && (k == Huge || k == Page) && b != 0
    requires MergesBefore(h, b) && before == Below(h.list, b) && Is(h.tiles, before, Free)
    ensures UsedChange(h.tiles, ReleaseTiles(h, b), k, b, 0)
  {
    var t, after := h.tiles, Above(h.list, b);
    var u := Join(t, before, Free);
    assert t[b].len > 0 && t[before].len > 0;
    JoinUsed(t, before, k, b);
    if MergesAfter(h, b) {
      assert Is(t, after, Free) && End(u, before) == after && b !in u;
      assert ReleaseTiles(h, b) == Join(u, before, Free);
      JoinUsed(u, before, k, b);
      UsedCompose(t, u, Join(u, before, Free), k, b);
    } else {
      assert ReleaseTiles(h, b) == u;
    }
  }

  // ---------------------------------------------------------- every transition keeps the invariant

  lemma AddPageInv(st: State, cpu: int, s: int)
    requires Inv(st) && 0 <= cpu < |st.lists| && ClassOk(s)
    ensures var (st', a) := AddPage(st, cpu, s);
            && Inv(st')
            && (a != 0 ==> a !in st.pages && HasRoom(st', a) && st'.lists[cpu] == [a] + st.lists[cpu])
  {
    var (h, a) := CarvePage(st.heap);
    if a != 0 {
      var t, r := st.heap.tiles, h.tiles;
      CarvePageSound(st.heap);
      CarvePageCoalesced(st.heap);
      CarvePageUsed(st.heap);
      CarvePageBytes(st.heap, Page);
      CarvePageBytes(st.heap, Lost);
      assert t[a].len > 0;
      assert !Is(t, a, Page);
      AddPagePages(st.pages, t, r, a, s);
      AddToList(st.lists, st.cpuOf, st.pages, cpu, a, Fresh(a, s));
      AddPageLive(st.live, t, r, st.pages, a, s);
    }
  }

  lemma AddPagePages(pages: map<int, SizedPage>, t: Tiling, r: Tiling, a: int, s: int)
    requires PagesSound(pages, t) && UsedChange(t, r, Page, 0, a) && a > 0 && ClassOk(s)
    ensures a !in pages && PagesSound(pages[a := Fresh(a, s)], r) && |pages[a := Fresh(a, s)]| == |pages| + 1
  {
    var q := pages[a := Fresh(a, s)];
    FreshSound(a, s);
    assert a !in pages;
    forall b | b in q ensures Is(r, b, Page) && PageSound(q[b]) && q[b].base == b {
      if b != a { assert b in pages && Is(t, b, Page); }
    }
    assert q.Keys == pages.Keys + {a};
    assert |q.Keys| == |pages.Keys| + 1;
  }

  lemma AddToList(lists: seq<seq<int>>, cpuOf: map<int, int>, pages: map<int, SizedPage>, cpu: int, a: int,
      p: SizedPage)
    requires ListsSound(lists, cpuOf, pages) && 0 <= cpu < |lists| && a !in pages && a != 0
    ensures ListsSound(lists[cpu := [a] + lists[cpu]], cpuOf[a := cpu], pages[a := p])
  {
    var r := lists[cpu := [a] + lists[cpu]];
    assert a !in lists[cpu];
    ConsMembers(lists[cpu], a);
    forall c | 0 <= c < |r| ensures Distinct(r[c]) && 0 !in r[c] { assert Distinct(lists[c]) && 0 !in lists[c]; }
    forall c, b | 0 <= c < |r| && b in r[c] ensures b in cpuOf[a := cpu] && cpuOf[a := cpu][b] == c {
      assert b != a ==> b in lists[c];
    }
  }

  lemma AddPageLive(live: map<int, Block>, t: Tiling, r: Tiling, pages: map<int, SizedPage>, a: int, s: int)
    requires LiveSound(live, t, pages) && UsedChange(t, r, Huge, 0, 0) && a !in pages
    ensures LiveSound(live, r, pages[a := Fresh(a, s)])
  {
    var pages' := pages[a := Fresh(a, s)];
    forall x | x in live ensures BlockSound(x, live[x], r, pages') { assert BlockSound(x, live[x], t, pages); }
    forall b | Is(r, b, Huge) ensures b + HEADER in live && live[b + HEADER].page == 0 { assert Is(t, b, Huge); }
    forall p, x | p in pages' && Is(pages'[p].tiles, x, Live) ensures x in live && live[x].page == p {
      assert p in pages && Is(pages[p].tiles, x, Live);
    }
  }

  /** Replacing one page by another of the same base. */
  lemma SwapPage(st: State, p: SizedPage, live: map<int, Block>)
    requires Inv(st) && p.base in st.pages && PageSound(p)
    requires LiveSound(live, st.heap.tiles, st.pages[p.base := p])
    ensures Inv(st.(pages := st.pages[p.base := p], live := live))
  {
    var pages := st.pages[p.base := p];
    assert pages.Keys == st.pages.Keys;
    assert |pages| == |st.pages| by { assert |pages.Keys| == |st.pages.Keys|; }
    assert PagesSound(pages, st.heap.tiles) by {
      forall a | a in pages ensures Is(st.heap.tiles, a, Page) && PageSound(pages[a]) && pages[a].base == a {
        assert a in st.pages;
      }
    }
    assert ListsSound(st.lists, st.cpuOf, pages);
  }

  lemma RetypeInv(st: State, ph: int, s: int)
    requires Inv(st) && ph in st.pages && st.pages[ph].empty && ClassOk(s)
    ensures Inv(Retype(st, ph, s)) && HasRoom(Retype(st, ph, s), ph)
  {
    var p := st.pages[ph];
    assert PageSound(p) && p.base == ph;
    FreshSound(ph, s);
    EmptyPageIsReusable(p);
    RetypeLive(st.live, st.heap.tiles, st.pages, ph, s);
    SwapPage(st, Fresh(ph, s), st.live);
    assert Retype(st, ph, s) == st.(pages := st.pages[ph := Fresh(ph, s)], live := st.live);
  }

  lemma RetypeLive(live: map<int, Block>, t: Tiling, pages: map<int, SizedPage>, ph: int, s: int)
    requires LiveSound(live, t, pages) && ph in pages && forall x {:trigger Is(pages[ph].tiles, x, Live)} ::
        !Is(pages[ph].tiles, x, Live)
    ensures LiveSound(live, t, pages[ph := Fresh(ph, s)])
  {
    var q := pages[ph := Fresh(ph, s)];
    forall x | x in live ensures BlockSound(x, live[x], t, q) { assert BlockSound(x, live[x], t, pages); }
    forall a, x | a in q && Is(q[a].tiles, x, Live) ensures x in live && live[x].page == a {
      assert Is(pages[a].tiles, x, Live);
    }
  }

  /** A block changes hands inside one page: which blocks of the page are live, and that alone, changes. */
  ghost predicate LiveChange(p: SizedPage, q: SizedPage, gone: int, added: int) {
    && p.base == q.base && p.cls == q.cls
    && (forall x {:trigger Is(q.tiles, x, Live)} :: Is(q.tiles, x, Live) ==>
       (Is(p.tiles, x, Live) && (x != gone || x == 0)) || (x == added && x != 0))
    && (forall x {:trigger Is(p.tiles, x, Live)} :: Is(p.tiles, x, Live) && (x != gone || x == 0) ==>
       Is(q.tiles, x, Live))
    && (added != 0 ==> Is(q.tiles, added, Live) && !Is(p.tiles, added, Live))
  }

  lemma TakeLive(p: SizedPage)
    requires PageSound(p) && p.list != []
    ensures LiveChange(p, Take(p).0, 0, Take(p).1) && Take(p).1 > p.base && Is(p.tiles, Take(p).1, Free)
    ensures !Take(p).0.empty
  {
    var a := p.list[0];
    ListedAt(p.tiles, p.list, 0);
    assert PageTileSound(a, p.tiles[a], p.base, p.cls) && p.tiles[a].len > 0;
    MultipleAtLeast(p.tiles[a].len, p.cls);
    if p.tiles[a].len != p.cls { NotInside(p.tiles, p.base, p.base + PAGE, a, a + p.cls); }
  }

  lemma GiveBackLive(p: SizedPage, b: int)
    requires PageSound(p) && Is(p.tiles, b, Live)
    ensures LiveChange(p, GiveBack(p, b), b, 0) && b > p.base
  {
    JoinsMeanAdjacency(p, b);
    assert PageTileSound(b, p.tiles[b], p.base, p.cls) && p.tiles[b].len > 0;
    if JoinsBefore(p, b) {
      GiveBackLiveBefore(p, b, Below(p.list, b));
    } else if JoinsAfter(p, b) {
      assert Is(p.tiles, Above(p.list, b), Free);
    }
  }

  lemma GiveBackLiveBefore(p: SizedPage, b: int, before: int)
    requires PageSound(p) && Is(p.tiles, b, Live) && JoinsBefore(p, b) && 0 !in p.list && before == Below(p.list, b)
    requires p.tiles[b].len > 0 && b > 0
    ensures LiveChange(p, GiveBack(p, b), b, 0)
  {
    JoinsMeanAdjacency(p, b);
    var t, after := p.tiles, Above(p.list, b);
    assert Is(t, before, Free);
    var u := Join(t, before, Free);
    if JoinsAfter(p, b) {
      assert Is(t, after, Free) && End(u, before) == after && after in u;
      SkippedIff(p, b);
      var r := Join(u, before, Free);
      var q := GiveBack(p, b);
      assert q.tiles == RetagAll(r, Skipped(p, b), Lost);
      forall x | Is(t, x, Live) && x != b ensures Is(q.tiles, x, Live) { assert !Is(t, x, Free); }
      assert forall x {:trigger Is(q.tiles, x, Live)} :: Is(q.tiles, x, Live) ==> Is(t, x, Live) && x != b;
    }
  }

  /** Live blocks follow a change inside one page. */
  lemma LiveFollows(live: map<int, Block>, t: Tiling, pages: map<int, SizedPage>, q: SizedPage, gone: int, added: int)
    requires LiveSound(live, t, pages) && q.base in pages && LiveChange(pages[q.base], q, gone, added) && q.base != 0
    requires gone != 0 ==> Is(pages[q.base].tiles, gone, Live) && added == 0
    requires added != 0 ==> added !in live
    ensures var live' := if added != 0 then live[added := Block(q.cls, q.base)] else live - {gone};
            (added != 0 || gone != 0) ==> LiveSound(live', t, pages[q.base := q])
  {
    var live' := if added != 0 then live[added := Block(q.cls, q.base)] else live - {gone};
    var pages' := pages[q.base := q];
    if added != 0 || gone != 0 {
      assert gone != 0 ==> gone in live && live[gone].page == q.base;
      forall x | x in live' ensures BlockSound(x, live'[x], t, pages') {
        if x != added || added == 0 { assert BlockSound(x, live[x], t, pages); }
      }
      forall b | Is(t, b, Huge) ensures b + HEADER in live' && live'[b + HEADER].page == 0 {
        assert b + HEADER in live && live[b + HEADER].page == 0;
      }
      forall a, x | a in pages' && Is(pages'[a].tiles, x, Live) ensures x in live' && live'[x].page == a {
        if a != q.base || x != added || added == 0 { assert Is(pages[a].tiles, x, Live); }
      }
    }
  }

  /** A block not held by any client: free space of a page is nobody's live block. */
  lemma FreeNotLive(st: State, ph: int, a: int)
    requires Inv(st) && ph in st.pages && Is(st.pages[ph].tiles, a, Free)
    ensures a !in st.live
  {
    var p := st.pages[ph];
    assert PageSound(p) && p.base == ph && Is(st.heap.tiles, ph, Page) && TileSound(ph, st.heap.tiles[ph]);
    assert PageTileSound(a, p.tiles[a], p.base, p.cls) && p.tiles[a].len > 0;
    if a in st.live {
      DispatchExact(st, a, ph);
    }
  }

  lemma TakeFromInv(st: State, ph: int)
    requires Inv(st) && HasRoom(st, ph)
    ensures var (st', a) := TakeFrom(st, ph);
            && Inv(st') && a != 0 && a !in st.live && st'.live == st.live[a := Block(st.pages[ph].cls, ph)]
  {
    var p := st.pages[ph];
    assert PageSound(p) && p.base == ph;
    var (q, a) := Take(p);
    TakeSound(p);
    TakeLive(p);
    FreeNotLive(st, ph, a);
    LiveFollows(st.live, st.heap.tiles, st.pages, q, 0, a);
    SwapPage(st, q, st.live[a := Block(q.cls, ph)]);
  }

  lemma FreeSmallInv(st: State, x: int)
    requires Inv(st) && x in st.live && st.live[x].page != 0
    ensures var ph := st.live[x].page;
            && ph in st.pages && Is(st.pages[ph].tiles, x, Live)
            && Inv(FreeSmallBlock(st, x, ph)) && FreeSmallBlock(st, x, ph).live == st.live - {x}
  {
    var ph := st.live[x].page;
    assert BlockSound(x, st.live[x], st.heap.tiles, st.pages);
    var p := st.pages[ph];
    assert PageSound(p) && p.base == ph;
    GiveBackSound(p, x);
    GiveBackLive(p, x);
    LiveFollows(st.live, st.heap.tiles, st.pages, GiveBack(p, x), x, 0);
    SwapPage(st, GiveBack(p, x), st.live - {x});
  }

  /** Pages and lists do not notice huge blocks coming and going. */
  lemma PagesKept(pages: map<int, SizedPage>, t: Tiling, r: Tiling, gone: int)
    requires PagesSound(pages, t) && UsedChange(t, r, Page, gone, 0) && !Is(t, gone, Page)
    ensures PagesSound(pages, r)
  {
    forall a | a in pages ensures Is(r, a, Page) && PageSound(pages[a]) && pages[a].base == a { assert Is(t, a, Page); }
    forall a | Is(r, a, Page) ensures a in pages { assert Is(t, a, Page); }
  }

  lemma HugeLive(live: map<int, Block>, t: Tiling, r: Tiling, pages: map<int, SizedPage>, gone: int, added: int)
    requires LiveSound(live, t, pages) && UsedChange(t, r, Huge, gone, added) && 0 !in pages
    requires (gone == 0) != (added == 0)
    requires gone != 0 ==> Is(t, gone, Huge)
    requires added != 0 ==> r[added].len > HEADER && added + HEADER !in live
    ensures LiveSound(if added != 0 then live[added + HEADER := Block(r[added].len - HEADER, 0)]
        else live - {gone + HEADER}, r, pages)
  {
    var live' := if added != 0 then live[added + HEADER := Block(r[added].len - HEADER, 0)] else live - {gone + HEADER};
    forall x | x in live' ensures BlockSound(x, live'[x], r, pages) {
      if added == 0 || x != added + HEADER { assert BlockSound(x, live[x], t, pages); }
    }
    forall b | Is(r, b, Huge) ensures b + HEADER in live' && live'[b + HEADER].page == 0 {
      if added == 0 || b != added { assert Is(t, b, Huge); }
    }
    forall p, x | p in pages && Is(pages[p].tiles, x, Live) ensures x in live' && live'[x].page == p {
      assert x in live && live[x].page == p;
      assert gone != 0 ==> gone + HEADER in live && live[gone + HEADER].page == 0;
      assert p != 0 ==> gone == 0 || x != gone + HEADER;
    }
  }

  lemma NoNullPage(st: State)
    requires Inv(st)
    ensures 0 !in st.pages
  {
    assert Sound(st.heap) && IsTiling(st.heap.tiles, st.heap.lo, st.heap.hi);
    forall a | a in st.pages ensures a != 0 { assert Is(st.heap.tiles, a, Page) && st.heap.tiles[a].len > 0; }
  }

  /** A huge block carved from free space is nobody's live block. */
  lemma CarvedNotLive(st: State, size: int)
    requires Inv(st) && size > 0 && size % 16 == 0 && HugeFits(st.heap, size) && CarveHuge(st.heap, size).1 != 0
    ensures CarveHuge(st.heap, size).1 !in st.live
  {
    var x, t, a := CarveHuge(st.heap, size).1, st.heap.tiles, HugeNode(st.heap, size);
    assert t[a].len > 0 && a < x < End(t, a);
    forall y | y in st.live ensures y != x {
      LiveInside(st, y);
      var home := if st.live[y].page == 0 then y - HEADER else st.live[y].page;
      assert t[home].len > 0;
    }
  }

  lemma AllocHugeHeap(st: State, size: int)
    requires Inv(st) && size > 0 && size % 16 == 0 && HugeFits(st.heap, size) && CarveHuge(st.heap, size).1 != 0
    ensures var h := CarveHuge(st.heap, size).0;
            && Sound(h) && Coalesced(h.tiles) && h.hi - h.lo < INT_LIMIT && PagesSound(st.pages, h.tiles)
            && InUse(h, Page) == InUse(st.heap, Page) && InUse(h, Lost) == InUse(st.heap, Lost)
  {
    CarveHugeSound(st.heap, size);
    CarveHugeCoalesced(st.heap, size);
    CarveHugeUsed(st.heap, size);
    CarveHugeBytes(st.heap, size, Page);
    CarveHugeBytes(st.heap, size, Lost);
    PagesKept(st.pages, st.heap.tiles, CarveHuge(st.heap, size).0.tiles, 0);
  }

  lemma HugePut(live: map<int, Block>, t: Tiling, r: Tiling, pages: map<int, SizedPage>, x: int, size: int)
    requires LiveSound(live, t, pages) && UsedChange(t, r, Huge, 0, x - HEADER) && 0 !in pages && x !in live
    requires size > 0 && x != HEADER && r[x - HEADER].len == size + HEADER
    ensures LiveSound(live[x := Block(size, 0)], r, pages)
  {
    HugeLive(live, t, r, pages, 0, x - HEADER);
  }

  lemma CarvedTile(h: Heap, size: int)
    requires Sound(h) && size > 0 && size % 16 == 0 && HugeFits(h, size) && CarveHuge(h, size).1 != 0
    ensures var (h', x) := CarveHuge(h, size);
            Is(h'.tiles, x - HEADER, Huge) && h'.tiles[x - HEADER].len == size + HEADER && x - HEADER != 0
  {
    CarveHugeSound(h, size);
    var (h', x) := CarveHuge(h, size);
    assert h'.tiles[x - HEADER].len > 0;
  }

  lemma AllocHugeLive(st: State, size: int)
    requires Inv(st) && size > 0 && size % 16 == 0 && HugeFits(st.heap, size) && CarveHuge(st.heap, size).1 != 0
    ensures var (h, x) := CarveHuge(st.heap, size);
            x !in st.live && LiveSound(st.live[x := Block(size, 0)], h.tiles, st.pages)
  {
    var (h, x) := CarveHuge(st.heap, size);
    CarvedTile(st.heap, size);
    CarveHugeUsed(st.heap, size);
    CarvedNotLive(st, size);
    NoNullPage(st);
    HugePut(st.live, st.heap.tiles, h.tiles, st.pages, x, size);
  }

  lemma AllocHugeInv(st: State, size: int)
    requires Inv(st) && size > 0 && size % 16 == 0 && HugeFits(st.heap, size)
    ensures var (st', x) := AllocHuge(st, size);
            && Inv(st') && (x != 0 ==> x !in st.live && st'.live == st.live[x := Block(size, 0)])
  {
    if CarveHuge(st.heap, size).1 != 0 {
      AllocHugeHeap(st, size);
      AllocHugeLive(st, size);
    }
  }

  lemma FreeHugeInv(st: State, x: int)
    requires Inv(st) && x in st.live && st.live[x].page == 0
    ensures Is(st.heap.tiles, x - HEADER, Huge)
    ensures Inv(FreeHugeBlock(st, x)) && FreeHugeBlock(st, x).live == st.live - {x}
  {
    var h, b := st.heap, x - HEADER;
    assert BlockSound(x, st.live[x], h.tiles, st.pages);
    ReleaseSound(h, b);
    ReleaseCoalesces(h, b);
    ReleaseUsed(h, b, Huge);
    ReleaseUsed(h, b, Page);
    NoNullPage(st);
    assert h.tiles[b].len > 0;
    PagesKept(st.pages, h.tiles, ReleaseTiles(h, b), b);
    HugeLive(st.live, h.tiles, ReleaseTiles(h, b), st.pages, b, 0);
    if MergesBefore(h, b) {
      ReleaseMergedBytes(h, b, Page);
      ReleaseMergedBytes(h, b, Lost);
    } else {
      ReleaseUnmergedBytes(h, b, Page);
      ReleaseUnmergedBytes(h, b, Lost);
    }
  }
}
