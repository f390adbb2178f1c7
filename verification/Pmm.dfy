/** The module `pmm` of kernel/src/pmm.c: memory, `head` and `cpupagelist` as they are
    updated in place by one call at a time, proved against AllocatorRuns. */
module PmmCode {
  import opened Memory
  import opened Chains
  import opened Tilings
  import opened FreeLists
  import opened HeapModel
  import opened HeapCode
  import opened PageModel
  import opened PageCode
  import opened Allocator
  import Runs = AllocatorRuns

  ghost predicate ListsHeld(m: Mem, pagehead: seq<int>, lists: seq<seq<int>>) {
    && |pagehead| == |lists|
    && (forall c {:trigger lists[c]} :: 0 <= c < |lists| ==> Chain(m, lists[c]) && pagehead[c] == At(lists[c], 0))
  }

  ghost predicate PagesHeld(m: Mem, pages: map<int, SizedPage>) {
    forall p {:trigger pages[p]} :: p in pages ==> PageHeld(m, pages[p])
  }

  /** Memory and the globals represent the allocator's state. */
  ghost predicate Holds(m: Mem, head: int, pagehead: seq<int>, st: State) {
    match st
    case State(heap, pages, lists, _, _, _) =>
      Represents(m, head, heap) && ListsHeld(m, pagehead, lists) && PagesHeld(m, pages)
  }

  // ---------------------------------------------------------- who notices which writes

  lemma PageTileOf(st: State, p: int)
    requires Inv(st) && p in st.pages
    ensures Is(st.heap.tiles, p, Page) && st.heap.tiles[p].len == PAGE && PageSound(st.pages[p]) &&
        st.pages[p].base == p
    ensures p != 0 && p !in st.heap.list
  {
    assert Is(st.heap.tiles, p, Page) && TileSound(p, st.heap.tiles[p]);
    NoNullPage(st);
    assert !Is(st.heap.tiles, p, Free);
  }

  /** Heap operations leave every page and every page list as they were. */
  lemma PagesUnderHeapStep(m: Mem, m': Mem, st: State, pagehead: seq<int>, b: int)
    requires Inv(st) && ListsHeld(m, pagehead, st.lists) && PagesHeld(m, st.pages)
    requires KeptOutside(m, m', st.heap.tiles, b) && b !in st.pages
    ensures ListsHeld(m', pagehead, st.lists) && PagesHeld(m', st.pages)
  {
    forall p, x | p in st.pages && p <= x < p + PAGE ensures Read(m', x) == Read(m, x) {
      PageTileOf(st, p);
      assert st.heap.tiles[p].len == PAGE;
    }
    forall p | p in st.pages ensures PageHeld(m', st.pages[p]) {
      PageTileOf(st, p);
      PageHeldFrame(m, m', st.pages[p]);
    }
    forall c | 0 <= c < |st.lists| ensures Chain(m', st.lists[c]) {
      forall a | a in st.lists[c] ensures Read(m', a).next == Read(m, a).next {
        ListedPage(st, c, a);
        assert a <= a < a + PAGE;
      }
      ChainFrame(m, m', st.lists[c]);
    }
  }

  lemma ListedPage(st: State, c: int, a: int)
    requires Inv(st) && 0 <= c < |st.lists| && a in st.lists[c]
    ensures a in st.pages && a != 0
  {
    assert a in st.cpuOf;
    NoNullPage(st);
  }

  /** Only the page's own bytes changed, and not its link: the lists of pages are as they were. */
  lemma LinksKept(m: Mem, m': Mem, pagehead: seq<int>, st: State, ph: int)
    requires Inv(st) && ListsHeld(m, pagehead, st.lists) && ph in st.pages && OnlyInPage(m, m', ph)
    ensures ListsHeld(m', pagehead, st.lists)
  {
    PageTileOf(st, ph);
    forall c | 0 <= c < |st.lists| ensures Chain(m', st.lists[c]) {
      forall a | a in st.lists[c] ensures Read(m', a).next == Read(m, a).next {
        ListedPage(st, c, a);
        PageTileOf(st, a);
        if a != ph { Apart(st.heap.tiles, st.heap.lo, st.heap.hi, ph, a, a); }
      }
      ChainFrame(m, m', st.lists[c]);
    }
  }

  /** Writes inside one page leave the heap, the lists and the other pages as they were. */
  lemma RestUnderPageStep(m: Mem, m': Mem, head: int, pagehead: seq<int>, st: State, q: SizedPage)
    requires Inv(st) && Holds(m, head, pagehead, st) && q.base in st.pages
    requires OnlyInPage(m, m', q.base) && PageHeld(m', q)
    ensures Represents(m', head, st.heap) && ListsHeld(m', pagehead, st.lists) && PagesHeld(m', st.pages[q.base := q])
  {
    var ph := q.base;
    PageTileOf(st, ph);
    forall a | Is(st.heap.tiles, a, Free) || Is(st.heap.tiles, a, Huge) ensures Read(m', a) == Read(m, a) {
      assert st.heap.tiles[a].len > 0;
      Apart(st.heap.tiles, st.heap.lo, st.heap.hi, ph, a, a);
    }
    RepresentsFrame(m, m', head, st.heap);
    forall p | p in st.pages && p != ph ensures PageHeld(m', st.pages[p]) { OtherPage(m, m', st, ph, p); }
    LinksKept(m, m', pagehead, st, ph);
  }

  lemma OtherPage(m: Mem, m': Mem, st: State, ph: int, p: int)
    requires Inv(st) && ph in st.pages && p in st.pages && p != ph && PageHeld(m, st.pages[p]) && OnlyInPage(m, m', ph)
    ensures PageHeld(m', st.pages[p])
  {
    PageTileOf(st, ph);
    PageTileOf(st, p);
    forall x | p <= x < p + PAGE ensures Read(m', x) == Read(m, x) {
      Apart(st.heap.tiles, st.heap.lo, st.heap.hi, ph, p, x);
    }
    PageHeldFrame(m, m', st.pages[p]);
  }

  /** A page newly carved, initialised and put at the head of a list. */
  lemma AddedHeld(m: Mem, m1: Mem, m2: Mem, head: int, head': int, pagehead: seq<int>, st: State, cpu: int,
      q: SizedPage)
    requires Inv(st) && Holds(m, head, pagehead, st) && 0 <= cpu < |st.lists|
    requires var (h', a) := CarvePage(st.heap);
             && a != 0 && q.base == a
             && KeptOutside(m, m1, st.heap.tiles, 0) && Represents(m1, head', h')
             && (forall x {:trigger Read(m2, x)} :: !(a <= x < a + PAGE) ==> Read(m2, x) == Read(m1, x))
             && Read(m2, a).next == At(st.lists[cpu], 0) && PageHeld(m2, q)
    ensures var (h', a) := CarvePage(st.heap);
            && Represents(m2, head', h') && PagesHeld(m2, st.pages[a := q])
            && ListsHeld(m2, pagehead[cpu := a], st.lists[cpu := [a] + st.lists[cpu]])
  {
    var (h', a) := CarvePage(st.heap);
    NoNullPage(st);
    PagesUnderHeapStep(m, m1, st, pagehead, 0);
    AddPageInv(st, cpu, 32);
    var st1 := AddPage(st, cpu, 32).0;
    PageTileOf(st1, a);
    forall x | Is(h'.tiles, x, Free) || Is(h'.tiles, x, Huge) ensures Read(m2, x) == Read(m1, x) {
      assert h'.tiles[x].len > 0;
      Apart(h'.tiles, h'.lo, h'.hi, a, x, x);
    }
    RepresentsFrame(m1, m2, head', h');
    forall p | p in st.pages ensures PageHeld(m2, st.pages[p]) { BesideNewPage(m1, m2, st, st1, a, p); }
    NewLists(m1, m2, pagehead, st, st1, cpu, a);
  }

  lemma BesideNewPage(m1: Mem, m2: Mem, st: State, st1: State, a: int, p: int)
    requires Inv(st) && Inv(st1) && p in st.pages && p in st1.pages && a in st1.pages && p != a &&
        PageHeld(m1, st.pages[p])
    requires forall x {:trigger Read(m2, x)} :: !(a <= x < a + PAGE) ==> Read(m2, x) == Read(m1, x)
    ensures PageHeld(m2, st.pages[p])
  {
    PageTileOf(st, p);
    PageTileOf(st1, p);
    PageTileOf(st1, a);
    forall x | p <= x < p + PAGE ensures Read(m2, x) == Read(m1, x) {
      Apart(st1.heap.tiles, st1.heap.lo, st1.heap.hi, a, p, x);
    }
    PageHeldFrame(m1, m2, st.pages[p]);
  }

  lemma NewLists(m1: Mem, m2: Mem, pagehead: seq<int>, st: State, st1: State, cpu: int, a: int)
    requires Inv(st) && Inv(st1) && ListsHeld(m1, pagehead, st.lists) && 0 <= cpu < |st.lists|
    requires st1.lists == st.lists[cpu := [a] + st.lists[cpu]] && a in st1.pages && a !in st.pages
    requires forall p :: p in st.pages ==> p in st1.pages
    requires forall x {:trigger Read(m2, x)} :: !(a <= x < a + PAGE) ==> Read(m2, x) == Read(m1, x)
    requires Read(m2, a).next == At(st.lists[cpu], 0)
    ensures ListsHeld(m2, pagehead[cpu := a], st1.lists)
  {
    PageTileOf(st1, a);
    forall c | 0 <= c < |st.lists| ensures Chain(m2, st.lists[c]) && a !in st.lists[c] {
      forall p | p in st.lists[c] ensures p != a && Read(m2, p).next == Read(m1, p).next {
        ListedPage(st, c, p);
        PageTileOf(st1, p);
        Apart(st1.heap.tiles, st1.heap.lo, st1.heap.hi, a, p, p);
      }
      ChainFrame(m1, m2, st.lists[c]);
    }
    ChainPrepend(m2, st.lists[cpu], a);
  }

  // ---------------------------------------------------------- searching the page lists

  /** What the tests of lines 221 and 274 read off a page header. */
  lemma HeaderTests(m: Mem, st: State, p: int, s: int)
    requires Inv(st) && PagesHeld(m, st.pages) && p in st.pages && ClassOk(s)
    ensures Read(m, p).size == s && Read(m, p).tag > 0 <==> p in Runs.Usable(st, s)
    ensures Read(m, p).size == 0 && Read(m, p).tag > 0 <==> p in Runs.Empties(st)
  {
    PageTileOf(st, p);
    var q := st.pages[p];
    assert PageHeld(m, q);
    IndexZero(Read(m, p).tag, q);
    assert q.empty ==> q.list != [];
  }

  /** Lines 218-226: the first page of the class with room. */
  method FindUsable(m: Mem, start: int, s: int, ghost st: State, ghost c: int) returns (ph: int)
    requires Inv(st) && PagesHeld(m, st.pages) && ClassOk(s) && 0 <= c < |st.lists|
    requires Chain(m, st.lists[c]) && start == At(st.lists[c], 0)
    ensures ph == At(st.lists[c], Runs.First(st.lists[c], Runs.Usable(st, s)))
    ensures ph == 0 <==> Runs.First(st.lists[c], Runs.Usable(st, s)) == |st.lists[c]|
  {
    ghost var list := st.lists[c];
    ghost var i := 0;
    ph := start;
    assert |list| > 0 ==> list[0] in list;
    while ph != 0
      invariant 0 <= i <= |list| && ph == At(list, i) && (ph == 0 <==> i == |list|)
      invariant forall j {:trigger list[j]} :: 0 <= j < i ==> list[j] !in Runs.Usable(st, s)
      decreases |list| - i
    {
      assert list[i] in list;
      ListedPage(st, c, ph);
      HeaderTests(m, st, ph, s);
      if Read(m, ph).size == s && Read(m, ph).tag > 0 {
        break;
      }
      assert Read(m, list[i]).next == At(list, i + 1);
      assert i + 1 < |list| ==> list[i + 1] in list;
      ph, i := Read(m, ph).next, i + 1;
    }
    FirstIs(list, Runs.Usable(st, s), i);
  }

  lemma FirstIs(list: seq<int>, good: set<int>, i: nat)
    requires Runs.IsFirst(list, good, i)
    ensures Runs.First(list, good) == i
  {
  }

  /** Lines 271-280: the first page that may be re-typed. */
  method FindEmpty(m: Mem, start: int, ghost st: State, ghost c: int) returns (ph: int)
    requires Inv(st) && PagesHeld(m, st.pages) && 0 <= c < |st.lists|
    requires Chain(m, st.lists[c]) && start == At(st.lists[c], 0)
    ensures ph == At(st.lists[c], Runs.First(st.lists[c], Runs.Empties(st)))
    ensures ph == 0 <==> Runs.First(st.lists[c], Runs.Empties(st)) == |st.lists[c]|
  {
    ghost var list := st.lists[c];
    ghost var i := 0;
    ph := start;
    assert |list| > 0 ==> list[0] in list;
    while ph != 0
      invariant 0 <= i <= |list| && ph == At(list, i) && (ph == 0 <==> i == |list|)
      invariant forall j {:trigger list[j]} :: 0 <= j < i ==> list[j] !in Runs.Empties(st)
      decreases |list| - i
    {
      assert list[i] in list;
      ListedPage(st, c, ph);
      HeaderTests(m, st, ph, 32);
      if Read(m, ph).size == 0 && Read(m, ph).tag > 0 {
        break;
      }
      assert Read(m, list[i]).next == At(list, i + 1);
      assert i + 1 < |list| ==> list[i + 1] in list;
      ph, i := Read(m, ph).next, i + 1;
    }
    FirstIs(list, Runs.Empties(st), i);
  }

  /** Lines 315-333: the page, on any CPU's list, that contains the address. */
  method FindOwner(m: Mem, pagehead: seq<int>, ptr: int, ghost st: State) returns (ph: int)
    requires Inv(st) && ListsHeld(m, pagehead, st.lists) && ptr in st.live
    ensures ph == st.live[ptr].page
  {
    ghost var home := st.live[ptr].page;
    NoNullPage(st);
    HomeListed(st, ptr);
    ph := 0;
    var c := 0;
    while c < |pagehead|
      invariant 0 <= c <= |pagehead|
      invariant home != 0 ==> c <= st.cpuOf[home]
    {
      ph := ScanList(m, pagehead[c], ptr, st, c);
      if ph != 0 {
        return;
      }
      c := c + 1;
    }
    ph := 0;
  }

  lemma HomeListed(st: State, x: int)
    requires Inv(st) && x in st.live
    ensures var home := st.live[x].page;
            home != 0 ==>
              home in st.pages && home in st.cpuOf && 0 <= st.cpuOf[home] < |st.lists| &&
              home in st.lists[st.cpuOf[home]]
  {
    assert BlockSound(x, st.live[x], st.heap.tiles, st.pages);
  }

  /** The inner loop of the scan, lines 319-328. */
  method ScanList(m: Mem, start: int, ptr: int, ghost st: State, ghost c: int) returns (ph: int)
    requires Inv(st) && 0 <= c < |st.lists| && Chain(m, st.lists[c]) && start == At(st.lists[c], 0) && ptr in st.live
    ensures ph != 0 ==> ph == st.live[ptr].page
    ensures st.live[ptr].page in st.lists[c] ==> ph == st.live[ptr].page
  {
    ghost var list := st.lists[c];
    ghost var i := 0;
    ph := start;
    assert |list| > 0 ==> list[0] in list;
    while ph != 0
      invariant 0 <= i <= |list| && ph == At(list, i) && (ph == 0 <==> i == |list|)
      invariant forall j {:trigger list[j]} :: 0 <= j < i ==> list[j] != st.live[ptr].page
      decreases |list| - i
    {
      assert list[i] in list;
      ListedPage(st, c, ph);
      DispatchExact(st, ptr, ph);
      if ph < ptr && ptr < ph + PAGE {
        return;
      }
      assert Read(m, list[i]).next == At(list, i + 1);
      assert i + 1 < |list| ==> list[i + 1] in list;
      ph, i := Read(m, ph).next, i + 1;
    }
  }

  // ---------------------------------------------------------- kalloc

  /** Lines 182-186 and 193-197. */
  method RoundUp(req: int) returns (s: int)
    ensures s == Runs.SizeClass(req)
  {
    s := 32;
    while s < req
      invariant s > 0 && Runs.ClassFrom(s, req) == Runs.SizeClass(req)
      decreases req - s
    {
      s := s * 2;
    }
  }

  /** Lines 202-216: the first page of a CPU.  The assertion of line 206 fails when there is none to be had. */
  method FirstPage(m: Mem, head: int, pagehead: seq<int>, cpu: int, s: int, ghost st: State)
    returns (m': Mem, head': int, pagehead': seq<int>, page: int, ghost st': State)
    requires Inv(st) && Holds(m, head, pagehead, st) && 0 <= cpu < |st.lists| && ClassOk(s) && st.lists[cpu] == []
    ensures (st', page) == AddPage(st, cpu, s)
    ensures page != 0 ==> Holds(m', head', pagehead', st')
  {
    st' := AddPage(st, cpu, s).0;
    ghost var h';
    m', head', page, h' := AllocKPage(m, head, st.heap);
    pagehead' := pagehead[cpu := page];
    if page != 0 {
      ghost var m1 := m';
      AddPageInv(st, cpu, s);
      PageTileOf(st', page);
      assert h'.lo <= page;
      m' := InitPage(m', page, s);
      AddedHeld(m, m1, m', head, head', pagehead, st, cpu, Fresh(page, s));
    }
  }

  /** Lines 229-260 on the page the search found. */
  method FastPath(m: Mem, head: int, pagehead: seq<int>, ph: int, s: int, ghost st: State)
    returns (m': Mem, ret: int, ghost st': State)
    requires Inv(st) && Holds(m, head, pagehead, st) && ClassOk(s) && ph in Runs.Usable(st, s)
    ensures HasRoom(st, ph) && (st', ret) == TakeFrom(st, ph)
    ensures Holds(m', head, pagehead, st') && Zeroed(m', ret, s)
  {
    PageTileOf(st, ph);
    HeaderTests(m, st, ph, s);
    ghost var p := st.pages[ph];
    assert PageHeld(m, p);
    ghost var p';
    m', ret, p' := AllocInPage(m, ph, s, p);
    TakeLive(p);
    st' := TakeFrom(st, ph).0;
    RestUnderPageStep(m, m', head, pagehead, st, p');
  }

  /** Lines 274-276 and 297-306: an empty page takes the new class. */
  method ReusePage(m: Mem, head: int, pagehead: seq<int>, ph: int, s: int, ghost st: State)
    returns (m': Mem, ret: int, ghost st': State)
    requires Inv(st) && Holds(m, head, pagehead, st) && ClassOk(s) && ph in Runs.Empties(st)
    ensures Inv(Retype(st, ph, s)) && HasRoom(Retype(st, ph, s), ph) && (st', ret) == TakeFrom(Retype(st, ph, s), ph)
    ensures Holds(m', head, pagehead, st') && Zeroed(m', ret, s)
  {
    EmptyIndex(m, st, ph);
    RetypeTake(st, ph, s);
    m' := SetSize(m, ph, s);
    m', ret := StartPage(m', ph, s);
    RestartedPage(ph, s);
    RestUnderPageStep(m, m', head, pagehead, st, Take(Fresh(ph, s)).0);
    st' := RestartedState(st, ph, s);
  }

  lemma RetypeTake(st: State, ph: int, s: int)
    requires Inv(st) && ph in st.pages && st.pages[ph].empty && ClassOk(s) && 0 < ph
    ensures Inv(Retype(st, ph, s)) && HasRoom(Retype(st, ph, s), ph)
    ensures PageSound(Fresh(ph, s)) && Fresh(ph, s).list != []
    ensures TakeFrom(Retype(st, ph, s), ph) == (RestartedState(st, ph, s), Take(Fresh(ph, s)).1)
  {
    RetypeInv(st, ph, s);
    RestartedPage(ph, s);
    TakeOf(Retype(st, ph, s), ph, Fresh(ph, s));
    PutTwice(st.pages, ph, Fresh(ph, s), Take(Fresh(ph, s)).0);
    assert Take(Fresh(ph, s)).0.cls == s;
  }

  lemma PutTwice(pages: map<int, SizedPage>, ph: int, p: SizedPage, q: SizedPage)
    ensures pages[ph := p][ph := q] == pages[ph := q]
  {
  }

  /** What taking a block from page q does to the state. */
  lemma TakeOf(st: State, ph: int, q: SizedPage)
    requires Inv(st) && HasRoom(st, ph) && st.pages[ph] == q
    ensures PageSound(q) && q.list != []
    ensures var (p, a) := Take(q);
            TakeFrom(st, ph) == (st.(pages := st.pages[ph := p], live := st.live[a := Block(p.cls, ph)]), a)
  {
  }

  /** An empty page still has its index at 1. */
  lemma EmptyIndex(m: Mem, st: State, ph: int)
    requires Inv(st) && PagesHeld(m, st.pages) && ph in Runs.Empties(st)
    ensures Read(m, ph).tag == 1 && 0 < ph && ph in st.pages && st.pages[ph].empty
  {
    PageTileOf(st, ph);
    var p := st.pages[ph];
    assert PageHeld(m, p);
    EmptyPageIsReusable(p);
    ClassFacts(p.cls);
    TagOne(Read(m, ph).tag, p.cls);
  }

  /** A page started afresh, with block 1 handed out. */
  ghost function RestartedState(st: State, ph: int, s: int): State
    requires 0 < ph && ClassOk(s)
  {
    RestartedPage(ph, s);
    var (p, a) := Take(Fresh(ph, s));
    st.(pages := st.pages[ph := p], live := st.live[a := Block(s, ph)])
  }

  /** Lines 286-288 and 297-304: the page is linked to `next`, initialised and used. */
  method UseNewPage(m: Mem, page: int, next: int, s: int) returns (m': Mem, ret: int)
    requires 0 < page && ClassOk(s)
    ensures forall x {:trigger Read(m', x)} :: !(page <= x < page + PAGE) ==> Read(m', x) == Read(m, x)
    ensures Read(m', page).next == next && PageSound(Fresh(page, s)) && Fresh(page, s).list != []
    ensures PageHeld(m', Take(Fresh(page, s)).0) && ret == Take(Fresh(page, s)).1 && Zeroed(m', ret, s)
  {
    m' := SetTag(SetSize(SetNext(m, page, next), page, s), page, 1);
    m', ret := StartPage(m', page, s);
  }

  /** The page that AddPage adds, where the code can write to it. */
  lemma CarvedPage(st: State, cpu: int, s: int)
    requires Inv(st) && 0 <= cpu < |st.lists| && ClassOk(s) && CarvePage(st.heap).1 != 0
    ensures var (st1, a) := AddPage(st, cpu, s); Inv(st1) && HasRoom(st1, a) && a == CarvePage(st.heap).1 && a > 0
  {
    AddPageInv(st, cpu, s);
    var (st1, a) := AddPage(st, cpu, s);
    PageTileOf(st1, a);
    assert st1.heap.lo <= a;
  }

  /** Lines 283-306: a page from the heap, linked in front of the list and used at once. */
  method NewPage(m: Mem, head: int, pagehead: seq<int>, cpu: int, s: int, ghost st: State)
    returns (m': Mem, head': int, pagehead': seq<int>, ret: int, ghost st': State)
    requires Inv(st) && Holds(m, head, pagehead, st) && 0 <= cpu < |st.lists| && ClassOk(s)
    ensures var (st1, a) := AddPage(st, cpu, s);
            if a == 0 then st' == st && ret == 0 else Inv(st1) && HasRoom(st1, a) && (st', ret) == TakeFrom(st1, a)
    ensures Holds(m', head', pagehead', st') && (ret != 0 ==> Zeroed(m', ret, s))
  {
    ghost var h';
    var page;
    m', head', page, h' := AllocKPage(m, head, st.heap);
    pagehead', ret, st' := pagehead, 0, st;
    AddPageInv(st, cpu, s);
    NoNullPage(st);
    if page != 0 {
      ghost var m1 := m';
      CarvedPage(st, cpu, s);
      m', ret := UseNewPage(m', page, pagehead[cpu], s);
      pagehead' := pagehead[cpu := page];
      st' := TakeFrom(AddPage(st, cpu, s).0, page).0;
      NewPageHeld(m, m1, m', head, head', pagehead, st, cpu, s);
    } else {
      PagesUnderHeapStep(m, m', st, pagehead, 0);
    }
  }

  lemma NewPageHeld(m: Mem, m1: Mem, m2: Mem, head: int, head': int, pagehead: seq<int>, st: State, cpu: int, s: int)
    requires Inv(st) && Holds(m, head, pagehead, st) && 0 <= cpu < |st.lists| && ClassOk(s)
    requires var (h', a) := CarvePage(st.heap);
             && a > 0
             && KeptOutside(m, m1, st.heap.tiles, 0) && Represents(m1, head', h')
             && (forall x {:trigger Read(m2, x)} :: !(a <= x < a + PAGE) ==> Read(m2, x) == Read(m1, x))
             && Read(m2, a).next == At(st.lists[cpu], 0)
             && PageSound(Fresh(a, s)) && Fresh(a, s).list != [] && PageHeld(m2, Take(Fresh(a, s)).0)
    ensures var (st1, a) := AddPage(st, cpu, s);
            && Inv(st1) && HasRoom(st1, a)
            && Holds(m2, head', pagehead[cpu := a], TakeFrom(st1, a).0) && TakeFrom(st1, a).1 == Take(Fresh(a, s)).1
  {
    var a := CarvePage(st.heap).1;
    AddPageInv(st, cpu, s);
    RestartedPage(a, s);
    AddedHeld(m, m1, m2, head, head', pagehead, st, cpu, Take(Fresh(a, s)).0);
    var st1 := AddPage(st, cpu, s).0;
    TakeOf(st1, a, Fresh(a, s));
    PutTwice(st.pages, a, Fresh(a, s), Take(Fresh(a, s)).0);
  }

  /** Lines 217-307. */
  method SmallPath(m: Mem, head: int, pagehead: seq<int>, cpu: int, s: int, ghost st: State)
    returns (m': Mem, head': int, pagehead': seq<int>, ret: int, ghost st': State)
    requires Inv(st) && Holds(m, head, pagehead, st) && 0 <= cpu < |st.lists| && ClassOk(s)
    ensures (st', ret) == Runs.AllocSmall(st, cpu, s)
    ensures Holds(m', head', pagehead', st') && (ret != 0 ==> Zeroed(m', ret, s))
  {
    m', head', pagehead' := m, head, pagehead;
    var ph := FindUsable(m, pagehead[cpu], s, st, cpu);
    if ph != 0 {
      m', ret, st' := FastPath(m, head, pagehead, ph, s, st);
    } else {
      ph := FindEmpty(m, pagehead[cpu], st, cpu);
      if ph != 0 {
        m', ret, st' := ReusePage(m, head, pagehead, ph, s, st);
      } else {
        m', head', pagehead', ret, st' := NewPage(m, head, pagehead, cpu, s, st);
      }
    }
  }

  /** What a huge request does when the node chosen has no room for the header: the tail of the node is
      handed out all the same, and memory represents no heap in which it is a huge block. */
  ghost predicate NoRoom(m: Mem, m': Mem, head: int, st: State, s: int, ptr: int)
    requires Inv(st)
  {
    var a := HugeNode(st.heap, s);
    && a != 0 && ptr == End(st.heap.tiles, a) - s && m' == HugeWrites(m, a, s)
    && forall h' :: !HugeOutcome(m', head, st.heap.lo, st.heap.hi, ptr, s, h')
  }

  /** Lines 178-190: a request above SMALL. */
  method HugeRequest(m: Mem, head: int, pagehead: seq<int>, size: int, ghost st: State)
    returns (m': Mem, ptr: int, ghost st': State)
    requires Inv(st) && Holds(m, head, pagehead, st) && Runs.SMALL < size <= Runs.LARGE
    ensures HugeFits(st.heap, Runs.SizeClass(size)) ==>
              (st', ptr) == AllocHuge(st, Runs.SizeClass(size)) && Inv(st') && Holds(m', head, pagehead, st')
    ensures !HugeFits(st.heap, Runs.SizeClass(size)) ==> NoRoom(m, m', head, st, Runs.SizeClass(size), ptr)
  {
    var s := RoundUp(size);
    Runs.ClassMultiple(32, size);
    ghost var h';
    m', ptr, h' := KallocHuge(m, head, s, st.heap);
    st' := st;
    if HugeFits(st.heap, s) {
      NoNullPage(st);
      PagesUnderHeapStep(m, m', st, pagehead, 0);
      AllocHugeInv(st, s);
      st' := AllocHuge(st, s).0;
    } else {
      forall h' ensures !HugeOutcome(m', head, st.heap.lo, st.heap.hi, ptr, s, h') {
        if HugeOutcome(m', head, st.heap.lo, st.heap.hi, ptr, s, h') { RoomFollows(m, head, s, st.heap, h'); }
      }
    }
  }

  /** Lines 200-307: a request up to SMALL; `halted` stands for the failing assertion of line 206. */
  method SmallRequest(m: Mem, head: int, pagehead: seq<int>, cpu: nat, size: int, ghost st: State)
    returns (halted: bool, m': Mem, head': int, pagehead': seq<int>, ptr: int, ghost st': State)
    requires Inv(st) && Holds(m, head, pagehead, st) && cpu < |pagehead| && size <= Runs.SMALL
    ensures match Runs.Kalloc(st, cpu, size)
            case Halted => halted
            case Done(after, x) => !halted && Inv(st') && Holds(m', head', pagehead', st') && st' == after && ptr == x
    ensures !halted && ptr != 0 ==> Zeroed(m', ptr, Runs.SizeClass(size))
  {
    halted, m', head', pagehead', ptr, st' := false, m, head, pagehead, 0, st;
    var s := RoundUp(size);
    Runs.SmallClass(size);
    Runs.KallocInv(st, cpu, size);
    if pagehead[cpu] == 0 {
      EmptyList(m, pagehead, st, cpu);
      var page;
      m', head', pagehead', page, st' := FirstPage(m, head, pagehead, cpu, s, st);
      if page == 0 { return true, m', head', pagehead', 0, st'; }
      AddPageInv(st, cpu, s);
    }
    m', head', pagehead', ptr, st' := SmallPath(m', head', pagehead', cpu, s, st');
  }

  /** What `kfree` of a small block writes, whether the page has room or is full. */
  ghost predicate Freeing(m: Mem, m': Mem, st: State, ptr: int)
    requires Inv(st) && ptr in st.live && st.live[ptr].page != 0
  {
    FreeSmallInv(st, ptr);
    var ph := st.live[ptr].page;
    WalkOf(st, ph) != [] && 0 !in WalkOf(st, ph) && m' == FreedMemory(m, st.pages[ph], ptr, WalkOf(st, ph))
  }

  /** Lines 333-416: a block of page ph. */
  method FreeSmallPath(m: Mem, head: int, pagehead: seq<int>, ph: int, ptr: int, ghost st: State)
    returns (m': Mem, ghost st': State)
    requires Inv(st) && Holds(m, head, pagehead, st) && ptr in st.live && st.live[ptr].page == ph && ph != 0
    ensures Freeing(m, m', st, ptr)
    ensures SomeOutcome(m', ph, ptr) <==> Runs.RoomGuard(st, ptr)
    ensures Runs.RoomGuard(st, ptr) ==> Inv(st') && Holds(m', head, pagehead, st') && st' == Runs.Kfree(st, ptr)
  {
    FreeSmallInv(st, ptr);
    PageTileOf(st, ph);
    WalkHeld(m, pagehead, st, ph);
    ghost var p := st.pages[ph];
    assert PageHeld(m, p);
    IndexZero(Read(m, ph).tag, p);
    m' := FreeInPage(m, ph, ptr, p, WalkOf(st, ph));
    st' := st;
    if p.list != [] {
      RestUnderPageStep(m, m', head, pagehead, st, GiveBack(p, ptr));
      st' := FreeSmallBlock(st, ptr, ph);
    }
  }

  /** Lines 417-489: a huge block. */
  method FreeHugePath(m: Mem, head: int, pagehead: seq<int>, ptr: int, ghost st: State)
    returns (m': Mem, head': int, ghost st': State)
    requires Inv(st) && Holds(m, head, pagehead, st) && ptr in st.live && st.live[ptr].page == 0
    ensures Inv(st') && Holds(m', head', pagehead, st') && st' == Runs.Kfree(st, ptr)
  {
    FreeHugeInv(st, ptr);
    NoNullPage(st);
    ghost var h';
    m', head', h' := FreeHuge(m, head, ptr, st.heap);
    PagesUnderHeapStep(m, m', st, pagehead, ptr - HEADER);
    st' := FreeHugeBlock(st, ptr);
  }

  // ---------------------------------------------------------- the module's state

  /** The globals of pmm.c.  Calls run one at a time here; LockProtocol treats their interleaving. */
  class Pmm {
    var mem: Mem
    var head: int
    var pagehead: seq<int>
    ghost var st: State

    ghost predicate Valid()
      reads this
    {
      Inv(st) && Holds(mem, head, pagehead, st)
    }

    /** `pmm_init`, lines 493-508, whatever memory held before.  Line 499 stores the size of the
        heap in an int. */
    constructor (m: Mem, lo: int, hi: int, ncpu: nat)
      requires 0 < lo < hi && lo % 16 == 0 && hi % 16 == 0
      ensures mem == InitWrites(m, lo, hi) && head == lo
      ensures hi - lo < INT_LIMIT ==> Valid() && st == Runs.Initial(lo, hi, ncpu)
    {
      mem := SetNext(SetSize(m, lo, AsInt(hi - lo)), lo, 0);
      head := lo;
      pagehead := seq(ncpu, _ => 0);
      st := Runs.Initial(lo, hi, ncpu);
      new;
      if hi - lo < INT_LIMIT {
        Runs.InitialInv(lo, hi, ncpu);
        InitialHeld(m, lo, hi, ncpu);
      }
    }

    /** `kalloc`, lines 174-308, on CPU `cpu`.  `halted` stands for the failing assertion of
        line 206.  Under FitsGuard the call is the transition of the model. */
    method Kalloc(cpu: nat, size: int) returns (halted: bool, ptr: int)
      requires Valid() && cpu < |pagehead|
      modifies this
      ensures Runs.FitsGuard(old(st), size) ==>
        match Runs.Kalloc(old(st), cpu, size)
        case Halted => halted
        case Done(st', x) => !halted && Valid() && st == st' && ptr == x
      ensures !Runs.FitsGuard(old(st), size) ==>
        !halted && head == old(head) && NoRoom(old(mem), mem, head, old(st), Runs.SizeClass(size), ptr)
      ensures size <= 16384 && !halted && ptr != 0 ==> Zeroed(mem, ptr, Runs.SizeClass(size))
    {
      halted, ptr := false, 0;
      if size > Runs.SMALL {
        if size > Runs.LARGE {
          return;
        }
        mem, ptr, st := HugeRequest(mem, head, pagehead, size, st);
      } else {
        halted, mem, head, pagehead, ptr, st := SmallRequest(mem, head, pagehead, cpu, size, st);
      }
    }

    /** `kfree`, lines 310-490, of a block the client holds.  Under RoomGuard the call is the
        transition of the model; without it no sound page is left behind. */
    method Kfree(ptr: int)
      requires Valid() && ptr in st.live
      modifies this
      ensures Runs.RoomGuard(old(st), ptr) ==> Valid() && st == Runs.Kfree(old(st), ptr)
      ensures var page := old(st).live[ptr].page;
              page != 0 ==>
                Freeing(old(mem), mem, old(st), ptr) && (SomeOutcome(mem, page, ptr) <==> Runs.RoomGuard(old(st), ptr))
    {
      var ph := FindOwner(mem, pagehead, ptr, st);
      if ph != 0 {
        mem, st := FreeSmallPath(mem, head, pagehead, ph, ptr, st);
      } else {
        mem, head, st := FreeHugePath(mem, head, pagehead, ptr, st);
      }
    }
  }

  /** Lines 497-500: memory after `pmm_init`. */
  function InitWrites(m: Mem, lo: int, hi: int): Mem {
    SetNext(SetSize(m, lo, AsInt(hi - lo)), lo, 0)
  }

  lemma InitialHeld(m: Mem, lo: int, hi: int, ncpu: nat)
    requires 0 < lo < hi && hi - lo < INT_LIMIT
    ensures Holds(InitWrites(m, lo, hi), lo, seq(ncpu, _ => 0), Runs.Initial(lo, hi, ncpu))
  {
    assert Distinct([lo]);
    assert Chain(InitWrites(m, lo, hi), []);
  }

  /** pmm.c:499: after `pmm_init` memory holds the heap as one free node exactly when the size of
      the heap is an int. */
  lemma InitHoldsIffInt(m: Mem, lo: int, hi: int)
    requires 0 < lo < hi
    ensures Represents(InitWrites(m, lo, hi), lo, Runs.Initial(lo, hi, 0).heap) <==> hi - lo < INT_LIMIT
  {
    var h, m' := Runs.Initial(lo, hi, 0).heap, InitWrites(m, lo, hi);
    assert Is(h.tiles, lo, Free) && Read(m', lo).size == AsInt(hi - lo);
    if hi - lo < INT_LIMIT { InitialHeld(m, lo, hi, 0); }
  }

  /** On a heap of 2 GiB and less than 4 GiB the stored size is negative.  The search of lines 81-92
      finds no page, so that the assertion of line 206 stops the machine.  The search of lines 145-157
      compares as size_t and finds the node; the address of line 160 is 4 GiB too low, and lies in
      front of the heap where pointers have 64 bits. */
  method TooLargeHeap(m: Mem, lo: int, hi: int, size: int) returns (page: int, huge: int, ret: int)
    requires 0 < lo && INT_LIMIT <= hi - lo < 2 * INT_LIMIT && 0 < size <= Runs.LARGE
    ensures page == 0 && huge == lo && ret == hi - size - 2 * INT_LIMIT < lo
  {
    var m1 := InitWrites(m, lo, hi);
    assert Distinct([lo]);
    assert Chain(m1, [lo]);
    assert [lo][0] == lo;
    var pre;
    ghost var i;
    page, pre, i := FindPage(m1, lo, [lo]);
    huge := FindHighest(m1, lo, size, [lo]);
    assert lo in [lo];
    var m2;
    m2, ret := TakeTail(m1, huge, size);
  }

  lemma EmptyList(m: Mem, pagehead: seq<int>, st: State, cpu: nat)
    requires ListsHeld(m, pagehead, st.lists) && cpu < |pagehead| && pagehead[cpu] == 0
    ensures st.lists[cpu] == []
  {
    assert Chain(m, st.lists[cpu]);
    ListMembers(st.lists[cpu]);
  }

  /** The chain `kfree` walks in page ph. */
  ghost function WalkOf(st: State, ph: int): seq<int>
    requires Inv(st) && ph in st.pages
  {
    assert ph in st.cpuOf;
    var list := st.lists[st.cpuOf[ph]];
    if st.pages[ph].list != [] then st.pages[ph].list else list[IndexOf(list, ph)..]
  }

  lemma WalkHeld(m: Mem, pagehead: seq<int>, st: State, ph: int)
    requires Inv(st) && ListsHeld(m, pagehead, st.lists) && ph in st.pages
    ensures WalkFrom(m, st.pages[ph], WalkOf(st, ph))
  {
    assert ph in st.cpuOf;
    PageTileOf(st, ph);
    if st.pages[ph].list == [] {
      var c := st.cpuOf[ph];
      var list := st.lists[c];
      assert Chain(m, list);
      ChainSuffix(m, list, IndexOf(list, ph));
      forall q | q in list[IndexOf(list, ph)..] ensures q == ph || q + PAGE <= ph || ph + PAGE <= q {
        assert q in list;
        ListedPage(st, c, q);
        PageTileOf(st, q);
        if q != ph {
          Apart(st.heap.tiles, st.heap.lo, st.heap.hi, ph, q, q);
          Apart(st.heap.tiles, st.heap.lo, st.heap.hi, q, ph, ph);
        }
      }
    }
  }
}
