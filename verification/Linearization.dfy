/** The calls of ConcurrentAllocator take effect one at a time: whatever the interleaving, heap,
    pages and live blocks are those of a run of AllocatorRuns made of the same calls.  A small
    request takes effect when it is clear which page serves it: when the call begins if a page of
    the CPU has room, else when the new page is carved. */
module Linearization {
  import L = LockProtocol
  import R = AllocatorRuns
  import opened Memory
  import opened Tilings
  import opened HeapModel
  import opened PageModel
  import opened Allocator
  import opened ConcurrentAllocator

  // ---------------------------------------------------------- blocks already promised

  /** A page after it has given out the next block of class s, re-typed first if it was empty. */
  ghost function Taken(p: SizedPage, s: int): SizedPage {
    var q := if p.empty then Fresh(p.base, s) else p;
    if PageSound(q) && q.list != [] then Take(q).0 else q
  }

  function FirstBlock(p: SizedPage, s: int): int {
    if p.empty then p.base + s else if p.list != [] then p.list[0] else 0
  }

  /** The page can give out a block of class s. */
  predicate Fillable(p: SizedPage, s: int) {
    ClassOk(s) && (p.empty || (p.list != [] && p.cls == s))
  }

  lemma FillIs(st: State, page: int, s: int)
    requires Inv(st) && page in st.pages && Fillable(st.pages[page], s)
    ensures st.pages[page].empty || Serves(st, page, s)
    ensures FillPage(st, page, s) ==
        (st.(pages := st.pages[page := Taken(st.pages[page], s)],
             live := st.live[FirstBlock(st.pages[page], s) := Block(s, page)]), FirstBlock(st.pages[page], s))
  {
    var p := st.pages[page];
    assert PageSound(p) && p.base == page;
    if p.empty {
      RetypeInv(st, page, s);
      FreshSound(page, s);
      TakeIs(Retype(st, page, s), page);
      PutAgain(st.pages, page, Fresh(page, s), Take(Fresh(page, s)).0);
    } else {
      TakeIs(st, page);
    }
  }

  lemma TakeIs(st: State, page: int)
    requires Inv(st) && HasRoom(st, page)
    ensures PageSound(st.pages[page])
    ensures var (p, x) := Take(st.pages[page]);
            && x == st.pages[page].list[0] && p.cls == st.pages[page].cls
            && TakeFrom(st, page) == (st.(pages := st.pages[page := p], live := st.live[x := Block(p.cls, page)]), x)
  {
  }

  lemma PutAgain(pages: map<int, SizedPage>, a: int, p: SizedPage, q: SizedPage)
    ensures pages[a := p][a := q] == pages[a := q]
  {
  }

  /** Each CPU's aim is the page from which it is about to take a block, NULL if it has none. */
  ghost predicate AimsOk(pages: map<int, SizedPage>, cpuOf: map<int, int>, aims: seq<int>, sizes: seq<int>) {
    && |aims| == |sizes| && 0 !in pages
    && forall c {:trigger aims[c]} :: 0 <= c < |aims| && aims[c] != 0 ==>
         aims[c] in pages && aims[c] in cpuOf && cpuOf[aims[c]] == c && Fillable(pages[aims[c]], sizes[c])
  }

  /** The pages as they will be. */
  ghost predicate PagesAhead(pages: map<int, SizedPage>, aims: seq<int>, sizes: seq<int>, ahead: map<int, SizedPage>)
    requires |aims| == |sizes|
  {
    && ahead.Keys == pages.Keys
    && (forall c {:trigger aims[c]} :: 0 <= c < |aims| && aims[c] in pages ==>
          ahead[aims[c]] == Taken(pages[aims[c]], sizes[c]))
    && (forall p {:trigger ahead[p]} :: p in pages && p !in aims ==> ahead[p] == pages[p])
  }

  /** The block CPU c is about to take. */
  function NewBlock(pages: map<int, SizedPage>, aims: seq<int>, sizes: seq<int>, c: int): int
    requires 0 <= c < |aims| == |sizes|
  {
    if aims[c] in pages then FirstBlock(pages[aims[c]], sizes[c]) else 0
  }

  ghost predicate Promised(pages: map<int, SizedPage>, aims: seq<int>, sizes: seq<int>, c: int, x: int)
    requires |aims| == |sizes|
  {
    0 <= c < |aims| && aims[c] in pages && x == NewBlock(pages, aims, sizes, c)
  }

  ghost predicate LiveAhead(live: map<int, Block>, pages: map<int, SizedPage>, aims: seq<int>, sizes: seq<int>,
      ahead: map<int, Block>)
    requires |aims| == |sizes|
  {
    && (forall x {:trigger ahead[x]} {:trigger x in live} :: x in live ==> x in ahead && ahead[x] == live[x])
    && (forall c, x {:trigger Promised(pages, aims, sizes, c, x)} :: Promised(pages, aims, sizes, c, x) ==>
          x !in live && x in ahead && ahead[x] == Block(sizes[c], aims[c]))
    && (forall x {:trigger ahead[x]} {:trigger x in ahead} :: x in ahead && x !in live ==>
          exists c :: Promised(pages, aims, sizes, c, x))
  }

  /** a is st with every block taken that some CPU is about to take. */
  ghost predicate Ahead(st: State, aims: seq<int>, sizes: seq<int>, a: State) {
    match st
    case State(heap, pages, lists, cpuOf, live, dropped) =>
      && a.heap == heap && a.lists == lists && a.cpuOf == cpuOf && a.dropped == dropped
      && |aims| == |lists| && AimsOk(pages, cpuOf, aims, sizes)
      && PagesAhead(pages, aims, sizes, a.pages) && LiveAhead(live, pages, aims, sizes, a.live)
  }

  ghost predicate NoAims(aims: seq<int>) {
    forall c {:trigger aims[c]} :: 0 <= c < |aims| ==> aims[c] == 0
  }

  /** With nothing promised the two are the same. */
  lemma NothingAhead(st: State, aims: seq<int>, sizes: seq<int>, a: State)
    requires Ahead(st, aims, sizes, a) && NoAims(aims)
    ensures a == st
  {
    forall p | p in st.pages ensures a.pages[p] == st.pages[p] { assert p !in aims; }
    assert a.pages == st.pages;
    forall x | x in a.live ensures x in st.live {
      if x !in st.live {
        var c :| Promised(st.pages, aims, sizes, c, x);
      }
    }
    forall x | x in st.live ensures x in a.live && a.live[x] == st.live[x] {}
    assert a.live.Keys == st.live.Keys;
    assert a.live == st.live;
  }

  lemma SameIfNone(st: State, aims: seq<int>, sizes: seq<int>)
    requires |aims| == |sizes| == |st.lists| && NoAims(aims) && 0 !in st.pages
    ensures Ahead(st, aims, sizes, st)
  {
    forall p | p in st.pages ensures p !in aims {}
  }

  // ---------------------------------------------------------- a CPU decides, and takes

  /** Different CPUs aim at different pages. */
  lemma AimsDiffer(pages: map<int, SizedPage>, cpuOf: map<int, int>, aims: seq<int>, sizes: seq<int>, c: nat, d: nat)
    requires AimsOk(pages, cpuOf, aims, sizes) && c < |aims| && d < |aims| && c != d && aims[c] != 0
    ensures aims[d] != aims[c]
  {
  }

  lemma PagesMore(pages: map<int, SizedPage>, cpuOf: map<int, int>, aims: seq<int>, sizes: seq<int>,
      ahead: map<int, SizedPage>, c: nat, p: int)
    requires c < |aims| == |sizes| && aims[c] == 0 && p != 0
    requires AimsOk(pages, cpuOf, aims, sizes) && AimsOk(pages, cpuOf, aims[c := p], sizes)
    requires PagesAhead(pages, aims, sizes, ahead)
    ensures p in pages && ahead[p] == pages[p]
    ensures PagesAhead(pages, aims[c := p], sizes, ahead[p := Taken(pages[p], sizes[c])])
  {
    var more := aims[c := p];
    assert more[c] == p;
    forall d | 0 <= d < |aims| && d != c ensures aims[d] != p {
      AimsDiffer(pages, cpuOf, more, sizes, c, d);
      assert more[d] == aims[d];
    }
    assert p !in aims;
    forall q | q in pages && q in aims ensures q in more {
      var d :| 0 <= d < |aims| && aims[d] == q;
      assert d != c && more[d] == q;
    }
    forall d | 0 <= d < |more| && more[d] in pages
      ensures ahead[p := Taken(pages[p], sizes[c])][more[d]] == Taken(pages[more[d]], sizes[d]) {
      if d != c { assert aims[d] == more[d]; }
    }
  }

  lemma LiveMore(live: map<int, Block>, pages: map<int, SizedPage>, aims: seq<int>, sizes: seq<int>,
      ahead: map<int, Block>, c: nat, p: int, x: int)
    requires c < |aims| == |sizes| && aims[c] == 0 && 0 !in pages && p in pages && x == FirstBlock(pages[p], sizes[c])
    requires LiveAhead(live, pages, aims, sizes, ahead) && x !in ahead
    ensures LiveAhead(live, pages, aims[c := p], sizes, ahead[x := Block(sizes[c], p)])
  {
    var more, after := aims[c := p], ahead[x := Block(sizes[c], p)];
    forall d, y | Promised(pages, more, sizes, d, y)
      ensures y !in live && y in after && after[y] == Block(sizes[d], more[d]) {
      if d != c { assert Promised(pages, aims, sizes, d, y); }
    }
    forall y | y in after && y !in live ensures exists d :: Promised(pages, more, sizes, d, y) {
      if y == x {
        assert Promised(pages, more, sizes, c, y);
      } else {
        assert ahead[y] == after[y];
        var d :| Promised(pages, aims, sizes, d, y);
        assert Promised(pages, more, sizes, d, y);
      }
    }
  }

  /** CPU c decides on a page: seen ahead, it takes the block. */
  lemma AimMore(st: State, aims: seq<int>, sizes: seq<int>, a: State, c: nat, p: int)
    requires Inv(a) && Ahead(st, aims, sizes, a) && c < |aims| && aims[c] == 0
    requires AimsOk(st.pages, st.cpuOf, aims[c := p], sizes) && p != 0
    ensures p in a.pages && p in st.pages && a.pages[p] == st.pages[p] && OwnPage(a, c, p)
    ensures ClassOk(sizes[c]) && (a.pages[p].empty || Serves(a, p, sizes[c]))
    ensures Inv(FillPage(a, p, sizes[c]).0) && Ahead(st, aims[c := p], sizes, FillPage(a, p, sizes[c]).0)
  {
    assert aims[c := p][c] == p;
    PagesMore(st.pages, st.cpuOf, aims, sizes, a.pages, c, p);
    FillIs(a, p, sizes[c]);
    FillInv(a, c, p, sizes[c]);
    LiveMore(st.live, st.pages, aims, sizes, a.live, c, p, FirstBlock(a.pages[p], sizes[c]));
  }

  lemma PagesLess(pages: map<int, SizedPage>, cpuOf: map<int, int>, aims: seq<int>, sizes: seq<int>,
      ahead: map<int, SizedPage>, c: nat)
    requires c < |aims| == |sizes| && aims[c] != 0 && AimsOk(pages, cpuOf, aims, sizes)
    requires PagesAhead(pages, aims, sizes, ahead)
    ensures var after := pages[aims[c] := Taken(pages[aims[c]], sizes[c])];
            PagesAhead(after, aims[c := 0], sizes, ahead) && AimsOk(after, cpuOf, aims[c := 0], sizes)
  {
    var p, less := aims[c], aims[c := 0];
    var after := pages[p := Taken(pages[p], sizes[c])];
    forall d | 0 <= d < |aims| && d != c ensures less[d] == aims[d] && aims[d] != p {
      AimsDiffer(pages, cpuOf, aims, sizes, c, d);
    }
    forall q | q in after && q !in less ensures ahead[q] == after[q] {}
  }

  lemma LiveLess(live: map<int, Block>, pages: map<int, SizedPage>, cpuOf: map<int, int>, aims: seq<int>,
      sizes: seq<int>, ahead: map<int, Block>, c: nat)
    requires c < |aims| == |sizes| && aims[c] != 0 && AimsOk(pages, cpuOf, aims, sizes)
    requires LiveAhead(live, pages, aims, sizes, ahead)
    ensures var x := FirstBlock(pages[aims[c]], sizes[c]);
            LiveAhead(live[x := Block(sizes[c], aims[c])], pages[aims[c] := Taken(pages[aims[c]], sizes[c])],
                      aims[c := 0], sizes, ahead)
  {
    var p, less := aims[c], aims[c := 0];
    var x, after := FirstBlock(pages[p], sizes[c]), pages[p := Taken(pages[p], sizes[c])];
    assert Promised(pages, aims, sizes, c, x);
    forall d, y | Promised(after, less, sizes, d, y)
      ensures y !in live[x := Block(sizes[c], p)] && y in ahead && ahead[y] == Block(sizes[d], less[d]) {
      assert d != c && less[d] == aims[d];
      AimsDiffer(pages, cpuOf, aims, sizes, c, d);
      assert Promised(pages, aims, sizes, d, y);
    }
    forall y | y in ahead && y !in live[x := Block(sizes[c], p)]
      ensures exists d :: Promised(after, less, sizes, d, y)
    {
      var d :| Promised(pages, aims, sizes, d, y);
      assert d != c && less[d] == aims[d];
      AimsDiffer(pages, cpuOf, aims, sizes, c, d);
      assert Promised(after, less, sizes, d, y);
    }
  }

  /** CPU c takes the block: ahead, it has it already. */
  lemma AimDone(st: State, aims: seq<int>, sizes: seq<int>, a: State, c: nat, p: int)
    requires Inv(st) && Ahead(st, aims, sizes, a) && c < |aims| && aims[c] == p != 0
    ensures p in st.pages && ClassOk(sizes[c]) && (st.pages[p].empty || Serves(st, p, sizes[c]))
    ensures Ahead(FillPage(st, p, sizes[c]).0, aims[c := 0], sizes, a)
  {
    FillIs(st, p, sizes[c]);
    PagesLess(st.pages, st.cpuOf, aims, sizes, a.pages, c);
    LiveLess(st.live, st.pages, st.cpuOf, aims, sizes, a.live, c);
  }

  // ---------------------------------------------------------- other changes do not notice what is ahead

  lemma PagesGain(pages: map<int, SizedPage>, cpuOf: map<int, int>, aims: seq<int>, sizes: seq<int>,
      ahead: map<int, SizedPage>, p: int, q: SizedPage, c: int)
    requires |aims| == |sizes| && AimsOk(pages, cpuOf, aims, sizes) && PagesAhead(pages, aims, sizes, ahead)
    requires p !in aims && p != 0 && (p in pages ==> p in cpuOf && cpuOf[p] == c) && (p !in pages ==> p !in cpuOf)
    ensures AimsOk(pages[p := q], cpuOf[p := c], aims, sizes) && PagesAhead(pages[p := q], aims, sizes, ahead[p := q])
  {
    forall d | 0 <= d < |aims| ensures aims[d] != p {}
  }

  lemma LivePages(live: map<int, Block>, pages: map<int, SizedPage>, aims: seq<int>, sizes: seq<int>,
      ahead: map<int, Block>, p: int, q: SizedPage)
    requires |aims| == |sizes| && LiveAhead(live, pages, aims, sizes, ahead) && p !in aims
    ensures LiveAhead(live, pages[p := q], aims, sizes, ahead)
  {
    var after := pages[p := q];
    forall d, y ensures Promised(after, aims, sizes, d, y) <==> Promised(pages, aims, sizes, d, y) {
      if 0 <= d < |aims| { assert aims[d] in aims; }
    }
    forall x | x in ahead && x !in live ensures exists d :: Promised(after, aims, sizes, d, x) {
      var d :| Promised(pages, aims, sizes, d, x);
      assert Promised(after, aims, sizes, d, x);
    }
  }

  /** A page is carved. */
  lemma CarveAhead(st: State, aims: seq<int>, sizes: seq<int>, a: State, c: nat, s: int)
    requires Inv(st) && Inv(a) && Ahead(st, aims, sizes, a) && c < |aims| && ClassOk(s)
    ensures AddPage(a, c, s).1 == AddPage(st, c, s).1
    ensures Ahead(AddPage(st, c, s).0, aims, sizes, AddPage(a, c, s).0)
  {
    var p := AddPage(st, c, s).1;
    AddPageInv(st, c, s);
    if p != 0 {
      NewPageUnaimed(st, aims, sizes, p);
      PagesGain(st.pages, st.cpuOf, aims, sizes, a.pages, p, Fresh(p, s), c);
      LivePages(st.live, st.pages, aims, sizes, a.live, p, Fresh(p, s));
    }
  }

  lemma NewPageUnaimed(st: State, aims: seq<int>, sizes: seq<int>, p: int)
    requires Inv(st) && AimsOk(st.pages, st.cpuOf, aims, sizes) && p !in st.pages && p != 0
    ensures p !in aims && p !in st.cpuOf
  {
    forall d | 0 <= d < |aims| ensures aims[d] != p {}
  }

  lemma LiveGain(live: map<int, Block>, pages: map<int, SizedPage>, aims: seq<int>, sizes: seq<int>,
      ahead: map<int, Block>, x: int, b: Block)
    requires |aims| == |sizes| && LiveAhead(live, pages, aims, sizes, ahead) && x !in ahead
    ensures LiveAhead(live[x := b], pages, aims, sizes, ahead[x := b])
  {
  }

  lemma LiveLoss(live: map<int, Block>, pages: map<int, SizedPage>, aims: seq<int>, sizes: seq<int>,
      ahead: map<int, Block>, x: int)
    requires |aims| == |sizes| && LiveAhead(live, pages, aims, sizes, ahead) && x in live
    ensures x in ahead && ahead[x] == live[x]
    ensures LiveAhead(live - {x}, pages, aims, sizes, ahead - {x})
  {
  }

  /** A huge block is taken. */
  lemma HugeAhead(st: State, aims: seq<int>, sizes: seq<int>, a: State, size: int)
    requires Inv(st) && Inv(a) && Ahead(st, aims, sizes, a) && size > 0 && size % 16 == 0 && HugeFits(st.heap, size)
    ensures Ahead(AllocHuge(st, size).0, aims, sizes, AllocHuge(a, size).0)
    ensures AllocHuge(a, size).1 == AllocHuge(st, size).1
  {
    AllocHugeInv(a, size);
    var x := CarveHuge(st.heap, size).1;
    if x != 0 { LiveGain(st.live, st.pages, aims, sizes, a.live, x, Block(size, 0)); }
  }

  /** A huge block is given back. */
  lemma FreeHugeAhead(st: State, aims: seq<int>, sizes: seq<int>, a: State, x: int)
    requires Inv(st) && Inv(a) && Ahead(st, aims, sizes, a) && x in st.live && st.live[x].page == 0
    ensures x in a.live && a.live[x].page == 0 && Ahead(R.Kfree(st, x), aims, sizes, R.Kfree(a, x))
  {
    FreeHugeInv(st, x);
    LiveLoss(st.live, st.pages, aims, sizes, a.live, x);
    FreeHugeInv(a, x);
  }

  /** A small block is given back to a page nobody aims at. */
  lemma FreeSmallAhead(st: State, aims: seq<int>, sizes: seq<int>, a: State, x: int)
    requires Inv(st) && Inv(a) && Ahead(st, aims, sizes, a) && x in st.live && st.live[x].page != 0
    requires st.live[x].page !in aims
    ensures x in a.live && a.live[x] == st.live[x]
    ensures st.live[x].page in st.pages && st.live[x].page in a.pages &&
        a.pages[st.live[x].page] == st.pages[st.live[x].page]
    ensures Ahead(R.Kfree(st, x), aims, sizes, R.Kfree(a, x))
  {
    var p := st.live[x].page;
    FreeSmallInv(st, x);
    LiveLoss(st.live, st.pages, aims, sizes, a.live, x);
    FreeSmallInv(a, x);
    assert p in st.cpuOf;
    assert a.pages[p] == st.pages[p];
    GiveAhead(st, aims, sizes, a, x, p, GiveBack(st.pages[p], x));
  }

  lemma GiveAhead(st: State, aims: seq<int>, sizes: seq<int>, a: State, x: int, p: int, q: SizedPage)
    requires Ahead(st, aims, sizes, a) && x in st.live && p in st.pages && p in st.cpuOf && p !in aims
    ensures Ahead(st.(pages := st.pages[p := q], live := st.live - {x}), aims, sizes,
                  a.(pages := a.pages[p := q], live := a.live - {x}))
  {
    LiveLoss(st.live, st.pages, aims, sizes, a.live, x);
    PagesGain(st.pages, st.cpuOf, aims, sizes, a.pages, p, q, st.cpuOf[p]);
    assert st.cpuOf[p := st.cpuOf[p]] == st.cpuOf;
    LivePages(st.live - {x}, st.pages, aims, sizes, a.live - {x}, p, q);
  }

  // ---------------------------------------------------------- what a search decides

  lemma FirstSame(list: seq<int>, good: set<int>, good': set<int>)
    requires forall x {:trigger x in list} :: x in list ==> (x in good <==> x in good')
    ensures R.First(list, good) == R.First(list, good')
  {
    var i, k := R.First(list, good), R.First(list, good');
    forall j | 0 <= j < |list| ensures list[j] in good <==> list[j] in good' {
      var x := list[j];
      assert x in list;
    }
  }

  /** The search depends on the CPU's own pages only. */
  lemma SearchSame(st: State, st': State, c: nat, j: Job)
    requires c < |st.lists| && c < |st'.lists| && st'.lists[c] == st.lists[c]
    requires forall p {:trigger p in st.pages} :: p in st.lists[c] ==>
               p in st.pages && p in st'.pages && st'.pages[p] == st.pages[p]
    ensures SearchOf(st', c, j) == SearchOf(st, c, j)
  {
    var list, s := st.lists[c], j.size;
    forall p | p in list
      ensures p in R.Usable(st, s) <==> p in R.Usable(st', s)
      ensures p in R.Empties(st) <==> p in R.Empties(st')
    {
      assert p in st.pages && st'.pages[p] == st.pages[p];
    }
    FirstSame(list, R.Usable(st, s), R.Usable(st', s));
    FirstSame(list, R.Empties(st), R.Empties(st'));
  }

  /** A search finds a page of the CPU's own that can give out a block of the class. */
  lemma SearchFills(st: State, c: nat, j: Job)
    requires Inv(st) && c < |st.lists| && ClassOk(j.size)
    ensures var ch := SearchOf(st, c, j);
            ch.Found? || ch.Reuse? ==>
              && ch.page != 0 && ch.page in st.lists[c] && ch.page in st.pages && OwnPage(st, c, ch.page)
              && Fillable(st.pages[ch.page], j.size)
  {
    var ch := SearchOf(st, c, j);
    if ch.Found? || ch.Reuse? { assert ch.page in st.lists[c] && 0 !in st.lists[c]; }
  }

  /** What kalloc does in the end, by what the search decides. */
  lemma AllocSmallBySearch(st: State, c: nat, j: Job)
    requires Inv(st) && c < |st.lists| && ClassOk(j.size)
    ensures var ch := SearchOf(st, c, j);
            if ch.Found? || ch.Reuse? then
              ch.page in st.pages && (st.pages[ch.page].empty || Serves(st, ch.page, j.size)) &&
                R.AllocSmall(st, c, j.size) == FillPage(st, ch.page, j.size)
            else
              var (st1, p) := AddPage(st, c, j.size);
              if p == 0 then R.AllocSmall(st, c, j.size) == (st, 0)
              else Inv(st1) && HasRoom(st1, p) && R.AllocSmall(st, c, j.size) == TakeFrom(st1, p)
  {
    SearchFills(st, c, j);
    AddPageInv(st, c, j.size);
    var list, i, k := st.lists[c], R.First(st.lists[c], R.Usable(st, j.size)), R.First(st.lists[c], R.Empties(st));
    if i >= |list| && k < |list| { RetypeInv(st, list[k], j.size); }
  }

  // ---------------------------------------------------------- CPUs

  /** CPU state p serves a small request and has not taken the block yet. */
  predicate Small(p: L.Pc) {
    p.CheckHead? || p.InitSpin? || p.InitGot? || p.InitHeapSpin? || p.InitHeapGot? || p.InitHeapHeld? || p.InitStore?
    || p.InitFill? || p.InitUnlock? || p.ListSpin? || p.ListGot? || p.Search? || p.Touch? || p.GrowSpin? || p.GrowGot?
    || p.GrowHeld? || p.GrowLink? || p.GrowStore? || p.Fill?
  }

  /** The CPU is past line 215, or found a page at line 202. */
  predicate HasList(p: L.Pc) {
    p.InitFill? || p.InitUnlock? || p.ListSpin? || p.ListGot? || p.Search? || p.Touch? || p.GrowSpin? || p.GrowGot?
    || p.GrowHeld? || p.GrowLink? || p.GrowStore? || p.Fill?
  }

  ghost function Aim(st: State, c: nat, p: L.Pc, j: Job): int
    requires c < |st.lists|
  {
    var ch := SearchOf(st, c, j);
    if Small(p) && (ch.Found? || ch.Reuse?) then ch.page else 0
  }

  ghost function Aims(w: World): (s: seq<int>)
    requires Shaped(w)
    ensures |s| == |w.jobs|
  {
    seq(|w.jobs|, c requires 0 <= c < |w.jobs| => Aim(w.st, c, w.sys.pc[c], w.jobs[c]))
  }

  function Sizes(w: World): (s: seq<int>)
    ensures |s| == |w.jobs|
  {
    seq(|w.jobs|, c requires 0 <= c < |w.jobs| => w.jobs[c].size)
  }

  /** A CPU is where its search sent it. */
  ghost predicate OnCourse(st: State, c: nat, p: L.Pc, j: Job)
    requires c < |st.lists|
  {
    var ch := SearchOf(st, c, j);
    && (p.Touch? || p.GrowLink? || p.GrowStore? ==> ch == L.Found(p.page))
    && (p.Fill? ==> ch == L.Found(p.page) || ch == L.Reuse(p.page))
    && (p.GrowSpin? || p.GrowGot? || p.GrowHeld? ==> ch == L.Grow)
    && (HasList(p) ==> st.lists[c] != [])
  }

  ghost predicate AllOnCourse(w: World)
    requires Shaped(w)
  {
    forall c {:trigger w.jobs[c]} :: 0 <= c < |w.jobs| ==> OnCourse(w.st, c, w.sys.pc[c], w.jobs[c])
  }

  /** a is the state in which every call that has taken effect is done. */
  ghost predicate Linear(w: World, a: State) {
    match w
    case World(_, st, _) => WorldInv(w) && AllOnCourse(w) && Inv(a) && Ahead(st, Aims(w), Sizes(w), a)
  }

  /** The call of a CPU that has not taken effect yet. */
  function PendingOf(c: nat, p: L.Pc, j: Job, aim: int): seq<R.Op> {
    if j.Give? then [R.Dealloc(j.ptr)]
    else if j.Get? && !p.Unlock? && aim == 0 then [R.Alloc(c, j.req)]
    else []
  }

  ghost function Pending(w: World, c: nat): seq<R.Op>
    requires Shaped(w) && c < |w.jobs|
  {
    PendingOf(c, w.sys.pc[c], w.jobs[c], Aims(w)[c])
  }

  // ---------------------------------------------------------- what the others notice

  lemma OthersSearch(st: State, st': State, c: int, gone: int, d: nat, j: Job)
    requires Inv(st) && Beside(st, st', c, gone) && d < |st.lists| && d != c
    ensures d < |st'.lists| && st'.lists[d] == st.lists[d] && SearchOf(st', d, j) == SearchOf(st, d, j)
  {
    forall p | p in st.lists[d] ensures p in st.pages && p in st'.pages && st'.pages[p] == st.pages[p] {
      assert p in st.cpuOf && st.cpuOf[p] == d;
    }
    SearchSame(st, st', d, j);
  }

  /** World v is what CPU c's access made of w: contents st', CPU c at p' with job j'. */
  ghost predicate Moved(w: World, v: World, c: nat, st': State, p': L.Pc, j': Job)
    requires Shaped(w) && Shaped(v)
  {
    && c < |w.jobs| && |v.jobs| == |w.jobs| && v.st == st' && v.jobs == w.jobs[c := j'] && v.sys.pc == w.sys.pc[c := p']
  }

  lemma OthersAims(w: World, v: World, c: nat, st': State, p': L.Pc, j': Job, gone: int)
    requires Shaped(w) && Shaped(v) && Inv(w.st) && Moved(w, v, c, st', p', j') && Beside(w.st, st', c, gone)
    ensures Aims(v) == Aims(w)[c := Aim(st', c, p', j')] && Sizes(v) == Sizes(w)[c := j'.size]
    ensures forall d {:trigger Pending(v, d)} :: 0 <= d < |w.jobs| && d != c ==> Pending(v, d) == Pending(w, d)
  {
    forall d | 0 <= d < |w.jobs| ensures Aims(v)[d] == Aims(w)[c := Aim(st', c, p', j')][d] {
      if d != c { OthersSearch(w.st, st', c, gone, d, w.jobs[d]); }
    }
  }

  lemma OthersOnCourse(w: World, v: World, c: nat, st': State, p': L.Pc, j': Job, gone: int)
    requires Shaped(w) && Shaped(v) && Inv(w.st) && Moved(w, v, c, st', p', j') && Beside(w.st, st', c, gone)
    requires AllOnCourse(w) && OnCourse(st', c, p', j')
    ensures AllOnCourse(v)
  {
    forall d | 0 <= d < |v.jobs| ensures OnCourse(v.st, d, v.sys.pc[d], v.jobs[d]) {
      if d != c {
        assert OnCourse(w.st, d, w.sys.pc[d], w.jobs[d]);
        OthersSearch(w.st, st', c, gone, d, w.jobs[d]);
      }
    }
  }

  // ---------------------------------------------------------- one access

  /** The parts of a step. */
  lemma StepParts(w: World, c: nat, call: Call)
    requires WorldInv(w) && c < |w.jobs| && Enabled(w, c, call)
    ensures Ready(w.st, c, ActionOf(w.sys.pc[c]), w.jobs[c]) && L.Allowed(w.sys, c, ChoiceOf(w, c, call))
    ensures JobOk(w.st, c, w.sys.pc[c], w.jobs[c]) && Guarded(w.st, w.sys.pc[c], w.jobs[c])
    ensures var v := Step(w, c, call);
            var (st', j') := Perform(w.st, c, ActionOf(w.sys.pc[c]), w.jobs[c], call);
            && Shaped(v) && WorldInv(v) && Moved(w, v, c, st', L.NextPc(w.sys, c, ChoiceOf(w, c, call)), j')
            && Beside(w.st, st', c, Gone(ActionOf(w.sys.pc[c]), w.jobs[c]))
  {
    AboutCpu(w, c);
    EnabledGuarded(w, c, call);
    ChoiceAllowed(w, c, call);
    ActionReady(w.st, c, w.sys.pc[c], w.jobs[c]);
    PerformSound(w.st, c, ActionOf(w.sys.pc[c]), w.jobs[c], call);
    StepInv(w, c, call);
  }

  /** The other CPUs do not notice; what is left to show is about CPU c. */
  lemma Conclude(w: World, v: World, c: nat, st': State, p': L.Pc, j': Job, gone: int, a': State)
    requires Shaped(w) && Inv(w.st) && AllOnCourse(w) && WorldInv(v) && Moved(w, v, c, st', p', j')
    requires Beside(w.st, st', c, gone) && OnCourse(st', c, p', j') && Inv(a')
    requires Ahead(st', Aims(w)[c := Aim(st', c, p', j')], Sizes(w)[c := j'.size], a')
    ensures Linear(v, a') && Pending(v, c) == PendingOf(c, p', j', Aim(st', c, p', j'))
    ensures forall d {:trigger Pending(v, d)} :: 0 <= d < |w.jobs| && d != c ==> Pending(v, d) == Pending(w, d)
  {
    OthersAims(w, v, c, st', p', j', gone);
    OthersOnCourse(w, v, c, st', p', j', gone);
  }

  /** The size of a request is of no account while it has no aim. */
  lemma SizeFree(st: State, aims: seq<int>, sizes: seq<int>, a: State, c: nat, size: int)
    requires Ahead(st, aims, sizes, a) && c < |aims| && aims[c] == 0
    ensures Ahead(st, aims, sizes[c := size], a)
  {
    var sizes' := sizes[c := size];
    forall d, x ensures Promised(st.pages, aims, sizes', d, x) <==> Promised(st.pages, aims, sizes, d, x) {}
    forall x | x in a.live && x !in st.live ensures exists d :: Promised(st.pages, aims, sizes', d, x) {
      var d :| Promised(st.pages, aims, sizes, d, x);
      assert Promised(st.pages, aims, sizes', d, x);
    }
  }

  lemma NoListSearch(st: State, c: nat, j: Job)
    requires c < |st.lists| && st.lists[c] == []
    ensures SearchOf(st, c, j) == L.Grow
  {
  }

  /** Seen ahead, the CPU's own search is the same as long as it has no aim. */
  lemma AheadSearch(st: State, aims: seq<int>, sizes: seq<int>, a: State, c: nat, j: Job)
    requires Inv(st) && Ahead(st, aims, sizes, a) && c < |aims| && aims[c] == 0
    ensures c < |a.lists| && SearchOf(a, c, j) == SearchOf(st, c, j)
  {
    forall p | p in st.lists[c] ensures p in st.pages && p in a.pages && a.pages[p] == st.pages[p] {
      assert p in st.cpuOf && st.cpuOf[p] == c;
      OwnUnaimed(st, aims, sizes, c, p);
    }
    SearchSame(st, a, c, j);
  }

  lemma OwnUnaimed(st: State, aims: seq<int>, sizes: seq<int>, c: nat, p: int)
    requires AimsOk(st.pages, st.cpuOf, aims, sizes) && c < |aims| && aims[c] == 0
    requires p in st.pages && p in st.cpuOf && st.cpuOf[p] == c
    ensures p !in aims
  {
    forall d | 0 <= d < |aims| ensures aims[d] != p {}
  }

  // ---- accesses that leave the contents alone

  /** Where such an access can lead. */
  lemma RestLeads(sys: L.Sys, c: nat, ch: L.Choice)
    requires L.Shaped(sys) && c < |sys.pc| && L.Allowed(sys, c, ch) && ActionOf(sys.pc[c]).Rest? && !sys.pc[c].Halted?
    ensures var p, p' := sys.pc[c], L.NextPc(sys, c, ch);
            && (Small(p') <==> Small(p) && !(p.InitStore? && p.page == 0))
            && !p'.Unlock? && !p'.GrowLink?
            && (p'.Touch? ==> p.Search? && ch == L.Found(p'.page))
            && (p'.Fill? ==> (p.Search? && ch == L.Reuse(p'.page)) || (p.GrowStore? && p.page == p'.page))
            && (p'.GrowStore? ==> p.GrowLink? && p.page == p'.page)
            && (p'.GrowSpin? ==> p.GrowSpin? || (p.Search? && ch == L.Grow))
            && (p'.GrowGot? ==> p.GrowSpin?) && (p'.GrowHeld? ==> p.GrowGot?)
            && (HasList(p') ==> HasList(p) || (p.CheckHead? && sys.head[c] != 0) || (p.InitStore? && p.page != 0))
  {
  }

  lemma HasPages(w: World, c: nat)
    requires Shaped(w) && Sys(w) && c < |w.jobs|
    ensures var p := w.sys.pc[c];
            && ((p.CheckHead? && w.sys.head[c] != 0) || (p.InitStore? && p.page != 0) ==> w.st.lists[c] != [])
            && ((p.InitStore? && p.page == 0) || p.InitHeapHeld? ==> w.st.lists[c] == [])
  {
    assert L.Linked(w.sys.pub[c], w.sys.head[c], w.sys.next);
    assert w.st.lists[c] == Flight(w.sys.pc[c]) + Rev(w.sys.pub[c]);
    assert L.OwnOk(w.sys, c, w.sys.pc[c]);
  }

  lemma RestCourse(w: World, c: nat, call: Call)
    requires WorldInv(w) && c < |w.jobs| && Enabled(w, c, call) && ActionOf(w.sys.pc[c]).Rest?
    requires OnCourse(w.st, c, w.sys.pc[c], w.jobs[c]) && L.Allowed(w.sys, c, ChoiceOf(w, c, call))
    ensures var p' := L.NextPc(w.sys, c, ChoiceOf(w, c, call));
            && OnCourse(w.st, c, p', w.jobs[c]) && !p'.Unlock?
            && Aim(w.st, c, p', w.jobs[c]) == Aim(w.st, c, w.sys.pc[c], w.jobs[c])
  {
    RestLeads(w.sys, c, ChoiceOf(w, c, call));
    HasPages(w, c);
    if w.st.lists[c] == [] { NoListSearch(w.st, c, w.jobs[c]); }
  }

  /** What one access contributes to the run of calls: nothing, or one call. */
  ghost predicate Takes(a: State, op: seq<R.Op>, a': State)
    requires Inv(a)
  {
    if op == [] then a' == a else |op| == 1 && R.Enabled(a, op[0]) && a' == R.Next(a, op[0])
  }

  /** The call an idle CPU is asked for. */
  function OpOf(c: nat, call: Call): R.Op {
    match call
    case Request(req) => R.Alloc(c, req)
    case Return(x) => R.Dealloc(x)
    case Continue => R.Dealloc(0)
  }

  function Issue(w: World, c: nat, call: Call): seq<R.Op>
    requires Shaped(w) && c < |w.jobs|
  {
    if w.sys.pc[c].Idle? then [OpOf(c, call)] else []
  }

  /** One access: the state ahead takes the calls `op`, and what is still pending is what was, less those. */
  ghost predicate Linearizes(w: World, c: nat, call: Call, v: World, a: State, op: seq<R.Op>, a': State)
    requires Shaped(w) && c < |w.jobs| && Inv(a)
  {
    match v
    case World(_, _, jobs) =>
      && Linear(v, a') && Shaped(v) && |jobs| == |w.jobs| && Takes(a, op, a')
      && Pending(w, c) + Issue(w, c, call) == op + Pending(v, c)
      && forall d {:trigger Pending(v, d)} :: 0 <= d < |w.jobs| && d != c ==> Pending(v, d) == Pending(w, d)
  }

  lemma Assemble(w: World, c: nat, call: Call, v: World, a: State, op: seq<R.Op>, a': State)
    requires Shaped(w) && c < |w.jobs| && Inv(a) && Linear(v, a') && Shaped(v) && |v.jobs| == |w.jobs|
    requires Takes(a, op, a') && Pending(w, c) + Issue(w, c, call) == op + Pending(v, c)
    requires forall d {:trigger Pending(v, d)} :: 0 <= d < |w.jobs| && d != c ==> Pending(v, d) == Pending(w, d)
    ensures Linearizes(w, c, call, v, a, op, a')
  {
  }

  /** World v is the outcome of CPU c's access, which left it at p' with job j' and the contents at st'. */
  ghost predicate Outcome(w: World, v: World, c: nat, st': State, p': L.Pc, j': Job, gone: int) {
    match w
    case World(_, st, _) =>
      Shaped(w) && Shaped(v) && WorldInv(v) && Moved(w, v, c, st', p', j') && Beside(st, st', c, gone)
  }

  /** What is to be shown of CPU c: it stays on course, the state ahead takes the calls `op`, and what it had
      pending, and any call it begins, is in `op` or pending then. */
  ghost predicate OwnPart(w: World, c: nat, call: Call, a: State, st': State, p': L.Pc, j': Job, op: seq<R.Op>,
      a': State)
    requires Shaped(w) && c < |w.jobs| && c < |st'.lists| && Inv(a)
  {
    match a'
    case State(heap, _, _, _, _, _) =>
      && heap == st'.heap && OnCourse(st', c, p', j') && Inv(a') && Takes(a, op, a')
      && Ahead(st', Aims(w)[c := Aim(st', c, p', j')], Sizes(w)[c := j'.size], a')
      && Pending(w, c) + Issue(w, c, call) == op + PendingOf(c, p', j', Aim(st', c, p', j'))
  }

  /** The same, put together for a CPU that has no aim afterwards. */
  lemma OwnAimless(w: World, c: nat, call: Call, a: State, st': State, p': L.Pc, j': Job, op: seq<R.Op>, a': State)
    requires Shaped(w) && c < |w.jobs| && c < |st'.lists| && Inv(a) && Inv(a') && Takes(a, op, a')
    requires OnCourse(st', c, p', j') && Aim(st', c, p', j') == 0
    requires Ahead(st', Aims(w)[c := 0], Sizes(w)[c := j'.size], a')
    requires Pending(w, c) + Issue(w, c, call) == op + PendingOf(c, p', j', 0)
    ensures OwnPart(w, c, call, a, st', p', j', op, a')
  {
  }

  /** The other CPUs follow. */
  lemma FromOutcome(w: World, c: nat, call: Call, v: World, a: State, st': State, p': L.Pc, j': Job, gone: int,
      op: seq<R.Op>, a': State)
    requires Linear(w, a) && c < |w.jobs| && c < |st'.lists| && Outcome(w, v, c, st', p', j', gone)
    requires OwnPart(w, c, call, a, st', p', j', op, a')
    ensures Linearizes(w, c, call, v, a, op, a')
  {
    Conclude(w, v, c, st', p', j', gone, a');
    Assemble(w, c, call, v, a, op, a');
  }

  // ---- an access that leaves the contents alone

  lemma RestOutcome(w: World, c: nat, call: Call)
    requires WorldInv(w) && c < |w.jobs| && Enabled(w, c, call) && ActionOf(w.sys.pc[c]).Rest?
    ensures L.Allowed(w.sys, c, ChoiceOf(w, c, call))
    ensures Outcome(w, Step(w, c, call), c, w.st, L.NextPc(w.sys, c, ChoiceOf(w, c, call)), w.jobs[c], 0)
  {
    StepParts(w, c, call);
  }

  lemma RestOwn(w: World, c: nat, call: Call, a: State)
    requires Linear(w, a) && c < |w.jobs| && Enabled(w, c, call) && ActionOf(w.sys.pc[c]).Rest?
    requires L.Allowed(w.sys, c, ChoiceOf(w, c, call))
    ensures OwnPart(w, c, call, a, w.st, L.NextPc(w.sys, c, ChoiceOf(w, c, call)), w.jobs[c], [], a)
  {
    assert OnCourse(w.st, c, w.sys.pc[c], w.jobs[c]);
    RestCourse(w, c, call);
    RestPending(w, c, call, L.NextPc(w.sys, c, ChoiceOf(w, c, call)));
    Same(Aims(w), c);
    Same(Sizes(w), c);
  }

  lemma RestPending(w: World, c: nat, call: Call, p': L.Pc)
    requires Shaped(w) && c < |w.jobs| && ActionOf(w.sys.pc[c]).Rest? && !p'.Unlock?
    requires Aim(w.st, c, p', w.jobs[c]) == Aim(w.st, c, w.sys.pc[c], w.jobs[c])
    ensures Pending(w, c) + Issue(w, c, call) == [] + PendingOf(c, p', w.jobs[c], Aim(w.st, c, p', w.jobs[c]))
  {
    var aim := Aims(w)[c];
    assert aim == Aim(w.st, c, w.sys.pc[c], w.jobs[c]);
  }

  lemma Same(s: seq<int>, i: nat)
    requires i < |s|
    ensures s[i := s[i]] == s
  {
  }

  lemma RestLinear(w: World, c: nat, call: Call, a: State)
    requires Linear(w, a) && c < |w.jobs| && Enabled(w, c, call) && ActionOf(w.sys.pc[c]).Rest?
    ensures Linearizes(w, c, call, Step(w, c, call), a, [], a)
  {
    RestOutcome(w, c, call);
    RestOwn(w, c, call, a);
    FromOutcome(w, c, call, Step(w, c, call), a, w.st, L.NextPc(w.sys, c, ChoiceOf(w, c, call)), w.jobs[c], 0, [], a);
  }

  // ---- the end of a call

  lemma EndLeads(sys: L.Sys, c: nat, ch: L.Choice)
    requires L.Shaped(sys) && c < |sys.pc| && L.Allowed(sys, c, ch) && ActionOf(sys.pc[c]).End?
    ensures L.NextPc(sys, c, ch) == L.Idle && (sys.pc[c].Wipe? || sys.pc[c].Unlock?)
  {
  }

  lemma EndOutcome(w: World, c: nat, call: Call)
    requires WorldInv(w) && c < |w.jobs| && Enabled(w, c, call) && ActionOf(w.sys.pc[c]).End?
    ensures Outcome(w, Step(w, c, call), c, w.st, L.Idle, Nothing, 0)
  {
    StepParts(w, c, call);
    EndLeads(w.sys, c, ChoiceOf(w, c, call));
  }

  lemma NothingPending(w: World, c: nat)
    requires Shaped(w) && c < |w.jobs| && JobOk(w.st, c, w.sys.pc[c], w.jobs[c])
    requires w.sys.pc[c].Wipe? || w.sys.pc[c].Unlock? || w.sys.pc[c].Idle?
    ensures Pending(w, c) == [] && Aims(w)[c] == 0 && Aims(w)[c := 0] == Aims(w)
  {
    Same(Aims(w), c);
  }

  lemma EndCourse(st: State, c: nat)
    requires c < |st.lists|
    ensures OnCourse(st, c, L.Idle, Nothing) && Aim(st, c, L.Idle, Nothing) == 0
    ensures PendingOf(c, L.Idle, Nothing, 0) == []
  {
  }

  lemma EndOwn(w: World, c: nat, call: Call, a: State)
    requires Linear(w, a) && c < |w.jobs| && (w.sys.pc[c].Wipe? || w.sys.pc[c].Unlock?)
    ensures OwnPart(w, c, call, a, w.st, L.Idle, Nothing, [], a)
  {
    AboutCpu(w, c);
    NothingPending(w, c);
    EndCourse(w.st, c);
    SizeFree(w.st, Aims(w), Sizes(w), a, c, 0);
    OwnAimless(w, c, call, a, w.st, L.Idle, Nothing, [], a);
  }

  lemma EndLinear(w: World, c: nat, call: Call, a: State)
    requires Linear(w, a) && c < |w.jobs| && Enabled(w, c, call) && ActionOf(w.sys.pc[c]).End?
    ensures Linearizes(w, c, call, Step(w, c, call), a, [], a)
  {
    EndOutcome(w, c, call);
    EndPlace(w.sys.pc[c]);
    EndOwn(w, c, call, a);
    FromOutcome(w, c, call, Step(w, c, call), a, w.st, L.Idle, Nothing, 0, [], a);
  }

  lemma EndPlace(p: L.Pc)
    requires ActionOf(p).End?
    ensures p.Wipe? || p.Unlock?
  {
  }

  // ---- the beginning of a call

  /** Where a call begins, and as what. */
  function BeginPc(st: State, call: Call): L.Pc {
    match call
    case Request(req) => if req <= R.SMALL then L.CheckHead else L.HugeSpin
    case Return(x) => L.FreeSpin(if x in st.live then st.live[x].page else 0)
    case Continue => L.Idle
  }

  function BeginJob(call: Call): Job {
    match call
    case Request(req) => Get(req)
    case Return(x) => Give(x)
    case Continue => Nothing
  }

  lemma BeginOutcome(w: World, c: nat, call: Call)
    requires WorldInv(w) && c < |w.jobs| && Enabled(w, c, call) && w.sys.pc[c].Idle?
    ensures Outcome(w, Step(w, c, call), c, w.st, BeginPc(w.st, call), BeginJob(call), 0)
    ensures call.Request? || call.Return?
  {
    StepParts(w, c, call);
  }

  lemma BeginCourse(st: State, c: nat, call: Call)
    requires c < |st.lists|
    ensures OnCourse(st, c, BeginPc(st, call), BeginJob(call))
    ensures !(call.Request? && call.req <= R.SMALL) ==> Aim(st, c, BeginPc(st, call), BeginJob(call)) == 0
    ensures call.Request? || call.Return? ==>
              var aim := Aim(st, c, BeginPc(st, call), BeginJob(call));
              PendingOf(c, BeginPc(st, call), BeginJob(call), aim) == if aim == 0 then [OpOf(c, call)] else []
  {
  }

  lemma BeginOwn(w: World, c: nat, call: Call, a: State, op: seq<R.Op>, a': State)
    requires Linear(w, a) && c < |w.jobs| && w.sys.pc[c].Idle? && Inv(a') && Takes(a, op, a') && !call.Continue?
    requires var aim := Aim(w.st, c, BeginPc(w.st, call), BeginJob(call));
             Ahead(w.st, Aims(w)[c := aim], Sizes(w)[c := BeginJob(call).size], a') &&
               op == if aim == 0 then [] else [OpOf(c, call)]
    ensures OwnPart(w, c, call, a, w.st, BeginPc(w.st, call), BeginJob(call), op, a')
  {
    AboutCpu(w, c);
    NothingPending(w, c);
    BeginCourse(w.st, c, call);
  }

  lemma BeginLinear(w: World, c: nat, call: Call, a: State, op: seq<R.Op>, a': State)
    requires Linear(w, a) && c < |w.jobs| && Enabled(w, c, call) && w.sys.pc[c].Idle?
    requires OwnPart(w, c, call, a, w.st, BeginPc(w.st, call), BeginJob(call), op, a')
    ensures Linearizes(w, c, call, Step(w, c, call), a, op, a')
  {
    BeginOutcome(w, c, call);
    FromOutcome(w, c, call, Step(w, c, call), a, w.st, BeginPc(w.st, call), BeginJob(call), 0, op, a');
  }

  /** A call that waits for its turn: a huge request, a free, a small request that needs a new page. */
  lemma BeginWaits(w: World, c: nat, call: Call, a: State)
    requires Linear(w, a) && c < |w.jobs| && w.sys.pc[c].Idle? && !call.Continue?
    requires Aim(w.st, c, BeginPc(w.st, call), BeginJob(call)) == 0
    ensures OwnPart(w, c, call, a, w.st, BeginPc(w.st, call), BeginJob(call), [], a)
  {
    AboutCpu(w, c);
    NothingPending(w, c);
    SizeFree(w.st, Aims(w), Sizes(w), a, c, BeginJob(call).size);
    BeginOwn(w, c, call, a, [], a);
  }

  /** kalloc of a small request for which the search finds a page. */
  lemma KallocFinds(a: State, c: nat, req: int)
    requires Inv(a) && c < |a.lists| && req <= R.SMALL
    requires var ch := SearchOf(a, c, Get(req)); ch.Found? || ch.Reuse?
    ensures var ch := SearchOf(a, c, Get(req));
            && ClassOk(R.SizeClass(req)) && ch.page in a.pages
            && (a.pages[ch.page].empty || Serves(a, ch.page, R.SizeClass(req)))
            && R.Enabled(a, R.Alloc(c, req)) && R.Next(a, R.Alloc(c, req)) == FillPage(a, ch.page, R.SizeClass(req)).0
  {
    R.SmallClass(req);
    AllocSmallBySearch(a, c, Get(req));
    if a.lists[c] == [] { NoListSearch(a, c, Get(req)); }
  }

  /** Seen ahead, the request takes its block at once. */
  lemma FindAhead(st: State, aims: seq<int>, sizes: seq<int>, a: State, c: nat, req: int) returns (a': State)
    requires Inv(st) && Inv(a) && Ahead(st, aims, sizes, a) && c < |aims| && aims[c] == 0 && req <= R.SMALL
    requires Aim(st, c, L.CheckHead, Get(req)) != 0
    ensures Takes(a, [R.Alloc(c, req)], a') && Inv(a')
    ensures Ahead(st, aims[c := Aim(st, c, L.CheckHead, Get(req))], sizes[c := R.SizeClass(req)], a')
  {
    var j, p := Get(req), Aim(st, c, L.CheckHead, Get(req));
    SizeFree(st, aims, sizes, a, c, j.size);
    AheadSearch(st, aims, sizes, a, c, j);
    KallocFinds(a, c, req);
    SearchFills(st, c, j);
    AimsMore(st, aims, sizes[c := j.size], c, p);
    AimMore(st, aims, sizes[c := j.size], a, c, p);
    a' := FillPage(a, p, j.size).0;
  }

  lemma BeginFinds(w: World, c: nat, req: int, a: State) returns (a': State)
    requires Linear(w, a) && c < |w.jobs| && w.sys.pc[c].Idle? && req <= R.SMALL
    requires Aim(w.st, c, L.CheckHead, Get(req)) != 0
    ensures OwnPart(w, c, Request(req), a, w.st, L.CheckHead, Get(req), [R.Alloc(c, req)], a')
  {
    NoAimIdle(w, c);
    a' := FindAhead(w.st, Aims(w), Sizes(w), a, c, req);
    BeginOwn(w, c, Request(req), a, [R.Alloc(c, req)], a');
  }

  lemma NoAimIdle(w: World, c: nat)
    requires Shaped(w) && c < |w.jobs| && w.sys.pc[c].Idle?
    ensures Aims(w)[c] == 0
  {
  }

  lemma AimsMore(st: State, aims: seq<int>, sizes: seq<int>, c: nat, p: int)
    requires AimsOk(st.pages, st.cpuOf, aims, sizes) && c < |aims|
    requires p in st.pages && p in st.cpuOf && st.cpuOf[p] == c && Fillable(st.pages[p], sizes[c])
    ensures AimsOk(st.pages, st.cpuOf, aims[c := p], sizes)
  {
  }

  // ---- a block is taken

  /** The CPU is about to take a block from page p.page. */
  predicate Taking(p: L.Pc) { p.Touch? || p.Fill? }

  function AfterTaking(p: L.Pc): L.Pc { if p.Touch? then L.FastUnlock else L.Unlock }

  lemma TakeOutcome(w: World, c: nat, call: Call)
    requires WorldInv(w) && c < |w.jobs| && Enabled(w, c, call) && Taking(w.sys.pc[c])
    ensures var (p, s) := (w.sys.pc[c].page, w.jobs[c].size);
            && p in w.st.pages && ClassOk(s) && (w.st.pages[p].empty || Serves(w.st, p, s))
            && var (st', x) := FillPage(w.st, p, s);
               Outcome(w, Step(w, c, call), c, st', AfterTaking(w.sys.pc[c]), Got(x), 0)
  {
    StepParts(w, c, call);
  }

  /** What it takes is what it aimed at. */
  lemma TakeAim(w: World, c: nat)
    requires Shaped(w) && c < |w.jobs| && Taking(w.sys.pc[c]) && OnCourse(w.st, c, w.sys.pc[c], w.jobs[c]) &&
        w.jobs[c].Get?
    ensures Aims(w)[c] == w.sys.pc[c].page && (w.sys.pc[c].page != 0 ==> Pending(w, c) == [])
    ensures forall call :: Issue(w, c, call) == []
  {
    assert Aims(w)[c] == Aim(w.st, c, w.sys.pc[c], w.jobs[c]);
  }

  lemma TakeAhead(st: State, aims: seq<int>, sizes: seq<int>, a: State, c: nat, p: int, s: int)
    requires Inv(st) && Ahead(st, aims, sizes, a) && c < |aims| && aims[c] == p != 0 && sizes[c] == s
    ensures p in st.pages && ClassOk(s) && (st.pages[p].empty || Serves(st, p, s))
    ensures FillPage(st, p, s).0.lists == st.lists && FillPage(st, p, s).0.heap == st.heap
    ensures Ahead(FillPage(st, p, s).0, aims[c := 0], sizes[c := 0], a)
  {
    AimDone(st, aims, sizes, a, c, p);
    FillIs(st, p, s);
    SizeFree(FillPage(st, p, s).0, aims[c := 0], sizes, a, c, 0);
  }

  /** What Linear says, without the invariant of the world. */
  ghost predicate Parts(w: World, a: State) {
    match w
    case World(_, st, _) => Shaped(w) && Inv(st) && Inv(a) && Ahead(st, Aims(w), Sizes(w), a)
  }

  lemma LinearParts(w: World, a: State, c: nat)
    requires Linear(w, a) && c < |w.jobs|
    ensures Parts(w, a) && OnCourse(w.st, c, w.sys.pc[c], w.jobs[c])
  {
  }

  lemma TakeOwn(w: World, c: nat, call: Call, a: State, st': State, x: int)
    requires Parts(w, a) && c < |w.jobs| && Taking(w.sys.pc[c]) && w.jobs[c].Get?
    requires OnCourse(w.st, c, w.sys.pc[c], w.jobs[c])
    requires OwnPage(w.st, c, w.sys.pc[c].page) && ClassOk(w.jobs[c].size) &&
        (w.st.pages[w.sys.pc[c].page].empty || Serves(w.st, w.sys.pc[c].page, w.jobs[c].size))
    requires (st', x) == FillPage(w.st, w.sys.pc[c].page, w.jobs[c].size)
    ensures |st'.lists| == |w.st.lists| && OwnPart(w, c, call, a, st', AfterTaking(w.sys.pc[c]), Got(x), [], a)
  {
    TakeAim(w, c);
    TakeAhead(w.st, Aims(w), Sizes(w), a, c, w.sys.pc[c].page, w.jobs[c].size);
    TakenCourse(st', c, w.sys.pc[c], x);
    OwnAimless(w, c, call, a, st', AfterTaking(w.sys.pc[c]), Got(x), [], a);
  }

  lemma TakenCourse(st: State, c: nat, p: L.Pc, x: int)
    requires c < |st.lists| && Taking(p)
    ensures OnCourse(st, c, AfterTaking(p), Got(x)) && Aim(st, c, AfterTaking(p), Got(x)) == 0
    ensures PendingOf(c, AfterTaking(p), Got(x), 0) == []
  {
  }

  lemma TakeReady(w: World, c: nat)
    requires WorldInv(w) && c < |w.jobs| && Taking(w.sys.pc[c])
    ensures OwnPage(w.st, c, w.sys.pc[c].page) && ClassOk(w.jobs[c].size)
    ensures w.jobs[c].Get? && (w.st.pages[w.sys.pc[c].page].empty || Serves(w.st, w.sys.pc[c].page, w.jobs[c].size))
  {
    AboutCpu(w, c);
  }

  lemma TakeLinear(w: World, c: nat, call: Call, a: State)
    requires Linear(w, a) && c < |w.jobs| && Enabled(w, c, call) && Taking(w.sys.pc[c])
    ensures Linearizes(w, c, call, Step(w, c, call), a, [], a)
  {
    TakeOutcome(w, c, call);
    TakeReady(w, c);
    var (st', x) := FillPage(w.st, w.sys.pc[c].page, w.jobs[c].size);
    LinearParts(w, a, c);
    TakeOwn(w, c, call, a, st', x);
    FromOutcome(w, c, call, Step(w, c, call), a, st', AfterTaking(w.sys.pc[c]), Got(x), 0, [], a);
  }

  // ---- a page is carved

  predicate Carving(p: L.Pc) { p.InitHeapHeld? || p.GrowHeld? }

  function AfterCarving(p: L.Pc, page: int): L.Pc {
    if p.InitHeapHeld? then L.InitStore(page) else if page == 0 then L.Unlock else L.GrowLink(page)
  }

  lemma CarveOutcome(w: World, c: nat, call: Call)
    requires WorldInv(w) && c < |w.jobs| && Enabled(w, c, call) && Carving(w.sys.pc[c])
    ensures Getting(w.jobs[c])
    ensures var (st', page) := AddPage(w.st, c, w.jobs[c].size);
            Outcome(w, Step(w, c, call), c, st', AfterCarving(w.sys.pc[c], page), w.jobs[c], 0)
  {
    StepParts(w, c, call);
  }

  /** A CPU that carves has found nothing among its own pages. */
  lemma CarveAim(w: World, c: nat)
    requires WorldInv(w) && c < |w.jobs| && Carving(w.sys.pc[c]) && OnCourse(w.st, c, w.sys.pc[c], w.jobs[c])
    ensures SearchOf(w.st, c, w.jobs[c]) == L.Grow && Aims(w)[c] == 0
    ensures w.sys.pc[c].InitHeapHeld? <==> w.st.lists[c] == []
    ensures Getting(w.jobs[c]) && Pending(w, c) == [R.Alloc(c, w.jobs[c].req)]
    ensures forall call :: Issue(w, c, call) == []
  {
    AboutCpu(w, c);
    HasPages(w, c);
    if w.sys.pc[c].InitHeapHeld? { NoListSearch(w.st, c, w.jobs[c]); }
    assert Aims(w)[c] == Aim(w.st, c, w.sys.pc[c], w.jobs[c]);
  }

  /** No node has room for a page: a CPU with pages gets NULL, one without pages is about to stop. */
  lemma CarveFails(w: World, c: nat, call: Call, a: State)
    requires Parts(w, a) && c < |w.jobs| && Carving(w.sys.pc[c]) && AddPage(w.st, c, w.jobs[c].size).1 == 0
    requires Getting(w.jobs[c]) && SearchOf(w.st, c, w.jobs[c]) == L.Grow && Aims(w)[c] == 0
    requires w.sys.pc[c].InitHeapHeld? <==> w.st.lists[c] == []
    requires Pending(w, c) == [R.Alloc(c, w.jobs[c].req)] && Issue(w, c, call) == []
    ensures var op := if w.sys.pc[c].GrowHeld? then [R.Alloc(c, w.jobs[c].req)] else [];
            OwnPart(w, c, call, a, w.st, AfterCarving(w.sys.pc[c], 0), w.jobs[c], op, a)
    ensures w.sys.pc[c].InitHeapHeld? ==>
              c < |a.lists| && w.jobs[c].Get? && R.FitsGuard(a, w.jobs[c].req) && R.Kalloc(a, c, w.jobs[c].req).Halted?
  {
    var j := w.jobs[c];
    AheadSearch(w.st, Aims(w), Sizes(w), a, c, j);
    CarveAhead(w.st, Aims(w), Sizes(w), a, c, j.size);
    KallocFails(a, c, j.req);
    Same(Aims(w), c);
    Same(Sizes(w), c);
    FailCourse(w.st, c, w.sys.pc[c], j);
  }

  lemma FailCourse(st: State, c: nat, p: L.Pc, j: Job)
    requires c < |st.lists| && Carving(p) && SearchOf(st, c, j) == L.Grow && j.Get?
    ensures OnCourse(st, c, AfterCarving(p, 0), j) && Aim(st, c, AfterCarving(p, 0), j) == 0
    ensures PendingOf(c, AfterCarving(p, 0), j, 0) == if p.GrowHeld? then [] else [R.Alloc(c, j.req)]
  {
  }

  /** kalloc when neither the CPU's pages nor the heap have room. */
  lemma KallocFails(a: State, c: nat, req: int)
    requires Inv(a) && c < |a.lists| && req <= R.SMALL && SearchOf(a, c, Get(req)) == L.Grow
    requires AddPage(a, c, R.SizeClass(req)).1 == 0
    ensures R.FitsGuard(a, req)
    ensures R.Kalloc(a, c, req) == if a.lists[c] == [] then R.Halted else R.Done(a, 0)
  {
    R.SmallClass(req);
    AllocSmallBySearch(a, c, Get(req));
  }

  /** The new page heads the CPU's list and has room. */
  lemma CarvedSearch(st: State, c: nat, j: Job)
    requires Inv(st) && c < |st.lists| && Getting(j) && AddPage(st, c, j.size).1 != 0
    ensures var (st1, p) := AddPage(st, c, j.size);
            && Inv(st1) && |st1.lists| == |st.lists| && st1.lists[c] != []
            && Serves(st1, p, j.size) && OwnPage(st1, c, p)
            && SearchOf(st1, c, j) == L.Found(p)
  {
    AddPageInv(st, c, j.size);
    var (st1, p) := AddPage(st, c, j.size);
    assert st1.pages[p] == Fresh(p, j.size);
    var list := st1.lists[c];
    assert list[0] == p && p in R.Usable(st1, j.size);
    assert R.First(list, R.Usable(st1, j.size)) == 0;
  }

  /** kalloc when the CPU's pages have no room and the heap has. */
  lemma KallocGrows(a: State, c: nat, req: int)
    requires Inv(a) && c < |a.lists| && req <= R.SMALL && SearchOf(a, c, Get(req)) == L.Grow
    requires AddPage(a, c, R.SizeClass(req)).1 != 0
    ensures var (a1, p) := AddPage(a, c, R.SizeClass(req));
            && Inv(a1) && p in a1.pages && Serves(a1, p, R.SizeClass(req)) && ClassOk(R.SizeClass(req))
            && R.Enabled(a, R.Alloc(c, req)) && R.Next(a, R.Alloc(c, req)) == FillPage(a1, p, R.SizeClass(req)).0
  {
    var s := R.SizeClass(req);
    R.SmallClass(req);
    AllocSmallBySearch(a, c, Get(req));
    CarvedSearch(a, c, Get(req));
    var (a1, p) := AddPage(a, c, s);
    AllocSmallBySearch(a1, c, Get(req));
  }

  /** Carving gives CPU c an aim, and seen ahead it takes the block at once. */
  lemma CarveTakes(st: State, aims: seq<int>, sizes: seq<int>, a: State, c: nat, req: int) returns (a': State)
    requires Inv(st) && Inv(a) && Ahead(st, aims, sizes, a) && c < |aims| && aims[c] == 0
    requires req <= R.SMALL && ClassOk(R.SizeClass(req)) && sizes[c] == R.SizeClass(req)
    requires SearchOf(st, c, Get(req)) == L.Grow && AddPage(st, c, R.SizeClass(req)).1 != 0
    ensures Takes(a, [R.Alloc(c, req)], a') && Inv(a')
    ensures var (st1, p) := AddPage(st, c, R.SizeClass(req)); Ahead(st1, aims[c := p], sizes, a')
  {
    var j, s := Get(req), R.SizeClass(req);
    AheadSearch(st, aims, sizes, a, c, j);
    CarveAhead(st, aims, sizes, a, c, s);
    KallocGrows(a, c, req);
    CarvedSearch(st, c, j);
    var (st1, p) := AddPage(st, c, s);
    var a1 := AddPage(a, c, s).0;
    AimsMore(st1, aims, sizes, c, p);
    AimMore(st1, aims, sizes, a1, c, p);
    a' := FillPage(a1, p, s).0;
  }

  lemma CarvedCourse(st: State, c: nat, p: L.Pc, j: Job, page: int)
    requires c < |st.lists| && Carving(p) && page != 0 && SearchOf(st, c, j) == L.Found(page) && st.lists[c] != []
    requires j.Get?
    ensures OnCourse(st, c, AfterCarving(p, page), j) && Aim(st, c, AfterCarving(p, page), j) == page
    ensures PendingOf(c, AfterCarving(p, page), j, page) == []
  {
  }

  lemma CarveSucceeds(w: World, c: nat, call: Call, a: State, st': State, page: int) returns (a': State)
    requires Parts(w, a) && c < |w.jobs| && Carving(w.sys.pc[c])
    requires (st', page) == AddPage(w.st, c, w.jobs[c].size) && page != 0
    requires Getting(w.jobs[c]) && SearchOf(w.st, c, w.jobs[c]) == L.Grow && Aims(w)[c] == 0
    requires Pending(w, c) == [R.Alloc(c, w.jobs[c].req)] && Issue(w, c, call) == []
    ensures |st'.lists| == |w.st.lists|
    ensures OwnPart(w, c, call, a, st', AfterCarving(w.sys.pc[c], page), w.jobs[c], [R.Alloc(c, w.jobs[c].req)], a')
  {
    var j := w.jobs[c];
    a' := CarveTakes(w.st, Aims(w), Sizes(w), a, c, j.req);
    CarvedSearch(w.st, c, j);
    CarvedCourse(st', c, w.sys.pc[c], j, page);
    Same(Sizes(w), c);
  }

  lemma CarveLinear(w: World, c: nat, call: Call, a: State) returns (op: seq<R.Op>, a': State)
    requires Linear(w, a) && c < |w.jobs| && Enabled(w, c, call) && Carving(w.sys.pc[c])
    ensures Linearizes(w, c, call, Step(w, c, call), a, op, a')
  {
    CarveOutcome(w, c, call);
    LinearParts(w, a, c);
    CarveAim(w, c);
    var (st', page) := AddPage(w.st, c, w.jobs[c].size);
    if page == 0 {
      op, a' := if w.sys.pc[c].GrowHeld? then [R.Alloc(c, w.jobs[c].req)] else [], a;
      CarveFails(w, c, call, a);
    } else {
      op := [R.Alloc(c, w.jobs[c].req)];
      a' := CarveSucceeds(w, c, call, a, st', page);
    }
    FromOutcome(w, c, call, Step(w, c, call), a, st', AfterCarving(w.sys.pc[c], page), w.jobs[c], 0, op, a');
  }

  // ---- a huge request

  lemma HugeOutcome(w: World, c: nat, call: Call)
    requires WorldInv(w) && c < |w.jobs| && Enabled(w, c, call) && w.sys.pc[c].HugeHeld?
    ensures GettingHuge(w.jobs[c]) && HugeFits(w.st.heap, w.jobs[c].size)
    ensures Outcome(w, Step(w, c, call), c, AllocHuge(w.st, w.jobs[c].size).0, L.Idle, Nothing, 0)
  {
    StepParts(w, c, call);
  }

  lemma HugeOwn(w: World, c: nat, call: Call, a: State, st': State, a': State)
    requires Parts(w, a) && c < |w.jobs| && w.sys.pc[c].HugeHeld? && GettingHuge(w.jobs[c])
    requires HugeFits(w.st.heap, w.jobs[c].size) && st' == AllocHuge(w.st, w.jobs[c].size).0
    requires HugeFits(a.heap, w.jobs[c].size) && a' == AllocHuge(a, w.jobs[c].size).0
    ensures |st'.lists| == |w.st.lists|
    ensures OwnPart(w, c, call, a, st', L.Idle, Nothing, [R.Alloc(c, w.jobs[c].req)], a')
  {
    var j := w.jobs[c];
    HugeAhead(w.st, Aims(w), Sizes(w), a, j.size);
    AllocHugeInv(a, j.size);
    NotSmall(w, c);
    SizeFree(st', Aims(w), Sizes(w), a', c, 0);
    KallocHuge(a, c, j.req);
    EndCourse(st', c);
    HugePending(w, c, call);
    OwnAimless(w, c, call, a, st', L.Idle, Nothing, [R.Alloc(c, j.req)], a');
  }

  lemma HugePending(w: World, c: nat, call: Call)
    requires Shaped(w) && c < |w.jobs| && w.sys.pc[c].HugeHeld? && w.jobs[c].Get?
    ensures Pending(w, c) + Issue(w, c, call) == [R.Alloc(c, w.jobs[c].req)] + []
  {
  }

  /** A CPU that does not serve a small request has no aim. */
  lemma NotSmall(w: World, c: nat)
    requires Shaped(w) && c < |w.jobs| && !Small(w.sys.pc[c])
    ensures Aims(w)[c] == 0 && Aims(w)[c := 0] == Aims(w)
  {
    Same(Aims(w), c);
  }

  lemma KallocHuge(a: State, c: nat, req: int)
    requires Inv(a) && c < |a.lists| && R.SMALL < req <= R.LARGE && HugeFits(a.heap, R.SizeClass(req))
    ensures R.Enabled(a, R.Alloc(c, req)) && R.Next(a, R.Alloc(c, req)) == AllocHuge(a, R.SizeClass(req)).0
  {
  }

  lemma HugeLinear(w: World, c: nat, call: Call, a: State) returns (a': State)
    requires Linear(w, a) && c < |w.jobs| && Enabled(w, c, call) && w.sys.pc[c].HugeHeld?
    ensures Linearizes(w, c, call, Step(w, c, call), a, [R.Alloc(c, w.jobs[c].req)], a')
  {
    HugeOutcome(w, c, call);
    LinearParts(w, a, c);
    var st' := AllocHuge(w.st, w.jobs[c].size).0;
    a' := AllocHuge(a, w.jobs[c].size).0;
    HugeOwn(w, c, call, a, st', a');
    FromOutcome(w, c, call, Step(w, c, call), a, st', L.Idle, Nothing, 0, [R.Alloc(c, w.jobs[c].req)], a');
  }

  // ---- a free

  predicate Freeing(p: L.Pc) { p.FreeTouch? || p.HugeFreeHeld? }

  function AfterFreeing(p: L.Pc): L.Pc { if p.FreeTouch? then L.FreeUnlock else L.Idle }

  /** The block to be given back is huge, or in a page of the CPU's own that is not full. */
  ghost predicate Returns(st: State, c: nat, x: int) {
    && x in st.live
    && (st.live[x].page != 0 ==> OwnPage(st, c, st.live[x].page) && st.pages[st.live[x].page].list != [])
  }

  lemma FreeOutcome(w: World, c: nat, call: Call)
    requires WorldInv(w) && c < |w.jobs| && Enabled(w, c, call) && Freeing(w.sys.pc[c])
    ensures w.jobs[c].Give? && Returns(w.st, c, w.jobs[c].ptr)
    ensures Outcome(w, Step(w, c, call), c, R.Kfree(w.st, w.jobs[c].ptr), AfterFreeing(w.sys.pc[c]), Nothing,
                    w.jobs[c].ptr)
  {
    StepParts(w, c, call);
    FreeReturns(w.st, c, w.sys.pc[c], w.jobs[c]);
    FreeLeads(w.sys, c, ChoiceOf(w, c, call));
  }

  lemma FreeReturns(st: State, c: nat, p: L.Pc, j: Job)
    requires Inv(st) && Freeing(p) && JobOk(st, c, p, j) && Guarded(st, p, j)
    ensures j.Give? && Returns(st, c, j.ptr) && ActionOf(p) == GiveOne
  {
  }

  lemma FreeLeads(sys: L.Sys, c: nat, ch: L.Choice)
    requires L.Shaped(sys) && c < |sys.pc| && L.Allowed(sys, c, ch) && Freeing(sys.pc[c])
    ensures L.NextPc(sys, c, ch) == AfterFreeing(sys.pc[c])
  {
  }

  /** Seen ahead, the free does the same. */
  lemma FreeAhead(st: State, aims: seq<int>, sizes: seq<int>, a: State, c: nat, x: int) returns (a': State)
    requires Inv(st) && Inv(a) && Ahead(st, aims, sizes, a) && c < |aims| && aims[c] == 0 && Returns(st, c, x)
    ensures Takes(a, [R.Dealloc(x)], a') && Inv(a') && Ahead(R.Kfree(st, x), aims, sizes, a')
    ensures |R.Kfree(st, x).lists| == |st.lists|
  {
    R.KfreeInv(st, x);
    if st.live[x].page == 0 {
      FreeHugeAhead(st, aims, sizes, a, x);
    } else {
      OwnUnaimed(st, aims, sizes, c, st.live[x].page);
      FreeSmallAhead(st, aims, sizes, a, x);
    }
    FreeTakes(a, x);
    a' := R.Kfree(a, x);
  }

  lemma FreeTakes(a: State, x: int)
    requires Inv(a) && x in a.live && R.RoomGuard(a, x)
    ensures Takes(a, [R.Dealloc(x)], R.Kfree(a, x)) && Inv(R.Kfree(a, x))
  {
    R.KfreeInv(a, x);
  }

  lemma FreedCourse(st: State, c: nat, p: L.Pc)
    requires c < |st.lists| && Freeing(p)
    ensures OnCourse(st, c, AfterFreeing(p), Nothing) && Aim(st, c, AfterFreeing(p), Nothing) == 0
    ensures PendingOf(c, AfterFreeing(p), Nothing, 0) == []
  {
  }

  lemma FreeAll(st: State, aims: seq<int>, sizes: seq<int>, a: State, c: nat, x: int, st': State) returns (a': State)
    requires Inv(st) && Inv(a) && Ahead(st, aims, sizes, a) && c < |aims| && aims[c] == 0 && Returns(st, c, x)
    requires st' == R.Kfree(st, x)
    ensures Takes(a, [R.Dealloc(x)], a') && Inv(a') && Ahead(st', aims, sizes[c := 0], a')
    ensures |st'.lists| == |st.lists|
  {
    a' := FreeAhead(st, aims, sizes, a, c, x);
    SizeFree(st', aims, sizes, a', c, 0);
  }

  lemma GivePending(w: World, c: nat, call: Call)
    requires Shaped(w) && c < |w.jobs| && Freeing(w.sys.pc[c]) && w.jobs[c].Give?
    ensures Pending(w, c) + Issue(w, c, call) == [R.Dealloc(w.jobs[c].ptr)] + []
  {
  }

  lemma FreeOwn(w: World, c: nat, call: Call, a: State) returns (a': State)
    requires Parts(w, a) && c < |w.jobs| && Freeing(w.sys.pc[c]) && w.jobs[c].Give? && Returns(w.st, c, w.jobs[c].ptr)
    ensures var st' := R.Kfree(w.st, w.jobs[c].ptr);
            |st'.lists| == |w.st.lists| &&
              OwnPart(w, c, call, a, st', AfterFreeing(w.sys.pc[c]), Nothing, [R.Dealloc(w.jobs[c].ptr)], a')
  {
    var x, st' := w.jobs[c].ptr, R.Kfree(w.st, w.jobs[c].ptr);
    NotSmall(w, c);
    a' := FreeAll(w.st, Aims(w), Sizes(w), a, c, x, st');
    FreedCourse(st', c, w.sys.pc[c]);
    GivePending(w, c, call);
    OwnAimless(w, c, call, a, st', AfterFreeing(w.sys.pc[c]), Nothing, [R.Dealloc(x)], a');
  }

  lemma FreeLinear(w: World, c: nat, call: Call, a: State) returns (a': State)
    requires Linear(w, a) && c < |w.jobs| && Enabled(w, c, call) && Freeing(w.sys.pc[c])
    ensures w.jobs[c].Give? && Linearizes(w, c, call, Step(w, c, call), a, [R.Dealloc(w.jobs[c].ptr)], a')
  {
    FreeOutcome(w, c, call);
    LinearParts(w, a, c);
    a' := FreeOwn(w, c, call, a);
    FromOutcome(w, c, call, Step(w, c, call), a, R.Kfree(w.st, w.jobs[c].ptr), AfterFreeing(w.sys.pc[c]), Nothing,
                w.jobs[c].ptr, [R.Dealloc(w.jobs[c].ptr)], a');
  }

  // ---------------------------------------------------------- whole runs

  lemma Kinds(p: L.Pc)
    ensures p.Idle? || Taking(p) || Carving(p) || p.HugeHeld? || Freeing(p) || ActionOf(p).End? || ActionOf(p).Rest?
  {
  }

  /** Every access of every CPU: the state ahead takes one of the calls issued, or stays. */
  lemma StepLinear(w: World, c: nat, call: Call, a: State) returns (op: seq<R.Op>, a': State)
    requires Linear(w, a) && c < |w.jobs| && Enabled(w, c, call)
    ensures Linearizes(w, c, call, Step(w, c, call), a, op, a')
  {
    var p := w.sys.pc[c];
    Kinds(p);
    op, a' := [], a;
    if p.Idle? {
      op, a' := IdleLinear(w, c, call, a);
    } else if Taking(p) {
      TakeLinear(w, c, call, a);
    } else if Carving(p) {
      op, a' := CarveLinear(w, c, call, a);
    } else if p.HugeHeld? {
      a' := HugeLinear(w, c, call, a);
      op := [R.Alloc(c, w.jobs[c].req)];
    } else if Freeing(p) {
      a' := FreeLinear(w, c, call, a);
      op := [R.Dealloc(w.jobs[c].ptr)];
    } else if ActionOf(p).End? {
      EndLinear(w, c, call, a);
    } else {
      RestLinear(w, c, call, a);
    }
  }

  lemma IdleLinear(w: World, c: nat, call: Call, a: State) returns (op: seq<R.Op>, a': State)
    requires Linear(w, a) && c < |w.jobs| && Enabled(w, c, call) && w.sys.pc[c].Idle?
    ensures Linearizes(w, c, call, Step(w, c, call), a, op, a')
  {
    op, a' := [], a;
    BeginOutcome(w, c, call);
    LinearParts(w, a, c);
    if Aim(w.st, c, BeginPc(w.st, call), BeginJob(call)) == 0 {
      BeginWaits(w, c, call, a);
    } else {
      BeginCourse(w.st, c, call);
      op := [R.Alloc(c, call.req)];
      a' := BeginFinds(w, c, call.req, a);
    }
    BeginLinear(w, c, call, a, op, a');
  }

  /** One call of the run of calls, and the CPU that made it. */
  datatype Event = Event(cpu: nat, op: R.Op)

  function Ops(log: seq<Event>): seq<R.Op> {
    if log == [] then [] else [log[0].op] + Ops(log[1..])
  }

  function OpsOf(log: seq<Event>, c: nat): seq<R.Op> {
    if log == [] then [] else (if log[0].cpu == c then [log[0].op] else []) + OpsOf(log[1..], c)
  }

  /** The calls a client asks of CPU c in the course of the run, in order. */
  ghost function Issued(w: World, moves: seq<Move>, w': World, c: nat): seq<R.Op>
    requires WorldInv(w) && Run(w, moves, w') && c < |w.jobs|
    decreases |moves|
  {
    if moves == [] then []
    else
      StepInv(w, moves[0].cpu, moves[0].call);
      (if moves[0].cpu == c then Issue(w, c, moves[0].call) else []) +
      Issued(Step(w, moves[0].cpu, moves[0].call), moves[1..], w', c)
  }

  /** What CPU c had pending and was asked for since is what took effect and what is pending now. */
  ghost predicate InOrder(w: World, moves: seq<Move>, w': World, log: seq<Event>)
    requires WorldInv(w) && Run(w, moves, w')
  {
    |w'.jobs| == |w.jobs| && Shaped(w') &&
    forall c: nat {:trigger OpsOf(log, c)} :: c < |w.jobs| ==>
      Pending(w, c) + Issued(w, moves, w', c) == OpsOf(log, c) + Pending(w', c)
  }

  lemma {:induction false} RunLinear(w: World, moves: seq<Move>, w': World, a: State)
    returns (log: seq<Event>, a': State)
    requires Linear(w, a) && Run(w, moves, w')
    ensures R.Reaches(a, Ops(log), a') && Linear(w', a') && InOrder(w, moves, w', log)
    decreases |moves|
  {
    if moves == [] {
      log, a' := [], a;
    } else {
      var (c, call) := (moves[0].cpu, moves[0].call);
      var op, a1 := StepLinear(w, c, call, a);
      StepInv(w, c, call);
      var rest;
      rest, a' := RunLinear(Step(w, c, call), moves[1..], w', a1);
      log := if op == [] then rest else [Event(c, op[0])] + rest;
      LogStep(a, c, op, a1, rest, a', log);
      OrderStep(w, moves, w', a, a1, op, rest, log);
    }
  }

  /** One call more in front of the log. */
  lemma LogStep(a: State, c: nat, op: seq<R.Op>, a1: State, rest: seq<Event>, a': State, log: seq<Event>)
    requires Inv(a) && Inv(a1) && Takes(a, op, a1) && R.Reaches(a1, Ops(rest), a')
    requires log == if op == [] then rest else [Event(c, op[0])] + rest
    ensures R.Reaches(a, Ops(log), a')
    ensures forall d: nat :: OpsOf(log, d) == (if d == c then op else []) + OpsOf(rest, d)
  {
    if op != [] {
      assert log[1..] == rest && op == [op[0]];
      assert Ops(log)[1..] == Ops(rest);
    }
  }

  lemma OrderStep(w: World, moves: seq<Move>, w': World, a: State, a1: State, op: seq<R.Op>, rest: seq<Event>,
      log: seq<Event>)
    requires WorldInv(w) && Run(w, moves, w') && moves != [] && Inv(a)
    requires var (c, call) := (moves[0].cpu, moves[0].call);
             && Linearizes(w, c, call, Step(w, c, call), a, op, a1)
             && WorldInv(Step(w, c, call)) && InOrder(Step(w, c, call), moves[1..], w', rest)
             && forall d: nat :: OpsOf(log, d) == (if d == c then op else []) + OpsOf(rest, d)
    ensures InOrder(w, moves, w', log)
  {
    var (c, call) := (moves[0].cpu, moves[0].call);
    var v := Step(w, c, call);
    forall d: nat | d < |w.jobs| ensures Pending(w, d) + Issued(w, moves, w', d) == OpsOf(log, d) + Pending(w', d) {
      IssuedStep(w, moves, w', d);
      OfCpu(w, c, call, v, a, op, a1, d);
      FromOrder(v, moves[1..], w', rest, d);
      Regroup(Pending(w, d), if d == c then Issue(w, d, call) else [], Issued(v, moves[1..], w', d),
              if d == c then op else [], Pending(v, d), OpsOf(rest, d), Pending(w', d));
    }
  }

  lemma IssuedStep(w: World, moves: seq<Move>, w': World, d: nat)
    requires WorldInv(w) && Run(w, moves, w') && moves != [] && d < |w.jobs|
    ensures var (c, call) := (moves[0].cpu, moves[0].call);
            && WorldInv(Step(w, c, call)) && Run(Step(w, c, call), moves[1..], w') && d < |Step(w, c, call).jobs|
            && Issued(w, moves, w', d) ==
                 (if d == c then Issue(w, d, call) else []) + Issued(Step(w, c, call), moves[1..], w', d)
  {
    StepInv(w, moves[0].cpu, moves[0].call);
  }

  lemma OfCpu(w: World, c: nat, call: Call, v: World, a: State, op: seq<R.Op>, a': State, d: nat)
    requires Shaped(w) && c < |w.jobs| && Inv(a) && Linearizes(w, c, call, v, a, op, a') && d < |w.jobs|
    ensures Shaped(v) && |v.jobs| == |w.jobs|
    ensures Pending(w, d) + (if d == c then Issue(w, d, call) else []) == (if d == c then op else []) + Pending(v, d)
  {
    if d != c { assert Pending(v, d) == Pending(w, d); }
  }

  lemma FromOrder(w: World, moves: seq<Move>, w': World, log: seq<Event>, d: nat)
    requires WorldInv(w) && Run(w, moves, w') && InOrder(w, moves, w', log) && d < |w.jobs|
    ensures Shaped(w') && d < |w'.jobs| && Pending(w, d) + Issued(w, moves, w', d) == OpsOf(log, d) + Pending(w', d)
  {
    assert OpsOf(log, d) == OpsOf(log, d);
  }

  lemma Regroup(p: seq<R.Op>, i: seq<R.Op>, more: seq<R.Op>, op: seq<R.Op>, q: seq<R.Op>, rest: seq<R.Op>,
      p': seq<R.Op>)
    requires p + i == op + q && q + more == rest + p'
    ensures p + (i + more) == (op + rest) + p'
  {
    assert p + (i + more) == (p + i) + more;
    assert (op + q) + more == op + (q + more);
    assert op + (rest + p') == (op + rest) + p';
  }

  // ---------------------------------------------------------- from pmm_init

  /** Before the first call no CPU has an aim or anything pending. */
  lemma StartPending(w: World)
    requires Shaped(w)
    requires forall c {:trigger w.jobs[c]} :: 0 <= c < |w.jobs| ==> w.sys.pc[c] == L.Idle && w.jobs[c] == Nothing
    ensures NoAims(Aims(w)) && AllOnCourse(w)
    ensures forall c: nat {:trigger Pending(w, c)} :: c < |w.jobs| ==> Pending(w, c) == []
  {
    forall c: nat | c < |w.jobs|
      ensures Aims(w)[c] == 0 && Pending(w, c) == [] && OnCourse(w.st, c, w.sys.pc[c], w.jobs[c])
    {
      assert w.jobs[c] == Nothing;
      EndCourse(w.st, c);
    }
  }

  lemma StartLinear(lo: int, hi: int, ncpu: nat)
    requires 0 < lo < hi && lo % 16 == 0 && hi % 16 == 0 && hi - lo < INT_LIMIT
    ensures WorldInv(Start(lo, hi, ncpu)) && Linear(Start(lo, hi, ncpu), R.Initial(lo, hi, ncpu))
    ensures forall c: nat {:trigger Pending(Start(lo, hi, ncpu), c)} :: c < ncpu ==>
      Pending(Start(lo, hi, ncpu), c) == []
  {
    var w := Start(lo, hi, ncpu);
    StartInv(lo, hi, ncpu);
    R.InitialInv(lo, hi, ncpu);
    StartPending(w);
    SameIfNone(w.st, Aims(w), Sizes(w));
  }

  ghost predicate AllIdle(w: World)
    requires Shaped(w)
  {
    forall c {:trigger w.sys.pc[c]} :: 0 <= c < |w.jobs| ==> w.sys.pc[c] == L.Idle
  }

  lemma IdleDone(w: World, a: State)
    requires Linear(w, a)
    ensures forall c: nat {:trigger Pending(w, c)} :: c < |w.jobs| && w.sys.pc[c] == L.Idle ==> Pending(w, c) == []
    ensures AllIdle(w) ==> a == w.st
  {
    forall c: nat | c < |w.jobs| && w.sys.pc[c] == L.Idle ensures Pending(w, c) == [] {
      AboutCpu(w, c);
      NothingPending(w, c);
    }
    if AllIdle(w) {
      forall c | 0 <= c < |Aims(w)| ensures Aims(w)[c] == 0 {}
      NothingAhead(w.st, Aims(w), Sizes(w), a);
    }
  }

  /** Each CPU's part of the log is what the CPU was asked for, in order, but for at most one call, which
      the CPU is still busy with and which has not taken effect. */
  ghost predicate CallsInOrder(w0: World, moves: seq<Move>, w: World, log: seq<Event>)
    requires WorldInv(w0) && Run(w0, moves, w)
  {
    |w.jobs| == |w0.jobs| && Shaped(w) &&
    forall c: nat {:trigger OpsOf(log, c)} {:trigger w.jobs[c]} :: c < |w0.jobs| ==>
      && Issued(w0, moves, w, c) == OpsOf(log, c) + Pending(w, c)
      && |Pending(w, c)| <= 1 && (w.sys.pc[c] == L.Idle ==> Pending(w, c) == [])
  }

  lemma FromIdleStart(w0: World, moves: seq<Move>, w: World, log: seq<Event>)
    requires WorldInv(w0) && Run(w0, moves, w) && InOrder(w0, moves, w, log)
    requires forall c: nat {:trigger Pending(w0, c)} :: c < |w0.jobs| ==> Pending(w0, c) == []
    requires forall c: nat {:trigger Pending(w, c)} :: c < |w.jobs| && w.sys.pc[c] == L.Idle ==> Pending(w, c) == []
    ensures CallsInOrder(w0, moves, w, log)
  {
    forall c: nat | c < |w0.jobs|
      ensures Issued(w0, moves, w, c) == OpsOf(log, c) + Pending(w, c) && |Pending(w, c)| <= 1
      ensures w.sys.pc[c] == L.Idle ==> Pending(w, c) == []
    {
      FromOrder(w0, moves, w, log, c);
      assert Pending(w0, c) == [];
    }
  }

  /** Any number of CPUs, any interleaving in which blocks are freed on the CPU that owns their page: there
      is a run `log` of whole calls, one after the other, made of the calls issued.  The contents are those
      after `log`, but for small blocks promised by calls in progress; when all CPUs are idle they are
      exactly those, and every call issued is in `log`. */
  lemma EveryRunLinearizes(lo: int, hi: int, ncpu: nat, moves: seq<Move>, w: World)
    returns (log: seq<Event>, a: State)
    requires 0 < lo < hi && lo % 16 == 0 && hi % 16 == 0 && hi - lo < INT_LIMIT
    requires (StartInv(lo, hi, ncpu); Run(Start(lo, hi, ncpu), moves, w))
    ensures (R.InitialInv(lo, hi, ncpu); R.Reaches(R.Initial(lo, hi, ncpu), Ops(log), a)) && Linear(w, a)
    ensures (StartInv(lo, hi, ncpu); CallsInOrder(Start(lo, hi, ncpu), moves, w, log))
    ensures Shaped(w) && (AllIdle(w) ==> a == w.st)
  {
    StartLinear(lo, hi, ncpu);
    R.InitialInv(lo, hi, ncpu);
    log, a := RunLinear(Start(lo, hi, ncpu), moves, w, R.Initial(lo, hi, ncpu));
    IdleDone(w, a);
    FromIdleStart(Start(lo, hi, ncpu), moves, w, log);
  }

  // ---------------------------------------------------------- what each access achieves

  /** One live block more, of the given size and in the given page. */
  ghost predicate OneMore(live: map<int, Block>, live': map<int, Block>, size: int, page: int, x: int) {
    x !in live && live' == live[x := Block(size, page)]
  }

  /** What the access at p does to the live blocks, and what the CPU is busy with afterwards. */
  ghost predicate Achieves(st: State, st': State, p: L.Pc, j: Job, j': Job, call: Call) {
    if p.FreeTouch? || p.HugeFreeHeld? then
      j.Give? && j.ptr in st.live && st'.live == st.live - {j.ptr} && j' == Nothing
    else if p.Touch? || p.Fill? then
      j.Get? && exists x :: OneMore(st.live, st'.live, R.SizeClass(j.req), p.page, x) && j' == Got(x)
    else if p.HugeHeld? then
      && j.Get? && j' == Nothing
      && (if NoneHolds(st.heap, R.SizeClass(j.req)) then st'.live == st.live
          else exists x :: OneMore(st.live, st'.live, R.SizeClass(j.req), 0, x))
    else
      && st'.live == st.live
      && if p.Idle? then (call.Request? ==> j' == Get(call.req)) && (call.Return? ==> j' == Give(call.ptr))
         else j' == if p.Wipe? || p.Unlock? then Nothing else j
  }

  /** Every access does what the source does there, and only to the CPU's own call. */
  lemma AccessEffect(w: World, c: nat, call: Call)
    requires WorldInv(w) && c < |w.jobs| && Enabled(w, c, call)
    ensures var v := Step(w, c, call);
            && |v.jobs| == |w.jobs| && Achieves(w.st, v.st, w.sys.pc[c], w.jobs[c], v.jobs[c], call)
            && forall d {:trigger v.jobs[d]} :: 0 <= d < |w.jobs| && d != c ==> v.jobs[d] == w.jobs[d]
  {
    StepParts(w, c, call);
    var p := w.sys.pc[c];
    Kinds(p);
    if Freeing(p) {
      FreeAchieves(w, c, call);
    } else if Taking(p) {
      TakeAchieves(w, c, call);
    } else if p.HugeHeld? {
      HugeAchieves(w, c, call);
    } else if Carving(p) {
      CarveOutcome(w, c, call);
    } else if ActionOf(p).End? {
      EndOutcome(w, c, call);
      EndPlace(p);
    } else if p.Idle? {
      BeginOutcome(w, c, call);
    } else {
      RestOutcome(w, c, call);
    }
  }

  lemma FreeAchieves(w: World, c: nat, call: Call)
    requires WorldInv(w) && c < |w.jobs| && Enabled(w, c, call) && Freeing(w.sys.pc[c])
    ensures var v := Step(w, c, call); c < |v.jobs| && Achieves(w.st, v.st, w.sys.pc[c], w.jobs[c], v.jobs[c], call)
  {
    FreeOutcome(w, c, call);
    R.KfreeInv(w.st, w.jobs[c].ptr);
  }

  lemma TakeAchieves(w: World, c: nat, call: Call)
    requires WorldInv(w) && c < |w.jobs| && Enabled(w, c, call) && Taking(w.sys.pc[c])
    ensures var v := Step(w, c, call); c < |v.jobs| && Achieves(w.st, v.st, w.sys.pc[c], w.jobs[c], v.jobs[c], call)
  {
    TakeReady(w, c);
    TakeOutcome(w, c, call);
    var (p, s) := (w.sys.pc[c].page, w.jobs[c].size);
    FillInv(w.st, c, p, s);
    FillIs(w.st, p, s);
    var (st', x) := FillPage(w.st, p, s);
    assert OneMore(w.st.live, st'.live, s, p, x);
  }

  lemma HugeAchieves(w: World, c: nat, call: Call)
    requires WorldInv(w) && c < |w.jobs| && Enabled(w, c, call) && w.sys.pc[c].HugeHeld?
    ensures var v := Step(w, c, call); c < |v.jobs| && Achieves(w.st, v.st, w.sys.pc[c], w.jobs[c], v.jobs[c], call)
  {
    HugeOutcome(w, c, call);
    var s := w.jobs[c].size;
    AllocHugeInv(w.st, s);
    CarveHugeFinds(w.st.heap, s);
    var (st', x) := AllocHuge(w.st, s);
    if x != 0 { assert OneMore(w.st.live, st'.live, s, 0, x); }
  }
}
