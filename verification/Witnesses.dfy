/** States that runs of kernel/src/pmm.c reach and in which one of its unchecked conditions fails. */
module Witnesses {
  import opened Memory
  import opened Chains
  import opened Tilings
  import opened FreeLists
  import opened HeapModel
  import opened PageModel
  import opened Allocator
  import opened AllocatorRuns

  const LO := 0x10_0000

  // ---------------------------------------------------------- line 206

  /** The assertion of line 206 fails exactly when a CPU's first small request finds no free node of
      64 KiB: kalloc stops the machine where line 293 would return NULL. */
  lemma HaltsExactly(st: State, cpu: int, req: int)
    requires Inv(st) && 0 <= cpu < |st.lists| && req <= SMALL
    ensures Kalloc(st, cpu, req).Halted? <==> st.lists[cpu] == [] && NoneHolds(st.heap, 65536)
  {
    CarvePageFinds(st.heap);
    SmallClass(req);
    AddPageInv(st, cpu, SizeClass(req));
  }

  /** The first small request on a heap of 32 KiB. */
  lemma HaltsAtOnce()
    ensures Inv(Initial(LO, LO + 0x8000, 1)) && Kalloc(Initial(LO, LO + 0x8000, 1), 0, 1).Halted?
  {
    var st := Initial(LO, LO + 0x8000, 1);
    InitialInv(LO, LO + 0x8000, 1);
    HaltsExactly(st, 0, 1);
  }

  // ---------------------------------------------------------- line 149

  lemma HugeClass()
    ensures SizeClass(0x8000) == 0x8000
  {
    assert ClassFrom(0x8000, 0x8000) == 0x8000;
    assert ClassFrom(0x2000, 0x8000) == 0x8000;
    assert ClassFrom(0x800, 0x8000) == 0x8000;
    assert ClassFrom(0x200, 0x8000) == 0x8000;
    assert ClassFrom(0x80, 0x8000) == 0x8000;
  }

  /** A heap of 32 KiB and a request for 32 KiB: the node is chosen, and has no room for the header. */
  lemma NoRoomForHeader()
    ensures var st := Initial(LO, LO + 0x8000, 1);
            Inv(st) && HugeNode(st.heap, 0x8000) == LO && !FitsGuard(st, 0x8000)
  {
    var st := Initial(LO, LO + 0x8000, 1);
    InitialInv(LO, LO + 0x8000, 1);
    HugeClass();
    assert LO in st.heap.list;
  }

  // ---------------------------------------------------------- runs on one page

  /** One CPU, one page at LO, nothing else but free heap. */
  ghost predicate OnePage(st: State, p: SizedPage) {
    Inv(st) && st.lists == [[LO]] && st.pages == map[LO := p] && p.base == LO
  }

  lemma FirstOfOne(good: set<int>)
    ensures First([LO], good) == if LO in good then 0 else 1
  {
    var i := First([LO], good);
    assert [LO][0] == LO;
  }

  lemma {:induction false} ReachesMore(st: State, ops: seq<Op>, st': State, op: Op)
    requires Inv(st) && Reaches(st, ops, st') && Inv(st') && Enabled(st', op)
    ensures Reaches(st, ops + [op], Next(st', op))
    decreases |ops|
  {
    if ops == [] {
      assert [op][1..] == [] && ([] + [op])[0] == op;
      assert [] + [op] == [op];
      assert Reaches(Next(st, op), [], Next(st, op));
    } else {
      assert (ops + [op])[0] == ops[0] && (ops + [op])[1..] == ops[1..] + [op];
      ReachesMore(Next(st, ops[0]), ops[1..], st', op);
    }
  }

  /** An allocation from the page. */
  lemma TakeStep(st: State, p: SizedPage, req: int)
    requires OnePage(st, p) && p.list != [] && !p.empty && req <= SMALL && SizeClass(req) == p.cls
    ensures PageSound(p) && Enabled(st, Alloc(0, req)) && OnePage(Next(st, Alloc(0, req)), Take(p).0)
  {
    assert st.pages[LO] == p;
    SmallClass(req);
    FirstOfOne(Usable(st, p.cls));
    TakeFromInv(st, LO);
    assert AllocSmall(st, 0, p.cls) == TakeFrom(st, LO);
    assert Kalloc(st, 0, req) == Done(TakeFrom(st, LO).0, TakeFrom(st, LO).1);
  }

  /** A free into the page. */
  lemma GiveStep(st: State, p: SizedPage, x: int)
    requires OnePage(st, p) && p.list != [] && Is(p.tiles, x, Live)
    ensures PageSound(p) && Enabled(st, Dealloc(x)) && OnePage(Next(st, Dealloc(x)), GiveBack(p, x))
  {
    assert st.pages[LO] == p;
    assert x in st.live && st.live[x].page == LO;
    FreeSmallInv(st, x);
  }

  /** The first page comes from the heap. */
  lemma FirstPage(s: int)
    requires ClassOk(s)
    ensures var st := Initial(LO, LO + PAGE, 1);
            && Inv(st) && AddPage(st, 0, s).1 == LO && OnePage(AddPage(st, 0, s).0, Fresh(LO, s)) &&
               PageSound(Fresh(LO, s))
  {
    var st := Initial(LO, LO + PAGE, 1);
    InitialInv(LO, LO + PAGE, 1);
    FreshSound(LO, s);
    AddPageInv(st, 0, s);
    FirstCarve();
    var st1 := AddPage(st, 0, s).0;
    assert st1.pages == map[LO := Fresh(LO, s)];
    assert [LO] + st.lists[0] == [LO];
    assert st1.lists == [[LO]];
  }

  lemma FirstCarve()
    ensures Sound(Initial(LO, LO + PAGE, 1).heap) && CarvePage(Initial(LO, LO + PAGE, 1).heap).1 == LO
  {
    var h := Initial(LO, LO + PAGE, 1).heap;
    InitialInv(LO, LO + PAGE, 1);
    assert h.list[0] == LO && Is(h.tiles, LO, Free);
    assert PageIndex(h) == 0;
  }

  /** The first allocation of all. */
  lemma FirstStep(req: int)
    requires req <= SMALL
    ensures var st := Initial(LO, LO + PAGE, 1);
            && Inv(st) && Enabled(st, Alloc(0, req))
            && PageSound(Fresh(LO, SizeClass(req))) && Fresh(LO, SizeClass(req)).list != []
            && OnePage(Next(st, Alloc(0, req)), Take(Fresh(LO, SizeClass(req))).0)
  {
    var st, s := Initial(LO, LO + PAGE, 1), SizeClass(req);
    SmallClass(req);
    FirstPage(s);
    var st1 := AddPage(st, 0, s).0;
    TakeStep(st1, Fresh(LO, s), req);
    AfterFirstPage(st, st1, req);
  }

  /** A request on an empty list is a page and then a request on the page. */
  lemma AfterFirstPage(st: State, st1: State, req: int)
    requires Inv(st) && req <= SMALL && |st.lists| == 1 && st.lists[0] == [] && st1 == AddPage(st, 0, SizeClass(req)).0
    requires AddPage(st, 0, SizeClass(req)).1 != 0 && Inv(st1) && Enabled(st1, Alloc(0, req)) && st1.lists == [[LO]]
    ensures Enabled(st, Alloc(0, req)) && Next(st, Alloc(0, req)) == Next(st1, Alloc(0, req))
  {
  }

  /** The class of the runs below: a page holds seven blocks. */
  const S := 0x2000

  /** Block i of the page. */
  function Nth(i: int): int { LO + i * S }

  predicate Holds(p: SizedPage, i: int, k: Kind) {
    Nth(i) in p.tiles && p.tiles[Nth(i)] == Tile(S, k)
  }

  /** The page after k allocations: blocks 1 to k live, the rest one free node. */
  ghost predicate Row(p: SizedPage, k: int) {
    && p.base == LO && p.cls == S && !p.empty && 1 <= k <= 7
    && (forall i {:trigger Holds(p, i, Live)} :: 1 <= i <= k ==> Holds(p, i, Live))
    && (if k == 7 then p.list == []
       else p.list == [Nth(k + 1)] && Is(p.tiles, Nth(k + 1), Free) && p.tiles[Nth(k + 1)].len == (7 - k) * S)
  }

  lemma FirstRow()
    ensures PageSound(Fresh(LO, S)) && Row(Take(Fresh(LO, S)).0, 1)
  {
    FreshSound(LO, S);
  }

  lemma NextRow(p: SizedPage, k: int)
    requires PageSound(p) && Row(p, k) && k < 7
    ensures Row(Take(p).0, k + 1)
  {
    var q := Take(p).0;
    forall i | 1 <= i <= k + 1 ensures Holds(q, i, Live) {
      if i <= k { assert Holds(p, i, Live); }
    }
  }

  lemma ClassOfS()
    ensures SizeClass(S) == S
  {
    assert ClassFrom(S, S) == S;
    assert ClassFrom(0x800, S) == S;
    assert ClassFrom(0x200, S) == S;
    assert ClassFrom(0x80, S) == S;
  }

  /** Allocating block after block. */
  lemma {:induction false} FillRow(k: int) returns (ops: seq<Op>, st: State, p: SizedPage)
    requires 1 <= k <= 7
    ensures Inv(Initial(LO, LO + PAGE, 1)) && Reaches(Initial(LO, LO + PAGE, 1), ops, st)
    ensures OnePage(st, p) && Row(p, k)
    decreases k
  {
    ClassOfS();
    InitialInv(LO, LO + PAGE, 1);
    if k == 1 {
      FirstStep(S);
      FirstRow();
      ops, st, p := [Alloc(0, S)], Next(Initial(LO, LO + PAGE, 1), Alloc(0, S)), Take(Fresh(LO, S)).0;
      ReachesMore(Initial(LO, LO + PAGE, 1), [], Initial(LO, LO + PAGE, 1), Alloc(0, S));
      assert [] + [Alloc(0, S)] == ops;
    } else {
      var ops0, st0, p0 := FillRow(k - 1);
      TakeStep(st0, p0, S);
      NextRow(p0, k - 1);
      ops, st, p := ops0 + [Alloc(0, S)], Next(st0, Alloc(0, S)), Take(p0).0;
      ReachesMore(Initial(LO, LO + PAGE, 1), ops0, st0, Alloc(0, S));
    }
  }

  // ---------------------------------------------------------- lines 341 and 409

  /** A run that fills a page: no block of it can be freed properly any more.  FullPageDamage says
      what becomes of memory. */
  lemma FullPage() returns (ops: seq<Op>, st: State)
    ensures Inv(Initial(LO, LO + PAGE, 1)) && Reaches(Initial(LO, LO + PAGE, 1), ops, st) && Inv(st)
    ensures forall i {:trigger Nth(i)} :: 1 <= i <= 7 ==>
              Nth(i) in st.live && st.live[Nth(i)] == Block(S, LO) && !RoomGuard(st, Nth(i))
  {
    var p;
    ops, st, p := FillRow(7);
    assert st.pages[LO] == p;
    forall i | 1 <= i <= 7 ensures Nth(i) in st.live && st.live[Nth(i)] == Block(S, LO) && !RoomGuard(st, Nth(i)) {
      assert Holds(p, i, Live) && Is(st.pages[LO].tiles, Nth(i), Live);
      assert BlockSound(Nth(i), st.live[Nth(i)], st.heap.tiles, st.pages);
    }
  }

  // ---------------------------------------------------------- line 376

  /** The page with the given free list and at least the given live blocks. */
  ghost predicate Gaps(p: SizedPage, list: seq<int>, live: set<int>) {
    && p.base == LO && p.cls == S && !p.empty && p.list == list
    && (forall i {:trigger Holds(p, i, Live)} :: i in live ==> Holds(p, i, Live))
  }

  /** A block with no free neighbour goes to the head of the list. */
  lemma FreeAlone(p: SizedPage, i: int, list: seq<int>, live: set<int>)
    requires PageSound(p) && Gaps(p, list, live) && i in live && 1 <= i
    requires forall a {:trigger a in list} :: a in list ==> a > Nth(i) + S
    ensures Is(p.tiles, Nth(i), Live)
    ensures var q := GiveBack(p, Nth(i)); Gaps(q, [Nth(i)] + list, live - {i}) && Holds(q, i, Free)
    ensures forall k {:trigger Holds(GiveBack(p, Nth(i)), k, Free)} :: Holds(p, k, Free) ==>
        Holds(GiveBack(p, Nth(i)), k, Free)
  {
    assert Holds(p, i, Live);
    var b, q := Nth(i), GiveBack(p, Nth(i));
    NoNull(p.tiles, p.base, p.base + PAGE, p.list);
    assert Below(list, b) == 0;
    assert Above(list, b) != End(p.tiles, b);
    forall k | k in live - {i} ensures Holds(q, k, Live) { assert Holds(p, k, Live); }
  }

  /** Block 6, with node 7 behind it and nodes 2 and 4 in front. */
  lemma FreeSix(p: SizedPage)
    requires PageSound(p) && Gaps(p, [Nth(2), Nth(4), Nth(7)], {1, 3, 5, 6}) && Holds(p, 2, Free) &&
        Holds(p, 4, Free) && Holds(p, 7, Free)
    ensures Is(p.tiles, Nth(6), Live)
    ensures var q := GiveBack(p, Nth(6)); Gaps(q, [Nth(6), Nth(2), Nth(4)], {1, 3, 5}) && Holds(q, 4, Free)
  {
    assert Holds(p, 6, Live);
    var list, b, q := p.list, Nth(6), GiveBack(p, Nth(6));
    NoNull(p.tiles, p.base, p.base + PAGE, list);
    assert Nth(2) in list && Nth(4) in list && Nth(7) in list;
    assert Below(list, b) == Nth(4) && Above(list, b) == Nth(7);
    WithoutLast(list);
    forall k | k in {1, 3, 5} ensures Holds(q, k, Live) { assert Holds(p, k, Live); }
  }

  lemma WithoutLast(list: seq<int>)
    requires list == [Nth(2), Nth(4), Nth(7)]
    ensures Nth(7) in list && Without(list, Nth(7)) == [Nth(2), Nth(4)]
  {
    assert list[2] == Nth(7);
    IndexOfAt(list, 2);
  }

  /** Freeing block 5 now loses node 2. */
  lemma FiveForgets(p: SizedPage)
    requires PageSound(p) && Gaps(p, [Nth(6), Nth(2), Nth(4)], {1, 3, 5}) && Holds(p, 4, Free)
    ensures Is(p.tiles, Nth(5), Live) && ForgetsNodes(p, Nth(5))
  {
    assert Holds(p, 5, Live);
    var list, b := p.list, Nth(5);
    NoNull(p.tiles, p.base, p.base + PAGE, list);
    assert Nth(6) in list && Nth(2) in list && Nth(4) in list;
    assert Below(list, b) == Nth(4) && Above(list, b) == Nth(6);
  }

  lemma SixToGaps(p: SizedPage)
    requires PageSound(p) && Row(p, 6)
    ensures Gaps(p, [Nth(7)], {1, 2, 3, 4, 5, 6}) && Holds(p, 7, Free)
  {
    forall i | i in {1, 2, 3, 4, 5, 6} ensures Holds(p, i, Live) { assert 1 <= i <= 6; }
  }

  /** The pages after each of the three frees. */
  lemma GapPages(p: SizedPage) returns (p1: SizedPage, p2: SizedPage, p3: SizedPage)
    requires PageSound(p) && Row(p, 6)
    ensures Is(p.tiles, Nth(4), Live) && p1 == GiveBack(p, Nth(4)) && p1.list != [] && PageSound(p1)
    ensures Is(p1.tiles, Nth(2), Live) && p2 == GiveBack(p1, Nth(2)) && p2.list != [] && PageSound(p2)
    ensures Is(p2.tiles, Nth(6), Live) && p3 == GiveBack(p2, Nth(6)) && p3.list != [] && PageSound(p3)
    ensures Is(p3.tiles, Nth(5), Live) && ForgetsNodes(p3, Nth(5))
  {
    SixToGaps(p);
    FreeAlone(p, 4, [Nth(7)], {1, 2, 3, 4, 5, 6});
    GiveBackSound(p, Nth(4));
    p1 := GiveBack(p, Nth(4));
    assert {1, 2, 3, 4, 5, 6} - {4} == {1, 2, 3, 5, 6};
    FreeAlone(p1, 2, [Nth(4), Nth(7)], {1, 2, 3, 5, 6});
    GiveBackSound(p1, Nth(2));
    p2 := GiveBack(p1, Nth(2));
    assert {1, 2, 3, 5, 6} - {2} == {1, 3, 5, 6};
    FreeSix(p2);
    GiveBackSound(p2, Nth(6));
    p3 := GiveBack(p2, Nth(6));
    FiveForgets(p3);
  }

  /** From a run to a page, a run to the page with one more block given back. */
  lemma GiveMore(ops0: seq<Op>, st0: State, p0: SizedPage, x: int) returns (ops: seq<Op>, st: State)
    requires Inv(Initial(LO, LO + PAGE, 1)) && Reaches(Initial(LO, LO + PAGE, 1), ops0, st0)
    requires OnePage(st0, p0) && p0.list != [] && Is(p0.tiles, x, Live)
    ensures Reaches(Initial(LO, LO + PAGE, 1), ops, st) && PageSound(p0) && OnePage(st, GiveBack(p0, x))
  {
    GiveStep(st0, p0, x);
    ops, st := ops0 + [Dealloc(x)], Next(st0, Dealloc(x));
    ReachesMore(Initial(LO, LO + PAGE, 1), ops0, st0, Dealloc(x));
  }

  lemma OnePageSound(st: State, p: SizedPage)
    requires OnePage(st, p)
    ensures PageSound(p) && st.pages[LO] == p
  {
  }

  /** A run that never fills the page: blocks 1 to 6 allocated, then 4, 2 and 6 freed.  Freeing
      block 5 next makes the code forget node 2, which is free and listed. */
  lemma ForgettingRun() returns (ops: seq<Op>, st: State)
    ensures Inv(Initial(LO, LO + PAGE, 1)) && Reaches(Initial(LO, LO + PAGE, 1), ops, st) && Inv(st)
    ensures LO in st.pages && PageSound(st.pages[LO]) && st.pages[LO].list != []
    ensures Is(st.pages[LO].tiles, Nth(5), Live) && ForgetsNodes(st.pages[LO], Nth(5))
  {
    var p;
    ops, st, p := FillRow(6);
    OnePageSound(st, p);
    var p1, p2, p3 := GapPages(p);
    ops, st := GiveMore(ops, st, p, Nth(4));
    ops, st := GiveMore(ops, st, p1, Nth(2));
    ops, st := GiveMore(ops, st, p2, Nth(6));
    OnePageSound(st, p3);
  }
}
