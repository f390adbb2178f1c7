/** When the blocks of kernel/src/pmm.c are multiples of their size, as the comments at lines 183
    and 194 say, and a run in which they are not. */
module Misaligned {
  import opened Words
  import opened Memory
  import opened Chains
  import opened Tilings
  import opened FreeLists
  import opened HeapModel
  import opened PageModel
  import opened Allocator
  import opened AllocatorRuns
  import opened Witnesses

  /** A small block is aligned to its size exactly when its page is. */
  lemma SmallBlockAligned(st: State, x: int)
    requires Inv(st) && x in st.live && st.live[x].page != 0
    ensures st.live[x].size > 0
    ensures x % st.live[x].size == 0 <==> st.live[x].page % st.live[x].size == 0
  {
    SmallBlockIndex(st, x);
    var s, page := st.live[x].size, st.live[x].page;
    ClassFacts(s);
    var k :| 1 <= k < PAGE / s && x == page + k * s;
    DivUnique(k * s, s, k, 0);
    if page % s == 0 { MultipleAdd(page, k * s, s); }
    if x % s == 0 { MultipleAdd(x, k * s, s); }
  }

  // ---------------------------------------------------------- a run

  const HI := 0x14_0000
  const SIZE := 0x1_0000

  /** The two huge blocks, their headers in front of them, and the page. */
  const FIRST := 0x13_0000
  const SECOND := 0x11_FFF0
  const BASE := 0x12_FFF0

  function Tiles1(): Tiling { map[LO := Tile(0x2_FFF0, Free), BASE := Tile(0x1_0010, Huge)] }
  function Tiles2(): Tiling {
    map[LO := Tile(0x1_FFE0, Free), SECOND - HEADER := Tile(0x1_0010, Huge), BASE := Tile(0x1_0010, Huge)]
  }
  function Tiles3(): Tiling {
    map[LO := Tile(0x1_FFE0, Free), SECOND - HEADER := Tile(0x1_0010, Huge), BASE := Tile(SIZE, Free),
        HI - HEADER := Tile(HEADER, Lost)]
  }

  function NoPages(t: Tiling, list: seq<int>, live: map<int, Block>, dropped: nat): State {
    State(Heap(LO, HI, t, list), map[], [[]], map[], live, dropped)
  }

  function After0(): State { NoPages(map[LO := Tile(HI - LO, Free)], [LO], map[], 0) }
  function After1(): State { NoPages(Tiles1(), [LO], map[FIRST := Block(SIZE, 0)], 0) }
  function After2(): State {
    NoPages(Tiles2(), [LO], map[FIRST := Block(SIZE, 0), SECOND := Block(SIZE, 0)], 0)
  }
  function After3(): State { NoPages(Tiles3(), [BASE, LO], map[SECOND := Block(SIZE, 0)], 1) }

  lemma ClassOfSize()
    ensures SizeClass(SIZE) == SIZE
  {
    assert ClassFrom(0x1_0000, SIZE) == SIZE;
    assert ClassFrom(0x4000, SIZE) == SIZE;
    assert ClassFrom(0x1000, SIZE) == SIZE;
    assert ClassFrom(0x400, SIZE) == SIZE;
    assert ClassFrom(0x100, SIZE) == SIZE;
  }

  lemma OnlyNode(h: Heap, size: int)
    requires Sound(h) && h.list == [LO] && LO in h.tiles && h.tiles[LO].len >= size
    ensures HugeNode(h, size) == LO
  {
    assert h.list[0] == LO;
    assert LO in h.list;
  }

  /** A huge request on a heap with one free node. */
  lemma HugeStep(st: State, size: int)
    requires Inv(st) && 0 < |st.lists| && SMALL < size <= LARGE && SizeClass(size) == size
    requires st.heap.list == [LO] && LO in st.heap.tiles && st.heap.tiles[LO].len >= size + 2 * HEADER
    ensures Enabled(st, Alloc(0, size))
    ensures var t, x := st.heap.tiles, LO + st.heap.tiles[LO].len - size;
            Next(st, Alloc(0, size)) == st.(heap := st.heap.(tiles :=
                  Cut(t, LO, t[LO].len - size - HEADER, Free, Huge)), live := st.live[x := Block(size, 0)])
  {
    OnlyNode(st.heap, size);
    assert st.heap.lo > 0;
    assert Is(st.heap.tiles, LO, Free);
  }

  lemma Step0()
    ensures Inv(After0()) && Initial(LO, HI, 1) == After0()
  {
    InitialInv(LO, HI, 1);
    assert Initial(LO, HI, 1).lists == After0().lists;
  }

  lemma Step1()
    requires Inv(After0())
    ensures Enabled(After0(), Alloc(0, SIZE)) && Next(After0(), Alloc(0, SIZE)) == After1()
  {
    ClassOfSize();
    HugeStep(After0(), SIZE);
  }

  lemma Step2()
    requires Inv(After1())
    ensures Enabled(After1(), Alloc(0, SIZE)) && Next(After1(), Alloc(0, SIZE)) == After2()
  {
    ClassOfSize();
    HugeStep(After1(), SIZE);
  }

  /** The first block has no free neighbour: its node takes its place without the 16 bytes of the header. */
  lemma Step3()
    requires Inv(After2())
    ensures Enabled(After2(), Dealloc(FIRST)) && Next(After2(), Dealloc(FIRST)) == After3()
  {
    var st := After2();
    FreeHugeInv(st, FIRST);
    FreedHeap(st.heap);
    assert st.live - {FIRST} == map[SECOND := Block(SIZE, 0)];
  }

  lemma FreedHeap(h: Heap)
    requires h == After2().heap && Sound(h)
    ensures Is(h.tiles, BASE, Huge) && !MergesBefore(h, BASE) && !MergesAfter(h, BASE)
    ensures Release(h, BASE) == After3().heap
  {
    assert h.list[0] == LO && LO in h.list;
    assert Below(h.list, BASE) == LO && Above(h.list, BASE) == 0;
    assert ReleaseTiles(h, BASE) == Tiles3();
    assert ReleaseList(h, BASE) == [BASE, LO];
  }

  const SMALLEST := 32

  /** The page is the node the free left behind. */
  function Paged(): State {
    State(Heap(LO, HI, Tiles3()[BASE := Tile(PAGE, Page)], [LO]), map[BASE := Fresh(BASE, SMALLEST)], [[BASE]],
          map[BASE := 0], map[SECOND := Block(SIZE, 0)], 1)
  }

  lemma PageStep()
    requires Inv(After3())
    ensures AddPage(After3(), 0, SMALLEST) == (Paged(), BASE) && Inv(Paged())
  {
    var h := After3().heap;
    AddPageInv(After3(), 0, SMALLEST);
    assert h.list[0] == BASE && PageIndex(h) == 0;
    assert Drop(h.list, 0) == [LO];
    assert [BASE] + After3().lists[0] == [BASE];
    assert AddPage(After3(), 0, SMALLEST).0.lists == [[BASE]];
  }

  lemma BlockStep()
    requires Inv(Paged())
    ensures HasRoom(Paged(), BASE) && TakeFrom(Paged(), BASE).1 == BASE + SMALLEST
    ensures AllocSmall(Paged(), 0, SMALLEST) == TakeFrom(Paged(), BASE)
  {
    var st := Paged();
    FreshSound(BASE, SMALLEST);
    assert BASE in Usable(st, SMALLEST);
    assert st.lists[0][0] == BASE;
    assert First(st.lists[0], Usable(st, SMALLEST)) == 0;
  }

  lemma Step4() returns (st: State)
    requires Inv(After3())
    ensures Enabled(After3(), Alloc(0, 1)) && Next(After3(), Alloc(0, 1)) == st
    ensures BASE + SMALLEST in st.live && st.live[BASE + SMALLEST] == Block(SMALLEST, BASE)
  {
    PageStep();
    BlockStep();
    st := TakeFrom(Paged(), BASE).0;
    assert SizeClass(1) == SMALLEST;
    TakeFromInv(Paged(), BASE);
    assert Kalloc(After3(), 0, 1) == Done(st, BASE + SMALLEST);
  }

  /** A run that goes on with one more call. */
  lemma Longer(st0: State, ops: seq<Op>, st: State, op: Op, st': State)
    requires Inv(st0) && Reaches(st0, ops, st) && Inv(st) && Enabled(st, op) && Next(st, op) == st'
    ensures Inv(st') && Reaches(st0, ops + [op], st')
  {
    ReachesMore(st0, ops, st, op);
  }

  lemma HugeRun() returns (ops: seq<Op>)
    requires Inv(After0())
    ensures Reaches(After0(), ops, After2()) && Inv(After2())
  {
    ops := [];
    Step1();
    Longer(After0(), ops, After0(), Alloc(0, SIZE), After1());
    ops := ops + [Alloc(0, SIZE)];
    Step2();
    Longer(After0(), ops, After1(), Alloc(0, SIZE), After2());
    ops := ops + [Alloc(0, SIZE)];
  }

  lemma Remainder()
    ensures (BASE + SMALLEST) % SMALLEST == 16
  {
  }

  lemma FreedRun() returns (ops: seq<Op>)
    requires Inv(After0())
    ensures Reaches(After0(), ops, After3()) && Inv(After3())
  {
    ops := HugeRun();
    Step3();
    Longer(After0(), ops, After2(), Dealloc(FIRST), After3());
    ops := ops + [Dealloc(FIRST)];
  }

  /** Two huge blocks, the second not a multiple of its size; the first is freed and leaves a node,
      and with it a page, 16 bytes off: the next small block is no multiple of its size either. */
  lemma MisalignedRun() returns (ops: seq<Op>, st: State)
    ensures Inv(Initial(LO, HI, 1)) && Reaches(Initial(LO, HI, 1), ops, st) && Inv(st)
    ensures BASE + SMALLEST in st.live && st.live[BASE + SMALLEST] == Block(SMALLEST, BASE)
    ensures (BASE + SMALLEST) % SMALLEST == 16
  {
    Remainder();
    Step0();
    ops := FreedRun();
    st := Step4();
    Longer(After0(), ops, After3(), Alloc(0, 1), st);
    ops := ops + [Alloc(0, 1)];
  }

  /** Lines 467-486: a run after which the 16 bytes of a header belong to nobody. */
  lemma LostHeaderRun() returns (ops: seq<Op>, st: State)
    ensures Inv(Initial(LO, HI, 1)) && Reaches(Initial(LO, HI, 1), ops, st) && Inv(st)
    ensures st.dropped == 1 && InUse(st.heap, Lost) == HEADER
  {
    Step0();
    ops := FreedRun();
    st := After3();
  }

  /** Two huge requests of one size suffice for a huge block that is no multiple of its size. */
  lemma MisalignedHugeRun() returns (ops: seq<Op>, st: State)
    ensures Inv(Initial(LO, HI, 1)) && Reaches(Initial(LO, HI, 1), ops, st) && Inv(st)
    ensures SECOND in st.live && st.live[SECOND] == Block(SIZE, 0) && SECOND % SIZE != 0
  {
    Step0();
    ops := HugeRun();
    st := After2();
  }
}
