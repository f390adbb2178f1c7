/** kalloc and kfree of kernel/src/pmm.c over whole runs: which transition each call
    takes, and what holds in every state a run can reach. */
module AllocatorRuns {
  import opened Words
  import opened Memory
  import opened Chains
  import opened Tilings
  import opened FreeLists
  import opened HeapModel
  import opened PageModel
  import opened Allocator

  const SMALL := 16384
  const LARGE := 16777216

  // ---------------------------------------------------------- size classes

  /** Doubling from p until `req` fits: lines 182-186 and 193-197. */
  function ClassFrom(p: nat, req: int): (s: nat)
    requires p > 0
    ensures s >= p && s >= req
    decreases req - p
  {
    if p >= req then p else ClassFrom(2 * p, req)
  }

  function SizeClass(req: int): nat { ClassFrom(32, req) }

  /** The class is the least power of two that is at least 32 and holds the request. */
  lemma {:induction false} LeastPower(e: nat, req: int)
    ensures exists k :: k >= e && ClassFrom(Pow2(e), req) == Pow2(k)
    ensures forall k {:trigger Pow2(k)} :: k >= e && Pow2(k) >= req ==> Pow2(k) >= ClassFrom(Pow2(e), req)
    decreases req - Pow2(e)
  {
    if Pow2(e) >= req {
      assert ClassFrom(Pow2(e), req) == Pow2(e);
      forall k: nat | k >= e ensures Pow2(k) >= Pow2(e) { Pow2Mono(e, k); }
    } else {
      LeastPower(e + 1, req);
      assert ClassFrom(Pow2(e), req) == ClassFrom(Pow2(e + 1), req);
      assert forall k: nat :: k >= e && Pow2(k) >= req ==> k != e;
    }
  }

  lemma SmallClass(req: int)
    requires req <= SMALL
    ensures ClassOk(SizeClass(req)) && SizeClass(req) >= req
  {
    assert ClassFrom(16384, req) == 16384;
    assert ClassFrom(8192, req) == 8192 || ClassFrom(8192, req) == ClassFrom(16384, req);
    assert ClassFrom(4096, req) == 4096 || ClassFrom(4096, req) == ClassFrom(8192, req);
    assert ClassFrom(2048, req) == 2048 || ClassFrom(2048, req) == ClassFrom(4096, req);
    assert ClassFrom(1024, req) == 1024 || ClassFrom(1024, req) == ClassFrom(2048, req);
    assert ClassFrom(512, req) == 512 || ClassFrom(512, req) == ClassFrom(1024, req);
    assert ClassFrom(256, req) == 256 || ClassFrom(256, req) == ClassFrom(512, req);
    assert ClassFrom(128, req) == 128 || ClassFrom(128, req) == ClassFrom(256, req);
    assert ClassFrom(64, req) == 64 || ClassFrom(64, req) == ClassFrom(128, req);
  }

  lemma {:induction false} ClassMultiple(p: nat, req: int)
    requires p > 0 && p % 16 == 0
    ensures ClassFrom(p, req) % 16 == 0
    decreases req - p
  {
    if p < req { ClassMultiple(2 * p, req); }
  }

  // ---------------------------------------------------------- which page serves a request

  /** i is the first position of the list that holds a member of `good`. */
  ghost predicate IsFirst(list: seq<int>, good: set<int>, i: int) {
    && 0 <= i <= |list|
    && (i < |list| ==> list[i] in good)
    && forall j {:trigger list[j]} :: 0 <= j < i ==> list[j] !in good
  }

  lemma {:induction false} FirstExists(list: seq<int>, good: set<int>, k: nat)
    requires k <= |list| && forall j {:trigger list[j]} :: 0 <= j < k ==> list[j] !in good
    ensures exists i :: IsFirst(list, good, i)
    decreases |list| - k
  {
    if k == |list| || list[k] in good { assert IsFirst(list, good, k); } else { FirstExists(list, good, k + 1); }
  }

  ghost function First(list: seq<int>, good: set<int>): (i: nat)
    ensures IsFirst(list, good, i)
  {
    FirstExists(list, good, 0);
    var i :| IsFirst(list, good, i);
    i
  }

  /** Pages of class s with room, and pages that may be re-typed: the tests of lines 221 and 274. */
  function Usable(st: State, s: int): set<int> {
    set ph | ph in st.pages && HasRoom(st, ph) && st.pages[ph].cls == s
  }

  function Empties(st: State): set<int> {
    set ph | ph in st.pages && st.pages[ph].empty
  }

  // ---------------------------------------------------------- kalloc

  /** Lines 217-307. */
  ghost function AllocSmall(st: State, cpu: int, s: int): (State, int)
    requires Inv(st) && 0 <= cpu < |st.lists| && ClassOk(s)
  {
    var list := st.lists[cpu];
    var i, j := First(list, Usable(st, s)), First(list, Empties(st));
    if i < |list| then TakeFrom(st, list[i])
    else if j < |list| then
      RetypeInv(st, list[j], s);
      TakeFrom(Retype(st, list[j], s), list[j])
    else
      AddPageInv(st, cpu, s);
      var (st', a) := AddPage(st, cpu, s);
      if a == 0 then (st, 0) else TakeFrom(st', a)
  }

  /** A block of class s that nobody held is handed to the caller; no other client's block changes. */
  ghost predicate Handed(live: map<int, Block>, live': map<int, Block>, x: int, size: int) {
    x !in live && x in live' && live'[x].size == size && live' == live[x := live'[x]]
  }

  lemma TakeHanded(st: State, ph: int)
    requires Inv(st) && HasRoom(st, ph)
    ensures var (st', x) := TakeFrom(st, ph);
            && Inv(st') && |st'.lists| == |st.lists| && x != 0
            && Handed(st.live, st'.live, x, st.pages[ph].cls) && st'.live[x].page != 0
  {
    NoNullPage(st);
    TakeFromInv(st, ph);
  }

  lemma AllocSmallInv(st: State, cpu: int, s: int)
    requires Inv(st) && 0 <= cpu < |st.lists| && ClassOk(s)
    ensures var (st', x) := AllocSmall(st, cpu, s);
            && Inv(st') && |st'.lists| == |st.lists|
            && (x == 0 ==> st' == st)
            && (x != 0 ==> Handed(st.live, st'.live, x, s) && st'.live[x].page != 0)
  {
    var list := st.lists[cpu];
    var i, j := First(list, Usable(st, s)), First(list, Empties(st));
    if i < |list| {
      TakeHanded(st, list[i]);
      assert AllocSmall(st, cpu, s) == TakeFrom(st, list[i]);
    } else if j < |list| {
      RetypeInv(st, list[j], s);
      TakeHanded(Retype(st, list[j], s), list[j]);
      assert AllocSmall(st, cpu, s) == TakeFrom(Retype(st, list[j], s), list[j]);
    } else {
      NewPageHanded(st, cpu, s);
    }
  }

  /** The block comes from a new page, or there is none. */
  lemma NewPageHanded(st: State, cpu: int, s: int)
    requires Inv(st) && 0 <= cpu < |st.lists| && ClassOk(s)
    ensures var (st1, a) := AddPage(st, cpu, s);
            a != 0 ==>
              && Inv(st1) && HasRoom(st1, a)
              && var (st', x) := TakeFrom(st1, a);
                 Inv(st') && |st'.lists| == |st.lists| && x != 0 && Handed(st.live, st'.live, x, s) &&
                   st'.live[x].page != 0
  {
    AddPageInv(st, cpu, s);
    var (st1, a) := AddPage(st, cpu, s);
    if a != 0 { TakeHanded(st1, a); }
  }

  /** Small requests touch the heap only to carve a page. */
  lemma AllocSmallHeap(st: State, cpu: int, s: int)
    requires Inv(st) && 0 <= cpu < |st.lists| && ClassOk(s)
    ensures AllocSmall(st, cpu, s).0.heap in {st.heap, CarvePage(st.heap).0}
  {
  }

  /** What a call of kalloc comes to: the assertion of line 206 stops the machine, or a state and a pointer. */
  datatype Outcome = Halted | Done(st: State, ptr: int)

  /** A huge request asks the chosen node for more room than line 149 tests for. */
  ghost predicate FitsGuard(st: State, req: int)
    requires Inv(st)
  {
    SMALL < req <= LARGE ==> HugeFits(st.heap, SizeClass(req))
  }

  /** `kalloc`, lines 174-308. */
  ghost function Kalloc(st: State, cpu: int, req: int): Outcome
    requires Inv(st) && 0 <= cpu < |st.lists| && FitsGuard(st, req)
  {
    var s := SizeClass(req);
    if req > LARGE then Done(st, 0)
    else if req > SMALL then
      var (st', x) := AllocHuge(st, s);
      Done(st', x)
    else
      SmallClass(req);
      AddPageInv(st, cpu, s);
      var (st', a) := if st.lists[cpu] == [] then AddPage(st, cpu, s) else (st, 1);
      if a == 0 then Halted
      else
        var (st'', x) := AllocSmall(st', cpu, s);
        Done(st'', x)
  }

  /** kalloc keeps the invariant; a non-NULL result is a block of the request's class that
      no client held, and no other client's block changes. */
  lemma KallocInv(st: State, cpu: int, req: int)
    requires Inv(st) && 0 <= cpu < |st.lists| && FitsGuard(st, req)
    ensures var o := Kalloc(st, cpu, req);
            o.Done? ==>
              && Inv(o.st) && |o.st.lists| == |st.lists|
              && (o.ptr == 0 ==> o.st.live == st.live)
              && (o.ptr != 0 ==>
                    && Handed(st.live, o.st.live, o.ptr, SizeClass(req)) && SizeClass(req) >= req
                    && (o.st.live[o.ptr].page == 0 <==> req > SMALL))
  {
    var s := SizeClass(req);
    if req > LARGE {
    } else if req > SMALL {
      ClassMultiple(32, req);
      AllocHugeInv(st, s);
    } else {
      SmallClass(req);
      AddPageInv(st, cpu, s);
      if st.lists[cpu] == [] {
        var (st', a) := AddPage(st, cpu, s);
        if a != 0 { AllocSmallInv(st', cpu, s); }
      } else {
        AllocSmallInv(st, cpu, s);
      }
    }
  }

  /** kalloc returns NULL exactly for requests above 16 MiB, for huge ones that no free node holds, and
      for small ones of a CPU that has pages, none with room in the class and none empty, when no free
      node holds 64 KiB. */
  lemma KallocNull(st: State, cpu: int, req: int)
    requires Inv(st) && 0 <= cpu < |st.lists| && FitsGuard(st, req) && Kalloc(st, cpu, req).Done?
    ensures Kalloc(st, cpu, req).ptr == 0 <==>
              if req > 0x100_0000 then true
              else if req > 0x4000 then NoneHolds(st.heap, SizeClass(req))
              else
                && st.lists[cpu] != [] && NoneHolds(st.heap, 65536)
                && forall p {:trigger st.pages[p]} {:trigger p in st.lists[cpu]} :: p in st.lists[cpu] ==>
                     && p in st.pages && !st.pages[p].empty
                     && (st.pages[p].cls == SizeClass(req) ==> st.pages[p].list == [])
  {
    var s := SizeClass(req);
    if req > SMALL {
      if req <= LARGE {
        CarveHugeFinds(st.heap, s);
        AllocHugeInv(st, s) by { ClassMultiple(32, req); }
      }
    } else {
      SmallClass(req);
      AddPageInv(st, cpu, s);
      if st.lists[cpu] == [] {
        FirstSmall(st, cpu, s);
      } else {
        SmallNull(st, cpu, s);
      }
    }
  }

  lemma FirstSmall(st: State, cpu: int, s: int)
    requires Inv(st) && 0 <= cpu < |st.lists| && ClassOk(s) && st.lists[cpu] == [] && AddPage(st, cpu, s).1 != 0
    ensures Inv(AddPage(st, cpu, s).0) && AllocSmall(AddPage(st, cpu, s).0, cpu, s).1 != 0
  {
    AddPageInv(st, cpu, s);
    var (st', a) := AddPage(st, cpu, s);
    assert st'.lists[cpu][0] == a && a in Usable(st', s);
    assert First(st'.lists[cpu], Usable(st', s)) == 0;
    TakeHanded(st', a);
  }

  /** No page of the list gives a block of the class, whatever page one takes. */
  lemma SmallNull(st: State, cpu: int, s: int)
    requires Inv(st) && 0 <= cpu < |st.lists| && ClassOk(s)
    ensures AllocSmall(st, cpu, s).1 == 0 <==>
              && NoneHolds(st.heap, 65536)
              && forall p {:trigger st.pages[p]} {:trigger p in st.lists[cpu]} :: p in st.lists[cpu] ==>
                   p in st.pages && !st.pages[p].empty && (st.pages[p].cls == s ==> st.pages[p].list == [])
  {
    var list := st.lists[cpu];
    var i, j := First(list, Usable(st, s)), First(list, Empties(st));
    CarvePageFinds(st.heap);
    NoNullPage(st);
    if i < |list| {
      TakeHanded(st, list[i]);
      assert list[i] in list;
    } else if j < |list| {
      RetypeInv(st, list[j], s);
      TakeHanded(Retype(st, list[j], s), list[j]);
      assert list[j] in list;
    } else {
      NewPageHanded(st, cpu, s);
      NoneOfList(st, cpu, s);
    }
  }

  lemma NoneOfList(st: State, cpu: int, s: int)
    requires Inv(st) && 0 <= cpu < |st.lists|
    requires First(st.lists[cpu], Usable(st, s)) == First(st.lists[cpu], Empties(st)) == |st.lists[cpu]|
    ensures forall p {:trigger st.pages[p]} {:trigger p in st.lists[cpu]} :: p in st.lists[cpu] ==>
              p in st.pages && !st.pages[p].empty && (st.pages[p].cls == s ==> st.pages[p].list == [])
  {
    var list := st.lists[cpu];
    forall p | p in list
      ensures p in st.pages && !st.pages[p].empty && (st.pages[p].cls == s ==> st.pages[p].list == []) {
      var k :| 0 <= k < |list| && list[k] == p;
      assert p in st.cpuOf && p !in Usable(st, s) && p !in Empties(st);
    }
  }

  /** The page can give out a block of class s without being re-typed. */
  predicate RoomFor(st: State, p: int, s: int) {
    p in st.pages && !st.pages[p].empty && st.pages[p].cls == s && st.pages[p].list != []
  }

  predicate IsEmptyPage(st: State, p: int) { p in st.pages && st.pages[p].empty }

  /** Page p is the first of the list with room for class s. */
  ghost predicate FirstRoom(st: State, list: seq<int>, p: int, s: int) {
    exists i {:trigger list[i]} :: 0 <= i < |list| && list[i] == p && RoomFor(st, p, s) &&
      forall k {:trigger list[k]} :: 0 <= k < i ==> !RoomFor(st, list[k], s)
  }

  ghost predicate FirstEmpty(st: State, list: seq<int>, p: int) {
    exists i {:trigger list[i]} :: 0 <= i < |list| && list[i] == p && IsEmptyPage(st, p) &&
      forall k {:trigger list[k]} :: 0 <= k < i ==> !IsEmptyPage(st, list[k])
  }

  ghost predicate NoneWithRoom(st: State, list: seq<int>, s: int) {
    forall k {:trigger list[k]} :: 0 <= k < |list| ==> !RoomFor(st, list[k], s)
  }

  ghost predicate NoneEmpty(st: State, list: seq<int>) {
    forall k {:trigger list[k]} :: 0 <= k < |list| ==> !IsEmptyPage(st, list[k])
  }

  /** What the two searches of lines 219-226 and 272-280 find. */
  lemma SearchesFind(st: State, list: seq<int>, s: int)
    ensures var i := First(list, Usable(st, s));
            if i < |list| then FirstRoom(st, list, list[i], s) && !NoneWithRoom(st, list, s)
            else NoneWithRoom(st, list, s)
    ensures var j := First(list, Empties(st));
            if j < |list| then FirstEmpty(st, list, list[j]) && !NoneEmpty(st, list) else NoneEmpty(st, list)
  {
    forall p ensures p in Usable(st, s) <==> RoomFor(st, p, s) {}
    forall p ensures p in Empties(st) <==> IsEmptyPage(st, p) {}
  }

  /** Where a small block comes from: the head of the free list of the CPU's first page with room in the
      class; without one, the start of its first empty page; without one, of a new page in front of its list. */
  lemma SmallBlockFrom(st: State, cpu: int, s: int)
    requires Inv(st) && 0 <= cpu < |st.lists| && ClassOk(s) && AllocSmall(st, cpu, s).1 != 0
    ensures var (st', x) := AllocSmall(st, cpu, s);
            var list := st.lists[cpu];
            && x in st'.live
            && var p := st'.live[x].page;
               if !NoneWithRoom(st, list, s) then
                 FirstRoom(st, list, p, s) && x == st.pages[p].list[0] && st'.heap == st.heap
               else if !NoneEmpty(st, list) then FirstEmpty(st, list, p) && x == p + s && st'.heap == st.heap
               else Is(st.heap.tiles, p, Free) && st'.lists[cpu] == [p] + list && x == p + s
  {
    var list := st.lists[cpu];
    var i, j := First(list, Usable(st, s)), First(list, Empties(st));
    SearchesFind(st, list, s);
    if i < |list| {
      TakePlace(st, list[i]);
    } else if j < |list| {
      RetypeInv(st, list[j], s);
      TakePlace(Retype(st, list[j], s), list[j]);
    } else {
      NewPlace(st, cpu, s);
    }
  }

  lemma TakePlace(st: State, p: int)
    requires Inv(st) && HasRoom(st, p)
    ensures var (st', x) := TakeFrom(st, p);
            && x in st'.live && st'.live[x].page == p && x == st.pages[p].list[0]
            && st'.heap == st.heap && st'.lists == st.lists
  {
  }

  lemma NewPlace(st: State, cpu: int, s: int)
    requires Inv(st) && 0 <= cpu < |st.lists| && ClassOk(s) && AddPage(st, cpu, s).1 != 0
    ensures var (st1, p) := AddPage(st, cpu, s);
            && Inv(st1) && HasRoom(st1, p) && Is(st.heap.tiles, p, Free)
            && var (st', x) := TakeFrom(st1, p);
               x in st'.live && st'.live[x].page == p && x == p + s && st'.lists[cpu] == [p] + st.lists[cpu]
  {
    AddPageInv(st, cpu, s);
    CarvePageSound(st.heap);
    var (st1, p) := AddPage(st, cpu, s);
    TakePlace(st1, p);
    assert st1.pages[p] == Fresh(p, s);
  }

  // ---------------------------------------------------------- kfree

  /** The free list of the block's page is not empty: index 0 breaks `kfree`. */
  predicate RoomGuard(st: State, x: int)
    requires x in st.live
  {
    st.live[x].page == 0 || (st.live[x].page in st.pages && st.pages[st.live[x].page].list != [])
  }

  /** `kfree`, lines 310-490, of a block the client holds. */
  ghost function Kfree(st: State, x: int): State
    requires Inv(st) && x in st.live
  {
    if st.live[x].page == 0 then FreeHugeInv(st, x); FreeHugeBlock(st, x)
    else FreeSmallInv(st, x); FreeSmallBlock(st, x, st.live[x].page)
  }

  lemma KfreeInv(st: State, x: int)
    requires Inv(st) && x in st.live
    ensures Inv(Kfree(st, x)) && Kfree(st, x).live == st.live - {x} && |Kfree(st, x).lists| == |st.lists|
  {
    if st.live[x].page == 0 { FreeHugeInv(st, x); } else { FreeSmallInv(st, x); }
  }

  // ---------------------------------------------------------- runs

  datatype Op = Alloc(cpu: int, req: int) | Dealloc(ptr: int)

  /** Clients free only what they hold; the two guards are those the code leaves unchecked. */
  ghost predicate Enabled(st: State, op: Op)
    requires Inv(st)
  {
    match op
    case Alloc(cpu, req) => 0 <= cpu < |st.lists| && FitsGuard(st, req) && Kalloc(st, cpu, req).Done?
    case Dealloc(x) => x in st.live && RoomGuard(st, x)
  }

  ghost function Next(st: State, op: Op): (st': State)
    requires Inv(st) && Enabled(st, op)
    ensures Inv(st')
  {
    match op
    case Alloc(cpu, req) => KallocInv(st, cpu, req); Kalloc(st, cpu, req).st
    case Dealloc(x) => KfreeInv(st, x); Kfree(st, x)
  }

  ghost predicate Reaches(st: State, ops: seq<Op>, st': State)
    requires Inv(st)
    decreases |ops|
  {
    if ops == [] then st' == st
    else Enabled(st, ops[0]) && Reaches(Next(st, ops[0]), ops[1..], st')
  }

  /** `pmm_init` on a heap of whole records, for `ncpu` CPUs. */
  function Initial(lo: int, hi: int, ncpu: nat): State {
    State(Heap(lo, hi, map[lo := Tile(hi - lo, Free)], [lo]), map[], seq(ncpu, _ => []), map[], map[], 0)
  }

  lemma InitialInv(lo: int, hi: int, ncpu: nat)
    requires 0 < lo < hi && lo % 16 == 0 && hi % 16 == 0 && hi - lo < INT_LIMIT
    ensures Inv(Initial(lo, hi, ncpu))
  {
    var st := Initial(lo, hi, ncpu);
    InitialHeap(lo, hi);
    Unroll(st.heap.tiles, lo, hi, Page);
    Unroll(st.heap.tiles, lo, hi, Lost);
    forall c | 0 <= c < ncpu ensures Distinct(st.lists[c]) && 0 !in st.lists[c] {}
    assert PagesSound(st.pages, st.heap.tiles);
    assert ListsSound(st.lists, st.cpuOf, st.pages);
    assert LiveSound(st.live, st.heap.tiles, st.pages);
  }

  lemma InitialHeap(lo: int, hi: int)
    requires 0 < lo < hi && lo % 16 == 0 && hi % 16 == 0
    ensures var h := Initial(lo, hi, 0).heap; Sound(h) && Coalesced(h.tiles)
  {
    var t: Tiling := map[lo := Tile(hi - lo, Free)];
    assert End(t, lo) == hi;
    assert lo in [lo];
    assert Distinct([lo]);
  }

  lemma {:induction false} RunInv(st: State, ops: seq<Op>, st': State)
    requires Inv(st) && Reaches(st, ops, st')
    ensures Inv(st') && st'.heap.lo == st.heap.lo && st'.heap.hi == st.heap.hi
    decreases |ops|
  {
    if ops != [] {
      BoundsKept(st, ops[0]);
      RunInv(Next(st, ops[0]), ops[1..], st');
    }
  }

  lemma BoundsKept(st: State, op: Op)
    requires Inv(st) && Enabled(st, op)
    ensures Next(st, op).heap.lo == st.heap.lo && Next(st, op).heap.hi == st.heap.hi
  {
    match op
    case Alloc(cpu, req) => if req <= SMALL { SmallHeap(st, cpu, req); } else { HugeHeap(st, cpu, req); }
    case Dealloc(x) =>
  }

  lemma HugeHeap(st: State, cpu: int, req: int)
    requires Inv(st) && Enabled(st, Alloc(cpu, req)) && req > SMALL
    ensures var h' := Next(st, Alloc(cpu, req)).heap; h'.lo == st.heap.lo && h'.hi == st.heap.hi
  {
  }

  /** kalloc of a small request carves no page, one, or (never, but the proof need not know) two. */
  lemma SmallHeap(st: State, cpu: int, req: int)
    requires Inv(st) && Enabled(st, Alloc(cpu, req)) && req <= SMALL
    ensures var h, h' := st.heap, Next(st, Alloc(cpu, req)).heap;
            var h1 := CarvePage(h).0;
            Sound(h1) && h' in {h, h1, CarvePage(h1).0}
  {
    var s := SizeClass(req);
    SmallClass(req);
    AddPageInv(st, cpu, s);
    CarvePageSound(st.heap);
    AllocSmallHeap(if st.lists[cpu] == [] then AddPage(st, cpu, s).0 else st, cpu, s);
  }

  /** In every run from initialisation on a heap whose size is an int: no two live blocks overlap,
      all lie in the heap, and not a byte of the heap goes unaccounted for. */
  lemma RunsAreSafe(lo: int, hi: int, ncpu: nat, ops: seq<Op>, st: State)
    requires 0 < lo < hi && lo % 16 == 0 && hi % 16 == 0 && hi - lo < INT_LIMIT
    requires (InitialInv(lo, hi, ncpu); Reaches(Initial(lo, hi, ncpu), ops, st))
    ensures Inv(st)
    ensures forall x :: x in st.live ==> lo < x && x + st.live[x].size <= hi
    ensures forall x, y :: x in st.live && y in st.live && x < y ==>
              lo < x && x + st.live[x].size <= y && y + st.live[y].size <= hi
    ensures InUse(st.heap, Free) + PAGE * |st.pages| + InUse(st.heap, Huge) + HEADER * st.dropped == hi - lo
  {
    InitialInv(lo, hi, ncpu);
    RunInv(Initial(lo, hi, ncpu), ops, st);
    forall x, y | x in st.live && y in st.live && x < y
      ensures lo < x && x + st.live[x].size <= y && y + st.live[y].size <= hi
    {
      LiveDisjoint(st, x, y);
    }
    forall x | x in st.live ensures lo < x && x + st.live[x].size <= hi { LiveInside(st, x); }
    Conservation(st);
  }

  // ---------------------------------------------------------- alignment

  /** The huge frees of the run all merge into a predecessor. */
  ghost predicate MergingStep(st: State, op: Op)
    requires Inv(st) && Enabled(st, op)
  {
    op.Dealloc? && st.live[op.ptr].page == 0 ==> (FreeHugeInv(st, op.ptr); MergesBefore(st.heap, op.ptr - HEADER))
  }

  ghost predicate MergingRun(st: State, ops: seq<Op>, st': State)
    requires Inv(st) && Reaches(st, ops, st')
    decreases |ops|
  {
    ops != [] ==> MergingStep(st, ops[0]) && MergingRun(Next(st, ops[0]), ops[1..], st')
  }

  lemma AlignedStep(st: State, op: Op)
    requires Inv(st) && Enabled(st, op) && MergingStep(st, op) && PageAligned(st.heap)
    ensures PageAligned(Next(st, op).heap)
  {
    match op
    case Alloc(cpu, req) => AlignedAlloc(st, cpu, req);
    case Dealloc(x) =>
      if st.live[x].page == 0 {
        FreeHugeInv(st, x);
        AlignedRelease(st, x);
      }
  }

  lemma AlignedRelease(st: State, x: int)
    requires Inv(st) && x in st.live && st.live[x].page == 0 && PageAligned(st.heap)
    requires Is(st.heap.tiles, x - HEADER, Huge) && MergesBefore(st.heap, x - HEADER)
    ensures PageAligned(Kfree(st, x).heap)
  {
    ReleaseAligned(st.heap, x - HEADER);
    assert Kfree(st, x) == FreeHugeBlock(st, x);
  }

  lemma AlignedAlloc(st: State, cpu: int, req: int)
    requires Inv(st) && Enabled(st, Alloc(cpu, req)) && PageAligned(st.heap)
    ensures PageAligned(Next(st, Alloc(cpu, req)).heap)
  {
    if req <= SMALL {
      SmallHeap(st, cpu, req);
      CarvePageAligned(st.heap);
      CarvePageAligned(CarvePage(st.heap).0);
    } else if req <= LARGE {
      CarveHugeAligned(st.heap, SizeClass(req));
    }
  }

  /** From a heap that starts on a 64 KiB boundary, in every run whose huge frees all merge
      into a predecessor, a live small block is aligned to its size. */
  lemma {:induction false} RunsAreAligned(st: State, ops: seq<Op>, st': State)
    requires Inv(st) && PageAligned(st.heap) && Reaches(st, ops, st') && MergingRun(st, ops, st')
    ensures Inv(st') && PageAligned(st'.heap)
    ensures forall x :: x in st'.live && st'.live[x].page != 0 ==> st'.live[x].size > 0 && x % st'.live[x].size == 0
    decreases |ops|
  {
    if ops == [] {
      forall x | x in st.live && st.live[x].page != 0 ensures st.live[x].size > 0 && x % st.live[x].size == 0 {
        SmallBlockIndex(st, x);
        ClassFacts(st.live[x].size);
      }
    } else {
      AlignedStep(st, ops[0]);
      RunsAreAligned(Next(st, ops[0]), ops[1..], st');
    }
  }
}
