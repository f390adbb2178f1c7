/** Bytes inside the pages of kernel/src/pmm.c over whole runs: what line 376 loses, and that nothing
    else is ever lost. */
module PageAccounting {
  import opened Memory
  import opened Chains
  import opened Tilings
  import opened FreeLists
  import opened HeapModel
  import opened PageModel
  import opened Allocator
  import opened AllocatorRuns

  /** No block of the page has been forgotten. */
  ghost predicate NothingLost(p: SizedPage) {
    forall a {:trigger p.tiles[a]} {:trigger a in p.tiles} :: a in p.tiles ==> p.tiles[a].kind != Lost
  }

  lemma FreshLosesNothing(base: int, s: int)
    ensures NothingLost(Fresh(base, s))
  {
  }

  lemma TakeLosesNothing(p: SizedPage)
    requires PageSound(p) && p.list != [] && NothingLost(p)
    ensures NothingLost(Take(p).0)
  {
  }

  /** A free loses nothing exactly when line 376 skips no node. */
  lemma GiveBackLoses(p: SizedPage, b: int)
    requires PageSound(p) && Is(p.tiles, b, Live) && NothingLost(p)
    ensures NothingLost(GiveBack(p, b)) <==> !ForgetsNodes(p, b)
  {
    JoinsMeanAdjacency(p, b);
    if JoinsBefore(p, b) && JoinsAfter(p, b) {
      var before := Below(p.list, b);
      var r := Join(Join(p.tiles, before, Free), before, Free);
      SkippedIff(p, b);
      SkippedStay(p, b);
      assert GiveBack(p, b).tiles == RetagAll(r, Skipped(p, b), Lost);
      if Skipped(p, b) != [] {
        var x := Skipped(p, b)[0];
        assert x in Skipped(p, b) && GiveBack(p, b).tiles[x].kind == Lost;
      }
    }
  }

  lemma SkippedStay(p: SizedPage, b: int)
    requires PageSound(p) && Is(p.tiles, b, Live) && JoinsBefore(p, b) && JoinsAfter(p, b)
    ensures var u := Join(p.tiles, Below(p.list, b), Free);
            End(u, Below(p.list, b)) in u && forall x {:trigger x in Skipped(p, b)} :: x in Skipped(p, b) ==>
              x in Join(u, Below(p.list, b), Free)
  {
    JoinsMeanAdjacency(p, b);
    SkippedIff(p, b);
    assert p.tiles[b].len > 0 && p.tiles[Below(p.list, b)].len > 0;
    forall x | x in Skipped(p, b) ensures Is(p.tiles, x, Free) { assert x in p.list; }
  }

  /** A page without live or lost blocks is its header and one free block. */
  lemma WholeFree(p: SizedPage)
    requires PageSound(p) && NothingLost(p) && forall x {:trigger Is(p.tiles, x, Live)} :: !Is(p.tiles, x, Live)
    ensures forall x {:trigger Is(p.tiles, x, Free)} :: Is(p.tiles, x, Free) <==> x == p.base + p.cls
    ensures p.base + p.cls in p.tiles && p.tiles[p.base + p.cls].len == PAGE - p.cls
  {
    ClassFacts(p.cls);
    var t, a := p.tiles, p.base + p.cls;
    assert PageTileSound(p.base, t[p.base], p.base, p.cls);
    NotElse(p, p.base);
    assert a == End(t, p.base) && a in t;
    NotElse(p, a);
    if End(t, a) in t { NotElse(p, End(t, a)); }
    forall x | Is(t, x, Free) ensures x == a {
      assert t[x].len > 0 && t[a].len > 0 && t[p.base].len > 0;
      assert PageTileSound(x, t[x], p.base, p.cls);
    }
  }

  /** Its blocks are the header and free ones. */
  lemma NotElse(p: SizedPage, x: int)
    requires PageSound(p) && NothingLost(p) && forall y {:trigger Is(p.tiles, y, Live)} :: !Is(p.tiles, y, Live)
    requires x in p.tiles
    ensures if x == p.base then p.tiles[x] == Tile(p.cls, Header) else Is(p.tiles, x, Free)
  {
    assert PageTileSound(x, p.tiles[x], p.base, p.cls) && !Is(p.tiles, x, Live);
    assert p.tiles[x].kind != Lost;
  }

  /** A page that has lost nothing, and loses nothing by the free, is marked empty exactly when the free
      takes its last live block. */
  lemma LastFreeEmpties(p: SizedPage, b: int)
    requires PageSound(p) && Is(p.tiles, b, Live) && NothingLost(p) && !ForgetsNodes(p, b)
    ensures GiveBack(p, b).empty <==> forall x {:trigger Is(p.tiles, x, Live)} :: Is(p.tiles, x, Live) ==> x == b
  {
    var q := GiveBack(p, b);
    GiveBackSound(p, b);
    GiveBackLive(p, b);
    GiveBackLoses(p, b);
    if q.empty {
      EmptyPageIsReusable(q);
      forall x | Is(p.tiles, x, Live) ensures x == b {
        assert p.tiles[x].len > 0;
      }
    }
    if forall x {:trigger Is(p.tiles, x, Live)} :: Is(p.tiles, x, Live) ==> x == b {
      assert p.tiles[b].len > 0;
      WholeFree(q);
      LastFreeMarks(p, b);
    }
  }

  lemma LastFreeMarks(p: SizedPage, b: int)
    requires PageSound(p) && Is(p.tiles, b, Live) && PageSound(GiveBack(p, b))
    requires forall x {:trigger Is(GiveBack(p, b).tiles, x, Free)} ::
               Is(GiveBack(p, b).tiles, x, Free) <==> x == p.base + p.cls
    requires p.base + p.cls in GiveBack(p, b).tiles && GiveBack(p, b).tiles[p.base + p.cls].len == PAGE - p.cls
    ensures GiveBack(p, b).empty
  {
    ClassFacts(p.cls);
    JoinsMeanAdjacency(p, b);
    assert PageTileSound(b, p.tiles[b], p.base, p.cls);
    var q := GiveBack(p, b);
    var a := if JoinsBefore(p, b) then Below(p.list, b) else b;
    assert Is(q.tiles, a, Free);
  }

  /** A freed block that does not join the node in front of it is the next one handed out. */
  lemma FreedFirst(p: SizedPage, b: int)
    requires PageSound(p) && Is(p.tiles, b, Live) && !JoinsBefore(p, b)
    ensures PageSound(GiveBack(p, b)) && GiveBack(p, b).list != [] && Take(GiveBack(p, b)).1 == b
  {
    GiveBackSound(p, b);
  }

  // ---------------------------------------------------------- runs

  ghost predicate PagesComplete(st: State) {
    forall p {:trigger st.pages[p]} :: p in st.pages ==> NothingLost(st.pages[p])
  }

  /** The step frees no small block in a way that makes line 376 skip nodes. */
  ghost predicate Remembers(st: State, op: Op)
    requires Inv(st) && Enabled(st, op)
  {
    op.Dealloc? && st.live[op.ptr].page != 0 ==>
      (FreeSmallInv(st, op.ptr); !ForgetsNodes(st.pages[st.live[op.ptr].page], op.ptr))
  }

  ghost predicate RememberingRun(st: State, ops: seq<Op>, st': State)
    requires Inv(st) && Reaches(st, ops, st')
    decreases |ops|
  {
    ops != [] ==> Remembers(st, ops[0]) && RememberingRun(Next(st, ops[0]), ops[1..], st')
  }

  lemma TakeComplete(st: State, ph: int)
    requires Inv(st) && HasRoom(st, ph) && PagesComplete(st)
    ensures PagesComplete(TakeFrom(st, ph).0)
  {
    TakeLosesNothing(st.pages[ph]);
  }

  lemma AddComplete(st: State, cpu: int, s: int)
    requires Inv(st) && 0 <= cpu < |st.lists| && PagesComplete(st)
    ensures PagesComplete(AddPage(st, cpu, s).0)
  {
    FreshLosesNothing(CarvePage(st.heap).1, s);
  }

  lemma AllocComplete(st: State, cpu: int, s: int)
    requires Inv(st) && 0 <= cpu < |st.lists| && ClassOk(s) && PagesComplete(st)
    ensures PagesComplete(AllocSmall(st, cpu, s).0)
  {
    var list := st.lists[cpu];
    var i, j := First(list, Usable(st, s)), First(list, Empties(st));
    if i < |list| {
      TakeComplete(st, list[i]);
    } else if j < |list| {
      RetypeInv(st, list[j], s);
      FreshLosesNothing(list[j], s);
      TakeComplete(Retype(st, list[j], s), list[j]);
    } else {
      AddPageInv(st, cpu, s);
      AddComplete(st, cpu, s);
      var (st', a) := AddPage(st, cpu, s);
      if a != 0 { TakeComplete(st', a); }
    }
  }

  lemma KallocComplete(st: State, cpu: int, req: int)
    requires Inv(st) && Enabled(st, Alloc(cpu, req)) && PagesComplete(st)
    ensures PagesComplete(Kalloc(st, cpu, req).st)
  {
    if req <= SMALL {
      var s := SizeClass(req);
      SmallClass(req);
      AddPageInv(st, cpu, s);
      AddComplete(st, cpu, s);
      AllocComplete(if st.lists[cpu] == [] then AddPage(st, cpu, s).0 else st, cpu, s);
    }
  }

  lemma KfreeComplete(st: State, x: int)
    requires Inv(st) && Enabled(st, Dealloc(x)) && PagesComplete(st)
    ensures PagesComplete(Kfree(st, x)) <==> Remembers(st, Dealloc(x))
  {
    if st.live[x].page != 0 {
      FreeSmallInv(st, x);
      var ph := st.live[x].page;
      assert PageSound(st.pages[ph]);
      GiveBackLoses(st.pages[ph], x);
      assert Kfree(st, x).pages == st.pages[ph := GiveBack(st.pages[ph], x)];
    } else {
      FreeHugeInv(st, x);
    }
  }

  lemma {:induction false} CompleteRun(st: State, ops: seq<Op>, st': State)
    requires Inv(st) && PagesComplete(st) && Reaches(st, ops, st') && RememberingRun(st, ops, st')
    ensures Inv(st') && PagesComplete(st')
    decreases |ops|
  {
    if ops != [] {
      match ops[0] {
        case Alloc(cpu, req) => KallocComplete(st, cpu, req);
        case Dealloc(x) => KfreeComplete(st, x);
      }
      CompleteRun(Next(st, ops[0]), ops[1..], st');
    }
  }

  lemma {:induction false} AbsentKind(t: Tiling, a: int, hi: int, k: Kind)
    requires forall x {:trigger t[x]} :: x in t && x >= a ==> t[x].kind != k
    ensures Bytes(t, a, hi, k) == 0
    decreases hi - a
  {
    if a in t && t[a].len > 0 && a < hi { AbsentKind(t, a + t[a].len, hi, k); }
  }

  /** A page in which nothing is lost is header, free blocks and live blocks. */
  lemma CompletePageBytes(p: SizedPage)
    requires PageSound(p) && NothingLost(p)
    ensures PageBytes(p, Free) + PageBytes(p, Live) + p.cls == PAGE
  {
    var t, lo, hi := p.tiles, p.base, p.base + PAGE;
    BytesTotal(t, lo, hi, lo);
    forall x | x in t ensures t[x].kind != Page && t[x].kind != Huge && (x != lo ==> t[x].kind != Header) {
      assert PageTileSound(x, t[x], lo, p.cls);
    }
    assert PageTileSound(lo, t[lo], lo, p.cls) && t[lo].len > 0;
    AbsentKind(t, lo, hi, Page);
    AbsentKind(t, lo, hi, Huge);
    AbsentKind(t, lo, hi, Lost);
    AbsentKind(t, lo + t[lo].len, hi, Header);
    HeaderFirst(p);
  }

  /** The first block of a page is its header. */
  lemma HeaderFirst(p: SizedPage)
    requires PageSound(p)
    ensures p.base in p.tiles && p.tiles[p.base] == Tile(p.cls, Header)
  {
    assert PageTileSound(p.base, p.tiles[p.base], p.base, p.cls);
  }

  /** In every run from initialisation in which line 376 skips no node, every page is header, free
      blocks and live blocks to the last byte. */
  lemma RunsLoseNothing(lo: int, hi: int, ncpu: nat, ops: seq<Op>, st: State, page: int)
    requires 0 < lo < hi && lo % 16 == 0 && hi % 16 == 0 && hi - lo < INT_LIMIT
    requires (InitialInv(lo, hi, ncpu); Reaches(Initial(lo, hi, ncpu), ops, st))
    requires (InitialInv(lo, hi, ncpu); RememberingRun(Initial(lo, hi, ncpu), ops, st))
    requires page in st.pages
    ensures PageSound(st.pages[page])
    ensures PageBytes(st.pages[page], Free) + PageBytes(st.pages[page], Live) + st.pages[page].cls == PAGE
  {
    InitialInv(lo, hi, ncpu);
    CompleteRun(Initial(lo, hi, ncpu), ops, st);
    assert PageSound(st.pages[page]);
    CompletePageBytes(st.pages[page]);
  }
}
