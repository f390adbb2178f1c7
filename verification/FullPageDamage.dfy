/** What freeing into a full page does to memory in kernel/src/pmm.c: a live block is cleared. */
module FullPageDamage {
  import opened Words
  import opened Memory
  import opened Chains
  import opened Tilings
  import opened HeapModel
  import opened PageModel
  import opened PageCode
  import opened Allocator
  import opened PmmCode
  import Runs = AllocatorRuns
  import Witnesses

  /** Block 3 is as it was after block 1 has been freed, and line 338 clears all of it when block 2 is
      freed next: the page is still found, and its header says twice the class. */
  ghost predicate ThirdBlockCleared(m: Mem, pagehead: seq<int>, st: State, ph: int)
    requires Inv(st) && ph in st.pages && WalkOf(st, ph) != [] && 0 !in WalkOf(st, ph)
  {
    var p := st.pages[ph];
    var s := p.cls;
    var m1 := FreedMemory(m, p, ph + s, WalkOf(st, ph));
    var m2 := Clear(m1, ph + 2 * s, Read(m1, ph).size);
    && ListsHeld(m1, pagehead, st.lists) && Read(m1, ph).size == 2 * s
    && forall x {:trigger Read(m2, x)} :: ph + 3 * s <= x < ph + 4 * s ==>
         Read(m1, x) == Read(m, x) && Read(m2, x) == ZERO
  }

  /** Freeing block 1 of any full page, and then block 2, clears the live block 3; the class 16384, for
      which the header's class becomes 0, is the exception. */
  lemma FullPageClears(m: Mem, head: int, pagehead: seq<int>, st: State, ph: int)
    requires Inv(st) && Holds(m, head, pagehead, st) && ph in st.pages && st.pages[ph].list == []
    requires Is(st.pages[ph].tiles, ph + st.pages[ph].cls, Live) && st.pages[ph].cls < 16384
    ensures WalkOf(st, ph) != [] && 0 !in WalkOf(st, ph) && ThirdBlockCleared(m, pagehead, st, ph)
  {
    var p, walk := st.pages[ph], WalkOf(st, ph);
    PageTileOf(st, ph);
    assert PageHeld(m, p);
    WalkHeld(m, pagehead, st, ph);
    FullFirstFree(m, p, walk);
    ClassFacts(p.cls);
    var m1 := FreedMemory(m, p, ph + p.cls, walk);
    LinksKept(m, m1, pagehead, st, ph);
  }

  lemma SomeWalk(st: State, ph: int)
    requires Inv(st) && ph in st.pages
    ensures WalkOf(st, ph) != [] && 0 !in WalkOf(st, ph)
  {
    PageTileOf(st, ph);
    assert ph in st.cpuOf;
    var list := st.lists[st.cpuOf[ph]];
    forall x | x in WalkOf(st, ph) ensures x != 0 {
      if st.pages[ph].list != [] { InsidePage(st.pages[ph], x); BaseInside(st.pages[ph]); } else { assert x in list; }
    }
  }

  const LO := Witnesses.LO

  /** A run reaches such a page, with blocks 1 to 3 all held by clients. */
  lemma FullPageRun() returns (ops: seq<Runs.Op>, st: State)
    ensures Inv(Runs.Initial(LO, LO + PAGE, 1)) && Runs.Reaches(Runs.Initial(LO, LO + PAGE, 1), ops, st) && Inv(st)
    ensures LO in st.pages && forall i {:trigger Witnesses.Nth(i)} :: 1 <= i <= 3 ==>
      Witnesses.Nth(i) == LO + i * st.pages[LO].cls &&
      Witnesses.Nth(i) in st.live && st.live[Witnesses.Nth(i)] == Block(st.pages[LO].cls, LO)
    ensures WalkOf(st, LO) != [] && 0 !in WalkOf(st, LO)
    ensures forall m, head, pagehead {:trigger Holds(m, head, pagehead, st)} :: Holds(m, head, pagehead, st) ==>
      ThirdBlockCleared(m, pagehead, st, LO)
  {
    ops, st := Witnesses.FullPage();
    var one := Witnesses.Nth(1);
    assert BlockSound(one, st.live[one], st.heap.tiles, st.pages);
    SomeWalk(st, LO);
    forall m, head, pagehead | Holds(m, head, pagehead, st) ensures ThirdBlockCleared(m, pagehead, st, LO) {
      FullPageClears(m, head, pagehead, st, LO);
    }
  }
}
