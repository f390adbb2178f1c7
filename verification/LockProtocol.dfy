/** The locking of kernel/src/pmm.c for any number of CPUs, one shared access at a time.
    What a call does to page contents and to the heap free list between two accesses is
    left to PageModel and HeapModel; here it is one step, taken while the locks are held. */
module LockProtocol {

  /** Where a CPU stands in `kalloc` or `kfree`.  A `Spin` state repeats `atomic_xchg`
      (line 13); the `Got` state after it is about to check the assertion of line 17. */
  datatype Pc =
    | Idle
    | Halted                                             // the assertion of line 206 failed
    // kalloc, a CPU's first page
    | CheckHead                                          // line 202
    | InitSpin | InitGot                                 // line 204
    | InitHeapSpin | InitHeapGot | InitHeapHeld          // lines 79-130, from line 205
    | InitStore(page: int)                               // lines 110, 131 and 138
    | InitFill(page: int)                                // lines 206-214
    | InitUnlock                                         // line 215
    // kalloc, small requests
    | ListSpin | ListGot                                 // line 217
    | Search                                             // lines 218-226 and 271-280
    | Touch(page: int)                                   // lines 229-257
    | FastUnlock                                         // line 258
    | Wipe                                               // line 259
    | GrowSpin | GrowGot | GrowHeld                      // lines 79-130, from line 283
    | GrowLink(page: int)                                // line 286
    | GrowStore(page: int)                               // line 289
    | Fill(page: int)                                    // lines 276 and 297-304
    | Unlock                                             // lines 293 and 305
    // kalloc, huge requests
    | HugeSpin | HugeGot | HugeHeld                      // lines 144-170
    // kfree of a block in page `home`, 0 for a huge block
    | FreeSpin(home: int) | FreeGot(home: int)           // line 313
    | ScanList(list: nat, home: int)                     // line 319
    | ScanPage(list: nat, ph: int, home: int)            // lines 320-328
    | FreeTouch(page: int)                               // lines 336-413
    | FreeUnlock                                         // line 414
    | HugeFreeUnlock                                     // line 419
    | HugeFreeSpin | HugeFreeGot | HugeFreeHeld          // lines 420-487

  /** Where a page was published: on which list, and as its how-manieth page. */
  datatype Place = Place(list: int, index: int)

  /** `head` and `next` are the shared page lists.  The rest is history: `pub` records, oldest
      first, the pages published on each list, `place` the converse, `carved` the pages taken
      from the heap. */
  datatype Sys = Sys(pc: seq<Pc>, listLock: seq<int>, heapLock: int, head: seq<int>, next: map<int, int>,
                     pub: seq<seq<int>>, place: map<int, Place>, carved: set<int>)

  predicate HoldsList(p: Pc) {
    !(p.Idle? || p.CheckHead? || p.InitSpin? || p.ListSpin? || p.Wipe? || p.HugeSpin? || p.HugeGot?
      || p.HugeHeld? || p.FreeSpin? || p.HugeFreeSpin? || p.HugeFreeGot? || p.HugeFreeHeld?)
  }

  predicate HoldsHeap(p: Pc) {
    p.InitHeapGot? || p.InitHeapHeld? || p.GrowGot? || p.GrowHeld? || p.HugeGot? || p.HugeHeld? || p.HugeFreeGot? ||
      p.HugeFreeHeld?
  }

  predicate SpinsOnList(p: Pc) { p.InitSpin? || p.ListSpin? || p.FreeSpin? }

  predicate SpinsOnHeap(p: Pc) { p.InitHeapSpin? || p.GrowSpin? || p.HugeSpin? || p.HugeFreeSpin? }

  predicate DropsList(p: Pc) { p.InitUnlock? || p.FastUnlock? || p.Unlock? || p.FreeUnlock? || p.HugeFreeUnlock? }

  /** CPU state p works on the contents of page `page`. */
  predicate Touches(p: Pc, page: int) {
    (p.Touch? || p.Fill? || p.FreeTouch?) && p.page == page
  }

  // ---------------------------------------------------------- steps

  /** What the environment decides: the call a CPU makes, what a search finds, which page the heap yields. */
  datatype Choice = Small | Huge | Free(home: int) | Found(page: int) | Reuse(page: int) | Grow | None

  predicate Shaped(s: Sys) {
    |s.listLock| == |s.pc| && |s.head| == |s.pc| && |s.pub| == |s.pc|
  }

  /** What the environment may choose: a call only when idle, a free only of a block whose page is
      published (or a huge block), a page of the CPU's own list, a page the heap has not given out. */
  predicate Allowed(s: Sys, c: nat, ch: Choice)
    requires Shaped(s) && c < |s.pc|
  {
    var p := s.pc[c];
    if p.Idle? then ch.Small? || ch.Huge? || (ch.Free? && (ch.home == 0 || ch.home in s.place))
    else if p.Search? then ch.Grow? || ((ch.Found? || ch.Reuse?) && ch.page in s.place && s.place[ch.page].list == c)
    else if p.InitHeapHeld? || p.GrowHeld? then ch.Found? && (ch.page == 0 || ch.page !in s.carved)
    else !p.Halted? && ch.None?
  }

  /** Where CPU c stands after its next shared access. */
  function NextPc(s: Sys, c: nat, ch: Choice): Pc
    requires Shaped(s) && c < |s.pc| && Allowed(s, c, ch)
  {
    match s.pc[c]
    case Idle => if ch.Small? then CheckHead else if ch.Huge? then HugeSpin else FreeSpin(ch.home)
    case Halted => Halted
    case CheckHead => if s.head[c] == 0 then InitSpin else ListSpin
    case InitSpin => if s.listLock[c] == 0 then InitGot else InitSpin
    case InitGot => InitHeapSpin
    case InitHeapSpin => if s.heapLock == 0 then InitHeapGot else InitHeapSpin
    case InitHeapGot => InitHeapHeld
    case InitHeapHeld => InitStore(ch.page)
    case InitStore(page) => if page == 0 then Halted else InitFill(page)
    case InitFill(page) => InitUnlock
    case InitUnlock => ListSpin
    case ListSpin => if s.listLock[c] == 0 then ListGot else ListSpin
    case ListGot => Search
    case Search => if ch.Found? then Touch(ch.page) else if ch.Reuse? then Fill(ch.page) else GrowSpin
    case Touch(_) => FastUnlock
    case FastUnlock => Wipe
    case Wipe => Idle
    case GrowSpin => if s.heapLock == 0 then GrowGot else GrowSpin
    case GrowGot => GrowHeld
    case GrowHeld => if ch.page == 0 then Unlock else GrowLink(ch.page)
    case GrowLink(page) => GrowStore(page)
    case GrowStore(page) => Fill(page)
    case Fill(_) => Unlock
    case Unlock => Idle
    case HugeSpin => if s.heapLock == 0 then HugeGot else HugeSpin
    case HugeGot => HugeHeld
    case HugeHeld => Idle
    case FreeSpin(home) => if s.listLock[c] == 0 then FreeGot(home) else FreeSpin(home)
    case FreeGot(home) => ScanList(0, home)
    case ScanList(j, home) => if j < |s.head| then ScanPage(j, s.head[j], home) else HugeFreeUnlock
    case ScanPage(j, ph, home) =>
      if ph == 0 then ScanList(j + 1, home)
      else if ph == home then FreeTouch(ph)
      else ScanPage(j, if ph in s.next then s.next[ph] else 0, home)
    case FreeTouch(_) => FreeUnlock
    case FreeUnlock => Idle
    case HugeFreeUnlock => HugeFreeSpin
    case HugeFreeSpin => if s.heapLock == 0 then HugeFreeGot else HugeFreeSpin
    case HugeFreeGot => HugeFreeHeld
    case HugeFreeHeld => Idle
  }

  /** What that access writes.  A page is carved while heap_lock is held, its record cleared,
      so its link is NULL (lines 108 and 129). */
  function Effect(s: Sys, c: nat, ch: Choice): (s': Sys)
    requires Shaped(s) && c < |s.pc| && Allowed(s, c, ch)
    ensures Shaped(s') && s'.pc == s.pc
  {
    var p := s.pc[c];
    if SpinsOnList(p) then s.(listLock := s.listLock[c := 1])
    else if DropsList(p) then s.(listLock := s.listLock[c := 0])
    else if SpinsOnHeap(p) then s.(heapLock := 1)
    else if p.InitHeapHeld? || p.GrowHeld? then
      (if ch.page == 0 then s else s.(carved := s.carved + {ch.page}, next := s.next[ch.page := 0])).(heapLock := 0)
    else if p.HugeHeld? || p.HugeFreeHeld? then s.(heapLock := 0)
    else if (p.InitStore? && p.page != 0) || p.GrowStore? then
      s.(head := s.head[c := p.page], pub := s.pub[c := s.pub[c] + [p.page]],
        place := s.place[p.page := Place(c, |s.pub[c]|)])
    else if p.InitFill? then s.(next := s.next[p.page := 0])
    else if p.GrowLink? then s.(next := s.next[p.page := s.head[c]])
    else s
  }

  /** CPU c performs its next shared access. */
  function Step(s: Sys, c: nat, ch: Choice): (s': Sys)
    requires Shaped(s) && c < |s.pc| && Allowed(s, c, ch)
    ensures Shaped(s') && |s'.pc| == |s.pc| && s'.pc == s.pc[c := s'.pc[c]]
  {
    Effect(s, c, ch).(pc := s.pc[c := NextPc(s, c, ch)])
  }

  function Start(ncpu: nat): Sys {
    Sys(seq(ncpu, _ => Idle), seq(ncpu, _ => 0), 0, seq(ncpu, _ => 0), map[], seq(ncpu, _ => []), map[], {})
  }

  // ---------------------------------------------------------- the invariant

  /** heap_lock is 1 exactly when some CPU holds it, and then one CPU only. */
  ghost predicate OneHolder(pc: seq<Pc>, lock: int) {
    && (forall c {:trigger pc[c]} :: 0 <= c < |pc| && HoldsHeap(pc[c]) ==> lock == 1)
    && (lock != 0 ==> exists c {:trigger pc[c]} :: 0 <= c < |pc| && HoldsHeap(pc[c]))
    && (forall c, d {:trigger pc[c], pc[d]} :: 0 <= c < d < |pc| ==> !(HoldsHeap(pc[c]) && HoldsHeap(pc[d])))
  }

  ghost predicate HeapLockOk(s: Sys) { OneHolder(s.pc, s.heapLock) }

  /** A list lock is 1 exactly when its own CPU holds it: no other CPU ever takes it. */
  ghost predicate ListLocksOk(s: Sys)
    requires Shaped(s)
  {
    forall c {:trigger s.listLock[c]} {:trigger s.pc[c]} :: 0 <= c < |s.pc| ==>
      s.listLock[c] == if HoldsList(s.pc[c]) then 1 else 0
  }

  /** The published pages of one CPU, linked newest to oldest. */
  ghost predicate Linked(pub: seq<int>, head: int, next: map<int, int>) {
    && head == (if pub == [] then 0 else pub[|pub| - 1])
    && (forall i {:trigger pub[i]} :: 0 <= i < |pub| ==>
          pub[i] != 0 && pub[i] in next && next[pub[i]] == if i == 0 then 0 else pub[i - 1])
  }

  /** Each published page is on one list, once, and was carved from the heap. */
  ghost predicate PubOk(s: Sys)
    requires Shaped(s)
  {
    && (forall c {:trigger s.pub[c]} :: 0 <= c < |s.pub| ==> Linked(s.pub[c], s.head[c], s.next))
    && (forall c, i {:trigger s.pub[c][i]} :: 0 <= c < |s.pub| && 0 <= i < |s.pub[c]| ==>
          s.pub[c][i] in s.place && s.place[s.pub[c][i]] == Place(c, i))
    && (forall p {:trigger p in s.place} {:trigger s.place[p]} :: p in s.place ==>
          p in s.carved && p != 0 &&
          var q := s.place[p];
          0 <= q.list < |s.pub| && 0 <= q.index < |s.pub[q.list]| && s.pub[q.list][q.index] == p)
  }

  /** A page carved by a CPU and not yet published is its alone. */
  function InFlight(p: Pc): int {
    match p
    case InitStore(page) => page
    case GrowLink(page) => page
    case GrowStore(page) => page
    case _ => 0
  }

  ghost predicate FlightOk(s: Sys) {
    && (forall c {:trigger s.pc[c]} :: 0 <= c < |s.pc| && InFlight(s.pc[c]) != 0 ==>
          var p := InFlight(s.pc[c]); p in s.carved && p in s.next && p !in s.place)
    && (forall c, d {:trigger s.pc[c], s.pc[d]} :: 0 <= c < d < |s.pc| && InFlight(s.pc[c]) != 0 ==>
       InFlight(s.pc[c]) != InFlight(s.pc[d]))
  }

  /** The page a scan is looking for has not been passed: it is on a later list, or on this
      one at or behind the scan's position. */
  predicate ScanOk(place: map<int, Place>, ncpu: nat, p: Pc) {
    match p
    case FreeSpin(home) => home != 0 ==> home in place
    case FreeGot(home) => home != 0 ==> home in place
    case ScanList(j, home) => j <= ncpu && (home != 0 ==> home in place && j <= place[home].list)
    case ScanPage(j, ph, home) =>
      && j < ncpu
      && (ph != 0 ==> ph in place && place[ph].list == j)
      && (home != 0 ==>
            home in place &&
            (j < place[home].list || (j == place[home].list && ph != 0 && place[home].index <= place[ph].index)))
    case FreeTouch(page) => page in place
    case _ => true
  }

  /** What a CPU's own position says about its list. */
  predicate OwnOk(s: Sys, c: nat, p: Pc)
    requires Shaped(s) && c < |s.pc|
  {
    match p
    case InitSpin => s.pub[c] == []
    case InitGot => s.pub[c] == []
    case InitHeapSpin => s.pub[c] == []
    case InitHeapGot => s.pub[c] == []
    case InitHeapHeld => s.pub[c] == []
    case InitStore(page) => s.pub[c] == [] && (page != 0 ==> page in s.next && s.next[page] == 0)
    case InitFill(page) => s.pub[c] == [page]
    case Touch(page) => page in s.place && s.place[page].list == c
    case Fill(page) => page in s.place && s.place[page].list == c
    case GrowLink(page) => page != 0
    case GrowStore(page) => page != 0 && page in s.next && s.next[page] == s.head[c]
    case _ => true
  }

  ghost predicate PcsOk(s: Sys)
    requires Shaped(s)
  {
    forall c {:trigger s.pc[c]} :: 0 <= c < |s.pc| ==> ScanOk(s.place, |s.pc|, s.pc[c]) && OwnOk(s, c, s.pc[c])
  }

  ghost predicate Inv(s: Sys) {
    Shaped(s) && HeapLockOk(s) && ListLocksOk(s) && PubOk(s) && FlightOk(s) && PcsOk(s)
  }

  // ---------------------------------------------------------- effects of a step

  /** heap_lock changes hands only as the CPU's own position says. */
  lemma HeapTaken(s: Sys, c: nat, ch: Choice)
    requires Shaped(s) && c < |s.pc| && Allowed(s, c, ch) && SpinsOnHeap(s.pc[c])
    ensures HoldsHeap(Step(s, c, ch).pc[c]) <==> s.heapLock == 0
  {
  }

  lemma HeapOnlySpun(s: Sys, c: nat, ch: Choice)
    requires Shaped(s) && c < |s.pc| && Allowed(s, c, ch) && !SpinsOnHeap(s.pc[c])
    ensures HoldsHeap(Step(s, c, ch).pc[c]) ==> HoldsHeap(s.pc[c])
  {
  }

  lemma HeapLockValue(s: Sys, c: nat, ch: Choice)
    requires Shaped(s) && c < |s.pc| && Allowed(s, c, ch)
    ensures Step(s, c, ch).heapLock == if SpinsOnHeap(s.pc[c]) then 1
                                       else if HoldsHeap(s.pc[c]) && !HoldsHeap(Step(s, c, ch).pc[c]) then 0
                                       else s.heapLock
  {
  }

  lemma HeapLockStep(s: Sys, c: nat, ch: Choice)
    requires Shaped(s) && HeapLockOk(s) && c < |s.pc| && Allowed(s, c, ch)
    ensures HeapLockOk(Step(s, c, ch))
  {
    var s' := Step(s, c, ch);
    if SpinsOnHeap(s.pc[c]) { HeapTaken(s, c, ch); } else { HeapOnlySpun(s, c, ch); }
    HeapLockValue(s, c, ch);
    HeapLockFollows(s.pc, s.heapLock, s'.heapLock, c, s'.pc[c]);
  }

  lemma HeapLockFollows(pc: seq<Pc>, lock: int, lock': int, c: nat, p': Pc)
    requires OneHolder(pc, lock) && c < |pc|
    requires HoldsHeap(p') ==> HoldsHeap(pc[c]) || (SpinsOnHeap(pc[c]) && lock == 0)
    requires SpinsOnHeap(pc[c]) && lock == 0 ==> HoldsHeap(p')
    requires lock' == if SpinsOnHeap(pc[c]) then 1 else if HoldsHeap(pc[c]) && !HoldsHeap(p') then 0 else lock
    ensures OneHolder(pc[c := p'], lock')
  {
    var r := pc[c := p'];
    if lock' != 0 {
      if HoldsHeap(p') {
        assert HoldsHeap(r[c]);
      } else {
        var d :| 0 <= d < |pc| && HoldsHeap(pc[d]);
        assert d != c && HoldsHeap(r[d]);
      }
    }
  }

  lemma ListLockValue(s: Sys, c: nat, ch: Choice)
    requires Shaped(s) && c < |s.pc| && Allowed(s, c, ch)
    ensures Step(s, c, ch).listLock[c] == if SpinsOnList(s.pc[c]) then 1 else if DropsList(s.pc[c]) then 0
        else s.listLock[c]
  {
  }

  lemma ListHeldNext(s: Sys, c: nat, ch: Choice)
    requires Shaped(s) && c < |s.pc| && Allowed(s, c, ch)
    ensures HoldsList(Step(s, c, ch).pc[c]) <==>
              if SpinsOnList(s.pc[c]) then s.listLock[c] == 0 else HoldsList(s.pc[c]) && !DropsList(s.pc[c])
  {
  }

  lemma ListOthers(s: Sys, c: nat, ch: Choice)
    requires Shaped(s) && c < |s.pc| && Allowed(s, c, ch)
    ensures forall d {:trigger Step(s, c, ch).listLock[d]} :: 0 <= d < |s.pc| && d != c ==>
        Step(s, c, ch).listLock[d] == s.listLock[d]
  {
  }

  lemma ListLocksStep(s: Sys, c: nat, ch: Choice)
    requires Shaped(s) && ListLocksOk(s) && c < |s.pc| && Allowed(s, c, ch)
    ensures ListLocksOk(Step(s, c, ch))
  {
    var s' := Step(s, c, ch);
    assert s.listLock[c] == if HoldsList(s.pc[c]) then 1 else 0;
    ListLockValue(s, c, ch);
    ListHeldNext(s, c, ch);
    ListOthers(s, c, ch);
    forall d | 0 <= d < |s'.pc| ensures s'.listLock[d] == if HoldsList(s'.pc[d]) then 1 else 0 {
      if d != c { assert s.listLock[d] == if HoldsList(s.pc[d]) then 1 else 0; }
    }
  }

  // ---------------------------------------------------------- the shared page lists

  /** What a step does to the lists: nothing, a page carved, a page published, or a link written. */
  datatype Change = Nothing | Carved(page: int) | Published(page: int) | Relinked(page: int, to: int)

  function ChangeOf(s: Sys, c: nat, ch: Choice): Change
    requires Shaped(s) && c < |s.pc| && Allowed(s, c, ch)
  {
    match s.pc[c]
    case InitHeapHeld => if ch.page == 0 then Nothing else Carved(ch.page)
    case GrowHeld => if ch.page == 0 then Nothing else Carved(ch.page)
    case InitStore(page) => if page == 0 then Nothing else Published(page)
    case GrowStore(page) => Published(page)
    case InitFill(page) => Relinked(page, 0)
    case GrowLink(page) => Relinked(page, s.head[c])
    case _ => Nothing
  }

  lemma ListChange(s: Sys, c: nat, ch: Choice)
    requires Shaped(s) && c < |s.pc| && Allowed(s, c, ch)
    ensures var s' := Step(s, c, ch);
            match ChangeOf(s, c, ch)
            case Nothing => s'.head == s.head && s'.next == s.next && s'.pub == s.pub
                            && s'.place == s.place && s'.carved == s.carved
            case Carved(p) => s'.head == s.head && s'.next == s.next[p := 0] && s'.pub == s.pub
                              && s'.place == s.place && s'.carved == s.carved + {p}
            case Published(p) => s'.head == s.head[c := p] && s'.next == s.next && s'.pub == s.pub[c := s.pub[c] + [p]]
                                 && s'.place == s.place[p := Place(c, |s.pub[c]|)] && s'.carved == s.carved
            case Relinked(p, to) => s'.head == s.head && s'.next == s.next[p := to] && s'.pub == s.pub
                                    && s'.place == s.place && s'.carved == s.carved
  {
  }

  /** Publishing a page whose link is the current head extends the list by one. */
  lemma PublishLinked(pub: seq<int>, head: int, next: map<int, int>, p: int)
    requires Linked(pub, head, next) && p != 0 && p in next && next[p] == head
    ensures Linked(pub + [p], p, next)
  {
    var r := pub + [p];
    forall i | 0 <= i < |r| ensures r[i] != 0 && r[i] in next && next[r[i]] == if i == 0 then 0 else r[i - 1] {
      if i < |pub| { assert r[i] == pub[i]; }
    }
  }

  /** Links of pages that are not on the list do not matter to it. */
  lemma LinkedFrame(pub: seq<int>, head: int, next: map<int, int>, p: int, to: int)
    requires Linked(pub, head, next) && (p in pub ==> p in next && next[p] == to)
    ensures Linked(pub, head, next[p := to])
  {
    forall i | 0 <= i < |pub| ensures pub[i] != 0 && pub[i] in next[p := to] && next[p := to][pub[i]] == if i == 0
      then 0 else pub[i - 1] {
      assert pub[i] in pub;
    }
  }

  lemma InPub(s: Sys, c: nat, p: int)
    requires Shaped(s) && PubOk(s) && c < |s.pub| && p in s.pub[c]
    ensures p in s.place && s.place[p].list == c && p in s.carved
  {
    var i :| 0 <= i < |s.pub[c]| && s.pub[c][i] == p;
    assert s.place[s.pub[c][i]] == Place(c, i);
  }

  /** What the invariant says about the page a step is about to change. */
  lemma ChangeSound(s: Sys, c: nat, ch: Choice)
    requires Inv(s) && c < |s.pc| && Allowed(s, c, ch)
    ensures match ChangeOf(s, c, ch)
            case Nothing => true
            case Carved(p) => p != 0 && p !in s.carved && p !in s.place
            case Published(p) => p != 0 && p in s.carved && p !in s.place && p in s.next && s.next[p] == s.head[c] &&
              p == InFlight(s.pc[c])
            case Relinked(p, to) => p != 0 && p in s.next && p in s.carved
                                    && (p == InFlight(s.pc[c]) || s.pub[c] == [p])
                                    && (p in s.place ==> s.next[p] == to)
  {
    assert OwnOk(s, c, s.pc[c]);
    assert Linked(s.pub[c], s.head[c], s.next);
    match s.pc[c]
    case InitFill(page) => assert s.pub[c][0] == page; assert s.place[s.pub[c][0]] == Place(c, 0);
    case _ =>
  }

  lemma PubStep(s: Sys, c: nat, ch: Choice)
    requires Inv(s) && c < |s.pc| && Allowed(s, c, ch)
    ensures PubOk(Step(s, c, ch))
  {
    var s' := Step(s, c, ch);
    ListChange(s, c, ch);
    ChangeSound(s, c, ch);
    match ChangeOf(s, c, ch)
    case Nothing =>
      PubSame(s, s');
    case Carved(p) =>
      forall d | 0 <= d < |s.pub| ensures Linked(s'.pub[d], s'.head[d], s'.next) {
        assert Linked(s.pub[d], s.head[d], s.next);
        if p in s.pub[d] { InPub(s, d, p); }
        LinkedFrame(s.pub[d], s.head[d], s.next, p, 0);
      }
      PlacesKept(s, s');
    case Published(p) =>
      PublishPlaces(s, s', c, p);
    case Relinked(p, to) =>
      forall d | 0 <= d < |s.pub| ensures Linked(s'.pub[d], s'.head[d], s'.next) {
        assert Linked(s.pub[d], s.head[d], s.next);
        if p in s.pub[d] { InPub(s, d, p); }
        LinkedFrame(s.pub[d], s.head[d], s.next, p, to);
      }
      PlacesKept(s, s');
  }

  lemma PubSame(s: Sys, s': Sys)
    requires Shaped(s) && Shaped(s') && PubOk(s)
    requires s'.head == s.head && s'.next == s.next && s'.pub == s.pub && s'.place == s.place && s'.carved == s.carved
    ensures PubOk(s')
  {
  }

  lemma PlacesKept(s: Sys, s': Sys)
    requires Shaped(s) && Shaped(s') && PubOk(s)
    requires s'.pub == s.pub && s'.place == s.place && s.carved <= s'.carved
    requires forall d {:trigger s'.pub[d]} :: 0 <= d < |s'.pub| ==> Linked(s'.pub[d], s'.head[d], s'.next)
    ensures PubOk(s')
  {
  }

  lemma PublishPlaces(s: Sys, s': Sys, c: nat, p: int)
    requires Shaped(s) && Shaped(s') && PubOk(s) && c < |s.pub|
    requires p != 0 && p in s.carved && p !in s.place && p in s.next && s.next[p] == s.head[c]
    requires s'.head == s.head[c := p] && s'.next == s.next && s'.pub == s.pub[c := s.pub[c] + [p]]
    requires s'.place == s.place[p := Place(c, |s.pub[c]|)] && s'.carved == s.carved
    ensures PubOk(s')
  {
    forall d | 0 <= d < |s'.pub| ensures Linked(s'.pub[d], s'.head[d], s'.next) {
      assert Linked(s.pub[d], s.head[d], s.next);
      if d == c { PublishLinked(s.pub[c], s.head[c], s.next, p); }
    }
    forall d, i | 0 <= d < |s'.pub| && 0 <= i < |s'.pub[d]|
      ensures s'.pub[d][i] in s'.place && s'.place[s'.pub[d][i]] == Place(d, i)
    {
      if d != c || i < |s.pub[c]| { assert s'.pub[d][i] == s.pub[d][i] && s.place[s.pub[d][i]] == Place(d, i); }
    }
    forall q | q in s'.place
      ensures q in s'.carved && q != 0 &&
              var w := s'.place[q];
              0 <= w.list < |s'.pub| && 0 <= w.index < |s'.pub[w.list]| && s'.pub[w.list][w.index] == q
    {
      if q != p {
        var w := s.place[q];
        assert s.pub[w.list][w.index] == q;
        assert s'.pub[w.list][w.index] == q;
      }
    }
  }

  // ---------------------------------------------------------- positions of the CPUs

  /** In-flight pages: a page enters when carved, leaves when published. */
  lemma FlightStep(s: Sys, c: nat, ch: Choice)
    requires Inv(s) && c < |s.pc| && Allowed(s, c, ch)
    ensures FlightOk(Step(s, c, ch))
  {
    var s' := Step(s, c, ch);
    ListChange(s, c, ch);
    ChangeSound(s, c, ch);
    FlightOf(s, c, ch);
    forall d | 0 <= d < |s'.pc| && InFlight(s'.pc[d]) != 0
      ensures var p := InFlight(s'.pc[d]); p in s'.carved && p in s'.next && p !in s'.place
    {
      if d != c { OthersFlight(s, c, d); assert s'.pc[d] == s.pc[d]; }
    }
    forall d, e | 0 <= d < e < |s'.pc| && InFlight(s'.pc[d]) != 0 ensures InFlight(s'.pc[d]) != InFlight(s'.pc[e]) {
      assert s.pc[d] == s.pc[d] && s.pc[e] == s.pc[e];
      if d != c { OthersFlight(s, c, d); }
      if e != c { OthersFlight(s, c, e); }
    }
  }

  lemma FlightOf(s: Sys, c: nat, ch: Choice)
    requires Shaped(s) && c < |s.pc| && Allowed(s, c, ch)
    ensures var f, f' := InFlight(s.pc[c]), InFlight(Step(s, c, ch).pc[c]);
            match ChangeOf(s, c, ch)
            case Carved(p) => f == 0 && f' == p
            case Published(p) => f == p && f' == 0
            case _ => f' == f
  {
  }

  /** Another CPU's in-flight page is not the one c is working on. */
  lemma OthersFlight(s: Sys, c: nat, d: nat)
    requires FlightOk(s) && c < |s.pc| && d < |s.pc| && c != d
    ensures InFlight(s.pc[d]) != 0 ==>
              InFlight(s.pc[d]) in s.carved && InFlight(s.pc[d]) in s.next && InFlight(s.pc[d]) !in s.place &&
                InFlight(s.pc[d]) != InFlight(s.pc[c])
  {
    assert s.pc[c] == s.pc[c] && s.pc[d] == s.pc[d];
  }

  /** Pages stay where they were published. */
  lemma PlaceGrows(s: Sys, c: nat, ch: Choice)
    requires Inv(s) && c < |s.pc| && Allowed(s, c, ch)
    ensures Grows(s.place, Step(s, c, ch).place)
  {
    ListChange(s, c, ch);
    ChangeSound(s, c, ch);
  }

  ghost predicate Grows(place: map<int, Place>, place': map<int, Place>) {
    forall p {:trigger p in place} {:trigger p in place'} :: p in place ==> p in place' && place'[p] == place[p]
  }

  lemma ScanKept(place: map<int, Place>, place': map<int, Place>, ncpu: nat, p: Pc)
    requires ScanOk(place, ncpu, p) && Grows(place, place')
    ensures ScanOk(place', ncpu, p)
  {
  }

  /** What c does leaves d's own facts alone. */
  lemma OwnKept(s: Sys, c: nat, ch: Choice, d: nat)
    requires Inv(s) && c < |s.pc| && Allowed(s, c, ch) && d < |s.pc| && d != c
    ensures OwnOk(Step(s, c, ch), d, s.pc[d])
  {
    ListChange(s, c, ch);
    ChangeSound(s, c, ch);
    OthersFlight(s, c, d);
    assert OwnOk(s, d, s.pc[d]);
    if s.pub[c] != [] { assert s.place[s.pub[c][0]] == Place(c, 0); }
    PlaceGrows(s, c, ch);
    OwnFrame(s, Step(s, c, ch), d, s.pc[d]);
  }

  lemma OwnFrame(s: Sys, s': Sys, d: nat, p: Pc)
    requires Shaped(s) && Shaped(s') && d < |s.pc| && d < |s'.pc| && OwnOk(s, d, p)
    requires s'.pub[d] == s.pub[d] && s'.head[d] == s.head[d]
    requires var f := InFlight(p); f != 0 && f in s.next ==> f in s'.next && s'.next[f] == s.next[f]
    requires Grows(s.place, s'.place)
    ensures OwnOk(s', d, p)
  {
  }

  /** The head of a list is its last published page, and NULL only if nothing was published. */
  lemma HeadPlace(s: Sys, j: nat)
    requires Shaped(s) && PubOk(s) && j < |s.pub|
    ensures s.head[j] == 0 <==> s.pub[j] == []
    ensures s.head[j] != 0 ==> s.head[j] in s.place && s.place[s.head[j]] == Place(j, |s.pub[j]| - 1)
  {
    assert Linked(s.pub[j], s.head[j], s.next);
    if s.pub[j] != [] { assert s.place[s.pub[j][|s.pub[j]| - 1]] == Place(j, |s.pub[j]| - 1); }
  }

  /** The link of a published page is the page published before it on the same list. */
  lemma NextPlace(s: Sys, p: int)
    requires Shaped(s) && PubOk(s) && p in s.place
    ensures p in s.next
    ensures s.place[p].index == 0 ==> s.next[p] == 0
    ensures s.place[p].index > 0 ==>
        s.next[p] != 0 && s.next[p] in s.place && s.place[s.next[p]] == Place(s.place[p].list, s.place[p].index - 1)
  {
    var q := s.place[p];
    assert 0 <= q.list < |s.pub| && s.pub[q.list][q.index] == p;
    assert Linked(s.pub[q.list], s.head[q.list], s.next);
    if q.index > 0 { assert s.place[s.pub[q.list][q.index - 1]] == Place(q.list, q.index - 1); }
  }

  /** Two pages of one list published at the same moment are the same page. */
  lemma SamePlace(s: Sys, p: int, q: int)
    requires Shaped(s) && PubOk(s) && p in s.place && q in s.place && s.place[p] == s.place[q]
    ensures p == q
  {
    var w := s.place[p];
    assert s.pub[w.list][w.index] == p && s.pub[w.list][w.index] == q;
  }

  /** A step keeps the scanning CPU from passing the page it looks for. */
  lemma ScanNext(s: Sys, c: nat, ch: Choice)
    requires Shaped(s) && PubOk(s) && c < |s.pc| && Allowed(s, c, ch) && ScanOk(s.place, |s.pc|, s.pc[c])
    ensures ScanOk(s.place, |s.pc|, NextPc(s, c, ch))
  {
    match s.pc[c]
    case FreeGot(home) => if home != 0 { assert home in s.place; }
    case ScanList(j, home) =>
      if j < |s.head| { ListEntered(s, j, home); }
    case ScanPage(j, ph, home) =>
      if ph != 0 && ph != home { PagePassed(s, j, ph, home); }
    case _ =>
  }

  lemma ListEntered(s: Sys, j: nat, home: int)
    requires Shaped(s) && PubOk(s) && j < |s.pc| && ScanOk(s.place, |s.pc|, ScanList(j, home))
    ensures ScanOk(s.place, |s.pc|, ScanPage(j, s.head[j], home))
  {
    HeadPlace(s, j);
    if home != 0 { assert home in s.place; }
  }

  lemma PagePassed(s: Sys, j: nat, ph: int, home: int)
    requires Shaped(s) && PubOk(s) && ph != 0 && ph != home && ScanOk(s.place, |s.pc|, ScanPage(j, ph, home))
    ensures ph in s.next && ScanOk(s.place, |s.pc|, ScanPage(j, s.next[ph], home))
  {
    NextPlace(s, ph);
    if home != 0 && s.place[home] == s.place[ph] { SamePlace(s, ph, home); }
    if home != 0 { assert home in s.place; }
  }

  lemma OwnNext(s: Sys, c: nat, ch: Choice)
    requires Shaped(s) && c < |s.pc| && Allowed(s, c, ch) && OwnOk(s, c, s.pc[c]) &&
        (s.head[c] == 0 <==> s.pub[c] == [])
    ensures OwnOk(Step(s, c, ch), c, NextPc(s, c, ch))
  {
    ListChange(s, c, ch);
  }

  lemma PcsStep(s: Sys, c: nat, ch: Choice)
    requires Inv(s) && c < |s.pc| && Allowed(s, c, ch)
    ensures PcsOk(Step(s, c, ch))
  {
    var s' := Step(s, c, ch);
    PlaceGrows(s, c, ch);
    forall d | 0 <= d < |s'.pc| ensures ScanOk(s'.place, |s'.pc|, s'.pc[d]) && OwnOk(s', d, s'.pc[d]) {
      if d == c {
        ScanNext(s, c, ch);
        ScanKept(s.place, s'.place, |s.pc|, s'.pc[c]);
        HeadPlace(s, c);
        OwnNext(s, c, ch);
      } else {
        assert s'.pc[d] == s.pc[d];
        ScanKept(s.place, s'.place, |s.pc|, s.pc[d]);
        OwnKept(s, c, ch, d);
      }
    }
  }

  /** Every step of every CPU keeps the invariant. */
  lemma StepInv(s: Sys, c: nat, ch: Choice)
    requires Inv(s) && c < |s.pc| && Allowed(s, c, ch)
    ensures Inv(Step(s, c, ch))
  {
    HeapLockStep(s, c, ch);
    ListLocksStep(s, c, ch);
    PubStep(s, c, ch);
    FlightStep(s, c, ch);
    PcsStep(s, c, ch);
  }

  // ---------------------------------------------------------- whole runs

  datatype Move = Move(cpu: nat, choice: Choice)

  /** The interleaving `moves` leads from s to t. */
  ghost predicate Run(s: Sys, moves: seq<Move>, t: Sys)
    decreases |moves|
  {
    if moves == [] then t == s
    else
      && Shaped(s) && moves[0].cpu < |s.pc| && Allowed(s, moves[0].cpu, moves[0].choice)
      && Run(Step(s, moves[0].cpu, moves[0].choice), moves[1..], t)
  }

  lemma StartInv(ncpu: nat)
    ensures Inv(Start(ncpu))
  {
  }

  lemma {:induction false} RunInv(s: Sys, moves: seq<Move>, t: Sys)
    requires Inv(s) && Run(s, moves, t)
    ensures Inv(t) && |t.pc| == |s.pc|
    decreases |moves|
  {
    if moves != [] {
      StepInv(s, moves[0].cpu, moves[0].choice);
      RunInv(Step(s, moves[0].cpu, moves[0].choice), moves[1..], t);
    }
  }

  /** The assertion of line 17 passes, for either kind of lock. */
  ghost predicate LinesPass(s: Sys)
    requires Shaped(s)
  {
    forall c {:trigger s.pc[c]} :: 0 <= c < |s.pc| ==>
      && (s.pc[c].InitGot? || s.pc[c].ListGot? || s.pc[c].FreeGot? ==> s.listLock[c] == 1)
      && (s.pc[c].InitHeapGot? || s.pc[c].GrowGot? || s.pc[c].HugeGot? || s.pc[c].HugeFreeGot? ==> s.heapLock == 1)
  }

  /** At most one CPU is inside heap_lock. */
  ghost predicate OneInside(s: Sys) {
    forall c, d {:trigger s.pc[c], s.pc[d]} ::
      0 <= c < |s.pc| && 0 <= d < |s.pc| && HoldsHeap(s.pc[c]) && HoldsHeap(s.pc[d]) ==> c == d
  }

  /** A CPU asks for its list lock only while it holds no lock at all, and finds it free. */
  ghost predicate ListLocksFirst(s: Sys)
    requires Shaped(s)
  {
    forall c {:trigger s.pc[c]} :: 0 <= c < |s.pc| && SpinsOnList(s.pc[c]) ==>
      !HoldsHeap(s.pc[c]) && !HoldsList(s.pc[c]) && s.listLock[c] == 0
  }

  /** What an unlocked scan reads is NULL or a linked page published on the list it is reading,
      and a scan that has run through all lists was looking for a huge block. */
  ghost predicate ScansSound(s: Sys) {
    forall c {:trigger s.pc[c]} :: 0 <= c < |s.pc| ==>
      match s.pc[c]
      case ScanList(j, home) => j <= |s.pc| && (j == |s.pc| ==> home == 0)
      case ScanPage(j, ph, home) => j < |s.pc| && (ph != 0 ==> ph in s.place && s.place[ph].list == j && ph in s.next)
      case _ => true
  }

  /** Any number of CPUs, any interleaving. */
  lemma LocksSafeInEveryRun(ncpu: nat, moves: seq<Move>, t: Sys)
    requires Run(Start(ncpu), moves, t)
    ensures Shaped(t) && LinesPass(t) && OneInside(t) && ListLocksFirst(t) && ScansSound(t)
  {
    StartInv(ncpu);
    RunInv(Start(ncpu), moves, t);
    LocksAgree(t);
    ScansAgree(t);
  }

  lemma LocksAgree(s: Sys)
    requires Shaped(s) && HeapLockOk(s) && ListLocksOk(s)
    ensures LinesPass(s) && OneInside(s) && ListLocksFirst(s)
  {
    forall c | 0 <= c < |s.pc| ensures s.listLock[c] == if HoldsList(s.pc[c]) then 1 else 0 {}
  }

  lemma ScansAgree(s: Sys)
    requires Shaped(s) && PubOk(s) && PcsOk(s)
    ensures ScansSound(s)
  {
    forall c | 0 <= c < |s.pc|
      ensures match s.pc[c]
              case ScanList(j, home) => j <= |s.pc| && (j == |s.pc| ==> home == 0)
              case ScanPage(j, ph, home) => j < |s.pc| &&
                (ph != 0 ==> ph in s.place && s.place[ph].list == j && ph in s.next)
              case _ => true
    {
      assert ScanOk(s.place, |s.pc|, s.pc[c]);
      if s.pc[c].ScanPage? && s.pc[c].ph != 0 { NextPlace(s, s.pc[c].ph); }
    }
  }

  // ---------------------------------------------------------- no deadlock

  predicate Busy(p: Pc) { !p.Idle? && !p.Halted? }

  /** CPU c is about to find the lock it needs taken. */
  predicate Waits(s: Sys, c: nat)
    requires Shaped(s) && c < |s.pc|
  {
    (SpinsOnList(s.pc[c]) && s.listLock[c] != 0) || (SpinsOnHeap(s.pc[c]) && s.heapLock != 0)
  }

  /** A CPU in the middle of a call that does not wait for a lock moves on. */
  lemma Advances(s: Sys, c: nat)
    requires Inv(s) && c < |s.pc| && Busy(s.pc[c]) && !Waits(s, c)
    ensures exists ch :: Allowed(s, c, ch) && NextPc(s, c, ch) != s.pc[c]
  {
    var p := s.pc[c];
    var ch := if p.Search? then Grow else if p.InitHeapHeld? || p.GrowHeld? then Found(0) else None;
    assert Allowed(s, c, ch);
    if p.ScanPage? {
      assert ScanOk(s.place, |s.pc|, p);
      if p.ph != 0 { NextPlace(s, p.ph); }
    }
    assert NextPc(s, c, ch) != p;
  }

  /** The holder of heap_lock never waits; if nobody holds it, nobody waits at all. */
  lemma SomeoneRuns(s: Sys, c: nat) returns (d: nat)
    requires Shaped(s) && HeapLockOk(s) && ListLocksOk(s) && c < |s.pc| && Busy(s.pc[c])
    ensures d < |s.pc| && Busy(s.pc[d]) && !Waits(s, d)
  {
    d := c;
    if s.heapLock != 0 {
      d :| 0 <= d < |s.pc| && HoldsHeap(s.pc[d]);
    }
    assert s.listLock[d] == if HoldsList(s.pc[d]) then 1 else 0;
  }

  /** If some CPU is in the middle of a call, some CPU can take its own call further. */
  lemma NoDeadlock(ncpu: nat, moves: seq<Move>, t: Sys, c: nat)
    requires Run(Start(ncpu), moves, t) && c < |t.pc| && Busy(t.pc[c])
    ensures Shaped(t) && exists d, ch ::
        0 <= d < |t.pc| && Allowed(t, d, ch) && Busy(t.pc[d]) && NextPc(t, d, ch) != t.pc[d]
  {
    StartInv(ncpu);
    RunInv(Start(ncpu), moves, t);
    var d := SomeoneRuns(t, c);
    Advances(t, d);
  }

  // ---------------------------------------------------------- the unlocked scan

  /** How far a scan still has to go. */
  function ScanRank(s: Sys, p: Pc): (int, int)
    requires p.ScanList? || p.ScanPage?
  {
    if p.ScanList? then (2 * (|s.pc| - p.list) + 1, 0)
    else (2 * (|s.pc| - p.list), if p.ph != 0 && p.ph in s.place then s.place[p.ph].index + 1 else 0)
  }

  ghost predicate Less(a: (int, int), b: (int, int)) {
    0 <= a.0 && 0 <= a.1 && (a.0 < b.0 || (a.0 == b.0 && a.1 < b.1))
  }

  lemma ScanDown(s: Sys, c: nat, ch: Choice)
    requires Shaped(s) && PubOk(s) && c < |s.pc| && Allowed(s, c, ch) && ScanOk(s.place, |s.pc|, s.pc[c])
    requires s.pc[c].ScanList? || s.pc[c].ScanPage?
    ensures var p' := NextPc(s, c, ch); p'.ScanList? || p'.ScanPage? ==> Less(ScanRank(s, p'), ScanRank(s, s.pc[c]))
  {
    var p := s.pc[c];
    if p.ScanPage? {
      if p.ph != 0 { NextPlace(s, p.ph); }
    } else if p.list < |s.pc| {
      HeadPlace(s, p.list);
    }
  }

  lemma RankKept(s: Sys, s': Sys, p: Pc)
    requires (p.ScanList? || p.ScanPage?) && |s'.pc| == |s.pc| && Grows(s.place, s'.place) && ScanOk(s.place, |s.pc|, p)
    ensures ScanRank(s', p) == ScanRank(s, p)
  {
  }

  /** A scan ends even while other CPUs keep prepending pages: its own steps bring it closer
      to the end, and no step of another CPU takes it further away. */
  lemma ScanEnds(s: Sys, c: nat, d: nat, ch: Choice)
    requires Inv(s) && c < |s.pc| && d < |s.pc| && Allowed(s, d, ch)
    requires s.pc[c].ScanList? || s.pc[c].ScanPage?
    ensures var p, p' := s.pc[c], Step(s, d, ch).pc[c];
            if c != d then p' == p && ScanRank(Step(s, d, ch), p') == ScanRank(s, p)
            else p'.ScanList? || p'.ScanPage? ==> Less(ScanRank(Step(s, d, ch), p'), ScanRank(s, p))
  {
    assert ScanOk(s.place, |s.pc|, s.pc[c]);
    PlaceGrows(s, d, ch);
    if c == d {
      ScanDown(s, c, ch);
      ScanNext(s, c, ch);
      var p' := NextPc(s, c, ch);
      if p'.ScanList? || p'.ScanPage? { RankKept(s, Step(s, d, ch), p'); }
    } else {
      RankKept(s, Step(s, d, ch), s.pc[c]);
    }
  }

  // ---------------------------------------------------------- who touches a page

  /** A call in progress on c frees a block of c's own pages, or a huge block. */
  predicate FreesOwn(place: map<int, Place>, c: nat, p: Pc) {
    match p
    case FreeSpin(home) => home != 0 ==> home in place && place[home].list == c
    case FreeGot(home) => home != 0 ==> home in place && place[home].list == c
    case ScanList(_, home) => home != 0 ==> home in place && place[home].list == c
    case ScanPage(_, _, home) => home != 0 ==> home in place && place[home].list == c
    case FreeTouch(page) => page in place && place[page].list == c
    case _ => true
  }

  ghost predicate OwnersFree(s: Sys) {
    forall c {:trigger s.pc[c]} :: 0 <= c < |s.pc| ==> FreesOwn(s.place, c, s.pc[c])
  }

  /** A run in which every free is issued on the CPU that owns the block's page. */
  ghost predicate OwnerRun(s: Sys, moves: seq<Move>, t: Sys)
    decreases |moves|
  {
    if moves == [] then t == s
    else
      && Shaped(s) && moves[0].cpu < |s.pc| && Allowed(s, moves[0].cpu, moves[0].choice)
      && (moves[0].choice.Free? && moves[0].choice.home in s.place ==>
         s.place[moves[0].choice.home].list == moves[0].cpu)
      && OwnerRun(Step(s, moves[0].cpu, moves[0].choice), moves[1..], t)
  }

  lemma OwnersNext(s: Sys, c: nat, ch: Choice)
    requires Shaped(s) && c < |s.pc| && Allowed(s, c, ch) && FreesOwn(s.place, c, s.pc[c])
    requires ch.Free? && ch.home in s.place ==> s.place[ch.home].list == c
    ensures FreesOwn(s.place, c, NextPc(s, c, ch))
  {
  }

  lemma OwnersKept(place: map<int, Place>, place': map<int, Place>, c: nat, p: Pc)
    requires FreesOwn(place, c, p) && Grows(place, place')
    ensures FreesOwn(place', c, p)
  {
  }

  lemma OwnersStep(s: Sys, c: nat, ch: Choice)
    requires Inv(s) && OwnersFree(s) && c < |s.pc| && Allowed(s, c, ch)
    requires ch.Free? && ch.home in s.place ==> s.place[ch.home].list == c
    ensures OwnersFree(Step(s, c, ch))
  {
    var s' := Step(s, c, ch);
    PlaceGrows(s, c, ch);
    forall d | 0 <= d < |s'.pc| ensures FreesOwn(s'.place, d, s'.pc[d]) {
      if d == c { OwnersNext(s, c, ch); }
      OwnersKept(s.place, s'.place, d, s'.pc[d]);
    }
  }

  lemma {:induction false} OwnerRunInv(s: Sys, moves: seq<Move>, t: Sys)
    requires Inv(s) && OwnersFree(s) && OwnerRun(s, moves, t)
    ensures Inv(t) && OwnersFree(t)
    decreases |moves|
  {
    if moves != [] {
      StepInv(s, moves[0].cpu, moves[0].choice);
      OwnersStep(s, moves[0].cpu, moves[0].choice);
      OwnerRunInv(Step(s, moves[0].cpu, moves[0].choice), moves[1..], t);
    }
  }

  lemma TouchesOwn(s: Sys, c: nat, page: int)
    requires Shaped(s) && c < |s.pc| && OwnOk(s, c, s.pc[c]) && FreesOwn(s.place, c, s.pc[c]) && Touches(s.pc[c], page)
    ensures page in s.place && s.place[page].list == c
  {
  }

  /** If every free is issued on the owning CPU, no two CPUs ever work on the same page. */
  lemma OwnerFreesNeverRace(ncpu: nat, moves: seq<Move>, t: Sys, c: nat, d: nat, page: int)
    requires OwnerRun(Start(ncpu), moves, t) && c < |t.pc| && d < |t.pc|
    requires Touches(t.pc[c], page) && Touches(t.pc[d], page)
    ensures c == d
  {
    StartInv(ncpu);
    OwnerRunInv(Start(ncpu), moves, t);
    TouchesOwn(t, c, page);
    TouchesOwn(t, d, page);
  }

  lemma {:induction false} RunAppend(s: Sys, m: seq<Move>, t: Sys, n: seq<Move>, u: Sys)
    requires Run(s, m, t) && Run(t, n, u)
    ensures Run(s, m + n, u)
    decreases |m|
  {
    if m == [] {
      assert m + n == n;
    } else {
      RunAppend(Step(s, m[0].cpu, m[0].choice), m[1..], t, n, u);
      assert (m + n)[1..] == m[1..] + n;
    }
  }

  lemma RunOne(s: Sys, c: nat, ch: Choice, n: seq<Move>, u: Sys)
    requires Shaped(s) && c < |s.pc| && Allowed(s, c, ch) && Run(Step(s, c, ch), n, u)
    ensures Run(s, [Move(c, ch)] + n, u)
  {
    assert ([Move(c, ch)] + n)[1..] == n;
  }

  lemma ScanWrites(s: Sys, c: nat)
    requires Shaped(s) && c < |s.pc| && (s.pc[c].ScanList? || s.pc[c].ScanPage?)
    ensures Step(s, c, None) == s.(pc := s.pc[c := NextPc(s, c, None)])
  {
  }

  lemma ScanGoesOn(s: Sys, c: nat, home: int)
    requires Shaped(s) && c < |s.pc| && home != 0 && ScanOk(s.place, |s.pc|, s.pc[c])
    requires (s.pc[c].ScanList? || s.pc[c].ScanPage?) && s.pc[c].home == home
    requires forall p {:trigger p in s.place} :: p in s.place ==> 0 <= s.place[p].list < |s.pc|
    ensures var p' := NextPc(s, c, None); p' == FreeTouch(home) || ((p'.ScanList? || p'.ScanPage?) && p'.home == home)
  {
  }

  lemma ScanStep(s: Sys, c: nat, home: int)
    requires Inv(s) && c < |s.pc| && home != 0
    requires (s.pc[c].ScanList? || s.pc[c].ScanPage?) && s.pc[c].home == home
    ensures Step(s, c, None) == s.(pc := s.pc[c := NextPc(s, c, None)])
    ensures Inv(Step(s, c, None))
    ensures var p' := NextPc(s, c, None);
            p' == FreeTouch(home)
            || ((p'.ScanList? || p'.ScanPage?) && p'.home == home &&
              Less(ScanRank(Step(s, c, None), p'), ScanRank(s, s.pc[c])))
  {
    assert ScanOk(s.place, |s.pc|, s.pc[c]);
    ScanGoesOn(s, c, home);
    ScanWrites(s, c);
    StepInv(s, c, None);
    ScanEnds(s, c, c, None);
  }

  /** Left alone, a scan for a small block arrives at the block's page, having written nothing. */
  lemma {:induction false} ScanArrives(s: Sys, c: nat, home: int) returns (moves: seq<Move>)
    requires Inv(s) && c < |s.pc| && home != 0
    requires (s.pc[c].ScanList? || s.pc[c].ScanPage?) && s.pc[c].home == home
    ensures Run(s, moves, s.(pc := s.pc[c := FreeTouch(home)]))
    decreases ScanRank(s, s.pc[c]).0, ScanRank(s, s.pc[c]).1
  {
    ScanStep(s, c, home);
    var p' := NextPc(s, c, None);
    var s' := s.(pc := s.pc[c := p']);
    var t := s.(pc := s.pc[c := FreeTouch(home)]);
    if p' == FreeTouch(home) {
      moves := [];
    } else {
      moves := ScanArrives(s', c, home);
      assert s'.pc[c := FreeTouch(home)] == t.pc;
    }
    RunOne(s, c, None, moves, t);
    moves := [Move(c, None)] + moves;
  }

  lemma GotArrives(s: Sys, c: nat, page: int) returns (moves: seq<Move>)
    requires Inv(s) && c < |s.pc| && s.pc[c] == FreeGot(page) && page != 0
    ensures Run(s, moves, s.(pc := s.pc[c := FreeTouch(page)]))
  {
    var s' := Step(s, c, None);
    assert s' == s.(pc := s.pc[c := ScanList(0, page)]);
    StepInv(s, c, None);
    moves := ScanArrives(s', c, page);
    assert s'.pc[c := FreeTouch(page)] == s.pc[c := FreeTouch(page)];
    RunOne(s, c, None, moves, s.(pc := s.pc[c := FreeTouch(page)]));
    moves := [Move(c, None)] + moves;
  }

  lemma SpinArrives(s: Sys, c: nat, page: int) returns (moves: seq<Move>)
    requires Inv(s) && c < |s.pc| && s.pc[c] == FreeSpin(page) && page != 0
    ensures Run(s, moves, s.(pc := s.pc[c := FreeTouch(page)], listLock := s.listLock[c := 1]))
  {
    assert s.listLock[c] == if HoldsList(s.pc[c]) then 1 else 0;
    var s' := Step(s, c, None);
    assert s' == s.(pc := s.pc[c := FreeGot(page)], listLock := s.listLock[c := 1]);
    StepInv(s, c, None);
    moves := GotArrives(s', c, page);
    assert s'.pc[c := FreeTouch(page)] == s.pc[c := FreeTouch(page)];
    RunOne(s, c, None, moves, s.(pc := s.pc[c := FreeTouch(page)], listLock := s.listLock[c := 1]));
    moves := [Move(c, None)] + moves;
  }

  lemma FreeStarts(s: Sys, c: nat, page: int)
    requires Shaped(s) && c < |s.pc| && s.pc[c] == Idle && page in s.place
    ensures Allowed(s, c, Free(page)) && Step(s, c, Free(page)) == s.(pc := s.pc[c := FreeSpin(page)])
  {
  }

  lemma PlacedNotNull(s: Sys, page: int)
    requires Shaped(s) && PubOk(s) && page in s.place
    ensures page != 0
  {
  }

  /** An idle CPU that frees a block of a published page gets to work on that page. */
  lemma FreeArrives(s: Sys, c: nat, page: int) returns (moves: seq<Move>)
    requires Inv(s) && c < |s.pc| && s.pc[c] == Idle && page in s.place
    ensures Run(s, moves, s.(pc := s.pc[c := FreeTouch(page)], listLock := s.listLock[c := 1]))
  {
    PlacedNotNull(s, page);
    FreeStarts(s, c, page);
    StepInv(s, c, Free(page));
    var s' := s.(pc := s.pc[c := FreeSpin(page)]);
    moves := SpinArrives(s', c, page);
    assert s'.pc[c := FreeTouch(page)] == s.pc[c := FreeTouch(page)];
    RunOne(s, c, Free(page), moves, s.(pc := s.pc[c := FreeTouch(page)], listLock := s.listLock[c := 1]));
    moves := [Move(c, Free(page))] + moves;
  }

  lemma SearchArrives(s: Sys, d: nat, page: int) returns (moves: seq<Move>)
    requires Shaped(s) && d < |s.pc| && s.pc[d] == ListGot && page in s.place && s.place[page].list == d
    ensures Run(s, moves, s.(pc := s.pc[d := Touch(page)]))
  {
    var t := s.(pc := s.pc[d := Touch(page)]);
    var s' := Step(s, d, None);
    assert s' == s.(pc := s.pc[d := Search]);
    assert s'.pc[d := Touch(page)] == t.pc;
    RunOne(s', d, Found(page), [], t);
    moves := [Move(d, Found(page))] + [];
    RunOne(s, d, None, moves, t);
    moves := [Move(d, None)] + moves;
  }

  lemma TakeArrives(s: Sys, d: nat, page: int) returns (moves: seq<Move>)
    requires Shaped(s) && d < |s.pc| && s.pc[d] == ListSpin && s.listLock[d] == 0 && page in s.place &&
        s.place[page].list == d
    ensures Run(s, moves, s.(pc := s.pc[d := Touch(page)], listLock := s.listLock[d := 1]))
  {
    var t := s.(pc := s.pc[d := Touch(page)], listLock := s.listLock[d := 1]);
    var s' := Step(s, d, None);
    assert s' == s.(pc := s.pc[d := ListGot], listLock := s.listLock[d := 1]);
    moves := SearchArrives(s', d, page);
    assert s'.pc[d := Touch(page)] == t.pc;
    RunOne(s, d, None, moves, t);
    moves := [Move(d, None)] + moves;
  }

  lemma AllocStarts(s: Sys, d: nat)
    requires Shaped(s) && d < |s.pc| && s.pc[d] == Idle && s.head[d] != 0
    ensures Step(s, d, Small) == s.(pc := s.pc[d := CheckHead])
    ensures Step(s.(pc := s.pc[d := CheckHead]), d, None) == s.(pc := s.pc[d := ListSpin])
  {
    assert s.pc[d := CheckHead][d := ListSpin] == s.pc[d := ListSpin];
  }

  /** An idle CPU that allocates gets to work on any page of its own list that has room. */
  lemma AllocArrives(s: Sys, d: nat, page: int) returns (moves: seq<Move>)
    requires Shaped(s) && d < |s.pc| && s.pc[d] == Idle && s.listLock[d] == 0 && s.head[d] != 0
    requires page in s.place && s.place[page].list == d
    ensures Run(s, moves, s.(pc := s.pc[d := Touch(page)], listLock := s.listLock[d := 1]))
  {
    var t := s.(pc := s.pc[d := Touch(page)], listLock := s.listLock[d := 1]);
    AllocStarts(s, d);
    var s1 := s.(pc := s.pc[d := CheckHead]);
    var s2 := s.(pc := s.pc[d := ListSpin]);
    moves := TakeArrives(s2, d, page);
    assert s2.pc[d := Touch(page)] == t.pc;
    RunOne(s1, d, None, moves, t);
    moves := [Move(d, None)] + moves;
    RunOne(s, d, Small, moves, t);
    moves := [Move(d, Small)] + moves;
  }

  /** Line 313 locks the caller's list, not the page's: from any reachable state, a free on
      another CPU than the owner can meet the owner's kalloc inside the page. */
  lemma ForeignFreeRaces(s: Sys, c: nat, d: nat, page: int) returns (moves: seq<Move>, t: Sys)
    requires Inv(s) && c < |s.pc| && d < |s.pc| && c != d && s.pc[c] == Idle && s.pc[d] == Idle
    requires page in s.place && s.place[page].list == d
    ensures Run(s, moves, t) && |t.pc| == |s.pc| && Touches(t.pc[c], page) && Touches(t.pc[d], page)
  {
    var m := FreeArrives(s, c, page);
    var u := s.(pc := s.pc[c := FreeTouch(page)], listLock := s.listLock[c := 1]);
    RunInv(s, m, u);
    assert u.listLock[d] == if HoldsList(u.pc[d]) then 1 else 0;
    HeadPlace(u, d);
    var n := AllocArrives(u, d, page);
    t := u.(pc := u.pc[d := Touch(page)], listLock := u.listLock[d := 1]);
    RunAppend(s, m, u, n, t);
    moves := m + n;
  }
}
