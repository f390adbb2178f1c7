/** kalloc and kfree of kernel/src/pmm.c on any number of CPUs at once: the lock protocol of
    LockProtocol moving the heap, the pages and the live blocks of Allocator.  Each CPU does one
    shared access at a time; work on page contents or on the heap free list is the access made
    while the lock that guards it is held. */
module ConcurrentAllocator {
  import L = LockProtocol
  import opened Memory
  import opened Tilings
  import opened HeapModel
  import opened PageModel
  import opened Allocator
  import opened AllocatorRuns

  /** What a client asks of an idle CPU; a CPU in the middle of a call is told to go on. */
  datatype Call = Request(req: int) | Return(ptr: int) | Continue

  /** What a CPU is busy with: a request to serve, a block found and not yet handed to
      the client, a block to take back. */
  datatype Job = Nothing | Get(req: int) | Got(ptr: int) | Give(ptr: int) {
    /** The class of the request. */
    const size: int := if Get? then SizeClass(req) else 0
  }

  datatype World = World(sys: L.Sys, st: State, jobs: seq<Job>)

  function PtrOf(j: Job): int {
    match j
    case Got(x) => x
    case Give(x) => x
    case _ => 0
  }

  predicate Shaped(w: World) {
    L.Shaped(w.sys) && |w.jobs| == |w.sys.pc| && |w.st.lists| == |w.sys.pc|
  }

  // ---------------------------------------------------------- the invariant

  function Rev(s: seq<int>): seq<int> {
    if s == [] then [] else [s[|s| - 1]] + Rev(s[..|s| - 1])
  }

  /** The page a CPU has carved and not yet published. */
  function Flight(p: L.Pc): seq<int> {
    if L.InFlight(p) == 0 then [] else [L.InFlight(p)]
  }

  /** Each CPU's pages are those it published, newest first, after the one it is about to publish. */
  ghost predicate ListsAgree(sys: L.Sys, lists: seq<seq<int>>)
    requires L.Shaped(sys) && |lists| == |sys.pc|
  {
    forall c {:trigger lists[c]} :: 0 <= c < |lists| ==> lists[c] == Flight(sys.pc[c]) + Rev(sys.pub[c])
  }

  predicate OwnPage(st: State, c: int, page: int) {
    page != 0 && page in st.pages && page in st.cpuOf && st.cpuOf[page] == c
  }

  predicate Serves(st: State, page: int, s: int) {
    HasRoom(st, page) && st.pages[page].cls == s
  }

  /** No client holds a block of the page. */
  ghost predicate Unused(st: State, page: int) {
    forall x {:trigger st.live[x]} :: x in st.live ==> st.live[x].page != page
  }

  ghost predicate Getting(j: Job) { j.Get? && j.req <= SMALL && ClassOk(j.size) }

  ghost predicate GettingHuge(j: Job) { j.Get? && SMALL < j.req <= LARGE && j.size > 0 && j.size % 16 == 0 }

  ghost predicate Giving(st: State, c: int, j: Job, home: int) {
    j.Give? && j.ptr in st.live && st.live[j.ptr].page == home && (home != 0 ==> OwnPage(st, c, home))
  }

  /** What a CPU's position says about the call it executes. */
  ghost predicate JobOk(st: State, c: int, p: L.Pc, j: Job) {
    match p
    case Idle => j.Nothing?
    case FreeUnlock => j.Nothing?
    case HugeSpin => GettingHuge(j)
    case HugeGot => GettingHuge(j)
    case HugeHeld => GettingHuge(j)
    case InitStore(page) => Getting(j) && (page != 0 ==> OwnPage(st, c, page) && Unused(st, page))
    case GrowLink(page) => Getting(j) && OwnPage(st, c, page) && Unused(st, page) && Serves(st, page, j.size)
    case GrowStore(page) => Getting(j) && OwnPage(st, c, page) && Unused(st, page) && Serves(st, page, j.size)
    case Touch(page) => Getting(j) && OwnPage(st, c, page) && Serves(st, page, j.size)
    case Fill(page) => Getting(j) && OwnPage(st, c, page) && (st.pages[page].empty || Serves(st, page, j.size))
    case FastUnlock => j.Got? && j.ptr in st.live
    case Wipe => j.Got? && j.ptr in st.live
    case Unlock => Getting(j) || (j.Got? && j.ptr in st.live)
    case FreeSpin(home) => Giving(st, c, j, home)
    case FreeGot(home) => Giving(st, c, j, home)
    case ScanList(_, home) => Giving(st, c, j, home)
    case ScanPage(_, _, home) => Giving(st, c, j, home)
    case FreeTouch(page) => Giving(st, c, j, page) && page != 0
    case HugeFreeUnlock => Giving(st, c, j, 0)
    case HugeFreeSpin => Giving(st, c, j, 0)
    case HugeFreeGot => Giving(st, c, j, 0)
    case HugeFreeHeld => Giving(st, c, j, 0)
    case _ => Getting(j)
  }

  ghost predicate JobsOk(w: World)
    requires Shaped(w)
  {
    forall c {:trigger w.jobs[c]} :: 0 <= c < |w.jobs| ==> JobOk(w.st, c, w.sys.pc[c], w.jobs[c])
  }

  /** No block is in the hands of two CPUs. */
  ghost predicate PtrsDistinct(jobs: seq<Job>) {
    forall c, d {:trigger jobs[c], jobs[d]} :: 0 <= c < d < |jobs| && PtrOf(jobs[c]) != 0 ==>
      PtrOf(jobs[c]) != PtrOf(jobs[d])
  }

  ghost predicate Sys(w: World)
    requires Shaped(w)
  {
    match w
    case World(sys, st, _) =>
      L.Inv(sys) && L.OwnersFree(sys) && ListsAgree(sys, st.lists) && sys.carved == st.pages.Keys
  }

  ghost predicate WorldInv(w: World) {
    match w
    case World(_, st, jobs) => Shaped(w) && Inv(st) && Sys(w) && JobsOk(w) && PtrsDistinct(jobs)
  }

  // ---------------------------------------------------------- steps

  /** What the contents of heap and pages decide for the lock protocol. */
  ghost function ChoiceOf(w: World, c: nat, call: Call): L.Choice
    requires Shaped(w) && Inv(w.st) && c < |w.jobs|
  {
    match w.sys.pc[c]
    case Idle =>
      (match call
       case Request(req) => if req <= SMALL then L.Small else L.Huge
       case Return(x) => L.Free(if x in w.st.live then w.st.live[x].page else 0)
       case Continue => L.None)
    case Search => SearchOf(w.st, c, w.jobs[c])
    case InitHeapHeld => L.Found(CarvePage(w.st.heap).1)
    case GrowHeld => L.Found(CarvePage(w.st.heap).1)
    case _ => L.None
  }

  /** Lines 218-226 and 271-280: the first page of the CPU's list that serves the request, else
      the first that may be re-typed, else a new one. */
  ghost function SearchOf(st: State, c: nat, j: Job): L.Choice
    requires c < |st.lists|
  {
    var list, s := st.lists[c], j.size;
    var i, k := First(list, Usable(st, s)), First(list, Empties(st));
    if i < |list| then L.Found(list[i]) else if k < |list| then L.Reuse(list[k]) else L.Grow
  }

  /** What a client may ask: a request kalloc does not turn away at once; the return of a block it
      holds, on the CPU that owns the block's page.  The other two guards are those of Enabled in
      AllocatorRuns, at the step where the code should test them. */
  ghost predicate Enabled(w: World, c: nat, call: Call)
    requires Shaped(w) && Inv(w.st) && c < |w.jobs|
  {
    var p := w.sys.pc[c];
    !p.Halted? && (if p.Idle? then Asks(w, c, call) else Guarded(w.st, p, w.jobs[c]))
  }

  ghost predicate Asks(w: World, c: nat, call: Call)
    requires Shaped(w)
  {
    match call
    case Request(req) => req <= LARGE
    case Return(x) =>
      && x in w.st.live && Unclaimed(w.jobs, x)
      && (w.st.live[x].page != 0 ==> OwnPage(w.st, c, w.st.live[x].page))
    case Continue => false
  }

  /** The room that line 149 does not ask for, and the index that line 341 takes to be nonzero. */
  ghost predicate Guarded(st: State, p: L.Pc, j: Job)
    requires Inv(st)
  {
    && (p.HugeHeld? ==> j.Get? && HugeFits(st.heap, j.size))
    && (p.FreeTouch? ==> p.page in st.pages && st.pages[p.page].list != [])
  }

  predicate Unclaimed(jobs: seq<Job>, x: int) {
    forall d {:trigger jobs[d]} :: 0 <= d < |jobs| ==> PtrOf(jobs[d]) != x
  }

  /** What an access does to the contents: nothing, take up a call, carve a page, take a block from
      a page, from an empty or new page, from the heap, give a block back, finish the call. */
  datatype Action = Rest | Begin | AddOne | TakeOne(page: int) | FillOne(page: int) | HugeOne | GiveOne | End

  function ActionOf(p: L.Pc): Action {
    match p
    case Idle => Begin
    case InitHeapHeld => AddOne
    case GrowHeld => AddOne
    case Touch(page) => TakeOne(page)
    case Fill(page) => FillOne(page)
    case HugeHeld => HugeOne
    case FreeTouch(_) => GiveOne
    case HugeFreeHeld => GiveOne
    case Wipe => End
    case Unlock => End
    case _ => Rest
  }

  /** What an action finds. */
  ghost predicate Ready(st: State, c: int, a: Action, j: Job)
    requires Inv(st)
  {
    match a
    case AddOne => Getting(j)
    case TakeOne(page) => Getting(j) && OwnPage(st, c, page) && Serves(st, page, j.size)
    case FillOne(page) => Getting(j) && OwnPage(st, c, page) && (st.pages[page].empty || Serves(st, page, j.size))
    case HugeOne => GettingHuge(j) && HugeFits(st.heap, j.size)
    case GiveOne => j.Give? && j.ptr in st.live && (st.live[j.ptr].page != 0 ==> OwnPage(st, c, st.live[j.ptr].page))
    case _ => true
  }

  ghost function Perform(st: State, c: nat, a: Action, j: Job, call: Call): (State, Job)
    requires Inv(st) && c < |st.lists| && Ready(st, c, a, j)
  {
    match a
    case Rest => (st, j)
    case Begin => (st, match call
                       case Request(req) => Get(req)
                       case Return(x) => Give(x)
                       case Continue => Nothing)
    case AddOne => (AddPage(st, c, j.size).0, j)
    case TakeOne(page) => var (st', x) := TakeFrom(st, page); (st', Got(x))
    case FillOne(page) => var (st', x) := FillPage(st, page, j.size); (st', Got(x))
    case HugeOne => (AllocHuge(st, j.size).0, Nothing)
    case GiveOne => (Kfree(st, j.ptr), Nothing)
    case End => (st, Nothing)
  }

  lemma ActionReady(st: State, c: int, p: L.Pc, j: Job)
    requires Inv(st) && JobOk(st, c, p, j) && Guarded(st, p, j)
    ensures Ready(st, c, ActionOf(p), j)
  {
  }

  /** What CPU c's access does to the heap, the pages and the live blocks. */
  ghost function Content(st: State, c: nat, p: L.Pc, j: Job, call: Call): (State, Job)
    requires Inv(st) && c < |st.lists| && JobOk(st, c, p, j) && Guarded(st, p, j)
  {
    ActionReady(st, c, p, j);
    Perform(st, c, ActionOf(p), j, call)
  }

  /** Lines 276 and 297-304: the first block of an empty page, re-typed, or of a new one. */
  ghost function FillPage(st: State, page: int, s: int): (State, int)
    requires Inv(st) && page in st.pages && ClassOk(s) && (st.pages[page].empty || Serves(st, page, s))
  {
    if st.pages[page].empty then
      RetypeInv(st, page, s);
      TakeFrom(Retype(st, page, s), page)
    else TakeFrom(st, page)
  }

  ghost function Step(w: World, c: nat, call: Call): World
    requires WorldInv(w) && c < |w.jobs| && Enabled(w, c, call)
  {
    ChoiceAllowed(w, c, call);
    assert JobOk(w.st, c, w.sys.pc[c], w.jobs[c]);
    var (st, j) := Content(w.st, c, w.sys.pc[c], w.jobs[c], call);
    World(L.Step(w.sys, c, ChoiceOf(w, c, call)), st, w.jobs[c := j])
  }

  // ---------------------------------------------------------- the two views agree

  lemma {:induction false} RevMembers(s: seq<int>)
    ensures forall x {:trigger x in Rev(s)} :: x in Rev(s) <==> x in s
    decreases |s|
  {
    if s != [] {
      RevMembers(s[..|s| - 1]);
      assert s == s[..|s| - 1] + [s[|s| - 1]];
    }
  }

  /** A page of CPU c's list is in flight or published there. */
  lemma ListedPlace(w: World, c: nat, page: int)
    requires Shaped(w) && Sys(w) && c < |w.jobs| && page in w.st.lists[c] && page != L.InFlight(w.sys.pc[c])
    ensures page in w.sys.place && w.sys.place[page].list == c
  {
    RevMembers(w.sys.pub[c]);
    L.InPub(w.sys, c, page);
  }

  /** A page with a live block has been published. */
  lemma UsedPlace(w: World, x: int)
    requires WorldInv(w) && x in w.st.live && w.st.live[x].page != 0
    ensures var page := w.st.live[x].page;
            page in w.st.cpuOf && 0 <= w.st.cpuOf[page] < |w.jobs|
            && page in w.sys.place && w.sys.place[page].list == w.st.cpuOf[page]
  {
    var page := w.st.live[x].page;
    assert BlockSound(x, w.st.live[x], w.st.heap.tiles, w.st.pages);
    assert page in w.st.cpuOf;
    var c := w.st.cpuOf[page];
    assert page in w.st.lists[c];
    assert JobOk(w.st, c, w.sys.pc[c], w.jobs[c]);
    ListedPlace(w, c, page);
  }

  /** What the contents decide is a choice the lock protocol allows. */
  lemma ChoiceAllowed(w: World, c: nat, call: Call)
    requires WorldInv(w) && c < |w.jobs| && Enabled(w, c, call)
    ensures var ch := ChoiceOf(w, c, call);
            L.Allowed(w.sys, c, ch) && (ch.Free? && ch.home in w.sys.place ==> w.sys.place[ch.home].list == c)
  {
    assert JobOk(w.st, c, w.sys.pc[c], w.jobs[c]);
    match w.sys.pc[c]
    case Idle => CallAllowed(w, c, call);
    case Search => SearchAllowed(w, c);
    case InitHeapHeld => CarveAllowed(w, c);
    case GrowHeld => CarveAllowed(w, c);
    case _ =>
  }

  lemma CallAllowed(w: World, c: nat, call: Call)
    requires WorldInv(w) && c < |w.jobs| && w.sys.pc[c].Idle? && Asks(w, c, call)
    ensures var ch := ChoiceOf(w, c, call);
            L.Allowed(w.sys, c, ch) && (ch.Free? && ch.home in w.sys.place ==> w.sys.place[ch.home].list == c)
  {
    if call.Return? {
      if w.st.live[call.ptr].page != 0 { UsedPlace(w, call.ptr); } else { NullUnpublished(w); }
    }
  }

  lemma CarveAllowed(w: World, c: nat)
    requires Shaped(w) && Inv(w.st) && Sys(w) && c < |w.jobs| && (w.sys.pc[c].InitHeapHeld? || w.sys.pc[c].GrowHeld?)
    requires Getting(w.jobs[c])
    ensures L.Allowed(w.sys, c, L.Found(CarvePage(w.st.heap).1))
  {
    AddPageInv(w.st, c, w.jobs[c].size);
  }

  lemma NullUnpublished(w: World)
    requires Shaped(w) && Sys(w)
    ensures 0 !in w.sys.place
  {
    if 0 in w.sys.place { L.PlacedNotNull(w.sys, 0); }
  }

  lemma SearchAllowed(w: World, c: nat)
    requires Shaped(w) && Inv(w.st) && Sys(w) && c < |w.jobs| && w.sys.pc[c].Search?
    ensures L.Allowed(w.sys, c, SearchOf(w.st, c, w.jobs[c]))
  {
    var ch := SearchOf(w.st, c, w.jobs[c]);
    if !ch.Grow? {
      assert ch.page in w.st.lists[c] && 0 !in w.st.lists[c];
      ListedPlace(w, c, ch.page);
    }
  }

  // ---------------------------------------------------------- what one CPU does beside the others

  /** Everything of other CPUs is as before; `gone` is the block c gave back, if any. */
  ghost predicate Beside(st: State, st': State, c: int, gone: int) {
    && |st'.lists| == |st.lists|
    && (forall d {:trigger st'.lists[d]} :: 0 <= d < |st.lists| && d != c ==> st'.lists[d] == st.lists[d])
    && (forall p {:trigger st'.cpuOf[p]} {:trigger p in st.cpuOf} :: p in st.cpuOf ==>
       p in st'.cpuOf && st'.cpuOf[p] == st.cpuOf[p])
    && (forall p {:trigger st'.pages[p]} {:trigger p in st.pages} :: p in st.pages ==>
          p in st'.pages && (p in st.cpuOf && st.cpuOf[p] != c ==> st'.pages[p] == st.pages[p]))
    && (forall x {:trigger st'.live[x]} {:trigger x in st.live} :: x in st.live && x != gone ==>
       x in st'.live && st'.live[x] == st.live[x])
    && (forall x {:trigger st'.live[x]} :: x in st'.live && x !in st.live ==>
          st'.live[x].page == 0 || (st'.live[x].page in st.cpuOf && st.cpuOf[st'.live[x].page] == c))
    && (forall x {:trigger st'.live[x]} :: x in st'.live && x in st.live ==> st'.live[x] == st.live[x])
  }

  lemma PageKept(st: State, st': State, c: int, gone: int, d: int, page: int)
    requires Beside(st, st', c, gone) && d != c && OwnPage(st, d, page)
    ensures OwnPage(st', d, page) && st'.pages[page] == st.pages[page]
    ensures Unused(st, page) ==> Unused(st', page)
  {
  }

  lemma GivingKept(st: State, st': State, c: int, gone: int, d: int, j: Job, home: int)
    requires Beside(st, st', c, gone) && d != c && Giving(st, d, j, home) && j.ptr != gone
    ensures Giving(st', d, j, home)
  {
    if home != 0 { PageKept(st, st', c, gone, d, home); }
  }

  lemma JobKept(st: State, st': State, c: int, gone: int, d: int, p: L.Pc, j: Job)
    requires Beside(st, st', c, gone) && d != c && JobOk(st, d, p, j) && (j.Got? || j.Give? ==> j.ptr != gone)
    ensures JobOk(st', d, p, j)
  {
    match p
    case InitStore(page) => if page != 0 { PageKept(st, st', c, gone, d, page); }
    case GrowLink(page) => PageKept(st, st', c, gone, d, page);
    case GrowStore(page) => PageKept(st, st', c, gone, d, page);
    case Touch(page) => PageKept(st, st', c, gone, d, page);
    case Fill(page) => PageKept(st, st', c, gone, d, page);
    case FreeSpin(home) => GivingKept(st, st', c, gone, d, j, home);
    case FreeGot(home) => GivingKept(st, st', c, gone, d, j, home);
    case ScanList(_, home) => GivingKept(st, st', c, gone, d, j, home);
    case ScanPage(_, _, home) => GivingKept(st, st', c, gone, d, j, home);
    case FreeTouch(page) => GivingKept(st, st', c, gone, d, j, page);
    case _ =>
  }

  lemma AddPageBeside(st: State, c: nat, s: int)
    requires Inv(st) && c < |st.lists| && ClassOk(s)
    ensures Beside(st, AddPage(st, c, s).0, c, 0)
  {
    AddPageInv(st, c, s);
  }

  lemma TakeBeside(st: State, c: nat, page: int)
    requires Inv(st) && HasRoom(st, page) && OwnPage(st, c, page)
    ensures Beside(st, TakeFrom(st, page).0, c, 0)
  {
    TakeFromInv(st, page);
  }

  /** An empty page re-typed. */
  lemma RetypeBeside(st: State, c: nat, page: int, s: int)
    requires Inv(st) && OwnPage(st, c, page) && ClassOk(s) && st.pages[page].empty
    ensures var r := Retype(st, page, s);
            Inv(r) && Serves(r, page, s) && OwnPage(r, c, page) && Beside(st, r, c, 0)
            && r.lists == st.lists && r.pages.Keys == st.pages.Keys && r.live == st.live && r.heap == st.heap
  {
    RetypeInv(st, page, s);
  }

  lemma BesideTwice(st: State, mid: State, st': State, c: int)
    requires Beside(st, mid, c, 0) && Beside(mid, st', c, 0) && mid.live == st.live && mid.cpuOf == st.cpuOf
    ensures Beside(st, st', c, 0)
  {
  }

  lemma FillInv(st: State, c: nat, page: int, s: int)
    requires Inv(st) && OwnPage(st, c, page) && ClassOk(s) && (st.pages[page].empty || Serves(st, page, s))
    ensures var (st', x) := FillPage(st, page, s);
            ContentSound(st, st', c, 0) && x !in st.live && x in st'.live
  {
    if st.pages[page].empty {
      var r := Retype(st, page, s);
      RetypeBeside(st, c, page, s);
      TakeSound(r, c, page);
      BesideTwice(st, r, TakeFrom(r, page).0, c);
    } else {
      TakeSound(st, c, page);
    }
  }

  // ---------------------------------------------------------- every step keeps the invariant

  /** The block given back by the action, NULL if none. */
  function Gone(a: Action, j: Job): int {
    if a.GiveOne? then PtrOf(j) else 0
  }

  /** The contents after a step of CPU c. */
  ghost predicate ContentSound(st: State, st': State, c: nat, gone: int) {
    && Inv(st') && Beside(st, st', c, gone) && st'.heap.lo == st.heap.lo && st'.heap.hi == st.heap.hi
  }

  lemma Stays(st: State, c: nat)
    requires Inv(st)
    ensures ContentSound(st, st, c, 0)
  {
  }

  lemma AddPageSound(st: State, c: nat, s: int)
    requires Inv(st) && c < |st.lists| && ClassOk(s)
    ensures ContentSound(st, AddPage(st, c, s).0, c, 0)
  {
    AddPageInv(st, c, s);
    AddPageBeside(st, c, s);
  }

  lemma TakeSound(st: State, c: nat, page: int)
    requires Inv(st) && HasRoom(st, page) && OwnPage(st, c, page)
    ensures ContentSound(st, TakeFrom(st, page).0, c, 0) && TakeFrom(st, page).1 !in st.live &&
        TakeFrom(st, page).1 in TakeFrom(st, page).0.live
  {
    TakeFromInv(st, page);
    TakeBeside(st, c, page);
  }

  lemma HugeSound(st: State, c: nat, s: int)
    requires Inv(st) && s > 0 && s % 16 == 0 && HugeFits(st.heap, s)
    ensures ContentSound(st, AllocHuge(st, s).0, c, 0)
  {
    AllocHugeInv(st, s);
  }

  lemma GiveSound(st: State, c: nat, x: int)
    requires Inv(st) && x in st.live && (st.live[x].page != 0 ==> OwnPage(st, c, st.live[x].page))
    ensures ContentSound(st, Kfree(st, x), c, x)
  {
    if st.live[x].page == 0 { FreeHugeInv(st, x); } else { FreeSmallInv(st, x); }
  }

  lemma PerformSound(st: State, c: nat, a: Action, j: Job, call: Call)
    requires Inv(st) && c < |st.lists| && Ready(st, c, a, j)
    ensures ContentSound(st, Perform(st, c, a, j, call).0, c, Gone(a, j))
  {
    match a
    case AddOne => AddPageSound(st, c, j.size);
    case TakeOne(page) => TakeSound(st, c, page);
    case FillOne(page) => FillInv(st, c, page, j.size);
    case HugeOne => HugeSound(st, c, j.size);
    case GiveOne => GiveSound(st, c, j.ptr);
    case _ => Stays(st, c);
  }

  // ---------------------------------------------------------- where each CPU stands afterwards

  lemma RequestJob(st: State, c: nat, req: int)
    requires req <= LARGE
    ensures JobOk(st, c, if req <= SMALL then L.CheckHead else L.HugeSpin, Get(req))
  {
    if req <= SMALL { SmallClass(req); } else { ClassMultiple(32, req); }
  }

  lemma SearchJob(st: State, c: nat, j: Job)
    requires Inv(st) && c < |st.lists| && Getting(j)
    ensures match SearchOf(st, c, j)
            case Found(page) => JobOk(st, c, L.Touch(page), j)
            case Reuse(page) => JobOk(st, c, L.Fill(page), j)
            case _ => true
  {
    var ch := SearchOf(st, c, j);
    if !ch.Grow? {
      assert ch.page in st.lists[c] && 0 !in st.lists[c];
    }
  }

  /** A page just carved: nobody's but its CPU's, with room for the request. */
  lemma CarvedJob(st: State, c: nat, j: Job)
    requires Inv(st) && c < |st.lists| && Getting(j)
    ensures var (st', a) := AddPage(st, c, j.size);
            a != 0 ==> JobOk(st', c, L.InitStore(a), j) && JobOk(st', c, L.GrowLink(a), j)
  {
    AddPageInv(st, c, j.size);
    var (st', a) := AddPage(st, c, j.size);
    if a != 0 {
      assert st'.pages[a] == Fresh(a, j.size);
      forall x | x in st'.live ensures st'.live[x].page != a {
        assert BlockSound(x, st.live[x], st.heap.tiles, st.pages);
        NoNullPage(st);
      }
    }
  }

  lemma QuietJob(sys: L.Sys, st: State, c: nat, j: Job, ch: L.Choice)
    requires L.Shaped(sys) && c < |sys.pc| && L.Allowed(sys, c, ch) && ActionOf(sys.pc[c]).Rest? && !sys.pc[c].Search?
    requires JobOk(st, c, sys.pc[c], j) && L.ScanOk(sys.place, |sys.pc|, sys.pc[c])
    requires (forall p {:trigger p in sys.place} :: p in sys.place ==> 0 <= sys.place[p].list < |sys.pc|)
    ensures JobOk(st, c, L.NextPc(sys, c, ch), j)
  {
  }

  /** Where an acting CPU goes, and that its job says so. */
  lemma ActingJob(sys: L.Sys, st: State, c: nat, j: Job, call: Call, ch: L.Choice)
    requires L.Shaped(sys) && c < |sys.pc| && L.Allowed(sys, c, ch) && Inv(st) && c < |st.lists|
    requires JobOk(st, c, sys.pc[c], j) && Guarded(st, sys.pc[c], j)
    requires ActionOf(sys.pc[c]) in {AddOne, HugeOne, GiveOne, End} || ActionOf(sys.pc[c]).TakeOne? ||
        ActionOf(sys.pc[c]).FillOne?
    requires ActionOf(sys.pc[c]).AddOne? ==> ch == L.Found(CarvePage(st.heap).1)
    ensures var (st', j') := Content(st, c, sys.pc[c], j, call); JobOk(st', c, L.NextPc(sys, c, ch), j')
  {
    ActionReady(st, c, sys.pc[c], j);
    match ActionOf(sys.pc[c])
    case AddOne => CarvedJob(st, c, j);
    case TakeOne(page) => TakeSound(st, c, page);
    case FillOne(page) => FillInv(st, c, page, j.size);
    case _ =>
  }

  lemma IdleJob(w: World, c: nat, call: Call)
    requires Shaped(w) && Inv(w.st) && c < |w.jobs| && w.sys.pc[c].Idle? && Asks(w, c, call)
    requires L.Allowed(w.sys, c, ChoiceOf(w, c, call))
    ensures var (st', j') := Perform(w.st, c, Begin, w.jobs[c], call);
            st' == w.st && JobOk(st', c, L.NextPc(w.sys, c, ChoiceOf(w, c, call)), j')
  {
    if call.Request? { RequestJob(w.st, c, call.req); }
  }

  lemma SearchNext(w: World, c: nat, call: Call)
    requires Shaped(w) && Inv(w.st) && c < |w.jobs| && w.sys.pc[c].Search? && Getting(w.jobs[c])
    requires L.Allowed(w.sys, c, ChoiceOf(w, c, call))
    ensures JobOk(w.st, c, L.NextPc(w.sys, c, ChoiceOf(w, c, call)), w.jobs[c])
  {
    SearchJob(w.st, c, w.jobs[c]);
  }

  lemma ActingNext(w: World, c: nat, call: Call)
    requires Shaped(w) && Inv(w.st) && c < |w.jobs| && JobOk(w.st, c, w.sys.pc[c], w.jobs[c])
    requires L.Allowed(w.sys, c, ChoiceOf(w, c, call)) && Guarded(w.st, w.sys.pc[c], w.jobs[c])
    requires var p := w.sys.pc[c]; !p.Idle? && !p.Halted? && !ActionOf(p).Rest?
    ensures var (st', j') := Content(w.st, c, w.sys.pc[c], w.jobs[c], call);
            JobOk(st', c, L.NextPc(w.sys, c, ChoiceOf(w, c, call)), j')
  {
    ActingJob(w.sys, w.st, c, w.jobs[c], call, ChoiceOf(w, c, call));
  }

  lemma NextJob(w: World, c: nat, call: Call)
    requires Shaped(w) && Inv(w.st) && c < |w.jobs| && Enabled(w, c, call) && JobOk(w.st, c, w.sys.pc[c], w.jobs[c])
    requires L.Allowed(w.sys, c, ChoiceOf(w, c, call)) && L.ScanOk(w.sys.place, |w.sys.pc|, w.sys.pc[c])
    requires forall p {:trigger p in w.sys.place} :: p in w.sys.place ==> 0 <= w.sys.place[p].list < |w.sys.pc|
    requires Guarded(w.st, w.sys.pc[c], w.jobs[c])
    ensures var (st', j') := Content(w.st, c, w.sys.pc[c], w.jobs[c], call);
            JobOk(st', c, L.NextPc(w.sys, c, ChoiceOf(w, c, call)), j')
  {
    var p := w.sys.pc[c];
    if p.Idle? {
      IdleJob(w, c, call);
    } else if p.Search? {
      SearchNext(w, c, call);
    } else if ActionOf(p).Rest? {
      QuietJob(w.sys, w.st, c, w.jobs[c], ChoiceOf(w, c, call));
    } else {
      ActingNext(w, c, call);
    }
  }

  // ---------------------------------------------------------- the lists

  /** Lists and set of pages are as before. */
  ghost predicate SamePages(st: State, st': State) {
    st'.lists == st.lists && st'.pages.Keys == st.pages.Keys
  }

  lemma TakeSamePages(st: State, page: int)
    requires Inv(st) && HasRoom(st, page)
    ensures SamePages(st, TakeFrom(st, page).0)
  {
    var pages := st.pages[page := Take(st.pages[page]).0];
    assert pages.Keys == st.pages.Keys;
  }

  lemma FillSamePages(st: State, page: int, s: int)
    requires Inv(st) && page in st.pages && ClassOk(s) && (st.pages[page].empty || Serves(st, page, s))
    ensures SamePages(st, FillPage(st, page, s).0)
  {
    if st.pages[page].empty {
      RetypeInv(st, page, s);
      assert Retype(st, page, s).pages.Keys == st.pages.Keys;
      TakeSamePages(Retype(st, page, s), page);
    } else {
      TakeSamePages(st, page);
    }
  }

  lemma GiveSamePages(st: State, x: int)
    requires Inv(st) && x in st.live
    ensures SamePages(st, Kfree(st, x))
  {
    if st.live[x].page == 0 {
      FreeHugeInv(st, x);
    } else {
      FreeSmallInv(st, x);
      var ph := st.live[x].page;
      var pages := st.pages[ph := GiveBack(st.pages[ph], x)];
      assert pages.Keys == st.pages.Keys;
    }
  }

  lemma AddPageLists(st: State, c: nat, s: int)
    requires Inv(st) && c < |st.lists|
    ensures var (st', page) := AddPage(st, c, s);
            if page != 0 then st'.lists == st.lists[c := [page] + st.lists[c]] &&
              st'.pages.Keys == st.pages.Keys + {page} else st' == st
  {
  }

  /** Only carving a page changes the lists and the set of pages. */
  lemma PerformLists(st: State, c: nat, a: Action, j: Job, call: Call)
    requires Inv(st) && c < |st.lists| && Ready(st, c, a, j)
    ensures var (st', page) := (Perform(st, c, a, j, call).0, CarvePage(st.heap).1);
            if a.AddOne? && page != 0
            then st'.lists == st.lists[c := [page] + st.lists[c]] && st'.pages.Keys == st.pages.Keys + {page}
            else SamePages(st, st')
  {
    match a
    case AddOne => AddPageLists(st, c, j.size);
    case TakeOne(page) => TakeSamePages(st, page);
    case FillOne(page) => FillSamePages(st, page, j.size);
    case GiveOne => GiveSamePages(st, j.ptr);
    case _ =>
  }

  /** How a step moves the pages of CPU c between flight and list. */
  lemma OwnList(sys: L.Sys, c: nat, ch: L.Choice)
    requires L.Shaped(sys) && c < |sys.pc| && L.Allowed(sys, c, ch) && L.OwnOk(sys, c, sys.pc[c])
    ensures var sys' := L.Step(sys, c, ch);
            var carved := ActionOf(sys.pc[c]).AddOne? && ch.page != 0;
            && Flight(sys'.pc[c]) + Rev(sys'.pub[c]) ==
                 (if carved then [ch.page] else []) + (Flight(sys.pc[c]) + Rev(sys.pub[c]))
            && sys'.carved == (if carved then sys.carved + {ch.page} else sys.carved)
  {
    L.ListChange(sys, c, ch);
    L.FlightOf(sys, c, ch);
    var pub := sys.pub[c];
    match L.ChangeOf(sys, c, ch)
    case Published(p) =>
      assert (pub + [p])[..|pub + [p]| - 1] == pub;
    case _ =>
  }

  lemma OtherLists(sys: L.Sys, c: nat, ch: L.Choice, d: nat)
    requires L.Shaped(sys) && c < |sys.pc| && L.Allowed(sys, c, ch) && d < |sys.pc| && d != c
    ensures var sys' := L.Step(sys, c, ch); sys'.pc[d] == sys.pc[d] && sys'.pub[d] == sys.pub[d]
  {
    L.ListChange(sys, c, ch);
  }

  lemma ListsFollow(sys: L.Sys, lists: seq<seq<int>>, lists': seq<seq<int>>, c: nat, ch: L.Choice)
    requires L.Shaped(sys) && c < |sys.pc| && L.Allowed(sys, c, ch) && |lists| == |lists'| == |sys.pc| &&
        ListsAgree(sys, lists)
    requires L.OwnOk(sys, c, sys.pc[c])
    requires lists' == lists[c := (if ActionOf(sys.pc[c]).AddOne? && ch.page != 0 then [ch.page] else []) + lists[c]]
    ensures ListsAgree(L.Step(sys, c, ch), lists')
  {
    var sys' := L.Step(sys, c, ch);
    OwnList(sys, c, ch);
    assert lists[c] == Flight(sys.pc[c]) + Rev(sys.pub[c]);
    forall d | 0 <= d < |lists'| ensures lists'[d] == Flight(sys'.pc[d]) + Rev(sys'.pub[d]) {
      if d != c {
        OtherLists(sys, c, ch, d);
        assert lists[d] == Flight(sys.pc[d]) + Rev(sys.pub[d]);
      }
    }
  }

  /** What a step carves is what the heap yields. */
  lemma CarvedChoice(w: World, c: nat, call: Call)
    requires Shaped(w) && Inv(w.st) && c < |w.jobs| && ActionOf(w.sys.pc[c]).AddOne?
    ensures ChoiceOf(w, c, call) == L.Found(CarvePage(w.st.heap).1)
  {
  }

  lemma ListsStep(w: World, c: nat, call: Call)
    requires Shaped(w) && Inv(w.st) && c < |w.jobs| && JobOk(w.st, c, w.sys.pc[c], w.jobs[c]) &&
        Guarded(w.st, w.sys.pc[c], w.jobs[c])
    requires ListsAgree(w.sys, w.st.lists) && w.sys.carved == w.st.pages.Keys && L.OwnOk(w.sys, c, w.sys.pc[c])
    requires L.Allowed(w.sys, c, ChoiceOf(w, c, call))
    ensures var (sys', st') := (L.Step(w.sys, c, ChoiceOf(w, c, call)),
        Content(w.st, c, w.sys.pc[c], w.jobs[c], call).0);
            |st'.lists| == |w.st.lists| && ListsAgree(sys', st'.lists) && sys'.carved == st'.pages.Keys
  {
    var ch, a := ChoiceOf(w, c, call), ActionOf(w.sys.pc[c]);
    ActionReady(w.st, c, w.sys.pc[c], w.jobs[c]);
    PerformLists(w.st, c, a, w.jobs[c], call);
    if a.AddOne? { CarvedChoice(w, c, call); }
    OwnList(w.sys, c, ch);
    assert [] + w.st.lists[c] == w.st.lists[c];
    ListsFollow(w.sys, w.st.lists, Perform(w.st, c, a, w.jobs[c], call).0.lists, c, ch);
  }

  // ---------------------------------------------------------- the whole invariant

  /** A block in the hands of a CPU is live. */
  lemma HeldLive(st: State, c: int, p: L.Pc, j: Job)
    requires JobOk(st, c, p, j)
    ensures j.Got? || j.Give? ==> j.ptr in st.live
  {
  }

  /** The block an action hands to its CPU was nobody's, or is the one the client returns. */
  lemma NewPtr(st: State, c: nat, a: Action, j: Job, call: Call)
    requires Inv(st) && c < |st.lists| && Ready(st, c, a, j)
    ensures var j' := Perform(st, c, a, j, call).1;
            j'.Got? || j'.Give? ==> j' == j || j'.ptr !in st.live || (a.Begin? && call == Return(j'.ptr))
  {
    match a
    case TakeOne(page) => TakeSound(st, c, page);
    case FillOne(page) => FillInv(st, c, page, j.size);
    case _ =>
  }

  lemma PtrsStep(w: World, c: nat, call: Call)
    requires Shaped(w) && Inv(w.st) && JobsOk(w) && PtrsDistinct(w.jobs) && c < |w.jobs| && Enabled(w, c, call)
    requires JobOk(w.st, c, w.sys.pc[c], w.jobs[c]) && Guarded(w.st, w.sys.pc[c], w.jobs[c])
    ensures PtrsDistinct(w.jobs[c := Content(w.st, c, w.sys.pc[c], w.jobs[c], call).1])
  {
    var j, j' := w.jobs[c], Content(w.st, c, w.sys.pc[c], w.jobs[c], call).1;
    ActionReady(w.st, c, w.sys.pc[c], j);
    NewPtr(w.st, c, ActionOf(w.sys.pc[c]), j, call);
    forall d | 0 <= d < |w.jobs| && d != c && PtrOf(j') != 0 ensures PtrOf(w.jobs[d]) != PtrOf(j') {
      assert JobOk(w.st, d, w.sys.pc[d], w.jobs[d]);
      HeldLive(w.st, d, w.sys.pc[d], w.jobs[d]);
      assert PtrOf(w.jobs[d]) != PtrOf(j) || PtrOf(j) == 0;
    }
  }

  lemma JobsStep(w: World, c: nat, call: Call)
    requires Shaped(w) && Inv(w.st) && JobsOk(w) && PtrsDistinct(w.jobs) && c < |w.jobs| && Enabled(w, c, call)
    requires JobOk(w.st, c, w.sys.pc[c], w.jobs[c]) && Guarded(w.st, w.sys.pc[c], w.jobs[c])
    requires L.Allowed(w.sys, c, ChoiceOf(w, c, call)) && L.ScanOk(w.sys.place, |w.sys.pc|, w.sys.pc[c])
    requires forall p {:trigger p in w.sys.place} :: p in w.sys.place ==> 0 <= w.sys.place[p].list < |w.sys.pc|
    ensures var (st', j') := Content(w.st, c, w.sys.pc[c], w.jobs[c], call);
            var w' := World(L.Step(w.sys, c, ChoiceOf(w, c, call)), st', w.jobs[c := j']);
            Shaped(w') && JobsOk(w')
  {
    var (st', j') := Content(w.st, c, w.sys.pc[c], w.jobs[c], call);
    var w' := World(L.Step(w.sys, c, ChoiceOf(w, c, call)), st', w.jobs[c := j']);
    var a := ActionOf(w.sys.pc[c]);
    ActionReady(w.st, c, w.sys.pc[c], w.jobs[c]);
    PerformSound(w.st, c, a, w.jobs[c], call);
    NextJob(w, c, call);
    forall d | 0 <= d < |w'.jobs| ensures JobOk(w'.st, d, w'.sys.pc[d], w'.jobs[d]) {
      if d != c {
        assert JobOk(w.st, d, w.sys.pc[d], w.jobs[d]);
        HeldLive(w.st, c, w.sys.pc[c], w.jobs[c]);
        HeldLive(w.st, d, w.sys.pc[d], w.jobs[d]);
        NoNullBlock(w.st);
        assert PtrOf(w.jobs[c]) == 0 || PtrOf(w.jobs[d]) != PtrOf(w.jobs[c]);
        JobKept(w.st, st', c, Gone(a, w.jobs[c]), d, w.sys.pc[d], w.jobs[d]);
      }
    }
  }

  lemma NoNullBlock(st: State)
    requires Inv(st)
    ensures 0 !in st.live
  {
    if 0 in st.live { LiveInside(st, 0); }
  }

  lemma EnabledGuarded(w: World, c: nat, call: Call)
    requires Shaped(w) && Inv(w.st) && c < |w.jobs| && Enabled(w, c, call)
    ensures Guarded(w.st, w.sys.pc[c], w.jobs[c])
  {
  }

  /** What the invariant says about the CPU that moves. */
  lemma AboutCpu(w: World, c: nat)
    requires WorldInv(w) && c < |w.jobs|
    ensures JobOk(w.st, c, w.sys.pc[c], w.jobs[c])
    ensures L.ScanOk(w.sys.place, |w.sys.pc|, w.sys.pc[c]) && L.OwnOk(w.sys, c, w.sys.pc[c])
    ensures forall p {:trigger p in w.sys.place} :: p in w.sys.place ==> 0 <= w.sys.place[p].list < |w.sys.pc|
  {
  }

  lemma SysStep(w: World, c: nat, call: Call)
    requires WorldInv(w) && c < |w.jobs| && Enabled(w, c, call)
    ensures L.Allowed(w.sys, c, ChoiceOf(w, c, call))
    ensures var sys' := L.Step(w.sys, c, ChoiceOf(w, c, call)); L.Inv(sys') && L.OwnersFree(sys')
  {
    ChoiceAllowed(w, c, call);
    L.StepInv(w.sys, c, ChoiceOf(w, c, call));
    L.OwnersStep(w.sys, c, ChoiceOf(w, c, call));
  }

  lemma Assembled(w: World)
    requires Shaped(w) && Inv(w.st) && JobsOk(w) && PtrsDistinct(w.jobs)
    requires L.Inv(w.sys) && L.OwnersFree(w.sys) && ListsAgree(w.sys, w.st.lists) && w.sys.carved == w.st.pages.Keys
    ensures WorldInv(w)
  {
  }

  /** The contents after the step. */
  lemma ContentStep(w: World, c: nat, call: Call)
    requires Shaped(w) && Inv(w.st) && c < |w.jobs| && JobOk(w.st, c, w.sys.pc[c], w.jobs[c]) &&
        Guarded(w.st, w.sys.pc[c], w.jobs[c])
    ensures var st' := Content(w.st, c, w.sys.pc[c], w.jobs[c], call).0;
            Inv(st') && st'.heap.lo == w.st.heap.lo && st'.heap.hi == w.st.heap.hi
  {
    ActionReady(w.st, c, w.sys.pc[c], w.jobs[c]);
    PerformSound(w.st, c, ActionOf(w.sys.pc[c]), w.jobs[c], call);
  }

  /** Every access of every CPU keeps the invariant. */
  lemma StepInv(w: World, c: nat, call: Call)
    requires WorldInv(w) && c < |w.jobs| && Enabled(w, c, call)
    ensures WorldInv(Step(w, c, call)) && SameHeap(w, Step(w, c, call))
  {
    AboutCpu(w, c);
    EnabledGuarded(w, c, call);
    SysStep(w, c, call);
    ListsStep(w, c, call);
    PtrsStep(w, c, call);
    JobsStep(w, c, call);
    ContentStep(w, c, call);
    Assembled(Step(w, c, call));
  }

  predicate SameHeap(w: World, w': World) {
    w'.st.heap.lo == w.st.heap.lo && w'.st.heap.hi == w.st.heap.hi && |w'.jobs| == |w.jobs|
  }

  // ---------------------------------------------------------- whole runs

  datatype Move = Move(cpu: nat, call: Call)

  function Start(lo: int, hi: int, ncpu: nat): World {
    World(L.Start(ncpu), Initial(lo, hi, ncpu), seq(ncpu, _ => Nothing))
  }

  /** The interleaving `moves` leads from w to w'. */
  ghost predicate Run(w: World, moves: seq<Move>, w': World)
    requires WorldInv(w)
    decreases |moves|
  {
    if moves == [] then w' == w
    else
      && moves[0].cpu < |w.jobs| && Enabled(w, moves[0].cpu, moves[0].call)
      && (StepInv(w, moves[0].cpu, moves[0].call); Run(Step(w, moves[0].cpu, moves[0].call), moves[1..], w'))
  }

  lemma StartInv(lo: int, hi: int, ncpu: nat)
    requires 0 < lo < hi && lo % 16 == 0 && hi % 16 == 0 && hi - lo < INT_LIMIT
    ensures WorldInv(Start(lo, hi, ncpu))
  {
    var w := Start(lo, hi, ncpu);
    InitialInv(lo, hi, ncpu);
    L.StartInv(ncpu);
    forall c | 0 <= c < ncpu ensures w.st.lists[c] == Flight(w.sys.pc[c]) + Rev(w.sys.pub[c]) &&
      JobOk(w.st, c, w.sys.pc[c], w.jobs[c]) {
    }
    assert w.sys.carved == w.st.pages.Keys;
  }

  lemma {:induction false} RunInv(w: World, moves: seq<Move>, w': World)
    requires WorldInv(w) && Run(w, moves, w')
    ensures WorldInv(w') && SameHeap(w, w')
    decreases |moves|
  {
    if moves != [] {
      StepInv(w, moves[0].cpu, moves[0].call);
      RunInv(Step(w, moves[0].cpu, moves[0].call), moves[1..], w');
    }
  }

  /** No two live blocks overlap and all lie in the heap. */
  ghost predicate BlocksApart(st: State) {
    forall x, y {:trigger st.live[x], st.live[y]} :: x in st.live && y in st.live && x < y ==>
      st.heap.lo < x && x + st.live[x].size <= y && y + st.live[y].size <= st.heap.hi
  }

  /** Each live block lies in the heap; a small one is a live block of its page, which is on some list. */
  ghost predicate BlocksPlaced(st: State) {
    forall x {:trigger st.live[x]} :: x in st.live ==>
      var b := st.live[x];
      && 0 < b.size && st.heap.lo < x && x + b.size <= st.heap.hi
      && (b.page != 0 ==>
            && b.page in st.pages && b.page in st.cpuOf && Is(st.pages[b.page].tiles, x, Live)
            && b.size == st.pages[b.page].cls && b.page < x && x + b.size <= b.page + PAGE)
  }

  /** The lists in memory are those of the model, but for the pages about to be published. */
  ghost predicate ListsInMemory(w: World)
    requires Shaped(w)
  {
    forall c {:trigger w.st.lists[c]} :: 0 <= c < |w.jobs| ==>
      L.Linked(w.sys.pub[c], w.sys.head[c], w.sys.next) && w.st.lists[c] == Flight(w.sys.pc[c]) + Rev(w.sys.pub[c])
  }

  /** Accesses to the heap exclude each other, and so do accesses to the contents of one page. */
  ghost predicate AccessesExclusive(w: World)
    requires Shaped(w)
  {
    forall c, d {:trigger w.sys.pc[c], w.sys.pc[d]} :: 0 <= c < |w.jobs| && 0 <= d < |w.jobs| && c != d ==>
      && !(L.HoldsHeap(w.sys.pc[c]) && L.HoldsHeap(w.sys.pc[d]))
      && forall page {:trigger L.Touches(w.sys.pc[c], page)} ::
         !(L.Touches(w.sys.pc[c], page) && L.Touches(w.sys.pc[d], page))
  }

  lemma Exclusive(w: World)
    requires WorldInv(w)
    ensures AccessesExclusive(w)
  {
    L.LocksAgree(w.sys);
    forall c, d, page | 0 <= c < |w.jobs| && 0 <= d < |w.jobs| && c != d
      ensures !(L.Touches(w.sys.pc[c], page) && L.Touches(w.sys.pc[d], page))
    {
      AboutCpu(w, c);
      AboutCpu(w, d);
      assert L.FreesOwn(w.sys.place, c, w.sys.pc[c]) && L.FreesOwn(w.sys.place, d, w.sys.pc[d]);
      if L.Touches(w.sys.pc[c], page) && L.Touches(w.sys.pc[d], page) {
        L.TouchesOwn(w.sys, c, page);
        L.TouchesOwn(w.sys, d, page);
      }
    }
  }

  lemma LiveApart(st: State)
    requires Inv(st)
    ensures BlocksApart(st)
  {
    forall x, y | x in st.live && y in st.live && x < y
      ensures st.heap.lo < x && x + st.live[x].size <= y && y + st.live[y].size <= st.heap.hi
    {
      LiveDisjoint(st, x, y);
    }
  }

  lemma LivePlaced(st: State)
    requires Inv(st)
    ensures BlocksPlaced(st)
  {
    forall x | x in st.live
      ensures var b := st.live[x];
              && 0 < b.size && st.heap.lo < x && x + b.size <= st.heap.hi
              && (b.page != 0 ==>
                    && b.page in st.pages && b.page in st.cpuOf && Is(st.pages[b.page].tiles, x, Live)
                    && b.size == st.pages[b.page].cls && b.page < x && x + b.size <= b.page + PAGE)
    {
      LiveInside(st, x);
      assert BlockSound(x, st.live[x], st.heap.tiles, st.pages);
      if st.live[x].page != 0 { assert TileSound(st.live[x].page, st.heap.tiles[st.live[x].page]); }
    }
  }

  /** Any number of CPUs, any interleaving in which blocks are freed on the CPU that owns their page:
      live blocks lie in the heap and in their pages and never overlap, every page is sound, the page
      lists in memory are those of the model, no byte is unaccounted for, and the accesses that change
      heap or pages are exclusive. */
  lemma EveryInterleavingIsSafe(lo: int, hi: int, ncpu: nat, moves: seq<Move>, w: World)
    requires 0 < lo < hi && lo % 16 == 0 && hi % 16 == 0 && hi - lo < INT_LIMIT
    requires (StartInv(lo, hi, ncpu); Run(Start(lo, hi, ncpu), moves, w))
    ensures WorldInv(w) && BlocksApart(w.st) && BlocksPlaced(w.st) && w.st.heap.lo == lo && w.st.heap.hi == hi
    ensures forall p {:trigger w.st.pages[p]} :: p in w.st.pages ==> PageSound(w.st.pages[p])
    ensures Sound(w.st.heap) && ListsInMemory(w) && AccessesExclusive(w)
    ensures InUse(w.st.heap, Free) + PAGE * |w.st.pages| + InUse(w.st.heap, Tilings.Huge) +
        HEADER * w.st.dropped == hi - lo
  {
    StartInv(lo, hi, ncpu);
    RunInv(Start(lo, hi, ncpu), moves, w);
    LiveApart(w.st);
    LivePlaced(w.st);
    Exclusive(w);
    Conservation(w.st);
    forall c | 0 <= c < |w.jobs| ensures L.Linked(w.sys.pub[c], w.sys.head[c], w.sys.next) {
    }
  }

  /** Line 259 clears a block after the lock is gone: a live block, that no other CPU works on,
      apart from every other live block. */
  lemma WipeIsPrivate(w: World, c: nat, y: int)
    requires WorldInv(w) && c < |w.jobs| && w.sys.pc[c].Wipe? && y in w.st.live && y != w.jobs[c].ptr
    ensures w.jobs[c].Got? && w.jobs[c].ptr in w.st.live
    ensures var x := w.jobs[c].ptr; x + w.st.live[x].size <= y || y + w.st.live[y].size <= x
    ensures forall d :: 0 <= d < |w.jobs| && d != c ==> PtrOf(w.jobs[d]) != w.jobs[c].ptr
  {
    AboutCpu(w, c);
    var x := w.jobs[c].ptr;
    if x < y { LiveDisjoint(w.st, x, y); } else { LiveDisjoint(w.st, y, x); }
    NoNullBlock(w.st);
    forall d | 0 <= d < |w.jobs| && d != c ensures PtrOf(w.jobs[d]) != x {
      assert PtrOf(w.jobs[c]) == x;
    }
  }
}
