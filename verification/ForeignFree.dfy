/** kfree of kernel/src/pmm.c on a CPU that does not own the block's page: line 313 locks the list
    of the calling CPU, and the owner's kalloc can be inside the same page. */
module ForeignFree {
  import L = LockProtocol
  import opened Memory
  import opened Tilings
  import opened HeapModel
  import opened PageModel
  import opened Allocator
  import AllocatorRuns
  import opened ConcurrentAllocator
  import Witnesses

  // ---------------------------------------------------------- accesses, whoever frees

  /** As Asks, but a block may be returned on any CPU. */
  ghost predicate AsksAnywhere(w: World, call: Call)
    requires Shaped(w)
  {
    match call
    case Request(req) => req <= AllocatorRuns.LARGE
    case Return(x) => x in w.st.live && Unclaimed(w.jobs, x)
    case Continue => false
  }

  /** CPU c can make its next access: up to the point where a foreign free writes to the page. */
  ghost predicate May(w: World, c: nat, call: Call) {
    match w
    case World(sys, st, jobs) =>
      && Shaped(w) && Inv(st) && c < |jobs| && !sys.pc[c].Halted?
      && (if sys.pc[c].Idle? then AsksAnywhere(w, call) else Guarded(st, sys.pc[c], jobs[c]))
      && L.Allowed(sys, c, ChoiceOf(w, c, call)) && Ready(st, c, ActionOf(sys.pc[c]), jobs[c])
  }

  ghost function After(w: World, c: nat, call: Call): World
    requires May(w, c, call)
  {
    var (st, j) := Perform(w.st, c, ActionOf(w.sys.pc[c]), w.jobs[c], call);
    World(L.Step(w.sys, c, ChoiceOf(w, c, call)), st, w.jobs[c := j])
  }

  ghost predicate AnyRun(w: World, moves: seq<Move>, w': World)
    decreases |moves|
  {
    if moves == [] then w' == w
    else
      May(w, moves[0].cpu, moves[0].call) && AnyRun(After(w, moves[0].cpu, moves[0].call), moves[1..], w')
  }

  /** These are the accesses of ConcurrentAllocator, and the frees it leaves out. */
  lemma StepIsAny(w: World, c: nat, call: Call)
    requires WorldInv(w) && c < |w.jobs| && Enabled(w, c, call)
    ensures May(w, c, call) && After(w, c, call) == Step(w, c, call)
  {
    ChoiceAllowed(w, c, call);
    assert JobOk(w.st, c, w.sys.pc[c], w.jobs[c]);
    ActionReady(w.st, c, w.sys.pc[c], w.jobs[c]);
  }

  lemma {:induction false} RunIsAny(w: World, moves: seq<Move>, w': World)
    requires WorldInv(w) && Run(w, moves, w')
    ensures AnyRun(w, moves, w')
    decreases |moves|
  {
    if moves != [] {
      StepIsAny(w, moves[0].cpu, moves[0].call);
      StepInv(w, moves[0].cpu, moves[0].call);
      RunIsAny(Step(w, moves[0].cpu, moves[0].call), moves[1..], w');
    }
  }

  /** The lock protocol and the contents, each by itself, are as they should be. */
  ghost predicate Loose(w: World) {
    match w
    case World(sys, st, _) => Shaped(w) && L.Inv(sys) && Inv(st)
  }

  lemma LooseStep(w: World, c: nat, call: Call)
    requires Loose(w) && May(w, c, call)
    ensures Loose(After(w, c, call))
  {
    L.StepInv(w.sys, c, ChoiceOf(w, c, call));
    PerformSound(w.st, c, ActionOf(w.sys.pc[c]), w.jobs[c], call);
  }

  lemma {:induction false} LooseRun(w: World, moves: seq<Move>, w': World)
    requires Loose(w) && AnyRun(w, moves, w')
    ensures Loose(w')
    decreases |moves|
  {
    if moves != [] {
      LooseStep(w, moves[0].cpu, moves[0].call);
      LooseRun(After(w, moves[0].cpu, moves[0].call), moves[1..], w');
    }
  }

  lemma {:induction false} RunAppend(w: World, m: seq<Move>, v: World, n: seq<Move>, u: World)
    requires AnyRun(w, m, v) && AnyRun(v, n, u)
    ensures AnyRun(w, m + n, u)
    decreases |m|
  {
    if m == [] {
      assert m + n == n;
    } else {
      RunAppend(After(w, m[0].cpu, m[0].call), m[1..], v, n, u);
      Tail(m, n);
    }
  }

  lemma Tail(m: seq<Move>, n: seq<Move>)
    requires m != []
    ensures m + n != [] && (m + n)[0] == m[0] && (m + n)[1..] == m[1..] + n
  {
  }

  /** Some run leads from w to v. */
  ghost predicate Leads(w: World, v: World) {
    exists moves :: AnyRun(w, moves, v)
  }

  lemma LeadsOn(w: World, v: World, u: World)
    requires Leads(w, v) && Leads(v, u)
    ensures Leads(w, u)
  {
    var m :| AnyRun(w, m, v);
    var n :| AnyRun(v, n, u);
    RunAppend(w, m, v, n, u);
  }

  lemma LeadsBy(w: World, c: nat, call: Call)
    requires May(w, c, call)
    ensures Leads(w, After(w, c, call))
  {
    var moves := [Move(c, call)];
    assert moves[1..] == [];
    assert AnyRun(After(w, c, call), [], After(w, c, call));
    assert AnyRun(w, moves, After(w, c, call));
  }

  lemma LooseLeads(w: World, v: World)
    requires Loose(w) && Leads(w, v)
    ensures Loose(v)
  {
    var moves :| AnyRun(w, moves, v);
    LooseRun(w, moves, v);
  }

  lemma Twice<T>(s: seq<T>, i: nat, x: T, y: T)
    requires i < |s|
    ensures s[i := x][i := y] == s[i := y] && s[i := s[i]] == s
  {
  }

  // ---------------------------------------------------------- one CPU goes on

  /** The same world but for CPU c's position. */
  function At(w: World, c: nat, p: L.Pc): World
    requires c < |w.sys.pc|
  {
    w.(sys := w.sys.(pc := w.sys.pc[c := p]))
  }

  /** CPU c at position p with its list lock taken. */
  function Locked(w: World, c: nat, p: L.Pc): World
    requires Shaped(w) && c < |w.sys.pc|
  {
    w.(sys := w.sys.(pc := w.sys.pc[c := p], listLock := w.sys.listLock[c := 1]))
  }

  /** CPU c at position p with job j. */
  function Busy(w: World, c: nat, p: L.Pc, j: Job): World
    requires c < |w.sys.pc| && c < |w.jobs|
  {
    At(w, c, p).(jobs := w.jobs[c := j])
  }

  predicate Quiet(p: L.Pc) {
    ActionOf(p).Rest? && !p.Halted? && !p.Search?
  }

  lemma QuietAllowed(sys: L.Sys, c: nat)
    requires L.Shaped(sys) && c < |sys.pc| && Quiet(sys.pc[c])
    ensures L.Allowed(sys, c, L.None)
  {
  }

  lemma QuietMay(w: World, c: nat)
    requires Loose(w) && c < |w.jobs| && Quiet(w.sys.pc[c])
    ensures ChoiceOf(w, c, Continue) == L.None && May(w, c, Continue)
  {
    QuietAllowed(w.sys, c);
  }

  /** An access that leaves the contents alone. */
  lemma QuietLeads(w: World, c: nat)
    requires Loose(w) && c < |w.jobs| && Quiet(w.sys.pc[c])
    ensures L.Allowed(w.sys, c, L.None)
    ensures Leads(w, w.(sys := L.Step(w.sys, c, L.None))) && Loose(w.(sys := L.Step(w.sys, c, L.None)))
  {
    QuietMay(w, c);
    LeadsBy(w, c, Continue);
    LooseStep(w, c, Continue);
    Twice(w.jobs, c, w.jobs[c], w.jobs[c]);
  }

  /** The scan of kfree arrives at the block's page. */
  lemma {:induction false} ScanGets(w: World, c: nat, home: int)
    requires Loose(w) && c < |w.jobs| && home != 0
    requires (w.sys.pc[c].ScanList? || w.sys.pc[c].ScanPage?) && w.sys.pc[c].home == home
    ensures Leads(w, At(w, c, L.FreeTouch(home)))
    decreases L.ScanRank(w.sys, w.sys.pc[c]).0, L.ScanRank(w.sys, w.sys.pc[c]).1
  {
    L.ScanStep(w.sys, c, home);
    QuietLeads(w, c);
    var p := L.NextPc(w.sys, c, L.None);
    if p != L.FreeTouch(home) {
      ScanGets(At(w, c, p), c, home);
      Twice(w.sys.pc, c, p, L.FreeTouch(home));
      LeadsOn(w, At(w, c, p), At(w, c, L.FreeTouch(home)));
    }
  }

  lemma LockEffect(sys: L.Sys, c: nat)
    requires L.Inv(sys) && c < |sys.pc| && L.SpinsOnList(sys.pc[c])
    ensures sys.listLock[c] == 0 && L.Allowed(sys, c, L.None)
    ensures L.Step(sys, c, L.None) ==
        sys.(pc := sys.pc[c := L.NextPc(sys, c, L.None)], listLock := sys.listLock[c := 1])
  {
    assert sys.listLock[c] == if L.HoldsList(sys.pc[c]) then 1 else 0;
  }

  lemma LockLeads(w: World, c: nat, p: L.Pc)
    requires Loose(w) && c < |w.jobs|
    requires (exists home :: w.sys.pc[c] == L.FreeSpin(home) && p == L.FreeGot(home)) ||
        (w.sys.pc[c] == L.ListSpin && p == L.ListGot)
    ensures Leads(w, Locked(w, c, p)) && Loose(Locked(w, c, p))
  {
    LockEffect(w.sys, c);
    QuietLeads(w, c);
  }

  lemma ScanEffect(sys: L.Sys, c: nat, page: int)
    requires L.Shaped(sys) && c < |sys.pc| && sys.pc[c] == L.FreeGot(page)
    ensures L.Allowed(sys, c, L.None) && L.Step(sys, c, L.None) == sys.(pc := sys.pc[c := L.ScanList(0, page)])
  {
  }

  lemma ScanStarts(w: World, c: nat, page: int)
    requires Loose(w) && c < |w.jobs| && w.sys.pc[c] == L.FreeGot(page)
    ensures Leads(w, At(w, c, L.ScanList(0, page))) && Loose(At(w, c, L.ScanList(0, page)))
  {
    QuietLeads(w, c);
    ScanEffect(w.sys, c, page);
  }

  lemma FreeGotGets(w: World, c: nat, page: int)
    requires Loose(w) && c < |w.jobs| && w.sys.pc[c] == L.FreeGot(page) && page != 0
    ensures Leads(w, At(w, c, L.FreeTouch(page)))
  {
    ScanStarts(w, c, page);
    ScanGets(At(w, c, L.ScanList(0, page)), c, page);
    Twice(w.sys.pc, c, L.ScanList(0, page), L.FreeTouch(page));
    LeadsOn(w, At(w, c, L.ScanList(0, page)), At(w, c, L.FreeTouch(page)));
  }

  lemma FreeSpinGets(w: World, c: nat, page: int)
    requires Loose(w) && c < |w.jobs| && w.sys.pc[c] == L.FreeSpin(page) && page != 0
    ensures Leads(w, Locked(w, c, L.FreeTouch(page)))
  {
    LockLeads(w, c, L.FreeGot(page));
    FreeGotGets(Locked(w, c, L.FreeGot(page)), c, page);
    Twice(w.sys.pc, c, L.FreeGot(page), L.FreeTouch(page));
    LeadsOn(w, Locked(w, c, L.FreeGot(page)), Locked(w, c, L.FreeTouch(page)));
  }

  /** An idle CPU takes up a call: nothing shared is written. */
  lemma CallEffect(sys: L.Sys, c: nat, ch: L.Choice)
    requires L.Shaped(sys) && c < |sys.pc| && sys.pc[c] == L.Idle && L.Allowed(sys, c, ch)
    ensures L.Step(sys, c, ch) == sys.(pc := sys.pc[c := L.NextPc(sys, c, ch)])
  {
  }

  lemma CallMay(w: World, c: nat, call: Call)
    requires Loose(w) && c < |w.jobs| && w.sys.pc[c] == L.Idle && AsksAnywhere(w, call)
    requires L.Allowed(w.sys, c, ChoiceOf(w, c, call))
    ensures May(w, c, call)
  {
  }

  lemma CallLeads(w: World, c: nat, call: Call, p: L.Pc, j: Job)
    requires Loose(w) && c < |w.jobs| && w.sys.pc[c] == L.Idle && May(w, c, call)
    requires p == L.NextPc(w.sys, c, ChoiceOf(w, c, call)) && j == Perform(w.st, c, Begin, w.jobs[c], call).1
    ensures Leads(w, Busy(w, c, p, j)) && Loose(Busy(w, c, p, j))
  {
    CallEffect(w.sys, c, ChoiceOf(w, c, call));
    LeadsBy(w, c, call);
    LooseStep(w, c, call);
  }

  lemma ReturnLeads(w: World, c: nat, x: int)
    requires Loose(w) && c < |w.jobs| && w.sys.pc[c] == L.Idle && x in w.st.live && Unclaimed(w.jobs, x)
    requires w.st.live[x].page in w.sys.place
    ensures var v := Busy(w, c, L.FreeSpin(w.st.live[x].page), Give(x)); Leads(w, v) && Loose(v)
  {
    CallMay(w, c, Return(x));
    CallLeads(w, c, Return(x), L.FreeSpin(w.st.live[x].page), Give(x));
  }

  /** An idle CPU that returns any live block of a published page gets to work on that page. */
  lemma FreeGets(w: World, c: nat, x: int)
    requires Loose(w) && c < |w.jobs| && w.sys.pc[c] == L.Idle && x in w.st.live && Unclaimed(w.jobs, x)
    requires w.st.live[x].page in w.sys.place
    ensures Leads(w, Locked(Busy(w, c, L.Idle, Give(x)), c, L.FreeTouch(w.st.live[x].page)))
  {
    var page := w.st.live[x].page;
    L.PlacedNotNull(w.sys, page);
    ReturnLeads(w, c, x);
    FreeSpinGets(Busy(w, c, L.FreeSpin(page), Give(x)), c, page);
    Twice(w.sys.pc, c, L.FreeSpin(page), L.FreeTouch(page));
    Twice(w.sys.pc, c, L.Idle, L.FreeTouch(page));
    LeadsOn(w, Busy(w, c, L.FreeSpin(page), Give(x)), Locked(Busy(w, c, L.Idle, Give(x)), c, L.FreeTouch(page)));
  }

  lemma SearchMay(v: World, d: nat, page: int)
    requires Loose(v) && d < |v.jobs| && v.sys.pc[d] == L.Search && SearchOf(v.st, d, v.jobs[d]) == L.Found(page)
    requires page in v.sys.place && v.sys.place[page].list == d
    ensures May(v, d, Continue) && ChoiceOf(v, d, Continue) == L.Found(page)
  {
  }

  lemma FoundEffect(sys: L.Sys, d: nat, page: int)
    requires L.Shaped(sys) && d < |sys.pc| && sys.pc[d] == L.Search && L.Allowed(sys, d, L.Found(page))
    ensures L.Step(sys, d, L.Found(page)) == sys.(pc := sys.pc[d := L.Touch(page)])
  {
  }

  lemma SearchLeads(v: World, d: nat, page: int)
    requires Loose(v) && d < |v.jobs| && v.sys.pc[d] == L.Search && SearchOf(v.st, d, v.jobs[d]) == L.Found(page)
    requires page in v.sys.place && v.sys.place[page].list == d
    ensures Leads(v, At(v, d, L.Touch(page)))
  {
    SearchMay(v, d, page);
    FoundEffect(v.sys, d, page);
    LeadsBy(v, d, Continue);
    Twice(v.jobs, d, v.jobs[d], v.jobs[d]);
  }

  lemma SearchEffect(sys: L.Sys, d: nat)
    requires L.Shaped(sys) && d < |sys.pc| && sys.pc[d] == L.ListGot
    ensures L.Allowed(sys, d, L.None) && L.Step(sys, d, L.None) == sys.(pc := sys.pc[d := L.Search])
  {
  }

  lemma HeadEffect(sys: L.Sys, d: nat)
    requires L.Shaped(sys) && d < |sys.pc| && sys.pc[d] == L.CheckHead && sys.head[d] != 0
    ensures L.Allowed(sys, d, L.None) && L.Step(sys, d, L.None) == sys.(pc := sys.pc[d := L.ListSpin])
  {
  }

  lemma HeadSet(sys: L.Sys, d: nat, page: int)
    requires L.Inv(sys) && d < |sys.pc| && page in sys.place && sys.place[page].list == d
    ensures sys.head[d] != 0
  {
    L.HeadPlace(sys, d);
    assert L.Linked(sys.pub[d], sys.head[d], sys.next);
  }

  lemma SearchStarts(w: World, d: nat)
    requires Loose(w) && d < |w.jobs| && w.sys.pc[d] == L.ListGot
    ensures Leads(w, At(w, d, L.Search)) && Loose(At(w, d, L.Search))
  {
    QuietLeads(w, d);
    SearchEffect(w.sys, d);
  }

  lemma SearchGets(w: World, d: nat, page: int)
    requires Loose(w) && d < |w.jobs| && w.sys.pc[d] == L.ListGot && SearchOf(w.st, d, w.jobs[d]) == L.Found(page)
    requires page in w.sys.place && w.sys.place[page].list == d
    ensures Leads(w, At(w, d, L.Touch(page)))
  {
    SearchStarts(w, d);
    SearchLeads(At(w, d, L.Search), d, page);
    Twice(w.sys.pc, d, L.Search, L.Touch(page));
    LeadsOn(w, At(w, d, L.Search), At(w, d, L.Touch(page)));
  }

  lemma ListSpinGets(w: World, d: nat, page: int)
    requires Loose(w) && d < |w.jobs| && w.sys.pc[d] == L.ListSpin && SearchOf(w.st, d, w.jobs[d]) == L.Found(page)
    requires page in w.sys.place && w.sys.place[page].list == d
    ensures Leads(w, Locked(w, d, L.Touch(page)))
  {
    LockLeads(w, d, L.ListGot);
    SearchGets(Locked(w, d, L.ListGot), d, page);
    Twice(w.sys.pc, d, L.ListGot, L.Touch(page));
    LeadsOn(w, Locked(w, d, L.ListGot), Locked(w, d, L.Touch(page)));
  }

  lemma RequestLeads(w: World, d: nat, req: int)
    requires Loose(w) && d < |w.jobs| && w.sys.pc[d] == L.Idle && req <= AllocatorRuns.SMALL
    ensures var v := Busy(w, d, L.CheckHead, Get(req)); Leads(w, v) && Loose(v)
  {
    CallMay(w, d, Request(req));
    CallLeads(w, d, Request(req), L.CheckHead, Get(req));
  }

  lemma HeadLeads(v: World, d: nat, page: int)
    requires Loose(v) && d < |v.jobs| && v.sys.pc[d] == L.CheckHead
    requires page in v.sys.place && v.sys.place[page].list == d
    ensures Leads(v, At(v, d, L.ListSpin)) && Loose(At(v, d, L.ListSpin))
  {
    HeadSet(v.sys, d, page);
    HeadEffect(v.sys, d);
    QuietLeads(v, d);
  }

  lemma CheckGets(v: World, d: nat, page: int)
    requires Loose(v) && d < |v.jobs| && v.sys.pc[d] == L.CheckHead && SearchOf(v.st, d, v.jobs[d]) == L.Found(page)
    requires page in v.sys.place && v.sys.place[page].list == d
    ensures Leads(v, Locked(v, d, L.Touch(page)))
  {
    HeadLeads(v, d, page);
    ListSpinGets(At(v, d, L.ListSpin), d, page);
    Twice(v.sys.pc, d, L.ListSpin, L.Touch(page));
    LeadsOn(v, At(v, d, L.ListSpin), Locked(v, d, L.Touch(page)));
  }

  /** An idle CPU that asks for a small block gets to work on the page its search finds. */
  lemma AllocGets(w: World, d: nat, req: int, page: int)
    requires Loose(w) && d < |w.jobs| && w.sys.pc[d] == L.Idle && req <= AllocatorRuns.SMALL
    requires SearchOf(w.st, d, Get(req)) == L.Found(page)
    requires page in w.sys.place && w.sys.place[page].list == d
    ensures Leads(w, Locked(Busy(w, d, L.Idle, Get(req)), d, L.Touch(page)))
  {
    var j := Get(req);
    RequestLeads(w, d, req);
    CheckGets(Busy(w, d, L.CheckHead, j), d, page);
    Twice(w.sys.pc, d, L.CheckHead, L.Touch(page));
    Twice(w.sys.pc, d, L.Idle, L.Touch(page));
    LeadsOn(w, Busy(w, d, L.CheckHead, j), Locked(Busy(w, d, L.Idle, j), d, L.Touch(page)));
  }

  /** CPUs c and d meet in the page. */
  function Both(w: World, c: nat, d: nat, page: int, i: Job, j: Job): World
    requires Shaped(w) && c < |w.jobs| && d < |w.jobs| && c != d
  {
    Locked(Busy(Locked(Busy(w, c, L.Idle, i), c, L.FreeTouch(page)), d, L.Idle, j), d, L.Touch(page))
  }

  lemma MeetInPage(w: World, c: nat, d: nat, page: int, i: Job, j: Job)
    requires Shaped(w) && c < |w.jobs| && d < |w.jobs| && c != d
    ensures var t := Both(w, c, d, page, i, j);
            && t.st == w.st && t.jobs == w.jobs[c := i][d := j] && |t.sys.pc| == |w.sys.pc|
            && L.Touches(t.sys.pc[c], page) && L.Touches(t.sys.pc[d], page)
            && t.sys.listLock == w.sys.listLock[c := 1][d := 1]
  {
  }

  lemma OtherIdle(w: World, c: nat, d: nat, page: int, j: Job)
    requires Shaped(w) && c < |w.jobs| && d < |w.jobs| && c != d && w.sys.pc[d] == L.Idle
    ensures var u := Locked(Busy(w, c, L.Idle, j), c, L.FreeTouch(page));
            Shaped(u) && |u.jobs| == |w.jobs| && u.sys.pc[d] == L.Idle && u.st == w.st && u.sys.place == w.sys.place
  {
  }

  lemma LeadsToBoth(w: World, c: nat, d: nat, x: int, req: int, page: int)
    requires Loose(w) && c < |w.jobs| && d < |w.jobs| && c != d && w.sys.pc[c] == L.Idle && w.sys.pc[d] == L.Idle
    requires x in w.st.live && w.st.live[x].page == page && Unclaimed(w.jobs, x) && req <= AllocatorRuns.SMALL
    requires page in w.sys.place && w.sys.place[page].list == d
    requires SearchOf(w.st, d, Get(req)) == L.Found(page)
    ensures Leads(w, Both(w, c, d, page, Give(x), Get(req)))
  {
    FreeGets(w, c, x);
    var u := Locked(Busy(w, c, L.Idle, Give(x)), c, L.FreeTouch(page));
    LooseLeads(w, u);
    OtherIdle(w, c, d, page, Give(x));
    AllocGets(u, d, req, page);
    LeadsOn(w, u, Both(w, c, d, page, Give(x), Get(req)));
  }

  /** From any state in which CPU c and CPU d are idle, x is a live block in a page of CPU d, and
      CPU d's search for the request would find that page: if CPU c returns x while CPU d serves the
      request, both come to work on the page at once, each holding its own list lock. */
  lemma ForeignFreeMeetsOwner(w: World, c: nat, d: nat, x: int, req: int) returns (moves: seq<Move>, t: World)
    requires Loose(w) && c < |w.jobs| && d < |w.jobs| && c != d && w.sys.pc[c] == L.Idle && w.sys.pc[d] == L.Idle
    requires x in w.st.live && Unclaimed(w.jobs, x) && req <= AllocatorRuns.SMALL
    requires var page := w.st.live[x].page;
             page in w.sys.place && w.sys.place[page].list == d &&
               SearchOf(w.st, d, Get(req)) == L.Found(page)
    ensures AnyRun(w, moves, t) && Loose(t) && t.st == w.st
    ensures t.jobs == w.jobs[c := Give(x)][d := Get(req)]
    ensures L.Touches(t.sys.pc[c], w.st.live[x].page) && L.Touches(t.sys.pc[d], w.st.live[x].page)
    ensures t.sys.listLock[c] == 1 && t.sys.listLock[d] == 1
  {
    var page := w.st.live[x].page;
    var j := Get(req);
    t := Both(w, c, d, page, Give(x), j);
    LeadsToBoth(w, c, d, x, req, page);
    LooseLeads(w, t);
    MeetInPage(w, c, d, page, Give(x), j);
    moves :| AnyRun(w, moves, t);
  }

  // ---------------------------------------------------------- such a state is reached

  /** Two CPUs, the second idle; the first has carved and published a page or not. */
  function LoneSys(p: L.Pc, lock: int, heapLock: int, page: int, published: bool): L.Sys {
    L.Sys([p, L.Idle], [lock, 0], heapLock, if published then [page, 0] else [0, 0],
          if page != 0 then map[page := 0] else map[], if published then [[page], []] else [[], []],
          if published then map[page := L.Place(0, 0)] else map[], if page != 0 then {page} else {})
  }

  /** A first small request, access by access. */
  function Stage(k: nat, page: int): L.Sys
    requires k <= 15
  {
    match k
    case 0 => LoneSys(L.CheckHead, 0, 0, 0, false)
    case 1 => LoneSys(L.InitSpin, 0, 0, 0, false)
    case 2 => LoneSys(L.InitGot, 1, 0, 0, false)
    case 3 => LoneSys(L.InitHeapSpin, 1, 0, 0, false)
    case 4 => LoneSys(L.InitHeapGot, 1, 1, 0, false)
    case 5 => LoneSys(L.InitHeapHeld, 1, 1, 0, false)
    case 6 => LoneSys(L.InitStore(page), 1, 0, page, false)
    case 7 => LoneSys(L.InitFill(page), 1, 0, page, true)
    case 8 => LoneSys(L.InitUnlock, 1, 0, page, true)
    case 9 => LoneSys(L.ListSpin, 0, 0, page, true)
    case 10 => LoneSys(L.ListGot, 1, 0, page, true)
    case 11 => LoneSys(L.Search, 1, 0, page, true)
    case 12 => LoneSys(L.Touch(page), 1, 0, page, true)
    case 13 => LoneSys(L.FastUnlock, 1, 0, page, true)
    case 14 => LoneSys(L.Wipe, 0, 0, page, true)
    case 15 => LoneSys(L.Idle, 0, 0, page, true)
  }

  /** What the environment decides at each stage. */
  function ChoiceAt(k: nat, page: int): L.Choice {
    if k == 5 || k == 11 then L.Found(page) else L.None
  }

  lemma EarlyStage(k: nat, page: int)
    requires k <= 5 && page != 0
    ensures L.Shaped(Stage(k, page)) && L.Allowed(Stage(k, page), 0, ChoiceAt(k, page))
    ensures L.Step(Stage(k, page), 0, ChoiceAt(k, page)) == Stage(k + 1, page)
  {
  }

  lemma PublishStage(page: int)
    requires page != 0
    ensures L.Shaped(Stage(6, page)) && L.Allowed(Stage(6, page), 0, L.None)
    ensures L.Step(Stage(6, page), 0, L.None) == Stage(7, page)
  {
    var none: seq<int> := [];
    assert none + [page] == [page];
  }

  lemma LateStage(k: nat, page: int)
    requires 7 <= k < 15 && page != 0
    ensures L.Shaped(Stage(k, page)) && L.Allowed(Stage(k, page), 0, ChoiceAt(k, page))
    ensures L.Step(Stage(k, page), 0, ChoiceAt(k, page)) == Stage(k + 1, page)
  {
  }

  lemma StageStep(k: nat, page: int)
    requires k < 15 && page != 0
    ensures L.Shaped(Stage(k, page)) && L.Allowed(Stage(k, page), 0, ChoiceAt(k, page))
    ensures L.Step(Stage(k, page), 0, ChoiceAt(k, page)) == Stage(k + 1, page)
  {
    if k <= 5 { EarlyStage(k, page); } else if k == 6 { PublishStage(page); } else { LateStage(k, page); }
  }

  lemma StageQuiet(k: nat, page: int)
    requires k < 14 && k != 5 && k != 11 && k != 12
    ensures 0 < |Stage(k, page).pc| && Quiet(Stage(k, page).pc[0])
  {
  }

  function Lone(sys: L.Sys, st: State, j: Job): World { World(sys, st, [j, Nothing]) }

  ghost predicate Reached(w0: World, k: nat, page: int, st: State, j: Job)
    requires k <= 15
  {
    Leads(w0, Lone(Stage(k, page), st, j)) && Loose(Lone(Stage(k, page), st, j))
  }

  lemma QuietStage(w0: World, k: nat, page: int, st: State, j: Job)
    requires k < 14 && k != 5 && k != 11 && k != 12 && page != 0 && Reached(w0, k, page, st, j)
    ensures Reached(w0, k + 1, page, st, j)
  {
    StageQuiet(k, page);
    var w := Lone(Stage(k, page), st, j);
    StageStep(k, page);
    QuietLeads(w, 0);
    assert w.(sys := Stage(k + 1, page)) == Lone(Stage(k + 1, page), st, j);
    LeadsOn(w0, w, Lone(Stage(k + 1, page), st, j));
  }

  lemma {:induction false} QuietStages(w0: World, k: nat, n: nat, page: int, st: State, j: Job)
    requires page != 0 && k <= n <= 11 && (n <= 5 || 5 < k) && Reached(w0, k, page, st, j)
    ensures Reached(w0, n, page, st, j)
    decreases n - k
  {
    if k < n {
      QuietStage(w0, k, page, st, j);
      QuietStages(w0, k + 1, n, page, st, j);
    }
  }

  /** An access that works on the contents. */
  lemma ActLeads(w: World, sys': L.Sys, ch: L.Choice, a: Action, st': State, j: Job, j': Job)
    requires Loose(w) && w.jobs == [j, Nothing] && May(w, 0, Continue)
    requires ChoiceOf(w, 0, Continue) == ch && L.Allowed(w.sys, 0, ch) && L.Step(w.sys, 0, ch) == sys'
    requires ActionOf(w.sys.pc[0]) == a && Perform(w.st, 0, a, j, Continue) == (st', j')
    ensures Leads(w, Lone(sys', st', j')) && Loose(Lone(sys', st', j'))
  {
    LeadsBy(w, 0, Continue);
    LooseStep(w, 0, Continue);
    JobsUpdate(j, j');
  }

  lemma JobsUpdate(j: Job, j': Job)
    ensures [j, Nothing][0 := j'] == [j', Nothing]
  {
  }

  lemma ActStage(w0: World, k: nat, page: int, w: World, a: Action, j: Job, st': State, j': Job)
    requires k < 15 && page != 0 && Leads(w0, w) && Loose(w) && w.sys == Stage(k, page) && w.jobs == [j, Nothing]
    requires May(w, 0, Continue) && ChoiceOf(w, 0, Continue) == ChoiceAt(k, page)
    requires ActionOf(w.sys.pc[0]) == a && Perform(w.st, 0, a, j, Continue) == (st', j')
    ensures Reached(w0, k + 1, page, st', j')
  {
    StageStep(k, page);
    ActLeads(w, Stage(k + 1, page), ChoiceAt(k, page), a, st', j, j');
    LeadsOn(w0, w, Lone(Stage(k + 1, page), st', j'));
  }

  const LO := Witnesses.LO
  const CLS := 32

  function Fresh2(): State { AllocatorRuns.Initial(LO, LO + PAGE, 2) }

  ghost function Paged2(): State
    requires Inv(Fresh2())
  {
    AddPage(Fresh2(), 0, CLS).0
  }

  lemma FreshHeap()
    ensures Inv(Fresh2()) && CarvePage(Fresh2().heap).1 == LO && ClassOk(CLS)
  {
    AllocatorRuns.InitialInv(LO, LO + PAGE, 2);
    Witnesses.FirstCarve();
    assert Fresh2().heap == AllocatorRuns.Initial(LO, LO + PAGE, 1).heap;
  }

  lemma PagedHeap()
    requires Inv(Fresh2()) && CarvePage(Fresh2().heap).1 == LO && ClassOk(CLS)
    ensures Inv(Paged2()) && Paged2().pages == map[LO := Fresh(LO, CLS)] && Paged2().lists == [[LO], []]
    ensures OwnPage(Paged2(), 0, LO) && Serves(Paged2(), LO, CLS)
  {
    AddPageInv(Fresh2(), 0, CLS);
    var none: seq<int> := [];
    assert [LO] + none == [LO];
    assert Paged2().lists == [[LO], []];
  }

  /** A list of one page that serves the class. */
  lemma FindsOnly(st: State, c: nat)
    requires c < |st.lists| && st.lists[c] == [LO] && Serves(st, LO, CLS)
    ensures SearchOf(st, c, Get(CLS)) == L.Found(LO)
  {
    Witnesses.FirstOfOne(AllocatorRuns.Usable(st, CLS));
  }

  /** The block the request gets, and the page after it. */
  lemma TakenHeap(st: State)
    requires Inv(st) && st.pages == map[LO := Fresh(LO, CLS)] && HasRoom(st, LO) && OwnPage(st, 0, LO)
    ensures var (st', x) := TakeFrom(st, LO);
            && Inv(st') && x == LO + CLS && st'.lists == st.lists && Serves(st', LO, CLS)
            && x in st'.live && st'.live[x] == Block(CLS, LO)
  {
    TakeFromInv(st, LO);
  }

  lemma CarveMay(w: World)
    requires Loose(w) && |w.jobs| == 2 && w.jobs[0] == Get(CLS) && w.sys.pc[0] == L.InitHeapHeld
    requires CarvePage(w.st.heap).1 == LO && LO !in w.sys.carved && ClassOk(CLS)
    ensures May(w, 0, Continue) && ChoiceOf(w, 0, Continue) == L.Found(LO)
    ensures ActionOf(w.sys.pc[0]) == AddOne && Ready(w.st, 0, AddOne, Get(CLS))
  {
  }

  /** CPU 0 carves a page. */
  lemma CarveStage(w0: World)
    requires Inv(Fresh2()) && CarvePage(Fresh2().heap).1 == LO && ClassOk(CLS)
    requires Reached(w0, 5, LO, Fresh2(), Get(CLS))
    ensures Reached(w0, 6, LO, Paged2(), Get(CLS))
  {
    var w := Lone(Stage(5, LO), Fresh2(), Get(CLS));
    HeldStage();
    CarveMay(w);
    ActStage(w0, 5, LO, w, AddOne, Get(CLS), Paged2(), Get(CLS));
  }

  lemma SearchStage()
    ensures var s := Stage(11, LO);
            |s.pc| == 2 && s.pc[0] == L.Search && LO in s.place && s.place[LO].list == 0 && ActionOf(L.Search) == Rest
  {
  }

  lemma HeldStage()
    ensures var s := Stage(5, LO); |s.pc| == 2 && s.pc[0] == L.InitHeapHeld && LO !in s.carved
  {
  }

  lemma FindMay(w: World)
    requires Loose(w) && |w.jobs| == 2 && w.jobs[0] == Get(CLS) && w.sys.pc[0] == L.Search
    requires SearchOf(w.st, 0, Get(CLS)) == L.Found(LO) && LO in w.sys.place && w.sys.place[LO].list == 0
    ensures May(w, 0, Continue) && ChoiceOf(w, 0, Continue) == L.Found(LO)
    ensures ActionOf(w.sys.pc[0]) == Rest
  {
  }

  /** It finds the page, takes a block from it, and hands the block out. */
  lemma FindStage(w0: World, st: State)
    requires st.lists == [[LO], []] && Serves(st, LO, CLS) && Reached(w0, 11, LO, st, Get(CLS))
    ensures Reached(w0, 12, LO, st, Get(CLS))
  {
    FindsOnly(st, 0);
    SearchStage();
    var w := Lone(Stage(11, LO), st, Get(CLS));
    FindMay(w);
    ActStage(w0, 11, LO, w, Rest, Get(CLS), st, Get(CLS));
  }

  lemma TakeMay(w: World)
    requires Loose(w) && |w.jobs| == 2 && w.jobs[0] == Get(CLS) && w.sys.pc[0] == L.Touch(LO)
    requires Serves(w.st, LO, CLS) && OwnPage(w.st, 0, LO) && ClassOk(CLS)
    ensures May(w, 0, Continue) && ChoiceOf(w, 0, Continue) == L.None
    ensures ActionOf(w.sys.pc[0]) == TakeOne(LO) && Ready(w.st, 0, TakeOne(LO), Get(CLS))
  {
  }

  lemma TakeStage(w0: World, st: State, st': State, x: int)
    requires Reached(w0, 12, LO, st, Get(CLS)) && Inv(st) && Serves(st, LO, CLS) && OwnPage(st, 0, LO)
    requires TakeFrom(st, LO) == (st', x) && ClassOk(CLS)
    ensures Reached(w0, 13, LO, st', Got(x))
  {
    var w := Lone(Stage(12, LO), st, Get(CLS));
    TakeMay(w);
    ActStage(w0, 12, LO, w, TakeOne(LO), Get(CLS), st', Got(x));
  }

  lemma EndMay(w: World, x: int)
    requires Loose(w) && |w.jobs| == 2 && w.jobs[0] == Got(x) && w.sys.pc[0] == L.Wipe
    ensures May(w, 0, Continue) && ChoiceOf(w, 0, Continue) == L.None
    ensures ActionOf(w.sys.pc[0]) == End
  {
  }

  lemma WipeStage()
    ensures |Stage(14, LO).pc| == 2 && Stage(14, LO).pc[0] == L.Wipe
  {
  }

  lemma EndStage(w0: World, st: State, x: int)
    requires Reached(w0, 14, LO, st, Got(x))
    ensures Reached(w0, 15, LO, st, Nothing)
  {
    var w := Lone(Stage(14, LO), st, Got(x));
    WipeStage();
    EndMay(w, x);
    ActStage(w0, 14, LO, w, End, Got(x), st, Nothing);
  }

  lemma StartStage()
    requires Inv(Fresh2())
    ensures Loose(Start(LO, LO + PAGE, 2)) && Reached(Start(LO, LO + PAGE, 2), 0, LO, Fresh2(), Get(CLS))
  {
    var w := Start(LO, LO + PAGE, 2);
    L.StartInv(2);
    assert AllocatorRuns.SizeClass(CLS) == CLS;
    StartShape(w);
    RequestLeads(w, 0, CLS);
  }

  lemma StartShape(w: World)
    requires w == Start(LO, LO + PAGE, 2)
    ensures Shaped(w) && |w.jobs| == 2 && w.sys.pc[0] == L.Idle
    ensures Busy(w, 0, L.CheckHead, Get(CLS)) == Lone(Stage(0, LO), Fresh2(), Get(CLS))
  {
    assert Busy(w, 0, L.CheckHead, Get(CLS)).jobs == [Get(CLS), Nothing];
    assert Busy(w, 0, L.CheckHead, Get(CLS)).sys == Stage(0, LO);
  }

  /** CPU 0 has asked for a block and got the first one of a page of its own; both CPUs are idle. */
  lemma FirstBlock() returns (st: State)
    ensures Loose(Start(LO, LO + PAGE, 2)) && Reached(Start(LO, LO + PAGE, 2), 15, LO, st, Nothing)
    ensures st.lists == [[LO], []] && Serves(st, LO, CLS)
    ensures LO + CLS in st.live && st.live[LO + CLS] == Block(CLS, LO)
  {
    var w0 := Start(LO, LO + PAGE, 2);
    FreshHeap();
    PagedHeap();
    StartStage();
    QuietStages(w0, 0, 5, LO, Fresh2(), Get(CLS));
    CarveStage(w0);
    QuietStages(w0, 6, 11, LO, Paged2(), Get(CLS));
    FindStage(w0, Paged2());
    TakenHeap(Paged2());
    st := TakeFrom(Paged2(), LO).0;
    TakeStage(w0, Paged2(), st, LO + CLS);
    QuietStage(w0, 13, LO, st, Got(LO + CLS));
    EndStage(w0, st, LO + CLS);
  }

  /** Two CPUs from the start: CPU 0 allocates a block; CPU 1 frees it while CPU 0 asks for another,
      and both are at work on the free list of the same page. */
  lemma RaceFromStart() returns (moves: seq<Move>, t: World)
    ensures AnyRun(Start(LO, LO + PAGE, 2), moves, t) && Loose(t)
    ensures |t.jobs| == 2 && t.jobs[0] == Get(CLS) && t.jobs[1] == Give(LO + CLS)
    ensures LO + CLS in t.st.live && t.st.live[LO + CLS] == Block(CLS, LO)
    ensures |t.sys.pc| == 2 && L.Touches(t.sys.pc[0], LO) && L.Touches(t.sys.pc[1], LO)
  {
    var w0 := Start(LO, LO + PAGE, 2);
    var st := FirstBlock();
    var w := Lone(Stage(15, LO), st, Nothing);
    HandedOut(w);
    FindsOnly(st, 0);
    assert AllocatorRuns.SizeClass(CLS) == CLS;
    moves, t := ForeignFreeMeetsOwner(w, 1, 0, LO + CLS, CLS);
    JobsThen();
    assert Leads(w, t);
    LeadsOn(w0, w, t);
    moves :| AnyRun(w0, moves, t);
  }

  lemma JobsThen()
    ensures [Nothing, Nothing][1 := Give(LO + CLS)][0 := Get(CLS)] == [Get(CLS), Give(LO + CLS)]
  {
  }

  lemma HandedOut(w: World)
    requires w.sys == Stage(15, LO) && w.jobs == [Nothing, Nothing]
    ensures |w.sys.pc| == 2 && w.sys.pc[0] == L.Idle && w.sys.pc[1] == L.Idle && Unclaimed(w.jobs, LO + CLS)
    ensures LO in w.sys.place && w.sys.place[LO].list == 0
  {
  }
}
