/** When line 206 of kernel/src/pmm.c stops a CPU, among any number of CPUs. */
module Halting {
  import L = LockProtocol
  import R = AllocatorRuns
  import opened Memory
  import opened Tilings
  import opened HeapModel
  import opened Allocator
  import opened ConcurrentAllocator
  import opened Linearization
  import Witnesses

  /** The CPU has just failed to carve its first page. */
  predicate NoFirstPage(p: L.Pc) { p == L.InitStore(0) }

  /** A CPU is stopped by the access after it failed to carve its first page, by no other, and for good. */
  lemma HaltsOnlyThen(w: World, c: nat, call: Call, d: nat)
    requires WorldInv(w) && c < |w.jobs| && Enabled(w, c, call) && d < |w.jobs|
    ensures var v := Step(w, c, call);
            && d < |v.sys.pc|
            && (v.sys.pc[d] == L.Halted <==> w.sys.pc[d] == L.Halted || (d == c && NoFirstPage(w.sys.pc[c])))
  {
    StepParts(w, c, call);
    HaltsNext(w.sys, c, ChoiceOf(w, c, call));
  }

  lemma HaltsNext(sys: L.Sys, c: nat, ch: L.Choice)
    requires L.Shaped(sys) && c < |sys.pc| && L.Allowed(sys, c, ch)
    ensures L.NextPc(sys, c, ch) == L.Halted <==> NoFirstPage(sys.pc[c])
    ensures sys.pc[c] != L.Halted
  {
  }

  /** It fails to carve its first page exactly when no free node holds 64 KiB at that time. */
  lemma NoFirstPageExactly(w: World, c: nat, call: Call, d: nat)
    requires WorldInv(w) && c < |w.jobs| && Enabled(w, c, call) && d < |w.jobs|
    ensures var v := Step(w, c, call);
            && d < |v.sys.pc|
            && (NoFirstPage(v.sys.pc[d]) <==>
                  if d == c then w.sys.pc[c].InitHeapHeld? && NoneHolds(w.st.heap, 65536) else NoFirstPage(w.sys.pc[d]))
  {
    StepParts(w, c, call);
    CarvePageFinds(w.st.heap);
    StoreNext(w.sys, c, ChoiceOf(w, c, call));
  }

  lemma StoreNext(sys: L.Sys, c: nat, ch: L.Choice)
    requires L.Shaped(sys) && c < |sys.pc| && L.Allowed(sys, c, ch)
    ensures NoFirstPage(L.NextPc(sys, c, ch)) <==> sys.pc[c].InitHeapHeld? && ch == L.Found(0)
  {
  }

  /** And then kalloc, called by itself, would stop too. */
  lemma HaltsAsKalloc(w: World, c: nat, a: State)
    requires Linear(w, a) && c < |w.jobs| && w.sys.pc[c].InitHeapHeld? && NoneHolds(w.st.heap, 65536)
    ensures c < |a.lists| && w.jobs[c].Get? && R.FitsGuard(a, w.jobs[c].req) && R.Kalloc(a, c, w.jobs[c].req).Halted?
  {
    LinearParts(w, a, c);
    CarveAim(w, c);
    CarvePageFinds(w.st.heap);
    CarveFails(w, c, Continue, a);
  }

  // ---------------------------------------------------------- a run that ends there

  const LO := Witnesses.LO
  const HI := LO + 0x8000

  /** One CPU without pages. */
  function Lone(p: L.Pc, lock: int, heapLock: int): L.Sys {
    L.Sys([p], [lock], heapLock, [0], map[], [[]], map[], {})
  }

  function Stage(k: nat): L.Sys
    requires k <= 8
  {
    match k
    case 0 => Lone(L.Idle, 0, 0)
    case 1 => Lone(L.CheckHead, 0, 0)
    case 2 => Lone(L.InitSpin, 0, 0)
    case 3 => Lone(L.InitGot, 1, 0)
    case 4 => Lone(L.InitHeapSpin, 1, 0)
    case 5 => Lone(L.InitHeapGot, 1, 1)
    case 6 => Lone(L.InitHeapHeld, 1, 1)
    case 7 => Lone(L.InitStore(0), 1, 0)
    case 8 => Lone(L.Halted, 1, 0)
  }

  function ChoiceAt(k: nat): L.Choice {
    if k == 0 then L.Small else if k == 6 then L.Found(0) else L.None
  }

  function CallAt(k: nat): Call { if k == 0 then Request(1) else Continue }

  function WorldAt(k: nat): World
    requires k <= 8
  {
    World(Stage(k), R.Initial(LO, HI, 1), [if k == 0 then Nothing else Get(1)])
  }

  lemma StageStep(k: nat)
    requires k < 8
    ensures L.Shaped(Stage(k)) && L.Allowed(Stage(k), 0, ChoiceAt(k))
    ensures L.Step(Stage(k), 0, ChoiceAt(k)) == Stage(k + 1)
  {
    if k < 4 { EarlyStep(k); } else { LateStep(k); }
  }

  lemma EarlyStep(k: nat)
    requires k < 4
    ensures L.Shaped(Stage(k)) && L.Allowed(Stage(k), 0, ChoiceAt(k))
    ensures L.Step(Stage(k), 0, ChoiceAt(k)) == Stage(k + 1)
  {
  }

  lemma LateStep(k: nat)
    requires 4 <= k < 8
    ensures L.Shaped(Stage(k)) && L.Allowed(Stage(k), 0, ChoiceAt(k))
    ensures L.Step(Stage(k), 0, ChoiceAt(k)) == Stage(k + 1)
  {
  }

  /** The heap of 32 KiB has no page to give. */
  lemma NoPage()
    ensures Inv(R.Initial(LO, HI, 1)) && NoneHolds(R.Initial(LO, HI, 1).heap, 65536)
    ensures CarvePage(R.Initial(LO, HI, 1).heap).1 == 0
  {
    R.InitialInv(LO, HI, 1);
    CarvePageFinds(R.Initial(LO, HI, 1).heap);
  }

  lemma ChoiceIs(k: nat)
    requires k < 8
    ensures Shaped(WorldAt(k)) && Inv(WorldAt(k).st) && ChoiceOf(WorldAt(k), 0, CallAt(k)) == ChoiceAt(k)
    ensures Enabled(WorldAt(k), 0, CallAt(k))
  {
    NoPage();
  }

  lemma WorldStep(k: nat)
    requires k < 8 && WorldInv(WorldAt(k))
    ensures Enabled(WorldAt(k), 0, CallAt(k)) && Step(WorldAt(k), 0, CallAt(k)) == WorldAt(k + 1)
  {
    ChoiceIs(k);
    StageStep(k);
    StepParts(WorldAt(k), 0, CallAt(k));
    PerformAt(k);
  }

  /** The contents stay as they are. */
  lemma PerformAt(k: nat)
    requires k < 8
    ensures var (w, a) := (WorldAt(k), ActionOf(Stage(k).pc[0]));
            && Inv(w.st) && |w.st.lists| == 1 && Ready(w.st, 0, a, w.jobs[0])
            && Perform(w.st, 0, a, w.jobs[0], CallAt(k)) == (w.st, if k == 0 then Get(1) else w.jobs[0])
  {
    NoPage();
  }

  lemma {:induction false} RunMore(w: World, moves: seq<Move>, v: World, c: nat, call: Call)
    requires WorldInv(w) && Run(w, moves, v) && WorldInv(v) && c < |v.jobs| && Enabled(v, c, call)
    ensures Run(w, moves + [Move(c, call)], Step(v, c, call))
    decreases |moves|
  {
    var more := moves + [Move(c, call)];
    if moves == [] {
      assert more[1..] == [];
      StepInv(w, c, call);
      assert Run(Step(v, c, call), [], Step(v, c, call));
    } else {
      assert more[0] == moves[0] && more[1..] == moves[1..] + [Move(c, call)];
      StepInv(w, moves[0].cpu, moves[0].call);
      RunMore(Step(w, moves[0].cpu, moves[0].call), moves[1..], v, c, call);
    }
  }

  lemma {:induction false} RunsTo(k: nat) returns (moves: seq<Move>)
    requires k <= 8
    ensures WorldInv(WorldAt(0)) && Run(WorldAt(0), moves, WorldAt(k)) && WorldInv(WorldAt(k))
    decreases k
  {
    StartInv(LO, HI, 1);
    StartIs();
    if k == 0 {
      moves := [];
    } else {
      moves := RunsTo(k - 1);
      WorldStep(k - 1);
      RunMore(WorldAt(0), moves, WorldAt(k - 1), 0, CallAt(k - 1));
      StepInv(WorldAt(k - 1), 0, CallAt(k - 1));
      moves := moves + [Move(0, CallAt(k - 1))];
    }
  }

  lemma StartIs()
    ensures Start(LO, HI, 1) == WorldAt(0)
  {
    assert Start(LO, HI, 1).jobs == [Nothing];
    assert Start(LO, HI, 1).sys == Stage(0);
  }

  /** One CPU, a heap of 32 KiB, a request for one byte: the CPU stops. */
  lemma HaltedRun() returns (moves: seq<Move>, w: World)
    ensures (StartInv(LO, HI, 1); Run(Start(LO, HI, 1), moves, w))
    ensures |w.sys.pc| == 1 && w.sys.pc[0] == L.Halted && w.jobs == [Get(1)]
  {
    StartIs();
    moves := RunsTo(8);
    w := WorldAt(8);
    LastStage();
  }

  lemma LastStage()
    ensures WorldAt(8).sys.pc == [L.Halted] && WorldAt(8).jobs == [Get(1)]
  {
  }
}
