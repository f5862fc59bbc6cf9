/**
 The double-checked kernel cache of BiasGelu_Compute as a state machine: any number of threads, each making one call,
 interleaved at every access to the shared fields, in sequentially consistent memory.
 */
module BiasGeluCache {
  import opened Common

  datatype Kernel = Kernel(sizes: seq<nat>, dtype: nat)

  datatype Pc =
    | Start          // about to read `initialized` without the lock
    | WantLock
    | Locked         // holds the lock, about to read `initialized` again
    | StoreSizes     // compiled into the shared slot, about to record the sizes
    | SetFlag        // about to set `initialized`
    | Unlock
    | GiveUp         // compilation failed, about to release the lock
    | CheckShape     // about to compare the sizes, outside the lock
    | Execute
    | Done
    | Failed

  datatype Active = Unset | Shared | Temporary(kernel: Kernel)

  datatype Thread = Thread(sizes: seq<nat>, dtype: nat, pc: Pc, active: Active, ran: Option<Kernel>)

  /** `kernel` is None while the slot holds no valid kernel; `fills` counts successful compilations into it. */
  datatype State = State(
    initialized: bool, kernel: Option<Kernel>, compiledSizes: seq<nat>, lock: Option<nat>, fills: nat,
    threads: seq<Thread>)

  function Wanted(t: Thread): Kernel { Kernel(t.sizes, t.dtype) }

  function Goto(t: Thread, pc: Pc): Thread { t.(pc := pc) }

  function With(s: State, i: nat, t: Thread): State
    requires i < |s.threads|
  {
    s.(threads := s.threads[i := t])
  }

  /** Thread `i` takes one step; `ok` says whether a compilation in this step succeeds. */
  function Step(s: State, i: nat, ok: bool): (r: State)
    requires i < |s.threads|
    ensures |r.threads| == |s.threads| && Wanted(r.threads[i]) == Wanted(s.threads[i])
    ensures forall j | 0 <= j < |s.threads| && j != i :: r.threads[j] == s.threads[j]
  {
    var t := s.threads[i];
    match t.pc
    case Start => With(s, i, Goto(t, if s.initialized then CheckShape else WantLock))
    case WantLock => if s.lock.None? then With(s, i, Goto(t, Locked)).(lock := Some(i)) else s
    case Locked =>
      if s.initialized then With(s, i, Goto(t, Unlock))
      else if ok then With(s, i, Goto(t, StoreSizes)).(kernel := Some(Wanted(t)), fills := s.fills + 1)
      else With(s, i, Goto(t, GiveUp)).(kernel := None)
    case StoreSizes => With(s, i, Goto(t, SetFlag)).(compiledSizes := t.sizes)
    case SetFlag => With(s, i, Goto(t, Unlock)).(initialized := true)
    case Unlock => With(s, i, Goto(t, CheckShape)).(lock := None)
    case GiveUp => With(s, i, Goto(t, Failed)).(lock := None)
    case CheckShape =>
      if t.sizes == s.compiledSizes then With(s, i, Goto(t, Execute).(active := Shared))
      else if ok then With(s, i, Goto(t, Execute).(active := Temporary(Wanted(t))))
      else With(s, i, Goto(t, Failed))
    case Execute =>
      // The shared kernel is reached through a pointer, so its content is read only now.
      With(s, i, Goto(t, Done).(ran := if t.active.Temporary? then Some(t.active.kernel) else s.kernel))
    case Done => s
    case Failed => s
  }

  // ----- invariant -----

  predicate HoldsLock(pc: Pc)
  {
    pc == Locked || pc == StoreSizes || pc == SetFlag || pc == Unlock || pc == GiveUp
  }

  predicate PastInit(pc: Pc)
  {
    pc == Unlock || pc == CheckShape || pc == Execute || pc == Done
  }

  ghost predicate ThreadOk(s: State, i: nat)
    requires i < |s.threads|
  {
    var t := s.threads[i];
    && (HoldsLock(t.pc) <==> s.lock == Some(i))
    && (PastInit(t.pc) ==> s.initialized)
    && (t.pc == StoreSizes ==> !s.initialized && s.kernel == Some(Wanted(t)))
    && (t.pc == SetFlag ==> !s.initialized && s.kernel == Some(Wanted(t)) && s.compiledSizes == t.sizes)
    && (t.pc == GiveUp ==> !s.initialized && s.kernel == None)
    && (t.pc == Locked && !s.initialized ==> s.kernel == None)
    && (t.pc == Execute ==> t.active != Unset)
    && (t.active == Shared ==> s.initialized && t.sizes == s.compiledSizes)
    && (t.active.Temporary? ==> t.active.kernel == Wanted(t) && s.initialized && t.sizes != s.compiledSizes)
    && (t.pc == Done ==> t.active != Unset && t.ran == if t.active.Temporary? then Some(t.active.kernel) else s.kernel)
    && (t.pc != Done ==> t.ran == None)
  }

  /** The shared fields. */
  ghost predicate SharedOk(s: State)
  {
    && (s.lock.Some? ==> s.lock.value < |s.threads|)
    && (s.initialized ==> s.kernel.Some? && s.kernel.value.sizes == s.compiledSizes)
    && (!s.initialized && s.lock == None ==> s.kernel == None)
    && s.fills == (if s.kernel.Some? then 1 else 0)
  }

  ghost predicate Inv(s: State)
  {
    SharedOk(s) && forall i | 0 <= i < |s.threads| :: ThreadOk(s, i)
  }

  predicate Fresh(t: Thread)
  {
    t.pc == Start && t.active == Unset && t.ran == None
  }

  /** When all sizes are known at compile time, and compiling succeeds, the slot is filled before any thread starts. */
  ghost predicate Init(s: State)
  {
    && s.lock == None && s.initialized == s.kernel.Some?
    && (if s.kernel.Some? then s.kernel.value.sizes == s.compiledSizes && s.fills == 1 else s.fills == 0)
    && forall i | 0 <= i < |s.threads| :: Fresh(s.threads[i])
  }

  /** A step of thread `i` leaves the condition of every other thread intact. */
  lemma OthersStayOk(s: State, i: nat, ok: bool, j: nat)
    requires Inv(s) && i < |s.threads| && j < |s.threads| && i != j
    ensures ThreadOk(Step(s, i, ok), j)
  {
    assert ThreadOk(s, i) && ThreadOk(s, j) && SharedOk(s);
    hide Inv;
    match s.threads[i].pc
    case Locked =>
    case StoreSizes =>
    case SetFlag =>
    case _ =>
  }

  lemma OwnStepOk(s: State, i: nat, ok: bool)
    requires Inv(s) && i < |s.threads|
    ensures ThreadOk(Step(s, i, ok), i)
  {
    assert ThreadOk(s, i);
    match s.threads[i].pc
    case Locked =>
    case Execute =>
    case CheckShape =>
    case _ =>
  }

  lemma SharedPartKept(s: State, i: nat, ok: bool)
    requires Inv(s) && i < |s.threads|
    ensures SharedOk(Step(s, i, ok))
  {
    assert ThreadOk(s, i);
  }

  lemma StepKeepsInv(s: State, i: nat, ok: bool)
    requires Inv(s) && i < |s.threads|
    ensures Inv(Step(s, i, ok)) && |Step(s, i, ok).threads| == |s.threads|
  {
    var d := Step(s, i, ok);
    SharedPartKept(s, i, ok);
    OwnStepOk(s, i, ok);
    hide ThreadOk, Step;
    forall j | 0 <= j < |d.threads| && j != i
      ensures ThreadOk(d, j)
    {
      OthersStayOk(s, i, ok, j);
    }
  }

  lemma StepKeepsRequest(s: State, i: nat, ok: bool, j: nat)
    requires i < |s.threads| && j < |s.threads|
    ensures |Step(s, i, ok).threads| == |s.threads|
    ensures Wanted(Step(s, i, ok).threads[j]) == Wanted(s.threads[j])
  {
    hide Step;
  }

  // ----- runs -----

  datatype Choice = Choice(thread: nat, ok: bool)

  ghost function Run(s: State, schedule: seq<Choice>): (r: State)
    requires Inv(s) && forall c | c in schedule :: c.thread < |s.threads|
    ensures Inv(r) && |r.threads| == |s.threads|
  {
    if schedule == [] then s
    else
      var last := schedule[|schedule| - 1];
      var before := Run(s, schedule[..|schedule| - 1]);
      StepKeepsInv(before, last.thread, last.ok);
      hide Inv, Step;
      Step(before, last.thread, last.ok)
  }

  /** A thread's sizes and data type never change. */
  lemma {:induction false} RequestsAreFixed(s: State, schedule: seq<Choice>, i: nat)
    requires Inv(s) && (forall c | c in schedule :: c.thread < |s.threads|) && i < |s.threads|
    ensures Wanted(Run(s, schedule).threads[i]) == Wanted(s.threads[i])
  {
    hide Inv, Step;
    if schedule != [] {
      var last := schedule[|schedule| - 1];
      RequestsAreFixed(s, schedule[..|schedule| - 1], i);
      StepKeepsRequest(Run(s, schedule[..|schedule| - 1]), last.thread, last.ok, i);
    }
  }

  /**
   Under any interleaving: at most one compilation fills the shared slot, and a thread that completes has run a valid
   kernel compiled for its own sizes, whether it won the race, lost it, or came later.
   */
  lemma EveryThreadRunsItsOwnSizes(s: State, schedule: seq<Choice>, i: nat)
    requires Init(s) && (forall c | c in schedule :: c.thread < |s.threads|) && i < |s.threads|
    ensures Inv(s)
    ensures Run(s, schedule).fills <= 1
    ensures var t := Run(s, schedule).threads[i];
            t.pc == Done ==> t.ran.Some? && t.ran.value.sizes == s.threads[i].sizes
  {
    InitHolds(s);
    RequestsAreFixed(s, schedule, i);
    assert ThreadOk(Run(s, schedule), i);
  }

  lemma InitHolds(s: State)
    requires Init(s)
    ensures Inv(s)
  {
    forall i | 0 <= i < |s.threads|
      ensures ThreadOk(s, i)
    {
      assert Fresh(s.threads[i]);
    }
  }

  /** No thread ever executes while the kernel it points to is unset. */
  lemma NoUnsetKernel(s: State, schedule: seq<Choice>, i: nat)
    requires Init(s) && (forall c | c in schedule :: c.thread < |s.threads|) && i < |s.threads|
    ensures Inv(s)
    ensures var r := Run(s, schedule); var t := r.threads[i];
            t.pc == Execute ==> t.active.Temporary? || (t.active == Shared && r.kernel.Some?)
  {
    InitHolds(s);
    assert ThreadOk(Run(s, schedule), i);
  }

  lemma StepKeepsShared(s: State, i: nat, ok: bool)
    requires Inv(s) && s.initialized && i < |s.threads|
    ensures var d := Step(s, i, ok);
            d.initialized && d.kernel == s.kernel && d.compiledSizes == s.compiledSizes
  {
    assert ThreadOk(s, i);
  }

  /** Once set, the shared kernel and its recorded sizes are never written again. */
  lemma {:induction false} SharedKernelIsFinal(s: State, early: seq<Choice>, late: seq<Choice>)
    requires Inv(s) && forall c | c in early + late :: c.thread < |s.threads|
    requires Run(s, early).initialized
    ensures var before, after := Run(s, early), Run(s, early + late);
            after.initialized && after.kernel == before.kernel && after.compiledSizes == before.compiledSizes
    decreases |late|
  {
    hide Inv, Step;
    if late == [] {
      assert early + late == early;
    } else {
      var n := |late| - 1;
      assert (early + late)[..|early + late| - 1] == early + late[..n];
      SharedKernelIsFinal(s, early, late[..n]);
      var mid := Run(s, early + late[..n]);
      StepKeepsShared(mid, late[n].thread, late[n].ok);
    }
  }

  /**
   The comparison looks at the sizes only. A completed thread has run a kernel for its own data type exactly when the
   shared kernel has that type or was compiled for other sizes.
   */
  lemma OwnDataTypeIff(s: State, schedule: seq<Choice>, i: nat)
    requires Init(s) && (forall c | c in schedule :: c.thread < |s.threads|) && i < |s.threads|
    requires Inv(s) && Run(s, schedule).threads[i].pc == Done
    ensures var r := Run(s, schedule);
            && r.kernel.Some?
            && (r.threads[i].ran == Some(Wanted(s.threads[i]))
                <==> r.kernel.value.dtype == s.threads[i].dtype || r.kernel.value.sizes != s.threads[i].sizes)
  {
    RequestsAreFixed(s, schedule, i);
    assert ThreadOk(Run(s, schedule), i);
  }

  lemma StepFillsWanted(s: State, i: nat, ok: bool)
    requires i < |s.threads|
    ensures Step(s, i, ok).kernel in {s.kernel, None, Some(Wanted(s.threads[i]))}
  {
  }

  /** Whatever fills the slot was there from the start or was asked for by some thread. */
  lemma {:induction false} SharedKernelWasWanted(s: State, schedule: seq<Choice>)
    requires Inv(s) && forall c | c in schedule :: c.thread < |s.threads|
    ensures var r := Run(s, schedule);
            r.kernel.Some? && r.kernel != s.kernel
            ==> exists i :: 0 <= i < |s.threads| && r.kernel.value == Wanted(s.threads[i])
  {
    hide Inv, Step, Wanted;
    if schedule != [] {
      var n := |schedule| - 1;
      var c := schedule[n];
      SharedKernelWasWanted(s, schedule[..n]);
      RequestsAreFixed(s, schedule[..n], c.thread);
      StepFillsWanted(Run(s, schedule[..n]), c.thread, c.ok);
    }
  }

  /**
   With one data type in use, by the kernel compiled ahead too, every completed thread has run exactly the kernel it
   would have compiled itself.
   */
  lemma OneDataType(s: State, schedule: seq<Choice>, i: nat)
    requires Init(s) && (forall c | c in schedule :: c.thread < |s.threads|) && i < |s.threads|
    requires forall j, k | 0 <= j < |s.threads| && 0 <= k < |s.threads| :: s.threads[j].dtype == s.threads[k].dtype
    requires s.kernel.Some? ==> forall j | 0 <= j < |s.threads| :: s.threads[j].dtype == s.kernel.value.dtype
    ensures Inv(s)
    ensures var t := Run(s, schedule).threads[i]; t.pc == Done ==> t.ran == Some(Wanted(s.threads[i]))
  {
    InitHolds(s);
    hide Inv, Step, Run, Init;
    if Run(s, schedule).threads[i].pc == Done {
      OwnDataTypeIff(s, schedule, i);
      SharedKernelWasWanted(s, schedule);
    }
  }

  /** Waiting for the lock, or holding it. */
  predicate InLock(pc: Pc)
  {
    pc == WantLock || HoldsLock(pc)
  }

  lemma LateComerStep(s: State, j: nat, ok: bool, i: nat)
    requires s.initialized && j < |s.threads| && i < |s.threads| && !InLock(s.threads[i].pc)
    ensures !InLock(Step(s, j, ok).threads[i].pc)
  {
  }

  /** A thread that comes when the slot is initialised never asks for the lock, and so never waits. */
  lemma {:induction false} LateComerNeverWaits(s: State, schedule: seq<Choice>, i: nat)
    requires Inv(s) && s.initialized && (forall c | c in schedule :: c.thread < |s.threads|) && i < |s.threads|
    requires s.threads[i].pc == Start
    ensures Run(s, schedule).initialized
    ensures !InLock(Run(s, schedule).threads[i].pc)
  {
    hide Inv, Step;
    if schedule != [] {
      var n := |schedule| - 1;
      LateComerNeverWaits(s, schedule[..n], i);
      StepKeepsShared(Run(s, schedule[..n]), schedule[n].thread, schedule[n].ok);
      LateComerStep(Run(s, schedule[..n]), schedule[n].thread, schedule[n].ok, i);
    }
  }

  // ----- every thread gets through -----

  predicate Finished(t: Thread) { t.pc == Done || t.pc == Failed }

  /** Only a thread that wants the lock while another one holds it has to wait. */
  predicate CanMove(s: State, i: nat)
    requires i < |s.threads|
  {
    !Finished(s.threads[i]) && (s.threads[i].pc == WantLock ==> s.lock == None)
  }

  /** How many steps a thread can still take. */
  function Rank(pc: Pc): nat
  {
    match pc
    case Start => 8
    case WantLock => 7
    case Locked => 6
    case StoreSizes => 5
    case SetFlag => 4
    case Unlock => 3
    case CheckShape => 2
    case Execute => 1
    case GiveUp => 1
    case Done => 0
    case Failed => 0
  }

  function TotalRank(threads: seq<Thread>): nat
  {
    if threads == [] then 0 else TotalRank(threads[..|threads| - 1]) + Rank(threads[|threads| - 1].pc)
  }

  lemma {:induction false} TotalRankUpdate(threads: seq<Thread>, i: nat, t: Thread)
    requires i < |threads|
    ensures TotalRank(threads[i := t]) == TotalRank(threads) - Rank(threads[i].pc) + Rank(t.pc)
  {
    var n := |threads| - 1;
    if i == n {
      assert threads[i := t][..n] == threads[..n];
    } else {
      assert threads[i := t][..n] == threads[..n][i := t];
      TotalRankUpdate(threads[..n], i, t);
    }
  }

  lemma {:induction false} TotalRankBounds(threads: seq<Thread>)
    ensures TotalRank(threads) <= 8 * |threads|
    ensures TotalRank(threads) == 0 <==> forall i | 0 <= i < |threads| :: Finished(threads[i])
  {
    if threads != [] {
      var front := threads[..|threads| - 1];
      TotalRankBounds(front);
      assert forall i | 0 <= i < |front| :: threads[i] == front[i];
    }
  }

  /** A thread that can move comes closer to its end; any other step changes nothing. */
  lemma StepLowers(s: State, i: nat, ok: bool)
    requires i < |s.threads|
    ensures if CanMove(s, i) then TotalRank(Step(s, i, ok).threads) < TotalRank(s.threads) else Step(s, i, ok) == s
  {
    if CanMove(s, i) {
      var t := Step(s, i, ok).threads[i];
      assert Rank(t.pc) < Rank(s.threads[i].pc);
      assert Step(s, i, ok).threads == s.threads[i := t];
      TotalRankUpdate(s.threads, i, t);
    }
  }

  /** There is no deadlock: whoever holds the lock can move. */
  lemma SomeoneCanMove(s: State, i: nat) returns (j: nat)
    requires Inv(s) && i < |s.threads| && !Finished(s.threads[i])
    ensures j < |s.threads| && CanMove(s, j)
  {
    j := if s.threads[i].pc == WantLock && s.lock.Some? then s.lock.value else i;
    assert ThreadOk(s, j);
  }

  ghost predicate InThreads(s: State, schedule: seq<Choice>)
  {
    forall c | c in schedule :: c.thread < |s.threads|
  }

  lemma {:induction false} RunSplit(s: State, a: seq<Choice>, b: seq<Choice>)
    requires Inv(s) && InThreads(s, a) && InThreads(s, b)
    ensures InThreads(s, a + b) && Run(s, a + b) == Run(Run(s, a), b)
    decreases |b|
  {
    hide Inv, Step;
    if b == [] {
      assert a + b == a;
    } else {
      var front, last := b[..|b| - 1], b[|b| - 1];
      assert (a + b)[..|a + b| - 1] == a + front && (a + b)[|a + b| - 1] == last;
      RunSplit(s, a, front);
    }
  }

  /** Until someone moves, nothing changes. */
  lemma {:induction false} RunLowers(s: State, schedule: seq<Choice>)
    requires Inv(s) && InThreads(s, schedule)
    ensures Run(s, schedule) == s || TotalRank(Run(s, schedule).threads) < TotalRank(s.threads)
    ensures (exists c :: c in schedule && CanMove(s, c.thread)) ==>
              TotalRank(Run(s, schedule).threads) < TotalRank(s.threads)
  {
    hide Inv, Step, CanMove, TotalRank;
    if schedule != [] {
      var front, last := schedule[..|schedule| - 1], schedule[|schedule| - 1];
      assert schedule == front + [last];
      RunLowers(s, front);
      StepLowers(Run(s, front), last.thread, last.ok);
    }
  }

  /** Every thread takes a step in every round. */
  ghost predicate Fair(s: State, rounds: seq<seq<Choice>>)
  {
    forall k | 0 <= k < |rounds| ::
      InThreads(s, rounds[k]) && forall i: nat | i < |s.threads| :: TakesStep(rounds[k], i)
  }

  ghost predicate TakesStep(round: seq<Choice>, i: nat)
  {
    exists c :: c in round && c.thread == i
  }

  lemma FairPrefix(s: State, rounds: seq<seq<Choice>>)
    requires Fair(s, rounds) && rounds != []
    ensures Fair(s, rounds[..|rounds| - 1])
  {
  }

  lemma NoSteps(s: State)
    requires Inv(s)
    ensures Run(s, []) == s
  {
  }

  lemma {:induction false} RoundsLower(s: State, rounds: seq<seq<Choice>>)
    requires Inv(s) && Fair(s, rounds)
    ensures InThreads(s, Flatten(rounds))
    ensures var total := TotalRank(Run(s, Flatten(rounds)).threads);
            total == 0 || total + |rounds| <= TotalRank(s.threads)
  {
    hide Inv, Step, TotalRank, CanMove, Finished, Run;
    if rounds == [] {
      NoSteps(s);
    } else {
      FairPrefix(s, rounds);
      var front, round := rounds[..|rounds| - 1], rounds[|rounds| - 1];
      RoundsLower(s, front);
      var before := Run(s, Flatten(front));
      RunSplit(s, Flatten(front), round);
      RunLowers(before, round);
      TotalRankBounds(before.threads);
      if i :| 0 <= i < |before.threads| && !Finished(before.threads[i]) {
        var j := SomeoneCanMove(before, i);
        assert TakesStep(round, j);
        var c :| c in round && c.thread == j;
      }
    }
  }

  /** A thread whose own steps succeed never gives up. */
  lemma {:induction false} SuccessNeverFails(s: State, schedule: seq<Choice>, i: nat)
    requires Inv(s) && InThreads(s, schedule) && i < |s.threads|
    requires s.threads[i].pc != Failed && s.threads[i].pc != GiveUp
    requires forall c | c in schedule && c.thread == i :: c.ok
    ensures Run(s, schedule).threads[i].pc != Failed && Run(s, schedule).threads[i].pc != GiveUp
  {
    hide Inv, Step;
    if schedule != [] {
      var front, last := schedule[..|schedule| - 1], schedule[|schedule| - 1];
      assert schedule == front + [last];
      SuccessNeverFails(s, front, i);
      SuccessfulStep(Run(s, front), last, i);
    }
  }

  lemma SuccessfulStep(s: State, c: Choice, i: nat)
    requires c.thread < |s.threads| && i < |s.threads| && (c.thread == i ==> c.ok)
    requires s.threads[i].pc != Failed && s.threads[i].pc != GiveUp
    ensures Step(s, c.thread, c.ok).threads[i].pc != Failed && Step(s, c.thread, c.ok).threads[i].pc != GiveUp
  {
  }

  /**
   However the threads are interleaved, after as many rounds as eight per thread all of them have come to an end, so
   none waits for ever, and one whose compilations succeed has run a kernel for its sizes.
   */
  lemma FairRunsFinish(s: State, rounds: seq<seq<Choice>>, i: nat)
    requires Init(s) && Fair(s, rounds) && 8 * |s.threads| <= |rounds| && i < |s.threads|
    ensures Inv(s) && InThreads(s, Flatten(rounds))
    ensures var t := Run(s, Flatten(rounds)).threads[i];
            && Finished(t)
            && ((forall c | c in Flatten(rounds) && c.thread == i :: c.ok) ==>
                  t.pc == Done && t.ran.Some? && t.ran.value.sizes == s.threads[i].sizes)
  {
    InitHolds(s);
    assert Fresh(s.threads[i]);
    hide Init, Inv, Run, TotalRank;
    RoundsLower(s, rounds);
    TotalRankBounds(s.threads);
    var r := Run(s, Flatten(rounds));
    TotalRankBounds(r.threads);
    EveryThreadRunsItsOwnSizes(s, Flatten(rounds), i);
    if forall c | c in Flatten(rounds) && c.thread == i :: c.ok {
      SuccessNeverFails(s, Flatten(rounds), i);
    }
  }
}
