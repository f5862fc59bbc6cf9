/**
 The state shared by the execution context, the command recorder and the command queue, as a value, with one function
 per operation and the facts that hold over every run. The classes in ExecutionContext.dfy refine these functions.
 */
module CommandStream {
  import opened Common

  datatype Resource = Staging(id: nat) | Buffer(id: nat)

  datatype Flag = CopyDest | CopySource | UnorderedAccess | OtherUse

  datatype Transition = Transition(resource: Resource, before: set<Flag>, after: set<Flag>)

  /** What the GPU is asked to do. `External` stands for a whole command list recorded elsewhere. */
  datatype Command =
    | Barrier(transitions: seq<Transition>)
    | UavBarrier
    | Copy(dst: Resource, dstOffset: nat, src: Resource, srcOffset: nat, count: nat)
    | Fill(dst: Resource, pattern: seq<byte>)
    | Dispatch(op: nat)
    | External(list: nat)

  datatype Reference = Reference(fence: nat, item: nat)

  /**
   `history[k]` is the k-th submission, whose fence value is k + 1. The GPU has run the first `executed` submitted
   commands and has signaled `completed`. `list` is the open command list, `work` says whether anything was recorded
   into it, and `current` whether the context has a current recorder. `needs[i]` counts the commands that must have run
   before `refs[i]` may be dropped; it is bookkeeping for the proofs only.
   */
  datatype Context = Context(
    history: seq<seq<Command>>, completed: nat, executed: nat,
    refs: seq<Reference>, needs: seq<nat>,
    list: Option<seq<Command>>, work: bool, current: bool)

  const INITIAL := Context([], 0, 0, [], [], None, false, false)

  function Pending(c: Context): seq<Command>
  {
    if c.list.Some? then c.list.value else []
  }

  /** Every command issued so far, submitted or not, in order. */
  function Issued(c: Context): seq<Command>
  {
    Flatten(c.history) + Pending(c)
  }

  /** How many issued commands have run once `fence` is reached; a fence not yet submitted covers everything. */
  function CoveredBy(c: Context, fence: nat): nat
  {
    if fence <= |c.history| then |Flatten(c.history[..fence])| else |Issued(c)|
  }

  // ----- operations -----

  /** SetCommandRecorder with the only recorder there is. */
  function WithRecorder(c: Context): Context
  {
    if c.current then c else c.(current := true, list := Some([]))
  }

  function Append(c: Context, commands: seq<Command>): Context
    requires c.list.Some?
  {
    c.(list := Some(c.list.value + commands), work := true)
  }

  function Record(c: Context, commands: seq<Command>): Context
    requires c.current ==> c.list.Some?
  {
    Append(WithRecorder(c), commands)
  }

  function Submit(c: Context, commands: seq<Command>): Context
  {
    c.(history := c.history + [commands])
  }

  function ReleasedCount(refs: seq<Reference>, completed: nat): (n: nat)
    ensures n <= |refs|
  {
    if refs == [] || completed < refs[0].fence then 0 else 1 + ReleasedCount(refs[1..], completed)
  }

  function ReleaseCompleted(c: Context): Context
    requires |c.needs| == |c.refs|
  {
    var n := ReleasedCount(c.refs, c.completed);
    c.(refs := c.refs[n..], needs := c.needs[n..])
  }

  function Flush(c: Context): Context
    requires |c.needs| == |c.refs|
  {
    if !c.current || !c.work then c
    else ReleaseCompleted(Submit(c, Pending(c)).(list := Some([]), work := false))
  }

  function ExecuteExternal(c: Context, list: nat): Context
  {
    var ready := WithRecorder(c);
    if !ready.work then Submit(ready, [External(list)])
    else Submit(ready, Pending(ready) + [External(list)]).(list := Some([]), work := false)
  }

  /** The fence handed to the caller of ExecuteCommandList. */
  function ExternalFence(c: Context): nat
  {
    |c.history| + 1
  }

  /** `extra` commands that are about to be recorded into the current list must also have run. */
  function QueueReference(c: Context, item: nat, extra: nat): Context
  {
    var fence := |c.history| + if c.current then 1 else 0;
    c.(refs := c.refs + [Reference(fence, item)], needs := c.needs + [|Issued(c)| + extra])
  }

  function CompletionFence(c: Context): nat
  {
    |c.history| + if c.current && c.work then 1 else 0
  }

  /** An unpooled temporary is freed, and so queued, just before the dispatch that uses it is recorded. */
  function RecordWithTemporary(c: Context, item: nat, commands: seq<Command>): Context
    requires c.current ==> c.list.Some?
  {
    Append(QueueReference(WithRecorder(c), item, |commands|), commands)
  }

  // ----- invariant -----

  ghost predicate RefsSorted(refs: seq<Reference>)
  {
    forall i, j | 0 <= i < j < |refs| :: refs[i].fence <= refs[j].fence
  }

  ghost predicate Inv(c: Context)
  {
    && c.completed <= |c.history|
    && |Flatten(c.history[..c.completed])| <= c.executed <= |Flatten(c.history)|
    && (c.current <==> c.list.Some?)
    && (!c.work ==> Pending(c) == [])
    && (!c.current ==> !c.work)
    && |c.needs| == |c.refs|
    && RefsSorted(c.refs)
    && forall i | 0 <= i < |c.refs| ::
         c.refs[i].fence <= |c.history| + (if c.current then 1 else 0) && c.needs[i] <= CoveredBy(c, c.refs[i].fence)
  }

  lemma SubmitFlattens(c: Context, commands: seq<Command>)
    ensures Flatten(Submit(c, commands).history) == Flatten(c.history) + commands
  {
    FlattenAppend(c.history, commands);
  }

  /** `d` extends the stream of `c`, and the first new submission takes in all that was pending. */
  ghost predicate Advances(c: Context, d: Context)
  {
    && c.history <= d.history && Issued(c) <= Issued(d)
    && (|c.history| < |d.history| ==> Issued(c) <= Flatten(d.history[..|c.history| + 1]))
  }

  /** Appending to the issued commands and to the history never takes a command out of a fence's cover. */
  lemma CoverGrows(c: Context, d: Context, fence: nat)
    requires Advances(c, d) && fence <= |c.history| + 1
    ensures CoveredBy(c, fence) <= CoveredBy(d, fence)
  {
    if fence <= |c.history| {
      assert d.history[..fence] == c.history[..fence];
    }
  }

  /** A step that keeps the references and only moves the stream forward keeps the invariant's part about references. */
  lemma RefsStayCovered(c: Context, d: Context)
    requires Inv(c) && d.refs == c.refs && d.needs == c.needs && (c.current ==> d.current)
    requires Advances(c, d)
    ensures forall i | 0 <= i < |d.refs| ::
              d.refs[i].fence <= |d.history| + (if d.current then 1 else 0)
              && d.needs[i] <= CoveredBy(d, d.refs[i].fence)
  {
    forall i | 0 <= i < |d.refs|
      ensures d.needs[i] <= CoveredBy(d, d.refs[i].fence)
    {
      CoverGrows(c, d, c.refs[i].fence);
    }
  }

  lemma WithRecorderInv(c: Context)
    requires Inv(c)
    ensures Inv(WithRecorder(c)) && Issued(WithRecorder(c)) == Issued(c) && Advances(c, WithRecorder(c))
  {
    RefsStayCovered(c, WithRecorder(c));
  }

  lemma AppendInv(c: Context, commands: seq<Command>)
    requires Inv(c) && c.current
    ensures Inv(Append(c, commands)) && Issued(Append(c, commands)) == Issued(c) + commands
    ensures Advances(c, Append(c, commands))
  {
    hide Flatten, RefsSorted, CoveredBy;
    assert Issued(Append(c, commands)) == Issued(c) + commands;
    RefsStayCovered(c, Append(c, commands));
  }

  lemma RecordInv(c: Context, commands: seq<Command>)
    requires Inv(c)
    ensures Inv(Record(c, commands)) && Issued(Record(c, commands)) == Issued(c) + commands
    ensures Advances(c, Record(c, commands))
  {
    WithRecorderInv(c);
    AppendInv(WithRecorder(c), commands);
    assert Advances(c, Record(c, commands));
  }

  /** Submitting the open list, with an external list behind it or not. */
  lemma SubmitInv(c: Context, tail: seq<Command>)
    requires Inv(c) && c.current
    ensures var d := Submit(c, Pending(c) + tail).(list := Some([]), work := false);
            Inv(d) && Issued(d) == Issued(c) + tail && Advances(c, d)
  {
    var d := Submit(c, Pending(c) + tail).(list := Some([]), work := false);
    SubmitFlattens(c, Pending(c) + tail);
    assert Issued(d) == Issued(c) + tail;
    assert d.history[..|d.history|] == d.history;
    assert d.history[..c.completed] == c.history[..c.completed];
    RefsStayCovered(c, d);
  }

  lemma {:induction false} ReleaseIsExact(refs: seq<Reference>, completed: nat)
    requires RefsSorted(refs)
    ensures var n := ReleasedCount(refs, completed);
            && (forall i | 0 <= i < n :: refs[i].fence <= completed)
            && (forall i | n <= i < |refs| :: completed < refs[i].fence)
  {
    if refs != [] && refs[0].fence <= completed {
      ReleaseIsExact(refs[1..], completed);
      forall i | 0 < i < |refs|
        ensures refs[i] == refs[1..][i - 1]
      {
      }
    }
  }

  lemma ReleaseInv(c: Context)
    requires Inv(c)
    ensures Inv(ReleaseCompleted(c)) && Issued(ReleaseCompleted(c)) == Issued(c) && Advances(c, ReleaseCompleted(c))
  {
    var n := ReleasedCount(c.refs, c.completed);
    var d := ReleaseCompleted(c);
    forall i | 0 <= i < |d.refs|
      ensures d.refs[i] == c.refs[n + i] && d.needs[i] == c.needs[n + i]
      ensures CoveredBy(d, d.refs[i].fence) == CoveredBy(c, c.refs[n + i].fence)
    {
    }
  }

  lemma FlushInv(c: Context)
    requires Inv(c)
    ensures Inv(Flush(c)) && Issued(Flush(c)) == Issued(c) && Advances(c, Flush(c))
  {
    if c.current && c.work {
      SubmitInv(c, []);
      assert Pending(c) + [] == Pending(c);
      var d := Submit(c, Pending(c)).(list := Some([]), work := false);
      assert Issued(d) == Issued(c);
      ReleaseInv(d);
    }
  }

  lemma ExecuteExternalInv(c: Context, list: nat)
    requires Inv(c)
    ensures Inv(ExecuteExternal(c, list)) && Issued(ExecuteExternal(c, list)) == Issued(c) + [External(list)]
    ensures Advances(c, ExecuteExternal(c, list))
  {
    WithRecorderInv(c);
    var ready := WithRecorder(c);
    SubmitInv(ready, [External(list)]);
    if !ready.work {
      assert Pending(ready) + [External(list)] == [External(list)];
      assert ExecuteExternal(c, list) == Submit(ready, [External(list)]).(list := Some([]), work := false);
    }
  }

  /** Adding one reference whose fence is not below the others and covers what it protects. */
  lemma ReferenceAdded(c: Context, d: Context, added: Reference, need: nat)
    requires Inv(c) && Advances(c, d) && (c.current ==> d.current)
    requires d.refs == c.refs + [added] && d.needs == c.needs + [need]
    requires |c.history| + (if c.current then 1 else 0) <= added.fence <= |d.history| + (if d.current then 1 else 0)
    requires need <= CoveredBy(d, added.fence)
    ensures RefsSorted(d.refs)
    ensures forall i | 0 <= i < |d.refs| ::
              d.refs[i].fence <= |d.history| + (if d.current then 1 else 0)
              && d.needs[i] <= CoveredBy(d, d.refs[i].fence)
  {
    RefsStayCovered(c, d.(refs := c.refs, needs := c.needs));
    hide CoveredBy, Advances;
    forall i | 0 <= i < |c.refs|
      ensures d.refs[i] == c.refs[i] && d.needs[i] == c.needs[i]
      ensures CoveredBy(d, d.refs[i].fence) == CoveredBy(d.(refs := c.refs, needs := c.needs), d.refs[i].fence)
    {
      SameCover(d, d.(refs := c.refs, needs := c.needs), c.refs[i].fence);
    }
  }

  lemma SameCover(c: Context, d: Context, fence: nat)
    requires c.history == d.history && c.list == d.list
    ensures CoveredBy(c, fence) == CoveredBy(d, fence)
  {
  }

  lemma QueueReferenceInv(c: Context, item: nat)
    requires Inv(c)
    ensures Inv(QueueReference(c, item, 0)) && Issued(QueueReference(c, item, 0)) == Issued(c)
    ensures Advances(c, QueueReference(c, item, 0))
  {
    var d := QueueReference(c, item, 0);
    assert c.history[..|c.history|] == c.history;
    ReferenceAdded(c, d, d.refs[|c.refs|], |Issued(c)|);
  }

  lemma RecordWithTemporaryInv(c: Context, item: nat, commands: seq<Command>)
    requires Inv(c)
    ensures Inv(RecordWithTemporary(c, item, commands))
    ensures Issued(RecordWithTemporary(c, item, commands)) == Issued(c) + commands
    ensures Advances(c, RecordWithTemporary(c, item, commands))
  {
    hide Flatten, RefsSorted, CoveredBy, Advances, Issued;
    WithRecorderInv(c);
    RecordInv(c, commands);
    var ready := WithRecorder(c);
    AppendInv(ready, commands);
    var d := RecordWithTemporary(c, item, commands);
    SameIssued(c, ready, Record(c, commands), d);
    NextFenceCovers(d, |Issued(d)|);
    ReferenceAdded(ready, d, d.refs[|c.refs|], |Issued(d)|);
  }

  /** References do not count for what has been issued. */
  lemma SameIssued(c: Context, ready: Context, recorded: Context, d: Context)
    requires d.history == recorded.history && d.list == recorded.list
    ensures Issued(d) == Issued(recorded)
    ensures Advances(c, recorded) ==> Advances(c, d)
    ensures Advances(ready, recorded) ==> Advances(ready, d)
  {
    hide Flatten;
  }

  lemma NextFenceCovers(c: Context, n: nat)
    requires n <= |Issued(c)|
    ensures n <= CoveredBy(c, |c.history| + 1)
  {
    hide Issued;
  }

  // ----- the GPU -----

  predicate CanExecute(c: Context) { c.executed < |Flatten(c.history)| }

  predicate CanSignal(c: Context)
  {
    c.completed < |c.history| && |Flatten(c.history[..c.completed + 1])| <= c.executed
  }

  /** The queue runs commands in submission order and signals a submission's fence after its last command. */
  function GpuExecute(c: Context): Context { c.(executed := c.executed + 1) }

  function GpuSignal(c: Context): Context { c.(completed := c.completed + 1) }

  lemma GpuInv(c: Context)
    requires Inv(c)
    ensures CanExecute(c) ==>
              Inv(GpuExecute(c)) && Issued(GpuExecute(c)) == Issued(c) && Advances(c, GpuExecute(c))
    ensures CanSignal(c) ==> Inv(GpuSignal(c)) && Issued(GpuSignal(c)) == Issued(c) && Advances(c, GpuSignal(c))
  {
    if CanExecute(c) {
      RefsStayCovered(c, GpuExecute(c));
    }
    if CanSignal(c) {
      RefsStayCovered(c, GpuSignal(c));
    }
  }

  // ----- what the fences mean -----

  /** Once a fence has been signaled, everything it covers has run. */
  lemma SignaledMeansExecuted(c: Context, fence: nat)
    requires Inv(c) && fence <= c.completed
    ensures CoveredBy(c, fence) <= c.executed
  {
    assert c.history[..c.completed][..fence] == c.history[..fence];
    FlattenPrefix(c.history[..c.completed], fence);
  }

  /** What is kept are the last references, all those and only those whose fence has not been signaled. */
  ghost predicate KeepsUnsignaled(refs: seq<Reference>, kept: seq<Reference>, completed: nat)
  {
    && |kept| <= |refs| && kept == refs[|refs| - |kept|..]
    && (forall i | 0 <= i < |refs| - |kept| :: refs[i].fence <= completed)
    && (forall i | 0 <= i < |kept| :: completed < kept[i].fence)
  }

  lemma ReleasedAreSignaled(refs: seq<Reference>, completed: nat)
    requires RefsSorted(refs)
    ensures KeepsUnsignaled(refs, refs[ReleasedCount(refs, completed)..], completed)
  {
    ReleaseIsExact(refs, completed);
    hide ReleasedCount, RefsSorted;
  }

  /** A reference is dropped only after all the commands it protects have run, and no droppable one is kept. */
  lemma ReferencesReleasedSafely(c: Context)
    requires Inv(c)
    ensures var d := ReleaseCompleted(c);
            && KeepsUnsignaled(c.refs, d.refs, c.completed) && d == c.(refs := d.refs, needs := d.needs)
            && |d.needs| == |d.refs| && d.needs == c.needs[|c.refs| - |d.refs|..]
            && forall i | 0 <= i < |c.refs| - |d.refs| :: c.needs[i] <= c.executed
  {
    ReleasedAreSignaled(c.refs, c.completed);
    forall i | 0 <= i < ReleasedCount(c.refs, c.completed)
      ensures c.needs[i] <= c.executed
    {
      SignaledMeansExecuted(c, c.refs[i].fence);
    }
  }

  /** A flush of pending work makes one submission of it, opens a list, and keeps the unsignaled references only. */
  ghost predicate Flushed(c: Context, d: Context)
  {
    && d.history == c.history + [Pending(c)] && d.list == Some([]) && d.current && !d.work
    && d.completed == c.completed && d.executed == c.executed
    && KeepsUnsignaled(c.refs, d.refs, c.completed)
  }

  lemma FlushSubmitsAndReleases(c: Context)
    requires Inv(c)
    ensures if c.current && c.work then Flushed(c, Flush(c)) else Flush(c) == c
  {
    hide CoveredBy, Issued, Flatten;
    if c.current && c.work {
      ReleasedAreSignaled(c.refs, c.completed);
    }
  }

  /** The completion event covers everything issued, and no earlier fence does unless nothing was issued since it. */
  lemma CompletionFenceIsTight(c: Context)
    requires Inv(c)
    ensures CoveredBy(c, CompletionFence(c)) == |Issued(c)|
    ensures CompletionFence(c) <= |c.history| <==> !(c.current && c.work)
    ensures forall f: nat | f < CompletionFence(c) ::
              CoveredBy(c, f) <= |Flatten(c.history[..CompletionFence(c) - 1])|
  {
    assert c.history[..|c.history|] == c.history;
    var top: nat := CompletionFence(c);
    forall f: nat | f < top
      ensures CoveredBy(c, f) <= |Flatten(c.history[..top - 1])|
    {
      assert c.history[..top - 1][..f] == c.history[..f];
      FlattenPrefix(c.history[..top - 1], f);
    }
  }

  /** Work recorded now completes with the next submission. */
  lemma RecordedWorkFence(c: Context, commands: seq<Command>)
    requires Inv(c)
    ensures var d := Record(c, commands);
            && d.history == c.history && CompletionFence(d) == |c.history| + 1
            && CoveredBy(d, CompletionFence(d)) == |Issued(c)| + |commands|
  {
    RecordInv(c, commands);
  }

  /** The returned fence is exactly the one of the submission that ends with the external list. */
  lemma ExternalFenceCoversList(c: Context, list: nat)
    requires Inv(c)
    ensures var d := ExecuteExternal(c, list);
            && ExternalFence(c) == |d.history|
            && d.history == c.history + [Pending(c) + [External(list)]]
            && CoveredBy(d, ExternalFence(c)) == |Issued(c)| + 1
            && CoveredBy(d, ExternalFence(c) - 1) <= |Issued(c)|
  {
    var d := ExecuteExternal(c, list);
    ExecuteExternalInv(c, list);
    assert Pending(c) + [External(list)]
           == if WithRecorder(c).work then Pending(c) + [External(list)] else [External(list)];
    assert d.history[..|d.history|] == d.history;
    assert d.history[..|c.history|] == c.history;
    assert Issued(d) == Flatten(d.history) + [];
  }

  // ----- closing -----

  /**
   Close waits for all submitted work and drops every reference. Unless asked to stay open it also forgets the current
   recorder, but it leaves the recorder's open list and its flag as they are.
   */
  function Close(c: Context, keepOpen: bool): Context
  {
    c.(completed := |c.history|, executed := |Flatten(c.history)|, refs := [], needs := [],
       current := keepOpen && c.current)
  }

  /** Everything that dropped references protect has run by then, if nothing is recorded that was not submitted. */
  lemma CloseIsSafe(c: Context, keepOpen: bool)
    requires Inv(c) && Pending(c) == []
    ensures forall i | 0 <= i < |c.needs| :: c.needs[i] <= Close(c, keepOpen).executed
    ensures !c.work ==> Inv(Close(c, false).(list := None))
  {
    assert c.history[..|c.history|] == c.history;
    forall i | 0 <= i < |c.needs|
      ensures c.needs[i] <= |Flatten(c.history)|
    {
      if c.refs[i].fence <= |c.history| {
        FlattenPrefix(c.history, c.refs[i].fence);
      }
    }
  }

  /**
   After a reference has been queued, closing waits for all that the references protect exactly if nothing is pending.
   */
  lemma CloseIsSafeIff(c: Context, item: nat, keepOpen: bool)
    requires Inv(c)
    ensures var d := QueueReference(c, item, 0);
            (forall i | 0 <= i < |d.needs| :: d.needs[i] <= Close(d, keepOpen).executed) <==> Pending(c) == []
  {
    var d := QueueReference(c, item, 0);
    QueueReferenceInv(c, item);
    if Pending(c) == [] {
      CloseIsSafe(d, keepOpen);
    } else {
      assert d.needs[|c.needs|] == |Issued(c)|;
    }
  }

  /** The same after a dispatch with a temporary: it is safe only if nothing was recorded at all. */
  lemma CloseAfterTemporaryIff(c: Context, item: nat, commands: seq<Command>, keepOpen: bool)
    requires Inv(c)
    ensures var d := RecordWithTemporary(c, item, commands);
            (forall i | 0 <= i < |d.needs| :: d.needs[i] <= Close(d, keepOpen).executed)
            <==> Pending(c) + commands == []
  {
    var d := RecordWithTemporary(c, item, commands);
    RecordWithTemporaryInv(c, item, commands);
    if Pending(c) + commands == [] {
      CloseIsSafe(d, keepOpen);
    } else {
      assert d.needs[|c.needs|] == |Issued(c)| + |commands|;
    }
  }

  /** A context that is kept open still submits what was pending. No caller asks for such a context. */
  lemma KeptOpenStillSubmits(c: Context)
    requires Inv(c)
    ensures Flatten(Flush(Close(c, true)).history) == Issued(c)
  {
    SubmitFlattens(Close(c, true), Pending(c));
  }

  // ----- runs -----

  datatype Event =
    | RecordCommands(commands: seq<Command>)
    | ExecuteList(list: nat)
    | FlushWork
    | Queue(item: nat)
    | RecordWithTemp(item: nat, commands: seq<Command>)
    | Release
    | Execute
    | Signal

  /** What a context keeps up even when it is used after it has been closed. */
  ghost predicate Usable(c: Context)
  {
    && |c.needs| == |c.refs|
    && (c.current ==> c.list.Some?)
    && (c.current && !c.work ==> Pending(c) == [])
  }

  function Step(c: Context, e: Event): Context
    requires Usable(c)
  {
    match e
    case RecordCommands(commands) => Record(c, commands)
    case ExecuteList(list) => ExecuteExternal(c, list)
    case FlushWork => Flush(c)
    case Queue(item) => QueueReference(c, item, 0)
    case RecordWithTemp(item, commands) => RecordWithTemporary(c, item, commands)
    case Release => ReleaseCompleted(c)
    case Execute => if CanExecute(c) then GpuExecute(c) else c
    case Signal => if CanSignal(c) then GpuSignal(c) else c
  }

  /** The commands an event issues, read off the event alone. */
  function IssuedBy(e: Event): seq<Command>
  {
    match e
    case RecordCommands(commands) => commands
    case ExecuteList(list) => [External(list)]
    case RecordWithTemp(_, commands) => commands
    case _ => []
  }

  function IssuedByAll(events: seq<Event>): seq<Command>
  {
    if events == [] then [] else IssuedByAll(events[..|events| - 1]) + IssuedBy(events[|events| - 1])
  }

  lemma InvIsUsable(c: Context)
    requires Inv(c)
    ensures Usable(c)
  {
  }

  lemma AdvancesItself(c: Context)
    ensures Advances(c, c)
  {
  }

  lemma StepInv(c: Context, e: Event)
    requires Inv(c)
    ensures Inv(Step(c, e)) && Issued(Step(c, e)) == Issued(c) + IssuedBy(e) && Advances(c, Step(c, e))
  {
    hide Inv, Issued, Advances, Record, ExecuteExternal, Flush, QueueReference, RecordWithTemporary, ReleaseCompleted;
    hide CanExecute, CanSignal, GpuExecute, GpuSignal;
    InvIsUsable(c);
    AdvancesItself(c);
    match e
    case RecordCommands(commands) => RecordInv(c, commands);
    case ExecuteList(list) => ExecuteExternalInv(c, list);
    case FlushWork => FlushInv(c);
    case Queue(item) => QueueReferenceInv(c, item);
    case RecordWithTemp(item, commands) => RecordWithTemporaryInv(c, item, commands);
    case Release => ReleaseInv(c);
    case Execute => GpuInv(c);
    case Signal => GpuInv(c);
  }

  ghost function Run(events: seq<Event>): (c: Context)
    ensures Inv(c)
  {
    if events == [] then INITIAL
    else
      var before := Run(events[..|events| - 1]);
      StepInv(before, events[|events| - 1]);
      Step(before, events[|events| - 1])
  }

  /**
   Over every run, the submitted command lists followed by the open list are the issued commands in order, each exactly
   once, and the GPU has run a prefix of them.
   */
  lemma {:induction false} NothingLostOrReordered(events: seq<Event>)
    ensures Flatten(Run(events).history) + Pending(Run(events)) == IssuedByAll(events)
    ensures Run(events).executed <= |IssuedByAll(events)|
    ensures !Run(events).current ==> Flatten(Run(events).history) == IssuedByAll(events)
  {
    if events != [] {
      var last := |events| - 1;
      NothingLostOrReordered(events[..last]);
      StepInv(Run(events[..last]), events[last]);
    }
    assert !Run(events).current ==> Pending(Run(events)) == [];
  }

  // ----- use after closing -----

  /** The submitted commands and those in the list of the current recorder. */
  function Visible(c: Context): seq<Command>
  {
    Flatten(c.history) + if c.current then Pending(c) else []
  }

  lemma AppendVisible(c: Context, commands: seq<Command>)
    requires Usable(c)
    ensures Usable(WithRecorder(c)) && Visible(WithRecorder(c)) == Visible(c)
    ensures Usable(Record(c, commands)) && Visible(Record(c, commands)) == Visible(c) + commands
  {
    hide Flatten;
    assert Visible(WithRecorder(c)) == Visible(c);
  }

  lemma SubmitVisible(c: Context, tail: seq<Command>)
    requires Usable(c) && c.current
    ensures var d := Submit(c, Pending(c) + tail).(list := Some([]), work := false);
            Usable(d) && Visible(d) == Visible(c) + tail
  {
    SubmitFlattens(c, Pending(c) + tail);
    hide Flatten;
  }

  lemma ExternalVisible(c: Context, list: nat)
    requires Usable(c)
    ensures Usable(ExecuteExternal(c, list)) && Visible(ExecuteExternal(c, list)) == Visible(c) + [External(list)]
  {
    AppendVisible(c, []);
    var ready := WithRecorder(c);
    SubmitVisible(ready, [External(list)]);
    hide Flatten;
    if !ready.work {
      assert Pending(ready) + [External(list)] == [External(list)];
      assert ExecuteExternal(c, list) == Submit(ready, [External(list)]).(list := Some([]), work := false);
    }
  }

  lemma FlushVisible(c: Context)
    requires Usable(c)
    ensures Usable(Flush(c)) && Visible(Flush(c)) == Visible(c)
  {
    if c.current && c.work {
      SubmitVisible(c, []);
      hide Flatten;
      assert Pending(c) + [] == Pending(c);
    }
  }

  lemma StepVisible(c: Context, e: Event)
    requires Usable(c)
    ensures Usable(Step(c, e)) && Visible(Step(c, e)) == Visible(c) + IssuedBy(e)
  {
    match e
    case RecordCommands(commands) => AppendVisible(c, commands);
    case ExecuteList(list) => ExternalVisible(c, list);
    case FlushWork => FlushVisible(c);
    case Queue(item) => hide Flatten;
    case RecordWithTemp(item, commands) => TemporaryVisible(c, item, commands);
    case Release => hide Flatten;
    case Execute => hide Flatten;
    case Signal => hide Flatten;
  }

  lemma TemporaryVisible(c: Context, item: nat, commands: seq<Command>)
    requires Usable(c)
    ensures Usable(RecordWithTemporary(c, item, commands))
    ensures Visible(RecordWithTemporary(c, item, commands)) == Visible(c) + commands
  {
    AppendVisible(c, commands);
    hide Flatten;
    assert Visible(RecordWithTemporary(c, item, commands)) == Visible(Record(c, commands));
  }

  ghost function RunFrom(c: Context, events: seq<Event>): (d: Context)
    requires Usable(c)
    ensures Usable(d)
  {
    if events == [] then c
    else
      var before := RunFrom(c, events[..|events| - 1]);
      StepVisible(before, events[|events| - 1]);
      Step(before, events[|events| - 1])
  }

  lemma {:induction false} RunFromVisible(c: Context, events: seq<Event>)
    requires Usable(c)
    ensures Visible(RunFrom(c, events)) == Visible(c) + IssuedByAll(events)
  {
    hide Step, Visible, Usable;
    if events == [] {
      assert Visible(c) + [] == Visible(c);
    } else {
      var front, last := events[..|events| - 1], events[|events| - 1];
      RunFromVisible(c, front);
      StepVisible(RunFrom(c, front), last);
      assert (Visible(c) + IssuedByAll(front)) + IssuedBy(last) == Visible(c) + (IssuedByAll(front) + IssuedBy(last));
    }
  }

  /**
   However a closed context is used, what was pending when it was closed is never submitted: every submission since
   then, and the open list, hold commands issued after closing only.
   */
  lemma ClosedWorkIsNeverSubmitted(c: Context, events: seq<Event>)
    requires Inv(c)
    ensures Usable(Close(c, false))
    ensures var d := RunFrom(Close(c, false), events);
            Flatten(d.history) + (if d.current then Pending(d) else []) == Flatten(c.history) + IssuedByAll(events)
  {
    RunFromVisible(Close(c, false), events);
    assert Visible(Close(c, false)) == Flatten(c.history);
  }
}
