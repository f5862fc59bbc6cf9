/**
 The command queue, the command recorder and the execution context as objects. Every method is tied to the matching
 function of CommandStream on the abstract state.
 */
module ExecutionContext {
  import opened Common
  import Stream = CommandStream
  import opened CommandStream

  /** `submissions`, `completed` and `executed` are the GPU's side of the queue and its fence. */
  class CommandQueue {
    var lastFence: nat
    var references: seq<Reference>
    var closing: bool
    var submissions: seq<seq<Command>>
    var completed: nat
    var executed: nat
    ghost var needs: seq<nat>

    ghost predicate Consistent()
      reads this
    {
      lastFence == |submissions| && |needs| == |references|
    }

    ghost predicate Valid()
      reads this
    {
      Consistent() && !closing
    }

    constructor ()
      ensures Valid()
      ensures submissions == [] && completed == 0 && executed == 0 && references == [] && needs == []
    {
      lastFence, references, closing, submissions, completed, executed := 0, [], false, [], 0, 0;
      needs := [];
    }

    method ExecuteCommandLists(lists: seq<seq<Command>>)
      requires Valid()
      modifies this`submissions, this`lastFence
      ensures Valid() && submissions == old(submissions) + [Flatten(lists)]
    {
      submissions := submissions + [Flatten(lists)];
      lastFence := lastFence + 1;
    }

    function CurrentCompletionEvent(): nat
      reads this
    {
      lastFence
    }

    function NextCompletionEvent(): nat
      reads this
    {
      lastFence + 1
    }

    method QueueReference(item: nat, waitForUnsubmittedWork: bool, ghost need: nat)
      requires Consistent()
      modifies this`references, this`needs
      ensures Consistent()
      ensures if closing then references == old(references) && needs == old(needs)
              else && references
                      == old(references) + [Reference(|submissions| + if waitForUnsubmittedWork then 1 else 0, item)]
                   && needs == old(needs) + [need]
    {
      if !closing {
        var fence := lastFence;
        if waitForUnsubmittedWork {
          fence := fence + 1;
        }
        references := references + [Reference(fence, item)];
        needs := needs + [need];
      }
    }

    method ReleaseCompletedReferences()
      requires Valid()
      modifies this`references, this`needs
      ensures Valid()
      ensures var n := ReleasedCount(old(references), completed);
              references == old(references)[n..] && needs == old(needs)[n..]
      ensures RefsSorted(old(references)) ==> KeepsUnsignaled(old(references), references, completed)
    {
      ghost var popped: nat := 0;
      while references != [] && references[0].fence <= completed
        invariant Valid() && popped <= |old(references)|
        invariant references == old(references)[popped..] && needs == old(needs)[popped..]
        invariant ReleasedCount(old(references), completed) == popped + ReleasedCount(references, completed)
        decreases |references|
      {
        references := references[1..];
        needs := needs[1..];
        popped := popped + 1;
      }
      if RefsSorted(old(references)) {
        ReleasedAreSignaled(old(references), completed);
      }
    }

    /**
     Waits until the last submission has completed, then drops all references. Releasing an object may try to queue
     another one: `requeues` says which. While closing, such a reference is not taken.
     */
    method Close(requeues: Reference -> Option<nat>)
      requires Valid()
      modifies this
      ensures Valid() && references == [] && needs == [] && submissions == old(submissions)
      ensures completed == |submissions| && executed == |Flatten(submissions)|
    {
      closing := true;
      completed, executed := lastFence, |Flatten(submissions)|;
      while references != []
        invariant Consistent() && closing && submissions == old(submissions)
        invariant completed == |submissions| && executed == |Flatten(submissions)|
        decreases |references|
      {
        var requeued := requeues(references[0]);
        references, needs := references[1..], needs[1..];
        if requeued.Some? {
          QueueReference(requeued.value, false, 0);
        }
      }
      closing := false;
    }
  }

  class CommandRecorder {
    const queue: CommandQueue
    var currentList: Option<seq<Command>>
    var operationsRecorded: bool

    constructor (q: CommandQueue)
      ensures queue == q && currentList == None && !operationsRecorded
    {
      queue, currentList, operationsRecorded := q, None, false;
    }

    predicate HasUnsubmittedWork()
      reads this
    {
      operationsRecorded
    }

    /** Every recording method adds to the open list and marks it as holding work. */
    method RecordInto(commands: seq<Command>)
      requires currentList.Some?
      modifies this
      ensures currentList == Some(old(currentList).value + commands) && operationsRecorded
    {
      currentList := Some(currentList.value + commands);
      operationsRecorded := true;
    }

    /** Opening never touches the work flag. */
    method Open()
      modifies this`currentList
      ensures currentList == Some([])
    {
      currentList := Some([]);
    }

    method CloseAndExecute(external: Option<nat>)
      requires queue.Valid() && currentList.Some? && (!operationsRecorded ==> currentList.value == [])
      modifies this, queue`submissions, queue`lastFence
      ensures queue.Valid() && currentList == None && !operationsRecorded
      ensures var tail := if external.Some? then [External(external.value)] else [];
              queue.submissions == old(queue.submissions)
                + if old(operationsRecorded) || external.Some? then [old(currentList).value + tail] else []
    {
      var lists := [];
      if operationsRecorded {
        lists := lists + [currentList.value];
        FlattenAppend([], currentList.value);
      }
      if external.Some? {
        FlattenAppend(lists, [External(external.value)]);
        lists := lists + [[External(external.value)]];
      }
      assert Flatten(lists) == currentList.value + if external.Some? then [External(external.value)] else [];
      if 0 < |lists| {
        queue.ExecuteCommandLists(lists);
      }
      currentList := None;
      operationsRecorded := false;
    }

    method ExecuteCommandList(list: nat) returns (completionValue: nat)
      requires queue.Valid() && currentList.Some? && (!operationsRecorded ==> currentList.value == [])
      modifies this, queue`submissions, queue`lastFence
      ensures queue.Valid() && currentList == Some([]) && !operationsRecorded
      ensures queue.submissions == old(queue.submissions) + [old(currentList).value + [External(list)]]
      ensures completionValue == |old(queue.submissions)| + 1
    {
      if !operationsRecorded {
        completionValue := queue.NextCompletionEvent();
        FlattenAppend([], [External(list)]);
        queue.ExecuteCommandLists([[External(list)]]);
        return;
      }
      CloseAndExecute(Some(list));
      Open();
      completionValue := queue.CurrentCompletionEvent();
    }
  }

  /** The barrier before a copy moves each buffer into its copy state, the one after it moves it back. */
  function CopyBarriers(dst: Resource, dstState: set<Flag>, src: Resource, srcState: set<Flag>): seq<Transition>
  {
    (if CopyDest in dstState then [] else [Transition(dst, dstState, {CopyDest})]) +
    (if CopySource in srcState then [] else [Transition(src, srcState, {CopySource})])
  }

  function Reversed(barriers: seq<Transition>): (r: seq<Transition>)
    ensures |r| == |barriers|
    ensures forall i | 0 <= i < |r| :: r[i] == Transition(barriers[i].resource, barriers[i].after, barriers[i].before)
  {
    seq(|barriers|, i requires 0 <= i < |barriers| =>
      Transition(barriers[i].resource, barriers[i].after, barriers[i].before))
  }

  /** What CopyBufferRegion records: a copy, inside its barriers if it needs any. */
  function CopyCommands(
      dst: Resource, dstOffset: nat, dstState: set<Flag>,
      src: Resource, srcOffset: nat, srcState: set<Flag>, count: nat): seq<Command>
  {
    var barriers := CopyBarriers(dst, dstState, src, srcState);
    var copy := Copy(dst, dstOffset, src, srcOffset, count);
    if barriers == [] then [copy] else [Barrier(barriers), copy, Barrier(Reversed(barriers))]
  }

  /** Behind other commands, the copy is recorded piece by piece. */
  lemma CopyInSteps(
      start: seq<Command>, dst: Resource, dstOffset: nat, dstState: set<Flag>,
      src: Resource, srcOffset: nat, srcState: set<Flag>, count: nat)
    ensures Copy(dst, dstOffset, src, srcOffset, count)
            in CopyCommands(dst, dstOffset, dstState, src, srcOffset, srcState, count)
    ensures var barriers := CopyBarriers(dst, dstState, src, srcState);
            var copy := Copy(dst, dstOffset, src, srcOffset, count);
            start + CopyCommands(dst, dstOffset, dstState, src, srcOffset, srcState, count)
            == if barriers == [] then start + [copy]
               else start + [Barrier(barriers)] + [copy] + [Barrier(Reversed(barriers))]
  {
    hide CopyBarriers, Reversed;
  }

  /** The state a resource is in after the given commands. */
  function StateAfter(commands: seq<Command>, resource: Resource, state: set<Flag>): set<Flag>
  {
    if commands == [] then state
    else
      var next := if commands[0].Barrier? then Transitioned(commands[0].transitions, resource, state) else state;
      StateAfter(commands[1..], resource, next)
  }

  function Transitioned(transitions: seq<Transition>, resource: Resource, state: set<Flag>): set<Flag>
  {
    if transitions == [] then state
    else
      Transitioned(transitions[1..], resource, Applied(transitions[0], resource, state))
  }

  function Applied(t: Transition, resource: Resource, state: set<Flag>): set<Flag>
  {
    if t.resource == resource && t.before == state then t.after else state
  }

  lemma TransitionedPair(a: Transition, b: Transition, resource: Resource, state: set<Flag>)
    ensures Transitioned([a], resource, state) == Applied(a, resource, state)
    ensures Transitioned([a, b], resource, state) == Applied(b, resource, Applied(a, resource, state))
  {
    forall t: Transition, s: set<Flag>
      ensures Transitioned([t], resource, s) == Applied(t, resource, s)
    {
      var one := [t];
      assert one[1..] == [];
      assert Transitioned(one, resource, s) == Transitioned(one[1..], resource, Applied(t, resource, s));
    }
    var two := [a, b];
    assert two[1..] == [b];
    assert Transitioned(two, resource, state) == Transitioned(two[1..], resource, Applied(a, resource, state));
  }

  /** A copy runs after its barriers, and the barriers that undo them come last. */
  lemma CopyStates(
      dst: Resource, dstOffset: nat, dstState: set<Flag>,
      src: Resource, srcOffset: nat, srcState: set<Flag>, count: nat,
      r: Resource, s: set<Flag>)
    ensures var commands := CopyCommands(dst, dstOffset, dstState, src, srcOffset, srcState, count);
            var barriers := CopyBarriers(dst, dstState, src, srcState);
            var k := if barriers == [] then 0 else 1;
            && k < |commands| && commands[k] == Copy(dst, dstOffset, src, srcOffset, count)
            && StateAfter(commands[..k], r, s) == Transitioned(barriers, r, s)
            && StateAfter(commands, r, s) == Transitioned(Reversed(barriers), r, Transitioned(barriers, r, s))
  {
    var barriers := CopyBarriers(dst, dstState, src, srcState);
    var commands := CopyCommands(dst, dstOffset, dstState, src, srcOffset, srcState, count);
    hide CopyBarriers, Transitioned;
    if barriers != [] {
      var back := Reversed(barriers);
      assert commands[..1] == [Barrier(barriers)];
      assert commands[1..][1..] == [Barrier(back)];
      assert commands[1..][1..][1..] == [];
      var mid := Transitioned(barriers, r, s);
      assert StateAfter(commands[1..], r, mid) == StateAfter(commands[1..][1..], r, mid);
      assert StateAfter([Barrier(back)], r, mid) == Transitioned(back, r, mid);
    } else {
      NoTransitions(barriers, r, s);
      NoTransitions(Reversed(barriers), r, s);
    }
  }

  lemma NoTransitions(transitions: seq<Transition>, r: Resource, s: set<Flag>)
    requires transitions == []
    ensures Transitioned(transitions, r, s) == s
  {
  }

  /** What the barriers of a copy do to a resource, and what undoing them does. */
  lemma BarrierEffect(dst: Resource, dstState: set<Flag>, src: Resource, srcState: set<Flag>, r: Resource, s: set<Flag>)
    ensures var there := CopyBarriers(dst, dstState, src, srcState);
            var back := Reversed(there);
            && Transitioned(there, r, s)
               == Moved(Moved(s, dst == r && CopyDest !in dstState, dstState, {CopyDest}),
                        src == r && CopySource !in srcState, srcState, {CopySource})
            && Transitioned(back, r, s)
               == Moved(Moved(s, dst == r && CopyDest !in dstState, {CopyDest}, dstState),
                        src == r && CopySource !in srcState, {CopySource}, srcState)
  {
    var toDest, fromDest := Transition(dst, dstState, {CopyDest}), Transition(dst, {CopyDest}, dstState);
    var toSource, fromSource := Transition(src, srcState, {CopySource}), Transition(src, {CopySource}, srcState);
    var there := CopyBarriers(dst, dstState, src, srcState);
    var back := Reversed(there);
    TransitionedPair(toDest, toSource, r, s);
    TransitionedPair(fromDest, fromSource, r, s);
    TransitionedPair(toSource, toDest, r, s);
    TransitionedPair(fromSource, fromDest, r, s);
    assert there == [toDest, toSource] ==> back == [fromDest, fromSource];
    assert there == [toDest] ==> back == [fromDest];
    assert there == [toSource] ==> back == [fromSource];
    if there == [] {
      NoTransitions(there, r, s);
      NoTransitions(back, r, s);
    }
    hide Transitioned, Reversed;
  }

  function Moved(s: set<Flag>, applies: bool, before: set<Flag>, after: set<Flag>): set<Flag>
  {
    if applies && s == before then after else s
  }

  /**
   Both buffers of a copy are in a copy state when it runs and back in their own state afterwards, exactly if they are
   two buffers or the one buffer needs no barrier.
   */
  lemma CopyRestoresStatesIff(
      dst: Resource, dstOffset: nat, dstState: set<Flag>,
      src: Resource, srcOffset: nat, srcState: set<Flag>, count: nat)
    requires dst == src ==> dstState == srcState
    ensures var commands := CopyCommands(dst, dstOffset, dstState, src, srcOffset, srcState, count);
            var k := if commands[0].Copy? then 0 else 1;
            && commands[k] == Copy(dst, dstOffset, src, srcOffset, count)
            && ((CopyDest in StateAfter(commands[..k], dst, dstState)
                 && CopySource in StateAfter(commands[..k], src, srcState)
                 && StateAfter(commands, dst, dstState) == dstState
                 && StateAfter(commands, src, srcState) == srcState)
                <==> dst != src || (CopyDest in dstState && CopySource in dstState))
  {
    hide StateAfter, Transitioned, Reversed;
    CopyStates(dst, dstOffset, dstState, src, srcOffset, srcState, count, dst, dstState);
    CopyStates(dst, dstOffset, dstState, src, srcOffset, srcState, count, src, srcState);
    var there := CopyBarriers(dst, dstState, src, srcState);
    BarrierEffect(dst, dstState, src, srcState, dst, dstState);
    BarrierEffect(dst, dstState, src, srcState, dst, Transitioned(there, dst, dstState));
    BarrierEffect(dst, dstState, src, srcState, src, srcState);
    BarrierEffect(dst, dstState, src, srcState, src, Transitioned(there, src, srcState));
  }

  class ExecutionContext {
    const queue: CommandQueue
    const recorder: CommandRecorder
    const keepOpen: bool
    var currentRecorder: CommandRecorder?
    var closed: bool

    /** The abstract state; the invariant of CommandStream holds for it until Close. */
    ghost function State(): Context
      reads this, queue, recorder
    {
      Context(queue.submissions, queue.completed, queue.executed, queue.references, queue.needs,
              recorder.currentList, recorder.operationsRecorded, currentRecorder != null)
    }

    ghost predicate Valid()
      reads this, queue, recorder
    {
      && queue.Valid() && recorder.queue == queue
      && (currentRecorder == null || currentRecorder == recorder)
      && Inv(State())
    }

    lemma StateParts()
      requires Valid()
      ensures Inv(State()) && (State().current <==> State().list.Some?)
      ensures State().history == queue.submissions && State().completed == queue.completed
    {
      hide Issued, Flatten, RefsSorted;
    }

    constructor (keepOpen: bool)
      ensures Valid() && !closed && fresh(queue) && fresh(recorder) && State() == INITIAL
    {
      this.keepOpen, currentRecorder, closed := keepOpen, null, false;
      var q := new CommandQueue();
      queue := q;
      recorder := new CommandRecorder(q);
    }

    method SetCommandRecorder(newRecorder: CommandRecorder)
      requires Valid() && newRecorder == recorder
      modifies this`currentRecorder, queue, recorder
      ensures Valid() && State() == WithRecorder(old(State()))
      ensures currentRecorder == recorder && recorder.currentList.Some?
      decreases currentRecorder != null && recorder.HasUnsubmittedWork(), 1
    {
      WithRecorderInv(State());
      if currentRecorder != newRecorder {
        Flush();
        currentRecorder := newRecorder;
        currentRecorder.Open();
      }
    }

    method Flush()
      requires Valid()
      modifies this`currentRecorder, queue, recorder
      ensures Valid() && State() == Stream.Flush(old(State()))
      ensures if old(State().current && State().work) then Flushed(old(State()), State()) else State() == old(State())
      decreases currentRecorder != null && recorder.HasUnsubmittedWork(), 0
    {
      hide Inv, Flatten, Issued, ReleasedCount, Flushed, CoveredBy;
      StateParts();
      FlushSubmitsAndReleases(State());
      if currentRecorder == null || !currentRecorder.HasUnsubmittedWork() {
        return;
      }
      FlushInv(State());
      ghost var flushed := Stream.Flush(State());
      NothingPendingDetach(State(), flushed);
      assert Pending(State()) + [] == Pending(State());
      currentRecorder.CloseAndExecute(None);
      queue.ReleaseCompletedReferences();
      currentRecorder := null;
      assert State() == flushed.(list := None, current := false);
      SetCommandRecorder(recorder);
    }

    /** Right after a flush no reference waits for unsubmitted work, so the recorder can be detached. */
    lemma NothingPendingDetach(before: Context, flushed: Context)
      requires Inv(before) && before.current && before.work && flushed == Stream.Flush(before) && Inv(flushed)
      ensures Inv(flushed.(list := None, current := false))
    {
      FlushSubmitsAndReleases(before);
      hide Flatten, RefsSorted, CoveredBy, Issued, ReleasedCount;
      forall i | 0 <= i < |flushed.refs|
        ensures flushed.refs[i].fence <= |flushed.history|
      {
        assert flushed.refs[i] == before.refs[|before.refs| - |flushed.refs| + i];
      }
      Detached(flushed);
    }

    lemma Detached(c: Context)
      requires Inv(c) && c.list == Some([]) && !c.work && forall i | 0 <= i < |c.refs| :: c.refs[i].fence <= |c.history|
      ensures Inv(c.(list := None, current := false))
    {
      hide Flatten, RefsSorted;
    }

    method CopyBufferRegion(
        dst: Resource, dstOffset: nat, dstState: set<Flag>,
        src: Resource, srcOffset: nat, srcState: set<Flag>, count: nat)
      requires Valid()
      modifies this`currentRecorder, queue, recorder
      ensures Valid()
      ensures State() == Record(old(State()), CopyCommands(dst, dstOffset, dstState, src, srcOffset, srcState, count))
      ensures Copy(dst, dstOffset, src, srcOffset, count) in Pending(State())
    {
      hide Inv, Issued, Flatten, CopyBarriers, CopyCommands, Reversed;
      ghost var commands := CopyCommands(dst, dstOffset, dstState, src, srcOffset, srcState, count);
      RecordInv(State(), commands);
      SetCommandRecorder(recorder);
      var barriers := CopyBarriers(dst, dstState, src, srcState);
      ghost var start := recorder.currentList.value;
      if barriers != [] {
        recorder.RecordInto([Barrier(barriers)]);
      }
      recorder.RecordInto([Copy(dst, dstOffset, src, srcOffset, count)]);
      if barriers != [] {
        recorder.RecordInto([Barrier(Reversed(barriers))]);
      }
      CopyInSteps(start, dst, dstOffset, dstState, src, srcOffset, srcState, count);
    }

    /** Fills, barriers and lists recorded by the caller into the context's own list. */
    method RecordCommands(commands: seq<Command>)
      requires Valid()
      modifies this`currentRecorder, queue, recorder
      ensures Valid() && State() == Record(old(State()), commands)
    {
      SetCommandRecorder(recorder);
      RecordInv(old(State()), commands);
      recorder.RecordInto(commands);
    }

    /** `temporary` is the operator's temporary resource when it needs one that is not pooled. */
    method ExecuteOperator(op: nat, temporary: Option<nat>)
      requires Valid()
      modifies this`currentRecorder, queue, recorder
      ensures Valid()
      ensures State() == if temporary.Some?
                         then RecordWithTemporary(old(State()), temporary.value, [Dispatch(op), UavBarrier])
                         else Record(old(State()), [Dispatch(op), UavBarrier])
      ensures queue.submissions == old(queue.submissions)
      ensures Pending(State()) == old(Pending(State())) + [Dispatch(op), UavBarrier]
      ensures queue.references
              == old(queue.references)
                 + if temporary.Some? then [Reference(|queue.submissions| + 1, temporary.value)] else []
    {
      hide Inv, Issued, Flatten, CoveredBy;
      StateParts();
      ghost var commands := [Dispatch(op), UavBarrier];
      SetCommandRecorder(recorder);
      if temporary.Some? {
        queue.QueueReference(temporary.value, currentRecorder != null, |Issued(State())| + |commands|);
      }
      ghost var ready := State();
      assert Pending(ready) == old(Pending(State()));
      recorder.RecordInto([Dispatch(op)]);
      recorder.RecordInto([UavBarrier]);
      assert Pending(State()) == Pending(ready) + commands;
      assert State() == Append(ready, commands);
      if temporary.Some? {
        RecordWithTemporaryInv(old(State()), temporary.value, commands);
      } else {
        RecordInv(old(State()), commands);
      }
    }

    method ExecuteCommandList(list: nat) returns (completionValue: nat)
      requires Valid()
      modifies this`currentRecorder, queue, recorder
      ensures Valid() && State() == ExecuteExternal(old(State()), list)
      ensures completionValue == ExternalFence(old(State()))
      ensures queue.submissions == old(queue.submissions) + [old(Pending(State())) + [External(list)]]
      ensures completionValue == |queue.submissions|
    {
      StateParts();
      ExecuteExternalInv(old(State()), list);
      WithRecorderInv(old(State()));
      SetCommandRecorder(recorder);
      assert !State().work ==> Pending(State()) + [External(list)] == [External(list)];
      completionValue := recorder.ExecuteCommandList(list);
    }

    method QueueReference(item: nat)
      requires Valid()
      modifies queue`references, queue`needs
      ensures Valid() && State() == Stream.QueueReference(old(State()), item, 0)
      ensures var fence := |queue.submissions| + if currentRecorder != null then 1 else 0;
              queue.references == old(queue.references) + [Reference(fence, item)]
    {
      QueueReferenceInv(State(), item);
      queue.QueueReference(item, currentRecorder != null, |Issued(State())|);
    }

    function CurrentCompletionEvent(): (fence: nat)
      requires Valid()
      reads this, queue, recorder
      ensures fence == CompletionFence(State())
    {
      var unflushed := currentRecorder != null && currentRecorder.HasUnsubmittedWork();
      queue.CurrentCompletionEvent() + if unflushed then 1 else 0
    }

    method ReleaseCompletedReferences()
      requires Valid()
      modifies queue`references, queue`needs
      ensures Valid() && State() == ReleaseCompleted(old(State()))
      ensures KeepsUnsignaled(old(queue.references), queue.references, queue.completed)
    {
      ReferencesReleasedSafely(State());
      ReleaseInv(State());
      queue.ReleaseCompletedReferences();
    }

    method Close(requeues: Reference -> Option<nat>)
      requires Valid()
      modifies this, queue
      ensures State() == Stream.Close(old(State()), keepOpen)
      ensures closed == (old(closed) || !keepOpen)
      ensures queue.references == [] && queue.submissions == old(queue.submissions)
      ensures queue.completed == |queue.submissions| && queue.executed == |Flatten(queue.submissions)|
      ensures currentRecorder == if keepOpen then old(currentRecorder) else null
    {
      queue.Close(requeues);
      if !keepOpen {
        currentRecorder := null;
        closed := true;
      }
    }
  }
}
