/**
 The kernel cache behind DmlAbiKernel_Compute. A kernel is identified with what it was created from: the input shapes
 and the constant tensors. Whether creating or running it succeeds is up to the call.
 */
module AbiKernelCache {
  import opened Common

  type Shape = seq<nat>

  datatype Tensor = CpuTensor(shape: Shape, dtype: nat, bytes: seq<byte>) | GpuTensor(handle: nat)

  /** A snapshot; invalid when there was no CPU tensor to take it from. */
  datatype Content = Content(isValid: bool, shape: Shape, dtype: nat, data: seq<byte>)

  const INVALID := Content(false, [], 0, [])

  datatype Kernel = Kernel(shapes: seq<Shape>, constants: map<nat, Tensor>)

  /**
   One Compute call. `dims[i]` are the dimensions of input i, negative if unknown, or None if the input is missing;
   `values` holds the runtime inputs that are available as constants.
   */
  datatype Call = Call(dims: seq<Option<seq<int>>>, values: map<nat, Tensor>, createOk: bool, runOk: bool)

  /** What is fixed at registration; `fixedConstants` are the constants that the graph itself provides. */
  datatype Info = Info(requiresShapes: bool, required: seq<nat>, fixedConstants: map<nat, Tensor>)

  datatype State = State(
    lazy: bool, kernel: Option<Kernel>, inputShapes: seq<Shape>, contents: seq<Content>, created: nat)

  // ----- what a call brings -----

  function Clamp(dims: seq<int>): (r: Shape)
    ensures |r| == |dims| && forall d | 0 <= d < |r| :: r[d] == if 0 <= dims[d] then dims[d] else 0
  {
    seq(|dims|, d requires 0 <= d < |dims| => if 0 <= dims[d] then dims[d] else 0)
  }

  function ShapesOf(call: Call): (r: seq<Shape>)
    ensures |r| == |call.dims|
    ensures forall i | 0 <= i < |r| :: r[i] == if call.dims[i].Some? then Clamp(call.dims[i].value) else []
  {
    seq(|call.dims|, i requires 0 <= i < |call.dims| => if call.dims[i].Some? then Clamp(call.dims[i].value) else [])
  }

  function Lookup(info: Info, call: Call, i: nat): Option<Tensor>
  {
    if i in info.fixedConstants then Some(info.fixedConstants[i])
    else if i in call.values then Some(call.values[i])
    else None
  }

  function ConstantsOf(info: Info, call: Call): map<nat, Tensor>
  {
    map i | i in info.required && Lookup(info, call, i).Some? :: Lookup(info, call, i).value
  }

  /** The kernel this very call asks for. */
  function Fresh(info: Info, call: Call): Kernel
  {
    Kernel(ShapesOf(call), ConstantsOf(info, call))
  }

  // ----- snapshots -----

  function Snapshot(t: Option<Tensor>): Content
  {
    if t.Some? && t.value.CpuTensor? then Content(true, t.value.shape, t.value.dtype, t.value.bytes) else INVALID
  }

  /** A difference in validity counts as unchanged. */
  predicate Changed(last: Content, current: Option<Tensor>)
  {
    var currentValid := current.Some? && current.value.CpuTensor?;
    if last.isValid != currentValid then false
    else if last.isValid then
      last.shape != current.value.shape || last.dtype != current.value.dtype
      || |current.value.bytes| != |last.data| || last.data != current.value.bytes
    else false
  }

  function Find(constants: map<nat, Tensor>, i: nat): Option<Tensor>
  {
    if i in constants then Some(constants[i]) else None
  }

  /** A CPU tensor is unchanged exactly when it equals the one the snapshot was taken from. */
  lemma ChangedIsExact(before: Tensor, after: Tensor)
    requires before.CpuTensor? && after.CpuTensor?
    ensures Changed(Snapshot(Some(before)), Some(after)) <==> before != after
  {
  }

  // ----- the cache on values -----

  /** Snapshots of the constants whose position is within the inputs. */
  function Snapshots(required: seq<nat>, constants: map<nat, Tensor>, count: nat): (r: seq<Content>)
    ensures |r| == count
    ensures forall i | 0 <= i < count :: r[i] == if i in required then Snapshot(Find(constants, i)) else INVALID
  {
    seq(count, i requires 0 <= i < count => if i in required then Snapshot(Find(constants, i)) else INVALID)
  }

  predicate NeedsInit(s: State)
  {
    s.lazy && s.kernel.None?
  }

  function Initialized(info: Info, s: State, call: Call): State
  {
    var constants := ConstantsOf(info, call);
    State(false, Some(Kernel(ShapesOf(call), constants)), ShapesOf(call),
          Snapshots(info.required, constants, |call.dims|), s.created + 1)
  }

  predicate ChecksCall(info: Info, s: State)
  {
    info.requiresShapes && 0 < |s.inputShapes| && !s.lazy
  }

  function Restored(c: Content): Tensor
  {
    CpuTensor(c.shape, c.dtype, c.data)
  }

  /** A constant that cannot be fetched any more is taken from its snapshot. */
  function CollectedAt(info: Info, s: State, call: Call, i: nat): Option<Tensor>
  {
    if Lookup(info, call, i).Some? then Lookup(info, call, i)
    else if i < |s.contents| && s.contents[i].isValid then Some(Restored(s.contents[i]))
    else None
  }

  function Collected(info: Info, s: State, call: Call): map<nat, Tensor>
  {
    map i | i in info.required && CollectedAt(info, s, call, i).Some? :: CollectedAt(info, s, call, i).value
  }

  predicate ConstantsChanged(info: Info, s: State, call: Call)
  {
    exists k :: 0 <= k < |info.required| && info.required[k] < |s.contents|
                && Changed(s.contents[info.required[k]], CollectedAt(info, s, call, info.required[k]))
  }

  /** The call gets a kernel of its own. */
  predicate UsesTemporary(info: Info, s: State, call: Call)
  {
    ChecksCall(info, s) &&
    (ShapesOf(call) != s.inputShapes || (s.contents != [] && ConstantsChanged(info, s, call)))
  }

  function Active(info: Info, s: State, call: Call): Kernel
    requires s.kernel.Some?
  {
    if UsesTemporary(info, s, call) then Kernel(ShapesOf(call), Collected(info, s, call)) else s.kernel.value
  }

  datatype Outcome = Outcome(state: State, ran: Option<Kernel>)

  /** One Compute call: the state it leaves and the kernel it ran, if it succeeded. */
  function ComputeStep(info: Info, s: State, call: Call): Outcome
    requires s.kernel.Some? || s.lazy
  {
    if NeedsInit(s) && !call.createOk then Outcome(s, None)
    else
      var ready := if NeedsInit(s) then Initialized(info, s, call) else s;
      if UsesTemporary(info, ready, call) && !call.createOk then Outcome(ready, None)
      else Outcome(ready, if call.runOk then Some(Active(info, ready, call)) else None)
  }

  // ----- what a stored kernel looks like -----

  /** The recorded shapes and snapshots are those of the stored kernel. */
  ghost predicate Recorded(info: Info, s: State)
  {
    if s.kernel.None? then s.lazy && s.created == 0
    else
      var k := s.kernel.value;
      && !s.lazy && s.created == 1
      && s.inputShapes == k.shapes && s.contents == Snapshots(info.required, k.constants, |k.shapes|)
      && forall i | i in k.constants :: i in info.required
  }

  ghost predicate InRange(info: Info, count: nat)
  {
    forall k | 0 <= k < |info.required| :: info.required[k] < count
  }

  predicate IsCpu(t: Option<Tensor>)
  {
    t.Some? && t.value.CpuTensor?
  }

  /**
   The cache cannot see the difference at this position: when it runs the stored kernel, a constant that is not in CPU
   memory now or was not then; when it creates a temporary one, a constant that has gone missing.
   */
  predicate Missed(info: Info, s: State, call: Call, i: nat)
    requires s.kernel.Some?
  {
    var before, now := Find(s.kernel.value.constants, i), Lookup(info, call, i);
    if UsesTemporary(info, s, call) then IsCpu(before) && now.None?
    else before != now && (!IsCpu(before) || !IsCpu(now))
  }

  lemma CollectedIsFresh(info: Info, s: State, call: Call)
    requires Recorded(info, s) && s.kernel.Some? && InRange(info, |s.inputShapes|) && UsesTemporary(info, s, call)
    ensures Collected(info, s, call) == ConstantsOf(info, call)
            <==> forall i | i in info.required :: !Missed(info, s, call, i)
  {
    var a, b := Collected(info, s, call), ConstantsOf(info, call);
    forall i | i in info.required
      ensures Missed(info, s, call, i) <==> Find(a, i) != Find(b, i)
    {
      assert i < |s.contents|;
    }
    if a == b {
      forall i | i in info.required
        ensures !Missed(info, s, call, i)
      {
        assert Find(a, i) == Find(b, i);
      }
    } else if forall i | i in info.required :: !Missed(info, s, call, i) {
      SameLookups(a, b, info.required);
    }
  }

  lemma SameLookups(a: map<nat, Tensor>, b: map<nat, Tensor>, keys: seq<nat>)
    requires (forall i | i in a :: i in keys) && (forall i | i in b :: i in keys)
    requires forall i | i in keys :: Find(a, i) == Find(b, i)
    ensures a == b
  {
    forall i
      ensures i in a <==> i in b
      ensures i in a ==> a[i] == b[i]
    {
      if i in keys {
        assert Find(a, i) == Find(b, i);
      }
    }
  }

  lemma StoredIsFresh(info: Info, s: State, call: Call)
    requires Recorded(info, s) && s.kernel.Some? && InRange(info, |s.inputShapes|)
    requires ChecksCall(info, s) && !UsesTemporary(info, s, call)
    ensures s.kernel.value.constants == ConstantsOf(info, call)
            <==> forall i | i in info.required :: !Missed(info, s, call, i)
  {
    var a, b := s.kernel.value.constants, ConstantsOf(info, call);
    forall i | i in info.required
      ensures Missed(info, s, call, i) <==> Find(a, i) != Find(b, i)
    {
      assert i < |s.contents|;
      var k :| 0 <= k < |info.required| && info.required[k] == i;
      assert !Changed(s.contents[info.required[k]], CollectedAt(info, s, call, info.required[k]));
      if IsCpu(Find(a, i)) && IsCpu(Lookup(info, call, i)) {
        ChangedIsExact(a[i], Lookup(info, call, i).value);
      }
    }
    if a == b {
      forall i | i in info.required
        ensures !Missed(info, s, call, i)
      {
        assert Find(a, i) == Find(b, i);
      }
    } else if forall i | i in info.required :: !Missed(info, s, call, i) {
      SameLookups(a, b, info.required);
    }
  }

  /**
   A successful call on a lazily created kernel that requires input shapes runs a kernel created from exactly this
   call's shapes and constants if and only if no constant changed in a way the comparison does not look at.
   */
  lemma ComputeIsFreshIff(info: Info, s: State, call: Call)
    requires Recorded(info, s) && info.requiresShapes
    requires var ready := if NeedsInit(s) then Initialized(info, s, call) else s;
             0 < |ready.inputShapes| && InRange(info, |ready.inputShapes|)
    requires ComputeStep(info, s, call).ran.Some?
    ensures var r := ComputeStep(info, s, call);
            r.ran == Some(Fresh(info, call))
            <==> forall i | i in info.required :: !Missed(info, r.state, call, i)
    ensures NeedsInit(s) ==> ComputeStep(info, s, call).ran == Some(Fresh(info, call))
  {
    var r := ComputeStep(info, s, call);
    ComputeKeepsRecord(info, s, call);
    if UsesTemporary(info, r.state, call) {
      CollectedIsFresh(info, r.state, call);
    } else {
      StoredIsFresh(info, r.state, call);
    }
    if NeedsInit(s) {
      assert r.state.kernel == Some(Fresh(info, call));
    }
  }

  /** The stored kernel is created once and never altered, by temporary kernels or by anything else. */
  lemma ComputeKeepsRecord(info: Info, s: State, call: Call)
    requires Recorded(info, s)
    ensures var r := ComputeStep(info, s, call).state;
            && Recorded(info, r)
            && (s.kernel.Some? ==> r == s)
            && (s.kernel.None? ==> (r.kernel.Some? <==> call.createOk))
            && (r.kernel.Some? && s.kernel.None? ==> r.kernel == Some(Fresh(info, call)))
  {
  }

  /**
   A call succeeds exactly if running its kernel does and every kernel it needs can be created: the first one, or one of
   its own when it cannot use the stored one.
   */
  lemma ComputeSucceedsIff(info: Info, s: State, call: Call)
    requires s.kernel.Some? || s.lazy
    ensures ComputeStep(info, s, call).ran.Some?
            <==> call.runOk && (call.createOk || (s.kernel.Some? && !UsesTemporary(info, s, call)))
  {
    hide UsesTemporary, Active, Initialized;
  }

  /** When nothing has changed unseen, a kernel is made for one call only if the stored one is not that call's own. */
  lemma TemporaryIff(info: Info, s: State, call: Call)
    requires Recorded(info, s) && s.kernel.Some? && InRange(info, |s.inputShapes|) && ChecksCall(info, s)
    requires forall i | i in info.required ::
               Find(s.kernel.value.constants, i) == Lookup(info, call, i)
               || (IsCpu(Find(s.kernel.value.constants, i)) && IsCpu(Lookup(info, call, i)))
    ensures UsesTemporary(info, s, call) <==> s.kernel.value != Fresh(info, call)
  {
    var stored := s.kernel.value;
    if !UsesTemporary(info, s, call) {
      StoredIsFresh(info, s, call);
    } else if ShapesOf(call) == s.inputShapes {
      var k :| 0 <= k < |info.required| && info.required[k] < |s.contents|
               && Changed(s.contents[info.required[k]], CollectedAt(info, s, call, info.required[k]));
      var i := info.required[k];
      assert i in info.required;
      assert s.contents[i] == Snapshot(Find(stored.constants, i));
      assert Find(ConstantsOf(info, call), i) == Lookup(info, call, i);
    }
  }

  // ----- runs -----

  const LAZY := State(true, None, [], [], 0)

  /** The state that a kernel in state `start` is in after the given calls. */
  function RunFrom(info: Info, start: State, calls: seq<Call>): (s: State)
    requires start.kernel.Some? || start.lazy
    ensures s.kernel.Some? || s.lazy
    ensures Recorded(info, start) ==> Recorded(info, s)
  {
    if calls == [] then start
    else ComputeStep(info, RunFrom(info, start, calls[..|calls| - 1]), calls[|calls| - 1]).state
  }

  function RunState(info: Info, calls: seq<Call>): State
    ensures Recorded(info, RunState(info, calls))
  {
    RunFrom(info, LAZY, calls)
  }

  /** The result of call `n` of a run. */
  function Ran(info: Info, calls: seq<Call>, n: nat): Option<Kernel>
    requires n < |calls|
  {
    ComputeStep(info, RunState(info, calls[..n]), calls[n]).ran
  }

  /** Every call has inputs and brings every required constant, in CPU memory. */
  ghost predicate WellSupplied(info: Info, call: Call)
  {
    && 0 < |call.dims| && InRange(info, |call.dims|)
    && forall i | i in info.required :: IsCpu(Lookup(info, call, i))
  }

  ghost predicate AllSupplied(info: Info, calls: seq<Call>)
  {
    forall k | 0 <= k < |calls| :: WellSupplied(info, calls[k])
  }

  lemma {:induction false} StoredFromSomeCall(info: Info, calls: seq<Call>)
    requires AllSupplied(info, calls)
    ensures var s := RunState(info, calls);
            s.kernel.Some? ==> exists k :: 0 <= k < |calls| && s.kernel == Some(Fresh(info, calls[k]))
  {
    if calls != [] {
      var n := |calls| - 1;
      StoredFromSomeCall(info, calls[..n]);
      ComputeKeepsRecord(info, RunState(info, calls[..n]), calls[n]);
      if k :| 0 <= k < n && RunState(info, calls[..n]).kernel == Some(Fresh(info, calls[..n][k])) {
        assert calls[k] == calls[..n][k];
      }
    }
  }

  /** A stored kernel was made from CPU constants, and so is every call's own. */
  lemma StoredFromCpu(info: Info, calls: seq<Call>, n: nat, i: nat)
    requires AllSupplied(info, calls) && n < |calls| && i in info.required
    requires RunState(info, calls[..n]).kernel.Some?
    ensures IsCpu(Find(RunState(info, calls[..n]).kernel.value.constants, i)) && IsCpu(Lookup(info, calls[n], i))
  {
    assert WellSupplied(info, calls[n]) && AllSupplied(info, calls[..n]);
    StoredFromSomeCall(info, calls[..n]);
    var k :| 0 <= k < n && RunState(info, calls[..n]).kernel == Some(Fresh(info, calls[..n][k]));
    assert WellSupplied(info, calls[k]);
    assert i in ConstantsOf(info, calls[k]);
  }

  /**
   Over every sequence of calls on a lazily created kernel that requires input shapes, whose required constants are all
   present in CPU memory, each call runs the kernel that this call alone would create. It fails only if running fails,
   or if creating fails and the first kernel created is not this call's own.
   */
  lemma EveryCallRunsItsOwnKernel(info: Info, calls: seq<Call>, n: nat)
    requires info.requiresShapes && AllSupplied(info, calls) && n < |calls|
    ensures var own := Some(Fresh(info, calls[n]));
            Ran(info, calls, n)
            == if calls[n].runOk && (calls[n].createOk || FirstCreated(info, calls[..n]) == own) then own else None
  {
    var s := RunState(info, calls[..n]);
    var call := calls[n];
    assert WellSupplied(info, call);
    ComputeKeepsRecord(info, s, call);
    ComputeSucceedsIff(info, s, call);
    StoredIsFirst(info, LAZY, calls[..n]);
    if s.kernel.Some? {
      forall i | i in info.required
        ensures !Missed(info, s, call, i)
        ensures IsCpu(Find(s.kernel.value.constants, i)) && IsCpu(Lookup(info, call, i))
      {
        StoredFromCpu(info, calls, n, i);
      }
      StoredHasInputs(info, calls, n);
      TemporaryIff(info, s, call);
    }
    if Ran(info, calls, n).Some? {
      ComputeIsFreshIff(info, s, call);
    }
  }

  lemma StoredHasInputs(info: Info, calls: seq<Call>, n: nat)
    requires AllSupplied(info, calls) && n < |calls| && RunState(info, calls[..n]).kernel.Some?
    ensures var s := RunState(info, calls[..n]); 0 < |s.inputShapes| && InRange(info, |s.inputShapes|)
  {
    assert AllSupplied(info, calls[..n]);
    StoredFromSomeCall(info, calls[..n]);
    var k :| 0 <= k < n && RunState(info, calls[..n]).kernel == Some(Fresh(info, calls[..n][k]));
    assert WellSupplied(info, calls[k]);
  }

  /** Once a kernel is stored, it and what is recorded about it stay for the rest of the run. */
  lemma {:induction false} StoredKernelNeverChanges(info: Info, calls: seq<Call>, m: nat, n: nat)
    requires m <= n <= |calls| && RunState(info, calls[..m]).kernel.Some?
    ensures RunState(info, calls[..n]) == RunState(info, calls[..m])
    ensures RunState(info, calls[..n]).created == 1
    decreases n
  {
    hide ComputeStep;
    if m < n {
      StoredKernelNeverChanges(info, calls, m, n - 1);
      assert calls[..n][..n - 1] == calls[..n - 1];
      ComputeKeepsRecord(info, RunState(info, calls[..n - 1]), calls[n - 1]);
    }
  }

  // ----- where the comparison stops -----

  /** What eager creation leaves behind: no recorded shapes and no snapshots. */
  function Eager(kernel: Kernel): State
  {
    State(false, Some(kernel), [], [], 1)
  }

  /** The kernel for the first call whose creation succeeds. */
  function FirstCreated(info: Info, calls: seq<Call>): Option<Kernel>
  {
    if calls == [] then None
    else
      var earlier := FirstCreated(info, calls[..|calls| - 1]);
      var last := calls[|calls| - 1];
      if earlier.Some? then earlier else if last.createOk then Some(Fresh(info, last)) else None
  }

  /** What is stored is the kernel that was there from the start, or else the first one created. */
  lemma {:induction false} StoredIsFirst(info: Info, start: State, calls: seq<Call>)
    requires start.kernel.Some? || start == LAZY
    ensures var s := RunFrom(info, start, calls);
            && s.kernel == (if start.kernel.Some? then start.kernel else FirstCreated(info, calls))
            && (start.kernel.Some? ==> s == start)
  {
    if calls != [] {
      StoredIsFirst(info, start, calls[..|calls| - 1]);
      hide UsesTemporary, Active, ConstantsOf, ShapesOf;
    }
  }

  /** The call asks for the shapes and the required constants that the kernel was made for. */
  ghost predicate AsksFor(info: Info, call: Call, kernel: Kernel)
  {
    && ShapesOf(call) == kernel.shapes
    && forall i | i in info.required :: Lookup(info, call, i) == Find(kernel.constants, i)
  }

  lemma AsksForFresh(info: Info, call: Call, kernel: Kernel)
    requires forall i | i in kernel.constants :: i in info.required
    ensures kernel == Fresh(info, call) <==> AsksFor(info, call, kernel)
  {
    var constants := ConstantsOf(info, call);
    assert forall i | i in info.required :: Find(constants, i) == Lookup(info, call, i);
    if AsksFor(info, call, kernel) {
      SameLookups(kernel.constants, constants, info.required);
    }
  }

  /** Calls are not compared with the stored kernel: it was created eagerly, or does not depend on input shapes. */
  ghost predicate Unchecked(info: Info, start: State)
  {
    || (start == LAZY && !info.requiresShapes)
    || exists kernel: Kernel :: start == Eager(kernel) && forall i | i in kernel.constants :: i in info.required
  }

  function RanFrom(info: Info, start: State, calls: seq<Call>, n: nat): Option<Kernel>
    requires (start.kernel.Some? || start.lazy) && n < |calls|
  {
    ComputeStep(info, RunFrom(info, start, calls[..n]), calls[n]).ran
  }

  /**
   Over every run without comparison, a call that the runtime can run runs the kernel of the eager creation, or the one
   for the first call whose creation succeeded, if there is one. That is the kernel for this call exactly if it asks for
   the same shapes and constants.
   */
  lemma UncheckedIsFreshIff(info: Info, start: State, calls: seq<Call>, n: nat)
    requires Unchecked(info, start) && n < |calls|
    ensures var stored := if start.kernel.Some? then start.kernel else FirstCreated(info, calls[..n + 1]);
            && RanFrom(info, start, calls, n) == (if calls[n].runOk then stored else None)
            && (stored.Some? ==> (stored == Some(Fresh(info, calls[n])) <==> AsksFor(info, calls[n], stored.value)))
  {
    StoredIsFirst(info, start, calls[..n]);
    assert calls[..n + 1][..n] == calls[..n];
    var stored := if start.kernel.Some? then start.kernel else FirstCreated(info, calls[..n + 1]);
    if stored.Some? {
      if start.kernel.None? {
        FirstNeedsRequired(info, calls[..n + 1]);
      }
      AsksForFresh(info, calls[n], stored.value);
    }
    hide AsksFor, ConstantsOf, ShapesOf, Lookup;
  }

  lemma {:induction false} FirstNeedsRequired(info: Info, calls: seq<Call>)
    requires FirstCreated(info, calls).Some?
    ensures forall i | i in FirstCreated(info, calls).value.constants :: i in info.required
  {
    if FirstCreated(info, calls[..|calls| - 1]).Some? {
      FirstNeedsRequired(info, calls[..|calls| - 1]);
    }
  }

  /**
   Eager creation takes place when the graph itself fixes the input shapes and provides every required constant. Then
   every call brings just these, and runs a kernel of its own.
   */
  lemma EagerCallsAreFresh(info: Info, kernel: Kernel, calls: seq<Call>, n: nat)
    requires forall i | i in info.required :: i in info.fixedConstants
    requires kernel.constants == map i | i in info.required :: info.fixedConstants[i]
    requires n < |calls| && ShapesOf(calls[n]) == kernel.shapes
    ensures RanFrom(info, Eager(kernel), calls, n) == if calls[n].runOk then Some(Fresh(info, calls[n])) else None
  {
    assert Unchecked(info, Eager(kernel));
    UncheckedIsFreshIff(info, Eager(kernel), calls, n);
    assert AsksFor(info, calls[n], kernel);
  }

  /** An operator registered as independent of input shapes would keep a kernel made for another constant. None is. */
  lemma StaleWithoutShapes()
    ensures var info := Info(false, [0], map[]);
            var first := Call([Some([1])], map[0 := CpuTensor([1], 7, [5])], true, true);
            var second := Call([Some([1])], map[0 := CpuTensor([1], 7, [6])], true, true);
            Ran(info, [first, second], 1) == Some(Fresh(info, first)) != Some(Fresh(info, second))
  {
    var info := Info(false, [0], map[]);
    var first := Call([Some([1])], map[0 := CpuTensor([1], 7, [5])], true, true);
    var second := Call([Some([1])], map[0 := CpuTensor([1], 7, [6])], true, true);
    var calls := [first, second];
    assert calls[..1] == [first] && [first][..0] == [];
    assert RunState(info, []) == LAZY;
    assert RunState(info, calls[..1]) == Initialized(info, LAZY, first);
    assert 0 in ConstantsOf(info, first) && 0 in ConstantsOf(info, second);
  }

  /** A constant that moves to GPU memory, or out of it, goes unnoticed. */
  lemma ValidityMismatchGoesUnnoticed()
    ensures var info := Info(true, [0], map[]);
            var first := Call([Some([1])], map[0 := CpuTensor([1], 7, [5])], true, true);
            var second := Call([Some([1])], map[0 := GpuTensor(3)], true, true);
            Ran(info, [first, second], 1) == Some(Fresh(info, first)) != Some(Fresh(info, second))
  {
    var info := Info(true, [0], map[]);
    var first := Call([Some([1])], map[0 := CpuTensor([1], 7, [5])], true, true);
    var second := Call([Some([1])], map[0 := GpuTensor(3)], true, true);
    var calls := [first, second];
    assert calls[..1] == [first] && [first][..0] == [];
    var s := RunState(info, calls[..1]);
    assert RunState(info, []) == LAZY;
    assert s == Initialized(info, LAZY, first);
    assert 0 in ConstantsOf(info, first) && 0 in ConstantsOf(info, second);
    assert ShapesOf(first) == ShapesOf(second);
    assert !UsesTemporary(info, s, second);
  }

  // ----- the object -----

  class AbiKernel {
    const info: Info
    var needsLazyInit: bool
    var kernel: Option<Kernel>
    var inputShapes: seq<Shape>
    var contents: seq<Content>
    /** How often a kernel was stored. */
    ghost var created: nat

    ghost function Abstract(): State
      reads this
    {
      State(needsLazyInit, kernel, inputShapes, contents, created)
    }

    /**
     Creation is deferred when a required constant was not supplied or when required shapes are not known yet. The
     constants have been moved away by the time the snapshots would be taken, so an eager kernel records none.
     */
    constructor Create(info: Info, constants: map<nat, Tensor>, shapesKnown: bool, shapes: seq<Shape>)
      ensures this.info == info
      ensures var eager := (forall i | i in info.required :: i in constants) && (shapesKnown || !info.requiresShapes);
              Abstract() == if eager then Eager(Kernel(shapes, constants)) else LAZY
    {
      var available := true;
      for k := 0 to |info.required|
        invariant available <==> forall j | 0 <= j < k :: info.required[j] in constants
      {
        if info.required[k] !in constants {
          available := false;
        }
      }
      var lazy := !available || (info.requiresShapes && !shapesKnown);
      this.info, needsLazyInit, inputShapes, contents := info, lazy, [], [];
      kernel := if lazy then None else Some(Kernel(shapes, constants));
      created := if lazy then 0 else 1;
    }

    method CollectShapes(call: Call) returns (shapes: seq<Shape>)
      ensures shapes == ShapesOf(call)
    {
      shapes := [];
      for i := 0 to |call.dims|
        invariant |shapes| == i && forall j | 0 <= j < i :: shapes[j] == ShapesOf(call)[j]
      {
        shapes := shapes + [if call.dims[i].Some? then Clamp(call.dims[i].value) else []];
      }
    }

    /** With `restore`, a constant that cannot be fetched is taken from its snapshot. */
    method CollectConstants(call: Call, restore: bool) returns (constants: map<nat, Tensor>)
      ensures constants == if restore then Collected(info, Abstract(), call) else ConstantsOf(info, call)
    {
      constants := map[];
      var required := info.required;
      for k := 0 to |required|
        invariant forall i :: i in constants ==> i in required[..k]
        invariant forall i | i in required[..k] ::
                    Find(constants, i)
                    == if restore then CollectedAt(info, Abstract(), call, i) else Lookup(info, call, i)
      {
        var i := required[k];
        assert required[..k + 1] == required[..k] + [i];
        var found := Lookup(info, call, i);
        if found.Some? {
          constants := constants[i := found.value];
        } else if restore && i < |contents| && contents[i].isValid {
          constants := constants[i := Restored(contents[i])];
        }
      }
      assert required[..|required|] == required;
      SameLookups(constants, if restore then Collected(info, Abstract(), call) else ConstantsOf(info, call), required);
    }

    method TakeSnapshots(constants: map<nat, Tensor>, count: nat) returns (snapshots: seq<Content>)
      ensures snapshots == Snapshots(info.required, constants, count)
    {
      snapshots := seq(count, _ => INVALID);
      var required := info.required;
      for k := 0 to |required|
        invariant |snapshots| == count
        invariant forall i | 0 <= i < count ::
                    snapshots[i] == if i in required[..k] then Snapshot(Find(constants, i)) else INVALID
      {
        assert required[..k + 1] == required[..k] + [required[k]];
        var i: nat := required[k];
        if i < count && i in constants {
          snapshots := snapshots[i := Snapshot(Some(constants[i]))];
        }
      }
      assert required[..|required|] == required;
    }

    method AnyConstantChanged(constants: map<nat, Tensor>) returns (changed: bool)
      ensures changed <==> exists k :: 0 <= k < |info.required| && info.required[k] < |contents|
                                       && Changed(contents[info.required[k]], Find(constants, info.required[k]))
    {
      changed := false;
      for k := 0 to |info.required|
        invariant !changed
        invariant !exists j :: 0 <= j < k && info.required[j] < |contents|
                               && Changed(contents[info.required[j]], Find(constants, info.required[j]))
      {
        var i := info.required[k];
        if |contents| <= i {
          continue;
        }
        if Changed(contents[i], Find(constants, i)) {
          return true;
        }
      }
    }

    /** The kernel that ran, or None if the call failed. */
    method Compute(call: Call) returns (ran: Option<Kernel>)
      requires kernel.Some? || needsLazyInit
      modifies this
      ensures ComputeStep(info, old(Abstract()), call) == Outcome(Abstract(), ran)
    {
      hide Changed, Find, CollectedAt, Collected, ConstantsOf, ConstantsChanged, Snapshots, ShapesOf;
      if needsLazyInit && kernel.None? {
        var shapes := CollectShapes(call);
        var constants := CollectConstants(call, false);
        var snapshots := TakeSnapshots(constants, |call.dims|);
        if !call.createOk {
          return None;
        }
        kernel := Some(Kernel(shapes, constants));
        needsLazyInit := false;
        inputShapes, contents, created := shapes, snapshots, created + 1;
      }
      if info.requiresShapes && 0 < |inputShapes| && !needsLazyInit {
        var shapes := CollectShapes(call);
        var shapesChanged := shapes != inputShapes;
        var constants: map<nat, Tensor> := map[];
        var constantsChanged := false;
        if !shapesChanged && contents != [] {
          constants := CollectConstants(call, true);
          constantsChanged := AnyConstantChanged(constants);
          ChangedAmongCollected(Abstract(), call, constantsChanged);
        }
        if shapesChanged || constantsChanged {
          if shapesChanged {
            constants := CollectConstants(call, true);
          }
          if !call.createOk {
            return None;
          }
          return if call.runOk then Some(Kernel(shapes, constants)) else None;
        }
      }
      ran := if call.runOk then kernel else None;
    }

    lemma ChangedAmongCollected(s: State, call: Call, changed: bool)
      requires changed <==> exists k :: 0 <= k < |info.required| && info.required[k] < |s.contents|
                                        && Changed(s.contents[info.required[k]],
                                                   Find(Collected(info, s, call), info.required[k]))
      ensures changed <==> ConstantsChanged(info, s, call)
    {
      hide Changed, CollectedAt;
      forall k | 0 <= k < |info.required|
        ensures Find(Collected(info, s, call), info.required[k]) == CollectedAt(info, s, call, info.required[k])
      {
      }
    }
  }
}
