/**
 The upload heap, the execution context and the GPU together: over every run, whatever the GPU reads out of the staging
 memory is what the caller handed to BeginUploadToGpu.
 */
module UploadSafety {
  import opened Common
  import opened UploadRing
  import opened UploadHeap
  import opened CommandStream
  import ExecutionContext

  /** Bytes that go to a place in a buffer of the GPU. */
  datatype Transfer = Transfer(dst: Resource, dstOffset: nat, bytes: seq<byte>)

  /**
   `expected[k]` holds what the k-th issued command was meant to transfer, if it is the copy of an upload; `observed[k]`
   holds where the GPU wrote when it ran that command, and the bytes it found in staging memory.
   */
  datatype System = System(ctx: Context, heap: Heap, expected: seq<Option<Transfer>>, observed: seq<Option<Transfer>>)

  const START := System(INITIAL, Heap([], 0, map[], 0), [], [])

  predicate ReadsStaging(cmd: Command)
  {
    cmd.Copy? && cmd.src.Staging?
  }

  /** The GPU's view: reading a released buffer, or past its end, yields nothing. */
  function Observe(memory: Memory, cmd: Command): Option<Transfer>
  {
    if ReadsStaging(cmd) && cmd.src.id in memory && cmd.srcOffset + cmd.count <= |memory[cmd.src.id]|
    then Some(Transfer(cmd.dst, cmd.dstOffset, Slice(memory[cmd.src.id], cmd.srcOffset, cmd.count))) else None
  }

  // ----- steps -----

  datatype Event =
    | Upload(dst: nat, dstOffset: nat, dstState: set<Flag>, data: seq<byte>)
    | Other(step: CommandStream.Event)
    | GpuRuns
    | Trim

  /** A step of the recording side that does not read staging memory. */
  ghost predicate Foreign(step: CommandStream.Event)
  {
    step != Execute && forall cmd | cmd in IssuedBy(step) :: !ReadsStaging(cmd)
  }

  /** An upload, of zero bytes too, can be placed by the heap as it is, and no other command reads staging memory. */
  ghost predicate Legal(s: System, e: Event)
  {
    match e
    case Upload(_, _, _, data) => Uploadable(s.heap, s.ctx.completed, |data|)
    case Other(step) => Foreign(step)
    case _ => true
  }

  function NoBytes(n: nat): (r: seq<Option<Transfer>>)
    ensures |r| == n && forall i | 0 <= i < n :: r[i] == None
  {
    seq(n, _ => None)
  }

  /** What an upload is for. */
  function TransferOf(e: Event): Transfer
    requires e.Upload?
  {
    Transfer(Buffer(e.dst), e.dstOffset, e.data)
  }

  /** What each of the recorded commands is meant to transfer. */
  function Payload(commands: seq<Command>, t: Transfer): (r: seq<Option<Transfer>>)
    ensures |r| == |commands|
    ensures forall i | 0 <= i < |r| :: r[i] == if ReadsStaging(commands[i]) then Some(t) else None
  {
    seq(|commands|, i requires 0 <= i < |commands| => if ReadsStaging(commands[i]) then Some(t) else None)
  }

  function Uploaded(s: System, e: Event): System
    requires SystemInv(s) && e.Upload? && Legal(s, e)
  {
    UploadKeepsHeap(s.heap, s.ctx.completed, e.data, |s.ctx.history| + 1);
    var r := ReservationAt(s.heap, s.ctx.completed, |e.data|);
    var commands := UploadCommands(r, Buffer(e.dst), e.dstOffset, e.dstState, |e.data|);
    var ctx := Record(s.ctx, commands);
    System(ctx, Stage(r, e.data, CompletionFence(ctx)), s.expected + Payload(commands, TransferOf(e)), s.observed)
  }

  function Next(s: System, e: Event): System
    requires SystemInv(s) && Legal(s, e)
  {
    match e
    case Upload(_, _, _, _) => Uploaded(s, e)
    case Other(step) => s.(ctx := Step(s.ctx, step), expected := s.expected + NoBytes(|IssuedBy(step)|))
    case GpuRuns =>
      if CanExecute(s.ctx) then
        var cmd := Flatten(s.ctx.history)[s.ctx.executed];
        s.(ctx := GpuExecute(s.ctx), observed := s.observed + [Observe(s.heap.memory, cmd)])
      else s
    case Trim => s.(heap := Trimmed(s.heap, s.ctx.completed))
  }

  // ----- invariant -----

  /** Allocation `a` of chunk `i` holds the bytes of `t` for its command, which is among the first `n` issued ones. */
  ghost predicate HeldAt(h: Heap, c: Context, cmd: Command, n: nat, t: Transfer, i: nat, a: nat)
  {
    && i < |h.chunks| && a < |h.chunks[i].allocations|
    && var chunk, live := h.chunks[i], h.chunks[i].allocations[a];
    && cmd.Copy? && cmd.src == Staging(chunk.resource)
    && cmd.dst == t.dst && cmd.dstOffset == t.dstOffset
    && cmd.srcOffset == live.offset && cmd.count == live.size == |t.bytes|
    && n <= CoveredBy(c, live.fence)
    && chunk.resource in h.memory && live.End() <= |h.memory[chunk.resource]|
    && Slice(h.memory[chunk.resource], live.offset, live.size) == t.bytes
  }

  ghost predicate Held(h: Heap, c: Context, cmd: Command, n: nat, t: Transfer)
  {
    exists i: nat, a: nat :: HeldAt(h, c, cmd, n, t, i, a)
  }

  /** Every command still to run finds its bytes in staging memory. */
  ghost predicate PendingHeld(s: System)
    requires |s.expected| == |Issued(s.ctx)|
  {
    forall k | s.ctx.executed <= k < |s.expected| ::
      if s.expected[k].Some? then Held(s.heap, s.ctx, Issued(s.ctx)[k], k + 1, s.expected[k].value)
      else !ReadsStaging(Issued(s.ctx)[k])
  }

  ghost predicate SystemInv(s: System)
  {
    && Inv(s.ctx) && HeapInv(s.heap) && FencesBounded(s.heap, |s.ctx.history| + 1)
    && |s.expected| == |Issued(s.ctx)| && s.ctx.executed <= |s.expected|
    && s.observed == s.expected[..s.ctx.executed]
    && PendingHeld(s)
  }

  lemma ExecutedIsIssued(c: Context)
    requires Inv(c)
    ensures c.executed <= |Flatten(c.history)| <= |Issued(c)|
    ensures forall k | 0 <= k < |Flatten(c.history)| :: Flatten(c.history)[k] == Issued(c)[k]
  {
  }

  // ----- what keeps the bytes in place -----

  /** An allocation with an unexecuted command is not signaled, so reclaiming keeps it. */
  lemma ReclaimKeepsHeld(h: Heap, c: Context, cmd: Command, n: nat, t: Transfer)
    requires Inv(c) && HeapInv(h) && Held(h, c, cmd, n, t) && c.executed < n
    ensures Held(h.(chunks := ReclaimAll(h.chunks, c.completed)), c, cmd, n, t)
  {
    hide Layout, Flatten, Issued, RefsSorted;
    var i: nat, a: nat :| HeldAt(h, c, cmd, n, t, i, a);
    var live := h.chunks[i].allocations;
    var rest := Reclaimed(live, c.completed);
    var dropped := |live| - |rest|;
    if a < dropped {
      SignaledMeansExecuted(c, live[a].fence);
    }
    assert rest[a - dropped] == live[a];
    assert HeldAt(h.(chunks := ReclaimAll(h.chunks, c.completed)), c, cmd, n, t, i, a - dropped);
  }

  lemma ReserveKeepsHeld(h: Heap, size: nat, c: Context, cmd: Command, n: nat, t: Transfer)
    requires HeapInv(h) && size <= MAX_CHUNK_SIZE && !Misplaced(h, size) && Held(h, c, cmd, n, t)
    ensures Held(Reserve(h, size).heap, c, cmd, n, t)
  {
    hide Layout, Reserve, FencesSorted, Placeable, CoveredBy, Misplaced;
    ReserveKeepsHeap(h, size, 0);
    var i: nat, a: nat :| HeldAt(h, c, cmd, n, t, i, a);
    assert HeldAt(Reserve(h, size).heap, c, cmd, n, t, i, a);
  }

  /** The memcpy of a new upload goes to a region disjoint from all live allocations. */
  lemma StageKeepsHeld(r: Reservation, data: seq<byte>, fence: nat, c: Context, cmd: Command, n: nat, t: Transfer)
    requires HeapInv(r.heap) && r.index < |r.heap.chunks|
    requires Placeable(r.heap.chunks[r.index], |data|, r.offset, fence)
    requires r.offset + |data| <= r.heap.chunks[r.index].capacity
    requires Held(r.heap, c, cmd, n, t)
    ensures Held(Stage(r, data, fence), c, cmd, n, t)
  {
    hide HeapInv, Layout, FencesSorted, Placeable, Overwrite, Slice, CoveredBy;
    var i: nat, a: nat :| HeldAt(r.heap, c, cmd, n, t, i, a);
    DistinctResources(r.heap);
    ChunkInHeap(r.heap, r.index);
    var chunk := r.heap.chunks[r.index];
    if i == r.index {
      PushedIsApart(chunk, a, Allocation(|data|, r.offset, fence));
      OverwriteFrame(r.heap.memory[chunk.resource], r.offset, data, cmd.srcOffset, cmd.count);
    }
    assert HeldAt(Stage(r, data, fence), c, cmd, n, t, i, a);
  }

  lemma PushedIsApart(chunk: Chunk, a: nat, pushed: Allocation)
    requires a < |chunk.allocations| && Placeable(chunk, pushed.size, pushed.offset, pushed.fence)
    ensures Disjoint(chunk.allocations[a], pushed)
  {
    hide Layout;
    assert Push(chunk, pushed).allocations[a] == chunk.allocations[a];
    RingDisjoint(Push(chunk, pushed), a, |chunk.allocations|);
  }

  lemma NewlyHeld(r: Reservation, data: seq<byte>, c: Context, fence: nat, cmd: Command, n: nat)
    requires r.index < |r.heap.chunks| && r.heap.chunks[r.index].resource in r.heap.memory
    requires r.offset + |data| <= |r.heap.memory[r.heap.chunks[r.index].resource]|
    requires cmd.Copy? && cmd.src == Staging(r.heap.chunks[r.index].resource)
    requires cmd.srcOffset == r.offset && cmd.count == |data| && n <= CoveredBy(c, fence)
    ensures Held(Stage(r, data, fence), c, cmd, n, Transfer(cmd.dst, cmd.dstOffset, data))
  {
    hide CoveredBy;
    var t := Transfer(cmd.dst, cmd.dstOffset, data);
    assert HeldAt(Stage(r, data, fence), c, cmd, n, t, r.index, |r.heap.chunks[r.index].allocations|);
  }

  lemma AdvanceKeepsHeld(h: Heap, c: Context, d: Context, cmd: Command, n: nat, t: Transfer)
    requires Advances(c, d) && FencesBounded(h, |c.history| + 1) && Held(h, c, cmd, n, t)
    ensures Held(h, d, cmd, n, t)
  {
    var i: nat, a: nat :| HeldAt(h, c, cmd, n, t, i, a);
    CoverGrows(c, d, h.chunks[i].allocations[a].fence);
    hide CoveredBy;
    assert HeldAt(h, d, cmd, n, t, i, a);
  }

  /** Trim keeps the chunk of every unexecuted copy, with its memory. */
  lemma TrimKeepsHeld(h: Heap, c: Context, cmd: Command, n: nat, t: Transfer)
    requires Inv(c) && HeapInv(h) && Held(h, c, cmd, n, t) && c.executed < n
    ensures Held(Trimmed(h, c.completed), c, cmd, n, t)
  {
    ReclaimKeepsHeld(h, c, cmd, n, t);
    var mid := h.(chunks := ReclaimAll(h.chunks, c.completed));
    assert Trimmed(h, c.completed).chunks == Occupied(mid.chunks);
    assert Trimmed(h, c.completed).memory == Retained(h.memory, Occupied(mid.chunks));
    hide *;
    OccupiedKeepsHeld(mid, Trimmed(h, c.completed), c, cmd, n, t);
  }

  /** Chunks with an allocation stay, with their memory. */
  lemma OccupiedKeepsHeld(h: Heap, d: Heap, c: Context, cmd: Command, n: nat, t: Transfer)
    requires Held(h, c, cmd, n, t)
    requires d.chunks == Occupied(h.chunks) && d.memory == Retained(h.memory, d.chunks)
    ensures Held(d, c, cmd, n, t)
  {
    hide Occupied, Retained, CoveredBy, Slice;
    var i: nat, a: nat :| HeldAt(h, c, cmd, n, t, i, a);
    assert h.chunks[i] in d.chunks;
    var k: nat :| k < |d.chunks| && d.chunks[k] == h.chunks[i];
    assert HeldAt(d, c, cmd, n, t, k, a);
  }

  // ----- every step keeps the invariant -----

  /** The region that an upload reserves has room for it. */
  lemma ReservationFits(h: Heap, completed: nat, size: nat, fence: nat)
    requires HeapInv(h) && Uploadable(h, completed, size)
    ensures var r := ReservationAt(h, completed, size);
            && HeapInv(r.heap) && Placeable(r.heap.chunks[r.index], size, r.offset, fence)
            && r.offset + size <= r.heap.chunks[r.index].capacity
  {
    hide HeapInv, Reserve, ReclaimAll, Placeable, Misplaced;
    ReclaimKeepsHeap(h, completed);
    ReserveKeepsHeap(h.(chunks := ReclaimAll(h.chunks, completed)), size, fence);
  }

  /** Reclaiming and reserving leave the bytes of an unexecuted copy in place. */
  lemma ReservationKeepsHeld(h: Heap, c: Context, size: nat, cmd: Command, n: nat, t: Transfer)
    requires Inv(c) && HeapInv(h) && Uploadable(h, c.completed, size) && Held(h, c, cmd, n, t) && c.executed < n
    ensures Held(ReservationAt(h, c.completed, size).heap, c, cmd, n, t)
  {
    hide Inv, HeapInv, Reserve, ReclaimAll, Held, Misplaced;
    ReclaimKeepsHeap(h, c.completed);
    ReclaimKeepsHeld(h, c, cmd, n, t);
    ReserveKeepsHeld(h.(chunks := ReclaimAll(h.chunks, c.completed)), size, c, cmd, n, t);
  }

  /** What the invariant says about context and heap. */
  lemma SystemParts(s: System)
    requires SystemInv(s)
    ensures Inv(s.ctx) && HeapInv(s.heap) && FencesBounded(s.heap, |s.ctx.history| + 1)
  {
    hide Inv, HeapInv, PendingHeld, FencesBounded, Issued;
  }

  /** An upload stages its bytes with the fence of the next submission, and the stream only grows. */
  lemma UploadStages(s: System, e: Event)
    requires SystemInv(s) && e.Upload? && Legal(s, e)
    ensures var r, fence := ReservationAt(s.heap, s.ctx.completed, |e.data|), |s.ctx.history| + 1;
            && r.heap.chunks[r.index].resource in r.heap.memory
            && r.offset + |e.data| <= |r.heap.memory[r.heap.chunks[r.index].resource]|
            && Uploaded(s, e).heap == Stage(r, e.data, fence) && HeapInv(Uploaded(s, e).heap)
            && FencesBounded(Uploaded(s, e).heap, fence) && Advances(s.ctx, Uploaded(s, e).ctx)
  {
    hide SystemInv, Inv, HeapInv, FencesBounded, ReservationAt, Stage, Record, CompletionFence, Advances;
    hide UploadCommands;
    SystemParts(s);
    var fence := |s.ctx.history| + 1;
    UploadKeepsHeap(s.heap, s.ctx.completed, e.data, fence);
    var r := ReservationAt(s.heap, s.ctx.completed, |e.data|);
    var commands := UploadCommands(r, Buffer(e.dst), e.dstOffset, e.dstState, |e.data|);
    RecordedWorkFence(s.ctx, commands);
    RecordInv(s.ctx, commands);
  }

  lemma LegalUpload(s: System, e: Event)
    requires e.Upload? && Legal(s, e)
    ensures Uploadable(s.heap, s.ctx.completed, |e.data|)
  {
  }

  lemma UploadHoldsOld(s: System, e: Event, k: nat)
    requires SystemInv(s) && e.Upload? && Legal(s, e)
    requires s.ctx.executed <= k < |s.expected| == |Issued(s.ctx)| && s.expected[k].Some?
    ensures Held(Uploaded(s, e).heap, Uploaded(s, e).ctx, Issued(s.ctx)[k], k + 1, s.expected[k].value)
  {
    hide *;
    LegalUpload(s, e);
    var cmd, t, fence := Issued(s.ctx)[k], s.expected[k].value, |s.ctx.history| + 1;
    SystemParts(s);
    StillHeld(s, k);
    UploadStages(s, e);
    ReservationKeepsHeld(s.heap, s.ctx, |e.data|, cmd, k + 1, t);
    ReservationFits(s.heap, s.ctx.completed, |e.data|, fence);
    StageKeepsHeld(ReservationAt(s.heap, s.ctx.completed, |e.data|), e.data, fence, s.ctx, cmd, k + 1, t);
    AdvanceKeepsHeld(Uploaded(s, e).heap, s.ctx, Uploaded(s, e).ctx, cmd, k + 1, t);
  }

  /** The commands of an upload. */
  function CommandsOf(s: System, e: Event): seq<Command>
    requires e.Upload?
  {
    UploadCommands(ReservationAt(s.heap, s.ctx.completed, |e.data|), Buffer(e.dst), e.dstOffset, e.dstState, |e.data|)
  }

  /** An upload issues its commands, and nothing else changes in the stream. */
  lemma UploadIssues(s: System, e: Event)
    requires SystemInv(s) && e.Upload? && Legal(s, e)
    ensures var d := Uploaded(s, e);
            && Inv(d.ctx) && Issued(d.ctx) == Issued(s.ctx) + CommandsOf(s, e)
            && d.ctx.executed == s.ctx.executed && d.ctx.history == s.ctx.history
            && CoveredBy(d.ctx, |s.ctx.history| + 1) == |Issued(d.ctx)|
            && d.expected == s.expected + Payload(CommandsOf(s, e), TransferOf(e)) && d.observed == s.observed
  {
    hide SystemInv, Inv, HeapInv, FencesBounded, ReservationAt, Stage, CompletionFence, CoveredBy;
    hide UploadCommands, Issued;
    SystemParts(s);
    UploadKeepsHeap(s.heap, s.ctx.completed, e.data, |s.ctx.history| + 1);
    RecordedWorkFence(s.ctx, CommandsOf(s, e));
    RecordInv(s.ctx, CommandsOf(s, e));
  }

  /** A recorded command that reads staging memory finds the bytes of the upload there. */
  lemma UploadHoldsNew(s: System, e: Event, k: nat)
    requires SystemInv(s) && e.Upload? && Legal(s, e)
    requires k < |CommandsOf(s, e)| && ReadsStaging(CommandsOf(s, e)[k])
    ensures Held(Uploaded(s, e).heap, Uploaded(s, e).ctx, CommandsOf(s, e)[k], |Issued(s.ctx)| + k + 1,
                 TransferOf(e))
  {
    hide *;
    UploadIssues(s, e);
    UploadStages(s, e);
    var r := ReservationAt(s.heap, s.ctx.completed, |e.data|);
    StagingCommandReadsRegion(s, e, k);
    NewlyHeld(r, e.data, Uploaded(s, e).ctx, |s.ctx.history| + 1, CommandsOf(s, e)[k], |Issued(s.ctx)| + k + 1);
  }

  /** Command `k` finds its bytes after an upload, whether it was there before or belongs to the upload. */
  lemma UploadPendingAt(s: System, e: Event, k: nat)
    requires SystemInv(s) && e.Upload? && Legal(s, e)
    requires Uploaded(s, e).ctx.executed <= k < |Uploaded(s, e).expected| == |Issued(Uploaded(s, e).ctx)|
    ensures var d := Uploaded(s, e);
            if d.expected[k].Some? then Held(d.heap, d.ctx, Issued(d.ctx)[k], k + 1, d.expected[k].value)
            else !ReadsStaging(Issued(d.ctx)[k])
  {
    hide *;
    UploadIssues(s, e);
    IssuedCount(s);
    if k < |s.expected| {
      StillHeld(s, k);
      if s.expected[k].Some? {
        UploadHoldsOld(s, e, k);
      }
    } else if ReadsStaging(CommandsOf(s, e)[k - |s.expected|]) {
      UploadHoldsNew(s, e, k - |s.expected|);
    }
  }

  lemma UploadPending(s: System, e: Event)
    requires SystemInv(s) && e.Upload? && Legal(s, e)
    ensures |Uploaded(s, e).expected| == |Issued(Uploaded(s, e).ctx)| && PendingHeld(Uploaded(s, e))
  {
    hide Issued, CommandsOf, Held, Uploaded, ReadsStaging, SystemInv, Legal, Inv, CoveredBy;
    UploadIssues(s, e);
    IssuedCount(s);
    var d := Uploaded(s, e);
    forall k | d.ctx.executed <= k < |d.expected|
      ensures if d.expected[k].Some? then Held(d.heap, d.ctx, Issued(d.ctx)[k], k + 1, d.expected[k].value)
              else !ReadsStaging(Issued(d.ctx)[k])
    {
      UploadPendingAt(s, e, k);
    }
  }

  lemma UploadInv(s: System, e: Event)
    requires SystemInv(s) && e.Upload? && Legal(s, e)
    ensures SystemInv(Uploaded(s, e))
  {
    hide Inv, HeapInv, FencesBounded, Issued, CommandsOf, CoveredBy, Uploaded, PendingHeld, ReservationAt;
    hide Stage, Advances, Payload, Legal;
    ObservedSoFar(s);
    UploadPending(s, e);
    UploadIssues(s, e);
    UploadStages(s, e);
  }

  lemma StagingCommandReadsRegion(s: System, e: Event, k: nat)
    requires e.Upload? && k < |CommandsOf(s, e)| && ReadsStaging(CommandsOf(s, e)[k])
    ensures var r, cmd := ReservationAt(s.heap, s.ctx.completed, |e.data|), CommandsOf(s, e)[k];
            && cmd.Copy? && cmd.src == Staging(r.heap.chunks[r.index].resource)
            && cmd.srcOffset == r.offset && cmd.count == |e.data|
            && Transfer(cmd.dst, cmd.dstOffset, e.data) == TransferOf(e)
  {
    hide ReservationAt;
  }

  lemma OtherInv(s: System, step: CommandStream.Event)
    requires SystemInv(s) && Legal(s, Other(step))
    ensures SystemInv(Next(s, Other(step)))
  {
    hide Inv, HeapInv, Issued, Held, Step, Flatten, ReadsStaging, CoveredBy, IssuedBy;
    var d := Next(s, Other(step));
    StepInv(s.ctx, step);
    ExecutedIsIssued(d.ctx);
    OtherLeavesExecuted(s.ctx, step);
    assert FencesBounded(d.heap, |d.ctx.history| + 1);
    forall k | d.ctx.executed <= k < |d.expected|
      ensures if d.expected[k].Some? then Held(d.heap, d.ctx, Issued(d.ctx)[k], k + 1, d.expected[k].value)
              else !ReadsStaging(Issued(d.ctx)[k])
    {
      if k < |s.expected| {
        if s.expected[k].Some? {
          AdvanceKeepsHeld(s.heap, s.ctx, d.ctx, Issued(s.ctx)[k], k + 1, s.expected[k].value);
        }
      } else {
        assert Issued(d.ctx)[k] in IssuedBy(step);
      }
    }
  }

  lemma OtherLeavesExecuted(c: Context, step: CommandStream.Event)
    requires Inv(c) && step != Execute
    ensures Step(c, step).executed == c.executed
  {
  }

  lemma GpuRunsInv(s: System)
    requires SystemInv(s) && CanExecute(s.ctx)
    ensures var d := Next(s, GpuRuns);
            && SystemInv(d)
            && d.observed[s.ctx.executed] == d.expected[s.ctx.executed]
  {
    hide Inv, HeapInv, FencesBounded, Held, Flatten, Issued, Observe;
    var d := Next(s, GpuRuns);
    var k := s.ctx.executed;
    ExecutedIsIssued(s.ctx);
    GpuInv(s.ctx);
    var cmd := Issued(s.ctx)[k];
    assert cmd == Flatten(s.ctx.history)[k];
    if s.expected[k].Some? {
      HeldIsObserved(s.heap, s.ctx, cmd, k + 1, s.expected[k].value);
    } else {
      NothingObserved(s.heap.memory, cmd);
    }
    forall j | d.ctx.executed <= j < |d.expected| && d.expected[j].Some?
      ensures Held(d.heap, d.ctx, Issued(d.ctx)[j], j + 1, d.expected[j].value)
    {
      SameStreamHeld(s.heap, s.ctx, d.ctx, Issued(s.ctx)[j], j + 1, s.expected[j].value);
    }
  }

  lemma HeldIsObserved(h: Heap, c: Context, cmd: Command, n: nat, t: Transfer)
    requires Held(h, c, cmd, n, t)
    ensures Observe(h.memory, cmd) == Some(t)
  {
    var i: nat, a: nat :| HeldAt(h, c, cmd, n, t, i, a);
  }

  lemma NothingObserved(memory: Memory, cmd: Command)
    requires !ReadsStaging(cmd)
    ensures Observe(memory, cmd) == None
  {
  }

  lemma SameStreamHeld(h: Heap, c: Context, d: Context, cmd: Command, n: nat, t: Transfer)
    requires c.history == d.history && c.list == d.list && Held(h, c, cmd, n, t)
    ensures Held(h, d, cmd, n, t)
  {
    var i: nat, a: nat :| HeldAt(h, c, cmd, n, t, i, a);
    assert HeldAt(h, d, cmd, n, t, i, a);
  }

  lemma TrimInv(s: System)
    requires SystemInv(s)
    ensures SystemInv(Next(s, Trim))
  {
    hide Inv, HeapInv, FencesBounded, Held, Trimmed, Issued, Flatten, ReadsStaging;
    TrimKeepsHeap(s.heap, s.ctx.completed, |s.ctx.history| + 1);
    forall k | s.ctx.executed <= k < |s.expected| && s.expected[k].Some?
      ensures Held(Trimmed(s.heap, s.ctx.completed), s.ctx, Issued(s.ctx)[k], k + 1, s.expected[k].value)
    {
      TrimKeepsHeld(s.heap, s.ctx, Issued(s.ctx)[k], k + 1, s.expected[k].value);
    }
  }

  lemma NextInv(s: System, e: Event)
    requires SystemInv(s) && Legal(s, e)
    ensures SystemInv(Next(s, e))
  {
    hide SystemInv;
    match e
    case Upload(_, _, _, _) => UploadInv(s, e);
    case Other(step) => OtherInv(s, step);
    case GpuRuns =>
      if CanExecute(s.ctx) {
        GpuRunsInv(s);
      }
    case Trim => TrimInv(s);
  }

  // ----- runs -----

  /** Every event is legal in the state that it meets. */
  ghost predicate LegalRun(events: seq<Event>)
    decreases |events|, 0
  {
    events != [] ==>
      LegalRun(events[..|events| - 1]) && Legal(Run(events[..|events| - 1]), events[|events| - 1])
  }

  ghost function Run(events: seq<Event>): (s: System)
    requires LegalRun(events)
    ensures SystemInv(s)
    decreases |events|, 1
  {
    if events == [] then START
    else
      var before := Run(events[..|events| - 1]);
      NextInv(before, events[|events| - 1]);
      Next(before, events[|events| - 1])
  }

  // ----- runs without empty uploads -----

  /** What a caller can see without knowing the heap: nonempty uploads within the chunk limit. */
  ghost predicate Plain(e: Event)
  {
    match e
    case Upload(_, _, _, data) => 0 < |data| <= MAX_CHUNK_SIZE
    case Other(step) => Foreign(step)
    case _ => true
  }

  ghost predicate NoneEmpty(chunks: seq<Chunk>)
  {
    forall i, a | 0 <= i < |chunks| && 0 <= a < |chunks[i].allocations| :: 0 < chunks[i].allocations[a].size
  }

  lemma ReclaimLeavesNoneEmpty(chunks: seq<Chunk>, completed: nat)
    requires NoneEmpty(chunks)
    ensures NoneEmpty(ReclaimAll(chunks, completed))
  {
    hide Reclaimed;
    var after := ReclaimAll(chunks, completed);
    forall i, a | 0 <= i < |after| && 0 <= a < |after[i].allocations|
      ensures 0 < after[i].allocations[a].size
    {
      var live := chunks[i].allocations;
      assert after[i].allocations[a] == live[|live| - |after[i].allocations| + a];
    }
  }

  lemma NoneEmptyIsUploadable(h: Heap, completed: nat, size: nat)
    requires NoneEmpty(h.chunks) && size <= MAX_CHUNK_SIZE
    ensures Uploadable(h, completed, size)
  {
    hide ReclaimAll, FindOffset;
    ReclaimLeavesNoneEmpty(h.chunks, completed);
  }

  lemma ReserveLeavesNoneEmpty(h: Heap, size: nat)
    requires NoneEmpty(h.chunks)
    ensures NoneEmpty(Reserve(h, size).heap.chunks)
  {
    hide FindOffset, NewChunkSize;
  }

  lemma StageLeavesNoneEmpty(r: Reservation, data: seq<byte>, fence: nat)
    requires NoneEmpty(r.heap.chunks) && 0 < |data| && r.index < |r.heap.chunks|
    requires r.heap.chunks[r.index].resource in r.heap.memory
    requires r.offset + |data| <= |r.heap.memory[r.heap.chunks[r.index].resource]|
    ensures NoneEmpty(Stage(r, data, fence).chunks)
  {
    hide Overwrite;
  }

  lemma TrimLeavesNoneEmpty(h: Heap, completed: nat)
    requires NoneEmpty(h.chunks)
    ensures NoneEmpty(Trimmed(h, completed).chunks)
  {
    hide ReclaimAll, Occupied, Retained, TotalCapacity;
    ReclaimLeavesNoneEmpty(h.chunks, completed);
    var mid, kept := ReclaimAll(h.chunks, completed), Trimmed(h, completed).chunks;
    forall i, a | 0 <= i < |kept| && 0 <= a < |kept[i].allocations|
      ensures 0 < kept[i].allocations[a].size
    {
      assert kept[i] in mid;
    }
  }

  lemma NextLeavesNoneEmpty(s: System, e: Event)
    requires SystemInv(s) && Legal(s, e) && Plain(e) && NoneEmpty(s.heap.chunks)
    ensures NoneEmpty(Next(s, e).heap.chunks)
  {
    hide SystemInv, NoneEmpty, Stage, Trimmed, ReclaimAll, Reserve;
    match e
    case Upload(_, _, _, data) =>
      UploadStages(s, e);
      ReclaimLeavesNoneEmpty(s.heap.chunks, s.ctx.completed);
      ReserveLeavesNoneEmpty(s.heap.(chunks := ReclaimAll(s.heap.chunks, s.ctx.completed)), |data|);
      StageLeavesNoneEmpty(ReservationAt(s.heap, s.ctx.completed, |data|), data, |s.ctx.history| + 1);
    case Trim => TrimLeavesNoneEmpty(s.heap, s.ctx.completed);
    case _ =>
  }

  /** With nonempty uploads within the chunk limit a run never meets a misread chunk, so every such run is legal. */
  lemma {:induction false} PlainRunsAreLegal(events: seq<Event>)
    requires forall e | e in events :: Plain(e)
    ensures LegalRun(events) && NoneEmpty(Run(events).heap.chunks)
  {
    hide SystemInv, NoneEmpty, Next, Uploadable;
    if events == [] {
      NothingEmptyAtStart();
    } else {
      var front, last := events[..|events| - 1], events[|events| - 1];
      PlainRunsAreLegal(front);
      assert last in events;
      PlainIsLegal(Run(front), last);
      NextLeavesNoneEmpty(Run(front), last);
    }
  }

  lemma PlainIsLegal(s: System, e: Event)
    requires NoneEmpty(s.heap.chunks) && Plain(e)
    ensures Legal(s, e)
  {
    hide NoneEmpty, Uploadable;
    if e.Upload? {
      NoneEmptyIsUploadable(s.heap, s.ctx.completed, |e.data|);
    }
  }

  lemma NothingEmptyAtStart()
    ensures NoneEmpty(START.heap.chunks)
  {
  }

  // ----- what is uploaded and what is read -----

  /** The uploads among the first events, in order. */
  function Uploads(events: seq<Event>): seq<Transfer>
  {
    if events == [] then []
    else
      var last := events[|events| - 1];
      Uploads(events[..|events| - 1]) + if last.Upload? then [TransferOf(last)] else []
  }

  function Present(log: seq<Option<Transfer>>): seq<Transfer>
  {
    if log == [] then []
    else
      var last := log[|log| - 1];
      Present(log[..|log| - 1]) + if last.Some? then [last.value] else []
  }

  lemma {:induction false} PresentAppend(a: seq<Option<Transfer>>, b: seq<Option<Transfer>>)
    ensures Present(a + b) == Present(a) + Present(b)
    decreases |b|
  {
    if b == [] {
      assert a + b == a;
    } else {
      assert (a + b)[..|a + b| - 1] == a + b[..|b| - 1];
      PresentAppend(a, b[..|b| - 1]);
    }
  }

  lemma {:induction false} PresentNone(log: seq<Option<Transfer>>)
    requires forall i | 0 <= i < |log| :: log[i] == None
    ensures Present(log) == []
  {
    if log != [] {
      PresentNone(log[..|log| - 1]);
    }
  }

  lemma PayloadIsOneUpload(r: Reservation, dst: nat, dstOffset: nat, dstState: set<Flag>, data: seq<byte>)
    requires r.index < |r.heap.chunks|
    ensures var t := Transfer(Buffer(dst), dstOffset, data);
            Present(Payload(UploadCommands(r, Buffer(dst), dstOffset, dstState, |data|), t)) == [t]
  {
    var commands := UploadCommands(r, Buffer(dst), dstOffset, dstState, |data|);
    var t := Transfer(Buffer(dst), dstOffset, data);
    var log := Payload(commands, t);
    if |commands| == 1 {
      assert log == [] + [Some(t)];
      PresentAppend([], [Some(t)]);
    } else {
      assert log == [None] + [Some(t)] + [None];
      PresentAppend([None] + [Some(t)], [None]);
      PresentAppend([None], [Some(t)]);
      PresentNone([None]);
    }
    assert [Some(t)][..0] == [];
    assert Present([Some(t)]) == Present([]) + [t];
  }

  lemma {:induction false} ExpectedAreUploads(events: seq<Event>)
    requires LegalRun(events)
    ensures Present(Run(events).expected) == Uploads(events)
  {
    hide SystemInv, UploadCommands, Present, Inv, Issued, Step;
    if events == [] {
      PresentNone([]);
    } else {
      var n := |events| - 1;
      ExpectedAreUploads(events[..n]);
      var before, e := Run(events[..n]), events[n];
      match e
      case Upload(dst, dstOffset, dstState, data) =>
        var r := ReservationAt(before.heap, before.ctx.completed, |data|);
        PayloadIsOneUpload(r, dst, dstOffset, dstState, data);
        PresentAppend(before.expected,
                      Payload(UploadCommands(r, Buffer(dst), dstOffset, dstState, |data|), TransferOf(e)));
      case Other(step) =>
        PresentAppend(before.expected, NoBytes(|IssuedBy(step)|));
        PresentNone(NoBytes(|IssuedBy(step)|));
      case _ =>
    }
  }

  /**
   Over every run of uploads, recordings, flushes, external submissions, GPU steps and trims, what the GPU has moved out
   of staging memory so far are the bytes passed to the uploads, each to the place it was uploaded to, in upload order.
   */
  lemma GpuReadsWhatWasUploaded(events: seq<Event>)
    requires LegalRun(events)
    ensures Run(events).observed == Run(events).expected[..Run(events).ctx.executed]
    ensures Present(Run(events).observed) <= Uploads(events)
    ensures Run(events).ctx.executed == |Issued(Run(events).ctx)| ==> Present(Run(events).observed) == Uploads(events)
  {
    var s := Run(events);
    ExpectedAreUploads(events);
    ObservedSoFar(s);
    hide *;
    PresentPrefix(s.expected, s.ctx.executed);
    assert s.expected[..|s.expected|] == s.expected;
  }

  lemma ObservedSoFar(s: System)
    requires SystemInv(s)
    ensures s.ctx.executed <= |s.expected| == |Issued(s.ctx)| && s.observed == s.expected[..s.ctx.executed]
  {
    hide Inv, HeapInv, PendingHeld, FencesBounded, Issued;
  }

  lemma PresentPrefix(log: seq<Option<Transfer>>, n: nat)
    requires n <= |log|
    ensures Present(log[..n]) <= Present(log)
  {
    assert log == log[..n] + log[n..];
    PresentAppend(log[..n], log[n..]);
  }

  /** What the invariant says about one command that has not run yet. */
  lemma StillHeld(s: System, k: nat)
    requires SystemInv(s) && s.ctx.executed <= k < |s.expected|
    ensures |s.expected| == |Issued(s.ctx)|
    ensures if s.expected[k].Some? then Held(s.heap, s.ctx, Issued(s.ctx)[k], k + 1, s.expected[k].value)
            else !ReadsStaging(Issued(s.ctx)[k])
  {
    hide Inv, HeapInv, FencesBounded, Issued, Held, ReadsStaging;
  }

  lemma TrimChangesHeapOnly(s: System)
    requires SystemInv(s)
    ensures Next(s, Trim).ctx == s.ctx && Next(s, Trim).expected == s.expected
  {
    hide SystemInv;
  }

  lemma IssuedCount(s: System)
    requires SystemInv(s)
    ensures |s.expected| == |Issued(s.ctx)|
  {
    hide Inv, HeapInv, PendingHeld, FencesBounded, Issued;
  }

  /** Trim never releases a buffer that a submitted or recorded copy has yet to read. */
  lemma TrimReleasesNothingInUse(s: System, k: nat)
    requires SystemInv(s) && s.ctx.executed <= k < |Issued(s.ctx)| && ReadsStaging(Issued(s.ctx)[k])
    ensures |s.expected| == |Issued(s.ctx)| && s.expected[k].Some?
    ensures Observe(Next(s, Trim).heap.memory, Issued(s.ctx)[k]) == s.expected[k]
  {
    assert Legal(s, Trim);
    hide *;
    IssuedCount(s);
    TrimInv(s);
    TrimChangesHeapOnly(s);
    StillHeld(Next(s, Trim), k);
    HeldIsObserved(Next(s, Trim).heap, s.ctx, Issued(s.ctx)[k], k + 1, s.expected[k].value);
  }
}
