/**
 The pooled upload heap: chunk selection, reclaiming and trimming as functions on values, and the class that performs
 them in place. The content of the D3D12 upload buffers is `memory`, keyed by buffer identity.
 */
module UploadHeap {
  import opened Common
  import opened UploadRing
  import opened CommandStream
  import ExecutionContext

  type Memory = map<nat, seq<byte>>

  datatype Heap = Heap(chunks: seq<Chunk>, totalCapacity: nat, memory: Memory, nextResource: nat)

  datatype Reservation = Reservation(heap: Heap, index: nat, offset: nat)

  function TotalCapacity(chunks: seq<Chunk>): nat
  {
    if chunks == [] then 0 else TotalCapacity(chunks[..|chunks| - 1]) + chunks[|chunks| - 1].capacity
  }

  ghost predicate HeapInv(h: Heap)
  {
    && (forall i | 0 <= i < |h.chunks| ::
          && Layout(h.chunks[i]) && FencesSorted(h.chunks[i].allocations)
          && h.chunks[i].resource < h.nextResource
          && h.chunks[i].resource in h.memory && |h.memory[h.chunks[i].resource]| == h.chunks[i].capacity)
    && (forall i, j | 0 <= i < j < |h.chunks| :: h.chunks[i].resource != h.chunks[j].resource)
    && h.totalCapacity == TotalCapacity(h.chunks)
  }

  // ----- reclaiming and reserving -----

  function ReclaimedChunk(chunk: Chunk, completed: nat): Chunk
  {
    chunk.(allocations := Reclaimed(chunk.allocations, completed))
  }

  /** The entries at the front whose fence is signaled are gone, and no others. */
  ghost predicate LosesSignaled(live: seq<Allocation>, rest: seq<Allocation>, completed: nat)
  {
    && |rest| <= |live| && rest == live[|live| - |rest|..]
    && (forall i | 0 <= i < |live| - |rest| :: live[i].fence <= completed)
    && (rest != [] ==> completed < rest[0].fence)
  }

  function ReclaimAll(chunks: seq<Chunk>, completed: nat): (r: seq<Chunk>)
    ensures |r| == |chunks|
    ensures forall i | 0 <= i < |r| :: r[i] == ReclaimedChunk(chunks[i], completed)
  {
    seq(|chunks|, i requires 0 <= i < |chunks| => ReclaimedChunk(chunks[i], completed))
  }

  lemma SameCapacities(a: seq<Chunk>, b: seq<Chunk>)
    requires |a| == |b| && forall i | 0 <= i < |a| :: a[i].capacity == b[i].capacity
    ensures TotalCapacity(a) == TotalCapacity(b)
  {
  }

  lemma ReclaimedChunkOk(chunk: Chunk, completed: nat)
    requires Layout(chunk) && FencesSorted(chunk.allocations)
    ensures Layout(ReclaimedChunk(chunk, completed)) && FencesSorted(ReclaimedChunk(chunk, completed).allocations)
  {
    hide Layout, FencesSorted, Reclaimed;
    var live := chunk.allocations;
    PopKeepsLayout(chunk, |live| - |Reclaimed(live, completed)|);
    ReclaimIsExact(live, completed);
  }

  lemma ReclaimKeepsHeap(h: Heap, completed: nat)
    requires HeapInv(h)
    ensures HeapInv(h.(chunks := ReclaimAll(h.chunks, completed)))
  {
    hide Layout, FencesSorted, Reclaimed, TotalCapacity;
    var after := ReclaimAll(h.chunks, completed);
    forall i | 0 <= i < |after|
      ensures Layout(after[i]) && FencesSorted(after[i].allocations)
    {
      ReclaimedChunkOk(h.chunks[i], completed);
    }
    SameCapacities(h.chunks, after);
  }

  function Min(a: nat, b: nat): nat { if a < b then a else b }
  function Max(a: nat, b: nat): nat { if a < b then b else a }

  /** At least doubles the pool, within the size D3D12 accepts. */
  function NewChunkSize(totalCapacity: nat, size: nat): nat
  {
    Min(Max(Max(totalCapacity, MIN_CHUNK_SIZE), size), MAX_CHUNK_SIZE)
  }

  /** The first chunk with room. */
  function FirstFit(chunks: seq<Chunk>, size: nat): (r: Option<nat>)
    ensures r.Some? ==> r.value < |chunks| && FindOffset(chunks[r.value], size).Some?
    ensures var n := if r.Some? then r.value else |chunks|;
            forall i | 0 <= i < n :: FindOffset(chunks[i], size) == None
    decreases |chunks|
  {
    if chunks == [] then None
    else if FindOffset(chunks[0], size).Some? then Some(0)
    else
      var rest := FirstFit(chunks[1..], size);
      assert forall i | 1 <= i < |chunks| :: chunks[i] == chunks[1..][i - 1];
      if rest.Some? then Some(rest.value + 1) else None
  }

  /** A new chunk holds the request and at least doubles the pool, or else has the greatest size that is accepted. */
  lemma NewChunkDoubles(h: Heap, size: nat)
    requires FirstFit(h.chunks, size).None?
    ensures var r := Reserve(h, size).heap;
            && h.totalCapacity < r.totalCapacity
            && MIN_CHUNK_SIZE <= r.totalCapacity - h.totalCapacity <= MAX_CHUNK_SIZE
            && (r.totalCapacity - h.totalCapacity < MAX_CHUNK_SIZE ==>
                  2 * h.totalCapacity <= r.totalCapacity && size <= r.totalCapacity - h.totalCapacity)
            && |r.chunks| == |h.chunks| + 1
            && r.chunks[|h.chunks|].capacity == r.totalCapacity - h.totalCapacity
  {
  }

  /** The chunk that a reservation adds. */
  function AddedChunk(h: Heap, size: nat): Chunk
  {
    Chunk(NewChunkSize(h.totalCapacity, size), h.nextResource, [])
  }

  function WithChunk(h: Heap, added: Chunk): Heap
  {
    var buffer := seq(added.capacity, _ => 0 as byte);
    Heap(h.chunks + [added], h.totalCapacity + added.capacity, h.memory[h.nextResource := buffer], h.nextResource + 1)
  }

  function Reserve(h: Heap, size: nat): (r: Reservation)
    ensures r.index < |r.heap.chunks|
  {
    var fit := FirstFit(h.chunks, size);
    if fit.Some? then Reservation(h, fit.value, FindOffset(h.chunks[fit.value], size).value)
    else
      Reservation(WithChunk(h, AddedChunk(h, size)), |h.chunks|, 0)
  }

  /** The first chunk that seems to have room is misread: it has none for a nonempty request. */
  predicate Misplaced(h: Heap, size: nat)
  {
    var fit := FirstFit(h.chunks, size);
    0 < size && fit.Some? && Misread(h.chunks[fit.value].allocations)
  }

  /** The reservation adds at most one empty chunk, at the end, and the region it names fits the layout of its chunk. */
  lemma ReserveKeepsHeap(h: Heap, size: nat, fence: nat)
    requires HeapInv(h) && size <= MAX_CHUNK_SIZE && !Misplaced(h, size)
    ensures var r := Reserve(h, size);
            && HeapInv(r.heap)
            && h.chunks <= r.heap.chunks
            && (forall i | |h.chunks| <= i < |r.heap.chunks| :: r.heap.chunks[i].allocations == [])
            && (forall id | id in h.memory && id < h.nextResource ::
                  id in r.heap.memory && r.heap.memory[id] == h.memory[id])
            && Placeable(r.heap.chunks[r.index], size, r.offset, fence)
            && r.offset + size <= r.heap.chunks[r.index].capacity
            && r.heap.chunks[r.index].resource in r.heap.memory
            && |r.heap.memory[r.heap.chunks[r.index].resource]| == r.heap.chunks[r.index].capacity
  {
    if FirstFit(h.chunks, size).Some? {
      ReserveInOldChunk(h, size, fence);
    } else {
      ReserveInNewChunk(h, size, fence);
    }
  }

  lemma ReserveInOldChunk(h: Heap, size: nat, fence: nat)
    requires HeapInv(h) && FirstFit(h.chunks, size).Some? && !Misplaced(h, size)
    ensures var r := Reserve(h, size);
            && r.heap == h && r.index < |h.chunks|
            && Placeable(h.chunks[r.index], size, r.offset, fence)
            && r.offset + size <= h.chunks[r.index].capacity
            && h.chunks[r.index].resource in h.memory
            && |h.memory[h.chunks[r.index].resource]| == h.chunks[r.index].capacity
  {
    hide HeapInv, FindOffset, Layout, Placeable, Misread;
    var r := Reserve(h, size);
    ChunkInHeap(h, r.index);
    FoundPlace(h.chunks[r.index], size, fence);
    FoundInBounds(h.chunks[r.index], size);
  }

  lemma ReserveInNewChunk(h: Heap, size: nat, fence: nat)
    requires HeapInv(h) && size <= MAX_CHUNK_SIZE && FirstFit(h.chunks, size).None?
    ensures var r, added := Reserve(h, size), AddedChunk(h, size);
            && r == Reservation(WithChunk(h, added), |h.chunks|, 0)
            && HeapInv(r.heap) && Placeable(added, size, 0, fence) && size <= added.capacity
  {
    var added := AddedChunk(h, size);
    assert size <= added.capacity <= MAX_CHUNK_SIZE;
    assert Reserve(h, size) == Reservation(WithChunk(h, added), |h.chunks|, 0);
    EmptyChunkAccepts(added, size);
    NotMisread(added);
    hide *;
    FoundPlace(added, size, fence);
    AddChunkKeepsHeap(h, added) by {
      EmptyChunkFacts(h, size);
    }
  }

  lemma NotMisread(chunk: Chunk)
    requires chunk.allocations == []
    ensures !Misread(chunk.allocations)
  {
  }

  lemma EmptyChunkFacts(h: Heap, size: nat)
    ensures AddedChunk(h, size).allocations == [] && AddedChunk(h, size).resource == h.nextResource
  {
  }

  lemma TotalAppend(chunks: seq<Chunk>, added: Chunk)
    ensures TotalCapacity(chunks + [added]) == TotalCapacity(chunks) + added.capacity
  {
    assert (chunks + [added])[..|chunks|] == chunks;
  }

  lemma AddChunkKeepsHeap(h: Heap, added: Chunk)
    requires HeapInv(h) && Layout(added) && added.allocations == [] && added.resource == h.nextResource
    ensures HeapInv(WithChunk(h, added))
  {
    TotalAppend(h.chunks, added);
    NoFencesSorted();
    hide TotalCapacity, Layout, FencesSorted;
  }

  lemma FoundPlace(chunk: Chunk, size: nat, fence: nat)
    requires Layout(chunk) && FindOffset(chunk, size).Some? && (!Misread(chunk.allocations) || size == 0)
    ensures Placeable(chunk, size, FindOffset(chunk, size).value, fence)
  {
    hide FindOffset, Layout, Placeable;
    SearchInReadableChunk(chunk, size, fence);
  }

  lemma NoFencesSorted()
    ensures FencesSorted([])
  {
  }

  /**
   The reserved region lies inside its chunk exactly when the request does not exceed the clamp: no chunk is ever larger
   than the clamp, so a larger request always ends in a new chunk that is too small for it.
   */
  lemma ReserveInBoundsIff(h: Heap, size: nat)
    requires HeapInv(h)
    ensures var r := Reserve(h, size);
            r.offset + size <= r.heap.chunks[r.index].capacity <==> size <= MAX_CHUNK_SIZE
  {
    var fit := FirstFit(h.chunks, size);
    if fit.Some? {
      ChunkInHeap(h, fit.value);
      FoundInBounds(h.chunks[fit.value], size);
      SizeOfFound(h.chunks[fit.value], size);
    }
  }

  lemma SizeOfFound(chunk: Chunk, size: nat)
    requires Layout(chunk) && FindOffset(chunk, size).Some?
    ensures size <= chunk.capacity <= MAX_CHUNK_SIZE
  {
  }

  /** The reserved region can be entered into its chunk exactly under the conditions above. */
  lemma ReservePlaceableIff(h: Heap, size: nat, fence: nat)
    requires HeapInv(h)
    ensures var r := Reserve(h, size);
            Placeable(r.heap.chunks[r.index], size, r.offset, fence) <==> size <= MAX_CHUNK_SIZE && !Misplaced(h, size)
  {
    hide HeapInv, Placeable, Layout, FindOffset, Misread;
    var r := Reserve(h, size);
    ReserveInBoundsIff(h, size);
    if size <= MAX_CHUNK_SIZE && !Misplaced(h, size) {
      ReserveKeepsHeap(h, size, fence);
    } else if Placeable(r.heap.chunks[r.index], size, r.offset, fence) {
      PlaceableInBounds(r.heap.chunks[r.index], size, r.offset, fence);
      ChunkInHeap(h, r.index);
      MisreadIsFull(h.chunks[r.index], size, r.offset, fence);
    }
  }

  /** One byte too many, in an empty heap. */
  lemma OversizedRequest()
    ensures var r := Reserve(Heap([], 0, map[], 0), MAX_CHUNK_SIZE + 1);
            && r.index == 0 && r.offset == 0
            && r.heap.chunks == [Chunk(MAX_CHUNK_SIZE, 0, [])]
  {
  }

  // ----- uploading -----

  /** The heap after a reservation has been filled with `data` and entered with `fence`. */
  function Stage(r: Reservation, data: seq<byte>, fence: nat): Heap
    requires r.index < |r.heap.chunks|
    requires r.heap.chunks[r.index].resource in r.heap.memory
    requires r.offset + |data| <= |r.heap.memory[r.heap.chunks[r.index].resource]|
  {
    var chunk := r.heap.chunks[r.index];
    var filled := Overwrite(r.heap.memory[chunk.resource], r.offset, data);
    r.heap.(chunks := r.heap.chunks[r.index := Push(chunk, Allocation(|data|, r.offset, fence))],
            memory := r.heap.memory[chunk.resource := filled])
  }

  const UPLOAD_STATE: set<Flag> := {CopySource, OtherUse}

  /** What an upload records: the copy out of the reserved region. */
  function UploadCommands(r: Reservation, dst: Resource, dstOffset: nat, dstState: set<Flag>, size: nat): seq<Command>
    requires r.index < |r.heap.chunks|
  {
    var staging := Staging(r.heap.chunks[r.index].resource);
    ExecutionContext.CopyCommands(dst, dstOffset, dstState, staging, r.offset, UPLOAD_STATE, size)
  }

  /** The buffers of the heap are always ready to be copied from, so no command of an upload changes their state. */
  lemma StagingStaysReadable(r: Reservation, dst: Resource, dstOffset: nat, dstState: set<Flag>, size: nat)
    requires r.index < |r.heap.chunks| && dst.Buffer?
    ensures CopySource in UPLOAD_STATE
    ensures var staging := Staging(r.heap.chunks[r.index].resource);
            var commands := UploadCommands(r, dst, dstOffset, dstState, size);
            forall cmd, t | cmd in commands && cmd.Barrier? && t in cmd.transitions :: t.resource != staging
  {
  }

  function ReservationAt(h: Heap, completed: nat, size: nat): (r: Reservation)
    ensures r.index < |r.heap.chunks|
  {
    Reserve(h.(chunks := ReclaimAll(h.chunks, completed)), size)
  }

  /** No reclaimed or live allocation has a fence beyond the next submission. */
  ghost predicate FencesBounded(h: Heap, top: nat)
  {
    forall i, a | 0 <= i < |h.chunks| && 0 <= a < |h.chunks[i].allocations| :: h.chunks[i].allocations[a].fence <= top
  }

  lemma AppendFence(live: seq<Allocation>, a: Allocation)
    requires FencesSorted(live) && forall i | 0 <= i < |live| :: live[i].fence <= a.fence
    ensures FencesSorted(live + [a])
  {
  }

  /** Replacing one chunk and the content of its buffer keeps the heap well formed. */
  lemma ReplaceKeepsHeap(h: Heap, index: nat, grown: Chunk, filled: seq<byte>)
    requires HeapInv(h) && index < |h.chunks| && Layout(grown) && FencesSorted(grown.allocations)
    requires grown.resource == h.chunks[index].resource && grown.capacity == h.chunks[index].capacity == |filled|
    ensures HeapInv(h.(chunks := h.chunks[index := grown], memory := h.memory[grown.resource := filled]))
  {
    hide Layout, FencesSorted, TotalCapacity;
    SameCapacities(h.chunks, h.chunks[index := grown]);
  }

  lemma StageKeepsHeap(r: Reservation, data: seq<byte>, fence: nat)
    requires HeapInv(r.heap) && r.index < |r.heap.chunks| && FencesBounded(r.heap, fence)
    requires Placeable(r.heap.chunks[r.index], |data|, r.offset, fence)
    requires r.offset + |data| <= r.heap.chunks[r.index].capacity
    ensures HeapInv(Stage(r, data, fence))
  {
    hide Layout, HeapInv, FencesSorted, Overwrite;
    var chunk := r.heap.chunks[r.index];
    var grown := Push(chunk, Allocation(|data|, r.offset, fence));
    assert FencesSorted(chunk.allocations) && chunk.resource in r.heap.memory
           && |r.heap.memory[chunk.resource]| == chunk.capacity by {
      ChunkInHeap(r.heap, r.index);
    }
    AppendFence(chunk.allocations, Allocation(|data|, r.offset, fence));
    ReplaceKeepsHeap(r.heap, r.index, grown, Overwrite(r.heap.memory[chunk.resource], r.offset, data));
  }

  lemma ChunkInHeap(h: Heap, i: nat)
    requires HeapInv(h) && i < |h.chunks|
    ensures Layout(h.chunks[i]) && FencesSorted(h.chunks[i].allocations)
    ensures h.chunks[i].resource in h.memory && |h.memory[h.chunks[i].resource]| == h.chunks[i].capacity
  {
  }

  /** The request is within the chunk limit, and once the heap is reclaimed its place is not in a misread chunk. */
  predicate Uploadable(h: Heap, completed: nat, size: nat)
  {
    size <= MAX_CHUNK_SIZE && !Misplaced(h.(chunks := ReclaimAll(h.chunks, completed)), size)
  }

  /** Reclaiming, reserving and staging keep the heap well formed; `fence` bounds all fences so far. */
  lemma UploadKeepsHeap(h: Heap, completed: nat, data: seq<byte>, fence: nat)
    requires HeapInv(h) && FencesBounded(h, fence) && Uploadable(h, completed, |data|)
    ensures var r := ReservationAt(h, completed, |data|);
            && r.heap.chunks[r.index].resource in r.heap.memory
            && r.offset + |data| <= |r.heap.memory[r.heap.chunks[r.index].resource]|
            && HeapInv(Stage(r, data, fence))
            && FencesBounded(Stage(r, data, fence), fence)
  {
    hide HeapInv, Layout, FencesSorted, Placeable, Reserve, Overwrite, Misplaced;
    var reclaimed := h.(chunks := ReclaimAll(h.chunks, completed));
    ReclaimKeepsHeap(h, completed);
    ReclaimBoundsFences(h, completed, fence);
    hide ReclaimAll;
    ReserveKeepsHeap(reclaimed, |data|, fence);
    var r := Reserve(reclaimed, |data|);
    forall i, a | 0 <= i < |r.heap.chunks| && 0 <= a < |r.heap.chunks[i].allocations|
      ensures r.heap.chunks[i].allocations[a].fence <= fence
    {
      assert r.heap.chunks[i] == reclaimed.chunks[i];
    }
    StageKeepsHeap(r, data, fence);
  }

  lemma ReservationIs(h: Heap, completed: nat, size: nat, r: Reservation)
    requires r == Reserve(h.(chunks := ReclaimAll(h.chunks, completed)), size)
    ensures r == ReservationAt(h, completed, size)
  {
  }

  lemma StageIs(r: Reservation, data: seq<byte>, fence: nat)
    requires r.index < |r.heap.chunks|
    requires r.heap.chunks[r.index].resource in r.heap.memory
    requires r.offset + |data| <= |r.heap.memory[r.heap.chunks[r.index].resource]|
    ensures var chunk := r.heap.chunks[r.index];
            var filled := Overwrite(r.heap.memory[chunk.resource], r.offset, data);
            Stage(r, data, fence)
            == Heap(r.heap.chunks[r.index := Push(chunk, Allocation(|data|, r.offset, fence))], r.heap.totalCapacity,
                    r.heap.memory[chunk.resource := filled], r.heap.nextResource)
  {
  }

  lemma UploadCommandsAre(r: Reservation, dst: Resource, dstOffset: nat, dstState: set<Flag>, size: nat)
    requires r.index < |r.heap.chunks|
    ensures var staging := Staging(r.heap.chunks[r.index].resource);
            UploadCommands(r, dst, dstOffset, dstState, size)
            == ExecutionContext.CopyCommands(dst, dstOffset, dstState, staging, r.offset, UPLOAD_STATE, size)
  {
  }

  // ----- trimming -----

  /** Chunks that still hold allocations, in order. */
  function Occupied(chunks: seq<Chunk>): (r: seq<Chunk>)
    ensures forall c :: c in r <==> c in chunks && c.allocations != []
  {
    if chunks == [] then []
    else
      var last := chunks[|chunks| - 1];
      assert chunks == chunks[..|chunks| - 1] + [last];
      Occupied(chunks[..|chunks| - 1]) + if last.allocations != [] then [last] else []
  }

  /** The buffers of the given chunks; all other buffers are released. */
  function Retained(memory: Memory, chunks: seq<Chunk>): (r: Memory)
    ensures forall i | 0 <= i < |chunks| && chunks[i].resource in memory ::
              chunks[i].resource in r && r[chunks[i].resource] == memory[chunks[i].resource]
    ensures forall id | id in r :: exists i :: 0 <= i < |chunks| && chunks[i].resource == id
  {
    var resources := set i | 0 <= i < |chunks| :: chunks[i].resource;
    map id | id in memory && id in resources :: memory[id]
  }

  function Trimmed(h: Heap, completed: nat): Heap
  {
    var kept := Occupied(ReclaimAll(h.chunks, completed));
    Heap(kept, TotalCapacity(kept), Retained(h.memory, kept), h.nextResource)
  }

  lemma {:induction false} OccupiedIsSubsequence(chunks: seq<Chunk>)
    requires forall i, j | 0 <= i < j < |chunks| :: chunks[i].resource != chunks[j].resource
    ensures forall i, j | 0 <= i < j < |Occupied(chunks)| ::
              Occupied(chunks)[i].resource != Occupied(chunks)[j].resource
  {
    if chunks != [] {
      var front := chunks[..|chunks| - 1];
      OccupiedIsSubsequence(front);
      assert forall c | c in Occupied(front) :: c in front;
    }
  }

  /** Keeping some of the chunks, with their memory only, keeps the heap well formed. */
  lemma RestrictKeepsHeap(h: Heap, kept: seq<Chunk>)
    requires HeapInv(h)
    requires forall i | 0 <= i < |kept| :: kept[i] in h.chunks
    requires forall i, j | 0 <= i < j < |kept| :: kept[i].resource != kept[j].resource
    ensures HeapInv(Heap(kept, TotalCapacity(kept), Retained(h.memory, kept), h.nextResource))
  {
    hide Layout, FencesSorted, TotalCapacity, Retained;
    var memory := Retained(h.memory, kept);
    forall i | 0 <= i < |kept|
      ensures Layout(kept[i]) && FencesSorted(kept[i].allocations) && kept[i].resource < h.nextResource
      ensures kept[i].resource in memory && |memory[kept[i].resource]| == kept[i].capacity
    {
      assert kept[i] in h.chunks;
      var k :| 0 <= k < |h.chunks| && h.chunks[k] == kept[i];
    }
  }

  lemma DistinctResources(h: Heap)
    requires HeapInv(h)
    ensures forall i, j | 0 <= i < j < |h.chunks| :: h.chunks[i].resource != h.chunks[j].resource
  {
  }

  /** Reclaiming only ever removes allocations. */
  lemma ReclaimBoundsFences(h: Heap, completed: nat, top: nat)
    requires FencesBounded(h, top)
    ensures FencesBounded(h.(chunks := ReclaimAll(h.chunks, completed)), top)
  {
    var reclaimed := ReclaimAll(h.chunks, completed);
    forall i, a | 0 <= i < |reclaimed| && 0 <= a < |reclaimed[i].allocations|
      ensures reclaimed[i].allocations[a].fence <= top
    {
      var live := h.chunks[i].allocations;
      assert reclaimed[i].allocations[a] == live[|live| - |reclaimed[i].allocations| + a];
    }
  }

  lemma TrimKeepsHeap(h: Heap, completed: nat, top: nat)
    requires HeapInv(h) && FencesBounded(h, top)
    ensures HeapInv(Trimmed(h, completed)) && FencesBounded(Trimmed(h, completed), top)
  {
    hide TotalCapacity, HeapInv, Occupied, Retained;
    var mid := h.(chunks := ReclaimAll(h.chunks, completed));
    ReclaimKeepsHeap(h, completed);
    ReclaimBoundsFences(h, completed, top);
    hide ReclaimAll;
    DistinctResources(mid);
    OccupiedIsSubsequence(mid.chunks);
    var kept := Occupied(mid.chunks);
    assert forall i | 0 <= i < |kept| :: kept[i] in mid.chunks;
    RestrictKeepsHeap(mid, kept);
  }

  // ----- the object -----

  class PooledUploadHeap {
    const context: ExecutionContext.ExecutionContext
    var chunks: seq<Chunk>
    var totalCapacity: nat
    var memory: Memory
    var nextResource: nat

    ghost function State(): Heap
      reads this
    {
      Heap(chunks, totalCapacity, memory, nextResource)
    }

    ghost predicate Valid()
      reads this, context, context.queue, context.recorder
    {
      context.Valid() && HeapInv(State()) && FencesBounded(State(), |context.queue.submissions| + 1)
    }

    constructor (c: ExecutionContext.ExecutionContext)
      requires c.Valid()
      ensures Valid() && context == c && State() == Heap([], 0, map[], 0)
    {
      context, chunks, totalCapacity, memory, nextResource := c, [], 0, map[], 0;
    }

    method ReclaimAllocations()
      modifies this`chunks
      ensures chunks == ReclaimAll(old(chunks), context.queue.completed)
      ensures |chunks| == |old(chunks)|
      ensures forall i | 0 <= i < |chunks| ::
                LosesSignaled(old(chunks)[i].allocations, chunks[i].allocations, context.queue.completed)
    {
      hide Reclaimed;
      var k := 0;
      while k < |chunks|
        invariant 0 <= k <= |chunks| == |old(chunks)|
        invariant forall i | 0 <= i < |chunks| ::
                    chunks[i]
                    == if i < k then ReclaimedChunk(old(chunks)[i], context.queue.completed) else old(chunks)[i]
      {
        var rest := PopSignaled(chunks[k].allocations);
        chunks := chunks[k := chunks[k].(allocations := rest)];
        k := k + 1;
      }
    }

    /** Pops allocations from the front while their event is signaled. */
    method PopSignaled(allocations: seq<Allocation>) returns (rest: seq<Allocation>)
      ensures rest == Reclaimed(allocations, context.queue.completed)
    {
      rest := allocations;
      while rest != [] && rest[0].fence <= context.queue.completed
        invariant Reclaimed(rest, context.queue.completed) == Reclaimed(allocations, context.queue.completed)
        decreases |rest|
      {
        rest := rest[1..];
      }
    }

    method ReserveRegion(size: nat) returns (index: nat, offset: nat)
      modifies this
      ensures Reserve(old(State()), size) == Reservation(State(), index, offset)
    {
      index := 0;
      while index < |chunks|
        invariant 0 <= index <= |chunks|
        invariant forall i | 0 <= i < index :: FindOffset(chunks[i], size) == None
      {
        var found := FindOffset(chunks[index], size);
        if found.Some? {
          offset := found.value;
          return;
        }
        index := index + 1;
      }
      var capacity := NewChunkSize(totalCapacity, size);
      chunks := chunks + [Chunk(capacity, nextResource, [])];
      totalCapacity := totalCapacity + capacity;
      memory := memory[nextResource := seq(capacity, _ => 0)];
      nextResource := nextResource + 1;
      offset := 0;
    }

    method BeginUploadToGpu(dst: Resource, dstOffset: nat, dstState: set<Flag>, data: seq<byte>)
      returns (doneEvent: nat)
      requires Valid() && Uploadable(State(), context.queue.completed, |data|)
      modifies this, context`currentRecorder, context.queue, context.recorder
      ensures Valid()
      ensures var r := ReservationAt(old(State()), old(context.queue.completed), |data|);
              && r.heap.chunks[r.index].resource in r.heap.memory
              && r.offset + |data| <= |r.heap.memory[r.heap.chunks[r.index].resource]|
              && State() == Stage(r, data, doneEvent)
              && context.State() == Record(old(context.State()), UploadCommands(r, dst, dstOffset, dstState, |data|))
      ensures doneEvent == CompletionFence(context.State())
    {
      hide HeapInv, FencesBounded, Uploadable, Reserve, ReclaimAll, Inv, Record, CompletionFence, UploadCommands;
      hide ReservationAt, Stage, Overwrite, Push;
      hide ExecutionContext.ExecutionContext.Valid, ExecutionContext.ExecutionContext.State;
      context.StateParts();
      ghost var before, c := State(), context.State();
      ghost var completed, fence := context.queue.completed, |context.queue.submissions| + 1;
      ghost var r := ReservationAt(before, completed, |data|);
      ghost var commands := UploadCommands(r, dst, dstOffset, dstState, |data|);
      UploadKeepsHeap(before, completed, data, fence);
      RecordedWorkFence(c, commands);
      StageIs(r, data, fence);
      UploadCommandsAre(r, dst, dstOffset, dstState, |data|);
      ReclaimAllocations();
      var index, offset := ReserveRegion(|data|);
      ReservationIs(before, completed, |data|, Reservation(State(), index, offset));
      var resource := chunks[index].resource;
      memory := memory[resource := Overwrite(memory[resource], offset, data)];
      assert context.State() == c;
      context.CopyBufferRegion(dst, dstOffset, dstState, Staging(resource), offset, UPLOAD_STATE, |data|);
      context.StateParts();
      doneEvent := context.CurrentCompletionEvent();
      assert context.State() == Record(c, commands);
      assert doneEvent == fence;
      chunks := chunks[index := Push(chunks[index], Allocation(|data|, offset, doneEvent))];
      assert State() == Stage(r, data, fence);
      assert context.State() == Record(c, commands);
    }

    /** The chunks without allocations are dropped, and the rest is counted again. */
    method Trim()
      requires Valid()
      modifies this
      ensures Valid() && State() == Trimmed(old(State()), context.queue.completed)
      ensures forall c | c in chunks :: c.allocations != [] && context.queue.completed < c.allocations[0].fence
    {
      hide HeapInv, FencesBounded, Inv, Reclaimed, Retained, ReclaimAll, Occupied, TotalCapacity;
      hide ExecutionContext.ExecutionContext.Valid;
      TrimKeepsHeap(State(), context.queue.completed, |context.queue.submissions| + 1);
      ReclaimAllocations();
      var kept := KeepOccupied();
      memory := Retained(memory, kept);
      chunks := kept;
      RecomputeCapacity();
    }

    method KeepOccupied() returns (kept: seq<Chunk>)
      ensures kept == Occupied(chunks)
    {
      kept := [];
      var k := 0;
      while k < |chunks|
        invariant 0 <= k <= |chunks| && kept == Occupied(chunks[..k])
      {
        assert chunks[..k + 1][..k] == chunks[..k];
        if chunks[k].allocations != [] {
          kept := kept + [chunks[k]];
        }
        k := k + 1;
      }
      assert chunks[..k] == chunks;
    }

    method RecomputeCapacity()
      modifies this`totalCapacity
      ensures totalCapacity == TotalCapacity(chunks)
    {
      totalCapacity := 0;
      var k := 0;
      while k < |chunks|
        invariant 0 <= k <= |chunks| && totalCapacity == TotalCapacity(chunks[..k])
      {
        assert chunks[..k + 1][..k] == chunks[..k];
        totalCapacity := totalCapacity + chunks[k].capacity;
        k := k + 1;
      }
      assert chunks[..k] == chunks;
    }
  }
}
