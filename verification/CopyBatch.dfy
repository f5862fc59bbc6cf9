/**
 Batched tensor copies. CPU memory is one address space, so tensors may alias or overlap in any way; a GPU tensor starts
 at the beginning of its buffer. GPU memory is taken as it is once all issued commands have run.
 */
module CopyBatch {
  import opened Common

  const U32: nat := 0x1_0000_0000
  const INITIAL_CAPACITY: nat := 0x10_0000
  const SIZE_MAX: nat := 0xFFFF_FFFF_FFFF_FFFF

  datatype Place = Cpu(address: nat) | Gpu(buffer: nat)

  /** `size` is the byte size of the destination tensor, `srcSize` that of the source tensor. */
  datatype TensorCopy = TensorCopy(dst: Place, src: Place, size: nat, srcSize: nat)

  datatype Memory = Memory(cpu: seq<byte>, gpu: map<nat, seq<byte>>)

  // ----- copying one tensor -----

  predicate Inside(m: Memory, p: Place, size: nat)
  {
    match p
    case Cpu(a) => a + size <= |m.cpu|
    case Gpu(b) => b in m.gpu && size <= |m.gpu[b]|
  }

  function Read(m: Memory, p: Place, size: nat): seq<byte>
    requires Inside(m, p, size)
  {
    match p
    case Cpu(a) => Slice(m.cpu, a, size)
    case Gpu(b) => Slice(m.gpu[b], 0, size)
  }

  function Write(m: Memory, p: Place, data: seq<byte>): Memory
    requires Inside(m, p, |data|)
  {
    match p
    case Cpu(a) => m.(cpu := Overwrite(m.cpu, a, data))
    case Gpu(b) => m.(gpu := m.gpu[b := Overwrite(m.gpu[b], 0, data)])
  }

  /** A copy within CPU memory moves the bytes of the source tensor, any other one those of the destination tensor. */
  function Bytes(c: TensorCopy): nat
  {
    if c.dst.Cpu? && c.src.Cpu? then c.srcSize else c.size
  }

  predicate Skipped(c: TensorCopy) { c.size == 0 }

  predicate Possible(m: Memory, c: TensorCopy)
  {
    Skipped(c) || (Inside(m, c.src, Bytes(c)) && Inside(m, c.dst, Bytes(c)))
  }

  /** One copy, done at once. A copy that the API would refuse leaves memory alone. */
  function Do(m: Memory, c: TensorCopy): Memory
  {
    if Skipped(c) || !Possible(m, c) then m else Write(m, c.dst, Read(m, c.src, Bytes(c)))
  }

  /** The copies one by one, in order. */
  function DoAll(m: Memory, copies: seq<TensorCopy>): Memory
  {
    if copies == [] then m else Do(DoAll(m, copies[..|copies| - 1]), copies[|copies| - 1])
  }

  lemma DoAllSnoc(m: Memory, copies: seq<TensorCopy>, c: TensorCopy)
    ensures DoAll(m, copies + [c]) == Do(DoAll(m, copies), c)
  {
    assert (copies + [c])[..|copies|] == copies;
  }

  lemma {:induction false} DoAllSplit(m: Memory, a: seq<TensorCopy>, b: seq<TensorCopy>)
    ensures DoAll(m, a + b) == DoAll(DoAll(m, a), b)
    decreases |b|
  {
    if b == [] {
      assert a + b == a;
    } else {
      var front, last := b[..|b| - 1], b[|b| - 1];
      assert a + b == (a + front) + [last];
      DoAllSnoc(m, a + front, last);
      DoAllSplit(m, a, front);
    }
  }

  ghost predicate SameShape(m: Memory, d: Memory)
  {
    |m.cpu| == |d.cpu| && m.gpu.Keys == d.gpu.Keys && forall b | b in m.gpu :: |m.gpu[b]| == |d.gpu[b]|
  }

  lemma DoKeepsShape(m: Memory, c: TensorCopy)
    ensures SameShape(m, Do(m, c))
  {
  }

  /** What each kind of copy does to memory: the bytes it moves, from where to where, and nothing else. */
  lemma KindsOfCopies(m: Memory, c: TensorCopy)
    requires Possible(m, c)
    ensures c.size == 0 ==> Do(m, c) == m
    ensures c.size != 0 && c.src.Cpu? && c.dst.Cpu? ==>
              && c.src.address + c.srcSize <= |m.cpu| && c.dst.address + c.srcSize <= |m.cpu|
              && var bytes := m.cpu[c.src.address..c.src.address + c.srcSize];
              Do(m, c) == m.(cpu := m.cpu[..c.dst.address] + bytes + m.cpu[c.dst.address + c.srcSize..])
    ensures c.size != 0 && c.src.Gpu? && c.dst.Cpu? ==>
              && c.src.buffer in m.gpu && c.size <= |m.gpu[c.src.buffer]| && c.dst.address + c.size <= |m.cpu|
              && var bytes := m.gpu[c.src.buffer][..c.size];
              Do(m, c) == m.(cpu := m.cpu[..c.dst.address] + bytes + m.cpu[c.dst.address + c.size..])
    ensures c.size != 0 && c.dst.Gpu? ==>
              && c.dst.buffer in m.gpu && c.size <= |m.gpu[c.dst.buffer]|
              && |Read(m, c.src, c.size)| == c.size
              && Do(m, c) == m.(gpu := m.gpu[c.dst.buffer
                                             := Read(m, c.src, c.size) + m.gpu[c.dst.buffer][c.size..]])
  {
    if c.size != 0 && c.dst.Gpu? {
      var buffer, bytes := m.gpu[c.dst.buffer], Read(m, c.src, c.size);
      assert Overwrite(buffer, 0, bytes) == bytes + buffer[c.size..];
    }
  }

  // ----- batched readback through the staging heap -----

  predicate IsReadback(c: TensorCopy) { c.dst.Cpu? && c.src.Gpu? }

  ghost predicate Readbacks(batch: seq<TensorCopy>)
  {
    forall c | c in batch :: IsReadback(c) && 0 < c.size < U32
  }

  function Total(batch: seq<TensorCopy>): nat
  {
    if batch == [] then 0 else Total(batch[..|batch| - 1]) + batch[|batch| - 1].size
  }

  /** The 32-bit offset of the n-th tensor in the heap. */
  function StageOffset(batch: seq<TensorCopy>, n: nat): nat
    requires n <= |batch|
  {
    Total(batch[..n]) % U32
  }

  ghost predicate FitsHeap(batch: seq<TensorCopy>, capacity: nat)
  {
    forall i | 0 <= i < |batch| :: StageOffset(batch, i) + batch[i].size <= capacity
  }

  ghost predicate AllPossible(m: Memory, batch: seq<TensorCopy>)
  {
    forall c | c in batch :: Possible(m, c)
  }

  /** The heap after the GPU has copied the first `n` tensors into it. */
  function StageAll(heap: seq<byte>, m: Memory, batch: seq<TensorCopy>, n: nat): (r: seq<byte>)
    requires n <= |batch| && Readbacks(batch) && AllPossible(m, batch) && FitsHeap(batch, |heap|)
    ensures |r| == |heap|
  {
    if n == 0 then heap
    else
      var c := batch[n - 1];
      Overwrite(StageAll(heap, m, batch, n - 1), StageOffset(batch, n - 1), Read(m, c.src, c.size))
  }

  /** CPU memory after the first `n` tensors have been copied out of the heap. */
  function UnstageAll(heap: seq<byte>, m: Memory, batch: seq<TensorCopy>, n: nat): (r: seq<byte>)
    requires n <= |batch| && Readbacks(batch) && AllPossible(m, batch) && FitsHeap(batch, |heap|)
    ensures |r| == |m.cpu|
  {
    if n == 0 then m.cpu
    else
      var c := batch[n - 1];
      Overwrite(UnstageAll(heap, m, batch, n - 1), c.dst.address, Slice(heap, StageOffset(batch, n - 1), c.size))
  }

  function Readback(heap: seq<byte>, m: Memory, batch: seq<TensorCopy>): Memory
    requires Readbacks(batch) && AllPossible(m, batch) && FitsHeap(batch, |heap|)
  {
    m.(cpu := UnstageAll(StageAll(heap, m, batch, |batch|), m, batch, |batch|))
  }

  lemma {:induction false} TotalPrefix(batch: seq<TensorCopy>, i: nat, j: nat)
    requires i < j <= |batch|
    ensures Total(batch[..i]) + batch[i].size <= Total(batch[..j]) <= Total(batch)
    decreases |batch| - i, |batch| - j
  {
    assert batch[..i + 1][..i] == batch[..i];
    if i + 1 < j {
      TotalPrefix(batch, i + 1, j);
    }
    if j == |batch| {
      assert batch[..j] == batch;
    } else {
      assert batch[..j + 1][..j] == batch[..j];
      TotalPrefix(batch, i, j + 1);
    }
  }

  lemma NoWrapOffset(batch: seq<TensorCopy>, i: nat)
    requires i < |batch| && Readbacks(batch) && Total(batch) <= U32
    ensures StageOffset(batch, i) == Total(batch[..i])
  {
    TotalPrefix(batch, i, |batch|);
    assert batch[i] in batch;
  }

  lemma ReadLength(m: Memory, batch: seq<TensorCopy>, i: nat)
    requires i < |batch| && Readbacks(batch) && AllPossible(m, batch)
    ensures Inside(m, batch[i].src, batch[i].size) && |Read(m, batch[i].src, batch[i].size)| == batch[i].size
    ensures Inside(m, batch[i].dst, batch[i].size) && IsReadback(batch[i]) && 0 < batch[i].size
  {
    assert batch[i] in batch;
  }

  /** The heap holds the n-th tensor's bytes at its offset. */
  ghost predicate Intact(staged: seq<byte>, m: Memory, batch: seq<TensorCopy>, i: nat)
    requires i < |batch|
  {
    && StageOffset(batch, i) + batch[i].size <= |staged|
    && Inside(m, batch[i].src, batch[i].size)
    && Slice(staged, StageOffset(batch, i), batch[i].size) == Read(m, batch[i].src, batch[i].size)
  }

  lemma StageKeepsIntact(staged: seq<byte>, m: Memory, batch: seq<TensorCopy>, i: nat, offset: nat, data: seq<byte>)
    requires i < |batch| && Intact(staged, m, batch, i) && offset + |data| <= |staged|
    requires StageOffset(batch, i) + batch[i].size <= offset
    ensures Intact(Overwrite(staged, offset, data), m, batch, i)
  {
    hide StageOffset, Inside, Read;
    OverwriteFrame(staged, offset, data, StageOffset(batch, i), batch[i].size);
  }

  lemma InHeap(batch: seq<TensorCopy>, i: nat, capacity: nat)
    requires i < |batch| && FitsHeap(batch, capacity)
    ensures StageOffset(batch, i) + batch[i].size <= capacity
  {
  }

  lemma LastIntact(heap: seq<byte>, m: Memory, batch: seq<TensorCopy>, n: nat)
    requires 0 < n <= |batch| && Readbacks(batch) && AllPossible(m, batch) && FitsHeap(batch, |heap|)
    ensures Intact(StageAll(heap, m, batch, n), m, batch, n - 1)
  {
    InHeap(batch, n - 1, |heap|);
    ReadLength(m, batch, n - 1);
    hide Readbacks, AllPossible, FitsHeap, StageOffset, Overwrite, Read;
  }

  /** Without wrap-around the regions do not overlap, so each tensor's bytes are intact when they are copied out. */
  lemma {:induction false} StagedIntact(heap: seq<byte>, m: Memory, batch: seq<TensorCopy>, n: nat, i: nat)
    requires i < n <= |batch| && Readbacks(batch) && AllPossible(m, batch) && FitsHeap(batch, |heap|)
    requires Total(batch) <= U32
    ensures Intact(StageAll(heap, m, batch, n), m, batch, i)
  {
    hide Readbacks, AllPossible, FitsHeap, StageOffset, Overwrite, Read, Total, Intact;
    LastIntact(heap, m, batch, n);
    if i < n - 1 {
      InHeap(batch, n - 1, |heap|);
      ReadLength(m, batch, n - 1);
      NoWrapOffset(batch, n - 1);
      NoWrapOffset(batch, i);
      TotalPrefix(batch, i, n - 1);
      StagedIntact(heap, m, batch, n - 1, i);
      StageKeepsIntact(StageAll(heap, m, batch, n - 1), m, batch, i, StageOffset(batch, n - 1),
                       Read(m, batch[n - 1].src, batch[n - 1].size));
    }
  }

  /** Readbacks do not write GPU memory. */
  lemma {:induction false} ReadbacksLeaveGpu(m: Memory, batch: seq<TensorCopy>)
    requires Readbacks(batch)
    ensures DoAll(m, batch).gpu == m.gpu && |DoAll(m, batch).cpu| == |m.cpu|
  {
    if batch != [] {
      var last := batch[|batch| - 1];
      assert last in batch;
      ReadbacksLeaveGpu(m, batch[..|batch| - 1]);
      DoKeepsShape(DoAll(m, batch[..|batch| - 1]), last);
    }
  }

  /** Copying an intact tensor out of the heap is that tensor's readback. */
  lemma UnstageStep(staged: seq<byte>, m: Memory, d: Memory, batch: seq<TensorCopy>, i: nat)
    requires i < |batch| && Intact(staged, m, batch, i) && d.gpu == m.gpu && |d.cpu| == |m.cpu|
    requires Inside(m, batch[i].dst, batch[i].size) && IsReadback(batch[i]) && 0 < batch[i].size
    ensures Do(d, batch[i]).cpu
            == Overwrite(d.cpu, batch[i].dst.address, Slice(staged, StageOffset(batch, i), batch[i].size))
  {
    hide Overwrite, StageOffset;
  }

  lemma {:induction false} UnstagedIsSequential(heap: seq<byte>, m: Memory, batch: seq<TensorCopy>, n: nat)
    requires n <= |batch| && Readbacks(batch) && AllPossible(m, batch) && FitsHeap(batch, |heap|) && Total(batch) <= U32
    ensures UnstageAll(StageAll(heap, m, batch, |batch|), m, batch, n) == DoAll(m, batch[..n]).cpu
  {
    hide Overwrite, Slice, Total, StageOffset, FitsHeap, StageAll, Readbacks, AllPossible, Possible, Do, Intact, Inside;
    if 0 < n {
      assert batch[..n][..n - 1] == batch[..n - 1];
      UnstagedIsSequential(heap, m, batch, n - 1);
      PrefixIsReadbacks(batch, n - 1);
      ReadbacksLeaveGpu(m, batch[..n - 1]);
      StagedIntact(heap, m, batch, |batch|, n - 1);
      ReadLength(m, batch, n - 1);
      UnstageStep(StageAll(heap, m, batch, |batch|), m, DoAll(m, batch[..n - 1]), batch, n - 1);
    }
  }

  lemma PrefixIsReadbacks(batch: seq<TensorCopy>, n: nat)
    requires n <= |batch| && Readbacks(batch)
    ensures Readbacks(batch[..n])
  {
  }

  /** A batched readback is the same as reading the tensors back one by one, if the heap offsets do not wrap around. */
  lemma ReadbackIsSequential(heap: seq<byte>, m: Memory, batch: seq<TensorCopy>)
    requires Readbacks(batch) && AllPossible(m, batch) && FitsHeap(batch, |heap|) && Total(batch) <= U32
    ensures Readback(heap, m, batch) == DoAll(m, batch)
  {
    UnstagedIsSequential(heap, m, batch, |batch|);
    assert batch[..|batch|] == batch;
    ReadbacksLeaveGpu(m, batch);
  }

  // ----- the heap's size -----

  /** Doubles until the desired capacity is reached. */
  function Doubled(capacity: nat, desired: nat): (r: nat)
    requires 0 < capacity
    ensures desired <= r && capacity <= r
    decreases desired - capacity
  {
    if desired <= capacity then capacity else Doubled(2 * capacity, desired)
  }

  /** Doubling gives up before it would overflow. */
  predicate DoublingFails(capacity: nat, desired: nat)
    requires 0 < capacity
    decreases desired - capacity
  {
    capacity < desired && (SIZE_MAX / 2 <= capacity || DoublingFails(2 * capacity, desired))
  }

  lemma {:induction false} DoublingSucceeds(capacity: nat, desired: nat)
    requires 0 < capacity && desired <= SIZE_MAX / 2
    ensures !DoublingFails(capacity, desired)
    decreases desired - capacity
  {
    if capacity < desired {
      DoublingSucceeds(2 * capacity, desired);
    }
  }

  /** Doubling stops below twice what is needed. */
  lemma {:induction false} DoubledIsTight(capacity: nat, desired: nat)
    requires 0 < capacity < 2 * desired
    ensures Doubled(capacity, desired) < 2 * desired
    decreases desired - capacity
  {
    if capacity < desired {
      DoubledIsTight(2 * capacity, desired);
    }
  }

  /** Without a heap, growing starts at the initial capacity. */
  function Start(capacity: nat): (r: nat)
    ensures 0 < r
  {
    if capacity == 0 then INITIAL_CAPACITY else capacity
  }

  /** The capacity of the heap once it can hold `size` bytes. */
  function Grown(capacity: nat, size: nat): (r: nat)
    ensures size <= r && 0 < r
  {
    Doubled(Start(capacity), size)
  }

  /** The heap is large enough, or the device creates one that is: it creates buffers of up to `largest` bytes. */
  predicate HeapPossible(largest: nat, capacity: nat, size: nat)
  {
    || (0 < capacity && size <= capacity)
    || (!DoublingFails(Start(capacity), size) && Grown(capacity, size) <= largest)
  }

  /** An existing heap is kept if it is large enough. */
  function EnsuredHeap(heap: seq<byte>, size: nat): (r: seq<byte>)
    ensures |r| == Grown(|heap|, size)
  {
    if heap != [] && size <= |heap| then heap else seq(Grown(|heap|, size), _ => 0)
  }

  lemma {:induction false} DoubledMonotone(capacity: nat, a: nat, b: nat)
    requires 0 < capacity && a <= b
    ensures Doubled(capacity, a) <= Doubled(capacity, b)
    decreases b - capacity
  {
    if capacity < b {
      DoubledMonotone(2 * capacity, a, b);
    }
  }

  /** Growing in two steps leads to the same capacity as growing at once. */
  lemma {:induction false} DoubledTwice(capacity: nat, a: nat, b: nat)
    requires 0 < capacity
    ensures Doubled(Doubled(capacity, a), b) == if a <= b then Doubled(capacity, b) else Doubled(capacity, a)
    decreases a - capacity
  {
    if capacity < a {
      DoubledTwice(2 * capacity, a, b);
    }
    if b < a {
      DoubledMonotone(capacity, b, a);
    }
  }

  /** What a smaller heap is needed for is possible too. */
  lemma LessIsPossible(largest: nat, capacity: nat, a: nat, b: nat)
    requires a <= b <= SIZE_MAX / 2 && HeapPossible(largest, capacity, b)
    ensures HeapPossible(largest, capacity, a)
  {
    DoublingSucceeds(Start(capacity), a);
    DoubledMonotone(Start(capacity), a, b);
  }

  /** Growing the heap changes nothing about which sizes are possible. */
  lemma GrownIsAsPossible(largest: nat, capacity: nat, size: nat, other: nat)
    requires size <= SIZE_MAX / 2 && other <= SIZE_MAX / 2 && HeapPossible(largest, capacity, size)
    ensures HeapPossible(largest, Grown(capacity, size), other) <==> HeapPossible(largest, capacity, other)
  {
    DoublingSucceeds(Start(capacity), other);
    DoublingSucceeds(Grown(capacity, size), other);
    DoubledTwice(Start(capacity), size, other);
    if other <= size {
      LessIsPossible(largest, capacity, other, size);
    }
  }

  /** The 32-bit sum of the sizes is what the heap is sized for. */
  function HeapFor(heap: seq<byte>, batch: seq<TensorCopy>): seq<byte>
  {
    EnsuredHeap(heap, Total(batch) % U32)
  }

  lemma SmallBatchFits(heap: seq<byte>, batch: seq<TensorCopy>)
    requires Readbacks(batch) && Total(batch) < U32
    ensures FitsHeap(batch, |HeapFor(heap, batch)|)
  {
    hide Total, StageOffset, Readbacks, EnsuredHeap;
    assert Total(batch) % U32 == Total(batch);
    forall i | 0 <= i < |batch|
      ensures StageOffset(batch, i) + batch[i].size <= |HeapFor(heap, batch)|
    {
      NoWrapOffset(batch, i);
      TotalPrefix(batch, i, |batch|);
    }
  }

  // ----- flush-before-other-copies -----

  /** The bytes waiting to be read back after the first `n` copies. */
  function Waiting(copies: seq<TensorCopy>, n: nat): nat
    requires n <= |copies|
  {
    if n == 0 then 0
    else if Skipped(copies[n - 1]) then Waiting(copies, n - 1)
    else if IsReadback(copies[n - 1]) then Waiting(copies, n - 1) + copies[n - 1].size
    else 0
  }

  /** The API refuses none of the copies. */
  ghost predicate NoErrors(m: Memory, copies: seq<TensorCopy>)
  {
    forall c | c in copies :: Possible(m, c)
  }

  lemma {:induction false} DoAllKeepsShape(m: Memory, copies: seq<TensorCopy>)
    ensures SameShape(m, DoAll(m, copies))
  {
    if copies != [] {
      DoAllKeepsShape(m, copies[..|copies| - 1]);
      DoKeepsShape(DoAll(m, copies[..|copies| - 1]), copies[|copies| - 1]);
    }
  }

  lemma ShapeDecidesPossible(m: Memory, d: Memory, c: TensorCopy)
    requires SameShape(m, d)
    ensures Possible(m, c) <==> Possible(d, c)
  {
  }

  class CopyEngine {
    const largest: nat
    var memory: Memory
    var heap: seq<byte>

    constructor (largest: nat, m: Memory)
      ensures this.largest == largest && memory == m && heap == []
    {
      this.largest, memory, heap := largest, m, [];
    }

    method CreateReadbackHeap(capacity: nat) returns (ok: bool)
      modifies this`heap
      ensures ok <==> capacity <= largest
      ensures heap == if ok then seq(capacity, _ => 0) else []
    {
      ok := capacity <= largest;
      heap := if ok then seq(capacity, _ => 0) else [];
    }

    /** When the device refuses a larger heap, the old one is gone. */
    method EnsureReadbackHeap(size: nat) returns (ok: bool)
      modifies this`heap
      ensures ok <==> HeapPossible(largest, |old(heap)|, size)
      ensures heap == if ok then EnsuredHeap(old(heap), size)
                      else if DoublingFails(Start(|old(heap)|), size) then old(heap) else []
      ensures old(heap) != [] && size <= |old(heap)| ==> heap == old(heap)
    {
      if heap == [] {
        var capacity := ComputeNewCapacity(INITIAL_CAPACITY, size);
        if capacity == None {
          return false;
        }
        ok := CreateReadbackHeap(capacity.value);
      } else if |heap| < size {
        var capacity := ComputeNewCapacity(|heap|, size);
        if capacity == None {
          return false;
        }
        ok := CreateReadbackHeap(capacity.value);
      } else {
        ok := true;
      }
    }

    method ComputeNewCapacity(existing: nat, desired: nat) returns (capacity: Option<nat>)
      requires 0 < existing
      ensures capacity == if DoublingFails(existing, desired) then None else Some(Doubled(existing, desired))
    {
      var grown := existing;
      while grown < desired
        invariant 0 < grown && Doubled(grown, desired) == Doubled(existing, desired)
        invariant DoublingFails(grown, desired) <==> DoublingFails(existing, desired)
        decreases desired - grown
      {
        if SIZE_MAX / 2 <= grown {
          return None;
        }
        grown := grown * 2;
      }
      capacity := Some(grown);
    }

    /** Reads one tensor back: into the heap, wait, and out of it. */
    method ReadbackOne(c: TensorCopy) returns (ok: bool)
      requires IsReadback(c) && 0 < c.size && Possible(memory, c)
      modifies this
      ensures ok <==> HeapPossible(largest, |old(heap)|, c.size)
      ensures memory == if ok then Do(old(memory), c) else old(memory)
    {
      ok := EnsureReadbackHeap(c.size);
      if !ok {
        return;
      }
      heap := Overwrite(heap, 0, Read(memory, c.src, c.size));
      memory := memory.(cpu := Overwrite(memory.cpu, c.dst.address, Slice(heap, 0, c.size)));
    }

    /** Copies into the heap, waits, and copies out of it. */
    method ReadbackFromGpu(batch: seq<TensorCopy>) returns (ok: bool)
      requires Readbacks(batch) && AllPossible(memory, batch) && FitsHeap(batch, |HeapFor(heap, batch)|)
      modifies this
      ensures ok <==> HeapPossible(largest, |old(heap)|, Total(batch) % U32)
      ensures memory == if ok then Readback(HeapFor(old(heap), batch), old(memory), batch) else old(memory)
      ensures ok ==> |heap| == Grown(|old(heap)|, Total(batch) % U32)
    {
      hide *;
      var totalSize := SumSizes(batch);
      ok := EnsureReadbackHeap(totalSize);
      if !ok {
        return;
      }
      assert heap == HeapFor(old(heap), batch) by {
        HeapForIs(old(heap), batch);
      }
      StageTensors(batch);
      UnstageTensors(batch);
      ReadbackIs(HeapFor(old(heap), batch), old(memory), batch);
    }

    method SumSizes(batch: seq<TensorCopy>) returns (totalSize: nat)
      ensures totalSize == Total(batch) % U32
    {
      totalSize := 0;
      for i := 0 to |batch|
        invariant totalSize == StageOffset(batch, i)
      {
        StageOffsetStep(batch, i);
        totalSize := (totalSize + batch[i].size) % U32;
      }
      assert batch[..|batch|] == batch;
    }

    method StageTensors(batch: seq<TensorCopy>)
      requires Readbacks(batch) && AllPossible(memory, batch) && FitsHeap(batch, |heap|)
      modifies this`heap
      ensures heap == StageAll(old(heap), memory, batch, |batch|) && |heap| == |old(heap)|
    {
      hide StageOffset, Readbacks, AllPossible, FitsHeap, Overwrite, Read;
      var offset: nat := 0;
      StageOffsetZero(batch);
      for i := 0 to |batch|
        invariant heap == StageAll(old(heap), memory, batch, i) && offset == StageOffset(batch, i)
      {
        ReadLength(memory, batch, i);
        InHeap(batch, i, |heap|);
        StageOffsetStep(batch, i);
        heap := Overwrite(heap, offset, Read(memory, batch[i].src, batch[i].size));
        offset := (offset + batch[i].size) % U32;
      }
    }

    method UnstageTensors(batch: seq<TensorCopy>)
      requires Readbacks(batch) && AllPossible(memory, batch) && FitsHeap(batch, |heap|)
      modifies this`memory
      ensures memory == old(memory).(cpu := UnstageAll(heap, old(memory), batch, |batch|))
    {
      hide StageOffset, Readbacks, AllPossible, FitsHeap, Overwrite;
      var offset: nat := 0;
      StageOffsetZero(batch);
      for i := 0 to |batch|
        invariant memory == old(memory).(cpu := UnstageAll(heap, old(memory), batch, i))
        invariant offset == StageOffset(batch, i)
      {
        ReadLength(old(memory), batch, i);
        InHeap(batch, i, |heap|);
        StageOffsetStep(batch, i);
        memory := memory.(cpu := Overwrite(memory.cpu, batch[i].dst.address, Slice(heap, offset, batch[i].size)));
        offset := (offset + batch[i].size) % U32;
      }
    }

    /**
     GPU to CPU copies wait until another kind of copy or the end of the batch; the result is that of copying one
     tensor after the other, for any aliasing. The call fails exactly if some of the readbacks that wait together need
     a heap that cannot be made. Then what comes before them is done, and nothing else.
     */
    method CopyTensorsPlugin(copies: seq<TensorCopy>) returns (ok: bool)
      requires NoErrors(memory, copies)
      requires forall n: nat | n <= |copies| :: Waiting(copies, n) < U32
      modifies this
      ensures ok <==> AllGranted(largest, |old(heap)|, copies, |copies|)
      ensures ok ==> memory == DoAll(old(memory), copies)
      ensures !ok ==> exists k, n :: 0 <= k <= n <= |copies| && memory == DoAll(old(memory), copies[..k])
                        && AllGranted(largest, |old(heap)|, copies, k) && !Granted(largest, |old(heap)|, copies, n)
                        && (forall j | k <= j < n :: Skipped(copies[j]) || IsReadback(copies[j]))
    {
      hide DoAll, Do, Possible, Granted, HeapPossible, Waiting, Total, SameShape, AsPossible, Readbacks, AllPossible;
      hide Inside, Overwrite, Slice;
      ghost var m0, capacity := memory, |heap|;
      ghost var k: nat := 0;
      var pending: seq<TensorCopy> := [];
      NothingCopied(m0, copies);
      for i := 0 to |copies|
        invariant Readbacks(pending) && AllPossible(m0, pending) && Total(pending) == Waiting(copies, i)
        invariant k <= i && memory == DoAll(m0, copies[..k]) && SameShape(m0, memory)
        invariant DoAll(memory, pending) == DoAll(m0, copies[..i])
        invariant forall j | k <= j < i :: Skipped(copies[j]) || IsReadback(copies[j])
        invariant AsPossible(largest, |heap|, capacity)
        invariant AllGranted(largest, capacity, copies, k)
        invariant forall j: nat | k < j <= i :: Waiting(copies, j) <= Total(pending)
      {
        var c := copies[i];
        assert c in copies;
        assert copies[..i + 1] == copies[..i] + [c];
        DoAllSnoc(m0, copies[..i], c);
        WaitingStep(copies, i);
        if c.size == 0 {
          SkippedCopy(DoAll(m0, copies[..i]), c);
          continue;
        }
        if c.dst.Cpu? && c.src.Gpu? {
          DoAllSnoc(memory, pending, c);
          TotalSnoc(pending, c);
          assert Waiting(copies, i + 1) < U32;
          OneMoreReadback(m0, pending, c);
          pending := pending + [c];
        } else {
          assert Waiting(copies, i) < U32;
          ok := FlushPending(pending, m0, capacity);
          GrantedUpTo(largest, capacity, copies, k, i, Total(pending), ok);
          if !ok {
            return;
          }
          pending, k := [], i + 1;
          DoAtOnce(m0, memory, c);
          memory := Write(memory, c.dst, Read(memory, c.src, Bytes(c)));
          NothingCopied(memory, copies);
        }
      }
      assert copies[..|copies|] == copies;
      assert Waiting(copies, |copies|) < U32;
      ok := FlushPending(pending, m0, capacity);
      GrantedUpTo(largest, capacity, copies, k, |copies|, Total(pending), ok);
    }

    /** `capacity` is that of an earlier heap. */
    method FlushPending(pending: seq<TensorCopy>, ghost m0: Memory, ghost capacity: nat) returns (ok: bool)
      requires SameShape(m0, memory) && Readbacks(pending) && AllPossible(m0, pending) && Total(pending) < U32
      requires AsPossible(largest, |heap|, capacity)
      modifies this
      ensures ok <==> Total(pending) == 0 || HeapPossible(largest, capacity, Total(pending))
      ensures memory == (if ok then DoAll(old(memory), pending) else old(memory)) && SameShape(m0, memory)
      ensures ok ==> AsPossible(largest, |heap|, capacity)
    {
      hide *;
      StillPossible(m0, memory, pending);
      AfterReadbacks(m0, memory, pending);
      NothingDone(memory);
      TotalIsZero(pending);
      ok := true;
      if pending != [] {
        SmallBatchFits(heap, pending);
        ReadbackIsSequential(HeapFor(heap, pending), memory, pending);
        AsPossibleHeld(largest, |heap|, capacity, Total(pending));
        ok := ReadbackFromGpu(pending);
      }
    }
  }

  /** The heap for what waits after the first `n` copies can be made. */
  predicate Granted(largest: nat, capacity: nat, copies: seq<TensorCopy>, n: nat)
    requires n <= |copies|
  {
    Waiting(copies, n) == 0 || HeapPossible(largest, capacity, Waiting(copies, n))
  }

  ghost predicate AllGranted(largest: nat, capacity: nat, copies: seq<TensorCopy>, n: nat)
    requires n <= |copies|
  {
    forall k: nat | k <= n :: Granted(largest, capacity, copies, k)
  }

  /** Both capacities allow the same heaps. */
  ghost predicate AsPossible(largest: nat, a: nat, b: nat)
  {
    forall size: nat | size < U32 :: HeapPossible(largest, a, size) <==> HeapPossible(largest, b, size)
  }

  lemma AsPossibleHeld(largest: nat, a: nat, b: nat, size: nat)
    requires AsPossible(largest, a, b) && size < U32
    ensures size % U32 == size
    ensures HeapPossible(largest, a, size) <==> HeapPossible(largest, b, size)
    ensures HeapPossible(largest, a, size) ==> AsPossible(largest, Grown(a, size), b)
  {
    hide HeapPossible, Grown;
    if HeapPossible(largest, a, size) {
      forall other: nat | other < U32
        ensures HeapPossible(largest, Grown(a, size), other) <==> HeapPossible(largest, b, other)
      {
        GrownIsAsPossible(largest, a, size, other);
      }
    }
  }

  lemma StillPossible(m0: Memory, m: Memory, pending: seq<TensorCopy>)
    requires SameShape(m0, m) && AllPossible(m0, pending)
    ensures AllPossible(m, pending)
  {
    hide Possible, SameShape;
    forall c | c in pending
      ensures Possible(m, c)
    {
      ShapeDecidesPossible(m0, m, c);
    }
  }

  lemma AfterReadbacks(m0: Memory, m: Memory, pending: seq<TensorCopy>)
    requires SameShape(m0, m)
    ensures SameShape(m0, DoAll(m, pending))
  {
    DoAllKeepsShape(m, pending);
  }

  lemma NothingDone(m: Memory)
    ensures DoAll(m, []) == m
  {
  }

  lemma TotalIsZero(pending: seq<TensorCopy>)
    requires Readbacks(pending)
    ensures Total(pending) == 0 <==> pending == []
  {
    if pending != [] {
      assert pending[|pending| - 1] in pending;
    }
  }

  lemma NothingCopied(m: Memory, copies: seq<TensorCopy>)
    ensures DoAll(m, []) == m && SameShape(m, m) && Total([]) == 0 && Waiting(copies, 0) == 0
    ensures copies[..0] == [] && Readbacks([]) && AllPossible(m, [])
    ensures forall largest, capacity: nat ::
              AllGranted(largest, capacity, copies, 0) && AsPossible(largest, capacity, capacity)
  {
  }

  lemma WaitingStep(copies: seq<TensorCopy>, i: nat)
    requires i < |copies|
    ensures Waiting(copies, i + 1)
            == if Skipped(copies[i]) then Waiting(copies, i)
               else if IsReadback(copies[i]) then Waiting(copies, i) + copies[i].size else 0
  {
  }

  lemma OneMoreReadback(m: Memory, pending: seq<TensorCopy>, c: TensorCopy)
    requires Readbacks(pending) && AllPossible(m, pending) && IsReadback(c) && 0 < c.size < U32 && Possible(m, c)
    ensures Readbacks(pending + [c]) && AllPossible(m, pending + [c])
  {
    hide Possible;
  }

  lemma SkippedCopy(m: Memory, c: TensorCopy)
    requires c.size == 0
    ensures Do(m, c) == m
  {
  }

  lemma DoAtOnce(m0: Memory, m: Memory, c: TensorCopy)
    requires SameShape(m0, m) && Possible(m0, c) && !Skipped(c)
    ensures Inside(m, c.src, Bytes(c)) && Inside(m, c.dst, |Read(m, c.src, Bytes(c))|)
    ensures Do(m, c) == Write(m, c.dst, Read(m, c.src, Bytes(c))) && SameShape(m0, Do(m, c))
  {
    ShapeDecidesPossible(m0, m, c);
    DoKeepsShape(m, c);
  }

  /** Whether the last heap of a row of readbacks can be made decides about all that waited for it. */
  lemma GrantedUpTo(
      largest: nat, capacity: nat, copies: seq<TensorCopy>, k: nat, n: nat, total: nat, ok: bool)
    requires k <= n <= |copies| && total == Waiting(copies, n) < U32 && AllGranted(largest, capacity, copies, k)
    requires forall j: nat | k < j <= n :: Waiting(copies, j) <= total
    requires ok <==> total == 0 || HeapPossible(largest, capacity, total)
    ensures ok <==> Granted(largest, capacity, copies, n)
    ensures ok ==> AllGranted(largest, capacity, copies, n)
    ensures ok && n < |copies| && !Skipped(copies[n]) && !IsReadback(copies[n]) ==>
              AllGranted(largest, capacity, copies, n + 1)
  {
    hide HeapPossible, Waiting;
    if ok {
      forall j: nat | k < j <= n
        ensures Granted(largest, capacity, copies, j)
      {
        if 0 < Waiting(copies, j) {
          LessIsPossible(largest, capacity, Waiting(copies, j), total);
        }
      }
      if n < |copies| {
        WaitingStep(copies, n);
      }
    }
  }

  lemma StageOffsetStep(batch: seq<TensorCopy>, i: nat)
    requires i < |batch|
    ensures StageOffset(batch, i + 1) == (StageOffset(batch, i) + batch[i].size) % U32
  {
    assert batch[..i + 1][..i] == batch[..i];
  }

  lemma StageOffsetZero(batch: seq<TensorCopy>)
    ensures StageOffset(batch, 0) == 0
  {
  }

  lemma HeapForIs(heap: seq<byte>, batch: seq<TensorCopy>)
    ensures HeapFor(heap, batch) == EnsuredHeap(heap, Total(batch) % U32)
  {
  }

  lemma ReadbackIs(heap: seq<byte>, m: Memory, batch: seq<TensorCopy>)
    requires Readbacks(batch) && AllPossible(m, batch) && FitsHeap(batch, |heap|)
    ensures Readback(heap, m, batch) == m.(cpu := UnstageAll(StageAll(heap, m, batch, |batch|), m, batch, |batch|))
  {
  }

  lemma TotalSnoc(batch: seq<TensorCopy>, c: TensorCopy)
    ensures Total(batch + [c]) == Total(batch) + c.size
  {
    assert (batch + [c])[..|batch|] == batch;
  }
}
