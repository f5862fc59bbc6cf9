/**
 Two limits of batched copies: readback heaps whose 32-bit offsets wrap around, and CopyTensors, which keeps all
 readbacks back until the end of the batch.
 */
module CopyLimits {
  import opened Common
  import opened CopyBatch
  import opened CopyTrace

  // ----- the size of the readback heap -----

  lemma {:induction false} FittingTotal(batch: seq<TensorCopy>, capacity: nat, n: nat)
    requires FitsHeap(batch, capacity) && capacity < U32 && n <= |batch|
    ensures Total(batch[..n]) <= capacity
  {
    if 0 < n {
      FittingTotal(batch, capacity, n - 1);
      assert batch[..n][..n - 1] == batch[..n - 1];
      SmallModulus(Total(batch[..n - 1]));
      hide FitsHeap;
    }
  }

  lemma SmallModulus(x: nat)
    requires x < U32
    ensures x % U32 == x
  {
  }

  /**
   The heap is sized for the 32-bit sum of the sizes. On a device that creates buffers below 2^32 bytes only, all
   tensors of a batch whose heap can be made lie inside it exactly if their sizes add up to less than 2^32, and then
   the batch is read back as if one by one.
   */
  lemma HeapSufficesIff(largest: nat, heap: seq<byte>, batch: seq<TensorCopy>)
    requires Readbacks(batch) && |heap| <= largest < U32 && HeapPossible(largest, |heap|, Total(batch) % U32)
    ensures FitsHeap(batch, |HeapFor(heap, batch)|) <==> Total(batch) < U32
    ensures Total(batch) < U32 ==>
              forall m | AllPossible(m, batch) :: Readback(HeapFor(heap, batch), m, batch) == DoAll(m, batch)
  {
    PossibleIsSmall(largest, |heap|, Total(batch) % U32);
    HeapForIs(heap, batch);
    hide *;
    if FitsHeap(batch, |HeapFor(heap, batch)|) {
      FittingTotal(batch, |HeapFor(heap, batch)|, |batch|);
      assert batch[..|batch|] == batch;
    }
    if Total(batch) < U32 {
      SmallBatchFits(heap, batch);
      forall m | AllPossible(m, batch)
        ensures Readback(HeapFor(heap, batch), m, batch) == DoAll(m, batch)
      {
        ReadbackIsSequential(HeapFor(heap, batch), m, batch);
      }
    }
  }

  lemma PossibleIsSmall(largest: nat, capacity: nat, size: nat)
    requires capacity <= largest && HeapPossible(largest, capacity, size)
    ensures Grown(capacity, size) <= largest
  {
  }

  /**
   From the initial capacity doubling skips from 2 GiB to 4 GiB, which such a device refuses for a batch in between.
   */
  lemma AboveTwoGigabytes(largest: nat, batch: seq<TensorCopy>)
    requires largest < U32 && 2 * GIB < Total(batch) < U32
    ensures |HeapFor([], batch)| == U32 && !HeapPossible(largest, 0, Total(batch) % U32)
  {
    var size := Total(batch);
    DoublesTo(INITIAL_CAPACITY, 0x80_0000, size);
    DoublesTo(0x80_0000, 0x400_0000, size);
    DoublesTo(0x400_0000, 0x2000_0000, size);
    DoublesTo(0x2000_0000, U32, size);
  }

  /** Three doublings below what is needed. */
  lemma DoublesTo(capacity: nat, larger: nat, size: nat)
    requires 0 < capacity && larger == 8 * capacity && 4 * capacity < size
    ensures Doubled(capacity, size) == Doubled(larger, size)
  {
    assert Doubled(capacity, size) == Doubled(2 * capacity, size);
    assert Doubled(2 * capacity, size) == Doubled(4 * capacity, size);
  }

  const GIB: nat := 0x4000_0000

  /** 3 GiB and 2 GiB get a heap for 1 GiB, and already the first tensor is copied past its end. */
  lemma FiveGigabytesOverrun(a: TensorCopy, b: TensorCopy)
    requires IsReadback(a) && IsReadback(b) && a.size == 3 * GIB && b.size == 2 * GIB
    ensures Readbacks([a, b]) && |HeapFor([], [a, b])| < 2 * GIB
    ensures StageOffset([a, b], 0) + a.size > |HeapFor([], [a, b])|
  {
    assert [a, b][..1] == [a] && [a][..0] == [];
    assert Total([a]) == Total([]) + a.size;
    assert Total([a, b]) % U32 == GIB;
    DoubledIsTight(INITIAL_CAPACITY, GIB);
  }

  // ----- readbacks at the end -----

  /** CopyTensors insists on equal sizes and does not copy within CPU memory. */
  predicate Refused(c: TensorCopy)
  {
    c.size != c.srcSize || (c.src.Cpu? && c.dst.Cpu? && c.size != 0)
  }

  function Others(copies: seq<TensorCopy>): seq<TensorCopy>
  {
    if copies == [] then []
    else
      var last := copies[|copies| - 1];
      Others(copies[..|copies| - 1]) + if IsReadback(last) then [] else [last]
  }

  function Deferred(copies: seq<TensorCopy>): seq<TensorCopy>
  {
    if copies == [] then []
    else
      var last := copies[|copies| - 1];
      Deferred(copies[..|copies| - 1]) + if IsReadback(last) && !Skipped(last) then [last] else []
  }

  ghost predicate Overlap(a: nat, n: nat, b: nat, k: nat)
  {
    a < b + k && b < a + n
  }

  /** The later copy `c` overwrites what `r` reads back, or uploads from where `r` puts it. */
  ghost predicate Conflict(r: TensorCopy, c: TensorCopy)
    requires IsReadback(r)
  {
    && !Skipped(r) && !Skipped(c) && c.dst.Gpu?
    && ((c.dst == r.src && c.src != r.src)
        || (c.src.Cpu? && Overlap(r.dst.address, r.size, c.src.address, c.size)))
  }

  lemma SliceFrame(memory: seq<byte>, offset: nat, data: seq<byte>, other: nat, count: nat)
    requires offset + |data| <= |memory| && other + count <= |memory| && !Overlap(offset, |data|, other, count)
    ensures Slice(Overwrite(memory, offset, data), other, count) == Slice(memory, other, count)
  {
    var updated := Overwrite(memory, offset, data);
    assert forall k | other <= k < other + count :: updated[k] == memory[k];
  }

  /** A readback and a copy to GPU memory can change places unless they conflict. */
  lemma Commute(m: Memory, r: TensorCopy, c: TensorCopy)
    requires IsReadback(r) && c.dst.Gpu? && !Conflict(r, c) && r.size == r.srcSize && c.size == c.srcSize
    ensures Do(Do(m, r), c) == Do(Do(m, c), r)
  {
    DoKeepsShape(m, r);
    DoKeepsShape(m, c);
    ShapeDecidesPossible(m, Do(m, r), c);
    ShapeDecidesPossible(m, Do(m, c), r);
    if !Skipped(r) && !Skipped(c) && Possible(m, r) && Possible(m, c) {
      var data := Read(m, r.src, r.size);
      if c.src.Cpu? {
        SliceFrame(m.cpu, r.dst.address, data, c.src.address, c.size);
      } else if c.dst == r.src {
        SelfCopy(m, c);
      }
      hide Overwrite, Slice, Overlap;
      assert Read(Do(m, r), c.src, c.size) == Read(m, c.src, c.size);
      assert Read(Do(m, c), r.src, r.size) == data;
    }
  }

  lemma SelfCopy(m: Memory, c: TensorCopy)
    requires c.dst.Gpu? && c.src == c.dst
    ensures Do(m, c) == m
  {
    if !Skipped(c) && Possible(m, c) {
      var buffer := m.gpu[c.dst.buffer];
      assert Overwrite(buffer, 0, Slice(buffer, 0, c.size)) == buffer;
    }
  }

  lemma {:induction false} CommuteAll(m: Memory, pending: seq<TensorCopy>, c: TensorCopy)
    requires c.dst.Gpu? && c.size == c.srcSize
    requires forall r | r in pending :: IsReadback(r) && r.size == r.srcSize && !Conflict(r, c)
    ensures Do(DoAll(m, pending), c) == DoAll(Do(m, c), pending)
  {
    if pending != [] {
      var front, r := pending[..|pending| - 1], pending[|pending| - 1];
      assert r in pending && forall x | x in front :: x in pending;
      CommuteAll(m, front, c);
      Commute(DoAll(m, front), r, c);
    }
  }

  /** No readback conflicts with a copy after it. */
  ghost predicate ConflictFree(copies: seq<TensorCopy>)
  {
    forall i, j | 0 <= i < j < |copies| && IsReadback(copies[i]) && !IsReadback(copies[j]) ::
      !Conflict(copies[i], copies[j])
  }

  ghost predicate Accepts(copies: seq<TensorCopy>)
  {
    forall c | c in copies :: !Refused(c)
  }

  lemma {:induction false} DeferredAreReadbacks(copies: seq<TensorCopy>)
    ensures forall r | r in Deferred(copies) :: r in copies && IsReadback(r) && !Skipped(r)
  {
    if copies != [] {
      DeferredAreReadbacks(copies[..|copies| - 1]);
    }
  }

  lemma DeferredReady(m: Memory, copies: seq<TensorCopy>)
    requires NoErrors(m, copies) && forall r | r in Deferred(copies) :: r.size < U32
    ensures Readbacks(Deferred(copies)) && AllPossible(m, Deferred(copies))
  {
    DeferredAreReadbacks(copies);
    hide Possible;
  }

  lemma EmptyBatch(copies: seq<TensorCopy>)
    ensures Accepts(copies[..0]) && Others(copies[..0]) == [] && Deferred(copies[..0]) == []
  {
  }

  lemma NextInBatch(copies: seq<TensorCopy>, i: nat)
    requires i < |copies|
    ensures var c, before, after := copies[i], copies[..i], copies[..i + 1];
            && (Accepts(after) <==> Accepts(before) && !Refused(c)) && (Accepts(copies) ==> Accepts(after))
            && Others(after) == (if IsReadback(c) then Others(before) else Others(before) + [c])
            && Deferred(after) == if IsReadback(c) && !Skipped(c) then Deferred(before) + [c] else Deferred(before)
  {
    assert copies[..i + 1] == copies[..i] + [copies[i]] && copies[..i + 1][..i] == copies[..i];
    hide Refused;
  }

  lemma NoErrorAt(m: Memory, copies: seq<TensorCopy>, i: nat)
    requires NoErrors(m, copies) && i < |copies|
    ensures Possible(m, copies[i])
  {
    hide Possible;
  }

  /**
   With all readbacks at the end the result is still the sequential one, if no readback conflicts with a later copy.
   */
  lemma {:induction false} DeferredIsSequential(m: Memory, copies: seq<TensorCopy>)
    requires Accepts(copies) && ConflictFree(copies)
    ensures DoAll(DoAll(m, Others(copies)), Deferred(copies)) == DoAll(m, copies)
  {
    if copies != [] {
      var front, last := copies[..|copies| - 1], copies[|copies| - 1];
      FrontOfBatch(copies);
      DeferredIsSequential(m, front);
      hide *;
      if IsReadback(last) {
        ReadbackAtEnd(m, copies);
      } else {
        OtherAtEnd(m, copies);
      }
    } else {
      NothingDone(m);
    }
  }

  lemma FrontOfBatch(copies: seq<TensorCopy>)
    requires Accepts(copies) && ConflictFree(copies) && copies != []
    ensures Accepts(copies[..|copies| - 1]) && ConflictFree(copies[..|copies| - 1])
    ensures var last := copies[|copies| - 1];
            && !Refused(last)
            && forall r | r in Deferred(copies[..|copies| - 1]) ::
                 IsReadback(r) && !Refused(r) && (!IsReadback(last) ==> !Conflict(r, last))
  {
    hide Conflict, Deferred, Refused, IsReadback;
    var front := copies[..|copies| - 1];
    DeferredAreReadbacks(front);
    assert forall c | c in front :: c in copies;
    forall r | r in Deferred(front)
      ensures !IsReadback(copies[|copies| - 1]) ==> !Conflict(r, copies[|copies| - 1])
    {
      var i :| 0 <= i < |front| && front[i] == r;
      assert copies[i] == r;
    }
  }

  lemma ReadbackAtEnd(m: Memory, copies: seq<TensorCopy>)
    requires copies != [] && IsReadback(copies[|copies| - 1])
    requires var front := copies[..|copies| - 1];
             DoAll(DoAll(m, Others(front)), Deferred(front)) == DoAll(m, front)
    ensures DoAll(DoAll(m, Others(copies)), Deferred(copies)) == DoAll(m, copies)
  {
    var front, last := copies[..|copies| - 1], copies[|copies| - 1];
    assert Others(copies) == Others(front);
    assert DoAll(m, copies) == Do(DoAll(m, front), last);
    if Skipped(last) {
      assert Deferred(copies) == Deferred(front);
    } else {
      hide Do, Possible;
      DoAllSnoc(DoAll(m, Others(front)), Deferred(front), last);
    }
  }

  lemma OtherAtEnd(m: Memory, copies: seq<TensorCopy>)
    requires copies != [] && !IsReadback(copies[|copies| - 1]) && !Refused(copies[|copies| - 1])
    requires var front := copies[..|copies| - 1];
             && DoAll(DoAll(m, Others(front)), Deferred(front)) == DoAll(m, front)
             && forall r | r in Deferred(front) :: IsReadback(r) && !Refused(r) && !Conflict(r, copies[|copies| - 1])
    ensures DoAll(DoAll(m, Others(copies)), Deferred(copies)) == DoAll(m, copies)
  {
    hide Conflict, Possible;
    var front, last := copies[..|copies| - 1], copies[|copies| - 1];
    var base := DoAll(m, Others(front));
    assert Deferred(copies) == Deferred(front);
    assert DoAll(m, copies) == Do(DoAll(m, front), last);
    DoAllSnoc(m, Others(front), last);
    assert DoAll(m, Others(copies)) == Do(base, last);
    if Skipped(last) {
      assert Do(base, last) == base && Do(DoAll(m, front), last) == DoAll(m, front);
    } else {
      hide Do, DoAll, Others, Deferred;
      CommuteAll(base, Deferred(front), last);
    }
  }

  lemma {:induction false} OthersAreCopies(copies: seq<TensorCopy>)
    ensures forall c | c in Others(copies) :: c in copies
  {
    if copies != [] {
      OthersAreCopies(copies[..|copies| - 1]);
    }
  }

  /**
   Exactly when the readbacks may wait until the end: every byte that some copy writes comes from the same place in both
   orders. That takes addresses and sizes only, so a caller can find out before the call.
   */
  lemma DeferredIsSequentialIff(copies: seq<TensorCopy>)
    ensures (forall m | NoErrors(m, copies) :: DoAll(DoAll(m, Others(copies)), Deferred(copies)) == DoAll(m, copies))
            <==> SameOriginsIn(copies, Others(copies) + Deferred(copies), copies)
  {
    hide Do, DoAll, Possible, Others, Deferred, SameOriginsIn, SameOrigins;
    var reordered := Others(copies) + Deferred(copies);
    OthersAreCopies(copies);
    DeferredAreReadbacks(copies);
    WrittenDecide(copies, reordered, copies);
    SameEffectIff(reordered, copies);
    forall m
      ensures DoAll(m, reordered) == DoAll(DoAll(m, Others(copies)), Deferred(copies))
      ensures NoErrors(m, copies) ==> NoErrors(m, reordered)
    {
      DoAllSplit(m, Others(copies), Deferred(copies));
    }
  }

  /** For a readback and one later copy the condition is exact: it is needed as soon as memory may hold anything. */
  lemma PairIsSequentialIff(r: TensorCopy, c: TensorCopy)
    requires IsReadback(r) && c.dst.Gpu? && !Refused(r) && !Refused(c) && !Skipped(r) && !Skipped(c)
    ensures (forall m | Possible(m, r) && Possible(m, c) :: DoAll(m, [r, c]) == DoAll(m, [c, r])) <==> !Conflict(r, c)
  {
    hide DoAll, Do, Possible, Conflict, Origin;
    forall m
      ensures NoErrors(m, [r, c]) && NoErrors(m, [c, r]) <==> Possible(m, r) && Possible(m, c)
      ensures !Conflict(r, c) ==> DoAll(m, [r, c]) == DoAll(m, [c, r])
    {
      assert r in [r, c] && c in [r, c];
      DoTwo(m, r, c);
      DoTwo(m, c, r);
      if !Conflict(r, c) {
        Commute(m, r, c);
      }
    }
    if Conflict(r, c) {
      var l := ConflictShows(r, c);
      if SameEffect([r, c], [c, r]) {
        SameOriginsNeeded([r, c], [c, r], l);
      }
    }
  }

  lemma ByteReadBack(m: Memory, r: TensorCopy)
    requires IsReadback(r) && r.size == 1 && Possible(m, r)
    ensures r.dst.address < |m.cpu| && r.src.buffer in m.gpu && 0 < |m.gpu[r.src.buffer]|
    ensures Do(m, r) == m.(cpu := m.cpu[r.dst.address := m.gpu[r.src.buffer][0]])
  {
    assert Read(m, r.src, 1) == [m.gpu[r.src.buffer][0]];
  }

  lemma ByteUploaded(m: Memory, c: TensorCopy)
    requires c.dst.Gpu? && c.src.Cpu? && c.size == 1 && Possible(m, c)
    ensures c.src.address < |m.cpu| && c.dst.buffer in m.gpu && 0 < |m.gpu[c.dst.buffer]|
    ensures Do(m, c) == m.(gpu := m.gpu[c.dst.buffer := m.gpu[c.dst.buffer][0 := m.cpu[c.src.address]]])
  {
    var buffer, x := m.gpu[c.dst.buffer], m.cpu[c.src.address];
    assert Read(m, c.src, 1) == [x];
    assert Overwrite(buffer, 0, [x]) == buffer[0 := x];
  }

  /** One byte is read back from a buffer and another one uploaded to it afterwards: the upload is what arrives. */
  lemma LaterCopyIsReadBack()
    ensures var r, c := TensorCopy(Cpu(0), Gpu(7), 1, 1), TensorCopy(Gpu(7), Cpu(1), 1, 1);
            var m := Memory([0, 5], map[7 := [9]]);
            && NoErrors(m, [r, c]) && Others([r, c]) == [c] && Deferred([r, c]) == [r]
            && DoAll(m, [r, c]).cpu == [9, 5]
            && DoAll(DoAll(m, [c]), [r]).cpu == [5, 5]
  {
    var r, c := TensorCopy(Cpu(0), Gpu(7), 1, 1), TensorCopy(Gpu(7), Cpu(1), 1, 1);
    var m := Memory([0, 5], map[7 := [9]]);
    OneOfEach(r, c);
    assert Possible(m, r) && Possible(m, c);
    DoKeepsShape(m, r);
    DoKeepsShape(m, c);
    ShapeDecidesPossible(m, Do(m, r), c);
    ShapeDecidesPossible(m, Do(m, c), r);
    hide Do, DoAll, Others, Deferred, Inside;
    ByteReadBack(m, r);
    ByteUploaded(Do(m, r), c);
    ByteUploaded(m, c);
    ByteReadBack(Do(m, c), r);
    DoTwo(m, r, c);
    DoTwo(m, c, r);
    DoAllSplit(m, [c], [r]);
    assert [c] + [r] == [c, r];
  }

  lemma OneOfEach(r: TensorCopy, c: TensorCopy)
    requires IsReadback(r) && !Skipped(r) && !IsReadback(c)
    ensures Others([r, c]) == [c] && Deferred([r, c]) == [r]
  {
    hide Others, Deferred;
    EmptyBatch([r, c]);
    NextInBatch([r, c], 0);
    NextInBatch([r, c], 1);
    assert [r, c][..2] == [r, c] && [r, c][..0 + 1] == [r, c][..1];
  }

  lemma DoTwo(m: Memory, a: TensorCopy, b: TensorCopy)
    ensures DoAll(m, [a, b]) == Do(Do(m, a), b)
  {
    assert [a, b][..1] == [a] && [a][..0] == [];
    assert DoAll(m, [a]) == Do(DoAll(m, []), a);
  }

  lemma OriginOfTwo(a: TensorCopy, b: TensorCopy, l: Location)
    ensures Origin([a, b], l) == Before(a, Before(b, l))
  {
    assert [a, b][..1] == [a] && [a][..0] == [];
    assert Origin([a], Before(b, l)) == Origin([], Before(a, Before(b, l)));
  }

  /** Under a conflict some byte comes from somewhere else. */
  lemma ConflictShows(r: TensorCopy, c: TensorCopy) returns (l: Location)
    requires IsReadback(r) && c.dst.Gpu? && !Refused(r) && !Refused(c) && Conflict(r, c)
    ensures Origin([r, c], l) != Origin([c, r], l)
  {
    hide Origin;
    if c.dst == r.src && c.src != r.src {
      l := InCpu(r.dst.address);
    } else {
      l := InGpu(c.dst.buffer, if c.src.address < r.dst.address then r.dst.address - c.src.address else 0);
    }
    OriginOfTwo(r, c, l);
    OriginOfTwo(c, r, l);
  }

  /** One copy of any kind. */
  method CopyTensor(engine: CopyEngine, c: TensorCopy) returns (ok: bool)
    requires Possible(engine.memory, c)
    modifies engine
    ensures ok <==> !Refused(c)
                    && (IsReadback(c) && c.size != 0 ==> HeapPossible(engine.largest, |old(engine.heap)|, c.size))
    ensures engine.memory == if ok then Do(old(engine.memory), c) else old(engine.memory)
    ensures !IsReadback(c) ==> engine.heap == old(engine.heap)
  {
    if c.size != c.srcSize {
      return false;
    }
    if c.size == 0 {
      return true;
    }
    if c.dst.Cpu? && c.src.Cpu? {
      return false;
    }
    if c.dst.Cpu? {
      ok := engine.ReadbackOne(c);
      return;
    }
    engine.memory := Write(engine.memory, c.dst, Read(engine.memory, c.src, c.size));
    ok := true;
  }

  /**
   Copies to GPU memory are done as they come, readbacks together at the end. A refused copy ends the call, and the
   readbacks collected until then are lost. So are all of them if their heap cannot be made.
   */
  method CopyTensors(engine: CopyEngine, copies: seq<TensorCopy>) returns (ok: bool)
    requires NoErrors(engine.memory, copies)
    requires Total(Deferred(copies)) < U32 && forall r | r in Deferred(copies) :: r.size < U32
    modifies engine
    ensures ok <==> Accepts(copies) && (Total(Deferred(copies)) == 0
                                        || HeapPossible(engine.largest, |old(engine.heap)|, Total(Deferred(copies))))
    ensures ok ==> engine.memory == DoAll(DoAll(old(engine.memory), Others(copies)), Deferred(copies))
    ensures !ok && Accepts(copies) ==> engine.memory == DoAll(old(engine.memory), Others(copies))
    ensures !Accepts(copies) ==> exists k :: 0 <= k < |copies| && Refused(copies[k]) && Accepts(copies[..k])
                                   && engine.memory == DoAll(old(engine.memory), Others(copies[..k]))
  {
    hide Possible, Do, DoAll, Total, SameShape, HeapPossible, AsPossible, Readbacks, AllPossible, NoErrors;
    hide Others, Deferred, Accepts;
    ghost var m0, capacity := engine.memory, |engine.heap|;
    var pending: seq<TensorCopy> := [];
    NothingCopied(m0, copies);
    EmptyBatch(copies);
    for i := 0 to |copies|
      invariant SameShape(m0, engine.memory) && engine.heap == old(engine.heap)
      invariant Accepts(copies[..i]) && pending == Deferred(copies[..i])
      invariant engine.memory == DoAll(m0, Others(copies[..i]))
    {
      var c := copies[i];
      NoErrorAt(m0, copies, i);
      NextInBatch(copies, i);
      if c.src.Cpu? || !c.dst.Cpu? {
        ShapeDecidesPossible(m0, engine.memory, c);
        var done := CopyTensor(engine, c);
        if !done {
          return false;
        }
        DoAllSnoc(m0, Others(copies[..i]), c);
        DoAllKeepsShape(m0, Others(copies[..i + 1]));
      } else if c.size != c.srcSize {
        return false;
      } else if c.size != 0 {
        pending := pending + [c];
      }
    }
    assert copies[..|copies|] == copies;
    DeferredReady(m0, copies);
    ok := engine.FlushPending(pending, m0, capacity);
  }
}
