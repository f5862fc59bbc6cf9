/**
 Placement inside one chunk of the pooled upload heap. A chunk is a ring buffer: allocations are appended at the
 back, and the front ones are reclaimed once their fence has been reached.
 */
module UploadRing {
  import opened Common

  const ALIGNMENT: nat := 512
  const MIN_CHUNK_SIZE: nat := 0x10_0000
  const MAX_CHUNK_SIZE: nat := 0xFFFF_0000
  const SIZE_T_RANGE: nat := 0x1_0000_0000_0000_0000

  datatype Allocation = Allocation(size: nat, offset: nat, fence: nat)
  {
    function End(): nat { offset + size }
  }

  /** `resource` is the identity of the D3D12 upload buffer that backs the chunk. */
  datatype Chunk = Chunk(capacity: nat, resource: nat, allocations: seq<Allocation>)

  /** The mask expression rounds down to a multiple of the (power of two) alignment; size_t sums wrap. */
  function Align(offset: nat): nat
  {
    var bumped := (offset + ALIGNMENT - 1) % SIZE_T_RANGE;
    bumped - bumped % ALIGNMENT
  }

  function FindOffset(chunk: Chunk, size: nat): Option<nat>
  {
    if chunk.capacity < size then None
    else if chunk.allocations == [] then Some(0)
    else
      var first := chunk.allocations[0];
      var last := chunk.allocations[|chunk.allocations| - 1];
      var begin := Align((last.offset + last.size) % SIZE_T_RANGE);
      var end := (begin + size) % SIZE_T_RANGE;
      if end < begin then None
      else if first.offset <= last.offset then
        if end <= chunk.capacity then Some(begin)
        else if size <= first.offset then Some(0)
        else None
      else if end <= first.offset then Some(begin)
      else None
  }

  // ----- the ring invariant -----

  predicate Aligned(offset: nat) { offset % ALIGNMENT == 0 }

  /** A live allocation is aligned and within the chunk. */
  predicate Fits(a: Allocation, capacity: nat)
  {
    Aligned(a.offset) && a.End() <= capacity
  }

  /**
   The allocations before `wrap` form one increasing run; those from `wrap` on form another one that lies entirely
   below the first allocation.
   */
  ghost predicate Runs(live: seq<Allocation>, wrap: nat)
  {
    && wrap <= |live|
    && (wrap == 0 ==> live == [])
    && (forall i, j | 0 <= i < j < wrap :: live[i].End() <= live[j].offset)
    && (forall i, j | wrap <= i < j < |live| :: live[i].End() <= live[j].offset)
    && (forall i, j | 0 <= i < wrap <= j < |live| :: live[j].End() <= live[i].offset)
  }

  ghost predicate Layout(chunk: Chunk)
  {
    && chunk.capacity <= MAX_CHUNK_SIZE
    && (forall i | 0 <= i < |chunk.allocations| :: Fits(chunk.allocations[i], chunk.capacity))
    && exists wrap: nat :: Runs(chunk.allocations, wrap)
  }

  /** A layout without empty allocations. */
  ghost predicate Ring(chunk: Chunk)
  {
    Layout(chunk) && forall i | 0 <= i < |chunk.allocations| :: 0 < chunk.allocations[i].size
  }

  function Push(chunk: Chunk, a: Allocation): Chunk
  {
    chunk.(allocations := chunk.allocations + [a])
  }

  ghost predicate Disjoint(a: Allocation, b: Allocation)
  {
    a.End() <= b.offset || b.End() <= a.offset
  }

  /** Live allocations never overlap. */
  lemma RingDisjoint(chunk: Chunk, i: nat, j: nat)
    requires Layout(chunk)
    requires i < |chunk.allocations| && j < |chunk.allocations| && i != j
    ensures Disjoint(chunk.allocations[i], chunk.allocations[j])
  {
    var live := chunk.allocations;
    var wrap: nat :| Runs(live, wrap);
    var lo, hi := if i < j then i else j, if i < j then j else i;
    if hi < wrap || wrap <= lo {
      assert live[lo].End() <= live[hi].offset;
    } else {
      assert live[hi].End() <= live[lo].offset;
    }
  }

  /** The last allocation is empty and begins where the first one does, and not all of them are like that. */
  predicate Misread(live: seq<Allocation>)
  {
    && live != []
    && live[|live| - 1].size == 0 && live[|live| - 1].offset == live[0].offset
    && exists i :: 0 <= i < |live| && (live[i].size != 0 || live[i].offset != live[0].offset)
  }

  /** In one run, nothing can lie between two places that are the same. */
  lemma OneRunBetween(live: seq<Allocation>)
    requires live != [] && Runs(live, |live|)
    requires live[|live| - 1].size == 0 && live[|live| - 1].offset == live[0].offset
    ensures !Misread(live)
  {
    forall i | 0 <= i < |live|
      ensures live[i].size == 0 && live[i].offset == live[0].offset
    {
      if 0 < i {
        assert live[0].End() <= live[i].offset;
      }
      if i < |live| - 1 {
        assert live[i].End() <= live[|live| - 1].offset;
      }
    }
  }

  lemma RingIsReadRight(chunk: Chunk)
    requires Ring(chunk)
    ensures !Misread(chunk.allocations)
  {
  }

  /**
   Comparing the offsets of the first and the last allocation tells whether the ring has wrapped, misread rings aside.
   */
  lemma WrapTest(chunk: Chunk)
    requires Layout(chunk) && chunk.allocations != []
    ensures var live := chunk.allocations;
            live[0].offset <= live[|live| - 1].offset <==> Runs(live, |live|) || Misread(live)
  {
    var live := chunk.allocations;
    var last := live[|live| - 1];
    if Runs(live, |live|) {
      if 1 < |live| {
        assert live[0].End() <= last.offset;
      }
    } else {
      LastBelowFirst(live);
      hide Runs, Layout;
      if live[0].offset <= last.offset && !Misread(live) {
        AllAlikeIsOneRun(live);
      }
    }
  }

  lemma LastBelowFirst(live: seq<Allocation>)
    requires live != [] && !Runs(live, |live|) && exists wrap: nat :: Runs(live, wrap)
    ensures live[|live| - 1].End() <= live[0].offset
  {
    var wrap: nat :| Runs(live, wrap);
  }

  lemma AllAlikeIsOneRun(live: seq<Allocation>)
    requires live != [] && forall i | 0 <= i < |live| :: live[i].size == 0 && live[i].offset == live[0].offset
    ensures Runs(live, |live|)
  {
  }

  /** `begin` is the least aligned offset at or after `from`. */
  ghost predicate LeastAligned(from: nat, begin: nat)
  {
    && Aligned(begin)
    && from <= begin < from + ALIGNMENT
    && forall o: nat | from <= o && Aligned(o) :: begin <= o
  }

  lemma AlignIsLeast(offset: nat)
    requires offset <= MAX_CHUNK_SIZE
    ensures LeastAligned(offset, Align(offset))
  {
    var bumped := offset + ALIGNMENT - 1;
    assert bumped % SIZE_T_RANGE == bumped;
    forall o: nat | offset <= o && Aligned(o)
      ensures Align(offset) <= o
    {
      assert Align(offset) <= bumped;
      assert Align(offset) % ALIGNMENT == 0;
    }
  }

  /** The search for a nonempty chunk, with unbounded integers and the candidate position passed in. */
  function Place(chunk: Chunk, size: nat, begin: nat): Option<nat>
    requires chunk.allocations != []
  {
    var first := chunk.allocations[0];
    var last := chunk.allocations[|chunk.allocations| - 1];
    if first.offset <= last.offset then
      if begin + size <= chunk.capacity then Some(begin)
      else if size <= first.offset then Some(0)
      else None
    else if begin + size <= first.offset then Some(begin)
    else None
  }

  lemma LastIsInside(chunk: Chunk)
    requires Layout(chunk) && chunk.allocations != []
    ensures chunk.allocations[|chunk.allocations| - 1].End() <= chunk.capacity <= MAX_CHUNK_SIZE
  {
    assert Fits(chunk.allocations[|chunk.allocations| - 1], chunk.capacity);
  }

  /** Within the size limit no sum wraps around, so the overflow test never fires. */
  lemma SearchDoesNotOverflow(chunk: Chunk, size: nat) returns (begin: nat)
    requires Layout(chunk) && chunk.allocations != [] && size <= chunk.capacity
    ensures LeastAligned(chunk.allocations[|chunk.allocations| - 1].End(), begin)
    ensures FindOffset(chunk, size) == Place(chunk, size, begin)
  {
    hide Layout, Align;
    var last := chunk.allocations[|chunk.allocations| - 1];
    LastIsInside(chunk);
    AlignIsLeast(last.End());
    begin := Align(last.End());
    assert last.End() % SIZE_T_RANGE == last.End();
    assert (begin + size) % SIZE_T_RANGE == begin + size;
  }

  /** An offset at which an allocation of `size` bytes keeps the chunk well formed. */
  ghost predicate Placeable(chunk: Chunk, size: nat, offset: nat, fence: nat)
  {
    Layout(Push(chunk, Allocation(size, offset, fence)))
  }

  lemma PlaceableInBounds(chunk: Chunk, size: nat, offset: nat, fence: nat)
    requires Placeable(chunk, size, offset, fence)
    ensures offset + size <= chunk.capacity
  {
    var grown := Push(chunk, Allocation(size, offset, fence));
    assert Fits(grown.allocations[|chunk.allocations|], chunk.capacity);
  }

  lemma EmptyChunkAccepts(chunk: Chunk, size: nat)
    requires chunk.allocations == [] && size <= chunk.capacity <= MAX_CHUNK_SIZE
    ensures Layout(chunk) && FindOffset(chunk, size) == Some(0)
  {
    assert Runs(chunk.allocations, 0);
  }

  /** What the search finds is in bounds, misread rings included. */
  lemma FoundInBounds(chunk: Chunk, size: nat)
    requires Layout(chunk) && FindOffset(chunk, size).Some?
    ensures FindOffset(chunk, size).value + size <= chunk.capacity
  {
    if chunk.allocations != [] {
      var begin := SearchDoesNotOverflow(chunk, size);
      PlaceFits(chunk, size, begin, 0);
    }
  }

  lemma ExtendFirstRun(live: seq<Allocation>, a: Allocation)
    requires live != [] && Runs(live, |live|) && live[|live| - 1].End() <= a.offset
    ensures Runs(live + [a], |live| + 1)
  {
    forall i | 0 <= i < |live|
      ensures live[i].End() <= a.offset
    {
      if i < |live| - 1 {
        assert live[i].End() <= live[|live| - 1].offset;
      }
    }
  }

  lemma ExtendSecondRun(live: seq<Allocation>, wrap: nat, a: Allocation)
    requires live != [] && Runs(live, wrap) && a.End() <= live[0].offset
    requires wrap < |live| ==> live[|live| - 1].End() <= a.offset
    ensures Runs(live + [a], wrap)
  {
    forall i | 0 <= i < wrap
      ensures a.End() <= live[i].offset
    {
      if 0 < i {
        assert live[0].End() <= live[i].offset;
      }
    }
    forall i | wrap <= i < |live|
      ensures live[i].End() <= a.offset
    {
      if i < |live| - 1 {
        assert live[i].End() <= live[|live| - 1].offset;
      }
    }
  }

  lemma PlaceFits(chunk: Chunk, size: nat, begin: nat, fence: nat)
    requires Layout(chunk) && chunk.allocations != [] && size <= chunk.capacity
    requires LeastAligned(chunk.allocations[|chunk.allocations| - 1].End(), begin)
    requires Place(chunk, size, begin).Some?
    ensures Fits(Allocation(size, Place(chunk, size, begin).value, fence), chunk.capacity)
    ensures chunk.allocations[|chunk.allocations| - 1].End() <= begin
  {
    assert Fits(chunk.allocations[0], chunk.capacity);
    hide Layout;
  }

  lemma SomeWrap(chunk: Chunk) returns (wrap: nat)
    requires Layout(chunk) && chunk.allocations != []
    ensures var live := chunk.allocations;
            && 0 < wrap <= |live| && Runs(live, wrap) && (Runs(live, |live|) ==> wrap == |live|)
            && (wrap < |live| ==> live[|live| - 1].End() <= live[0].offset)
  {
    var live := chunk.allocations;
    wrap :| Runs(live, wrap) && (Runs(live, |live|) ==> wrap == |live|);
  }

  lemma PushKeepsLayout(chunk: Chunk, a: Allocation, wrap: nat)
    requires Layout(chunk) && Fits(a, chunk.capacity) && Runs(chunk.allocations + [a], wrap)
    ensures Placeable(chunk, a.size, a.offset, a.fence)
  {
    hide Fits, Runs;
  }

  /**
   A place that does not extend the first run lies below the first allocation, behind the second run if there is one.
   */
  lemma PlaceBelowFirst(chunk: Chunk, size: nat, begin: nat, wrapped: bool)
    requires Layout(chunk) && chunk.allocations != [] && Place(chunk, size, begin).Some?
    requires LeastAligned(chunk.allocations[|chunk.allocations| - 1].End(), begin)
    requires !Misread(chunk.allocations) || size == 0
    requires wrapped <==> !Runs(chunk.allocations, |chunk.allocations|)
    requires wrapped ==> chunk.allocations[|chunk.allocations| - 1].End() <= chunk.allocations[0].offset
    requires wrapped || Place(chunk, size, begin).value != begin
    ensures Place(chunk, size, begin).value + size <= chunk.allocations[0].offset
    ensures wrapped ==> chunk.allocations[|chunk.allocations| - 1].End() <= Place(chunk, size, begin).value
  {
    WrapTest(chunk);
    assert Fits(chunk.allocations[0], chunk.capacity);
    assert wrapped ==> begin <= chunk.allocations[0].offset;
    hide Runs, Layout;
  }

  lemma PlaceKeepsLayout(chunk: Chunk, size: nat, begin: nat, fence: nat)
    requires Layout(chunk) && chunk.allocations != [] && size <= chunk.capacity
    requires !Misread(chunk.allocations) || size == 0
    requires LeastAligned(chunk.allocations[|chunk.allocations| - 1].End(), begin)
    requires Place(chunk, size, begin).Some?
    ensures Placeable(chunk, size, Place(chunk, size, begin).value, fence)
  {
    var live := chunk.allocations;
    var a := Allocation(size, Place(chunk, size, begin).value, fence);
    assert a.End() == Place(chunk, size, begin).value + size;
    hide *;
    PlaceFits(chunk, size, begin, fence);
    var wrap := SomeWrap(chunk);
    if wrap == |live| && a.offset == begin {
      ExtendFirstRun(live, a);
      PushKeepsLayout(chunk, a, |live| + 1);
    } else {
      PlaceBelowFirst(chunk, size, begin, wrap < |live|);
      ExtendSecondRun(live, wrap, a);
      PushKeepsLayout(chunk, a, wrap);
    }
  }

  lemma LastOfSecondRun(live: seq<Allocation>, wrap: nat)
    requires 2 <= |live| && Runs(live, wrap) && wrap < |live|
    ensures live[|live| - 1].End() <= live[0].offset
    ensures wrap < |live| - 1 ==> live[|live| - 2].End() <= live[|live| - 1].offset
  {
  }

  /** Where a nonempty allocation has a place, the ring is not misread. */
  lemma MisreadIsFull(chunk: Chunk, size: nat, offset: nat, fence: nat)
    requires Layout(chunk) && 0 < size && Placeable(chunk, size, offset, fence)
    ensures !Misread(chunk.allocations)
  {
    var live := chunk.allocations;
    var n := |live|;
    if n == 0 || live[n - 1].size != 0 || live[n - 1].offset != live[0].offset {
      return;
    }
    var grown := live + [Allocation(size, offset, fence)];
    var wrap: nat :| Runs(grown, wrap);
    hide Layout, Placeable, Fits, Misread;
    if wrap <= n {
      LastOfSecondRun(grown, wrap);
    }
    if n <= wrap {
      FirstRunOnly(live, Allocation(size, offset, fence), wrap);
      OneRunBetween(live);
    }
  }

  lemma FirstRunOnly(live: seq<Allocation>, a: Allocation, wrap: nat)
    requires Runs(live + [a], wrap) && |live| <= wrap
    ensures Runs(live, |live|)
  {
    assert forall k | 0 <= k < |live| :: (live + [a])[k] == live[k];
  }

  lemma PlaceIsComplete(chunk: Chunk, size: nat, offset: nat, fence: nat, begin: nat)
    requires chunk.allocations != [] && size <= chunk.capacity
    requires LeastAligned(chunk.allocations[|chunk.allocations| - 1].End(), begin)
    requires Placeable(chunk, size, offset, fence)
    ensures Place(chunk, size, begin).Some?
  {
    var live := chunk.allocations;
    var n := |live|;
    var grown := live + [Allocation(size, offset, fence)];
    var wrap: nat :| Runs(grown, wrap);
    assert grown[0] == live[0] && grown[n - 1] == live[n - 1];
    assert Fits(grown[n], chunk.capacity);
    if wrap <= n {
      LastOfSecondRun(grown, wrap);
      assert wrap == n && 1 < n ==> grown[0].End() <= grown[n - 1].offset;
    } else {
      assert grown[n - 1].End() <= grown[n].offset;
      assert 1 < n ==> grown[0].End() <= grown[n - 1].offset;
    }
    hide Layout, Runs;
  }

  /** The search does what it should: it finds a place exactly when there is one. */
  ghost predicate SearchIsRight(chunk: Chunk, size: nat, fence: nat)
  {
    && (FindOffset(chunk, size).Some? <==> exists o: nat :: Placeable(chunk, size, o, fence))
    && (FindOffset(chunk, size).Some? ==> Placeable(chunk, size, FindOffset(chunk, size).value, fence))
  }

  lemma SearchInReadableChunk(chunk: Chunk, size: nat, fence: nat)
    requires Layout(chunk) && (!Misread(chunk.allocations) || size == 0)
    ensures SearchIsRight(chunk, size, fence)
  {
    if FindOffset(chunk, size).Some? {
      if chunk.allocations == [] {
        assert Runs(chunk.allocations + [Allocation(size, 0, fence)], 1);
      } else {
        var begin := SearchDoesNotOverflow(chunk, size);
        PlaceKeepsLayout(chunk, size, begin, fence);
      }
    }
    hide Layout, Misread;
    forall o: nat | Placeable(chunk, size, o, fence)
      ensures FindOffset(chunk, size).Some?
    {
      PlaceableInBounds(chunk, size, o, fence);
      if chunk.allocations != [] {
        var begin := SearchDoesNotOverflow(chunk, size);
        PlaceIsComplete(chunk, size, o, fence, begin);
      }
    }
  }

  /** There is room behind or in front of the first allocation. */
  predicate RoomAroundFirst(chunk: Chunk, size: nat)
    requires chunk.allocations != []
  {
    chunk.allocations[0].offset + size <= chunk.capacity || size <= chunk.allocations[0].offset
  }

  /** A misread ring looks like one run that ends where the first allocation begins. */
  lemma MisreadSearch(chunk: Chunk, size: nat)
    requires Layout(chunk) && Misread(chunk.allocations)
    ensures FindOffset(chunk, size).Some? <==> RoomAroundFirst(chunk, size)
  {
    hide FindOffset;
    if size <= chunk.capacity {
      var begin := SearchDoesNotOverflow(chunk, size);
      assert Fits(chunk.allocations[0], chunk.capacity);
    } else {
      TooLarge(chunk, size);
      assert Fits(chunk.allocations[0], chunk.capacity);
    }
  }

  lemma TooLarge(chunk: Chunk, size: nat)
    requires chunk.capacity < size
    ensures FindOffset(chunk, size) == None
  {
  }

  /**
   The search is right for every chunk and every size, zero included, except for a nonempty request in a misread ring
   with room on a side of its first allocation: the search returns a place there, and there is none.
   */
  lemma FindOffsetCorrectIff(chunk: Chunk, size: nat, fence: nat)
    requires Layout(chunk)
    ensures SearchIsRight(chunk, size, fence)
            <==> !(0 < size && Misread(chunk.allocations) && RoomAroundFirst(chunk, size))
  {
    if !Misread(chunk.allocations) || size == 0 {
      SearchInReadableChunk(chunk, size, fence);
    } else {
      MisreadSearch(chunk, size);
      hide FindOffset, Layout, Misread;
      if o: nat :| Placeable(chunk, size, o, fence) {
        MisreadIsFull(chunk, size, o, fence);
      }
    }
  }

  /** In a chunk without empty allocations the search always finds a place if there is one. */
  lemma FindOffsetCorrect(chunk: Chunk, size: nat, fence: nat)
    requires Ring(chunk)
    ensures SearchIsRight(chunk, size, fence)
  {
    RingIsReadRight(chunk);
    SearchInReadableChunk(chunk, size, fence);
  }

  /** Dropping reclaimed allocations from the front keeps the layout. */
  lemma PopKeepsLayout(chunk: Chunk, n: nat)
    requires Layout(chunk) && n <= |chunk.allocations|
    ensures Layout(chunk.(allocations := chunk.allocations[n..]))
  {
    var live := chunk.allocations;
    var wrap: nat :| Runs(live, wrap);
    var rest := live[n..];
    if n < wrap {
      assert Runs(rest, wrap - n);
    } else {
      assert forall i | 0 <= i < |rest| :: rest[i] == live[n + i];
      assert Runs(rest, |rest|);
    }
  }

  /** One allocation, placed where the search says. */
  function Allocated(chunk: Chunk, size: nat, fence: nat): Chunk
    requires FindOffset(chunk, size).Some?
  {
    Push(chunk, Allocation(size, FindOffset(chunk, size).value, fence))
  }

  // ----- reclaiming -----

  ghost predicate FencesSorted(live: seq<Allocation>)
  {
    forall i, j | 0 <= i < j < |live| :: live[i].fence <= live[j].fence
  }

  /** Pops from the front while the front allocation's fence has been reached. */
  function Reclaimed(live: seq<Allocation>, completed: nat): (rest: seq<Allocation>)
    ensures |rest| <= |live| && rest == live[|live| - |rest|..]
    ensures forall i | 0 <= i < |live| - |rest| :: live[i].fence <= completed
    ensures rest != [] ==> completed < rest[0].fence
  {
    if live != [] && live[0].fence <= completed then
      var rest := Reclaimed(live[1..], completed);
      assert forall i | 1 <= i < |live| :: live[i] == live[1..][i - 1];
      rest
    else live
  }

  /** With sorted fences, popping from the front removes exactly the signaled allocations: none early, none left. */
  lemma ReclaimIsExact(live: seq<Allocation>, completed: nat)
    requires FencesSorted(live)
    ensures var rest := Reclaimed(live, completed);
            && (forall i | 0 <= i < |live| - |rest| :: live[i].fence <= completed)
            && (forall i | 0 <= i < |rest| :: completed < rest[i].fence)
            && FencesSorted(rest)
  {
    hide Reclaimed, FencesSorted;
    SuffixSorted(live, |live| - |Reclaimed(live, completed)|);
  }

  lemma SuffixSorted(live: seq<Allocation>, n: nat)
    requires FencesSorted(live) && n <= |live|
    ensures FencesSorted(live[n..]) && forall i | 0 <= i < |live[n..]| :: live[n..][0].fence <= live[n..][i].fence
  {
    forall i, j | 0 <= i <= j < |live[n..]|
      ensures live[n..][i].fence <= live[n..][j].fence
    {
      assert live[n..][i] == live[n + i] && live[n..][j] == live[n + j];
    }
  }

  /** Front popping needs the order: an unsorted deque keeps a signaled allocation behind an unsignaled one. */
  lemma ReclaimMissesUnsorted()
    ensures Reclaimed([Allocation(1, 0, 2), Allocation(1, 512, 1)], 1)
            == [Allocation(1, 0, 2), Allocation(1, 512, 1)]
  {
  }

  // ----- zero bytes -----

  const HALF: nat := 0x8_0000

  /** The search in a chunk of two halves, with whatever is at the ends of its deque. */
  lemma FindHalf(chunk: Chunk, size: nat)
    requires chunk.capacity == MIN_CHUNK_SIZE && chunk.allocations != [] && size in {0, HALF}
    requires chunk.allocations[|chunk.allocations| - 1].End() in {HALF, MIN_CHUNK_SIZE}
    ensures var first, last := chunk.allocations[0], chunk.allocations[|chunk.allocations| - 1];
            FindOffset(chunk, size)
            == if first.offset <= last.offset
               then if last.End() + size <= MIN_CHUNK_SIZE then Some(last.End())
                    else if size <= first.offset then Some(0) else None
               else if last.End() + size <= first.offset then Some(last.End()) else None
  {
    var last := chunk.allocations[|chunk.allocations| - 1];
    AlignHalf();
    hide Align;
    assert last.End() % SIZE_T_RANGE == last.End() && (last.End() + size) % SIZE_T_RANGE == last.End() + size;
  }

  lemma AlignHalf()
    ensures Align(HALF) == HALF && Align(MIN_CHUNK_SIZE) == MIN_CHUNK_SIZE
  {
  }

  /**
   A run of the search in a chunk of the least size: two halves fill it, the first one is reclaimed and its half used
   again, and zero bytes are requested. The next half goes on top of a live allocation.
   */
  lemma ZeroByteEntryBreaksRing() returns (full: Chunk, reused: Chunk, chunk: Chunk)
    ensures var start := Chunk(MIN_CHUNK_SIZE, 7, []);
            && FindOffset(start, HALF).Some? && FindOffset(Allocated(start, HALF, 1), HALF).Some?
            && full == Allocated(Allocated(start, HALF, 1), HALF, 2)
    ensures var reclaimed := full.(allocations := Reclaimed(full.allocations, 1));
            FindOffset(reclaimed, HALF).Some? && reused == Allocated(reclaimed, HALF, 3)
    ensures FindOffset(reused, 0).Some? && chunk == Allocated(reused, 0, 3)
    ensures chunk.allocations == [Allocation(HALF, HALF, 2), Allocation(HALF, 0, 3), Allocation(0, HALF, 3)]
    ensures Misread(chunk.allocations) && FindOffset(chunk, HALF) == Some(HALF)
  {
    hide FindOffset, Misread, Reclaimed;
    full := TwoHalves();
    reused := HalfReused(full);
    FindHalf(reused, 0);
    chunk := Allocated(reused, 0, 3);
    assert chunk.allocations == [Allocation(HALF, HALF, 2), Allocation(HALF, 0, 3), Allocation(0, HALF, 3)];
    FindHalf(chunk, HALF);
    MisreadHalf(chunk.allocations);
  }

  lemma TwoHalves() returns (full: Chunk)
    ensures var start := Chunk(MIN_CHUNK_SIZE, 7, []);
            && FindOffset(start, HALF).Some? && FindOffset(Allocated(start, HALF, 1), HALF).Some?
            && full == Allocated(Allocated(start, HALF, 1), HALF, 2)
    ensures full == Chunk(MIN_CHUNK_SIZE, 7, [Allocation(HALF, 0, 1), Allocation(HALF, HALF, 2)])
  {
    var start := Chunk(MIN_CHUNK_SIZE, 7, []);
    EmptyChunkAccepts(start, HALF);
    hide FindOffset;
    FindHalf(Allocated(start, HALF, 1), HALF);
    full := Allocated(Allocated(start, HALF, 1), HALF, 2);
    assert full.allocations == [Allocation(HALF, 0, 1), Allocation(HALF, HALF, 2)];
  }

  lemma HalfReused(full: Chunk) returns (reused: Chunk)
    requires full == Chunk(MIN_CHUNK_SIZE, 7, [Allocation(HALF, 0, 1), Allocation(HALF, HALF, 2)])
    ensures var reclaimed := full.(allocations := Reclaimed(full.allocations, 1));
            FindOffset(reclaimed, HALF).Some? && reused == Allocated(reclaimed, HALF, 3)
    ensures reused == Chunk(MIN_CHUNK_SIZE, 7, [Allocation(HALF, HALF, 2), Allocation(HALF, 0, 3)])
  {
    hide FindOffset;
    assert full.allocations[1..] == [Allocation(HALF, HALF, 2)];
    var reclaimed := full.(allocations := Reclaimed(full.allocations, 1));
    assert Reclaimed([Allocation(HALF, HALF, 2)], 1) == [Allocation(HALF, HALF, 2)];
    assert reclaimed.allocations == [Allocation(HALF, HALF, 2)];
    hide Reclaimed;
    FindHalf(reclaimed, HALF);
    reused := Allocated(reclaimed, HALF, 3);
    assert reused.allocations == [Allocation(HALF, HALF, 2), Allocation(HALF, 0, 3)];
  }

  lemma MisreadHalf(live: seq<Allocation>)
    requires live == [Allocation(HALF, HALF, 2), Allocation(HALF, 0, 3), Allocation(0, HALF, 3)]
    ensures Misread(live)
  {
    assert live[0].size != 0;
  }
}
