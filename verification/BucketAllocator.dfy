/**
 The bucketized buffer allocator: a pool of power-of-two buffers in front of a sub-allocator. `home` records where every
 buffer ever created is: in a bucket, held by an allocation, or handed to the execution context for release.
 */
module BucketAllocator {
  import opened Common

  const MIN_EXPONENT: nat := 16

  function Pow2(e: nat): (r: nat)
    ensures 0 < r
  {
    if e == 0 then 1 else 2 * Pow2(e - 1)
  }

  lemma {:induction false} Pow2Monotone(a: nat, b: nat)
    requires a <= b
    ensures Pow2(a) <= Pow2(b)
    decreases b
  {
    if a < b {
      Pow2Monotone(a, b - 1);
    }
  }

  /** The integer form of ceil(log2(n)). */
  function CeilLog2(n: nat): (e: nat)
    requires 0 < n
    ensures n <= Pow2(e)
    ensures 0 < e ==> Pow2(e - 1) < n
  {
    if n == 1 then 0 else 1 + CeilLog2((n + 1) / 2)
  }

  function BucketIndex(size: nat): nat
    requires 0 < size
  {
    var e := CeilLog2(size);
    if e < MIN_EXPONENT then 0 else e - MIN_EXPONENT
  }

  function BucketSize(index: nat): nat
  {
    Pow2(index + MIN_EXPONENT)
  }

  /** The bucket of a size is the smallest one that holds it. */
  lemma SmallestBucket(size: nat, index: nat)
    requires 0 < size
    ensures BucketIndex(size) <= index <==> size <= BucketSize(index)
  {
    var e := CeilLog2(size);
    if BucketIndex(size) <= index {
      Pow2Monotone(e, index + MIN_EXPONENT);
    } else {
      Pow2Monotone(index + MIN_EXPONENT, e - 1);
    }
  }

  /** Above 64 KB at most half of a pooled buffer is wasted. */
  lemma PooledWidthBounds(size: nat)
    requires 0 < size
    ensures size <= BucketSize(BucketIndex(size))
    ensures BucketSize(0) < size ==> BucketSize(BucketIndex(size)) < 2 * size
    ensures size <= BucketSize(0) ==> BucketSize(BucketIndex(size)) == BucketSize(0) == 0x1_0000
  {
    SmallestBucket(size, BucketIndex(size));
    SmallestBucket(size, 0);
    SixtyFourKilobytes();
    if BucketSize(0) < size {
      SmallestBucket(size, BucketIndex(size) - 1);
    }
  }

  lemma SixtyFourKilobytes()
    ensures Pow2(16) == 0x1_0000
  {
    assert Pow2(4) == 16;
    assert Pow2(8) == 256;
    assert Pow2(12) == 4096;
  }

  /** (size + 3) & ~3 */
  function AlignFour(size: nat): (r: nat)
    ensures r % 4 == 0 && size <= r < size + 4
  {
    (size + 3) / 4 * 4
  }

  lemma BucketSizeIsMultipleOfFour(index: nat)
    ensures BucketSize(index) % 4 == 0
  {
    assert Pow2(index + 16) == 2 * Pow2(index + 15);
    assert Pow2(index + 15) == 2 * Pow2(index + 14);
    FourTimes(Pow2(index + 14));
  }

  lemma FourTimes(n: nat)
    ensures (2 * (2 * n)) % 4 == 0
  {
  }

  /**
   An unpooled buffer has the width of its size's bucket exactly when the size is at most three bytes short of it. The
   pool adopts such a buffer when it is freed.
   */
  lemma AdoptedIff(size: nat)
    requires 0 < size && size != BucketSize(BucketIndex(size))
    ensures AlignFour(size) == BucketSize(BucketIndex(size)) <==> BucketSize(BucketIndex(size)) - 3 <= size
  {
    BucketSizeIsMultipleOfFour(BucketIndex(size));
    PooledWidthBounds(size);
    hide BucketSize, BucketIndex, AlignFour;
    RoundsUpToIff(size, BucketSize(BucketIndex(size)));
  }

  lemma RoundsUpToIff(size: nat, width: nat)
    requires width % 4 == 0 && size <= width
    ensures AlignFour(size) == width <==> width - 3 <= size
  {
    hide AlignFour;
  }

  // ----- state -----

  datatype Buffer = Buffer(id: nat, width: nat)

  datatype Allocation = Allocation(id: nat, buffer: Buffer, size: nat)

  datatype Place = InBucket(index: nat) | Held(allocation: nat) | Retired

  /** The width follows from the size: that of its bucket, which exists, or the size rounded up to four bytes. */
  predicate WidthOk(a: Allocation, buckets: nat)
  {
    && 0 < a.size
    && var index := BucketIndex(a.size);
    || (a.buffer.width == BucketSize(index) && index < buckets)
    || (a.buffer.width == AlignFour(a.size) && a.size != BucketSize(index))
  }

  /** Every bucket holds buffers of its own width only, each of them recorded there, and once. */
  ghost predicate PoolOk(pool: seq<seq<Buffer>>, home: map<nat, Place>)
  {
    && (forall i, k | 0 <= i < |pool| && 0 <= k < |pool[i]| ::
          && pool[i][k].id in home && home[pool[i][k].id] == InBucket(i) && pool[i][k].width == BucketSize(i))
    && (forall i, k, l | 0 <= i < |pool| && 0 <= k < l < |pool[i]| :: pool[i][k].id != pool[i][l].id)
    && (forall id | id in home && home[id].InBucket? ::
          home[id].index < |pool| && exists k :: 0 <= k < |pool[home[id].index]| && pool[home[id].index][k].id == id)
  }

  ghost predicate OutstandingOk(outstanding: map<nat, Allocation>, home: map<nat, Place>, lastId: nat, buckets: nat)
  {
    && (forall a | a in outstanding ::
          && a <= lastId && outstanding[a].id == a && WidthOk(outstanding[a], buckets)
          && outstanding[a].buffer.id in home && home[outstanding[a].buffer.id] == Held(a))
    && (forall id | id in home && home[id].Held? ::
          home[id].allocation in outstanding && outstanding[home[id].allocation].buffer.id == id)
  }

  /** The pool with at least `n` buckets. */
  function GrownTo(pool: seq<seq<Buffer>>, n: nat): (r: seq<seq<Buffer>>)
    ensures pool <= r && (forall i | |pool| <= i < |r| :: r[i] == [])
    ensures |r| == if |pool| < n then n else |pool|
  {
    if |pool| < n then pool + seq(n - |pool|, _ => []) else pool
  }

  lemma LargeEnough(pool: seq<seq<Buffer>>, n: nat)
    ensures n <= |pool| ==> GrownTo(pool, n) == pool
  {
  }

  lemma GrowKeepsPool(pool: seq<seq<Buffer>>, home: map<nat, Place>, n: nat)
    requires PoolOk(pool, home)
    ensures PoolOk(GrownTo(pool, n), home)
  {
    hide BucketSize;
    var grown: seq<seq<Buffer>> := GrownTo(pool, n);
    forall id | id in home && home[id].InBucket?
      ensures exists k :: 0 <= k < |grown[home[id].index]| && grown[home[id].index][k].id == id
    {
      var k :| 0 <= k < |pool[home[id].index]| && pool[home[id].index][k].id == id;
      assert grown[home[id].index][k].id == id;
    }
  }

  /** Taking the last buffer out of a bucket. */
  lemma TakeKeepsPool(pool: seq<seq<Buffer>>, home: map<nat, Place>, index: nat, allocation: nat)
    requires PoolOk(pool, home) && index < |pool| && pool[index] != []
    ensures var bucket := pool[index]; var last := bucket[|bucket| - 1];
            PoolOk(pool[index := bucket[..|bucket| - 1]], home[last.id := Held(allocation)])
  {
    hide BucketSize;
    var bucket := pool[index];
    var last := bucket[|bucket| - 1];
    var pool': seq<seq<Buffer>> := pool[index := bucket[..|bucket| - 1]];
    var home' := home[last.id := Held(allocation)];
    forall id | id in home' && home'[id].InBucket?
      ensures exists k :: 0 <= k < |pool'[home'[id].index]| && pool'[home'[id].index][k].id == id
    {
      var k :| 0 <= k < |pool[home[id].index]| && pool[home[id].index][k].id == id;
      assert pool'[home[id].index][k] == pool[home[id].index][k];
    }
  }

  /** A buffer that is in no bucket moves to a place outside the pool. */
  lemma OutsideKeepsPool(pool: seq<seq<Buffer>>, home: map<nat, Place>, id: nat, place: Place)
    requires PoolOk(pool, home) && (id in home ==> !home[id].InBucket?) && !place.InBucket?
    ensures PoolOk(pool, home[id := place])
  {
    hide BucketSize;
  }

  /** A buffer that is in no bucket returns to the bucket of its width. */
  lemma ReturnKeepsPool(pool: seq<seq<Buffer>>, home: map<nat, Place>, index: nat, buffer: Buffer)
    requires PoolOk(pool, home) && index < |pool| && buffer.width == BucketSize(index)
    requires buffer.id in home && !home[buffer.id].InBucket?
    ensures PoolOk(pool[index := pool[index] + [buffer]], home[buffer.id := InBucket(index)])
  {
    hide BucketSize;
    var pool': seq<seq<Buffer>> := pool[index := pool[index] + [buffer]];
    var home' := home[buffer.id := InBucket(index)];
    forall id | id in home' && home'[id].InBucket?
      ensures exists k :: 0 <= k < |pool'[home'[id].index]| && pool'[home'[id].index][k].id == id
    {
      if id == buffer.id {
        assert pool'[index][|pool[index]|].id == id;
      } else {
        var k :| 0 <= k < |pool[home[id].index]| && pool[home[id].index][k].id == id;
        assert pool'[home[id].index][k].id == id;
      }
    }
  }

  lemma BucketContents(pool: seq<seq<Buffer>>, home: map<nat, Place>, index: nat)
    requires PoolOk(pool, home) && index < |pool|
    ensures forall k | 0 <= k < |pool[index]| ::
              pool[index][k].width == BucketSize(index)
              && pool[index][k].id in home && home[pool[index][k].id] == InBucket(index)
  {
  }

  lemma HolderOf(outstanding: map<nat, Allocation>, home: map<nat, Place>, lastId: nat, buckets: nat, id: nat)
    requires OutstandingOk(outstanding, home, lastId, buckets) && id in outstanding
    ensures outstanding[id].buffer.id in home && home[outstanding[id].buffer.id] == Held(id)
    ensures outstanding[id].id == id && WidthOk(outstanding[id], buckets)
  {
  }

  lemma AllocKeepsOutstanding(
      outstanding: map<nat, Allocation>, home: map<nat, Place>, lastId: nat, buckets: nat, more: nat, a: Allocation)
    requires OutstandingOk(outstanding, home, lastId, buckets) && buckets <= more
    requires a.id == lastId + 1 && WidthOk(a, more) && (a.buffer.id in home ==> !home[a.buffer.id].Held?)
    ensures OutstandingOk(outstanding[a.id := a], home[a.buffer.id := Held(a.id)], lastId + 1, more)
    ensures a.id !in outstanding
  {
    hide BucketSize, BucketIndex;
  }

  lemma FreeKeepsOutstanding(
      outstanding: map<nat, Allocation>, home: map<nat, Place>, lastId: nat, buckets: nat, id: nat, place: Place)
    requires OutstandingOk(outstanding, home, lastId, buckets) && id in outstanding && !place.Held?
    ensures OutstandingOk(outstanding - {id}, home[outstanding[id].buffer.id := place], lastId, buckets)
  {
    hide BucketSize, BucketIndex;
  }

  // ----- freeing into a bucket that does not exist -----

  /** A free that returns its buffer to the pool finds the bucket there. */
  predicate BucketExists(a: Allocation, buckets: nat)
  {
    0 < a.size && (BucketSize(BucketIndex(a.size)) == a.buffer.width ==> BucketIndex(a.size) < buckets)
  }

  /** The request was not served from the pool and falls at most three bytes short of a bucket size. */
  predicate JustShort(size: nat)
    requires 0 < size
  {
    BucketSize(BucketIndex(size)) - 3 <= size < BucketSize(BucketIndex(size))
  }

  /**
   An outstanding allocation can be freed safely exactly when it is not just short of a bucket that the pool has not
   grown to yet.
   */
  lemma FreeIsSafeIff(a: Allocation, buckets: nat)
    requires WidthOk(a, buckets)
    ensures BucketExists(a, buckets) <==> !(JustShort(a.size) && a.buffer.width == BucketSize(BucketIndex(a.size))
                                            && buckets <= BucketIndex(a.size))
    ensures JustShort(a.size) ==> a.buffer.width == BucketSize(BucketIndex(a.size))
  {
    PooledWidthBounds(a.size);
    if a.size != BucketSize(BucketIndex(a.size)) {
      AdoptedIff(a.size);
    }
    hide BucketSize, BucketIndex;
  }

  class BucketizedAllocator {
    var pool: seq<seq<Buffer>>
    var currentAllocationId: nat
    var currentResourceId: nat
    var rounding: bool
    var contextClosed: bool
    var outstanding: map<nat, Allocation>
    /** Buffers passed to the context's QueueReference, in order. */
    var queued: seq<nat>
    ghost var home: map<nat, Place>

    ghost predicate Valid()
      reads this
    {
      && (forall id: nat :: id in home <==> 1 <= id <= currentResourceId)
      && PoolOk(pool, home)
      && OutstandingOk(outstanding, home, currentAllocationId, |pool|)
    }

    constructor ()
      ensures Valid() && pool == [] && outstanding == map[] && home == map[] && queued == []
      ensures !rounding && !contextClosed
    {
      pool, currentAllocationId, currentResourceId, rounding, contextClosed := [], 0, 0, false, false;
      outstanding, queued, home := map[], [], map[];
    }

    method SetDefaultRoundingMode(enabled: bool)
      requires Valid()
      modifies this`rounding
      ensures Valid() && rounding == enabled
    {
      rounding := enabled;
    }

    method Alloc(requested: nat) returns (a: Allocation)
      requires Valid()
      modifies this`pool, this`currentAllocationId, this`currentResourceId, this`outstanding, this`home
      ensures Valid()
      ensures a.id == old(currentAllocationId) + 1 && a.id !in old(outstanding)
      ensures outstanding == old(outstanding)[a.id := a]
      ensures a.size == if requested == 0 then 1 else requested
      // With rounding every buffer has the width of its size's bucket; without, only one of exactly that size.
      ensures var bucketSize := BucketSize(BucketIndex(a.size));
              a.buffer.width == if rounding || a.size == bucketSize then bucketSize else AlignFour(a.size)
      // Such a buffer comes from that bucket if the bucket has one. Any other buffer is new.
      ensures var index := BucketIndex(a.size);
              var pooled := rounding || a.size == BucketSize(index);
              if pooled && index < |old(pool)| && old(pool)[index] != []
              then a.buffer == old(pool)[index][|old(pool)[index]| - 1] && currentResourceId == old(currentResourceId)
                   && pool == old(pool)[index := old(pool)[index][..|old(pool)[index]| - 1]]
              else a.buffer.id == old(currentResourceId) + 1 == currentResourceId
                   && pool == if pooled then GrownTo(old(pool), index + 1) else old(pool)
      ensures home == old(home)[a.buffer.id := Held(a.id)]
    {
      hide BucketSize, BucketIndex, PoolOk, OutstandingOk, AlignFour, GrownTo;
      var size := if requested < 1 then 1 else requested;
      var buffer;
      ghost var allocation := currentAllocationId + 1;
      if rounding || size == BucketSize(BucketIndex(size)) {
        var index := BucketIndex(size);
        GrowKeepsPool(pool, home, index + 1);
        LargeEnough(pool, index + 1);
        pool := GrownTo(pool, index + 1);
        var bucket := pool[index];
        if bucket == [] {
          currentResourceId := currentResourceId + 1;
          buffer := Buffer(currentResourceId, BucketSize(index));
          OutsideKeepsPool(pool, home, buffer.id, Held(allocation));
        } else {
          buffer := bucket[|bucket| - 1];
          BucketContents(pool, home, index);
          TakeKeepsPool(pool, home, index, allocation);
          pool := pool[index := bucket[..|bucket| - 1]];
        }
      } else {
        currentResourceId := currentResourceId + 1;
        buffer := Buffer(currentResourceId, AlignFour(size));
        OutsideKeepsPool(pool, home, buffer.id, Held(allocation));
      }
      currentAllocationId := currentAllocationId + 1;
      a := Allocation(currentAllocationId, buffer, size);
      AllocKeepsOutstanding(outstanding, home, allocation - 1, |old(pool)|, |pool|, a);
      outstanding := outstanding[a.id := a];
      home := home[buffer.id := Held(a.id)];
    }

    method Free(id: nat)
      requires Valid() && id in outstanding && BucketExists(outstanding[id], |pool|)
      modifies this`pool, this`outstanding, this`home, this`queued
      ensures Valid() && outstanding == old(outstanding) - {id}
      ensures var a := old(outstanding)[id]; var index := BucketIndex(a.size);
              if BucketSize(index) == a.buffer.width
              then pool == old(pool)[index := old(pool)[index] + [a.buffer]] && queued == old(queued)
                   && home == old(home)[a.buffer.id := InBucket(index)]
              else pool == old(pool) && queued == old(queued) + (if contextClosed then [] else [a.buffer.id])
                   && home == old(home)[a.buffer.id := Retired]
    {
      hide BucketSize, BucketIndex, PoolOk, OutstandingOk;
      var a := outstanding[id];
      HolderOf(outstanding, home, currentAllocationId, |pool|, id);
      var index := BucketIndex(a.size);
      outstanding := outstanding - {id};
      if BucketSize(index) == a.buffer.width {
        ReturnKeepsPool(pool, home, index, a.buffer);
        FreeKeepsOutstanding(old(outstanding), home, currentAllocationId, |pool|, id, InBucket(index));
        pool := pool[index := pool[index] + [a.buffer]];
        home := home[a.buffer.id := InBucket(index)];
      } else {
        if !contextClosed {
          queued := queued + [a.buffer.id];
        }
        OutsideKeepsPool(pool, home, a.buffer.id, Retired);
        FreeKeepsOutstanding(old(outstanding), home, currentAllocationId, |pool|, id, Retired);
        home := home[a.buffer.id := Retired];
      }
    }
  }

  ghost predicate InPool(pool: seq<seq<Buffer>>, id: nat, index: nat, k: nat)
  {
    index < |pool| && k < |pool[index]| && pool[index][k].id == id
  }

  /**
   Every buffer ever created is in exactly one place: one position of one bucket, whose width it has, or one outstanding
   allocation, or it has been retired; and a buffer is never in two buckets or positions.
   */
  lemma EveryBufferIsInOnePlace(allocator: BucketizedAllocator, id: nat)
    requires allocator.Valid() && 1 <= id <= allocator.currentResourceId
    ensures id in allocator.home
    ensures var place, pool, outstanding := allocator.home[id], allocator.pool, allocator.outstanding;
            && (place.InBucket? <==> exists i: nat, k: nat :: InPool(pool, id, i, k))
            && (place.Held? <==> exists a :: a in outstanding && outstanding[a].buffer.id == id)
            && (forall i: nat, k: nat | InPool(pool, id, i, k) :: pool[i][k].width == BucketSize(i))
            && (forall i: nat, k: nat, j: nat, l: nat | InPool(pool, id, i, k) && InPool(pool, id, j, l) ::
                  i == j && k == l)
            && (forall a, b | a in outstanding && b in outstanding
                  && outstanding[a].buffer.id == id == outstanding[b].buffer.id :: a == b)
  {
    hide BucketSize, BucketIndex;
    var place := allocator.home[id];
    var pool: seq<seq<Buffer>> := allocator.pool;
    if place.InBucket? {
      var k: nat :| k < |pool[place.index]| && pool[place.index][k].id == id;
      assert InPool(pool, id, place.index, k);
    }
    forall i: nat, k: nat, j: nat, l: nat | InPool(pool, id, i, k) && InPool(pool, id, j, l)
      ensures i == j && k == l && place == InBucket(i)
    {
      assert allocator.home[pool[i][k].id] == InBucket(i);
      assert allocator.home[pool[j][l].id] == InBucket(j);
    }
  }

  lemma JustShortOf64KB()
    ensures BucketIndex(0xFFFF) == 0 && BucketSize(0) == 0x1_0000 && AlignFour(0xFFFF) == 0x1_0000
  {
    hide CeilLog2, Pow2;
    SixtyFourKilobytes();
    SmallestBucket(0xFFFF, 0);
  }

  /** 65535 bytes, unrounded, as the first request: the free indexes an empty pool. */
  method FirstFreeWithoutBucket() returns (allocator: BucketizedAllocator, a: Allocation)
    ensures allocator.Valid() && a.id in allocator.outstanding && allocator.outstanding[a.id] == a
    ensures allocator.pool == [] && a.buffer.width == 0x1_0000 && !BucketExists(a, |allocator.pool|)
  {
    hide *;
    JustShortOf64KB();
    allocator := new BucketizedAllocator();
    a := allocator.Alloc(0xFFFF);
    assert a.size == 0xFFFF && BucketSize(BucketIndex(a.size)) == 0x1_0000;
    NoBucketYet(a);
  }

  lemma NoBucketYet(a: Allocation)
    requires a.size == 0xFFFF && a.buffer.width == 0x1_0000
    ensures !BucketExists(a, 0)
  {
    hide BucketIndex, BucketSize;
    JustShortOf64KB();
  }
}
