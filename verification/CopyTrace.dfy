/**
 Where the bytes of a batch of copies come from. Addresses and sizes alone decide whether two orders of copying always
 have the same effect.
 */
module CopyTrace {
  import opened Common
  import opened CopyBatch

  datatype Location = InCpu(address: nat) | InGpu(buffer: nat, offset: nat)

  function At(p: Place, k: nat): Location
  {
    match p
    case Cpu(a) => InCpu(a + k)
    case Gpu(b) => InGpu(b, k)
  }

  predicate Within(p: Place, size: nat, l: Location)
  {
    match p
    case Cpu(a) => l.InCpu? && a <= l.address < a + size
    case Gpu(b) => l.InGpu? && l.buffer == b && l.offset < size
  }

  /** How far `l` lies behind the beginning of `p`. */
  function Distance(p: Place, l: Location): (k: nat)
    requires exists size: nat :: Within(p, size, l)
    ensures At(p, k) == l
  {
    match p
    case Cpu(a) => l.address - a
    case Gpu(b) => l.offset
  }

  /** Where the byte at `l` was before the copy. */
  function Before(c: TensorCopy, l: Location): Location
  {
    if !Skipped(c) && Within(c.dst, Bytes(c), l) then At(c.src, Distance(c.dst, l)) else l
  }

  /** Where the byte at `l` was before all the copies. */
  function Origin(copies: seq<TensorCopy>, l: Location): Location
  {
    if copies == [] then l else Origin(copies[..|copies| - 1], Before(copies[|copies| - 1], l))
  }

  predicate Exists(m: Memory, l: Location)
  {
    match l
    case InCpu(a) => a < |m.cpu|
    case InGpu(b, k) => b in m.gpu && k < |m.gpu[b]|
  }

  function Byte(m: Memory, l: Location): byte
    requires Exists(m, l)
  {
    match l
    case InCpu(a) => m.cpu[a]
    case InGpu(b, k) => m.gpu[b][k]
  }

  lemma OverwriteAt(memory: seq<byte>, offset: nat, data: seq<byte>, k: nat)
    requires offset + |data| <= |memory| && k < |memory|
    ensures Overwrite(memory, offset, data)[k] == if offset <= k < offset + |data| then data[k - offset] else memory[k]
  {
  }

  lemma ReadAt(m: Memory, p: Place, size: nat, k: nat)
    requires Inside(m, p, size) && k < size
    ensures |Read(m, p, size)| == size
    ensures Exists(m, At(p, k)) && Byte(m, At(p, k)) == Read(m, p, size)[k]
  {
  }

  lemma WriteAt(m: Memory, p: Place, data: seq<byte>, l: Location)
    requires Inside(m, p, |data|) && Exists(m, l)
    ensures Exists(Write(m, p, data), l)
    ensures Byte(Write(m, p, data), l) == if Within(p, |data|, l) then data[Distance(p, l)] else Byte(m, l)
  {
    match p
    case Cpu(a) =>
      if l.InCpu? {
        OverwriteAt(m.cpu, a, data, l.address);
      }
    case Gpu(b) =>
      if l.InGpu? && l.buffer == b {
        OverwriteAt(m.gpu[b], 0, data, l.offset);
      }
  }

  /** One copy moves each byte from the place before it. */
  lemma CopyMoves(m: Memory, c: TensorCopy, l: Location)
    requires Possible(m, c) && Exists(m, l)
    ensures Exists(m, Before(c, l)) && Exists(Do(m, c), l) && Byte(Do(m, c), l) == Byte(m, Before(c, l))
  {
    if !Skipped(c) {
      var data := Read(m, c.src, Bytes(c));
      WriteAt(m, c.dst, data, l);
      if Within(c.dst, Bytes(c), l) {
        ReadAt(m, c.src, Bytes(c), Distance(c.dst, l));
      }
    }
  }

  /** The byte at `l` after the copies is the one that was at its origin before them. */
  lemma {:induction false} BytesComeFromOrigins(m: Memory, copies: seq<TensorCopy>, l: Location)
    requires NoErrors(m, copies) && Exists(m, l)
    ensures Exists(m, Origin(copies, l)) && Exists(DoAll(m, copies), l)
    ensures Byte(DoAll(m, copies), l) == Byte(m, Origin(copies, l))
  {
    if copies != [] {
      var front, last := copies[..|copies| - 1], copies[|copies| - 1];
      var mid := DoAll(m, front);
      FrontHasNoErrors(m, copies);
      DoAllKeepsShape(m, front);
      hide Do, Before, Possible;
      SameShapeExists(m, mid, l);
      ShapeDecidesPossible(m, mid, last);
      CopyMoves(mid, last, l);
      SameShapeExists(m, mid, Before(last, l));
      BytesComeFromOrigins(m, front, Before(last, l));
    }
  }

  lemma FrontHasNoErrors(m: Memory, copies: seq<TensorCopy>)
    requires NoErrors(m, copies) && copies != []
    ensures NoErrors(m, copies[..|copies| - 1]) && Possible(m, copies[|copies| - 1])
  {
    hide Possible;
  }

  lemma SameShapeExists(m: Memory, d: Memory, l: Location)
    requires SameShape(m, d)
    ensures Exists(m, l) <==> Exists(d, l)
  {
  }

  lemma SameBytesEqual(a: Memory, b: Memory)
    requires SameShape(a, b) && forall l | Exists(a, l) && Exists(b, l) :: Byte(a, l) == Byte(b, l)
    ensures a == b
  {
    forall i | 0 <= i < |a.cpu|
      ensures a.cpu[i] == b.cpu[i]
    {
      assert Byte(a, InCpu(i)) == Byte(b, InCpu(i));
    }
    forall x | x in a.gpu
      ensures a.gpu[x] == b.gpu[x]
    {
      forall i | 0 <= i < |a.gpu[x]|
        ensures a.gpu[x][i] == b.gpu[x][i]
      {
        assert Byte(a, InGpu(x, i)) == Byte(b, InGpu(x, i));
      }
    }
  }

  // ----- a memory that tells locations apart -----

  /** Zeros, but for one location. */
  function Buffers(n: nat, size: nat, mark: Location): (r: map<nat, seq<byte>>)
    ensures forall b: nat :: b in r <==> b < n
    ensures forall b | b in r ::
              |r[b]| == size && forall i | 0 <= i < size :: r[b][i] == if InGpu(b, i) == mark then 1 else 0
  {
    if n == 0 then map[]
    else Buffers(n - 1, size, mark)[n - 1 := seq(size, i requires 0 <= i => if InGpu(n - 1, i) == mark then 1 else 0)]
  }

  /** `n` bytes of CPU memory and `n` buffers of `n` bytes. */
  function Marked(n: nat, mark: Location): Memory
  {
    Memory(seq(n, i requires 0 <= i => if InCpu(i) == mark then 1 else 0), Buffers(n, n, mark))
  }

  function Reach(p: Place): nat
  {
    match p
    case Cpu(a) => a
    case Gpu(b) => b + 1
  }

  /** Memory of this extent has room for all the copies. */
  function Extent(copies: seq<TensorCopy>): nat
  {
    if copies == [] then 0
    else
      var last := copies[|copies| - 1];
      Extent(copies[..|copies| - 1]) + Reach(last.dst) + Reach(last.src) + last.size + last.srcSize
  }

  lemma {:induction false} RoomForAll(copies: seq<TensorCopy>, n: nat, mark: Location)
    requires Extent(copies) <= n
    ensures NoErrors(Marked(n, mark), copies)
  {
    if copies != [] {
      var front, last := copies[..|copies| - 1], copies[|copies| - 1];
      RoomForAll(front, n, mark);
      assert Possible(Marked(n, mark), last);
      assert copies == front + [last];
    }
  }

  function Farthest(l: Location): nat
  {
    match l
    case InCpu(a) => a + 1
    case InGpu(b, k) => b + k + 1
  }

  lemma MarkedByte(n: nat, mark: Location, l: Location)
    requires Farthest(l) <= n || Exists(Marked(n, mark), l)
    ensures Exists(Marked(n, mark), l) && Byte(Marked(n, mark), l) == if l == mark then 1 else 0
  {
  }

  // ----- two orders of copying -----

  ghost predicate SameEffect(a: seq<TensorCopy>, b: seq<TensorCopy>)
  {
    forall m | NoErrors(m, a) && NoErrors(m, b) :: DoAll(m, a) == DoAll(m, b)
  }

  /** Every byte comes from the same place. */
  ghost predicate SameOrigins(a: seq<TensorCopy>, b: seq<TensorCopy>)
  {
    forall l :: Origin(a, l) == Origin(b, l)
  }

  lemma SameOriginsSuffice(a: seq<TensorCopy>, b: seq<TensorCopy>, m: Memory)
    requires NoErrors(m, a) && NoErrors(m, b) && SameOrigins(a, b)
    ensures DoAll(m, a) == DoAll(m, b)
  {
    hide NoErrors, Exists, Byte, DoAll;
    DoAllKeepsShape(m, a);
    DoAllKeepsShape(m, b);
    forall l | Exists(DoAll(m, a), l) && Exists(DoAll(m, b), l)
      ensures Byte(DoAll(m, a), l) == Byte(DoAll(m, b), l)
    {
      SameShapeExists(m, DoAll(m, a), l);
      BytesComeFromOrigins(m, a, l);
      BytesComeFromOrigins(m, b, l);
    }
    SameBytesEqual(DoAll(m, a), DoAll(m, b));
  }

  lemma SameOriginsNeeded(a: seq<TensorCopy>, b: seq<TensorCopy>, l: Location)
    requires SameEffect(a, b)
    ensures Origin(a, l) == Origin(b, l)
  {
    hide NoErrors, Exists, Byte, Origin, DoAll, Marked, Extent, Farthest;
    var mark := Origin(a, l);
    var n := Extent(a) + Extent(b) + Farthest(l);
    var m := Marked(n, mark);
    RoomForAll(a, n, mark);
    RoomForAll(b, n, mark);
    MarkedByte(n, mark, l);
    BytesComeFromOrigins(m, a, l);
    BytesComeFromOrigins(m, b, l);
    MarkedByte(n, mark, mark);
    MarkedByte(n, mark, Origin(b, l));
  }

  /** Two sequences of copies always have the same effect exactly if every byte has the same origin. */
  lemma SameEffectIff(a: seq<TensorCopy>, b: seq<TensorCopy>)
    ensures SameEffect(a, b) <==> SameOrigins(a, b)
  {
    hide NoErrors, DoAll;
    if SameEffect(a, b) {
      forall l
        ensures Origin(a, l) == Origin(b, l)
      {
        SameOriginsNeeded(a, b, l);
      }
    }
    if SameOrigins(a, b) {
      forall m | NoErrors(m, a) && NoErrors(m, b)
        ensures DoAll(m, a) == DoAll(m, b)
      {
        SameOriginsSuffice(a, b, m);
      }
    }
  }

  /** A byte that no copy writes is its own origin. */
  lemma {:induction false} UnwrittenStays(copies: seq<TensorCopy>, l: Location)
    requires forall c | c in copies :: Skipped(c) || !Within(c.dst, Bytes(c), l)
    ensures Origin(copies, l) == l
  {
    if copies != [] {
      assert copies[|copies| - 1] in copies;
      UnwrittenStays(copies[..|copies| - 1], l);
    }
  }

  /** The origins agree for everything that one of the copies writes: a finite number of bytes. */
  predicate SameOriginsIn(copies: seq<TensorCopy>, a: seq<TensorCopy>, b: seq<TensorCopy>)
  {
    forall i, k: nat | 0 <= i < |copies| && k < Bytes(copies[i]) ::
      Origin(a, At(copies[i].dst, k)) == Origin(b, At(copies[i].dst, k))
  }

  lemma WrittenDecide(copies: seq<TensorCopy>, a: seq<TensorCopy>, b: seq<TensorCopy>)
    requires (forall c | c in a :: c in copies) && forall c | c in b :: c in copies
    ensures SameOriginsIn(copies, a, b) <==> SameOrigins(a, b)
  {
    if SameOriginsIn(copies, a, b) {
      forall l
        ensures Origin(a, l) == Origin(b, l)
      {
        if c :| c in copies && !Skipped(c) && Within(c.dst, Bytes(c), l) {
          var i :| 0 <= i < |copies| && copies[i] == c;
          assert At(copies[i].dst, Distance(c.dst, l)) == l;
        } else {
          UnwrittenStays(a, l);
          UnwrittenStays(b, l);
        }
      }
    }
  }
}
