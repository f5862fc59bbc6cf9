/** Packed and broadcast strides: what the 32-bit loops compute, and that packed strides number a tensor's elements. */
module Strides {
  const U32: nat := 0x1_0000_0000

  function Product(sizes: seq<nat>): nat
  {
    if sizes == [] then 1 else sizes[0] * Product(sizes[1..])
  }

  /** Multiplying modulo 2^32 step by step gives the product modulo 2^32. */
  lemma WrapProduct(size: nat, rest: nat)
    ensures (rest % U32) * size % U32 == size * rest % U32
  {
    var q := rest / U32;
    assert rest == q * U32 + rest % U32;
    assert size * rest == (size * q) * U32 + size * (rest % U32);
    ModShift(size * (rest % U32), size * q);
  }

  lemma {:induction false} ModShift(a: nat, k: nat)
    ensures (k * U32 + a) % U32 == a % U32
  {
    if 0 < k {
      ModShift(a, k - 1);
      assert k * U32 + a == (k - 1) * U32 + a + U32;
    }
  }

  /** Each stride is the product of the later sizes, as a 32-bit value. */
  method GetDescendingPackedStrides(sizes: seq<nat>, strides: array<nat>)
    requires strides.Length == |sizes|
    modifies strides
    ensures forall i | 0 <= i < |sizes| :: strides[i] == Product(sizes[i + 1..]) % U32
  {
    var stride: nat := 1;
    var i := strides.Length;
    while 0 < i
      invariant 0 <= i <= strides.Length
      invariant stride == Product(sizes[i..]) % U32
      invariant forall j | i <= j < |sizes| :: strides[j] == Product(sizes[j + 1..]) % U32
    {
      i := i - 1;
      strides[i] := stride;
      assert sizes[i..][1..] == sizes[i + 1..];
      WrapProduct(sizes[i], Product(sizes[i + 1..]));
      stride := stride * sizes[i] % U32;
    }
  }

  // ----- packed strides number the elements -----

  function PackedStrides(sizes: seq<nat>): (r: seq<nat>)
    ensures |r| == |sizes|
  {
    if sizes == [] then [] else [Product(sizes[1..])] + PackedStrides(sizes[1..])
  }

  lemma {:induction false} PackedStrideAt(sizes: seq<nat>, i: nat)
    requires i < |sizes|
    ensures PackedStrides(sizes)[i] == Product(sizes[i + 1..])
  {
    if 0 < i {
      PackedStrideAt(sizes[1..], i - 1);
      assert sizes[1..][i..] == sizes[i + 1..];
    }
  }

  lemma {:induction false} ProductPositive(sizes: seq<nat>)
    requires forall i | 0 <= i < |sizes| :: 0 < sizes[i]
    ensures 0 < Product(sizes)
  {
    if sizes != [] {
      ProductPositive(sizes[1..]);
    }
  }

  lemma {:induction false} SuffixProductBound(sizes: seq<nat>, i: nat)
    requires i <= |sizes| && forall k | 0 <= k < |sizes| :: 0 < sizes[k]
    ensures Product(sizes[i..]) <= Product(sizes)
  {
    if i == 0 {
      assert sizes[0..] == sizes;
    } else {
      SuffixProductBound(sizes[1..], i - 1);
      assert sizes[1..][i - 1..] == sizes[i..];
      ProductPositive(sizes[1..]);
      assert Product(sizes) == sizes[0] * Product(sizes[1..]);
    }
  }

  /** No suffix product wraps when the whole product does not. */
  lemma SuffixFits(sizes: seq<nat>, i: nat)
    requires i <= |sizes| && (forall k | 0 <= k < |sizes| :: 0 < sizes[k]) && Product(sizes) < U32
    ensures Product(sizes[i..]) % U32 == Product(sizes[i..])
  {
    hide Product;
    SuffixProductBound(sizes, i);
    SmallMod(Product(sizes[i..]));
  }

  lemma SmallMod(x: nat)
    requires x < U32
    ensures x % U32 == x
  {
  }

  /** Without 32-bit overflow of the element count the computed strides are the packed strides. */
  lemma ComputedStridesArePacked(sizes: seq<nat>, strides: seq<nat>)
    requires |strides| == |sizes| && forall i | 0 <= i < |sizes| :: strides[i] == Product(sizes[i + 1..]) % U32
    requires (forall i | 0 <= i < |sizes| :: 0 < sizes[i]) && Product(sizes) < U32
    ensures strides == PackedStrides(sizes)
  {
    hide Product, PackedStrides;
    forall i | 0 <= i < |sizes|
      ensures strides[i] == PackedStrides(sizes)[i]
    {
      PackedStrideAt(sizes, i);
      SuffixFits(sizes, i + 1);
    }
  }

  predicate Index(index: seq<nat>, sizes: seq<nat>)
  {
    |index| == |sizes| && forall i | 0 <= i < |sizes| :: index[i] < sizes[i]
  }

  /** The address an index gets from strides. */
  function Offset(index: seq<nat>, strides: seq<nat>): nat
    requires |index| == |strides|
  {
    if index == [] then 0 else index[0] * strides[0] + Offset(index[1..], strides[1..])
  }

  function Unravel(offset: nat, sizes: seq<nat>): (r: seq<nat>)
    requires offset < Product(sizes)
    ensures |r| == |sizes|
  {
    if sizes == [] then []
    else
      var rest := Product(sizes[1..]);
      assert 0 < rest;
      [offset / rest] + Unravel(offset % rest, sizes[1..])
  }

  lemma DivBound(offset: nat, size: nat, rest: nat)
    requires offset < size * rest
    ensures 0 < rest && offset / rest < size && offset == (offset / rest) * rest + offset % rest
  {
    assert rest != 0;
    var q := offset / rest;
    assert offset == q * rest + offset % rest;
    if size <= q {
      MulMonotone(size, q, rest);
    }
  }

  lemma MulMonotone(a: nat, b: nat, c: nat)
    requires a <= b
    ensures a * c <= b * c
  {
  }

  lemma DivModUnique(q: nat, r: nat, rest: nat)
    requires r < rest
    ensures (q * rest + r) / rest == q && (q * rest + r) % rest == r
  {
    var n := q * rest + r;
    assert n == (n / rest) * rest + n % rest;
    if n / rest < q {
      MulMonotone(n / rest + 1, q, rest);
    } else if q < n / rest {
      MulMonotone(q + 1, n / rest, rest);
    }
  }

  lemma PackedTail(sizes: seq<nat>)
    requires sizes != []
    ensures PackedStrides(sizes)[1..] == PackedStrides(sizes[1..])
  {
  }

  /** The leading index picks a block of `rest` elements, the others a place in it. */
  lemma PackedOffsetStep(index: seq<nat>, sizes: seq<nat>)
    requires |index| == |sizes| && sizes != []
    ensures Offset(index, PackedStrides(sizes))
      == index[0] * Product(sizes[1..]) + Offset(index[1..], PackedStrides(sizes[1..]))
    ensures Product(sizes) == sizes[0] * Product(sizes[1..])
  {
    assert Product(sizes) == sizes[0] * Product(sizes[1..]);
    hide Product;
    PackedTail(sizes);
  }

  lemma BlockBound(lead: nat, size: nat, rest: nat, place: nat)
    requires lead < size && place < rest
    ensures lead * rest + place < size * rest
  {
    MulMonotone(lead + 1, size, rest);
  }

  /** Offsets of valid indices stay below the element count. */
  lemma {:induction false} OffsetInRange(index: seq<nat>, sizes: seq<nat>)
    requires Index(index, sizes)
    ensures Offset(index, PackedStrides(sizes)) < Product(sizes)
  {
    if sizes != [] {
      var rest := Product(sizes[1..]);
      assert Index(index[1..], sizes[1..]);
      OffsetInRange(index[1..], sizes[1..]);
      PackedOffsetStep(index, sizes);
      hide *;
      BlockBound(index[0], sizes[0], rest, Offset(index[1..], PackedStrides(sizes[1..])));
    }
  }

  /** Packed offsets and indices are in bijection: unravelling undoes the offset ... */
  lemma {:induction false} UnravelOffset(index: seq<nat>, sizes: seq<nat>)
    requires Index(index, sizes)
    ensures Offset(index, PackedStrides(sizes)) < Product(sizes)
    ensures Unravel(Offset(index, PackedStrides(sizes)), sizes) == index
  {
    OffsetInRange(index, sizes);
    if sizes != [] {
      assert Index(index[1..], sizes[1..]);
      UnravelOffset(index[1..], sizes[1..]);
      PackedTail(sizes);
      DivModUnique(index[0], Offset(index[1..], PackedStrides(sizes[1..])), Product(sizes[1..]));
    }
  }

  /** ... and the offset undoes unravelling, so every number below the element count is an offset. */
  lemma {:induction false} OffsetUnravel(offset: nat, sizes: seq<nat>)
    requires offset < Product(sizes)
    ensures Index(Unravel(offset, sizes), sizes)
    ensures Offset(Unravel(offset, sizes), PackedStrides(sizes)) == offset
  {
    if sizes != [] {
      UnravelStep(offset, sizes);
      var rest := Product(sizes[1..]);
      OffsetUnravel(offset % rest, sizes[1..]);
      PackedOffsetStep(Unravel(offset, sizes), sizes);
    }
  }

  lemma UnravelStep(offset: nat, sizes: seq<nat>)
    requires sizes != [] && offset < Product(sizes)
    ensures
      var rest := Product(sizes[1..]);
      && 0 < rest && offset / rest < sizes[0] && offset == (offset / rest) * rest + offset % rest
      && Unravel(offset, sizes)[0] == offset / rest && Unravel(offset, sizes)[1..] == Unravel(offset % rest, sizes[1..])
  {
    var rest := Product(sizes[1..]);
    assert Product(sizes) == sizes[0] * rest;
    hide Product;
    DivBound(offset, sizes[0], rest);
    assert Unravel(offset, sizes) == [offset / rest] + Unravel(offset % rest, sizes[1..]);
  }

  // ----- broadcasting the bias -----

  /** Stride 0 along the dimensions of size one; the others are packed. */
  method BiasStrides(bias: seq<nat>) returns (strides: array<nat>)
    ensures fresh(strides) && strides.Length == |bias|
    ensures forall i | 0 <= i < |bias| :: strides[i] == if bias[i] == 1 then 0 else Product(bias[i + 1..]) % U32
  {
    strides := new nat[|bias|];
    var stride: nat := 1;
    var i := |bias| - 1;
    while 0 <= i
      invariant -1 <= i < |bias| && strides.Length == |bias| && fresh(strides)
      invariant stride == Product(bias[i + 1..]) % U32
      invariant forall j | i < j < |bias| :: strides[j] == if bias[j] == 1 then 0 else Product(bias[j + 1..]) % U32
    {
      strides[i] := if bias[i] == 1 then 0 else stride;
      assert bias[i..][1..] == bias[i + 1..];
      if bias[i] != 1 {
        WrapProduct(bias[i], Product(bias[i + 1..]));
        stride := stride * bias[i] % U32;
      }
      i := i - 1;
    }
  }

  function BroadcastStrides(bias: seq<nat>): (r: seq<nat>)
    ensures |r| == |bias|
  {
    if bias == [] then [] else [if bias[0] == 1 then 0 else Product(bias[1..])] + BroadcastStrides(bias[1..])
  }

  lemma {:induction false} BroadcastStrideAt(bias: seq<nat>, i: nat)
    requires i < |bias|
    ensures BroadcastStrides(bias)[i] == if bias[i] == 1 then 0 else Product(bias[i + 1..])
  {
    if 0 < i {
      BroadcastStrideAt(bias[1..], i - 1);
      assert bias[1..][i..] == bias[i + 1..];
    }
  }

  lemma ComputedStridesBroadcast(bias: seq<nat>, strides: seq<nat>)
    requires |strides| == |bias|
    requires forall i | 0 <= i < |bias| :: strides[i] == if bias[i] == 1 then 0 else Product(bias[i + 1..]) % U32
    requires (forall i | 0 <= i < |bias| :: 0 < bias[i]) && Product(bias) < U32
    ensures strides == BroadcastStrides(bias)
  {
    hide Product, BroadcastStrides;
    forall i | 0 <= i < |bias|
      ensures strides[i] == BroadcastStrides(bias)[i]
    {
      BroadcastStrideAt(bias, i);
      SuffixFits(bias, i + 1);
    }
  }

  /** The bias element that an input index reads. */
  function Projection(index: seq<nat>, bias: seq<nat>): (r: seq<nat>)
    requires |index| == |bias|
    ensures |r| == |bias| && forall i | 0 <= i < |r| :: r[i] == if bias[i] == 1 then 0 else index[i]
  {
    seq(|bias|, i requires 0 <= i < |bias| => if bias[i] == 1 then 0 else index[i])
  }

  predicate Broadcasts(bias: seq<nat>, input: seq<nat>)
  {
    |bias| == |input| && forall i | 0 <= i < |bias| :: bias[i] == 1 || bias[i] == input[i]
  }

  /** The broadcast strides send every input index to the packed offset of the bias element it projects to. */
  lemma {:induction false} BroadcastOffset(index: seq<nat>, bias: seq<nat>)
    requires |index| == |bias|
    ensures Offset(index, BroadcastStrides(bias)) == Offset(Projection(index, bias), PackedStrides(bias))
  {
    if bias != [] {
      BroadcastOffset(index[1..], bias[1..]);
      assert Projection(index, bias)[1..] == Projection(index[1..], bias[1..]);
      assert BroadcastStrides(bias)[1..] == BroadcastStrides(bias[1..]);
      PackedTail(bias);
    }
  }

  lemma BroadcastInRange(index: seq<nat>, input: seq<nat>, bias: seq<nat>)
    requires Broadcasts(bias, input) && Index(index, input)
    ensures Offset(index, BroadcastStrides(bias)) < Product(bias)
  {
    BroadcastOffset(index, bias);
    assert Index(Projection(index, bias), bias);
    OffsetInRange(Projection(index, bias), bias);
  }

  /** The sizes BiasGelu uses for its bias: ones, then the number of bias elements. */
  function BiasSizes(rank: nat, elements: nat): (r: seq<nat>)
    requires 0 < rank
    ensures |r| == rank
  {
    seq(rank - 1, _ => 1) + [elements]
  }

  lemma {:induction false} BiasOffset(index: seq<nat>, elements: nat)
    requires 0 < |index|
    ensures Offset(index, BroadcastStrides(BiasSizes(|index|, elements)))
            == if elements == 1 then 0 else index[|index| - 1]
    ensures Product(BiasSizes(|index|, elements)) == elements
  {
    var bias := BiasSizes(|index|, elements);
    assert BroadcastStrides(bias)[1..] == BroadcastStrides(bias[1..]);
    if 1 < |index| {
      assert bias[1..] == BiasSizes(|index| - 1, elements);
      BiasOffset(index[1..], elements);
      assert bias[0] == 1;
    } else {
      assert bias[1..] == [];
    }
  }

  /** All reads stay inside the bias exactly when it has one element or at least as many as the last input dimension. */
  lemma BiasReadsInRangeIff(input: seq<nat>, elements: nat)
    requires 0 < |input| && forall i | 0 <= i < |input| :: 0 < input[i]
    ensures (forall index | Index(index, input) ::
               Offset(index, BroadcastStrides(BiasSizes(|input|, elements))) < elements)
            <==> elements == 1 || input[|input| - 1] <= elements
  {
    forall index | Index(index, input)
      ensures Offset(index, BroadcastStrides(BiasSizes(|input|, elements)))
              == if elements == 1 then 0 else index[|index| - 1]
    {
      BiasOffset(index, elements);
    }
    var top := seq(|input|, i requires 0 <= i < |input| => input[i] - 1);
    assert Index(top, input);
  }

  /** The last of three elements reads a third bias where there are two. */
  lemma TwoBiasesForThree()
    ensures Index([2], [3]) && Offset([2], BroadcastStrides(BiasSizes(1, 2))) == 2
  {
    BiasOffset([2], 2);
  }
}
