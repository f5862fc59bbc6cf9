/**
 Static evaluation of shape computations: the operators, and a reference evaluation of every value and shape by
 recursion over the graph. Element values are reals, so rounding is not considered.
 */
module ShapeReference {
  import opened Common

  type Values = seq<real>
  type Dims = seq<int>

  /** Slice carries its attribute form of starts and ends, Upsample its attribute form of scales. */
  datatype Op = Shape | Gather | Cast | Slice(starts: Values, ends: Values) | Mul | Div | Concat
              | Upsample(scales: Values) | Resize | Opaque

  /** An unnamed input is a missing optional one. */
  datatype Node = Node(op: Op, inputs: seq<string>, outputs: seq<string>, cpuPreferred: bool)

  type Graph = seq<Node>

  /** `meta` holds the shapes known from the model, with negative entries for dynamic dimensions. */
  datatype Model = Model(g: Graph, meta: map<string, Dims>, initializers: map<string, Values>)

  datatype State = State(values: map<string, Values>, shapes: map<string, Dims>)

  // ----- operators -----

  /** Conversion to an integer drops the fraction. */
  function Trunc(x: real): int
  {
    if x >= 0.0 then x.Floor else -((-x).Floor)
  }

  function Larger(a: nat, b: nat): nat { if a < b then b else a }

  function MulValues(a: Values, b: Values): Values
    requires a != [] && b != []
  {
    seq(Larger(|a|, |b|), i requires 0 <= i => a[i % |a|] * b[i % |b|])
  }

  function DivValues(a: Values, b: Values): Values
    requires a != [] && b != []
  {
    seq(Larger(|a|, |b|), i requires 0 <= i => if b[i % |b|] != 0.0 then a[i % |a|] / b[i % |b|] else 0.0)
  }

  /** Indices out of range are skipped. */
  function GatherValues(data: Values, indices: Values): Values
  {
    if indices == [] then []
    else
      var last := Trunc(indices[|indices| - 1]);
      var i := if last < 0 then last + |data| else last;
      GatherValues(data, indices[..|indices| - 1]) + if 0 <= i < |data| then [data[i]] else []
  }

  /** The first entries of `starts` and `ends` select the range; a range that begins before the data yields nothing. */
  function SliceValues(data: Values, starts: Values, ends: Values): Values
    requires starts != [] && ends != []
  {
    var s0, e0 := Trunc(starts[0]), Trunc(ends[0]);
    var s := if s0 < 0 then s0 + |data| else s0;
    var e1 := if e0 < 0 then e0 + |data| else e0;
    var e := if |data| < e1 then |data| else e1;
    if 0 <= s < e then data[s..e] else []
  }

  function ConcatValues(args: seq<Option<Values>>): Values
  {
    if args == [] then []
    else
      var last := args[|args| - 1];
      ConcatValues(args[..|args| - 1]) + if last.Some? then last.value else []
  }

  predicate AllSome(args: seq<Option<Values>>)
  {
    forall i | 0 <= i < |args| :: args[i].Some?
  }

  function NonEmpty(v: Values): Option<Values>
  {
    if v == [] then None else Some(v)
  }

  function AsValues(dims: Dims): Values
  {
    seq(|dims|, i requires 0 <= i < |dims| => dims[i] as real)
  }

  predicate Both(args: seq<Option<Values>>)
  {
    2 <= |args| && args[0].Some? && args[1].Some? && args[0].value != [] && args[1].value != []
  }

  /** Starts and ends come from the inputs when both are known there, and from the attributes otherwise. */
  function SliceRange(op: Op, args: seq<Option<Values>>): Option<(Values, Values)>
    requires op.Slice?
  {
    if 3 <= |args| && args[1].Some? && args[2].Some? then Some((args[1].value, args[2].value))
    else if op.starts != [] && op.ends != [] then Some((op.starts, op.ends))
    else None
  }

  /** The value of a node from what is known about its inputs; `dims` is the shape of the first input, or []. */
  function Eval(node: Node, args: seq<Option<Values>>, dims: Dims): Option<Values>
    requires |args| == |node.inputs|
  {
    match node.op
    case Shape => if 0 < |args| then NonEmpty(AsValues(dims)) else None
    case Gather => if Both(args) then NonEmpty(GatherValues(args[0].value, args[1].value)) else None
    case Cast => if 0 < |args| then args[0] else None
    case Slice(_, _) =>
      var range := SliceRange(node.op, args);
      if 0 < |args| && args[0].Some? && range.Some? && range.value.0 != [] && range.value.1 != []
      then NonEmpty(SliceValues(args[0].value, range.value.0, range.value.1)) else None
    case Mul => if Both(args) then Some(MulValues(args[0].value, args[1].value)) else None
    case Div => if Both(args) then Some(DivValues(args[0].value, args[1].value)) else None
    case Concat => if AllSome(args) then NonEmpty(ConcatValues(args)) else None
    case _ => None
  }

  // ----- laws of the operators -----

  /** `r` is the integer next to `x` on the way to zero. */
  ghost predicate TruncatedTo(x: real, r: int)
  {
    if x >= 0.0 then r as real <= x < r as real + 1.0 else r as real - 1.0 < x <= r as real
  }

  lemma TruncIsTruncated(x: real)
    ensures TruncatedTo(x, Trunc(x))
  {
  }

  /** Integers are truncated to themselves, so a shape that is handled as values comes back. */
  lemma ShapesRoundTrip(dims: Dims)
    ensures Truncated(AsValues(dims)) == dims
  {
    forall i | 0 <= i < |dims|
      ensures Truncated(AsValues(dims))[i] == dims[i]
    {
      TruncIsTruncated(dims[i] as real);
    }
  }

  /** Multiplication undoes division, and division multiplication, by values that are not zero. */
  lemma DivisionUndone(a: Values, b: Values)
    requires b != [] && |b| <= |a| && forall i | 0 <= i < |b| :: b[i] != 0.0
    ensures MulValues(DivValues(a, b), b) == a
    ensures DivValues(MulValues(a, b), b) == a
  {
    hide MulValues, DivValues;
    Lengths(a, b);
    var quotient, product := DivValues(a, b), MulValues(a, b);
    Lengths(quotient, b);
    Lengths(product, b);
    forall i | 0 <= i < |a|
      ensures MulValues(quotient, b)[i] == a[i] && DivValues(product, b)[i] == a[i]
    {
      var y := b[i % |b|];
      EntryOf(a, b, i);
      EntryOf(quotient, b, i);
      EntryOf(product, b, i);
      Cancels(a[i], y);
    }
  }

  lemma Lengths(a: Values, b: Values)
    requires b != [] && |b| <= |a|
    ensures |MulValues(a, b)| == |DivValues(a, b)| == |a|
  {
  }

  lemma EntryOf(a: Values, b: Values, i: nat)
    requires b != [] && |b| <= |a| && i < |a| && b[i % |b|] != 0.0
    ensures |MulValues(a, b)| == |DivValues(a, b)| == |a|
    ensures MulValues(a, b)[i] == a[i] * b[i % |b|] && DivValues(a, b)[i] == a[i] / b[i % |b|]
  {
    MulEntry(a, b, i);
    DivEntry(a, b, i);
    hide *;
    SmallModulo(i, |a|);
  }

  lemma MulEntry(a: Values, b: Values, i: nat)
    requires b != [] && |b| <= |a| && i < |a|
    ensures |MulValues(a, b)| == |a| && MulValues(a, b)[i] == a[i % |a|] * b[i % |b|]
  {
  }

  lemma DivEntry(a: Values, b: Values, i: nat)
    requires b != [] && |b| <= |a| && i < |a| && b[i % |b|] != 0.0
    ensures |DivValues(a, b)| == |a| && DivValues(a, b)[i] == a[i % |a|] / b[i % |b|]
  {
  }

  lemma SmallModulo(i: nat, n: nat)
    requires i < n
    ensures i % n == i
  {
  }

  lemma Cancels(x: real, y: real)
    requires y != 0.0
    ensures x / y * y == x && x * y / y == x
  {
  }

  /** Twice a value is its sum with itself, and division by zero gives zero. */
  lemma Doubling(a: Values)
    requires a != []
    ensures MulValues(a, [2.0]) == seq(|a|, i requires 0 <= i < |a| => a[i] + a[i])
    ensures DivValues(a, [0.0]) == seq(|a|, _ => 0.0)
  {
    hide MulValues;
    Lengths(a, [2.0]);
    forall i | 0 <= i < |a|
      ensures MulValues(a, [2.0])[i] == a[i] + a[i]
    {
      EntryOf(a, [2.0], i);
    }
  }

  /** Gathering in-range indices, counted from the end if negative, picks these entries in order. */
  lemma {:induction false} GatherPicks(data: Values, indices: Values)
    requires forall i | 0 <= i < |indices| :: -|data| <= Trunc(indices[i]) < |data|
    ensures |GatherValues(data, indices)| == |indices|
    ensures forall i | 0 <= i < |indices| ::
              var k := Trunc(indices[i]);
              GatherValues(data, indices)[i] == data[if k < 0 then |data| + k else k]
  {
    hide Trunc, GatherValues;
    if indices == [] {
      assert |GatherValues(data, [])| == 0 by { GatherNone(data); }
    } else {
      var n := |indices| - 1;
      GatherPicks(data, indices[..n]);
      GatherOne(data, indices[..n], indices[n]);
      assert indices[..n] + [indices[n]] == indices;
    }
  }

  lemma GatherNone(data: Values)
    ensures GatherValues(data, []) == []
  {
  }

  lemma GatherOne(data: Values, before: Values, x: real)
    requires -|data| <= Trunc(x) < |data|
    ensures GatherValues(data, before + [x])
            == GatherValues(data, before) + [data[if Trunc(x) < 0 then |data| + Trunc(x) else Trunc(x)]]
  {
    hide Trunc;
    assert (before + [x])[..|before + [x]| - 1] == before;
  }

  lemma GatherAllIsIdentity(data: Values)
    ensures GatherValues(data, seq(|data|, i requires 0 <= i => i as real)) == data
  {
    hide GatherValues, Trunc;
    var all := seq(|data|, i requires 0 <= i => i as real);
    forall i | 0 <= i < |data|
      ensures Trunc(all[i]) == i
    {
      TruncIsTruncated(all[i]);
    }
    GatherPicks(data, all);
  }

  /** An index past the data is skipped. */
  lemma GatherPastEnd(data: Values, x: real)
    requires Trunc(x) >= |data| || Trunc(x) < -|data|
    ensures GatherValues(data, [x]) == []
  {
    assert [x][..0] == [];
  }

  /** Cut anywhere, counted from either end, and joined again, the data is the same. */
  lemma SliceAndConcat(data: Values, k: nat)
    requires k <= |data|
    ensures ConcatValues([Some(SliceValues(data, [0.0], [k as real])),
                          Some(SliceValues(data, [k as real], [|data| as real]))]) == data
    ensures 0 < k ==>
              SliceValues(data, [-(k as real)], [|data| as real])
              == SliceValues(data, [(|data| - k) as real], [|data| as real])
  {
    hide SliceValues, ConcatValues;
    SlicesAre(data, k);
    ConcatTwo(data[..k], data[k..]);
    if 0 < k {
      SliceFromEnd(data, k);
      SlicesAre(data, |data| - k);
    }
  }

  lemma SliceFromEnd(data: Values, k: nat)
    requires 0 < k <= |data|
    ensures SliceValues(data, [-(k as real)], [|data| as real]) == data[|data| - k..]
  {
    TruncIsTruncated(-(k as real));
    TruncIsTruncated(|data| as real);
    SliceEntries(data, -(k as real), |data| as real, -(k as int), |data|);
  }

  lemma SliceEntries(data: Values, x: real, y: real, s: int, e: nat)
    requires Trunc(x) == s && Trunc(y) == e && -|data| <= s && e <= |data|
    ensures var from := if s < 0 then |data| + s else s;
            from <= e ==> SliceValues(data, [x], [y]) == data[from..e]
  {
    hide Trunc;
  }

  lemma ConcatTwo(a: Values, b: Values)
    ensures ConcatValues([Some(a), Some(b)]) == a + b
  {
    assert [Some(a), Some(b)][..1] == [Some(a)] && [Some(a)][..0] == [];
    assert ConcatValues([Some(a)]) == [] + a;
  }

  /** The arguments go where they belong: data first, then indices, then starts and ends. */
  lemma EvalPassesArguments(node: Node, data: Values, k: nat, dims: Dims)
    requires 0 < k < |data|
    ensures var n := |data|;
            var all := seq(n, i requires 0 <= i => i as real);
            && (node.op.Cast? && |node.inputs| == 1 ==> Eval(node, [Some(data)], dims) == Some(data))
            && (node.op.Gather? && |node.inputs| == 2 ==> Eval(node, [Some(data), Some(all)], dims) == Some(data))
            && (node.op.Slice? && |node.inputs| == 3 ==>
                  && Eval(node, [Some(data), Some([0.0]), Some([k as real])], dims) == Some(data[..k])
                  && Eval(node, [Some(data), Some([k as real]), Some([n as real])], dims) == Some(data[k..]))
            && (node.op == Slice([0.0], [k as real]) && |node.inputs| == 1 ==>
                  Eval(node, [Some(data)], dims) == Some(data[..k]))
            && (node.op.Concat? && |node.inputs| == 2 ==>
                  && Eval(node, [Some(data[..k]), Some(data[k..])], dims) == Some(data)
                  && Eval(node, [Some(data), None], dims) == None)
            && (node.op.Shape? && |node.inputs| == 1 && dims != [] ==>
                  Eval(node, [None], dims).Some? && Truncated(Eval(node, [None], dims).value) == dims)
  {
    hide GatherValues, SliceValues, ConcatValues, Trunc, Truncated;
    SlicesAre(data, k);
    GatherAllIsIdentity(data);
    ConcatTwo(data[..k], data[k..]);
    assert data[..k] + data[k..] == data;
    assert [Some(data), None][1].None?;
    ShapesRoundTrip(dims);
  }

  lemma SlicesAre(data: Values, k: nat)
    requires k <= |data|
    ensures SliceValues(data, [0.0], [k as real]) == data[..k]
    ensures SliceValues(data, [k as real], [|data| as real]) == data[k..]
  {
    TruncIsTruncated(0.0);
    TruncIsTruncated(k as real);
    TruncIsTruncated(|data| as real);
    SliceEntries(data, 0.0, k as real, 0, k);
    SliceEntries(data, k as real, |data| as real, k, |data|);
  }

  /** Dividing and multiplying again, as nodes: the first argument is what is divided. */
  lemma EvalDivides(div: Node, mul: Node, a: Values, b: Values, dims: Dims)
    requires div.op.Div? && mul.op.Mul? && |div.inputs| == |mul.inputs| == 2
    requires b != [] && |b| <= |a| && forall i | 0 <= i < |b| :: b[i] != 0.0
    ensures Eval(div, [Some(a), Some(b)], dims).Some?
    ensures Eval(mul, [Eval(div, [Some(a), Some(b)], dims), Some(b)], dims) == Some(a)
  {
    hide MulValues, DivValues;
    Lengths(a, b);
    DivisionUndone(a, b);
  }

  // ----- resolving shapes -----

  function Initializer(m: Model, name: string, count: nat): Values
  {
    if name in m.initializers && |m.initializers[name]| == count then m.initializers[name] else []
  }

  predicate Scaling(node: Node)
  {
    node.op.Upsample? || node.op.Resize?
  }

  function ScalesIndex(node: Node): nat
  {
    if node.op.Upsample? || |node.inputs| == 2 then 1 else 2
  }

  /** The name of the scales input, or "". */
  function ScalesName(node: Node): string
  {
    if ScalesIndex(node) < |node.inputs| then node.inputs[ScalesIndex(node)] else ""
  }

  function AttributeScales(node: Node): Values
  {
    if node.op.Upsample? && |node.inputs| == 1 then node.op.scales else []
  }

  function SizesOf(m: Model, node: Node, rank: nat): Values
  {
    if node.op.Resize? && 4 <= |node.inputs| && node.inputs[3] != "" then Initializer(m, node.inputs[3], rank) else []
  }

  function Truncated(v: Values): (r: Dims)
    ensures |r| == |v|
  {
    seq(|v|, i requires 0 <= i < |v| => Trunc(v[i]))
  }

  function ScaledDim(dim: int, scale: real): int { Trunc(dim as real * scale) }

  function Scaled(dims: Dims, scales: Values): (r: Dims)
    requires |dims| == |scales|
    ensures |r| == |dims|
  {
    seq(|dims|, i requires 0 <= i < |dims| => ScaledDim(dims[i], scales[i]))
  }

  /** Every dimension is the product with its scale, truncated. */
  ghost predicate ScaledBy(r: Dims, dims: Dims, scales: Values)
  {
    |r| == |dims| == |scales| && forall d | 0 <= d < |r| :: ScaledEntry(dims[d], scales[d], r[d])
  }

  ghost predicate ScaledEntry(dim: int, scale: real, r: int)
  {
    TruncatedTo(dim as real * scale, r)
  }

  lemma EntryIsScaled(dim: int, scale: real)
    ensures ScaledEntry(dim, scale, ScaledDim(dim, scale))
  {
    TruncIsTruncated(dim as real * scale);
  }

  lemma ScaledIsScaledBy(dims: Dims, scales: Values)
    requires |dims| == |scales|
    ensures ScaledBy(Scaled(dims, scales), dims, scales)
  {
    hide ScaledEntry, ScaledDim;
    forall d | 0 <= d < |dims|
      ensures ScaledEntry(dims[d], scales[d], Scaled(dims, scales)[d])
    {
      EntryIsScaled(dims[d], scales[d]);
    }
  }

  /** For what shapes and scales really are: between the product and the integer below it. */
  lemma NonnegativeScaling(dim: nat, scale: real, r: int)
    requires ScaledEntry(dim, scale, r) && scale >= 0.0
    ensures r as real <= dim as real * scale < r as real + 1.0
  {
    assert dim as real * scale >= 0.0;
  }

  /** The scales that are known without evaluating anything, else those evaluated for the scales input. */
  function KnownScales(m: Model, node: Node, rank: nat, value: Option<Values>): Values
  {
    if AttributeScales(node) != [] then AttributeScales(node)
    else if ScalesName(node) == "" then []
    else if Initializer(m, ScalesName(node), rank) != [] then Initializer(m, ScalesName(node), rank)
    else if value.Some? && |value.value| == rank then value.value
    else []
  }

  /** The output shape of an Upsample or Resize node, or []. */
  function ScaledDims(m: Model, node: Node, dims: Dims, value: Option<Values>): Dims
  {
    var rank := |dims|;
    if dims == [] then []
    else if AttributeScales(node) == [] && SizesOf(m, node, rank) != [] then Truncated(SizesOf(m, node, rank))
    else
      var scales := KnownScales(m, node, rank, value);
      if |scales| == rank then Scaled(dims, scales) else []
  }

  // ----- shapes known so far -----

  predicate MetaStatic(m: Model, name: string)
  {
    name in m.meta && m.meta[name] != [] && forall i | 0 <= i < |m.meta[name]| :: 0 <= m.meta[name][i]
  }

  /** The model gives no complete shape; a scalar's shape is complete. */
  predicate MetaDynamic(m: Model, name: string)
  {
    name !in m.meta || exists i :: 0 <= i < |m.meta[name]| && m.meta[name][i] < 0
  }

  /** GetStaticDims: the model's shape, else the resolved one, else []. */
  function StaticDims(m: Model, shapes: map<string, Dims>, name: string): Dims
  {
    if MetaStatic(m, name) then m.meta[name] else if name in shapes then shapes[name] else []
  }

  /** HasDynamicShape */
  predicate Dynamic(m: Model, shapes: map<string, Dims>, name: string)
  {
    name !in shapes && MetaDynamic(m, name)
  }

  function Find(values: map<string, Values>, name: string): Option<Values>
  {
    if name in values then Some(values[name]) else None
  }

  function Args(node: Node, values: map<string, Values>): (r: seq<Option<Values>>)
    ensures |r| == |node.inputs| && forall i | 0 <= i < |r| :: r[i] == Find(values, node.inputs[i])
  {
    seq(|node.inputs|, i requires 0 <= i < |node.inputs| => Find(values, node.inputs[i]))
  }

  function FirstInput(node: Node): string
  {
    if node.inputs == [] then "" else node.inputs[0]
  }

  // ----- the reference evaluation -----

  /** The last node before `n` that produces `name`. */
  function Producer(g: Graph, n: nat, name: string): (r: Option<nat>)
    requires n <= |g|
    ensures r.Some? ==> r.value < n && name in g[r.value].outputs
    ensures r == None ==> forall k | 0 <= k < n :: name !in g[k].outputs
  {
    if n == 0 then None else if name in g[n - 1].outputs then Some(n - 1) else Producer(g, n - 1, name)
  }

  /** The first Cast that consumes `name`; the resolved shape of an Upsample or Resize output is handed on to it. */
  function FirstCast(g: Graph, name: string, from: nat): (r: Option<nat>)
    requires from <= |g|
    ensures r.Some? ==> from <= r.value < |g| && g[r.value].op.Cast? && FirstInput(g[r.value]) == name
    ensures var end := if r.Some? then r.value else |g|;
            forall k | from <= k < end :: !(g[k].op.Cast? && g[k].inputs != [] && FirstInput(g[k]) == name)
    decreases |g| - from
  {
    if from == |g| then None
    else if g[from].op.Cast? && g[from].inputs != [] && FirstInput(g[from]) == name then Some(from)
    else FirstCast(g, name, from + 1)
  }

  /** Evaluates the producer of `name`, recursively; initial values take precedence. */
  function RefValue(m: Model, start: State, n: nat, name: string): Option<Values>
    requires n <= |m.g|
    decreases n, 2
  {
    if name in start.values then Some(start.values[name])
    else
      var p := Producer(m.g, n, name);
      if p.None? || m.g[p.value].outputs[0] != name then None
      else
        var node := m.g[p.value];
        var args := seq(|node.inputs|,
                        i requires 0 <= i < |node.inputs| => RefValue(m, start, p.value, node.inputs[i]));
        Eval(node, args, RefDims(m, start, p.value, FirstInput(node)))
  }

  function RefDims(m: Model, start: State, n: nat, name: string): Dims
    requires n <= |m.g|
    decreases n, 1
  {
    if MetaStatic(m, name) then m.meta[name]
    else if name in start.shapes then start.shapes[name]
    else RefResolved(m, start, n, name)
  }

  /** The shape that resolution finds for `name`. */
  function RefResolved(m: Model, start: State, n: nat, name: string): Dims
    requires n <= |m.g|
    decreases n, 0
  {
    var p := Producer(m.g, n, name);
    if p.None? then []
    else
      var node := m.g[p.value];
      if Scaling(node) then
        if node.outputs[0] == name && Dynamic(m, start.shapes, name) then
          ScaledDims(m, node, RefDims(m, start, p.value, FirstInput(node)),
                     RefValue(m, start, p.value, ScalesName(node)))
        else []
      else if HandsOn(m, start, p.value) then RefResolved(m, start, p.value, FirstInput(node))
      else []
  }

  /** Node `p` is the Cast that gets its shape from an Upsample or Resize output before it. */
  predicate HandsOn(m: Model, start: State, p: nat)
    requires p < |m.g|
  {
    var node := m.g[p];
    && node.op.Cast? && node.inputs != [] && FirstCast(m.g, FirstInput(node), 0) == Some(p)
    && var q := Producer(m.g, p, FirstInput(node));
    q.Some? && Scaling(m.g[q.value]) && m.g[q.value].outputs[0] == FirstInput(node)
    && Dynamic(m, start.shapes, FirstInput(node))
  }

  // ----- evaluation only gains information -----

  ghost predicate Below(a: seq<Option<Values>>, b: seq<Option<Values>>)
  {
    |a| == |b| && forall i | 0 <= i < |a| :: a[i].Some? ==> b[i] == a[i]
  }

  /**
   A Slice with range inputs has no range attributes: the operator has attributes up to opset 9 and inputs from 10 on.
   */
  predicate Unambiguous(node: Node)
  {
    node.op.Slice? && 3 <= |node.inputs| ==> node.op.starts == [] || node.op.ends == []
  }

  /** What could be evaluated from part of the inputs stays the same when more becomes known. */
  lemma EvalMonotone(node: Node, a: seq<Option<Values>>, b: seq<Option<Values>>, dims: Dims, dims': Dims)
    requires |a| == |node.inputs| && Below(a, b) && Unambiguous(node) && (dims != [] ==> dims' == dims)
    requires Eval(node, a, dims).Some?
    ensures Eval(node, b, dims') == Eval(node, a, dims)
  {
    if node.op.Concat? {
      assert a == b;
    }
  }
}
