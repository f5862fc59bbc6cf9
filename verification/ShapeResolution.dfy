/**
 The fixpoint that resolves dynamic Upsample and Resize shapes: repeated passes over the nodes with a table of values,
 and a backward walk of its own. Every entry it writes equals the reference evaluation, and it terminates.
 */
module ShapeResolution {
  import opened Common
  import opened ShapeReference

  /** What the graph and the initial tables are expected to satisfy. */
  ghost predicate WellFormed(m: Model, start: State)
  {
    && NamesOk(m.g) && NodesOk(m.g)
    && (forall name | name in start.values :: name != "" && start.values[name] != [])
    && (forall name | name in start.shapes :: start.shapes[name] != [])
    && forall p, i | 0 <= p < |m.g| && 0 <= i < |m.g[p].outputs| && HandsOn(m, start, p) ::
         m.g[p].outputs[i] !in start.shapes
  }

  /**
   Every name has one producer, and that comes before its consumers. Only operators without a meaning here may leave an
   output unnamed.
   */
  ghost predicate NamesOk(g: Graph)
  {
    && (forall k | 0 <= k < |g| && !g[k].op.Opaque? :: "" !in g[k].outputs)
    && (forall j, k, name | 0 <= j < |g| && 0 <= k < |g| && name != "" ::
          name in g[j].outputs && name in g[k].outputs ==> j == k)
    && (forall j, k, name | 0 <= j < |g| && 0 <= k < |g| && name != "" ::
          name in g[j].outputs && name in g[k].inputs ==> j < k)
  }

  ghost predicate NodesOk(g: Graph)
  {
    forall k | 0 <= k < |g| ::
      && Unambiguous(g[k])
      && (Scaling(g[k]) ==> g[k].inputs != [])
      && (g[k].op.Cast? || g[k].op.Concat? || g[k].op.Div? ==> |g[k].outputs| == 1)
  }

  // ----- the tables agree with the reference -----

  ghost predicate ValueSound(m: Model, start: State, name: string, v: Values)
  {
    name != "" && v != [] && RefValue(m, start, |m.g|, name) == Some(v)
  }

  ghost predicate ShapeSound(m: Model, start: State, name: string, dims: Dims)
  {
    dims != []
    && if name in start.shapes then dims == start.shapes[name] else RefResolved(m, start, |m.g|, name) == dims
  }

  ghost predicate Sound(m: Model, start: State, s: State)
  {
    && (forall name | name in s.values :: ValueSound(m, start, name, s.values[name]))
    && (forall name | name in s.shapes :: ShapeSound(m, start, name, s.shapes[name]))
    && start.values.Keys <= s.values.Keys && start.shapes.Keys <= s.shapes.Keys
  }

  /** Two tables reached in different ways never disagree. */
  lemma Confluent(m: Model, start: State, a: State, b: State, name: string)
    requires Sound(m, start, a) && Sound(m, start, b)
    ensures name in a.values && name in b.values ==> a.values[name] == b.values[name]
    ensures name in a.shapes && name in b.shapes ==> a.shapes[name] == b.shapes[name]
  {
    if name in a.values && name in b.values {
      assert ValueSound(m, start, name, a.values[name]) && ValueSound(m, start, name, b.values[name]);
    }
    if name in a.shapes && name in b.shapes {
      assert ShapeSound(m, start, name, a.shapes[name]) && ShapeSound(m, start, name, b.shapes[name]);
    }
  }

  lemma {:induction false} ProducerIs(g: Graph, k: nat, name: string, n: nat)
    requires NamesOk(g) && k < n <= |g| && name != "" && name in g[k].outputs
    ensures Producer(g, n, name) == Some(k)
  {
    if n - 1 != k {
      ProducerIs(g, k, name, n - 1);
    }
  }

  /** The producer of an input comes before its consumer, so looking further finds nothing else. */
  lemma InputProducer(g: Graph, k: nat, name: string)
    requires NamesOk(g) && k < |g| && name != "" && name in g[k].inputs
    ensures Producer(g, k, name) == Producer(g, |g|, name)
  {
    var p := Producer(g, |g|, name);
    if p.Some? {
      ProducerIs(g, p.value, name, k);
    } else {
      var q := Producer(g, k, name);
      if q.Some? {
        ProducerIs(g, q.value, name, |g|);
      }
    }
  }

  /** The producer of an unnamed output has no meaning here, so nothing is known of the empty name. */
  lemma NothingIsUnnamed(m: Model, start: State, n: nat)
    requires NamesOk(m.g) && "" !in start.values && n <= |m.g|
    ensures RefValue(m, start, n, "") == None && RefResolved(m, start, n, "") == []
  {
  }

  lemma InputStable(m: Model, start: State, k: nat, name: string)
    requires NamesOk(m.g) && "" !in start.values && k < |m.g| && (name in m.g[k].inputs || name == "")
    ensures RefValue(m, start, k, name) == RefValue(m, start, |m.g|, name)
    ensures RefResolved(m, start, k, name) == RefResolved(m, start, |m.g|, name)
    ensures RefDims(m, start, k, name) == RefDims(m, start, |m.g|, name)
  {
    if name == "" {
      NothingIsUnnamed(m, start, k);
      NothingIsUnnamed(m, start, |m.g|);
    } else {
      InputProducer(m.g, k, name);
    }
  }

  lemma StaticIsReference(m: Model, start: State, s: State, name: string)
    requires Sound(m, start, s) && StaticDims(m, s.shapes, name) != []
    ensures StaticDims(m, s.shapes, name) == RefDims(m, start, |m.g|, name)
  {
    if !MetaStatic(m, name) {
      assert ShapeSound(m, start, name, s.shapes[name]);
    }
  }

  lemma FirstInputIn(node: Node)
    ensures FirstInput(node) in node.inputs || FirstInput(node) == ""
  {
  }

  lemma ScalesNameIn(node: Node)
    ensures ScalesName(node) in node.inputs || ScalesName(node) == ""
  {
  }

  function RefArgs(m: Model, start: State, k: nat): (r: seq<Option<Values>>)
    requires k < |m.g|
    ensures |r| == |m.g[k].inputs| && forall i | 0 <= i < |r| :: r[i] == RefValue(m, start, k, m.g[k].inputs[i])
  {
    var node := m.g[k];
    seq(|node.inputs|, i requires 0 <= i < |node.inputs| => RefValue(m, start, k, node.inputs[i]))
  }

  lemma RefValueUnfolds(m: Model, start: State, k: nat)
    requires NamesOk(m.g) && k < |m.g| && m.g[k].outputs != [] && m.g[k].outputs[0] !in start.values
    requires m.g[k].outputs[0] != ""
    ensures RefValue(m, start, |m.g|, m.g[k].outputs[0])
            == Eval(m.g[k], RefArgs(m, start, k), RefDims(m, start, k, FirstInput(m.g[k])))
  {
    ProducerIs(m.g, k, m.g[k].outputs[0], |m.g|);
    var node := m.g[k];
    assert RefArgs(m, start, k)
           == seq(|node.inputs|, i requires 0 <= i < |node.inputs| => RefValue(m, start, k, node.inputs[i]));
  }

  lemma EvalNonEmpty(node: Node, args: seq<Option<Values>>, dims: Dims)
    requires |args| == |node.inputs| && Eval(node, args, dims).Some?
    requires forall i | 0 <= i < |args| && args[i].Some? :: args[i].value != []
    ensures Eval(node, args, dims).value != []
  {
  }

  lemma EvaluatedIsNamed(g: Graph, k: nat, args: seq<Option<Values>>, dims: Dims)
    requires NamesOk(g) && k < |g| && |args| == |g[k].inputs| && g[k].outputs != [] && Eval(g[k], args, dims).Some?
    ensures g[k].outputs[0] != ""
  {
    assert g[k].outputs[0] in g[k].outputs;
  }

  /** Evaluating a node from the tables gives its reference value. */
  lemma EvaluationIsSound(m: Model, start: State, s: State, k: nat)
    requires WellFormed(m, start) && Sound(m, start, s) && k < |m.g| && m.g[k].outputs != []
    requires m.g[k].outputs[0] !in s.values
    requires Eval(m.g[k], Args(m.g[k], s.values), StaticDims(m, s.shapes, FirstInput(m.g[k]))).Some?
    ensures ValueSound(m, start, m.g[k].outputs[0],
                       Eval(m.g[k], Args(m.g[k], s.values), StaticDims(m, s.shapes, FirstInput(m.g[k]))).value)
  {
    var node := m.g[k];
    EvaluatedIsNamed(m.g, k, Args(node, s.values), StaticDims(m, s.shapes, FirstInput(node)));
    hide Eval, RefValue, RefDims, RefResolved, MetaStatic;
    var now, ref := Args(node, s.values), RefArgs(m, start, k);
    forall i | 0 <= i < |now| && now[i].Some?
      ensures ref[i] == now[i] && now[i].value != []
    {
      assert ValueSound(m, start, node.inputs[i], s.values[node.inputs[i]]);
      InputStable(m, start, k, node.inputs[i]);
    }
    FirstInputIn(node);
    InputStable(m, start, k, FirstInput(node));
    var dims := StaticDims(m, s.shapes, FirstInput(node));
    if dims != [] {
      StaticIsReference(m, start, s, FirstInput(node));
    }
    EvalMonotone(node, now, ref, dims, RefDims(m, start, k, FirstInput(node)));
    EvalNonEmpty(node, now, dims);
    assert node.outputs[0] in node.outputs;
    RefValueUnfolds(m, start, k);
  }

  /** The shape found for an Upsample or Resize output is its reference shape. */
  lemma ScaledIsSound(m: Model, start: State, s: State, k: nat)
    requires WellFormed(m, start) && Sound(m, start, s) && k < |m.g| && m.g[k].outputs != [] && Scaling(m.g[k])
    requires Dynamic(m, s.shapes, m.g[k].outputs[0])
    requires var node := m.g[k];
             ScaledDims(m, node, StaticDims(m, s.shapes, FirstInput(node)), Find(s.values, ScalesName(node))) != []
    ensures var node := m.g[k];
            && Dynamic(m, start.shapes, node.outputs[0])
            && RefResolved(m, start, |m.g|, node.outputs[0])
               == ScaledDims(m, node, StaticDims(m, s.shapes, FirstInput(node)), Find(s.values, ScalesName(node)))
  {
    hide RefValue, RefDims, MetaStatic;
    var node := m.g[k];
    ProducerIs(m.g, k, node.outputs[0], |m.g|);
    FirstInputIn(node);
    ScalesNameIn(node);
    InputStable(m, start, k, FirstInput(node));
    InputStable(m, start, k, ScalesName(node));
    StaticIsReference(m, start, s, FirstInput(node));
    var now := Find(s.values, ScalesName(node));
    if now.Some? {
      assert ValueSound(m, start, ScalesName(node), now.value);
    }
    ScaledMonotone(m, node, StaticDims(m, s.shapes, FirstInput(node)), now, RefValue(m, start, k, ScalesName(node)));
  }

  lemma ScaledMonotone(m: Model, node: Node, dims: Dims, a: Option<Values>, b: Option<Values>)
    requires (a.Some? ==> b == a) && ScaledDims(m, node, dims, a) != []
    ensures ScaledDims(m, node, dims, b) == ScaledDims(m, node, dims, a)
  {
  }

  /** The shape handed on to a Cast is its reference shape. */
  lemma HandedOnIsSound(m: Model, start: State, k: nat, p: nat, name: string)
    requires WellFormed(m, start) && k < |m.g| && Scaling(m.g[k]) && m.g[k].outputs != []
    requires Dynamic(m, start.shapes, m.g[k].outputs[0])
    requires FirstCast(m.g, m.g[k].outputs[0], 0) == Some(p) && name in m.g[p].outputs
    ensures name !in start.shapes
    ensures RefResolved(m, start, |m.g|, name) == RefResolved(m, start, |m.g|, m.g[k].outputs[0])
  {
    var u := m.g[k].outputs[0];
    FirstCastHasInput(m.g, u, 0);
    assert u in m.g[p].inputs;
    ProducerIs(m.g, k, u, p);
    assert HandsOn(m, start, p);
    ProducerIs(m.g, p, name, |m.g|);
    InputStable(m, start, p, u);
  }

  lemma {:induction false} FirstCastHasInput(g: Graph, name: string, from: nat)
    requires from <= |g| && FirstCast(g, name, from).Some?
    ensures g[FirstCast(g, name, from).value].inputs != []
    decreases |g| - from
  {
    if !(g[from].op.Cast? && g[from].inputs != [] && FirstInput(g[from]) == name) {
      FirstCastHasInput(g, name, from + 1);
    }
  }

  // ----- progress -----

  function AsSet(names: seq<string>): (r: set<string>)
    ensures forall name :: name in r <==> name in names
  {
    set i | 0 <= i < |names| :: names[i]
  }

  function OutputNames(g: Graph): set<string>
  {
    if g == [] then {} else OutputNames(g[..|g| - 1]) + AsSet(g[|g| - 1].outputs)
  }

  lemma {:induction false} OutputNamed(g: Graph, k: nat, name: string)
    requires k < |g| && name in g[k].outputs
    ensures name in OutputNames(g)
  {
    if k < |g| - 1 {
      OutputNamed(g[..|g| - 1], k, name);
    }
  }

  /** Upsample and Resize nodes whose output shape is still dynamic. */
  function Unscaled(m: Model, shapes: map<string, Dims>): set<nat>
  {
    set k | 0 <= k < |m.g| && Scaling(m.g[k]) && m.g[k].outputs != [] && Dynamic(m, shapes, m.g[k].outputs[0])
  }

  /** Unresolved names plus unresolved Upsample and Resize outputs. */
  function Measure(m: Model, s: State): nat
  {
    |OutputNames(m.g) - s.values.Keys| + |Unscaled(m, s.shapes)|
  }

  ghost predicate Grows(s: State, d: State)
  {
    && (forall name | name in s.values :: name in d.values && d.values[name] == s.values[name])
    && s.shapes.Keys <= d.shapes.Keys
  }

  lemma SubsetSize<T>(a: set<T>, b: set<T>)
    requires a <= b
    ensures |a| <= |b|
    ensures a != b ==> |a| < |b|
  {
    if a != b {
      var x :| x in b && x !in a;
      SubsetSize(a, b - {x});
    } else {
      assert |a| == |b|;
    }
  }

  lemma MeasureShrinks(m: Model, s: State, d: State)
    requires Grows(s, d)
    ensures Measure(m, d) <= Measure(m, s)
    ensures (exists name :: name in OutputNames(m.g) && name in d.values && name !in s.values)
            ==> Measure(m, d) < Measure(m, s)
    ensures (exists k :: k in Unscaled(m, s.shapes) && k !in Unscaled(m, d.shapes)) ==> Measure(m, d) < Measure(m, s)
  {
    SubsetSize(OutputNames(m.g) - d.values.Keys, OutputNames(m.g) - s.values.Keys);
    SubsetSize(Unscaled(m, d.shapes), Unscaled(m, s.shapes));
  }

  /** A step that reports a change has made progress, and one that does not has left the tables alone. */
  ghost predicate Stepped(m: Model, s: State, d: State, changed: bool)
  {
    Grows(s, d) && if changed then Measure(m, d) < Measure(m, s) else d == s
  }

  lemma SteppedTwice(m: Model, a: State, b: State, c: State, first: bool, second: bool)
    requires Stepped(m, a, b, first) && Stepped(m, b, c, second)
    ensures Stepped(m, a, c, first || second)
  {
    hide Measure;
  }

  // ----- what a visit does -----

  predicate ChainOp(op: Op)
  {
    op.Cast? || op.Concat? || op.Div? || op.Mul? || op.Gather? || op.Slice? || op.Shape?
  }

  predicate ShouldEvaluate(node: Node, values: map<string, Values>)
  {
    && node.outputs != [] && node.outputs[0] !in values
    && (node.cpuPreferred || node.op.Shape?
        || (node.inputs != [] && ChainOp(node.op)
            && forall i | 0 <= i < |node.inputs| && node.inputs[i] != "" :: node.inputs[i] in values))
  }

  function EvalNow(m: Model, s: State, k: nat): Option<Values>
    requires k < |m.g|
  {
    Eval(m.g[k], Args(m.g[k], s.values), StaticDims(m, s.shapes, FirstInput(m.g[k])))
  }

  function ScaledNow(m: Model, s: State, k: nat): Dims
    requires k < |m.g|
  {
    ScaledDims(m, m.g[k], StaticDims(m, s.shapes, FirstInput(m.g[k])), Find(s.values, ScalesName(m.g[k])))
  }

  /** There is nothing left to do for node `k`. */
  ghost predicate Settled(m: Model, s: State, k: nat)
    requires k < |m.g|
  {
    var node := m.g[k];
    node.outputs != [] ==>
      if ShouldEvaluate(node, s.values) then EvalNow(m, s, k) == None
      else Scaling(node) && Dynamic(m, s.shapes, node.outputs[0]) ==> ScaledNow(m, s, k) == []
  }

  lemma InitialTablesSound(m: Model, start: State)
    requires WellFormed(m, start)
    ensures Sound(m, start, start)
  {
    forall name | name in start.values
      ensures ValueSound(m, start, name, start.values[name])
    {
    }
  }

  /** The producers met on the way back along first inputs, as long as names are unresolved and hops are left. */
  function BackwardChain(m: Model, values: map<string, Values>, name: string, hops: nat): (r: seq<nat>)
    ensures |r| <= hops && forall j | 0 <= j < |r| :: r[j] < |m.g|
    decreases hops
  {
    if hops == 0 || name == "" || name in values then []
    else
      var p := Producer(m.g, |m.g|, name);
      if p.Some? then [p.value] + BackwardChain(m, values, FirstInput(m.g[p.value]), hops - 1) else []
  }

  /** Where the chain has got to after its first `j` nodes. */
  function NameAt(m: Model, name: string, chain: seq<nat>, j: nat): string
    requires j <= |chain| && forall i | 0 <= i < |chain| :: chain[i] < |m.g|
  {
    if j == 0 then name else FirstInput(m.g[chain[j - 1]])
  }

  ghost predicate ProducedBy(m: Model, values: map<string, Values>, name: string, p: nat)
  {
    name != "" && name !in values && Producer(m.g, |m.g|, name) == Some(p)
  }

  ghost predicate DeadEnd(m: Model, values: map<string, Values>, name: string)
  {
    name == "" || name in values || Producer(m.g, |m.g|, name) == None
  }

  /** Each node produces a value that is not known yet, and the chain ends with its hops or where it cannot go on. */
  ghost predicate FollowsBack(m: Model, values: map<string, Values>, name: string, hops: nat, chain: seq<nat>)
    requires forall i | 0 <= i < |chain| :: chain[i] < |m.g|
  {
    && |chain| <= hops
    && (forall j | 0 <= j < |chain| :: ProducedBy(m, values, NameAt(m, name, chain, j), chain[j]))
    && (|chain| < hops ==> DeadEnd(m, values, NameAt(m, name, chain, |chain|)))
  }

  lemma {:induction false} ChainFollowsBack(m: Model, values: map<string, Values>, name: string, hops: nat)
    ensures FollowsBack(m, values, name, hops, BackwardChain(m, values, name, hops))
    decreases hops
  {
    hide Producer, FirstInput, BackwardChain, FollowsBack;
    ChainUnfolds(m, values, name, hops);
    var chain := BackwardChain(m, values, name, hops);
    if chain == [] {
      EndsAtOnce(m, values, name, hops);
    } else {
      var rest := BackwardChain(m, values, FirstInput(m.g[chain[0]]), hops - 1);
      ChainFollowsBack(m, values, FirstInput(m.g[chain[0]]), hops - 1);
      OneStepBack(m, values, name, hops, chain[0], rest);
    }
  }

  lemma EndsAtOnce(m: Model, values: map<string, Values>, name: string, hops: nat)
    requires hops == 0 || DeadEnd(m, values, name)
    ensures FollowsBack(m, values, name, hops, [])
  {
    hide DeadEnd;
  }

  lemma OneStepBack(m: Model, values: map<string, Values>, name: string, hops: nat, p: nat, rest: seq<nat>)
    requires 0 < hops && p < |m.g| && ProducedBy(m, values, name, p)
    requires forall i | 0 <= i < |rest| :: rest[i] < |m.g|
    requires FollowsBack(m, values, FirstInput(m.g[p]), hops - 1, rest)
    ensures forall i | 0 <= i < |[p] + rest| :: ([p] + rest)[i] < |m.g|
    ensures FollowsBack(m, values, name, hops, [p] + rest)
  {
    hide ProducedBy, DeadEnd, FirstInput, NameAt;
    var chain, first := [p] + rest, FirstInput(m.g[p]);
    forall i | 0 <= i < |chain|
      ensures chain[i] < |m.g|
    {
    }
    NamesShift(m, name, p, rest);
    forall j | 0 <= j < |chain|
      ensures ProducedBy(m, values, NameAt(m, name, chain, j), chain[j])
    {
      if 0 < j {
        assert ProducedBy(m, values, NameAt(m, first, rest, j - 1), rest[j - 1]);
      }
    }
  }

  lemma NamesShift(m: Model, name: string, p: nat, rest: seq<nat>)
    requires p < |m.g| && forall i | 0 <= i < |rest| :: rest[i] < |m.g|
    requires forall i | 0 <= i < |[p] + rest| :: ([p] + rest)[i] < |m.g|
    ensures NameAt(m, name, [p] + rest, 0) == name
    ensures forall j | 0 < j <= |[p] + rest| ::
              NameAt(m, name, [p] + rest, j) == NameAt(m, FirstInput(m.g[p]), rest, j - 1)
  {
    hide FirstInput;
  }

  /** The operators that the walk evaluates. */
  predicate WalkOp(op: Op) { op.Cast? || op.Concat? || op.Div? }

  /** The walk has had its turn at node `p`: it has a value, or none can be computed. */
  ghost predicate Walked(m: Model, s: State, p: nat)
    requires p < |m.g| && m.g[p].outputs != []
  {
    WalkOp(m.g[p].op) ==> m.g[p].outputs[0] in s.values || EvalNow(m, s, p) == None
  }

  /** A value of a later node does not matter to an earlier one. */
  lemma StillWalked(m: Model, s: State, d: State, p: nat, q: nat)
    requires NamesOk(m.g) && p < q < |m.g| && m.g[p].outputs != [] && m.g[q].outputs != [] && Walked(m, s, p)
    requires d.shapes == s.shapes && Grows(s, d)
    requires forall name | name in d.values :: name in s.values || (name == m.g[q].outputs[0] && name != "")
    ensures Walked(m, d, p)
  {
    forall i | 0 <= i < |m.g[p].inputs|
      ensures Find(d.values, m.g[p].inputs[i]) == Find(s.values, m.g[p].inputs[i])
    {
      assert m.g[p].inputs[i] in m.g[p].inputs && m.g[q].outputs[0] in m.g[q].outputs;
    }
    assert Args(m.g[p], d.values) == Args(m.g[p], s.values);
    hide Eval, StaticDims, NamesOk;
  }

  /** The chain runs backward through the graph, over nodes that still have to be evaluated. */
  ghost predicate Pending(m: Model, values: map<string, Values>, stack: seq<nat>, k: nat)
  {
    && (forall j | 0 <= j < |stack| :: stack[j] < k && stack[j] < |m.g| && m.g[stack[j]].outputs != [])
    && (forall i, j | 0 <= i < j < |stack| :: stack[i] > stack[j])
    && (forall j | 0 <= j < |stack| && |m.g[stack[j]].outputs| == 1 ::
          m.g[stack[j]].outputs[0] != "" && m.g[stack[j]].outputs[0] !in values)
  }

  lemma ProducerBefore(g: Graph, k: nat, name: string)
    requires NamesOk(g) && k < |g| && name != "" && name in g[k].inputs && Producer(g, |g|, name).Some?
    ensures var p := Producer(g, |g|, name).value;
            p < k && g[p].outputs != [] && (|g[p].outputs| == 1 ==> g[p].outputs[0] == name)
  {
    hide Producer;
  }

  lemma {:induction false} ChainIsPending(m: Model, values: map<string, Values>, k: nat, name: string, hops: nat)
    requires NamesOk(m.g) && k < |m.g| && (name in m.g[k].inputs || name == "")
    ensures Pending(m, values, BackwardChain(m, values, name, hops), k)
    decreases hops
  {
    hide BackwardChain, NamesOk, Producer, FirstInput;
    ChainUnfolds(m, values, name, hops);
    if hops != 0 && name != "" && name !in values && Producer(m.g, |m.g|, name).Some? {
      var p := Producer(m.g, |m.g|, name).value;
      ProducerBefore(m.g, k, name);
      FirstInputIn(m.g[p]);
      ChainIsPending(m, values, p, FirstInput(m.g[p]), hops - 1);
      PrependPending(m, values, p, BackwardChain(m, values, FirstInput(m.g[p]), hops - 1), k);
    }
  }

  lemma PendingTop(m: Model, values: map<string, Values>, stack: seq<nat>, i: nat, k: nat)
    requires i < |stack| && Pending(m, values, stack[..i + 1], k)
    ensures stack[i] < |m.g| && m.g[stack[i]].outputs != []
    ensures |m.g[stack[i]].outputs| == 1 ==> m.g[stack[i]].outputs[0] !in values
  {
    assert stack[..i + 1][i] == stack[i];
  }

  /** Evaluating the last node of the chain leaves the others to be evaluated. */
  lemma PendingRest(m: Model, values: map<string, Values>, after: map<string, Values>, stack: seq<nat>, i: nat, k: nat)
    requires NamesOk(m.g) && i < |stack| && Pending(m, values, stack[..i + 1], k)
    requires stack[i] < |m.g| && m.g[stack[i]].outputs != []
    requires forall name | name in after :: name in values || name == m.g[stack[i]].outputs[0]
    ensures Pending(m, after, stack[..i], k)
  {
    forall j | 0 <= j < i
      ensures stack[..i][j] == stack[..i + 1][j] && stack[j] != stack[..i + 1][i]
    {
    }
    forall j | 0 <= j < i && |m.g[stack[j]].outputs| == 1
      ensures m.g[stack[j]].outputs[0] != m.g[stack[i]].outputs[0]
    {
      assert m.g[stack[..i + 1][j]].outputs[0] != "";
      assert m.g[stack[j]].outputs[0] in m.g[stack[j]].outputs;
      assert m.g[stack[i]].outputs[0] in m.g[stack[i]].outputs;
    }
    hide NamesOk;
  }

  lemma PrependPending(m: Model, values: map<string, Values>, p: nat, rest: seq<nat>, k: nat)
    requires Pending(m, values, rest, p) && p < k && p < |m.g| && m.g[p].outputs != []
    requires |m.g[p].outputs| == 1 ==> m.g[p].outputs[0] != "" && m.g[p].outputs[0] !in values
    ensures Pending(m, values, [p] + rest, k)
  {
    var stack := [p] + rest;
    assert forall j | 0 < j < |stack| :: stack[j] == rest[j - 1];
  }

  lemma ChainStep(m: Model, values: map<string, Values>, name: string, hops: nat, stack: seq<nat>)
    requires 0 < hops && name != "" && name !in values && Producer(m.g, |m.g|, name).Some?
    ensures var p := Producer(m.g, |m.g|, name).value;
            stack + BackwardChain(m, values, name, hops)
            == (stack + [p]) + BackwardChain(m, values, FirstInput(m.g[p]), hops - 1)
  {
    ChainUnfolds(m, values, name, hops);
    hide BackwardChain, Producer, FirstInput;
  }

  lemma ChainUnfolds(m: Model, values: map<string, Values>, name: string, hops: nat)
    ensures var p := Producer(m.g, |m.g|, name);
            BackwardChain(m, values, name, hops)
            == if hops == 0 || name == "" || name in values || p == None then []
               else [p.value] + BackwardChain(m, values, FirstInput(m.g[p.value]), hops - 1)
  {
  }

  /** The shapes after `dims` has been entered for all of `names`. */
  function EnterAll(shapes: map<string, Dims>, names: seq<string>, dims: Dims): map<string, Dims>
  {
    shapes + map name | name in names :: dims
  }

  lemma EnterNone(shapes: map<string, Dims>, dims: Dims)
    ensures EnterAll(shapes, [], dims) == shapes
  {
  }

  lemma EnterOne(shapes: map<string, Dims>, names: seq<string>, name: string, dims: Dims)
    ensures EnterAll(shapes, names, dims)[name := dims] == EnterAll(shapes, names + [name], dims)
  {
  }

  /** The shapes after the resolved shape of node `k` has been handed on to the first Cast behind it. */
  function HandedOn(m: Model, shapes: map<string, Dims>, k: nat, dims: Dims): map<string, Dims>
    requires k < |m.g| && m.g[k].outputs != []
  {
    var p := FirstCast(m.g, m.g[k].outputs[0], 0);
    if p.Some? then EnterAll(shapes, m.g[p.value].outputs, dims) else shapes
  }

  // ----- what a resolved shape is -----

  /**
   The name of the input that holds the scales: the second one of an Upsample or a two-input Resize, else the third.
   */
  ghost predicate ScalesAt(node: Node, name: string)
  {
    name != "" && if node.op.Upsample? || |node.inputs| == 2 then 2 <= |node.inputs| && node.inputs[1] == name
                  else 3 <= |node.inputs| && node.inputs[2] == name
  }

  /** The sizes of a Resize, if they are constants of the right number. */
  ghost predicate SizesAt(m: Model, node: Node, rank: nat)
  {
    node.op.Resize? && 4 <= |node.inputs| && node.inputs[3] != ""
    && node.inputs[3] in m.initializers && |m.initializers[node.inputs[3]]| == rank
  }

  /** Shape `r` of an Upsample or Resize output, from the shape `dims` of its input. */
  ghost predicate OutputShape(m: Model, start: State, node: Node, dims: Dims, r: Dims)
  {
    var rank := |dims|;
    if node.op.Upsample? && |node.inputs| == 1 && node.op.scales != [] then
      if |node.op.scales| == rank then ScaledBy(r, dims, node.op.scales) else r == []
    else if SizesAt(m, node, rank) then
      |r| == rank && forall d | 0 <= d < rank :: TruncatedTo(m.initializers[node.inputs[3]][d], r[d])
    else if name: string :| ScalesAt(node, name) then
      if name in m.initializers && |m.initializers[name]| == rank then ScaledBy(r, dims, m.initializers[name])
      else
        var v := RefValue(m, start, |m.g|, name);
        if v.Some? && |v.value| == rank then ScaledBy(r, dims, v.value) else r == []
    else r == []
  }

  lemma ScaledDimsAre(m: Model, start: State, node: Node, dims: Dims)
    requires Scaling(node) && dims != []
    ensures OutputShape(m, start, node, dims, ScaledDims(m, node, dims, RefValue(m, start, |m.g|, ScalesName(node))))
  {
    hide RefValue, ScaledBy, Scaled, TruncatedTo, Trunc;
    var rank := |dims|;
    forall scales: Values | |scales| == rank
      ensures ScaledBy(Scaled(dims, scales), dims, scales)
    {
      ScaledIsScaledBy(dims, scales);
    }
    forall x
      ensures TruncatedTo(x, Trunc(x))
    {
      TruncIsTruncated(x);
    }
    assert ScalesName(node) != "" ==> ScalesAt(node, ScalesName(node));
  }

  /** The shape that resolution finds for an Upsample or Resize output, without reference to how it computes it. */
  lemma ResolvedShape(m: Model, start: State, k: nat)
    requires WellFormed(m, start) && k < |m.g| && Scaling(m.g[k]) && m.g[k].outputs != []
    requires Dynamic(m, start.shapes, m.g[k].outputs[0])
    ensures var dims := RefDims(m, start, |m.g|, FirstInput(m.g[k]));
            var r := RefResolved(m, start, |m.g|, m.g[k].outputs[0]);
            if dims == [] then r == [] else OutputShape(m, start, m.g[k], dims, r)
  {
    RefResolvedUnfolds(m, start, k);
    hide RefValue, RefDims, RefResolved, OutputShape;
    var node := m.g[k];
    var dims := RefDims(m, start, |m.g|, FirstInput(node));
    if dims != [] {
      ScaledDimsAre(m, start, node, dims);
    }
  }

  /** Such a shape is what the table then holds. */
  lemma EntriesAreShapes(m: Model, start: State, s: State)
    requires WellFormed(m, start) && Sound(m, start, s)
    ensures forall k | 0 <= k < |m.g| && ResolvedHere(m, start, s.shapes, k) ::
              OutputShape(m, start, m.g[k], RefDims(m, start, |m.g|, FirstInput(m.g[k])), s.shapes[m.g[k].outputs[0]])
  {
    hide OutputShape, RefDims, RefResolved, WellFormed;
    forall k | 0 <= k < |m.g| && ResolvedHere(m, start, s.shapes, k)
      ensures OutputShape(m, start, m.g[k], RefDims(m, start, |m.g|, FirstInput(m.g[k])),
                          s.shapes[m.g[k].outputs[0]])
    {
      ResolvedShape(m, start, k);
      assert ShapeSound(m, start, m.g[k].outputs[0], s.shapes[m.g[k].outputs[0]]);
    }
  }

  // ----- shapes handed on -----

  /**
   Whenever the shape of an Upsample or Resize output has been resolved, the first Cast behind it has its shape too.
   */
  ghost predicate Handed(m: Model, start: State, shapes: map<string, Dims>)
  {
    forall k, name | 0 <= k < |m.g| && ResolvedHere(m, start, shapes, k) && BehindIt(m, k, name) :: name in shapes
  }

  ghost predicate ResolvedHere(m: Model, start: State, shapes: map<string, Dims>, k: nat)
    requires k < |m.g|
  {
    && Scaling(m.g[k]) && m.g[k].outputs != [] && Dynamic(m, start.shapes, m.g[k].outputs[0])
    && m.g[k].outputs[0] in shapes
  }

  /** An output of the first Cast behind node `k`. */
  ghost predicate BehindIt(m: Model, k: nat, name: string)
    requires k < |m.g|
  {
    && m.g[k].outputs != []
    && var p := FirstCast(m.g, m.g[k].outputs[0], 0); p.Some? && name in m.g[p.value].outputs
  }

  lemma NothingHandedYet(m: Model, start: State)
    ensures Handed(m, start, start.shapes)
  {
  }

  /** Resolving one more shape and handing it on keeps this. */
  lemma HandedKept(m: Model, start: State, shapes: map<string, Dims>, k: nat, dims: Dims)
    requires WellFormed(m, start) && Handed(m, start, shapes) && k < |m.g| && Scaling(m.g[k]) && m.g[k].outputs != []
    ensures Handed(m, start, HandedOn(m, shapes[m.g[k].outputs[0] := dims], k, dims))
  {
    var after := HandedOn(m, shapes[m.g[k].outputs[0] := dims], k, dims);
    forall j, name | 0 <= j < |m.g| && ResolvedHere(m, start, after, j) && BehindIt(m, j, name)
      ensures name in after
    {
      if j != k {
        OnlyItsOwn(m, shapes, k, dims, j);
        assert ResolvedHere(m, start, shapes, j);
      }
    }
  }

  /** The output of another Upsample or Resize node gets no shape on this occasion. */
  lemma OnlyItsOwn(m: Model, shapes: map<string, Dims>, k: nat, dims: Dims, j: nat)
    requires NamesOk(m.g) && k < |m.g| && j < |m.g| && j != k
    requires Scaling(m.g[k]) && m.g[k].outputs != [] && Scaling(m.g[j]) && m.g[j].outputs != []
    ensures m.g[j].outputs[0] in HandedOn(m, shapes[m.g[k].outputs[0] := dims], k, dims)
            ==> m.g[j].outputs[0] in shapes
  {
    var name := m.g[j].outputs[0];
    assert name in m.g[j].outputs && m.g[k].outputs[0] in m.g[k].outputs;
    var p := FirstCast(m.g, m.g[k].outputs[0], 0);
    assert p.Some? ==> name !in m.g[p.value].outputs;
  }

  // ----- when nothing is left to do -----

  /**
   A node that does not prefer the CPU is evaluated only when all its named inputs are known. It loses nothing by that
   if it takes as many inputs as its operator uses. Upsample and Resize nodes must not prefer the CPU, or they are
   passed over.
   */
  ghost predicate UsesAllInputs(m: Model, start: State, k: nat)
    requires k < |m.g|
  {
    var node := m.g[k];
    if Scaling(node) then !node.cpuPreferred
    else
      node.cpuPreferred ||
      match node.op
      case Gather => |node.inputs| == 2
      case Mul => |node.inputs| == 2
      case Div => |node.inputs| == 2
      case Cast => |node.inputs| == 1
      case Slice(_, _) =>
        && |node.inputs| != 2
        && forall i | 3 <= i < |node.inputs| && node.inputs[i] != "" :: node.inputs[i] in start.values
      case Concat => node.inputs != []
      case _ => true
  }

  lemma EvaluatedWhenKnown(m: Model, start: State, s: State, k: nat)
    requires WellFormed(m, start) && Sound(m, start, s) && k < |m.g| && UsesAllInputs(m, start, k)
    requires m.g[k].outputs != [] && m.g[k].outputs[0] !in s.values && EvalNow(m, s, k).Some?
    ensures ShouldEvaluate(m.g[k], s.values)
  {
    hide ConcatValues, GatherValues, SliceValues, MulValues, DivValues, AsValues, StaticDims, NamesOk, ValueSound;
    hide ShapeSound;
    var node := m.g[k];
    assert Unambiguous(node);
    if !node.cpuPreferred && !node.op.Shape? {
      forall i | 0 <= i < |node.inputs| && node.inputs[i] != ""
        ensures node.inputs[i] in s.values
      {
        assert Args(node, s.values)[i] == Find(s.values, node.inputs[i]);
      }
    }
  }

  /** The position of the producer of a value, counted from one. */
  function Height(g: Graph, name: string): nat
  {
    if name != "" && Producer(g, |g|, name).Some? then Producer(g, |g|, name).value + 1 else 0
  }

  lemma InputIsLower(g: Graph, k: nat, name: string)
    requires NamesOk(g) && k < |g| && (name in g[k].inputs || name == "")
    ensures Height(g, name) <= k
  {
    hide Producer;
  }

  /** The tables of a resolver that has nothing left to do. */
  ghost predicate Finished(m: Model, start: State, s: State)
  {
    && WellFormed(m, start) && Sound(m, start, s) && Handed(m, start, s.shapes)
    && (forall k | 0 <= k < |m.g| :: Settled(m, s, k) && UsesAllInputs(m, start, k))
  }

  /** Every value that recursive evaluation computes is in the table. */
  lemma {:induction false} ValuesAreComplete(m: Model, start: State, s: State, name: string)
    requires Finished(m, start, s)
    ensures Find(s.values, name) == RefValue(m, start, |m.g|, name)
    decreases Height(m.g, name), 1
  {
    hide Eval, RefDims, RefResolved, Settled, UsesAllInputs, Handed, StaticDims, Producer, NodesOk;
    if name in s.values {
      assert ValueSound(m, start, name, s.values[name]);
    } else if name == "" {
      NothingIsUnnamed(m, start, |m.g|);
    } else if RefValue(m, start, |m.g|, name).Some? {
      var k := Producer(m.g, |m.g|, name).value;
      RefValueUnfolds(m, start, k);
      forall i | 0 <= i < |m.g[k].inputs|
        ensures RefArgs(m, start, k)[i] == Args(m.g[k], s.values)[i]
      {
        InputIsLower(m.g, k, m.g[k].inputs[i]);
        ValuesAreComplete(m, start, s, m.g[k].inputs[i]);
        InputStable(m, start, k, m.g[k].inputs[i]);
      }
      assert RefArgs(m, start, k) == Args(m.g[k], s.values);
      FirstInputIn(m.g[k]);
      InputIsLower(m.g, k, FirstInput(m.g[k]));
      InputStable(m, start, k, FirstInput(m.g[k]));
      ShapesAreComplete(m, start, s, FirstInput(m.g[k]));
      NotLeftOut(m, start, s, k);
    }
  }

  /** A value that could be computed now is not left out. */
  lemma NotLeftOut(m: Model, start: State, s: State, k: nat)
    requires Finished(m, start, s) && k < |m.g| && m.g[k].outputs != [] && EvalNow(m, s, k).Some?
    ensures m.g[k].outputs[0] in s.values
  {
    hide EvalNow, ShouldEvaluate, WellFormed, Sound, Handed, UsesAllInputs, ScaledNow;
    assert Settled(m, s, k) && UsesAllInputs(m, start, k);
    if m.g[k].outputs[0] !in s.values {
      EvaluatedWhenKnown(m, start, s, k);
    }
  }

  /** Every shape that recursive resolution finds is known from the tables. */
  lemma {:induction false} ShapesAreComplete(m: Model, start: State, s: State, name: string)
    requires Finished(m, start, s)
    ensures StaticDims(m, s.shapes, name) == RefDims(m, start, |m.g|, name)
    decreases Height(m.g, name), 0
  {
    hide Eval, RefValue, Settled, UsesAllInputs, ScaledDims, Producer, NodesOk, MetaStatic, Handed;
    if StaticDims(m, s.shapes, name) != [] {
      StaticIsReference(m, start, s, name);
    } else if !MetaStatic(m, name) && RefResolved(m, start, |m.g|, name) != [] {
      ResolvedIsKnown(m, start, s, name);
    }
  }

  lemma {:induction false} ResolvedIsKnown(m: Model, start: State, s: State, name: string)
    requires Finished(m, start, s) && RefResolved(m, start, |m.g|, name) != []
    ensures name in s.shapes
    decreases Height(m.g, name), 0, 1
  {
    NothingIsUnnamed(m, start, |m.g|);
    var k := Producer(m.g, |m.g|, name).value;
    hide RefValue, RefDims, ScaledDims, Eval, EvalNow, ScaledNow, UsesAllInputs, Handed, Producer, NodesOk, Dynamic;
    hide Sound;
    if Scaling(m.g[k]) {
      ScaledIsKnown(m, start, s, k);
    } else {
      var u := FirstInput(m.g[k]);
      FirstInputIn(m.g[k]);
      InputIsLower(m.g, k, u);
      InputStable(m, start, k, u);
      ResolvedIsKnown(m, start, s, u);
      HandedIsKnown(m, start, s, k, u, name);
    }
  }

  lemma {:induction false} ScaledIsKnown(m: Model, start: State, s: State, k: nat)
    requires Finished(m, start, s) && k < |m.g| && Scaling(m.g[k]) && m.g[k].outputs != []
    requires Height(m.g, m.g[k].outputs[0]) == k + 1
    requires Dynamic(m, start.shapes, m.g[k].outputs[0]) && RefResolved(m, start, |m.g|, m.g[k].outputs[0]) != []
    ensures m.g[k].outputs[0] in s.shapes
    decreases k + 1, 0, 0
  {
    hide RefValue, RefDims, RefResolved, ScaledDims, Eval, EvalNow, StaticDims, Producer, NodesOk, Handed, Sound;
    hide Settled, UsesAllInputs, NamesOk, Height, FirstInput, ScalesName, Dynamic;
    var node := m.g[k];
    RefResolvedUnfolds(m, start, k);
    FirstInputIn(node);
    ScalesNameIn(node);
    InputIsLower(m.g, k, FirstInput(node));
    InputIsLower(m.g, k, ScalesName(node));
    ShapesAreComplete(m, start, s, FirstInput(node));
    ValuesAreComplete(m, start, s, ScalesName(node));
    assert ScaledNow(m, s, k) == RefResolved(m, start, |m.g|, node.outputs[0]);
    SettledScaling(m, start, s, k);
  }

  /** An Upsample or Resize node with nothing left to do has its shape, if that can be known now. */
  lemma SettledScaling(m: Model, start: State, s: State, k: nat)
    requires k < |m.g| && Settled(m, s, k) && UsesAllInputs(m, start, k) && Scaling(m.g[k]) && m.g[k].outputs != []
    requires Dynamic(m, start.shapes, m.g[k].outputs[0]) && ScaledNow(m, s, k) != []
    ensures m.g[k].outputs[0] in s.shapes
  {
    hide ScaledNow, EvalNow, MetaDynamic;
  }

  lemma RefResolvedUnfolds(m: Model, start: State, k: nat)
    requires NamesOk(m.g) && "" !in start.values && k < |m.g| && Scaling(m.g[k]) && m.g[k].outputs != []
    requires Dynamic(m, start.shapes, m.g[k].outputs[0])
    ensures var node := m.g[k];
            RefResolved(m, start, |m.g|, node.outputs[0])
            == ScaledDims(m, node, RefDims(m, start, |m.g|, FirstInput(node)),
                          RefValue(m, start, |m.g|, ScalesName(node)))
  {
    var node := m.g[k];
    ProducerIs(m.g, k, node.outputs[0], |m.g|);
    FirstInputIn(node);
    ScalesNameIn(node);
    InputStable(m, start, k, FirstInput(node));
    InputStable(m, start, k, ScalesName(node));
    hide RefValue, RefDims, ScaledDims;
  }

  lemma HandedIsKnown(m: Model, start: State, s: State, k: nat, u: string, name: string)
    requires Handed(m, start, s.shapes) && k < |m.g| && HandsOn(m, start, k) && u == FirstInput(m.g[k])
    requires u in s.shapes && name in m.g[k].outputs
    ensures name in s.shapes
  {
    hide Dynamic;
    var q := Producer(m.g, k, u).value;
    assert ResolvedHere(m, start, s.shapes, q) && BehindIt(m, q, name);
  }

  /** With nothing left to do the tables say exactly what recursive evaluation says. */
  lemma TablesAreComplete(m: Model, start: State, s: State)
    requires WellFormed(m, start) && Sound(m, start, s) && Handed(m, start, s.shapes)
    requires forall k | 0 <= k < |m.g| :: Settled(m, s, k)
    ensures (forall k | 0 <= k < |m.g| :: UsesAllInputs(m, start, k)) ==>
              forall name :: Find(s.values, name) == RefValue(m, start, |m.g|, name)
                             && StaticDims(m, s.shapes, name) == RefDims(m, start, |m.g|, name)
  {
    hide WellFormed, Sound, Handed, Settled, UsesAllInputs;
    if forall k | 0 <= k < |m.g| :: UsesAllInputs(m, start, k) {
      forall name
        ensures Find(s.values, name) == RefValue(m, start, |m.g|, name)
        ensures StaticDims(m, s.shapes, name) == RefDims(m, start, |m.g|, name)
      {
        ValuesAreComplete(m, start, s, name);
        ShapesAreComplete(m, start, s, name);
      }
    }
  }

  /** A scaling node that prefers the CPU is taken for a computation without a rule, whatever is known of its input. */
  lemma PreferredIsSettled(m: Model, s: State, k: nat)
    requires k < |m.g| && Scaling(m.g[k]) && m.g[k].cpuPreferred
    requires m.g[k].outputs != [] && m.g[k].outputs[0] !in s.values
    ensures Settled(m, s, k)
  {
  }

  function PreferredUpsample(): Model
  {
    Model([Node(Upsample([2.0]), ["x"], ["y"], true)], map["x" := [4]], map[])
  }

  /** So the tables can be final and yet lack a shape that recursive evaluation gives. */
  lemma PreferredStaysUnresolved()
    ensures var m, s := PreferredUpsample(), State(map[], map[]);
            && WellFormed(m, s) && Sound(m, s, s) && Handed(m, s, s.shapes)
            && (forall k | 0 <= k < |m.g| :: Settled(m, s, k))
            && StaticDims(m, s.shapes, "y") == [] && RefDims(m, s, |m.g|, "y") == [8]
  {
    var m, s := PreferredUpsample(), State(map[], map[]);
    PreferredIsSettled(m, s, 0);
    PreferredScales();
    assert MetaStatic(m, "x") && Producer(m.g, 1, "y") == Some(0) && Dynamic(m, s.shapes, "y");
    assert RefDims(m, s, 0, "x") == [4];
    assert RefResolved(m, s, 1, "y") == [8];
  }

  lemma PreferredScales()
    ensures ScaledDims(PreferredUpsample(), PreferredUpsample().g[0], [4], None) == [8]
  {
    ScaledIsScaledBy([4], [2.0]);
    assert ScaledEntry(4, 2.0, Scaled([4], [2.0])[0]);
  }

  // ----- the resolver -----

  class ShapeResolver {
    const m: Model
    ghost const start: State
    var values: map<string, Values>
    var shapes: map<string, Dims>

    ghost function Tables(): State
      reads this
    {
      State(values, shapes)
    }

    ghost predicate Valid()
      reads this
    {
      WellFormed(m, start) && Sound(m, start, Tables()) && Handed(m, start, shapes)
    }

    constructor (m: Model, s: State)
      requires WellFormed(m, s)
      ensures Valid() && this.m == m && start == s && Tables() == s
    {
      this.m, start, values, shapes := m, s, s.values, s.shapes;
      new;
      InitialTablesSound(m, s);
      NothingHandedYet(m, s);
    }

    /** Writes the value of an output that has none yet. */
    method WriteValue(k: nat, v: Values)
      requires Valid() && k < |m.g| && m.g[k].outputs != [] && m.g[k].outputs[0] !in values
      requires ValueSound(m, start, m.g[k].outputs[0], v)
      modifies this`values
      ensures Valid() && values == old(values)[m.g[k].outputs[0] := v]
      ensures Stepped(m, old(Tables()), Tables(), true)
    {
      hide WellFormed, ValueSound, ShapeSound, Measure;
      var name := m.g[k].outputs[0];
      values := values[name := v];
      OutputNamed(m.g, k, name);
      MeasureShrinks(m, old(Tables()), Tables());
    }

    /** Evaluates node `k` from the tables and stores the result, if there is one. */
    method EvaluateNode(k: nat) returns (changed: bool)
      requires Valid() && k < |m.g| && m.g[k].outputs != [] && m.g[k].outputs[0] !in values
      modifies this`values
      ensures Valid() && Stepped(m, old(Tables()), Tables(), changed)
      ensures changed <==> EvalNow(m, old(Tables()), k).Some?
      ensures changed ==> values == old(values)[m.g[k].outputs[0] := EvalNow(m, old(Tables()), k).value]
    {
      hide WellFormed, Sound, ValueSound, Measure, Eval, StaticDims;
      var result := Eval(m.g[k], Args(m.g[k], values), StaticDims(m, shapes, FirstInput(m.g[k])));
      changed := result.Some?;
      if changed {
        EvaluationIsSound(m, start, Tables(), k);
        WriteValue(k, result.value);
      }
    }

    method FindProducer(name: string) returns (p: Option<nat>)
      requires Valid() && name != ""
      ensures p == Producer(m.g, |m.g|, name)
    {
      hide Sound, NodesOk;
      for k := 0 to |m.g|
        invariant forall j | 0 <= j < k :: name !in m.g[j].outputs
      {
        if name in m.g[k].outputs {
          ProducerIs(m.g, k, name, |m.g|);
          return Some(k);
        }
      }
      p := None;
    }

    /** Follows first inputs back from the scales, at most five nodes, as long as the names are unresolved. */
    method CollectBackward(k: nat) returns (stack: seq<nat>)
      requires Valid() && k < |m.g| && ScalesName(m.g[k]) != ""
      ensures stack == BackwardChain(m, values, ScalesName(m.g[k]), 5) && |stack| <= 5
      ensures FollowsBack(m, values, ScalesName(m.g[k]), 5, stack) && Pending(m, values, stack, k)
    {
      stack := FollowBack(ScalesName(m.g[k]));
      ChainFollowsBack(m, values, ScalesName(m.g[k]), 5);
      ScalesNameIn(m.g[k]);
      ChainIsPending(m, values, k, ScalesName(m.g[k]), 5);
      hide *;
    }

    method FollowBack(name: string) returns (stack: seq<nat>)
      requires Valid()
      ensures stack == BackwardChain(m, values, name, 5)
    {
      hide *;
      stack := [];
      var cur := name;
      var hop: nat := 0;
      while hop < 5 && cur != "" && cur !in values
        invariant hop <= 5 && stack + BackwardChain(m, values, cur, 5 - hop) == BackwardChain(m, values, name, 5)
      {
        var p := FindProducer(cur);
        if p == None {
          break;
        }
        ChainStep(m, values, cur, 5 - hop, stack);
        stack, cur, hop := stack + [p.value], FirstInput(m.g[p.value]), hop + 1;
      }
      ChainUnfolds(m, values, cur, 5 - hop);
    }

    /** Evaluates what was collected, the earliest node first. */
    method BackwardWalk(k: nat) returns (changed: bool)
      requires Valid() && k < |m.g| && ScalesName(m.g[k]) != ""
      modifies this`values
      ensures Valid() && Stepped(m, old(Tables()), Tables(), changed)
      ensures AllWalked(m, Tables(), BackwardChain(m, old(values), ScalesName(m.g[k]), 5), 0)
    {
      hide Stepped, Pending, AllWalked, BackwardChain, FollowsBack, WellFormed, Sound, Handed, Grows, ScalesName;
      hide Walked, NamesOk, StaticDims;
      var stack := CollectBackward(k);
      changed := false;
      NothingStepped(m, Tables());
      NoneWalked(m, Tables(), stack);
      var i := |stack|;
      assert stack[..i] == stack;
      while 0 < i
        invariant 0 <= i <= |stack| && Valid() && shapes == old(shapes)
        invariant Stepped(m, old(Tables()), Tables(), changed)
        invariant Pending(m, values, stack[..i], k) && Pending(m, old(values), stack, k)
        invariant AllWalked(m, Tables(), stack, i)
      {
        i := i - 1;
        PendingTop(m, values, stack, i, k);
        ghost var before, known := Tables(), values;
        var wrote := EvaluatePending(stack[i]);
        SteppedTwice(m, old(Tables()), before, Tables(), changed, wrote);
        changed := changed || wrote;
        NamesAreOk();
        OneMoreWalked(m, old(values), before, Tables(), stack, i, k);
        PendingRest(m, known, values, stack, i, k);
      }
    }

    lemma NamesAreOk()
      requires Valid()
      ensures NamesOk(m.g)
    {
    }

    /** The walk evaluates Cast, Concat and Div only. */
    method EvaluatePending(p: nat) returns (changed: bool)
      requires Valid() && p < |m.g| && m.g[p].outputs != []
      requires |m.g[p].outputs| == 1 ==> m.g[p].outputs[0] !in values
      modifies this`values
      ensures Valid() && Stepped(m, old(Tables()), Tables(), changed)
      ensures forall name | name in values :: name in old(values) || (name == m.g[p].outputs[0] && name != "")
      ensures Walked(m, Tables(), p) && Grows(old(Tables()), Tables())
    {
      changed := false;
      if m.g[p].op.Cast? || m.g[p].op.Concat? || m.g[p].op.Div? {
        changed := EvaluateNode(p);
      } else {
        NothingStepped(m, Tables());
      }
    }

    // --- Upsample and Resize ---

    method FindFirstCast(name: string) returns (p: Option<nat>)
      ensures p == FirstCast(m.g, name, 0)
    {
      var k := 0;
      while k < |m.g|
        invariant 0 <= k <= |m.g| && FirstCast(m.g, name, 0) == FirstCast(m.g, name, k)
      {
        if m.g[k].op.Cast? && m.g[k].inputs != [] && m.g[k].inputs[0] == name {
          return Some(k);
        }
        k := k + 1;
      }
      p := None;
    }

    /** Gives the first Cast behind the output of node `k` the same shape. */
    method HandOn(k: nat, dims: Dims)
      requires WellFormed(m, start) && Sound(m, start, Tables()) && k < |m.g| && Scaling(m.g[k]) && m.g[k].outputs != []
      requires Dynamic(m, start.shapes, m.g[k].outputs[0])
      requires dims != [] && dims == RefResolved(m, start, |m.g|, m.g[k].outputs[0])
      modifies this`shapes
      ensures Sound(m, start, Tables()) && Grows(old(Tables()), Tables())
      ensures shapes == HandedOn(m, old(shapes), k, dims)
    {
      hide RefResolved, RefValue, WellFormed, Dynamic, EnterAll, FirstCast;
      assert EnterAll(shapes, [], dims) == shapes by {
        EnterNone(shapes, dims);
      }
      var p := FindFirstCast(m.g[k].outputs[0]);
      if p.Some? {
        var outputs := m.g[p.value].outputs;
        for i := 0 to |outputs|
          invariant Sound(m, start, Tables()) && Grows(old(Tables()), Tables())
          invariant shapes == EnterAll(old(shapes), outputs[..i], dims)
        {
          HandedOnIsSound(m, start, k, p.value, outputs[i]);
          shapes := shapes[outputs[i] := dims];
          assert outputs[..i + 1] == outputs[..i] + [outputs[i]];
          EnterOne(old(shapes), outputs[..i], outputs[i], dims);
        }
        assert outputs[..|outputs|] == outputs;
      }
    }

    /** Stores the output shape and hands it on to the first Cast behind it. */
    method SetResolvedDims(k: nat, dims: Dims)
      requires Valid() && k < |m.g| && Scaling(m.g[k]) && m.g[k].outputs != []
      requires Dynamic(m, shapes, m.g[k].outputs[0]) && dims != [] && dims == ScaledNow(m, Tables(), k)
      modifies this`shapes
      ensures Valid() && Stepped(m, old(Tables()), Tables(), true)
      ensures shapes == HandedOn(m, old(shapes)[m.g[k].outputs[0] := dims], k, dims) && values == old(values)
    {
      ghost var before := Tables();
      var name := m.g[k].outputs[0];
      hide RefResolved, ScaledNow, Measure, WellFormed, Dynamic, Sound, HandedOn, Handed;
      ShapeWritten(m, start, before, k, dims);
      HandedKept(m, start, before.shapes, k, dims);
      shapes := shapes[name := dims];
      HandOn(k, dims);
      ScaledProgress(m, before, Tables(), k);
    }

    /** Finds the scales or sizes of node `k`, walking backward if it must, and the output shape if they are known. */
    method ResolveScaling(k: nat) returns (changed: bool)
      requires Valid() && k < |m.g| && Scaling(m.g[k]) && m.g[k].outputs != []
      requires Dynamic(m, shapes, m.g[k].outputs[0])
      modifies this
      ensures Valid() && Stepped(m, old(Tables()), Tables(), changed)
      ensures !changed ==> ScaledNow(m, Tables(), k) == []
    {
      hide Sound, Stepped, Measure, WellFormed, Truncated, Scaled, Initializer, StaticDims, MetaDynamic;
      ghost var before := Tables();
      var node := m.g[k];
      changed := false;
      NothingStepped(m, before);
      var dims := StaticDims(m, shapes, FirstInput(node));
      if dims == [] {
        return;
      }
      var rank := |dims|;
      var scales := AttributeScales(node);
      var result: Dims := [];
      var index := ScalesIndex(node);
      if scales == [] {
        if node.op.Resize? && 4 <= |node.inputs| && node.inputs[3] != "" {
          var sizes := Initializer(m, node.inputs[3], rank);
          result := Truncated(sizes);
        }
        if result == [] && index < |node.inputs| && node.inputs[index] != "" {
          scales := Initializer(m, node.inputs[index], rank);
          if scales == [] && node.inputs[index] in values && |values[node.inputs[index]]| == rank {
            scales := values[node.inputs[index]];
          }
        }
      }
      if scales == [] && result == [] && index < |node.inputs| && node.inputs[index] != "" {
        changed := BackwardWalk(k);
        if node.inputs[index] in values && |values[node.inputs[index]]| == rank {
          scales := values[node.inputs[index]];
        }
      }
      // A Resize would look its third input up once more here. That is the scales input, so nothing new is found.
      if result == [] && scales != [] && |scales| == rank {
        result := Scaled(dims, scales);
      }
      assert result == ScaledNow(m, Tables(), k);
      if result != [] {
        ghost var mid := Tables();
        SetResolvedDims(k, result);
        SteppedTwice(m, before, mid, Tables(), changed, true);
        changed := true;
      }
    }

    method VisitNode(k: nat) returns (changed: bool)
      requires Valid() && k < |m.g|
      modifies this
      ensures Valid() && Stepped(m, old(Tables()), Tables(), changed)
      ensures !changed ==> Settled(m, Tables(), k)
    {
      hide Sound, Measure, Grows, WellFormed, Dynamic, ScaledNow, EvalNow;
      var node := m.g[k];
      NothingStepped(m, Tables());
      if node.outputs == [] {
        return false;
      }
      if ShouldEvaluate(node, values) {
        changed := EvaluateNode(k);
        return;
      }
      if !Dynamic(m, shapes, node.outputs[0]) {
        return false;
      }
      if !Scaling(node) {
        return false;
      }
      changed := ResolveScaling(k);
    }

    method Pass() returns (changed: bool)
      requires Valid()
      modifies this
      ensures Valid() && Stepped(m, old(Tables()), Tables(), changed)
      ensures !changed ==> forall k | 0 <= k < |m.g| :: Settled(m, Tables(), k)
    {
      hide WellFormed, Sound, Settled, Measure;
      changed := false;
      for k := 0 to |m.g|
        invariant Valid() && Stepped(m, old(Tables()), Tables(), changed)
        invariant !changed ==> forall j | 0 <= j < k :: Settled(m, Tables(), j)
      {
        ghost var before := Tables();
        var c := VisitNode(k);
        SteppedTwice(m, old(Tables()), before, Tables(), changed, c);
        changed := changed || c;
      }
    }

    /**
     Repeats passes until one changes nothing. No value is ever overwritten, every entry agrees with the reference, no
     node is left unsettled, and there are at most as many changing passes as there were things to resolve.
     */
    method Resolve() returns (passes: nat)
      requires Valid()
      modifies this
      ensures Valid() && Grows(old(Tables()), Tables())
      ensures forall k | 0 <= k < |m.g| :: Settled(m, Tables(), k)
      ensures passes <= Measure(m, old(Tables())) + 1
      // What has been resolved is what the scales or sizes of the node make of its input's shape.
      ensures forall k | 0 <= k < |m.g| && ResolvedHere(m, start, shapes, k) ::
                OutputShape(m, start, m.g[k], RefDims(m, start, |m.g|, FirstInput(m.g[k])), shapes[m.g[k].outputs[0]])
      // The tables are then those of the recursive evaluation, if no node waits for an input that it does not use.
      ensures (forall k | 0 <= k < |m.g| :: UsesAllInputs(m, start, k)) ==>
                forall name :: Find(values, name) == RefValue(m, start, |m.g|, name)
                               && StaticDims(m, shapes, name) == RefDims(m, start, |m.g|, name)
    {
      hide WellFormed, Sound, Settled, Measure;
      passes := 0;
      var changed := true;
      while changed
        invariant Valid() && Grows(old(Tables()), Tables())
        invariant !changed ==> forall k | 0 <= k < |m.g| :: Settled(m, Tables(), k)
        invariant passes + Measure(m, Tables()) <= Measure(m, old(Tables())) + (if changed then 0 else 1)
        decreases Measure(m, Tables()), changed
      {
        changed := Pass();
        passes := passes + 1;
      }
      TablesAreComplete(m, start, Tables());
      EntriesAreShapes(m, start, Tables());
    }
  }

  /** The walk has had its turn at the nodes of the chain from position `i` on. */
  ghost predicate AllWalked(m: Model, s: State, chain: seq<nat>, i: nat)
  {
    forall j | i <= j < |chain| :: chain[j] < |m.g| && m.g[chain[j]].outputs != [] && Walked(m, s, chain[j])
  }

  lemma NoneWalked(m: Model, s: State, chain: seq<nat>)
    ensures AllWalked(m, s, chain, |chain|)
  {
  }

  lemma OneMoreWalked(
      m: Model, values: map<string, Values>, s: State, d: State, chain: seq<nat>, i: nat, k: nat)
    requires NamesOk(m.g) && i < |chain| && Pending(m, values, chain, k) && AllWalked(m, s, chain, i + 1)
    requires d.shapes == s.shapes && Grows(s, d) && chain[i] < |m.g| && m.g[chain[i]].outputs != []
    requires forall name | name in d.values :: name in s.values || (name == m.g[chain[i]].outputs[0] && name != "")
    requires Walked(m, d, chain[i])
    ensures AllWalked(m, d, chain, i)
  {
    hide Walked, NamesOk, Grows;
    forall j | i < j < |chain|
      ensures Walked(m, d, chain[j])
    {
      StillWalked(m, s, d, chain[j], chain[i]);
    }
  }

  /** Entering a resolved shape keeps the tables sound. */
  lemma ShapeWritten(m: Model, start: State, s: State, k: nat, dims: Dims)
    requires WellFormed(m, start) && Sound(m, start, s) && k < |m.g| && Scaling(m.g[k]) && m.g[k].outputs != []
    requires Dynamic(m, s.shapes, m.g[k].outputs[0]) && dims != [] && dims == ScaledNow(m, s, k)
    ensures var d := s.(shapes := s.shapes[m.g[k].outputs[0] := dims]);
            Sound(m, start, d) && Grows(s, d)
    ensures Dynamic(m, start.shapes, m.g[k].outputs[0])
    ensures dims == RefResolved(m, start, |m.g|, m.g[k].outputs[0])
  {
    ScaledIsSound(m, start, s, k);
    hide RefResolved, RefValue, ScaledDims, WellFormed, MetaDynamic, StaticDims, Sound;
    ShapeInserted(m, start, s, m.g[k].outputs[0], dims);
  }

  lemma ShapeInserted(m: Model, start: State, s: State, name: string, dims: Dims)
    requires Sound(m, start, s) && ShapeSound(m, start, name, dims)
    ensures Sound(m, start, s.(shapes := s.shapes[name := dims])) && Grows(s, s.(shapes := s.shapes[name := dims]))
  {
    hide ShapeSound, ValueSound;
  }

  lemma ScaledProgress(m: Model, s: State, d: State, k: nat)
    requires k < |m.g| && Scaling(m.g[k]) && m.g[k].outputs != [] && Dynamic(m, s.shapes, m.g[k].outputs[0])
    requires Grows(s, d) && m.g[k].outputs[0] in d.shapes
    ensures Stepped(m, s, d, true)
  {
    hide MetaDynamic, Measure;
    assert k in Unscaled(m, s.shapes) && k !in Unscaled(m, d.shapes);
    MeasureShrinks(m, s, d);
  }

  lemma NothingStepped(m: Model, s: State)
    ensures Stepped(m, s, s, false)
  {
    hide Measure;
  }

  // ----- one graph from end to end -----

  /** The scales of a Resize are computed from the shape of its input: both last axes are to be doubled. */
  function Doubling(): Graph
  {
    [Node(Op.Shape, ["x"], ["s"], false), Node(Slice([2.0], [4.0]), ["s"], ["h"], false),
     Node(Mul, ["h", "t"], ["b"], false), Node(Div, ["b", "h"], ["r"], false),
     Node(Concat, ["o", "r"], ["c"], false), Node(Resize, ["x", "", "c"], ["y"], false),
     Node(Cast, ["y"], ["z"], false)]
  }

  function DoublingModel(): Model
  {
    Model(Doubling(), map["x" := [1, 3, 8, 8]], map[])
  }

  function DoublingStart(): State
  {
    State(map["t" := [2.0], "o" := [1.0, 1.0]], map[])
  }

  /** The names of the outputs, in order. */
  const DOUBLING_NAMES: seq<char> := "shbrcyz"

  lemma DoublingOutputs()
    ensures |Doubling()| == 7
    ensures forall k | 0 <= k < 7 :: Doubling()[k].outputs == [[DOUBLING_NAMES[k]]]
  {
  }

  lemma NamesDiffer()
    ensures |DOUBLING_NAMES| == 7
    ensures forall j, k | 0 <= j < 7 && 0 <= k < 7 && DOUBLING_NAMES[j] == DOUBLING_NAMES[k] :: j == k
    ensures forall j | 0 <= j < 7 :: DOUBLING_NAMES[j] !in {'x', 't', 'o'}
  {
  }

  /** What a node reads is given or comes from an earlier node. */
  lemma DoublingInputs(k: nat, name: string)
    requires k < 7 && |Doubling()| == 7 && |DOUBLING_NAMES| == 7 && name in Doubling()[k].inputs && name != ""
    ensures |name| == 1
    ensures name[0] in {'x', 't', 'o'} || exists j :: 0 <= j < k && name[0] == DOUBLING_NAMES[j]
  {
    var g := Doubling();
    assert g[0].inputs == ["x"] && g[1].inputs == ["s"] && g[2].inputs == ["h", "t"] && g[3].inputs == ["b", "h"];
    assert g[4].inputs == ["o", "r"] && g[5].inputs == ["x", "", "c"] && g[6].inputs == ["y"];
    assert DOUBLING_NAMES[0] == 's' && DOUBLING_NAMES[1] == 'h' && DOUBLING_NAMES[2] == 'b';
    assert DOUBLING_NAMES[3] == 'r' && DOUBLING_NAMES[4] == 'c' && DOUBLING_NAMES[5] == 'y';
  }

  lemma DoublingNamesOk()
    ensures NamesOk(Doubling())
  {
    DoublingOutputs();
    NamesDiffer();
    hide Doubling;
    var g := Doubling();
    forall j, k, name | 0 <= j < 7 && 0 <= k < 7 && name in g[j].outputs && name in g[k].inputs
      ensures j < k
    {
      DoublingInputs(k, name);
    }
    forall j, k, name | 0 <= j < 7 && 0 <= k < 7 && name in g[j].outputs && name in g[k].outputs
      ensures j == k
    {
      assert name == [DOUBLING_NAMES[j]] && name == [DOUBLING_NAMES[k]];
      assert name[0] == DOUBLING_NAMES[j] && name[0] == DOUBLING_NAMES[k];
    }
  }

  lemma DoublingOk()
    ensures WellFormed(DoublingModel(), DoublingStart()) && DoublingModel().g == Doubling() && |Doubling()| == 7
    ensures forall k | 0 <= k < 7 :: UsesAllInputs(DoublingModel(), DoublingStart(), k)
  {
    DoublingNamesOk();
    DoublingNodesOk();
    hide NamesOk, NodesOk, Doubling, UsesAllInputs;
  }

  lemma DoublingNodesOk()
    ensures NodesOk(Doubling()) && |Doubling()| == 7
    ensures forall k | 0 <= k < 7 :: UsesAllInputs(DoublingModel(), DoublingStart(), k)
  {
    var g := Doubling();
    assert g[0].op.Shape? && g[1].op.Slice? && g[2].op.Mul? && g[3].op.Div? && g[4].op.Concat? && g[5].op.Resize?;
  }

  /** The value of a node from those of its inputs. */
  lemma ValueFromInputs(m: Model, start: State, k: nat, args: seq<Option<Values>>)
    requires WellFormed(m, start) && k < |m.g| && |m.g[k].outputs| == 1 && m.g[k].outputs[0] !in start.values
    requires m.g[k].outputs[0] != "" && |args| == |m.g[k].inputs|
    requires forall i | 0 <= i < |args| :: RefValue(m, start, |m.g|, m.g[k].inputs[i]) == args[i]
    ensures RefValue(m, start, |m.g|, m.g[k].outputs[0])
            == Eval(m.g[k], args, RefDims(m, start, |m.g|, FirstInput(m.g[k])))
  {
    hide RefDims, RefResolved, Eval;
    RefValueUnfolds(m, start, k);
    hide RefValue;
    FirstInputIn(m.g[k]);
    InputStable(m, start, k, FirstInput(m.g[k]));
    forall i | 0 <= i < |args|
      ensures RefArgs(m, start, k)[i] == args[i]
    {
      InputStable(m, start, k, m.g[k].inputs[i]);
    }
    assert RefArgs(m, start, k) == args;
  }

  lemma DoublingOperators()
    ensures AsValues([1, 3, 8, 8]) == [1.0, 3.0, 8.0, 8.0]
    ensures SliceValues([1.0, 3.0, 8.0, 8.0], [2.0], [4.0]) == [8.0, 8.0]
    ensures MulValues([8.0, 8.0], [2.0]) == [16.0, 16.0] && DivValues([16.0, 16.0], [8.0, 8.0]) == [2.0, 2.0]
    ensures ConcatValues([Some([1.0, 1.0]), Some([2.0, 2.0])]) == [1.0, 1.0, 2.0, 2.0]
  {
    assert Trunc(2.0) == 2 && Trunc(4.0) == 4;
    assert [1.0, 3.0, 8.0, 8.0][2..4] == [8.0, 8.0];
    ConcatTwo([1.0, 1.0], [2.0, 2.0]);
    assert [1.0, 1.0] + [2.0, 2.0] == [1.0, 1.0, 2.0, 2.0];
  }

  lemma GivenValues()
    ensures var m, start := DoublingModel(), DoublingStart();
            && RefValue(m, start, 7, "t") == Some([2.0]) && RefValue(m, start, 7, "o") == Some([1.0, 1.0])
            && RefDims(m, start, 7, "x") == [1, 3, 8, 8]
    ensures forall k | 0 <= k < 7 ::
              Doubling()[k].outputs[0] !in DoublingStart().values && Doubling()[k].outputs[0] != ""
    ensures forall k | 0 <= k < 7 :: |Doubling()[k].outputs| == 1
  {
    DoublingOutputs();
    NamesDiffer();
  }

  /** Shape, slice, twice that, the ratio, and ones in front of it. */
  lemma DoublingScales()
    ensures RefValue(DoublingModel(), DoublingStart(), 7, "c") == Some([1.0, 1.0, 2.0, 2.0])
  {
    hide RefValue, RefDims, RefResolved, WellFormed, AsValues, SliceValues, MulValues, DivValues, ConcatValues;
    var m, start := DoublingModel(), DoublingStart();
    DoublingOk();
    GivenValues();
    DoublingOperators();
    XHasNoValue();
    ValueFromInputs(m, start, 0, [None]);
    assert RefValue(m, start, 7, "s") == Some([1.0, 3.0, 8.0, 8.0]);
    ValueFromInputs(m, start, 1, [Some([1.0, 3.0, 8.0, 8.0])]);
    assert RefValue(m, start, 7, "h") == Some([8.0, 8.0]);
    ValueFromInputs(m, start, 2, [Some([8.0, 8.0]), Some([2.0])]);
    assert RefValue(m, start, 7, "b") == Some([16.0, 16.0]);
    ValueFromInputs(m, start, 3, [Some([16.0, 16.0]), Some([8.0, 8.0])]);
    assert RefValue(m, start, 7, "r") == Some([2.0, 2.0]);
    ValueFromInputs(m, start, 4, [Some([1.0, 1.0]), Some([2.0, 2.0])]);
  }

  lemma XHasNoValue()
    ensures RefValue(DoublingModel(), DoublingStart(), 7, "x") == None
  {
    DoublingOutputs();
    NamesDiffer();
    forall k | 0 <= k < 7
      ensures "x" !in Doubling()[k].outputs
    {
      assert "x"[0] == 'x';
    }
  }

  lemma WholeScale(dim: int, scale: int, r: int)
    requires ScaledEntry(dim, scale as real, r)
    ensures r == dim * scale
  {
    var x := dim as real * scale as real;
    assert x == (dim * scale) as real;
  }

  lemma ScaledShape(r: Dims)
    requires ScaledBy(r, [1, 3, 8, 8], [1.0, 1.0, 2.0, 2.0])
    ensures r == [1, 3, 16, 16]
  {
    hide ScaledEntry;
    var dims, scales := [1, 3, 8, 8], [1.0, 1.0, 2.0, 2.0];
    assert ScaledEntry(dims[0], scales[0], r[0]) && ScaledEntry(dims[1], scales[1], r[1]);
    assert ScaledEntry(dims[2], scales[2], r[2]) && ScaledEntry(dims[3], scales[3], r[3]);
    WholeScale(1, 1, r[0]);
    WholeScale(3, 1, r[1]);
    WholeScale(8, 2, r[2]);
    WholeScale(8, 2, r[3]);
  }

  /** The Resize output, and the Cast behind it, have the doubled shape. */
  lemma DoublingShape()
    ensures RefDims(DoublingModel(), DoublingStart(), 7, "y") == [1, 3, 16, 16]
    ensures RefDims(DoublingModel(), DoublingStart(), 7, "z") == [1, 3, 16, 16]
  {
    hide RefValue, RefResolved, WellFormed, ScaledBy, UsesAllInputs, FirstCast;
    var m, start := DoublingModel(), DoublingStart();
    DoublingOk();
    GivenValues();
    DoublingScales();
    var node := Doubling()[5];
    assert node.op == Resize && node.inputs == ["x", "", "c"] && node.outputs == ["y"];
    ResolvedShape(m, start, 5);
    assert ScalesAt(node, "c");
    ScaledShape(RefResolved(m, start, 7, "y"));
    CastBehind();
    HandedOnIsSound(m, start, 5, 6, "z");
  }

  lemma CastBehind()
    ensures FirstCast(Doubling(), "y", 0) == Some(6) && Doubling()[6].outputs == ["z"] && Scaling(Doubling()[5])
  {
    var g := Doubling();
    assert FirstCast(g, "y", 6) == Some(6);
    assert FirstCast(g, "y", 5) == FirstCast(g, "y", 6) && FirstCast(g, "y", 4) == FirstCast(g, "y", 5);
    assert FirstCast(g, "y", 3) == FirstCast(g, "y", 4) && FirstCast(g, "y", 2) == FirstCast(g, "y", 3);
    assert FirstCast(g, "y", 1) == FirstCast(g, "y", 2);
  }

  /** The same as a run of the resolver. */
  method ResolveDoubling() returns (y: Dims, z: Dims)
    ensures y == z == [1, 3, 16, 16]
  {
    hide *;
    DoublingReady();
    var resolver := new ShapeResolver(DoublingModel(), DoublingStart());
    var passes := resolver.Resolve();
    DoublingShape();
    ResolvedInTable(resolver.shapes, "y");
    ResolvedInTable(resolver.shapes, "z");
    y, z := resolver.shapes["y"], resolver.shapes["z"];
  }

  lemma DoublingReady()
    ensures WellFormed(DoublingModel(), DoublingStart()) && |DoublingModel().g| == 7
    ensures forall k | 0 <= k < |DoublingModel().g| :: UsesAllInputs(DoublingModel(), DoublingStart(), k)
  {
    DoublingOk();
    hide WellFormed, UsesAllInputs;
  }

  lemma ResolvedInTable(shapes: map<string, Dims>, name: string)
    requires name != "x" && StaticDims(DoublingModel(), shapes, name) != []
    ensures name in shapes && shapes[name] == StaticDims(DoublingModel(), shapes, name)
  {
  }
}
