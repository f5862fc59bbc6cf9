/**
 The worklist that decides which nodes stay on the CPU. Nodes are numbered by their position in topological order, which
 is also the key of the priority queue.
 */
module CpuPlacement {
  import opened Common

  type Value = nat

  /**
   An input. `typed` is false for a missing optional input and for anything without tensor type information; `reduced`
   marks the half and narrower floating-point types; `small` marks small initializers and graph inputs; `cpuInput` says
   that the provider's kernel wants this input in CPU memory.
   */
  datatype Input = Input(value: Option<Value>, typed: bool, reduced: bool, small: bool, cpuInput: bool)

  /** An output; `onCpu` says that the provider's kernel produces it in CPU memory. */
  datatype Output = Output(value: Value, onCpu: bool)

  /**
   `provider` marks the nodes for which the provider has a kernel; the others may fall back to the CPU. `required` lists
   the input positions that the kernel needs as CPU constants.
   */
  datatype Node = Node(inputs: seq<Input>, outputs: seq<Output>, provider: bool, fallsBack: bool, required: seq<nat>)

  type Graph = seq<Node>

  predicate Consumes(node: Node, v: Value)
  {
    exists i :: 0 <= i < |node.inputs| && node.inputs[i].value == Some(v)
  }

  predicate Produces(node: Node, v: Value)
  {
    exists i :: 0 <= i < |node.outputs| && node.outputs[i].value == v
  }

  /** A consumer comes after the producer of what it consumes. */
  ghost predicate Topological(g: Graph)
  {
    forall m, n, v | 0 <= m < |g| && 0 <= n < |g| && Produces(g[m], v) && Consumes(g[n], v) :: m < n
  }

  // ----- the placement equations -----

  /** The value at the r-th required position, if the node has such an input. */
  function RequiredValue(node: Node, r: nat): Option<Value>
    requires r < |node.required|
  {
    if node.required[r] < |node.inputs| then node.inputs[node.required[r]].value else None
  }

  /** First seed pass: outputs that kernels produce in CPU memory, and their consumers. */
  ghost predicate OutputSeeded(g: Graph, m: nat, v: Value)
    requires m < |g|
  {
    g[m].provider && exists x :: 0 <= x < |g[m].outputs| && g[m].outputs[x] == Output(v, true)
  }

  /** Second seed pass: values that kernels require as CPU constants, and their producers. */
  ghost predicate RequiredSeeded(g: Graph, m: nat, v: Value)
    requires m < |g|
  {
    g[m].provider && exists r :: 0 <= r < |g[m].required| && RequiredValue(g[m], r) == Some(v)
  }

  /** Values that are in CPU memory whatever gets placed. */
  ghost predicate SeedValue(g: Graph, v: Value)
  {
    exists m :: 0 <= m < |g| && (OutputSeeded(g, m, v) || RequiredSeeded(g, m, v))
  }

  /** The same from the attributes of the nodes. */
  lemma SeedValueIff(g: Graph, v: Value)
    ensures SeedValue(g, v) <==>
              exists m :: 0 <= m < |g| && g[m].provider
                && (|| (exists x :: x in g[m].outputs && x.value == v && x.onCpu)
                    || (exists r :: r in g[m].required && r < |g[m].inputs| && g[m].inputs[r].value == Some(v)))
  {
    forall m | 0 <= m < |g|
      ensures OutputSeeded(g, m, v) || RequiredSeeded(g, m, v) <==>
                g[m].provider
                && (|| (exists x :: x in g[m].outputs && x.value == v && x.onCpu)
                    || (exists r :: r in g[m].required && r < |g[m].inputs| && g[m].inputs[r].value == Some(v)))
    {
      if x :| x in g[m].outputs && x.value == v && x.onCpu {
        var i :| 0 <= i < |g[m].outputs| && g[m].outputs[i] == x;
      }
      if r :| r in g[m].required && r < |g[m].inputs| && g[m].inputs[r].value == Some(v) {
        var i :| 0 <= i < |g[m].required| && g[m].required[i] == r;
        assert RequiredValue(g[m], i) == Some(v);
      }
    }
  }

  ghost predicate SeededBy(g: Graph, m: nat, n: nat)
    requires m < |g|
  {
    n < |g| && exists v :: (OutputSeeded(g, m, v) && Consumes(g[n], v))
                           || (RequiredSeeded(g, m, v) && Produces(g[n], v) && g[n].provider)
  }

  /** Nodes that are candidates from the start. */
  ghost predicate SeedNode(g: Graph, n: nat)
  {
    exists m :: 0 <= m < |g| && SeededBy(g, m, n)
  }

  /** `v` is in CPU memory when the nodes in `spread` produce their outputs there. */
  ghost predicate CpuValue(g: Graph, spread: set<nat>, v: Value)
  {
    SeedValue(g, v) || exists m :: m in spread && m < |g| && Produces(g[m], v)
  }

  ghost predicate Candidate(g: Graph, spread: set<nat>, n: nat)
  {
    SeedNode(g, n) || (n < |g| && exists m, v :: m in spread && m < |g| && Produces(g[m], v) && Consumes(g[n], v))
  }

  /** The i-th input does not speak against placing the node on the CPU. */
  ghost predicate InputAllows(g: Graph, spread: set<nat>, input: Input)
  {
    && input.value.Some? && input.typed && !input.reduced
    && (input.small || (CpuValue(g, spread, input.value.value) && !input.cpuInput))
  }

  ghost predicate Fits(g: Graph, spread: set<nat>, n: nat)
    requires n < |g|
  {
    if g[n].provider then forall i | 0 <= i < |g[n].inputs| :: InputAllows(g, spread, g[n].inputs[i])
    else g[n].fallsBack
  }

  /** `spread` is the set of candidates whose outputs end up in CPU memory. */
  ghost predicate Solves(g: Graph, spread: set<nat>)
  {
    && (forall n | n in spread :: n < |g|)
    && forall n: nat | n < |g| :: n in spread <==> Candidate(g, spread, n) && Fits(g, spread, n)
  }

  // ----- the equations have one solution -----

  ghost predicate AgreeBelow(a: set<nat>, b: set<nat>, n: nat)
  {
    forall m: nat | m < n :: m in a <==> m in b
  }

  /** What is decided about node `n` depends on the nodes before it only. */
  lemma DecidedByEarlier(g: Graph, a: set<nat>, b: set<nat>, n: nat)
    requires Topological(g) && n < |g| && AgreeBelow(a, b, n)
    ensures Candidate(g, a, n) ==> Candidate(g, b, n)
    ensures Fits(g, a, n) ==> Fits(g, b, n)
  {
    if Candidate(g, a, n) && !SeedNode(g, n) {
      var m, v :| m in a && m < |g| && Produces(g[m], v) && Consumes(g[n], v);
      assert m < n && m in b;
    }
    if Fits(g, a, n) && g[n].provider {
      forall i | 0 <= i < |g[n].inputs|
        ensures InputAllows(g, b, g[n].inputs[i])
      {
        var input := g[n].inputs[i];
        assert InputAllows(g, a, input) && Consumes(g[n], input.value.value);
        if !input.small && !SeedValue(g, input.value.value) {
          var m :| m in a && m < |g| && Produces(g[m], input.value.value);
          assert m < n && m in b;
        }
      }
    }
  }

  lemma {:induction false} SolutionsAgree(g: Graph, a: set<nat>, b: set<nat>, n: nat)
    requires Topological(g) && Solves(g, a) && Solves(g, b) && n <= |g|
    ensures AgreeBelow(a, b, n)
  {
    hide Topological, Candidate, Fits;
    if 0 < n {
      SolutionsAgree(g, a, b, n - 1);
      DecidedByEarlier(g, a, b, n - 1);
      DecidedByEarlier(g, b, a, n - 1);
    }
  }

  /** The placement equations determine the placement, so the order in which seeds are pushed cannot matter. */
  lemma SolutionIsUnique(g: Graph, a: set<nat>, b: set<nat>)
    requires Topological(g) && Solves(g, a) && Solves(g, b)
    ensures a == b
  {
    SolutionsAgree(g, a, b, |g|);
    forall n: nat
      ensures n in a <==> n in b
    {
    }
  }

  /** One forward pass over the graph. */
  ghost function Forward(g: Graph, n: nat): set<nat>
    requires n <= |g|
  {
    if n == 0 then {}
    else
      var before := Forward(g, n - 1);
      if Candidate(g, before, n - 1) && Fits(g, before, n - 1) then before + {n - 1} else before
  }

  lemma {:induction false} ForwardBounds(g: Graph, n: nat, k: nat)
    requires n <= k <= |g|
    ensures forall m | m in Forward(g, k) :: m < k
    ensures AgreeBelow(Forward(g, n), Forward(g, k), n)
    decreases k
  {
    if n < k {
      ForwardBounds(g, n, k - 1);
    } else if 0 < k {
      ForwardBounds(g, k - 1, k - 1);
    }
  }

  /** The forward pass solves the equations. */
  lemma ForwardSolves(g: Graph)
    requires Topological(g)
    ensures Solves(g, Forward(g, |g|))
  {
    hide Topological, Candidate, Fits;
    var all := Forward(g, |g|);
    ForwardBounds(g, |g|, |g|);
    forall n: nat | n < |g|
      ensures n in all <==> Candidate(g, all, n) && Fits(g, all, n)
    {
      ForwardBounds(g, n + 1, |g|);
      ForwardBounds(g, n, |g|);
      ForwardBounds(g, n, n);
      var before := Forward(g, n);
      DecidedByEarlier(g, before, all, n);
      DecidedByEarlier(g, all, before, n);
      assert n in all <==> n in Forward(g, n + 1);
    }
  }

  // ----- the worklist -----

  /** Pops the least element, one of its copies. */
  method PopTop(queue: multiset<nat>) returns (top: nat, rest: multiset<nat>)
    requires queue != multiset{}
    ensures top in queue && rest == queue - multiset{top} && queue == rest + multiset{top} && |rest| < |queue|
    ensures forall n | n in queue :: top <= n
  {
    top :| top in queue;
    while exists n: nat :: n in queue && n < top
      invariant top in queue
      decreases top
    {
      var n: nat :| n in queue && n < top;
      top := n;
    }
    rest := queue - multiset{top};
  }

  function ConsumersOf(g: Graph, v: Value): set<nat>
  {
    set n | 0 <= n < |g| && Consumes(g[n], v)
  }

  ghost predicate Consumer(g: Graph, m: nat, n: nat)
    requires m < |g|
  {
    n < |g| && exists v :: Produces(g[m], v) && Consumes(g[n], v)
  }

  /** Puts all outputs of `m` into CPU memory and queues their consumers. */
  method Spread(g: Graph, m: nat, cpuArgs0: set<Value>, queue0: multiset<nat>)
    returns (cpuArgs: set<Value>, queue: multiset<nat>)
    requires m < |g|
    ensures forall v :: v in cpuArgs <==> v in cpuArgs0 || Produces(g[m], v)
    ensures forall n: nat :: n in queue <==> n in queue0 || Consumer(g, m, n)
  {
    cpuArgs, queue := cpuArgs0, queue0;
    var outputs := g[m].outputs;
    for x := 0 to |outputs|
      invariant forall v :: v in cpuArgs <==> v in cpuArgs0 || exists y :: 0 <= y < x && outputs[y].value == v
      invariant forall n: nat :: n in queue <==>
                  n in queue0 || (n < |g| && exists y :: 0 <= y < x && Consumes(g[n], outputs[y].value))
    {
      cpuArgs := cpuArgs + {outputs[x].value};
      queue := queue + multiset(ConsumersOf(g, outputs[x].value));
    }
    forall n: nat
      ensures Consumer(g, m, n) <==> n < |g| && exists y :: 0 <= y < |outputs| && Consumes(g[n], outputs[y].value)
    {
      if y :| n < |g| && 0 <= y < |outputs| && Consumes(g[n], outputs[y].value) {
        assert Produces(g[m], outputs[y].value);
      }
    }
  }

  /** Whether all inputs allow the CPU, given the values in CPU memory. */
  method PlaceInCpu(g: Graph, n: nat, cpuArgs: set<Value>, ghost spread: set<nat>) returns (place: bool)
    requires n < |g| && forall v :: v in cpuArgs <==> CpuValue(g, spread, v)
    ensures place <==> forall i | 0 <= i < |g[n].inputs| :: InputAllows(g, spread, g[n].inputs[i])
  {
    hide CpuValue;
    place := true;
    var inputs := g[n].inputs;
    for i := 0 to |inputs|
      invariant place && forall j | 0 <= j < i :: InputAllows(g, spread, inputs[j])
    {
      var input := inputs[i];
      if input.value == None || !input.typed {
        return false;
      }
      if input.reduced {
        return false;
      }
      if input.small {
        continue;
      }
      if input.value.value !in cpuArgs {
        return false;
      }
      if input.cpuInput {
        return false;
      }
    }
  }

  function ProvidersOf(g: Graph, v: Value): set<nat>
  {
    set n | 0 <= n < |g| && g[n].provider && Produces(g[n], v)
  }

  method SeedFromOutputs(g: Graph, m: nat, cpuArgs0: set<Value>, queue0: multiset<nat>)
    returns (cpuArgs: set<Value>, queue: multiset<nat>)
    requires m < |g|
    ensures forall v :: v in cpuArgs <==> v in cpuArgs0 || OutputSeeded(g, m, v)
    ensures forall n: nat :: n in queue <==>
              n in queue0 || (n < |g| && exists v :: OutputSeeded(g, m, v) && Consumes(g[n], v))
  {
    cpuArgs, queue := cpuArgs0, queue0;
    if !g[m].provider {
      return;
    }
    var outputs := g[m].outputs;
    for x := 0 to |outputs|
      invariant forall v :: v in cpuArgs <==> v in cpuArgs0 || exists y :: 0 <= y < x && outputs[y] == Output(v, true)
      invariant forall n: nat :: n in queue <==>
                  n in queue0
                  || (n < |g| && exists y :: 0 <= y < x && outputs[y].onCpu && Consumes(g[n], outputs[y].value))
    {
      if outputs[x].onCpu {
        cpuArgs := cpuArgs + {outputs[x].value};
        queue := queue + multiset(ConsumersOf(g, outputs[x].value));
      }
    }
    forall n: nat | n < |g|
      ensures (exists v :: OutputSeeded(g, m, v) && Consumes(g[n], v))
              <==> exists y :: 0 <= y < |outputs| && outputs[y].onCpu && Consumes(g[n], outputs[y].value)
    {
      if y :| 0 <= y < |outputs| && outputs[y].onCpu && Consumes(g[n], outputs[y].value) {
        assert OutputSeeded(g, m, outputs[y].value);
      }
    }
  }

  method SeedFromRequired(g: Graph, m: nat, cpuArgs0: set<Value>, queue0: multiset<nat>)
    returns (cpuArgs: set<Value>, queue: multiset<nat>)
    requires m < |g|
    ensures forall v :: v in cpuArgs <==> v in cpuArgs0 || RequiredSeeded(g, m, v)
    ensures forall n: nat :: n in queue <==>
              n in queue0 || (n < |g| && g[n].provider && exists v :: RequiredSeeded(g, m, v) && Produces(g[n], v))
  {
    cpuArgs, queue := cpuArgs0, queue0;
    if !g[m].provider {
      return;
    }
    for r := 0 to |g[m].required|
      invariant forall v :: v in cpuArgs <==>
                  v in cpuArgs0 || exists y :: 0 <= y < r && RequiredValue(g[m], y) == Some(v)
      invariant forall n: nat :: n in queue <==>
                  n in queue0
                  || (n < |g| && g[n].provider
                      && exists y :: 0 <= y < r && RequiredValue(g[m], y).Some?
                                     && Produces(g[n], RequiredValue(g[m], y).value))
    {
      var value := RequiredValue(g[m], r);
      if value.None? {
        continue;
      }
      cpuArgs := cpuArgs + {value.value};
      queue := queue + multiset(ProvidersOf(g, value.value));
    }
    forall n: nat | n < |g|
      ensures (exists v :: RequiredSeeded(g, m, v) && Produces(g[n], v))
              <==> exists y :: 0 <= y < |g[m].required| && RequiredValue(g[m], y).Some?
                               && Produces(g[n], RequiredValue(g[m], y).value)
    {
      if y :| 0 <= y < |g[m].required| && RequiredValue(g[m], y).Some? && Produces(g[n], RequiredValue(g[m], y).value) {
        assert RequiredSeeded(g, m, RequiredValue(g[m], y).value);
      }
    }
  }

  /** `order` is the order of the second pass, that of an unordered map. */
  method Seed(g: Graph, order: seq<nat>) returns (cpuArgs: set<Value>, queue: multiset<nat>)
    requires forall m: nat :: m in order <==> m < |g|
    ensures forall v :: v in cpuArgs <==> SeedValue(g, v)
    ensures forall n: nat :: n in queue <==> SeedNode(g, n)
  {
    hide OutputSeeded, RequiredSeeded, Consumes, Produces, SeededBy;
    cpuArgs, queue := {}, multiset{};
    for m := 0 to |g|
      invariant forall v :: v in cpuArgs <==> exists k :: 0 <= k < m && OutputSeeded(g, k, v)
      invariant forall n: nat :: n in queue <==>
                  n < |g| && exists k, v :: 0 <= k < m && OutputSeeded(g, k, v) && Consumes(g[n], v)
    {
      cpuArgs, queue := SeedFromOutputs(g, m, cpuArgs, queue);
    }
    for i := 0 to |order|
      invariant forall v :: v in cpuArgs <==>
                  || (exists k :: 0 <= k < |g| && OutputSeeded(g, k, v))
                  || (exists k :: k in order[..i] && k < |g| && RequiredSeeded(g, k, v))
      invariant forall n: nat :: n in queue <==>
                  n < |g| &&
                  (|| (exists k, v :: 0 <= k < |g| && OutputSeeded(g, k, v) && Consumes(g[n], v))
                   || (g[n].provider && exists k, v :: k in order[..i] && k < |g|
                                                       && RequiredSeeded(g, k, v) && Produces(g[n], v)))
    {
      assert order[i] in order && order[..i + 1] == order[..i] + [order[i]];
      cpuArgs, queue := SeedFromRequired(g, order[i], cpuArgs, queue);
    }
    assert order[..|order|] == order;
    forall n: nat
      ensures n in queue <==> SeedNode(g, n)
    {
      SeedNodeIff(g, order, n);
    }
  }

  lemma SeedNodeIff(g: Graph, order: seq<nat>, n: nat)
    requires forall m: nat :: m in order <==> m < |g|
    ensures SeedNode(g, n) <==>
              n < |g| &&
              (|| (exists k, v :: 0 <= k < |g| && OutputSeeded(g, k, v) && Consumes(g[n], v))
               || (g[n].provider
                   && exists k, v :: k in order && k < |g| && RequiredSeeded(g, k, v) && Produces(g[n], v)))
  {
    hide OutputSeeded, RequiredSeeded, Consumes, Produces;
    if m :| 0 <= m < |g| && SeededBy(g, m, n) {
      var v :| (OutputSeeded(g, m, v) && Consumes(g[n], v))
               || (RequiredSeeded(g, m, v) && Produces(g[n], v) && g[n].provider);
      assert m in order;
    }
    if n < |g| {
      if k, v :| 0 <= k < |g| && OutputSeeded(g, k, v) && Consumes(g[n], v) {
        assert SeededBy(g, k, n);
      }
      if g[n].provider {
        if k, v :| k in order && k < |g| && RequiredSeeded(g, k, v) && Produces(g[n], v) {
          assert SeededBy(g, k, n);
        }
      }
    }
  }

  // ----- the main loop -----

  function Positions(n: nat): (r: set<nat>)
    ensures forall k: nat :: k in r <==> k < n
  {
    if n == 0 then {} else Positions(n - 1) + {n - 1}
  }

  ghost predicate WorkInv(
      g: Graph, queue: multiset<nat>, visited: set<nat>, spread: set<nat>, cpuArgs: set<Value>, cpuNodes: set<nat>)
  {
    && spread <= visited
    && (forall n: nat :: n in visited || n in queue <==> Candidate(g, spread, n))
    && (forall n, q | n in visited && q in queue :: n <= q)
    && (forall n: nat | n in visited :: n < |g| && (n in spread <==> Fits(g, spread, n)))
    && (forall v :: v in cpuArgs <==> CpuValue(g, spread, v))
    && (forall n: nat :: n in cpuNodes <==> n in spread && n < |g| && g[n].provider)
  }

  lemma CandidateInRange(g: Graph, spread: set<nat>, n: nat)
    requires Candidate(g, spread, n)
    ensures n < |g|
  {
  }

  /** The popped node is not spread: nothing else changes. */
  lemma SkipStep(
      g: Graph, queue: multiset<nat>, visited: set<nat>, spread: set<nat>, cpuArgs: set<Value>, cpuNodes: set<nat>,
      n: nat)
    requires WorkInv(g, queue, visited, spread, cpuArgs, cpuNodes)
    requires n in queue && forall q | q in queue :: n <= q
    requires n in visited || (n < |g| && !Fits(g, spread, n))
    ensures WorkInv(g, queue - multiset{n}, visited + {n}, spread, cpuArgs, cpuNodes)
  {
    hide Candidate, Fits, CpuValue;
  }

  lemma SpreadCandidates(g: Graph, spread: set<nat>, n: nat, k: nat)
    requires n < |g|
    ensures Candidate(g, spread + {n}, k) <==> Candidate(g, spread, k) || Consumer(g, n, k)
  {
    hide SeedNode, Produces, Consumes;
    if Candidate(g, spread, k) && !SeedNode(g, k) {
      var m, v :| m in spread && m < |g| && Produces(g[m], v) && Consumes(g[k], v);
      assert m in spread + {n};
    }
    if Consumer(g, n, k) {
      var v :| Produces(g[n], v) && Consumes(g[k], v);
      assert n in spread + {n};
    }
  }

  lemma SpreadValues(g: Graph, spread: set<nat>, n: nat, v: Value)
    requires n < |g|
    ensures CpuValue(g, spread + {n}, v) <==> CpuValue(g, spread, v) || Produces(g[n], v)
  {
    hide SeedValue, Produces;
    if CpuValue(g, spread, v) && !SeedValue(g, v) {
      var m :| m in spread && m < |g| && Produces(g[m], v);
      assert m in spread + {n};
    }
    if Produces(g[n], v) {
      assert n in spread + {n};
    }
  }

  /** The popped node is spread: earlier verdicts stand, because only later nodes consume its outputs. */
  lemma SpreadStep(
      g: Graph, queue: multiset<nat>, visited: set<nat>, spread: set<nat>, cpuArgs: set<Value>, cpuNodes: set<nat>,
      n: nat, queue': multiset<nat>, cpuArgs': set<Value>)
    requires Topological(g) && WorkInv(g, queue, visited, spread, cpuArgs, cpuNodes)
    requires n in queue && forall q | q in queue :: n <= q
    requires n !in visited && n < |g| && Fits(g, spread, n)
    requires forall v :: v in cpuArgs' <==> v in cpuArgs || Produces(g[n], v)
    requires forall k: nat :: k in queue' <==> k in queue - multiset{n} || Consumer(g, n, k)
    ensures var cpuNodes' := if g[n].provider then cpuNodes + {n} else cpuNodes;
            WorkInv(g, queue', visited + {n}, spread + {n}, cpuArgs', cpuNodes')
  {
    hide Candidate, Fits, CpuValue, Consumer, Topological, Produces;
    var spread' := spread + {n};
    forall k: nat
      ensures Candidate(g, spread', k) <==> Candidate(g, spread, k) || Consumer(g, n, k)
    {
      SpreadCandidates(g, spread, n, k);
    }
    forall v
      ensures CpuValue(g, spread', v) <==> CpuValue(g, spread, v) || Produces(g[n], v)
    {
      SpreadValues(g, spread, n, v);
    }
    forall k: nat | k in visited + {n}
      ensures k < |g| && (k in spread' <==> Fits(g, spread', k))
    {
      assert k <= n;
      DecidedByEarlier(g, spread, spread', k);
      DecidedByEarlier(g, spread', spread, k);
    }
    ConsumersAreLater(g, n);
  }

  /** Decides one candidate that has not been visited before. */
  method Process(g: Graph, cur: nat, rest0: multiset<nat>, cpuArgs0: set<Value>, cpuNodes0: set<nat>,
                 ghost visited: set<nat>, ghost spread0: set<nat>)
    returns (rest: multiset<nat>, cpuArgs: set<Value>, cpuNodes: set<nat>, ghost spread: set<nat>)
    requires Topological(g) && cur !in visited && forall q | q in rest0 :: cur <= q
    requires WorkInv(g, rest0 + multiset{cur}, visited, spread0, cpuArgs0, cpuNodes0)
    ensures WorkInv(g, rest, visited + {cur}, spread, cpuArgs, cpuNodes)
    ensures forall q | q in rest :: cur <= q
  {
    hide WorkInv, Candidate, Consumer, CpuValue, Produces, Consumes, Topological, InputAllows;
    ghost var queue := rest0 + multiset{cur};
    rest, cpuArgs, cpuNodes, spread := rest0, cpuArgs0, cpuNodes0, spread0;
    QueueFacts(g, queue, visited, spread, cpuArgs, cpuNodes, cur);
    var place;
    if !g[cur].provider {
      place := g[cur].fallsBack;
    } else {
      place := PlaceInCpu(g, cur, cpuArgs, spread);
    }
    assert place <==> Fits(g, spread, cur);
    assert queue - multiset{cur} == rest0;
    if place {
      cpuArgs, rest := Spread(g, cur, cpuArgs, rest);
      SpreadStep(g, queue, visited, spread0, cpuArgs0, cpuNodes0, cur, rest, cpuArgs);
      ConsumersAreLater(g, cur);
      if g[cur].provider {
        cpuNodes := cpuNodes + {cur};
      }
      spread := spread + {cur};
    } else {
      SkipStep(g, queue, visited, spread, cpuArgs, cpuNodes, cur);
    }
  }

  /**
   The placement equals one forward pass over the graph whatever the order of the seeds, and the queue is popped in
   topological order.
   */
  method GetCpuPreferredNodes(g: Graph, order: seq<nat>)
    returns (cpuNodes: set<nat>, cpuArgs: set<Value>, ghost pops: seq<nat>)
    requires Topological(g) && forall m: nat :: m in order <==> m < |g|
    ensures forall n: nat :: n in cpuNodes <==> n < |g| && n in Forward(g, |g|) && g[n].provider
    ensures forall v :: v in cpuArgs <==> CpuValue(g, Forward(g, |g|), v)
    ensures Sorted(pops) && forall n: nat :: n in pops <==> Candidate(g, Forward(g, |g|), n)
    ensures Balanced(g, cpuNodes, cpuArgs, pops)
  {
    var queue;
    cpuArgs, queue := Seed(g, order);
    hide *;
    InitialWork(g, queue, cpuArgs);
    ghost var visited, spread;
    cpuNodes, cpuArgs, pops, visited, spread := DrainQueue(g, queue, cpuArgs);
    EmptyQueueSolves(g, visited, spread, cpuArgs, cpuNodes);
    ForwardSolves(g);
    SolutionIsUnique(g, spread, Forward(g, |g|));
    VisitedAreCandidates(g, visited, spread, cpuArgs, cpuNodes);
    ForwardIsBalanced(g, cpuNodes, cpuArgs, pops);
  }

  /** An input that lets its node stay on the CPU, when `cpuArgs` are the values in CPU memory. */
  predicate Allowing(input: Input, cpuArgs: set<Value>)
  {
    && input.value.Some? && input.typed && !input.reduced
    && (input.small || (input.value.value in cpuArgs && !input.cpuInput))
  }

  /**
   What the result means: of the nodes that were looked at, those of the provider are placed on the CPU all of whose
   inputs are tensors of full precision and small, or in CPU memory although the kernel wants them on the GPU. In CPU
   memory are the seeds and the outputs of placed nodes and of nodes that fall back.
   */
  ghost predicate Balanced(g: Graph, cpuNodes: set<nat>, cpuArgs: set<Value>, pops: seq<nat>)
  {
    && (forall n: nat :: n in cpuNodes <==>
          n in pops && n < |g| && g[n].provider
          && forall i | 0 <= i < |g[n].inputs| :: Allowing(g[n].inputs[i], cpuArgs))
    && (forall v :: v in cpuArgs <==>
          SeedValue(g, v)
          || exists m :: m in pops && m < |g| && Produces(g[m], v)
                         && (m in cpuNodes || (!g[m].provider && g[m].fallsBack)))
    && (forall n: nat :: n in pops <==>
          SeedNode(g, n)
          || exists m :: m in pops && m < |g| && Consumer(g, m, n)
                         && (m in cpuNodes || (!g[m].provider && g[m].fallsBack)))
  }

  lemma SpreadIff(g: Graph, cpuNodes: set<nat>, pops: seq<nat>, m: nat)
    requires Topological(g)
    requires forall n: nat :: n in cpuNodes <==> n < |g| && n in Forward(g, |g|) && g[n].provider
    requires forall n: nat :: n in pops <==> Candidate(g, Forward(g, |g|), n)
    ensures m in Forward(g, |g|) <==>
              m in pops && m < |g| && (m in cpuNodes || (!g[m].provider && g[m].fallsBack))
  {
    hide Candidate, Forward, Topological;
    ForwardSolves(g);
  }

  lemma ForwardIsBalanced(g: Graph, cpuNodes: set<nat>, cpuArgs: set<Value>, pops: seq<nat>)
    requires Topological(g)
    requires forall n: nat :: n in cpuNodes <==> n < |g| && n in Forward(g, |g|) && g[n].provider
    requires forall v :: v in cpuArgs <==> CpuValue(g, Forward(g, |g|), v)
    requires forall n: nat :: n in pops <==> Candidate(g, Forward(g, |g|), n)
    ensures Balanced(g, cpuNodes, cpuArgs, pops)
  {
    hide Forward, Topological, SeedNode, SeedValue, Produces, Consumes;
    ForwardSolves(g);
    forall m: nat
      ensures m in Forward(g, |g|) <==>
                m in pops && m < |g| && (m in cpuNodes || (!g[m].provider && g[m].fallsBack))
    {
      SpreadIff(g, cpuNodes, pops, m);
    }
  }

  lemma VisitedAreCandidates(g: Graph, visited: set<nat>, spread: set<nat>, cpuArgs: set<Value>, cpuNodes: set<nat>)
    requires WorkInv(g, multiset{}, visited, spread, cpuArgs, cpuNodes)
    ensures forall n: nat :: n in visited <==> Candidate(g, spread, n)
  {
    hide Candidate, Fits, CpuValue;
  }

  /** The loop proper: pops until the queue is empty. */
  method DrainQueue(g: Graph, queue0: multiset<nat>, cpuArgs0: set<Value>)
    returns (cpuNodes: set<nat>, cpuArgs: set<Value>, ghost pops: seq<nat>, ghost visited: set<nat>,
             ghost spread: set<nat>)
    requires Topological(g) && WorkInv(g, queue0, {}, {}, cpuArgs0, {})
    ensures WorkInv(g, multiset{}, visited, spread, cpuArgs, cpuNodes)
    ensures Sorted(pops) && forall n: nat :: n in pops <==> n in visited
  {
    NoneBelowShrinks([], 0, queue0);
    hide *;
    var queue := queue0;
    cpuNodes, cpuArgs, pops, spread := {}, cpuArgs0, [], {};
    var seen: set<nat> := {};
    ghost var unseen := Positions(|g|);
    while queue != multiset{}
      invariant WorkInv(g, queue, seen, spread, cpuArgs, cpuNodes)
      invariant Sorted(pops) && NoneBelow(pops, queue) && forall n: nat :: n in pops <==> n in seen
      invariant forall n: nat :: n in unseen <==> n < |g| && n !in seen
      decreases unseen, |queue|
    {
      var cur;
      cur, queue, cpuArgs, cpuNodes, seen, spread := PopOne(g, queue, cpuArgs, cpuNodes, seen, spread, pops);
      pops := pops + [cur];
      unseen := unseen - {cur};
    }
    visited := seen;
    assert queue == multiset{};
  }

  /** One round: a node is popped, and decided if that has not been done yet. */
  method PopOne(g: Graph, queue0: multiset<nat>, cpuArgs0: set<Value>, cpuNodes0: set<nat>, seen0: set<nat>,
                ghost spread0: set<nat>, ghost pops: seq<nat>)
    returns (cur: nat, queue: multiset<nat>, cpuArgs: set<Value>, cpuNodes: set<nat>, seen: set<nat>,
             ghost spread: set<nat>)
    requires Topological(g) && queue0 != multiset{} && WorkInv(g, queue0, seen0, spread0, cpuArgs0, cpuNodes0)
    requires Sorted(pops) && NoneBelow(pops, queue0)
    ensures WorkInv(g, queue, seen, spread, cpuArgs, cpuNodes) && cur < |g| && seen == seen0 + {cur}
    ensures cur in seen0 ==> |queue| < |queue0|
    ensures Sorted(pops + [cur]) && NoneBelow(pops + [cur], queue)
  {
    hide *;
    var rest;
    cur, rest := PopTop(queue0);
    QueueFacts(g, queue0, seen0, spread0, cpuArgs0, cpuNodes0, cur);
    ghost var more := Extended(pops, cur, queue0);
    cpuArgs, cpuNodes, spread, seen := cpuArgs0, cpuNodes0, spread0, seen0 + {cur};
    if cur in seen0 {
      SkipStep(g, queue0, seen0, spread0, cpuArgs0, cpuNodes0, cur);
      queue := rest;
    } else {
      queue, cpuArgs, cpuNodes, spread := Process(g, cur, rest, cpuArgs0, cpuNodes0, seen0, spread0);
    }
    NoneBelowShrinks(more, cur, queue);
  }

  ghost predicate Sorted(pops: seq<nat>)
  {
    forall i, j | 0 <= i < j < |pops| :: pops[i] <= pops[j]
  }

  /** Whatever is still queued comes no earlier than what has been popped. */
  ghost predicate NoneBelow(pops: seq<nat>, queue: multiset<nat>)
  {
    forall i, q | 0 <= i < |pops| && q in queue :: pops[i] <= q
  }

  ghost function Extended(pops: seq<nat>, cur: nat, queue: multiset<nat>): (r: seq<nat>)
    requires Sorted(pops) && NoneBelow(pops, queue) && cur in queue
    ensures Sorted(r) && r == pops + [cur] && forall i | 0 <= i < |r| :: r[i] <= cur
  {
    pops + [cur]
  }

  lemma NoneBelowShrinks(pops: seq<nat>, cur: nat, queue: multiset<nat>)
    requires (forall i | 0 <= i < |pops| :: pops[i] <= cur) && forall q | q in queue :: cur <= q
    ensures NoneBelow(pops, queue) && (pops == [] ==> Sorted(pops))
  {
  }

  lemma InitialWork(g: Graph, queue: multiset<nat>, cpuArgs: set<Value>)
    requires forall v :: v in cpuArgs <==> SeedValue(g, v)
    requires forall n: nat :: n in queue <==> SeedNode(g, n)
    ensures WorkInv(g, queue, {}, {}, cpuArgs, {})
  {
    hide SeedNode, SeedValue;
  }

  lemma ConsumersAreLater(g: Graph, m: nat)
    requires Topological(g) && m < |g|
    ensures forall n: nat | Consumer(g, m, n) :: m < n
  {
  }

  lemma QueueFacts(
      g: Graph, queue: multiset<nat>, visited: set<nat>, spread: set<nat>, cpuArgs: set<Value>, cpuNodes: set<nat>,
      n: nat)
    requires WorkInv(g, queue, visited, spread, cpuArgs, cpuNodes) && n in queue
    ensures n < |g| && forall v :: v in cpuArgs <==> CpuValue(g, spread, v)
  {
    CandidateInRange(g, spread, n);
  }

  lemma EmptyQueueSolves(g: Graph, visited: set<nat>, spread: set<nat>, cpuArgs: set<Value>, cpuNodes: set<nat>)
    requires WorkInv(g, multiset{}, visited, spread, cpuArgs, cpuNodes)
    ensures Solves(g, spread)
    ensures forall n: nat :: n in cpuNodes <==> n in spread && n < |g| && g[n].provider
    ensures forall v :: v in cpuArgs <==> CpuValue(g, spread, v)
  {
    hide Candidate, Fits, CpuValue;
  }
}
