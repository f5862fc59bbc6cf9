/**
 Pattern fusion: the recursive matcher, with its optional branches and its undo by popping, and the greedy pass that
 fuses what it matches. Nodes are numbered by their position in topological order.
 */
module FusionMatching {
  import opened Common

  datatype Node = Node(opType: string, domain: string, inputs: seq<string>, outputs: seq<string>)

  type Graph = seq<Node>

  datatype Connectivity = Connectivity(
    producers: map<string, nat>, consumers: map<string, seq<nat>>, graphOutputs: set<string>)

  /** Value names and scalars captured so far. */
  datatype Captures = Captures(names: map<string, string>, scalars: map<string, real>)

  datatype Checked = Checked(ok: bool, captures: Captures)

  datatype Direction = Upstream | Downstream

  datatype Edge = Edge(dir: Direction, index: nat, child: Pattern, isOptional: bool)

  /**
   `check` stands for the input constraints: given a node and the captures, whether they hold and what they capture.
   */
  datatype Pattern = Pattern(
    opType: string, domain: string, check: (nat, Captures) -> Checked, name: string, edges: seq<Edge>)

  /** The key of a matched node: its capture name, or its operator with the number of nodes matched before. */
  datatype Key = Named(name: string) | Nth(opType: string, count: nat)

  datatype Match = Match(indices: map<Key, nat>, captures: Captures, nodes: seq<nat>)

  const NO_CAPTURES := Captures(map[], map[])

  const EMPTY_MATCH := Match(map[], NO_CAPTURES, [])

  // ----- connectivity -----

  predicate Consumes(g: Graph, c: nat, name: string)
  {
    c < |g| && name != "" && name in g[c].inputs
  }

  predicate Produces(g: Graph, p: nat, name: string)
  {
    p < |g| && name != "" && name in g[p].outputs
  }

  function ConsumersIn(conn: Connectivity, name: string): seq<nat>
  {
    if name in conn.consumers then conn.consumers[name] else []
  }

  /** How often the node reads the value. */
  function Readings(g: Graph, c: nat, name: string): nat
  {
    if c < |g| && name != "" then multiset(g[c].inputs)[name] else 0
  }

  /** The last producer of every value, and its consumers in order, once for each reading. */
  ghost predicate ConnectivityOk(g: Graph, conn: Connectivity, n: nat)
  {
    && (forall name | name in conn.producers :: conn.producers[name] < n && Produces(g, conn.producers[name], name))
    && (forall name, p: nat | p < n && Produces(g, p, name) :: name in conn.producers && p <= conn.producers[name])
    && (forall name :: ConsumersOk(g, ConsumersIn(conn, name), n, name))
  }

  ghost predicate ConsumersOk(g: Graph, consumers: seq<nat>, n: nat, name: string)
  {
    && (forall c: nat :: c in consumers <==> c < n && Consumes(g, c, name))
    && (forall c: nat :: multiset(consumers)[c] == if c < n then Readings(g, c, name) else 0)
    && (forall i, j | 0 <= i < j < |consumers| :: consumers[i] <= consumers[j])
  }

  method BuildConnectivity(g: Graph, graphOutputs: set<string>) returns (conn: Connectivity)
    ensures ConnectivityOk(g, conn, |g|) && conn.graphOutputs == graphOutputs
  {
    conn := Connectivity(map[], map[], graphOutputs);
    for n := 0 to |g|
      invariant ConnectivityOk(g, conn, n) && conn.graphOutputs == graphOutputs
    {
      var grown := AddOutputs(g, conn, n);
      assert forall name :: ConsumersIn(grown, name) == ConsumersIn(conn, name);
      conn := AddInputs(g, grown, n);
    }
  }

  method AddOutputs(g: Graph, conn: Connectivity, n: nat) returns (r: Connectivity)
    requires ConnectivityOk(g, conn, n) && n < |g|
    ensures r.consumers == conn.consumers && r.graphOutputs == conn.graphOutputs
    ensures forall name | name in r.producers :: r.producers[name] <= n && Produces(g, r.producers[name], name)
    ensures forall name, p: nat | p <= n && Produces(g, p, name) :: name in r.producers && p <= r.producers[name]
  {
    r := conn;
    for o := 0 to |g[n].outputs|
      invariant r.consumers == conn.consumers && r.graphOutputs == conn.graphOutputs
      invariant forall name | name in r.producers :: r.producers[name] <= n && Produces(g, r.producers[name], name)
      invariant forall name, p: nat | p < n && Produces(g, p, name) :: name in r.producers && p <= r.producers[name]
      invariant forall i | 0 <= i < o && g[n].outputs[i] != "" ::
                  g[n].outputs[i] in r.producers && r.producers[g[n].outputs[i]] == n
    {
      var name := g[n].outputs[o];
      if name != "" {
        r := r.(producers := r.producers[name := n]);
      }
    }
  }

  method AddInputs(g: Graph, conn: Connectivity, n: nat) returns (r: Connectivity)
    requires n < |g| && forall name :: ConsumersOk(g, ConsumersIn(conn, name), n, name)
    ensures r.producers == conn.producers && r.graphOutputs == conn.graphOutputs
    ensures forall name :: ConsumersOk(g, ConsumersIn(r, name), n + 1, name)
  {
    hide *;
    r := conn;
    var inputs := g[n].inputs;
    NothingRead(conn, inputs, n);
    for i := 0 to |inputs|
      invariant r.producers == conn.producers && r.graphOutputs == conn.graphOutputs
      invariant ReadInv(conn, r, inputs, n, i)
    {
      var name := inputs[i];
      ReadStep(conn, r, inputs, n, i);
      if name != "" {
        r := r.(consumers := r.consumers[name := ConsumersIn(r, name) + [n]]);
      }
    }
    EverythingRead(g, conn, r, n);
  }

  /** The first `i` inputs of node `n` have been entered. */
  ghost predicate ReadInv(conn: Connectivity, r: Connectivity, inputs: seq<string>, n: nat, i: nat)
    requires i <= |inputs|
  {
    forall name :: Appended(ConsumersIn(conn, name), ConsumersIn(r, name), n, ReadSoFar(inputs, i, name))
  }

  lemma NothingRead(conn: Connectivity, inputs: seq<string>, n: nat)
    ensures ReadInv(conn, conn, inputs, n, 0)
  {
  }

  lemma ReadStep(conn: Connectivity, r: Connectivity, inputs: seq<string>, n: nat, i: nat)
    requires i < |inputs| && ReadInv(conn, r, inputs, n, i)
    ensures var name := inputs[i];
            ReadInv(conn, if name == "" then r else r.(consumers := r.consumers[name := ConsumersIn(r, name) + [n]]),
                    inputs, n, i + 1)
  {
    var added := inputs[i];
    var d := if added == "" then r else r.(consumers := r.consumers[added := ConsumersIn(r, added) + [n]]);
    forall name
      ensures Appended(ConsumersIn(conn, name), ConsumersIn(d, name), n, ReadSoFar(inputs, i + 1, name))
    {
      assert Appended(ConsumersIn(conn, name), ConsumersIn(r, name), n, ReadSoFar(inputs, i, name));
      OneMoreRead(inputs, i, name);
      hide ReadSoFar;
    }
  }

  lemma OneMoreRead(inputs: seq<string>, i: nat, name: string)
    requires i < |inputs|
    ensures ReadSoFar(inputs, i + 1, name)
            == ReadSoFar(inputs, i, name) + if name == inputs[i] && name != "" then 1 else 0
  {
    assert inputs[..i + 1] == inputs[..i] + [inputs[i]];
  }

  lemma EverythingRead(g: Graph, conn: Connectivity, r: Connectivity, n: nat)
    requires n < |g| && ReadInv(conn, r, g[n].inputs, n, |g[n].inputs|)
    requires forall name :: ConsumersOk(g, ConsumersIn(conn, name), n, name)
    ensures forall name :: ConsumersOk(g, ConsumersIn(r, name), n + 1, name)
  {
    hide ConsumersOk, Appended;
    var inputs := g[n].inputs;
    assert inputs[..|inputs|] == inputs;
    forall name
      ensures ConsumersOk(g, ConsumersIn(r, name), n + 1, name)
    {
      AllRead(g, ConsumersIn(conn, name), ConsumersIn(r, name), n, name);
    }
  }

  /** How often a named value is among the first `i` inputs. */
  function ReadSoFar(inputs: seq<string>, i: nat, name: string): nat
    requires i <= |inputs|
  {
    if name != "" then multiset(inputs[..i])[name] else 0
  }

  /** `after` is `before` with `count` times `n` behind it. */
  ghost predicate Appended(before: seq<nat>, after: seq<nat>, n: nat, count: nat)
  {
    && |after| == |before| + count && after[..|before|] == before
    && forall i | |before| <= i < |after| :: after[i] == n
  }

  lemma {:induction false} AppendedCount(before: seq<nat>, after: seq<nat>, n: nat, count: nat)
    requires Appended(before, after, n, count)
    ensures forall c: nat :: multiset(after)[c] == multiset(before)[c] + if c == n then count else 0
  {
    if count == 0 {
      assert after == before;
    } else {
      var front := after[..|after| - 1];
      AppendedCount(before, front, n, count - 1);
      assert after == front + [n];
    }
  }

  lemma AllRead(g: Graph, before: seq<nat>, after: seq<nat>, n: nat, name: string)
    requires n < |g| && ConsumersOk(g, before, n, name) && Appended(before, after, n, Readings(g, n, name))
    ensures ConsumersOk(g, after, n + 1, name)
  {
    AppendedCount(before, after, n, Readings(g, n, name));
    forall c: nat
      ensures multiset(after)[c] == if c < n + 1 then Readings(g, c, name) else 0
      ensures c in after <==> c < n + 1 && Consumes(g, c, name)
    {
      assert c in after <==> c in multiset(after);
      assert name in g[n].inputs <==> name in multiset(g[n].inputs);
    }
    forall i, j | 0 <= i < j < |after|
      ensures after[i] <= after[j]
    {
      assert forall k | 0 <= k < |before| :: after[k] == before[k] && before[k] in before;
    }
  }

  // ----- what a match is -----

  /** `c` is at the other end of the edge; a value inside the pattern, read downstream, has no other consumer. */
  ghost predicate Linked(g: Graph, graphOutputs: set<string>, node: nat, e: Edge, c: nat)
    requires node < |g|
  {
    match e.dir
    case Upstream => e.index < |g[node].inputs| && Produces(g, c, g[node].inputs[e.index])
    case Downstream =>
      && e.index < |g[node].outputs| && Consumes(g, c, g[node].outputs[e.index])
      && (e.child.edges != [] ==>
            && g[node].outputs[e.index] !in graphOutputs
            && forall other :: Consumes(g, other, g[node].outputs[e.index]) ==> other == c)
  }

  /** `list` is an embedding of the pattern at `node`, in the order of the pattern tree. */
  ghost predicate Embeds(g: Graph, graphOutputs: set<string>, p: Pattern, node: nat, list: seq<nat>)
    decreases p, |p.edges| + 1
  {
    && node < |g| && g[node].opType == p.opType && (p.domain == "" || g[node].domain == p.domain)
    && (exists captures :: p.check(node, captures).ok)
    && list != [] && list[0] == node && EdgesEmbed(g, graphOutputs, p, node, |p.edges|, list[1..])
  }

  /** `list` embeds the first `n` branches one after the other; only an optional branch may be left out. */
  ghost predicate EdgesEmbed(g: Graph, graphOutputs: set<string>, p: Pattern, node: nat, n: nat, list: seq<nat>)
    requires node < |g| && n <= |p.edges|
    decreases p, n
  {
    if n == 0 then list == []
    else
      var e := p.edges[n - 1];
      || (e.isOptional && EdgesEmbed(g, graphOutputs, p, node, n - 1, list))
      || exists k, c ::
           && 0 <= k <= |list| && EdgesEmbed(g, graphOutputs, p, node, n - 1, list[..k])
           && Linked(g, graphOutputs, node, e, c) && Embeds(g, graphOutputs, e.child, c, list[k..])
  }

  lemma BranchTaken(g: Graph, graphOutputs: set<string>, p: Pattern, node: nat, n: nat,
                    before: seq<nat>, c: nat, branch: seq<nat>)
    requires node < |g| && n < |p.edges| && EdgesEmbed(g, graphOutputs, p, node, n, before)
    requires Linked(g, graphOutputs, node, p.edges[n], c) && Embeds(g, graphOutputs, p.edges[n].child, c, branch)
    ensures EdgesEmbed(g, graphOutputs, p, node, n + 1, before + branch)
  {
    var list := before + branch;
    assert list[..|before|] == before && list[|before|..] == branch;
  }

  // ----- the search, on values -----

  /** No node is matched twice, and none belongs to an earlier fusion. */
  ghost predicate Fresh(nodes: seq<nat>, consumed: set<nat>)
  {
    && (forall i, j | 0 <= i < j < |nodes| :: nodes[i] != nodes[j])
    && (forall i | 0 <= i < |nodes| :: nodes[i] !in consumed)
  }

  ghost predicate Indexed(m: Match)
  {
    forall key | key in m.indices :: m.indices[key] in m.nodes
  }

  ghost predicate Extends(before: Match, after: Match)
  {
    |before.nodes| <= |after.nodes| && after.nodes[..|before.nodes|] == before.nodes
  }

  function FirstOfType(g: Graph, nodes: seq<nat>, opType: string): (c: Option<nat>)
    requires forall i | 0 <= i < |nodes| :: nodes[i] < |g|
    ensures c.Some? ==> c.value in nodes
  {
    if nodes == [] then None
    else if g[nodes[0]].opType == opType then Some(nodes[0])
    else FirstOfType(g, nodes[1..], opType)
  }

  lemma ConsumersInGraph(g: Graph, conn: Connectivity, name: string)
    requires ConnectivityOk(g, conn, |g|)
    ensures forall i | 0 <= i < |ConsumersIn(conn, name)| :: ConsumersIn(conn, name)[i] < |g|
  {
    assert ConsumersOk(g, ConsumersIn(conn, name), |g|, name);
    assert forall i | 0 <= i < |ConsumersIn(conn, name)| :: ConsumersIn(conn, name)[i] in ConsumersIn(conn, name);
  }

  /** The node at the other end of an edge, if the edge may be followed. */
  function Neighbour(g: Graph, conn: Connectivity, node: nat, e: Edge): Option<nat>
    requires ConnectivityOk(g, conn, |g|) && node < |g|
  {
    match e.dir
    case Upstream =>
      if e.index < |g[node].inputs| && g[node].inputs[e.index] in conn.producers
      then Some(conn.producers[g[node].inputs[e.index]]) else None
    case Downstream =>
      if |g[node].outputs| <= e.index then None
      else
        var value := g[node].outputs[e.index];
        var consumers := ConsumersIn(conn, value);
        if e.child.edges == [] then
          ConsumersInGraph(g, conn, value);
          FirstOfType(g, consumers, e.child.opType)
        else if value !in conn.graphOutputs && |consumers| == 1 then Some(consumers[0])
        else None
  }

  lemma NeighbourIsLinked(g: Graph, conn: Connectivity, node: nat, e: Edge)
    requires ConnectivityOk(g, conn, |g|) && node < |g| && Neighbour(g, conn, node, e).Some?
    ensures Linked(g, conn.graphOutputs, node, e, Neighbour(g, conn, node, e).value)
  {
    if e.dir.Downstream? {
      var consumers := ConsumersIn(conn, g[node].outputs[e.index]);
      if e.child.edges != [] {
        assert consumers[0] in consumers;
        assert forall other :: Consumes(g, other, g[node].outputs[e.index]) ==> other in consumers;
      }
    }
  }

  function KeyOf(p: Pattern, count: nat): Key
  {
    if p.name == "" then Nth(p.opType, count) else Named(p.name)
  }

  predicate Admits(g: Graph, p: Pattern, node: nat, consumed: set<nat>, before: Match)
  {
    && node < |g| && node !in consumed && node !in before.nodes
    && g[node].opType == p.opType && (p.domain == "" || g[node].domain == p.domain)
    && p.check(node, before.captures).ok
  }

  function WithNode(p: Pattern, node: nat, before: Match): Match
  {
    Match(before.indices[KeyOf(p, |before.nodes|) := node], p.check(node, before.captures).captures,
          before.nodes + [node])
  }

  /**
   The greedy search: the node itself, then its branches in order. Each branch is searched with what was matched so
   far; if that fails, an optional branch is left out and a mandatory one fails the match.
   */
  function Search(g: Graph, conn: Connectivity, p: Pattern, node: nat, consumed: set<nat>, before: Match)
    : (r: Option<Match>)
    requires ConnectivityOk(g, conn, |g|)
    ensures r.Some? ==> |before.nodes| < |r.value.nodes|
    decreases p, |p.edges| + 1
  {
    if Admits(g, p, node, consumed, before)
    then SearchBranches(g, conn, p, node, consumed, WithNode(p, node, before), |p.edges|)
    else None
  }

  /** The first `n` branches. */
  function SearchBranches(
      g: Graph, conn: Connectivity, p: Pattern, node: nat, consumed: set<nat>, start: Match, n: nat)
    : (r: Option<Match>)
    requires ConnectivityOk(g, conn, |g|) && node < |g| && n <= |p.edges|
    ensures r.Some? ==> |start.nodes| <= |r.value.nodes|
    decreases p, n
  {
    if n == 0 then Some(start)
    else
      var m := SearchBranches(g, conn, p, node, consumed, start, n - 1);
      if m.None? then None
      else
        var e := p.edges[n - 1];
        var c := Neighbour(g, conn, node, e);
        var r := if c.Some? then Search(g, conn, e.child, c.value, consumed, m.value) else None;
        if r.Some? then r else if e.isOptional then m else None
  }

  /** What the search finds is an embedding of the pattern behind what was matched before. */
  ghost predicate FoundAt(
      g: Graph, graphOutputs: set<string>, p: Pattern, node: nat, consumed: set<nat>, before: Match, m: Match)
  {
    && Extends(before, m) && Fresh(m.nodes, consumed) && Indexed(m)
    && Embeds(g, graphOutputs, p, node, m.nodes[|before.nodes|..])
  }

  lemma {:induction false} SearchFinds(
      g: Graph, conn: Connectivity, p: Pattern, node: nat, consumed: set<nat>, before: Match)
    requires ConnectivityOk(g, conn, |g|) && Fresh(before.nodes, consumed) && Indexed(before)
    requires Search(g, conn, p, node, consumed, before).Some?
    ensures FoundAt(g, conn.graphOutputs, p, node, consumed, before, Search(g, conn, p, node, consumed, before).value)
    decreases p, |p.edges| + 1
  {
    var start := WithNode(p, node, before);
    var n := |before.nodes|;
    assert Fresh(start.nodes, consumed) && Indexed(start);
    BranchesFind(g, conn, p, node, consumed, start, |p.edges|);
    var m := Search(g, conn, p, node, consumed, before).value;
    assert p.check(node, before.captures).ok;
    hide Search, SearchBranches, Fresh, Indexed, ConnectivityOk, EdgesEmbed;
    assert m.nodes[..n] == m.nodes[..n + 1][..n];
    assert m.nodes[n..][1..] == m.nodes[n + 1..] && m.nodes[n] == m.nodes[..n + 1][n];
  }

  lemma {:induction false} BranchesFind(
      g: Graph, conn: Connectivity, p: Pattern, node: nat, consumed: set<nat>, start: Match, n: nat)
    requires ConnectivityOk(g, conn, |g|) && node < |g| && n <= |p.edges|
    requires Fresh(start.nodes, consumed) && Indexed(start)
    requires SearchBranches(g, conn, p, node, consumed, start, n).Some?
    ensures var m := SearchBranches(g, conn, p, node, consumed, start, n).value;
            && Extends(start, m) && Fresh(m.nodes, consumed) && Indexed(m)
            && EdgesEmbed(g, conn.graphOutputs, p, node, n, m.nodes[|start.nodes|..])
    decreases p, n
  {
    if n == 0 {
    } else {
      BranchesFind(g, conn, p, node, consumed, start, n - 1);
      var m := SearchBranches(g, conn, p, node, consumed, start, n - 1).value;
      var e := p.edges[n - 1];
      var c := Neighbour(g, conn, node, e);
      if c.Some? && Search(g, conn, e.child, c.value, consumed, m).Some? {
        NeighbourIsLinked(g, conn, node, e);
        SearchFinds(g, conn, e.child, c.value, consumed, m);
        var r := Search(g, conn, e.child, c.value, consumed, m).value;
        assert SearchBranches(g, conn, p, node, consumed, start, n) == Some(r);
        hide Search, SearchBranches, Neighbour, Fresh, Indexed, ConnectivityOk, Embeds, EdgesEmbed, Linked;
        TakeBranch(g, conn.graphOutputs, p, node, n - 1, c.value, start, m, r);
      } else {
        assert SearchBranches(g, conn, p, node, consumed, start, n) == Some(m) && e.isOptional;
        hide Search, SearchBranches, Neighbour, Fresh, Indexed, ConnectivityOk, Embeds, Linked;
      }
    }
  }

  lemma TakeBranch(
      g: Graph, graphOutputs: set<string>, p: Pattern, node: nat, i: nat, c: nat, start: Match, m: Match, r: Match)
    requires node < |g| && i < |p.edges| && Extends(start, m) && Extends(m, r)
    requires EdgesEmbed(g, graphOutputs, p, node, i, m.nodes[|start.nodes|..])
    requires Linked(g, graphOutputs, node, p.edges[i], c)
    requires Embeds(g, graphOutputs, p.edges[i].child, c, r.nodes[|m.nodes|..])
    ensures Extends(start, r) && EdgesEmbed(g, graphOutputs, p, node, i + 1, r.nodes[|start.nodes|..])
  {
    hide Embeds, EdgesEmbed, Linked;
    var n := |start.nodes|;
    BranchTaken(g, graphOutputs, p, node, i, m.nodes[n..], c, r.nodes[|m.nodes|..]);
    assert r.nodes[n..] == m.nodes[n..] + r.nodes[|m.nodes|..];
    assert r.nodes[..n] == r.nodes[..|m.nodes|][..n];
  }

  /** A branch that fails the match fails it for good. */
  lemma {:induction false} BranchesStayFailed(
      g: Graph, conn: Connectivity, p: Pattern, node: nat, consumed: set<nat>, start: Match, i: nat, n: nat)
    requires ConnectivityOk(g, conn, |g|) && node < |g| && i <= n <= |p.edges|
    requires SearchBranches(g, conn, p, node, consumed, start, i) == None
    ensures SearchBranches(g, conn, p, node, consumed, start, n) == None
    decreases n
  {
    if i < n {
      BranchesStayFailed(g, conn, p, node, consumed, start, i, n - 1);
    }
  }

  // ----- where a match is recorded -----

  /** The pattern gives this name to one of its nodes. */
  predicate Names(p: Pattern, name: string)
  {
    p.name == name || exists i | 0 <= i < |p.edges| :: Names(p.edges[i].child, name)
  }

  predicate BranchNames(p: Pattern, n: nat, name: string)
    requires n <= |p.edges|
  {
    exists i | 0 <= i < n :: Names(p.edges[i].child, name)
  }

  /**
   A found node can be looked up: under its name, or under its operator and its place in the match. Only a branch that
   uses the same name again takes the name away from it.
   */
  lemma SearchRecordsNode(g: Graph, conn: Connectivity, p: Pattern, node: nat, consumed: set<nat>, before: Match)
    requires ConnectivityOk(g, conn, |g|) && Search(g, conn, p, node, consumed, before).Some?
    ensures var indices := Search(g, conn, p, node, consumed, before).value.indices;
            if p.name == "" then
              Nth(p.opType, |before.nodes|) in indices && indices[Nth(p.opType, |before.nodes|)] == node
            else
              Named(p.name) in indices && (!BranchNames(p, |p.edges|, p.name) ==> indices[Named(p.name)] == node)
  {
    hide ConnectivityOk, Neighbour;
    var key := if p.name == "" then Nth(p.opType, |before.nodes|) else Named(p.name);
    BranchesKeepKey(g, conn, p, node, consumed, WithNode(p, node, before), |p.edges|, key);
  }

  lemma {:induction false} SearchKeepsKey(
      g: Graph, conn: Connectivity, p: Pattern, node: nat, consumed: set<nat>, before: Match, key: Key)
    requires ConnectivityOk(g, conn, |g|) && key in before.indices
    requires Search(g, conn, p, node, consumed, before).Some?
    ensures var indices := Search(g, conn, p, node, consumed, before).value.indices;
            && key in indices
            && ((if key.Nth? then key.count < |before.nodes| else key.name != "" && !Names(p, key.name)) ==>
                  indices[key] == before.indices[key])
    decreases p, |p.edges| + 1
  {
    BranchesKeepKey(g, conn, p, node, consumed, WithNode(p, node, before), |p.edges|, key);
  }

  lemma {:induction false} BranchesKeepKey(
      g: Graph, conn: Connectivity, p: Pattern, node: nat, consumed: set<nat>, start: Match, n: nat, key: Key)
    requires ConnectivityOk(g, conn, |g|) && node < |g| && n <= |p.edges| && key in start.indices
    requires SearchBranches(g, conn, p, node, consumed, start, n).Some?
    ensures var indices := SearchBranches(g, conn, p, node, consumed, start, n).value.indices;
            && key in indices
            && ((if key.Nth? then key.count < |start.nodes| else key.name != "" && !BranchNames(p, n, key.name)) ==>
                  indices[key] == start.indices[key])
    decreases p, n
  {
    if n != 0 {
      BranchesKeepKey(g, conn, p, node, consumed, start, n - 1, key);
      var m := SearchBranches(g, conn, p, node, consumed, start, n - 1).value;
      var e := p.edges[n - 1];
      var c := Neighbour(g, conn, node, e);
      if c.Some? && Search(g, conn, e.child, c.value, consumed, m).Some? {
        SearchKeepsKey(g, conn, e.child, c.value, consumed, m, key);
      }
    }
  }

  // ----- what the search is bound to find -----

  /**
   The node that an edge leads to, in terms of the graph alone: the last producer of the value; the first consumer of
   the wanted type, if the branch ends there; or else the only consumer of a value that stays inside and is read once.
   */
  ghost predicate LeadsTo(g: Graph, graphOutputs: set<string>, node: nat, e: Edge, c: nat)
    requires node < |g|
  {
    && Linked(g, graphOutputs, node, e, c)
    && match e.dir
       case Upstream => forall d: nat | Produces(g, d, g[node].inputs[e.index]) :: d <= c
       case Downstream =>
         var value := g[node].outputs[e.index];
         if e.child.edges == [] then
           && g[c].opType == e.child.opType
           && forall d: nat | Consumes(g, d, value) && g[d].opType == e.child.opType :: c <= d
         else Readings(g, c, value) == 1
  }

  lemma {:induction false} FirstIsLeast(g: Graph, nodes: seq<nat>, opType: string, c: nat)
    requires forall i | 0 <= i < |nodes| :: nodes[i] < |g|
    requires forall i, j | 0 <= i < j < |nodes| :: nodes[i] <= nodes[j]
    requires c in nodes && g[c].opType == opType && forall d | d in nodes && g[d].opType == opType :: c <= d
    ensures FirstOfType(g, nodes, opType) == Some(c)
  {
    if g[nodes[0]].opType == opType {
      assert nodes[0] in nodes;
      var k :| 0 <= k < |nodes| && nodes[k] == c;
    } else {
      assert forall d | d in nodes[1..] :: d in nodes;
      FirstIsLeast(g, nodes[1..], opType, c);
    }
  }

  lemma SingleReader(consumers: seq<nat>, c: nat)
    requires forall d: nat :: multiset(consumers)[d] == if d == c then 1 else 0
    ensures consumers == [c]
  {
    assert multiset(consumers) == multiset{c};
    assert |consumers| == |multiset(consumers)| == 1;
    assert consumers[0] in multiset(consumers);
  }

  lemma LeadsToNeighbour(g: Graph, conn: Connectivity, node: nat, e: Edge, c: nat)
    requires ConnectivityOk(g, conn, |g|) && node < |g| && LeadsTo(g, conn.graphOutputs, node, e, c)
    ensures Neighbour(g, conn, node, e) == Some(c)
  {
    match e.dir
    case Upstream =>
    case Downstream =>
      var value := g[node].outputs[e.index];
      var consumers := ConsumersIn(conn, value);
      assert ConsumersOk(g, consumers, |g|, value);
      assert c in consumers;
      if e.child.edges == [] {
        forall i | 0 <= i < |consumers|
          ensures consumers[i] < |g|
        {
          assert consumers[i] in consumers;
        }
        FirstIsLeast(g, consumers, e.child.opType, c);
      } else {
        forall d: nat
          ensures multiset(consumers)[d] == if d == c then 1 else 0
        {
          assert d in consumers ==> d == c;
          assert d in consumers <==> d in multiset(consumers);
        }
        SingleReader(consumers, c);
      }
  }

  /** The branch cannot be embedded from where the edge leads. */
  ghost predicate Absent(g: Graph, graphOutputs: set<string>, node: nat, e: Edge)
    requires node < |g|
  {
    forall c, branch | Linked(g, graphOutputs, node, e, c) :: !Embeds(g, graphOutputs, e.child, c, branch)
  }

  /**
   An embedding without a choice: every edge leads to its node, a branch is left out only if it is optional and absent,
   and the checks hold with what has been captured on the way, from `before` to `after`.
   */
  ghost predicate Saturated(g: Graph, graphOutputs: set<string>, p: Pattern, node: nat,
                            before: Captures, list: seq<nat>, after: Captures)
    decreases p, |p.edges| + 1
  {
    && node < |g| && g[node].opType == p.opType && (p.domain == "" || g[node].domain == p.domain)
    && p.check(node, before).ok && list != [] && list[0] == node
    && EdgesSaturated(g, graphOutputs, p, node, |p.edges|, p.check(node, before).captures, list[1..], after)
  }

  ghost predicate EdgesSaturated(g: Graph, graphOutputs: set<string>, p: Pattern, node: nat, n: nat,
                                 before: Captures, list: seq<nat>, after: Captures)
    requires node < |g| && n <= |p.edges|
    decreases p, n
  {
    if n == 0 then list == [] && after == before
    else
      var e := p.edges[n - 1];
      || (e.isOptional && Absent(g, graphOutputs, node, e)
          && EdgesSaturated(g, graphOutputs, p, node, n - 1, before, list, after))
      || exists k, c, mid ::
           && 0 <= k <= |list| && EdgesSaturated(g, graphOutputs, p, node, n - 1, before, list[..k], mid)
           && LeadsTo(g, graphOutputs, node, e, c) && Saturated(g, graphOutputs, e.child, c, mid, list[k..], after)
  }

  lemma {:induction false} SaturatedIsEmbedding(
      g: Graph, graphOutputs: set<string>, p: Pattern, node: nat, before: Captures, list: seq<nat>, after: Captures)
    requires Saturated(g, graphOutputs, p, node, before, list, after)
    ensures Embeds(g, graphOutputs, p, node, list)
    decreases p, |p.edges| + 1
  {
    SaturatedBranches(g, graphOutputs, p, node, |p.edges|, p.check(node, before).captures, list[1..], after);
  }

  lemma {:induction false} SaturatedBranches(
      g: Graph, graphOutputs: set<string>, p: Pattern, node: nat, n: nat,
      before: Captures, list: seq<nat>, after: Captures)
    requires node < |g| && n <= |p.edges| && EdgesSaturated(g, graphOutputs, p, node, n, before, list, after)
    ensures EdgesEmbed(g, graphOutputs, p, node, n, list)
    decreases p, n
  {
    if n != 0 {
      var e := p.edges[n - 1];
      if e.isOptional && EdgesSaturated(g, graphOutputs, p, node, n - 1, before, list, after) {
        SaturatedBranches(g, graphOutputs, p, node, n - 1, before, list, after);
      } else {
        var k, c, mid :| 0 <= k <= |list| && EdgesSaturated(g, graphOutputs, p, node, n - 1, before, list[..k], mid)
                         && LeadsTo(g, graphOutputs, node, e, c)
                         && Saturated(g, graphOutputs, e.child, c, mid, list[k..], after);
        SaturatedBranches(g, graphOutputs, p, node, n - 1, before, list[..k], mid);
        SaturatedIsEmbedding(g, graphOutputs, e.child, c, mid, list[k..], after);
      }
    }
  }

  lemma SaturatedBranch(
      g: Graph, graphOutputs: set<string>, p: Pattern, node: nat, n: nat,
      before: Captures, list: seq<nat>, mid: Captures, c: nat, branch: seq<nat>, after: Captures)
    requires node < |g| && n < |p.edges| && EdgesSaturated(g, graphOutputs, p, node, n, before, list, mid)
    requires LeadsTo(g, graphOutputs, node, p.edges[n], c)
    requires Saturated(g, graphOutputs, p.edges[n].child, c, mid, branch, after)
    ensures EdgesSaturated(g, graphOutputs, p, node, n + 1, before, list + branch, after)
  {
    var all := list + branch;
    assert all[..|list|] == list && all[|list|..] == branch;
  }

  /** What the search has to find: `list`, with what is captured on the way. */
  ghost predicate Finds(r: Option<Match>, before: Match, list: seq<nat>, after: Captures)
  {
    r.Some? && r.value.nodes == before.nodes + list && r.value.captures == after
  }

  /** The search finds every saturated embedding whose nodes are free. */
  lemma {:induction false} SearchIsComplete(
      g: Graph, conn: Connectivity, p: Pattern, node: nat, consumed: set<nat>, before: Match,
      list: seq<nat>, after: Captures)
    requires ConnectivityOk(g, conn, |g|) && Fresh(before.nodes + list, consumed) && Indexed(before)
    requires Saturated(g, conn.graphOutputs, p, node, before.captures, list, after)
    ensures Finds(Search(g, conn, p, node, consumed, before), before, list, after)
    decreases p, |p.edges| + 1
  {
    var start := WithNode(p, node, before);
    assert Admits(g, p, node, consumed, before) && Indexed(start) by {
      assert (before.nodes + list)[|before.nodes|] == node;
      assert forall i | 0 <= i < |before.nodes| :: (before.nodes + list)[i] == before.nodes[i];
    }
    assert start.nodes + list[1..] == before.nodes + list;
    BranchesAreComplete(g, conn, p, node, consumed, start, |p.edges|, list[1..], after);
  }

  lemma {:induction false} BranchesAreComplete(
      g: Graph, conn: Connectivity, p: Pattern, node: nat, consumed: set<nat>, start: Match, n: nat,
      list: seq<nat>, after: Captures)
    requires ConnectivityOk(g, conn, |g|) && node < |g| && n <= |p.edges|
    requires Fresh(start.nodes + list, consumed) && Indexed(start)
    requires EdgesSaturated(g, conn.graphOutputs, p, node, n, start.captures, list, after)
    ensures Finds(SearchBranches(g, conn, p, node, consumed, start, n), start, list, after)
    decreases p, n
  {
    if n == 0 {
      assert start.nodes + [] == start.nodes;
    } else {
      hide ConnectivityOk, Fresh, Indexed, Absent, LeadsTo, Saturated, Neighbour, Embeds, EdgesEmbed, Search;
      var e, outputs := p.edges[n - 1], conn.graphOutputs;
      if e.isOptional && Absent(g, outputs, node, e)
         && EdgesSaturated(g, outputs, p, node, n - 1, start.captures, list, after) {
        BranchesAreComplete(g, conn, p, node, consumed, start, n - 1, list, after);
        AbsentIsNotFound(g, conn, p, node, consumed, start, n, list);
      } else {
        var k, c, mid :| 0 <= k <= |list| && EdgesSaturated(g, outputs, p, node, n - 1, start.captures, list[..k], mid)
                         && LeadsTo(g, outputs, node, e, c) && Saturated(g, outputs, e.child, c, mid, list[k..], after);
        SplitFresh(start.nodes, list, k, consumed);
        BranchesAreComplete(g, conn, p, node, consumed, start, n - 1, list[..k], mid);
        var m := SearchBranches(g, conn, p, node, consumed, start, n - 1).value;
        BranchesFind(g, conn, p, node, consumed, start, n - 1);
        LeadsToNeighbour(g, conn, node, e, c);
        SearchIsComplete(g, conn, e.child, c, consumed, m, list[k..], after);
      }
    }
  }

  lemma SplitFresh(nodes: seq<nat>, list: seq<nat>, k: nat, consumed: set<nat>)
    requires k <= |list| && Fresh(nodes + list, consumed)
    ensures nodes + list == (nodes + list[..k]) + list[k..]
    ensures Fresh(nodes, consumed) && Fresh(nodes + list[..k], consumed)
    ensures Fresh((nodes + list[..k]) + list[k..], consumed)
  {
    assert nodes + list == (nodes + list[..k]) + list[k..];
    FreshPrefix(nodes, list, consumed);
    FreshPrefix(nodes + list[..k], list[k..], consumed);
  }

  lemma FreshPrefix(nodes: seq<nat>, more: seq<nat>, consumed: set<nat>)
    requires Fresh(nodes + more, consumed)
    ensures Fresh(nodes, consumed)
  {
    assert forall i | 0 <= i < |nodes| :: (nodes + more)[i] == nodes[i];
  }

  /** A branch that cannot be embedded is not found. */
  lemma AbsentIsNotFound(
      g: Graph, conn: Connectivity, p: Pattern, node: nat, consumed: set<nat>, start: Match, n: nat, list: seq<nat>)
    requires ConnectivityOk(g, conn, |g|) && node < |g| && 0 < n <= |p.edges|
    requires Fresh(start.nodes + list, consumed) && Indexed(start) && Absent(g, conn.graphOutputs, node, p.edges[n - 1])
    requires var r := SearchBranches(g, conn, p, node, consumed, start, n - 1);
             r.Some? && r.value.nodes == start.nodes + list
    ensures p.edges[n - 1].isOptional ==>
              SearchBranches(g, conn, p, node, consumed, start, n)
              == SearchBranches(g, conn, p, node, consumed, start, n - 1)
  {
    var e := p.edges[n - 1];
    FreshPrefix(start.nodes, list, consumed);
    BranchesFind(g, conn, p, node, consumed, start, n - 1);
    var m := SearchBranches(g, conn, p, node, consumed, start, n - 1).value;
    var c := Neighbour(g, conn, node, e);
    if c.Some? {
      NeighbourIsLinked(g, conn, node, e);
      if Search(g, conn, e.child, c.value, consumed, m).Some? {
        SearchFinds(g, conn, e.child, c.value, consumed, m);
        assert false;
      }
    }
  }

  // ----- patterns without optional branches -----

  predicate Mandatory(p: Pattern)
  {
    forall i | 0 <= i < |p.edges| :: !p.edges[i].isOptional && Mandatory(p.edges[i].child)
  }

  /** The checks do not depend on what has been captured before. */
  ghost predicate Steady(p: Pattern)
  {
    && (forall node, c, d :: p.check(node, c).ok == p.check(node, d).ok)
    && forall i | 0 <= i < |p.edges| :: Steady(p.edges[i].child)
  }

  ghost predicate OneProducer(g: Graph)
  {
    forall p, q, name | Produces(g, p, name) && Produces(g, q, name) :: p == q
  }

  /**
   No value has two consumers of the type at which a downstream branch ends, and none is read twice by a node of a type
   at which one goes on.
   */
  ghost predicate Clear(g: Graph, p: Pattern)
  {
    forall i | 0 <= i < |p.edges| ::
      && (p.edges[i].dir.Downstream? ==>
            if p.edges[i].child.edges == [] then OneConsumer(g, p.edges[i].child.opType)
            else ReadOnce(g, p.edges[i].child.opType))
      && Clear(g, p.edges[i].child)
  }

  ghost predicate OneConsumer(g: Graph, opType: string)
  {
    forall c: nat, d: nat, name |
      Consumes(g, c, name) && Consumes(g, d, name) && g[c].opType == g[d].opType == opType :: c == d
  }

  ghost predicate ReadOnce(g: Graph, opType: string)
  {
    forall c: nat, name | c < |g| && g[c].opType == opType :: Readings(g, c, name) <= 1
  }

  lemma LinkLeads(g: Graph, graphOutputs: set<string>, p: Pattern, node: nat, i: nat, c: nat)
    requires OneProducer(g) && Clear(g, p) && node < |g| && i < |p.edges|
    requires Linked(g, graphOutputs, node, p.edges[i], c) && g[c].opType == p.edges[i].child.opType
    ensures LeadsTo(g, graphOutputs, node, p.edges[i], c)
  {
    var e := p.edges[i];
    if e.dir.Downstream? && e.child.edges != [] {
      var value := g[node].outputs[e.index];
      assert value in multiset(g[c].inputs);
    }
  }

  lemma {:induction false} EmbeddingIsSaturated(
      g: Graph, graphOutputs: set<string>, p: Pattern, node: nat, list: seq<nat>, before: Captures)
    returns (after: Captures)
    requires Mandatory(p) && Steady(p) && OneProducer(g) && Clear(g, p) && Embeds(g, graphOutputs, p, node, list)
    ensures Saturated(g, graphOutputs, p, node, before, list, after)
    decreases p, |p.edges| + 1
  {
    var captures :| p.check(node, captures).ok;
    assert p.check(node, before).ok;
    after := BranchesAreSaturated(g, graphOutputs, p, node, |p.edges|, list[1..], p.check(node, before).captures);
  }

  lemma {:induction false} BranchesAreSaturated(
      g: Graph, graphOutputs: set<string>, p: Pattern, node: nat, n: nat, list: seq<nat>, before: Captures)
    returns (after: Captures)
    requires Mandatory(p) && Steady(p) && OneProducer(g) && Clear(g, p) && node < |g| && n <= |p.edges|
    requires EdgesEmbed(g, graphOutputs, p, node, n, list)
    ensures EdgesSaturated(g, graphOutputs, p, node, n, before, list, after)
    decreases p, n
  {
    if n == 0 {
      after := before;
    } else {
      var e := p.edges[n - 1];
      var k, c :| 0 <= k <= |list| && EdgesEmbed(g, graphOutputs, p, node, n - 1, list[..k])
                  && Linked(g, graphOutputs, node, e, c) && Embeds(g, graphOutputs, e.child, c, list[k..]);
      var mid := BranchesAreSaturated(g, graphOutputs, p, node, n - 1, list[..k], before);
      LinkLeads(g, graphOutputs, p, node, n - 1, c);
      after := EmbeddingIsSaturated(g, graphOutputs, e.child, c, list[k..], mid);
    }
  }

  /**
   For a pattern without optional branches, in a graph where no edge of it has two ends to choose from, the search
   succeeds exactly if there is an embedding of free nodes, and there is at most one.
   */
  lemma MandatoryIsFoundIff(g: Graph, conn: Connectivity, p: Pattern, node: nat, consumed: set<nat>)
    requires ConnectivityOk(g, conn, |g|) && Mandatory(p) && Steady(p) && OneProducer(g) && Clear(g, p)
    ensures var r := Search(g, conn, p, node, consumed, EMPTY_MATCH);
            && (r.Some? <==> exists list :: Embeds(g, conn.graphOutputs, p, node, list) && Fresh(list, consumed))
            && forall list | Embeds(g, conn.graphOutputs, p, node, list) && Fresh(list, consumed) ::
                 r.Some? && r.value.nodes == list
  {
    hide Search, Embeds, Saturated, ConnectivityOk;
    var r := Search(g, conn, p, node, consumed, EMPTY_MATCH);
    forall list | Embeds(g, conn.graphOutputs, p, node, list) && Fresh(list, consumed)
      ensures r.Some? && r.value.nodes == list
    {
      var after := EmbeddingIsSaturated(g, conn.graphOutputs, p, node, list, NO_CAPTURES);
      assert [] + list == list;
      SearchIsComplete(g, conn, p, node, consumed, EMPTY_MATCH, list, after);
    }
    if r.Some? {
      SearchFinds(g, conn, p, node, consumed, EMPTY_MATCH);
      assert r.value.nodes[0..] == r.value.nodes;
    }
  }

  // ----- the matcher -----

  method Follow(g: Graph, conn: Connectivity, node: nat, e: Edge) returns (c: Option<nat>)
    requires ConnectivityOk(g, conn, |g|) && node < |g|
    ensures c == Neighbour(g, conn, node, e)
    ensures c.Some? ==> Linked(g, conn.graphOutputs, node, e, c.value)
  {
    hide ConnectivityOk, Linked;
    if Neighbour(g, conn, node, e).Some? {
      NeighbourIsLinked(g, conn, node, e);
    }
    if e.dir.Upstream? {
      if e.index >= |g[node].inputs| || g[node].inputs[e.index] !in conn.producers {
        return None;
      }
      return Some(conn.producers[g[node].inputs[e.index]]);
    }
    if e.index >= |g[node].outputs| {
      return None;
    }
    var value := g[node].outputs[e.index];
    var consumers := ConsumersIn(conn, value);
    var terminal := e.child.edges == [];
    if !terminal && (value in conn.graphOutputs || |consumers| != 1) {
      return None;
    }
    if !terminal {
      return Some(consumers[0]);
    }
    ConsumersInGraph(g, conn, value);
    for k := 0 to |consumers|
      invariant forall i | 0 <= i < |consumers[k..]| :: consumers[k..][i] < |g|
      invariant FirstOfType(g, consumers, e.child.opType) == FirstOfType(g, consumers[k..], e.child.opType)
    {
      if g[consumers[k]].opType == e.child.opType {
        return Some(consumers[k]);
      }
    }
    return None;
  }

  lemma ExtendsTwice(a: Match, b: Match, c: Match)
    requires Extends(a, b) && Extends(b, c)
    ensures Extends(a, c)
  {
    assert c.nodes[..|a.nodes|] == c.nodes[..|b.nodes|][..|a.nodes|];
  }

  lemma ExtendsUndone(before: Match, start: Match, m: Match, r: Match, node: nat, key: Key)
    requires start.nodes == before.nodes + [node] && Extends(start, m) && Extends(m, r)
    ensures r.nodes != [] && Extends(before, Undo(r, key))
  {
    ExtendsTwice(start, m, r);
    var n := |before.nodes|;
    assert r.nodes[..|r.nodes| - 1][..n] == r.nodes[..n + 1][..n] == start.nodes[..n];
  }

  function Undo(m: Match, key: Key): Match
    requires m.nodes != []
  {
    m.(nodes := m.nodes[..|m.nodes| - 1], indices := m.indices - {key})
  }

  /**
   Matches the pattern at `node`: succeeds exactly if the greedy search does, with the same result. A failure may
   leave nodes of completed branches behind, since undoing removes the last node only, but it never cuts into what was
   there before.
   */
  method MatchNode(g: Graph, conn: Connectivity, p: Pattern, node: nat, consumed: set<nat>, before: Match)
    returns (ok: bool, m: Match)
    requires ConnectivityOk(g, conn, |g|)
    ensures Extends(before, m)
    ensures ok <==> Search(g, conn, p, node, consumed, before).Some?
    ensures ok ==> Search(g, conn, p, node, consumed, before) == Some(m)
    decreases p
  {
    hide ConnectivityOk, Neighbour;
    m := before;
    if node >= |g| || node in consumed || node in before.nodes {
      return false, m;
    }
    if g[node].opType != p.opType || (p.domain != "" && g[node].domain != p.domain) {
      return false, m;
    }
    var key := KeyOf(p, |before.nodes|);
    var checked := p.check(node, before.captures);
    m := m.(captures := checked.captures);
    if !checked.ok {
      return false, m;
    }
    m := m.(indices := m.indices[key := node], nodes := m.nodes + [node]);
    var start := m;
    assert Search(g, conn, p, node, consumed, before) == SearchBranches(g, conn, p, node, consumed, start, |p.edges|);
    hide Search;
    for i := 0 to |p.edges|
      invariant Extends(start, m) && SearchBranches(g, conn, p, node, consumed, start, i) == Some(m)
    {
      var e := p.edges[i];
      var c := Follow(g, conn, node, e);
      var found, r := false, m;
      if c.Some? {
        found, r := MatchNode(g, conn, e.child, c.value, consumed, m);
      }
      if !found && !e.isOptional {
        BranchesStayFailed(g, conn, p, node, consumed, start, i + 1, |p.edges|);
        ExtendsUndone(before, start, m, r, node, key);
        return false, Undo(r, key);
      }
      if found && (!e.isOptional || |r.nodes| > |m.nodes|) {
        ExtendsTwice(start, m, r);
        m := r;
      }
    }
    ok := true;
  }

  /**
   Matches the pattern at an anchor. What is found is an embedding of free nodes, and every embedding of free nodes that
   leaves no choice is found, with what its checks capture.
   */
  method MatchPattern(g: Graph, conn: Connectivity, p: Pattern, anchor: nat, consumed: set<nat>)
    returns (ok: bool, m: Match)
    requires ConnectivityOk(g, conn, |g|)
    ensures Search(g, conn, p, anchor, consumed, EMPTY_MATCH) == if ok then Some(m) else None
    ensures ok ==> Embeds(g, conn.graphOutputs, p, anchor, m.nodes) && Fresh(m.nodes, consumed)
    ensures forall list, after |
              Fresh(list, consumed) && Saturated(g, conn.graphOutputs, p, anchor, NO_CAPTURES, list, after) ::
              ok && m.nodes == list && m.captures == after
  {
    hide Search, Embeds, Saturated, ConnectivityOk;
    ok, m := MatchNode(g, conn, p, anchor, consumed, EMPTY_MATCH);
    if ok {
      SearchFinds(g, conn, p, anchor, consumed, EMPTY_MATCH);
      assert m.nodes[0..] == m.nodes;
    }
    forall list, after |
      Fresh(list, consumed) && Saturated(g, conn.graphOutputs, p, anchor, NO_CAPTURES, list, after)
      ensures ok && m.nodes == list && m.captures == after
    {
      assert [] + list == list;
      SearchIsComplete(g, conn, p, anchor, consumed, EMPTY_MATCH, list, after);
    }
  }
}
