/**
 The greedy pass over the graph that fuses what the pattern matcher finds. Matched nodes that others read stay outside
 the fused subgraph, and that is where a fused subgraph can stop being convex.
 */
module FusionPass {
  import opened Common
  import opened FusionMatching

  // ----- which matched nodes are fused -----

  predicate Edge(g: Graph, a: nat, b: nat)
    requires a < |g|
  {
    exists o :: 0 <= o < |g[a].outputs| && Consumes(g, b, g[a].outputs[o])
  }

  ghost predicate Topological(g: Graph)
  {
    forall a: nat, b: nat | a < |g| && Edge(g, a, b) :: a < b
  }

  /** No output is read by another node of the match. */
  ghost predicate Terminal(g: Graph, matched: seq<nat>, v: nat)
    requires v < |g|
  {
    forall c | c in matched && Edge(g, v, c) :: c == v
  }

  /** An output leaves the graph, or is read outside the match or by a node that is already fused. */
  ghost predicate External(g: Graph, graphOutputs: set<string>, matched: seq<nat>, consumed: set<nat>, v: nat)
    requires v < |g|
  {
    || (exists o :: 0 <= o < |g[v].outputs| && g[v].outputs[o] in graphOutputs)
    || (exists c: nat :: Edge(g, v, c) && (c !in matched || c in consumed))
  }

  ghost predicate Kept(g: Graph, graphOutputs: set<string>, matched: seq<nat>, consumed: set<nat>, anchor: nat, v: nat)
    requires v < |g|
  {
    v == anchor || Terminal(g, matched, v) || !External(g, graphOutputs, matched, consumed, v)
  }

  method IsTerminal(g: Graph, conn: Connectivity, matched: seq<nat>, v: nat) returns (terminal: bool)
    requires ConnectivityOk(g, conn, |g|) && v < |g|
    ensures terminal <==> Terminal(g, matched, v)
  {
    for o := 0 to |g[v].outputs|
      invariant forall p, c: nat | 0 <= p < o && c in matched && Consumes(g, c, g[v].outputs[p]) :: c == v
    {
      var consumers := ConsumersIn(conn, g[v].outputs[o]);
      for k := 0 to |consumers|
        invariant forall j | 0 <= j < k && consumers[j] in matched :: consumers[j] == v
      {
        if consumers[k] in matched && consumers[k] != v {
          assert consumers[k] in consumers;
          assert Edge(g, v, consumers[k]);
          return false;
        }
      }
    }
    return true;
  }

  method HasExternalConsumer(g: Graph, conn: Connectivity, matched: seq<nat>, consumed: set<nat>, v: nat)
    returns (external: bool)
    requires ConnectivityOk(g, conn, |g|) && v < |g|
    ensures external <==> External(g, conn.graphOutputs, matched, consumed, v)
  {
    for o := 0 to |g[v].outputs|
      invariant forall p | 0 <= p < o :: g[v].outputs[p] !in conn.graphOutputs
      invariant forall p, c: nat | 0 <= p < o && Consumes(g, c, g[v].outputs[p]) :: c in matched && c !in consumed
    {
      if g[v].outputs[o] in conn.graphOutputs {
        return true;
      }
      var consumers := ConsumersIn(conn, g[v].outputs[o]);
      for k := 0 to |consumers|
        invariant forall j | 0 <= j < k :: consumers[j] in matched && consumers[j] !in consumed
      {
        if consumers[k] !in matched || consumers[k] in consumed {
          assert consumers[k] in consumers;
          assert Edge(g, v, consumers[k]);
          return true;
        }
      }
    }
    return false;
  }

  /** The nodes of a match that are fused, in the order they were matched. */
  ghost function KeptNodes(
      g: Graph, graphOutputs: set<string>, matched: seq<nat>, consumed: set<nat>, anchor: nat, n: nat): seq<nat>
    requires n <= |matched| && forall v | v in matched :: v < |g|
  {
    if n == 0 then []
    else
      assert matched[n - 1] in matched;
      KeptNodes(g, graphOutputs, matched, consumed, anchor, n - 1)
        + if Kept(g, graphOutputs, matched, consumed, anchor, matched[n - 1]) then [matched[n - 1]] else []
  }

  lemma {:induction false} KeptNodesAreKept(
      g: Graph, graphOutputs: set<string>, matched: seq<nat>, consumed: set<nat>, anchor: nat, n: nat)
    requires n <= |matched| && Fresh(matched, consumed) && forall v | v in matched :: v < |g|
    ensures var kept := KeptNodes(g, graphOutputs, matched, consumed, anchor, n);
            && Fresh(kept, consumed)
            && forall v :: v in kept <==>
                 v in matched && v in matched[..n] && Kept(g, graphOutputs, matched, consumed, anchor, v)
  {
    hide Kept, Fresh;
    if n == 0 {
      NoneFresh(consumed);
    } else {
      var kept, v := KeptNodes(g, graphOutputs, matched, consumed, anchor, n - 1), matched[n - 1];
      KeptNodesAreKept(g, graphOutputs, matched, consumed, anchor, n - 1);
      NextMatched(matched, consumed, n);
      AppendFresh(kept, v, consumed);
      if Kept(g, graphOutputs, matched, consumed, anchor, v) {
        assert KeptNodes(g, graphOutputs, matched, consumed, anchor, n) == kept + [v];
      } else {
        assert KeptNodes(g, graphOutputs, matched, consumed, anchor, n) == kept;
      }
    }
  }

  lemma NoneFresh(consumed: set<nat>)
    ensures Fresh([], consumed)
  {
  }

  lemma NextMatched(matched: seq<nat>, consumed: set<nat>, n: nat)
    requires 0 < n <= |matched| && Fresh(matched, consumed)
    ensures var v := matched[n - 1];
            && v in matched && v !in matched[..n - 1] && v !in consumed
            && forall w :: w in matched[..n] <==> w in matched[..n - 1] || w == v
  {
    assert matched[..n] == matched[..n - 1] + [matched[n - 1]];
  }

  lemma AppendFresh(nodes: seq<nat>, v: nat, consumed: set<nat>)
    requires Fresh(nodes, consumed) && v !in nodes && v !in consumed
    ensures Fresh(nodes + [v], consumed)
  {
  }

  method KeepNodes(g: Graph, conn: Connectivity, matched: seq<nat>, consumed: set<nat>, anchor: nat)
    returns (kept: seq<nat>)
    requires ConnectivityOk(g, conn, |g|) && Fresh(matched, consumed) && forall v | v in matched :: v < |g|
    ensures kept == KeptNodes(g, conn.graphOutputs, matched, consumed, anchor, |matched|)
    ensures Fresh(kept, consumed)
    ensures forall v :: v in kept <==> v in matched && Kept(g, conn.graphOutputs, matched, consumed, anchor, v)
  {
    hide Terminal, External;
    kept := [];
    for i := 0 to |matched|
      invariant kept == KeptNodes(g, conn.graphOutputs, matched, consumed, anchor, i)
    {
      var v := matched[i];
      assert v in matched;
      if v == anchor {
        kept := kept + [v];
        continue;
      }
      var terminal := IsTerminal(g, conn, matched, v);
      if terminal {
        kept := kept + [v];
        continue;
      }
      var external := HasExternalConsumer(g, conn, matched, consumed, v);
      if !external {
        kept := kept + [v];
      }
    }
    KeptNodesAreKept(g, conn.graphOutputs, matched, consumed, anchor, |matched|);
    assert matched[..|matched|] == matched;
  }

  // ----- the pass -----

  /** Fused groups are disjoint, supported and avoid the excluded nodes. */
  ghost predicate FusionsOk(fused: seq<seq<nat>>, supported: set<nat>, excluded: set<nat>)
  {
    && (forall k, v | 0 <= k < |fused| && v in fused[k] :: v in supported && v !in excluded)
    && (forall k, p, q | 0 <= k < |fused| && 0 <= p < q < |fused[k]| :: fused[k][p] != fused[k][q])
    && (forall j, k, v | 0 <= j < k < |fused| && v in fused[j] :: v !in fused[k])
  }

  /**
   The patterns by the operator of their anchor, the rules' own checks on a match, the runtime's answer to a group, and
   which nodes may be fused.
   */
  datatype Rules = Rules(
    index: map<string, Pattern>, accepts: Match -> bool, added: seq<nat> -> bool, supported: set<nat>,
    excluded: set<nat>)

  ghost predicate Eligible(rules: Rules, nodes: seq<nat>)
  {
    forall v | v in nodes :: v in rules.supported && v !in rules.excluded
  }

  /** `group` is what is kept of an accepted embedding of the pattern for its anchor's operator, and was added. */
  ghost predicate FromMatch(
      g: Graph, graphOutputs: set<string>, rules: Rules, group: seq<nat>, anchor: nat, m: Match, consumed: set<nat>)
  {
    && anchor < |g| && g[anchor].opType in rules.index && rules.accepts(m) && 2 <= |group| && rules.added(group)
    && Eligible(rules, m.nodes) && (forall v | v in m.nodes :: v < |g| && v !in consumed)
    && Embeds(g, graphOutputs, rules.index[g[anchor].opType], anchor, m.nodes)
    && forall v :: v in group <==> v in m.nodes && Kept(g, graphOutputs, m.nodes, consumed, anchor, v)
  }

  /** Every group comes from a match of nodes that no group before it has. */
  ghost predicate AllFromMatches(g: Graph, graphOutputs: set<string>, rules: Rules, fused: seq<seq<nat>>)
  {
    forall k | 0 <= k < |fused| :: FromSomeMatch(g, graphOutputs, rules, fused[k], Nodes(fused[..k]))
  }

  ghost predicate FromSomeMatch(g: Graph, graphOutputs: set<string>, rules: Rules, group: seq<nat>, consumed: set<nat>)
  {
    exists anchor: nat, m :: FromMatch(g, graphOutputs, rules, group, anchor, m, consumed)
  }

  /** What is fused at `anchor` when `consumed` has been fused before; nothing if something speaks against it. */
  ghost function GroupAt(g: Graph, conn: Connectivity, rules: Rules, anchor: nat, consumed: set<nat>): seq<nat>
    requires ConnectivityOk(g, conn, |g|) && anchor < |g|
  {
    if anchor in consumed || g[anchor].opType !in rules.index then []
    else
      var m := Search(g, conn, rules.index[g[anchor].opType], anchor, consumed, EMPTY_MATCH);
      if m.None? || !rules.accepts(m.value) || !Eligible(rules, m.value.nodes) then []
      else
        SearchInGraph(g, conn, rules.index[g[anchor].opType], anchor, consumed);
        KeptNodes(g, conn.graphOutputs, m.value.nodes, consumed, anchor, |m.value.nodes|)
  }

  lemma SearchInGraph(g: Graph, conn: Connectivity, p: Pattern, anchor: nat, consumed: set<nat>)
    requires ConnectivityOk(g, conn, |g|) && Search(g, conn, p, anchor, consumed, EMPTY_MATCH).Some?
    ensures var nodes := Search(g, conn, p, anchor, consumed, EMPTY_MATCH).value.nodes;
            && Fresh(nodes, consumed) && Embeds(g, conn.graphOutputs, p, anchor, nodes)
            && forall v | v in nodes :: v < |g|
  {
    hide Search, Embeds, Fresh;
    SearchFinds(g, conn, p, anchor, consumed, EMPTY_MATCH) by {
      NoneFresh(consumed);
    }
    var m := Search(g, conn, p, anchor, consumed, EMPTY_MATCH).value;
    assert m.nodes[0..] == m.nodes;
    EmbeddingInGraph(g, conn.graphOutputs, p, anchor, m.nodes);
  }

  /** The anchor was passed over: there was nothing to fuse at its turn, or the runtime did not take it. */
  ghost predicate Declined(g: Graph, conn: Connectivity, rules: Rules, anchor: nat, consumed: set<nat>)
    requires ConnectivityOk(g, conn, |g|)
  {
    anchor < |g| ==>
      var group := GroupAt(g, conn, rules, anchor, consumed);
      |group| < 2 || !rules.added(group)
  }

  ghost function Nodes(fused: seq<seq<nat>>): set<nat>
  {
    set k, v | 0 <= k < |fused| && v in fused[k] :: v
  }

  /** The groups of the first `n` anchors: each is tried once, given what the anchors before it have fused. */
  ghost function FusedBefore(g: Graph, conn: Connectivity, rules: Rules, n: nat): seq<seq<nat>>
    requires ConnectivityOk(g, conn, |g|) && n <= |g|
  {
    if n == 0 then []
    else
      var before := FusedBefore(g, conn, rules, n - 1);
      var group := GroupAt(g, conn, rules, n - 1, Nodes(before));
      if 2 <= |group| && rules.added(group) then before + [group] else before
  }

  /** Every node among the first `n` that was not fused was declined at its turn. */
  ghost predicate AllTried(g: Graph, conn: Connectivity, rules: Rules, fusedNodes: set<nat>, n: nat)
    requires ConnectivityOk(g, conn, |g|) && n <= |g|
  {
    forall anchor: nat | anchor < n && anchor !in fusedNodes ::
      Declined(g, conn, rules, anchor, Nodes(FusedBefore(g, conn, rules, anchor)))
  }

  /** The claims are the nodes passed on for fusing. */
  method ApplyFusions(g: Graph, graphOutputs: set<string>, rules: Rules)
    returns (claims: multiset<nat>, fusedNodes: set<nat>, ghost fused: seq<seq<nat>>, ghost conn: Connectivity)
    ensures FusionsOk(fused, rules.supported, rules.excluded)
    ensures fusedNodes == Nodes(fused) && claims == multiset(fusedNodes)
    ensures AllFromMatches(g, graphOutputs, rules, fused)
    ensures ConnectivityOk(g, conn, |g|) && conn.graphOutputs == graphOutputs
    ensures fused == FusedBefore(g, conn, rules, |g|)
    ensures AllTried(g, conn, rules, fusedNodes, |g|)
  {
    claims, fusedNodes, fused := multiset{}, {}, [];
    var maps := BuildConnectivity(g, graphOutputs);
    conn := maps;
    hide *;
    NothingFused(g, maps, rules);
    for anchor := 0 to |g|
      invariant PassInv(g, graphOutputs, rules, claims, fusedNodes, fused)
      invariant fused == FusedBefore(g, maps, rules, anchor)
      invariant AllTried(g, maps, rules, fusedNodes, anchor)
    {
      NodesAreFused(g, graphOutputs, rules, claims, fusedNodes, fused);
      var group := [];
      if anchor !in fusedNodes && g[anchor].opType in rules.index {
        group := FuseAt(g, maps, rules, anchor, fusedNodes);
      }
      NothingToFuse(g, maps, rules, anchor, fusedNodes);
      ghost var before := fusedNodes;
      if 2 <= |group| && rules.added(group) {
        GroupAdded(g, maps, rules, claims, fused, group, anchor);
        claims, fusedNodes, fused := claims + multiset(group), fusedNodes + Elements(group), fused + [group];
      }
      Tried(g, maps, rules, before, fusedNodes, group, anchor);
      NextFused(g, maps, rules, anchor);
    }
    NodesAreFused(g, graphOutputs, rules, claims, fusedNodes, fused);
  }

  ghost predicate PassInv(g: Graph, graphOutputs: set<string>, rules: Rules,
                          claims: multiset<nat>, fusedNodes: set<nat>, fused: seq<seq<nat>>)
  {
    && FusionsOk(fused, rules.supported, rules.excluded)
    && fusedNodes == Nodes(fused) && claims == multiset(fusedNodes)
    && AllFromMatches(g, graphOutputs, rules, fused)
  }

  lemma NothingFused(g: Graph, conn: Connectivity, rules: Rules)
    requires ConnectivityOk(g, conn, |g|)
    ensures PassInv(g, conn.graphOutputs, rules, multiset{}, {}, [])
    ensures AllTried(g, conn, rules, {}, 0)
    ensures FusedBefore(g, conn, rules, 0) == []
  {
  }

  lemma NextFused(g: Graph, conn: Connectivity, rules: Rules, n: nat)
    requires ConnectivityOk(g, conn, |g|) && n < |g|
    ensures var before := FusedBefore(g, conn, rules, n);
            var group := GroupAt(g, conn, rules, n, Nodes(before));
            FusedBefore(g, conn, rules, n + 1)
            == if 2 <= |group| && rules.added(group) then before + [group] else before
  {
    hide ConnectivityOk, GroupAt, Nodes;
  }

  lemma NodesAreFused(g: Graph, graphOutputs: set<string>, rules: Rules, claims: multiset<nat>, fusedNodes: set<nat>,
                      fused: seq<seq<nat>>)
    requires PassInv(g, graphOutputs, rules, claims, fusedNodes, fused)
    ensures FusionsOk(fused, rules.supported, rules.excluded) && AllFromMatches(g, graphOutputs, rules, fused)
    ensures fusedNodes == Nodes(fused) && claims == multiset(fusedNodes)
  {
  }

  lemma NothingToFuse(g: Graph, conn: Connectivity, rules: Rules, anchor: nat, consumed: set<nat>)
    requires ConnectivityOk(g, conn, |g|) && anchor < |g|
    ensures anchor in consumed || g[anchor].opType !in rules.index ==> GroupAt(g, conn, rules, anchor, consumed) == []
  {
  }

  /** One more anchor: if its group was not added, it was declined. */
  lemma Tried(g: Graph, conn: Connectivity, rules: Rules, before: set<nat>, after: set<nat>, group: seq<nat>,
              anchor: nat)
    requires ConnectivityOk(g, conn, |g|) && anchor < |g|
    requires AllTried(g, conn, rules, before, anchor)
    requires before == Nodes(FusedBefore(g, conn, rules, anchor))
    requires group == GroupAt(g, conn, rules, anchor, before)
    requires after == if 2 <= |group| && rules.added(group) then before + Elements(group) else before
    ensures AllTried(g, conn, rules, after, anchor + 1)
  {
    hide GroupAt, ConnectivityOk, FusedBefore, Nodes;
    GroupIsMatched(g, conn, rules, anchor, before);
  }

  /** A group contains its anchor, and is what is kept of the match that the search finds. */
  lemma GroupIsMatched(g: Graph, conn: Connectivity, rules: Rules, anchor: nat, consumed: set<nat>)
    requires ConnectivityOk(g, conn, |g|) && anchor < |g|
    ensures var group := GroupAt(g, conn, rules, anchor, consumed);
            group != [] ==>
              && anchor in group && Fresh(group, consumed) && Eligible(rules, group)
              && (2 <= |group| && rules.added(group) ==>
                    FromSomeMatch(g, conn.graphOutputs, rules, group, consumed))
  {
    hide Search, Embeds, ConnectivityOk, Kept, Fresh;
    var group := GroupAt(g, conn, rules, anchor, consumed);
    if group != [] {
      var p := rules.index[g[anchor].opType];
      var m := Search(g, conn, p, anchor, consumed, EMPTY_MATCH).value;
      SearchInGraph(g, conn, p, anchor, consumed);
      EmbeddingStarts(g, conn.graphOutputs, p, anchor, m.nodes);
      FreshAvoids(m.nodes, consumed);
      KeptNodesAreKept(g, conn.graphOutputs, m.nodes, consumed, anchor, |m.nodes|);
      assert m.nodes[..|m.nodes|] == m.nodes;
      AnchorIsKept(g, conn.graphOutputs, m.nodes, consumed, anchor);
      assert 2 <= |group| && rules.added(group) ==>
             FromMatch(g, conn.graphOutputs, rules, group, anchor, m, consumed);
    }
  }

  lemma EmbeddingStarts(g: Graph, graphOutputs: set<string>, p: Pattern, node: nat, list: seq<nat>)
    requires Embeds(g, graphOutputs, p, node, list)
    ensures node in list
  {
    hide EdgesEmbed;
    assert list[0] == node;
  }

  lemma AnchorIsKept(g: Graph, graphOutputs: set<string>, matched: seq<nat>, consumed: set<nat>, anchor: nat)
    requires anchor < |g|
    ensures Kept(g, graphOutputs, matched, consumed, anchor, anchor)
  {
  }

  lemma FreshAvoids(nodes: seq<nat>, consumed: set<nat>)
    requires Fresh(nodes, consumed)
    ensures forall v | v in nodes :: v !in consumed
  {
  }

  /** The nodes to fuse around an anchor; none if nothing matches or something speaks against it. */
  method FuseAt(g: Graph, conn: Connectivity, rules: Rules, anchor: nat, consumed: set<nat>) returns (group: seq<nat>)
    requires ConnectivityOk(g, conn, |g|) && anchor < |g| && anchor !in consumed && g[anchor].opType in rules.index
    ensures group == GroupAt(g, conn, rules, anchor, consumed)
  {
    hide Search, Embeds, ConnectivityOk, KeptNodes, Kept, Saturated;
    var p := rules.index[g[anchor].opType];
    var ok, m := MatchPattern(g, conn, p, anchor, consumed);
    if !ok || !rules.accepts(m) {
      return [];
    }
    SearchInGraph(g, conn, p, anchor, consumed);
    for i := 0 to |m.nodes|
      invariant forall j | 0 <= j < i :: m.nodes[j] in rules.supported && m.nodes[j] !in rules.excluded
    {
      if m.nodes[i] in rules.excluded || m.nodes[i] !in rules.supported {
        assert m.nodes[i] in m.nodes;
        return [];
      }
    }
    group := KeepNodes(g, conn, m.nodes, consumed, anchor);
  }

  lemma {:induction false} EmbeddingInGraph(g: Graph, graphOutputs: set<string>, p: Pattern, node: nat, list: seq<nat>)
    requires Embeds(g, graphOutputs, p, node, list)
    ensures forall v | v in list :: v < |g|
    decreases p, |p.edges| + 1
  {
    BranchesInGraph(g, graphOutputs, p, node, |p.edges|, list[1..]);
    assert list == [node] + list[1..];
  }

  lemma {:induction false} BranchesInGraph(
      g: Graph, graphOutputs: set<string>, p: Pattern, node: nat, n: nat, list: seq<nat>)
    requires node < |g| && n <= |p.edges| && EdgesEmbed(g, graphOutputs, p, node, n, list)
    ensures forall v | v in list :: v < |g|
    decreases p, n
  {
    if n == 0 {
    } else if p.edges[n - 1].isOptional && EdgesEmbed(g, graphOutputs, p, node, n - 1, list) {
      BranchesInGraph(g, graphOutputs, p, node, n - 1, list);
    } else {
      var e := p.edges[n - 1];
      var k, c :| 0 <= k <= |list| && EdgesEmbed(g, graphOutputs, p, node, n - 1, list[..k])
                  && Linked(g, graphOutputs, node, e, c) && Embeds(g, graphOutputs, e.child, c, list[k..]);
      BranchesInGraph(g, graphOutputs, p, node, n - 1, list[..k]);
      EmbeddingInGraph(g, graphOutputs, e.child, c, list[k..]);
      assert list == list[..k] + list[k..];
    }
  }

  lemma NodesOfMore(fused: seq<seq<nat>>, group: seq<nat>)
    ensures Nodes(fused + [group]) == Nodes(fused) + Elements(group)
  {
    var more := fused + [group];
    forall v
      ensures v in Nodes(more) <==> v in Nodes(fused) || v in group
    {
      if v in Nodes(fused) {
        var k :| 0 <= k < |fused| && v in fused[k];
        assert v in more[k];
      }
      if v in group {
        assert v in more[|fused|];
      }
    }
  }

  /** One more group of new nodes. */
  lemma GroupAdded(g: Graph, conn: Connectivity, rules: Rules, claims: multiset<nat>, fused: seq<seq<nat>>,
                   group: seq<nat>, anchor: nat)
    requires ConnectivityOk(g, conn, |g|) && anchor < |g|
    requires PassInv(g, conn.graphOutputs, rules, claims, Nodes(fused), fused)
    requires group == GroupAt(g, conn, rules, anchor, Nodes(fused)) && 2 <= |group| && rules.added(group)
    ensures PassInv(g, conn.graphOutputs, rules,
                    claims + multiset(group), Nodes(fused) + Elements(group), fused + [group])
  {
    hide GroupAt, ConnectivityOk, Nodes, FromSomeMatch;
    var more := fused + [group];
    GroupIsMatched(g, conn, rules, anchor, Nodes(fused));
    assert forall v | v in group :: v !in Nodes(fused);
    AddNew(Nodes(fused), group);
    NodesOfMore(fused, group);
    StillFromMatches(g, conn.graphOutputs, rules, fused, group);
    MoreFusions(fused, group, rules);
  }

  lemma StillFromMatches(g: Graph, graphOutputs: set<string>, rules: Rules, fused: seq<seq<nat>>, group: seq<nat>)
    requires AllFromMatches(g, graphOutputs, rules, fused)
    requires FromSomeMatch(g, graphOutputs, rules, group, Nodes(fused))
    ensures AllFromMatches(g, graphOutputs, rules, fused + [group])
  {
    hide FromSomeMatch, Nodes;
    var more := fused + [group];
    forall k | 0 <= k < |more|
      ensures FromSomeMatch(g, graphOutputs, rules, more[k], Nodes(more[..k]))
    {
      assert more[..k] == fused[..k];
      assert fused[..|fused|] == fused;
    }
  }

  lemma MoreFusions(fused: seq<seq<nat>>, group: seq<nat>, rules: Rules)
    requires FusionsOk(fused, rules.supported, rules.excluded)
    requires Fresh(group, Nodes(fused)) && Eligible(rules, group)
    ensures FusionsOk(fused + [group], rules.supported, rules.excluded)
  {
    var more := fused + [group];
    forall j, k, v | 0 <= j < k < |more| && v in more[j]
      ensures v !in more[k]
    {
      if k == |fused| {
        assert v in Nodes(fused);
      }
    }
  }

  // ----- what is bound to be fused -----

  /**
   A saturated embedding of nodes that are free and eligible when its anchor's turn comes, which the rules accept and of
   which the runtime takes what is kept, is fused.
   */
  lemma SaturatedIsFused(g: Graph, conn: Connectivity, rules: Rules, anchor: nat, list: seq<nat>, after: Captures)
    requires ConnectivityOk(g, conn, |g|) && anchor < |g| && g[anchor].opType in rules.index
    requires var fused := FusedBefore(g, conn, rules, anchor);
             && anchor !in Nodes(fused) && Fresh(list, Nodes(fused)) && Eligible(rules, list)
             && Saturated(g, conn.graphOutputs, rules.index[g[anchor].opType], anchor, NO_CAPTURES, list, after)
    requires forall m: Match | m.nodes == list && m.captures == after :: rules.accepts(m)
    requires forall v | v in list :: v < |g|
    requires var consumed := Nodes(FusedBefore(g, conn, rules, anchor));
             var kept := KeptNodes(g, conn.graphOutputs, list, consumed, anchor, |list|);
             2 <= |kept| && rules.added(kept)
    ensures var fused := FusedBefore(g, conn, rules, anchor);
            FusedBefore(g, conn, rules, anchor + 1)
            == fused + [KeptNodes(g, conn.graphOutputs, list, Nodes(fused), anchor, |list|)]
  {
    hide Search, Saturated, ConnectivityOk, Embeds, Kept, KeptNodes, FusedBefore, Nodes;
    var fused := FusedBefore(g, conn, rules, anchor);
    var consumed := Nodes(fused);
    var p := rules.index[g[anchor].opType];
    assert [] + list == list;
    SearchIsComplete(g, conn, p, anchor, consumed, EMPTY_MATCH, list, after);
    NextFused(g, conn, rules, anchor);
  }

  // ----- convexity -----

  /** What the pass fuses around an anchor: the match and what of it is kept. */
  datatype Fusion = Fusion(outputs: set<string>, matched: seq<nat>, consumed: set<nat>, anchor: nat)

  ghost predicate InGraph(g: Graph, f: Fusion)
  {
    forall v | v in f.matched :: v < |g|
  }

  ghost predicate Fused(g: Graph, f: Fusion, v: nat)
    requires InGraph(g, f)
  {
    v in f.matched && Kept(g, f.outputs, f.matched, f.consumed, f.anchor, v)
  }

  ghost predicate IsPath(g: Graph, path: seq<nat>)
  {
    && path != [] && (forall i | 0 <= i < |path| :: path[i] < |g|)
    && forall i | 0 < i < |path| :: Edge(g, path[i - 1], path[i])
  }

  /** A path of the graph that leaves the fused nodes and comes back to them. */
  ghost predicate Detour(g: Graph, f: Fusion, path: seq<nat>)
    requires InGraph(g, f)
  {
    && IsPath(g, path) && Fused(g, f, path[0]) && Fused(g, f, path[|path| - 1])
    && exists i :: 0 <= i < |path| && !Fused(g, f, path[i])
  }

  /** A matched node that was left out reads a value of a fused one. */
  ghost predicate LeftOutReads(g: Graph, f: Fusion, a: nat, b: nat)
    requires InGraph(g, f)
  {
    Fused(g, f, a) && b in f.matched && !Fused(g, f, b) && Edge(g, a, b)
  }

  /** A node outside the match reads a value of the anchor or of a terminal node, and leads back to a fused node. */
  ghost predicate OutsideReturns(g: Graph, f: Fusion, a: nat, path: seq<nat>)
    requires InGraph(g, f)
  {
    && Fused(g, f, a) && (a == f.anchor || Terminal(g, f.matched, a))
    && IsPath(g, path) && path[0] !in f.matched && Edge(g, a, path[0]) && Fused(g, f, path[|path| - 1])
  }

  /** A node that was left out is not terminal, so there is a way on to a node that is fused. */
  lemma {:induction false} WayBack(g: Graph, f: Fusion, b: nat) returns (path: seq<nat>)
    requires Topological(g) && InGraph(g, f) && b in f.matched && !Fused(g, f, b)
    ensures IsPath(g, path) && path[0] == b && Fused(g, f, path[|path| - 1])
    decreases |g| - b
  {
    var c :| c in f.matched && Edge(g, b, c) && c != b;
    hide Edge, Kept;
    if Fused(g, f, c) {
      path := [b, c];
    } else {
      var rest := WayBack(g, f, c);
      path := [b] + rest;
    }
  }

  /** On a path that starts at a fused node, some step leads from a fused node to the first one that is not. */
  lemma {:induction false} FirstLeftOut(g: Graph, f: Fusion, path: seq<nat>, i: nat) returns (j: nat)
    requires InGraph(g, f) && i < |path| && Fused(g, f, path[0]) && !Fused(g, f, path[i])
    ensures 0 < j <= i && Fused(g, f, path[j - 1]) && !Fused(g, f, path[j])
    decreases i
  {
    if Fused(g, f, path[i - 1]) {
      j := i;
    } else {
      j := FirstLeftOut(g, f, path, i - 1);
    }
  }

  /** Only the anchor and terminal nodes can be read outside the match and still be fused. */
  lemma OutsideReader(g: Graph, f: Fusion, a: nat, b: nat)
    requires InGraph(g, f) && Fused(g, f, a) && Edge(g, a, b) && b !in f.matched
    ensures a == f.anchor || Terminal(g, f.matched, a)
  {
    hide Terminal, Edge;
    assert External(g, f.outputs, f.matched, f.consumed, a);
  }

  lemma PathTail(g: Graph, path: seq<nat>, j: nat)
    requires IsPath(g, path) && j < |path|
    ensures IsPath(g, path[j..]) && path[j..][|path[j..]| - 1] == path[|path| - 1]
  {
    hide Edge;
    var tail := path[j..];
    forall i | 0 < i < |tail|
      ensures Edge(g, tail[i - 1], tail[i])
    {
      assert Edge(g, path[j + i - 1], path[j + i]);
    }
  }

  lemma PathFrom(g: Graph, a: nat, path: seq<nat>)
    requires a < |g| && IsPath(g, path) && Edge(g, a, path[0])
    ensures IsPath(g, [a] + path)
  {
    hide Edge;
  }

  /**
   The fused nodes are convex in the whole graph, unless a matched node that was left out reads from one of them, or a
   node outside the match that reads the anchor or a terminal node leads back. If one of these is the case they are
   not.
   */
  lemma DetourIff(g: Graph, f: Fusion)
    requires Topological(g) && InGraph(g, f)
    ensures (exists path :: Detour(g, f, path))
            <==> (exists a, b :: LeftOutReads(g, f, a, b)) || (exists a, path :: OutsideReturns(g, f, a, path))
  {
    hide Topological, Edge, Terminal, Fused;
    if path :| Detour(g, f, path) {
      var i: nat :| i < |path| && !Fused(g, f, path[i]);
      var j := FirstLeftOut(g, f, path, i);
      DetourReason(g, f, path, j);
    }
    if a, b :| LeftOutReads(g, f, a, b) {
      FusedInGraph(g, f, a);
      var rest := WayBack(g, f, b);
      PathFrom(g, a, rest);
      assert ([a] + rest)[1] == b;
      assert Detour(g, f, [a] + rest);
    }
    if a, path :| OutsideReturns(g, f, a, path) {
      FusedInGraph(g, f, a);
      PathFrom(g, a, path);
      FusedIsMatched(g, f, path[0]);
      assert ([a] + path)[1] == path[0];
      assert Detour(g, f, [a] + path);
    }
  }

  lemma FusedInGraph(g: Graph, f: Fusion, a: nat)
    requires InGraph(g, f) && Fused(g, f, a)
    ensures a < |g|
  {
  }

  lemma FusedIsMatched(g: Graph, f: Fusion, a: nat)
    requires InGraph(g, f)
    ensures Fused(g, f, a) ==> a in f.matched
  {
  }

  lemma DetourReason(g: Graph, f: Fusion, path: seq<nat>, j: nat)
    requires InGraph(g, f) && IsPath(g, path) && 0 < j < |path|
    requires Fused(g, f, path[|path| - 1]) && Fused(g, f, path[j - 1]) && !Fused(g, f, path[j])
    ensures (exists a, b :: LeftOutReads(g, f, a, b)) || (exists a, p :: OutsideReturns(g, f, a, p))
  {
    hide Edge, Terminal, Fused;
    if path[j] in f.matched {
      assert LeftOutReads(g, f, path[j - 1], path[j]);
    } else {
      OutsideReader(g, f, path[j - 1], path[j]);
      PathTail(g, path, j);
      assert OutsideReturns(g, f, path[j - 1], path[j..]);
    }
  }

  // ----- a BiasGelu that stops being convex -----

  function Part(opType: string, edges: seq<FusionMatching.Edge>): Pattern
  {
    Pattern(opType, "", (node: nat, captures: Captures) => Checked(true, captures), "", edges)
  }

  function BiasDiv(): Pattern
  {
    Part("Div", [FusionMatching.Edge(Upstream, 0, Part("Add", []), false)])
  }

  function BiasMul(): Pattern
  {
    Part("Mul", [FusionMatching.Edge(Upstream, 1, Part("Mul", []), true),
                 FusionMatching.Edge(Downstream, 0, Part("Mul", []), true)])
  }

  function BiasAddOne(): Pattern
  {
    Part("Add", [FusionMatching.Edge(Downstream, 0, BiasMul(), false)])
  }

  /** The tree of the BiasGelu rule, its input constraints aside. */
  function BiasGelu(): Pattern
  {
    Part("Erf", [FusionMatching.Edge(Upstream, 0, BiasDiv(), false),
                 FusionMatching.Edge(Downstream, 0, BiasAddOne(), false)])
  }

  /** y = a * (1 + erf(a / c)) with a = x + b. */
  function Gelu(): Graph
  {
    [Node("Add", "", ["x", "b"], ["a"]), Node("Div", "", ["a", "c"], ["d"]), Node("Erf", "", ["d"], ["e"]),
     Node("Add", "", ["e", "one"], ["s"]), Node("Mul", "", ["a", "s"], ["y"])]
  }

  lemma NoBranches(g: Graph, graphOutputs: set<string>, p: Pattern, node: nat)
    requires node < |g|
    ensures EdgesSaturated(g, graphOutputs, p, node, 0, NO_CAPTURES, [], NO_CAPTURES)
  {
  }

  lemma PartFits(g: Graph, graphOutputs: set<string>, opType: string, edges: seq<FusionMatching.Edge>,
                 node: nat, list: seq<nat>)
    requires node < |g| && g[node].opType == opType
    requires EdgesSaturated(g, graphOutputs, Part(opType, edges), node, |edges|, NO_CAPTURES, list, NO_CAPTURES)
    ensures Saturated(g, graphOutputs, Part(opType, edges), node, NO_CAPTURES, [node] + list, NO_CAPTURES)
  {
    hide EdgesSaturated;
    assert ([node] + list)[1..] == list;
  }

  lemma LeafFits(g: Graph, graphOutputs: set<string>, opType: string, node: nat)
    requires node < |g| && g[node].opType == opType
    ensures Saturated(g, graphOutputs, Part(opType, []), node, NO_CAPTURES, [node], NO_CAPTURES)
  {
    hide Saturated, EdgesSaturated;
    NoBranches(g, graphOutputs, Part(opType, []), node);
    PartFits(g, graphOutputs, opType, [], node, []);
    assert [node] + [] == [node];
  }

  /** A node with one mandatory branch. */
  lemma ChainFits(g: Graph, graphOutputs: set<string>, opType: string, e: FusionMatching.Edge,
                  node: nat, c: nat, branch: seq<nat>)
    requires node < |g| && g[node].opType == opType && LeadsTo(g, graphOutputs, node, e, c)
    requires Saturated(g, graphOutputs, e.child, c, NO_CAPTURES, branch, NO_CAPTURES)
    ensures Saturated(g, graphOutputs, Part(opType, [e]), node, NO_CAPTURES, [node] + branch, NO_CAPTURES)
  {
    hide Saturated, EdgesSaturated, LeadsTo;
    var p := Part(opType, [e]);
    NoBranches(g, graphOutputs, p, node);
    SaturatedBranch(g, graphOutputs, p, node, 0, NO_CAPTURES, [], NO_CAPTURES, c, branch, NO_CAPTURES);
    assert [] + branch == branch;
    PartFits(g, graphOutputs, opType, [e], node, branch);
  }

  /** A node with two mandatory branches. */
  lemma ForkFits(g: Graph, graphOutputs: set<string>, opType: string, e: FusionMatching.Edge, f: FusionMatching.Edge,
                 node: nat, c: nat, first: seq<nat>, d: nat, second: seq<nat>)
    requires node < |g| && g[node].opType == opType
    requires LeadsTo(g, graphOutputs, node, e, c) && LeadsTo(g, graphOutputs, node, f, d)
    requires Saturated(g, graphOutputs, e.child, c, NO_CAPTURES, first, NO_CAPTURES)
    requires Saturated(g, graphOutputs, f.child, d, NO_CAPTURES, second, NO_CAPTURES)
    ensures Saturated(g, graphOutputs, Part(opType, [e, f]), node, NO_CAPTURES, [node] + first + second, NO_CAPTURES)
  {
    hide Saturated, EdgesSaturated, LeadsTo;
    var p := Part(opType, [e, f]);
    NoBranches(g, graphOutputs, p, node);
    SaturatedBranch(g, graphOutputs, p, node, 0, NO_CAPTURES, [], NO_CAPTURES, c, first, NO_CAPTURES);
    assert [] + first == first;
    SaturatedBranch(g, graphOutputs, p, node, 1, NO_CAPTURES, first, NO_CAPTURES, d, second, NO_CAPTURES);
    PartFits(g, graphOutputs, opType, [e, f], node, first + second);
    assert [node] + (first + second) == [node] + first + second;
  }

  /** Neither optional branch of the multiplication is there: a sum makes its factor, and nothing reads its product. */
  lemma MulFits(graphOutputs: set<string>)
    ensures Saturated(Gelu(), graphOutputs, BiasMul(), 4, NO_CAPTURES, [4], NO_CAPTURES)
  {
    var g, p := Gelu(), BiasMul();
    assert Absent(g, graphOutputs, 4, p.edges[0]) && Absent(g, graphOutputs, 4, p.edges[1]);
    hide Absent, Saturated, Embeds;
    assert EdgesSaturated(g, graphOutputs, p, 4, 0, NO_CAPTURES, [], NO_CAPTURES);
    assert EdgesSaturated(g, graphOutputs, p, 4, 1, NO_CAPTURES, [], NO_CAPTURES);
    assert EdgesSaturated(g, graphOutputs, p, 4, 2, NO_CAPTURES, [], NO_CAPTURES);
    hide EdgesSaturated;
    PartFits(g, graphOutputs, "Mul", p.edges, 4, []);
    assert [4] + [] == [4];
  }

  lemma GeluFits(graphOutputs: set<string>)
    requires "e" !in graphOutputs && "s" !in graphOutputs
    ensures Saturated(Gelu(), graphOutputs, BiasGelu(), 2, NO_CAPTURES, [2, 1, 0, 3, 4], NO_CAPTURES)
  {
    hide Saturated, EdgesSaturated, LeadsTo;
    var g, p := Gelu(), BiasGelu();
    GeluLinks(graphOutputs);
    LeafFits(g, graphOutputs, "Add", 0);
    ChainFits(g, graphOutputs, "Div", BiasDiv().edges[0], 1, 0, [0]);
    MulFits(graphOutputs);
    ChainFits(g, graphOutputs, "Add", BiasAddOne().edges[0], 3, 4, [4]);
    assert [1] + [0] == [1, 0] && [3] + [4] == [3, 4];
    ForkFits(g, graphOutputs, "Erf", p.edges[0], p.edges[1], 2, 1, [1, 0], 3, [3, 4]);
    assert [2] + [1, 0] + [3, 4] == [2, 1, 0, 3, 4];
  }

  lemma GeluLinks(graphOutputs: set<string>)
    requires "e" !in graphOutputs && "s" !in graphOutputs
    ensures var p := BiasGelu();
            && LeadsTo(Gelu(), graphOutputs, 2, p.edges[0], 1) && LeadsTo(Gelu(), graphOutputs, 2, p.edges[1], 3)
            && LeadsTo(Gelu(), graphOutputs, 1, BiasDiv().edges[0], 0)
            && LeadsTo(Gelu(), graphOutputs, 3, BiasAddOne().edges[0], 4)
  {
    hide LeadsTo;
    ProducersLead(graphOutputs);
    ConsumersLead(graphOutputs);
  }

  lemma ProducersLead(graphOutputs: set<string>)
    ensures LeadsTo(Gelu(), graphOutputs, 2, BiasGelu().edges[0], 1)
    ensures LeadsTo(Gelu(), graphOutputs, 1, BiasDiv().edges[0], 0)
  {
  }

  lemma ConsumersLead(graphOutputs: set<string>)
    requires "e" !in graphOutputs && "s" !in graphOutputs
    ensures LeadsTo(Gelu(), graphOutputs, 2, BiasGelu().edges[1], 3)
    ensures LeadsTo(Gelu(), graphOutputs, 3, BiasAddOne().edges[0], 4)
  {
    var g := Gelu();
    assert multiset(g[3].inputs) == multiset{"e", "one"} && multiset(g[4].inputs) == multiset{"a", "s"};
  }

  lemma GeluEdges()
    ensures Edge(Gelu(), 0, 1) && Edge(Gelu(), 1, 2)
    ensures forall c: nat :: Edge(Gelu(), 0, c) ==> c in {1, 4}
  {
    var g := Gelu();
    assert Consumes(g, 1, g[0].outputs[0]) && Consumes(g, 2, g[1].outputs[0]);
  }

  /**
   When the quotient is also a graph output, the division stays outside between the fused addition and the fused Erf.
   */
  lemma BiasGeluStopsBeingConvex()
    ensures Embeds(Gelu(), {"d", "y"}, BiasGelu(), 2, [2, 1, 0, 3, 4])
    ensures var f := Fusion({"d", "y"}, [2, 1, 0, 3, 4], {}, 2);
            && InGraph(Gelu(), f) && LeftOutReads(Gelu(), f, 0, 1) && Detour(Gelu(), f, [0, 1, 2])
  {
    hide Embeds, Saturated, Kept, Detour, Edge, Consumes;
    GeluFits({"d", "y"});
    SaturatedIsEmbedding(Gelu(), {"d", "y"}, BiasGelu(), 2, NO_CAPTURES, [2, 1, 0, 3, 4], NO_CAPTURES);
    GeluEdges();
    var g, outputs := Gelu(), {"d", "y"};
    assert |g| == 5 && g[1].outputs[0] in outputs && g[0].outputs == ["a"] && "a" !in outputs;
    hide Gelu;
    DivisionLeftOut(g, Fusion(outputs, [2, 1, 0, 3, 4], {}, 2));
  }

  lemma DivisionLeftOut(g: Graph, f: Fusion)
    requires |g| == 5 && f.matched == [2, 1, 0, 3, 4] && f.consumed == {} && f.anchor == 2
    requires Edge(g, 0, 1) && Edge(g, 1, 2) && forall c: nat :: Edge(g, 0, c) ==> c in {1, 4}
    requires |g[1].outputs| > 0 && g[1].outputs[0] in f.outputs && |g[0].outputs| == 1 && g[0].outputs[0] !in f.outputs
    ensures InGraph(g, f) && LeftOutReads(g, f, 0, 1) && Detour(g, f, [0, 1, 2])
  {
    hide Edge;
    assert InGraph(g, f);
    assert 0 in f.matched && 1 in f.matched && 4 in f.matched && 2 in f.matched;
    assert !External(g, f.outputs, f.matched, f.consumed, 0);
    assert !Terminal(g, f.matched, 1);
    assert Fused(g, f, 0) && Fused(g, f, 2) && !Fused(g, f, 1);
    hide Fused;
    var path := [0, 1, 2];
    assert path[0] == 0 && path[1] == 1 && path[2] == 2;
  }

  // ----- a BiasGelu that is fused -----

  /** One rule, which accepts every match, a runtime that takes every group, and all five nodes supported. */
  function GeluRules(): Rules
  {
    Rules(map["Erf" := BiasGelu()], (m: Match) => true, (group: seq<nat>) => true, {0, 1, 2, 3, 4}, {})
  }

  lemma GeluReaders(v: nat, c: nat)
    requires v < 5 && Edge(Gelu(), v, c)
    ensures c in [2, 1, 0, 3, 4]
  {
    assert |Gelu()| == 5;
  }

  lemma GeluKept(v: nat)
    requires v < 5
    ensures Kept(Gelu(), {"y"}, [2, 1, 0, 3, 4], {}, 2, v)
  {
    var g, matched := Gelu(), [2, 1, 0, 3, 4];
    forall c: nat | Edge(g, v, c)
      ensures c in matched
    {
      GeluReaders(v, c);
    }
    if v == 4 {
      NobodyReadsTheProduct();
      assert Terminal(g, matched, 4);
    } else {
      assert g[v].outputs[0] !in {"y"};
      assert !External(g, {"y"}, matched, {}, v);
    }
  }

  lemma NobodyReadsTheProduct()
    ensures forall c: nat :: !Edge(Gelu(), 4, c)
  {
    assert Gelu()[4].outputs == ["y"];
  }

  lemma AllAreKept()
    ensures KeptNodes(Gelu(), {"y"}, [2, 1, 0, 3, 4], {}, 2, 5) == [2, 1, 0, 3, 4]
  {
    hide Kept, Gelu;
    GeluHasFive();
    var g, matched := Gelu(), [2, 1, 0, 3, 4];
    forall v: nat | v < 5
      ensures Kept(g, {"y"}, matched, {}, 2, v)
    {
      GeluKept(v);
    }
    assert KeptNodes(g, {"y"}, matched, {}, 2, 0) == [];
    assert KeptNodes(g, {"y"}, matched, {}, 2, 1) == [2];
    assert KeptNodes(g, {"y"}, matched, {}, 2, 2) == [2, 1];
    assert KeptNodes(g, {"y"}, matched, {}, 2, 3) == [2, 1, 0];
    assert KeptNodes(g, {"y"}, matched, {}, 2, 4) == [2, 1, 0, 3];
  }

  lemma OtherOperator(conn: Connectivity, n: nat)
    requires ConnectivityOk(Gelu(), conn, 5) && n < 5 && n != 2
    ensures FusedBefore(Gelu(), conn, GeluRules(), n + 1) == FusedBefore(Gelu(), conn, GeluRules(), n)
  {
    hide ConnectivityOk, FusedBefore, GroupAt;
    assert |Gelu()| == 5 && Gelu()[n].opType !in GeluRules().index;
    NothingToFuse(Gelu(), conn, GeluRules(), n, Nodes(FusedBefore(Gelu(), conn, GeluRules(), n)));
    NextFused(Gelu(), conn, GeluRules(), n);
  }

  /** With only `y` leaving the graph the pass fuses all of it, whatever the maps look like. */
  lemma GeluIsFused(conn: Connectivity)
    requires ConnectivityOk(Gelu(), conn, 5) && conn.graphOutputs == {"y"}
    ensures FusedBefore(Gelu(), conn, GeluRules(), 5) == [[2, 1, 0, 3, 4]]
  {
    hide ConnectivityOk, FusedBefore, Saturated, KeptNodes;
    var rules := GeluRules();
    assert |Gelu()| == 5 && Gelu()[2].opType in rules.index && rules.index[Gelu()[2].opType] == BiasGelu();
    NothingFusedYet(conn);
    OtherOperator(conn, 0);
    OtherOperator(conn, 1);
    GeluFits({"y"});
    AllAreKept();
    assert Nodes([]) == {};
    SaturatedIsFused(Gelu(), conn, rules, 2, [2, 1, 0, 3, 4], NO_CAPTURES);
    OtherOperator(conn, 3);
    OtherOperator(conn, 4);
  }

  lemma NothingFusedYet(conn: Connectivity)
    requires ConnectivityOk(Gelu(), conn, 5)
    ensures FusedBefore(Gelu(), conn, GeluRules(), 0) == []
  {
  }

  /** The same as a run of the pass. */
  method FuseGelu() returns (claims: multiset<nat>, fusedNodes: set<nat>)
    ensures fusedNodes == {0, 1, 2, 3, 4} && claims == multiset(fusedNodes)
  {
    hide *;
    ghost var fused, conn;
    GeluHasFive();
    claims, fusedNodes, fused, conn := ApplyFusions(Gelu(), {"y"}, GeluRules());
    GeluIsFused(conn);
    AllFive();
  }

  lemma GeluHasFive()
    ensures |Gelu()| == 5
  {
  }

  lemma AllFive()
    ensures Nodes([[2, 1, 0, 3, 4]]) == {0, 1, 2, 3, 4}
  {
    var fused: seq<seq<nat>> := [[2, 1, 0, 3, 4]];
    forall v: nat
      ensures v in Nodes(fused) <==> v in fused[0]
    {
    }
  }
}
