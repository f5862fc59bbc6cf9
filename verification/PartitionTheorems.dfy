/** What the Tier-0 groups guarantee about the graph: fusing any of them leaves it acyclic. */
module PartitionTheorems {
  import opened Common
  import opened Partition

  /** `v` consumes a value that `u` produces. The empty name stands for a missing optional value. */
  ghost predicate Edge(g: Graph, u: nat, v: nat)
  {
    u < |g| && v < |g| && exists name :: name != "" && name in g[u].outputs && name in g[v].inputs
  }

  /** Nodes come in topological order, and every value has one producer. */
  ghost predicate WellFormed(g: Graph)
  {
    && (forall u: nat, v: nat | Edge(g, u, v) :: u < v)
    && (forall u: nat, w: nat, name |
          u < |g| && w < |g| && name != "" && name in g[u].outputs && name in g[w].outputs ::
          u == w)
  }

  lemma {:induction false} SoleProducerIsLast(g: Graph, u: nat, name: string, i: nat)
    requires WellFormed(g) && u < i <= |g| && g[u].fuseable && name != "" && name in g[u].outputs
    ensures LastProducer(g, name, i) == Some(u)
  {
    if i - 1 != u {
      SoleProducerIsLast(g, u, name, i - 1);
    }
  }

  lemma EdgeIsLink(g: Graph, u: nat, v: nat)
    requires WellFormed(g) && Edge(g, u, v) && g[u].fuseable
    ensures Link(g, u, v)
  {
    var name :| name != "" && name in g[u].outputs && name in g[v].inputs;
    SoleProducerIsLast(g, u, name, v);
  }

  // ----- every fuseable node is in one group -----

  /** The group that holds `v`. */
  ghost function GroupOf(groups: seq<Group>, v: nat): (r: Option<nat>)
    ensures r.Some? ==> r.value < |groups| && v in groups[r.value].nodes
    ensures r == None ==> forall k | 0 <= k < |groups| :: v !in groups[k].nodes
  {
    if k: nat :| k < |groups| && v in groups[k].nodes then Some(k) else None
  }

  /** Exactly the fuseable nodes are in a group, each in one group only and once in its list. */
  lemma GroupsPartitionFuseableNodes(g: Graph, groups: seq<Group>, v: nat)
    requires Partitioned(g, groups)
    ensures GroupOf(groups, v).Some? <==> v < |g| && g[v].fuseable
    ensures forall k: nat, p, q | k < |groups| && 0 <= p < |groups[k].nodes| && 0 <= q < |groups[k].nodes|
              && groups[k].nodes[p] == v == groups[k].nodes[q] ::
              GroupOf(groups, v) == Some(k) && p == q
  {
    var r := GroupOf(groups, v);
    if r.Some? {
      assert Below(g, groups[r.value], |g|);
    }
    forall k: nat, p, q | k < |groups| && 0 <= p < |groups[k].nodes| && 0 <= q < |groups[k].nodes|
      && groups[k].nodes[p] == v == groups[k].nodes[q]
      ensures r == Some(k) && p == q
    {
      assert v in groups[k].nodes;
      assert forall j | 0 <= j < |groups| && j != k :: Apart(groups[j], groups[k]);
      assert Ordered(g, groups[k].nodes);
    }
  }

  // ----- what leaves a group -----

  /**
   A consumer outside a group comes no earlier than a boundary node that consumed from the group after its last
   member.
   */
  lemma LeavingNeedsCut(g: Graph, groups: seq<Group>, k: nat, u: nat, v: nat)
    requires Partitioned(g, groups) && k < |groups| && u in groups[k].nodes && v !in groups[k].nodes && Link(g, u, v)
    ensures groups[k].finalized && exists b: nat :: b <= v && CutAt(g, groups[k], b)
  {
    assert GroupOk(g, groups[k], |g|);
  }

  lemma EdgeLeavesForward(g: Graph, groups: seq<Group>, k: nat, u: nat, v: nat, w: nat)
    requires WellFormed(g) && Partitioned(g, groups) && k < |groups|
    requires u in groups[k].nodes && w in groups[k].nodes && v !in groups[k].nodes && Edge(g, u, v)
    ensures w < v
  {
    assert Below(g, groups[k], |g|);
    EdgeIsLink(g, u, v);
    LeavingNeedsCut(g, groups, k, u, v);
  }

  /** In list order no member depends on a later one. */
  lemma ListIsTopological(g: Graph, groups: seq<Group>, k: nat, p: nat, q: nat)
    requires WellFormed(g) && Partitioned(g, groups) && k < |groups| && p < |groups[k].nodes| && q < |groups[k].nodes|
    requires Edge(g, groups[k].nodes[p], groups[k].nodes[q])
    ensures p < q
  {
    var nodes := groups[k].nodes;
    assert Below(g, groups[k], |g|) && nodes[p] in nodes;
    EdgeIsLink(g, nodes[p], nodes[q]);
    assert Ordered(g, nodes);
    assert nodes[p] != nodes[q];
  }

  /** No edge joins two groups that are both open at the end. */
  lemma NoEdgeBetweenOpenGroups(g: Graph, groups: seq<Group>, j: nat, k: nat, u: nat, v: nat)
    requires WellFormed(g) && Partitioned(g, groups) && j < |groups| && k < |groups| && j != k
    requires u in groups[j].nodes && v in groups[k].nodes && Edge(g, u, v)
    ensures groups[j].finalized
  {
    assert Below(g, groups[j], |g|) && Apart(groups[k], groups[j]);
    EdgeIsLink(g, u, v);
    LeavingNeedsCut(g, groups, j, u, v);
  }

  // ----- contraction -----

  datatype Class = Whole(group: nat) | Single(node: nat)

  /** The node that `v` becomes when the chosen groups are contracted. */
  ghost function ClassOf(groups: seq<Group>, chosen: set<nat>, v: nat): Class
  {
    var r := GroupOf(groups, v);
    if r.Some? && r.value in chosen then Whole(r.value) else Single(v)
  }

  function Last(nodes: seq<nat>): (m: nat)
    requires nodes != []
    ensures m in nodes && forall v | v in nodes :: v <= m
  {
    if |nodes| == 1 then nodes[0]
    else
      var rest := Last(nodes[1..]);
      assert forall v | v in nodes :: v == nodes[0] || v in nodes[1..];
      if rest < nodes[0] then nodes[0] else rest
  }

  /** The position of the last member. */
  function Rank(groups: seq<Group>, c: Class): nat
  {
    match c
    case Single(v) => v
    case Whole(k) => if k < |groups| && groups[k].nodes != [] then Last(groups[k].nodes) else 0
  }

  ghost predicate ContractedEdge(g: Graph, groups: seq<Group>, chosen: set<nat>, a: Class, b: Class)
  {
    a != b && exists u: nat, v: nat ::
      Edge(g, u, v) && ClassOf(groups, chosen, u) == a && ClassOf(groups, chosen, v) == b
  }

  lemma SameGroup(g: Graph, groups: seq<Group>, k: nat, v: nat)
    requires Partitioned(g, groups) && k < |groups| && v in groups[k].nodes
    ensures GroupOf(groups, v) == Some(k)
  {
    assert forall j | 0 <= j < |groups| && j != k :: Apart(groups[j], groups[k]);
  }

  lemma EdgeAscends(g: Graph, u: nat, v: nat)
    requires WellFormed(g) && Edge(g, u, v)
    ensures u < v
  {
  }

  /** "Position of the last member" strictly increases along every contracted edge. */
  lemma ContractedEdgeAscends(g: Graph, groups: seq<Group>, chosen: set<nat>, a: Class, b: Class)
    requires WellFormed(g) && Partitioned(g, groups) && ContractedEdge(g, groups, chosen, a, b)
    ensures Rank(groups, a) < Rank(groups, b)
  {
    hide Partitioned, WellFormed, Edge;
    var u: nat, v: nat :| Edge(g, u, v) && ClassOf(groups, chosen, u) == a && ClassOf(groups, chosen, v) == b;
    EdgeAscends(g, u, v);
    if a.Whole? {
      if v in groups[a.group].nodes {
        SameGroup(g, groups, a.group, v);
      }
      EdgeLeavesForward(g, groups, a.group, u, v, Last(groups[a.group].nodes));
    }
  }

  ghost predicate ContractedPath(g: Graph, groups: seq<Group>, chosen: set<nat>, path: seq<Class>)
  {
    forall i | 0 <= i < |path| - 1 :: ContractedEdge(g, groups, chosen, path[i], path[i + 1])
  }

  /** Contracting any of the groups leaves the graph acyclic: no path of contracted edges returns to its start. */
  lemma {:induction false} ContractionIsAcyclic(g: Graph, groups: seq<Group>, chosen: set<nat>, path: seq<Class>)
    requires WellFormed(g) && Partitioned(g, groups)
    requires 2 <= |path| && ContractedPath(g, groups, chosen, path)
    ensures Rank(groups, path[0]) < Rank(groups, path[|path| - 1])
    ensures path[0] != path[|path| - 1]
  {
    hide WellFormed, Partitioned, ContractedEdge, Rank;
    var n := |path| - 1;
    assert ContractedEdge(g, groups, chosen, path[n - 1], path[n - 1 + 1]);
    ContractedEdgeAscends(g, groups, chosen, path[n - 1], path[n]);
    if 2 <= n {
      var front := path[..n];
      assert forall i | 0 <= i < |front| :: front[i] == path[i];
      ContractionIsAcyclic(g, groups, chosen, front);
    }
  }

  ghost predicate Path(g: Graph, path: seq<nat>)
  {
    forall i | 0 <= i < |path| - 1 :: Edge(g, path[i], path[i + 1])
  }

  lemma {:induction false} PathAscends(g: Graph, path: seq<nat>, i: nat, j: nat)
    requires WellFormed(g) && Path(g, path) && i <= j < |path|
    ensures path[i] <= path[j]
    decreases j
  {
    if i < j {
      PathAscends(g, path, i, j - 1);
      assert Edge(g, path[j - 1], path[j - 1 + 1]);
    }
  }

  /** Every group is convex: a path between two members stays inside. */
  lemma {:induction false} GroupsAreConvex(g: Graph, groups: seq<Group>, k: nat, path: seq<nat>, i: nat)
    requires WellFormed(g) && Partitioned(g, groups) && k < |groups| && Path(g, path) && i < |path|
    requires path[0] in groups[k].nodes && path[|path| - 1] in groups[k].nodes
    ensures path[i] in groups[k].nodes
  {
    if 0 < i {
      GroupsAreConvex(g, groups, k, path, i - 1);
      if path[i] !in groups[k].nodes {
        assert Edge(g, path[i - 1], path[i - 1 + 1]);
        EdgeLeavesForward(g, groups, k, path[i - 1], path[i], path[|path| - 1]);
        PathAscends(g, path, i, |path| - 1);
      }
    }
  }

  // ----- connectivity -----

  /** No fuseable node leaves an optional output unnamed. */
  ghost predicate AllOutputsNamed(g: Graph)
  {
    forall u | 0 <= u < |g| && g[u].fuseable :: "" !in g[u].outputs
  }

  lemma LinkIsEdge(g: Graph, u: nat, v: nat)
    requires AllOutputsNamed(g) && Link(g, u, v)
    ensures Edge(g, u, v)
  {
  }

  ghost predicate EdgeAcross(g: Graph, a: set<nat>, b: set<nat>)
  {
    exists u: nat, w: nat :: u in a && w in b && (Edge(g, u, w) || Edge(g, w, u))
  }

  /** No split of `s` into two nonempty parts is free of edges between them. */
  ghost predicate WeaklyConnected(g: Graph, s: set<nat>)
  {
    forall a: set<nat> | a <= s && a != {} && a != s :: EdgeAcross(g, a, s - a)
  }

  /** Two members of `s` that edges inside `s` connect. */
  ghost predicate JoinedWithin(g: Graph, s: set<nat>, u: nat, w: nat)
  {
    exists t: set<nat> :: t <= s && u in t && w in t && WeaklyConnected(g, t)
  }

  /** Edges inside `s` connect the ends of its links. */
  ghost predicate LinksJoined(g: Graph, s: set<nat>)
  {
    forall u: nat, w: nat | u in s && w in s && Link(g, u, w) && !Edge(g, u, w) :: JoinedWithin(g, s, u, w)
  }

  /**
   A set held together by links is held together by edges exactly if edges also connect the ends of its other links.
   */
  lemma WeaklyConnectedIff(g: Graph, s: set<nat>)
    requires Connected(g, s)
    ensures WeaklyConnected(g, s) <==> LinksJoined(g, s)
  {
    hide Link, Edge;
    if WeaklyConnected(g, s) {
      hide WeaklyConnected, Connected;
      assert LinksJoined(g, s);
    }
    if LinksJoined(g, s) {
      forall a: set<nat> | a <= s && a != {} && a != s
        ensures EdgeAcross(g, a, s - a)
      {
        assert Crossing(g, a, s - a);
        LinkAcross(g, a, s);
      }
    }
  }

  lemma LinkAcross(g: Graph, a: set<nat>, s: set<nat>)
    requires LinksJoined(g, s) && a <= s && Crossing(g, a, s - a)
    ensures EdgeAcross(g, a, s - a)
  {
    hide Link, Edge, WeaklyConnected;
    var u: nat, w: nat :| u in a && w in s - a && (Link(g, u, w) || Link(g, w, u));
    if !Edge(g, u, w) && !Edge(g, w, u) {
      assert JoinedWithin(g, s, u, w) || JoinedWithin(g, s, w, u);
      var t: set<nat> :| t <= s && u in t && w in t && WeaklyConnected(g, t);
      assert u in a * t && w !in a * t;
      SplitOfPart(g, a, s, t);
    }
  }

  /** A split of a set splits each of its parts that has members on both sides. */
  lemma SplitOfPart(g: Graph, a: set<nat>, s: set<nat>, t: set<nat>)
    requires t <= s && WeaklyConnected(g, t) && a * t != {} && a * t != t
    ensures EdgeAcross(g, a, s - a)
  {
    hide Edge;
    var inside := a * t;
    assert EdgeAcross(g, inside, t - inside);
    var u: nat, w: nat :| u in inside && w in t - inside && (Edge(g, u, w) || Edge(g, w, u));
    assert u in a && w in s - a;
  }

  /**
   A group is weakly connected exactly if edges inside it connect the ends of those of its links that are no edges.
   */
  lemma GroupsAreWeaklyConnectedIff(g: Graph, groups: seq<Group>, k: nat)
    requires Partitioned(g, groups) && k < |groups|
    ensures WeaklyConnected(g, Members(groups[k])) <==> LinksJoined(g, Members(groups[k]))
  {
    assert Connected(g, Members(groups[k]));
    WeaklyConnectedIff(g, Members(groups[k]));
  }

  /** With all outputs named this is always so. */
  lemma GroupsAreWeaklyConnected(g: Graph, groups: seq<Group>, k: nat)
    requires Partitioned(g, groups) && AllOutputsNamed(g) && k < |groups|
    ensures WeaklyConnected(g, Members(groups[k]))
  {
    forall u: nat, w: nat | Link(g, u, w)
      ensures Edge(g, u, w)
    {
      LinkIsEdge(g, u, w);
    }
    hide Link, Edge;
    GroupsAreWeaklyConnectedIff(g, groups, k);
  }

  ghost predicate AllFuseable(g: Graph)
  {
    forall v | 0 <= v < |g| :: g[v].fuseable
  }

  /** Without boundary nodes nothing is ever frozen, so links stay inside a group. */
  lemma LinkStaysInside(g: Graph, groups: seq<Group>, k: nat, u: nat, w: nat)
    requires Partitioned(g, groups) && AllFuseable(g) && k < |groups| && Link(g, u, w)
    ensures u in groups[k].nodes <==> w in groups[k].nodes
  {
    LinkGoesForward(g, u, w);
    GroupsPartitionFuseableNodes(g, groups, u);
    var j := GroupOf(groups, u).value;
    NothingCuts(g, groups[j]);
    hide Link, CutAt, GroupOk, Covers, AllConnected;
    if w !in groups[j].nodes {
      LeavingNeedsCut(g, groups, j, u, w);
    } else {
      SameGroup(g, groups, j, w);
      if w in groups[k].nodes {
        SameGroup(g, groups, k, w);
      }
      if u in groups[k].nodes {
        SameGroup(g, groups, k, u);
      }
    }
  }

  lemma NothingCuts(g: Graph, grp: Group)
    requires AllFuseable(g)
    ensures forall b: nat :: !CutAt(g, grp, b)
  {
  }

  /** So a group contains every weakly connected set of nodes that it meets. */
  lemma GroupsAreClosed(g: Graph, groups: seq<Group>, k: nat, s: set<nat>)
    requires WellFormed(g) && Partitioned(g, groups) && AllFuseable(g) && k < |groups|
    requires WeaklyConnected(g, s) && s * Members(groups[k]) != {}
    ensures s <= Members(groups[k])
  {
    hide Partitioned, Link, Edge;
    var inside := s * Members(groups[k]);
    if inside != s {
      assert EdgeAcross(g, inside, s - inside);
      var u: nat, w: nat :| u in inside && w in s - inside && (Edge(g, u, w) || Edge(g, w, u));
      var x, y := if Edge(g, u, w) then u else w, if Edge(g, u, w) then w else u;
      EdgeInGraph(g, x, y);
      EdgeIsLink(g, x, y);
      LinkStaysInside(g, groups, k, x, y);
    }
  }

  lemma EdgeInGraph(g: Graph, u: nat, v: nat)
    requires Edge(g, u, v)
    ensures u < |g| && v < |g|
  {
  }

  /** A component is weakly connected and contains every weakly connected set that it meets. */
  ghost predicate Component(g: Graph, s: set<nat>)
  {
    WeaklyConnected(g, s) && forall t: set<nat> | WeaklyConnected(g, t) && t * s != {} :: t <= s
  }

  /** Edges connect the ends of every link, whatever name it is by. */
  ghost predicate NamelessLinksJoined(g: Graph)
  {
    forall u: nat, w: nat | Link(g, u, w) && !Edge(g, u, w) ::
      exists t: set<nat> :: u in t && w in t && WeaklyConnected(g, t)
  }

  /**
   Without boundary nodes the groups are exactly the weakly connected components if and only if edges connect the ends
   of every link, be it by the empty name.
   */
  lemma GroupsAreComponentsIff(g: Graph, groups: seq<Group>)
    requires WellFormed(g) && Partitioned(g, groups) && AllFuseable(g)
    ensures (forall k | 0 <= k < |groups| :: Component(g, Members(groups[k]))) <==> NamelessLinksJoined(g)
  {
    hide Partitioned, WeaklyConnected, Link, Edge, WellFormed;
    if forall k | 0 <= k < |groups| :: Component(g, Members(groups[k])) {
      forall u: nat, w: nat | Link(g, u, w)
        ensures exists t: set<nat> :: u in t && w in t && WeaklyConnected(g, t)
      {
        LinkGoesForward(g, u, w);
        GroupsPartitionFuseableNodes(g, groups, u);
        var k := GroupOf(groups, u).value;
        LinkStaysInside(g, groups, k, u, w);
        assert u in Members(groups[k]) && w in Members(groups[k]);
      }
    }
    if NamelessLinksJoined(g) {
      forall k | 0 <= k < |groups|
        ensures Component(g, Members(groups[k]))
      {
        var s := Members(groups[k]);
        forall t: set<nat> | WeaklyConnected(g, t) && t * s != {}
          ensures t <= s
        {
          GroupsAreClosed(g, groups, k, t);
        }
        forall u: nat, w: nat | u in s && w in s && Link(g, u, w) && !Edge(g, u, w)
          ensures JoinedWithin(g, s, u, w)
        {
          var t: set<nat> :| u in t && w in t && WeaklyConnected(g, t);
          assert u in t * s;
        }
        GroupsAreWeaklyConnectedIff(g, groups, k);
      }
    }
  }

  /**
   A group may join two nodes without any edge between them: an unnamed optional output of the first and a missing
   optional input of the second share the empty name.
   */
  lemma UnnamedOutputJoinsStrangers(groups: seq<Group>)
    requires Partitioned([Node([], ["a", ""], true), Node([""], ["b"], true)], groups)
    ensures var g := [Node([], ["a", ""], true), Node([""], ["b"], true)];
            && WellFormed(g) && !Edge(g, 0, 1) && !Edge(g, 1, 0)
            && GroupOf(groups, 0) == GroupOf(groups, 1) != None
  {
    var g := [Node([], ["a", ""], true), Node([""], ["b"], true)];
    StrangersAreLinked(g);
    hide Link, Edge, WellFormed, LastProducer;
    GroupsPartitionFuseableNodes(g, groups, 0);
    GroupsPartitionFuseableNodes(g, groups, 1);
    var k := GroupOf(groups, 0).value;
    LinkStaysInside(g, groups, k, 0, 1);
    SameGroup(g, groups, k, 1);
  }

  lemma StrangersAreLinked(g: Graph)
    requires g == [Node([], ["a", ""], true), Node([""], ["b"], true)]
    ensures WellFormed(g) && !Edge(g, 0, 1) && !Edge(g, 1, 0) && Link(g, 0, 1) && AllFuseable(g)
  {
    assert "" in g[1].inputs && LastProducer(g, "", 1) == Some(0);
  }
}
