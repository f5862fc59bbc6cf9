/**
 The merge-based partition builder of Tier-0 graph fusion. Nodes are numbered by their position in topological order;
 a node that may be fused joins or merges the open groups it consumes from, any other node finalizes them.
 */
module Partition {
  import opened Common

  datatype Node = Node(inputs: seq<string>, outputs: seq<string>, fuseable: bool)

  type Graph = seq<Node>

  datatype Group = Group(finalized: bool, nodes: seq<nat>)

  // ----- what the name table refers to -----

  /** The last fuseable node before `i` that writes `name`. */
  function LastProducer(g: Graph, name: string, i: nat): (r: Option<nat>)
    requires i <= |g|
    ensures r.Some? ==> r.value < i && g[r.value].fuseable && name in g[r.value].outputs
  {
    if i == 0 then None
    else if g[i - 1].fuseable && name in g[i - 1].outputs then Some(i - 1)
    else LastProducer(g, name, i - 1)
  }

  /** Node `v` reads a name whose last fuseable producer is `u`. A missing optional value has the empty name. */
  ghost predicate Link(g: Graph, u: nat, v: nat)
  {
    v < |g| && exists name :: name in g[v].inputs && LastProducer(g, name, v) == Some(u)
  }

  /** Group `grp` feeds node `v`. */
  ghost predicate Feeds(g: Graph, grp: Group, v: nat)
  {
    exists u: nat :: u in grp.nodes && Link(g, u, v)
  }

  // ----- the invariant -----

  ghost predicate Crossing(g: Graph, a: set<nat>, b: set<nat>)
  {
    exists u: nat, w: nat :: u in a && w in b && (Link(g, u, w) || Link(g, w, u))
  }

  /** No split of `s` into two nonempty parts is free of links between them. */
  ghost predicate Connected(g: Graph, s: set<nat>)
  {
    forall a: set<nat> | a <= s && a != {} && a != s :: Crossing(g, a, s - a)
  }

  ghost function Members(grp: Group): set<nat>
  {
    set v | v in grp.nodes
  }

  /** Members come in an order compatible with the links between them, none twice. */
  ghost predicate Ordered(g: Graph, nodes: seq<nat>)
  {
    forall p, q | 0 <= p < q < |nodes| :: nodes[p] != nodes[q] && !Link(g, nodes[q], nodes[p])
  }

  /** All members come before position `i` and may be fused. */
  ghost predicate Below(g: Graph, grp: Group, i: nat)
  {
    forall v: nat | v in grp.nodes :: v < i && v < |g| && g[v].fuseable
  }

  ghost predicate Apart(a: Group, b: Group)
  {
    forall v: nat | v in a.nodes :: v !in b.nodes
  }

  ghost predicate Covers(g: Graph, groups: seq<Group>, i: nat)
  {
    && (forall k | 0 <= k < |groups| :: Below(g, groups[k], i))
    && (forall v: nat | v < i && v < |g| && g[v].fuseable :: exists k :: 0 <= k < |groups| && v in groups[k].nodes)
    && (forall j, k | 0 <= j < |groups| && 0 <= k < |groups| && j != k :: Apart(groups[j], groups[k]))
  }

  /** Nothing outside an open group has consumed from it yet. */
  ghost predicate Closed(g: Graph, grp: Group, i: nat)
  {
    forall u: nat, v: nat | u in grp.nodes && v < i && Link(g, u, v) :: v in grp.nodes
  }

  /** `b` is a boundary node after all members that consumes from the group. */
  ghost predicate CutAt(g: Graph, grp: Group, b: nat)
  {
    && b < |g| && !g[b].fuseable && Feeds(g, grp, b)
    && forall u | u in grp.nodes :: u < b
  }

  /** A frozen group was cut by a boundary node, and whatever else consumes from it comes no earlier than such a cut. */
  ghost predicate Frozen(g: Graph, grp: Group, i: nat)
  {
    && (grp.nodes != [] ==> exists b: nat :: b < i && CutAt(g, grp, b))
    && forall u: nat, v: nat | u in grp.nodes && v < i && Link(g, u, v) && v !in grp.nodes ::
         exists b: nat :: b <= v && CutAt(g, grp, b)
  }

  ghost predicate GroupOk(g: Graph, grp: Group, i: nat)
  {
    && Ordered(g, grp.nodes)
    && (if grp.finalized then Frozen(g, grp, i) else grp.nodes != [] && Closed(g, grp, i))
  }

  ghost predicate Names(g: Graph, groups: seq<Group>, owner: map<string, nat>, i: nat)
    requires i <= |g|
  {
    && (forall name :: name in owner <==> LastProducer(g, name, i).Some?)
    && (forall name | name in owner ::
          owner[name] < |groups| && LastProducer(g, name, i).value in groups[owner[name]].nodes)
  }

  ghost predicate Inv(g: Graph, groups: seq<Group>, owner: map<string, nat>, i: nat)
  {
    && i <= |g|
    && Covers(g, groups, i)
    && Names(g, groups, owner, i)
    && (forall k | 0 <= k < |groups| :: GroupOk(g, groups[k], i))
  }

  ghost predicate AllConnected(g: Graph, groups: seq<Group>)
  {
    forall k | 0 <= k < |groups| :: Connected(g, Members(groups[k]))
  }

  // ----- boundary nodes -----

  lemma OwnerOfLink(g: Graph, groups: seq<Group>, owner: map<string, nat>, v: nat, name: string)
    requires Inv(g, groups, owner, v) && v < |g| && name in g[v].inputs && name in owner
    ensures Feeds(g, groups[owner[name]], v)
  {
    var u := LastProducer(g, name, v).value;
    assert Link(g, u, v);
  }

  /** Group `k` feeds `v` exactly when the name table maps one of the inputs of `v` to it. */
  lemma FeedsByName(g: Graph, groups: seq<Group>, owner: map<string, nat>, v: nat, k: nat)
    requires Inv(g, groups, owner, v) && v < |g| && k < |groups|
    ensures Feeds(g, groups[k], v) <==> exists name :: name in g[v].inputs && name in owner && owner[name] == k
  {
    if Feeds(g, groups[k], v) {
      var u :| u in groups[k].nodes && Link(g, u, v);
      var name :| name in g[v].inputs && LastProducer(g, name, v) == Some(u);
      assert name in owner && u in groups[owner[name]].nodes;
    }
    if name :| name in g[v].inputs && name in owner && owner[name] == k {
      OwnerOfLink(g, groups, owner, v, name);
    }
  }

  method FinalizeUpstream(g: Graph, groups: seq<Group>, owner: map<string, nat>, v: nat) returns (r: seq<Group>)
    requires Inv(g, groups, owner, v) && v < |g|
    ensures |r| == |groups|
    ensures forall k | 0 <= k < |r| ::
              r[k] == if Feeds(g, groups[k], v) then groups[k].(finalized := true) else groups[k]
  {
    hide GroupOk, Feeds, Covers;
    r := groups;
    var inputs := g[v].inputs;
    for n := 0 to |inputs|
      invariant |r| == |groups|
      invariant forall k | 0 <= k < |r| ::
                  r[k] == if exists m :: 0 <= m < n && inputs[m] in owner && owner[inputs[m]] == k
                          then groups[k].(finalized := true) else groups[k]
    {
      if inputs[n] in owner && !r[owner[inputs[n]]].finalized {
        r := r[owner[inputs[n]] := r[owner[inputs[n]]].(finalized := true)];
      }
    }
    forall k | 0 <= k < |r|
      ensures Feeds(g, groups[k], v) <==> exists m :: 0 <= m < |inputs| && inputs[m] in owner && owner[inputs[m]] == k
    {
      FeedsByName(g, groups, owner, v, k);
    }
  }

  lemma BoundaryGroup(g: Graph, grp: Group, v: nat)
    requires v < |g| && !g[v].fuseable && GroupOk(g, grp, v) && Below(g, grp, v)
    ensures GroupOk(g, if Feeds(g, grp, v) then grp.(finalized := true) else grp, v + 1)
  {
    hide Link, Ordered;
    if Feeds(g, grp, v) && !grp.finalized {
      var r := grp.(finalized := true);
      assert Feeds(g, r, v);
      assert CutAt(g, r, v);
    } else if !Feeds(g, grp, v) {
      assert forall u: nat | u in grp.nodes :: !Link(g, u, v);
    }
  }

  lemma BoundaryStep(g: Graph, groups: seq<Group>, owner: map<string, nat>, v: nat, r: seq<Group>)
    requires Inv(g, groups, owner, v) && v < |g| && !g[v].fuseable && |r| == |groups|
    requires forall k | 0 <= k < |r| ::
               r[k] == if Feeds(g, groups[k], v) then groups[k].(finalized := true) else groups[k]
    ensures Inv(g, r, owner, v + 1)
  {
    hide Feeds, GroupOk, LastProducer;
    forall name
      ensures LastProducer(g, name, v + 1) == LastProducer(g, name, v)
    {
      LastProducerStep(g, name, v);
    }
    forall k | 0 <= k < |r|
      ensures GroupOk(g, r[k], v + 1) && r[k].nodes == groups[k].nodes
    {
      BoundaryGroup(g, groups[k], v);
    }
    SameNodesCover(g, groups, r, v);
    hide Covers;
  }

  lemma SameNodesCover(g: Graph, groups: seq<Group>, r: seq<Group>, v: nat)
    requires Covers(g, groups, v) && v < |g| && !g[v].fuseable
    requires |r| == |groups| && forall k | 0 <= k < |r| :: r[k].nodes == groups[k].nodes
    ensures Covers(g, r, v + 1)
  {
    forall x: nat | x < v && g[x].fuseable
      ensures exists k :: 0 <= k < |r| && x in r[k].nodes
    {
      var k :| 0 <= k < |groups| && x in groups[k].nodes;
      assert x in r[k].nodes;
    }
  }

  // ----- fuseable nodes -----

  method OpenUpstream(g: Graph, groups: seq<Group>, owner: map<string, nat>, v: nat) returns (open: seq<nat>)
    requires Inv(g, groups, owner, v) && v < |g|
    ensures forall p, q | 0 <= p < q < |open| :: open[p] != open[q]
    ensures forall k: nat :: k in open <==> k < |groups| && !groups[k].finalized && Feeds(g, groups[k], v)
  {
    hide GroupOk, Feeds, Covers;
    open := [];
    var inputs := g[v].inputs;
    for n := 0 to |inputs|
      invariant forall p, q | 0 <= p < q < |open| :: open[p] != open[q]
      invariant forall k: nat ::
                  k in open <==> (k < |groups| && !groups[k].finalized
                                  && exists m :: 0 <= m < n && inputs[m] in owner && owner[inputs[m]] == k)
    {
      if inputs[n] in owner {
        var gid := owner[inputs[n]];
        if !groups[gid].finalized && gid !in open {
          open := open + [gid];
        }
      }
    }
    forall k | 0 <= k < |groups|
      ensures Feeds(g, groups[k], v) <==> exists m :: 0 <= m < |inputs| && inputs[m] in owner && owner[inputs[m]] == k
    {
      FeedsByName(g, groups, owner, v, k);
    }
  }

  /** Moves all of `src` behind `target`. */
  function Absorb(groups: seq<Group>, target: nat, src: nat): (r: seq<Group>)
    requires target < |groups| && src < |groups| && src != target
    ensures |r| == |groups|
  {
    groups[target := groups[target].(nodes := groups[target].nodes + groups[src].nodes)]
          [src := Group(true, [])]
  }

  function Renamed(owner: map<string, nat>, src: nat, target: nat): map<string, nat>
  {
    map name | name in owner :: if owner[name] == src then target else owner[name]
  }

  /** There is no link between two different open groups, so their concatenation is still in order. */
  lemma AbsorbGroup(g: Graph, a: seq<nat>, b: seq<nat>, v: nat)
    requires GroupOk(g, Group(false, a), v) && GroupOk(g, Group(false, b), v)
    requires Apart(Group(false, a), Group(false, b)) && Below(g, Group(false, a), v) && Below(g, Group(false, b), v)
    ensures GroupOk(g, Group(false, a + b), v)
  {
    hide Link;
    assert forall x :: x in a + b <==> x in a || x in b;
    assert Closed(g, Group(false, b), v);
    forall p, q | 0 <= p < q < |a + b|
      ensures (a + b)[p] != (a + b)[q] && !Link(g, (a + b)[q], (a + b)[p])
    {
      if p < |a| <= q {
        assert a[p] in a && b[q - |a|] in b;
      }
    }
  }

  lemma AbsorbKeepsCovers(g: Graph, groups: seq<Group>, v: nat, target: nat, src: nat)
    requires Covers(g, groups, v) && target < |groups| && src < |groups| && src != target
    ensures Covers(g, Absorb(groups, target, src), v)
  {
    var r := Absorb(groups, target, src);
    assert forall x :: x in r[target].nodes <==> x in groups[target].nodes || x in groups[src].nodes;
    forall x: nat | x < v && x < |g| && g[x].fuseable
      ensures exists k :: 0 <= k < |r| && x in r[k].nodes
    {
      var k :| 0 <= k < |groups| && x in groups[k].nodes;
      assert x in r[if k == src then target else k].nodes;
    }
  }

  lemma AbsorbKeepsNames(g: Graph, groups: seq<Group>, owner: map<string, nat>, v: nat, target: nat, src: nat)
    requires v <= |g| && Names(g, groups, owner, v) && target < |groups| && src < |groups| && src != target
    ensures Names(g, Absorb(groups, target, src), Renamed(owner, src, target), v)
  {
    hide LastProducer;
    var r := Absorb(groups, target, src);
    forall x, k | 0 <= k < |groups| && x in groups[k].nodes
      ensures x in r[if k == src then target else k].nodes
    {
    }
  }

  lemma AbsorbKeepsInv(g: Graph, groups: seq<Group>, owner: map<string, nat>, v: nat, target: nat, src: nat)
    requires Inv(g, groups, owner, v) && target < |groups| && src < |groups| && src != target
    requires !groups[target].finalized && !groups[src].finalized
    ensures Inv(g, Absorb(groups, target, src), Renamed(owner, src, target), v)
  {
    hide GroupOk, Apart, Below, Names;
    var a, b := groups[target], groups[src];
    assert a == Group(false, a.nodes) && b == Group(false, b.nodes);
    AbsorbKeepsCovers(g, groups, v, target, src);
    AbsorbKeepsNames(g, groups, owner, v, target, src);
    AbsorbGroup(g, a.nodes, b.nodes, v);
    EmptyGroupOk(g, v);
    hide Covers;
  }

  lemma EmptyGroupOk(g: Graph, v: nat)
    ensures GroupOk(g, Group(true, []), v)
  {
  }

  /** Joining two sets through a common neighbour. */
  lemma ConnectedJoin(g: Graph, a: set<nat>, b: set<nat>, v: nat, w: nat)
    requires Connected(g, a + {v}) && Connected(g, b) && w in b && Link(g, w, v)
    ensures Connected(g, a + b + {v})
  {
    var s := a + b + {v};
    forall x: set<nat> | x <= s && x != {} && x != s
      ensures Crossing(g, x, s - x)
    {
      var left, right := x * (a + {v}), x * b;
      assert x == left + right;
      if left != {} && left != a + {v} {
        CrossingWidens(g, left, (a + {v}) - left, x, s - x);
      } else if right != {} && right != b {
        CrossingWidens(g, right, b - right, x, s - x);
      } else if left == {} {
        assert x == b && v !in x;
      } else {
        assert v in x && w !in x;
      }
    }
  }

  lemma CrossingWidens(g: Graph, a: set<nat>, b: set<nat>, c: set<nat>, d: set<nat>)
    requires (a != {} && b != {} ==> Crossing(g, a, b)) && a != {} && b != {}
    requires a <= c && b <= d
    ensures Crossing(g, c, d)
  {
  }

  lemma SingletonConnected(g: Graph, v: nat)
    ensures Connected(g, {v})
  {
    forall a: set<nat> | a <= {v} && a != {}
      ensures a == {v}
    {
      var x :| x in a;
      assert x == v;
    }
  }

  /** While groups are being merged, the target is connected once the new node `v` is counted in. */
  ghost predicate MergedSoFar(g: Graph, groups: seq<Group>, v: nat, target: nat)
  {
    && target < |groups| && !groups[target].finalized
    && Connected(g, Members(groups[target]) + {v})
    && forall k | 0 <= k < |groups| && k != target :: Connected(g, Members(groups[k]))
  }

  lemma TargetIsOpen(g: Graph, groups: seq<Group>, v: nat, target: nat)
    requires MergedSoFar(g, groups, v, target)
    ensures target < |groups| && !groups[target].finalized
  {
  }

  method MergeOpen(g: Graph, groups0: seq<Group>, owner0: map<string, nat>, v: nat, open: seq<nat>)
    returns (groups: seq<Group>, owner: map<string, nat>)
    requires Inv(g, groups0, owner0, v) && v < |g| && AllConnected(g, groups0) && open != []
    requires forall p, q | 0 <= p < q < |open| :: open[p] != open[q]
    requires forall k: nat :: k in open <==> k < |groups0| && !groups0[k].finalized && Feeds(g, groups0[k], v)
    ensures Inv(g, groups, owner, v) && MergedSoFar(g, groups, v, open[0])
    ensures |groups| == |groups0|
    ensures forall k | 0 <= k < |groups| && k != open[0] && !groups[k].finalized :: !Feeds(g, groups[k], v)
  {
    hide Inv, MergedSoFar, AllConnected, Feeds;
    groups, owner := groups0, owner0;
    var target := open[0];
    assert open[0] in open;
    MergeStarts(g, groups, v, target);
    for k := 1 to |open|
      invariant |groups| == |groups0|
      invariant Inv(g, groups, owner, v) && MergedSoFar(g, groups, v, target)
      invariant forall j | 0 <= j < |groups| && j !in open[..k] :: groups[j] == groups0[j]
      invariant forall j | 1 <= j < k :: open[j] in open && groups[open[j]].finalized
    {
      var src := open[k];
      assert src in open && open[0] != src;
      assert src !in open[..k];
      assert open[..k + 1] == open[..k] + [src];
      assert target < |groups| && !groups[target].finalized by {
        TargetIsOpen(g, groups, v, target);
      }
      AbsorbKeepsInv(g, groups, owner, v, target, src);
      AbsorbKeepsConnected(g, groups, v, target, src);
      groups := Absorb(groups, target, src);
      owner := Renamed(owner, src, target);
    }
    assert open[..|open|] == open;
  }

  lemma MergeStarts(g: Graph, groups: seq<Group>, v: nat, target: nat)
    requires AllConnected(g, groups) && target < |groups| && !groups[target].finalized && Feeds(g, groups[target], v)
    ensures MergedSoFar(g, groups, v, target)
  {
    var w :| w in groups[target].nodes && Link(g, w, v);
    SingletonConnected(g, v);
    assert {} + {v} == {v};
    ConnectedJoin(g, {}, Members(groups[target]), v, w);
    assert {} + Members(groups[target]) + {v} == Members(groups[target]) + {v};
  }

  lemma AbsorbKeepsConnected(g: Graph, groups: seq<Group>, v: nat, target: nat, src: nat)
    requires MergedSoFar(g, groups, v, target) && src < |groups| && src != target && Feeds(g, groups[src], v)
    ensures MergedSoFar(g, Absorb(groups, target, src), v, target)
  {
    var r := Absorb(groups, target, src);
    var w :| w in groups[src].nodes && Link(g, w, v);
    ConnectedJoin(g, Members(groups[target]), Members(groups[src]), v, w);
    assert Members(r[target]) + {v} == Members(groups[target]) + Members(groups[src]) + {v};
    assert Members(r[src]) == {};
  }

  function Joined(groups: seq<Group>, target: nat, v: nat): seq<Group>
    requires target < |groups|
  {
    groups[target := groups[target].(nodes := groups[target].nodes + [v])]
  }

  lemma LastProducerStep(g: Graph, name: string, i: nat)
    requires i < |g|
    ensures LastProducer(g, name, i + 1)
            == if g[i].fuseable && name in g[i].outputs then Some(i) else LastProducer(g, name, i)
  {
  }

  lemma JoinGroup(g: Graph, grp: Group, v: nat)
    requires v < |g| && GroupOk(g, grp, v) && !grp.finalized && Below(g, grp, v)
    ensures GroupOk(g, grp.(nodes := grp.nodes + [v]), v + 1)
  {
    hide LastProducer;
    var nodes := grp.nodes + [v];
    assert forall x :: x in nodes <==> x in grp.nodes || x == v;
    forall p, q | 0 <= p < q < |nodes|
      ensures nodes[p] != nodes[q] && !Link(g, nodes[q], nodes[p])
    {
      assert nodes[p] in grp.nodes;
      if q == |grp.nodes| {
        LinkGoesForward(g, v, nodes[p]);
      }
    }
    forall w: nat
      ensures !Link(g, v, w) || v < w
    {
      LinkGoesForward(g, v, w);
    }
  }

  lemma LinkGoesForward(g: Graph, u: nat, v: nat)
    ensures Link(g, u, v) ==> u < v && v < |g| && g[u].fuseable
  {
  }

  /** Groups that do not get the new node keep their condition. */
  lemma OtherGroup(g: Graph, grp: Group, v: nat)
    requires v < |g| && GroupOk(g, grp, v) && (!grp.finalized ==> !Feeds(g, grp, v))
    requires Below(g, grp, v)
    ensures GroupOk(g, grp, v + 1)
  {
    hide Link, Ordered;
    if !grp.finalized {
      assert forall u: nat | u in grp.nodes :: !Link(g, u, v);
    }
  }

  lemma JoinKeepsCovers(g: Graph, groups: seq<Group>, v: nat, target: nat)
    requires Covers(g, groups, v) && v < |g| && g[v].fuseable && target < |groups|
    ensures Covers(g, Joined(groups, target, v), v + 1)
  {
    var r := Joined(groups, target, v);
    assert forall x :: x in r[target].nodes <==> x in groups[target].nodes || x == v;
    forall x: nat | x < v + 1 && g[x].fuseable
      ensures exists k :: 0 <= k < |r| && x in r[k].nodes
    {
      if x == v {
        assert x in r[target].nodes;
      } else {
        var k :| 0 <= k < |groups| && x in groups[k].nodes;
        assert x in r[k].nodes;
      }
    }
  }

  lemma JoinKeepsInv(
      g: Graph, groups: seq<Group>, owner: map<string, nat>, v: nat, target: nat, owner': map<string, nat>)
    requires Inv(g, groups, owner, v) && v < |g| && g[v].fuseable && target < |groups| && !groups[target].finalized
    requires forall k | 0 <= k < |groups| && k != target && !groups[k].finalized :: !Feeds(g, groups[k], v)
    requires forall name :: name in owner' <==> name in owner || name in g[v].outputs
    requires forall name | name in owner' :: owner'[name] == if name in g[v].outputs then target else owner[name]
    ensures Inv(g, Joined(groups, target, v), owner', v + 1)
  {
    var r := Joined(groups, target, v);
    assert forall x :: x in r[target].nodes <==> x in groups[target].nodes || x == v;
    JoinKeepsCovers(g, groups, v, target);
    hide GroupOk, Covers, Feeds, Below;
    forall k | 0 <= k < |r|
      ensures GroupOk(g, r[k], v + 1)
    {
      if k == target {
        JoinGroup(g, groups[k], v);
      } else {
        OtherGroup(g, groups[k], v);
      }
    }
    forall name
      ensures name in owner' <==> LastProducer(g, name, v + 1).Some?
      ensures name in owner' ==>
                owner'[name] < |r| && LastProducer(g, name, v + 1).value in r[owner'[name]].nodes
    {
      LastProducerStep(g, name, v);
    }
  }

  lemma NewGroupKeepsInv(g: Graph, groups: seq<Group>, owner: map<string, nat>, v: nat, owner': map<string, nat>)
    requires Inv(g, groups, owner, v) && v < |g| && g[v].fuseable
    requires forall k | 0 <= k < |groups| && !groups[k].finalized :: !Feeds(g, groups[k], v)
    requires forall name :: name in owner' <==> name in owner || name in g[v].outputs
    requires forall name | name in owner' :: owner'[name] == if name in g[v].outputs then |groups| else owner[name]
    ensures Inv(g, groups + [Group(false, [v])], owner', v + 1)
  {
    var r := groups + [Group(false, [v])];
    assert Covers(g, r, v + 1) by {
      NewGroupKeepsCovers(g, groups, v);
    }
    assert GroupOk(g, r[|groups|], v + 1) by {
      SingletonGroup(g, v);
    }
    hide GroupOk, Covers, Feeds, Below;
    forall k | 0 <= k < |groups|
      ensures GroupOk(g, r[k], v + 1)
    {
      assert Below(g, groups[k], v) by {
        GroupIsBelow(g, groups, v, k);
      }
      OtherGroup(g, groups[k], v);
    }
    forall name
      ensures name in owner' <==> LastProducer(g, name, v + 1).Some?
      ensures name in owner' ==>
                owner'[name] < |r| && LastProducer(g, name, v + 1).value in r[owner'[name]].nodes
    {
      LastProducerStep(g, name, v);
    }
  }

  lemma GroupIsBelow(g: Graph, groups: seq<Group>, v: nat, k: nat)
    requires Covers(g, groups, v) && k < |groups|
    ensures Below(g, groups[k], v)
  {
  }

  lemma NewGroupKeepsCovers(g: Graph, groups: seq<Group>, v: nat)
    requires Covers(g, groups, v) && v < |g| && g[v].fuseable
    ensures Covers(g, groups + [Group(false, [v])], v + 1)
  {
    var r := groups + [Group(false, [v])];
    assert v in r[|groups|].nodes;
    forall x: nat | x < v && g[x].fuseable
      ensures exists k :: 0 <= k < |r| && x in r[k].nodes
    {
      var k :| 0 <= k < |groups| && x in groups[k].nodes;
      assert x in r[k].nodes;
    }
  }

  lemma SingletonGroup(g: Graph, v: nat)
    requires v < |g|
    ensures GroupOk(g, Group(false, [v]), v + 1)
  {
    forall w: nat
      ensures !Link(g, v, w) || v < w
    {
      LinkGoesForward(g, v, w);
    }
  }

  // ----- the builder -----

  /** What the finished groups satisfy. */
  ghost predicate Partitioned(g: Graph, groups: seq<Group>)
  {
    && Covers(g, groups, |g|)
    && (forall k | 0 <= k < |groups| :: GroupOk(g, groups[k], |g|))
    && AllConnected(g, groups)
  }

  method BuildGroups(g: Graph) returns (groups: seq<Group>)
    ensures Partitioned(g, groups)
  {
    groups := [];
    var owner: map<string, nat> := map[];
    for v := 0 to |g|
      invariant Inv(g, groups, owner, v) && AllConnected(g, groups)
    {
      groups, owner := PlaceNode(g, groups, owner, v);
    }
  }

  method PlaceNode(g: Graph, groups0: seq<Group>, owner0: map<string, nat>, v: nat)
    returns (groups: seq<Group>, owner: map<string, nat>)
    requires v < |g| && Inv(g, groups0, owner0, v) && AllConnected(g, groups0)
    ensures Inv(g, groups, owner, v + 1) && AllConnected(g, groups)
  {
    hide Inv, Connected, Feeds;
    groups, owner := groups0, owner0;
    if !g[v].fuseable {
      groups := FinalizeUpstream(g, groups, owner, v);
      BoundaryStep(g, groups0, owner0, v, groups);
      return;
    }
    var open := OpenUpstream(g, groups, owner, v);
    var target;
    if open == [] {
      target := |groups|;
      SingletonConnected(g, v);
      owner := Owned(g, owner, v, target);
      NewGroupKeepsInv(g, groups, owner0, v, owner);
      groups := groups + [Group(false, [v])];
      assert Members(groups[target]) == {v};
    } else {
      target := open[0];
      groups, owner := MergeOpen(g, groups, owner, v, open);
      ghost var merged, mergedOwner := groups, owner;
      owner := Owned(g, owner, v, target);
      JoinKeepsInv(g, groups, mergedOwner, v, target, owner);
      groups := Joined(groups, target, v);
      assert Members(groups[target]) == Members(merged[target]) + {v};
    }
  }

  /** The outputs of `v` now belong to `target`. */
  method Owned(g: Graph, owner0: map<string, nat>, v: nat, target: nat) returns (owner: map<string, nat>)
    requires v < |g|
    ensures forall name :: name in owner <==> name in owner0 || name in g[v].outputs
    ensures forall name | name in owner :: owner[name] == if name in g[v].outputs then target else owner0[name]
  {
    owner := owner0;
    var outputs := g[v].outputs;
    for n := 0 to |outputs|
      invariant forall name :: name in owner <==> name in owner0 || name in outputs[..n]
      invariant forall name | name in owner :: owner[name] == if name in outputs[..n] then target else owner0[name]
    {
      assert outputs[..n + 1] == outputs[..n] + [outputs[n]];
      owner := owner[outputs[n] := target];
    }
    assert outputs[..|outputs|] == outputs;
  }
}
