/**
 Claiming nodes in three tiers: whole Tier-0 groups over repeated attempts, then fusion patterns, then single nodes.
 Every supported node that does not prefer the CPU is claimed once, and nothing else is.
 */
module TierClaims {
  import opened Common
  import opened Partition
  import Matching = FusionMatching
  import FusionPass

  const MAX_ITERATIONS: nat := 10

  ghost predicate GroupsOk(groups: seq<Group>, supported: set<nat>, cpu: set<nat>)
  {
    && (forall k, v | 0 <= k < |groups| && v in groups[k].nodes :: v in supported && v !in cpu)
    && (forall k, p, q | 0 <= k < |groups| && 0 <= p < q < |groups[k].nodes| ::
          groups[k].nodes[p] != groups[k].nodes[q])
    && (forall j, k, v | 0 <= j < k < |groups| && v in groups[j].nodes :: v !in groups[k].nodes)
  }

  /** The groups that the builder makes satisfy this, if fuseable nodes are supported and do not prefer the CPU. */
  lemma BuiltGroupsOk(g: Graph, groups: seq<Group>, supported: set<nat>, cpu: set<nat>)
    requires Partitioned(g, groups)
    requires forall v | 0 <= v < |g| && g[v].fuseable :: v in supported && v !in cpu
    ensures GroupsOk(groups, supported, cpu)
  {
    forall k, v | 0 <= k < |groups| && v in groups[k].nodes
      ensures v in supported && v !in cpu
    {
      assert Below(g, groups[k], |g|);
    }
    forall k, p, q | 0 <= k < |groups| && 0 <= p < q < |groups[k].nodes|
      ensures groups[k].nodes[p] != groups[k].nodes[q]
    {
      assert GroupOk(g, groups[k], |g|);
    }
    forall j, k, v | 0 <= j < k < |groups| && v in groups[j].nodes
      ensures v !in groups[k].nodes
    {
      assert Apart(groups[j], groups[k]);
    }
  }

  /** The nodes of the claimed groups. */
  ghost predicate ClaimedNodes(groups: seq<Group>, claimed: seq<bool>, nodes: set<nat>)
  {
    && |claimed| == |groups|
    && forall v :: v in nodes <==> exists k :: 0 <= k < |groups| && claimed[k] && v in groups[k].nodes
  }

  // ----- which groups are claimed -----

  /** Group `k` gets through all checks in one of the first `n` rounds. */
  ghost predicate PassesBefore(passes: (nat, nat) -> bool, k: nat, n: nat)
  {
    exists j: nat :: j < n && passes(j, k)
  }

  /** The nonempty group `k` gets through in round `i` and did not before. */
  ghost predicate FirstPass(groups: seq<Group>, passes: (nat, nat) -> bool, i: nat, k: nat)
    requires k < |groups|
  {
    groups[k].nodes != [] && passes(i, k) && !PassesBefore(passes, k, i)
  }

  ghost predicate SomeFirstPass(groups: seq<Group>, passes: (nat, nat) -> bool, i: nat, n: nat)
    requires n <= |groups|
  {
    exists k: nat :: k < n && FirstPass(groups, passes, i, k)
  }

  /** Round `i` resolves further shapes, or a nonempty group gets through for the first time. */
  ghost predicate Progress(groups: seq<Group>, passes: (nat, nat) -> bool, shapesGrew: nat -> bool, i: nat)
  {
    shapesGrew(i) || SomeFirstPass(groups, passes, i, |groups|)
  }

  /** There are rounds as long as each one makes progress, ten at most. */
  ghost predicate RoundsDone(groups: seq<Group>, passes: (nat, nat) -> bool, shapesGrew: nat -> bool, rounds: nat)
  {
    && 0 < rounds <= 10
    && (forall i: nat | i < rounds - 1 :: Progress(groups, passes, shapesGrew, i))
    && (rounds < 10 ==> !Progress(groups, passes, shapesGrew, rounds - 1))
  }

  /** The nodes of the groups that get through in one of the rounds. */
  ghost predicate PassedNodes(groups: seq<Group>, passes: (nat, nat) -> bool, rounds: nat, nodes: set<nat>)
  {
    forall v :: v in nodes <==>
      exists k, j: nat :: 0 <= k < |groups| && j < rounds && passes(j, k) && v in groups[k].nodes
  }

  /** `claimed` after `i` rounds and the first `k` groups of the next one. */
  ghost predicate ClaimedSoFar(
      groups: seq<Group>, claimed: seq<bool>, passes: (nat, nat) -> bool, i: nat, k: nat)
  {
    && |claimed| == |groups|
    && forall g | 0 <= g < |groups| ::
         claimed[g] <==> groups[g].nodes != [] && PassesBefore(passes, g, if g < k then i + 1 else i)
  }

  lemma NoneClaimed(groups: seq<Group>, claimed: seq<bool>, passes: (nat, nat) -> bool)
    requires |claimed| == |groups| && forall k | 0 <= k < |claimed| :: !claimed[k]
    ensures ClaimInv(groups, passes, 0, 0, claimed, {}, multiset{}, false)
  {
  }

  lemma RoundOver(groups: seq<Group>, claimed: seq<bool>, passes: (nat, nat) -> bool, i: nat,
                  nodes: set<nat>, claims: multiset<nat>, any: bool)
    requires ClaimInv(groups, passes, i, |groups|, claimed, nodes, claims, any)
    ensures ClaimInv(groups, passes, i + 1, 0, claimed, nodes, claims, any)
  {
  }

  lemma NoneYet(groups: seq<Group>, passes: (nat, nat) -> bool, i: nat)
    ensures !SomeFirstPass(groups, passes, i, 0)
  {
  }

  /** One more group: claimed if it was not before and gets through now. */
  lemma GroupTried(groups: seq<Group>, claimed: seq<bool>, passes: (nat, nat) -> bool, i: nat, k: nat)
    requires ClaimedSoFar(groups, claimed, passes, i, k) && k < |groups|
    ensures var now := claimed[k] || (groups[k].nodes != [] && passes(i, k));
            ClaimedSoFar(groups, claimed[k := now], passes, i, k + 1)
    ensures SomeFirstPass(groups, passes, i, k + 1)
            <==> SomeFirstPass(groups, passes, i, k) || (groups[k].nodes != [] && passes(i, k) && !claimed[k])
  {
    assert FirstPass(groups, passes, i, k) <==> groups[k].nodes != [] && passes(i, k) && !claimed[k];
    if PassesBefore(passes, k, i + 1) && !PassesBefore(passes, k, i) {
      assert passes(i, k);
    }
  }

  lemma ClaimedArePassed(
      groups: seq<Group>, claimed: seq<bool>, nodes: set<nat>, passes: (nat, nat) -> bool, rounds: nat)
    requires ClaimedNodes(groups, claimed, nodes) && ClaimedSoFar(groups, claimed, passes, rounds, 0)
    ensures PassedNodes(groups, passes, rounds, nodes)
  {
    forall v
      ensures v in nodes <==>
                exists k, j: nat :: 0 <= k < |groups| && j < rounds && passes(j, k) && v in groups[k].nodes
    {
      if v in nodes {
        var k :| 0 <= k < |groups| && claimed[k] && v in groups[k].nodes;
        var j: nat :| j < rounds && passes(j, k);
      }
      if k, j: nat :| 0 <= k < |groups| && j < rounds && passes(j, k) && v in groups[k].nodes {
        assert claimed[k];
      }
    }
  }

  /** What has been claimed after `i` rounds and the first `k` groups of the next one. */
  ghost predicate ClaimInv(
      groups: seq<Group>, passes: (nat, nat) -> bool, i: nat, k: nat,
      claimed: seq<bool>, nodes: set<nat>, claims: multiset<nat>, any: bool)
  {
    && ClaimedNodes(groups, claimed, nodes) && ClaimedSoFar(groups, claimed, passes, i, k)
    && claims == multiset(nodes) && (any <==> nodes != {})
  }

  /** Group `k` of round `i`: claimed now, or passed over. */
  lemma ClaimStep(
      groups: seq<Group>, supported: set<nat>, cpu: set<nat>, passes: (nat, nat) -> bool, i: nat, k: nat,
      claimed: seq<bool>, nodes: set<nat>, claims: multiset<nat>, any: bool)
    requires GroupsOk(groups, supported, cpu) && k < |groups| == |claimed|
    requires ClaimInv(groups, passes, i, k, claimed, nodes, claims, any)
    ensures var list := groups[k].nodes;
            var now := list != [] && !claimed[k] && passes(i, k);
            && (SomeFirstPass(groups, passes, i, k + 1) <==> SomeFirstPass(groups, passes, i, k) || now)
            && if now then
                 && |nodes| < |nodes + Elements(list)|
                 && ClaimInv(groups, passes, i, k + 1, claimed[k := true], nodes + Elements(list),
                             claims + multiset(list), true)
               else ClaimInv(groups, passes, i, k + 1, claimed, nodes, claims, any)
  {
    hide GroupsOk, ClaimedNodes, ClaimedSoFar, SomeFirstPass, Elements;
    var list := groups[k].nodes;
    GroupTried(groups, claimed, passes, i, k);
    if list != [] && !claimed[k] && passes(i, k) {
      ClaimOne(groups, claimed, nodes, supported, cpu, k);
      GrowsBy(nodes, Elements(list));
    } else {
      assert claimed[k := claimed[k]] == claimed;
    }
  }

  lemma ClaimEnds(
      groups: seq<Group>, supported: set<nat>, cpu: set<nat>, passes: (nat, nat) -> bool, rounds: nat,
      claimed: seq<bool>, nodes: set<nat>, claims: multiset<nat>, any: bool)
    requires GroupsOk(groups, supported, cpu) && ClaimInv(groups, passes, rounds, 0, claimed, nodes, claims, any)
    ensures claims == multiset(nodes) && (any <==> nodes != {}) && PassedNodes(groups, passes, rounds, nodes)
    ensures forall v | v in nodes :: v in supported && v !in cpu
  {
    hide ClaimedNodes, ClaimedSoFar, GroupsOk;
    ClaimedAreEligible(groups, claimed, nodes, supported, cpu);
    ClaimedArePassed(groups, claimed, nodes, passes, rounds);
  }

  /**
   Up to ten rounds over the groups. `passes(i, k)` says whether group k gets through all checks in round i, and
   `shapesGrew(i)` whether round i resolved further shapes.
   */
  method ClaimGroups(groups: seq<Group>, supported: set<nat>, cpu: set<nat>,
                     passes: (nat, nat) -> bool, shapesGrew: nat -> bool)
    returns (claims: multiset<nat>, claimedNodes: set<nat>, any: bool, ghost rounds: nat)
    requires GroupsOk(groups, supported, cpu)
    ensures claims == multiset(claimedNodes) && (any <==> claimedNodes != {})
    ensures PassedNodes(groups, passes, rounds, claimedNodes) && RoundsDone(groups, passes, shapesGrew, rounds)
    ensures forall v | v in claimedNodes :: v in supported && v !in cpu
  {
    hide GroupsOk, ClaimInv, ClaimedNodes, ClaimedSoFar, PassedNodes, SomeFirstPass, Elements;
    claims, claimedNodes, any, rounds := multiset{}, {}, false, 0;
    var claimed := seq(|groups|, _ => false);
    NoneClaimed(groups, claimed, passes);
    for i := 0 to MAX_ITERATIONS
      invariant |claimed| == |groups| && rounds == i
      invariant ClaimInv(groups, passes, i, 0, claimed, claimedNodes, claims, any)
      invariant forall j: nat | j < i :: Progress(groups, passes, shapesGrew, j)
    {
      var before := |claimedNodes|;
      NoneYet(groups, passes, i);
      for k := 0 to |groups|
        invariant |claimed| == |groups| && ClaimInv(groups, passes, i, k, claimed, claimedNodes, claims, any)
        invariant before <= |claimedNodes| && (before < |claimedNodes| <==> SomeFirstPass(groups, passes, i, k))
      {
        var nodes := groups[k].nodes;
        ClaimStep(groups, supported, cpu, passes, i, k, claimed, claimedNodes, claims, any);
        if nodes == [] || claimed[k] || !passes(i, k) {
          continue;
        }
        claims := claims + multiset(nodes);
        claimedNodes := claimedNodes + Elements(nodes);
        claimed := claimed[k := true];
        any := true;
      }
      RoundOver(groups, claimed, passes, i, claimedNodes, claims, any);
      rounds := i + 1;
      if !shapesGrew(i) && |claimedNodes| <= before {
        break;
      }
    }
    ClaimEnds(groups, supported, cpu, passes, rounds, claimed, claimedNodes, claims, any);
  }

  lemma GrowsBy(nodes: set<nat>, added: set<nat>)
    requires nodes !! added && added != {}
    ensures |nodes| < |nodes + added|
  {
    assert |nodes + added| == |nodes| + |added|;
  }

  lemma ClaimedAreEligible(groups: seq<Group>, claimed: seq<bool>, nodes: set<nat>, supported: set<nat>, cpu: set<nat>)
    requires GroupsOk(groups, supported, cpu) && ClaimedNodes(groups, claimed, nodes)
    ensures forall v | v in nodes :: v in supported && v !in cpu
  {
  }

  /** Claiming one more group adds its nodes once each, and they are new. */
  lemma ClaimOne(groups: seq<Group>, claimed: seq<bool>, nodes: set<nat>, supported: set<nat>, cpu: set<nat>, k: nat)
    requires GroupsOk(groups, supported, cpu) && ClaimedNodes(groups, claimed, nodes)
    requires k < |groups| && |claimed| == |groups| && !claimed[k]
    ensures ClaimedNodes(groups, claimed[k := true], nodes + Elements(groups[k].nodes))
    ensures nodes !! Elements(groups[k].nodes)
    ensures multiset(nodes) + multiset(groups[k].nodes) == multiset(nodes + Elements(groups[k].nodes))
    ensures groups[k].nodes != [] ==> Elements(groups[k].nodes) != {}
  {
    var list := groups[k].nodes;
    var after, added := claimed[k := true], Elements(list);
    forall v
      ensures v in nodes + added <==> exists j :: 0 <= j < |groups| && after[j] && v in groups[j].nodes
      ensures !(v in nodes && v in added)
    {
      NewAfterClaim(groups, claimed, nodes, supported, cpu, k, v);
    }
    assert ClaimedNodes(groups, after, nodes + added);
    hide ClaimedNodes;
    assert forall p, q | 0 <= p < q < |list| :: list[p] != list[q];
    hide GroupsOk;
    assert list != [] ==> list[0] in added;
    AddNew(nodes, list);
  }

  lemma NewAfterClaim(groups: seq<Group>, claimed: seq<bool>, nodes: set<nat>, supported: set<nat>, cpu: set<nat>,
                      k: nat, v: nat)
    requires GroupsOk(groups, supported, cpu) && ClaimedNodes(groups, claimed, nodes)
    requires k < |groups| && |claimed| == |groups| && !claimed[k]
    ensures v in nodes || v in groups[k].nodes
      <==> exists j :: 0 <= j < |groups| && claimed[k := true][j] && v in groups[j].nodes
    ensures !(v in nodes && v in groups[k].nodes)
  {
    var after := claimed[k := true];
    assert after[k];
    if v in nodes {
      var j :| 0 <= j < |groups| && claimed[j] && v in groups[j].nodes;
      assert after[j];
    }
  }

  /** The remaining nodes, one by one. */
  method ClaimSingles(count: nat, supported: set<nat>, cpu: set<nat>, taken: set<nat>) returns (claims: multiset<nat>)
    ensures claims == multiset(set v | v in supported && v < count && v !in cpu && v !in taken)
  {
    claims := multiset{};
    ghost var done: set<nat> := {};
    for v := 0 to count
      invariant claims == multiset(done)
      invariant forall w: nat :: w in done <==> w < v && w in supported && w !in cpu && w !in taken
    {
      if v in taken || v in cpu || v !in supported {
        continue;
      }
      claims := claims + multiset{v};
      done := done + {v};
    }
    assert done == set v | v in supported && v < count && v !in cpu && v !in taken;
  }

  /**
   Across the three tiers every supported node that does not prefer the CPU is claimed exactly once and no other node
   is, whichever checks succeed and however often the claiming loop runs. The first tier gets the nodes of the groups
   that pass, the second what the pattern fusions make of the rest, and the third what is left.
   */
  method ClaimNodes(
      groups: seq<Group>, g: Matching.Graph, graphOutputs: set<string>, supported: set<nat>, cpu: set<nat>,
      passes: (nat, nat) -> bool, shapesGrew: nat -> bool,
      index: map<string, Matching.Pattern>, accepts: Matching.Match -> bool, added: seq<nat> -> bool)
    returns (claims: multiset<nat>, ghost rounds: nat, ghost tier0Nodes: set<nat>, ghost fused: seq<seq<nat>>,
             ghost conn: Matching.Connectivity)
    requires GroupsOk(groups, supported, cpu) && forall v | v in supported :: v < |g|
    ensures forall v: nat :: claims[v] == if v in supported && v !in cpu then 1 else 0
    ensures RoundsDone(groups, passes, shapesGrew, rounds) && PassedNodes(groups, passes, rounds, tier0Nodes)
    ensures Matching.ConnectivityOk(g, conn, |g|) && conn.graphOutputs == graphOutputs
    ensures var rules := FusionPass.Rules(index, accepts, added, supported, cpu + tier0Nodes);
            fused == FusionPass.FusedBefore(g, conn, rules, |g|)
  {
    var tier0, claimed0, any;
    tier0, claimed0, any, rounds := ClaimGroups(groups, supported, cpu, passes, shapesGrew);
    tier0Nodes := claimed0;
    var excluded := if any then cpu + claimed0 else cpu;
    assert excluded == cpu + tier0Nodes;
    var tier2, fusedNodes;
    tier2, fusedNodes, fused, conn :=
      FusionPass.ApplyFusions(g, graphOutputs, FusionPass.Rules(index, accepts, added, supported, excluded));
    FusedAreEligible(fused, fusedNodes, supported, excluded);
    var taken := if any then claimed0 + fusedNodes else fusedNodes;
    var tier1 := ClaimSingles(|g|, supported, cpu, taken);
    claims := tier0 + tier2 + tier1;
    ghost var singles := set v | v in supported && v < |g| && v !in cpu && v !in taken;
    TiersAddUp(claimed0, fusedNodes, singles, supported, cpu);
  }

  lemma FusedAreEligible(fused: seq<seq<nat>>, fusedNodes: set<nat>, supported: set<nat>, excluded: set<nat>)
    requires FusionPass.FusionsOk(fused, supported, excluded)
    requires fusedNodes == FusionPass.Nodes(fused)
    ensures forall v | v in fusedNodes :: v in supported && v !in excluded
  {
  }

  /** Three disjoint sets that together make up the eligible nodes. */
  lemma TiersAddUp(a: set<nat>, b: set<nat>, c: set<nat>, supported: set<nat>, cpu: set<nat>)
    requires forall v: nat | v in a :: v !in b
    requires forall v: nat :: v in c <==> v in supported && v !in cpu && v !in a && v !in b
    requires forall v: nat | v in a || v in b :: v in supported && v !in cpu
    ensures forall v: nat ::
              (multiset(a) + multiset(b) + multiset(c))[v] == if v in supported && v !in cpu then 1 else 0
  {
  }
}
