/** Small datatypes and sequence facts shared by the other modules. */
module Common {

  datatype Option<+T> = None | Some(value: T)

  newtype byte = x: int | 0 <= x < 256

  /** The bytes of `memory` from `offset` on, `count` of them. */
  function Slice(memory: seq<byte>, offset: nat, count: nat): seq<byte>
    requires offset + count <= |memory|
  {
    memory[offset..offset + count]
  }

  /** `memory` after a memcpy of `data` to `offset`. */
  function Overwrite(memory: seq<byte>, offset: nat, data: seq<byte>): (r: seq<byte>)
    requires offset + |data| <= |memory|
    ensures |r| == |memory|
    ensures Slice(r, offset, |data|) == data
  {
    memory[..offset] + data + memory[offset + |data|..]
  }

  /** A memcpy leaves every range disjoint from its destination alone. */
  lemma OverwriteFrame(memory: seq<byte>, offset: nat, data: seq<byte>, other: nat, count: nat)
    requires offset + |data| <= |memory| && other + count <= |memory|
    requires other + count <= offset || offset + |data| <= other
    ensures Slice(Overwrite(memory, offset, data), other, count) == Slice(memory, other, count)
  {
    var updated := Overwrite(memory, offset, data);
    assert forall k | other <= k < other + count :: updated[k] == memory[k];
  }

  /** The elements of a sequence of sequences, in order. */
  function Flatten<T>(parts: seq<seq<T>>): seq<T>
  {
    if parts == [] then [] else Flatten(parts[..|parts| - 1]) + parts[|parts| - 1]
  }

  lemma FlattenAppend<T>(parts: seq<seq<T>>, last: seq<T>)
    ensures Flatten(parts + [last]) == Flatten(parts) + last
  {
    assert (parts + [last])[..|parts|] == parts;
  }

  lemma {:induction false} FlattenPrefix<T>(parts: seq<seq<T>>, n: nat)
    requires n <= |parts|
    ensures Flatten(parts[..n]) <= Flatten(parts)
    decreases |parts| - n
  {
    if n == |parts| {
      assert parts[..n] == parts;
    } else {
      assert parts[..n + 1][..n] == parts[..n];
      FlattenPrefix(parts, n + 1);
    }
  }

  function Elements(nodes: seq<nat>): set<nat>
  {
    set v | v in nodes
  }

  /** Nodes without repetition, counted as a multiset, are the multiset of their set. */
  lemma {:induction false} DistinctCounts(nodes: seq<nat>)
    requires forall p, q | 0 <= p < q < |nodes| :: nodes[p] != nodes[q]
    ensures multiset(nodes) == multiset(Elements(nodes))
  {
    if nodes != [] {
      var n := |nodes| - 1;
      var front := nodes[..n];
      DistinctCounts(front);
      assert nodes == front + [nodes[n]];
      assert nodes[n] !in front;
      assert Elements(nodes) == Elements(front) + {nodes[n]};
    }
  }

  /** Adding a list without repetition, none of it present, keeps the count at one each. */
  lemma AddNew(present: set<nat>, nodes: seq<nat>)
    requires forall p, q | 0 <= p < q < |nodes| :: nodes[p] != nodes[q]
    requires present !! Elements(nodes)
    ensures multiset(present) + multiset(nodes) == multiset(present + Elements(nodes))
  {
    DistinctCounts(nodes);
  }
}
