/**
 * The road network as the route sequencer sees it: opaque graph nodes and a
 * shortest-path distance between two of them (metres along the weighted
 * graph). The graph search itself is not modelled; a distance is any total,
 * deterministic, non-negative function of the two nodes.
 */
module Paths {

  /** A vertex of the road graph; nothing about its structure is used. */
  type NodeId(==, !new)

  /** Shortest-path length between two nodes, in whole metres. */
  type Distance = (NodeId, NodeId) -> nat

  /** The node a walk ends at: its last node, or where it started if it is empty. */
  function EndOf(start: NodeId, ns: seq<NodeId>): NodeId
  {
    if ns == [] then start else ns[|ns| - 1]
  }

  /** The node leg i of a walk departs from. */
  function LegFrom(start: NodeId, ns: seq<NodeId>, i: nat): NodeId
    requires i < |ns|
  {
    if i == 0 then start else ns[i - 1]
  }

  /**
   * Total length of the walk that starts at `start` and visits `ns` in order:
   * the sum of the distances of its consecutive legs.
   */
  function PathLength(start: NodeId, ns: seq<NodeId>, dist: Distance): (r: nat)
    ensures ns != [] ==> dist(start, ns[0]) <= r
    decreases |ns|
  {
    if ns == [] then 0 else dist(start, ns[0]) + PathLength(ns[0], ns[1..], dist)
  }

  /** Walking `a` and then `b` costs the two walks added up; the end of `a` is where `b` departs. */
  lemma {:induction false} PathLengthAppend(start: NodeId, a: seq<NodeId>, b: seq<NodeId>, dist: Distance)
    ensures PathLength(start, a + b, dist) == PathLength(start, a, dist) + PathLength(EndOf(start, a), b, dist)
    ensures EndOf(start, a + b) == EndOf(EndOf(start, a), b)
    decreases |a|
  {
    if a == [] {
      assert a + b == b;
    } else {
      assert (a + b)[0] == a[0];
      assert (a + b)[1..] == a[1..] + b;
      PathLengthAppend(a[0], a[1..], b, dist);
      assert EndOf(a[0], a[1..]) == EndOf(start, a);
    }
  }

  /** Appending one stop adds exactly the leg from the current end to that stop. */
  lemma PathLengthStep(start: NodeId, ns: seq<NodeId>, next: NodeId, dist: Distance)
    ensures PathLength(start, ns + [next], dist) == PathLength(start, ns, dist) + dist(EndOf(start, ns), next)
    ensures EndOf(start, ns + [next]) == next
  {
    PathLengthAppend(start, ns, [next], dist);
    assert PathLength(next, [], dist) == 0;
  }

  /** Every single leg is at most the whole walk. */
  lemma {:induction false} LegWithinTotal(start: NodeId, ns: seq<NodeId>, i: nat, dist: Distance)
    requires i < |ns|
    ensures dist(LegFrom(start, ns, i), ns[i]) <= PathLength(start, ns, dist)
    decreases i
  {
    if i > 0 {
      LegWithinTotal(ns[0], ns[1..], i - 1, dist);
      assert LegFrom(ns[0], ns[1..], i - 1) == LegFrom(start, ns, i);
    }
  }

  /**
   * The running total never decreases: the length walked after the first i
   * stops is at most the length walked after the first j >= i stops.
   */
  lemma PrefixWithinTotal(start: NodeId, ns: seq<NodeId>, i: nat, j: nat, dist: Distance)
    requires i <= j <= |ns|
    ensures PathLength(start, ns[..i], dist) <= PathLength(start, ns[..j], dist)
  {
    assert ns[..j] == ns[..i] + ns[i..j];
    PathLengthAppend(start, ns[..i], ns[i..j], dist);
  }
}
