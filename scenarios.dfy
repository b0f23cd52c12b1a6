/**
 * A worked example of the sequencing: depot D, urgent clients A and C,
 * standard client B, with A nearer the depot than C and C near A.
 */
module Scenarios {
  import opened Paths
  import opened Greedy

  lemma VisitOne(cur: NodeId, x: Client, dist: Distance)
    ensures Visit(cur, [x], dist) == [x]
  {
    assert RemoveAt([x], 0) == [];
  }

  /** Of two clients, a pass takes the nearer first, or the first one listed on a tie. */
  lemma VisitTwo(cur: NodeId, x: Client, y: Client, dist: Distance)
    requires dist(cur, x.node) <= dist(cur, y.node)
    ensures Visit(cur, [x, y], dist) == [x, y]
  {
    var work := [x, y];
    assert work[..1] == [x];
    assert Nearest(cur, work, dist) == 0;
    assert RemoveAt(work, 0) == [y];
    VisitOne(x.node, y, dist);
  }

  lemma SplitExample(a: Client, b: Client, c: Client)
    requires a.urgent && c.urgent && !b.urgent
    ensures Select([a, b, c], true) == [a, c] && Select([a, b, c], false) == [b]
  {
    assert [a, b, c] == [a] + ([b] + [c]);
    SelectKeepsOrder([a], [b] + [c], true);
    SelectKeepsOrder([b], [c], true);
    SelectKeepsOrder([a], [b] + [c], false);
    SelectKeepsOrder([b], [c], false);
  }

  /** The two passes of the example: urgent A then C from the depot, then B from C. */
  lemma ExamplePasses(d: NodeId, a: Client, b: Client, c: Client, dist: Distance)
    requires a.urgent && c.urgent && !b.urgent
    requires dist(d, a.node) == 500 && dist(d, c.node) == 800
    ensures UrgentOrder(d, [a, b, c], dist) == [a, c]
    ensures StandardOrder(d, [a, b, c], dist) == [b]
  {
    SplitExample(a, b, c);
    VisitTwo(d, a, c, dist);
    assert UrgentOrder(d, [a, b, c], dist) == [a, c];
    assert EndOf(d, Nodes([a, c])) == c.node;
    VisitOne(c.node, b, dist);
  }

  /** The length of a walk through three stops is the sum of its three legs. */
  lemma ThreeLegs(start: NodeId, x: NodeId, y: NodeId, z: NodeId, dist: Distance)
    ensures PathLength(start, [x, y, z], dist) == dist(start, x) + dist(x, y) + dist(y, z)
  {
    assert [x, y, z][1..] == [y, z];
    assert [y, z][1..] == [z];
    assert [z][1..] == [];
    assert PathLength(y, [z], dist) == dist(y, z);
    assert PathLength(x, [y, z], dist) == dist(x, y) + dist(y, z);
  }

  /**
   * Entered as [A, B, C], the route visits A (the nearer urgent client),
   * then C (the only urgent client left), then B, and closes at the
   * disposal site.
   */
  lemma UrgentBeforeStandard(d: NodeId, a: Client, b: Client, c: Client, dist: Distance)
    requires a.urgent && c.urgent && !b.urgent
    requires dist(d, a.node) == 500 && dist(d, c.node) == 800
    ensures VisitOrder(d, [a, b, c], dist) == [a, c, b]
    ensures Route(d, [a, b, c], "AMB", dist)
      == [Entry(a.id, UrgentPickup), Entry(c.id, UrgentPickup), Entry(b.id, Pickup), Entry("AMB", FinalDisposal)]
  {
    ExamplePasses(d, a, b, c, dist);
    EntriesOfThree(a, c, b);
  }

  /** The entries of two urgent clients, one standard client and the site AMB. */
  lemma EntriesOfThree(x: Client, y: Client, z: Client)
    ensures Entries([x, y], UrgentPickup) + Entries([z], Pickup) + [Entry("AMB", FinalDisposal)]
      == [Entry(x.id, UrgentPickup), Entry(y.id, UrgentPickup), Entry(z.id, Pickup), Entry("AMB", FinalDisposal)]
  {
  }

  /** Driving through three clients and on to a site adds up four legs. */
  lemma FourLegs(d: NodeId, x: Client, y: Client, z: Client, disposal: NodeId, dist: Distance)
    ensures PathLength(d, Nodes([x, y, z]) + [disposal], dist)
      == dist(d, x.node) + dist(x.node, y.node) + dist(y.node, z.node) + dist(z.node, disposal)
  {
    assert Nodes([x, y, z]) + [disposal] == [x.node] + [y.node, z.node, disposal];
    PathLengthAppend(d, [x.node], [y.node, z.node, disposal], dist);
    assert PathLength(d, [x.node], dist) == dist(d, x.node);
    ThreeLegs(x.node, y.node, z.node, disposal, dist);
  }

  /** The distance of the example is the sum of its four legs: D to A, A to C, C to B, B to the site. */
  lemma ExampleLength(d: NodeId, a: Client, b: Client, c: Client, disposal: NodeId, dist: Distance)
    requires a.urgent && c.urgent && !b.urgent
    requires dist(d, a.node) == 500 && dist(d, c.node) == 800 && dist(a.node, c.node) == 200
    ensures RouteLength(d, [a, b, c], disposal, dist) == 500 + 200 + dist(c.node, b.node) + dist(b.node, disposal)
  {
    UrgentBeforeStandard(d, a, b, c, dist);
    FourLegs(d, a, c, b, disposal, dist);
  }
}
