/**
 * The route-sequencing loop as the planner runs it: a current node and a
 * running total updated step by step, working lists that shrink by removing
 * the picked client, and a route that grows by appending one entry per step.
 * Each method is proved against the pure order of module Greedy.
 */
module Sequencer {
  import opened Paths
  import opened Greedy

  /**
   * Python's `min(work, key=lambda x: dist(cur, x.node))`: scan left to right,
   * keeping the current best and replacing it only by a strictly closer client.
   */
  method PickNearest(cur: NodeId, work: seq<Client>, dist: Distance) returns (k: nat)
    requires work != []
    ensures k < |work| && k == Nearest(cur, work, dist)
  {
    k := 0;
    var best := dist(cur, work[0].node);
    var i := 1;
    while i < |work|
      invariant 1 <= i <= |work|
      invariant k == Nearest(cur, work[..i], dist) && best == dist(cur, work[k].node)
    {
      assert work[..i + 1][..i] == work[..i];
      var d := dist(cur, work[i].node);
      if d < best {
        k, best := i, d;
      }
      i := i + 1;
    }
    assert work[..i] == work;
  }

  lemma ConcatShift(done: seq<Client>, next: Client, rest: seq<Client>, tail: seq<Client>)
    requires rest == [next] + tail
    ensures done + rest == (done + [next]) + tail
  {
  }

  /**
   * One pass: while the working list is not empty, pick the nearest client,
   * add the leg to the total, move there, append an entry of `kind` and
   * remove the client from the list. The pass visits the clients in the
   * order Visit describes and adds exactly the length of that walk.
   */
  method GreedyPass(route0: seq<Entry>, cur0: NodeId, total0: nat, work0: seq<Client>, kind: Kind, dist: Distance)
    returns (route: seq<Entry>, cur: NodeId, total: nat)
    ensures route == route0 + Entries(Visit(cur0, work0, dist), kind)
    ensures cur == EndOf(cur0, Nodes(Visit(cur0, work0, dist)))
    ensures total == total0 + PathLength(cur0, Nodes(Visit(cur0, work0, dist)), dist)
  {
    route, cur, total := route0, cur0, total0;
    var work := work0;
    ghost var done: seq<Client> := [];
    ghost var rest := Visit(cur0, work0, dist);
    ghost var full := rest;
    while work != []
      invariant rest == Visit(cur, work, dist)
      invariant done + rest == full
      invariant route == route0 + Entries(done, kind)
      invariant cur == EndOf(cur0, Nodes(done))
      invariant total == total0 + PathLength(cur0, Nodes(done), dist)
      decreases |work|
    {
      var k := PickNearest(cur, work, dist);
      var next := work[k];
      VisitStep(cur, work, dist);
      var d := dist(cur, next.node);
      PathLengthStep(cur0, Nodes(done), next.node, dist);
      NodesSnoc(done, next);
      EntriesSnoc(done, next, kind);
      total := total + d;
      cur := next.node;
      route := route + [Entry(next.id, kind)];
      work := RemoveFirst(work, next);
      ConcatShift(done, next, rest, Visit(cur, work, dist));
      done := done + [next];
      rest := Visit(cur, work, dist);
    }
    assert done == full;
  }

  /**
   * The whole sequencing: urgent clients from the depot, then standard
   * clients from where the urgent pass ended, then the leg to the disposal
   * node and the final disposal entry.
   */
  method SequenceRoute(depot: NodeId, clients: seq<Client>, disposalNode: NodeId, disposalId: string, dist: Distance)
    returns (route: seq<Entry>, total: nat)
    ensures route == Route(depot, clients, disposalId, dist)
    ensures total == RouteLength(depot, clients, disposalNode, dist)
  {
    route, total := [], 0;
    var cur := depot;
    ghost var u := UrgentOrder(depot, clients, dist);
    ghost var s := StandardOrder(depot, clients, dist);

    var urgentWork := Select(clients, true);
    assert Visit(depot, urgentWork, dist) == u;
    route, cur, total := GreedyPass(route, cur, total, urgentWork, UrgentPickup, dist);
    assert route == Entries(u, UrgentPickup);
    ghost var mid := cur;

    var standardWork := Select(clients, false);
    assert Visit(mid, standardWork, dist) == s;
    route, cur, total := GreedyPass(route, cur, total, standardWork, Pickup, dist);

    var closing := dist(cur, disposalNode);
    total := total + closing;
    route := route + [Entry(disposalId, FinalDisposal)];

    RouteLengthSplits(depot, clients, disposalNode, dist);
  }
}
