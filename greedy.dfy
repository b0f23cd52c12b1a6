/**
 * The priority-aware nearest-neighbour order, as pure definitions, and the
 * properties it has: every client is visited once, urgent clients come
 * first, each pick is a nearest remaining client with ties going to the
 * earliest one, and the distance is the sum of the legs.
 */
module Greedy {
  import opened Paths

  /** A client stop once its coordinates are resolved: (node, id, urgent). */
  datatype Client = Client(node: NodeId, id: string, urgent: bool)

  /** The role of a route entry. */
  datatype Kind = UrgentPickup | Pickup | FinalDisposal

  /** One row of the planned route: the point visited and what is done there. */
  datatype Entry = Entry(point: string, kind: Kind)

  /** The label the route shows for each kind of entry. */
  function Label(kind: Kind): string
  {
    match kind
    case UrgentPickup => "RITIRO URGENTE"
    case Pickup => "RITIRO"
    case FinalDisposal => "SCARICO FINALE"
  }

  function Nodes(cs: seq<Client>): seq<NodeId>
  {
    seq(|cs|, i requires 0 <= i < |cs| => cs[i].node)
  }

  function Ids(cs: seq<Client>): seq<string>
  {
    seq(|cs|, i requires 0 <= i < |cs| => cs[i].id)
  }

  function Points(route: seq<Entry>): seq<string>
  {
    seq(|route|, i requires 0 <= i < |route| => route[i].point)
  }

  /** One route entry of the given kind per client, in visiting order. */
  function Entries(order: seq<Client>, kind: Kind): seq<Entry>
  {
    seq(|order|, i requires 0 <= i < |order| => Entry(order[i].id, kind))
  }

  // ---------------------------------------------------------------------
  // Splitting the clients into the urgent and the standard working lists

  /** The clients whose urgency flag is `urgent`, in input order. */
  function Select(cs: seq<Client>, urgent: bool): (r: seq<Client>)
    ensures |r| <= |cs|
    decreases |cs|
  {
    if cs == [] then []
    else (if cs[0].urgent == urgent then [cs[0]] else []) + Select(cs[1..], urgent)
  }

  /** A client is selected iff it is one of the clients and its flag is the one asked for. */
  lemma {:induction false} SelectMembers(cs: seq<Client>, urgent: bool)
    ensures forall c :: c in Select(cs, urgent) <==> c in cs && c.urgent == urgent
    decreases |cs|
  {
    if cs != [] {
      SelectMembers(cs[1..], urgent);
      assert cs == [cs[0]] + cs[1..];
    }
  }

  /** Selecting from a concatenation selects from each part, so relative input order is kept. */
  lemma {:induction false} SelectKeepsOrder(a: seq<Client>, b: seq<Client>, urgent: bool)
    ensures Select(a + b, urgent) == Select(a, urgent) + Select(b, urgent)
    decreases |a|
  {
    if a == [] {
      assert a + b == b;
    } else {
      var head := if a[0].urgent == urgent then [a[0]] else [];
      assert (a + b)[0] == a[0];
      assert (a + b)[1..] == a[1..] + b;
      assert Select(a + b, urgent) == head + Select(a[1..] + b, urgent);
      assert Select(a, urgent) == head + Select(a[1..], urgent);
      SelectKeepsOrder(a[1..], b, urgent);
    }
  }

  /** The urgent and the standard lists together hold exactly the clients. */
  lemma {:induction false} SelectPartitions(cs: seq<Client>)
    ensures multiset(Select(cs, true)) + multiset(Select(cs, false)) == multiset(cs)
    decreases |cs|
  {
    if cs != [] {
      var t := if cs[0].urgent then [cs[0]] else [];
      var f := if cs[0].urgent then [] else [cs[0]];
      assert Select(cs, true) == t + Select(cs[1..], true);
      assert Select(cs, false) == f + Select(cs[1..], false);
      SelectPartitions(cs[1..]);
      assert multiset(t) + multiset(f) == multiset{cs[0]};
      assert cs == [cs[0]] + cs[1..];
    }
  }

  // ---------------------------------------------------------------------
  // One greedy step: Python's min over the working list

  /**
   * Index k is what `min(work, key=distance from cur)` picks: a client at
   * minimal distance, and strictly closer than every client before it.
   */
  ghost predicate IsFirstNearest(cur: NodeId, work: seq<Client>, k: int, dist: Distance)
  {
    0 <= k < |work|
    && (forall j :: 0 <= j < |work| ==> dist(cur, work[k].node) <= dist(cur, work[j].node))
    && (forall j :: 0 <= j < k ==> dist(cur, work[k].node) < dist(cur, work[j].node))
  }

  /** The first nearest client, found by scanning left to right as `min` does. */
  function Nearest(cur: NodeId, work: seq<Client>, dist: Distance): (k: nat)
    requires work != []
    ensures k < |work|
    decreases |work|
  {
    if |work| == 1 then 0
    else
      var best := Nearest(cur, work[..|work| - 1], dist);
      if dist(cur, work[|work| - 1].node) < dist(cur, work[best].node) then |work| - 1 else best
  }

  /** The left-to-right scan picks a nearest client, and the first one among equals. */
  lemma {:induction false} NearestIsFirstNearest(cur: NodeId, work: seq<Client>, dist: Distance)
    requires work != []
    ensures IsFirstNearest(cur, work, Nearest(cur, work, dist), dist)
    decreases |work|
  {
    if |work| > 1 {
      var init := work[..|work| - 1];
      NearestIsFirstNearest(cur, init, dist);
      assert forall j :: 0 <= j < |init| ==> init[j] == work[j];
    }
  }

  /** At most one index is a first nearest client: the choice is deterministic. */
  lemma FirstNearestUnique(cur: NodeId, work: seq<Client>, k: int, m: int, dist: Distance)
    requires IsFirstNearest(cur, work, k, dist) && IsFirstNearest(cur, work, m, dist)
    ensures k == m
  {
    assert dist(cur, work[k].node) <= dist(cur, work[m].node);
    assert dist(cur, work[m].node) <= dist(cur, work[k].node);
  }

  function RemoveAt(s: seq<Client>, k: nat): seq<Client>
    requires k < |s|
  {
    s[..k] + s[k + 1..]
  }

  /** Taking element k out of a list takes one copy of it out of the list's multiset. */
  lemma MultisetRemoveAt(s: seq<Client>, k: nat)
    requires k < |s|
    ensures multiset(s) == multiset(RemoveAt(s, k)) + multiset{s[k]}
  {
    assert s == s[..k] + [s[k]] + s[k + 1..];
  }

  /** Python's `list.remove(x)`: drop the first element equal to x. */
  function RemoveFirst(s: seq<Client>, x: Client): (r: seq<Client>)
    requires x in s
    ensures |r| == |s| - 1
    decreases |s|
  {
    if s[0] == x then s[1..] else [s[0]] + RemoveFirst(s[1..], x)
  }

  /** Removing the first occurrence of x removes it where it first occurs. */
  lemma {:induction false} RemoveFirstAt(s: seq<Client>, x: Client, k: nat)
    requires k < |s| && s[k] == x
    requires forall j :: 0 <= j < k ==> s[j] != x
    ensures RemoveFirst(s, x) == RemoveAt(s, k)
    decreases k
  {
    if k > 0 {
      RemoveFirstAt(s[1..], x, k - 1);
      assert s[1..][..k - 1] == s[1..k];
      assert s[1..][k..] == s[k + 1..];
      assert s[..k] == [s[0]] + s[1..k];
    }
  }

  /**
   * Removing the picked client by value removes it at the picked index:
   * no earlier client can equal it, since every earlier one is strictly farther.
   */
  lemma RemovePicked(cur: NodeId, work: seq<Client>, k: nat, dist: Distance)
    requires IsFirstNearest(cur, work, k, dist)
    ensures work[k] in work
    ensures RemoveFirst(work, work[k]) == RemoveAt(work, k)
  {
    forall j | 0 <= j < k ensures work[j] != work[k] {
      assert dist(cur, work[k].node) < dist(cur, work[j].node);
    }
    RemoveFirstAt(work, work[k], k);
  }

  // ---------------------------------------------------------------------
  // A whole greedy pass

  /**
   * The order in which one pass visits `work` from `cur`: repeatedly the
   * first nearest remaining client, which then becomes the current node.
   */
  function Visit(cur: NodeId, work: seq<Client>, dist: Distance): (r: seq<Client>)
    ensures |r| == |work|
    decreases |work|
  {
    if work == [] then []
    else
      var k := Nearest(cur, work, dist);
      [work[k]] + Visit(work[k].node, RemoveAt(work, k), dist)
  }

  /**
   * One step of a pass: removing the picked client by value leaves the rest
   * of the pass to be visited from that client's node.
   */
  lemma VisitStep(cur: NodeId, work: seq<Client>, dist: Distance)
    requires work != []
    ensures var k := Nearest(cur, work, dist);
      work[k] in work
      && Visit(cur, work, dist) == [work[k]] + Visit(work[k].node, RemoveFirst(work, work[k]), dist)
      && |RemoveFirst(work, work[k])| < |work|
  {
    NearestIsFirstNearest(cur, work, dist);
    RemovePicked(cur, work, Nearest(cur, work, dist), dist);
  }

  lemma NodesSnoc(done: seq<Client>, next: Client)
    ensures Nodes(done + [next]) == Nodes(done) + [next.node]
  {
  }

  lemma EntriesSnoc(done: seq<Client>, next: Client, kind: Kind)
    ensures Entries(done + [next], kind) == Entries(done, kind) + [Entry(next.id, kind)]
  {
  }

  /** The node from which pick i of an order is made. */
  function Departure(cur: NodeId, order: seq<Client>, i: nat): NodeId
    requires i < |order|
  {
    if i == 0 then cur else order[i - 1].node
  }

  /**
   * Pick i of `order`, made from the node it departs from, is at least as
   * close as every client picked after it.
   */
  ghost predicate GreedyAt(cur: NodeId, order: seq<Client>, i: nat, dist: Distance)
    requires i < |order|
  {
    var from := Departure(cur, order, i);
    forall j :: i < j < |order| ==> dist(from, order[i].node) <= dist(from, order[j].node)
  }

  /** Every pick of `order` is greedy in the sense of GreedyAt. */
  ghost predicate GreedyFrom(cur: NodeId, order: seq<Client>, dist: Distance)
  {
    forall i :: 0 <= i < |order| ==> GreedyAt(cur, order, i, dist)
  }

  /** A pass visits every client of its working list exactly once. */
  lemma {:induction false} VisitPermutes(cur: NodeId, work: seq<Client>, dist: Distance)
    ensures multiset(Visit(cur, work, dist)) == multiset(work)
    ensures |Visit(cur, work, dist)| == |work|
    decreases |work|
  {
    if work != [] {
      var k := Nearest(cur, work, dist);
      var rest := RemoveAt(work, k);
      assert Visit(cur, work, dist) == [work[k]] + Visit(work[k].node, rest, dist);
      VisitPermutes(work[k].node, rest, dist);
      MultisetRemoveAt(work, k);
    }
  }

  /** A pass visits only clients of its working list. */
  lemma VisitMembers(cur: NodeId, work: seq<Client>, dist: Distance)
    ensures forall c :: c in Visit(cur, work, dist) ==> c in work
  {
    VisitPermutes(cur, work, dist);
    forall c | c in Visit(cur, work, dist) ensures c in work {
      assert c in multiset(Visit(cur, work, dist));
    }
  }

  /** A first nearest client is at least as close as any client drawn from the same list. */
  lemma NearestBeatsAll(cur: NodeId, work: seq<Client>, k: nat, later: seq<Client>, dist: Distance)
    requires IsFirstNearest(cur, work, k, dist)
    requires forall c :: c in later ==> c in work
    ensures forall j :: 0 <= j < |later| ==> dist(cur, work[k].node) <= dist(cur, later[j].node)
  {
    forall j | 0 <= j < |later| ensures dist(cur, work[k].node) <= dist(cur, later[j].node) {
      assert later[j] in later;
      var m :| 0 <= m < |work| && work[m] == later[j];
    }
  }

  /** Prefixing a greedy order with a pick closer than all of it keeps it greedy. */
  lemma GreedyCons(cur: NodeId, x: Client, tail: seq<Client>, dist: Distance)
    requires GreedyFrom(x.node, tail, dist)
    requires forall j :: 0 <= j < |tail| ==> dist(cur, x.node) <= dist(cur, tail[j].node)
    ensures GreedyFrom(cur, [x] + tail, dist)
  {
    var o := [x] + tail;
    forall i | 0 <= i < |o| ensures GreedyAt(cur, o, i, dist) {
      if i == 0 {
        forall j | 0 < j < |o| ensures dist(cur, x.node) <= dist(cur, o[j].node) {
          assert o[j] == tail[j - 1];
        }
      } else {
        var from := Departure(x.node, tail, i - 1);
        assert GreedyAt(x.node, tail, i - 1, dist);
        assert o[i] == tail[i - 1] && Departure(cur, o, i) == from;
        forall j | i < j < |o| ensures dist(from, o[i].node) <= dist(from, o[j].node) {
          assert o[j] == tail[j - 1];
        }
      }
    }
  }

  /**
   * Each pick of a pass is at least as close to its departure node as every
   * client the pass visits later (the clients still remaining at that step).
   */
  lemma {:induction false} VisitGreedy(cur: NodeId, work: seq<Client>, dist: Distance)
    ensures GreedyFrom(cur, Visit(cur, work, dist), dist)
    decreases |work|
  {
    if work != [] {
      var k := Nearest(cur, work, dist);
      var rest := RemoveAt(work, k);
      var tail := Visit(work[k].node, rest, dist);
      assert Visit(cur, work, dist) == [work[k]] + tail;
      NearestIsFirstNearest(cur, work, dist);
      VisitGreedy(work[k].node, rest, dist);
      VisitMembers(work[k].node, rest, dist);
      assert forall c :: c in rest ==> c in work;
      NearestBeatsAll(cur, work, k, tail, dist);
      GreedyCons(cur, work[k], tail, dist);
    }
  }

  // ---------------------------------------------------------------------
  // The planned route

  /** A pass over clients of one class visits only clients of that class. */
  lemma VisitKeepsClass(cur: NodeId, work: seq<Client>, urgent: bool, dist: Distance)
    requires forall c :: c in work ==> c.urgent == urgent
    ensures forall i :: 0 <= i < |Visit(cur, work, dist)| ==> Visit(cur, work, dist)[i].urgent == urgent
  {
    var o := Visit(cur, work, dist);
    VisitPermutes(cur, work, dist);
    forall i | 0 <= i < |o| ensures o[i].urgent == urgent {
      assert o[i] in multiset(o);
    }
  }

  /** The urgent clients in the order the first pass visits them, starting at the depot. */
  function UrgentOrder(depot: NodeId, cs: seq<Client>, dist: Distance): (u: seq<Client>)
    ensures multiset(u) == multiset(Select(cs, true)) && |u| == |Select(cs, true)|
    ensures forall i :: 0 <= i < |u| ==> u[i].urgent
  {
    SelectMembers(cs, true);
    VisitPermutes(depot, Select(cs, true), dist);
    VisitKeepsClass(depot, Select(cs, true), true, dist);
    Visit(depot, Select(cs, true), dist)
  }

  /** The standard clients in the order the second pass visits them, starting where the first ended. */
  function StandardOrder(depot: NodeId, cs: seq<Client>, dist: Distance): (s: seq<Client>)
    ensures multiset(s) == multiset(Select(cs, false)) && |s| == |Select(cs, false)|
    ensures forall i :: 0 <= i < |s| ==> !s[i].urgent
  {
    var mid := EndOf(depot, Nodes(UrgentOrder(depot, cs, dist)));
    SelectMembers(cs, false);
    VisitPermutes(mid, Select(cs, false), dist);
    VisitKeepsClass(mid, Select(cs, false), false, dist);
    Visit(mid, Select(cs, false), dist)
  }

  /** All clients in visiting order: every client once, urgent ones first. */
  function VisitOrder(depot: NodeId, cs: seq<Client>, dist: Distance): (o: seq<Client>)
    ensures multiset(o) == multiset(cs) && |o| == |cs|
  {
    var u := UrgentOrder(depot, cs, dist);
    var s := StandardOrder(depot, cs, dist);
    SelectPartitions(cs);
    assert multiset(u + s) == multiset(u) + multiset(s);
    assert |u + s| == |multiset(u + s)| == |multiset(cs)| == |cs|;
    u + s
  }

  /** The route: urgent pickups, standard pickups, then the disposal site. */
  function Route(depot: NodeId, cs: seq<Client>, disposalId: string, dist: Distance): (r: seq<Entry>)
    ensures |r| == |cs| + 1 && r[|cs|] == Entry(disposalId, FinalDisposal)
  {
    var u := UrgentOrder(depot, cs, dist);
    var s := StandardOrder(depot, cs, dist);
    assert |VisitOrder(depot, cs, dist)| == |u| + |s|;
    Entries(u, UrgentPickup) + Entries(s, Pickup) + [Entry(disposalId, FinalDisposal)]
  }

  /** The distance driven: depot, every client in visiting order, then the disposal node. */
  function RouteLength(depot: NodeId, cs: seq<Client>, disposalNode: NodeId, dist: Distance): (r: nat)
    ensures var ns := Nodes(VisitOrder(depot, cs, dist));
      r == PathLength(depot, ns, dist) + dist(EndOf(depot, ns), disposalNode)
  {
    PathLengthStep(depot, Nodes(VisitOrder(depot, cs, dist)), disposalNode, dist);
    PathLength(depot, Nodes(VisitOrder(depot, cs, dist)) + [disposalNode], dist)
  }

  lemma NodesAppend(a: seq<Client>, b: seq<Client>)
    ensures Nodes(a + b) == Nodes(a) + Nodes(b)
  {
  }

  /**
   * The shape of a route built from an urgent order `u` and a standard order
   * `s`: entry i names client i of `u + s` with its class, the last entry is
   * the disposal site.
   */
  lemma EntriesShape(u: seq<Client>, s: seq<Client>, disposalId: string)
    requires forall i :: 0 <= i < |u| ==> u[i].urgent
    requires forall i :: 0 <= i < |s| ==> !s[i].urgent
    ensures var o := u + s;
      var r := Entries(u, UrgentPickup) + Entries(s, Pickup) + [Entry(disposalId, FinalDisposal)];
      |r| == |o| + 1
      && (forall i :: 0 <= i < |o| ==> r[i] == Entry(o[i].id, if o[i].urgent then UrgentPickup else Pickup))
      && r[|o|] == Entry(disposalId, FinalDisposal)
  {
    var o := u + s;
    var r := Entries(u, UrgentPickup) + Entries(s, Pickup) + [Entry(disposalId, FinalDisposal)];
    forall i | 0 <= i < |o|
      ensures r[i] == Entry(o[i].id, if o[i].urgent then UrgentPickup else Pickup)
    {
      if i < |u| {
        assert r[i] == Entries(u, UrgentPickup)[i] && o[i] == u[i];
      } else {
        assert r[i] == Entries(s, Pickup)[i - |u|] && o[i] == s[i - |u|];
      }
    }
  }

  /**
   * Completeness: one entry per client, in visiting order, each tagged by its
   * client's urgency, and one final disposal entry.
   */
  lemma RouteComplete(depot: NodeId, cs: seq<Client>, disposalId: string, dist: Distance)
    ensures var o := VisitOrder(depot, cs, dist);
      var r := Route(depot, cs, disposalId, dist);
      |r| == |cs| + 1
      && (forall i :: 0 <= i < |cs| ==>
            r[i] == Entry(o[i].id, if o[i].urgent then UrgentPickup else Pickup)
            && Label(r[i].kind) == if o[i].urgent then "RITIRO URGENTE" else "RITIRO")
      && r[|cs|] == Entry(disposalId, FinalDisposal)
      && Label(r[|cs|].kind) == "SCARICO FINALE"
  {
    var u := UrgentOrder(depot, cs, dist);
    var s := StandardOrder(depot, cs, dist);
    assert VisitOrder(depot, cs, dist) == u + s;
    EntriesShape(u, s, disposalId);
  }

  lemma IdsAppend(a: seq<Client>, b: seq<Client>)
    ensures Ids(a + b) == Ids(a) + Ids(b)
  {
  }

  /** Taking client i out of a list takes one copy of its id out of the list's ids. */
  lemma IdsRemoveAt(b: seq<Client>, i: nat)
    requires i < |b|
    ensures multiset(Ids(b)) == multiset(Ids(RemoveAt(b, i))) + multiset{b[i].id}
  {
    assert b == b[..i] + [b[i]] + b[i + 1..];
    IdsAppend(b[..i], [b[i]]);
    IdsAppend(b[..i] + [b[i]], b[i + 1..]);
    IdsAppend(b[..i], b[i + 1..]);
    assert Ids([b[i]]) == [b[i].id];
  }

  /** A permutation of clients has the same ids, each as often. */
  lemma {:induction false} IdsPermute(a: seq<Client>, b: seq<Client>)
    requires multiset(a) == multiset(b)
    ensures multiset(Ids(a)) == multiset(Ids(b))
    decreases |a|
  {
    if a == [] {
      assert |b| == |multiset(b)| == 0;
    } else {
      var x := a[0];
      assert x in multiset(b);
      var i :| 0 <= i < |b| && b[i] == x;
      MultisetRemoveAt(a, 0);
      MultisetRemoveAt(b, i);
      assert multiset(RemoveAt(a, 0)) == multiset(a) - multiset{x};
      assert multiset(RemoveAt(b, i)) == multiset(b) - multiset{x};
      IdsPermute(RemoveAt(a, 0), RemoveAt(b, i));
      IdsRemoveAt(a, 0);
      IdsRemoveAt(b, i);
    }
  }

  /** Every client id appears among the pickup entries exactly as often as among the clients. */
  lemma RouteCoversIds(depot: NodeId, cs: seq<Client>, disposalId: string, dist: Distance)
    ensures var r := Route(depot, cs, disposalId, dist);
      |r| == |cs| + 1 && multiset(Points(r[..|cs|])) == multiset(Ids(cs))
  {
    var o := VisitOrder(depot, cs, dist);
    var r := Route(depot, cs, disposalId, dist);
    RouteComplete(depot, cs, disposalId, dist);
    assert Points(r[..|cs|]) == Ids(o);
    IdsPermute(o, cs);
  }

  /**
   * Priority: every urgent pickup precedes every standard pickup, and the
   * disposal entry is the last entry and the only one.
   */
  lemma RoutePriority(depot: NodeId, cs: seq<Client>, disposalId: string, dist: Distance)
    ensures var r := Route(depot, cs, disposalId, dist);
      r != []
      && (forall i, j :: 0 <= i < |r| && 0 <= j < |r| && r[i].kind == UrgentPickup && r[j].kind == Pickup ==> i < j)
      && (forall i :: 0 <= i < |r| ==> (r[i].kind == FinalDisposal <==> i == |r| - 1))
  {
    EntryKinds(UrgentOrder(depot, cs, dist), StandardOrder(depot, cs, dist), disposalId);
  }

  /** In a route assembled from two orders, urgent entries come first and the disposal entry last. */
  lemma EntryKinds(u: seq<Client>, s: seq<Client>, disposalId: string)
    ensures var r := Entries(u, UrgentPickup) + Entries(s, Pickup) + [Entry(disposalId, FinalDisposal)];
      r != []
      && (forall i, j :: 0 <= i < |r| && 0 <= j < |r| && r[i].kind == UrgentPickup && r[j].kind == Pickup ==> i < j)
      && (forall i :: 0 <= i < |r| ==> (r[i].kind == FinalDisposal <==> i == |r| - 1))
  {
    var r := Entries(u, UrgentPickup) + Entries(s, Pickup) + [Entry(disposalId, FinalDisposal)];
    forall i | 0 <= i < |r|
      ensures r[i].kind == if i < |u| then UrgentPickup else if i < |u| + |s| then Pickup else FinalDisposal
    {
      if i < |u| {
        assert r[i] == Entries(u, UrgentPickup)[i];
      } else if i < |u| + |s| {
        assert r[i] == Entries(s, Pickup)[i - |u|];
      }
    }
  }

  /**
   * Two greedy passes run back to back, the second starting where the first
   * ended, are greedy within each class of the concatenated order.
   */
  lemma GreedyConcat(cur: NodeId, u: seq<Client>, s: seq<Client>, dist: Distance)
    requires GreedyFrom(cur, u, dist) && GreedyFrom(EndOf(cur, Nodes(u)), s, dist)
    requires forall i :: 0 <= i < |u| ==> u[i].urgent
    requires forall i :: 0 <= i < |s| ==> !s[i].urgent
    ensures var o := u + s;
      forall i, j :: 0 <= i < j < |o| && o[i].urgent == o[j].urgent ==>
        dist(Departure(cur, o, i), o[i].node) <= dist(Departure(cur, o, i), o[j].node)
  {
    var o := u + s;
    var mid := EndOf(cur, Nodes(u));
    forall k | 0 <= k < |o| ensures o[k].urgent <==> k < |u| {
      if k < |u| {
        assert o[k] == u[k];
      } else {
        assert o[k] == s[k - |u|];
      }
    }
    forall i, j | 0 <= i < j < |o| && o[i].urgent == o[j].urgent
      ensures dist(Departure(cur, o, i), o[i].node) <= dist(Departure(cur, o, i), o[j].node)
    {
      if j < |u| {
        assert GreedyAt(cur, u, i, dist);
        assert o[i] == u[i] && o[j] == u[j];
        assert Departure(cur, o, i) == Departure(cur, u, i);
      } else {
        // an urgent pick is never compared with a standard one
        assert |u| <= i;
        assert GreedyAt(mid, s, i - |u|, dist);
        assert o[j] == s[j - |u|];
        assert o[i] == s[i - |u|];
        assert Departure(cur, o, i) == Departure(mid, s, i - |u|);
      }
    }
  }

  /**
   * Greedy choice over the whole route: each client is at least as close to
   * the point it is reached from as every later client of the same class.
   */
  lemma RouteGreedy(depot: NodeId, cs: seq<Client>, dist: Distance)
    ensures var o := VisitOrder(depot, cs, dist);
      forall i, j :: 0 <= i < j < |o| && o[i].urgent == o[j].urgent ==>
        dist(Departure(depot, o, i), o[i].node) <= dist(Departure(depot, o, i), o[j].node)
  {
    var u := UrgentOrder(depot, cs, dist);
    VisitGreedy(depot, Select(cs, true), dist);
    VisitGreedy(EndOf(depot, Nodes(u)), Select(cs, false), dist);
    GreedyConcat(depot, u, StandardOrder(depot, cs, dist), dist);
  }

  /** The route length splits into the urgent legs, the standard legs and the closing leg. */
  lemma RouteLengthSplits(depot: NodeId, cs: seq<Client>, disposalNode: NodeId, dist: Distance)
    ensures var un := Nodes(UrgentOrder(depot, cs, dist));
      var sn := Nodes(StandardOrder(depot, cs, dist));
      var mid := EndOf(depot, un);
      RouteLength(depot, cs, disposalNode, dist)
        == PathLength(depot, un, dist) + PathLength(mid, sn, dist) + dist(EndOf(mid, sn), disposalNode)
  {
    var un := Nodes(UrgentOrder(depot, cs, dist));
    var sn := Nodes(StandardOrder(depot, cs, dist));
    NodesAppend(UrgentOrder(depot, cs, dist), StandardOrder(depot, cs, dist));
    PathLengthStep(depot, un + sn, disposalNode, dist);
    PathLengthAppend(depot, un, sn, dist);
  }
}
