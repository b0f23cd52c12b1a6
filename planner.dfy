/**
 * The planning run behind the "generate route" button: the fixed depot and
 * disposal sites, the lookup of the chosen disposal site, the tagging of the
 * entered clients with their graph node and urgency, and the sequencing.
 * Coordinates are carried as reals and only handed to the nearest-node
 * lookup, which is a parameter, as is the graph distance.
 */
module Planner {
  import opened Wrappers
  import opened Paths
  import opened Greedy
  import opened Sequencer

  /** A client as entered by the operator: its name or id and its coordinates. */
  datatype Stop = Stop(id: string, lat: real, lon: real)

  /** A disposal site of the fixed table. */
  datatype Site = Site(id: string, lat: real, lon: real)

  /** Nearest graph node to a point, called with longitude first as the graph library expects. */
  type Locator = (real, real) -> NodeId

  /** What pressing the button yields. */
  datatype Outcome =
    | NoClients                                      // no client entered: a warning, nothing computed
    | UnknownSite                                    // the chosen id is not in the table: the lookup raises
    | Planned(route: seq<Entry>, totalMeters: nat)   // the route and its length in metres

  /** The depot every route starts from. */
  const DepotLat: real := 40.88662985769151
  const DepotLon: real := 16.852016478389977

  /** The fixed table of disposal sites, in the order the selection box lists them. */
  const DisposalSites: seq<Site> := [
    Site("AMB", 41.09647057134329, 16.738474937175116),
    Site("NET", 41.089966857437396, 16.806883067859623),
    Site("DIM", 41.097295471343244, 16.91459969669557),
    Site("APU", 40.99342696525014, 16.783615667855507),
    Site("MTL", 41.04061857135102, 16.863863967857515)
  ]

  /**
   * The first site whose id is `id`, as a generator scanned by `next` finds
   * it; None where `next` would raise because nothing matches.
   */
  function FirstMatch(sites: seq<Site>, id: string): (r: Option<nat>)
    ensures r.Some? ==> r.value < |sites| && sites[r.value].id == id
    ensures r.Some? ==> forall j :: 0 <= j < r.value ==> sites[j].id != id
    ensures r.None? ==> forall j :: 0 <= j < |sites| ==> sites[j].id != id
    decreases |sites|
  {
    if sites == [] then None
    else if sites[0].id == id then Some(0)
    else
      match FirstMatch(sites[1..], id)
      case None => None
      case Some(k) => Some(k + 1)
  }

  /** Every id the selection box offers finds its own row of the table. */
  lemma SelectableSitesResolve()
    ensures forall i :: 0 <= i < |DisposalSites| ==> FirstMatch(DisposalSites, DisposalSites[i].id) == Some(i)
  {
    forall i | 0 <= i < |DisposalSites|
      ensures FirstMatch(DisposalSites, DisposalSites[i].id) == Some(i)
    {
      var r := FirstMatch(DisposalSites, DisposalSites[i].id);
      assert r.Some?;
      assert forall j, k :: 0 <= j < k < |DisposalSites| ==> DisposalSites[j].id != DisposalSites[k].id;
    }
  }

  function StopIds(stops: seq<Stop>): seq<string>
  {
    seq(|stops|, i requires 0 <= i < |stops| => stops[i].id)
  }

  /**
   * The working clients the stops become: per stop, its nearest node, its
   * id, and whether its id was marked urgent.
   */
  function Tagged(stops: seq<Stop>, urgentIds: seq<string>, nearest: Locator): (cs: seq<Client>)
    ensures |cs| == |stops| && Ids(cs) == StopIds(stops)
    ensures forall c :: c in cs ==> (c.urgent <==> c.id in urgentIds)
  {
    seq(|stops|, i requires 0 <= i < |stops| => Client(nearest(stops[i].lon, stops[i].lat), stops[i].id, stops[i].id in urgentIds))
  }

  /**
   * The loop that prepares the working clients: one client per stop, in
   * input order, at the stop's nearest node, urgent iff its id was marked.
   */
  method TagClients(stops: seq<Stop>, urgentIds: seq<string>, nearest: Locator) returns (clients: seq<Client>)
    ensures |clients| == |stops|
    ensures forall i :: 0 <= i < |stops| ==>
      clients[i].node == nearest(stops[i].lon, stops[i].lat)
      && clients[i].id == stops[i].id
      && (clients[i].urgent <==> stops[i].id in urgentIds)
  {
    clients := [];
    for i := 0 to |stops|
      invariant |clients| == i
      invariant forall j :: 0 <= j < i ==> clients[j] == Client(nearest(stops[j].lon, stops[j].lat), stops[j].id, stops[j].id in urgentIds)
    {
      var c := stops[i];
      var n := nearest(c.lon, c.lat);
      clients := clients + [Client(n, c.id, c.id in urgentIds)];
    }
  }

  /**
   * One press of the button. With no clients nothing is computed. Otherwise
   * the depot and the chosen site are resolved to nodes, the clients are
   * tagged, and the route is sequenced: it names every entered client once,
   * as often as it was entered, and ends at the chosen site.
   */
  method GenerateRoute(stops: seq<Stop>, urgentIds: seq<string>, siteId: string, nearest: Locator, dist: Distance)
    returns (outcome: Outcome)
    ensures outcome == NoClients <==> stops == []
    ensures outcome == UnknownSite <==> stops != [] && FirstMatch(DisposalSites, siteId).None?
    ensures outcome.Planned? ==>
      var site := DisposalSites[FirstMatch(DisposalSites, siteId).value];
      var depot := nearest(DepotLon, DepotLat);
      var clients := Tagged(stops, urgentIds, nearest);
      outcome.route == Route(depot, clients, siteId, dist)
      && outcome.totalMeters == RouteLength(depot, clients, nearest(site.lon, site.lat), dist)
    ensures outcome.Planned? ==>
      |outcome.route| == |stops| + 1
      && outcome.route[|stops|] == Entry(siteId, FinalDisposal)
      && multiset(Points(outcome.route[..|stops|])) == multiset(StopIds(stops))
  {
    if stops == [] {
      return NoClients;
    }
    var depot := nearest(DepotLon, DepotLat);
    var found := FirstMatch(DisposalSites, siteId);
    if found.None? {
      return UnknownSite;
    }
    var site := DisposalSites[found.value];
    var disposalNode := nearest(site.lon, site.lat);

    var clients := TagClients(stops, urgentIds, nearest);
    assert clients == Tagged(stops, urgentIds, nearest);

    var route, total := SequenceRoute(depot, clients, disposalNode, siteId, dist);
    RouteComplete(depot, clients, siteId, dist);
    RouteCoversIds(depot, clients, siteId, dist);
    outcome := Planned(route, total);
  }
}
