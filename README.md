# Route sequencing of the waste-collection planner

This project models the planning run of the waste-collection route planner
(`app.py`): the work done when the "generate route" button is pressed with a
list of client stops, the ids marked urgent and a disposal site chosen from
a fixed table. The planner:

- resolves the depot, the chosen disposal site and every client to a node of
  the road graph;
- splits the clients into an urgent and a standard working list, each in
  input order;
- runs two greedy nearest-neighbour passes, urgent clients first and then
  standard ones, starting at the depot. Each step picks the remaining client
  whose shortest-path distance from the current node is smallest (Python
  `min`, so the first such client wins a tie). It adds that distance to the
  running total, moves there, appends an entry labelled "RITIRO URGENTE" or
  "RITIRO", and removes the client from the working list;
- closes the route with the leg to the disposal node and a final
  "SCARICO FINALE" entry.

Modules:

- `Paths` (paths.dfy): nodes as an opaque type, the graph distance as a
  parameter, and the length of a walk as the sum of its legs.
- `Greedy` (greedy.dfy): the pure specification. It covers the split into
  working lists, one greedy pick (`Nearest`), one pass (`Visit`), the route
  and its length, and the properties of these.
- `Sequencer` (sequencer.dfy): the loops as the planner runs them, with a
  current node, a running total, a shrinking working list and a growing
  route. Each one is proved against `Greedy`.
- `Planner` (planner.dfy): the depot, the disposal table, the site lookup,
  the tagging of clients, and the button handler with its empty-list guard.
- `Scenarios` (scenarios.dfy): a worked three-client example.
- `Wrappers` (wrappers.dfy): `Option`.

Route entries carry a `Kind`. `Greedy.Label` maps each kind to the text the
route table shows.

The graph distance (`shortest_path_length` with `weight='length'`) is the
parameter `dist: (NodeId, NodeId) -> nat`. It is deterministic, so the
planner's second call for the winning client (app.py:116, 126) yields the
value `min` compared on. The nearest-node lookup is the parameter
`nearest: (real, real) -> NodeId`, called with longitude first, as the
source calls it.

Facts about `app.py` that shape the model:

- The route always closes at the chosen site: the leg to the disposal node
  and the "SCARICO FINALE" entry are always added (app.py:133-135).
- No depot entry opens the route, and no client is forced to go first.
- No typed error is raised. Only the empty client list is guarded
  (app.py:91-92), and an id missing from the table makes `next` raise
  (app.py:100).
- The winning distance is queried a second time after `min` (app.py:116,
  126).
- The urgent and standard lists keep input order (app.py:113, 123), so a
  tie goes to the client entered first.

## Model

| member | source | states |
|---|---|---|
| Paths.PathLength | app.py:110-134 | The distance driven along a walk: the sum of its consecutive legs, never less than its first leg. |
| Paths.PathLengthAppend | app.py:117 | The length of a walk that continues with a second walk is the first walk's length plus the second's, measured from where the first ended. |
| Paths.PathLengthStep | app.py:116-118 | Appending one stop adds exactly the leg from the current end to that stop, and the end moves to that stop. This is the update `km_totali += dist; nodo_attuale = prossimo[0]`. |
| Paths.LegWithinTotal | app.py:117-134 | With non-negative distances, every single leg of a walk is at most the walk's total. |
| Paths.PrefixWithinTotal | app.py:117-134 | The running total never decreases: the length of a shorter prefix of the walk is at most that of a longer one. |
| Greedy.Select | app.py:113-123 | A working list is never longer than the client list. |
| Greedy.SelectMembers | app.py:113-123 | A client is in the urgent (standard) working list iff it is a client and its flag is urgent (not urgent). |
| Greedy.SelectKeepsOrder | app.py:113-123 | Filtering a concatenation is the concatenation of the filtered parts, so each working list keeps the relative input order. |
| Greedy.SelectPartitions | app.py:113-123 | The urgent and standard working lists together hold exactly the tagged clients, each as often as entered. |
| Greedy.Nearest | app.py:115-125 | Python `min` with a key over a non-empty list yields an index inside the list. |
| Greedy.NearestIsFirstNearest | app.py:115-125 | The index `min` yields is a nearest client from the current node, and it is strictly nearer than every client before it (first minimum wins a tie). |
| Greedy.FirstNearestUnique | app.py:115-125 | At most one index is a first nearest client, so the pick is deterministic. |
| Greedy.MultisetRemoveAt | app.py:120-130 | Removing position k removes exactly one copy of the element at k and nothing else. |
| Greedy.RemoveFirstAt | app.py:120-130 | `list.remove(x)` removes the first element equal to x. When that is at position k, it equals removal at k. |
| Greedy.RemovePicked | app.py:115-130 | Removing the picked client by value removes it at the picked position, because no earlier client is equal to it. |
| Greedy.Visit | app.py:114-130 | The order one `while` loop visits its working list: repeatedly the first nearest remaining client, which becomes the current node. It holds as many clients as the list. |
| Greedy.RemoveFirst | app.py:120-130 | `list.remove(x)`: drop the first element equal to x, leaving one element fewer. |
| Greedy.VisitStep | app.py:114-130 | One loop iteration: the picked client is in the list, the rest of the pass continues from its node over the list without it, and the list gets strictly shorter, so the loop terminates. |
| Greedy.VisitPermutes | app.py:114-130 | A pass visits every client of its working list exactly once: the visiting order is a permutation of the list. |
| Greedy.VisitMembers | app.py:114-130 | A pass visits only clients of its working list. |
| Greedy.NearestBeatsAll | app.py:115-125 | The picked client is at least as close as every client still waiting. |
| Greedy.GreedyCons | app.py:114-120 | A greedy order preceded by a pick at least as close as all of it stays greedy. |
| Greedy.VisitGreedy | app.py:114-130 | Each pick of a pass, measured from the node it is made from, is at least as close as every client picked after it. |
| Greedy.VisitKeepsClass | app.py:113-124 | A pass over clients of one class visits only clients of that class. |
| Greedy.UrgentOrder | app.py:113-120 | The first pass, from the depot, visits exactly the urgent clients, each once. |
| Greedy.StandardOrder | app.py:123-130 | The second pass, from where the first ended, visits exactly the standard clients, each once. |
| Greedy.VisitOrder | app.py:113-130 | Both passes together visit every tagged client exactly once. |
| Greedy.NodesAppend | app.py:118-128 | The nodes of two orders run back to back are the nodes of the first, then those of the second. |
| Greedy.NodesSnoc | app.py:118-128 | Appending one client to an order appends its node. |
| Greedy.EntriesSnoc | app.py:119-129 | Appending one client to an order appends one entry with its id and the pass's label. |
| Greedy.Route | app.py:109-135 | `percorso_finale`: the urgent pickups, the standard pickups, then the disposal entry. It has one entry per client plus the disposal entry, which is last. |
| Greedy.RouteLength | app.py:110-134 | `km_totali`: the walk from the depot through the visiting order, plus the closing leg from where it ends to the disposal node. |
| Greedy.EntriesShape | app.py:119-135 | A route built from an urgent order and a standard order has one entry per client in order, labelled by its class, then the disposal entry. |
| Greedy.RouteComplete | app.py:109-135 | The route has one entry per client plus one. Entry i names client i of the visiting order, labelled "RITIRO URGENTE" or "RITIRO" by its urgency. The last entry is the chosen site, labelled "SCARICO FINALE". |
| Greedy.IdsAppend | app.py:119-129 | The ids of two orders run back to back are the ids of the first, then those of the second. |
| Greedy.IdsRemoveAt | app.py:120-130 | Removing client i removes one copy of its id. |
| Greedy.IdsPermute | app.py:114-130 | Two orders holding the same clients hold the same ids, each as often. |
| Greedy.RouteCoversIds | app.py:104-135 | The pickup entries name every entered client id exactly as often as it was entered. |
| Greedy.EntryKinds | app.py:119-135 | In a route built from two orders, every urgent entry precedes every standard entry, and the disposal entry is last and unique. |
| Greedy.RoutePriority | app.py:113-135 | Every "RITIRO URGENTE" entry precedes every "RITIRO" entry. The "SCARICO FINALE" entry is the last one and the only one. |
| Greedy.GreedyConcat | app.py:114-130 | Two greedy passes run back to back, the second starting where the first ended, are greedy within each class of the joined order. |
| Greedy.RouteGreedy | app.py:115-125 | Over the whole visiting order, each client is at least as close to the node it is reached from as every later client of the same class. |
| Greedy.RouteLengthSplits | app.py:110-134 | The route length is the urgent legs from the depot, plus the standard legs from where the urgent pass ended, plus the leg to the disposal node. |
| Sequencer.PickNearest | app.py:115-125 | The scan that `min` performs returns exactly the first nearest index `Nearest` describes. |
| Sequencer.GreedyPass | app.py:114-130 | The while loop appends one labelled entry per client in the order `Visit` gives, ends at that order's last node, and adds exactly that walk's length to the total. |
| Sequencer.SequenceRoute | app.py:109-135 | The whole sequencing yields exactly `Route` and a total of exactly `RouteLength`: depot, every client in visiting order, then the disposal node. |
| Planner.DepotLat | app.py:96 | The depot's latitude. |
| Planner.DepotLon | app.py:96 | The depot's longitude. |
| Planner.DisposalSites | app.py:20-26 | The fixed table of disposal sites, with their ids and coordinates, in the order the selection box lists them. |
| Planner.FirstMatch | app.py:100 | The lookup finds the first table row with the chosen id. None means that no row has it, which is where `next` raises. |
| Planner.SelectableSitesResolve | app.py:20-26 | Every id offered by the selection box resolves to its own row of the table, so the lookup never fails for a selectable id. |
| Planner.Tagged | app.py:104-107 | The tuples `(node, id, urgent)` built from the stops: one per stop with the stop's id, in input order, urgent iff its id was marked. |
| Planner.TagClients | app.py:104-107 | The loop yields one client per stop in input order. Each has the stop's nearest node and id, and is urgent iff its id was marked urgent. |
| Planner.GenerateRoute | app.py:90-135 | No clients means nothing is computed. An unknown site id means no route. Otherwise the route and total are `Route` and `RouteLength` over the tagged clients, from the depot's node to the site's node. The route has one entry per stop plus the final disposal entry, and names every stop id as often as it was entered. |
| Scenarios.VisitOne | app.py:114-120 | A pass over one client visits just that client. |
| Scenarios.VisitTwo | app.py:115 | Of two clients, a pass takes the nearer first, or the first listed on a tie. |
| Scenarios.SplitExample | app.py:113-123 | Clients [A, B, C] with A and C urgent split into [A, C] and [B]. |
| Scenarios.ExamplePasses | app.py:113-130 | With A at 500 and C at 800 from the depot, the urgent pass visits A then C, and the standard pass visits B. |
| Scenarios.UrgentBeforeStandard | app.py:109-135 | For that example, the route is A and C as urgent pickups, B as a pickup, then the disposal site. |
| Scenarios.ThreeLegs | app.py:117-127 | A walk through three stops is as long as the sum of its three legs. |
| Scenarios.FourLegs | app.py:117-134 | Driving through three clients and then to the site adds up four legs. |
| Scenarios.ExampleLength | app.py:110-134 | For that example the total is 500 + 200 + dist(C, B) + dist(B, site). |

## Left out

- The Streamlit user interface is not modelled. This covers the page setup, the sidebar form, the buttons, the tables, banners and markdown, the urgency selector, and the session state with its clearing (app.py:13-16, 35-84, 137-140). The selection box (app.py:86-87) is modelled only as the list of ids it offers. It is presentation; the model starts from the list of stops, the marked ids and the chosen site id.
- Loading the road graph from a file (app.py:28-32) is not modelled. It is I/O.
- `ox.distance.nearest_nodes` is not modelled. It is a foreign call and becomes the parameter `nearest`.
- The Dijkstra search behind `nx.shortest_path_length` is not modelled. It is a foreign call and becomes the parameter `dist`, assumed total, deterministic and non-negative. The library's no-path exception is not modelled.
- Distances are floating-point metres in the source and natural numbers here. Rounding of float sums is not modelled.
- The parsing of the coordinate text with `float()` and its catch-all `except` (app.py:49-60) is not modelled, because it is floating-point input handling.
- The conversion of the total to kilometres with two decimals (app.py:137) is not modelled, because it is presentation.
- The client table at app.py:77 selects a column `ID`. The client records (app.py:51-56) only have the keys `id`, `lat`, `lon` and `tipo`. As written, pandas raises a KeyError there whenever a client exists, so neither the urgency selector (app.py:78) nor the button (app.py:90) is reached with a non-empty list. The model does not capture this stop. It takes the marked ids and the button press as given, and models the sequencing block as it would run.
- Sequencer.PickNearest does not model the cost of the distance queries, only their result.
