# Network optimizer front end — a Dafny model

This project models the client-side logic of the network optimizer's web page
(ShubhMech/network-optimizer, `frontend/`). There are two parts.

1. **The network view** (`frontend/src/components/NetworkVisualization.tsx`).
   - From a shipping plan and the list of opened warehouses, it builds a
     graph of plant, warehouse and customer nodes in a `Map` keyed by id,
     filled in three passes.
   - It builds a link array: every warehouse → customer shipment, then every
     plant → warehouse shipment.
   - It colours nodes by kind and decides which links are drawn.
   - It places one mark and one label per node and tracks the hovered node.
2. **The page** (`frontend/src/App.tsx`).
   - The snake_case → "Title Case" label formatter.
   - The upload and parameter records, and when the submit button is disabled.
   - The loading/error/results transitions of a submission.
   - The multipart body it sends, and the four rows of the cost-breakdown chart.

Modules:

- `Options`: the `Option` and `Result` datatypes.
- `Sequences`:
  - `Distinct` (keep the first occurrence of each element), `FirstIndex` and `FindFirst` (`Array.prototype.find`);
  - their lemmas.
- `NetworkGraph`:
  - the node and link data;
  - `NodeMap`, a class standing for the insertion-ordered JavaScript `Map`;
  - the imperative builder, `AddPlants` / `AddWarehouses` / `AddCustomers` / `BuildGraph`;
  - the reference definition `ExpectedNodes` the builder is proved against;
  - the properties of the built graph.
- `NetworkRender`: the colour function, the layout as a placement step, link draw eligibility, marks, labels and hover.
- `LinkForce`: what the d3 link force does to the stored link array when it is set up, and what the draw test then makes of those links.
- `Labels`: the label formatter and its character-level meaning.
- `OptimizerApp`:
  - the upload/parameter updates, the disabled predicate and the request state machine;
  - the `Page` class holding the page's state and its handlers;
  - the chart rows.

Numbers (coordinates, amounts, parameters, metrics) are `real`. JavaScript
truthiness of an optional coordinate is "present and not 0"; NaN, which is
falsy as well, is not a real number and is not modelled. The network call
is a parameter, `FetchOutcome`, that says how the request ended:
- `fetch` rejected;
- a response arrived with its `ok` flag;
- when it is ok, reading its JSON body succeeded or threw.

In three places the code behaves differently from what one might expect, and the model follows the code:
- A link is drawn only when all four endpoint coordinates are *truthy*, not merely defined. A coordinate of exactly 0 suppresses the link.
- Hover looks a node up by *both coordinates* of the mark. It does not use the node id.
- The `catch` block shows the message of a thrown `Error`. Only a thrown value that is not an `Error` shows "An error occurred". A non-ok response therefore shows "Optimization failed".

## Model

| member | source | states |
|---|---|---|
| NetworkGraph.NodeMap.constructor | frontend/src/components/NetworkVisualization.tsx:42 | the map starts empty |
| NetworkGraph.NodeMap.Has | frontend/src/components/NetworkVisualization.tsx:47 | `has(k)` holds exactly when `k` was inserted |
| NetworkGraph.NodeMap.Set | frontend/src/components/NetworkVisualization.tsx:58 | `set` stores the value under the key; a new key goes to the end of the insertion order, and an existing key keeps its position |
| NetworkGraph.NodeMap.Values | frontend/src/components/NetworkVisualization.tsx:104 | `Array.from(map.values())` is the stored values in insertion order |
| NetworkGraph.AddPlants | frontend/src/components/NetworkVisualization.tsx:46-54 | after the first pass the keys are the distinct plant ids in first-seen order, all plants of size 10 |
| NetworkGraph.AddWarehouses | frontend/src/components/NetworkVisualization.tsx:57-63 | the second pass appends new opened warehouses and overwrites existing ids in place; an id is a warehouse exactly when it is opened, otherwise it stays a plant |
| NetworkGraph.AddCustomers | frontend/src/components/NetworkVisualization.tsx:66-79 | the third pass adds unseen customer ids only, so every entry has its final priority kind; it emits one warehouse → customer link per shipment, in input order, copying endpoints and amount |
| NetworkGraph.BuildGraph | frontend/src/components/NetworkVisualization.tsx:42-105 | the built nodes equal the reference list (one node per distinct id, first-seen order, priority kind); there are \|warehouse_to_customer\| + \|plant_to_warehouse\| links, customer links first and plant links after, each in input order and each copying its record |
| NetworkGraph.NodeById | frontend/src/components/NetworkVisualization.tsx:130-131 | `nodes.find(n => n.id === id)`: none exactly when no node has the id, otherwise the first node with that id |
| NetworkGraph.NodeKindPriority | frontend/src/components/NetworkVisualization.tsx:46-73 | an id has a node exactly when some record or the opened list names it; that node is a warehouse (size 8) when opened, else a plant (10) when a plant record names it, else a customer (6) |
| NetworkGraph.OpenedWarehousesRegistered | frontend/src/components/NetworkVisualization.tsx:57-63 | every opened warehouse has a warehouse node even when no shipment mentions it |
| NetworkGraph.NodeIdsUnique | frontend/src/components/NetworkVisualization.tsx:42-73 | no two nodes share an id |
| NetworkGraph.NodeCount | frontend/src/components/NetworkVisualization.tsx:42-73 | the node count equals the number of different ids among plants, opened warehouses and customers |
| NetworkGraph.NodesInFirstSeenOrder | frontend/src/components/NetworkVisualization.tsx:42-73 | node i carries the i-th distinct id of the plant, warehouse, customer sequence, so an earlier node's id was first met earlier |
| NetworkGraph.SmallPlanNodes | frontend/src/components/NetworkVisualization.tsx:46-73 | a plan with one plant, one opened warehouse and one customer gives exactly those three nodes, in that order and with those kinds and sizes |
| NetworkGraph.SharedIdCollapses | frontend/src/components/NetworkVisualization.tsx:46-73 | an id that is both a plant and a customer becomes a single plant node |
| NetworkRender.NodeColor | frontend/src/components/NetworkVisualization.tsx:108-119 | `getNodeColor` is total: each of "plant", "warehouse" and "customer" gets its own colour, and every other string, and only those, gets "#000000" |
| NetworkRender.KindColorsDistinct | frontend/src/components/NetworkVisualization.tsx:108-119 | node kinds get the same colour exactly when they are the same kind, and never the fallback |
| NetworkRender.Place | frontend/src/components/NetworkVisualization.tsx:91-104 | the layout step gives each node, in order, both coordinates and changes nothing else |
| NetworkRender.PlaceKeepsResolution | frontend/src/components/NetworkVisualization.tsx:91-104 | after layout the same ids resolve, to the same node (same kind and size) |
| NetworkRender.LinkSegment | frontend/src/components/NetworkVisualization.tsx:130-143 | the draw test of one link: a link whose source or target resolves to no node gives `null`; a line carries the link's index as key and its amount (the full rule is stated by the two lemmas below) |
| NetworkRender.LinkSegmentDrawn | frontend/src/components/NetworkVisualization.tsx:129-144 | a link whose source or target resolves to no node draws nothing; a drawn link's endpoints resolve to nodes with all four coordinates truthy, and it keeps the link's amount |
| NetworkRender.LinkSegmentDrawnIff | frontend/src/components/NetworkVisualization.tsx:130-132 | with unique ids, a link is drawn exactly when both endpoints resolve to nodes whose four coordinates are truthy |
| NetworkRender.Candidates | frontend/src/components/NetworkVisualization.tsx:129-145 | `links.map` yields one candidate per link, in link order, carrying that link's index |
| NetworkRender.Kept | frontend/src/components/NetworkVisualization.tsx:129-145 | rendering drops the `null`s: exactly the present candidates remain, in increasing key order |
| NetworkRender.KeptNone | frontend/src/components/NetworkVisualization.tsx:129-145 | when every candidate is `null`, nothing is rendered |
| NetworkRender.DrawnLinks | frontend/src/components/NetworkVisualization.tsx:129-145 | the drawn lines are exactly the drawable links, each under its own index, in link order |
| NetworkRender.DanglingLinkNotDrawn | frontend/src/components/NetworkVisualization.tsx:130-132 | a link with an unknown endpoint is skipped and nothing fails |
| NetworkRender.LinkDrawnIffEndpointsKnown | frontend/src/components/NetworkVisualization.tsx:129-132 | for the built graph laid out at non-zero positions, a link is drawn exactly when both endpoints are ids of the plan |
| NetworkRender.ResolveInIdSet | frontend/src/components/NetworkVisualization.tsx:42-73 | an id names a node of the built graph exactly when the plan or the opened list names it |
| NetworkRender.Marks | frontend/src/components/NetworkVisualization.tsx:148-154 | one mark per node, at its coordinates or 0 when missing, three times its size, in the colour `getNodeColor` gives its kind, never the fallback |
| NetworkRender.Labels | frontend/src/components/NetworkVisualization.tsx:163-169 | one label per node showing its id, at its mark's point shifted by +10 in x and in y |
| NetworkRender.BuiltMarkStyles | frontend/src/components/NetworkVisualization.tsx:148-154 | marks of the built graph are 30 blue for plants, 24 orange for warehouses and 18 green for customers |
| NetworkRender.MouseOver | frontend/src/components/NetworkVisualization.tsx:155-158 | mouse-over hovers the first node at the mark's coordinates, and leaves the state unchanged when none is there |
| NetworkRender.MouseOut | frontend/src/components/NetworkVisualization.tsx:159 | mouse-out always clears the hovered node |
| NetworkRender.HoverOwnMark | frontend/src/components/NetworkVisualization.tsx:148-158 | hovering a placed node's mark hovers a node at that spot, and the node itself when no earlier node shares its coordinates |
| LinkForce.Lookup | frontend/src/components/NetworkVisualization.tsx:96-97 | the force's id accessor finds a node carrying the id, the same node `NodeById` finds, and none exactly when no node has it |
| LinkForce.InitLink | frontend/src/components/NetworkVisualization.tsx:94-99 | setting up the link force on one link: an unknown source id aborts with that id, else an unknown target id aborts with that one; otherwise both endpoints become the nodes carrying those ids and the amount is kept |
| LinkForce.InitLinks | frontend/src/components/NetworkVisualization.tsx:94-99 | on success there is one rewritten link per link |
| LinkForce.InitLinksFirstFailure | frontend/src/components/NetworkVisualization.tsx:94-99 | the links are visited in order: the set-up aborts with the id of the first link that has an unknown id |
| LinkForce.InitLinksOutcome | frontend/src/components/NetworkVisualization.tsx:94-99 | the set-up succeeds exactly when every link names only ids that have nodes, and then every stored link has both endpoints replaced by their nodes |
| LinkForce.LiveSegment | frontend/src/components/NetworkVisualization.tsx:130-143 | the draw test applied to a stored link whose endpoint is a node object never finds a node, so it gives `null` |
| LinkForce.DrawnLiveLinks | frontend/src/components/NetworkVisualization.tsx:129-145 | the lines drawn for the stored links as the force left them are exactly their present candidates, under their own indices, in link order |
| LinkForce.ObjectsNotDrawn | frontend/src/components/NetworkVisualization.tsx:129-132 | when every stored source is a node object, no line is drawn |
| LinkForce.AsWrittenDrawsNothing | frontend/src/components/NetworkVisualization.tsx:94-132 | once the link force has been set up, no link is drawn, whatever the nodes and their positions |
| LinkForce.OneShipmentAsWritten | frontend/src/components/NetworkVisualization.tsx:94-132 | one plant shipping to one opened warehouse, placed off the axes: the force accepts the link and nothing is drawn, while links that keep their ids draw the line |
| LinkForce.UnopenedWarehouseAsWritten | frontend/src/components/NetworkVisualization.tsx:94-132 | a customer served from a warehouse that is neither opened nor a plant: the force aborts on that warehouse's id, while links that keep their ids skip the link and draw nothing |
| NetworkRender.HoverUnplacedMark | frontend/src/components/NetworkVisualization.tsx:150-158 | the mark of a node without an x coordinate is drawn at x = 0, but hovering it changes nothing unless some node really sits there |
| Labels.Split | frontend/src/App.tsx:179 | `split('_')` always yields at least one piece |
| Labels.Capitalize | frontend/src/App.tsx:180 | a word keeps its length; only its first character is upper-cased |
| Labels.SplitJoin | frontend/src/App.tsx:179-181 | splitting on `_` then joining with `_` gives the key back, and no piece holds `_` |
| Labels.JoinSplit | frontend/src/App.tsx:179-181 | joining `_`-free pieces with `_` then splitting gives the pieces back |
| Labels.FormatLabel | frontend/src/App.tsx:179-181 | the label is as long as the key (its character-by-character meaning is the next row) |
| Labels.FormatLabelChars | frontend/src/App.tsx:179-181 | the label is as long as the key; each `_` becomes one space, the first character and every character after `_` are upper-cased, the rest are unchanged |
| Labels.FormatJoinedWords | frontend/src/App.tsx:199-201 | a key made of `_`-free words is shown as those words, capitalised and separated by single spaces |
| Labels.PlantDistancesLabel | frontend/src/App.tsx:179-181 | "plant_distances" is labelled "Plant Distances" |
| OptimizerApp.HandleFileChange | frontend/src/App.tsx:63-70 | with no file chosen nothing changes; otherwise the first file is stored under the key and every other slot is kept |
| OptimizerApp.HandleParamChange | frontend/src/App.tsx:72-79 | the named parameter takes the new value; every other parameter is kept |
| OptimizerApp.MissingSlot | frontend/src/App.tsx:217 | fewer than seven keys are set exactly when some slot is empty |
| OptimizerApp.SubmitDisabled | frontend/src/App.tsx:217 | the button is disabled exactly when loading or some of the seven slots holds no file |
| OptimizerApp.ErrorMessage | frontend/src/App.tsx:104 | an `Error` shows its message; any other thrown value shows "An error occurred" |
| OptimizerApp.Started | frontend/src/App.tsx:82-83 | at the start loading is set, the error is cleared and the results are kept |
| OptimizerApp.Settled | frontend/src/App.tsx:85-107 | after the outcome loading is off; the error is cleared exactly on success; success stores the data and any failure keeps the old results; a non-ok response shows "Optimization failed"; a rejection or failed body read shows the thrown value's message |
| OptimizerApp.SubmitEnds | frontend/src/App.tsx:81-108 | from any state, a submission ends not loading, with an error exactly when it failed, and new results exactly when it succeeded |
| OptimizerApp.FormFields | frontend/src/App.tsx:86-90 | the body has one `<key>_file` field per stored upload, in the record's order, then the parameters, so it has one field more than there are uploads |
| OptimizerApp.Page.constructor | frontend/src/App.tsx:48-61 | the page starts with no uploads, the default parameters, not loading, and no error or results |
| OptimizerApp.Page.ChangeFile | frontend/src/App.tsx:63-70 | the handler replaces the upload record by its update and leaves parameters and request state alone |
| OptimizerApp.Page.ChangeParam | frontend/src/App.tsx:72-79 | the handler replaces the parameters by their update and leaves uploads and request state alone |
| OptimizerApp.Page.Submit | frontend/src/App.tsx:81-108 | the handler sends the body `FormFields` describes, ends in `Settled(Started(old state), outcome)`, and changes neither uploads nor parameters |
| OptimizerApp.ChartRows | frontend/src/App.tsx:111-128 | the chart has four rows, Transportation, Production, Warehouse and Revenue, in that order, each with its matching metric |

## Left out

- The d3-force layout (`forceSimulation`, the charge, centre and link forces, and 300 ticks) is floating-point physics in a foreign library. The model replaces it by `Place`, which takes the positions as a parameter.
- The d3-force library code is not part of this model. `LinkForce` states what its link force does when it is set up: each link's endpoint ids become the nodes carrying them, in link order, and an id with no node aborts. d3 indexes the nodes by id in a `Map`, so the last node with an id wins, while `LinkForce.Lookup` takes the first. The two agree on the built graph, whose ids are unique (`NetworkGraph.NodeIdsUnique`).
- NetworkRender.DrawnLinks: states the draw rule for stored links whose endpoints are still ids. As written, the link force has already replaced them by node objects, so nothing is drawn (see Findings and `LinkForce.AsWrittenDrawsNothing`).
- NetworkRender.LinkDrawnIffEndpointsKnown: holds for stored links that keep their ids. As written, no link is drawn at all (see Findings).
- NetworkRender.DanglingLinkNotDrawn: holds for stored links that keep their ids. As written, the link force throws on the dangling id inside the effect before anything is stored (see Findings and `LinkForce.UnopenedWarehouseAsWritten`).
- NetworkRender.Truthy: NaN is falsy in JavaScript, but coordinates are `real`, so a NaN coordinate is not modelled.
- Shipment records are typed. A malformed record whose id or amount is missing, and so reads as `undefined`, is not modelled.
- Stroke width `Math.sqrt(link.value) * 0.5`, the stroke colour and other styling are floating point or presentation, so they are left out.
- React hooks and effect scheduling, the react-vis, MUI and recharts components, and the hover tooltip's markup are UI plumbing and are left out. Each event handler is modelled as a state update, and each render as a list of data items.
- `fetch`, `FormData`, `response.json()` and `JSON.stringify(params)` are network I/O and serialisation. They are abstracted to a `FetchOutcome`, and to a `ParamsField` carrying the parameter record.
- `Object.entries(files)` order is the record's insertion order. `OptimizerApp.Page.Submit` takes that order as a parameter.
- `Number(event.target.value)` parsing is left out, and the new parameter value is given as a number. NaN and the other IEEE special values are not modelled.
- `toUpperCase` is modelled on ASCII letters only. Unicode case mapping is left out.
- The results panel (status, `toLocaleString` of the objective value, the opened-warehouse list joined with ", ") is display formatting only. It is left out.

## Findings

| source | as written | input that shows it | evidently intended | confidence | as-written member | corrected member |
|---|---|---|---|---|---|---|
| frontend/src/components/NetworkVisualization.tsx:94-132 | `forceLink(linksArray)` rewrites each link's `source` and `target` to node objects in the very array that `setLinks` stores; line 130 then compares `n.id === link.source`, a string with an object, so no node is found and every link is skipped | one plant shipping to one opened warehouse, both placed away from the axes | each link is drawn between its placed endpoints when all four coordinates are truthy | high; not executed | LinkForce.OneShipmentAsWritten | NetworkRender.LinkDrawnIffEndpointsKnown |
| frontend/src/components/NetworkVisualization.tsx:94-132 | the link force throws on an endpoint id that has no node, inside the effect, so neither nodes nor links are stored | a customer shipment from a warehouse that is neither opened nor a plant | the link is skipped, as the guard at line 132 does for an endpoint with no node | high; not executed | LinkForce.UnopenedWarehouseAsWritten | NetworkRender.DanglingLinkNotDrawn |
