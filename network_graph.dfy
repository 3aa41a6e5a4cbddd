/**
 * Construction of the plant -> warehouse -> customer graph from a shipping
 * plan (frontend/src/components/NetworkVisualization.tsx, the effect body).
 * The node map is a class over an insertion-ordered key list and a map,
 * as a JavaScript `Map` is; the builder fills it in three passes and
 * collects the links in two.
 */
module NetworkGraph {
  import opened Options
  import opened Sequences

  datatype Kind = Plant | Warehouse | Customer

  /** The `type` string a node carries. */
  function KindName(k: Kind): string {
    match k
    case Plant => "plant"
    case Warehouse => "warehouse"
    case Customer => "customer"
  }

  /** Visual radius basis, fixed by the kind. */
  function SizeOf(k: Kind): nat {
    match k
    case Plant => 10
    case Warehouse => 8
    case Customer => 6
  }

  /** A graph vertex; `x` and `y` stay absent until a layout fills them in. */
  datatype Node = Node(id: string, kind: Kind, size: nat, x: Option<real>, y: Option<real>)

  /** A directed flow edge; its endpoints need not name existing nodes. */
  datatype Link = Link(source: string, target: string, value: real)

  datatype PlantShipment = PlantShipment(plant: string, warehouse: string, amount: real)
  datatype CustomerShipment = CustomerShipment(warehouse: string, customer: string, amount: real)
  datatype ShippingPlan = ShippingPlan(
    plantToWarehouse: seq<PlantShipment>,
    warehouseToCustomer: seq<CustomerShipment>)

  /** A freshly registered node of the given kind, not yet placed. */
  function MakeNode(id: string, k: Kind): Node {
    Node(id, k, SizeOf(k), None, None)
  }

  // ---------------------------------------------------------------------
  // Reference definition of the built graph

  /** The plant of every plant -> warehouse shipment, in input order. */
  function PlantIds(ptw: seq<PlantShipment>): seq<string> {
    seq(|ptw|, i requires 0 <= i < |ptw| => ptw[i].plant)
  }

  /** The customer of every warehouse -> customer shipment, in input order. */
  function CustomerIds(wtc: seq<CustomerShipment>): seq<string> {
    seq(|wtc|, i requires 0 <= i < |wtc| => wtc[i].customer)
  }

  /** Every id the builder registers, in the order the passes meet them. */
  function AllIds(plan: ShippingPlan, warehousesOpened: seq<string>): seq<string> {
    PlantIds(plan.plantToWarehouse) + warehousesOpened + CustomerIds(plan.warehouseToCustomer)
  }

  /** The kind an id ends up with: warehousesOpened warehouses win, then plants, then customers. */
  function KindOf(plan: ShippingPlan, warehousesOpened: seq<string>, id: string): Kind {
    if id in warehousesOpened then Warehouse
    else if id in PlantIds(plan.plantToWarehouse) then Plant
    else Customer
  }

  /** One node per distinct id, in first-seen order, with its priority kind. */
  function ExpectedNodes(plan: ShippingPlan, warehousesOpened: seq<string>): seq<Node> {
    var ids := Distinct(AllIds(plan, warehousesOpened));
    seq(|ids|, i requires 0 <= i < |ids| => MakeNode(ids[i], KindOf(plan, warehousesOpened, ids[i])))
  }

  /** The link a warehouse -> customer shipment draws. */
  function CustomerLink(s: CustomerShipment): Link {
    Link(s.warehouse, s.customer, s.amount)
  }

  /** The link a plant -> warehouse shipment draws. */
  function PlantLink(s: PlantShipment): Link {
    Link(s.plant, s.warehouse, s.amount)
  }

  /** The first node carrying `id` (`nodes.find(n => n.id === id)`). */
  function NodeById(nodes: seq<Node>, id: string): (r: Option<Node>)
    ensures r.None? <==> forall i :: 0 <= i < |nodes| ==> nodes[i].id != id
    ensures r.Some? ==>
      exists i :: 0 <= i < |nodes| && nodes[i] == r.value && r.value.id == id &&
        (forall j :: 0 <= j < i ==> nodes[j].id != id)
  {
    match FindFirst(nodes, (n: Node) => n.id == id)
    case None => None
    case Some(i) => Some(nodes[i])
  }

  /** Some plant -> warehouse shipment leaves from plant `id`. */
  predicate NamesPlant(plan: ShippingPlan, id: string) {
    id in PlantIds(plan.plantToWarehouse)
  }

  /** Some warehouse -> customer shipment goes to customer `id`. */
  predicate NamesCustomer(plan: ShippingPlan, id: string) {
    id in CustomerIds(plan.warehouseToCustomer)
  }

  predicate UniqueIds(nodes: seq<Node>) {
    forall i, j :: 0 <= i < j < |nodes| ==> nodes[i].id != nodes[j].id
  }

  // ---------------------------------------------------------------------
  // The mutable node map

  /** An insertion-ordered map from node id to node. */
  class NodeMap {
    var order: seq<string>
    var entries: map<string, Node>

    ghost predicate Valid()
      reads this
    {
      && NoDuplicates(order)
      && (forall k :: k in entries <==> k in order)
    }

    constructor ()
      ensures Valid() && order == [] && entries == map[]
    {
      order := [];
      entries := map[];
    }

    method Has(k: string) returns (b: bool)
      requires Valid()
      ensures b <==> k in order
    {
      b := k in entries;
    }

    /** Inserts or overwrites; an overwritten key keeps its position. */
    method Set(k: string, v: Node)
      requires Valid()
      modifies this
      ensures Valid()
      ensures entries == old(entries)[k := v]
      ensures order == if k in old(order) then old(order) else old(order) + [k]
    {
      if k !in entries {
        order := order + [k];
      }
      entries := entries[k := v];
    }

    /** The values in insertion order (`Array.from(map.values())`). */
    function Values(): (vs: seq<Node>)
      reads this
      requires Valid()
      ensures |vs| == |order|
      ensures forall i :: 0 <= i < |order| ==> order[i] in entries && vs[i] == entries[order[i]]
    {
      seq(|order|, i reads this requires 0 <= i < |order| && Valid() => entries[order[i]])
    }
  }

  // ---------------------------------------------------------------------
  // The builder

  /** Every entry of the map carries the node its id ends up as. */
  ghost predicate KindsAgree(entries: map<string, Node>, plan: ShippingPlan, warehousesOpened: seq<string>) {
    forall k :: k in entries ==> entries[k] == MakeNode(k, KindOf(plan, warehousesOpened, k))
  }

  /** Entries for ids in `chosen` are warehouses; every other entry is a plant. */
  ghost predicate OpenedSoFar(entries: map<string, Node>, chosen: seq<string>) {
    forall k :: k in entries ==> entries[k] == MakeNode(k, if k in chosen then Warehouse else Plant)
  }

  lemma OpenedStep(entries: map<string, Node>, wo: seq<string>, j: nat)
    requires j < |wo| && OpenedSoFar(entries, wo[..j])
    ensures OpenedSoFar(entries[wo[j] := MakeNode(wo[j], Warehouse)], wo[..j + 1])
  {
    PrefixStep(wo, j);
  }

  lemma PlantStep(entries: map<string, Node>, k: string)
    requires OpenedSoFar(entries, [])
    ensures OpenedSoFar(entries[k := MakeNode(k, Plant)], [])
  {
  }

  /** First pass: each shipment's plant is registered only when its id is new. */
  method AddPlants(m: NodeMap, ptw: seq<PlantShipment>)
    requires m.Valid() && m.order == [] && m.entries == map[]
    modifies m
    ensures m.Valid() && m.order == Distinct(PlantIds(ptw))
    ensures OpenedSoFar(m.entries, [])
  {
    ghost var P := PlantIds(ptw);
    var i := 0;
    while i < |ptw|
      invariant 0 <= i <= |ptw|
      invariant m.Valid()
      invariant m.order == Distinct(P[..i])
      invariant OpenedSoFar(m.entries, [])
    {
      var plant := ptw[i].plant;
      assert P[i] == plant;
      DistinctPrefixStep(P, i);
      var present := m.Has(plant);
      if !present {
        PlantStep(m.entries, plant);
        m.Set(plant, MakeNode(plant, Plant));
      }
      i := i + 1;
    }
    assert P[..|ptw|] == P;
  }

  /** Second pass: every opened warehouse is set, overwriting an entry in place. */
  method AddWarehouses(m: NodeMap, ghost seen: seq<string>, warehousesOpened: seq<string>)
    requires m.Valid() && m.order == Distinct(seen)
    requires OpenedSoFar(m.entries, [])
    modifies m
    ensures m.Valid() && m.order == Distinct(seen + warehousesOpened)
    ensures OpenedSoFar(m.entries, warehousesOpened)
  {
    var wo := warehousesOpened;
    var j := 0;
    assert seen + wo[..0] == seen;
    assert OpenedSoFar(m.entries, wo[..0]);
    while j < |wo|
      invariant 0 <= j <= |wo|
      invariant m.Valid()
      invariant m.order == Distinct(seen + wo[..j])
      invariant OpenedSoFar(m.entries, wo[..j])
    {
      var w := wo[j];
      OpenedStep(m.entries, wo, j);
      m.Set(w, MakeNode(w, Warehouse));
      DistinctAppendStep(seen, wo, j);
      j := j + 1;
    }
    assert wo[..|wo|] == wo;
  }

  /**
   * After the third pass has met the first `c` customer shipments, the keys
   * are the distinct ids met so far and every entry carries its final kind.
   */
  ghost predicate CustomersRegistered(order: seq<string>, entries: map<string, Node>,
                                      plan: ShippingPlan, warehousesOpened: seq<string>, c: nat)
    requires c <= |plan.warehouseToCustomer|
  {
    && order == Distinct(PlantIds(plan.plantToWarehouse) + warehousesOpened
                         + CustomerIds(plan.warehouseToCustomer)[..c])
    && KindsAgree(entries, plan, warehousesOpened)
  }

  /** One step of the third pass: a new customer id is appended as a customer node. */
  lemma CustomerStep(order: seq<string>, entries: map<string, Node>,
                     plan: ShippingPlan, warehousesOpened: seq<string>, c: nat)
    requires c < |plan.warehouseToCustomer|
    requires CustomersRegistered(order, entries, plan, warehousesOpened, c)
    ensures var x := plan.warehouseToCustomer[c].customer;
      if x in order then CustomersRegistered(order, entries, plan, warehousesOpened, c + 1)
      else CustomersRegistered(order + [x], entries[x := MakeNode(x, Customer)], plan, warehousesOpened, c + 1)
  {
    var x := plan.warehouseToCustomer[c].customer;
    var seen := PlantIds(plan.plantToWarehouse) + warehousesOpened;
    var C := CustomerIds(plan.warehouseToCustomer);
    assert C[c] == x;
    DistinctAppendStep(seen, C, c);
    if x !in order {
      DistinctMembers(seen + C[..c], x);
      assert x !in seen;
      assert KindOf(plan, warehousesOpened, x) == Customer;
    }
  }

  /**
   * Third pass: each shipment's customer is registered only when its id is
   * new, and every shipment yields a warehouse -> customer link.
   */
  method AddCustomers(m: NodeMap, plan: ShippingPlan, warehousesOpened: seq<string>)
    returns (links: seq<Link>)
    requires m.Valid() && CustomersRegistered(m.order, m.entries, plan, warehousesOpened, 0)
    modifies m
    ensures m.Valid() && CustomersRegistered(m.order, m.entries, plan, warehousesOpened, |plan.warehouseToCustomer|)
    ensures |links| == |plan.warehouseToCustomer|
    ensures CopiesShipments(links, plan.warehouseToCustomer)
  {
    var wtc := plan.warehouseToCustomer;
    links := [];
    var c := 0;
    while c < |wtc|
      invariant 0 <= c <= |wtc|
      invariant m.Valid() && CustomersRegistered(m.order, m.entries, plan, warehousesOpened, c)
      invariant |links| == c && CopiesShipments(links, wtc)
    {
      var ship := wtc[c];
      CustomerStep(m.order, m.entries, plan, warehousesOpened, c);
      var present := m.Has(ship.customer);
      if !present {
        m.Set(ship.customer, MakeNode(ship.customer, Customer));
      }
      CopiesStep(links, wtc);
      links := links + [Link(ship.warehouse, ship.customer, ship.amount)];
      c := c + 1;
    }
  }

  /** The links are the ones drawn by the first |links| shipments, in order. */
  ghost predicate CopiesShipments(links: seq<Link>, wtc: seq<CustomerShipment>) {
    && |links| <= |wtc|
    && forall i :: 0 <= i < |links| ==> links[i] == CustomerLink(wtc[i])
  }

  lemma CopiesStep(links: seq<Link>, wtc: seq<CustomerShipment>)
    requires CopiesShipments(links, wtc) && |links| < |wtc|
    ensures CopiesShipments(links + [CustomerLink(wtc[|links|])], wtc)
  {
  }

  /** The links are the ones drawn by the first |links| plant shipments, in order. */
  ghost predicate CopiesPlantShipments(links: seq<Link>, ptw: seq<PlantShipment>) {
    && |links| <= |ptw|
    && forall i :: 0 <= i < |links| ==> links[i] == PlantLink(ptw[i])
  }

  lemma PlantCopiesStep(links: seq<Link>, ptw: seq<PlantShipment>)
    requires CopiesPlantShipments(links, ptw) && |links| < |ptw|
    ensures CopiesPlantShipments(links + [PlantLink(ptw[|links|])], ptw)
  {
  }

  /** The customer links followed by the plant links, read index by index. */
  lemma LinksInOrder(customerLinks: seq<Link>, plantLinks: seq<Link>, plan: ShippingPlan)
    requires |customerLinks| == |plan.warehouseToCustomer| && CopiesShipments(customerLinks, plan.warehouseToCustomer)
    requires |plantLinks| == |plan.plantToWarehouse| && CopiesPlantShipments(plantLinks, plan.plantToWarehouse)
    ensures forall i :: 0 <= i < |plan.warehouseToCustomer| ==>
      (customerLinks + plantLinks)[i] == CustomerLink(plan.warehouseToCustomer[i])
    ensures forall j :: 0 <= j < |plan.plantToWarehouse| ==>
      (customerLinks + plantLinks)[|plan.warehouseToCustomer| + j] == PlantLink(plan.plantToWarehouse[j])
  {
  }

  /** After the first two passes every entry already carries its final kind. */
  lemma EntriesAfterWarehouses(plan: ShippingPlan, warehousesOpened: seq<string>, entries: map<string, Node>)
    requires forall k :: k in entries ==> k in Distinct(PlantIds(plan.plantToWarehouse) + warehousesOpened)
    requires OpenedSoFar(entries, warehousesOpened)
    ensures KindsAgree(entries, plan, warehousesOpened)
  {
    forall k | k in entries
      ensures entries[k] == MakeNode(k, KindOf(plan, warehousesOpened, k))
    {
      DistinctMembers(PlantIds(plan.plantToWarehouse) + warehousesOpened, k);
    }
  }

  /** The map's values, read in insertion order, are the reference node list. */
  lemma ValuesAreExpected(plan: ShippingPlan, warehousesOpened: seq<string>, order: seq<string>,
                          entries: map<string, Node>, vs: seq<Node>)
    requires order == Distinct(AllIds(plan, warehousesOpened))
    requires KindsAgree(entries, plan, warehousesOpened)
    requires |vs| == |order|
    requires forall i :: 0 <= i < |order| ==> order[i] in entries && vs[i] == entries[order[i]]
    ensures vs == ExpectedNodes(plan, warehousesOpened)
  {
  }

  /**
   * Builds the node list and the link list as the effect body does: plants,
   * then opened warehouses, then customers with their links, then the
   * plant -> warehouse links.
   */
  method BuildGraph(plan: ShippingPlan, warehousesOpened: seq<string>) returns (nodes: seq<Node>, links: seq<Link>)
    ensures nodes == ExpectedNodes(plan, warehousesOpened)
    ensures |links| == |plan.warehouseToCustomer| + |plan.plantToWarehouse|
    ensures forall i :: 0 <= i < |plan.warehouseToCustomer| ==>
      links[i] == CustomerLink(plan.warehouseToCustomer[i])
    ensures forall j :: 0 <= j < |plan.plantToWarehouse| ==>
      links[|plan.warehouseToCustomer| + j] == PlantLink(plan.plantToWarehouse[j])
  {
    var ptw := plan.plantToWarehouse;
    var n := |plan.warehouseToCustomer|;
    var m := new NodeMap();
    AddPlants(m, ptw);
    AddWarehouses(m, PlantIds(ptw), warehousesOpened);
    EntriesAfterWarehouses(plan, warehousesOpened, m.entries);
    assert CustomerIds(plan.warehouseToCustomer)[..0] == [];
    assert PlantIds(ptw) + warehousesOpened + [] == PlantIds(ptw) + warehousesOpened;
    links := AddCustomers(m, plan, warehousesOpened);
    assert CustomerIds(plan.warehouseToCustomer)[..|plan.warehouseToCustomer|] == CustomerIds(plan.warehouseToCustomer);

    ghost var customerLinks, plantLinks := links, [];
    var k := 0;
    while k < |ptw|
      modifies {}
      invariant 0 <= k <= |ptw|
      invariant links == customerLinks + plantLinks
      invariant |plantLinks| == k && CopiesPlantShipments(plantLinks, ptw)
    {
      var ship := ptw[k];
      PlantCopiesStep(plantLinks, ptw);
      links := links + [Link(ship.plant, ship.warehouse, ship.amount)];
      plantLinks := plantLinks + [PlantLink(ship)];
      k := k + 1;
    }
    LinksInOrder(customerLinks, plantLinks, plan);

    nodes := m.Values();
    ValuesAreExpected(plan, warehousesOpened, m.order, m.entries, nodes);
  }

  // ---------------------------------------------------------------------
  // Properties of the built graph

  /**
   * Which node an id resolves to: a node exists exactly for the ids the
   * records and the opened list name; an opened warehouse always wins (the
   * second pass overwrites), then a plant (registered first), then a customer.
   */
  lemma NodeKindPriority(plan: ShippingPlan, warehousesOpened: seq<string>, id: string)
    ensures NodeById(ExpectedNodes(plan, warehousesOpened), id).None? <==>
      !NamesPlant(plan, id) && id !in warehousesOpened && !NamesCustomer(plan, id)
    ensures id in warehousesOpened ==>
      NodeById(ExpectedNodes(plan, warehousesOpened), id) == Some(Node(id, Warehouse, 8, None, None))
    ensures id !in warehousesOpened && NamesPlant(plan, id) ==>
      NodeById(ExpectedNodes(plan, warehousesOpened), id) == Some(Node(id, Plant, 10, None, None))
    ensures id !in warehousesOpened && !NamesPlant(plan, id) && NamesCustomer(plan, id) ==>
      NodeById(ExpectedNodes(plan, warehousesOpened), id) == Some(Node(id, Customer, 6, None, None))
  {
    ResolveExpected(plan, warehousesOpened, id);
  }

  /** Looking an id up in the reference node list finds its node exactly when the id was met. */
  lemma ResolveExpected(plan: ShippingPlan, warehousesOpened: seq<string>, id: string)
    ensures NodeById(ExpectedNodes(plan, warehousesOpened), id) ==
      if id in AllIds(plan, warehousesOpened) then Some(MakeNode(id, KindOf(plan, warehousesOpened, id)))
      else None
  {
    var all := AllIds(plan, warehousesOpened);
    var ids := Distinct(all);
    var nodes := ExpectedNodes(plan, warehousesOpened);
    DistinctMembers(all, id);
    DistinctNoDuplicates(all);
    if id in ids {
      var k :| 0 <= k < |ids| && ids[k] == id;
      assert nodes[k].id == id;
      var r := NodeById(nodes, id);
      assert r.Some?;
      var i :| 0 <= i < |nodes| && nodes[i] == r.value && r.value.id == id;
      assert i == k;
    } else {
      assert forall i :: 0 <= i < |nodes| ==> nodes[i].id != id;
    }
  }

  /** Every opened warehouse has a warehouse node, whether or not any shipment names it. */
  lemma OpenedWarehousesRegistered(plan: ShippingPlan, warehousesOpened: seq<string>)
    ensures forall w :: w in warehousesOpened ==>
      exists i :: 0 <= i < |ExpectedNodes(plan, warehousesOpened)| &&
        ExpectedNodes(plan, warehousesOpened)[i] == Node(w, Warehouse, 8, None, None)
  {
    var nodes := ExpectedNodes(plan, warehousesOpened);
    forall w | w in warehousesOpened
      ensures exists i :: 0 <= i < |nodes| && nodes[i] == Node(w, Warehouse, 8, None, None)
    {
      NodeKindPriority(plan, warehousesOpened, w);
    }
  }

  /** No two nodes share an id. */
  lemma NodeIdsUnique(plan: ShippingPlan, warehousesOpened: seq<string>)
    ensures UniqueIds(ExpectedNodes(plan, warehousesOpened))
  {
    DistinctNoDuplicates(AllIds(plan, warehousesOpened));
  }

  /** Every id the records or the opened list name, as a set. */
  function IdSet(plan: ShippingPlan, warehousesOpened: seq<string>): set<string> {
    Elements(AllIds(plan, warehousesOpened))
  }

  /** There is one node per distinct id among plants, opened warehouses and customers. */
  lemma NodeCount(plan: ShippingPlan, warehousesOpened: seq<string>)
    ensures |ExpectedNodes(plan, warehousesOpened)| == |IdSet(plan, warehousesOpened)|
  {
    DistinctCardinality(AllIds(plan, warehousesOpened));
  }

  /**
   * Nodes come in first-seen order: an overwrite keeps the position of the
   * entry it replaces, so a node appears where its id was first met.
   */
  lemma NodesInFirstSeenOrder(plan: ShippingPlan, warehousesOpened: seq<string>, i: nat, j: nat)
    requires i < j < |ExpectedNodes(plan, warehousesOpened)|
    ensures ExpectedNodes(plan, warehousesOpened)[i].id == Distinct(AllIds(plan, warehousesOpened))[i]
    ensures ExpectedNodes(plan, warehousesOpened)[j].id == Distinct(AllIds(plan, warehousesOpened))[j]
    ensures ExpectedNodes(plan, warehousesOpened)[i].id in AllIds(plan, warehousesOpened)
    ensures ExpectedNodes(plan, warehousesOpened)[j].id in AllIds(plan, warehousesOpened)
    ensures FirstIndex(AllIds(plan, warehousesOpened), ExpectedNodes(plan, warehousesOpened)[i].id)
          < FirstIndex(AllIds(plan, warehousesOpened), ExpectedNodes(plan, warehousesOpened)[j].id)
  {
    var all := AllIds(plan, warehousesOpened);
    var ids := Distinct(all);
    DistinctMembers(all, ids[i]);
    DistinctMembers(all, ids[j]);
    DistinctFirstSeenOrder(all, i, j);
  }

  /**
   * One plant, one opened warehouse and one customer with distinct ids, and
   * a shipment each way: three nodes of the three kinds, in that order.
   */
  lemma SmallPlanNodes(p: string, w: string, c: string, toWarehouse: real, toCustomer: real)
    requires p != w && p != c && w != c
    ensures ExpectedNodes(
      ShippingPlan([PlantShipment(p, w, toWarehouse)], [CustomerShipment(w, c, toCustomer)]), [w])
      == [Node(p, Plant, 10, None, None), Node(w, Warehouse, 8, None, None), Node(c, Customer, 6, None, None)]
  {
    var plan := ShippingPlan([PlantShipment(p, w, toWarehouse)], [CustomerShipment(w, c, toCustomer)]);
    var ids := [p, w, c];
    assert AllIds(plan, [w]) == ids by {
      assert PlantIds(plan.plantToWarehouse) == [p];
      assert CustomerIds(plan.warehouseToCustomer) == [c];
    }
    assert Distinct(ids) == ids by {
      assert NoDuplicates(ids);
      NoDuplicatesDistinct(ids);
    }
    assert KindOf(plan, [w], p) == Plant by {
      assert PlantIds(plan.plantToWarehouse) == [p];
    }
    assert KindOf(plan, [w], c) == Customer by {
      assert PlantIds(plan.plantToWarehouse) == [p];
    }
  }

  /**
   * An id that is both a plant and a customer collapses into one node, and
   * the plant registration (the earlier pass) decides its kind.
   */
  lemma SharedIdCollapses(x: string, w: string, toWarehouse: real, toCustomer: real)
    ensures ExpectedNodes(
      ShippingPlan([PlantShipment(x, w, toWarehouse)], [CustomerShipment(w, x, toCustomer)]), [])
      == [Node(x, Plant, 10, None, None)]
  {
    var plan := ShippingPlan([PlantShipment(x, w, toWarehouse)], [CustomerShipment(w, x, toCustomer)]);
    assert PlantIds(plan.plantToWarehouse) == [x];
    assert AllIds(plan, []) == [x, x] by {
      assert CustomerIds(plan.warehouseToCustomer) == [x];
    }
    assert Distinct([x, x]) == [x] by {
      DistinctSnoc([], x);
      assert [] + [x] == [x];
      DistinctSnoc([x], x);
      assert [x] + [x] == [x, x];
    }
    assert KindOf(plan, [], x) == Plant;
  }
}
