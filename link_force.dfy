/**
 * What the link force does to the link list in frontend/src/components/
 * NetworkVisualization.tsx as written. `forceLink(linksArray)` is handed the
 * very array the effect later stores with `setLinks`. When the force is
 * initialised it replaces every endpoint id by the simulation's node object
 * with that id, and an id with no node aborts the effect. The draw test then
 * compares node ids with those objects.
 */
module LinkForce {
  import opened Options
  import opened Sequences
  import opened NetworkGraph
  import opened NetworkRender

  /** A link endpoint: an id string, or the simulation's node object at an index of its node list. */
  datatype Endpoint = IdRef(id: string) | NodeRef(index: nat)

  /** A link as the link force leaves it. */
  datatype LiveLink = LiveLink(source: Endpoint, target: Endpoint, value: real)

  /** Some node carries the id. */
  predicate Known(nodes: seq<Node>, id: string) {
    NodeById(nodes, id).Some?
  }

  /** The index of the node the force finds for an id. */
  function Lookup(nodes: seq<Node>, id: string): (r: Option<nat>)
    ensures r.None? <==> !Known(nodes, id)
    ensures r.Some? ==> r.value < |nodes| && nodes[r.value].id == id
    ensures r.Some? ==> nodes[r.value] == NodeById(nodes, id).value
  {
    FindFirst(nodes, (n: Node) => n.id == id)
  }

  /** `live` is `link` with both ids replaced by the nodes carrying them. */
  predicate Rewritten(nodes: seq<Node>, link: Link, live: LiveLink) {
    && live.source.NodeRef? && live.source.index < |nodes| && nodes[live.source.index].id == link.source
    && live.target.NodeRef? && live.target.index < |nodes| && nodes[live.target.index].id == link.target
    && live.value == link.value
  }

  /** One link: its source id, then its target id, is replaced by its node; an unknown id aborts with that id. */
  function InitLink(nodes: seq<Node>, link: Link): (r: Result<LiveLink, string>)
    ensures r.Failure? <==> !Known(nodes, link.source) || !Known(nodes, link.target)
    ensures !Known(nodes, link.source) ==> r == Failure(link.source)
    ensures Known(nodes, link.source) && !Known(nodes, link.target) ==> r == Failure(link.target)
    ensures r.Success? ==> Rewritten(nodes, link, r.value)
  {
    match Lookup(nodes, link.source)
    case None => Failure(link.source)
    case Some(s) =>
      match Lookup(nodes, link.target)
      case None => Failure(link.target)
      case Some(t) => Success(LiveLink(NodeRef(s), NodeRef(t), link.value))
  }

  /** Initialising the link force: the links are visited in order, and the first failure aborts. */
  function InitLinks(nodes: seq<Node>, links: seq<Link>): (r: Result<seq<LiveLink>, string>)
    ensures r.Success? ==> |r.value| == |links|
    decreases |links|
  {
    if links == [] then Success([])
    else
      match InitLink(nodes, links[0])
      case Failure(e) => Failure(e)
      case Success(first) =>
        match InitLinks(nodes, links[1..])
        case Failure(e) => Failure(e)
        case Success(tail) => Success([first] + tail)
  }

  /** Every link names only ids that have a node. */
  predicate AllKnown(nodes: seq<Node>, links: seq<Link>) {
    forall k :: 0 <= k < |links| ==> Known(nodes, links[k].source) && Known(nodes, links[k].target)
  }

  /** Every live link is its link with both ids replaced by their nodes. */
  predicate AllRewritten(nodes: seq<Node>, links: seq<Link>, live: seq<LiveLink>) {
    |live| == |links| && forall k :: 0 <= k < |links| ==> Rewritten(nodes, links[k], live[k])
  }

  lemma AllKnownCons(nodes: seq<Node>, links: seq<Link>)
    requires links != []
    ensures AllKnown(nodes, links) <==>
      Known(nodes, links[0].source) && Known(nodes, links[0].target) && AllKnown(nodes, links[1..])
  {
    assert forall k :: 1 <= k < |links| ==> links[k] == links[1..][k - 1];
  }

  lemma AllRewrittenCons(nodes: seq<Node>, links: seq<Link>, first: LiveLink, tail: seq<LiveLink>)
    requires links != [] && Rewritten(nodes, links[0], first) && AllRewritten(nodes, links[1..], tail)
    ensures AllRewritten(nodes, links, [first] + tail)
  {
    assert forall k :: 1 <= k < |links| ==> links[k] == links[1..][k - 1] && ([first] + tail)[k] == tail[k - 1];
  }

  /**
   * The force succeeds exactly when every link names only ids that have a
   * node, and it then replaces every link's ids by their nodes.
   */
  lemma {:induction false} InitLinksOutcome(nodes: seq<Node>, links: seq<Link>)
    ensures InitLinks(nodes, links).Success? <==> AllKnown(nodes, links)
    ensures InitLinks(nodes, links).Success? ==> AllRewritten(nodes, links, InitLinks(nodes, links).value)
    decreases |links|
  {
    if links != [] {
      InitLinksOutcome(nodes, links[1..]);
      AllKnownCons(nodes, links);
      var first := InitLink(nodes, links[0]);
      var rest := InitLinks(nodes, links[1..]);
      if first.Success? && rest.Success? {
        AllRewrittenCons(nodes, links, first.value, rest.value);
      }
    }
  }

  /** The set-up aborts with the error of the first link that has an unknown id. */
  lemma {:induction false} InitLinksFirstFailure(nodes: seq<Node>, links: seq<Link>, k: nat)
    requires k < |links| && InitLink(nodes, links[k]).Failure?
    requires forall j :: 0 <= j < k ==> InitLink(nodes, links[j]).Success?
    ensures InitLinks(nodes, links) == Failure(InitLink(nodes, links[k]).error)
    decreases k
  {
    if k > 0 {
      assert forall j :: 0 <= j < k - 1 ==> links[1..][j] == links[j + 1];
      InitLinksFirstFailure(nodes, links[1..], k - 1);
    }
  }

  /** `n.id === endpoint`: an id equals only the same id string, never a node object. */
  predicate IdIs(id: string, e: Endpoint) {
    e.IdRef? && e.id == id
  }

  /** The draw test at lines 130-132 applied to a link as the force left it. */
  function LiveSegment(nodes: seq<Node>, link: LiveLink, key: nat): (r: Option<Segment>)
    ensures link.source.NodeRef? || link.target.NodeRef? ==> r.None?
    ensures r.Some? ==> r.value.key == key && r.value.value == link.value
  {
    var source := FindFirst(nodes, (n: Node) => IdIs(n.id, link.source));
    var target := FindFirst(nodes, (n: Node) => IdIs(n.id, link.target));
    if source.Some? && target.Some? then
      var a, b := nodes[source.value], nodes[target.value];
      if Truthy(a.x) && Truthy(a.y) && Truthy(b.x) && Truthy(b.y) then
        Some(Segment(key, a.x.value, a.y.value, b.x.value, b.y.value, link.value))
      else None
    else None
  }

  /** The lines rendered for the stored links, as written. */
  function DrawnLiveLinks(nodes: seq<Node>, live: seq<LiveLink>): (r: seq<Segment>)
    ensures forall s :: s in r ==> s.key < |live| && LiveSegment(nodes, live[s.key], s.key) == Some(s)
    ensures forall k :: 0 <= k < |live| && LiveSegment(nodes, live[k], k).Some? ==>
      LiveSegment(nodes, live[k], k).value in r
    ensures forall a, b :: 0 <= a < b < |r| ==> r[a].key < r[b].key
  {
    var c := seq(|live|, k requires 0 <= k < |live| => LiveSegment(nodes, live[k], k));
    assert forall k :: 0 <= k < |live| ==> c[k] == LiveSegment(nodes, live[k], k);
    Kept(c)
  }

  /** No link whose source is a node object is drawn, whatever the nodes shown. */
  lemma ObjectsNotDrawn(shown: seq<Node>, live: seq<LiveLink>)
    requires forall k :: 0 <= k < |live| ==> live[k].source.NodeRef?
    ensures DrawnLiveLinks(shown, live) == []
  {
    var c := seq(|live|, k requires 0 <= k < |live| => LiveSegment(shown, live[k], k));
    assert forall k :: 0 <= k < |live| ==> c[k] == LiveSegment(shown, live[k], k);
    KeptNone(c);
  }

  /** Once the force has rewritten the endpoints, no link is drawn, whatever the nodes. */
  lemma AsWrittenDrawsNothing(nodes: seq<Node>, links: seq<Link>, shown: seq<Node>)
    requires InitLinks(nodes, links).Success?
    ensures DrawnLiveLinks(shown, InitLinks(nodes, links).value) == []
  {
    var live := InitLinks(nodes, links).value;
    InitLinksOutcome(nodes, links);
    assert forall k :: 0 <= k < |live| ==> live[k].source.NodeRef? by {
      forall k | 0 <= k < |live| ensures live[k].source.NodeRef? {
        assert Rewritten(nodes, links[k], live[k]);
      }
    }
    ObjectsNotDrawn(shown, live);
  }

  /**
   * One plant shipping to one opened warehouse, laid out away from the axes.
   * BuildGraph gives the plant and the warehouse and the single link between
   * them. As written the link force accepts that link and nothing is drawn.
   * When the stored link keeps its ids, the line is drawn.
   */
  lemma OneShipmentAsWritten(p: string, w: string, amount: real, positions: seq<Point>)
    requires p != w
    requires |positions| == 2 && forall q :: q in positions ==> q.x != 0.0 && q.y != 0.0
    ensures var nodes := ExpectedNodes(ShippingPlan([PlantShipment(p, w, amount)], []), [w]);
      var links := [PlantLink(PlantShipment(p, w, amount))];
      && InitLinks(nodes, links).Success?
      && DrawnLiveLinks(Place(nodes, positions), InitLinks(nodes, links).value) == []
      && DrawnLinks(Place(nodes, positions), links) != []
  {
    var plan := ShippingPlan([PlantShipment(p, w, amount)], []);
    var nodes := ExpectedNodes(plan, [w]);
    var links := [PlantLink(PlantShipment(p, w, amount))];
    var ids := [p, w];
    assert AllIds(plan, [w]) == ids by {
      assert PlantIds(plan.plantToWarehouse) == [p];
      assert CustomerIds(plan.warehouseToCustomer) == [];
    }
    assert Distinct(ids) == ids by {
      assert NoDuplicates(ids);
      NoDuplicatesDistinct(ids);
    }
    assert nodes[0].id == p && nodes[1].id == w;
    assert Known(nodes, links[0].source) && Known(nodes, links[0].target);
    InitLinksOutcome(nodes, links);
    AsWrittenDrawsNothing(nodes, links, Place(nodes, positions));
    assert p in IdSet(plan, [w]) && w in IdSet(plan, [w]);
    LinkDrawnIffEndpointsKnown(plan, [w], positions, links[0], 0);
    var drawn := DrawnLinks(Place(nodes, positions), links);
    assert LinkSegment(Place(nodes, positions), links[0], 0).value in drawn;
  }

  /**
   * One customer served from a warehouse that is neither opened nor a plant.
   * That warehouse gets no node, so as written the link force aborts on its
   * id. When the stored link keeps its ids, the link is skipped and nothing
   * fails.
   */
  lemma UnopenedWarehouseAsWritten(w: string, c: string, amount: real, positions: seq<Point>)
    requires w != c && |positions| == 1
    ensures var nodes := ExpectedNodes(ShippingPlan([], [CustomerShipment(w, c, amount)]), []);
      var links := [CustomerLink(CustomerShipment(w, c, amount))];
      && InitLinks(nodes, links) == Failure(w)
      && DrawnLinks(Place(nodes, positions), links) == []
  {
    var plan := ShippingPlan([], [CustomerShipment(w, c, amount)]);
    var nodes := ExpectedNodes(plan, []);
    var links := [CustomerLink(CustomerShipment(w, c, amount))];
    assert AllIds(plan, []) == [c] by {
      assert PlantIds(plan.plantToWarehouse) == [];
      assert CustomerIds(plan.warehouseToCustomer) == [c];
    }
    assert Distinct([c]) == [c] by {
      assert NoDuplicates([c]);
      NoDuplicatesDistinct([c]);
    }
    assert |nodes| == 1 && nodes[0].id == c;
    assert !Known(nodes, w);
    assert InitLink(nodes, links[0]) == Failure(w) by {
      assert Lookup(nodes, w).None?;
    }
    var placed := Place(nodes, positions);
    assert |placed| == 1 && placed[0].id == c;
    assert LinkSegment(placed, links[0], 0).None? by {
      assert NodeById(placed, w).None?;
    }
    KeptNone(Candidates(placed, links));
  }
}
