/**
 * Drawing and pointer interaction over the built graph
 * (frontend/src/components/NetworkVisualization.tsx, the render part):
 * node colours, the links that are drawn, node marks and labels, the
 * placement a layout produces, and the hover state.
 */
module NetworkRender {
  import opened Options
  import opened Sequences
  import opened NetworkGraph

  const PlantColor: string := "#1f77b4"
  const WarehouseColor: string := "#ff7f0e"
  const CustomerColor: string := "#2ca02c"
  const FallbackColor: string := "#000000"

  /** `getNodeColor`: one fixed colour per known kind, black for any other string. */
  function NodeColor(kind: string): (color: string)
    ensures color == PlantColor <==> kind == "plant"
    ensures color == WarehouseColor <==> kind == "warehouse"
    ensures color == CustomerColor <==> kind == "customer"
    ensures color == FallbackColor <==> kind != "plant" && kind != "warehouse" && kind != "customer"
  {
    match kind
    case "plant" => PlantColor
    case "warehouse" => WarehouseColor
    case "customer" => CustomerColor
    case _ => FallbackColor
  }

  /** The three kinds get three different colours, none of them the fallback. */
  lemma KindColorsDistinct(a: Kind, b: Kind)
    ensures NodeColor(KindName(a)) != FallbackColor
    ensures NodeColor(KindName(a)) == NodeColor(KindName(b)) <==> a == b
  {
    assert KindName(Plant) == "plant";
    assert KindName(Warehouse) == "warehouse";
    assert KindName(Customer) == "customer";
  }

  // ---------------------------------------------------------------------
  // Layout

  datatype Point = Point(x: real, y: real)

  /**
   * The force layout, taken as an opaque placement: node `i` ends at
   * `positions[i]`; nothing else about a node changes.
   */
  function Place(nodes: seq<Node>, positions: seq<Point>): (placed: seq<Node>)
    requires |positions| == |nodes|
    ensures |placed| == |nodes|
    ensures forall i :: 0 <= i < |nodes| ==>
      placed[i] == nodes[i].(x := Some(positions[i].x), y := Some(positions[i].y))
  {
    seq(|nodes|, i requires 0 <= i < |nodes| => nodes[i].(x := Some(positions[i].x), y := Some(positions[i].y)))
  }

  /** Placement keeps id resolution: the same ids resolve, to the same node moved. */
  lemma {:induction false} PlaceKeepsResolution(nodes: seq<Node>, positions: seq<Point>, id: string)
    requires |positions| == |nodes|
    ensures NodeById(Place(nodes, positions), id).Some? <==> NodeById(nodes, id).Some?
    ensures NodeById(nodes, id).Some? ==>
      NodeById(Place(nodes, positions), id).value.id == id &&
      NodeById(Place(nodes, positions), id).value.kind == NodeById(nodes, id).value.kind &&
      NodeById(Place(nodes, positions), id).value.size == NodeById(nodes, id).value.size
  {
    var placed := Place(nodes, positions);
    if NodeById(nodes, id).Some? {
      var i :| 0 <= i < |nodes| && nodes[i] == NodeById(nodes, id).value && nodes[i].id == id;
      assert placed[i].id == id;
      var j :| 0 <= j < |placed| && placed[j] == NodeById(placed, id).value && placed[j].id == id;
      FirstMatchAgrees(nodes, placed, id, i, j);
    }
  }

  /** Two lists with the same ids resolve an id at the same position. */
  lemma FirstMatchAgrees(nodes: seq<Node>, placed: seq<Node>, id: string, i: nat, j: nat)
    requires |placed| == |nodes|
    requires forall k :: 0 <= k < |nodes| ==>
      placed[k].id == nodes[k].id && placed[k].kind == nodes[k].kind && placed[k].size == nodes[k].size
    requires i < |nodes| && nodes[i].id == id && j < |placed| && placed[j].id == id
    requires NodeById(nodes, id) == Some(nodes[i]) && NodeById(placed, id) == Some(placed[j])
    ensures placed[j].kind == nodes[i].kind && placed[j].size == nodes[i].size
  {
    var fi := FindFirst(nodes, (n: Node) => n.id == id);
    var fj := FindFirst(placed, (n: Node) => n.id == id);
    assert fi.Some? && fj.Some?;
    assert fi.value == fj.value;
  }

  // ---------------------------------------------------------------------
  // Links

  /** JavaScript truthiness of an optional coordinate (absent and 0 are falsy). */
  predicate Truthy(v: Option<real>) {
    v.Some? && v.value != 0.0
  }

  /** One drawn line: its React key (the link's index), both endpoints and the flow amount. */
  datatype Segment = Segment(key: nat, x1: real, y1: real, x2: real, y2: real, value: real)

  /**
   * The line drawn for link number `key`, or None when the link is skipped
   * (`nodes.find` for both endpoints, then the truthiness test).
   */
  function LinkSegment(nodes: seq<Node>, link: Link, key: nat): (r: Option<Segment>)
    ensures NodeById(nodes, link.source).None? || NodeById(nodes, link.target).None? ==> r.None?
    ensures r.Some? ==> r.value.key == key && r.value.value == link.value
  {
    var source := NodeById(nodes, link.source);
    var target := NodeById(nodes, link.target);
    if source.Some? && target.Some?
       && Truthy(source.value.x) && Truthy(source.value.y)
       && Truthy(target.value.x) && Truthy(target.value.y)
    then
      Some(Segment(key, source.value.x.value, source.value.y.value,
                   target.value.x.value, target.value.y.value, link.value))
    else
      None
  }

  /** Both endpoints sit at nodes `i` and `j`, each with both coordinates truthy. */
  predicate DrawableAt(nodes: seq<Node>, link: Link, i: int, j: int) {
    && 0 <= i < |nodes| && 0 <= j < |nodes|
    && nodes[i].id == link.source && nodes[j].id == link.target
    && Truthy(nodes[i].x) && Truthy(nodes[i].y) && Truthy(nodes[j].x) && Truthy(nodes[j].y)
  }

  /**
   * When a link is drawn: an endpoint id that resolves to no node, or an
   * endpoint coordinate that is absent or exactly 0, suppresses it; a drawn
   * line joins the two endpoint nodes and carries the flow amount.
   */
  lemma LinkSegmentDrawn(nodes: seq<Node>, link: Link, key: nat)
    ensures (forall i :: 0 <= i < |nodes| ==> nodes[i].id != link.source) ==> LinkSegment(nodes, link, key).None?
    ensures (forall i :: 0 <= i < |nodes| ==> nodes[i].id != link.target) ==> LinkSegment(nodes, link, key).None?
    ensures LinkSegment(nodes, link, key).Some? ==>
      exists i, j :: DrawableAt(nodes, link, i, j) &&
        LinkSegment(nodes, link, key).value ==
          Segment(key, nodes[i].x.value, nodes[i].y.value, nodes[j].x.value, nodes[j].y.value, link.value)
  {
    var r := LinkSegment(nodes, link, key);
    if r.Some? {
      var source := NodeById(nodes, link.source);
      var target := NodeById(nodes, link.target);
      var i :| 0 <= i < |nodes| && nodes[i] == source.value && source.value.id == link.source;
      var j :| 0 <= j < |nodes| && nodes[j] == target.value && target.value.id == link.target;
      assert DrawableAt(nodes, link, i, j);
    }
  }

  /**
   * With unique ids (as the builder guarantees), a link is drawn exactly when
   * both endpoints are nodes whose coordinates are all truthy.
   */
  lemma LinkSegmentDrawnIff(nodes: seq<Node>, link: Link, key: nat)
    requires UniqueIds(nodes)
    ensures LinkSegment(nodes, link, key).Some? <==> exists i, j :: DrawableAt(nodes, link, i, j)
  {
    LinkSegmentDrawn(nodes, link, key);
    if i, j :| DrawableAt(nodes, link, i, j) {
      var source := NodeById(nodes, link.source);
      var target := NodeById(nodes, link.target);
      assert source.Some? && target.Some?;
      var i' :| 0 <= i' < |nodes| && nodes[i'] == source.value && source.value.id == link.source;
      var j' :| 0 <= j' < |nodes| && nodes[j'] == target.value && target.value.id == link.target;
      assert i' == i && j' == j;
    }
  }

  /** The candidate line of every link, in link order (`null` for a skipped one). */
  function Candidates(nodes: seq<Node>, links: seq<Link>): (c: seq<Option<Segment>>)
    ensures |c| == |links|
    ensures forall k :: 0 <= k < |links| ==> c[k] == LinkSegment(nodes, links[k], k)
    ensures forall k :: 0 <= k < |links| && c[k].Some? ==> c[k].value.key == k
  {
    seq(|links|, k requires 0 <= k < |links| => LinkSegment(nodes, links[k], k))
  }

  /** The present candidates, in order (React renders nothing for `null`). */
  function Kept(c: seq<Option<Segment>>): (r: seq<Segment>)
    requires forall k :: 0 <= k < |c| && c[k].Some? ==> c[k].value.key == k
    ensures forall s :: s in r ==> s.key < |c| && c[s.key] == Some(s)
    ensures forall k :: 0 <= k < |c| && c[k].Some? ==> c[k].value in r
    ensures forall a, b :: 0 <= a < b < |r| ==> r[a].key < r[b].key
    decreases |c|
  {
    if c == [] then []
    else
      var n := |c| - 1;
      var earlier := Kept(c[..n]);
      match c[n]
      case None => earlier
      case Some(s) => earlier + [s]
  }

  /** When every candidate is `null`, nothing is rendered. */
  lemma {:induction false} KeptNone(c: seq<Option<Segment>>)
    requires forall k :: 0 <= k < |c| ==> c[k].None?
    ensures Kept(c) == []
    decreases |c|
  {
    if c != [] {
      KeptNone(c[..|c| - 1]);
    }
  }

  /** `links.map(...)` with the skipped links dropped, in link order. */
  function DrawnLinks(nodes: seq<Node>, links: seq<Link>): (r: seq<Segment>)
    ensures forall s :: s in r ==> s.key < |links| && LinkSegment(nodes, links[s.key], s.key) == Some(s)
    ensures forall k :: 0 <= k < |links| && LinkSegment(nodes, links[k], k).Some? ==>
      LinkSegment(nodes, links[k], k).value in r
    ensures forall a, b :: 0 <= a < b < |r| ==> r[a].key < r[b].key
  {
    Kept(Candidates(nodes, links))
  }

  /** A link with an endpoint that resolves to no node is never drawn, and nothing fails. */
  lemma DanglingLinkNotDrawn(nodes: seq<Node>, links: seq<Link>, k: nat)
    requires k < |links|
    requires (forall i :: 0 <= i < |nodes| ==> nodes[i].id != links[k].source)
          || (forall i :: 0 <= i < |nodes| ==> nodes[i].id != links[k].target)
    ensures forall s :: s in DrawnLinks(nodes, links) ==> s.key != k
  {
    LinkSegmentDrawn(nodes, links[k], k);
  }

  /**
   * Once every node of the built graph is placed away from the axes, a link
   * is drawn exactly when both of its endpoint ids were registered.
   */
  lemma LinkDrawnIffEndpointsKnown(plan: ShippingPlan, warehousesOpened: seq<string>,
                                   positions: seq<Point>, link: Link, key: nat)
    requires |positions| == |ExpectedNodes(plan, warehousesOpened)|
    requires forall p :: p in positions ==> p.x != 0.0 && p.y != 0.0
    ensures LinkSegment(Place(ExpectedNodes(plan, warehousesOpened), positions), link, key).Some? <==>
      link.source in IdSet(plan, warehousesOpened) && link.target in IdSet(plan, warehousesOpened)
  {
    var nodes := ExpectedNodes(plan, warehousesOpened);
    var placed := Place(nodes, positions);
    NodeIdsUnique(plan, warehousesOpened);
    assert UniqueIds(placed) by {
      forall a, b | 0 <= a < b < |placed| ensures placed[a].id != placed[b].id {
        assert placed[a].id == nodes[a].id && placed[b].id == nodes[b].id;
      }
    }
    forall id ensures (exists i :: 0 <= i < |placed| && placed[i].id == id) <==> id in IdSet(plan, warehousesOpened) {
      ResolveInIdSet(plan, warehousesOpened, id);
      if exists i :: 0 <= i < |placed| && placed[i].id == id {
        var i :| 0 <= i < |placed| && placed[i].id == id;
        assert nodes[i].id == id;
      }
      if exists i :: 0 <= i < |nodes| && nodes[i].id == id {
        var i :| 0 <= i < |nodes| && nodes[i].id == id;
        assert placed[i].id == id;
      }
    }
    forall i | 0 <= i < |placed|
      ensures Truthy(placed[i].x) && Truthy(placed[i].y)
    {
      assert positions[i] in positions;
    }
    LinkSegmentDrawnIff(placed, link, key);
    if link.source in IdSet(plan, warehousesOpened) && link.target in IdSet(plan, warehousesOpened) {
      var i :| 0 <= i < |placed| && placed[i].id == link.source;
      var j :| 0 <= j < |placed| && placed[j].id == link.target;
      assert DrawableAt(placed, link, i, j);
    }
  }

  /** An id names a node of the built graph exactly when it is in the id set. */
  lemma ResolveInIdSet(plan: ShippingPlan, warehousesOpened: seq<string>, id: string)
    ensures (exists i :: 0 <= i < |ExpectedNodes(plan, warehousesOpened)| &&
              ExpectedNodes(plan, warehousesOpened)[i].id == id)
      <==> id in IdSet(plan, warehousesOpened)
  {
    NodeKindPriority(plan, warehousesOpened, id);
  }

  // ---------------------------------------------------------------------
  // Node marks and labels

  /** `v || 0` on an optional coordinate. */
  function OrZero(v: Option<real>): real {
    if v.Some? then v.value else 0.0
  }

  datatype Mark = Mark(x: real, y: real, size: nat, color: string)
  datatype Label = Label(x: real, y: real, text: string)

  /** One circular mark per node: at its position (0 when unplaced), three times its size, in its kind's colour. */
  function Marks(nodes: seq<Node>): (marks: seq<Mark>)
    ensures |marks| == |nodes|
    ensures forall i :: 0 <= i < |nodes| ==>
      (nodes[i].x.Some? ==> marks[i].x == nodes[i].x.value) && (nodes[i].x.None? ==> marks[i].x == 0.0) &&
      (nodes[i].y.Some? ==> marks[i].y == nodes[i].y.value) && (nodes[i].y.None? ==> marks[i].y == 0.0)
    ensures forall i :: 0 <= i < |nodes| ==> marks[i].size == 3 * nodes[i].size
    ensures forall i :: 0 <= i < |nodes| ==> marks[i].color == NodeColor(KindName(nodes[i].kind))
    ensures forall i :: 0 <= i < |nodes| ==> marks[i].color != FallbackColor
  {
    seq(|nodes|, i requires 0 <= i < |nodes| =>
      Mark(OrZero(nodes[i].x), OrZero(nodes[i].y), nodes[i].size * 3, NodeColor(KindName(nodes[i].kind))))
  }

  /** One text label per node, showing its id, offset by (10, 10) from the node's mark. */
  function Labels(nodes: seq<Node>): (labels: seq<Label>)
    ensures |labels| == |nodes|
    ensures forall i :: 0 <= i < |nodes| ==>
      labels[i] == Label(Marks(nodes)[i].x + 10.0, Marks(nodes)[i].y + 10.0, nodes[i].id)
  {
    seq(|nodes|, i requires 0 <= i < |nodes| => Label(OrZero(nodes[i].x) + 10.0, OrZero(nodes[i].y) + 10.0, nodes[i].id))
  }

  /** Marks of the built graph: plants 30 in blue, warehouses 24 in orange, customers 18 in green. */
  lemma BuiltMarkStyles(plan: ShippingPlan, warehousesOpened: seq<string>, i: nat)
    requires i < |ExpectedNodes(plan, warehousesOpened)|
    ensures var n := ExpectedNodes(plan, warehousesOpened)[i];
      var m := Marks(ExpectedNodes(plan, warehousesOpened))[i];
      && (n.kind == Plant ==> m.size == 30 && m.color == PlantColor)
      && (n.kind == Warehouse ==> m.size == 24 && m.color == WarehouseColor)
      && (n.kind == Customer ==> m.size == 18 && m.color == CustomerColor)
  {
    var n := ExpectedNodes(plan, warehousesOpened)[i];
    assert n.size == SizeOf(n.kind);
    KindColorsDistinct(n.kind, n.kind);
  }

  // ---------------------------------------------------------------------
  // Hover

  /** A node sits exactly at the point (x, y). */
  predicate At(n: Node, x: real, y: real) {
    n.x == Some(x) && n.y == Some(y)
  }

  /**
   * `onValueMouseOver`: hover the first node whose coordinates equal the
   * mark's point; when none does, the hovered node stays as it was.
   */
  function MouseOver(nodes: seq<Node>, hovered: Option<Node>, x: real, y: real): (r: Option<Node>)
    ensures (forall i :: 0 <= i < |nodes| ==> !At(nodes[i], x, y)) ==> r == hovered
    ensures (exists i :: 0 <= i < |nodes| && At(nodes[i], x, y)) ==>
      exists i :: 0 <= i < |nodes| && At(nodes[i], x, y) && r == Some(nodes[i]) &&
        forall j :: 0 <= j < i ==> !At(nodes[j], x, y)
  {
    match FindFirst(nodes, (n: Node) => At(n, x, y))
    case None => hovered
    case Some(i) => Some(nodes[i])
  }

  /** `onValueMouseOut`: always back to no hovered node. */
  function MouseOut(hovered: Option<Node>): (r: Option<Node>)
    ensures r.None?
  {
    None
  }

  /**
   * Hovering the mark of a placed node selects a node at that same point,
   * at or before it in the list; it is the node itself unless an earlier
   * node shares its coordinates.
   */
  lemma HoverOwnMark(nodes: seq<Node>, hovered: Option<Node>, k: nat)
    requires k < |nodes| && nodes[k].x.Some? && nodes[k].y.Some?
    ensures var r := MouseOver(nodes, hovered, Marks(nodes)[k].x, Marks(nodes)[k].y);
      r.Some? && r.value.x == nodes[k].x && r.value.y == nodes[k].y
    ensures (forall j :: 0 <= j < k ==> nodes[j].x != nodes[k].x || nodes[j].y != nodes[k].y) ==>
      MouseOver(nodes, hovered, Marks(nodes)[k].x, Marks(nodes)[k].y) == Some(nodes[k])
  {
    var x, y := Marks(nodes)[k].x, Marks(nodes)[k].y;
    assert At(nodes[k], x, y);
    var r := MouseOver(nodes, hovered, x, y);
    var i :| 0 <= i < |nodes| && At(nodes[i], x, y) && r == Some(nodes[i]) &&
      forall j :: 0 <= j < i ==> !At(nodes[j], x, y);
    assert i <= k;
  }

  /**
   * The mark of a node without an x coordinate is drawn at x = 0, and no
   * node without an x coordinate matches it, so hovering it changes nothing
   * unless some node is really placed at that point.
   */
  lemma HoverUnplacedMark(nodes: seq<Node>, hovered: Option<Node>, k: nat)
    requires k < |nodes| && nodes[k].x.None?
    requires forall j :: 0 <= j < |nodes| ==> !At(nodes[j], 0.0, OrZero(nodes[k].y))
    ensures MouseOver(nodes, hovered, Marks(nodes)[k].x, Marks(nodes)[k].y) == hovered
  {
  }
}
