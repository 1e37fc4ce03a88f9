/**
 * The stateful part of components/NeuralGraph.tsx: the node objects the
 * physics loop and the pointer handlers update in place, and the component's
 * refs (nodes, live and user-drawn edges, camera, drag/pan/link state) as the
 * fields of one `Graph` object whose methods are the effect and the handlers.
 */
module NeuralGraph {
  import opened Records
  import opened Text
  import opened GraphModel

  /** `GraphNode`: the builder fixes id, type, label, group and radius; the physics and dragging move it. */
  class GraphNode {
    const id: string
    const kind: NodeKind
    const caption: string
    const group: string
    const radius: real
    var x: real
    var y: real
    var vx: real
    var vy: real

    constructor (s: NodeState)
      ensures View() == s
    {
      id, kind, caption, group, radius := s.id, s.kind, s.caption, s.group, s.radius;
      x, y, vx, vy := s.x, s.y, s.vx, s.vy;
    }

    /** The node's current field values. */
    function View(): NodeState
      reads this
    {
      NodeState(id, x, y, vx, vy, kind, caption, group, radius)
    }

    /** The fields the edge inference looks at; they never change. */
    function Info(): NodeInfo {
      NodeInfo(id, kind, caption, group)
    }
  }

  function ViewsOf(ns: seq<GraphNode>): (r: seq<NodeState>)
    reads ns
    ensures |r| == |ns| && forall i :: 0 <= i < |ns| ==> r[i] == ns[i].View()
  {
    seq(|ns|, i reads ns requires 0 <= i < |ns| => ns[i].View())
  }

  function InfosOf(ns: seq<GraphNode>): (r: seq<NodeInfo>)
    ensures |r| == |ns| && forall i :: 0 <= i < |ns| ==> r[i] == ns[i].Info()
  {
    seq(|ns|, i requires 0 <= i < |ns| => ns[i].Info())
  }

  /** The `addNode` calls: one fresh node object per source, placed by `MakeNode`. */
  method NewNodes(prev: seq<NodeState>, srcs: seq<Source>, cx: real, cy: real, jitter: seq<Jitter>)
    returns (n: seq<GraphNode>)
    requires |jitter| == |srcs|
    ensures ViewsOf(n) == BuildNodes(prev, srcs, cx, cy, jitter)
    ensures forall i :: 0 <= i < |n| ==> fresh(n[i])
    ensures forall a, b :: 0 <= a < b < |n| ==> n[a] != n[b]
  {
    n := [];
    for i := 0 to |srcs|
      invariant |n| == i
      invariant forall m :: 0 <= m < i ==> fresh(n[m])
      invariant forall a, b :: 0 <= a < b < i ==> n[a] != n[b]
      invariant forall m :: 0 <= m < i ==> n[m].View() == MakeNode(prev, srcs[m], cx, cy, jitter[m])
    {
      var node := new GraphNode(MakeNode(prev, srcs[i], cx, cy, jitter[i]));
      n := n + [node];
    }
  }

  /** The nested loops over pairs i < j: the edges they push are the inferred edges. */
  method InferEdges(n: seq<GraphNode>) returns (l: seq<Link>)
    ensures l == InferredLinks(InfosOf(n))
  {
    var infos := InfosOf(n);
    l := [];
    for i := 0 to |n|
      invariant l == RowsLinks(infos, i)
    {
      for j := i + 1 to |n|
        invariant l == RowsLinks(infos, i) + RowLinks(infos, i, j)
      {
        var a, b := n[i], n[j];
        var before := l;
        if a.group == b.group || Contains(a.group, b.group) || Contains(b.group, a.group) {
          l := l + [Link(a.id, b.id, GroupStrength)];
        }
        if a.kind == NoteNode && b.kind == TaskNode && Contains(a.caption, FirstWord(b.caption)) {
          l := l + [Link(a.id, b.id, LinkStrength)];
        }
        assert l == before + PairLinks(infos[i], infos[j]);
      }
    }
  }

  /** The component's refs and the interaction state it keeps between events. */
  class Graph {
    var nodes: seq<GraphNode>
    var links: seq<Link>
    var userLinks: seq<Link>
    var transform: Transform
    var dragged: GraphNode?
    var clickStart: Option<Point>
    var panStart: Option<Point>
    var linkSource: GraphNode?
    var tempLinkEnd: Option<Point>
    var hovered: Option<string>
    var isDraggingNode: bool
    var isPanning: bool
    var isLinking: bool

    /**
     * The scale stays within the zoom limits, the node list holds distinct
     * objects, and the live edges are the inferred edges followed by the
     * user-drawn ones.
     */
    ghost predicate Valid()
      reads this
    {
      MinScale <= transform.k <= MaxScale &&
      (forall i, j :: 0 <= i < j < |nodes| ==> nodes[i] != nodes[j]) &&
      links == InferredLinks(InfosOf(nodes)) + userLinks
    }

    /** The first node under the screen point, by the hit test in world coordinates. */
    function HitAt(s: Point): (r: Option<nat>)
      requires Valid()
      reads this, nodes
      ensures r.Some? ==> r.value < |nodes|
    {
      HitIndex(ViewsOf(nodes), ToWorld(transform, s), transform.k)
    }

    /** The state on mount: no nodes or edges, identity camera, nothing held. */
    constructor ()
      ensures Valid()
      ensures nodes == [] && links == [] && userLinks == [] && transform == Transform(0.0, 0.0, 1.0)
      ensures dragged == null && linkSource == null && hovered.None?
      ensures clickStart.None? && panStart.None? && tempLinkEnd.None?
      ensures !isDraggingNode && !isPanning && !isLinking
    {
      nodes, links, userLinks := [], [], [];
      transform := Transform(0.0, 0.0, 1.0);
      dragged, linkSource := null, null;
      clickStart, panStart, tempLinkEnd, hovered := None, None, None, None;
      isDraggingNode, isPanning, isLinking := false, false, false;
    }

    /**
     * The builder effect: one fresh node per source, placed by `MakeNode`
     * against the old nodes, then the inferred edges of every pair, then the
     * user-drawn edges. `jitter` holds the random offsets, one per source.
     */
    method Rebuild(notes: seq<Note>, tasks: seq<Task>, txs: seq<Transaction>,
                   width: nat, height: nat, jitter: seq<Jitter>)
      requires Valid()
      requires |jitter| == |notes| + |tasks| + |txs|
      modifies this
      ensures Valid()
      ensures ViewsOf(nodes) == BuildNodes(old(ViewsOf(nodes)), Sources(notes, tasks, txs),
                                           BuilderCentre(width, 800), BuilderCentre(height, 600), jitter)
      ensures forall i :: 0 <= i < |nodes| ==> fresh(nodes[i])
      ensures links == InferredLinks(InfosOf(nodes)) + userLinks
      ensures userLinks == old(userLinks) && transform == old(transform)
      ensures dragged == old(dragged) && linkSource == old(linkSource) && hovered == old(hovered)
      ensures clickStart == old(clickStart) && panStart == old(panStart) && tempLinkEnd == old(tempLinkEnd)
      ensures isDraggingNode == old(isDraggingNode) && isPanning == old(isPanning) && isLinking == old(isLinking)
    {
      var n := NewNodes(ViewsOf(nodes), Sources(notes, tasks, txs),
                        BuilderCentre(width, 800), BuilderCentre(height, 600), jitter);
      var l := InferEdges(n);
      nodes := n;
      links := l + userLinks;
    }

    /** `handleMouseDown`: a hit starts linking (shift) or dragging; a miss starts panning. */
    method MouseDown(sx: real, sy: real, shift: bool)
      requires Valid()
      modifies this
      ensures Valid()
      ensures nodes == old(nodes) && links == old(links) && userLinks == old(userLinks) && transform == old(transform)
      ensures clickStart == Some(Point(sx, sy)) && hovered == old(hovered)
      ensures var h := old(HitAt(Point(sx, sy)));
        (h.Some? && shift ==>
          linkSource == nodes[h.value] && tempLinkEnd == Some(ToWorld(transform, Point(sx, sy))) && isLinking &&
          dragged == old(dragged) && isDraggingNode == old(isDraggingNode) &&
          panStart == old(panStart) && isPanning == old(isPanning)) &&
        (h.Some? && !shift ==>
          dragged == nodes[h.value] && isDraggingNode &&
          linkSource == old(linkSource) && tempLinkEnd == old(tempLinkEnd) && isLinking == old(isLinking) &&
          panStart == old(panStart) && isPanning == old(isPanning)) &&
        (h.None? ==>
          isPanning && panStart == Some(Point(sx, sy)) &&
          dragged == old(dragged) && isDraggingNode == old(isDraggingNode) &&
          linkSource == old(linkSource) && tempLinkEnd == old(tempLinkEnd) && isLinking == old(isLinking))
      ensures old(dragged) == null && old(linkSource) == null ==> dragged == null || linkSource == null
    {
      var s := Point(sx, sy);
      var w := ToWorld(transform, s);
      var hit := HitAt(s);
      clickStart := Some(s);
      if hit.Some? {
        if shift {
          linkSource := nodes[hit.value];
          tempLinkEnd := Some(w);
          isLinking := true;
        } else {
          dragged := nodes[hit.value];
          isDraggingNode := true;
        }
      } else {
        isPanning := true;
        panStart := Some(s);
      }
    }

    /**
     * `handleMouseMove`: linking moves the preview end; otherwise dragging pins
     * the node to the pointer with zero velocity; otherwise panning moves the
     * camera by the pointer delta; otherwise the hover target is recomputed.
     */
    method MouseMove(sx: real, sy: real)
      requires Valid()
      modifies this, dragged
      ensures Valid()
      ensures nodes == old(nodes) && links == old(links) && userLinks == old(userLinks)
      ensures dragged == old(dragged) && linkSource == old(linkSource) && clickStart == old(clickStart)
      ensures isDraggingNode == old(isDraggingNode) && isPanning == old(isPanning) && isLinking == old(isLinking)
      ensures forall n :: n in nodes && n != dragged ==> n.View() == old(n.View())
      ensures var s := Point(sx, sy);
        var w := ToWorld(old(transform), s);
        (linkSource != null ==>
          tempLinkEnd == Some(w) && transform == old(transform) && panStart == old(panStart) &&
          hovered == old(hovered) && (dragged != null ==> dragged.View() == old(dragged.View()))) &&
        (linkSource == null && dragged != null ==>
          dragged.View() == old(dragged.View()).(x := w.x, y := w.y, vx := 0.0, vy := 0.0) &&
          tempLinkEnd == old(tempLinkEnd) && transform == old(transform) && panStart == old(panStart) &&
          hovered == old(hovered)) &&
        (linkSource == null && dragged == null && isPanning && old(panStart).Some? ==>
          transform == PanStep(old(transform), old(panStart).value, s) && panStart == Some(s) &&
          tempLinkEnd == old(tempLinkEnd) && hovered == old(hovered)) &&
        (linkSource == null && dragged == null && !(isPanning && old(panStart).Some?) ==>
          var h := old(HitAt(s));
          hovered == (if h.Some? then Some(nodes[h.value].id) else None) &&
          tempLinkEnd == old(tempLinkEnd) && transform == old(transform) && panStart == old(panStart))
    {
      var s := Point(sx, sy);
      var w := ToWorld(transform, s);
      if linkSource != null {
        tempLinkEnd := Some(w);
      } else if dragged != null {
        dragged.x := w.x;
        dragged.y := w.y;
        dragged.vx := 0.0;
        dragged.vy := 0.0;
      } else if isPanning && panStart.Some? {
        transform := PanStep(transform, panStart.value, s);
        panStart := Some(s);
      } else {
        var hit := HitAt(s);
        hovered := if hit.Some? then Some(nodes[hit.value].id) else None;
      }
    }

    /**
     * `handleMouseUp`: completes a link when one is being drawn, otherwise
     * reports a click on the held node when the pointer moved less than
     * 5 px and a callback is present; then releases everything held.
     * `clicked` is the node passed to the callback, or null.
     */
    method MouseUp(sx: real, sy: real, hasCallback: bool) returns (clicked: GraphNode?)
      requires Valid()
      modifies this
      ensures Valid()
      ensures nodes == old(nodes) && transform == old(transform) && hovered == old(hovered)
      ensures dragged == null && clickStart.None? && panStart.None? && !isDraggingNode && !isPanning
      ensures old(linkSource) != null ==>
        linkSource == null && tempLinkEnd.None? && !isLinking && clicked == null &&
        var h := old(HitAt(Point(sx, sy)));
        if h.Some? && nodes[h.value].id != old(linkSource).id then
          var nl := Link(old(linkSource).id, nodes[h.value].id, LinkStrength);
          links == old(links) + [nl] && userLinks == old(userLinks) + [nl]
        else
          links == old(links) && userLinks == old(userLinks)
      ensures old(linkSource) == null ==>
        linkSource == null && tempLinkEnd == old(tempLinkEnd) && isLinking == old(isLinking) &&
        links == old(links) && userLinks == old(userLinks)
      ensures clicked != null <==>
        old(linkSource) == null && old(dragged) != null && old(clickStart).Some? &&
        IsClick(old(clickStart).value, Point(sx, sy)) && hasCallback
      ensures clicked != null ==> clicked == old(dragged)
    {
      var s := Point(sx, sy);
      var start := clickStart;
      clicked := null;
      if linkSource != null {
        var hit := HitAt(s);
        if hit.Some? && nodes[hit.value].id != linkSource.id {
          var nl := Link(linkSource.id, nodes[hit.value].id, LinkStrength);
          links := links + [nl];
          userLinks := userLinks + [nl];
        }
        linkSource := null;
        tempLinkEnd := None;
        isLinking := false;
      } else if start.Some? && dragged != null {
        if IsClick(start.value, s) && hasCallback {
          clicked := dragged;
        }
      }
      dragged := null;
      clickStart := None;
      panStart := None;
      isDraggingNode := false;
      isPanning := false;
    }

    /** `handleMouseLeave`: drops the held node, the link in progress, the hover and all three flags. */
    method MouseLeave()
      requires Valid()
      modifies this
      ensures Valid()
      ensures nodes == old(nodes) && links == old(links) && userLinks == old(userLinks) && transform == old(transform)
      ensures dragged == null && linkSource == null && tempLinkEnd.None? && hovered.None?
      ensures !isDraggingNode && !isPanning && !isLinking
      ensures clickStart == old(clickStart) && panStart == old(panStart)
    {
      dragged := null;
      linkSource := null;
      tempLinkEnd := None;
      isDraggingNode, isPanning, isLinking := false, false, false;
      hovered := None;
    }

    /** `handleWheel`: zoom about the pointer. */
    method Wheel(deltaY: real, sx: real, sy: real)
      requires Valid()
      modifies this
      ensures Valid()
      ensures transform == Zoom(old(transform), deltaY, Point(sx, sy))
      ensures ToWorld(transform, Point(sx, sy)) == ToWorld(old(transform), Point(sx, sy))
      ensures nodes == old(nodes) && links == old(links) && userLinks == old(userLinks)
      ensures dragged == old(dragged) && linkSource == old(linkSource) && hovered == old(hovered)
      ensures clickStart == old(clickStart) && panStart == old(panStart) && tempLinkEnd == old(tempLinkEnd)
      ensures isDraggingNode == old(isDraggingNode) && isPanning == old(isPanning) && isLinking == old(isLinking)
    {
      transform := Zoom(transform, deltaY, Point(sx, sy));
    }

    /**
     * The repulsion and spring phase, with each node's total velocity change
     * given as `dv`: every node but the dragged one receives its change.
     */
    method ApplyForces(dv: seq<Point>)
      requires Valid() && |dv| == |nodes|
      modifies nodes
      ensures forall i :: 0 <= i < |nodes| ==>
        nodes[i].View() == (if nodes[i] == dragged then old(nodes[i].View()) else Accelerate(old(nodes[i].View()), dv[i]))
    {
      for i := 0 to |nodes|
        invariant forall m :: 0 <= m < i ==>
          nodes[m].View() == (if nodes[m] == dragged then old(nodes[m].View()) else Accelerate(old(nodes[m].View()), dv[m]))
        invariant forall m :: i <= m < |nodes| ==> nodes[m].View() == old(nodes[m].View())
      {
        var node := nodes[i];
        if node != dragged {
          node.vx := node.vx + dv[i].x;
          node.vy := node.vy + dv[i].y;
        }
      }
    }

    /**
     * Centre gravity and update for one frame on a canvas of the given size:
     * every node but the dragged one takes the `Integrate` step, the dragged
     * one keeps its position and velocity.
     */
    method Advance(width: nat, height: nat)
      requires Valid()
      modifies nodes
      ensures forall i :: 0 <= i < |nodes| ==>
        nodes[i].View() == (if nodes[i] == dragged then old(nodes[i].View())
                            else Integrate(old(nodes[i].View()), width as real / 2.0, height as real / 2.0))
    {
      var cx, cy := width as real / 2.0, height as real / 2.0;
      for i := 0 to |nodes|
        invariant forall m :: 0 <= m < i ==>
          nodes[m].View() == (if nodes[m] == dragged then old(nodes[m].View()) else Integrate(old(nodes[m].View()), cx, cy))
        invariant forall m :: i <= m < |nodes| ==> nodes[m].View() == old(nodes[m].View())
      {
        var node := nodes[i];
        if node != dragged {
          node.vx := node.vx + (cx - node.x) * CenterForce;
          node.vy := node.vy + (cy - node.y) * CenterForce;
          node.x := node.x + node.vx;
          node.y := node.y + node.vy;
          node.vx := node.vx * Damping;
          node.vy := node.vy * Damping;
        }
      }
    }
  }
}
