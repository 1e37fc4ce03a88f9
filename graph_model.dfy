/**
 * The value-level part of components/NeuralGraph.tsx: what the builder derives
 * from the notes, tasks and transactions, the inferred edges, the camera's
 * affine map and wheel zoom, the hit test, and the centering/integration
 * step of one node. Coordinates are exact reals.
 */
module GraphModel {
  import opened Records
  import opened Text

  /** `GraphNode['type']`. */
  datatype NodeKind = NoteNode | TaskNode | FinanceNode

  /** A built node's fields that never change after it is built (`caption` is the source's `label`, a Dafny keyword). */
  datatype NodeInfo = NodeInfo(id: string, kind: NodeKind, caption: string, group: string)

  /** A snapshot of one `GraphNode`. */
  datatype NodeState = NodeState(
    id: string,
    x: real,
    y: real,
    vx: real,
    vy: real,
    kind: NodeKind,
    caption: string,
    group: string,
    radius: real)

  datatype Link = Link(source: string, target: string, strength: real)

  datatype Point = Point(x: real, y: real)

  /** The camera: `screen = world * k + (x, y)`. */
  datatype Transform = Transform(x: real, y: real, k: real)

  /** One `addNode` call: the node's id, label, type and raw category. */
  datatype Source = Source(id: string, caption: string, kind: NodeKind, category: string)

  /**
   * The four values `Math.random() - 0.5` that place a brand-new node:
   * offsets of its position (times 50) and velocity (times 2).
   */
  datatype Jitter = Jitter(dx: real, dy: real, dvx: real, dvy: real)

  /** Strength of an edge between related groups. */
  const GroupStrength: real := 0.05
  /** Strength of a note-to-task word edge, and of a user-drawn edge. */
  const LinkStrength: real := 0.1
  /** Pull towards the canvas centre per tick. */
  const CenterForce: real := 0.008
  /** Velocity kept per tick. */
  const Damping: real := 0.92
  /** Zoom limits. */
  const MinScale: real := 0.1
  const MaxScale: real := 5.0

  function Radius(kind: NodeKind): real {
    match kind
    case NoteNode => 8.0
    case TaskNode => 6.0
    case FinanceNode => 5.0
  }

  /** The node centre the builder uses: half the container size, or of 800/600 when it reads 0. */
  function BuilderCentre(size: nat, fallback: nat): real {
    (if size == 0 then fallback else size) as real / 2.0
  }

  /**
   * The three `forEach(addNode)` calls: one source per note, then per task,
   * then per transaction, with ids `n-`, `t-` and `f-` followed by the record id.
   */
  function Sources(notes: seq<Note>, tasks: seq<Task>, txs: seq<Transaction>): (r: seq<Source>)
    ensures |r| == |notes| + |tasks| + |txs|
    ensures forall i :: 0 <= i < |notes| ==>
      r[i] == Source("n-" + notes[i].id, notes[i].content, NoteNode, notes[i].category)
    ensures forall i :: 0 <= i < |tasks| ==>
      r[|notes| + i] == Source("t-" + tasks[i].id, tasks[i].title, TaskNode, CategoryName(tasks[i].category))
    ensures forall i :: 0 <= i < |txs| ==>
      r[|notes| + |tasks| + i] == Source("f-" + txs[i].id, txs[i].title, FinanceNode, txs[i].category)
  {
    seq(|notes|, i requires 0 <= i < |notes| => Source("n-" + notes[i].id, notes[i].content, NoteNode, notes[i].category)) +
    seq(|tasks|, i requires 0 <= i < |tasks| => Source("t-" + tasks[i].id, tasks[i].title, TaskNode, CategoryName(tasks[i].category))) +
    seq(|txs|, i requires 0 <= i < |txs| => Source("f-" + txs[i].id, txs[i].title, FinanceNode, txs[i].category))
  }

  /** No two notes share an id; likewise for tasks and transactions below. */
  predicate NoteIdsDistinct(notes: seq<Note>) {
    forall i, j :: 0 <= i < j < |notes| ==> notes[i].id != notes[j].id
  }

  predicate TaskIdsDistinct(tasks: seq<Task>) {
    forall i, j :: 0 <= i < j < |tasks| ==> tasks[i].id != tasks[j].id
  }

  predicate TxIdsDistinct(txs: seq<Transaction>) {
    forall i, j :: 0 <= i < j < |txs| ==> txs[i].id != txs[j].id
  }

  /** Node ids are unique: distinct record ids in each collection give distinct node ids. */
  lemma SourceIdsDistinct(notes: seq<Note>, tasks: seq<Task>, txs: seq<Transaction>)
    requires NoteIdsDistinct(notes) && TaskIdsDistinct(tasks) && TxIdsDistinct(txs)
    ensures var r := Sources(notes, tasks, txs);
      forall i, j :: 0 <= i < j < |r| ==> r[i].id != r[j].id
  {
    var r := Sources(notes, tasks, txs);
    forall i, j | 0 <= i < j < |r| ensures r[i].id != r[j].id {
      SourceIdsDiffer(notes, tasks, txs, i, j);
    }
  }

  lemma SourceIdsDiffer(notes: seq<Note>, tasks: seq<Task>, txs: seq<Transaction>, i: nat, j: nat)
    requires NoteIdsDistinct(notes) && TaskIdsDistinct(tasks) && TxIdsDistinct(txs)
    requires i < j < |notes| + |tasks| + |txs|
    ensures Sources(notes, tasks, txs)[i].id != Sources(notes, tasks, txs)[j].id
  {
    var p, a := Tagged(notes, tasks, txs, i);
    var q, b := Tagged(notes, tasks, txs, j);
    assert (p + a)[..2] == p && (p + a)[2..] == a;
    assert (q + b)[..2] == q && (q + b)[2..] == b;
  }

  /** The two-character prefix and the record id that make up the i-th source's id. */
  lemma Tagged(notes: seq<Note>, tasks: seq<Task>, txs: seq<Transaction>, i: nat) returns (p: string, a: string)
    requires i < |notes| + |tasks| + |txs|
    ensures |p| == 2 && Sources(notes, tasks, txs)[i].id == p + a
    ensures i < |notes| ==> p[0] == 'n' && a == notes[i].id
    ensures |notes| <= i < |notes| + |tasks| ==> p[0] == 't' && a == tasks[i - |notes|].id
    ensures |notes| + |tasks| <= i ==> p[0] == 'f' && a == txs[i - |notes| - |tasks|].id
  {
    if i < |notes| {
      p, a := "n-", notes[i].id;
    } else if i < |notes| + |tasks| {
      p, a := "t-", tasks[i - |notes|].id;
    } else {
      p, a := "f-", txs[i - |notes| - |tasks|].id;
    }
  }

  /** The index of the first node from `i` on whose id is `id`. */
  function FirstWithId(nodes: seq<NodeState>, id: string, i: nat): (r: Option<nat>)
    requires i <= |nodes|
    ensures r.Some? ==> (i <= r.value < |nodes| && nodes[r.value].id == id &&
                         forall j :: i <= j < r.value ==> nodes[j].id != id)
    ensures r.None? ==> forall j :: i <= j < |nodes| ==> nodes[j].id != id
    decreases |nodes| - i
  {
    if i == |nodes| then None
    else if nodes[i].id == id then Some(i)
    else FirstWithId(nodes, id, i + 1)
  }

  /** `nodesRef.current.find(node => node.id === id)`: the first node with the id, if any. */
  function FindById(nodes: seq<NodeState>, id: string): (r: Option<NodeState>)
    ensures r.None? <==> forall i :: 0 <= i < |nodes| ==> nodes[i].id != id
    ensures r.Some? ==> r.value.id == id
    ensures forall i :: (0 <= i < |nodes| && nodes[i].id == id &&
                         forall j :: 0 <= j < i ==> nodes[j].id != id) ==> r == Some(nodes[i])
  {
    var k := FirstWithId(nodes, id, 0);
    if k.Some? then Some(nodes[k.value]) else None
  }

  /** The values `Math.random() - 0.5` take: `[-0.5, 0.5)`. */
  predicate JitterInRange(j: Jitter) {
    -0.5 <= j.dx < 0.5 && -0.5 <= j.dy < 0.5 && -0.5 <= j.dvx < 0.5 && -0.5 <= j.dvy < 0.5
  }

  /** The fields `addNode` fixes from its arguments. */
  function InfoOf(s: Source): NodeInfo {
    NodeInfo(s.id, s.kind, s.caption, Lower(s.category))
  }

  /**
   * `addNode`: a node with the source's id, label and type, the lower-cased
   * category as group and the type's radius; position and velocity come from
   * the first old node with the same id, or else are scattered around the centre.
   */
  function MakeNode(prev: seq<NodeState>, src: Source, cx: real, cy: real, j: Jitter): (r: NodeState)
    ensures r.id == src.id && r.caption == src.caption && r.kind == src.kind
    ensures r.group == Lower(src.category) && r.radius == Radius(src.kind)
    ensures FindById(prev, src.id).Some? ==>
      var e := FindById(prev, src.id).value;
      r.x == e.x && r.y == e.y && r.vx == e.vx && r.vy == e.vy
    ensures FindById(prev, src.id).None? && JitterInRange(j) ==>
      cx - 25.0 <= r.x < cx + 25.0 && cy - 25.0 <= r.y < cy + 25.0 &&
      -1.0 <= r.vx < 1.0 && -1.0 <= r.vy < 1.0
  {
    var info := InfoOf(src);
    match FindById(prev, src.id)
    case Some(e) => NodeState(info.id, e.x, e.y, e.vx, e.vy, info.kind, info.caption, info.group, Radius(info.kind))
    case None => NodeState(info.id, cx + j.dx * 50.0, cy + j.dy * 50.0, j.dvx * 2.0, j.dvy * 2.0,
                           info.kind, info.caption, info.group, Radius(info.kind))
  }

  /** The node list the builder produces, one node per source, in order. */
  function BuildNodes(prev: seq<NodeState>, srcs: seq<Source>, cx: real, cy: real, jitter: seq<Jitter>): (r: seq<NodeState>)
    requires |jitter| == |srcs|
    ensures |r| == |srcs|
  {
    seq(|srcs|, i requires 0 <= i < |srcs| => MakeNode(prev, srcs[i], cx, cy, jitter[i]))
  }

  /**
   * Rebuild stability: a node whose id was already present keeps the old
   * node's position and velocity; its label, type and group are the new ones.
   */
  lemma RebuildKeepsMotion(prev: seq<NodeState>, srcs: seq<Source>, cx: real, cy: real, jitter: seq<Jitter>, i: nat, k: nat)
    requires |jitter| == |srcs| && i < |srcs| && k < |prev|
    requires prev[k].id == srcs[i].id
    requires forall m :: 0 <= m < k ==> prev[m].id != srcs[i].id
    ensures var n := BuildNodes(prev, srcs, cx, cy, jitter)[i];
      n.x == prev[k].x && n.y == prev[k].y && n.vx == prev[k].vx && n.vy == prev[k].vy &&
      n.caption == srcs[i].caption && n.kind == srcs[i].kind && n.group == Lower(srcs[i].category)
  {
  }

  // ----- inferred edges -----

  /** `a === b || a.includes(b) || b.includes(a)`. */
  predicate GroupsRelated(a: string, b: string) {
    a == b || Contains(a, b) || Contains(b, a)
  }

  /** The equality test is subsumed by `includes`; an empty group relates to every group. */
  lemma GroupsRelatedIsContainment(a: string, b: string)
    ensures GroupsRelated(a, b) <==> Contains(a, b) || Contains(b, a)
    ensures GroupsRelated(a, "") && GroupsRelated("", b)
  {
    ContainsTrivial(a);
    ContainsTrivial(b);
  }

  /** A note whose label contains the first word of a task's label. */
  predicate WordLinked(a: NodeInfo, b: NodeInfo) {
    a.kind == NoteNode && b.kind == TaskNode && Contains(a.caption, FirstWord(b.caption))
  }

  /** A task label that is empty or starts with a space links to every note. */
  lemma EmptyFirstWordLinks(a: NodeInfo, b: NodeInfo)
    requires a.kind == NoteNode && b.kind == TaskNode
    requires b.caption == [] || b.caption[0] == ' '
    ensures WordLinked(a, b)
  {
    ContainsTrivial(a.caption);
  }

  /** The body of the inner `for`: up to two edges for the pair (a, b). */
  function PairLinks(a: NodeInfo, b: NodeInfo): seq<Link> {
    (if GroupsRelated(a.group, b.group) then [Link(a.id, b.id, GroupStrength)] else []) +
    (if WordLinked(a, b) then [Link(a.id, b.id, LinkStrength)] else [])
  }

  /** A pair emits a 0.05 edge iff its groups relate, and a 0.1 edge iff it is a word match. */
  lemma PairLinksMembership(a: NodeInfo, b: NodeInfo, l: Link)
    ensures l in PairLinks(a, b) <==>
      l.source == a.id && l.target == b.id &&
      ((l.strength == 0.05 && GroupsRelated(a.group, b.group)) || (l.strength == 0.1 && WordLinked(a, b)))
  {
  }

  /** The edges of the pairs (i, i+1), ..., (i, j-1). */
  function RowLinks(ns: seq<NodeInfo>, i: nat, j: nat): seq<Link>
    requires i < |ns| && j <= |ns|
    decreases j
  {
    if j <= i + 1 then [] else RowLinks(ns, i, j - 1) + PairLinks(ns[i], ns[j - 1])
  }

  /** The edges of all pairs whose first index is below `i`. */
  function RowsLinks(ns: seq<NodeInfo>, i: nat): seq<Link>
    requires i <= |ns|
  {
    if i == 0 then [] else RowsLinks(ns, i - 1) + RowLinks(ns, i - 1, |ns|)
  }

  /** The automatic connections, in the order the nested loops emit them. */
  function InferredLinks(ns: seq<NodeInfo>): seq<Link> {
    RowsLinks(ns, |ns|)
  }

  /** The edge `l` is emitted for the pair (i, j). */
  predicate PairEmits(ns: seq<NodeInfo>, i: int, j: int, l: Link) {
    0 <= i < j < |ns| && l in PairLinks(ns[i], ns[j])
  }

  lemma {:induction false} RowLinksMembership(ns: seq<NodeInfo>, i: nat, j: nat, l: Link)
    requires i < |ns| && j <= |ns|
    ensures l in RowLinks(ns, i, j) <==> EmittedInRow(ns, i, j, l)
    decreases j
  {
    if j > i + 1 {
      RowLinksMembership(ns, i, j - 1, l);
      assert PairEmits(ns, i, j - 1, l) <==> l in PairLinks(ns[i], ns[j - 1]);
      if EmittedInRow(ns, i, j, l) {
        var b :| i < b < j && PairEmits(ns, i, b, l);
        if b < j - 1 {
          assert EmittedInRow(ns, i, j - 1, l);
        }
      }
      if PairEmits(ns, i, j - 1, l) {
        assert EmittedInRow(ns, i, j, l);
      }
    }
  }

  /** Some pair whose first index is below `i` emits `l`. */
  ghost predicate EmittedBelow(ns: seq<NodeInfo>, i: int, l: Link) {
    exists a, b :: a < i && PairEmits(ns, a, b, l)
  }

  /** The pair (i, b) emits `l` for some b below j. */
  ghost predicate EmittedInRow(ns: seq<NodeInfo>, i: int, j: int, l: Link) {
    exists b :: i < b < j && PairEmits(ns, i, b, l)
  }

  lemma {:induction false} RowsLinksMembership(ns: seq<NodeInfo>, i: nat, l: Link)
    requires i <= |ns|
    ensures l in RowsLinks(ns, i) <==> EmittedBelow(ns, i, l)
  {
    if i > 0 {
      RowsLinksMembership(ns, i - 1, l);
      RowLinksMembership(ns, i - 1, |ns|, l);
      var below, row := RowsLinks(ns, i - 1), RowLinks(ns, i - 1, |ns|);
      assert RowsLinks(ns, i) == below + row;
      assert (l in below + row) == (l in below || l in row);
      EmittedBelowSplit(ns, i, l);
    }
  }

  lemma EmittedBelowSplit(ns: seq<NodeInfo>, i: int, l: Link)
    ensures EmittedBelow(ns, i, l) <==> EmittedBelow(ns, i - 1, l) || EmittedInRow(ns, i - 1, |ns|, l)
  {
    if EmittedBelow(ns, i, l) {
      var a, b :| a < i && PairEmits(ns, a, b, l);
      if a < i - 1 {
        assert EmittedBelow(ns, i - 1, l);
      } else {
        assert EmittedInRow(ns, i - 1, |ns|, l);
      }
    }
    if EmittedInRow(ns, i - 1, |ns|, l) {
      var b :| i - 1 < b < |ns| && PairEmits(ns, i - 1, b, l);
      assert i - 1 < i && PairEmits(ns, i - 1, b, l);
      assert EmittedBelow(ns, i, l);
    }
  }

  /**
   * An inferred edge is exactly a group edge (0.05) or a word edge (0.1) of
   * some pair i < j, directed from the earlier node to the later one.
   */
  lemma InferredMembership(ns: seq<NodeInfo>, l: Link)
    ensures l in InferredLinks(ns) <==>
      exists i, j :: (0 <= i < j < |ns| &&
                      l.source == ns[i].id && l.target == ns[j].id &&
                      ((l.strength == 0.05 && GroupsRelated(ns[i].group, ns[j].group)) ||
                       (l.strength == 0.1 && WordLinked(ns[i], ns[j]))))
  {
    RowsLinksMembership(ns, |ns|, l);
    if EmittedBelow(ns, |ns|, l) {
      var a, b :| a < |ns| && PairEmits(ns, a, b, l);
      PairLinksMembership(ns[a], ns[b], l);
    }
    if exists i, j :: (0 <= i < j < |ns| &&
                       l.source == ns[i].id && l.target == ns[j].id &&
                       ((l.strength == 0.05 && GroupsRelated(ns[i].group, ns[j].group)) ||
                        (l.strength == 0.1 && WordLinked(ns[i], ns[j]))))
    {
      var i, j :| 0 <= i < j < |ns| &&
                  l.source == ns[i].id && l.target == ns[j].id &&
                  ((l.strength == 0.05 && GroupsRelated(ns[i].group, ns[j].group)) ||
                   (l.strength == 0.1 && WordLinked(ns[i], ns[j])));
      PairLinksMembership(ns[i], ns[j], l);
      assert PairEmits(ns, i, j, l);
    }
  }

  /** With distinct ids, each pair i < j has a 0.05 edge iff its groups relate and a 0.1 edge iff it is a note–task word match. */
  lemma InferredPairIff(ns: seq<NodeInfo>, i: nat, j: nat)
    requires i < j < |ns|
    requires forall a, b :: 0 <= a < b < |ns| ==> ns[a].id != ns[b].id
    ensures Link(ns[i].id, ns[j].id, 0.05) in InferredLinks(ns) <==> GroupsRelated(ns[i].group, ns[j].group)
    ensures Link(ns[i].id, ns[j].id, 0.1) in InferredLinks(ns) <==> WordLinked(ns[i], ns[j])
  {
    InferredMembership(ns, Link(ns[i].id, ns[j].id, 0.05));
    InferredMembership(ns, Link(ns[i].id, ns[j].id, 0.1));
  }

  /** Edge endpoint integrity: both ends of every inferred edge are node ids. */
  lemma InferredEndpointsExist(ns: seq<NodeInfo>, l: Link)
    requires l in InferredLinks(ns)
    ensures exists i :: 0 <= i < |ns| && ns[i].id == l.source
    ensures exists j :: 0 <= j < |ns| && ns[j].id == l.target
  {
    InferredMembership(ns, l);
  }

  // ----- camera -----

  /** `toWorldPos`: `world = (screen - pan) / k`. */
  function ToWorld(t: Transform, s: Point): Point
    requires t.k != 0.0
  {
    Point((s.x - t.x) / t.k, (s.y - t.y) / t.k)
  }

  /** The tooltip's position: `screen = world * k + pan`. */
  function ToScreen(t: Transform, w: Point): Point {
    Point(w.x * t.k + t.x, w.y * t.k + t.y)
  }

  /** The two maps are inverse to each other whenever the scale is non-zero. */
  lemma WorldScreenRoundTrip(t: Transform, w: Point, s: Point)
    requires t.k != 0.0
    ensures ToWorld(t, ToScreen(t, w)) == w
    ensures ToScreen(t, ToWorld(t, s)) == s
  {
    assert (w.x * t.k + t.x - t.x) / t.k == w.x;
    assert (w.y * t.k + t.y - t.y) / t.k == w.y;
  }

  /** `Math.max(lo, Math.min(v, hi))`. */
  function Clamp(v: real, lo: real, hi: real): real {
    var m := if v < hi then v else hi;
    if lo > m then lo else m
  }

  /** `1 + direction * 0.1`, zooming out when the wheel moves down. */
  function ZoomFactor(deltaY: real): real {
    if deltaY > 0.0 then 0.9 else 1.1
  }

  lemma ScaleDivision(d: real, k: real, nk: real)
    requires k > 0.0 && nk > 0.0
    ensures (d * (nk / k)) / nk == d / k
  {
    assert d * (nk / k) == (d / k) * nk;
  }

  /**
   * `handleWheel`: the scale is multiplied by the factor and clamped to
   * [0.1, 5]; the pan is moved so that the world point under the pointer stays there.
   */
  function Zoom(t: Transform, deltaY: real, p: Point): (r: Transform)
    requires t.k > 0.0
    ensures MinScale <= r.k <= MaxScale
    ensures r.k == Clamp(t.k * ZoomFactor(deltaY), MinScale, MaxScale)
    ensures ToWorld(r, p) == ToWorld(t, p)
  {
    var nk := Clamp(t.k * ZoomFactor(deltaY), MinScale, MaxScale);
    var r := Transform(p.x - (p.x - t.x) * (nk / t.k), p.y - (p.y - t.y) * (nk / t.k), nk);
    ScaleDivision(p.x - t.x, t.k, nk);
    ScaleDivision(p.y - t.y, t.k, nk);
    assert p.x - r.x == (p.x - t.x) * (nk / t.k);
    assert p.y - r.y == (p.y - t.y) * (nk / t.k);
    r
  }

  /** At a bound, zooming further in that direction changes nothing. */
  lemma ZoomIdempotentAtBounds(t: Transform, deltaY: real, p: Point)
    requires (t.k == MaxScale && deltaY <= 0.0) || (t.k == MinScale && deltaY > 0.0)
    ensures Zoom(t, deltaY, p) == t
  {
    var r := Zoom(t, deltaY, p);
    assert r.k == t.k;
    ScaleDivision(p.x - t.x, t.k, t.k);
    assert p.x - (p.x - t.x) * (t.k / t.k) == t.x;
    assert p.y - (p.y - t.y) * (t.k / t.k) == t.y;
  }

  /** `n` wheel events with the same delta at the same pointer. */
  function ZoomTimes(t: Transform, deltaY: real, p: Point, n: nat): (r: Transform)
    requires t.k > 0.0
    ensures r.k > 0.0
    ensures MinScale <= t.k <= MaxScale ==> MinScale <= r.k <= MaxScale
    decreases n
  {
    if n == 0 then t else ZoomTimes(Zoom(t, deltaY, p), deltaY, p, n - 1)
  }

  function Min(a: real, b: real): real { if a < b then a else b }
  function Max(a: real, b: real): real { if a < b then b else a }

  lemma {:induction false} ZoomInGrows(t: Transform, deltaY: real, p: Point, n: nat)
    requires MinScale <= t.k <= MaxScale && deltaY <= 0.0
    ensures ZoomTimes(t, deltaY, p, n).k >= Min(MaxScale, t.k + n as real / 100.0)
    decreases n
  {
    if n > 0 {
      var z := Zoom(t, deltaY, p);
      assert z.k >= Min(MaxScale, t.k + 0.01);
      ZoomInGrows(z, deltaY, p, n - 1);
    }
  }

  lemma {:induction false} ZoomOutShrinks(t: Transform, deltaY: real, p: Point, n: nat)
    requires MinScale <= t.k <= MaxScale && deltaY > 0.0
    ensures ZoomTimes(t, deltaY, p, n).k <= Max(MinScale, t.k - n as real / 100.0)
    decreases n
  {
    if n > 0 {
      var z := Zoom(t, deltaY, p);
      assert z.k <= Max(MinScale, t.k - 0.01);
      ZoomOutShrinks(z, deltaY, p, n - 1);
    }
  }

  /** Zoom bounds: 490 wheel-ups from any valid scale reach exactly 5, and 490 wheel-downs exactly 0.1. */
  lemma ZoomConvergesToBounds(t: Transform, up: real, down: real, p: Point, n: nat)
    requires MinScale <= t.k <= MaxScale && up <= 0.0 && down > 0.0 && n >= 490
    ensures ZoomTimes(t, up, p, n).k == MaxScale
    ensures ZoomTimes(t, down, p, n).k == MinScale
  {
    ZoomInGrows(t, up, p, n);
    ZoomOutShrinks(t, down, p, n);
  }

  /** One pan move: the pan grows by the pointer's movement since `start`. */
  function PanStep(t: Transform, start: Point, s: Point): Transform {
    Transform(t.x + (s.x - start.x), t.y + (s.y - start.y), t.k)
  }

  /** The pan after a run of moves, each measured from the previous pointer position. */
  function PanPath(t: Transform, start: Point, moves: seq<Point>): Transform
    decreases |moves|
  {
    if moves == [] then t else PanPath(PanStep(t, start, moves[0]), moves[0], moves[1..])
  }

  /** Incremental deltas add up: the pan moves by the last pointer position minus the press position. */
  lemma {:induction false} PanPathTelescopes(t: Transform, start: Point, moves: seq<Point>)
    requires moves != []
    ensures PanPath(t, start, moves) ==
      Transform(t.x + (moves[|moves| - 1].x - start.x), t.y + (moves[|moves| - 1].y - start.y), t.k)
    decreases |moves|
  {
    if |moves| > 1 {
      PanPathTelescopes(PanStep(t, start, moves[0]), moves[0], moves[1..]);
    }
  }

  /** `distMoved < 5`, compared on squares. */
  predicate IsClick(start: Point, s: Point) {
    (s.x - start.x) * (s.x - start.x) + (s.y - start.y) * (s.y - start.y) < 25.0
  }

  // ----- hit test -----

  /** `Math.max(20, 20 / k)`. */
  function HitRadius(k: real): real
    requires k > 0.0
  {
    Max(20.0, 20.0 / k)
  }

  /** `dist < Math.max(20, 20 / k)`, compared on squares (both sides are non-negative). */
  predicate Near(n: NodeState, w: Point, k: real)
    requires k > 0.0
  {
    (n.x - w.x) * (n.x - w.x) + (n.y - w.y) * (n.y - w.y) < HitRadius(k) * HitRadius(k)
  }

  function HitFrom(nodes: seq<NodeState>, w: Point, k: real, i: nat): (r: Option<nat>)
    requires k > 0.0 && i <= |nodes|
    ensures r.Some? ==> (i <= r.value < |nodes| && Near(nodes[r.value], w, k) &&
                         forall j :: i <= j < r.value ==> !Near(nodes[j], w, k))
    ensures r.None? ==> forall j :: i <= j < |nodes| ==> !Near(nodes[j], w, k)
    decreases |nodes| - i
  {
    if i == |nodes| then None
    else if Near(nodes[i], w, k) then Some(i)
    else HitFrom(nodes, w, k, i + 1)
  }

  /** `nodes.find(...)` with the hit test: the index of the first node near `w`. */
  function HitIndex(nodes: seq<NodeState>, w: Point, k: real): (r: Option<nat>)
    requires k > 0.0
    ensures r.Some? ==> (r.value < |nodes| && Near(nodes[r.value], w, k) &&
                         forall j :: 0 <= j < r.value ==> !Near(nodes[j], w, k))
    ensures r.None? ==> forall j :: 0 <= j < |nodes| ==> !Near(nodes[j], w, k)
  {
    HitFrom(nodes, w, k, 0)
  }

  // ----- integration -----

  /** A node plus a velocity change (the abstract repulsion and spring contributions). */
  function Accelerate(n: NodeState, dv: Point): NodeState {
    n.(vx := n.vx + dv.x, vy := n.vy + dv.y)
  }

  /** Centering, then `p += v`, then `v *= 0.92`. */
  function Integrate(n: NodeState, cx: real, cy: real): (r: NodeState)
    ensures r.id == n.id && r.kind == n.kind && r.caption == n.caption && r.group == n.group && r.radius == n.radius
  {
    var vx := n.vx + (cx - n.x) * CenterForce;
    var vy := n.vy + (cy - n.y) * CenterForce;
    n.(x := n.x + vx, y := n.y + vy, vx := vx * Damping, vy := vy * Damping)
  }

  /** A node at rest on the centre stays there. */
  lemma RestAtCentreIsFixed(n: NodeState, cx: real, cy: real)
    requires n.x == cx && n.y == cy && n.vx == 0.0 && n.vy == 0.0
    ensures Integrate(n, cx, cy) == n
  {
  }

  /** The step depends only on the node's offset from the centre: moving both by d moves the result by d. */
  lemma IntegrateTranslates(n: NodeState, cx: real, cy: real, d: Point)
    ensures Integrate(n.(x := n.x + d.x, y := n.y + d.y), cx + d.x, cy + d.y) ==
      var r := Integrate(n, cx, cy); r.(x := r.x + d.x, y := r.y + d.y)
  {
  }
}
