/**
 Import graphs: directed reachability and strongly connected components on one side,
 undirected connectivity on the other, and why they agree on the edges that close cycles.
 */
module ImportGraph {
  /** A module, named by its path. */
  datatype Node = Node(path: string)

  datatype Edge = Edge(source: Node, target: Node)

  type Graph = set<Edge>

  function Last(p: seq<Node>): Node
    requires p != []
  {
    p[|p| - 1]
  }

  // ----- directed paths -----

  predicate Walk(g: Graph, p: seq<Node>) {
    p != [] && forall i :: 0 <= i < |p| - 1 ==> Edge(p[i], p[i + 1]) in g
  }

  ghost predicate Reaches(g: Graph, u: Node, v: Node) {
    exists p :: Walk(g, p) && p[0] == u && Last(p) == v
  }

  ghost predicate SameComponent(g: Graph, u: Node, v: Node) {
    Reaches(g, u, v) && Reaches(g, v, u)
  }

  lemma ReachesSelf(g: Graph, u: Node)
    ensures Reaches(g, u, u)
  {
    assert Walk(g, [u]);
  }

  lemma EdgeReaches(g: Graph, e: Edge)
    requires e in g
    ensures Reaches(g, e.source, e.target)
  {
    assert Walk(g, [e.source, e.target]);
  }

  lemma ReachesThrough(g: Graph, u: Node, v: Node, w: Node)
    requires Reaches(g, u, v) && Reaches(g, v, w)
    ensures Reaches(g, u, w)
  {
    var p :| Walk(g, p) && p[0] == u && Last(p) == v;
    var q :| Walk(g, q) && q[0] == v && Last(q) == w;
    assert Walk(g, p + q[1..]);
  }

  lemma SameComponentThrough(g: Graph, u: Node, v: Node, w: Node)
    requires SameComponent(g, u, v) && SameComponent(g, v, w)
    ensures SameComponent(g, u, w)
  {
    ReachesThrough(g, u, v, w);
    ReachesThrough(g, w, v, u);
  }

  lemma WalkPieces(g: Graph, p: seq<Node>, i: nat)
    requires Walk(g, p) && i < |p|
    ensures Reaches(g, p[0], p[i]) && Reaches(g, p[i], Last(p))
  {
    assert Walk(g, p[..i + 1]) && Walk(g, p[i..]);
  }

  /** The edges whose ends share a strongly connected component: the imports that close a cycle. */
  ghost function CycleEdges(g: Graph): Graph {
    set e | e in g && SameComponent(g, e.source, e.target)
  }

  /** A directed cycle, as the closed walk it is. */
  predicate Cycle(g: Graph, p: seq<Node>) {
    Walk(g, p) && |p| >= 2 && p[0] == Last(p)
  }

  predicate Uses(p: seq<Node>, e: Edge) {
    exists i :: 0 <= i < |p| - 1 && p[i] == e.source && p[i + 1] == e.target
  }

  /** An edge shares a component with itself exactly when some directed cycle runs through it. */
  lemma CycleEdgesAreExact(g: Graph, e: Edge)
    ensures e in CycleEdges(g) <==> exists p :: Cycle(g, p) && Uses(p, e)
  {
    if e in CycleEdges(g) {
      var q :| Walk(g, q) && q[0] == e.target && Last(q) == e.source;
      var p := [e.source] + q;
      assert p[0] == e.source && p[1] == e.target;
      assert Cycle(g, p) && Uses(p, e);
    }
    if exists p :: Cycle(g, p) && Uses(p, e) {
      var p :| Cycle(g, p) && Uses(p, e);
      var i :| 0 <= i < |p| - 1 && p[i] == e.source && p[i + 1] == e.target;
      EdgeReaches(g, e);
      WalkPieces(g, p, i);
      WalkPieces(g, p, i + 1);
      ReachesThrough(g, e.target, p[0], e.source);
    }
  }

  // ----- undirected links -----

  predicate Adjacent(g: Graph, u: Node, v: Node) {
    Edge(u, v) in g || Edge(v, u) in g
  }

  predicate Trail(g: Graph, p: seq<Node>) {
    p != [] && forall i :: 0 <= i < |p| - 1 ==> Adjacent(g, p[i], p[i + 1])
  }

  ghost predicate Linked(g: Graph, u: Node, v: Node) {
    exists p :: Trail(g, p) && p[0] == u && Last(p) == v
  }

  lemma TrailTail(g: Graph, p: seq<Node>)
    requires Trail(g, p) && |p| > 1
    ensures Trail(g, p[1..])
  {
    forall i | 0 <= i < |p[1..]| - 1
      ensures Adjacent(g, p[1..][i], p[1..][i + 1])
    {
      assert Adjacent(g, p[i + 1], p[i + 1 + 1]);
    }
  }

  lemma LinkedSelf(g: Graph, u: Node)
    ensures Linked(g, u, u)
  {
    assert Trail(g, [u]);
  }

  lemma AdjacentLinked(g: Graph, u: Node, v: Node)
    requires Adjacent(g, u, v)
    ensures Linked(g, u, v)
  {
    assert Trail(g, [u, v]);
  }

  lemma LinkedThrough(g: Graph, u: Node, v: Node, w: Node)
    requires Linked(g, u, v) && Linked(g, v, w)
    ensures Linked(g, u, w)
  {
    var p :| Trail(g, p) && p[0] == u && Last(p) == v;
    var q :| Trail(g, q) && q[0] == v && Last(q) == w;
    assert Trail(g, p + q[1..]);
  }

  lemma LinkedBack(g: Graph, u: Node, v: Node)
    requires Linked(g, u, v)
    ensures Linked(g, v, u)
  {
    var p :| Trail(g, p) && p[0] == u && Last(p) == v;
    var q := seq(|p|, i requires 0 <= i < |p| => p[|p| - 1 - i]);
    forall i | 0 <= i < |q| - 1
      ensures Adjacent(g, q[i], q[i + 1])
    {
      assert Adjacent(g, p[|p| - 2 - i], p[|p| - 2 - i + 1]);
    }
    assert Trail(g, q);
  }

  lemma LinkedGrows(g: Graph, h: Graph, u: Node, v: Node)
    requires g <= h && Linked(g, u, v)
    ensures Linked(h, u, v)
  {
    var p :| Trail(g, p) && p[0] == u && Last(p) == v;
    assert Trail(h, p);
  }

  function Endpoints(g: Graph): set<Node> {
    (set e | e in g :: e.source) + (set e | e in g :: e.target)
  }

  lemma {:induction false} TrailStaysInComponent(g: Graph, p: seq<Node>)
    requires Trail(CycleEdges(g), p)
    ensures SameComponent(g, p[0], Last(p))
    decreases |p|
  {
    if |p| == 1 {
      ReachesSelf(g, p[0]);
    } else {
      assert Adjacent(CycleEdges(g), p[0], p[1]);
      TrailTail(CycleEdges(g), p);
      TrailStaysInComponent(g, p[1..]);
      SameComponentThrough(g, p[0], p[1], Last(p));
    }
  }

  lemma WalkInsideComponent(g: Graph, p: seq<Node>)
    requires Walk(g, p) && Reaches(g, Last(p), p[0])
    ensures Trail(CycleEdges(g), p)
  {
    forall i | 0 <= i < |p| - 1
      ensures Adjacent(CycleEdges(g), p[i], p[i + 1])
    {
      EdgeReaches(g, Edge(p[i], p[i + 1]));
      WalkPieces(g, p, i);
      WalkPieces(g, p, i + 1);
      ReachesThrough(g, p[i + 1], Last(p), p[0]);
      ReachesThrough(g, p[i + 1], p[0], p[i]);
    }
  }

  /**
   Undirected connectivity over exactly the cycle-closing edges is the strongly connected
   component relation of the whole directed graph.
   */
  lemma CycleLinksAreComponents(g: Graph, u: Node, v: Node)
    ensures Linked(CycleEdges(g), u, v) <==> SameComponent(g, u, v)
  {
    if Linked(CycleEdges(g), u, v) {
      var p :| Trail(CycleEdges(g), p) && p[0] == u && Last(p) == v;
      TrailStaysInComponent(g, p);
    }
    if SameComponent(g, u, v) {
      var p :| Walk(g, p) && p[0] == u && Last(p) == v;
      WalkInsideComponent(g, p);
    }
  }
}
