/**
 Grouping modules by the edges that connect them: union-find over a parent map, with a union
 that ignores rank and a find that compresses only the node it was asked about.
 */
module Components {
  import opened ImportGraph
  import opened Sequences

  /** Climbing from `x` strictly raises `height`, and every climb from `x` ends at `rep[x]`. */
  ghost predicate Climbs(parent: map<Node, Node>, rep: map<Node, Node>, height: map<Node, nat>, top: nat, x: Node)
    requires rep.Keys == parent.Keys && height.Keys == parent.Keys && x in parent
  {
    && parent[x] in parent && rep[x] in parent
    && height[x] <= top
    && rep[parent[x]] == rep[x] && parent[rep[x]] == rep[x]
    && (if parent[x] == x then rep[x] == x else height[x] < height[parent[x]])
  }

  /** `parent` is a forest. */
  ghost predicate Forest(parent: map<Node, Node>, rep: map<Node, Node>, height: map<Node, nat>, top: nat) {
    && rep.Keys == parent.Keys && height.Keys == parent.Keys
    && (forall x {:trigger Climbs(parent, rep, height, top, x)} :: x in parent ==> Climbs(parent, rep, height, top, x))
  }

  ghost predicate HasRep(g: Graph, rep: map<Node, Node>, x: Node)
    requires x in rep
  {
    rep[x] in rep && Linked(g, x, rep[x])
  }

  /** No edge leaves a class. */
  ghost predicate EdgesAgree(g: Graph, rep: map<Node, Node>) {
    forall e :: e in g ==> e.source in rep && e.target in rep && rep[e.source] == rep[e.target]
  }

  /** The classes of `nodes` are what the edges of `g` connect. */
  ghost predicate Classes(g: Graph, nodes: set<Node>, rep: map<Node, Node>) {
    && rep.Keys == nodes
    && EdgesAgree(g, rep)
    && (forall x {:trigger HasRep(g, rep, x)} :: x in rep ==> HasRep(g, rep, x))
  }

  lemma {:induction false} TrailSharesRep(g: Graph, nodes: set<Node>, rep: map<Node, Node>, p: seq<Node>)
    requires Classes(g, nodes, rep) && Trail(g, p) && p[0] in rep
    ensures Last(p) in rep && rep[p[0]] == rep[Last(p)]
    decreases |p|
  {
    if |p| > 1 {
      assert Adjacent(g, p[0], p[1]);
      TrailTail(g, p);
      TrailSharesRep(g, nodes, rep, p[1..]);
    }
  }

  /** Sharing a representative is being connected, in both directions. */
  lemma RepIsConnectivity(g: Graph, nodes: set<Node>, rep: map<Node, Node>, u: Node, v: Node)
    requires Classes(g, nodes, rep) && u in rep && v in rep
    ensures rep[u] == rep[v] <==> Linked(g, u, v)
  {
    assert HasRep(g, rep, u) && HasRep(g, rep, v);
    if rep[u] == rep[v] {
      LinkedBack(g, v, rep[v]);
      LinkedThrough(g, u, rep[u], v);
    }
    if Linked(g, u, v) {
      var p :| Trail(g, p) && p[0] == u && Last(p) == v;
      TrailSharesRep(g, nodes, rep, p);
    }
  }

  lemma NewRoot(parent: map<Node, Node>, rep: map<Node, Node>, height: map<Node, nat>, top: nat, x: Node)
    requires Forest(parent, rep, height, top) && x !in parent
    ensures Forest(parent[x := x], rep[x := x], height[x := 0], top)
  {
    var p, r, h := parent[x := x], rep[x := x], height[x := 0];
    forall y | y in p
      ensures Climbs(p, r, h, top, y)
    {
      if y != x {
        assert Climbs(parent, rep, height, top, y);
      }
    }
  }

  function WithNode(m: map<Node, Node>, x: Node): (n: map<Node, Node>)
    ensures n.Keys == m.Keys + {x}
  {
    if x in m then m else m[x := x]
  }

  /** Merging two classes along a new edge. */
  function Merge(rep: map<Node, Node>, a: Node, b: Node): (merged: map<Node, Node>)
    requires a in rep && b in rep
    ensures merged.Keys == rep.Keys
  {
    map x | x in rep :: if rep[x] == rep[a] then rep[b] else rep[x]
  }

  lemma WidenedHasRep(g: Graph, rep: map<Node, Node>, x: Node, y: Node)
    requires y in WithNode(rep, x) && (y in rep ==> HasRep(g, rep, y))
    ensures HasRep(g, WithNode(rep, x), y)
  {
    LinkedSelf(g, x);
  }

  lemma WidenedEdgesAgree(g: Graph, rep: map<Node, Node>, x: Node)
    requires EdgesAgree(g, rep)
    ensures EdgesAgree(g, WithNode(rep, x))
  {
  }

  lemma WideningKeepsClasses(g: Graph, nodes: set<Node>, rep: map<Node, Node>, x: Node)
    requires Classes(g, nodes, rep)
    ensures Classes(g, nodes + {x}, WithNode(rep, x))
  {
    WidenedEdgesAgree(g, rep, x);
    forall y | y in WithNode(rep, x)
      ensures HasRep(g, WithNode(rep, x), y)
    {
      assert y in rep ==> HasRep(g, rep, y);
      WidenedHasRep(g, rep, x, y);
    }
  }

  lemma MergedHasRep(g: Graph, rep: map<Node, Node>, e: Edge, x: Node)
    requires e.source in rep && e.target in rep && x in rep
    requires HasRep(g, rep, e.source) && HasRep(g, rep, e.target) && HasRep(g, rep, x)
    ensures HasRep(g + {e}, Merge(rep, e.source, e.target), x)
  {
    var h := g + {e};
    LinkedGrows(g, h, x, rep[x]);
    if rep[x] == rep[e.source] {
      LinkedGrows(g, h, e.source, rep[e.source]);
      LinkedGrows(g, h, e.target, rep[e.target]);
      LinkedBack(h, e.source, rep[e.source]);
      LinkedThrough(h, x, rep[x], e.source);
      AdjacentLinked(h, e.source, e.target);
      LinkedThrough(h, x, e.source, e.target);
      LinkedThrough(h, x, e.target, rep[e.target]);
    }
  }

  lemma MergedEdgesAgree(g: Graph, rep: map<Node, Node>, e: Edge)
    requires EdgesAgree(g, rep) && e.source in rep && e.target in rep
    ensures EdgesAgree(g + {e}, Merge(rep, e.source, e.target))
  {
  }

  lemma MergeKeepsClasses(g: Graph, nodes: set<Node>, rep: map<Node, Node>, e: Edge)
    requires Classes(g, nodes, rep) && e.source in nodes && e.target in nodes
    ensures Classes(g + {e}, nodes, Merge(rep, e.source, e.target))
  {
    MergedEdgesAgree(g, rep, e);
    assert HasRep(g, rep, e.source) && HasRep(g, rep, e.target);
    forall x | x in Merge(rep, e.source, e.target)
      ensures HasRep(g + {e}, Merge(rep, e.source, e.target), x)
    {
      assert HasRep(g, rep, x);
      MergedHasRep(g, rep, e, x);
    }
  }

  // ----- what each update does to the forest -----

  /** Pointing a node straight at its representative. */
  lemma CompressionKeepsForest(parent: map<Node, Node>, rep: map<Node, Node>, height: map<Node, nat>, top: nat, x: Node)
    requires Forest(parent, rep, height, top) && x in parent && rep[x] in parent
    requires rep[x] == x || height[x] < height[rep[x]]
    ensures Forest(parent[x := rep[x]], rep, height, top)
  {
    var next := parent[x := rep[x]];
    assert Climbs(parent, rep, height, top, x);
    assert Climbs(parent, rep, height, top, rep[x]);
    forall y | y in next
      ensures Climbs(next, rep, height, top, y)
    {
      assert Climbs(parent, rep, height, top, y);
    }
  }

  function Raised(height: map<Node, nat>, low: Node, high: Node): map<Node, nat>
    requires low in height && high in height
  {
    height[high := (if height[low] < height[high] then height[high] else height[low]) + 1]
  }

  /** Hanging one root under another, which is lifted above everything below it. */
  lemma HangingKeepsForest(
      parent: map<Node, Node>, rep: map<Node, Node>, height: map<Node, nat>, top: nat, a: Node, b: Node)
    requires Forest(parent, rep, height, top) && a in parent && b in parent && rep[a] != rep[b]
    requires rep[a] in parent && rep[b] in parent && parent[rep[a]] == rep[a] && parent[rep[b]] == rep[b]
    ensures Forest(parent[rep[a] := rep[b]], Merge(rep, a, b), Raised(height, rep[a], rep[b]), top + 1)
  {
    var ra, rb := rep[a], rep[b];
    var next, merged, raised := parent[ra := rb], Merge(rep, a, b), Raised(height, ra, rb);
    assert Climbs(parent, rep, height, top, ra) && Climbs(parent, rep, height, top, rb);
    assert rep[ra] == ra && rep[rb] == rb;
    forall y | y in next
      ensures Climbs(next, merged, raised, top + 1, y)
    {
      assert Climbs(parent, rep, height, top, y);
      if y != ra {
        assert next[y] == parent[y];
        assert rep[y] == ra || merged[y] == rep[y] != ra;
      }
    }
  }

  class DisjointSets {
    var parent: map<Node, Node>
    ghost var rep: map<Node, Node>
    ghost var height: map<Node, nat>
    ghost var top: nat

    ghost predicate Valid()
      reads this
    {
      Forest(parent, rep, height, top)
    }

    constructor ()
      ensures Valid() && parent == map[] && rep == map[]
    {
      parent, rep, height, top := map[], map[], map[], 0;
    }

    /** Climb to the root, then point `x` straight at it. The climb ends because heights rise. */
    method Find(x: Node) returns (root: Node)
      requires Valid() && x in parent
      modifies this`parent
      ensures Valid() && parent == old(parent)[x := root]
      ensures root == rep[x] && root in parent && parent[root] == root
    {
      root := parent[x];
      assert Climbs(parent, rep, height, top, x);
      assert Climbs(parent, rep, height, top, root);
      while root != parent[root]
        invariant root in parent && rep[root] == rep[x]
        invariant root == x || height[x] < height[root]
        invariant Climbs(parent, rep, height, top, root)
        decreases top - height[root]
      {
        root := parent[root];
        assert Climbs(parent, rep, height, top, root);
      }
      CompressionKeepsForest(parent, rep, height, top, x);
      parent := parent[x := root];
    }

    /** Merge the classes of `a` and `b`. */
    method Union(a: Node, b: Node)
      requires Valid() && a in parent && b in parent
      modifies this
      ensures Valid() && parent.Keys == old(parent.Keys)
      ensures rep == Merge(old(rep), a, b)
    {
      var ra := Find(a);
      var rb := Find(b);
      if ra != rb {
        assert Climbs(parent, rep, height, top, a);
        HangingKeepsForest(parent, rep, height, top, a, b);
        parent, rep, height, top := parent[ra := rb], Merge(rep, a, b), Raised(height, ra, rb), top + 1;
      } else {
        assert Merge(rep, a, b) == rep;
      }
    }

    /** `parent.set(x, parent.get(x) ?? x)`. */
    method Touch(x: Node)
      requires Valid()
      modifies this
      ensures Valid() && parent.Keys == old(parent.Keys) + {x} && rep == WithNode(old(rep), x)
    {
      if x !in parent {
        NewRoot(parent, rep, height, top, x);
        hide Forest;
        parent, rep, height := parent[x := x], rep[x := x], height[x := 0];
      }
    }

    ghost function View(): (map<Node, Node>, map<Node, Node>, map<Node, nat>)
      reads this
    {
      (parent, rep, height)
    }
  }

  /** An id that does not split into two names is skipped. */
  predicate Names(e: Edge) {
    e.source.path != "" && e.target.path != ""
  }

  function EdgeSet(ids: seq<Edge>): Graph {
    set e | e in ids && Names(e)
  }

  /** The modules the ids name. */
  function NamedBy(ids: seq<Edge>): set<Node> {
    if ids == [] then {}
    else
      var e := ids[|ids| - 1];
      NamedBy(ids[..|ids| - 1]) + (if Names(e) then {e.source, e.target} else {})
  }

  lemma {:induction false} NamedByMeans(ids: seq<Edge>)
    ensures NamedBy(ids) == Endpoints(EdgeSet(ids))
  {
    if ids == [] {
      assert EdgeSet(ids) == {};
    } else {
      var n := |ids| - 1;
      NamedByMeans(ids[..n]);
      var e := ids[n];
      assert ids == ids[..n] + [e];
      assert EdgeSet(ids) == EdgeSet(ids[..n]) + (if Names(e) then {e} else {});
    }
  }

  predicate Distinct<T(==)>(s: seq<T>) {
    forall i, j :: 0 <= i < j < |s| ==> s[i] != s[j]
  }

  /** `groups` is the partition of `nodes` by undirected connectivity over the edges. */
  ghost predicate IsPartition(groups: seq<seq<Node>>, nodes: set<Node>, g: Graph) {
    && (forall i :: 0 <= i < |groups| ==> groups[i] != [] && Distinct(groups[i]))
    && (forall i, u :: 0 <= i < |groups| && u in groups[i] ==> u in nodes)
    && (forall u :: u in nodes ==> exists i :: 0 <= i < |groups| && u in groups[i])
    && (forall i, j, u, v :: 0 <= i < |groups| && 0 <= j < |groups| && u in groups[i] && v in groups[j] ==>
          (i == j <==> Linked(g, u, v)))
  }

  /** The groups built from the first few nodes: one per representative met, in order. */
  ghost predicate Grouped(order: seq<Node>, rep: map<Node, Node>, roots: seq<Node>, groups: map<Node, seq<Node>>) {
    && Distinct(roots)
    && (forall r :: r in roots <==> r in groups)
    && (forall r :: r in groups ==> groups[r] != [] && Distinct(groups[r]))
    && (forall r, u :: r in groups && u in groups[r] ==> u in order && u in rep && rep[u] == r)
    && (forall u :: u in order ==> u in rep && rep[u] in groups && u in groups[rep[u]])
  }

  lemma AddToGroup(order: seq<Node>, rep: map<Node, Node>, roots: seq<Node>, groups: map<Node, seq<Node>>, u: Node)
    requires Grouped(order, rep, roots, groups) && u in rep && u !in order
    ensures Grouped(order + [u], rep,
                    if rep[u] in groups then roots else roots + [rep[u]],
                    groups[rep[u] := (if rep[u] in groups then groups[rep[u]] else []) + [u]])
  {
    var r := rep[u];
    var members := (if r in groups then groups[r] else []) + [u];
    assert Distinct(members);
    var roots' := if r in groups then roots else roots + [r];
    assert Distinct(roots');
  }

  function InOrder(roots: seq<Node>, groups: map<Node, seq<Node>>): (out: seq<seq<Node>>)
    requires forall r :: r in roots ==> r in groups
    ensures |out| == |roots| && forall i :: 0 <= i < |roots| ==> out[i] == groups[roots[i]]
  {
    seq(|roots|, i requires 0 <= i < |roots| => groups[roots[i]])
  }

  lemma GroupsArePartition(
      g: Graph, nodes: set<Node>, order: seq<Node>, rep: map<Node, Node>, roots: seq<Node>,
      groups: map<Node, seq<Node>>)
    requires Classes(g, nodes, rep) && Grouped(order, rep, roots, groups)
    requires forall u :: u in order <==> u in nodes
    ensures IsPartition(InOrder(roots, groups), nodes, g)
  {
    var out := InOrder(roots, groups);
    forall i, u | 0 <= i < |out| && u in out[i]
      ensures u in rep && rep[u] == roots[i]
    {
      assert roots[i] in groups;
    }
    forall i | 0 <= i < |out|
      ensures out[i] != [] && Distinct(out[i])
    {
      assert roots[i] in groups;
    }
    forall u | u in nodes
      ensures exists i :: 0 <= i < |out| && u in out[i]
    {
      assert u in order && rep[u] in roots;
      var i :| 0 <= i < |roots| && roots[i] == rep[u];
      assert u in out[i];
    }
    forall i, j, u, v | 0 <= i < |out| && 0 <= j < |out| && u in out[i] && v in out[j]
      ensures i == j <==> Linked(g, u, v)
    {
      RepIsConnectivity(g, nodes, rep, u, v);
      assert roots[i] == rep[u] && roots[j] == rep[v];
    }
  }

  /** Every module the ids name, exactly once, grouped with exactly the modules it is connected to. */
  method Group(ids: seq<Edge>) returns (groups: seq<seq<Node>>)
    ensures IsPartition(groups, NamedBy(ids), EdgeSet(ids))
  {
    var sets := new DisjointSets();
    var order: seq<Node> := [];
    for k := 0 to |ids|
      invariant sets.Valid() && Classes(EdgeSet(ids[..k]), NamedBy(ids[..k]), sets.rep)
      invariant Distinct(order) && forall u :: u in order <==> u in sets.parent
      invariant fresh(sets)
    {
      var e := ids[k];
      assert ids[..k + 1][..k] == ids[..k] && ids[..k + 1] == ids[..k] + [e];
      assert EdgeSet(ids[..k + 1]) == EdgeSet(ids[..k]) + (if Names(e) then {e} else {});
      if !Names(e) {
        assert EdgeSet(ids[..k + 1]) == EdgeSet(ids[..k]);
        assert NamedBy(ids[..k + 1]) == NamedBy(ids[..k]);
        continue;
      }
      order := Link(sets, order, e, EdgeSet(ids[..k]), NamedBy(ids[..k]));
    }
    assert ids[..|ids|] == ids;
    groups := Collect(sets, order, EdgeSet(ids), NamedBy(ids));
  }

  /** One edge: both ends get a place, then their classes are merged. */
  lemma Listed(order: seq<Node>, x: Node)
    requires Distinct(order)
    ensures var longer := if x in order then order else order + [x];
            Distinct(longer) && forall u :: u in longer <==> u in order || u == x
  {
  }

  method Link(sets: DisjointSets, order: seq<Node>, e: Edge, ghost g: Graph, ghost nodes: set<Node>)
    returns (order': seq<Node>)
    requires sets.Valid() && Classes(g, nodes, sets.rep)
    requires Distinct(order) && forall u :: u in order <==> u in sets.parent
    modifies sets
    ensures sets.Valid() && Classes(g + {e}, nodes + {e.source, e.target}, sets.rep)
    ensures Distinct(order') && forall u :: u in order' <==> u in sets.parent
  {
    WideningKeepsClasses(g, nodes, sets.rep, e.source);
    WideningKeepsClasses(g, nodes + {e.source}, WithNode(sets.rep, e.source), e.target);
    assert nodes + {e.source} + {e.target} == nodes + {e.source, e.target};
    Listed(order, e.source);
    order' := if e.source in order then order else order + [e.source];
    sets.Touch(e.source);
    Listed(order', e.target);
    order' := if e.target in order' then order' else order' + [e.target];
    hide Distinct;
    sets.Touch(e.target);
    MergeKeepsClasses(g, nodes + {e.source, e.target}, sets.rep, e);
    sets.Union(e.source, e.target);
  }

  lemma NotBefore(order: seq<Node>, k: nat)
    requires Distinct(order) && k < |order|
    ensures order[k] in order && order[k] !in order[..k]
  {
  }

  method Collect(sets: DisjointSets, order: seq<Node>, ghost g: Graph, ghost nodes: set<Node>)
    returns (out: seq<seq<Node>>)
    requires sets.Valid() && Classes(g, nodes, sets.rep)
    requires Distinct(order) && forall u :: u in order <==> u in sets.parent
    modifies sets`parent
    ensures IsPartition(out, nodes, g)
  {
    var groups: map<Node, seq<Node>> := map[];
    var roots: seq<Node> := [];
    for k := 0 to |order|
      invariant sets.Valid() && sets.parent.Keys == old(sets.parent.Keys)
      invariant Grouped(order[..k], sets.rep, roots, groups)
    {
      var node := order[k];
      NotBefore(order, k);
      NextPrefix(order, k);
      var root := sets.Find(node);
      AddToGroup(order[..k], sets.rep, roots, groups, node);
      roots := if root in groups then roots else roots + [root];
      groups := groups[root := (if root in groups then groups[root] else []) + [node]];
    }
    WholePrefix(order);
    GroupsArePartition(g, nodes, order, sets.rep, roots, groups);
    out := InOrder(roots, groups);
  }

  /** Given exactly the edges that close cycles, the groups are the strongly connected components they touch. */
  lemma PartitionIsComponents(ids: seq<Edge>, groups: seq<seq<Node>>, g: Graph)
    requires IsPartition(groups, NamedBy(ids), EdgeSet(ids)) && EdgeSet(ids) == CycleEdges(g)
    ensures forall u :: (exists i :: 0 <= i < |groups| && u in groups[i]) <==> u in Endpoints(CycleEdges(g))
    ensures forall i, u, v :: 0 <= i < |groups| && u in groups[i] ==>
              (v in groups[i] <==> SameComponent(g, u, v) && v in Endpoints(CycleEdges(g)))
  {
    NamedByMeans(ids);
    forall i, u, v | 0 <= i < |groups| && u in groups[i]
      ensures v in groups[i] <==> SameComponent(g, u, v) && v in Endpoints(CycleEdges(g))
    {
      CycleLinksAreComponents(g, u, v);
      if v in Endpoints(CycleEdges(g)) {
        assert v in NamedBy(ids);
        var j :| 0 <= j < |groups| && v in groups[j];
        assert i == j <==> Linked(CycleEdges(g), u, v);
        if v in groups[i] {
          LinkedSelf(CycleEdges(g), v);
          assert i == j;
        }
      }
    }
  }
}
