/**
 The circular-import gate: what it reads from the dependency report, when it passes, what
 `--update` may record, and what that guarantees over any history of graphs.
 */
module CycleRatchet {
  import opened ImportGraph
  import Components

  datatype Dependency = Dependency(resolved: Node, circular: bool)

  datatype CruisedModule = CruisedModule(source: Node, dependencies: seq<Dependency>)

  // ----- what the report says -----

  /** The edges of the first `d` dependencies of module `m` and of every module before it. */
  predicate Declared(report: seq<CruisedModule>, m: nat, d: nat, e: Edge, circularOnly: bool) {
    exists i, j :: 0 <= i < |report| && 0 <= j < |report[i].dependencies| && (i < m || (i == m && j < d)) &&
      e == Edge(report[i].source, report[i].dependencies[j].resolved) &&
      (circularOnly ==> report[i].dependencies[j].circular)
  }

  predicate Flagged(report: seq<CruisedModule>, e: Edge) {
    Declared(report, |report|, 0, e, true)
  }

  /**
   The reporter's promise: the flags mark exactly the edges, among those reported, whose ends
   share a strongly connected component.
   */
  ghost predicate Exact(report: seq<CruisedModule>, g: Graph) {
    && (forall e :: e in g <==> Declared(report, |report|, 0, e, false))
    && (forall e :: e in CycleEdges(g) <==> Flagged(report, e))
  }

  lemma DeclaredNext(report: seq<CruisedModule>, m: nat, d: nat, e: Edge)
    requires m < |report| && d < |report[m].dependencies|
    ensures Declared(report, m, d + 1, e, true) <==>
            Declared(report, m, d, e, true) ||
            (report[m].dependencies[d].circular && e == Edge(report[m].source, report[m].dependencies[d].resolved))
  {
  }

  lemma DeclaredModule(report: seq<CruisedModule>, m: nat, e: Edge)
    requires m < |report|
    ensures Declared(report, m + 1, 0, e, true) <==> Declared(report, m, |report[m].dependencies|, e, true)
  {
  }

  /** Every flagged edge once, in the order first met. */
  method FlaggedEdges(report: seq<CruisedModule>) returns (edges: seq<Edge>)
    ensures Components.Distinct(edges)
    ensures forall e :: e in edges <==> Flagged(report, e)
  {
    edges := [];
    for m := 0 to |report|
      invariant Components.Distinct(edges)
      invariant forall e :: e in edges <==> Declared(report, m, 0, e, true)
    {
      var deps := report[m].dependencies;
      for d := 0 to |deps|
        invariant Components.Distinct(edges)
        invariant forall e :: e in edges <==> Declared(report, m, d, e, true)
      {
        forall e {
          DeclaredNext(report, m, d, e);
        }
        if !deps[d].circular {
          continue;
        }
        var id := Edge(report[m].source, deps[d].resolved);
        if id in edges {
          continue;
        }
        edges := edges + [id];
      }
      forall e {
        DeclaredModule(report, m, e);
      }
    }
  }

  function Without(xs: seq<Edge>, ys: seq<Edge>): (r: seq<Edge>)
    ensures forall e :: e in r <==> e in xs && e !in ys
  {
    if xs == [] then []
    else (if xs[0] in ys then [] else [xs[0]]) + Without(xs[1..], ys)
  }

  // ----- the gate -----

  datatype Mode = Check | Update | List

  function SetOf(edges: seq<Edge>): Graph {
    set e | e in edges
  }

  /** Every module on a cycle-closing import, grouped with exactly its strongly connected component. */
  ghost predicate ListsComponents(groups: seq<seq<Node>>, g: Graph) {
    && (forall u :: (exists i :: 0 <= i < |groups| && u in groups[i]) <==> u in Endpoints(CycleEdges(g)))
    && (forall i, u, v :: 0 <= i < |groups| && u in groups[i] ==>
          (v in groups[i] <==> SameComponent(g, u, v) && v in Endpoints(CycleEdges(g))))
  }

  lemma ListingIsRight(current: seq<Edge>, groups: seq<seq<Node>>, g: Graph)
    requires SetOf(current) == CycleEdges(g)
    requires Components.IsPartition(groups, Components.NamedBy(current), Components.EdgeSet(current))
    ensures (forall e :: e in CycleEdges(g) ==> Components.Names(e)) ==> ListsComponents(groups, g)
  {
    if forall e :: e in CycleEdges(g) ==> Components.Names(e) {
      AllNamed(current);
      Components.PartitionIsComponents(current, groups, g);
    }
  }

  lemma AllNamed(edges: seq<Edge>)
    requires forall e :: e in SetOf(edges) ==> Components.Names(e)
    ensures Components.EdgeSet(edges) == SetOf(edges)
  {
  }

  // ----- the record as it is written -----

  /** Sorting rearranges, and depends on nothing but what there is to sort. */
  ghost predicate Sorts(sort: seq<Edge> -> seq<Edge>) {
    && (forall xs :: multiset(sort(xs)) == multiset(xs))
    && (forall xs, ys :: multiset(xs) == multiset(ys) ==> sort(xs) == sort(ys))
  }

  /** A record as this program writes it. */
  predicate Canonical(known: seq<Edge>, sort: seq<Edge> -> seq<Edge>) {
    Components.Distinct(known) && known == sort(known)
  }

  lemma {:induction false} CountInDistinct(xs: seq<Edge>, e: Edge)
    requires Components.Distinct(xs)
    ensures multiset(xs)[e] == if e in xs then 1 else 0
  {
    if xs != [] {
      var front, last := xs[..|xs| - 1], xs[|xs| - 1];
      assert xs == front + [last];
      assert forall i :: 0 <= i < |front| ==> xs[i] == front[i];
      CountInDistinct(front, e);
      assert last !in front;
    }
  }

  lemma SameEdgesSortAlike(xs: seq<Edge>, ys: seq<Edge>, sort: seq<Edge> -> seq<Edge>)
    requires Sorts(sort) && Components.Distinct(xs) && Components.Distinct(ys) && SetOf(xs) == SetOf(ys)
    ensures sort(xs) == sort(ys)
  {
    forall e
      ensures multiset(xs)[e] == multiset(ys)[e]
    {
      CountInDistinct(xs, e);
      CountInDistinct(ys, e);
      assert e in xs <==> e in SetOf(xs);
      assert e in ys <==> e in SetOf(ys);
    }
    assert multiset(xs) == multiset(ys);
  }

  lemma SortedEdges(xs: seq<Edge>, sort: seq<Edge> -> seq<Edge>)
    requires Sorts(sort)
    ensures SetOf(sort(xs)) == SetOf(xs)
  {
    forall e
      ensures e in sort(xs) <==> e in xs
    {
      assert e in multiset(sort(xs)) <==> e in multiset(xs);
    }
  }

  lemma SortedIsCanonical(xs: seq<Edge>, sort: seq<Edge> -> seq<Edge>)
    requires Sorts(sort) && Components.Distinct(xs)
    ensures Canonical(sort(xs), sort)
  {
    var ys := sort(xs);
    assert multiset(ys) == multiset(xs);
    forall i, j | 0 <= i < j < |ys|
      ensures ys[i] != ys[j]
    {
      if ys[i] == ys[j] {
        CountInDistinct(xs, ys[i]);
        TwiceCounts(ys, i, j);
      }
    }
  }

  lemma TwiceCounts(ys: seq<Edge>, i: nat, j: nat)
    requires i < j < |ys| && ys[i] == ys[j]
    ensures multiset(ys)[ys[i]] >= 2
  {
    assert ys == ys[..j] + ([ys[j]] + ys[j + 1..]);
    assert ys[i] in ys[..j];
  }

  /**
   `--update`. It refuses new edges; and it takes a rewrite that changes nothing for one that
   failed, so it fails on a record that is already right.
   */
  method UpdateRecord(current: seq<Edge>, layeringErrors: bool, known: seq<Edge>, sort: seq<Edge> -> seq<Edge>)
    returns (exit: int, recorded: seq<Edge>)
    requires Sorts(sort) && Components.Distinct(current)
    ensures recorded == if SetOf(current) <= SetOf(known) then sort(current) else known
    ensures exit == 0 || exit == 1
    ensures exit == 0 <==> !layeringErrors && SetOf(current) <= SetOf(known) && recorded != known
    ensures SetOf(current) == SetOf(known) && Canonical(known, sort) ==> exit == 1 && recorded == known
    ensures exit == 0 ==> Canonical(recorded, sort) && SetOf(recorded) == SetOf(current)
  {
    NoneMissing(current, known);
    SortedEdges(current, sort);
    SortedIsCanonical(current, sort);
    if SetOf(current) == SetOf(known) && Canonical(known, sort) {
      SameEdgesSortAlike(current, known, sort);
    }
    if |Without(current, known)| > 0 {
      return 1, known;
    }
    recorded := sort(current);
    if recorded == known {
      return 1, recorded;
    }
    exit := if layeringErrors then 1 else 0;
  }

  /** So an update that worked fails when it is repeated, though the check it was for passes. */
  method UpdateTwice(current: seq<Edge>, known: seq<Edge>, sort: seq<Edge> -> seq<Edge>)
    returns (first: int, second: int, recorded: seq<Edge>)
    requires Sorts(sort) && Components.Distinct(current)
    ensures second == 1
    ensures first == 0 ==> SetOf(recorded) == SetOf(current)
  {
    var once;
    first, once := UpdateRecord(current, false, known, sort);
    second, recorded := UpdateRecord(current, false, once, sort);
    SortedEdges(current, sort);
    SortedIsCanonical(current, sort);
  }

  /**
   One invocation. `layeringErrors` are the absolute rules' violations. The reply is the exit
   code, the record left behind, and for an inventory the components.
   */
  method CheckDeps(report: seq<CruisedModule>, layeringErrors: bool, known: seq<Edge>, mode: Mode,
                   sort: seq<Edge> -> seq<Edge>, ghost g: Graph)
    returns (exit: int, recorded: seq<Edge>, groups: seq<seq<Node>>)
    requires Exact(report, g) && Sorts(sort)
    ensures mode.Check? ==> (exit == 0 <==> !layeringErrors && Passes(g, SetOf(known)))
    ensures mode.Update? ==> SetOf(recorded) == Tightened(g, SetOf(known))
    ensures mode.Update? ==>
              (exit == 0 <==> !layeringErrors && CycleEdges(g) <= SetOf(known) && recorded != known)
    ensures mode.Update? && exit == 0 ==> Passes(g, SetOf(recorded))
    ensures mode.Update? && Passes(g, SetOf(known)) && Canonical(known, sort) ==> exit == 1 && recorded == known
    ensures !mode.Update? ==> recorded == known
    ensures mode.List? ==> exit == 0
    ensures mode.List? && (forall e :: e in CycleEdges(g) ==> Components.Names(e)) ==> ListsComponents(groups, g)
    ensures exit == 0 || exit == 1
  {
    var current := FlaggedEdges(report);
    assert SetOf(current) == CycleEdges(g);
    exit, recorded, groups := 0, known, [];
    if mode.List? {
      groups := Components.Group(current);
      ListingIsRight(current, groups, g);
      return;
    }
    if mode.Update? {
      exit, recorded := UpdateRecord(current, layeringErrors, known, sort);
      SortedEdges(current, sort);
      UpdateThenPasses(Repository(g, SetOf(known)));
      return;
    }
    exit := Compare(current, known, layeringErrors);
  }

  /** The check proper: nothing added, nothing gone, nothing else wrong. */
  method Compare(current: seq<Edge>, known: seq<Edge>, layeringErrors: bool) returns (exit: int)
    ensures exit == 0 || exit == 1
    ensures exit == 0 <==> !layeringErrors && SetOf(current) == SetOf(known)
  {
    NoneMissing(current, known);
    NoneMissing(known, current);
    var failed := layeringErrors;
    if |Without(current, known)| > 0 {
      failed := true;
    }
    if |Without(known, current)| > 0 {
      failed := true;
    }
    exit := if failed then 1 else 0;
  }

  lemma NoneMissing(xs: seq<Edge>, ys: seq<Edge>)
    ensures Without(xs, ys) == [] <==> SetOf(xs) <= SetOf(ys)
  {
    var r := Without(xs, ys);
    if r == [] {
      forall e | e in xs
        ensures e in ys
      {
        assert e !in r;
      }
    } else {
      assert r[0] in r;
      assert r[0] in SetOf(xs) && r[0] !in SetOf(ys);
    }
  }

  // ----- the ratchet over time -----

  /** Nothing added, nothing gone. */
  ghost predicate Passes(g: Graph, recorded: Graph) {
    CycleEdges(g) == recorded
  }

  /** `--update` refuses to record a new edge. */
  ghost function Tightened(g: Graph, recorded: Graph): Graph {
    if CycleEdges(g) <= recorded then CycleEdges(g) else recorded
  }

  datatype Repository = Repository(graph: Graph, recorded: Graph)

  /** Any rewrite of the imports, or an update. A check changes nothing. */
  datatype Move = Rewrite(graph: Graph) | RunUpdate | RunCheck

  ghost function Moved(r: Repository, m: Move): Repository {
    match m
    case Rewrite(graph) => r.(graph := graph)
    case RunUpdate => r.(recorded := Tightened(r.graph, r.recorded))
    case RunCheck => r
  }

  ghost function History(r: Repository, ms: seq<Move>): Repository
    decreases |ms|
  {
    if ms == [] then r else History(Moved(r, ms[0]), ms[1..])
  }

  /** A passing check: the recorded edges are exactly the edges that lie on a directed cycle. */
  lemma PassingMeansEveryCycleIsRecorded(g: Graph, recorded: Graph)
    ensures Passes(g, recorded) <==> forall e :: e in recorded <==> exists p :: Cycle(g, p) && Uses(p, e)
  {
    forall e
      ensures e in CycleEdges(g) <==> exists p :: Cycle(g, p) && Uses(p, e)
    {
      CycleEdgesAreExact(g, e);
    }
    if forall e :: e in recorded <==> exists p :: Cycle(g, p) && Uses(p, e) {
      assert forall e :: e in recorded <==> e in CycleEdges(g);
    }
  }

  /** Closing a new cycle always flags at least the edge that closes it. */
  lemma NewCycleFlagsItsOwnEdge(g: Graph, e: Edge, p: seq<Node>)
    requires e !in g && Cycle(g + {e}, p) && !Cycle(g, p)
    ensures e in CycleEdges(g + {e}) && e !in CycleEdges(g)
  {
    var i :| 0 <= i < |p| - 1 && Edge(p[i], p[i + 1]) !in g;
    assert Uses(p, e);
    CycleEdgesAreExact(g + {e}, e);
  }

  lemma {:induction false} RecordNeverGrows(r: Repository, ms: seq<Move>)
    ensures History(r, ms).recorded <= r.recorded
    decreases |ms|
  {
    if ms != [] {
      RecordNeverGrows(Moved(r, ms[0]), ms[1..]);
    }
  }

  /** An edge once out of the record can never again be part of a cycle that a check lets pass. */
  lemma RemovedCycleCannotReturnUnseen(r: Repository, ms: seq<Move>, e: Edge, p: seq<Node>)
    requires e !in r.recorded
    requires Cycle(History(r, ms).graph, p) && Uses(p, e)
    ensures !Passes(History(r, ms).graph, History(r, ms).recorded)
  {
    RecordNeverGrows(r, ms);
    CycleEdgesAreExact(History(r, ms).graph, e);
  }

  /** After an update that is not refused, the check passes on the same graph. */
  lemma UpdateThenPasses(r: Repository)
    ensures Passes(r.graph, Moved(r, RunUpdate).recorded) <==> CycleEdges(r.graph) <= r.recorded
  {
  }
}
