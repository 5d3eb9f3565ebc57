/** The validator of the durable task graph: duplicates, bad edges and cycles. */
module TaskGraph {
  import opened Wrappers
  import opened Tasks
  import opened Digraph

  /** A task as the graph sees it: what it depends on, as listed, and what it reviews. */
  datatype Node = Node(id: TaskId, dependencies: seq<TaskId>, reviewOf: Option<TaskId>)
  {
    function Edges(): seq<TaskId> {
      dependencies + (if reviewOf.Some? then [reviewOf.value] else [])
    }
  }

  datatype Defect =
    | Duplicate(id: TaskId)
    | SelfEdge(id: TaskId)
    | UnknownEdge(id: TaskId, target: TaskId)
    | Cycle(id: TaskId, target: TaskId)

  type Graph = map<TaskId, Node>

  /** A later node of the same identity replaces an earlier one. */
  function ById(nodes: seq<Node>): Graph {
    if nodes == [] then map[] else var last := nodes[|nodes| - 1]; ById(nodes[..|nodes| - 1])[last.id := last]
  }

  lemma {:induction false} ByIdIndexes(nodes: seq<Node>)
    ensures forall n <- nodes :: n.id in ById(nodes)
    ensures forall t <- ById(nodes).Keys :: ById(nodes)[t] in nodes && ById(nodes)[t].id == t
  {
    if nodes != [] {
      ByIdIndexes(nodes[..|nodes| - 1]);
      assert nodes == nodes[..|nodes| - 1] + [nodes[|nodes| - 1]];
    }
  }

  /** The edges the search follows: between two different nodes of the graph. */
  function Links(g: Graph): map<TaskId, set<TaskId>> {
    map id | id in g :: set target | target in g[id].Edges() && target != id && target in g
  }

  /* ---- the depth-first search ---- */

  /** The open nodes are a walk of the graph. */
  ghost predicate Stacked(g: Graph, open: set<TaskId>, stack: seq<TaskId>) {
    && (stack != [] ==> Walk(Links(g), stack))
    && (forall i, j | 0 <= i < j < |stack| :: stack[i] != stack[j])
    && (forall t :: t in stack <==> t in open)
  }

  /** A target of a finished node finished earlier, or the edge is reported. */
  ghost predicate Ordered(g: Graph, rank: map<TaskId, nat>, cycles: seq<Defect>, a: TaskId, b: TaskId) {
    a in rank && Edge(Links(g), a, b) ==> (b in rank && rank[b] < rank[a]) || Cycle(a, b) in cycles
  }

  ghost predicate Finished(g: Graph, done: set<TaskId>, rank: map<TaskId, nat>, tick: nat, cycles: seq<Defect>) {
    && (forall a :: a in rank <==> a in done) && (forall a <- done :: rank[a] < tick)
    && (forall a, b :: Ordered(g, rank, cycles, a, b))
  }

  lemma StackPops(g: Graph, open: set<TaskId>, stack: seq<TaskId>)
    requires Stacked(g, open, stack) && stack != []
    ensures Stacked(g, open - {stack[|stack| - 1]}, stack[..|stack| - 1])
  {
    var rest := stack[..|stack| - 1];
    forall t ensures t in rest <==> t in open - {stack[|stack| - 1]} {
      assert stack == rest + [stack[|stack| - 1]];
    }
  }

  lemma StackPushes(g: Graph, open: set<TaskId>, stack: seq<TaskId>, id: TaskId)
    requires Stacked(g, open, stack) && id !in open && (stack != [] ==> Edge(Links(g), stack[|stack| - 1], id))
    ensures Stacked(g, open + {id}, stack + [id])
  {
  }

  lemma NodeFinishes(g: Graph, done: set<TaskId>, rank: map<TaskId, nat>, tick: nat, cycles: seq<Defect>, id: TaskId)
    requires Finished(g, done, rank, tick, cycles) && id !in done
    requires forall t | Edge(Links(g), id, t) :: t in done || Cycle(id, t) in cycles
    ensures Finished(g, done + {id}, rank[id := tick], tick + 1, cycles)
  {
    var later := rank[id := tick];
    forall a, b ensures Ordered(g, later, cycles, a, b) {
      assert Ordered(g, rank, cycles, a, b);
    }
  }

  predicate Within(some: seq<Defect>, more: seq<Defect>) {
    forall c <- some :: c in more
  }

  lemma ReportsStand(g: Graph, done: set<TaskId>, rank: map<TaskId, nat>, tick: nat, cycles: seq<Defect>, c: Defect)
    requires Finished(g, done, rank, tick, cycles)
    ensures Finished(g, done, rank, tick, cycles + [c]) && Within(cycles, cycles + [c])
  {
    forall a, b ensures Ordered(g, rank, cycles + [c], a, b) {
      assert Ordered(g, rank, cycles, a, b);
    }
  }

  class Search {
    const g: Graph
    var open: set<TaskId>
    var done: set<TaskId>
    var cycles: seq<Defect>
    ghost var stack: seq<TaskId>
    ghost var rank: map<TaskId, nat>
    ghost var tick: nat

    ghost predicate Valid()
      reads this
    {
      && open !! done && open + done <= g.Keys
      && Stacked(g, open, stack) && Finished(g, done, rank, tick, cycles)
      && (forall c <- cycles :: c.Cycle? && Closes(Links(g), c.id, c.target))
    }

    constructor (g: Graph)
      ensures Valid() && this.g == g && open == {} && done == {} && cycles == [] && stack == []
    {
      this.g := g;
      open, done, cycles, stack, rank, tick := {}, {}, [], [], map[], 0;
    }

    lemma StackReaches(target: TaskId, id: TaskId)
      requires Valid() && stack != [] && stack[|stack| - 1] == id && target in open
      ensures Reaches(Links(g), target, id)
    {
      SuffixReaches(Links(g), stack, target);
    }

    method Visit(id: TaskId)
      requires Valid() && id in g && (stack != [] ==> Edge(Links(g), stack[|stack| - 1], id))
      modifies this
      ensures Valid() && stack == old(stack) && open == old(open)
      ensures old(done) <= done && (id in done || id in open)
      ensures Within(old(cycles), cycles)
      decreases g.Keys - open - done, 1
    {
      if id in open || id in done {
        return;
      }
      StackPushes(g, open, stack, id);
      open, stack := open + {id}, stack + [id];
      assert id in g.Keys - old(open) - old(done) && id !in g.Keys - open - done;
      VisitEdges(id);
      Finish(id);
      assert stack == old(stack);
    }

    method Finish(id: TaskId)
      requires Valid() && stack != [] && stack[|stack| - 1] == id
      requires forall target <- g[id].Edges() :: Settled(id, target)
      modifies this
      ensures Valid() && stack == old(stack)[..|old(stack)| - 1] && open == old(open) - {id}
      ensures done == old(done) + {id} && cycles == old(cycles)
    {
      StackPops(g, open, stack);
      forall t | Edge(Links(g), id, t) ensures t in done || Cycle(id, t) in cycles {
        assert Settled(id, t);
      }
      NodeFinishes(g, done, rank, tick, cycles, id);
      stack, rank, tick := stack[..|stack| - 1], rank[id := tick], tick + 1;
      open, done := open - {id}, done + {id};
    }

    method VisitEdges(id: TaskId)
      requires Valid() && id in g && stack != [] && stack[|stack| - 1] == id
      modifies this
      ensures Valid() && stack == old(stack) && open == old(open)
      ensures old(done) <= done && Within(old(cycles), cycles)
      ensures forall target <- g[id].Edges() :: Settled(id, target)
      decreases g.Keys - open - done, 3
    {
      var edges := g[id].Edges();
      for i := 0 to |edges|
        invariant Valid() && open == old(open) && stack == old(stack)
        invariant old(done) <= done && Within(old(cycles), cycles)
        invariant forall j | 0 <= j < i :: Settled(id, edges[j])
      {
        VisitEdge(id, edges[i]);
      }
    }

    /** The edge's target is finished, or the edge is reported. */
    predicate Settled(id: TaskId, target: TaskId)
      reads this
    {
      Edge(Links(g), id, target) ==> target in done || Cycle(id, target) in cycles
    }

    method VisitEdge(id: TaskId, target: TaskId)
      requires Valid() && id in g && target in g[id].Edges() && stack != [] && stack[|stack| - 1] == id
      modifies this
      ensures Valid() && stack == old(stack) && open == old(open)
      ensures old(done) <= done && Within(old(cycles), cycles) && Settled(id, target)
      decreases g.Keys - open - done, 2
    {
      if target == id || target !in g {
        return;
      }
      if target in open {
        StackReaches(target, id);
        ReportsStand(g, done, rank, tick, cycles, Cycle(id, target));
        cycles := cycles + [Cycle(id, target)];
        return;
      }
      Visit(target);
    }
  }

  /* ---- the whole validation ---- */

  function Ids(nodes: seq<Node>): set<TaskId> {
    if nodes == [] then {} else Ids(nodes[..|nodes| - 1]) + {nodes[|nodes| - 1].id}
  }

  lemma {:induction false} IdsAreTheNodes(nodes: seq<Node>, t: TaskId)
    ensures t in Ids(nodes) <==> exists i :: 0 <= i < |nodes| && nodes[i].id == t
  {
    if nodes != [] {
      var before := nodes[..|nodes| - 1];
      IdsAreTheNodes(before, t);
      if t in Ids(before) {
        var i :| 0 <= i < |before| && before[i].id == t;
        assert nodes[i].id == t;
      } else {
        assert forall i | 0 <= i < |before| :: before[i].id != t;
      }
    }
  }

  /** One defect for every later node of an identity already seen. */
  function Duplicates(nodes: seq<Node>): seq<Defect> {
    if nodes == [] then [] else
      var before, last := nodes[..|nodes| - 1], nodes[|nodes| - 1];
      Duplicates(before) + (if last.id in Ids(before) then [Duplicate(last.id)] else [])
  }

  function EdgeDefect(id: TaskId, target: TaskId, known: set<TaskId>): seq<Defect> {
    if target == id then [SelfEdge(id)] else if target !in known then [UnknownEdge(id, target)] else []
  }

  function EdgeDefects(id: TaskId, edges: seq<TaskId>, known: set<TaskId>): seq<Defect> {
    if edges == [] then [] else
      EdgeDefects(id, edges[..|edges| - 1], known) + EdgeDefect(id, edges[|edges| - 1], known)
  }

  function BadEdges(nodes: seq<Node>, known: set<TaskId>): seq<Defect> {
    if nodes == [] then [] else
      BadEdges(nodes[..|nodes| - 1], known) + EdgeDefects(nodes[|nodes| - 1].id, nodes[|nodes| - 1].Edges(), known)
  }

  predicate UniqueIds(nodes: seq<Node>) {
    forall i, j | 0 <= i < j < |nodes| :: nodes[i].id != nodes[j].id
  }

  predicate GoodNode(n: Node, known: set<TaskId>) {
    forall target <- n.Edges() :: target != n.id && target in known
  }

  predicate GoodEdges(nodes: seq<Node>, known: set<TaskId>) {
    forall n <- nodes :: GoodNode(n, known)
  }

  lemma {:induction false} DuplicatesAreReported(nodes: seq<Node>)
    ensures Duplicates(nodes) == [] <==> UniqueIds(nodes)
  {
    if nodes != [] {
      var before, last := nodes[..|nodes| - 1], nodes[|nodes| - 1];
      DuplicatesAreReported(before);
      IdsAreTheNodes(before, last.id);
      if last.id in Ids(before) {
        var i :| 0 <= i < |before| && before[i].id == last.id;
        assert nodes[i].id == nodes[|nodes| - 1].id;
      } else {
        assert forall i | 0 <= i < |before| :: before[i].id != last.id;
      }
    }
  }

  lemma {:induction false} EdgeDefectsAreReported(id: TaskId, edges: seq<TaskId>, known: set<TaskId>)
    ensures EdgeDefects(id, edges, known) == [] <==> forall target <- edges :: target != id && target in known
  {
    if edges != [] {
      var before, last := edges[..|edges| - 1], edges[|edges| - 1];
      EdgeDefectsAreReported(id, before, known);
      assert EdgeDefects(id, edges, known) == EdgeDefects(id, before, known) + EdgeDefect(id, last, known);
      if EdgeDefects(id, edges, known) == [] {
        assert EdgeDefects(id, before, known) == [] && EdgeDefect(id, last, known) == [] by { EmptyParts(EdgeDefects(id, before, known), EdgeDefect(id, last, known)); }
        forall target | target in edges ensures target != id && target in known {
          assert target in before || target == last;
        }
      } else if EdgeDefects(id, before, known) != [] {
        var target :| target in before && !(target != id && target in known);
        assert target in edges;
      } else {
        assert last in edges;
      }
    }
  }

  lemma EmptyParts(a: seq<Defect>, b: seq<Defect>)
    ensures a + b == [] <==> a == [] && b == []
  {
    assert |a + b| == |a| + |b|;
  }

  lemma {:induction false} BadEdgesAreReported(nodes: seq<Node>, known: set<TaskId>)
    ensures BadEdges(nodes, known) == [] <==> GoodEdges(nodes, known)
  {
    if nodes != [] {
      var before, last := nodes[..|nodes| - 1], nodes[|nodes| - 1];
      BadEdgesAreReported(before, known);
      EdgeDefectsAreReported(last.id, last.Edges(), known);
      EmptyParts(BadEdges(before, known), EdgeDefects(last.id, last.Edges(), known));
      assert BadEdges(nodes, known) == BadEdges(before, known) + EdgeDefects(last.id, last.Edges(), known);
      assert GoodEdges(nodes, known) <==> GoodEdges(before, known) && GoodNode(last, known);
      assert forall n :: n in nodes <==> n in before || n == last;
    }
  }

  /** The node depends on `t` or reviews it. */
  predicate Names(n: Node, t: TaskId) {
    t in n.dependencies || n.reviewOf == Some(t)
  }

  /** The node's edge to `target` is the defect `d`: to itself, or to an id nobody knows. */
  predicate IsDefect(d: Defect, id: TaskId, target: TaskId, known: set<TaskId>) {
    if target == id then d == SelfEdge(id) else target !in known && d == UnknownEdge(id, target)
  }

  lemma {:induction false} EdgeDefectsIff(id: TaskId, edges: seq<TaskId>, known: set<TaskId>, d: Defect)
    ensures d in EdgeDefects(id, edges, known) <==> exists target <- edges :: IsDefect(d, id, target, known)
  {
    if edges != [] {
      var before, last := edges[..|edges| - 1], edges[|edges| - 1];
      EdgeDefectsIff(id, before, known, d);
      assert forall target :: target in edges <==> target in before || target == last;
      assert d in EdgeDefect(id, last, known) <==> IsDefect(d, id, last, known);
    }
  }

  ghost predicate NodeHas(n: Node, d: Defect, known: set<TaskId>) {
    exists target :: Names(n, target) && IsDefect(d, n.id, target, known)
  }

  lemma NodeDefectsIff(n: Node, known: set<TaskId>, d: Defect)
    ensures d in EdgeDefects(n.id, n.Edges(), known) <==> NodeHas(n, d, known)
  {
    EdgeDefectsIff(n.id, n.Edges(), known, d);
    assert forall t :: t in n.Edges() <==> Names(n, t);
    if NodeHas(n, d, known) {
      var target :| Names(n, target) && IsDefect(d, n.id, target, known);
      assert target in n.Edges();
    }
  }

  ghost predicate SomeNodeHas(nodes: seq<Node>, d: Defect, known: set<TaskId>) {
    exists n <- nodes :: NodeHas(n, d, known)
  }

  /** Which edges are reported, with the node they leave and the id they lead to, and nothing besides. */
  lemma {:induction false} BadEdgesIff(nodes: seq<Node>, known: set<TaskId>, d: Defect)
    ensures d in BadEdges(nodes, known) <==> SomeNodeHas(nodes, d, known)
  {
    if nodes != [] {
      var before, last := nodes[..|nodes| - 1], nodes[|nodes| - 1];
      BadEdgesIff(before, known, d);
      NodeDefectsIff(last, known, d);
      assert nodes == before + [last];
      if SomeNodeHas(before, d, known) {
        var n :| n in before && NodeHas(n, d, known);
        assert n in nodes;
      }
      if NodeHas(last, d, known) { assert last in nodes; }
    }
  }

  /** One duplicate for each node whose id came before, under that id. */
  lemma {:induction false} DuplicatesIff(nodes: seq<Node>, d: Defect)
    ensures d in Duplicates(nodes) <==> exists i, j :: 0 <= i < j < |nodes| && nodes[i].id == nodes[j].id && d == Duplicate(nodes[j].id)
    ensures |Duplicates(nodes)| + |Ids(nodes)| == |nodes|
  {
    if nodes != [] {
      var before, last := nodes[..|nodes| - 1], nodes[|nodes| - 1];
      DuplicatesIff(before, d);
      IdsAreTheNodes(before, last.id);
      if last.id in Ids(before) {
        assert Ids(before) + {last.id} == Ids(before);
        var i :| 0 <= i < |before| && before[i].id == last.id;
        assert nodes[i].id == nodes[|nodes| - 1].id;
      }
      forall i, j | 0 <= i < j < |before| ensures nodes[i] == before[i] && nodes[j] == before[j] {}
    }
  }

  /** With unique ids the links searched are the edges between different nodes of the graph. */
  lemma LinksIff(nodes: seq<Node>, a: TaskId, b: TaskId)
    requires UniqueIds(nodes)
    ensures Edge(Links(ById(nodes)), a, b) <==>
      a != b && (exists n <- nodes :: n.id == a && Names(n, b)) && exists n <- nodes :: n.id == b
  {
    ByIdIndexes(nodes);
    forall n | n in nodes ensures ById(nodes)[n.id] == n && forall t :: t in n.Edges() <==> Names(n, t) {
      var i :| 0 <= i < |nodes| && nodes[i] == n;
      var m := ById(nodes)[n.id];
      var j :| 0 <= j < |nodes| && nodes[j] == m;
      assert i == j;
    }
  }

  /** The ids an edge may lead to: those given, or else the nodes' own. */
  function Known(nodes: seq<Node>, known: Option<set<TaskId>>): set<TaskId> {
    match known
    case Some(ids) => ids
    case None => Ids(nodes)
  }

  /**
   * The duplicates and bad edges in order, then the cycles: one is reported
   * exactly when the graph has one through at least two nodes, and each
   * reported edge closes one. Nothing is reported exactly for unique
   * identities, known targets and an acyclic graph, and the finishing order then ranks it.
   */
  method TaskGraphDefects(nodes: seq<Node>, known: Option<set<TaskId>>)
    returns (defects: seq<Defect>, cycles: seq<Defect>, ghost rank: map<TaskId, nat>)
    ensures defects == Duplicates(nodes) + BadEdges(nodes, Known(nodes, known)) + cycles
    ensures forall c <- cycles :: c.Cycle? && Closes(Links(ById(nodes)), c.id, c.target)
    ensures cycles != [] <==> Cyclic(Links(ById(nodes)))
    ensures cycles == [] ==> Ranks(Links(ById(nodes)), rank)
    ensures defects == [] <==> UniqueIds(nodes) && GoodEdges(nodes, Known(nodes, known)) && !Cyclic(Links(ById(nodes)))
  {
    var knownIds := Known(nodes, known);
    var duplicates := FindDuplicates(nodes);
    var edges := FindBadEdges(nodes, knownIds);
    cycles, rank := Cycles(nodes);
    defects := duplicates + edges + cycles;
    DuplicatesAreReported(nodes);
    BadEdgesAreReported(nodes, knownIds);
  }

  method FindDuplicates(nodes: seq<Node>) returns (defects: seq<Defect>)
    ensures defects == Duplicates(nodes)
  {
    defects := [];
    var seen: set<TaskId> := {};
    for i := 0 to |nodes|
      invariant defects == Duplicates(nodes[..i])
      invariant seen == Ids(nodes[..i])
    {
      assert nodes[..i + 1][..i] == nodes[..i];
      if nodes[i].id in seen {
        defects := defects + [Duplicate(nodes[i].id)];
      }
      seen := seen + {nodes[i].id};
    }
    assert nodes[..|nodes|] == nodes;
  }

  method FindEdgeDefects(id: TaskId, edges: seq<TaskId>, known: set<TaskId>) returns (defects: seq<Defect>)
    ensures defects == EdgeDefects(id, edges, known)
  {
    defects := [];
    for j := 0 to |edges|
      invariant defects == EdgeDefects(id, edges[..j], known)
    {
      assert edges[..j + 1][..j] == edges[..j];
      defects := defects + EdgeDefect(id, edges[j], known);
    }
    assert edges[..|edges|] == edges;
  }

  method FindBadEdges(nodes: seq<Node>, known: set<TaskId>) returns (defects: seq<Defect>)
    ensures defects == BadEdges(nodes, known)
  {
    defects := [];
    for i := 0 to |nodes|
      invariant defects == BadEdges(nodes[..i], known)
    {
      assert nodes[..i + 1][..i] == nodes[..i];
      var found := FindEdgeDefects(nodes[i].id, nodes[i].Edges(), known);
      defects := defects + found;
    }
    assert nodes[..|nodes|] == nodes;
  }

  method Cycles(nodes: seq<Node>) returns (cycles: seq<Defect>, ghost rank: map<TaskId, nat>)
    ensures forall c <- cycles :: c.Cycle? && Closes(Links(ById(nodes)), c.id, c.target)
    ensures cycles != [] <==> Cyclic(Links(ById(nodes)))
    ensures cycles == [] ==> Ranks(Links(ById(nodes)), rank)
  {
    var g := ById(nodes);
    ByIdIndexes(nodes);
    var search := new Search(g);
    for i := 0 to |nodes|
      invariant search.Valid() && search.g == g && search.stack == [] && search.open == {}
      invariant forall j | 0 <= j < i :: nodes[j].id in search.done
    {
      search.Visit(nodes[i].id);
    }
    cycles, rank := search.cycles, search.rank;
    if cycles == [] {
      forall a, b | Edge(Links(g), a, b) ensures rank[b] < rank[a] {
        assert Ordered(g, rank, cycles, a, b);
      }
      RankedIsAcyclic(Links(g), rank);
    } else {
      ClosingEdgeIsCyclic(Links(g), cycles[0].id, cycles[0].target);
    }
  }
}
