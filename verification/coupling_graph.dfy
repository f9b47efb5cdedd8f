/** coupling_graph.py: the coupling setup (a list of node pairs) becomes an
    undirected graph; the graph must be a forest, and for every connected
    component a depth-first walk from a randomly chosen node lists the pairs in
    which coupling is to be applied, each parent before its children. */
module CouplingGraph {
  import opened Outcomes
  import opened Graphs

  /** The numpy generator's choice of an index into a node list, as a function of
      the list and the seed the generator was created with. */
  type Chooser = (seq<Node>, int) -> nat

  /** `random_state`: a fixed seed, or none, in which case every generator created
      draws fresh entropy (the k-th generator created gets `entropy(k)`). */
  datatype RandomState = Seeded(seed: int) | Unseeded(entropy: nat -> int)

  /** The seed of the k-th generator created from a random state. */
  function SeedOf(state: RandomState, k: nat): int
  {
    match state
    case Seeded(s) => s
    case Unseeded(entropy) => entropy(k)
  }

  /** `generate_walkaround_paths(tree, start_node, random_state)`. With no start
      node a generator seeded with `seed` chooses a node of the tree in node order
      (an index out of range wraps around). */
  function GenerateWalkaroundPaths(tree: Graph, start: Option<Node>, seed: int, choose: Chooser): (r: Result<seq<Edge>>)
    requires WellFormed(tree)
    ensures start.Some? ==> (r.Err? <==> start.value !in tree.adj)
    ensures start.Some? && r.Err? ==> r.error == StartNodeNotInGraph(start.value)
    ensures start.None? ==> (r.Err? <==> tree.nodes == [])
    ensures start.None? && r.Err? ==> r.error == ChoiceFromEmptyList
    ensures r.Ok? ==> exists root :: root in tree.adj && r.value == DfsEdges(tree, root)
    ensures r.Ok? && start.Some? ==> r.value == DfsEdges(tree, start.value)
  {
    match start
    case Some(root) =>
      if root in tree.adj then Ok(DfsEdges(tree, root)) else Err(StartNodeNotInGraph(root))
    case None =>
      if tree.nodes == [] then Err(ChoiceFromEmptyList)
      else
        var root := tree.nodes[choose(tree.nodes, seed) % |tree.nodes|];
        assert root in tree.nodes;
        Ok(DfsEdges(tree, root))
  }

  /** The walk of one component: the walkaround of its subgraph view. */
  function WalkOf(g: Graph, c: set<Node>, seed: int, choose: Chooser): Result<seq<Edge>>
    requires WellFormed(g) && c <= g.adj.Keys
  {
    GenerateWalkaroundPaths(Subgraph(g, c), None, seed, choose)
  }

  /** The walk attempt of every component, in component order. */
  function ComponentWalks(g: Graph, state: RandomState, choose: Chooser): (r: seq<Result<seq<Edge>>>)
    requires WellFormed(g)
    ensures |r| == |Components(g)|
  {
    ComponentsFacts(g);
    var comps := Components(g);
    seq(|comps|, k requires 0 <= k < |comps| => WalkOf(g, comps[k], SeedOf(state, k), choose))
  }

  /** `connecting_paths(coupling_setup, random_state)`: the graph of the coupling
      pairs and one walk per connected component; every component's walk creates
      its own generator from the same random_state. */
  function ConnectingPaths(keys: seq<Edge>, state: RandomState, choose: Chooser): (r: Result<(Graph, seq<seq<Edge>>)>)
    ensures r.Ok? ==> r.value.0 == Build(keys)
  {
    var g := Build(keys);
    BuildFacts(keys);
    if g.nodes == [] then Err(GraphHasNoNodes)
    else if !IsForest(g) then Err(GraphHasCycles)
    else
      var walks :- Collect(ComponentWalks(g, state, choose));
      Ok((g, walks))
  }

  /** The undirected edges a list of walks covers. */
  function WalkEdges(walks: seq<seq<Edge>>): set<Edge>
  {
    set i, e | 0 <= i < |walks| && e in walks[i] :: Norm(e.0, e.1)
  }

  /** w walks the tree on node set c: it uses every edge inside c exactly once,
      it has one pair per node but the root, and every pair's parent is the root or
      an earlier child, each node a child at most once. */
  ghost predicate IsTreeWalk(g: Graph, c: set<Node>, w: seq<Edge>)
  {
    && UndirectedSet(w) == EdgesWithin(g, c)
    && |w| == |c| - 1
    && exists root :: root in c && ParentsFirst(root, w) && DistinctChildren(w) && AvoidsAll(w, {root})
  }

  /** The walk of one component of a forest, drawn from the component's subgraph
      view, is a walk of the component's tree. */
  lemma ComponentWalk(g: Graph, i: nat, seed: int, choose: Chooser)
    requires WellFormed(g) && IsForest(g) && i < |Components(g)|
    ensures Components(g)[i] <= g.adj.Keys
    ensures var w := WalkOf(g, Components(g)[i], seed, choose);
      w.Ok? && IsTreeWalk(g, Components(g)[i], w.value)
  {
    ComponentsFacts(g);
    var c := Components(g)[i];
    var rep := Reps(g)[i];
    var sub := Subgraph(g, c);
    assert rep in sub.nodes;
    var root := sub.nodes[choose(sub.nodes, seed) % |sub.nodes|];
    assert root in sub.nodes;
    var w := GenerateWalkaroundPaths(sub, None, seed, choose);
    assert w == Ok(DfsEdges(sub, root));
    DfsOnComponent(g, rep, root);
    ComponentTree(g, i, root);
    TreeFacts(g, root);
    VisitOrdered(g, root, g.adj[root], {root});
    VisitDistinct(g, root, g.adj[root], {root});
    VisitFresh(g, root, g.adj[root], {root});
  }

  /** The walks of a forest together use exactly the coupling pairs, read as
      undirected edges. */
  lemma WalksCoverKeys(keys: seq<Edge>, walks: seq<seq<Edge>>)
    requires WellFormed(Build(keys)) && |walks| == |Components(Build(keys))|
    requires EdgeSet(Build(keys)) == KeyEdges(keys)
    requires forall i :: 0 <= i < |walks| ==>
      UndirectedSet(walks[i]) == EdgesWithin(Build(keys), Components(Build(keys))[i])
    ensures WalkEdges(walks) == KeyEdges(keys)
  {
    var g := Build(keys);
    EdgesInComponents(g);
    forall e | e in WalkEdges(walks) ensures e in KeyEdges(keys) {
      var i, f :| 0 <= i < |walks| && f in walks[i] && e == Norm(f.0, f.1);
      assert e in UndirectedSet(walks[i]);
    }
    forall e | e in KeyEdges(keys) ensures e in WalkEdges(walks) {
      var i :| 0 <= i < |Components(g)| && e in EdgesWithin(g, Components(g)[i]);
      assert e in UndirectedSet(walks[i]);
      var f :| f in walks[i] && e == Norm(f.0, f.1);
    }
  }

  /** The graph of a non-empty coupling has nodes. */
  lemma BuildHasNodes(keys: seq<Edge>)
    requires keys != []
    ensures WellFormed(Build(keys)) && Build(keys).nodes != []
  {
    BuildFacts(keys);
    assert keys[0].0 in Endpoints(keys);
    assert keys[0].0 in Build(keys).nodes;
  }

  /** On a forest every component's walk succeeds and walks its tree. */
  lemma ComponentWalksFacts(g: Graph, state: RandomState, choose: Chooser)
    requires WellFormed(g) && IsForest(g)
    ensures forall k :: 0 <= k < |Components(g)| ==>
      ComponentWalks(g, state, choose)[k].Ok? && IsTreeWalk(g, Components(g)[k], ComponentWalks(g, state, choose)[k].value)
  {
    forall k | 0 <= k < |Components(g)|
      ensures ComponentWalks(g, state, choose)[k].Ok? && IsTreeWalk(g, Components(g)[k], ComponentWalks(g, state, choose)[k].value)
    {
      ComponentWalk(g, k, SeedOf(state, k), choose);
    }
  }

  /** On a forest, connecting_paths returns one walk per component, each walking
      the component's tree, and together they use each coupling pair exactly once
      as an undirected edge. */
  lemma ConnectingPathsOk(keys: seq<Edge>, state: RandomState, choose: Chooser)
    requires keys != [] && WellFormed(Build(keys)) && IsForest(Build(keys))
    ensures var r := ConnectingPaths(keys, state, choose);
      && r.Ok?
      && |r.value.1| == |Components(r.value.0)|
      && (forall i :: 0 <= i < |r.value.1| ==> IsTreeWalk(r.value.0, Components(r.value.0)[i], r.value.1[i]))
      && WalkEdges(r.value.1) == KeyEdges(keys)
  {
    var g := Build(keys);
    BuildFacts(keys);
    ConnectingPathsValue(keys, state, choose);
    ComponentWalksFacts(g, state, choose);
    WalksCoverKeys(keys, Collect(ComponentWalks(g, state, choose)).value);
  }

  lemma ConnectingPathsValue(keys: seq<Edge>, state: RandomState, choose: Chooser)
    requires keys != [] && WellFormed(Build(keys)) && IsForest(Build(keys))
    ensures Collect(ComponentWalks(Build(keys), state, choose)).Ok?
    ensures ConnectingPaths(keys, state, choose) == Ok((Build(keys), Collect(ComponentWalks(Build(keys), state, choose)).value))
  {
    BuildHasNodes(keys);
    ComponentWalksFacts(Build(keys), state, choose);
  }

  /** connecting_paths fails exactly when the coupling is empty (networkx refuses
      to test an empty graph) or has a cycle. */
  lemma ConnectingPathsErrors(keys: seq<Edge>, state: RandomState, choose: Chooser)
    ensures WellFormed(Build(keys))
    ensures keys == [] ==> ConnectingPaths(keys, state, choose) == Err(GraphHasNoNodes)
    ensures keys != [] ==>
      (ConnectingPaths(keys, state, choose).Err? <==> !IsForest(Build(keys)))
    ensures keys != [] && ConnectingPaths(keys, state, choose).Err? ==>
      ConnectingPaths(keys, state, choose).error == GraphHasCycles
  {
    BuildFacts(keys);
    if keys != [] {
      BuildHasNodes(keys);
      if IsForest(Build(keys)) {
        ConnectingPathsOk(keys, state, choose);
      }
    } else {
      assert Build(keys).nodes == [];
    }
  }

  /** A coupling of a node with itself is a cycle and is rejected. */
  lemma SelfCouplingRejected(keys: seq<Edge>, state: RandomState, choose: Chooser, x: Node)
    requires (x, x) in keys
    ensures ConnectingPaths(keys, state, choose) == Err(GraphHasCycles)
  {
    BuildFacts(keys);
    assert Norm(x, x) in KeyEdges(keys);
    SelfLoopNotForest(Build(keys), x);
    BuildHasNodes(keys);
  }

  /** The tree of the walkaround test, as add_edges_from builds it, and the graphs
      after its first one, two and three pairs. */
  const TestTree := Graph([0, 1, 2, 3, 4], map[0 := [1, 2], 1 := [0, 3, 4], 2 := [0], 3 := [1], 4 := [1]])
  const TestTree1 := Graph([0, 1], map[0 := [1], 1 := [0]])
  const TestTree2 := Graph([0, 1, 2], map[0 := [1, 2], 1 := [0], 2 := [0]])
  const TestTree3 := Graph([0, 1, 2, 3], map[0 := [1, 2], 1 := [0, 3], 2 := [0], 3 := [1]])

  lemma BuildStep1()
    ensures AddEdge(Empty, 0, 1) == TestTree1
  {
    assert AddNode(Empty, 0) == Graph([0], map[0 := []]);
    assert AddNode(Graph([0], map[0 := []]), 1) == Graph([0, 1], map[0 := [], 1 := []]);
    assert AppendNew([], 1) == [1] && AppendNew([], 0) == [0];
    assert map[0 := [], 1 := []][0 := [1]] == map[0 := [1], 1 := []];
    assert map[0 := [1], 1 := []][1 := [0]] == TestTree1.adj;
  }

  lemma BuildStep2()
    ensures AddEdge(TestTree1, 0, 2) == TestTree2
  {
    assert AddNode(AddNode(TestTree1, 0), 2) == Graph([0, 1, 2], map[0 := [1], 1 := [0], 2 := []]);
    assert AppendNew([1], 2) == [1, 2] && AppendNew([], 0) == [0];
    assert map[0 := [1], 1 := [0], 2 := []][0 := [1, 2]] == map[0 := [1, 2], 1 := [0], 2 := []];
    assert map[0 := [1, 2], 1 := [0], 2 := []][2 := [0]] == TestTree2.adj;
  }

  lemma BuildStep3()
    ensures AddEdge(TestTree2, 1, 3) == TestTree3
  {
    assert AddNode(AddNode(TestTree2, 1), 3) == Graph([0, 1, 2, 3], map[0 := [1, 2], 1 := [0], 2 := [0], 3 := []]);
    assert AppendNew([0], 3) == [0, 3] && AppendNew([], 1) == [1];
    assert map[0 := [1, 2], 1 := [0], 2 := [0], 3 := []][1 := [0, 3]] == map[0 := [1, 2], 1 := [0, 3], 2 := [0], 3 := []];
    assert map[0 := [1, 2], 1 := [0, 3], 2 := [0], 3 := []][3 := [1]] == TestTree3.adj;
  }

  lemma BuildStep4()
    ensures AddEdge(TestTree3, 1, 4) == TestTree
  {
    assert AddNode(AddNode(TestTree3, 1), 4) == Graph([0, 1, 2, 3, 4], map[0 := [1, 2], 1 := [0, 3], 2 := [0], 3 := [1], 4 := []]);
    assert AppendNew([0, 3], 4) == [0, 3, 4] && AppendNew([], 1) == [1];
    assert map[0 := [1, 2], 1 := [0, 3], 2 := [0], 3 := [1], 4 := []][1 := [0, 3, 4]]
        == map[0 := [1, 2], 1 := [0, 3, 4], 2 := [0], 3 := [1], 4 := []];
    assert map[0 := [1, 2], 1 := [0, 3, 4], 2 := [0], 3 := [1], 4 := []][4 := [1]] == TestTree.adj;
  }

  lemma BuildExample()
    ensures Build([(0, 1), (0, 2), (1, 3), (1, 4)]) == TestTree
  {
    var keys := [(0, 1), (0, 2), (1, 3), (1, 4)];
    BuildStep1();
    BuildStep2();
    BuildStep3();
    BuildStep4();
    assert keys[..1] == [(0, 1)] && [(0, 1)][..0] == [];
    assert keys[..2] == [(0, 1), (0, 2)] && keys[..2][..1] == [(0, 1)];
    assert keys[..3] == [(0, 1), (0, 2), (1, 3)] && keys[..3][..2] == keys[..2];
    assert Build(keys[..1]) == TestTree1;
    assert Build(keys[..2]) == TestTree2;
    assert Build(keys[..3]) == TestTree3;
  }

  /** The search of the walkaround test from node 0: 1's subtree before 2, each
      neighbour list in insertion order. */
  lemma VisitExample()
    ensures AdjClosed(TestTree)
    ensures Visit(TestTree, 0, [1, 2], {0}) == Walk([(0, 1), (1, 3), (1, 4), (0, 2)], {0, 1, 2, 3, 4})
  {
    var g := TestTree;
    var all := {0, 1, 2, 3, 4};
    assert g.adj[0] == [1, 2] && g.adj[1] == [0, 3, 4] && g.adj[2] == [0] && g.adj[3] == [1] && g.adj[4] == [1];
    assert g.adj.Keys == all;
    assert AdjClosed(g);
    assert [1, 2][1..] == [2] && [0, 3, 4][1..] == [3, 4] && [3, 4][1..] == [4] && [4][1..] == [];
    assert [1][1..] == [] && [0][1..] == [] && [2][1..] == [];
    assert {0} + {1} == {0, 1} && {0, 1} + {3} == {0, 1, 3} && {0, 1, 3} + {4} == {0, 1, 3, 4};
    assert {0, 1, 3, 4} + {2} == all;
    assert Visit(g, 3, [1], {0, 1, 3}) == Walk([], {0, 1, 3});
    assert Visit(g, 4, [1], {0, 1, 3, 4}) == Walk([], {0, 1, 3, 4});
    assert Visit(g, 1, [4], {0, 1, 3}) == Walk([(1, 4)], {0, 1, 3, 4});
    assert Visit(g, 1, [3, 4], {0, 1}) == Walk([(1, 3), (1, 4)], {0, 1, 3, 4});
    assert Visit(g, 1, [0, 3, 4], {0, 1}) == Walk([(1, 3), (1, 4)], {0, 1, 3, 4});
    assert Visit(g, 2, [0], all) == Walk([], all);
    assert Visit(g, 0, [2], {0, 1, 3, 4}) == Walk([(0, 2)], all);
  }

  /** The walkaround test: the tree built from (0, 1), (0, 2), (1, 3), (1, 4) walked
      from node 0. */
  lemma WalkaroundExample()
    ensures WellFormed(TestTree)
    ensures GenerateWalkaroundPaths(TestTree, Some(0), 0, (nodes, seed) => 0) == Ok([(0, 1), (1, 3), (1, 4), (0, 2)])
  {
    BuildExample();
    BuildFacts([(0, 1), (0, 2), (1, 3), (1, 4)]);
    VisitExample();
  }

  /** The single-node test: the walk from the only node is empty. */
  lemma SingleNodeExample()
    ensures WellFormed(Graph([0], map[0 := []]))
    ensures GenerateWalkaroundPaths(Graph([0], map[0 := []]), Some(0), 0, (nodes, seed) => 0) == Ok([])
  {
  }
}
