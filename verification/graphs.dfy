/** The part of networkx that coupling_graph.py relies on: an undirected graph that
    remembers node and neighbour insertion order, the edge set it stands for,
    depth-first edge enumeration (`dfs_edges`), connected components, the
    component subgraph view, and the forest test (`is_forest`). */
module Graphs {

  type Node = int
  type Edge = (Node, Node)

  /** networkx.Graph: nodes in insertion order and, per node, its neighbours in
      insertion order (the order `G[u]` iterates in). */
  datatype Graph = Graph(nodes: seq<Node>, adj: map<Node, seq<Node>>)

  predicate NoDuplicates<T(==)>(s: seq<T>)
  {
    forall i, j :: 0 <= i < j < |s| ==> s[i] != s[j]
  }

  /** The shape every graph built by `add_edges_from` has: the node list and the
      adjacency keys agree, adjacency is symmetric, and no list repeats a node. */
  ghost predicate WellFormed(g: Graph)
  {
    && NoDuplicates(g.nodes)
    && (forall x :: x in g.nodes <==> x in g.adj)
    && AdjClosed(g)
    && (forall x, y :: x in g.adj && y in g.adj[x] ==> x in g.adj[y])
    && (forall x :: x in g.adj ==> NoDuplicates(g.adj[x]))
  }

  /** Every neighbour is itself a node of the graph. */
  ghost predicate AdjClosed(g: Graph)
  {
    forall x, y :: x in g.adj && y in g.adj[x] ==> y in g.adj
  }

  /** An undirected edge written with the smaller endpoint first. */
  function Norm(u: Node, v: Node): Edge
  {
    if u <= v then (u, v) else (v, u)
  }

  /** The undirected edges of the graph; a self-loop appears once, as networkx
      counts it once in `number_of_edges`. */
  function EdgeSet(g: Graph): set<Edge>
  {
    set x, y | x in g.adj && y in g.adj[x] :: Norm(x, y)
  }

  /** The edges with both endpoints in c. */
  function EdgesWithin(g: Graph, c: set<Node>): set<Edge>
  {
    set e | e in EdgeSet(g) && e.0 in c && e.1 in c
  }

  // ---------------------------------------------------------------------------
  // Construction (Graph.add_edges_from)
  // ---------------------------------------------------------------------------

  const Empty := Graph([], map[])

  function AppendNew(s: seq<Node>, x: Node): (r: seq<Node>)
    ensures x in r
    ensures forall y :: y in r <==> y in s || y == x
    ensures NoDuplicates(s) ==> NoDuplicates(r)
  {
    if x in s then s else s + [x]
  }

  function AddNode(g: Graph, x: Node): (r: Graph)
    ensures r.adj.Keys == g.adj.Keys + {x}
  {
    if x in g.adj then g else Graph(g.nodes + [x], g.adj[x := []])
  }

  /** One step of add_edges_from: add the endpoints that are new, then record each
      endpoint in the other's neighbour list unless it is already there. */
  function AddEdge(g: Graph, u: Node, v: Node): Graph
  {
    Link(AddNode(AddNode(g, u), v), u, v)
  }

  /** Record each of two present nodes in the other's neighbour list. */
  function Link(g: Graph, u: Node, v: Node): Graph
    requires u in g.adj && v in g.adj
  {
    var adj1 := g.adj[u := AppendNew(g.adj[u], v)];
    Graph(g.nodes, adj1[v := AppendNew(adj1[v], u)])
  }

  /** `G = nx.Graph(); G.add_edges_from(keys)`. */
  function Build(keys: seq<Edge>): Graph
  {
    if keys == [] then Empty
    else
      var last := keys[|keys| - 1];
      AddEdge(Build(keys[..|keys| - 1]), last.0, last.1)
  }

  function KeyEdges(keys: seq<Edge>): set<Edge>
  {
    set k | k in keys :: Norm(k.0, k.1)
  }

  function Endpoints(keys: seq<Edge>): set<Node>
  {
    (set k | k in keys :: k.0) + (set k | k in keys :: k.1)
  }

  lemma AddNodeWellFormed(g: Graph, x: Node)
    requires WellFormed(g)
    ensures WellFormed(AddNode(g, x))
    ensures EdgeSet(AddNode(g, x)) == EdgeSet(g)
    ensures forall y :: y in g.adj ==> AddNode(g, x).adj[y] == g.adj[y]
    ensures x !in g.adj ==> AddNode(g, x).adj[x] == []
  {
    if x !in g.adj {
      var r := AddNode(g, x);
      assert forall y :: y in r.nodes <==> y in g.nodes || y == x;
      assert forall y, z :: y in r.adj && z in r.adj[y] ==> y in g.adj && z in g.adj[y];
      assert EdgeSet(r) == EdgeSet(g) by {
        forall e | e in EdgeSet(r) ensures e in EdgeSet(g) {
          var y, z :| y in r.adj && z in r.adj[y] && e == Norm(y, z);
          assert y in g.adj && z in g.adj[y];
        }
      }
    }
  }

  /** Adding both endpoints keeps the shape and the edges. */
  lemma AddEndpoints(g: Graph, u: Node, v: Node)
    requires WellFormed(g)
    ensures var h := AddNode(AddNode(g, u), v);
      WellFormed(h) && EdgeSet(h) == EdgeSet(g) && h.adj.Keys == g.adj.Keys + {u, v}
  {
    AddNodeWellFormed(g, u);
    AddNodeWellFormed(AddNode(g, u), v);
  }

  /** The neighbour lists after linking u and v: the old lists, with v added to
      u's list and u to v's. */
  lemma LinkAdj(g: Graph, u: Node, v: Node)
    requires u in g.adj && v in g.adj
    ensures Link(g, u, v).nodes == g.nodes && Link(g, u, v).adj.Keys == g.adj.Keys
    ensures forall x, y :: x in g.adj ==>
      (y in Link(g, u, v).adj[x] <==> y in g.adj[x] || (x == u && y == v) || (x == v && y == u))
    ensures forall x :: x in g.adj && NoDuplicates(g.adj[x]) ==> NoDuplicates(Link(g, u, v).adj[x])
  {
    var adj1 := g.adj[u := AppendNew(g.adj[u], v)];
    var adj2 := adj1[v := AppendNew(adj1[v], u)];
    forall x | x in g.adj
      ensures adj2[x] == if x == v then AppendNew(adj1[v], u) else if x == u then AppendNew(g.adj[u], v) else g.adj[x]
    {
    }
  }

  lemma LinkWellFormed(g: Graph, u: Node, v: Node)
    requires WellFormed(g) && u in g.adj && v in g.adj
    ensures WellFormed(Link(g, u, v))
  {
    LinkAdj(g, u, v);
    var r := Link(g, u, v);
    forall x, y | x in r.adj && y in r.adj[x] ensures y in r.adj && x in r.adj[y] {
      if !(x == u && y == v) && !(x == v && y == u) {
        assert y in g.adj[x];
        assert x in g.adj[y];
      }
    }
  }

  lemma LinkEdges(g: Graph, u: Node, v: Node)
    requires u in g.adj && v in g.adj
    ensures EdgeSet(Link(g, u, v)) == EdgeSet(g) + {Norm(u, v)}
  {
    LinkAdj(g, u, v);
    var r := Link(g, u, v);
    forall e | e in EdgeSet(r) ensures e in EdgeSet(g) + {Norm(u, v)} {
      var x, y :| x in r.adj && y in r.adj[x] && e == Norm(x, y);
      if !(x == u && y == v) && !(x == v && y == u) {
        assert y in g.adj[x];
      } else if x == v && y == u {
        assert Norm(x, y) == Norm(u, v);
      }
    }
    assert Norm(u, v) in EdgeSet(r) by {
      assert u in r.adj && v in r.adj[u];
    }
    forall e | e in EdgeSet(g) ensures e in EdgeSet(r) {
      var x, y :| x in g.adj && y in g.adj[x] && e == Norm(x, y);
      assert x in r.adj && y in r.adj[x];
    }
  }

  lemma AddEdgeWellFormed(g: Graph, u: Node, v: Node)
    requires WellFormed(g)
    ensures WellFormed(AddEdge(g, u, v))
    ensures EdgeSet(AddEdge(g, u, v)) == EdgeSet(g) + {Norm(u, v)}
    ensures AddEdge(g, u, v).adj.Keys == g.adj.Keys + {u, v}
  {
    var h := AddNode(AddNode(g, u), v);
    AddEndpoints(g, u, v);
    LinkAdj(h, u, v);
    LinkWellFormed(h, u, v);
    LinkEdges(h, u, v);
  }

  lemma KeysSnoc(keys: seq<Edge>)
    requires keys != []
    ensures var init, last := keys[..|keys| - 1], keys[|keys| - 1];
      KeyEdges(keys) == KeyEdges(init) + {Norm(last.0, last.1)}
      && Endpoints(keys) == Endpoints(init) + {last.0, last.1}
  {
    var init, last := keys[..|keys| - 1], keys[|keys| - 1];
    assert keys == init + [last];
    assert forall k :: k in keys <==> k in init || k == last;
    assert (set k | k in keys :: k.0) == (set k | k in init :: k.0) + {last.0};
    assert (set k | k in keys :: k.1) == (set k | k in init :: k.1) + {last.1};
  }

  lemma EmptyFacts()
    ensures WellFormed(Empty) && EdgeSet(Empty) == {} && Empty.adj.Keys == {}
  {
  }

  /** One more key adds its edge and its endpoints to what the earlier keys built. */
  lemma AddKeyFacts(g: Graph, keys: seq<Edge>)
    requires keys != []
    requires var init := keys[..|keys| - 1];
      WellFormed(g) && EdgeSet(g) == KeyEdges(init) && g.adj.Keys == Endpoints(init)
    ensures var r := AddEdge(g, keys[|keys| - 1].0, keys[|keys| - 1].1);
      WellFormed(r) && EdgeSet(r) == KeyEdges(keys) && r.adj.Keys == Endpoints(keys)
  {
    var init, last := keys[..|keys| - 1], keys[|keys| - 1];
    AddEdgeWellFormed(g, last.0, last.1);
    KeysSnoc(keys);
  }

  lemma BuildSnoc(keys: seq<Edge>)
    requires keys != []
    ensures Build(keys) == AddEdge(Build(keys[..|keys| - 1]), keys[|keys| - 1].0, keys[|keys| - 1].1)
  {
  }

  /** What `add_edges_from` builds from the coupling keys: a well-formed graph whose
      nodes are the keys' endpoints and whose undirected edges are the keys, with
      (a, b) and (b, a) the same edge. */
  lemma {:induction false} BuildFacts(keys: seq<Edge>)
    ensures WellFormed(Build(keys))
    ensures EdgeSet(Build(keys)) == KeyEdges(keys)
    ensures Build(keys).adj.Keys == Endpoints(keys)
  {
    if keys == [] {
      EmptyFacts();
    } else {
      var init := keys[..|keys| - 1];
      var last := keys[|keys| - 1];
      BuildFacts(init);
      BuildSnoc(keys);
      AddKeyFacts(Build(init), keys);
    }
  }

  // ---------------------------------------------------------------------------
  // Depth-first edges (nx.dfs_edges with a source)
  // ---------------------------------------------------------------------------

  /** Edges emitted by a depth-first search and the nodes visited when it ends. */
  datatype Walk = Walk(edges: seq<Edge>, visited: set<Node>)

  lemma DiffShrinks(k: set<Node>, a: set<Node>, b: set<Node>)
    requires a <= b
    ensures |k - b| <= |k - a|
  {
    assert k - b <= k - a;
    SubsetCard(k - b, k - a);
  }

  lemma SubsetCard<T>(a: set<T>, b: set<T>)
    requires a <= b
    ensures |a| <= |b|
  {
    assert b == a + (b - a);
  }

  lemma SubsetEqualCard<T>(a: set<T>, b: set<T>)
    requires a <= b && |a| == |b|
    ensures a == b
  {
    assert b == a + (b - a);
    assert |b - a| == 0;
  }

  lemma DiffDrops(k: set<Node>, a: set<Node>, c: Node)
    requires c in k && c !in a
    ensures |k - (a + {c})| < |k - a|
  {
    assert k - a == (k - (a + {c})) + {c};
  }

  /** The search loop of dfs_edges, run for `parent` over its remaining
      neighbours `children`: an unvisited child yields (parent, child) and is
      searched before the next sibling is looked at. */
  function Visit(g: Graph, parent: Node, children: seq<Node>, visited: set<Node>): (w: Walk)
    requires AdjClosed(g)
    requires visited <= g.adj.Keys
    requires forall c :: c in children ==> c in g.adj
    ensures visited <= w.visited <= g.adj.Keys
    decreases |g.adj.Keys - visited|, |children|
  {
    if children == [] then Walk([], visited)
    else
      var c := children[0];
      if c in visited then Visit(g, parent, children[1..], visited)
      else
        DiffDrops(g.adj.Keys, visited, c);
        var sub := Visit(g, c, g.adj[c], visited + {c});
        DiffShrinks(g.adj.Keys, visited, sub.visited);
        var rest := Visit(g, parent, children[1..], sub.visited);
        Walk([(parent, c)] + sub.edges + rest.edges, rest.visited)
  }

  /** `list(nx.dfs_edges(G, source=root))`. */
  function DfsEdges(g: Graph, root: Node): seq<Edge>
    requires AdjClosed(g) && root in g.adj
  {
    Visit(g, root, g.adj[root], {root}).edges
  }

  /** The nodes a search from root reaches: root's connected component. */
  function Reach(g: Graph, root: Node): set<Node>
    requires AdjClosed(g) && root in g.adj
  {
    Visit(g, root, g.adj[root], {root}).visited
  }

  function Children(es: seq<Edge>): set<Node>
  {
    set e | e in es :: e.1
  }

  lemma ChildrenConcat(a: seq<Edge>, b: seq<Edge>)
    ensures Children(a + b) == Children(a) + Children(b)
  {
    assert forall e :: e in a + b <==> e in a || e in b;
  }

  function UndirectedSet(es: seq<Edge>): set<Edge>
  {
    set e | e in es :: Norm(e.0, e.1)
  }

  /** One unfolding of the search when a child remains and is new. */
  lemma VisitNewChild(g: Graph, parent: Node, children: seq<Node>, visited: set<Node>)
    requires AdjClosed(g)
    requires visited <= g.adj.Keys
    requires forall c :: c in children ==> c in g.adj
    requires children != [] && children[0] !in visited
    ensures var c := children[0];
      var sub := Visit(g, c, g.adj[c], visited + {c});
      var rest := Visit(g, parent, children[1..], sub.visited);
      Visit(g, parent, children, visited) == Walk([(parent, c)] + sub.edges + rest.edges, rest.visited)
  {
  }

  /** No pair of the list leads to a node of `visited`. */
  ghost predicate AvoidsAll(es: seq<Edge>, visited: set<Node>)
  {
    forall e :: e in es ==> e.1 !in visited
  }

  /** No node is the child of two pairs. */
  predicate DistinctChildren(es: seq<Edge>)
  {
    forall i, j :: 0 <= i < j < |es| ==> es[i].1 != es[j].1
  }

  /** Every pair is an edge of g. */
  ghost predicate InGraph(g: Graph, es: seq<Edge>)
  {
    forall e :: e in es ==> e.0 in g.adj && e.1 in g.adj[e.0]
  }

  /** Each pair's parent is `root` or the child of an earlier pair. */
  predicate ParentsFirst(root: Node, es: seq<Edge>)
  {
    forall i :: 0 <= i < |es| ==> es[i].0 == root || es[i].0 in Children(es[..i])
  }

  /** The step of VisitFresh that glues a new child's subtree and the rest. */
  lemma FreshGlue(parent: Node, c: Node, visited: set<Node>, sub: Walk, rest: Walk)
    requires c !in visited
    requires AvoidsAll(sub.edges, visited + {c}) && sub.visited == visited + {c} + Children(sub.edges)
    requires AvoidsAll(rest.edges, sub.visited) && rest.visited == sub.visited + Children(rest.edges)
    ensures AvoidsAll([(parent, c)] + sub.edges + rest.edges, visited)
    ensures rest.visited == visited + Children([(parent, c)] + sub.edges + rest.edges)
  {
    var es := [(parent, c)] + sub.edges + rest.edges;
    ChildrenConcat([(parent, c)], sub.edges);
    ChildrenConcat([(parent, c)] + sub.edges, rest.edges);
    assert Children([(parent, c)]) == {c};
    forall e | e in es ensures e.1 !in visited {
      assert e == (parent, c) || e in sub.edges || e in rest.edges;
    }
  }

  /** The children a search emits were not visited before it, and they are
      exactly the nodes it adds to the visited set. */
  lemma {:induction false} VisitFresh(g: Graph, parent: Node, children: seq<Node>, visited: set<Node>)
    requires AdjClosed(g)
    requires visited <= g.adj.Keys
    requires forall c :: c in children ==> c in g.adj
    ensures var w := Visit(g, parent, children, visited);
      AvoidsAll(w.edges, visited) && w.visited == visited + Children(w.edges)
    decreases |g.adj.Keys - visited|, |children|
  {
    if children == [] {
    } else {
      var c := children[0];
      if c in visited {
        assert Visit(g, parent, children, visited) == Visit(g, parent, children[1..], visited);
        VisitFresh(g, parent, children[1..], visited);
      } else {
        DiffDrops(g.adj.Keys, visited, c);
        var sub := Visit(g, c, g.adj[c], visited + {c});
        VisitFresh(g, c, g.adj[c], visited + {c});
        DiffShrinks(g.adj.Keys, visited, sub.visited);
        var rest := Visit(g, parent, children[1..], sub.visited);
        VisitFresh(g, parent, children[1..], sub.visited);
        VisitNewChild(g, parent, children, visited);
        FreshGlue(parent, c, visited, sub, rest);
      }
    }
  }

  /** The step of VisitDistinct. */
  lemma DistinctGlue(parent: Node, c: Node, visited: set<Node>, sub: Walk, rest: Walk)
    requires AvoidsAll(sub.edges, visited + {c}) && sub.visited == visited + {c} + Children(sub.edges)
    requires AvoidsAll(rest.edges, sub.visited)
    requires DistinctChildren(sub.edges) && DistinctChildren(rest.edges)
    ensures DistinctChildren([(parent, c)] + sub.edges + rest.edges)
  {
    var es := [(parent, c)] + sub.edges + rest.edges;
    var n := |sub.edges|;
    forall i, j | 0 <= i < j < |es| ensures es[i].1 != es[j].1 {
      if j <= n {
        assert es[j] == sub.edges[j - 1];
        assert es[j] in sub.edges;
        if i > 0 {
          assert es[i] == sub.edges[i - 1];
        }
      } else {
        assert es[j] == rest.edges[j - 1 - n];
        assert es[j] in rest.edges;
        if i == 0 {
          assert c in sub.visited;
        } else if i <= n {
          assert es[i] == sub.edges[i - 1];
          assert es[i] in sub.edges;
          assert es[i].1 in Children(sub.edges);
        } else {
          assert es[i] == rest.edges[i - 1 - n];
        }
      }
    }
  }

  /** No node is emitted as a child twice. */
  lemma {:induction false} VisitDistinct(g: Graph, parent: Node, children: seq<Node>, visited: set<Node>)
    requires AdjClosed(g)
    requires visited <= g.adj.Keys
    requires forall c :: c in children ==> c in g.adj
    ensures DistinctChildren(Visit(g, parent, children, visited).edges)
    decreases |g.adj.Keys - visited|, |children|
  {
    if children == [] {
    } else {
      var c := children[0];
      if c in visited {
        assert Visit(g, parent, children, visited) == Visit(g, parent, children[1..], visited);
        VisitDistinct(g, parent, children[1..], visited);
      } else {
        DiffDrops(g.adj.Keys, visited, c);
        var sub := Visit(g, c, g.adj[c], visited + {c});
        VisitDistinct(g, c, g.adj[c], visited + {c});
        VisitFresh(g, c, g.adj[c], visited + {c});
        DiffShrinks(g.adj.Keys, visited, sub.visited);
        var rest := Visit(g, parent, children[1..], sub.visited);
        VisitDistinct(g, parent, children[1..], sub.visited);
        VisitFresh(g, parent, children[1..], sub.visited);
        VisitNewChild(g, parent, children, visited);
        DistinctGlue(parent, c, visited, sub, rest);
      }
    }
  }

  /** The step of VisitOrdered. */
  lemma OrderedGlue(g: Graph, parent: Node, c: Node, sub: Walk, rest: Walk)
    requires parent in g.adj && c in g.adj[parent]
    requires InGraph(g, sub.edges) && ParentsFirst(c, sub.edges)
    requires InGraph(g, rest.edges) && ParentsFirst(parent, rest.edges)
    ensures InGraph(g, [(parent, c)] + sub.edges + rest.edges)
    ensures ParentsFirst(parent, [(parent, c)] + sub.edges + rest.edges)
  {
    var es := [(parent, c)] + sub.edges + rest.edges;
    var n := |sub.edges|;
    forall e | e in es ensures e.0 in g.adj && e.1 in g.adj[e.0] {
      assert e == (parent, c) || e in sub.edges || e in rest.edges;
    }
    forall i | 0 <= i < |es| ensures es[i].0 == parent || es[i].0 in Children(es[..i]) {
      if i == 0 {
      } else if i <= n {
        var k := i - 1;
        assert es[i] == sub.edges[k];
        assert es[..i] == [(parent, c)] + sub.edges[..k];
        ChildrenConcat([(parent, c)], sub.edges[..k]);
        assert Children([(parent, c)]) == {c};
      } else {
        var k := i - 1 - n;
        assert es[i] == rest.edges[k];
        assert es[..i] == ([(parent, c)] + sub.edges) + rest.edges[..k];
        ChildrenConcat([(parent, c)] + sub.edges, rest.edges[..k]);
      }
    }
  }

  /** Every emitted pair is an edge of the graph, and its parent is the search's own
      parent or a node discovered by an earlier pair: parents come before children. */
  lemma {:induction false} VisitOrdered(g: Graph, parent: Node, children: seq<Node>, visited: set<Node>)
    requires AdjClosed(g)
    requires visited <= g.adj.Keys
    requires parent in g.adj
    requires forall c :: c in children ==> c in g.adj[parent]
    ensures var w := Visit(g, parent, children, visited);
      InGraph(g, w.edges) && ParentsFirst(parent, w.edges)
    decreases |g.adj.Keys - visited|, |children|
  {
    if children == [] {
    } else {
      var c := children[0];
      if c in visited {
        assert Visit(g, parent, children, visited) == Visit(g, parent, children[1..], visited);
        VisitOrdered(g, parent, children[1..], visited);
      } else {
        DiffDrops(g.adj.Keys, visited, c);
        var sub := Visit(g, c, g.adj[c], visited + {c});
        VisitOrdered(g, c, g.adj[c], visited + {c});
        DiffShrinks(g.adj.Keys, visited, sub.visited);
        var rest := Visit(g, parent, children[1..], sub.visited);
        VisitOrdered(g, parent, children[1..], sub.visited);
        VisitNewChild(g, parent, children, visited);
        OrderedGlue(g, parent, c, sub, rest);
      }
    }
  }

  /** A set closed under adjacency. */
  ghost predicate Closed(g: Graph, s: set<Node>)
  {
    s <= g.adj.Keys && forall x, y :: x in s && y in g.adj[x] ==> y in s
  }

  /** When the search ends, every child it was given has been visited and every
      node it visited has had all its neighbours visited. */
  lemma {:induction false} VisitCloses(g: Graph, parent: Node, children: seq<Node>, visited: set<Node>)
    requires WellFormed(g)
    requires visited <= g.adj.Keys
    requires forall c :: c in children ==> c in g.adj
    ensures var w := Visit(g, parent, children, visited);
      && (forall c :: c in children ==> c in w.visited)
      && (forall x, y :: x in w.visited - visited && y in g.adj[x] ==> y in w.visited)
    decreases |g.adj.Keys - visited|, |children|
  {
    if children == [] {
    } else {
      var c := children[0];
      if c in visited {
        assert Visit(g, parent, children, visited) == Visit(g, parent, children[1..], visited);
        VisitCloses(g, parent, children[1..], visited);
      } else {
        DiffDrops(g.adj.Keys, visited, c);
        var sub := Visit(g, c, g.adj[c], visited + {c});
        VisitCloses(g, c, g.adj[c], visited + {c});
        DiffShrinks(g.adj.Keys, visited, sub.visited);
        var rest := Visit(g, parent, children[1..], sub.visited);
        VisitCloses(g, parent, children[1..], sub.visited);
        VisitNewChild(g, parent, children, visited);
      }
    }
  }

  /** The search never leaves a closed set that holds its start. */
  lemma {:induction false} VisitStaysInside(g: Graph, parent: Node, children: seq<Node>, visited: set<Node>, s: set<Node>)
    requires WellFormed(g)
    requires visited <= g.adj.Keys
    requires forall c :: c in children ==> c in g.adj
    requires Closed(g, s) && visited <= s
    requires forall c :: c in children ==> c in s
    ensures Visit(g, parent, children, visited).visited <= s
    decreases |g.adj.Keys - visited|, |children|
  {
    if children == [] {
    } else {
      var c := children[0];
      if c in visited {
        assert Visit(g, parent, children, visited) == Visit(g, parent, children[1..], visited);
        VisitStaysInside(g, parent, children[1..], visited, s);
      } else {
        DiffDrops(g.adj.Keys, visited, c);
        var sub := Visit(g, c, g.adj[c], visited + {c});
        VisitStaysInside(g, c, g.adj[c], visited + {c}, s);
        DiffShrinks(g.adj.Keys, visited, sub.visited);
        VisitStaysInside(g, parent, children[1..], sub.visited, s);
        VisitNewChild(g, parent, children, visited);
      }
    }
  }

  // ---------------------------------------------------------------------------
  // Reachability and components
  // ---------------------------------------------------------------------------

  lemma ReachFacts(g: Graph, r: Node)
    requires WellFormed(g) && r in g.adj
    ensures r in Reach(g, r)
    ensures Closed(g, Reach(g, r))
    ensures Reach(g, r) == {r} + Children(DfsEdges(g, r))
    ensures forall s :: Closed(g, s) && r in s ==> Reach(g, r) <= s
  {
    VisitCloses(g, r, g.adj[r], {r});
    VisitFresh(g, r, g.adj[r], {r});
    forall s | Closed(g, s) && r in s ensures Reach(g, r) <= s {
      VisitStaysInside(g, r, g.adj[r], {r}, s);
    }
  }

  /** The nodes outside a closed set form a closed set, because adjacency is
      symmetric. */
  lemma ComplementClosed(g: Graph, s: set<Node>)
    requires WellFormed(g) && Closed(g, s)
    ensures Closed(g, g.adj.Keys - s)
  {
  }

  /** Any node of a component reaches the same component. */
  lemma SameComponent(g: Graph, x: Node, y: Node)
    requires WellFormed(g) && x in g.adj && y in Reach(g, x)
    ensures y in g.adj
    ensures Reach(g, y) == Reach(g, x)
  {
    ReachFacts(g, x);
    ReachFacts(g, y);
    ComplementClosed(g, Reach(g, y));
  }

  /** The first node of each component, in node order, as connected_components
      finds them: a node opens a new component unless an earlier one reached it. */
  function RepsFrom(g: Graph, todo: seq<Node>, seen: set<Node>): (reps: seq<Node>)
    requires WellFormed(g)
    requires forall x :: x in todo ==> x in g.adj
    ensures forall x :: x in reps ==> x in todo
    decreases |todo|
  {
    if todo == [] then []
    else if todo[0] in seen then RepsFrom(g, todo[1..], seen)
    else [todo[0]] + RepsFrom(g, todo[1..], seen + Reach(g, todo[0]))
  }

  function Reps(g: Graph): seq<Node>
    requires WellFormed(g)
  {
    RepsFrom(g, g.nodes, {})
  }

  /** `list(nx.connected_components(G))`, as sets. */
  function Components(g: Graph): seq<set<Node>>
    requires WellFormed(g)
  {
    var reps := Reps(g);
    seq(|reps|, i requires 0 <= i < |reps| => Reach(g, reps[i]))
  }

  /** The nodes the components of `reps` hold together. */
  function Covered(g: Graph, reps: seq<Node>): set<Node>
    requires WellFormed(g)
    requires forall x :: x in reps ==> x in g.adj
  {
    if reps == [] then {} else Reach(g, reps[0]) + Covered(g, reps[1..])
  }

  lemma {:induction false} CoveredIndex(g: Graph, reps: seq<Node>, x: Node)
    requires WellFormed(g)
    requires forall y :: y in reps ==> y in g.adj
    requires x in Covered(g, reps)
    ensures exists i :: 0 <= i < |reps| && x in Reach(g, reps[i])
  {
    if x !in Reach(g, reps[0]) {
      CoveredIndex(g, reps[1..], x);
      var i :| 0 <= i < |reps[1..]| && x in Reach(g, reps[1..][i]);
      assert reps[i + 1] == reps[1..][i];
    }
  }

  /** Every node not yet seen lies in the component of some representative. */
  lemma {:induction false} RepsCover(g: Graph, todo: seq<Node>, seen: set<Node>)
    requires WellFormed(g)
    requires forall x :: x in todo ==> x in g.adj
    ensures forall x :: x in todo && x !in seen ==> x in Covered(g, RepsFrom(g, todo, seen))
    decreases |todo|
  {
    if todo != [] {
      assert forall x :: x in todo ==> x == todo[0] || x in todo[1..];
      if todo[0] in seen {
        RepsCover(g, todo[1..], seen);
      } else {
        var seen' := seen + Reach(g, todo[0]);
        RepsCover(g, todo[1..], seen');
        ReachFacts(g, todo[0]);
        var reps := RepsFrom(g, todo, seen);
        assert reps == [todo[0]] + RepsFrom(g, todo[1..], seen');
        assert reps[1..] == RepsFrom(g, todo[1..], seen');
        assert Covered(g, reps) == Reach(g, todo[0]) + Covered(g, RepsFrom(g, todo[1..], seen'));
      }
    }
  }

  lemma ComponentsCover(g: Graph, x: Node)
    requires WellFormed(g) && x in g.adj
    ensures exists i :: 0 <= i < |Components(g)| && x in Components(g)[i]
  {
    RepsCover(g, g.nodes, {});
    CoveredIndex(g, Reps(g), x);
    var i :| 0 <= i < |Reps(g)| && x in Reach(g, Reps(g)[i]);
    assert x in Components(g)[i];
  }

  /** `nx.is_forest(G)` on a non-empty graph: every component's subgraph has one
      edge fewer than it has nodes. */
  predicate IsForest(g: Graph)
    requires WellFormed(g)
  {
    var comps := Components(g);
    forall i :: 0 <= i < |comps| ==>
      |EdgeSet(Subgraph(g, comps[i]))| == |comps[i]| - 1
  }

  // ---------------------------------------------------------------------------
  // Subgraph view (G.subgraph(component))
  // ---------------------------------------------------------------------------

  function Filter(s: seq<Node>, c: set<Node>): (r: seq<Node>)
    ensures forall x :: x in r <==> x in s && x in c
    ensures NoDuplicates(s) ==> NoDuplicates(r)
  {
    if s == [] then []
    else
      var rest := Filter(s[1..], c);
      assert forall x :: x in s[1..] ==> x in s;
      if s[0] in c then [s[0]] + rest else rest
  }

  lemma {:induction false} FilterKeepsAll(s: seq<Node>, c: set<Node>)
    requires forall i :: 0 <= i < |s| ==> s[i] in c
    ensures Filter(s, c) == s
  {
    if s != [] {
      assert forall i :: 0 <= i < |s[1..]| ==> s[1..][i] == s[i + 1];
      FilterKeepsAll(s[1..], c);
    }
  }

  /** The subgraph induced by the chosen nodes: each neighbour list keeps its
      order, and the nodes are listed in G's order. (networkx lists a small
      subgraph view in the order of the node set itself.) */
  function Subgraph(g: Graph, c: set<Node>): (s: Graph)
    ensures WellFormed(g) && c <= g.adj.Keys ==> WellFormed(s) && s.adj.Keys == c
  {
    Graph(Filter(g.nodes, c), map x | x in g.adj && x in c :: Filter(g.adj[x], c))
  }

  lemma SubgraphEdgesWithin(g: Graph, c: set<Node>)
    ensures EdgeSet(Subgraph(g, c)) <= EdgesWithin(g, c)
  {
    var s := Subgraph(g, c);
    forall e | e in EdgeSet(s) ensures e in EdgesWithin(g, c) {
      var x, y :| x in s.adj && y in s.adj[x] && e == Norm(x, y);
      assert x in g.adj && y in g.adj[x] && x in c && y in c;
    }
  }

  lemma EdgesWithinSubgraph(g: Graph, c: set<Node>)
    ensures EdgesWithin(g, c) <= EdgeSet(Subgraph(g, c))
  {
    var s := Subgraph(g, c);
    forall e | e in EdgesWithin(g, c) ensures e in EdgeSet(s) {
      var x, y :| x in g.adj && y in g.adj[x] && e == Norm(x, y);
      assert x in s.adj && y in s.adj[x];
    }
  }

  lemma SubgraphFacts(g: Graph, c: set<Node>)
    requires WellFormed(g) && c <= g.adj.Keys
    ensures EdgeSet(Subgraph(g, c)) == EdgesWithin(g, c)
  {
    SubgraphEdgesWithin(g, c);
    EdgesWithinSubgraph(g, c);
  }

  lemma ClosedStep(g: Graph, c: set<Node>, x: Node, y: Node)
    requires Closed(g, c) && x in c && x in g.adj && y in g.adj[x]
    ensures y in c
  {
  }

  lemma ClosedSubgraphAdj(g: Graph, c: set<Node>)
    requires WellFormed(g) && Closed(g, c)
    ensures forall x :: x in c ==> Subgraph(g, c).adj[x] == g.adj[x]
  {
    forall x | x in c ensures Subgraph(g, c).adj[x] == g.adj[x] {
      forall i | 0 <= i < |g.adj[x]| ensures g.adj[x][i] in c {
        ClosedStep(g, c, x, g.adj[x][i]);
      }
      FilterKeepsAll(g.adj[x], c);
    }
  }

  /** Inside a closed node set, the search on the subgraph view is the search on
      the whole graph. */
  lemma {:induction false} VisitOnSubgraph(g: Graph, c: set<Node>, parent: Node, children: seq<Node>, visited: set<Node>)
    requires WellFormed(g) && Closed(g, c)
    requires visited <= c
    requires forall x :: x in children ==> x in c
    ensures Visit(Subgraph(g, c), parent, children, visited) == Visit(g, parent, children, visited)
    decreases |g.adj.Keys - visited|, |children|
  {
    ClosedSubgraphAdj(g, c);
    var s := Subgraph(g, c);
    if children != [] {
      var x := children[0];
      if x in visited {
        VisitOnSubgraph(g, c, parent, children[1..], visited);
      } else {
        DiffDrops(g.adj.Keys, visited, x);
        VisitOnSubgraph(g, c, x, g.adj[x], visited + {x});
        var sub := Visit(g, x, g.adj[x], visited + {x});
        VisitStaysInside(g, x, g.adj[x], visited + {x}, c);
        DiffShrinks(g.adj.Keys, visited, sub.visited);
        VisitOnSubgraph(g, c, parent, children[1..], sub.visited);
      }
    }
  }

  // ---------------------------------------------------------------------------
  // Depth-first trees
  // ---------------------------------------------------------------------------

  lemma ChildrenSnoc(es: seq<Edge>)
    requires es != []
    ensures Children(es) == Children(es[..|es| - 1]) + {es[|es| - 1].1}
  {
    var n := |es| - 1;
    assert es == es[..n] + [es[n]];
    ChildrenConcat(es[..n], [es[n]]);
    assert Children([es[n]]) == {es[n].1};
  }

  lemma DistinctDropLast(es: seq<Edge>)
    requires es != [] && DistinctChildren(es)
    ensures DistinctChildren(es[..|es| - 1]) && es[|es| - 1].1 !in Children(es[..|es| - 1])
  {
    var n := |es| - 1;
    var init := es[..n];
    forall i, j | 0 <= i < j < |init| ensures init[i].1 != init[j].1 {
      assert init[i] == es[i] && init[j] == es[j];
    }
    forall e | e in init ensures e.1 != es[n].1 {
      var k :| 0 <= k < |init| && init[k] == e;
      assert es[k] == e;
    }
  }

  lemma {:induction false} DistinctChildrenCard(es: seq<Edge>)
    requires DistinctChildren(es)
    ensures |Children(es)| == |es|
  {
    if es != [] {
      var init := es[..|es| - 1];
      DistinctDropLast(es);
      DistinctChildrenCard(init);
      ChildrenSnoc(es);
    }
  }

  /** Two pairs stand for the same undirected edge exactly when they are equal or
      reversed. */
  lemma NormSame(a: Edge, b: Edge)
    ensures Norm(a.0, a.1) == Norm(b.0, b.1) <==> a == b || (a.0 == b.1 && a.1 == b.0)
  {
  }

  lemma UndirectedSnoc(init: seq<Edge>, last: Edge)
    ensures UndirectedSet(init + [last]) == UndirectedSet(init) + {Norm(last.0, last.1)}
  {
    assert forall e :: e in init + [last] <==> e in init || e == last;
  }

  /** The facts a search's pairs have, for a prefix of them. */
  lemma TreePrefix(r: Node, es: seq<Edge>, n: nat)
    requires n <= |es|
    requires DistinctChildren(es) && ParentsFirst(r, es) && AvoidsAll(es, {r})
    ensures DistinctChildren(es[..n]) && ParentsFirst(r, es[..n]) && AvoidsAll(es[..n], {r})
  {
    var p := es[..n];
    forall i | 0 <= i < |p| ensures p[i].0 == r || p[i].0 in Children(p[..i]) {
      assert p[i] == es[i] && p[..i] == es[..i];
    }
    forall i, j | 0 <= i < j < |p| ensures p[i].1 != p[j].1 {
      assert p[i] == es[i] && p[j] == es[j];
    }
    forall e | e in p ensures e.1 !in {r} {
      assert e in es;
    }
  }

  /** The last pair of a parent-first list is no self-loop and is a new undirected
      edge. */
  lemma LastPairNew(r: Node, es: seq<Edge>)
    requires es != []
    requires DistinctChildren(es) && ParentsFirst(r, es) && AvoidsAll(es, {r})
    ensures var last := es[|es| - 1];
      last.0 != last.1 && Norm(last.0, last.1) !in UndirectedSet(es[..|es| - 1])
  {
    var n := |es| - 1;
    var init, last := es[..n], es[n];
    assert last in es;
    assert es[..n] == init;
    if last.0 != r {
      var f :| f in init && f.1 == last.0;
      var m :| 0 <= m < n && init[m] == f;
      assert es[m] == f;
    }
    forall e | e in init ensures Norm(e.0, e.1) != Norm(last.0, last.1) {
      var k :| 0 <= k < n && init[k] == e;
      assert es[k] == e && es[..k] == init[..k];
      NormSame(e, last);
    }
  }

  /** Pairs emitted parent-first, never returning to the root and never to a child
      seen before, stand for as many undirected edges as there are pairs, and none is
      a self-loop. */
  lemma {:induction false} TreePairsDistinct(r: Node, es: seq<Edge>)
    requires DistinctChildren(es) && ParentsFirst(r, es) && AvoidsAll(es, {r})
    ensures |UndirectedSet(es)| == |es|
    ensures forall e :: e in es ==> e.0 != e.1
  {
    if es != [] {
      var n := |es| - 1;
      var init, last := es[..n], es[n];
      assert es == init + [last];
      TreePrefix(r, es, n);
      TreePairsDistinct(r, init);
      UndirectedSnoc(init, last);
      LastPairNew(r, es);
    }
  }

  /** The pairs of the search from r are edges with both ends in r's component. */
  lemma TreeInside(g: Graph, r: Node)
    requires WellFormed(g) && r in g.adj
    ensures UndirectedSet(DfsEdges(g, r)) <= EdgesWithin(g, Reach(g, r))
  {
    var es := DfsEdges(g, r);
    VisitOrdered(g, r, g.adj[r], {r});
    ReachFacts(g, r);
    forall i | 0 <= i < |es| ensures Norm(es[i].0, es[i].1) in EdgesWithin(g, Reach(g, r)) {
      var e := es[i];
      assert e in es;
      assert e.0 in g.adj && e.1 in g.adj[e.0];
      assert Norm(e.0, e.1) in EdgeSet(g);
      assert e.1 in Children(es);
      if e.0 != r {
        assert e.0 in Children(es[..i]);
        var f :| f in es[..i] && f.1 == e.0;
        assert f in es;
      }
    }
  }

  /** The depth-first tree from r: one pair per node of the component except r,
      the pairs are distinct undirected edges inside the component, and none is a
      self-loop. */
  lemma TreeFacts(g: Graph, r: Node)
    requires WellFormed(g) && r in g.adj
    ensures |DfsEdges(g, r)| == |Reach(g, r)| - 1
    ensures |UndirectedSet(DfsEdges(g, r))| == |DfsEdges(g, r)|
    ensures UndirectedSet(DfsEdges(g, r)) <= EdgesWithin(g, Reach(g, r))
    ensures forall e :: e in DfsEdges(g, r) ==> e.0 != e.1
  {
    var es := DfsEdges(g, r);
    VisitFresh(g, r, g.adj[r], {r});
    VisitDistinct(g, r, g.adj[r], {r});
    VisitOrdered(g, r, g.adj[r], {r});
    DistinctChildrenCard(es);
    assert r !in Children(es);
    TreePairsDistinct(r, es);
    TreeInside(g, r);
  }

  /** A component passes the forest test (one edge fewer than nodes) exactly when
      the depth-first tree from any of its nodes uses every edge inside it. */
  lemma TreeSpansIff(g: Graph, r: Node)
    requires WellFormed(g) && r in g.adj
    ensures |EdgesWithin(g, Reach(g, r))| == |Reach(g, r)| - 1
        <==> UndirectedSet(DfsEdges(g, r)) == EdgesWithin(g, Reach(g, r))
  {
    TreeFacts(g, r);
    if |EdgesWithin(g, Reach(g, r))| == |Reach(g, r)| - 1 {
      SubsetEqualCard(UndirectedSet(DfsEdges(g, r)), EdgesWithin(g, Reach(g, r)));
    }
  }

  /** The search from a node of component c, run on the subgraph view of c, emits the
      same pairs as on the whole graph. */
  lemma DfsOnComponent(g: Graph, r0: Node, r: Node)
    requires WellFormed(g) && r0 in g.adj && r in Reach(g, r0)
    ensures r in g.adj && r in Subgraph(g, Reach(g, r0)).adj
    ensures DfsEdges(Subgraph(g, Reach(g, r0)), r) == DfsEdges(g, r)
  {
    var c := Reach(g, r0);
    ReachFacts(g, r0);
    ClosedSubgraphAdj(g, c);
    forall x | x in g.adj[r] ensures x in c {
      ClosedStep(g, c, r, x);
    }
    VisitOnSubgraph(g, c, r, g.adj[r], {r});
  }

  // ---------------------------------------------------------------------------
  // Components and the forest test
  // ---------------------------------------------------------------------------

  /** Each component is the (closed, non-empty) component of its representative. */
  lemma ComponentsFacts(g: Graph)
    requires WellFormed(g)
    ensures |Components(g)| == |Reps(g)|
    ensures forall i :: 0 <= i < |Reps(g)| ==>
      && Reps(g)[i] in g.adj
      && Components(g)[i] == Reach(g, Reps(g)[i])
      && Reps(g)[i] in Components(g)[i]
      && Closed(g, Components(g)[i])
  {
    var reps := Reps(g);
    forall i | 0 <= i < |reps|
      ensures reps[i] in g.adj && reps[i] in Reach(g, reps[i]) && Closed(g, Reach(g, reps[i]))
    {
      assert reps[i] in reps;
      ReachFacts(g, reps[i]);
    }
  }

  /** An edge lies inside the component of either endpoint, so every edge of the
      graph lies inside some component. */
  lemma EdgesInComponents(g: Graph)
    requires WellFormed(g)
    ensures forall e :: e in EdgeSet(g) <==>
      exists i :: 0 <= i < |Components(g)| && e in EdgesWithin(g, Components(g)[i])
  {
    var comps := Components(g);
    ComponentsFacts(g);
    forall e | e in EdgeSet(g)
      ensures exists i :: 0 <= i < |comps| && e in EdgesWithin(g, comps[i])
    {
      var x, y :| x in g.adj && y in g.adj[x] && e == Norm(x, y);
      ComponentsCover(g, x);
      var i :| 0 <= i < |comps| && x in comps[i];
      ClosedStep(g, comps[i], x, y);
      assert e in EdgesWithin(g, comps[i]);
    }
  }

  /** For a node r of component i, the edges inside the component are counted by
      the forest test exactly as the search from r sees them. */
  lemma ComponentTree(g: Graph, i: nat, r: Node)
    requires WellFormed(g) && i < |Components(g)| && r in Components(g)[i]
    ensures r in g.adj && Reach(g, r) == Components(g)[i]
    ensures |EdgeSet(Subgraph(g, Components(g)[i]))| == |Components(g)[i]| - 1
        <==> UndirectedSet(DfsEdges(g, r)) == EdgesWithin(g, Components(g)[i])
  {
    ComponentsFacts(g);
    var rep := Reps(g)[i];
    SameComponent(g, rep, r);
    SubgraphFacts(g, Components(g)[i]);
    TreeSpansIff(g, r);
  }

  /** `is_forest` holds exactly when, in every component, the depth-first tree from
      its first node uses every edge inside the component. */
  lemma ForestIffSpanningTrees(g: Graph)
    requires WellFormed(g)
    ensures IsForest(g) <==> forall i :: 0 <= i < |Components(g)| ==>
      UndirectedSet(DfsEdges(g, Reps(g)[i])) == EdgesWithin(g, Components(g)[i])
  {
    ComponentsFacts(g);
    forall i | 0 <= i < |Components(g)|
      ensures |EdgeSet(Subgraph(g, Components(g)[i]))| == |Components(g)[i]| - 1
          <==> UndirectedSet(DfsEdges(g, Reps(g)[i])) == EdgesWithin(g, Components(g)[i])
    {
      ComponentTree(g, i, Reps(g)[i]);
    }
  }

  lemma NoSelfLoopIn(es: seq<Edge>, x: Node)
    requires forall e :: e in es ==> e.0 != e.1
    ensures (x, x) !in UndirectedSet(es)
  {
  }

  /** A self-loop makes the graph fail the forest test: no depth-first tree edge is
      a self-loop. */
  lemma SelfLoopNotForest(g: Graph, x: Node)
    requires WellFormed(g) && (x, x) in EdgeSet(g)
    ensures !IsForest(g)
  {
    EdgesInComponents(g);
    var i :| 0 <= i < |Components(g)| && (x, x) in EdgesWithin(g, Components(g)[i]);
    ComponentsFacts(g);
    var r := Reps(g)[i];
    TreeFacts(g, r);
    NoSelfLoopIn(DfsEdges(g, r), x);
    assert UndirectedSet(DfsEdges(g, r)) != EdgesWithin(g, Components(g)[i]);
    ForestIffSpanningTrees(g);
  }
}
