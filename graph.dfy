/** The residual network: places, pipes, arcs with twin indices, and the
    builder that inserts an arc together with its residual twin
    (include/data_structures.h, source/graph_ops.cpp). */
module Graph {

  /** Per-unit cost charged for each priority level below the highest. */
  const PRIORITY_PENALTY: int := 1000

  /** The largest 32-bit signed integer; the source uses it as the
      bottleneck of the empty path at the search source. */
  const INT_MAX: int := 0x7fff_ffff

  /** A district. `balance` > 0 is a surplus, < 0 a deficit; `priority`
      runs from 1 (highest) to 5 (lowest). */
  datatype Place = Place(id: int, name: string, balance: int, priority: int, soil: string)

  /** One entry of the connection list: (from, to, capacity, cost). */
  datatype Connection = Connection(from: int, to: int, capacity: int, cost: int)

  /** One arc of the residual graph. `rev` is the index of the twin arc in
      the edge list of `to`: an index, not a reference. */
  datatype Edge = Edge(to: int, capacity: int, flow: int, cost: int, rev: int)

  /** The adjacency list, indexed by node id; insertion order matters. */
  type Network = seq<seq<Edge>>

  datatype Option<T> = None | Some(value: T)

  /** The `j`-th arc of node `u`. */
  datatype Hop = Hop(u: int, j: int)

  /** Result of one shortest-path search; {0, 0} is the "no path" sentinel. */
  datatype PathResult = PathResult(flow: int, cost: int)

  const NoPath: PathResult := PathResult(0, 0)

  function Residual(e: Edge): int { e.capacity - e.flow }

  /** The parts of an arc that never change once it is inserted. */
  function Frame(e: Edge): Edge { e.(flow := 0) }

  /** Every arc points at a node of the graph, and its twin index points
      into that node's edge list. */
  predicate WellFormed(g: Network)
  {
    forall u, j | 0 <= u < |g| && 0 <= j < |g[u]| ::
      0 <= g[u][j].to < |g| && 0 <= g[u][j].rev < |g[g[u][j].to]|
  }

  /** The twin of an arc leads back to the arc: twin(twin(e)) == e. */
  predicate TwinLinked(g: Network)
    requires WellFormed(g)
  {
    forall u, j | 0 <= u < |g| && 0 <= j < |g[u]| ::
      g[g[u][j].to][g[u][j].rev].to == u && g[g[u][j].to][g[u][j].rev].rev == j
  }

  /** flow(e) + flow(twin(e)) == 0 for every arc. */
  predicate Antisymmetric(g: Network)
    requires WellFormed(g)
  {
    forall u, j | 0 <= u < |g| && 0 <= j < |g[u]| ::
      g[u][j].flow + g[g[u][j].to][g[u][j].rev].flow == 0
  }

  /** `h` differs from `g` at most in the flows of its arcs. */
  predicate SameShape(g: Network, h: Network)
  {
    && |g| == |h|
    && (forall u | 0 <= u < |g| :: |g[u]| == |h[u]|)
    && (forall u, j | 0 <= u < |g| && 0 <= j < |g[u]| && j < |h[u]| :: Frame(g[u][j]) == Frame(h[u][j]))
  }

  predicate ZeroFlow(g: Network)
  {
    forall u, j | 0 <= u < |g| && 0 <= j < |g[u]| :: g[u][j].flow == 0
  }

  /** add_edge: appends the forward arc u->v (capacity `cap`, cost `cost`)
      to u's list, then the residual arc v->u (capacity 0, cost -cost) to
      v's list. The forward arc's twin index is |g[v]| read BEFORE the first
      append, so for a self-loop it names the forward arc itself. */
  function AddEdge(g: Network, u: int, v: int, cap: int, cost: int): (r: Network)
    requires 0 <= u < |g| && 0 <= v < |g|
    ensures |r| == |g|
    ensures forall x | 0 <= x < |g| && x != u && x != v :: r[x] == g[x]
    ensures u != v ==> r[u] == g[u] + [Edge(v, cap, 0, cost, |g[v]|)]
    ensures u != v ==> r[v] == g[v] + [Edge(u, 0, 0, -cost, |g[u]|)]
    ensures u == v ==> r[u] == g[u] + [Edge(u, cap, 0, cost, |g[u]|), Edge(u, 0, 0, -cost, |g[u]|)]
  {
    var forward := Edge(v, cap, 0, cost, |g[v]|);
    var g1 := g[u := g[u] + [forward]];
    var backward := Edge(u, 0, 0, -cost, |g1[u]| - 1);
    g1[v := g1[v] + [backward]]
  }

  /** Appending arcs keeps every old arc and its twin index valid. */
  lemma AddEdgeWellFormed(g: Network, u: int, v: int, cap: int, cost: int)
    requires WellFormed(g) && 0 <= u < |g| && 0 <= v < |g|
    ensures WellFormed(AddEdge(g, u, v, cap, cost))
    ensures forall x, j | 0 <= x < |g| && 0 <= j < |g[x]| :: AddEdge(g, u, v, cap, cost)[x][j] == g[x][j]
  {
    var r: Network := AddEdge(g, u, v, cap, cost);
    forall x, j | 0 <= x < |g| && 0 <= j < |g[x]|
      ensures r[x][j] == g[x][j]
    {
      if x == u || x == v {
        assert r[x][..|g[x]|] == g[x];
      }
    }
  }

  /** With u != v the new pair is linked both ways and old links survive. */
  lemma AddEdgeTwinLinked(g: Network, u: int, v: int, cap: int, cost: int)
    requires WellFormed(g) && TwinLinked(g) && 0 <= u < |g| && 0 <= v < |g| && u != v
    ensures WellFormed(AddEdge(g, u, v, cap, cost))
    ensures TwinLinked(AddEdge(g, u, v, cap, cost))
  {
    AddEdgeWellFormed(g, u, v, cap, cost);
    var r: Network := AddEdge(g, u, v, cap, cost);
    forall x, j | 0 <= x < |r| && 0 <= j < |r[x]|
      ensures r[r[x][j].to][r[x][j].rev].to == x && r[r[x][j].to][r[x][j].rev].rev == j
    {
      if j < |g[x]| {
        var e := g[x][j];
        assert r[x][j] == e;
        assert r[e.to][e.rev] == g[e.to][e.rev];
      } else if x == u {
        assert r[x][j] == Edge(v, cap, 0, cost, |g[v]|);
        assert r[v][|g[v]|] == Edge(u, 0, 0, -cost, |g[u]|);
      } else {
        assert x == v && r[x][j] == Edge(u, 0, 0, -cost, |g[u]|);
        assert r[u][|g[u]|] == Edge(v, cap, 0, cost, |g[v]|);
      }
    }
  }

  /** A self-loop breaks twin linkage: the residual arc's twin is the
      forward arc, whose twin is itself, not the residual arc. */
  lemma SelfLoopBreaksTwinLink(g: Network, u: int, cap: int, cost: int)
    requires WellFormed(g) && 0 <= u < |g|
    ensures WellFormed(AddEdge(g, u, u, cap, cost))
    ensures !TwinLinked(AddEdge(g, u, u, cap, cost))
  {
    AddEdgeWellFormed(g, u, u, cap, cost);
    var r: Network := AddEdge(g, u, u, cap, cost);
    var k := |g[u]|;
    assert r[u][k + 1].to == u && r[u][k + 1].rev == k;
    assert r[r[u][k + 1].to][r[u][k + 1].rev].rev != k + 1;
  }

  /** New arcs carry no flow, so antisymmetry survives an insertion. */
  lemma AddEdgeAntisymmetric(g: Network, u: int, v: int, cap: int, cost: int)
    requires WellFormed(g) && Antisymmetric(g) && 0 <= u < |g| && 0 <= v < |g|
    ensures WellFormed(AddEdge(g, u, v, cap, cost))
    ensures Antisymmetric(AddEdge(g, u, v, cap, cost))
    ensures ZeroFlow(g) ==> ZeroFlow(AddEdge(g, u, v, cap, cost))
  {
    AddEdgeWellFormed(g, u, v, cap, cost);
    var r: Network := AddEdge(g, u, v, cap, cost);
    forall x, j | 0 <= x < |r| && 0 <= j < |r[x]|
      ensures r[x][j].flow + r[r[x][j].to][r[x][j].rev].flow == 0
    {
      if j < |g[x]| {
        var e := g[x][j];
        assert r[x][j] == e;
        assert r[e.to][e.rev] == g[e.to][e.rev];
      } else {
        NewArcsCarryNoFlow(g, u, v, cap, cost, x, j);
      }
    }
    if ZeroFlow(g) {
      forall x, j | 0 <= x < |r| && 0 <= j < |r[x]|
        ensures r[x][j].flow == 0
      {
        if j >= |g[x]| {
          NewArcsCarryNoFlow(g, u, v, cap, cost, x, j);
        }
      }
    }
  }

  /** An arc appended by AddEdge has flow 0, and so has its twin. */
  lemma NewArcsCarryNoFlow(g: Network, u: int, v: int, cap: int, cost: int, x: int, j: int)
    requires WellFormed(g) && 0 <= u < |g| && 0 <= v < |g|
    requires 0 <= x < |g| && |g[x]| <= j < |AddEdge(g, u, v, cap, cost)[x]|
    ensures WellFormed(AddEdge(g, u, v, cap, cost))
    ensures AddEdge(g, u, v, cap, cost)[x][j].flow == 0
    ensures var r := AddEdge(g, u, v, cap, cost); r[r[x][j].to][r[x][j].rev].flow == 0
  {
    AddEdgeWellFormed(g, u, v, cap, cost);
    var r: Network := AddEdge(g, u, v, cap, cost);
    if u == v {
      assert r[u][|g[u]|].flow == 0 && r[u][|g[u]| + 1].flow == 0;
    } else {
      assert r[u][|g[u]|].flow == 0 && r[v][|g[v]|].flow == 0;
    }
  }

  /** Well-formedness and twin linkage depend on the shape only. */
  lemma SameShapeKeepsLinks(g: Network, h: Network)
    requires SameShape(g, h) && WellFormed(g)
    ensures WellFormed(h)
    ensures TwinLinked(g) ==> TwinLinked(h)
  {
    forall u, j | 0 <= u < |h| && 0 <= j < |h[u]|
      ensures 0 <= h[u][j].to < |h| && 0 <= h[u][j].rev < |h[h[u][j].to]|
    {
      assert Frame(g[u][j]) == Frame(h[u][j]);
    }
    if TwinLinked(g) {
      forall u, j | 0 <= u < |h| && 0 <= j < |h[u]|
        ensures h[h[u][j].to][h[u][j].rev].to == u && h[h[u][j].to][h[u][j].rev].rev == j
      {
        assert Frame(g[u][j]) == Frame(h[u][j]);
        var e := g[u][j];
        assert Frame(g[e.to][e.rev]) == Frame(h[e.to][e.rev]);
      }
    }
  }

  lemma SameShapeTrans(a: Network, b: Network, c: Network)
    requires SameShape(a, b) && SameShape(b, c)
    ensures SameShape(a, c)
  {
  }
}
