/** The analysis driver (source/analysis.cpp): the network built from the
    places and connections, the solver run on it, and the read-only queries
    on the resulting flow (path tracing, transfer checks, bottlenecks). */
module Analysis {
  import opened Graph
  import opened Solver

  // ---------------------------------------------------------------------
  // Network construction

  /** Connection endpoints all name nodes below `n`. */
  predicate InRange(reqs: seq<Connection>, n: int)
  {
    forall k | 0 <= k < |reqs| :: 0 <= reqs[k].from < n && 0 <= reqs[k].to < n
  }

  predicate NoSelfLoops(reqs: seq<Connection>)
  {
    forall k | 0 <= k < |reqs| :: reqs[k].from != reqs[k].to
  }

  /** What the loader hands over: place ids equal their list positions, and
      every connection names two loaded places. */
  predicate Loaded(places: seq<Place>, conns: seq<Connection>)
  {
    && (forall i | 0 <= i < |places| :: places[i].id == i)
    && InRange(conns, |places|)
  }

  /** `n` nodes with empty edge lists. */
  function Empty(n: nat): (g: Network)
    ensures |g| == n && WellFormed(g) && TwinLinked(g) && ZeroFlow(g) && Antisymmetric(g)
  {
    seq(n, _ => [])
  }

  /** add_edge applied to each request in order. */
  function AddAll(g: Network, reqs: seq<Connection>): (r: Network)
    requires InRange(reqs, |g|)
    ensures |r| == |g|
  {
    if |reqs| == 0 then g
    else
      var c := reqs[|reqs| - 1];
      AddEdge(AddAll(g, reqs[..|reqs| - 1]), c.from, c.to, c.capacity, c.cost)
  }

  /** Per-unit cost of delivering to a deficit place: one
      PRIORITY_PENALTY per level below the highest priority. */
  function PenaltyCost(p: Place): (c: int)
    ensures c == 0 <==> p.priority == 1
    ensures c % PRIORITY_PENALTY == 0
    ensures 1 <= p.priority <= 5 ==> 0 <= c <= 4 * PRIORITY_PENALTY
  {
    (p.priority - 1) * PRIORITY_PENALTY
  }

  /** The super arc run_analysis adds for a place with a non-zero balance:
      S -> p with capacity = balance and cost 0 for a surplus, p -> T with
      capacity = |balance| and cost PenaltyCost(p) for a deficit. S is node
      n, T is node n + 1. */
  function SuperConn(p: Place, n: int): (c: Connection)
    requires 0 <= p.id < n
    ensures 0 <= c.from < n + 2 && 0 <= c.to < n + 2 && c.from != c.to
  {
    if p.balance > 0 then Connection(n, p.id, p.balance, 0)
    else Connection(p.id, n + 1, -p.balance, PenaltyCost(p))
  }

  /** One place's contribution; a zero balance adds nothing. */
  function AddSuper(g: Network, p: Place, n: int): (r: Network)
    requires |g| == n + 2 && 0 <= p.id < n
    ensures |r| == |g|
    ensures p.balance == 0 ==> r == g
    ensures forall x | 0 <= x < n && x != p.id :: r[x] == g[x]
  {
    if p.balance == 0 then g
    else var c := SuperConn(p, n); AddEdge(g, c.from, c.to, c.capacity, c.cost)
  }

  predicate IdsBelow(places: seq<Place>, n: int)
  {
    forall i | 0 <= i < |places| :: 0 <= places[i].id < n
  }

  /** Some entry of `places` has ID `x`. */
  predicate Named(places: seq<Place>, x: int)
  {
    exists i | 0 <= i < |places| :: places[i].id == x
  }

  /** AddSuper for each place in list order. */
  function AddSupers(g: Network, places: seq<Place>, n: int): (r: Network)
    requires |g| == n + 2 && IdsBelow(places, n)
    ensures |r| == |g|
    ensures forall x | 0 <= x < n && !Named(places, x) :: r[x] == g[x]
  {
    if |places| == 0 then g
    else AddSuper(AddSupers(g, places[..|places| - 1], n), places[|places| - 1], n)
  }

  /** Sum of the surpluses (total_available). */
  function SurplusSum(places: seq<Place>): int
  {
    if |places| == 0 then 0
    else SurplusSum(places[..|places| - 1]) + (if places[|places| - 1].balance > 0 then places[|places| - 1].balance else 0)
  }

  /** Sum of the deficits, as positive amounts (total_required). */
  function DeficitSum(places: seq<Place>): int
  {
    if |places| == 0 then 0
    else DeficitSum(places[..|places| - 1]) + (if places[|places| - 1].balance < 0 then -places[|places| - 1].balance else 0)
  }

  /** The network run_analysis hands to the solver: the connections in
      list order, then the super arcs place by place. */
  function Built(places: seq<Place>, conns: seq<Connection>): (g: Network)
    requires Loaded(places, conns)
    ensures |g| == |places| + 2
  {
    var n := |places|;
    AddSupers(AddAll(Empty(n + 2), conns), places, n)
  }

  /** The requests keep the network well formed, antisymmetric and free of
      flow; without self-loops they keep it twin-linked. */
  lemma {:induction false} AddAllKeeps(g: Network, reqs: seq<Connection>)
    requires WellFormed(g) && InRange(reqs, |g|)
    ensures WellFormed(AddAll(g, reqs))
    ensures Antisymmetric(g) ==> Antisymmetric(AddAll(g, reqs))
    ensures Antisymmetric(g) && ZeroFlow(g) ==> ZeroFlow(AddAll(g, reqs))
    ensures TwinLinked(g) && NoSelfLoops(reqs) ==> TwinLinked(AddAll(g, reqs))
  {
    if |reqs| > 0 {
      var c := reqs[|reqs| - 1];
      var h := AddAll(g, reqs[..|reqs| - 1]);
      AddAllKeeps(g, reqs[..|reqs| - 1]);
      AddEdgeWellFormed(h, c.from, c.to, c.capacity, c.cost);
      if Antisymmetric(g) {
        AddEdgeAntisymmetric(h, c.from, c.to, c.capacity, c.cost);
      }
      if TwinLinked(g) && NoSelfLoops(reqs) {
        AddEdgeTwinLinked(h, c.from, c.to, c.capacity, c.cost);
      }
    }
  }

  /** A node no request touches keeps its edge list. */
  lemma {:induction false} AddAllUntouched(g: Network, reqs: seq<Connection>, x: int)
    requires InRange(reqs, |g|) && 0 <= x < |g|
    requires forall k | 0 <= k < |reqs| :: reqs[k].from != x && reqs[k].to != x
    ensures AddAll(g, reqs)[x] == g[x]
  {
    if |reqs| > 0 {
      AddAllUntouched(g, reqs[..|reqs| - 1], x);
    }
  }

  /** One place's super arcs keep the network well formed. */
  lemma AddSuperWellFormed(g: Network, p: Place, n: int)
    requires |g| == n + 2 && 0 <= p.id < n && WellFormed(g)
    ensures WellFormed(AddSuper(g, p, n))
  {
    if p.balance != 0 {
      var c := SuperConn(p, n);
      AddEdgeWellFormed(g, c.from, c.to, c.capacity, c.cost);
    }
  }

  lemma AddSuperAntisymmetric(g: Network, p: Place, n: int)
    requires |g| == n + 2 && 0 <= p.id < n && WellFormed(g) && Antisymmetric(g)
    ensures WellFormed(AddSuper(g, p, n)) && Antisymmetric(AddSuper(g, p, n))
  {
    AddSuperWellFormed(g, p, n);
    if p.balance != 0 {
      var c := SuperConn(p, n);
      AddEdgeAntisymmetric(g, c.from, c.to, c.capacity, c.cost);
    }
  }

  /** Super arcs are never self-loops, so they keep twins linked. */
  lemma AddSuperTwinLinked(g: Network, p: Place, n: int)
    requires |g| == n + 2 && 0 <= p.id < n && WellFormed(g) && TwinLinked(g)
    ensures WellFormed(AddSuper(g, p, n)) && TwinLinked(AddSuper(g, p, n))
  {
    AddSuperWellFormed(g, p, n);
    if p.balance != 0 {
      var c := SuperConn(p, n);
      AddEdgeTwinLinked(g, c.from, c.to, c.capacity, c.cost);
    }
  }

  lemma AddSuperZeroFlow(g: Network, p: Place, n: int)
    requires |g| == n + 2 && 0 <= p.id < n && ZeroFlow(g)
    ensures ZeroFlow(AddSuper(g, p, n))
  {
  }

  lemma {:induction false} AddSupersWellFormed(g: Network, places: seq<Place>, n: int)
    requires |g| == n + 2 && IdsBelow(places, n) && WellFormed(g)
    ensures WellFormed(AddSupers(g, places, n))
  {
    if |places| > 0 {
      var pre := places[..|places| - 1];
      AddSupersWellFormed(g, pre, n);
      AddSuperWellFormed(AddSupers(g, pre, n), places[|places| - 1], n);
    }
  }

  lemma {:induction false} AddSupersAntisymmetric(g: Network, places: seq<Place>, n: int)
    requires |g| == n + 2 && IdsBelow(places, n) && WellFormed(g) && Antisymmetric(g)
    ensures WellFormed(AddSupers(g, places, n)) && Antisymmetric(AddSupers(g, places, n))
  {
    if |places| > 0 {
      var pre := places[..|places| - 1];
      AddSupersAntisymmetric(g, pre, n);
      AddSuperAntisymmetric(AddSupers(g, pre, n), places[|places| - 1], n);
    }
  }

  lemma {:induction false} AddSupersTwinLinked(g: Network, places: seq<Place>, n: int)
    requires |g| == n + 2 && IdsBelow(places, n) && WellFormed(g) && TwinLinked(g)
    ensures WellFormed(AddSupers(g, places, n)) && TwinLinked(AddSupers(g, places, n))
  {
    if |places| > 0 {
      var pre := places[..|places| - 1];
      AddSupersTwinLinked(g, pre, n);
      AddSuperTwinLinked(AddSupers(g, pre, n), places[|places| - 1], n);
    }
  }

  lemma {:induction false} AddSupersZeroFlow(g: Network, places: seq<Place>, n: int)
    requires |g| == n + 2 && IdsBelow(places, n) && ZeroFlow(g)
    ensures ZeroFlow(AddSupers(g, places, n))
  {
    if |places| > 0 {
      var pre := places[..|places| - 1];
      AddSupersZeroFlow(g, pre, n);
      AddSuperZeroFlow(AddSupers(g, pre, n), places[|places| - 1], n);
    }
  }

  /** The built network is well formed, carries no flow, is antisymmetric,
      and, when no connection is a self-loop, twin-linked. */
  lemma BuiltIsSound(places: seq<Place>, conns: seq<Connection>)
    requires Loaded(places, conns)
    ensures WellFormed(Built(places, conns)) && ZeroFlow(Built(places, conns))
    ensures Antisymmetric(Built(places, conns))
    ensures NoSelfLoops(conns) ==> TwinLinked(Built(places, conns))
  {
    var n := |places|;
    var h := AddAll(Empty(n + 2), conns);
    AddAllKeeps(Empty(n + 2), conns);
    AddSupersWellFormed(h, places, n);
    AddSupersAntisymmetric(h, places, n);
    AddSupersZeroFlow(h, places, n);
    if NoSelfLoops(conns) {
      AddSupersTwinLinked(h, places, n);
    }
  }

  /** An arc seen without its flow and twin index. */
  datatype Arc = Arc(to: int, capacity: int, cost: int)

  function Views(es: seq<Edge>): (r: seq<Arc>)
    ensures |r| == |es|
  {
    if |es| == 0 then [] else Views(es[..|es| - 1]) + [ArcOf(es[|es| - 1])]
  }

  function ArcOf(e: Edge): Arc { Arc(e.to, e.capacity, e.cost) }

  /** The arcs the super source gets, one per surplus place, in list order. */
  function SourceArcs(places: seq<Place>): seq<Arc>
  {
    if |places| == 0 then []
    else
      var p := places[|places| - 1];
      SourceArcs(places[..|places| - 1]) + SourceArcFor(p)
  }

  /** The residual arcs the super sink gets, one per deficit place, in list
      order: capacity 0 and the negated priority cost. */
  function SinkArcs(places: seq<Place>): seq<Arc>
  {
    if |places| == 0 then []
    else
      var p := places[|places| - 1];
      SinkArcs(places[..|places| - 1]) + SinkArcFor(p)
  }

  function CapacitySum(a: seq<Arc>): int
  {
    if |a| == 0 then 0 else CapacitySum(a[..|a| - 1]) + a[|a| - 1].capacity
  }

  lemma {:induction false} CapacitySumAppend(a: seq<Arc>, b: seq<Arc>)
    ensures CapacitySum(a + b) == CapacitySum(a) + CapacitySum(b)
  {
    if |b| > 0 {
      assert (a + b)[..|a + b| - 1] == a + b[..|b| - 1];
      CapacitySumAppend(a, b[..|b| - 1]);
    } else {
      assert a + b == a;
    }
  }

  /** The super source's capacity is the total surplus. */
  lemma {:induction false} SourceCapacity(places: seq<Place>)
    ensures CapacitySum(SourceArcs(places)) == SurplusSum(places)
  {
    if |places| > 0 {
      var p := places[|places| - 1];
      SourceCapacity(places[..|places| - 1]);
      CapacitySumAppend(SourceArcs(places[..|places| - 1]), SourceArcFor(p));
      if p.balance > 0 {
        assert CapacitySum([Arc(p.id, p.balance, 0)]) == p.balance by {
          assert [Arc(p.id, p.balance, 0)][..0] == [];
        }
      }
    }
  }

  function SourceArcFor(p: Place): seq<Arc>
  {
    if p.balance > 0 then [Arc(p.id, p.balance, 0)] else []
  }

  function SinkArcFor(p: Place): seq<Arc>
  {
    if p.balance < 0 then [Arc(p.id, 0, -PenaltyCost(p))] else []
  }

  lemma ViewsAppend(a: seq<Edge>, e: Edge)
    ensures Views(a + [e]) == Views(a) + [ArcOf(e)]
  {
    assert (a + [e])[..|a + [e]| - 1] == a;
  }

  /** What one place's super arcs append at the two ends. */
  lemma AddSuperEdges(g: Network, p: Place, n: int)
    requires |g| == n + 2 && 0 <= p.id < n
    ensures p.balance > 0 ==> AddSuper(g, p, n)[n] == g[n] + [Edge(p.id, p.balance, 0, 0, |g[p.id]|)]
    ensures p.balance > 0 ==> AddSuper(g, p, n)[n + 1] == g[n + 1]
    ensures p.balance < 0 ==> AddSuper(g, p, n)[n] == g[n]
    ensures p.balance < 0 ==>
      AddSuper(g, p, n)[n + 1] == g[n + 1] + [Edge(p.id, 0, 0, -PenaltyCost(p), |g[p.id]|)]
    ensures p.balance == 0 ==> AddSuper(g, p, n) == g
  {
  }

  /** One place's super arcs extend the two ends' lists by at most one
      arc each. */
  lemma AddSuperAtEnds(g: Network, p: Place, n: int)
    requires |g| == n + 2 && 0 <= p.id < n
    ensures Views(AddSuper(g, p, n)[n]) == Views(g[n]) + SourceArcFor(p)
    ensures Views(AddSuper(g, p, n)[n + 1]) == Views(g[n + 1]) + SinkArcFor(p)
  {
    AddSuperEdges(g, p, n);
    if p.balance > 0 {
      ViewsAppend(g[n], Edge(p.id, p.balance, 0, 0, |g[p.id]|));
      assert Views(g[n + 1]) + [] == Views(g[n + 1]);
    } else if p.balance < 0 {
      ViewsAppend(g[n + 1], Edge(p.id, 0, 0, -PenaltyCost(p), |g[p.id]|));
      assert Views(g[n]) + [] == Views(g[n]);
    } else {
      assert Views(g[n]) + [] == Views(g[n]);
      assert Views(g[n + 1]) + [] == Views(g[n + 1]);
    }
  }

  lemma AppendAssoc(a: seq<Arc>, b: seq<Arc>, c: seq<Arc>)
    ensures a + b + c == a + (b + c)
  {
  }

  /** The super arcs of `places` extend the super source's list by
      exactly SourceArcs. */
  lemma {:induction false} AddSupersAtSource(g: Network, places: seq<Place>, n: int)
    requires |g| == n + 2 && n >= 0 && IdsBelow(places, n)
    ensures Views(AddSupers(g, places, n)[n]) == Views(g[n]) + SourceArcs(places)
  {
    if |places| == 0 {
      assert Views(g[n]) + [] == Views(g[n]);
    } else {
      var pre := places[..|places| - 1];
      var p := places[|places| - 1];
      var h := AddSupers(g, pre, n);
      AddSupersAtSource(g, pre, n);
      AddSuperAtEnds(h, p, n);
      assert AddSupers(g, places, n) == AddSuper(h, p, n);
      assert SourceArcs(places) == SourceArcs(pre) + SourceArcFor(p);
      AppendAssoc(Views(g[n]), SourceArcs(pre), SourceArcFor(p));
    }
  }

  /** ... and the super sink's list by exactly SinkArcs. */
  lemma {:induction false} AddSupersAtSink(g: Network, places: seq<Place>, n: int)
    requires |g| == n + 2 && n >= 0 && IdsBelow(places, n)
    ensures Views(AddSupers(g, places, n)[n + 1]) == Views(g[n + 1]) + SinkArcs(places)
  {
    if |places| == 0 {
      assert Views(g[n + 1]) + [] == Views(g[n + 1]);
    } else {
      var pre := places[..|places| - 1];
      var p := places[|places| - 1];
      var h := AddSupers(g, pre, n);
      AddSupersAtSink(g, pre, n);
      AddSuperAtEnds(h, p, n);
      assert AddSupers(g, places, n) == AddSuper(h, p, n);
      assert SinkArcs(places) == SinkArcs(pre) + SinkArcFor(p);
      AppendAssoc(Views(g[n + 1]), SinkArcs(pre), SinkArcFor(p));
    }
  }

  /** In the built network the super source has exactly one arc per
      surplus place (to the place, capacity = balance, cost 0), the super
      sink exactly one residual arc per deficit place, and the capacity
      leaving the super source is the total surplus. */
  lemma BuiltEnds(places: seq<Place>, conns: seq<Connection>)
    requires Loaded(places, conns)
    ensures Views(Built(places, conns)[|places|]) == SourceArcs(places)
    ensures Views(Built(places, conns)[|places| + 1]) == SinkArcs(places)
    ensures CapacitySum(Views(Built(places, conns)[|places|])) == SurplusSum(places)
  {
    var n := |places|;
    var h := AddAll(Empty(n + 2), conns);
    AddAllUntouched(Empty(n + 2), conns, n);
    AddAllUntouched(Empty(n + 2), conns, n + 1);
    AddSupersAtSource(h, places, n);
    AddSupersAtSink(h, places, n);
    assert Views(h[n]) == [];
    assert Views(h[n + 1]) == [];
    assert [] + SourceArcs(places) == SourceArcs(places);
    assert [] + SinkArcs(places) == SinkArcs(places);
    SourceCapacity(places);
  }

  /** A network with no flow has zero net flow at every node. */
  lemma {:induction false} ZeroFlowSum(a: seq<Edge>)
    requires forall j | 0 <= j < |a| :: a[j].flow == 0
    ensures FlowSum(a) == 0
  {
    if |a| > 0 {
      ZeroFlowSum(a[..|a| - 1]);
    }
  }

  /** Extending the place prefix by one place adds that place's super arc
      and its share of the totals. */
  lemma SuperStep(h: Network, places: seq<Place>, i: int, n: int)
    requires |h| == n + 2 && n >= 0 && IdsBelow(places, n) && 0 <= i < |places|
    ensures IdsBelow(places[..i], n) && IdsBelow(places[..i + 1], n)
    ensures AddSupers(h, places[..i + 1], n) == AddSuper(AddSupers(h, places[..i], n), places[i], n)
    ensures SurplusSum(places[..i + 1]) == SurplusSum(places[..i]) + (if places[i].balance > 0 then places[i].balance else 0)
    ensures DeficitSum(places[..i + 1]) == DeficitSum(places[..i]) + (if places[i].balance < 0 then -places[i].balance else 0)
  {
    assert places[..i + 1][..i] == places[..i];
  }

  /** AddSuper is the add_edge call of the matching branch. */
  lemma AddSuperIs(g: Network, p: Place, n: int)
    requires |g| == n + 2 && 0 <= p.id < n
    ensures p.balance > 0 ==> AddSuper(g, p, n) == AddEdge(g, n, p.id, p.balance, 0)
    ensures p.balance < 0 ==> AddSuper(g, p, n) == AddEdge(g, p.id, n + 1, -p.balance, PenaltyCost(p))
    ensures p.balance == 0 ==> AddSuper(g, p, n) == g
  {
  }

  /** With no flow to start from, the solver's conservation law says the
      flow leaves the super source, enters the super sink and passes
      through every place. */
  lemma ReportFlows(g: Network, g': Network, n: int, f: int)
    requires |g| == |g'| == n + 2 && n >= 0 && ZeroFlow(g)
    requires forall x | 0 <= x < |g| :: FlowSum(g'[x]) == FlowSum(g[x]) + Excess(x, n, n + 1, f)
    ensures FlowSum(g'[n]) == f && FlowSum(g'[n + 1]) == -f
    ensures forall x | 0 <= x < n :: FlowSum(g'[x]) == 0
  {
    forall x | 0 <= x < |g| ensures FlowSum(g[x]) == 0 {
      ZeroFlowSum(g[x]);
    }
  }

  /** Steps 1-3 of run_analysis: N + 2 empty nodes, the connections in
      list order, then a super arc per place with a non-zero balance, while
      summing the surpluses and the deficits. */
  method BuildNetwork(places: seq<Place>, conns: seq<Connection>)
    returns (g: Network, totalRequired: int, totalAvailable: int)
    requires Loaded(places, conns)
    ensures g == Built(places, conns)
    ensures totalAvailable == SurplusSum(places) && totalRequired == DeficitSum(places)
  {
    var n := |places|;
    g := seq(n + 2, _ => []);
    assert g == Empty(n + 2);
    g := AddConnections(g, conns);
    assert IdsBelow(places, n);
    g, totalRequired, totalAvailable := AddSuperArcs(g, places, n);
  }

  /** Step 2: add_edge for every connection, in list order. */
  method AddConnections(g0: Network, conns: seq<Connection>) returns (g: Network)
    requires InRange(conns, |g0|)
    ensures g == AddAll(g0, conns)
  {
    g := g0;
    for i := 0 to |conns|
      invariant g == AddAll(g0, conns[..i])
    {
      assert conns[..i + 1][..i] == conns[..i];
      g := AddEdge(g, conns[i].from, conns[i].to, conns[i].capacity, conns[i].cost);
    }
    assert conns[..|conns|] == conns;
  }

  /** Step 3: the super arcs and the two totals, place by place. */
  method AddSuperArcs(h: Network, places: seq<Place>, n: int)
    returns (g: Network, totalRequired: int, totalAvailable: int)
    requires |h| == n + 2 && n >= 0 && IdsBelow(places, n)
    ensures g == AddSupers(h, places, n)
    ensures totalAvailable == SurplusSum(places) && totalRequired == DeficitSum(places)
  {
    g := h;
    totalRequired, totalAvailable := 0, 0;
    for i := 0 to |places|
      invariant |g| == n + 2
      invariant g == AddSupers(h, places[..i], n)
      invariant totalAvailable == SurplusSum(places[..i]) && totalRequired == DeficitSum(places[..i])
    {
      var p := places[i];
      SuperStep(h, places, i, n);
      AddSuperIs(g, p, n);
      if p.balance > 0 {
        totalAvailable := totalAvailable + p.balance;
        g := AddEdge(g, n, p.id, p.balance, 0);
      } else if p.balance < 0 {
        totalRequired := totalRequired + -p.balance;
        var requiredAmount := -p.balance;
        var priorityCost := PenaltyCost(p);
        g := AddEdge(g, p.id, n + 1, requiredAmount, priorityCost);
      }
    }
    assert places[..|places|] == places;
  }

  /** What run_analysis computes: the totals, the network after the
      solver, and the solver's flow and cost. */
  datatype Report = Report(
    totalRequired: int, totalAvailable: int,
    network: Network, maxFlow: int, minCost: int, diverged: bool)

  /** run_analysis: nothing for an empty place list; otherwise build the
      network and run min-cost max-flow from the super source N to the
      super sink N + 1. The report's flow leaves the super source, reaches
      the super sink and is conserved at every place; no augmenting path is
      left. */
  method RunAnalysis(places: seq<Place>, conns: seq<Connection>)
    returns (r: Option<Report>, ghost log: seq<PathResult>, ghost nets: seq<Network>, ghost walks: seq<seq<Hop>>)
    requires Loaded(places, conns)
    ensures r.None? <==> |places| == 0
    ensures r.Some? ==>
      Run(Built(places, conns), r.value.network, |places|, |places| + 1,
          r.value.maxFlow, r.value.minCost, log, nets, walks, !r.value.diverged)
    ensures r.Some? ==> forall i | 0 <= i < |log| :: WalkCost(Built(places, conns), walks[i]) == log[i].cost
    ensures r.Some? ==>
      && r.value.totalAvailable == SurplusSum(places)
      && r.value.totalRequired == DeficitSum(places)
      && SameShape(Built(places, conns), r.value.network)
      && WellFormed(r.value.network)
      && (NoSelfLoops(conns) ==> Antisymmetric(r.value.network))
      && r.value.maxFlow >= 0
    ensures r.Some? && !r.value.diverged ==>
      var n := |places|;
      && FlowSum(r.value.network[n]) == r.value.maxFlow
      && FlowSum(r.value.network[n + 1]) == -r.value.maxFlow
      && (forall x | 0 <= x < n :: FlowSum(r.value.network[x]) == 0)
      && !Reachable(r.value.network, n, n + 1)
  {
    if |places| == 0 {
      return None, [], [], [];
    }
    var n := |places|;
    var g, totalRequired, totalAvailable := BuildNetwork(places, conns);
    BuiltIsSound(places, conns);
    var g', minCost, maxFlow, diverged;
    g', minCost, maxFlow, diverged, log, nets, walks := MinCostMaxFlow(g, n, n + 1);
    SameShapeKeepsLinks(g, g');
    if !diverged {
      ReportFlows(g, g', n, maxFlow);
    }
    r := Some(Report(totalRequired, totalAvailable, g', maxFlow, minCost, diverged));
  }

  // ---------------------------------------------------------------------
  // Tracing one path of the final flow (find_flow_path)

  /** An arc the trace may follow: it carries flow and is a forward arc
      (residual twins have negative cost). */
  predicate Carries(e: Edge): (b: bool)
    ensures b ==> Residual(e) < e.capacity
  {
    e.flow > 0 && e.cost >= 0
  }

  /** `hops` leads from `u` to `t` over arcs that carry flow. */
  ghost predicate IsFlowPath(g: Network, u: int, t: int, hops: seq<Hop>)
    decreases |hops|
  {
    if |hops| == 0 then u == t
    else
      && hops[0].u == u && 0 <= u < |g| && 0 <= hops[0].j < |g[u]|
      && Carries(g[u][hops[0].j])
      && IsFlowPath(g, g[u][hops[0].j].to, t, hops[1..])
  }

  /** The nodes the path leaves from. */
  function Nodes(hops: seq<Hop>): seq<int>
  {
    if |hops| == 0 then [] else [hops[0].u] + Nodes(hops[1..])
  }

  /** No node is left twice. */
  ghost predicate Simple(hops: seq<Hop>)
  {
    forall i, k | 0 <= i < k < |hops| :: hops[i].u != hops[k].u
  }

  /** Every node the path leaves from is unvisited. */
  ghost predicate Fresh(hops: seq<Hop>, visited: seq<bool>)
  {
    forall i | 0 <= i < |hops| :: 0 <= hops[i].u < |visited| && !visited[hops[i].u]
  }

  /** There is no simple flow path from `u` to `t` through unvisited nodes. */
  ghost predicate NoFlowPath(g: Network, u: int, t: int, visited: seq<bool>)
  {
    forall p: seq<Hop> :: !(IsFlowPath(g, u, t, p) && Fresh(p, visited) && Simple(p))
  }

  function Min(a: int, b: int): int { if a <= b then a else b }

  /** The flow reported for a path: `f` lowered to each arc's flow, from
      the last arc back to the first. */
  function PathMin(g: Network, hops: seq<Hop>, f: int): int
  {
    if |hops| == 0 then f
    else
      var h := hops[0];
      if 0 <= h.u < |g| && 0 <= h.j < |g[h.u]| then Min(PathMin(g, hops[1..], f), g[h.u][h.j].flow)
      else f
  }

  /** The cost reported for a path: the sum of flow * cost over its arcs. */
  function PathCost(g: Network, hops: seq<Hop>): int
  {
    if |hops| == 0 then 0
    else
      var h := hops[0];
      if 0 <= h.u < |g| && 0 <= h.j < |g[h.u]| then PathCost(g, hops[1..]) + g[h.u][h.j].flow * g[h.u][h.j].cost
      else 0
  }

  /** The reported flow is the bottleneck of the path: no more than the
      starting value or any arc's flow, and positive when the start is. */
  lemma {:induction false} PathMinIsBottleneck(g: Network, u: int, t: int, hops: seq<Hop>, f: int)
    requires IsFlowPath(g, u, t, hops)
    ensures PathMin(g, hops, f) <= f
    ensures forall i | 0 <= i < |hops| ::
      0 <= hops[i].u < |g| && 0 <= hops[i].j < |g[hops[i].u]| && PathMin(g, hops, f) <= g[hops[i].u][hops[i].j].flow
    ensures f > 0 ==> PathMin(g, hops, f) > 0
    decreases |hops|
  {
    if |hops| > 0 {
      var e := g[u][hops[0].j];
      PathMinIsBottleneck(g, e.to, t, hops[1..], f);
      forall i | 0 < i < |hops|
        ensures 0 <= hops[i].u < |g| && 0 <= hops[i].j < |g[hops[i].u]|
        ensures PathMin(g, hops, f) <= g[hops[i].u][hops[i].j].flow
      {
        assert hops[i] == hops[1..][i - 1];
      }
    }
  }

  /** Number of unvisited nodes: the depth-first search's measure. */
  function Unvisited(v: seq<bool>): nat
  {
    if |v| == 0 then 0 else Unvisited(v[..|v| - 1]) + (if v[|v| - 1] then 0 else 1)
  }

  lemma {:induction false} MarkShrinks(v: seq<bool>, i: int)
    requires 0 <= i < |v| && !v[i]
    ensures Unvisited(v[i := true]) == Unvisited(v) - 1
  {
    if i < |v| - 1 {
      assert v[i := true][..|v| - 1] == v[..|v| - 1][i := true];
      MarkShrinks(v[..|v| - 1], i);
    } else {
      assert v[i := true][..|v| - 1] == v[..|v| - 1];
    }
  }

  /** A path out of `u` (which is not the target) starts with a carrying
      arc of `u`, and its rest is a path from that arc's head that avoids
      `u` as well. */
  lemma FirstHop(g: Network, u: int, t: int, p: seq<Hop>, visited: seq<bool>)
    requires WellFormed(g) && |visited| == |g| && 0 <= u < |g| && 0 <= t < |g| && u != t
    requires !visited[t]
    requires IsFlowPath(g, u, t, p) && Fresh(p, visited) && Simple(p)
    ensures |p| > 0 && p[0].u == u && 0 <= p[0].j < |g[u]| && Carries(g[u][p[0].j])
    ensures !visited[u := true][g[u][p[0].j].to]
    ensures IsFlowPath(g, g[u][p[0].j].to, t, p[1..])
    ensures Fresh(p[1..], visited[u := true]) && Simple(p[1..])
  {
    var rest := p[1..];
    var w := g[u][p[0].j].to;
    if |rest| > 0 {
      assert rest[0] == p[1];
      assert w == p[1].u;
    } else {
      assert w == t;
    }
    forall i | 0 <= i < |rest| ensures 0 <= rest[i].u < |visited| && !visited[u := true][rest[i].u] {
      assert rest[i] == p[i + 1];
    }
    forall i, k | 0 <= i < k < |rest| ensures rest[i].u != rest[k].u {
      assert rest[i] == p[i + 1] && rest[k] == p[k + 1];
    }
  }

  /** The search has ruled out every path whose first arc comes before `j`. */
  ghost predicate NoPathBefore(g: Network, u: int, t: int, visited: seq<bool>, j: int)
  {
    forall p: seq<Hop> | IsFlowPath(g, u, t, p) && Fresh(p, visited) && Simple(p) :: |p| > 0 && p[0].j >= j
  }

  /** An arc the search does not follow, or follows without success, rules
      out every path starting with it. */
  lemma SkipArc(g: Network, u: int, t: int, visited: seq<bool>, j: int)
    requires WellFormed(g) && |visited| == |g| && 0 <= u < |g| && 0 <= t < |g| && u != t
    requires !visited[t] && 0 <= j < |g[u]|
    requires NoPathBefore(g, u, t, visited, j)
    requires var e := g[u][j];
      !(Carries(e) && !visited[u := true][e.to]) || NoFlowPath(g, e.to, t, visited[u := true])
    ensures NoPathBefore(g, u, t, visited, j + 1)
  {
    forall p: seq<Hop> | IsFlowPath(g, u, t, p) && Fresh(p, visited) && Simple(p) ensures |p| > 0 && p[0].j >= j + 1 {
      FirstHop(g, u, t, p, visited);
    }
  }

  /** The path found through arc `j` of `u`, with what it reports. */
  lemma Extend(g: Network, u: int, t: int, visited: seq<bool>, j: int, rest: seq<Hop>, f: int)
    requires WellFormed(g) && |visited| == |g| && 0 <= u < |g| && !visited[u] && 0 <= j < |g[u]|
    requires Carries(g[u][j]) && !visited[u := true][g[u][j].to]
    requires IsFlowPath(g, g[u][j].to, t, rest) && Fresh(rest, visited[u := true]) && Simple(rest)
    ensures IsFlowPath(g, u, t, [Hop(u, j)] + rest)
    ensures Fresh([Hop(u, j)] + rest, visited) && Simple([Hop(u, j)] + rest)
    ensures Nodes([Hop(u, j)] + rest) == [u] + Nodes(rest)
    ensures PathMin(g, [Hop(u, j)] + rest, f) == Min(PathMin(g, rest, f), g[u][j].flow)
    ensures PathCost(g, [Hop(u, j)] + rest) == PathCost(g, rest) + g[u][j].flow * g[u][j].cost
  {
    var p := [Hop(u, j)] + rest;
    assert p[0] == Hop(u, j) && p[1..] == rest;
    forall i | 0 <= i < |p| ensures 0 <= p[i].u < |visited| && !visited[p[i].u] {
      if i > 0 { assert p[i] == rest[i - 1]; }
    }
    forall i, k | 0 <= i < k < |p| ensures p[i].u != p[k].u {
      assert p[k] == rest[k - 1];
      if i > 0 { assert p[i] == rest[i - 1]; }
    }
  }

  /** find_flow_path: depth-first search from `u` to `target` over arcs
      that carry flow and have non-negative cost, skipping visited nodes.
      On success the flow is lowered to the path's bottleneck and the path's
      flow * cost is added, arc by arc on the way back, and the path's nodes
      stay marked; on failure nothing changes and no such path exists. */
  method FindFlowPath(g: Network, u: int, target: int, flow: int, cost: int, visited: seq<bool>)
    returns (found: bool, flow': int, cost': int, visited': seq<bool>, ghost path: seq<Hop>)
    requires WellFormed(g) && |visited| == |g| && 0 <= u < |g| && 0 <= target < |g|
    requires !visited[u] && !visited[target]
    ensures |visited'| == |visited| && !visited'[target]
    ensures found ==> IsFlowPath(g, u, target, path) && Fresh(path, visited) && Simple(path)
    ensures found ==> flow' == PathMin(g, path, flow) && cost' == cost + PathCost(g, path)
    ensures found ==> forall x | 0 <= x < |visited| :: visited'[x] == (visited[x] || x in Nodes(path))
    ensures !found ==> flow' == flow && cost' == cost && visited' == visited
    ensures !found ==> NoFlowPath(g, u, target, visited)
    decreases Unvisited(visited)
  {
    if u == target {
      return true, flow, cost, visited, [];
    }
    visited' := visited[u := true];
    MarkShrinks(visited, u);
    flow', cost' := flow, cost;
    var j := 0;
    while j < |g[u]|
      invariant 0 <= j <= |g[u]|
      invariant visited' == visited[u := true] && flow' == flow && cost' == cost
      invariant NoPathBefore(g, u, target, visited, j)
      decreases |g[u]| - j
    {
      var e := g[u][j];
      if e.flow > 0 && e.cost >= 0 && !visited'[e.to] {
        var ok, f2, c2, v2, p2 := FindFlowPath(g, e.to, target, flow', cost', visited');
        if ok {
          Extend(g, u, target, visited, j, p2, flow);
          flow' := Min(f2, e.flow);
          cost' := c2 + e.flow * e.cost;
          visited' := v2;
          path := [Hop(u, j)] + p2;
          return true, flow', cost', visited', path;
        }
      }
      SkipArc(g, u, target, visited, j);
      j := j + 1;
    }
    visited' := visited'[u := false];
    assert visited' == visited;
    found, path := false, [];
  }

  // ---------------------------------------------------------------------
  // Specific transfer query (calculate_specific_transfer_cost)

  /** The outcomes of the query, one per message it prints. */
  datatype Transfer = InvalidId | NotSurplus | NotDeficit | NoFlowPathFound | PathFound(flow: int, cost: int)

  predicate ValidIds(places: seq<Place>, a: int, b: int)
  {
    0 <= a < |places| && 0 <= b < |places|
  }

  /** The query with the two ids as parameters: both ids must name places,
      the first a surplus and the second a deficit; then one flow path is
      traced from the first to the second with the flow starting at INT_MAX,
      the cost at 0 and nothing visited. */
  method TransferQuery(places: seq<Place>, g: Network, surplusId: int, deficitId: int)
    returns (r: Transfer, ghost path: seq<Hop>)
    requires WellFormed(g) && |places| <= |g|
    ensures r == InvalidId <==> !ValidIds(places, surplusId, deficitId)
    ensures r == NotSurplus <==> ValidIds(places, surplusId, deficitId) && places[surplusId].balance <= 0
    ensures r == NotDeficit <==>
      ValidIds(places, surplusId, deficitId) && places[surplusId].balance > 0 && places[deficitId].balance >= 0
    ensures r.PathFound? ==>
      && ValidIds(places, surplusId, deficitId)
      && IsFlowPath(g, surplusId, deficitId, path) && Simple(path)
      && r.flow == PathMin(g, path, INT_MAX) && 0 < r.flow <= INT_MAX
      && r.cost == PathCost(g, path)
    ensures r == NoFlowPathFound ==>
      && ValidIds(places, surplusId, deficitId)
      && NoFlowPath(g, surplusId, deficitId, seq(|g|, _ => false))
  {
    path := [];
    if surplusId < 0 || surplusId >= |places| || deficitId < 0 || deficitId >= |places| {
      return InvalidId, path;
    }
    if places[surplusId].balance <= 0 {
      return NotSurplus, path;
    }
    if places[deficitId].balance >= 0 {
      return NotDeficit, path;
    }
    var totalFlow := INT_MAX;
    var totalCost := 0;
    var visited := seq(|g|, _ => false);
    var found, flow', cost', visited';
    found, flow', cost', visited', path := FindFlowPath(g, surplusId, deficitId, totalFlow, totalCost, visited);
    if found {
      PathMinIsBottleneck(g, surplusId, deficitId, path, totalFlow);
      r := PathFound(flow', cost');
    } else {
      r := NoFlowPathFound;
    }
  }

  // ---------------------------------------------------------------------
  // Bottleneck report (identify_bottlenecks)

  /** A forward arc running at full capacity. */
  predicate IsBottleneck(e: Edge): (b: bool)
    ensures b ==> Residual(e) == 0 && Carries(e)
  {
    e.cost >= 0 && e.capacity > 0 && e.flow == e.capacity
  }

  /** Arc `h` leaves one of the first `m` nodes and is a bottleneck. */
  predicate Saturated(g: Network, m: int, h: Hop)
  {
    0 <= h.u < m && h.u < |g| && 0 <= h.j < |g[h.u]| && IsBottleneck(g[h.u][h.j])
  }

  /** `a` comes before `b` in the scan: by node, then by arc index. */
  predicate Precedes(a: Hop, b: Hop)
  {
    a.u < b.u || (a.u == b.u && a.j < b.j)
  }

  /** Strictly increasing in scan order, so also free of repeats. */
  predicate Ascending(report: seq<Hop>)
  {
    forall a, b | 0 <= a < b < |report| :: Precedes(report[a], report[b])
  }

  lemma AppendAscending(report: seq<Hop>, h: Hop)
    requires Ascending(report)
    requires forall k | 0 <= k < |report| :: Precedes(report[k], h)
    ensures Ascending(report + [h])
  {
  }

  /** identify_bottlenecks as written: every bottleneck arc leaving one of
      the N place nodes, in scan order; `found` says whether there is one.
      The source prints places[head] for each of them. */
  method Bottlenecks(places: seq<Place>, g: Network) returns (report: seq<Hop>, found: bool)
    requires |places| <= |g|
    ensures forall h :: h in report <==> Saturated(g, |places|, h)
    ensures Ascending(report)
    ensures found <==> |report| > 0
  {
    report, found := [], false;
    for u := 0 to |places|
      invariant forall h :: h in report <==> Saturated(g, u, h)
      invariant Ascending(report) && forall k | 0 <= k < |report| :: report[k].u < u
      invariant found <==> |report| > 0
    {
      for j := 0 to |g[u]|
        invariant forall h :: h in report <==> Saturated(g, u, h) || (h.u == u && 0 <= h.j < j && IsBottleneck(g[u][h.j]))
        invariant Ascending(report) && forall k | 0 <= k < |report| :: Precedes(report[k], Hop(u, j))
        invariant found <==> |report| > 0
      {
        var e := g[u][j];
        if e.cost >= 0 && e.capacity > 0 && e.flow == e.capacity {
          AppendAscending(report, Hop(u, j));
          report := report + [Hop(u, j)];
          found := true;
        }
      }
    }
  }

  /** A bottleneck that is a pipe between two places, so that both of its
      ends have a name to print. */
  predicate PipeSaturated(places: seq<Place>, g: Network, h: Hop)
  {
    Saturated(g, |places|, h) && 0 <= g[h.u][h.j].to < |places|
  }

  /** The bottleneck report restricted to pipes between places: the arcs
      into the super sink are left out, and every reported arc names two
      places. */
  method PipeBottlenecks(places: seq<Place>, g: Network) returns (report: seq<Hop>, found: bool)
    requires |places| <= |g|
    ensures forall h :: h in report <==> PipeSaturated(places, g, h)
    ensures Ascending(report)
    ensures found <==> |report| > 0
  {
    var all, _ := Bottlenecks(places, g);
    report, found := [], false;
    for i := 0 to |all|
      invariant forall h :: h in report <==> h in all[..i] && PipeSaturated(places, g, h)
      invariant Ascending(report)
      invariant found <==> |report| > 0
    {
      assert all[i] in all;
      var h := all[i];
      assert all[..i + 1] == all[..i] + [h];
      if 0 <= g[h.u][h.j].to < |places| {
        KeepAscending(all, i, report);
        report := report + [h];
        found := true;
      }
    }
    assert all[..|all|] == all;
  }

  /** Keeping a later element of an ascending list after earlier ones
      keeps the kept list ascending. */
  lemma KeepAscending(all: seq<Hop>, i: int, report: seq<Hop>)
    requires Ascending(all) && 0 <= i < |all| && Ascending(report)
    requires forall k | 0 <= k < |report| :: report[k] in all[..i]
    ensures Ascending(report + [all[i]])
  {
    forall k | 0 <= k < |report|
      ensures Precedes(report[k], all[i])
    {
      var m :| 0 <= m < i && all[..i][m] == report[k];
      assert all[m] == report[k];
    }
    AppendAscending(report, all[i]);
  }

  // A small network on which identify_bottlenecks reads past the place
  // list: surplus A (+5), deficit B (-5, priority 2), one pipe A -> B.

  function ExamplePlaces(): seq<Place>
  {
    [Place(0, "A", 5, 1, ""), Place(1, "B", -5, 2, "")]
  }

  function ExampleConns(): seq<Connection> { [Connection(0, 1, 5, 1)] }

  /** The example after five units travel S -> A -> B -> T. */
  function ExampleFlow(): Network
  {
    [ [Edge(1, 5, 5, 1, 0), Edge(2, 0, -5, 0, 0)],
      [Edge(0, 0, -5, -1, 0), Edge(3, 5, 5, 1000, 0)],
      [Edge(0, 5, 5, 0, 1)],
      [Edge(1, 0, -5, -1000, 1)] ]
  }

  /** The example's arcs after the connection loop. */
  function ExamplePipes(): Network
  {
    [[Edge(1, 5, 0, 1, 0)], [Edge(0, 0, 0, -1, 0)], [], []]
  }

  /** ... and after the place loop. */
  function ExampleBuiltArcs(): Network
  {
    [ [Edge(1, 5, 0, 1, 0), Edge(2, 0, 0, 0, 0)],
      [Edge(0, 0, 0, -1, 0), Edge(3, 5, 0, 1000, 0)],
      [Edge(0, 5, 0, 0, 1)],
      [Edge(1, 0, 0, -1000, 1)] ]
  }

  lemma AddAllSingle(g: Network, reqs: seq<Connection>)
    requires |reqs| == 1 && InRange(reqs, |g|)
    ensures AddAll(g, reqs) == AddEdge(g, reqs[0].from, reqs[0].to, reqs[0].capacity, reqs[0].cost)
  {
    assert reqs[..0] == [];
  }

  lemma FirstPipe(e: Network)
    requires |e| == 4 && forall i | 0 <= i < 4 :: e[i] == []
    ensures AddEdge(e, 0, 1, 5, 1) == ExamplePipes()
  {
    var r := AddEdge(e, 0, 1, 5, 1);
    var w := ExamplePipes();
    assert r[0] == w[0] && r[1] == w[1] && r[2] == w[2] && r[3] == w[3];
    assert forall i | 0 <= i < 4 :: r[i] == w[i];
  }

  lemma ExamplePipesBuilt()
    ensures InRange(ExampleConns(), 4)
    ensures AddAll(Empty(4), ExampleConns()) == ExamplePipes()
  {
    AddAllSingle(Empty(4), ExampleConns());
    FirstPipe(Empty(4));
  }

  lemma ExampleSurplusArc()
    requires IdsBelow(ExamplePlaces(), 2)
    ensures AddSupers(ExamplePipes(), ExamplePlaces()[..1], 2) ==
      [[Edge(1, 5, 0, 1, 0), Edge(2, 0, 0, 0, 0)], [Edge(0, 0, 0, -1, 0)], [Edge(0, 5, 0, 0, 1)], []]
  {
    var places := ExamplePlaces();
    var g1 := ExamplePipes();
    assert places[..1][..0] == [] && places[..1][0] == places[0];
    assert AddSupers(g1, places[..1][..0], 2) == g1;
    var r := AddSupers(g1, places[..1], 2);
    assert r == AddSuper(g1, places[0], 2);
    assert SuperConn(places[0], 2) == Connection(2, 0, 5, 0);
    assert r == AddEdge(g1, 2, 0, 5, 0);
    assert r[0] == g1[0] + [Edge(2, 0, 0, 0, 0)];
    assert r[2] == g1[2] + [Edge(0, 5, 0, 0, 1)];
    var w: Network := [[Edge(1, 5, 0, 1, 0), Edge(2, 0, 0, 0, 0)], [Edge(0, 0, 0, -1, 0)], [Edge(0, 5, 0, 0, 1)], []];
    assert r[0] == w[0] && r[1] == w[1] && r[2] == w[2] && r[3] == w[3];
    assert |r| == |w| == 4;
    assert forall i | 0 <= i < 4 :: r[i] == w[i];
  }

  lemma ExampleSupersBuilt()
    ensures IdsBelow(ExamplePlaces(), 2)
    ensures AddSupers(ExamplePipes(), ExamplePlaces(), 2) == ExampleBuiltArcs()
  {
    var places := ExamplePlaces();
    assert IdsBelow(places, 2);
    ExampleSurplusArc();
    var g2 := AddSupers(ExamplePipes(), places[..1], 2);
    assert places[..1] == places[..|places| - 1];
    var r := AddSupers(ExamplePipes(), places, 2);
    assert r == AddSuper(g2, places[1], 2);
    assert SuperConn(places[1], 2) == Connection(1, 3, 5, 1000);
    assert r == AddEdge(g2, 1, 3, 5, 1000);
    assert r[1] == g2[1] + [Edge(3, 5, 0, 1000, 0)];
    assert r[3] == g2[3] + [Edge(1, 0, 0, -1000, 1)];
    var w := ExampleBuiltArcs();
    assert r[0] == w[0] && r[1] == w[1] && r[2] == w[2] && r[3] == w[3];
    assert |r| == |w| == 4;
    assert forall i | 0 <= i < 4 :: r[i] == w[i];
  }

  /** Building the example network gives ExampleBuiltArcs. */
  lemma ExampleLoaded()
    ensures |ExamplePlaces()| == 2 && Loaded(ExamplePlaces(), ExampleConns())
  {
    var places := ExamplePlaces();
    assert places[0].id == 0 && places[1].id == 1;
  }

  lemma ExampleBuilt()
    ensures Loaded(ExamplePlaces(), ExampleConns())
    ensures Built(ExamplePlaces(), ExampleConns()) == ExampleBuiltArcs()
  {
    ExampleLoaded();
    ExamplePipesBuilt();
    ExampleSupersBuilt();
  }

  /** Five units leave the super source (node 2), reach the super sink
      (node 3), and pass through both places. */
  lemma ExampleConserves()
    ensures forall x | 0 <= x < 4 :: FlowSum(ExampleFlow()[x]) == FlowSum(ExampleBuiltArcs()[x]) + Excess(x, 2, 3, 5)
  {
    var g, b := ExampleFlow(), ExampleBuiltArcs();
    assert FlowSum(g[0]) == 0 by { assert g[0][..1] == [g[0][0]] && [g[0][0]][..0] == []; }
    assert FlowSum(g[1]) == 0 by { assert g[1][..1] == [g[1][0]] && [g[1][0]][..0] == []; }
    assert FlowSum(g[2]) == 5 by { assert g[2][..0] == []; }
    assert FlowSum(g[3]) == -5 by { assert g[3][..0] == []; }
    assert FlowSum(b[0]) == 0 by { assert b[0][..1] == [b[0][0]] && [b[0][0]][..0] == []; }
    assert FlowSum(b[1]) == 0 by { assert b[1][..1] == [b[1][0]] && [b[1][0]][..0] == []; }
    assert FlowSum(b[2]) == 0 by { assert b[2][..0] == []; }
    assert FlowSum(b[3]) == 0 by { assert b[3][..0] == []; }
  }

  /** No residual arc leaves the super source, so the sink is unreachable. */
  lemma ExampleSaturated()
    ensures !Reachable(ExampleFlow(), 2, 3)
  {
    var g := ExampleFlow();
    forall k: nat ensures Reach(g, 2, k) <= {2} {
      ClosedHoldsReach(g, 2, {2}, k);
    }
  }

  /** ExampleFlow differs from the built arcs in flows only, and each
      arc's flow is the negation of its twin's. */
  lemma ExampleShape(b: Network, g: Network)
    requires b == ExampleBuiltArcs() && g == ExampleFlow()
    ensures SameShape(b, g) && WellFormed(g) && Antisymmetric(g)
  {
    assert |g[0]| == 2 && |g[1]| == 2 && |g[2]| == 1 && |g[3]| == 1;
    assert |b[0]| == 2 && |b[1]| == 2 && |b[2]| == 1 && |b[3]| == 1;
    forall u, j | 0 <= u < |g| && 0 <= j < |g[u]|
      ensures 0 <= g[u][j].to < |g| && 0 <= g[u][j].rev < |g[g[u][j].to]|
      ensures g[u][j].flow + g[g[u][j].to][g[u][j].rev].flow == 0
      ensures Frame(b[u][j]) == Frame(g[u][j])
    {
      if u == 0 {
        assert j == 0 || j == 1;
      } else if u == 1 {
        assert j == 0 || j == 1;
      } else {
        assert j == 0;
      }
    }
  }

  lemma ExampleConservesBuilt()
    ensures forall x | 0 <= x < 4 ::
      FlowSum(ExampleFlow()[x]) == FlowSum(Built(ExamplePlaces(), ExampleConns())[x]) + Excess(x, 2, 3, 5)
  {
    ExampleBuilt();
    ExampleConserves();
  }

  /** The arc B -> T is saturated, and its head is the super sink. */
  lemma ExampleSinkArc()
    ensures Saturated(ExampleFlow(), |ExamplePlaces()|, Hop(1, 1))
    ensures ExampleFlow()[1][1].to == |ExamplePlaces()| + 1
    ensures !PipeSaturated(ExamplePlaces(), ExampleFlow(), Hop(1, 1))
  {
    var g := ExampleFlow();
    assert |ExamplePlaces()| == 2;
    assert g[1][1] == Edge(3, 5, 5, 1000, 0);
  }

  /** ExampleFlow meets everything the solver promises for the example:
      it has the built network's shape with antisymmetric flows, conserves
      five units from the super source (node 2) to the super sink (node 3),
      and leaves no augmenting path. Its arc B -> T is a bottleneck that
      identify_bottlenecks reports, and the head of that arc is node 3,
      past the end of the two-place list it is used to index. */
  lemma SinkArcOverrunsPlaces()
    ensures Loaded(ExamplePlaces(), ExampleConns())
    ensures SameShape(Built(ExamplePlaces(), ExampleConns()), ExampleFlow())
    ensures WellFormed(ExampleFlow()) && Antisymmetric(ExampleFlow())
    ensures forall x | 0 <= x < 4 ::
      FlowSum(ExampleFlow()[x]) == FlowSum(Built(ExamplePlaces(), ExampleConns())[x]) + Excess(x, 2, 3, 5)
    ensures !Reachable(ExampleFlow(), 2, 3)
    ensures Saturated(ExampleFlow(), |ExamplePlaces()|, Hop(1, 1))
    ensures ExampleFlow()[1][1].to == |ExamplePlaces()| + 1
    ensures !PipeSaturated(ExamplePlaces(), ExampleFlow(), Hop(1, 1))
  {
    ExampleBuilt();
    ExampleConservesBuilt();
    ExampleSaturated();
    ExampleShape(ExampleBuiltArcs(), ExampleFlow());
    ExampleSinkArc();
  }
}
