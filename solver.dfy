/** The min-cost max-flow engine (source/mcmf_solver.cpp): a bounded
    Bellman-Ford search for the cheapest augmenting path over arcs with
    positive residual capacity, and the successive-shortest-path loop that
    pushes flow along the predecessor chain the search leaves behind. */
module Solver {
  import opened Graph

  /** A search distance: "infinite" (the source's INT_MAX) or a finite cost. */
  datatype Dist = Inf | Fin(d: int)

  // ---------------------------------------------------------------------
  // Residual reachability

  /** The nodes reachable from `s` along at most `k` arcs of positive
      residual capacity. */
  ghost function Reach(g: Network, s: int, k: nat): set<int>
  {
    if k == 0 then {s} else Next(g, Reach(g, s, k - 1))
  }

  /** `r` together with the heads of the residual arcs leaving it. */
  ghost function Next(g: Network, r: set<int>): set<int>
  {
    r + set u, j | u in r && 0 <= u < |g| && 0 <= j < |g[u]| && Residual(g[u][j]) > 0 :: g[u][j].to
  }

  /** An augmenting path from `s` to `t` exists in the residual graph. */
  ghost predicate Reachable(g: Network, s: int, t: int)
  {
    exists k: nat :: t in Reach(g, s, k)
  }

  lemma ReachGrows(g: Network, s: int, k: nat)
    ensures Reach(g, s, k) <= Reach(g, s, k + 1)
  {
  }

  /** One more residual arc out of Reach(k) lands in Reach(k + 1). */
  lemma ReachStep(g: Network, s: int, k: nat, u: int, j: int)
    requires u in Reach(g, s, k) && 0 <= u < |g| && 0 <= j < |g[u]| && Residual(g[u][j]) > 0
    ensures g[u][j].to in Reach(g, s, k + 1)
  {
  }

  lemma ReachMonotone(g: Network, s: int, j: nat, k: nat)
    requires j <= k
    ensures Reach(g, s, j) <= Reach(g, s, k)
    decreases k - j
  {
    if j < k {
      ReachGrows(g, s, j);
      ReachMonotone(g, s, j + 1, k);
    }
  }

  lemma {:induction false} ReachInRange(g: Network, s: int, k: nat)
    requires WellFormed(g) && 0 <= s < |g|
    ensures forall x | x in Reach(g, s, k) :: 0 <= x < |g|
  {
    if k > 0 {
      ReachInRange(g, s, k - 1);
    }
  }

  /** Once a round adds nothing, no later round does. */
  lemma {:induction false} ReachFixed(g: Network, s: int, k: nat, m: nat)
    requires Reach(g, s, k + 1) == Reach(g, s, k) && k <= m
    ensures Reach(g, s, m) == Reach(g, s, k)
    decreases m - k
  {
    if k < m {
      calc {
        Reach(g, s, k + 2);
        Next(g, Reach(g, s, k + 1));
        Next(g, Reach(g, s, k));
        Reach(g, s, k + 1);
      }
      ReachFixed(g, s, k + 1, m);
    }
  }

  /** The node ids 0 .. n-1. */
  ghost function Range(n: nat): (r: set<int>)
    ensures forall x :: x in r <==> 0 <= x < n
    ensures |r| == n
  {
    if n == 0 then {} else Range(n - 1) + {n - 1}
  }

  lemma SubsetSize(a: set<int>, b: set<int>)
    requires a <= b
    ensures |a| <= |b|
  {
    assert b == a + (b - a);
  }

  /** Pigeonhole: every node reachable at all is reachable along at most
      |g| - 1 residual arcs, the number of rounds the search runs. */
  lemma ReachSaturates(g: Network, s: int, k: nat)
    requires WellFormed(g) && 0 <= s < |g|
    ensures Reach(g, s, k) <= Reach(g, s, |g| - 1)
  {
    var n := |g| - 1;
    if k <= n {
      ReachMonotone(g, s, k, n);
    } else {
      var reach := (k: nat) => Reach(g, s, k);
      forall k: nat
        ensures reach(k) <= reach(k + 1) && |reach(k)| <= |g|
      {
        ReachGrows(g, s, k);
        ReachWithin(g, s, k);
      }
      var j := ChainStops(reach, |g|, 0);
      ReachFixed(g, s, j, k);
      ReachFixed(g, s, j, n);
    }
  }

  lemma SameSizeSubset(a: set<int>, b: set<int>)
    requires a <= b && |a| == |b|
    ensures a == b
  {
    assert b == a + (b - a);
  }

  /** Reach never holds more than the |g| nodes. */
  lemma ReachWithin(g: Network, s: int, k: nat)
    requires WellFormed(g) && 0 <= s < |g|
    ensures |Reach(g, s, k)| <= |g|
  {
    ReachInRange(g, s, k);
    SubsetSize(Reach(g, s, k), Range(|g|));
  }

  /** A growing chain of sets of at most `n` elements stops growing
      within `n - 1` steps: growing at every step it would hold i + 1
      elements after step i, more than `n` by step `n`. The result is the
      first step from `i` on that adds nothing. */
  lemma {:induction false} ChainStops(chain: nat -> set<int>, n: nat, i: nat) returns (j: nat)
    requires forall k: nat :: chain(k) <= chain(k + 1)
    requires forall k: nat :: |chain(k)| <= n
    requires i < n && |chain(i)| >= i + 1
    ensures j < n && chain(j + 1) == chain(j)
    decreases n - i
  {
    SubsetSize(chain(i), chain(i + 1));
    if |chain(i + 1)| == |chain(i)| {
      SameSizeSubset(chain(i), chain(i + 1));
      j := i;
    } else {
      j := ChainStops(chain, n, i + 1);
    }
  }

  /** If every residual arc out of a set containing `s` stays inside it,
      the set holds every reachable node. */
  lemma {:induction false} ClosedHoldsReach(g: Network, s: int, fin: set<int>, k: nat)
    requires s in fin
    requires forall u, j | u in fin && 0 <= u < |g| && 0 <= j < |g[u]| && Residual(g[u][j]) > 0 :: g[u][j].to in fin
    ensures Reach(g, s, k) <= fin
  {
    if k > 0 {
      ClosedHoldsReach(g, s, fin, k - 1);
    }
  }

  // ---------------------------------------------------------------------
  // Bellman-Ford

  /** Node `v` has been reached by the search. */
  predicate Reached(s: int, parentV: seq<int>, v: int)
    requires 0 <= v < |parentV|
  {
    v == s || parentV[v] != -1
  }

  /** Each recorded predecessor names an arc of positive residual capacity
      that ends at the node, and leaves a node that was itself reached. */
  predicate ParentLinks(g: Network, s: int, parentV: seq<int>, parentE: seq<int>)
  {
    && |parentV| == |g| && |parentE| == |g|
    && (forall v | 0 <= v < |g| :: (parentV[v] == -1) == (parentE[v] == -1))
    && (forall v | 0 <= v < |g| && parentV[v] != -1 ::
          && 0 <= parentV[v] < |g|
          && 0 <= parentE[v] < |g[parentV[v]]|
          && g[parentV[v]][parentE[v]].to == v
          && Residual(g[parentV[v]][parentE[v]]) > 0
          && Reached(s, parentV, parentV[v]))
  }

  /** The search state invariant: finite distance means reached, reached
      nodes lie in Reach(steps), carry a positive bottleneck no larger than
      the residual of the arc that last reached them. */
  ghost predicate SearchInv(g: Network, s: int, dist: seq<Dist>, pathFlow: seq<int>,
                            parentV: seq<int>, parentE: seq<int>, steps: nat)
  {
    && 0 <= s < |g| && |dist| == |g| && |pathFlow| == |g|
    && ParentLinks(g, s, parentV, parentE)
    && dist[s].Fin?
    && (forall v | 0 <= v < |g| :: dist[v].Fin? == Reached(s, parentV, v))
    && (forall v | 0 <= v < |g| && dist[v].Fin? ::
          v in Reach(g, s, steps) && 0 < pathFlow[v] <= INT_MAX)
    && (forall v | 0 <= v < |g| && parentV[v] != -1 ::
          pathFlow[v] <= Residual(g[parentV[v]][parentE[v]]))
  }

  /** Every node of `r` has a finite distance. */
  ghost predicate AllFinite(dist: seq<Dist>, r: set<int>)
  {
    forall x | x in r :: 0 <= x < |dist| && dist[x].Fin?
  }

  /** The nodes the search has given a finite distance. */
  ghost function FiniteNodes(dist: seq<Dist>): set<int>
  {
    set x | 0 <= x < |dist| && dist[x].Fin?
  }

  /** Every residual arc leaving a node of `from` below `u` ends at a node
      of finite distance. */
  ghost predicate Covered(g: Network, dist: seq<Dist>, from: set<int>, u: int)
    requires |dist| == |g| && WellFormed(g)
  {
    forall x, j | 0 <= x < |g| && 0 <= j < |g[x]| && x < u && x in from && Residual(g[x][j]) > 0 ::
      dist[g[x][j].to].Fin?
  }

  /** Finite distances stay finite. */
  ghost predicate FiniteGrows(dist: seq<Dist>, dist': seq<Dist>)
  {
    |dist| == |dist'| && forall x | 0 <= x < |dist| && dist[x].Fin? :: dist'[x].Fin?
  }

  /** `w` leads from `s` to `v` over arcs of positive residual capacity. */
  ghost predicate ResidualWalk(g: Network, s: int, v: int, w: seq<Hop>)
    decreases |w|
  {
    if |w| == 0 then v == s
    else
      var h := w[|w| - 1];
      && 0 <= h.u < |g| && 0 <= h.j < |g[h.u]|
      && g[h.u][h.j].to == v && Residual(g[h.u][h.j]) > 0
      && ResidualWalk(g, s, h.u, w[..|w| - 1])
  }

  /** The summed cost of the arcs of `w`. */
  function WalkCost(g: Network, w: seq<Hop>): int
    decreases |w|
  {
    if |w| == 0 then 0
    else
      var h := w[|w| - 1];
      WalkCost(g, w[..|w| - 1]) + (if 0 <= h.u < |g| && 0 <= h.j < |g[h.u]| then g[h.u][h.j].cost else 0)
  }

  /** Every finite distance is the cost of a residual walk from `s`,
      recorded in `walks`. */
  ghost predicate Witnessed(g: Network, s: int, dist: seq<Dist>, walks: seq<seq<Hop>>)
  {
    && |walks| == |dist|
    && forall v | 0 <= v < |dist| && dist[v].Fin? ::
         ResidualWalk(g, s, v, walks[v]) && WalkCost(g, walks[v]) == dist[v].d
  }

  /** Extending a residual walk by one arc of positive residual capacity
      gives a residual walk to the arc's head, one arc cost dearer. */
  lemma WalkExtend(g: Network, s: int, u: int, j: int, w: seq<Hop>)
    requires 0 <= u < |g| && 0 <= j < |g[u]| && Residual(g[u][j]) > 0
    requires ResidualWalk(g, s, u, w)
    ensures ResidualWalk(g, s, g[u][j].to, w + [Hop(u, j)])
    ensures WalkCost(g, w + [Hop(u, j)]) == WalkCost(g, w) + g[u][j].cost
  {
    assert (w + [Hop(u, j)])[..|w|] == w;
  }

  /** A relaxation records the walk that gave the new distance. */
  lemma WitnessRelax(g: Network, s: int, dist: seq<Dist>, walks: seq<seq<Hop>>, u: int, idx: int,
                     dist': seq<Dist>, walks': seq<seq<Hop>>)
    requires 0 <= u < |g| && 0 <= idx < |g[u]| && |dist| == |g| && 0 <= g[u][idx].to < |g|
    requires Witnessed(g, s, dist, walks) && dist[u].Fin? && Residual(g[u][idx]) > 0
    requires var v := g[u][idx].to;
      && dist' == dist[v := Fin(dist[u].d + g[u][idx].cost)]
      && walks' == walks[v := walks[u] + [Hop(u, idx)]]
    ensures Witnessed(g, s, dist', walks')
  {
    WalkExtend(g, s, u, idx, walks[u]);
  }

  /** The search loop of bellman_ford_shortest_path: at most |g| - 1
      rounds, each scanning every arc in (node, insertion) order; an arc
      of positive residual capacity out of a node of finite distance is
      relaxed on a strict improvement only; the loop stops after a round
      with no update. Afterwards every node reachable from `s` in the
      residual graph has a finite distance, and every finite distance is
      the cost of a residual walk from `s`. */
  method Search(g: Network, s: int)
    returns (dist: seq<Dist>, pathFlow: seq<int>, parentV: seq<int>, parentE: seq<int>,
             ghost steps: nat, ghost walks: seq<seq<Hop>>)
    requires WellFormed(g) && 0 <= s < |g|
    ensures SearchInv(g, s, dist, pathFlow, parentV, parentE, steps)
    ensures Witnessed(g, s, dist, walks)
    ensures AllFinite(dist, Reach(g, s, |g| - 1))
  {
    var n := |g|;
    dist := seq(n, v => if v == s then Fin(0) else Inf);
    pathFlow := seq(n, v => if v == s then INT_MAX else 0);
    parentV := seq(n, v => -1);
    parentE := seq(n, v => -1);
    steps := 0;
    InitialSearch(g, s, dist, pathFlow, parentV, parentE);
    walks := seq(n, v => []);
    assert ResidualWalk(g, s, s, walks[s]);

    var i := 1;
    ghost var rounds: nat := 0;
    var stable := false;
    while i < n && !stable
      invariant 1 <= i <= n && rounds == i - 1
      invariant SearchInv(g, s, dist, pathFlow, parentV, parentE, steps)
      invariant Witnessed(g, s, dist, walks)
      invariant AllFinite(dist, Reach(g, s, rounds))
      invariant stable ==> Covered(g, dist, FiniteNodes(dist), n)
    {
      var updated;
      ghost var dist0 := dist;
      dist, pathFlow, parentV, parentE, steps, updated, walks :=
        Round(g, s, dist, pathFlow, parentV, parentE, steps, Reach(g, s, rounds), walks);
      RoundExtends(g, s, dist0, dist, rounds);
      if !updated {
        stable := true;
      }
      i, rounds := i + 1, rounds + 1;
    }

    // Every node within the round bound has a finite distance.
    if stable {
      CoveredHoldsReach(g, s, dist, n - 1);
    } else {
      assert rounds == n - 1;
    }
  }

  /** bellman_ford_shortest_path: the search, then the result read off
      at `t`. Returns the sentinel {0, 0} exactly when `t` is not
      reachable from `s` in the residual graph. */
  method BellmanFord(g: Network, s: int, t: int)
    returns (r: PathResult, parentV: seq<int>, parentE: seq<int>, ghost walk: seq<Hop>)
    requires WellFormed(g) && 0 <= s < |g| && 0 <= t < |g|
    ensures ParentLinks(g, s, parentV, parentE)
    ensures r.flow > 0 ==> ResidualWalk(g, s, t, walk) && WalkCost(g, walk) == r.cost
    ensures 0 <= r.flow <= INT_MAX
    ensures (r.flow == 0) == (t !in Reach(g, s, |g| - 1))
    ensures (r.flow == 0) == !Reachable(g, s, t)
    ensures r.flow == 0 ==> r == NoPath
    ensures r.flow > 0 ==> Reached(s, parentV, t)
    ensures r.flow > 0 && parentV[t] != -1 ==> r.flow <= Residual(g[parentV[t]][parentE[t]])
  {
    var dist, pathFlow;
    ghost var steps, walks;
    dist, pathFlow, parentV, parentE, steps, walks := Search(g, s);
    walk := walks[t];
    if dist[t].Inf? {
      r := NoPath;
    } else {
      r := PathResult(pathFlow[t], dist[t].d);
    }
    SearchOutcome(g, s, t, dist, pathFlow, parentV, parentE, steps);
  }

  /** A round that covers every arc out of Reach(k) makes Reach(k + 1)
      finite. */
  lemma RoundExtends(g: Network, s: int, dist0: seq<Dist>, dist: seq<Dist>, k: nat)
    requires WellFormed(g) && 0 <= s < |g| && |dist| == |g|
    requires FiniteGrows(dist0, dist) && AllFinite(dist0, Reach(g, s, k))
    requires Covered(g, dist, Reach(g, s, k), |g|)
    ensures AllFinite(dist, Reach(g, s, k + 1))
  {
    ReachInRange(g, s, k + 1);
    forall x | x in Reach(g, s, k + 1)
      ensures 0 <= x < |dist| && dist[x].Fin?
    {
      if x !in Reach(g, s, k) {
        var u, j :| u in Reach(g, s, k) && 0 <= u < |g| && 0 <= j < |g[u]| &&
          Residual(g[u][j]) > 0 && g[u][j].to == x;
      }
    }
  }

  /** A distance vector closed under residual arcs is finite on all of Reach. */
  lemma CoveredHoldsReach(g: Network, s: int, dist: seq<Dist>, k: nat)
    requires WellFormed(g) && 0 <= s < |g| && |dist| == |g| && dist[s].Fin?
    requires Covered(g, dist, FiniteNodes(dist), |g|)
    ensures AllFinite(dist, Reach(g, s, k))
  {
    ClosedHoldsReach(g, s, FiniteNodes(dist), k);
  }

  /** What the search reports, from its final state. */
  lemma SearchOutcome(g: Network, s: int, t: int, dist: seq<Dist>, pathFlow: seq<int>,
                      parentV: seq<int>, parentE: seq<int>, steps: nat)
    requires WellFormed(g) && 0 <= t < |g|
    requires SearchInv(g, s, dist, pathFlow, parentV, parentE, steps)
    requires AllFinite(dist, Reach(g, s, |g| - 1))
    ensures dist[t].Inf? == (t !in Reach(g, s, |g| - 1))
    ensures dist[t].Inf? == !Reachable(g, s, t)
    ensures dist[t].Fin? ==> Reached(s, parentV, t) && 0 < pathFlow[t] <= INT_MAX
    ensures dist[t].Fin? && parentV[t] != -1 ==> pathFlow[t] <= Residual(g[parentV[t]][parentE[t]])
  {
    if dist[t].Inf? {
      forall k: nat ensures t !in Reach(g, s, k) {
        ReachSaturates(g, s, k);
      }
    } else {
      ReachSaturates(g, s, steps);
    }
  }

  lemma InitialSearch(g: Network, s: int, dist: seq<Dist>, pathFlow: seq<int>,
                      parentV: seq<int>, parentE: seq<int>)
    requires 0 <= s < |g|
    requires dist == seq(|g|, v => if v == s then Fin(0) else Inf)
    requires pathFlow == seq(|g|, v => if v == s then INT_MAX else 0)
    requires parentV == seq(|g|, v => -1) && parentE == seq(|g|, v => -1)
    ensures SearchInv(g, s, dist, pathFlow, parentV, parentE, 0)
    ensures AllFinite(dist, Reach(g, s, 0))
  {
  }

  /** One round of relaxation over every node, in id order. Every residual
      arc out of `from` (finite on entry) ends finite; a round that updates
      nothing leaves the distances closed under residual arcs. */
  method Round(g: Network, s: int, dist: seq<Dist>, pathFlow: seq<int>,
               parentV: seq<int>, parentE: seq<int>, ghost steps: nat, ghost from: set<int>,
               ghost walks: seq<seq<Hop>>)
    returns (dist': seq<Dist>, pathFlow': seq<int>, parentV': seq<int>, parentE': seq<int>,
             ghost steps': nat, updated: bool, ghost walks': seq<seq<Hop>>)
    requires WellFormed(g)
    requires SearchInv(g, s, dist, pathFlow, parentV, parentE, steps)
    requires Witnessed(g, s, dist, walks)
    ensures Witnessed(g, s, dist', walks')
    requires AllFinite(dist, from)
    ensures SearchInv(g, s, dist', pathFlow', parentV', parentE', steps')
    ensures FiniteGrows(dist, dist')
    ensures Covered(g, dist', from, |g|)
    ensures !updated ==> dist' == dist && Covered(g, dist', FiniteNodes(dist'), |g|)
  {
    ghost var dist0 := dist;
    dist', pathFlow', parentV', parentE', steps' := dist, pathFlow, parentV, parentE, steps;
    updated := false;
    walks' := walks;
    var u := 0;
    while u < |g|
      invariant 0 <= u <= |g|
      invariant SearchInv(g, s, dist', pathFlow', parentV', parentE', steps')
      invariant Witnessed(g, s, dist', walks')
      invariant FiniteGrows(dist, dist')
      invariant Covered(g, dist', from, u)
      invariant !updated ==> dist' == dist && Covered(g, dist', FiniteNodes(dist'), u)
    {
      ghost var before := dist';
      dist', pathFlow', parentV', parentE', steps', updated, walks' :=
        ScanNode(g, s, dist', pathFlow', parentV', parentE', steps', updated, u, walks');
      var next := u + 1;
      CoveredStep(g, from, before, dist', u, next);
      if !updated {
        CoveredStep(g, FiniteNodes(dist'), before, dist', u, next);
      }
      u := next;
    }
    assert u == |g|;
  }

  /** Scanning node `u` extends the arcs known to be covered by one node. */
  lemma CoveredStep(g: Network, from: set<int>, before: seq<Dist>, after: seq<Dist>, u: int, next: int)
    requires WellFormed(g) && |before| == |g| && 0 <= u < |g| && next == u + 1
    requires Covered(g, before, from, u) && FiniteGrows(before, after)
    requires u in from ==> forall j | 0 <= j < |g[u]| && Residual(g[u][j]) > 0 :: after[g[u][j].to].Fin?
    ensures Covered(g, after, from, next)
  {
    forall x, j | 0 <= x < |g| && 0 <= j < |g[x]| && x < next && x in from && Residual(g[x][j]) > 0
      ensures after[g[x][j].to].Fin?
    {
      if x < u {
        assert before[g[x][j].to].Fin?;
      }
    }
  }

  /** The arcs of node `u`, in insertion order. */
  method ScanNode(g: Network, s: int, dist: seq<Dist>, pathFlow: seq<int>,
                  parentV: seq<int>, parentE: seq<int>, ghost steps: nat, updated: bool, u: int,
                  ghost walks: seq<seq<Hop>>)
    returns (dist': seq<Dist>, pathFlow': seq<int>, parentV': seq<int>, parentE': seq<int>,
             ghost steps': nat, updated': bool, ghost walks': seq<seq<Hop>>)
    requires WellFormed(g) && 0 <= u < |g|
    requires SearchInv(g, s, dist, pathFlow, parentV, parentE, steps)
    requires Witnessed(g, s, dist, walks)
    ensures SearchInv(g, s, dist', pathFlow', parentV', parentE', steps')
    ensures Witnessed(g, s, dist', walks')
    ensures FiniteGrows(dist, dist')
    ensures dist[u].Fin? ==> forall j | 0 <= j < |g[u]| && Residual(g[u][j]) > 0 :: dist'[g[u][j].to].Fin?
    ensures !updated' ==> !updated && dist' == dist
  {
    dist', pathFlow', parentV', parentE', steps', updated' := dist, pathFlow, parentV, parentE, steps, updated;
    walks' := walks;
    var idx := 0;
    while idx < |g[u]|
      invariant 0 <= idx <= |g[u]|
      invariant SearchInv(g, s, dist', pathFlow', parentV', parentE', steps')
      invariant Witnessed(g, s, dist', walks')
      invariant FiniteGrows(dist, dist')
      invariant dist[u].Fin? ==> ArcsReached(g, dist', u, idx)
      invariant !updated' ==> !updated && dist' == dist
    {
      ghost var before := dist';
      dist', pathFlow', parentV', parentE', steps', updated', walks' :=
        Relax(g, s, dist', pathFlow', parentV', parentE', steps', updated', u, idx, walks');
      var next := idx + 1;
      FiniteGrowsTrans(dist, before, dist');
      if dist[u].Fin? {
        ArcsStep(g, u, before, dist', idx, next);
      }
      idx := next;
    }
    assert idx == |g[u]|;
  }

  /** The residual arcs of `u` below `idx` all end at finite distances. */
  ghost predicate ArcsReached(g: Network, dist: seq<Dist>, u: int, idx: int)
    requires WellFormed(g) && 0 <= u < |g| && |dist| == |g|
  {
    forall j | 0 <= j < idx && j < |g[u]| && Residual(g[u][j]) > 0 :: dist[g[u][j].to].Fin?
  }

  lemma FiniteGrowsTrans(a: seq<Dist>, b: seq<Dist>, c: seq<Dist>)
    requires FiniteGrows(a, b) && FiniteGrows(b, c)
    ensures FiniteGrows(a, c)
  {
  }

  /** Relaxing arc `idx` extends ArcsReached by one arc. */
  lemma ArcsStep(g: Network, u: int, before: seq<Dist>, after: seq<Dist>, idx: int, next: int)
    requires WellFormed(g) && 0 <= u < |g| && |before| == |g| && 0 <= idx < |g[u]| && next == idx + 1
    requires ArcsReached(g, before, u, idx) && FiniteGrows(before, after)
    requires Residual(g[u][idx]) > 0 ==> after[g[u][idx].to].Fin?
    ensures ArcsReached(g, after, u, next)
  {
    forall j | 0 <= j < next && j < |g[u]| && Residual(g[u][j]) > 0
      ensures after[g[u][j].to].Fin?
    {
      if j < idx {
        assert before[g[u][j].to].Fin?;
      }
    }
  }

  /** One relaxation of arc `idx` of node `u` (the body of the inner loop). */
  method Relax(g: Network, s: int, dist: seq<Dist>, pathFlow: seq<int>,
               parentV: seq<int>, parentE: seq<int>, ghost steps: nat, updated: bool,
               u: int, idx: int, ghost walks: seq<seq<Hop>>)
    returns (dist': seq<Dist>, pathFlow': seq<int>, parentV': seq<int>, parentE': seq<int>,
             ghost steps': nat, updated': bool, ghost walks': seq<seq<Hop>>)
    requires WellFormed(g) && 0 <= u < |g| && 0 <= idx < |g[u]|
    requires SearchInv(g, s, dist, pathFlow, parentV, parentE, steps)
    requires Witnessed(g, s, dist, walks)
    ensures SearchInv(g, s, dist', pathFlow', parentV', parentE', steps')
    ensures Witnessed(g, s, dist', walks')
    ensures FiniteGrows(dist, dist')
    ensures dist[u].Fin? && Residual(g[u][idx]) > 0 ==> dist'[g[u][idx].to].Fin?
    ensures !updated' ==> !updated && dist' == dist
    ensures dist' != dist ==>
      var v := g[u][idx].to;
      && dist[u].Fin? && dist'[v] == Fin(dist[u].d + g[u][idx].cost)
      && (dist[v].Inf? || dist'[v].d < dist[v].d)
      && parentV'[v] == u && pathFlow'[v] <= pathFlow[u] && pathFlow'[v] <= Residual(g[u][idx])
  {
    dist', pathFlow', parentV', parentE', steps', updated' := dist, pathFlow, parentV, parentE, steps, updated;
    walks' := walks;
    var edge := g[u][idx];
    var v := edge.to;
    var residualCapacity := Residual(edge);
    if residualCapacity > 0 && dist[u].Fin? {
      var newDist := dist[u].d + edge.cost;
      if dist[v].Inf? || dist[v].d > newDist {
        dist' := dist[v := Fin(newDist)];
        parentV' := parentV[v := u];
        parentE' := parentE[v := idx];
        pathFlow' := pathFlow[v := if pathFlow[u] < residualCapacity then pathFlow[u] else residualCapacity];
        updated' := true;
        steps' := steps + 1;
        RelaxKeepsInv(g, s, dist, pathFlow, parentV, parentE, steps, u, idx,
                      dist', pathFlow', parentV', parentE', steps');
        walks' := walks[v := walks[u] + [Hop(u, idx)]];
        WitnessRelax(g, s, dist, walks, u, idx, dist', walks');
      }
    }
  }

  lemma RelaxKeepsInv(g: Network, s: int, dist: seq<Dist>, pathFlow: seq<int>,
                      parentV: seq<int>, parentE: seq<int>, steps: nat, u: int, idx: int,
                      dist': seq<Dist>, pathFlow': seq<int>, parentV': seq<int>, parentE': seq<int>,
                      steps': nat)
    requires WellFormed(g) && 0 <= u < |g| && 0 <= idx < |g[u]|
    requires SearchInv(g, s, dist, pathFlow, parentV, parentE, steps)
    requires dist[u].Fin? && Residual(g[u][idx]) > 0 && steps' == steps + 1
    requires var v := g[u][idx].to;
      && dist' == dist[v := Fin(dist[u].d + g[u][idx].cost)]
      && parentV' == parentV[v := u] && parentE' == parentE[v := idx]
      && pathFlow' == pathFlow[v := if pathFlow[u] < Residual(g[u][idx]) then pathFlow[u] else Residual(g[u][idx])]
    ensures SearchInv(g, s, dist', pathFlow', parentV', parentE', steps')
    ensures FiniteGrows(dist, dist') && dist'[g[u][idx].to].Fin?
  {
    var v := g[u][idx].to;
    ReachStep(g, s, steps, u, idx);
    ReachGrows(g, s, steps);
    assert Reach(g, s, steps') == Reach(g, s, steps + 1);
    assert Reached(s, parentV', u);
    forall w | 0 <= w < |g| && parentV'[w] != -1
      ensures 0 <= parentV'[w] < |g| && 0 <= parentE'[w] < |g[parentV'[w]]|
      ensures g[parentV'[w]][parentE'[w]].to == w && Residual(g[parentV'[w]][parentE'[w]]) > 0
      ensures Reached(s, parentV', parentV'[w])
      ensures pathFlow'[w] <= Residual(g[parentV'[w]][parentE'[w]])
    {
      if w != v {
        assert Reached(s, parentV, parentV[w]);
      }
    }
    assert ParentLinks(g, s, parentV', parentE');
    forall w | 0 <= w < |g|
      ensures dist'[w].Fin? == Reached(s, parentV', w)
    {
      if w != v { assert dist[w].Fin? == Reached(s, parentV, w); }
    }
    forall w | 0 <= w < |g| && dist'[w].Fin?
      ensures w in Reach(g, s, steps') && 0 < pathFlow'[w] <= INT_MAX
    {
      if w != v { assert dist[w].Fin?; }
    }
  }

  // ---------------------------------------------------------------------
  // Augmentation

  function Pos(x: int): nat { if x > 0 then x else 0 }

  /** The net flow leaving a node: the sum of the flows on its arcs. */
  function FlowSum(a: seq<Edge>): int
  {
    if |a| == 0 then 0 else FlowSum(a[..|a| - 1]) + a[|a| - 1].flow
  }

  /** The positive residual capacity left on a node's arcs. */
  function Slack(a: seq<Edge>): nat
  {
    if |a| == 0 then 0 else Slack(a[..|a| - 1]) + Pos(Residual(a[|a| - 1]))
  }

  /** Adding `d` to the flow of one arc moves both sums by that arc only. */
  lemma {:induction false} SumsUpdate(a: seq<Edge>, i: int, d: int)
    requires 0 <= i < |a|
    ensures FlowSum(a[i := a[i].(flow := a[i].flow + d)]) == FlowSum(a) + d
    ensures Slack(a[i := a[i].(flow := a[i].flow + d)])
         == Slack(a) - Pos(Residual(a[i])) + Pos(Residual(a[i]) - d)
  {
    var b := a[i := a[i].(flow := a[i].flow + d)];
    if i == |a| - 1 {
      assert b[..|b| - 1] == a[..|a| - 1];
    } else {
      var p := a[..|a| - 1];
      assert b[..|b| - 1] == p[i := p[i].(flow := p[i].flow + d)];
      SumsUpdate(p, i, d);
    }
  }

  /** The network with `d` added to the flow of arc `j` of node `u`. */
  function AddFlow(g: Network, u: int, j: int, d: int): (r: Network)
    requires 0 <= u < |g| && 0 <= j < |g[u]|
    ensures SameShape(g, r)
    ensures forall x | 0 <= x < |g| && x != u :: r[x] == g[x]
    ensures r[u] == g[u][j := g[u][j].(flow := g[u][j].flow + d)]
  {
    g[u := g[u][j := g[u][j].(flow := g[u][j].flow + d)]]
  }

  /** One step of the augmentation walk: `f` more on arc `j` of `u`, and
      `f` less on the arc its twin index names at its head. */
  function Push(g: Network, u: int, j: int, f: int): (r: Network)
    requires WellFormed(g) && 0 <= u < |g| && 0 <= j < |g[u]|
    ensures SameShape(g, r) && WellFormed(r)
  {
    var forward := AddFlow(g, u, j, f);
    SameShapeKeepsLinks(g, forward);
    var r := AddFlow(forward, g[u][j].to, g[u][j].rev, -f);
    SameShapeTrans(g, forward, r);
    SameShapeKeepsLinks(g, r);
    r
  }

  /** Adding `d` to one arc of `u` moves u's sums by that arc only. */
  lemma AddFlowSum(g: Network, u: int, j: int, d: int, x: int)
    requires 0 <= u < |g| && 0 <= j < |g[u]| && 0 <= x < |g|
    ensures FlowSum(AddFlow(g, u, j, d)[x]) == FlowSum(g[x]) + (if x == u then d else 0)
    ensures x == u ==> Slack(AddFlow(g, u, j, d)[x]) == Slack(g[u]) - Pos(Residual(g[u][j])) + Pos(Residual(g[u][j]) - d)
  {
    if x == u {
      SumsUpdate(g[u], j, d);
    }
  }

  /** A step moves net outflow by +f at the arc's tail and -f at its head;
      off a self-loop, it uses up min(f, residual) of the tail's slack. */
  lemma PushSums(g: Network, u: int, j: int, f: int)
    requires WellFormed(g) && 0 <= u < |g| && 0 <= j < |g[u]|
    ensures forall x | 0 <= x < |g| ::
      FlowSum(Push(g, u, j, f)[x]) == FlowSum(g[x]) + (if x == u then f else 0) - (if x == g[u][j].to then f else 0)
    ensures u != g[u][j].to ==>
      Slack(Push(g, u, j, f)[u]) == Slack(g[u]) - Pos(Residual(g[u][j])) + Pos(Residual(g[u][j]) - f)
  {
    forall x | 0 <= x < |g|
      ensures FlowSum(Push(g, u, j, f)[x]) == FlowSum(g[x]) + (if x == u then f else 0) - (if x == g[u][j].to then f else 0)
    {
      PushSumAt(g, u, j, f, x);
    }
    if u != g[u][j].to {
      PushSlack(g, u, j, f);
    }
  }

  lemma PushSumAt(g: Network, u: int, j: int, f: int, x: int)
    requires WellFormed(g) && 0 <= u < |g| && 0 <= j < |g[u]| && 0 <= x < |g|
    ensures FlowSum(Push(g, u, j, f)[x]) == FlowSum(g[x]) + (if x == u then f else 0) - (if x == g[u][j].to then f else 0)
  {
    var forward := AddFlow(g, u, j, f);
    assert Push(g, u, j, f) == AddFlow(forward, g[u][j].to, g[u][j].rev, -f);
    AddFlowSum(g, u, j, f, x);
    AddFlowSum(forward, g[u][j].to, g[u][j].rev, -f, x);
  }

  lemma PushSlack(g: Network, u: int, j: int, f: int)
    requires WellFormed(g) && 0 <= u < |g| && 0 <= j < |g[u]| && u != g[u][j].to
    ensures Slack(Push(g, u, j, f)[u]) == Slack(g[u]) - Pos(Residual(g[u][j])) + Pos(Residual(g[u][j]) - f)
  {
    var forward := AddFlow(g, u, j, f);
    var r := AddFlow(forward, g[u][j].to, g[u][j].rev, -f);
    assert r == Push(g, u, j, f);
    AddFlowSum(g, u, j, f, u);
    assert r[u] == forward[u];
  }

  /** Pushing `f` on an arc and `-f` on its twin keeps flows antisymmetric. */
  lemma PushPair(g: Network, u: int, j: int, f: int)
    requires WellFormed(g) && TwinLinked(g) && Antisymmetric(g)
    requires 0 <= u < |g| && 0 <= j < |g[u]|
    ensures WellFormed(Push(g, u, j, f)) && TwinLinked(Push(g, u, j, f))
    ensures Antisymmetric(Push(g, u, j, f))
  {
    var v, rv := g[u][j].to, g[u][j].rev;
    var h := Push(g, u, j, f);
    SameShapeKeepsLinks(g, h);
    forall x, k | 0 <= x < |h| && 0 <= k < |h[x]|
      ensures h[x][k].flow + h[h[x][k].to][h[x][k].rev].flow == 0
    {
      PushFlow(g, u, j, f, x, k);
      var y, m := g[x][k].to, g[x][k].rev;
      assert Frame(h[x][k]) == Frame(g[x][k]);
      PushFlow(g, u, j, f, y, m);
    }
  }

  /** The flow of one arc after a step. */
  lemma PushFlow(g: Network, u: int, j: int, f: int, x: int, k: int)
    requires WellFormed(g) && 0 <= u < |g| && 0 <= j < |g[u]|
    requires 0 <= x < |g| && 0 <= k < |g[x]|
    ensures k < |Push(g, u, j, f)[x]|
    ensures Push(g, u, j, f)[x][k].flow == g[x][k].flow
      + (if x == u && k == j then f else 0) - (if x == g[u][j].to && k == g[u][j].rev then f else 0)
  {
  }

  /** The arc that last reached `v`, as the predecessor tables name it,
      when those name an arc of `g`. */
  predicate HasParentArc(g: Network, parentV: seq<int>, parentE: seq<int>, v: int)
  {
    0 <= v < |parentV| && v < |parentE| && 0 <= parentV[v] < |g| && 0 <= parentE[v] < |g[parentV[v]]|
  }

  /** The augmentation as a value: Push along the arc that last reached
      each node of `trail` but the last, in trail order (from `t` back
      towards `s`). */
  function PushAlong(g: Network, parentV: seq<int>, parentE: seq<int>, trail: seq<int>, f: int): (r: Network)
    requires WellFormed(g)
    ensures SameShape(g, r) && WellFormed(r)
    decreases |trail|
  {
    if |trail| <= 1 then g
    else
      var h := PushAlong(g, parentV, parentE, trail[..|trail| - 1], f);
      var v := trail[|trail| - 2];
      if HasParentArc(h, parentV, parentE, v) then
        var r := Push(h, parentV[v], parentE[v], f);
        SameShapeTrans(g, h, r);
        r
      else h
  }

  /** What one link of the walk adds to arc `k` of node `x`: `f` if it is
      the link's arc, `-f` if it is that arc's twin. */
  function LinkGain(g: Network, parentV: seq<int>, parentE: seq<int>, v: int, f: int, x: int, k: int): int
  {
    if HasParentArc(g, parentV, parentE, v) then
      var e := g[parentV[v]][parentE[v]];
      (if x == parentV[v] && k == parentE[v] then f else 0) - (if x == e.to && k == e.rev then f else 0)
    else 0
  }

  /** What the whole walk along `trail` adds to arc `k` of node `x`. */
  function ChainGain(g: Network, parentV: seq<int>, parentE: seq<int>, trail: seq<int>, f: int, x: int, k: int): int
    decreases |trail|
  {
    if |trail| <= 1 then 0
    else ChainGain(g, parentV, parentE, trail[..|trail| - 1], f, x, k)
         + LinkGain(g, parentV, parentE, trail[|trail| - 2], f, x, k)
  }

  /** Arc by arc, the augmentation adds `f` for each time the arc is a
      link of the chain and takes `f` for each time it is a link's twin;
      no other flow changes. */
  lemma {:induction false} PushAlongFlow(g: Network, parentV: seq<int>, parentE: seq<int>, trail: seq<int>,
                                         f: int, x: int, k: int)
    requires WellFormed(g) && 0 <= x < |g| && 0 <= k < |g[x]|
    ensures k < |PushAlong(g, parentV, parentE, trail, f)[x]|
    ensures PushAlong(g, parentV, parentE, trail, f)[x][k].flow == g[x][k].flow + ChainGain(g, parentV, parentE, trail, f, x, k)
    decreases |trail|
  {
    if |trail| > 1 {
      var pre := trail[..|trail| - 1];
      PushAlongFlow(g, parentV, parentE, pre, f, x, k);
      var h := PushAlong(g, parentV, parentE, pre, f);
      var v := trail[|trail| - 2];
      assert HasParentArc(h, parentV, parentE, v) == HasParentArc(g, parentV, parentE, v);
      if HasParentArc(g, parentV, parentE, v) {
        assert Frame(h[parentV[v]][parentE[v]]) == Frame(g[parentV[v]][parentE[v]]);
        PushFlow(h, parentV[v], parentE[v], f, x, k);
      }
    }
  }

  /** An arc that is neither a link of the chain nor a link's twin keeps
      its flow through the augmentation. */
  lemma {:induction false} OffChainKeeps(g: Network, parentV: seq<int>, parentE: seq<int>, trail: seq<int>,
                                         f: int, x: int, k: int)
    requires WellFormed(g) && 0 <= x < |g| && 0 <= k < |g[x]|
    requires forall i | 0 <= i < |trail| - 1 :: LinkGain(g, parentV, parentE, trail[i], f, x, k) == 0
    ensures PushAlong(g, parentV, parentE, trail, f)[x][k].flow == g[x][k].flow
    decreases |trail|
  {
    PushAlongFlow(g, parentV, parentE, trail, f, x, k);
    NoGain(g, parentV, parentE, trail, f, x, k);
  }

  /** A chain none of whose links touch an arc adds nothing to it. */
  lemma {:induction false} NoGain(g: Network, parentV: seq<int>, parentE: seq<int>, trail: seq<int>,
                                  f: int, x: int, k: int)
    requires forall i | 0 <= i < |trail| - 1 :: LinkGain(g, parentV, parentE, trail[i], f, x, k) == 0
    ensures ChainGain(g, parentV, parentE, trail, f, x, k) == 0
    decreases |trail|
  {
    if |trail| > 1 {
      var pre := trail[..|trail| - 1];
      assert forall i | 0 <= i < |pre| - 1 :: pre[i] == trail[i];
      NoGain(g, parentV, parentE, pre, f, x, k);
      assert LinkGain(g, parentV, parentE, trail[|trail| - 2], f, x, k) == 0;
    }
  }

  /** `trail` follows predecessor links: each node but the last differs
      from `s`, and the next node is its recorded predecessor. */
  ghost predicate Chain(s: int, parentV: seq<int>, trail: seq<int>)
  {
    && (forall i | 0 <= i < |trail| - 1 :: trail[i] != s && 0 <= trail[i] < |parentV|)
    && (forall i, j | 0 <= i && j == i + 1 && j < |trail| :: trail[j] == parentV[trail[i]])
  }

  lemma ChainExtend(s: int, parentV: seq<int>, trail: seq<int>, u: int)
    requires Chain(s, parentV, trail) && |trail| > 0
    requires trail[|trail| - 1] != s && 0 <= trail[|trail| - 1] < |parentV|
    requires u == parentV[trail[|trail| - 1]]
    ensures Chain(s, parentV, trail + [u])
  {
  }

  /** How much a successful augmentation of `f` units changes the net
      outflow of node `x`: +f at the source, -f at the sink, 0 elsewhere. */
  function Excess(x: int, s: int, t: int, f: int): int
  {
    (if x == s then f else 0) - (if x == t then f else 0)
  }

  /** `h` has the shape of `g` and keeps its antisymmetry. */
  ghost predicate KeepsShape(g: Network, h: Network)
    requires WellFormed(g)
  {
    && SameShape(g, h) && WellFormed(h)
    && (TwinLinked(g) && Antisymmetric(g) ==> TwinLinked(h) && Antisymmetric(h))
  }

  /** Mid-walk at `v`: net outflow has moved by -f at `t` and +f at `v`. */
  ghost predicate FlowMoved(g: Network, h: Network, t: int, f: int, v: int)
    requires |h| == |g|
  {
    forall x | 0 <= x < |g| :: FlowSum(h[x]) == FlowSum(g[x]) + Excess(x, v, t, f)
  }

  /** The source's arcs are touched only by the walk's last step, which
      uses up some of their slack. */
  ghost predicate SourceSpent(g: Network, h: Network, s: int, v: int)
    requires |h| == |g| && 0 <= s < |g|
  {
    && (v != s ==> h[s] == g[s])
    && (v == s ==> Slack(h[s]) < Slack(g[s]))
  }

  /** One step keeps the shape and the antisymmetry. */
  lemma StepKeepsShape(g: Network, h: Network, u: int, idx: int, f: int)
    requires WellFormed(g) && KeepsShape(g, h) && 0 <= u < |h| && 0 <= idx < |h[u]|
    ensures KeepsShape(g, Push(h, u, idx, f))
  {
    if TwinLinked(g) && Antisymmetric(g) {
      PushPair(h, u, idx, f);
    }
    SameShapeTrans(g, h, Push(h, u, idx, f));
  }

  /** One step along arc `idx` of `u`, which ends at `v`, moves the +f to `u`. */
  lemma StepMovesFlow(g: Network, h: Network, t: int, f: int, v: int, u: int, idx: int)
    requires WellFormed(h) && |h| == |g| && 0 <= u < |h| && 0 <= idx < |h[u]| && h[u][idx].to == v
    requires FlowMoved(g, h, t, f, v)
    ensures FlowMoved(g, Push(h, u, idx, f), t, f, u)
  {
    var h' := Push(h, u, idx, f);
    PushSums(h, u, idx, f);
    forall x | 0 <= x < |g|
      ensures FlowSum(h'[x]) == FlowSum(g[x]) + (if x == u then f else 0) - (if x == t then f else 0)
    {
      assert FlowSum(h'[x]) == FlowSum(h[x]) + (if x == u then f else 0) - (if x == v then f else 0);
    }
  }

  /** A step from `v` != s along an arc of positive residual capacity in `g`. */
  lemma StepSpendsSource(g: Network, h: Network, s: int, f: int, v: int, u: int, idx: int)
    requires WellFormed(h) && |h| == |g| && 0 <= s < |g| && 0 <= u < |h| && 0 <= idx < |h[u]|
    requires h[u][idx].to == v && v != s && f > 0
    requires SourceSpent(g, h, s, v)
    requires u == s ==> Residual(g[u][idx]) > 0
    ensures SourceSpent(g, Push(h, u, idx, f), s, u)
  {
    var h' := Push(h, u, idx, f);
    PushSums(h, u, idx, f);
    if u == s {
      var r := Residual(h[s][idx]);
      assert h[s] == g[s];
      assert Slack(h'[s]) == Slack(g[s]) - Pos(r) + Pos(r - f);
    } else {
      assert h'[s] == h[s];
    }
  }

  /** The walk's state at node `v`, having visited `trail`. */
  ghost predicate WalkInv(g: Network, h: Network, s: int, t: int, parentV: seq<int>, parentE: seq<int>,
                          f: int, v: int, trail: seq<int>)
    requires WellFormed(g) && 0 <= s < |g|
  {
    && 0 <= v < |g| && ParentLinks(g, s, parentV, parentE) && Reached(s, parentV, v)
    && KeepsShape(g, h) && FlowMoved(g, h, t, f, v) && SourceSpent(g, h, s, v)
    && 1 <= |trail| && trail[0] == t && trail[|trail| - 1] == v && Chain(s, parentV, trail)
  }

  /** One step of the walk, from `v` to its predecessor. */
  lemma WalkStep(g: Network, h: Network, s: int, t: int, parentV: seq<int>, parentE: seq<int>,
                 f: int, v: int, trail: seq<int>)
    requires WellFormed(g) && 0 <= s < |g| && v != s && f > 0
    requires WalkInv(g, h, s, t, parentV, parentE, f, v, trail)
    ensures 0 <= parentV[v] < |h| && 0 <= parentE[v] < |h[parentV[v]]|
    ensures WalkInv(g, Push(h, parentV[v], parentE[v], f), s, t, parentV, parentE, f, parentV[v], trail + [parentV[v]])
  {
    var u, idx := parentV[v], parentE[v];
    assert 0 <= u < |g| && 0 <= idx < |g[u]| && g[u][idx].to == v && Residual(g[u][idx]) > 0;
    assert Reached(s, parentV, u);
    assert Frame(g[u][idx]) == Frame(h[u][idx]);
    var h' := Push(h, u, idx, f);
    StepKeepsShape(g, h, u, idx, f);
    StepMovesFlow(g, h, t, f, v, u, idx);
    StepSpendsSource(g, h, s, f, v, u, idx);
    ChainExtend(s, parentV, trail, u);
    var trail' := trail + [u];
    assert trail'[0] == t && trail'[|trail'| - 1] == u;
  }

  /** A walk that has reached the source has completed the augmentation. */
  lemma WalkDone(g: Network, h: Network, s: int, t: int, f: int)
    requires WellFormed(g) && 0 <= s < |g| && KeepsShape(g, h)
    requires FlowMoved(g, h, t, f, s) && SourceSpent(g, h, s, s)
    ensures forall x | 0 <= x < |g| :: FlowSum(h[x]) == FlowSum(g[x]) + Excess(x, s, t, f)
    ensures Slack(h[s]) < Slack(g[s])
  {
  }

  /** The walk itself, stopped at `s` or after |g| links. */
  method Walk(g: Network, s: int, t: int, parentV: seq<int>, parentE: seq<int>, f: int)
    returns (g': Network, v: int, ghost trail: seq<int>)
    requires WellFormed(g) && 0 <= s < |g| && 0 <= t < |g| && s != t
    requires ParentLinks(g, s, parentV, parentE) && Reached(s, parentV, t)
    requires f > 0
    ensures WalkInv(g, g', s, t, parentV, parentE, f, v, trail)
    ensures g' == PushAlong(g, parentV, parentE, trail, f)
    ensures |trail| <= |g| + 1 && (v == s || |trail| == |g| + 1)
  {
    g' := g;
    v := t;
    var steps := 0;
    trail := [t];
    while v != s && steps < |g|
      invariant WalkInv(g, g', s, t, parentV, parentE, f, v, trail)
      invariant g' == PushAlong(g, parentV, parentE, trail, f)
      invariant steps <= |g| && |trail| == steps + 1
      decreases |g| - steps
    {
      var u := parentV[v];
      var idx := parentE[v];
      WalkStep(g, g', s, t, parentV, parentE, f, v, trail);
      g' := Push(g', u, idx, f);
      v := u;
      steps := steps + 1;
      PushAlongStep(g, parentV, parentE, trail, f, u);
      trail := trail + [v];
    }
  }

  /** Extending the trail by one node extends the push by its link. */
  lemma PushAlongStep(g: Network, parentV: seq<int>, parentE: seq<int>, trail: seq<int>, f: int, u: int)
    requires WellFormed(g) && |trail| > 0
    requires HasParentArc(g, parentV, parentE, trail[|trail| - 1])
    ensures var h := PushAlong(g, parentV, parentE, trail, f); var v := trail[|trail| - 1];
      && HasParentArc(h, parentV, parentE, v)
      && PushAlong(g, parentV, parentE, trail + [u], f) == Push(h, parentV[v], parentE[v], f)
  {
    assert (trail + [u])[..|trail|] == trail;
  }

  /** The augmentation loop of min_cost_max_flow: from `t`, follow the
      predecessor arcs back to `s`, adding `f` to each arc and subtracting
      it from the arc's twin. The source follows the links without bound;
      a walk that has not met `s` after |g| links is on a cycle the source
      would follow for ever, and is reported with `ok` false. */
  method Augment(g: Network, s: int, t: int, parentV: seq<int>, parentE: seq<int>, f: int)
    returns (g': Network, ok: bool, ghost trail: seq<int>)
    requires WellFormed(g) && 0 <= s < |g| && 0 <= t < |g| && s != t
    requires ParentLinks(g, s, parentV, parentE) && Reached(s, parentV, t)
    requires f > 0
    ensures SameShape(g, g')
    ensures TwinLinked(g) && Antisymmetric(g) ==> Antisymmetric(g')
    ensures 1 <= |trail| <= |g| + 1 && trail[0] == t && Chain(s, parentV, trail)
    ensures g' == PushAlong(g, parentV, parentE, trail, f)
    ensures ok == (trail[|trail| - 1] == s)
    ensures !ok ==> |trail| == |g| + 1
    ensures ok ==> forall x | 0 <= x < |g| :: FlowSum(g'[x]) == FlowSum(g[x]) + Excess(x, s, t, f)
    ensures ok ==> Slack(g'[s]) < Slack(g[s])
  {
    var v;
    g', v, trail := Walk(g, s, t, parentV, parentE, f);
    ok := v == s;
    if ok {
      WalkDone(g, g', s, t, f);
    }
  }

  // ---------------------------------------------------------------------
  // Successive shortest paths

  /** Two completed augmentations compose. */
  lemma FlowMovedAdd(g: Network, h: Network, h': Network, s: int, t: int, a: int, b: int, c: int)
    requires |h| == |g| && |h'| == |g| && c == a + b
    requires FlowMoved(g, h, t, a, s) && FlowMoved(h, h', t, b, s)
    ensures FlowMoved(g, h', t, c, s)
  {
  }

  /** An augmentation, complete or cut short, keeps the shape. */
  lemma ShapeStep(g: Network, h: Network, h': Network)
    requires WellFormed(g) && KeepsShape(g, h) && SameShape(h, h')
    requires TwinLinked(h) && Antisymmetric(h) ==> Antisymmetric(h')
    ensures KeepsShape(g, h')
  {
    SameShapeTrans(g, h, h');
    SameShapeKeepsLinks(g, h');
  }

  /** One pass of the loop body: search for a cheapest path in `h` and,
      when there is one, push its bottleneck flow along it. */
  method AugmentOnce(g: Network, h: Network, s: int, t: int)
    returns (h': Network, pathFlow: int, pathCost: int, ok: bool, ghost walk: seq<Hop>,
             ghost parentV: seq<int>, ghost parentE: seq<int>, ghost trail: seq<int>)
    requires WellFormed(g) && 0 <= s < |g| && 0 <= t < |g| && s != t && KeepsShape(g, h)
    ensures KeepsShape(g, h') && SameShape(h, h') && pathFlow >= 0
    ensures pathFlow > 0 ==>
      && ParentLinks(h, s, parentV, parentE) && Chain(s, parentV, trail)
      && |trail| >= 1 && trail[0] == t && ok == (trail[|trail| - 1] == s)
      && h' == PushAlong(h, parentV, parentE, trail, pathFlow)
    ensures pathFlow > 0 ==> ResidualWalk(h, s, t, walk) && WalkCost(h, walk) == pathCost
    ensures pathFlow == 0 ==> h' == h && ok && !Reachable(h, s, t)
    ensures pathFlow > 0 && ok ==> FlowMoved(h, h', t, pathFlow, s) && Slack(h'[s]) < Slack(h[s])
  {
    var result, pv, pe;
    result, pv, pe, walk := BellmanFord(h, s, t);
    parentV, parentE, trail := pv, pe, [t];
    if result.flow <= 0 {
      return h, 0, 0, true, walk, parentV, parentE, trail;
    }
    pathFlow, pathCost := result.flow, result.cost;
    h', ok, trail := Augment(h, s, t, pv, pe, pathFlow);
    ShapeStep(g, h, h');
  }

  /** The units sent over a run's augmentations. */
  function FlowTotal(log: seq<PathResult>): int
  {
    if |log| == 0 then 0 else FlowTotal(log[..|log| - 1]) + log[|log| - 1].flow
  }

  /** The cost charged over a run's augmentations: each path's flow times
      its cost. */
  function CostTotal(log: seq<PathResult>): int
  {
    if |log| == 0 then 0 else CostTotal(log[..|log| - 1]) + log[|log| - 1].flow * log[|log| - 1].cost
  }

  /** Augmentation `i` sent log[i].flow > 0 units, and its cost log[i].cost
      is the cost of the residual walk walks[i] from `s` to `t` in the
      network nets[i] it was found in. The next network nets[i + 1] differs
      from nets[i] in flows only, and moved exactly log[i].flow units from
      `s` to `t` unless it is the last one and the run did not `complete`. */
  ghost predicate Traced(s: int, t: int, log: seq<PathResult>, nets: seq<Network>, walks: seq<seq<Hop>>,
                         complete: bool)
  {
    && |nets| == |log| + 1 && |walks| == |log|
    && Costed(s, t, log, nets, walks) && Linked(s, t, log, nets, complete)
  }

  /** Each augmentation is costed by a residual walk in its own network. */
  ghost predicate Costed(s: int, t: int, log: seq<PathResult>, nets: seq<Network>, walks: seq<seq<Hop>>)
    requires |nets| == |log| + 1 && |walks| == |log|
  {
    forall i | 0 <= i < |log| ::
      log[i].flow > 0 && ResidualWalk(nets[i], s, t, walks[i]) && WalkCost(nets[i], walks[i]) == log[i].cost
  }

  /** Each network follows from the one before by its augmentation. */
  ghost predicate Linked(s: int, t: int, log: seq<PathResult>, nets: seq<Network>, complete: bool)
    requires |nets| == |log| + 1
  {
    forall i | 0 <= i < |log| ::
      SameShape(nets[i], nets[i + 1])
      && (i + 1 < |log| || complete ==> FlowMoved(nets[i], nets[i + 1], t, log[i].flow, s))
  }

  /** Recording a walk found in the current network keeps the costing. */
  lemma CostedExtend(s: int, t: int, log: seq<PathResult>, nets: seq<Network>, walks: seq<seq<Hop>>,
                     h': Network, r: PathResult, w: seq<Hop>)
    requires |nets| == |log| + 1 && |walks| == |log| && Costed(s, t, log, nets, walks)
    requires r.flow > 0 && ResidualWalk(nets[|log|], s, t, w) && WalkCost(nets[|log|], w) == r.cost
    ensures Costed(s, t, log + [r], nets + [h'], walks + [w])
  {
    var log', nets', walks' := log + [r], nets + [h'], walks + [w];
    forall i | 0 <= i < |log'|
      ensures log'[i].flow > 0 && ResidualWalk(nets'[i], s, t, walks'[i])
      ensures WalkCost(nets'[i], walks'[i]) == log'[i].cost
    {
      assert nets'[i] == nets[i];
      if i < |log| {
        assert log'[i] == log[i] && walks'[i] == walks[i];
      }
    }
  }

  /** Recording a network reached by a flow-only change keeps the chain. */
  lemma LinkedExtend(s: int, t: int, log: seq<PathResult>, nets: seq<Network>, h': Network, r: PathResult, done: bool)
    requires |nets| == |log| + 1 && Linked(s, t, log, nets, true)
    requires SameShape(nets[|log|], h') && (done ==> FlowMoved(nets[|log|], h', t, r.flow, s))
    ensures Linked(s, t, log + [r], nets + [h'], done)
  {
    var log', nets' := log + [r], nets + [h'];
    forall i | 0 <= i < |log'|
      ensures SameShape(nets'[i], nets'[i + 1])
      ensures i + 1 < |log'| || done ==> FlowMoved(nets'[i], nets'[i + 1], t, log'[i].flow, s)
    {
      assert nets'[i] == nets[i];
      if i < |log| {
        assert log'[i] == log[i] && nets'[i + 1] == nets[i + 1];
      }
    }
  }

  /** A run from `g` to `h` made the traced augmentations, sending `flow`
      units at cost `cost` in total. */
  ghost predicate Run(g: Network, h: Network, s: int, t: int, flow: int, cost: int,
                      log: seq<PathResult>, nets: seq<Network>, walks: seq<seq<Hop>>, complete: bool)
  {
    && Traced(s, t, log, nets, walks, complete) && nets[0] == g && nets[|log|] == h
    && flow == FlowTotal(log) && cost == CostTotal(log)
  }

  /** A walk's cost depends on the arcs' costs only, not their flows. */
  lemma {:induction false} WalkCostShape(g: Network, h: Network, w: seq<Hop>)
    requires SameShape(g, h)
    ensures WalkCost(g, w) == WalkCost(h, w)
    decreases |w|
  {
    if |w| > 0 {
      WalkCostShape(g, h, w[..|w| - 1]);
      var x := w[|w| - 1];
      if 0 <= x.u < |g| && 0 <= x.j < |g[x.u]| {
        assert Frame(g[x.u][x.j]) == Frame(h[x.u][x.j]);
      }
    }
  }

  /** Every network of a run has the shape of the first. */
  lemma {:induction false} RunShape(s: int, t: int, log: seq<PathResult>, nets: seq<Network>,
                                    walks: seq<seq<Hop>>, complete: bool, k: int)
    requires Traced(s, t, log, nets, walks, complete) && 0 <= k <= |log|
    ensures SameShape(nets[0], nets[k])
    decreases k
  {
    if k > 0 {
      RunShape(s, t, log, nets, walks, complete, k - 1);
      SameShapeTrans(nets[0], nets[k - 1], nets[k]);
    }
  }

  /** The costs a run charges are fixed by the input: augmentation `i`
      costs what its walk costs over the input network's arc costs. */
  lemma RunCostsFromInput(g: Network, h: Network, s: int, t: int, flow: int, cost: int,
                          log: seq<PathResult>, nets: seq<Network>, walks: seq<seq<Hop>>, complete: bool)
    requires Run(g, h, s, t, flow, cost, log, nets, walks, complete)
    ensures SameShape(g, h)
    ensures forall i | 0 <= i < |log| :: WalkCost(g, walks[i]) == log[i].cost
  {
    RunShape(s, t, log, nets, walks, complete, |log|);
    forall i | 0 <= i < |log|
      ensures WalkCost(g, walks[i]) == log[i].cost
    {
      RunShape(s, t, log, nets, walks, complete, i);
      WalkCostShape(g, nets[i], walks[i]);
    }
  }

  /** Over a network whose arcs all cost nothing every walk costs nothing. */
  lemma {:induction false} FreeWalk(g: Network, w: seq<Hop>)
    requires forall u, j | 0 <= u < |g| && 0 <= j < |g[u]| :: g[u][j].cost == 0
    ensures WalkCost(g, w) == 0
    decreases |w|
  {
    if |w| > 0 {
      FreeWalk(g, w[..|w| - 1]);
    }
  }

  /** A run over a network whose arcs all cost nothing charges nothing. */
  lemma {:induction false} FreeRun(g: Network, h: Network, s: int, t: int, flow: int, cost: int,
                                   log: seq<PathResult>, nets: seq<Network>, walks: seq<seq<Hop>>, complete: bool)
    requires Run(g, h, s, t, flow, cost, log, nets, walks, complete)
    requires forall u, j | 0 <= u < |g| && 0 <= j < |g[u]| :: g[u][j].cost == 0
    ensures cost == 0
  {
    RunCostsFromInput(g, h, s, t, flow, cost, log, nets, walks, complete);
    forall i | 0 <= i < |log|
      ensures log[i].cost == 0
    {
      FreeWalk(g, walks[i]);
    }
    FreeLog(log);
  }

  /** Paths that each cost nothing add up to nothing. */
  lemma {:induction false} FreeLog(log: seq<PathResult>)
    requires forall i | 0 <= i < |log| :: log[i].cost == 0
    ensures CostTotal(log) == 0
    decreases |log|
  {
    if |log| > 0 {
      FreeLog(log[..|log| - 1]);
    }
  }

  /** Dropping the last augmentation keeps the costing. */
  lemma CostedPrefix(s: int, t: int, log: seq<PathResult>, nets: seq<Network>, walks: seq<seq<Hop>>)
    requires |nets| == |log| + 1 && |walks| == |log| && |log| > 0 && Costed(s, t, log, nets, walks)
    ensures Costed(s, t, log[..|log| - 1], nets[..|log|], walks[..|log| - 1])
  {
    var m := |log| - 1;
    forall i | 0 <= i < m
      ensures log[..m][i].flow > 0 && ResidualWalk(nets[..m + 1][i], s, t, walks[..m][i])
      ensures WalkCost(nets[..m + 1][i], walks[..m][i]) == log[..m][i].cost
    {
      assert log[..m][i] == log[i] && nets[..m + 1][i] == nets[i] && walks[..m][i] == walks[i];
    }
  }

  /** Dropping the last augmentation of a completed run leaves a completed
      run. */
  lemma LinkedPrefix(s: int, t: int, log: seq<PathResult>, nets: seq<Network>)
    requires |nets| == |log| + 1 && |log| > 0 && Linked(s, t, log, nets, true)
    ensures Linked(s, t, log[..|log| - 1], nets[..|log|], true)
  {
    var m := |log| - 1;
    forall i | 0 <= i < m
      ensures SameShape(nets[..m + 1][i], nets[..m + 1][i + 1])
      ensures FlowMoved(nets[..m + 1][i], nets[..m + 1][i + 1], t, log[..m][i].flow, s)
    {
      assert log[..m][i] == log[i] && nets[..m + 1][i] == nets[i] && nets[..m + 1][i + 1] == nets[i + 1];
    }
  }

  /** A completed run moves its total flow from `s` to `t`, the sum of
      what each augmentation moved. */
  lemma {:induction false} RunMovesFlow(g: Network, h: Network, s: int, t: int, flow: int, cost: int,
                                        log: seq<PathResult>, nets: seq<Network>, walks: seq<seq<Hop>>)
    requires Run(g, h, s, t, flow, cost, log, nets, walks, true)
    ensures |h| == |g| && FlowMoved(g, h, t, flow, s)
    decreases |log|
  {
    if |log| == 0 {
      assert h == g;
    } else {
      var m := |log| - 1;
      var log0, nets0, walks0 := log[..m], nets[..m + 1], walks[..m];
      CostedPrefix(s, t, log, nets, walks);
      LinkedPrefix(s, t, log, nets);
      RunMovesFlow(g, nets[m], s, t, FlowTotal(log0), CostTotal(log0), log0, nets0, walks0);
      assert SameShape(nets[m], nets[m + 1]);
      FlowMovedAdd(g, nets[m], h, s, t, FlowTotal(log0), log[m].flow, flow);
    }
  }

  /** Recording one more augmentation keeps the trace and adds its flow and
      flow times cost to the totals. */
  lemma TraceExtend(g: Network, h: Network, h': Network, s: int, t: int, flow: int, cost: int,
                    log: seq<PathResult>, nets: seq<Network>, walks: seq<seq<Hop>>,
                    r: PathResult, w: seq<Hop>, done: bool, flow': int, cost': int)
    requires Run(g, h, s, t, flow, cost, log, nets, walks, true)
    requires r.flow > 0 && ResidualWalk(h, s, t, w) && WalkCost(h, w) == r.cost
    requires SameShape(h, h') && (done ==> FlowMoved(h, h', t, r.flow, s))
    requires flow' == flow + r.flow && cost' == cost + r.flow * r.cost
    ensures Run(g, h', s, t, flow', cost', log + [r], nets + [h'], walks + [w], done)
  {
    assert (log + [r])[..|log|] == log;
    CostedExtend(s, t, log, nets, walks, h', r, w);
    LinkedExtend(s, t, log, nets, h', r, done);
  }

  /** min_cost_max_flow: search for a cheapest augmenting path, add its
      flow to the total and flow times cost to the total cost, push it
      along the predecessor arcs, and repeat until no path is left. On
      return every node other than `s` and `t` has kept its net outflow,
      the source has sent `maxFlow` more units and the sink has received
      them, and no augmenting path is left; a zero flow leaves the network
      untouched and means there was no path to begin with. `diverged`
      reports a predecessor walk that never reaches `s`, on which the
      source does not return. */
  method MinCostMaxFlow(g: Network, s: int, t: int)
    returns (g': Network, totalCost: int, maxFlow: int, diverged: bool,
             ghost log: seq<PathResult>, ghost nets: seq<Network>, ghost walks: seq<seq<Hop>>)
    requires WellFormed(g) && 0 <= s < |g| && 0 <= t < |g| && s != t
    ensures Run(g, g', s, t, maxFlow, totalCost, log, nets, walks, !diverged)
    ensures forall i | 0 <= i < |log| :: WalkCost(g, walks[i]) == log[i].cost
    ensures SameShape(g, g')
    ensures TwinLinked(g) && Antisymmetric(g) ==> Antisymmetric(g')
    ensures maxFlow >= 0
    ensures !diverged ==> forall x | 0 <= x < |g| :: FlowSum(g'[x]) == FlowSum(g[x]) + Excess(x, s, t, maxFlow)
    ensures !diverged ==> !Reachable(g', s, t)
    ensures !diverged && maxFlow == 0 ==> g' == g && !Reachable(g, s, t)
  {
    g' := g;
    totalCost, maxFlow, diverged := 0, 0, false;
    log, nets, walks := [], [g], [];
    while true
      invariant Run(g, g', s, t, maxFlow, totalCost, log, nets, walks, true)
      invariant KeepsShape(g, g') && FlowMoved(g, g', t, maxFlow, s)
      invariant maxFlow >= 0 && (maxFlow == 0 ==> g' == g)
      invariant !diverged
      decreases Slack(g'[s])
    {
      ghost var before := g';
      var pathFlow, pathCost, ok;
      ghost var walk;
      ghost var parentV, parentE, trail;
      g', pathFlow, pathCost, ok, walk, parentV, parentE, trail := AugmentOnce(g, g', s, t);
      if pathFlow <= 0 {
        break;
      }
      ghost var sent, spent := maxFlow, totalCost;
      maxFlow := maxFlow + pathFlow;
      totalCost := totalCost + pathFlow * pathCost;
      TraceExtend(g, before, g', s, t, sent, spent, log, nets, walks,
                  PathResult(pathFlow, pathCost), walk, ok, maxFlow, totalCost);
      log, nets, walks := log + [PathResult(pathFlow, pathCost)], nets + [g'], walks + [walk];
      if !ok {
        diverged := true;
        break;
      }
      FlowMovedAdd(g, before, g', s, t, sent, pathFlow, maxFlow);
    }
    RunCostsFromInput(g, g', s, t, maxFlow, totalCost, log, nets, walks, !diverged);
  }
}
