/** What a placement promises: how many nodes, which kind, how spread, and that the order in
    which the nodes are listed is irrelevant. */
module PlacementTheorems {
  import opened Arithmetic
  import opened Sets
  import opened Sorting
  import opened Picking
  import opened Placement

  function Candidates(r: Request, nodes: seq<Node>, capacity: Capacity): set<Node> {
    set x | x in nodes && Eligible(r, x) && x.capacity == capacity
  }

  function Keep(r: Request, capacity: Capacity): Node -> bool {
    (x: Node) => Eligible(r, x) && x.capacity == capacity
  }

  // ------------------------------------------------------------ pools

  lemma {:induction false} FilterCounts(nodes: seq<Node>, keep: Node -> bool)
    ensures forall x :: multiset(Filter(nodes, keep))[x] == if keep(x) then multiset(nodes)[x] else 0
  {
    if nodes != [] {
      FilterCounts(nodes[1..], keep);
      assert nodes == [nodes[0]] + nodes[1..];
    }
  }

  lemma RankIsOrder(r: Request)
    ensures IsOrder(Rank(r))
  {
  }

  lemma PoolCounts(r: Request, nodes: seq<Node>, capacity: Capacity)
    ensures Ordered(Rank(r), Pool(r, nodes, capacity))
    ensures forall x :: multiset(Pool(r, nodes, capacity))[x]
                     == if Eligible(r, x) && x.capacity == capacity then multiset(nodes)[x] else 0
  {
    RankIsOrder(r);
    SortIsOrderedPermutation(Rank(r), Filter(nodes, Keep(r, capacity)));
    FilterCounts(nodes, Keep(r, capacity));
    assert Pool(r, nodes, capacity) == Sort(Rank(r), Filter(nodes, Keep(r, capacity))) by {
      SameFilter(nodes, (x: Node) => Eligible(r, x) && x.capacity == capacity, Keep(r, capacity));
    }
  }

  lemma {:induction false} SameFilter(nodes: seq<Node>, a: Node -> bool, b: Node -> bool)
    requires forall x :: a(x) == b(x)
    ensures Filter(nodes, a) == Filter(nodes, b)
  {
    if nodes != [] {
      SameFilter(nodes[1..], a, b);
    }
  }

  /** A pool lists the candidates of its class, each once. */
  lemma PoolLists(r: Request, nodes: seq<Node>, capacity: Capacity)
    requires DistinctBy(ById, nodes)
    ensures DistinctBy(ById, Pool(r, nodes, capacity))
    ensures forall x :: x in Pool(r, nodes, capacity) <==> x in Candidates(r, nodes, capacity)
    ensures |Pool(r, nodes, capacity)| == |Candidates(r, nodes, capacity)|
  {
    var pool := Pool(r, nodes, capacity);
    PoolCounts(r, nodes, capacity);
    SelectionDistinct(ById, nodes, pool);
    forall x ensures x in pool <==> x in Candidates(r, nodes, capacity) {
      assert x in pool <==> multiset(pool)[x] > 0;
    }
    DistinctSize(pool, Candidates(r, nodes, capacity));
  }

  lemma {:induction false} DistinctSize(s: seq<Node>, nodes: set<Node>)
    requires DistinctBy(ById, s) && forall x :: x in s <==> x in nodes
    ensures |s| == |nodes|
  {
    if s != [] {
      DistinctSize(s[1..], nodes - {s[0]});
    } else {
      assert nodes == {};
    }
  }

  lemma PoolsAreApart(r: Request, nodes: seq<Node>)
    requires DistinctBy(ById, nodes)
    ensures Apart(ById, r.current, Pool(r, nodes, Committable), Pool(r, nodes, BestEffort))
  {
    PoolLists(r, nodes, Committable);
    PoolLists(r, nodes, BestEffort);
    DistinctByMeans(ById, nodes);
  }

  // ------------------------------------------------------------ exactness

  /** What is known of the parts of a choice, in terms of the two pools. */
  ghost predicate Exact(r: Request, comm: seq<Node>, edge: seq<Node>, p: Parts<Node>) {
    var k := Limit(NeedCommittable(r), |comm|);
    && DistinctBy(ById, p.required + p.preferred + p.other)
    && (forall x :: x in p.required ==> x in comm)
    && (forall x :: x in p.preferred || x in p.other ==> x in comm || x in edge)
    && |p.required| == k
    && |p.preferred| + |p.other| == Limit(NeedTotal(r) - k, |comm| + |edge| - k)
    && (forall x :: x in (if r.policy.preferEdge then p.preferred else p.other) ==> x in edge)
    && (forall x :: x in (if r.policy.preferEdge then p.other else p.preferred) ==> x in comm)
    && (p.other != [] && r.policy.preferEdge ==> forall x :: x in edge ==> x in p.preferred)
    && (p.other != [] && !r.policy.preferEdge ==> forall x :: x in comm ==> x in p.required || x in p.preferred)
  }

  lemma ExactFrom(r: Request, comm: seq<Node>, edge: seq<Node>, picks: seq<Node>, rest: seq<Node>, p: Parts<Node>)
    requires Apart(ById, r.current, comm, edge) && Splits(ById, comm, NeedCommittable(r), picks, rest)
    requires p.required == picks
    requires var need := Max(0, NeedTotal(r) - |picks|);
             if r.policy.preferEdge then Filled(ById, p, edge, rest, need) else Filled(ById, p, rest, edge, need)
    ensures Exact(r, comm, edge, p)
  {
    var need := Max(0, NeedTotal(r) - |picks|);
    RestApart(ById, r.current, comm, edge, NeedCommittable(r), picks, rest);
    if r.policy.preferEdge {
      FilledDistinct(ById, r.current, p, edge, rest, need);
    } else {
      FilledDistinct(ById, r.current, p, rest, edge, need);
    }
  }

  lemma FilledPartsAreExact(dom: Node -> string, r: Request, comm: seq<Node>, edge: seq<Node>,
                            first: Taken<Node, string>, p: Parts<Node>)
    requires Apart(ById, r.current, comm, edge)
    requires Splits(ById, comm, NeedCommittable(r), first.picks, first.rest)
    requires var need := Max(0, NeedTotal(r) - |first.picks|);
             var excluded := r.current + Images(ById, first.picks);
             p == if r.policy.preferEdge then FillBoth(dom, ById, first, edge, first.rest, excluded, need)
                  else FillBoth(dom, ById, first, first.rest, edge, excluded, need)
    ensures Exact(r, comm, edge, p)
  {
    RestApart(ById, r.current, comm, edge, NeedCommittable(r), first.picks, first.rest);
    var need := Max(0, NeedTotal(r) - |first.picks|);
    var excluded := r.current + Images(ById, first.picks);
    if r.policy.preferEdge {
      FillBothFills(dom, ById, first, edge, first.rest, excluded, need, p);
    } else {
      FillBothFills(dom, ById, first, first.rest, edge, excluded, need, p);
    }
    ExactFrom(r, comm, edge, first.picks, first.rest, p);
  }

  lemma PartsAreExact(r: Request, comm: seq<Node>, edge: seq<Node>, occupied: set<string>, p: Parts<Node>)
    requires Apart(ById, r.current, comm, edge) && p == ChooseParts(r, comm, edge, occupied)
    ensures Exact(r, comm, edge, p)
  {
    var first := Take(ByDomain, comm, occupied, NeedCommittable(r));
    RestUnfolds(ByDomain, r, edge, first, p);
    TakeSplits(ByDomain, ById, comm, occupied, NeedCommittable(r), first);
    FilledPartsAreExact(ByDomain, r, comm, edge, first, p);
  }

  lemma RestUnfolds(dom: Node -> string, r: Request, edge: seq<Node>, first: Taken<Node, string>, p: Parts<Node>)
    requires dom == ByDomain && p == Rest(r, edge, first)
    ensures var need := Max(0, NeedTotal(r) - |first.picks|);
            var excluded := r.current + Images(ById, first.picks);
            p == if r.policy.preferEdge then FillBoth(dom, ById, first, edge, first.rest, excluded, need)
                 else FillBoth(dom, ById, first, first.rest, edge, excluded, need)
  {
  }

  /** With A eligible committable nodes, E eligible edge nodes and k = min(needed committable, A),
      exactly k + min(max(0, needed - k), A + E - k) nodes are chosen, all different, eligible and
      without a copy, the first k of them committable. A committable node beyond k is chosen for an
      edge-preferring policy only once every eligible edge node is, and an edge node for the other
      policy only once every eligible committable node is. */
  ghost predicate MeetsPolicy(r: Request, comm: set<Node>, edge: set<Node>, picks: seq<Node>) {
    var k := Min(NeedCommittable(r), |comm|);
    && DistinctBy(ById, picks)
    && (forall x :: x in picks ==> x in comm || x in edge)
    && |picks| == k + Min(Max(0, NeedTotal(r) - k), |comm| + |edge| - k)
    && (forall i :: 0 <= i < k ==> picks[i] in comm)
    && (r.policy.preferEdge && (exists i :: k <= i < |picks| && picks[i] in comm) ==>
          forall x :: x in edge ==> x in picks)
    && (!r.policy.preferEdge && (exists i :: k <= i < |picks| && picks[i] in edge) ==>
          forall x :: x in comm ==> x in picks)
  }

  lemma ExactMeetsPolicy(r: Request, comm: seq<Node>, edge: seq<Node>, p: Parts<Node>, commSet: set<Node>,
                         edgeSet: set<Node>)
    requires Exact(r, comm, edge, p)
    requires (forall x :: x in comm <==> x in commSet) && (forall x :: x in edge <==> x in edgeSet)
             && commSet !! edgeSet
    requires |comm| == |commSet| && |edge| == |edgeSet|
    ensures MeetsPolicy(r, commSet, edgeSet, p.required + p.preferred + p.other)
  {
    var picks := p.required + p.preferred + p.other;
    var k := |p.required|;
    if p.other == [] {
      forall i | k <= i < |picks| ensures picks[i] in p.preferred {
        assert picks[i] == p.preferred[i - k];
      }
    }
  }

  /** A valid policy gets exactly what it asks for, as far as there are eligible nodes. */
  lemma PlacementIsExact(r: Request, nodes: seq<Node>)
    requires DistinctBy(ById, nodes) && Validate(r.policy).None?
    ensures MeetsPolicy(r, Candidates(r, nodes, Committable), Candidates(r, nodes, BestEffort), Choose(r, nodes).nodes)
  {
    PoolLists(r, nodes, Committable);
    PoolLists(r, nodes, BestEffort);
    PoolsAreApart(r, nodes);
    var (comm, edge, p) := (Pool(r, nodes, Committable), Pool(r, nodes, BestEffort), PartsOf(r, nodes));
    PartsAreExact(r, comm, edge, Occupied(r, nodes), p);
    ExactMeetsPolicy(r, comm, edge, p, Candidates(r, nodes, Committable), Candidates(r, nodes, BestEffort));
  }

  // ------------------------------------------------------------ spread

  /** The committable copies the policy asks for cover as many unoccupied failure domains as
      there are copies, or every one an eligible committable node offers; no other choice of as
      many eligible committable nodes covers more. */
  lemma RequiredCopiesAreDiverse(r: Request, nodes: seq<Node>, other: seq<Node>)
    requires DistinctBy(ById, nodes) && DistinctBy(ById, other)
    requires forall x :: x in other ==> x in Candidates(r, nodes, Committable)
    requires |other| == |PartsOf(r, nodes).required|
    ensures var (picks, seen) := (PartsOf(r, nodes).required, Occupied(r, nodes));
            var offered := Image(Candidates(r, nodes, Committable), ByDomain) - seen;
            && |Images(ByDomain, picks) - seen| == Min(|picks|, |offered|)
            && |Images(ByDomain, other) - seen| <= |Images(ByDomain, picks) - seen|
  {
    var (pool, seen, need) := (Pool(r, nodes, Committable), Occupied(r, nodes), NeedCommittable(r));
    PoolLists(r, nodes, Committable);
    RequiredIsTaken(r, nodes);
    TakeIsDiverse(ByDomain, pool, seen, need, Take(ByDomain, pool, seen, need));
    assert Images(ByDomain, pool) == Image(Candidates(r, nodes, Committable), ByDomain);
    DistinctSelection(other, pool);
    NoChoiceIsMoreDiverse(ByDomain, pool, seen, need, other);
  }

  lemma DistinctSelection(other: seq<Node>, pool: seq<Node>)
    requires DistinctBy(ById, other) && forall x :: x in other ==> x in pool
    ensures multiset(other) <= multiset(pool)
  {
    DistinctByMeans(ById, other);
    forall x ensures multiset(other)[x] <= multiset(pool)[x] {
      if x in other {
        assert x in multiset(pool);
      }
    }
  }

  lemma RequiredIsTaken(r: Request, nodes: seq<Node>)
    ensures PartsOf(r, nodes).required
         == Take(ByDomain, Pool(r, nodes, Committable), Occupied(r, nodes), NeedCommittable(r)).picks
  {
  }

  /** No committable node left out is ranked above a chosen one, unless its failure domain got
      a copy some other way. */
  lemma RequiredCopiesAreBest(r: Request, nodes: seq<Node>, x: Node, y: Node)
    requires DistinctBy(ById, nodes) && x in PartsOf(r, nodes).required
    requires y in Candidates(r, nodes, Committable) && y !in PartsOf(r, nodes).required
    requires Domain(y) == Domain(x)
          || Domain(y) !in Occupied(r, nodes) + Images(ByDomain, PartsOf(r, nodes).required)
    ensures AtLeast(ScoreOf(r, x), ScoreOf(r, y))
  {
    var (pool, seen, need) := (Pool(r, nodes, Committable), Occupied(r, nodes), NeedCommittable(r));
    var t := Take(ByDomain, pool, seen, need);
    PoolLists(r, nodes, Committable);
    PoolCounts(r, nodes, Committable);
    RequiredIsTaken(r, nodes);
    TakeSplits(ByDomain, ById, pool, seen, need, t);
    TakeOccupies(ByDomain, pool, seen, need);
    TakeKeepsBest(Rank(r), ByDomain, pool, seen, need, t);
    assert BestKept(Rank(r), ByDomain, t);
    assert y in pool && y in t.rest;
    assert ByDomain(x) == Domain(x) && ByDomain(y) == Domain(y);
    assert Rank(r)(x, y);
  }

  // ------------------------------------------------------------ order of the input

  ghost predicate TiebreakTellsApart(r: Request, nodes: seq<Node>) {
    forall x, y :: x in nodes && y in nodes && r.tiebreak(x.id) == r.tiebreak(y.id) ==> x.id == y.id
  }

  lemma NoTies(r: Request, nodes: seq<Node>, x: Node, y: Node)
    requires DistinctBy(ById, nodes) && TiebreakTellsApart(r, nodes) && x in nodes && y in nodes
    requires Rank(r)(x, y) && Rank(r)(y, x)
    ensures x == y
  {
    DistinctByMeans(ById, nodes);
    assert ScoreOf(r, x).tie == ScoreOf(r, y).tie;
    assert ById(x) == ById(y);
  }

  lemma PoolElements(r: Request, nodes: seq<Node>, capacity: Capacity)
    ensures forall x :: x in Pool(r, nodes, capacity) ==> x in nodes
  {
    PoolCounts(r, nodes, capacity);
    forall x | x in Pool(r, nodes, capacity) ensures x in nodes {
      assert x in multiset(Pool(r, nodes, capacity));
      assert x in multiset(nodes);
    }
  }

  lemma SameElements(r: Request, nodes: seq<Node>, other: seq<Node>, capacity: Capacity, s: seq<Node>, t: seq<Node>)
    requires multiset(nodes) == multiset(other)
    requires s == Pool(r, nodes, capacity) && t == Pool(r, other, capacity)
    ensures multiset(s) == multiset(t) && Ordered(Rank(r), s) && Ordered(Rank(r), t)
    ensures forall x :: x in s ==> x in nodes
  {
    PoolCounts(r, nodes, capacity);
    PoolCounts(r, other, capacity);
    PoolElements(r, nodes, capacity);
  }

  lemma SamePool(r: Request, nodes: seq<Node>, other: seq<Node>, capacity: Capacity, s: seq<Node>, t: seq<Node>)
    requires DistinctBy(ById, nodes) && TiebreakTellsApart(r, nodes) && multiset(nodes) == multiset(other)
    requires s == Pool(r, nodes, capacity) && t == Pool(r, other, capacity)
    ensures s == t
  {
    SameElements(r, nodes, other, capacity, s, t);
    forall a, b | a in s && b in s && Rank(r)(a, b) && Rank(r)(b, a) ensures a == b {
      NoTies(r, nodes, a, b);
    }
    OrderedIsUnique(Rank(r), s, t);
  }

  /** Placement does not depend on the order in which the nodes are listed. */
  lemma PlacementIgnoresInputOrder(r: Request, nodes: seq<Node>, other: seq<Node>)
    requires DistinctBy(ById, nodes) && TiebreakTellsApart(r, nodes) && multiset(nodes) == multiset(other)
    ensures Choose(r, nodes) == Choose(r, other)
  {
    SamePool(r, nodes, other, Committable, Pool(r, nodes, Committable), Pool(r, other, Committable));
    SamePool(r, nodes, other, BestEffort, Pool(r, nodes, BestEffort), Pool(r, other, BestEffort));
    forall x ensures x in nodes <==> x in other {
      assert x in multiset(nodes) <==> x in multiset(other);
    }
    assert Occupied(r, nodes) == Occupied(r, other);
  }
}
