/** The words of a placement spelled out in the fields of a node and of a request: which nodes can
    be chosen, what a failure domain is, how nodes are ranked, and how the extra copies spread. */
module PlacementEffects {
  import opened Arithmetic
  import opened Options
  import opened Sets
  import opened Sorting
  import opened Picking
  import opened Placement
  import opened PlacementTheorems

  // ------------------------------------------------------------ which nodes

  /** What is left of the node's bytes after what is used, reserved and kept free. */
  function Left(r: Request, x: Node): int {
    var reserved := if x.id in r.reserved && r.reserved[x.id] > 0 then r.reserved[x.id] else 0;
    var margin := if r.policy.margin > 0 then r.policy.margin else 0;
    x.total - x.used - reserved - margin
  }

  /** A node of the class that is enabled, online, without a copy and has room for the object. */
  predicate Usable(r: Request, x: Node, capacity: Capacity) {
    && x.capacity == capacity
    && x.enabled && x.online
    && x.id != "" && x.id !in r.current
    && (r.size <= 0 || (x.total > 0 && Left(r, x) >= r.size))
  }

  function Usables(r: Request, nodes: seq<Node>, capacity: Capacity): set<Node> {
    set x | x in nodes && Usable(r, x, capacity)
  }

  lemma CandidatesAreUsable(r: Request, nodes: seq<Node>, capacity: Capacity)
    requires capacity == Committable || capacity == BestEffort
    ensures Candidates(r, nodes, capacity) == Usables(r, nodes, capacity)
  {
    forall x | x in nodes ensures Eligible(r, x) && x.capacity == capacity <==> Usable(r, x, capacity) {
      assert FreeBytes(x, Get(r.reserved, x.id), r.policy.margin)
          == if x.total <= 0 || Left(r, x) < 0 then 0 else Left(r, x);
    }
  }

  /** The whole answer in the fields of the request: only a policy with 1 <= n and 0 <= m <= n is
      accepted. Of `wanted` committable and `total` copies in all, the first k picks are committable,
      every pick is a different usable node, and as many are picked as there are. */
  lemma ChoiceMeans(r: Request, nodes: seq<Node>, a: set<Node>, e: set<Node>)
    requires DistinctBy(ById, nodes)
    requires a == Usables(r, nodes, Committable) && e == Usables(r, nodes, BestEffort)
    ensures Choose(r, nodes).Chosen? <==> 1 <= r.policy.n && 0 <= r.policy.m <= r.policy.n
    ensures Choose(r, nodes).Chosen? ==>
              var picks := Choose(r, nodes).nodes;
              var wanted := if r.policy.m > r.currentCommittable then r.policy.m - r.currentCommittable else 0;
              var total := if r.policy.n > r.currentTotal then r.policy.n - r.currentTotal else 0;
              var k := if wanted < |a| then wanted else |a|;
              var more := if total > k then total - k else 0;
              && |picks| == k + (if more < |a| + |e| - k then more else |a| + |e| - k)
              && (forall i, j :: 0 <= i < j < |picks| ==> picks[i].id != picks[j].id)
              && (forall x :: x in picks ==> x in a || x in e)
              && (forall i :: 0 <= i < k ==> picks[i] in a)
              && (r.policy.preferEdge && (exists i :: k <= i < |picks| && picks[i] in a) ==> forall x :: x in e ==>
                  x in picks)
              && (!r.policy.preferEdge && (exists i :: k <= i < |picks| && picks[i] in e) ==> forall x :: x in a ==>
                  x in picks)
  {
    if Choose(r, nodes).Chosen? {
      CandidatesAreUsable(r, nodes, Committable);
      CandidatesAreUsable(r, nodes, BestEffort);
      PlacementIsExact(r, nodes);
      PolicyMet(r, a, e, Choose(r, nodes).nodes);
    }
  }

  lemma PolicyMet(r: Request, a: set<Node>, e: set<Node>, picks: seq<Node>)
    requires MeetsPolicy(r, a, e, picks)
    ensures var wanted := if r.policy.m > r.currentCommittable then r.policy.m - r.currentCommittable else 0;
            var total := if r.policy.n > r.currentTotal then r.policy.n - r.currentTotal else 0;
            var k := if wanted < |a| then wanted else |a|;
            var more := if total > k then total - k else 0;
            && |picks| == k + (if more < |a| + |e| - k then more else |a| + |e| - k)
            && (forall i, j :: 0 <= i < j < |picks| ==> picks[i].id != picks[j].id)
            && (forall x :: x in picks ==> x in a || x in e)
            && (forall i :: 0 <= i < k ==> picks[i] in a)
            && (r.policy.preferEdge && (exists i :: k <= i < |picks| && picks[i] in a) ==> forall x :: x in e ==>
                x in picks)
            && (!r.policy.preferEdge && (exists i :: k <= i < |picks| && picks[i] in e) ==> forall x :: x in a ==>
                x in picks)
  {
    forall i, j | 0 <= i < j < |picks| ensures picks[i].id != picks[j].id {
      assert ById(picks[i]) != ById(picks[j]);
    }
  }

  /** Why a policy is refused, in the order of the checks. */
  lemma PolicyRefused(r: Request, nodes: seq<Node>)
    ensures Choose(r, nodes) == Invalid(NoReplica) <==> r.policy.n < 1
    ensures Choose(r, nodes) == Invalid(NegativeCommittable) <==> r.policy.n >= 1 && r.policy.m < 0
    ensures Choose(r, nodes) == Invalid(MoreCommittableThanReplicas) <==>
              r.policy.n >= 1 && r.policy.m >= 0 && r.policy.m > r.policy.n
  {
  }

  // ------------------------------------------------------------ failure domains

  /** The non-empty parts, separated by slashes. */
  function Slashed(parts: seq<string>): string {
    if parts == [] then ""
    else if parts[0] == "" then Slashed(parts[1..])
    else if Slashed(parts[1..]) == "" then parts[0]
    else parts[0] + "/" + Slashed(parts[1..])
  }

  /** What the operator says; else provider, region and rack; else the node itself. */
  lemma DomainMeans(x: Node)
    ensures x.failureDomain != "" ==> Domain(x) == x.failureDomain
    ensures x.failureDomain == "" && !(x.provider == x.region == x.rack == "") ==>
              Domain(x) == Slashed([x.provider, x.region, x.rack])
    ensures x.failureDomain == "" && x.provider == x.region == x.rack == "" ==> Domain(x) == "node:" + x.id
  {
    var three, two := [x.provider, x.region, x.rack], [x.region, x.rack];
    assert three[1..] == two && two[1..] == [x.rack] && [x.rack][1..] == [];
    assert Slashed([x.rack]) == x.rack;
    assert Slashed(two) == Joined(x.region, x.rack);
    if x.provider != "" && x.region != "" && x.rack != "" {
      assert (x.provider + "/" + x.region) + "/" + x.rack == x.provider + "/" + (x.region + "/" + x.rack);
    }
  }

  /** Nodes without metadata never share a failure domain. */
  lemma NamelessAreApart(x: Node, y: Node)
    requires x.failureDomain == x.provider == x.region == x.rack == ""
    requires y.failureDomain == y.provider == y.region == y.rack == ""
    requires x.id != y.id
    ensures Domain(x) != Domain(y)
  {
    assert Domain(x)[5..] == x.id && Domain(y)[5..] == y.id;
  }

  // ------------------------------------------------------------ the ranking

  /** `share` is the free part of the node's bytes in whole parts per million, `load` the copies it is
      to hold, by the thousand, and the whole mebibytes assigned to it. */
  ghost predicate Measures(r: Request, x: Node, share: int, load: int) {
    var size := if x.total > 1 then x.total else 1;
    var free := if x.total > 0 && Left(r, x) > 0 then Left(r, x) else 0;
    var copies := if x.id in r.desired then r.desired[x.id] else 0;
    var bytes := if x.id in r.assignedBytes then r.assignedBytes[x.id] else 0;
    && share * size <= 1_000_000 * free < (share + 1) * size
    && (load - 1000 * copies) * 1_048_576 <= bytes < (load - 1000 * copies + 1) * 1_048_576
  }

  lemma Monotone(x: int, y: int, b: nat)
    ensures x <= y ==> x * b <= y * b
  {
    if x <= y {
      assert y * b == x * b + (y - x) * b;
    }
  }

  lemma Quotient(a: int, b: int, q: int)
    requires b > 0 && q * b <= a < (q + 1) * b
    ensures a / b == q
  {
    var p := a / b;
    assert a == p * b + a % b;
    assert (p + 1) * b == p * b + b;
    Monotone(p + 1, q, b);
    Monotone(q + 1, p, b);
  }

  lemma MeasuredScore(r: Request, x: Node, share: int, load: int)
    requires Measures(r, x, share, load)
    ensures ScoreOf(r, x) == Score(share, x.stability, -x.penalty, -load, -r.tiebreak(x.id))
  {
    var free := FreeBytes(x, Get(r.reserved, x.id), r.policy.margin);
    var bytes := if x.id in r.assignedBytes then r.assignedBytes[x.id] else 0;
    Quotient(free * 1_000_000, Max(1, x.total), share);
    Quotient(bytes, 1_048_576, load - 1000 * Get(r.desired, x.id));
  }

  /** A larger free share ranks first; then the more stable node, the one with fewer failures, the
      less loaded one and the one with the smaller hash. */
  lemma RankMeans(r: Request, x: Node, y: Node, shareX: int, loadX: int, shareY: int, loadY: int)
    requires Measures(r, x, shareX, loadX) && Measures(r, y, shareY, loadY)
    ensures AtLeast(ScoreOf(r, x), ScoreOf(r, y)) <==>
              if shareX != shareY then shareX > shareY
              else if x.stability != y.stability then x.stability > y.stability
              else if x.penalty != y.penalty then x.penalty < y.penalty
              else if loadX != loadY then loadX < loadY
              else r.tiebreak(x.id) <= r.tiebreak(y.id)
  {
    MeasuredScore(r, x, shareX, loadX);
    MeasuredScore(r, y, shareY, loadY);
  }

  // ------------------------------------------------------------ the spread of the extra copies

  /** The domains of the object's present copies. */
  function Covered(r: Request, nodes: seq<Node>): set<string> {
    set x | x in nodes && x.id in r.current :: Domain(x)
  }

  function Domains(s: seq<Node>): set<string> {
    set x | x in s :: Domain(x)
  }

  /** The picks go to as many domains outside `seen` as there are picks, or to all that `offers` has. */
  ghost predicate Spreads(picks: seq<Node>, offers: set<Node>, seen: set<string>) {
    var unseen := (set x | x in offers :: Domain(x)) - seen;
    |Domains(picks) - seen| == if |picks| < |unseen| then |picks| else |unseen|
  }

  /** No offer left out ranks above a pick, unless a copy covers its domain in another way. */
  ghost predicate PicksBest(r: Request, picks: seq<Node>, offers: set<Node>, seen: set<string>) {
    forall x, y :: x in picks && y in offers && y !in picks
                   && (Domain(y) == Domain(x) || Domain(y) !in seen + Domains(picks)) ==>
                     AtLeast(ScoreOf(r, x), ScoreOf(r, y))
  }

  lemma {:induction false} TakeRestOrdered<T(!new), D>(le: Order<T>, dom: T -> D, pool: seq<T>, occupied: set<D>,
                                                       need: int, t: Taken<T, D>)
    requires Ordered(le, pool) && t == Take(dom, pool, occupied, need)
    ensures Ordered(le, t.rest)
    decreases |pool|
  {
    if need > 0 && pool != [] {
      var i := Preferred(dom, pool, occupied);
      WithoutOrdered(le, pool, i);
      TakeRestOrdered(le, dom, Without(pool, i), occupied + {dom(pool[i])}, need - 1,
                      Take(dom, Without(pool, i), occupied + {dom(pool[i])}, need - 1));
    }
  }

  /** Spread as far as possible, and the best among what spreads. */
  ghost predicate Serves(r: Request, picks: seq<Node>, offers: set<Node>, seen: set<string>) {
    Spreads(picks, offers, seen) && PicksBest(r, picks, offers, seen)
  }

  /** One greedy pass over an ordered pool spreads its picks and picks the best. */
  lemma PassServes(r: Request, pool: seq<Node>, seen: set<string>, need: int, t: Taken<Node, string>,
                   offers: set<Node>)
    requires DistinctBy(ById, pool) && Ordered(Rank(r), pool) && t == Take(ByDomain, pool, seen, need)
    requires forall x :: x in pool <==> x in offers
    ensures Serves(r, t.picks, offers, seen)
  {
    TakeIsDiverse(ByDomain, pool, seen, need, t);
    TakeKeepsBest(Rank(r), ByDomain, pool, seen, need, t);
    PassLeaves(r, pool, seen, need, t, offers);
    SpreadFrom(pool, seen, t.picks, offers);
    BestFrom(r, t, offers, seen);
  }

  lemma PassOccupies(pool: seq<Node>, seen: set<string>, need: int, t: Taken<Node, string>)
    requires t == Take(ByDomain, pool, seen, need)
    ensures t.occupied == seen + Domains(t.picks)
  {
    TakeOccupies(ByDomain, pool, seen, need);
    assert Images(ByDomain, t.picks) == Domains(t.picks);
  }

  /** What a pass leaves: the domains it has covered, and the rest in order. */
  lemma PassLeaves(r: Request, pool: seq<Node>, seen: set<string>, need: int, t: Taken<Node, string>,
                   offers: set<Node>)
    requires DistinctBy(ById, pool) && Ordered(Rank(r), pool) && t == Take(ByDomain, pool, seen, need)
    requires forall x :: x in pool <==> x in offers
    ensures t.occupied == seen + Domains(t.picks)
    ensures Ordered(Rank(r), t.rest) && forall x :: x in t.rest <==> x in offers && x !in t.picks
  {
    PassOccupies(pool, seen, need, t);
    TakeSplits(ByDomain, ById, pool, seen, need, t);
    TakeRestOrdered(Rank(r), ByDomain, pool, seen, need, t);
    PicksFit(pool, t.picks, t.rest);
  }

  lemma PicksFit(pool: seq<Node>, picks: seq<Node>, rest: seq<Node>)
    requires Apart(ById, {}, picks, rest) && forall x :: x in picks || x in rest <==> x in pool
    ensures forall x :: x in rest <==> x in pool && x !in picks
  {
    assert forall x, y :: x in picks && y in rest ==> ById(x) != ById(y);
  }

  lemma SpreadFrom(pool: seq<Node>, seen: set<string>, picks: seq<Node>, offers: set<Node>)
    requires Diverse(ByDomain, pool, seen, picks) && forall x :: x in pool <==> x in offers
    ensures Spreads(picks, offers, seen)
  {
    assert Images(ByDomain, picks) == Domains(picks);
    assert Images(ByDomain, pool) == set x | x in offers :: Domain(x);
  }

  lemma BestFrom(r: Request, t: Taken<Node, string>, offers: set<Node>, seen: set<string>)
    requires BestKept(Rank(r), ByDomain, t) && t.occupied == seen + Domains(t.picks)
    requires forall x :: x in t.rest <==> x in offers && x !in t.picks
    ensures PicksBest(r, t.picks, offers, seen)
  {
    forall x, y | x in t.picks && y in offers && y !in t.picks
                  && (Domain(y) == Domain(x) || Domain(y) !in seen + Domains(t.picks))
      ensures AtLeast(ScoreOf(r, x), ScoreOf(r, y))
    {
      assert ByDomain(x) == Domain(x) && ByDomain(y) == Domain(y);
      assert Rank(r)(x, y);
    }
  }

  /** Every part of an answer: the required committable copies and, in the order preferred, the rest
      of what is usable. Each part spreads over the failure domains the object and the parts before it
      do not cover, and takes the best ranked of its offers. */
  lemma EveryPartServes(r: Request, nodes: seq<Node>)
    requires DistinctBy(ById, nodes)
    ensures var p := PartsOf(r, nodes);
            var a := Usables(r, nodes, Committable);
            var e := Usables(r, nodes, BestEffort);
            var spare := set x | x in a && x !in p.required;
            var seen := Covered(r, nodes) + Domains(p.required);
            var (second, third) := if r.policy.preferEdge then (e, spare) else (spare, e);
            && Serves(r, p.required, a, Covered(r, nodes))
            && Serves(r, p.preferred, second, seen)
            && Serves(r, p.other, third, seen + Domains(p.preferred))
  {
    var (comm, edge) := (Pool(r, nodes, Committable), Pool(r, nodes, BestEffort));
    var (a, e) := (Usables(r, nodes, Committable), Usables(r, nodes, BestEffort));
    UsablePool(r, nodes, Committable, comm, a);
    UsablePool(r, nodes, BestEffort, edge, e);
    PoolsAreApart(r, nodes);
    assert Covered(r, nodes) == Occupied(r, nodes);
    PartsServe(r, comm, edge, Covered(r, nodes), a, e, PartsOf(r, nodes));
  }

  /** The answer is its three parts in order; the required copies come first. */
  lemma AnswerHasThreeParts(r: Request, nodes: seq<Node>)
    requires DistinctBy(ById, nodes) && 1 <= r.policy.n && 0 <= r.policy.m <= r.policy.n
    ensures var p := PartsOf(r, nodes);
            var offers := |Usables(r, nodes, Committable)|;
            var wanted := r.policy.m - r.currentCommittable;
            && Choose(r, nodes) == Chosen(p.required + p.preferred + p.other)
            && |p.required| == if wanted <= 0 then 0 else if wanted < offers then wanted else offers
  {
    var pool := Pool(r, nodes, Committable);
    PoolLists(r, nodes, Committable);
    CandidatesAreUsable(r, nodes, Committable);
    RequiredIsTaken(r, nodes);
    TakeSize(ByDomain, pool, Occupied(r, nodes), NeedCommittable(r));
  }

  lemma UsablePool(r: Request, nodes: seq<Node>, capacity: Capacity, pool: seq<Node>, offers: set<Node>)
    requires DistinctBy(ById, nodes) && capacity in {Committable, BestEffort}
    requires pool == Pool(r, nodes, capacity) && offers == Usables(r, nodes, capacity)
    ensures DistinctBy(ById, pool) && Ordered(Rank(r), pool) && forall x :: x in pool <==> x in offers
  {
    PoolLists(r, nodes, capacity);
    PoolCounts(r, nodes, capacity);
    CandidatesAreUsable(r, nodes, capacity);
  }

  lemma PartsServe(r: Request, comm: seq<Node>, edge: seq<Node>, seen: set<string>, a: set<Node>, e: set<Node>,
                   p: Parts<Node>)
    requires Apart(ById, r.current, comm, edge) && Ordered(Rank(r), comm) && Ordered(Rank(r), edge)
    requires (forall x :: x in comm <==> x in a) && (forall x :: x in edge <==> x in e)
    requires p == ChooseParts(r, comm, edge, seen)
    ensures var spare := set x | x in a && x !in p.required;
            var seen2 := seen + Domains(p.required);
            var (second, third) := if r.policy.preferEdge then (e, spare) else (spare, e);
            && Serves(r, p.required, a, seen)
            && Serves(r, p.preferred, second, seen2)
            && Serves(r, p.other, third, seen2 + Domains(p.preferred))
  {
    var first := Take(ByDomain, comm, seen, NeedCommittable(r));
    PassServes(r, comm, seen, NeedCommittable(r), first, a);
    PassLeaves(r, comm, seen, NeedCommittable(r), first, a);
    TakeSplits(ByDomain, ById, comm, seen, NeedCommittable(r), first);
    ExtrasServe(r, comm, edge, first, (set x | x in a && x !in first.picks), e, p);
  }

  lemma ExtrasServe(r: Request, comm: seq<Node>, edge: seq<Node>, first: Taken<Node, string>, spare: set<Node>,
                    e: set<Node>, p: Parts<Node>)
    requires Apart(ById, r.current, comm, edge)
    requires Splits(ById, comm, NeedCommittable(r), first.picks, first.rest)
    requires Ordered(Rank(r), edge) && Ordered(Rank(r), first.rest)
    requires (forall x :: x in edge <==> x in e) && (forall x :: x in first.rest <==> x in spare)
    requires p == Rest(r, edge, first)
    ensures p.required == first.picks
    ensures var (second, third) := if r.policy.preferEdge then (e, spare) else (spare, e);
            && Serves(r, p.preferred, second, first.occupied)
            && Serves(r, p.other, third, first.occupied + Domains(p.preferred))
  {
    var need := Max(0, NeedTotal(r) - |first.picks|);
    var excluded := r.current + Images(ById, first.picks);
    RestUnfolds(ByDomain, r, edge, first, p);
    RestApart(ById, r.current, comm, edge, NeedCommittable(r), first.picks, first.rest);
    if r.policy.preferEdge {
      BothServe(r, first, edge, first.rest, excluded, need, e, spare, p);
    } else {
      BothServe(r, first, first.rest, edge, excluded, need, spare, e, p);
    }
  }

  lemma BothServe(r: Request, first: Taken<Node, string>, s: seq<Node>, t: seq<Node>, excluded: set<Id>, need: int,
                  second: set<Node>, third: set<Node>, p: Parts<Node>)
    requires Apart(ById, excluded, s, t) && Ordered(Rank(r), s) && Ordered(Rank(r), t)
    requires (forall x :: x in s <==> x in second) && (forall x :: x in t <==> x in third)
    requires p == FillBoth(ByDomain, ById, first, s, t, excluded, need)
    ensures p.required == first.picks
    ensures Serves(r, p.preferred, second, first.occupied)
    ensures Serves(r, p.other, third, first.occupied + Domains(p.preferred))
  {
    var x, y, seen, left := TwoPasses(ByDomain, first, s, t, excluded, need, p);
    PassServes(r, t, seen, left, y, third);
    PassServes(r, s, first.occupied, need, x, second);
    PassOccupies(s, first.occupied, need, x);
  }

  /** The second phase as two greedy passes, the second one over what the first has covered. */
  lemma TwoPasses(dom: Node -> string, first: Taken<Node, string>, s: seq<Node>, t: seq<Node>, excluded: set<Id>,
                  need: int, p: Parts<Node>)
    returns (x: Taken<Node, string>, y: Taken<Node, string>, seen: set<string>, left: int)
    requires Apart(ById, excluded, s, t) && p == FillBoth(dom, ById, first, s, t, excluded, need)
    ensures x == Take(dom, s, first.occupied, need) && y == Take(dom, t, seen, left) && seen == x.occupied
    ensures p == Parts(first.picks, x.picks, y.picks)
  {
    x := Take(dom, s, first.occupied, need);
    seen, left := x.occupied, need - |x.picks|;
    y := Take(dom, t, seen, left);
    FillBothTakes(dom, ById, first, s, t, excluded, need, x, seen, left, y);
  }
}
