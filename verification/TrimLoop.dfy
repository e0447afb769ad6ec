/** The removal loop of trim planning, over any state: how many copies it gives up, which floor
    it stops at and why a second pass finds nothing to do. */
module TrimLoop {
  import opened Options
  import opened Sets

  /** `Plan` tries to schedule the removal of one copy; `Trims` are the copies scheduled so far. */
  datatype Planner<!S> = Planner(Plan: (S, nat) -> Option<S>, Trims: S -> set<nat>, Ok: S -> bool)

  /** The loop over the candidates still to be looked at. `comm` are the committable copies and
      `m` their floor, as they were when planning began. */
  function Greedy<S>(p: Planner<S>, comm: set<nat>, m: int, s: S, rest: seq<nat>, remove: int, commLeft: int): S
    decreases |rest|
  {
    if rest == [] || remove <= 0 then s
    else if rest[0] in comm && commLeft - 1 < m then Greedy(p, comm, m, s, rest[1..], remove, commLeft)
    else
      match p.Plan(s, rest[0])
      case None => Greedy(p, comm, m, s, rest[1..], remove, commLeft)
      case Some(s1) => Greedy(p, comm, m, s1, rest[1..], remove - 1, commLeft - if rest[0] in comm then 1 else 0)
  }

  /** One turn of the loop at a copy that the floor does not protect. */
  lemma GreedyTurn<S>(p: Planner<S>, comm: set<nat>, m: int, s: S, rest: seq<nat>, remove: int, left: int)
    requires rest != [] && remove > 0 && !(rest[0] in comm && left - 1 < m)
    ensures var after := match p.Plan(s, rest[0])
                         case None => Greedy(p, comm, m, s, rest[1..], remove, left)
                         case Some(s1) => Greedy(p, comm, m, s1, rest[1..], remove - 1,
                                                 left - if rest[0] in comm then 1 else 0);
            Greedy(p, comm, m, s, rest, remove, left) == after
  {
  }

  /** A scheduled removal adds one copy to `Trims`. */
  ghost predicate AddsOne<S(!new)>(p: Planner<S>) {
    forall s, x :: p.Ok(s) && p.Plan(s, x).Some? ==>
      p.Ok(p.Plan(s, x).value) && p.Trims(p.Plan(s, x).value) == p.Trims(s) + {x}
  }

  /** A scheduled removal only makes others harder to schedule. */
  ghost predicate Shrinks<S(!new)>(p: Planner<S>) {
    forall s, s1, x, y :: p.Ok(s) && p.Plan(s, y) == Some(s1) && p.Plan(s1, x).Some? ==> p.Plan(s, x).Some?
  }

  ghost predicate Distinct(s: seq<nat>) {
    forall i, k :: 0 <= i < k < |s| ==> s[i] != s[k]
  }

  // ------------------------------------------------------------ floors

  /** From the trims `a` to the trims `b`: at most `remove` more, and the floor of committable
      copies kept unless none was touched. */
  ghost predicate KeepsFloors(comm: set<nat>, m: int, a: set<nat>, b: set<nat>, remove: int) {
    && a <= b && |b| - |a| <= (if remove > 0 then remove else 0)
    && (comm - b == comm - a || |comm - b| >= m)
  }

  lemma CommLeftStep(comm: set<nat>, a: set<nat>, x: nat)
    requires x !in a
    ensures |comm - (a + {x})| == |comm - a| - if x in comm then 1 else 0
    ensures x !in comm ==> comm - (a + {x}) == comm - a
  {
    if x !in comm {
      assert comm - (a + {x}) == comm - a;
    } else {
      assert comm - (a + {x}) == (comm - a) - {x};
    }
  }

  /** Where the loop may start: different copies, none scheduled yet, and the right count of
      committable ones. */
  ghost predicate Ready<S(!new)>(p: Planner<S>, comm: set<nat>, s: S, rest: seq<nat>, left: int) {
    p.Ok(s) && Distinct(rest) && left == |comm - p.Trims(s)| && forall x :: x in rest ==> x !in p.Trims(s)
  }

  lemma ReadyAfterPlan<S(!new)>(p: Planner<S>, comm: set<nat>, s: S, rest: seq<nat>, left: int)
    requires AddsOne(p) && Ready(p, comm, s, rest, left) && rest != [] && p.Plan(s, rest[0]).Some?
    ensures Ready(p, comm, p.Plan(s, rest[0]).value, rest[1..], left - if rest[0] in comm then 1 else 0)
    ensures p.Trims(p.Plan(s, rest[0]).value) == p.Trims(s) + {rest[0]}
  {
    CommLeftStep(comm, p.Trims(s), rest[0]);
  }

  lemma FloorStep(comm: set<nat>, m: int, a: set<nat>, b: set<nat>, x: nat, remove: int)
    requires x !in a && KeepsFloors(comm, m, a + {x}, b, remove - 1) && remove > 0
    requires x in comm ==> |comm - a| - 1 >= m
    ensures KeepsFloors(comm, m, a, b, remove)
  {
    CommLeftStep(comm, a, x);
  }

  lemma {:induction false} GreedyKeepsFloors<S(!new)>(p: Planner<S>, comm: set<nat>, m: int, s: S, rest: seq<nat>,
                                                      remove: int, left: int, s': S)
    requires AddsOne(p) && Ready(p, comm, s, rest, left) && s' == Greedy(p, comm, m, s, rest, remove, left)
    ensures p.Ok(s') && KeepsFloors(comm, m, p.Trims(s), p.Trims(s'), remove)
    decreases |rest|
  {
    if rest != [] && remove > 0 {
      var x := rest[0];
      if !(x in comm && left - 1 < m) && p.Plan(s, x).Some? {
        ReadyAfterPlan(p, comm, s, rest, left);
        GreedyKeepsFloors(p, comm, m, p.Plan(s, x).value, rest[1..], remove - 1, left - if x in comm then 1 else 0, s');
        FloorStep(comm, m, p.Trims(s), p.Trims(s'), x, remove);
      } else {
        GreedyKeepsFloors(p, comm, m, s, rest[1..], remove, left, s');
      }
    }
  }

  // ------------------------------------------------------------ nothing left to do

  /** The loop passes over this copy. */
  ghost predicate Blocked<S(!new)>(p: Planner<S>, comm: set<nat>, m: int, s: S, x: nat) {
    (x in comm && |comm - p.Trims(s)| - 1 < m) || p.Plan(s, x).None?
  }

  lemma BlockedStays<S(!new)>(p: Planner<S>, comm: set<nat>, m: int, s: S, x: nat, y: nat)
    requires AddsOne(p) && Shrinks(p) && p.Ok(s) && p.Plan(s, y).Some? && Blocked(p, comm, m, s, x)
    ensures Blocked(p, comm, m, p.Plan(s, y).value, x)
  {
    SubsetSize(comm - (p.Trims(s) + {y}), comm - p.Trims(s));
  }

  lemma {:induction false} GreedyKeepsBlocked<S(!new)>(p: Planner<S>, comm: set<nat>, m: int, s: S, rest: seq<nat>,
                                                       remove: int, left: int, x: nat, s': S)
    requires AddsOne(p) && Shrinks(p) && p.Ok(s) && Blocked(p, comm, m, s, x)
    requires s' == Greedy(p, comm, m, s, rest, remove, left)
    ensures Blocked(p, comm, m, s', x)
    decreases |rest|
  {
    if rest != [] && remove > 0 {
      var y := rest[0];
      if !(y in comm && left - 1 < m) && p.Plan(s, y).Some? {
        BlockedStays(p, comm, m, s, x, y);
        GreedyKeepsBlocked(p, comm, m, p.Plan(s, y).value, rest[1..], remove - 1, left - if y in comm then 1 else 0,
                           x, s');
      } else {
        GreedyKeepsBlocked(p, comm, m, s, rest[1..], remove, left, x, s');
      }
    }
  }

  /** The loop ended with the surplus gone, or with every copy it looked at scheduled or blocked. */
  ghost predicate Finished<S(!new)>(p: Planner<S>, comm: set<nat>, m: int, s: S, s': S, rest: seq<nat>, remove: int) {
    || |p.Trims(s')| - |p.Trims(s)| >= remove
    || forall x :: x in rest ==> x in p.Trims(s') || Blocked(p, comm, m, s', x)
  }

  lemma {:induction false} GreedyFinishes<S(!new)>(p: Planner<S>, comm: set<nat>, m: int, s: S, rest: seq<nat>,
                                                   remove: int, left: int, s': S)
    requires AddsOne(p) && Shrinks(p) && Ready(p, comm, s, rest, left)
    requires s' == Greedy(p, comm, m, s, rest, remove, left)
    ensures Finished(p, comm, m, s, s', rest, remove)
    decreases |rest|
  {
    if rest != [] && remove > 0 {
      var x := rest[0];
      if !(x in comm && left - 1 < m) && p.Plan(s, x).Some? {
        var after := left - if x in comm then 1 else 0;
        ReadyAfterPlan(p, comm, s, rest, left);
        GreedyFinishes(p, comm, m, p.Plan(s, x).value, rest[1..], remove - 1, after, s');
        TakenIsFinished(p, comm, m, s, p.Plan(s, x).value, rest, remove, after, s');
      } else {
        ReadyAfterSkip(p, comm, s, rest, left);
        GreedyFinishes(p, comm, m, s, rest[1..], remove, left, s');
        SkippedIsFinished(p, comm, m, s, rest, remove, left, s');
      }
    }
  }

  lemma TakenIsFinished<S(!new)>(p: Planner<S>, comm: set<nat>, m: int, s: S, s1: S, rest: seq<nat>, remove: int,
                                 left: int, s': S)
    requires AddsOne(p) && rest != [] && rest[0] !in p.Trims(s) && p.Trims(s1) == p.Trims(s) + {rest[0]}
    requires Ready(p, comm, s1, rest[1..], left) && s' == Greedy(p, comm, m, s1, rest[1..], remove - 1, left)
    requires Finished(p, comm, m, s1, s', rest[1..], remove - 1)
    ensures Finished(p, comm, m, s, s', rest, remove)
  {
    GreedyKeepsFloors(p, comm, m, s1, rest[1..], remove - 1, left, s');
    FinishedOneMore(p, comm, m, s, s1, s', rest, remove);
  }

  lemma SkippedIsFinished<S(!new)>(p: Planner<S>, comm: set<nat>, m: int, s: S, rest: seq<nat>, remove: int,
                                   left: int, s': S)
    requires AddsOne(p) && Shrinks(p) && Ready(p, comm, s, rest, left) && rest != []
    requires (rest[0] in comm && left - 1 < m) || p.Plan(s, rest[0]).None?
    requires s' == Greedy(p, comm, m, s, rest[1..], remove, left) && Finished(p, comm, m, s, s', rest[1..], remove)
    ensures Finished(p, comm, m, s, s', rest, remove)
  {
    GreedyKeepsBlocked(p, comm, m, s, rest[1..], remove, left, rest[0], s');
    FinishedOneBlocked(p, comm, m, s, s', rest, remove);
  }

  lemma ReadyAfterSkip<S(!new)>(p: Planner<S>, comm: set<nat>, s: S, rest: seq<nat>, left: int)
    requires Ready(p, comm, s, rest, left) && rest != []
    ensures Ready(p, comm, s, rest[1..], left)
  {
  }

  lemma FinishedOneBlocked<S(!new)>(p: Planner<S>, comm: set<nat>, m: int, s: S, s': S, rest: seq<nat>, remove: int)
    requires rest != [] && Blocked(p, comm, m, s', rest[0]) && Finished(p, comm, m, s, s', rest[1..], remove)
    ensures Finished(p, comm, m, s, s', rest, remove)
  {
    assert forall y :: y in rest ==> y == rest[0] || y in rest[1..];
  }

  lemma FinishedOneMore<S(!new)>(p: Planner<S>, comm: set<nat>, m: int, s: S, s1: S, s': S, rest: seq<nat>, remove: int)
    requires rest != [] && rest[0] !in p.Trims(s) && p.Trims(s1) == p.Trims(s) + {rest[0]} && p.Trims(s1) <= p.Trims(s')
    requires Finished(p, comm, m, s1, s', rest[1..], remove - 1)
    ensures Finished(p, comm, m, s, s', rest, remove)
  {
    assert forall y :: y in rest ==> y == rest[0] || y in rest[1..];
  }

  lemma {:induction false} GreedyAllBlocked<S(!new)>(p: Planner<S>, comm: set<nat>, m: int, s: S, rest: seq<nat>,
                                                     remove: int)
    requires forall x :: x in rest ==> Blocked(p, comm, m, s, x)
    ensures Greedy(p, comm, m, s, rest, remove, |comm - p.Trims(s)|) == s
    decreases |rest|
  {
    if rest != [] && remove > 0 {
      assert Blocked(p, comm, m, s, rest[0]);
      GreedyAllBlocked(p, comm, m, s, rest[1..], remove);
    }
  }
}
