/** Planning passes are runs of the database, so every theorem about runs holds after them; and
    what they promise holds in every reachable state. */
module PlanningRuns {
  import opened Options
  import opened Lifecycle
  import opened LifecycleSafety
  import opened TrimLoop
  import opened Planning
  import opened FinalPlanning
  import opened Controller

  lemma RunOneMore(events: seq<Event>, e: Event)
    requires Possible(Run(events), e)
    ensures Run(events + [e]) == Next(Run(events), e)
  {
    assert (events + [e])[..|events|] == events;
  }

  lemma {:induction false} GreedyIsRun(events: seq<Event>, p: Planner<Rows>, now: int, cid: Cid, gen: int,
                                       comm: set<NodeId>, m: int,
                                       rest: seq<NodeId>, remove: int, left: int) returns (more: seq<Event>)
    requires forall db, x :: p.Plan(db, x) == PlanOne(db, now, cid, gen, x)
    ensures Run(events + more) == Greedy(p, comm, m, Run(events), rest, remove, left)
    decreases |rest|
  {
    if rest == [] || remove <= 0 {
      more := [];
      assert events + more == events;
    } else if rest[0] in comm && left - 1 < m {
      more := GreedyIsRun(events, p, now, cid, gen, comm, m, rest[1..], remove, left);
    } else {
      GreedyTurn(p, comm, m, Run(events), rest, remove, left);
      CreateIsPlanOne(Run(events), now, cid, gen, rest[0]);
      if p.Plan(Run(events), rest[0]).Some? {
        var e := PlanUnpin(now, cid, rest[0], gen, TrimExtra, 0);
        RunOneMore(events, e);
        var after := left - if rest[0] in comm then 1 else 0;
        var others := GreedyIsRun(events + [e], p, now, cid, gen, comm, m, rest[1..], remove - 1, after);
        more := [e] + others;
        assert events + more == (events + [e]) + others;
      } else {
        more := GreedyIsRun(events, p, now, cid, gen, comm, m, rest[1..], remove, left);
      }
    }
  }

  /** A trim planning pass in a reachable database leads to a reachable one, in which, if it
      planned anything, the floors hold outside the active trims. */
  lemma TrimPassIsSafeRun(events: seq<Event>, db: Rows, now: int, cid: Cid) returns (more: seq<Event>)
    requires TrimPlanned(Run(events), db, now, cid)
    ensures db == Run(events + more)
    ensures db != Run(events) ==>
      && cid in db.objects && SameCopies(Run(events), db)
      && |Spare(db, cid)| >= db.objects[cid].n
      && (|SpareCommittable(db, cid)| >= db.objects[cid].m
          || SpareCommittable(db, cid) == SpareCommittable(Run(events), cid))
  {
    var was := Run(events);
    var rest :| ListsSpare(was, cid, rest) && db == TrimAll(was, now, cid, rest);
    ReachableRows(events, cid);
    if db != was {
      TrimPlanKeepsFloors(was, now, cid, rest);
      var gen := was.objects[cid].generation;
      more := GreedyIsRun(events, TrimPlanner(was, now, cid, gen), now, cid, gen, CommittableNodes(was, cid),
                          was.objects[cid].m, rest, Surplus(was, cid), |SpareCommittable(was, cid)|);
    } else {
      more := [];
      assert events + more == events;
    }
  }

  lemma RemainingCovered(db: Rows, now: int, cid: Cid, notBefore: int, rest: seq<NodeId>)
    requires Keyed(db) && cid in db.objects && db.objects[cid].refcount == 0 && ListsRemaining(db, cid, rest)
    ensures var gen := db.objects[cid].generation;
            var db' := FinalAll(db, now, cid, gen, notBefore, rest);
            forall x :: x in Remaining(db', cid) ==> HasUnpin(db', cid, x, gen)
  {
    FinalPlanCoversEveryCopy(db, now, cid, notBefore, rest);
  }

  lemma ReachableRows(events: seq<Event>, cid: Cid)
    ensures Keyed(Run(events))
    ensures cid in Run(events).objects ==> ObjectOk(Run(events).objects[cid])
  {
    RunOk(events);
  }

  lemma {:induction false} FinalAllIsRun(events: seq<Event>, now: int, cid: Cid, gen: int, notBefore: int,
                                         rest: seq<NodeId>)
    returns (more: seq<Event>)
    ensures Run(events + more) == FinalAll(Run(events), now, cid, gen, notBefore, rest)
    decreases |rest|
  {
    if rest == [] {
      more := [];
      assert events + more == events;
    } else {
      var others := FinalAllIsRun(events, now, cid, gen, notBefore, rest[..|rest| - 1]);
      var e := PlanUnpin(now, cid, rest[|rest| - 1], gen, Final, notBefore);
      RunOneMore(events + others, e);
      more := others + [e];
      assert events + more == (events + others) + [e];
    }
  }

  /** A final-release pass in a reachable database leads to a reachable one. Before the end of the
      grace period, or while the object is referenced, it changes nothing; afterwards every copy
      not known to be gone has a deletion under way. */
  lemma FinalPassIsSafeRun(events: seq<Event>, db: Rows, now: int, cid: Cid, grace: int) returns (more: seq<Event>)
    requires FinalPlanned(Run(events), db, now, cid, grace)
    ensures db == Run(events + more)
    ensures cid in Run(events).objects ==>
      var obj := Run(events).objects[cid];
      if obj.refcount > 0 || now < obj.releasedAt + grace then db == Run(events)
      else forall x :: x in Remaining(db, cid) ==> HasUnpin(db, cid, x, obj.generation)
  {
    var was := Run(events);
    more := [];
    assert events + more == events;
    if cid in was.objects {
      ReachableRows(events, cid);
      var obj := was.objects[cid];
      if obj.releasedAt != 0 && now >= obj.releasedAt + grace {
        var rest :| ListsRemaining(was, cid, rest)
                    && db == FinalAll(was, now, cid, obj.generation, obj.releasedAt + grace, rest);
        RemainingCovered(was, now, cid, obj.releasedAt + grace, rest);
        more := FinalAllIsRun(events, now, cid, obj.generation, obj.releasedAt + grace, rest);
      }
    }
  }
}
