/** Exactly what a final-release planning pass adds to the rows of a released object. */
module FinalExactly {
  import opened Lifecycle
  import opened LifecycleSafety
  import opened Planning
  import opened FinalPlanning
  import opened PlanningEffects
  import opened PlanningRuns
  import opened Controller

  /** A copy that is not known to be gone. */
  predicate Remains(db: Rows, cid: Cid, x: NodeId) {
    (cid, x) in db.replicas && db.replicas[(cid, x)].state != Unpinned
  }

  /** Beside the rows of `was` there are only new deletions, at most one for a copy: each waits, untried
      and due at once, in the current generation, and is of a remaining copy that had none open. */
  ghost predicate OnlyFinal(was: Rows, db: Rows, now: int, cid: Cid) {
    && SameCopies(was, db) && cid in was.objects
    && (forall j :: j in was.jobs ==> j in db.jobs && db.jobs[j] == was.jobs[j])
    && (forall j :: j in db.jobs && j !in was.jobs ==>
          var (x, g) := (db.jobs[j].node, was.objects[cid].generation);
          && db.jobs[j] == Job(cid, x, Unpin, g, Pending, 0, now, 0, now, Final)
          && Remains(was, cid, x) && !DeletionPlanned(was, cid, x, g))
    && (forall i, j :: i in db.jobs && i !in was.jobs && j in db.jobs && j !in was.jobs && i != j ==>
          db.jobs[i].node != db.jobs[j].node)
  }

  lemma RemainingMeans(db: Rows, cid: Cid, x: NodeId)
    ensures x in Remaining(db, cid) <==> Remains(db, cid, x)
  {
  }

  lemma HasUnpinMeans(db: Rows, cid: Cid, x: NodeId, g: int)
    ensures HasUnpin(db, cid, x, g) <==> DeletionPlanned(db, cid, x, g)
  {
    DeletionPlannedMeans(db, cid, x, g);
  }

  lemma DeletionsAreFinal(was: Rows, db: Rows, now: int, cid: Cid, notBefore: int, rest: seq<NodeId>)
    requires cid in was.objects && ListsRemaining(was, cid, rest) && notBefore <= now
    requires OnlyDeletions(was, db, now, cid, was.objects[cid].generation, notBefore, rest)
    ensures OnlyFinal(was, db, now, cid)
  {
    forall j | j in db.jobs && j !in was.jobs
      ensures Remains(was, cid, db.jobs[j].node)
      ensures !DeletionPlanned(was, cid, db.jobs[j].node, was.objects[cid].generation)
    {
      RemainingMeans(was, cid, db.jobs[j].node);
      HasUnpinMeans(was, cid, db.jobs[j].node, was.objects[cid].generation);
    }
  }

  lemma RemainingArePlanned(db: Rows, cid: Cid, g: int, x: NodeId)
    requires forall y :: y in Remaining(db, cid) ==> HasUnpin(db, cid, y, g)
    requires Remains(db, cid, x)
    ensures DeletionPlanned(db, cid, x, g)
  {
    RemainingMeans(db, cid, x);
    HasUnpinMeans(db, cid, x, g);
  }

  /** A final-release pass over a reachable database does nothing before the grace period after the
      release is over; then it adds a deletion for exactly the remaining copies that had none, and
      every remaining copy has one. */
  lemma FinalPassIsExact(events: seq<Event>, db: Rows, now: int, cid: Cid, grace: int)
    requires FinalPlanned(Run(events), db, now, cid, grace)
    ensures var was := Run(events);
            if cid in was.objects && was.objects[cid].releasedAt != 0 && now >= was.objects[cid].releasedAt + grace then
              && OnlyFinal(was, db, now, cid)
              && forall x :: Remains(db, cid, x) ==> DeletionPlanned(db, cid, x, was.objects[cid].generation)
            else db == was
  {
    var was := Run(events);
    if cid in was.objects && was.objects[cid].releasedAt != 0 && now >= was.objects[cid].releasedAt + grace {
      var (g, notBefore) := (was.objects[cid].generation, was.objects[cid].releasedAt + grace);
      var rest :| ListsRemaining(was, cid, rest) && db == FinalAll(was, now, cid, g, notBefore, rest);
      ReachableRows(events, cid);
      FinalPlanCoversEveryCopy(was, now, cid, notBefore, rest);
      DeletionsAreFinal(was, db, now, cid, notBefore, rest);
      forall x | Remains(db, cid, x) ensures DeletionPlanned(db, cid, x, g) {
        RemainingArePlanned(db, cid, g, x);
      }
    }
  }
}
