/** What the planning methods answer, and that the answer agrees with what they did. */
module Answers {
  import opened Arithmetic
  import opened Options
  import opened Lifecycle
  import opened LifecycleSafety
  import opened PlanningEffects
  import opened ReplicationDb

  /** The answer names the one job that was added; it waits, untried. */
  ghost predicate NamesNewJob(db: Rows, db': Rows, j: JobId, cid: Cid, node: NodeId, op: Operation) {
    && j !in db.jobs && db'.jobs.Keys == db.jobs.Keys + {j}
    && var job := db'.jobs[j];
       job.cid == cid && job.node == node && job.op == op && job.state == Pending && job.attempts == 0 && job.lease == 0
  }

  /** PIN: a job's identifier exactly if one was added; None exactly if the copy is under way or a job
      for it waits; else the error of the row that is missing, and nothing changed. */
  lemma PinAnswers(db: Rows, now: int, cid: Cid, node: NodeId, class_: Class)
    requires Keyed(db)
    ensures var db' := Next(db, PlanPin(now, cid, node, class_));
            match PinOutcome(db, cid, node)
            case Ok(Some(j)) => NamesNewJob(db, db', j, cid, node, Pin)
            case Ok(None) => && cid in db.objects && db'.jobs == db.jobs
                             && (Underway(db, (cid, node)) || JobWaitsIn(db, cid, node, Pin,
                                                                         db.objects[cid].generation))
            case Refused(why) => && db' == db && !Underway(db, (cid, node))
                                 && if cid !in db.objects then why == UnknownCid
                                    else node !in db.nodes && why == UnknownNode
  {
    if cid in db.objects {
      WaitingMeans(db, cid, node, Pin, db.objects[cid].generation);
    } else {
      assert (cid, node) !in db.replicas;
    }
  }

  /** VERIFY: likewise, with None exactly if a check of the copy waits. */
  lemma VerifyAnswers(db: Rows, now: int, cid: Cid, node: NodeId, g: int)
    requires Keyed(db)
    ensures var db' := Next(db, PlanVerify(now, cid, node, g));
            match VerifyOutcome(db, cid, node)
            case Ok(Some(j)) => NamesNewJob(db, db', j, cid, node, Verify)
            case Ok(None) => JobWaits(db, cid, node, Verify) && db' == db
            case Refused(why) => && db' == db && !JobWaits(db, cid, node, Verify)
                                 && if cid !in db.objects then why == UnknownCid
                                    else node !in db.nodes && why == UnknownNode
  {
    if JobWaits(db, cid, node, Verify) {
      var j :| j in db.jobs && db.jobs[j].cid == cid && db.jobs[j].node == node && db.jobs[j].op == Verify
               && (db.jobs[j].state == Pending || db.jobs[j].state == Retry);
      assert db.jobs[j].Waiting();
    }
  }

  /** UNPIN: likewise, with None exactly if the removal may not be planned now or is planned already. */
  lemma UnpinAnswers(db: Rows, now: int, cid: Cid, node: NodeId, g: int, reason: Reason, notBefore: int)
    requires Keyed(db)
    ensures var db' := Next(db, PlanUnpin(now, cid, node, g, reason, notBefore));
            var may := && (if reason == TrimExtra then TrimFits(db, cid, node, g)
                           else cid in db.objects && db.objects[cid].generation == g && db.objects[cid].refcount == 0)
                       && !DeletionPlanned(db, cid, node, g);
            match CreateUnpin(db, now, cid, node, g, reason, notBefore)
            case Ok(Some(j)) => NamesNewJob(db, db', j, cid, node, Unpin)
            case Ok(None) => db' == db && !may
            case Refused(why) => db' == db && may && node !in db.nodes && why == UnknownNode
  {
    DeletionPlannedMeans(db, cid, node, g);
    OpenTrimsMean(db, cid);
  }

  // ------------------------------------------------------------ what a poll returns

  /** The allowed ones of the leased jobs, oldest first, each once. */
  lemma AllowedInOrder(db: Rows, node: NodeId, now: int, limit: nat, leased: seq<JobId>, allowed: set<Operation>)
    requires IsOldestDue(db, node, now, limit, leased)
    ensures var out := OnlyAllowed(db.jobs, leased, allowed);
            && (forall j :: j in out <==> j in leased && j in db.jobs && db.jobs[j].op in allowed)
            && (forall i, k :: 0 <= i < k < |out| ==>
                  out[i] != out[k] && out[i] in db.jobs && out[k] in db.jobs
                  && db.jobs[out[i]].createdAt <= db.jobs[out[k]].createdAt)
  {
    OnlyAllowedMeans(db.jobs, leased, allowed);
    AllowedOldestFirst(db.jobs, leased, allowed);
  }

  ghost predicate OldestFirst(jobs: map<JobId, Job>, ids: seq<JobId>) {
    forall i, k :: 0 <= i < k < |ids| ==>
      ids[i] != ids[k] && ids[i] in jobs && ids[k] in jobs && jobs[ids[i]].createdAt <= jobs[ids[k]].createdAt
  }

  lemma {:induction false} AllowedOldestFirst(jobs: map<JobId, Job>, ids: seq<JobId>, allowed: set<Operation>)
    requires OldestFirst(jobs, ids)
    ensures OldestFirst(jobs, OnlyAllowed(jobs, ids, allowed))
  {
    if ids != [] {
      var front, last := ids[..|ids| - 1], ids[|ids| - 1];
      assert forall i :: 0 <= i < |front| ==> front[i] == ids[i];
      AllowedOldestFirst(jobs, front, allowed);
      OnlyAllowedMeans(jobs, front, allowed);
      var out := OnlyAllowed(jobs, front, allowed);
      forall i | 0 <= i < |out|
        ensures out[i] != last && (last in jobs ==> out[i] in jobs && jobs[out[i]].createdAt <= jobs[last].createdAt)
      {
        assert out[i] in front;
      }
    }
  }
}
