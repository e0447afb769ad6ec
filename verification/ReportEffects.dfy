/** What a report does to the rows, branch by branch, said of the rows themselves. */
module ReportEffects {
  import opened Lifecycle
  import opened LifecycleSafety

  ghost predicate AppliesTo(db: Rows, now: int, node: NodeId, rep: Report) {
    Judge(db, now, node, rep).Apply?
  }

  function After(db: Rows, now: int, node: NodeId, rep: Report): Rows {
    Next(db, ReportEvent(now, node, rep))
  }

  // ------------------------------------------------------------ which reports are applied

  /** The job is of its object's current generation. */
  predicate Current(db: Rows, j: JobId)
    requires j in db.jobs
  {
    db.jobs[j].cid in db.objects && db.objects[db.jobs[j].cid].generation == db.jobs[j].generation
  }

  /** A report of an unknown job, or from another node, changes nothing. */
  lemma ForeignReport(db: Rows, now: int, node: NodeId, rep: Report)
    requires rep.job !in db.jobs || db.jobs[rep.job].node != node
    ensures Judge(db, now, node, rep) == NoSuchJob && After(db, now, node, rep) == db
  {
  }

  /** PIN and VERIFY. Under the current generation a report counts exactly if it carries the job's
      lease, says how it went, does not repeat a failure without lease before its delay is over and
      does not repeat the success of a finished job. */
  lemma CopyReportApplied(db: Rows, now: int, node: NodeId, rep: Report)
    requires rep.job in db.jobs && db.jobs[rep.job].node == node
    requires db.jobs[rep.job].op.Pin? || db.jobs[rep.job].op.Verify?
    ensures var job := db.jobs[rep.job];
            var success := rep.said.SaidPinned? || rep.said.SaidVerified?;
            && (Judge(db, now, node, rep) == Fence <==> !Current(db, rep.job))
            && (AppliesTo(db, now, node, rep) <==>
                  && Current(db, rep.job) && rep.lease == job.lease && (success || rep.said.SaidFailed?)
                  && !(success && job.state.Done?)
                  && !(rep.said.SaidFailed? && rep.lease == 0 && job.state.Retry? && job.nextAt > now))
            && (Judge(db, now, node, rep) == Invalid <==>
                  Current(db, rep.job) && rep.lease == job.lease && !success && !rep.said.SaidFailed?)
  {
  }

  /** UNPIN. It counts exactly for an authorised job that agrees with the object's lifecycle, under
      its lease. */
  lemma RemovalReportApplied(db: Rows, now: int, node: NodeId, rep: Report)
    requires rep.job in db.jobs && db.jobs[rep.job].node == node && db.jobs[rep.job].op.Unpin?
    ensures var job := db.jobs[rep.job];
            var lawful := Current(db, rep.job) && (job.Trims() || db.objects[job.cid].refcount == 0);
            && (Judge(db, now, node, rep) == Fence <==> !lawful)
            && (AppliesTo(db, now, node, rep) <==>
                  lawful && rep.lease == job.lease && job.state.Authorized?
                  && (rep.said.SaidUnpinned? || rep.said.SaidFailed?))
            && (Judge(db, now, node, rep) == Invalid <==>
                  lawful && rep.lease == job.lease && job.state.Authorized?
                  && !(rep.said.SaidUnpinned? || rep.said.SaidFailed?))
  {
  }

  /** UNPIN_VERIFY. It counts exactly while the object is released, under its lease. */
  lemma QuestionReportApplied(db: Rows, now: int, node: NodeId, rep: Report)
    requires rep.job in db.jobs && db.jobs[rep.job].node == node && db.jobs[rep.job].op.UnpinVerify?
    ensures var job := db.jobs[rep.job];
            var lawful := Current(db, rep.job) && db.objects[job.cid].refcount == 0;
            && (Judge(db, now, node, rep) == Fence <==> !lawful)
            && (AppliesTo(db, now, node, rep) <==>
                  lawful && rep.lease == job.lease
                  && (rep.said.SaidUnpinned? || rep.said.SaidVerified? || rep.said.SaidFailed?))
            && (Judge(db, now, node, rep) == Invalid <==>
                  lawful && rep.lease == job.lease
                  && !(rep.said.SaidUnpinned? || rep.said.SaidVerified? || rep.said.SaidFailed?))
  {
  }

  /** A report that is not applied changes at most the state of its job: fenced, it turns stale. */
  lemma UnappliedReport(db: Rows, now: int, node: NodeId, rep: Report)
    requires !AppliesTo(db, now, node, rep)
    ensures var db' := After(db, now, node, rep);
            if Judge(db, now, node, rep) == Fence
            then db' == db.(jobs := db.jobs[rep.job := db.jobs[rep.job].(state := Stale)])
            else db' == db
  {
  }

  // ------------------------------------------------------------ what an applied report changes

  predicate SameTask(a: Job, b: Job) {
    && b.cid == a.cid && b.node == a.node && b.op == a.op && b.generation == a.generation
    && b.createdAt == a.createdAt && b.reason == a.reason
  }

  /** Only the job and the copy it speaks of change; both keep their identity. */
  ghost predicate TouchesOne(db: Rows, db': Rows, j: JobId)
    requires j in db.jobs
  {
    var key := (db.jobs[j].cid, db.jobs[j].node);
    && db'.nodes == db.nodes && db'.objects == db.objects && db'.refs == db.refs && db'.nextJob == db.nextJob
    && db'.jobs.Keys == db.jobs.Keys && db'.replicas.Keys == db.replicas.Keys
    && (forall i :: i in db.jobs && i != j ==> db'.jobs[i] == db.jobs[i])
    && (forall p :: p in db.replicas && p != key ==> db'.replicas[p] == db.replicas[p])
    && SameTask(db.jobs[j], db'.jobs[j]) && db'.jobs[j].lease == 0
    && (key in db.replicas ==>
          && db'.replicas[key].class_ == db.replicas[key].class_
          && db'.replicas[key].generation == db.replicas[key].generation)
  }

  lemma AppliedReportTouchesOne(db: Rows, now: int, node: NodeId, rep: Report)
    requires AppliesTo(db, now, node, rep)
    ensures rep.job in db.jobs && db.jobs[rep.job].node == node && TouchesOne(db, After(db, now, node, rep), rep.job)
  {
  }

  /** The job is finished as it was: no more attempts, no other time. */
  predicate Finished(a: Job, b: Job) {
    b.state.Done? && b.attempts == a.attempts && b.nextAt == a.nextAt
  }

  /** A success confirms the copy: it is pinned, verified now, and counts among the confirmed ones
      if it is wanted. */
  lemma SuccessConfirmsCopy(db: Rows, now: int, node: NodeId, rep: Report)
    requires AppliesTo(db, now, node, rep) && (rep.said.SaidPinned? || rep.said.SaidVerified?)
    requires db.jobs[rep.job].op.Pin? || db.jobs[rep.job].op.Verify?
    ensures var db' := After(db, now, node, rep);
            var cid := db.jobs[rep.job].cid;
            var key := (cid, node);
            && rep.job in db'.jobs && Finished(db.jobs[rep.job], db'.jobs[rep.job])
            && (key in db.replicas ==>
                  && key in db'.replicas && db'.replicas[key].state == Pinned && db'.replicas[key].lastVerified == now
                  && db'.replicas[key].desired == db.replicas[key].desired)
            && (key in db.replicas && db.replicas[key].desired ==>
                  PinnedNodes(db', cid) == PinnedNodes(db, cid) + {node})
  {
    var db' := After(db, now, node, rep);
    var cid := db.jobs[rep.job].cid;
    var key := (cid, node);
    if key in db.replicas && db.replicas[key].desired {
      forall x ensures x in PinnedNodes(db', cid) <==> x in PinnedNodes(db, cid) + {node} {
        assert x != node ==> ((cid, x) in db'.replicas <==> (cid, x) in db.replicas);
        assert x in PinnedNodes(db', cid) <==>
          (cid, x) in db'.replicas && db'.replicas[(cid, x)].desired && db'.replicas[(cid, x)].state.Pinned?;
      }
    }
  }

  /** The pause before the next attempt, by the number of failures so far. */
  function Pause(failures: nat): int {
    var table := [30, 60, 120, 300, 900, 1800];
    if failures < 6 then table[failures] else 1800
  }

  /** A failure, whatever the job: one attempt more, tried again after the pause of the table. */
  lemma FailureIsRetried(db: Rows, now: int, node: NodeId, rep: Report)
    requires AppliesTo(db, now, node, rep) && rep.said.SaidFailed?
    ensures var db' := After(db, now, node, rep);
            var job := db.jobs[rep.job];
            && rep.job in db'.jobs && db'.jobs[rep.job].state.Retry?
            && db'.jobs[rep.job].attempts == job.attempts + 1
            && db'.jobs[rep.job].nextAt == now + Pause(job.attempts)
  {
  }

  /** A failed PIN or VERIFY marks the copy failed, so that it is confirmed no longer; a failed
      removal or question leaves the copy as it was. */
  lemma FailureOfCopy(db: Rows, now: int, node: NodeId, rep: Report)
    requires AppliesTo(db, now, node, rep) && rep.said.SaidFailed?
    ensures var db' := After(db, now, node, rep);
            var job := db.jobs[rep.job];
            var key := (job.cid, node);
            && (job.op.Unpin? || job.op.UnpinVerify? ==> db'.replicas == db.replicas)
            && ((job.op.Pin? || job.op.Verify?) && key in db.replicas ==>
                  && key in db'.replicas && db'.replicas[key].state == Failed
                  && db'.replicas[key].desired == db.replicas[key].desired
                  && db'.replicas[key].lastVerified == db.replicas[key].lastVerified
                  && node !in PinnedNodes(db', job.cid))
  {
  }

  /** A removal reported done, by an UNPIN or in answer to the question: the copy is gone and not
      wanted. */
  lemma RemovalIsRecorded(db: Rows, now: int, node: NodeId, rep: Report)
    requires AppliesTo(db, now, node, rep) && rep.said.SaidUnpinned?
    ensures var db' := After(db, now, node, rep);
            var job := db.jobs[rep.job];
            var key := (job.cid, node);
            && (job.op.Unpin? || job.op.UnpinVerify?)
            && rep.job in db'.jobs && Finished(job, db'.jobs[rep.job])
            && (key in db.replicas ==>
                  && key in db'.replicas && db'.replicas[key].state == Unpinned && !db'.replicas[key].desired
                  && db'.replicas[key].lastVerified == db.replicas[key].lastVerified)
            && node !in PinnedNodes(db', job.cid)
  {
  }

  /** The question answered with "still there": the copy is pinned, verified now and not wanted. */
  lemma SurvivalIsRecorded(db: Rows, now: int, node: NodeId, rep: Report)
    requires AppliesTo(db, now, node, rep) && rep.said.SaidVerified? && db.jobs[rep.job].op.UnpinVerify?
    ensures var db' := After(db, now, node, rep);
            var job := db.jobs[rep.job];
            var key := (job.cid, node);
            && rep.job in db'.jobs && Finished(job, db'.jobs[rep.job])
            && (key in db.replicas ==>
                  && key in db'.replicas && db'.replicas[key].state == Pinned && !db'.replicas[key].desired
                  && db'.replicas[key].lastVerified == now)
  {
  }
}
