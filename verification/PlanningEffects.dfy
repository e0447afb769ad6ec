/** What planning, marking and handing out do to the rows, said of the rows themselves. */
module PlanningEffects {
  import opened Options
  import opened Lifecycle
  import opened LifecycleSafety
  import opened ReportEffects

  // ------------------------------------------------------------ confirmed copies

  /** A node counts among the confirmed ones exactly if its copy is wanted and pinned, and among the
      committable ones if it was assigned as such. */
  lemma ConfirmedMeans(db: Rows, cid: Cid, x: NodeId)
    ensures x in PinnedNodes(db, cid) <==>
              (cid, x) in db.replicas && db.replicas[(cid, x)].desired && db.replicas[(cid, x)].state == Pinned
    ensures x in CommittableNodes(db, cid) <==>
              x in PinnedNodes(db, cid) && db.replicas[(cid, x)].class_ == Committable
  {
  }

  predicate Live(job: Job) {
    job.state == Pending || job.state == Retry || job.state == Authorized
  }

  // ------------------------------------------------------------ deletions

  /** The jobs that would delete the copy on `node` in this generation. */
  ghost predicate DeletionPlanned(db: Rows, cid: Cid, node: NodeId, g: int) {
    exists j :: j in db.jobs && db.jobs[j].cid == cid && db.jobs[j].node == node && db.jobs[j].op == Unpin
                && db.jobs[j].generation == g && Live(db.jobs[j])
  }

  /** Trims of the object that wait or are authorised. */
  function OpenTrims(db: Rows, cid: Cid): set<JobId> {
    set j | j in db.jobs && db.jobs[j].cid == cid && db.jobs[j].op == Unpin && db.jobs[j].reason == TrimExtra
            && Live(db.jobs[j])
  }

  lemma DeletionPlannedMeans(db: Rows, cid: Cid, node: NodeId, g: int)
    ensures DeletionPlanned(db, cid, node, g) <==>
              exists j :: j in ActiveUnpins(db, cid) && db.jobs[j].node == node && db.jobs[j].generation == g
  {
    if DeletionPlanned(db, cid, node, g) {
      var j :| j in db.jobs && db.jobs[j].cid == cid && db.jobs[j].node == node && db.jobs[j].op == Unpin
               && db.jobs[j].generation == g && Live(db.jobs[j]);
      assert j in ActiveUnpins(db, cid);
    }
  }

  /** A deletion job as it is planned: it waits, untried, from `notBefore` on. */
  function PlannedDeletion(db: Rows, now: int, cid: Cid, node: NodeId, g: int, reason: Reason, notBefore: int): Rows {
    var at := if notBefore > now then notBefore else now;
    db.(jobs := db.jobs[db.nextJob := Job(cid, node, Unpin, g, Pending, 0, at, 0, now, reason)],
        nextJob := db.nextJob + 1)
  }

  /** The deletion of a copy of a released object is planned exactly if the object is of the
      generation, nothing refers to it, and no such deletion is open; otherwise nothing changes. */
  lemma FinalDeletionPlannedExactlyIf(db: Rows, now: int, cid: Cid, node: NodeId, g: int, reason: Reason,
                                      notBefore: int)
    requires reason != TrimExtra
    ensures Next(db, PlanUnpin(now, cid, node, g, reason, notBefore)) ==
              if && cid in db.objects && db.objects[cid].generation == g && db.objects[cid].refcount == 0
                 && node in db.nodes && !DeletionPlanned(db, cid, node, g)
              then PlannedDeletion(db, now, cid, node, g, reason, notBefore) else db
  {
    DeletionPlannedMeans(db, cid, node, g);
  }

  /** A trim is planned exactly if the object is of the generation and referenced, the copy is wanted
      and confirmed, more than `replication_n` copies would remain with all open trims done, the
      committable ones without this copy are at least `committable_m`, and no deletion of it is open. */
  predicate TrimFits(db: Rows, cid: Cid, node: NodeId, g: int) {
    && cid in db.objects && db.objects[cid].generation == g && db.objects[cid].refcount > 0
    && (cid, node) in db.replicas && db.replicas[(cid, node)].desired && db.replicas[(cid, node)].state == Pinned
    && |PinnedNodes(db, cid)| - |OpenTrims(db, cid)| > db.objects[cid].n
    && |CommittableNodes(db, cid)| - (if db.replicas[(cid, node)].class_ == Committable then 1 else 0)
         >= db.objects[cid].m
  }

  lemma TrimPlannedExactlyIf(db: Rows, now: int, cid: Cid, node: NodeId, g: int, notBefore: int)
    ensures Next(db, PlanUnpin(now, cid, node, g, TrimExtra, notBefore)) ==
              if TrimFits(db, cid, node, g) && node in db.nodes && !DeletionPlanned(db, cid, node, g)
              then PlannedDeletion(db, now, cid, node, g, TrimExtra, notBefore) else db
  {
    DeletionPlannedMeans(db, cid, node, g);
    OpenTrimsMean(db, cid);
  }

  lemma OpenTrimsMean(db: Rows, cid: Cid)
    ensures OpenTrims(db, cid) == ActiveTrims(db, cid)
  {
  }

  // ------------------------------------------------------------ copies and checks

  ghost predicate JobWaits(db: Rows, cid: Cid, node: NodeId, op: Operation) {
    exists j :: j in db.jobs && db.jobs[j].cid == cid && db.jobs[j].node == node && db.jobs[j].op == op
                && (db.jobs[j].state == Pending || db.jobs[j].state == Retry)
  }

  ghost predicate JobWaitsIn(db: Rows, cid: Cid, node: NodeId, op: Operation, g: int) {
    exists j :: j in db.jobs && db.jobs[j].cid == cid && db.jobs[j].node == node && db.jobs[j].op == op
                && db.jobs[j].generation == g && (db.jobs[j].state == Pending || db.jobs[j].state == Retry)
  }

  lemma WaitingMeans(db: Rows, cid: Cid, node: NodeId, op: Operation, g: int)
    ensures HasWaiting(db, cid, node, op, g) <==> JobWaitsIn(db, cid, node, op, g)
  {
    if JobWaitsIn(db, cid, node, op, g) {
      var j :| j in db.jobs && db.jobs[j].cid == cid && db.jobs[j].node == node && db.jobs[j].op == op
               && db.jobs[j].generation == g && (db.jobs[j].state == Pending || db.jobs[j].state == Retry);
      assert db.jobs[j].Waiting();
    }
    if HasWaiting(db, cid, node, op, g) {
      var j :| j in db.jobs && db.jobs[j].cid == cid && db.jobs[j].node == node && db.jobs[j].op == op
               && db.jobs[j].generation == g && db.jobs[j].Waiting();
      assert db.jobs[j].state == Pending || db.jobs[j].state == Retry;
    }
  }

  function WithJob(db: Rows, job: Job): Rows {
    db.(jobs := db.jobs[db.nextJob := job], nextJob := db.nextJob + 1)
  }

  /** The copy is on its way or there. */
  predicate Underway(db: Rows, key: (Cid, NodeId)) {
    && key in db.replicas && db.replicas[key].desired
    && db.replicas[key].state in {Assigned, Pinning, Pinned, Grace}
  }

  /** A copy is assigned unless it is under way: wanted, in the current generation, to be pinned at
      once by a job unless one waits. */
  lemma PinPlannedExactlyIf(db: Rows, now: int, cid: Cid, node: NodeId, class_: Class)
    ensures var db' := Next(db, PlanPin(now, cid, node, class_));
            if cid in db.objects && node in db.nodes && !Underway(db, (cid, node)) then
              var g := db.objects[cid].generation;
              var seen := if (cid, node) in db.replicas then db.replicas[(cid, node)].lastVerified else 0;
              var assigned' := db.(replicas := db.replicas[(cid, node) := Replica(true, Assigned, class_, g, seen)]);
              db' == if JobWaitsIn(db, cid, node, Pin, g) then assigned'
                     else WithJob(assigned', Job(cid, node, Pin, g, Pending, 0, now, 0, now, NoReason))
            else db' == db
  {
    if cid in db.objects {
      WaitingMeans(db, cid, node, Pin, db.objects[cid].generation);
    }
  }

  /** A check is planned, under the generation the caller names, unless one of the copy waits. */
  lemma VerifyPlannedExactlyIf(db: Rows, now: int, cid: Cid, node: NodeId, g: int)
    ensures Next(db, PlanVerify(now, cid, node, g)) ==
              if cid in db.objects && node in db.nodes && !JobWaits(db, cid, node, Verify)
              then WithJob(db, Job(cid, node, Verify, g, Pending, 0, now, 0, now, NoReason)) else db
  {
    if JobWaits(db, cid, node, Verify) {
      var j :| j in db.jobs && db.jobs[j].cid == cid && db.jobs[j].node == node && db.jobs[j].op == Verify
               && (db.jobs[j].state == Pending || db.jobs[j].state == Retry);
      assert db.jobs[j].Waiting();
    }
  }

  /** A node's capacity class is recorded, and nothing else changes: not that of copies it has. */
  lemma NodeIsRecorded(db: Rows, now: int, node: NodeId, class_: Class)
    ensures var db' := Next(db, UpsertNode(now, node, class_));
            && db' == db.(nodes := db'.nodes) && db'.nodes.Keys == db.nodes.Keys + {node}
            && forall x :: x in db'.nodes ==> db'.nodes[x] == if x == node then class_ else db.nodes[x]
  {
  }

  /** Marking sets the state of one copy, and nothing else. */
  lemma MarkSetsOneState(db: Rows, now: int, cid: Cid, node: NodeId, state: ReplicaState)
    ensures var db' := Next(db, MarkEvent(now, cid, node, state));
            && db'.replicas.Keys == db.replicas.Keys && db' == db.(replicas := db'.replicas)
            && forall p :: p in db.replicas ==>
                 db'.replicas[p] == if p == (cid, node) then db.replicas[p].(state := state) else db.replicas[p]
  {
  }

  // ------------------------------------------------------------ handing out

  const TWO_MINUTES := 120

  /** A job may be handed to a node exactly if it is the node's, waits, its time has come, and it is
      not out with an agent that still has time to answer. */
  lemma DueMeans(job: Job, node: NodeId, now: int)
    ensures Due(job, node, now) <==>
      && job.node == node && (job.state == Pending || job.state == Retry)
      && job.nextAt <= now && (job.lease == 0 || job.lease <= now)
  {
  }

  /** A poll gives the jobs it hands out two minutes from now, and changes nothing else. */
  lemma PollLeases(db: Rows, now: int, node: NodeId, ids: set<JobId>)
    requires Possible(db, Poll(now, node, ids))
    ensures var db' := Next(db, Poll(now, node, ids));
            && db'.jobs.Keys == db.jobs.Keys && db' == db.(jobs := db'.jobs)
            && forall j :: j in db.jobs ==>
                 db'.jobs[j] == if j in ids then db.jobs[j].(lease := now + TWO_MINUTES) else db.jobs[j]
  {
  }

  /** After that the job is not handed out again for two minutes, and then it is. */
  lemma LeaseHoldsTwoMinutes(db: Rows, now: int, node: NodeId, ids: set<JobId>, j: JobId, later: int)
    requires 0 < now <= later && j in ids && Possible(db, Poll(now, node, ids))
    ensures var db' := Next(db, Poll(now, node, ids));
            j in db'.jobs && (Due(db'.jobs[j], node, later) <==> later >= now + TWO_MINUTES)
  {
  }

  /** After a failure the job is not handed out before its pause is over, and then it is. */
  lemma FailureHoldsForThePause(db: Rows, now: int, node: NodeId, rep: Report, later: int)
    requires AppliesTo(db, now, node, rep) && rep.said.SaidFailed?
    ensures var db' := ReportEffects.After(db, now, node, rep);
            rep.job in db.jobs && rep.job in db'.jobs
            && (Due(db'.jobs[rep.job], node, later) <==> later >= now + Pause(db.jobs[rep.job].attempts))
  {
    FailureIsRetried(db, now, node, rep);
    AppliedReportTouchesOne(db, now, node, rep);
  }
}
