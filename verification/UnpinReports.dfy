/** How long the report of an authorised removal counts. */
module UnpinReports {
  import opened Lifecycle
  import opened LifecycleSafety
  import opened LifecycleTheorems
  import opened Delivery

  ghost predicate AuthorizedUnpin(db: Rows, j: JobId) {
    j in db.jobs && db.jobs[j].op.Unpin? && db.jobs[j].state.Authorized?
  }

  /** Would the report that the removal is done be applied? `lease` is the one it carries. */
  ghost predicate Counts(db: Rows, now: int, node: NodeId, j: JobId, lease: int) {
    Judge(db, now, node, Report(j, SaidUnpinned, lease)).Apply?
  }

  /** What ends an authorisation: asking for it again, recovery, and an applied report. */
  ghost predicate Ends(db: Rows, e: Event, j: JobId) {
    && Possible(db, e) && j in db.jobs
    && match e
       case AuthorizeEvent(_, node, i, _) => i == j && node == db.jobs[j].node
       case Recover(_, _) => true
       case ReportEvent(now, node, rep) => rep.job == j && Judge(db, now, node, rep).Apply?
       case _ => false
  }

  // ------------------------------------------------------------ one event

  /** In a reachable database the report of an authorised removal counts. */
  lemma AuthorizedCounts(db: Rows, now: int, j: JobId)
    requires Inv(db) && AuthorizedUnpin(db, j)
    ensures Counts(db, now, db.jobs[j].node, j, db.jobs[j].lease)
  {
    assert JobOk(db.objects[db.jobs[j].cid], db.jobs[j]) && ObjectOk(db.objects[db.jobs[j].cid]);
  }

  /** In a reachable database the report of a removal counts exactly while the UNPIN is authorised
      under the lease it carries. */
  lemma CountsIffAuthorized(events: seq<Event>, now: int, node: NodeId, j: JobId, lease: int)
    requires j in Run(events).jobs && Run(events).jobs[j].op.Unpin?
    ensures var job := Run(events).jobs[j];
            Counts(Run(events), now, node, j, lease) <==>
              job.state.Authorized? && job.lease == lease && job.node == node
  {
    RunOk(events);
    if AuthorizedUnpin(Run(events), j) {
      AuthorizedCounts(Run(events), now, j);
    }
  }

  /** What does not end an authorisation leaves the row alone. */
  lemma UnendedKeepsRow(db: Rows, e: Event, j: JobId)
    requires Inv(db) && Possible(db, e) && AuthorizedUnpin(db, j) && !Ends(db, e, j)
    ensures j in Next(db, e).jobs && Next(db, e).jobs[j] == db.jobs[j]
  {
    match e
    case RegisterEvent(now, cid, size, n, m, source, ref) =>
      if Register(db, now, cid, size, n, m, source, ref).Ok? {
        RegisterMoves(db, now, cid, size, n, m, source, ref);
      }
    case ReleaseEvent(now, cid, ref) =>
      if Release(db, now, cid, ref).Ok? && Release(db, now, cid, ref).value.1.Counted? {
        ReleaseMoves(db, now, cid, ref);
      }
    case ReportEvent(now, node, rep) => OtherReportKeepsRow(db, now, node, rep, j);
    case AuthorizeEvent(_, node, i, lease) => OtherRequestKeepsRow(db, node, i, lease, j);
    case _ => PlansKeepRow(db, e, j);
  }

  lemma OtherReportKeepsRow(db: Rows, now: int, node: NodeId, rep: Report, j: JobId)
    requires Inv(db) && AuthorizedUnpin(db, j) && (rep.job != j || !Judge(db, now, node, rep).Apply?)
    ensures var db' := AfterReport(db, now, node, rep); j in db'.jobs && db'.jobs[j] == db.jobs[j]
  {
    assert JobOk(db.objects[db.jobs[j].cid], db.jobs[j]) && ObjectOk(db.objects[db.jobs[j].cid]);
  }

  lemma OtherRequestKeepsRow(db: Rows, node: NodeId, i: JobId, lease: int, j: JobId)
    requires j in db.jobs && (i != j || node != db.jobs[j].node)
    ensures var db' := Authorize(db, node, i, lease); j in db'.jobs && db'.jobs[j] == db.jobs[j]
  {
  }

  lemma PlansKeepRow(db: Rows, e: Event, j: JobId)
    requires Keyed(db) && Possible(db, e) && AuthorizedUnpin(db, j)
    requires e.UpsertNode? || e.MarkEvent? || e.Poll? || e.PlanUnpin? || e.PlanPin? || e.PlanVerify?
    ensures j in Next(db, e).jobs && Next(db, e).jobs[j] == db.jobs[j]
  {
  }

  /** An event that ends an authorisation: the job is over for good, or its delivery is used up. */
  lemma EndedRow(db: Rows, e: Event, j: JobId)
    requires Inv(db) && AuthorizedUnpin(db, j) && Ends(db, e, j)
    ensures j in Next(db, e).jobs && Next(db, e).jobs[j].op.Unpin? && !Next(db, e).jobs[j].state.Authorized?
    ensures Dead(Next(db, e).jobs[j]) || (Applies(db, e, j) && e.report.lease == db.jobs[j].lease)
  {
    match e
    case Recover(now, lost) => RecoverAllOk(db, now, lost);
    case ReportEvent(now, node, rep) => AppliedJob(db, now, node, rep); ApplyNeedsLease(db, now, node, rep);
    case _ =>
  }

  /** The exact condition for one event: in a reachable database the report of an authorised
      removal still counts after the event if and only if the event does not end the authorisation. */
  lemma ReportCountsIffNotEnded(events: seq<Event>, e: Event, j: JobId, now: int)
    requires AuthorizedUnpin(Run(events), j)
    ensures var job := Run(events).jobs[j];
            Counts(Run(events + [e]), now, job.node, j, job.lease) <==> !Ends(Run(events), e, j)
  {
    var db := Run(events);
    RunOk(events);
    RunOk(events + [e]);
    StepHistory(events, e, j);
    if !Possible(db, e) {
      AuthorizedCounts(db, now, j);
    } else if Ends(db, e, j) {
      EndedRow(db, e, j);
    } else {
      UnendedKeepsRow(db, e, j);
      AuthorizedCounts(Next(db, e), now, j);
    }
  }

  // ------------------------------------------------------------ over runs

  /** No event of `more` ends the authorisation that `j` has after `events`. */
  ghost predicate NeverEnds(events: seq<Event>, more: seq<Event>, j: JobId) {
    forall i :: 0 <= i < |more| ==> !EndsAt(events, more, i, j)
  }

  ghost predicate EndsAt(events: seq<Event>, more: seq<Event>, i: nat, j: JobId)
    requires i < |more|
  {
    Ends(Run(events + more[..i]), more[i], j)
  }

  /** The job is over for good, or a report under this lease has been applied. */
  ghost predicate Spent(events: seq<Event>, j: JobId, lease: int) {
    && j in Run(events).jobs && Run(events).jobs[j].op.Unpin?
    && (Dead(Run(events).jobs[j]) || lease in AppliedLeases(events, j))
  }

  /** A dead UNPIN stays dead, under reports with and without a lease. */
  lemma DeadUnpinStaysDead(db: Rows, e: Event, j: JobId)
    requires Inv(db) && Possible(db, e) && j in db.jobs && db.jobs[j].op.Unpin? && Dead(db.jobs[j])
    ensures j in Next(db, e).jobs && Next(db, e).jobs[j].op.Unpin? && Dead(Next(db, e).jobs[j])
  {
    NextGrows(db, e, Next(db, e));
    if e.ReportEvent? {
      DeadUnpinIgnoresReports(db, e.now, e.node, e.report, j);
    } else {
      DeadStaysDead(db, e, j);
    }
  }

  lemma DeadUnpinIgnoresReports(db: Rows, now: int, node: NodeId, rep: Report, j: JobId)
    requires j in db.jobs && db.jobs[j].op.Unpin? && Dead(db.jobs[j])
    ensures var db' := AfterReport(db, now, node, rep); j in db'.jobs && Dead(db'.jobs[j])
    ensures rep.job == j ==> AfterReport(db, now, node, rep).replicas == db.replicas
  {
  }

  lemma SpentStays(events: seq<Event>, e: Event, j: JobId, lease: int)
    requires Spent(events, j, lease)
    ensures Spent(events + [e], j, lease)
  {
    RunOk(events);
    StepHistory(events, e, j);
    if Possible(Run(events), e) {
      NextGrows(Run(events), e, Next(Run(events), e));
      if Dead(Run(events).jobs[j]) {
        DeadUnpinStaysDead(Run(events), e, j);
      }
    }
  }

  lemma StepSpends(events: seq<Event>, e: Event, j: JobId)
    requires AuthorizedUnpin(Run(events), j) && Run(events).jobs[j].lease != 0
    ensures if Ends(Run(events), e, j) then Spent(events + [e], j, Run(events).jobs[j].lease)
            else j in Run(events + [e]).jobs && Run(events + [e]).jobs[j] == Run(events).jobs[j]
  {
    var db := Run(events);
    RunOk(events);
    StepHistory(events, e, j);
    if Ends(db, e, j) {
      EndedRow(db, e, j);
    } else if Possible(db, e) {
      UnendedKeepsRow(db, e, j);
    }
  }

  /** After the first `n` events of `more`: the row is as it was, or the delivery is used up. */
  lemma {:induction false} AuthorizedOrSpent(events: seq<Event>, more: seq<Event>, j: JobId, n: nat)
    requires AuthorizedUnpin(Run(events), j) && Run(events).jobs[j].lease != 0 && n <= |more|
    ensures if forall i :: 0 <= i < n ==> !EndsAt(events, more, i, j)
            then j in Run(events + more[..n]).jobs && Run(events + more[..n]).jobs[j] == Run(events).jobs[j]
            else Spent(events + more[..n], j, Run(events).jobs[j].lease)
  {
    if n == 0 {
      assert events + more[..0] == events;
    } else {
      AuthorizedOrSpent(events, more, j, n - 1);
      assert events + more[..n] == (events + more[..n - 1]) + [more[n - 1]];
      if forall i :: 0 <= i < n - 1 ==> !EndsAt(events, more, i, j) {
        StepSpends(events + more[..n - 1], more[n - 1], j);
        if EndsAt(events, more, n - 1, j) {
          assert Spent(events + more[..n], j, Run(events).jobs[j].lease);
        } else {
          forall i | 0 <= i < n ensures !EndsAt(events, more, i, j) {
          }
        }
      } else {
        SpentStays(events + more[..n - 1], more[n - 1], j, Run(events).jobs[j].lease);
      }
    }
  }

  /** With a steady clock, nothing under a spent lease counts any more. */
  lemma SpentCountsNoMore(events: seq<Event>, j: JobId, lease: int, now: int, node: NodeId)
    requires Steady(events) && Spent(events, j, lease) && lease != 0
    ensures !Counts(Run(events), now, node, j, lease)
  {
    RunTracked(events, j);
    if lease in AppliedLeases(events, j) {
      AppliedLeaseIsPast(Run(events).jobs[j], Handed(events, j), AppliedLeases(events, j), Clock(events), lease);
    }
  }

  lemma AppliedLeaseIsPast(job: Job, hs: seq<int>, applied: seq<int>, clock: int, lease: int)
    requires Tracks(job, hs, applied, clock) && lease in applied && lease != 0
    ensures job.lease != lease
  {
    var i :| 0 <= i < |applied| && applied[i] == lease;
  }

  /** The exact condition over runs. For an UNPIN authorised under the lease it was handed out with,
      the report of the removal counts, after any continuation of the run, if and only if nothing
      in between ended the authorisation. */
  lemma ReportCountsExactlyUntilEnded(events: seq<Event>, more: seq<Event>, j: JobId, now: int)
    requires AuthorizedUnpin(Run(events), j) && Run(events).jobs[j].lease != 0 && Steady(events + more)
    ensures var job := Run(events).jobs[j];
            Counts(Run(events + more), now, job.node, j, job.lease) <==> NeverEnds(events, more, j)
  {
    var job := Run(events).jobs[j];
    AuthorizedOrSpent(events, more, j, |more|);
    assert more[..|more|] == more;
    if NeverEnds(events, more, j) {
      RunOk(events + more);
      AuthorizedCounts(Run(events + more), now, j);
    } else {
      SpentCountsNoMore(events + more, j, job.lease, now, job.node);
    }
  }

  /** The delivery is needed: an UNPIN authorised without one, under lease 0, can fail, be
      authorised under lease 0 again, and the same report then counts once more. */
  lemma UndeliveredUnpinCountsAgain(events: seq<Event>, j: JobId, now: int, later: int)
    requires AuthorizedUnpin(Run(events), j) && Run(events).jobs[j].lease == 0 && !Run(events).jobs[j].Trims()
    ensures var node := Run(events).jobs[j].node;
            var failed := ReportEvent(now, node, Report(j, SaidFailed, 0));
            && Ends(Run(events), failed, j)
            && Counts(Run(events + [failed] + [AuthorizeEvent(later, node, j, 0)]), later, node, j, 0)
  {
    var db := Run(events);
    var node := db.jobs[j].node;
    var failed, again := ReportEvent(now, node, Report(j, SaidFailed, 0)), AuthorizeEvent(later, node, j, 0);
    RunOk(events);
    RunOk(events + [failed] + [again]);
    StepHistory(events, failed, j);
    StepHistory(events + [failed], again, j);
    assert JobOk(db.objects[db.jobs[j].cid], db.jobs[j]) && ObjectOk(db.objects[db.jobs[j].cid]);
    FailedIsReady(db, now, j);
    AuthorizedCounts(Run(events + [failed] + [again]), later, j);
  }

  lemma FailedIsReady(db: Rows, now: int, j: JobId)
    requires Inv(db) && AuthorizedUnpin(db, j) && db.jobs[j].lease == 0 && !db.jobs[j].Trims()
    ensures var rep := Report(j, SaidFailed, 0);
            var db' := AfterReport(db, now, db.jobs[j].node, rep);
            && Judge(db, now, db.jobs[j].node, rep).Apply?
            && j in db'.jobs && db'.jobs[j].node == db.jobs[j].node && db'.jobs[j].op.Unpin?
            && db'.jobs[j].lease == 0 && ReadyToUnpin(db', j, 0)
  {
    assert JobOk(db.objects[db.jobs[j].cid], db.jobs[j]) && ObjectOk(db.objects[db.jobs[j].cid]);
  }

  /** Asking a second time for the authorisation of an UNPIN takes it back for good: no report of the
      job ever changes a copy again, not even that of the removal the first answer allowed. */
  lemma AuthorizingTwiceDiscardsTheReport(events: seq<Event>, e: Event, more: seq<Event>, j: JobId, now: int,
                                          node: NodeId, rep: Report)
    requires AuthorizedUnpin(Run(events), j) && rep.job == j
    requires e.AuthorizeEvent? && e.job == j && e.node == Run(events).jobs[j].node
    ensures var db := Run(events + [e] + more);
            && j in db.jobs && Dead(db.jobs[j])
            && AfterReport(db, now, node, rep).replicas == db.replicas
  {
    RunOk(events);
    StepHistory(events, e, j);
    EndedRow(Run(events), e, j);
    DeadUnpinForever(events + [e], more, j);
    DeadUnpinIgnoresReports(Run(events + [e] + more), now, node, rep, j);
  }

  lemma {:induction false} DeadUnpinForever(events: seq<Event>, more: seq<Event>, j: JobId)
    requires j in Run(events).jobs && Run(events).jobs[j].op.Unpin? && Dead(Run(events).jobs[j])
    ensures var db := Run(events + more); j in db.jobs && db.jobs[j].op.Unpin? && Dead(db.jobs[j])
    decreases |more|
  {
    if more == [] {
      assert events + more == events;
    } else {
      var front, e := more[..|more| - 1], more[|more| - 1];
      DeadUnpinForever(events, front, j);
      assert events + more == (events + front) + [e];
      DeadUnpinStep(events + front, e, j);
    }
  }

  lemma DeadUnpinStep(events: seq<Event>, e: Event, j: JobId)
    requires j in Run(events).jobs && Run(events).jobs[j].op.Unpin? && Dead(Run(events).jobs[j])
    ensures var db := Run(events + [e]); j in db.jobs && db.jobs[j].op.Unpin? && Dead(db.jobs[j])
  {
    RunOk(events);
    StepHistory(events, e, j);
    if Possible(Run(events), e) {
      DeadUnpinStaysDead(Run(events), e, j);
    }
  }
}
