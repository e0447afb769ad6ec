/** Leases as delivery tokens: each delivery of a job counts at most once. */
module Delivery {
  import opened Options
  import opened Lifecycle
  import opened LifecycleSafety
  import opened LifecycleTheorems

  /** The leases under which job `j` was handed out, in order. */
  ghost function Handed(events: seq<Event>, j: JobId): seq<int> {
    if events == [] then []
    else
      var front, e := events[..|events| - 1], events[|events| - 1];
      Handed(front, j) + HandedBy(Run(front), e, j)
  }

  ghost function HandedBy(db: Rows, e: Event, j: JobId): seq<int> {
    if HandsOut(db, e, j) then [e.now + LEASE_SECONDS] else []
  }

  ghost predicate HandsOut(db: Rows, e: Event, j: JobId) {
    Possible(db, e) && e.Poll? && j in e.handed
  }

  /** The report changes the job row or its copy. */
  ghost predicate Applies(db: Rows, e: Event, j: JobId) {
    e.ReportEvent? && e.report.job == j && Judge(db, e.now, e.node, e.report).Apply?
  }

  /** The leases carried by the applied reports of job `j`, in order. */
  ghost function AppliedLeases(events: seq<Event>, j: JobId): seq<int> {
    if events == [] then []
    else
      var front, e := events[..|events| - 1], events[|events| - 1];
      AppliedLeases(front, j) + AppliedBy(Run(front), e, j)
  }

  ghost function AppliedBy(db: Rows, e: Event, j: JobId): seq<int> {
    if Applies(db, e, j) && e.report.lease != 0 then [e.report.lease] else []
  }

  ghost function After(db: Rows, e: Event): Rows {
    if Possible(db, e) then Next(db, e) else db
  }

  predicate Increasing(s: seq<int>) {
    forall i, k :: 0 <= i < k < |s| ==> s[i] < s[k]
  }

  /** The clock never goes back. */
  ghost predicate Steady(events: seq<Event>) {
    && (forall i :: 0 <= i < |events| ==> 0 <= events[i].now)
    && (forall i, k :: 0 <= i < k < |events| ==> events[i].now <= events[k].now)
  }

  function Clock(events: seq<Event>): int {
    if events == [] then 0 else events[|events| - 1].now
  }

  /** How a job row relates to the history of its deliveries. */
  ghost predicate Tracks(job: Job, hs: seq<int>, applied: seq<int>, clock: int) {
    && Increasing(hs) && Increasing(applied)
    && (forall i :: 0 <= i < |hs| ==> 0 < hs[i] <= clock + LEASE_SECONDS)
    && (job.lease != 0 ==> hs != [] && job.lease == hs[|hs| - 1])
    && (job.lease == 0 && job.Waiting() && hs != [] ==> job.nextAt > hs[|hs| - 1] - LEASE_SECONDS)
    && (applied != [] ==> hs != [])
    && (hs != [] ==> forall i :: 0 <= i < |applied| ==> applied[i] <= hs[|hs| - 1])
    && (forall i :: 0 <= i < |applied| && job.lease != 0 ==> applied[i] < job.lease)
  }

  /** The row, if there is one, agrees with the history; without a row there is no history. */
  ghost predicate RowTracks(db: Rows, hs: seq<int>, applied: seq<int>, clock: int, j: JobId) {
    if j in db.jobs then Tracks(db.jobs[j], hs, applied, clock) else hs == [] && applied == []
  }

  ghost predicate Tracked(db: Rows, events: seq<Event>, j: JobId, clock: int) {
    RowTracks(db, Handed(events, j), AppliedLeases(events, j), clock, j)
  }

  /** The delivery fields of a row are left alone, and it does not start waiting. */
  predicate Untouched(a: Job, b: Job) {
    b.lease == a.lease && b.nextAt == a.nextAt && b.attempts == a.attempts && (b.Waiting() ==> a.Waiting())
  }

  ghost predicate Keeps(db: Rows, db': Rows, j: JobId) {
    && (j in db.jobs ==> j in db'.jobs && Untouched(db.jobs[j], db'.jobs[j]))
    && (j !in db.jobs && j in db'.jobs ==> db'.jobs[j].lease == 0 && db'.jobs[j].attempts == 0)
  }

  lemma MovesKeep(db: Rows, db': Rows, cid: Cid, j: JobId)
    requires MovesOnly(db, db', cid)
    ensures Keeps(db, db', j)
  {
  }

  lemma ReportKeeps(db: Rows, now: int, node: NodeId, rep: Report, j: JobId)
    requires rep.job != j || !Judge(db, now, node, rep).Apply?
    ensures Keeps(db, AfterReport(db, now, node, rep), j)
  {
  }

  lemma PlansKeep(db: Rows, e: Event, j: JobId)
    requires Keyed(db) && (e.PlanUnpin? || e.PlanPin? || e.PlanVerify?)
    ensures Keeps(db, Next(db, e), j)
  {
  }

  lemma RegisterKeeps(db: Rows, now: int, cid: Cid, size: int, n: int, m: int, source: Option<NodeId>,
                      ref: Option<RefId>, j: JobId)
    requires Keyed(db)
    ensures Keeps(db, OrElse(Register(db, now, cid, size, n, m, source, ref), db), j)
  {
    if Register(db, now, cid, size, n, m, source, ref).Ok? {
      RegisterMoves(db, now, cid, size, n, m, source, ref);
      MovesKeep(db, Register(db, now, cid, size, n, m, source, ref).value, cid, j);
    }
  }

  lemma ReleaseKeeps(db: Rows, now: int, cid: Cid, ref: Option<RefId>, j: JobId)
    requires Release(db, now, cid, ref).Ok?
    ensures Keeps(db, Release(db, now, cid, ref).value.0, j)
  {
    if Release(db, now, cid, ref).value.1.Counted? {
      ReleaseMoves(db, now, cid, ref);
      MovesKeep(db, Release(db, now, cid, ref).value.0, cid, j);
    }
  }

  /** Only a delivery or an applied report touches the delivery fields of a job. */
  lemma OthersKeep(db: Rows, e: Event, j: JobId)
    requires Inv(db) && !HandsOut(db, e, j) && !Applies(db, e, j)
    ensures Keeps(db, After(db, e), j)
  {
    if Possible(db, e) {
      match e
      case Recover(now, lost) => RecoverAllOk(db, now, lost);
      case RegisterEvent(now, cid, size, n, m, source, ref) => RegisterKeeps(db, now, cid, size, n, m, source, ref, j);
      case ReleaseEvent(now, cid, ref) =>
        if Release(db, now, cid, ref).Ok? {
          ReleaseKeeps(db, now, cid, ref, j);
        }
      case ReportEvent(now, node, rep) => ReportKeeps(db, now, node, rep, j);
      case PlanUnpin(_, _, _, _, _, _) => PlansKeep(db, e, j);
      case PlanPin(_, _, _, _) => PlansKeep(db, e, j);
      case PlanVerify(_, _, _, _) => PlansKeep(db, e, j);
      case _ => QuietKeeps(db, e, j);
    }
  }

  lemma QuietKeeps(db: Rows, e: Event, j: JobId)
    requires !HandsOut(db, e, j) && Possible(db, e)
    requires e.UpsertNode? || e.MarkEvent? || e.Poll? || e.AuthorizeEvent?
    ensures Keeps(db, Next(db, e), j)
  {
  }

  lemma AppendIncreasing(s: seq<int>, x: int)
    requires Increasing(s) && forall i :: 0 <= i < |s| ==> s[i] < x
    ensures Increasing(s + [x])
  {
  }

  /** A delivery hands out a lease later than every one before it. */
  lemma DeliveryTracks(job: Job, hs: seq<int>, applied: seq<int>, clock: int, node: NodeId, now: int)
    requires Tracks(job, hs, applied, clock) && 0 <= clock <= now && Due(job, node, now)
    ensures Tracks(job.(lease := now + LEASE_SECONDS), hs + [now + LEASE_SECONDS], applied, now)
  {
    assert hs != [] ==> hs[|hs| - 1] < now + LEASE_SECONDS;
    AppendIncreasing(hs, now + LEASE_SECONDS);
  }

  /** Closing a delivery: the row has no lease any more, and waits only beyond the last one's start. */
  lemma ClosedTracks(job: Job, after: Job, hs: seq<int>, applied: seq<int>, clock: int, now: int)
    requires Tracks(job, hs, applied, clock) && 0 <= clock <= now
    requires after.lease == 0 && (after.Waiting() ==> after.nextAt > now)
    ensures Tracks(after, hs, applied, now)
  {
  }

  lemma AppliedOnce(after: Job, hs: seq<int>, applied: seq<int>, now: int, lease: int)
    requires Tracks(after, hs, applied, now) && after.lease == 0
    requires hs != [] && lease == hs[|hs| - 1] && forall i :: 0 <= i < |applied| ==> applied[i] < lease
    ensures Tracks(after, hs, applied + [lease], now)
  {
    AppendIncreasing(applied, lease);
  }

  lemma ReportTracks(job: Job, hs: seq<int>, applied: seq<int>, clock: int, now: int, rep: Report)
    requires Tracks(job, hs, applied, clock) && 0 <= clock <= now && rep.lease == job.lease
    ensures Tracks(JobAfter(job, now, rep.said), hs, applied + (if rep.lease != 0 then [rep.lease] else []), now)
  {
    ClosedTracks(job, JobAfter(job, now, rep.said), hs, applied, clock, now);
    if rep.lease != 0 {
      AppliedOnce(JobAfter(job, now, rep.said), hs, applied, now, rep.lease);
    } else {
      assert applied + [] == applied;
    }
  }

  /** An applied report carries the current lease, or none for a job without one. */
  lemma ApplyNeedsLease(db: Rows, now: int, node: NodeId, rep: Report)
    requires Judge(db, now, node, rep).Apply?
    ensures rep.job in db.jobs && rep.lease == db.jobs[rep.job].lease
  {
  }

  /** Histories and state one event longer. */
  lemma StepHistory(events: seq<Event>, e: Event, j: JobId)
    ensures Run(events + [e]) == After(Run(events), e)
    ensures Handed(events + [e], j) == Handed(events, j) + HandedBy(Run(events), e, j)
    ensures AppliedLeases(events + [e], j) == AppliedLeases(events, j) + AppliedBy(Run(events), e, j)
  {
    var all := events + [e];
    assert all[..|all| - 1] == events && all[|all| - 1] == e;
  }

  lemma UntouchedTracks(a: Job, b: Job, hs: seq<int>, applied: seq<int>, clock: int, now: int)
    requires Untouched(a, b) && clock <= now && Tracks(a, hs, applied, clock)
    ensures Tracks(b, hs, applied, now)
  {
  }

  lemma KeepsTracks(db: Rows, db': Rows, hs: seq<int>, applied: seq<int>, clock: int, now: int, j: JobId)
    requires Keeps(db, db', j) && clock <= now && RowTracks(db, hs, applied, clock, j)
    ensures RowTracks(db', hs, applied, now, j)
  {
    if j in db.jobs {
      UntouchedTracks(db.jobs[j], db'.jobs[j], hs, applied, clock, now);
    }
  }

  lemma HandedTracked(db: Rows, e: Event, hs: seq<int>, applied: seq<int>, clock: int, j: JobId)
    requires 0 <= clock <= e.now && HandsOut(db, e, j) && RowTracks(db, hs, applied, clock, j)
    ensures RowTracks(After(db, e), hs + HandedBy(db, e, j), applied, e.now, j)
  {
    DeliveryTracks(db.jobs[j], hs, applied, clock, e.node, e.now);
  }

  lemma AppliedTracked(db: Rows, e: Event, hs: seq<int>, applied: seq<int>, clock: int, j: JobId)
    requires 0 <= clock <= e.now && Applies(db, e, j) && RowTracks(db, hs, applied, clock, j)
    ensures RowTracks(After(db, e), hs, applied + AppliedBy(db, e, j), e.now, j)
  {
    ApplyNeedsLease(db, e.now, e.node, e.report);
    ReportTracks(db.jobs[j], hs, applied, clock, e.now, e.report);
    AppliedJob(db, e.now, e.node, e.report);
  }

  lemma AfterTracked(db: Rows, e: Event, hs: seq<int>, applied: seq<int>, clock: int, j: JobId)
    requires Inv(db) && 0 <= clock <= e.now && RowTracks(db, hs, applied, clock, j)
    ensures RowTracks(After(db, e), hs + HandedBy(db, e, j), applied + AppliedBy(db, e, j), e.now, j)
  {
    if HandsOut(db, e, j) {
      HandedTracked(db, e, hs, applied, clock, j);
      assert applied + AppliedBy(db, e, j) == applied;
    } else if Applies(db, e, j) {
      AppliedTracked(db, e, hs, applied, clock, j);
      assert hs + HandedBy(db, e, j) == hs;
    } else {
      OthersKeep(db, e, j);
      KeepsTracks(db, After(db, e), hs, applied, clock, e.now, j);
      assert hs + HandedBy(db, e, j) == hs && applied + AppliedBy(db, e, j) == applied;
    }
  }

  lemma StepTracked(events: seq<Event>, e: Event, j: JobId)
    requires 0 <= Clock(events) <= e.now && Tracked(Run(events), events, j, Clock(events))
    ensures Tracked(Run(events + [e]), events + [e], j, e.now)
  {
    RunOk(events);
    StepHistory(events, e, j);
    AfterTracked(Run(events), e, Handed(events, j), AppliedLeases(events, j), Clock(events), j);
  }

  lemma AppliedJob(db: Rows, now: int, node: NodeId, rep: Report)
    requires Judge(db, now, node, rep).Apply?
    ensures rep.job in db.jobs
    ensures AfterReport(db, now, node, rep).jobs == db.jobs[rep.job := JobAfter(db.jobs[rep.job], now, rep.said)]
  {
  }

  lemma ClockMoves(events: seq<Event>, e: Event)
    requires Steady(events + [e])
    ensures Steady(events) && 0 <= Clock(events) <= e.now
  {
    var all := events + [e];
    assert forall i :: 0 <= i < |events| ==> all[i] == events[i];
    assert all[|events|] == e;
    assert 0 <= all[|events|].now;
    if events != [] {
      assert 0 <= all[|events| - 1].now <= all[|events|].now;
    }
  }

  lemma {:induction false} RunTracked(events: seq<Event>, j: JobId)
    requires Steady(events)
    ensures Tracked(Run(events), events, j, Clock(events))
  {
    if events != [] {
      var front, e := events[..|events| - 1], events[|events| - 1];
      assert events == front + [e];
      ClockMoves(front, e);
      RunTracked(front, j);
      StepTracked(front, e, j);
    }
  }

  // ------------------------------------------------------------ theorems

  /** The leases handed out for one job strictly increase. */
  lemma LeasesIncrease(events: seq<Event>, j: JobId)
    requires Steady(events)
    ensures Increasing(Handed(events, j))
  {
    RunTracked(events, j);
  }

  /** Each delivery is reported with effect at most once: the leases of the applied reports of
      one job strictly increase, so no lease is applied twice. */
  lemma EachDeliveryCountsOnce(events: seq<Event>, j: JobId)
    requires Steady(events)
    ensures Increasing(AppliedLeases(events, j))
  {
    RunTracked(events, j);
  }

  /** Once a job is handed out again, a report of any earlier delivery is ignored or fenced. */
  lemma EarlierDeliveryIgnored(events: seq<Event>, j: JobId, i: nat, now: int, node: NodeId, said: Said)
    requires Steady(events) && i + 1 < |Handed(events, j)|
    ensures !Judge(Run(events), now, node, Report(j, said, Handed(events, j)[i])).Apply?
  {
    RunTracked(events, j);
    var hs := Handed(events, j);
    var rep := Report(j, said, hs[i]);
    assert j in Run(events).jobs;
    assert hs[i] < hs[|hs| - 1];
    if Judge(Run(events), now, node, rep).Apply? {
      ApplyNeedsLease(Run(events), now, node, rep);
    }
  }

  ghost predicate AttemptsOk(db: Rows, hs: seq<int>, j: JobId) {
    j in db.jobs ==> db.jobs[j].attempts + (if db.jobs[j].lease != 0 then 1 else 0) <= |hs|
  }

  /** With agents that echo their lease, a job has never failed more often than it was handed
      out, and not at all for the delivery still under way. */
  lemma {:induction false} AttemptsNeverExceedDeliveries(events: seq<Event>, j: JobId)
    requires forall i :: 0 <= i < |events| ==> CarriesLease(events[i])
    ensures AttemptsOk(Run(events), Handed(events, j), j)
  {
    if events != [] {
      var front, e := events[..|events| - 1], events[|events| - 1];
      assert events == front + [e];
      AttemptsNeverExceedDeliveries(front, j);
      RunOk(front);
      StepHistory(front, e, j);
      AfterAttempts(Run(front), e, Handed(front, j), j);
    }
  }

  lemma AfterAttempts(db: Rows, e: Event, hs: seq<int>, j: JobId)
    requires Inv(db) && AttemptsOk(db, hs, j) && CarriesLease(e)
    ensures AttemptsOk(After(db, e), hs + HandedBy(db, e, j), j)
  {
    if Applies(db, e, j) {
      ApplyNeedsLease(db, e.now, e.node, e.report);
      AppliedJob(db, e.now, e.node, e.report);
    } else if !HandsOut(db, e, j) {
      OthersKeep(db, e, j);
    }
  }
}
