/** Theorems about whole runs of the replication database. */
module LifecycleTheorems {
  import opened Options
  import opened Lifecycle
  import opened LifecycleSafety

  // ------------------------------------------------------------ destructive jobs

  /** An authorised UNPIN always belongs to its object's current generation: to a released
      object if it is a final release, to a referenced one if it is a trim. So registering an
      object again never leaves an authorised final deletion behind. */
  lemma AuthorizedUnpinMatchesLifecycle(events: seq<Event>, j: JobId)
    requires j in Run(events).jobs && Run(events).jobs[j].state.Authorized?
    ensures var db := Run(events);
            var job := db.jobs[j];
            && job.op.Unpin? && job.cid in db.objects
            && job.generation == db.objects[job.cid].generation
            && (job.reason.TrimExtra? <==> db.objects[job.cid].refcount > 0)
            && (job.reason.TrimExtra? <==> db.objects[job.cid].releasedAt == 0)
  {
    RunOk(events);
    var db := Run(events);
    assert JobOk(db.objects[db.jobs[j].cid], db.jobs[j]);
  }

  // ------------------------------------------------------------ generations fence

  /** Every live job (a verify job apart) and every desired copy is of the current generation. */
  lemma LiveRowsAreCurrent(events: seq<Event>)
    ensures var db := Run(events);
            && (forall j :: j in db.jobs && db.jobs[j].Active() && !db.jobs[j].op.Verify? ==>
                  db.jobs[j].cid in db.objects && db.jobs[j].generation == db.objects[db.jobs[j].cid].generation)
            && (forall p :: p in db.replicas && db.replicas[p].desired ==>
                  p.0 in db.objects && db.replicas[p].generation == db.objects[p.0].generation)
  {
    RunOk(events);
    var db := Run(events);
    forall p | p in db.replicas && db.replicas[p].desired
      ensures p.0 in db.objects && db.replicas[p].generation == db.objects[p.0].generation
    {
      assert ReplicaOk(db.objects[p.0], db.replicas[p]);
    }
  }

  ghost predicate VerifyJobsCurrent(db: Rows) {
    forall j :: j in db.jobs && db.jobs[j].op.Verify? && db.jobs[j].Active() ==>
      db.jobs[j].cid in db.objects && db.jobs[j].generation == db.objects[db.jobs[j].cid].generation
  }

  /** `create_verify_job` trusts the generation its caller read earlier: the job is born current
      exactly when that generation is still the object's. */
  lemma VerifyBornCurrentIff(db: Rows, now: int, cid: Cid, node: NodeId, g: int)
    requires Inv(db) && VerifyJobsCurrent(db) && cid in db.objects
    requires CreateVerify(db, now, cid, node, g).Ok? && CreateVerify(db, now, cid, node, g).value != db
    ensures VerifyJobsCurrent(CreateVerify(db, now, cid, node, g).value) <==> g == db.objects[cid].generation
  {
    var db' := CreateVerify(db, now, cid, node, g).value;
    assert db'.jobs[db.nextJob].generation == g && db'.jobs[db.nextJob].Active();
  }

  lemma ReportKeepsVerifies(db: Rows, now: int, node: NodeId, rep: Report)
    requires Inv(db) && VerifyJobsCurrent(db)
    ensures VerifyJobsCurrent(AfterReport(db, now, node, rep))
  {
    if rep.job in db.jobs {
      assert JobOk(db.objects[db.jobs[rep.job].cid], db.jobs[rep.job]);
    }
  }

  lemma PlansKeepVerifies(db: Rows, e: Event)
    requires Inv(db) && VerifyJobsCurrent(db) && (e.PlanUnpin? || e.PlanPin? || e.PlanVerify? || e.AuthorizeEvent?)
    requires e.PlanVerify? && e.cid in db.objects ==> e.generation == db.objects[e.cid].generation
    ensures VerifyJobsCurrent(Next(db, e))
  {
  }

  /** No other event makes a live verify job fall behind its object. */
  lemma VerifyStaysCurrent(db: Rows, e: Event)
    requires Inv(db) && Possible(db, e) && VerifyJobsCurrent(db)
    requires e.PlanVerify? && e.cid in db.objects ==> e.generation == db.objects[e.cid].generation
    ensures VerifyJobsCurrent(Next(db, e))
  {
    match e
    case Recover(now, lost) => RecoverAllOk(db, now, lost);
    case RegisterEvent(now, cid, size, n, m, source, ref) =>
      if Register(db, now, cid, size, n, m, source, ref).Ok? {
        RegisterMoves(db, now, cid, size, n, m, source, ref);
        VerifyMoves(db, Next(db, e), cid);
      }
    case ReleaseEvent(now, cid, ref) =>
      if Next(db, e) != db {
        ReleaseMoves(db, now, cid, ref);
        VerifyMoves(db, Next(db, e), cid);
      }
    case ReportEvent(now, node, rep) => ReportKeepsVerifies(db, now, node, rep);
    case UpsertNode(_, _, _) =>
    case MarkEvent(_, _, _, _) =>
    case Poll(_, _, _) =>
    case _ => PlansKeepVerifies(db, e);
  }

  lemma VerifyMoves(db: Rows, db': Rows, cid: Cid)
    requires Inv(db) && VerifyJobsCurrent(db) && MovesOnly(db, db', cid)
    ensures VerifyJobsCurrent(db')
  {
  }

  /** Every verify job of a run was planned under the generation current at that moment. */
  ghost predicate VerifiesFresh(events: seq<Event>) {
    forall i :: 0 <= i < |events| && events[i].PlanVerify? ==>
      events[i].cid in Run(events[..i]).objects ==>
        events[i].generation == Run(events[..i]).objects[events[i].cid].generation
  }

  lemma {:induction false} VerifyRowsAreCurrent(events: seq<Event>)
    requires VerifiesFresh(events)
    ensures VerifyJobsCurrent(Run(events))
  {
    if events != [] {
      var front := events[..|events| - 1];
      forall i | 0 <= i < |front| ensures front[..i] == events[..i] && front[i] == events[i] {
      }
      assert VerifiesFresh(front);
      VerifyRowsAreCurrent(front);
      RunOk(front);
      if Possible(Run(front), events[|events| - 1]) {
        VerifyStaysCurrent(Run(front), events[|events| - 1]);
      }
    }
  }

  /** A report of a job from another generation changes no copy, whatever it says. */
  lemma OldReportsChangeNoCopy(db: Rows, now: int, node: NodeId, rep: Report)
    requires rep.job in db.jobs && db.jobs[rep.job].cid in db.objects
    requires db.jobs[rep.job].generation != db.objects[db.jobs[rep.job].cid].generation
    ensures AfterReport(db, now, node, rep).replicas == db.replicas
    ensures AfterReport(db, now, node, rep).objects == db.objects
    ensures db.jobs[rep.job].node == node ==> AfterReport(db, now, node, rep).jobs[rep.job].state.Stale?
  {
  }

  // ------------------------------------------------------------ what never goes back

  predicate SameIdentity(a: Job, b: Job) {
    a.cid == b.cid && a.node == b.node && a.op == b.op && a.generation == b.generation && a.reason == b.reason
  }

  /** Rows are never deleted; generations rise; a tombstone stays; a job keeps its identity. */
  ghost predicate Grows(db: Rows, db': Rows) {
    && (forall c :: c in db.objects ==> c in db'.objects && db.objects[c].generation <= db'.objects[c].generation)
    && (forall r :: r in db.refs ==> r in db'.refs && db'.refs[r].cid == db.refs[r].cid)
    && (forall r :: r in db.refs && db.refs[r].releasedAt != 0 ==> r in db'.refs && db'.refs[r] == db.refs[r])
    && (forall j :: j in db.jobs ==> j in db'.jobs && SameIdentity(db.jobs[j], db'.jobs[j]))
  }

  lemma GrowsTransitive(a: Rows, b: Rows, c: Rows)
    requires Grows(a, b) && Grows(b, c)
    ensures Grows(a, c)
  {
  }

  lemma RegisterGrows(db: Rows, now: int, cid: Cid, size: int, n: int, m: int, source: Option<NodeId>,
                      ref: Option<RefId>)
    requires Inv(db)
    ensures Grows(db, OrElse(Register(db, now, cid, size, n, m, source, ref), db))
  {
    if Register(db, now, cid, size, n, m, source, ref).Ok? {
      RegisterMoves(db, now, cid, size, n, m, source, ref);
    }
  }

  lemma ReleaseGrows(db: Rows, now: int, cid: Cid, ref: Option<RefId>)
    requires Inv(db)
    ensures Release(db, now, cid, ref).Ok? ==> Grows(db, Release(db, now, cid, ref).value.0)
  {
    var o := Release(db, now, cid, ref);
    if o.Ok? && o.value.1.Counted? {
      ReleaseMoves(db, now, cid, ref);
    }
  }

  lemma SameObjectsGrow(db: Rows, db': Rows)
    requires db'.objects == db.objects && db'.refs == db.refs
    requires forall j :: j in db.jobs ==> j in db'.jobs && SameIdentity(db.jobs[j], db'.jobs[j])
    ensures Grows(db, db')
  {
  }

  lemma AddJobGrows(db: Rows, job: Job)
    requires Keyed(db)
    ensures Grows(db, AddJob(db, job))
  {
    SameObjectsGrow(db, AddJob(db, job));
  }

  lemma ReportGrows(db: Rows, now: int, node: NodeId, rep: Report)
    ensures Grows(db, AfterReport(db, now, node, rep))
  {
    SameObjectsGrow(db, AfterReport(db, now, node, rep));
  }

  lemma AuthorizeGrows(db: Rows, node: NodeId, j: JobId, lease: int)
    ensures Grows(db, Authorize(db, node, j, lease))
  {
    SameObjectsGrow(db, Authorize(db, node, j, lease));
  }

  lemma CreatePinGrows(db: Rows, now: int, cid: Cid, node: NodeId, class_: Class)
    requires Keyed(db)
    ensures Grows(db, OrElse(CreatePin(db, now, cid, node, class_), db))
  {
    SameObjectsGrow(db, OrElse(CreatePin(db, now, cid, node, class_), db));
  }

  lemma NextGrows(db: Rows, e: Event, db': Rows)
    requires Inv(db) && Possible(db, e) && db' == Next(db, e)
    ensures Grows(db, db')
  {
    match e
    case Recover(now, lost) => RecoverGrows(db, now, lost);
    case RegisterEvent(now, cid, size, n, m, source, ref) => RegisterGrows(db, now, cid, size, n, m, source, ref);
    case ReleaseEvent(now, cid, ref) => ReleaseGrows(db, now, cid, ref);
    case ReportEvent(now, node, rep) => ReportGrows(db, now, node, rep);
    case PlanUnpin(now, cid, node, g, reason, notBefore) =>
      AddJobGrows(db, UnpinJob(now, cid, node, g, reason, notBefore));
    case PlanPin(now, cid, node, class_) => CreatePinGrows(db, now, cid, node, class_);
    case PlanVerify(now, cid, node, g) =>
      AddJobGrows(db, Job(cid, node, Verify, g, Pending, 0, now, 0, now, NoReason));
    case AuthorizeEvent(_, node, j, lease) => AuthorizeGrows(db, node, j, lease);
    case _ => QuietGrows(db, e);
  }

  lemma RecoverGrows(db: Rows, now: int, lost: seq<JobId>)
    requires Inv(db) && ListsAuthorized(db, lost)
    ensures Grows(db, RecoverAll(db, now, lost))
  {
    RecoverAllOk(db, now, lost);
    SameObjectsGrow(db, RecoverAll(db, now, lost));
  }

  lemma QuietGrows(db: Rows, e: Event)
    requires e.UpsertNode? || e.MarkEvent? || e.Poll?
    ensures Grows(db, Next(db, e))
  {
    SameObjectsGrow(db, Next(db, e));
  }

  /** The run one event longer. */
  lemma RunStep(events: seq<Event>, front: seq<Event>, e: Event)
    ensures Run(events + (front + [e])) ==
            (if Possible(Run(events + front), e) then Next(Run(events + front), e) else Run(events + front))
  {
    var all := events + (front + [e]);
    assert all[..|all| - 1] == events + front && all[|all| - 1] == e;
  }

  lemma StepGrows(events: seq<Event>, front: seq<Event>, e: Event)
    ensures Grows(Run(events + front), Run(events + (front + [e])))
  {
    RunOk(events + front);
    RunStep(events, front, e);
    if Possible(Run(events + front), e) {
      NextGrows(Run(events + front), e, Next(Run(events + front), e));
    }
  }

  lemma {:induction false} RunGrows(events: seq<Event>, more: seq<Event>)
    ensures Grows(Run(events), Run(events + more))
    decreases |more|
  {
    if more == [] {
      assert events + more == events;
    } else {
      var front, e := more[..|more| - 1], more[|more| - 1];
      assert more == front + [e];
      RunGrows(events, front);
      StepGrows(events, front, e);
      GrowsTransitive(Run(events), Run(events + front), Run(events + more));
    }
  }

  /** Done or stale. */
  predicate Dead(job: Job) {
    job.state.Done? || job.state.Stale?
  }

  /** The reports of the deployed agents: each echoes the lease it was delivered under. */
  ghost predicate CarriesLease(e: Event) {
    e.ReportEvent? ==> e.report.lease != 0
  }

  lemma ReportKeepsDead(db: Rows, now: int, node: NodeId, rep: Report, j: JobId)
    requires Inv(db) && rep.lease != 0 && j in db.jobs && Dead(db.jobs[j])
    ensures var db' := AfterReport(db, now, node, rep); j in db'.jobs && Dead(db'.jobs[j])
  {
    assert JobOk(db.objects[db.jobs[j].cid], db.jobs[j]);
  }

  lemma MovesKeepDead(db: Rows, db': Rows, cid: Cid, j: JobId)
    requires MovesOnly(db, db', cid) && j in db.jobs && Dead(db.jobs[j])
    ensures j in db'.jobs && Dead(db'.jobs[j])
  {
  }

  lemma DeadStaysDead(db: Rows, e: Event, j: JobId)
    requires Inv(db) && Possible(db, e) && CarriesLease(e)
    requires j in db.jobs && Dead(db.jobs[j])
    ensures j in Next(db, e).jobs && Dead(Next(db, e).jobs[j])
  {
    match e
    case Recover(now, lost) => RecoverAllOk(db, now, lost);
    case RegisterEvent(now, cid, size, n, m, source, ref) =>
      if Register(db, now, cid, size, n, m, source, ref).Ok? {
        RegisterMoves(db, now, cid, size, n, m, source, ref);
        MovesKeepDead(db, Next(db, e), cid, j);
      }
    case ReleaseEvent(now, cid, ref) =>
      if Release(db, now, cid, ref).Ok? && Release(db, now, cid, ref).value.1.Counted? {
        ReleaseMoves(db, now, cid, ref);
        MovesKeepDead(db, Next(db, e), cid, j);
      }
    case ReportEvent(now, node, rep) => ReportKeepsDead(db, now, node, rep, j);
    case AuthorizeEvent(_, node, i, lease) => AuthorizeKeepsDead(db, node, i, lease, j);
    case _ => PlansKeepDead(db, e, j);
  }

  lemma AuthorizeKeepsDead(db: Rows, node: NodeId, i: JobId, lease: int, j: JobId)
    requires j in db.jobs && Dead(db.jobs[j])
    ensures var db' := Authorize(db, node, i, lease); j in db'.jobs && Dead(db'.jobs[j])
  {
  }

  lemma PlansKeepDead(db: Rows, e: Event, j: JobId)
    requires Keyed(db) && j in db.jobs && Dead(db.jobs[j])
    requires e.UpsertNode? || e.MarkEvent? || e.Poll? || e.PlanUnpin? || e.PlanPin? || e.PlanVerify?
    ensures j in Next(db, e).jobs && Dead(Next(db, e).jobs[j])
  {
  }

  /** A done or stale job never comes back to life, however its reports are replayed. */
  lemma {:induction false} DeadForever(events: seq<Event>, more: seq<Event>, j: JobId)
    requires j in Run(events).jobs && Dead(Run(events).jobs[j])
    requires forall i :: 0 <= i < |more| ==> CarriesLease(more[i])
    ensures j in Run(events + more).jobs && Dead(Run(events + more).jobs[j])
    decreases |more|
  {
    if more == [] {
      assert events + more == events;
    } else {
      var front, e := more[..|more| - 1], more[|more| - 1];
      assert more == front + [e];
      DeadForever(events, front, j);
      StepKeepsDead(events, front, e, j);
    }
  }

  lemma StepKeepsDead(events: seq<Event>, front: seq<Event>, e: Event, j: JobId)
    requires j in Run(events + front).jobs && Dead(Run(events + front).jobs[j]) && CarriesLease(e)
    ensures j in Run(events + (front + [e])).jobs && Dead(Run(events + (front + [e])).jobs[j])
  {
    RunOk(events + front);
    RunStep(events, front, e);
    if Possible(Run(events + front), e) {
      DeadStaysDead(Run(events + front), e, j);
    }
  }

  // ------------------------------------------------------------ reference counting

  function LiveRefs(db: Rows, cid: Cid): set<RefId> {
    set r | r in db.refs && db.refs[r].cid == cid && db.refs[r].releasedAt == 0
  }

  ghost predicate Conserved(db: Rows) {
    forall c :: c in db.objects ==> db.objects[c].refcount == |LiveRefs(db, c)|
  }

  ghost predicate NamesReference(e: Event) {
    && (e.RegisterEvent? ==> e.ref.Some?)
    && (e.ReleaseEvent? ==> e.ref.Some?)
  }

  lemma SameRefsSameLive(db: Rows, db': Rows)
    requires db'.refs == db.refs
    ensures forall c :: LiveRefs(db', c) == LiveRefs(db, c)
  {
  }

  /** Only the references of `cid` changed: every other count still matches. */
  lemma ConservedElsewhere(db: Rows, db': Rows, cid: Cid, r: RefId, ref: Reference)
    requires Conserved(db) && MovesOnly(db, db', cid) && ref.cid == cid
    requires r in db.refs ==> db.refs[r].cid == cid
    requires db'.refs == db.refs[r := ref]
    requires db'.objects[cid].refcount == |LiveRefs(db', cid)|
    ensures Conserved(db')
  {
    forall c | c in db'.objects && c != cid ensures db'.objects[c].refcount == |LiveRefs(db', c)| {
      assert LiveRefs(db', c) == LiveRefs(db, c);
    }
  }

  lemma OneMoreLive(db: Rows, db': Rows, cid: Cid, r: RefId)
    requires Keyed(db) && r !in db.refs && db'.refs == db.refs[r := Reference(cid, 0)]
    ensures |LiveRefs(db', cid)| == |LiveRefs(db, cid)| + 1
    ensures cid !in db.objects ==> LiveRefs(db, cid) == {}
  {
    assert LiveRefs(db', cid) == LiveRefs(db, cid) + {r};
  }

  lemma OneLessLive(db: Rows, db': Rows, cid: Cid, r: RefId, now: int)
    requires now != 0 && r in LiveRefs(db, cid) && db'.refs == db.refs[r := db.refs[r].(releasedAt := now)]
    ensures |LiveRefs(db', cid)| == |LiveRefs(db, cid)| - 1
  {
    assert LiveRefs(db', cid) == LiveRefs(db, cid) - {r};
  }

  lemma RegisterConserves(db: Rows, now: int, cid: Cid, size: int, n: int, m: int, source: Option<NodeId>, r: RefId)
    requires Keyed(db) && Conserved(db)
    ensures Conserved(OrElse(Register(db, now, cid, size, n, m, source, Some(r)), db))
  {
    var o := Register(db, now, cid, size, n, m, source, Some(r));
    if o.Ok? {
      var db' := o.value;
      RegisterMoves(db, now, cid, size, n, m, source, Some(r));
      if r in db.refs {
        SameRefsSameLive(db, db');
      } else {
        OneMoreLive(db, db', cid, r);
        ConservedElsewhere(db, db', cid, r, Reference(cid, 0));
      }
    }
  }

  lemma ReleaseConserves(db: Rows, now: int, cid: Cid, r: RefId)
    requires Conserved(db) && now > 0
    ensures var o := Release(db, now, cid, Some(r)); o.Ok? ==> Conserved(o.value.0)
  {
    var o := Release(db, now, cid, Some(r));
    if o.Ok? && o.value.1.Counted? {
      var db' := o.value.0;
      ReleaseMoves(db, now, cid, Some(r));
      OneLessLive(db, db', cid, r, now);
      ConservedElsewhere(db, db', cid, r, db.refs[r].(releasedAt := now));
    }
  }

  /** Events that neither register nor release count nothing. */
  lemma OthersCountNothing(db: Rows, e: Event)
    requires Inv(db) && Possible(db, e) && !e.RegisterEvent? && !e.ReleaseEvent?
    ensures Next(db, e).refs == db.refs && Next(db, e).objects == db.objects
  {
    if e.Recover? {
      RecoverAllOk(db, e.now, e.lost);
    } else if e.ReportEvent? {
      ReportCountsNothing(db, e.now, e.node, e.report);
    }
  }

  lemma ReportCountsNothing(db: Rows, now: int, node: NodeId, rep: Report)
    ensures AfterReport(db, now, node, rep).refs == db.refs && AfterReport(db, now, node, rep).objects == db.objects
  {
  }

  lemma NextConserves(db: Rows, e: Event)
    requires Inv(db) && Possible(db, e) && Conserved(db) && NamesReference(e)
    ensures Conserved(Next(db, e))
  {
    match e
    case RegisterEvent(now, cid, size, n, m, source, ref) =>
      RegisterConserves(db, now, cid, size, n, m, source, ref.value);
    case ReleaseEvent(now, cid, ref) => ReleaseConserves(db, now, cid, ref.value);
    case _ =>
      OthersCountNothing(db, e);
      SameRefsSameLive(db, Next(db, e));
  }

  /** Refcount conservation: when every registration and release names a reference id, an
      object's refcount is the number of its references that are not tombstoned. */
  lemma {:induction false} RefcountIsLiveReferences(events: seq<Event>)
    requires forall i :: 0 <= i < |events| ==> NamesReference(events[i])
    ensures Conserved(Run(events))
  {
    if events != [] {
      var front, e := events[..|events| - 1], events[|events| - 1];
      RefcountIsLiveReferences(front);
      RunOk(front);
      if Possible(Run(front), e) {
        NextConserves(Run(front), e);
      }
    }
  }

  ghost predicate SameCounts(db: Rows, db': Rows) {
    && db'.refs == db.refs && db'.objects.Keys == db.objects.Keys
    && forall c :: c in db.objects ==> db'.objects[c].refcount == db.objects[c].refcount
  }

  /** Registering a reference id a second time, at any later moment and with any arguments,
      counts nothing. */
  lemma RegisterTwiceCountsOnce(events: seq<Event>, more: seq<Event>, e: Event)
    requires e.RegisterEvent? && e.ref.Some? && e.ref.value in Run(events).refs
    ensures SameCounts(Run(events + more), Next(Run(events + more), e))
  {
    RunGrows(events, more);
    RunOk(events + more);
    KnownReferenceCountsNothing(Run(events + more), e);
  }

  lemma KnownReferenceCountsNothing(db: Rows, e: Event)
    requires Keyed(db) && e.RegisterEvent? && e.ref.Some? && e.ref.value in db.refs
    ensures SameCounts(db, Next(db, e))
  {
    if Register(db, e.now, e.cid, e.size, e.n, e.m, e.source, e.ref).Ok? {
      RegisterMoves(db, e.now, e.cid, e.size, e.n, e.m, e.source, e.ref);
    }
  }

  /** Releasing a tombstoned reference id again, at any later moment, changes nothing at all. */
  lemma ReleaseTwiceCountsOnce(events: seq<Event>, more: seq<Event>, e: Event)
    requires e.ReleaseEvent? && e.ref.Some? && e.ref.value in Run(events).refs
    requires Run(events).refs[e.ref.value].releasedAt != 0
    ensures Next(Run(events + more), e) == Run(events + more)
  {
    RunGrows(events, more);
  }
}
