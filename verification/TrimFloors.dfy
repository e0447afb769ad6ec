/** Trimming never digs below an object's replication floors. */
module TrimFloors {
  import opened Options
  import opened Sets
  import opened Lifecycle
  import opened LifecycleSafety
  import opened LifecycleTheorems

  /** Nodes whose copy an authorised trim may already have removed. */
  function TrimmedNodes(db: Rows, cid: Cid): set<NodeId> {
    set j | j in db.jobs && db.jobs[j].cid == cid && db.jobs[j].Trims() && db.jobs[j].state.Authorized?
      :: db.jobs[j].node
  }

  /** The copies that no authorised trim names. */
  function Spared(db: Rows, cid: Cid): set<NodeId> {
    PinnedNodes(db, cid) - TrimmedNodes(db, cid)
  }

  function SparedCommittable(db: Rows, cid: Cid): set<NodeId> {
    CommittableNodes(db, cid) - TrimmedNodes(db, cid)
  }

  /** The spared copies meet both floors. */
  ghost predicate AboveFloor(db: Rows, cid: Cid) {
    && cid in db.objects
    && |Spared(db, cid)| >= db.objects[cid].n && |SparedCommittable(db, cid)| >= db.objects[cid].m
  }

  /** They do so while any trim is authorised. */
  ghost predicate Floors(db: Rows) {
    forall c :: TrimmedNodes(db, c) != {} ==> AboveFloor(db, c)
  }

  /** No copy fails: no failed PIN or VERIFY report, and no copy marked unreachable. */
  ghost predicate Calm(db: Rows, e: Event) {
    && (e.MarkEvent? ==> e.state.Pinned?)
    && (e.ReportEvent? && e.report.said.SaidFailed? && e.report.job in db.jobs ==>
          !db.jobs[e.report.job].op.Pin? && !db.jobs[e.report.job].op.Verify?)
  }

  /** The object stays referenced under an unchanged policy. */
  ghost predicate KeepsPolicy(db: Rows, db': Rows, cid: Cid) {
    && cid in db.objects && cid in db'.objects
    && db.objects[cid].refcount > 0 && db'.objects[cid].refcount > 0
    && db'.objects[cid].n == db.objects[cid].n && db'.objects[cid].m == db.objects[cid].m
  }

  /** No copy is lost to the spared ones. */
  ghost predicate SparesKept(db: Rows, db': Rows, cid: Cid) {
    Spared(db, cid) <= Spared(db', cid) && SparedCommittable(db, cid) <= SparedCommittable(db', cid)
  }

  lemma SparesKeepFloor(db: Rows, db': Rows, cid: Cid)
    requires AboveFloor(db, cid) && KeepsPolicy(db, db', cid) && SparesKept(db, db', cid)
    ensures AboveFloor(db', cid)
  {
    SubsetSize(Spared(db, cid), Spared(db', cid));
    SubsetSize(SparedCommittable(db, cid), SparedCommittable(db', cid));
  }

  // ------------------------------------------------------------ authorising a trim

  function NodeOf(db: Rows): JobId -> NodeId {
    (j: JobId) => if j in db.jobs then db.jobs[j].node else 0
  }

  /** Every authorised trim of another pinned node is one of the rivals counted. */
  lemma TrimIsRival(db: Rows, cid: Cid, x: NodeId, v: NodeId)
    requires v in TrimmedNodes(db, cid) && v != x && (cid, v) in db.replicas
    ensures exists j :: j in RivalTrims(db, cid, x) && NodeOf(db)(j) == v
  {
    var j :| j in db.jobs && db.jobs[j].cid == cid && db.jobs[j].Trims() && db.jobs[j].state.Authorized?
             && db.jobs[j].node == v;
    assert j in RivalTrims(db, cid, x) && NodeOf(db)(j) == v;
  }

  lemma TrimsCoveredByRivals(db: Rows, cid: Cid, x: NodeId)
    ensures |PinnedNodes(db, cid)| <=
            |PinnedNodes(db, cid) - (TrimmedNodes(db, cid) + {x})| + |RivalTrims(db, cid, x)| + 1
  {
    forall v | v in PinnedNodes(db, cid) && v in TrimmedNodes(db, cid) && v != x
      ensures exists j :: j in RivalTrims(db, cid, x) && NodeOf(db)(j) == v
    {
      TrimIsRival(db, cid, x, v);
    }
    Covered(PinnedNodes(db, cid), TrimmedNodes(db, cid), x, RivalTrims(db, cid, x), NodeOf(db));
  }

  lemma CommittableTrimsCovered(db: Rows, cid: Cid, x: NodeId)
    ensures |CommittableNodes(db, cid)| <=
            |CommittableNodes(db, cid) - (TrimmedNodes(db, cid) + {x})| + |RivalCommittableTrims(db, cid, x)|
            + if x in CommittableNodes(db, cid) then 1 else 0
  {
    forall v | v in CommittableNodes(db, cid) && v in TrimmedNodes(db, cid) && v != x
      ensures exists j :: j in RivalCommittableTrims(db, cid, x) && NodeOf(db)(j) == v
    {
      TrimIsRival(db, cid, x, v);
      var j :| j in RivalTrims(db, cid, x) && NodeOf(db)(j) == v;
      assert j in RivalCommittableTrims(db, cid, x);
    }
    Covered(CommittableNodes(db, cid), TrimmedNodes(db, cid), x, RivalCommittableTrims(db, cid, x), NodeOf(db));
  }

  /** Removing `gone` and `x` from `copies` costs at most one copy per rival, and one for `x`. */
  lemma Covered(copies: set<NodeId>, gone: set<NodeId>, x: NodeId, rivals: set<JobId>, f: JobId -> NodeId)
    requires forall v :: v in copies && v in gone && v != x ==> exists j :: j in rivals && f(j) == v
    ensures |copies| <= |copies - (gone + {x})| + |rivals| + if x in copies then 1 else 0
  {
    var named := Image(rivals, f);
    ImageSize(rivals, f);
    var self := if x in copies then {x} else {};
    var rest := copies - (gone + {x});
    forall v | v in copies ensures v in rest + named + self {
      if v in gone && v != x {
        var j :| j in rivals && f(j) == v;
      }
    }
    SubsetSize(copies, (rest + named) + self);
    UnionSize(rest + named, self);
    UnionSize(rest, named);
  }

  lemma TrimmedAfterAuthorize(db: Rows, j: JobId)
    requires j in db.jobs && db.jobs[j].Trims()
    ensures TrimmedNodes(SetState(db, j, Authorized), db.jobs[j].cid)
         == TrimmedNodes(db, db.jobs[j].cid) + {db.jobs[j].node}
  {
    var db' := SetState(db, j, Authorized);
    var cid := db.jobs[j].cid;
    assert db'.jobs[j].node == db.jobs[j].node;
    forall v | v in TrimmedNodes(db, cid) ensures v in TrimmedNodes(db', cid) {
      var i :| i in db.jobs && db.jobs[i].cid == cid && db.jobs[i].Trims() && db.jobs[i].state.Authorized?
               && db.jobs[i].node == v;
      assert i in db'.jobs && db'.jobs[i].node == v && db'.jobs[i].state.Authorized?;
    }
  }

  /** The capacity check counts every copy that an authorised trim names. */
  lemma AuthorizedTrimIsSafe(db: Rows, j: JobId, lease: int)
    requires j in db.jobs && db.jobs[j].Trims() && ReadyToUnpin(db, j, lease)
    ensures AboveFloor(SetState(db, j, Authorized), db.jobs[j].cid)
  {
    var db' := SetState(db, j, Authorized);
    var cid, x := db.jobs[j].cid, db.jobs[j].node;
    TrimmedAfterAuthorize(db, j);
    SameReplicas(db, db', cid);
    TrimsCoveredByRivals(db, cid, x);
    CommittableTrimsCovered(db, cid, x);
    assert x in CommittableNodes(db, cid) ==> db.replicas[(cid, x)].class_.Committable?;
  }

  lemma SameReplicas(db: Rows, db': Rows, cid: Cid)
    requires db'.replicas == db.replicas
    ensures PinnedNodes(db', cid) == PinnedNodes(db, cid) && CommittableNodes(db', cid) == CommittableNodes(db, cid)
  {
  }

  // ------------------------------------------------------------ steps that authorise no trim of the object

  /** No authorised trim of `cid` in `db'` is new. */
  ghost predicate NoNewTrim(db: Rows, db': Rows, cid: Cid) {
    forall j :: j in db'.jobs && db'.jobs[j].cid == cid && db'.jobs[j].Trims() && db'.jobs[j].state.Authorized? ==>
      j in db.jobs && db'.jobs[j] == db.jobs[j]
  }

  lemma FewerTrims(db: Rows, db': Rows, cid: Cid)
    requires NoNewTrim(db, db', cid)
    ensures TrimmedNodes(db', cid) <= TrimmedNodes(db, cid)
  {
  }

  /** Every wanted and confirmed copy of `cid`, except on the nodes in `gone`, stays wanted, confirmed
      and of its class. */
  ghost predicate KeptExcept(db: Rows, db': Rows, cid: Cid, gone: set<NodeId>) {
    forall p :: p in db.replicas && p.0 == cid && db.replicas[p].desired && db.replicas[p].state.Pinned?
                && p.1 !in gone ==>
      p in db'.replicas && db'.replicas[p].desired && db'.replicas[p].state.Pinned?
      && db'.replicas[p].class_ == db.replicas[p].class_
  }

  /** The spared copies are kept. */
  ghost predicate CopiesKept(db: Rows, db': Rows, cid: Cid) {
    KeptExcept(db, db', cid, TrimmedNodes(db, cid))
  }

  lemma CopiesKeepSpares(db: Rows, db': Rows, cid: Cid)
    requires CopiesKept(db, db', cid) && NoNewTrim(db, db', cid)
    ensures SparesKept(db, db', cid)
  {
    FewerTrims(db, db', cid);
    forall v | v in Spared(db, cid) ensures v in Spared(db', cid) {
      assert (cid, v) in db'.replicas && db'.replicas[(cid, v)].desired;
    }
    forall v | v in SparedCommittable(db, cid) ensures v in SparedCommittable(db', cid) {
      assert (cid, v) in db'.replicas && db'.replicas[(cid, v)].desired;
    }
  }

  lemma MovesNoNewTrim(db: Rows, db': Rows, cid: Cid, c: Cid)
    requires MovesOnly(db, db', cid)
    ensures NoNewTrim(db, db', c)
    ensures c != cid ==> KeptExcept(db, db', c, {})
  {
  }

  /** Registering a referenced object again under its policy only adds copies. */
  lemma RegisterAddsCopies(db: Rows, now: int, cid: Cid, size: int, n: int, m: int, source: Option<NodeId>,
                           ref: Option<RefId>)
    requires Inv(db) && Register(db, now, cid, size, n, m, source, ref).Ok?
    requires KeepsPolicy(db, Register(db, now, cid, size, n, m, source, ref).value, cid)
    ensures KeptExcept(db, Register(db, now, cid, size, n, m, source, ref).value, cid, {})
  {
    var before := Some(db.objects[cid]);
    var db1 := CountReference(db, cid, size, n, m, ref).value;
    var db2 := AddSource(db1, now, cid, source).value;
    assert ObjectOk(db.objects[cid]);
    RegenerateMoves(db2, cid, before);
    assert Regenerate(db2, cid, before) == db2;
  }

  lemma RegisterKeepsSpares(db: Rows, now: int, cid: Cid, size: int, n: int, m: int, source: Option<NodeId>,
                            ref: Option<RefId>, c: Cid)
    requires Inv(db) && Register(db, now, cid, size, n, m, source, ref).Ok?
    requires KeepsPolicy(db, Register(db, now, cid, size, n, m, source, ref).value, c)
    ensures var db' := Register(db, now, cid, size, n, m, source, ref).value;
            NoNewTrim(db, db', c) && KeptExcept(db, db', c, {})
  {
    RegisterMoves(db, now, cid, size, n, m, source, ref);
    MovesNoNewTrim(db, Register(db, now, cid, size, n, m, source, ref).value, cid, c);
    if c == cid {
      RegisterAddsCopies(db, now, cid, size, n, m, source, ref);
    }
  }

  lemma ReleaseKeepsSpares(db: Rows, now: int, cid: Cid, ref: Option<RefId>, c: Cid)
    requires Inv(db) && Release(db, now, cid, ref).Ok? && KeepsPolicy(db, Release(db, now, cid, ref).value.0, c)
    ensures var db' := Release(db, now, cid, ref).value.0;
            NoNewTrim(db, db', c) && KeptExcept(db, db', c, {})
  {
    if Release(db, now, cid, ref).value.1.Counted? {
      ReleaseMoves(db, now, cid, ref);
      MovesNoNewTrim(db, Release(db, now, cid, ref).value.0, cid, c);
    }
  }

  lemma ReferencedTrimsOnly(db: Rows, cid: Cid, j: JobId)
    requires Inv(db) && cid in db.objects && db.objects[cid].refcount > 0 && j in db.jobs && db.jobs[j].cid == cid
    ensures db.jobs[j].Active() && db.jobs[j].op.Unpin? ==> db.jobs[j].Trims()
  {
    assert JobOk(db.objects[cid], db.jobs[j]);
  }

  lemma TrimmedHas(db: Rows, j: JobId)
    requires j in db.jobs && db.jobs[j].Trims() && db.jobs[j].state.Authorized?
    ensures db.jobs[j].node in TrimmedNodes(db, db.jobs[j].cid)
  {
  }

  /** What an applied report may do to a referenced object in a run without failures. */
  lemma ReportIsHarmless(db: Rows, now: int, node: NodeId, rep: Report)
    requires Inv(db) && Calm(db, ReportEvent(now, node, rep)) && Judge(db, now, node, rep).Apply?
    requires db.objects[db.jobs[rep.job].cid].refcount > 0
    ensures var job := db.jobs[rep.job];
            || job.node in TrimmedNodes(db, job.cid)
            || ((job.op.Pin? || job.op.Verify?) && (rep.said.SaidPinned? || rep.said.SaidVerified?))
  {
    var job := db.jobs[rep.job];
    if job.op.Unpin? {
      ReferencedTrimsOnly(db, job.cid, rep.job);
      TrimmedHas(db, rep.job);
    }
  }

  lemma AppliedKeepsCopies(db: Rows, now: int, rep: Report, c: Cid)
    requires rep.job in db.jobs
    requires var job := db.jobs[rep.job];
             || job.cid != c || job.node in TrimmedNodes(db, job.cid)
             || ((job.op.Pin? || job.op.Verify?) && (rep.said.SaidPinned? || rep.said.SaidVerified?))
    ensures CopiesKept(db, Applied(db, now, rep), c)
  {
  }

  lemma ReportAuthorizesNothing(db: Rows, now: int, node: NodeId, rep: Report, c: Cid)
    ensures var db' := AfterReport(db, now, node, rep); db'.objects == db.objects && NoNewTrim(db, db', c)
  {
    if Judge(db, now, node, rep).Apply? {
      PutJobAuthorizesNothing(db, rep.job, JobAfter(db.jobs[rep.job], now, rep.said), c);
    } else if Judge(db, now, node, rep).Fence? {
      PutJobAuthorizesNothing(db, rep.job, db.jobs[rep.job].(state := Stale), c);
    }
  }

  lemma PutJobAuthorizesNothing(db: Rows, j: JobId, job: Job, c: Cid)
    requires !job.state.Authorized?
    ensures NoNewTrim(db, PutJob(db, j, job), c)
  {
  }

  lemma ReportKeepsSpares(db: Rows, now: int, node: NodeId, rep: Report, c: Cid)
    requires Inv(db) && Calm(db, ReportEvent(now, node, rep)) && c in db.objects && db.objects[c].refcount > 0
    ensures var db' := AfterReport(db, now, node, rep);
            NoNewTrim(db, db', c) && CopiesKept(db, db', c)
  {
    ReportAuthorizesNothing(db, now, node, rep, c);
    if Judge(db, now, node, rep).Apply? {
      if db.jobs[rep.job].cid == c {
        ReportIsHarmless(db, now, node, rep);
      }
      AppliedKeepsCopies(db, now, rep, c);
    }
  }

  lemma CreatePinKeepsCopies(db: Rows, now: int, cid: Cid, node: NodeId, class_: Class, c: Cid)
    requires Keyed(db)
    ensures var db' := OrElse(CreatePin(db, now, cid, node, class_), db);
            KeptExcept(db, db', c, {}) && NoNewTrim(db, db', c)
  {
  }

  lemma AddJobKeepsSpares(db: Rows, job: Job, c: Cid)
    requires !job.state.Authorized?
    ensures KeptExcept(db, AddJob(db, job), c, {}) && NoNewTrim(db, AddJob(db, job), c)
  {
  }

  lemma RecoverKeepsSpares(db: Rows, now: int, lost: seq<JobId>, c: Cid)
    requires Inv(db) && ListsAuthorized(db, lost)
    ensures KeptExcept(db, RecoverAll(db, now, lost), c, {}) && NoNewTrim(db, RecoverAll(db, now, lost), c)
  {
    RecoverAllOk(db, now, lost);
  }

  lemma QuietKeepsSpares(db: Rows, e: Event, c: Cid)
    requires Calm(db, e) && (e.UpsertNode? || e.MarkEvent? || (e.Poll? && Possible(db, e)))
    ensures KeptExcept(db, Next(db, e), c, {}) && NoNewTrim(db, Next(db, e), c)
  {
  }

  lemma AuthorizeKeepsCopies(db: Rows, node: NodeId, j: JobId, lease: int, c: Cid)
    requires !AuthorizesTrim(db, AuthorizeEvent(0, node, j, lease), c)
    ensures KeptExcept(db, Authorize(db, node, j, lease), c, {}) && NoNewTrim(db, Authorize(db, node, j, lease), c)
  {
  }

  /** The event authorises a trim of the object. */
  predicate AuthorizesTrim(db: Rows, e: Event, c: Cid) {
    && e.AuthorizeEvent? && e.job in db.jobs && db.jobs[e.job].node == e.node && db.jobs[e.job].Trims()
    && db.jobs[e.job].cid == c && ReadyToUnpin(db, e.job, e.lease)
  }

  lemma OthersKeepCopies(db: Rows, e: Event, c: Cid)
    requires Inv(db) && Possible(db, e) && Calm(db, e) && KeepsPolicy(db, Next(db, e), c) && !AuthorizesTrim(db, e, c)
    ensures CopiesKept(db, Next(db, e), c) && NoNewTrim(db, Next(db, e), c)
    ensures !e.ReportEvent? ==> KeptExcept(db, Next(db, e), c, {})
  {
    match e
    case RegisterEvent(now, cid, size, n, m, source, ref) =>
      if Register(db, now, cid, size, n, m, source, ref).Ok? {
        RegisterKeepsSpares(db, now, cid, size, n, m, source, ref, c);
      }
    case ReleaseEvent(now, cid, ref) =>
      if Release(db, now, cid, ref).Ok? {
        ReleaseKeepsSpares(db, now, cid, ref, c);
      }
    case PlanUnpin(now, cid, node, g, reason, notBefore) =>
      AddJobKeepsSpares(db, UnpinJob(now, cid, node, g, reason, notBefore), c);
    case AuthorizeEvent(_, node, j, lease) => AuthorizeKeepsCopies(db, node, j, lease, c);
    case PlanPin(now, cid, node, class_) => CreatePinKeepsCopies(db, now, cid, node, class_, c);
    case PlanVerify(now, cid, node, g) =>
      AddJobKeepsSpares(db, Job(cid, node, Verify, g, Pending, 0, now, 0, now, NoReason), c);
    case ReportEvent(now, node, rep) => ReportKeepsSpares(db, now, node, rep, c);
    case Recover(now, lost) => RecoverKeepsSpares(db, now, lost, c);
    case _ => QuietKeepsSpares(db, e, c);
  }

  /** One step: an object above its floors stays there while it is referenced under its policy,
      and an authorisation puts it there. */
  lemma NextAboveFloor(db: Rows, e: Event, c: Cid)
    requires Inv(db) && Possible(db, e) && Calm(db, e) && KeepsPolicy(db, Next(db, e), c)
    requires AboveFloor(db, c) || AuthorizesTrim(db, e, c)
    ensures AboveFloor(Next(db, e), c)
  {
    if AuthorizesTrim(db, e, c) {
      AuthorizedTrimIsSafe(db, e.job, e.lease);
    } else {
      OthersKeepCopies(db, e, c);
      CopiesKeepSpares(db, Next(db, e), c);
      SparesKeepFloor(db, Next(db, e), c);
    }
  }

  // ------------------------------------------------------------ over runs

  lemma TrimmedMeansAuthorized(db: Rows, cid: Cid)
    requires Inv(db) && TrimmedNodes(db, cid) != {}
    ensures AuthorizedUnpins(db, cid) != {} && cid in db.objects && db.objects[cid].refcount > 0
  {
    var v :| v in TrimmedNodes(db, cid);
    var j :| j in db.jobs && db.jobs[j].cid == cid && db.jobs[j].Trims() && db.jobs[j].state.Authorized?;
    assert j in AuthorizedUnpins(db, cid);
    assert JobOk(db.objects[cid], db.jobs[j]);
  }

  /** Whoever has an authorised trim cannot be released or get another policy. */
  lemma TrimmedIsSteady(db: Rows, e: Event, c: Cid)
    requires Inv(db) && Possible(db, e) && TrimmedNodes(db, c) != {}
    ensures KeepsPolicy(db, Next(db, e), c)
  {
    TrimmedMeansAuthorized(db, c);
    match e
    case RegisterEvent(now, cid, size, n, m, source, ref) =>
      if Register(db, now, cid, size, n, m, source, ref).Ok? {
        RegisterMoves(db, now, cid, size, n, m, source, ref);
      }
    case ReleaseEvent(now, cid, ref) =>
      if Release(db, now, cid, ref).Ok? && Release(db, now, cid, ref).value.1.Counted? {
        ReleaseMoves(db, now, cid, ref);
      }
    case Recover(now, lost) => RecoverAllOk(db, now, lost);
    case ReportEvent(now, node, rep) => ReportAuthorizesNothing(db, now, node, rep, c);
    case _ => SameObjects(db, e);
  }

  lemma SameObjects(db: Rows, e: Event)
    requires !e.RegisterEvent? && !e.ReleaseEvent? && !e.Recover? && !e.ReportEvent?
    ensures Next(db, e).objects == db.objects
  {
  }

  /** Without trims, only an authorisation brings one. */
  lemma FirstTrimIsAuthorized(db: Rows, e: Event, c: Cid)
    requires Inv(db) && Possible(db, e) && TrimmedNodes(db, c) == {} && TrimmedNodes(Next(db, e), c) != {}
    ensures AuthorizesTrim(db, e, c) && KeepsPolicy(db, Next(db, e), c)
  {
    if !e.AuthorizeEvent? {
      OnlyAuthorizeTrims(db, e, c);
      FewerTrims(db, Next(db, e), c);
    } else if !AuthorizesTrim(db, e, c) {
      AuthorizeKeepsCopies(db, e.node, e.job, e.lease, c);
      FewerTrims(db, Next(db, e), c);
    }
  }

  lemma OnlyAuthorizeTrims(db: Rows, e: Event, c: Cid)
    requires Inv(db) && Possible(db, e) && !e.AuthorizeEvent?
    ensures NoNewTrim(db, Next(db, e), c)
  {
    match e
    case RegisterEvent(now, cid, size, n, m, source, ref) =>
      if Register(db, now, cid, size, n, m, source, ref).Ok? {
        RegisterMoves(db, now, cid, size, n, m, source, ref);
        MovesNoNewTrim(db, Next(db, e), cid, c);
      }
    case ReleaseEvent(now, cid, ref) =>
      if Release(db, now, cid, ref).Ok? && Release(db, now, cid, ref).value.1.Counted? {
        ReleaseMoves(db, now, cid, ref);
        MovesNoNewTrim(db, Next(db, e), cid, c);
      }
    case Recover(now, lost) => RecoverKeepsSpares(db, now, lost, c);
    case ReportEvent(now, node, rep) => ReportAuthorizesNothing(db, now, node, rep, c);
    case _ => PlansAuthorizeNothing(db, e, c);
  }

  lemma PlansAuthorizeNothing(db: Rows, e: Event, c: Cid)
    requires Possible(db, e)
    requires e.UpsertNode? || e.PlanUnpin? || e.PlanPin? || e.PlanVerify? || e.MarkEvent? || e.Poll?
    ensures NoNewTrim(db, Next(db, e), c)
  {
  }

  ghost predicate CalmRun(events: seq<Event>) {
    forall i :: 0 <= i < |events| ==> Calm(Run(events[..i]), events[i])
  }

  /** Trim floors over runs. Whatever is planned, delivered, authorised, reported, recovered,
      registered or released: while some trim of an object is authorised, the wanted and
      confirmed copies that no authorised trim names still number at least the object's
      `replication_n`, and the committable ones among them at least its `committable_m`. */
  lemma {:induction false} TrimFloorsHold(events: seq<Event>)
    requires CalmRun(events)
    ensures Floors(Run(events))
  {
    if events != [] {
      var front, e := events[..|events| - 1], events[|events| - 1];
      var db := Run(front);
      assert forall i :: 0 <= i < |front| ==> front[..i] == events[..i];
      TrimFloorsHold(front);
      RunOk(front);
      if Possible(db, e) {
        forall c | TrimmedNodes(Next(db, e), c) != {} ensures AboveFloor(Next(db, e), c) {
          if TrimmedNodes(db, c) != {} {
            TrimmedIsSteady(db, e, c);
          } else {
            FirstTrimIsAuthorized(db, e, c);
          }
          NextAboveFloor(db, e, c);
        }
      }
    }
  }

  /** The copy is gone, the floors are not: when a trim is reported done, the confirmed copies
      that remain number at least `replication_n`, the committable ones `committable_m`. */
  lemma TrimLeavesTheFloors(events: seq<Event>, now: int, node: NodeId, rep: Report)
    requires CalmRun(events) && rep.said.SaidUnpinned? && Judge(Run(events), now, node, rep).Apply?
    requires Run(events).jobs[rep.job].Trims()
    ensures var db' := AfterReport(Run(events), now, node, rep);
            var cid := Run(events).jobs[rep.job].cid;
            && AboveFloor(db', cid)
            && |PinnedNodes(db', cid)| >= db'.objects[cid].n
            && |CommittableNodes(db', cid)| >= db'.objects[cid].m
            && node !in PinnedNodes(db', cid)
  {
    RunOk(events);
    TrimFloorsHold(events);
    DoneTrimLeavesTheFloors(Run(events), now, node, rep);
  }

  lemma DoneTrimLeavesTheFloors(db: Rows, now: int, node: NodeId, rep: Report)
    requires Inv(db) && Floors(db) && Judge(db, now, node, rep).Apply?
    requires rep.said.SaidUnpinned? && db.jobs[rep.job].Trims()
    ensures var db' := AfterReport(db, now, node, rep);
            var cid := db.jobs[rep.job].cid;
            && AboveFloor(db', cid)
            && |PinnedNodes(db', cid)| >= db'.objects[cid].n && |CommittableNodes(db', cid)| >= db'.objects[cid].m
            && node !in PinnedNodes(db', cid)
  {
    var cid := db.jobs[rep.job].cid;
    AppliedTrimIsAuthorized(db, now, node, rep);
    TrimmedHas(db, rep.job);
    TrimmedIsSteady(db, ReportEvent(now, node, rep), cid);
    NextAboveFloor(db, ReportEvent(now, node, rep), cid);
    AboveMeansCopies(AfterReport(db, now, node, rep), cid);
    UnpinnedIsGone(db, now, rep);
  }

  lemma AppliedTrimIsAuthorized(db: Rows, now: int, node: NodeId, rep: Report)
    requires Judge(db, now, node, rep).Apply? && db.jobs[rep.job].Trims()
    ensures db.jobs[rep.job].state.Authorized? && db.jobs[rep.job].node == node
    ensures AfterReport(db, now, node, rep) == Applied(db, now, rep)
  {
  }

  lemma UnpinnedIsGone(db: Rows, now: int, rep: Report)
    requires rep.job in db.jobs && rep.said.SaidUnpinned?
    ensures db.jobs[rep.job].node !in PinnedNodes(Applied(db, now, rep), db.jobs[rep.job].cid)
  {
  }

  lemma AboveMeansCopies(db: Rows, cid: Cid)
    requires AboveFloor(db, cid)
    ensures |PinnedNodes(db, cid)| >= db.objects[cid].n && |CommittableNodes(db, cid)| >= db.objects[cid].m
  {
    SubsetSize(Spared(db, cid), PinnedNodes(db, cid));
    SubsetSize(SparedCommittable(db, cid), CommittableNodes(db, cid));
  }

  /** The object `cid` stays referenced under its policy, and no copy fails, through `more`. */
  ghost predicate Undisturbed(events: seq<Event>, more: seq<Event>, cid: Cid) {
    forall i :: 0 <= i < |more| ==>
      && Calm(Run(events + more[..i]), more[i])
      && KeepsPolicy(Run(events + more[..i]), Run(events + more[..i + 1]), cid)
  }

  /** Once an object is above its floors (an authorised trim puts it there, and the report of the
      trim leaves it there), it stays above them until its policy changes, its last reference is
      released or a copy fails. */
  lemma {:induction false} FloorsPersist(events: seq<Event>, more: seq<Event>, cid: Cid)
    requires AboveFloor(Run(events), cid) && Undisturbed(events, more, cid)
    ensures AboveFloor(Run(events + more), cid)
    ensures |PinnedNodes(Run(events + more), cid)| >= Run(events + more).objects[cid].n
    ensures |CommittableNodes(Run(events + more), cid)| >= Run(events + more).objects[cid].m
    decreases |more|
  {
    if more == [] {
      assert events + more == events;
    } else {
      var front, e := more[..|more| - 1], more[|more| - 1];
      assert more == front + [e];
      UndisturbedStep(events, more, cid);
      FloorsPersist(events, front, cid);
      StepPersists(events, front, e, cid);
    }
    AboveMeansCopies(Run(events + more), cid);
  }

  lemma UndisturbedStep(events: seq<Event>, more: seq<Event>, cid: Cid)
    requires more != [] && Undisturbed(events, more, cid)
    ensures var front, e := more[..|more| - 1], more[|more| - 1];
            && Undisturbed(events, front, cid) && Calm(Run(events + front), e)
            && KeepsPolicy(Run(events + front), Run(events + more), cid)
  {
    var front := more[..|more| - 1];
    assert forall i :: 0 <= i <= |front| ==> front[..i] == more[..i];
    assert more[..|more|] == more;
  }

  lemma StepPersists(events: seq<Event>, front: seq<Event>, e: Event, cid: Cid)
    requires AboveFloor(Run(events + front), cid) && Calm(Run(events + front), e)
    requires KeepsPolicy(Run(events + front), Run(events + (front + [e])), cid)
    ensures AboveFloor(Run(events + (front + [e])), cid)
  {
    RunOk(events + front);
    RunStep(events, front, e);
    if Possible(Run(events + front), e) {
      NextAboveFloor(Run(events + front), e, cid);
    }
  }
}
