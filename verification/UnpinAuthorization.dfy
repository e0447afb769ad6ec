/** When an UNPIN is authorised: exactly under which lease, in which state, and with which copies
    left. */
module UnpinAuthorization {
  import opened Options
  import opened Sets
  import opened Lifecycle
  import opened LifecycleSafety
  import opened LifecycleTheorems
  import opened Delivery
  import opened TrimFloors

  // ------------------------------------------------------------ one deletion per copy

  ghost predicate ActiveUnpin(db: Rows, j: JobId) {
    j in db.jobs && db.jobs[j].op.Unpin? && db.jobs[j].Active()
  }

  /** No copy has two deletions waiting or authorised. */
  ghost predicate OneUnpinEach(db: Rows) {
    forall i, j :: ActiveUnpin(db, i) && ActiveUnpin(db, j) && i != j ==>
      db.jobs[i].cid != db.jobs[j].cid || db.jobs[i].node != db.jobs[j].node
  }

  /** The deletions of `db'` were deletions of `db`. */
  ghost predicate NoNewUnpin(db: Rows, db': Rows) {
    forall j :: ActiveUnpin(db', j) ==>
      ActiveUnpin(db, j) && db'.jobs[j].cid == db.jobs[j].cid && db'.jobs[j].node == db.jobs[j].node
  }

  lemma MovesNoNewUnpin(db: Rows, db': Rows, cid: Cid)
    requires MovesOnly(db, db', cid)
    ensures NoNewUnpin(db, db')
  {
  }

  lemma ReportNoNewUnpin(db: Rows, now: int, node: NodeId, rep: Report)
    ensures NoNewUnpin(db, AfterReport(db, now, node, rep))
  {
  }

  lemma AuthorizeNoNewUnpin(db: Rows, node: NodeId, i: JobId, lease: int)
    ensures NoNewUnpin(db, Authorize(db, node, i, lease))
  {
  }

  lemma OtherPlansNoNewUnpin(db: Rows, e: Event)
    requires Possible(db, e)
    requires e.UpsertNode? || e.MarkEvent? || e.Poll? || e.PlanPin? || e.PlanVerify?
    ensures NoNewUnpin(db, Next(db, e))
  {
  }

  lemma OthersNoNewUnpin(db: Rows, e: Event)
    requires Inv(db) && Possible(db, e) && !e.PlanUnpin?
    ensures NoNewUnpin(db, Next(db, e))
  {
    match e
    case RegisterEvent(now, cid, size, n, m, source, ref) =>
      if Register(db, now, cid, size, n, m, source, ref).Ok? {
        RegisterMoves(db, now, cid, size, n, m, source, ref);
        MovesNoNewUnpin(db, Next(db, e), cid);
      }
    case ReleaseEvent(now, cid, ref) =>
      if Release(db, now, cid, ref).Ok? && Release(db, now, cid, ref).value.1.Counted? {
        ReleaseMoves(db, now, cid, ref);
        MovesNoNewUnpin(db, Next(db, e), cid);
      }
    case Recover(now, lost) => RecoverAllOk(db, now, lost);
    case ReportEvent(now, node, rep) => ReportNoNewUnpin(db, now, node, rep);
    case AuthorizeEvent(_, node, i, lease) => AuthorizeNoNewUnpin(db, node, i, lease);
    case _ => OtherPlansNoNewUnpin(db, e);
  }

  lemma PlannedIsAlone(db: Rows, now: int, cid: Cid, node: NodeId, g: int, reason: Reason, notBefore: int)
    requires Inv(db) && OneUnpinEach(db)
    ensures OneUnpinEach(AfterCreateUnpin(db, now, cid, node, g, reason, notBefore))
  {
    if CreateUnpin(db, now, cid, node, g, reason, notBefore) == Ok(Some(db.nextJob)) {
      forall j | ActiveUnpin(db, j) && db.jobs[j].cid == cid ensures db.jobs[j].node != node {
        assert JobOk(db.objects[cid], db.jobs[j]);
        assert j in ActiveUnpins(db, cid);
      }
    }
  }

  lemma NextOneUnpinEach(db: Rows, e: Event)
    requires Inv(db) && Possible(db, e) && OneUnpinEach(db)
    ensures OneUnpinEach(Next(db, e))
  {
    if e.PlanUnpin? {
      PlannedIsAlone(db, e.now, e.cid, e.node, e.generation, e.reason, e.notBefore);
    } else {
      OthersNoNewUnpin(db, e);
    }
  }

  /** In every reachable database a copy has at most one deletion waiting or authorised. */
  lemma {:induction false} RunOneUnpinEach(events: seq<Event>)
    ensures OneUnpinEach(Run(events))
  {
    if events != [] {
      var front, e := events[..|events| - 1], events[|events| - 1];
      RunOneUnpinEach(front);
      RunOk(front);
      if Possible(Run(front), e) {
        NextOneUnpinEach(Run(front), e);
      }
    }
  }

  // ------------------------------------------------------------ counting the rivals

  /** The nodes other than `x` whose copy an authorised trim names. */
  ghost predicate Rival(db: Rows, cid: Cid, x: NodeId, y: NodeId) {
    && y != x && (cid, y) in db.replicas
    && exists j :: j in db.jobs && db.jobs[j].cid == cid && db.jobs[j].node == y && db.jobs[j].op.Unpin?
                   && db.jobs[j].reason.TrimExtra? && db.jobs[j].state.Authorized?
  }

  function Rivals(db: Rows, cid: Cid, x: NodeId): set<NodeId> {
    Image(RivalTrims(db, cid, x), NodeOf(db))
  }

  lemma RivalsMean(db: Rows, cid: Cid, x: NodeId, y: NodeId)
    ensures y in Rivals(db, cid, x) <==> Rival(db, cid, x, y)
  {
    if Rival(db, cid, x, y) {
      var j :| j in db.jobs && db.jobs[j].cid == cid && db.jobs[j].node == y && db.jobs[j].op.Unpin?
               && db.jobs[j].reason.TrimExtra? && db.jobs[j].state.Authorized?;
      assert j in RivalTrims(db, cid, x) && NodeOf(db)(j) == y;
    }
  }

  /** The rival copies of the committable class. */
  function CommittableRivals(db: Rows, cid: Cid, x: NodeId): set<NodeId> {
    set y | y in Rivals(db, cid, x) && (cid, y) in db.replicas && db.replicas[(cid, y)].class_.Committable?
  }

  lemma RivalCount(db: Rows, cid: Cid, x: NodeId)
    requires OneUnpinEach(db)
    ensures |RivalTrims(db, cid, x)| == |Rivals(db, cid, x)|
    ensures |RivalCommittableTrims(db, cid, x)| == |CommittableRivals(db, cid, x)|
  {
    InjectiveSize(RivalTrims(db, cid, x), NodeOf(db));
    InjectiveSize(RivalCommittableTrims(db, cid, x), NodeOf(db));
    assert CommittableRivals(db, cid, x) == Image(RivalCommittableTrims(db, cid, x), NodeOf(db));
  }

  // ------------------------------------------------------------ what would be left

  /** The wanted and confirmed copies that no authorised trim names and that are not on `x`. */
  function Left(db: Rows, cid: Cid, x: NodeId): set<NodeId> {
    set p | p in db.replicas && p.0 == cid && db.replicas[p].desired && db.replicas[p].state == Pinned
            && p.1 != x && p.1 !in TrimmedNodes(db, cid) :: p.1
  }

  function LeftCommittable(db: Rows, cid: Cid, x: NodeId): set<NodeId> {
    set y | y in Left(db, cid, x) && (cid, y) in db.replicas && db.replicas[(cid, y)].class_ == Committable
  }

  /** Copies lost after their trim was authorised: the check still counts them as rivals. */
  function Lost(db: Rows, cid: Cid, x: NodeId): set<NodeId> {
    set y | y in Rivals(db, cid, x)
            && !((cid, y) in db.replicas && db.replicas[(cid, y)].desired && db.replicas[(cid, y)].state == Pinned)
  }

  function LostCommittable(db: Rows, cid: Cid, x: NodeId): set<NodeId> {
    set y | y in Lost(db, cid, x) && (cid, y) in db.replicas && db.replicas[(cid, y)].class_ == Committable
  }

  lemma PartSize(a: set<NodeId>, b: set<NodeId>)
    ensures |a| == |a * b| + |a - b|
  {
    assert a == (a * b) + (a - b);
  }

  /** Splitting `all` into what is left, the rivals in it, and `x`. */
  lemma Split(all: set<NodeId>, left: set<NodeId>, rivals: set<NodeId>, lost: set<NodeId>, x: NodeId)
    requires left == all - rivals - {x} && lost == rivals - all && x !in rivals
    ensures |all| - |rivals| == |left| - |lost| + if x in all then 1 else 0
  {
    PartSize(all, rivals);
    PartSize(rivals, all);
    assert all * rivals == rivals * all;
    PartSize(all - rivals, {x});
    assert (all - rivals) * {x} == if x in all then {x} else {};
  }

  lemma RivalsAreTrimmed(db: Rows, cid: Cid, x: NodeId, y: NodeId)
    requires y != x && (cid, y) in db.replicas
    ensures y in Rivals(db, cid, x) <==> y in TrimmedNodes(db, cid)
  {
    RivalsMean(db, cid, x, y);
  }

  lemma CopiesAfter(db: Rows, cid: Cid, x: NodeId)
    requires OneUnpinEach(db)
    ensures |PinnedNodes(db, cid)| - |RivalTrims(db, cid, x)|
         == |Left(db, cid, x)| - |Lost(db, cid, x)| + if x in PinnedNodes(db, cid) then 1 else 0
  {
    RivalCount(db, cid, x);
    LeftIs(db, cid, x);
    Split(PinnedNodes(db, cid), Left(db, cid, x), Rivals(db, cid, x), Lost(db, cid, x), x);
  }

  lemma LeftIs(db: Rows, cid: Cid, x: NodeId)
    ensures Left(db, cid, x) == PinnedNodes(db, cid) - Rivals(db, cid, x) - {x}
    ensures Lost(db, cid, x) == Rivals(db, cid, x) - PinnedNodes(db, cid) && x !in Rivals(db, cid, x)
  {
    forall y ensures y in Left(db, cid, x) <==> y in PinnedNodes(db, cid) - Rivals(db, cid, x) - {x} {
      if y != x && (cid, y) in db.replicas {
        RivalsAreTrimmed(db, cid, x, y);
      }
    }
  }

  lemma CommittableAfter(db: Rows, cid: Cid, x: NodeId)
    requires OneUnpinEach(db)
    ensures |CommittableNodes(db, cid)| - |RivalCommittableTrims(db, cid, x)|
         == |LeftCommittable(db, cid, x)| - |LostCommittable(db, cid, x)|
            + if x in CommittableNodes(db, cid) then 1 else 0
  {
    RivalCount(db, cid, x);
    LeftCommittableIs(db, cid, x);
    Split(CommittableNodes(db, cid), LeftCommittable(db, cid, x), CommittableRivals(db, cid, x),
          LostCommittable(db, cid, x), x);
  }

  lemma LeftCommittableIs(db: Rows, cid: Cid, x: NodeId)
    ensures LeftCommittable(db, cid, x) == CommittableNodes(db, cid) - CommittableRivals(db, cid, x) - {x}
    ensures LostCommittable(db, cid, x) == CommittableRivals(db, cid, x) - CommittableNodes(db, cid)
    ensures x !in CommittableRivals(db, cid, x)
  {
    forall y ensures y in LeftCommittable(db, cid, x) <==>
                     y in CommittableNodes(db, cid) - CommittableRivals(db, cid, x) - {x}
    {
      if y != x && (cid, y) in db.replicas {
        RivalsAreTrimmed(db, cid, x, y);
      }
    }
  }

  // ------------------------------------------------------------ exactly when

  /** The facts every authorisation needs. */
  predicate MayAsk(db: Rows, node: NodeId, j: JobId, lease: int) {
    && j in db.jobs && db.jobs[j].node == node && db.jobs[j].op == Unpin
    && db.jobs[j].lease == lease && (db.jobs[j].state == Pending || db.jobs[j].state == Retry)
    && db.jobs[j].cid in db.objects && db.objects[db.jobs[j].cid].generation == db.jobs[j].generation
  }

  /** The rows with another state of one job. */
  function WithState(db: Rows, j: JobId, state: JobState): Rows
    requires j in db.jobs
  {
    db.(jobs := db.jobs[j := db.jobs[j].(state := state)])
  }

  /** The request reaches the job: its node asks, and it is an UNPIN. Whatever the answer, only the
      state of that job changes, to authorised or to stale; otherwise nothing does. */
  lemma RequestChangesOneState(db: Rows, now: int, node: NodeId, j: JobId, lease: int)
    ensures var db' := Next(db, AuthorizeEvent(now, node, j, lease));
            if j in db.jobs && db.jobs[j].node == node && db.jobs[j].op == Unpin
            then db' == WithState(db, j, Authorized) || db' == WithState(db, j, Stale)
            else db' == db
  {
  }

  /** The job comes out authorised only if it waits, under the lease it was last given, in its
      object's generation. */
  lemma AuthorizedOnlyUnderItsLease(db: Rows, now: int, node: NodeId, j: JobId, lease: int)
    requires j in db.jobs && db.jobs[j].node == node && db.jobs[j].op == Unpin
    requires !MayAsk(db, node, j, lease)
    ensures Next(db, AuthorizeEvent(now, node, j, lease)).jobs[j].state == Stale
  {
  }

  /** A final deletion that may be asked for is authorised exactly while nothing refers to the object. */
  lemma FinalAuthorizedExactlyIf(db: Rows, now: int, node: NodeId, j: JobId, lease: int)
    requires MayAsk(db, node, j, lease) && db.jobs[j].reason != TrimExtra
    ensures Next(db, AuthorizeEvent(now, node, j, lease)).jobs[j].state
         == if db.objects[db.jobs[j].cid].refcount == 0 then Authorized else Stale
  {
  }

  /** A trim that may be asked for is authorised exactly if the object is referenced, the copy is
      wanted and confirmed, and the copies left without it meet both floors, even after taking off
      those that were lost since their own trim was authorised. */
  lemma TrimAuthorizedExactlyIf(db: Rows, now: int, node: NodeId, j: JobId, lease: int)
    requires OneUnpinEach(db) && MayAsk(db, node, j, lease) && db.jobs[j].reason == TrimExtra
    ensures Next(db, AuthorizeEvent(now, node, j, lease)).jobs[j].state
         == if MayGo(db, db.jobs[j].cid, node) then Authorized else Stale
  {
    CapacityMeans(db, db.jobs[j].cid, node, db.jobs[j].generation);
  }

  /** The copy on `node` may go. */
  ghost predicate MayGo(db: Rows, cid: Cid, node: NodeId) {
    && cid in db.objects && db.objects[cid].refcount > 0
    && (cid, node) in db.replicas && db.replicas[(cid, node)].desired && db.replicas[(cid, node)].state == Pinned
    && |Left(db, cid, node)| - |Lost(db, cid, node)| >= db.objects[cid].n
    && |LeftCommittable(db, cid, node)| - |LostCommittable(db, cid, node)| >= db.objects[cid].m
  }

  lemma CapacityMeans(db: Rows, cid: Cid, node: NodeId, g: int)
    requires OneUnpinEach(db) && cid in db.objects && db.objects[cid].generation == g
    ensures TrimCapacity(db, cid, node, g, true) <==> MayGo(db, cid, node)
  {
    CopiesAfter(db, cid, node);
    CommittableAfter(db, cid, node);
    if (cid, node) in db.replicas && db.replicas[(cid, node)].desired && db.replicas[(cid, node)].state == Pinned {
      TargetCounts(db, cid, node);
    }
  }

  lemma TargetCounts(db: Rows, cid: Cid, node: NodeId)
    requires (cid, node) in db.replicas && db.replicas[(cid, node)].desired && db.replicas[(cid, node)].state == Pinned
    ensures node in PinnedNodes(db, cid)
    ensures node in CommittableNodes(db, cid) <==> db.replicas[(cid, node)].class_ == Committable
  {
  }

  // ------------------------------------------------------------ runs without failures

  /** The copies that authorised trims name are wanted and confirmed. */
  ghost predicate TrimmedArePinned(db: Rows) {
    forall c, x :: x in TrimmedNodes(db, c) ==> x in PinnedNodes(db, c)
  }

  lemma KeptIsPinned(db: Rows, db': Rows, c: Cid, x: NodeId)
    requires KeptExcept(db, db', c, {}) && x in PinnedNodes(db, c)
    ensures x in PinnedNodes(db', c)
  {
    assert (c, x) in db.replicas && (c, x) in db'.replicas;
  }

  /** An applied report removes a trimmed copy only together with its trim. */
  lemma ReportKeepsTrimmedPinned(db: Rows, now: int, node: NodeId, rep: Report, c: Cid, x: NodeId)
    requires Inv(db) && OneUnpinEach(db) && Calm(db, ReportEvent(now, node, rep)) && c in db.objects
    requires db.objects[c].refcount > 0 && x in PinnedNodes(db, c)
    requires x in TrimmedNodes(AfterReport(db, now, node, rep), c)
    ensures x in PinnedNodes(AfterReport(db, now, node, rep), c)
  {
    var db' := AfterReport(db, now, node, rep);
    ReportAuthorizesNothing(db, now, node, rep, c);
    var i :| i in db'.jobs && db'.jobs[i].cid == c && db'.jobs[i].Trims() && db'.jobs[i].state.Authorized?
             && db'.jobs[i].node == x;
    assert i in db.jobs && db'.jobs[i] == db.jobs[i];
    if Judge(db, now, node, rep).Apply? {
      AppliedAlone(db, now, node, rep, i);
      AppliedKeepsOthers(db, now, rep, c, x);
    }
  }

  lemma AppliedAlone(db: Rows, now: int, node: NodeId, rep: Report, i: JobId)
    requires OneUnpinEach(db) && Judge(db, now, node, rep).Apply? && ActiveUnpin(db, i)
    requires AfterReport(db, now, node, rep).jobs[i].state.Authorized?
    ensures db.jobs[rep.job].op.Unpin? ==>
              db.jobs[rep.job].cid != db.jobs[i].cid || db.jobs[rep.job].node != db.jobs[i].node
  {
  }

  lemma AppliedKeepsOthers(db: Rows, now: int, rep: Report, c: Cid, x: NodeId)
    requires rep.job in db.jobs && x in PinnedNodes(db, c)
    requires var job := db.jobs[rep.job];
             || job.cid != c || job.node != x
             || ((job.op.Pin? || job.op.Verify?) && (rep.said.SaidPinned? || rep.said.SaidVerified?))
    ensures x in PinnedNodes(Applied(db, now, rep), c)
  {
    assert (c, x) in Applied(db, now, rep).replicas;
  }

  lemma NextTrimmedArePinned(db: Rows, e: Event)
    requires Inv(db) && OneUnpinEach(db) && Possible(db, e) && Calm(db, e) && TrimmedArePinned(db)
    ensures TrimmedArePinned(Next(db, e))
  {
    forall c, x | x in TrimmedNodes(Next(db, e), c) ensures x in PinnedNodes(Next(db, e), c) {
      if x in TrimmedNodes(db, c) {
        TrimmedStaysPinned(db, e, c, x);
      } else {
        NewlyTrimmedIsPinned(db, e, c, x);
      }
    }
  }

  lemma TrimmedStaysPinned(db: Rows, e: Event, c: Cid, x: NodeId)
    requires Inv(db) && OneUnpinEach(db) && Possible(db, e) && Calm(db, e)
    requires x in TrimmedNodes(db, c) && x in PinnedNodes(db, c) && x in TrimmedNodes(Next(db, e), c)
    ensures x in PinnedNodes(Next(db, e), c)
  {
    TrimmedMeansAuthorized(db, c);
    if e.ReportEvent? {
      ReportKeepsTrimmedPinned(db, e.now, e.node, e.report, c, x);
    } else {
      TrimmedIsSteady(db, e, c);
      if AuthorizesTrim(db, e, c) {
        SameReplicas(db, Next(db, e), c);
      } else {
        OthersKeepCopies(db, e, c);
        KeptIsPinned(db, Next(db, e), c, x);
      }
    }
  }

  lemma NewlyTrimmedIsPinned(db: Rows, e: Event, c: Cid, x: NodeId)
    requires Inv(db) && Possible(db, e) && x !in TrimmedNodes(db, c) && x in TrimmedNodes(Next(db, e), c)
    ensures x in PinnedNodes(Next(db, e), c)
  {
    if !e.AuthorizeEvent? {
      OnlyAuthorizeTrims(db, e, c);
      FewerTrims(db, Next(db, e), c);
    } else if !AuthorizesTrim(db, e, c) {
      AuthorizeKeepsCopies(db, e.node, e.job, e.lease, c);
      FewerTrims(db, Next(db, e), c);
    } else {
      TrimmedAfterAuthorize(db, e.job);
      assert TrimCapacity(db, c, x, db.jobs[e.job].generation, true);
      TargetCounts(db, c, x);
      SameReplicas(db, Next(db, e), c);
    }
  }

  lemma {:induction false} CalmTrimmedArePinned(events: seq<Event>)
    requires CalmRun(events)
    ensures TrimmedArePinned(Run(events))
  {
    if events != [] {
      var front, e := events[..|events| - 1], events[|events| - 1];
      assert forall i :: 0 <= i < |front| ==> front[..i] == events[..i];
      CalmTrimmedArePinned(front);
      RunOk(front);
      RunOneUnpinEach(front);
      if Possible(Run(front), e) {
        NextTrimmedArePinned(Run(front), e);
      }
    }
  }

  lemma NothingLost(db: Rows, cid: Cid, x: NodeId)
    requires TrimmedArePinned(db)
    ensures Lost(db, cid, x) == {} && LostCommittable(db, cid, x) == {}
  {
    forall y | y in Rivals(db, cid, x) ensures y in PinnedNodes(db, cid) {
      RivalsMean(db, cid, x, y);
      assert y in TrimmedNodes(db, cid);
    }
  }

  /** In a run without replica failures a trim that is asked for under its lease is authorised exactly
      if the copies left, without it and without those that authorised trims name, still number
      `replication_n`, and the committable ones `committable_m`. Going down to exactly these numbers
      is allowed. */
  lemma CalmTrimAuthorizedExactlyIf(events: seq<Event>, now: int, node: NodeId, j: JobId, lease: int)
    requires CalmRun(events) && MayAsk(Run(events), node, j, lease) && Run(events).jobs[j].reason == TrimExtra
    ensures var db := Run(events);
            var cid := db.jobs[j].cid;
            var fits := && (cid, node) in db.replicas && db.replicas[(cid, node)].desired
                        && db.replicas[(cid, node)].state == Pinned
                        && |Left(db, cid, node)| >= db.objects[cid].n
                        && |LeftCommittable(db, cid, node)| >= db.objects[cid].m;
            Next(db, AuthorizeEvent(now, node, j, lease)).jobs[j].state == if fits then Authorized else Stale
  {
    var db := Run(events);
    RunOk(events);
    RunOneUnpinEach(events);
    CalmTrimmedArePinned(events);
    NothingLost(db, db.jobs[j].cid, node);
    TrimAuthorizedExactlyIf(db, now, node, j, lease);
    assert JobOk(db.objects[db.jobs[j].cid], db.jobs[j]);
  }

  // ------------------------------------------------------------ the lease that was asked under

  /** With a steady clock an UNPIN asked for under a lease is authorised only under the last one it was
      handed out with. */
  lemma AuthorizedUnderLastLease(events: seq<Event>, now: int, node: NodeId, j: JobId, lease: int)
    requires Steady(events) && j in Run(events).jobs && Run(events).jobs[j].node == node
    requires Run(events).jobs[j].op == Unpin && lease != 0
    requires Next(Run(events), AuthorizeEvent(now, node, j, lease)).jobs[j].state == Authorized
    ensures Handed(events, j) != [] && lease == Handed(events, j)[|Handed(events, j)| - 1]
  {
    var db := Run(events);
    RunTracked(events, j);
    if !MayAsk(db, node, j, lease) {
      AuthorizedOnlyUnderItsLease(db, now, node, j, lease);
    }
    assert Tracks(db.jobs[j], Handed(events, j), AppliedLeases(events, j), Clock(events));
  }

  /** A request under the lease of an earlier delivery turns the job stale. */
  lemma EarlierLeaseTurnsStale(events: seq<Event>, now: int, node: NodeId, j: JobId, i: nat)
    requires Steady(events) && i + 1 < |Handed(events, j)|
    requires j in Run(events).jobs && Run(events).jobs[j].node == node && Run(events).jobs[j].op == Unpin
    ensures Next(Run(events), AuthorizeEvent(now, node, j, Handed(events, j)[i])).jobs[j].state == Stale
  {
    var db := Run(events);
    var hs := Handed(events, j);
    RunTracked(events, j);
    assert Tracks(db.jobs[j], hs, AppliedLeases(events, j), Clock(events));
    assert 0 < hs[i] < hs[|hs| - 1];
    AuthorizedOnlyUnderItsLease(db, now, node, j, hs[i]);
  }
}
