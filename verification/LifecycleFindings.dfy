/** Concrete and general witnesses of what the replication database does in unusual situations. */
module LifecycleFindings {
  import opened Options
  import opened Lifecycle
  import opened LifecycleTheorems
  import opened TrimFloors
  import opened UnpinAuthorization

  /** Node 7; object 0 registered twice, the second time under a higher policy; then a verify job
      is planned with the generation read before. */
  function LateVerify(): seq<Event> {
    [UpsertNode(1, 7, Committable), RegisterEvent(1, 0, 10, 1, 1, None, Some(1)),
     RegisterEvent(2, 0, 10, 2, 1, None, Some(2)), PlanVerify(3, 0, 7, 1)]
  }

  /** A reachable database with a live verify job of an old generation. */
  lemma StaleVerifyIsReachable()
    ensures var db := Run(LateVerify());
            && 0 in db.jobs && 0 in db.objects && db.jobs[0].op.Verify? && db.jobs[0].Active()
            && db.jobs[0].generation == 1 && db.objects[0].generation == 2
            && !VerifyJobsCurrent(db)
  {
    var es := LateVerify();
    assert es[..|es| - 1] == [es[0], es[1], es[2]] && es[|es| - 1] == es[3];
    PolicyRaised();
    VerifyPlannedLate(Run([es[0], es[1], es[2]]), es[3]);
  }

  lemma VerifyPlannedLate(db: Rows, e: Event)
    requires e == PlanVerify(3, 0, 7, 1) && db.objects == map[0 := Object(10, 2, 1, 2, 2, 0)]
    requires db.nodes == map[7 := Committable] && db.jobs == map[] && db.nextJob == 0
    ensures Possible(db, e) && Next(db, e).objects == db.objects
    ensures Next(db, e).jobs == map[0 := Job(0, 7, Verify, 1, Pending, 0, 3, 0, 3, NoReason)]
  {
  }

  lemma PolicyRaised()
    ensures var es := LateVerify();
            var db := Run([es[0], es[1], es[2]]);
            && db.objects == map[0 := Object(10, 2, 1, 2, 2, 0)] && db.nodes == map[7 := Committable]
            && db.jobs == map[] && db.nextJob == 0
  {
    var es := LateVerify();
    assert [es[0], es[1], es[2]][..2] == [es[0], es[1]] && [es[0], es[1]][..1] == [es[0]] && [es[0]][..0] == [];
    assert Run([]) == EMPTY;
    assert Run([es[0]]) == EMPTY.(nodes := map[7 := Committable]);
    var db := Run([es[0], es[1]]);
    assert db == EMPTY.(nodes := map[7 := Committable], objects := map[0 := Object(10, 1, 1, 1, 1, 0)],
                        refs := map[1 := Reference(0, 0)]);
  }

  /** Node 7 registers object 0 and releases it; its deletion is planned and authorised under
      lease 0, although it was never handed out. */
  function UndeliveredDeletion(): seq<Event> {
    [UpsertNode(1, 7, Committable), RegisterEvent(1, 0, 10, 1, 1, Some(7), Some(1)), ReleaseEvent(2, 0, Some(1)),
     PlanUnpin(3, 0, 7, 2, Final, 0), AuthorizeEvent(4, 7, 0, 0)]
  }

  /** A reachable database with an authorised UNPIN that was never handed out. */
  lemma UndeliveredAuthorizationIsReachable()
    ensures var db := Run(UndeliveredDeletion());
            0 in db.jobs && db.jobs[0].op.Unpin? && db.jobs[0].state.Authorized? && db.jobs[0].lease == 0
  {
    var es := UndeliveredDeletion();
    DeletionPlannable();
    var db := Run([es[0], es[1], es[2]]);
    assert [es[0], es[1], es[2], es[3]][..3] == [es[0], es[1], es[2]];
    PlannedThenAuthorized(db, es[3], es[4]);
    assert es[..|es| - 1] == [es[0], es[1], es[2], es[3]];
  }

  lemma DeletionPlannable()
    ensures var es := UndeliveredDeletion();
            var db := Run([es[0], es[1], es[2]]);
            && db.objects == map[0 := Object(10, 1, 1, 0, 2, 2)] && db.nodes == map[7 := Committable]
            && db.jobs == map[] && db.nextJob == 0
  {
    var es := UndeliveredDeletion();
    assert [es[0], es[1], es[2]][..2] == [es[0], es[1]] && [es[0], es[1]][..1] == [es[0]] && [es[0]][..0] == [];
    assert Run([]) == EMPTY;
    assert Run([es[0]]) == EMPTY.(nodes := map[7 := Committable]);
    var db := Run([es[0], es[1]]);
    assert db.objects == map[0 := Object(10, 1, 1, 1, 1, 0)] && db.refs == map[1 := Reference(0, 0)];
    assert db.nodes == map[7 := Committable] && db.jobs == map[] && db.nextJob == 0;
  }

  lemma PlannedThenAuthorized(db: Rows, plan: Event, ask: Event)
    requires plan == PlanUnpin(3, 0, 7, 2, Final, 0) && ask == AuthorizeEvent(4, 7, 0, 0)
    requires db.objects == map[0 := Object(10, 1, 1, 0, 2, 2)] && db.nodes == map[7 := Committable]
    requires db.jobs == map[] && db.nextJob == 0
    ensures Possible(db, plan) && Possible(Next(db, plan), ask)
    ensures var after := Next(Next(db, plan), ask);
            0 in after.jobs && after.jobs[0].op.Unpin? && after.jobs[0].state.Authorized? && after.jobs[0].lease == 0
  {
    var planned := Next(db, plan);
    assert planned == AddJob(db, UnpinJob(3, 0, 7, 2, Final, 0));
    assert ReadyToUnpin(planned, 0, 0);
  }

  // ------------------------------------------------------------ a trim refused for a copy that is lost

  const COPY := Replica(true, Pinned, Committable, 1, 2)
  const TRIM := Job(0, 1, Unpin, 1, Pending, 0, 3, 0, 3, TrimExtra)

  /** Object 0 with the policy n = 1, m = 0 and copies on the nodes of `copies`. */
  function WithCopies(references: int, refs: map<RefId, Reference>, replicas: map<(Cid, NodeId), Replica>): Rows {
    Rows(map[1 := Committable, 2 := Committable, 3 := Committable], map[0 := Object(10, 1, 0, references, 1, 0)],
         refs, replicas, map[], 0)
  }

  function ThreeCopies(): Rows {
    WithCopies(3, map[1 := Reference(0, 0), 2 := Reference(0, 0), 3 := Reference(0, 0)],
               map[(0, 1) := COPY, (0, 2) := COPY, (0, 3) := COPY])
  }

  /** Three nodes register object 0; trims of the copies on nodes 1 and 2 are planned; the first one is
      authorised, and then the copy on node 1 is found missing. */
  function LostRival(): seq<Event> {
    Registered() + TwoPlans() + [AuthorizeEvent(4, 1, 0, 0), MarkEvent(5, 0, 1, Missing)]
  }

  function Registered(): seq<Event> {
    ThreeUpserts() + [Registering(1)] + [Registering(2), Registering(3)]
  }

  function ThreeUpserts(): seq<Event> {
    [UpsertNode(1, 1, Committable)] + [UpsertNode(1, 2, Committable), UpsertNode(1, 3, Committable)]
  }

  function Registering(x: NodeId): Event {
    RegisterEvent(2, 0, 10, 1, 0, Some(x), Some(x))
  }

  lemma RunOne(events: seq<Event>, e: Event, db: Rows)
    requires Run(events) == db && Possible(db, e)
    ensures Run(events + [e]) == Next(db, e)
  {
    assert (events + [e])[..|events|] == events;
  }

  lemma RunTwo(events: seq<Event>, e: Event, f: Event, a: Rows, b: Rows, c: Rows)
    requires Run(events) == a && Possible(a, e) && Next(a, e) == b && Possible(b, f) && Next(b, f) == c
    ensures Run(events + [e, f]) == c
  {
    RunOne(events, e, a);
    RunOne(events + [e], f, b);
    assert events + [e] + [f] == events + [e, f];
  }

  lemma ThreeNodes()
    ensures Run(ThreeUpserts()) == EMPTY.(nodes := map[1 := Committable, 2 := Committable, 3 := Committable])
  {
    var e := UpsertNode(1, 1, Committable);
    assert Run([]) == EMPTY && [] + [e] == [e];
    RunOne([], e, EMPTY);
    RunTwo([e], UpsertNode(1, 2, Committable), UpsertNode(1, 3, Committable),
           EMPTY.(nodes := map[1 := Committable]), EMPTY.(nodes := map[1 := Committable, 2 := Committable]),
           EMPTY.(nodes := map[1 := Committable, 2 := Committable, 3 := Committable]));
  }

  lemma FirstCopy(db: Rows)
    requires db == EMPTY.(nodes := map[1 := Committable, 2 := Committable, 3 := Committable])
    ensures Next(db, RegisterEvent(2, 0, 10, 1, 0, Some(1), Some(1)))
         == WithCopies(1, map[1 := Reference(0, 0)], map[(0, 1) := COPY])
  {
  }

  lemma NextCopy(db: Rows, references: int, x: NodeId)
    requires references >= 1 && 1 <= x <= 3 && db == WithCopies(references, db.refs, db.replicas)
    requires x !in db.refs && (0, x) !in db.replicas
    ensures Next(db, RegisterEvent(2, 0, 10, 1, 0, Some(x), Some(x)))
         == WithCopies(references + 1, db.refs[x := Reference(0, 0)], db.replicas[(0, x) := COPY])
  {
  }

  lemma ThreeRegistered()
    ensures Run(Registered()) == ThreeCopies()
  {
    var none := EMPTY.(nodes := map[1 := Committable, 2 := Committable, 3 := Committable]);
    var one := WithCopies(1, map[1 := Reference(0, 0)], map[(0, 1) := COPY]);
    ThreeNodes();
    FirstCopy(none);
    RunOne(ThreeUpserts(), Registering(1), none);
    TwoMore(ThreeUpserts() + [Registering(1)], one);
  }

  lemma TwoMore(events: seq<Event>, one: Rows)
    requires Run(events) == one && one == WithCopies(1, map[1 := Reference(0, 0)], map[(0, 1) := COPY])
    ensures Run(events + [Registering(2), Registering(3)]) == ThreeCopies()
  {
    var two := WithCopies(2, one.refs[2 := Reference(0, 0)], one.replicas[(0, 2) := COPY]);
    NextCopy(one, 1, 2);
    NextCopy(two, 2, 3);
    RunTwo(events, Registering(2), Registering(3), one, two, ThreeCopies());
  }

  lemma ThreePinned(db: Rows)
    requires db.replicas == ThreeCopies().replicas
    ensures PinnedNodes(db, 0) == {1, 2, 3} && CommittableNodes(db, 0) == {1, 2, 3}
  {
    forall x ensures x in PinnedNodes(db, 0) <==> x in {1, 2, 3} {
      assert x in PinnedNodes(db, 0) <==> (0, x) in db.replicas;
    }
    forall x ensures x in CommittableNodes(db, 0) <==> x in {1, 2, 3} {
      assert x in CommittableNodes(db, 0) <==> (0, x) in db.replicas;
    }
  }

  lemma FirstPlanned(db: Rows)
    requires db == ThreeCopies()
    ensures Next(db, PlanUnpin(3, 0, 1, 1, TrimExtra, 0)) == db.(jobs := map[0 := TRIM], nextJob := 1)
  {
    ThreePinned(db);
    assert ActiveTrims(db, 0) == {} && ActiveUnpins(db, 0) == {};
  }

  lemma SecondPlanned(db: Rows)
    requires db == ThreeCopies().(jobs := map[0 := TRIM], nextJob := 1)
    ensures Next(db, PlanUnpin(3, 0, 2, 1, TrimExtra, 0))
         == db.(jobs := map[0 := TRIM, 1 := TRIM.(node := 2)], nextJob := 2)
  {
    ThreePinned(db);
    assert ActiveTrims(db, 0) == {0} && ActiveUnpins(db, 0) == {0};
  }

  /** The rows after the first trim was authorised and its copy was lost. */
  function OneLost(): Rows {
    ThreeCopies().(replicas := ThreeCopies().replicas[(0, 1) := COPY.(state := Missing)],
                   jobs := map[0 := TRIM.(state := Authorized), 1 := TRIM.(node := 2)], nextJob := 2)
  }

  lemma FirstAuthorized(db: Rows)
    requires db == ThreeCopies().(jobs := map[0 := TRIM, 1 := TRIM.(node := 2)], nextJob := 2)
    ensures Next(db, AuthorizeEvent(4, 1, 0, 0))
         == db.(jobs := map[0 := TRIM.(state := Authorized), 1 := TRIM.(node := 2)])
  {
    ThreePinned(db);
    assert RivalTrims(db, 0, 1) == {};
    assert RivalCommittableTrims(db, 0, 1) == {};
    assert ReadyToUnpin(db, 0, 0);
  }

  lemma LostRivalRun()
    ensures Run(LostRival()) == OneLost()
  {
    ThreeRegistered();
    PlannedRun(Registered());
    LostRun(Registered() + TwoPlans());
  }

  function TwoPlans(): seq<Event> {
    [PlanUnpin(3, 0, 1, 1, TrimExtra, 0), PlanUnpin(3, 0, 2, 1, TrimExtra, 0)]
  }

  lemma PlannedRun(events: seq<Event>)
    requires Run(events) == ThreeCopies()
    ensures Run(events + TwoPlans()) == ThreeCopies().(jobs := map[0 := TRIM, 1 := TRIM.(node := 2)], nextJob := 2)
  {
    var db := ThreeCopies();
    FirstPlanned(db);
    SecondPlanned(db.(jobs := map[0 := TRIM], nextJob := 1));
    RunTwo(events, TwoPlans()[0], TwoPlans()[1], db, db.(jobs := map[0 := TRIM], nextJob := 1),
           db.(jobs := map[0 := TRIM, 1 := TRIM.(node := 2)], nextJob := 2));
  }

  lemma LostRun(events: seq<Event>)
    requires Run(events) == ThreeCopies().(jobs := map[0 := TRIM, 1 := TRIM.(node := 2)], nextJob := 2)
    ensures Run(events + [AuthorizeEvent(4, 1, 0, 0), MarkEvent(5, 0, 1, Missing)]) == OneLost()
  {
    var db := Run(events);
    FirstAuthorized(db);
    var authorized := db.(jobs := map[0 := TRIM.(state := Authorized), 1 := TRIM.(node := 2)]);
    assert Next(authorized, MarkEvent(5, 0, 1, Missing)) == OneLost();
    RunTwo(events, AuthorizeEvent(4, 1, 0, 0), MarkEvent(5, 0, 1, Missing), db, authorized, OneLost());
  }

  /** A reachable database in which a trim that may be asked for is refused, although the copy left
      without it and without every copy that an authorised trim names meets the policy. */
  lemma LostRivalBlocksTrim()
    ensures var db := Run(LostRival());
            && MayAsk(db, 2, 1, 0) && db.jobs[1].reason == TrimExtra && 0 in db.objects
            && db.objects[0].n == 1 && db.objects[0].m == 0
            && Left(db, 0, 2) == {3} && Lost(db, 0, 2) == {1}
            && Next(db, AuthorizeEvent(6, 2, 1, 0)).jobs[1].state == Stale
  {
    LostRivalRun();
    OneTrimmed();
    SecondRefused();
  }

  lemma SecondRefused()
    ensures Next(OneLost(), AuthorizeEvent(6, 2, 1, 0)).jobs[1].state == Stale
  {
    var db := OneLost();
    forall x ensures x in PinnedNodes(db, 0) <==> x in {2, 3} {
      assert x in PinnedNodes(db, 0) <==> (0, x) in db.replicas && db.replicas[(0, x)].state == Pinned;
    }
    assert PinnedNodes(db, 0) == {2, 3} && RivalTrims(db, 0, 2) == {0};
    assert !TrimCapacity(db, 0, 2, 1, true);
  }

  lemma OneTrimmed()
    ensures TrimmedNodes(OneLost(), 0) == {1} && Left(OneLost(), 0, 2) == {3} && Lost(OneLost(), 0, 2) == {1}
  {
    var db := OneLost();
    assert db.jobs[0].node == 1 && db.jobs[0].Trims() && db.jobs[0].state.Authorized?;
    assert TrimmedNodes(db, 0) == {1};
    forall x ensures x in Left(db, 0, 2) <==> x in {3} {
      assert x in Left(db, 0, 2) <==> (0, x) in db.replicas && db.replicas[(0, x)].state == Pinned && x != 2 && x != 1;
    }
    forall x ensures x in Rivals(db, 0, 2) <==> x in {1} {
      RivalsMean(db, 0, 2, x);
    }
  }
}
