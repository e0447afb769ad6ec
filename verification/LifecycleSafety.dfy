/** What every run of the replication database keeps: generations fence, and destructive
    jobs agree with the object's lifecycle. */
module LifecycleSafety {
  import opened Arithmetic
  import opened Options
  import opened Lifecycle

  // ------------------------------------------------------------ the invariant

  predicate Keyed(db: Rows) {
    && (forall r :: r in db.refs ==> db.refs[r].cid in db.objects)
    && (forall p :: p in db.replicas ==> p.0 in db.objects && p.1 in db.nodes)
    && (forall j :: j in db.jobs ==> j < db.nextJob && db.jobs[j].cid in db.objects && db.jobs[j].node in db.nodes)
  }

  /** An object is released exactly while nothing refers to it. */
  ghost predicate ObjectOk(o: Object) {
    o.generation >= 1 && o.refcount >= 0 && (o.refcount == 0 <==> o.releasedAt != 0)
  }

  ghost predicate ReplicaOk(o: Object, r: Replica) {
    && r.generation <= o.generation
    && (r.desired ==> r.generation == o.generation && !r.state.Unpinned?)
  }

  ghost predicate JobOk(o: Object, job: Job) {
    && job.generation <= o.generation
    && (job.Active() && !job.op.Verify? ==> job.generation == o.generation)
    && (job.state.Authorized? ==> job.op.Unpin?)
    && (job.Active() && job.op.Unpin? ==> (job.reason.TrimExtra? <==> o.refcount > 0))
    && (job.state.Stale? && (job.op.Pin? || job.op.Verify?) ==> job.generation < o.generation)
    && (job.state.Stale? && job.op.UnpinVerify? && job.generation == o.generation ==> o.refcount > 0)
    && (job.state.Done? ==> job.lease == 0)
  }

  ghost predicate Inv(db: Rows) {
    && Keyed(db)
    && (forall c :: c in db.objects ==> ObjectOk(db.objects[c]))
    && (forall p :: p in db.replicas ==> ReplicaOk(db.objects[p.0], db.replicas[p]))
    && (forall j :: j in db.jobs ==> JobOk(db.objects[db.jobs[j].cid], db.jobs[j]))
  }

  // ------------------------------------------------------------ steps

  /** A job row may be replaced by any row that is in order for its object. */
  lemma PutJobOk(db: Rows, j: JobId, job: Job)
    requires Inv(db) && j < db.nextJob && job.cid in db.objects && job.node in db.nodes
    requires JobOk(db.objects[job.cid], job)
    ensures Inv(PutJob(db, j, job))
  {
  }

  lemma AddJobOk(db: Rows, job: Job)
    requires Inv(db) && job.cid in db.objects && job.node in db.nodes
    requires JobOk(db.objects[job.cid], job)
    ensures Inv(AddJob(db, job))
  {
  }

  lemma PutReplicaOk(db: Rows, p: (Cid, NodeId), r: Replica)
    requires Inv(db) && p.0 in db.objects && p.1 in db.nodes && ReplicaOk(db.objects[p.0], r)
    ensures Inv(db.(replicas := db.replicas[p := r]))
  {
  }

  /** A new generation of an object that has no authorised job. */
  lemma NewGenerationOk(db: Rows, cid: Cid, obj: Object, replicas: map<(Cid, NodeId), Replica>)
    requires Inv(db) && cid in db.objects && ObjectOk(obj)
    requires obj.generation == db.objects[cid].generation + 1
    requires forall j :: j in db.jobs && db.jobs[j].cid == cid ==> !db.jobs[j].state.Authorized?
    requires replicas.Keys == db.replicas.Keys
    requires forall p :: p in replicas ==> ReplicaOk(if p.0 == cid then obj else db.objects[p.0], replicas[p])
    ensures Inv(StaleWaiting(db.(objects := db.objects[cid := obj], replicas := replicas), cid))
  {
    var db' := StaleWaiting(db.(objects := db.objects[cid := obj], replicas := replicas), cid);
    NewGenerationJobsOk(db, cid, obj, db');
    assert forall c :: c in db'.objects ==> ObjectOk(db'.objects[c]);
  }

  lemma NewGenerationJobsOk(db: Rows, cid: Cid, obj: Object, db': Rows)
    requires Inv(db) && cid in db.objects && obj.generation == db.objects[cid].generation + 1
    requires forall j :: j in db.jobs && db.jobs[j].cid == cid ==> !db.jobs[j].state.Authorized?
    requires db'.objects == db.objects[cid := obj] && db'.jobs == StaleWaiting(db, cid).jobs
    ensures forall j :: j in db'.jobs ==> JobOk(db'.objects[db'.jobs[j].cid], db'.jobs[j])
  {
    forall j | j in db'.jobs ensures JobOk(db'.objects[db'.jobs[j].cid], db'.jobs[j]) {
      assert JobOk(db.objects[db.jobs[j].cid], db.jobs[j]);
    }
  }

  /** The object row may change freely inside one generation while it stays referenced. */
  lemma PutObjectOk(db: Rows, cid: Cid, obj: Object)
    requires Inv(db) && ObjectOk(obj)
    requires cid in db.objects ==> obj.generation == db.objects[cid].generation
                                   && (obj.refcount > 0 <==> db.objects[cid].refcount > 0)
    ensures Inv(db.(objects := db.objects[cid := obj]))
  {
    var db' := db.(objects := db.objects[cid := obj]);
    forall j | j in db'.jobs ensures JobOk(db'.objects[db'.jobs[j].cid], db'.jobs[j]) {
      assert JobOk(db.objects[db.jobs[j].cid], db.jobs[j]);
    }
    forall p | p in db'.replicas ensures ReplicaOk(db'.objects[p.0], db'.replicas[p]) {
      assert ReplicaOk(db.objects[p.0], db.replicas[p]);
    }
  }

  lemma PutRefOk(db: Rows, r: RefId, ref: Reference)
    requires Inv(db) && ref.cid in db.objects
    ensures Inv(db.(refs := db.refs[r := ref]))
  {
  }

  lemma NoAuthorized(db: Rows, cid: Cid)
    requires Inv(db) && AuthorizedUnpins(db, cid) == {}
    ensures forall j :: j in db.jobs && db.jobs[j].cid == cid ==> !db.jobs[j].state.Authorized?
  {
    forall j | j in db.jobs && db.jobs[j].cid == cid ensures !db.jobs[j].state.Authorized? {
      assert j !in AuthorizedUnpins(db, cid);
      assert JobOk(db.objects[cid], db.jobs[j]);
    }
  }

  lemma FinalReleaseOk(db: Rows, now: int, cid: Cid)
    requires Inv(db) && cid in db.objects && now > 0 && AuthorizedUnpins(db, cid) == {}
    ensures Inv(FinalRelease(db, now, cid))
  {
    NoAuthorized(db, cid);
    var obj := db.objects[cid];
    var obj' := obj.(refcount := 0, releasedAt := now, generation := obj.generation + 1);
    var replicas := map p | p in db.replicas ::
      if p.0 != cid then db.replicas[p] else db.replicas[p].(desired := false, generation := obj'.generation);
    assert FinalRelease(db, now, cid)
        == StaleWaiting(db.(objects := db.objects[cid := obj'], replicas := replicas), cid);
    forall p | p in replicas ensures ReplicaOk(if p.0 == cid then obj' else db.objects[p.0], replicas[p]) {
      assert ReplicaOk(db.objects[p.0], db.replicas[p]);
    }
    NewGenerationOk(db, cid, obj', replicas);
  }

  lemma TombstoneOk(db: Rows, now: int, ref: Option<RefId>, db1: Rows)
    requires Inv(db) && (ref.Some? ==> ref.value in db.refs)
    requires db1 == if ref.Some? then db.(refs := db.refs[ref.value := db.refs[ref.value].(releasedAt := now)]) else db
    ensures Inv(db1)
  {
    if ref.Some? {
      PutRefOk(db, ref.value, db.refs[ref.value].(releasedAt := now));
    }
  }

  lemma ReleaseOk(db: Rows, now: int, cid: Cid, ref: Option<RefId>)
    requires Inv(db) && now > 0
    ensures Release(db, now, cid, ref).Ok? ==> Inv(Release(db, now, cid, ref).value.0)
  {
    var o := Release(db, now, cid, ref);
    if o.Ok? && o.value.1.Counted? {
      var obj := db.objects[cid];
      var db1 := if ref.Some? then db.(refs := db.refs[ref.value := db.refs[ref.value].(releasedAt := now)]) else db;
      TombstoneOk(db, now, ref, db1);
      assert AuthorizedUnpins(db1, cid) == AuthorizedUnpins(db, cid);
      if o.value.1.final {
        FinalReleaseOk(db1, now, cid);
      } else {
        PutObjectOk(db1, cid, obj.(refcount := obj.refcount - 1));
      }
    }
  }

  lemma RenumberOk(db: Rows, cid: Cid, obj: Object, resurrected: bool)
    requires Inv(db) && cid in db.objects && obj.generation == db.objects[cid].generation + 1
    ensures var rs := Renumber(db.replicas, cid, obj.generation, resurrected);
            forall p :: p in rs ==> ReplicaOk(if p.0 == cid then obj else db.objects[p.0], rs[p])
  {
    var rs := Renumber(db.replicas, cid, obj.generation, resurrected);
    forall p | p in rs ensures ReplicaOk(if p.0 == cid then obj else db.objects[p.0], rs[p]) {
      assert ReplicaOk(db.objects[p.0], db.replicas[p]);
    }
  }

  /** The second transaction of a registration; `db` is the database as it was before the new
      reference was counted on the object, `counted` that object's row afterwards. */
  lemma RegenerateOk(db: Rows, cid: Cid, counted: Object, before: Option<Object>)
    requires Inv(db) && cid in db.objects
    requires counted.generation == db.objects[cid].generation && counted.refcount > 0
    requires counted.releasedAt == db.objects[cid].releasedAt
    requires counted.releasedAt != 0 || (before.Some? && (counted.n != before.value.n || counted.m != before.value.m))
    requires forall j :: j in db.jobs && db.jobs[j].cid == cid ==> !db.jobs[j].state.Authorized?
    ensures Inv(Regenerate(db.(objects := db.objects[cid := counted]), cid, before))
  {
    var obj := counted.(generation := counted.generation + 1, releasedAt := 0);
    var resurrected := counted.releasedAt != 0;
    RenumberOk(db, cid, obj, resurrected);
    NewGenerationOk(db, cid, obj, Renumber(db.replicas, cid, obj.generation, resurrected));
    var db1 := db.(objects := db.objects[cid := counted]);
    assert db1.objects[cid := obj] == db.objects[cid := obj];
    assert Regenerate(db1, cid, before)
        == StaleWaiting(db.(objects := db.objects[cid := obj],
                            replicas := Renumber(db.replicas, cid, obj.generation, resurrected)), cid);
  }

  lemma AddSourceOk(db: Rows, now: int, cid: Cid, source: Option<NodeId>)
    requires Inv(db) && cid in db.objects
    ensures AddSource(db, now, cid, source).Ok? ==> Inv(AddSource(db, now, cid, source).value)
  {
    if source.Some? && source.value in db.nodes {
      PutReplicaOk(db, (cid, source.value), AddSource(db, now, cid, source).value.replicas[(cid, source.value)]);
    }
  }

  lemma RegisterOk(db: Rows, now: int, cid: Cid, size: int, n: int, m: int, source: Option<NodeId>, ref: Option<RefId>)
    requires Inv(db)
    ensures Register(db, now, cid, size, n, m, source, ref).Ok? ==>
      Inv(Register(db, now, cid, size, n, m, source, ref).value)
  {
    if Register(db, now, cid, size, n, m, source, ref).Ok? {
      var db1 := CountReference(db, cid, size, n, m, ref).value;
      var before := if cid in db.objects then Some(db.objects[cid]) else None;
      var known := (ref.Some? && ref.value in db.refs);
      if before.None? {
        PutObjectOk(db, cid, db1.objects[cid]);
        if ref.Some? {
          PutRefOk(db.(objects := db1.objects), ref.value, Reference(cid, 0));
        }
        AddSourceOk(db1, now, cid, source);
      } else if known {
        AddSourceOk(db1, now, cid, source);
      } else {
        RegisterAgainOk(db, now, cid, size, n, m, source, ref);
      }
    }
  }

  /** One more reference to a known object. */
  lemma RegisterAgainOk(db: Rows, now: int, cid: Cid, size: int, n: int, m: int, source: Option<NodeId>,
                        ref: Option<RefId>)
    requires Inv(db) && cid in db.objects && (ref.Some? ==> ref.value !in db.refs)
    requires Register(db, now, cid, size, n, m, source, ref).Ok?
    ensures Inv(Register(db, now, cid, size, n, m, source, ref).value)
  {
    var o := db.objects[cid];
    var counted := o.(refcount := o.refcount + 1, n := Max(o.n, n), m := Max(o.m, m));
    var db0 := if ref.Some? then db.(refs := db.refs[ref.value := Reference(cid, 0)]) else db;
    if ref.Some? {
      PutRefOk(db, ref.value, Reference(cid, 0));
    }
    AddSourceOk(db0, now, cid, source);
    var db1 := db0.(objects := db.objects[cid := counted]);
    assert CountReference(db, cid, size, n, m, ref) == Ok(db1);
    var db2 := AddSource(db0, now, cid, source).value;
    assert AddSource(db1, now, cid, source) == Ok(db2.(objects := db.objects[cid := counted]));
    if o.releasedAt != 0 || counted.n != o.n || counted.m != o.m {
      assert AuthorizedUnpins(db, cid) == {};
      NoAuthorized(db, cid);
      RegenerateOk(db2, cid, counted, Some(o));
    } else {
      PutObjectOk(db2, cid, counted);
    }
  }

  lemma CreateUnpinOk(db: Rows, now: int, cid: Cid, node: NodeId, g: int, reason: Reason, notBefore: int)
    requires Inv(db) && (reason.TrimExtra? || reason.Final?)
    ensures Inv(AfterCreateUnpin(db, now, cid, node, g, reason, notBefore))
  {
    if CreateUnpin(db, now, cid, node, g, reason, notBefore) == Ok(Some(db.nextJob)) {
      AddJobOk(db, UnpinJob(now, cid, node, g, reason, notBefore));
    }
  }

  lemma AuthorizeOk(db: Rows, node: NodeId, j: JobId, lease: int)
    requires Inv(db)
    ensures Inv(Authorize(db, node, j, lease))
  {
    if j in db.jobs {
      assert JobOk(db.objects[db.jobs[j].cid], db.jobs[j]);
    }
  }

  lemma CreatePinOk(db: Rows, now: int, cid: Cid, node: NodeId, class_: Class)
    requires Inv(db)
    ensures CreatePin(db, now, cid, node, class_).Ok? ==> Inv(CreatePin(db, now, cid, node, class_).value)
  {
    if cid in db.objects && node in db.nodes {
      var verified := if (cid, node) in db.replicas then db.replicas[(cid, node)].lastVerified else 0;
      var gen := db.objects[cid].generation;
      PutReplicaOk(db, (cid, node), Replica(true, Assigned, class_, gen, verified));
      AddJobOk(db.(replicas := db.replicas[(cid, node) := Replica(true, Assigned, class_, gen, verified)]),
               Job(cid, node, Pin, gen, Pending, 0, now, 0, now, NoReason));
    }
  }

  lemma ReportOk(db: Rows, now: int, node: NodeId, rep: Report)
    requires Inv(db)
    ensures Inv(AfterReport(db, now, node, rep))
  {
    match Judge(db, now, node, rep)
    case Fence =>
      var job := db.jobs[rep.job];
      assert JobOk(db.objects[job.cid], job);
      PutJobOk(db, rep.job, job.(state := Stale));
    case Apply =>
      var job := db.jobs[rep.job];
      assert JobOk(db.objects[job.cid], job);
      PutJobOk(db, rep.job, JobAfter(job, now, rep.said));
      var key := (job.cid, job.node);
      if key in db.replicas {
        PutReplicaOk(PutJob(db, rep.job, JobAfter(job, now, rep.said)), key,
                     ReplicaAfter(db.replicas[key], job.op, now, rep.said));
      }
    case _ =>
  }

  lemma RecoverOneOk(db: Rows, now: int, j: JobId)
    requires Inv(db) && j in db.jobs && db.jobs[j].op.Unpin? && db.jobs[j].state.Authorized?
    ensures Inv(RecoverOne(db, now, j))
  {
    var job := db.jobs[j];
    assert JobOk(db.objects[job.cid], job);
    PutJobOk(db, j, job.(state := Stale));
    AddJobOk(SetState(db, j, Stale),
             Job(job.cid, job.node, UnpinVerify, job.generation, Pending, 0, 0, 0, now, AfterCrash));
  }

  /** `db'` differs from `db` only in jobs: those in `ids` are stale, some follow-ups are new. */
  ghost predicate Recovered(db: Rows, db': Rows, ids: seq<JobId>) {
    && db'.objects == db.objects && db'.replicas == db.replicas && db'.refs == db.refs && db'.nodes == db.nodes
    && db.jobs.Keys <= db'.jobs.Keys && db.nextJob <= db'.nextJob
    && (forall j :: j in db.jobs ==>
          db'.jobs[j] == if j in ids then db.jobs[j].(state := Stale) else db.jobs[j])
    && (forall j :: j in db'.jobs && j !in db.jobs ==>
          db.nextJob <= j && db'.jobs[j].op.UnpinVerify? && db'.jobs[j].state.Pending?
          && db'.jobs[j].lease == 0 && db'.jobs[j].attempts == 0)
  }

  lemma RecoverOneRecovered(db: Rows, db1: Rows, now: int, front: seq<JobId>, j: JobId)
    requires Recovered(db, db1, front) && j in db.jobs && j !in front
    requires forall i :: i in db.jobs ==> i < db.nextJob
    ensures Recovered(db, RecoverOne(db1, now, j), front + [j])
  {
    var db2 := SetState(db1, j, Stale);
    StaledRecovered(db, db1, front, j);
    var job := db1.jobs[j];
    AddedRecovered(db, db2, front + [j],
                   Job(job.cid, job.node, UnpinVerify, job.generation, Pending, 0, 0, 0, now, AfterCrash));
  }

  lemma StaledRecovered(db: Rows, db1: Rows, front: seq<JobId>, j: JobId)
    requires Recovered(db, db1, front) && j in db.jobs && j !in front
    ensures Recovered(db, SetState(db1, j, Stale), front + [j])
  {
  }

  lemma AddedRecovered(db: Rows, db1: Rows, ids: seq<JobId>, job: Job)
    requires Recovered(db, db1, ids) && forall i :: i in db.jobs ==> i < db.nextJob
    requires job.op.UnpinVerify? && job.state.Pending? && job.lease == 0 && job.attempts == 0
    ensures Recovered(db, AddJob(db1, job), ids)
  {
  }

  /** Recovery handles the listed jobs one by one and touches nothing else. */
  lemma {:induction false} RecoverAllOk(db: Rows, now: int, ids: seq<JobId>)
    requires Inv(db)
    requires forall i, k :: 0 <= i < k < |ids| ==> ids[i] != ids[k]
    requires forall j :: j in ids ==> j in db.jobs && db.jobs[j].op.Unpin? && db.jobs[j].state.Authorized?
    ensures Inv(RecoverAll(db, now, ids)) && Recovered(db, RecoverAll(db, now, ids), ids)
  {
    if ids != [] {
      var front, j := ids[..|ids| - 1], ids[|ids| - 1];
      RecoverAllOk(db, now, front);
      assert ids == front + [j] && j !in front;
      RecoverOneOk(RecoverAll(db, now, front), now, j);
      RecoverOneRecovered(db, RecoverAll(db, now, front), now, front, j);
    }
  }

  // ------------------------------------------------------------ what the compound steps change

  /** Only the object `cid` moves; if it moves to a new generation its waiting jobs turn stale,
      and otherwise no job changes. */
  ghost predicate MovesOnly(db: Rows, db': Rows, cid: Cid) {
    && db'.nodes == db.nodes && db'.nextJob == db.nextJob
    && cid in db'.objects && db'.objects == db.objects[cid := db'.objects[cid]]
    && (cid in db.objects ==> db.objects[cid].generation <= db'.objects[cid].generation)
    && db'.jobs.Keys == db.jobs.Keys
    && (forall j :: j in db.jobs ==>
          db'.jobs[j] == if cid in db.objects && db.objects[cid].generation < db'.objects[cid].generation
                            && db.jobs[j].cid == cid && db.jobs[j].Waiting()
                         then db.jobs[j].(state := Stale) else db.jobs[j])
    && (forall p :: p in db.replicas && p.0 != cid ==> p in db'.replicas && db'.replicas[p] == db.replicas[p])
    && (forall p :: p in db'.replicas && p.0 != cid ==> p in db.replicas)
  }

  lemma RegenerateMoves(db: Rows, cid: Cid, before: Option<Object>)
    requires cid in db.objects
    ensures var db' := Regenerate(db, cid, before);
            && MovesOnly(db, db', cid) && db'.refs == db.refs
            && db'.objects[cid].refcount == db.objects[cid].refcount
            && db'.objects[cid].n == db.objects[cid].n && db'.objects[cid].m == db.objects[cid].m
  {
  }

  /** What an accepted registration does to references and to the object's count. */
  lemma RegisterMoves(db: Rows, now: int, cid: Cid, size: int, n: int, m: int, source: Option<NodeId>,
                      ref: Option<RefId>)
    requires Keyed(db) && Register(db, now, cid, size, n, m, source, ref).Ok?
    ensures var db' := Register(db, now, cid, size, n, m, source, ref).value;
            var known := ref.Some? && ref.value in db.refs;
            && MovesOnly(db, db', cid)
            && db'.refs == (if ref.Some? && !known then db.refs[ref.value := Reference(cid, 0)] else db.refs)
            && db'.objects[cid].refcount ==
                 (if cid in db.objects then db.objects[cid].refcount else 0) + (if known then 0 else 1)
            && (cid in db.objects && AuthorizedUnpins(db, cid) != {} ==>
                  db.objects[cid].refcount != 0
                  && db'.objects[cid].n == db.objects[cid].n && db'.objects[cid].m == db.objects[cid].m)
  {
    var before := if cid in db.objects then Some(db.objects[cid]) else None;
    var db1 := CountReference(db, cid, size, n, m, ref).value;
    var db2 := AddSource(db1, now, cid, source).value;
    SourcedMoves(db, db1, db2, now, cid, size, n, m, source, ref);
    RegenerateMoves(db2, cid, before);
    MovesTwice(db, db2, Regenerate(db2, cid, before), cid);
  }

  /** The part of a registration before the generation is looked at. */
  lemma SourcedMoves(db: Rows, db1: Rows, db2: Rows, now: int, cid: Cid, size: int, n: int, m: int,
                     source: Option<NodeId>, ref: Option<RefId>)
    requires Keyed(db) && CountReference(db, cid, size, n, m, ref) == Ok(db1)
    requires cid in db1.objects && AddSource(db1, now, cid, source) == Ok(db2)
    ensures var known := ref.Some? && ref.value in db.refs;
            && MovesOnly(db, db2, cid) && db2.jobs == db.jobs
            && (cid in db.objects ==> db2.objects[cid].generation == db.objects[cid].generation)
            && db2.refs == (if ref.Some? && !known then db.refs[ref.value := Reference(cid, 0)] else db.refs)
            && db2.objects[cid].refcount ==
                 (if cid in db.objects then db.objects[cid].refcount else 0) + (if known then 0 else 1)
            && (cid in db.objects && n <= db.objects[cid].n && m <= db.objects[cid].m ==>
                  db2.objects[cid].n == db.objects[cid].n && db2.objects[cid].m == db.objects[cid].m)
  {
  }

  lemma MovesTwice(db: Rows, db1: Rows, db2: Rows, cid: Cid)
    requires MovesOnly(db, db1, cid) && db1.jobs == db.jobs && MovesOnly(db1, db2, cid)
    requires cid in db.objects ==> db1.objects[cid].generation == db.objects[cid].generation
    requires cid !in db.objects ==> forall j :: j in db.jobs ==> db.jobs[j].cid != cid
    ensures MovesOnly(db, db2, cid)
  {
  }

  lemma ReleaseMoves(db: Rows, now: int, cid: Cid, ref: Option<RefId>)
    requires Release(db, now, cid, ref).Ok? && Release(db, now, cid, ref).value.1.Counted?
    ensures var (db', r) := Release(db, now, cid, ref).value;
            && MovesOnly(db, db', cid) && cid in db.objects
            && db'.refs == (if ref.Some? then db.refs[ref.value := db.refs[ref.value].(releasedAt := now)] else db.refs)
            && db'.objects[cid].refcount == Max(0, db.objects[cid].refcount - 1) == r.refcount
            && (AuthorizedUnpins(db, cid) != {} ==>
                  db' == db.(refs := db'.refs, objects := db'.objects)
                  && db'.objects[cid] == db.objects[cid].(refcount := r.refcount) && r.refcount > 0)
  {
  }

  /** Every step keeps the invariant. */
  lemma NextOk(db: Rows, e: Event, db': Rows)
    requires Inv(db) && Possible(db, e) && db' == Next(db, e)
    ensures Inv(db')
  {
    match e
    case RegisterEvent(now, cid, size, n, m, source, ref) => RegisterOk(db, now, cid, size, n, m, source, ref);
    case ReleaseEvent(now, cid, ref) => ReleaseOk(db, now, cid, ref);
    case PlanUnpin(now, cid, node, g, reason, notBefore) => CreateUnpinOk(db, now, cid, node, g, reason, notBefore);
    case AuthorizeEvent(_, node, j, lease) => AuthorizeOk(db, node, j, lease);
    case PlanPin(now, cid, node, class_) => CreatePinOk(db, now, cid, node, class_);
    case ReportEvent(now, node, rep) => ReportOk(db, now, node, rep);
    case Recover(now, ids) => RecoverAllOk(db, now, ids);
    case _ => QuietOk(db, e, db');
  }

  lemma QuietOk(db: Rows, e: Event, db': Rows)
    requires Inv(db) && Possible(db, e) && db' == Next(db, e)
    requires e.UpsertNode? || e.MarkEvent? || e.Poll? || e.PlanVerify?
    ensures Inv(db')
  {
    match e
    case PlanVerify(now, cid, node, g) =>
      if cid in db.objects && node in db.nodes {
        AddJobOk(db, Job(cid, node, Verify, g, Pending, 0, now, 0, now, NoReason));
      }
    case MarkEvent(_, cid, node, state) =>
      if (cid, node) in db.replicas {
        PutReplicaOk(db, (cid, node), db.replicas[(cid, node)].(state := state));
      }
    case Poll(now, node, ids) => DeliverOk(db, now, node, ids);
    case UpsertNode(_, node, class_) => UpsertOk(db, node, class_);
  }

  lemma DeliverOk(db: Rows, now: int, node: NodeId, ids: set<JobId>)
    requires Inv(db) && forall j :: j in ids ==> j in db.jobs && Due(db.jobs[j], node, now)
    ensures Inv(Deliver(db, now, ids))
  {
    var db' := Deliver(db, now, ids);
    forall j | j in db'.jobs ensures JobOk(db'.objects[db'.jobs[j].cid], db'.jobs[j]) {
      assert JobOk(db.objects[db.jobs[j].cid], db.jobs[j]);
    }
  }

  lemma UpsertOk(db: Rows, node: NodeId, class_: Class)
    requires Inv(db)
    ensures Inv(db.(nodes := db.nodes[node := class_]))
  {
  }

  lemma {:induction false} RunOk(events: seq<Event>)
    ensures Inv(Run(events))
  {
    if events != [] {
      var db := Run(events[..|events| - 1]);
      RunOk(events[..|events| - 1]);
      if Possible(db, events[|events| - 1]) {
        NextOk(db, events[|events| - 1], Next(db, events[|events| - 1]));
      }
    }
  }
}
