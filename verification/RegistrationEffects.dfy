/** What an accepted registration or release does to the rows, said of the rows themselves. */
module RegistrationEffects {
  import opened Options
  import opened Lifecycle
  import opened LifecycleSafety
  import opened LifecycleTheorems

  datatype Registration = Registration(now: int, cid: Cid, size: int, n: int, m: int, source: Option<NodeId>,
                                       ref: Option<RefId>)

  function AsEvent(r: Registration): Event {
    RegisterEvent(r.now, r.cid, r.size, r.n, r.m, r.source, r.ref)
  }

  function Attempt(db: Rows, r: Registration): Outcome<Rows> {
    Register(db, r.now, r.cid, r.size, r.n, r.m, r.source, r.ref)
  }

  predicate Accepted(db: Rows, r: Registration) {
    Attempt(db, r).Ok?
  }

  /** The reference id has been seen before. */
  predicate Known(db: Rows, r: Registration) {
    r.ref.Some? && r.ref.value in db.refs
  }

  /** An UNPIN of the object has been authorised and not been reported. */
  ghost predicate Removing(db: Rows, cid: Cid) {
    exists j :: j in db.jobs && db.jobs[j].cid == cid && db.jobs[j].op.Unpin? && db.jobs[j].state.Authorized?
  }

  // ------------------------------------------------------------ acceptance

  /** A registration is accepted exactly if no removal is under way that it would contradict, its
      reference id is not another object's, its size agrees and its source is known. */
  lemma AcceptedExactlyIf(db: Rows, r: Registration)
    requires Keyed(db)
    ensures Accepted(db, r) <==>
      && !(r.cid in db.objects && Removing(db, r.cid)
           && (db.objects[r.cid].refcount == 0 || r.n > db.objects[r.cid].n || r.m > db.objects[r.cid].m))
      && (Known(db, r) ==> db.refs[r.ref.value].cid == r.cid)
      && (!Known(db, r) && r.cid in db.objects ==> db.objects[r.cid].size == r.size)
      && (r.source.Some? ==> r.source.value in db.nodes)
  {
    RemovingMeans(db, r.cid);
  }

  /** Why a registration is refused, in the order of the checks. */
  lemma RefusedBecause(db: Rows, r: Registration)
    requires Keyed(db)
    ensures var had := r.cid in db.objects;
            if had && Removing(db, r.cid)
               && (db.objects[r.cid].refcount == 0 || r.n > db.objects[r.cid].n || r.m > db.objects[r.cid].m)
            then Attempt(db, r) == Refused(Conflict)
            else if Known(db, r) && db.refs[r.ref.value].cid != r.cid then Attempt(db, r) == Refused(WrongCid)
            else if !Known(db, r) && had && db.objects[r.cid].size != r.size then Attempt(db,
                r) == Refused(SizeMismatch)
            else if r.source.Some? && r.source.value !in db.nodes then Attempt(db, r) == Refused(UnknownNode)
            else Accepted(db, r)
  {
    RemovingMeans(db, r.cid);
  }

  lemma RemovingMeans(db: Rows, cid: Cid)
    ensures Removing(db, cid) <==> AuthorizedUnpins(db, cid) != {}
  {
    if Removing(db, cid) {
      var j :| j in db.jobs && db.jobs[j].cid == cid && db.jobs[j].op.Unpin? && db.jobs[j].state.Authorized?;
      assert j in AuthorizedUnpins(db, cid);
    }
  }

  /** A refused registration changes nothing. */
  lemma RefusedChangesNothing(db: Rows, r: Registration)
    requires !Accepted(db, r)
    ensures Next(db, AsEvent(r)) == db
  {
  }

  lemma AcceptedNext(db: Rows, r: Registration)
    requires Accepted(db, r)
    ensures Next(db, AsEvent(r)) == Attempt(db, r).value
  {
  }

  // ------------------------------------------------------------ the object

  /** The object comes back: it was released and is referenced again. */
  predicate Resurrects(db: Rows, r: Registration) {
    r.cid in db.objects && db.objects[r.cid].releasedAt != 0 && !Known(db, r) && db.objects[r.cid].refcount >= 0
  }

  /** A new reference asks for more copies than the object had. */
  predicate RaisesPolicy(db: Rows, r: Registration) {
    r.cid in db.objects && !Known(db, r) && (r.n > db.objects[r.cid].n || r.m > db.objects[r.cid].m)
  }

  /** The first registration stores what it was given. */
  lemma FirstRegistration(db: Rows, r: Registration)
    requires Keyed(db) && Accepted(db, r) && r.cid !in db.objects
    ensures var db' := Next(db, AsEvent(r));
            && r.cid in db'.objects && db'.objects[r.cid] == Object(r.size, r.n, r.m, 1, 1, 0)
            && !Known(db, r)
  {
  }

  /** The rows between the two transactions: the reference is counted and the source recorded. */
  function FirstTransaction(db: Rows, r: Registration): Rows
    requires Accepted(db, r)
  {
    AddSource(CountReference(db, r.cid, r.size, r.n, r.m, r.ref).value, r.now, r.cid, r.source).value
  }

  function ObjectBefore(db: Rows, r: Registration): Option<Object> {
    if r.cid in db.objects then Some(db.objects[r.cid]) else None
  }

  lemma TwoTransactions(db: Rows, r: Registration)
    requires Keyed(db) && Accepted(db, r)
    ensures var mid := FirstTransaction(db, r);
            && r.cid in mid.objects && Attempt(db, r).value == Regenerate(mid, r.cid, ObjectBefore(db, r))
  {
  }

  lemma CountedObject(db: Rows, r: Registration)
    requires Keyed(db) && Accepted(db, r) && r.cid in db.objects
    ensures var was := db.objects[r.cid];
            && r.cid in FirstTransaction(db, r).objects
            && FirstTransaction(db, r).objects[r.cid] ==
                 if Known(db, r) then was
                 else was.(refcount := was.refcount + 1, n := if r.n > was.n then r.n else was.n,
                           m := if r.m > was.m then r.m else was.m)
  {
  }

  lemma CountedCopies(db: Rows, r: Registration, x: NodeId)
    requires Keyed(db) && Accepted(db, r) && r.source != Some(x)
    ensures var mid := FirstTransaction(db, r);
            && ((r.cid, x) in mid.replicas <==> (r.cid, x) in db.replicas)
            && ((r.cid, x) in db.replicas ==> mid.replicas[(r.cid, x)] == db.replicas[(r.cid, x)])
  {
  }

  /** The second transaction, on the object and on one copy. */
  lemma RenewedRows(db: Rows, cid: Cid, before: Option<Object>, x: NodeId)
    requires cid in db.objects
    ensures var was := db.objects[cid];
            var back := was.refcount > 0 && was.releasedAt != 0;
            var renewed := back || (before.Some? && (was.n != before.value.n || was.m != before.value.m));
            var db' := Regenerate(db, cid, before);
            && cid in db'.objects
            && db'.objects[cid] == (if renewed then was.(generation := was.generation + 1, releasedAt := 0) else was)
            && ((cid, x) in db'.replicas <==> (cid, x) in db.replicas)
            && ((cid, x) in db.replicas ==>
                  db'.replicas[(cid, x)] ==
                    if !renewed || (back && db.replicas[(cid, x)].state.Unpinned?) then db.replicas[(cid, x)]
                    else db.replicas[(cid, x)].(desired := back || db.replicas[(cid, x)].desired,
                                                generation := was.generation + 1))
  {
  }

  /** A further registration counts one more reference unless its id is known, takes over a larger
      policy, and starts a new generation exactly if it brings the object back or raises its policy. */
  lemma FurtherRegistration(db: Rows, r: Registration)
    requires Inv(db) && Accepted(db, r) && r.cid in db.objects
    ensures var db' := Next(db, AsEvent(r));
            && r.cid in db'.objects
            && var (was, after) := (db.objects[r.cid], db'.objects[r.cid]);
               var renewed := Resurrects(db, r) || RaisesPolicy(db, r);
               && after.size == was.size
               && after.refcount == was.refcount + (if Known(db, r) then 0 else 1)
               && after.n == (if !Known(db, r) && r.n > was.n then r.n else was.n)
               && after.m == (if !Known(db, r) && r.m > was.m then r.m else was.m)
               && after.generation == was.generation + (if renewed then 1 else 0)
               && after.releasedAt == (if renewed then 0 else was.releasedAt)
  {
    assert ObjectOk(db.objects[r.cid]);
    AcceptedNext(db, r);
    TwoTransactions(db, r);
    CountedObject(db, r);
    RenewedRows(FirstTransaction(db, r), r.cid, ObjectBefore(db, r), 0);
  }

  // ------------------------------------------------------------ the copies

  /** A row that was there keeps its class, a new one takes the node's. */
  function SourceClass(db: Rows, r: Registration): Class
    requires r.source.Some? && r.source.value in db.nodes
  {
    var key := (r.cid, r.source.value);
    if key in db.replicas then db.replicas[key].class_ else db.nodes[r.source.value]
  }

  /** The registering node's copy: wanted, confirmed now, of the current generation. */
  lemma SourceIsConfirmed(db: Rows, r: Registration)
    requires Inv(db) && Accepted(db, r) && r.source.Some?
    ensures var db' := Next(db, AsEvent(r));
            var key := (r.cid, r.source.value);
            && r.source.value in db.nodes && key in db'.replicas && r.cid in db'.objects
            && db'.replicas[key] == Replica(true, Pinned, SourceClass(db, r), db'.objects[r.cid].generation, r.now)
            && r.source.value in PinnedNodes(db', r.cid)
  {
    var db' := Next(db, AsEvent(r));
    var key := (r.cid, r.source.value);
    assert key in db'.replicas && db'.replicas[key].desired && db'.replicas[key].state.Pinned?;
  }

  /** Every other copy of the object. When the object comes back, a copy that is not gone is wanted
      again, in the new generation; a copy that is gone stays as it was. When only the policy was
      raised, all copies move to the new generation. Otherwise nothing changes. */
  lemma OtherCopies(db: Rows, r: Registration, x: NodeId)
    requires Inv(db) && Accepted(db, r) && r.source != Some(x)
    ensures var db' := Next(db, AsEvent(r));
            var key := (r.cid, x);
            && (key in db'.replicas <==> key in db.replicas)
            && (key in db.replicas ==>
                  var (was, after) := (db.replicas[key], db'.replicas[key]);
                  var generation := db'.objects[r.cid].generation;
                  && after.state == was.state && after.class_ == was.class_ && after.lastVerified == was.lastVerified
                  && if Resurrects(db, r)
                     then if was.state.Unpinned? then after == was else after.desired && after.generation == generation
                     else after.desired == was.desired
                          && after.generation == if RaisesPolicy(db, r) then generation else was.generation)
  {
    AcceptedNext(db, r);
    TwoTransactions(db, r);
    CountedCopies(db, r, x);
    RenewedRows(FirstTransaction(db, r), r.cid, ObjectBefore(db, r), x);
    if r.cid in db.objects {
      assert ObjectOk(db.objects[r.cid]);
      CountedObject(db, r);
    }
  }

  /** When an object comes back, the copies not wanted are exactly the ones that are gone. */
  lemma ResurrectionWantsWhatIsLeft(db: Rows, r: Registration)
    requires Inv(db) && Accepted(db, r) && Resurrects(db, r)
    ensures var db' := Next(db, AsEvent(r));
            && r.cid in db'.objects && db'.objects[r.cid].refcount > 0 && db'.objects[r.cid].releasedAt == 0
            && db'.objects[r.cid].generation == db.objects[r.cid].generation + 1
            && forall x :: (r.cid, x) in db'.replicas ==>
                 (!db'.replicas[(r.cid, x)].desired <==> db'.replicas[(r.cid, x)].state.Unpinned?)
  {
    var db' := Next(db, AsEvent(r));
    FurtherRegistration(db, r);
    assert ObjectOk(db.objects[r.cid]);
    forall x | (r.cid, x) in db'.replicas
      ensures !db'.replicas[(r.cid, x)].desired <==> db'.replicas[(r.cid, x)].state.Unpinned?
    {
      if r.source == Some(x) {
        SourceIsConfirmed(db, r);
      } else {
        OtherCopies(db, r, x);
        assert ReplicaOk(db.objects[r.cid], db.replicas[(r.cid, x)]);
      }
    }
  }

  /** In every run, right after a registration that brings an object back. */
  lemma ResurrectionOverRuns(events: seq<Event>, r: Registration)
    requires Accepted(Run(events), r) && Resurrects(Run(events), r)
    ensures var db := Run(events + [AsEvent(r)]);
            && r.cid in db.objects && db.objects[r.cid].refcount > 0 && db.objects[r.cid].releasedAt == 0
            && forall x :: (r.cid, x) in db.replicas ==>
                 (!db.replicas[(r.cid, x)].desired <==> db.replicas[(r.cid, x)].state.Unpinned?)
  {
    RunOk(events);
    RunStep(events, [], AsEvent(r));
    assert events + [] == events && [] + [AsEvent(r)] == [AsEvent(r)];
    ResurrectionWantsWhatIsLeft(Run(events), r);
  }

  // ------------------------------------------------------------ everything else

  /** The new generation fences: every waiting job of the object turns stale. */
  function Fenced(job: Job, cid: Cid): Job {
    if job.cid == cid && (job.state == Pending || job.state == Retry) then job.(state := Stale) else job
  }

  lemma RenewedRest(db: Rows, cid: Cid, before: Option<Object>)
    requires cid in db.objects
    ensures var was := db.objects[cid];
            var renewed := || (was.refcount > 0 && was.releasedAt != 0)
                           || (before.Some? && (was.n != before.value.n || was.m != before.value.m));
            var db' := Regenerate(db, cid, before);
            && db'.nodes == db.nodes && db'.refs == db.refs && db'.nextJob == db.nextJob
            && db'.jobs.Keys == db.jobs.Keys && db'.objects.Keys == db.objects.Keys
            && (forall j :: j in db.jobs ==> db'.jobs[j] == if renewed then Fenced(db.jobs[j], cid) else db.jobs[j])
            && (forall c :: c in db.objects && c != cid ==> db'.objects[c] == db.objects[c])
            && (forall p: (Cid, NodeId) :: p.0 != cid ==> (p in db'.replicas <==> p in db.replicas))
            && (forall p :: p in db.replicas && p.0 != cid ==> db'.replicas[p] == db.replicas[p])
  {
  }

  /** Only rows of this object and of this reference may differ. */
  ghost predicate SameElsewhere(db: Rows, db': Rows, cid: Cid) {
    && db'.nodes == db.nodes && db'.jobs == db.jobs && db'.nextJob == db.nextJob
    && (forall c :: c != cid ==> (c in db'.objects <==> c in db.objects))
    && (forall c :: c in db.objects && c != cid ==> db'.objects[c] == db.objects[c])
    && (forall p: (Cid, NodeId) :: p.0 != cid ==> (p in db'.replicas <==> p in db.replicas))
    && (forall p :: p in db.replicas && p.0 != cid ==> db'.replicas[p] == db.replicas[p])
  }

  lemma CountedElsewhere(db: Rows, r: Registration)
    requires CountReference(db, r.cid, r.size, r.n, r.m, r.ref).Ok?
    ensures var mid := CountReference(db, r.cid, r.size, r.n, r.m, r.ref).value;
            && SameElsewhere(db, mid, r.cid)
            && mid.refs == if r.ref.Some? && !Known(db, r) then db.refs[r.ref.value := Reference(r.cid, 0)] else db.refs
  {
  }

  lemma SourcedElsewhere(db: Rows, r: Registration)
    requires r.cid in db.objects && AddSource(db, r.now, r.cid, r.source).Ok?
    ensures var mid := AddSource(db, r.now, r.cid, r.source).value;
            SameElsewhere(db, mid, r.cid) && mid.refs == db.refs
  {
  }

  lemma CountedRest(db: Rows, r: Registration)
    requires Accepted(db, r)
    ensures var mid := FirstTransaction(db, r);
            && SameElsewhere(db, mid, r.cid)
            && mid.refs == if r.ref.Some? && !Known(db, r) then db.refs[r.ref.value := Reference(r.cid, 0)] else db.refs
  {
    CountedElsewhere(db, r);
    SourcedElsewhere(CountReference(db, r.cid, r.size, r.n, r.m, r.ref).value, r);
  }

  /** A new reference id is recorded as live; a new generation turns the waiting jobs of the object
      stale; the rows of other objects stay as they were. */
  lemma RestOfTheRows(db: Rows, r: Registration)
    requires Inv(db) && Accepted(db, r)
    ensures var db' := Next(db, AsEvent(r));
            var renewed := Resurrects(db, r) || RaisesPolicy(db, r);
            && db'.nodes == db.nodes && db'.jobs.Keys == db.jobs.Keys && db'.nextJob == db.nextJob
            && db'.refs == (if r.ref.Some? && !Known(db, r) then db.refs[r.ref.value := Reference(r.cid,
                0)] else db.refs)
            && (forall j :: j in db.jobs ==> db'.jobs[j] == if renewed then Fenced(db.jobs[j], r.cid) else db.jobs[j])
            && (forall c :: c != r.cid ==> (c in db'.objects <==> c in db.objects))
            && (forall c :: c in db.objects && c != r.cid ==> db'.objects[c] == db.objects[c])
            && (forall p: (Cid, NodeId) :: p.0 != r.cid ==> (p in db'.replicas <==> p in db.replicas))
            && (forall p :: p in db.replicas && p.0 != r.cid ==> db'.replicas[p] == db.replicas[p])
  {
    AcceptedNext(db, r);
    TwoTransactions(db, r);
    CountedRest(db, r);
    RenewedRest(FirstTransaction(db, r), r.cid, ObjectBefore(db, r));
    if r.cid in db.objects {
      assert ObjectOk(db.objects[r.cid]);
      CountedObject(db, r);
    }
  }

  // ------------------------------------------------------------ release

  /** What a release answers, and when it is refused. */
  lemma ReleaseAnswers(db: Rows, now: int, cid: Cid, ref: Option<RefId>)
    requires Keyed(db)
    ensures var o := Release(db, now, cid, ref);
            var known := ref.Some? && ref.value in db.refs;
            var live := known && db.refs[ref.value].releasedAt == 0;
            if cid !in db.objects then o == Ok((db, NotFound))
            else if known && db.refs[ref.value].cid != cid then o == Refused(WrongCid)
            else if (ref.Some? && !live) || (ref.None? && db.objects[cid].refcount <= 0) then o == Ok((db, Unchanged))
            else if db.objects[cid].refcount <= 1 && Removing(db, cid) then o == Refused(Conflict)
            else o.Ok? && o.value.1 == if db.objects[cid].refcount <= 1
                                       then Counted(0, true, db.objects[cid].generation + 1)
                                       else Counted(db.objects[cid].refcount - 1, false, db.objects[cid].generation)
  {
    RemovingMeans(db, cid);
  }

  /** One reference of several goes: the count falls by one, the reference is tombstoned, and
      nothing else changes. */
  lemma PartialRelease(db: Rows, now: int, cid: Cid, ref: Option<RefId>)
    requires Release(db, now, cid, ref).Ok? && Release(db, now, cid, ref).value.1.Counted?
    requires !Release(db, now, cid, ref).value.1.final
    ensures cid in db.objects && (ref.Some? ==> ref.value in db.refs)
    ensures var db' := Next(db, ReleaseEvent(now, cid, ref));
            && db'.objects == db.objects[cid := db.objects[cid].(refcount := db.objects[cid].refcount - 1)]
            && db'.refs == (if ref.Some? then db.refs[ref.value := Reference(db.refs[ref.value].cid, now)] else db.refs)
            && db'.replicas == db.replicas && db'.jobs == db.jobs
  {
  }

  /** The last reference goes: a new generation in which no copy is wanted, each otherwise as before,
      and no job of the object waits. */
  lemma LastRelease(db: Rows, now: int, cid: Cid, ref: Option<RefId>)
    requires Release(db, now, cid, ref).Ok? && Release(db, now, cid, ref).value.1.Counted?
    requires Release(db, now, cid, ref).value.1.final
    ensures cid in db.objects && (ref.Some? ==> ref.value in db.refs)
    ensures var db' := Next(db, ReleaseEvent(now, cid, ref));
            var gen := db.objects[cid].generation + 1;
            && db'.objects == db.objects[cid := db.objects[cid].(refcount := 0, releasedAt := now, generation := gen)]
            && db'.refs == (if ref.Some? then db.refs[ref.value := Reference(db.refs[ref.value].cid, now)] else db.refs)
            && db'.replicas.Keys == db.replicas.Keys && db'.jobs.Keys == db.jobs.Keys
            && (forall x :: (cid, x) in db.replicas ==>
                  db'.replicas[(cid, x)] == db.replicas[(cid, x)].(desired := false, generation := gen))
            && (forall p :: p in db.replicas && p.0 != cid ==> db'.replicas[p] == db.replicas[p])
            && (forall j :: j in db.jobs ==>
                  db'.jobs[j] == if db.jobs[j].cid == cid && (db.jobs[j].state == Pending || db.jobs[j].state == Retry)
                                 then db.jobs[j].(state := Stale) else db.jobs[j])
            && PinnedNodes(db', cid) == {}
  {
  }

  /** In every run, right after the last reference went: nothing is wanted, nothing waits, nothing is
      authorised. */
  lemma LastReleaseOverRuns(events: seq<Event>, now: int, cid: Cid, ref: Option<RefId>)
    requires now > 0 && Release(Run(events), now, cid, ref).Ok?
    requires Release(Run(events), now, cid, ref).value.1.Counted? && Release(Run(events), now, cid, ref).value.1.final
    ensures var db := Run(events + [ReleaseEvent(now, cid, ref)]);
            && (forall x :: (cid, x) in db.replicas ==> !db.replicas[(cid, x)].desired)
            && (forall j :: j in db.jobs && db.jobs[j].cid == cid ==> db.jobs[j].state.Done? || db.jobs[j].state.Stale?)
  {
    var db := Run(events);
    var e := ReleaseEvent(now, cid, ref);
    RunOk(events);
    RunStep(events, [], e);
    assert events + [] == events && [] + [e] == [e];
    LastRelease(db, now, cid, ref);
    forall j | j in db.jobs && db.jobs[j].cid == cid ensures !db.jobs[j].state.Authorized? {
      NoAuthorized(db, cid);
    }
  }
}
