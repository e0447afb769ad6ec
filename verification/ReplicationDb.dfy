/** The replication database: methods that update rows in place, each equal to one event of
    module Lifecycle. */
module ReplicationDb {
  import opened Arithmetic
  import opened Options
  import opened Lifecycle

  function DueJobs(db: Rows, node: NodeId, now: int): set<JobId> {
    set j | j in db.jobs && Due(db.jobs[j], node, now)
  }

  lemma {:induction false} OldestExists(ids: set<JobId>, jobs: map<JobId, Job>) returns (oldest: JobId)
    requires ids != {} && ids <= jobs.Keys
    ensures oldest in ids && forall k :: k in ids ==> jobs[oldest].createdAt <= jobs[k].createdAt
  {
    var j :| j in ids;
    if ids == {j} {
      oldest := j;
    } else {
      var rest := OldestExists(ids - {j}, jobs);
      oldest := if jobs[j].createdAt <= jobs[rest].createdAt then j else rest;
    }
  }

  /** `rows` are the `limit` longest waiting due jobs of the node, oldest first. */
  ghost predicate IsOldestDue(db: Rows, node: NodeId, now: int, limit: nat, rows: seq<JobId>) {
    && |rows| == Min(limit, |DueJobs(db, node, now)|)
    && (forall j :: j in rows ==> j in DueJobs(db, node, now))
    && (forall i, k :: 0 <= i < k < |rows| ==>
          rows[i] != rows[k] && rows[i] in db.jobs && rows[k] in db.jobs
          && db.jobs[rows[i]].createdAt <= db.jobs[rows[k]].createdAt)
    && (forall i, j :: 0 <= i < |rows| && j in DueJobs(db, node, now) && j !in rows ==>
          rows[i] in db.jobs && db.jobs[rows[i]].createdAt <= db.jobs[j].createdAt)
  }

  function Listed(ids: seq<JobId>): set<JobId> {
    set j | j in ids
  }

  /** The listed jobs of the allowed operations, in their order. */
  function OnlyAllowed(jobs: map<JobId, Job>, ids: seq<JobId>, allowed: set<Operation>): seq<JobId> {
    if ids == [] then []
    else
      var (front, j) := (ids[..|ids| - 1], ids[|ids| - 1]);
      OnlyAllowed(jobs, front, allowed) + if j in jobs && jobs[j].op in allowed then [j] else []
  }

  lemma {:induction false} OnlyAllowedMeans(jobs: map<JobId, Job>, ids: seq<JobId>, allowed: set<Operation>)
    ensures forall j :: j in OnlyAllowed(jobs, ids, allowed) <==> j in ids && j in jobs && jobs[j].op in allowed
  {
    if ids != [] {
      OnlyAllowedMeans(jobs, ids[..|ids| - 1], allowed);
      assert ids == ids[..|ids| - 1] + [ids[|ids| - 1]];
    }
  }

  /** What a pin assignment answers: a new job unless the copy is assigned or a job waits already. */
  function PinOutcome(db: Rows, cid: Cid, node: NodeId): Outcome<Option<JobId>> {
    if cid !in db.objects then Refused(UnknownCid)
    else if (cid, node) in db.replicas && KeepsAssignment(db.replicas[(cid, node)]) then Ok(None)
    else if node !in db.nodes then Refused(UnknownNode)
    else if HasWaiting(db, cid, node, Pin, db.objects[cid].generation) then Ok(None)
    else Ok(Some(db.nextJob))
  }

  /** What verify planning answers: a new job unless one of any generation waits already. */
  function VerifyOutcome(db: Rows, cid: Cid, node: NodeId): Outcome<Option<JobId>> {
    if exists j :: j in db.jobs && db.jobs[j].cid == cid && db.jobs[j].node == node && db.jobs[j].op.Verify?
                   && db.jobs[j].Waiting()
    then Ok(None)
    else if cid !in db.objects then Refused(UnknownCid)
    else if node !in db.nodes then Refused(UnknownNode)
    else Ok(Some(db.nextJob))
  }

  lemma DeliverTwice(db: Rows, now: int, ids: set<JobId>, j: JobId)
    ensures Deliver(Deliver(db, now, ids), now, {j}) == Deliver(db, now, ids + {j})
  {
  }

  lemma DeliverNext(db: Rows, now: int, ids: seq<JobId>, i: nat)
    requires i < |ids|
    ensures Deliver(Deliver(db, now, Listed(ids[..i])), now, {ids[i]}) == Deliver(db, now, Listed(ids[..i + 1]))
  {
    assert ids[..i + 1] == ids[..i] + [ids[i]];
    assert Listed(ids[..i + 1]) == Listed(ids[..i]) + {ids[i]};
    DeliverTwice(db, now, Listed(ids[..i]), ids[i]);
  }

  lemma NothingDelivered(db: Rows, now: int)
    ensures Deliver(db, now, Listed([])) == db
  {
  }

  /** `rows` are the oldest of `all` in order, and `due` the others. */
  ghost predicate OldestSoFar(jobs: map<JobId, Job>, all: set<JobId>, rows: seq<JobId>, due: set<JobId>)
    requires all <= jobs.Keys
  {
    && |rows| + |due| == |all| && due <= all
    && (forall j :: j in rows ==> j in all && j !in due)
    && (forall j :: j in all ==> j in due || j in rows)
    && (forall i, k :: 0 <= i < k < |rows| ==>
          rows[i] != rows[k] && rows[i] in all && rows[k] in all
          && jobs[rows[i]].createdAt <= jobs[rows[k]].createdAt)
    && (forall i, j :: 0 <= i < |rows| && j in due ==> rows[i] in all && jobs[rows[i]].createdAt <= jobs[j].createdAt)
  }

  lemma OneMoreOldest(jobs: map<JobId, Job>, all: set<JobId>, rows: seq<JobId>, due: set<JobId>, j: JobId)
    requires all <= jobs.Keys && OldestSoFar(jobs, all, rows, due)
    requires j in due && forall k :: k in due ==> jobs[j].createdAt <= jobs[k].createdAt
    ensures OldestSoFar(jobs, all, rows + [j], due - {j})
  {
  }

  method OldestDue(db: Rows, node: NodeId, now: int, limit: nat) returns (rows: seq<JobId>)
    ensures IsOldestDue(db, node, now, limit, rows)
  {
    var due := DueJobs(db, node, now);
    ghost var all := due;
    rows := [];
    while |rows| < limit && due != {}
      invariant |rows| <= limit && all <= db.jobs.Keys && OldestSoFar(db.jobs, all, rows, due)
      decreases limit - |rows|
    {
      ghost var oldest := OldestExists(due, db.jobs);
      var j :| j in due && forall k :: k in due ==> db.jobs[j].createdAt <= db.jobs[k].createdAt;
      OneMoreOldest(db.jobs, all, rows, due, j);
      rows := rows + [j];
      due := due - {j};
    }
  }

  class ReplicationDb {
    var nodes: map<NodeId, Class>
    var objects: map<Cid, Object>
    var refs: map<RefId, Reference>
    var replicas: map<(Cid, NodeId), Replica>
    var jobs: map<JobId, Job>
    var nextJob: nat

    function Contents(): Rows
      reads this
    {
      Rows(nodes, objects, refs, replicas, jobs, nextJob)
    }

    constructor ()
      ensures Contents() == EMPTY
    {
      nodes, objects, refs, replicas, jobs, nextJob := map[], map[], map[], map[], map[], 0;
    }

    /** The rollback of a failed transaction. */
    method Restore(saved: Rows)
      modifies this
      ensures Contents() == saved
    {
      nodes, objects, refs := saved.nodes, saved.objects, saved.refs;
      replicas, jobs, nextJob := saved.replicas, saved.jobs, saved.nextJob;
    }

    method InsertJob(job: Job) returns (j: JobId)
      modifies this`jobs, this`nextJob
      ensures j == old(nextJob) && Contents() == AddJob(old(Contents()), job)
    {
      j := nextJob;
      jobs := jobs[j := job];
      nextJob := nextJob + 1;
    }

    method StaleWaitingJobs(cid: Cid)
      modifies this`jobs
      ensures Contents() == StaleWaiting(old(Contents()), cid)
    {
      jobs := map j | j in jobs ::
        if jobs[j].cid == cid && jobs[j].Waiting() then jobs[j].(state := Stale) else jobs[j];
    }

    method UpsertNodeRow(now: int, node: NodeId, class_: Class)
      modifies this`nodes
      ensures Contents() == Next(old(Contents()), UpsertNode(now, node, class_))
    {
      nodes := nodes[node := class_];
    }

    /** Registration as in v2.1.3: count the reference and add the registering node's copy. */
    method BaseRegister(now: int, cid: Cid, size: int, n: int, m: int, source: Option<NodeId>, ref: Option<RefId>)
      returns (refused: Option<Refusal>)
      modifies this
      ensures var counted := CountReference(old(Contents()), cid, size, n, m, ref);
              if counted.Refused? then Contents() == old(Contents()) && refused == Some(counted.why)
              else
                var sourced := AddSource(counted.value, now, cid, source);
                if sourced.Refused? then Contents() == old(Contents()) && refused == Some(sourced.why)
                else Contents() == sourced.value && refused == None
    {
      var saved := Contents();
      refused := CountOne(cid, size, n, m, ref);
      if refused.Some? { return; }
      if source.Some? {
        if source.value !in nodes {
          Restore(saved);
          return Some(UnknownNode);
        }
        var key := (cid, source.value);
        var class_ := if key in replicas then replicas[key].class_ else nodes[source.value];
        replicas := replicas[key := Replica(true, Pinned, class_, objects[cid].generation, now)];
      }
    }

    method CountOne(cid: Cid, size: int, n: int, m: int, ref: Option<RefId>) returns (refused: Option<Refusal>)
      modifies this`objects, this`refs
      ensures var counted := CountReference(old(Contents()), cid, size, n, m, ref);
              if counted.Refused? then Contents() == old(Contents()) && refused == Some(counted.why)
              else Contents() == counted.value && refused == None
      ensures refused.None? ==> cid in objects
    {
      if ref.Some? && ref.value in refs {
        if refs[ref.value].cid != cid { return Some(WrongCid); }
        if cid !in objects { return Some(UnknownCid); }
        return None;
      }
      if cid in objects {
        var o := objects[cid];
        if o.size != size { return Some(SizeMismatch); }
        objects := objects[cid := o.(refcount := o.refcount + 1, n := Max(o.n, n), m := Max(o.m, m))];
      } else {
        objects := objects[cid := Object(size, n, m, 1, 1, 0)];
      }
      if ref.Some? {
        refs := refs[ref.value := Reference(cid, 0)];
      }
      return None;
    }

    /** The second transaction of a v2.1.4 registration. */
    method RenewGeneration(cid: Cid, before: Option<Object>)
      requires cid in objects
      modifies this`objects, this`replicas, this`jobs
      ensures Contents() == Regenerate(old(Contents()), cid, before)
    {
      var row := objects[cid];
      var resurrected := row.refcount > 0 && row.releasedAt != 0;
      var policyChanged := before.Some? && (row.n != before.value.n || row.m != before.value.m);
      if resurrected || policyChanged {
        var gen := row.generation + 1;
        objects := objects[cid := row.(generation := gen, releasedAt := 0)];
        if resurrected {
          replicas := map p | p in replicas ::
            if p.0 == cid && !replicas[p].state.Unpinned?
            then replicas[p].(desired := true, generation := gen) else replicas[p];
        } else {
          replicas := map p | p in replicas ::
            if p.0 == cid then replicas[p].(generation := gen) else replicas[p];
        }
        assert replicas == Renumber(old(replicas), cid, gen, resurrected);
        StaleWaitingJobs(cid);
      }
    }

    method RegisterObject(now: int, cid: Cid, size: int, n: int, m: int, source: Option<NodeId>, ref: Option<RefId>)
      returns (refused: Option<Refusal>)
      modifies this
      ensures Contents() == Next(old(Contents()), RegisterEvent(now, cid, size, n, m, source, ref))
      ensures var o := Register(old(Contents()), now, cid, size, n, m, source, ref);
              refused == if o.Ok? then None else Some(o.why)
    {
      var before := if cid in objects then Some(objects[cid]) else None;
      if before.Some? && AuthorizedUnpins(Contents(), cid) != {} {
        if before.value.refcount == 0 || n > before.value.n || m > before.value.m {
          return Some(Conflict);
        }
      }
      refused := BaseRegister(now, cid, size, n, m, source, ref);
      if refused.None? {
        RenewGeneration(cid, before);
      }
    }

    /** The last reference goes. */
    method ReleaseForGood(now: int, cid: Cid)
      requires cid in objects
      modifies this`objects, this`replicas, this`jobs
      ensures Contents() == FinalRelease(old(Contents()), now, cid)
    {
      var obj := objects[cid];
      var gen := obj.generation + 1;
      objects := objects[cid := obj.(refcount := 0, releasedAt := now, generation := gen)];
      replicas := map p | p in replicas ::
        if p.0 != cid then replicas[p] else replicas[p].(desired := false, generation := gen);
      StaleWaitingJobs(cid);
    }

    method ReleaseObject(now: int, cid: Cid, ref: Option<RefId>) returns (out: Outcome<Released>)
      modifies this
      ensures Contents() == Next(old(Contents()), ReleaseEvent(now, cid, ref))
      ensures var o := Release(old(Contents()), now, cid, ref);
              out == if o.Ok? then Ok(o.value.1) else Refused(o.why)
    {
      var saved := Contents();
      if cid !in objects { return Ok(NotFound); }
      var obj := objects[cid];
      if ref.Some? {
        if ref.value !in refs { return Ok(Unchanged); }
        if refs[ref.value].cid != cid { return Refused(WrongCid); }
        if refs[ref.value].releasedAt != 0 { return Ok(Unchanged); }
        refs := refs[ref.value := refs[ref.value].(releasedAt := now)];
      } else if obj.refcount <= 0 {
        return Ok(Unchanged);
      }
      var left := Max(0, obj.refcount - 1);
      if left == 0 {
        if AuthorizedUnpins(Contents(), cid) != {} {
          assert AuthorizedUnpins(Contents(), cid) == AuthorizedUnpins(saved, cid);
          Restore(saved);
          return Refused(Conflict);
        }
        assert AuthorizedUnpins(Contents(), cid) == AuthorizedUnpins(saved, cid);
        ReleaseForGood(now, cid);
        return Ok(Counted(0, true, obj.generation + 1));
      }
      objects := objects[cid := obj.(refcount := left)];
      return Ok(Counted(left, false, obj.generation));
    }

    method CreateUnpinJob(now: int, cid: Cid, node: NodeId, generation: int, reason: Reason, notBefore: int)
      returns (out: Outcome<Option<JobId>>)
      modifies this`jobs, this`nextJob
      ensures Contents() == Next(old(Contents()), PlanUnpin(now, cid, node, generation, reason, notBefore))
      ensures out == CreateUnpin(old(Contents()), now, cid, node, generation, reason, notBefore)
    {
      if cid !in objects || objects[cid].generation != generation { return Ok(None); }
      if reason.TrimExtra? {
        var active, pinned := |ActiveTrims(Contents(), cid)|, |PinnedNodes(Contents(), cid)|;
        if pinned - active <= objects[cid].n { return Ok(None); }
        if !TrimCapacity(Contents(), cid, node, generation, false) { return Ok(None); }
      } else if objects[cid].refcount != 0 {
        return Ok(None);
      }
      if exists j :: j in ActiveUnpins(Contents(), cid) && jobs[j].node == node && jobs[j].generation == generation {
        return Ok(None);
      }
      if node !in nodes { return Refused(UnknownNode); }
      var j := InsertJob(UnpinJob(now, cid, node, generation, reason, notBefore));
      return Ok(Some(j));
    }

    method AuthorizeUnpin(now: int, node: NodeId, j: JobId, lease: int) returns (authorized: bool)
      modifies this`jobs
      ensures Contents() == Next(old(Contents()), AuthorizeEvent(now, node, j, lease))
      ensures authorized == (j in old(jobs) && old(jobs)[j].node == node && old(jobs)[j].op.Unpin?
                             && ReadyToUnpin(old(Contents()), j, lease))
      ensures authorized ==>
                var (job, objects) := (old(jobs)[j], old(objects));
                && job.lease == lease && (job.state == Pending || job.state == Retry)
                && job.cid in objects && objects[job.cid].generation == job.generation
      ensures j in old(jobs) && old(jobs)[j].node == node && old(jobs)[j].op == Unpin ==>
                j in jobs && jobs[j].state == if authorized then Authorized else Stale
    {
      if j !in jobs || jobs[j].node != node || !jobs[j].op.Unpin? { return false; }
      var job := jobs[j];
      var leaseOk, stateOk := job.lease == lease, job.Waiting();
      var lifecycleOk := job.cid in objects && objects[job.cid].generation == job.generation;
      if job.reason.TrimExtra? {
        lifecycleOk := lifecycleOk && TrimCapacity(Contents(), job.cid, node, job.generation, true);
      } else {
        lifecycleOk := lifecycleOk && objects[job.cid].refcount == 0;
      }
      if !(leaseOk && stateOk && lifecycleOk) {
        jobs := jobs[j := job.(state := Stale)];
        return false;
      }
      jobs := jobs[j := job.(state := Authorized)];
      return true;
    }

    method CreatePinAssignment(now: int, cid: Cid, node: NodeId, class_: Class)
      returns (out: Outcome<Option<JobId>>)
      modifies this`replicas, this`jobs, this`nextJob
      ensures Contents() == Next(old(Contents()), PlanPin(now, cid, node, class_))
      ensures out == PinOutcome(old(Contents()), cid, node)
    {
      var key := (cid, node);
      if cid !in objects { return Refused(UnknownCid); }
      if key in replicas && KeepsAssignment(replicas[key]) { return Ok(None); }
      if node !in nodes { return Refused(UnknownNode); }
      var gen := objects[cid].generation;
      var active := HasWaiting(Contents(), cid, node, Pin, gen);
      var verified := if key in replicas then replicas[key].lastVerified else 0;
      replicas := replicas[key := Replica(true, Assigned, class_, gen, verified)];
      if active { return Ok(None); }
      var j := InsertJob(Job(cid, node, Pin, gen, Pending, 0, now, 0, now, NoReason));
      return Ok(Some(j));
    }

    method CreateVerifyJob(now: int, cid: Cid, node: NodeId, generation: int)
      returns (out: Outcome<Option<JobId>>)
      modifies this`jobs, this`nextJob
      ensures Contents() == Next(old(Contents()), PlanVerify(now, cid, node, generation))
      ensures out == VerifyOutcome(old(Contents()), cid, node)
    {
      if exists j :: j in jobs && jobs[j].cid == cid && jobs[j].node == node && jobs[j].op.Verify?
                     && jobs[j].Waiting()
      {
        return Ok(None);
      }
      if cid !in objects { return Refused(UnknownCid); }
      if node !in nodes { return Refused(UnknownNode); }
      var j := InsertJob(Job(cid, node, Verify, generation, Pending, 0, now, 0, now, NoReason));
      return Ok(Some(j));
    }

    method MarkReplicaState(now: int, cid: Cid, node: NodeId, state: ReplicaState)
      modifies this`replicas
      ensures Contents() == Next(old(Contents()), MarkEvent(now, cid, node, state))
    {
      if (cid, node) in replicas {
        replicas := replicas[(cid, node) := replicas[(cid, node)].(state := state)];
      }
    }

    /** Hands out up to `limit` due jobs of a node, oldest first, each under a new lease. */
    method LeaseDue(node: NodeId, now: int, limit: nat) returns (leased: seq<JobId>)
      modifies this`jobs
      ensures Contents() == Next(old(Contents()), Poll(now, node, Listed(leased)))
      ensures Possible(old(Contents()), Poll(now, node, Listed(leased)))
      ensures IsOldestDue(old(Contents()), node, now, limit, leased)
    {
      leased := OldestDue(Contents(), node, now, limit);
      ghost var was := Contents();
      NothingDelivered(was, now);
      assert leased[..0] == [];
      for i := 0 to |leased|
        invariant Contents() == Deliver(was, now, Listed(leased[..i]))
      {
        assert leased[i] in leased;
        LeaseOne(leased[i], now);
        DeliverNext(was, now, leased, i);
      }
      assert leased[..|leased|] == leased;
    }

    method LeaseOne(j: JobId, now: int)
      requires j in jobs
      modifies this`jobs
      ensures Contents() == Deliver(old(Contents()), now, {j})
    {
      jobs := jobs[j := jobs[j].(lease := now + LEASE_SECONDS)];
    }

    /** The v2.1.4 poll filters what it returns, after the leases have been written. */
    method PendingJobs(node: NodeId, now: int, limit: nat, allowed: set<Operation>)
      returns (out: seq<JobId>, leased: seq<JobId>)
      modifies this`jobs
      ensures Contents() == Next(old(Contents()), Poll(now, node, Listed(leased)))
      ensures Possible(old(Contents()), Poll(now, node, Listed(leased)))
      ensures IsOldestDue(old(Contents()), node, now, limit, leased)
      ensures out == OnlyAllowed(old(jobs), leased, allowed)
    {
      leased := LeaseDue(node, now, limit);
      out := [];
      for i := 0 to |leased|
        invariant out == OnlyAllowed(old(jobs), leased[..i], allowed)
      {
        assert leased[..i + 1][..i] == leased[..i] && leased[..i + 1][i] == leased[i];
        assert leased[i] in Listed(leased);
        if jobs[leased[i]].op in allowed {
          out := out + [leased[i]];
        }
      }
      assert leased[..|leased|] == leased;
    }

    method ApplyJobReport(now: int, node: NodeId, rep: Report) returns (verdict: Verdict)
      modifies this`jobs, this`replicas
      ensures verdict == Judge(old(Contents()), now, node, rep)
      ensures Contents() == Next(old(Contents()), ReportEvent(now, node, rep))
    {
      if rep.job !in jobs || jobs[rep.job].node != node { return NoSuchJob; }
      var job := jobs[rep.job];
      match job.op {
        case Unpin => verdict := ReportUnpin(now, node, rep);
        case UnpinVerify => verdict := ReportUnpinVerify(now, node, rep);
        case _ => verdict := ReportPin(now, node, rep);
      }
    }

    method ReportPin(now: int, node: NodeId, rep: Report) returns (verdict: Verdict)
      requires rep.job in jobs && jobs[rep.job].node == node && (jobs[rep.job].op.Pin? || jobs[rep.job].op.Verify?)
      modifies this`jobs, this`replicas
      ensures verdict == Judge(old(Contents()), now, node, rep)
      ensures Contents() == AfterReport(old(Contents()), now, node, rep)
    {
      var job := jobs[rep.job];
      var key := (job.cid, job.node);
      if job.cid !in objects || objects[job.cid].generation != job.generation {
        jobs := jobs[rep.job := job.(state := Stale)];
        return Fence;
      }
      if rep.lease != 0 {
        if job.lease == 0 || rep.lease != job.lease { return Ignore; }
      } else if job.lease != 0 {
        return Ignore;
      }
      if rep.said.SaidFailed? && rep.lease == 0 && job.state.Retry? && job.nextAt > now { return Ignore; }
      if job.state.Done? && (rep.said.SaidPinned? || rep.said.SaidVerified?) { return Ignore; }
      match rep.said {
        case SaidPinned =>
          jobs := jobs[rep.job := job.(state := Done, lease := 0)];
          if key in replicas {
            replicas := replicas[key := replicas[key].(state := Pinned, lastVerified := now)];
          }
        case SaidVerified =>
          jobs := jobs[rep.job := job.(state := Done, lease := 0)];
          if key in replicas {
            replicas := replicas[key := replicas[key].(state := Pinned, lastVerified := now)];
          }
        case SaidFailed =>
          var attempts := job.attempts + 1;
          jobs := jobs[rep.job := job.(state := Retry, attempts := attempts, nextAt := now + RetryDelay(attempts),
                                       lease := 0)];
          if key in replicas {
            replicas := replicas[key := replicas[key].(state := Failed)];
          }
        case _ => return Invalid;
      }
      return Apply;
    }

    method ReportUnpin(now: int, node: NodeId, rep: Report) returns (verdict: Verdict)
      requires rep.job in jobs && jobs[rep.job].node == node && jobs[rep.job].op.Unpin?
      modifies this`jobs, this`replicas
      ensures verdict == Judge(old(Contents()), now, node, rep)
      ensures Contents() == AfterReport(old(Contents()), now, node, rep)
    {
      var job := jobs[rep.job];
      var key := (job.cid, job.node);
      var generationOk := job.cid in objects && objects[job.cid].generation == job.generation;
      var lifecycleOk := generationOk && (job.reason.TrimExtra? || objects[job.cid].refcount == 0);
      if !lifecycleOk {
        jobs := jobs[rep.job := job.(state := Stale)];
        return Fence;
      }
      if job.lease != rep.lease || !job.state.Authorized? { return Ignore; }
      match rep.said {
        case SaidUnpinned =>
          jobs := jobs[rep.job := job.(state := Done, lease := 0)];
          if key in replicas {
            replicas := replicas[key := replicas[key].(state := Unpinned, desired := false)];
          }
        case SaidFailed =>
          var attempts := job.attempts + 1;
          jobs := jobs[rep.job := job.(state := Retry, attempts := attempts, nextAt := now + RetryDelay(attempts),
                                       lease := 0)];
          assert key in replicas ==> replicas[key := replicas[key]] == replicas;
        case _ => return Invalid;
      }
      return Apply;
    }

    method ReportUnpinVerify(now: int, node: NodeId, rep: Report) returns (verdict: Verdict)
      requires rep.job in jobs && jobs[rep.job].node == node && jobs[rep.job].op.UnpinVerify?
      modifies this`jobs, this`replicas
      ensures verdict == Judge(old(Contents()), now, node, rep)
      ensures Contents() == AfterReport(old(Contents()), now, node, rep)
    {
      var job := jobs[rep.job];
      var key := (job.cid, job.node);
      if job.cid !in objects || objects[job.cid].refcount != 0 || objects[job.cid].generation != job.generation {
        jobs := jobs[rep.job := job.(state := Stale)];
        return Fence;
      }
      if job.lease != rep.lease { return Ignore; }
      match rep.said {
        case SaidUnpinned =>
          jobs := jobs[rep.job := job.(state := Done, lease := 0)];
          if key in replicas {
            replicas := replicas[key := replicas[key].(state := Unpinned, desired := false)];
          }
        case SaidVerified =>
          jobs := jobs[rep.job := job.(state := Done, lease := 0)];
          if key in replicas {
            replicas := replicas[key := replicas[key].(state := Pinned, desired := false, lastVerified := now)];
          }
        case SaidFailed =>
          var attempts := job.attempts + 1;
          jobs := jobs[rep.job := job.(state := Retry, attempts := attempts, nextAt := now + RetryDelay(attempts),
                                       lease := 0)];
          assert key in replicas ==> replicas[key := replicas[key]] == replicas;
        case _ => return Invalid;
      }
      return Apply;
    }

    /** One authorised UNPIN: the job turns stale and a question takes its place. */
    method RecoverJob(now: int, j: JobId)
      requires j in jobs
      modifies this`jobs, this`nextJob
      ensures Contents() == RecoverOne(old(Contents()), now, j)
      ensures old(jobs).Keys <= jobs.Keys
    {
      var job := jobs[j];
      jobs := jobs[j := job.(state := Stale)];
      if !HasWaiting(Contents(), job.cid, job.node, UnpinVerify, job.generation) {
        var _ := InsertJob(Job(job.cid, job.node, UnpinVerify, job.generation, Pending, 0, 0, 0, now, AfterCrash));
      }
    }

    /** Every authorised UNPIN, in some order, is replaced by a verification. */
    method RecoverV214(now: int) returns (ids: seq<JobId>)
      modifies this`jobs, this`nextJob
      ensures ListsAuthorized(old(Contents()), ids)
      ensures Contents() == Next(old(Contents()), Recover(now, ids))
    {
      ghost var was := Contents();
      var left := set j | j in jobs && jobs[j].op.Unpin? && jobs[j].state.Authorized?;
      ids := [];
      while left != {}
        invariant Contents() == RecoverAll(was, now, ids)
        invariant forall i, k :: 0 <= i < k < |ids| ==> ids[i] != ids[k]
        invariant forall j :: j in ids ==> j !in left
        invariant forall j :: j in left || j in ids <==>
          j in was.jobs && was.jobs[j].op.Unpin? && was.jobs[j].state.Authorized?
        invariant was.jobs.Keys <= jobs.Keys
        decreases left
      {
        var j :| j in left;
        left := left - {j};
        RecoverJob(now, j);
        assert (ids + [j])[..|ids|] == ids;
        ids := ids + [j];
      }
    }
  }
}
