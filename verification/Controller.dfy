/** The controller's planning loops and the switch that guards every destructive operation. */
module Controller {
  import opened Arithmetic
  import opened Options
  import opened Sorting
  import opened Lifecycle
  import opened TrimLoop
  import opened Planning
  import opened FinalPlanning
  import opened ReplicationDb

  datatype Mode = Observe | PinOnly | Full

  /** Lists a set in some order, as a query does. */
  method Rowset(nodes: set<NodeId>) returns (rows: seq<NodeId>)
    ensures Distinct(rows) && forall x :: x in rows <==> x in nodes
  {
    rows := [];
    var left := nodes;
    while left != {}
      invariant left <= nodes && Distinct(rows)
      invariant forall x :: x in nodes <==> x in rows || x in left
      invariant forall x :: x in rows ==> x !in left
      decreases |left|
    {
      var x :| x in left;
      rows := rows + [x];
      left := left - {x};
    }
  }

  method TrimCandidates(db: Rows, cid: Cid) returns (candidates: seq<NodeId>)
    ensures ListsSpare(db, cid, candidates) && Ordered(TrimOrder(db, cid), candidates)
  {
    var rows := Rowset(Spare(db, cid));
    SortedListing(db, cid, rows);
    TrimOrderIsOrder(db, cid);
    SortIsOrderedPermutation(TrimOrder(db, cid), rows);
    candidates := Sort(TrimOrder(db, cid), rows);
  }

  lemma CreateIsPlanOne(db: Rows, now: int, cid: Cid, gen: int, x: NodeId)
    ensures var out := CreateUnpin(db, now, cid, x, gen, TrimExtra, 0);
            var planned := PlanOne(db, now, cid, gen, x);
            && planned.Some? == (out.Ok? && out.value.Some?)
            && Next(db, PlanUnpin(now, cid, x, gen, TrimExtra, 0)) == if planned.Some? then planned.value else db
  {
  }

  /** The rows after a trim planning pass that is switched on. */
  ghost predicate TrimPlanned(was: Rows, db: Rows, now: int, cid: Cid) {
    exists rest :: ListsSpare(was, cid, rest) && Ordered(TrimOrder(was, cid), rest)
      && db == TrimAll(was, now, cid, rest)
  }

  /** The rows after a final-release planning pass that is switched on. */
  ghost predicate FinalPlanned(was: Rows, db: Rows, now: int, cid: Cid, grace: int) {
    if cid in was.objects && was.objects[cid].releasedAt != 0 && now >= was.objects[cid].releasedAt + grace then
      exists rest ::
        && ListsRemaining(was, cid, rest)
        && db == FinalAll(was, now, cid, was.objects[cid].generation, was.objects[cid].releasedAt + grace, rest)
    else db == was
  }

  class Controller {
    const db: ReplicationDb
    const mode: Mode
    const unpinEnabled: bool
    const deleteGrace: int

    constructor (db: ReplicationDb, mode: Mode, unpinEnabled: bool, deleteGrace: int)
      ensures this.db == db && this.mode == mode && this.unpinEnabled == unpinEnabled && this.deleteGrace == deleteGrace
    {
      this.db, this.mode, this.unpinEnabled, this.deleteGrace := db, mode, unpinEnabled, deleteGrace;
    }

    predicate MayDelete() {
      mode.Full? && unpinEnabled
    }

    function Allowed(): set<Operation> {
      {Pin, Verify, UnpinVerify} + if MayDelete() then {Unpin} else {}
    }

    /** Without the switch no UNPIN is handed out. */
    method Assignments(node: NodeId, now: int, limit: nat) returns (handed: seq<JobId>, leased: seq<JobId>)
      modifies db
      ensures mode.Observe? ==> db.Contents() == old(db.Contents()) && handed == []
      ensures Possible(old(db.Contents()), Poll(now, node, Listed(leased)))
      ensures db.Contents() == Next(old(db.Contents()), Poll(now, node, Listed(leased)))
      ensures !mode.Observe? ==> IsOldestDue(old(db.Contents()), node, now, limit, leased)
      ensures handed == OnlyAllowed(old(db.jobs), leased, Allowed())
      ensures forall j :: j in handed <==>
                j in leased && j in old(db.jobs) && (old(db.jobs)[j].op == Unpin ==> mode == Full && unpinEnabled)
    {
      handed, leased := [], [];
      if mode.Observe? {
        assert Deliver(db.Contents(), now, Listed([])) == db.Contents();
        return;
      }
      handed, leased := db.PendingJobs(node, now, limit, Allowed());
      OnlyAllowedMeans(old(db.jobs), leased, Allowed());
    }

    /** Without the switch no UNPIN is authorised. */
    method AuthorizeUnpin(now: int, node: NodeId, j: JobId, lease: int) returns (authorized: bool)
      modifies db
      ensures db.Contents() == if mode == Full && unpinEnabled then Next(old(db.Contents()),
                                                                         AuthorizeEvent(now, node, j, lease))
                               else old(db.Contents())
      ensures authorized <==>
        mode == Full && unpinEnabled && j in old(db.jobs) && old(db.jobs)[j].node == node && old(db.jobs)[j].op.Unpin?
        && ReadyToUnpin(old(db.Contents()), j, lease)
      ensures authorized ==>
                var (job, objects) := (old(db.jobs)[j], old(db.objects));
                && job.lease == lease && (job.state == Pending || job.state == Retry)
                && job.cid in objects && objects[job.cid].generation == job.generation
                && j in db.jobs && db.jobs[j].state == Authorized
    {
      if !MayDelete() { return false; }
      authorized := db.AuthorizeUnpin(now, node, j, lease);
    }

    /** Deletes nothing before the grace period after the release is over. */
    method PlanFinalRelease(now: int, cid: Cid)
      modifies db
      ensures if mode == Full && unpinEnabled
              then FinalPlanned(old(db.Contents()), db.Contents(), now, cid, deleteGrace)
              else db.Contents() == old(db.Contents())
    {
      if !MayDelete() || cid !in db.objects { return; }
      var releasedAt := db.objects[cid].releasedAt;
      if releasedAt == 0 || now < releasedAt + deleteGrace { return; }
      var generation := db.objects[cid].generation;
      ghost var was := db.Contents();
      var rows := Rowset(Remaining(db.Contents(), cid));
      for i := 0 to |rows|
        invariant db.Contents() == FinalAll(was, now, cid, generation, releasedAt + deleteGrace, rows[..i])
      {
        assert rows[..i + 1][..i] == rows[..i] && rows[..i + 1][i] == rows[i];
        var _ := db.CreateUnpinJob(now, cid, rows[i], generation, Final, releasedAt + deleteGrace);
      }
      assert rows[..|rows|] == rows && ListsRemaining(was, cid, rows);
    }

    method PlanTrim(now: int, cid: Cid)
      modifies db
      ensures if mode == Full && unpinEnabled then TrimPlanned(old(db.Contents()), db.Contents(), now, cid)
              else db.Contents() == old(db.Contents())
    {
      if !MayDelete() { return; }
      ghost var was := db.Contents();
      var candidates := TrimCandidates(db.Contents(), cid);
      if cid !in db.objects || db.objects[cid].refcount <= 0 { return; }
      var pinned, comm := PinnedNodes(db.Contents(), cid), CommittableNodes(db.Contents(), cid);
      var target, required, generation := db.objects[cid].n, db.objects[cid].m, db.objects[cid].generation;
      if |pinned| <= target { return; }
      var active := ActiveTrimNodes(db.Contents(), cid);
      var remove := Max(0, |pinned| - target - |active|);
      ghost var planner := TrimPlanner(db.Contents(), now, cid, generation);
      TrimSurplus(planner, now, cid, generation, comm, required, candidates, remove, |comm - active|);
      assert db.Contents() == TrimAll(was, now, cid, candidates);
    }

    method PlanOneTrim(now: int, cid: Cid, x: NodeId, generation: int) returns (planned: bool)
      modifies db
      ensures PlanOne(old(db.Contents()), now, cid, generation, x) == if planned then Some(db.Contents()) else None
      ensures !planned ==> db.Contents() == old(db.Contents())
    {
      CreateIsPlanOne(db.Contents(), now, cid, generation, x);
      var out := db.CreateUnpinJob(now, cid, x, generation, TrimExtra, 0);
      planned := out.Ok? && out.value.Some?;
    }

    /** The loop of `_plan_trim`. */
    method TrimSurplus(ghost planner: Planner<Rows>, now: int, cid: Cid, generation: int, comm: set<NodeId>,
                       required: int, candidates: seq<NodeId>, surplus: int, commAfterActive: int)
      requires forall rows, x :: planner.Plan(rows, x) == PlanOne(rows, now, cid, generation, x)
      modifies db
      ensures db.Contents() == Greedy(planner, comm, required, old(db.Contents()), candidates, surplus, commAfterActive)
    {
      var remove, left := surplus, commAfterActive;
      var i := 0;
      while i < |candidates| && remove > 0
        invariant 0 <= i <= |candidates|
        invariant Greedy(planner, comm, required, old(db.Contents()), candidates, surplus, commAfterActive)
               == Greedy(planner, comm, required, db.Contents(), candidates[i..], remove, left)
        decreases |candidates| - i
      {
        var x := candidates[i];
        assert candidates[i..][0] == x && candidates[i..][1..] == candidates[i + 1..];
        i := i + 1;
        if x in comm && left - 1 < required { continue; }
        GreedyTurn(planner, comm, required, db.Contents(), candidates[i - 1..], remove, left);
        var planned := PlanOneTrim(now, cid, x, generation);
        if planned {
          remove := remove - 1;
          if x in comm { left := left - 1; }
        }
      }
    }
  }
}
