/** What the controller plans to remove: surplus copies of a referenced object, and every copy
    of an object whose release has outlived its grace period. */
module Planning {
  import opened Arithmetic
  import opened Options
  import opened Sets
  import opened Sorting
  import opened Lifecycle
  import opened LifecycleSafety
  import opened TrimLoop

  function ActiveTrimNodes(db: Rows, cid: Cid): set<NodeId> {
    set j | j in db.jobs && db.jobs[j].cid == cid && db.jobs[j].Trims() && db.jobs[j].Active() :: db.jobs[j].node
  }

  /** Confirmed copies that no waiting or authorised trim names. */
  function Spare(db: Rows, cid: Cid): set<NodeId> {
    PinnedNodes(db, cid) - ActiveTrimNodes(db, cid)
  }

  function SpareCommittable(db: Rows, cid: Cid): set<NodeId> {
    CommittableNodes(db, cid) - ActiveTrimNodes(db, cid)
  }

  function Surplus(db: Rows, cid: Cid): int
    requires cid in db.objects
  {
    Max(0, |PinnedNodes(db, cid)| - db.objects[cid].n - |ActiveTrimNodes(db, cid)|)
  }

  /** Best-effort copies first, then the longest unverified, then by node. */
  function TrimOrder(db: Rows, cid: Cid): Order<NodeId> {
    (x: NodeId, y: NodeId) =>
      var (a, b) := (TrimKey(db, cid, x), TrimKey(db, cid, y));
      a.0 < b.0 || (a.0 == b.0 && (a.1 < b.1 || (a.1 == b.1 && x <= y)))
  }

  function TrimKey(db: Rows, cid: Cid, x: NodeId): (int, int) {
    if (cid, x) in db.replicas then
      (if db.replicas[(cid, x)].class_.BestEffort? then 0 else 1, db.replicas[(cid, x)].lastVerified)
    else (1, 0)
  }

  /** One call of `create_unpin_job`: the rows with one more job, or None. */
  function PlanOne(db: Rows, now: int, cid: Cid, gen: int, x: NodeId): Option<Rows> {
    if CreateUnpin(db, now, cid, x, gen, TrimExtra, 0) == Ok(Some(db.nextJob))
    then Some(AddJob(db, UnpinJob(now, cid, x, gen, TrimExtra, 0)))
    else None
  }

  function TrimPlanner(start: Rows, now: int, cid: Cid, gen: int): Planner<Rows> {
    Planner((db: Rows, x: nat) => PlanOne(db, now, cid, gen, x),
            (db: Rows) => ActiveTrimNodes(db, cid),
            (db: Rows) => Keyed(db) && SameCopies(start, db))
  }

  /** `_plan_trim` with its candidates listed in the order `rest`. */
  function TrimAll(db: Rows, now: int, cid: Cid, rest: seq<NodeId>): Rows {
    if cid !in db.objects || db.objects[cid].refcount <= 0 || |PinnedNodes(db, cid)| <= db.objects[cid].n then db
    else Greedy(TrimPlanner(db, now, cid, db.objects[cid].generation), CommittableNodes(db, cid), db.objects[cid].m,
                db, rest, Surplus(db, cid), |SpareCommittable(db, cid)|)
  }

  /** `rest` lists exactly the spare copies. */
  ghost predicate ListsSpare(db: Rows, cid: Cid, rest: seq<NodeId>) {
    Distinct(rest) && forall x :: x in rest <==> x in Spare(db, cid)
  }

  // ------------------------------------------------------------ one planned trim

  /** The same objects, copies and nodes; only jobs may differ. */
  predicate SameCopies(db: Rows, db': Rows) {
    db'.objects == db.objects && db'.replicas == db.replicas && db'.nodes == db.nodes && db'.refs == db.refs
  }

  /** `db'` has one more waiting trim of `x`. */
  ghost predicate OneMore(db: Rows, db': Rows, cid: Cid, x: NodeId) {
    && SameCopies(db, db')
    && ActiveTrimNodes(db', cid) == ActiveTrimNodes(db, cid) + {x}
    && |ActiveTrims(db', cid)| == |ActiveTrims(db, cid)| + 1
    && (forall j :: j in ActiveUnpins(db, cid) ==>
          j in ActiveUnpins(db', cid) && j in db'.jobs && db'.jobs[j] == db.jobs[j])
  }

  lemma SameCounts(db: Rows, db': Rows, cid: Cid)
    requires SameCopies(db, db')
    ensures PinnedNodes(db', cid) == PinnedNodes(db, cid)
    ensures CommittableNodes(db', cid) == CommittableNodes(db, cid)
  {
  }

  lemma AddTrimNodes(db: Rows, job: Job)
    requires Keyed(db) && job.Trims() && job.Active()
    ensures ActiveTrimNodes(AddJob(db, job), job.cid) == ActiveTrimNodes(db, job.cid) + {job.node}
  {
    var db' := AddJob(db, job);
    assert db'.jobs[db.nextJob] == job;
    forall y | y in ActiveTrimNodes(db, job.cid) ensures y in ActiveTrimNodes(db', job.cid) {
      var j :| j in db.jobs && db.jobs[j].cid == job.cid && db.jobs[j].Trims() && db.jobs[j].Active()
               && db.jobs[j].node == y;
      assert db'.jobs[j] == db.jobs[j];
    }
  }

  lemma AddTrimCount(db: Rows, job: Job)
    requires Keyed(db) && job.Trims() && job.Active()
    ensures |ActiveTrims(AddJob(db, job), job.cid)| == |ActiveTrims(db, job.cid)| + 1
  {
    assert ActiveTrims(AddJob(db, job), job.cid) == ActiveTrims(db, job.cid) + {db.nextJob};
  }

  lemma AddKeepsUnpins(db: Rows, job: Job)
    requires Keyed(db)
    ensures var db' := AddJob(db, job);
            forall j :: j in ActiveUnpins(db, job.cid) ==>
              j in ActiveUnpins(db', job.cid) && j in db'.jobs && db'.jobs[j] == db.jobs[j]
  {
  }

  lemma AddTrimIsOneMore(db: Rows, job: Job)
    requires Keyed(db) && job.Trims() && job.Active()
    ensures OneMore(db, AddJob(db, job), job.cid, job.node)
  {
    AddTrimNodes(db, job);
    AddTrimCount(db, job);
    AddKeepsUnpins(db, job);
  }

  /** One more trim only makes it harder to plan another. */
  lemma OneMoreShrinks(db: Rows, db': Rows, now: int, cid: Cid, gen: int, x: NodeId, y: NodeId)
    requires OneMore(db, db', cid, y) && PlanOne(db', now, cid, gen, x).Some?
    ensures PlanOne(db, now, cid, gen, x).Some?
  {
    SameCounts(db, db', cid);
    assert TrimCapacity(db', cid, x, gen, false) == TrimCapacity(db, cid, x, gen, false);
    forall j | j in ActiveUnpins(db, cid) ensures j in ActiveUnpins(db', cid) && db'.jobs[j] == db.jobs[j] {
    }
  }

  lemma PlanOneEffect(db: Rows, now: int, cid: Cid, gen: int, x: NodeId)
    requires Keyed(db) && PlanOne(db, now, cid, gen, x).Some?
    ensures var db' := PlanOne(db, now, cid, gen, x).value;
            Keyed(db') && OneMore(db, db', cid, x)
  {
    AddTrimIsOneMore(db, UnpinJob(now, cid, x, gen, TrimExtra, 0));
  }

  lemma PlannerAddsOne(start: Rows, now: int, cid: Cid, gen: int)
    ensures AddsOne(TrimPlanner(start, now, cid, gen))
  {
    var p := TrimPlanner(start, now, cid, gen);
    forall db, x | p.Ok(db) && p.Plan(db, x).Some?
      ensures p.Ok(p.Plan(db, x).value) && p.Trims(p.Plan(db, x).value) == p.Trims(db) + {x}
    {
      PlanOneEffect(db, now, cid, gen, x);
    }
  }

  lemma PlannerShrinks(start: Rows, now: int, cid: Cid, gen: int)
    ensures Shrinks(TrimPlanner(start, now, cid, gen))
  {
    var p := TrimPlanner(start, now, cid, gen);
    forall db, db1, x, y | p.Ok(db) && p.Plan(db, y) == Some(db1) && p.Plan(db1, x).Some?
      ensures p.Plan(db, x).Some?
    {
      PlanOneEffect(db, now, cid, gen, y);
      OneMoreShrinks(db, db1, now, cid, gen, x, y);
    }
  }

  // ------------------------------------------------------------ trim planning

  /** Planning keeps the floors: if any trim is planned, the confirmed copies no trim names
      still number at least `replication_n`; the committable ones number at least
      `committable_m` or are exactly those there were. */
  lemma TrimPlanKeepsFloors(db: Rows, now: int, cid: Cid, rest: seq<NodeId>)
    requires Keyed(db) && ListsSpare(db, cid, rest)
    requires TrimAll(db, now, cid, rest) != db
    ensures var db' := TrimAll(db, now, cid, rest);
            && cid in db.objects
            && |Spare(db', cid)| >= db.objects[cid].n
            && (|SpareCommittable(db', cid)| >= db.objects[cid].m
                || SpareCommittable(db', cid) == SpareCommittable(db, cid))
            && SameCopies(db, db')
  {
    var gen := db.objects[cid].generation;
    var db' := TrimAll(db, now, cid, rest);
    PlannerAddsOne(db, now, cid, gen);
    GreedyKeepsFloors(TrimPlanner(db, now, cid, gen), CommittableNodes(db, cid), db.objects[cid].m, db, rest,
                      Surplus(db, cid), |SpareCommittable(db, cid)|, db');
    SameCounts(db, db', cid);
    DifferenceSize(PinnedNodes(db', cid), ActiveTrimNodes(db', cid));
  }

  lemma DifferenceSize<T>(a: set<T>, b: set<T>)
    ensures |a - b| >= |a| - |b|
  {
    SubsetSize(a, (a - b) + b);
    UnionSize(a - b, b);
  }

  /** Planning is idempotent: at once after a planning run, another one plans nothing, whatever
      the order in which the two look at the copies. */
  lemma TrimPlanIsIdempotent(db: Rows, now: int, later: int, cid: Cid, rest: seq<NodeId>, again: seq<NodeId>)
    requires Keyed(db) && ListsSpare(db, cid, rest)
    requires ListsSpare(TrimAll(db, now, cid, rest), cid, again)
    ensures TrimAll(TrimAll(db, now, cid, rest), later, cid, again) == TrimAll(db, now, cid, rest)
  {
    if cid in db.objects && db.objects[cid].refcount > 0 && |PinnedNodes(db, cid)| > db.objects[cid].n {
      var (gen, m, comm) := (db.objects[cid].generation, db.objects[cid].m, CommittableNodes(db, cid));
      var p := TrimPlanner(db, now, cid, gen);
      var db' := TrimAll(db, now, cid, rest);
      PlannerAddsOne(db, now, cid, gen);
      PlannerShrinks(db, now, cid, gen);
      GreedyKeepsFloors(p, comm, m, db, rest, Surplus(db, cid), |SpareCommittable(db, cid)|, db');
      GreedyFinishes(p, comm, m, db, rest, Surplus(db, cid), |SpareCommittable(db, cid)|, db');
      SameCounts(db, db', cid);
      if Surplus(db', cid) > 0 {
        SpareIsBlocked(db, db', now, later, cid, gen, comm, m, rest, again);
        GreedyAllBlocked(TrimPlanner(db', later, cid, gen), comm, m, db', again, Surplus(db', cid));
      }
    }
  }

  lemma SpareIsBlocked(db: Rows, db': Rows, now: int, later: int, cid: Cid, gen: int, comm: set<NodeId>, m: int,
                       rest: seq<NodeId>, again: seq<NodeId>)
    requires ListsSpare(db, cid, rest) && ListsSpare(db', cid, again) && PinnedNodes(db', cid) == PinnedNodes(db, cid)
    requires ActiveTrimNodes(db, cid) <= ActiveTrimNodes(db', cid)
    requires forall x :: x in rest ==>
      x in ActiveTrimNodes(db', cid) || Blocked(TrimPlanner(db, now, cid, gen), comm, m, db', x)
    ensures forall x :: x in again ==> Blocked(TrimPlanner(db', later, cid, gen), comm, m, db', x)
  {
    forall x | x in again ensures Blocked(TrimPlanner(db', later, cid, gen), comm, m, db', x) {
      assert x in Spare(db, cid);
      BlockedLater(db, db', now, later, cid, gen, comm, m, x);
    }
  }

  /** What blocks a copy does not depend on the clock. */
  lemma BlockedLater(start: Rows, db: Rows, now: int, later: int, cid: Cid, gen: int, comm: set<NodeId>, m: int,
                     x: NodeId)
    requires Blocked(TrimPlanner(start, now, cid, gen), comm, m, db, x)
    ensures Blocked(TrimPlanner(db, later, cid, gen), comm, m, db, x)
  {
  }

  lemma TrimOrderIsOrder(db: Rows, cid: Cid)
    ensures IsOrder(TrimOrder(db, cid))
    ensures forall a, b :: TrimOrder(db, cid)(a, b) && TrimOrder(db, cid)(b, a) ==> a == b
  {
  }

  /** The plan does not depend on the order in which the rows were read. */
  lemma TrimPlanIgnoresRowOrder(db: Rows, now: int, cid: Cid, rows: seq<NodeId>, other: seq<NodeId>)
    requires multiset(rows) == multiset(other)
    ensures TrimAll(db, now, cid, Sort(TrimOrder(db, cid), rows))
         == TrimAll(db, now, cid, Sort(TrimOrder(db, cid), other))
  {
    TrimOrderIsOrder(db, cid);
    SortForgetsInputOrder(TrimOrder(db, cid), rows, other);
  }

  /** Sorting a listing of the spare copies keeps it one. */
  lemma SortedListing(db: Rows, cid: Cid, rows: seq<NodeId>)
    requires ListsSpare(db, cid, rows)
    ensures ListsSpare(db, cid, Sort(TrimOrder(db, cid), rows))
  {
    var sorted := Sort(TrimOrder(db, cid), rows);
    TrimOrderIsOrder(db, cid);
    SortIsOrderedPermutation(TrimOrder(db, cid), rows);
    forall x ensures x in sorted <==> x in rows {
      assert x in multiset(sorted) <==> x in multiset(rows);
    }
    DistinctIsMultiplicity(rows);
    DistinctIsMultiplicity(sorted);
  }

  lemma {:induction false} DistinctIsMultiplicity(s: seq<NodeId>)
    ensures Distinct(s) <==> forall x :: multiset(s)[x] <= 1
  {
    if s != [] {
      DistinctIsMultiplicity(s[1..]);
      assert s == [s[0]] + s[1..];
      assert forall x :: multiset(s)[x] == multiset(s[1..])[x] + if x == s[0] then 1 else 0;
      assert Distinct(s) <==> Distinct(s[1..]) && s[0] !in s[1..];
    }
  }
}
