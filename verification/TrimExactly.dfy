/** Exactly which copies a trim planning pass gives up: how many, in which order, and by which jobs. */
module TrimExactly {
  import opened Arithmetic
  import opened Options
  import opened Sets
  import opened Sorting
  import opened Lifecycle
  import opened LifecycleSafety
  import opened TrimLoop
  import opened Planning
  import opened PlanningEffects
  import opened Controller
  import opened TrimFloors
  import opened UnpinAuthorization

  // ------------------------------------------------------------ the choice alone

  /** The copies the loop takes if each may be taken that the floor does not protect. */
  function Picked(comm: set<nat>, m: int, rest: seq<nat>, remove: int, left: int): seq<nat> {
    if rest == [] || remove <= 0 then []
    else if rest[0] in comm && left - 1 < m then Picked(comm, m, rest[1..], remove, left)
    else [rest[0]] + Picked(comm, m, rest[1..], remove - 1, left - if rest[0] in comm then 1 else 0)
  }

  function Inside(comm: set<nat>, s: seq<nat>): nat {
    if s == [] then 0 else Inside(comm, s[1..]) + if s[0] in comm then 1 else 0
  }

  function Outside(comm: set<nat>, s: seq<nat>): nat {
    if s == [] then 0 else Outside(comm, s[1..]) + if s[0] in comm then 0 else 1
  }

  /** Every copy that is not committable is taken, and the committable ones above the floor, until
      the surplus is gone. */
  lemma {:induction false} PickedCount(comm: set<nat>, m: int, rest: seq<nat>, remove: int, left: int)
    ensures |Picked(comm, m, rest, remove, left)|
         == Max(0, Min(remove, Outside(comm, rest) + Max(0, Min(left - m, Inside(comm, rest)))))
    decreases |rest|
  {
    if rest != [] && remove > 0 {
      if rest[0] in comm && left - 1 < m {
        PickedCount(comm, m, rest[1..], remove, left);
      } else {
        PickedCount(comm, m, rest[1..], remove - 1, left - if rest[0] in comm then 1 else 0);
      }
    }
  }

  lemma {:induction false} PickedAreListed(comm: set<nat>, m: int, rest: seq<nat>, remove: int, left: int, x: nat)
    requires x in Picked(comm, m, rest, remove, left)
    ensures x in rest
    decreases |rest|
  {
    if rest != [] && remove > 0 {
      if rest[0] in comm && left - 1 < m {
        PickedAreListed(comm, m, rest[1..], remove, left, x);
      } else if x != rest[0] {
        PickedAreListed(comm, m, rest[1..], remove - 1, left - if rest[0] in comm then 1 else 0, x);
      }
    }
  }

  lemma PrependDistinct(x: nat, s: seq<nat>)
    requires x !in s && Distinct(s)
    ensures Distinct([x] + s)
  {
  }

  lemma {:induction false} PickedAreDistinct(comm: set<nat>, m: int, rest: seq<nat>, remove: int, left: int)
    requires Distinct(rest)
    ensures Distinct(Picked(comm, m, rest, remove, left))
    decreases |rest|
  {
    if rest != [] && remove > 0 {
      if rest[0] in comm && left - 1 < m {
        PickedAreDistinct(comm, m, rest[1..], remove, left);
      } else {
        var after := left - if rest[0] in comm then 1 else 0;
        var more := Picked(comm, m, rest[1..], remove - 1, after);
        PickedAreDistinct(comm, m, rest[1..], remove - 1, after);
        forall x | x in more ensures x != rest[0] {
          PickedAreListed(comm, m, rest[1..], remove - 1, after, x);
        }
        PrependDistinct(rest[0], more);
      }
    }
  }

  /** What comes earlier in the list and is not taken is committable, and the floor is reached. */
  lemma {:induction false} EarlierIsPicked(comm: set<nat>, m: int, rest: seq<nat>, remove: int, left: int,
                                           i: nat, k: nat, picked: seq<nat>)
    requires picked == Picked(comm, m, rest, remove, left)
    requires Distinct(rest) && i < k < |rest| && rest[k] in picked && rest[i] !in picked
    ensures rest[i] in comm && left - Inside(comm, picked) <= m
    decreases |rest|
  {
    if rest[0] in comm && left - 1 < m {
      if i > 0 {
        EarlierIsPicked(comm, m, rest[1..], remove, left, i - 1, k - 1, picked);
      }
    } else {
      var after := left - if rest[0] in comm then 1 else 0;
      var more := Picked(comm, m, rest[1..], remove - 1, after);
      assert picked == [rest[0]] + more && picked[1..] == more;
      EarlierIsPicked(comm, m, rest[1..], remove - 1, after, i - 1, k - 1, more);
    }
  }

  function Elements(s: seq<nat>): set<nat> {
    set x | x in s
  }

  lemma HeadElements(s: seq<nat>)
    requires s != [] && Distinct(s)
    ensures Elements(s) == Elements(s[1..]) + {s[0]} && s[0] !in Elements(s[1..])
  {
    assert s == [s[0]] + s[1..];
  }

  lemma {:induction false} CountsAreSizes(comm: set<nat>, s: seq<nat>)
    requires Distinct(s)
    ensures |Elements(s) * comm| == Inside(comm, s) && |Elements(s) - comm| == Outside(comm, s)
  {
    if s != [] {
      CountsAreSizes(comm, s[1..]);
      HeadElements(s);
      OneMoreSizes(Elements(s[1..]), comm, s[0]);
    }
  }

  lemma OneMoreSizes(a: set<nat>, comm: set<nat>, x: nat)
    requires x !in a
    ensures |(a + {x}) * comm| == |a * comm| + if x in comm then 1 else 0
    ensures |(a + {x}) - comm| == |a - comm| + if x in comm then 0 else 1
  {
    if x in comm {
      assert (a + {x}) * comm == (a * comm) + {x};
      assert (a + {x}) - comm == a - comm;
    } else {
      assert (a + {x}) * comm == a * comm;
      assert (a + {x}) - comm == (a - comm) + {x};
    }
  }

  lemma PickedAreIn(comm: set<nat>, m: int, rest: seq<nat>, remove: int, left: int, picked: seq<nat>)
    requires picked == Picked(comm, m, rest, remove, left)
    ensures Elements(picked) <= Elements(rest)
  {
    forall x | x in picked ensures x in rest {
      PickedAreListed(comm, m, rest, remove, left, x);
    }
  }

  lemma {:induction false} DistinctSize(s: seq<nat>)
    requires Distinct(s)
    ensures |Elements(s)| == |s|
  {
    if s != [] {
      DistinctSize(s[1..]);
      HeadElements(s);
    } else {
      assert Elements(s) == {};
    }
  }

  /** Of `others` copies and `durable` committable ones, with `committable` confirmed in all. */
  function Allowance(committable: nat, m: int, surplus: int, others: nat, durable: nat): int {
    if committable < m || surplus <= 0 then 0
    else Min(surplus, others + Max(0, Min(durable - m, durable)))
  }

  lemma PickedTotal(comm: set<nat>, m: int, rest: seq<nat>, remove: int, left: int, picked: seq<nat>,
                    committable: nat)
    requires Distinct(rest) && picked == Picked(comm, m, rest, remove, left)
    requires left == Inside(comm, rest) && committable >= m
    ensures |Elements(picked)| == Allowance(committable, m, remove, Outside(comm, rest), left)
  {
    PickedCount(comm, m, rest, remove, left);
    PickedAreDistinct(comm, m, rest, remove, left);
    DistinctSize(picked);
  }

  // ------------------------------------------------------------ the loop makes that choice

  /** Whatever the loop asks for is scheduled, and uses up one unit of `room`. */
  ghost predicate Obliging<S(!new)>(p: Planner<S>, ok: S -> bool, room: S -> int, comm: set<nat>, m: int,
                                    all: set<nat>)
  {
    forall s, x :: ok(s) && x in all && room(s) > 0 && Open(p, comm, m, s, x) ==> Schedules(p, ok, room, s, x)
  }

  /** Not scheduled yet, and not protected by the floor. */
  ghost predicate Open<S>(p: Planner<S>, comm: set<nat>, m: int, s: S, x: nat) {
    x !in p.Trims(s) && !(x in comm && |comm - p.Trims(s)| - 1 < m)
  }

  ghost predicate Schedules<S>(p: Planner<S>, ok: S -> bool, room: S -> int, s: S, x: nat) {
    && p.Plan(s, x).Some? && ok(p.Plan(s, x).value)
    && p.Trims(p.Plan(s, x).value) == p.Trims(s) + {x} && room(p.Plan(s, x).value) == room(s) - 1
  }

  lemma {:induction false} GreedyPicks<S(!new)>(p: Planner<S>, ok: S -> bool, room: S -> int, comm: set<nat>, m: int,
                                                all: set<nat>, s: S, rest: seq<nat>, remove: int, left: int, s': S,
                                                picked: seq<nat>)
    requires Obliging(p, ok, room, comm, m, all) && ok(s)
    requires Distinct(rest) && forall x :: x in rest ==> x in all && x !in p.Trims(s)
    requires remove == room(s) && left == |comm - p.Trims(s)|
    requires s' == Greedy(p, comm, m, s, rest, remove, left) && picked == Picked(comm, m, rest, remove, left)
    ensures ok(s') && p.Trims(s') == p.Trims(s) + Elements(picked)
    decreases |rest|
  {
    if rest == [] || remove <= 0 {
      assert Elements([]) == {};
    } else if rest[0] in comm && left - 1 < m {
      GreedyPicks(p, ok, room, comm, m, all, s, rest[1..], remove, left, s', picked);
    } else {
      assert Schedules(p, ok, room, s, rest[0]);
      var s1 := p.Plan(s, rest[0]).value;
      var after := left - if rest[0] in comm then 1 else 0;
      var more := Picked(comm, m, rest[1..], remove - 1, after);
      CommLeftStep(comm, p.Trims(s), rest[0]);
      GreedyPicks(p, ok, room, comm, m, all, s1, rest[1..], remove - 1, after, s', more);
      HeadFirst(p.Trims(s), rest[0], more);
    }
  }

  lemma HeadFirst(trims: set<nat>, x: nat, more: seq<nat>)
    ensures (trims + {x}) + Elements(more) == trims + Elements([x] + more)
  {
  }

  // ------------------------------------------------------------ the rows

  /** Beside the rows of `was` there are only new trims of its spare copies: waiting, untried, due at
      once and of the object's generation. */
  ghost predicate OnlyTrims(was: Rows, db: Rows, now: int, cid: Cid) {
    && SameCopies(was, db) && cid in was.objects
    && (forall j :: j in was.jobs ==> j in db.jobs && db.jobs[j] == was.jobs[j])
    && (forall j :: j in db.jobs && j !in was.jobs ==>
          db.jobs[j].node in Spare(was, cid) && db.jobs[j] == NewTrim(was, now, cid, db.jobs[j].node))
  }

  /** The trim of a copy as it is planned. */
  function NewTrim(was: Rows, now: int, cid: Cid, x: NodeId): Job
    requires cid in was.objects
  {
    Job(cid, x, Unpin, was.objects[cid].generation, Pending, 0, if now > 0 then now else 0, 0, now, TrimExtra)
  }

  /** Every open deletion of the object is a trim, and no copy has two. */
  ghost predicate Counted(db: Rows, cid: Cid) {
    && |ActiveTrims(db, cid)| == |ActiveTrimNodes(db, cid)|
    && forall j :: j in ActiveUnpins(db, cid) ==> db.jobs[j].Trims()
  }

  ghost predicate Planned(was: Rows, db: Rows, now: int, cid: Cid) {
    Keyed(db) && OnlyTrims(was, db, now, cid) && Counted(db, cid)
  }

  function Room(was: Rows, db: Rows, cid: Cid): int
    requires cid in was.objects
  {
    |PinnedNodes(was, cid)| - was.objects[cid].n - |ActiveTrimNodes(db, cid)|
  }

  lemma StartPlanned(db: Rows, now: int, cid: Cid)
    requires Inv(db) && OneUnpinEach(db) && cid in db.objects && db.objects[cid].refcount > 0
    ensures Planned(db, db, now, cid)
  {
    InjectiveSize(ActiveTrims(db, cid), NodeOf(db));
    TrimNodesAreImage(db, cid);
    forall j | j in ActiveUnpins(db, cid) ensures db.jobs[j].Trims() {
      assert JobOk(db.objects[cid], db.jobs[j]);
    }
  }

  lemma TrimNodesAreImage(db: Rows, cid: Cid)
    ensures ActiveTrimNodes(db, cid) == Image(ActiveTrims(db, cid), NodeOf(db))
  {
    forall x | x in ActiveTrimNodes(db, cid) ensures x in Image(ActiveTrims(db, cid), NodeOf(db)) {
      var j :| j in db.jobs && db.jobs[j].cid == cid && db.jobs[j].Trims() && db.jobs[j].Active()
               && db.jobs[j].node == x;
      assert j in ActiveTrims(db, cid) && NodeOf(db)(j) == x;
    }
  }

  lemma FreeToTrim(was: Rows, db: Rows, now: int, cid: Cid, x: NodeId)
    requires Planned(was, db, now, cid) && Room(was, db, cid) > 0
    requires x in Spare(was, cid) && x !in ActiveTrimNodes(db, cid) && was.objects[cid].refcount > 0
    requires |CommittableNodes(was, cid)| - (if x in CommittableNodes(was, cid) then 1 else 0) >= was.objects[cid].m
    requires Keyed(was)
    ensures PlanOne(db, now, cid, was.objects[cid].generation, x).Some?
  {
    SameCounts(was, db, cid);
    TargetCounts(db, cid, x);
    forall j | j in ActiveUnpins(db, cid) ensures db.jobs[j].node != x {
      assert db.jobs[j].Trims() && db.jobs[j].node in ActiveTrimNodes(db, cid);
    }
  }

  lemma TrimAdded(was: Rows, db: Rows, now: int, cid: Cid, x: NodeId)
    requires Planned(was, db, now, cid) && x in Spare(was, cid) && x !in ActiveTrimNodes(db, cid)
    requires PlanOne(db, now, cid, was.objects[cid].generation, x).Some? && x in db.nodes
    requires forall j :: j in was.jobs ==> j < db.nextJob
    ensures var db' := PlanOne(db, now, cid, was.objects[cid].generation, x).value;
            && Planned(was, db', now, cid) && ActiveTrimNodes(db', cid) == ActiveTrimNodes(db, cid) + {x}
            && Room(was, db', cid) == Room(was, db, cid) - 1
  {
    var job := NewTrim(was, now, cid, x);
    PlanOneEffect(db, now, cid, was.objects[cid].generation, x);
    AddedOnlyTrims(was, db, now, cid, x);
    AddedCounted(db, job);
  }

  lemma AddedOnlyTrims(was: Rows, db: Rows, now: int, cid: Cid, x: NodeId)
    requires Planned(was, db, now, cid) && x in Spare(was, cid) && forall j :: j in was.jobs ==> j < db.nextJob
    ensures OnlyTrims(was, AddJob(db, NewTrim(was, now, cid, x)), now, cid)
  {
  }

  lemma AddedCounted(db: Rows, job: Job)
    requires Keyed(db) && Counted(db, job.cid) && job.Trims() && job.Active()
    requires job.node !in ActiveTrimNodes(db, job.cid)
    ensures Counted(AddJob(db, job), job.cid)
  {
    AddTrimNodes(db, job);
    AddTrimCount(db, job);
  }

  ghost function IsPlanned(was: Rows, now: int, cid: Cid): Rows -> bool {
    (db: Rows) => Planned(was, db, now, cid)
  }

  ghost function RoomOf(was: Rows, cid: Cid): Rows -> int
    requires cid in was.objects
  {
    (db: Rows) => Room(was, db, cid)
  }

  lemma PlannerObliges(was: Rows, now: int, cid: Cid)
    requires Inv(was) && cid in was.objects && was.objects[cid].refcount > 0
    requires |CommittableNodes(was, cid)| >= was.objects[cid].m
    ensures Obliging(TrimPlanner(was, now, cid, was.objects[cid].generation),
                     IsPlanned(was, now, cid), RoomOf(was, cid), CommittableNodes(was, cid), was.objects[cid].m,
                     Spare(was, cid))
  {
    var gen := was.objects[cid].generation;
    var p := TrimPlanner(was, now, cid, gen);
    var (ok, room) := (IsPlanned(was, now, cid), RoomOf(was, cid));
    forall db, x | ok(db) && x in Spare(was, cid) && room(db) > 0
                   && Open(p, CommittableNodes(was, cid), was.objects[cid].m, db, x)
      ensures Schedules(p, ok, room, db, x)
    {
      OpenIsFree(was, db, now, cid, x);
      FreeToTrim(was, db, now, cid, x);
      TrimAdded(was, db, now, cid, x);
    }
  }

  lemma OpenIsFree(was: Rows, db: Rows, now: int, cid: Cid, x: NodeId)
    requires Inv(was) && cid in was.objects && Planned(was, db, now, cid) && x in Spare(was, cid)
    requires |CommittableNodes(was, cid)| >= was.objects[cid].m
    requires Open(TrimPlanner(was, now, cid, was.objects[cid].generation), CommittableNodes(was, cid),
                  was.objects[cid].m, db, x)
    ensures |CommittableNodes(was, cid)| - (if x in CommittableNodes(was, cid) then 1 else 0) >= was.objects[cid].m
    ensures x !in ActiveTrimNodes(db, cid) && x in db.nodes && forall j :: j in was.jobs ==> j < db.nextJob
  {
    SubsetSize(CommittableNodes(was, cid) - ActiveTrimNodes(db, cid), CommittableNodes(was, cid));
    assert (cid, x) in was.replicas;
  }

  /** With fewer committable copies than the floor nothing is planned. */
  lemma BelowFloorNothing(db: Rows, now: int, cid: Cid, rest: seq<NodeId>)
    requires cid in db.objects && |CommittableNodes(db, cid)| < db.objects[cid].m
    ensures TrimAll(db, now, cid, rest) == db
  {
    var gen := db.objects[cid].generation;
    var p := TrimPlanner(db, now, cid, gen);
    forall x | x in rest ensures Blocked(p, CommittableNodes(db, cid), db.objects[cid].m, db, x) {
      assert !TrimCapacity(db, cid, x, gen, false);
    }
    GreedyAllBlocked(p, CommittableNodes(db, cid), db.objects[cid].m, db, rest, Surplus(db, cid));
  }

  /** The copies the pass takes off the list. */
  function TakenOff(db: Rows, cid: Cid, rest: seq<NodeId>): seq<NodeId>
    requires cid in db.objects
  {
    if |CommittableNodes(db, cid)| < db.objects[cid].m then []
    else Picked(CommittableNodes(db, cid), db.objects[cid].m, rest, Room(db, db, cid), |SpareCommittable(db, cid)|)
  }

  ghost predicate Takes(db: Rows, db': Rows, now: int, cid: Cid, taken: set<NodeId>) {
    Planned(db, db', now, cid) && ActiveTrimNodes(db', cid) == ActiveTrimNodes(db, cid) + taken
  }

  lemma TrimAllTakes(db: Rows, now: int, cid: Cid, rest: seq<NodeId>, db': Rows)
    requires Inv(db) && OneUnpinEach(db) && cid in db.objects && db.objects[cid].refcount > 0
    requires ListsSpare(db, cid, rest) && db' == TrimAll(db, now, cid, rest)
    ensures Takes(db, db', now, cid, Elements(TakenOff(db, cid, rest)))
  {
    StartPlanned(db, now, cid);
    if |CommittableNodes(db, cid)| < db.objects[cid].m || Room(db, db, cid) <= 0 {
      NothingTaken(db, now, cid, rest, db', TakenOff(db, cid, rest));
    } else {
      PlannerObliges(db, now, cid);
      AboveFloorTakes(db, now, cid, rest, db', TakenOff(db, cid, rest));
    }
  }

  lemma NothingTaken(db: Rows, now: int, cid: Cid, rest: seq<NodeId>, db': Rows, taken: seq<NodeId>)
    requires cid in db.objects && Planned(db, db, now, cid)
    requires |CommittableNodes(db, cid)| < db.objects[cid].m || Room(db, db, cid) <= 0
    requires db' == TrimAll(db, now, cid, rest) && taken == TakenOff(db, cid, rest)
    ensures db' == db && Takes(db, db', now, cid, Elements(taken))
  {
    assert Elements([]) == {};
    if |CommittableNodes(db, cid)| < db.objects[cid].m {
      BelowFloorNothing(db, now, cid, rest);
    }
  }

  lemma AboveFloorTakes(db: Rows, now: int, cid: Cid, rest: seq<NodeId>, db': Rows, taken: seq<NodeId>)
    requires cid in db.objects && db.objects[cid].refcount > 0 && Room(db, db, cid) > 0 && Planned(db, db, now, cid)
    requires ListsSpare(db, cid, rest) && db' == TrimAll(db, now, cid, rest) && taken == TakenOff(db, cid, rest)
    requires |CommittableNodes(db, cid)| >= db.objects[cid].m
    requires Obliging(TrimPlanner(db, now, cid, db.objects[cid].generation), IsPlanned(db, now, cid), RoomOf(db, cid),
                      CommittableNodes(db, cid), db.objects[cid].m, Spare(db, cid))
    ensures Takes(db, db', now, cid, Elements(taken))
  {
    var p := TrimPlanner(db, now, cid, db.objects[cid].generation);
    GreedyPicks(p, IsPlanned(db, now, cid), RoomOf(db, cid), CommittableNodes(db, cid), db.objects[cid].m,
                Spare(db, cid), db, rest, Room(db, db, cid), |SpareCommittable(db, cid)|, db', taken);
  }

  // ------------------------------------------------------------ what a pass gives up

  /** A trim of the copy waits or is authorised. */
  ghost predicate TrimOpen(db: Rows, cid: Cid, x: NodeId) {
    exists j :: j in db.jobs && db.jobs[j].cid == cid && db.jobs[j].node == x && db.jobs[j].op == Unpin
                && db.jobs[j].reason == TrimExtra && db.jobs[j].state in {Pending, Retry, Authorized}
  }

  /** The wanted and confirmed copies that no open trim names. */
  ghost function SpareCopies(db: Rows, cid: Cid): set<NodeId> {
    set p | p in db.replicas && p.0 == cid && db.replicas[p].desired && db.replicas[p].state == Pinned
            && !TrimOpen(db, cid, p.1) :: p.1
  }

  /** Those of the committable class. */
  ghost function SpareDurable(db: Rows, cid: Cid): set<NodeId> {
    set x | x in SpareCopies(db, cid) && (cid, x) in db.replicas && db.replicas[(cid, x)].class_ == Committable
  }

  /** Those of another class. */
  ghost function SpareOthers(db: Rows, cid: Cid): set<NodeId> {
    set x | x in SpareCopies(db, cid) && (cid, x) in db.replicas && db.replicas[(cid, x)].class_ != Committable
  }

  /** Best-effort copies go before others, then those checked longest ago, then by node. */
  predicate GoesBefore(db: Rows, cid: Cid, x: NodeId, y: NodeId)
    requires (cid, x) in db.replicas && (cid, y) in db.replicas
  {
    var (a, b) := (db.replicas[(cid, x)], db.replicas[(cid, y)]);
    if (a.class_ == BestEffort) != (b.class_ == BestEffort) then a.class_ == BestEffort
    else if a.lastVerified != b.lastVerified then a.lastVerified < b.lastVerified
    else x < y
  }

  lemma TrimOpenMeans(db: Rows, cid: Cid, x: NodeId)
    ensures TrimOpen(db, cid, x) <==> x in ActiveTrimNodes(db, cid)
  {
    if TrimOpen(db, cid, x) {
      var j :| j in db.jobs && db.jobs[j].cid == cid && db.jobs[j].node == x && db.jobs[j].op == Unpin
               && db.jobs[j].reason == TrimExtra && db.jobs[j].state in {Pending, Retry, Authorized};
      assert db.jobs[j].Trims() && db.jobs[j].Active();
    }
  }

  lemma SpareMeans(db: Rows, cid: Cid)
    ensures SpareCopies(db, cid) == Spare(db, cid) && SpareDurable(db, cid) == SpareCommittable(db, cid)
  {
    forall x ensures x in SpareCopies(db, cid) <==> x in Spare(db, cid) {
      TrimOpenMeans(db, cid, x);
    }
    forall x ensures x in SpareDurable(db, cid) <==> x in SpareCommittable(db, cid) {
      TrimOpenMeans(db, cid, x);
      TargetIfPinned(db, cid, x);
    }
  }

  lemma TargetIfPinned(db: Rows, cid: Cid, x: NodeId)
    ensures x in CommittableNodes(db, cid) <==>
              x in PinnedNodes(db, cid) && (cid, x) in db.replicas && db.replicas[(cid, x)].class_ == Committable
  {
  }

  /** The copies that a pass schedules for removal. */
  ghost function GivenUp(was: Rows, db: Rows, cid: Cid): set<NodeId> {
    set x | x in SpareCopies(was, cid) && TrimOpen(db, cid, x)
  }

  lemma GivenUpIsTakenOff(was: Rows, db: Rows, now: int, cid: Cid, rest: seq<NodeId>)
    requires Inv(was) && OneUnpinEach(was) && cid in was.objects && was.objects[cid].refcount > 0
    requires ListsSpare(was, cid, rest) && db == TrimAll(was, now, cid, rest)
    ensures GivenUp(was, db, cid) == Elements(TakenOff(was, cid, rest))
  {
    TrimAllTakes(was, now, cid, rest, db);
    TakenOffIsSpare(was, cid, rest);
    GivenUpIs(was, db, cid, Elements(TakenOff(was, cid, rest)));
  }

  lemma TakenOffIsSpare(db: Rows, cid: Cid, rest: seq<NodeId>)
    requires cid in db.objects && ListsSpare(db, cid, rest)
    ensures Elements(rest) == Spare(db, cid)
    ensures Elements(TakenOff(db, cid, rest)) <= Spare(db, cid)
  {
    assert Elements(rest) == Spare(db, cid);
    if |CommittableNodes(db, cid)| >= db.objects[cid].m {
      PickedAreIn(CommittableNodes(db, cid), db.objects[cid].m, rest, Room(db, db, cid), |SpareCommittable(db, cid)|,
                  TakenOff(db, cid, rest));
    }
  }

  lemma GivenUpIs(was: Rows, db: Rows, cid: Cid, taken: set<NodeId>)
    requires ActiveTrimNodes(db, cid) == ActiveTrimNodes(was, cid) + taken && taken <= Spare(was, cid)
    ensures GivenUp(was, db, cid) == taken
  {
    SpareMeans(was, cid);
    forall x ensures x in GivenUp(was, db, cid) <==> x in taken {
      TrimOpenMeans(db, cid, x);
    }
  }

  /** The number given up: none below the committable floor; else as much of the surplus as there are
      spare copies that are not committable, and committable ones above the floor. */
  lemma GivenUpCount(was: Rows, db: Rows, now: int, cid: Cid, rest: seq<NodeId>)
    requires Inv(was) && OneUnpinEach(was) && cid in was.objects && was.objects[cid].refcount > 0
    requires ListsSpare(was, cid, rest) && db == TrimAll(was, now, cid, rest)
    ensures |GivenUp(was, db, cid)| == MayGiveUp(was, cid)
  {
    GivenUpIsTakenOff(was, db, now, cid, rest);
    OpenCount(was, now, cid);
    TakenIsAllowance(was, cid, rest, TakenOff(was, cid, rest));
  }

  lemma TakenIsAllowance(db: Rows, cid: Cid, rest: seq<NodeId>, taken: seq<NodeId>)
    requires cid in db.objects && ListsSpare(db, cid, rest) && taken == TakenOff(db, cid, rest)
    requires |OpenTrims(db, cid)| == |ActiveTrimNodes(db, cid)|
    ensures |Elements(taken)| == MayGiveUp(db, cid)
  {
    OthersListed(db, cid, rest);
    DurableListed(db, cid, rest);
    TakenOffCount(db, cid, rest, taken);
  }

  ghost function MayGiveUp(was: Rows, cid: Cid): int
    requires cid in was.objects
  {
    var obj := was.objects[cid];
    var surplus := |PinnedNodes(was, cid)| - obj.n - |OpenTrims(was, cid)|;
    Allowance(|CommittableNodes(was, cid)|, obj.m, surplus, |SpareOthers(was, cid)|, |SpareDurable(was, cid)|)
  }

  lemma TakenOffCount(db: Rows, cid: Cid, rest: seq<NodeId>, taken: seq<NodeId>)
    requires cid in db.objects && Distinct(rest) && taken == TakenOff(db, cid, rest)
    requires |SpareCommittable(db, cid)| == Inside(CommittableNodes(db, cid), rest)
    ensures var (comm, m) := (CommittableNodes(db, cid), db.objects[cid].m);
            |Elements(taken)| == Allowance(|comm|, m, Room(db, db, cid), Outside(comm, rest), Inside(comm, rest))
  {
    var (comm, m) := (CommittableNodes(db, cid), db.objects[cid].m);
    assert Elements([]) == {};
    if |comm| >= m {
      PickedTotal(comm, m, rest, Room(db, db, cid), |SpareCommittable(db, cid)|, taken, |comm|);
    }
  }

  lemma DurableListed(db: Rows, cid: Cid, rest: seq<NodeId>)
    requires ListsSpare(db, cid, rest)
    ensures |SpareDurable(db, cid)| == |SpareCommittable(db, cid)| == Inside(CommittableNodes(db, cid), rest)
  {
    SpareParts(db, cid);
    CountsAreSizes(CommittableNodes(db, cid), rest);
    assert Elements(rest) == Spare(db, cid);
  }

  lemma OthersListed(db: Rows, cid: Cid, rest: seq<NodeId>)
    requires ListsSpare(db, cid, rest)
    ensures |SpareOthers(db, cid)| == Outside(CommittableNodes(db, cid), rest)
  {
    SpareParts(db, cid);
    CountsAreSizes(CommittableNodes(db, cid), rest);
    assert Elements(rest) == Spare(db, cid);
  }

  lemma OpenCount(db: Rows, now: int, cid: Cid)
    requires Inv(db) && OneUnpinEach(db) && cid in db.objects && db.objects[cid].refcount > 0
    ensures |OpenTrims(db, cid)| == |ActiveTrimNodes(db, cid)|
  {
    StartPlanned(db, now, cid);
    OpenTrimsMean(db, cid);
  }

  lemma SpareParts(db: Rows, cid: Cid)
    ensures SpareDurable(db, cid) == SpareCommittable(db, cid) == Spare(db, cid) * CommittableNodes(db, cid)
    ensures SpareOthers(db, cid) == Spare(db, cid) - CommittableNodes(db, cid)
  {
    SpareMeans(db, cid);
    forall x ensures x in SpareCommittable(db, cid) <==> x in Spare(db, cid) * CommittableNodes(db, cid) {
      TargetIfPinned(db, cid, x);
    }
    forall x ensures x in SpareOthers(db, cid) <==> x in Spare(db, cid) - CommittableNodes(db, cid) {
      TargetIfPinned(db, cid, x);
    }
  }

  /** Of two spare copies the one that goes before is given up first, unless it is committable and the
      floor is reached. */
  lemma GivenUpInOrder(was: Rows, db: Rows, now: int, cid: Cid, rest: seq<NodeId>, x: NodeId, y: NodeId)
    requires Inv(was) && OneUnpinEach(was) && cid in was.objects && was.objects[cid].refcount > 0
    requires ListsSpare(was, cid, rest) && Ordered(TrimOrder(was, cid), rest) && db == TrimAll(was, now, cid, rest)
    requires x in GivenUp(was, db, cid) && y in SpareCopies(was, cid) && y !in GivenUp(was, db, cid)
    requires (cid, x) in was.replicas && (cid, y) in was.replicas && GoesBefore(was, cid, y, x)
    ensures y in SpareDurable(was, cid)
    ensures |SpareDurable(was, cid)| - |GivenUp(was, db, cid) * SpareDurable(was, cid)| <= was.objects[cid].m
  {
    GivenUpIsTakenOff(was, db, now, cid, rest);
    SpareOrdered(was, cid, rest, GivenUp(was, db, cid), x, y);
  }

  lemma SpareOrdered(db: Rows, cid: Cid, rest: seq<NodeId>, gone: set<NodeId>, x: NodeId, y: NodeId)
    requires cid in db.objects && gone == Elements(TakenOff(db, cid, rest))
    requires ListsSpare(db, cid, rest) && Ordered(TrimOrder(db, cid), rest)
    requires x in gone && y in SpareCopies(db, cid) && y !in gone
    requires (cid, x) in db.replicas && (cid, y) in db.replicas && GoesBefore(db, cid, y, x)
    ensures y in SpareDurable(db, cid)
    ensures |SpareDurable(db, cid)| - |gone * SpareDurable(db, cid)| <= db.objects[cid].m
  {
    SpareMeans(db, cid);
    TakenOffIsSpare(db, cid, rest);
    TakenInOrder(db, cid, rest, x, y, TakenOff(db, cid, rest));
    SpareParts(db, cid);
    Within(gone, Spare(db, cid), CommittableNodes(db, cid), SpareDurable(db, cid));
  }

  lemma Within(gone: set<NodeId>, spare: set<NodeId>, comm: set<NodeId>, durable: set<NodeId>)
    requires gone <= spare && durable == spare * comm
    ensures gone * durable == gone * comm
  {
  }

  lemma TakenInOrder(db: Rows, cid: Cid, rest: seq<NodeId>, x: NodeId, y: NodeId, taken: seq<NodeId>)
    requires cid in db.objects && taken == TakenOff(db, cid, rest)
    requires Distinct(rest) && Elements(rest) == Spare(db, cid) && Ordered(TrimOrder(db, cid), rest)
    requires x in taken && x in rest && y in rest && y !in taken
    requires (cid, x) in db.replicas && (cid, y) in db.replicas && GoesBefore(db, cid, y, x)
    ensures y in CommittableNodes(db, cid)
    ensures |SpareCommittable(db, cid)| - |Elements(taken) * CommittableNodes(db, cid)| <= db.objects[cid].m
  {
    var (comm, m) := (CommittableNodes(db, cid), db.objects[cid].m);
    var (room, left) := (Room(db, db, cid), |SpareCommittable(db, cid)|);
    var i, k := Places(db, cid, rest, x, y);
    PickedAreDistinct(comm, m, rest, room, left);
    CountsAreSizes(comm, taken);
    EarlierIsPicked(comm, m, rest, room, left, i, k, taken);
  }

  lemma Places(db: Rows, cid: Cid, rest: seq<NodeId>, x: NodeId, y: NodeId) returns (i: nat, k: nat)
    requires Ordered(TrimOrder(db, cid), rest) && x in rest && y in rest
    requires (cid, x) in db.replicas && (cid, y) in db.replicas && GoesBefore(db, cid, y, x)
    ensures i < k < |rest| && rest[i] == y && rest[k] == x
  {
    NoneGoesBefore(db, cid, rest);
    i :| 0 <= i < |rest| && rest[i] == y;
    k :| 0 <= k < |rest| && rest[k] == x;
  }

  lemma NoneGoesBefore(db: Rows, cid: Cid, rest: seq<NodeId>)
    requires Ordered(TrimOrder(db, cid), rest)
    ensures forall k, i :: 0 <= k < i < |rest| && (cid, rest[i]) in db.replicas && (cid, rest[k]) in db.replicas ==>
              !GoesBefore(db, cid, rest[i], rest[k])
  {
    forall k, i | 0 <= k < i < |rest| && (cid, rest[i]) in db.replicas && (cid, rest[k]) in db.replicas
      ensures !GoesBefore(db, cid, rest[i], rest[k])
    {
      assert TrimOrder(db, cid)(rest[k], rest[i]);
    }
  }

  /** Trims of spare copies and nothing else, exactly as many as the floors allow, and in the order of
      `GoesBefore` as far as the committable floor does not protect a copy. */
  ghost predicate GivesUpExactly(was: Rows, db: Rows, now: int, cid: Cid) {
    var gone := GivenUp(was, db, cid);
    && OnlyTrims(was, db, now, cid)
    && |gone| == MayGiveUp(was, cid)
    && forall x, y :: x in gone && y in SpareCopies(was, cid) && y !in gone
                      && (cid, x) in was.replicas && (cid, y) in was.replicas && GoesBefore(was, cid, y, x) ==>
         && y in SpareDurable(was, cid)
         && |SpareDurable(was, cid)| - |gone * SpareDurable(was, cid)| <= was.objects[cid].m
  }

  /** A trim planning pass over a reachable database: exactly this for a referenced object, and nothing
      for any other. */
  lemma TrimPassIsExact(events: seq<Event>, db: Rows, now: int, cid: Cid)
    requires TrimPlanned(Run(events), db, now, cid)
    ensures var was := Run(events);
            if cid in was.objects && was.objects[cid].refcount > 0 then GivesUpExactly(was, db, now, cid) else db == was
  {
    var was := Run(events);
    var rest :| ListsSpare(was, cid, rest) && Ordered(TrimOrder(was, cid), rest) && db == TrimAll(was, now, cid, rest);
    RunOk(events);
    RunOneUnpinEach(events);
    if cid in was.objects && was.objects[cid].refcount > 0 {
      TrimAllTakes(was, now, cid, rest, db);
      GivenUpCount(was, db, now, cid, rest);
      forall x, y | x in GivenUp(was, db, cid) && y in SpareCopies(was, cid) && y !in GivenUp(was, db, cid)
                    && (cid, x) in was.replicas && (cid, y) in was.replicas && GoesBefore(was, cid, y, x)
        ensures y in SpareDurable(was, cid)
        ensures |SpareDurable(was, cid)| - |GivenUp(was, db, cid) * SpareDurable(was, cid)| <= was.objects[cid].m
      {
        GivenUpInOrder(was, db, now, cid, rest, x, y);
      }
    }
  }
}
