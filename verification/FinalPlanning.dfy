/** Planning the deletion of every copy of a released object. */
module FinalPlanning {
  import opened Lifecycle
  import opened LifecycleSafety

  /** Copies that are not known to be gone. */
  function Remaining(db: Rows, cid: Cid): set<NodeId> {
    set p | p in db.replicas && p.0 == cid && !db.replicas[p].state.Unpinned? :: p.1
  }

  /** The loop of `_plan_final_release` over the copies in `rest`. */
  function FinalAll(db: Rows, now: int, cid: Cid, gen: int, notBefore: int, rest: seq<NodeId>): Rows
    decreases |rest|
  {
    if rest == [] then db
    else AfterCreateUnpin(FinalAll(db, now, cid, gen, notBefore, rest[..|rest| - 1]), now, cid, rest[|rest| - 1], gen,
                          Final, notBefore)
  }

  ghost predicate HasUnpin(db: Rows, cid: Cid, x: NodeId, gen: int) {
    exists j :: j in ActiveUnpins(db, cid) && db.jobs[j].node == x && db.jobs[j].generation == gen
  }

  /** Only new deletions were added: none earlier than `notBefore`, each of a copy in `nodes`
      that had no deletion planned. */
  ghost predicate OnlyDeletions(db: Rows, db': Rows, now: int, cid: Cid, gen: int, notBefore: int, nodes: seq<NodeId>) {
    && db'.objects == db.objects && db'.replicas == db.replicas && db'.nodes == db.nodes && db'.refs == db.refs
    && (forall j :: j in db.jobs ==> j in db'.jobs && db'.jobs[j] == db.jobs[j])
    && (forall j :: j in db'.jobs && j !in db.jobs ==>
          var job := db'.jobs[j];
          && job == Job(cid, job.node, Unpin, gen, Pending, 0, if notBefore > now then notBefore else now, 0, now,
                        Final)
          && job.node in nodes && !HasUnpin(db, cid, job.node, gen))
    && (forall i, j :: i in db'.jobs && i !in db.jobs && j in db'.jobs && j !in db.jobs && i != j ==>
          db'.jobs[i].node != db'.jobs[j].node)
  }

  lemma AddDeletion(db: Rows, now: int, cid: Cid, x: NodeId, gen: int, notBefore: int)
    requires Keyed(db) && cid in db.objects && db.objects[cid].generation == gen && db.objects[cid].refcount == 0
    requires x in db.nodes
    ensures var db' := AfterCreateUnpin(db, now, cid, x, gen, Final, notBefore);
            && Keyed(db') && HasUnpin(db', cid, x, gen)
            && if HasUnpin(db, cid, x, gen) then db' == db
               else db' == AddJob(db, UnpinJob(now, cid, x, gen, Final, notBefore))
  {
    if !HasUnpin(db, cid, x, gen) {
      var db' := AddJob(db, UnpinJob(now, cid, x, gen, Final, notBefore));
      assert db.nextJob in ActiveUnpins(db', cid);
    }
  }

  lemma KeptUnpin(db: Rows, db': Rows, cid: Cid, x: NodeId, gen: int)
    requires HasUnpin(db, cid, x, gen) && forall j :: j in db.jobs ==> j in db'.jobs && db'.jobs[j] == db.jobs[j]
    ensures HasUnpin(db', cid, x, gen)
  {
    var j :| j in ActiveUnpins(db, cid) && db.jobs[j].node == x && db.jobs[j].generation == gen;
    assert j in ActiveUnpins(db', cid);
  }

  lemma OneMoreDeletion(db: Rows, db1: Rows, now: int, cid: Cid, gen: int, notBefore: int, nodes: seq<NodeId>,
                        x: NodeId)
    requires Keyed(db1) && OnlyDeletions(db, db1, now, cid, gen, notBefore, nodes) && !HasUnpin(db1, cid, x, gen)
    ensures OnlyDeletions(db, AddJob(db1, UnpinJob(now, cid, x, gen, Final, notBefore)), now, cid, gen, notBefore,
                          nodes + [x])
  {
    if HasUnpin(db, cid, x, gen) {
      KeptUnpin(db, db1, cid, x, gen);
    }
    forall i | i in db1.jobs && i !in db.jobs ensures db1.jobs[i].node != x {
      assert db1.jobs[i].node == x ==> i in ActiveUnpins(db1, cid);
    }
  }

  /** What the pass has achieved for the copies in `nodes`. */
  ghost predicate Covers(db: Rows, db': Rows, now: int, cid: Cid, gen: int, notBefore: int, nodes: seq<NodeId>) {
    && Keyed(db') && OnlyDeletions(db, db', now, cid, gen, notBefore, nodes)
    && forall x :: x in nodes ==> HasUnpin(db', cid, x, gen)
  }

  lemma OneMoreCovered(db: Rows, db1: Rows, now: int, cid: Cid, gen: int, notBefore: int, nodes: seq<NodeId>, x: NodeId)
    requires Covers(db, db1, now, cid, gen, notBefore, nodes)
    requires cid in db.objects && db.objects[cid].generation == gen && db.objects[cid].refcount == 0 && x in db.nodes
    ensures Covers(db, AfterCreateUnpin(db1, now, cid, x, gen, Final, notBefore), now, cid, gen, notBefore, nodes + [x])
  {
    AddDeletion(db1, now, cid, x, gen, notBefore);
    var db' := AfterCreateUnpin(db1, now, cid, x, gen, Final, notBefore);
    if !HasUnpin(db1, cid, x, gen) {
      OneMoreDeletion(db, db1, now, cid, gen, notBefore, nodes, x);
      KeptUnpins(db1, db', cid, nodes, gen);
    } else {
      NoMoreDeletion(db, db1, now, cid, gen, notBefore, nodes, x);
    }
  }

  lemma KeptUnpins(db: Rows, db': Rows, cid: Cid, nodes: seq<NodeId>, gen: int)
    requires forall x :: x in nodes ==> HasUnpin(db, cid, x, gen)
    requires forall j :: j in db.jobs ==> j in db'.jobs && db'.jobs[j] == db.jobs[j]
    ensures forall x :: x in nodes ==> HasUnpin(db', cid, x, gen)
  {
    forall x | x in nodes ensures HasUnpin(db', cid, x, gen) {
      KeptUnpin(db, db', cid, x, gen);
    }
  }

  lemma NoMoreDeletion(db: Rows, db1: Rows, now: int, cid: Cid, gen: int, notBefore: int, nodes: seq<NodeId>, x: NodeId)
    requires OnlyDeletions(db, db1, now, cid, gen, notBefore, nodes)
    ensures OnlyDeletions(db, db1, now, cid, gen, notBefore, nodes + [x])
  {
  }

  lemma {:induction false} FinalAllEffect(db: Rows, now: int, cid: Cid, gen: int, notBefore: int, rest: seq<NodeId>)
    requires Keyed(db) && cid in db.objects && db.objects[cid].generation == gen && db.objects[cid].refcount == 0
    requires forall x :: x in rest ==> x in db.nodes
    ensures Covers(db, FinalAll(db, now, cid, gen, notBefore, rest), now, cid, gen, notBefore, rest)
    decreases |rest|
  {
    if rest != [] {
      var (front, x) := (rest[..|rest| - 1], rest[|rest| - 1]);
      assert rest == front + [x];
      FinalAllEffect(db, now, cid, gen, notBefore, front);
      OneMoreCovered(db, FinalAll(db, now, cid, gen, notBefore, front), now, cid, gen, notBefore, front, x);
    }
  }

  /** `rest` lists the copies not known to be gone. */
  ghost predicate ListsRemaining(db: Rows, cid: Cid, rest: seq<NodeId>) {
    forall x :: x in rest <==> x in Remaining(db, cid)
  }

  /** After the pass every remaining copy of the released object has a deletion under way in the
      current generation; nothing else changed, no copy got two, none is due before the grace
      period ends. */
  lemma FinalPlanCoversEveryCopy(db: Rows, now: int, cid: Cid, notBefore: int, rest: seq<NodeId>)
    requires Keyed(db) && cid in db.objects && db.objects[cid].refcount == 0
    requires ListsRemaining(db, cid, rest)
    ensures var gen := db.objects[cid].generation;
            var db' := FinalAll(db, now, cid, gen, notBefore, rest);
            && OnlyDeletions(db, db', now, cid, gen, notBefore, rest)
            && forall x :: x in Remaining(db', cid) ==> HasUnpin(db', cid, x, gen)
  {
    FinalAllEffect(db, now, cid, db.objects[cid].generation, notBefore, rest);
  }

  lemma {:induction false} FinalAllDone(db: Rows, now: int, cid: Cid, gen: int, notBefore: int, rest: seq<NodeId>)
    requires forall x :: x in rest ==> HasUnpin(db, cid, x, gen)
    ensures FinalAll(db, now, cid, gen, notBefore, rest) == db
    decreases |rest|
  {
    if rest != [] {
      FinalAllDone(db, now, cid, gen, notBefore, rest[..|rest| - 1]);
      assert HasUnpin(db, cid, rest[|rest| - 1], gen);
    }
  }

  /** A second pass plans nothing. */
  lemma FinalPlanIsIdempotent(db: Rows, now: int, later: int, cid: Cid, notBefore: int, rest: seq<NodeId>,
                              again: seq<NodeId>)
    requires Keyed(db) && cid in db.objects && db.objects[cid].refcount == 0
    requires ListsRemaining(db, cid, rest)
    requires ListsRemaining(db, cid, again)
    ensures var gen := db.objects[cid].generation;
            var db' := FinalAll(db, now, cid, gen, notBefore, rest);
            FinalAll(db', later, cid, gen, notBefore, again) == db'
  {
    var gen := db.objects[cid].generation;
    FinalAllEffect(db, now, cid, gen, notBefore, rest);
    FinalAllDone(FinalAll(db, now, cid, gen, notBefore, rest), later, cid, gen, notBefore, again);
  }
}
