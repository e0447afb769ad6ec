/** What crash recovery leaves behind: every authorised UNPIN is stale, and its copy is asked about. */
module RecoveryEffects {
  import opened Lifecycle
  import opened LifecycleSafety
  import opened LifecycleTheorems

  /** A question about the copy that `job` concerned waits. */
  ghost predicate Asked(db: Rows, job: Job) {
    exists q :: q in db.jobs && Asks(db.jobs[q], job) && (db.jobs[q].state == Pending || db.jobs[q].state == Retry)
  }

  /** `q` is a question about the copy of `job`, in its generation. */
  predicate Asks(q: Job, job: Job) {
    q.op == UnpinVerify && q.cid == job.cid && q.node == job.node && q.generation == job.generation
  }

  /** The question as it is asked: at once, never handed out yet. */
  predicate Fresh(q: Job, now: int) {
    && q.state == Pending && q.attempts == 0 && q.nextAt == 0 && q.lease == 0 && q.createdAt == now
    && q.reason == AfterCrash
  }

  /** After the jobs `ids` of `db` have been recovered. */
  ghost predicate Questioned(db: Rows, db': Rows, now: int, ids: seq<JobId>) {
    && OnlyStaled(db, db', ids) && NewQuestions(db, db', now, ids) && NoneTwice(db, db')
    && (forall j :: j in ids ==> j in db.jobs && Asked(db', db.jobs[j]))
  }

  /** Of the rows that were there, only the recovered jobs change: they turn stale. */
  ghost predicate OnlyStaled(db: Rows, db': Rows, ids: seq<JobId>) {
    && db'.objects == db.objects && db'.replicas == db.replicas && db'.refs == db.refs && db'.nodes == db.nodes
    && (forall j :: j in db'.jobs ==> j < db'.nextJob) && db.nextJob <= db'.nextJob
    && (forall j :: j in db.jobs ==>
          j in db'.jobs && db'.jobs[j] == if j in ids then db.jobs[j].(state := Stale) else db.jobs[j])
  }

  /** A job that was added is a fresh question about a recovered copy, where none waited before. */
  ghost predicate NewQuestions(db: Rows, db': Rows, now: int, ids: seq<JobId>) {
    forall q :: q in db'.jobs && q !in db.jobs ==>
      && q >= db.nextJob && Fresh(db'.jobs[q], now) && AnswersOne(db, db'.jobs[q], ids)
      && !Asked(db, db'.jobs[q])
  }

  /** No two added questions are about the same copy. */
  ghost predicate NoneTwice(db: Rows, db': Rows) {
    forall p, q :: p in db'.jobs && p !in db.jobs && q in db'.jobs && q !in db.jobs && p != q ==>
      !Asks(db'.jobs[p], db'.jobs[q])
  }

  /** The question concerns the copy of one of the recovered jobs. */
  ghost predicate AnswersOne(db: Rows, q: Job, ids: seq<JobId>) {
    exists j :: j in ids && j in db.jobs && Asks(q, db.jobs[j])
  }

  lemma AskedIsWaiting(db: Rows, job: Job)
    ensures Asked(db, job) <==> HasWaiting(db, job.cid, job.node, UnpinVerify, job.generation)
  {
    if Asked(db, job) {
      var q :| q in db.jobs && Asks(db.jobs[q], job) && (db.jobs[q].state == Pending || db.jobs[q].state == Retry);
      assert db.jobs[q].Waiting();
    }
    if HasWaiting(db, job.cid, job.node, UnpinVerify, job.generation) {
      var q :| q in db.jobs && db.jobs[q].cid == job.cid && db.jobs[q].node == job.node && db.jobs[q].op == UnpinVerify
               && db.jobs[q].generation == job.generation && db.jobs[q].Waiting();
      assert Asks(db.jobs[q], job);
    }
  }

  /** One job, in rows: it turns stale, and a fresh question is added unless one waits. */
  lemma OneRecovered(db: Rows, now: int, j: JobId)
    requires j in db.jobs && db.jobs[j].op == Unpin
    ensures var job := db.jobs[j];
            var stale := db.(jobs := db.jobs[j := job.(state := Stale)]);
            RecoverOne(db, now, j) ==
              if Asked(stale, job) then stale
              else stale.(jobs := stale.jobs[db.nextJob := Job(job.cid, job.node, UnpinVerify, job.generation,
                                                               Pending, 0, 0, 0, now, AfterCrash)],
                          nextJob := db.nextJob + 1)
  {
    AskedIsWaiting(db.(jobs := db.jobs[j := db.jobs[j].(state := Stale)]), db.jobs[j]);
  }

  /** Turning an UNPIN stale takes no question away. */
  lemma StaleKeepsQuestions(db: Rows, j: JobId, job: Job)
    requires j in db.jobs && db.jobs[j].op == Unpin
    ensures Asked(db.(jobs := db.jobs[j := db.jobs[j].(state := Stale)]), job) <==> Asked(db, job)
  {
    var db' := db.(jobs := db.jobs[j := db.jobs[j].(state := Stale)]);
    if Asked(db, job) {
      var q :| q in db.jobs && Asks(db.jobs[q], job) && (db.jobs[q].state == Pending || db.jobs[q].state == Retry);
      assert q in db'.jobs && db'.jobs[q] == db.jobs[q];
    }
    if Asked(db', job) {
      var q :| q in db'.jobs && Asks(db'.jobs[q], job) && (db'.jobs[q].state == Pending || db'.jobs[q].state == Retry);
      assert q in db.jobs && db.jobs[q] == db'.jobs[q];
    }
  }

  /** The job turned stale, before the question. */
  lemma StaleQuestioned(db: Rows, db1: Rows, now: int, front: seq<JobId>, j: JobId)
    requires Questioned(db, db1, now, front) && j in db.jobs && j !in front && db.jobs[j].op == Unpin
    requires Asked(db1, db.jobs[j])
    ensures Questioned(db, db1.(jobs := db1.jobs[j := db1.jobs[j].(state := Stale)]), now, front + [j])
  {
    var db2 := db1.(jobs := db1.jobs[j := db1.jobs[j].(state := Stale)]);
    forall i | i in front + [j] ensures i in db.jobs && Asked(db2, db.jobs[i]) {
      StaleKeepsQuestions(db1, j, db.jobs[i]);
    }
    forall q | q in db2.jobs && q !in db.jobs ensures AnswersOne(db, db2.jobs[q], front + [j]) {
      assert AnswersOne(db, db1.jobs[q], front);
    }
  }

  function WithQuestion(db: Rows, q: Job): Rows {
    db.(jobs := db.jobs[db.nextJob := q], nextJob := db.nextJob + 1)
  }

  lemma AddedQuestion(db: Rows, db1: Rows, now: int, ids: seq<JobId>, j: JobId, q: Job)
    requires j in db.jobs && j in ids && Asks(q, db.jobs[j]) && Fresh(q, now)
    requires forall i :: i in db.jobs ==> i < db.nextJob
    requires QuestionedBut(db, db1, now, ids, j) && !Asked(db1, q)
    ensures Questioned(db, WithQuestion(db1, q), now, ids)
  {
    AddedIsAsked(db1, q, db.jobs[j]);
    forall i | i in ids && i != j ensures Asked(WithQuestion(db1, q), db.jobs[i]) {
      AddedKeepsQuestions(db1, q, db.jobs[i]);
    }
    AddedIsNew(db, db1, now, ids, j, q);
    AddedIsAlone(db, db1, now, ids, q);
  }

  lemma AddedIsAsked(db: Rows, q: Job, job: Job)
    requires Asks(q, job) && q.state == Pending
    ensures Asked(WithQuestion(db, q), job)
  {
    assert WithQuestion(db, q).jobs[db.nextJob] == q;
  }

  lemma AddedIsNew(db: Rows, db1: Rows, now: int, ids: seq<JobId>, j: JobId, q: Job)
    requires j in db.jobs && j in ids && Asks(q, db.jobs[j]) && Fresh(q, now)
    requires QuestionedBut(db, db1, now, ids, j) && !Asked(db1, q)
    ensures NewQuestions(db, WithQuestion(db1, q), now, ids)
  {
    assert AnswersOne(db, q, ids);
    if Asked(db, q) {
      OldQuestionsStay(db, db1, now, ids, j, q);
    }
  }

  /** An added question that is not asked yet differs from those added before: they all wait. */
  lemma AddedIsAlone(db: Rows, db1: Rows, now: int, ids: seq<JobId>, q: Job)
    requires NewQuestions(db, db1, now, ids) && NoneTwice(db, db1) && !Asked(db1, q) && q.op == UnpinVerify
    requires forall i :: i in db1.jobs ==> i < db1.nextJob
    ensures NoneTwice(db, WithQuestion(db1, q))
  {
    forall p | p in db1.jobs && p !in db.jobs ensures !Asks(db1.jobs[p], q) && !Asks(q, db1.jobs[p]) {
      assert Fresh(db1.jobs[p], now) && AnswersOne(db, db1.jobs[p], ids);
    }
  }

  lemma AddedKeepsQuestions(db: Rows, q: Job, job: Job)
    requires Asked(db, job) && forall i :: i in db.jobs ==> i < db.nextJob
    ensures Asked(WithQuestion(db, q), job)
  {
    var p :| p in db.jobs && Asks(db.jobs[p], job) && (db.jobs[p].state == Pending || db.jobs[p].state == Retry);
    assert p in db.jobs[db.nextJob := q] && db.jobs[db.nextJob := q][p] == db.jobs[p];
  }

  /** The questions that waited in `db` still wait. */
  lemma OldQuestionsStay(db: Rows, db1: Rows, now: int, ids: seq<JobId>, j: JobId, q: Job)
    requires QuestionedBut(db, db1, now, ids, j) && Asked(db, q)
    ensures Asked(db1, q)
  {
    var p :| p in db.jobs && Asks(db.jobs[p], q) && (db.jobs[p].state == Pending || db.jobs[p].state == Retry);
    assert p !in ids;
    assert p in db1.jobs && db1.jobs[p] == db.jobs[p];
  }

  /** As `Questioned`, with the question of `j` still to be asked. */
  ghost predicate QuestionedBut(db: Rows, db': Rows, now: int, ids: seq<JobId>, j: JobId) {
    && OnlyStaled(db, db', ids) && NewQuestions(db, db', now, ids) && NoneTwice(db, db')
    && (forall i :: i in ids ==> i in db.jobs && db.jobs[i].op == Unpin)
    && (forall i :: i in ids && i != j ==> Asked(db', db.jobs[i]))
  }

  lemma StaleQuestionedBut(db: Rows, db1: Rows, now: int, front: seq<JobId>, j: JobId)
    requires Questioned(db, db1, now, front) && j in db.jobs && j !in front
    requires forall i :: i in front + [j] ==> i in db.jobs && db.jobs[i].op == Unpin
    ensures QuestionedBut(db, db1.(jobs := db1.jobs[j := db1.jobs[j].(state := Stale)]), now, front + [j], j)
  {
    var db2 := db1.(jobs := db1.jobs[j := db1.jobs[j].(state := Stale)]);
    forall i | i in front ensures Asked(db2, db.jobs[i]) {
      StaleKeepsQuestions(db1, j, db.jobs[i]);
    }
    forall q | q in db2.jobs && q !in db.jobs ensures AnswersOne(db, db2.jobs[q], front + [j]) {
      assert AnswersOne(db, db1.jobs[q], front);
    }
  }

  lemma RecoverOneQuestions(db: Rows, db1: Rows, now: int, front: seq<JobId>, j: JobId, result: Rows)
    requires Questioned(db, db1, now, front) && j in db.jobs && j !in front
    requires forall i :: i in db.jobs ==> i < db.nextJob
    requires forall i :: i in front + [j] ==> i in db.jobs && db.jobs[i].op == Unpin
    requires j in db1.jobs && result == RecoverOne(db1, now, j)
    ensures Questioned(db, result, now, front + [j])
  {
    assert db1.jobs[j] == db.jobs[j];
    var db2 := db1.(jobs := db1.jobs[j := db1.jobs[j].(state := Stale)]);
    OneRecovered(db1, now, j);
    StaleKeepsQuestions(db1, j, db.jobs[j]);
    if Asked(db2, db.jobs[j]) {
      StaleQuestioned(db, db1, now, front, j);
    } else {
      QuestionAdded(db, db1, db2, now, front, j);
    }
  }

  lemma QuestionAdded(db: Rows, db1: Rows, db2: Rows, now: int, front: seq<JobId>, j: JobId)
    requires Questioned(db, db1, now, front) && j in db.jobs && j !in front
    requires forall i :: i in db.jobs ==> i < db.nextJob
    requires forall i :: i in front + [j] ==> i in db.jobs && db.jobs[i].op == Unpin
    requires db2 == db1.(jobs := db1.jobs[j := db1.jobs[j].(state := Stale)]) && !Asked(db2, db.jobs[j])
    ensures var job := db.jobs[j];
            var q := Job(job.cid, job.node, UnpinVerify, job.generation, Pending, 0, 0, 0, now, AfterCrash);
            Questioned(db, WithQuestion(db2, q), now, front + [j])
  {
    var job := db.jobs[j];
    var q := Job(job.cid, job.node, UnpinVerify, job.generation, Pending, 0, 0, 0, now, AfterCrash);
    StaleQuestionedBut(db, db1, now, front, j);
    SameQuestion(db2, q, job);
    AddedQuestion(db, db2, now, front + [j], j, q);
  }

  lemma SameQuestion(db: Rows, q: Job, job: Job)
    requires q.cid == job.cid && q.node == job.node && q.generation == job.generation
    ensures Asked(db, q) <==> Asked(db, job)
  {
    if Asked(db, q) {
      var p :| p in db.jobs && Asks(db.jobs[p], q) && (db.jobs[p].state == Pending || db.jobs[p].state == Retry);
      assert Asks(db.jobs[p], job);
    }
    if Asked(db, job) {
      var p :| p in db.jobs && Asks(db.jobs[p], job) && (db.jobs[p].state == Pending || db.jobs[p].state == Retry);
      assert Asks(db.jobs[p], q);
    }
  }

  lemma {:induction false} RecoverAllQuestions(db: Rows, now: int, ids: seq<JobId>)
    requires forall i :: i in db.jobs ==> i < db.nextJob
    requires forall i, k :: 0 <= i < k < |ids| ==> ids[i] != ids[k]
    requires forall j :: j in ids ==> j in db.jobs && db.jobs[j].op == Unpin
    ensures Questioned(db, RecoverAll(db, now, ids), now, ids)
  {
    if ids != [] {
      var front, j := ids[..|ids| - 1], ids[|ids| - 1];
      assert ids == front + [j] && j !in front;
      RecoverAllQuestions(db, now, front);
      RecoverOneQuestions(db, RecoverAll(db, now, front), now, front, j, RecoverAll(db, now, ids));
    }
  }

  /** Crash recovery in a reachable database. Every UNPIN that was authorised is stale, and a question
      about its copy waits; the questions added are fresh, each about such a copy, no two about the
      same one and none where one waited already; nothing else changes, and nothing is authorised any
      more. */
  lemma RecoveryAsksAboutEveryCopy(events: seq<Event>, now: int, ids: seq<JobId>)
    requires ListsAuthorized(Run(events), ids)
    ensures var db := Run(events);
            var db' := Run(events + [Recover(now, ids)]);
            && Questioned(db, db', now, ids)
            && (forall j :: j in db.jobs && db.jobs[j].op == Unpin && db.jobs[j].state == Authorized ==>
                  j in db'.jobs && db'.jobs[j].state == Stale && Asked(db', db.jobs[j]))
            && (forall j :: j in db'.jobs ==> db'.jobs[j].state != Authorized)
  {
    RunOk(events);
    RunStep(events, [], Recover(now, ids));
    assert events + [] == events && [] + [Recover(now, ids)] == [Recover(now, ids)];
    RecoverAllQuestions(Run(events), now, ids);
    NothingAuthorized(Run(events), RecoverAll(Run(events), now, ids), now, ids);
  }

  lemma NothingAuthorized(db: Rows, db': Rows, now: int, ids: seq<JobId>)
    requires Inv(db) && ListsAuthorized(db, ids) && Questioned(db, db', now, ids)
    ensures forall j :: j in db'.jobs ==> db'.jobs[j].state != Authorized
    ensures forall j :: j in db.jobs && db.jobs[j].op == Unpin && db.jobs[j].state == Authorized ==>
              j in db'.jobs && db'.jobs[j].state == Stale && Asked(db', db.jobs[j])
  {
    forall j | j in db'.jobs ensures db'.jobs[j].state != Authorized {
      if j in db.jobs {
        assert JobOk(db.objects[db.jobs[j].cid], db.jobs[j]);
      }
    }
  }
}
