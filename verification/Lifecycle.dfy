/** The rows of the replication controller and what each database method does to them.
    A method is one atomic step; an exception rolls its transaction back. Identifiers are
    numbers standing for the strings of the source, times are whole seconds. */
module Lifecycle {
  import opened Arithmetic
  import opened Options

  type Cid = nat
  type NodeId = nat
  type RefId = nat
  type JobId = nat

  datatype Class = Committable | BestEffort | Unknown
  datatype ReplicaState = Assigned | Pinning | Pinned | Grace | Missing | Failed | Unpinned
  datatype Operation = Pin | Verify | Unpin | UnpinVerify
  datatype JobState = Pending | Retry | Authorized | Done | Stale
  datatype Reason = NoReason | TrimExtra | Final | AfterCrash

  datatype Object = Object(size: int, n: int, m: int, refcount: int, generation: int, releasedAt: int)

  /** A reference is tombstoned, never deleted: `releasedAt` is 0 while it is live. */
  datatype Reference = Reference(cid: Cid, releasedAt: int)

  datatype Replica = Replica(desired: bool, state: ReplicaState, class_: Class, generation: int, lastVerified: int)

  datatype Job = Job(cid: Cid, node: NodeId, op: Operation, generation: int, state: JobState, attempts: nat,
                     nextAt: int, lease: int, createdAt: int, reason: Reason)
  {
    predicate Waiting() { state.Pending? || state.Retry? }
    predicate Active() { Waiting() || state.Authorized? }
    predicate Trims() { op.Unpin? && reason.TrimExtra? }
  }

  /** `nextJob` stands for the fresh identifiers that new jobs draw. */
  datatype Rows = Rows(
    nodes: map<NodeId, Class>,
    objects: map<Cid, Object>,
    refs: map<RefId, Reference>,
    replicas: map<(Cid, NodeId), Replica>,
    jobs: map<JobId, Job>,
    nextJob: nat)

  const EMPTY := Rows(map[], map[], map[], map[], map[], 0)

  // ------------------------------------------------------------ queries

  function ActiveUnpins(db: Rows, cid: Cid): set<JobId> {
    set j | j in db.jobs && db.jobs[j].cid == cid && db.jobs[j].op.Unpin? && db.jobs[j].Active()
  }

  function ActiveTrims(db: Rows, cid: Cid): set<JobId> {
    set j | j in db.jobs && db.jobs[j].cid == cid && db.jobs[j].Trims() && db.jobs[j].Active()
  }

  function AuthorizedUnpins(db: Rows, cid: Cid): set<JobId> {
    set j | j in db.jobs && db.jobs[j].cid == cid && db.jobs[j].op.Unpin? && db.jobs[j].state.Authorized?
  }

  /** Nodes whose copy is wanted and confirmed. */
  function PinnedNodes(db: Rows, cid: Cid): set<NodeId> {
    set p | p in db.replicas && p.0 == cid && db.replicas[p].desired && db.replicas[p].state.Pinned? :: p.1
  }

  function CommittableNodes(db: Rows, cid: Cid): set<NodeId> {
    set p | p in db.replicas && p.0 == cid && db.replicas[p].desired && db.replicas[p].state.Pinned?
            && db.replicas[p].class_.Committable? :: p.1
  }

  /** Authorised trims of other nodes that still have a row. */
  function RivalTrims(db: Rows, cid: Cid, node: NodeId): set<JobId> {
    set j | j in db.jobs && db.jobs[j].cid == cid && db.jobs[j].Trims() && db.jobs[j].state.Authorized?
            && db.jobs[j].node != node && (cid, db.jobs[j].node) in db.replicas
  }

  function RivalCommittableTrims(db: Rows, cid: Cid, node: NodeId): set<JobId> {
    set j | j in RivalTrims(db, cid, node) && db.replicas[(cid, db.jobs[j].node)].class_.Committable?
  }

  /** May the copy on `node` go without breaking the object's replication floors? */
  function TrimCapacity(db: Rows, cid: Cid, node: NodeId, generation: int, includeAuthorized: bool): bool {
    && cid in db.objects && db.objects[cid].refcount > 0 && db.objects[cid].generation == generation
    && (cid, node) in db.replicas
    && var target := db.replicas[(cid, node)];
       && target.desired && target.state.Pinned?
       && var total := |PinnedNodes(db, cid)| - if includeAuthorized then |RivalTrims(db, cid, node)| else 0;
          var comm := |CommittableNodes(db, cid)|
                      - if includeAuthorized then |RivalCommittableTrims(db, cid, node)| else 0;
          && total - 1 >= db.objects[cid].n
          && comm - (if target.class_.Committable? then 1 else 0) >= db.objects[cid].m
  }

  // ------------------------------------------------------------ helpers for updates

  function PutJob(db: Rows, j: JobId, job: Job): Rows {
    db.(jobs := db.jobs[j := job])
  }

  function SetState(db: Rows, j: JobId, state: JobState): Rows
    requires j in db.jobs
  {
    PutJob(db, j, db.jobs[j].(state := state))
  }

  function AddJob(db: Rows, job: Job): Rows {
    db.(jobs := db.jobs[db.nextJob := job], nextJob := db.nextJob + 1)
  }

  /** Waiting jobs of the object become stale; an authorised one is left alone. */
  function StaleWaiting(db: Rows, cid: Cid): Rows {
    db.(jobs := map j | j in db.jobs ::
          if db.jobs[j].cid == cid && db.jobs[j].Waiting() then db.jobs[j].(state := Stale) else db.jobs[j])
  }

  // ------------------------------------------------------------ registration and release

  datatype Refusal = Conflict | WrongCid | SizeMismatch | UnknownNode | UnknownCid | UnknownJob | InvalidState

  datatype Outcome<+T> = Ok(value: T) | Refused(why: Refusal)

  /** Counts one more reference; a known reference id changes nothing. */
  function CountReference(db: Rows, cid: Cid, size: int, n: int, m: int, ref: Option<RefId>): Outcome<Rows> {
    if ref.Some? && ref.value in db.refs then
      if db.refs[ref.value].cid != cid then Refused(WrongCid)
      else if cid !in db.objects then Refused(UnknownCid)
      else Ok(db)
    else if cid in db.objects && db.objects[cid].size != size then Refused(SizeMismatch)
    else
      var obj := if cid in db.objects
                 then db.objects[cid].(refcount := db.objects[cid].refcount + 1,
                                       n := Max(db.objects[cid].n, n), m := Max(db.objects[cid].m, m))
                 else Object(size, n, m, 1, 1, 0);
      Ok(db.(objects := db.objects[cid := obj],
             refs := if ref.Some? then db.refs[ref.value := Reference(cid, 0)] else db.refs))
  }

  /** The registering node already holds a copy. */
  function AddSource(db: Rows, now: int, cid: Cid, source: Option<NodeId>): Outcome<Rows>
    requires cid in db.objects
  {
    if source.None? then Ok(db)
    else if source.value !in db.nodes then Refused(UnknownNode)
    else
      var key := (cid, source.value);
      var class_ := if key in db.replicas then db.replicas[key].class_ else db.nodes[source.value];
      Ok(db.(replicas := db.replicas[key := Replica(true, Pinned, class_, db.objects[cid].generation, now)]))
  }

  /** A resurrected object or a raised policy starts a new generation. */
  function Regenerate(db: Rows, cid: Cid, before: Option<Object>): Rows
    requires cid in db.objects
  {
    var obj := db.objects[cid];
    var resurrected := obj.refcount > 0 && obj.releasedAt != 0;
    var policyChanged := before.Some? && (obj.n != before.value.n || obj.m != before.value.m);
    if resurrected || policyChanged then
      var gen := obj.generation + 1;
      StaleWaiting(db.(objects := db.objects[cid := obj.(generation := gen, releasedAt := 0)],
                       replicas := Renumber(db.replicas, cid, gen, resurrected)), cid)
    else db
  }

  /** Copies move to the new generation; a resurrection wants every copy that is still there. */
  function Renumber(replicas: map<(Cid, NodeId), Replica>, cid: Cid, gen: int, resurrected: bool)
    : map<(Cid, NodeId), Replica>
  {
    map p | p in replicas ::
      if p.0 != cid || (resurrected && replicas[p].state.Unpinned?) then replicas[p]
      else replicas[p].(desired := resurrected || replicas[p].desired, generation := gen)
  }

  function Register(db: Rows, now: int, cid: Cid, size: int, n: int, m: int, source: Option<NodeId>,
                    ref: Option<RefId>): Outcome<Rows>
  {
    var before := if cid in db.objects then Some(db.objects[cid]) else None;
    if before.Some? && AuthorizedUnpins(db, cid) != {}
       && (before.value.refcount == 0 || n > before.value.n || m > before.value.m)
    then Refused(Conflict)
    else
      match CountReference(db, cid, size, n, m, ref)
      case Refused(why) => Refused(why)
      case Ok(counted) =>
        match AddSource(counted, now, cid, source)
        case Refused(why) => Refused(why)
        case Ok(sourced) => Ok(Regenerate(sourced, cid, before))
  }

  datatype Released = NotFound | Unchanged | Counted(refcount: int, final: bool, generation: int)

  /** The last reference goes: nothing is wanted any more, in a new generation. */
  function FinalRelease(db: Rows, now: int, cid: Cid): Rows
    requires cid in db.objects
  {
    var obj := db.objects[cid];
    var gen := obj.generation + 1;
    StaleWaiting(
      db.(objects := db.objects[cid := obj.(refcount := 0, releasedAt := now, generation := gen)],
          replicas := map p | p in db.replicas ::
            if p.0 != cid then db.replicas[p] else db.replicas[p].(desired := false, generation := gen)),
      cid)
  }

  function Release(db: Rows, now: int, cid: Cid, ref: Option<RefId>): Outcome<(Rows, Released)> {
    if cid !in db.objects then Ok((db, NotFound))
    else
      var obj := db.objects[cid];
      if ref.Some? && ref.value !in db.refs then Ok((db, Unchanged))
      else if ref.Some? && db.refs[ref.value].cid != cid then Refused(WrongCid)
      else if ref.Some? && db.refs[ref.value].releasedAt != 0 then Ok((db, Unchanged))
      else if ref.None? && obj.refcount <= 0 then Ok((db, Unchanged))
      else
        var db1 := if ref.Some? then db.(refs := db.refs[ref.value := db.refs[ref.value].(releasedAt := now)]) else db;
        var left := Max(0, obj.refcount - 1);
        if left == 0 then
          if AuthorizedUnpins(db, cid) != {} then Refused(Conflict)
          else Ok((FinalRelease(db1, now, cid), Counted(0, true, obj.generation + 1)))
        else
          Ok((db1.(objects := db1.objects[cid := obj.(refcount := left)]), Counted(left, false, obj.generation)))
  }

  // ------------------------------------------------------------ planning jobs

  function CreateUnpin(db: Rows, now: int, cid: Cid, node: NodeId, generation: int, reason: Reason, notBefore: int)
    : Outcome<Option<JobId>>
  {
    if cid !in db.objects || db.objects[cid].generation != generation then Ok(None)
    else if reason.TrimExtra? && |PinnedNodes(db, cid)| - |ActiveTrims(db, cid)| <= db.objects[cid].n then Ok(None)
    else if reason.TrimExtra? && !TrimCapacity(db, cid, node, generation, false) then Ok(None)
    else if !reason.TrimExtra? && db.objects[cid].refcount != 0 then Ok(None)
    else if exists j :: j in ActiveUnpins(db, cid) && db.jobs[j].node == node && db.jobs[j].generation == generation
    then Ok(None)
    else if node !in db.nodes then Refused(UnknownNode)
    else Ok(Some(db.nextJob))
  }

  function UnpinJob(now: int, cid: Cid, node: NodeId, generation: int, reason: Reason, notBefore: int): Job {
    Job(cid, node, Unpin, generation, Pending, 0, Max(now, notBefore), 0, now, reason)
  }

  function AfterCreateUnpin(db: Rows, now: int, cid: Cid, node: NodeId, generation: int, reason: Reason,
                            notBefore: int): Rows
  {
    if CreateUnpin(db, now, cid, node, generation, reason, notBefore) == Ok(Some(db.nextJob))
    then AddJob(db, UnpinJob(now, cid, node, generation, reason, notBefore))
    else db
  }

  function ReadyToUnpin(db: Rows, j: JobId, lease: int): bool
    requires j in db.jobs
  {
    var job := db.jobs[j];
    && job.lease == lease && job.Waiting()
    && job.cid in db.objects && db.objects[job.cid].generation == job.generation
    && if job.reason.TrimExtra? then TrimCapacity(db, job.cid, job.node, job.generation, true)
       else db.objects[job.cid].refcount == 0
  }

  /** Just-in-time authorisation: anything but a current, safe, exactly leased job turns stale. */
  function Authorize(db: Rows, node: NodeId, j: JobId, lease: int): Rows {
    if j !in db.jobs || db.jobs[j].node != node || !db.jobs[j].op.Unpin? then db
    else SetState(db, j, if ReadyToUnpin(db, j, lease) then Authorized else Stale)
  }

  function KeepsAssignment(r: Replica): bool {
    r.desired && (r.state.Assigned? || r.state.Pinning? || r.state.Pinned? || r.state.Grace?)
  }

  predicate HasWaiting(db: Rows, cid: Cid, node: NodeId, op: Operation, generation: int) {
    exists j :: j in db.jobs && db.jobs[j].cid == cid && db.jobs[j].node == node && db.jobs[j].op == op
                && db.jobs[j].generation == generation && db.jobs[j].Waiting()
  }

  function CreatePin(db: Rows, now: int, cid: Cid, node: NodeId, class_: Class): Outcome<Rows> {
    var key := (cid, node);
    if cid !in db.objects then Refused(UnknownCid)
    else if key in db.replicas && KeepsAssignment(db.replicas[key]) then Ok(db)
    else if node !in db.nodes then Refused(UnknownNode)
    else
      var gen := db.objects[cid].generation;
      var verified := if key in db.replicas then db.replicas[key].lastVerified else 0;
      var db1 := db.(replicas := db.replicas[key := Replica(true, Assigned, class_, gen, verified)]);
      Ok(if HasWaiting(db, cid, node, Pin, gen) then db1
         else AddJob(db1, Job(cid, node, Pin, gen, Pending, 0, now, 0, now, NoReason)))
  }

  /** The generation is the caller's: it read it from a row, maybe some time ago. */
  function CreateVerify(db: Rows, now: int, cid: Cid, node: NodeId, generation: int): Outcome<Rows> {
    if exists j :: j in db.jobs && db.jobs[j].cid == cid && db.jobs[j].node == node && db.jobs[j].op.Verify?
                   && db.jobs[j].Waiting()
    then Ok(db)
    else if cid !in db.objects then Refused(UnknownCid)
    else if node !in db.nodes then Refused(UnknownNode)
    else Ok(AddJob(db, Job(cid, node, Verify, generation, Pending, 0, now, 0, now, NoReason)))
  }

  function Mark(db: Rows, cid: Cid, node: NodeId, state: ReplicaState): Rows {
    var key := (cid, node);
    if key in db.replicas then db.(replicas := db.replicas[key := db.replicas[key].(state := state)]) else db
  }

  // ------------------------------------------------------------ delivery and reports

  predicate Due(job: Job, node: NodeId, now: int) {
    job.node == node && job.Waiting() && job.nextAt <= now && (job.lease == 0 || job.lease <= now)
  }

  const LEASE_SECONDS := 120

  /** One poll hands out `ids`, each under a fresh lease that doubles as a delivery token. */
  function Deliver(db: Rows, now: int, ids: set<JobId>): Rows {
    db.(jobs := map j | j in db.jobs ::
          if j in ids then db.jobs[j].(lease := now + LEASE_SECONDS) else db.jobs[j])
  }

  function RetryDelay(attempts: int): int {
    if attempts <= 1 then 30 else if attempts == 2 then 60 else if attempts == 3 then 120
    else if attempts == 4 then 300 else if attempts == 5 then 900 else 1800
  }

  datatype Said = SaidPinned | SaidVerified | SaidUnpinned | SaidFailed | SaidOther

  datatype Report = Report(job: JobId, said: Said, lease: int)

  /** What becomes of a report: fenced off as stale, ignored, refused or applied. */
  datatype Verdict = NoSuchJob | Fence | Ignore | Invalid | Apply

  function BaseVerdict(job: Job, generationOk: bool, now: int, rep: Report): Verdict {
    if !generationOk then Fence
    else if rep.lease != 0 && (job.lease == 0 || rep.lease != job.lease) then Ignore
    else if rep.lease == 0 && job.lease != 0 then Ignore
    else if rep.said.SaidFailed? && rep.lease == 0 && job.state.Retry? && job.nextAt > now then Ignore
    else if job.state.Done? && (rep.said.SaidPinned? || rep.said.SaidVerified?) then Ignore
    else if rep.said.SaidPinned? || rep.said.SaidVerified? || rep.said.SaidFailed? then Apply
    else Invalid
  }

  function Judge(db: Rows, now: int, node: NodeId, rep: Report): Verdict {
    if rep.job !in db.jobs || db.jobs[rep.job].node != node then NoSuchJob
    else
      var job := db.jobs[rep.job];
      var generationOk := job.cid in db.objects && db.objects[job.cid].generation == job.generation;
      match job.op
      case Unpin =>
        if !generationOk || (!job.reason.TrimExtra? && db.objects[job.cid].refcount != 0) then Fence
        else if job.lease != rep.lease || !job.state.Authorized? then Ignore
        else if rep.said.SaidUnpinned? || rep.said.SaidFailed? then Apply
        else Invalid
      case UnpinVerify =>
        if !generationOk || db.objects[job.cid].refcount != 0 then Fence
        else if job.lease != rep.lease then Ignore
        else if rep.said.SaidUnpinned? || rep.said.SaidVerified? || rep.said.SaidFailed? then Apply
        else Invalid
      case _ => BaseVerdict(job, generationOk, now, rep)
  }

  /** The job's row after an applied report. */
  function JobAfter(job: Job, now: int, said: Said): Job {
    if said.SaidFailed? then
      job.(state := Retry, attempts := job.attempts + 1, nextAt := now + RetryDelay(job.attempts + 1), lease := 0)
    else job.(state := Done, lease := 0)
  }

  /** The replica's row after an applied report. */
  function ReplicaAfter(r: Replica, op: Operation, now: int, said: Said): Replica {
    match said
    case SaidUnpinned => r.(state := Unpinned, desired := false)
    case SaidFailed => if op.Pin? || op.Verify? then r.(state := Failed) else r
    case _ => if op.UnpinVerify? then r.(state := Pinned, desired := false, lastVerified := now)
              else r.(state := Pinned, lastVerified := now)
  }

  function Applied(db: Rows, now: int, rep: Report): Rows
    requires rep.job in db.jobs
  {
    var job := db.jobs[rep.job];
    var key := (job.cid, job.node);
    var db1 := PutJob(db, rep.job, JobAfter(job, now, rep.said));
    if key in db.replicas
    then db1.(replicas := db1.replicas[key := ReplicaAfter(db.replicas[key], job.op, now, rep.said)])
    else db1
  }

  function AfterReport(db: Rows, now: int, node: NodeId, rep: Report): Rows {
    match Judge(db, now, node, rep)
    case Fence => SetState(db, rep.job, Stale)
    case Apply => Applied(db, now, rep)
    case _ => db
  }

  // ------------------------------------------------------------ crash recovery

  /** An authorised UNPIN whose outcome is unknown is replaced by a question. */
  function RecoverOne(db: Rows, now: int, j: JobId): Rows
    requires j in db.jobs
  {
    var job := db.jobs[j];
    var db1 := SetState(db, j, Stale);
    if HasWaiting(db1, job.cid, job.node, UnpinVerify, job.generation) then db1
    else AddJob(db1, Job(job.cid, job.node, UnpinVerify, job.generation, Pending, 0, 0, 0, now, AfterCrash))
  }

  function RecoverAll(db: Rows, now: int, ids: seq<JobId>): Rows {
    if ids == [] then db
    else
      var db1 := RecoverAll(db, now, ids[..|ids| - 1]);
      var j := ids[|ids| - 1];
      if j in db1.jobs then RecoverOne(db1, now, j) else db1
  }

  /** `ids` lists the authorised UNPIN jobs of all objects, each once. */
  ghost predicate ListsAuthorized(db: Rows, ids: seq<JobId>) {
    && (forall i, k :: 0 <= i < k < |ids| ==> ids[i] != ids[k])
    && (forall j :: j in ids <==> j in db.jobs && db.jobs[j].op.Unpin? && db.jobs[j].state.Authorized?)
  }

  // ------------------------------------------------------------ runs

  datatype Event =
    | UpsertNode(now: int, node: NodeId, class_: Class)
    | RegisterEvent(now: int, cid: Cid, size: int, n: int, m: int, source: Option<NodeId>, ref: Option<RefId>)
    | ReleaseEvent(now: int, cid: Cid, ref: Option<RefId>)
    | PlanUnpin(now: int, cid: Cid, node: NodeId, generation: int, reason: Reason, notBefore: int)
    | AuthorizeEvent(now: int, node: NodeId, job: JobId, lease: int)
    | PlanPin(now: int, cid: Cid, node: NodeId, class_: Class)
    | PlanVerify(now: int, cid: Cid, node: NodeId, generation: int)
    | MarkEvent(now: int, cid: Cid, node: NodeId, state: ReplicaState)
    | Poll(now: int, node: NodeId, handed: set<JobId>)
    | ReportEvent(now: int, node: NodeId, report: Report)
    | Recover(now: int, lost: seq<JobId>)

  /** Which arguments the callers really pass. A verify job's generation was read from a row,
      so it is not from the future; only three states are ever marked from outside. */
  ghost predicate Possible(db: Rows, e: Event) {
    match e
    case PlanVerify(_, cid, _, g) => cid in db.objects ==> g <= db.objects[cid].generation
    case MarkEvent(_, _, _, state) => state.Pinned? || state.Grace? || state.Missing?
    case Poll(now, node, ids) => forall j :: j in ids ==> j in db.jobs && Due(db.jobs[j], node, now)
    case Recover(_, ids) => ListsAuthorized(db, ids)
    case ReleaseEvent(now, _, _) => now > 0
    case PlanUnpin(_, _, _, _, reason, _) => reason.TrimExtra? || reason.Final?
    case _ => true
  }

  function OrElse(o: Outcome<Rows>, db: Rows): Rows {
    if o.Ok? then o.value else db
  }

  function Next(db: Rows, e: Event): Rows {
    match e
    case UpsertNode(_, node, class_) => db.(nodes := db.nodes[node := class_])
    case RegisterEvent(now, cid, size, n, m, source, ref) => OrElse(Register(db, now, cid, size, n, m, source, ref), db)
    case ReleaseEvent(now, cid, ref) =>
      var o := Release(db, now, cid, ref);
      if o.Ok? then o.value.0 else db
    case PlanUnpin(now, cid, node, g, reason, notBefore) => AfterCreateUnpin(db, now, cid, node, g, reason, notBefore)
    case AuthorizeEvent(_, node, j, lease) => Authorize(db, node, j, lease)
    case PlanPin(now, cid, node, class_) => OrElse(CreatePin(db, now, cid, node, class_), db)
    case PlanVerify(now, cid, node, g) => OrElse(CreateVerify(db, now, cid, node, g), db)
    case MarkEvent(_, cid, node, state) => Mark(db, cid, node, state)
    case Poll(now, _, ids) => Deliver(db, now, ids)
    case ReportEvent(now, node, rep) => AfterReport(db, now, node, rep)
    case Recover(now, ids) => RecoverAll(db, now, ids)
  }

  /** Every run of the controller's database, from the empty one; impossible events are skipped. */
  ghost function Run(events: seq<Event>): Rows {
    if events == [] then EMPTY
    else
      var db := Run(events[..|events| - 1]);
      var e := events[|events| - 1];
      if Possible(db, e) then Next(db, e) else db
  }
}
