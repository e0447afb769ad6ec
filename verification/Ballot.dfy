/** The voter half of the TEP-HA agent: what one voter persists, what it keeps in
    memory, and how it answers a request. Time is whole milliseconds. */
module Ballot {
  type NodeId = string

  /** The part of the configuration that every node shares. */
  datatype Config = Config(clusterId: string, voters: seq<NodeId>, candidates: set<NodeId>, leaseMs: int)
  {
    ghost predicate Valid() {
      && voters != []
      && (forall i, j :: 0 <= i < j < |voters| ==> voters[i] != voters[j])
      && "" !in voters
      && "" !in candidates
      && leaseMs > 0
    }

    function Quorum(): nat {
      |voters| / 2 + 1
    }

    function VoterSet(): set<NodeId> {
      set v | v in voters
    }
  }

  /** `term` and `votedFor` survive a restart; `holder` and `deadline` (the live lease) do
      not; `guardUntil` is set by the constructor. The empty string stands for "nobody". */
  datatype Ballot = Ballot(term: int, votedFor: NodeId, holder: NodeId, deadline: int, guardUntil: int)

  const BLANK := Ballot(0, "", "", 0, 0)

  datatype Request =
    | Status(cluster: string)
    | Vote(cluster: string, candidate: NodeId, term: int, leaseMs: int)
    | Renewal(cluster: string, holder: NodeId, term: int, leaseMs: int)
    | Unsupported(cluster: string)

  datatype Reason = RestartLeaseGuard | ActiveLease | StaleTerm | AlreadyVoted | NotCurrentHolder

  datatype Reply =
    | Granted(term: int, holder: NodeId, leaseMs: int)
    | Refused(term: int, holder: NodeId, remaining: int, reason: Reason)
    | Report(term: int, holder: NodeId, remaining: int)

  datatype Error =
    BadRequest | ClusterMismatch | NotVoter | CandidateUnknown | IdentityMismatch | BadLease | UnsupportedOp

  datatype Outcome = Answer(reply: Reply) | Failure(error: Error)

  /** The voter's view of its own lease: an expired lease has no holder. */
  function StatusOf(b: Ballot, now: int): Reply {
    if b.deadline <= now then Report(b.term, "", 0) else Report(b.term, b.holder, b.deadline - now)
  }

  /** `vote_request` inside the voter lock. */
  function Vote1(b: Ballot, now: int, candidate: NodeId, term: int, leaseMs: int): (Ballot, Reply) {
    if b.deadline > now && b.holder != "" && b.holder != candidate then
      (b, Refused(b.term, b.holder, b.deadline - now, ActiveLease))
    else if term < b.term then
      (b, Refused(b.term, "", 0, StaleTerm))
    else if term == b.term && b.votedFor != "" && b.votedFor != candidate then
      (b, Refused(b.term, "", 0, AlreadyVoted))
    else
      (b.(term := term, votedFor := candidate, holder := candidate, deadline := now + leaseMs),
       Granted(term, candidate, leaseMs))
  }

  /** The whole request handler: restart guard first, then validation, then the operation. */
  function Handle(cfg: Config, isVoter: bool, b: Ballot, now: int, source: NodeId, peer: string, req: Request)
    : (Ballot, Outcome)
  {
    if req.Vote? && isVoter && b.guardUntil > now && b.votedFor != "" && source != "" && source != b.votedFor then
      (b, Answer(Refused(b.term, b.votedFor, b.guardUntil - now, RestartLeaseGuard)))
    else if source == "" || peer == "" then (b, Failure(BadRequest))
    else if req.cluster != cfg.clusterId then (b, Failure(ClusterMismatch))
    else if req.Status? then (b, Answer(StatusOf(b, now)))
    else if !isVoter then (b, Failure(NotVoter))
    else if source !in cfg.candidates then (b, Failure(CandidateUnknown))
    else if req.Vote? then
      if req.candidate != source then (b, Failure(IdentityMismatch))
      else if req.leaseMs <= 0 || req.leaseMs > cfg.leaseMs then (b, Failure(BadLease))
      else
        var (b', reply) := Vote1(b, now, req.candidate, req.term, req.leaseMs);
        (b', Answer(reply))
    else if req.Renewal? then
      if req.holder != source then (b, Failure(IdentityMismatch))
      else if req.term != b.term || b.votedFor != req.holder then
        (b, Answer(Refused(b.term, "", 0, NotCurrentHolder)))
      else if req.leaseMs <= 0 || req.leaseMs > cfg.leaseMs then (b, Failure(BadLease))
      else
        (b.(holder := req.holder, deadline := now + req.leaseMs), Answer(Granted(req.term, req.holder, req.leaseMs)))
    else (b, Failure(UnsupportedOp))
  }

  /** A fresh process over the persisted vote: the live lease is forgotten, and the voter
      refuses other candidates for one whole lease if it may have granted one. */
  function Restarted(cfg: Config, isVoter: bool, b: Ballot, now: int): Ballot {
    Ballot(b.term, b.votedFor, "", 0,
           if isVoter && b.term > 0 && b.votedFor != "" then now + cfg.leaseMs else 0)
  }

  /** The voter has promised `c` the lease until `d`, in a way no restart can undo. */
  predicate Bound(b: Ballot, c: NodeId, d: int) {
    b.votedFor == c && ((b.holder == c && b.deadline >= d) || b.guardUntil >= d)
  }

  /** What every handler call and every restart keeps. */
  ghost predicate Sound(cfg: Config, b: Ballot, now: int) {
    && b.term >= 0
    && (b.holder == "" || b.holder == b.votedFor)
    && (b.deadline > 0 ==> b.holder != "")
    && b.deadline <= now + cfg.leaseMs
    && b.guardUntil <= now + cfg.leaseMs
    && (b.guardUntil > 0 ==> b.term > 0)
  }

  /** A vote was cast in a positive term only. */
  predicate Positive(b: Ballot) {
    b.votedFor != "" ==> b.term > 0
  }

  predicate PositiveTerm(req: Request) {
    req.Vote? ==> req.term != 0
  }

  lemma HandleKeepsSound(cfg: Config, isVoter: bool, b: Ballot, now: int, source: NodeId, peer: string, req: Request)
    requires Sound(cfg, b, now) && 0 <= now
    ensures var b' := Handle(cfg, isVoter, b, now, source, peer, req).0;
            && Sound(cfg, b', now) && b.term <= b'.term
            && (Positive(b) && PositiveTerm(req) ==> Positive(b'))
  {
  }

  /** A request that grants the candidate already voted for a lease until `now + leaseMs`. */
  predicate Regrants(cfg: Config, b: Ballot, source: NodeId, peer: string, req: Request) {
    && source == b.votedFor && source in cfg.candidates && source != "" && peer != "" && req.cluster == cfg.clusterId
    && match req
       case Vote(_, candidate, term, ms) => candidate == source && term >= b.term && 0 < ms <= cfg.leaseMs
       case Renewal(_, holder, term, ms) => holder == source && term == b.term && 0 < ms <= cfg.leaseMs
       case _ => false
  }

  /** The request replaces a promise until `d` by an earlier one, and no restart guard covers the gap. */
  predicate Shortens(cfg: Config, b: Ballot, now: int, source: NodeId, peer: string, req: Request, d: int) {
    Regrants(cfg, b, source, peer, req) && now + req.leaseMs < d && b.guardUntil < d
  }

  /** Whatever arrives, a running promise to `c` stays in force exactly if the request is not
      one that shortens it. */
  lemma HandleKeepsBoundIff(cfg: Config, b: Ballot, now: int, source: NodeId, peer: string, req: Request,
                            c: NodeId, d: int)
    requires Bound(b, c, d) && c != "" && now < d
    ensures Bound(Handle(cfg, true, b, now, source, peer, req).0, c, d)
       <==> !Shortens(cfg, b, now, source, peer, req, d)
  {
  }

  /** The restart guard covers a running promise exactly when the persisted term is positive. */
  lemma RestartKeepsBoundIff(cfg: Config, isVoter: bool, b: Ballot, now: int, c: NodeId, d: int)
    requires Bound(b, c, d) && c != "" && 0 <= now < d <= now + cfg.leaseMs
    ensures Bound(Restarted(cfg, isVoter, b, now), c, d) <==> isVoter && b.term > 0
  {
  }
}
