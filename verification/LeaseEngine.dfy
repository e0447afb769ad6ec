/** The agent process of TEP-HA v2.2: the voter of module Ballot together with the candidate
    that campaigns, renews and demotes itself. What the network and the clock deliver
    (replies, clock readings, eligibility) are parameters. */
module LeaseEngine {
  import opened Arithmetic
  import opened Ballot
  import opened Options
  import opened Sets

  /** The guard file: the primary services may run until `deadline`. */
  datatype Guard = Guard(holder: NodeId, term: int, deadline: int)

  /** `primary` is the mode asked of the service controller. */
  datatype Leader = Leader(term: int, deadline: int, guard: Option<Guard>, primary: bool)

  const STANDBY := Leader(0, 0, None, false)

  /** One voter's answer to a status query. */
  datatype Response = Response(voter: NodeId, term: int, holder: NodeId, remaining: int)

  /** The cluster as seen through the responses: `holder` is empty without a majority. */
  datatype View = View(maxTerm: int, holder: NodeId, term: int)

  datatype Move = Stay | Renew | Adopt | Campaign(term: int)

  // ------------------------------------------------------------ the majority view

  predicate Supports(r: Response, term: int, holder: NodeId) {
    r.term == term && r.holder == holder && r.remaining > 0
  }

  function Support(responses: seq<Response>, term: int, holder: NodeId): nat {
    if responses == [] then 0
    else Support(responses[..|responses| - 1], term, holder)
         + if Supports(responses[|responses| - 1], term, holder) then 1 else 0
  }

  function Supporters(responses: seq<Response>, term: int, holder: NodeId): set<NodeId> {
    set r | r in responses && Supports(r, term, holder) :: r.voter
  }

  ghost predicate IsMaxTerm(responses: seq<Response>, t: int) {
    && t >= 0
    && (forall i :: 0 <= i < |responses| ==> responses[i].term <= t)
    && (t == 0 || exists i :: 0 <= i < |responses| && responses[i].term == t)
  }

  /** The view reports the largest term seen, and a holder exactly when a quorum of the
      responses names it, in one term, with time left. */
  ghost predicate IsMajorityView(quorum: nat, responses: seq<Response>, view: View) {
    && IsMaxTerm(responses, view.maxTerm)
    && (view.holder != "" ==> Support(responses, view.term, view.holder) >= quorum)
    && (view.holder == "" ==> view.term == 0
                              && forall t, h :: h != "" ==> Support(responses, t, h) < quorum)
  }

  ghost predicate DistinctVoters(responses: seq<Response>) {
    forall i, j :: 0 <= i < j < |responses| ==> responses[i].voter != responses[j].voter
  }

  /** Counting responses and collecting the voters who sent them agree. */
  lemma {:induction false} SupportIsSupporters(responses: seq<Response>, term: int, holder: NodeId)
    requires DistinctVoters(responses)
    ensures |Supporters(responses, term, holder)| == Support(responses, term, holder)
  {
    if responses != [] {
      var n := |responses| - 1;
      var front, last := responses[..n], responses[n];
      SupportIsSupporters(front, term, holder);
      var extra := if Supports(last, term, holder) then {last.voter} else {};
      assert forall r :: r in responses <==> r in front || r == last;
      assert Supporters(responses, term, holder) == Supporters(front, term, holder) + extra;
      assert last.voter !in Supporters(front, term, holder);
    }
  }

  /** Two subsets of one set, each holding a strict majority of it, meet. */
  lemma QuorumsMeet(all: set<NodeId>, a: set<NodeId>, b: set<NodeId>) returns (v: NodeId)
    requires a <= all && b <= all && |a| + |b| > |all|
    ensures v in a && v in b
  {
    if a * b == {} {
      assert |a + b| == |a| + |b|;
      SubsetSize(a + b, all);
    }
    v :| v in a * b;
  }

  lemma {:induction false} VoterSetSize(voters: seq<NodeId>)
    requires forall i, j :: 0 <= i < j < |voters| ==> voters[i] != voters[j]
    ensures |set v | v in voters| == |voters|
  {
    if voters != [] {
      var front, last := voters[..|voters| - 1], voters[|voters| - 1];
      VoterSetSize(front);
      assert (set v | v in voters) == (set v | v in front) + {last};
    }
  }

  /** With one response per voter the view is determined: the dictionary order in which a
      tie is broken never decides the holder. */
  lemma MajorityViewIsUnique(cfg: Config, responses: seq<Response>, a: View, b: View)
    requires cfg.Valid() && DistinctVoters(responses)
    requires forall r :: r in responses ==> r.voter in cfg.voters
    requires IsMajorityView(cfg.Quorum(), responses, a) && IsMajorityView(cfg.Quorum(), responses, b)
    ensures a == b
  {
    if a.holder != "" && b.holder != "" {
      SupportIsSupporters(responses, a.term, a.holder);
      SupportIsSupporters(responses, b.term, b.holder);
      VoterSetSize(cfg.voters);
      var v := QuorumsMeet(cfg.VoterSet(), Supporters(responses, a.term, a.holder),
                           Supporters(responses, b.term, b.holder));
      var r, q :| r in responses && q in responses && r.voter == v == q.voter
                  && Supports(r, a.term, a.holder) && Supports(q, b.term, b.holder);
      assert r == q;
    }
  }

  /** The view names a holder and a term exactly if more than half of the voters report just them with
      time left. */
  lemma MajorityViewMeans(cfg: Config, responses: seq<Response>, view: View, term: int, holder: NodeId)
    requires cfg.Valid() && DistinctVoters(responses) && forall r :: r in responses ==> r.voter in cfg.voters
    requires IsMajorityView(cfg.Quorum(), responses, view) && holder != ""
    ensures var backers := set r | r in responses && r.term == term && r.holder == holder && r.remaining > 0 :: r.voter;
            view.holder == holder && view.term == term <==> 2 * |backers| > |cfg.voters|
  {
    var backers := set r | r in responses && r.term == term && r.holder == holder && r.remaining > 0 :: r.voter;
    assert backers == Supporters(responses, term, holder);
    SupportIsSupporters(responses, term, holder);
    if 2 * |backers| > |cfg.voters| {
      MajorityViewIsUnique(cfg, responses, view, View(view.maxTerm, holder, term));
    }
  }

  method MajorityView(quorum: nat, responses: seq<Response>) returns (view: View)
    requires quorum > 0
    ensures IsMajorityView(quorum, responses, view)
  {
    var maxTerm := 0;
    var counts: map<(int, NodeId), nat> := map[];
    for i := 0 to |responses|
      invariant IsMaxTerm(responses[..i], maxTerm)
      invariant forall t, h :: (t, h) in counts ==> h != "" && counts[(t, h)] == Support(responses[..i], t, h)
      invariant forall t, h :: h != "" && (t, h) !in counts ==> Support(responses[..i], t, h) == 0
    {
      var r := responses[i];
      assert responses[..i + 1][..i] == responses[..i];
      assert forall k :: 0 <= k < i ==> responses[..i + 1][k] == responses[..i][k];
      assert responses[..i + 1][i] == r;
      maxTerm := Max(maxTerm, r.term);
      if r.holder != "" && r.remaining > 0 {
        var key := (r.term, r.holder);
        counts := counts[key := (if key in counts then counts[key] else 0) + 1];
      }
    }
    assert responses[..|responses|] == responses;
    if |counts| == 0 {
      return View(maxTerm, "", 0);
    }
    var keys := counts.Keys;
    var best :| best in keys;
    keys := keys - {best};
    while keys != {}
      invariant keys <= counts.Keys && best in counts
      invariant forall k :: k in counts.Keys - keys ==> counts[k] <= counts[best]
      decreases keys
    {
      var key :| key in keys;
      if counts[key] > counts[best] || (counts[key] == counts[best] && key.0 > best.0) {
        best := key;
      }
      keys := keys - {key};
    }
    if counts[best] >= quorum {
      return View(maxTerm, best.1, best.0);
    }
    view := View(maxTerm, "", 0);
    forall t, h | h != "" ensures Support(responses, t, h) < quorum {
      if (t, h) in counts {
        assert counts[(t, h)] <= counts[best];
      }
    }
  }

  // ------------------------------------------------------------ what the candidate decides

  /** A control loop that raises demotes the candidate only if its lease is over. */
  function Interrupted(l: Leader, now: int): Leader {
    if l.deadline <= now then Demoted(l) else l
  }

  function Demoted(l: Leader): Leader {
    l.(deadline := 0, guard := None, primary := false)
  }

  /** The decisions of one control loop up to its first lease request. */
  function Choose(cfg: Config, self: NodeId, isCandidate: bool, l: Leader, view: View, reachable: nat, now: int,
                  eligible: bool, higherReady: bool): (Leader, Move)
  {
    if view.holder != "" && view.holder != self then
      (Demoted(l.(term := Max(l.term, view.term))), Stay)
    else if isCandidate && l.deadline > now then
      if view.maxTerm > l.term then (Demoted(l), Stay) else (l, Renew)
    else if !isCandidate then (l, Stay)
    else if !eligible || reachable < cfg.Quorum() then (Demoted(l), Stay)
    else if view.holder == self && view.term > 0 then
      (l.(term := view.term, deadline := now + cfg.leaseMs), Adopt)
    else if higherReady then (Demoted(l), Stay)
    else (l, Campaign(view.maxTerm + 1))
  }

  /** A round is won by a quorum of grants, if the lease counted from the round's start is
      still running. */
  predicate Wins(cfg: Config, grants: nat, started: int, now: int) {
    grants >= cfg.Quorum() && started + cfg.leaseMs > now
  }

  function Promoted(cfg: Config, self: NodeId, guarded: bool, l: Leader, term: int, started: int): Leader {
    Leader(term, started + cfg.leaseMs,
           if guarded then Some(Guard(self, term, started + cfg.leaseMs)) else l.guard, true)
  }

  /** Renewal and adoption renew under the leader's own term. */
  function AfterRenew(cfg: Config, self: NodeId, guarded: bool, l: Leader, grants: nat, started: int, now: int)
    : Leader
  {
    if Wins(cfg, grants, started, now) then Promoted(cfg, self, guarded, l, l.term, started) else l
  }

  function AfterCampaign(cfg: Config, self: NodeId, guarded: bool, l: Leader, term: int, grants: nat, highest: int,
                         started: int, now: int): Leader
  {
    if Wins(cfg, grants, started, now) then Promoted(cfg, self, guarded, l, term, started)
    else if highest > term then l.(term := highest)
    else l
  }

  /** The control loop's clean-up after a round. */
  function Settled(l: Leader, move: Move, now: int): Leader {
    if (move.Renew? || move.Campaign?) && l.deadline <= now then Demoted(l) else l
  }

  predicate Grants(r: Option<Reply>, term: int) {
    r.Some? && r.value.Granted? && r.value.term == term
  }

  /** Grants counted by a round, one reply (or none) per voter. */
  function Tally(replies: seq<Option<Reply>>, term: int): nat {
    if replies == [] then 0
    else Tally(replies[..|replies| - 1], term) + if Grants(replies[|replies| - 1], term) then 1 else 0
  }

  function Highest(replies: seq<Option<Reply>>, term: int): int {
    if replies == [] then term
    else
      var h := Highest(replies[..|replies| - 1], term);
      var r := replies[|replies| - 1];
      if r.Some? then Max(h, r.value.term) else h
  }

  /** Everything one call of the control loop does to the candidate's state. */
  function Loop(cfg: Config, self: NodeId, isCandidate: bool, guarded: bool, l: Leader, view: View,
                reachable: nat, inputs: Inputs): Leader
  {
    var (l1, move) := Choose(cfg, self, isCandidate, l, view, reachable, inputs.now, inputs.eligible,
                             inputs.higherReady);
    match move
    case Stay => l1
    case Campaign(term) =>
      Settled(AfterCampaign(cfg, self, guarded, l1, term, Tally(inputs.replies, term), Highest(inputs.replies, term),
                            inputs.started, inputs.finished), move, inputs.finished)
    case _ =>
      if inputs.stillEligible
      then Settled(AfterRenew(cfg, self, guarded, l1, Tally(inputs.replies, l1.term), inputs.started, inputs.finished),
                   move, inputs.finished)
      else Demoted(l1)
  }

  /** What one control loop does to the modes of the node, in the fields of its state. */
  lemma LoopFences(cfg: Config, self: NodeId, isCandidate: bool, guarded: bool, l: Leader, view: View,
                   reachable: nat, inputs: Inputs)
    ensures var l' := Loop(cfg, self, isCandidate, guarded, l, view, reachable, inputs);
            && (view.holder != "" && view.holder != self ==> !l'.primary && l'.guard.None? && l'.deadline == 0)
            && (isCandidate && l.deadline > inputs.now && view.maxTerm > l.term ==>
                  !l'.primary && l'.guard.None? && l'.deadline == 0)
            && (isCandidate && l.deadline <= inputs.now && (!inputs.eligible || reachable < |cfg.voters| / 2 + 1) ==>
                  !l'.primary && l'.guard.None? && l'.deadline == 0)
            && (isCandidate && l'.deadline <= inputs.finished
                && !(view.holder == self && view.term > 0 && l.deadline <= inputs.now) ==>
                  !l'.primary && l'.guard.None?)
            && (l'.primary && !l.primary ==>
                  l'.deadline == inputs.started + cfg.leaseMs && l'.deadline > inputs.finished)
  {
  }

  /** What the outside world delivers during one control loop. */
  datatype Inputs = Inputs(now: int, eligible: bool, higherReady: bool, stillEligible: bool,
                           started: int, replies: seq<Option<Reply>>, finished: int)

  class LeaseEngine {
    const cfg: Config
    const self: NodeId
    const isVoter: bool
    const isCandidate: bool
    const armed: bool

    var term: int
    var votedFor: NodeId
    var voterHolder: NodeId
    var voterDeadline: int
    var restartGuardUntil: int

    var leaderTerm: int
    var leaderDeadline: int
    var guard: Option<Guard>
    var primary: bool

    function VoterState(): Ballot
      reads this
    {
      Ballot(term, votedFor, voterHolder, voterDeadline, restartGuardUntil)
    }

    function LeaderState(): Leader
      reads this
    {
      Leader(leaderTerm, leaderDeadline, guard, primary)
    }

    /** A new process over the persisted vote and whatever guard file it finds. */
    constructor (cfg: Config, self: NodeId, isVoter: bool, isCandidate: bool, armed: bool,
                 saved: Ballot, file: Option<Guard>, now: int)
      ensures this.cfg == cfg && this.self == self
      ensures this.isVoter == isVoter && this.isCandidate == isCandidate && this.armed == armed
      ensures VoterState() == Restarted(cfg, isVoter, saved, now)
      ensures LeaderState() == STANDBY.(guard := file)
    {
      this.cfg, this.self, this.isVoter, this.isCandidate, this.armed := cfg, self, isVoter, isCandidate, armed;
      term, votedFor := saved.term, saved.votedFor;
      voterHolder, voterDeadline := "", 0;
      leaderTerm, leaderDeadline, primary := 0, 0, false;
      guard := file;
      restartGuardUntil := if isVoter && saved.term > 0 && saved.votedFor != "" then now + cfg.leaseMs else 0;
    }

    method HandleTep(now: int, source: NodeId, peer: string, req: Request) returns (out: Outcome)
      modifies this`term, this`votedFor, this`voterHolder, this`voterDeadline
      ensures (VoterState(), out) == Handle(cfg, isVoter, old(VoterState()), now, source, peer, req)
    {
      if req.Vote? && isVoter && restartGuardUntil > now && votedFor != "" && source != "" && source != votedFor {
        return Answer(Refused(term, votedFor, restartGuardUntil - now, RestartLeaseGuard));
      }
      if source == "" || peer == "" { return Failure(BadRequest); }
      if req.cluster != cfg.clusterId { return Failure(ClusterMismatch); }
      if req.Status? { return Answer(StatusOf(VoterState(), now)); }
      if !isVoter { return Failure(NotVoter); }
      if source !in cfg.candidates { return Failure(CandidateUnknown); }
      match req {
        case Vote(_, candidate, reqTerm, leaseMs) =>
          if candidate != source { return Failure(IdentityMismatch); }
          if leaseMs <= 0 || leaseMs > cfg.leaseMs { return Failure(BadLease); }
          if voterDeadline > now && voterHolder != "" && voterHolder != candidate {
            return Answer(Refused(term, voterHolder, voterDeadline - now, ActiveLease));
          }
          if reqTerm < term { return Answer(Refused(term, "", 0, StaleTerm)); }
          if reqTerm > term {
            term, votedFor := reqTerm, candidate;
          } else if votedFor != "" && votedFor != candidate {
            return Answer(Refused(term, "", 0, AlreadyVoted));
          } else if votedFor == "" {
            votedFor := candidate;
          }
          voterHolder := candidate;
          voterDeadline := now + leaseMs;
          return Answer(Granted(reqTerm, candidate, leaseMs));
        case Renewal(_, holder, reqTerm, leaseMs) =>
          if holder != source { return Failure(IdentityMismatch); }
          if reqTerm != term || votedFor != holder {
            return Answer(Refused(term, "", 0, NotCurrentHolder));
          }
          if leaseMs <= 0 || leaseMs > cfg.leaseMs { return Failure(BadLease); }
          voterHolder := holder;
          voterDeadline := now + leaseMs;
          return Answer(Granted(reqTerm, holder, leaseMs));
        case _ =>
          return Failure(UnsupportedOp);
      }
    }

    method Demote()
      modifies this`leaderDeadline, this`guard, this`primary
      ensures LeaderState() == Demoted(old(LeaderState()))
      ensures !primary && guard.None? && leaderDeadline == 0
    {
      leaderDeadline := 0;
      guard := None;
      primary := false;
    }

    method WriteGuard(guardTerm: int)
      modifies this`guard
      ensures guard == if isCandidate && armed then Some(Guard(self, guardTerm, leaderDeadline)) else old(guard)
    {
      if isCandidate && armed {
        guard := Some(Guard(self, guardTerm, leaderDeadline));
      }
    }

    /** `replies[i]` is what the i-th voter answered, or None when the call failed. */
    method RenewLease(eligible: bool, started: int, replies: seq<Option<Reply>>, now: int) returns (won: bool)
      requires |replies| == |cfg.voters|
      modifies this`leaderDeadline, this`guard, this`primary
      ensures won == (eligible && Wins(cfg, Tally(replies, leaderTerm), started, now))
      ensures LeaderState() ==
              if eligible
              then AfterRenew(cfg, self, isCandidate && armed, old(LeaderState()), Tally(replies, leaderTerm),
                              started, now)
              else Demoted(old(LeaderState()))
    {
      if !eligible {
        Demote();
        return false;
      }
      var grants := 0;
      for i := 0 to |cfg.voters|
        invariant grants == Tally(replies[..i], leaderTerm)
        invariant LeaderState() == old(LeaderState())
      {
        assert replies[..i + 1][..i] == replies[..i];
        if Grants(replies[i], leaderTerm) {
          grants := grants + 1;
        }
      }
      assert replies[..|cfg.voters|] == replies;
      var conservative := started + cfg.leaseMs;
      if grants >= cfg.Quorum() && conservative > now {
        leaderDeadline := conservative;
        WriteGuard(leaderTerm);
        primary := true;
        return true;
      }
      return false;
    }

    method RunCampaign(round: int, started: int, replies: seq<Option<Reply>>, now: int) returns (won: bool)
      requires |replies| == |cfg.voters|
      modifies this`leaderTerm, this`leaderDeadline, this`guard, this`primary
      ensures won == Wins(cfg, Tally(replies, round), started, now)
      ensures LeaderState() == AfterCampaign(cfg, self, isCandidate && armed, old(LeaderState()), round,
                                             Tally(replies, round), Highest(replies, round), started, now)
    {
      var grants := 0;
      var highest := round;
      for i := 0 to |cfg.voters|
        invariant grants == Tally(replies[..i], round)
        invariant highest == Highest(replies[..i], round)
        invariant LeaderState() == old(LeaderState())
      {
        assert replies[..i + 1][..i] == replies[..i];
        if replies[i].Some? {
          highest := Max(highest, replies[i].value.term);
          if Grants(replies[i], round) {
            grants := grants + 1;
          }
        }
      }
      assert replies[..|cfg.voters|] == replies;
      var conservative := started + cfg.leaseMs;
      if grants >= cfg.Quorum() && conservative > now {
        leaderTerm := round;
        leaderDeadline := conservative;
        WriteGuard(round);
        primary := true;
        return true;
      }
      if highest > round {
        leaderTerm := highest;
      }
      return false;
    }

    /** The exception handler of the control loop. */
    method HandleLoopError(now: int)
      modifies this`leaderDeadline, this`guard, this`primary
      ensures LeaderState() == Interrupted(old(LeaderState()), now)
      ensures leaderDeadline <= now ==> !primary && guard.None?
    {
      if leaderDeadline <= now {
        Demote();
      }
    }

    /** The control loop once the view is known. */
    method FollowView(view: View, reachable: nat, inputs: Inputs)
      requires |inputs.replies| == |cfg.voters|
      modifies this`leaderTerm, this`leaderDeadline, this`guard, this`primary
      ensures LeaderState() == Loop(cfg, self, isCandidate, isCandidate && armed, old(LeaderState()), view,
                                    reachable, inputs)
    {
      if view.holder != "" && view.holder != self {
        leaderTerm := Max(leaderTerm, view.term);
        Demote();
        return;
      }
      if isCandidate && leaderDeadline > inputs.now {
        if view.maxTerm > leaderTerm {
          Demote();
          return;
        }
        var won := RenewLease(inputs.stillEligible, inputs.started, inputs.replies, inputs.finished);
        if won { return; }
        if leaderDeadline <= inputs.finished {
          Demote();
        }
        return;
      }
      if !isCandidate { return; }
      if !inputs.eligible || reachable < cfg.Quorum() {
        Demote();
        return;
      }
      if view.holder == self && view.term > 0 {
        leaderTerm := view.term;
        leaderDeadline := inputs.now + cfg.leaseMs;
        var _ := RenewLease(inputs.stillEligible, inputs.started, inputs.replies, inputs.finished);
        return;
      }
      if inputs.higherReady {
        Demote();
        return;
      }
      var _ := RunCampaign(view.maxTerm + 1, inputs.started, inputs.replies, inputs.finished);
      if leaderDeadline <= inputs.finished {
        Demote();
      }
    }

    /** One call of the control loop. */
    method RunOnce(responses: seq<Response>, inputs: Inputs) returns (view: View)
      requires |inputs.replies| == |cfg.voters|
      modifies this`leaderTerm, this`leaderDeadline, this`guard, this`primary
      ensures IsMajorityView(cfg.Quorum(), responses, view)
      ensures LeaderState() == Loop(cfg, self, isCandidate, isCandidate && armed, old(LeaderState()), view,
                                    |responses|, inputs)
      // Another candidate has the majority.
      ensures view.holder != "" && view.holder != self ==> !primary && guard.None? && leaderDeadline == 0
      // A higher term was seen, or the candidate may not ask for a lease.
      ensures isCandidate && old(leaderDeadline) > inputs.now && view.maxTerm > old(leaderTerm) ==>
                !primary && guard.None? && leaderDeadline == 0
      ensures isCandidate && old(leaderDeadline) <= inputs.now
              && (!inputs.eligible || |responses| < |cfg.voters| / 2 + 1) ==>
                !primary && guard.None? && leaderDeadline == 0
      // The lease is over at the end of the loop; an adoption alone is not looked at again.
      ensures isCandidate && leaderDeadline <= inputs.finished
              && !(view.holder == self && view.term > 0 && old(leaderDeadline) <= inputs.now) ==>
                !primary && guard.None?
      // Primary mode starts only with a lease that runs, counted from the start of the round.
      ensures primary && !old(primary) ==>
                leaderDeadline == inputs.started + cfg.leaseMs && leaderDeadline > inputs.finished
    {
      ghost var before := LeaderState();
      view := MajorityView(cfg.Quorum(), responses);
      FollowView(view, |responses|, inputs);
      LoopFences(cfg, self, isCandidate, isCandidate && armed, before, view, |responses|, inputs);
    }
  }
}
