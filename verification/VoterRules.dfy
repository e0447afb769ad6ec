/** What a voter answers, told by its history alone: the leases it granted and its last restart. */
module VoterRules {
  import opened Arithmetic
  import opened Ballot
  import opened Options
  import opened VoterLife

  /** The time of the last restart, and how many leases had been granted by then. */
  datatype Reboot = Reboot(at: int, granted: nat)

  function LastReboot(cfg: Config, events: seq<Event>): Option<Reboot> {
    if events == [] then None
    else
      var (front, e) := (events[..|events| - 1], events[|events| - 1]);
      if e.Restart? then Some(Reboot(e.now, |Live(cfg, front).leases|)) else LastReboot(cfg, front)
  }

  /** What there is to know of a voter: the leases granted so far and the last restart. */
  datatype History = History(leases: seq<Lease>, reboot: Option<Reboot>)
  {
    /** The candidate and the term of the last vote. */
    function Holder(): NodeId { if leases == [] then "" else leases[|leases| - 1].holder }
    function Term(): int { if leases == [] then 0 else leases[|leases| - 1].term }
    function Until(): int { if leases == [] then 0 else leases[|leases| - 1].until }

    /** The last lease was granted by the process that runs now. */
    predicate Remembered() {
      leases != [] && (reboot.Some? ==> |leases| > reboot.value.granted)
    }

    /** The end of the wait that a restart after a vote in a positive term makes. */
    function GuardEnd(cfg: Config): int {
      if reboot.Some? && 0 < reboot.value.granted <= |leases| && leases[reboot.value.granted - 1].term > 0
      then reboot.value.at + cfg.leaseMs else 0
    }
  }

  function HistoryOf(cfg: Config, events: seq<Event>): History {
    History(Live(cfg, events).leases, LastReboot(cfg, events))
  }

  /** The state of a voter is its history, no more and no less. */
  ghost predicate Tells(cfg: Config, h: History, b: Ballot) {
    && b.term == h.Term() && b.votedFor == h.Holder()
    && b.holder == (if h.Remembered() then h.Holder() else "")
    && b.deadline == (if h.Remembered() then h.Until() else 0)
    && b.guardUntil == h.GuardEnd(cfg)
    && (h.reboot.Some? ==> h.reboot.value.granted <= |h.leases|)
    && forall i :: 0 <= i < |h.leases| ==> h.leases[i].holder != ""
  }

  /** A request is granted, and then the vote and its lease are on record, or it changes nothing. */
  lemma GrantOrNothing(cfg: Config, b: Ballot, now: int, source: NodeId, peer: string, req: Request)
    ensures var (b', out) := Handle(cfg, true, b, now, source, peer, req);
            if out.Answer? && out.reply.Granted? then
              && source != "" && out.reply.holder == source
              && b' == Ballot(out.reply.term, source, source, now + out.reply.leaseMs, b.guardUntil)
            else b' == b
  {
  }

  lemma GrantTells(cfg: Config, h: History, b: Ballot, l: Lease)
    requires Tells(cfg, h, b) && l.holder != ""
    ensures Tells(cfg, h.(leases := h.leases + [l]), Ballot(l.term, l.holder, l.holder, l.until, b.guardUntil))
  {
  }

  lemma AskTells(cfg: Config, h: History, b: Ballot, now: int, source: NodeId, peer: string, req: Request)
    requires Tells(cfg, h, b)
    ensures var (b', out) := Handle(cfg, true, b, now, source, peer, req);
            Tells(cfg, h.(leases := h.leases + NewLease(out, now)), b')
  {
    var out := Handle(cfg, true, b, now, source, peer, req).1;
    GrantOrNothing(cfg, b, now, source, peer, req);
    if out.Answer? && out.reply.Granted? {
      GrantTells(cfg, h, b, NewLease(out, now)[0]);
    } else {
      assert h.leases + [] == h.leases;
    }
  }

  lemma RestartTells(cfg: Config, h: History, b: Ballot, now: int)
    requires Tells(cfg, h, b)
    ensures Tells(cfg, History(h.leases, Some(Reboot(now, |h.leases|))), Restarted(cfg, true, b, now))
  {
  }

  /** In every run. */
  lemma {:induction false} HistoryTells(cfg: Config, events: seq<Event>)
    ensures Tells(cfg, HistoryOf(cfg, events), Live(cfg, events).ballot)
  {
    if events != [] {
      var (front, e) := (events[..|events| - 1], events[|events| - 1]);
      var (h, b) := (HistoryOf(cfg, front), Live(cfg, front).ballot);
      HistoryTells(cfg, front);
      if e.Ask? {
        AskTells(cfg, h, b, e.now, e.source, e.peer, e.req);
        assert HistoryOf(cfg, events) ==
               h.(leases := h.leases + NewLease(Handle(cfg, true, b, e.now, e.source, e.peer, e.req).1, e.now));
      } else {
        RestartTells(cfg, h, b, e.now);
      }
    }
  }

  /** The answer to a request after a run. */
  function Reply1(cfg: Config, events: seq<Event>, now: int, source: NodeId, peer: string, req: Request): Outcome {
    Handle(cfg, true, Live(cfg, events).ballot, now, source, peer, req).1
  }

  /** A configured candidate of this cluster asks through an authenticated peer. */
  predicate FromCandidate(cfg: Config, source: NodeId, peer: string, req: Request) {
    source != "" && peer != "" && req.cluster == cfg.clusterId && source in cfg.candidates
  }

  /** A vote is granted exactly if the candidate asks for itself and for at most one lease length, and
      either was the last to get a vote, and asks in no lower term, or asks in a higher term than the
      last vote's, whose lease the running process does not remember as running and for which no
      restart makes the voter wait. */
  lemma VoteGrantedExactlyIf(cfg: Config, events: seq<Event>, now: int, source: NodeId, peer: string, req: Request)
    requires "" !in cfg.candidates && req.Vote?
    ensures var h := HistoryOf(cfg, events);
            Reply1(cfg, events, now, source, peer, req) == Answer(Granted(req.term, req.candidate, req.leaseMs)) <==>
              && FromCandidate(cfg, source, peer, req) && req.candidate == source && 0 < req.leaseMs <= cfg.leaseMs
              && if h.leases == [] then req.term >= 0
                 else if h.Holder() == source then req.term >= h.Term()
                 else req.term > h.Term() && h.GuardEnd(cfg) <= now && !(h.Remembered() && h.Until() > now)
  {
    HistoryTells(cfg, events);
  }

  /** A renewal is granted exactly to the candidate of the last vote, in its term; that the lease has
      run out, or that the voter restarted since, does not matter. */
  lemma RenewalGrantedExactlyIf(cfg: Config, events: seq<Event>, now: int, source: NodeId, peer: string, req: Request)
    requires "" !in cfg.candidates && req.Renewal?
    ensures var h := HistoryOf(cfg, events);
            Reply1(cfg, events, now, source, peer, req) == Answer(Granted(req.term, req.holder, req.leaseMs)) <==>
              && FromCandidate(cfg, source, peer, req) && req.holder == source && 0 < req.leaseMs <= cfg.leaseMs
              && h.leases != [] && h.Holder() == source && h.Term() == req.term
  {
    HistoryTells(cfg, events);
  }

  /** A grant adds the lease asked for, from now on; any other answer adds none. */
  lemma GrantAddsTheLease(cfg: Config, events: seq<Event>, now: int, source: NodeId, peer: string, req: Request)
    ensures var was := Live(cfg, events).leases;
            var leases := Live(cfg, events + [Ask(now, source, peer, req)]).leases;
            match Reply1(cfg, events, now, source, peer, req)
            case Answer(Granted(term, holder, ms)) =>
              && (req.Vote? || req.Renewal?) && term == req.term && ms == req.leaseMs && holder == source
              && leases == was + [Lease(source, req.term, now, now + req.leaseMs)]
            case _ => leases == was
  {
    assert (events + [Ask(now, source, peer, req)])[..|events|] == events;
  }

  /** A status query tells the last vote's term and, while the running process remembers its lease as
      running, who holds it and for how long. */
  lemma StatusMeans(cfg: Config, events: seq<Event>, now: int, source: NodeId, peer: string, req: Request)
    requires req.Status? && source != "" && peer != "" && req.cluster == cfg.clusterId && 0 <= now
    ensures var h := HistoryOf(cfg, events);
            Reply1(cfg, events, now, source, peer, req) == Answer(
              if h.Remembered() && h.Until() > now then Report(h.Term(), h.Holder(), h.Until() - now)
              else Report(h.Term(), "", 0))
  {
    HistoryTells(cfg, events);
  }

  /** A restart after a vote for somebody else makes `source` wait. */
  predicate Waits(cfg: Config, h: History, now: int, source: NodeId) {
    source != "" && h.leases != [] && h.Holder() != source && h.GuardEnd(cfg) > now
  }

  /** Another candidate that a restart makes wait hears for how long, before anything else is checked. */
  lemma GuardAnswersFirst(cfg: Config, events: seq<Event>, now: int, source: NodeId, peer: string, req: Request)
    requires req.Vote?
    ensures var h := HistoryOf(cfg, events);
            Waits(cfg, h, now, source) <==>
              Reply1(cfg, events, now, source, peer, req)
                == Answer(Refused(h.Term(), h.Holder(), h.GuardEnd(cfg) - now, RestartLeaseGuard))
  {
    HistoryTells(cfg, events);
  }

  /** Which vote is refused for which reason, and what the refusal tells. */
  lemma VoteRefused(cfg: Config, events: seq<Event>, now: int, source: NodeId, peer: string, req: Request)
    requires "" !in cfg.candidates && req.Vote? && FromCandidate(cfg, source, peer, req)
    requires req.candidate == source && 0 < req.leaseMs <= cfg.leaseMs
    requires !Waits(cfg, HistoryOf(cfg, events), now, source)
    ensures var h := HistoryOf(cfg, events);
            var answer := Reply1(cfg, events, now, source, peer, req);
            var other := h.leases != [] && h.Holder() != source;
            if other && h.Remembered() && h.Until() > now then
              answer == Answer(Refused(h.Term(), h.Holder(), h.Until() - now, ActiveLease))
            else if req.term < h.Term() then answer == Answer(Refused(h.Term(), "", 0, StaleTerm))
            else if other && req.term == h.Term() then answer == Answer(Refused(h.Term(), "", 0, AlreadyVoted))
            else answer == Answer(Granted(req.term, source, req.leaseMs))
  {
    HistoryTells(cfg, events);
  }

  /** Which malformed request draws which error; the order is that of the checks. */
  lemma ErrorsMean(cfg: Config, events: seq<Event>, now: int, source: NodeId, peer: string, req: Request)
    requires req.Vote? ==> !Waits(cfg, HistoryOf(cfg, events), now, source)
    ensures var h := HistoryOf(cfg, events);
            var answer := Reply1(cfg, events, now, source, peer, req);
            if source == "" || peer == "" then answer == Failure(BadRequest)
            else if req.cluster != cfg.clusterId then answer == Failure(ClusterMismatch)
            else if req.Status? then answer.Answer?
            else if source !in cfg.candidates then answer == Failure(CandidateUnknown)
            else match req
                 case Vote(_, candidate, _, ms) =>
                   if candidate != source then answer == Failure(IdentityMismatch)
                   else if !(0 < ms <= cfg.leaseMs) then answer == Failure(BadLease) else answer.Answer?
                 case Renewal(_, holder, term, ms) =>
                   if holder != source then answer == Failure(IdentityMismatch)
                   else if h.leases == [] || h.Holder() != source || h.Term() != term then
                     answer == Answer(Refused(h.Term(), "", 0, NotCurrentHolder))
                   else if !(0 < ms <= cfg.leaseMs) then answer == Failure(BadLease) else answer.Answer?
                 case _ => answer == Failure(UnsupportedOp)
  {
    HistoryTells(cfg, events);
  }

  /** A node that is no voter answers status queries only. */
  lemma NonVoterOnlyReports(cfg: Config, b: Ballot, now: int, source: NodeId, peer: string, req: Request)
    requires source != "" && peer != "" && req.cluster == cfg.clusterId
    ensures var (b', out) := Handle(cfg, false, b, now, source, peer, req);
            b' == b && if req.Status? then out.Answer? && out.reply.Report? else out == Failure(NotVoter)
  {
  }
}
