/** What an undisturbed candidate achieves: campaigns, adoptions and renewals that succeed. */
module LeaseProgress {
  import opened Ballot
  import opened LeaseEngine
  import opened LeaseProtocol
  import opened LeaseSafety
  import opened LeasePaths
  import opened LeaseRefinement
  import opened Options
  import opened Sets

  /** Nothing stops `b` from voting for `c` in a term above its own. */
  predicate Free(b: Ballot, c: NodeId, now: int) {
    && (b.deadline > now && b.holder != "" ==> b.holder == c)
    && (b.guardUntil > now && b.votedFor != "" ==> b.votedFor == c)
  }

  /** The voter will grant the round: free to vote in a higher term, or still in the renewed term
      with its vote for the candidate. */
  predicate Willing(b: Ballot, now: int, rd: Round) {
    if rd.campaign then Free(b, rd.candidate, now) && b.term < rd.term
    else b.term == rd.term && b.votedFor == rd.candidate
  }

  /** A willing voter grants, now and at any later time. */
  lemma WillingVoterGrants(k: Cluster, b: Ballot, now: int, later: int, rd: Round)
    requires k.cfg.Valid() && Willing(b, now, rd) && now <= later && rd.candidate in k.cfg.candidates
    ensures AnswerOf(k, b, later, rd) == Some(Granted(rd.term, rd.candidate, k.cfg.leaseMs))
  {
  }

  /** What each voter in `up` answers when its turn comes. */
  function Answers(k: Cluster, s: State, rd: Round, up: set<NodeId>, delays: seq<nat>): seq<Option<Reply>>
    requires |delays| == |k.cfg.voters|
  {
    seq(|delays|, i requires 0 <= i < |delays| =>
      var v := k.cfg.voters[i];
      if v in s.ballots then AnswerIf(k, s.ballots[v], v in up, s.now + Elapsed(delays, i + 1), rd) else None)
  }

  /** A quorum of voters that will grant the round the candidate has decided on. */
  ghost predicate QuorumWilling(k: Cluster, s: State, c: NodeId, l: Leader, move: Move, up: set<NodeId>) {
    && c in k.cfg.candidates && k.cfg.VoterSet() <= s.ballots.Keys
    && up <= k.cfg.VoterSet() && |up| >= k.cfg.Quorum()
    && forall v :: v in up ==> Willing(s.ballots[v], s.now, RoundFor(c, l, move, s.now))
  }

  lemma {:induction false} AnswersAreReplies(k: Cluster, s: State, rd: Round, up: set<NodeId>, delays: seq<nat>,
                                             replies: seq<Option<Reply>>, n: nat)
    requires k.cfg.VoterSet() <= s.ballots.Keys && |delays| == |k.cfg.voters| && n <= |delays|
    requires replies == Answers(k, s, rd, up, delays)
    ensures Replied(k, s.ballots, s.now, rd, up, delays, replies, n)
    decreases n
  {
    if n > 0 {
      AnswersAreReplies(k, s, rd, up, delays, replies, n - 1);
      assert k.cfg.voters[n - 1] in s.ballots;
    }
  }

  lemma WillingAnswer(k: Cluster, s: State, rd: Round, up: set<NodeId>, delays: seq<nat>, i: nat)
    requires k.cfg.Valid() && rd.candidate in k.cfg.candidates && |delays| == |k.cfg.voters| && i < |delays|
    requires k.cfg.voters[i] in up && k.cfg.voters[i] in s.ballots && Willing(s.ballots[k.cfg.voters[i]], s.now, rd)
    ensures Grants(Answers(k, s, rd, up, delays)[i], rd.term)
  {
    WillingVoterGrants(k, s.ballots[k.cfg.voters[i]], s.now, s.now + Elapsed(delays, i + 1), rd);
  }

  /** Whoever grants in the replies is among those counted. */
  lemma GrantsAreCounted(k: Cluster, l: Leader, move: Move, round: nat, replies: seq<Option<Reply>>, up: set<NodeId>)
    requires k.cfg.Valid() && |replies| == |k.cfg.voters| && up <= k.cfg.VoterSet() && |up| >= k.cfg.Quorum()
    requires forall i :: 0 <= i < |replies| && k.cfg.voters[i] in up ==> Grants(replies[i], TermOf(l, move))
    ensures up <= Granters(k, l, move, round, replies) && Tally(replies, TermOf(l, move)) >= k.cfg.Quorum()
  {
    var term := TermOf(l, move);
    RoundCountsEveryGrant(k.cfg, Node(l, Collecting(move, round, 0, {}, term)), round, term, replies);
    forall v | v in up ensures v in Granters(k, l, move, round, replies) {
      var i :| 0 <= i < |k.cfg.voters| && k.cfg.voters[i] == v;
      assert Grants(replies[i], term);
    }
    SubsetSize(up, Granters(k, l, move, round, replies));
  }

  /** All of `up` grant the round and are counted. */
  lemma WillingAreCounted(k: Cluster, s: State, c: NodeId, l: Leader, move: Move, up: set<NodeId>, delays: seq<nat>,
                          replies: seq<Option<Reply>>)
    requires k.cfg.Valid() && QuorumWilling(k, s, c, l, move, up) && |delays| == |k.cfg.voters|
    requires replies == Answers(k, s, RoundFor(c, l, move, s.now), up, delays)
    ensures Replied(k, s.ballots, s.now, RoundFor(c, l, move, s.now), up, delays, replies, |delays|)
    ensures up <= Granters(k, l, move, |s.rounds|, replies) && Tally(replies, TermOf(l, move)) >= k.cfg.Quorum()
  {
    var rd := RoundFor(c, l, move, s.now);
    AnswersAreReplies(k, s, rd, up, delays, replies, |delays|);
    forall i | 0 <= i < |replies| && k.cfg.voters[i] in up ensures Grants(replies[i], TermOf(l, move)) {
      WillingAnswer(k, s, rd, up, delays, i);
    }
    GrantsAreCounted(k, l, move, |s.rounds|, replies, up);
  }

  /** The round won: its guard, counted from the beginning of the round, and its quorum. */
  ghost predicate WonBy(k: Cluster, s: State, t: State, c: NodeId, term: int, up: set<NodeId>) {
    && |t.wins| == |s.wins| + 1
    && t.wins[|s.wins|].guard == Guard(c, term, s.now + k.cfg.leaseMs)
    && up <= t.wins[|s.wins|].quorum
    && (c in k.armed ==> Holds(t, c))
  }

  lemma RoundWins(k: Cluster, s: State, c: NodeId, l: Leader, move: Move, up: set<NodeId>, delays: seq<nat>,
                  replies: seq<Option<Reply>>, t: State)
    requires k.cfg.Valid() && |delays| == |k.cfg.voters| && Elapsed(delays, |delays|) < k.cfg.leaseMs
    requires c in s.nodes && s.nodes[c] == Node(l, Deciding(move)) && !move.Stay? && QuorumWilling(k, s, c, l, move, up)
    requires replies == Answers(k, s, RoundFor(c, l, move, s.now), up, delays)
    requires t == Play(k, s, RoundPath(k, c, 0, true, |s.rounds|, up, delays, replies, 0))
    ensures WonBy(k, s, t, c, TermOf(l, move), up)
  {
    WillingAreCounted(k, s, c, l, move, up, delays, replies);
    assert s.(now := s.now + 0) == s;
    RoundIsARun(k, s, c, move, 0, true, up, delays, replies, 0);
    DoneIsWon(k, s, t, c, l, move, replies, up);
  }

  /** A round concluded in time with a quorum of grants is won. */
  lemma DoneIsWon(k: Cluster, s: State, t: State, c: NodeId, l: Leader, move: Move, replies: seq<Option<Reply>>,
                  up: set<NodeId>)
    requires |replies| == |k.cfg.voters| && RoundDone(k, s, t, c, l, move, s.now, replies)
    requires up <= Granters(k, l, move, |s.rounds|, replies) && Tally(replies, TermOf(l, move)) >= k.cfg.Quorum()
    requires !move.Stay? && t.now < s.now + k.cfg.leaseMs
    ensures WonBy(k, s, t, c, TermOf(l, move), up)
  {
  }

  /** The decision and the round that follows it. */
  function Schedule(k: Cluster, s: State, c: NodeId, view: View, l: Leader, move: Move, up: set<NodeId>,
                    delays: seq<nat>): seq<Step>
    requires |delays| == |k.cfg.voters|
  {
    var replies := Answers(k, s, RoundFor(c, l, move, s.now), up, delays);
    [Decide(c, view, true, false)] + RoundPath(k, c, 0, true, |s.rounds|, up, delays, replies, 0)
  }

  /** Whatever an eligible candidate decides to ask for, campaign, adoption or renewal: if a
      quorum is willing and the round takes less than a lease, it wins. */
  lemma UndisturbedRoundWins(k: Cluster, events: seq<Step>, c: NodeId, view: View, up: set<NodeId>, delays: seq<nat>)
    requires k.cfg.Valid() && |delays| == |k.cfg.voters| && Elapsed(delays, |delays|) < k.cfg.leaseMs
    requires Enabled(k, Run(k, events), Decide(c, view, true, false))
    requires var s := Run(k, events);
             var (l, move) := Decision(k, s, c, view, true, false);
             !move.Stay? && QuorumWilling(k, s, c, l, move, up)
    ensures var s := Run(k, events);
            var (l, move) := Decision(k, s, c, view, true, false);
            WonBy(k, s, Run(k, events + Schedule(k, s, c, view, l, move, up, delays)), c, TermOf(l, move), up)
  {
    var s := Run(k, events);
    var (l, move) := Decision(k, s, c, view, true, false);
    var schedule := Schedule(k, s, c, view, l, move, up, delays);
    var s1 := Put(s, c, Node(l, Deciding(move)));
    RunThenPlay(k, events, schedule);
    PlayOne(k, s, Decide(c, view, true, false));
    PlayAppend(k, s, [Decide(c, view, true, false)], schedule[1..]);
    assert schedule == [Decide(c, view, true, false)] + schedule[1..];
    assert Answers(k, s1, RoundFor(c, l, move, s.now), up, delays)
        == Answers(k, s, RoundFor(c, l, move, s.now), up, delays);
    RoundWins(k, s1, c, l, move, up, delays, Answers(k, s1, RoundFor(c, l, move, s.now), up, delays),
              Play(k, s1, schedule[1..]));
  }

  // ------------------------------------------------------------ the three ways to a lease

  /** `c` has asked every voter and `view` is what it makes of the responses. */
  ghost predicate Gathered(k: Cluster, s: State, c: NodeId, view: View) {
    && c in k.cfg.candidates && c in s.nodes && s.nodes[c].phase.Querying?
    && s.nodes[c].phase.next == |k.cfg.voters|
    && IsMajorityView(k.cfg.Quorum(), s.nodes[c].phase.responses, view)
  }

  /** A quorum answered, is promised to nobody else and has not moved to another term since. */
  ghost predicate Answering(k: Cluster, s: State, c: NodeId, up: set<NodeId>)
    requires c in s.nodes && s.nodes[c].phase.Querying?
  {
    && up <= k.cfg.VoterSet() && |up| >= k.cfg.Quorum()
    && forall v :: v in up ==>
         && v in s.ballots && Free(s.ballots[v], c, s.now)
         && exists r :: r in s.nodes[c].phase.responses && r.voter == v && r.term == s.ballots[v].term
  }

  /** A quorum is still in `term` with its vote for `c`. */
  ghost predicate Loyal(k: Cluster, s: State, c: NodeId, term: int, up: set<NodeId>) {
    && up <= k.cfg.VoterSet() && |up| >= k.cfg.Quorum()
    && forall v :: v in up ==> v in s.ballots && s.ballots[v].term == term && s.ballots[v].votedFor == c
  }

  lemma BallotsOfRun(k: Cluster, events: seq<Step>)
    requires k.cfg.Valid()
    ensures Run(k, events).ballots.Keys == k.cfg.VoterSet()
  {
    RunOk(k, events);
  }

  /** Campaign progress. If a quorum of voters answered the status query and none of them has a
      running lease or restart guard for someone else, a candidate whose view names nobody and
      whose own lease is over campaigns in the next term, is granted by each of them and wins. */
  lemma CampaignSucceeds(k: Cluster, events: seq<Step>, c: NodeId, view: View, up: set<NodeId>, delays: seq<nat>)
    requires k.cfg.Valid() && |delays| == |k.cfg.voters| && Elapsed(delays, |delays|) < k.cfg.leaseMs
    requires Gathered(k, Run(k, events), c, view) && view.holder == ""
    requires Run(k, events).nodes[c].leader.deadline <= Run(k, events).now
    requires Answering(k, Run(k, events), c, up)
    ensures var s := Run(k, events);
            var l := s.nodes[c].leader;
            WonBy(k, s, Run(k, events + Schedule(k, s, c, view, l, Campaign(view.maxTerm + 1), up, delays)),
                  c, view.maxTerm + 1, up)
  {
    var s := Run(k, events);
    var rs := s.nodes[c].phase.responses;
    BallotsOfRun(k, events);
    ResponsesCoverVoters(rs, up);
    assert Decision(k, s, c, view, true, false) == (s.nodes[c].leader, Campaign(view.maxTerm + 1));
    forall v | v in up ensures s.ballots[v].term <= view.maxTerm {
      var r :| r in rs && r.voter == v && r.term == s.ballots[v].term;
    }
    UndisturbedRoundWins(k, events, c, view, up, delays);
  }

  /** Adoption progress. A candidate without a lease of its own, say after a restart, that finds a
      majority for itself is renewed by the voters that kept its vote, and holds that term again. */
  lemma AdoptionSucceeds(k: Cluster, events: seq<Step>, c: NodeId, view: View, up: set<NodeId>, delays: seq<nat>)
    requires k.cfg.Valid() && |delays| == |k.cfg.voters| && Elapsed(delays, |delays|) < k.cfg.leaseMs
    requires Gathered(k, Run(k, events), c, view) && view.holder == c && view.term > 0
    requires Run(k, events).nodes[c].leader.deadline <= Run(k, events).now
    requires Loyal(k, Run(k, events), c, view.term, up)
    ensures var s := Run(k, events);
            var l := s.nodes[c].leader.(term := view.term, deadline := s.now + k.cfg.leaseMs);
            WonBy(k, s, Run(k, events + Schedule(k, s, c, view, l, Adopt, up, delays)), c, view.term, up)
  {
    var s := Run(k, events);
    BallotsOfRun(k, events);
    MajorityAnswered(k, s, c, view);
    assert Decision(k, s, c, view, true, false)
        == (s.nodes[c].leader.(term := view.term, deadline := s.now + k.cfg.leaseMs), Adopt);
    UndisturbedRoundWins(k, events, c, view, up, delays);
  }

  /** Renewal progress. A leader whose lease still runs, and that has seen no higher term, is
      renewed by the voters that kept its vote. */
  lemma RenewalSucceeds(k: Cluster, events: seq<Step>, c: NodeId, view: View, up: set<NodeId>, delays: seq<nat>)
    requires k.cfg.Valid() && |delays| == |k.cfg.voters| && Elapsed(delays, |delays|) < k.cfg.leaseMs
    requires Gathered(k, Run(k, events), c, view) && (view.holder == "" || view.holder == c)
    requires Run(k, events).nodes[c].leader.deadline > Run(k, events).now
    requires view.maxTerm <= Run(k, events).nodes[c].leader.term
    requires Loyal(k, Run(k, events), c, Run(k, events).nodes[c].leader.term, up)
    ensures var s := Run(k, events);
            var l := s.nodes[c].leader;
            WonBy(k, s, Run(k, events + Schedule(k, s, c, view, l, Renew, up, delays)), c, l.term, up)
  {
    var s := Run(k, events);
    BallotsOfRun(k, events);
    assert Decision(k, s, c, view, true, false) == (s.nodes[c].leader, Renew);
    UndisturbedRoundWins(k, events, c, view, up, delays);
  }

  /** A majority in the view means at least a quorum of responses. */
  lemma MajorityAnswered(k: Cluster, s: State, c: NodeId, view: View)
    requires Gathered(k, s, c, view) && view.holder != ""
    ensures |s.nodes[c].phase.responses| >= k.cfg.Quorum()
  {
    SupportBound(s.nodes[c].phase.responses, view.term, view.holder);
  }

  lemma {:induction false} SupportBound(rs: seq<Response>, term: int, holder: NodeId)
    ensures Support(rs, term, holder) <= |rs|
  {
    if rs != [] {
      SupportBound(rs[..|rs| - 1], term, holder);
    }
  }

  /** A quorum of voters answering means at least a quorum of responses. */
  lemma {:induction false} ResponsesCoverVoters(rs: seq<Response>, up: set<NodeId>)
    requires forall v :: v in up ==> exists r :: r in rs && r.voter == v
    ensures |up| <= |rs|
  {
    if rs == [] {
      assert up == {};
    } else {
      var n := |rs| - 1;
      var rest := up - {rs[n].voter};
      forall v | v in rest ensures exists r :: r in rs[..n] && r.voter == v {
        var r :| r in rs && r.voter == v;
        assert r in rs[..n];
      }
      ResponsesCoverVoters(rs[..n], rest);
      SubsetSize(up, rest + {rs[n].voter});
    }
  }
}
