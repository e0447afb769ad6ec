/** A reachable state in which the field `_leader_deadline` misleads: two candidates have one in
    the future, because adoption sets it before any voter has confirmed. */
module LeaseFindings {
  import opened Ballot
  import opened LeaseEngine
  import opened LeaseProtocol
  import opened LeasePaths
  import opened LeaseSafety
  import opened Options

  const LEASE := 6000
  const PAIR := Cluster(Config("hb", ["v"], {"a", "b"}, LEASE), {"a", "b"})

  lemma OneResponse(quorum: nat, r: Response)
    requires quorum == 1 && r.term >= 0
    ensures r.holder == "" ==> IsMajorityView(quorum, [r], View(r.term, "", 0))
    ensures r.holder != "" && r.remaining > 0 ==> IsMajorityView(quorum, [r], View(r.term, r.holder, r.term))
  {
    assert [r][..0] == [];
    assert forall t, h :: Support([r], t, h) == if Supports(r, t, h) then 1 else 0;
  }

  /** `c` has the voter's status. */
  function Asked(s: State, c: NodeId): State
    requires c in s.nodes && "v" in s.ballots
  {
    var report := StatusOf(s.ballots["v"], s.now);
    Put(s, c, Node(s.nodes[c].leader,
                   Querying([Response("v", report.term, report.holder, report.remaining)], 1)))
  }

  /** `c` asks the voter for its status. */
  lemma Asks(s: State, c: NodeId)
    requires c in s.nodes && s.nodes[c].phase.Idle? && "v" in s.ballots
    ensures Play(PAIR, s, [StartQuery(c), Poll(c, false)]) == Asked(s, c)
  {
    var s1 := Put(s, c, s.nodes[c].(phase := Querying([], 0)));
    var report := StatusOf(s.ballots["v"], s.now);
    assert [StartQuery(c), Poll(c, false)] == [StartQuery(c)] + [Poll(c, false)];
    PlayOne(PAIR, s, StartQuery(c));
    assert Do(PAIR, s, StartQuery(c)) == s1;
    PlayMore(PAIR, s, [StartQuery(c)], Poll(c, false));
    assert Polled(PAIR, s1, s1.nodes[c], false)
        == Node(s.nodes[c].leader, Querying([Response("v", report.term, report.holder, report.remaining)], 1));
  }

  /** `c`, whose view names nobody, decides to campaign in the next term. */
  lemma Decides(s: State, c: NodeId, term: int)
    requires c in s.nodes && s.nodes[c].phase == Querying([Response("v", term, "", 0)], 1) && term >= 0
    requires s.nodes[c].leader.deadline <= s.now
    ensures Do(PAIR, s, Decide(c, View(term, "", 0), true, false))
         == Put(s, c, Node(s.nodes[c].leader, Deciding(Campaign(term + 1))))
  {
    OneResponse(PAIR.cfg.Quorum(), Response("v", term, "", 0));
  }

  function BeginPath(c: NodeId, term: int): seq<Step> {
    [Decide(c, View(term, "", 0), true, false), Begin(c, true)]
  }

  function VotePath(c: NodeId, term: int, round: nat): seq<Step> {
    Visit(c, round, "v", true, Some(Granted(term, c, LEASE)), 0) + [Conclude(c)]
  }

  /** It campaigns at once, the voter grants and it wins. */
  function CampaignPath(c: NodeId, term: int, round: nat): seq<Step> {
    BeginPath(c, term) + VotePath(c, term + 1, round)
  }

  lemma Campaigns(s: State, c: NodeId, term: int)
    requires c in PAIR.cfg.candidates && "v" in s.ballots && term >= 0
    requires c in s.nodes && s.nodes[c].phase == Querying([Response("v", term, "", 0)], 1)
    requires s.nodes[c].leader.deadline <= s.now
    requires s.ballots["v"].term == term && s.ballots["v"].deadline <= s.now && s.ballots["v"].guardUntil <= s.now
    ensures var t := Play(PAIR, s, CampaignPath(c, term, |s.rounds|));
            var until := s.now + LEASE;
            && t.now == s.now && |t.rounds| == |s.rounds| + 1
            && t.ballots == s.ballots["v" := Ballot(term + 1, c, c, until, s.ballots["v"].guardUntil)]
            && t.nodes == s.nodes[c := Node(Leader(term + 1, until, Some(Guard(c, term + 1, until)), true), Idle)]
  {
    var round := |s.rounds|;
    var s1 := Begun1(s, c, term);
    Begins(s, c, term, s1);
    Votes(s1, c, term + 1, round);
    PlayAppend(PAIR, s, BeginPath(c, term), VotePath(c, term + 1, round));
  }

  /** The state after `BeginPath`. */
  function Begun1(s: State, c: NodeId, term: int): State
    requires c in s.nodes
  {
    Put(s.(rounds := s.rounds + [Round(c, true, term + 1, s.now)]), c,
        Node(s.nodes[c].leader, Collecting(Campaign(term + 1), |s.rounds|, 0, {}, term + 1)))
  }

  lemma Begins(s: State, c: NodeId, term: int, s1: State)
    requires c in s.nodes && s.nodes[c].phase == Querying([Response("v", term, "", 0)], 1) && term >= 0
    requires s.nodes[c].leader.deadline <= s.now
    requires s1 == Begun1(s, c, term)
    ensures Play(PAIR, s, BeginPath(c, term)) == s1
  {
    var d, b := Decide(c, View(term, "", 0), true, false), Begin(c, true);
    Decides(s, c, term);
    BeginsRound(s, c, term, s1);
    assert [d, b] == [d] + [b];
    PlayOne(PAIR, s, d);
    PlayMore(PAIR, s, [d], b);
  }

  lemma BeginsRound(s: State, c: NodeId, term: int, s1: State)
    requires c in s.nodes && s1 == Begun1(s, c, term)
    ensures Do(PAIR, Put(s, c, Node(s.nodes[c].leader, Deciding(Campaign(term + 1)))), Begin(c, true)) == s1
  {
  }

  lemma Votes(s: State, c: NodeId, term: int, round: nat)
    requires c in PAIR.cfg.candidates && AtVoter(PAIR, s, c, Round(c, true, term, s.now), round, 0)
    requires s.nodes[c].phase == Collecting(Campaign(term), round, 0, {}, term)
    requires s.ballots["v"].term < term && s.ballots["v"].deadline <= s.now && s.ballots["v"].guardUntil <= s.now
    ensures var t := Play(PAIR, s, VotePath(c, term, round));
            var until := s.now + LEASE;
            && t.now == s.now && t.rounds == s.rounds
            && t.ballots == s.ballots["v" := Ballot(term, c, c, until, s.ballots["v"].guardUntil)]
            && t.nodes == s.nodes[c := Node(Leader(term, until, Some(Guard(c, term, until)), true), Idle)]
  {
    var visit := Visit(c, round, "v", true, Some(Granted(term, c, LEASE)), 0);
    var rd := Round(c, true, term, s.now);
    assert AnswerOf(PAIR, s.ballots["v"], s.now + 0, rd) == Some(Granted(term, c, LEASE));
    VisitOk(PAIR, s, c, rd, round, 0, true, 0);
    ConcludesWon(s, Play(PAIR, s, visit), c, term, round);
    PlayMore(PAIR, s, visit, Conclude(c));
  }

  lemma ConcludesWon(s: State, t: State, c: NodeId, term: int, round: nat)
    requires AtVoter(PAIR, s, c, Round(c, true, term, s.now), round, 0)
    requires s.nodes[c].phase == Collecting(Campaign(term), round, 0, {}, term) && c in PAIR.armed
    requires t.now == s.now && t.rounds == s.rounds
    requires t.nodes == s.nodes[c := Visited(s.nodes[c], round, term, "v", Some(Granted(term, c, LEASE)))]
    ensures var t' := Do(PAIR, t, Conclude(c));
            var until := s.now + LEASE;
            && t'.now == t.now && t'.rounds == t.rounds && t'.ballots == t.ballots
            && t'.nodes == s.nodes[c := Node(Leader(term, until, Some(Guard(c, term, until)), true), Idle)]
  {
  }

  /** `a` wins, asks again while its lease runs, and is slow; its lease ends, `b` wins; then `a`
      adopts from its old view. */
  function Misleading(): seq<Step> {
    ([StartQuery("a"), Poll("a", false)] + CampaignPath("a", 0, 0))
    + ([StartQuery("a"), Poll("a", false)] + [Tick(LEASE)])
    + ([StartQuery("b"), Poll("b", false)] + CampaignPath("b", 1, 1))
    + [Decide("a", View(1, "a", 1), true, false)]
  }

  lemma Start()
    ensures var s := Init(PAIR);
            && s.now == 0 && s.rounds == [] && s.ballots == map["v" := BLANK]
            && s.nodes == map["a" := Node(STANDBY, Idle), "b" := Node(STANDBY, Idle)]
  {
  }

  /** A free voter makes an idle candidate win at once. */
  lemma AsksAndWins(s: State, c: NodeId, b: Ballot)
    requires c in PAIR.cfg.candidates && c in s.nodes && s.nodes[c].phase.Idle? && s.nodes[c].leader.deadline <= s.now
    requires "v" in s.ballots && s.ballots["v"] == b && b.term >= 0 && b.deadline <= s.now && b.guardUntil <= s.now
    ensures var t := Play(PAIR, s, [StartQuery(c), Poll(c, false)] + CampaignPath(c, b.term, |s.rounds|));
            var until := s.now + LEASE;
            && t.now == s.now && |t.rounds| == |s.rounds| + 1
            && t.ballots == s.ballots["v" := Ballot(b.term + 1, c, c, until, b.guardUntil)]
            && t.nodes == s.nodes[c := Node(Leader(b.term + 1, until, Some(Guard(c, b.term + 1, until)), true), Idle)]
  {
    var ask := [StartQuery(c), Poll(c, false)];
    Asks(s, c);
    Campaigns(Play(PAIR, s, ask), c, b.term);
    PlayAppend(PAIR, s, ask, CampaignPath(c, b.term, |s.rounds|));
  }

  /** `a` asks again, and a whole lease passes. */
  lemma SlowQuery(s: State)
    requires s.now == 0 && s.ballots == map["v" := Ballot(1, "a", "a", LEASE, 0)]
    requires "a" in s.nodes && s.nodes["a"].phase.Idle?
    ensures Play(PAIR, s, [StartQuery("a"), Poll("a", false)] + [Tick(LEASE)])
         == Put(s.(now := LEASE), "a", Node(s.nodes["a"].leader, Querying([Response("v", 1, "a", LEASE)], 1)))
  {
    Asks(s, "a");
    PlayMore(PAIR, s, [StartQuery("a"), Poll("a", false)], Tick(LEASE));
  }

  lemma PlayFour(s: State, a: seq<Step>, b: seq<Step>, c: seq<Step>, e: Step)
    ensures Play(PAIR, s, a + b + c + [e]) == Do(PAIR, Play(PAIR, Play(PAIR, Play(PAIR, s, a), b), c), e)
  {
    PlayAppend(PAIR, s, a, b);
    PlayAppend(PAIR, s, a + b, c);
    PlayMore(PAIR, s, a + b + c, e);
  }

  /** `b` holds an unexpired guard, yet the leader deadline of `a` is in the future as well. */
  lemma LeaderDeadlineIsNotExclusive()
    ensures var s := Run(PAIR, Misleading());
            && "a" in s.nodes && "b" in s.nodes && Holds(s, "b") && !Holds(s, "a")
            && s.nodes["b"].leader.deadline > s.now && s.nodes["a"].leader.deadline > s.now
  {
    var p1 := [StartQuery("a"), Poll("a", false)] + CampaignPath("a", 0, 0);
    var p2 := [StartQuery("a"), Poll("a", false)] + [Tick(LEASE)];
    var p3 := [StartQuery("b"), Poll("b", false)] + CampaignPath("b", 1, 1);
    var end := Decide("a", View(1, "a", 1), true, false);
    var s1 := Play(PAIR, Init(PAIR), p1);
    Start();
    AsksAndWins(Init(PAIR), "a", BLANK);
    SlowQuery(s1);
    var s2 := Play(PAIR, s1, p2);
    AsksAndWins(s2, "b", Ballot(1, "a", "a", LEASE, 0));
    AdoptsLate(Play(PAIR, s2, p3));
    PlayFour(Init(PAIR), p1, p2, p3, end);
    assert [] + Misleading() == Misleading();
    RunThenPlay(PAIR, [], Misleading());
  }

  lemma AdoptsLate(s: State)
    requires "a" in s.nodes && s.nodes["a"].phase == Querying([Response("v", 1, "a", LEASE)], 1)
    requires s.nodes["a"].leader.deadline <= s.now
    ensures var t := Do(PAIR, s, Decide("a", View(1, "a", 1), true, false));
            && t.now == s.now && "a" in t.nodes && t.nodes["a"].leader.deadline == s.now + LEASE
            && t.nodes["a"].leader.guard == s.nodes["a"].leader.guard
            && t.nodes == s.nodes["a" := t.nodes["a"]]
  {
    OneResponse(PAIR.cfg.Quorum(), Response("v", 1, "a", LEASE));
  }

  /** `a` wins, asks again while its lease runs, and is slow; its lease ends; it adopts, reaches no
      voter, and a whole lease later gives up. */
  function Overdue(): seq<Step> {
    ([StartQuery("a"), Poll("a", false)] + CampaignPath("a", 0, 0))
    + ([StartQuery("a"), Poll("a", false)] + [Tick(LEASE)])
    + [Decide("a", View(1, "a", 1), true, false), Begin("a", true)]
    + [Tick(LEASE), GiveUp("a"), Conclude("a")]
  }

  lemma AdoptsAndBegins(s: State)
    requires "a" in s.nodes && s.nodes["a"].phase == Querying([Response("v", 1, "a", LEASE)], 1)
    requires s.nodes["a"].leader.deadline <= s.now && s.nodes["a"].leader.primary
    ensures var t := Play(PAIR, s, [Decide("a", View(1, "a", 1), true, false), Begin("a", true)]);
            && t.now == s.now && "a" in t.nodes && t.nodes["a"].leader.primary
            && t.nodes["a"].leader.deadline == s.now + LEASE
            && t.nodes["a"].phase == Collecting(Adopt, |s.rounds|, 0, {}, 1)
            && t.rounds == s.rounds + [Round("a", false, 1, s.now)]
  {
    var d, b := Decide("a", View(1, "a", 1), true, false), Begin("a", true);
    OneResponse(PAIR.cfg.Quorum(), Response("v", 1, "a", LEASE));
    assert [d, b] == [d] + [b];
    PlayOne(PAIR, s, d);
    PlayMore(PAIR, s, [d], b);
  }

  lemma GivesUpLate(s: State, round: nat)
    requires "a" in s.nodes && s.nodes["a"].phase == Collecting(Adopt, round, 0, {}, 1)
    requires round < |s.rounds| && s.rounds[round].started == s.now
    requires s.nodes["a"].leader.primary && s.nodes["a"].leader.deadline == s.now + LEASE
    ensures var t := Play(PAIR, s, [Tick(LEASE), GiveUp("a"), Conclude("a")]);
            && "a" in t.nodes && t.nodes["a"].phase.Idle? && t.nodes["a"].leader.primary
            && t.nodes["a"].leader.deadline <= t.now
  {
    var s1 := s.(now := s.now + LEASE);
    assert [Tick(LEASE), GiveUp("a"), Conclude("a")] == [Tick(LEASE)] + [GiveUp("a")] + [Conclude("a")];
    PlayOne(PAIR, s, Tick(LEASE));
    PlayMore(PAIR, s, [Tick(LEASE)], GiveUp("a"));
    PlayMore(PAIR, s, [Tick(LEASE)] + [GiveUp("a")], Conclude("a"));
    assert Do(PAIR, s, Tick(LEASE)) == s1;
  }

  /** A control loop can leave primary mode on after the lease is over: an adoption that is confirmed
      by nobody for a whole lease. */
  lemma LateAdoptionKeepsPrimary()
    ensures var s := Run(PAIR, Overdue());
            && "a" in s.nodes && s.nodes["a"].phase.Idle? && s.nodes["a"].leader.primary
            && s.nodes["a"].leader.deadline <= s.now
  {
    var p1 := [StartQuery("a"), Poll("a", false)] + CampaignPath("a", 0, 0);
    var p2 := [StartQuery("a"), Poll("a", false)] + [Tick(LEASE)];
    var p3 := [Decide("a", View(1, "a", 1), true, false), Begin("a", true)];
    var p4 := [Tick(LEASE), GiveUp("a"), Conclude("a")];
    Start();
    AsksAndWins(Init(PAIR), "a", BLANK);
    var s1 := Play(PAIR, Init(PAIR), p1);
    SlowQuery(s1);
    var s2 := Play(PAIR, s1, p2);
    AdoptsAndBegins(s2);
    GivesUpLate(Play(PAIR, s2, p3), |s2.rounds|);
    PlayAppend(PAIR, Init(PAIR), p1, p2);
    PlayAppend(PAIR, Init(PAIR), p1 + p2, p3);
    PlayAppend(PAIR, Init(PAIR), p1 + p2 + p3, p4);
    RunThenPlay(PAIR, [], Overdue());
    assert [] + Overdue() == Overdue();
  }
}
