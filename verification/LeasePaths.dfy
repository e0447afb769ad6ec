/** Paths through the cluster on which one candidate asks its voters one after the other and
    nobody else acts. */
module LeasePaths {
  import opened Ballot
  import opened LeaseEngine
  import opened LeaseProtocol
  import opened Options

  type Step = LeaseProtocol.Event

  /** One event, skipped if it cannot happen. */
  ghost function Do(k: Cluster, s: State, e: Step): State {
    if Enabled(k, s, e) then Next(k, s, e) else s
  }

  /** A run continued from a given state. */
  ghost function Play(k: Cluster, s: State, events: seq<Step>): State
    decreases |events|
  {
    if events == [] then s else Play(k, Do(k, s, events[0]), events[1..])
  }

  lemma PlayOne(k: Cluster, s: State, a: Step)
    ensures Play(k, s, [a]) == Do(k, s, a)
  {
    assert [a][1..] == [];
    assert Play(k, Do(k, s, a), []) == Do(k, s, a);
  }

  lemma {:induction false} PlayAppend(k: Cluster, s: State, a: seq<Step>, b: seq<Step>)
    ensures Play(k, s, a + b) == Play(k, Play(k, s, a), b)
    decreases |a|
  {
    if a == [] {
      assert a + b == b;
    } else {
      assert (a + b)[0] == a[0] && (a + b)[1..] == a[1..] + b;
      PlayAppend(k, Do(k, s, a[0]), a[1..], b);
    }
  }

  lemma PlayMore(k: Cluster, s: State, a: seq<Step>, e: Step)
    ensures Play(k, s, a + [e]) == Do(k, Play(k, s, a), e)
  {
    PlayAppend(k, s, a, [e]);
    PlayOne(k, Play(k, s, a), e);
  }

  lemma {:induction false} RunThenPlay(k: Cluster, a: seq<Step>, b: seq<Step>)
    ensures Run(k, a + b) == Play(k, Run(k, a), b)
    decreases |b|
  {
    if b == [] {
      assert a + b == a;
    } else {
      assert a + b == (a + [b[0]]) + b[1..];
      assert (a + [b[0]])[..|a|] == a;
      RunThenPlay(k, a + [b[0]], b[1..]);
    }
  }

  // ------------------------------------------------------------ one voter

  function ReplyOf(round: nat, voter: NodeId, r: Reply): Answered {
    Answered(round, voter, r.Granted?, r.term)
  }

  /** What a voter in state `b` answers to the request of a round; None if it reports an error. */
  function AnswerOf(k: Cluster, b: Ballot, now: int, rd: Round): Option<Reply> {
    match Handle(k.cfg, true, b, now, rd.candidate, "peer", RequestOf(k, rd)).1
    case Answer(r) => Some(r)
    case Failure(_) => None
  }

  /** A voter that is not reached answers nothing. */
  function AnswerIf(k: Cluster, b: Ballot, reached: bool, now: int, rd: Round): Option<Reply> {
    if reached then AnswerOf(k, b, now, rd) else None
  }

  function GivenUp(n: Node): Node
    requires n.phase.Collecting?
  {
    var p := n.phase;
    n.(phase := Collecting(p.move, p.round, p.next + 1, p.granted, p.highest))
  }

  /** The node after one voter: a reply is heard, a failed call is given up. */
  function Visited(n: Node, round: nat, term: int, v: NodeId, reply: Option<Reply>): Node
    requires n.phase.Collecting?
    ensures Visited(n, round, term, v, reply).phase.Collecting?
  {
    match reply
    case Some(r) => Heard(n, ReplyOf(round, v, r), term)
    case None => GivenUp(n)
  }

  /** The node after the first `|replies|` voters. */
  function Collect(cfg: Config, n: Node, round: nat, term: int, replies: seq<Option<Reply>>): Node
    requires n.phase.Collecting? && |replies| <= |cfg.voters|
    ensures Collect(cfg, n, round, term, replies).phase.Collecting?
    decreases |replies|
  {
    if replies == [] then n
    else
      var k := |replies| - 1;
      Visited(Collect(cfg, n, round, term, replies[..k]), round, term, cfg.voters[k], replies[k])
  }

  /** The set of grants a round collects is as large as the count the agent's loop keeps. */
  lemma {:induction false} RoundCountsEveryGrant(cfg: Config, n: Node, round: nat, term: int,
                                                 replies: seq<Option<Reply>>)
    requires cfg.Valid() && |replies| <= |cfg.voters|
    requires n.phase.Collecting? && n.phase.next == 0 && n.phase.granted == {} && n.phase.highest == term
    ensures Counted(cfg, n, Collect(cfg, n, round, term, replies), term, replies)
    decreases |replies|
  {
    if replies != [] {
      var k := |replies| - 1;
      RoundCountsEveryGrant(cfg, n, round, term, replies[..k]);
      GrantCounted(cfg, n, Collect(cfg, n, round, term, replies[..k]), round, term, replies);
    }
  }

  /** How a node that has collected `replies` relates to the node that began the round. */
  ghost predicate Counted(cfg: Config, n: Node, m: Node, term: int, replies: seq<Option<Reply>>)
    requires |replies| <= |cfg.voters|
  {
    && m.phase.Collecting? && n.phase.Collecting?
    && m.leader == n.leader && m.phase.move == n.phase.move && m.phase.round == n.phase.round
    && m.phase.next == |replies|
    && |m.phase.granted| == Tally(replies, term) && m.phase.highest == Highest(replies, term)
    && Granting(cfg, m.phase.granted, term, replies)
  }

  /** `granted` are the voters whose replies grant. */
  ghost predicate Granting(cfg: Config, granted: set<NodeId>, term: int, replies: seq<Option<Reply>>)
    requires |replies| <= |cfg.voters|
  {
    && (forall v :: v in granted ==> v in cfg.voters[..|replies|])
    && (forall i :: 0 <= i < |replies| && Grants(replies[i], term) ==> cfg.voters[i] in granted)
  }

  /** The next voter is not among those counted before. */
  lemma NextIsNew(cfg: Config, granted: set<NodeId>, term: int, replies: seq<Option<Reply>>)
    requires cfg.Valid() && |replies| < |cfg.voters| && Granting(cfg, granted, term, replies)
    ensures cfg.voters[|replies|] !in granted
  {
  }

  lemma NextGranting(cfg: Config, granted: set<NodeId>, more: set<NodeId>, term: int, replies: seq<Option<Reply>>)
    requires replies != [] && |replies| <= |cfg.voters|
    requires Granting(cfg, granted, term, replies[..|replies| - 1])
    requires more == if Grants(replies[|replies| - 1], term) then granted + {cfg.voters[|replies| - 1]} else granted
    ensures Granting(cfg, more, term, replies)
  {
    var k := |replies| - 1;
    assert cfg.voters[..|replies|] == cfg.voters[..k] + [cfg.voters[k]];
    forall i | 0 <= i < |replies| && Grants(replies[i], term) ensures cfg.voters[i] in more {
      assert i < k ==> replies[..k][i] == replies[i];
    }
  }

  lemma GrantCounted(cfg: Config, n: Node, m: Node, round: nat, term: int, replies: seq<Option<Reply>>)
    requires cfg.Valid() && replies != [] && |replies| <= |cfg.voters|
    requires Counted(cfg, n, m, term, replies[..|replies| - 1])
    ensures var k := |replies| - 1; Counted(cfg, n, Visited(m, round, term, cfg.voters[k], replies[k]), term, replies)
  {
    var k := |replies| - 1;
    var m' := Visited(m, round, term, cfg.voters[k], replies[k]);
    NextIsNew(cfg, m.phase.granted, term, replies[..k]);
    NextGranting(cfg, m.phase.granted, m'.phase.granted, term, replies);
  }

  /** Wait, then call the voter (or fail to), then go on with its answer. */
  function Visit(c: NodeId, round: nat, v: NodeId, contacted: bool, reply: Option<Reply>, delay: nat): seq<Step> {
    [Tick(delay)] + (if contacted then [Send(c), Deliver(round, v)] else [])
    + [if reply.Some? then Hear(c, ReplyOf(round, v, reply.value)) else GiveUp(c)]
  }

  /** The candidate is collecting for round `rd` and voter number `i` is next. */
  ghost predicate AtVoter(k: Cluster, s: State, c: NodeId, rd: Round, round: nat, i: nat) {
    && i < |k.cfg.voters| && k.cfg.voters[i] in s.ballots
    && round < |s.rounds| && s.rounds[round] == rd && rd.candidate == c
    && c in s.nodes && s.nodes[c].phase.Collecting?
    && s.nodes[c].phase.round == round && s.nodes[c].phase.next == i
  }

  /** What one visit changes: the clock, that voter and the candidate's node. */
  ghost predicate Passed(s: State, s': State, c: NodeId, n: Node, v: NodeId, b: Ballot, delay: nat) {
    && s'.now == s.now + delay && s'.rounds == s.rounds && s'.wins == s.wins
    && s'.nodes == s.nodes[c := n] && s'.ballots == s.ballots[v := b]
  }

  /** The voter after its call. */
  function BallotAfter(k: Cluster, b: Ballot, now: int, rd: Round): Ballot {
    Handle(k.cfg, true, b, now, rd.candidate, "peer", RequestOf(k, rd)).0
  }

  lemma CallOk(k: Cluster, s: State, c: NodeId, rd: Round, round: nat, i: nat)
    requires AtVoter(k, s, c, rd, round, i)
    ensures var v := k.cfg.voters[i];
            var s' := Play(k, s, [Send(c), Deliver(round, v)]);
            && Passed(s, s', c, s.nodes[c], v, BallotAfter(k, s.ballots[v], s.now, rd), 0)
            && (AnswerOf(k, s.ballots[v], s.now, rd).Some? ==>
                  ReplyOf(round, v, AnswerOf(k, s.ballots[v], s.now, rd).value) in s'.replies)
  {
    var v := k.cfg.voters[i];
    var s1 := s.(sent := s.sent + {(round, v)});
    assert Do(k, s, Send(c)) == s1;
    assert [Send(c), Deliver(round, v)] == [Send(c)] + [Deliver(round, v)];
    PlayOne(k, s, Send(c));
    PlayMore(k, s, [Send(c)], Deliver(round, v));
    assert Do(k, s1, Deliver(round, v)) == Delivered(k, s1, round, v);
  }

  lemma ReplyTaken(k: Cluster, s: State, c: NodeId, rd: Round, round: nat, i: nat, reply: Option<Reply>)
    requires AtVoter(k, s, c, rd, round, i)
    requires reply.Some? ==> ReplyOf(round, k.cfg.voters[i], reply.value) in s.replies
    ensures var v := k.cfg.voters[i];
            var e := if reply.Some? then Hear(c, ReplyOf(round, v, reply.value)) else GiveUp(c);
            Passed(s, Do(k, s, e), c, Visited(s.nodes[c], round, rd.term, v, reply), v, s.ballots[v], 0)
  {
  }

  /** The call, or none, within a visit. */
  lemma CallsOk(k: Cluster, s: State, c: NodeId, rd: Round, round: nat, i: nat, contacted: bool)
    requires AtVoter(k, s, c, rd, round, i)
    ensures var v := k.cfg.voters[i];
            var t := Play(k, s, if contacted then [Send(c), Deliver(round, v)] else []);
            var reply := AnswerIf(k, s.ballots[v], contacted, s.now, rd);
            var b := if contacted then BallotAfter(k, s.ballots[v], s.now, rd) else s.ballots[v];
            && Passed(s, t, c, s.nodes[c], v, b, 0)
            && (reply.Some? ==> ReplyOf(round, v, reply.value) in t.replies)
  {
    if contacted {
      CallOk(k, s, c, rd, round, i);
    }
  }

  lemma VisitIsThree(k: Cluster, s: State, c: NodeId, round: nat, v: NodeId, contacted: bool, reply: Option<Reply>,
                     delay: nat)
    ensures Play(k, s, Visit(c, round, v, contacted, reply, delay))
         == Do(k, Play(k, s.(now := s.now + delay), if contacted then [Send(c), Deliver(round, v)] else []),
               if reply.Some? then Hear(c, ReplyOf(round, v, reply.value)) else GiveUp(c))
  {
    var calls := if contacted then [Send(c), Deliver(round, v)] else [];
    PlayOne(k, s, Tick(delay));
    assert Do(k, s, Tick(delay)) == s.(now := s.now + delay);
    PlayAppend(k, s, [Tick(delay)], calls);
    PlayMore(k, s, [Tick(delay)] + calls, if reply.Some? then Hear(c, ReplyOf(round, v, reply.value)) else GiveUp(c));
  }

  lemma VisitOk(k: Cluster, s: State, c: NodeId, rd: Round, round: nat, i: nat, contacted: bool, delay: nat)
    requires AtVoter(k, s, c, rd, round, i)
    ensures var v := k.cfg.voters[i];
            var reply := AnswerIf(k, s.ballots[v], contacted, s.now + delay, rd);
            var b := if contacted then BallotAfter(k, s.ballots[v], s.now + delay, rd) else s.ballots[v];
            Passed(s, Play(k, s, Visit(c, round, v, contacted, reply, delay)), c,
                   Visited(s.nodes[c], round, rd.term, v, reply), v, b, delay)
  {
    var v := k.cfg.voters[i];
    var reply := AnswerIf(k, s.ballots[v], contacted, s.now + delay, rd);
    var s1 := s.(now := s.now + delay);
    var t := Play(k, s1, if contacted then [Send(c), Deliver(round, v)] else []);
    var b := if contacted then BallotAfter(k, s.ballots[v], s.now + delay, rd) else s.ballots[v];
    CallsOk(k, s1, c, rd, round, i, contacted);
    CalledThenTaken(k, s, t, c, rd, round, i, reply, b, delay);
    VisitIsThree(k, s, c, round, v, contacted, reply, delay);
  }

  /** The end of a visit: `t` is the state after the call. */
  lemma CalledThenTaken(k: Cluster, s: State, t: State, c: NodeId, rd: Round, round: nat, i: nat,
                        reply: Option<Reply>, b: Ballot, delay: nat)
    requires AtVoter(k, s, c, rd, round, i)
    requires Passed(s.(now := s.now + delay), t, c, s.nodes[c], k.cfg.voters[i], b, 0)
    requires reply.Some? ==> ReplyOf(round, k.cfg.voters[i], reply.value) in t.replies
    ensures var v := k.cfg.voters[i];
            var e := if reply.Some? then Hear(c, ReplyOf(round, v, reply.value)) else GiveUp(c);
            Passed(s, Do(k, t, e), c, Visited(s.nodes[c], round, rd.term, v, reply), v, b, delay)
  {
    ReplyTaken(k, t, c, rd, round, i, reply);
  }

  // ------------------------------------------------------------ all voters

  function Elapsed(delays: seq<nat>, i: nat): nat
    requires i <= |delays|
  {
    if i == 0 then 0 else Elapsed(delays, i - 1) + delays[i - 1]
  }

  /** What the first `n` voters answer from their ballots when each in `up` is called in its turn. */
  ghost predicate Replied(k: Cluster, ballots: map<NodeId, Ballot>, start: int, rd: Round, up: set<NodeId>,
                          delays: seq<nat>, replies: seq<Option<Reply>>, n: nat) {
    && |delays| == |replies| == |k.cfg.voters| && n <= |delays|
    && (n > 0 ==>
          var v := k.cfg.voters[n - 1];
          && Replied(k, ballots, start, rd, up, delays, replies, n - 1)
          && v in ballots && replies[n - 1] == AnswerIf(k, ballots[v], v in up, start + Elapsed(delays, n), rd))
  }

  lemma {:induction false} RepliedAt(k: Cluster, ballots: map<NodeId, Ballot>, start: int, rd: Round, up: set<NodeId>,
                                     delays: seq<nat>, replies: seq<Option<Reply>>, n: nat, i: nat)
    requires Replied(k, ballots, start, rd, up, delays, replies, n) && i < n
    ensures n <= |delays| == |replies| == |k.cfg.voters| && k.cfg.voters[i] in ballots
    ensures var v := k.cfg.voters[i];
            replies[i] == AnswerIf(k, ballots[v], v in up, start + Elapsed(delays, i + 1), rd)
    decreases n
  {
    if i < n - 1 {
      RepliedAt(k, ballots, start, rd, up, delays, replies, n - 1, i);
    }
  }

  /** The visits of the first `i` voters. */
  function Trip(k: Cluster, c: NodeId, round: nat, up: set<NodeId>, delays: seq<nat>, replies: seq<Option<Reply>>,
                i: nat): seq<Step>
    requires |delays| == |replies| == |k.cfg.voters| && i <= |replies|
  {
    if i == 0 then []
    else
      var v := k.cfg.voters[i - 1];
      Trip(k, c, round, up, delays, replies, i - 1) + Visit(c, round, v, v in up, replies[i - 1], delays[i - 1])
  }

  /** The round has just begun. */
  ghost predicate RoundBegun(k: Cluster, s: State, c: NodeId, rd: Round, round: nat) {
    && round < |s.rounds| && s.rounds[round] == rd && rd.candidate == c
    && c in s.nodes && s.nodes[c].phase.Collecting? && s.nodes[c].phase.round == round
    && s.nodes[c].phase.next == 0 && s.nodes[c].phase.granted == {} && s.nodes[c].phase.highest == rd.term
  }

  /** After `i` voters: `s` is the state in which the round began. */
  ghost predicate OnTrip(k: Cluster, s: State, t: State, c: NodeId, rd: Round, round: nat, delays: seq<nat>,
                         replies: seq<Option<Reply>>, i: nat)
    requires RoundBegun(k, s, c, rd, round)
  {
    && |delays| == |replies| == |k.cfg.voters| && i <= |replies|
    && t.now == s.now + Elapsed(delays, i) && t.rounds == s.rounds && t.wins == s.wins
    && t.nodes == s.nodes[c := Collect(k.cfg, s.nodes[c], round, rd.term, replies[..i])]
    && t.ballots.Keys == s.ballots.Keys
    && forall j :: i <= j < |k.cfg.voters| && k.cfg.voters[j] in s.ballots ==>
         t.ballots[k.cfg.voters[j]] == s.ballots[k.cfg.voters[j]]
  }

  lemma TripStep(k: Cluster, s: State, t: State, t': State, c: NodeId, rd: Round, round: nat, delays: seq<nat>,
                 replies: seq<Option<Reply>>, i: nat, b: Ballot)
    requires k.cfg.Valid() && RoundBegun(k, s, c, rd, round) && i < |k.cfg.voters|
    requires OnTrip(k, s, t, c, rd, round, delays, replies, i) && c in t.nodes && t.nodes[c].phase.Collecting?
    requires k.cfg.voters[i] in t.ballots
    requires Passed(t, t', c, Visited(t.nodes[c], round, rd.term, k.cfg.voters[i], replies[i]), k.cfg.voters[i],
                    b, delays[i])
    ensures OnTrip(k, s, t', c, rd, round, delays, replies, i + 1)
  {
    assert replies[..i + 1][..i] == replies[..i] && replies[..i + 1][i] == replies[i];
  }

  /** In the middle of the trip the next voter is still as it was. */
  lemma TripAtVoter(k: Cluster, s: State, t: State, c: NodeId, rd: Round, round: nat, up: set<NodeId>,
                    delays: seq<nat>, replies: seq<Option<Reply>>, i: nat)
    requires k.cfg.Valid() && RoundBegun(k, s, c, rd, round)
    requires Replied(k, s.ballots, s.now, rd, up, delays, replies, |delays|)
    requires i < |replies| && OnTrip(k, s, t, c, rd, round, delays, replies, i)
    ensures AtVoter(k, t, c, rd, round, i)
    ensures var v := k.cfg.voters[i];
            replies[i] == AnswerIf(k, t.ballots[v], v in up, t.now + delays[i], rd)
  {
    RepliedAt(k, s.ballots, s.now, rd, up, delays, replies, |delays|, i);
    RoundCountsEveryGrant(k.cfg, s.nodes[c], round, rd.term, replies[..i]);
  }

  lemma {:induction false} TripOk(k: Cluster, s: State, c: NodeId, rd: Round, round: nat, up: set<NodeId>,
                                  delays: seq<nat>, replies: seq<Option<Reply>>, i: nat)
    requires k.cfg.Valid() && RoundBegun(k, s, c, rd, round)
    requires Replied(k, s.ballots, s.now, rd, up, delays, replies, |delays|)
    requires i <= |replies|
    ensures OnTrip(k, s, Play(k, s, Trip(k, c, round, up, delays, replies, i)), c, rd, round, delays, replies, i)
    decreases i
  {
    if i > 0 {
      TripOk(k, s, c, rd, round, up, delays, replies, i - 1);
      var before := Trip(k, c, round, up, delays, replies, i - 1);
      var v := k.cfg.voters[i - 1];
      TripAdvances(k, s, Play(k, s, before), c, rd, round, up, delays, replies, i - 1);
      PlayAppend(k, s, before, Visit(c, round, v, v in up, replies[i - 1], delays[i - 1]));
    }
  }

  lemma TripAdvances(k: Cluster, s: State, t: State, c: NodeId, rd: Round, round: nat, up: set<NodeId>,
                     delays: seq<nat>, replies: seq<Option<Reply>>, i: nat)
    requires k.cfg.Valid() && RoundBegun(k, s, c, rd, round)
    requires Replied(k, s.ballots, s.now, rd, up, delays, replies, |delays|)
    requires i < |replies| && OnTrip(k, s, t, c, rd, round, delays, replies, i)
    ensures var v := k.cfg.voters[i];
            OnTrip(k, s, Play(k, t, Visit(c, round, v, v in up, replies[i], delays[i])), c, rd, round, delays,
                   replies, i + 1)
  {
    var v := k.cfg.voters[i];
    TripAtVoter(k, s, t, c, rd, round, up, delays, replies, i);
    VisitOk(k, t, c, rd, round, i, v in up, delays[i]);
    TripStep(k, s, t, Play(k, t, Visit(c, round, v, v in up, replies[i], delays[i])), c, rd, round, delays, replies, i,
             if v in up then BallotAfter(k, t.ballots[v], t.now + delays[i], rd) else t.ballots[v]);
  }
}
