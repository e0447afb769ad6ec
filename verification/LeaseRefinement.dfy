/** The agent's control loop and the cluster agree, both ways: every loop whose replies the voters
    would give is a run of the cluster, and whatever the rest of the cluster does meanwhile, a
    node that goes through its steps ends as the control loop computes. */
module LeaseRefinement {
  import opened Ballot
  import opened LeaseEngine
  import opened LeaseProtocol
  import opened LeasePaths
  import opened Options

  /** The decision taken from a view. */
  function Decision(k: Cluster, s: State, c: NodeId, view: View, eligible: bool, higherReady: bool): (Leader, Move)
    requires c in s.nodes && s.nodes[c].phase.Querying?
  {
    Choose(k.cfg, c, true, s.nodes[c].leader, view, |s.nodes[c].phase.responses|, s.now, eligible, higherReady)
  }

  function TermOf(l: Leader, move: Move): int {
    if move.Campaign? then move.term else l.term
  }

  function RoundFor(c: NodeId, l: Leader, move: Move, started: int): Round {
    Round(c, move.Campaign?, TermOf(l, move), started)
  }

  /** One control loop of the agent from a decided state on. */
  function LoopFrom(k: Cluster, s: State, c: NodeId, view: View, inputs: Inputs): Leader
    requires c in s.nodes && s.nodes[c].phase.Querying?
  {
    Loop(k.cfg, c, true, c in k.armed, s.nodes[c].leader, view, |s.nodes[c].phase.responses|, inputs)
  }

  // ------------------------------------------------------------ every loop is a run

  lemma PlayTwo(k: Cluster, s: State, a: Step, b: Step)
    ensures Play(k, s, [a, b]) == Do(k, Do(k, s, a), b)
  {
    assert [a, b] == [a] + [b];
    PlayOne(k, s, a);
    PlayMore(k, s, [a], b);
  }

  /** From the decision to the first call. */
  lemma BeginOk(k: Cluster, s: State, c: NodeId, move: Move, wait: nat, stillEligible: bool)
    requires c in s.nodes && s.nodes[c].phase == Deciding(move) && (move.Campaign? || stillEligible)
    ensures var t := Play(k, s, [Tick(wait), Begin(c, stillEligible)]);
            var rd := RoundFor(c, s.nodes[c].leader, move, s.now + wait);
            && t.now == s.now + wait && t.ballots == s.ballots && t.wins == s.wins
            && t.rounds == s.rounds + [rd]
            && RoundBegun(k, t, c, rd, |s.rounds|)
            && t.nodes[c] == Node(s.nodes[c].leader, Collecting(move, |s.rounds|, 0, {}, rd.term))
  {
    PlayTwo(k, s, Tick(wait), Begin(c, stillEligible));
    assert Do(k, s, Tick(wait)) == s.(now := s.now + wait);
  }

  lemma GiveUpLease(k: Cluster, s: State, c: NodeId, move: Move, wait: nat)
    requires c in s.nodes && s.nodes[c].phase == Deciding(move) && !move.Campaign?
    ensures Play(k, s, [Tick(wait), Begin(c, false)]).nodes == s.nodes[c := Node(Demoted(s.nodes[c].leader), Idle)]
  {
    PlayTwo(k, s, Tick(wait), Begin(c, false));
    assert Do(k, s, Tick(wait)) == s.(now := s.now + wait);
  }

  /** What concluding computes from the replies. */
  function Outcome(k: Cluster, c: NodeId, l: Leader, move: Move, started: int, replies: seq<Option<Reply>>, now: int)
    : Leader
  {
    var term := TermOf(l, move);
    Settled(if move.Campaign?
            then AfterCampaign(k.cfg, c, c in k.armed, l, term, Tally(replies, term), Highest(replies, term), started,
                               now)
            else AfterRenew(k.cfg, c, c in k.armed, l, Tally(replies, term), started, now), move, now)
  }

  /** The candidate has heard, or given up on, the first `|replies|` voters of its round. */
  ghost predicate Collected(k: Cluster, s: State, c: NodeId, l: Leader, move: Move, round: nat, started: int,
                            replies: seq<Option<Reply>>) {
    && round < |s.rounds| && s.rounds[round] == RoundFor(c, l, move, started) && |replies| <= |k.cfg.voters|
    && c in s.nodes
    && s.nodes[c] == Collect(k.cfg, Node(l, Collecting(move, round, 0, {}, TermOf(l, move))), round, TermOf(l, move),
                             replies)
  }

  lemma ConcludeOk(k: Cluster, s: State, c: NodeId, l: Leader, move: Move, round: nat, started: int,
                   replies: seq<Option<Reply>>)
    requires k.cfg.Valid() && Collected(k, s, c, l, move, round, started, replies) && |replies| == |k.cfg.voters|
    ensures Enabled(k, s, Conclude(c))
    ensures Next(k, s, Conclude(c)).nodes[c] == Node(Outcome(k, c, l, move, started, replies, s.now), Idle)
    ensures Next(k, s, Conclude(c)).wins == s.wins +
              if Wins(k.cfg, Tally(replies, TermOf(l, move)), started, s.now)
              then [Win(Guard(c, TermOf(l, move), started + k.cfg.leaseMs), round, s.nodes[c].phase.granted)] else []
  {
    RoundCountsEveryGrant(k.cfg, Node(l, Collecting(move, round, 0, {}, TermOf(l, move))), round, TermOf(l, move),
                          replies);
  }

  /** The round that began in `s` at `started` has been concluded in `t`. */
  ghost predicate RoundDone(k: Cluster, s: State, t: State, c: NodeId, l: Leader, move: Move, started: int,
                            replies: seq<Option<Reply>>)
    requires |replies| == |k.cfg.voters|
  {
    var term := TermOf(l, move);
    && c in t.nodes && t.nodes[c] == Node(Outcome(k, c, l, move, started, replies, t.now), Idle)
    && t.wins == s.wins +
         if Wins(k.cfg, Tally(replies, term), started, t.now)
         then [Win(Guard(c, term, started + k.cfg.leaseMs), |s.rounds|, Granters(k, l, move, |s.rounds|, replies))]
         else []
  }

  /** The voters whose grants a round counts. */
  function Granters(k: Cluster, l: Leader, move: Move, round: nat, replies: seq<Option<Reply>>): set<NodeId>
    requires |replies| <= |k.cfg.voters|
  {
    Collect(k.cfg, Node(l, Collecting(move, round, 0, {}, TermOf(l, move))), round, TermOf(l, move), replies)
      .phase.granted
  }

  lemma EndOk(k: Cluster, s: State, t: State, c: NodeId, l: Leader, move: Move, started: int,
              replies: seq<Option<Reply>>, rest: nat)
    requires k.cfg.Valid() && |replies| == |k.cfg.voters| && t.wins == s.wins
    requires Collected(k, t, c, l, move, |s.rounds|, started, replies)
    ensures var t' := Play(k, t, [Tick(rest), Conclude(c)]);
            t'.now == t.now + rest && RoundDone(k, s, t', c, l, move, started, replies)
  {
    var t1 := t.(now := t.now + rest);
    PlayTwo(k, t, Tick(rest), Conclude(c));
    assert Do(k, t, Tick(rest)) == t1;
    ConcludeOk(k, t1, c, l, move, |s.rounds|, started, replies);
  }

  lemma TripCollects(k: Cluster, s: State, s1: State, c: NodeId, l: Leader, move: Move, up: set<NodeId>,
                     delays: seq<nat>, replies: seq<Option<Reply>>)
    requires k.cfg.Valid() && s1.rounds == s.rounds + [RoundFor(c, l, move, s1.now)] && s1.wins == s.wins
    requires RoundBegun(k, s1, c, RoundFor(c, l, move, s1.now), |s.rounds|)
    requires s1.nodes[c] == Node(l, Collecting(move, |s.rounds|, 0, {}, TermOf(l, move)))
    requires Replied(k, s1.ballots, s1.now, RoundFor(c, l, move, s1.now), up, delays, replies, |delays|)
    ensures var t := Play(k, s1, Trip(k, c, |s.rounds|, up, delays, replies, |delays|));
            && t.now == s1.now + Elapsed(delays, |delays|) && t.wins == s.wins
            && Collected(k, t, c, l, move, |s.rounds|, s1.now, replies)
  {
    TripOk(k, s1, c, RoundFor(c, l, move, s1.now), |s.rounds|, up, delays, replies, |delays|);
    assert replies[..|replies|] == replies;
  }

  /** A round as events: begin, visit the voters, conclude. */
  function RoundPath(k: Cluster, c: NodeId, wait: nat, stillEligible: bool, round: nat, up: set<NodeId>,
                     delays: seq<nat>, replies: seq<Option<Reply>>, rest: nat): seq<Step>
    requires |delays| == |replies| == |k.cfg.voters|
  {
    [Tick(wait), Begin(c, stillEligible)] + Trip(k, c, round, up, delays, replies, |delays|) + [Tick(rest), Conclude(c)]
  }

  /** A whole round, from the decision on, with the replies the voters give. */
  lemma RoundIsARun(k: Cluster, s: State, c: NodeId, move: Move, wait: nat, stillEligible: bool, up: set<NodeId>,
                    delays: seq<nat>, replies: seq<Option<Reply>>, rest: nat)
    requires k.cfg.Valid() && c in s.nodes && s.nodes[c].phase == Deciding(move) && (move.Campaign? || stillEligible)
    requires Replied(k, s.ballots, s.now + wait, RoundFor(c, s.nodes[c].leader, move, s.now + wait), up, delays,
                     replies, |delays|)
    ensures var t := Play(k, s, RoundPath(k, c, wait, stillEligible, |s.rounds|, up, delays, replies, rest));
            && t.now == s.now + wait + Elapsed(delays, |delays|) + rest
            && RoundDone(k, s, t, c, s.nodes[c].leader, move, s.now + wait, replies)
  {
    var middle := [Tick(wait), Begin(c, stillEligible)] + Trip(k, c, |s.rounds|, up, delays, replies, |delays|);
    RoundMiddle(k, s, c, s.nodes[c].leader, move, wait, stillEligible, up, delays, replies, Play(k, s, middle));
    EndOk(k, s, Play(k, s, middle), c, s.nodes[c].leader, move, s.now + wait, replies, rest);
    PlayAppend(k, s, middle, [Tick(rest), Conclude(c)]);
  }

  /** The round up to its conclusion. */
  lemma RoundMiddle(k: Cluster, s: State, c: NodeId, l: Leader, move: Move, wait: nat, stillEligible: bool,
                    up: set<NodeId>, delays: seq<nat>, replies: seq<Option<Reply>>, t: State)
    requires k.cfg.Valid() && c in s.nodes && s.nodes[c] == Node(l, Deciding(move)) && (move.Campaign? || stillEligible)
    requires Replied(k, s.ballots, s.now + wait, RoundFor(c, l, move, s.now + wait), up, delays,
                     replies, |delays|)
    requires t == Play(k, s, [Tick(wait), Begin(c, stillEligible)]
                             + Trip(k, c, |s.rounds|, up, delays, replies, |delays|))
    ensures t.now == s.now + wait + Elapsed(delays, |delays|) && t.wins == s.wins
    ensures Collected(k, t, c, l, move, |s.rounds|, s.now + wait, replies)
  {
    var begin := [Tick(wait), Begin(c, stillEligible)];
    var s1 := Play(k, s, begin);
    BeginOk(k, s, c, move, wait, stillEligible);
    TripCollects(k, s, s1, c, l, move, up, delays, replies);
    PlayAppend(k, s, begin, Trip(k, c, |s.rounds|, up, delays, replies, |delays|));
  }

  lemma DecideOk(k: Cluster, s: State, c: NodeId, view: View, inputs: Inputs)
    requires Enabled(k, s, Decide(c, view, inputs.eligible, inputs.higherReady))
    ensures var (l, move) := Decision(k, s, c, view, inputs.eligible, inputs.higherReady);
            var after := Put(s, c, Node(l, if move.Stay? then Idle else Deciding(move)));
            Play(k, s, [Decide(c, view, inputs.eligible, inputs.higherReady)]) == after
  {
    PlayOne(k, s, Decide(c, view, inputs.eligible, inputs.higherReady));
  }

  /** The control loop as events of the cluster. */
  function LoopPath(k: Cluster, c: NodeId, view: View, inputs: Inputs, move: Move, round: nat, up: set<NodeId>,
                    delays: seq<nat>): seq<Step>
    requires |delays| == |inputs.replies| == |k.cfg.voters|
    requires inputs.now <= inputs.started && inputs.started + Elapsed(delays, |delays|) <= inputs.finished
  {
    var wait := inputs.started - inputs.now;
    [Decide(c, view, inputs.eligible, inputs.higherReady)] +
    if move.Stay? then []
    else if !move.Campaign? && !inputs.stillEligible then [Tick(wait), Begin(c, false)]
    else RoundPath(k, c, wait, inputs.stillEligible, round, up, delays, inputs.replies,
                   inputs.finished - inputs.started - Elapsed(delays, |delays|))
  }

  /** Every control loop is a run. Let a candidate have gathered its responses. Whatever it then
      finds (eligibility, readiness, waiting times, which voters it reaches), the loop whose
      replies are what the voters answer is a path of enabled events, and the node ends in the
      state the loop computes. */
  lemma LoopIsARun(k: Cluster, events: seq<Step>, c: NodeId, view: View, inputs: Inputs, up: set<NodeId>,
                   delays: seq<nat>)
    requires k.cfg.Valid() && |delays| == |inputs.replies| == |k.cfg.voters|
    requires Enabled(k, Run(k, events), Decide(c, view, inputs.eligible, inputs.higherReady))
    requires Run(k, events).now == inputs.now <= inputs.started
    requires inputs.started + Elapsed(delays, |delays|) <= inputs.finished
    requires var s := Run(k, events);
             var (l, move) := Decision(k, s, c, view, inputs.eligible, inputs.higherReady);
             !move.Stay? ==>
               Replied(k, s.ballots, inputs.started, RoundFor(c, l, move, inputs.started), up, delays, inputs.replies,
                       |delays|)
    ensures var s := Run(k, events);
            var (_, move) := Decision(k, s, c, view, inputs.eligible, inputs.higherReady);
            var t := Run(k, events + LoopPath(k, c, view, inputs, move, |s.rounds|, up, delays));
            && c in t.nodes && t.nodes[c] == Node(LoopFrom(k, s, c, view, inputs), Idle)
            && (!move.Stay? && (move.Campaign? || inputs.stillEligible) ==> t.now == inputs.finished)
  {
    var s := Run(k, events);
    var (_, move) := Decision(k, s, c, view, inputs.eligible, inputs.higherReady);
    RunThenPlay(k, events, LoopPath(k, c, view, inputs, move, |s.rounds|, up, delays));
    LoopIsAPath(k, s, c, view, inputs, up, delays);
  }

  lemma LoopIsAPath(k: Cluster, s: State, c: NodeId, view: View, inputs: Inputs, up: set<NodeId>, delays: seq<nat>)
    requires k.cfg.Valid() && |delays| == |inputs.replies| == |k.cfg.voters|
    requires Enabled(k, s, Decide(c, view, inputs.eligible, inputs.higherReady))
             && s.now == inputs.now <= inputs.started
    requires inputs.started + Elapsed(delays, |delays|) <= inputs.finished
    requires var (l, move) := Decision(k, s, c, view, inputs.eligible, inputs.higherReady);
             !move.Stay? ==>
               Replied(k, s.ballots, inputs.started, RoundFor(c, l, move, inputs.started), up, delays, inputs.replies,
                       |delays|)
    ensures var (_, move) := Decision(k, s, c, view, inputs.eligible, inputs.higherReady);
            var t := Play(k, s, LoopPath(k, c, view, inputs, move, |s.rounds|, up, delays));
            && c in t.nodes && t.nodes[c] == Node(LoopFrom(k, s, c, view, inputs), Idle)
            && (!move.Stay? && (move.Campaign? || inputs.stillEligible) ==> t.now == inputs.finished)
  {
    var (l, move) := Decision(k, s, c, view, inputs.eligible, inputs.higherReady);
    var decide := [Decide(c, view, inputs.eligible, inputs.higherReady)];
    DecideOk(k, s, c, view, inputs);
    PlayAppend(k, s, decide, LoopPath(k, c, view, inputs, move, |s.rounds|, up, delays)[1..]);
    assert LoopPath(k, c, view, inputs, move, |s.rounds|, up, delays)
        == decide + LoopPath(k, c, view, inputs, move, |s.rounds|, up, delays)[1..];
    if !move.Stay? {
      DecidedLoop(k, s, Put(s, c, Node(l, Deciding(move))), c, view, inputs, l, move, up, delays);
    }
  }

  /** The rest of the loop, once a move has been decided. */
  lemma DecidedLoop(k: Cluster, s: State, s1: State, c: NodeId, view: View, inputs: Inputs, l: Leader, move: Move,
                    up: set<NodeId>, delays: seq<nat>)
    requires k.cfg.Valid() && |delays| == |inputs.replies| == |k.cfg.voters|
    requires c in s.nodes && s.nodes[c].phase.Querying? && s.now == inputs.now <= inputs.started
    requires inputs.started + Elapsed(delays, |delays|) <= inputs.finished
    requires !move.Stay? && s1 == Put(s, c, Node(l, Deciding(move)))
    requires (l, move) == Decision(k, s, c, view, inputs.eligible, inputs.higherReady)
    requires Replied(k, s.ballots, inputs.started, RoundFor(c, l, move, inputs.started), up, delays, inputs.replies,
                       |delays|)
    ensures var t := Play(k, s1, LoopPath(k, c, view, inputs, move, |s.rounds|, up, delays)[1..]);
            && c in t.nodes && t.nodes[c] == Node(LoopFrom(k, s, c, view, inputs), Idle)
            && (move.Campaign? || inputs.stillEligible ==> t.now == inputs.finished)
  {
    DoneIsLoop(k, s, c, view, inputs.eligible, inputs.higherReady,
               Seen(inputs.stillEligible, inputs.started, inputs.replies, inputs.finished));
    var wait: nat := inputs.started - inputs.now;
    if !move.Campaign? && !inputs.stillEligible {
      GiveUpLease(k, s1, c, move, wait);
    } else {
      var rest: nat := inputs.finished - inputs.started - Elapsed(delays, |delays|);
      RoundIsARun(k, s1, c, move, wait, inputs.stillEligible, up, delays, inputs.replies, rest);
    }
  }

  // ------------------------------------------------------------ every run is a loop

  /** What a node has seen of one control loop so far. */
  datatype Seen = Seen(stillEligible: bool, started: int, replies: seq<Option<Reply>>, finished: int)

  function InputsOf(now: int, eligible: bool, higherReady: bool, p: Seen): Inputs {
    Inputs(now, eligible, higherReady, p.stillEligible, p.started, p.replies, p.finished)
  }

  function Nones(n: nat): seq<Option<Reply>> {
    seq(n, _ => None)
  }

  /** Not a restart, a failure or the next query of `c`. */
  predicate Undisturbing(e: Step, c: NodeId) {
    match e
    case Restart(n, _) => n != c
    case Abort(n) => n != c
    case StartQuery(n) => n != c
    case _ => true
  }

  /** `s` is a state in the middle, or at the end, of the loop that `c` began in `s0` by deciding
      `move` in leader state `l`. */
  ghost predicate InLoop(k: Cluster, s0: State, c: NodeId, done: Leader, l: Leader, move: Move, s: State, p: Seen) {
    && s0.now <= s.now && c in s.nodes
    && match s.nodes[c].phase
       case Deciding(m) => m == move && !move.Stay? && s.nodes[c].leader == l
       case Collecting(m, r, _, _, _) =>
         && !move.Stay? && (move.Campaign? || p.stillEligible) && s0.now <= p.started <= s.now
         && Collected(k, s, c, l, move, r, p.started, p.replies)
       case Idle =>
         && |p.replies| == |k.cfg.voters| && s0.now <= p.started <= p.finished <= s.now
         && s.nodes[c].leader == done
       case Querying(_, _) => false
  }

  /** The leader state at the end of the loop. */
  function DoneAs(k: Cluster, c: NodeId, l: Leader, move: Move, p: Seen): Leader {
    if move.Stay? then l
    else if !move.Campaign? && !p.stillEligible then Demoted(l)
    else Outcome(k, c, l, move, p.started, p.replies, p.finished)
  }

  lemma DoneIsLoop(k: Cluster, s: State, c: NodeId, view: View, eligible: bool, higherReady: bool, p: Seen)
    requires c in s.nodes && s.nodes[c].phase.Querying?
    ensures var (l, move) := Decision(k, s, c, view, eligible, higherReady);
            DoneAs(k, c, l, move, p) == LoopFrom(k, s, c, view, InputsOf(s.now, eligible, higherReady, p))
  {
  }

  /** A reply that reads as the one heard. */
  function ReplyLike(a: Answered): Reply {
    if a.granted then Granted(a.term, "", 0) else Refused(a.term, "", 0, StaleTerm)
  }

  lemma BeginStep(k: Cluster, s0: State, c: NodeId, l: Leader, move: Move, s: State, p: Seen, eligible: bool)
    returns (q: Seen)
    requires k.cfg.Valid() && InLoop(k, s0, c, DoneAs(k, c, l, move, p), l, move, s, p)
             && Enabled(k, s, Begin(c, eligible))
    ensures InLoop(k, s0, c, DoneAs(k, c, l, move, q), l, move, Next(k, s, Begin(c, eligible)), q)
  {
    if move.Campaign? || eligible {
      q := Seen(true, s.now, [], s.now);
    } else {
      q := Seen(false, s.now, Nones(|k.cfg.voters|), s.now);
    }
  }

  /** The candidate is at the voter after those it has replies of. */
  lemma NextVoter(k: Cluster, s: State, c: NodeId, l: Leader, move: Move, round: nat, started: int,
                  replies: seq<Option<Reply>>)
    requires k.cfg.Valid() && Collected(k, s, c, l, move, round, started, replies)
    ensures s.nodes[c].phase.Collecting? && s.nodes[c].phase.next == |replies|
  {
    RoundCountsEveryGrant(k.cfg, Node(l, Collecting(move, round, 0, {}, TermOf(l, move))), round, TermOf(l, move),
                          replies);
  }

  /** One more voter heard or given up. */
  lemma OneMoreCollected(k: Cluster, s: State, t: State, c: NodeId, l: Leader, move: Move, round: nat, started: int,
                         replies: seq<Option<Reply>>, reply: Option<Reply>)
    requires Collected(k, s, c, l, move, round, started, replies) && |replies| < |k.cfg.voters|
    requires t.rounds == s.rounds && s.nodes[c].phase.Collecting?
    requires t.nodes == s.nodes[c := Visited(s.nodes[c], round, TermOf(l, move), k.cfg.voters[|replies|], reply)]
    ensures Collected(k, t, c, l, move, round, started, replies + [reply])
  {
    assert (replies + [reply])[..|replies|] == replies;
  }

  lemma HearStep(k: Cluster, s0: State, c: NodeId, l: Leader, move: Move, s: State, p: Seen, e: Step) returns (q: Seen)
    requires k.cfg.Valid() && InLoop(k, s0, c, DoneAs(k, c, l, move, p), l, move, s, p) && Enabled(k, s, e)
    requires (e.Hear? || e.GiveUp?) && e.c == c
    ensures InLoop(k, s0, c, DoneAs(k, c, l, move, q), l, move, Next(k, s, e), q)
  {
    var reply := if e.Hear? then Some(ReplyLike(e.reply)) else None;
    var round := s.nodes[c].phase.round;
    NextVoter(k, s, c, l, move, round, p.started, p.replies);
    assert e.Hear? ==> ReplyOf(round, k.cfg.voters[|p.replies|], ReplyLike(e.reply)) == e.reply;
    OneMoreCollected(k, s, Next(k, s, e), c, l, move, round, p.started, p.replies, reply);
    q := Seen(p.stillEligible, p.started, p.replies + [reply], p.finished);
  }

  lemma ConcludeStep(k: Cluster, s0: State, c: NodeId, l: Leader, move: Move, s: State, p: Seen) returns (q: Seen)
    requires k.cfg.Valid() && InLoop(k, s0, c, DoneAs(k, c, l, move, p), l, move, s, p) && Enabled(k, s, Conclude(c))
    ensures InLoop(k, s0, c, DoneAs(k, c, l, move, q), l, move, Next(k, s, Conclude(c)), q)
  {
    var round := s.nodes[c].phase.round;
    RoundCountsEveryGrant(k.cfg, Node(l, Collecting(move, round, 0, {}, TermOf(l, move))), round, TermOf(l, move),
                          p.replies);
    ConcludeOk(k, s, c, l, move, round, p.started, p.replies);
    q := Seen(p.stillEligible, p.started, p.replies, s.now);
  }

  /** Steps of others: the node and its round stay as they are. */
  lemma OtherStep(k: Cluster, s: State, e: Step, c: NodeId)
    requires Enabled(k, s, e) && Undisturbing(e, c) && c in s.nodes && !s.nodes[c].phase.Querying?
    requires !(e.Begin? && e.c == c) && !((e.Hear? || e.GiveUp?) && e.c == c) && !(e.Conclude? && e.c == c)
    ensures var t := Next(k, s, e);
            && s.now <= t.now && c in t.nodes && t.nodes[c] == s.nodes[c]
            && |s.rounds| <= |t.rounds| && forall r :: 0 <= r < |s.rounds| ==> t.rounds[r] == s.rounds[r]
  {
  }

  lemma LoopStep(k: Cluster, s0: State, c: NodeId, l: Leader, move: Move, s: State, p: Seen, e: Step) returns (q: Seen)
    requires k.cfg.Valid() && InLoop(k, s0, c, DoneAs(k, c, l, move, p), l, move, s, p)
    requires Enabled(k, s, e) && Undisturbing(e, c)
    ensures InLoop(k, s0, c, DoneAs(k, c, l, move, q), l, move, Next(k, s, e), q)
  {
    if e.Begin? && e.c == c {
      q := BeginStep(k, s0, c, l, move, s, p, e.eligible);
    } else if (e.Hear? || e.GiveUp?) && e.c == c {
      q := HearStep(k, s0, c, l, move, s, p, e);
    } else if e.Conclude? && e.c == c {
      q := ConcludeStep(k, s0, c, l, move, s, p);
    } else {
      OtherStep(k, s, e, c);
      q := p;
    }
  }

  lemma {:induction false} InLoopRun(k: Cluster, s0: State, c: NodeId, l: Leader, move: Move, events: seq<Step>,
                                     more: seq<Step>) returns (p: Seen)
    requires k.cfg.Valid() && s0.now <= Run(k, events).now && c in Run(k, events).nodes
    requires Run(k, events).nodes[c] == Node(l, if move.Stay? then Idle else Deciding(move))
    requires forall i :: 0 <= i < |more| ==> Undisturbing(more[i], c)
    ensures InLoop(k, s0, c, DoneAs(k, c, l, move, p), l, move, Run(k, events + more), p)
    decreases |more|
  {
    if more == [] {
      assert events + more == events;
      p := LoopStarts(k, s0, c, l, move, Run(k, events));
    } else {
      var front, e := more[..|more| - 1], more[|more| - 1];
      assert more == front + [e];
      p := InLoopRun(k, s0, c, l, move, events, front);
      RunMore(k, events, front, e);
      p := LoopDoes(k, s0, c, l, move, Run(k, events + front), p, e);
    }
  }

  lemma RunMore(k: Cluster, events: seq<Step>, front: seq<Step>, e: Step)
    ensures Run(k, events + (front + [e])) == Do(k, Run(k, events + front), e)
  {
    var all := events + (front + [e]);
    assert all[..|all| - 1] == events + front && all[|all| - 1] == e;
  }

  lemma LoopDoes(k: Cluster, s0: State, c: NodeId, l: Leader, move: Move, s: State, p: Seen, e: Step) returns (q: Seen)
    requires k.cfg.Valid() && InLoop(k, s0, c, DoneAs(k, c, l, move, p), l, move, s, p) && Undisturbing(e, c)
    ensures InLoop(k, s0, c, DoneAs(k, c, l, move, q), l, move, Do(k, s, e), q)
  {
    q := p;
    if Enabled(k, s, e) {
      q := LoopStep(k, s0, c, l, move, s, p, e);
    }
  }

  lemma LoopStarts(k: Cluster, s0: State, c: NodeId, l: Leader, move: Move, s: State) returns (p: Seen)
    requires s0.now <= s.now && c in s.nodes && s.nodes[c] == Node(l, if move.Stay? then Idle else Deciding(move))
    ensures InLoop(k, s0, c, DoneAs(k, c, l, move, p), l, move, s, p)
  {
    p := Seen(true, s0.now, Nones(|k.cfg.voters|), s0.now);
  }

  /** Every run is a loop. From the decision on, whatever happens in the rest of the cluster, a
      candidate that is neither restarted nor interrupted is in the state that some run of its
      control loop leaves once it is idle again. */
  lemma RunIsALoop(k: Cluster, events: seq<Step>, c: NodeId, view: View, eligible: bool, higherReady: bool,
                   more: seq<Step>) returns (inputs: Inputs)
    requires k.cfg.Valid() && Enabled(k, Run(k, events), Decide(c, view, eligible, higherReady))
    requires forall i :: 0 <= i < |more| ==> Undisturbing(more[i], c)
    ensures var s := Run(k, events);
            var t := Run(k, events + [Decide(c, view, eligible, higherReady)] + more);
            && inputs.now == s.now && inputs.eligible == eligible && inputs.higherReady == higherReady
            && c in t.nodes
            && (t.nodes[c].phase.Idle? ==>
                  && |inputs.replies| == |k.cfg.voters|
                  && inputs.now <= inputs.started <= inputs.finished <= t.now
                  && t.nodes[c].leader == LoopFrom(k, s, c, view, inputs))
  {
    var s := Run(k, events);
    var (l, move) := Decision(k, s, c, view, eligible, higherReady);
    var decided := events + [Decide(c, view, eligible, higherReady)];
    assert decided[..|decided| - 1] == events;
    var p := InLoopRun(k, s, c, l, move, decided, more);
    DoneIsLoop(k, s, c, view, eligible, higherReady, p);
    inputs := InputsOf(s.now, eligible, higherReady, p);
  }
}
