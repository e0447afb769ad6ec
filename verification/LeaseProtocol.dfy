/** The cluster: voters, candidates, requests and replies in flight, restarts and one clock.
    A request may be delivered late, more than once or never; a reply may be lost. */
module LeaseProtocol {
  import opened Arithmetic
  import opened Ballot
  import opened LeaseEngine
  import opened Options

  datatype Cluster = Cluster(cfg: Config, armed: set<NodeId>)

  /** One campaign or renewal, anchored at the moment it starts. */
  datatype Round = Round(candidate: NodeId, campaign: bool, term: int, started: int)

  /** A voter's answer to a lease request of one round. */
  datatype Answered = Answered(round: nat, voter: NodeId, granted: bool, term: int)

  datatype Phase =
    | Idle
    | Querying(responses: seq<Response>, next: nat)
    | Deciding(move: Move)
    | Collecting(move: Move, round: nat, next: nat, granted: set<NodeId>, highest: int)

  datatype Node = Node(leader: Leader, phase: Phase)

  /** A won round: the guard it wrote (`set_primary` was called with it) and, as
      bookkeeping, the voters whose grants were counted. */
  datatype Win = Win(guard: Guard, round: nat, quorum: set<NodeId>)

  datatype State = State(
    now: int,
    ballots: map<NodeId, Ballot>,
    nodes: map<NodeId, Node>,
    rounds: seq<Round>,
    sent: set<(nat, NodeId)>,
    replies: set<Answered>,
    wins: seq<Win>)

  datatype Event =
    | Tick(ms: nat)
    | Deliver(round: nat, voter: NodeId)
    | Restart(node: NodeId, reboot: bool)
    | StartQuery(c: NodeId)
    | Poll(c: NodeId, lost: bool)
    | Decide(c: NodeId, view: View, eligible: bool, higherReady: bool)
    | Begin(c: NodeId, eligible: bool)
    | Send(c: NodeId)
    | Hear(c: NodeId, reply: Answered)
    | GiveUp(c: NodeId)
    | Conclude(c: NodeId)
    | Abort(c: NodeId)

  function Init(k: Cluster): State {
    State(0, map v | v in k.cfg.VoterSet() :: BLANK, map c | c in k.cfg.candidates :: Node(STANDBY, Idle),
          [], {}, {}, [])
  }

  /** The request that round `r` sends to every voter. */
  function RequestOf(k: Cluster, r: Round): Request {
    if r.campaign then Vote(k.cfg.clusterId, r.candidate, r.term, k.cfg.leaseMs)
    else Renewal(k.cfg.clusterId, r.candidate, r.term, k.cfg.leaseMs)
  }

  ghost predicate Enabled(k: Cluster, s: State, e: Event) {
    match e
    case Tick(_) => true
    case Deliver(r, v) => (r, v) in s.sent && r < |s.rounds| && v in s.ballots
    case Restart(_, _) => true
    case StartQuery(c) => c in s.nodes && s.nodes[c].phase.Idle?
    case Poll(c, _) =>
      && c in s.nodes && s.nodes[c].phase.Querying? && s.nodes[c].phase.next < |k.cfg.voters|
      && k.cfg.voters[s.nodes[c].phase.next] in s.ballots
    case Decide(c, view, _, _) =>
      && c in s.nodes && s.nodes[c].phase.Querying? && s.nodes[c].phase.next == |k.cfg.voters|
      && IsMajorityView(k.cfg.Quorum(), s.nodes[c].phase.responses, view)
    case Begin(c, _) => c in s.nodes && s.nodes[c].phase.Deciding?
    case Send(c) => c in s.nodes && s.nodes[c].phase.Collecting? && s.nodes[c].phase.next < |k.cfg.voters|
    case Hear(c, a) =>
      && c in s.nodes && s.nodes[c].phase.Collecting? && s.nodes[c].phase.next < |k.cfg.voters|
      && a in s.replies && a.round == s.nodes[c].phase.round < |s.rounds|
      && a.voter == k.cfg.voters[s.nodes[c].phase.next]
    case GiveUp(c) => c in s.nodes && s.nodes[c].phase.Collecting? && s.nodes[c].phase.next < |k.cfg.voters|
    case Conclude(c) =>
      && c in s.nodes && s.nodes[c].phase.Collecting? && s.nodes[c].phase.next == |k.cfg.voters|
      && s.nodes[c].phase.round < |s.rounds|
    case Abort(c) => c in s.nodes && !s.nodes[c].phase.Idle?
  }

  function Put(s: State, c: NodeId, n: Node): State {
    s.(nodes := s.nodes[c := n])
  }

  function Delivered(k: Cluster, s: State, r: nat, v: NodeId): State
    requires r < |s.rounds| && v in s.ballots
  {
    var rd := s.rounds[r];
    var (b, out) := Handle(k.cfg, true, s.ballots[v], s.now, rd.candidate, "peer", RequestOf(k, rd));
    var heard := if out.Answer? then {Answered(r, v, out.reply.Granted?, out.reply.term)} else {};
    s.(ballots := s.ballots[v := b], replies := s.replies + heard)
  }

  function Rebooted(k: Cluster, s: State, n: NodeId, reboot: bool): State {
    var s1 := if n in s.ballots
              then s.(ballots := s.ballots[n := Restarted(k.cfg, true, s.ballots[n], s.now)]) else s;
    if n in s.nodes
    then Put(s1, n, Node(STANDBY.(guard := if reboot then None else s.nodes[n].leader.guard), Idle))
    else s1
  }

  function Polled(k: Cluster, s: State, n: Node, lost: bool): Node
    requires n.phase.Querying? && n.phase.next < |k.cfg.voters| && k.cfg.voters[n.phase.next] in s.ballots
  {
    var v := k.cfg.voters[n.phase.next];
    var report := StatusOf(s.ballots[v], s.now);
    var more := if lost then [] else [Response(v, report.term, report.holder, report.remaining)];
    n.(phase := Querying(n.phase.responses + more, n.phase.next + 1))
  }

  function Begun(s: State, c: NodeId, eligible: bool): State
    requires c in s.nodes && s.nodes[c].phase.Deciding?
  {
    var n := s.nodes[c];
    var move := n.phase.move;
    if move.Campaign? || eligible then
      var term := if move.Campaign? then move.term else n.leader.term;
      Put(s.(rounds := s.rounds + [Round(c, move.Campaign?, term, s.now)]), c,
          n.(phase := Collecting(move, |s.rounds|, 0, {}, term)))
    else
      Put(s, c, Node(Demoted(n.leader), Idle))
  }

  function Heard(n: Node, a: Answered, term: int): Node
    requires n.phase.Collecting?
  {
    var p := n.phase;
    n.(phase := p.(next := p.next + 1,
                   highest := Max(p.highest, a.term),
                   granted := if a.granted && a.term == term then p.granted + {a.voter} else p.granted))
  }

  function Concluded(k: Cluster, s: State, c: NodeId): State
    requires c in s.nodes && s.nodes[c].phase.Collecting? && s.nodes[c].phase.round < |s.rounds|
  {
    var n := s.nodes[c];
    var p := n.phase;
    var rd := s.rounds[p.round];
    var l := if p.move.Campaign?
             then AfterCampaign(k.cfg, c, c in k.armed, n.leader, rd.term, |p.granted|, p.highest, rd.started, s.now)
             else AfterRenew(k.cfg, c, c in k.armed, n.leader, |p.granted|, rd.started, s.now);
    var won := if Wins(k.cfg, |p.granted|, rd.started, s.now)
               then [Win(Guard(c, rd.term, rd.started + k.cfg.leaseMs), p.round, p.granted)] else [];
    Put(s.(wins := s.wins + won), c, Node(Settled(l, p.move, s.now), Idle))
  }

  function Next(k: Cluster, s: State, e: Event): State
    requires Enabled(k, s, e)
  {
    match e
    case Tick(ms) => s.(now := s.now + ms)
    case Deliver(r, v) => Delivered(k, s, r, v)
    case Restart(n, reboot) => Rebooted(k, s, n, reboot)
    case StartQuery(c) => Put(s, c, s.nodes[c].(phase := Querying([], 0)))
    case Poll(c, lost) => Put(s, c, Polled(k, s, s.nodes[c], lost))
    case Decide(c, view, eligible, higherReady) =>
      var n := s.nodes[c];
      var (l, move) := Choose(k.cfg, c, true, n.leader, view, |n.phase.responses|, s.now, eligible, higherReady);
      Put(s, c, Node(l, if move.Stay? then Idle else Deciding(move)))
    case Begin(c, eligible) => Begun(s, c, eligible)
    case Send(c) =>
      s.(sent := s.sent + {(s.nodes[c].phase.round, k.cfg.voters[s.nodes[c].phase.next])})
    case Hear(c, a) => Put(s, c, Heard(s.nodes[c], a, s.rounds[a.round].term))
    case GiveUp(c) => Put(s, c, s.nodes[c].(phase := s.nodes[c].phase.(next := s.nodes[c].phase.next + 1)))
    case Conclude(c) => Concluded(k, s, c)
    case Abort(c) =>
      var l := s.nodes[c].leader;
      Put(s, c, Node(Interrupted(l, s.now), Idle))
  }

  /** Every run of the cluster: an event that cannot happen in the current state is skipped. */
  ghost function Run(k: Cluster, events: seq<Event>): State {
    if events == [] then Init(k)
    else
      var s := Run(k, events[..|events| - 1]);
      var e := events[|events| - 1];
      if Enabled(k, s, e) then Next(k, s, e) else s
  }
}
