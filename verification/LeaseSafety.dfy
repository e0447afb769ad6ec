/** What every run of the cluster keeps. */
module LeaseSafety {
  import opened Ballot
  import opened LeaseEngine
  import opened LeaseProtocol
  import opened Options

  // ------------------------------------------------------------ invariants

  /** Voter `v` has granted round `r`. */
  ghost predicate Granted(s: State, r: nat, v: NodeId) {
    r < |s.rounds| && Answered(r, v, true, s.rounds[r].term) in s.replies
  }

  ghost predicate Running(k: Cluster, s: State, r: nat)
    requires r < |s.rounds|
  {
    s.now < s.rounds[r].started + k.cfg.leaseMs
  }

  /** What a granting voter still remembers of the grant. */
  ghost predicate Remembers(k: Cluster, s: State, r: nat, v: NodeId)
    requires r < |s.rounds|
  {
    && v in s.ballots
    && s.ballots[v].term >= s.rounds[r].term
    && (s.ballots[v].term == s.rounds[r].term ==> s.ballots[v].votedFor == s.rounds[r].candidate)
    && (Running(k, s, r) ==>
          Bound(s.ballots[v], s.rounds[r].candidate, s.rounds[r].started + k.cfg.leaseMs))
  }

  /** Two rounds granted by one voter: one candidate per term, and a candidate whose lease
      is still running has overtaken every other. */
  ghost predicate Ordered(k: Cluster, s: State, r: nat, q: nat)
    requires r < |s.rounds| && q < |s.rounds|
  {
    s.rounds[r].candidate != s.rounds[q].candidate ==>
      && s.rounds[r].term != s.rounds[q].term
      && (Running(k, s, r) ==> s.rounds[q].term < s.rounds[r].term)
  }

  ghost predicate RoundOk(k: Cluster, s: State, rd: Round) {
    && rd.candidate in k.cfg.candidates
    && rd.started <= s.now
    && (rd.campaign ==> rd.term > 0)
  }

  ghost predicate VotesOk(k: Cluster, s: State) {
    && s.now >= 0
    && s.ballots.Keys == k.cfg.VoterSet()
    && (forall v :: v in s.ballots ==> Sound(k.cfg, s.ballots[v], s.now) && Positive(s.ballots[v]))
    && (forall r :: 0 <= r < |s.rounds| ==> RoundOk(k, s, s.rounds[r]))
    && (forall a :: a in s.replies && a.granted ==> a.round < |s.rounds| && a.term == s.rounds[a.round].term)
    && (forall r: nat, v :: Granted(s, r, v) ==> Remembers(k, s, r, v))
    && (forall r: nat, q: nat, v :: Granted(s, r, v) && Granted(s, q, v) ==> Ordered(k, s, r, q))
  }

  /** A win is the guard of its round, backed by a quorum that granted that round. */
  ghost predicate WinOk(k: Cluster, s: State, w: Win) {
    && w.round < |s.rounds|
    && w.guard == Guard(s.rounds[w.round].candidate, s.rounds[w.round].term,
                        s.rounds[w.round].started + k.cfg.leaseMs)
    && w.quorum <= k.cfg.VoterSet() && |w.quorum| >= k.cfg.Quorum()
    && (forall v :: v in w.quorum ==> Granted(s, w.round, v))
  }

  /** A candidate's later rounds never get, from a voter of an earlier win, a lower term. */
  ghost predicate LaterRoundsHigher(s: State, w: Win) {
    forall r: nat, v :: v in w.quorum && Granted(s, r, v) && r > w.round && s.rounds[r].candidate == w.guard.holder ==>
      s.rounds[r].term >= w.guard.term
  }

  ghost predicate Fenced(a: Guard, b: Guard) {
    a.term <= b.term && (a.holder != b.holder ==> a.term < b.term)
  }

  ghost predicate WinsOk(k: Cluster, s: State) {
    && (forall i :: 0 <= i < |s.wins| ==> WinOk(k, s, s.wins[i]) && LaterRoundsHigher(s, s.wins[i]))
    && (forall i, j :: 0 <= i < j < |s.wins| ==> Fenced(s.wins[i].guard, s.wins[j].guard))
  }

  ghost predicate CollectingOk(k: Cluster, s: State, c: NodeId, l: Leader, p: Phase)
    requires p.Collecting?
  {
    && p.round < |s.rounds| && p.next <= |k.cfg.voters|
    && s.rounds[p.round].candidate == c
    && (!p.move.Campaign? ==> s.rounds[p.round].term == l.term)
    && (forall r :: p.round < r < |s.rounds| ==> s.rounds[r].candidate != c)
    && p.granted <= k.cfg.VoterSet()
    && (forall v :: v in p.granted ==> Granted(s, p.round, v))
    && (forall i :: 0 <= i < |s.wins| && s.wins[i].guard.holder == c ==> s.wins[i].round < p.round)
  }

  /** A queried voter that backs a running lease of `c` cannot have named anyone else. */
  ghost predicate ResponseOk(s: State, c: NodeId, r: Response) {
    forall i :: 0 <= i < |s.wins| && s.wins[i].guard.holder == c && s.now < s.wins[i].guard.deadline
                && r.voter in s.wins[i].quorum ==>
      r.holder == "" || r.holder == c
  }

  ghost predicate QueryOk(k: Cluster, s: State, c: NodeId, p: Phase)
    requires p.Querying?
  {
    && p.next <= |k.cfg.voters|
    && DistinctVoters(p.responses)
    && (forall r :: r in p.responses ==> r.voter in k.cfg.voters[..p.next] && ResponseOk(s, c, r))
  }

  ghost predicate GuardOk(s: State, c: NodeId, l: Leader) {
    l.guard.Some? ==> l.guard.value.holder == c && exists i :: 0 <= i < |s.wins| && s.wins[i].guard == l.guard.value
  }

  ghost predicate NodeOk(k: Cluster, s: State, c: NodeId, n: Node) {
    && GuardOk(s, c, n.leader)
    && match n.phase
       case Idle => true
       case Querying(_, _) => QueryOk(k, s, c, n.phase)
       case Deciding(move) => !move.Stay? && (move.Campaign? ==> move.term > 0)
       case Collecting(_, _, _, _, _) => CollectingOk(k, s, c, n.leader, n.phase)
  }

  ghost predicate NodesOk(k: Cluster, s: State) {
    && s.nodes.Keys == k.cfg.candidates
    && (forall c :: c in s.nodes ==> NodeOk(k, s, c, s.nodes[c]))
  }

  ghost predicate Inv(k: Cluster, s: State) {
    VotesOk(k, s) && WinsOk(k, s) && NodesOk(k, s)
  }

  // ------------------------------------------------------------ the steps

  lemma InitOk(k: Cluster)
    requires k.cfg.Valid()
    ensures Inv(k, Init(k))
  {
  }

  lemma TickOk(k: Cluster, s: State, ms: nat)
    requires k.cfg.Valid() && Inv(k, s)
    ensures Inv(k, s.(now := s.now + ms))
  {
    var s' := s.(now := s.now + ms);
    assert forall r, v :: Granted(s', r, v) <==> Granted(s, r, v);
    forall c | c in s'.nodes ensures NodeOk(k, s', c, s'.nodes[c]) {
      assert NodeOk(k, s, c, s.nodes[c]);
    }
  }

  // -------------------------------- steps of one candidate

  lemma PutOk(k: Cluster, s: State, c: NodeId, n: Node)
    requires Inv(k, s) && c in s.nodes
    requires NodeOk(k, s, c, n)
    ensures Inv(k, Put(s, c, n))
  {
    PutOthers(k, s, c, n);
  }

  lemma PollOk(k: Cluster, s: State, c: NodeId, lost: bool)
    requires k.cfg.Valid() && Inv(k, s) && Enabled(k, s, Poll(c, lost))
    ensures Inv(k, Next(k, s, Poll(c, lost)))
  {
    var n := s.nodes[c];
    var p := n.phase;
    var v := k.cfg.voters[p.next];
    assert NodeOk(k, s, c, n);
    var n' := Polled(k, s, n, lost);
    var voters, voters' := k.cfg.voters[..p.next], k.cfg.voters[..p.next + 1];
    assert voters' == voters + [v];
    if !lost {
      var r := n'.phase.responses[|p.responses|];
      forall i | 0 <= i < |s.wins| && s.wins[i].guard.holder == c && s.now < s.wins[i].guard.deadline
                 && v in s.wins[i].quorum
        ensures r.holder == "" || r.holder == c
      {
        assert WinOk(k, s, s.wins[i]);
        assert Granted(s, s.wins[i].round, v);
        assert Remembers(k, s, s.wins[i].round, v);
      }
      assert ResponseOk(s, c, r);
    }
    PutOk(k, s, c, n');
  }

  lemma ChooseOk(k: Cluster, s: State, e: LeaseProtocol.Event)
    requires k.cfg.Valid() && Inv(k, s) && Enabled(k, s, e)
    requires e.StartQuery? || e.Decide? || e.GiveUp? || e.Abort?
    ensures Inv(k, Next(k, s, e))
  {
    var n := Next(k, s, e).nodes[e.c];
    ChosenNodeOk(k, s, e, n);
    PutOk(k, s, e.c, n);
  }

  lemma ChosenNodeOk(k: Cluster, s: State, e: LeaseProtocol.Event, n: Node)
    requires k.cfg.Valid() && NodesOk(k, s) && Enabled(k, s, e)
    requires e.StartQuery? || e.Decide? || e.GiveUp? || e.Abort?
    requires n == Next(k, s, e).nodes[e.c]
    ensures NodeOk(k, s, e.c, n)
  {
    assert NodeOk(k, s, e.c, s.nodes[e.c]);
  }

  lemma HearOk(k: Cluster, s: State, c: NodeId, a: Answered)
    requires k.cfg.Valid() && Inv(k, s) && Enabled(k, s, Hear(c, a))
    ensures Inv(k, Next(k, s, Hear(c, a)))
  {
    var n := s.nodes[c];
    assert NodeOk(k, s, c, n);
    if a.granted {
      assert Granted(s, a.round, a.voter);
    }
    PutOk(k, s, c, Heard(n, a, s.rounds[a.round].term));
  }

  lemma SentVotesOk(k: Cluster, s: State, sent: set<(nat, NodeId)>)
    requires VotesOk(k, s)
    ensures VotesOk(k, s.(sent := sent))
  {
    var s' := s.(sent := sent);
    assert forall r: nat, v :: Granted(s', r, v) <==> Granted(s, r, v);
    forall r: nat, v | Granted(s', r, v) ensures Remembers(k, s', r, v) {
      assert Remembers(k, s, r, v);
    }
    forall r: nat, q: nat, v | Granted(s', r, v) && Granted(s', q, v) ensures Ordered(k, s', r, q) {
      assert Ordered(k, s, r, q);
    }
  }

  lemma SentWinsOk(k: Cluster, s: State, sent: set<(nat, NodeId)>)
    requires WinsOk(k, s)
    ensures WinsOk(k, s.(sent := sent))
  {
    var s' := s.(sent := sent);
    assert forall r: nat, v :: Granted(s', r, v) <==> Granted(s, r, v);
    forall i | 0 <= i < |s'.wins| ensures WinOk(k, s', s'.wins[i]) && LaterRoundsHigher(s', s'.wins[i]) {
      assert WinOk(k, s, s.wins[i]) && LaterRoundsHigher(s, s.wins[i]);
    }
  }

  lemma SendOk(k: Cluster, s: State, c: NodeId)
    requires Inv(k, s) && Enabled(k, s, Send(c))
    ensures Inv(k, Next(k, s, Send(c)))
  {
    var s' := Next(k, s, Send(c));
    SentVotesOk(k, s, s'.sent);
    SentWinsOk(k, s, s'.sent);
    assert forall r: nat, v :: Granted(s', r, v) <==> Granted(s, r, v);
    forall d | d in s'.nodes ensures NodeOk(k, s', d, s'.nodes[d]) {
      assert NodeOk(k, s, d, s.nodes[d]);
    }
  }

  /** A fresh round has no grants yet: it disturbs neither votes nor wins. */
  lemma NewRoundOk(k: Cluster, s: State, rd: Round)
    requires k.cfg.Valid() && VotesOk(k, s) && WinsOk(k, s) && RoundOk(k, s, rd)
    ensures var s1 := s.(rounds := s.rounds + [rd]);
            && VotesOk(k, s1) && WinsOk(k, s1)
            && forall r: nat, v :: Granted(s1, r, v) <==> Granted(s, r, v)
  {
    var s1 := s.(rounds := s.rounds + [rd]);
    assert forall r: nat, v :: Granted(s1, r, v) <==> Granted(s, r, v);
    forall r: nat, v | Granted(s1, r, v) ensures Remembers(k, s1, r, v) {
      assert Remembers(k, s, r, v);
    }
    forall r: nat, q: nat, v | Granted(s1, r, v) && Granted(s1, q, v) ensures Ordered(k, s1, r, q) {
      assert Ordered(k, s, r, q);
    }
    forall i | 0 <= i < |s.wins| ensures WinOk(k, s1, s.wins[i]) && LaterRoundsHigher(s1, s.wins[i]) {
      assert WinOk(k, s, s.wins[i]) && LaterRoundsHigher(s, s.wins[i]);
    }
    assert forall i :: 0 <= i < |s.rounds| ==> s1.rounds[i] == s.rounds[i];
  }

  lemma NewRoundNodeOk(k: Cluster, s: State, rd: Round, d: NodeId, n: Node)
    requires NodeOk(k, s, d, n) && d != rd.candidate
    requires forall r: nat, v :: Granted(s.(rounds := s.rounds + [rd]), r, v) <==> Granted(s, r, v)
    ensures NodeOk(k, s.(rounds := s.rounds + [rd]), d, n)
  {
  }

  /** A round begins later than every win, so its number is larger than theirs. */
  lemma BeginOk(k: Cluster, s: State, c: NodeId, eligible: bool)
    requires k.cfg.Valid() && Inv(k, s) && Enabled(k, s, Begin(c, eligible))
    ensures Inv(k, Next(k, s, Begin(c, eligible)))
  {
    var n := s.nodes[c];
    assert NodeOk(k, s, c, n);
    var move := n.phase.move;
    if move.Campaign? || eligible {
      var rd := Round(c, move.Campaign?, if move.Campaign? then move.term else n.leader.term, s.now);
      var s1 := s.(rounds := s.rounds + [rd]);
      NewRoundOk(k, s, rd);
      var n' := n.(phase := Collecting(move, |s.rounds|, 0, {}, rd.term));
      assert NodeOk(k, s1, c, n') by {
        assert GuardOk(s1, c, n.leader);
        assert CollectingOk(k, s1, c, n.leader, n'.phase) by {
          assert forall i :: 0 <= i < |s.wins| ==> WinOk(k, s, s.wins[i]);
        }
      }
      forall d | d in s.nodes && d != c ensures NodeOk(k, s1, d, s.nodes[d]) {
        assert NodeOk(k, s, d, s.nodes[d]);
        NewRoundNodeOk(k, s, rd, d, s.nodes[d]);
      }
      PutOthers(k, s1, c, n');
    } else {
      PutOk(k, s, c, Node(Demoted(n.leader), Idle));
    }
  }

  /** Replacing the node of `c`, when every other node is in order. */
  lemma PutOthers(k: Cluster, s: State, c: NodeId, n: Node)
    requires VotesOk(k, s) && WinsOk(k, s) && s.nodes.Keys == k.cfg.candidates && c in s.nodes
    requires NodeOk(k, s, c, n)
    requires forall d :: d in s.nodes && d != c ==> NodeOk(k, s, d, s.nodes[d])
    ensures Inv(k, Put(s, c, n))
  {
    var s' := Put(s, c, n);
    assert forall r: nat, v :: Granted(s', r, v) <==> Granted(s, r, v);
    VotesIgnoreNodes(k, s, s');
    forall d | d in s'.nodes ensures NodeOk(k, s', d, s'.nodes[d]) {
      assert NodeOk(k, s, d, s'.nodes[d]);
    }
  }

  lemma VotesIgnoreNodes(k: Cluster, s: State, s': State)
    requires s' == s.(nodes := s'.nodes, wins := s'.wins)
    requires VotesOk(k, s)
    ensures VotesOk(k, s')
    ensures s'.wins == s.wins && WinsOk(k, s) ==> WinsOk(k, s')
  {
    assert forall r: nat, v :: Granted(s', r, v) <==> Granted(s, r, v);
    forall r: nat, v | Granted(s', r, v) ensures Remembers(k, s', r, v) {
      assert Remembers(k, s, r, v);
    }
    forall r: nat, q: nat, v | Granted(s', r, v) && Granted(s', q, v) ensures Ordered(k, s', r, q) {
      assert Ordered(k, s, r, q);
    }
  }

  // -------------------------------- steps of one voter

  lemma HandleKeepsVote(cfg: Config, b: Ballot, now: int, source: NodeId, req: Request)
    ensures var b' := Handle(cfg, true, b, now, source, "peer", req).0;
            b'.term >= b.term && (b'.term == b.term && b.votedFor != "" ==> b'.votedFor == b.votedFor)
  {
  }

  /** A grant names its own round, binds the voter to it for a full lease, and is never given
      while the voter is bound to someone else. */
  lemma GrantBinds(k: Cluster, b: Ballot, now: int, rd: Round)
    requires k.cfg.Valid() && Sound(k.cfg, b, now)
    requires rd.candidate != "" && (rd.campaign ==> rd.term > 0)
    ensures var (b', out) := Handle(k.cfg, true, b, now, rd.candidate, "peer", RequestOf(k, rd));
            out.Answer? && out.reply.Granted? ==>
              && out.reply.term == rd.term == b'.term
              && b'.votedFor == rd.candidate
              && Bound(b', rd.candidate, now + k.cfg.leaseMs)
              && (b.term == rd.term && b.votedFor != "" ==> b.votedFor == rd.candidate)
              && (forall c, d :: Bound(b, c, d) && c != "" && now < d ==> c == rd.candidate)
  {
  }

  lemma DeliverKeepsGrants(k: Cluster, s: State, r: nat, v: NodeId, q: nat)
    requires k.cfg.Valid() && VotesOk(k, s) && Enabled(k, s, Deliver(r, v))
    requires q < |s.rounds| && Granted(s, q, v)
    ensures Remembers(k, Delivered(k, s, r, v), q, v)
  {
    var b := s.ballots[v];
    var rd, qd := s.rounds[r], s.rounds[q];
    assert RoundOk(k, s, rd) && RoundOk(k, s, qd) && Remembers(k, s, q, v);
    HandleKeepsVote(k.cfg, b, s.now, rd.candidate, RequestOf(k, rd));
    if Running(k, s, q) {
      HandleKeepsBoundIff(k.cfg, b, s.now, rd.candidate, "peer", RequestOf(k, rd),
                          qd.candidate, qd.started + k.cfg.leaseMs);
    }
  }

  /** The only new grant a delivery can produce is that of the delivered round. */
  lemma DeliverGrants(k: Cluster, s: State, r: nat, v: NodeId)
    requires k.cfg.Valid() && VotesOk(k, s) && Enabled(k, s, Deliver(r, v))
    ensures var s' := Delivered(k, s, r, v);
            forall q: nat, w :: Granted(s', q, w) ==>
              Granted(s, q, w) || (q == r && w == v && NewGrant(k, s, r, v))
  {
    var rd := s.rounds[r];
    assert RoundOk(k, s, rd);
    GrantBinds(k, s.ballots[v], s.now, rd);
  }

  ghost predicate NewGrant(k: Cluster, s: State, r: nat, v: NodeId)
    requires r < |s.rounds| && v in s.ballots
  {
    var out := Handle(k.cfg, true, s.ballots[v], s.now, s.rounds[r].candidate, "peer", RequestOf(k, s.rounds[r])).1;
    out.Answer? && out.reply.Granted?
  }

  lemma NewGrantOrdered(k: Cluster, s: State, r: nat, v: NodeId, q: nat)
    requires k.cfg.Valid() && VotesOk(k, s) && Enabled(k, s, Deliver(r, v)) && NewGrant(k, s, r, v)
    requires Granted(s, q, v)
    ensures Ordered(k, s, r, q) && Ordered(k, s, q, r)
    ensures s.rounds[q].term <= s.rounds[r].term
  {
    var rd, qd := s.rounds[r], s.rounds[q];
    assert RoundOk(k, s, rd) && RoundOk(k, s, qd) && Remembers(k, s, q, v);
    GrantBinds(k, s.ballots[v], s.now, rd);
    HandleKeepsVote(k.cfg, s.ballots[v], s.now, rd.candidate, RequestOf(k, rd));
  }

  lemma DeliverRemembers(k: Cluster, s: State, r: nat, v: NodeId, q: nat, w: NodeId)
    requires k.cfg.Valid() && VotesOk(k, s) && Enabled(k, s, Deliver(r, v)) && Granted(Delivered(k, s, r, v), q, w)
    ensures Remembers(k, Delivered(k, s, r, v), q, w)
  {
    assert RoundOk(k, s, s.rounds[r]);
    GrantBinds(k, s.ballots[v], s.now, s.rounds[r]);
    DeliverGrants(k, s, r, v);
    if Granted(s, q, w) {
      assert Remembers(k, s, q, w);
      if w == v {
        DeliverKeepsGrants(k, s, r, v, q);
      }
    }
  }

  lemma DeliverVotesOk(k: Cluster, s: State, r: nat, v: NodeId)
    requires k.cfg.Valid() && VotesOk(k, s) && Enabled(k, s, Deliver(r, v))
    ensures VotesOk(k, Delivered(k, s, r, v))
  {
    var s' := Delivered(k, s, r, v);
    var rd := s.rounds[r];
    assert RoundOk(k, s, rd);
    HandleKeepsSound(k.cfg, true, s.ballots[v], s.now, rd.candidate, "peer", RequestOf(k, rd));
    GrantBinds(k, s.ballots[v], s.now, rd);
    DeliverGrants(k, s, r, v);
    forall q: nat, w | Granted(s', q, w) ensures Remembers(k, s', q, w) {
      DeliverRemembers(k, s, r, v, q, w);
    }
    forall p: nat, q: nat, w | Granted(s', p, w) && Granted(s', q, w) ensures Ordered(k, s', p, q) {
      assert Ordered(k, s, p, q) by {
        if !Granted(s, p, w) && Granted(s, q, w) {
          NewGrantOrdered(k, s, r, v, q);
        } else if Granted(s, p, w) && !Granted(s, q, w) {
          NewGrantOrdered(k, s, r, v, p);
        }
      }
    }
    forall i | 0 <= i < |s'.rounds| ensures RoundOk(k, s', s'.rounds[i]) {
      assert RoundOk(k, s, s.rounds[i]);
    }
  }

  lemma DeliverOk(k: Cluster, s: State, r: nat, v: NodeId)
    requires k.cfg.Valid() && Inv(k, s) && Enabled(k, s, Deliver(r, v))
    ensures Inv(k, Delivered(k, s, r, v))
  {
    var s' := Delivered(k, s, r, v);
    DeliverVotesOk(k, s, r, v);
    DeliverGrants(k, s, r, v);
    assert forall q: nat, w :: Granted(s, q, w) ==> Granted(s', q, w);
    forall i | 0 <= i < |s.wins| ensures WinOk(k, s', s.wins[i]) && LaterRoundsHigher(s', s.wins[i]) {
      var w := s.wins[i];
      assert WinOk(k, s, w) && LaterRoundsHigher(s, w);
      forall q: nat, x | x in w.quorum && Granted(s', q, x) && q > w.round && s.rounds[q].candidate == w.guard.holder
        ensures s.rounds[q].term >= w.guard.term
      {
        if !Granted(s, q, x) {
          NewGrantOrdered(k, s, r, v, w.round);
        }
      }
    }
    forall c | c in s'.nodes ensures NodeOk(k, s', c, s'.nodes[c]) {
      assert NodeOk(k, s, c, s.nodes[c]);
    }
  }

  lemma RestartVotesOk(k: Cluster, s: State, n: NodeId)
    requires k.cfg.Valid() && VotesOk(k, s) && n in s.ballots
    ensures VotesOk(k, s.(ballots := s.ballots[n := Restarted(k.cfg, true, s.ballots[n], s.now)]))
  {
    var s' := s.(ballots := s.ballots[n := Restarted(k.cfg, true, s.ballots[n], s.now)]);
    assert forall r: nat, v :: Granted(s', r, v) <==> Granted(s, r, v);
    forall r: nat, v | Granted(s', r, v) ensures Remembers(k, s', r, v) {
      assert Remembers(k, s, r, v) && RoundOk(k, s, s.rounds[r]);
      if v == n && Running(k, s, r) {
        RestartKeepsBoundIff(k.cfg, true, s.ballots[n], s.now, s.rounds[r].candidate,
                             s.rounds[r].started + k.cfg.leaseMs);
      }
    }
    forall r: nat, q: nat, v | Granted(s', r, v) && Granted(s', q, v) ensures Ordered(k, s', r, q) {
      assert Ordered(k, s, r, q);
    }
  }

  lemma RestartOk(k: Cluster, s: State, n: NodeId, reboot: bool)
    requires k.cfg.Valid() && Inv(k, s)
    ensures Inv(k, Rebooted(k, s, n, reboot))
  {
    var s1 := s;
    if n in s.ballots {
      s1 := s.(ballots := s.ballots[n := Restarted(k.cfg, true, s.ballots[n], s.now)]);
      RestartVotesOk(k, s, n);
      assert forall r: nat, v :: Granted(s1, r, v) <==> Granted(s, r, v);
      forall c | c in s1.nodes ensures NodeOk(k, s1, c, s1.nodes[c]) {
        assert NodeOk(k, s, c, s.nodes[c]);
      }
      assert Inv(k, s1);
    }
    if n in s.nodes {
      assert NodeOk(k, s1, n, s1.nodes[n]);
      PutOk(k, s1, n, Node(STANDBY.(guard := if reboot then None else s.nodes[n].leader.guard), Idle));
    }
  }

  // -------------------------------- winning a round

  /** Two quorums share a voter. */
  lemma WinsMeet(k: Cluster, a: set<NodeId>, b: set<NodeId>) returns (v: NodeId)
    requires k.cfg.Valid() && a <= k.cfg.VoterSet() && b <= k.cfg.VoterSet()
    requires |a| >= k.cfg.Quorum() && |b| >= k.cfg.Quorum()
    ensures v in a && v in b
  {
    VoterSetSize(k.cfg.voters);
    v := QuorumsMeet(k.cfg.VoterSet(), a, b);
  }

  /** The guard about to be written fences every guard written before it. */
  lemma NewWinFenced(k: Cluster, s: State, c: NodeId, i: nat)
    requires k.cfg.Valid() && Inv(k, s) && Enabled(k, s, Conclude(c)) && i < |s.wins|
    requires Wins(k.cfg, |s.nodes[c].phase.granted|, s.rounds[s.nodes[c].phase.round].started, s.now)
    ensures var rd := s.rounds[s.nodes[c].phase.round];
            Fenced(s.wins[i].guard, Guard(c, rd.term, rd.started + k.cfg.leaseMs))
  {
    var p, w := s.nodes[c].phase, s.wins[i];
    assert NodeOk(k, s, c, s.nodes[c]) && WinOk(k, s, w) && LaterRoundsHigher(s, w);
    var v := WinsMeet(k, w.quorum, p.granted);
    assert Granted(s, w.round, v) && Granted(s, p.round, v);
    assert Ordered(k, s, p.round, w.round);
  }

  lemma WinIgnoresWins(k: Cluster, s: State, s1: State, w: Win)
    requires s1 == s.(wins := s1.wins) && WinOk(k, s, w)
    ensures WinOk(k, s1, w) && (LaterRoundsHigher(s, w) ==> LaterRoundsHigher(s1, w))
  {
    assert forall r: nat, v :: Granted(s1, r, v) <==> Granted(s, r, v);
  }

  ghost function WinOf(k: Cluster, s: State, p: Phase): Win
    requires p.Collecting? && p.round < |s.rounds|
  {
    var rd := s.rounds[p.round];
    Win(Guard(rd.candidate, rd.term, rd.started + k.cfg.leaseMs), p.round, p.granted)
  }

  lemma QuorumIsWin(k: Cluster, s: State, c: NodeId, l: Leader, p: Phase)
    requires VotesOk(k, s) && p.Collecting? && CollectingOk(k, s, c, l, p)
    requires |p.granted| >= k.cfg.Quorum()
    ensures WinOk(k, s, WinOf(k, s, p)) && LaterRoundsHigher(s, WinOf(k, s, p))
    ensures WinOf(k, s, p).guard.holder == c
  {
  }

  lemma AddWin(k: Cluster, s: State, w: Win)
    requires VotesOk(k, s) && WinsOk(k, s) && WinOk(k, s, w) && LaterRoundsHigher(s, w)
    requires forall i :: 0 <= i < |s.wins| ==> Fenced(s.wins[i].guard, w.guard)
    ensures VotesOk(k, s.(wins := s.wins + [w])) && WinsOk(k, s.(wins := s.wins + [w]))
  {
    var s1 := s.(wins := s.wins + [w]);
    VotesIgnoreNodes(k, s, s1);
    forall i | 0 <= i < |s1.wins| ensures WinOk(k, s1, s1.wins[i]) && LaterRoundsHigher(s1, s1.wins[i]) {
      assert s1.wins[i] == if i < |s.wins| then s.wins[i] else w;
      WinIgnoresWins(k, s, s1, s1.wins[i]);
    }
  }

  lemma NewWinOk(k: Cluster, s: State, c: NodeId)
    requires k.cfg.Valid() && Inv(k, s) && Enabled(k, s, Conclude(c))
    requires Wins(k.cfg, |s.nodes[c].phase.granted|, s.rounds[s.nodes[c].phase.round].started, s.now)
    ensures var w := WinOf(k, s, s.nodes[c].phase);
            && w.guard.holder == c
            && VotesOk(k, s.(wins := s.wins + [w])) && WinsOk(k, s.(wins := s.wins + [w]))
  {
    assert NodeOk(k, s, c, s.nodes[c]);
    QuorumIsWin(k, s, c, s.nodes[c].leader, s.nodes[c].phase);
    forall i | 0 <= i < |s.wins| ensures Fenced(s.wins[i].guard, WinOf(k, s, s.nodes[c].phase).guard) {
      NewWinFenced(k, s, c, i);
    }
    AddWin(k, s, WinOf(k, s, s.nodes[c].phase));
  }

  /** Another candidate's win concerns none of the bookkeeping of `d`. */
  lemma ForeignWinNodeOk(k: Cluster, s: State, w: Win, d: NodeId, n: Node)
    requires NodeOk(k, s, d, n) && w.guard.holder != d
    ensures NodeOk(k, s.(wins := s.wins + [w]), d, n)
  {
    var s1 := s.(wins := s.wins + [w]);
    assert forall r: nat, v :: Granted(s1, r, v) <==> Granted(s, r, v);
    assert forall i :: 0 <= i < |s.wins| ==> s1.wins[i] == s.wins[i];
  }

  /** The winner's own node after the win: its guard is the one just won. */
  lemma WinnerOk(k: Cluster, s: State, c: NodeId)
    requires Inv(k, s) && Enabled(k, s, Conclude(c))
    requires Wins(k.cfg, |s.nodes[c].phase.granted|, s.rounds[s.nodes[c].phase.round].started, s.now)
    ensures var w := WinOf(k, s, s.nodes[c].phase);
            && w.guard.holder == c
            && Concluded(k, s, c) == Put(s.(wins := s.wins + [w]), c, Concluded(k, s, c).nodes[c])
            && NodeOk(k, s.(wins := s.wins + [w]), c, Concluded(k, s, c).nodes[c])
  {
    var w := WinOf(k, s, s.nodes[c].phase);
    var s1 := s.(wins := s.wins + [w]);
    assert NodeOk(k, s, c, s.nodes[c]);
    assert s1.wins[|s.wins|].guard == w.guard;
    assert forall i :: 0 <= i < |s.wins| ==> s1.wins[i] == s.wins[i];
  }

  lemma ConcludeOk(k: Cluster, s: State, c: NodeId)
    requires k.cfg.Valid() && Inv(k, s) && Enabled(k, s, Conclude(c))
    ensures Inv(k, Concluded(k, s, c))
  {
    var p := s.nodes[c].phase;
    var s' := Concluded(k, s, c);
    assert NodeOk(k, s, c, s.nodes[c]);
    if Wins(k.cfg, |p.granted|, s.rounds[p.round].started, s.now) {
      var s1 := s.(wins := s.wins + [WinOf(k, s, p)]);
      NewWinOk(k, s, c);
      WinnerOk(k, s, c);
      forall d | d in s.nodes && d != c ensures NodeOk(k, s1, d, s.nodes[d]) {
        assert NodeOk(k, s, d, s.nodes[d]);
        ForeignWinNodeOk(k, s, WinOf(k, s, p), d, s.nodes[d]);
      }
      PutOthers(k, s1, c, s'.nodes[c]);
    } else {
      assert s.wins + [] == s.wins;
      PutOk(k, s, c, s'.nodes[c]);
    }
  }

  lemma StepOk(k: Cluster, s: State, e: LeaseProtocol.Event, s': State)
    requires k.cfg.Valid() && Inv(k, s) && Enabled(k, s, e) && s' == Next(k, s, e)
    ensures Inv(k, s')
  {
    match e
    case Tick(ms) => TickOk(k, s, ms);
    case Deliver(r, v) => DeliverOk(k, s, r, v);
    case Restart(n, reboot) => RestartOk(k, s, n, reboot);
    case _ => CandidateStepOk(k, s, e, s');
  }

  lemma CandidateStepOk(k: Cluster, s: State, e: LeaseProtocol.Event, s': State)
    requires k.cfg.Valid() && Inv(k, s) && Enabled(k, s, e) && s' == Next(k, s, e)
    requires !e.Tick? && !e.Deliver? && !e.Restart?
    ensures Inv(k, s')
  {
    match e
    case Poll(c, lost) => PollOk(k, s, c, lost);
    case Begin(c, eligible) => BeginOk(k, s, c, eligible);
    case Send(c) => SendOk(k, s, c);
    case Hear(c, a) => HearOk(k, s, c, a);
    case Conclude(c) => ConcludeOk(k, s, c);
    case _ => ChooseOk(k, s, e);
  }

  lemma {:induction false} RunOk(k: Cluster, events: seq<LeaseProtocol.Event>)
    requires k.cfg.Valid()
    ensures Inv(k, Run(k, events))
  {
    if events == [] {
      InitOk(k);
    } else {
      var s := Run(k, events[..|events| - 1]);
      RunOk(k, events[..|events| - 1]);
      if Enabled(k, s, events[|events| - 1]) {
        StepOk(k, s, events[|events| - 1], Next(k, s, events[|events| - 1]));
      }
    }
  }

  // ------------------------------------------------------------ theorems over every run

  /** While a win's deadline is ahead, a quorum of voters is bound to its holder that long. */
  lemma RunningWinIsBacked(k: Cluster, events: seq<LeaseProtocol.Event>, i: nat)
    requires k.cfg.Valid() && i < |Run(k, events).wins|
    requires Run(k, events).now < Run(k, events).wins[i].guard.deadline
    ensures var s := Run(k, events);
            var g := s.wins[i].guard;
            exists q: set<NodeId> :: q <= k.cfg.VoterSet() && |q| >= k.cfg.Quorum()
              && forall v :: v in q ==> v in s.ballots && Bound(s.ballots[v], g.holder, g.deadline)
  {
    RunOk(k, events);
    var s := Run(k, events);
    var w := s.wins[i];
    assert WinOk(k, s, w);
    forall v | v in w.quorum ensures v in s.ballots && Bound(s.ballots[v], w.guard.holder, w.guard.deadline) {
      assert Granted(s, w.round, v) && Remembers(k, s, w.round, v);
    }
  }

  lemma BackedWinsAgree(k: Cluster, s: State, i: nat, j: nat)
    requires k.cfg.Valid() && Inv(k, s) && i < |s.wins| && j < |s.wins|
    requires s.now < s.wins[i].guard.deadline && s.now < s.wins[j].guard.deadline
    ensures s.wins[i].guard.holder == s.wins[j].guard.holder
  {
    var a, b := s.wins[i], s.wins[j];
    assert WinOk(k, s, a) && WinOk(k, s, b);
    var v := WinsMeet(k, a.quorum, b.quorum);
    assert Granted(s, a.round, v) && Granted(s, b.round, v);
    assert Remembers(k, s, a.round, v) && Remembers(k, s, b.round, v);
  }

  /** Lease exclusivity. At every moment of every run, all `set_primary` calls whose lease is
      still running were made by one candidate. */
  lemma LeaseExclusivity(k: Cluster, events: seq<LeaseProtocol.Event>, i: nat, j: nat)
    requires k.cfg.Valid() && i < |Run(k, events).wins| && j < |Run(k, events).wins|
    requires Run(k, events).now < Run(k, events).wins[i].guard.deadline
    requires Run(k, events).now < Run(k, events).wins[j].guard.deadline
    ensures Run(k, events).wins[i].guard.holder == Run(k, events).wins[j].guard.holder
  {
    RunOk(k, events);
    BackedWinsAgree(k, Run(k, events), i, j);
  }

  /** The candidate's guard file lets its primary services run. */
  predicate Holds(s: State, c: NodeId) {
    c in s.nodes && s.nodes[c].leader.guard.Some? && s.now < s.nodes[c].leader.guard.value.deadline
  }

  /** An unexpired guard names its owner and was written by a won round. */
  lemma GuardNamesItsOwner(k: Cluster, events: seq<LeaseProtocol.Event>, c: NodeId) returns (i: nat)
    requires k.cfg.Valid() && Holds(Run(k, events), c)
    ensures var s := Run(k, events);
            i < |s.wins| && s.wins[i].guard == s.nodes[c].leader.guard.value && s.wins[i].guard.holder == c
  {
    RunOk(k, events);
    var s := Run(k, events);
    assert NodeOk(k, s, c, s.nodes[c]);
    i :| 0 <= i < |s.wins| && s.wins[i].guard == s.nodes[c].leader.guard.value;
  }

  /** Lease exclusivity on guard files: at most one candidate has an unexpired one. */
  lemma GuardExclusivity(k: Cluster, events: seq<LeaseProtocol.Event>, c: NodeId, d: NodeId)
    requires k.cfg.Valid() && Holds(Run(k, events), c) && Holds(Run(k, events), d)
    ensures c == d
  {
    var i := GuardNamesItsOwner(k, events, c);
    var j := GuardNamesItsOwner(k, events, d);
    RunOk(k, events);
    BackedWinsAgree(k, Run(k, events), i, j);
  }

  /** The term fences: in the order in which leases are won, terms never go down, and they go
      up whenever the holder changes. */
  lemma TermIsAFencingToken(k: Cluster, events: seq<LeaseProtocol.Event>, i: nat, j: nat)
    requires k.cfg.Valid() && i < j < |Run(k, events).wins|
    ensures var a, b := Run(k, events).wins[i].guard, Run(k, events).wins[j].guard;
            a.term <= b.term && (a.holder != b.holder ==> a.term < b.term)
  {
    RunOk(k, events);
    assert Fenced(Run(k, events).wins[i].guard, Run(k, events).wins[j].guard);
  }

  /** `v` has ever granted a campaign or renewal of `c` in term `t`. */
  ghost predicate Backs(s: State, v: NodeId, c: NodeId, t: int) {
    exists r: nat :: Granted(s, r, v) && s.rounds[r].candidate == c && s.rounds[r].term == t
  }

  /** Election safety: in one term at most one candidate is ever granted by a quorum. */
  lemma ElectionSafety(k: Cluster, events: seq<LeaseProtocol.Event>, t: int, c: NodeId, d: NodeId,
                       q: set<NodeId>, p: set<NodeId>)
    requires k.cfg.Valid() && q <= k.cfg.VoterSet() && p <= k.cfg.VoterSet()
    requires |q| >= k.cfg.Quorum() && |p| >= k.cfg.Quorum()
    requires forall v :: v in q ==> Backs(Run(k, events), v, c, t)
    requires forall v :: v in p ==> Backs(Run(k, events), v, d, t)
    ensures c == d
  {
    RunOk(k, events);
    var s := Run(k, events);
    var v := WinsMeet(k, q, p);
    var i: nat :| Granted(s, i, v) && s.rounds[i].candidate == c && s.rounds[i].term == t;
    var j: nat :| Granted(s, j, v) && s.rounds[j].candidate == d && s.rounds[j].term == t;
    assert Ordered(k, s, i, j);
  }

  /** While a lease of `c` runs, a view gathered by `c` names nobody but `c`. */
  lemma RunningLeaseIsSeen(k: Cluster, s: State, c: NodeId, view: View, i: nat)
    requires k.cfg.Valid() && Inv(k, s) && c in s.nodes && s.nodes[c].phase.Querying?
    requires IsMajorityView(k.cfg.Quorum(), s.nodes[c].phase.responses, view) && view.holder != ""
    requires i < |s.wins| && s.wins[i].guard.holder == c && s.now < s.wins[i].guard.deadline
    ensures view.holder == c
  {
    var rs := s.nodes[c].phase.responses;
    assert NodeOk(k, s, c, s.nodes[c]) && WinOk(k, s, s.wins[i]);
    SupportIsSupporters(rs, view.term, view.holder);
    var v := WinsMeet(k, s.wins[i].quorum, Supporters(rs, view.term, view.holder));
    var r :| r in rs && r.voter == v && Supports(r, view.term, view.holder);
    assert ResponseOk(s, c, r);
  }

  /** A demotion because another node holds the majority never revokes a running lease: by then
      this candidate's own guards have all expired. */
  lemma MajorityDemotionIsLate(k: Cluster, events: seq<LeaseProtocol.Event>, c: NodeId, view: View)
    requires k.cfg.Valid()
    requires c in Run(k, events).nodes && Run(k, events).nodes[c].phase.Querying?
    requires IsMajorityView(k.cfg.Quorum(), Run(k, events).nodes[c].phase.responses, view)
    requires view.holder != "" && view.holder != c
    ensures !Holds(Run(k, events), c)
    ensures forall w :: w in Run(k, events).wins && w.guard.holder == c ==> w.guard.deadline <= Run(k, events).now
  {
    RunOk(k, events);
    var s := Run(k, events);
    assert NodeOk(k, s, c, s.nodes[c]);
    forall i | 0 <= i < |s.wins| && s.wins[i].guard.holder == c ensures s.wins[i].guard.deadline <= s.now {
      if s.now < s.wins[i].guard.deadline {
        RunningLeaseIsSeen(k, s, c, view, i);
      }
    }
  }
}
