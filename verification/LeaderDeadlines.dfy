/** When the field `_leader_deadline` is exclusive. A won round confirms it; an adoption sets it
    before any voter has answered. */
module LeaderDeadlines {
  import opened Ballot
  import opened LeaseEngine
  import opened LeaseProtocol
  import opened LeaseSafety
  import opened LeaseRefinement
  import opened LeasePaths

  /** By its own field, the candidate still leads. */
  predicate Ahead(s: State, c: NodeId) {
    c in s.nodes && s.now < s.nodes[c].leader.deadline
  }

  /** At most one candidate leads by its own field. */
  ghost predicate ExclusiveFields(s: State) {
    forall c, d :: Ahead(s, c) && Ahead(s, d) ==> c == d
  }

  ghost predicate Adopts(k: Cluster, s: State, e: Step) {
    && e.Decide? && Enabled(k, s, e)
    && Decision(k, s, e.c, e.view, e.eligible, e.higherReady).1.Adopt?
  }

  ghost predicate WinsRound(k: Cluster, s: State, e: Step) {
    && e.Conclude? && Enabled(k, s, e)
    && Wins(k.cfg, |s.nodes[e.c].phase.granted|, s.rounds[s.nodes[e.c].phase.round].started, s.now)
  }

  /** Who has adopted since it last won a round: its deadline, if any, no voter has confirmed. */
  ghost function Unconfirmed(k: Cluster, events: seq<Step>): set<NodeId> {
    if events == [] then {}
    else
      var front, e := events[..|events| - 1], events[|events| - 1];
      UnconfirmedAfter(k, Run(k, front), Unconfirmed(k, front), e)
  }

  ghost function UnconfirmedAfter(k: Cluster, s: State, u: set<NodeId>, e: Step): set<NodeId> {
    if Adopts(k, s, e) then u + {e.c} else if WinsRound(k, s, e) then u - {e.c} else u
  }

  // ------------------------------------------------------------ confirmed deadlines

  /** The candidate's deadline is that of a round it won. */
  ghost predicate Confirmed(s: State, c: NodeId) {
    exists i :: 0 <= i < |s.wins| && Confirms(s, c, s.wins[i])
  }

  predicate Confirms(s: State, c: NodeId, w: Win) {
    c in s.nodes && w.guard.holder == c && w.guard.deadline == s.nodes[c].leader.deadline
  }

  ghost predicate AllConfirmed(s: State, u: set<NodeId>) {
    forall c :: Ahead(s, c) && c !in u ==> Confirmed(s, c)
  }

  /** No other event sets a deadline: whoever is ahead afterwards was ahead before, by the same
      deadline. */
  lemma OthersSetNoDeadline(k: Cluster, s: State, e: Step, c: NodeId)
    requires k.cfg.Valid() && Enabled(k, s, e) && s.now >= 0 && Ahead(Next(k, s, e), c)
    requires (Adopts(k, s, e) || WinsRound(k, s, e)) ==> e.c != c
    ensures Ahead(s, c) && Next(k, s, e).nodes[c].leader.deadline == s.nodes[c].leader.deadline
  {
  }

  lemma WinsGrow(k: Cluster, s: State, e: Step)
    requires Enabled(k, s, e)
    ensures s.wins <= Next(k, s, e).wins
  {
  }

  lemma WonIsConfirmed(k: Cluster, s: State, e: Step)
    requires WinsRound(k, s, e)
    ensures Ahead(Next(k, s, e), e.c) && Confirmed(Next(k, s, e), e.c)
  {
    var t := Next(k, s, e);
    assert Confirms(t, e.c, t.wins[|s.wins|]);
  }

  lemma StepConfirms(k: Cluster, s: State, u: set<NodeId>, e: Step)
    requires k.cfg.Valid() && Enabled(k, s, e) && s.now >= 0 && AllConfirmed(s, u)
    ensures AllConfirmed(Next(k, s, e), UnconfirmedAfter(k, s, u, e))
  {
    var t := Next(k, s, e);
    forall c | Ahead(t, c) && c !in UnconfirmedAfter(k, s, u, e) ensures Confirmed(t, c) {
      if WinsRound(k, s, e) && e.c == c {
        WonIsConfirmed(k, s, e);
      } else {
        OthersSetNoDeadline(k, s, e, c);
        WinsGrow(k, s, e);
        var i :| 0 <= i < |s.wins| && Confirms(s, c, s.wins[i]);
        assert Confirms(t, c, t.wins[i]);
      }
    }
  }

  lemma RunKeepsTime(k: Cluster, events: seq<Step>)
    requires k.cfg.Valid()
    ensures Run(k, events).now >= 0
  {
    RunOk(k, events);
  }

  /** In every reachable state a deadline that is ahead, and was not adopted since the last win, is
      the deadline of a guard its candidate won. */
  lemma {:induction false} DeadlinesAreConfirmed(k: Cluster, events: seq<Step>)
    requires k.cfg.Valid()
    ensures AllConfirmed(Run(k, events), Unconfirmed(k, events))
  {
    if events != [] {
      var front, e := events[..|events| - 1], events[|events| - 1];
      DeadlinesAreConfirmed(k, front);
      RunKeepsTime(k, front);
      if Enabled(k, Run(k, front), e) {
        StepConfirms(k, Run(k, front), Unconfirmed(k, front), e);
      }
    }
  }

  lemma ConfirmedAgree(k: Cluster, s: State, c: NodeId, d: NodeId)
    requires k.cfg.Valid() && Inv(k, s) && Ahead(s, c) && Ahead(s, d) && Confirmed(s, c) && Confirmed(s, d)
    ensures c == d
  {
    var i :| 0 <= i < |s.wins| && Confirms(s, c, s.wins[i]);
    var j :| 0 <= j < |s.wins| && Confirms(s, d, s.wins[j]);
    BackedWinsAgree(k, s, i, j);
  }

  /** Two candidates lead by their own field only if one of them has adopted and not won since. */
  lemma TwoAheadMeansUnconfirmed(k: Cluster, events: seq<Step>, c: NodeId, d: NodeId)
    requires k.cfg.Valid() && Ahead(Run(k, events), c) && Ahead(Run(k, events), d) && c != d
    ensures c in Unconfirmed(k, events) || d in Unconfirmed(k, events)
  {
    DeadlinesAreConfirmed(k, events);
    RunOk(k, events);
    if c !in Unconfirmed(k, events) && d !in Unconfirmed(k, events) {
      ConfirmedAgree(k, Run(k, events), c, d);
    }
  }

  /** Without adoptions the field is exclusive in every reachable state. */
  lemma ExclusiveWithoutAdoption(k: Cluster, events: seq<Step>)
    requires k.cfg.Valid() && forall i :: 0 <= i < |events| ==> !Adopts(k, Run(k, events[..i]), events[i])
    ensures ExclusiveFields(Run(k, events))
  {
    NobodyUnconfirmed(k, events);
    forall c, d | Ahead(Run(k, events), c) && Ahead(Run(k, events), d) ensures c == d {
      if c != d {
        TwoAheadMeansUnconfirmed(k, events, c, d);
      }
    }
  }

  lemma {:induction false} NobodyUnconfirmed(k: Cluster, events: seq<Step>)
    requires forall i :: 0 <= i < |events| ==> !Adopts(k, Run(k, events[..i]), events[i])
    ensures Unconfirmed(k, events) == {}
  {
    if events != [] {
      var front := events[..|events| - 1];
      assert forall i :: 0 <= i < |front| ==> front[..i] == events[..i] && front[i] == events[i];
      NobodyUnconfirmed(k, front);
    }
  }

  // ------------------------------------------------------------ exactly when

  /** The events that break exclusivity: adopting while another candidate is ahead, or winning
      while another candidate is ahead by an unconfirmed adoption. */
  ghost predicate Breaks(k: Cluster, s: State, u: set<NodeId>, e: Step) {
    || (Adopts(k, s, e) && exists d :: d != e.c && Ahead(s, d))
    || (WinsRound(k, s, e) && exists d :: d != e.c && d in u && Ahead(s, d))
  }

  lemma SetsDeadline(k: Cluster, s: State, e: Step, d: NodeId)
    requires k.cfg.Valid() && (Adopts(k, s, e) || WinsRound(k, s, e)) && d != e.c && Ahead(s, d)
    ensures Ahead(Next(k, s, e), e.c) && Ahead(Next(k, s, e), d)
  {
  }

  /** Whoever is still ahead when another candidate wins a round has adopted and not won since. */
  lemma WinShowsUnconfirmed(k: Cluster, s: State, u: set<NodeId>, e: Step, d: NodeId)
    requires k.cfg.Valid() && Inv(k, s) && AllConfirmed(s, u) && WinsRound(k, s, e) && d != e.c && Ahead(s, d)
    ensures d in u
  {
    var t := Next(k, s, e);
    StepOk(k, s, e, t);
    StepConfirms(k, s, u, e);
    WonIsConfirmed(k, s, e);
    SetsDeadline(k, s, e, d);
    if d !in u {
      ConfirmedAgree(k, t, e.c, d);
    }
  }

  /** A harmless event that sets a deadline finds nobody else ahead. */
  lemma HarmlessIsAlone(k: Cluster, s: State, u: set<NodeId>, e: Step, d: NodeId)
    requires k.cfg.Valid() && Inv(k, s) && AllConfirmed(s, u) && !Breaks(k, s, u, e)
    requires (Adopts(k, s, e) || WinsRound(k, s, e)) && Ahead(s, d)
    ensures d == e.c
  {
    if d != e.c && WinsRound(k, s, e) {
      WinShowsUnconfirmed(k, s, u, e, d);
    }
  }

  /** From a state in which the field is exclusive, an event keeps it so if and only if it does not
      break it. */
  lemma StepExclusiveIff(k: Cluster, s: State, u: set<NodeId>, e: Step)
    requires k.cfg.Valid() && Inv(k, s) && Enabled(k, s, e) && AllConfirmed(s, u) && ExclusiveFields(s)
    ensures ExclusiveFields(Next(k, s, e)) <==> !Breaks(k, s, u, e)
  {
    if Breaks(k, s, u, e) {
      var d :| d != e.c && Ahead(s, d);
      SetsDeadline(k, s, e, d);
    } else {
      HarmlessKeepsExclusive(k, s, u, e);
    }
  }

  lemma HarmlessKeepsExclusive(k: Cluster, s: State, u: set<NodeId>, e: Step)
    requires k.cfg.Valid() && Inv(k, s) && Enabled(k, s, e) && AllConfirmed(s, u) && ExclusiveFields(s)
    requires !Breaks(k, s, u, e)
    ensures ExclusiveFields(Next(k, s, e))
  {
    var t := Next(k, s, e);
    var sets := Adopts(k, s, e) || WinsRound(k, s, e);
    forall c | Ahead(t, c) ensures Ahead(s, c) || (sets && c == e.c) {
      if !(sets && c == e.c) {
        OthersSetNoDeadline(k, s, e, c);
      }
    }
    if sets {
      forall c | Ahead(s, c) ensures c == e.c {
        HarmlessIsAlone(k, s, u, e, c);
      }
    }
  }

  /** The field is exclusive at every moment of the run. */
  ghost predicate ExclusiveThroughout(k: Cluster, events: seq<Step>) {
    forall i :: 0 <= i <= |events| ==> ExclusiveFields(Run(k, events[..i]))
  }

  ghost predicate NeverBreaks(k: Cluster, events: seq<Step>) {
    forall i :: 0 <= i < |events| ==> !BreaksAt(k, events, i)
  }

  ghost predicate BreaksAt(k: Cluster, events: seq<Step>, i: nat)
    requires i < |events|
  {
    Breaks(k, Run(k, events[..i]), Unconfirmed(k, events[..i]), events[i])
  }

  /** One more event after a run in which the field was exclusive. */
  lemma LastStepExclusiveIff(k: Cluster, events: seq<Step>, n: nat)
    requires k.cfg.Valid() && n < |events| && ExclusiveFields(Run(k, events[..n]))
    ensures ExclusiveFields(Run(k, events[..n + 1])) <==> !BreaksAt(k, events, n)
  {
    var front, more := events[..n], events[..n + 1];
    assert more[..|more| - 1] == front && more[|more| - 1] == events[n];
    RunOk(k, front);
    DeadlinesAreConfirmed(k, front);
    if Enabled(k, Run(k, front), events[n]) {
      StepExclusiveIff(k, Run(k, front), Unconfirmed(k, front), events[n]);
    }
  }

  lemma NobodyAheadAtFirst(k: Cluster)
    ensures ExclusiveFields(Init(k))
  {
  }

  lemma {:induction false} UnbrokenIsExclusive(k: Cluster, events: seq<Step>, n: nat)
    requires k.cfg.Valid() && NeverBreaks(k, events) && n <= |events|
    ensures ExclusiveFields(Run(k, events[..n]))
  {
    if n == 0 {
      NobodyAheadAtFirst(k);
    } else {
      UnbrokenIsExclusive(k, events, n - 1);
      LastStepExclusiveIff(k, events, n - 1);
    }
  }

  /** The exact condition. `_leader_deadline` names at most one candidate at every moment of a run
      if and only if the run never adopts while another candidate is ahead and never wins a round
      while another is ahead by an unconfirmed adoption. */
  lemma ExclusiveExactlyIfNeverBroken(k: Cluster, events: seq<Step>)
    requires k.cfg.Valid()
    ensures ExclusiveThroughout(k, events) <==> NeverBreaks(k, events)
  {
    if NeverBreaks(k, events) {
      forall n | 0 <= n <= |events| ensures ExclusiveFields(Run(k, events[..n])) {
        UnbrokenIsExclusive(k, events, n);
      }
    }
    if ExclusiveThroughout(k, events) {
      forall n | 0 <= n < |events| ensures !BreaksAt(k, events, n) {
        LastStepExclusiveIff(k, events, n);
      }
    }
  }
}
