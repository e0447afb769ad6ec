/** When a candidate keeps its services in primary mode: what each end of a control loop leaves, and
    what holds between loops. */
module LeaderModes {
  import opened Arithmetic
  import opened Ballot
  import opened LeaseEngine
  import opened LeaseProtocol
  import opened LeaseSafety
  import opened LeasePaths
  import opened LeaseRefinement

  /** Standby was asked for, the guard file is gone and no lease is held. */
  predicate FencedOff(l: Leader) {
    !l.primary && l.guard.None? && l.deadline == 0
  }

  /** Only the lease and the term of `l` may have changed: nothing was started or stopped. */
  predicate Untouched(was: Leader, l: Leader) {
    l.primary == was.primary && l.guard == was.guard
  }

  // ------------------------------------------------------------ the decision

  /** Another candidate has the majority: fenced off, with the larger term. */
  lemma ForeignMajorityFences(k: Cluster, s: State, c: NodeId, view: View, eligible: bool, higherReady: bool)
    requires c in s.nodes && s.nodes[c].phase.Querying? && view.holder != "" && view.holder != c
    ensures var (l, move) := Decision(k, s, c, view, eligible, higherReady);
            && move == Stay && FencedOff(l)
            && l.term == if view.term > s.nodes[c].leader.term then view.term else s.nodes[c].leader.term
  {
  }

  /** A running lease is renewed, unless a higher term was seen: then the candidate is fenced off. */
  lemma RunningLeaseDecides(k: Cluster, s: State, c: NodeId, view: View, eligible: bool, higherReady: bool)
    requires c in s.nodes && s.nodes[c].phase.Querying? && (view.holder == "" || view.holder == c)
    requires s.nodes[c].leader.deadline > s.now
    ensures var was := s.nodes[c].leader;
            var (l, move) := Decision(k, s, c, view, eligible, higherReady);
            if view.maxTerm > was.term then move == Stay && FencedOff(l) && l.term == was.term
            else move == Renew && l == was
  {
  }

  /** Without a running lease: a candidate that is not eligible, or hears fewer voters than a quorum,
      is fenced off; with its own majority it adopts that term and counts a lease from now; else a
      ready candidate of higher priority makes it stand back, fenced off; else, and only then, it
      campaigns in the term after the largest seen. */
  lemma NoLeaseDecides(k: Cluster, s: State, c: NodeId, view: View, eligible: bool, higherReady: bool)
    requires c in s.nodes && s.nodes[c].phase.Querying? && (view.holder == "" || view.holder == c)
    requires s.nodes[c].leader.deadline <= s.now && "" != c
    ensures var was := s.nodes[c].leader;
            var (l, move) := Decision(k, s, c, view, eligible, higherReady);
            var heard := |s.nodes[c].phase.responses|;
            if !eligible || heard < k.cfg.Quorum() then move == Stay && FencedOff(l) && l.term == was.term
            else if view.holder == c && view.term > 0 then
              move == Adopt && Untouched(was, l) && l.term == view.term && l.deadline == s.now + k.cfg.leaseMs
            else if higherReady then move == Stay && FencedOff(l) && l.term == was.term
            else move == Campaign(view.maxTerm + 1) && l == was
  {
  }

  // ------------------------------------------------------------ the end of a round

  ghost predicate RoundWon(k: Cluster, s: State, c: NodeId)
    requires c in s.nodes && s.nodes[c].phase.Collecting? && s.nodes[c].phase.round < |s.rounds|
  {
    && |s.nodes[c].phase.granted| >= |k.cfg.voters| / 2 + 1
    && s.rounds[s.nodes[c].phase.round].started + k.cfg.leaseMs > s.now
  }

  /** A won round: primary mode, the round's term, and a lease counted from the start of the round, in
      the guard file as well if the candidate is armed. */
  lemma WinLeads(k: Cluster, s: State, c: NodeId)
    requires Enabled(k, s, Conclude(c)) && RoundWon(k, s, c)
    requires !s.nodes[c].phase.move.Campaign? ==> s.rounds[s.nodes[c].phase.round].term == s.nodes[c].leader.term
    ensures var rd := s.rounds[s.nodes[c].phase.round];
            var until := rd.started + k.cfg.leaseMs;
            var t := Next(k, s, Conclude(c));
            && c in t.nodes && t.nodes[c].phase == Idle
            && var l := t.nodes[c].leader;
               && l.primary && l.term == rd.term && l.deadline == until
               && if c in k.armed then l.guard.Some? && l.guard.value == Guard(c, rd.term, until)
                  else l.guard == s.nodes[c].leader.guard
  {
  }

  /** A lost renewal or campaign: while the lease still runs the candidate keeps what it has; once it
      is over the candidate is fenced off. A lost campaign takes over the largest term it heard. */
  lemma LossKeepsOrFences(k: Cluster, s: State, c: NodeId)
    requires Enabled(k, s, Conclude(c)) && !RoundWon(k, s, c)
    requires s.nodes[c].phase.move.Campaign? || s.nodes[c].phase.move.Renew?
    ensures var p := s.nodes[c].phase;
            var was := s.nodes[c].leader;
            var t := Next(k, s, Conclude(c));
            && c in t.nodes && t.nodes[c].phase == Idle
            && t.nodes[c].leader.term ==
                 (if p.move.Campaign? && p.highest > s.rounds[p.round].term then p.highest else was.term)
            && if was.deadline <= s.now then FencedOff(t.nodes[c].leader)
               else Untouched(was, t.nodes[c].leader) && t.nodes[c].leader.deadline == was.deadline
  {
  }

  /** A lost adoption keeps what it has, whatever the time. */
  lemma LostAdoptionKeeps(k: Cluster, s: State, c: NodeId)
    requires Enabled(k, s, Conclude(c)) && !RoundWon(k, s, c) && s.nodes[c].phase.move.Adopt?
    ensures Next(k, s, Conclude(c)).nodes == s.nodes[c := Node(s.nodes[c].leader, Idle)]
  {
  }

  /** A candidate no longer eligible when it is to renew or adopt is fenced off. */
  lemma IneligibleRenewalFences(k: Cluster, s: State, c: NodeId)
    requires c in s.nodes && s.nodes[c].phase.Deciding? && !s.nodes[c].phase.move.Campaign?
    ensures var t := Next(k, s, Begin(c, false));
            && c in t.nodes && t.nodes[c].phase == Idle && FencedOff(t.nodes[c].leader)
            && t.rounds == s.rounds && t.nodes[c].leader.term == s.nodes[c].leader.term
  {
  }

  /** A loop that raises fences off exactly if the lease is over. */
  lemma InterruptionFences(k: Cluster, s: State, c: NodeId)
    requires Enabled(k, s, Abort(c))
    ensures var was := s.nodes[c].leader;
            var t := Next(k, s, Abort(c));
            && c in t.nodes && t.nodes[c].phase == Idle && t.nodes[c].leader.term == was.term
            && if was.deadline <= s.now then FencedOff(t.nodes[c].leader) else t.nodes[c].leader == was
  {
  }

  // ------------------------------------------------------------ between loops

  /** The event ends the candidate's control loop. */
  ghost predicate EndsLoop(k: Cluster, s: State, e: Step, c: NodeId) {
    && Enabled(k, s, e) && c in s.nodes && !s.nodes[c].phase.Idle? && !(e.Restart? && e.node == c)
    && c in Next(k, s, e).nodes && Next(k, s, e).nodes[c].phase.Idle?
  }

  /** An adoption that is not confirmed before a whole lease has passed. */
  ghost predicate LateAdoption(k: Cluster, s: State, e: Step, c: NodeId) {
    && e == Conclude(c) && Enabled(k, s, e) && s.nodes[c].phase.move.Adopt?
    && !RoundWon(k, s, c) && s.nodes[c].leader.deadline <= s.now
  }

  /** Whoever acts on a decision has decided on something. */
  ghost predicate MovesMade(s: State) {
    forall c :: c in s.nodes && (s.nodes[c].phase.Deciding? || s.nodes[c].phase.Collecting?) ==>
      !s.nodes[c].phase.move.Stay?
  }

  lemma NextMovesMade(k: Cluster, s: State, e: Step)
    requires Enabled(k, s, e) && MovesMade(s)
    ensures MovesMade(Next(k, s, e))
  {
  }

  lemma {:induction false} RunMovesMade(k: Cluster, events: seq<Step>)
    ensures MovesMade(Run(k, events))
  {
    if events != [] {
      var front, e := events[..|events| - 1], events[|events| - 1];
      RunMovesMade(k, front);
      if Enabled(k, Run(k, front), e) {
        NextMovesMade(k, Run(k, front), e);
      }
    }
  }

  /** A loop ends in primary mode without a running lease exactly if it was in primary mode and is
      such an adoption. */
  lemma LoopEndFencesOff(k: Cluster, s: State, e: Step, c: NodeId)
    requires EndsLoop(k, s, e, c) && MovesMade(s)
    ensures var l := Next(k, s, e).nodes[c].leader;
            l.primary && l.deadline <= Next(k, s, e).now <==> LateAdoption(k, s, e, c) && s.nodes[c].leader.primary
  {
  }

  /** When the candidate's last control loop ended. */
  ghost function EndedAt(k: Cluster, events: seq<Step>, c: NodeId): int {
    if events == [] then 0
    else
      var front, e := events[..|events| - 1], events[|events| - 1];
      if EndsLoop(k, Run(k, front), e, c) then Next(k, Run(k, front), e).now else EndedAt(k, front, c)
  }

  /** Whether it ended as a late adoption. */
  ghost predicate EndedLate(k: Cluster, events: seq<Step>, c: NodeId) {
    if events == [] then false
    else
      var front, e := events[..|events| - 1], events[|events| - 1];
      if EndsLoop(k, Run(k, front), e, c) then LateAdoption(k, Run(k, front), e, c) else EndedLate(k, front, c)
  }

  ghost predicate LedAt(s: State, c: NodeId, ended: int, late: bool) {
    c in s.nodes && s.nodes[c].phase.Idle? && s.nodes[c].leader.primary ==>
      (s.nodes[c].leader.deadline > ended <==> !late)
  }

  /** An idle candidate is left alone by whatever does not end a loop of it, except a restart, which
      leaves primary mode. */
  lemma OthersLeaveIdle(k: Cluster, s: State, e: Step, c: NodeId)
    requires Enabled(k, s, e) && !EndsLoop(k, s, e, c) && c in Next(k, s, e).nodes
    requires Next(k, s, e).nodes[c].phase.Idle? && Next(k, s, e).nodes[c].leader.primary
    ensures c in s.nodes && s.nodes[c] == Next(k, s, e).nodes[c]
  {
  }

  /** In every reachable state, an idle candidate in primary mode had a running lease when its last
      control loop ended, if and only if that loop was no late adoption. */
  lemma {:induction false} PrimaryHadLeaseAtLoopEnd(k: Cluster, events: seq<Step>, c: NodeId)
    ensures LedAt(Run(k, events), c, EndedAt(k, events, c), EndedLate(k, events, c))
  {
    if events != [] {
      var front, e := events[..|events| - 1], events[|events| - 1];
      var s := Run(k, front);
      PrimaryHadLeaseAtLoopEnd(k, front, c);
      if EndsLoop(k, s, e, c) {
        RunMovesMade(k, front);
        LoopEndFencesOff(k, s, e, c);
        if LateAdoption(k, s, e, c) {
          LateMeansKept(k, s, e, c);
        }
      } else if Enabled(k, s, e) && c in Next(k, s, e).nodes && Next(k, s, e).nodes[c].phase.Idle?
                && Next(k, s, e).nodes[c].leader.primary {
        OthersLeaveIdle(k, s, e, c);
      }
    }
  }

  lemma LateMeansKept(k: Cluster, s: State, e: Step, c: NodeId)
    requires LateAdoption(k, s, e, c)
    ensures c in Next(k, s, e).nodes && Next(k, s, e).nodes[c].leader == s.nodes[c].leader
    ensures Next(k, s, e).now == s.now
  {
    LostAdoptionKeeps(k, s, c);
  }

  /** In every reachable state primary mode was asked for after a won round of this candidate, and an
      armed candidate in primary mode has its guard file. */
  ghost predicate PrimaryIsEarned(k: Cluster, s: State) {
    forall c :: c in s.nodes && s.nodes[c].leader.primary ==>
      && (exists i :: 0 <= i < |s.wins| && s.wins[i].guard.holder == c)
      && (c in k.armed ==> s.nodes[c].leader.guard.Some?)
  }

  lemma PrimaryComesFrom(k: Cluster, s: State, e: Step, c: NodeId)
    requires Enabled(k, s, e) && c in Next(k, s, e).nodes && Next(k, s, e).nodes[c].leader.primary
    ensures var t := Next(k, s, e);
            || (c in s.nodes && s.nodes[c].leader.primary && t.nodes[c].leader.guard == s.nodes[c].leader.guard)
            || (&& |t.wins| == |s.wins| + 1 && t.wins[|s.wins|].guard.holder == c
                && (c in k.armed ==> t.nodes[c].leader.guard.Some?))
    ensures s.wins <= Next(k, s, e).wins
  {
  }

  lemma {:induction false} PrimaryIsEarnedInRuns(k: Cluster, events: seq<Step>)
    ensures PrimaryIsEarned(k, Run(k, events))
  {
    if events != [] {
      var front, e := events[..|events| - 1], events[|events| - 1];
      var s := Run(k, front);
      PrimaryIsEarnedInRuns(k, front);
      if Enabled(k, s, e) {
        NextEarned(k, s, e);
      }
    }
  }

  lemma NextEarned(k: Cluster, s: State, e: Step)
    requires Enabled(k, s, e) && PrimaryIsEarned(k, s)
    ensures PrimaryIsEarned(k, Next(k, s, e))
  {
    var t := Next(k, s, e);
    forall c | c in t.nodes && t.nodes[c].leader.primary
      ensures exists i :: 0 <= i < |t.wins| && t.wins[i].guard.holder == c
      ensures c in k.armed ==> t.nodes[c].leader.guard.Some?
    {
      PrimaryComesFrom(k, s, e, c);
      if c in s.nodes && s.nodes[c].leader.primary {
        var i :| 0 <= i < |s.wins| && s.wins[i].guard.holder == c;
        assert t.wins[i] == s.wins[i];
      } else {
        assert t.wins[|s.wins|].guard.holder == c;
      }
    }
  }
}
