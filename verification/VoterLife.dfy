/** Whole runs of one voter: the leases it grants, across any requests and any restarts. */
module VoterLife {
  import opened Arithmetic
  import opened Ballot

  datatype Event =
    | Ask(now: int, source: NodeId, peer: string, req: Request)
    | Restart(now: int)

  /** One lease interval, from the moment it is granted. */
  datatype Lease = Lease(holder: NodeId, term: int, from: int, until: int)

  datatype Life = Life(now: int, ballot: Ballot, leases: seq<Lease>)

  function NextLife(cfg: Config, l: Life, e: Event): Life {
    match e
    case Restart(now) => Life(now, Restarted(cfg, true, l.ballot, now), l.leases)
    case Ask(now, source, peer, req) =>
      var (b, out) := Handle(cfg, true, l.ballot, now, source, peer, req);
      Life(now, b, l.leases + NewLease(out, now))
  }

  function NewLease(out: Outcome, now: int): seq<Lease> {
    if out.Answer? && out.reply.Granted?
    then [Lease(out.reply.holder, out.reply.term, now, now + out.reply.leaseMs)]
    else []
  }

  function Live(cfg: Config, events: seq<Event>): Life {
    if events == [] then Life(0, BLANK, [])
    else NextLife(cfg, Live(cfg, events[..|events| - 1]), events[|events| - 1])
  }

  /** The clock never goes back. */
  ghost predicate Timely(events: seq<Event>) {
    && (forall i :: 0 <= i < |events| ==> 0 <= events[i].now)
    && (forall i, j :: 0 <= i < j < |events| ==> events[i].now <= events[j].now)
  }

  // ------------------------------------------------------------ what every run keeps

  /** Any two leases: the later one was granted later and in no lower a term, and in a higher
      one for another candidate. */
  predicate Succeeds(a: Lease, b: Lease) {
    a.from <= b.from && a.term <= b.term && (a.holder != b.holder ==> a.term < b.term)
  }

  predicate WellFormed(cfg: Config, l: Lease, now: int) {
    l.holder != "" && l.from <= now && l.from < l.until <= l.from + cfg.leaseMs
  }

  /** The ballot remembers the last vote, and its live lease is the last one granted. */
  predicate Remembers(b: Ballot, leases: seq<Lease>) {
    if leases == [] then b.votedFor == "" && b.holder == ""
    else
      var last := leases[|leases| - 1];
      last.term == b.term && last.holder == b.votedFor && (b.holder != "" ==> b.deadline == last.until)
  }

  ghost predicate Kept(cfg: Config, l: Life) {
    && 0 <= l.now && Sound(cfg, l.ballot, l.now) && Remembers(l.ballot, l.leases)
    && (forall i :: 0 <= i < |l.leases| ==> WellFormed(cfg, l.leases[i], l.now))
    && (forall i, j :: 0 <= i < j < |l.leases| ==> Succeeds(l.leases[i], l.leases[j]))
  }

  /** One request: at most one lease is added, and it succeeds the last one. */
  lemma AskSucceeds(cfg: Config, b: Ballot, leases: seq<Lease>, now: int, source: NodeId, peer: string, req: Request)
    requires cfg.Valid() && 0 <= now && Sound(cfg, b, now) && Remembers(b, leases)
    requires leases != [] ==> WellFormed(cfg, leases[|leases| - 1], now)
    ensures var (b', out) := Handle(cfg, true, b, now, source, peer, req);
            var more := NewLease(out, now);
            && Remembers(b', leases + more)
            && (more == [] ==> b' == b)
            && (more != [] ==> WellFormed(cfg, more[0], now))
            && (more != [] && leases != [] ==> Succeeds(leases[|leases| - 1], more[0]))
  {
    assert leases + [] == leases;
  }

  lemma NextKept(cfg: Config, l: Life, e: Event)
    requires cfg.Valid() && Kept(cfg, l) && l.now <= e.now
    ensures Kept(cfg, NextLife(cfg, l, e))
  {
    if e.Ask? {
      HandleKeepsSound(cfg, true, l.ballot, e.now, e.source, e.peer, e.req);
      AskSucceeds(cfg, l.ballot, l.leases, e.now, e.source, e.peer, e.req);
    }
  }

  lemma {:induction false} LiveKept(cfg: Config, events: seq<Event>)
    requires cfg.Valid() && Timely(events)
    ensures Kept(cfg, Live(cfg, events))
    ensures Live(cfg, events).now == if events == [] then 0 else events[|events| - 1].now
  {
    if events != [] {
      LiveKept(cfg, events[..|events| - 1]);
      NextKept(cfg, Live(cfg, events[..|events| - 1]), events[|events| - 1]);
    }
  }

  /** The term fences, whatever is asked and however often the voter restarts: a later lease is
      never of a lower term, and of a higher one when it goes to another candidate. */
  lemma LeaseTermsFence(cfg: Config, events: seq<Event>, i: nat, j: nat)
    requires cfg.Valid() && Timely(events) && i < j < |Live(cfg, events).leases|
    ensures var a, b := Live(cfg, events).leases[i], Live(cfg, events).leases[j];
            a.term <= b.term && (a.holder != b.holder ==> a.term < b.term)
  {
    LiveKept(cfg, events);
    assert Succeeds(Live(cfg, events).leases[i], Live(cfg, events).leases[j]);
  }

  // ------------------------------------------------------------ when leases are exclusive

  /** Leases of different candidates never overlap. */
  ghost predicate Disjoint(leases: seq<Lease>) {
    forall i, j :: 0 <= i < j < |leases| && leases[i].holder != leases[j].holder ==> leases[i].until <= leases[j].from
  }

  /** No lease granted to another candidate overlaps the one granted just before it. */
  ghost predicate NeighboursDisjoint(leases: seq<Lease>) {
    forall i :: 0 <= i < |leases| - 1 && leases[i].holder != leases[i + 1].holder ==>
      leases[i].until <= leases[i + 1].from
  }

  /** A restart while a lease of term 0 is live: no guard is set for it. */
  predicate Forgets(b: Ballot, e: Event) {
    e.Restart? && b.term == 0 && e.now < b.deadline
  }

  /** A request that shortens the live lease. */
  predicate CutsShort(cfg: Config, b: Ballot, e: Event) {
    e.Ask? && Shortens(cfg, b, e.now, e.source, e.peer, e.req, b.deadline)
  }

  ghost predicate NeverForgets(cfg: Config, events: seq<Event>) {
    forall i :: 0 <= i < |events| ==> !Forgets(Live(cfg, events[..i]).ballot, events[i])
  }

  ghost predicate NeverCutsShort(cfg: Config, events: seq<Event>) {
    forall i :: 0 <= i < |events| ==> !CutsShort(cfg, Live(cfg, events[..i]).ballot, events[i])
  }

  /** Every running lease is still promised. */
  ghost predicate AllBound(l: Life) {
    forall i :: 0 <= i < |l.leases| && l.now < l.leases[i].until ==>
      Bound(l.ballot, l.leases[i].holder, l.leases[i].until)
  }

  ghost predicate LastBound(l: Life) {
    l.leases != [] && l.now < l.leases[|l.leases| - 1].until ==>
      Bound(l.ballot, l.leases[|l.leases| - 1].holder, l.leases[|l.leases| - 1].until)
  }

  /** A promise that runs survives any event that neither forgets nor cuts short. */
  lemma PromiseSurvives(cfg: Config, l: Life, e: Event, c: NodeId, d: int)
    requires cfg.Valid() && Kept(cfg, l) && l.now <= e.now < d <= l.now + cfg.leaseMs && c != ""
             && Bound(l.ballot, c, d)
    requires !Forgets(l.ballot, e) && !CutsShort(cfg, l.ballot, e)
    ensures Bound(NextLife(cfg, l, e).ballot, c, d)
  {
    if e.Ask? {
      HandleKeepsBoundIff(cfg, l.ballot, e.now, e.source, e.peer, e.req, c, d);
    } else {
      RestartKeepsBoundIff(cfg, true, l.ballot, e.now, c, d);
    }
  }

  /** While a promise to `c` runs, nobody else is granted anything. */
  lemma PromiseExcludes(cfg: Config, b: Ballot, now: int, source: NodeId, peer: string, req: Request, c: NodeId, d: int)
    requires Bound(b, c, d) && c != "" && now < d
    ensures var out := Handle(cfg, true, b, now, source, peer, req).1;
            out.Answer? && out.reply.Granted? ==> out.reply.holder == c
  {
  }

  lemma NewLeaseBound(cfg: Config, l: Life, e: Event)
    requires cfg.Valid() && Kept(cfg, l) && l.now <= e.now && |NextLife(cfg, l, e).leases| > |l.leases|
    ensures LastBound(NextLife(cfg, l, e))
  {
  }

  lemma NextAllBound(cfg: Config, l: Life, e: Event)
    requires cfg.Valid() && Kept(cfg, l) && l.now <= e.now && AllBound(l) && Disjoint(l.leases)
    requires !Forgets(l.ballot, e) && !CutsShort(cfg, l.ballot, e)
    ensures AllBound(NextLife(cfg, l, e)) && Disjoint(NextLife(cfg, l, e).leases)
  {
    var l' := NextLife(cfg, l, e);
    forall i | 0 <= i < |l'.leases| && l'.now < l'.leases[i].until
      ensures Bound(l'.ballot, l'.leases[i].holder, l'.leases[i].until)
    {
      if i < |l.leases| {
        assert WellFormed(cfg, l.leases[i], l.now);
        PromiseSurvives(cfg, l, e, l.leases[i].holder, l.leases[i].until);
      } else {
        NewLeaseBound(cfg, l, e);
      }
    }
    if e.Ask? {
      forall i | 0 <= i < |l.leases| && e.now < l.leases[i].until && |l'.leases| > |l.leases|
        ensures l.leases[i].holder == l'.leases[|l.leases|].holder
      {
        PromiseExcludes(cfg, l.ballot, e.now, e.source, e.peer, e.req, l.leases[i].holder, l.leases[i].until);
      }
    }
  }

  lemma NextLastBound(cfg: Config, l: Life, e: Event)
    requires cfg.Valid() && Kept(cfg, l) && l.now <= e.now && LastBound(l) && NeighboursDisjoint(l.leases)
    requires !Forgets(l.ballot, e)
    ensures LastBound(NextLife(cfg, l, e)) && NeighboursDisjoint(NextLife(cfg, l, e).leases)
  {
    var l' := NextLife(cfg, l, e);
    if |l'.leases| > |l.leases| {
      NewLeaseBound(cfg, l, e);
      if l.leases != [] && e.now < l.leases[|l.leases| - 1].until {
        var last := l.leases[|l.leases| - 1];
        PromiseExcludes(cfg, l.ballot, e.now, e.source, e.peer, e.req, last.holder, last.until);
      }
    } else if l.leases != [] && e.now < l.leases[|l.leases| - 1].until {
      var last := l.leases[|l.leases| - 1];
      assert WellFormed(cfg, last, l.now);
      if e.Ask? {
        AskSucceeds(cfg, l.ballot, l.leases, e.now, e.source, e.peer, e.req);
      } else {
        RestartKeepsBoundIff(cfg, true, l.ballot, e.now, last.holder, last.until);
      }
    }
  }

  lemma PrefixCareful(cfg: Config, events: seq<Event>)
    requires events != []
    ensures var front, e := events[..|events| - 1], events[|events| - 1];
            && (NeverForgets(cfg, events) ==> NeverForgets(cfg, front) && !Forgets(Live(cfg, front).ballot, e))
            && (NeverCutsShort(cfg, events) ==>
                  NeverCutsShort(cfg, front) && !CutsShort(cfg, Live(cfg, front).ballot, e))
  {
    var front := events[..|events| - 1];
    assert forall i :: 0 <= i < |front| ==> front[..i] == events[..i] && front[i] == events[i];
  }

  lemma {:induction false} CarefulRunsAreBound(cfg: Config, events: seq<Event>)
    requires cfg.Valid() && Timely(events) && NeverForgets(cfg, events) && NeverCutsShort(cfg, events)
    ensures AllBound(Live(cfg, events)) && Disjoint(Live(cfg, events).leases)
  {
    if events != [] {
      var front, e := events[..|events| - 1], events[|events| - 1];
      PrefixCareful(cfg, events);
      CarefulRunsAreBound(cfg, front);
      LiveKept(cfg, front);
      assert Live(cfg, front).now <= e.now;
      NextAllBound(cfg, Live(cfg, front), e);
    }
  }

  lemma {:induction false} RememberingRunsAreBound(cfg: Config, events: seq<Event>)
    requires cfg.Valid() && Timely(events) && NeverForgets(cfg, events)
    ensures LastBound(Live(cfg, events)) && NeighboursDisjoint(Live(cfg, events).leases)
  {
    if events != [] {
      var front, e := events[..|events| - 1], events[|events| - 1];
      PrefixCareful(cfg, events);
      RememberingRunsAreBound(cfg, front);
      LiveKept(cfg, front);
      assert Live(cfg, front).now <= e.now;
      NextLastBound(cfg, Live(cfg, front), e);
    }
  }

  /** Whatever is asked and however often the voter restarts: as long as no lease is forgotten
      or cut short, no two leases of different candidates overlap. */
  lemma LeasesNeverOverlap(cfg: Config, events: seq<Event>, i: nat, j: nat)
    requires cfg.Valid() && Timely(events) && NeverForgets(cfg, events) && NeverCutsShort(cfg, events)
    requires i < j < |Live(cfg, events).leases|
    ensures var a, b := Live(cfg, events).leases[i], Live(cfg, events).leases[j];
            a.holder != b.holder ==> a.until <= b.from
  {
    CarefulRunsAreBound(cfg, events);
  }

  // ------------------------------------------------------------ exactly when

  /** A candidate asks for a full lease: what the candidates of this program send. */
  predicate IsFullVote(cfg: Config, e: Event) {
    e.Ask? && e.req.Vote? && e.req.leaseMs == cfg.leaseMs && e.req.term > 0
  }

  /** The run so far, continued by one event. */
  ghost function Continued(cfg: Config, events: seq<Event>, i: nat, w: Event): Life
    requires i <= |events|
  {
    Live(cfg, events[..i] + [w])
  }

  /** At no point of the run can one more full vote lead to overlapping leases. */
  ghost predicate StaysDisjoint(cfg: Config, events: seq<Event>) {
    forall i: nat, w :: i <= |events| && IsFullVote(cfg, w) && Timely(events[..i] + [w]) ==>
      Disjoint(Continued(cfg, events, i, w).leases)
  }

  ghost predicate NeighboursStayDisjoint(cfg: Config, events: seq<Event>) {
    forall i: nat, w :: i <= |events| && IsFullVote(cfg, w) && Timely(events[..i] + [w]) ==>
      NeighboursDisjoint(Continued(cfg, events, i, w).leases)
  }

  lemma PrefixesCareful(cfg: Config, events: seq<Event>, i: nat)
    requires i <= |events|
    ensures NeverForgets(cfg, events) ==> NeverForgets(cfg, events[..i])
    ensures NeverCutsShort(cfg, events) ==> NeverCutsShort(cfg, events[..i])
  {
    assert forall k :: 0 <= k < i ==> events[..i][..k] == events[..k] && events[..i][k] == events[k];
  }

  lemma Extended(events: seq<Event>, w: Event)
    requires Timely(events + [w])
    ensures Timely(events) && (events != [] ==> events[|events| - 1].now <= w.now) && 0 <= w.now
  {
    var all := events + [w];
    assert forall k :: 0 <= k < |events| ==> all[k] == events[k];
    assert all[|events|] == w;
  }

  lemma CarefulExtension(cfg: Config, events: seq<Event>, w: Event)
    ensures NeverForgets(cfg, events) && !Forgets(Live(cfg, events).ballot, w) ==> NeverForgets(cfg, events + [w])
    ensures NeverCutsShort(cfg, events) && !CutsShort(cfg, Live(cfg, events).ballot, w) ==>
              NeverCutsShort(cfg, events + [w])
  {
    var all := events + [w];
    assert forall k :: 0 <= k < |events| ==> all[..k] == events[..k] && all[k] == events[k];
    assert all[..|events|] == events && all[|events|] == w;
  }

  /** A full vote never forgets or cuts short. */
  lemma FullVoteIsCareful(cfg: Config, events: seq<Event>, w: Event)
    requires cfg.Valid() && Timely(events + [w]) && IsFullVote(cfg, w)
    ensures NeverForgets(cfg, events) ==> NeverForgets(cfg, events + [w])
    ensures NeverCutsShort(cfg, events) ==> NeverCutsShort(cfg, events + [w])
  {
    Extended(events, w);
    LiveKept(cfg, events);
    CarefulExtension(cfg, events, w);
  }

  /** The vote that shows the harm: another candidate is granted the next term at `now`. */
  function Rival(cfg: Config, b: Ballot, now: int, c: NodeId): Event {
    Ask(now, c, "peer", Vote(cfg.clusterId, c, b.term + 1, cfg.leaseMs))
  }

  lemma RivalWins(cfg: Config, l: Life, now: int, c: NodeId)
    requires cfg.Valid() && Sound(cfg, l.ballot, l.now) && c in cfg.candidates
    requires l.ballot.guardUntil <= now && (l.ballot.deadline <= now || l.ballot.holder == "")
    ensures NextLife(cfg, l, Rival(cfg, l.ballot, now, c)).leases
         == l.leases + [Lease(c, l.ballot.term + 1, now, now + cfg.leaseMs)]
  {
  }

  /** After an event that forgets or cuts short, a rival's vote overlaps the lease that was live
      before it. `l1` is the run after the event. */
  lemma HarmfulThenRival(cfg: Config, l: Life, e: Event, c: NodeId)
    requires cfg.Valid() && Kept(cfg, l) && l.now <= e.now && c in cfg.candidates && c != l.ballot.votedFor
    requires Forgets(l.ballot, e) || CutsShort(cfg, l.ballot, e)
    ensures var l1 := NextLife(cfg, l, e);
            var now := Max(e.now, Max(l1.ballot.guardUntil, l1.ballot.deadline));
            var l2 := NextLife(cfg, l1, Rival(cfg, l1.ballot, now, c));
            && e.now <= now && l.leases != [] && |l2.leases| > |l.leases|
            && !Disjoint(l2.leases)
            && (Forgets(l.ballot, e) ==> !NeighboursDisjoint(l2.leases))
  {
    var l1 := NextLife(cfg, l, e);
    NextKept(cfg, l, e);
    var now := Max(e.now, Max(l1.ballot.guardUntil, l1.ballot.deadline));
    assert l.leases != [] && l.leases[|l.leases| - 1].until == l.ballot.deadline;
    assert now < l.ballot.deadline;
    RivalWins(cfg, l1, now, c);
    var l2 := NextLife(cfg, l1, Rival(cfg, l1.ballot, now, c));
    var i, j := |l.leases| - 1, |l2.leases| - 1;
    assert l2.leases[i] == l.leases[i] && l2.leases[j].holder == c && l2.leases[j].from == now;
  }

  /** The rival's vote after the harmful event number `i`, as a continuation of the run. */
  lemma HarmShows(cfg: Config, events: seq<Event>, i: nat, c: NodeId) returns (w: Event)
    requires cfg.Valid() && Timely(events) && i < |events| && c in cfg.candidates
    requires c != Live(cfg, events[..i]).ballot.votedFor
    requires || Forgets(Live(cfg, events[..i]).ballot, events[i])
             || CutsShort(cfg, Live(cfg, events[..i]).ballot, events[i])
    ensures IsFullVote(cfg, w) && Timely(events[..i + 1] + [w])
    ensures !Disjoint(Continued(cfg, events, i + 1, w).leases)
    ensures Forgets(Live(cfg, events[..i]).ballot, events[i]) ==>
              !NeighboursDisjoint(Continued(cfg, events, i + 1, w).leases)
  {
    var front, e := events[..i], events[i];
    var l := Live(cfg, front);
    LiveKept(cfg, front);
    assert l.now <= e.now;
    HarmfulThenRival(cfg, l, e, c);
    NextKept(cfg, l, e);
    var l1 := NextLife(cfg, l, e);
    w := Rival(cfg, l1.ballot, Max(e.now, Max(l1.ballot.guardUntil, l1.ballot.deadline)), c);
    RunsAsSteps(cfg, events, i, w);
    TimelyContinued(events, i, w);
  }

  lemma RunsAsSteps(cfg: Config, events: seq<Event>, i: nat, w: Event)
    requires i < |events|
    ensures Continued(cfg, events, i + 1, w) == NextLife(cfg, NextLife(cfg, Live(cfg, events[..i]), events[i]), w)
  {
    var all := events[..i + 1] + [w];
    assert all[..|all| - 1] == events[..i + 1] && all[|all| - 1] == w;
    var front := events[..i + 1];
    assert front != [] && front[..|front| - 1] == events[..i] && front[|front| - 1] == events[i];
    assert Live(cfg, front) == NextLife(cfg, Live(cfg, events[..i]), events[i]);
  }

  lemma TimelyContinued(events: seq<Event>, i: nat, w: Event)
    requires i < |events| && Timely(events) && events[i].now <= w.now
    ensures Timely(events[..i + 1] + [w])
  {
    var all := events[..i + 1] + [w];
    assert |all| == i + 2 && all[i + 1] == w;
    forall k | 0 <= k <= i ensures all[k] == events[k] && 0 <= events[k].now <= events[i].now {
    }
    forall a, b | 0 <= a < b < |all| ensures all[a].now <= all[b].now {
      assert all[a] == events[a];
      assert b <= i ==> all[b] == events[b];
    }
    assert forall k :: 0 <= k < |all| ==> k <= i || all[k] == w;
  }

  /** Some candidate other than `v`. */
  lemma OtherCandidate(cfg: Config, v: NodeId) returns (c: NodeId)
    requires |cfg.candidates| >= 2
    ensures c in cfg.candidates && c != v
  {
    var a :| a in cfg.candidates;
    if a != v {
      c := a;
    } else {
      assert |cfg.candidates - {a}| >= 1;
      c :| c in cfg.candidates - {a};
    }
  }

  /** The exact condition. With two candidates, the leases of a run stay disjoint, whatever full
      vote comes next at any point, if and only if no restart of the run forgets a live lease of
      term 0 and no request of the run cuts a live lease short. */
  lemma DisjointExactlyIfCareful(cfg: Config, events: seq<Event>)
    requires cfg.Valid() && Timely(events) && |cfg.candidates| >= 2
    ensures StaysDisjoint(cfg, events) <==> NeverForgets(cfg, events) && NeverCutsShort(cfg, events)
  {
    if NeverForgets(cfg, events) && NeverCutsShort(cfg, events) {
      forall i: nat, w | i <= |events| && IsFullVote(cfg, w) && Timely(events[..i] + [w])
        ensures Disjoint(Continued(cfg, events, i, w).leases)
      {
        PrefixesCareful(cfg, events, i);
        FullVoteIsCareful(cfg, events[..i], w);
        CarefulRunsAreBound(cfg, events[..i] + [w]);
      }
    } else {
      var i :| 0 <= i < |events| && (Forgets(Live(cfg, events[..i]).ballot, events[i])
                                     || CutsShort(cfg, Live(cfg, events[..i]).ballot, events[i]));
      var c := OtherCandidate(cfg, Live(cfg, events[..i]).ballot.votedFor);
      var w := HarmShows(cfg, events, i, c);
      assert !Disjoint(Continued(cfg, events, i + 1, w).leases);
    }
  }

  /** For a lease and the very next one, cutting short does no harm: only forgetting does. */
  lemma NeighboursDisjointExactlyIfRemembered(cfg: Config, events: seq<Event>)
    requires cfg.Valid() && Timely(events) && |cfg.candidates| >= 2
    ensures NeighboursStayDisjoint(cfg, events) <==> NeverForgets(cfg, events)
  {
    if NeverForgets(cfg, events) {
      forall i: nat, w | i <= |events| && IsFullVote(cfg, w) && Timely(events[..i] + [w])
        ensures NeighboursDisjoint(Continued(cfg, events, i, w).leases)
      {
        PrefixesCareful(cfg, events, i);
        FullVoteIsCareful(cfg, events[..i], w);
        RememberingRunsAreBound(cfg, events[..i] + [w]);
      }
    } else {
      var i :| 0 <= i < |events| && Forgets(Live(cfg, events[..i]).ballot, events[i]);
      var c := OtherCandidate(cfg, Live(cfg, events[..i]).ballot.votedFor);
      var w := HarmShows(cfg, events, i, c);
      assert !NeighboursDisjoint(Continued(cfg, events, i + 1, w).leases);
    }
  }

  /** Requests as the candidates of this program send them: full length, positive terms. */
  ghost predicate AsSent(cfg: Config, events: seq<Event>) {
    forall i :: 0 <= i < |events| && events[i].Ask? ==>
      && PositiveTerm(events[i].req)
      && (events[i].req.Vote? || events[i].req.Renewal? ==> events[i].req.leaseMs == cfg.leaseMs)
  }

  /** Such requests never forget or cut short, so they never lead to an overlap. */
  lemma {:induction false} AsSentIsCareful(cfg: Config, events: seq<Event>)
    requires cfg.Valid() && Timely(events) && AsSent(cfg, events)
    ensures NeverForgets(cfg, events) && NeverCutsShort(cfg, events) && Positive(Live(cfg, events).ballot)
  {
    if events != [] {
      var front, e := events[..|events| - 1], events[|events| - 1];
      assert events == front + [e];
      assert AsSent(cfg, front);
      AsSentIsCareful(cfg, front);
      LiveKept(cfg, front);
      assert Live(cfg, front).now <= e.now;
      CarefulExtension(cfg, front, e);
      SentEventIsCareful(cfg, Live(cfg, front), e);
    }
  }

  lemma SentEventIsCareful(cfg: Config, l: Life, e: Event)
    requires cfg.Valid() && Kept(cfg, l) && Positive(l.ballot) && l.now <= e.now
    requires e.Ask? ==> PositiveTerm(e.req) && (e.req.Vote? || e.req.Renewal? ==> e.req.leaseMs == cfg.leaseMs)
    ensures !Forgets(l.ballot, e) && !CutsShort(cfg, l.ballot, e) && Positive(NextLife(cfg, l, e).ballot)
  {
    if e.Ask? {
      HandleKeepsSound(cfg, true, l.ballot, e.now, e.source, e.peer, e.req);
    }
  }

  /** A request that cuts short: a renewal for 5 ms ends a lease of 6000 ms, and the rival's
      lease overlaps the interval promised first. */
  lemma ShortRenewalLetsOldIntervalOverlap()
    ensures var cfg := Config("hb", ["v"], {"a", "b"}, 6000);
            var events := [Ask(10, "a", "p", Vote("hb", "a", 1, 6000)),
                           Ask(20, "a", "p", Renewal("hb", "a", 1, 5)),
                           Ask(30, "b", "p", Vote("hb", "b", 2, 6000))];
            var ls := Live(cfg, events).leases;
            && cfg.Valid() && Timely(events) && |ls| == 3
            && ls[0].holder != ls[2].holder && ls[2].from < ls[0].until
  {
    var cfg := Config("hb", ["v"], {"a", "b"}, 6000);
    var e0 := Ask(10, "a", "p", Vote("hb", "a", 1, 6000));
    var e1 := Ask(20, "a", "p", Renewal("hb", "a", 1, 5));
    var e2 := Ask(30, "b", "p", Vote("hb", "b", 2, 6000));
    assert [e0, e1, e2][..2] == [e0, e1] && [e0, e1][..1] == [e0] && [e0][..0] == [];
    assert Live(cfg, []) == Life(0, BLANK, []);
    var l0 := Live(cfg, [e0]);
    assert l0 == Life(10, Ballot(1, "a", "a", 6010, 0), [Lease("a", 1, 10, 6010)]);
    var l1 := Live(cfg, [e0, e1]);
    assert l1 == Life(20, Ballot(1, "a", "a", 25, 0), [Lease("a", 1, 10, 6010), Lease("a", 1, 20, 25)]);
  }

  /** A restart that forgets: the lease was granted in term 0, which no candidate of this program
      asks for but the voter accepts. */
  lemma TermZeroLeaseIsForgotten()
    ensures var cfg := Config("hb", ["v"], {"a", "b"}, 6000);
            var events := [Ask(10, "a", "p", Vote("hb", "a", 0, 6000)), Restart(20),
                           Ask(30, "b", "p", Vote("hb", "b", 1, 6000))];
            var ls := Live(cfg, events).leases;
            && cfg.Valid() && Timely(events) && |ls| == 2
            && ls[0].holder != ls[1].holder && ls[1].from < ls[0].until
  {
    var cfg := Config("hb", ["v"], {"a", "b"}, 6000);
    var e0 := Ask(10, "a", "p", Vote("hb", "a", 0, 6000));
    var e2 := Ask(30, "b", "p", Vote("hb", "b", 1, 6000));
    assert [e0, Restart(20), e2][..2] == [e0, Restart(20)] && [e0, Restart(20)][..1] == [e0] && [e0][..0] == [];
    assert Live(cfg, []) == Life(0, BLANK, []);
    assert Live(cfg, [e0]) == Life(10, Ballot(0, "a", "a", 6010, 0), [Lease("a", 0, 10, 6010)]);
    assert Live(cfg, [e0, Restart(20)]).ballot == Ballot(0, "a", "", 0, 0);
  }
}
