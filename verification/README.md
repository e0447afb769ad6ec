# HashBurst HA: proofs about the lease, the replication lifecycle, placement and the replay cache

This project models four parts of HashBurst and proves what they promise.

* **The quorum lease of TEP-HA v2.2.** Voters persist a term and a vote and keep a lease in memory;
  candidates collect grants voter by voter and, with a quorum, write a guard file and start the
  primary services. `Ballot.dfy` is one voter and `VoterLife.dfy` its whole life of requests and
  restarts, `LeaseEngine.dfy` the agent process as a class, `LeaseProtocol.dfy` the cluster as a
  state machine (late, repeated and lost messages, process restarts, reboots, one clock),
  `LeaseSafety.dfy` the theorems over every run. `LeasePaths.dfy` and `LeaseRefinement.dfy` tie the
  class and the state machine together in both directions, `LeaseProgress.dfy` shows when a candidate
  wins, `VoterRules.dfy` tells every answer of a voter from its past leases and its last restart,
  `LeaderModes.dfy` when a candidate asks for primary mode and when it is fenced off,
  `LeaderDeadlines.dfy` when the field `_leader_deadline` is exclusive, and `LeaseFindings.dfy`
  holds reachable states in which it is not and in which primary mode outlasts it.
* **The replication lifecycle v2.1.4.** Objects, references, replicas and jobs. `Lifecycle.dfy`
  says what each database method does to the rows, `ReplicationDb.dfy` is the database as a class
  whose methods are proved equal to those steps. `RegistrationEffects.dfy`, `PlanningEffects.dfy`,
  `ReportEffects.dfy`, `RecoveryEffects.dfy`, `UnpinAuthorization.dfy` and `Answers.dfy` say what each
  step does in the columns of the rows, and exactly when. `LifecycleSafety.dfy`,
  `LifecycleTheorems.dfy`, `TrimFloors.dfy`, `Delivery.dfy` and `UnpinReports.dfy` hold the theorems
  over every run, `LifecycleFindings.dfy` witnesses of surprising behaviour. `TrimLoop.dfy`,
  `Planning.dfy`, `FinalPlanning.dfy`, `Controller.dfy` and `PlanningRuns.dfy` are the controller's
  planning loops and why they are runs of the database; `TrimExactly.dfy` and `FinalExactly.dfy` say
  exactly which jobs a pass creates.
* **Placement.** `Picking.dfy` is the greedy choice that prefers new failure domains, over any
  ranked pool; `Placement.dfy` instantiates it with nodes, scores and policy;
  `PlacementTheorems.dfy` proves exactness, spread and independence of the input order, and
  `PlacementEffects.dfy` spells these out in the columns of nodes and requests, for both phases.
* **The replay cache.** `ReplayCache.dfy` proves the bounded, ageing cache equal to a search of
  everything ever accepted.

`Options.dfy`, `Arithmetic.dfy`, `Sets.dfy` and `Sorting.dfy` are shared helpers. `dfyconfig.toml` lists all files.

Runs are sequences of events; an event that cannot happen in the current state is skipped, so a
theorem about `Run(events)` for all `events` is a theorem about every reachable state. Where the
source updates state in place, a class does so here, and each of its methods is proved equal to a
function of its arguments and the old state; the theorems are about those functions.

## What the proofs found

* One voter can be led to grant overlapping leases to two candidates, and exactly in two ways: a
  restart forgets a live lease of term 0, which no candidate asks for but a voter grants; or a request
  shorter than the full lease replaces the live lease of the same holder by one that ends earlier,
  with no restart guard outlasting it. With neither, all leases of different candidates are disjoint;
  with either, one more full vote brings an overlap (`VoterLife.DisjointExactlyIfCareful`). Requests as
  the candidates send them do neither (`VoterLife.AsSentIsCareful`).
* `create_verify_job` trusts a generation that its caller read earlier: such a job is born stale
  exactly when the object has moved on meanwhile (`LifecycleTheorems.VerifyBornCurrentIff`), and a
  database with such a job is reachable (`LifecycleFindings.StaleVerifyIsReachable`). All other live
  jobs are always current.
* The report of an authorised removal does not always count. For an UNPIN that was handed out, it
  counts exactly as long as nobody asked for the authorisation again, no recovery ran and no report of
  the job was applied (`UnpinReports.ReportCountsExactlyUntilEnded`). Asking twice discards it for good
  (`UnpinReports.AuthorizingTwiceDiscardsTheReport`). An UNPIN can also be authorised without having
  been handed out, under lease 0 (`LifecycleFindings.UndeliveredAuthorizationIsReachable`); then the
  same report can count twice (`UnpinReports.UndeliveredUnpinCountsAgain`).
* The v2.1.4 poll filters by operation after the leases have been written, so a job that is not
  handed out is leased all the same (`ReplicationDb.ReplicationDb.PendingJobs`).
* `bytes.fromhex` skips blanks, so the replay cache accepts request ids that are not 128-bit hex
  numbers; without blanks it accepts exactly those (`ReplayCache.IdIsLowerHexUnlessBlank`,
  `ReplayCache.BlanksAreAccepted`). The error message of the source promises more.
* Adoption sets `_leader_deadline` before any voter has confirmed, so two candidates can have one in
  the future (`LeaseFindings.LeaderDeadlineIsNotExclusive`), and exactly in two ways: a candidate
  adopts while another's deadline is ahead, or wins a round while another's adopted deadline, not yet
  confirmed, is ahead. A run without these keeps the field exclusive at every moment, and only such a
  run does (`LeaderDeadlines.ExclusiveExactlyIfNeverBroken`). Guard files and `set_primary` calls, which
  follow a confirmed round, are exclusive in every run.
* A control loop leaves primary mode on only with a lease that runs, except in exactly one way: an
  adoption whose round is lost and ends after the adopted deadline. The loop does not look at the
  deadline again then (`ha/hashburst_ha_agent.py:670-674`), so a node in primary mode stays in it, with
  its old guard, until its next loop (`LeaderModes.LoopEndFencesOff`, `LeaseFindings.LateAdoptionKeepsPrimary`).
* The capacity check of an authorisation takes off every other authorised trim, also when the copy it
  names was lost meanwhile and is no longer counted. Then a trim can be refused although enough copies
  would be left (`LifecycleFindings.LostRivalBlocksTrim`); `UnpinAuthorization.TrimAuthorizedExactlyIf` is the
  exact condition, and without replica failures it is the one the policy names
  (`UnpinAuthorization.CalmTrimAuthorizedExactlyIf`).

## Model

| member | source | states |
|---|---|---|
| Ballot.HandleKeepsSound | ha/hashburst_ha_agent.py:429-492 | No request lowers a voter's term or breaks its state: the holder is the one voted for, no deadline lies more than a lease ahead; and requests in positive terms leave votes in positive terms only |
| Ballot.HandleKeepsBoundIff | ha/hashburst_ha_agent_v220.py:202-222 | A running promise of a voter (by lease or restart guard) survives a request if and only if the request does not replace it by an accepted shorter one that no guard outlasts |
| Ballot.RestartKeepsBoundIff | ha/hashburst_ha_agent_v220.py:155-171 | A restart keeps a running promise if and only if the process is a voter whose persisted term is positive |
| VoterLife.LeaseTermsFence | ha/hashburst_ha_agent.py:454-477 | Over every run of requests and restarts of one voter, a later lease is of no lower term, and of a higher one for another candidate |
| VoterLife.LeasesNeverOverlap | ha/hashburst_ha_agent_v220.py:203-222 | In a run that never forgets a live term-0 lease and never cuts a live lease short, no two leases of different candidates overlap, however far apart |
| VoterLife.DisjointExactlyIfCareful | ha/hashburst_ha_agent.py:454-492 | That condition is exact: leases stay disjoint under one more full vote at any point if and only if the run never forgets and never cuts short |
| VoterLife.NeighboursDisjointExactlyIfRemembered | ha/hashburst_ha_agent_v220.py:167-171 | For a lease and the very next one the exact condition is that no restart forgets a live term-0 lease |
| VoterLife.AsSentIsCareful | ha/hashburst_ha_agent_v220.py:224-262 | Full-length requests in positive terms, as the candidates send them, meet the condition |
| VoterLife.ShortRenewalLetsOldIntervalOverlap | ha/hashburst_ha_agent.py:478-492 | Concrete run in which a short renewal cuts a lease short and another candidate's lease overlaps the interval first promised |
| VoterLife.TermZeroLeaseIsForgotten | ha/hashburst_ha_agent_v220.py:167-171 | Concrete run: a grant in term 0 is forgotten by a restart and overlaps the next one |
| VoterRules.HistoryTells | ha/hashburst_ha_agent.py:429-492 | In every run of requests and restarts the state of a voter is a function of the leases it granted and of its last restart |
| VoterRules.VoteGrantedExactlyIf | ha/hashburst_ha_agent_v220.py:203-222 | Over every run, a vote is granted if and only if the candidate asks for itself and at most one lease length, and was the last to get a vote and asks in no lower term, or asks in a higher term while no remembered lease runs and no restart makes the voter wait |
| VoterRules.RenewalGrantedExactlyIf | ha/hashburst_ha_agent.py:478-492 | A renewal is granted if and only if the last vote was the candidate's in just this term, also after the lease ran out or the voter restarted |
| VoterRules.GrantAddsTheLease | ha/hashburst_ha_agent.py:454-492 | A grant adds the lease asked for, from now on, to the candidate that asked; any other answer adds none |
| VoterRules.StatusMeans | ha/hashburst_ha_agent.py:389-405 | A status answer tells the last vote's term and, exactly while its lease is remembered and runs, the holder and the time left |
| VoterRules.VoteRefused | ha/hashburst_ha_agent.py:454-477 | Which vote is refused for a live lease, a stale term or another vote in the term, and what the refusal tells |
| VoterRules.ErrorsMean | ha/hashburst_ha_agent.py:429-492 | Which malformed request draws which error, in the order of the checks |
| LeaseEngine.LeaseEngine.constructor | ha/hashburst_ha_agent_v220.py:155-171 | A new process starts from the persisted vote with the restart guard set, no lease, and whatever guard file it finds |
| LeaseEngine.LeaseEngine.HandleTep | ha/hashburst_ha_agent.py:429-492 | The in-place handler computes exactly the voter step (new state and answer) that the run theorems are about |
| LeaseEngine.MajorityView | ha/hashburst_ha_agent.py:514-532 | The dictionary loop returns the largest term seen and a holder exactly if a quorum of responses names it in one term with time left |
| LeaseEngine.MajorityViewIsUnique | ha/hashburst_ha_agent.py:514-532 | With one response per voter the view is determined: tie-breaking by dictionary order never decides the holder |
| LeaseEngine.MajorityViewMeans | ha/hashburst_ha_agent.py:514-532 | The view names a holder and a term if and only if more than half of the voters report just them with time left |
| LeaseEngine.LeaseEngine.Demote | ha/hashburst_ha_agent.py:570-581 | Deadline 0, no guard file, primary mode off; the term stays |
| LeaseEngine.LeaseEngine.WriteGuard | ha/hashburst_ha_agent.py:550-562 | Only an armed candidate writes a guard, with the given term and the leader deadline |
| LeaseEngine.LeaseEngine.RenewLease | ha/hashburst_ha_agent_v220.py:224-252 | Won exactly with a quorum of matching grants and a lease, counted from the round's start, still running; state as the cluster's concluding step computes it |
| LeaseEngine.LeaseEngine.RunCampaign | ha/hashburst_ha_agent_v220.py:254-284 | The same for a campaign, which on defeat adopts the highest term heard |
| LeaseEngine.LeaseEngine.RunOnce | ha/hashburst_ha_agent.py:636-685 | One control loop equals the specified one; and in its fields: fenced off when another candidate has the majority, when a higher term was seen, when it may not ask, and when the lease is over at the end; primary mode starts only with a running lease |
| LeaseEngine.LeaseEngine.HandleLoopError | ha/hashburst_ha_agent.py:681-685 | A control loop that raises demotes the candidate if and only if its lease is over; then primary mode is off and the guard gone |
| LeasePaths.RoundCountsEveryGrant | ha/hashburst_ha_agent_v220.py:264-273 | The counter of the agent's loop equals the size of the set of granting voters collected by the cluster's round |
| LeasePaths.TripOk | ha/hashburst_ha_agent_v220.py:264-273 | Calling the voters one by one, each answering from its own state or not reached, is a path of enabled events that leaves exactly the collected replies |
| LeaseRefinement.LoopIsARun | ha/hashburst_ha_agent.py:636-685 | Every control loop whose replies are what the voters answer is a run of the cluster, with its clock and every message, that ends in the loop's leader state |
| LeaseRefinement.RunIsALoop | ha/hashburst_ha_agent.py:636-685 | Whatever the rest of the cluster does, a candidate neither restarted nor interrupted since its decision is, once idle, in the state some run of its control loop leaves |
| LeaseSafety.RunOk | ha/hashburst_ha_agent_v220.py:202-284 | The invariant (votes remembered, wins backed by a quorum, rounds ordered) holds in every reachable state |
| LeaseSafety.RunningWinIsBacked | ha/hashburst_ha_agent_v220.py:224-284 | While a guard's deadline is ahead, a quorum of voters is bound to its holder at least that long |
| LeaseSafety.LeaseExclusivity | ha/hashburst_ha_agent_v220.py:240-250 | All `set_primary` calls whose lease still runs were made by one candidate |
| LeaseSafety.GuardExclusivity | ha/hashburst_ha_agent.py:550-562 | In every run at most one candidate has a guard file whose deadline is in the future |
| LeaseSafety.GuardNamesItsOwner | ha/hashburst_ha_agent.py:550-562 | An unexpired guard names its owner and was written by one of the won rounds |
| LeaseSafety.TermIsAFencingToken | ha/hashburst_ha_agent_v220.py:254-284 | In the order of winning, terms never decrease and rise whenever the holder changes, even between overlapping rounds |
| LeaseSafety.ElectionSafety | ha/hashburst_ha_agent.py:452-477 | Over all runs, in one term at most one candidate ever has grants from a quorum |
| LeaseSafety.RunningLeaseIsSeen | ha/hashburst_ha_agent.py:504-532 | While a candidate's lease runs, no status round it gathers shows a majority for anyone else |
| LeaseSafety.MajorityDemotionIsLate | ha/hashburst_ha_agent.py:648-651 | A `majority_holder` demotion happens only after all of this candidate's guards have expired |
| LeaseFindings.LeaderDeadlineIsNotExclusive | ha/hashburst_ha_agent.py:670-674 | Concrete run: one candidate holds an unexpired guard while the leader deadline of another, set by adoption, is in the future |
| LeaseFindings.LateAdoptionKeepsPrimary | ha/hashburst_ha_agent.py:670-674 | Concrete run: a leader adopts, loses the round after the adopted deadline and is idle in primary mode with no lease |
| LeaderModes.ForeignMajorityFences | ha/hashburst_ha_agent.py:648-651 | When another candidate has the majority, the loop ends with primary mode off, no guard, no lease, and the larger term |
| LeaderModes.RunningLeaseDecides | ha/hashburst_ha_agent.py:652-660 | A running lease is renewed unless a higher term was seen, which fences the candidate off |
| LeaderModes.NoLeaseDecides | ha/hashburst_ha_agent.py:661-680 | Without a lease: not eligible or too few voters heard fences off; else its own majority is adopted; else a ready higher-priority candidate makes it stand back; else, and only then, it campaigns in the term after the largest seen |
| LeaderModes.WinLeads | ha/hashburst_ha_agent_v220.py:240-284 | A won round gives primary mode, the round's term and a lease counted from the round's start, and the guard of an armed candidate names just these |
| LeaderModes.LoopEndFencesOff | ha/hashburst_ha_agent.py:636-685 | A control loop ends in primary mode without a running lease if and only if it was in primary mode and is an adoption lost after its deadline |
| LeaderModes.PrimaryHadLeaseAtLoopEnd | ha/hashburst_ha_agent.py:636-685 | Over every run: an idle candidate in primary mode had a running lease when its last loop ended, if and only if that loop was no such adoption |
| LeaderModes.PrimaryIsEarnedInRuns | ha/hashburst_ha_agent_v220.py:240-284 | Over every run: a candidate in primary mode has won a round, and an armed one has its guard file |
| LeaderDeadlines.DeadlinesAreConfirmed | ha/hashburst_ha_agent_v220.py:240-284 | In every reachable state a leader deadline in the future, unless adopted since the last win, is the deadline of a guard its candidate won |
| LeaderDeadlines.TwoAheadMeansUnconfirmed | ha/hashburst_ha_agent.py:670-674 | Two candidates have a leader deadline in the future only if one of them has adopted and not won a round since |
| LeaderDeadlines.ExclusiveWithoutAdoption | ha/hashburst_ha_agent.py:648-680 | In a run without adoption at most one candidate has a leader deadline in the future |
| LeaderDeadlines.WinShowsUnconfirmed | ha/hashburst_ha_agent_v220.py:240-284 | Whoever still has a deadline ahead when another candidate wins a round has adopted it without confirmation |
| LeaderDeadlines.StepExclusiveIff | ha/hashburst_ha_agent.py:636-685 | From an exclusive state an event keeps the field exclusive if and only if it is neither an adoption while another is ahead nor a win while another is ahead by an unconfirmed adoption |
| LeaderDeadlines.ExclusiveExactlyIfNeverBroken | ha/hashburst_ha_agent.py:636-685 | The field is exclusive at every moment of a run if and only if the run contains no such event |
| LeaseProgress.WillingVoterGrants | ha/hashburst_ha_agent_v220.py:202-222 | A voter with no running promise to another candidate grants a campaign above its term; one still in the term with its vote for the candidate grants a renewal |
| LeaseProgress.UndisturbedRoundWins | ha/hashburst_ha_agent_v220.py:224-284 | Whatever an eligible candidate asks for, a round shorter than a lease with a willing quorum is granted by each of them and wins |
| LeaseProgress.CampaignSucceeds | ha/hashburst_ha_agent.py:636-678 | If a quorum answered and none of it is promised elsewhere, a candidate whose view names nobody and whose lease is over wins the next term |
| LeaseProgress.AdoptionSucceeds | ha/hashburst_ha_agent.py:670-674 | A candidate without a lease that finds its own majority, say after a restart, is renewed by the voters that kept its vote and holds the term again |
| LeaseProgress.RenewalSucceeds | ha/hashburst_ha_agent.py:652-660 | A leader with a running lease that has seen no higher term is renewed by the voters that kept its vote |
| ReplicationDb.OldestDue | replication/hb_replication_db.py:350-362 | The query: the `limit` longest waiting due jobs of a node, oldest first, none older left out |
| ReplicationDb.ReplicationDb.UpsertNodeRow | replication/hb_replication_v214_db.py:59-71 | Only the node's capacity class changes |
| ReplicationDb.ReplicationDb.BaseRegister | replication/hb_replication_db.py:172-242 | The v2.1.3 registration: reference counted once, source copy recorded, and nothing changed when any part is refused |
| ReplicationDb.ReplicationDb.RegisterObject | replication/hb_replication_v214_db.py:73-119 | Equal to the registration step, with every refusal rolled back |
| RegistrationEffects.AcceptedExactlyIf | replication/hb_replication_v214_db.py:73-119 | A registration is accepted if and only if it contradicts no authorised removal, its reference id is not another object's, the size agrees and the source node is known |
| RegistrationEffects.RefusedBecause | replication/hb_replication_db.py:172-242 | Which refusal is given, in the order of the checks |
| RegistrationEffects.FirstRegistration | replication/hb_replication_db.py:201-223 | The first registration stores size, n and m in their places, one reference, generation 1 |
| RegistrationEffects.FurtherRegistration | replication/hb_replication_v214_db.py:93-105 | A further one counts a new reference once, takes over a larger n or m, and starts a new generation if and only if it brings the object back or raises its policy |
| RegistrationEffects.SourceIsConfirmed | replication/hb_replication_db.py:225-238 | The source copy is wanted, pinned, verified now, of the current generation and of its class |
| RegistrationEffects.OtherCopies | replication/hb_replication_v214_db.py:97-118 | Every other copy, column by column: wanted again and renumbered on a resurrection unless it is gone, renumbered on a raised policy, else unchanged |
| RegistrationEffects.ResurrectionWantsWhatIsLeft | replication/hb_replication_v214_db.py:97-110 | After a resurrection the unwanted copies are exactly the unpinned ones, the release time is 0 and the generation one higher |
| RegistrationEffects.ResurrectionOverRuns | replication/hb_replication_v214_db.py:97-110 | The same right after such an event in every run |
| RegistrationEffects.RestOfTheRows | replication/hb_replication_v214_db.py:97-118 | The new reference is recorded as live, a new generation turns exactly the waiting jobs of the object stale, rows of other objects stay |
| ReplicationDb.ReplicationDb.ReleaseObject | replication/hb_replication_v214_db.py:121-187 | Equal to the release step, with its answers and refusals |
| RegistrationEffects.ReleaseAnswers | replication/hb_replication_v214_db.py:121-187 | What a release answers and when it is refused: not found, wrong object, unchanged, conflict, or counted with what remains |
| RegistrationEffects.PartialRelease | replication/hb_replication_v214_db.py:152-178 | With references left, the count falls by one, the reference is tombstoned, nothing else changes |
| RegistrationEffects.LastRelease | replication/hb_replication_v214_db.py:154-175 | The last release leaves no copy wanted, a new generation, and no waiting job, every other column as before |
| RegistrationEffects.LastReleaseOverRuns | replication/hb_replication_v214_db.py:154-175 | In every run, right after it: nothing wanted, nothing waiting, nothing authorised |
| ReplicationDb.ReplicationDb.CreateUnpinJob | replication/hb_replication_v214_db.py:227-268 | Equal to the planning step: a job only for the current generation, within trim capacity, not twice |
| PlanningEffects.TrimPlannedExactlyIf | replication/hb_replication_v214_db.py:227-268 | A trim is planned if and only if the copy is wanted and confirmed, more than n copies remain with all open trims done, the committable ones without it meet m, and no deletion of it is open; the job in full |
| PlanningEffects.FinalDeletionPlannedExactlyIf | replication/hb_replication_v214_db.py:227-268 | A final deletion is planned if and only if nothing refers to the object of this generation and none is open; the job in full |
| Answers.UnpinAnswers | replication/hb_replication_v214_db.py:227-268 | The answer names the one job added, or is None exactly if none may be, or the error of a missing node |
| ReplicationDb.ReplicationDb.AuthorizeUnpin | replication/hb_replication_v214_db.py:270-298 | Equal to the authorisation step; yes only for a waiting job under just the lease given and of the object's generation, which is authorised afterwards; on no the job is stale |
| UnpinAuthorization.RequestChangesOneState | replication/hb_replication_v214_db.py:270-298 | A request changes the state of the job it names, to authorised or stale, and nothing else |
| UnpinAuthorization.AuthorizedOnlyUnderItsLease | replication/hb_replication_v214_db.py:282-293 | Asked for under another lease, in another state or of another generation, the job turns stale |
| UnpinAuthorization.FinalAuthorizedExactlyIf | replication/hb_replication_v214_db.py:282-298 | A final deletion asked for under its lease is authorised if and only if the object has no reference |
| UnpinAuthorization.TrimAuthorizedExactlyIf | replication/hb_replication_v214_db.py:192-225 | In a database with one deletion per copy, a trim asked for under its lease is authorised if and only if the copies left, less those lost since their own authorisation, meet n and m |
| UnpinAuthorization.RunOneUnpinEach | replication/hb_replication_v214_db.py:252-258 | In every reachable database a copy has at most one deletion waiting or authorised |
| UnpinAuthorization.CalmTrimAuthorizedExactlyIf | replication/hb_replication_v214_db.py:192-298 | In every run without replica failures: authorised if and only if the copies left still number n and the committable ones m, so going down to exactly these is allowed |
| UnpinAuthorization.AuthorizedUnderLastLease | replication/hb_replication_v214_db.py:282 | Over steady runs an UNPIN asked for under a lease is authorised only under the last one it was handed out with |
| UnpinAuthorization.EarlierLeaseTurnsStale | replication/hb_replication_v214_db.py:282-293 | Over steady runs a request under the lease of an earlier delivery turns the job stale |
| ReplicationDb.ReplicationDb.CreatePinAssignment | replication/hb_replication_db.py:299-331 | Equal to the assignment step; a job results exactly if the copy is not assigned yet and no PIN of the generation waits, and an unknown object or node is refused |
| PlanningEffects.PinPlannedExactlyIf | replication/hb_replication_db.py:299-331 | A copy is assigned if and only if it is not under way: wanted, current, verified as before, with a job unless one waits |
| Answers.PinAnswers | replication/hb_replication_db.py:299-331 | The answer names the job added, or is None exactly if the copy is under way or a job waits |
| ReplicationDb.ReplicationDb.CreateVerifyJob | replication/hb_replication_db.py:333-348 | Equal to the verify planning step, with the caller's generation; a job results exactly if no VERIFY of the copy waits |
| PlanningEffects.VerifyPlannedExactlyIf | replication/hb_replication_db.py:333-348 | A check is planned, under the caller's generation, if and only if none of the copy waits |
| ReplicationDb.ReplicationDb.MarkReplicaState | replication/hb_replication_db.py:442-451 | Only the state of one copy changes |
| ReplicationDb.ReplicationDb.LeaseDue | replication/hb_replication_db.py:350-376 | The loop leases exactly the jobs it returns, all due, oldest first |
| ReplicationDb.ReplicationDb.PendingJobs | replication/hb_replication_v214_db.py:300-305 | Leases the oldest due jobs and returns, in that order, exactly the allowed ones; the others stay leased |
| PlanningEffects.DueMeans | replication/hb_replication_db.py:361-366 | A job may be handed out exactly to its node, while it waits, after its time, and when no lease of it runs |
| PlanningEffects.LeaseHoldsTwoMinutes | replication/hb_replication_db.py:358-372 | A job handed out is not due for 120 seconds, and then it is |
| PlanningEffects.FailureHoldsForThePause | replication/hb_replication_db.py:425-433 | A job that failed is not due before its pause of the table is over, and then it is |
| Answers.AllowedInOrder | replication/hb_replication_v214_db.py:300-305 | A poll returns exactly the allowed ones of the leased jobs, oldest first, each once |
| ReplicationDb.ReplicationDb.ApplyJobReport | replication/hb_replication_v214_db.py:307-351 | Verdict and new rows equal the report step for every operation |
| ReplicationDb.ReplicationDb.ReportPin | replication/hb_replication_db.py:378-440 | The same for PIN and VERIFY jobs |
| ReplicationDb.ReplicationDb.ReportUnpin | replication/hb_replication_v214_db.py:307-351 | The same for UNPIN jobs |
| ReplicationDb.ReplicationDb.ReportUnpinVerify | replication/hb_replication_v214_recovery.py:56-100 | The same for UNPIN_VERIFY jobs |
| ReportEffects.CopyReportApplied | replication/hb_replication_db.py:386-439 | PIN and VERIFY: fenced exactly for an old generation; applied if and only if current, under the job's lease and no repetition; invalid exactly for another word |
| ReportEffects.RemovalReportApplied | replication/hb_replication_v214_db.py:307-351 | UNPIN: fenced exactly against the lifecycle; applied if and only if authorised under its lease |
| ReportEffects.QuestionReportApplied | replication/hb_replication_v214_recovery.py:56-100 | UNPIN_VERIFY: fenced exactly unless released in this generation; applied if and only if under its lease |
| ReportEffects.AppliedReportTouchesOne | replication/hb_replication_db.py:414-437 | An applied report changes the row of its job and of its copy only, ends the lease, and keeps what they are about |
| ReportEffects.SuccessConfirmsCopy | replication/hb_replication_db.py:414-424 | A success pins the copy, verified now, finishes the job, and adds the node to the confirmed ones if the copy is wanted |
| ReportEffects.FailureIsRetried | replication/hb_replication_db.py:425-433 | A failure is one attempt more and a retry after 30, 60, 120, 300, 900, then 1800 seconds |
| ReportEffects.FailureOfCopy | replication/hb_replication_db.py:425-437 | A failed PIN or VERIFY marks the copy failed; a failed removal or question leaves it as it was |
| ReportEffects.RemovalIsRecorded | replication/hb_replication_v214_db.py:332-340 | A removal reported done leaves the copy unpinned, unwanted and not counted |
| ReportEffects.SurvivalIsRecorded | replication/hb_replication_v214_recovery.py:82-87 | The answer that the copy is still there leaves it pinned, verified now and unwanted |
| ReplicationDb.ReplicationDb.RecoverV214 | replication/hb_replication_v214_recovery.py:31-54 | Equal to the recovery step over all authorised UNPIN jobs |
| RecoveryEffects.RecoverAllQuestions | replication/hb_replication_v214_recovery.py:31-54 | Recovering listed jobs: each turns stale and a question about its copy waits; what is added is a fresh question about such a copy, none twice, none where one waited |
| RecoveryEffects.RecoveryAsksAboutEveryCopy | replication/hb_replication_v214_recovery.py:31-54 | In every run, right after recovery: the same for every UNPIN that was authorised, and nothing is authorised any more |
| LifecycleSafety.NextOk | replication/hb_replication_v214_db.py:73-351 | Every database step keeps the invariant on objects, copies and jobs |
| LifecycleSafety.RunOk | replication/hb_replication_v214_db.py:73-351 | The invariant holds in every reachable database |
| LifecycleSafety.RecoverAllOk | replication/hb_replication_v214_recovery.py:31-54 | Recovery makes exactly the listed jobs stale, adds only questions and touches nothing else |
| LifecycleSafety.RegisterMoves | replication/hb_replication_v214_db.py:76-119 | What an accepted registration may change, and that it counts a reference exactly when its id is new |
| LifecycleSafety.ReleaseMoves | replication/hb_replication_v214_db.py:125-187 | What a counted release may change; while an UNPIN is authorised it only lowers the count |
| LifecycleTheorems.AuthorizedUnpinMatchesLifecycle | replication/hb_replication_v214_db.py:270-298 | In every reachable state an authorised UNPIN is of the current generation, and a trim exactly if the object is referenced |
| LifecycleTheorems.LiveRowsAreCurrent | replication/hb_replication_v214_db.py:97-118 | Every live job other than VERIFY and every desired copy carries the current generation |
| LifecycleTheorems.VerifyBornCurrentIff | replication/hb_replication_db.py:333-348 | A VERIFY job is born current exactly if the caller's generation still is the object's |
| LifecycleTheorems.VerifyRowsAreCurrent | replication/hb_replication_db.py:333-348 | If all VERIFY jobs are born current, all live ones are current in every reachable state |
| LifecycleTheorems.OldReportsChangeNoCopy | replication/hb_replication_db.py:386-392 | A report of a job of another generation changes no copy and no object, and leaves the job stale |
| LifecycleTheorems.RunGrows | replication/hb_replication_v214_db.py:73-187 | Over any continuation of a run: no row is deleted, generations never fall, tombstones stay, jobs keep their identity |
| LifecycleTheorems.DeadForever | replication/hb_replication_v214_db.py:307-351 | Under reports that carry a lease, a done or stale job never becomes live again |
| LifecycleTheorems.RefcountIsLiveReferences | replication/hb_replication_v214_db.py:121-186 | When every registration and release names a reference, the refcount is the number of references not tombstoned |
| LifecycleTheorems.RegisterTwiceCountsOnce | replication/hb_replication_db.py:183-208 | A known reference id counts nothing at any later time, whatever the arguments |
| LifecycleTheorems.ReleaseTwiceCountsOnce | replication/hb_replication_v214_db.py:134-150 | Releasing a tombstoned reference at any later time changes nothing |
| LifecycleFindings.StaleVerifyIsReachable | replication/hb_replication_db.py:333-348 | Concrete run to a database with a live VERIFY of an old generation |
| LifecycleFindings.UndeliveredAuthorizationIsReachable | replication/hb_replication_v214_db.py:270-298 | Concrete run to an authorised UNPIN that was never handed out |
| LifecycleFindings.LostRivalBlocksTrim | replication/hb_replication_v214_db.py:192-225 | Concrete run to a trim that is refused although the copies left without it meet the policy |
| UnpinReports.CountsIffAuthorized | replication/hb_replication_v214_db.py:307-351 | In every reachable database the report of a removal is applied exactly while the UNPIN is authorised under the lease it carries, for its node |
| UnpinReports.ReportCountsIffNotEnded | replication/hb_replication_v214_db.py:270-351 | For an authorised UNPIN of a reachable database and any event, its report still counts afterwards if and only if the event neither asks again, nor recovers, nor is an applied report of it |
| UnpinReports.ReportCountsExactlyUntilEnded | replication/hb_replication_v214_db.py:270-351 | For an UNPIN authorised under the lease it was handed out with: after any continuation with a steady clock the report counts if and only if none of these happened |
| UnpinReports.UndeliveredUnpinCountsAgain | replication/hb_replication_v214_db.py:283-296 | Under lease 0 a final deletion can fail, be authorised again and its report count again |
| UnpinReports.AuthorizingTwiceDiscardsTheReport | replication/hb_replication_v214_db.py:281-292 | After a second authorisation request the UNPIN is over for good: in every continuation no report of it changes any copy |
| TrimFloors.AuthorizedTrimIsSafe | replication/hb_replication_v214_db.py:192-225 | The capacity check is enough: after the authorisation the copies no authorised trim names meet both floors |
| TrimFloors.TrimFloorsHold | replication/hb_replication_v214_db.py:192-298 | In any run without replica failures, while a trim of an object is authorised, the spared copies meet `replication_n` and `committable_m` |
| TrimFloors.TrimLeavesTheFloors | replication/hb_replication_v214_db.py:307-351 | In such a run, when a trim is reported done the copy is gone and the copies that remain still meet both floors |
| TrimFloors.FloorsPersist | replication/hb_replication_v214_db.py:73-351 | From then on the floors hold in every continuation until the policy changes, the last reference goes or a copy fails |
| Delivery.LeasesIncrease | replication/hb_replication_db.py:350-376 | With a clock that never goes back, the leases handed out for one job strictly increase |
| Delivery.EachDeliveryCountsOnce | replication/hb_replication_db.py:392-438 | The leases of the applied reports of one job strictly increase, so no delivery is applied twice |
| Delivery.EarlierDeliveryIgnored | replication/hb_replication_v214_db.py:330-348 | After a new delivery, no report of an earlier one is applied |
| Delivery.AttemptsNeverExceedDeliveries | replication/hb_replication_db.py:420-438 | `attempts` never exceeds the number of deliveries, one less while a delivery is under way |
| TrimLoop.GreedyKeepsFloors | replication/hb_replication_controller_v214.py:134-148 | The loop schedules at most the surplus and stops at the committable floor unless it touched no committable copy |
| TrimLoop.GreedyFinishes | replication/hb_replication_controller_v214.py:134-148 | It ends with the surplus scheduled or every candidate scheduled or blocked |
| Planning.TrimPlanKeepsFloors | replication/hb_replication_controller_v214.py:111-148 | If any trim is planned, the copies outside active trims number at least `replication_n`, the committable ones at least `committable_m` or are unchanged |
| Planning.TrimPlanIsIdempotent | replication/hb_replication_controller_v214.py:111-148 | A second planning pass at once creates nothing, whatever the order of its candidates |
| Planning.TrimPlanIgnoresRowOrder | replication/hb_replication_controller_v214.py:129-133 | The sort key leaves no ties, so the plan does not depend on the order of the rows read |
| FinalPlanning.FinalPlanCoversEveryCopy | replication/hb_replication_controller_v214.py:96-109 | After the pass every copy not known to be gone has a deletion of the current generation, none twice, none due before the grace period ends, and nothing else changed |
| FinalPlanning.FinalPlanIsIdempotent | replication/hb_replication_controller_v214.py:96-109 | A second pass plans nothing |
| Controller.Controller.Assignments | replication/hb_replication_controller_v214.py:68-85 | Hands out the allowed ones of the leased jobs; unless mode is full and UNPIN enabled, no UNPIN is among them; in observe mode nothing is leased |
| Controller.Controller.AuthorizeUnpin | replication/hb_replication_controller_v214.py:87-94 | Yes exactly if switched on and the job is a waiting, current, safe UNPIN of the node under the exact lease; switched off, nothing changes |
| Controller.Controller.PlanFinalRelease | replication/hb_replication_controller_v214.py:96-109 | The loop equals the planned pass, and plans nothing before the grace period ends |
| Controller.Controller.PlanTrim | replication/hb_replication_controller_v214.py:111-148 | The method equals the greedy pass over the spare copies in sorted order |
| Controller.Controller.TrimSurplus | replication/hb_replication_controller_v214.py:134-148 | The loop with its `remove` and `comm_after_active` counters equals the greedy function |
| PlanningRuns.TrimPassIsSafeRun | replication/hb_replication_controller_v214.py:111-148 | A trim pass from a reachable database is a run of planning steps, and keeps the floors if it plans anything |
| PlanningRuns.FinalPassIsSafeRun | replication/hb_replication_controller_v214.py:96-109 | A final-release pass is a run too: it does nothing to a referenced object or before the grace period ends, and afterwards leaves every remaining copy with a deletion |
| TrimExactly.TrimPassIsExact | replication/hb_replication_controller_v214.py:111-148 | In every reachable database a trim pass adds trims of spare copies and nothing else; their number is exactly what surplus and committable floor allow, and they go in the sort order wherever the floor does not protect a copy |
| FinalExactly.FinalPassIsExact | replication/hb_replication_controller_v214.py:96-109 | In every reachable database a final pass adds, after the grace period and not before, a deletion for exactly the remaining copies that had none, each job in full |
| Picking.PopPreferred | replication/hb_replication_policy.py:101-105 | Removes the first element of a new domain, or else the first |
| Picking.TakeLoop | replication/hb_replication_policy.py:162-171 | The committable loop equals the recursive choice and keeps the remaining need |
| Picking.FillLoop | replication/hb_replication_policy.py:176-189 | The loop of the second phase equals the recursive choice that passes over excluded nodes |
| Picking.FillIsTake | replication/hb_replication_policy.py:182-184 | For nodes of distinct ids the check against earlier choices never strikes |
| Picking.TakeIsDiverse | replication/hb_replication_policy.py:101-105 | The picks cover as many new domains as there are picks, or all of the pool's |
| Picking.NoChoiceIsMoreDiverse | replication/hb_replication_policy.py:162-171 | No other choice of as many elements covers more new domains |
| Picking.TakeKeepsBest | replication/hb_replication_policy.py:101-105 | Nothing left behind outranks a pick, unless its domain was covered by another copy |
| Placement.ChoosePlacements | replication/hb_replication_policy.py:108-192 | The imperative choice equals the specified one, invalid policies included |
| PlacementTheorems.PoolLists | replication/hb_replication_policy.py:135-157 | A sorted pool lists exactly the eligible nodes of its class that hold no copy, each once |
| PlacementTheorems.PlacementIsExact | replication/hb_replication_policy.py:108-192 | Picks are distinct, eligible and new; their number and the committable ones among them are exact; the less preferred class is used only when the other is used up |
| PlacementTheorems.RequiredCopiesAreDiverse | replication/hb_replication_policy.py:162-171 | The committable phase covers min(k, unoccupied domains on offer) new failure domains, and no other k eligible committable nodes cover more |
| PlacementTheorems.RequiredCopiesAreBest | replication/hb_replication_policy.py:74-105 | No committable node left out scores above a chosen one unless its domain got a copy some other way |
| PlacementTheorems.PlacementIgnoresInputOrder | replication/hb_replication_policy.py:135-192 | With distinct ids and distinct tiebreaks any permutation of the nodes gives the same picks in the same order |
| PlacementEffects.CandidatesAreUsable | replication/hb_replication_policy.py:66-99 | A candidate is exactly an enabled, online node of its class without a copy, with room for the object after used, reserved and spare bytes |
| PlacementEffects.ChoiceMeans | replication/hb_replication_policy.py:108-192 | The whole answer in the columns of request and nodes: accepted exactly for 1 <= n and 0 <= m <= n; how many, which first, all different, and when the other class is used |
| PlacementEffects.PolicyRefused | replication/hb_replication_policy.py:34-40 | Which policy is refused for which reason |
| PlacementEffects.DomainMeans | replication/hb_replication_policy.py:48-63 | The failure domain is what the operator says, else provider, region and rack as far as known, joined by slashes, else the node itself |
| PlacementEffects.NamelessAreApart | replication/hb_replication_policy.py:51-53 | Nodes without metadata never share a failure domain |
| PlacementEffects.RankMeans | replication/hb_replication_policy.py:74-88 | A node ranks first by free share in whole millionths, then stability, failures, load and hash |
| PlacementEffects.EveryPartServes | replication/hb_replication_policy.py:159-191 | Required, preferred and other picks each cover as many failure domains as possible beyond the object's and the earlier picks', and leave nothing out that ranks higher in the same or an uncovered domain |
| ReplayCache.ReplayCache.EvictExpired | tep/hb_tep_app.py:345-351 | The eviction loop equals the specified eviction |
| ReplayCache.ReplayCache.CheckAndAdd | tep/hb_tep_app.py:353-366 | Answer and entries equal the specified cache step, malformed arguments included |
| ReplayCache.ReplayCache.Len | tep/hb_tep_app.py:368-371 | Evicts and counts what is left |
| ReplayCache.ReplayCache.ClearAll | tep/hb_tep_app.py:373-375 | Forgets every entry |
| ReplayCache.NewCache | tep/hb_tep_app.py:332-343 | A cache is made exactly for a positive window and room for at least one entry |
| ReplayCache.CacheAgreesWithHistory | tep/hb_tep_app.py:325-375 | Over every run with a clock that never goes back, the cache answers each call as a search of everything accepted would, within its bound |
| ReplayCache.RememberedMeans | tep/hb_tep_app.py:345-366 | That search: among the last `max_entries` accepted and accepted less than `window_sec` ago |
| ReplayCache.CheckMeans | tep/hb_tep_app.py:353-366 | After every such run a check is answered: blank peer, malformed id, replay if and only if one of the last `max_entries` accepted requests is the same and younger than the window, else accepted |
| ReplayCache.LengthMeans | tep/hb_tep_app.py:368-371 | After every such run the length is the number of the last `max_entries` accepted requests that are younger than the window |
| ReplayCache.IdIsLowerHexUnlessBlank | tep/hb_tep_app.py:78-85 | Without blanks, the accepted request ids are exactly the 128-bit lowercase hex numbers |
| ReplayCache.BlanksAreAccepted | tep/hb_tep_app.py:78-85 | A request id with blanks that holds 88 bits is accepted |

## Left out

- Servers, sockets, systemd, files, SQL text, logging, argument parsing: plumbing; only the state each call changes is kept.
- Cryptography and TEP transport: source identities are taken as authentic, and a reply belongs to its own request; requests may arrive late or repeatedly and replies may be lost.
- Eligibility, Monero and readiness checks: each is an arbitrary boolean per control loop.
- Watchdog polling and the duration of service starts and stops: the guard file is the interface.
- Unequal lease lengths or voter lists between nodes, drift between clocks, failed writes of the vote state: not modelled; time is one integer clock in milliseconds.
- Status responses and replies with malformed or missing fields: a voter is assumed to run this program.
- Interleaving of threads inside one voter handler or one database method: each is one step; `register_object`, which uses two transactions, is one step too.
- Planning passes: each is one step and reads the clock once; the rows it snapshots do not change under it.
- ReplicationDb.ReplicationDb.UpsertNodeRow: of a node's row only the capacity class is kept; its address and failure-domain columns play no part in the lifecycle.
- ReplicationDb.ReplicationDb.MarkReplicaState: the failure time and the error text that the update also writes are not kept.
- LeaseEngine.LeaseEngine.RunOnce: describes a loop that does not raise; `HandleLoopError` is the handler, and a failure between setting the deadline and writing the guard is not modelled.
- TrimFloors.TrimFloorsHold: rows only; the physical pin of a crashed trim may be gone while its row stays `pinned`.
- LifecycleTheorems.DeadForever: reports without a lease, a legacy path, may revive a job and are excluded.
- LifecycleTheorems.RefcountIsLiveReferences: registrations and releases without a reference id, a legacy path, are excluded.
- Identifiers are numbers in the lifecycle model, and a fresh number stands for a random job id, which is never drawn twice.
- Health state, capacity accounting, timestamps for audits, and error texts of rows: no step reads them.
- `reconcile_cid`, `_classify_observed_replicas`, `_confirmed_counts` of the base controller: which steps they choose is left open; every choice is covered, because the theorems hold for arbitrary sequences of steps.
- A limit on over-assignment: `reconcile_cid` deliberately assigns more copies than `replication_n` while assignments are unconfirmed.
- Placement scores use floor division where the source divides floats, and the hash of the tiebreak is an arbitrary function; metadata fields are taken as already stripped.
- The storage aggregator, HB-Files, the registry, the panel, the explorer patch and the accelerator, and the copies under `baseline/`, `patched/` and `staging/`, are not modelled.
