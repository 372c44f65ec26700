/** What holds in every state of every run of the scheduler. */
module SchedulerSafety {
  import opened Domain
  import opened Scheduler
  import opened Outbox
  import opened Store
  import opened StoreInvariant
  import opened StoreSteps
  import opened StoreTransactions
  import opened StoreHistory
  import opened SchedulerRuns
  import OutboxRuns

  // ---------------------------------------------------------------- every step advances the store

  lemma RegisterAdvances(s: Store, step: Step, now: Instant)
    requires Inv(s) && step.Register?
    ensures Advances(s, WorkerStore(s, step, now), now)
  {
    var created := CreateSession(step.workerId, step.sessionId, step.capabilities, now, step.ttl);
    if created.Ok? {
      RegisterChange(s, created.value);
      RefreshAdvances(s, RegisterWorker(s, created.value), now);
    } else {
      StayingAdvances(s, now);
    }
  }

  /** A change that either extends leases or is no change. */
  lemma RefreshOrStay(s: Store, s': Store, now: Instant)
    requires Inv(s) && (Refreshes(s, s') || s' == s)
    ensures Advances(s, s', now)
  {
    if Refreshes(s, s') {
      RefreshAdvances(s, s', now);
    } else {
      StayingAdvances(s, now);
    }
  }

  lemma HeartbeatAdvances(s: Store, w: Id, ses: Id, ttl: int, now: Instant)
    requires Inv(s)
    ensures Advances(s, HeartbeatWorker(s, w, ses, now, ttl).store, now)
  {
    HeartbeatChange(s, w, ses, now, ttl);
    RefreshOrStay(s, HeartbeatWorker(s, w, ses, now, ttl).store, now);
  }

  lemma RenewAdvances(s: Store, id: Id, w: Id, ses: Id, token: int, lease: int, now: Instant)
    requires Inv(s)
    ensures Advances(s, RenewClaim(s, id, w, ses, token, now, lease).store, now)
  {
    RenewClaimChange(s, id, w, ses, token, now, lease);
    RefreshOrStay(s, RenewClaim(s, id, w, ses, token, now, lease).store, now);
  }

  /** A grant, or no change. */
  lemma OpenOrStay(s: Store, t: Txn<Option<TaskClaim>>, now: Instant)
    requires Inv(s)
    requires
      if t.result.Ok? && t.result.value.Some? then
        Opens(s, t.store, t.result.value.value) && t.result.value.value.acquiredAt == now
      else t.store == s
    ensures Advances(s, t.store, now)
  {
    if t.result.Ok? && t.result.value.Some? {
      OpenAdvances(s, t.store, t.result.value.value, now);
    } else {
      StayingAdvances(s, now);
    }
  }

  lemma ClaimAdvances(s: Store, key: TaskKey, w: Id, ses: Id, agent: Id, id: Id, lease: int, now: Instant)
    requires Inv(s)
    ensures Advances(s, ClaimTask(s, key, w, ses, agent, id, now, lease).store, now)
  {
    ClaimTaskChange(s, key, w, ses, agent, id, now, lease);
    OpenOrStay(s, ClaimTask(s, key, w, ses, agent, id, now, lease), now);
  }

  lemma ClaimNextAdvances(s: Store, w: Id, ses: Id, assignments: map<Id, Id>, id: Id, lease: int, now: Instant)
    requires Inv(s)
    ensures Advances(s, ClaimNextTask(s, w, ses, assignments, id, now, lease).store, now)
  {
    ClaimNextTaskChange(s, w, ses, assignments, id, now, lease);
    OpenOrStay(s, ClaimNextTask(s, w, ses, assignments, id, now, lease), now);
  }

  lemma ReleaseAdvances(s: Store, id: Id, w: Id, ses: Id, token: int, now: Instant)
    requires Inv(s)
    ensures Advances(s, ReleaseClaim(s, id, w, ses, token, now).store, now)
  {
    var t := ReleaseClaim(s, id, w, ses, token, now);
    ReleaseEnds(s, id, w, ses, token, now);
    if t.result.Ok? {
      EndsAdvance(s, t.store, {id}, now);
    } else {
      StayingAdvances(s, now);
    }
  }

  lemma ReleaseEnds(s: Store, claimId: Id, workerId: Id, sessionId: Id, token: int, now: Instant)
    requires RowsKeyed(s) && Owned(s)
    ensures
      var t := ReleaseClaim(s, claimId, workerId, sessionId, token, now);
      if t.result.Ok? then Ends(s, t.store, {claimId}) && EndedAt(t.store, {claimId}, now) else t.store == s
  {
    ReleaseClaimChange(s, claimId, workerId, sessionId, token, now);
    var t := ReleaseClaim(s, claimId, workerId, sessionId, token, now);
    if t.result.Ok? {
      assert t.store.claims[claimId] == t.result.value;
    }
  }

  lemma PauseOrStay(s: Store, claim: TaskClaim, approval: Approval, now: Instant)
    requires Inv(s)
    ensures Advances(s, PauseClaim(s, claim, approval, now).store, now)
  {
    if PauseClaim(s, claim, approval, now).result.Ok? {
      PauseAdvances(s, claim, approval, now);
    } else {
      PauseClaimChange(s, claim, approval, now);
      StayingAdvances(s, now);
    }
  }

  lemma WorkerStepAdvances(s: Store, step: Step, now: Instant)
    requires Inv(s) && ByWorker(step)
    ensures Advances(s, WorkerStore(s, step, now), now)
  {
    match step
    case Register(_, _, _, _) => RegisterAdvances(s, step, now);
    case Heartbeat(w, ses, ttl) => HeartbeatAdvances(s, w, ses, ttl, now);
    case Claim(key, w, ses, agent, id, lease) => ClaimAdvances(s, key, w, ses, agent, id, lease, now);
    case ClaimNext(w, ses, assignments, id, lease) => ClaimNextAdvances(s, w, ses, assignments, id, lease, now);
    case Renew(id, w, ses, token, lease) => RenewAdvances(s, id, w, ses, token, lease, now);
    case Release(id, w, ses, token) => ReleaseAdvances(s, id, w, ses, token, now);
    case Pause(claim, approval) => PauseOrStay(s, claim, approval, now);
  }

  lemma ReapAdvances(s: Store, remote: map<TaskKey, RemoteState>, now: Instant)
    requires Inv(s)
    ensures Advances(s, ReapExpired(s, now, remote).store, now)
  {
    ReapEnds(s, now, remote);
    EndsAdvance(s, ReapExpired(s, now, remote).store, ExpiredClaims(s, now), now);
  }

  lemma ReapEnds(s: Store, now: Instant, remote: map<TaskKey, RemoteState>)
    requires RowsKeyed(s) && Owned(s) && Leased(s)
    ensures Ends(s, ReapExpired(s, now, remote).store, ExpiredClaims(s, now))
    ensures EndedAt(ReapExpired(s, now, remote).store, ExpiredClaims(s, now), now)
  {
    ReapChange(s, now, remote);
  }

  lemma ResolveAdvances(s: Store, id: Id, approved: bool, now: Instant)
    requires Inv(s)
    ensures Advances(s, ResolveApproval(s, id, approved).store, now)
  {
    ResolveApprovalChange(s, id, approved);
    var t := ResolveApproval(s, id, approved);
    if t.result.Ok? {
      GoalMoveAdvances(s, t.store, t.result.value.key.goal, if approved then Active else GoalFailed, now);
    } else {
      StayingAdvances(s, now);
    }
  }

  lemma MoveGoalAdvances(s: Store, goal: Id, status: GoalStatus, now: Instant)
    requires Inv(s) && !status.GoalSucceeded? && !status.GoalBlocked?
    requires status.Active? || status.Paused? ==> HasTasks(s, goal)
    ensures Advances(s, MoveGoal(s, goal, status), now)
  {
    var s' := MoveGoal(s, goal, status);
    if goal in s.goals && TransitionGoal(s.goals[goal], status).Ok? {
      GoalMoveAdvances(s, s', goal, status, now);
    } else {
      StayingAdvances(s, now);
    }
  }

  lemma CreateGoalAdvances(s: Store, goal: Id, now: Instant)
    requires Inv(s)
    ensures Advances(s, CreateGoal(s, goal), now)
  {
    if goal in s.goals {
      StayingAdvances(s, now);
    } else {
      NewGoalAdvances(s, goal, now);
    }
  }

  lemma AbandonAdvances(s: Store, goal: Id, now: Instant)
    requires Inv(s)
    ensures Advances(s, AbandonGoal(s, goal), now)
  {
    if goal in s.goals && s.goals[goal].Planning? {
      MoveGoalAdvances(s, goal, GoalFailed, now);
    } else {
      StayingAdvances(s, now);
    }
  }

  lemma LaunchAdvances(s: Store, goal: Id, now: Instant)
    requires Inv(s)
    ensures Advances(s, LaunchGoal(s, goal), now)
  {
    if goal in s.goals && s.goals[goal].Planning? && HasTasks(s, goal) {
      MoveGoalAdvances(s, goal, Active, now);
    } else {
      StayingAdvances(s, now);
    }
  }

  lemma StorePlanAdvances(s: Store, goal: Id, tasks: seq<Task>, now: Instant)
    requires Inv(s)
    ensures Advances(s, StorePlan(s, goal, tasks), now)
  {
    if Admissible(s, goal, tasks) {
      AdmitAdvances(s, goal, tasks, now);
    } else {
      StayingAdvances(s, now);
    }
  }

  lemma PlannerStepAdvances(s: Store, step: Step, now: Instant)
    requires Inv(s) && ByPlanner(step)
    ensures Advances(s, PlannerStore(s, step), now)
  {
    match step
    case NewGoal(g) => CreateGoalAdvances(s, g, now);
    case BeginPlanning(g) => MoveGoalAdvances(s, g, Planning, now);
    case AbandonPlanning(g) => AbandonAdvances(s, g, now);
    case AdmitPlan(g, tasks) => StorePlanAdvances(s, g, tasks, now);
    case StartGoal(g) => LaunchAdvances(s, g, now);
  }

  lemma RequestAdvances(s: Store, approval: Approval, now: Instant)
    requires Inv(s)
    ensures Advances(s, SaveApproval(s, approval).store, now)
  {
    RequestMoves(s, approval);
    SideTablesAdvance(s, SaveApproval(s, approval).store, now);
  }

  lemma RequestMoves(s: Store, approval: Approval)
    ensures SideTablesMove(s, SaveApproval(s, approval).store) && SaveApproval(s, approval).store.outbox == s.outbox
  {
  }

  lemma DispatchAdvances(s: Store, change: OutboxRuns.Step, after: Table, now: Instant)
    requires Inv(s)
    ensures Advances(s, Dispatched(s, change, after), now)
  {
    if OutboxRuns.Changes(s.outbox, after, change) {
      OutboxRuns.ChangesKeepKeys(s.outbox, after, change);
    }
    SideTablesAdvance(s, Dispatched(s, change, after), now);
  }

  lemma OperatorStepAdvances(s: Store, step: Step, now: Instant)
    requires Inv(s) && !ByWorker(step) && !ByPlanner(step) && !step.Commit?
    ensures Advances(s, OperatorStore(s, step, now), now)
  {
    match step
    case Resolve(id, approved) => ResolveAdvances(s, id, approved, now);
    case Request(approval) => RequestAdvances(s, approval, now);
    case Reap(remote) => ReapAdvances(s, remote, now);
    case Dispatch(change, after) => DispatchAdvances(s, change, after, now);
    case CountReviews(_) => StayingAdvances(s, now);
    case Crash(_) => StayingAdvances(s, now);
  }

  lemma CommitStepAdvances(sys: System, step: Step, now: Instant)
    requires SystemInv(sys) && step.Commit?
    ensures Advances(sys.store, SubmittedStore(sys, step, now), now)
  {
    var s := sys.store;
    if step.claimId in sys.flights && sys.flights[step.claimId].attemptNo.Some? {
      var f := sys.flights[step.claimId];
      assert FlightOk(s, step.claimId, f);
      SubmissionAdvances(s, f, step, now);
    } else {
      StayingAdvances(s, now);
    }
  }

  lemma SubmissionAdvances(s: Store, f: Flight, step: Step, now: Instant)
    requires Inv(s) && step.Commit? && f.attemptNo.Some? && FlightOk(s, step.claimId, f)
    ensures Advances(s, CommitOutcome(s, f.claim, SubmissionOf(f, step), now).store, now)
  {
    if CommitOutcome(s, f.claim, SubmissionOf(f, step), now).result.Ok? {
      FlightSubmits(s, f, step, now);
      CommitAdvances(s, f.claim, SubmissionOf(f, step), now);
    } else {
      CommitChange(s, f.claim, SubmissionOf(f, step), now);
      StayingAdvances(s, now);
    }
  }

  /** Every step of every kind keeps the invariant, rewrites no history and
      disturbs no holder. */
  lemma StepAdvances(sys: System, step: Step, now: Instant)
    requires SystemInv(sys)
    ensures Advances(sys.store, StoreAfter(sys, step, now), now)
  {
    if step.Commit? {
      CommitStepAdvances(sys, step, now);
    } else if ByWorker(step) {
      WorkerStepAdvances(sys.store, step, now);
    } else if ByPlanner(step) {
      PlannerStepAdvances(sys.store, step, now);
    } else {
      OperatorStepAdvances(sys.store, step, now);
    }
  }

  // ---------------------------------------------------------------- workers stay exact

  lemma NewFlightOk(s: Store, s': Store, claim: TaskClaim)
    requires RowsKeyed(s) && Opens(s, s', claim)
    ensures FlightOk(s', claim.claimId, Flight(claim, s'.tasks[claim.key], None))
  {
  }

  /** Discovery either leaves the workers alone or adds one exact flight. */
  lemma DiscoveryKeepsFlights(sys: System, step: Step, now: Instant)
    requires RowsKeyed(sys.store) && step.ClaimNext? && FlightsOk(StoreAfter(sys, step, now), sys.flights)
    ensures FlightsOk(StoreAfter(sys, step, now), FlightsAfter(sys, step, now))
  {
    var s := sys.store;
    ClaimNextTaskChange(s, step.workerId, step.sessionId, step.assignments, step.claimId, now, step.lease);
    var t := ClaimNextTask(s, step.workerId, step.sessionId, step.assignments, step.claimId, now, step.lease);
    if t.result.Ok? && t.result.value.Some? {
      NewFlightOk(s, t.store, t.result.value.value);
    }
  }

  lemma CountingKeepsFlights(sys: System, step: Step, now: Instant)
    requires step.CountReviews? && FlightsOk(StoreAfter(sys, step, now), sys.flights)
    ensures FlightsOk(StoreAfter(sys, step, now), FlightsAfter(sys, step, now))
  {
    if step.claimId in sys.flights {
      assert FlightOk(sys.store, step.claimId, sys.flights[step.claimId]);
    }
  }

  lemma OtherStepsKeepFlights(sys: System, step: Step, now: Instant)
    requires !step.ClaimNext? && !step.CountReviews? && FlightsOk(StoreAfter(sys, step, now), sys.flights)
    ensures FlightsOk(StoreAfter(sys, step, now), FlightsAfter(sys, step, now))
  {
    forall id | id in FlightsAfter(sys, step, now)
      ensures FlightOk(StoreAfter(sys, step, now), id, FlightsAfter(sys, step, now)[id])
    {
      assert FlightOk(StoreAfter(sys, step, now), id, sys.flights[id]);
    }
  }

  lemma FlightsStayOk(sys: System, step: Step, now: Instant)
    requires RowsKeyed(sys.store) && FlightsOk(StoreAfter(sys, step, now), sys.flights)
    ensures FlightsOk(StoreAfter(sys, step, now), FlightsAfter(sys, step, now))
  {
    if step.ClaimNext? {
      DiscoveryKeepsFlights(sys, step, now);
    } else if step.CountReviews? {
      CountingKeepsFlights(sys, step, now);
    } else {
      OtherStepsKeepFlights(sys, step, now);
    }
  }

  lemma StepKeepsInv(sys: System, step: Step, now: Instant)
    requires SystemInv(sys)
    ensures SystemInv(Next(sys, step, now))
  {
    StepAdvances(sys, step, now);
    FlightsSurvive(sys.store, StoreAfter(sys, step, now), sys.flights);
    FlightsStayOk(sys, step, now);
  }

  lemma InitialIsSafe()
    ensures SystemInv(INITIAL)
  {
    EmptyStoreOk();
  }

  /** Every state of every run satisfies the system invariant. */
  lemma {:induction false} RunKeepsInv(states: seq<System>, steps: seq<Step>, times: seq<Instant>, i: nat)
    requires Run(states, steps, times) && i < |states|
    ensures SystemInv(states[i])
  {
    if i == 0 {
      InitialIsSafe();
    } else if !SystemInv(states[i]) {
      RunKeepsInv(states, steps, times, i - 1);
      TakenStepKeepsInv(states, steps, times, i);
      assert false;
    }
  }

  lemma TakenStepKeepsInv(states: seq<System>, steps: seq<Step>, times: seq<Instant>, i: nat)
    requires Run(states, steps, times) && 0 < i < |states|
    ensures SystemInv(states[i - 1]) ==> SystemInv(states[i])
  {
    assert Took(states, steps, times, i - 1);
    if SystemInv(states[i - 1]) {
      StepKeepsInv(states[i - 1], steps[i - 1], times[i - 1]);
    }
  }

  lemma ReachableIsSafe(sys: System)
    requires Reachable(sys)
    ensures SystemInv(sys)
  {
    var states, steps, times :| Run(states, steps, times) && states[|steps|] == sys;
    RunKeepsInv(states, steps, times, |steps|);
  }

  lemma RunStepEvolves(states: seq<System>, steps: seq<Step>, times: seq<Instant>, i: nat)
    requires Run(states, steps, times) && i < |steps|
    ensures Evolves(states[i].store, states[i + 1].store)
  {
    RunKeepsInv(states, steps, times, i);
    assert Took(states, steps, times, i);
    StepAdvances(states[i], steps[i], times[i]);
  }

  lemma {:induction false} RunClaimsEvolve(states: seq<System>, steps: seq<Step>, times: seq<Instant>, i: nat, j: nat)
    requires Run(states, steps, times) && i <= j < |states|
    ensures ClaimsEvolve(states[i].store, states[j].store)
    decreases j
  {
    if i < j {
      RunClaimsEvolve(states, steps, times, i, j - 1);
      RunStepEvolves(states, steps, times, j - 1);
      ClaimsEvolveTransitive(states[i].store, states[j - 1].store, states[j].store);
    }
  }

  lemma {:induction false} RunTasksEvolve(states: seq<System>, steps: seq<Step>, times: seq<Instant>, i: nat, j: nat)
    requires Run(states, steps, times) && i <= j < |states|
    ensures TasksEvolve(states[i].store, states[j].store)
    decreases j
  {
    if i < j {
      RunTasksEvolve(states, steps, times, i, j - 1);
      RunStepEvolves(states, steps, times, j - 1);
      TasksEvolveTransitive(states[i].store, states[j - 1].store, states[j].store);
    }
  }

  lemma {:induction false} RunRecordsEvolve(states: seq<System>, steps: seq<Step>, times: seq<Instant>, i: nat, j: nat)
    requires Run(states, steps, times) && i <= j < |states|
    ensures GoalsEvolve(states[i].store, states[j].store) && RecordsEvolve(states[i].store, states[j].store)
    decreases j
  {
    if i < j {
      RunRecordsEvolve(states, steps, times, i, j - 1);
      RunStepEvolves(states, steps, times, j - 1);
    }
  }

  /** History only grows: between any two states of a run, finished tasks and
      goals, ended claims and recorded attempts are unchanged. */
  lemma RunEvolves(states: seq<System>, steps: seq<Step>, times: seq<Instant>, i: nat, j: nat)
    requires Run(states, steps, times) && i <= j < |states|
    ensures Evolves(states[i].store, states[j].store)
  {
    RunTasksEvolve(states, steps, times, i, j);
    RunClaimsEvolve(states, steps, times, i, j);
    RunRecordsEvolve(states, steps, times, i, j);
  }
}
