/** Whole runs of the scheduler: any number of planners, workers, reapers and
    operators interleave transactions, and a worker may crash between any two
    of its steps. */
module SchedulerRuns {
  import opened Domain
  import opened Scheduler
  import opened Outbox
  import opened Store
  import opened StoreInvariant
  import opened StoreSteps
  import opened StoreCommit
  import opened StoreTransactions
  import opened StoreHistory
  import opened WorkerService
  import OutboxRuns

  /** What a worker remembers about a claim: the snapshot it was given and, once
      it has read the reviews, the number of the attempt it is making. */
  datatype Flight = Flight(claim: TaskClaim, task: Task, attemptNo: Option<int>)

  datatype System = System(store: Store, flights: map<Id, Flight>)

  datatype Step =
    | Register(workerId: Id, sessionId: Id, capabilities: set<Id>, ttl: int)
    | Heartbeat(workerId: Id, sessionId: Id, ttl: int)
    | Claim(key: TaskKey, workerId: Id, sessionId: Id, agentId: Id, claimId: Id, lease: int)
    | ClaimNext(workerId: Id, sessionId: Id, assignments: map<Id, Id>, claimId: Id, lease: int)
    | CountReviews(claimId: Id)
    | Renew(claimId: Id, workerId: Id, sessionId: Id, token: int, lease: int)
    | Release(claimId: Id, workerId: Id, sessionId: Id, token: int)
    | Pause(claim: TaskClaim, approval: Approval)
    | Commit(claimId: Id, reply: Reply, attemptId: Id, minScore: real)
    | Resolve(approvalId: Id, approved: bool)
    | Request(approval: Approval)
    | Reap(remote: map<TaskKey, RemoteState>)
    | Dispatch(change: OutboxRuns.Step, after: Table)
    | NewGoal(goal: Id)
    | BeginPlanning(goal: Id)
    | AbandonPlanning(goal: Id)
    | AdmitPlan(goal: Id, tasks: seq<Task>)
    | StartGoal(goal: Id)
    | Crash(claimId: Id)

  /** A plan the planner may store: it passed `validate_task_graph`. */
  ghost predicate Admissible(s: Store, goal: Id, tasks: seq<Task>) {
    exists g, order :: Admits(s, SaveTasks(s, tasks).store, goal, tasks, g, order)
  }

  function MoveGoal(s: Store, goal: Id, status: GoalStatus): Store {
    if goal in s.goals && TransitionGoal(s.goals[goal], status).Ok? then s.(goals := s.goals[goal := status]) else s
  }

  function SubmissionOf(f: Flight, step: Step): Outcome
    requires step.Commit? && f.attemptNo.Some?
  {
    BuildOutcome(f.claim, f.task, f.attemptNo.value, step.reply, step.attemptId, step.minScore)
  }

  /** Steps of a worker that depend on nothing but the store. */
  predicate ByWorker(step: Step) {
    step.Register? || step.Heartbeat? || step.Claim? || step.ClaimNext? || step.Renew? || step.Release? || step.Pause?
  }

  ghost function WorkerStore(s: Store, step: Step, now: Instant): Store
    requires ByWorker(step)
  {
    match step
    case Register(w, ses, caps, ttl) =>
      var created := CreateSession(w, ses, caps, now, ttl);
      if created.Ok? then RegisterWorker(s, created.value) else s
    case Heartbeat(w, ses, ttl) => HeartbeatWorker(s, w, ses, now, ttl).store
    case Claim(key, w, ses, agent, id, lease) => ClaimTask(s, key, w, ses, agent, id, now, lease).store
    case ClaimNext(w, ses, assignments, id, lease) => ClaimNextTask(s, w, ses, assignments, id, now, lease).store
    case Renew(id, w, ses, token, lease) => RenewClaim(s, id, w, ses, token, now, lease).store
    case Release(id, w, ses, token) => ReleaseClaim(s, id, w, ses, token, now).store
    case Pause(claim, approval) => PauseClaim(s, claim, approval, now).store
  }

  /** Steps of planners and of whoever creates goals. */
  predicate ByPlanner(step: Step) {
    step.NewGoal? || step.BeginPlanning? || step.AbandonPlanning? || step.AdmitPlan? || step.StartGoal?
  }

  ghost function PlannerStore(s: Store, step: Step): Store
    requires ByPlanner(step)
  {
    match step
    case NewGoal(g) => CreateGoal(s, g)
    case BeginPlanning(g) => MoveGoal(s, g, Planning)
    case AbandonPlanning(g) => AbandonGoal(s, g)
    case AdmitPlan(g, tasks) => StorePlan(s, g, tasks)
    case StartGoal(g) => LaunchGoal(s, g)
  }

  /** Steps of operators, of the tool gateway, of the reaper and of the outbox's
      dispatchers, and those that touch no store. */
  ghost function OperatorStore(s: Store, step: Step, now: Instant): Store
    requires !ByWorker(step) && !ByPlanner(step) && !step.Commit?
  {
    match step
    case Resolve(id, approved) => ResolveApproval(s, id, approved).store
    case Request(approval) => SaveApproval(s, approval).store
    case Reap(remote) => ReapExpired(s, now, remote).store
    case Dispatch(change, after) => Dispatched(s, change, after)
    case CountReviews(_) => s
    case Crash(_) => s
  }

  function CreateGoal(s: Store, goal: Id): Store {
    if goal in s.goals then s else s.(goals := s.goals[goal := Created])
  }

  /** A transaction of the outbox's own, publication or delivery. */
  ghost function Dispatched(s: Store, change: OutboxRuns.Step, after: Table): Store {
    if OutboxRuns.Changes(s.outbox, after, change) then s.(outbox := after) else s
  }

  /** A refused plan fails its goal. */
  function AbandonGoal(s: Store, goal: Id): Store {
    if goal in s.goals && s.goals[goal].Planning? then MoveGoal(s, goal, GoalFailed) else s
  }

  ghost function StorePlan(s: Store, goal: Id, tasks: seq<Task>): Store {
    if Admissible(s, goal, tasks) then SaveTasks(s, tasks).store else s
  }

  /** A goal whose plan is stored starts running. */
  function LaunchGoal(s: Store, goal: Id): Store {
    if goal in s.goals && s.goals[goal].Planning? && HasTasks(s, goal) then MoveGoal(s, goal, Active) else s
  }

  /** What a worker's commit does: its submission is built from its flight. */
  ghost function SubmittedStore(sys: System, step: Step, now: Instant): Store
    requires step.Commit?
  {
    if step.claimId in sys.flights && sys.flights[step.claimId].attemptNo.Some? then
      var f := sys.flights[step.claimId];
      CommitOutcome(sys.store, f.claim, SubmissionOf(f, step), now).store
    else sys.store
  }

  ghost function StoreAfter(sys: System, step: Step, now: Instant): Store {
    if step.Commit? then SubmittedStore(sys, step, now)
    else if ByWorker(step) then WorkerStore(sys.store, step, now)
    else if ByPlanner(step) then PlannerStore(sys.store, step)
    else OperatorStore(sys.store, step, now)
  }

  /** Only discovery, counting reviews and a crash change what workers remember. */
  ghost function FlightsAfter(sys: System, step: Step, now: Instant): map<Id, Flight> {
    match step
    case ClaimNext(w, ses, assignments, id, lease) =>
      var t := ClaimNextTask(sys.store, w, ses, assignments, id, now, lease);
      if t.result.Ok? && t.result.value.Some? && t.result.value.value.key in t.store.tasks then
        var claim := t.result.value.value;
        sys.flights[id := Flight(claim, t.store.tasks[claim.key], None)]
      else sys.flights
    case CountReviews(id) =>
      if id in sys.flights then
        var f := sys.flights[id];
        sys.flights[id := f.(attemptNo := Some(|ReviewsOf(sys.store, f.task.key)| + 1))]
      else sys.flights
    case Crash(id) => sys.flights - {id}
    case _ => sys.flights
  }

  ghost function Next(sys: System, step: Step, now: Instant): System {
    System(StoreAfter(sys, step, now), FlightsAfter(sys, step, now))
  }

  const INITIAL := System(EMPTY, map[])

  /** Any interleaving, from the empty store, with any clock readings. */
  ghost predicate Run(states: seq<System>, steps: seq<Step>, times: seq<Instant>) {
    && |states| == |steps| + 1 && |times| == |steps| && states[0] == INITIAL
    && forall i :: 0 <= i < |steps| ==> Took(states, steps, times, i)
  }

  ghost predicate Took(states: seq<System>, steps: seq<Step>, times: seq<Instant>, i: nat)
    requires |states| == |steps| + 1 && |times| == |steps| && i < |steps|
  {
    states[i + 1] == Next(states[i], steps[i], times[i])
  }

  /** The last system of some run. */
  ghost predicate Reachable(sys: System) {
    exists states, steps, times :: Run(states, steps, times) && states[|steps|] == sys
  }

  lemma ReachableStep(sys: System, step: Step, now: Instant)
    requires Reachable(sys)
    ensures Reachable(Next(sys, step, now))
  {
    var states, steps, times :| Run(states, steps, times) && states[|steps|] == sys;
    var states', steps', times' := states + [Next(sys, step, now)], steps + [step], times + [now];
    forall i | 0 <= i < |steps'| ensures Took(states', steps', times', i) {
      if i < |steps| {
        assert Took(states, steps, times, i);
      }
    }
    assert Run(states', steps', times');
  }

  // ---------------------------------------------------------------- the invariant of a run

  /** A worker whose claim is still live holds an exact picture of its task. */
  predicate FlightOk(s: Store, id: Id, f: Flight) {
    && id in s.claims && SameClaim(f.claim, s.claims[id]) && f.task.key == f.claim.key && f.claim.claimId == id
    && (s.claims[id].status.Live? ==>
          && f.claim.key in s.tasks && s.tasks[f.claim.key] == f.task
          && (f.attemptNo.Some? ==> f.attemptNo.value == |ReviewsOf(s, f.claim.key)| + 1))
  }

  ghost predicate SystemInv(sys: System) {
    Inv(sys.store) && FlightsOk(sys.store, sys.flights)
  }

  ghost predicate FlightsOk(s: Store, flights: map<Id, Flight>) {
    forall id :: id in flights ==> FlightOk(s, id, flights[id])
  }

  /** What one step does to the store. */
  ghost predicate Advances(s: Store, s': Store, now: Instant) {
    Inv(s') && Evolves(s, s') && Undisturbed(s, s') && Stamped(s, s', now)
  }

  lemma StayingAdvances(s: Store, now: Instant)
    requires Inv(s)
    ensures Advances(s, s, now)
  {
    EvolvesReflexive(s);
    StayingUndisturbed(s);
    StayingStamped(s, now);
  }

  lemma StayingStamped(s: Store, now: Instant)
    ensures Stamped(s, s, now)
  {
  }

  lemma StayingUndisturbed(s: Store)
    requires Owned(s)
    ensures Undisturbed(s, s)
  {
    forall c | c in s.claims && s.claims[c].status.Live? ensures Untouched(s, s, s.claims[c].key) {
      assert OwnsTask(s, s.claims[c]);
    }
  }

  lemma OpenAdvances(s: Store, s': Store, claim: TaskClaim, now: Instant)
    requires Inv(s) && Opens(s, s', claim) && claim.acquiredAt == now
    ensures Advances(s, s', now)
  {
    OpenKeepsInv(s, s', claim);
    OpenEvolves(s, s', claim);
  }

  lemma RefreshAdvances(s: Store, s': Store, now: Instant)
    requires Inv(s) && Refreshes(s, s')
    ensures Advances(s, s', now)
  {
    RefreshKeepsInv(s, s');
    RefreshEvolves(s, s', now);
  }

  predicate EndedAt(s': Store, doomed: set<Id>, now: Instant) {
    forall c :: c in doomed && c in s'.claims ==> s'.claims[c].finishedAt == Some(now)
  }

  lemma EndsStamp(s: Store, s': Store, doomed: set<Id>, now: Instant)
    requires Ends(s, s', doomed) && EndedAt(s', doomed, now)
    ensures Stamped(s, s', now)
  {
  }

  lemma EndsAdvance(s: Store, s': Store, doomed: set<Id>, now: Instant)
    requires Inv(s) && Ends(s, s', doomed) && EndedAt(s', doomed, now)
    ensures Advances(s, s', now)
  {
    EndsKeepsInv(s, s', doomed);
    EndsEvolve(s, s', doomed);
    EndsStamp(s, s', doomed, now);
  }

  lemma GoalMoveAdvances(s: Store, s': Store, goal: Id, status: GoalStatus, now: Instant)
    requires Inv(s) && GoalMoves(s, s', goal, status)
    requires !status.GoalSucceeded? && !status.GoalBlocked?
    requires status.Active? || status.Paused? ==> HasTasks(s, goal)
    ensures Advances(s, s', now)
  {
    GoalMoveKeepsInv(s, s', goal, status);
    GoalMoveEvolves(s, s', goal, status, now);
  }

  lemma CommitStamp(s: Store, s': Store, c: Id, committed: TaskClaim, o: Outcome, now: Instant)
    requires Commits(s, s', c, committed, o) && committed.finishedAt == Some(now)
    ensures Stamped(s, s', now)
  {
  }

  lemma CommitAdvances(s: Store, claim: TaskClaim, o: Outcome, now: Instant)
    requires Inv(s) && CommitOutcome(s, claim, o, now).result.Ok? && WorkerBuilt(s, o)
    ensures Advances(s, CommitOutcome(s, claim, o, now).store, now)
  {
    var t := CommitOutcome(s, claim, o, now);
    CommitChange(s, claim, o, now);
    CommitKeepsInv(s, t.store, claim.claimId, t.result.value, o);
    CommitEvolves(s, t.store, claim.claimId, t.result.value, o);
    CommitTime(s, claim, o, now);
    CommitStamp(s, t.store, claim.claimId, t.result.value, o, now);
  }

  lemma CommitTime(s: Store, claim: TaskClaim, o: Outcome, now: Instant)
    requires CommitOutcome(s, claim, o, now).result.Ok?
    ensures CommitOutcome(s, claim, o, now).result.value.finishedAt == Some(now)
  {
  }

  lemma PauseParts(s: Store, claim: TaskClaim, approval: Approval, now: Instant)
    requires RowsKeyed(s) && Owned(s) && PauseClaim(s, claim, approval, now).result.Ok?
    ensures var t := PauseClaim(s, claim, approval, now);
            var mid := EndClaim(s, claim.claimId, t.result.value, Pending);
            && Ends(s, mid, {claim.claimId}) && EndedAt(mid, {claim.claimId}, now)
            && GoalMoves(mid, t.store, approval.key.goal, Paused) && HasTasks(mid, approval.key.goal)
  {
    PauseClaimChange(s, claim, approval, now);
  }

  /** A pause is two changes, both at the same time. */
  lemma PauseAdvances(s: Store, claim: TaskClaim, approval: Approval, now: Instant)
    requires Inv(s) && PauseClaim(s, claim, approval, now).result.Ok?
    ensures Advances(s, PauseClaim(s, claim, approval, now).store, now)
  {
    PauseParts(s, claim, approval, now);
    var t := PauseClaim(s, claim, approval, now);
    var mid := EndClaim(s, claim.claimId, t.result.value, Pending);
    HandBackAndMove(s, mid, t.store, claim.claimId, approval.key.goal, Paused, now);
  }

  lemma HandBackAndMove(s: Store, mid: Store, s': Store, c: Id, goal: Id, status: GoalStatus, now: Instant)
    requires Inv(s) && Ends(s, mid, {c}) && EndedAt(mid, {c}, now)
    requires GoalMoves(mid, s', goal, status) && status.Paused? && HasTasks(mid, goal)
    ensures Advances(s, s', now)
  {
    EndsAdvance(s, mid, {c}, now);
    GoalMoveAdvances(mid, s', goal, status, now);
    EvolvesTransitive(s, mid, s');
    SameRowsSameSteps(s, mid, s', now);
  }

  lemma SameRowsSameSteps(s: Store, mid: Store, s': Store, now: Instant)
    requires Undisturbed(s, mid) && Stamped(s, mid, now)
    requires s'.claims == mid.claims && s'.tasks == mid.tasks && s'.reviews == mid.reviews
    ensures Undisturbed(s, s') && Stamped(s, s', now)
  {
    forall c | c in s.claims && c in s'.claims && s'.claims[c].status.Live? ensures Untouched(s, s', s.claims[c].key) {
      assert Untouched(s, mid, s.claims[c].key);
      assert ReviewsOf(s', s.claims[c].key) == ReviewsOf(mid, s.claims[c].key);
    }
  }

  lemma NewGoalAdvances(s: Store, goal: Id, now: Instant)
    requires Inv(s) && goal !in s.goals
    ensures Advances(s, s.(goals := s.goals[goal := Created]), now)
  {
    var s' := s.(goals := s.goals[goal := Created]);
    GoalMoveKeepsOwnership(s, s');
    GoalMoveKeepsRecords(s, s');
    NewGoalKeepsPlans(s, goal);
    NewGoalKeepsAgreement(s, goal);
    NewGoalEvolves(s, goal, now);
  }

  lemma NewGoalEvolves(s: Store, goal: Id, now: Instant)
    requires Owned(s) && goal !in s.goals
    ensures var s' := s.(goals := s.goals[goal := Created]);
            Evolves(s, s') && Undisturbed(s, s') && Stamped(s, s', now)
  {
    StayingUndisturbed(s);
    SameRowsSameSteps(s, s, s.(goals := s.goals[goal := Created]), now);
  }

  /** Approvals and the outbox are nobody's business but their own. */
  lemma SideTablesAdvance(s: Store, s': Store, now: Instant)
    requires Inv(s) && SideTablesMove(s, s') && WellKeyed(s'.outbox)
    ensures Advances(s, s', now)
  {
    SideTablesKeepInv(s, s');
    SideTablesEvolve(s, s', now);
  }

  lemma SideTablesEvolve(s: Store, s': Store, now: Instant)
    requires Owned(s) && SideTablesMove(s, s')
    ensures Evolves(s, s') && Undisturbed(s, s') && Stamped(s, s', now)
  {
    StayingUndisturbed(s);
    SameRowsSameSteps(s, s, s', now);
  }

  lemma NewGoalKeepsPlans(s: Store, goal: Id)
    requires Planned(s) && goal !in s.goals
    ensures Planned(s.(goals := s.goals[goal := Created]))
  {
    var s' := s.(goals := s.goals[goal := Created]);
    forall g | g in s'.goals && HasTasks(s', g) ensures Ordered(s'.tasks, g) {
      assert HasTasks(s, g);
      var k :| k in s.tasks && k.goal == g;
    }
    forall g | g in s'.goals && (s'.goals[g].Active? || s'.goals[g].Paused?) ensures HasTasks(s', g) {
      assert HasTasks(s, g);
    }
  }

  lemma NewGoalKeepsAgreement(s: Store, goal: Id)
    requires Planned(s) && GoalsAgree(s) && goal !in s.goals
    ensures GoalsAgree(s.(goals := s.goals[goal := Created]))
  {
    var s' := s.(goals := s.goals[goal := Created]);
    forall g | g in s'.goals ensures s'.goals[g].GoalSucceeded? <==> AllSucceeded(s'.tasks, g) {
      if g != goal {
        assert s.goals[g].GoalSucceeded? <==> AllSucceeded(s.tasks, g);
      }
    }
  }

  lemma AdmitAdvances(s: Store, goal: Id, tasks: seq<Task>, now: Instant)
    requires Inv(s) && Admissible(s, goal, tasks)
    ensures Advances(s, SaveTasks(s, tasks).store, now)
  {
    var s' := SaveTasks(s, tasks).store;
    var g, order :| Admits(s, s', goal, tasks, g, order);
    AdmitKeepsInv(s, s', goal, tasks, g, order);
    AdmitEvolves(s, s', goal, tasks, g, order, now);
  }

  // ---------------------------------------------------------------- flights

  /** An undisturbed flight stays exact. */
  lemma FlightSurvives(s: Store, s': Store, id: Id, f: Flight)
    requires FlightOk(s, id, f) && Evolves(s, s') && Undisturbed(s, s')
    ensures FlightOk(s', id, f)
  {
    if s'.claims[id].status.Live? {
      assert Untouched(s, s', s.claims[id].key);
    }
  }

  /** The submission of a live flight is one that the invariant admits. */
  lemma FlightSubmits(s: Store, f: Flight, step: Step, now: Instant)
    requires FlightOk(s, f.claim.claimId, f) && f.attemptNo.Some? && step.Commit?
    requires CommitOutcome(s, f.claim, SubmissionOf(f, step), now).result.Ok?
    ensures WorkerBuilt(s, SubmissionOf(f, step))
  {
  }

  lemma FlightsSurvive(s: Store, s': Store, flights: map<Id, Flight>)
    requires FlightsOk(s, flights) && Evolves(s, s') && Undisturbed(s, s')
    ensures FlightsOk(s', flights)
  {
    forall id | id in flights ensures FlightOk(s', id, flights[id]) {
      FlightSurvives(s, s', id, flights[id]);
    }
  }
}
