/** The worker process (`WorkerService.run_once` and `run`,
    src/seed_society/worker_service.py) driving the repository step by step. Every
    transaction, its own or another process's, is a step of a scheduler run, and
    between any two of its own the others may take any steps at all. */
module WorkerLoop {
  import opened Domain
  import opened Scheduler
  import Spec = Store
  import opened StoreInvariant
  import opened StoreCommit
  import opened StoreTransactions
  import opened SchedulerRuns
  import opened SchedulerSafety
  import opened SchedulerTheorems
  import opened WorkerService
  import opened Repository
  import StoreHistory
  import OutboxRuns
  import Engine

  // ---------------------------------------------------------------- two parts of the processes' memory

  /** The claims these identifiers name, as far as they are committed. */
  function Earned(s: Spec.Store, granted: set<Id>): set<Id> {
    set c | c in granted && c in s.claims && s.claims[c].status.Committed?
  }

  /** What the processes remember is what the others and this worker remember. A
      claim that this worker was ever granted is nobody else's. */
  ghost predicate Apart(sys: System, others: map<Id, Flight>, mine: map<Id, Flight>, granted: set<Id>) {
    && sys.flights == others + mine
    && granted !! others.Keys && mine.Keys <= granted <= sys.store.claims.Keys
  }

  /** A step on a claim in flight is taken by whoever flies it. */
  predicate TakenBy(flights: map<Id, Flight>, step: Step) {
    step.Commit? || step.CountReviews? || step.Crash? ==> step.claimId in flights
  }

  ghost function Remembered(s: Spec.Store, flights: map<Id, Flight>, step: Step, now: Instant): map<Id, Flight> {
    FlightsAfter(System(s, flights), step, now)
  }

  /** Discovery grants a claim that did not exist before. */
  lemma DiscoveryStartsNew(s: Spec.Store, flights: map<Id, Flight>, step: Step, now: Instant)
    requires step.ClaimNext?
    ensures Remembered(s, flights, step, now) == flights ||
            (step.claimId !in s.claims && Remembered(s, flights, step, now).Keys == flights.Keys + {step.claimId})
  {
    ClaimNextTaskChange(s, step.workerId, step.sessionId, step.assignments, step.claimId, now, step.lease);
  }

  /** A step on the flights of `a` leaves those of `b` alone. */
  lemma RememberedApart(s: Spec.Store, a: map<Id, Flight>, b: map<Id, Flight>, step: Step, now: Instant)
    requires a.Keys !! b.Keys && b.Keys <= s.claims.Keys && TakenBy(a, step)
    ensures Remembered(s, a + b, step, now) == Remembered(s, a, step, now) + b
  {
    if step.ClaimNext? {
      DiscoveryStartsNew(s, a, step, now);
    }
  }

  lemma RememberedKeys(s: Spec.Store, a: map<Id, Flight>, step: Step, now: Instant, id: Id)
    requires id in Remembered(s, a, step, now) && id in s.claims
    ensures id in a
  {
    if step.ClaimNext? {
      DiscoveryStartsNew(s, a, step, now);
    }
  }

  /** A step of the others changes only what they remember. */
  lemma OthersRemember(sys: System, others: map<Id, Flight>, mine: map<Id, Flight>, granted: set<Id>, step: Step,
                       now: Instant)
    requires SystemInv(sys) && Apart(sys, others, mine, granted) && TakenBy(others, step)
    ensures Apart(Next(sys, step, now), Remembered(sys.store, others, step, now), mine, granted)
  {
    ClaimsStay(sys, step, now);
    RememberedApart(sys.store, others, mine, step, now);
    forall id | id in granted ensures id !in Remembered(sys.store, others, step, now) {
      if id in Remembered(sys.store, others, step, now) {
        RememberedKeys(sys.store, others, step, now, id);
      }
    }
  }

  lemma ClaimsStay(sys: System, step: Step, now: Instant)
    requires SystemInv(sys)
    ensures sys.store.claims.Keys <= Next(sys, step, now).store.claims.Keys
  {
    StepAdvances(sys, step, now);
    forall c | c in sys.store.claims ensures c in Next(sys, step, now).store.claims {
      assert StoreHistory.ClaimEvolves(sys.store, Next(sys, step, now).store, c);
    }
  }

  lemma EarnedStays(sys: System, granted: set<Id>, step: Step, now: Instant)
    requires SystemInv(sys) && granted <= sys.store.claims.Keys && (step.Commit? ==> step.claimId !in granted)
    ensures Earned(Next(sys, step, now).store, granted) == Earned(sys.store, granted)
  {
    forall c | c in granted
      ensures c in Next(sys, step, now).store.claims
      ensures Next(sys, step, now).store.claims[c].status.Committed? <==> sys.store.claims[c].status.Committed?
    {
      OnlyItsHolderCommits(sys, step, now, c);
    }
  }

  /** A step of this worker changes only what it remembers. */
  lemma WorkerRemembers(sys: System, others: map<Id, Flight>, mine: map<Id, Flight>, granted: set<Id>, step: Step,
                        now: Instant)
    requires SystemInv(sys) && Apart(sys, others, mine, granted) && TakenBy(mine, step)
    ensures var next := Remembered(sys.store, mine, step, now);
            Apart(Next(sys, step, now), others, next, granted + next.Keys)
  {
    OthersKnowTheirClaims(sys, others, mine);
    ClaimsStay(sys, step, now);
    GrantedApart(sys, others, mine, granted, step, now);
    WorkerFlights(sys.store, others, mine, step, now);
    assert sys == System(sys.store, others + mine);
  }

  lemma WorkerFlights(s: Spec.Store, others: map<Id, Flight>, mine: map<Id, Flight>, step: Step, now: Instant)
    requires mine.Keys !! others.Keys && others.Keys <= s.claims.Keys
    requires TakenBy(mine, step) && Remembered(s, mine, step, now).Keys !! others.Keys
    ensures Remembered(s, others + mine, step, now) == others + Remembered(s, mine, step, now)
  {
    RememberedApart(s, mine, others, step, now);
    assert mine + others == others + mine;
    var next := Remembered(s, mine, step, now);
    assert next + others == others + next;
  }

  lemma OthersKnowTheirClaims(sys: System, others: map<Id, Flight>, mine: map<Id, Flight>)
    requires SystemInv(sys) && sys.flights == others + mine
    ensures others.Keys <= sys.store.claims.Keys
  {
    forall id | id in others ensures id in sys.store.claims {
      assert FlightOk(sys.store, id, sys.flights[id]);
    }
  }

  lemma GrantedApart(sys: System, others: map<Id, Flight>, mine: map<Id, Flight>, granted: set<Id>, step: Step,
                     now: Instant)
    requires Apart(sys, others, mine, granted) && others.Keys <= sys.store.claims.Keys
    requires sys.store.claims.Keys <= Next(sys, step, now).store.claims.Keys
    ensures var next := Remembered(sys.store, mine, step, now);
            next.Keys !! others.Keys && next.Keys <= Next(sys, step, now).store.claims.Keys
  {
    forall id | id in Remembered(sys.store, mine, step, now)
      ensures id !in others && id in Next(sys, step, now).store.claims
    {
      if id in sys.store.claims {
        RememberedKeys(sys.store, mine, step, now, id);
      } else {
        NewFlightIsStored(sys, mine, step, now, id);
      }
    }
  }

  lemma NewFlightIsStored(sys: System, mine: map<Id, Flight>, step: Step, now: Instant, id: Id)
    requires id in Remembered(sys.store, mine, step, now) && id !in sys.store.claims
    requires forall k :: k in mine ==> k in sys.store.claims
    ensures id in Next(sys, step, now).store.claims
  {
    ClaimNextTaskChange(sys.store, step.workerId, step.sessionId, step.assignments, step.claimId, now, step.lease);
  }

  lemma WorkerStep(sys: System, others: map<Id, Flight>, mine: map<Id, Flight>, granted: set<Id>, step: Step,
                   now: Instant)
    requires Reachable(sys) && Apart(sys, others, mine, granted) && TakenBy(mine, step)
    ensures Reachable(Next(sys, step, now))
    ensures var next := Remembered(sys.store, mine, step, now);
            Apart(Next(sys, step, now), others, next, granted + next.Keys)
    ensures !step.Commit? ==> Earned(Next(sys, step, now).store, granted) == Earned(sys.store, granted)
  {
    ReachableIsSafe(sys);
    ReachableStep(sys, step, now);
    WorkerRemembers(sys, others, mine, granted, step, now);
    if !step.Commit? {
      EarnedStays(sys, granted, step, now);
    }
  }

  /** Whatever step the others take, this worker's claim in flight stays its own,
      and none of its claims becomes committed. */
  lemma OthersStep(sys: System, others: map<Id, Flight>, mine: map<Id, Flight>, granted: set<Id>, step: Step,
                   now: Instant)
    requires Reachable(sys) && Apart(sys, others, mine, granted) && TakenBy(others, step)
    ensures Reachable(Next(sys, step, now))
    ensures Apart(Next(sys, step, now), Remembered(sys.store, others, step, now), mine, granted)
    ensures Earned(Next(sys, step, now).store, granted) == Earned(sys.store, granted)
  {
    ReachableIsSafe(sys);
    ReachableStep(sys, step, now);
    OthersRemember(sys, others, mine, granted, step, now);
    EarnedStays(sys, granted, step, now);
  }

  // ---------------------------------------------------------------- what a commit earns

  /** The commit of a claim under a number: what it left in the tables tells what happened. */
  ghost predicate Counts(before: Spec.Store, s': Spec.Store, committed: TaskClaim, task: Task, number: int,
                         reply: Reply, minScore: real)
  {
    exists o :: Settled(before, s', committed, o) && Tells(o, committed, task, number, reply, minScore)
  }

  lemma SettlingEarns(before: Spec.Store, s': Spec.Store, committed: TaskClaim, o: Spec.Outcome, granted: set<Id>)
    requires Settled(before, s', committed, o) && committed.claimId in granted
    ensures Earned(s', granted) == Earned(before, granted) + {committed.claimId}
  {
  }

  lemma SubmissionCounts(before: Spec.Store, s': Spec.Store, committed: TaskClaim, task: Task, number: int,
                         reply: Reply, attemptId: Id, minScore: real)
    requires Settled(before, s', committed, BuildOutcome(committed, task, number, reply, attemptId, minScore))
    ensures Counts(before, s', committed, task, number, reply, minScore)
    ensures task.key in s'.tasks && Deserves(s'.tasks[task.key].status, task, number, reply, minScore)
  {
    BuiltOutcomeTells(committed, task, number, reply, attemptId, minScore);
  }

  lemma CommitStepIsCommit(sys: System, claim: TaskClaim, task: Task, number: int, step: Step, now: Instant)
    requires claim.claimId in sys.flights && sys.flights[claim.claimId] == Flight(claim, task, Some(number))
    requires step.Commit? && step.claimId == claim.claimId
    ensures StoreAfter(sys, step, now) ==
            Spec.CommitOutcome(sys.store, claim,
              BuildOutcome(claim, task, number, step.reply, step.attemptId, step.minScore), now).store
  {
  }

  lemma OthersFlight(sys: System, others: map<Id, Flight>, mine: map<Id, Flight>, id: Id)
    requires sys.flights == others + mine && others.Keys !! mine.Keys && id in others
    ensures id in sys.flights && sys.flights[id] == others[id]
  {
  }

  lemma ReachableIsPlannable(sys: System)
    requires Reachable(sys)
    ensures Planned(sys.store) && Owned(sys.store)
  {
    ReachableIsSafe(sys);
  }

  // ---------------------------------------------------------------- sessions

  /** `session` is the stored session of the worker, alive from `now` on. */
  predicate IsRegistered(s: Spec.Store, workerId: Id, sessionId: Id, session: WorkerSession, now: Instant, ttl: int) {
    && workerId in s.sessions && s.sessions[workerId] == session && session.sessionId == sessionId
    && session.lastHeartbeatAt == now && session.expiresAt == now + ttl
  }

  lemma HeartbeatRegisters(s: Spec.Store, workerId: Id, sessionId: Id, now: Instant, ttl: int)
    ensures
      var t := Spec.HeartbeatWorker(s, workerId, sessionId, now, ttl);
      if t.result.Ok? then IsRegistered(t.store, workerId, sessionId, t.result.value, now, ttl)
      else t.store == s
  {
  }

  // ---------------------------------------------------------------- errors

  /** What `run_once` reports; an error it does not catch is an Err instead. */
  datatype RunResult =
    | Idle
    | Finished(claim: TaskClaim, status: TaskStatus)
    | PausedFor(claim: TaskClaim)
    | Lost(claim: TaskClaim)
    | Stopped

  /** The transaction that a call of `run_once` ended with. */
  datatype Transaction =
    | Enrolling(first: bool, now: Instant)
    | Discovering(claimId: Id, now: Instant)
    | Executing
    | Beating(now: Instant)
    | Renewing(claim: TaskClaim, now: Instant)
    | Pausing(claim: TaskClaim, approval: Spec.Approval, now: Instant)
    | Submitting(claim: TaskClaim, outcome: Spec.Outcome, now: Instant)

  function Failure<T>(r: Result<T>): Option<Error> {
    if r.Err? then Some(r.error) else None
  }

  /** The errors that only say that the claim is lost. */
  predicate MeansLost(e: Error) {
    e.StaleClaim? || e.WorkerSessionRejected?
  }

  /** `run_once` catches them from the heartbeat before the hand-in on. */
  function Reported(claim: TaskClaim, e: Error): Result<RunResult> {
    if MeansLost(e) then Ok(Lost(claim)) else Err(e)
  }

  /** The report that a transaction ends in when it is not refused. */
  predicate EndsWith(last: Transaction, r: RunResult) {
    match last
    case Discovering(_, _) => r.Idle?
    case Executing => r.Lost?
    case Pausing(_, _, _) => r.PausedFor?
    case Submitting(_, _, _) => r.Finished?
    case _ => false
  }

  predicate IsFinished(r: Result<RunResult>) {
    r.Ok? && r.value.Finished?
  }

  predicate NamesClaim(r: Result<RunResult>) {
    r.Ok? && (r.value.Finished? || r.value.PausedFor? || r.value.Lost?)
  }

  /** At most one claim was granted; it is the one reported, and it is committed
      exactly when the report says so. */
  predicate GrantedAtMostOne(s: Spec.Store, earlier: set<Id>, granted: set<Id>, r: Result<RunResult>) {
    && earlier <= granted && |granted - earlier| <= 1
    && (NamesClaim(r) ==> granted - earlier == {r.value.claim.claimId})
    && forall c :: c in granted - earlier ==>
         c in s.claims && (s.claims[c].status.Committed? <==> IsFinished(r) && r.value.claim.claimId == c)
  }

  lemma OneGranted(s: Spec.Store, earlier: set<Id>, credit: set<Id>, id: Id, r: Result<RunResult>)
    requires id !in earlier && id in s.claims && credit <= earlier
    requires Earned(s, earlier + {id}) == credit + if IsFinished(r) then {id} else {}
    requires NamesClaim(r) ==> r.value.claim.claimId == id
    ensures GrantedAtMostOne(s, earlier, earlier + {id}, r)
    ensures var earned := Earned(s, earlier + {id});
            credit <= earned && |earned| == |credit| + if IsFinished(r) then 1 else 0
  {
    assert (earlier + {id}) - earlier == {id};
    assert id in Earned(s, earlier + {id}) <==> s.claims[id].status.Committed?;
  }

  // ---------------------------------------------------------------- the worker

  class Worker {
    const repository: SQLiteRepository
    const workerId: Id
    const sessionId: Id
    const assignments: map<Id, Id>
    const ttl: int
    const lease: int
    const minScore: real
    var session: Option<WorkerSession>
    /** What the other processes remember of the claims they were granted. */
    var others: map<Id, Flight>
    ghost var system: System
    /** This worker's claim in flight, if there is one. */
    ghost var mine: map<Id, Flight>
    /** Every claim this worker was granted. */
    ghost var granted: set<Id>

    /** Every step this worker has taken. */
    ghost var trail: seq<Step>
    /** How often it looked for work. */
    ghost var looks: nat

    /** The repository holds the store of a reachable system. */
    ghost predicate Valid()
      reads this, repository, repository.outbox
    {
      && repository.Valid() && system.store == repository.State() && Reachable(system)
      && Apart(system, others, mine, granted)
    }

    constructor (repository: SQLiteRepository, ghost system: System, others: map<Id, Flight>, workerId: Id,
                 sessionId: Id, assignments: map<Id, Id>, ttl: int, lease: int, minScore: real)
      requires repository.Valid() && system.store == repository.State() && Reachable(system) && system.flights == others
      ensures Valid() && this.repository == repository && session == None && mine == map[] && granted == {}
    {
      this.repository, this.workerId, this.sessionId, this.assignments := repository, workerId, sessionId, assignments;
      this.ttl, this.lease, this.minScore, this.session, this.others := ttl, lease, minScore, None, others;
      this.system, this.mine, this.granted, this.trail, this.looks := system, map[], {}, [], 0;
    }

    /** The claims that this worker has committed. */
    ghost function Credit(): set<Id>
      reads this
    {
      Earned(system.store, granted)
    }

    /** Nothing happened to this worker's claims that it would notice. */
    twostate predicate Quiet()
      reads this
    {
      mine == old(mine) && granted == old(granted) && Credit() == old(Credit())
    }

    /** The transaction just made was this step of this worker. */
    ghost method Take(step: Step, now: Instant)
      requires Reachable(system) && Apart(system, others, mine, granted) && TakenBy(mine, step)
      requires repository.Valid() && StoreAfter(system, step, now) == repository.State()
      modifies this`system, this`mine, this`granted, this`trail
      ensures Valid() && system == Next(old(system), step, now)
      ensures mine == Remembered(old(system.store), old(mine), step, now) && granted == old(granted) + mine.Keys
      ensures !step.Commit? ==> Earned(system.store, old(granted)) == old(Credit())
      ensures trail == old(trail) + [step]
    {
      WorkerStep(system, others, mine, granted, step, now);
      var next := Next(system, step, now);
      mine := Remembered(system.store, mine, step, now);
      granted, system, trail := granted + mine.Keys, next, trail + [step];
    }

    /** A step of this worker that concerns no claim in flight. */
    ghost method TakeQuietly(step: Step, now: Instant)
      requires Reachable(system) && Apart(system, others, mine, granted)
      requires repository.Valid() && StoreAfter(system, step, now) == repository.State()
      requires !step.Commit? && !step.ClaimNext? && !step.CountReviews? && !step.Crash?
      modifies this`system, this`mine, this`granted, this`trail
      ensures Valid() && Quiet() && trail == old(trail) + [step]
    {
      Take(step, now);
    }
    // -------------------------------------------------------------- the other processes

    /** Other processes' transactions: any steps of a scheduler run, in any order
        and at any clock reading, except those on this worker's claim in flight.
        Other workers register (under this worker's name as well), discover, count,
        renew, pause, commit and crash; the lease maintainer renews; planners,
        operators and the reaper do their part. */
    method Others()
      requires Valid()
      modifies repository, repository.outbox, this`system, this`others
      ensures Valid() && Quiet()
    {
      var turns: int := *;
      for turn := 0 to if turns < 0 then 0 else turns
        invariant Valid() && Quiet()
      {
        var step: Step, now: Instant := *, *;
        if ByWorker(step) {
          WorkerTurn(step, now);
        } else if ByPlanner(step) {
          PlannerTurn(step, now);
        } else if step.Resolve? || step.Request? || step.Reap? {
          OperatorTurn(step, now);
        } else if step.Dispatch? {
          DispatchTurn(step.change, now);
        } else {
          FlightTurn(step, now);
        }
      }
    }

    /** The transaction just made was this step of another process. */
    ghost method Follow(step: Step, now: Instant, remembered: map<Id, Flight>)
      requires Reachable(system) && Apart(system, remembered, mine, granted) && TakenBy(remembered, step)
      requires repository.Valid() && StoreAfter(system, step, now) == repository.State()
      requires others == Remembered(system.store, remembered, step, now)
      modifies this`system
      ensures Valid() && Quiet()
    {
      OthersStep(system, remembered, mine, granted, step, now);
      system := Next(system, step, now);
    }

    method WorkerTurn(step: Step, now: Instant)
      requires Valid() && ByWorker(step)
      modifies repository, repository.outbox, this`system, this`others
      ensures Valid() && Quiet()
    {
      ghost var remembered := others;
      match step {
        case Register(w, ses, caps, seconds) =>
          var created := CreateSession(w, ses, caps, now, seconds);
          if created.Ok? {
            repository.RegisterWorker(created.value);
          }
        case Heartbeat(w, ses, seconds) =>
          var _ := repository.HeartbeatWorker(w, ses, now, seconds);
        case Claim(key, w, ses, agent, id, seconds) =>
          var _ := repository.ClaimTask(key, w, ses, agent, id, now, seconds);
        case ClaimNext(w, ses, offers, id, seconds) =>
          var claimed := repository.ClaimNextTask(w, ses, offers, id, now, seconds);
          if claimed.Ok? && claimed.value.Some? && claimed.value.value.key in repository.tasks {
            var claim := claimed.value.value;
            others := others[id := Flight(claim, repository.tasks[claim.key], None)];
          }
        case Renew(id, w, ses, token, seconds) =>
          var _ := repository.RenewClaim(id, w, ses, token, now, seconds);
        case Release(id, w, ses, token) =>
          var _ := repository.ReleaseClaim(id, w, ses, token, now);
        case Pause(claim, approval) =>
          var _ := repository.PauseClaimForApproval(claim, approval, now);
      }
      Follow(step, now, remembered);
    }

    method PlannerTurn(step: Step, now: Instant)
      requires Valid() && ByPlanner(step)
      modifies repository, repository.outbox, this`system
      ensures Valid() && Quiet()
    {
      PlannerWrites(step);
      Follow(step, now, others);
    }

    method PlannerWrites(step: Step)
      requires Valid() && ByPlanner(step)
      modifies repository, repository.outbox
      ensures repository.Valid() && repository.State() == PlannerStore(old(repository.State()), step)
    {
      match step {
        case NewGoal(goal) =>
          if goal !in repository.goals {
            repository.SaveGoal(goal, Created);
          }
        case BeginPlanning(goal) =>
          MoveTo(goal, Planning);
        case AbandonPlanning(goal) =>
          if goal in repository.goals && repository.goals[goal].Planning? {
            MoveTo(goal, GoalFailed);
          }
        case AdmitPlan(goal, tasks) =>
          Plan(goal, tasks);
        case StartGoal(goal) =>
          if goal in repository.goals && repository.goals[goal].Planning? && HasTasks(repository.State(), goal) {
            MoveTo(goal, Active);
          }
      }
    }

    /** A goal's next status, if its lifecycle admits it. */
    method MoveTo(goal: Id, status: GoalStatus)
      requires repository.Valid()
      modifies repository
      ensures repository.Valid() && repository.State() == MoveGoal(old(repository.State()), goal, status)
    {
      if goal in repository.goals && TransitionGoal(repository.goals[goal], status).Ok? {
        repository.SaveGoal(goal, status);
      }
    }

    /** A planner checks a plan and stores it. */
    method Plan(goal: Id, tasks: seq<Task>)
      requires Valid()
      modifies repository, repository.outbox
      ensures repository.Valid() && repository.State() == StorePlan(old(repository.State()), goal, tasks)
    {
      if goal in repository.goals && repository.goals[goal].Planning? && FreshPlan(tasks, goal) {
        ReachableIsPlannable(system);
        var admitted := Engine.AdmitForWorkers(repository.State(), goal, tasks);
        if admitted {
          var _ := repository.SaveTasks(tasks);
        }
      }
    }

    method OperatorTurn(step: Step, now: Instant)
      requires Valid() && (step.Resolve? || step.Request? || step.Reap?)
      modifies repository, repository.outbox, this`system
      ensures Valid() && Quiet()
    {
      OperatorWrites(step, now);
      Follow(step, now, others);
    }

    method OperatorWrites(step: Step, now: Instant)
      requires repository.Valid() && (step.Resolve? || step.Request? || step.Reap?)
      modifies repository, repository.outbox
      ensures repository.Valid() && repository.State() == OperatorStore(old(repository.State()), step, now)
    {
      match step {
        case Resolve(id, approved) =>
          var _ := repository.SaveApprovalResolution(id, approved);
        case Request(approval) =>
          var _ := repository.SaveApproval(approval);
        case Reap(remote) =>
          var _ := repository.ReapExpiredClaims(now, remote);
      }
    }

    /** A publisher or a dispatcher uses the outbox. */
    method DispatchTurn(change: OutboxRuns.Step, now: Instant)
      requires Valid()
      modifies repository.outbox, this`system
      ensures Valid() && Quiet()
    {
      if change.Publish? && !OutboxRuns.FreshMessage(change.message) {
        return;
      }
      var step := DispatchWrites(change);
      Follow(step, now, others);
    }

    method DispatchWrites(change: OutboxRuns.Step) returns (step: Step)
      requires repository.Valid() && (change.Publish? ==> OutboxRuns.FreshMessage(change.message))
      modifies repository.outbox
      ensures repository.Valid() && step.Dispatch?
      ensures repository.State() == Dispatched(old(repository.State()), step.change, step.after)
    {
      var made := OutboxRuns.Transact(repository.outbox, change);
      step := Dispatch(made, repository.outbox.rows);
    }

    /** Another worker counts the reviews of its task, commits, or crashes. */
    method FlightTurn(step: Step, now: Instant)
      requires Valid() && (step.CountReviews? || step.Commit? || step.Crash?)
      modifies repository, repository.outbox, this`system, this`others
      ensures Valid() && Quiet()
    {
      if step.claimId !in others {
        return;
      }
      ghost var remembered := others;
      var flight := others[step.claimId];
      if step.CountReviews? {
        var number := |ReviewsOf(repository.State(), flight.task.key)| + 1;
        others := others[step.claimId := flight.(attemptNo := Some(number))];
      } else if step.Crash? {
        others := others - {step.claimId};
      } else {
        OthersFlight(system, others, mine, step.claimId);
        CommitFlight(flight, step, now);
      }
      Follow(step, now, remembered);
    }

    /** Another worker hands in its result, if it has numbered its attempt. */
    method CommitFlight(flight: Flight, step: Step, now: Instant)
      requires repository.Valid() && system.store == repository.State() && step.Commit?
      requires step.claimId in system.flights && system.flights[step.claimId] == flight
      modifies repository, repository.outbox
      ensures repository.Valid() && repository.State() == SubmittedStore(system, step, now)
    {
      if flight.attemptNo.Some? {
        var _ := repository.CommitClaimOutcome(flight.claim, SubmissionOf(flight, step), now);
      }
    }

    // -------------------------------------------------------------- this worker's transactions

    predicate Registered(s: Spec.Store, updated: WorkerSession, now: Instant) {
      IsRegistered(s, workerId, sessionId, updated, now, ttl)
    }

    /** Why a transaction is refused in a store, if it is. */
    ghost function Refusal(s: Spec.Store, t: Transaction): Option<Error> {
      match t
      case Enrolling(first, now) =>
        if first then Failure(CreateSession(workerId, sessionId, assignments.Keys, now, ttl))
        else Failure(Spec.HeartbeatWorker(s, workerId, sessionId, now, ttl).result)
      case Discovering(claimId, now) =>
        Failure(Spec.ClaimNextTask(s, workerId, sessionId, assignments, claimId, now, lease).result)
      case Executing => None
      case Beating(now) => Failure(Spec.HeartbeatWorker(s, workerId, sessionId, now, ttl).result)
      case Renewing(claim, now) =>
        Failure(Spec.RenewClaim(s, claim.claimId, workerId, sessionId, claim.token, now, lease).result)
      case Pausing(claim, approval, now) => Failure(Spec.PauseClaim(s, claim, approval, now).result)
      case Submitting(claim, outcome, now) => Failure(Spec.CommitOutcome(s, claim, outcome, now).result)
    }

    /** The step that keeps its session alive: a registration first, then heartbeats. */
    function Opening(first: bool): Step {
      if first then Register(workerId, sessionId, assignments.Keys, ttl) else Heartbeat(workerId, sessionId, ttl)
    }

    /** The steps of a hand-in, up to the one that ended it: a heartbeat, a renewal, and
        only then the pause or the submission of this claim. */
    predicate HandsIn(steps: seq<Step>, claim: TaskClaim, last: Transaction) {
      var beat, renewal :=
        Opening(false), SchedulerRuns.Renew(claim.claimId, workerId, sessionId, claim.token, lease);
      match last
      case Beating(_) => steps == [beat]
      case Renewing(_, _) => steps == [beat, renewal]
      case Pausing(_, approval, _) => steps == [beat, renewal, Pause(claim, approval)]
      case Submitting(_, _, _) =>
        |steps| == 3 && steps[0] == beat && steps[1] == renewal && Submits(steps[2], claim)
      case _ => false
    }

    /** The step that hands the claim in. */
    predicate Closes(step: Step, claim: TaskClaim, last: Transaction) {
      if last.Pausing? then step == Pause(claim, last.approval) else last.Submitting? && Submits(step, claim)
    }

    predicate Submits(step: Step, claim: TaskClaim) {
      step.Commit? && step.claimId == claim.claimId && step.minScore == minScore
    }

    /** The steps before a claim: the session, and then, if that stands, discovery. */
    function Beginning(first: bool, last: Transaction): seq<Step> {
      if last.Discovering?
      then [Opening(first)] + [ClaimNext(workerId, sessionId, assignments, last.claimId, lease)]
      else if first then [] else [Opening(false)]
    }

    /** The steps from a claim to its end: the reviews are counted, and then either the
        lease is lost while it executes, or the result is handed in. */
    predicate WorksOn(steps: seq<Step>, claim: TaskClaim, last: Transaction) {
      && |steps| >= 1 && steps[0] == CountReviews(claim.claimId)
      && if last.Executing? then |steps| == 1 else HandsIn(steps[1..], claim, last)
    }

    lemma HandInEnds(refresh: seq<Step>, renewing: Transaction, step: Step, claim: TaskClaim, last: Transaction,
                     earlier: seq<Step>)
      returns (made: seq<Step>)
      requires renewing.Renewing? && HandsIn(refresh, claim, renewing)
      requires Closes(step, claim, last)
      ensures HandsIn(made, claim, last) && earlier + refresh + [step] == earlier + made
    {
      made := refresh + [step];
    }

    lemma HandedInIsWork(steps: seq<Step>, claim: TaskClaim, last: Transaction)
      requires HandsIn(steps, claim, last)
      ensures WorksOn([CountReviews(claim.claimId)] + steps, claim, last)
    {
      assert ([CountReviews(claim.claimId)] + steps)[1..] == steps;
    }

    lemma WorkIsCall(work: seq<Step>, first: bool, found: Transaction, claim: TaskClaim, last: Transaction,
                     earlier: seq<Step>)
      returns (made: seq<Step>)
      requires WorksOn(work, claim, last) && found.Discovering? && found.claimId == claim.claimId
      ensures Calls(made, first, last)
      ensures earlier + Beginning(first, found) + work + [Crash(claim.claimId)] == earlier + made
    {
      made := Beginning(first, found) + work + [Crash(claim.claimId)];
    }

    /** The steps of one call: nothing follows the one that ended it, except that the
        worker forgets the claim it was given. */
    ghost predicate Calls(steps: seq<Step>, first: bool, last: Transaction) {
      if last.Enrolling? || last.Discovering? then steps == Beginning(first, last)
      else
        exists claim, made :: WorksOn(made, claim, last)
          && steps == Beginning(first, Discovering(claim.claimId, 0)) + made + [Crash(claim.claimId)]
    }

    /** `_ensure_session`: register once, then heartbeat. */
    method EnsureSession(now: Instant) returns (r: Result<()>)
      requires Valid()
      modifies repository, this`session, this`system, this`others, this`mine, this`granted, this`trail
      ensures Valid() && Quiet()
      ensures r.Ok? ==> session.Some? && Registered(repository.State(), session.value, now)
      ensures r.Err? ==> repository.State() == old(repository.State()) && session == old(session)
      ensures Failure(r) == Refusal(old(repository.State()), Enrolling(old(session).None?, now))
      ensures trail == old(trail) + if r.Err? && old(session).None? then [] else [Opening(old(session).None?)]
    {
      if session.None? {
        var created := CreateSession(workerId, sessionId, assignments.Keys, now, ttl);
        if created.Err? {
          return Err(created.error);
        }
        repository.RegisterWorker(created.value);
        session := Some(created.value);
        TakeQuietly(Register(workerId, sessionId, assignments.Keys, ttl), now);
        r := Ok(());
      } else {
        r := Beat(now);
      }
    }

    method Beat(now: Instant) returns (r: Result<()>)
      requires Valid()
      modifies repository, this`session, this`system, this`others, this`mine, this`granted, this`trail
      ensures Valid() && Quiet()
      ensures r.Ok? ==> session.Some? && Registered(repository.State(), session.value, now)
      ensures r.Err? ==> repository.State() == old(repository.State()) && session == old(session)
      ensures Failure(r) == Refusal(old(repository.State()), Beating(now))
      ensures trail == old(trail) + [Opening(false)]
    {
      HeartbeatRegisters(repository.State(), workerId, sessionId, now, ttl);
      var beat := repository.HeartbeatWorker(workerId, sessionId, now, ttl);
      TakeQuietly(Heartbeat(workerId, sessionId, ttl), now);
      if beat.Err? {
        return Err(beat.error);
      }
      session := Some(beat.value);
      r := Ok(());
    }

    /** The claim in flight: the task as it was claimed, and the number of the
        attempt once that is known. */
    ghost predicate Flying(claim: TaskClaim, task: Task, number: Option<int>)
      reads this
    {
      && mine == map[claim.claimId := Flight(claim, task, number)] && claim.claimId in granted
      && task.key == claim.key
    }

    /** Discovery in this store, at this time, answers that there is nothing to do. */
    ghost predicate FoundNothing(s: Spec.Store, last: Transaction) {
      && last.Discovering?
      && Spec.ClaimNextTask(s, workerId, sessionId, assignments, last.claimId, last.now, lease).result == Ok(None)
    }

    /** Discovery: a granted claim is a new one, in flight with its stored task. */
    method Discover(now: Instant, claimId: Id) returns (r: Result<Option<(TaskClaim, Task)>>)
      requires Valid() && mine == map[]
      modifies repository, repository.outbox, this`system, this`mine, this`granted, this`trail
      ensures Valid() && Credit() == old(Credit())
      ensures Failure(r) == Refusal(old(repository.State()), Discovering(claimId, now))
      ensures r.Ok? && r.value.Some? ==>
        var (claim, task) := r.value.value;
        && Flying(claim, task, None) && claim.claimId !in old(repository.State()).claims && claim.claimId == claimId
        && granted == old(granted) + {claim.claimId}
        && Spec.Txn(repository.State(), Ok(Some(claim))) ==
           Spec.ClaimNextTask(old(repository.State()), workerId, sessionId, assignments, claimId, now, lease)
        && task.key in repository.tasks && repository.tasks[task.key] == task
      ensures !(r.Ok? && r.value.Some?) ==>
        mine == map[] && granted == old(granted) && repository.State() == old(repository.State())
      ensures r.Ok? && r.value.None? ==> FoundNothing(old(repository.State()), Discovering(claimId, now))
      ensures trail == old(trail) + [ClaimNext(workerId, sessionId, assignments, claimId, lease)]
    {
      var claimed := repository.ClaimNextTask(workerId, sessionId, assignments, claimId, now, lease);
      ghost var step := ClaimNext(workerId, sessionId, assignments, claimId, lease);
      DiscoveryGrants(system, step, now);
      Take(step, now);
      if claimed.Ok? && claimed.value.Some? {
        var claim := claimed.value.value;
        assert mine.Keys == {claim.claimId};
        NewClaimEarnsNothing(system.store, claim, old(granted));
        r := Ok(Some((claim, repository.tasks[claim.key])));
      } else {
        r := if claimed.Err? then Err(claimed.error) else Ok(None);
      }
    }

    /** The attempt number the worker derives from the stored reviews. */
    method NumberAttempt(claim: TaskClaim, task: Task) returns (number: int)
      requires Valid() && Flying(claim, task, None)
      modifies this`system, this`mine, this`granted, this`trail
      ensures Valid() && system.store == old(system.store) && granted == old(granted)
      ensures Flying(claim, task, Some(number)) && number == |ReviewsOf(repository.State(), claim.key)| + 1
      ensures trail == old(trail) + [CountReviews(claim.claimId)]
    {
      number := |ReviewsOf(repository.State(), claim.key)| + 1;
      Take(CountReviews(claim.claimId), 0);
    }

    method Renew(claim: TaskClaim, now: Instant) returns (r: Result<()>)
      requires Valid()
      modifies repository, this`system, this`mine, this`granted, this`trail
      ensures Valid() && Quiet()
      ensures r.Err? ==> repository.State() == old(repository.State())
      ensures Failure(r) == Refusal(old(repository.State()), Renewing(claim, now))
      ensures trail == old(trail) + [SchedulerRuns.Renew(claim.claimId, workerId, sessionId, claim.token, lease)]
    {
      var renewed := repository.RenewClaim(claim.claimId, workerId, sessionId, claim.token, now, lease);
      TakeQuietly(SchedulerRuns.Renew(claim.claimId, workerId, sessionId, claim.token, lease), now);
      r := if renewed.Err? then Err(renewed.error) else Ok(());
    }

    method PauseTask(claim: TaskClaim, approval: Spec.Approval, now: Instant) returns (r: Result<TaskClaim>)
      requires Valid()
      modifies repository, repository.outbox, this`system, this`mine, this`granted, this`trail
      ensures Valid() && Quiet()
      ensures Spec.Txn(repository.State(), r) == Spec.PauseClaim(old(repository.State()), claim, approval, now)
      ensures r.Ok? ==> r.value.status.Released? && r.value.claimId == claim.claimId
      ensures r.Err? ==> repository.State() == old(repository.State())
      ensures trail == old(trail) + [Pause(claim, approval)]
    {
      PauseReleases(repository.State(), claim, approval, now);
      r := repository.PauseClaimForApproval(claim, approval, now);
      TakeQuietly(Pause(claim, approval), now);
    }

    /** The submission of an attempt, as a step of its claim in flight. */
    function Submission(claim: TaskClaim, reply: Reply, attemptId: Id): Step {
      Commit(claim.claimId, reply, attemptId, minScore)
    }

    /** The commit of one attempt: accepted, it leaves one new attempt, the
        resulting status and one committed claim; refused, it leaves nothing. */
    method Submit(claim: TaskClaim, task: Task, number: int, reply: Reply, attemptId: Id, now: Instant)
      returns (r: Result<TaskClaim>)
      requires Valid() && Flying(claim, task, Some(number))
      modifies repository, repository.outbox, this`system, this`mine, this`granted, this`trail
      ensures Valid() && mine == old(mine) && granted == old(granted)
      ensures trail == old(trail) + [Submission(claim, reply, attemptId)]
      ensures
        var outcome := BuildOutcome(claim, task, number, reply, attemptId, minScore);
        Failure(r) == Refusal(old(repository.State()), Submitting(claim, outcome, now))
      ensures r.Err? ==> repository.State() == old(repository.State()) && Credit() == old(Credit())
      ensures r.Ok? ==>
        && Counts(old(repository.State()), repository.State(), r.value, task, number, reply, minScore)
        && claim.key in repository.tasks
        && Deserves(repository.tasks[claim.key].status, task, number, reply, minScore)
        && claim.key in old(repository.tasks) && old(repository.tasks)[claim.key] == task
        && number == |ReviewsOf(old(repository.State()), claim.key)| + 1
        && r.value.key == claim.key && r.value.claimId == claim.claimId
        && Credit() == old(Credit()) + {claim.claimId}
      ensures
        var flight := Flight(claim, task, Some(number));
        AnswersExactly(old(repository.State()), flight, Submission(claim, reply, attemptId), now, r)
    {
      ghost var step := Submission(claim, reply, attemptId);
      var outcome := BuildOutcome(claim, task, number, reply, attemptId, minScore);
      CommitSettles(system.store, claim, outcome, now);
      CommitStepIsCommit(system, claim, task, number, step, now);
      FlightIsAnswered(system, Flight(claim, task, Some(number)), step, now);
      ghost var before := system.store;
      r := repository.CommitClaimOutcome(claim, outcome, now);
      assert Failure(r) == Refusal(before, Submitting(claim, outcome, now));
      Take(step, now);
      if r.Ok? {
        assert outcome == BuildOutcome(r.value, task, number, reply, attemptId, minScore);
        SettlingEarns(before, repository.State(), r.value, outcome, granted);
        SubmissionCounts(before, repository.State(), r.value, task, number, reply, attemptId, minScore);
      }
    }

    // -------------------------------------------------------------- one task, and one after another

    /** A transaction that was refused left the store as it found it, and its error
        is caught or escapes; any other ending is the report that belongs to it. */
    ghost predicate Explained(r: Result<RunResult>, claim: TaskClaim, last: Transaction, before: Spec.Store)
      reads this, repository, repository.outbox
    {
      match Refusal(before, last)
      case None => r.Ok? && EndsWith(last, r.value) && (r.value.Lost? ==> r == Ok(Lost(claim)))
      case Some(e) => r == Reported(claim, e) && before == repository.State()
    }

    /** The report of a commit: one new attempt under the next number with its
        review and artifact, the status that the reply and the limit determine, its
        intents in the outbox if it passed, and nothing else. */
    ghost predicate Recorded(r: RunResult, reply: Reply, before: Spec.Store)
      requires r.Finished?
      reads repository, repository.outbox
    {
      var key, number := r.claim.key, |ReviewsOf(before, r.claim.key)| + 1;
      && key in before.tasks && key in repository.tasks && r.status == repository.tasks[key].status
      && Deserves(r.status, before.tasks[key], number, reply, minScore)
      && Counts(before, repository.State(), r.claim, before.tasks[key], number, reply, minScore)
    }

    predicate Freed(released: TaskClaim, claim: TaskClaim) {
      released.status.Released? && released.claimId == claim.claimId
    }

    /** The report is about this claim. */
    predicate Concerns(r: RunResult, claim: TaskClaim) {
      || (r.Finished? && r.claim.claimId == claim.claimId && r.claim.key == claim.key)
      || (r.PausedFor? && Freed(r.claim, claim))
      || r == Lost(claim)
    }

    /** The error of a submission that `run_once` does not catch is raised exactly
        by a review of another attempt, an intent or identifier already taken for
        something else, or a clock that runs backwards. */
    ghost predicate EscapesExactly(r: Result<RunResult>, f: Flight, reply: Reply, last: Transaction, before: Spec.Store)
      requires f.attemptNo.Some?
    {
      last.Submitting? ==>
        var step := Submission(f.claim, reply, last.outcome.attempt.attemptId);
        && last.outcome == SubmissionOf(f, step)
        && (r.Err? <==> RaisesValueError(before, f, step, last.now) || RaisesIntegrityError(before, f, step, last.now))
    }

    /** The last heartbeat and renewal before a result is handed in. */
    method Refresh(claim: TaskClaim, now: Instant)
      returns (r: Result<()>, ghost last: Transaction, ghost before: Spec.Store, ghost made: seq<Step>)
      requires Valid()
      modifies repository, repository.outbox, this`session, this`system, this`others, this`mine, this`granted,
        this`trail
      ensures Valid() && Quiet()
      ensures Failure(r) == Refusal(before, last) && (last.Beating? || last.Renewing?)
      ensures r.Err? ==> before == repository.State()
      ensures r.Ok? ==> last.Renewing?
      ensures trail == old(trail) + made && HandsIn(made, claim, last)
    {
      last, before, made := Beating(now), repository.State(), [Opening(false)];
      r := Beat(now);
      if r.Err? {
        return;
      }
      Others();
      last, before := Renewing(claim, now), repository.State();
      made := made + [SchedulerRuns.Renew(claim.claimId, workerId, sessionId, claim.token, lease)];
      r := Renew(claim, now);
    }

    /** The commit of an attempt, and what is reported of it. */
    method Deliver(claim: TaskClaim, task: Task, number: int, reply: Reply, now: Instant)
      returns (r: Result<RunResult>, ghost last: Transaction, ghost made: Step)
      requires Valid() && Flying(claim, task, Some(number))
      modifies repository, repository.outbox, this`system, this`mine, this`granted, this`trail
      ensures Valid() && mine == old(mine) && granted == old(granted)
      ensures Explained(r, claim, last, old(repository.State())) && last.Submitting?
      ensures r.Ok? && r.value.Finished? ==> Recorded(r.value, reply, old(repository.State()))
      ensures r.Ok? ==> Concerns(r.value, claim) && !r.value.PausedFor?
      ensures trail == old(trail) + [made] && Submits(made, claim)
      ensures EscapesExactly(r, Flight(claim, task, Some(number)), reply, last, old(repository.State()))
      ensures Credit() == old(Credit()) + if IsFinished(r) then {claim.claimId} else {}
    {
      var attemptId: Id := *;
      last := Submitting(claim, BuildOutcome(claim, task, number, reply, attemptId, minScore), now);
      made := Submission(claim, reply, attemptId);
      ghost var s := repository.State();
      var committed := Submit(claim, task, number, reply, attemptId, now);
      EscapingErrors(s, Flight(claim, task, Some(number)), Submission(claim, reply, attemptId), now, committed);
      r := if committed.Err? then Reported(claim, committed.error)
           else Ok(Finished(committed.value, ResultingStatus(task, number, reply, minScore)));
    }

    /** The pause of a task that needs an approval, and what is reported of it. */
    method Suspend(claim: TaskClaim, approval: Spec.Approval, now: Instant)
      returns (r: Result<RunResult>, ghost last: Transaction)
      requires Valid()
      modifies repository, repository.outbox, this`system, this`mine, this`granted, this`trail
      ensures Valid() && Quiet()
      ensures Explained(r, claim, last, old(repository.State())) && last == Pausing(claim, approval, now)
      ensures r.Ok? ==> Concerns(r.value, claim) && !r.value.Finished?
      ensures trail == old(trail) + [Pause(claim, approval)]
    {
      last := Pausing(claim, approval, now);
      var paused := PauseTask(claim, approval, now);
      r := if paused.Err? then Reported(claim, paused.error) else Ok(PausedFor(paused.value));
    }

    /** After the last heartbeat and renewal: the pause, or the commit. */
    method Settle(claim: TaskClaim, task: Task, number: int, approval: Option<Spec.Approval>, reply: Reply,
                  now: Instant)
      returns (r: Result<RunResult>, ghost last: Transaction, ghost made: Step)
      requires Valid() && Flying(claim, task, Some(number))
      modifies repository, repository.outbox, this`system, this`mine, this`granted, this`trail
      ensures Valid() && mine == old(mine) && granted == old(granted)
      ensures Explained(r, claim, last, old(repository.State()))
      ensures r.Ok? && r.value.Finished? ==> Recorded(r.value, reply, old(repository.State()))
      ensures r.Ok? ==> Concerns(r.value, claim)
      ensures EscapesExactly(r, Flight(claim, task, Some(number)), reply, last, old(repository.State()))
      ensures if approval.Some? then last.Pausing? && last.approval == approval.value else last.Submitting?
      ensures trail == old(trail) + [made] && Closes(made, claim, last)
      ensures Credit() == old(Credit()) + if IsFinished(r) then {claim.claimId} else {}
    {
      if approval.Some? {
        made := Pause(claim, approval.value);
        r, last := Suspend(claim, approval.value, now);
      } else {
        r, last, made := Deliver(claim, task, number, reply, now);
      }
    }

    /** From an execution's ending to the report. */
    method HandIn(claim: TaskClaim, task: Task, number: int, approval: Option<Spec.Approval>, reply: Reply)
      returns (r: Result<RunResult>, ghost last: Transaction, ghost before: Spec.Store, ghost made: seq<Step>)
      requires Valid() && Flying(claim, task, Some(number))
      modifies repository, repository.outbox, this`session, this`system, this`others, this`mine, this`granted,
        this`trail
      ensures Valid() && mine == old(mine) && granted == old(granted)
      ensures Explained(r, claim, last, before)
      ensures r.Ok? && r.value.Finished? ==> Recorded(r.value, reply, before)
      ensures last.Pausing? ==> approval == Some(last.approval)
      ensures last.Submitting? ==> approval.None?
      ensures r.Ok? ==> Concerns(r.value, claim)
      ensures EscapesExactly(r, Flight(claim, task, Some(number)), reply, last, before)
      ensures !last.Enrolling? && !last.Discovering?
      ensures trail == old(trail) + made && HandsIn(made, claim, last)
      ensures Credit() == old(Credit()) + if IsFinished(r) then {claim.claimId} else {}
    {
      var now: Instant, later: Instant := *, *;
      var refreshed;
      refreshed, last, before, made := Refresh(claim, now);
      if refreshed.Err? {
        r := Reported(claim, refreshed.error);
        return;
      }
      Others();
      before := repository.State();
      ghost var refreshing := last;
      ghost var closing;
      r, last, closing := Settle(claim, task, number, approval, reply, later);
      made := HandInEnds(made, refreshing, closing, claim, last, old(trail));
    }

    /** How a call of `run_once` ends: an error of the first two transactions
        always escapes, a later one only when it does not mean a lost claim. A
        refused transaction left the store as it found it; one that was not ends in the
        report that belongs to it. */
    ghost predicate Ended(r: Result<RunResult>, last: Transaction, before: Spec.Store)
      reads repository, repository.outbox
    {
      match Refusal(before, last)
      case None => r.Ok? && EndsWith(last, r.value)
      case Some(e) =>
        && before == repository.State()
        && if last.Enrolling? || last.Discovering? || !MeansLost(e) then r == Err(e) else r.Ok? && r.value.Lost?
    }

    /** An attempt was recorded, whatever the reply. */
    ghost predicate Achieved(r: RunResult, before: Spec.Store)
      requires r.Finished?
      reads repository, repository.outbox
    {
      exists reply :: Recorded(r, reply, before)
    }

    /** The attempt's number, once the reviews are read. */
    method Prepare(claim: TaskClaim, task: Task) returns (number: int)
      requires Valid() && Flying(claim, task, None)
      modifies repository, repository.outbox, this`system, this`others, this`mine, this`granted, this`trail
      ensures Valid() && Flying(claim, task, Some(number)) && granted == old(granted) && Credit() == old(Credit())
      ensures trail == old(trail) + [CountReviews(claim.claimId)]
    {
      Others();
      number := NumberAttempt(claim, task);
      Others();
    }

    /** Executing a claimed task, and handing the result in. */
    method Execute(claim: TaskClaim, task: Task)
      returns (r: Result<RunResult>, ghost last: Transaction, ghost before: Spec.Store, ghost made: seq<Step>)
      requires Valid() && Flying(claim, task, None)
      modifies repository, repository.outbox, this`session, this`system, this`others, this`mine, this`granted,
        this`trail
      ensures Valid() && mine.Keys == {claim.claimId} && granted == old(granted)
      ensures trail == old(trail) + made && WorksOn(made, claim, last)
      ensures Explained(r, claim, last, before) && !last.Enrolling? && !last.Discovering?
      ensures r.Ok? ==> Concerns(r.value, claim)
      ensures r.Ok? && r.value.Finished? ==> Achieved(r.value, before)
      ensures Credit() == old(Credit()) + if IsFinished(r) then {claim.claimId} else {}
    {
      var number := Prepare(claim, task);
      assert mine.Keys == {claim.claimId};
      var lost: bool, approval: Option<Spec.Approval>, reply: Reply := *, *, *;
      made := [CountReviews(claim.claimId)];
      if lost {
        r, last, before := Ok(Lost(claim)), Executing, repository.State();
        return;
      }
      ghost var handedIn;
      r, last, before, handedIn := HandIn(claim, task, number, approval, reply);
      Joined(old(trail), made, handedIn);
      made := made + handedIn;
      HandedInIsWork(handedIn, claim, last);
      assert r.Ok? && r.value.Finished? ==> Recorded(r.value, reply, before);
    }

    /** The worker forgets the claim it was working on. */
    ghost method Forget(claimId: Id)
      requires Valid() && mine.Keys == {claimId}
      modifies this`system, this`mine, this`granted, this`trail
      ensures Valid() && mine == map[] && granted == old(granted) && Credit() == old(Credit())
      ensures system.store == old(system.store) && trail == old(trail) + [Crash(claimId)]
    {
      Take(Crash(claimId), 0);
    }

    /** One claimed task, from its claim to the report. */
    method Work(claim: TaskClaim, task: Task)
      returns (r: Result<RunResult>, ghost last: Transaction, ghost before: Spec.Store, ghost made: seq<Step>)
      requires Valid() && Flying(claim, task, None)
      modifies repository, repository.outbox, this`session, this`system, this`others, this`mine, this`granted,
        this`trail
      ensures Valid() && mine == map[] && granted == old(granted)
      ensures Ended(r, last, before)
      ensures trail == old(trail) + made + [Crash(claim.claimId)] && WorksOn(made, claim, last)
      ensures r.Ok? ==> Concerns(r.value, claim)
      ensures r.Ok? && r.value.Finished? ==> Achieved(r.value, before)
      ensures Credit() == old(Credit()) + if IsFinished(r) then {claim.claimId} else {}
    {
      r, last, before, made := Execute(claim, task);
      Forget(claim.claimId);
    }

    /** The session and discovery. */
    method Begin() returns (r: Result<Option<(TaskClaim, Task)>>, ghost last: Transaction, ghost before: Spec.Store)
      requires Valid() && mine == map[]
      modifies repository, repository.outbox, this`session, this`system, this`others, this`mine, this`granted,
        this`trail
      ensures Valid() && Credit() == old(Credit())
      ensures Failure(r) == Refusal(before, last) && (last.Enrolling? || last.Discovering?)
      ensures r.Err? ==> before == repository.State()
      ensures r.Ok? && r.value.Some? ==>
        var (claim, task) := r.value.value;
        && Flying(claim, task, None) && claim.claimId !in old(granted) && granted == old(granted) + {claim.claimId}
        && last == Discovering(claim.claimId, last.now)
      ensures !(r.Ok? && r.value.Some?) ==> mine == map[] && granted == old(granted)
      ensures r.Ok? && r.value.None? ==> FoundNothing(before, last)
      ensures trail == old(trail) + Beginning(old(session).None?, last)
      ensures r.Ok? ==> last.Discovering?
    {
      Others();
      var now: Instant, claimId: Id := *, *;
      last, before := Enrolling(session.None?, now), repository.State();
      var ensured := EnsureSession(now);
      if ensured.Err? {
        r := Err(ensured.error);
        return;
      }
      Others();
      last, before := Discovering(claimId, now), repository.State();
      Joined(old(trail), [Opening(old(session).None?)],
             [ClaimNext(workerId, sessionId, assignments, claimId, lease)]);
      r := Discover(now, claimId);
    }

    /** The work on the one claim that this call was granted. */
    method Serve(claim: TaskClaim, task: Task, ghost earlier: set<Id>, ghost credit: set<Id>)
      returns (r: Result<RunResult>, ghost last: Transaction, ghost before: Spec.Store, ghost made: seq<Step>)
      requires Valid() && Flying(claim, task, None) && claim.claimId !in earlier
      requires granted == earlier + {claim.claimId} && credit == Credit() && credit <= earlier
      modifies repository, repository.outbox, this`session, this`system, this`others, this`mine, this`granted,
        this`trail
      ensures Valid() && mine == map[]
      ensures trail == old(trail) + made + [Crash(claim.claimId)] && WorksOn(made, claim, last)
      ensures Ended(r, last, before) && (r.Ok? ==> !r.value.Idle?)
      ensures GrantedAtMostOne(repository.State(), earlier, granted, r)
      ensures credit <= Credit() && |Credit()| == |credit| + if IsFinished(r) then 1 else 0
      ensures r.Ok? && r.value.Finished? ==> Achieved(r.value, before)
    {
      r, last, before, made := Work(claim, task);
      OneGranted(system.store, earlier, credit, claim.claimId, r);
    }

    /** `run_once` among any transactions of any other processes. At most one claim
        is granted to it, a new one. Finished means that this claim is committed,
        with one new attempt under the next number and the reported status, Idle that
        discovery had nothing to give; after any other report or error, no claim granted
        to this call is committed, and none that was granted to this worker before has
        become so. Its steps come in the order of the source, and none follows the one
        that ended it. */
    method RunOnce()
      returns (r: Result<RunResult>, ghost last: Transaction, ghost before: Spec.Store, ghost made: seq<Step>)
      requires Valid() && mine == map[]
      modifies repository, repository.outbox, this`session, this`system, this`others, this`mine, this`granted,
        this`trail
      ensures Valid() && mine == map[]
      ensures Ended(r, last, before)
      ensures trail == old(trail) + made && Calls(made, old(session).None?, last)
      ensures GrantedAtMostOne(repository.State(), old(granted), granted, r)
      ensures old(Credit()) <= Credit() && |Credit()| == |old(Credit())| + if IsFinished(r) then 1 else 0
      ensures r.Ok? && r.value.Finished? ==> Achieved(r.value, before)
      ensures r.Ok? && r.value.Idle? ==> FoundNothing(before, last)
    {
      var begun;
      begun, last, before := Begin();
      made := Beginning(old(session).None?, last);
      ghost var found := last;
      if begun.Err? {
        r := Err(begun.error);
        return;
      }
      if begun.value.None? {
        r := Ok(Idle);
        return;
      }
      var (claim, task) := begun.value.value;
      ghost var work;
      r, last, before, work := Serve(claim, task, old(granted), old(Credit()));
      assert r.Ok? ==> !r.value.Idle?;
      made := WorkIsCall(work, old(session).None?, found, claim, last, old(trail));
    }

    /** One turn of the loop, as its counters see it. */
    method Turn() returns (r: Result<RunResult>)
      requires Valid() && mine == map[]
      modifies this, repository, repository.outbox
      ensures Valid() && mine == map[]
      ensures old(Credit()) <= Credit() && |Credit()| == |old(Credit())| + if IsFinished(r) then 1 else 0
      ensures r.Ok? ==> !r.value.Stopped?
      ensures looks == old(looks) + 1
    {
      looks := looks + 1;
      ghost var last, before, made;
      r, last, before, made := RunOnce();
    }

    /** `run`: the counter is the number of claims this worker has committed in it,
        and it never passes the limit. `polls` is how often it looks before it is
        stopped; it ends sooner only with the limit reached, an error, or a task that
        was paused or lost. */
    method Run(maxTasks: Option<nat>, polls: nat) returns (r: Result<RunResult>, committed: nat)
      requires Valid() && mine == map[] && (maxTasks.Some? ==> maxTasks.value >= 1)
      modifies this, repository, repository.outbox
      ensures Valid() && mine == map[]
      ensures old(Credit()) <= Credit() && |Credit()| == |old(Credit())| + committed
      ensures maxTasks.Some? ==> committed <= maxTasks.value
      ensures r.Ok? && r.value.Finished? ==> maxTasks == Some(committed)
      ensures r.Ok? ==> !r.value.Idle?
      ensures r == Ok(Stopped) ==> looks == old(looks) + polls
      ensures looks <= old(looks) + polls
    {
      committed := 0;
      for poll := 0 to polls
        invariant Valid() && mine == map[]
        invariant old(Credit()) <= Credit() && |Credit()| == |old(Credit())| + committed
        invariant maxTasks.Some? ==> committed < maxTasks.value
        invariant looks == old(looks) + poll
      {
        r := Turn();
        if r.Err? || r.value.Lost? || r.value.PausedFor? {
          return;
        }
        if r.value.Finished? {
          committed := committed + 1;
          if maxTasks == Some(committed) {
            return;
          }
        }
      }
      r := Ok(Stopped);
    }
  }

  lemma Joined(a: seq<Step>, b: seq<Step>, c: seq<Step>)
    ensures a + b + c == a + (b + c)
  {
  }

  lemma NewClaimEarnsNothing(s: Spec.Store, claim: TaskClaim, granted: set<Id>)
    requires claim.claimId in s.claims && s.claims[claim.claimId] == claim && claim.status.Live?
    ensures Earned(s, granted + {claim.claimId}) == Earned(s, granted)
  {
  }

  lemma DiscoveryGrants(sys: System, step: Step, now: Instant)
    requires step.ClaimNext? && RowsKeyed(sys.store)
    ensures
      var t := Spec.ClaimNextTask(sys.store, step.workerId, step.sessionId, step.assignments, step.claimId, now,
                                  step.lease);
      if t.result.Ok? && t.result.value.Some? then
        var claim := t.result.value.value;
        && claim.claimId == step.claimId && claim.claimId !in sys.store.claims && claim.status.Live?
        && claim.key in t.store.tasks && t.store.tasks[claim.key].key == claim.key
        && t.store.claims == sys.store.claims[claim.claimId := claim]
        && Remembered(sys.store, map[], step, now) ==
             map[claim.claimId := Flight(claim, t.store.tasks[claim.key], None)]
      else t.store == sys.store && Remembered(sys.store, map[], step, now) == map[]
  {
    ClaimNextTaskChange(sys.store, step.workerId, step.sessionId, step.assignments, step.claimId, now, step.lease);
  }

  lemma PauseReleases(s: Spec.Store, claim: TaskClaim, approval: Spec.Approval, now: Instant)
    requires RowsKeyed(s)
    ensures var t := Spec.PauseClaim(s, claim, approval, now);
            if t.result.Ok? then t.result.value.status.Released? && t.result.value.claimId == claim.claimId
            else t.store == s
  {
  }

  /** The worker's picture of its task is the stored row, and its number the next one. */
  predicate FliesExactly(s: Spec.Store, f: Flight) {
    && f.claim.key in s.tasks && s.tasks[f.claim.key] == f.task
    && f.attemptNo == Some(|ReviewsOf(s, f.claim.key)| + 1)
  }

  /** The errors of a submission that say more than that the claim is lost. */
  ghost predicate AnswersExactly(s: Spec.Store, f: Flight, step: Step, now: Instant, answer: Result<TaskClaim>)
    requires step.Commit? && f.attemptNo.Some?
  {
    && (answer == Err(InvalidValue) <==> RaisesValueError(s, f, step, now))
    && (answer == Err(IntegrityError) <==> RaisesIntegrityError(s, f, step, now))
    && answer != Err(MissingRecord)
  }

  lemma EscapingErrors(s: Spec.Store, f: Flight, step: Step, now: Instant, answer: Result<TaskClaim>)
    requires step.Commit? && f.attemptNo.Some? && AnswersExactly(s, f, step, now, answer)
    ensures answer.Err? && !MeansLost(answer.error) <==>
              RaisesValueError(s, f, step, now) || RaisesIntegrityError(s, f, step, now)
  {
  }

  lemma FlightIsAnswered(sys: System, f: Flight, step: Step, now: Instant)
    requires Reachable(sys) && step.Commit? && step.claimId in sys.flights && sys.flights[step.claimId] == f
    requires f.attemptNo.Some?
    ensures var answer := Spec.CommitOutcome(sys.store, f.claim, SubmissionOf(f, step), now).result;
            AnswersExactly(sys.store, f, step, now, answer) && (answer.Ok? ==> FliesExactly(sys.store, f))
  {
    ReachableIsSafe(sys);
    CommitRefusedExactly(sys, f, step, now);
    CommitAcceptedExactly(sys, f, step, now);
    assert FlightOk(sys.store, step.claimId, f);
  }
}
