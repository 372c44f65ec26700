/** The guarantees a maintainer relies on, for every reachable state. */
module SchedulerTheorems {
  import opened Domain
  import opened Scheduler
  import opened Outbox
  import opened Store
  import opened StoreInvariant
  import opened StoreSteps
  import opened StoreTransactions
  import opened StoreHistory
  import opened WorkerService
  import opened SchedulerRuns
  import opened SchedulerSafety
  import TaskGraph

  // ---------------------------------------------------------------- ownership

  predicate HoldSameTask(a: TaskClaim, b: TaskClaim) {
    a.key == b.key && a.status.Live? && b.status.Live?
  }

  /** In every reachable state a task has at most one live claim; the tokens of
      its claims are exactly 1 .. last_token; the live claim carries the last
      token and its task is running for the claim's agent; and a task runs
      exactly while someone holds it. */
  lemma Ownership(states: seq<System>, steps: seq<Step>, times: seq<Instant>, i: nat)
    requires Run(states, steps, times) && i < |states|
    ensures var s := states[i].store;
            && (forall c, d :: c in s.claims && d in s.claims && HoldSameTask(s.claims[c], s.claims[d]) ==> c == d)
            && (forall k, n :: k in s.fences ==> (IssuedToken(s, k, n) <==> 1 <= n <= s.fences[k]))
            && (forall c :: c in s.claims && s.claims[c].status.Live? ==> OwnsTask(s, s.claims[c]))
            && (forall k :: k in s.tasks ==> (s.tasks[k].status.Running? <==> HasLiveClaim(s, k)))
  {
    RunKeepsInv(states, steps, times, i);
    var s := states[i].store;
    forall c, d | c in s.claims && d in s.claims && HoldSameTask(s.claims[c], s.claims[d]) ensures c == d {
      OneLiveClaim(s, c, d);
    }
    OwnersRun(s);
  }

  lemma OwnersRun(s: Store)
    requires Owned(s)
    ensures forall k :: k in s.tasks ==> (s.tasks[k].status.Running? <==> HasLiveClaim(s, k))
  {
    forall k | k in s.tasks && HasLiveClaim(s, k) ensures s.tasks[k].status.Running? {
      var c :| c in s.claims && s.claims[c].key == k && s.claims[c].status.Live?;
      assert OwnsTask(s, s.claims[c]);
    }
  }

  // ---------------------------------------------------------------- authority

  /** The current session of the worker, unexpired. */
  predicate SessionLives(s: Store, workerId: Id, sessionId: Id, now: Instant) {
    workerId in s.sessions && s.sessions[workerId].sessionId == sessionId && now < s.sessions[workerId].expiresAt
  }

  /** Who may act on a claim: the current session of its worker, unexpired, with
      the live claim of that identity, unexpired. */
  predicate HoldsAuthority(s: Store, c: Id, workerId: Id, sessionId: Id, token: int, now: Instant) {
    && SessionLives(s, workerId, sessionId, now)
    && c in s.claims && s.claims[c].status.Live? && now < s.claims[c].expiresAt
    && s.claims[c].workerId == workerId && s.claims[c].sessionId == sessionId && s.claims[c].token == token
  }

  /** Without that authority no fenced mutation succeeds, and none leaves a trace. */
  lemma NoAuthorityNoChange(s: Store, claim: TaskClaim, now: Instant, lease: int, approval: Approval, o: Outcome)
    requires !HoldsAuthority(s, claim.claimId, claim.workerId, claim.sessionId, claim.token, now)
    ensures var renewed := RenewClaim(s, claim.claimId, claim.workerId, claim.sessionId, claim.token, now, lease);
            renewed.result.Err? && renewed.store == s
    ensures var released := ReleaseClaim(s, claim.claimId, claim.workerId, claim.sessionId, claim.token, now);
            released.result.Err? && released.store == s
    ensures var paused := PauseClaim(s, claim, approval, now); paused.result.Err? && paused.store == s
    ensures var committed := CommitOutcome(s, claim, o, now); committed.result.Err? && committed.store == s
  {
    assert Authorize(s, claim.claimId, claim.workerId, claim.sessionId, claim.token, now).Err?;
  }

  /** The claim has ended, or is not the last one issued for its task. */
  predicate Superseded(s: Store, claim: TaskClaim) {
    && claim.claimId in s.claims && SameClaim(claim, s.claims[claim.claimId])
    && (!s.claims[claim.claimId].status.Live? || (claim.key in s.fences && claim.token < s.fences[claim.key]))
  }

  /** Authority is never regained: once a claim has ended, or a later token has
      been issued for its task, its holder fails in every later state. */
  lemma StaleForever(states: seq<System>, steps: seq<Step>, times: seq<Instant>, i: nat, j: nat, claim: TaskClaim,
                     now: Instant)
    requires Run(states, steps, times) && i <= j < |states|
    requires Superseded(states[i].store, claim)
    ensures !HoldsAuthority(states[j].store, claim.claimId, claim.workerId, claim.sessionId, claim.token, now)
  {
    RunKeepsInv(states, steps, times, i);
    RunEvolves(states, steps, times, i, j);
  }

  /** A lease is respected: reaping before it runs out leaves the claim and its task
      alone; reaping after ends it and takes its task back. The task is blocked if
      and only if the status of its latest delegation leaves open whether the remote
      side is at work, and waits for a worker otherwise. */
  lemma LeaseRespected(s: Store, c: Id, now: Instant, remote: map<TaskKey, RemoteState>)
    requires Inv(s) && c in s.claims && s.claims[c].status.Live?
    ensures var s' := ReapExpired(s, now, remote).store; var key := s.claims[c].key;
            && key in s'.tasks && c in s'.claims
            && (now < s.claims[c].expiresAt ==> s'.claims[c] == s.claims[c] && s'.tasks[key] == s.tasks[key])
            && (now >= s.claims[c].expiresAt ==>
                  && s'.claims[c] == s.claims[c].(status := Expired, finishedAt := Some(now))
                  && (s'.tasks[key].status.Blocked? <==>
                        key in remote
                        && (remote[key].Submitting? || remote[key].Unknown? || remote[key].Interrupted?))
                  && (s'.tasks[key].status.Blocked? || s'.tasks[key].status.Pending?)
                  && s'.tasks[key] == s.tasks[key].(status := s'.tasks[key].status, assignedAgent := None))
  {
    assert OwnsTask(s, s.claims[c]);
    forall d | d in s.claims && s.claims[d].key == s.claims[c].key && s.claims[d].status.Live? ensures c == d {
      OneLiveClaim(s, c, d);
    }
    ReapOne(s, c, now, remote);
  }

  lemma ReapOne(s: Store, c: Id, now: Instant, remote: map<TaskKey, RemoteState>)
    requires Leased(s) && c in s.claims && s.claims[c].status.Live? && OwnsTask(s, s.claims[c])
    requires forall d :: d in s.claims && s.claims[d].key == s.claims[c].key && s.claims[d].status.Live? ==> c == d
    ensures var s' := ReapExpired(s, now, remote).store; var key := s.claims[c].key;
            key in s'.tasks && c in s'.claims &&
            if now < s.claims[c].expiresAt then s'.claims[c] == s.claims[c] && s'.tasks[key] == s.tasks[key]
            else s'.claims[c] == s.claims[c].(status := Expired, finishedAt := Some(now))
                 && s'.tasks[key] == s.tasks[key].(status := s'.tasks[key].status, assignedAgent := None)
                 && s'.tasks[key].status ==
                    if key in remote && (remote[key].Submitting? || remote[key].Unknown? || remote[key].Interrupted?)
                    then TaskStatus.Blocked else Pending
  {
    assert KeyReapable(s, s.claims[c].key, now) <==> s.claims[c].IsExpired(now);
    assert ReapExpired(s, now, remote).result.Ok? by {
      ReapNeverRefuses(s, now, remote);
    }
  }

  lemma ReapNeverRefuses(s: Store, now: Instant, remote: map<TaskKey, RemoteState>)
    requires Leased(s)
    ensures ReapExpired(s, now, remote).result.Ok?
  {
  }

  // ---------------------------------------------------------------- exclusion in time

  predicate Sorted(times: seq<Instant>) {
    forall i, j :: 0 <= i <= j < |times| ==> times[i] <= times[j]
  }

  lemma RunStepStamps(states: seq<System>, steps: seq<Step>, times: seq<Instant>, i: nat)
    requires Run(states, steps, times) && i < |steps|
    ensures Fenced(states[i].store) && Leased(states[i].store)
    ensures ClaimsEvolve(states[i].store, states[i + 1].store)
      && Stamped(states[i].store, states[i + 1].store, times[i])
  {
    RunKeepsInv(states, steps, times, i);
    assert Took(states, steps, times, i);
    StepAdvances(states[i], steps[i], times[i]);
  }

  lemma {:induction false} RunIsExclusive(states: seq<System>, steps: seq<Step>, times: seq<Instant>, i: nat)
    requires Run(states, steps, times) && Sorted(times) && i < |states|
    ensures Exclusive(states[i].store)
    ensures i > 0 ==> InThePast(states[i].store, times[i - 1])
  {
    if i > 0 {
      RunIsExclusive(states, steps, times, i - 1);
      StepIsExclusive(states, steps, times, i - 1);
    }
  }

  lemma StepIsExclusive(states: seq<System>, steps: seq<Step>, times: seq<Instant>, i: nat)
    requires Run(states, steps, times) && Sorted(times) && i < |steps|
    requires Exclusive(states[i].store) && (i > 0 ==> InThePast(states[i].store, times[i - 1]))
    ensures Exclusive(states[i + 1].store) && InThePast(states[i + 1].store, times[i])
  {
    RunStepStamps(states, steps, times, i);
    var clock := if i == 0 then times[0] else times[i - 1];
    assert InThePast(states[i].store, clock);
    StampKeepsExclusion(states[i].store, states[i + 1].store, clock, times[i]);
  }

  /** With a clock that never runs backwards, two claims of one task never
      overlap in time: the one with the smaller token has finished when the
      other is acquired. */
  lemma ClaimsNeverOverlap(states: seq<System>, steps: seq<Step>, times: seq<Instant>, i: nat, c: Id, d: Id)
    requires Run(states, steps, times) && Sorted(times) && i < |states|
    requires c in states[i].store.claims && d in states[i].store.claims
    requires Precedes(states[i].store.claims[c], states[i].store.claims[d])
    ensures var first, second := states[i].store.claims[c], states[i].store.claims[d];
            first.finishedAt.Some? && first.acquiredAt <= first.finishedAt.value <= second.acquiredAt
  {
    RunIsExclusive(states, steps, times, i);
    assert i > 0;
  }

  // ---------------------------------------------------------------- dependencies

  /** Everything a claimed task waits for, directly or through other tasks, has
      succeeded. */
  lemma {:induction false} TransitiveDependenciesMet(s: Store, key: TaskKey, p: seq<Id>)
    requires RowsKeyed(s) && DependenciesMet(s) && key in s.fences
    requires |p| >= 2 && p[0] == key.task && TaskGraph.Path(PlanGraph(s.tasks, key.goal), p)
    ensures var last := TaskKey(key.goal, p[|p| - 1]); last in s.tasks && s.tasks[last].status.Succeeded?
    decreases |p|
  {
    var g := PlanGraph(s.tasks, key.goal);
    assert TaskGraph.Edge(g, p[0], p[1]);
    var next := TaskKey(key.goal, p[1]);
    assert next in s.tasks && s.tasks[next].status.Succeeded? && next in s.fences by {
      ClaimedDependency(s, key, p[1]);
    }
    if |p| > 2 {
      var tail := p[1..];
      forall i | 0 <= i < |tail| - 1 ensures TaskGraph.Edge(g, tail[i], tail[i + 1]) {
        assert TaskGraph.Edge(g, p[i + 1], p[i + 2]);
      }
      TransitiveDependenciesMet(s, next, tail);
    }
  }

  lemma ClaimedDependency(s: Store, key: TaskKey, d: Id)
    requires RowsKeyed(s) && DependenciesMet(s) && key in s.fences
    requires TaskGraph.Edge(PlanGraph(s.tasks, key.goal), key.task, d)
    ensures var next := TaskKey(key.goal, d); next in s.tasks && s.tasks[next].status.Succeeded? && next in s.fences
  {
    assert Ready(s, s.tasks[key]);
    assert TaskKey(key.goal, key.task) == key;
  }

  /** Dependency safety over time: if a task was ever claimed, then from that
      moment on everything it waits for stays succeeded. */
  lemma DependencySafety(states: seq<System>, steps: seq<Step>, times: seq<Instant>, i: nat, j: nat, key: TaskKey,
                         p: seq<Id>)
    requires Run(states, steps, times) && i <= j < |states| && key in states[i].store.fences
    requires |p| >= 2 && p[0] == key.task && TaskGraph.Path(PlanGraph(states[i].store.tasks, key.goal), p)
    ensures var last := TaskKey(key.goal, p[|p| - 1]);
            last in states[j].store.tasks && states[j].store.tasks[last].status.Succeeded?
  {
    RunKeepsInv(states, steps, times, i);
    TransitiveDependenciesMet(states[i].store, key, p);
    RunEvolves(states, steps, times, i, j);
  }

  // ---------------------------------------------------------------- goals

  /** Finished tasks and goals never change. */
  lemma FinishedWorkStands(states: seq<System>, steps: seq<Step>, times: seq<Instant>, i: nat, j: nat)
    requires Run(states, steps, times) && i <= j < |states|
    ensures forall k :: k in states[i].store.tasks && states[i].store.tasks[k].status.Terminal() ==>
              k in states[j].store.tasks && states[j].store.tasks[k] == states[i].store.tasks[k]
    ensures forall g :: g in states[i].store.goals && states[i].store.goals[g].Terminal() ==>
              g in states[j].store.goals && states[j].store.goals[g] == states[i].store.goals[g]
  {
    RunEvolves(states, steps, times, i, j);
  }

  /** Goal states tell the truth: a goal has succeeded exactly when it has tasks
      and all of them have; a failed task fails its goal in the same state; a
      blocked goal has a blocked task. */
  lemma GoalsTellTheTruth(states: seq<System>, steps: seq<Step>, times: seq<Instant>, i: nat)
    requires Run(states, steps, times) && i < |states|
    ensures GoalsAgree(states[i].store)
  {
    RunKeepsInv(states, steps, times, i);
  }

  // ---------------------------------------------------------------- attempts

  /** Attempts are exact and bounded: the stored attempt numbers of a task are
      1 .. n, each once, where n counts its committed claims; n never exceeds
      the limit, stays below it while the task is open, and has reached it when the
      task has failed. */
  lemma AttemptsAreExact(states: seq<System>, steps: seq<Step>, times: seq<Instant>, i: nat, key: TaskKey)
    requires Run(states, steps, times) && i < |states| && key in states[i].store.tasks
    ensures var s := states[i].store; var n := |CommittedOf(s, key)|; var task := s.tasks[key];
            && (forall m :: AttemptRecorded(s, key, m) <==> 1 <= m <= n)
            && |AttemptsOf(s, key)| == n == |ReviewsOf(s, key)|
            && n <= task.maxAttempts
            && (task.status.Pending? || task.status.Running? ==> n < task.maxAttempts)
            && (task.status.Failed? ==> n == task.maxAttempts)
  {
    RunKeepsInv(states, steps, times, i);
    var s := states[i].store;
    assert Counted(s, key) && WithinLimit(s, s.tasks[key]);
    forall m | AttemptRecorded(s, key, m) ensures 1 <= m <= |CommittedOf(s, key)| {
      var a :| a in s.attempts && s.attempts[a].key == key && s.attempts[a].number == m;
      assert a in AttemptsOf(s, key);
    }
  }

  // ---------------------------------------------------------------- who commits

  /** Exactly the same of these claims are committed. */
  predicate SameCommitted(s: Store, s': Store, c: Id) {
    c in s.claims ==> c in s'.claims && (s'.claims[c].status.Committed? <==> s.claims[c].status.Committed?)
  }

  lemma OpeningCommitsNothing(s: Store, t: Txn<Option<TaskClaim>>, c: Id)
    requires if t.result.Ok? && t.result.value.Some? then Opens(s, t.store, t.result.value.value) else t.store == s
    ensures SameCommitted(s, t.store, c)
  {
  }

  lemma RefreshCommitsNothing(s: Store, s': Store, c: Id)
    requires Refreshes(s, s') || s' == s
    ensures SameCommitted(s, s', c)
  {
  }

  lemma EndCommitsNothing(s: Store, s': Store, doomed: set<Id>, c: Id)
    requires Ends(s, s', doomed)
    ensures SameCommitted(s, s', c)
  {
  }

  lemma WorkerStepCommitsNothing(s: Store, step: Step, now: Instant, c: Id)
    requires RowsKeyed(s) && Owned(s) && Leased(s) && ByWorker(step)
    ensures SameCommitted(s, WorkerStore(s, step, now), c)
  {
    match step
    case Register(_, _, _, _) =>
    case Heartbeat(w, ses, ttl) =>
    case Claim(key, w, ses, agent, id, lease) =>
      ClaimTaskChange(s, key, w, ses, agent, id, now, lease);
      OpeningCommitsNothing(s, ClaimTask(s, key, w, ses, agent, id, now, lease), c);
    case ClaimNext(w, ses, assignments, id, lease) =>
      ClaimNextTaskChange(s, w, ses, assignments, id, now, lease);
      OpeningCommitsNothing(s, ClaimNextTask(s, w, ses, assignments, id, now, lease), c);
    case Renew(id, w, ses, token, lease) =>
      RenewClaimChange(s, id, w, ses, token, now, lease);
      RefreshCommitsNothing(s, RenewClaim(s, id, w, ses, token, now, lease).store, c);
    case Release(id, w, ses, token) =>
      ReleaseCommitsNothing(s, id, w, ses, token, now, c);
    case Pause(claim, approval) =>
      PauseCommitsNothing(s, claim, approval, now, c);
  }

  lemma ReleaseCommitsNothing(s: Store, id: Id, w: Id, ses: Id, token: int, now: Instant, c: Id)
    requires RowsKeyed(s) && Owned(s)
    ensures SameCommitted(s, ReleaseClaim(s, id, w, ses, token, now).store, c)
  {
    ReleaseClaimChange(s, id, w, ses, token, now);
    var t := ReleaseClaim(s, id, w, ses, token, now);
    if t.result.Ok? {
      EndCommitsNothing(s, t.store, {id}, c);
    }
  }

  lemma PauseCommitsNothing(s: Store, claim: TaskClaim, approval: Approval, now: Instant, c: Id)
    requires RowsKeyed(s) && Owned(s)
    ensures SameCommitted(s, PauseClaim(s, claim, approval, now).store, c)
  {
    PauseClaimChange(s, claim, approval, now);
    var t := PauseClaim(s, claim, approval, now);
    if t.result.Ok? {
      EndCommitsNothing(s, EndClaim(s, claim.claimId, t.result.value, Pending), {claim.claimId}, c);
    }
  }

  lemma OperatorStepCommitsNothing(s: Store, step: Step, now: Instant, c: Id)
    requires RowsKeyed(s) && Owned(s) && Leased(s) && !ByWorker(step) && !ByPlanner(step) && !step.Commit?
    ensures SameCommitted(s, OperatorStore(s, step, now), c)
  {
    if step.Reap? {
      ReapCommitsNothing(s, step.remote, now, c);
    }
  }

  lemma ReapCommitsNothing(s: Store, remote: map<TaskKey, RemoteState>, now: Instant, c: Id)
    requires RowsKeyed(s) && Owned(s) && Leased(s)
    ensures SameCommitted(s, ReapExpired(s, now, remote).store, c)
  {
    ReapChange(s, now, remote);
    EndCommitsNothing(s, ReapExpired(s, now, remote).store, ExpiredClaims(s, now), c);
  }

  lemma SubmissionCommitsItsClaim(sys: System, step: Step, now: Instant, c: Id)
    requires WellKeyed(sys.store.outbox) && FlightsOk(sys.store, sys.flights) && step.Commit? && step.claimId != c
    ensures SameCommitted(sys.store, SubmittedStore(sys, step, now), c)
  {
    if step.claimId in sys.flights && sys.flights[step.claimId].attemptNo.Some? {
      var f := sys.flights[step.claimId];
      assert FlightOk(sys.store, step.claimId, f);
      CommitChange(sys.store, f.claim, SubmissionOf(f, step), now);
    }
  }

  /** Only the holder's own submission makes a claim committed; no step of any
      other kind, of any process, does, and none takes it back. */
  lemma OnlyItsHolderCommits(sys: System, step: Step, now: Instant, c: Id)
    requires SystemInv(sys) && c in sys.store.claims && !(step.Commit? && step.claimId == c)
    ensures c in Next(sys, step, now).store.claims
    ensures Next(sys, step, now).store.claims[c].status.Committed? <==> sys.store.claims[c].status.Committed?
  {
    StepCommitsNothing(sys, step, now, c);
  }

  lemma StepCommitsNothing(sys: System, step: Step, now: Instant, c: Id)
    requires RowsKeyed(sys.store) && Owned(sys.store) && Leased(sys.store) && WellKeyed(sys.store.outbox)
    requires FlightsOk(sys.store, sys.flights) && !(step.Commit? && step.claimId == c)
    ensures SameCommitted(sys.store, StoreAfter(sys, step, now), c)
  {
    if step.Commit? {
      SubmissionCommitsItsClaim(sys, step, now, c);
    } else if ByWorker(step) {
      WorkerStepCommitsNothing(sys.store, step, now, c);
    } else if ByPlanner(step) {
      PlannerStepCommitsNothing(sys.store, step);
    } else {
      OperatorStepCommitsNothing(sys.store, step, now, c);
    }
  }

  lemma PlannerStepCommitsNothing(s: Store, step: Step)
    requires ByPlanner(step)
    ensures PlannerStore(s, step).claims == s.claims
  {
  }

  // ---------------------------------------------------------------- what a commit answers

  /** The identifiers a submission brings are new. */
  predicate FreshRows(s: Store, o: Outcome) {
    && (o.artifact.Some? ==> o.artifact.value.artifactId !in s.artifacts)
    && o.attempt.attemptId !in s.attempts && o.review.reviewId !in s.reviews
  }

  /** A review that is not of the attempt being made. */
  predicate ReviewsAnother(f: Flight, reply: Reply)
    requires f.attemptNo.Some?
  {
    && reply.ending.Reviewed?
    && !(reply.ending.review.key == f.task.key && reply.ending.review.number == f.attemptNo.value)
  }

  predicate Holds(s: Store, f: Flight, now: Instant) {
    HoldsAuthority(s, f.claim.claimId, f.claim.workerId, f.claim.sessionId, f.claim.token, now)
  }

  predicate GoalRuns(s: Store, f: Flight) {
    f.claim.key.goal in s.goals && s.goals[f.claim.key.goal].Active?
  }

  /** What the holder of a claim is answered when it submits. */
  ghost predicate AnsweredByContent(s: Store, f: Flight, step: Step, now: Instant)
    requires step.Commit? && f.attemptNo.Some?
  {
    var o := SubmissionOf(f, step);
    var answer := CommitOutcome(s, f.claim, o, now).result;
    if ReviewsAnother(f, step.reply) then answer == Err(InvalidValue)
    else if !FreshRows(s, o) then answer == Err(IntegrityError)
    else match EnqueueAll(s.outbox, o.messages)
      case Err(e) => answer == Err(e)
      case Ok(_) =>
        if !GoalRuns(s, f) then answer == Err(StaleClaim)
        else if now < f.claim.acquiredAt then answer == Err(InvalidValue)
        else answer.Ok?
  }

  lemma HolderIsAnswered(s: Store, f: Flight, step: Step, now: Instant)
    requires step.Commit? && f.attemptNo.Some? && FlightOk(s, f.claim.claimId, f) && Holds(s, f, now)
    requires OwnsTask(s, s.claims[f.claim.claimId]) && Counted(s, f.claim.key)
    ensures AnsweredByContent(s, f, step, now)
  {
    var o := SubmissionOf(f, step);
    var current := s.claims[f.claim.claimId];
    assert Authorize(s, f.claim.claimId, f.claim.workerId, f.claim.sessionId, f.claim.token, now) == Ok(current);
    BuiltOutcomeIsConsistent(f.claim, f.task, f.attemptNo.value, step.reply, step.attemptId, step.minScore);
    assert OutcomeConsistent(current, o) <==> OutcomeConsistent(f.claim, o);
    NumberIsNew(s, f.claim.key, f.attemptNo.value);
    assert OutcomeRowsFit(s, o) <==> FreshRows(s, o);
  }

  lemma NumberIsNew(s: Store, key: TaskKey, n: int)
    requires Counted(s, key) && n == |ReviewsOf(s, key)| + 1
    ensures forall a :: a in s.attempts ==> !(s.attempts[a].key == key && s.attempts[a].number == n)
  {
    forall a | a in s.attempts && s.attempts[a].key == key ensures s.attempts[a].number != n {
      assert a in AttemptsOf(s, key);
    }
  }

  lemma CommitIsAnswered(sys: System, f: Flight, step: Step, now: Instant)
    requires SystemInv(sys) && step.Commit? && step.claimId in sys.flights && sys.flights[step.claimId] == f
    requires f.attemptNo.Some?
    ensures Holds(sys.store, f, now) ==> AnsweredByContent(sys.store, f, step, now)
    ensures !Holds(sys.store, f, now) ==>
              var answer := CommitOutcome(sys.store, f.claim, SubmissionOf(f, step), now).result;
              answer == Err(StaleClaim) || answer == Err(WorkerSessionRejected)
  {
    var s := sys.store;
    assert FlightOk(s, step.claimId, f);
    if Holds(s, f, now) {
      assert OwnsTask(s, s.claims[f.claim.claimId]);
      assert Counted(s, f.claim.key);
      HolderIsAnswered(s, f, step, now);
    }
  }

  /** Exactly when a worker's commit is accepted. Neither the re-check of the
      durable task nor UNIQUE(goal, task, attempt_no) ever refuses it: what can
      go wrong is authority, a review of another attempt, an identifier already
      taken, a goal that is no longer running, an intent that does not fit, or a
      clock behind the claim. */
  lemma CommitAcceptedExactly(sys: System, f: Flight, step: Step, now: Instant)
    requires SystemInv(sys) && step.Commit? && step.claimId in sys.flights && sys.flights[step.claimId] == f
    requires f.attemptNo.Some?
    ensures CommitOutcome(sys.store, f.claim, SubmissionOf(f, step), now).result.Ok? <==>
              && Holds(sys.store, f, now) && f.claim.acquiredAt <= now
              && !ReviewsAnother(f, step.reply) && FreshRows(sys.store, SubmissionOf(f, step))
              && AllFit(sys.store.outbox, SubmissionOf(f, step).messages)
              && GoalRuns(sys.store, f)
  {
    CommitIsAnswered(sys, f, step, now);
    EnqueueAllExactly(sys.store.outbox, SubmissionOf(f, step).messages);
  }

  /** The submissions that raise a value error although the holder still has
      authority: its review is of another attempt; the first of its intents that
      does not fit repeats one that is stored, or comes earlier in the submission,
      with another payload or limit; or its clock is behind the moment the claim
      was acquired. */
  ghost predicate RaisesValueError(s: Store, f: Flight, step: Step, now: Instant)
    requires step.Commit? && f.attemptNo.Some?
  {
    var o := SubmissionOf(f, step);
    && Holds(s, f, now)
    && (ReviewsAnother(f, step.reply)
        || (FreshRows(s, o) && FirstContradicts(s.outbox, o.messages))
        || (FreshRows(s, o) && AllFit(s.outbox, o.messages) && GoalRuns(s, f) && now < f.claim.acquiredAt))
  }

  /** An identifier is already taken: in the worker's rows, or, for a new intent,
      in the outbox or earlier in the submission. */
  ghost predicate RaisesIntegrityError(s: Store, f: Flight, step: Step, now: Instant)
    requires step.Commit? && f.attemptNo.Some?
  {
    var o := SubmissionOf(f, step);
    && Holds(s, f, now) && !ReviewsAnother(f, step.reply)
    && (!FreshRows(s, o) || FirstCollides(s.outbox, o.messages))
  }

  /** Exactly which error a refused commit raises: the value error, the
      integrity error, or one of the two that mean a lost claim, and no other. */
  lemma CommitRefusedExactly(sys: System, f: Flight, step: Step, now: Instant)
    requires SystemInv(sys) && step.Commit? && step.claimId in sys.flights && sys.flights[step.claimId] == f
    requires f.attemptNo.Some?
    ensures var answer := CommitOutcome(sys.store, f.claim, SubmissionOf(f, step), now).result;
            && (answer == Err(InvalidValue) <==> RaisesValueError(sys.store, f, step, now))
            && (answer == Err(IntegrityError) <==> RaisesIntegrityError(sys.store, f, step, now))
            && answer != Err(MissingRecord)
            && (answer == Err(StaleClaim) || answer == Err(WorkerSessionRejected) <==>
                  !Holds(sys.store, f, now) ||
                  (!ReviewsAnother(f, step.reply) && FreshRows(sys.store, SubmissionOf(f, step))
                   && AllFit(sys.store.outbox, SubmissionOf(f, step).messages) && !GoalRuns(sys.store, f)))
  {
    CommitIsAnswered(sys, f, step, now);
    EnqueueAllExactly(sys.store.outbox, SubmissionOf(f, step).messages);
    EnqueueRefusals(sys.store.outbox, SubmissionOf(f, step).messages);
  }

  predicate AsksForClaim(f: Flight, approval: Approval) {
    approval.key == f.claim.key && approval.status.Requested?
  }

  /** Exactly how a pause by the holder of a claim ends. The re-check of the durable
      task never refuses it; UNIQUE(fingerprint) can. */
  lemma PauseAnsweredExactly(sys: System, id: Id, f: Flight, approval: Approval, now: Instant)
    requires SystemInv(sys) && id in sys.flights && sys.flights[id] == f && Holds(sys.store, f, now)
    ensures var s := sys.store; var answer := PauseClaim(s, f.claim, approval, now).result;
            var stored := approval.approvalId in s.approvals;
            var fits := AsksForClaim(f, approval) && (stored ==> s.approvals[approval.approvalId] == approval);
            var taken :=
              !stored && exists id :: id in s.approvals && s.approvals[id].fingerprint == approval.fingerprint;
            && (answer.Ok? <==> fits && !taken && GoalRuns(s, f) && f.claim.acquiredAt <= now)
            && (answer == Err(IntegrityError) <==> fits && taken)
            && (answer == Err(StaleClaim) <==> fits && !taken && !GoalRuns(s, f))
            && (answer.Err? ==> answer.error in {InvalidValue, IntegrityError, StaleClaim})
  {
    assert FlightOk(sys.store, id, f);
    assert OwnsTask(sys.store, sys.store.claims[f.claim.claimId]);
    HolderPauses(sys.store, f, approval, now);
  }

  lemma HolderPauses(s: Store, f: Flight, approval: Approval, now: Instant)
    requires FlightOk(s, f.claim.claimId, f) && Holds(s, f, now) && OwnsTask(s, s.claims[f.claim.claimId])
    ensures var answer := PauseClaim(s, f.claim, approval, now).result;
            if !AsksForClaim(f, approval) || ApprovalDiffers(s, approval) then answer == Err(InvalidValue)
            else if ApprovalRowTaken(s, approval) then answer == Err(IntegrityError)
            else if !GoalRuns(s, f) then answer == Err(StaleClaim)
            else if now < f.claim.acquiredAt then answer == Err(InvalidValue)
            else answer.Ok?
  {
    assert Authorize(s, f.claim.claimId, f.claim.workerId, f.claim.sessionId, f.claim.token, now) ==
           Ok(s.claims[f.claim.claimId]);
  }
}
