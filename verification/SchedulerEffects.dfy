/** What each scheduler transaction leaves in the tables, row by row, and what that
    means for whoever comes next: which task can be claimed again, and which never. */
module SchedulerEffects {
  import opened Domain
  import opened Scheduler
  import opened Outbox
  import opened Store
  import opened StoreInvariant
  import opened StoreTransactions
  import opened SchedulerRuns
  import opened SchedulerSafety
  import opened SchedulerTheorems
  import opened SchedulerProgress

  // ---------------------------------------------------------------- authority

  /** Who is let through, with which claim, and which error tells the others why not. */
  lemma AuthorityExactly(s: Store, c: Id, workerId: Id, sessionId: Id, token: int, now: Instant)
    ensures
      var answer := Authorize(s, c, workerId, sessionId, token, now);
      && (answer.Ok? <==> HoldsAuthority(s, c, workerId, sessionId, token, now))
      && (answer.Ok? ==> answer == Ok(s.claims[c]))
      && (answer == Err(WorkerSessionRejected) <==> !SessionLives(s, workerId, sessionId, now))
      && (answer.Err? ==> answer.error == WorkerSessionRejected || answer.error == StaleClaim)
  {
  }

  // ---------------------------------------------------------------- sessions and leases

  /** A registration replaces whatever session the worker had, and lives from now on
      for its time to live. */
  lemma RegistrationLives(s: Store, workerId: Id, sessionId: Id, capabilities: set<Id>, now: Instant, ttl: int,
                          other: Id, later: Instant)
    ensures
      var created := CreateSession(workerId, sessionId, capabilities, now, ttl);
      && (created.Ok? <==> 1 <= ttl <= 86_400) && (created.Err? ==> created == Err(InvalidValue))
      && (created.Ok? ==>
            var s' := RegisterWorker(s, created.value);
            && s' == s.(sessions := s.sessions[workerId := s'.sessions[workerId]])
            && s'.sessions[workerId].workerId == workerId && s'.sessions[workerId].capabilities == capabilities
            && (SessionLives(s', workerId, other, later) <==> other == sessionId && later < now + ttl))
  {
  }

  /** A heartbeat is accepted exactly from the current session while it lives, for at
      most a day and not before the last one; it then lives on for that time. */
  lemma HeartbeatExtends(s: Store, workerId: Id, sessionId: Id, now: Instant, ttl: int)
    ensures
      var t := HeartbeatWorker(s, workerId, sessionId, now, ttl);
      && (t.result.Ok? <==>
            && SessionLives(s, workerId, sessionId, now)
            && s.sessions[workerId].lastHeartbeatAt <= now && 1 <= ttl <= 86_400)
      && (t.result == Err(WorkerSessionRejected) <==> !SessionLives(s, workerId, sessionId, now))
      && if t.result.Ok? then
           t.store == s.(sessions := s.sessions[workerId :=
                           s.sessions[workerId].(lastHeartbeatAt := now, expiresAt := now + ttl)])
         else t.store == s && t.result.error in {WorkerSessionRejected, InvalidValue}
  {
  }

  /** A renewal is accepted exactly from the holder, for at most a day and not before
      the last one; the claim then runs out that much later, and nothing else changes. */
  lemma RenewalExtends(s: Store, c: Id, workerId: Id, sessionId: Id, token: int, now: Instant, lease: int)
    ensures
      var t := RenewClaim(s, c, workerId, sessionId, token, now, lease);
      && (t.result.Ok? <==>
            && HoldsAuthority(s, c, workerId, sessionId, token, now)
            && s.claims[c].renewedAt <= now && 1 <= lease <= 86_400)
      && if t.result.Ok? then
           t.store == s.(claims := s.claims[c := s.claims[c].(renewedAt := now, expiresAt := now + lease)])
           && t.result == Ok(t.store.claims[c])
         else t.store == s
  {
    AuthorityExactly(s, c, workerId, sessionId, token, now);
  }

  // ---------------------------------------------------------------- releases

  /** A release is accepted exactly from the holder whose clock is not behind its
      claim; the claim is released and its task, if it is running, waits, assigned to
      nobody. */
  lemma ReleaseLeaves(s: Store, c: Id, workerId: Id, sessionId: Id, token: int, now: Instant)
    ensures
      var t := ReleaseClaim(s, c, workerId, sessionId, token, now);
      && (t.result.Ok? <==>
            HoldsAuthority(s, c, workerId, sessionId, token, now) && s.claims[c].acquiredAt <= now)
      && if t.result.Ok? then
           var key := s.claims[c].key;
           && t.result == Ok(s.claims[c].(status := Released, finishedAt := Some(now)))
           && t.store == s.(claims := s.claims[c := t.result.value],
                            tasks := if key in s.tasks && s.tasks[key].status == Running
                                     then s.tasks[key := s.tasks[key].(status := Pending, assignedAgent := None)]
                                     else s.tasks)
         else t.store == s
  {
    AuthorityExactly(s, c, workerId, sessionId, token, now);
  }

  /** The next worker with a live session gets the task, under the next token. */
  predicate GoesToTheNext(s: Store, key: TaskKey, workerId: Id, sessionId: Id, agentId: Id, claimId: Id, now: Instant,
                          lease: int, token: int)
  {
    var r := ClaimTask(s, key, workerId, sessionId, agentId, claimId, now, lease).result;
    && r.Ok? && r.value.Some? && r.value.value.key == key && r.value.value.token == token
    && r.value.value.workerId == workerId && r.value.value.expiresAt == now + lease
  }

  /** A pending task that was claimed before, of a running goal, is there for the next. */
  lemma WaitingTaskIsGranted(s: Store, key: TaskKey, workerId: Id, sessionId: Id, agentId: Id, claimId: Id,
                             now: Instant, lease: int)
    requires RowsKeyed(s) && Fenced(s) && Owned(s) && DependenciesMet(s) && key in s.fences
    requires key.goal in s.goals && s.goals[key.goal].Active? && s.tasks[key].status.Pending?
    requires SessionLives(s, workerId, sessionId, now) && claimId !in s.claims && 1 <= lease <= 86_400
    ensures GoesToTheNext(s, key, workerId, sessionId, agentId, claimId, now, lease, s.fences[key] + 1)
  {
    assert Ready(s, s.tasks[key]);
    forall c | c in s.claims && s.claims[c].key == key ensures !s.claims[c].status.Live? {
      assert s.claims[c].status.Live? ==> OwnsTask(s, s.claims[c]);
    }
    ClaimGrantedExactly(s, key, workerId, sessionId, agentId, claimId, now, lease);
    GrantLeaves(s, key, workerId, sessionId, agentId, claimId, now, lease);
  }

  lemma ReleasedKeepsShape(s: Store, c: Id, workerId: Id, sessionId: Id, token: int, now: Instant)
    requires Inv(s) && ReleaseClaim(s, c, workerId, sessionId, token, now).result.Ok?
    ensures
      var s' := ReleaseClaim(s, c, workerId, sessionId, token, now).store;
      RowsKeyed(s') && Fenced(s') && Owned(s') && DependenciesMet(s')
  {
    ReleaseAdvances(s, c, workerId, sessionId, token, now);
  }

  /** After an accepted release the task of a running goal is granted to the next
      worker with a live session that asks for it. */
  lemma ReleasedIsGranted(s: Store, c: Id, workerId: Id, sessionId: Id, token: int, now: Instant, next: Id, session: Id,
                          agentId: Id, claimId: Id, later: Instant, lease: int)
    requires Inv(s) && ReleaseClaim(s, c, workerId, sessionId, token, now).result.Ok?
    requires s.claims[c].key.goal in s.goals && s.goals[s.claims[c].key.goal].Active?
    requires SessionLives(s, next, session, later) && claimId !in s.claims && 1 <= lease <= 86_400
    ensures GoesToTheNext(ReleaseClaim(s, c, workerId, sessionId, token, now).store, s.claims[c].key, next, session,
                          agentId, claimId, later, lease, token + 1)
  {
    ReleaseLeaves(s, c, workerId, sessionId, token, now);
    ReleasedKeepsShape(s, c, workerId, sessionId, token, now);
    assert OwnsTask(s, s.claims[c]);
    WaitingTaskIsGranted(ReleaseClaim(s, c, workerId, sessionId, token, now).store, s.claims[c].key, next, session,
                         agentId, claimId, later, lease);
  }

  // ---------------------------------------------------------------- pauses and decisions

  /** An accepted pause: the claim is released, its task waits, the approval is
      stored and the goal is paused; a refused one leaves nothing. */
  lemma PauseLeaves(s: Store, claim: TaskClaim, approval: Approval, now: Instant)
    ensures
      var t := PauseClaim(s, claim, approval, now);
      if t.result.Ok? then
        var key := approval.key;
        && HoldsAuthority(s, claim.claimId, claim.workerId, claim.sessionId, claim.token, now)
        && s.claims[claim.claimId].key == key && s.claims[claim.claimId].acquiredAt <= now
        && approval.status.Requested? && key in s.tasks && s.tasks[key].status == Running
        && s.tasks[key].assignedAgent == Some(s.claims[claim.claimId].agentId)
        && key.goal in s.goals && s.goals[key.goal] == Active
        && t.result == Ok(s.claims[claim.claimId].(status := Released, finishedAt := Some(now)))
        && t.store == s.(claims := s.claims[claim.claimId := t.result.value],
                         tasks := s.tasks[key := s.tasks[key].(status := Pending, assignedAgent := None)],
                         approvals := s.approvals[approval.approvalId := approval],
                         goals := s.goals[key.goal := Paused])
      else t.store == s
  {
    AuthorityExactly(s, claim.claimId, claim.workerId, claim.sessionId, claim.token, now);
  }

  /** While its goal is paused, or over, a task goes to nobody. */
  lemma OnlyRunningGoalsAreServed(s: Store, key: TaskKey, workerId: Id, sessionId: Id, agentId: Id, claimId: Id,
                                  now: Instant, lease: int)
    requires RowsKeyed(s) && Fenced(s) && claimId !in s.claims && key.goal in s.goals
    requires s.goals[key.goal].Paused? || s.goals[key.goal].Terminal()
    ensures
      var t := ClaimTask(s, key, workerId, sessionId, agentId, claimId, now, lease);
      t.store == s && (t.result == Ok(None) || t.result == Err(WorkerSessionRejected))
  {
    ClaimGrantedExactly(s, key, workerId, sessionId, agentId, claimId, now, lease);
  }

  /** A decision is accepted exactly once, while the goal is paused; it is stored as
      made, and the goal runs again or has failed. */
  lemma DecisionLeaves(s: Store, id: Id, approved: bool)
    ensures
      var t := ResolveApproval(s, id, approved);
      && (t.result.Ok? <==>
            && id in s.approvals && s.approvals[id].status.Requested?
            && s.approvals[id].key.goal in s.goals && s.goals[s.approvals[id].key.goal].Paused?)
      && (t.result == Err(MissingRecord) <==> id !in s.approvals || s.approvals[id].key.goal !in s.goals)
      && (t.result.Err? ==> t.store == s && t.result.error in {MissingRecord, InvalidValue})
      && (t.result.Ok? && approved ==>
            t.store == s.(approvals := s.approvals[id := s.approvals[id].(status := Approved)],
                          goals := s.goals[s.approvals[id].key.goal := Active]))
      && (t.result.Ok? && !approved ==>
            t.store == s.(approvals := s.approvals[id := s.approvals[id].(status := Rejected)],
                          goals := s.goals[s.approvals[id].key.goal := GoalFailed]))
  {
  }

  /** What the tool gateway may store: a request under a new fingerprint, the same row
      again, or the decision of a stored request. */
  lemma RequestLeaves(s: Store, approval: Approval)
    ensures
      var t := SaveApproval(s, approval);
      var id := approval.approvalId;
      && (t.result.Ok? <==>
            if id in s.approvals then
              || s.approvals[id] == approval
              || (s.approvals[id].status.Requested? && !approval.status.Requested?
                  && approval == s.approvals[id].(status := approval.status))
            else forall other :: other in s.approvals ==> s.approvals[other].fingerprint != approval.fingerprint)
      && (t.result.Err? ==> t.result.error == if id in s.approvals then InvalidValue else IntegrityError)
      && t.store == if t.result.Ok? then s.(approvals := s.approvals[id := approval]) else s
  {
  }

  /** The goal is paused and the task waits, under the last token. */
  predicate Suspended(s: Store, approvalId: Id, key: TaskKey, token: int) {
    && approvalId in s.approvals && s.approvals[approvalId].key == key && s.approvals[approvalId].status.Requested?
    && key.goal in s.goals && s.goals[key.goal].Paused?
    && key in s.tasks && s.tasks[key].status.Pending? && key in s.fences && s.fences[key] == token
  }

  lemma PausedIsSuspended(s: Store, claim: TaskClaim, approval: Approval, now: Instant)
    requires RowsKeyed(s) && Owned(s) && PauseClaim(s, claim, approval, now).result.Ok?
    ensures
      var s' := PauseClaim(s, claim, approval, now).store;
      && Suspended(s', approval.approvalId, approval.key, claim.token)
      && s'.claims.Keys == s.claims.Keys && s'.sessions == s.sessions
  {
    PauseLeaves(s, claim, approval, now);
    assert OwnsTask(s, s.claims[claim.claimId]);
  }

  lemma PauseKeepsInv(s: Store, claim: TaskClaim, approval: Approval, now: Instant)
    requires Inv(s) && PauseClaim(s, claim, approval, now).result.Ok?
    ensures Inv(PauseClaim(s, claim, approval, now).store)
  {
    PauseAdvances(s, claim, approval, now);
  }

  lemma SuspendedResumes(s: Store, id: Id, key: TaskKey, token: int, now: Instant)
    requires Inv(s) && Suspended(s, id, key, token)
    ensures
      var t := ResolveApproval(s, id, true);
      && t.result.Ok? && t.store.claims == s.claims && t.store.sessions == s.sessions && t.store.fences == s.fences
      && t.store.tasks == s.tasks && key.goal in t.store.goals && t.store.goals[key.goal].Active?
      && RowsKeyed(t.store) && Fenced(t.store) && Owned(t.store) && DependenciesMet(t.store)
  {
    DecisionLeaves(s, id, true);
    ResolveAdvances(s, id, true, now);
  }

  /** A pause and its approval: in between nobody is served, and afterwards the task
      goes to the next worker that asks for it. */
  lemma ApprovedIsGranted(s: Store, claim: TaskClaim, approval: Approval, now: Instant, next: Id, session: Id,
                          agentId: Id, claimId: Id, later: Instant, lease: int)
    requires Inv(s) && PauseClaim(s, claim, approval, now).result.Ok?
    requires SessionLives(s, next, session, later) && claimId !in s.claims && 1 <= lease <= 86_400
    ensures
      var paused := PauseClaim(s, claim, approval, now).store;
      var decided := ResolveApproval(paused, approval.approvalId, true);
      && ClaimTask(paused, approval.key, next, session, agentId, claimId, later, lease).result == Ok(None)
      && decided.result.Ok?
      && GoesToTheNext(decided.store, approval.key, next, session, agentId, claimId, later, lease, claim.token + 1)
  {
    var paused := PauseClaim(s, claim, approval, now).store;
    PausedIsSuspended(s, claim, approval, now);
    PauseKeepsInv(s, claim, approval, now);
    SuspendedIsGranted(paused, approval.approvalId, approval.key, claim.token, next, session, agentId, claimId, later,
                       lease);
  }

  lemma SuspendedIsGranted(s: Store, id: Id, key: TaskKey, token: int, next: Id, session: Id, agentId: Id, claimId: Id,
                           later: Instant, lease: int)
    requires Inv(s) && Suspended(s, id, key, token)
    requires SessionLives(s, next, session, later) && claimId !in s.claims && 1 <= lease <= 86_400
    ensures ClaimTask(s, key, next, session, agentId, claimId, later, lease).result == Ok(None)
    ensures GoesToTheNext(ResolveApproval(s, id, true).store, key, next, session, agentId, claimId, later, lease,
                          token + 1)
    ensures ResolveApproval(s, id, true).result.Ok?
  {
    OnlyRunningGoalsAreServed(s, key, next, session, agentId, claimId, later, lease);
    SuspendedResumes(s, id, key, token, later);
    WaitingTaskIsGranted(ResolveApproval(s, id, true).store, key, next, session, agentId, claimId, later, lease);
  }

  // ---------------------------------------------------------------- reaping

  /** The claim's lease is over. */
  predicate RanOut(s: Store, c: Id, now: Instant) {
    c in s.claims && s.claims[c].status.Live? && s.claims[c].expiresAt <= now
  }

  /** Reaping fails as a whole when a claim that ran out has not begun yet. Otherwise
      it answers the claims that ran out, and changes their rows and those of their
      running tasks, and no other. */
  lemma ReapLeaves(s: Store, now: Instant, remote: map<TaskKey, RemoteState>)
    ensures
      var t := ReapExpired(s, now, remote);
      && (t.result.Ok? <==> forall c :: RanOut(s, c, now) ==> s.claims[c].acquiredAt <= now)
      && (t.result.Err? ==> t == Abort(s, InvalidValue))
      && (t.result.Ok? ==>
            && (forall c :: c in t.result.value <==> RanOut(s, c, now))
            && t.store == s.(claims := t.store.claims, tasks := t.store.tasks)
            && t.store.claims.Keys == s.claims.Keys && t.store.tasks.Keys == s.tasks.Keys
            && (forall c :: c in s.claims ==>
                  t.store.claims[c] == if RanOut(s, c, now)
                                       then s.claims[c].(status := Expired, finishedAt := Some(now))
                                       else s.claims[c])
            && (forall k :: k in s.tasks && !(s.tasks[k].status == Running && HeldByExpired(s, k, now)) ==>
                  t.store.tasks[k] == s.tasks[k])
            && (forall k :: k in s.tasks && s.tasks[k].status == Running && HeldByExpired(s, k, now) ==>
                  t.store.tasks[k] == s.tasks[k].(assignedAgent := None, status :=
                    if k in remote && (remote[k].Submitting? || remote[k].Unknown? || remote[k].Interrupted?)
                    then TaskStatus.Blocked else Pending)))
  {
    assert forall k :: HeldByExpired(s, k, now) <==> KeyReapable(s, k, now);
  }

  predicate HeldByExpired(s: Store, key: TaskKey, now: Instant) {
    exists c :: c in s.claims && RanOut(s, c, now) && s.claims[c].key == key
  }

  /** A task taken back from a claim that ran out, whose remote side is known to be
      idle, goes to the next worker that asks for it, while its goal runs. */
  lemma ReapedIsGranted(s: Store, c: Id, now: Instant, remote: map<TaskKey, RemoteState>, next: Id, session: Id,
                        agentId: Id, claimId: Id, later: Instant, lease: int)
    requires Inv(s) && RanOut(s, c, now) && s.claims[c].key.goal in s.goals && s.goals[s.claims[c].key.goal].Active?
    requires !(s.claims[c].key in remote &&
               (remote[s.claims[c].key].Submitting? || remote[s.claims[c].key].Unknown?
                || remote[s.claims[c].key].Interrupted?))
    requires SessionLives(s, next, session, later) && claimId !in s.claims && 1 <= lease <= 86_400
    ensures GoesToTheNext(ReapExpired(s, now, remote).store, s.claims[c].key, next, session, agentId, claimId, later,
                          lease, s.claims[c].token + 1)
  {
    LeaseRespected(s, c, now, remote);
    ReapLeaves(s, now, remote);
    ReapNeverRefuses(s, now, remote);
    ReapAdvances(s, remote, now);
    assert OwnsTask(s, s.claims[c]);
    WaitingTaskIsGranted(ReapExpired(s, now, remote).store, s.claims[c].key, next, session, agentId, claimId, later,
                         lease);
  }

  /** Nobody is given the task, whoever asks and however. */
  ghost predicate NeverServed(s: Store, key: TaskKey) {
    && (forall w, ses, agent, id, now, lease :: RefusesClaim(s, key, w, ses, agent, id, now, lease))
    && (forall w, ses, assignments, id, now, lease :: Discovers(s, key, w, ses, assignments, id, now, lease) == false)
  }

  predicate RefusesClaim(s: Store, key: TaskKey, w: Id, ses: Id, agent: Id, id: Id, now: Instant, lease: int) {
    var t := ClaimTask(s, key, w, ses, agent, id, now, lease);
    t.store == s && (t.result == Ok(None) || t.result == Err(WorkerSessionRejected))
  }

  ghost predicate Discovers(s: Store, key: TaskKey, w: Id, ses: Id, assignments: map<Id, Id>, id: Id, now: Instant,
                            lease: int)
  {
    var r := ClaimNextTask(s, w, ses, assignments, id, now, lease).result;
    r.Ok? && r.value.Some? && r.value.value.key == key
  }

  lemma FinishedIsNeverServed(s: Store, key: TaskKey)
    requires key in s.tasks && s.tasks[key].status.Terminal()
    ensures NeverServed(s, key)
  {
    forall w, ses, agent, id, now, lease ensures RefusesClaim(s, key, w, ses, agent, id, now, lease) {
    }
    forall w, ses, assignments, id, now, lease ensures !Discovers(s, key, w, ses, assignments, id, now, lease) {
      FinishedIsNotDiscovered(s, key, w, ses, assignments, id, now, lease);
    }
  }

  lemma FinishedIsNotDiscovered(s: Store, key: TaskKey, w: Id, ses: Id, assignments: map<Id, Id>, id: Id, now: Instant,
                                lease: int)
    requires key in s.tasks && s.tasks[key].status.Terminal()
    ensures !Discovers(s, key, w, ses, assignments, id, now, lease)
  {
    ClaimNextTaskChange(s, w, ses, assignments, id, now, lease);
  }

  /** The reaper takes the task from a claim that ran out, and its remote side may be
      at work. */
  predicate ReapedUncertain(s: Store, step: Step, now: Instant, c: Id) {
    && step.Reap? && RanOut(s, c, now) && s.claims[c].key in step.remote
    && var status := step.remote[s.claims[c].key];
       status.Submitting? || status.Unknown? || status.Interrupted?
  }

  predicate IsBlocked(s: Store, key: TaskKey) {
    key in s.tasks && s.tasks[key].status.Blocked? && s.tasks[key].assignedAgent.None?
  }

  lemma ReapBlocks(s: Store, step: Step, now: Instant, c: Id)
    requires Inv(s) && ReapedUncertain(s, step, now, c)
    ensures IsBlocked(ReapExpired(s, now, step.remote).store, s.claims[c].key)
  {
    LeaseRespected(s, c, now, step.remote);
  }

  lemma ReapStepReaps(sys: System, step: Step, now: Instant)
    requires step.Reap?
    ensures Next(sys, step, now).store == ReapExpired(sys.store, now, step.remote).store
  {
  }

  lemma RunReapBlocks(states: seq<System>, steps: seq<Step>, times: seq<Instant>, i: nat, c: Id)
    requires Run(states, steps, times) && i < |steps| && ReapedUncertain(states[i].store, steps[i], times[i], c)
    ensures IsBlocked(states[i + 1].store, states[i].store.claims[c].key)
  {
    RunKeepsInv(states, steps, times, i);
    assert Took(states, steps, times, i);
    ReapStepReaps(states[i], steps[i], times[i]);
    ReapBlocks(states[i].store, steps[i], times[i], c);
  }

  lemma BlockedGoalFails(s: Store, key: TaskKey)
    requires GoalsAgree(s) && IsBlocked(s, key)
    ensures key.goal in s.goals ==> !s.goals[key.goal].GoalSucceeded?
  {
  }

  /** A task whose remote side may be at work is blocked for good: in every later
      state of the run it is the same row, nobody is given it, and its goal has not
      succeeded. */
  lemma BlockedForGood(states: seq<System>, steps: seq<Step>, times: seq<Instant>, i: nat, j: nat, c: Id)
    requires Run(states, steps, times) && i < j < |states|
    requires ReapedUncertain(states[i].store, steps[i], times[i], c)
    ensures
      var key, s := states[i].store.claims[c].key, states[j].store;
      && IsBlocked(states[i + 1].store, key) && IsBlocked(s, key)
      && s.tasks[key] == states[i + 1].store.tasks[key]
      && NeverServed(s, key) && (key.goal in s.goals ==> !s.goals[key.goal].GoalSucceeded?)
  {
    var key := states[i].store.claims[c].key;
    RunReapBlocks(states, steps, times, i, c);
    FinishedWorkStands(states, steps, times, i + 1, j);
    FinishedIsNeverServed(states[j].store, key);
    GoalsTellTheTruth(states, steps, times, j);
    BlockedGoalFails(states[j].store, key);
  }

  // ---------------------------------------------------------------- plans

  /** A goal is created, planned, abandoned or started exactly from the status before,
      and started only with tasks; nothing else moves with it. */
  lemma PlanningLeaves(s: Store, goal: Id)
    ensures PlannerStore(s, NewGoal(goal)) == if goal in s.goals then s else s.(goals := s.goals[goal := Created])
    ensures
      PlannerStore(s, BeginPlanning(goal)) ==
      if goal in s.goals && s.goals[goal] == Created then s.(goals := s.goals[goal := Planning]) else s
    ensures
      PlannerStore(s, AbandonPlanning(goal)) ==
      if goal in s.goals && s.goals[goal] == Planning then s.(goals := s.goals[goal := GoalFailed]) else s
    ensures
      PlannerStore(s, StartGoal(goal)) ==
      if goal in s.goals && s.goals[goal] == Planning && exists k :: k in s.tasks && k.goal == goal
      then s.(goals := s.goals[goal := Active]) else s
  {
  }

  /** A plan is stored as a whole, or, when one of its tasks is under a live claim, not
      at all; the last row listed for a task counts, and no other task changes. */
  lemma SavedTasksStand(s: Store, tasks: seq<Task>, key: TaskKey)
    ensures
      var t := SaveTasks(s, tasks);
      && (t.result.Ok? <==>
            forall c, i :: c in s.claims && 0 <= i < |tasks| && s.claims[c].key == tasks[i].key ==>
              !s.claims[c].status.Live?)
      && (t.result.Err? ==> t == Abort(s, StaleClaim))
      && t.store == s.(tasks := t.store.tasks)
      && (t.result.Ok? ==>
            && (key in t.store.tasks <==> key in s.tasks || exists i :: 0 <= i < |tasks| && tasks[i].key == key)
            && (key in s.tasks && (forall i :: 0 <= i < |tasks| ==> tasks[i].key != key) ==>
                  t.store.tasks[key] == s.tasks[key])
            && forall i: nat :: LastListed(tasks, i) && tasks[i].key == key ==> t.store.tasks[key] == tasks[i])
  {
    UpsertAt(s.tasks, tasks, key);
    forall i: nat | LastListed(tasks, i) && tasks[i].key == key ensures Upsert(s.tasks, tasks)[key] == tasks[i] {
      LastListedCounts(s.tasks, tasks, i);
    }
    if !SaveTasks(s, tasks).result.Ok? {
      var task :| task in tasks && HasLiveClaim(s, task.key);
      var i :| 0 <= i < |tasks| && tasks[i] == task;
      var c :| c in s.claims && s.claims[c].key == task.key && s.claims[c].status.Live?;
      assert s.claims[c].key == tasks[i].key;
    } else {
      forall c, i | c in s.claims && 0 <= i < |tasks| && s.claims[c].key == tasks[i].key
        ensures !s.claims[c].status.Live?
      {
        assert tasks[i] in tasks && !HasLiveClaim(s, tasks[i].key);
      }
    }
  }

  // ---------------------------------------------------------------- commits

  /** A submission is about the claim, and its parts are about each other; a success
      brings an artifact and a passing review. */
  ghost predicate Coherent(claim: TaskClaim, o: Outcome) {
    var key := claim.key;
    && o.task.key == key && o.attempt.key == key && o.review.key == key
    && o.attempt.agentId == claim.agentId && o.performanceAgent == claim.agentId
    && o.performanceType == o.task.taskType && o.task.status != Running
    && o.review.reviewId == o.attempt.reviewId && o.review.number == o.attempt.number
    && (forall g :: g in o.eventGoals ==> g == key.goal)
    && (o.task.status == Succeeded ==>
          o.artifact.Some? && o.review.verdict == Pass && o.task.artifact == Some(o.artifact.value.artifactId))
    && (o.artifact.Some? ==>
          && o.artifact.value.key == key && o.artifact.value.agentId == claim.agentId
          && o.attempt.artifactId == Some(o.artifact.value.artifactId))
    && (o.artifact.None? ==> o.attempt.artifactId.None?)
    && (o.task.artifact.Some? ==> o.artifact.Some? && o.task.artifact.value == o.artifact.value.artifactId)
  }

  /** No row of the submission collides with a stored one, and neither does its number. */
  predicate NewRows(s: Store, o: Outcome) {
    && (o.artifact.Some? ==> o.artifact.value.artifactId !in s.artifacts)
    && o.attempt.attemptId !in s.attempts && o.review.reviewId !in s.reviews
    && forall a :: a in s.attempts && s.attempts[a].key == o.attempt.key ==> s.attempts[a].number != o.attempt.number
  }

  /** Exactly which submissions are accepted, whoever built them. */
  lemma CommitDecidedExactly(s: Store, claim: TaskClaim, o: Outcome, now: Instant)
    requires WellKeyed(s.outbox)
    ensures
      CommitOutcome(s, claim, o, now).result.Ok? <==>
        && HoldsAuthority(s, claim.claimId, claim.workerId, claim.sessionId, claim.token, now)
        && var current := s.claims[claim.claimId];
           && Coherent(current, o) && NewRows(s, o) && AllFit(s.outbox, o.messages)
           && current.key in s.tasks && s.tasks[current.key].status == Running
           && s.tasks[current.key].assignedAgent == Some(current.agentId)
           && current.key.goal in s.goals && s.goals[current.key.goal].Active? && current.acquiredAt <= now
  {
    AuthorityExactly(s, claim.claimId, claim.workerId, claim.sessionId, claim.token, now);
    EnqueueAllExactly(s.outbox, o.messages);
    if HoldsAuthority(s, claim.claimId, claim.workerId, claim.sessionId, claim.token, now) {
      CoherenceIsChecked(s.claims[claim.claimId], o);
      RowsAreChecked(s, o);
    }
  }

  lemma CoherenceIsChecked(claim: TaskClaim, o: Outcome)
    ensures OutcomeConsistent(claim, o) <==> Coherent(claim, o)
  {
  }

  lemma RowsAreChecked(s: Store, o: Outcome)
    ensures OutcomeRowsFit(s, o) <==> NewRows(s, o)
  {
  }

  /** What a commit does to its goal, in the same step: a failed task fails it, a
      blocked one blocks it, the last success makes it succeed, and otherwise it
      keeps running. No other goal moves; the claim is committed and otherwise as it was. */
  lemma CommitMovesGoal(s: Store, claim: TaskClaim, o: Outcome, now: Instant)
    requires CommitOutcome(s, claim, o, now).result.Ok?
    ensures
      var s' := CommitOutcome(s, claim, o, now).store;
      var goal := o.task.key.goal;
      && goal in s.goals && s.goals[goal].Active? && goal in s'.goals
      && s'.goals == s.goals[goal := s'.goals[goal]] && o.task.key in s'.tasks && s'.tasks[o.task.key] == o.task
      && (s'.goals[goal].GoalFailed? <==> o.task.status.Failed?)
      && (s'.goals[goal].GoalBlocked? <==> o.task.status.Blocked?)
      && (s'.goals[goal].GoalSucceeded? <==>
            forall k :: k in s'.tasks && k.goal == goal ==> s'.tasks[k].status.Succeeded?)
      && (s'.goals[goal].Active? || s'.goals[goal].Terminal())
      && claim.claimId in s.claims
      && s' == s.(artifacts := s'.artifacts, attempts := s'.attempts, reviews := s'.reviews, outbox := s'.outbox,
                  tasks := s.tasks[o.task.key := o.task], goals := s'.goals,
                  claims := s.claims[claim.claimId :=
                    s.claims[claim.claimId].(status := Committed, finishedAt := Some(now))])
  {
  }
}
