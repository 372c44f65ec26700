/** The repository's transactions are instances of the changes studied in
    StoreSteps and StoreCommit, so each keeps the invariant, and each moves the
    store forward only: history is never rewritten. */
module StoreTransactions {
  import opened Domain
  import opened Scheduler
  import opened Outbox
  import opened Store
  import opened StoreInvariant
  import opened StoreSteps
  import opened StoreCommit

  // ---------------------------------------------------------------- renewals and sessions

  predicate Extended(claim: TaskClaim, renewed: TaskClaim) {
    && renewed == claim.(renewedAt := renewed.renewedAt, expiresAt := renewed.expiresAt)
    && renewed.acquiredAt <= renewed.renewedAt < renewed.expiresAt
  }

  /** Sessions change, or leases move; nobody gains or loses a task. */
  predicate Refreshes(s: Store, s': Store) {
    && s' == s.(sessions := s'.sessions, claims := s'.claims)
    && (forall w :: w in s'.sessions ==> s'.sessions[w].workerId == w)
    && s'.claims.Keys == s.claims.Keys
    && forall c :: c in s.claims ==>
         s'.claims[c] == s.claims[c] || (s.claims[c].status.Live? && Extended(s.claims[c], s'.claims[c]))
  }

  predicate SameOwnership(a: TaskClaim, b: TaskClaim) {
    a.key == b.key && a.token == b.token && a.status == b.status && a.agentId == b.agentId
  }

  lemma RefreshKeepsIdentity(s: Store, s': Store)
    requires Refreshes(s, s')
    ensures forall c :: c in s.claims ==> SameOwnership(s.claims[c], s'.claims[c])
  {
  }

  lemma RefreshKeepsFences(s: Store, s': Store)
    requires RowsKeyed(s) && Fenced(s) && Leased(s) && Refreshes(s, s')
    ensures RowsKeyed(s') && Fenced(s') && Leased(s')
  {
    RefreshKeepsIdentity(s, s');
    forall k, n | k in s'.fences && 1 <= n <= s'.fences[k] ensures IssuedToken(s', k, n) {
      assert IssuedToken(s, k, n);
      var c :| c in s.claims && s.claims[c].key == k && s.claims[c].token == n;
      assert SameOwnership(s.claims[c], s'.claims[c]);
    }
    forall c, d | c in s'.claims && d in s'.claims && SameToken(s'.claims[c], s'.claims[d]) ensures c == d {
      assert SameOwnership(s.claims[c], s'.claims[c]) && SameOwnership(s.claims[d], s'.claims[d]);
      assert SameToken(s.claims[c], s.claims[d]);
    }
  }

  lemma RefreshKeepsOwners(s: Store, s': Store)
    requires Owned(s) && DependenciesMet(s) && Refreshes(s, s')
    ensures Owned(s') && DependenciesMet(s')
  {
    RefreshKeepsIdentity(s, s');
    forall c | c in s'.claims && s'.claims[c].status.Live? ensures OwnsTask(s', s'.claims[c]) {
      assert SameOwnership(s.claims[c], s'.claims[c]);
      assert OwnsTask(s, s.claims[c]);
    }
    forall k | k in s'.tasks && s'.tasks[k].status.Running? ensures HasLiveClaim(s', k) {
      var c :| c in s.claims && s.claims[c].key == k && s.claims[c].status.Live?;
      assert SameOwnership(s.claims[c], s'.claims[c]);
    }
    forall k | k in s'.fences ensures k in s'.tasks && Ready(s', s'.tasks[k]) {
      assert Ready(s, s.tasks[k]);
    }
  }

  lemma RefreshKeepsInv(s: Store, s': Store)
    requires Inv(s) && Refreshes(s, s')
    ensures Inv(s')
  {
    RefreshKeepsFences(s, s');
    RefreshKeepsOwners(s, s');
    RefreshKeepsCounts(s, s');
    RefreshKeepsGoals(s, s');
  }

  lemma RefreshKeepsGoals(s: Store, s': Store)
    requires Planned(s) && GoalsAgree(s) && Refreshes(s, s')
    ensures Planned(s') && GoalsAgree(s')
  {
    PlansKept(s, s');
    GoalsStillAgree(s, s');
  }

  lemma RefreshKeepsCounts(s: Store, s': Store)
    requires RowsKeyed(s) && AttemptsExact(s) && Refreshes(s, s')
    ensures AttemptsExact(s')
  {
    StillCounted(s, s');
  }

  // ---------------------------------------------------------------- each transaction's change

  lemma ClaimTaskChange(s: Store, key: TaskKey, workerId: Id, sessionId: Id, agentId: Id, claimId: Id, now: Instant,
                        lease: int)
    ensures var t := ClaimTask(s, key, workerId, sessionId, agentId, claimId, now, lease);
            if t.result.Ok? && t.result.value.Some?
            then Opens(s, t.store, t.result.value.value) && t.result.value.value.claimId == claimId
                 && t.result.value.value.key == key && t.result.value.value.acquiredAt == now
            else t.store == s
  {
  }

  lemma ClaimNextTaskChange(s: Store, workerId: Id, sessionId: Id, assignments: map<Id, Id>, claimId: Id,
                            now: Instant, lease: int)
    ensures var t := ClaimNextTask(s, workerId, sessionId, assignments, claimId, now, lease);
            if t.result.Ok? && t.result.value.Some?
            then Opens(s, t.store, t.result.value.value) && t.result.value.value.claimId == claimId
                 && t.result.value.value.acquiredAt == now
            else t.store == s
  {
    if exists key :: FirstOffered(s, key, assignments) {
      var key :| FirstOffered(s, key, assignments) &&
        ClaimNextTask(s, workerId, sessionId, assignments, claimId, now, lease) ==
        (if assignments == map[] then Abort(s, InvalidValue)
         else match RequireSession(s, workerId, sessionId, now)
           case Err(e) => Abort(s, e)
           case Ok(session) =>
             if !(assignments.Keys <= session.capabilities) then Abort(s, InvalidValue)
             else ClaimTask(s, key, workerId, sessionId, assignments[s.tasks[key].taskType], claimId, now, lease));
      ClaimTaskChange(s, key, workerId, sessionId, assignments[s.tasks[key].taskType], claimId, now, lease);
    }
  }

  /** Replacing one live claim by an extension of it. */
  lemma ExtensionRefreshes(s: Store, c: Id, renewed: TaskClaim)
    requires RowsKeyed(s) && c in s.claims && s.claims[c].status.Live? && Extended(s.claims[c], renewed)
    ensures Refreshes(s, s.(claims := s.claims[c := renewed]))
  {
  }

  lemma RenewClaimChange(s: Store, claimId: Id, workerId: Id, sessionId: Id, token: int, now: Instant, lease: int)
    requires RowsKeyed(s) && Leased(s)
    ensures var t := RenewClaim(s, claimId, workerId, sessionId, token, now, lease);
            if t.result.Ok? then Refreshes(s, t.store) else t.store == s
  {
    var t := RenewClaim(s, claimId, workerId, sessionId, token, now, lease);
    if t.result.Ok? {
      ExtensionRefreshes(s, claimId, t.result.value);
    }
  }

  lemma SessionRefreshes(s: Store, session: WorkerSession)
    requires RowsKeyed(s)
    ensures Refreshes(s, s.(sessions := s.sessions[session.workerId := session]))
  {
  }

  lemma HeartbeatChange(s: Store, workerId: Id, sessionId: Id, now: Instant, ttl: int)
    requires RowsKeyed(s)
    ensures var t := HeartbeatWorker(s, workerId, sessionId, now, ttl);
            if t.result.Ok? then Refreshes(s, t.store) else t.store == s
  {
    var t := HeartbeatWorker(s, workerId, sessionId, now, ttl);
    if t.result.Ok? {
      SessionRefreshes(s, t.result.value);
    }
  }

  lemma RegisterChange(s: Store, session: WorkerSession)
    requires RowsKeyed(s)
    ensures Refreshes(s, RegisterWorker(s, session))
  {
    SessionRefreshes(s, session);
  }

  /** Ending one live claim hands back exactly the task it owns. */
  lemma EndClaimChange(s: Store, c: Id, ended: TaskClaim)
    requires RowsKeyed(s) && Owned(s) && c in s.claims && s.claims[c].status.Live? && Dropped(s.claims[c], ended)
    ensures Ends(s, EndClaim(s, c, ended, Pending), {c})
  {
    assert OwnsTask(s, s.claims[c]);
    var s' := EndClaim(s, c, ended, Pending);
    forall k | k in s.tasks
      ensures if HoldsOne(s, {c}, k) then HandedBack(s.tasks[k], s'.tasks[k]) else s'.tasks[k] == s.tasks[k]
    {
      assert HoldsOne(s, {c}, k) <==> k == s.claims[c].key;
    }
  }

  lemma ReleaseClaimChange(s: Store, claimId: Id, workerId: Id, sessionId: Id, token: int, now: Instant)
    requires RowsKeyed(s) && Owned(s)
    ensures var t := ReleaseClaim(s, claimId, workerId, sessionId, token, now);
            if t.result.Ok? then Ends(s, t.store, {claimId}) else t.store == s
  {
    var t := ReleaseClaim(s, claimId, workerId, sessionId, token, now);
    if t.result.Ok? {
      EndClaimChange(s, claimId, t.result.value);
    }
  }

  /** A pause is a release followed by pausing the goal. */
  lemma PauseClaimChange(s: Store, claim: TaskClaim, approval: Approval, now: Instant)
    requires RowsKeyed(s) && Owned(s)
    ensures var t := PauseClaim(s, claim, approval, now);
            if t.result.Ok? then
              var mid := EndClaim(s, claim.claimId, t.result.value, Pending);
              && Ends(s, mid, {claim.claimId})
              && GoalMoves(mid, t.store, approval.key.goal, Paused) && HasTasks(mid, approval.key.goal)
            else t.store == s
  {
    var t := PauseClaim(s, claim, approval, now);
    if t.result.Ok? {
      EndClaimChange(s, claim.claimId, t.result.value);
      var mid := EndClaim(s, claim.claimId, t.result.value, Pending);
      assert approval.key in mid.tasks;
    }
  }

  lemma ResolveApprovalChange(s: Store, approvalId: Id, approved: bool)
    requires Planned(s)
    ensures var t := ResolveApproval(s, approvalId, approved);
            if t.result.Ok? then
              GoalMoves(s, t.store, t.result.value.key.goal, if approved then Active else GoalFailed)
              && HasTasks(s, t.result.value.key.goal)
            else t.store == s
  {
  }

  /** The reaper never refuses, and ends exactly the expired live claims. */
  lemma ReapChange(s: Store, now: Instant, remote: map<TaskKey, RemoteState>)
    requires RowsKeyed(s) && Leased(s) && Owned(s)
    ensures var t := ReapExpired(s, now, remote);
            t.result == Ok(ExpiredClaims(s, now)) && Ends(s, t.store, ExpiredClaims(s, now))
  {
    var t := ReapExpired(s, now, remote);
    var doomed := ExpiredClaims(s, now);
    var s' := t.store;
    forall k | k in s.tasks
      ensures if HoldsOne(s, doomed, k) then HandedBack(s.tasks[k], s'.tasks[k]) else s'.tasks[k] == s.tasks[k]
    {
      if HoldsOne(s, doomed, k) {
        var c :| c in doomed && c in s.claims && s.claims[c].key == k;
        assert OwnsTask(s, s.claims[c]);
        assert KeyReapable(s, k, now);
      }
    }
  }

  lemma CommitChange(s: Store, claim: TaskClaim, o: Outcome, now: Instant)
    requires WellKeyed(s.outbox)
    ensures var t := CommitOutcome(s, claim, o, now);
            if t.result.Ok? then
              Commits(s, t.store, claim.claimId, t.result.value, o) && WellKeyed(t.store.outbox)
            else t.store == s
  {
    EnqueueAllKeepsKeys(s.outbox, o.messages);
  }
}
