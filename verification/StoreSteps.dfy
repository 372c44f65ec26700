/** Each scheduler transaction keeps the store invariant. */
module StoreSteps {
  import opened Domain
  import opened Scheduler
  import opened Outbox
  import opened Store
  import opened StoreInvariant

  // ---------------------------------------------------------------- opening a claim

  /** The change a granted claim makes. */
  predicate Opens(s: Store, s': Store, claim: TaskClaim) {
    && Claimable(s, claim.key) && ClaimRowFits(s, claim)
    && claim.token == NextToken(s, claim.key)
    && claim.status.Live? && claim.finishedAt.None? && claim.acquiredAt <= claim.renewedAt < claim.expiresAt
    && s' == s.(fences := s.fences[claim.key := claim.token],
                tasks := s.tasks[claim.key := Started(s.tasks[claim.key], claim.agentId)],
                claims := s.claims[claim.claimId := claim])
  }

  lemma OpenKeepsFences(s: Store, s': Store, claim: TaskClaim)
    requires RowsKeyed(s) && Fenced(s) && Opens(s, s', claim)
    ensures RowsKeyed(s') && Fenced(s')
  {
    forall k, n | k in s'.fences && 1 <= n <= s'.fences[k] ensures IssuedToken(s', k, n) {
      if k == claim.key && n == claim.token {
        assert s'.claims[claim.claimId] == claim;
      } else {
        assert IssuedToken(s, k, n);
        var c :| c in s.claims && s.claims[c].key == k && s.claims[c].token == n;
        assert s'.claims[c] == s.claims[c];
      }
    }
  }

  lemma OpenKeepsOwners(s: Store, s': Store, claim: TaskClaim)
    requires Owned(s) && Opens(s, s', claim)
    ensures Owned(s')
  {
    forall c | c in s'.claims && s'.claims[c].status.Live? ensures OwnsTask(s', s'.claims[c]) {
      if c != claim.claimId {
        assert OwnsTask(s, s.claims[c]);
      }
    }
    forall k | k in s'.tasks && s'.tasks[k].status.Running? ensures HasLiveClaim(s', k) {
      if k == claim.key {
        assert s'.claims[claim.claimId] == claim;
      } else {
        var c :| c in s.claims && s.claims[c].key == k && s.claims[c].status.Live?;
        assert s'.claims[c] == s.claims[c];
      }
    }
  }

  lemma OpenKeepsDependencies(s: Store, s': Store, claim: TaskClaim)
    requires RowsKeyed(s) && DependenciesMet(s) && Opens(s, s', claim)
    ensures DependenciesMet(s')
  {
    forall k | k in s'.fences ensures k in s'.tasks && Ready(s', s'.tasks[k]) {
      assert Ready(s, s.tasks[k]);
    }
  }

  /** Whether all tasks of a goal succeeded depends only on which ones did. */
  lemma SameSuccesses(a: map<TaskKey, Task>, b: map<TaskKey, Task>, goal: Id)
    requires a.Keys == b.Keys
    requires forall k :: k in a ==> (a[k].status.Succeeded? <==> b[k].status.Succeeded?)
    ensures AllSucceeded(a, goal) <==> AllSucceeded(b, goal)
  {
  }

  /** Goal states still agree with task states that succeeded, failed or were
      blocked exactly as before, or have become blocked since. */
  lemma GoalsStillAgree(s: Store, s': Store)
    requires GoalsAgree(s) && s'.goals == s.goals && s'.tasks.Keys == s.tasks.Keys
    requires forall k :: k in s.tasks ==>
               && (s'.tasks[k].status.Succeeded? <==> s.tasks[k].status.Succeeded?)
               && (s'.tasks[k].status.Failed? <==> s.tasks[k].status.Failed?)
               && (s.tasks[k].status.Blocked? ==> s'.tasks[k].status.Blocked?)
    ensures GoalsAgree(s')
  {
    forall g | g in s'.goals ensures s'.goals[g].GoalSucceeded? <==> AllSucceeded(s'.tasks, g) {
      SameSuccesses(s.tasks, s'.tasks, g);
    }
    forall g | g in s'.goals && s'.goals[g].GoalBlocked?
      ensures exists k :: k in s'.tasks && k.goal == g && s'.tasks[k].status.Blocked?
    {
      var k :| k in s.tasks && k.goal == g && s.tasks[k].status.Blocked?;
      assert s'.tasks[k].status.Blocked?;
    }
  }

  /** The plan side of the invariant, for a change that leaves plans alone and
      claims no task of a goal still in planning. */
  lemma StillPlanned(s: Store, s': Store)
    requires Planned(s) && s'.goals == s.goals && s'.tasks.Keys == s.tasks.Keys
    requires forall k :: k in s.tasks ==> s'.tasks[k].SamePlan(s.tasks[k])
    requires forall k :: k in s'.fences && k !in s.fences ==> k.goal in s.goals && s.goals[k.goal].Active?
    ensures Planned(s')
  {
    PlansKept(s, s');
  }

  predicate Unfinished(task: Task) {
    task.status.Pending? || task.status.Running?
  }

  lemma StillCounted(s: Store, s': Store)
    requires RowsKeyed(s) && AttemptsExact(s)
    requires s'.reviews == s.reviews && s'.attempts == s.attempts && s'.tasks.Keys == s.tasks.Keys
    requires forall c :: c in s'.claims && s'.claims[c].status.Committed? ==>
      c in s.claims && s.claims[c] == s'.claims[c]
    requires forall c :: c in s.claims && s.claims[c].status.Committed? ==>
      c in s'.claims && s.claims[c] == s'.claims[c]
    requires forall k :: k in s.tasks ==>
               && s'.tasks[k].SamePlan(s.tasks[k])
               && (Unfinished(s'.tasks[k]) ==> Unfinished(s.tasks[k]))
               && (s'.tasks[k].status.Failed? ==> s.tasks[k].status.Failed?)
    requires forall k :: k in s.fences ==> k in s'.fences
    ensures AttemptsExact(s')
  {
    CountsKept(s, s');
    forall k | k in s'.tasks ensures WithinLimit(s', s'.tasks[k]) {
      assert WithinLimit(s, s.tasks[k]);
    }
  }

  lemma OpenKeepsRecords(s: Store, s': Store, claim: TaskClaim)
    requires RowsKeyed(s) && AttemptsExact(s) && Leased(s) && Opens(s, s', claim)
    ensures AttemptsExact(s') && Leased(s')
  {
    StillCounted(s, s');
  }

  lemma OpenKeepsGoals(s: Store, s': Store, claim: TaskClaim)
    requires RowsKeyed(s) && Planned(s) && GoalsAgree(s) && Opens(s, s', claim)
    ensures Planned(s') && GoalsAgree(s')
  {
    GoalsStillAgree(s, s');
    StillPlanned(s, s');
  }

  lemma OpenKeepsInv(s: Store, s': Store, claim: TaskClaim)
    requires Inv(s) && Opens(s, s', claim)
    ensures Inv(s')
  {
    OpenKeepsFences(s, s', claim);
    OpenKeepsOwners(s, s', claim);
    OpenKeepsDependencies(s, s', claim);
    OpenKeepsRecords(s, s', claim);
    OpenKeepsGoals(s, s', claim);
  }

  // ---------------------------------------------------------------- ending claims without a result

  predicate Dropped(claim: TaskClaim, ended: TaskClaim) {
    && (ended.status.Released? || ended.status.Expired?) && ended.finishedAt.Some?
    && ended == claim.(status := ended.status, finishedAt := ended.finishedAt)
  }

  predicate HandedBack(task: Task, fallen: Task) {
    && (fallen.status.Pending? || fallen.status.Blocked?)
    && fallen == task.(status := fallen.status, assignedAgent := None)
  }

  predicate HoldsOne(s: Store, doomed: set<Id>, key: TaskKey) {
    exists c :: c in doomed && c in s.claims && s.claims[c].key == key
  }

  /** A set of live claims ends and their tasks are handed back; nothing else changes. */
  predicate Ends(s: Store, s': Store, doomed: set<Id>) {
    && doomed <= s.claims.Keys && (forall c :: c in doomed ==> s.claims[c].status.Live?)
    && s' == s.(claims := s'.claims, tasks := s'.tasks)
    && s'.claims.Keys == s.claims.Keys && s'.tasks.Keys == s.tasks.Keys
    && (forall c :: c in s.claims ==>
          if c in doomed then Dropped(s.claims[c], s'.claims[c]) else s'.claims[c] == s.claims[c])
    && (forall k :: k in s.tasks ==>
          if HoldsOne(s, doomed, k) then HandedBack(s.tasks[k], s'.tasks[k]) else s'.tasks[k] == s.tasks[k])
  }

  lemma EndsKeepsFences(s: Store, s': Store, doomed: set<Id>)
    requires RowsKeyed(s) && Fenced(s) && Leased(s) && Ends(s, s', doomed)
    ensures RowsKeyed(s') && Fenced(s') && Leased(s')
  {
    forall c | c in s.claims ensures s'.claims[c].key == s.claims[c].key && s'.claims[c].token == s.claims[c].token {
    }
    forall k, n | k in s'.fences && 1 <= n <= s'.fences[k] ensures IssuedToken(s', k, n) {
      assert IssuedToken(s, k, n);
      var c :| c in s.claims && s.claims[c].key == k && s.claims[c].token == n;
      assert s'.claims[c].key == k;
    }
  }

  lemma EndsKeepsOwners(s: Store, s': Store, doomed: set<Id>)
    requires RowsKeyed(s) && Fenced(s) && Owned(s) && Ends(s, s', doomed)
    ensures Owned(s')
  {
    forall c | c in s'.claims && s'.claims[c].status.Live? ensures OwnsTask(s', s'.claims[c]) {
      assert c !in doomed && OwnsTask(s, s.claims[c]);
      if HoldsOne(s, doomed, s.claims[c].key) {
        var d :| d in doomed && d in s.claims && s.claims[d].key == s.claims[c].key;
        assert OwnsTask(s, s.claims[d]);
        assert SameToken(s.claims[c], s.claims[d]);
      }
    }
    forall k | k in s'.tasks && s'.tasks[k].status.Running? ensures HasLiveClaim(s', k) {
      assert !HoldsOne(s, doomed, k);
      var c :| c in s.claims && s.claims[c].key == k && s.claims[c].status.Live?;
      assert s'.claims[c] == s.claims[c];
    }
  }

  /** A task handed back was running, so it was claimed and was not finished. */
  lemma HandedBackWasRunning(s: Store, s': Store, doomed: set<Id>, k: TaskKey)
    requires Owned(s) && Ends(s, s', doomed) && k in s.tasks && s'.tasks[k] != s.tasks[k]
    ensures s.tasks[k].status.Running? && k in s.fences && s'.tasks[k].SamePlan(s.tasks[k])
    ensures s'.tasks[k].status.Pending? || s'.tasks[k].status.Blocked?
  {
    var c :| c in doomed && c in s.claims && s.claims[c].key == k;
    assert OwnsTask(s, s.claims[c]);
  }

  /** What hand-backs amount to, without the claims that caused them. */
  predicate OnlyFalls(s: Store, s': Store) {
    && s'.tasks.Keys == s.tasks.Keys
    && forall k :: k in s.tasks ==> s'.tasks[k] == s.tasks[k] || Falls(s, s.tasks[k], s'.tasks[k])
  }

  predicate Falls(s: Store, task: Task, fallen: Task) {
    task.status.Running? && fallen.SamePlan(task) && (fallen.status.Pending? || fallen.status.Blocked?)
  }

  lemma EndsOnlyFalls(s: Store, s': Store, doomed: set<Id>)
    requires Owned(s) && Ends(s, s', doomed)
    ensures OnlyFalls(s, s')
  {
    forall k | k in s.tasks && s'.tasks[k] != s.tasks[k] ensures Falls(s, s.tasks[k], s'.tasks[k]) {
      HandedBackWasRunning(s, s', doomed, k);
    }
  }

  lemma FallsKeepDependencies(s: Store, s': Store)
    requires RowsKeyed(s) && DependenciesMet(s) && s'.fences == s.fences && OnlyFalls(s, s')
    ensures DependenciesMet(s')
  {
    forall k | k in s'.fences ensures k in s'.tasks && Ready(s', s'.tasks[k]) {
      assert Ready(s, s.tasks[k]);
    }
  }

  lemma FallsKeepGoals(s: Store, s': Store)
    requires RowsKeyed(s) && Planned(s) && GoalsAgree(s) && s'.goals == s.goals && s'.fences == s.fences
      && OnlyFalls(s, s')
    ensures Planned(s') && GoalsAgree(s')
  {
    GoalsStillAgree(s, s');
    StillPlanned(s, s');
  }

  lemma EndsKeepsRecords(s: Store, s': Store, doomed: set<Id>)
    requires RowsKeyed(s) && AttemptsExact(s) && OnlyFalls(s, s') && Ends(s, s', doomed)
    ensures AttemptsExact(s')
  {
    StillCounted(s, s');
  }

  lemma EndsKeepsInv(s: Store, s': Store, doomed: set<Id>)
    requires Inv(s) && Ends(s, s', doomed)
    ensures Inv(s')
  {
    EndsKeepsFences(s, s', doomed);
    EndsKeepsOwners(s, s', doomed);
    EndsOnlyFalls(s, s', doomed);
    FallsKeepDependencies(s, s');
    FallsKeepGoals(s, s');
    EndsKeepsRecords(s, s', doomed);
  }

  // ---------------------------------------------------------------- goal lifecycle

  /** A goal changes state and no other scheduler record does. */
  predicate GoalMoves(s: Store, s': Store, goal: Id, status: GoalStatus) {
    && goal in s.goals && GoalTransitionAllowed(s.goals[goal], status)
    && s' == s.(goals := s.goals[goal := status], approvals := s'.approvals)
  }

  lemma GoalMoveKeepsOwnership(s: Store, s': Store)
    requires RowsKeyed(s) && Fenced(s) && Leased(s) && Owned(s) && DependenciesMet(s)
    requires s' == s.(goals := s'.goals, approvals := s'.approvals, outbox := s'.outbox)
    ensures RowsKeyed(s') && Fenced(s') && Leased(s') && Owned(s') && DependenciesMet(s')
  {
    forall k, n | k in s'.fences && 1 <= n <= s'.fences[k] ensures IssuedToken(s', k, n) {
      assert IssuedToken(s, k, n);
    }
    forall c | c in s'.claims && s'.claims[c].status.Live? ensures OwnsTask(s', s'.claims[c]) {
      assert OwnsTask(s, s.claims[c]);
    }
    forall k | k in s'.tasks && s'.tasks[k].status.Running? ensures HasLiveClaim(s', k) {
      assert HasLiveClaim(s, k);
    }
    forall k | k in s'.fences ensures k in s'.tasks && Ready(s', s'.tasks[k]) {
      assert Ready(s, s.tasks[k]);
    }
  }

  lemma GoalMoveKeepsRecords(s: Store, s': Store)
    requires RowsKeyed(s) && AttemptsExact(s)
    requires s' == s.(goals := s'.goals, approvals := s'.approvals, outbox := s'.outbox)
    ensures AttemptsExact(s')
  {
    StillCounted(s, s');
  }

  lemma GoalMoveKeepsPlans(s: Store, s': Store, goal: Id, status: GoalStatus)
    requires Planned(s) && GoalMoves(s, s', goal, status)
    requires status.Active? || status.Paused? ==> HasTasks(s, goal)
    ensures Planned(s')
  {
    PlansKept(s, s');
  }

  lemma GoalMoveKeepsAgreement(s: Store, s': Store, goal: Id, status: GoalStatus)
    requires GoalsAgree(s) && GoalMoves(s, s', goal, status)
    requires !status.GoalSucceeded? && !status.GoalBlocked?
    ensures GoalsAgree(s')
  {
    forall k | k in s'.tasks && s'.tasks[k].status.Failed? ensures k.goal in s'.goals && s'.goals[k.goal].GoalFailed? {
      assert s.goals[k.goal].GoalFailed?;
    }
  }

  /** Pausing, resuming, starting, and failing a goal; success and blockage come
      only with a committed task. */
  lemma GoalMoveKeepsInv(s: Store, s': Store, goal: Id, status: GoalStatus)
    requires Inv(s) && GoalMoves(s, s', goal, status)
    requires !status.GoalSucceeded? && !status.GoalBlocked?
    requires status.Active? || status.Paused? ==> HasTasks(s, goal)
    ensures Inv(s')
  {
    GoalMoveKeepsOwnership(s, s');
    GoalMoveKeepsRecords(s, s');
    GoalMoveKeepsPlans(s, s', goal, status);
    GoalMoveKeepsAgreement(s, s', goal, status);
  }

  // ---------------------------------------------------------------- approvals and the outbox

  /** Neither decides who owns what. */
  predicate SideTablesMove(s: Store, s': Store) {
    s' == s.(approvals := s'.approvals, outbox := s'.outbox)
  }

  lemma SideTablesKeepGoals(s: Store, s': Store)
    requires Planned(s) && GoalsAgree(s) && SideTablesMove(s, s')
    ensures Planned(s') && GoalsAgree(s')
  {
    PlansKept(s, s');
    GoalsStillAgree(s, s');
  }

  lemma SideTablesKeepInv(s: Store, s': Store)
    requires Inv(s) && SideTablesMove(s, s') && WellKeyed(s'.outbox)
    ensures Inv(s')
  {
    GoalMoveKeepsOwnership(s, s');
    GoalMoveKeepsRecords(s, s');
    SideTablesKeepGoals(s, s');
  }
}
