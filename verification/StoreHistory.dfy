/** What a transaction may do to what the store already says: finished work,
    ended claims and recorded attempts are never rewritten, and a task under a
    live claim is left to its owner. */
module StoreHistory {
  import opened Domain
  import opened Scheduler
  import opened Store
  import opened StoreInvariant
  import opened StoreSteps
  import opened StoreCommit
  import opened StoreTransactions
  import TaskGraph

  /** The parts of a claim that never change. */
  predicate SameClaim(a: TaskClaim, b: TaskClaim) {
    && a.claimId == b.claimId && a.key == b.key && a.workerId == b.workerId && a.sessionId == b.sessionId
    && a.agentId == b.agentId && a.token == b.token && a.acquiredAt == b.acquiredAt
  }

  /** A task keeps the plan it was first claimed under, and its final row. */
  predicate TasksEvolve(s: Store, s': Store) {
    forall k :: k in s.tasks ==>
      && k in s'.tasks && (s.tasks[k].status.Terminal() ==> s'.tasks[k] == s.tasks[k])
      && (k in s.fences ==> k in s'.fences && s'.tasks[k].SamePlan(s.tasks[k]))
  }

  predicate ClaimEvolves(s: Store, s': Store, c: Id)
    requires c in s.claims
  {
    && c in s'.claims && SameClaim(s.claims[c], s'.claims[c])
    && (!s.claims[c].status.Live? ==> s'.claims[c] == s.claims[c])
  }

  predicate NewClaimIsFenced(s: Store, s': Store, c: Id)
    requires c in s'.claims
  {
    c !in s.claims && s'.claims[c].key in s.fences ==> s'.claims[c].token > s.fences[s'.claims[c].key]
  }

  predicate ClaimsEvolve(s: Store, s': Store) {
    && (forall c :: c in s.claims ==> ClaimEvolves(s, s', c))
    && (forall c :: c in s'.claims ==> NewClaimIsFenced(s, s', c))
    && (forall k :: k in s.fences ==> k in s'.fences && s.fences[k] <= s'.fences[k])
  }

  predicate GoalsEvolve(s: Store, s': Store) {
    forall g :: g in s.goals ==> g in s'.goals && (s.goals[g].Terminal() ==> s'.goals[g] == s.goals[g])
  }

  predicate RecordsEvolve(s: Store, s': Store) {
    && (forall a :: a in s.attempts ==> a in s'.attempts && s'.attempts[a] == s.attempts[a])
    && (forall r :: r in s.reviews ==> r in s'.reviews && s'.reviews[r] == s.reviews[r])
  }

  predicate Evolves(s: Store, s': Store) {
    TasksEvolve(s, s') && ClaimsEvolve(s, s') && GoalsEvolve(s, s') && RecordsEvolve(s, s')
  }

  lemma EvolvesReflexive(s: Store)
    ensures Evolves(s, s)
  {
  }

  lemma TasksEvolveTransitive(a: Store, b: Store, c: Store)
    requires TasksEvolve(a, b) && TasksEvolve(b, c)
    ensures TasksEvolve(a, c)
  {
  }

  lemma ClaimsEvolveTransitive(a: Store, b: Store, c: Store)
    requires ClaimsEvolve(a, b) && ClaimsEvolve(b, c)
    ensures ClaimsEvolve(a, c)
  {
  }

  lemma EvolvesTransitive(a: Store, b: Store, c: Store)
    requires Evolves(a, b) && Evolves(b, c)
    ensures Evolves(a, c)
  {
    TasksEvolveTransitive(a, b, c);
    ClaimsEvolveTransitive(a, b, c);
  }

  /** Whoever still holds a claim after the step finds its task and its review
      count as they were before it. */
  predicate Undisturbed(s: Store, s': Store) {
    forall c :: c in s.claims && c in s'.claims && s'.claims[c].status.Live? ==> Untouched(s, s', s.claims[c].key)
  }

  predicate Untouched(s: Store, s': Store, key: TaskKey) {
    && key in s.tasks && key in s'.tasks && s'.tasks[key] == s.tasks[key]
    && ReviewsOf(s', key) == ReviewsOf(s, key)
  }

  /** Claims begin and end at the step's own time, at most one begins, and only
      on a task that nobody held. */
  predicate Stamped(s: Store, s': Store, now: Instant) {
    && (forall c :: c in s.claims && c in s'.claims ==>
          s'.claims[c].finishedAt == s.claims[c].finishedAt || s'.claims[c].finishedAt == Some(now))
    && (forall c :: c in s'.claims && c !in s.claims ==>
          s'.claims[c].acquiredAt == now && s'.claims[c].finishedAt.None? && !HasLiveClaim(s, s'.claims[c].key))
    && (forall c, d :: c in s'.claims && d in s'.claims && c !in s.claims && d !in s.claims ==> c == d)
  }

  // ---------------------------------------------------------------- the changes, one by one

  lemma OpenEvolves(s: Store, s': Store, claim: TaskClaim)
    requires RowsKeyed(s) && Owned(s) && Opens(s, s', claim)
    ensures Evolves(s, s') && Undisturbed(s, s') && Stamped(s, s', claim.acquiredAt)
  {
    OpenRewritesNothing(s, s', claim);
    OpenDisturbsNobody(s, s', claim);
  }

  lemma OpenRewritesNothing(s: Store, s': Store, claim: TaskClaim)
    requires RowsKeyed(s) && Opens(s, s', claim)
    ensures Evolves(s, s') && Stamped(s, s', claim.acquiredAt)
  {
  }

  lemma OpenDisturbsNobody(s: Store, s': Store, claim: TaskClaim)
    requires Owned(s) && Opens(s, s', claim)
    ensures Undisturbed(s, s')
  {
    forall c | c in s.claims && c in s'.claims && s'.claims[c].status.Live? ensures Untouched(s, s', s.claims[c].key) {
      assert OwnsTask(s, s.claims[c]);
    }
  }

  lemma EndsEvolve(s: Store, s': Store, doomed: set<Id>)
    requires RowsKeyed(s) && Fenced(s) && Owned(s) && Ends(s, s', doomed)
    ensures Evolves(s, s') && Undisturbed(s, s')
  {
    EndsOnlyFalls(s, s', doomed);
    FallsRewriteNothing(s, s');
    EndsKeepClaims(s, s', doomed);
    EndsUndisturbed(s, s', doomed);
  }

  lemma FallsRewriteNothing(s: Store, s': Store)
    requires OnlyFalls(s, s') && s'.fences == s.fences
    ensures TasksEvolve(s, s')
  {
  }

  lemma EndsKeepClaims(s: Store, s': Store, doomed: set<Id>)
    requires Ends(s, s', doomed)
    ensures ClaimsEvolve(s, s') && GoalsEvolve(s, s') && RecordsEvolve(s, s')
  {
  }

  lemma EndsUndisturbed(s: Store, s': Store, doomed: set<Id>)
    requires RowsKeyed(s) && Fenced(s) && Owned(s) && Ends(s, s', doomed)
    ensures Undisturbed(s, s')
  {
    forall c | c in s.claims && c in s'.claims && s'.claims[c].status.Live? ensures Untouched(s, s', s.claims[c].key) {
      assert OwnsTask(s, s.claims[c]);
    }
  }

  lemma RefreshEvolves(s: Store, s': Store, now: Instant)
    requires RowsKeyed(s) && Owned(s) && Refreshes(s, s')
    ensures Evolves(s, s') && Undisturbed(s, s') && Stamped(s, s', now)
  {
    forall c | c in s.claims && c in s'.claims && s'.claims[c].status.Live? ensures Untouched(s, s', s.claims[c].key) {
      assert OwnsTask(s, s.claims[c]);
    }
  }

  lemma GoalMoveEvolves(s: Store, s': Store, goal: Id, status: GoalStatus, now: Instant)
    requires Owned(s) && GoalMoves(s, s', goal, status)
    ensures Evolves(s, s') && Undisturbed(s, s') && Stamped(s, s', now)
  {
    forall c | c in s.claims && c in s'.claims && s'.claims[c].status.Live? ensures Untouched(s, s', s.claims[c].key) {
      assert OwnsTask(s, s.claims[c]);
    }
  }

  lemma CommitRewritesNothing(s: Store, s': Store, c: Id, committed: TaskClaim, o: Outcome)
    requires RowsKeyed(s) && Commits(s, s', c, committed, o)
    requires s.tasks[o.task.key].status.Running? && o.task.SamePlan(s.tasks[o.task.key])
    ensures Evolves(s, s')
  {
    CommitKeepsClaims(s, s', c, committed, o);
  }

  lemma CommitKeepsClaims(s: Store, s': Store, c: Id, committed: TaskClaim, o: Outcome)
    requires Commits(s, s', c, committed, o)
    ensures ClaimsEvolve(s, s') && GoalsEvolve(s, s') && RecordsEvolve(s, s')
  {
  }

  lemma CommitDisturbsNobody(s: Store, s': Store, c: Id, committed: TaskClaim, o: Outcome, d: Id)
    requires Fenced(s) && Owned(s) && Commits(s, s', c, committed, o)
    requires d in s.claims && d in s'.claims && s'.claims[d].status.Live?
    ensures Untouched(s, s', s.claims[d].key)
  {
    assert OwnsTask(s, s.claims[c]) && OwnsTask(s, s.claims[d]);
    assert SameToken(s.claims[c], s.claims[d]) ==> c == d;
    assert ReviewsOf(s', s.claims[d].key) == ReviewsOf(s, s.claims[d].key);
  }

  lemma CommitEvolves(s: Store, s': Store, c: Id, committed: TaskClaim, o: Outcome)
    requires RowsKeyed(s) && Fenced(s) && Owned(s) && Commits(s, s', c, committed, o)
    requires o.task.SamePlan(s.tasks[o.task.key])
    ensures Evolves(s, s') && Undisturbed(s, s')
  {
    CommitMoves(s, s', c, committed, o);
    CommitRewritesNothing(s, s', c, committed, o);
    forall d | d in s.claims && d in s'.claims && s'.claims[d].status.Live? ensures Untouched(s, s', s.claims[d].key) {
      CommitDisturbsNobody(s, s', c, committed, o, d);
    }
  }

  lemma AdmitEvolves(s: Store, s': Store, goal: Id, tasks: seq<Task>, g: TaskGraph.Graph, order: seq<Id>, now: Instant)
    requires RowsKeyed(s) && Fenced(s) && Owned(s) && Planned(s) && DependenciesMet(s)
    requires Admits(s, s', goal, tasks, g, order)
    ensures Evolves(s, s') && Undisturbed(s, s') && Stamped(s, s', now)
  {
    AdmittedRows(s, s', goal, tasks, g, order);
    RowsAdmittedEvolve(s, s', goal, now);
    forall c | c in s.claims && c in s'.claims && s'.claims[c].status.Live? ensures Untouched(s, s', s.claims[c].key) {
      assert OwnsTask(s, s.claims[c]) && Admitted(s, s', goal, s.claims[c].key);
    }
  }

  lemma RowsAdmittedEvolve(s: Store, s': Store, goal: Id, now: Instant)
    requires s' == s.(tasks := s'.tasks) && forall k :: Admitted(s, s', goal, k)
    ensures Evolves(s, s') && Stamped(s, s', now)
  {
    forall k | k in s.tasks
      ensures k in s'.tasks && (s.tasks[k].status.Terminal() || k in s.fences ==> s'.tasks[k] == s.tasks[k])
    {
      assert Admitted(s, s', goal, k);
    }
  }

  // ---------------------------------------------------------------- exclusion in time

  /** No stored time lies in the future, and claims end no earlier than they begin. */
  ghost predicate InThePast(s: Store, clock: Instant) {
    forall c :: c in s.claims ==>
      && s.claims[c].acquiredAt <= clock
      && (s.claims[c].finishedAt.Some? ==> s.claims[c].acquiredAt <= s.claims[c].finishedAt.value <= clock)
  }

  /** Of two claims of one task, the earlier one has ended when the later begins. */
  ghost predicate Exclusive(s: Store) {
    forall c, d :: c in s.claims && d in s.claims && Precedes(s.claims[c], s.claims[d]) ==>
      EndsBefore(s.claims[c], s.claims[d])
  }

  predicate Precedes(a: TaskClaim, b: TaskClaim) {
    a.key == b.key && a.token < b.token
  }

  predicate EndsBefore(a: TaskClaim, b: TaskClaim) {
    a.finishedAt.Some? && a.finishedAt.value <= b.acquiredAt
  }

  lemma StampKeepsExclusion(s: Store, s': Store, clock: Instant, now: Instant)
    requires Fenced(s) && Leased(s) && Exclusive(s) && InThePast(s, clock) && clock <= now
    requires ClaimsEvolve(s, s') && Stamped(s, s', now)
    ensures Exclusive(s') && InThePast(s', now)
  {
    forall c, d | c in s'.claims && d in s'.claims && Precedes(s'.claims[c], s'.claims[d])
      ensures EndsBefore(s'.claims[c], s'.claims[d])
    {
      if c in s.claims && d in s.claims {
        assert Precedes(s.claims[c], s.claims[d]);
        assert EndsBefore(s.claims[c], s.claims[d]);
        assert !s.claims[c].status.Live?;
      } else if c in s.claims {
        assert !s.claims[c].status.Live?;
      }
    }
    forall c | c in s'.claims
      ensures s'.claims[c].acquiredAt <= now
      ensures s'.claims[c].finishedAt.Some? ==> s'.claims[c].acquiredAt <= s'.claims[c].finishedAt.value <= now
    {
    }
  }
}
