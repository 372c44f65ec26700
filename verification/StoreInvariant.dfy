/** What every scheduler transaction keeps true of the store, whatever clock
    values its callers supply. */
module StoreInvariant {
  import opened Domain
  import opened Scheduler
  import opened Outbox
  import opened Store
  import TaskGraph

  /** Primary keys agree with the rows they name. */
  ghost predicate RowsKeyed(s: Store) {
    && (forall c :: c in s.claims ==> s.claims[c].claimId == c)
    && (forall k :: k in s.tasks ==> s.tasks[k].key == k)
    && (forall w :: w in s.sessions ==> s.sessions[w].workerId == w)
  }

  predicate SameToken(a: TaskClaim, b: TaskClaim) {
    a.key == b.key && a.token == b.token
  }

  predicate IssuedToken(s: Store, key: TaskKey, token: int) {
    exists c :: c in s.claims && s.claims[c].key == key && s.claims[c].token == token
  }

  /** The tokens of a task's claims are exactly 1 .. last_token, each used once. */
  ghost predicate Fenced(s: Store) {
    && (forall c :: c in s.claims ==>
          s.claims[c].key in s.fences && 1 <= s.claims[c].token <= s.fences[s.claims[c].key])
    && (forall c, d :: c in s.claims && d in s.claims && SameToken(s.claims[c], s.claims[d]) ==> c == d)
    && (forall k, n :: k in s.fences && 1 <= n <= s.fences[k] ==> IssuedToken(s, k, n))
    && (forall k :: k in s.fences ==> 1 <= s.fences[k])
  }

  /** A live claim carries its task's last token, and its task is running for
      the claim's agent. */
  predicate OwnsTask(s: Store, claim: TaskClaim) {
    && claim.key in s.fences && claim.token == s.fences[claim.key]
    && claim.key in s.tasks && s.tasks[claim.key].status.Running?
    && s.tasks[claim.key].assignedAgent == Some(claim.agentId)
  }

  /** Live claims own their tasks, and a task runs only under a live claim. */
  ghost predicate Owned(s: Store) {
    && (forall c :: c in s.claims && s.claims[c].status.Live? ==> OwnsTask(s, s.claims[c]))
    && (forall k :: k in s.tasks && s.tasks[k].status.Running? ==> HasLiveClaim(s, k))
  }

  /** Times on a claim are in order, and exactly the ended claims have an end. */
  ghost predicate Leased(s: Store) {
    forall c :: c in s.claims ==>
      && s.claims[c].acquiredAt <= s.claims[c].renewedAt < s.claims[c].expiresAt
      && (s.claims[c].status.Live? <==> s.claims[c].finishedAt.None?)
  }

  /** A task that was ever claimed has all its dependencies succeeded; a task
      that was never claimed is still pending. */
  ghost predicate DependenciesMet(s: Store) {
    && (forall k :: k in s.fences ==> k in s.tasks && Ready(s, s.tasks[k]))
    && (forall k :: k in s.tasks && !s.tasks[k].status.Pending? ==> k in s.fences)
  }

  function TaskIds(tasks: map<TaskKey, Task>, goal: Id): set<Id> {
    set k | k in tasks && k.goal == goal :: k.task
  }

  function PlanGraph(tasks: map<TaskKey, Task>, goal: Id): TaskGraph.Graph {
    map t | t in TaskIds(tasks, goal) :: tasks[TaskKey(goal, t)].dependencies
  }

  ghost predicate Ordered(tasks: map<TaskKey, Task>, goal: Id) {
    exists order :: TaskGraph.Topological(PlanGraph(tasks, goal), order)
  }

  predicate HasTasks(s: Store, goal: Id) {
    exists k :: k in s.tasks && k.goal == goal
  }

  /** A goal that has left planning owns a non-empty acyclic plan; before that
      none of its tasks has been claimed. */
  ghost predicate Planned(s: Store) {
    && (forall k :: k in s.tasks ==> k.goal in s.goals && s.tasks[k].maxAttempts >= 1)
    && (forall g {:trigger Ordered(s.tasks, g)} :: g in s.goals && HasTasks(s, g) ==> Ordered(s.tasks, g))
    && (forall g :: g in s.goals && (s.goals[g].Created? || s.goals[g].Planning?) ==>
          forall k :: k in s.tasks && k.goal == g ==> k !in s.fences)
    && (forall g :: g in s.goals && (s.goals[g].Active? || s.goals[g].Paused?) ==> HasTasks(s, g))
  }

  /** Goal states follow from task states. */
  ghost predicate GoalsAgree(s: Store) {
    && (forall g :: g in s.goals ==> (s.goals[g].GoalSucceeded? <==> AllSucceeded(s.tasks, g)))
    && (forall k :: k in s.tasks && s.tasks[k].status.Failed? ==> k.goal in s.goals && s.goals[k.goal].GoalFailed?)
    && (forall g :: g in s.goals && s.goals[g].GoalBlocked? ==>
          exists k :: k in s.tasks && k.goal == g && s.tasks[k].status.Blocked?)
  }

  // ---------------------------------------------------------------- attempts

  function ReviewsOf(s: Store, key: TaskKey): set<Id> {
    set r | r in s.reviews && s.reviews[r].key == key
  }

  function AttemptsOf(s: Store, key: TaskKey): set<Id> {
    set a | a in s.attempts && s.attempts[a].key == key
  }

  function CommittedOf(s: Store, key: TaskKey): set<Id> {
    set c | c in s.claims && s.claims[c].key == key && s.claims[c].status.Committed?
  }

  predicate AttemptRecorded(s: Store, key: TaskKey, n: int) {
    exists a :: a in s.attempts && s.attempts[a].key == key && s.attempts[a].number == n
  }

  /** One attempt and one review per committed claim, numbered 1 .. n. */
  predicate Counted(s: Store, key: TaskKey) {
    var n := |ReviewsOf(s, key)|;
    && |CommittedOf(s, key)| == n
    && |AttemptsOf(s, key)| == n
    && (forall a :: a in AttemptsOf(s, key) ==> 1 <= s.attempts[a].number <= n)
    && (forall a, b :: a in AttemptsOf(s, key) && b in AttemptsOf(s, key) ==>
          s.attempts[a].number == s.attempts[b].number ==> a == b)
    && (forall i :: 1 <= i <= n ==> AttemptRecorded(s, key, i))
  }

  predicate WithinLimit(s: Store, task: Task) {
    var n := |ReviewsOf(s, task.key)|;
    && n <= task.maxAttempts
    && (task.status.Pending? || task.status.Running? ==> n < task.maxAttempts)
    && (task.status.Failed? ==> n == task.maxAttempts)
  }

  ghost predicate AttemptsExact(s: Store) {
    && (forall k :: Counted(s, k))
    && (forall k :: k in s.tasks ==> WithinLimit(s, s.tasks[k]))
    && (forall k :: k !in s.fences ==> ReviewsOf(s, k) == {})
  }

  ghost predicate Inv(s: Store) {
    && RowsKeyed(s) && Fenced(s) && Owned(s) && Leased(s) && DependenciesMet(s)
    && Planned(s) && GoalsAgree(s) && AttemptsExact(s) && WellKeyed(s.outbox)
  }

  lemma EmptyStoreOk()
    ensures Inv(EMPTY)
  {
    forall k ensures Counted(EMPTY, k) {
      assert ReviewsOf(EMPTY, k) == {} && AttemptsOf(EMPTY, k) == {} && CommittedOf(EMPTY, k) == {};
    }
  }

  // ---------------------------------------------------------------- small consequences

  /** At most one live claim per task. */
  lemma OneLiveClaim(s: Store, c: Id, d: Id)
    requires Inv(s) && c in s.claims && d in s.claims && s.claims[c].key == s.claims[d].key
    requires s.claims[c].status.Live? && s.claims[d].status.Live?
    ensures c == d
  {
    assert OwnsTask(s, s.claims[c]) && OwnsTask(s, s.claims[d]);
  }

  /** Plans that list the same dependencies have the same graph. */
  lemma SamePlansSameGraph(a: map<TaskKey, Task>, b: map<TaskKey, Task>, goal: Id)
    requires forall k: TaskKey :: k.goal == goal ==> (k in a <==> k in b)
    requires forall k :: k in a && k.goal == goal ==> a[k].dependencies == b[k].dependencies
    ensures PlanGraph(a, goal) == PlanGraph(b, goal)
  {
    assert TaskIds(a, goal) == TaskIds(b, goal);
    forall t | t in TaskIds(a, goal) ensures TaskKey(goal, t) in a {
      var k :| k in a && k.goal == goal && k.task == t;
    }
  }

  /** The plan of every goal is untouched when no task changes its plan. */
  lemma PlansKept(s: Store, s': Store)
    requires Planned(s)
    requires s'.tasks.Keys == s.tasks.Keys && s'.goals.Keys == s.goals.Keys
    requires forall k :: k in s.tasks ==> s'.tasks[k].SamePlan(s.tasks[k])
    ensures forall g {:trigger Ordered(s'.tasks, g)} :: g in s'.goals && HasTasks(s', g) ==> Ordered(s'.tasks, g)
    ensures forall g :: HasTasks(s, g) <==> HasTasks(s', g)
  {
    forall g | g in s'.goals && HasTasks(s', g) ensures Ordered(s'.tasks, g) {
      assert HasTasks(s, g) && Ordered(s.tasks, g);
      SamePlansSameGraph(s.tasks, s'.tasks, g);
    }
  }

  /** Records of other claims: attempts and limits do not notice a change that
      commits nothing and keeps every task's limit and openness. */
  lemma CountsKept(s: Store, s': Store)
    requires AttemptsExact(s)
    requires s'.reviews == s.reviews && s'.attempts == s.attempts
    requires forall c :: c in s'.claims && s'.claims[c].status.Committed? ==>
      c in s.claims && s.claims[c] == s'.claims[c]
    requires forall c :: c in s.claims && s.claims[c].status.Committed? ==>
      c in s'.claims && s.claims[c] == s'.claims[c]
    ensures forall k :: Counted(s', k)
    ensures forall k :: ReviewsOf(s', k) == ReviewsOf(s, k)
  {
    forall k ensures Counted(s', k) && ReviewsOf(s', k) == ReviewsOf(s, k) {
      assert Counted(s, k);
      assert ReviewsOf(s', k) == ReviewsOf(s, k);
      assert AttemptsOf(s', k) == AttemptsOf(s, k);
      assert CommittedOf(s', k) == CommittedOf(s, k);
      forall i | 1 <= i <= |ReviewsOf(s, k)| ensures AttemptRecorded(s', k, i) {
        assert AttemptRecorded(s, k, i);
      }
    }
  }
}
