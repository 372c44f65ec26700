/** Committing a worker's outcome, and admitting a plan, keep the store invariant. */
module StoreCommit {
  import opened Domain
  import opened Scheduler
  import opened Outbox
  import opened Store
  import opened StoreInvariant
  import TaskGraph

  // ---------------------------------------------------------------- committing an outcome

  /** The outcomes that the worker service builds: the claimed task with a new
      status, numbered one past the reviews already stored; it fails with its last
      attempt, and waits again only while one is left. */
  predicate WorkerBuilt(s: Store, o: Outcome) {
    var n := |ReviewsOf(s, o.task.key)|;
    && o.task.key in s.tasks && o.task.SamePlan(s.tasks[o.task.key])
    && o.attempt.number == n + 1
    && (o.task.status.Pending? ==> n + 1 < o.task.maxAttempts)
    && (o.task.status.Failed? ==> n + 1 >= o.task.maxAttempts)
  }

  /** The change a commit makes. */
  predicate Commits(s: Store, s': Store, c: Id, committed: TaskClaim, o: Outcome) {
    var key := o.task.key;
    && c in s.claims && s.claims[c].status.Live? && s.claims[c].key == key && key in s.tasks
    && committed.status.Committed? && committed.finishedAt.Some?
    && committed == s.claims[c].(status := Committed, finishedAt := committed.finishedAt)
    && !o.task.status.Running? && o.attempt.key == key && o.review.key == key && OutcomeRowsFit(s, o)
    && key.goal in s.goals && s.goals[key.goal].Active? && key.goal in s'.goals
    && ReconcileGoal(s.(tasks := s.tasks[key := o.task]), o.task) == Ok(s'.goals[key.goal])
    && s' == s.(artifacts := s'.artifacts, outbox := s'.outbox,
                attempts := s.attempts[o.attempt.attemptId := o.attempt],
                reviews := s.reviews[o.review.reviewId := o.review],
                tasks := s.tasks[key := o.task],
                goals := s.goals[key.goal := s'.goals[key.goal]],
                claims := s.claims[c := committed])
  }

  /** What an accepted submission leaves, exactly: its attempt, review and artifact
      are new rows; every intent it carries is in the outbox, and nothing else is
      new there; its task and its claim have ended as submitted. */
  predicate Settled(s: Store, s': Store, committed: TaskClaim, o: Outcome) {
    && o.attempt.attemptId !in s.attempts && s'.attempts == s.attempts[o.attempt.attemptId := o.attempt]
    && o.review.reviewId !in s.reviews && s'.reviews == s.reviews[o.review.reviewId := o.review]
    && (match o.artifact
        case None => s'.artifacts == s.artifacts
        case Some(a) => a.artifactId !in s.artifacts && s'.artifacts == s.artifacts[a.artifactId := a])
    && Publishes(s.outbox, s'.outbox, o.messages) && (o.messages == [] ==> s'.outbox == s.outbox)
    && committed.key == o.task.key == o.attempt.key == o.review.key && committed.agentId == o.attempt.agentId
    && s'.tasks == s.tasks[o.task.key := o.task]
    && committed.status.Committed? && s'.claims == s.claims[committed.claimId := committed]
  }

  lemma CommitSettles(s: Store, claim: TaskClaim, o: Outcome, now: Instant)
    requires RowsKeyed(s) && WellKeyed(s.outbox)
    ensures
      var t := CommitOutcome(s, claim, o, now);
      if t.result.Ok? then Settled(s, t.store, t.result.value, o) && t.result.value.claimId == claim.claimId
      else t.store == s
  {
    if CommitOutcome(s, claim, o, now).result.Ok? {
      EnqueueAllPublishes(s.outbox, o.messages);
    }
  }

  lemma CommitKeepsFences(s: Store, s': Store, c: Id, committed: TaskClaim, o: Outcome)
    requires RowsKeyed(s) && Fenced(s) && Leased(s) && Commits(s, s', c, committed, o)
    ensures RowsKeyed(s') && Fenced(s') && Leased(s')
  {
    forall d | d in s.claims ensures s'.claims[d].key == s.claims[d].key && s'.claims[d].token == s.claims[d].token {
    }
    forall k, n | k in s'.fences && 1 <= n <= s'.fences[k] ensures IssuedToken(s', k, n) {
      assert IssuedToken(s, k, n);
      var d :| d in s.claims && s.claims[d].key == k && s.claims[d].token == n;
      assert s'.claims[d].key == k;
    }
  }

  lemma CommitKeepsOwners(s: Store, s': Store, c: Id, committed: TaskClaim, o: Outcome)
    requires RowsKeyed(s) && Fenced(s) && Owned(s) && Commits(s, s', c, committed, o)
    ensures Owned(s')
  {
    assert OwnsTask(s, s.claims[c]);
    forall d | d in s'.claims && s'.claims[d].status.Live? ensures OwnsTask(s', s'.claims[d]) {
      assert OwnsTask(s, s.claims[d]);
      assert SameToken(s.claims[c], s.claims[d]) ==> c == d;
    }
    forall k | k in s'.tasks && s'.tasks[k].status.Running? ensures HasLiveClaim(s', k) {
      var d :| d in s.claims && s.claims[d].key == k && s.claims[d].status.Live?;
      assert s'.claims[d] == s.claims[d];
    }
  }

  lemma CommitKeepsDependencies(s: Store, s': Store, c: Id, committed: TaskClaim, o: Outcome)
    requires RowsKeyed(s) && Owned(s) && DependenciesMet(s) && Commits(s, s', c, committed, o)
    requires o.task.SamePlan(s.tasks[o.task.key])
    ensures DependenciesMet(s')
  {
    assert OwnsTask(s, s.claims[c]);
    forall k | k in s'.fences ensures k in s'.tasks && Ready(s', s'.tasks[k]) {
      assert Ready(s, s.tasks[k]);
    }
  }

  lemma CommitKeepsPlans(s: Store, s': Store, task: Task)
    requires RowsKeyed(s) && Planned(s) && Moves(s, s', task) && task.SamePlan(s.tasks[task.key])
    ensures Planned(s')
  {
    PlansKept(s, s');
    assert HasTasks(s, task.key.goal);
    forall g | g in s'.goals && (s'.goals[g].Created? || s'.goals[g].Planning?)
      ensures g in s.goals && s'.goals[g] == s.goals[g]
    {
    }
    forall g | g in s'.goals && (s'.goals[g].Active? || s'.goals[g].Paused?) ensures HasTasks(s', g) {
      assert HasTasks(s, g) <==> HasTasks(s', g);
    }
  }

  /** The part of a commit that goal states depend on: a running task of an
      active goal changes, and the goal is reconciled with it. */
  predicate Moves(s: Store, s': Store, task: Task) {
    var goal := task.key.goal;
    && task.key in s.tasks && s.tasks[task.key].status.Running? && !task.status.Running?
    && s'.fences == s.fences && s'.tasks == s.tasks[task.key := task]
    && goal in s.goals && s.goals[goal].Active? && goal in s'.goals
    && ReconcileGoal(s.(tasks := s'.tasks), task) == Ok(s'.goals[goal])
    && s'.goals == s.goals[goal := s'.goals[goal]]
  }

  /** Success of a goal is recorded with its last task, and not before. */
  lemma ReconcileRecordsSuccess(s: Store, s': Store, task: Task, g: Id)
    requires GoalsAgree(s) && Moves(s, s', task) && g in s'.goals
    ensures s'.goals[g].GoalSucceeded? <==> AllSucceeded(s'.tasks, g)
  {
    if g == task.key.goal {
      assert s'.tasks[task.key] == task;
    } else {
      OtherGoalsUnmoved(s.tasks, s'.tasks, task.key, g);
    }
  }

  lemma ReconcileRecordsFailure(s: Store, s': Store, task: Task)
    requires GoalsAgree(s) && Moves(s, s', task)
    ensures forall k :: k in s'.tasks && s'.tasks[k].status.Failed? ==>
      k.goal in s'.goals && s'.goals[k.goal].GoalFailed?
    ensures forall g :: g in s'.goals && s'.goals[g].GoalBlocked? ==>
              exists k :: k in s'.tasks && k.goal == g && s'.tasks[k].status.Blocked?
  {
    forall k | k in s'.tasks && s'.tasks[k].status.Failed? ensures k.goal in s'.goals && s'.goals[k.goal].GoalFailed? {
      if k != task.key {
        assert s.goals[k.goal].GoalFailed?;
      }
    }
    forall g | g in s'.goals && s'.goals[g].GoalBlocked?
      ensures exists k :: k in s'.tasks && k.goal == g && s'.tasks[k].status.Blocked?
    {
      if g == task.key.goal {
        assert s'.tasks[task.key].status.Blocked?;
      } else {
        var k :| k in s.tasks && k.goal == g && s.tasks[k].status.Blocked?;
        assert s'.tasks[k] == s.tasks[k];
      }
    }
  }

  lemma CommitKeepsAgreement(s: Store, s': Store, task: Task)
    requires GoalsAgree(s) && Moves(s, s', task)
    ensures GoalsAgree(s')
  {
    forall g | g in s'.goals ensures s'.goals[g].GoalSucceeded? <==> AllSucceeded(s'.tasks, g) {
      ReconcileRecordsSuccess(s, s', task, g);
    }
    ReconcileRecordsFailure(s, s', task);
  }

  lemma CommitMoves(s: Store, s': Store, c: Id, committed: TaskClaim, o: Outcome)
    requires Owned(s) && Commits(s, s', c, committed, o)
    ensures Moves(s, s', o.task)
  {
    assert OwnsTask(s, s.claims[c]);
  }

  lemma OtherGoalsUnmoved(a: map<TaskKey, Task>, b: map<TaskKey, Task>, key: TaskKey, goal: Id)
    requires key.goal != goal && key in a && b.Keys == a.Keys
    requires forall k :: k in a && k != key ==> b[k] == a[k]
    ensures AllSucceeded(a, goal) <==> AllSucceeded(b, goal)
  {
  }

  /** The rows a commit adds for its task. */
  predicate AddsRows(s: Store, s': Store, key: TaskKey, c: Id, attempt: Attempt, review: Review) {
    && review.reviewId !in s.reviews && review.key == key && s'.reviews == s.reviews[review.reviewId := review]
    && attempt.attemptId !in s.attempts && attempt.key == key && s'.attempts == s.attempts[attempt.attemptId := attempt]
    && c in s.claims && !s.claims[c].status.Committed? && s'.claims.Keys == s.claims.Keys
    && s'.claims[c].key == key && s'.claims[c].status.Committed?
    && forall d :: d in s.claims && d != c ==> s'.claims[d] == s.claims[d]
  }

  lemma RowsAdded(s: Store, s': Store, key: TaskKey, c: Id, attempt: Attempt, review: Review)
    requires AddsRows(s, s', key, c, attempt, review)
    ensures |ReviewsOf(s', key)| == |ReviewsOf(s, key)| + 1
    ensures |CommittedOf(s', key)| == |CommittedOf(s, key)| + 1
    ensures AttemptsOf(s', key) == AttemptsOf(s, key) + {attempt.attemptId}
  {
    assert ReviewsOf(s', key) == ReviewsOf(s, key) + {review.reviewId};
    assert AttemptsOf(s', key) == AttemptsOf(s, key) + {attempt.attemptId};
    assert CommittedOf(s', key) == CommittedOf(s, key) + {c};
  }

  /** The committed task gains exactly one attempt, one review and one
      committed claim, under the next number. */
  lemma CommitCounts(s: Store, s': Store, key: TaskKey, c: Id, attempt: Attempt, review: Review)
    requires Counted(s, key) && AddsRows(s, s', key, c, attempt, review)
    requires attempt.number == |ReviewsOf(s, key)| + 1
    ensures Counted(s', key) && |ReviewsOf(s', key)| == |ReviewsOf(s, key)| + 1
  {
    RowsAdded(s, s', key, c, attempt, review);
    var n := |ReviewsOf(s', key)|;
    forall i | 1 <= i <= n ensures AttemptRecorded(s', key, i) {
      if i == n {
        assert s'.attempts[attempt.attemptId] == attempt;
      } else {
        assert AttemptRecorded(s, key, i);
        var a :| a in s.attempts && s.attempts[a].key == key && s.attempts[a].number == i;
        assert s'.attempts[a] == s.attempts[a];
      }
    }
  }

  lemma CommitCountsElsewhere(s: Store, s': Store, c: Id, committed: TaskClaim, o: Outcome, k: TaskKey)
    requires Counted(s, k) && Commits(s, s', c, committed, o) && k != o.task.key
    ensures Counted(s', k) && ReviewsOf(s', k) == ReviewsOf(s, k)
  {
    assert CommittedOf(s', k) == CommittedOf(s, k);
    RowsAddedElsewhere(s, s', o, k);
  }

  lemma RowsAddedElsewhere(s: Store, s': Store, o: Outcome, k: TaskKey)
    requires Counted(s, k) && CommittedOf(s', k) == CommittedOf(s, k)
    requires OutcomeRowsFit(s, o) && k != o.attempt.key && k != o.review.key
    requires s'.attempts == s.attempts[o.attempt.attemptId := o.attempt]
    requires s'.reviews == s.reviews[o.review.reviewId := o.review]
    ensures Counted(s', k) && ReviewsOf(s', k) == ReviewsOf(s, k)
  {
    assert ReviewsOf(s', k) == ReviewsOf(s, k);
    assert AttemptsOf(s', k) == AttemptsOf(s, k);
    forall i | 1 <= i <= |ReviewsOf(s, k)| ensures AttemptRecorded(s', k, i) {
      assert AttemptRecorded(s, k, i);
      var a :| a in s.attempts && s.attempts[a].key == k && s.attempts[a].number == i;
      assert s'.attempts[a] == s.attempts[a];
    }
  }

  lemma CommitKeepsAttempts(s: Store, s': Store, c: Id, committed: TaskClaim, o: Outcome)
    requires RowsKeyed(s) && Owned(s) && AttemptsExact(s) && Commits(s, s', c, committed, o) && WorkerBuilt(s, o)
    ensures AttemptsExact(s')
  {
    assert OwnsTask(s, s.claims[c]);
    CommitCounts(s, s', o.task.key, c, o.attempt, o.review);
    assert o.task.key in s.fences;
    forall k ensures Counted(s', k) && (k != o.task.key ==> ReviewsOf(s', k) == ReviewsOf(s, k)) {
      assert Counted(s, k);
      if k != o.task.key {
        CommitCountsElsewhere(s, s', c, committed, o, k);
      }
    }
    forall k | k in s'.tasks ensures WithinLimit(s', s'.tasks[k]) {
      CommitKeepsLimit(s, s', o, k);
    }
  }

  lemma CommitKeepsLimit(s: Store, s': Store, o: Outcome, k: TaskKey)
    requires k in s.tasks && WithinLimit(s, s.tasks[k]) && s.tasks[k].key == k && WorkerBuilt(s, o)
    requires s.tasks[o.task.key].status.Running? && WithinLimit(s, s.tasks[o.task.key]) && !o.task.status.Running?
    requires s'.tasks == s.tasks[o.task.key := o.task]
    requires |ReviewsOf(s', k)| == |ReviewsOf(s, k)| + if k == o.task.key then 1 else 0
    ensures WithinLimit(s', s'.tasks[k])
  {
  }

  lemma CommitKeepsInv(s: Store, s': Store, c: Id, committed: TaskClaim, o: Outcome)
    requires Inv(s) && Commits(s, s', c, committed, o) && WorkerBuilt(s, o) && WellKeyed(s'.outbox)
    ensures Inv(s')
  {
    CommitKeepsFences(s, s', c, committed, o);
    CommitKeepsOwners(s, s', c, committed, o);
    CommitKeepsDependencies(s, s', c, committed, o);
    CommitMoves(s, s', c, committed, o);
    CommitKeepsPlans(s, s', o.task);
    CommitKeepsAgreement(s, s', o.task);
    CommitKeepsAttempts(s, s', c, committed, o);
  }

  // ---------------------------------------------------------------- admitting a plan

  /** A plan as the planner hands it over: unclaimed tasks of one goal. */
  predicate FreshPlan(tasks: seq<Task>, goal: Id) {
    forall t :: t in tasks ==> t.key.goal == goal && t.status.Pending? && t.maxAttempts >= 1
  }

  /** A plan is stored for a goal in planning: over nothing, or over the rows of a
      plan stored before a crash. */
  ghost predicate Admits(s: Store, s': Store, goal: Id, tasks: seq<Task>, g: TaskGraph.Graph, order: seq<Id>) {
    && goal in s.goals && s.goals[goal].Planning?
    && tasks != [] && FreshPlan(tasks, goal) && TaskGraph.UniqueIds(tasks)
    && TaskGraph.Describes(g, tasks) && TaskGraph.Topological(g, order)
    && s' == s.(tasks := Upsert(s.tasks, tasks))
  }

  lemma AdmittedTask(s: Store, s': Store, goal: Id, tasks: seq<Task>, g: TaskGraph.Graph, order: seq<Id>, k: TaskKey)
    requires RowsKeyed(s) && Admits(s, s', goal, tasks, g, order)
    ensures k in s'.tasks <==> k in s.tasks || Lists(tasks, k)
    ensures k in s.tasks && !Lists(tasks, k) ==> s'.tasks[k] == s.tasks[k]
    ensures Lists(tasks, k) ==> k.goal == goal && s'.tasks[k] in tasks && s'.tasks[k].key == k
  {
    UpsertAt(s.tasks, tasks, k);
    if Lists(tasks, k) {
      var i :| 0 <= i < |tasks| && tasks[i].key == k;
      assert tasks[i] in tasks;
    }
  }

  /** What the store says of one task after a plan is admitted: every row of
      another goal, and every row that was ever claimed, is as it was; a new or
      replaced row waits and was never claimed. */
  ghost predicate Admitted(s: Store, s': Store, goal: Id, k: TaskKey) {
    && (k in s.tasks ==> k in s'.tasks)
    && (k in s.fences || k.goal != goal ==>
          (k in s'.tasks <==> k in s.tasks) && (k in s.tasks ==> s'.tasks[k] == s.tasks[k]))
    && (k in s'.tasks && k.goal == goal ==> k !in s.fences && s'.tasks[k].status.Pending? && s'.tasks[k].key == k
                                             && s'.tasks[k].maxAttempts >= 1)
    && (k in s.tasks && k.goal == goal ==> s.tasks[k].status.Pending?)
  }

  lemma AdmittedRow(s: Store, s': Store, goal: Id, tasks: seq<Task>, g: TaskGraph.Graph, order: seq<Id>, k: TaskKey)
    requires RowsKeyed(s) && Planned(s) && DependenciesMet(s) && Admits(s, s', goal, tasks, g, order)
    ensures Admitted(s, s', goal, k)
  {
    AdmittedTask(s, s', goal, tasks, g, order, k);
    if k.goal == goal && k in s.tasks {
      assert k !in s.fences;
    }
  }

  lemma AdmittedRows(s: Store, s': Store, goal: Id, tasks: seq<Task>, g: TaskGraph.Graph, order: seq<Id>)
    requires RowsKeyed(s) && Planned(s) && DependenciesMet(s) && Admits(s, s', goal, tasks, g, order)
    ensures forall k :: Admitted(s, s', goal, k)
    ensures HasTasks(s', goal)
  {
    forall k ensures Admitted(s, s', goal, k) {
      AdmittedRow(s, s', goal, tasks, g, order, k);
    }
    assert Lists(tasks, tasks[0].key) && tasks[0] in tasks;
    AdmittedTask(s, s', goal, tasks, g, order, tasks[0].key);
  }

  lemma AdmittedId(s: Store, s': Store, goal: Id, tasks: seq<Task>, g: TaskGraph.Graph, order: seq<Id>, t: Id)
    requires RowsKeyed(s) && Admits(s, s', goal, tasks, g, order)
    ensures t in PlanGraph(s'.tasks, goal) <==> t in PlanGraph(s.tasks, goal) || t in g
    ensures t in PlanGraph(s'.tasks, goal) ==>
              PlanGraph(s'.tasks, goal)[t] == if t in g then g[t] else PlanGraph(s.tasks, goal)[t]
  {
    AdmittedTask(s, s', goal, tasks, g, order, TaskKey(goal, t));
    ListedIsInGraph(goal, tasks, g, t);
    IdIsKey(s.tasks, goal, t);
    IdIsKey(s'.tasks, goal, t);
  }

  lemma IdIsKey(tasks: map<TaskKey, Task>, goal: Id, t: Id)
    ensures t in TaskIds(tasks, goal) <==> TaskKey(goal, t) in tasks
  {
    if t in TaskIds(tasks, goal) {
      var k :| k in tasks && k.goal == goal && k.task == t;
      assert k == TaskKey(goal, t);
    }
    if TaskKey(goal, t) in tasks {
      assert TaskKey(goal, t).task in TaskIds(tasks, goal);
    }
  }

  lemma ListedIsInGraph(goal: Id, tasks: seq<Task>, g: TaskGraph.Graph, t: Id)
    requires FreshPlan(tasks, goal) && TaskGraph.Describes(g, tasks)
    ensures t in g <==> Lists(tasks, TaskKey(goal, t))
  {
    if t in g {
      var task :| task in tasks && task.key.task == t;
      var i :| 0 <= i < |tasks| && tasks[i] == task;
      assert tasks[i].key == TaskKey(goal, t);
    }
    if Lists(tasks, TaskKey(goal, t)) {
      var i :| 0 <= i < |tasks| && tasks[i].key == TaskKey(goal, t);
      assert tasks[i] in tasks && tasks[i].key.task in TaskGraph.Identifiers(tasks);
    }
  }

  lemma OrderBefore(s: Store, goal: Id) returns (before: seq<Id>)
    requires Planned(s) && goal in s.goals
    ensures TaskGraph.Topological(PlanGraph(s.tasks, goal), before)
  {
    before := [];
    if HasTasks(s, goal) {
      assert Ordered(s.tasks, goal);
      before :| TaskGraph.Topological(PlanGraph(s.tasks, goal), before);
    } else {
      forall t: Id ensures t !in PlanGraph(s.tasks, goal) {
        IdIsKey(s.tasks, goal, t);
      }
    }
  }

  lemma AdmittedGraph(s: Store, s': Store, goal: Id, tasks: seq<Task>, g: TaskGraph.Graph, order: seq<Id>)
    requires RowsKeyed(s) && Admits(s, s', goal, tasks, g, order)
    ensures
      var first, both := PlanGraph(s.tasks, goal), PlanGraph(s'.tasks, goal);
      both.Keys == first.Keys + g.Keys && forall t :: t in both ==> both[t] == if t in g then g[t] else first[t]
  {
    forall t: Id
      ensures t in PlanGraph(s'.tasks, goal).Keys <==> t in PlanGraph(s.tasks, goal).Keys + g.Keys
      ensures t in PlanGraph(s'.tasks, goal) ==>
                PlanGraph(s'.tasks, goal)[t] == if t in g then g[t] else PlanGraph(s.tasks, goal)[t]
    {
      AdmittedId(s, s', goal, tasks, g, order, t);
    }
  }

  /** The rows of the goal stay acyclic, whatever was stored before. */
  lemma AdmittedGoalIsOrdered(s: Store, s': Store, goal: Id, tasks: seq<Task>, g: TaskGraph.Graph, order: seq<Id>)
    requires RowsKeyed(s) && Planned(s) && Admits(s, s', goal, tasks, g, order)
    ensures Ordered(s'.tasks, goal)
  {
    AdmittedGraph(s, s', goal, tasks, g, order);
    var before := OrderBefore(s, goal);
    var merged := TaskGraph.OverlayTopological(PlanGraph(s.tasks, goal), before, g, order, PlanGraph(s'.tasks, goal));
  }

  lemma AdmitKeepsOrder(s: Store, s': Store, goal: Id, tasks: seq<Task>, g: TaskGraph.Graph, order: seq<Id>, h: Id)
    requires RowsKeyed(s) && Planned(s) && DependenciesMet(s) && Admits(s, s', goal, tasks, g, order)
    requires h in s.goals && HasTasks(s', h)
    ensures Ordered(s'.tasks, h)
  {
    if h == goal {
      AdmittedGoalIsOrdered(s, s', goal, tasks, g, order);
    } else {
      forall k: TaskKey | k.goal == h
        ensures (k in s'.tasks <==> k in s.tasks) && (k in s.tasks ==> s'.tasks[k] == s.tasks[k])
      {
        AdmittedRow(s, s', goal, tasks, g, order, k);
      }
      SamePlansSameGraph(s.tasks, s'.tasks, h);
      assert HasTasks(s, h) && Ordered(s.tasks, h);
    }
  }

  lemma AdmitKeepsPlans(s: Store, s': Store, goal: Id, tasks: seq<Task>, g: TaskGraph.Graph, order: seq<Id>)
    requires RowsKeyed(s) && Planned(s) && DependenciesMet(s) && Admits(s, s', goal, tasks, g, order)
    requires forall k :: Admitted(s, s', goal, k)
    ensures Planned(s')
  {
    forall h | h in s'.goals && HasTasks(s', h) ensures Ordered(s'.tasks, h) {
      AdmitKeepsOrder(s, s', goal, tasks, g, order, h);
    }
    forall k | k in s'.tasks
      ensures k.goal in s'.goals && s'.tasks[k].maxAttempts >= 1
      ensures s'.goals[k.goal].Created? || s'.goals[k.goal].Planning? ==> k !in s'.fences
    {
      assert Admitted(s, s', goal, k);
    }
    forall h | h in s'.goals && (s'.goals[h].Active? || s'.goals[h].Paused?) ensures HasTasks(s', h) {
      assert HasTasks(s, h);
      var k :| k in s.tasks && k.goal == h;
      assert Admitted(s, s', goal, k);
    }
  }

  lemma AdmitKeepsOwnership(s: Store, s': Store, goal: Id, tasks: seq<Task>, g: TaskGraph.Graph, order: seq<Id>)
    requires RowsKeyed(s) && Fenced(s) && Leased(s) && Owned(s) && s' == s.(tasks := s'.tasks)
    requires forall k :: Admitted(s, s', goal, k)
    ensures RowsKeyed(s') && Fenced(s') && Leased(s') && Owned(s')
  {
    forall k | k in s'.tasks ensures s'.tasks[k].key == k {
      assert Admitted(s, s', goal, k);
    }
    forall k, n | k in s'.fences && 1 <= n <= s'.fences[k] ensures IssuedToken(s', k, n) {
      assert IssuedToken(s, k, n);
    }
    forall c | c in s'.claims && s'.claims[c].status.Live? ensures OwnsTask(s', s'.claims[c]) {
      assert OwnsTask(s, s.claims[c]) && Admitted(s, s', goal, s.claims[c].key);
    }
    forall k | k in s'.tasks && s'.tasks[k].status.Running? ensures HasLiveClaim(s', k) {
      assert Admitted(s, s', goal, k) && HasLiveClaim(s, k);
    }
  }

  lemma AdmitKeepsDependencies(s: Store, s': Store, goal: Id)
    requires RowsKeyed(s) && DependenciesMet(s) && s' == s.(tasks := s'.tasks)
    requires forall k :: Admitted(s, s', goal, k)
    ensures DependenciesMet(s')
  {
    forall k | k in s'.fences ensures k in s'.tasks && Ready(s', s'.tasks[k]) {
      assert Admitted(s, s', goal, k) && Ready(s, s.tasks[k]);
      var task := s.tasks[k];
      forall d | d in task.dependencies
        ensures TaskKey(task.key.goal, d) in s'.tasks && s'.tasks[TaskKey(task.key.goal, d)].status.Succeeded?
      {
        assert Admitted(s, s', goal, TaskKey(task.key.goal, d));
      }
    }
    forall k | k in s'.tasks && !s'.tasks[k].status.Pending? ensures k in s'.fences {
      assert Admitted(s, s', goal, k);
    }
  }

  lemma AdmitKeepsAgreement(s: Store, s': Store, goal: Id)
    requires GoalsAgree(s) && s' == s.(tasks := s'.tasks) && HasTasks(s', goal)
    requires goal in s.goals && s.goals[goal].Planning?
    requires forall k :: Admitted(s, s', goal, k)
    ensures GoalsAgree(s')
  {
    forall h | h in s'.goals ensures s'.goals[h].GoalSucceeded? <==> AllSucceeded(s'.tasks, h) {
      if h == goal {
        var k :| k in s'.tasks && k.goal == goal;
        assert Admitted(s, s', goal, k);
      } else {
        assert forall k: TaskKey :: k.goal == h ==> Admitted(s, s', goal, k);
        assert AllSucceeded(s'.tasks, h) <==> AllSucceeded(s.tasks, h);
      }
    }
    forall k | k in s'.tasks && s'.tasks[k].status.Failed? ensures k.goal in s'.goals && s'.goals[k.goal].GoalFailed? {
      assert Admitted(s, s', goal, k);
    }
    forall h | h in s'.goals && s'.goals[h].GoalBlocked?
      ensures exists k :: k in s'.tasks && k.goal == h && s'.tasks[k].status.Blocked?
    {
      var k :| k in s.tasks && k.goal == h && s.tasks[k].status.Blocked?;
      assert Admitted(s, s', goal, k);
    }
  }

  lemma AdmitKeepsAttempts(s: Store, s': Store, goal: Id)
    requires AttemptsExact(s) && s' == s.(tasks := s'.tasks) && RowsKeyed(s)
    requires forall k :: Admitted(s, s', goal, k)
    ensures AttemptsExact(s')
  {
    CountsKept(s, s');
    forall k | k in s'.tasks ensures WithinLimit(s', s'.tasks[k]) {
      assert Admitted(s, s', goal, k);
      if k.goal != goal {
        assert WithinLimit(s, s.tasks[k]);
      } else {
        assert ReviewsOf(s, k) == {};
      }
    }
  }

  lemma AdmitKeepsInv(s: Store, s': Store, goal: Id, tasks: seq<Task>, g: TaskGraph.Graph, order: seq<Id>)
    requires Inv(s) && Admits(s, s', goal, tasks, g, order)
    ensures Inv(s')
  {
    AdmittedRows(s, s', goal, tasks, g, order);
    AdmitKeepsOwnership(s, s', goal, tasks, g, order);
    AdmitKeepsDependencies(s, s', goal);
    AdmitKeepsPlans(s, s', goal, tasks, g, order);
    AdmitKeepsAgreement(s, s', goal);
    AdmitKeepsAttempts(s, s', goal);
  }
}
