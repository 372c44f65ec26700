/** The synchronous engine (`LoopEngine`, src/seed_society/engine.py): planning,
    the attempt loop, approval pauses, and recovery after a crash between any
    two of its saves. */
module Engine {
  import opened Domain
  import TaskGraph
  import Spec = Store
  import StoreCommit
  import StoreInvariant
  import SchedulerRuns

  /** One row of `save_attempt_outcome`: the attempt, its review and its
      `task.attempt_completed` event are written in one transaction. */
  datatype Attempt = Attempt(task: Id, no: nat, passed: bool)

  /** What executing and reviewing a task comes to. */
  datatype Reply =
    | Reviewed(verdict: Verdict, score: real, artifact: Id)
    | NeedsApproval
    | WorkerStopped
    | Raised

  /** Why a call of `run` returned. */
  datatype Outcome =
    | AlreadyFinished | AwaitingApproval | ApprovalDenied | PlanRefused
    | AllDone | BudgetExhausted | Unresolved | NoAgent | ApprovalNeeded | StoppedByWorker | AttemptsExhausted
    | Crashed

  /** The status a goal has when `run` returns for a given reason. */
  predicate Reports(outcome: Outcome, goal: GoalStatus) {
    match outcome
    case AllDone => goal.GoalSucceeded?
    case BudgetExhausted | Unresolved | NoAgent | StoppedByWorker => goal.GoalBlocked?
    case AttemptsExhausted | PlanRefused | ApprovalDenied => goal.GoalFailed?
    case AwaitingApproval | ApprovalNeeded => goal.Paused?
    case AlreadyFinished => goal.Terminal()
    case Crashed => true
  }

  // ---------------------------------------------------------------- the durable rows

  function GraphOf(tasks: map<Id, Task>): TaskGraph.Graph {
    map v | v in tasks :: tasks[v].dependencies
  }

  predicate AllSucceeded(tasks: map<Id, Task>) {
    forall v :: v in tasks ==> tasks[v].status.Succeeded?
  }

  predicate DependenciesDone(tasks: map<Id, Task>, v: Id)
    requires v in tasks
  {
    forall d {:trigger d in tasks[v].dependencies} :: d in tasks[v].dependencies ==>
      d in tasks && tasks[d].status.Succeeded?
  }

  predicate Ready(tasks: map<Id, Task>, v: Id) {
    v in tasks && tasks[v].status.Pending? && DependenciesDone(tasks, v)
  }

  predicate Before(tasks: map<Id, Task>, v: Id, u: Id)
    requires v in tasks && u in tasks
  {
    tasks[v].position < tasks[u].position || (tasks[v].position == tasks[u].position && v <= u)
  }

  /** How many attempts at a task were recorded. */
  function Count(attempts: seq<Attempt>, v: Id): nat {
    if attempts == [] then 0
    else Count(attempts[..|attempts| - 1], v) + if attempts[|attempts| - 1].task == v then 1 else 0
  }

  /** The attempts at each task are numbered 1, 2, 3, ... */
  predicate Numbered(attempts: seq<Attempt>) {
    forall i :: 0 <= i < |attempts| ==> NumberedAt(attempts, i)
  }

  predicate NumberedAt(attempts: seq<Attempt>, i: nat)
    requires i < |attempts|
  {
    attempts[i].no == Count(attempts[..i], attempts[i].task) + 1
  }

  predicate PassedOnce(attempts: seq<Attempt>, v: Id) {
    exists a :: a in attempts && a.task == v && a.passed
  }

  lemma Appended(attempts: seq<Attempt>, a: Attempt)
    requires Numbered(attempts) && a.no == Count(attempts, a.task) + 1
    ensures Numbered(attempts + [a])
    ensures forall v :: Count(attempts + [a], v) == Count(attempts, v) + if v == a.task then 1 else 0
    ensures forall v :: PassedOnce(attempts, v) ==> PassedOnce(attempts + [a], v)
    ensures a.passed ==> PassedOnce(attempts + [a], a.task)
  {
    var longer := attempts + [a];
    assert longer[..|attempts|] == attempts;
    forall i | 0 <= i < |longer| ensures NumberedAt(longer, i) {
      if i < |attempts| {
        assert NumberedAt(attempts, i) && longer[..i] == attempts[..i];
      }
    }
    assert a in longer;
    forall v | PassedOnce(attempts, v) ensures PassedOnce(longer, v) {
      var b :| b in attempts && b.task == v && b.passed;
      assert b in longer;
    }
  }

  /** What acyclicity buys the loop: while nothing has failed, been blocked or
      been left running, some task can start. */
  lemma SomeTaskIsReady(tasks: map<Id, Task>, order: seq<Id>)
    requires TaskGraph.Topological(GraphOf(tasks), order) && !AllSucceeded(tasks)
    requires forall v :: v in tasks ==> tasks[v].status.Pending? || tasks[v].status.Succeeded?
    ensures exists v :: Ready(tasks, v)
  {
    var g := GraphOf(tasks);
    var open :| open in tasks && !tasks[open].status.Succeeded?;
    TaskGraph.ListsItsGraph(g, order, open);
    var i := FirstOpen(tasks, order, open);
    TaskGraph.ListsItsGraph(g, order, order[i]);
    forall d | d in tasks[order[i]].dependencies ensures d in tasks && tasks[d].status.Succeeded? {
      assert TaskGraph.FollowsDependencies(g, order, i) && d in g[order[i]];
      TaskGraph.ListsItsGraph(g, order, d);
    }
    assert Ready(tasks, order[i]);
  }

  lemma {:induction false} FirstOpen(tasks: map<Id, Task>, order: seq<Id>, open: Id) returns (i: nat)
    requires open in order && open in tasks && !tasks[open].status.Succeeded?
    ensures i < |order| && order[i] in tasks && !tasks[order[i]].status.Succeeded?
    ensures forall d :: d in order[..i] && d in tasks ==> tasks[d].status.Succeeded?
  {
    if order[0] in tasks && !tasks[order[0]].status.Succeeded? {
      i := 0;
    } else {
      i := FirstOpen(tasks, order[1..], open);
      assert order[..i + 1] == [order[0]] + order[1..][..i];
      i := i + 1;
    }
  }

  // ---------------------------------------------------------------- when nothing can start

  /** The loop has not finished with the task. */
  predicate Waiting(t: Task) {
    t.status.Pending? || t.status.Running?
  }

  /** A task that the loop has given up. */
  predicate Halted(t: Task) {
    t.status.Failed? || t.status.Blocked?
  }

  /** A dependency path from `v` to a halted task. */
  predicate Blocks(tasks: map<Id, Task>, v: Id, p: seq<Id>) {
    && |p| >= 2 && p[0] == v && TaskGraph.Path(GraphOf(tasks), p)
    && p[|p| - 1] in tasks && Halted(tasks[p[|p| - 1]])
  }

  ghost predicate WaitsForHalted(tasks: map<Id, Task>, v: Id) {
    exists p :: Blocks(tasks, v, p)
  }

  /** Every waiting task waits, directly or through others, for a halted one. */
  ghost predicate Stuck(tasks: map<Id, Task>) {
    forall v :: v in tasks && tasks[v].status.Pending? ==> WaitsForHalted(tasks, v)
  }

  ghost predicate StartedInOrder(tasks: map<Id, Task>) {
    forall v :: v in tasks && !tasks[v].status.Pending? ==> DependenciesDone(tasks, v)
  }

  /** Success reaches down every path. */
  lemma {:induction false} SuccessGoesDown(tasks: map<Id, Task>, p: seq<Id>)
    requires StartedInOrder(tasks) && |p| >= 1 && TaskGraph.Path(GraphOf(tasks), p)
    requires p[0] in tasks && tasks[p[0]].status.Succeeded?
    ensures p[|p| - 1] in tasks && tasks[p[|p| - 1]].status.Succeeded?
  {
    if |p| > 1 {
      assert TaskGraph.Edge(GraphOf(tasks), p[0], p[1]) && p[1] in tasks[p[0]].dependencies;
      var tail := p[1..];
      forall i | 0 <= i < |tail| - 1 ensures TaskGraph.Edge(GraphOf(tasks), tail[i], tail[i + 1]) {
        assert TaskGraph.Edge(GraphOf(tasks), p[i + 1], p[i + 2]);
      }
      SuccessGoesDown(tasks, tail);
    }
  }

  lemma WaitingIsNotReady(tasks: map<Id, Task>, v: Id)
    requires StartedInOrder(tasks) && WaitsForHalted(tasks, v)
    ensures !Ready(tasks, v)
  {
    if Ready(tasks, v) {
      var p :| Blocks(tasks, v, p);
      assert TaskGraph.Edge(GraphOf(tasks), p[0], p[1]) && p[1] in tasks[v].dependencies;
      var tail := p[1..];
      forall i | 0 <= i < |tail| - 1 ensures TaskGraph.Edge(GraphOf(tasks), tail[i], tail[i + 1]) {
        assert TaskGraph.Edge(GraphOf(tasks), p[i + 1], p[i + 2]);
      }
      SuccessGoesDown(tasks, tail);
      assert false;
    }
  }

  /** A pending task that is not ready waits for something unfinished, which is
      halted or waits in turn; in an acyclic plan this ends at a halted task. */
  lemma {:induction false} UnreadyWaits(tasks: map<Id, Task>, order: seq<Id>, v: Id) returns (p: seq<Id>)
    requires TaskGraph.Topological(GraphOf(tasks), order)
    requires forall u :: u in tasks ==> !tasks[u].status.Running? && !Ready(tasks, u)
    requires v in tasks && v in order && tasks[v].status.Pending?
    ensures Blocks(tasks, v, p)
    decreases TaskGraph.Rank(order, v)
  {
    var g := GraphOf(tasks);
    assert !Ready(tasks, v);
    var d :| d in tasks[v].dependencies && !(d in tasks && tasks[d].status.Succeeded?);
    assert TaskGraph.Edge(g, v, d);
    TaskGraph.EdgeLowersRank(g, order, v, d);
    TaskGraph.ListsItsGraph(g, order, d);
    if Halted(tasks[d]) {
      p := [v, d];
    } else {
      var rest := UnreadyWaits(tasks, order, d);
      p := [v] + rest;
      forall i | 0 <= i < |p| - 1 ensures TaskGraph.Edge(g, p[i], p[i + 1]) {
        if i > 0 {
          assert TaskGraph.Edge(g, rest[i - 1], rest[i]);
        }
      }
    }
  }

  /** Exactly when nothing can start: everything that waits is stuck. */
  lemma NothingReadyExactly(tasks: map<Id, Task>, order: seq<Id>)
    requires TaskGraph.Topological(GraphOf(tasks), order) && StartedInOrder(tasks)
    requires forall v :: v in tasks ==> !tasks[v].status.Running?
    ensures (forall v :: !Ready(tasks, v)) <==> Stuck(tasks)
  {
    if Stuck(tasks) {
      forall v ensures !Ready(tasks, v) {
        if v in tasks && tasks[v].status.Pending? {
          WaitingIsNotReady(tasks, v);
        }
      }
    }
    if forall v :: !Ready(tasks, v) {
      forall v | v in tasks && tasks[v].status.Pending? ensures WaitsForHalted(tasks, v) {
        TaskGraph.ListsItsGraph(GraphOf(tasks), order, v);
        var p := UnreadyWaits(tasks, order, v);
      }
    }
  }

  // ---------------------------------------------------------------- planning again

  /** The rows after `save_tasks(plan)` on top of the rows of an earlier plan. */
  ghost predicate Overlaid(before: map<Id, Task>, plan: seq<Task>, after: map<Id, Task>) {
    && after.Keys == before.Keys + TaskGraph.Identifiers(plan)
    && (forall t :: t in plan ==> after[t.key.task] == t)
    && (forall v :: v in before && v !in TaskGraph.Identifiers(plan) ==> after[v] == before[v])
  }

  lemma OverlayStep(before: map<Id, Task>, done: seq<Task>, t: Task, after: map<Id, Task>)
    requires Overlaid(before, done, after) && t.key.task !in TaskGraph.Identifiers(done)
    ensures Overlaid(before, done + [t], after[t.key.task := t])
  {
    assert TaskGraph.Identifiers(done + [t]) == TaskGraph.Identifiers(done) + {t.key.task};
    forall u | u in done ensures u.key.task in TaskGraph.Identifiers(done) {
    }
  }

  method Overlay(before: map<Id, Task>, plan: seq<Task>) returns (after: map<Id, Task>)
    requires TaskGraph.UniqueIds(plan)
    ensures Overlaid(before, plan, after)
    ensures plan != [] ==> after != map[]
  {
    after := before;
    for i := 0 to |plan|
      invariant Overlaid(before, plan[..i], after)
      invariant i > 0 ==> after != map[]
    {
      OverlayStep(before, plan[..i], plan[i], after);
      after := after[plan[i].key.task := plan[i]];
      assert plan[..i + 1] == plan[..i] + [plan[i]];
    }
    assert plan[..|plan|] == plan;
  }

  lemma GraphIsUnique(plan: seq<Task>, g: TaskGraph.Graph, h: TaskGraph.Graph)
    requires TaskGraph.Describes(g, plan) && TaskGraph.Describes(h, plan)
    ensures g == h
  {
    forall v | v in g ensures g[v] == h[v] {
      var t :| t in plan && t.key.task == v;
    }
  }

  lemma OverlayIsTopological(before: map<Id, Task>, order: seq<Id>, plan: seq<Task>, g: TaskGraph.Graph,
                             order': seq<Id>, after: map<Id, Task>) returns (merged: seq<Id>)
    requires TaskGraph.Topological(GraphOf(before), order) && TaskGraph.Topological(g, order')
    requires TaskGraph.Describes(g, plan) && Overlaid(before, plan, after)
    ensures TaskGraph.Topological(GraphOf(after), merged)
  {
    forall v | v in g ensures v in after && after[v].dependencies == g[v] {
      var t :| t in plan && t.key.task == v;
    }
    merged := TaskGraph.OverlayTopological(GraphOf(before), order, g, order', GraphOf(after));
  }

  // ---------------------------------------------------------------- what survives a crash

  /** True of the rows after every single save, so also after a crash. */
  ghost predicate Sound(goal: GoalStatus, tasks: map<Id, Task>, attempts: seq<Attempt>, order: seq<Id>) {
    && TaskGraph.Topological(GraphOf(tasks), order)
    && (goal.Created? || goal.Planning? ==> attempts == [] && forall v :: v in tasks ==> tasks[v].status.Pending?)
    && (goal.Active? || goal.Paused? ==> tasks != map[])
    && (goal.GoalSucceeded? ==> AllSucceeded(tasks))
    && Numbered(attempts)
    && (forall v :: v in tasks ==> TaskSound(tasks, attempts, v))
    && (forall a :: a in attempts ==> a.task in tasks)
  }

  ghost predicate TaskSound(tasks: map<Id, Task>, attempts: seq<Attempt>, v: Id)
    requires v in tasks
  {
    var t := tasks[v];
    && t.key.task == v && t.maxAttempts >= 1
    && (!t.status.Pending? || Count(attempts, v) > 0 ==> DependenciesDone(tasks, v))
    && (t.status.Succeeded? ==> PassedOnce(attempts, v))
    && (t.status.Failed? ==> Count(attempts, v) >= t.maxAttempts)
  }

  /** True as long as no crash happened, between two calls of the engine. */
  ghost predicate Steady(goal: GoalStatus, tasks: map<Id, Task>) {
    && (goal.GoalSucceeded? <==> tasks != map[] && AllSucceeded(tasks))
    && (forall v :: v in tasks ==> !tasks[v].status.Running?)
    && (forall v :: v in tasks && tasks[v].status.Failed? ==> goal.GoalFailed?)
    && (forall v :: v in tasks && tasks[v].status.Blocked? ==> goal.GoalBlocked?)
  }

  /** Every crash may cost one attempt beyond the limit, and nothing else may. */
  ghost predicate Within(tasks: map<Id, Task>, attempts: seq<Attempt>, crashes: nat, v: Id)
    requires v in tasks
  {
    var limit := tasks[v].maxAttempts + crashes;
    && Count(attempts, v) <= limit
    && (tasks[v].status.Pending? || tasks[v].status.Running? ==> Count(attempts, v) < limit)
  }

  ghost predicate WithinAttempts(tasks: map<Id, Task>, attempts: seq<Attempt>, crashes: nat) {
    forall v :: v in tasks ==> Within(tasks, attempts, crashes, v)
  }

  ghost predicate Calm(tasks: map<Id, Task>, busy: Option<Id>) {
    forall v :: v in tasks && Some(v) != busy ==> tasks[v].status.Pending? || tasks[v].status.Succeeded?
  }

  /** Finished tasks stand: succeeded, failed and blocked rows never change. */
  ghost predicate Keeps(before: map<Id, Task>, after: map<Id, Task>) {
    forall v :: v in before && before[v].status.Terminal() ==> v in after && after[v] == before[v]
  }

  /** The rows a task's own save may write. */
  ghost predicate Allowed(tasks: map<Id, Task>, attempts: seq<Attempt>, t: Task) {
    var v := t.key.task;
    && v in tasks && tasks[v].SamePlan(t) && Waiting(tasks[v])
    && (!t.status.Pending? ==> DependenciesDone(tasks, v))
    && (t.status.Succeeded? ==> PassedOnce(attempts, v))
    && (t.status.Failed? ==> Count(attempts, v) >= t.maxAttempts)
  }

  /** Moving the goal along its table keeps the rows sound. */
  lemma GoalMoves(goal: GoalStatus, target: GoalStatus, tasks: map<Id, Task>, attempts: seq<Attempt>, order: seq<Id>)
    requires Sound(goal, tasks, attempts, order) && GoalTransitionAllowed(goal, target)
    requires target.Active? ==> tasks != map[]
    requires target.GoalSucceeded? ==> AllSucceeded(tasks)
    ensures Sound(target, tasks, attempts, order)
  {
  }

  /** Planning has started no task, so any outcome of it is steady. */
  lemma PlanningIsSteady(target: GoalStatus, tasks: map<Id, Task>, crashes: nat)
    requires forall v :: v in tasks ==> tasks[v].status.Pending? && TaskSound(tasks, [], v)
    requires !target.GoalSucceeded?
    ensures Steady(target, tasks) && WithinAttempts(tasks, [], crashes)
  {
    if tasks != map[] {
      var v :| v in tasks;
      assert tasks[v].status.Pending?;
    }
  }

  lemma StoppedIsSteady(tasks: map<Id, Task>, v: Id, target: GoalStatus)
    requires v in tasks && Calm(tasks, Some(v))
    requires
      || (tasks[v].status.Blocked? && target.GoalBlocked?)
      || (tasks[v].status.Failed? && target.GoalFailed?)
    ensures Steady(target, tasks)
  {
  }

  lemma SteadyIsCalm(goal: GoalStatus, tasks: map<Id, Task>)
    requires Steady(goal, tasks) && goal.Active?
    ensures Calm(tasks, None)
  {
  }

  /** Crashes only loosen the limit. */
  lemma LimitsGrow(tasks: map<Id, Task>, attempts: seq<Attempt>, crashes: nat, more: nat)
    requires WithinAttempts(tasks, attempts, crashes) && crashes <= more
    ensures WithinAttempts(tasks, attempts, more)
  {
    forall v | v in tasks ensures Within(tasks, attempts, more, v) {
      assert Within(tasks, attempts, crashes, v);
    }
  }

  /** The limit of every task holds again once `t` has left the busy state. */
  lemma SaveKeepsLimits(tasks: map<Id, Task>, attempts: seq<Attempt>, crashes: nat, t: Task)
    requires t.key.task in tasks && t.maxAttempts == tasks[t.key.task].maxAttempts
    requires forall u :: u in tasks && u != t.key.task ==> Within(tasks, attempts, crashes, u)
    requires Count(attempts, t.key.task) <= t.maxAttempts + crashes
    requires t.status.Pending? || t.status.Running? ==> Count(attempts, t.key.task) < t.maxAttempts + crashes
    ensures WithinAttempts(tasks[t.key.task := t], attempts, crashes)
  {
    var after := tasks[t.key.task := t];
    forall u | u in after ensures Within(after, attempts, crashes, u) {
      if u != t.key.task {
        assert Within(tasks, attempts, crashes, u);
      }
    }
  }

  // ---------------------------------------------------------------- who passes its attempt limit

  /** It is to be attempted although its attempts are used up. */
  predicate Overdue(tasks: map<Id, Task>, attempts: seq<Attempt>, v: Id) {
    v in tasks && Waiting(tasks[v]) && Count(attempts, v) >= tasks[v].maxAttempts
  }

  /** Without a crash no task is overdue. */
  lemma OverdueNeedsCrash(tasks: map<Id, Task>, attempts: seq<Attempt>, v: Id)
    requires WithinAttempts(tasks, attempts, 0)
    ensures !Overdue(tasks, attempts, v)
  {
    if v in tasks {
      assert Within(tasks, attempts, 0, v);
    }
  }

  /** What happens to the attempts at `u` in one run of the engine. They pass the
      limit exactly when the task was overdue to begin with, and then by one; it is
      overdue afterwards if it was and was not attempted, and otherwise only
      because the run died between recording an attempt and saving its task. */
  predicate Paced(tasks: map<Id, Task>, attempts: seq<Attempt>, tasks': map<Id, Task>, attempts': seq<Attempt>,
                  died: bool, u: Id) {
    var before, after := Count(attempts, u), Count(attempts', u);
    && before <= after
    && (before > 0 && u in tasks ==> u in tasks' && tasks'[u].maxAttempts == tasks[u].maxAttempts)
    && (after == before ==> (Overdue(tasks', attempts', u) <==> Overdue(tasks, attempts, u)))
    && (after > before ==>
          && u in tasks'
          && (after > tasks'[u].maxAttempts <==> Overdue(tasks, attempts, u))
          && (Overdue(tasks, attempts, u) ==> after == before + 1)
          && (Overdue(tasks', attempts', u) ==> died && tasks'[u].status.Running?))
  }

  ghost predicate AllPaced(tasks: map<Id, Task>, attempts: seq<Attempt>, tasks': map<Id, Task>,
                           attempts': seq<Attempt>, died: bool) {
    forall u :: Paced(tasks, attempts, tasks', attempts', died, u)
  }

  /** One pass of the loop at `v`: nobody else is touched; `v` still waits with its
      count as it was, or one more attempt is recorded and then it is not overdue,
      unless the process died before it saved the task. */
  ghost predicate OneMore(tasks: map<Id, Task>, attempts: seq<Attempt>, tasks': map<Id, Task>,
                          attempts': seq<Attempt>, died: bool, v: Id) {
    && v in tasks && v in tasks' && tasks'[v].maxAttempts == tasks[v].maxAttempts
    && tasks' == tasks[v := tasks'[v]]
    && (forall u :: u != v ==> Count(attempts', u) == Count(attempts, u))
    && (Count(attempts', v) == Count(attempts, v) || Count(attempts', v) == Count(attempts, v) + 1)
    && (Count(attempts', v) == Count(attempts, v) ==> Waiting(tasks'[v]))
    && (Count(attempts', v) > Count(attempts, v) && Overdue(tasks', attempts', v) ==> died && tasks'[v].status.Running?)
  }

  /** A pass of the loop continues a paced run. */
  lemma PassKeepsPace(tasks: map<Id, Task>, attempts: seq<Attempt>, now: map<Id, Task>, recorded: seq<Attempt>,
                      now': map<Id, Task>, recorded': seq<Attempt>, died: bool, v: Id)
    requires AllPaced(tasks, attempts, now, recorded, false)
    requires OneMore(now, recorded, now', recorded', died, v) && Waiting(now[v])
    ensures AllPaced(tasks, attempts, now', recorded', died)
  {
    forall u ensures Paced(tasks, attempts, now', recorded', died, u) {
      assert Paced(tasks, attempts, now, recorded, false, u);
    }
  }

  ghost predicate Passed(tasks: map<Id, Task>, attempts: seq<Attempt>, tasks': map<Id, Task>,
                         attempts': seq<Attempt>, died: bool) {
    || (tasks' == tasks && attempts' == attempts)
    || exists v :: OneMore(tasks, attempts, tasks', attempts', died, v) && Waiting(tasks[v])
  }

  lemma TurnKeepsPace(tasks: map<Id, Task>, attempts: seq<Attempt>, now: map<Id, Task>, recorded: seq<Attempt>,
                      now': map<Id, Task>, recorded': seq<Attempt>, died: bool)
    requires AllPaced(tasks, attempts, now, recorded, false) && Passed(now, recorded, now', recorded', died)
    ensures AllPaced(tasks, attempts, now', recorded', died)
  {
    if now' == now && recorded' == recorded {
      forall u ensures Paced(tasks, attempts, now', recorded', died, u) {
        assert Paced(tasks, attempts, now, recorded, false, u);
      }
    } else {
      var v :| OneMore(now, recorded, now', recorded', died, v) && Waiting(now[v]);
      PassKeepsPace(tasks, attempts, now, recorded, now', recorded', died, v);
    }
  }

  /** A pass that records nothing leaves its task waiting. */
  lemma IdlePass(tasks: map<Id, Task>, attempts: seq<Attempt>, v: Id, t: Task, died: bool)
    requires v in tasks && t.maxAttempts == tasks[v].maxAttempts && Waiting(t)
    ensures OneMore(tasks, attempts, tasks[v := t], attempts, died, v)
  {
  }

  lemma CountAppended(attempts: seq<Attempt>, a: Attempt)
    ensures forall u :: Count(attempts + [a], u) == Count(attempts, u) + if u == a.task then 1 else 0
  {
    assert (attempts + [a])[..|attempts|] == attempts;
  }

  /** A pass that records an attempt, and saves the status that follows from it
      unless it dies first. */
  predicate Attempts(tasks: map<Id, Task>, attempts: seq<Attempt>, v: Id, reply: Reply, minScore: real,
                     tasks': map<Id, Task>, attempts': seq<Attempt>, died: bool)
    requires v in tasks
  {
    var no := Count(attempts, v) + 1;
    && attempts' == attempts + [Attempt(v, no, Passes(reply, minScore))]
    && (tasks' == tasks[v := SettledTask(tasks[v], reply, no, minScore)] || (died && tasks' == tasks))
  }

  lemma RecordingPass(tasks: map<Id, Task>, attempts: seq<Attempt>, v: Id, reply: Reply, minScore: real,
                      tasks': map<Id, Task>, attempts': seq<Attempt>, died: bool)
    requires v in tasks && tasks[v].status.Running? && !reply.NeedsApproval?
    requires Attempts(tasks, attempts, v, reply, minScore, tasks', attempts', died)
    ensures OneMore(tasks, attempts, tasks', attempts', died, v)
  {
    CountAppended(attempts, attempts'[|attempts|]);
    assert tasks == tasks[v := tasks[v]];
  }

  /** Marking the task running first makes no difference. */
  lemma LaunchedPass(tasks: map<Id, Task>, attempts: seq<Attempt>, tasks': map<Id, Task>, attempts': seq<Attempt>,
                     died: bool, v: Id, agent: Id)
    requires v in tasks && OneMore(Launched(tasks, v, agent), attempts, tasks', attempts', died, v)
    ensures OneMore(tasks, attempts, tasks', attempts', died, v)
  {
    assert tasks' == tasks[v := tasks'[v]];
  }

  /** A run that records nothing is paced when it only requeues or plans anew. */
  predicate Requeued(tasks: map<Id, Task>, tasks': map<Id, Task>) {
    && tasks'.Keys == tasks.Keys
    && forall v :: v in tasks ==>
         tasks'[v] == tasks[v] || (tasks[v].status.Running? && tasks'[v] == tasks[v].(status := Pending))
  }

  lemma RequeueOne(tasks: map<Id, Task>, now: map<Id, Task>, v: Id)
    requires Requeued(tasks, now) && v in now && now[v].status.Running?
    ensures Requeued(tasks, now[v := now[v].(status := Pending)])
  {
  }

  lemma RequeuedIsPaced(tasks: map<Id, Task>, tasks': map<Id, Task>, attempts: seq<Attempt>, died: bool)
    requires Requeued(tasks, tasks')
    ensures AllPaced(tasks, attempts, tasks', attempts, died)
  {
  }

  /** Recovery and planning in front of a paced run. */
  lemma PacedFromStart(tasks: map<Id, Task>, attempts: seq<Attempt>, now: map<Id, Task>, tasks': map<Id, Task>,
                       attempts': seq<Attempt>, died: bool)
    requires AllPaced(tasks, attempts, now, attempts, false) && AllPaced(now, attempts, tasks', attempts', died)
    ensures AllPaced(tasks, attempts, tasks', attempts', died)
  {
    forall u ensures Paced(tasks, attempts, tasks', attempts', died, u) {
      assert Paced(tasks, attempts, now, attempts, false, u);
      assert Paced(now, attempts, tasks', attempts', died, u);
    }
  }

  lemma PacedWhetherItDied(tasks: map<Id, Task>, attempts: seq<Attempt>, tasks': map<Id, Task>,
                           attempts': seq<Attempt>, died: bool)
    requires AllPaced(tasks, attempts, tasks', attempts', false)
    ensures AllPaced(tasks, attempts, tasks', attempts', died)
  {
    forall u ensures Paced(tasks, attempts, tasks', attempts', died, u) {
      assert Paced(tasks, attempts, tasks', attempts', false, u);
    }
  }

  /** Before anything was attempted nothing is overdue, whatever is planned. */
  lemma PlanningIsPaced(tasks: map<Id, Task>, tasks': map<Id, Task>, died: bool)
    requires Limited(tasks) && Limited(tasks')
    ensures AllPaced(tasks, [], tasks', [], died)
  {
  }

  predicate Limited(tasks: map<Id, Task>) {
    forall v :: v in tasks ==> tasks[v].maxAttempts >= 1
  }

  lemma SoundIsOpen(goal: GoalStatus, tasks: map<Id, Task>, attempts: seq<Attempt>, order: seq<Id>)
    requires Sound(goal, tasks, attempts, order)
    ensures Limited(tasks)
  {
    forall v | v in tasks ensures tasks[v].maxAttempts >= 1 {
      assert TaskSound(tasks, attempts, v);
    }
  }

  function Interruptible(tasks: map<Id, Task>): set<Id> {
    set v | v in tasks && tasks[v].status.Running?
  }

  lemma SaveKeepsSound(goal: GoalStatus, tasks: map<Id, Task>, attempts: seq<Attempt>, order: seq<Id>, t: Task)
    requires Sound(goal, tasks, attempts, order) && Allowed(tasks, attempts, t) && goal.Active?
    ensures Sound(goal, tasks[t.key.task := t], attempts, order) && Keeps(tasks, tasks[t.key.task := t])
  {
    var after := tasks[t.key.task := t];
    assert GraphOf(after) == GraphOf(tasks);
    forall v | v in after ensures TaskSound(after, attempts, v) {
      assert TaskSound(tasks, attempts, v);
    }
  }

  lemma AttemptKeepsSound(goal: GoalStatus, tasks: map<Id, Task>, attempts: seq<Attempt>, order: seq<Id>, a: Attempt)
    requires Sound(goal, tasks, attempts, order) && goal.Active?
    requires a.task in tasks && DependenciesDone(tasks, a.task) && a.no == Count(attempts, a.task) + 1
    ensures Sound(goal, tasks, attempts + [a], order)
  {
    Appended(attempts, a);
    forall v | v in tasks ensures TaskSound(tasks, attempts + [a], v) {
      assert TaskSound(tasks, attempts, v);
    }
  }

  lemma PlanKeepsSound(goal: GoalStatus, tasks: map<Id, Task>, order: seq<Id>, plan: seq<Task>, g: TaskGraph.Graph,
                       order': seq<Id>, after: map<Id, Task>) returns (merged: seq<Id>)
    requires goal.Planning? && Sound(goal, tasks, [], order)
    requires TaskGraph.Describes(g, plan) && TaskGraph.Topological(g, order') && Overlaid(tasks, plan, after)
    requires forall t :: t in plan ==> t.status.Pending? && t.maxAttempts >= 1
    ensures Sound(goal, after, [], merged)
  {
    merged := OverlayIsTopological(tasks, order, plan, g, order', after);
    forall v | v in after ensures after[v].status.Pending? && TaskSound(after, [], v) {
      if v in TaskGraph.Identifiers(plan) {
        var t :| t in plan && t.key.task == v;
      } else {
        assert TaskSound(tasks, [], v);
      }
    }
  }

  predicate SomethingHalted(tasks: map<Id, Task>) {
    exists v :: v in tasks && Halted(tasks[v])
  }

  /** Tasks as `Task.create` makes them. */
  predicate Planned(proposal: Option<seq<Task>>) {
    proposal.Some? ==> forall t :: t in proposal.value ==> t.status.Pending? && t.maxAttempts >= 1
  }

  predicate Passes(reply: Reply, minScore: real) {
    reply.Reviewed? && reply.verdict.Pass? && reply.score >= minScore
  }

  /** The row of a task after attempt `no` ended with `reply`. */
  function SettledTask(t: Task, reply: Reply, no: nat, minScore: real): Task {
    if reply.NeedsApproval? then t.(status := Pending)
    else if reply.WorkerStopped? then t.(status := Blocked)
    else if Passes(reply, minScore) then t.(status := Succeeded, artifact := Some(reply.artifact))
    else if no >= t.maxAttempts then t.(status := Failed)
    else t.(status := Pending)
  }

  /** What that ending means for the loop: go on, or return. */
  function EndOf(settled: Task, reply: Reply): Option<Outcome> {
    if reply.NeedsApproval? then Some(ApprovalNeeded)
    else if settled.status.Blocked? then Some(StoppedByWorker)
    else if settled.status.Failed? then Some(AttemptsExhausted)
    else None
  }

  /** The review accepted the artifact, with a high enough score. */
  predicate Convinces(reply: Reply, minScore: real) {
    reply.Reviewed? && reply.verdict == Pass && minScore <= reply.score
  }

  /** What attempt `no` at a task earns it, case by case: blocked exactly when the
      worker stopped, succeeded exactly when it convinced, failed exactly when it did
      neither and was the last one; waiting again otherwise, or for an approval. */
  predicate Deserves(t: Task, t': Task, reply: Reply, no: nat, minScore: real) {
    var fruitless := !reply.NeedsApproval? && !reply.WorkerStopped? && !Convinces(reply, minScore);
    && (t'.status == Blocked <==> reply.WorkerStopped?)
    && (t'.status == Succeeded <==> Convinces(reply, minScore))
    && (t'.status == Failed <==> fruitless && t.maxAttempts <= no)
    && (t'.status == Pending <==> reply.NeedsApproval? || (fruitless && no < t.maxAttempts))
    && t' == t.(status := t'.status, assignedAgent := t'.assignedAgent, artifact := t'.artifact)
    && t'.artifact == (if t'.status == Succeeded then Some(reply.artifact) else t.artifact)
  }

  /** How the loop goes on after it: it asks for the approval, or returns with a task
      that was blocked or has failed, or turns to the next task. */
  predicate GoesOn(t': Task, reply: Reply, stop: Option<Outcome>) {
    && (stop == Some(ApprovalNeeded) <==> reply.NeedsApproval?)
    && (stop == Some(StoppedByWorker) <==> t'.status == Blocked)
    && (stop == Some(AttemptsExhausted) <==> t'.status == Failed)
    && (stop == None <==> t'.status == Succeeded || (t'.status == Pending && !reply.NeedsApproval?))
  }

  /** The rows after an attempt at `v` that ran to its end: one record, unless
      approval was needed, and the status that follows from the reply. */
  predicate Concluded(tasks: map<Id, Task>, attempts: seq<Attempt>, v: Id, reply: Reply, minScore: real,
                      tasks': map<Id, Task>, attempts': seq<Attempt>)
    requires v in tasks
  {
    var no := Count(attempts, v) + 1;
    && tasks' == tasks[v := SettledTask(tasks[v], reply, no, minScore)]
    && attempts' == (if reply.NeedsApproval? then attempts else attempts + [Attempt(v, no, Passes(reply, minScore))])
  }

  /** One finished pass of the loop at `v`: its row says what the reply earned and who
      was chosen, one attempt is recorded under the next number unless an approval is
      needed, no other row has changed, and the loop goes on accordingly. */
  predicate Determined(tasks: map<Id, Task>, attempts: seq<Attempt>, v: Id, agent: Id, reply: Reply, minScore: real,
                       tasks': map<Id, Task>, attempts': seq<Attempt>, stop: Option<Outcome>)
    requires v in tasks
  {
    var no := Count(attempts, v) + 1;
    && v in tasks' && tasks' == tasks[v := tasks'[v]] && tasks'[v].assignedAgent == Some(agent)
    && Deserves(tasks[v], tasks'[v], reply, no, minScore) && GoesOn(tasks'[v], reply, stop)
    && attempts' == (if reply.NeedsApproval? then attempts
                     else attempts + [Attempt(v, no, Convinces(reply, minScore))])
  }

  lemma ConcludedIsDetermined(tasks: map<Id, Task>, attempts: seq<Attempt>, v: Id, agent: Id, reply: Reply,
                              minScore: real, tasks': map<Id, Task>, attempts': seq<Attempt>, stop: Option<Outcome>)
    requires v in tasks && Concluded(Launched(tasks, v, agent), attempts, v, reply, minScore, tasks', attempts')
    requires stop == EndOf(tasks'[v], reply)
    ensures Determined(tasks, attempts, v, agent, reply, minScore, tasks', attempts', stop)
  {
    assert tasks' == tasks[v := tasks'[v]];
  }

  function Launched(tasks: map<Id, Task>, v: Id, agent: Id): map<Id, Task>
    requires v in tasks
  {
    tasks[v := tasks[v].(status := Running, assignedAgent := Some(agent))]
  }

  lemma RequeueIsRecovered(tasks: map<Id, Task>, v: Id)
    requires v in tasks && tasks[v].status.Running?
    ensures Recovered(tasks[v := tasks[v].(status := Pending)]) == Recovered(tasks)
  {
  }

  lemma RequeueShrinks(tasks: map<Id, Task>, v: Id)
    requires v in Interruptible(tasks)
    ensures Interruptible(tasks[v := tasks[v].(status := Pending)]) == Interruptible(tasks) - {v}
  {
  }

  lemma NothingToRecover(tasks: map<Id, Task>)
    requires Interruptible(tasks) == {}
    ensures Recovered(tasks) == tasks
  {
    assert forall v :: v in tasks && tasks[v].status.Running? ==> v in Interruptible(tasks);
  }

  /** Interrupted tasks wait again; everything else is as it was. */
  function Recovered(tasks: map<Id, Task>): map<Id, Task> {
    map v | v in tasks :: if tasks[v].status.Running? then tasks[v].(status := Pending) else tasks[v]
  }

  function Tick(b: bool): nat {
    if b then 1 else 0
  }

  function Larger(a: nat, b: nat): nat {
    if a < b then b else a
  }

  // ---------------------------------------------------------------- the engine

  class LoopEngine {
    const goalId: Id
    var goal: GoalStatus
    var tasks: map<Id, Task>
    var attempts: seq<Attempt>
    var approvals: seq<ApprovalStatus>
    ghost var order: seq<Id>
    ghost var crashes: nat

    ghost predicate Valid()
      reads this
    {
      && Sound(goal, tasks, attempts, order) && WithinAttempts(tasks, attempts, crashes)
      && (crashes == 0 ==> Steady(goal, tasks))
    }

    /** `create_goal`. */
    constructor (id: Id)
      ensures Valid() && goalId == id && goal.Created? && crashes == 0 && attempts == [] && tasks == map[]
    {
      goalId := id;
      goal, tasks, attempts, approvals := Created, map[], [], [];
      order, crashes := [], 0;
    }

    /** A crash may follow any save; what was saved stays. */
    method Interrupted() returns (yes: bool)
      modifies this`crashes
      ensures crashes == old(crashes) + Tick(yes)
    {
      yes := *;
      crashes := crashes + Tick(yes);
    }

    method SaveTask(t: Task)
      requires Sound(goal, tasks, attempts, order) && goal.Active? && Allowed(tasks, attempts, t)
      modifies this`tasks
      ensures tasks == old(tasks)[t.key.task := t]
      ensures Sound(goal, tasks, attempts, order) && Keeps(old(tasks), tasks)
    {
      SaveKeepsSound(goal, tasks, attempts, order, t);
      tasks := tasks[t.key.task := t];
    }

    /** `save_tasks` for a whole plan, in one transaction. */
    method SavePlan(plan: seq<Task>, ghost g: TaskGraph.Graph, ghost planned: seq<Id>)
      requires Valid() && goal.Planning?
      requires TaskGraph.UniqueIds(plan) && TaskGraph.Describes(g, plan) && TaskGraph.Topological(g, planned)
      requires forall t :: t in plan ==> t.status.Pending? && t.maxAttempts >= 1
      modifies this`tasks, this`order
      ensures Overlaid(old(tasks), plan, tasks) && Valid()
      ensures plan != [] ==> tasks != map[]
    {
      var after := Overlay(tasks, plan);
      order := PlanKeepsSound(goal, tasks, order, plan, g, planned, after);
      PlanningIsSteady(goal, after, crashes);
      tasks := after;
    }

    ghost predicate Plannable(proposal: Option<seq<Task>>) {
      && proposal.Some? && proposal.value != []
      && (forall t :: t in proposal.value ==> t.key.goal == goalId)
      && TaskGraph.UniqueIds(proposal.value) && TaskGraph.KnownDependencies(proposal.value)
      && forall g :: TaskGraph.Describes(g, proposal.value) ==> TaskGraph.Acyclic(g)
    }

    /** The checks of `_plan` on whatever the planner returned. */
    method Admit(proposal: Option<seq<Task>>) returns (ok: bool, ghost g: TaskGraph.Graph, ghost planned: seq<Id>)
      ensures ok <==> Plannable(proposal)
      ensures ok ==> TaskGraph.Describes(g, proposal.value) && TaskGraph.Topological(g, planned)
    {
      ok, g, planned := false, map[], [];
      if proposal.Some? && proposal.value != [] && forall t :: t in proposal.value ==> t.key.goal == goalId {
        var verdict, graph, ranked := TaskGraph.ValidateTaskGraph(proposal.value);
        ok, g, planned := verdict.Accepted?, graph, ranked;
        if TaskGraph.UniqueIds(proposal.value) {
          forall h | TaskGraph.Describes(h, proposal.value) ensures h == graph {
            GraphIsUnique(proposal.value, graph, h);
          }
        }
        if ok {
          TaskGraph.TopologicalIsAcyclic(graph, ranked);
        }
      }
    }

    /** `_plan`: whatever the planner proposes, a plan is stored exactly when it
        is non-empty, belongs to the goal, and its graph is accepted. */
    method Plan(proposal: Option<seq<Task>>) returns (outcome: Option<Outcome>)
      requires Valid() && (goal.Created? || goal.Planning?)
      requires Planned(proposal)
      modifies this
      ensures Valid() && attempts == old(attempts) == [] && Keeps(old(tasks), tasks)
      ensures outcome.None? ==> goal.Active? && crashes == old(crashes) && Plannable(proposal)
      ensures outcome.None? ==> Overlaid(old(tasks), proposal.value, tasks)
      ensures outcome.Some? ==> outcome.value in {PlanRefused, Crashed}
      ensures outcome == Some(PlanRefused) ==>
        goal.GoalFailed? && tasks == old(tasks) && crashes == old(crashes) && !Plannable(proposal)
      ensures outcome == Some(Crashed) ==> crashes == old(crashes) + 1
    {
      var stop := BeginPlanning();
      if stop {
        return Some(Crashed);
      }
      ghost var g: TaskGraph.Graph, planned: seq<Id>;
      var accepted;
      accepted, g, planned := Admit(proposal);
      if !accepted {
        PlanningIsSteady(GoalFailed, tasks, crashes);
        GoalMoves(goal, GoalFailed, tasks, attempts, order);
        goal := TransitionGoal(goal, GoalFailed).value;
        return Some(PlanRefused);
      }
      stop := StorePlan(proposal.value, g, planned);
      outcome := if stop then Some(Crashed) else None;
    }

    method BeginPlanning() returns (stop: bool)
      requires Valid() && (goal.Created? || goal.Planning?)
      modifies this`goal, this`crashes
      ensures Valid() && goal.Planning? && crashes == old(crashes) + Tick(stop)
    {
      stop := false;
      if goal.Created? {
        PlanningIsSteady(Planning, tasks, crashes);
        GoalMoves(goal, Planning, tasks, attempts, order);
        goal := TransitionGoal(goal, Planning).value;
        stop := Interrupted();
      }
    }

    method StorePlan(plan: seq<Task>, ghost g: TaskGraph.Graph, ghost planned: seq<Id>) returns (stop: bool)
      requires Valid() && goal.Planning? && plan != []
      requires TaskGraph.UniqueIds(plan) && TaskGraph.Describes(g, plan) && TaskGraph.Topological(g, planned)
      requires forall t :: t in plan ==> t.status.Pending? && t.maxAttempts >= 1
      modifies this`tasks, this`order, this`goal, this`crashes
      ensures Valid() && Overlaid(old(tasks), plan, tasks) && crashes == old(crashes) + Tick(stop)
      ensures goal == if stop then Planning else Active
    {
      SavePlan(plan, g, planned);
      stop := Interrupted();
      if !stop {
        Activate();
      }
    }

    method Activate()
      requires Valid() && goal.Planning? && tasks != map[]
      modifies this`goal
      ensures Valid() && goal.Active?
    {
      PlanningIsSteady(Active, tasks, crashes);
      GoalMoves(goal, Active, tasks, attempts, order);
      goal := TransitionGoal(goal, Active).value;
    }

    /** An interrupted task waits again. */
    method SavePending(v: Id)
      requires Sound(goal, tasks, attempts, order) && goal.Active? && v in Interruptible(tasks)
      requires WithinAttempts(tasks, attempts, crashes)
      modifies this`tasks
      ensures Sound(goal, tasks, attempts, order) && Keeps(old(tasks), tasks)
      ensures tasks == old(tasks)[v := old(tasks)[v].(status := Pending)]
      ensures WithinAttempts(tasks, attempts, crashes)
    {
      assert TaskSound(tasks, attempts, v) && Within(tasks, attempts, crashes, v);
      var requeued := tasks[v].(status := Pending);
      SaveKeepsLimits(tasks, attempts, crashes, requeued);
      SaveTask(requeued);
    }

    method Requeue(v: Id) returns (stopped: bool)
      requires Sound(goal, tasks, attempts, order) && goal.Active? && v in Interruptible(tasks)
      requires WithinAttempts(tasks, attempts, crashes)
      modifies this`tasks, this`crashes
      ensures Sound(goal, tasks, attempts, order) && Keeps(old(tasks), tasks)
      ensures tasks == old(tasks)[v := old(tasks)[v].(status := Pending)]
      ensures WithinAttempts(tasks, attempts, crashes)
      ensures Interruptible(tasks) == Interruptible(old(tasks)) - {v}
      ensures crashes == old(crashes) + Tick(stopped)
    {
      RequeueShrinks(tasks, v);
      SavePending(v);
      stopped := Interrupted();
      LimitsGrow(tasks, attempts, old(crashes), crashes);
    }

    /** `_recover_interrupted_tasks`. */
    method RecoverInterruptedTasks() returns (stopped: bool)
      requires Sound(goal, tasks, attempts, order) && WithinAttempts(tasks, attempts, crashes) && goal.Active?
      modifies this`tasks, this`crashes
      ensures Sound(goal, tasks, attempts, order) && WithinAttempts(tasks, attempts, crashes)
      ensures Keeps(old(tasks), tasks)
      ensures crashes == old(crashes) + Tick(stopped)
      ensures !stopped ==> tasks == Recovered(old(tasks)) && Interruptible(tasks) == {}
      ensures Interruptible(old(tasks)) == {} ==> tasks == old(tasks) && !stopped
      ensures Requeued(old(tasks), tasks)
    {
      var pending := Interruptible(tasks);
      stopped := false;
      while pending != {}
        invariant Sound(goal, tasks, attempts, order) && WithinAttempts(tasks, attempts, crashes)
        invariant Keeps(old(tasks), tasks)
        invariant crashes == old(crashes) && !stopped
        invariant pending == Interruptible(tasks)
        invariant tasks == old(tasks) || Interruptible(old(tasks)) != {}
        invariant Recovered(tasks) == Recovered(old(tasks)) && Requeued(old(tasks), tasks)
        decreases |pending|
      {
        var v :| v in pending;
        RequeueIsRecovered(tasks, v);
        RequeueOne(old(tasks), tasks, v);
        stopped := Requeue(v);
        if stopped {
          return;
        }
        pending := pending - {v};
      }
      NothingToRecover(tasks);
    }

    /** The first ready task by (position, task_id). */
    method FirstReady() returns (first: Option<Id>)
      ensures first.None? ==> forall v :: !Ready(tasks, v)
      ensures first.Some? ==> Ready(tasks, first.value)
      ensures first.Some? ==> forall v :: Ready(tasks, v) ==> Before(tasks, first.value, v)
    {
      first := None;
      var unseen := tasks.Keys;
      while unseen != {}
        invariant unseen <= tasks.Keys
        invariant first.None? ==> forall v :: v in tasks && v !in unseen ==> !Ready(tasks, v)
        invariant first.Some? ==> Ready(tasks, first.value)
        invariant first.Some? ==> forall v :: v !in unseen && Ready(tasks, v) ==> Before(tasks, first.value, v)
        decreases |unseen|
      {
        var v :| v in unseen;
        if Ready(tasks, v) && (first.None? || !Before(tasks, first.value, v)) {
          first := Some(v);
        }
        unseen := unseen - {v};
      }
    }

    /** What holds between two iterations of the attempt loop. */
    ghost predicate Looping()
      reads this
    {
      && goal.Active? && Sound(goal, tasks, attempts, order) && WithinAttempts(tasks, attempts, crashes)
      && (forall v :: v in tasks ==> !tasks[v].status.Running?)
      && (crashes == 0 ==> Calm(tasks, None))
    }

    /** Only `v` is being worked on, and `spent` of its attempts are recorded. */
    ghost predicate Working(v: Id, spent: nat)
      reads this
    {
      && goal.Active? && Sound(goal, tasks, attempts, order)
      && v in tasks && tasks[v].status.Running? && DependenciesDone(tasks, v) && Count(attempts, v) == spent
      && (forall u :: u in tasks && u != v ==> !tasks[u].status.Running? && Within(tasks, attempts, crashes, u))
      && (crashes == 0 ==> Calm(tasks, Some(v)))
    }

    method Start(v: Id, agent: Id) returns (crash: bool)
      requires Looping() && Ready(tasks, v)
      modifies this`tasks, this`crashes
      ensures Working(v, Count(attempts, v)) && Keeps(old(tasks), tasks)
      ensures tasks == Launched(old(tasks), v, agent)
      ensures crashes == old(crashes) + Tick(crash)
      ensures Count(attempts, v) < tasks[v].maxAttempts + crashes
    {
      SaveTask(tasks[v].(status := Running, assignedAgent := Some(agent)));
      crash := Interrupted();
    }

    method Record(v: Id, passed: bool) returns (crash: bool)
      requires Working(v, Count(attempts, v))
      modifies this`attempts, this`crashes
      ensures Working(v, old(Count(attempts, v)) + 1)
      ensures attempts == old(attempts) + [Attempt(v, old(Count(attempts, v)) + 1, passed)]
      ensures passed ==> PassedOnce(attempts, v)
      ensures crashes == old(crashes) + Tick(crash)
    {
      var attempt := Attempt(v, Count(attempts, v) + 1, passed);
      AttemptKeepsSound(goal, tasks, attempts, order, attempt);
      Appended(attempts, attempt);
      attempts := attempts + [attempt];
      crash := Interrupted();
    }

    /** Back to waiting, or done. */
    method Release(v: Id, status: TaskStatus, artifact: Option<Id>) returns (crash: bool)
      requires Working(v, Count(attempts, v)) && (status.Pending? || status.Succeeded?)
      requires status.Succeeded? ==> PassedOnce(attempts, v)
      requires Count(attempts, v) <= tasks[v].maxAttempts + crashes
      requires status.Pending? ==> Count(attempts, v) < tasks[v].maxAttempts + crashes
      modifies this`tasks, this`crashes
      ensures Looping() && Keeps(old(tasks), tasks)
      ensures tasks == old(tasks)[v := old(tasks)[v].(status := status, artifact := artifact)]
      ensures crashes == old(crashes) + Tick(crash)
    {
      var released := tasks[v].(status := status, artifact := artifact);
      assert TaskSound(tasks, attempts, v);
      SaveKeepsLimits(tasks, attempts, crashes, released);
      SaveTask(released);
      crash := Interrupted();
      LimitsGrow(tasks, attempts, old(crashes), crashes);
    }

    /** The task stops for good, and then the goal does. */
    method Stop(v: Id, status: TaskStatus, target: GoalStatus) returns (crash: bool)
      requires Working(v, Count(attempts, v))
      requires (status.Blocked? && target.GoalBlocked?) || (status.Failed? && target.GoalFailed?)
      requires status.Failed? ==> Count(attempts, v) >= tasks[v].maxAttempts
      requires Count(attempts, v) <= tasks[v].maxAttempts + crashes
      modifies this`tasks, this`crashes, this`goal
      ensures Valid() && Keeps(old(tasks), tasks)
      ensures tasks == old(tasks)[v := old(tasks)[v].(status := status)]
      ensures crashes == old(crashes) + Tick(crash)
      ensures !crash ==> goal == target
    {
      var stopped := tasks[v].(status := status);
      assert TaskSound(tasks, attempts, v);
      SaveKeepsLimits(tasks, attempts, crashes, stopped);
      SaveTask(stopped);
      ghost var saved := tasks;
      crash := Interrupted();
      LimitsGrow(saved, attempts, old(crashes), crashes);
      if !crash {
        GoalMoves(goal, target, saved, attempts, order);
        if crashes == 0 {
          StoppedIsSteady(saved, v, target);
        }
        goal := TransitionGoal(goal, target).value;
      }
    }

    /** The goal leaves the loop while `v` is unfinished. */
    method Leave(v: Id, target: GoalStatus)
      requires Looping() && v in tasks && !tasks[v].status.Succeeded?
      requires target.Paused? || target.GoalBlocked?
      modifies this`goal
      ensures Valid() && goal == target
    {
      goal := TransitionGoal(goal, target).value;
    }

    method Suspend(v: Id) returns (stop: Outcome)
      requires Working(v, Count(attempts, v)) && Count(attempts, v) < tasks[v].maxAttempts + crashes
      modifies this
      ensures Valid() && Keeps(old(tasks), tasks) && attempts == old(attempts)
      ensures tasks == old(tasks)[v := old(tasks)[v].(status := Pending)]
      ensures approvals == old(approvals) + [Requested]
      ensures crashes == old(crashes) + Tick(stop.Crashed?)
      ensures stop in {ApprovalNeeded, Crashed} && Reports(stop, goal)
    {
      approvals := approvals + [Requested];
      var crash := Release(v, Pending, tasks[v].artifact);
      if crash {
        return Crashed;
      }
      Leave(v, Paused);
      stop := ApprovalNeeded;
    }

    /** After the attempt is recorded: the task's new status, and perhaps the goal's. */
    method Settle(v: Id, reply: Reply, minScore: real) returns (stop: Option<Outcome>)
      requires Working(v, Count(attempts, v)) && Count(attempts, v) <= tasks[v].maxAttempts + crashes
      requires !reply.NeedsApproval? && (Passes(reply, minScore) ==> PassedOnce(attempts, v))
      modifies this
      ensures Keeps(old(tasks), tasks) && attempts == old(attempts) && approvals == old(approvals)
      ensures tasks == old(tasks)[v := SettledTask(old(tasks)[v], reply, Count(attempts, v), minScore)]
      ensures stop == EndOf(tasks[v], reply) || stop == Some(Crashed)
      ensures stop.None? ==> Looping() && crashes == old(crashes)
      ensures stop.Some? ==> Valid() && crashes == old(crashes) + Tick(stop.value.Crashed?) && Reports(stop.value, goal)
    {
      var crash;
      if reply.WorkerStopped? {
        crash := Stop(v, Blocked, GoalBlocked);
        return Some(if crash then Crashed else StoppedByWorker);
      }
      var passed := Passes(reply, minScore);
      if !passed && Count(attempts, v) >= tasks[v].maxAttempts {
        crash := Stop(v, Failed, GoalFailed);
        return Some(if crash then Crashed else AttemptsExhausted);
      }
      crash := Release(v, if passed then Succeeded else Pending,
                       if passed then Some(reply.artifact) else tasks[v].artifact);
      stop := if crash then Some(Crashed) else None;
    }

    /** From a running task to its settled attempt. */
    method Conclude(v: Id, reply: Reply, minScore: real) returns (stop: Option<Outcome>)
      requires Working(v, Count(attempts, v)) && Count(attempts, v) < tasks[v].maxAttempts + crashes
      requires !reply.NeedsApproval?
      modifies this
      ensures Keeps(old(tasks), tasks)
      ensures stop != Some(Crashed) ==> Concluded(old(tasks), old(attempts), v, reply, minScore, tasks, attempts)
      ensures stop != Some(Crashed) ==> stop == EndOf(tasks[v], reply)
      ensures old(attempts) <= attempts && |attempts| <= |old(attempts)| + 1
      ensures Attempts(old(tasks), old(attempts), v, reply, minScore, tasks, attempts, stop == Some(Crashed))
      ensures stop.None? ==> Looping() && crashes == old(crashes)
      ensures stop.Some? ==> Valid() && crashes == old(crashes) + Tick(stop.value.Crashed?) && Reports(stop.value, goal)
    {
      var crash := Record(v, Passes(reply, minScore));
      if crash {
        return Some(Crashed);
      }
      stop := Settle(v, reply, minScore);
    }

    /** Executing a running task: suspended for an approval, or concluded. */
    method Perform(v: Id, reply: Reply, minScore: real) returns (stop: Option<Outcome>)
      requires Working(v, Count(attempts, v)) && Count(attempts, v) < tasks[v].maxAttempts + crashes
      modifies this
      ensures Keeps(old(tasks), tasks)
      ensures stop != Some(Crashed) ==>
        Concluded(old(tasks), old(attempts), v, reply, minScore, tasks, attempts) && stop == EndOf(tasks[v], reply)
      ensures old(attempts) <= attempts && |attempts| <= |old(attempts)| + 1
      ensures OneMore(old(tasks), old(attempts), tasks, attempts, stop == Some(Crashed), v)
      ensures stop.None? ==> Looping() && crashes == old(crashes)
      ensures stop.Some? ==> Valid() && crashes == old(crashes) + Tick(stop.value.Crashed?) && Reports(stop.value, goal)
    {
      if reply.NeedsApproval? {
        var suspended := Suspend(v);
        IdlePass(old(tasks), attempts, v, old(tasks)[v].(status := Pending), suspended.Crashed?);
        return Some(suspended);
      }
      stop := Conclude(v, reply, minScore);
      RecordingPass(old(tasks), old(attempts), v, reply, minScore, tasks, attempts, stop == Some(Crashed));
    }

    /** One pass of the loop for the task it chose: running, executed, reviewed,
        recorded, settled. `agent` is what the selector answered. */
    method Attempted(v: Id, agent: Option<Id>, reply: Reply, minScore: real) returns (stop: Option<Outcome>)
      requires Looping() && Ready(tasks, v)
      modifies this
      ensures Keeps(old(tasks), tasks)
      ensures agent.None? ==> stop == Some(NoAgent) && tasks == old(tasks) && attempts == old(attempts)
      ensures agent.Some? && stop != Some(Crashed) ==>
        Determined(old(tasks), old(attempts), v, agent.value, reply, minScore, tasks, attempts, stop)
      ensures old(attempts) <= attempts && |attempts| <= |old(attempts)| + 1
      ensures OneMore(old(tasks), old(attempts), tasks, attempts, stop == Some(Crashed), v)
      ensures stop.None? ==> Looping() && crashes == old(crashes) && |attempts| == |old(attempts)| + 1
      ensures stop.Some? ==> Valid() && crashes == old(crashes) + Tick(stop.value.Crashed?) && Reports(stop.value, goal)
    {
      if agent.None? {
        assert tasks == tasks[v := tasks[v]];
        IdlePass(tasks, attempts, v, tasks[v], false);
        Leave(v, GoalBlocked);
        return Some(NoAgent);
      }
      var crash := Start(v, agent.value);
      if crash {
        IdlePass(old(tasks), attempts, v, tasks[v], true);
        return Some(Crashed);
      }
      stop := Perform(v, reply, minScore);
      if stop != Some(Crashed) {
        ConcludedIsDetermined(old(tasks), old(attempts), v, agent.value, reply, minScore, tasks, attempts, stop);
      }
      LaunchedPass(old(tasks), old(attempts), tasks, attempts, stop == Some(Crashed), v, agent.value);
    }

    lemma LoopingStartsInOrder()
      requires Sound(goal, tasks, attempts, order)
      ensures StartedInOrder(tasks)
    {
      forall v | v in tasks && !tasks[v].status.Pending? ensures DependenciesDone(tasks, v) {
        assert TaskSound(tasks, attempts, v);
      }
    }

    /** The head of the loop: stop, or choose the task to attempt. The refusal for
        unresolved dependencies comes exactly when every waiting task is stuck
        behind a halted one; only a crash can leave such rows under a running goal. */
    method Choose(maxActions: nat) returns (stop: Option<Outcome>, v: Id)
      requires Looping()
      modifies this`goal
      ensures stop.None? ==> Looping() && |attempts| < maxActions && Ready(tasks, v)
      ensures stop.None? ==> forall u :: Ready(tasks, u) && u != v ==>
        tasks[v].position < tasks[u].position || (tasks[v].position == tasks[u].position && v < u)
      ensures stop.Some? ==> Valid() && Reports(stop.value, goal)
      ensures stop.Some? ==> stop.value in {AllDone, BudgetExhausted, Unresolved}
      ensures stop == Some(AllDone) <==> tasks != map[] && forall u :: u in tasks ==> tasks[u].status == Succeeded
      ensures stop == Some(BudgetExhausted) <==> !(tasks != map[] && AllSucceeded(tasks)) && |attempts| >= maxActions
      ensures stop == Some(Unresolved) <==>
        !(tasks != map[] && AllSucceeded(tasks)) && |attempts| < maxActions && Stuck(tasks)
      ensures stop == Some(Unresolved) ==> crashes > 0 && SomethingHalted(tasks)
    {
      v := 0;
      stop := None;
      if tasks != map[] && AllSucceeded(tasks) {
        goal := TransitionGoal(goal, GoalSucceeded).value;
        return Some(AllDone), v;
      }
      if |attempts| >= maxActions {
        goal := TransitionGoal(goal, GoalBlocked).value;
        return Some(BudgetExhausted), v;
      }
      LoopingStartsInOrder();
      NothingReadyExactly(tasks, order);
      var ready := FirstReady();
      if ready.None? {
        if forall u :: u in tasks ==> tasks[u].status.Pending? || tasks[u].status.Succeeded? {
          SomeTaskIsReady(tasks, order);
          assert false;
        }
        goal := TransitionGoal(goal, GoalBlocked).value;
        return Some(Unresolved), v;
      }
      v := ready.value;
    }

    /** One turn of the loop: choose and attempt. */
    method Turn(maxActions: nat, agent: Option<Id>, reply: Reply, minScore: real) returns (stop: Option<Outcome>)
      requires Looping()
      modifies this
      ensures Keeps(old(tasks), tasks) && old(attempts) <= attempts
      ensures |attempts| <= Larger(|old(attempts)|, maxActions)
      ensures Passed(old(tasks), old(attempts), tasks, attempts, stop == Some(Crashed))
      ensures stop.None? ==> Looping() && crashes == old(crashes)
      ensures stop.None? ==> |attempts| == |old(attempts)| + 1 && |old(attempts)| < maxActions
      ensures stop.Some? ==> Valid() && crashes == old(crashes) + Tick(stop.value.Crashed?) && Reports(stop.value, goal)
      ensures stop == Some(AllDone) <==> old(tasks) != map[] && AllSucceeded(old(tasks))
      ensures stop == Some(BudgetExhausted) ==> |attempts| >= maxActions
      ensures stop == Some(Unresolved) ==> Stuck(tasks) && SomethingHalted(tasks) && crashes > 0
      ensures stop.Some? ==> stop.value !in {AwaitingApproval, ApprovalDenied, AlreadyFinished, PlanRefused}
    {
      var chosen, v := Choose(maxActions);
      if chosen.Some? {
        return chosen;
      }
      stop := Attempted(v, agent, reply, minScore);
    }

    /** `_execute`. Workers, reviews and the selector may answer anything. */
    method Execute(maxActions: nat, minScore: real) returns (outcome: Outcome)
      requires Looping()
      modifies this
      ensures Valid() && Keeps(old(tasks), tasks) && Reports(outcome, goal)
      ensures old(attempts) <= attempts && |attempts| <= Larger(|old(attempts)|, maxActions)
      ensures crashes == old(crashes) + Tick(outcome.Crashed?)
      ensures outcome.BudgetExhausted? ==> |attempts| >= maxActions
      ensures outcome.Unresolved? ==> Stuck(tasks) && SomethingHalted(tasks) && crashes > 0
      ensures outcome !in {AwaitingApproval, ApprovalDenied, AlreadyFinished, PlanRefused}
      ensures AllPaced(old(tasks), old(attempts), tasks, attempts, outcome.Crashed?)
    {
      RequeuedIsPaced(tasks, tasks, attempts, false);
      while true
        invariant AllPaced(old(tasks), old(attempts), tasks, attempts, false)
        invariant Looping() && crashes == old(crashes) && Keeps(old(tasks), tasks)
        invariant old(attempts) <= attempts && |attempts| <= Larger(|old(attempts)|, maxActions)
        decreases maxActions - |attempts|
      {
        var agent: Option<Id>, reply: Reply := *, *;
        ghost var now, recorded := tasks, attempts;
        var stop := Turn(maxActions, agent, reply, minScore);
        TurnKeepsPace(old(tasks), old(attempts), now, recorded, tasks, attempts, stop == Some(Crashed));
        if stop.Some? {
          return stop.value;
        }
      }
    }

    /** A paused goal waits for its approvals, fails with a rejected one, and
        otherwise runs again. */
    method LeavePause() returns (stop: Option<Outcome>)
      requires Valid() && goal.Paused?
      modifies this`goal, this`crashes
      ensures Valid() && crashes == old(crashes) + Tick(stop == Some(Crashed))
      ensures stop.None? ==> goal.Active?
      ensures stop.Some? ==> stop.value in {AwaitingApproval, ApprovalDenied, Crashed} && Reports(stop.value, goal)
      ensures stop == Some(AwaitingApproval) <==> Requested in approvals
      ensures stop == Some(ApprovalDenied) <==> Requested !in approvals && Rejected in approvals
    {
      if Requested in approvals {
        return Some(AwaitingApproval);
      }
      GoalMoves(goal, Active, tasks, attempts, order);
      GoalMoves(goal, GoalFailed, tasks, attempts, order);
      if Rejected in approvals {
        goal := TransitionGoal(goal, GoalFailed).value;
        return Some(ApprovalDenied);
      }
      goal := TransitionGoal(goal, Active).value;
      var crash := Interrupted();
      LimitsGrow(tasks, attempts, old(crashes), crashes);
      stop := if crash then Some(Crashed) else None;
    }

    /** Up to the attempt loop: leave the pause, plan, recover. */
    method Prepare(proposal: Option<seq<Task>>) returns (stop: Option<Outcome>)
      requires Valid()
      requires Planned(proposal)
      modifies this
      ensures Keeps(old(tasks), tasks) && attempts == old(attempts)
      ensures AllPaced(old(tasks), old(attempts), tasks, attempts, false)
      ensures stop.None? ==> Looping() && crashes == old(crashes)
      ensures stop.Some? ==> Valid() && crashes == old(crashes) + Tick(stop.value.Crashed?) && Reports(stop.value, goal)
      ensures stop.Some? ==> stop.value in {AlreadyFinished, AwaitingApproval, ApprovalDenied, PlanRefused, Crashed}
      ensures stop == Some(AwaitingApproval) <==> old(goal).Paused? && Requested in old(approvals)
      ensures stop == Some(ApprovalDenied) <==>
        old(goal).Paused? && Requested !in old(approvals) && Rejected in old(approvals)
      ensures stop == Some(AlreadyFinished) <==> old(goal).Terminal()
      ensures old(goal).Terminal() ==> goal == old(goal) && tasks == old(tasks)
      ensures stop == Some(PlanRefused) ==>
        (old(goal).Created? || old(goal).Planning?) && !Plannable(proposal) && tasks == old(tasks)
      ensures stop.None? && (old(goal).Created? || old(goal).Planning?) ==> Plannable(proposal)
    {
      RequeuedIsPaced(tasks, tasks, attempts, false);
      if goal.Terminal() {
        return Some(AlreadyFinished);
      }
      if goal.Paused? {
        stop := LeavePause();
        if stop.Some? {
          return;
        }
      }
      if goal.Active? {
        stop := Recover();
        RequeuedIsPaced(old(tasks), tasks, attempts, false);
      } else {
        stop := PlanAndRecover(proposal);
      }
    }

    /** A new plan, and the recovery that follows it all the same. */
    method PlanAndRecover(proposal: Option<seq<Task>>) returns (stop: Option<Outcome>)
      requires Valid() && (goal.Created? || goal.Planning?)
      requires Planned(proposal)
      modifies this
      ensures Keeps(old(tasks), tasks) && attempts == old(attempts)
      ensures AllPaced(old(tasks), old(attempts), tasks, attempts, false)
      ensures stop.None? ==> Looping() && crashes == old(crashes)
      ensures stop.Some? ==> Valid() && crashes == old(crashes) + Tick(stop.value.Crashed?) && Reports(stop.value, goal)
      ensures stop.Some? ==> stop.value in {PlanRefused, Crashed}
      ensures stop == Some(PlanRefused) ==> !Plannable(proposal) && tasks == old(tasks)
      ensures stop.None? ==> Plannable(proposal)
    {
      SoundIsOpen(goal, tasks, attempts, order);
      stop := Plan(proposal);
      if stop.None? {
        stop := Recover();
      }
      SoundIsOpen(goal, tasks, attempts, order);
      PlanningIsPaced(old(tasks), tasks, false);
    }

    method Recover() returns (stop: Option<Outcome>)
      requires Valid() && goal.Active?
      modifies this`tasks, this`crashes
      ensures Keeps(old(tasks), tasks) && Requeued(old(tasks), tasks)
      ensures stop.None? ==> Looping() && crashes == old(crashes)
      ensures stop.Some? ==> stop.value.Crashed? && Valid() && crashes == old(crashes) + 1
    {
      if crashes == 0 {
        SteadyIsCalm(goal, tasks);
        assert Interruptible(tasks) == {};
      }
      var stopped := RecoverInterruptedTasks();
      assert !stopped ==> forall v :: v in tasks && tasks[v].status.Running? ==> v in Interruptible(tasks);
      stop := if stopped then Some(Crashed) else None;
    }

    /** `run`: resume from whatever state the rows are in. */
    method Run(maxActions: nat, minScore: real, proposal: Option<seq<Task>>) returns (outcome: Outcome)
      requires Valid()
      requires Planned(proposal)
      modifies this
      ensures Valid() && Keeps(old(tasks), tasks) && Reports(outcome, goal)
      ensures old(attempts) <= attempts && |attempts| <= Larger(|old(attempts)|, maxActions)
      ensures crashes == old(crashes) + Tick(outcome.Crashed?)
      ensures outcome.Unresolved? ==> Stuck(tasks) && SomethingHalted(tasks) && crashes > 0
      ensures outcome.AwaitingApproval? <==> old(goal).Paused? && Requested in old(approvals)
      ensures outcome.ApprovalDenied? <==>
        old(goal).Paused? && Requested !in old(approvals) && Rejected in old(approvals)
      ensures outcome.AlreadyFinished? <==> old(goal).Terminal()
      ensures old(goal).Terminal() ==> goal == old(goal) && tasks == old(tasks)
      ensures outcome.PlanRefused? ==>
        (old(goal).Created? || old(goal).Planning?) && !Plannable(proposal) && tasks == old(tasks)
      ensures (old(goal).Created? || old(goal).Planning?) && !Plannable(proposal) ==>
        outcome.PlanRefused? || outcome.Crashed?
      ensures AllPaced(old(tasks), old(attempts), tasks, attempts, outcome.Crashed?)
    {
      var stop := Prepare(proposal);
      if stop.Some? {
        PacedWhetherItDied(old(tasks), old(attempts), tasks, attempts, stop.value.Crashed?);
        return stop.value;
      }
      ghost var prepared := tasks;
      outcome := Execute(maxActions, minScore);
      PacedFromStart(old(tasks), old(attempts), prepared, tasks, attempts, outcome.Crashed?);
    }

    /** `resolve_approval`: the decision and the goal move in one transaction. */
    method ResolveApproval(i: nat, approved: bool) returns (r: Result<()>)
      requires Valid()
      modifies this
      ensures Valid() && tasks == old(tasks) && attempts == old(attempts) && crashes == old(crashes)
      ensures r.Ok? <==> i < |old(approvals)| && old(goal).Paused? && old(approvals)[i].Requested?
      ensures r.Err? ==> goal == old(goal) && approvals == old(approvals)
      ensures r.Ok? ==> goal == if approved then Active else GoalFailed
      ensures r.Ok? ==> approvals == old(approvals)[i := if approved then Approved else Rejected]
    {
      if i >= |approvals| {
        return Err(MissingRecord);
      }
      if !goal.Paused? || !approvals[i].Requested? {
        return Err(InvalidValue);
      }
      approvals := approvals[i := if approved then Approved else Rejected];
      goal := TransitionGoal(goal, if approved then Active else GoalFailed).value;
      r := Ok(());
    }

    /** A whole life of the goal: any number of runs, crashes and approval
        decisions in any order, the planner answering anew each time it is asked,
        under one action budget. `log` holds the rows before and after each session:
        a task passes its limit by exactly the number of sessions that found it
        overdue and attempted it. */
    method Live(sessions: nat, maxActions: nat) returns (ghost log: seq<Rows>)
      requires Valid() && |attempts| <= maxActions
      modifies this
      ensures Valid() && Keeps(old(tasks), tasks)
      ensures old(attempts) <= attempts && |attempts| <= maxActions
      ensures Sessions(log) && log[0] == old(Saved()) && log[|log| - 1] == Saved()
      ensures AllExactlyPast(log)
      ensures forall v :: v in tasks ==> Count(attempts, v) <= tasks[v].maxAttempts + crashes
    {
      log := [Saved()];
      SoundIsOpen(goal, tasks, attempts, order);
      for session := 0 to sessions
        invariant Valid() && Keeps(old(tasks), tasks)
        invariant old(attempts) <= attempts && |attempts| <= maxActions
        invariant Sessions(log) && log[0] == old(Saved()) && log[|log| - 1] == Saved()
      {
        OneSession(maxActions);
        SessionFollows(log, Saved());
        log := log + [Saved()];
      }
      assert forall v :: v in tasks ==> Within(tasks, attempts, crashes, v);
      LimitsPassedExactly(log);
    }

    ghost function Saved(): Rows
      reads this
    {
      Rows(tasks, attempts, crashes)
    }

    /** One run with whatever the planner answers, or one approval decision. */
    method OneSession(maxActions: nat)
      requires Valid() && |attempts| <= maxActions
      modifies this
      ensures Valid() && Keeps(old(tasks), tasks)
      ensures old(attempts) <= attempts && |attempts| <= maxActions
      ensures Continues(old(Saved()), Saved())
    {
      RequeuedIsPaced(tasks, tasks, attempts, false);
      SoundIsOpen(goal, tasks, attempts, order);
      if * {
        var proposal: Option<seq<Task>>, minScore: real := *, *;
        if Planned(proposal) {
          var _ := Run(maxActions, minScore, proposal);
          SoundIsOpen(goal, tasks, attempts, order);
        }
      } else {
        var i: nat, approved: bool := *, *;
        var _ := ResolveApproval(i, approved);
      }
    }
  }

  // ---------------------------------------------------------------- attempts over a whole life

  datatype Rows = Rows(tasks: map<Id, Task>, attempts: seq<Attempt>, crashes: nat)

  /** What one session of the engine does to the attempts at every task. */
  ghost predicate Continues(a: Rows, b: Rows) {
    && a.crashes <= b.crashes && Limited(b.tasks)
    && AllPaced(a.tasks, a.attempts, b.tasks, b.attempts, a.crashes < b.crashes)
  }

  ghost predicate Sessions(log: seq<Rows>) {
    && log != [] && Limited(log[0].tasks)
    && forall i :: 0 <= i < |log| - 1 ==> ContinuesAt(log, i)
  }

  ghost predicate ContinuesAt(log: seq<Rows>, i: nat)
    requires i + 1 < |log|
  {
    Continues(log[i], log[i + 1])
  }

  lemma SessionFollows(log: seq<Rows>, next: Rows)
    requires Sessions(log) && Continues(log[|log| - 1], next)
    ensures Sessions(log + [next])
  {
    var longer := log + [next];
    forall i | 0 <= i < |longer| - 1 ensures ContinuesAt(longer, i) {
      if i < |log| - 1 {
        assert ContinuesAt(log, i);
      }
    }
  }

  /** Whether the next session found `u` overdue and attempted it. */
  predicate Oversteps(a: Rows, b: Rows, u: Id) {
    Overdue(a.tasks, a.attempts, u) && Count(b.attempts, u) > Count(a.attempts, u)
  }

  function Overruns(log: seq<Rows>, u: Id): nat {
    if |log| <= 1 then 0
    else Overruns(log[..|log| - 1], u) + if Oversteps(log[|log| - 2], log[|log| - 1], u) then 1 else 0
  }

  /** The attempts at `u` are within its limit; a task not planned yet has none. */
  predicate OnTime(r: Rows, u: Id) {
    if u in r.tasks then Count(r.attempts, u) <= r.tasks[u].maxAttempts else Count(r.attempts, u) == 0
  }

  predicate ExactlyPast(log: seq<Rows>, u: Id)
    requires log != []
  {
    var last, past := log[|log| - 1], Overruns(log, u);
    if past == 0 then OnTime(last, u)
    else u in last.tasks && Count(last.attempts, u) == last.tasks[u].maxAttempts + past
  }

  /** Attempts pass the limit only by overrunning sessions, and each adds one. */
  lemma {:induction false} LimitPassedExactly(log: seq<Rows>, u: Id)
    requires Sessions(log) && OnTime(log[0], u)
    ensures ExactlyPast(log, u)
    decreases |log|
  {
    if |log| > 1 {
      var prefix := log[..|log| - 1];
      forall i | 0 <= i < |prefix| - 1 ensures ContinuesAt(prefix, i) {
        assert ContinuesAt(log, i);
      }
      LimitPassedExactly(prefix, u);
      assert ContinuesAt(log, |log| - 2);
      assert |log| > 2 ==> ContinuesAt(log, |log| - 3);
      OneSessionFurther(prefix, log, u);
    }
  }

  ghost predicate AllExactlyPast(log: seq<Rows>)
    requires log != []
  {
    forall u :: OnTime(log[0], u) ==> ExactlyPast(log, u)
  }

  lemma LimitsPassedExactly(log: seq<Rows>)
    requires Sessions(log)
    ensures AllExactlyPast(log)
  {
    forall u | OnTime(log[0], u) ensures ExactlyPast(log, u) {
      LimitPassedExactly(log, u);
    }
  }

  lemma OneSessionFurther(prefix: seq<Rows>, log: seq<Rows>, u: Id)
    requires |log| > 1 && prefix == log[..|log| - 1] && ExactlyPast(prefix, u)
    requires Limited(log[|log| - 2].tasks) && Continues(log[|log| - 2], log[|log| - 1])
    ensures ExactlyPast(log, u)
  {
    var a, b := log[|log| - 2], log[|log| - 1];
    assert prefix[|prefix| - 1] == a;
    assert Paced(a.tasks, a.attempts, b.tasks, b.attempts, a.crashes < b.crashes, u);
  }

  /** A task becomes overdue only in a session that dies between recording one of
      its attempts and saving its row. */
  lemma {:induction false} OverdueAfterCrash(log: seq<Rows>, i: nat, u: Id) returns (j: nat)
    requires Sessions(log) && i < |log|
    requires Overdue(log[i].tasks, log[i].attempts, u) && !Overdue(log[0].tasks, log[0].attempts, u)
    ensures j < i && log[j].crashes < log[j + 1].crashes
    ensures Count(log[j].attempts, u) < Count(log[j + 1].attempts, u)
    ensures u in log[j + 1].tasks && log[j + 1].tasks[u].status.Running?
  {
    assert i > 0 && ContinuesAt(log, i - 1);
    var a, b := log[i - 1], log[i];
    assert Paced(a.tasks, a.attempts, b.tasks, b.attempts, a.crashes < b.crashes, u);
    if Count(a.attempts, u) < Count(b.attempts, u) {
      j := i - 1;
    } else {
      j := OverdueAfterCrash(log, i - 1, u);
    }
  }

  // ---------------------------------------------------------------- what a crash can cost

  /** A crash between a task's last save and its goal's. Of two planned tasks the
      first is launched, its one attempt is recorded, and its row is saved as failed;
      there the process dies, and the goal still runs. The rows it leaves are sound,
      what depends on the failed task is stuck, and the loop refuses. */
  lemma UnresolvedInstance(agent: Id, minScore: real)
    returns (planned: map<Id, Task>, tasks: map<Id, Task>, attempts: seq<Attempt>, order: seq<Id>)
    ensures Sound(Active, planned, [], order) && Ready(planned, 0)
    ensures Concluded(Launched(planned, 0, agent), [], 0, Raised, minScore, tasks, attempts)
    ensures Sound(Active, tasks, attempts, order) && WithinAttempts(tasks, attempts, 1)
    ensures (forall v :: v in tasks ==> !tasks[v].status.Running?) && !AllSucceeded(tasks)
    ensures Stuck(tasks) && forall v :: !Ready(tasks, v)
  {
    var first := Task(TaskKey(0, 0), 0, [], 0, 1, Pending, None, None);
    var second := Task(TaskKey(0, 1), 0, [0], 1, 1, Pending, None, None);
    planned, order := map[0 := first, 1 := second], [0, 1];
    TwoInOrder(planned, order);
    attempts := [Attempt(0, 1, false)];
    tasks := Launched(planned, 0, agent)[0 := SettledTask(Launched(planned, 0, agent)[0], Raised, 1, minScore)];
    OneAttempt(attempts[0]);
    assert Count([], 0) == 0 && [] + attempts == attempts;
    TwoInOrder(tasks, order);
    assert TaskSound(tasks, attempts, 0) && TaskSound(tasks, attempts, 1);
    assert Blocks(tasks, 1, [1, 0]) by {
      assert TaskGraph.Edge(GraphOf(tasks), 1, 0);
    }
    NothingReadyExactly(tasks, order);
  }

  lemma TwoInOrder(tasks: map<Id, Task>, order: seq<Id>)
    requires tasks.Keys == {0, 1} && order == [0, 1] && tasks[0].dependencies == [] && tasks[1].dependencies == [0]
    ensures TaskGraph.Topological(GraphOf(tasks), order)
  {
    assert TaskGraph.FollowsDependencies(GraphOf(tasks), order, 0)
      && TaskGraph.FollowsDependencies(GraphOf(tasks), order, 1);
    assert (set v | v in order) == {0, 1} == GraphOf(tasks).Keys;
  }

  lemma OneAttempt(a: Attempt)
    requires a.no == 1
    ensures Numbered([a]) && forall v :: Count([a], v) == if v == a.task then 1 else 0
  {
    assert [] + [a] == [a];
    Appended([], a);
  }

  /** A crash between recording an attempt and saving its task. A planned task is
      launched and its one attempt recorded; there the process dies. The rows it
      leaves make the task overdue; recovery lets it wait again, and its next attempt
      is one too many. */
  lemma LimitPassedInstance(agent: Id, minScore: real)
    returns (planned: map<Id, Task>, tasks: map<Id, Task>, attempts: seq<Attempt>)
    ensures Sound(Active, planned, [], [0]) && Ready(planned, 0)
    ensures
      var recorded := [Attempt(0, 1, false)];
      var left := Launched(planned, 0, agent);
      && Attempts(left, [], 0, Raised, minScore, left, recorded, true)
      && Sound(Active, left, recorded, [0]) && Overdue(left, recorded, 0)
      && Concluded(Launched(Recovered(left), 0, agent), recorded, 0, Raised, minScore, tasks, attempts)
      && tasks[0].status.Failed? && Count(attempts, 0) == 2 > tasks[0].maxAttempts
  {
    planned := map[0 := Task(TaskKey(0, 0), 0, [], 0, 1, Pending, None, None)];
    var recorded := [Attempt(0, 1, false)];
    var left := Launched(planned, 0, agent);
    OneAttempt(recorded[0]);
    assert Count([], 0) == 0 && [] + recorded == recorded;
    Appended(recorded, Attempt(0, 2, false));
    OneInOrder(planned);
    OneInOrder(left);
    assert TaskSound(left, recorded, 0);
    var launched := Launched(Recovered(left), 0, agent);
    attempts := recorded + [Attempt(0, 2, false)];
    tasks := launched[0 := SettledTask(launched[0], Raised, 2, minScore)];
  }

  lemma OneInOrder(tasks: map<Id, Task>)
    requires tasks.Keys == {0} && tasks[0].dependencies == []
    ensures TaskGraph.Topological(GraphOf(tasks), [0])
  {
    assert TaskGraph.FollowsDependencies(GraphOf(tasks), [0], 0);
    assert (set v | v in [0]) == {0} == GraphOf(tasks).Keys;
  }

  // ---------------------------------------------------------------- handing a plan to the workers

  /** `plan` without `run`: what the engine's admission check lets through is
      exactly what the durable scheduler's runs start from. */
  method AdmitForWorkers(s: Spec.Store, goal: Id, tasks: seq<Task>) returns (ok: bool)
    requires goal in s.goals && s.goals[goal].Planning? && StoreCommit.FreshPlan(tasks, goal)
    requires StoreInvariant.Planned(s) && StoreInvariant.Owned(s)
    ensures ok <==> SchedulerRuns.Admissible(s, goal, tasks)
    ensures ok ==> Spec.SaveTasks(s, tasks).result.Ok?
    ensures
      ok <==>
        && tasks != [] && TaskGraph.UniqueIds(tasks) && TaskGraph.KnownDependencies(tasks)
        && forall g :: TaskGraph.Describes(g, tasks) ==> TaskGraph.Acyclic(g)
  {
    var verdict, g, order := TaskGraph.ValidateTaskGraph(tasks);
    if TaskGraph.UniqueIds(tasks) {
      forall h | TaskGraph.Describes(h, tasks) ensures h == g {
        GraphIsUnique(tasks, g, h);
      }
    }
    ok := tasks != [] && verdict.Accepted?;
    forall t | t in tasks ensures !Spec.HasLiveClaim(s, t.key) {
      PlanningIsUnclaimed(s, goal, t.key);
    }
    if ok {
      TaskGraph.TopologicalIsAcyclic(g, order);
      assert StoreCommit.Admits(s, Spec.SaveTasks(s, tasks).store, goal, tasks, g, order);
    }
    if SchedulerRuns.Admissible(s, goal, tasks) {
      var h, o :| StoreCommit.Admits(s, Spec.SaveTasks(s, tasks).store, goal, tasks, h, o);
      TaskGraph.TopologicalIsAcyclic(h, o);
      TopologicalIsKnown(tasks, h, o);
    }
  }

  lemma PlanningIsUnclaimed(s: Spec.Store, goal: Id, k: TaskKey)
    requires StoreInvariant.Planned(s) && StoreInvariant.Owned(s)
    requires goal in s.goals && s.goals[goal].Planning? && k.goal == goal
    ensures !Spec.HasLiveClaim(s, k)
  {
  }

  lemma TopologicalIsKnown(tasks: seq<Task>, g: TaskGraph.Graph, order: seq<Id>)
    requires TaskGraph.Describes(g, tasks) && TaskGraph.Topological(g, order)
    ensures TaskGraph.KnownDependencies(tasks)
  {
    forall t, d | t in tasks && d in t.dependencies ensures d in TaskGraph.Identifiers(tasks) {
      assert TaskGraph.Edge(g, t.key.task, d);
      TaskGraph.EdgeLowersRank(g, order, t.key.task, d);
      TaskGraph.ListsItsGraph(g, order, d);
    }
  }
}
