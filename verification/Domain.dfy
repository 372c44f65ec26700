/** The typed records and status machines shared by the whole runtime
    (src/seed_society/domain.py), without their descriptive payload. */
module Domain {

  /** An opaque identifier. Identifiers carry a total order because the SQL
      queries sort by them; nothing else about them matters. */
  type Id = nat

  /** A UTC instant, in the resolution of the store's clock. */
  type Instant = int

  /** Durations accepted for leases, heartbeats and retries, in seconds. */
  const MAX_DURATION_SECONDS := 86_400

  datatype Option<+T> = None | Some(value: T)

  /** The exceptions a caller can observe. */
  datatype Error =
    | WorkerSessionRejected
    | StaleClaim
    | InvalidValue
    | IntegrityError
    | MissingRecord

  datatype Result<+T> = Ok(value: T) | Err(error: Error)

  predicate ValidDuration(seconds: int) {
    1 <= seconds <= MAX_DURATION_SECONDS
  }

  datatype GoalStatus = Created | Planning | Active | Paused | GoalSucceeded | GoalFailed | GoalBlocked
  {
    predicate Terminal() {
      GoalSucceeded? || GoalFailed? || GoalBlocked?
    }
  }

  datatype TaskStatus = Pending | Running | Succeeded | Failed | Blocked
  {
    predicate Terminal() {
      Succeeded? || Failed? || Blocked?
    }
  }

  datatype Verdict = Pass | Fail

  datatype ApprovalStatus = Requested | Approved | Rejected

  /** The lifecycle table of a goal. */
  predicate GoalTransitionAllowed(current: GoalStatus, target: GoalStatus) {
    match current
    case Created => target.Planning?
    case Planning => target.Active? || target.GoalFailed?
    case Active => target.Paused? || target.Terminal()
    case Paused => target.Active? || target.GoalFailed?
    case _ => false
  }

  function TransitionGoal(current: GoalStatus, target: GoalStatus): Result<GoalStatus> {
    if current.Terminal() then Err(InvalidValue)
    else if !GoalTransitionAllowed(current, target) then Err(InvalidValue)
    else Ok(target)
  }

  /** The statuses a goal goes through, one accepted transition after another. */
  predicate Lifecycle(path: seq<GoalStatus>) {
    && path != [] && path[0].Created?
    && forall i :: 0 <= i < |path| - 1 ==> Follows(path, i)
  }

  predicate Follows(path: seq<GoalStatus>, i: nat)
    requires i + 1 < |path|
  {
    TransitionGoal(path[i], path[i + 1]) == Ok(path[i + 1])
  }

  /** Whatever is requested and in whatever order: a goal is created and planned
      once, at the start; it succeeds or is blocked only directly from running,
      and pauses only from there; and nothing follows a terminal status. */
  lemma {:induction false} LifecycleOrder(path: seq<GoalStatus>, i: nat)
    requires Lifecycle(path) && i < |path|
    ensures path[i].Created? <==> i == 0
    ensures path[i].Planning? <==> i == 1
    ensures path[i].GoalSucceeded? || path[i].GoalBlocked? || path[i].Paused? ==> i >= 3 && path[i - 1].Active?
    ensures path[i].GoalFailed? ==> i >= 2
    ensures path[i].Terminal() ==> i == |path| - 1
  {
    if i > 0 {
      LifecycleOrder(path, i - 1);
      assert Follows(path, i - 1);
    }
    if i + 1 < |path| {
      assert Follows(path, i);
    }
  }

  /** A task is identified inside its goal. */
  datatype TaskKey = TaskKey(goal: Id, task: Id)

  datatype Task = Task(
    key: TaskKey,
    taskType: Id,
    dependencies: seq<Id>,
    position: int,
    maxAttempts: int,
    status: TaskStatus,
    assignedAgent: Option<Id>,
    artifact: Option<Id>)
  {
    /** True when the two records describe the same planned work. */
    predicate SamePlan(other: Task) {
      key == other.key && taskType == other.taskType && dependencies == other.dependencies
      && position == other.position && maxAttempts == other.maxAttempts
    }
  }
}
