/** The scheduler transactions of the repository (src/seed_society/storage.py)
    as functions from a store to the store they commit. A transaction that
    fails commits nothing. */
module Store {
  import opened Domain
  import opened Scheduler
  import opened Outbox
  import Delegation

  datatype Artifact = Artifact(artifactId: Id, key: TaskKey, agentId: Id)

  datatype Attempt = Attempt(attemptId: Id, key: TaskKey, agentId: Id, number: int,
                             artifactId: Option<Id>, reviewId: Id)

  datatype Review = Review(reviewId: Id, key: TaskKey, number: int, verdict: Verdict, score: real)

  /** The fingerprint identifies the tool call that needs the approval. */
  datatype Approval = Approval(approvalId: Id, fingerprint: Id, key: TaskKey, tool: Id, status: ApprovalStatus)

  datatype Store = Store(
    sessions: map<Id, WorkerSession>,
    goals: map<Id, GoalStatus>,
    tasks: map<TaskKey, Task>,
    fences: map<TaskKey, int>,
    claims: map<Id, TaskClaim>,
    artifacts: map<Id, Artifact>,
    attempts: map<Id, Attempt>,
    reviews: map<Id, Review>,
    approvals: map<Id, Approval>,
    outbox: Table)

  const EMPTY := Store(map[], map[], map[], map[], map[], map[], map[], map[], map[], map[])

  /** A transaction's answer and the store it leaves. */
  datatype Txn<T> = Txn(store: Store, result: Result<T>)

  function Abort<T>(s: Store, e: Error): Txn<T> {
    Txn(s, Err(e))
  }

  // ---------------------------------------------------------------- authority

  function RequireSession(s: Store, workerId: Id, sessionId: Id, now: Instant): Result<WorkerSession> {
    if workerId !in s.sessions then Err(WorkerSessionRejected)
    else if s.sessions[workerId].sessionId != sessionId then Err(WorkerSessionRejected)
    else if s.sessions[workerId].IsExpired(now) then Err(WorkerSessionRejected)
    else Ok(s.sessions[workerId])
  }

  function RequireClaim(s: Store, claimId: Id, workerId: Id, sessionId: Id, token: int, now: Instant):
    Result<TaskClaim>
  {
    if claimId !in s.claims then Err(StaleClaim)
    else if !s.claims[claimId].status.Live? || !s.claims[claimId].Identifies(workerId, sessionId, token)
      then Err(StaleClaim)
    else if s.claims[claimId].IsExpired(now) then Err(StaleClaim)
    else Ok(s.claims[claimId])
  }

  /** Both checks that guard every fenced mutation. */
  function Authorize(s: Store, claimId: Id, workerId: Id, sessionId: Id, token: int, now: Instant): Result<TaskClaim> {
    match RequireSession(s, workerId, sessionId, now)
    case Err(e) => Err(e)
    case Ok(_) => RequireClaim(s, claimId, workerId, sessionId, token, now)
  }

  // ---------------------------------------------------------------- sessions

  function RegisterWorker(s: Store, session: WorkerSession): Store {
    s.(sessions := s.sessions[session.workerId := session])
  }

  function HeartbeatWorker(s: Store, workerId: Id, sessionId: Id, now: Instant, ttl: int): Txn<WorkerSession> {
    if workerId !in s.sessions then Abort(s, WorkerSessionRejected)
    else if s.sessions[workerId].sessionId != sessionId then Abort(s, WorkerSessionRejected)
    else match s.sessions[workerId].Heartbeat(now, ttl)
      case Err(e) => Abort(s, e)
      case Ok(updated) => Txn(s.(sessions := s.sessions[workerId := updated]), Ok(updated))
  }

  // ---------------------------------------------------------------- claiming

  predicate HasLiveClaim(s: Store, key: TaskKey) {
    exists c :: c in s.claims && s.claims[c].key == key && s.claims[c].status.Live?
  }

  predicate Ready(s: Store, task: Task) {
    forall d :: d in task.dependencies ==>
      TaskKey(task.key.goal, d) in s.tasks && s.tasks[TaskKey(task.key.goal, d)].status.Succeeded?
  }

  /** Every condition that `claim_task` tests before it creates a claim. */
  predicate Claimable(s: Store, key: TaskKey) {
    && key.goal in s.goals && s.goals[key.goal].Active?
    && key in s.tasks && s.tasks[key].status.Pending?
    && Ready(s, s.tasks[key])
    && !HasLiveClaim(s, key)
  }

  function NextToken(s: Store, key: TaskKey): int {
    if key in s.fences then s.fences[key] + 1 else 1
  }

  /** PRIMARY KEY(claim_id), UNIQUE(goal_id, task_id, fencing_token) and the
      partial unique index on active claims. */
  predicate ClaimRowFits(s: Store, claim: TaskClaim) {
    && claim.claimId !in s.claims
    && (forall c :: c in s.claims ==> !(s.claims[c].key == claim.key && s.claims[c].token == claim.token))
    && !HasLiveClaim(s, claim.key)
  }

  function Started(task: Task, agentId: Id): Task {
    task.(status := Running, assignedAgent := Some(agentId))
  }

  function OpenClaim(s: Store, session: WorkerSession, key: TaskKey, agentId: Id, claimId: Id, now: Instant,
                     lease: int):
    Txn<TaskClaim>
    requires key in s.tasks
  {
    var token := NextToken(s, key);
    match CreateClaim(claimId, key, session, agentId, token, now, lease)
    case Err(e) => Abort(s, e)
    case Ok(claim) =>
      if !ClaimRowFits(s, claim) then Abort(s, IntegrityError)
      else Txn(s.(fences := s.fences[key := token],
                  tasks := s.tasks[key := Started(s.tasks[key], agentId)],
                  claims := s.claims[claimId := claim]), Ok(claim))
  }

  function ClaimTask(s: Store, key: TaskKey, workerId: Id, sessionId: Id, agentId: Id, claimId: Id,
                     now: Instant, lease: int): Txn<Option<TaskClaim>>
  {
    match RequireSession(s, workerId, sessionId, now)
    case Err(e) => Abort(s, e)
    case Ok(session) =>
      if !Claimable(s, key) then Txn(s, Ok(None))
      else
        var granted := OpenClaim(s, session, key, agentId, claimId, now, lease);
        match granted.result
        case Err(e) => Abort(s, e)
        case Ok(claim) => Txn(granted.store, Ok(Some(claim)))
  }

  /** ORDER BY goal_id, position, task_id. */
  predicate Before(a: Task, b: Task) {
    a.key.goal < b.key.goal ||
    (a.key.goal == b.key.goal &&
      (a.position < b.position || (a.position == b.position && a.key.task < b.key.task)))
  }

  predicate Offered(s: Store, key: TaskKey, assignments: map<Id, Id>) {
    Claimable(s, key) && s.tasks[key].taskType in assignments
  }

  predicate FirstOffered(s: Store, key: TaskKey, assignments: map<Id, Id>) {
    && Offered(s, key, assignments)
    && forall other :: other in s.tasks && other != key && Offered(s, other, assignments)
         ==> Before(s.tasks[key], s.tasks[other])
  }

  /** What discovery answers: the first task in queue order that `claim_task`
      would grant, claimed exactly as `claim_task` claims it. */
  ghost function ClaimNextTask(s: Store, workerId: Id, sessionId: Id, assignments: map<Id, Id>, claimId: Id,
                               now: Instant, lease: int): Txn<Option<TaskClaim>>
  {
    if assignments == map[] then Abort(s, InvalidValue)
    else match RequireSession(s, workerId, sessionId, now)
      case Err(e) => Abort(s, e)
      case Ok(session) =>
        if !(assignments.Keys <= session.capabilities) then Abort(s, InvalidValue)
        else if exists key :: FirstOffered(s, key, assignments) then
          var key :| FirstOffered(s, key, assignments);
          ClaimTask(s, key, workerId, sessionId, assignments[s.tasks[key].taskType], claimId, now, lease)
        else Txn(s, Ok(None))
  }

  // ---------------------------------------------------------------- ending a claim

  /** Records an ended claim and, when its task is still running, the state the
      task falls back to. */
  function EndClaim(s: Store, claimId: Id, ended: TaskClaim, fallback: TaskStatus): Store {
    s.(claims := s.claims[claimId := ended],
       tasks := if ended.key in s.tasks && s.tasks[ended.key].status.Running?
                then s.tasks[ended.key := s.tasks[ended.key].(status := fallback, assignedAgent := None)]
                else s.tasks)
  }

  function RenewClaim(s: Store, claimId: Id, workerId: Id, sessionId: Id, token: int, now: Instant, lease: int):
    Txn<TaskClaim>
  {
    match Authorize(s, claimId, workerId, sessionId, token, now)
    case Err(e) => Abort(s, e)
    case Ok(current) =>
      match current.Renew(now, lease)
      case Err(e) => Abort(s, e)
      case Ok(renewed) => Txn(s.(claims := s.claims[claimId := renewed]), Ok(renewed))
  }

  function ReleaseClaim(s: Store, claimId: Id, workerId: Id, sessionId: Id, token: int, now: Instant): Txn<TaskClaim> {
    match Authorize(s, claimId, workerId, sessionId, token, now)
    case Err(e) => Abort(s, e)
    case Ok(current) =>
      match current.Finish(Released, now)
      case Err(e) => Abort(s, e)
      case Ok(released) => Txn(EndClaim(s, claimId, released, Pending), Ok(released))
  }

  /** The approvals row that a pause finds is another one. */
  predicate ApprovalDiffers(s: Store, approval: Approval) {
    approval.approvalId in s.approvals && s.approvals[approval.approvalId] != approval
  }

  /** A new approvals row violates PRIMARY KEY(approval_id) or UNIQUE(fingerprint). */
  predicate ApprovalRowTaken(s: Store, approval: Approval) {
    && approval.approvalId !in s.approvals
    && exists id :: id in s.approvals && s.approvals[id].fingerprint == approval.fingerprint
  }

  /** The ownership re-check of a pause, and its writes. */
  function PauseOwned(s: Store, current: TaskClaim, claimId: Id, approval: Approval, now: Instant): Txn<TaskClaim> {
    if current.key !in s.tasks || current.key.goal !in s.goals then Abort(s, StaleClaim)
    else if !s.tasks[current.key].status.Running? || s.tasks[current.key].assignedAgent != Some(current.agentId)
            || !s.goals[current.key.goal].Active? then Abort(s, StaleClaim)
    else match current.Finish(Released, now)
      case Err(e) => Abort(s, e)
      case Ok(released) =>
        var s' := EndClaim(s, claimId, released, Pending);
        Txn(s'.(approvals := s.approvals[approval.approvalId := approval],
                goals := s.goals[current.key.goal := Paused]), Ok(released))
  }

  function PauseClaim(s: Store, claim: TaskClaim, approval: Approval, now: Instant): Txn<TaskClaim> {
    match Authorize(s, claim.claimId, claim.workerId, claim.sessionId, claim.token, now)
    case Err(e) => Abort(s, e)
    case Ok(current) =>
      if approval.key != current.key || !approval.status.Requested? then Abort(s, InvalidValue)
      else if ApprovalDiffers(s, approval) then Abort(s, InvalidValue)
      else if ApprovalRowTaken(s, approval) then Abort(s, IntegrityError)
      else PauseOwned(s, current, claim.claimId, approval, now)
  }

  // ---------------------------------------------------------------- approvals

  /** The changes `save_approval` admits to a stored row: a decision, once. */
  predicate Decides(current: Approval, approval: Approval) {
    && current.status.Requested? && (approval.status.Approved? || approval.status.Rejected?)
    && approval.(status := current.status) == current
  }

  /** `save_approval`: a new row, the same row again, or its decision. */
  function SaveApproval(s: Store, approval: Approval): Txn<()> {
    var id := approval.approvalId;
    if id in s.approvals && s.approvals[id] != approval && !Decides(s.approvals[id], approval)
    then Abort(s, InvalidValue)
    else if ApprovalRowTaken(s, approval) then Abort(s, IntegrityError)
    else Txn(s.(approvals := s.approvals[id := approval]), Ok(()))
  }

  /** `resolve_approval` with `save_approval_resolution`: the decision and the
      goal's next state in one transaction. */
  function ResolveApproval(s: Store, approvalId: Id, approved: bool): Txn<Approval> {
    if approvalId !in s.approvals then Abort(s, MissingRecord)
    else
      var approval := s.approvals[approvalId];
      if approval.key.goal !in s.goals then Abort(s, MissingRecord)
      else if !s.goals[approval.key.goal].Paused? then Abort(s, InvalidValue)
      else if !approval.status.Requested? then Abort(s, InvalidValue)
      else
        var resolved := approval.(status := if approved then Approved else Rejected);
        Txn(s.(approvals := s.approvals[approvalId := resolved],
               goals := s.goals[approval.key.goal := if approved then Active else GoalFailed]), Ok(resolved))
  }

  // ---------------------------------------------------------------- reaping

  /** The status of a task's latest delegation, as the reaper sees it. */
  type RemoteState = Delegation.DelegationStatus

  /** The remote side may be at work, or may have been: nobody knows. */
  predicate Uncertain(remote: Option<RemoteState>) {
    remote.Some? && (remote.value.Submitting? || remote.value.Unknown? || remote.value.Interrupted?)
  }

  predicate Reapable(claim: TaskClaim, now: Instant) {
    claim.status.Live? && claim.IsExpired(now)
  }

  predicate KeyReapable(s: Store, key: TaskKey, now: Instant) {
    exists c :: c in s.claims && Reapable(s.claims[c], now) && s.claims[c].key == key
  }

  function ExpiredClaims(s: Store, now: Instant): set<Id> {
    set c | c in s.claims && Reapable(s.claims[c], now)
  }

  function Recovered(task: Task, remote: Option<RemoteState>): Task {
    task.(status := if Uncertain(remote) then Blocked else Pending, assignedAgent := None)
  }

  function Remote(remote: map<TaskKey, RemoteState>, key: TaskKey): Option<RemoteState> {
    if key in remote then Some(remote[key]) else None
  }

  /** `reap_expired_claims`: every expired active claim ends, and its running
      task is handed back, or blocked when its remote side is uncertain. */
  function ReapExpired(s: Store, now: Instant, remote: map<TaskKey, RemoteState>): Txn<set<Id>> {
    if exists c :: c in s.claims && Reapable(s.claims[c], now) && now < s.claims[c].acquiredAt
    then Abort(s, InvalidValue)
    else
      Txn(s.(claims := map c | c in s.claims ::
               if Reapable(s.claims[c], now) then s.claims[c].(status := Expired, finishedAt := Some(now))
               else s.claims[c],
             tasks := map k | k in s.tasks ::
               if s.tasks[k].status.Running? && KeyReapable(s, k, now) then Recovered(s.tasks[k], Remote(remote, k))
               else s.tasks[k]),
          Ok(ExpiredClaims(s, now)))
  }

  // ---------------------------------------------------------------- committing

  /** Everything a worker submits with its result. */
  datatype Outcome = Outcome(
    task: Task,
    artifact: Option<Artifact>,
    attempt: Attempt,
    review: Review,
    performanceAgent: Id,
    performanceType: Id,
    eventGoals: set<Id>,
    messages: seq<OutboxMessage>)

  predicate OutcomeMatches(current: TaskClaim, o: Outcome) {
    && o.task.key == current.key && !o.task.status.Running?
    && o.attempt.key == current.key && o.attempt.agentId == current.agentId
    && o.review.key == current.key && o.review.reviewId == o.attempt.reviewId && o.review.number == o.attempt.number
    && o.performanceAgent == current.agentId && o.performanceType == o.task.taskType
  }

  predicate ArtifactMatches(current: TaskClaim, o: Outcome) {
    match o.artifact
    case None => o.attempt.artifactId.None? && o.task.artifact.None?
    case Some(a) =>
      && a.key == current.key && a.agentId == current.agentId && o.attempt.artifactId == Some(a.artifactId)
      && (o.task.status.Succeeded? ==> o.task.artifact == Some(a.artifactId))
      && (!o.task.status.Succeeded? ==> o.task.artifact.None? || o.task.artifact == Some(a.artifactId))
  }

  predicate OutcomeConsistent(current: TaskClaim, o: Outcome) {
    && OutcomeMatches(current, o)
    && (o.task.status.Succeeded? ==> o.artifact.Some? && o.review.verdict.Pass?)
    && ArtifactMatches(current, o)
    && o.eventGoals <= {current.key.goal}
  }

  /** PRIMARY KEY(artifact_id), PRIMARY KEY(attempt_id), PRIMARY KEY(review_id)
      and UNIQUE(goal_id, task_id, attempt_no). */
  predicate OutcomeRowsFit(s: Store, o: Outcome) {
    && (o.artifact.Some? ==> o.artifact.value.artifactId !in s.artifacts)
    && o.attempt.attemptId !in s.attempts
    && (forall a :: a in s.attempts ==>
          !(s.attempts[a].key == o.attempt.key && s.attempts[a].number == o.attempt.number))
    && o.review.reviewId !in s.reviews
  }

  predicate AllSucceeded(tasks: map<TaskKey, Task>, goal: Id) {
    && (exists k :: k in tasks && k.goal == goal)
    && forall k :: k in tasks && k.goal == goal ==> tasks[k].status.Succeeded?
  }

  /** `_reconcile_goal_locked`: the goal state that follows a committed task. */
  function ReconcileGoal(s: Store, committed: Task): Result<GoalStatus> {
    var goal := committed.key.goal;
    if goal !in s.goals then Err(StaleClaim)
    else if !s.goals[goal].Active? then Err(StaleClaim)
    else match committed.status
      case Failed => TransitionGoal(s.goals[goal], GoalFailed)
      case Blocked => TransitionGoal(s.goals[goal], GoalBlocked)
      case Succeeded =>
        if AllSucceeded(s.tasks, goal) then TransitionGoal(s.goals[goal], GoalSucceeded) else Ok(s.goals[goal])
      case _ => Ok(s.goals[goal])
  }

  function WithRecords(s: Store, o: Outcome, outbox: Table): Store {
    s.(artifacts := match o.artifact case None => s.artifacts case Some(a) => s.artifacts[a.artifactId := a],
       attempts := s.attempts[o.attempt.attemptId := o.attempt],
       reviews := s.reviews[o.review.reviewId := o.review],
       outbox := outbox,
       tasks := s.tasks[o.task.key := o.task])
  }

  ghost function CommitOutcome(s: Store, claim: TaskClaim, o: Outcome, now: Instant): Txn<TaskClaim> {
    match Authorize(s, claim.claimId, claim.workerId, claim.sessionId, claim.token, now)
    case Err(e) => Abort(s, e)
    case Ok(current) =>
      if !OutcomeConsistent(current, o) then Abort(s, InvalidValue)
      else if current.key !in s.tasks then Abort(s, StaleClaim)
      else if !s.tasks[current.key].status.Running? || s.tasks[current.key].assignedAgent != Some(current.agentId)
        then Abort(s, StaleClaim)
      else if !OutcomeRowsFit(s, o) then Abort(s, IntegrityError)
      else match EnqueueAll(s.outbox, o.messages)
        case Err(e) => Abort(s, e)
        case Ok(outbox) =>
          var s' := WithRecords(s, o, outbox);
          match ReconcileGoal(s', o.task)
          case Err(e) => Abort(s, e)
          case Ok(status) =>
            match current.Finish(Committed, now)
            case Err(e) => Abort(s, e)
            case Ok(committed) =>
              Txn(s'.(goals := s.goals[o.task.key.goal := status],
                      claims := s.claims[claim.claimId := committed]), Ok(committed))
  }

  // ---------------------------------------------------------------- unfenced writes

  /** `save_tasks`: refused as a whole when any listed task is claimed. */
  function SaveTasks(s: Store, tasks: seq<Task>): Txn<()> {
    if exists t :: t in tasks && HasLiveClaim(s, t.key) then Abort(s, StaleClaim)
    else Txn(s.(tasks := Upsert(s.tasks, tasks)), Ok(()))
  }

  function Upsert(table: map<TaskKey, Task>, tasks: seq<Task>): map<TaskKey, Task>
    decreases |tasks|
  {
    if tasks == [] then table
    else Upsert(table[tasks[0].key := tasks[0]], tasks[1..])
  }

  /** The last row listed for its key. */
  predicate LastListed(tasks: seq<Task>, i: nat) {
    i < |tasks| && forall j :: i < j < |tasks| ==> tasks[j].key != tasks[i].key
  }

  lemma {:induction false} LastListedCounts(table: map<TaskKey, Task>, tasks: seq<Task>, i: nat)
    requires LastListed(tasks, i)
    ensures tasks[i].key in Upsert(table, tasks) && Upsert(table, tasks)[tasks[i].key] == tasks[i]
    decreases |tasks|
  {
    var rest := tasks[1..];
    if i > 0 {
      assert tasks[i] == rest[i - 1] && LastListed(rest, i - 1);
      LastListedCounts(table[tasks[0].key := tasks[0]], rest, i - 1);
    } else {
      assert forall j :: 0 <= j < |rest| ==> rest[j] == tasks[j + 1];
      UpsertAt(table[tasks[0].key := tasks[0]], rest, tasks[0].key);
    }
  }

  predicate Lists(tasks: seq<Task>, key: TaskKey) {
    exists i :: 0 <= i < |tasks| && tasks[i].key == key
  }

  /** After an upsert a listed key holds one of the rows listed for it, and
      every other key holds what it held before. */
  lemma {:induction false} UpsertAt(table: map<TaskKey, Task>, tasks: seq<Task>, key: TaskKey)
    ensures Lists(tasks, key) ==>
              key in Upsert(table, tasks) && Upsert(table, tasks)[key] in tasks && Upsert(table, tasks)[key].key == key
    ensures !Lists(tasks, key) ==>
              (key in Upsert(table, tasks) <==> key in table)
              && (key in table ==> Upsert(table, tasks)[key] == table[key])
    decreases |tasks|
  {
    if tasks != [] {
      UpsertAt(table[tasks[0].key := tasks[0]], tasks[1..], key);
      if Lists(tasks[1..], key) {
        var i :| 0 <= i < |tasks[1..]| && tasks[1..][i].key == key;
        assert tasks[i + 1].key == key;
      } else if Lists(tasks, key) {
        assert forall i :: 0 <= i < |tasks[1..]| ==> tasks[1..][i] == tasks[i + 1];
        assert tasks[0].key == key;
      }
    }
  }
}
