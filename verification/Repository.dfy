/** The scheduler side of `SQLiteRepository` (src/seed_society/storage.py): the
    tables are updated in place, statement by statement, and a transaction that
    raises puts back the store it began with. Every method is proved to do
    exactly what its function in `Store` says. */
module Repository {
  import opened Domain
  import opened Scheduler
  import opened Outbox
  import opened OutboxRepository
  import opened Store
  import opened StoreInvariant
  import Spec = Store

  // ---------------------------------------------------------------- queue order

  predicate InQueueOrder(rows: seq<Task>) {
    forall i, j :: 0 <= i < j < |rows| ==> Before(rows[i], rows[j])
  }

  lemma FirstOfferedUnique(s: Store, a: TaskKey, b: TaskKey, assignments: map<Id, Id>)
    requires FirstOffered(s, a, assignments) && FirstOffered(s, b, assignments)
    ensures a == b
  {
  }

  // ---------------------------------------------------------------- reaping, one claim at a time

  function ReapedClaims(claims: map<Id, TaskClaim>, done: set<Id>, now: Instant): map<Id, TaskClaim> {
    map c | c in claims ::
      if c in done && Reapable(claims[c], now) then claims[c].(status := Expired, finishedAt := Some(now))
      else claims[c]
  }

  function HitKeys(claims: map<Id, TaskClaim>, done: set<Id>, now: Instant): set<TaskKey> {
    set c | c in done && c in claims && Reapable(claims[c], now) :: claims[c].key
  }

  function ReapedTasks(tasks: map<TaskKey, Task>, hit: set<TaskKey>, remote: map<TaskKey, RemoteState>):
    map<TaskKey, Task>
  {
    map k | k in tasks ::
      if tasks[k].status.Running? && k in hit then Recovered(tasks[k], Remote(remote, k)) else tasks[k]
  }

  /** Recovering the task of one more expired claim. */
  function RecoverTask(tasks: map<TaskKey, Task>, key: TaskKey, remote: map<TaskKey, RemoteState>): map<TaskKey, Task> {
    if key in tasks && tasks[key].status.Running? then tasks[key := Recovered(tasks[key], Remote(remote, key))]
    else tasks
  }

  /** The store after the reaper has looked at the claims in `done`. */
  predicate ReapedSoFar(s: Store, s': Store, done: set<Id>, now: Instant, remote: map<TaskKey, RemoteState>) {
    s' == s.(claims := ReapedClaims(s.claims, done, now),
             tasks := ReapedTasks(s.tasks, HitKeys(s.claims, done, now), remote))
  }

  lemma ReapNone(s: Store, now: Instant, remote: map<TaskKey, RemoteState>)
    ensures ReapedSoFar(s, s, {}, now, remote)
  {
    assert ReapedClaims(s.claims, {}, now) == s.claims;
    assert ReapedTasks(s.tasks, {}, remote) == s.tasks;
    assert HitKeys(s.claims, {}, now) == {};
  }

  lemma ReapStepTasks(tasks: map<TaskKey, Task>, hit: set<TaskKey>, key: TaskKey, remote: map<TaskKey, RemoteState>)
    ensures ReapedTasks(tasks, hit + {key}, remote) == RecoverTask(ReapedTasks(tasks, hit, remote), key, remote)
  {
  }

  lemma ReapSkips(s: Store, s': Store, done: set<Id>, c: Id, now: Instant, remote: map<TaskKey, RemoteState>)
    requires c in s.claims && !Reapable(s.claims[c], now) && ReapedSoFar(s, s', done, now, remote)
    ensures ReapedSoFar(s, s', done + {c}, now, remote)
  {
    assert HitKeys(s.claims, done + {c}, now) == HitKeys(s.claims, done, now);
    assert ReapedClaims(s.claims, done + {c}, now) == ReapedClaims(s.claims, done, now);
  }

  lemma ReapStep(s: Store, s': Store, done: set<Id>, c: Id, now: Instant, remote: map<TaskKey, RemoteState>)
    requires c in s.claims && c !in done && Reapable(s.claims[c], now) && ReapedSoFar(s, s', done, now, remote)
    ensures ReapedSoFar(s, s'.(claims := s'.claims[c := s.claims[c].(status := Expired, finishedAt := Some(now))],
                               tasks := RecoverTask(s'.tasks, s.claims[c].key, remote)), done + {c}, now, remote)
  {
    assert HitKeys(s.claims, done + {c}, now) == HitKeys(s.claims, done, now) + {s.claims[c].key};
    ReapStepTasks(s.tasks, HitKeys(s.claims, done, now), s.claims[c].key, remote);
    assert ReapedClaims(s.claims, done + {c}, now) ==
           ReapedClaims(s.claims, done, now)[c := s.claims[c].(status := Expired, finishedAt := Some(now))];
  }

  /** The bookkeeping of the reaper's loop: live claims are in `rows` or `done`,
      and `expired` lists the visited ones that had run out. */
  ghost predicate Reaping(s: Store, rows: set<Id>, done: set<Id>, expired: set<Id>, now: Instant) {
    && rows !! done && done <= s.claims.Keys
    && (forall c :: c in rows ==> c in s.claims && s.claims[c].status.Live?)
    && (forall c :: c in s.claims && s.claims[c].status.Live? ==> c in rows || c in done)
    && (forall c :: c in done && Reapable(s.claims[c], now) ==> s.claims[c].acquiredAt <= now)
    && (forall c :: c in expired <==> c in done && Reapable(s.claims[c], now))
  }

  lemma ReapingStep(s: Store, rows: set<Id>, done: set<Id>, expired: set<Id>, c: Id, now: Instant)
    requires Reaping(s, rows, done, expired, now) && c in rows
    ensures c in s.claims && c !in done && s.claims[c].status.Live?
    ensures Reapable(s.claims[c], now) && s.claims[c].acquiredAt <= now
            ==> Reaping(s, rows - {c}, done + {c}, expired + {c}, now)
    ensures !Reapable(s.claims[c], now) ==> Reaping(s, rows - {c}, done + {c}, expired, now)
  {
  }

  lemma ReapingDone(s: Store, done: set<Id>, expired: set<Id>, now: Instant)
    requires Reaping(s, {}, done, expired, now)
    ensures expired == ExpiredClaims(s, now)
    ensures forall c :: c in s.claims && Reapable(s.claims[c], now) ==> c in done && s.claims[c].acquiredAt <= now
  {
  }

  lemma ReapRefused(s: Store, c: Id, now: Instant, remote: map<TaskKey, RemoteState>)
    requires c in s.claims && Reapable(s.claims[c], now) && now < s.claims[c].acquiredAt
    ensures ReapExpired(s, now, remote) == Abort(s, InvalidValue)
  {
  }

  lemma ReapKeepsKeys(s: Store, now: Instant, remote: map<TaskKey, RemoteState>)
    requires RowsKeyed(s)
    ensures RowsKeyed(ReapExpired(s, now, remote).store)
  {
  }

  lemma ReapAll(s: Store, s': Store, done: set<Id>, now: Instant, remote: map<TaskKey, RemoteState>)
    requires forall c :: c in s.claims && Reapable(s.claims[c], now) ==> c in done && s.claims[c].acquiredAt <= now
    requires ReapedSoFar(s, s', done, now, remote)
    ensures ReapExpired(s, now, remote) == Txn(s', Ok(ExpiredClaims(s, now)))
  {
    var reaped := ReapExpired(s, now, remote).store;
    var hit := HitKeys(s.claims, done, now);
    forall k | k in s.tasks ensures k in hit <==> KeyReapable(s, k, now) {
    }
    assert reaped.tasks == s'.tasks;
    assert reaped.claims == s'.claims;
  }

  // ---------------------------------------------------------------- discovery, one row at a time

  predicate ListsTable(rows: seq<Task>, table: map<TaskKey, Task>) {
    && (forall k :: k in table ==> table[k] in rows)
    && (forall i :: 0 <= i < |rows| ==> rows[i].key in table && table[rows[i].key] == rows[i])
  }

  lemma FirstRowOffered(s: Store, rows: seq<Task>, n: nat, assignments: map<Id, Id>)
    requires RowsKeyed(s) && ListsTable(rows, s.tasks) && InQueueOrder(rows) && n < |rows|
    requires forall j :: 0 <= j < n ==> !Offered(s, rows[j].key, assignments)
    requires Offered(s, rows[n].key, assignments)
    ensures FirstOffered(s, rows[n].key, assignments)
  {
    forall other | other in s.tasks && other != rows[n].key && Offered(s, other, assignments)
      ensures Before(s.tasks[rows[n].key], s.tasks[other])
    {
      var j :| 0 <= j < |rows| && rows[j] == s.tasks[other];
    }
  }

  lemma NoRowOffered(s: Store, rows: seq<Task>, assignments: map<Id, Id>)
    requires RowsKeyed(s) && ListsTable(rows, s.tasks)
    requires forall j :: 0 <= j < |rows| ==> !Offered(s, rows[j].key, assignments)
    ensures forall k :: k in s.tasks ==> !Offered(s, k, assignments)
  {
    forall k | k in s.tasks ensures !Offered(s, k, assignments) {
      var j :| 0 <= j < |rows| && rows[j] == s.tasks[k];
    }
  }

  /** Writing the approval before the re-check or with the other rows makes no
      difference to a pause that goes through. */
  lemma PauseIgnoresOwnApproval(s: Store, current: TaskClaim, claimId: Id, approval: Approval, now: Instant)
    ensures var noted := s.(approvals := s.approvals[approval.approvalId := approval]);
            var a, b :=
              PauseOwned(s, current, claimId, approval, now), PauseOwned(noted, current, claimId, approval, now);
            a.result == b.result && (a.result.Ok? ==> a.store == b.store)
  {
    var noted := s.(approvals := s.approvals[approval.approvalId := approval]);
    assert noted.approvals[approval.approvalId := approval] == noted.approvals;
  }

  lemma OpenClaimKeepsKeys(s: Store, session: WorkerSession, key: TaskKey, agentId: Id, claimId: Id, now: Instant,
                           lease: int)
    requires RowsKeyed(s) && key in s.tasks
    ensures RowsKeyed(OpenClaim(s, session, key, agentId, claimId, now, lease).store)
  {
  }

  // ---------------------------------------------------------------- the repository

  class SQLiteRepository {
    var sessions: map<Id, WorkerSession>
    var goals: map<Id, GoalStatus>
    var tasks: map<TaskKey, Task>
    var fences: map<TaskKey, int>
    var claims: map<Id, TaskClaim>
    var artifacts: map<Id, Artifact>
    var attempts: map<Id, Attempt>
    var reviews: map<Id, Review>
    var approvals: map<Id, Approval>
    const outbox: OutboxTable

    function State(): Store
      reads this, outbox
    {
      Store(sessions, goals, tasks, fences, claims, artifacts, attempts, reviews, approvals, outbox.rows)
    }

    /** Primary keys and the outbox's unique intents, which the schema enforces. */
    ghost predicate Valid()
      reads this, outbox
    {
      RowsKeyed(State()) && outbox.Valid()
    }

    constructor ()
      ensures Valid() && State() == EMPTY && fresh(outbox)
    {
      sessions, goals, tasks, fences, claims := map[], map[], map[], map[], map[];
      artifacts, attempts, reviews, approvals := map[], map[], map[], map[];
      outbox := new OutboxTable();
    }

    /** ROLLBACK: the other half of `_immediate_transaction`. */
    method Rollback(saved: Store)
      modifies this, outbox
      ensures State() == saved
    {
      sessions, goals, tasks, fences, claims := saved.sessions, saved.goals, saved.tasks, saved.fences, saved.claims;
      artifacts, attempts, reviews, approvals := saved.artifacts, saved.attempts, saved.reviews, saved.approvals;
      outbox.rows := saved.outbox;
    }

    // -------------------------------------------------------------- sessions

    method RegisterWorker(session: WorkerSession)
      requires Valid()
      modifies this
      ensures Valid() && State() == Spec.RegisterWorker(old(State()), session)
    {
      sessions := sessions[session.workerId := session];
    }

    method HeartbeatWorker(workerId: Id, sessionId: Id, now: Instant, ttl: int) returns (r: Result<WorkerSession>)
      requires Valid()
      modifies this
      ensures Valid()
      ensures Txn(State(), r) == Spec.HeartbeatWorker(old(State()), workerId, sessionId, now, ttl)
    {
      if workerId !in sessions || sessions[workerId].sessionId != sessionId {
        return Err(WorkerSessionRejected);
      }
      r := sessions[workerId].Heartbeat(now, ttl);
      if r.Ok? {
        sessions := sessions[workerId := r.value];
      }
    }

    // -------------------------------------------------------------- claiming

    /** `_create_claim_locked`: the fence moves first, then the task, then the
        claim row; the caller rolls back if any of it is refused. */
    method CreateClaimLocked(session: WorkerSession, key: TaskKey, agentId: Id, claimId: Id, now: Instant, lease: int)
      returns (r: Result<TaskClaim>)
      requires Valid() && key in tasks
      modifies this
      ensures outbox.rows == old(outbox.rows)
      ensures r == OpenClaim(old(State()), session, key, agentId, claimId, now, lease).result
      ensures r.Ok? ==> State() == OpenClaim(old(State()), session, key, agentId, claimId, now, lease).store
    {
      ghost var before := State();
      var token := if key in fences then fences[key] + 1 else 1;
      fences := fences[key := token];
      r := CreateClaim(claimId, key, session, agentId, token, now, lease);
      if r.Err? {
        return;
      }
      var claim := r.value;
      tasks := tasks[key := Started(tasks[key], agentId)];
      assert ClaimRowFits(State(), claim) <==> ClaimRowFits(before, claim);
      if !ClaimRowFits(State(), claim) {
        return Err(IntegrityError);
      }
      claims := claims[claimId := claim];
    }

    /** The dependency loop of `claim_task`. */
    method DependenciesSucceeded(task: Task) returns (ok: bool)
      ensures ok <==> Ready(State(), task)
    {
      for i := 0 to |task.dependencies|
        invariant forall j :: 0 <= j < i ==>
                    TaskKey(task.key.goal, task.dependencies[j]) in tasks
                    && tasks[TaskKey(task.key.goal, task.dependencies[j])].status.Succeeded?
      {
        var key := TaskKey(task.key.goal, task.dependencies[i]);
        if key !in tasks || !tasks[key].status.Succeeded? {
          assert task.dependencies[i] in task.dependencies;
          return false;
        }
      }
      ok := true;
    }

    /** The conditions `claim_task` checks before it grants a claim. */
    method CanBeClaimed(key: TaskKey) returns (ok: bool)
      ensures ok <==> Claimable(State(), key)
    {
      if key.goal !in goals || !goals[key.goal].Active? || key !in tasks || !tasks[key].status.Pending? {
        return false;
      }
      var ready := DependenciesSucceeded(tasks[key]);
      ok := ready && !HasLiveClaim(State(), key);
    }

    method ClaimTask(key: TaskKey, workerId: Id, sessionId: Id, agentId: Id, claimId: Id, now: Instant, lease: int)
      returns (r: Result<Option<TaskClaim>>)
      requires Valid()
      modifies this, outbox
      ensures Valid()
      ensures Txn(State(), r) == Spec.ClaimTask(old(State()), key, workerId, sessionId, agentId, claimId, now, lease)
    {
      var saved := State();
      var session := RequireSession(saved, workerId, sessionId, now);
      if session.Err? {
        return Err(session.error);
      }
      var claimable := CanBeClaimed(key);
      if !claimable {
        return Ok(None);
      }
      OpenClaimKeepsKeys(saved, session.value, key, agentId, claimId, now, lease);
      var created := CreateClaimLocked(session.value, key, agentId, claimId, now, lease);
      if created.Err? {
        Rollback(saved);
        return Err(created.error);
      }
      r := Ok(Some(created.value));
    }

    /** `SELECT ... FROM tasks ORDER BY goal_id, position, task_id`. */
    method OrderedTasks() returns (rows: seq<Task>)
      requires Valid()
      ensures InQueueOrder(rows) && ListsTable(rows, tasks)
    {
      rows := [];
      var pending := tasks.Keys;
      while pending != {}
        invariant pending <= tasks.Keys && InQueueOrder(rows)
        invariant forall i :: 0 <= i < |rows| ==>
                    rows[i].key in tasks && tasks[rows[i].key] == rows[i] && rows[i].key !in pending
        invariant forall k :: k in tasks && k !in pending ==> tasks[k] in rows
        invariant forall i, k :: 0 <= i < |rows| && k in pending ==> Before(rows[i], tasks[k])
        decreases pending
      {
        var first := FirstPending(pending);
        pending := pending - {first};
        rows := rows + [tasks[first]];
      }
    }

    method FirstPending(pending: set<TaskKey>) returns (first: TaskKey)
      requires Valid() && pending <= tasks.Keys && pending != {}
      ensures first in pending
      ensures forall k :: k in pending && k != first ==> Before(tasks[first], tasks[k])
    {
      first :| first in pending;
      var rest := pending - {first};
      while rest != {}
        invariant first in pending && rest <= pending && first !in rest
        invariant forall k :: k in pending && k !in rest && k != first ==> Before(tasks[first], tasks[k])
        decreases rest
      {
        var k :| k in rest;
        rest := rest - {k};
        if Before(tasks[k], tasks[first]) {
          first := k;
        }
      }
    }

    /** The conditions `claim_next_task` tests on one row. */
    method MayOffer(task: Task, runningGoals: set<Id>, assignments: map<Id, Id>) returns (ok: bool)
      requires task.key in tasks && tasks[task.key] == task
      requires runningGoals == set g | g in goals && goals[g].Active?
      ensures ok <==> Offered(State(), task.key, assignments)
    {
      if task.key.goal !in runningGoals || !task.status.Pending? || task.taskType !in assignments {
        return false;
      }
      ok := DependenciesSucceeded(task);
      if ok {
        ok := !HasLiveClaim(State(), task.key);
      }
    }

    /** The scan of `claim_next_task`: the first row it may offer, if any. */
    method ScanForOffer(assignments: map<Id, Id>) returns (found: Option<TaskKey>)
      requires Valid()
      ensures found.Some? ==> FirstOffered(State(), found.value, assignments)
      ensures found.None? ==> forall k :: k in tasks ==> !Offered(State(), k, assignments)
    {
      var runningGoals := set g | g in goals && goals[g].Active?;
      var rows := OrderedTasks();
      for i := 0 to |rows|
        invariant forall j :: 0 <= j < i ==> !Offered(State(), rows[j].key, assignments)
      {
        var offer := MayOffer(rows[i], runningGoals, assignments);
        if offer {
          FirstRowOffered(State(), rows, i, assignments);
          return Some(rows[i].key);
        }
      }
      NoRowOffered(State(), rows, assignments);
      found := None;
    }

    /** `claim_next_task`: claims what `claim_task` would grant first in queue order. */
    method ClaimNextTask(workerId: Id, sessionId: Id, assignments: map<Id, Id>, claimId: Id, now: Instant, lease: int)
      returns (r: Result<Option<TaskClaim>>)
      requires Valid()
      modifies this, outbox
      ensures Valid()
      ensures Txn(State(), r) == Spec.ClaimNextTask(old(State()), workerId, sessionId, assignments, claimId, now, lease)
    {
      if assignments == map[] {
        return Err(InvalidValue);
      }
      var saved := State();
      var session := RequireSession(saved, workerId, sessionId, now);
      if session.Err? {
        return Err(session.error);
      }
      if !(assignments.Keys <= session.value.capabilities) {
        return Err(InvalidValue);
      }
      var found := ScanForOffer(assignments);
      if found.None? {
        return Ok(None);
      }
      var key := found.value;
      forall other | FirstOffered(saved, other, assignments) ensures other == key {
        FirstOfferedUnique(saved, other, key, assignments);
      }
      var agentId := assignments[tasks[key].taskType];
      OpenClaimKeepsKeys(saved, session.value, key, agentId, claimId, now, lease);
      var created := CreateClaimLocked(session.value, key, agentId, claimId, now, lease);
      if created.Err? {
        Rollback(saved);
        return Err(created.error);
      }
      r := Ok(Some(created.value));
    }

    // -------------------------------------------------------------- fenced mutations

    method RenewClaim(claimId: Id, workerId: Id, sessionId: Id, token: int, now: Instant, lease: int)
      returns (r: Result<TaskClaim>)
      requires Valid()
      modifies this
      ensures Valid()
      ensures Txn(State(), r) == Spec.RenewClaim(old(State()), claimId, workerId, sessionId, token, now, lease)
    {
      r := Authorize(State(), claimId, workerId, sessionId, token, now);
      if r.Err? {
        return;
      }
      r := r.value.Renew(now, lease);
      if r.Ok? {
        claims := claims[claimId := r.value];
      }
    }

    /** Hands a running task back to the queue. */
    method SurrenderTask(key: TaskKey)
      modifies this`tasks
      ensures tasks == if key in old(tasks) && old(tasks)[key].status.Running?
                       then old(tasks)[key := old(tasks)[key].(status := Pending, assignedAgent := None)]
                       else old(tasks)
    {
      if key in tasks && tasks[key].status.Running? {
        tasks := tasks[key := tasks[key].(status := Pending, assignedAgent := None)];
      }
    }

    method ReleaseClaim(claimId: Id, workerId: Id, sessionId: Id, token: int, now: Instant)
      returns (r: Result<TaskClaim>)
      requires Valid()
      modifies this
      ensures Valid()
      ensures Txn(State(), r) == Spec.ReleaseClaim(old(State()), claimId, workerId, sessionId, token, now)
    {
      r := Authorize(State(), claimId, workerId, sessionId, token, now);
      if r.Err? {
        return;
      }
      r := r.value.Finish(Released, now);
      if r.Err? {
        return;
      }
      claims := claims[claimId := r.value];
      SurrenderTask(r.value.key);
    }

    /** `pause_claim_for_approval`: the approval is written before the ownership
        re-check, so a late refusal must undo it. */
    method PauseClaimForApproval(claim: TaskClaim, approval: Approval, now: Instant) returns (r: Result<TaskClaim>)
      requires Valid()
      modifies this, outbox
      ensures Valid()
      ensures Txn(State(), r) == Spec.PauseClaim(old(State()), claim, approval, now)
    {
      var saved := State();
      r := Authorize(saved, claim.claimId, claim.workerId, claim.sessionId, claim.token, now);
      if r.Err? {
        return;
      }
      var current := r.value;
      if approval.key != current.key || !approval.status.Requested? {
        return Err(InvalidValue);
      }
      if approval.approvalId in approvals {
        if approvals[approval.approvalId] != approval {
          return Err(InvalidValue);
        }
      } else if ApprovalRowTaken(saved, approval) {
        return Err(IntegrityError);
      } else {
        approvals := approvals[approval.approvalId := approval];
      }
      ghost var noted := State();
      assert noted == saved.(approvals := saved.approvals[approval.approvalId := approval]);
      PauseIgnoresOwnApproval(saved, current, claim.claimId, approval, now);
      r := PauseLocked(current, claim.claimId, approval, now);
      if r.Err? {
        Rollback(saved);
      }
    }

    /** The ownership re-check and the writes of a pause. */
    method PauseLocked(current: TaskClaim, claimId: Id, approval: Approval, now: Instant) returns (r: Result<TaskClaim>)
      requires Valid() && claimId in claims && claims[claimId] == current
      requires approval.approvalId in approvals && approvals[approval.approvalId] == approval
      modifies this
      ensures r == PauseOwned(old(State()), current, claimId, approval, now).result
      ensures r.Ok? ==> Valid() && State() == PauseOwned(old(State()), current, claimId, approval, now).store
    {
      if current.key !in tasks || current.key.goal !in goals
         || !tasks[current.key].status.Running? || tasks[current.key].assignedAgent != Some(current.agentId)
         || !goals[current.key.goal].Active? {
        return Err(StaleClaim);
      }
      r := current.Finish(Released, now);
      if r.Err? {
        return;
      }
      claims := claims[claimId := r.value];
      SurrenderTask(current.key);
      goals := goals[current.key.goal := Paused];
    }

    /** `save_approval`, with which the tool gateway records a request. */
    method SaveApproval(approval: Approval) returns (r: Result<()>)
      requires Valid()
      modifies this`approvals
      ensures Valid()
      ensures Txn(State(), r) == Spec.SaveApproval(old(State()), approval)
    {
      var id := approval.approvalId;
      if id in approvals {
        var current := approvals[id];
        if current == approval {
          assert approvals == approvals[id := approval];
          return Ok(());
        }
        if !Decides(current, approval) {
          return Err(InvalidValue);
        }
      } else if ApprovalRowTaken(State(), approval) {
        return Err(IntegrityError);
      }
      approvals := approvals[id := approval];
      r := Ok(());
    }

    /** `save_approval_resolution`, with the goal state `resolve_approval` asks for. */
    method SaveApprovalResolution(approvalId: Id, approved: bool) returns (r: Result<Approval>)
      requires Valid()
      modifies this
      ensures Valid()
      ensures Txn(State(), r) == Spec.ResolveApproval(old(State()), approvalId, approved)
    {
      if approvalId !in approvals || approvals[approvalId].key.goal !in goals {
        return Err(MissingRecord);
      }
      var approval := approvals[approvalId];
      if !goals[approval.key.goal].Paused? || !approval.status.Requested? {
        return Err(InvalidValue);
      }
      var resolved := approval.(status := if approved then Approved else Rejected);
      approvals := approvals[approvalId := resolved];
      goals := goals[approval.key.goal := if approved then Active else GoalFailed];
      r := Ok(resolved);
    }

    // -------------------------------------------------------------- reaping

    /** `reap_expired_claims`: a loop over the active claims that rewrites the
        expired ones and their tasks. */
    method ReapExpiredClaims(now: Instant, remote: map<TaskKey, RemoteState>) returns (r: Result<set<Id>>)
      requires Valid()
      modifies this, outbox
      ensures Valid()
      ensures Txn(State(), r) == Spec.ReapExpired(old(State()), now, remote)
    {
      var saved := State();
      ghost var done;
      r, done := ReapLoop(now, remote, saved);
      if r.Err? {
        Rollback(saved);
      } else {
        ReapingDone(saved, done, r.value, now);
        ReapAll(saved, State(), done, now, remote);
        ReapKeepsKeys(saved, now, remote);
      }
    }

    method ReapLoop(now: Instant, remote: map<TaskKey, RemoteState>, ghost saved: Store)
      returns (r: Result<set<Id>>, ghost done: set<Id>)
      requires Valid() && saved == State()
      modifies this`claims, this`tasks
      ensures r.Err? ==> ReapExpired(saved, now, remote) == Abort(saved, r.error)
      ensures r.Ok? ==> ReapedSoFar(saved, State(), done, now, remote) && Reaping(saved, {}, done, r.value, now)
    {
      var expired: set<Id> := {};
      var active := claims;
      var rows := set c | c in active && active[c].status.Live?;
      done := {};
      ReapNone(saved, now, remote);
      while rows != {}
        invariant ReapedSoFar(saved, State(), done, now, remote) && Reaping(saved, rows, done, expired, now)
        decreases rows
      {
        var c :| c in rows;
        ReapingStep(saved, rows, done, expired, c, now);
        rows := rows - {c};
        var visited := ReapRow(c, active[c], now, remote, saved, done);
        if visited.Err? {
          return Err(visited.error), done;
        }
        if visited.value {
          expired := expired + {c};
        }
        done := done + {c};
      }
      r := Ok(expired);
    }

    /** One turn of the reaper's loop: answers whether the claim had expired. */
    method ReapRow(c: Id, claim: TaskClaim, now: Instant, remote: map<TaskKey, RemoteState>, ghost saved: Store,
                   ghost done: set<Id>)
      returns (r: Result<bool>)
      requires ReapedSoFar(saved, State(), done, now, remote)
      requires c in saved.claims && c !in done && saved.claims[c] == claim && claim.status.Live?
      modifies this`claims, this`tasks
      ensures r.Err? ==> ReapExpired(saved, now, remote) == Abort(saved, r.error)
      ensures r.Ok? ==> ReapedSoFar(saved, State(), done + {c}, now, remote)
      ensures r.Ok? ==> (r.value <==> Reapable(claim, now)) && (r.value ==> claim.acquiredAt <= now)
    {
      if !Reapable(claim, now) {
        ReapSkips(saved, State(), done, c, now, remote);
        return Ok(false);
      }
      var ended := claim.Finish(Expired, now);
      if ended.Err? {
        ReapRefused(saved, c, now, remote);
        return Err(ended.error);
      }
      ReapStep(saved, State(), done, c, now, remote);
      claims := claims[c := ended.value];
      tasks := RecoverTask(tasks, claim.key, remote);
      r := Ok(true);
    }

    // -------------------------------------------------------------- committing

    /** The enqueue loop of a commit: all intents, or the first refusal. */
    method EnqueueAllLocked(messages: seq<OutboxMessage>) returns (r: Result<()>)
      requires outbox.Valid()
      modifies outbox
      ensures outbox.Valid()
      ensures match EnqueueAll(old(outbox.rows), messages)
              case Ok(t) => r.Ok? && outbox.rows == t
              case Err(e) => r == Err(e)
    {
      for i := 0 to |messages|
        invariant outbox.Valid()
        invariant EnqueueAll(outbox.rows, messages[i..]) == EnqueueAll(old(outbox.rows), messages)
      {
        assert messages[i..][1..] == messages[i + 1..];
        var stored := outbox.EnqueueLocked(messages[i]);
        if stored.Err? {
          return Err(stored.error);
        }
      }
      r := Ok(());
    }

    /** `_reconcile_goal_locked`. */
    method ReconcileGoalLocked(committed: Task) returns (r: Result<()>)
      modifies this`goals
      ensures match ReconcileGoal(old(State()), committed)
              case Ok(status) => r.Ok? && goals == old(goals)[committed.key.goal := status]
              case Err(e) => r == Err(e) && goals == old(goals)
    {
      var goal := committed.key.goal;
      if goal !in goals || !goals[goal].Active? {
        return Err(StaleClaim);
      }
      var target: Option<GoalStatus> := None;
      if committed.status.Failed? {
        target := Some(GoalFailed);
      } else if committed.status.Blocked? {
        target := Some(GoalBlocked);
      } else if committed.status.Succeeded? {
        if AllSucceeded(tasks, goal) {
          target := Some(GoalSucceeded);
        }
      }
      if target.Some? {
        var updated := TransitionGoal(goals[goal], target.value);
        goals := goals[goal := updated.value];
      }
      r := Ok(());
    }

    /** `commit_claim_outcome`: artifact, attempt, review, outbox intents, task,
        goal and claim change together or not at all. */
    method CommitClaimOutcome(claim: TaskClaim, o: Outcome, now: Instant) returns (r: Result<TaskClaim>)
      requires Valid()
      modifies this, outbox
      ensures Valid()
      ensures Txn(State(), r) == Spec.CommitOutcome(old(State()), claim, o, now)
    {
      var saved := State();
      r := Authorize(saved, claim.claimId, claim.workerId, claim.sessionId, claim.token, now);
      if r.Err? {
        return;
      }
      var current := r.value;
      if !OutcomeConsistent(current, o) {
        return Err(InvalidValue);
      }
      if current.key !in tasks || !tasks[current.key].status.Running?
         || tasks[current.key].assignedAgent != Some(current.agentId) {
        return Err(StaleClaim);
      }
      if !OutcomeRowsFit(saved, o) {
        return Err(IntegrityError);
      }
      r := CommitLocked(current, claim.claimId, o, now);
      if r.Err? {
        Rollback(saved);
      }
    }

    /** The writes of a commit, in statement order, after all identity checks. */
    method CommitLocked(current: TaskClaim, claimId: Id, o: Outcome, now: Instant) returns (r: Result<TaskClaim>)
      requires Valid() && o.task.key == current.key && current.key in tasks
      requires claimId in claims && claims[claimId] == current
      modifies this, outbox
      ensures r.Ok? ==> Valid()
      ensures var s := old(State());
              match EnqueueAll(s.outbox, o.messages)
              case Err(e) => r == Err(e)
              case Ok(table) =>
                var s' := WithRecords(s, o, table);
                match ReconcileGoal(s', o.task)
                case Err(e) => r == Err(e)
                case Ok(status) =>
                  match current.Finish(Committed, now)
                  case Err(e) => r == Err(e)
                  case Ok(committed) =>
                    && r == Ok(committed)
                    && State() == s'.(goals := s.goals[o.task.key.goal := status],
                      claims := s.claims[claimId := committed])
    {
      if o.artifact.Some? {
        artifacts := artifacts[o.artifact.value.artifactId := o.artifact.value];
      }
      attempts := attempts[o.attempt.attemptId := o.attempt];
      reviews := reviews[o.review.reviewId := o.review];
      var queued := EnqueueAllLocked(o.messages);
      if queued.Err? {
        return Err(queued.error);
      }
      tasks := tasks[o.task.key := o.task];
      assert State() == WithRecords(old(State()), o, outbox.rows);
      var reconciled := ReconcileGoalLocked(o.task);
      if reconciled.Err? {
        return Err(reconciled.error);
      }
      r := current.Finish(Committed, now);
      if r.Ok? {
        claims := claims[claimId := r.value];
      }
    }

    // -------------------------------------------------------------- unfenced writes

    /** `save_goal`: an upsert without any check. */
    method SaveGoal(goal: Id, status: GoalStatus)
      requires Valid()
      modifies this`goals
      ensures Valid() && State() == old(State()).(goals := old(goals)[goal := status])
    {
      goals := goals[goal := status];
    }

    /** `save_tasks`: checks and writes task by task, and undoes all of it when
        one of them is under an active claim. */
    method SaveTasks(values: seq<Task>) returns (r: Result<()>)
      requires Valid()
      modifies this, outbox
      ensures Valid()
      ensures Txn(State(), r) == Spec.SaveTasks(old(State()), values)
    {
      var saved := State();
      for i := 0 to |values|
        invariant State() == saved.(tasks := tasks) && Valid()
        invariant Upsert(tasks, values[i..]) == Upsert(saved.tasks, values)
        invariant forall j :: 0 <= j < i ==> !HasLiveClaim(saved, values[j].key)
      {
        assert values[i..][1..] == values[i + 1..];
        assert HasLiveClaim(State(), values[i].key) <==> HasLiveClaim(saved, values[i].key);
        if HasLiveClaim(State(), values[i].key) {
          assert values[i] in values;
          Rollback(saved);
          return Err(StaleClaim);
        }
        tasks := tasks[values[i].key := values[i]];
      }
      r := Ok(());
    }
  }
}
