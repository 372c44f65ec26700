/** What an acyclic plan buys the scheduler: while work remains there is always
    a task to claim, and discovery finds it. */
module SchedulerProgress {
  import opened Domain
  import opened Scheduler
  import opened Store
  import opened StoreInvariant
  import opened SchedulerRuns
  import opened SchedulerSafety
  import opened SchedulerTheorems
  import TaskGraph

  // ---------------------------------------------------------------- granting a claim

  /** `claim_task` grants exactly this: a pending task of a running goal whose
      dependencies have succeeded and that nobody holds, to a live session that asks
      for a lease of at most a day. The uniqueness constraints never refuse it. */
  lemma ClaimGrantedExactly(s: Store, key: TaskKey, workerId: Id, sessionId: Id, agentId: Id, claimId: Id,
                            now: Instant, lease: int)
    requires RowsKeyed(s) && Fenced(s) && claimId !in s.claims
    ensures
      var r := ClaimTask(s, key, workerId, sessionId, agentId, claimId, now, lease).result;
      r.Ok? && r.value.Some? <==>
        && SessionLives(s, workerId, sessionId, now) && 1 <= lease <= 86_400
        && key.goal in s.goals && s.goals[key.goal].Active?
        && key in s.tasks && s.tasks[key].status.Pending?
        && (forall d :: d in s.tasks[key].dependencies ==>
              TaskKey(key.goal, d) in s.tasks && s.tasks[TaskKey(key.goal, d)].status.Succeeded?)
        && forall c :: c in s.claims && s.claims[c].key == key ==> !s.claims[c].status.Live?
  {
  }

  /** In any store a grant also needs what the schema demands: an identifier and a token
      that no claim has. */
  lemma GrantNeedsNewRow(s: Store, key: TaskKey, workerId: Id, sessionId: Id, agentId: Id, claimId: Id, now: Instant,
                         lease: int)
    ensures
      var r := ClaimTask(s, key, workerId, sessionId, agentId, claimId, now, lease).result;
      r.Ok? && r.value.Some? ==>
        && claimId !in s.claims && r.value.value.token >= 1
        && forall c :: c in s.claims && s.claims[c].key == key ==> s.claims[c].token != r.value.value.token
  {
  }

  /** What a grant leaves: a claim under the next token that runs out after the
      lease, and the task running for its agent; a refusal leaves nothing. */
  lemma GrantLeaves(s: Store, key: TaskKey, workerId: Id, sessionId: Id, agentId: Id, claimId: Id, now: Instant,
                    lease: int)
    requires RowsKeyed(s)
    ensures
      var t := ClaimTask(s, key, workerId, sessionId, agentId, claimId, now, lease);
      if t.result.Ok? && t.result.value.Some? then
        var token := if key in s.fences then s.fences[key] + 1 else 1;
        var claim := TaskClaim(claimId, key, workerId, sessionId, agentId, token, now, now, now + lease, Live, None);
        && key in s.tasks && t.result.value.value == claim
        && t.store == s.(fences := s.fences[key := token],
                         tasks := s.tasks[key := s.tasks[key].(status := Running, assignedAgent := Some(agentId))],
                         claims := s.claims[claimId := claim])
      else t.store == s
  {
  }

  // ---------------------------------------------------------------- a ready task exists

  /** A goal with work left, nothing in flight and nothing blocked. */
  predicate Idle(s: Store, goal: Id) {
    && goal in s.goals && s.goals[goal].Active?
    && forall k :: k in s.tasks && k.goal == goal ==> !HasLiveClaim(s, k) && !s.tasks[k].status.Blocked?
  }

  lemma IdleTaskIsOpenOrDone(s: Store, goal: Id, k: TaskKey)
    requires Owned(s) && GoalsAgree(s) && Idle(s, goal) && k in s.tasks && k.goal == goal
    ensures s.tasks[k].status.Pending? || s.tasks[k].status.Succeeded?
  {
  }

  lemma IdleGoalHasOpenTask(s: Store, goal: Id)
    requires Owned(s) && Planned(s) && GoalsAgree(s) && Idle(s, goal)
    ensures exists k :: k in s.tasks && k.goal == goal && s.tasks[k].status.Pending?
  {
    assert HasTasks(s, goal);
    var k :| k in s.tasks && k.goal == goal && !s.tasks[k].status.Succeeded?;
    IdleTaskIsOpenOrDone(s, goal, k);
  }

  /** The first pending task of a topological order has only succeeded
      dependencies. */
  lemma {:induction false} FirstPendingIsReady(s: Store, goal: Id, order: seq<Id>, n: nat) returns (key: TaskKey)
    requires RowsKeyed(s) && Owned(s) && GoalsAgree(s) && Idle(s, goal)
    requires TaskGraph.Topological(PlanGraph(s.tasks, goal), order) && n <= |order|
    requires exists i ::
               0 <= i < n && TaskKey(goal, order[i]) in s.tasks && s.tasks[TaskKey(goal, order[i])].status.Pending?
    ensures key.goal == goal && Claimable(s, key)
  {
    if exists i ::
         0 <= i < n - 1 && TaskKey(goal, order[i]) in s.tasks && s.tasks[TaskKey(goal, order[i])].status.Pending?
    {
      key := FirstPendingIsReady(s, goal, order, n - 1);
    } else {
      key := TaskKey(goal, order[n - 1]);
      var g := PlanGraph(s.tasks, goal);
      forall d | d in s.tasks[key].dependencies
        ensures TaskKey(goal, d) in s.tasks && s.tasks[TaskKey(goal, d)].status.Succeeded?
      {
        assert order[n - 1] in g && d in g[order[n - 1]];
        assert TaskGraph.FollowsDependencies(g, order, n - 1);
        var j :| 0 <= j < n - 1 && order[j] == d;
        TaskGraph.ListsItsGraph(g, order, d);
        assert d in TaskIds(s.tasks, goal);
        var k :| k in s.tasks && k.goal == goal && k.task == d;
        assert TaskKey(goal, order[j]) in s.tasks;
        IdleTaskIsOpenOrDone(s, goal, k);
      }
    }
  }

  /** Progress: an idle goal always has a task that satisfies every condition of
      `claim_task`. */
  lemma ReadyTaskExists(s: Store, goal: Id) returns (key: TaskKey)
    requires RowsKeyed(s) && Owned(s) && Planned(s) && GoalsAgree(s) && Idle(s, goal)
    ensures key.goal == goal && Claimable(s, key)
  {
    IdleGoalHasOpenTask(s, goal);
    var k :| k in s.tasks && k.goal == goal && s.tasks[k].status.Pending?;
    assert HasTasks(s, goal) && Ordered(s.tasks, goal);
    var order :| TaskGraph.Topological(PlanGraph(s.tasks, goal), order);
    assert k.task in PlanGraph(s.tasks, goal);
    TaskGraph.ListsItsGraph(PlanGraph(s.tasks, goal), order, k.task);
    var i :| 0 <= i < |order| && order[i] == k.task;
    assert TaskKey(goal, order[i]) == k;
    key := FirstPendingIsReady(s, goal, order, |order|);
  }

  // ---------------------------------------------------------------- discovery finds it

  /** Among finitely many offered tasks one comes first. */
  lemma {:induction false} FirstOfferedExists(s: Store, assignments: map<Id, Id>, keys: set<TaskKey>, key: TaskKey)
    returns (first: TaskKey)
    requires RowsKeyed(s) && key in keys && keys <= s.tasks.Keys && Offered(s, key, assignments)
    ensures first in keys && Offered(s, first, assignments)
    ensures forall k :: k in keys && k != first && Offered(s, k, assignments) ==> Before(s.tasks[first], s.tasks[k])
    decreases |keys|
  {
    var rest := keys - {key};
    if other :| other in rest && Offered(s, other, assignments) {
      first := FirstOfferedExists(s, assignments, rest, other);
      if Before(s.tasks[key], s.tasks[first]) {
        first := key;
      }
    } else {
      first := key;
    }
  }

  /** The guard of discovery: a worker with a live session that offers to work
      within its capabilities. */
  predicate MayDiscover(s: Store, workerId: Id, sessionId: Id, assignments: map<Id, Id>, now: Instant) {
    && assignments != map[] && SessionLives(s, workerId, sessionId, now)
    && assignments.Keys <= s.sessions[workerId].capabilities
  }

  /** `claim_task` would grant the task to the agent assigned to its type. */
  predicate WouldGrant(s: Store, key: TaskKey, workerId: Id, sessionId: Id, assignments: map<Id, Id>, claimId: Id,
                       now: Instant, lease: int)
  {
    && key in s.tasks && s.tasks[key].taskType in assignments
    && var r := ClaimTask(s, key, workerId, sessionId, assignments[s.tasks[key].taskType], claimId, now, lease).result;
       r.Ok? && r.value.Some?
  }

  lemma OfferIsGrant(s: Store, key: TaskKey, workerId: Id, sessionId: Id, assignments: map<Id, Id>, claimId: Id,
                     now: Instant, lease: int)
    requires RowsKeyed(s) && Fenced(s) && claimId !in s.claims && ValidDuration(lease)
    requires SessionLives(s, workerId, sessionId, now)
    ensures WouldGrant(s, key, workerId, sessionId, assignments, claimId, now, lease) <==> Offered(s, key, assignments)
  {
  }

  /** Discovery refines `claim_task`: it grants something exactly when
      `claim_task` would grant some task of an assigned type, and then does what
      `claim_task` does with the first of them by goal, position and identifier;
      otherwise it answers None without touching the store. */
  lemma DiscoveryIsComplete(s: Store, workerId: Id, sessionId: Id, assignments: map<Id, Id>, claimId: Id,
                            now: Instant, lease: int)
    requires RowsKeyed(s) && Fenced(s) && claimId !in s.claims && ValidDuration(lease)
    requires MayDiscover(s, workerId, sessionId, assignments, now)
    ensures
      var t := ClaimNextTask(s, workerId, sessionId, assignments, claimId, now, lease);
      && t.result.Ok?
      && (t.result.value.Some? <==>
            exists k :: k in s.tasks && WouldGrant(s, k, workerId, sessionId, assignments, claimId, now, lease))
      && (t.result.value.None? ==> t.store == s)
      && (t.result.value.Some? ==>
            var key := t.result.value.value.key;
            && WouldGrant(s, key, workerId, sessionId, assignments, claimId, now, lease)
            && t == ClaimTask(s, key, workerId, sessionId, assignments[s.tasks[key].taskType], claimId, now, lease)
            && forall other ::
                 other != key && WouldGrant(s, other, workerId, sessionId, assignments, claimId, now, lease) ==>
                   ComesFirst(s, key, other))
  {
    var t := ClaimNextTask(s, workerId, sessionId, assignments, claimId, now, lease);
    forall key ensures WouldGrant(s, key, workerId, sessionId, assignments, claimId, now, lease) <==>
                       Offered(s, key, assignments)
    {
      OfferIsGrant(s, key, workerId, sessionId, assignments, claimId, now, lease);
    }
    if key :| key in s.tasks && Offered(s, key, assignments) {
      var first := FirstOfferedExists(s, assignments, s.tasks.Keys, key);
      assert FirstOffered(s, first, assignments);
      var chosen :| FirstOffered(s, chosen, assignments)
        && t == ClaimTask(s, chosen, workerId, sessionId, assignments[s.tasks[chosen].taskType], claimId, now, lease);
    }
  }

  /** The queue order, said of two rows. */
  predicate ComesFirst(s: Store, key: TaskKey, other: TaskKey)
    requires key in s.tasks && other in s.tasks
  {
    if key.goal != other.goal then key.goal < other.goal
    else if s.tasks[key].position != s.tasks[other].position then s.tasks[key].position < s.tasks[other].position
    else key.task < other.task
  }

  /** What discovery refuses: assignments beyond the session's capabilities or
      none at all, a session that is not alive, and, once there is something to
      grant, a lease out of range. */
  lemma DiscoveryRefusedExactly(s: Store, workerId: Id, sessionId: Id, assignments: map<Id, Id>, claimId: Id,
                                now: Instant, lease: int)
    requires RowsKeyed(s) && Fenced(s) && claimId !in s.claims
    ensures
      var answer := ClaimNextTask(s, workerId, sessionId, assignments, claimId, now, lease).result;
      && (answer == Err(WorkerSessionRejected) <==>
            assignments != map[] && !SessionLives(s, workerId, sessionId, now))
      && (answer == Err(InvalidValue) <==>
            || assignments == map[]
            || (SessionLives(s, workerId, sessionId, now)
                && (!(assignments.Keys <= s.sessions[workerId].capabilities)
                    || (!(1 <= lease <= 86_400)
                        && exists k :: k in s.tasks
                             && WouldGrant(s, k, workerId, sessionId, assignments, claimId, now, 1)))))
      && (answer.Err? ==> answer.error in {WorkerSessionRejected, InvalidValue})
  {
    if MayDiscover(s, workerId, sessionId, assignments, now) {
      forall key ensures WouldGrant(s, key, workerId, sessionId, assignments, claimId, now, 1) <==>
                         Offered(s, key, assignments)
      {
        OfferIsGrant(s, key, workerId, sessionId, assignments, claimId, now, 1);
      }
      if key :| key in s.tasks && Offered(s, key, assignments) {
        var first := FirstOfferedExists(s, assignments, s.tasks.Keys, key);
        assert FirstOffered(s, first, assignments);
        if ValidDuration(lease) {
          DiscoveryIsComplete(s, workerId, sessionId, assignments, claimId, now, lease);
        }
      }
    }
  }

  /** In every reachable state, a live worker whose assignments cover the task
      types of an idle goal never comes back from discovery empty-handed. */
  lemma DiscoveryNeverStarves(states: seq<System>, steps: seq<Step>, times: seq<Instant>, i: nat, goal: Id,
                              workerId: Id, sessionId: Id, assignments: map<Id, Id>, claimId: Id, now: Instant,
                              lease: int)
    requires Run(states, steps, times) && i < |states| && Idle(states[i].store, goal)
    requires claimId !in states[i].store.claims && ValidDuration(lease)
    requires MayDiscover(states[i].store, workerId, sessionId, assignments, now)
    requires forall k :: k in states[i].store.tasks && k.goal == goal ==>
      states[i].store.tasks[k].taskType in assignments
    ensures var r := ClaimNextTask(states[i].store, workerId, sessionId, assignments, claimId, now, lease).result;
            r.Ok? && r.value.Some?
  {
    RunKeepsInv(states, steps, times, i);
    var s := states[i].store;
    var key := ReadyTaskExists(s, goal);
    assert Offered(s, key, assignments);
    OfferIsGrant(s, key, workerId, sessionId, assignments, claimId, now, lease);
    DiscoveryIsComplete(s, workerId, sessionId, assignments, claimId, now, lease);
  }
}
