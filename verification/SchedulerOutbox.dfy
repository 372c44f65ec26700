/** The transactional outbox over whole runs of the scheduler: an intent is
    published with the success it belongs to, or not at all, and it is there until
    its delivery is over. */
module SchedulerOutbox {
  import opened Domain
  import opened Scheduler
  import opened Outbox
  import opened Store
  import opened StoreInvariant
  import opened StoreCommit
  import opened StoreTransactions
  import opened SchedulerRuns
  import opened SchedulerSafety
  import OutboxRuns

  predicate SameMessage(a: OutboxMessage, b: OutboxMessage) {
    SameIntent(a, b) && SameContent(a, b)
  }

  // ---------------------------------------------------------------- what one step does to the outbox

  /** A row keeps its intent and content, or a purge deletes it when its delivery is over. */
  predicate Stays(t: Table, t': Table, id: Id) {
    id in t ==> if id in t' then SameMessage(t'[id], t[id]) else OutboxRuns.Closed(t[id])
  }

  lemma ChangeKeepsRow(t: Table, t': Table, change: OutboxRuns.Step, id: Id)
    requires WellKeyed(t) && OutboxRuns.Changes(t, t', change)
    ensures Stays(t, t', id) && (id in t && id !in t' ==> change.PurgeStep?)
    ensures id in t' && id !in t ==> change.Publish? && t'[id] == change.message
  {
  }

  /** The step is a submission, and it is accepted. */
  ghost predicate Accepted(sys: System, step: Step, now: Instant) {
    && step.Commit? && step.claimId in sys.flights && sys.flights[step.claimId].attemptNo.Some?
    && var f := sys.flights[step.claimId];
       CommitOutcome(sys.store, f.claim, SubmissionOf(f, step), now).result.Ok?
  }

  ghost function Submitted(sys: System, step: Step): seq<OutboxMessage>
    requires step.Commit? && step.claimId in sys.flights && sys.flights[step.claimId].attemptNo.Some?
  {
    SubmissionOf(sys.flights[step.claimId], step).messages
  }

  /** Only accepted submissions and the outbox's own transactions touch it. */
  ghost predicate Touches(sys: System, step: Step, now: Instant, t': Table) {
    if Accepted(sys, step, now) then Publishes(sys.store.outbox, t', Submitted(sys, step))
    else if step.Dispatch? then t' == sys.store.outbox || OutboxRuns.Changes(sys.store.outbox, t', step.change)
    else t' == sys.store.outbox
  }

  lemma StepTouches(sys: System, step: Step, now: Instant)
    requires RowsKeyed(sys.store) && WellKeyed(sys.store.outbox)
    ensures Touches(sys, step, now, StoreAfter(sys, step, now).outbox)
  {
    if step.Commit? {
      CommitTouches(sys, step, now);
    } else if ByWorker(step) {
      WorkerTouchesNothing(sys.store, step, now);
    } else if ByPlanner(step) {
      PlannerTouchesNothing(sys.store, step);
    } else {
      OperatorTouches(sys, step, now);
    }
  }

  lemma PlannerTouchesNothing(s: Store, step: Step)
    requires ByPlanner(step)
    ensures PlannerStore(s, step).outbox == s.outbox
  {
  }

  lemma OperatorTouches(sys: System, step: Step, now: Instant)
    requires !ByWorker(step) && !ByPlanner(step) && !step.Commit?
    ensures Touches(sys, step, now, OperatorStore(sys.store, step, now).outbox)
  {
  }

  lemma CommitTouches(sys: System, step: Step, now: Instant)
    requires RowsKeyed(sys.store) && WellKeyed(sys.store.outbox) && step.Commit?
    ensures Touches(sys, step, now, SubmittedStore(sys, step, now).outbox)
  {
    if step.claimId in sys.flights && sys.flights[step.claimId].attemptNo.Some? {
      var f := sys.flights[step.claimId];
      CommitSettles(sys.store, f.claim, SubmissionOf(f, step), now);
    }
  }

  lemma WorkerTouchesNothing(s: Store, step: Step, now: Instant)
    requires ByWorker(step)
    ensures WorkerStore(s, step, now).outbox == s.outbox
  {
    match step
    case Register(_, _, _, _) =>
    case Heartbeat(_, _, _) =>
    case Claim(key, w, ses, agent, id, lease) => ClaimTaskChange(s, key, w, ses, agent, id, now, lease);
    case ClaimNext(w, ses, assignments, id, lease) => ClaimNextTaskChange(s, w, ses, assignments, id, now, lease);
    case Renew(_, _, _, _, _) =>
    case Release(_, _, _, _) =>
    case Pause(_, _) =>
  }

  lemma RunTouches(states: seq<System>, steps: seq<Step>, times: seq<Instant>, i: nat)
    requires Run(states, steps, times) && i < |steps|
    ensures WellKeyed(states[i].store.outbox)
    ensures Touches(states[i], steps[i], times[i], states[i + 1].store.outbox)
  {
    RunKeepsInv(states, steps, times, i);
    assert Took(states, steps, times, i);
    StepTouches(states[i], steps[i], times[i]);
  }

  // ---------------------------------------------------------------- an intent stays

  /** Step `k` purges the row, whose delivery was over. */
  predicate Purged(states: seq<System>, steps: seq<Step>, k: nat, id: Id)
    requires |states| == |steps| + 1 && k < |steps|
  {
    && id in states[k].store.outbox && OutboxRuns.Closed(states[k].store.outbox[id])
    && steps[k].Dispatch? && steps[k].change.PurgeStep?
  }

  lemma RowStays(states: seq<System>, steps: seq<Step>, times: seq<Instant>, i: nat, id: Id)
    requires Run(states, steps, times) && i < |steps| && id in states[i].store.outbox
    ensures
      var t, t' := states[i].store.outbox, states[i + 1].store.outbox;
      if id in t' then SameMessage(t'[id], t[id]) else Purged(states, steps, i, id)
  {
    RunTouches(states, steps, times, i);
    var t, t' := states[i].store.outbox, states[i + 1].store.outbox;
    if steps[i].Dispatch? && t' != t {
      ChangeKeepsRow(t, t', steps[i].change, id);
    }
  }

  lemma PublishedWithIt(states: seq<System>, steps: seq<Step>, times: seq<Instant>, i: nat, m: OutboxMessage)
    returns (id: Id)
    requires Run(states, steps, times) && i < |steps|
    requires Accepted(states[i], steps[i], times[i]) && m in Submitted(states[i], steps[i])
    ensures id in states[i + 1].store.outbox && SameMessage(states[i + 1].store.outbox[id], m)
  {
    RunTouches(states, steps, times, i);
    var t' := states[i + 1].store.outbox;
    assert Published(t', m);
    id :| id in t' && SameIntent(t'[id], m) && SameContent(t'[id], m);
  }

  /** The outbox of state `j` holds the message, or a purge since `i` has deleted it. */
  ghost predicate HeldOrPurged(states: seq<System>, steps: seq<Step>, i: nat, j: nat, id: Id, m: OutboxMessage)
    requires |states| == |steps| + 1 && i <= j < |states|
  {
    || (id in states[j].store.outbox && SameMessage(states[j].store.outbox[id], m))
    || exists k :: i <= k < j && Purged(states, steps, k, id)
  }

  /** Between any two states of a run an intent is still there, with its content,
      unless a purge has deleted it after its delivery was over. */
  lemma {:induction false} IntentStays(states: seq<System>, steps: seq<Step>, times: seq<Instant>, i: nat, j: nat,
                                       id: Id)
    requires Run(states, steps, times) && i <= j < |states| && id in states[i].store.outbox
    ensures HeldOrPurged(states, steps, i, j, id, states[i].store.outbox[id])
    decreases j
  {
    if i < j {
      IntentStays(states, steps, times, i, j - 1, id);
      if k :| i <= k < j - 1 && Purged(states, steps, k, id) {
        assert i <= k < j;
      } else {
        RowStays(states, steps, times, j - 1, id);
      }
    }
  }

  /** A success publishes its intents: in every state after an accepted submission
      each of them is in the outbox, unless it was purged after its delivery was over. */
  lemma SuccessPublishes(states: seq<System>, steps: seq<Step>, times: seq<Instant>, i: nat, j: nat, m: OutboxMessage)
    returns (id: Id)
    requires Run(states, steps, times) && i < j < |states|
    requires Accepted(states[i], steps[i], times[i]) && m in Submitted(states[i], steps[i])
    ensures id in states[i + 1].store.outbox && SameMessage(states[i + 1].store.outbox[id], m)
    ensures HeldOrPurged(states, steps, i + 1, j, id, m)
  {
    id := PublishedWithIt(states, steps, times, i, m);
    IntentStays(states, steps, times, i + 1, j, id);
    SameMessageHeld(states, steps, i + 1, j, id, states[i + 1].store.outbox[id], m);
  }

  lemma SameMessageHeld(states: seq<System>, steps: seq<Step>, i: nat, j: nat, id: Id, a: OutboxMessage,
                        b: OutboxMessage)
    requires |states| == |steps| + 1 && i <= j < |states| && HeldOrPurged(states, steps, i, j, id, a)
      && SameMessage(a, b)
    ensures HeldOrPurged(states, steps, i, j, id, b)
  {
  }

  // ---------------------------------------------------------------- an intent has an origin

  /** Step `k` put the message there: somebody published it by itself, or a worker
      submitted it with a result that made its task succeed. */
  ghost predicate Origin(states: seq<System>, steps: seq<Step>, times: seq<Instant>, k: nat, m: OutboxMessage)
    requires |states| == |steps| + 1 && |times| == |steps| && k < |steps|
  {
    || (steps[k].Dispatch? && steps[k].change.Publish? && SameMessage(m, steps[k].change.message))
    || (Accepted(states[k], steps[k], times[k])
        && (exists sent :: sent in Submitted(states[k], steps[k]) && SameMessage(m, sent))
        && SucceededAt(states[k + 1].store, states[k].flights[steps[k].claimId].task.key))
  }

  predicate SucceededAt(s: Store, key: TaskKey) {
    key in s.tasks && s.tasks[key].status.Succeeded?
  }

  lemma AcceptedIntentMeansSuccess(states: seq<System>, steps: seq<Step>, times: seq<Instant>, i: nat)
    requires Run(states, steps, times) && i < |steps|
    requires Accepted(states[i], steps[i], times[i]) && Submitted(states[i], steps[i]) != []
    ensures SucceededAt(states[i + 1].store, states[i].flights[steps[i].claimId].task.key)
  {
    RunKeepsInv(states, steps, times, i);
    assert Took(states, steps, times, i);
    var f := states[i].flights[steps[i].claimId];
    CommitSettles(states[i].store, f.claim, SubmissionOf(f, steps[i]), times[i]);
  }

  lemma NewRowHasOrigin(states: seq<System>, steps: seq<Step>, times: seq<Instant>, i: nat, id: Id)
    requires Run(states, steps, times) && i < |steps|
    requires id in states[i + 1].store.outbox && id !in states[i].store.outbox
    ensures Origin(states, steps, times, i, states[i + 1].store.outbox[id])
  {
    RunTouches(states, steps, times, i);
    var t, t' := states[i].store.outbox, states[i + 1].store.outbox;
    if Accepted(states[i], steps[i], times[i]) {
      assert t'[id] in Submitted(states[i], steps[i]);
      AcceptedIntentMeansSuccess(states, steps, times, i);
    } else {
      ChangeKeepsRow(t, t', steps[i].change, id);
    }
  }

  /** Nothing is published ahead of its success: every row of the outbox, in every
      state of every run, was published by itself or came with a task that succeeded. */
  lemma {:induction false} IntentsComeFromSuccess(states: seq<System>, steps: seq<Step>, times: seq<Instant>, j: nat,
                                                  id: Id)
    returns (k: nat)
    requires Run(states, steps, times) && j < |states| && id in states[j].store.outbox
    ensures k < j && Origin(states, steps, times, k, states[j].store.outbox[id])
  {
    assert j > 0;
    var t, t' := states[j - 1].store.outbox, states[j].store.outbox;
    if id in t {
      RowStays(states, steps, times, j - 1, id);
      k := IntentsComeFromSuccess(states, steps, times, j - 1, id);
      SameOrigin(states, steps, times, k, t[id], t'[id]);
    } else {
      NewRowHasOrigin(states, steps, times, j - 1, id);
      k := j - 1;
    }
  }

  lemma SameOrigin(states: seq<System>, steps: seq<Step>, times: seq<Instant>, k: nat, a: OutboxMessage,
                   b: OutboxMessage)
    requires |states| == |steps| + 1 && |times| == |steps| && k < |steps|
    requires Origin(states, steps, times, k, a) && SameMessage(b, a)
    ensures Origin(states, steps, times, k, b)
  {
    if Accepted(states[k], steps[k], times[k]) {
      var sent :| sent in Submitted(states[k], steps[k]) && SameMessage(a, sent);
      assert SameMessage(b, sent);
    }
  }

  // ---------------------------------------------------------------- approvals

  /** PRIMARY KEY(approval_id) and UNIQUE(fingerprint). */
  ghost predicate ApprovalsKeyed(approvals: map<Id, Approval>) {
    && (forall id :: id in approvals ==> approvals[id].approvalId == id)
    && (forall a, b :: a in approvals && b in approvals && SameCall(approvals[a], approvals[b]) ==> a == b)
  }

  predicate SameCall(a: Approval, b: Approval) {
    a.fingerprint == b.fingerprint
  }

  /** A row is added under a new fingerprint, or keeps its own. */
  predicate ApprovalWritten(approvals: map<Id, Approval>, approvals': map<Id, Approval>, approval: Approval) {
    && approvals' == approvals[approval.approvalId := approval]
    && if approval.approvalId in approvals then SameCall(approvals[approval.approvalId], approval)
       else forall id :: id in approvals ==> !SameCall(approvals[id], approval)
  }

  lemma WritingKeepsKeys(approvals: map<Id, Approval>, approvals': map<Id, Approval>, approval: Approval)
    requires ApprovalsKeyed(approvals) && ApprovalWritten(approvals, approvals', approval)
    ensures ApprovalsKeyed(approvals')
  {
    forall a, b | a in approvals' && b in approvals' && SameCall(approvals'[a], approvals'[b]) ensures a == b {
      if a in approvals && b in approvals {
        assert SameCall(approvals[a], approvals[b]);
      }
    }
  }

  ghost predicate ApprovalsStep(approvals: map<Id, Approval>, approvals': map<Id, Approval>) {
    approvals' == approvals || exists approval :: ApprovalWritten(approvals, approvals', approval)
  }

  lemma PauseWritesApproval(s: Store, claim: TaskClaim, approval: Approval, now: Instant)
    ensures ApprovalsStep(s.approvals, PauseClaim(s, claim, approval, now).store.approvals)
  {
    if PauseClaim(s, claim, approval, now).result.Ok? {
      assert ApprovalWritten(s.approvals, PauseClaim(s, claim, approval, now).store.approvals, approval);
    }
  }

  lemma RequestWritesApproval(s: Store, approval: Approval)
    ensures ApprovalsStep(s.approvals, SaveApproval(s, approval).store.approvals)
  {
    if SaveApproval(s, approval).result.Ok? {
      assert ApprovalWritten(s.approvals, SaveApproval(s, approval).store.approvals, approval);
    }
  }

  lemma ResolveWritesApproval(s: Store, id: Id, approved: bool)
    requires ApprovalsKeyed(s.approvals)
    ensures ApprovalsStep(s.approvals, ResolveApproval(s, id, approved).store.approvals)
  {
    var t := ResolveApproval(s, id, approved);
    if t.result.Ok? {
      assert ApprovalWritten(s.approvals, t.store.approvals, t.result.value);
    }
  }

  lemma WorkerStepApprovals(s: Store, step: Step, now: Instant)
    requires ByWorker(step)
    ensures ApprovalsStep(s.approvals, WorkerStore(s, step, now).approvals)
  {
    match step
    case Register(_, _, _, _) =>
    case Heartbeat(_, _, _) =>
    case Claim(key, w, ses, agent, id, lease) => ClaimTaskChange(s, key, w, ses, agent, id, now, lease);
    case ClaimNext(w, ses, assignments, id, lease) => ClaimNextTaskChange(s, w, ses, assignments, id, now, lease);
    case Renew(_, _, _, _, _) =>
    case Release(_, _, _, _) =>
    case Pause(claim, approval) => PauseWritesApproval(s, claim, approval, now);
  }

  lemma StepApprovals(sys: System, step: Step, now: Instant)
    requires WellKeyed(sys.store.outbox) && ApprovalsKeyed(sys.store.approvals)
    ensures ApprovalsStep(sys.store.approvals, StoreAfter(sys, step, now).approvals)
  {
    if step.Commit? {
      if step.claimId in sys.flights && sys.flights[step.claimId].attemptNo.Some? {
        var f := sys.flights[step.claimId];
        CommitChange(sys.store, f.claim, SubmissionOf(f, step), now);
      }
    } else if ByWorker(step) {
      WorkerStepApprovals(sys.store, step, now);
    } else if step.Request? {
      RequestWritesApproval(sys.store, step.approval);
    } else if step.Resolve? {
      ResolveWritesApproval(sys.store, step.approvalId, step.approved);
    }
  }

  /** In every state of every run, each tool call has at most one approval. */
  lemma {:induction false} OneApprovalPerCall(states: seq<System>, steps: seq<Step>, times: seq<Instant>, i: nat)
    requires Run(states, steps, times) && i < |states|
    ensures ApprovalsKeyed(states[i].store.approvals)
  {
    if i > 0 {
      OneApprovalPerCall(states, steps, times, i - 1);
      NextApprovals(states, steps, times, i - 1);
    }
  }

  lemma NextApprovals(states: seq<System>, steps: seq<Step>, times: seq<Instant>, i: nat)
    requires Run(states, steps, times) && i < |steps| && ApprovalsKeyed(states[i].store.approvals)
    ensures ApprovalsKeyed(states[i + 1].store.approvals)
  {
    RunKeepsInv(states, steps, times, i);
    assert Took(states, steps, times, i);
    StepApprovals(states[i], steps[i], times[i]);
    var before, after := states[i].store.approvals, states[i + 1].store.approvals;
    if after != before {
      var approval :| ApprovalWritten(before, after, approval);
      WritingKeepsKeys(before, after, approval);
    }
  }
}
