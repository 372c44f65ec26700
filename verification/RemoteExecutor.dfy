/** `A2ARemoteExecutor` (src/seed_society/a2a.py) for one task attempt, with a
    crash allowed at every save and every remote reply arbitrary. */
module RemoteExecutor {
  import opened Domain
  import opened Delegation
  import Policy

  /** How a call to the executor ends: with a result, an A2A error, the policy's
      denial, a ValueError of the status machine, or with the process. */
  datatype Exit =
    | Execution(content: Id)
    | ProtocolRaised
    | DeniedRaised
    | ValueRaised
    | Crashed

  /** How an operator's cancellation ends; `wrongly` marks an escaping ValueError. */
  datatype CancelExit =
    | Returned(record: DelegationRecord)
    | NotFound
    | NotCancelable
    | Refused(wrongly: bool)
    | Died

  /** The remote side: it may answer anything. The counters record how often it
      was actually contacted. */
  class RemoteAgent {
    ghost var sends: nat
    ghost var polls: nat
    ghost var cancels: nat

    constructor ()
      ensures sends == 0 && polls == 0 && cancels == 0
    {
      sends, polls, cancels := 0, 0, 0;
    }

    method SendMessage() returns (r: Reply)
      modifies this`sends
      ensures sends == old(sends) + 1
    {
      sends := sends + 1;
      r := *;
    }

    method GetTask() returns (r: Reply)
      modifies this`polls
      ensures polls == old(polls) + 1
      ensures !r.AmbiguousSubmission?
    {
      polls := polls + 1;
      r := *;
      if r.AmbiguousSubmission? {
        r := HttpError;
      }
    }

    method CancelTask() returns (r: Reply)
      modifies this`cancels
      ensures cancels == old(cancels) + 1
      ensures !r.AmbiguousSubmission?
    {
      cancels := cancels + 1;
      r := *;
      if r.AmbiguousSubmission? {
        r := HttpError;
      }
    }
  }

  /** What ends the polling of an accepted record: an answer to a poll, the budget or
      the time running out, after which the task is canceled, or the process itself. */
  datatype PollEnd =
    | Told(record: DelegationRecord, reply: Reply)
    | Spent(record: DelegationRecord, timedOut: bool, cancellation: Reply)
    | Lost

  datatype SaveOutcome = Saved | Died | Refused

  /** The delegations row of the attempt. */
  class DelegationRow {
    var row: Option<DelegationRecord>

    constructor ()
      ensures row == None
    {
      row := None;
    }

    /** `save_delegation`. The process may die before or after the write;
        a row of another delegation for the attempt refuses it. */
    method Save(r: DelegationRecord) returns (saved: SaveOutcome)
      modifies this
      ensures saved.Saved? ==> row == Some(r)
      ensures saved.Died? ==> row == old(row) || row == Some(r)
      ensures saved.Refused? ==> row == old(row) && row.Some? && !row.value.SameIdentity(r)
      ensures row != old(row) ==> old(row).None? || old(row).value.SameIdentity(r)
    {
      var diesBefore: bool := *;
      if diesBefore {
        return SaveOutcome.Died;
      }
      if row.Some? && !row.value.SameIdentity(r) {
        return SaveOutcome.Refused;
      }
      row := Some(r);
      var survives: bool := *;
      saved := if survives then Saved else SaveOutcome.Died;
    }
  }

  /** What the row says about the traffic of the attempt so far. */
  ghost predicate RowOk(row: Option<DelegationRecord>, sends: nat, polls: nat, maxPolls: int) {
    match row
    case None => sends == 0 && polls == 0
    case Some(r) =>
      && r.Consistent() && sends <= 1 && polls <= r.pollCount <= maxPolls
      && (r.status.Prepared? ==> sends == 0)
      && (sends == 0 ==> r.status.Prepared? || r.status.Submitting? || r.status.Unknown?)
      && (r.status.Prepared? || r.status.Submitting? ==> polls == 0 && r.remoteTaskId.None?)
      && (r.status.Interrupted? ==> r.remoteTaskId.Some?)
  }

  /** How the row may move: once stored it keeps its identity and its remote
      task, only counts up, and stays where it is once final. */
  ghost predicate RowEvolves(a: Option<DelegationRecord>, b: Option<DelegationRecord>) {
    a.Some? ==>
      && b.Some? && b.value.SameIdentity(a.value)
      && (a.value.remoteTaskId.Some? ==> b.value.remoteTaskId == a.value.remoteTaskId)
      && a.value.pollCount <= b.value.pollCount
      && (Final(a.value.status) ==> b == a)
  }

  lemma EvolvesOnward(a: Option<DelegationRecord>, b: Option<DelegationRecord>, c: Option<DelegationRecord>)
    requires RowEvolves(a, b) && RowEvolves(b, c)
    ensures RowEvolves(a, c)
  {
  }

  /** What may happen to one attempt's delegation: the worker starts over, with
      the record it would create, or an operator cancels. */
  datatype Act =
    | Restart(prepared: DelegationRecord, persisted: bool, size: int)
    | CancelRequest

  predicate Fresh(prepared: DelegationRecord) {
    prepared.status.Prepared? && prepared.pollCount == 0 && prepared.remoteTaskId.None?
  }

  /** Only a stored completed result is returned. */
  predicate Returns(row: Option<DelegationRecord>, exit: Exit) {
    exit.Execution? && row.Some? && row.value.status.Completed? && row.value.result == Some(exit.content)
  }

  predicate Cancelable(row: Option<DelegationRecord>) {
    row.Some? && (row.value.status == Accepted || row.value.status == Interrupted)
  }

  /** The record after an answer: what it reports, or failed if it is not understood. */
  predicate AnswerTaken(r: DelegationRecord, response: Response, r': DelegationRecord) {
    if Understood(r, response) then Reflects(r, response, r') else r' == r.(status := RemoteFailed)
  }

  /** A completed record's content is returned, any other raises an A2A error. */
  predicate Concludes(r: DelegationRecord, exit: Exit) {
    if r.status.Completed? then r.result.Some? && exit == Execution(r.result.value) else exit == ProtocolRaised
  }

  class A2ARemoteExecutor {
    const store: DelegationRow
    const client: RemoteAgent
    const limits: Policy.RuntimeLimits
    const requirePolicy: bool
    /** The attempt's decision, when there is a policy evaluator: the first one
        stored is the one that every later call is answered with. */
    const decision: Option<Policy.Decision>
    const modelId: Id

    /** The limits in force for this attempt. */
    function InForce(): Result<Policy.RuntimeLimits> {
      if decision.None? then Ok(limits) else Policy.LimitsFromDecision(limits, decision.value)
    }

    function PollBudget(): (n: int)
      ensures n >= 0 && n <= if limits.maxPolls < 0 then 0 else limits.maxPolls
      ensures decision.None? && limits.maxPolls >= 0 ==> n == limits.maxPolls
      ensures decision.Some? && decision.value.Allow? && limits.maxPolls >= 0 && decision.value.limits.Positive() ==>
        n <= decision.value.limits.maxPolls && (n == limits.maxPolls || n == decision.value.limits.maxPolls)
    {
      if InForce().Ok? && InForce().value.maxPolls >= 0 then InForce().value.maxPolls else 0
    }

    /** What policy and size allow to be sent: `persisted` is whether the decision
        can be read back, `size` the length of the encoded request. */
    predicate Permitted(persisted: bool, size: int) {
      && (if decision.Some? then persisted && decision.value.Allow? else !requirePolicy)
      && InForce().Ok? && size <= InForce().value.maxRequestBytes
    }

    ghost predicate Valid()
      reads this, store, client
    {
      && RowOk(store.row, client.sends, client.polls, PollBudget())
      && (store.row.Some? ==> InForce().Ok?)
    }

    constructor (limits: Policy.RuntimeLimits, requirePolicy: bool, decision: Option<Policy.Decision>, modelId: Id)
      ensures Valid() && fresh(store) && fresh(client)
      ensures this.limits == limits && this.requirePolicy == requirePolicy && this.decision == decision
      ensures store.row == None && client.sends == 0
    {
      this.limits, this.requirePolicy, this.decision, this.modelId := limits, requirePolicy, decision, modelId;
      store := new DelegationRow();
      client := new RemoteAgent();
    }

    /** `_apply_response` on the stored record: it saves the record that follows what
        the reply reports, or a failed one when the reply is not understood; a reply
        that the status machine refuses leaves the record alone. */
    method ApplyResponse(r: DelegationRecord, response: Response)
      returns (applied: Result<DelegationRecord>, crashed: bool)
      requires Valid() && store.row == Some(r) && client.sends == 1
      requires r.status.Submitting? || r.status.Accepted? || r.status.Interrupted?
      modifies store
      ensures Valid() && RowEvolves(old(store.row), store.row)
      ensures applied.Ok? ==> Reflects(r, response, applied.value)
      ensures applied.Ok? && !crashed ==> store.row == Some(applied.value)
      ensures applied.Err? && !crashed ==>
        store.row == if Understood(r, response) || r.status.Interrupted? then old(store.row)
                     else Some(r.(status := RemoteFailed))
      ensures applied == Interpret(r, response)
      ensures
        applied.Ok? <==>
          && Understood(r, response)
          && (r.status == Submitting ==> !Reports(response, Canceled))
          && (r.status == Interrupted ==> Reports(response, Canceled))
    {
      crashed := false;
      RepliesAreFollowed(r, response);
      applied := Interpret(r, response);
      if applied.Ok? {
        InterpretKeepsPromises(r, response);
        var saved := store.Save(applied.value);
        crashed := !saved.Saved?;
        return;
      }
      if applied.error.MissingRecord? && (r.status.Submitting? || r.status.Accepted?) {
        var failed := r.Advance(RemoteFailed, None, false, None);
        AdvanceKeepsPromises(r, RemoteFailed, None, false, None);
        var saved := store.Save(failed.value);
        crashed := !saved.Saved?;
      }
    }

    /** `_cancel_known_task`: stores the record that the answer leads to, and raises
        a ValueError instead of an A2A error exactly for the wrong answers. */
    method CancelKnownTask(r: DelegationRecord) returns (outcome: Cancellation, reply: Reply, crashed: bool)
      requires Valid() && store.row == Some(r) && client.sends == 1
      requires r.status.Accepted? || r.status.Interrupted?
      modifies store, client`cancels
      ensures Valid() && RowEvolves(old(store.row), store.row) && client.cancels == old(client.cancels) + 1
      ensures !crashed ==> outcome == Cancel(r, reply) && store.row == Some(outcome.record)
      ensures !crashed ==> (outcome.Escapes? <==> reply.Answered? && WrongAnswer(r, reply.response))
      ensures !crashed && r.status.Accepted? ==> !outcome.record.status.Accepted?
    {
      CancelIsSafe(r);
      crashed := false;
      reply := client.CancelTask();
      outcome := Cancel(r, reply);
      if !reply.Answered? {
        crashed := StoreFailure(r);
        return;
      }
      var applied;
      applied, crashed := ApplyResponse(r, reply.response);
      if crashed || applied == Err(InvalidValue) {
        return;
      }
      if applied.Err? {
        // the stored record is failed already; the same failure is saved again
        if r.status.Accepted? {
          var failed := r.Advance(RemoteFailed, None, false, None);
          var saved := store.Save(failed.value);
          crashed := !saved.Saved?;
        }
        return;
      }
      if !applied.value.status.Canceled? && !applied.value.status.Completed? {
        crashed := StoreFailure(applied.value);
      }
    }

    lemma CancelIsSafe(r: DelegationRecord)
      requires r.Consistent() && (r.status.Accepted? || r.status.Interrupted?)
      ensures forall reply :: (Cancel(r, reply).Escapes? <==> reply.Answered? && WrongAnswer(r, reply.response))
      ensures forall reply :: r.status.Accepted? ==> !Cancel(r, reply).record.status.Accepted?
    {
      forall reply ensures Cancel(r, reply).Escapes? <==> reply.Answered? && WrongAnswer(r, reply.response)
                   ensures r.status.Accepted? ==> !Cancel(r, reply).record.status.Accepted?
      {
        CancelEscapesExactly(r, reply);
        CancelKeepsPromises(r, reply);
      }
    }

    /** Marks a record failed, when its status allows it. */
    method StoreFailure(r: DelegationRecord) returns (crashed: bool)
      requires Valid() && store.row == Some(r) && client.sends == 1
      modifies store
      ensures Valid() && RowEvolves(old(store.row), store.row)
      ensures
        !crashed ==>
          var failed := r.Advance(RemoteFailed, None, false, None);
          store.row == Some(if failed.Ok? then failed.value else r)
    {
      crashed := false;
      var failed := r.Advance(RemoteFailed, None, false, None);
      if failed.Ok? {
        AdvanceKeepsPromises(r, RemoteFailed, None, false, None);
        var saved := store.Save(failed.value);
        crashed := !saved.Saved?;
      }
    }

    /** `cancel`: an operator's request, on whatever record is stored. The remote
        agent is asked exactly when the record is accepted or interrupted. */
    method CancelDelegation() returns (exit: CancelExit)
      requires Valid()
      modifies store, client`cancels
      ensures Valid() && RowEvolves(old(store.row), store.row)
      ensures client.cancels == old(client.cancels) + if Cancelable(old(store.row)) then 1 else 0
      ensures exit.NotFound? <==> old(store.row).None?
      ensures exit.Returned? ==>
                store.row == Some(exit.record) && (exit.record.status.Completed? || exit.record.status.Canceled?)
      ensures exit.NotCancelable? <==>
                old(store.row).Some? && !old(store.row).value.status.Completed? && !Cancelable(old(store.row))
      ensures !Cancelable(old(store.row)) ==> store.row == old(store.row)
      ensures old(store.row).Some? && old(store.row).value.status.Completed? ==> exit == Returned(old(store.row).value)
      ensures exit.Refused? && old(store.row).value.status.Accepted? ==> !store.row.value.status.Accepted?
    {
      if store.row.None? {
        return NotFound;
      }
      var r := store.row.value;
      if r.status.Completed? {
        return Returned(r);
      }
      if !(r.status.Accepted? || r.status.Interrupted?) || r.remoteTaskId.None? {
        return NotCancelable;
      }
      var outcome, _, crashed := CancelKnownTask(r);
      if crashed {
        return CancelExit.Died;
      }
      match outcome
      case Settled(canceled) => exit := Returned(canceled);
      case Fails(_) => exit := CancelExit.Refused(false);
      case Escapes(_) => exit := CancelExit.Refused(true);
    }

    /** What a poll's end leaves and raises. A failed exchange ends nothing, and
        neither does an answer that the task goes on; any other answer is followed. The
        task is canceled only when the polls, or the time, have run out. */
    ghost predicate EndsPolling(end: PollEnd, exit: Exit)
      reads store
    {
      match end
      case Lost => exit.Crashed?
      case Told(r, reply) =>
        && !reply.HttpError? && store.row.Some?
        && (if reply.Answered? then AnswerTaken(r, reply.response, store.row.value) && !store.row.value.status.Accepted?
            else store.row == Some(r))
        && Concludes(store.row.value, exit)
      case Spent(r, timedOut, reply) =>
        && (timedOut || r.pollCount == PollBudget())
        && (!exit.Crashed? ==>
              && store.row == Some(Cancel(r, reply).record) && !store.row.value.status.Accepted?
              && exit == if Cancel(r, reply).Escapes? then ValueRaised else ProtocolRaised)
    }

    /** `_poll`: each turn first stores the incremented count and then asks, so
        a crash can lose a poll but never repeat one. */
    method Poll(accepted: DelegationRecord) returns (exit: Exit, ghost end: PollEnd)
      requires Valid() && store.row == Some(accepted) && accepted.status.Accepted? && client.sends == 1
      modifies store, client`polls, client`cancels
      ensures Valid() && RowEvolves(old(store.row), store.row)
      ensures client.polls - old(client.polls) <= PollBudget() - accepted.pollCount
      ensures EndsPolling(end, exit)
      ensures exit.Execution? ==> Returns(store.row, exit)
      ensures exit.ValueRaised? ==> end.Spent?
      ensures !exit.DeniedRaised?
    {
      var r := accepted;
      var timeLeft: bool := *;
      while r.pollCount < PollBudget() && timeLeft
        invariant Valid() && store.row == Some(r) && r.status.Accepted? && client.sends == 1
        invariant RowEvolves(old(store.row), store.row)
        invariant client.polls - old(client.polls) <= r.pollCount - accepted.pollCount
        decreases PollBudget() - r.pollCount
      {
        var polled := r.Advance(Accepted, r.remoteTaskId, true, None);
        AdvanceKeepsPromises(r, Accepted, r.remoteTaskId, true, None);
        r := polled.value;
        var saved := store.Save(r);
        if !saved.Saved? {
          return Crashed, Lost;
        }
        var reply := client.GetTask();
        timeLeft := *;
        if reply.HttpError? {
          continue;
        }
        end := Told(r, reply);
        if !reply.Answered? {
          return ProtocolRaised, end;
        }
        AcceptedAnswersAreAdmitted(r, reply.response);
        var applied, crashed := ApplyResponse(r, reply.response);
        if crashed {
          return Crashed, Lost;
        }
        if applied.Err? {
          return ProtocolRaised, end;
        }
        r := applied.value;
        if r.status.Completed? {
          return Execution(r.result.value), end;
        }
        if !r.status.Accepted? {
          return ProtocolRaised, end;
        }
      }
      var outcome, reply, crashed := CancelKnownTask(r);
      end := Spent(r, !timeLeft, reply);
      exit := if crashed then Crashed else if outcome.Escapes? then ValueRaised else ProtocolRaised;
    }

    /** `_resume`: what a restarted process does with the row it finds. */
    method Resume(r: DelegationRecord, limitsModel: Id) returns (exit: Exit)
      requires Valid() && store.row == Some(r)
      modifies store, client`polls, client`cancels
      ensures Valid() && RowEvolves(old(store.row), store.row)
      ensures exit.Execution? ==> Returns(store.row, exit)
      ensures exit.ValueRaised? ==> r.status.Accepted?
      ensures r.modelId != limitsModel || (!r.status.Completed? && !r.status.Accepted?) ==>
                exit.ProtocolRaised? || (exit.Crashed? && r.modelId == limitsModel && r.status.Submitting?)
      ensures !exit.DeniedRaised?
      ensures r.modelId == limitsModel && r.status.Completed? ==> exit == Execution(r.result.value)
      ensures r.modelId == limitsModel && r.status.Submitting? && !exit.Crashed? ==>
                store.row == Some(r.(status := Unknown))
      ensures r.modelId != limitsModel || Final(r.status) || r.status.Prepared? || r.status.Interrupted? ==>
                store.row == old(store.row) && client.polls == old(client.polls)
    {
      if r.modelId != limitsModel {
        return ProtocolRaised;
      }
      match r.status
      case Completed => exit := Execution(r.result.value);
      case Submitting =>
        var unknown := r.Advance(Unknown, None, false, None);
        var saved := store.Save(unknown.value);
        exit := if !saved.Saved? then Crashed else ProtocolRaised;
      case Accepted =>
        ghost var end;
        exit, end := Poll(r);
      case _ => exit := ProtocolRaised;
    }

    /** `delegate`: one call by the worker. `prepared` is the record it would
        create, `persisted` whether the decision can be read back, `size` the
        length of the encoded request. */
    method Delegate(prepared: DelegationRecord, persisted: bool, size: int) returns (exit: Exit)
      requires Valid()
      requires prepared.status.Prepared? && prepared.pollCount == 0 && prepared.remoteTaskId.None?
      modifies store, client
      ensures Valid() && RowEvolves(old(store.row), store.row)
      ensures old(store.row).Some? || !Permitted(persisted, size) ==> client.sends == old(client.sends)
      ensures old(store.row).None? && Permitted(persisted, size) && !exit.Crashed? ==>
        client.sends == 1 && store.row.Some?
      ensures old(store.row).None? && !Permitted(persisted, size) ==> store.row.None?
      ensures old(store.row).None? && !Permitted(persisted, size) ==> exit.DeniedRaised? || exit.ProtocolRaised?
      ensures exit.DeniedRaised? <==> old(store.row).None? && decision.Some? && persisted && decision.value.Deny?
      ensures exit.Execution? ==> Returns(store.row, exit)
    {
      if store.row.Some? {
        exit := Resume(store.row.value, modelId);
        return;
      }
      if decision.Some? {
        if !persisted {
          return ProtocolRaised;
        }
        if decision.value.Deny? {
          return DeniedRaised;
        }
      } else if requirePolicy {
        return ProtocolRaised;
      }
      if size > InForce().value.maxRequestBytes {
        return ProtocolRaised;
      }
      var saved := store.Save(prepared);
      if !saved.Saved? {
        return Crashed;
      }
      var submitting := prepared.Advance(Submitting, None, false, None);
      saved := store.Save(submitting.value);
      if !saved.Saved? {
        return Crashed;
      }
      var reply := client.SendMessage();
      ghost var end;
      exit, end := AfterSend(submitting.value, reply);
    }

    /** The rest of `delegate`, from the answer to the submission on: an answer that
        never came leaves the outcome unknown, a failed exchange a failed record, and an
        answer is followed, by polling when the task goes on. The one that the status
        machine refuses leaves the record submitting. */
    method AfterSend(r: DelegationRecord, reply: Reply) returns (exit: Exit, ghost end: Option<PollEnd>)
      requires Valid() && store.row == Some(r) && r.status.Submitting? && client.sends == 1
      modifies store, client`polls, client`cancels
      ensures Valid() && RowEvolves(old(store.row), store.row) && !exit.DeniedRaised?
      ensures reply.AmbiguousSubmission? && !exit.Crashed? ==>
                exit.ProtocolRaised? && store.row == Some(r.(status := Unknown))
      ensures reply.HttpError? && !exit.Crashed? ==>
                exit.ProtocolRaised? && store.row == Some(r.(status := RemoteFailed))
      ensures reply.ProtocolError? ==> exit.ProtocolRaised? && store.row == old(store.row)
      ensures reply.Answered? ==> AfterAnswer(r, reply.response, exit, end)
      ensures end.Some? ==> EndsPolling(end.value, exit)
      ensures exit.ValueRaised? ==>
                || (reply.Answered? && Understood(r, reply.response) && Reports(reply.response, Canceled))
                || (end.Some? && end.value.Spent?)
      ensures exit.Execution? ==> Returns(store.row, exit)
    {
      end := None;
      match reply
      case AmbiguousSubmission =>
        var unknown := r.Advance(Unknown, None, false, None);
        var saved := store.Save(unknown.value);
        exit := if !saved.Saved? then Crashed else ProtocolRaised;
      case HttpError =>
        var crashed := StoreFailure(r);
        exit := if crashed then Crashed else ProtocolRaised;
      case ProtocolError => exit := ProtocolRaised;
      case Answered(response) =>
        var applied, crashed := ApplyResponse(r, response);
        if crashed {
          return Crashed, None;
        }
        if applied.Err? {
          return if applied == Err(InvalidValue) then ValueRaised else ProtocolRaised, None;
        }
        if applied.value.status.Completed? {
          return Execution(applied.value.result.value), None;
        }
        if !applied.value.status.Accepted? {
          return ProtocolRaised, None;
        }
        ghost var polled;
        exit, polled := Poll(applied.value);
        end := Some(polled);
    }

    /** How an answer to the submission ends the call: `end` is there exactly when the
        answer is that the task goes on, unless the process died before. */
    ghost predicate AfterAnswer(r: DelegationRecord, response: Response, exit: Exit, end: Option<PollEnd>)
      reads store
    {
      var understood := Understood(r, response);
      && (end.Some? ==> understood && Reports(response, Accepted))
      && (end.None? && !exit.Crashed? ==>
            && store.row.Some? && !(understood && Reports(response, Accepted))
            && if understood && Reports(response, Canceled) then exit.ValueRaised? && store.row == Some(r)
               else
                 AnswerTaken(r, response, store.row.value) && Concludes(store.row.value, exit))
    }

    /** Any number of restarts and operator cancellations, in any order: however
        often the worker starts over, and wherever a process died before, the
        message is sent at most once, the remote task is polled at most as often as
        configuration and grant allow in all, and between any two moments the record
        keeps its identity and its remote task, and stands once it is final. */
    method KeepRestarting(acts: seq<Act>) returns (ghost rows: seq<Option<DelegationRecord>>)
      requires Valid() && store.row == None
      requires forall i :: 0 <= i < |acts| && acts[i].Restart? ==> Fresh(acts[i].prepared)
      modifies store, client
      ensures Valid() && client.sends <= 1 && client.polls <= PollBudget()
      ensures decision.Some? && decision.value.Deny? ==> client.sends == 0 && store.row == None
      ensures |rows| == |acts| + 1 && rows[|acts|] == store.row
      ensures forall i, j :: 0 <= i <= j < |rows| ==> RowEvolves(rows[i], rows[j])
    {
      rows := [store.row];
      for i := 0 to |acts|
        invariant Valid() && |rows| == i + 1 && rows[i] == store.row
        invariant decision.Some? && decision.value.Deny? ==> client.sends == 0 && store.row == None
        invariant forall j, k :: 0 <= j <= k <= i ==> RowEvolves(rows[j], rows[k])
      {
        match acts[i] {
          case Restart(prepared, persisted, size) => var _ := Delegate(prepared, persisted, size);
          case CancelRequest => var _ := CancelDelegation();
        }
        ghost var earlier := rows;
        rows := earlier + [store.row];
        forall j, k | 0 <= j <= k <= i + 1 ensures RowEvolves(rows[j], rows[k]) {
          assert k <= i ==> RowEvolves(earlier[j], earlier[k]);
          if j <= i < k {
            EvolvesOnward(earlier[j], earlier[i], store.row);
          }
        }
      }
    }
  }
}
