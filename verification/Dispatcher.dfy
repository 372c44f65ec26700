/** One dispatcher of the outbox (`OutboxDispatcher`, src/seed_society/outbox.py)
    at work on a table that other processes use at the same time. */
module Dispatcher {
  import opened Domain
  import opened Outbox
  import opened OutboxRepository
  import opened OutboxRuns

  datatype DispatchStatus = Idle | Dispatched | Retry | GivenUp

  datatype DispatchResult = DispatchResult(status: DispatchStatus, message: Option<Id>, token: int)

  /** How the handler ended; with a lease maintainer, the lease may be lost meanwhile. */
  datatype HandlerEnding = Returned | RaisedError | LeaseLost

  class OutboxDispatcher {
    const repository: OutboxTable
    const workerId: Id
    const topic: Option<Id>
    const lease: int
    const retrySeconds: int
    /** The (message, token) pairs the handler was called with. */
    var calls: seq<(Id, int)>
    /** The message identifiers drawn so far, by any process. */
    var drawn: set<Id>
    ghost var history: OutboxState

    /** The table is a state of the outbox's runs, `calls` is this dispatcher's
        share of the leases, and no token is used twice for a message. */
    ghost predicate Valid()
      reads this, repository
    {
      && repository.Valid() && history.table == repository.rows && Inv(history) && history.limits.Keys <= drawn
      && (forall i :: 0 <= i < |calls| ==> calls[i].1 in LeaseTokens(history.log, calls[i].0))
      && forall i, j :: 0 <= i < j < |calls| && calls[i].0 == calls[j].0 ==> calls[i].1 < calls[j].1
    }

    constructor (repository: OutboxTable, history: OutboxState, workerId: Id, topic: Option<Id>, lease: int, retry: int)
      requires repository.Valid() && history.table == repository.rows && Inv(history)
      ensures Valid() && this.repository == repository && calls == [] && this.history == history
    {
      this.repository, this.workerId, this.topic := repository, workerId, topic;
      this.lease, this.retrySeconds := lease, retry;
      this.calls, this.drawn, this.history := [], history.limits.Keys, history;
    }

    /** What the table knew before is still known: the log only grows. */
    ghost method Advance(step: Step, next: OutboxState)
      requires repository.Valid() && Inv(history) && Next(history, next, step) && next.table == repository.rows
      requires next.limits.Keys <= drawn
      requires forall i :: 0 <= i < |calls| ==> calls[i].1 in LeaseTokens(history.log, calls[i].0)
      requires forall i, j :: 0 <= i < j < |calls| && calls[i].0 == calls[j].0 ==> calls[i].1 < calls[j].1
      modifies this`history
      ensures Valid() && history == next && old(history).log <= history.log
    {
      NextKeepsInv(history, next, step);
      forall i | 0 <= i < |calls| ensures calls[i].1 in LeaseTokens(next.log, calls[i].0) {
        LeasesStay(history, next, step, calls[i].0);
      }
      history := next;
    }

    predicate SomethingLeasable(t: Table, now: Instant) {
      exists id :: id in t && Leasable(t[id], topic, now)
    }

    /** The delivery is still this dispatcher's, under a running lease. */
    predicate Settleable(t: Table, call: (Id, int), now: Instant, failed: bool) {
      HoldsDelivery(t, call.0, workerId, call.1, now) && (failed ==> 0 <= retrySeconds <= 86_400)
    }

    method Claim(now: Instant) returns (r: Result<Option<OutboxMessage>>)
      requires Valid()
      modifies repository, this`history
      ensures Valid() && old(history).log <= history.log
      ensures Claims(old(repository.rows), repository.rows, workerId, topic, now, lease, r)
      ensures r.Ok? && r.value.Some? ==>
        history.log == old(history).log + [Leased(r.value.value.messageId, r.value.value.deliveryToken)]
    {
      r := repository.ClaimOutbox(workerId, topic, now, lease);
      ghost var event :=
        if r.Ok? && r.value.Some? then [Leased(r.value.value.messageId, r.value.value.deliveryToken)] else [];
      Advance(ClaimStep(workerId, topic, now, lease, r),
              history.(table := repository.rows, log := history.log + event));
    }

    method Complete(id: Id, token: int, now: Instant, failed: bool) returns (r: Result<OutboxMessage>)
      requires Valid()
      modifies repository, this`history
      ensures Valid() && old(history).log <= history.log
      ensures r.Ok? ==> history.log == old(history).log + [Settled(id, token, !failed)]
      ensures r.Ok? ==> id in repository.rows && repository.rows[id] == r.value
      ensures r.Ok? ==> r.value.status == if !failed then OutboxStatus.Delivered
                                          else if r.value.attemptCount >= r.value.maxAttempts then DeliveryFailed
                                          else Queued
      ensures r.Ok? && failed ==> r.value.availableAt == now + retrySeconds
      ensures r.Err? ==> history == old(history) && repository.rows == old(repository.rows) && r.error.InvalidValue?
      ensures r.Ok? <==> Settleable(old(repository.rows), (id, token), now, failed)
    {
      ghost var step := CompleteStep(id, workerId, token, now, failed, retrySeconds);
      ghost var before := history;
      r := repository.CompleteOutbox(id, workerId, token, now, failed, retrySeconds);
      assert r == Completion(before.table, step);
      Advance(step, if r.Ok? then history.(table := repository.rows, log := history.log + [Settled(id, token, !failed)])
                    else history);
    }

    /** Another process publishes a message under an identifier it draws. */
    method Publication(m: OutboxMessage)
      requires Valid()
      modifies repository, this`history, this`drawn
      ensures Valid() && old(history).log <= history.log
    {
      if FreshMessage(m) && m.messageId !in drawn {
        ghost var before := history;
        var r := repository.EnqueueOutbox(m);
        drawn := drawn + {m.messageId};
        ghost var limits :=
          if m.messageId in repository.rows then before.limits[m.messageId := m.maxAttempts] else before.limits;
        Advance(Publish(m), before.(table := repository.rows, limits := limits));
      }
    }

    /** Other processes' transactions while the handler runs: publications, claims,
        renewals (this dispatcher's lease maintainer included), completions, purges. */
    method Others()
      requires Valid()
      modifies repository, this`history, this`drawn
      ensures Valid() && old(history).log <= history.log && calls == old(calls)
    {
      var turns: int := *;
      for turn := 0 to if turns < 0 then 0 else turns
        invariant Valid() && old(history).log <= history.log
      {
        var id: Id, worker: Id, token: int, now: Instant, seconds: int, failed: bool := *, *, *, *, *, *;
        if {
          case true =>
            var kind: Option<Id> := *;
            var r := repository.ClaimOutbox(worker, kind, now, seconds);
            ghost var event :=
              if r.Ok? && r.value.Some? then [Leased(r.value.value.messageId, r.value.value.deliveryToken)] else [];
            Advance(ClaimStep(worker, kind, now, seconds, r),
                    history.(table := repository.rows, log := history.log + event));
          case true =>
            ghost var before := history;
            var r := repository.RenewOutbox(id, worker, token, now, seconds);
            assert r == Renewal(before.table, RenewStep(id, worker, token, now, seconds));
            Advance(RenewStep(id, worker, token, now, seconds), history.(table := repository.rows));
          case true =>
            ghost var before := history;
            var r := repository.CompleteOutbox(id, worker, token, now, failed, seconds);
            ghost var step := CompleteStep(id, worker, token, now, failed, seconds);
            assert r == Completion(before.table, step);
            Advance(step, if r.Ok?
                          then history.(table := repository.rows, log := history.log + [Settled(id, token, !failed)])
                          else history);
          case true =>
            var m: OutboxMessage := *;
            Publication(m);
          case true =>
            var r := repository.PurgeOutbox(now, seconds);
            Advance(PurgeStep(now, seconds, r), history.(table := repository.rows));
        }
      }
    }

    /** Claims a message and calls the handler with it, under the token just leased. */
    method Receive(now: Instant) returns (r: Result<Option<OutboxMessage>>)
      requires Valid()
      modifies repository, this`history, this`calls
      ensures Valid() && old(history).log <= history.log
      ensures Claims(old(repository.rows), repository.rows, workerId, topic, now, lease, r)
      ensures r.Ok? && r.value.Some? ==>
        var call := (r.value.value.messageId, r.value.value.deliveryToken);
        calls == old(calls) + [call] && Called(old(history), call)
      ensures !(r.Ok? && r.value.Some?) ==> calls == old(calls)
    {
      r := Claim(now);
      if r.Ok? && r.value.Some? {
        var id, token := r.value.value.messageId, r.value.value.deliveryToken;
        Append(old(history).log, Leased(id, token), id);
        assert IdOk(history, id);
        forall i | 0 <= i < |calls| && calls[i].0 == id ensures calls[i].1 < token {
          assert IdOk(old(history), id) && calls[i].1 in LeaseTokens(old(history).log, id);
        }
        calls := calls + [(id, token)];
      }
    }

    /** `run_once`: at most one call of the handler, under the token just leased;
        a result other than Idle names that lease, and only an accepted completion
        reports a delivery or a final failure. `atCompletion` is the table that the
        completion found, if it came to that: the call raises an error exactly when
        the lease's length is invalid and there is something to lease, or when the
        delivery is no longer this dispatcher's to settle, and the transaction that
        raised it has changed nothing. */
    method RunOnce(now: Instant, ending: HandlerEnding, later: Instant)
      returns (r: Result<DispatchResult>, ghost atCompletion: Option<Table>)
      requires Valid()
      modifies repository, this
      ensures Valid() && old(history).log <= history.log
      ensures calls == old(calls) || exists call :: calls == old(calls) + [call] && Called(old(history), call)
      ensures r.Ok? && r.value.status.Idle? ==>
        calls == old(calls) && forall id :: id in old(repository.rows) ==>
          !Leasable(old(repository.rows)[id], topic, now)
      ensures r.Ok? && !r.value.status.Idle? ==>
        r.value.message.Some? && calls == old(calls) + [(r.value.message.value, r.value.token)]
      ensures r.Ok? && r.value.status.Dispatched? ==> ending.Returned? && Settles(history, r.value, true)
      ensures r.Ok? && r.value.status.GivenUp? ==> ending.RaisedError? && Settles(history, r.value, false)
      ensures r.Ok? && r.value.status.Retry? ==> !ending.Returned?
      ensures r.Ok? && r.value.status.Retry? && atCompletion.Some? ==>
        && r.value.message.value in repository.rows
        && WaitsAgain(repository.rows[r.value.message.value], later + retrySeconds)
      ensures atCompletion.None? ==>
        (r.Err? <==> !(1 <= lease <= 86_400) && SomethingLeasable(old(repository.rows), now))
      ensures atCompletion.Some? ==>
        && |calls| == |old(calls)| + 1 && !ending.LeaseLost?
        && (r.Err? <==> !Settleable(atCompletion.value, calls[|old(calls)|], later, ending.RaisedError?))
      ensures r.Err? ==>
        r.error.InvalidValue?
        && repository.rows == if atCompletion.Some? then atCompletion.value else old(repository.rows)
    {
      atCompletion := None;
      var received := Receive(now);
      if received.Err? {
        r := Err(received.error);
        return;
      }
      if received.value.None? {
        r := Ok(DispatchResult(Idle, None, 0));
        return;
      }
      var id, token := received.value.value.messageId, received.value.value.deliveryToken;
      Others();
      if ending.LeaseLost? {
        r := Ok(DispatchResult(Retry, Some(id), token));
        return;
      }
      atCompletion := Some(repository.rows);
      var updated := Complete(id, token, later, ending.RaisedError?);
      if updated.Err? {
        r := Err(updated.error);
        return;
      }
      var status :=
        if ending.Returned? then Dispatched else if updated.value.status.DeliveryFailed? then GivenUp else Retry;
      r := Ok(DispatchResult(status, Some(id), token));
    }
  }

  /** The message waits for another delivery from `due` on. */
  predicate WaitsAgain(m: OutboxMessage, due: Instant) {
    m.status == Queued && m.availableAt == due && m.attemptCount < m.maxAttempts
  }

  /** The call used the next token of its message. */
  ghost predicate Called(before: OutboxState, call: (Id, int)) {
    call.1 == |LeaseTokens(before.log, call.0)| + 1
  }

  /** The last thing logged is the accepted completion of this delivery. */
  ghost predicate Settles(s: OutboxState, r: DispatchResult, delivered: bool) {
    && r.message.Some? && s.log != [] && s.log[|s.log| - 1] == Settled(r.message.value, r.token, delivered)
    && r.message.value in s.table
    && s.table[r.message.value].status == if delivered then OutboxStatus.Delivered else DeliveryFailed
  }

  lemma LeasesStay(s: OutboxState, s': OutboxState, step: Step, id: Id)
    requires Next(s, s', step)
    ensures s.log <= s'.log
    ensures forall t :: t in LeaseTokens(s.log, id) ==> t in LeaseTokens(s'.log, id)
  {
    if s'.log != s.log {
      var e := s'.log[|s.log|];
      assert s'.log == s.log + [e];
      Append(s.log, e, id);
    }
  }
}
