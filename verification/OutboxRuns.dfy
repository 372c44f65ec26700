/** Whole runs of the outbox: any number of publishers and dispatchers
    (src/seed_society/outbox.py) interleaving repository transactions, any of
    which may be the last one its process ever makes. */
module OutboxRuns {
  import opened Domain
  import opened Outbox
  import opened OutboxRepository

  /** What a dispatcher observes: a lease hands the message to the handler once;
      a settlement is a completion that the store accepted. */
  datatype Delivery =
    | Leased(id: Id, token: int)
    | Settled(id: Id, token: int, delivered: bool)

  /** The table, the attempt limit of every message ever stored, and the log. */
  datatype OutboxState = OutboxState(table: Table, limits: map<Id, int>, log: seq<Delivery>)

  datatype Step =
    | Publish(message: OutboxMessage)
    | ClaimStep(worker: Id, topic: Option<Id>, now: Instant, lease: int, claim: Result<Option<OutboxMessage>>)
    | RenewStep(id: Id, worker: Id, token: int, now: Instant, lease: int)
    | CompleteStep(id: Id, worker: Id, token: int, now: Instant, failed: bool, retry: int)
    | PurgeStep(before: Instant, limit: int, purge: Result<nat>)

  predicate FreshMessage(m: OutboxMessage) {
    CreateMessage(m.messageId, m.topic, m.idempotencyKey, m.payload, m.maxAttempts, m.createdAt) == Ok(m)
  }

  function Completion(t: Table, step: Step): Result<OutboxMessage>
    requires step.CompleteStep?
  {
    if step.id !in t then Err(InvalidValue)
    else if step.failed then t[step.id].Fail(step.worker, step.token, step.now, step.retry)
    else t[step.id].Deliver(step.worker, step.token, step.now)
  }

  function Renewal(t: Table, step: Step): Result<OutboxMessage>
    requires step.RenewStep?
  {
    if step.id !in t then Err(InvalidValue)
    else t[step.id].Renew(step.worker, step.token, step.now, step.lease)
  }

  /** What one transaction of the outbox does to its table. */
  ghost predicate Changes(t: Table, t': Table, step: Step) {
    match step
    case Publish(m) => FreshMessage(m) && t' == if Enqueue(t, m).Ok? then Enqueue(t, m).value.0 else t
    case ClaimStep(worker, topic, now, lease, r) => Claims(t, t', worker, topic, now, lease, r)
    case RenewStep(id, _, _, _, _) => t' == if Renewal(t, step).Ok? then t[id := Renewal(t, step).value] else t
    case CompleteStep(id, _, _, _, _, _) =>
      t' == if Completion(t, step).Ok? then t[id := Completion(t, step).value] else t
    case PurgeStep(before, limit, r) => Purges(t, t', before, limit, r)
  }

  /** One transaction of any kind; `made` is the step it turned out to be. */
  method Transact(outbox: OutboxTable, change: Step) returns (made: Step)
    requires outbox.Valid() && (change.Publish? ==> FreshMessage(change.message))
    modifies outbox
    ensures outbox.Valid() && Changes(old(outbox.rows), outbox.rows, made)
  {
    made := change;
    match change {
      case Publish(m) =>
        var _ := outbox.EnqueueOutbox(m);
      case ClaimStep(worker, topic, now, lease, _) =>
        var claim := outbox.ClaimOutbox(worker, topic, now, lease);
        made := ClaimStep(worker, topic, now, lease, claim);
      case RenewStep(id, worker, token, now, lease) =>
        var _ := outbox.RenewOutbox(id, worker, token, now, lease);
      case CompleteStep(id, worker, token, now, failed, retry) =>
        var _ := outbox.CompleteOutbox(id, worker, token, now, failed, retry);
      case PurgeStep(before, limit, _) =>
        var purge := outbox.PurgeOutbox(before, limit);
        made := PurgeStep(before, limit, purge);
    }
  }

  lemma ChangesKeepKeys(t: Table, t': Table, step: Step)
    requires WellKeyed(t) && Changes(t, t', step)
    ensures WellKeyed(t')
  {
    match step
    case Publish(m) => EnqueueKeepsKeys(t, m);
    case ClaimStep(_, _, _, _, _) => ClaimsKeepKeys(t, t', step);
    case RenewStep(id, _, _, _, _) =>
      if Renewal(t, step).Ok? {
        UpdateKeepsKeys(t, id, Renewal(t, step).value);
      }
    case CompleteStep(id, _, _, _, _, _) =>
      if Completion(t, step).Ok? {
        UpdateKeepsKeys(t, id, Completion(t, step).value);
      }
    case PurgeStep(_, _, _) => PurgesKeepKeys(t, t', step);
  }

  lemma ClaimsKeepKeys(t: Table, t': Table, step: Step)
    requires WellKeyed(t) && step.ClaimStep? && Changes(t, t', step)
    ensures WellKeyed(t')
  {
    forall id | id in t' ensures id in t && t'[id].messageId == id && SameIntent(t'[id], t[id]) {
    }
  }

  lemma PurgesKeepKeys(t: Table, t': Table, step: Step)
    requires WellKeyed(t) && step.PurgeStep? && Changes(t, t', step)
    ensures WellKeyed(t')
  {
  }

  /** What a dispatcher sees of a transaction. */
  function Event(t: Table, step: Step): Option<Delivery> {
    match step
    case ClaimStep(_, _, _, _, r) =>
      if r.Ok? && r.value.Some? then Some(Leased(r.value.value.messageId, r.value.value.deliveryToken)) else None
    case CompleteStep(id, _, token, _, failed, _) =>
      if Completion(t, step).Ok? then Some(Settled(id, token, !failed)) else None
    case _ => None
  }

  function Logged(log: seq<Delivery>, e: Option<Delivery>): seq<Delivery> {
    match e
    case None => log
    case Some(event) => log + [event]
  }

  ghost predicate Next(s: OutboxState, s': OutboxState, step: Step) {
    && Changes(s.table, s'.table, step) && s'.log == Logged(s.log, Event(s.table, step))
    && match step
       case Publish(m) =>
         // message identifiers are drawn at random and never collide
         && m.messageId !in s.limits
         && s'.limits == if m.messageId in s'.table then s.limits[m.messageId := m.maxAttempts] else s.limits
       case _ => s'.limits == s.limits
  }

  const INITIAL := OutboxState(map[], map[], [])

  /** A run is any sequence of states from the empty table, each obtained from
      the one before by some transaction. */
  ghost predicate Run(states: seq<OutboxState>, steps: seq<Step>) {
    && |states| == |steps| + 1 && states[0] == INITIAL
    && forall i :: 0 <= i < |steps| ==> Took(states, steps, i)
  }

  ghost predicate Took(states: seq<OutboxState>, steps: seq<Step>, i: nat)
    requires |states| == |steps| + 1 && i < |steps|
  {
    Next(states[i], states[i + 1], steps[i])
  }

  // ---------------------------------------------------------------- the log

  function LeaseTokens(log: seq<Delivery>, id: Id): seq<int> {
    if log == [] then []
    else
      var last := log[|log| - 1];
      LeaseTokens(log[..|log| - 1], id) + if last.Leased? && last.id == id then [last.token] else []
  }

  function SettledTokens(log: seq<Delivery>, id: Id): seq<int> {
    if log == [] then []
    else
      var last := log[|log| - 1];
      SettledTokens(log[..|log| - 1], id) + if last.Settled? && last.id == id then [last.token] else []
  }

  predicate WasDelivered(log: seq<Delivery>, id: Id) {
    exists i :: 0 <= i < |log| && log[i].Settled? && log[i].id == id && log[i].delivered
  }

  lemma Append(log: seq<Delivery>, e: Delivery, id: Id)
    ensures LeaseTokens(log + [e], id) == LeaseTokens(log, id) + if e.Leased? && e.id == id then [e.token] else []
    ensures SettledTokens(log + [e], id) == SettledTokens(log, id) + if e.Settled? && e.id == id then [e.token] else []
    ensures WasDelivered(log + [e], id) <==> WasDelivered(log, id) || (e.Settled? && e.id == id && e.delivered)
  {
    var log' := log + [e];
    assert log'[..|log'| - 1] == log;
    if WasDelivered(log, id) {
      var i :| 0 <= i < |log| && log[i].Settled? && log[i].id == id && log[i].delivered;
      assert log'[i] == log[i];
    }
    if e.Settled? && e.id == id && e.delivered {
      assert log'[|log|] == e;
    }
  }

  predicate CountsUp(tokens: seq<int>) {
    forall i :: 0 <= i < |tokens| ==> tokens[i] == i + 1
  }

  predicate Increasing(tokens: seq<int>) {
    forall i, j :: 0 <= i < j < |tokens| ==> tokens[i] < tokens[j]
  }

  // ---------------------------------------------------------------- the invariant

  /** A stored message counts its leases, only an unfinished one can be leased, and
      only one whose attempts are used up has failed. */
  predicate MessageOk(m: OutboxMessage) {
    && m.deliveryToken == m.attemptCount && 0 <= m.attemptCount <= m.maxAttempts
    && (m.status.Queued? ==> m.attemptCount < m.maxAttempts)
    && (!m.status.Queued? ==> m.attemptCount >= 1)
    && (m.status.Delivering? <==> m.claimExpiresAt.Some?)
    && (m.status.DeliveryFailed? ==> m.attemptCount == m.maxAttempts)
  }

  /** The log of one message: its leases carry the tokens 1, 2, ... up to its
      limit, its settlements carry different leased tokens in rising order. */
  predicate LogOk(log: seq<Delivery>, id: Id, limit: int) {
    var leases := LeaseTokens(log, id);
    var settled := SettledTokens(log, id);
    && CountsUp(leases) && |leases| <= limit
    && Increasing(settled)
    && (forall i :: 0 <= i < |settled| ==> 1 <= settled[i] <= |leases|)
  }

  /** How the stored row of a message agrees with its log. */
  predicate RowMatchesLog(m: OutboxMessage, log: seq<Delivery>) {
    && |LeaseTokens(log, m.messageId)| == m.deliveryToken
    && (m.status.Delivering? ==> forall i :: 0 <= i < |SettledTokens(log, m.messageId)| ==>
                                   SettledTokens(log, m.messageId)[i] < m.deliveryToken)
    && (WasDelivered(log, m.messageId) <==> m.status.Delivered?)
  }

  /** The invariant of one identifier: stored, purged, or never used. */
  predicate IdOk(s: OutboxState, id: Id) {
    && (id in s.table ==> id in s.limits && s.table[id].messageId == id && s.limits[id] == s.table[id].maxAttempts
                          && MessageOk(s.table[id]) && RowMatchesLog(s.table[id], s.log))
    && (if id in s.limits then LogOk(s.log, id, s.limits[id])
        else LeaseTokens(s.log, id) == [] && SettledTokens(s.log, id) == [] && !WasDelivered(s.log, id))
  }

  ghost predicate Inv(s: OutboxState) {
    WellKeyed(s.table) && forall id :: IdOk(s, id)
  }

  lemma PublishKeepsInv(s: OutboxState, s': OutboxState, step: Step)
    requires Inv(s) && step.Publish? && Next(s, s', step)
    ensures Inv(s')
  {
    EnqueueKeepsKeys(s.table, step.message);
    forall id ensures IdOk(s', id) {
      assert IdOk(s, id);
    }
  }

  /** The log of a leased row: one more lease, under the next token. */
  lemma LeaseExtendsLog(before: OutboxMessage, m: OutboxMessage, log: seq<Delivery>)
    requires MessageOk(before) && before.attemptCount < before.maxAttempts && !before.status.Delivered?
    requires m.messageId == before.messageId && m.deliveryToken == before.deliveryToken + 1 && m.status.Delivering?
    requires RowMatchesLog(before, log) && LogOk(log, before.messageId, before.maxAttempts)
    ensures var log' := log + [Leased(m.messageId, m.deliveryToken)];
            RowMatchesLog(m, log') && LogOk(log', m.messageId, before.maxAttempts)
  {
    Append(log, Leased(m.messageId, m.deliveryToken), m.messageId);
  }

  lemma LeasedKeepsId(s: OutboxState, s': OutboxState, step: Step, m: OutboxMessage)
    requires IdOk(s, m.messageId) && step.ClaimStep? && Next(s, s', step) && step.claim == Ok(Some(m))
    ensures IdOk(s', m.messageId)
  {
    var before := s.table[m.messageId];
    assert s'.log == s.log + [Leased(m.messageId, m.deliveryToken)];
    LeaseExtendsLog(before, m, s.log);
  }

  /** Any other row of a claim: as it was, or given up with its attempts used up. */
  lemma OtherKeepsId(s: OutboxState, s': OutboxState, id: Id)
    requires IdOk(s, id) && s'.limits == s.limits
    requires LeaseTokens(s'.log, id) == LeaseTokens(s.log, id) && SettledTokens(s'.log, id) == SettledTokens(s.log, id)
    requires WasDelivered(s'.log, id) <==> WasDelivered(s.log, id)
    requires id in s'.table <==> id in s.table
    requires
      id in s.table && s'.table[id] != s.table[id] ==>
        && s.table[id].status == Delivering && s.table[id].maxAttempts <= s.table[id].attemptCount
        && s'.table[id] == s.table[id].(status := DeliveryFailed, claimExpiresAt := None,
                                        updatedAt := s'.table[id].updatedAt)
    ensures IdOk(s', id)
  {
  }

  lemma ClaimKeepsId(s: OutboxState, s': OutboxState, step: Step, id: Id)
    requires WellKeyed(s.table) && IdOk(s, id) && step.ClaimStep? && Next(s, s', step)
    ensures IdOk(s', id)
  {
    if step.claim.Ok? && step.claim.value.Some? && step.claim.value.value.messageId == id {
      LeasedKeepsId(s, s', step, step.claim.value.value);
    } else {
      if step.claim.Ok? && step.claim.value.Some? {
        var m := step.claim.value.value;
        Append(s.log, Leased(m.messageId, m.deliveryToken), id);
      }
      OtherKeepsId(s, s', id);
    }
  }

  lemma ClaimKeepsInv(s: OutboxState, s': OutboxState, step: Step)
    requires Inv(s) && step.ClaimStep? && Next(s, s', step)
    ensures Inv(s')
  {
    forall id ensures IdOk(s', id) {
      assert IdOk(s, id);
      ClaimKeepsId(s, s', step, id);
    }
    assert WellKeyed(s'.table) by {
      forall id | id in s'.table
        ensures id in s.table && s'.table[id].messageId == id && SameIntent(s'.table[id], s.table[id])
      {
      }
    }
  }

  lemma RenewKeepsInv(s: OutboxState, s': OutboxState, step: Step)
    requires Inv(s) && step.RenewStep? && Next(s, s', step)
    ensures Inv(s')
  {
    forall id ensures IdOk(s', id) {
      assert IdOk(s, id) && IdOk(s, step.id);
    }
  }

  lemma CompleteKeepsId(s: OutboxState, s': OutboxState, step: Step, id: Id)
    requires IdOk(s, id) && step.CompleteStep? && Next(s, s', step)
    ensures IdOk(s', id)
  {
    if Completion(s.table, step).Ok? {
      Append(s.log, Settled(step.id, step.token, !step.failed), id);
    }
  }

  lemma CompleteKeepsInv(s: OutboxState, s': OutboxState, step: Step)
    requires Inv(s) && step.CompleteStep? && Next(s, s', step)
    ensures Inv(s')
  {
    forall id ensures IdOk(s', id) {
      assert IdOk(s, id);
      CompleteKeepsId(s, s', step, id);
    }
  }

  lemma PurgeKeepsInv(s: OutboxState, s': OutboxState, step: Step)
    requires Inv(s) && step.PurgeStep? && Next(s, s', step)
    ensures Inv(s')
  {
    forall id ensures IdOk(s', id) {
      assert IdOk(s, id);
    }
  }

  lemma NextKeepsInv(s: OutboxState, s': OutboxState, step: Step)
    requires Inv(s) && Next(s, s', step)
    ensures Inv(s')
  {
    match step
    case Publish(_) => PublishKeepsInv(s, s', step);
    case ClaimStep(_, _, _, _, _) => ClaimKeepsInv(s, s', step);
    case RenewStep(_, _, _, _, _) => RenewKeepsInv(s, s', step);
    case CompleteStep(_, _, _, _, _, _) => CompleteKeepsInv(s, s', step);
    case PurgeStep(_, _, _) => PurgeKeepsInv(s, s', step);
  }

  /** Every state of every run satisfies the invariant. */
  lemma {:induction false} RunKeepsInv(states: seq<OutboxState>, steps: seq<Step>, i: nat)
    requires Run(states, steps) && i < |states|
    ensures Inv(states[i])
  {
    if i > 0 {
      RunKeepsInv(states, steps, i - 1);
      TakenStepKeepsInv(states, steps, i);
    }
  }

  lemma TakenStepKeepsInv(states: seq<OutboxState>, steps: seq<Step>, i: nat)
    requires Run(states, steps) && 0 < i < |states|
    ensures Inv(states[i - 1]) ==> Inv(states[i])
  {
    assert Took(states, steps, i - 1);
    if Inv(states[i - 1]) {
      NextKeepsInv(states[i - 1], states[i], steps[i - 1]);
    }
  }

  /** Bounded delivery: over a whole run a message is handed to the handler at
      most `maxAttempts` times, under the tokens 1, 2, 3, ... in that order. */
  lemma BoundedDelivery(states: seq<OutboxState>, steps: seq<Step>, i: nat, id: Id)
    requires Run(states, steps) && i < |states| && id in states[i].limits
    ensures CountsUp(LeaseTokens(states[i].log, id))
    ensures |LeaseTokens(states[i].log, id)| <= states[i].limits[id]
  {
    RunKeepsInv(states, steps, i);
    assert IdOk(states[i], id);
  }

  /** The rows tell the truth: a message is marked delivered exactly when a completion
      of it was accepted as a success, and failed only when it was not and it was
      handed to the handler as often as its limit allows. */
  lemma RowsTellTheTruth(states: seq<OutboxState>, steps: seq<Step>, i: nat, id: Id)
    requires Run(states, steps) && i < |states| && id in states[i].table
    ensures
      var m, log := states[i].table[id], states[i].log;
      && id in states[i].limits && m.maxAttempts == states[i].limits[id]
      && (m.status == Delivered <==> exists j :: 0 <= j < |log| && log[j] == Settled(id, log[j].token, true))
      && (m.status == DeliveryFailed ==>
            |LeaseTokens(log, id)| == states[i].limits[id] && !WasDelivered(log, id))
      && |LeaseTokens(log, id)| == m.deliveryToken == m.attemptCount
  {
    RunKeepsInv(states, steps, i);
    assert IdOk(states[i], id);
    var log := states[i].log;
    if j :| 0 <= j < |log| && log[j] == Settled(id, log[j].token, true) {
      assert log[j].Settled? && log[j].id == id && log[j].delivered;
    }
    if j :| 0 <= j < |log| && log[j].Settled? && log[j].id == id && log[j].delivered {
      assert log[j] == Settled(id, log[j].token, true);
    }
  }

  /** A finished row never changes again; it can only be purged. */
  lemma FinishedIsAbsorbing(s: OutboxState, s': OutboxState, step: Step, id: Id)
    requires Inv(s) && Next(s, s', step) && id in s.table
    requires Closed(s.table[id])
    ensures id in s'.limits && (id in s'.table ==> s'.table[id] == s.table[id])
    ensures id !in s'.table ==> step.PurgeStep?
  {
    assert IdOk(s, id);
  }

  predicate Closed(m: OutboxMessage) {
    m.status.Delivered? || m.status.DeliveryFailed?
  }

  /** The row of `id` is what it was at `i`, or some step since has purged it. */
  ghost predicate SameOrPurged(states: seq<OutboxState>, steps: seq<Step>, i: nat, j: nat, id: Id)
    requires |states| == |steps| + 1 && i <= j < |states| && id in states[i].table
  {
    if id in states[j].table then states[j].table[id] == states[i].table[id]
    else exists k :: i <= k < j && id in states[k].table && id !in states[k + 1].table && steps[k].PurgeStep?
  }

  lemma RunStep(states: seq<OutboxState>, steps: seq<Step>, i: nat)
    requires Run(states, steps) && i < |steps|
    ensures Inv(states[i]) && Next(states[i], states[i + 1], steps[i])
  {
    RunKeepsInv(states, steps, i);
    assert Took(states, steps, i);
  }

  /** A used identifier keeps a finished row, or stays away. */
  lemma UsedIdStep(states: seq<OutboxState>, steps: seq<Step>, i: nat, id: Id)
    requires Run(states, steps) && i < |steps| && id in states[i].limits
    requires id in states[i].table ==> Closed(states[i].table[id])
    ensures id in states[i + 1].limits
    ensures id in states[i + 1].table ==> id in states[i].table && states[i + 1].table[id] == states[i].table[id]
    ensures id in states[i].table && id !in states[i + 1].table ==> steps[i].PurgeStep?
  {
    RunStep(states, steps, i);
    if id in states[i].table {
      FinishedIsAbsorbing(states[i], states[i + 1], steps[i], id);
    }
  }

  /** Between any two states of a run, a finished row is the same row or gone for
      good: only a purge removes it, and its identifier never comes back. */
  lemma {:induction false} FinishedRowsStand(states: seq<OutboxState>, steps: seq<Step>, i: nat, j: nat, id: Id)
    requires Run(states, steps) && i <= j < |states| && id in states[i].table && Closed(states[i].table[id])
    ensures id in states[j].limits && SameOrPurged(states, steps, i, j, id)
    decreases j
  {
    if i == j {
      RunKeepsInv(states, steps, i);
      assert IdOk(states[i], id);
    } else {
      FinishedRowsStand(states, steps, i, j - 1, id);
      UsedIdStep(states, steps, j - 1, id);
      if id !in states[j].table && id !in states[j - 1].table {
        var k :| i <= k < j - 1 && id in states[k].table && id !in states[k + 1].table && steps[k].PurgeStep?;
      }
    }
  }

  /** Once gone, it stays gone. */
  lemma {:induction false} PurgedStaysAway(states: seq<OutboxState>, steps: seq<Step>, i: nat, j: nat, id: Id)
    requires Run(states, steps) && i <= j < |states| && id in states[i].limits && id !in states[i].table
    ensures id in states[j].limits && id !in states[j].table
    decreases j
  {
    if i < j {
      PurgedStaysAway(states, steps, i, j - 1, id);
      UsedIdStep(states, steps, j - 1, id);
    }
  }

  /** One completion per token, and one successful delivery per message:
      no two accepted settlements of a message share a token, each carries a
      token that was leased, and none follows a successful one. */
  lemma SettledAtMostOncePerToken(states: seq<OutboxState>, steps: seq<Step>, i: nat, id: Id)
    requires Run(states, steps) && i < |states|
    ensures Increasing(SettledTokens(states[i].log, id))
    ensures forall t :: t in SettledTokens(states[i].log, id) ==> t in LeaseTokens(states[i].log, id)
    ensures forall j, k :: 0 <= j < k < |states[i].log| && states[i].log[j] == Settled(id, states[i].log[j].token, true)
              ==> !(states[i].log[k].Settled? && states[i].log[k].id == id)
  {
    RunKeepsInv(states, steps, i);
    assert IdOk(states[i], id);
    forall t | t in SettledTokens(states[i].log, id) ensures t in LeaseTokens(states[i].log, id) {
      assert LeaseTokens(states[i].log, id)[t - 1] == t;
    }
    NothingSettlesAfterDelivery(states, steps, i, id);
  }

  lemma {:induction false} NothingSettlesAfterDelivery(states: seq<OutboxState>, steps: seq<Step>, i: nat, id: Id)
    requires Run(states, steps) && i < |states|
    ensures forall j, k :: 0 <= j < k < |states[i].log| && states[i].log[j].Settled? && states[i].log[j].id == id
                           && states[i].log[j].delivered
              ==> !(states[i].log[k].Settled? && states[i].log[k].id == id)
  {
    if i > 0 {
      var s, s', step := states[i - 1], states[i], steps[i - 1];
      assert Took(states, steps, i - 1);
      NothingSettlesAfterDelivery(states, steps, i - 1, id);
      RunKeepsInv(states, steps, i - 1);
      assert s.log <= s'.log;
      if step.CompleteStep? {
        assert IdOk(s, step.id);
        assert WasDelivered(s.log, step.id) ==> s'.log == s.log;
      }
    }
  }
}
