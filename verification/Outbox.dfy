/** The leased delivery state machine of one outbox message
    (`OutboxMessage`, src/seed_society/domain.py) and the table it lives in. */
module Outbox {
  import opened Domain

  const MAX_DELIVERY_ATTEMPTS := 100

  datatype OutboxStatus = Queued | Delivering | Delivered | DeliveryFailed

  /** Payloads are compared through an injective digest, so one opaque value
      stands for both. */
  datatype OutboxMessage = OutboxMessage(
    messageId: Id,
    topic: Id,
    idempotencyKey: Id,
    payload: Id,
    status: OutboxStatus,
    attemptCount: int,
    maxAttempts: int,
    deliveryToken: int,
    availableAt: Instant,
    claimedBy: Option<Id>,
    claimExpiresAt: Option<Instant>,
    createdAt: Instant,
    updatedAt: Instant)
  {
    predicate LeaseEnded(now: Instant) {
      status.Delivering? && claimExpiresAt.Some? && now >= claimExpiresAt.value
    }

    /** The rows that the claim query selects. */
    predicate Claimable(now: Instant) {
      (status.Queued? && now >= availableAt) || LeaseEnded(now)
    }

    /** Out of attempts: its last lease may still run, but it is never leased again. */
    predicate Exhausted() {
      status.Delivering? && attemptCount >= maxAttempts
    }

    function Claim(workerId: Id, now: Instant, lease: int): Result<OutboxMessage> {
      if !ValidDuration(lease) || !Claimable(now) then Err(InvalidValue)
      else Ok(this.(status := Delivering, attemptCount := attemptCount + 1,
                    deliveryToken := deliveryToken + 1, claimedBy := Some(workerId),
                    claimExpiresAt := Some(now + lease), updatedAt := now))
    }

    /** Authority to act on a delivery: the live lease, its holder and its token. */
    predicate OwnedBy(workerId: Id, token: int, now: Instant) {
      status.Delivering? && claimedBy == Some(workerId) && deliveryToken == token
      && claimExpiresAt.Some? && now < claimExpiresAt.value
    }

    function Deliver(workerId: Id, token: int, now: Instant): Result<OutboxMessage> {
      if !OwnedBy(workerId, token, now) then Err(InvalidValue)
      else Ok(this.(status := Delivered, claimExpiresAt := None, updatedAt := now))
    }

    function Renew(workerId: Id, token: int, now: Instant, lease: int): Result<OutboxMessage> {
      if !OwnedBy(workerId, token, now) || !ValidDuration(lease) then Err(InvalidValue)
      else Ok(this.(claimExpiresAt := Some(now + lease), updatedAt := now))
    }

    function Expire(now: Instant): Result<OutboxMessage> {
      if !LeaseEnded(now) || attemptCount < maxAttempts then Err(InvalidValue)
      else Ok(this.(status := DeliveryFailed, claimExpiresAt := None, updatedAt := now))
    }

    function Fail(workerId: Id, token: int, now: Instant, retrySeconds: int): Result<OutboxMessage> {
      if !OwnedBy(workerId, token, now) || !(0 <= retrySeconds <= MAX_DURATION_SECONDS) then Err(InvalidValue)
      else Ok(this.(status := if attemptCount >= maxAttempts then DeliveryFailed else Queued,
                    availableAt := now + retrySeconds, claimedBy := None, claimExpiresAt := None,
                    updatedAt := now))
    }

    /** The order in which the queries list messages. */
    predicate Before(other: OutboxMessage) {
      createdAt < other.createdAt || (createdAt == other.createdAt && messageId < other.messageId)
    }
  }

  function CreateMessage(messageId: Id, topic: Id, key: Id, payload: Id, maxAttempts: int, now: Instant):
    Result<OutboxMessage>
  {
    if !(1 <= maxAttempts <= MAX_DELIVERY_ATTEMPTS) then Err(InvalidValue)
    else Ok(OutboxMessage(messageId, topic, key, payload, Queued, 0, maxAttempts, 0, now, None, None, now, now))
  }

  /** A message may be published with up to a hundred attempts, and then waits for its
      first delivery from the moment of its creation on. */
  lemma PublishedIsClaimable(messageId: Id, topic: Id, key: Id, payload: Id, maxAttempts: int, now: Instant, worker: Id,
                             later: Instant, lease: int)
    ensures
      var created := CreateMessage(messageId, topic, key, payload, maxAttempts, now);
      && (created.Ok? <==> 1 <= maxAttempts <= 100) && (created.Err? ==> created == Err(InvalidValue))
      && (created.Ok? ==>
            var claimed := created.value.Claim(worker, later, lease);
            && (claimed.Ok? <==> now <= later && 1 <= lease <= 86_400)
            && (claimed.Ok? ==>
                  claimed.value == OutboxMessage(messageId, topic, key, payload, Delivering, 1, maxAttempts, 1, now,
                                                 Some(worker), Some(later + lease), now, later)))
  {
  }

  // ---------------------------------------------------------------- the table

  type Table = map<Id, OutboxMessage>

  predicate SameIntent(a: OutboxMessage, b: OutboxMessage) {
    a.topic == b.topic && a.idempotencyKey == b.idempotencyKey
  }

  /** Row keys agree with the rows, and UNIQUE(topic, idempotency_key). */
  ghost predicate WellKeyed(t: Table) {
    && (forall id :: id in t ==> t[id].messageId == id)
    && (forall a, b :: a in t && b in t && SameIntent(t[a], t[b]) ==> a == b)
  }

  /** A row may change anything but its identifier and its intent. */
  lemma UpdateKeepsKeys(t: Table, id: Id, m: OutboxMessage)
    requires WellKeyed(t) && id in t && m.messageId == id && SameIntent(m, t[id])
    ensures WellKeyed(t[id := m])
  {
    var t' := t[id := m];
    forall a, b | a in t' && b in t' && SameIntent(t'[a], t'[b]) ensures a == b {
      assert SameIntent(t[a], t[b]);
    }
  }

  /** `_enqueue_outbox_locked` as a function: an intent already stored is
      returned unchanged, provided the two agree on payload and attempt limit. */
  ghost function Enqueue(t: Table, m: OutboxMessage): Result<(Table, OutboxMessage)> {
    if exists id :: id in t && SameIntent(t[id], m) then
      var id :| id in t && SameIntent(t[id], m);
      if t[id].payload != m.payload || t[id].maxAttempts != m.maxAttempts then Err(InvalidValue)
      else Ok((t, t[id]))
    else if m.messageId in t then Err(IntegrityError)
    else Ok((t[m.messageId := m], m))
  }

  ghost function EnqueueAll(t: Table, messages: seq<OutboxMessage>): Result<Table>
    decreases |messages|
  {
    if messages == [] then Ok(t)
    else match Enqueue(t, messages[0])
      case Err(e) => Err(e)
      case Ok((t', _)) => EnqueueAll(t', messages[1..])
  }

  lemma EnqueueKeepsKeys(t: Table, m: OutboxMessage)
    requires WellKeyed(t)
    ensures Enqueue(t, m).Ok? ==> WellKeyed(Enqueue(t, m).value.0)
  {
  }

  lemma {:induction false} EnqueueAllKeepsKeys(t: Table, messages: seq<OutboxMessage>)
    requires WellKeyed(t)
    ensures EnqueueAll(t, messages).Ok? ==> WellKeyed(EnqueueAll(t, messages).value)
    decreases |messages|
  {
    if messages != [] {
      EnqueueKeepsKeys(t, messages[0]);
      if Enqueue(t, messages[0]).Ok? {
        EnqueueAllKeepsKeys(Enqueue(t, messages[0]).value.0, messages[1..]);
      }
    }
  }

  /** Publishing the same intent again changes nothing and answers with the
      message stored first, however often it has been delivered since. */
  lemma EnqueueIsIdempotent(t: Table, m: OutboxMessage, again: OutboxMessage)
    requires WellKeyed(t) && Enqueue(t, m).Ok?
    requires SameIntent(m, again) && again.payload == m.payload && again.maxAttempts == m.maxAttempts
    ensures Enqueue(Enqueue(t, m).value.0, again) == Enqueue(t, m)
  {
    var (t', stored) := Enqueue(t, m).value;
    EnqueueKeepsKeys(t, m);
    assert stored.messageId in t' && SameIntent(t'[stored.messageId], again);
  }

  // ---------------------------------------------------------------- what a batch is refused for

  /** The two publish the same thing. */
  predicate SameContent(a: OutboxMessage, b: OutboxMessage) {
    a.payload == b.payload && a.maxAttempts == b.maxAttempts
  }

  /** Message `i` repeats an intent, stored or earlier in the batch, with another
      payload or attempt limit. */
  predicate Contradicts(t: Table, messages: seq<OutboxMessage>, i: nat)
    requires i < |messages|
  {
    || (exists id :: id in t && SameIntent(t[id], messages[i]) && !SameContent(t[id], messages[i]))
    || (exists j :: 0 <= j < i && SameIntent(messages[j], messages[i]) && !SameContent(messages[j], messages[i]))
  }

  /** Neither stored nor earlier in the batch. */
  predicate NewIntent(t: Table, messages: seq<OutboxMessage>, i: nat)
    requires i < |messages|
  {
    && (forall id :: id in t ==> !SameIntent(t[id], messages[i]))
    && (forall j :: 0 <= j < i ==> !SameIntent(messages[j], messages[i]))
  }

  /** Message `i` brings a new intent under an identifier that is stored or was
      used by an earlier new intent of the batch. */
  predicate Collides(t: Table, messages: seq<OutboxMessage>, i: nat)
    requires i < |messages|
  {
    && NewIntent(t, messages, i)
    && (messages[i].messageId in t
        || exists j :: 0 <= j < i && NewIntent(t, messages, j) && messages[j].messageId == messages[i].messageId)
  }

  predicate Fits(t: Table, messages: seq<OutboxMessage>, i: nat)
    requires i < |messages|
  {
    !Contradicts(t, messages, i) && !Collides(t, messages, i)
  }

  predicate AllFit(t: Table, messages: seq<OutboxMessage>) {
    forall i :: 0 <= i < |messages| ==> Fits(t, messages, i)
  }

  /** The first message that does not fit. */
  predicate FirstMisfit(t: Table, messages: seq<OutboxMessage>, i: nat) {
    i < |messages| && !Fits(t, messages, i) && forall j :: 0 <= j < i ==> Fits(t, messages, j)
  }

  ghost predicate FirstContradicts(t: Table, messages: seq<OutboxMessage>) {
    exists i :: FirstMisfit(t, messages, i) && Contradicts(t, messages, i)
  }

  ghost predicate FirstCollides(t: Table, messages: seq<OutboxMessage>) {
    exists i :: FirstMisfit(t, messages, i) && Collides(t, messages, i)
  }

  /** One message: an intent is the pair of topic and key. A stored one is answered as
      it is, provided payload and limit agree; a new one becomes a row under a new
      identifier. */
  lemma EnqueueDecides(t: Table, m: OutboxMessage, id: Id)
    requires WellKeyed(t) && id in t
    ensures
      var same := t[id].topic == m.topic && t[id].idempotencyKey == m.idempotencyKey;
      && (same ==> Enqueue(t, m) == if t[id].payload == m.payload && t[id].maxAttempts == m.maxAttempts
                                    then Ok((t, t[id])) else Err(InvalidValue))
      && (Enqueue(t, m) == Ok((t, t[id])) ==> same)
      && (Enqueue(t, m) == Err(IntegrityError) ==> m.messageId in t && !same)
      && (Enqueue(t, m).Ok? && Enqueue(t, m).value.0 != t ==>
            m.messageId !in t && Enqueue(t, m) == Ok((t[m.messageId := m], m)))
  {
  }

  /** The first message alone. */
  lemma EnqueueExactly(t: Table, messages: seq<OutboxMessage>)
    requires WellKeyed(t) && messages != []
    ensures Enqueue(t, messages[0]).Ok? <==> Fits(t, messages, 0)
    ensures Enqueue(t, messages[0]) == Err(InvalidValue) <==> Contradicts(t, messages, 0)
    ensures Enqueue(t, messages[0]) == Err(IntegrityError) <==> Collides(t, messages, 0)
  {
  }

  /** The first message is stored, or was: the table the others find. */
  predicate Stores(t: Table, m: OutboxMessage, t': Table) {
    if exists id :: id in t && SameIntent(t[id], m) then
      t' == t && forall id :: id in t && SameIntent(t[id], m) ==> SameContent(t[id], m)
    else m.messageId !in t && t' == t[m.messageId := m]
  }

  lemma EnqueueStores(t: Table, m: OutboxMessage)
    requires WellKeyed(t) && Enqueue(t, m).Ok?
    ensures Stores(t, m, Enqueue(t, m).value.0)
  {
  }

  /** Once the first message is stored, the others fit as they did in the batch. */
  lemma RestIsNew(t: Table, messages: seq<OutboxMessage>, t': Table, i: nat)
    requires i + 1 < |messages| && Stores(t, messages[0], t')
    ensures NewIntent(t', messages[1..], i) <==> NewIntent(t, messages, i + 1)
  {
    var m, rest := messages[i + 1], messages[1..];
    if NewIntent(t', rest, i) {
      forall id | id in t ensures !SameIntent(t[id], m) {
        assert t'[id] == t[id];
      }
      forall j | 0 <= j < i + 1 ensures !SameIntent(messages[j], m) {
        if j > 0 {
          assert rest[j - 1] == messages[j];
        } else if exists id :: id in t && SameIntent(t[id], messages[0]) {
          var id :| id in t && SameIntent(t[id], messages[0]);
          assert !SameIntent(t'[id], m);
        } else {
          assert t'[messages[0].messageId] == messages[0];
        }
      }
    }
    if NewIntent(t, messages, i + 1) {
      forall j | 0 <= j < i ensures !SameIntent(rest[j], m) {
        assert rest[j] == messages[j + 1];
      }
      assert !SameIntent(messages[0], m);
    }
  }

  lemma RestContradicts(t: Table, messages: seq<OutboxMessage>, t': Table, i: nat)
    requires i + 1 < |messages| && Stores(t, messages[0], t')
    ensures Contradicts(t', messages[1..], i) <==> Contradicts(t, messages, i + 1)
  {
    var m, rest := messages[i + 1], messages[1..];
    if Contradicts(t', rest, i) {
      if id :| id in t' && SameIntent(t'[id], m) && !SameContent(t'[id], m) {
        assert id in t ==> t[id] == t'[id];
        assert id !in t ==> t'[id] == messages[0];
      } else {
        var j :| 0 <= j < i && SameIntent(rest[j], m) && !SameContent(rest[j], m);
        assert rest[j] == messages[j + 1];
      }
    }
    if Contradicts(t, messages, i + 1) {
      if id :| id in t && SameIntent(t[id], m) && !SameContent(t[id], m) {
        assert t'[id] == t[id];
      } else {
        var j :| 0 <= j < i + 1 && SameIntent(messages[j], m) && !SameContent(messages[j], m);
        if j > 0 {
          assert rest[j - 1] == messages[j];
        } else if id :| id in t && SameIntent(t[id], messages[0]) {
          assert t'[id] == t[id];
        } else {
          assert t'[messages[0].messageId] == messages[0];
        }
      }
    }
  }

  lemma RestCollides(t: Table, messages: seq<OutboxMessage>, t': Table, i: nat)
    requires i + 1 < |messages| && Stores(t, messages[0], t')
    ensures Collides(t', messages[1..], i) <==> Collides(t, messages, i + 1)
  {
    var m, rest := messages[i + 1], messages[1..];
    RestIsNew(t, messages, t', i);
    if Collides(t', rest, i) {
      if m.messageId in t' {
        assert m.messageId in t || NewIntent(t, messages, 0);
      } else {
        var j :| 0 <= j < i && NewIntent(t', rest, j) && rest[j].messageId == m.messageId;
        RestIsNew(t, messages, t', j);
        assert rest[j] == messages[j + 1];
      }
    }
    if Collides(t, messages, i + 1) && m.messageId !in t' {
      var j :| 0 <= j < i + 1 && NewIntent(t, messages, j) && messages[j].messageId == m.messageId;
      assert j > 0;
      RestIsNew(t, messages, t', j - 1);
      assert rest[j - 1] == messages[j];
    }
  }

  lemma RestFits(t: Table, messages: seq<OutboxMessage>, t': Table)
    requires messages != [] && Stores(t, messages[0], t')
    ensures forall i :: 0 <= i < |messages| - 1 ==>
              && (Contradicts(t', messages[1..], i) <==> Contradicts(t, messages, i + 1))
              && (Collides(t', messages[1..], i) <==> Collides(t, messages, i + 1))
  {
    forall i | 0 <= i < |messages| - 1
      ensures Contradicts(t', messages[1..], i) <==> Contradicts(t, messages, i + 1)
      ensures Collides(t', messages[1..], i) <==> Collides(t, messages, i + 1)
    {
      RestContradicts(t, messages, t', i);
      RestCollides(t, messages, t', i);
    }
  }

  /** The first misfit of the batch is its first message, or the first misfit of the rest. */
  lemma MisfitsShift(t: Table, messages: seq<OutboxMessage>, t': Table)
    requires messages != [] && Fits(t, messages, 0) && Stores(t, messages[0], t')
    ensures AllFit(t, messages) <==> AllFit(t', messages[1..])
    ensures FirstContradicts(t, messages) <==> FirstContradicts(t', messages[1..])
    ensures FirstCollides(t, messages) <==> FirstCollides(t', messages[1..])
  {
    var rest := messages[1..];
    RestFits(t, messages, t');
    if AllFit(t', rest) {
      forall i | 0 < i < |messages| ensures Fits(t, messages, i) {
        assert Fits(t', rest, i - 1);
      }
    }
    forall i | 0 <= i < |rest| ensures Fits(t', rest, i) <==> Fits(t, messages, i + 1) {
    }
    forall i: nat | i < |rest| ensures FirstMisfit(t', rest, i) <==> FirstMisfit(t, messages, i + 1) {
      ShiftMisfit(t, messages, t', i);
    }
    if exists i: nat :: FirstMisfit(t, messages, i) {
      var i: nat :| FirstMisfit(t, messages, i);
      assert i > 0;
      assert FirstMisfit(t', rest, i - 1);
    }
    if exists i: nat :: FirstMisfit(t', rest, i) {
      var i: nat :| FirstMisfit(t', rest, i);
      assert FirstMisfit(t, messages, i + 1);
    }
    OneMisfit(t, messages);
    OneMisfit(t', rest);
  }

  lemma OneMisfit(t: Table, messages: seq<OutboxMessage>)
    ensures forall i: nat, j: nat :: FirstMisfit(t, messages, i) && FirstMisfit(t, messages, j) ==> i == j
  {
  }

  lemma ShiftMisfit(t: Table, messages: seq<OutboxMessage>, t': Table, i: nat)
    requires messages != [] && Fits(t, messages, 0) && i < |messages| - 1
    requires forall j :: 0 <= j < |messages| - 1 ==> (Fits(t', messages[1..], j) <==> Fits(t, messages, j + 1))
    ensures FirstMisfit(t', messages[1..], i) <==> FirstMisfit(t, messages, i + 1)
  {
    if FirstMisfit(t', messages[1..], i) {
      forall j | 0 <= j < i + 1 ensures Fits(t, messages, j) {
        if j > 0 {
          assert Fits(t', messages[1..], j - 1);
        }
      }
    }
    if FirstMisfit(t, messages, i + 1) {
      forall j | 0 <= j < i ensures Fits(t', messages[1..], j) {
        assert Fits(t, messages, j + 1);
      }
    }
  }

  /** The batch is accepted exactly when every message fits; otherwise the first
      one that does not decides the error. */
  lemma {:induction false} EnqueueAllExactly(t: Table, messages: seq<OutboxMessage>)
    requires WellKeyed(t)
    ensures EnqueueAll(t, messages).Ok? <==> AllFit(t, messages)
    ensures EnqueueAll(t, messages) == Err(InvalidValue) <==> FirstContradicts(t, messages)
    ensures EnqueueAll(t, messages) == Err(IntegrityError) <==> FirstCollides(t, messages)
    decreases |messages|
  {
    if messages != [] {
      EnqueueExactly(t, messages);
      if Enqueue(t, messages[0]).Ok? {
        var t' := Enqueue(t, messages[0]).value.0;
        EnqueueKeepsKeys(t, messages[0]);
        EnqueueStores(t, messages[0]);
        MisfitsShift(t, messages, t');
        EnqueueAllExactly(t', messages[1..]);
      } else {
        FirstDecides(t, messages);
      }
    }
  }

  lemma FirstDecides(t: Table, messages: seq<OutboxMessage>)
    requires messages != [] && !Fits(t, messages, 0)
    ensures !AllFit(t, messages)
    ensures FirstContradicts(t, messages) <==> Contradicts(t, messages, 0)
    ensures FirstCollides(t, messages) <==> Collides(t, messages, 0)
  {
    assert FirstMisfit(t, messages, 0);
    assert forall i :: FirstMisfit(t, messages, i) ==> i == 0;
  }

  lemma {:induction false} EnqueueRefusals(t: Table, messages: seq<OutboxMessage>)
    ensures EnqueueAll(t, messages).Ok? || EnqueueAll(t, messages) == Err(InvalidValue)
            || EnqueueAll(t, messages) == Err(IntegrityError)
    decreases |messages|
  {
    if messages != [] && Enqueue(t, messages[0]).Ok? {
      EnqueueRefusals(Enqueue(t, messages[0]).value.0, messages[1..]);
    }
  }

  // ---------------------------------------------------------------- what an accepted batch leaves

  /** The table holds the intent, with this content. */
  predicate Published(t: Table, m: OutboxMessage) {
    exists id :: id in t && SameIntent(t[id], m) && SameContent(t[id], m)
  }

  /** Every intent of the batch is stored, every row stored before is as it was,
      and no other row has been added. */
  predicate Publishes(t: Table, t': Table, messages: seq<OutboxMessage>) {
    && (forall m :: m in messages ==> Published(t', m))
    && (forall id :: id in t ==> id in t' && t'[id] == t[id])
    && (forall id :: id in t' && id !in t ==> t'[id] in messages)
  }

  lemma StoresPublishes(t: Table, m: OutboxMessage, t': Table)
    requires Stores(t, m, t')
    ensures Published(t', m)
  {
    if id :| id in t && SameIntent(t[id], m) {
      assert SameContent(t'[id], m);
    } else {
      assert t'[m.messageId] == m;
    }
  }

  lemma {:induction false} EnqueueAllPublishes(t: Table, messages: seq<OutboxMessage>)
    requires WellKeyed(t) && EnqueueAll(t, messages).Ok?
    ensures Publishes(t, EnqueueAll(t, messages).value, messages)
    decreases |messages|
  {
    if messages != [] {
      var first, rest := messages[0], messages[1..];
      var (t', stored) := Enqueue(t, first).value;
      EnqueueKeepsKeys(t, first);
      EnqueueStores(t, first);
      EnqueueAllPublishes(t', rest);
      var final := EnqueueAll(t', rest).value;
      assert Published(final, first) by {
        StoresPublishes(t, first, t');
        var id :| id in t' && SameIntent(t'[id], first) && SameContent(t'[id], first);
        assert final[id] == t'[id];
      }
      forall m | m in messages ensures Published(final, m) {
        assert m == first || m in rest;
      }
      forall id | id in final && id !in t ensures final[id] in messages {
        if id in t' {
          assert final[id] == first == messages[0];
        } else {
          assert final[id] in rest;
        }
      }
    }
  }
}
