/** The outbox methods of the repository (src/seed_society/storage.py). Each
    method is one transaction: an error restores the rows it started from. */
module OutboxRepository {
  import opened Domain
  import opened Outbox

  /** The rows that a claim's query lists. */
  predicate Selected(m: OutboxMessage, topic: Option<Id>, now: Instant) {
    (topic.None? || topic.value == m.topic) && m.Claimable(now)
  }

  // ---------------------------------------------------------------- what the transactions do

  /** A row that asks for a delivery: it waits and its time has come, or its last
      lease is over. */
  predicate Due(m: OutboxMessage, topic: Option<Id>, now: Instant) {
    && (topic.Some? ==> m.topic == topic.value)
    && ((m.status == Queued && m.availableAt <= now)
        || (m.status == Delivering && m.claimExpiresAt.Some? && m.claimExpiresAt.value <= now))
  }

  /** Rows that a claim may lease. */
  predicate Leasable(m: OutboxMessage, topic: Option<Id>, now: Instant) {
    Due(m, topic, now) && (m.status == Delivering ==> m.attemptCount < m.maxAttempts)
  }

  /** Rows that a claim gives up on its way to the row it leases. */
  predicate Hopeless(m: OutboxMessage, topic: Option<Id>, now: Instant) {
    Due(m, topic, now) && m.status == Delivering && m.maxAttempts <= m.attemptCount
  }

  /** The order in which rows are listed: by creation, then by identifier. */
  predicate Precedes(t: Table, id: Id, other: Id)
    requires id in t && other in t
  {
    t[id].createdAt < t[other].createdAt || (t[id].createdAt == t[other].createdAt && id < other)
  }

  predicate FirstLeasable(t: Table, id: Id, topic: Option<Id>, now: Instant) {
    && id in t && Leasable(t[id], topic, now)
    && forall other :: other in t && other != id && Leasable(t[other], topic, now) ==> Precedes(t, id, other)
  }

  /** The delivery of every hopeless row listed before the bound has failed, without
      a lease; no other row has changed. */
  predicate GivenUp(t: Table, t': Table, topic: Option<Id>, now: Instant, bound: Option<Id>)
    requires bound.Some? ==> bound.value in t
  {
    && t'.Keys == t.Keys
    && forall id :: id in t && Some(id) != bound ==>
         t'[id] ==
         if Hopeless(t[id], topic, now) && (bound.Some? ==> Precedes(t, id, bound.value))
         then t[id].(status := DeliveryFailed, claimExpiresAt := None, updatedAt := now)
         else t[id]
  }

  /** What one `claim_outbox` transaction does to the table. */
  ghost predicate Claims(t: Table, t': Table, workerId: Id, topic: Option<Id>, now: Instant, lease: int,
                         r: Result<Option<OutboxMessage>>)
  {
    match r
    case Err(e) =>
      t' == t && e.InvalidValue? && !(1 <= lease <= 86_400) && exists id :: id in t && Leasable(t[id], topic, now)
    case Ok(None) =>
      && (forall id :: id in t ==> !Leasable(t[id], topic, now))
      && GivenUp(t, t', topic, now, None)
      && (forall id :: id in t' ==> !Due(t'[id], topic, now))
    case Ok(Some(claimed)) =>
      var id := claimed.messageId;
      && FirstLeasable(t, id, topic, now) && 1 <= lease <= 86_400
      && claimed == t[id].(status := Delivering, attemptCount := t[id].attemptCount + 1,
                           deliveryToken := t[id].deliveryToken + 1, claimedBy := Some(workerId),
                           claimExpiresAt := Some(now + lease), updatedAt := now)
      && GivenUp(t, t', topic, now, Some(id)) && t'[id] == claimed
  }

  /** The live lease of a delivery: who may still settle or extend it. */
  predicate HoldsDelivery(t: Table, id: Id, workerId: Id, token: int, now: Instant) {
    && id in t && t[id].status == Delivering && t[id].claimedBy == Some(workerId) && t[id].deliveryToken == token
    && t[id].claimExpiresAt.Some? && now < t[id].claimExpiresAt.value
  }

  predicate Finished(m: OutboxMessage, before: Instant) {
    (m.status == Delivered || m.status == DeliveryFailed) && m.updatedAt < before
  }

  /** What one `purge_outbox` transaction does to the table: it deletes finished
      rows older than the cutoff, oldest first, at most `limit` of them. */
  ghost predicate Purges(t: Table, t': Table, before: Instant, limit: int, r: Result<nat>) {
    match r
    case Err(e) => t' == t && !(1 <= limit <= 10_000) && e.InvalidValue?
    case Ok(deleted) =>
      && (1 <= limit <= 10_000) && t'.Keys <= t.Keys && deleted == |t| - |t'| <= limit
      && (forall id :: id in t' ==> t'[id] == t[id])
      && (forall id :: id in t && id !in t' ==> Finished(t[id], before))
      && (forall id, kept :: id in t && id !in t' && kept in t' && Finished(t'[kept], before)
            ==> deleted == limit && Precedes(t, id, kept))
      && (deleted < limit ==> forall id :: id in t' ==> !Finished(t'[id], before))
  }

  // ---------------------------------------------------------------- the search for a row

  predicate FirstSelected(t: Table, id: Id, topic: Option<Id>, now: Instant) {
    && id in t && Selected(t[id], topic, now)
    && forall other :: other in t && other != id && Selected(t[other], topic, now) ==> t[id].Before(t[other])
  }

  /** Loop invariant of the claim search: exactly `done` has been given up, and
      every row in it precedes every row still selected. */
  ghost predicate Sweeping(saved: Table, t: Table, done: set<Id>, topic: Option<Id>, now: Instant) {
    && WellKeyed(saved) && t.Keys == saved.Keys && done <= saved.Keys
    && (forall id :: id in saved ==>
          t[id] == if id in done
                   then saved[id].(status := DeliveryFailed, claimExpiresAt := None, updatedAt := now)
                   else saved[id])
    && (forall id :: id in done ==> Hopeless(saved[id], topic, now))
    && (forall id, other :: id in done && other in t && Selected(t[other], topic, now) ==> saved[id].Before(t[other]))
  }

  lemma SweepOne(saved: Table, t: Table, done: set<Id>, id: Id, topic: Option<Id>, now: Instant)
    requires Sweeping(saved, t, done, topic, now) && FirstSelected(t, id, topic, now) && t[id].Exhausted()
    ensures id !in done && t[id] == saved[id] && saved[id].Expire(now).Ok?
    ensures Sweeping(saved, t[id := saved[id].Expire(now).value], done + {id}, topic, now)
  {
  }

  lemma SweptAll(saved: Table, t: Table, done: set<Id>, topic: Option<Id>, now: Instant)
    requires Sweeping(saved, t, done, topic, now)
    requires forall id :: id in t ==> !Selected(t[id], topic, now)
    ensures GivenUp(saved, t, topic, now, None)
    ensures forall id :: id in saved ==> !Leasable(saved[id], topic, now)
    ensures forall id :: id in t ==> !Due(t[id], topic, now)
  {
    forall id | id in saved ensures !Leasable(saved[id], topic, now) && !Due(t[id], topic, now)
                            ensures Hopeless(saved[id], topic, now) ==> id in done
    {
      assert !Selected(t[id], topic, now);
    }
  }

  lemma SweptUpTo(saved: Table, t: Table, done: set<Id>, first: Id, topic: Option<Id>, now: Instant)
    requires Sweeping(saved, t, done, topic, now)
    requires FirstSelected(t, first, topic, now) && !t[first].Exhausted()
    ensures first in saved && GivenUp(saved, t, topic, now, Some(first)) && t[first] == saved[first]
    ensures FirstLeasable(saved, first, topic, now)
  {
    assert first !in done;
    forall id | id in saved && id != first
      ensures id in done <==> Hopeless(saved[id], topic, now) && Precedes(saved, id, first)
    {
      if id in done {
        assert saved[id].Before(saved[first]);
      } else if Selected(saved[id], topic, now) {
        assert saved[first].Before(saved[id]);
      }
    }
  }

  /** Loop invariant of the purge: the finished rows listed first are gone. */
  ghost predicate Purging(saved: Table, t: Table, before: Instant) {
    && t.Keys <= saved.Keys && (forall id :: id in t ==> t[id] == saved[id])
    && (forall id :: id in saved && id !in t ==> Finished(saved[id], before))
    && (forall id, kept :: id in saved && id !in t && kept in t && Finished(t[kept], before)
          ==> Precedes(saved, id, kept))
  }

  lemma PurgeOne(saved: Table, t: Table, first: Id, before: Instant)
    requires WellKeyed(t) && Purging(saved, t, before) && first in t && Finished(t[first], before)
    requires forall id :: id in t && id != first && Finished(t[id], before) ==> t[first].Before(t[id])
    ensures Purging(saved, t - {first}, before)
  {
  }

  class OutboxTable {
    var rows: Table

    ghost predicate Valid()
      reads this
    {
      WellKeyed(rows)
    }

    constructor ()
      ensures Valid() && rows == map[]
    {
      rows := map[];
    }

    /** `SELECT ... ORDER BY created_at, message_id LIMIT 1`. */
    method SelectFirst(topic: Option<Id>, now: Instant) returns (found: Option<Id>)
      requires Valid()
      ensures found.None? ==> forall id :: id in rows ==> !Selected(rows[id], topic, now)
      ensures found.Some? ==> found.value in rows && Selected(rows[found.value], topic, now)
      ensures found.Some? ==>
                forall id :: id in rows && id != found.value && Selected(rows[id], topic, now)
                             ==> rows[found.value].Before(rows[id])
    {
      found := None;
      var pending := rows.Keys;
      while pending != {}
        invariant pending <= rows.Keys
        invariant found.None? ==> forall id :: id in rows && id !in pending ==> !Selected(rows[id], topic, now)
        invariant found.Some? ==>
                    found.value in rows && found.value !in pending && Selected(rows[found.value], topic, now)
        invariant found.Some? ==>
                    forall id :: id in rows && id !in pending && id != found.value && Selected(rows[id], topic, now)
                                 ==> rows[found.value].Before(rows[id])
        decreases pending
      {
        var id :| id in pending;
        pending := pending - {id};
        if Selected(rows[id], topic, now) && (found.None? || rows[id].Before(rows[found.value])) {
          found := Some(id);
        }
      }
    }

    /** `SELECT payload ... WHERE topic=? AND idempotency_key=?`. */
    method FindIntent(m: OutboxMessage) returns (found: Option<Id>)
      requires Valid()
      ensures found.Some? ==> found.value in rows && SameIntent(rows[found.value], m)
      ensures found.None? ==> forall id :: id in rows ==> !SameIntent(rows[id], m)
    {
      found := None;
      var pending := rows.Keys;
      while pending != {}
        invariant pending <= rows.Keys
        invariant found.Some? ==> found.value in rows && SameIntent(rows[found.value], m)
        invariant found.None? ==> forall id :: id in rows && id !in pending ==> !SameIntent(rows[id], m)
        decreases pending
      {
        var id :| id in pending;
        pending := pending - {id};
        if SameIntent(rows[id], m) {
          found := Some(id);
        }
      }
    }

    /** `_enqueue_outbox_locked`, inside the caller's transaction. */
    method EnqueueLocked(m: OutboxMessage) returns (r: Result<OutboxMessage>)
      requires Valid()
      modifies this
      ensures Valid()
      ensures match Enqueue(old(rows), m)
              case Ok((t, stored)) => rows == t && r == Ok(stored)
              case Err(e) => rows == old(rows) && r == Err(e)
    {
      EnqueueKeepsKeys(rows, m);
      var found := FindIntent(m);
      match found {
        case Some(id) =>
          var existing := rows[id];
          assert SameIntent(rows[id], m);
          if existing.payload != m.payload || existing.maxAttempts != m.maxAttempts {
            r := Err(InvalidValue);
          } else {
            r := Ok(existing);
          }
        case None =>
          if m.messageId in rows {
            r := Err(IntegrityError);
          } else {
            rows := rows[m.messageId := m];
            r := Ok(m);
          }
      }
    }

    /** `enqueue_outbox`. */
    method EnqueueOutbox(m: OutboxMessage) returns (r: Result<OutboxMessage>)
      requires Valid()
      modifies this
      ensures Valid()
      ensures match Enqueue(old(rows), m)
              case Ok((t, stored)) => rows == t && r == Ok(stored)
              case Err(e) => rows == old(rows) && r == Err(e)
    {
      var saved := rows;
      r := EnqueueLocked(m);
      if r.Err? {
        rows := saved;
      }
    }

    /** `claim_outbox`: leases the first leasable row in (created_at, message_id)
        order for the time asked, marks failed exactly the exhausted rows in front of
        it, and touches nothing else; an empty answer leaves no row that is due. */
    method ClaimOutbox(workerId: Id, topic: Option<Id>, now: Instant, lease: int)
      returns (r: Result<Option<OutboxMessage>>)
      requires Valid()
      modifies this
      ensures Valid()
      ensures Claims(old(rows), rows, workerId, topic, now, lease, r)
    {
      var saved := rows;
      var first := RetireExhausted(topic, now);
      if first.None? {
        return Ok(None);
      }
      var current := rows[first.value];
      var claimed := current.Claim(workerId, now, lease);
      if claimed.Err? {
        rows := saved;
        return Err(claimed.error);
      }
      rows := rows[current.messageId := claimed.value];
      r := Ok(Some(claimed.value));
    }

    /** The search loop of `claim_outbox`: marks failed every exhausted row it
        meets and stops at the first row it may lease. */
    method RetireExhausted(topic: Option<Id>, now: Instant) returns (first: Option<Id>)
      requires Valid()
      modifies this
      ensures Valid()
      ensures first.None? ==>
                && (forall id :: id in old(rows) ==> !Leasable(old(rows)[id], topic, now))
                && GivenUp(old(rows), rows, topic, now, None)
                && (forall id :: id in rows ==> !Due(rows[id], topic, now))
      ensures first.Some? ==>
                && FirstLeasable(old(rows), first.value, topic, now)
                && GivenUp(old(rows), rows, topic, now, first)
                && rows[first.value] == old(rows)[first.value]
    {
      ghost var saved := rows;
      ghost var retired: set<Id> := {};
      first := SelectFirst(topic, now);
      while first.Some? && rows[first.value].Exhausted()
        invariant Valid() && Sweeping(saved, rows, retired, topic, now)
        invariant first.None? ==> forall id :: id in rows ==> !Selected(rows[id], topic, now)
        invariant first.Some? ==> FirstSelected(rows, first.value, topic, now)
        decreases saved.Keys - retired
      {
        var id := first.value;
        var exhausted := rows[id].Expire(now);
        SweepOne(saved, rows, retired, id, topic, now);
        UpdateKeepsKeys(rows, id, exhausted.value);
        rows := rows[id := exhausted.value];
        retired := retired + {id};
        first := SelectFirst(topic, now);
      }
      if first.None? {
        SweptAll(saved, rows, retired, topic, now);
      } else {
        SweptUpTo(saved, rows, retired, first.value, topic, now);
      }
    }

    /** `renew_outbox`: accepted exactly from the holder of the live lease, which then
        runs for the time asked from now on. */
    method RenewOutbox(messageId: Id, workerId: Id, token: int, now: Instant, lease: int)
      returns (r: Result<OutboxMessage>)
      requires Valid()
      modifies this
      ensures Valid()
      ensures r == (if messageId !in old(rows) then Err(InvalidValue)
                    else old(rows)[messageId].Renew(workerId, token, now, lease))
      ensures r.Ok? <==> HoldsDelivery(old(rows), messageId, workerId, token, now) && 1 <= lease <= 86_400
      ensures r.Ok? ==> r.value == old(rows)[messageId].(claimExpiresAt := Some(now + lease), updatedAt := now)
      ensures r.Err? ==> r.error.InvalidValue?
      ensures rows == if r.Ok? then old(rows)[messageId := r.value] else old(rows)
    {
      if messageId !in rows {
        return Err(InvalidValue);
      }
      r := rows[messageId].Renew(workerId, token, now, lease);
      if r.Ok? {
        rows := rows[messageId := r.value];
      }
    }

    /** `complete_outbox`: accepted exactly from the holder of the live lease; `failed`
        stands for a non-empty error text. */
    method CompleteOutbox(messageId: Id, workerId: Id, token: int, now: Instant, failed: bool, retrySeconds: int)
      returns (r: Result<OutboxMessage>)
      requires Valid()
      modifies this
      ensures Valid()
      ensures r == (if messageId !in old(rows) then Err(InvalidValue)
                    else if failed then old(rows)[messageId].Fail(workerId, token, now, retrySeconds)
                    else old(rows)[messageId].Deliver(workerId, token, now))
      ensures r.Ok? <==>
        HoldsDelivery(old(rows), messageId, workerId, token, now) && (failed ==> 0 <= retrySeconds <= 86_400)
      ensures r.Ok? && !failed ==>
        r.value == old(rows)[messageId].(status := Delivered, claimExpiresAt := None, updatedAt := now)
      ensures r.Ok? && failed ==>
        r.value == old(rows)[messageId].(
          status := if old(rows)[messageId].attemptCount < old(rows)[messageId].maxAttempts then Queued
                    else DeliveryFailed,
          availableAt := now + retrySeconds, claimedBy := None, claimExpiresAt := None, updatedAt := now)
      ensures r.Err? ==> r.error.InvalidValue?
      ensures rows == if r.Ok? then old(rows)[messageId := r.value] else old(rows)
    {
      if messageId !in rows {
        return Err(InvalidValue);
      }
      var current := rows[messageId];
      r := if failed then current.Fail(workerId, token, now, retrySeconds)
           else current.Deliver(workerId, token, now);
      if r.Ok? {
        rows := rows[messageId := r.value];
      }
    }

    /** `purge_outbox`: deletes the first `limit` finished rows older than the cutoff. */
    method PurgeOutbox(before: Instant, limit: int) returns (r: Result<nat>)
      requires Valid()
      modifies this
      ensures Valid()
      ensures Purges(old(rows), rows, before, limit, r)
    {
      if !(1 <= limit <= 10_000) {
        return Err(InvalidValue);
      }
      var deleted := 0;
      ghost var saved := rows;
      while deleted < limit
        invariant Valid() && 0 <= deleted <= limit
        invariant Purging(saved, rows, before) && |rows| + deleted == |saved|
        decreases limit - deleted
      {
        var first := FirstFinished(before);
        if first.None? {
          return Ok(deleted);
        }
        PurgeOne(saved, rows, first.value, before);
        rows := rows - {first.value};
        deleted := deleted + 1;
      }
      r := Ok(deleted);
    }

    /** The purge query's first row. */
    method FirstFinished(before: Instant) returns (found: Option<Id>)
      requires Valid()
      ensures found.None? ==> forall id :: id in rows ==> !Finished(rows[id], before)
      ensures found.Some? ==> found.value in rows && Finished(rows[found.value], before)
      ensures found.Some? ==>
                forall id :: id in rows && id != found.value && Finished(rows[id], before)
                             ==> rows[found.value].Before(rows[id])
    {
      found := None;
      var pending := rows.Keys;
      while pending != {}
        invariant pending <= rows.Keys
        invariant found.None? ==> forall id :: id in rows && id !in pending ==> !Finished(rows[id], before)
        invariant found.Some? ==> found.value in rows && found.value !in pending && Finished(rows[found.value], before)
        invariant found.Some? ==>
                    forall id :: id in rows && id !in pending && id != found.value && Finished(rows[id], before)
                                 ==> rows[found.value].Before(rows[id])
        decreases pending
      {
        var id :| id in pending;
        pending := pending - {id};
        var settled := rows[id].status.Delivered? || rows[id].status.DeliveryFailed?;
        if settled && rows[id].updatedAt < before && (found.None? || rows[id].Before(rows[found.value])) {
          found := Some(id);
        }
      }
    }
  }
}
