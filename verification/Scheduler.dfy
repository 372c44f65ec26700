/** Ownership records: worker sessions and task claims
    (src/seed_society/scheduler.py). */
module Scheduler {
  import opened Domain

  datatype WorkerSession = WorkerSession(
    workerId: Id,
    sessionId: Id,
    capabilities: set<Id>,
    startedAt: Instant,
    lastHeartbeatAt: Instant,
    expiresAt: Instant)
  {
    predicate IsExpired(now: Instant) {
      expiresAt <= now
    }

    function Heartbeat(now: Instant, ttl: int): Result<WorkerSession> {
      if IsExpired(now) then Err(WorkerSessionRejected)
      else if now < lastHeartbeatAt || !ValidDuration(ttl) then Err(InvalidValue)
      else Ok(this.(lastHeartbeatAt := now, expiresAt := now + ttl))
    }
  }

  function CreateSession(workerId: Id, sessionId: Id, capabilities: set<Id>, now: Instant, ttl: int):
    Result<WorkerSession>
  {
    if !ValidDuration(ttl) then Err(InvalidValue)
    else Ok(WorkerSession(workerId, sessionId, capabilities, now, now, now + ttl))
  }

  datatype ClaimStatus = Live | Committed | Released | Expired

  datatype TaskClaim = TaskClaim(
    claimId: Id,
    key: TaskKey,
    workerId: Id,
    sessionId: Id,
    agentId: Id,
    token: int,
    acquiredAt: Instant,
    renewedAt: Instant,
    expiresAt: Instant,
    status: ClaimStatus,
    finishedAt: Option<Instant>)
  {
    predicate IsExpired(now: Instant) {
      expiresAt <= now
    }

    function Renew(now: Instant, lease: int): Result<TaskClaim> {
      if !status.Live? then Err(InvalidValue)
      else if IsExpired(now) then Err(StaleClaim)
      else if now < renewedAt || !ValidDuration(lease) then Err(InvalidValue)
      else Ok(this.(renewedAt := now, expiresAt := now + lease))
    }

    function Finish(target: ClaimStatus, now: Instant): Result<TaskClaim> {
      if !status.Live? || target.Live? || now < acquiredAt then Err(InvalidValue)
      else Ok(this.(status := target, finishedAt := Some(now)))
    }

    /** The identity a caller must present to act on the claim. */
    predicate Identifies(workerId: Id, sessionId: Id, token: int) {
      this.workerId == workerId && this.sessionId == sessionId && this.token == token
    }
  }

  function CreateClaim(claimId: Id, key: TaskKey, session: WorkerSession, agentId: Id, token: int,
                       now: Instant, lease: int): Result<TaskClaim>
  {
    if token < 1 then Err(InvalidValue)
    else if session.IsExpired(now) then Err(WorkerSessionRejected)
    else if !ValidDuration(lease) then Err(InvalidValue)
    else Ok(TaskClaim(claimId, key, session.workerId, session.sessionId, agentId, token,
                      now, now, now + lease, Live, None))
  }
}
