/** The client side of a claim: what a worker builds from an execution
    (`WorkerService.run_once`, src/seed_society/worker_service.py). */
module WorkerService {
  import opened Domain
  import opened Scheduler
  import opened Outbox
  import opened Store

  /** How an execution ended. The review is taken as it comes; the
      other endings make the worker write a failing review itself. */
  datatype Ending =
    | Reviewed(review: Review)
    | WorkerBlocked(reviewId: Id)
    | ExecutionFailed(reviewId: Id)

  datatype Reply = Reply(artifactId: Option<Id>, ending: Ending, messages: seq<OutboxMessage>)

  function ReviewFor(key: TaskKey, number: int, reply: Reply): Review {
    match reply.ending
    case Reviewed(review) => review
    case WorkerBlocked(id) => Review(id, key, number, Fail, 0.0)
    case ExecutionFailed(id) => Review(id, key, number, Fail, 0.0)
  }

  predicate Passed(key: TaskKey, number: int, reply: Reply, minScore: real) {
    var review := ReviewFor(key, number, reply);
    reply.artifactId.Some? && review.verdict.Pass? && review.score >= minScore
  }

  function ResultingStatus(task: Task, number: int, reply: Reply, minScore: real): TaskStatus {
    if reply.ending.WorkerBlocked? then Blocked
    else if Passed(task.key, number, reply, minScore) then Succeeded
    else if number >= task.maxAttempts then Failed
    else Pending
  }

  /** The whole submission for one attempt on a claimed task. */
  function BuildOutcome(claim: TaskClaim, task: Task, number: int, reply: Reply, attemptId: Id, minScore: real): Outcome
  {
    var review := ReviewFor(task.key, number, reply);
    var passed := Passed(task.key, number, reply, minScore);
    var status := ResultingStatus(task, number, reply, minScore);
    Outcome(
      task.(status := status,
            assignedAgent := if status.Pending? then None else Some(claim.agentId),
            artifact := if passed then reply.artifactId else None),
      if reply.artifactId.Some? then Some(Artifact(reply.artifactId.value, task.key, claim.agentId)) else None,
      Attempt(attemptId, task.key, claim.agentId, number, reply.artifactId, review.reviewId),
      review,
      claim.agentId,
      task.taskType,
      {task.key.goal},
      if passed then reply.messages else [])
  }

  // ---------------------------------------------------------------- what a submission says

  /** The execution left an artifact, and its review accepted it with a high enough score. */
  predicate Convinces(reply: Reply, minScore: real) {
    && reply.artifactId.Some? && reply.ending.Reviewed?
    && reply.ending.review.verdict == Pass && minScore <= reply.ending.review.score
  }

  /** The status an attempt earns its task: blocked exactly when the worker reported
      a block, succeeded exactly when it convinced, failed exactly when it did
      neither and was the last one allowed, and waiting again otherwise. */
  predicate Deserves(status: TaskStatus, task: Task, number: int, reply: Reply, minScore: real) {
    && (status == Blocked <==> reply.ending.WorkerBlocked?)
    && (status == Succeeded <==> Convinces(reply, minScore))
    && (status == Failed <==>
          !reply.ending.WorkerBlocked? && !Convinces(reply, minScore) && task.maxAttempts <= number)
    && (status == Pending <==>
          !reply.ending.WorkerBlocked? && !Convinces(reply, minScore) && number < task.maxAttempts)
  }

  /** The rows of a submission say what happened: the reviewer's review, or a failing
      one of score zero; the artifact, if one was left; the attempt that ties them
      together; and the task, which keeps its plan, its agent unless it waits again,
      and the artifact and the intents of a success alone. */
  ghost predicate Tells(o: Outcome, claim: TaskClaim, task: Task, number: int, reply: Reply, minScore: real) {
    && Deserves(o.task.status, task, number, reply, minScore) && o.task.SamePlan(task)
    && o.task.assignedAgent == (if o.task.status == Pending then None else Some(claim.agentId))
    && o.task.artifact == (if o.task.status == Succeeded then reply.artifactId else None)
    && o.messages == (if o.task.status == Succeeded then reply.messages else [])
    && (if reply.ending.Reviewed? then o.review == reply.ending.review
        else o.review == Review(reply.ending.reviewId, task.key, number, Fail, 0.0))
    && (o.artifact.Some? <==> reply.artifactId.Some?)
    && (o.artifact.Some? ==> o.artifact.value == Artifact(reply.artifactId.value, task.key, claim.agentId))
    && o.attempt == Attempt(o.attempt.attemptId, task.key, claim.agentId, number, reply.artifactId, o.review.reviewId)
    && o.performanceAgent == claim.agentId && o.performanceType == task.taskType
    && forall g :: g in o.eventGoals <==> g == task.key.goal
  }

  /** What a worker hands in tells what happened. */
  lemma BuiltOutcomeTells(claim: TaskClaim, task: Task, number: int, reply: Reply, attemptId: Id, minScore: real)
    ensures Tells(BuildOutcome(claim, task, number, reply, attemptId, minScore), claim, task, number, reply, minScore)
    ensures BuildOutcome(claim, task, number, reply, attemptId, minScore).attempt.attemptId == attemptId
  {
  }

  /** A submission built from a claim and its task passes every identity check
      of the commit, except that the review may be of another attempt. */
  lemma BuiltOutcomeIsConsistent(claim: TaskClaim, task: Task, number: int, reply: Reply, attemptId: Id, minScore: real)
    requires task.key == claim.key
    ensures OutcomeConsistent(claim, BuildOutcome(claim, task, number, reply, attemptId, minScore)) <==>
              (reply.ending.Reviewed? ==> reply.ending.review.key == task.key && reply.ending.review.number == number)
  {
    var o := BuildOutcome(claim, task, number, reply, attemptId, minScore);
    assert o.eventGoals <= {claim.key.goal};
  }
}
