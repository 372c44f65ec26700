/** A concrete run of the scheduler: one goal with one task, one worker that is
    given the task, and a reviewer that reviews another attempt. */
module SchedulerInstances {
  import opened Domain
  import opened Scheduler
  import opened Outbox
  import opened Store
  import opened StoreInvariant
  import opened StoreCommit
  import opened StoreTransactions
  import opened WorkerService
  import opened SchedulerRuns
  import opened SchedulerSafety
  import opened SchedulerTheorems
  import TaskGraph

  const KEY := TaskKey(0, 0)
  const PLANNED := Task(KEY, 0, [], 0, 2, Pending, None, None)
  const SESSION := WorkerSession(0, 0, {0}, 0, 0, 60)
  const CLAIM := TaskClaim(0, KEY, 0, 0, 7, 1, 0, 0, 30, Live, None)
  const FLIGHT := Flight(CLAIM, Started(PLANNED, 7), Some(1))

  const PLANNING := EMPTY.(goals := map[0 := Planning])
  const STORED := PLANNING.(tasks := map[KEY := PLANNED])
  const RUNNING := STORED.(goals := map[0 := Active], sessions := map[0 := SESSION])
  const HELD := RUNNING.(fences := map[KEY := 1], tasks := map[KEY := Started(PLANNED, 7)], claims := map[0 := CLAIM])

  lemma PlanningReached()
    ensures Reachable(System(PLANNING, map[]))
  {
    assert Reachable(INITIAL) by {
      var states, steps, times: seq<Instant> := [INITIAL], [], [];
      assert Run(states, steps, times) && states[|steps|] == INITIAL;
    }
    ReachableStep(INITIAL, NewGoal(0), 0);
    ReachableStep(Next(INITIAL, NewGoal(0), 0), BeginPlanning(0), 0);
  }

  lemma PlanIsAdmissible()
    ensures Admissible(PLANNING, 0, [PLANNED]) && SaveTasks(PLANNING, [PLANNED]).store == STORED
  {
    var g: TaskGraph.Graph := map[0 := []];
    assert TaskGraph.Describes(g, [PLANNED]);
    assert TaskGraph.FollowsDependencies(g, [0], 0);
    assert (set v | v in [0]) == {0} == g.Keys;
    assert TaskGraph.Topological(g, [0]);
    assert Upsert(map[], [PLANNED]) == Upsert(map[KEY := PLANNED], []);
    assert Admits(PLANNING, SaveTasks(PLANNING, [PLANNED]).store, 0, [PLANNED], g, [0]);
  }

  lemma RunningReached()
    ensures Reachable(System(RUNNING, map[]))
  {
    PlanningReached();
    PlanIsAdmissible();
    ReachableStep(System(PLANNING, map[]), AdmitPlan(0, [PLANNED]), 0);
    assert KEY in STORED.tasks;
    ReachableStep(System(STORED, map[]), StartGoal(0), 0);
    ReachableStep(System(STORED.(goals := map[0 := Active]), map[]), Register(0, 0, {0}, 60), 0);
  }

  lemma TaskIsOffered()
    ensures ClaimNextTask(RUNNING, 0, 0, map[0 := 7], 0, 0, 30) == Txn(HELD, Ok(Some(CLAIM)))
  {
    assert FirstOffered(RUNNING, KEY, map[0 := 7]);
    assert forall key :: FirstOffered(RUNNING, key, map[0 := 7]) ==> key == KEY;
    assert ClaimTask(RUNNING, KEY, 0, 0, 7, 0, 0, 30) == Txn(HELD, Ok(Some(CLAIM)));
  }

  lemma HeldReached()
    ensures Reachable(System(HELD, map[0 := FLIGHT]))
  {
    RunningReached();
    TaskIsOffered();
    ReachableStep(System(RUNNING, map[]), ClaimNext(0, 0, map[0 := 7], 0, 30), 0);
    assert ReviewsOf(HELD, KEY) == {};
    ReachableStep(System(HELD, map[0 := FLIGHT.(attemptNo := None)]), CountReviews(0), 0);
  }

  const PASSING := Reviewed(Review(0, KEY, 1, Pass, 100.0))
  const FIRST := OutboxMessage(0, 0, 0, 0, Queued, 0, 1, 0, 0, None, None, 0, 0)
  const SECOND := OutboxMessage(1, 0, 0, 1, Queued, 0, 1, 0, 0, None, None, 0, 0)

  lemma SecondContradicts(messages: seq<OutboxMessage>)
    requires messages == [FIRST, SECOND]
    ensures FirstContradicts(map[], messages)
  {
    assert Fits(map[], messages, 0) && Contradicts(map[], messages, 1);
    assert FirstMisfit(map[], messages, 1);
  }

  /** The same holder passes its review, and its two messages carry one intent with
      two payloads. Nothing was ever published, and the commit raises a value error. */
  lemma OwnIntentsContradict()
    ensures HELD.outbox == map[] && SameIntent(FIRST, SECOND)
    ensures
      var step := Commit(0, Reply(Some(0), PASSING, [FIRST, SECOND]), 0, 80.0);
      CommitOutcome(HELD, CLAIM, SubmissionOf(FLIGHT, step), 1) == Abort(HELD, InvalidValue)
  {
    HeldReached();
    ReachableIsSafe(System(HELD, map[0 := FLIGHT]));
    var step := Commit(0, Reply(Some(0), PASSING, [FIRST, SECOND]), 0, 80.0);
    SecondContradicts(SubmissionOf(FLIGHT, step).messages);
    CommitRefusedExactly(System(HELD, map[0 := FLIGHT]), FLIGHT, step, 1);
    CommitChange(HELD, CLAIM, SubmissionOf(FLIGHT, step), 1);
  }

  /** In a state the scheduler reaches, the holder of a running task submits a
      passing review of attempt 2 while it makes attempt 1, and the commit raises
      a value error instead of reporting the claim as lost. The same submission
      with a review of attempt 1 is accepted. */
  lemma OtherReviewRaises()
    ensures Reachable(System(HELD, map[0 := FLIGHT]))
    ensures
      var wrong := Commit(0, Reply(Some(0), Reviewed(Review(0, KEY, 2, Pass, 100.0)), []), 0, 80.0);
      CommitOutcome(HELD, CLAIM, SubmissionOf(FLIGHT, wrong), 1) == Abort(HELD, InvalidValue)
    ensures
      var right := Commit(0, Reply(Some(0), Reviewed(Review(0, KEY, 1, Pass, 100.0)), []), 0, 80.0);
      CommitOutcome(HELD, CLAIM, SubmissionOf(FLIGHT, right), 1).result.Ok?
  {
    HeldReached();
    ReachableIsSafe(System(HELD, map[0 := FLIGHT]));
    var wrong := Commit(0, Reply(Some(0), Reviewed(Review(0, KEY, 2, Pass, 100.0)), []), 0, 80.0);
    var right := Commit(0, Reply(Some(0), Reviewed(Review(0, KEY, 1, Pass, 100.0)), []), 0, 80.0);
    CommitRefusedExactly(System(HELD, map[0 := FLIGHT]), FLIGHT, wrong, 1);
    CommitChange(HELD, CLAIM, SubmissionOf(FLIGHT, wrong), 1);
    CommitAcceptedExactly(System(HELD, map[0 := FLIGHT]), FLIGHT, right, 1);
  }
}
