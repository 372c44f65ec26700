/** Many executors racing for the same attempts: `delegate` cut at every read,
    save and send, any interleaving, a crash between any two of them
    (src/seed_society/a2a.py; the uniqueness constraints of
    src/seed_society/storage.py). */
module DelegationRaces {
  import opened Domain
  import opened Delegation

  datatype PolicyDecision = PolicyDecision(decisionId: Id, key: AttemptKey, allow: bool)

  /** The stored rows that matter to a race, and everything ever sent. */
  datatype Shared = Shared(
    rows: map<Id, StoredRow>,
    decisions: map<Id, PolicyDecision>,
    sent: seq<Submission>)

  datatype StoredRow = StoredRow(key: AttemptKey, status: DelegationStatus)

  /** A message on the wire; `governed` marks an executor with a policy evaluator. */
  datatype Submission = Submission(key: AttemptKey, governed: bool)

  /** Where one executor is. */
  datatype Stage =
    | Idle
    | Absent(key: AttemptKey)
    | Undecided(key: AttemptKey)
    | Decided(key: AttemptKey, decision: PolicyDecision)
    | Authorized(key: AttemptKey, authority: Option<PolicyDecision>)
    | HoldsPrepared(key: AttemptKey, id: Id)
    | HoldsSubmitting(key: AttemptKey, id: Id)
    | Following(id: Id)

  datatype World = World(shared: Shared, stages: map<Id, Stage>)

  datatype Step =
    | Look(key: AttemptKey)
    | SkipPolicy
    | ReadDecision
    | SaveDecision(decision: PolicyDecision)
    | CheckDecision
    | SavePrepared(id: Id)
    | SaveSubmitting
    | Send
    | SaveOutcome(status: DelegationStatus)
    | Crash

  /** Every executor either has a policy evaluator or does not. */
  type Governance = set<Id>

  predicate KeyTaken(s: Shared, key: AttemptKey) {
    exists id :: id in s.rows && s.rows[id].key == key
  }

  predicate DecisionTaken(s: Shared, key: AttemptKey) {
    exists d :: d in s.decisions && s.decisions[d].key == key
  }

  function StageOf(w: World, pid: Id): Stage {
    if pid in w.stages then w.stages[pid] else Idle
  }

  function At(w: World, pid: Id, stage: Stage): World {
    w.(stages := w.stages[pid := stage])
  }

  /** One atomic step of executor `pid`. A step its stage does not offer, and a
      refused write, send the executor back to idle. */
  ghost function Next(w: World, governed: Governance, pid: Id, step: Step): World {
    var s := w.shared;
    var stage := StageOf(w, pid);
    match step
    case Crash => At(w, pid, Idle)
    case Look(key) =>
      if !stage.Idle? then At(w, pid, Idle)
      else if KeyTaken(s, key) then
        var id :| id in s.rows && s.rows[id].key == key;
        At(w, pid, Following(id))
      else At(w, pid, Absent(key))
    case SkipPolicy =>
      if stage.Absent? && pid !in governed then At(w, pid, Authorized(stage.key, None)) else At(w, pid, Idle)
    case ReadDecision =>
      if !stage.Absent? || pid !in governed then At(w, pid, Idle)
      else if DecisionTaken(s, stage.key) then
        var d :| d in s.decisions && s.decisions[d].key == stage.key;
        At(w, pid, Decided(stage.key, s.decisions[d]))
      else At(w, pid, Undecided(stage.key))
    case SaveDecision(d) =>
      // PRIMARY KEY(decision_id) and UNIQUE(goal, task, attempt, agent)
      if stage.Undecided? && d.key == stage.key && d.decisionId !in s.decisions && !DecisionTaken(s, d.key)
      then At(w.(shared := s.(decisions := s.decisions[d.decisionId := d])), pid, Decided(stage.key, d))
      else At(w, pid, Idle)
    case CheckDecision =>
      if stage.Decided? && stage.decision.decisionId in s.decisions
        && s.decisions[stage.decision.decisionId] == stage.decision
         && stage.decision.allow
      then At(w, pid, Authorized(stage.key, Some(stage.decision)))
      else At(w, pid, Idle)
    case SavePrepared(id) =>
      // a new delegation identifier; UNIQUE(goal, task, attempt, agent)
      if stage.Authorized? && id !in s.rows && !KeyTaken(s, stage.key)
      then At(w.(shared := s.(rows := s.rows[id := StoredRow(stage.key, Prepared)])), pid, HoldsPrepared(stage.key, id))
      else At(w, pid, Idle)
    case SaveSubmitting =>
      if stage.HoldsPrepared?
      then At(w.(shared := s.(rows := s.rows[stage.id := StoredRow(stage.key, Submitting)])), pid,
              HoldsSubmitting(stage.key, stage.id))
      else At(w, pid, Idle)
    case Send =>
      if stage.HoldsSubmitting?
      then At(w.(shared := s.(sent := s.sent + [Submission(stage.key, pid in governed)])), pid, Following(stage.id))
      else At(w, pid, Idle)
    case SaveOutcome(status) =>
      // identity is checked, the order of statuses is not
      if stage.Following? && stage.id in s.rows
      then w.(shared := s.(rows := s.rows[stage.id := s.rows[stage.id].(status := status)]))
      else At(w, pid, Idle)
  }

  const INITIAL := World(Shared(map[], map[], []), map[])

  ghost predicate Run(worlds: seq<World>, governed: Governance, pids: seq<Id>, steps: seq<Step>) {
    && |worlds| == |steps| + 1 && |pids| == |steps| && worlds[0] == INITIAL
    && forall i :: 0 <= i < |steps| ==> worlds[i + 1] == Next(worlds[i], governed, pids[i], steps[i])
  }

  function SendsOf(sent: seq<Submission>, key: AttemptKey): nat {
    if sent == [] then 0
    else SendsOf(sent[..|sent| - 1], key) + if sent[|sent| - 1].key == key then 1 else 0
  }

  lemma SendsAppend(sent: seq<Submission>, m: Submission, key: AttemptKey)
    ensures SendsOf(sent + [m], key) == SendsOf(sent, key) + if m.key == key then 1 else 0
  {
    assert (sent + [m])[..|sent + [m]| - 1] == sent;
  }

  lemma SendCounts(sent: seq<Submission>, m: Submission)
    ensures forall key :: SendsOf(sent + [m], key) == SendsOf(sent, key) + if m.key == key then 1 else 0
  {
    forall key ensures SendsOf(sent + [m], key) == SendsOf(sent, key) + if m.key == key then 1 else 0 {
      SendsAppend(sent, m, key);
    }
  }

  // ---------------------------------------------------------------- one executor alone

  function PolicyCourse(governed: Governance, pid: Id, key: AttemptKey, decision: PolicyDecision): seq<Step> {
    [Look(key)] + if pid in governed then [ReadDecision, SaveDecision(decision), CheckDecision] else [SkipPolicy]
  }

  /** The steps of `delegate` for a new attempt, in their order. */
  function Course(governed: Governance, pid: Id, key: AttemptKey, decision: PolicyDecision, id: Id): seq<Step> {
    PolicyCourse(governed, pid, key, decision) + [SavePrepared(id), SaveSubmitting, Send]
  }

  /** The worlds that one executor's steps lead through. */
  ghost predicate Walks(worlds: seq<World>, governed: Governance, pid: Id, steps: seq<Step>) {
    |worlds| == |steps| + 1 && forall i :: 0 <= i < |steps| ==> Walked(worlds, governed, pid, steps, i)
  }

  ghost predicate Walked(worlds: seq<World>, governed: Governance, pid: Id, steps: seq<Step>, i: nat)
    requires |worlds| == |steps| + 1 && i < |steps|
  {
    worlds[i + 1] == Next(worlds[i], governed, pid, steps[i])
  }

  predicate New(s: Shared, key: AttemptKey, decision: PolicyDecision, id: Id) {
    && (forall row :: row in s.rows ==> row != id && s.rows[row].key != key)
    && (forall d :: d in s.decisions ==> d != decision.decisionId && s.decisions[d].key != key)
    && decision.key == key && decision.allow
  }

  lemma AloneItIsAuthorized(w: World, governed: Governance, pid: Id, key: AttemptKey, decision: PolicyDecision, id: Id)
    returns (worlds: seq<World>)
    requires StageOf(w, pid).Idle? && New(w.shared, key, decision, id)
    ensures Walks(worlds, governed, pid, PolicyCourse(governed, pid, key, decision)) && worlds[0] == w
    ensures
      var w' := worlds[|worlds| - 1];
      && StageOf(w', pid).Authorized? && StageOf(w', pid).key == key
      && w'.shared == w.shared.(decisions := w'.shared.decisions)
  {
    var looked := Next(w, governed, pid, Look(key));
    assert StageOf(looked, pid) == Absent(key);
    if pid in governed {
      var read := Next(looked, governed, pid, ReadDecision);
      assert StageOf(read, pid) == Undecided(key);
      var saved := Next(read, governed, pid, SaveDecision(decision));
      assert StageOf(saved, pid) == Decided(key, decision);
      worlds := [w, looked, read, saved, Next(saved, governed, pid, CheckDecision)];
    } else {
      worlds := [w, looked, Next(looked, governed, pid, SkipPolicy)];
    }
  }

  lemma AuthorizedSends(w: World, governed: Governance, pid: Id, key: AttemptKey, id: Id) returns (worlds: seq<World>)
    requires StageOf(w, pid).Authorized? && StageOf(w, pid).key == key
    requires forall row :: row in w.shared.rows ==> row != id && w.shared.rows[row].key != key
    ensures Walks(worlds, governed, pid, [SavePrepared(id), SaveSubmitting, Send]) && worlds[0] == w
    ensures
      var w' := worlds[3];
      && w'.shared.sent == w.shared.sent + [Submission(key, pid in governed)]
      && w'.shared.rows == w.shared.rows[id := StoredRow(key, Submitting)] && StageOf(w', pid) == Following(id)
  {
    var prepared := Next(w, governed, pid, SavePrepared(id));
    assert StageOf(prepared, pid) == HoldsPrepared(key, id);
    var submitting := Next(prepared, governed, pid, SaveSubmitting);
    assert StageOf(submitting, pid) == HoldsSubmitting(key, id);
    assert submitting.shared.rows == w.shared.rows[id := StoredRow(key, Submitting)];
    worlds := [w, prepared, submitting, Next(submitting, governed, pid, Send)];
  }

  /** Undisturbed, an executor that finds nothing stored for the attempt, and is allowed,
      sends its message, leaves the record submitting and follows it from there. */
  lemma AloneItSends(w: World, governed: Governance, pid: Id, key: AttemptKey, decision: PolicyDecision, id: Id)
    returns (worlds: seq<World>)
    requires StageOf(w, pid).Idle? && New(w.shared, key, decision, id)
    ensures Walks(worlds, governed, pid, Course(governed, pid, key, decision, id)) && worlds[0] == w
    ensures
      var w' := worlds[|worlds| - 1];
      && w'.shared.sent == w.shared.sent + [Submission(key, pid in governed)]
      && w'.shared.rows == w.shared.rows[id := StoredRow(key, Submitting)] && StageOf(w', pid) == Following(id)
  {
    var first := AloneItIsAuthorized(w, governed, pid, key, decision, id);
    var middle := first[|first| - 1];
    var second := AuthorizedSends(middle, governed, pid, key, id);
    var a, b := PolicyCourse(governed, pid, key, decision), [SavePrepared(id), SaveSubmitting, Send];
    worlds := first + second[1..];
    forall i | 0 <= i < |a + b| ensures Walked(worlds, governed, pid, a + b, i) {
      if i < |a| {
        assert Walked(first, governed, pid, a, i);
      } else {
        assert Walked(second, governed, pid, b, i - |a|);
      }
    }
  }

  /** An executor that finds a record for the attempt follows it and stores what becomes
      of it, and sends nothing. */
  lemma FollowerStores(w: World, governed: Governance, pid: Id, key: AttemptKey, status: DelegationStatus)
    requires StageOf(w, pid).Idle? && KeyTaken(w.shared, key)
    ensures
      var looked := Next(w, governed, pid, Look(key));
      && looked.shared == w.shared && StageOf(looked, pid).Following?
      && var id := StageOf(looked, pid).id;
         && id in w.shared.rows && w.shared.rows[id].key == key
         && Next(looked, governed, pid, SaveOutcome(status)).shared ==
              w.shared.(rows := w.shared.rows[id := StoredRow(key, status)])
  {
  }

  // ---------------------------------------------------------------- the invariant

  predicate Holds(stage: Stage) {
    stage.HoldsPrepared? || stage.HoldsSubmitting?
  }

  predicate HoldSameRow(a: Stage, b: Stage) {
    Holds(a) && Holds(b) && a.id == b.id
  }

  /** One row and one decision per attempt. */
  ghost predicate Unique(s: Shared) {
    && (forall a, b :: a in s.rows && b in s.rows && s.rows[a].key == s.rows[b].key ==> a == b)
    && (forall d :: d in s.decisions ==> s.decisions[d].decisionId == d)
  }

  /** An executor about to send owns the attempt's row, alone, and nothing has
      been sent for it yet. */
  ghost predicate Owners(w: World) {
    && (forall p :: p in w.stages && Holds(w.stages[p]) ==>
          && w.stages[p].id in w.shared.rows && w.shared.rows[w.stages[p].id].key == w.stages[p].key
          && SendsOf(w.shared.sent, w.stages[p].key) == 0)
    && (forall p, q :: p in w.stages && q in w.stages && HoldSameRow(w.stages[p], w.stages[q]) ==> p == q)
  }

  ghost predicate Sent(s: Shared) {
    forall key :: SendsOf(s.sent, key) <= 1 && (SendsOf(s.sent, key) == 1 ==> KeyTaken(s, key))
  }

  predicate Allowed(s: Shared, key: AttemptKey) {
    exists d :: d in s.decisions && s.decisions[d].key == key && s.decisions[d].allow
  }

  /** A governed executor past the policy stage, and every message it sent, has
      an ALLOW decision in the store. */
  ghost predicate Governed(w: World, governed: Governance) {
    && (forall p :: p in w.stages && p in governed && (w.stages[p].Authorized? || Holds(w.stages[p])) ==>
          Allowed(w.shared, w.stages[p].key))
    && (forall p :: p in w.stages && w.stages[p].Decided? ==> w.stages[p].decision.key == w.stages[p].key)
    && (forall i :: 0 <= i < |w.shared.sent| && w.shared.sent[i].governed ==> Allowed(w.shared, w.shared.sent[i].key))
  }

  ghost predicate Inv(w: World, governed: Governance) {
    Unique(w.shared) && Owners(w) && Sent(w.shared) && Governed(w, governed)
  }

  lemma SaveKeepsSent(s: Shared, s': Shared)
    requires Sent(s) && s'.sent == s.sent
    requires forall id :: id in s.rows ==> id in s'.rows && s'.rows[id].key == s.rows[id].key
    ensures Sent(s')
  {
    forall key ensures SendsOf(s'.sent, key) == 1 ==> KeyTaken(s', key) {
      if SendsOf(s.sent, key) == 1 {
        var id :| id in s.rows && s.rows[id].key == key;
        assert s'.rows[id].key == key;
      }
    }
  }

  lemma DecisionsKept(s: Shared, s': Shared)
    requires forall d :: d in s.decisions ==> d in s'.decisions && s'.decisions[d] == s.decisions[d]
    ensures forall key :: Allowed(s, key) ==> Allowed(s', key)
  {
    forall key | Allowed(s, key) ensures Allowed(s', key) {
      var d :| d in s.decisions && s.decisions[d].key == key && s.decisions[d].allow;
      assert s'.decisions[d] == s.decisions[d];
    }
  }

  /** A stage reached without writing a row. */
  predicate PolicyStage(s: Shared, governed: Governance, pid: Id, stage: Stage) {
    && !Holds(stage)
    && (stage.Authorized? && pid in governed ==> Allowed(s, stage.key))
    && (stage.Decided? ==> stage.decision.key == stage.key)
  }

  lemma PolicyStageKeepsInv(w: World, w': World, governed: Governance, pid: Id, stage: Stage)
    requires Inv(w, governed) && PolicyStage(w'.shared, governed, pid, stage)
    requires w' == World(w.shared.(decisions := w'.shared.decisions), w.stages[pid := stage])
    requires forall d :: d in w.shared.decisions ==>
      d in w'.shared.decisions && w'.shared.decisions[d] == w.shared.decisions[d]
    requires forall d :: d in w'.shared.decisions ==> w'.shared.decisions[d].decisionId == d
    ensures Inv(w', governed)
  {
    SaveKeepsSent(w.shared, w'.shared);
    DecisionsKept(w.shared, w'.shared);
  }

  lemma LookKeepsInv(w: World, governed: Governance, pid: Id, step: Step)
    requires Inv(w, governed) && (step.Crash? || step.Look? || step.SkipPolicy?)
    ensures Inv(Next(w, governed, pid, step), governed)
  {
    var w' := Next(w, governed, pid, step);
    PolicyStageKeepsInv(w, w', governed, pid, w'.stages[pid]);
  }

  lemma DecideKeepsInv(w: World, governed: Governance, pid: Id, step: Step)
    requires Inv(w, governed) && (step.ReadDecision? || step.SaveDecision? || step.CheckDecision?)
    ensures Inv(Next(w, governed, pid, step), governed)
  {
    var w' := Next(w, governed, pid, step);
    PolicyStageKeepsInv(w, w', governed, pid, w'.stages[pid]);
  }

  lemma SavePreparedKeepsInv(w: World, governed: Governance, pid: Id, step: Step)
    requires Inv(w, governed) && step.SavePrepared?
    ensures Inv(Next(w, governed, pid, step), governed)
  {
    var w' := Next(w, governed, pid, step);
    SaveKeepsSent(w.shared, w'.shared);
    DecisionsKept(w.shared, w'.shared);
  }

  lemma SaveSubmittingKeepsInv(w: World, governed: Governance, pid: Id)
    requires Inv(w, governed)
    ensures Inv(Next(w, governed, pid, SaveSubmitting), governed)
  {
    var w' := Next(w, governed, pid, SaveSubmitting);
    var stage := StageOf(w, pid);
    if stage.HoldsPrepared? {
      SaveKeepsSent(w.shared, w'.shared);
      DecisionsKept(w.shared, w'.shared);
    } else {
      PolicyStageKeepsInv(w, w', governed, pid, Idle);
    }
  }

  lemma SaveOutcomeKeepsInv(w: World, governed: Governance, pid: Id, status: DelegationStatus)
    requires Inv(w, governed)
    ensures Inv(Next(w, governed, pid, SaveOutcome(status)), governed)
  {
    var w' := Next(w, governed, pid, SaveOutcome(status));
    var stage := StageOf(w, pid);
    if stage.Following? && stage.id in w.shared.rows {
      SaveKeepsSent(w.shared, w'.shared);
      DecisionsKept(w.shared, w'.shared);
    } else {
      PolicyStageKeepsInv(w, w', governed, pid, Idle);
    }
  }

  /** Whoever else is about to send owns another row. */
  lemma SendKeepsOwners(w: World, governed: Governance, pid: Id)
    requires Unique(w.shared) && Owners(w) && StageOf(w, pid).HoldsSubmitting?
    ensures Owners(Next(w, governed, pid, Send))
  {
    var w' := Next(w, governed, pid, Send);
    var stage := StageOf(w, pid);
    SendCounts(w.shared.sent, Submission(stage.key, pid in governed));
    forall p | p in w'.stages && Holds(w'.stages[p]) ensures w'.stages[p].key != stage.key {
      assert w.stages[p] == w'.stages[p];
      assert HoldSameRow(w.stages[p], stage) ==> p == pid;
    }
  }

  lemma SendKeepsSent(w: World, governed: Governance, pid: Id)
    requires Owners(w) && Sent(w.shared) && StageOf(w, pid).HoldsSubmitting?
    ensures Sent(Next(w, governed, pid, Send).shared)
  {
    SendCounts(w.shared.sent, Submission(StageOf(w, pid).key, pid in governed));
  }

  lemma SendKeepsInv(w: World, governed: Governance, pid: Id)
    requires Inv(w, governed)
    ensures Inv(Next(w, governed, pid, Send), governed)
  {
    DecisionsKept(w.shared, Next(w, governed, pid, Send).shared);
    if StageOf(w, pid).HoldsSubmitting? {
      SendKeepsOwners(w, governed, pid);
      SendKeepsSent(w, governed, pid);
    }
  }

  lemma {:induction false} RunKeepsInv(worlds: seq<World>, governed: Governance, pids: seq<Id>, steps: seq<Step>,
                                       i: nat)
    requires Run(worlds, governed, pids, steps) && i < |worlds|
    ensures Inv(worlds[i], governed)
  {
    if i > 0 {
      RunKeepsInv(worlds, governed, pids, steps, i - 1);
      var w, pid, step := worlds[i - 1], pids[i - 1], steps[i - 1];
      if step.Send? {
        SendKeepsInv(w, governed, pid);
      } else if step.SavePrepared? {
        SavePreparedKeepsInv(w, governed, pid, step);
      } else if step.SaveSubmitting? {
        SaveSubmittingKeepsInv(w, governed, pid);
      } else if step.SaveOutcome? {
        SaveOutcomeKeepsInv(w, governed, pid, step.status);
      } else if step.ReadDecision? || step.SaveDecision? || step.CheckDecision? {
        DecideKeepsInv(w, governed, pid, step);
      } else {
        LookKeepsInv(w, governed, pid, step);
      }
    }
  }

  /** At most one send: over any interleaving of any executors, with crashes
      anywhere, an attempt's message is sent at most once. */
  lemma SentAtMostOnce(worlds: seq<World>, governed: Governance, pids: seq<Id>, steps: seq<Step>, i: nat,
                       key: AttemptKey)
    requires Run(worlds, governed, pids, steps) && i < |worlds|
    ensures SendsOf(worlds[i].shared.sent, key) <= 1
  {
    RunKeepsInv(worlds, governed, pids, steps, i);
  }

  /** Policy comes first: whenever a governed executor sends, an ALLOW decision
      for exactly that attempt was in the store before the step. */
  lemma SentOnlyAfterAllow(worlds: seq<World>, governed: Governance, pids: seq<Id>, steps: seq<Step>, i: nat)
    requires Run(worlds, governed, pids, steps) && i < |steps| && pids[i] in governed
    requires |worlds[i + 1].shared.sent| > |worlds[i].shared.sent|
    ensures steps[i].Send? && StageOf(worlds[i], pids[i]).HoldsSubmitting?
    ensures Allowed(worlds[i].shared, StageOf(worlds[i], pids[i]).key)
    ensures worlds[i + 1].shared.sent == worlds[i].shared.sent + [Submission(StageOf(worlds[i], pids[i]).key, true)]
  {
    RunKeepsInv(worlds, governed, pids, steps, i);
    assert worlds[i + 1] == Next(worlds[i], governed, pids[i], steps[i]);
  }
}
