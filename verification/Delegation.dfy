/** The durable record of one remote delegation and its status machine
    (`DelegationRecord`, src/seed_society/domain.py). */
module Delegation {
  import opened Domain

  datatype DelegationStatus =
    | Prepared
    | Submitting
    | Accepted
    | Completed
    | RemoteFailed
    | Canceled
    | RemoteRejected
    | Interrupted
    | Unknown

  predicate DelegationTransition(current: DelegationStatus, target: DelegationStatus) {
    match current
    case Prepared => target.Submitting?
    case Submitting =>
      target.Accepted? || target.Completed? || target.RemoteFailed? || target.RemoteRejected?
      || target.Interrupted? || target.Unknown?
    case Accepted =>
      target.Accepted? || target.Completed? || target.RemoteFailed? || target.Canceled?
      || target.RemoteRejected? || target.Interrupted?
    case Interrupted => target.Canceled?
    case _ => false
  }

  predicate Final(status: DelegationStatus) {
    status.Completed? || status.RemoteFailed? || status.Canceled? || status.RemoteRejected? || status.Unknown?
  }

  /** SHA-256, taken as injective. */
  datatype Sha256 = Sha256(content: Id)

  /** Identifies the work a delegation is for: UNIQUE(goal, task, attempt, agent). */
  datatype AttemptKey = AttemptKey(task: TaskKey, attemptNo: int, agentId: Id)

  /** Texts are opaque; None stands for the empty text. */
  datatype DelegationRecord = DelegationRecord(
    delegationId: Id,
    key: AttemptKey,
    modelId: Id,
    messageId: Id,
    policyDecision: Option<Id>,
    status: DelegationStatus,
    remoteTaskId: Option<Id>,
    pollCount: int,
    result: Option<Id>,
    resultDigest: Option<Sha256>)
  {
    predicate SameIdentity(other: DelegationRecord) {
      && delegationId == other.delegationId && key == other.key && modelId == other.modelId
      && messageId == other.messageId && policyDecision == other.policyDecision
    }

    /** `advance`: the only way a record changes. */
    function Advance(target: DelegationStatus, remote: Option<Id>, incrementPoll: bool, content: Option<Id>):
      Result<DelegationRecord>
    {
      var nextId := if remote.Some? then remote else remoteTaskId;
      if !DelegationTransition(status, target) then Err(InvalidValue)
      else if remoteTaskId.Some? && remote.Some? && remote != remoteTaskId then Err(InvalidValue)
      else if target.Accepted? && nextId.None? then Err(InvalidValue)
      else if target.Completed? && content.None? then Err(InvalidValue)
      else if incrementPoll && !target.Accepted? then Err(InvalidValue)
      else Ok(this.(
        status := target,
        remoteTaskId := nextId,
        pollCount := pollCount + if incrementPoll then 1 else 0,
        result := if target.Completed? then content else result,
        resultDigest := if target.Completed? then Some(Sha256(content.value)) else resultDigest))
    }

    /** What the status of a record promises about its other fields. */
    predicate Consistent() {
      && (status.Accepted? ==> remoteTaskId.Some?)
      && (status.Completed? ==> result.Some? && resultDigest == Some(Sha256(result.value)))
      && pollCount >= 0
    }
  }

  /** One `advance` keeps a record consistent, never exchanges a remote task id,
      and never moves a final record. */
  lemma AdvanceKeepsPromises(r: DelegationRecord, target: DelegationStatus, remote: Option<Id>, incrementPoll: bool,
                             content: Option<Id>)
    requires r.Consistent() && r.Advance(target, remote, incrementPoll, content).Ok?
    ensures var r' := r.Advance(target, remote, incrementPoll, content).value;
            && r'.Consistent() && r'.SameIdentity(r)
            && (r.remoteTaskId.Some? ==> r'.remoteTaskId == r.remoteTaskId)
            && !Final(r.status)
            && r.pollCount <= r'.pollCount <= r.pollCount + 1
  {
  }

  // ---------------------------------------------------------------- the life of a record

  /** What is asked of a record at one point of its life. */
  datatype Ask = Ask(target: DelegationStatus, remote: Option<Id>, poll: bool, content: Option<Id>)

  /** A record as it is created, and after each accepted advance. */
  predicate Life(path: seq<DelegationRecord>, asks: seq<Ask>) {
    && |path| == |asks| + 1 && path[0].status.Prepared? && path[0].remoteTaskId.None? && path[0].pollCount == 0
    && path[0].result.None? && path[0].resultDigest.None?
    && forall i :: 0 <= i < |asks| ==> Advanced(path, asks, i)
  }

  predicate Advanced(path: seq<DelegationRecord>, asks: seq<Ask>, i: nat)
    requires |path| == |asks| + 1 && i < |asks|
  {
    path[i].Advance(asks[i].target, asks[i].remote, asks[i].poll, asks[i].content) == Ok(path[i + 1])
  }

  function Polls(asks: seq<Ask>): nat {
    if asks == [] then 0 else Polls(asks[..|asks| - 1]) + if asks[|asks| - 1].poll then 1 else 0
  }

  /** Whatever is asked and in whatever order: a record is prepared and submitted
      once, at the start; its outcome becomes unknown only while it is submitting; it
      is canceled only once it was accepted or interrupted; nothing follows a final
      status. Every accepted record names its remote task, the poll count is the
      number of polls, and a result is there exactly when the record is completed. */
  lemma {:induction false} LifeOrder(path: seq<DelegationRecord>, asks: seq<Ask>, i: nat)
    requires Life(path, asks) && i < |path|
    ensures path[i].status.Prepared? <==> i == 0
    ensures path[i].status.Submitting? <==> i == 1
    ensures path[i].status.Unknown? ==> i == 2
    ensures path[i].status.Canceled? ==> path[i - 1].status.Accepted? || path[i - 1].status.Interrupted?
    ensures path[i].status.Interrupted? && i + 1 < |path| ==> path[i + 1].status.Canceled?
    ensures Final(path[i].status) ==> i == |path| - 1
    ensures path[i].status.Accepted? ==> path[i].remoteTaskId.Some?
    ensures path[i].pollCount == Polls(asks[..i]) && path[i].SameIdentity(path[0])
    ensures path[i].result.Some? <==> path[i].status.Completed?
    ensures path[i].resultDigest == if path[i].result.Some? then Some(Sha256(path[i].result.value)) else None
    ensures i > 0 ==> path[i].status == asks[i - 1].target
    ensures i > 0 && path[i - 1].remoteTaskId.Some? ==> path[i].remoteTaskId == path[i - 1].remoteTaskId
    ensures i > 0 && path[i - 1].remoteTaskId.None? ==> path[i].remoteTaskId == asks[i - 1].remote
    ensures i > 0 && path[i].status.Completed? ==> path[i].result == asks[i - 1].content
    ensures i > 0 && asks[i - 1].poll ==> path[i].status.Accepted?
  {
    if i > 0 {
      LifeOrder(path, asks, i - 1);
      assert Advanced(path, asks, i - 1);
      assert asks[..i][..i - 1] == asks[..i - 1];
    }
    if i + 1 < |path| {
      assert Advanced(path, asks, i);
    }
  }

  // ---------------------------------------------------------------- remote replies

  /** The task states of A2A Protocol 1.0, section 4.1.3, and an absent or
      unsupported one. */
  datatype RemoteTaskState =
    | TaskSubmitted
    | TaskWorking
    | TaskCompleted
    | TaskInputRequired
    | TaskAuthRequired
    | TaskFailed
    | TaskCanceled
    | TaskRejected
    | NoSupportedState

  /** A reply body. `content` is None when its parts do not normalise to a
      non-empty text within the size limit. */
  datatype Response =
    | MessageReply(content: Option<Id>)
    | TaskReply(id: Option<Id>, state: RemoteTaskState, content: Option<Id>)
    | Malformed

  /** What one HTTP exchange yields. */
  datatype Reply =
    | Answered(response: Response)
    | HttpError
    | ProtocolError
    | AmbiguousSubmission

  /** The record a reply leads to. Err(MissingRecord) stands for the protocol
      error that marks the record failed, Err(InvalidValue) for a transition
      that the status machine refuses. */
  function Interpret(r: DelegationRecord, response: Response): Result<DelegationRecord> {
    match response
    case Malformed => Err(MissingRecord)
    case MessageReply(content) =>
      if content.None? then Err(MissingRecord) else r.Advance(Completed, None, false, content)
    case TaskReply(id, state, content) =>
      if id.None? then Err(MissingRecord)
      else if r.remoteTaskId.Some? && id != r.remoteTaskId then Err(MissingRecord)
      else match state
        case NoSupportedState => Err(MissingRecord)
        case TaskSubmitted => r.Advance(Accepted, id, false, None)
        case TaskWorking => r.Advance(Accepted, id, false, None)
        case TaskCompleted => if content.None? then Err(MissingRecord) else r.Advance(Completed, id, false, content)
        case TaskInputRequired => r.Advance(Interrupted, id, false, None)
        case TaskAuthRequired => r.Advance(Interrupted, id, false, None)
        case TaskFailed => r.Advance(RemoteFailed, id, false, None)
        case TaskCanceled => r.Advance(Canceled, id, false, None)
        case TaskRejected => r.Advance(RemoteRejected, id, false, None)
  }

  /** An interpreted reply is one `advance` that counts no poll. */
  lemma InterpretKeepsPromises(r: DelegationRecord, response: Response)
    requires r.Consistent() && Interpret(r, response).Ok?
    ensures var r' := Interpret(r, response).value;
            && r'.Consistent() && r'.SameIdentity(r) && r'.pollCount == r.pollCount && !Final(r.status)
            && (r.remoteTaskId.Some? ==> r'.remoteTaskId == r.remoteTaskId)
            && !r'.status.Prepared? && !r'.status.Submitting? && !r'.status.Unknown?
            && (r'.status.Interrupted? ==> r'.remoteTaskId.Some?)
  {
  }

  /** The reply says something about this delegation: a message with content, or its
      task in a known state, with content if it is completed. */
  predicate Understood(r: DelegationRecord, response: Response) {
    match response
    case Malformed => false
    case MessageReply(content) => content.Some?
    case TaskReply(id, state, content) =>
      && id.Some? && (r.remoteTaskId.None? || r.remoteTaskId.value == id.value)
      && !state.NoSupportedState? && (state.TaskCompleted? ==> content.Some?)
  }

  /** `status` is what the reply reports of the remote work. */
  predicate Reports(response: Response, status: DelegationStatus) {
    match status
    case Accepted => response.TaskReply? && (response.state == TaskSubmitted || response.state == TaskWorking)
    case Completed => response.MessageReply? || (response.TaskReply? && response.state == TaskCompleted)
    case Interrupted =>
      response.TaskReply? && (response.state == TaskInputRequired || response.state == TaskAuthRequired)
    case RemoteFailed => response.TaskReply? && response.state == TaskFailed
    case Canceled => response.TaskReply? && response.state == TaskCanceled
    case RemoteRejected => response.TaskReply? && response.state == TaskRejected
    case _ => false
  }

  /** The status that a reply earns is the one it reports; the record then names the
      replying task, and holds the content exactly of a completion. */
  predicate Reflects(r: DelegationRecord, response: Response, r': DelegationRecord) {
    && Reports(response, r'.status)
    && r'.remoteTaskId == (if response.TaskReply? then response.id else r.remoteTaskId)
    && (r'.status == Completed ==>
          r'.result == response.content && r'.result.Some? && r'.resultDigest == Some(Sha256(r'.result.value)))
    && (r'.status != Completed ==> r'.result == r.result && r'.resultDigest == r.resultDigest)
    && r'.pollCount == r.pollCount && r'.SameIdentity(r)
  }

  /** A reply is a protocol error exactly when it is not understood. One that is
      understood is followed, except that a record that was not accepted cannot be
      canceled, and an interrupted one only that. */
  lemma RepliesAreFollowed(r: DelegationRecord, response: Response)
    requires r.Consistent() && (r.status.Submitting? || r.status.Accepted? || r.status.Interrupted?)
    ensures Interpret(r, response) == Err(MissingRecord) <==> !Understood(r, response)
    ensures
      Interpret(r, response).Ok? <==>
        && Understood(r, response)
        && (r.status == Submitting ==> !Reports(response, Canceled))
        && (r.status == Interrupted ==> Reports(response, Canceled))
    ensures Interpret(r, response).Ok? ==> Reflects(r, response, Interpret(r, response).value)
    ensures Interpret(r, response).Err? ==> Interpret(r, response).error in {MissingRecord, InvalidValue}
  {
  }

  /** No reply can take an accepted record through a forbidden transition: an
      accepted delegation either follows the reply or is marked failed. */
  lemma AcceptedAnswersAreAdmitted(r: DelegationRecord, response: Response)
    requires r.Consistent() && r.status.Accepted?
    ensures Interpret(r, response).Ok? || Interpret(r, response) == Err(MissingRecord)
  {
  }

  /** The one answer to a submission that the status machine refuses: a remote
      task reported canceled before it was accepted. It leaves the record
      submitting, and the next restart calls its outcome unknown. */
  lemma SubmissionRefusedExactly(r: DelegationRecord, response: Response)
    requires r.Consistent() && r.status.Submitting? && r.remoteTaskId.None?
    ensures Interpret(r, response) == Err(InvalidValue) <==>
              response.TaskReply? && response.id.Some? && response.state.TaskCanceled?
  {
  }

  // ---------------------------------------------------------------- answers to a cancellation

  /** What `_cancel_known_task` makes of an answer to its request. */
  datatype Cancellation =
    | Settled(record: DelegationRecord)
    | Fails(record: DelegationRecord)
    | Escapes(record: DelegationRecord)

  /** The record it stores, and how it ends: a canceled or completed record is
      returned, an A2A error is raised, or a ValueError of the status machine escapes. */
  function Cancel(r: DelegationRecord, reply: Reply): Cancellation {
    var failed := r.Advance(RemoteFailed, None, false, None);
    if !reply.Answered? then Fails(if failed.Ok? then failed.value else r)
    else
      match Interpret(r, reply.response)
      case Err(MissingRecord) => Fails(if failed.Ok? then failed.value else r)
      case Err(_) => Escapes(r)
      case Ok(updated) =>
        if updated.status.Canceled? || updated.status.Completed? then Settled(updated)
        else match updated.Advance(RemoteFailed, None, false, None)
          case Err(_) => Escapes(updated)
          case Ok(closed) => Fails(closed)
  }

  /** The answers that make it raise the wrong error: about an accepted task, that it
      failed, was rejected or was interrupted; about an interrupted one, anything
      sensible except that it was canceled. */
  predicate WrongAnswer(r: DelegationRecord, response: Response) {
    match response
    case Malformed => false
    case MessageReply(content) => r.status.Interrupted? && content.Some?
    case TaskReply(id, state, content) =>
      && id.Some? && (r.remoteTaskId.Some? ==> id == r.remoteTaskId)
      && if r.status.Accepted? then
           state.TaskFailed? || state.TaskRejected? || state.TaskInputRequired? || state.TaskAuthRequired?
         else !state.NoSupportedState? && !state.TaskCanceled? && (state.TaskCompleted? ==> content.Some?)
  }

  /** Exactly when a ValueError escapes a cancellation. */
  lemma CancelEscapesExactly(r: DelegationRecord, reply: Reply)
    requires r.Consistent() && (r.status.Accepted? || r.status.Interrupted?)
    ensures Cancel(r, reply).Escapes? <==> reply.Answered? && WrongAnswer(r, reply.response)
  {
  }

  /** However it ends, the record keeps its promises, and an accepted one is closed:
      an escaping error has stored the status that the remote agent reported. */
  lemma CancelKeepsPromises(r: DelegationRecord, reply: Reply)
    requires r.Consistent() && (r.status.Accepted? || r.status.Interrupted?)
    ensures
      var r' := Cancel(r, reply).record;
      && r'.Consistent() && r'.SameIdentity(r) && r'.pollCount == r.pollCount
      && (r.remoteTaskId.Some? ==> r'.remoteTaskId == r.remoteTaskId)
      && (r.status.Accepted? ==> !r'.status.Accepted?)
      && (r.status.Interrupted? ==> r'.status.Interrupted? || r'.status.Canceled?)
  {
  }

  /** What a cancellation stores. An accepted record ends with the final status, or
      the interruption, that an understood answer reports, and has failed when the
      answer says that the task goes on, is not understood or never came. An
      interrupted one is canceled when the answer says so, and otherwise stays. It is
      returned exactly when it was canceled, or an accepted one completed. */
  lemma CancelStoresExactly(r: DelegationRecord, reply: Reply)
    requires r.Consistent() && (r.status.Accepted? || r.status.Interrupted?)
    ensures
      var r' := Cancel(r, reply).record;
      var understood := reply.Answered? && Understood(r, reply.response);
      && (r.status.Accepted? && understood && !Reports(reply.response, Accepted) ==> Reflects(r, reply.response, r'))
      && (r.status.Accepted? && !(understood && !Reports(reply.response, Accepted)) ==>
            r' == r.(status := RemoteFailed))
      && (r.status.Interrupted? && understood && Reports(reply.response, Canceled) ==> Reflects(r, reply.response, r'))
      && (r.status.Interrupted? && !(understood && Reports(reply.response, Canceled)) ==> r' == r)
      && (Cancel(r, reply).Settled? <==>
            understood && (Reports(reply.response, Canceled)
                           || (r.status.Accepted? && Reports(reply.response, Completed))))
  {
    if reply.Answered? {
      RepliesAreFollowed(r, reply.response);
    }
  }

  /** One such answer each way. */
  lemma CancelEscapesInstances(accepted: DelegationRecord)
    requires accepted.Consistent() && accepted.status.Accepted?
    ensures Cancel(accepted, Answered(TaskReply(accepted.remoteTaskId, TaskFailed, None))) ==
            Escapes(accepted.(status := RemoteFailed))
    ensures
      var interrupted := accepted.(status := Interrupted);
      Cancel(interrupted, Answered(TaskReply(accepted.remoteTaskId, TaskWorking, None))) == Escapes(interrupted)
  {
  }
}
