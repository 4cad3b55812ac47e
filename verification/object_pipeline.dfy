/** The policy-gated object mutation: guards, event, log append, projection. */
module ObjectPipeline {
  import opened Common
  import opened Privacy
  import opened EventLogs
  import opened ObjectTypes
  import opened ObjectEvents
  import opened ObjectReducer

  datatype Input = Input(
    command: Command, allowLocalContentMutation: bool,
    mutationDecision: Decision, storageDecision: Decision, objectEventId: string,
    now: string,       // the clock when the object is built
    eventNow: string)  // and when the event is created

  datatype Applied = Applied(event: ObjectEvent, nextProjection: Projection, retained: bool)

  /** What one call leaves behind: the log, changed or not, and its result. */
  datatype StepOutcome = StepOutcome(log: LogState<ObjectEvent>, result: Result<Applied, ObjectError>)

  predicate ReferenceInRoom(p: Projection, ref: Id, requiredKind: Option<Kind>) {
    var target := FindCurrent(p, ref);
    target.Some? && (requiredKind.Some? ==> target.value.kind == requiredKind.value)
  }

  /** Redaction and tombstoning survive strict modes and strict room policies. */
  predicate MutationPolicyAllows(mode: PrivacyMode, cls: MutationClass, allowLocalContentMutation: bool) {
    cls.RedactClass? || cls.TombstoneClass? || (!mode.Emergency? && allowLocalContentMutation)
  }

  function RevisionMatches(command: Command, current: Option<RoomObject>): Check<ObjectError> {
    if ClassOf(command.payload).CreateClass? then Need(current.None?, InvalidLifecycleTransition)
    else if current.None? then Fail(ObjectNotFound)
    else if command.expectedRevision.None? then Fail(MissingExpectedRevision)
    else if command.expectedRevision.value < current.value.revision then Fail(StaleRevision)
    else if command.expectedRevision.value > current.value.revision then Fail(FutureRevision)
    else Pass
  }

  /** Every check before the object is built, in the order the source makes them. */
  function Guard(matrix: Matrix, p: Projection, logRoom: Id, input: Input): Check<ObjectError> {
    var command := input.command;
    var cls := ClassOf(command.payload);
    var current := FindCurrent(p, command.objectId);
    if command.roomId != p.roomId || logRoom != p.roomId then Fail(RoomMismatch)
    else if command.payload.CreateMessage? && command.payload.replyTo.Some?
            && !ReferenceInRoom(p, command.payload.replyTo.value, None) then Fail(CrossObjectReference)
    else if command.payload.ResolveDecision? && command.payload.supersedes.Some?
            && !ReferenceInRoom(p, command.payload.supersedes.value, Some(DecisionKind)) then Fail(CrossObjectReference)
    else if matrix(MatrixOperationOf(cls), command.mode) != MemoryOnly then Fail(PolicyDenied)
    else if !Authorizes(input.mutationDecision, ScopeOf(cls)) then Fail(DecisionRejected)
    else if !MutationPolicyAllows(command.mode, cls, input.allowLocalContentMutation) then Fail(PolicyDenied)
    else if current.Some? && current.value.roomId != command.roomId then Fail(RoomMismatch)
    else if current.Some? && current.value.lifecycle.Tombstone? then Fail(ObjectIsTerminal)
    else RevisionMatches(command, current)
  }

  /** The event a call would append, or the error that stops it before any side effect. */
  function PrepareEvent(matrix: Matrix, p: Projection, logRoom: Id, sequence: nat,
                        input: Input): Result<ObjectEvent, ObjectError> {
    var current := FindCurrent(p, input.command.objectId);
    :- Guard(matrix, p, logRoom, input);
    var built :- BuildResultingObject(current, input.command, LocalLabel(input.now));
    Ok(CreateAcceptedEvent(input.command, built, input.objectEventId, sequence, LocalLabel(input.eventNow)))
  }

  function Step(matrix: Matrix, p: Projection, logRoom: Id, log: LogState<ObjectEvent>, input: Input): StepOutcome {
    match PrepareEvent(matrix, p, logRoom, NextSequence(log), input)
    case Err(e) => StepOutcome(log, Err(e))
    case Ok(event) =>
      match LogAppend(log, logRoom, ObjectLogAppend, event, event.roomId, event.localSequence, input.storageDecision)
      case Err(_) => StepOutcome(log, Err(LogRefused))
      case Ok(log') =>
        match ApplyEvent(p, event)
        case Err(e) => StepOutcome(log', Err(e))
        case Ok(p') => StepOutcome(log', Ok(Applied(event, p', log'.MemoryLog?)))
  }

  /** The pipeline as the source runs it, changing the log it is given. */
  method ApplyLocalRoomObjectMutation(matrix: Matrix, projection: Projection, input: Input,
                                      objectLog: EventLog<ObjectEvent>)
    returns (r: Result<Applied, ObjectError>)
    requires objectLog.appendScope == ObjectLogAppend
    modifies objectLog
    ensures StepOutcome(objectLog.State(), r)
      == Step(matrix, projection, objectLog.roomId, old(objectLog.State()), input)
    ensures r.Err? ==> objectLog.State() == old(objectLog.State())
  {
    var guarded := Guard(matrix, projection, objectLog.roomId, input);
    if guarded.Fail? {
      return Err(guarded.error);
    }
    var current := FindCurrent(projection, input.command.objectId);
    var built := BuildResultingObject(current, input.command, LocalLabel(input.now));
    if built.Err? {
      return Err(built.error);
    }
    var sequence := objectLog.NextLocalSequence();
    var event := CreateAcceptedEvent(input.command, built.value, input.objectEventId, sequence,
                                     LocalLabel(input.eventNow));
    PreparedEventApplies(matrix, projection, objectLog.roomId, sequence, input, event);
    var append := objectLog.Append(event, event.roomId, event.localSequence, input.storageDecision);
    if append.Err? {
      return Err(LogRefused);
    }
    var next := ApplyEvent(projection, event);
    return Ok(Applied(event, next.value, append.value));
  }

  /** How a prepared event relates to the object it replaces. */
  ghost predicate EventFits(p: Projection, event: ObjectEvent, input: Input) {
    var i := IndexOf(p.objects, input.command.objectId);
    && event.roomId == p.roomId == event.resulting.roomId
    && event.objectId == event.resulting.objectId == input.command.objectId
    && event.resultingRevision == event.resulting.revision <= MAX_REVISION
    && if ClassOf(input.command.payload).CreateClass? then
         && i == -1 && event.previousRevision == None
         && BuildCreatedObject(input.command, LocalLabel(input.now)) == Ok(event.resulting)
       else
         && i >= 0 && !p.objects[i].lifecycle.Tombstone?
         && input.command.expectedRevision == event.previousRevision == Some(p.objects[i].revision)
         && BuildUpdatedObject(p.objects[i], input.command, LocalLabel(input.now), p.objects[i].revision + 1)
              == Ok(event.resulting)
  }

  /** An event that passed the guards is never refused by the reducer, on any projection. */
  lemma PreparedEventApplies(matrix: Matrix, p: Projection, logRoom: Id, sequence: nat, input: Input,
                             event: ObjectEvent)
    requires PrepareEvent(matrix, p, logRoom, sequence, input) == Ok(event)
    ensures EventFits(p, event, input) && event.localSequence == sequence
    ensures ApplyEvent(p, event) == Ok(p.(objects :=
      var i := IndexOf(p.objects, event.objectId);
      if i >= 0 then p.objects[i := event.resulting] else p.objects + [event.resulting]))
  {
  }

  /** A failing call leaves the log as it was, whatever the projection, log and input. */
  lemma FailureIsAtomic(matrix: Matrix, p: Projection, logRoom: Id, log: LogState<ObjectEvent>, input: Input)
    ensures var s := Step(matrix, p, logRoom, log, input);
      s.result.Err? ==> s.log == log
  {
    var prepared := PrepareEvent(matrix, p, logRoom, NextSequence(log), input);
    if prepared.Ok? {
      PreparedEventApplies(matrix, p, logRoom, NextSequence(log), input, prepared.value);
    }
  }

  /** An accepted call appends exactly its event and applies exactly that event. */
  lemma AcceptedStep(matrix: Matrix, p: Projection, logRoom: Id, log: LogState<ObjectEvent>, input: Input)
    requires Step(matrix, p, logRoom, log, input).result.Ok?
    ensures var s := Step(matrix, p, logRoom, log, input);
      var event := s.result.value.event;
      && EventFits(p, event, input)
      && event.localSequence == NextSequence(log)
      && ApplyEvent(p, event) == Ok(s.result.value.nextProjection)
      && s.log == if log.MemoryLog? then MemoryLog(log.events + [event]) else NullLog(NextSequence(log))
  {
    var prepared := PrepareEvent(matrix, p, logRoom, NextSequence(log), input);
    PreparedEventApplies(matrix, p, logRoom, NextSequence(log), input, prepared.value);
  }
}
