/** Building the object that results from a command, and the event that carries it. */
module ObjectEvents {
  import opened Common
  import opened ObjectTypes

  datatype ObjectError =
    | RoomMismatch | CrossObjectReference | PolicyDenied | DecisionRejected
    | ObjectNotFound | ObjectIsTerminal | MissingExpectedRevision | StaleRevision | FutureRevision
    | InvalidLifecycleTransition | InvalidStatusTransition | RevisionOverflow | UnknownCommand
    | LogRefused

  datatype ObjectEvent = ObjectEvent(
    objectEventId: string, roomId: Id, objectId: Id, kind: Kind, localSequence: nat, actor: Id,
    createdAtLocal: string, previousRevision: Option<nat>, resultingRevision: nat,
    resultingLifecycle: Lifecycle, resulting: RoomObject)

  datatype Built = Built(resulting: RoomObject, previousRevision: Option<nat>, resultingRevision: nat)

  function CreatedContent(payload: Payload): Result<(Kind, Content), ObjectError> {
    match payload
    case CreateMessage(body, replyTo) =>
      Ok((MessageKind, NO_CONTENT.(body := Some(body), replyTo := replyTo, edited := Some(false))))
    case CreateNote(title, body, tags) =>
      Ok((NoteKind, NO_CONTENT.(title := title, body := Some(body), tags := Some(tags))))
    case CreateTask(title, description, assigneeRefs, dueAtLocal, tags) =>
      Ok((TaskKind, NO_CONTENT.(title := Some(title), description := description, status := Some(Todo),
          assigneeRefs := Some(assigneeRefs), dueAtLocal := dueAtLocal, tags := Some(tags))))
    case CreateDecision(statement, rationale) =>
      Ok((DecisionKind, NO_CONTENT.(statement := Some(statement), rationale := rationale, status := Some(Proposed))))
    case CreatePoll(question, options) =>
      Ok((PollKind, NO_CONTENT.(question := Some(question), options := Some(options), status := Some(Draft))))
    case CreateFileRef(localRefId, displayName, mediaType, sizeBytes) =>
      Ok((FileRefKind, NO_CONTENT.(localRefId := Some(localRefId), displayName := displayName,
          mediaType := mediaType, sizeBytes := sizeBytes)))
    case _ => Err(UnknownCommand)
  }

  function BuildCreatedObject(command: Command, now: string): Result<RoomObject, ObjectError> {
    var (kind, content) :- CreatedContent(command.payload);
    Ok(RoomObject(command.objectId, command.roomId, kind, 1, Active,
                  if kind.FileRefKind? then RelationshipSensitivity else ContentSensitivity,
                  now, now, command.actorRef, command.actorRef, false, Some(content)))
  }

  /** The content after an update, which is spread onto the current content of whatever kind. */
  function UpdatedContent(c: Content, payload: Payload): Result<Content, ObjectError> {
    match payload
    case EditMessage(body) =>
      Ok(c.(body := Some(body), edited := Some(true)))
    case UpdateNoteContent(title, body) =>
      Ok(c.(title := Given(title, c.title), body := Some(body)))
    case UpdateNoteTags(tags) =>
      Ok(c.(tags := Some(tags)))
    case UpdateTaskContent(title, description, assigneeRefs, dueAtLocal, tags) =>
      Ok(c.(title := Some(title), description := Given(description, c.description),
            assigneeRefs := Some(assigneeRefs), dueAtLocal := Given(dueAtLocal, c.dueAtLocal), tags := Some(tags)))
    case UpdateTaskStatus(status) =>
      :- Need(c.status.Some? && TaskTransition(c.status.value, status), InvalidStatusTransition);
      Ok(c.(status := Some(status)))
    case ResolveDecision(status, statement, rationale, supersedes) =>
      :- Need(c.status.Some? && DecisionTransition(c.status.value, status), InvalidStatusTransition);
      Ok(c.(status := Some(status), statement := Given(statement, c.statement),
            rationale := Given(rationale, c.rationale), supersedes := Given(supersedes, c.supersedes)))
    case UpdatePollDraft(question, options) =>
      :- Need(c.status == Some(Draft), InvalidStatusTransition);
      Ok(c.(question := Some(question), options := Some(options)))
    case OpenPoll =>
      :- Need(c.status.Some? && PollTransition(c.status.value, OpenLocal), InvalidStatusTransition);
      Ok(c.(status := Some(OpenLocal)))
    case ClosePoll =>
      :- Need(c.status.Some? && PollTransition(c.status.value, ClosedLocal), InvalidStatusTransition);
      Ok(c.(status := Some(ClosedLocal)))
    case UpdateFileMetadata(displayName, mediaType, sizeBytes) =>
      Ok(c.(displayName := Given(displayName, c.displayName), mediaType := Given(mediaType, c.mediaType),
            sizeBytes := Given(sizeBytes, c.sizeBytes)))
    case _ => Err(UnknownCommand)
  }

  function BuildUpdatedObject(current: RoomObject, command: Command, now: string,
                              revision: nat): Result<RoomObject, ObjectError> {
    var cls := ClassOf(command.payload);
    var stamped := current.(updatedAtLocal := now, updatedBy := command.actorRef, revision := revision);
    :- Need(!current.lifecycle.Tombstone?, ObjectIsTerminal);
    :- Need(LifecycleAllows(current.lifecycle, cls), InvalidLifecycleTransition);
    match cls
    case ArchiveClass => Ok(stamped.(lifecycle := Archived))
    case RedactClass => Ok(stamped.(lifecycle := Redacted, redacted := true, content := None))
    case TombstoneClass => Ok(stamped.(lifecycle := Tombstone, redacted := true, content := None))
    case _ =>
      :- Need(current.content.Some?, InvalidLifecycleTransition);
      var content :- UpdatedContent(current.content.value, command.payload);
      Ok(stamped.(content := Some(content)))
  }

  function BuildResultingObject(current: Option<RoomObject>, command: Command,
                                now: string): Result<Built, ObjectError> {
    if ClassOf(command.payload).CreateClass? then
      :- Need(current.None?, InvalidLifecycleTransition);
      var resulting :- BuildCreatedObject(command, now);
      Ok(Built(resulting, None, 1))
    else
      :- Need(current.Some?, ObjectNotFound);
      var revision := current.value.revision + 1;
      :- Need(revision <= MAX_REVISION, RevisionOverflow);
      var resulting :- BuildUpdatedObject(current.value, command, now, revision);
      Ok(Built(resulting, Some(current.value.revision), revision))
  }

  function CreateAcceptedEvent(command: Command, built: Built, eventId: string, sequence: nat,
                               now: string): ObjectEvent {
    ObjectEvent(eventId, command.roomId, command.objectId, built.resulting.kind, sequence, command.actorRef, now,
                built.previousRevision, built.resultingRevision, built.resulting.lifecycle, built.resulting)
  }
}
