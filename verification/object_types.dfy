/** Room objects, the validated mutation commands, and the status tables. */
module ObjectTypes {
  import opened Common
  import opened Privacy

  datatype Kind = MessageKind | NoteKind | TaskKind | DecisionKind | PollKind | FileRefKind

  datatype Lifecycle = Active | Archived | Redacted | Tombstone

  datatype Sensitivity = RelationshipSensitivity | ContentSensitivity

  /** Statuses of tasks, decisions and polls; the three families are disjoint. */
  datatype Status =
    | Todo | InProgress | Done | Cancelled
    | Proposed | Accepted | Rejected | Superseded
    | Draft | OpenLocal | ClosedLocal

  datatype PollOption = PollOption(optionId: string, text: string)

  /**
   * Content of every kind as one record. Updates of the source spread onto the
   * current content without looking at the kind, so any field can appear on any kind.
   */
  datatype Content = Content(
    body: Option<string>, replyTo: Option<Id>, edited: Option<bool>,
    title: Option<string>, tags: Option<seq<string>>,
    description: Option<string>, assigneeRefs: Option<seq<Id>>, dueAtLocal: Option<string>,
    statement: Option<string>, rationale: Option<string>, supersedes: Option<Id>,
    question: Option<string>, options: Option<seq<PollOption>>,
    localRefId: Option<string>, displayName: Option<string>, mediaType: Option<string>, sizeBytes: Option<nat>,
    status: Option<Status>)

  const NO_CONTENT := Content(None, None, None, None, None, None, None, None, None, None, None, None, None,
                              None, None, None, None, None)

  datatype RoomObject = RoomObject(
    objectId: Id, roomId: Id, kind: Kind, revision: nat, lifecycle: Lifecycle, sensitivity: Sensitivity,
    createdAtLocal: string, updatedAtLocal: string, createdBy: Id, updatedBy: Id,
    redacted: bool, content: Option<Content>)

  datatype Payload =
    | CreateMessage(body: string, replyTo: Option<Id>)
    | EditMessage(body: string)
    | RedactMessage
    | CreateNote(noteTitle: Option<string>, body: string, tags: seq<string>)
    | UpdateNoteContent(noteTitle: Option<string>, body: string)
    | UpdateNoteTags(tags: seq<string>)
    | CreateTask(title: string, description: Option<string>, assigneeRefs: seq<Id>, dueAtLocal: Option<string>,
                 tags: seq<string>)
    | UpdateTaskContent(title: string, description: Option<string>, assigneeRefs: seq<Id>, dueAtLocal: Option<string>,
                        tags: seq<string>)
    | UpdateTaskStatus(status: Status)
    | CreateDecision(statement: string, rationale: Option<string>)
    | ResolveDecision(status: Status, newStatement: Option<string>, rationale: Option<string>, supersedes: Option<Id>)
    | CreatePoll(question: string, options: seq<PollOption>)
    | UpdatePollDraft(question: string, options: seq<PollOption>)
    | OpenPoll
    | ClosePoll
    | CreateFileRef(localRefId: string, displayName: Option<string>, mediaType: Option<string>, sizeBytes: Option<nat>)
    | UpdateFileMetadata(displayName: Option<string>, mediaType: Option<string>, sizeBytes: Option<nat>)
    | ArchiveObject
    | RedactObject
    | TombstoneObject

  datatype Command = Command(
    roomId: Id, objectId: Id, actorRef: Id, expectedRevision: Option<nat>, mode: PrivacyMode, payload: Payload)

  datatype MutationClass = CreateClass | UpdateClass | RedactClass | ArchiveClass | TombstoneClass

  function ClassOf(payload: Payload): MutationClass {
    match payload
    case RedactMessage | RedactObject => RedactClass
    case ArchiveObject => ArchiveClass
    case TombstoneObject => TombstoneClass
    case CreateMessage(_, _) | CreateNote(_, _, _) | CreateTask(_, _, _, _, _) | CreateDecision(_, _)
       | CreatePoll(_, _) | CreateFileRef(_, _, _, _) => CreateClass
    case _ => UpdateClass
  }

  function ScopeOf(cls: MutationClass): Scope {
    match cls
    case CreateClass => ObjectCreate
    case UpdateClass => ObjectUpdate
    case RedactClass => ObjectRedact
    case ArchiveClass => ObjectArchive
    case TombstoneClass => ObjectTombstone
  }

  function MatrixOperationOf(cls: MutationClass): string {
    match cls
    case CreateClass => "room.object.create"
    case UpdateClass => "room.object.update"
    case RedactClass => "room.object.redact"
    case ArchiveClass => "room.object.archive"
    case TombstoneClass => "room.object.tombstone"
  }

  predicate LifecycleAllows(lifecycle: Lifecycle, cls: MutationClass) {
    match lifecycle
    case Active => !cls.CreateClass?
    case Archived => cls.RedactClass? || cls.TombstoneClass?
    case Redacted => cls.ArchiveClass? || cls.TombstoneClass?
    case Tombstone => false
  }

  predicate TaskStatus(s: Status) {
    s.Todo? || s.InProgress? || s.Done? || s.Cancelled?
  }

  predicate DecisionStatus(s: Status) {
    s.Proposed? || s.Accepted? || s.Rejected? || s.Superseded?
  }

  predicate PollStatus(s: Status) {
    s.Draft? || s.OpenLocal? || s.ClosedLocal?
  }

  /** The table of task statuses; a status outside it has no row, and looking it up fails. */
  predicate TaskTransition(from: Status, to: Status) {
    match from
    case Todo => to.InProgress? || to.Done? || to.Cancelled?
    case InProgress => to.Todo? || to.Done? || to.Cancelled?
    case _ => false
  }

  predicate DecisionTransition(from: Status, to: Status) {
    match from
    case Proposed => to.Accepted? || to.Rejected? || to.Superseded?
    case Accepted | Rejected => to.Superseded?
    case _ => false
  }

  predicate PollTransition(from: Status, to: Status) {
    match from
    case Draft => to.OpenLocal?
    case OpenLocal => to.ClosedLocal?
    case _ => false
  }
}
