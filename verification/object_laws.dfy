/** What each object command means, spelled out in the command and the objects alone. */
module ObjectLaws {
  import opened Common
  import opened Privacy
  import opened EventLogs
  import opened ObjectTypes
  import opened ObjectEvents
  import opened ObjectReducer
  import opened ObjectPipeline
  import opened ObjectRuns

  // ---- Creation ----

  predicate IsCreation(p: Payload) {
    p.CreateMessage? || p.CreateNote? || p.CreateTask? || p.CreateDecision? || p.CreatePoll? || p.CreateFileRef?
  }

  /** The kind of object a command creates. */
  predicate Creates(p: Payload, kind: Kind) {
    || (p.CreateMessage? && kind.MessageKind?)
    || (p.CreateNote? && kind.NoteKind?)
    || (p.CreateTask? && kind.TaskKind?)
    || (p.CreateDecision? && kind.DecisionKind?)
    || (p.CreatePoll? && kind.PollKind?)
    || (p.CreateFileRef? && kind.FileRefKind?)
  }

  /** Field by field, what a new object holds: all that the command names and nothing else. */
  predicate BornWith(p: Payload, c: Content) {
    && c.body == (if p.CreateMessage? || p.CreateNote? then Some(p.body) else None)
    && c.replyTo == (if p.CreateMessage? then p.replyTo else None)
    && c.edited == (if p.CreateMessage? then Some(false) else None)
    && c.title == (if p.CreateNote? then p.noteTitle else if p.CreateTask? then Some(p.title) else None)
    && c.tags == (if p.CreateNote? || p.CreateTask? then Some(p.tags) else None)
    && c.description == (if p.CreateTask? then p.description else None)
    && c.assigneeRefs == (if p.CreateTask? then Some(p.assigneeRefs) else None)
    && c.dueAtLocal == (if p.CreateTask? then p.dueAtLocal else None)
    && c.statement == (if p.CreateDecision? then Some(p.statement) else None)
    && c.rationale == (if p.CreateDecision? then p.rationale else None)
    && c.supersedes == None
    && c.question == (if p.CreatePoll? then Some(p.question) else None)
    && c.options == (if p.CreatePoll? then Some(p.options) else None)
    && c.localRefId == (if p.CreateFileRef? then Some(p.localRefId) else None)
    && c.displayName == (if p.CreateFileRef? then p.displayName else None)
    && c.mediaType == (if p.CreateFileRef? then p.mediaType else None)
    && c.sizeBytes == (if p.CreateFileRef? then p.sizeBytes else None)
    && c.status == (if p.CreateTask? then Some(Todo) else if p.CreateDecision? then Some(Proposed)
                    else if p.CreatePoll? then Some(Draft) else None)
  }

  /** Every accepted creation adds, last, an active object at revision one with exactly what the command names. */
  lemma CreationMeans(p: Projection, q: Projection, input: Input)
    requires Changes(p, q, input)
    requires IsCreation(input.command.payload)
    ensures |q.objects| == |p.objects| + 1 && q.objects[..|p.objects|] == p.objects
    ensures var o, command, now := q.objects[|p.objects|], input.command, LocalLabel(input.now);
      && o.objectId == command.objectId && o.roomId == command.roomId && Creates(command.payload, o.kind)
      && o.revision == 1 && o.lifecycle.Active? && !o.redacted
      && (o.sensitivity.RelationshipSensitivity? <==> o.kind.FileRefKind?)
      && o.createdAtLocal == o.updatedAtLocal == now && o.createdBy == o.updatedBy == command.actorRef
      && o.content.Some? && BornWith(command.payload, o.content.value)
  {
    hide IndexFrom;
    assert q.objects[..|p.objects|] == p.objects;
  }

  /** The pipeline itself: the log, the event and the projection all carry that object. */
  lemma AcceptedCreation(matrix: Matrix, p: Projection, logRoom: Id, log: LogState<ObjectEvent>, input: Input)
    requires Step(matrix, p, logRoom, log, input).result.Ok?
    requires IsCreation(input.command.payload)
    ensures var applied := Step(matrix, p, logRoom, log, input).result.value;
      && |applied.nextProjection.objects| == |p.objects| + 1
      && applied.nextProjection.objects[|p.objects|] == applied.event.resulting
      && applied.event.resulting.content.Some?
      && BornWith(input.command.payload, applied.event.resulting.content.value)
  {
    AcceptedStep(matrix, p, logRoom, log, input);
    NextChanges(matrix, logRoom, World(p, log), input);
    var applied := Step(matrix, p, logRoom, log, input).result.value;
    assert Changes(p, applied.nextProjection, input);
    CreationMeans(p, applied.nextProjection, input);
    hide Step, Changes, BornWith, BuildCreatedObject, BuildUpdatedObject;
  }

  // ---- The event ----

  /** What an event records of the call and of the object before and after it. */
  lemma EventRecords(matrix: Matrix, p: Projection, logRoom: Id, sequence: nat, input: Input)
    requires PrepareEvent(matrix, p, logRoom, sequence, input).Ok?
    ensures var e, command := PrepareEvent(matrix, p, logRoom, sequence, input).value, input.command;
      && e.objectEventId == input.objectEventId && e.roomId == command.roomId && e.objectId == command.objectId
      && e.localSequence == sequence && e.actor == command.actorRef && e.createdAtLocal == LocalLabel(input.eventNow)
      && e.kind == e.resulting.kind && e.resultingLifecycle == e.resulting.lifecycle
      && e.resultingRevision == e.resulting.revision
      && e.previousRevision == (if IndexOf(p.objects, command.objectId) >= 0
                                then Some(p.objects[IndexOf(p.objects, command.objectId)].revision) else None)
  {
    PreparedEventApplies(matrix, p, logRoom, sequence, input, PrepareEvent(matrix, p, logRoom, sequence, input).value);
    hide IndexFrom, UpdatedContent, CreatedContent;
  }

  /** Local labels keep a time already marked as local and mark any other. */
  lemma LabelsAreLocal(now: string)
    ensures LOCAL_PREFIX <= LocalLabel(now) && LocalLabel(LocalLabel(now)) == LocalLabel(now)
    ensures LocalLabel(now) == now || (!(LOCAL_PREFIX <= now) && LocalLabel(now) == "local:" + now)
  {
  }

  // ---- The reducer, on any event ----

  /** Exactly when any event, prepared here or not, applies to any projection, and what it then does. */
  lemma AppliedIff(p: Projection, e: ObjectEvent)
    ensures var i := IndexOf(p.objects, e.objectId);
      ApplyEvent(p, e).Ok? <==>
        && e.roomId == p.roomId
        && if e.previousRevision.None? then i == -1
           else
             && i >= 0 && p.objects[i].roomId == e.roomId && !p.objects[i].lifecycle.Tombstone?
             && p.objects[i].revision == e.previousRevision.value
    ensures var i := IndexOf(p.objects, e.objectId);
      ApplyEvent(p, e).Ok? ==>
        && ApplyEvent(p, e).value.roomId == p.roomId
        && ApplyEvent(p, e).value.objects == if i >= 0 then p.objects[i := e.resulting] else p.objects + [e.resulting]
  {
    hide IndexFrom;
  }

  // ---- Command by command ----

  predicate IsRedaction(p: Payload) {
    p.RedactMessage? || p.RedactObject?
  }

  predicate IsUpdate(p: Payload) {
    !IsCreation(p) && !IsRedaction(p) && !p.ArchiveObject? && !p.TombstoneObject?
  }

  /** Scope, matrix operation and the lifecycles it is allowed in, for each command. */
  lemma CommandsAre(p: Payload)
    ensures IsCreation(p) ==>
      && ScopeOf(ClassOf(p)) == ObjectCreate && MatrixOperationOf(ClassOf(p)) == "room.object.create"
      && forall l :: !LifecycleAllows(l, ClassOf(p))
    ensures IsUpdate(p) ==>
      && ScopeOf(ClassOf(p)) == ObjectUpdate && MatrixOperationOf(ClassOf(p)) == "room.object.update"
      && forall l :: LifecycleAllows(l, ClassOf(p)) <==> l == Active
    ensures IsRedaction(p) ==>
      && ScopeOf(ClassOf(p)) == ObjectRedact && MatrixOperationOf(ClassOf(p)) == "room.object.redact"
      && forall l :: LifecycleAllows(l, ClassOf(p)) <==> l == Active || l == Archived
    ensures p.ArchiveObject? ==>
      && ScopeOf(ClassOf(p)) == ObjectArchive && MatrixOperationOf(ClassOf(p)) == "room.object.archive"
      && forall l :: LifecycleAllows(l, ClassOf(p)) <==> l == Active || l == Redacted
    ensures p.TombstoneObject? ==>
      && ScopeOf(ClassOf(p)) == ObjectTombstone && MatrixOperationOf(ClassOf(p)) == "room.object.tombstone"
      && forall l :: LifecycleAllows(l, ClassOf(p)) <==> l != Tombstone
  {
  }

  /** What each command leaves of the one object it names. */
  lemma CommandsDo(p: Projection, q: Projection, input: Input)
    requires Changes(p, q, input) && !IsCreation(input.command.payload)
    ensures var payload, i := input.command.payload, IndexOf(p.objects, input.command.objectId);
      && 0 <= i < |p.objects| == |q.objects|
      && q.objects[i].revision == p.objects[i].revision + 1
      && (IsRedaction(payload) ==> q.objects[i].lifecycle == Redacted)
      && (payload.ArchiveObject? ==> q.objects[i].lifecycle == Archived)
      && (payload.TombstoneObject? ==> q.objects[i].lifecycle == Tombstone)
      && (IsUpdate(payload) ==> q.objects[i].lifecycle == p.objects[i].lifecycle == Active)
      && (IsRedaction(payload) || payload.TombstoneObject? ==> q.objects[i].redacted && q.objects[i].content == None)
      && (payload.ArchiveObject? ==>
            q.objects[i].redacted == p.objects[i].redacted && q.objects[i].content == p.objects[i].content)
      && (IsUpdate(payload) ==>
            && q.objects[i].redacted == p.objects[i].redacted && p.objects[i].content.Some?
            && q.objects[i].content == Some(Overlay(p.objects[i].content.value, Patch(payload))))
  {
    var i := IndexOf(p.objects, input.command.objectId);
    if IsUpdate(input.command.payload) && p.objects[i].content.Some? {
      UpdateIsOverlay(p.objects[i].content.value, input.command.payload);
    }
    hide IndexFrom, UpdatedContent, Overlay, Patch;
  }

  /** The status tables, move by move. */
  lemma StatusMovesAre(a: Status, b: Status)
    ensures StatusTransition(a, b) <==>
      (a, b) in {(Todo, InProgress), (Todo, Done), (Todo, Cancelled), (InProgress, Todo), (InProgress, Done),
                 (InProgress, Cancelled), (Proposed, Accepted), (Proposed, Rejected), (Proposed, Superseded),
                 (Accepted, Superseded), (Rejected, Superseded), (Draft, OpenLocal), (OpenLocal, ClosedLocal)}
  {
  }
}
