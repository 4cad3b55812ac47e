/** Properties of every run of object mutations. */
module ObjectRuns {
  import opened Common
  import opened Privacy
  import opened EventLogs
  import opened ObjectTypes
  import opened ObjectEvents
  import opened ObjectReducer
  import opened ObjectPipeline

  /** The caller's projection next to the log. A failing call leaves the projection. */
  datatype World = World(projection: Projection, log: LogState<ObjectEvent>)

  function Next(matrix: Matrix, room: Id, w: World, input: Input): World {
    var s := Step(matrix, w.projection, room, w.log, input);
    World(if s.result.Ok? then s.result.value.nextProjection else w.projection, s.log)
  }

  /** The world after the first k calls of a run, accepted or not. */
  function At(matrix: Matrix, room: Id, start: World, inputs: seq<Input>, k: nat): World
    requires k <= |inputs|
  {
    if k == 0 then start else Next(matrix, room, At(matrix, room, start, inputs, k - 1), inputs[k - 1])
  }

  predicate AcceptedAt(matrix: Matrix, room: Id, start: World, inputs: seq<Input>, k: nat)
    requires k < |inputs|
  {
    var w := At(matrix, room, start, inputs, k);
    Step(matrix, w.projection, room, w.log, inputs[k]).result.Ok?
  }

  function Fresh(room: Id): World {
    World(EmptyProjection(room), MemoryLog([]))
  }

  /** What an accepted call does to the projection. */
  ghost predicate Changes(p: Projection, q: Projection, input: Input) {
    var command, now := input.command, LocalLabel(input.now);
    var i := IndexOf(p.objects, command.objectId);
    && q.roomId == p.roomId == command.roomId
    && (command.payload.CreateMessage? && command.payload.replyTo.Some? ==>
          ReferenceInRoom(p, command.payload.replyTo.value, None))
    && (command.payload.ResolveDecision? && command.payload.supersedes.Some? ==>
          ReferenceInRoom(p, command.payload.supersedes.value, Some(DecisionKind)))
    && if ClassOf(command.payload).CreateClass? then
         && i == -1 && BuildCreatedObject(command, now).Ok?
         && q.objects == p.objects + [BuildCreatedObject(command, now).value]
       else
         && i >= 0
         && command.expectedRevision == Some(p.objects[i].revision) && p.objects[i].revision < MAX_REVISION
         && BuildUpdatedObject(p.objects[i], command, now, p.objects[i].revision + 1).Ok?
         && q.objects == p.objects[i := BuildUpdatedObject(p.objects[i], command, now, p.objects[i].revision + 1).value]
  }

  /** Exactly when a call is accepted, independently of the order of the checks. */
  lemma AcceptedIff(matrix: Matrix, p: Projection, logRoom: Id, log: LogState<ObjectEvent>, input: Input)
    ensures Step(matrix, p, logRoom, log, input).result.Ok? <==>
      var command, cls, i := input.command, ClassOf(input.command.payload), IndexOf(p.objects, input.command.objectId);
      && command.roomId == p.roomId == logRoom
      && (command.payload.CreateMessage? && command.payload.replyTo.Some? ==>
          IndexOf(p.objects, command.payload.replyTo.value) >= 0)
      && (command.payload.ResolveDecision? && command.payload.supersedes.Some? ==>
            var t := IndexOf(p.objects, command.payload.supersedes.value);
            t >= 0 && p.objects[t].kind.DecisionKind?)
      && matrix(MatrixOperationOf(cls), command.mode) == MemoryOnly
      && Authorizes(input.mutationDecision, ScopeOf(cls)) && Authorizes(input.storageDecision, ObjectLogAppend)
      && (cls.RedactClass? || cls.TombstoneClass? || (!command.mode.Emergency? && input.allowLocalContentMutation))
      && if cls.CreateClass? then i == -1
         else
           && i >= 0 && p.objects[i].roomId == command.roomId
           && command.expectedRevision == Some(p.objects[i].revision)
           && p.objects[i].revision + 1 < 0x1F_FFFF_FFFF_FFFF  // the largest safe integer is never reached
           && LifecycleAllows(p.objects[i].lifecycle, cls)
           && (cls.UpdateClass? ==>
               p.objects[i].content.Some? && UpdatedContent(p.objects[i].content.value, command.payload).Ok?)
  {
    var prepared := PrepareEvent(matrix, p, logRoom, NextSequence(log), input);
    if prepared.Ok? {
      PreparedEventApplies(matrix, p, logRoom, NextSequence(log), input, prepared.value);
    }
    hide ApplyEvent, IndexFrom, UpdatedContent;
  }

  lemma NextChanges(matrix: Matrix, room: Id, w: World, input: Input)
    ensures var q := Next(matrix, room, w, input).projection;
      if Step(matrix, w.projection, room, w.log, input).result.Ok? then Changes(w.projection, q, input)
      else q == w.projection
  {
    if Step(matrix, w.projection, room, w.log, input).result.Ok? {
      AcceptedStep(matrix, w.projection, room, w.log, input);
    }
  }

  // ---- Replay refines the live state ----

  ghost predicate Replays(room: Id, w: World) {
    && w.log.MemoryLog?
    && WellSequenced(w.log.events, room)
    && Fold(ApplyEvent, EmptyProjection(room), w.log.events) == Ok(w.projection)
  }

  lemma NextReplays(matrix: Matrix, room: Id, w: World, input: Input)
    requires Replays(room, w)
    ensures Replays(room, Next(matrix, room, w, input))
  {
    var s := Step(matrix, w.projection, room, w.log, input);
    if s.result.Err? {
      FailureIsAtomic(matrix, w.projection, room, w.log, input);
    } else {
      AcceptedStep(matrix, w.projection, room, w.log, input);
      assert s.log.events[..|s.log.events| - 1] == w.log.events;
    }
  }

  /** At every point of every run, replaying the log from empty gives the live projection. */
  lemma {:induction false} ReplayRefinesLive(matrix: Matrix, room: Id, inputs: seq<Input>, k: nat)
    requires k <= |inputs|
    ensures Replays(room, At(matrix, room, Fresh(room), inputs, k))
  {
    if k > 0 {
      ReplayRefinesLive(matrix, room, inputs, k - 1);
      NextReplays(matrix, room, At(matrix, room, Fresh(room), inputs, k - 1), inputs[k - 1]);
    }
  }

  /** Discarding every event never changes what the caller sees: the null log runs in step. */
  lemma {:induction false} RetentionIsInvisible(matrix: Matrix, room: Id, inputs: seq<Input>, k: nat)
    requires k <= |inputs|
    ensures var kept := At(matrix, room, Fresh(room), inputs, k);
      var discarded := At(matrix, room, World(EmptyProjection(room), NullLog(0)), inputs, k);
      && kept.log.MemoryLog? && discarded.log == NullLog(|kept.log.events|)
      && kept.projection == discarded.projection
  {
    hide Next;
    if k > 0 {
      RetentionIsInvisible(matrix, room, inputs, k - 1);
      NextKeepsStep(matrix, room, At(matrix, room, Fresh(room), inputs, k - 1),
                    At(matrix, room, World(EmptyProjection(room), NullLog(0)), inputs, k - 1), inputs[k - 1]);
    }
  }

  lemma NextKeepsStep(matrix: Matrix, room: Id, kept: World, discarded: World, input: Input)
    requires kept.log.MemoryLog? && discarded == World(kept.projection, NullLog(|kept.log.events|))
    ensures var w := Next(matrix, room, kept, input);
      w.log.MemoryLog? && Next(matrix, room, discarded, input) == World(w.projection, NullLog(|w.log.events|))
  {
    hide PrepareEvent, ApplyEvent;
    var prepared := PrepareEvent(matrix, kept.projection, room, |kept.log.events| + 1, input);
    if prepared.Ok? {
      PreparedEventApplies(matrix, kept.projection, room, |kept.log.events| + 1, input, prepared.value);
    }
    hide EventFits;
  }

  // ---- What a command does to its object ----

  /** The class of a command decides the lifecycle, and whether there is content afterwards. */
  lemma ClassDecidesOutcome(p: Projection, q: Projection, input: Input)
    requires Changes(p, q, input)
    ensures var cls, i := ClassOf(input.command.payload), IndexOf(q.objects, input.command.objectId);
      && 0 <= i < |q.objects|
      && q.objects[i].updatedAtLocal == LocalLabel(input.now) && q.objects[i].updatedBy == input.command.actorRef
      && match cls
         case CreateClass =>
           && i == |p.objects| && q.objects[i].lifecycle.Active? && q.objects[i].revision == 1
           && q.objects[i].createdBy == input.command.actorRef && q.objects[i].content.Some?
         case UpdateClass =>
           && i < |p.objects| && p.objects[i].lifecycle.Active? && q.objects[i].lifecycle.Active?
           && p.objects[i].content.Some?
           && q.objects[i].content == Some(Overlay(p.objects[i].content.value, Patch(input.command.payload)))
         case ArchiveClass =>
           i < |p.objects| && q.objects[i].lifecycle.Archived? && q.objects[i].content == p.objects[i].content
         case RedactClass =>
           i < |p.objects| && q.objects[i].lifecycle.Redacted? && q.objects[i].redacted && q.objects[i].content.None?
         case TombstoneClass =>
           i < |p.objects| && q.objects[i].lifecycle.Tombstone? && q.objects[i].redacted && q.objects[i].content.None?
    ensures forall n :: 0 <= n < |p.objects| && n != IndexOf(q.objects, input.command.objectId) ==>
      q.objects[n] == p.objects[n]
  {
    var i := IndexOf(p.objects, input.command.objectId);
    if ClassOf(input.command.payload).UpdateClass? && p.objects[i].content.Some? {
      UpdateIsOverlay(p.objects[i].content.value, input.command.payload);
    }
    hide UpdatedContent, Overlay, Patch;
    if i >= 0 {
      assert q.objects[i].objectId == p.objects[i].objectId;
    } else {
      assert q.objects[|p.objects|].objectId == input.command.objectId;
    }
    assert IndexOf(q.objects, input.command.objectId) == if i >= 0 then i else |p.objects|;
  }

  /** The fields a command gives a value to. */
  function Patch(payload: Payload): Content {
    match payload
    case EditMessage(body) => NO_CONTENT.(body := Some(body), edited := Some(true))
    case UpdateNoteContent(title, body) => NO_CONTENT.(title := title, body := Some(body))
    case UpdateNoteTags(tags) => NO_CONTENT.(tags := Some(tags))
    case UpdateTaskContent(title, description, assigneeRefs, dueAtLocal, tags) =>
      NO_CONTENT.(title := Some(title), description := description, assigneeRefs := Some(assigneeRefs),
                  dueAtLocal := dueAtLocal, tags := Some(tags))
    case UpdateTaskStatus(status) => NO_CONTENT.(status := Some(status))
    case ResolveDecision(status, statement, rationale, supersedes) =>
      NO_CONTENT.(status := Some(status), statement := statement, rationale := rationale, supersedes := supersedes)
    case UpdatePollDraft(question, options) => NO_CONTENT.(question := Some(question), options := Some(options))
    case OpenPoll => NO_CONTENT.(status := Some(OpenLocal))
    case ClosePoll => NO_CONTENT.(status := Some(ClosedLocal))
    case UpdateFileMetadata(displayName, mediaType, sizeBytes) =>
      NO_CONTENT.(displayName := displayName, mediaType := mediaType, sizeBytes := sizeBytes)
    case _ => NO_CONTENT
  }

  /** Field by field, the patch where it has a value and the current content elsewhere. */
  function Overlay(c: Content, patch: Content): Content {
    Content(Given(patch.body, c.body), Given(patch.replyTo, c.replyTo), Given(patch.edited, c.edited),
            Given(patch.title, c.title), Given(patch.tags, c.tags), Given(patch.description, c.description),
            Given(patch.assigneeRefs, c.assigneeRefs), Given(patch.dueAtLocal, c.dueAtLocal),
            Given(patch.statement, c.statement), Given(patch.rationale, c.rationale),
            Given(patch.supersedes, c.supersedes),
            Given(patch.question, c.question), Given(patch.options, c.options),
            Given(patch.localRefId, c.localRefId), Given(patch.displayName, c.displayName),
            Given(patch.mediaType, c.mediaType), Given(patch.sizeBytes, c.sizeBytes), Given(patch.status, c.status))
  }

  /**
   * An update succeeds on content of any kind unless it sets a status the tables
   * do not allow, or redrafts a poll that is no draft; it then writes exactly what
   * it names.
   */
  lemma UpdateIsOverlay(c: Content, payload: Payload)
    requires ClassOf(payload).UpdateClass?
    ensures UpdatedContent(c, payload).Ok? <==>
      && (Patch(payload).status.Some? ==>
            && c.status.Some? && StatusTransition(c.status.value, Patch(payload).status.value)
            && (payload.UpdateTaskStatus? ==> TaskStatus(c.status.value))
            && (payload.ResolveDecision? ==> DecisionStatus(c.status.value)))
      && (payload.UpdatePollDraft? ==> c.status == Some(Draft))
    ensures UpdatedContent(c, payload).Ok? ==> UpdatedContent(c, payload).value == Overlay(c, Patch(payload))
  {
  }

  // ---- Status machines ----

  predicate StatusTransition(from: Status, to: Status) {
    TaskTransition(from, to) || DecisionTransition(from, to) || PollTransition(from, to)
  }

  /** Where a status can get to along its table, in any number of moves. */
  predicate StatusReachable(from: Status, to: Status) {
    match from
    case Todo | InProgress => TaskStatus(to)
    case Proposed => DecisionStatus(to)
    case Accepted | Rejected => to == from || to.Superseded?
    case Draft => PollStatus(to)
    case OpenLocal => to == from || to.ClosedLocal?
    case _ => to == from
  }

  ghost predicate StatusPath(path: seq<Status>) {
    && path != []
    && forall i :: 0 <= i < |path| - 1 ==> StatusTransition(path[i], path[i + 1])
  }

  /** Reachability is exactly "some path of table moves leads there". */
  lemma ReachableIffPath(from: Status, to: Status)
    ensures StatusReachable(from, to) <==>
      exists path :: StatusPath(path) && path[0] == from && path[|path| - 1] == to
  {
    if StatusReachable(from, to) {
      var path := if from == to then [from]
                  else if from.Draft? && to.ClosedLocal? then [Draft, OpenLocal, ClosedLocal]
                  else [from, to];
      assert StatusPath(path);
    }
    forall path | StatusPath(path) && path[0] == from && path[|path| - 1] == to
      ensures StatusReachable(from, to)
    {
      PathReaches(path);
    }
  }

  lemma {:induction false} PathReaches(path: seq<Status>)
    requires StatusPath(path)
    ensures StatusReachable(path[0], path[|path| - 1])
  {
    if |path| > 1 {
      assert StatusPath(path[1..]);
      PathReaches(path[1..]);
      assert StatusTransition(path[0], path[1]);
    }
  }

  // ---- What a later version of an object keeps of an earlier one ----

  ghost predicate ContentEvolves(a: Content, b: Content) {
    && (a.status.Some? <==> b.status.Some?)
    && (a.status.Some? ==> StatusReachable(a.status.value, b.status.value))
    && a.replyTo == b.replyTo
    && (a.supersedes.Some? ==> b.supersedes.Some?)
    && (a.status.Some? && (a.status.value.OpenLocal? || a.status.value.ClosedLocal?) ==>
          a.question == b.question && a.options == b.options)
  }

  ghost predicate ObjectEvolves(a: RoomObject, b: RoomObject) {
    && a.objectId == b.objectId && a.roomId == b.roomId && a.kind == b.kind && a.sensitivity == b.sensitivity
    && a.createdAtLocal == b.createdAtLocal && a.createdBy == b.createdBy
    && a.revision <= b.revision
    && (a.revision == b.revision ==> a == b)
    && (a.lifecycle.Tombstone? ==> a == b)
    && (a.redacted ==> b.redacted)
    && (a.content.None? ==> b.content.None?)
    && (a.content.Some? && b.content.Some? ==> ContentEvolves(a.content.value, b.content.value))
  }

  ghost predicate ProjectionEvolves(p: Projection, q: Projection) {
    && p.roomId == q.roomId
    && |p.objects| <= |q.objects|
    && forall i :: 0 <= i < |p.objects| ==> ObjectEvolves(p.objects[i], q.objects[i])
  }

  lemma UpdatedContentEvolves(c: Content, payload: Payload)
    requires UpdatedContent(c, payload).Ok?
    ensures ContentEvolves(c, UpdatedContent(c, payload).value)
  {
  }

  lemma UpdateEvolves(o: RoomObject, command: Command, now: string)
    requires BuildUpdatedObject(o, command, now, o.revision + 1).Ok?
    ensures var o' := BuildUpdatedObject(o, command, now, o.revision + 1).value;
      ObjectEvolves(o, o') && o'.revision == o.revision + 1 && o'.updatedAtLocal == now
  {
    hide UpdatedContent;
    if ClassOf(command.payload).UpdateClass? {
      UpdatedContentEvolves(o.content.value, command.payload);
    }
  }

  lemma EvolvesReflexive(p: Projection)
    ensures ProjectionEvolves(p, p)
  {
  }

  lemma EvolvesTransitive(p: Projection, q: Projection, r: Projection)
    requires ProjectionEvolves(p, q) && ProjectionEvolves(q, r)
    ensures ProjectionEvolves(p, r)
  {
    forall i | 0 <= i < |p.objects| ensures ObjectEvolves(p.objects[i], r.objects[i]) {
      assert ObjectEvolves(p.objects[i], q.objects[i]) && ObjectEvolves(q.objects[i], r.objects[i]);
    }
  }

  lemma ChangeEvolves(p: Projection, q: Projection, input: Input)
    requires Changes(p, q, input)
    ensures ProjectionEvolves(p, q)
  {
    var i := IndexOf(p.objects, input.command.objectId);
    if i >= 0 {
      UpdateEvolves(p.objects[i], input.command, LocalLabel(input.now));
    }
  }

  lemma NextEvolves(matrix: Matrix, room: Id, w: World, input: Input)
    ensures ProjectionEvolves(w.projection, Next(matrix, room, w, input).projection)
  {
    NextChanges(matrix, room, w, input);
    if Step(matrix, w.projection, room, w.log, input).result.Ok? {
      ChangeEvolves(w.projection, Next(matrix, room, w, input).projection, input);
    }
  }

  /**
   * Over any run from any world: objects never disappear or move, keep identity,
   * kind and authorship, change only with a larger revision, freeze at tombstone,
   * never regain content, and move along their status tables.
   */
  lemma {:induction false} RunEvolves(matrix: Matrix, room: Id, start: World, inputs: seq<Input>, i: nat, j: nat)
    requires i <= j <= |inputs|
    ensures ProjectionEvolves(At(matrix, room, start, inputs, i).projection,
                              At(matrix, room, start, inputs, j).projection)
    decreases j
  {
    if i == j {
      EvolvesReflexive(At(matrix, room, start, inputs, i).projection);
    }
    hide Next, ObjectEvolves;
    if i < j {
      RunEvolves(matrix, room, start, inputs, i, j - 1);
      var before := At(matrix, room, start, inputs, j - 1);
      NextEvolves(matrix, room, before, inputs[j - 1]);
      EvolvesTransitive(At(matrix, room, start, inputs, i).projection, before.projection,
                        At(matrix, room, start, inputs, j).projection);
    }
  }

  /** No table leads on from here. */
  predicate FinalStatus(s: Status) {
    s.Done? || s.Cancelled? || s.Superseded? || s.ClosedLocal?
  }

  ghost predicate StatusDisciplined(a: Content, b: Content) {
    a.status.Some? ==>
      && b.status.Some?
      && (exists path :: StatusPath(path) && path[0] == a.status.value && path[|path| - 1] == b.status.value)
      && (a.status.value.Accepted? || a.status.value.Rejected? || a.status.value.Superseded? ==>
          !b.status.value.Proposed?)
      && (FinalStatus(a.status.value) ==> b.status == a.status)
      && (a.status.value.OpenLocal? || a.status.value.ClosedLocal? ==>
          b.question == a.question && b.options == a.options)
  }

  lemma EvolvesDisciplined(a: Content, b: Content)
    requires ContentEvolves(a, b)
    ensures StatusDisciplined(a, b)
  {
    if a.status.Some? {
      ReachableIffPath(a.status.value, b.status.value);
    }
  }

  /**
   * Status discipline over a whole run, whatever commands are sent to whatever
   * objects: statuses move only along their tables, a resolved decision is never
   * proposed again, final statuses stay, and an opened poll keeps its question
   * and options as long as it has content.
   */
  lemma StatusDiscipline(matrix: Matrix, room: Id, start: World, inputs: seq<Input>, i: nat, j: nat, n: nat)
    requires i <= j <= |inputs| && n < |At(matrix, room, start, inputs, i).projection.objects|
    ensures n < |At(matrix, room, start, inputs, j).projection.objects|
    ensures var a := At(matrix, room, start, inputs, i).projection.objects[n].content;
      var b := At(matrix, room, start, inputs, j).projection.objects[n].content;
      a.Some? && b.Some? ==> StatusDisciplined(a.value, b.value)
  {
    hide At, StatusDisciplined, ContentEvolves;
    RunEvolves(matrix, room, start, inputs, i, j);
    var a, b := At(matrix, room, start, inputs, i).projection.objects[n],
      At(matrix, room, start, inputs, j).projection.objects[n];
    assert ObjectEvolves(a, b);
    if a.content.Some? && b.content.Some? {
      EvolvesDisciplined(a.content.value, b.content.value);
    }
  }

  // ---- Invariants of every reachable projection ----

  predicate StatusFits(kind: Kind, status: Option<Status>) {
    match kind
    case TaskKind => status.Some? && TaskStatus(status.value)
    case DecisionKind => status.Some? && DecisionStatus(status.value)
    case PollKind => status.Some? && PollStatus(status.value)
    case _ => status.None?
  }

  /** Kind and status agree, only messages reply, only decisions supersede, and polls have options. */
  predicate ContentFits(kind: Kind, c: Content) {
    && StatusFits(kind, c.status)
    && (c.replyTo.Some? ==> kind.MessageKind?)
    && (c.supersedes.Some? ==> kind.DecisionKind?)
    && (kind.PollKind? ==> c.options.Some?)
  }

  predicate WellFormedObject(o: RoomObject, room: Id) {
    && o.roomId == room
    && 1 <= o.revision <= MAX_REVISION
    && (o.redacted <==> o.content.None?)
    && (o.lifecycle.Active? ==> o.content.Some?)
    && (o.lifecycle.Redacted? || o.lifecycle.Tombstone? ==> o.content.None?)
    && LOCAL_PREFIX <= o.createdAtLocal && LOCAL_PREFIX <= o.updatedAtLocal
    && (o.content.Some? ==> ContentFits(o.kind, o.content.value))
  }

  predicate ReferencesResolve(objects: seq<RoomObject>, n: nat)
    requires n < |objects|
  {
    objects[n].content.Some? ==>
      && var c := objects[n].content.value;
      && (c.replyTo.Some? ==> 0 <= IndexOf(objects, c.replyTo.value) < n)
      && (c.supersedes.Some? ==>
            var t := IndexOf(objects, c.supersedes.value);
            t >= 0 && objects[t].kind.DecisionKind?)
  }

  predicate UniqueIds(objects: seq<RoomObject>) {
    forall i, j :: 0 <= i < j < |objects| ==> objects[i].objectId != objects[j].objectId
  }

  ghost predicate WellFormed(p: Projection) {
    && UniqueIds(p.objects)
    && forall n :: 0 <= n < |p.objects| ==> WellFormedObject(p.objects[n], p.roomId) && ReferencesResolve(p.objects, n)
  }

  lemma IndexStable(p: Projection, q: Projection, id: Id)
    requires ProjectionEvolves(p, q) && IndexOf(p.objects, id) >= 0
    ensures IndexOf(q.objects, id) == IndexOf(p.objects, id)
  {
    forall k | 0 <= k < |p.objects| ensures p.objects[k].objectId == q.objects[k].objectId {
      assert ObjectEvolves(p.objects[k], q.objects[k]);
    }
  }

  lemma ReferencesStay(p: Projection, q: Projection, n: nat)
    requires ProjectionEvolves(p, q) && n < |p.objects| && ReferencesResolve(p.objects, n)
    requires q.objects[n].content.Some? ==>
      q.objects[n].content.value.supersedes == p.objects[n].content.value.supersedes
      || (q.objects[n].content.value.supersedes.Some?
          && ReferenceInRoom(p, q.objects[n].content.value.supersedes.value, Some(DecisionKind)))
    ensures ReferencesResolve(q.objects, n)
  {
    assert ObjectEvolves(p.objects[n], q.objects[n]);
    if q.objects[n].content.Some? {
      var c := q.objects[n].content.value;
      if c.replyTo.Some? {
        IndexStable(p, q, c.replyTo.value);
      }
      if c.supersedes.Some? {
        IndexStable(p, q, c.supersedes.value);
        var t := IndexOf(p.objects, c.supersedes.value);
        assert ObjectEvolves(p.objects[t], q.objects[t]);
      }
    }
  }

  /** Although an update never looks at the kind, it keeps status and kind in agreement. */
  lemma UpdatedContentFits(kind: Kind, c: Content, payload: Payload)
    requires ContentFits(kind, c) && UpdatedContent(c, payload).Ok?
    ensures ContentFits(kind, UpdatedContent(c, payload).value)
  {
  }

  lemma UpdateWellFormed(o: RoomObject, command: Command, now: string, room: Id)
    requires WellFormedObject(o, room) && o.revision < MAX_REVISION && LOCAL_PREFIX <= now
    requires BuildUpdatedObject(o, command, now, o.revision + 1).Ok?
    ensures WellFormedObject(BuildUpdatedObject(o, command, now, o.revision + 1).value, room)
  {
    hide UpdatedContent, ContentFits;
    if ClassOf(command.payload).UpdateClass? {
      UpdatedContentFits(o.kind, o.content.value, command.payload);
    }
  }

  lemma CreatedWellFormed(command: Command, now: string)
    requires BuildCreatedObject(command, now).Ok? && LOCAL_PREFIX <= now
    ensures var o := BuildCreatedObject(command, now).value;
      && WellFormedObject(o, command.roomId) && o.objectId == command.objectId
      && o.content.value.supersedes == None
      && (o.content.value.replyTo.Some? ==>
            command.payload.CreateMessage? && command.payload.replyTo == o.content.value.replyTo)
  {
  }

  lemma NewReferencesResolve(p: Projection, q: Projection)
    requires ProjectionEvolves(p, q) && |q.objects| == |p.objects| + 1
    requires var c := q.objects[|p.objects|].content;
      c.Some? ==>
        && c.value.supersedes == None
        && (c.value.replyTo.Some? ==> ReferenceInRoom(p, c.value.replyTo.value, None))
    ensures ReferencesResolve(q.objects, |p.objects|)
  {
    var c := q.objects[|p.objects|].content;
    if c.Some? && c.value.replyTo.Some? {
      IndexStable(p, q, c.value.replyTo.value);
    }
  }

  lemma CreationWellFormed(p: Projection, q: Projection, input: Input)
    requires WellFormed(p) && Changes(p, q, input) && ProjectionEvolves(p, q)
    requires ClassOf(input.command.payload).CreateClass?
    ensures WellFormed(q)
  {
    var n := |p.objects|;
    CreatedWellFormed(input.command, LocalLabel(input.now));
    hide BuildCreatedObject, ObjectEvolves, WellFormedObject;
    NewReferencesResolve(p, q);
    hide ReferencesResolve;
    forall i | 0 <= i < n ensures WellFormedObject(q.objects[i], q.roomId) && ReferencesResolve(q.objects, i) {
      ReferencesStay(p, q, i);
    }
  }

  lemma ReplacedWellFormed(p: Projection, q: Projection, i: nat, o: RoomObject)
    requires WellFormed(p) && ProjectionEvolves(p, q)
    requires i < |p.objects| && q.objects == p.objects[i := o] && WellFormedObject(o, p.roomId)
    requires o.content.Some? ==>
      && p.objects[i].content.Some?
      && (o.content.value.supersedes == p.objects[i].content.value.supersedes
          || (o.content.value.supersedes.Some?
              && ReferenceInRoom(p, o.content.value.supersedes.value, Some(DecisionKind))))
    ensures WellFormed(q)
  {
    SameIdsStayUnique(p, q);
    forall n | 0 <= n < |p.objects| ensures ReferencesResolve(q.objects, n) {
      ReferencesStay(p, q, n);
    }
  }

  lemma ChangeWellFormed(p: Projection, q: Projection, input: Input)
    requires WellFormed(p) && Changes(p, q, input) && ProjectionEvolves(p, q)
    requires !ClassOf(input.command.payload).CreateClass?
    ensures WellFormed(q)
  {
    var i := IndexOf(p.objects, input.command.objectId);
    var o, command, now := p.objects[i], input.command, LocalLabel(input.now);
    UpdateWellFormed(o, command, now, p.roomId);
    UpdatedReferences(o, command, now);
    var o' := BuildUpdatedObject(o, command, now, o.revision + 1).value;
    hide BuildUpdatedObject, WellFormedObject, ReferencesResolve, ObjectEvolves;
    ReplacedWellFormed(p, q, i, o');
  }

  lemma SameIdsStayUnique(p: Projection, q: Projection)
    requires ProjectionEvolves(p, q) && UniqueIds(p.objects) && |p.objects| == |q.objects|
    ensures UniqueIds(q.objects)
  {
    forall k | 0 <= k < |p.objects| ensures p.objects[k].objectId == q.objects[k].objectId {
      assert ObjectEvolves(p.objects[k], q.objects[k]);
    }
  }

  /** An update leaves the supersedes reference alone, or sets it to the one the command names. */
  lemma UpdatedReferences(o: RoomObject, command: Command, now: string)
    requires BuildUpdatedObject(o, command, now, o.revision + 1).Ok?
    ensures var o' := BuildUpdatedObject(o, command, now, o.revision + 1).value;
      o'.content.Some? ==>
        && o.content.Some?
        && (o'.content.value.supersedes == o.content.value.supersedes
            || (command.payload.ResolveDecision? && command.payload.supersedes.Some?
                && o'.content.value.supersedes == command.payload.supersedes))
  {
  }

  lemma NextWellFormed(matrix: Matrix, room: Id, w: World, input: Input)
    requires WellFormed(w.projection)
    ensures WellFormed(Next(matrix, room, w, input).projection)
  {
    var p, q := w.projection, Next(matrix, room, w, input).projection;
    NextChanges(matrix, room, w, input);
    if Step(matrix, p, room, w.log, input).result.Ok? {
      ChangeEvolves(p, q, input);
      if ClassOf(input.command.payload).CreateClass? {
        CreationWellFormed(p, q, input);
      } else {
        ChangeWellFormed(p, q, input);
      }
    }
  }

  lemma {:induction false} ReachableWellFormed(matrix: Matrix, room: Id, inputs: seq<Input>, k: nat)
    requires k <= |inputs|
    ensures WellFormed(At(matrix, room, Fresh(room), inputs, k).projection)
    ensures At(matrix, room, Fresh(room), inputs, k).projection.roomId == room
  {
    if k > 0 {
      hide Next, WellFormed, ObjectEvolves;
      ReachableWellFormed(matrix, room, inputs, k - 1);
      NextWellFormed(matrix, room, At(matrix, room, Fresh(room), inputs, k - 1), inputs[k - 1]);
      NextEvolves(matrix, room, At(matrix, room, Fresh(room), inputs, k - 1), inputs[k - 1]);
    }
  }

  // ---- Acyclic replies ----

  predicate RepliesTo(objects: seq<RoomObject>, i: nat, j: nat)
    requires i < |objects| && j < |objects|
  {
    objects[i].content.Some? && objects[i].content.value.replyTo == Some(objects[j].objectId)
  }

  /** A chain of positions, each object replying to the next one. */
  ghost predicate ReplyChain(objects: seq<RoomObject>, chain: seq<nat>) {
    && (forall i :: 0 <= i < |chain| ==> chain[i] < |objects|)
    && forall i :: 0 <= i < |chain| - 1 ==> RepliesTo(objects, chain[i], chain[i + 1])
  }

  /** Reply chains go strictly backwards, so none is circular and each is finite. */
  lemma {:induction false} ReplyChainsDescend(p: Projection, chain: seq<nat>)
    requires WellFormed(p) && ReplyChain(p.objects, chain) && chain != []
    ensures forall i, j :: 0 <= i < j < |chain| ==> chain[j] < chain[i]
    ensures |chain| <= chain[0] + 1
  {
    if |chain| > 1 {
      var rest := chain[1..];
      forall i | 0 <= i < |rest| - 1 ensures RepliesTo(p.objects, rest[i], rest[i + 1]) {
        assert RepliesTo(p.objects, chain[i + 1], chain[i + 2]);
      }
      assert RepliesTo(p.objects, chain[0], chain[1]);
      ReplyChainsDescend(p, rest);
      assert ReferencesResolve(p.objects, chain[0]);
      var target := IndexOf(p.objects, p.objects[chain[1]].objectId);
      assert target == chain[1];
      forall i, j | 0 <= i < j < |chain| ensures chain[j] < chain[i] {
        assert rest[0] == chain[1] && chain[j] == rest[j - 1];
      }
    }
  }

  // ---- Conservation of revisions ----

  function SumRevisions(objects: seq<RoomObject>): nat {
    if objects == [] then 0 else SumRevisions(objects[..|objects| - 1]) + objects[|objects| - 1].revision
  }

  lemma {:induction false} SumAfterUpdate(objects: seq<RoomObject>, i: nat, o: RoomObject)
    requires i < |objects|
    ensures SumRevisions(objects[i := o]) == SumRevisions(objects) - objects[i].revision + o.revision
  {
    var n := |objects| - 1;
    if i < n {
      SumAfterUpdate(objects[..n], i, o);
      assert objects[i := o][..n] == objects[..n][i := o];
    } else {
      assert objects[i := o][..n] == objects[..n];
    }
  }

  /** Applying a prepared event adds exactly one to the sum. */
  lemma ChangeAddsOne(p: Projection, event: ObjectEvent, input: Input)
    requires EventFits(p, event, input) && ApplyEvent(p, event).Ok?
    ensures SumRevisions(ApplyEvent(p, event).value.objects) == SumRevisions(p.objects) + 1
  {
    var i := IndexOf(p.objects, input.command.objectId);
    if i >= 0 {
      UpdateEvolves(p.objects[i], input.command, LocalLabel(input.now));
      SumAfterUpdate(p.objects, i, event.resulting);
    } else {
      assert (p.objects + [event.resulting])[..|p.objects|] == p.objects;
    }
    hide BuildUpdatedObject, ObjectEvolves;
  }

  lemma NextConserves(matrix: Matrix, room: Id, w: World, input: Input)
    requires w.log.MemoryLog? && SumRevisions(w.projection.objects) == |w.log.events|
    ensures var w' := Next(matrix, room, w, input);
      w'.log.MemoryLog? && SumRevisions(w'.projection.objects) == |w'.log.events|
  {
    var p := w.projection;
    var s := Step(matrix, p, room, w.log, input);
    hide Step;
    if s.result.Err? {
      FailureIsAtomic(matrix, p, room, w.log, input);
    } else {
      AcceptedStep(matrix, p, room, w.log, input);
      ChangeAddsOne(p, s.result.value.event, input);
    }
  }

  /** The revisions of all objects always add up to the length of the log. */
  lemma {:induction false} RevisionsEqualLogLength(matrix: Matrix, room: Id, inputs: seq<Input>, k: nat)
    requires k <= |inputs|
    ensures var w := At(matrix, room, Fresh(room), inputs, k);
      w.log.MemoryLog? && SumRevisions(w.projection.objects) == |w.log.events|
  {
    if k > 0 {
      RevisionsEqualLogLength(matrix, room, inputs, k - 1);
      NextConserves(matrix, room, At(matrix, room, Fresh(room), inputs, k - 1), inputs[k - 1]);
    }
  }

  /** Between two accepted changes of one object its revision has grown. */
  lemma LaterChangeExpectsMore(p: Projection, q: Projection, r: Projection, s: Projection, a: Input, b: Input)
    requires Changes(p, q, a) && ProjectionEvolves(q, r) && Changes(r, s, b)
    requires a.command.objectId == b.command.objectId && !ClassOf(a.command.payload).CreateClass?
    ensures !ClassOf(b.command.payload).CreateClass?
    ensures a.command.expectedRevision.Some? && b.command.expectedRevision.Some?
    ensures a.command.expectedRevision.value < b.command.expectedRevision.value
  {
    var id := a.command.objectId;
    var n := IndexOf(p.objects, id);
    UpdateEvolves(p.objects[n], a.command, LocalLabel(a.now));
    ChangeEvolves(p, q, a);
    hide BuildUpdatedObject, BuildCreatedObject;
    IndexStable(p, q, id);
    IndexStable(q, r, id);
    assert ObjectEvolves(q.objects[n], r.objects[n]);
  }

  /**
   * No lost updates: of all updates of one object accepted in a run, a later one
   * expects a strictly larger revision, so no expected revision is accepted twice.
   */
  lemma NoLostUpdates(matrix: Matrix, room: Id, start: World, inputs: seq<Input>, i: nat, j: nat)
    requires i < j < |inputs| && inputs[i].command.objectId == inputs[j].command.objectId
    requires AcceptedAt(matrix, room, start, inputs, i) && AcceptedAt(matrix, room, start, inputs, j)
    requires !ClassOf(inputs[i].command.payload).CreateClass?
    ensures !ClassOf(inputs[j].command.payload).CreateClass?
    ensures inputs[i].command.expectedRevision.Some? && inputs[j].command.expectedRevision.Some?
    ensures inputs[i].command.expectedRevision.value < inputs[j].command.expectedRevision.value
  {
    hide Step, Changes, ProjectionEvolves;
    var wi, wj := At(matrix, room, start, inputs, i), At(matrix, room, start, inputs, j);
    NextChanges(matrix, room, wi, inputs[i]);
    NextChanges(matrix, room, wj, inputs[j]);
    RunEvolves(matrix, room, start, inputs, i + 1, j);
    LaterChangeExpectsMore(wi.projection, Next(matrix, room, wi, inputs[i]).projection,
                           wj.projection, Next(matrix, room, wj, inputs[j]).projection, inputs[i], inputs[j]);
  }
}
