/** The base operation log, its events, the lifecycle table, the reducer and two-phase replay. */
module RoomLog {
  import opened Common
  import opened Privacy
  import opened RoomStates

  datatype Payload =
    | RoomCreate(kind: RoomKind, newTitle: Option<string>)
    | RoomRename(title: string)
    | RoomArchive(target: RoomLifecycle)
    | RoomLock(target: RoomLifecycle)
    | RoomDeleteTombstone(target: RoomLifecycle)
    | PolicyUpdate(policyRevision: int)
    | MemberAdd(memberRef: Id, role: string)
    | MemberRemove(memberRef: Id)
    | PlaceholderCreate(objectId: Id, objectKind: string)
    | AuditAppend

  datatype OperationEvent = OperationEvent(
    eventId: string, roomId: Id, localSequence: int, createdAtLocal: string, payload: Payload)

  datatype RoomError =
    | DecisionRejected | InvalidEvent | RoomMismatch | DuplicateEvent
    | SequenceConflict | EventOrder | SequenceGap | LifecycleDenied

  predicate HasTarget(p: Payload) {
    p.RoomArchive? || p.RoomLock? || p.RoomDeleteTombstone?
  }

  /** The structural checks that do not concern the syntax of ids. */
  predicate ValidEvent(e: OperationEvent) {
    && e.localSequence >= 1 && LOCAL_PREFIX <= e.createdAtLocal
    && (HasTarget(e.payload) ==> !e.payload.target.UnknownLifecycle?)
    && (e.payload.RoomCreate? ==> !e.payload.kind.UnknownKind?)
    && (e.payload.PolicyUpdate? ==> e.payload.policyRevision >= 1)
  }

  // ---- Lifecycle ----

  predicate IsContentOperation(p: Payload) {
    p.RoomRename? || p.MemberAdd? || p.MemberRemove? || p.PlaceholderCreate?
  }

  /** What each lifecycle lets through. */
  predicate LifecycleAllows(current: RoomLifecycle, p: Payload) {
    && (HasTarget(p) ==> !p.target.UnknownLifecycle?)
    && match current
       case DraftRoom => p.RoomCreate? || p.PolicyUpdate? || p.RoomDeleteTombstone?
       case ActiveRoom =>
         || IsContentOperation(p) || p.PolicyUpdate? || p.AuditAppend? || p.RoomDeleteTombstone?
         || (p.RoomArchive? && p.target.ArchivedRoom?)
         || (p.RoomLock? && (p.target.SealedRoom? || p.target.EmergencyLocked?))
       case SealedRoom =>
         || p.PolicyUpdate? || p.AuditAppend? || p.RoomDeleteTombstone?
         || (p.RoomArchive? && p.target.ArchivedRoom?)
         || (p.RoomLock? && p.target.EmergencyLocked?)
       case ArchivedRoom => p.AuditAppend? || p.PolicyUpdate? || p.RoomDeleteTombstone?
       case EmergencyLocked => p.AuditAppend? || p.RoomDeleteTombstone?
       case TombstonedRoom | UnknownLifecycle => false
  }

  // ---- Reducer ----

  function WithoutMember(members: seq<MemberSummary>, ref: Id): seq<MemberSummary> {
    if members == [] then []
    else (if members[0].ref == ref then [] else [members[0]]) + WithoutMember(members[1..], ref)
  }

  function Reduce(current: RoomState, e: OperationEvent): Result<RoomState, RoomError> {
    var next := current.(lastLocalUpdateAt := Some(e.createdAtLocal));
    var redact := current.policy.redactTitles;
    if e.roomId != current.roomId then Err(RoomMismatch)
    else if !LifecycleAllows(current.lifecycle, e.payload) then Err(LifecycleDenied)
    else match e.payload
      case RoomCreate(kind, newTitle) =>
        Ok(next.(lifecycle := ActiveRoom, kind := kind, titleRedacted := redact && newTitle.Some?,
                 title := if newTitle.Some? && !redact then newTitle else current.title))
      case RoomRename(title) =>
        Ok(if redact then next.(titleRedacted := true) else next.(titleRedacted := false, title := Some(title)))
      case RoomArchive(_) => Ok(next.(lifecycle := ArchivedRoom))
      case RoomLock(target) => Ok(next.(lifecycle := target))
      case RoomDeleteTombstone(_) =>
        Ok(next.(lifecycle := TombstonedRoom, titleRedacted := true, members := [], objects := []))
      case MemberAdd(ref, role) =>
        Ok(if exists m <- current.members :: m.ref == ref then next
           else next.(members := current.members + [MemberSummary(ref, role)]))
      case MemberRemove(ref) => Ok(next.(members := WithoutMember(current.members, ref)))
      case PlaceholderCreate(id, kind) => Ok(next.(objects := current.objects + [ObjectSummary(id, kind)]))
      case PolicyUpdate(_) | AuditAppend => Ok(next)
  }

  // ---- Replay ----

  predicate UniqueEventIds(events: seq<OperationEvent>) {
    forall i, j :: 0 <= i < j < |events| ==> events[i].eventId != events[j].eventId
  }

  /** Valid events of the room, with distinct ids, numbered 1, 2, 3, ... */
  predicate Validates(events: seq<OperationEvent>, roomId: Id) {
    && (forall i :: 0 <= i < |events| ==>
          ValidEvent(events[i]) && events[i].roomId == roomId && events[i].localSequence == i + 1)
    && UniqueEventIds(events)
  }

  datatype Replayed = Replayed(state: RoomState, appliedCount: nat, first: Option<int>, last: Option<int>)

  /** The validation phase: everything is checked before anything is applied. */
  method ValidateEvents(events: seq<OperationEvent>, expectedRoomId: Id) returns (r: Result<Option<int>, RoomError>)
    ensures r.Ok? <==> Validates(events, expectedRoomId)
    ensures r.Ok? ==> r.value == if events == [] then None else Some(|events|)
    ensures r.Ok? && events != [] ==> events[0].localSequence == 1
    ensures r.Err? ==>
      match r.error
      case InvalidEvent => exists e <- events :: !ValidEvent(e)
      case RoomMismatch => exists e <- events :: e.roomId != expectedRoomId
      case DuplicateEvent => !UniqueEventIds(events)
      case SequenceConflict | EventOrder | SequenceGap =>
        exists i :: 0 <= i < |events| && events[i].localSequence != i + 1
      case _ => false
  {
    if |events| > 0 && events[0].localSequence != 1 {
      return Err(SequenceGap);
    }
    var seenIds: set<string> := {};
    var previous: Option<int> := None;
    for i := 0 to |events|
      invariant previous == if i == 0 then None else Some(i)
      invariant seenIds == set k | 0 <= k < i :: events[k].eventId
      invariant Validates(events[..i], expectedRoomId)
    {
      var e := events[i];
      assert events[..i + 1] == events[..i] + [e];
      assert Validates(events, expectedRoomId) ==>
        ValidEvent(e) && e.roomId == expectedRoomId && e.localSequence == i + 1;
      if !ValidEvent(e) {
        return Err(InvalidEvent);
      }
      if e.roomId != expectedRoomId {
        return Err(RoomMismatch);
      }
      if e.eventId in seenIds {
        return Err(DuplicateEvent);
      }
      seenIds := seenIds + {e.eventId};
      if previous.Some? {
        if e.localSequence == previous.value {
          return Err(SequenceConflict);
        }
        if e.localSequence < previous.value {
          return Err(EventOrder);
        }
        if e.localSequence != previous.value + 1 {
          return Err(SequenceGap);
        }
      }
      previous := Some(e.localSequence);
    }
    assert events[..|events|] == events;
    return Ok(previous);
  }

  method ReplayRoomOperationEvents(seed: RoomState, events: seq<OperationEvent>, expectedRoomId: Id)
    returns (r: Result<Replayed, RoomError>)
    ensures r.Ok? <==>
      seed.roomId == expectedRoomId && Validates(events, expectedRoomId) && Fold(Reduce, seed, events).Ok?
    ensures r.Ok? ==>
      && Fold(Reduce, seed, events) == Ok(r.value.state) && r.value.appliedCount == |events|
      && r.value.first == (if events == [] then None else Some(1))
      && r.value.last == if events == [] then None else Some(|events|)
  {
    hide Reduce, Validates;
    if seed.roomId != expectedRoomId {
      return Err(RoomMismatch);
    }
    var validated := ValidateEvents(events, expectedRoomId);
    if validated.Err? {
      return Err(validated.error);
    }
    var dryRun := seed;
    for i := 0 to |events|
      invariant Fold(Reduce, seed, events[..i]) == Ok(dryRun)
    {
      assert events[..i + 1][..i] == events[..i];
      var next := Reduce(dryRun, events[i]);
      if next.Err? {
        FoldFailurePersists(Reduce, seed, events, i + 1);
        return Err(next.error);
      }
      dryRun := next.value;
    }
    assert events[..|events|] == events;
    var state := seed;
    for i := 0 to |events|
      invariant Fold(Reduce, seed, events[..i]) == Ok(state)
    {
      assert events[..i + 1][..i] == events[..i];
      if Fold(Reduce, seed, events[..i + 1]).Err? {
        FoldFailurePersists(Reduce, seed, events, i + 1);
      }
      var next := Reduce(state, events[i]);
      state := next.value;
    }
    return Ok(Replayed(state, |events|, if events == [] then None else Some(events[0].localSequence), validated.value));
  }

  // ---- The logs ----

  datatype LogState = MemoryLog(events: seq<OperationEvent>) | NullLog(lastSequence: int)

  function AppendTo(log: LogState, logRoom: Id, e: OperationEvent, decision: Decision): Result<LogState, RoomError> {
    if !Authorizes(decision, OperationLogAppend) then Err(DecisionRejected)
    else if !ValidEvent(e) then Err(InvalidEvent)
    else if e.roomId != logRoom then Err(RoomMismatch)
    else match log
      case NullLog(_) => Ok(NullLog(e.localSequence))
      case MemoryLog(events) =>
        var last := if events == [] then 0 else events[|events| - 1].localSequence;
        if exists earlier <- events :: earlier.eventId == e.eventId then Err(DuplicateEvent)
        else if e.localSequence == last then Err(SequenceConflict)
        else if e.localSequence < last then Err(EventOrder)
        else if e.localSequence != last + 1 then Err(SequenceGap)
        else Ok(MemoryLog(events + [e]))
  }

  datatype LogStatus = LogStatus(retainedEventCount: nat, lastLocalSequence: int, replayAvailable: bool)

  class OperationLog {
    const roomId: Id
    const memoryOnly: bool
    var events: seq<OperationEvent>
    var eventIds: set<string>
    var lastSequence: int

    ghost predicate Valid()
      reads this
    {
      eventIds == (set e | e in events :: e.eventId) && (!memoryOnly ==> events == [])
    }

    constructor (roomId: Id, memoryOnly: bool)
      ensures Valid() && this.roomId == roomId && this.memoryOnly == memoryOnly
      ensures State() == if memoryOnly then MemoryLog([]) else NullLog(0)
    {
      this.roomId, this.memoryOnly := roomId, memoryOnly;
      events, eventIds, lastSequence := [], {}, 0;
    }

    function State(): LogState
      reads this
    {
      if memoryOnly then MemoryLog(events) else NullLog(lastSequence)
    }

    method Append(e: OperationEvent, decision: Decision) returns (r: Result<int, RoomError>)
      requires Valid()
      modifies this
      ensures Valid()
      ensures AppendTo(old(State()), roomId, e, decision) == if r.Ok? then Ok(State()) else Err(r.error)
      ensures r.Err? ==> State() == old(State())
      ensures r.Ok? ==> r.value == e.localSequence
    {
      hide ValidEvent;
      if !Authorizes(decision, OperationLogAppend) {
        return Err(DecisionRejected);
      }
      if !ValidEvent(e) {
        return Err(InvalidEvent);
      }
      if e.roomId != roomId {
        return Err(RoomMismatch);
      }
      if !memoryOnly {
        lastSequence := e.localSequence;
        return Ok(e.localSequence);
      }
      if e.eventId in eventIds {
        return Err(DuplicateEvent);
      }
      var last := if |events| > 0 then events[|events| - 1].localSequence else 0;
      if e.localSequence == last {
        return Err(SequenceConflict);
      }
      if e.localSequence < last {
        return Err(EventOrder);
      }
      if e.localSequence != last + 1 {
        return Err(SequenceGap);
      }
      events := events + [e];
      eventIds := eventIds + {e.eventId};
      return Ok(e.localSequence);
    }

    method ReadAll(decision: Decision) returns (r: Result<seq<OperationEvent>, RoomError>)
      requires Valid()
      ensures r == if !Authorizes(decision, OperationLogRead) then Err(DecisionRejected)
                   else Ok(if State().MemoryLog? then State().events else [])
    {
      if !Authorizes(decision, OperationLogRead) {
        return Err(DecisionRejected);
      }
      return Ok(events);
    }

    method Clear(decision: Decision) returns (r: Result<nat, RoomError>)
      requires Valid()
      modifies this
      ensures Valid()
      ensures r == if !Authorizes(decision, OperationLogClear) then Err(DecisionRejected) else Ok(|old(events)|)
      ensures State() == if r.Ok? && memoryOnly then MemoryLog([]) else old(State())
    {
      if !Authorizes(decision, OperationLogClear) {
        return Err(DecisionRejected);
      }
      r := Ok(|events|);
      events, eventIds := [], {};
    }

    method Status() returns (s: LogStatus)
      requires Valid()
      ensures s == match State()
                   case NullLog(last) => LogStatus(0, last, false)
                   case MemoryLog(es) =>
                     LogStatus(|es|, if es == [] then 0 else es[|es| - 1].localSequence, es != [])
    {
      if memoryOnly {
        s := LogStatus(|events|, if |events| > 0 then events[|events| - 1].localSequence else 0, |events| > 0);
      } else {
        s := LogStatus(0, lastSequence, false);
      }
    }
  }
}
