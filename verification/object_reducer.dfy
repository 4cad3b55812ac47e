/** The object projection, its pure reducer, and replay of an event log. */
module ObjectReducer {
  import opened Common
  import opened ObjectTypes
  import opened ObjectEvents

  datatype Projection = Projection(roomId: Id, objects: seq<RoomObject>)

  function EmptyProjection(roomId: Id): Projection {
    Projection(roomId, [])
  }

  /** Position of the first object with this id, or -1. */
  function IndexFrom(objects: seq<RoomObject>, id: Id, from: nat): (r: int)
    requires from <= |objects|
    ensures r == -1 || from <= r < |objects|
    ensures r >= 0 ==> objects[r].objectId == id
    ensures forall k :: from <= k < (if r >= 0 then r else |objects|) ==> objects[k].objectId != id
    decreases |objects| - from
  {
    if from == |objects| then -1
    else if objects[from].objectId == id then from
    else IndexFrom(objects, id, from + 1)
  }

  function IndexOf(objects: seq<RoomObject>, id: Id): int {
    IndexFrom(objects, id, 0)
  }

  function FindCurrent(p: Projection, id: Id): Option<RoomObject> {
    var i := IndexOf(p.objects, id);
    if i >= 0 then Some(p.objects[i]) else None
  }

  function ReduceEvent(current: Option<RoomObject>, event: ObjectEvent): Result<RoomObject, ObjectError> {
    if event.previousRevision.None? then
      :- Need(current.None?, InvalidLifecycleTransition);
      Ok(event.resulting)
    else
      :- Need(current.Some?, ObjectNotFound);
      :- Need(current.value.objectId == event.objectId, CrossObjectReference);
      :- Need(current.value.roomId == event.roomId, RoomMismatch);
      :- Need(current.value.revision == event.previousRevision.value, StaleRevision);
      :- Need(!current.value.lifecycle.Tombstone?, ObjectIsTerminal);
      Ok(event.resulting)
  }

  function ApplyEvent(p: Projection, event: ObjectEvent): Result<Projection, ObjectError> {
    var i := IndexOf(p.objects, event.objectId);
    :- Need(event.roomId == p.roomId, RoomMismatch);
    var next :- ReduceEvent(if i >= 0 then Some(p.objects[i]) else None, event);
    Ok(p.(objects := if i >= 0 then p.objects[i := next] else p.objects + [next]))
  }

  /** All events belong to the room and are numbered 1, 2, 3, ... */
  predicate WellSequenced(events: seq<ObjectEvent>, roomId: Id) {
    forall i :: 0 <= i < |events| ==> events[i].roomId == roomId && events[i].localSequence == i + 1
  }

  /**
   * Replay validates room and sequence of every event, folds once as a dry run
   * and once for the result. It accepts exactly the well-sequenced lists whose
   * single fold succeeds, and returns that fold.
   */
  method ReplayObjectEvents(seed: Projection, events: seq<ObjectEvent>, expectedRoomId: Id)
    returns (r: Result<Projection, ObjectError>)
    ensures r.Ok? <==>
      seed.roomId == expectedRoomId && WellSequenced(events, expectedRoomId) && Fold(ApplyEvent, seed, events).Ok?
    ensures r.Ok? ==> r == Fold(ApplyEvent, seed, events)
  {
    if seed.roomId != expectedRoomId {
      return Err(RoomMismatch);
    }
    if |events| > 0 && events[0].localSequence != 1 {
      return Err(InvalidLifecycleTransition);
    }
    var previousSequence: Option<nat> := None;
    for i := 0 to |events|
      invariant i > 0 ==> previousSequence == Some(i)
      invariant i == 0 ==> previousSequence == None
      invariant WellSequenced(events[..i], expectedRoomId)
    {
      if events[i].roomId != expectedRoomId {
        return Err(RoomMismatch);
      }
      if previousSequence.Some? && events[i].localSequence != previousSequence.value + 1 {
        return Err(InvalidLifecycleTransition);
      }
      previousSequence := Some(events[i].localSequence);
    }
    var dry := seed;
    for i := 0 to |events|
      invariant Fold(ApplyEvent, seed, events[..i]) == Ok(dry)
    {
      assert events[..i + 1][..i] == events[..i];
      var next := ApplyEvent(dry, events[i]);
      if next.Err? {
        FoldFailurePersists(ApplyEvent, seed, events, i + 1);
        return Err(next.error);
      }
      dry := next.value;
    }
    var projection := seed;
    for i := 0 to |events|
      invariant Fold(ApplyEvent, seed, events[..i]) == Ok(projection)
    {
      assert events[..i + 1][..i] == events[..i];
      assert Fold(ApplyEvent, seed, events[..i + 1]).Ok? by {
        assert events[..|events|] == events;
        if Fold(ApplyEvent, seed, events[..i + 1]).Err? {
          FoldFailurePersists(ApplyEvent, seed, events, i + 1);
        }
      }
      var next := ApplyEvent(projection, events[i]);
      projection := next.value;
    }
    assert events[..|events|] == events;
    return Ok(projection);
  }
}
