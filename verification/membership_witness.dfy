/** A run from an empty room that ends with one member active under two records. */
module MembershipWitness {
  import opened Common
  import opened Privacy
  import opened EventLogs
  import opened RoomStates
  import opened Capabilities
  import opened Membership
  import opened MembershipRuns

  const NOW := LocalLabel("")

  function Bootstrap(room: Id, ref: Id, id: Id): Input {
    Input(Command(room, Standard, BootstrapOwner(ref)), OPEN_POLICY, None,
          Some(Decision(true, Persistence, MembershipBootstrap, true)),
          Decision(true, Persistence, MembershipLogAppend, true), "", Some(id), "", "")
  }

  function NewRecord(room: Id, ref: Id, id: Id, role: Role, origin: Origin): Record {
    Record(id, room, ref, role, ActiveMember, 1, origin, NOW, NOW)
  }

  /** The matrix lets every membership operation through in standard mode. */
  ghost predicate Open(matrix: Matrix) {
    forall p: Payload :: matrix(MatrixOperationOf(p), Standard) == MemoryOnly
  }

  lemma Bootstraps(matrix: Matrix, w: World, ref: Id, id: Id)
    requires Open(matrix) && w.state.records == []
    ensures var room, input := w.state.roomId, Bootstrap(w.state.roomId, ref, id);
      && Step(matrix, w.state, room, w.log, input).result.Ok?
      && Next(matrix, room, w, input).state == w.state.(records := [NewRecord(room, ref, id, Owner, RoomBootstrap)])
  {
    var room, input := w.state.roomId, Bootstrap(w.state.roomId, ref, id);
    assert RecordIndex([], id) == -1;
    AuthorityIff(w.state, input);
    AcceptedIff(matrix, w.state, room, w.log, input);
    hide Step;
    AcceptedChanges(matrix, w.state, room, w.log, input);
    assert [] + [NewRecord(room, ref, id, Owner, RoomBootstrap)] == [NewRecord(room, ref, id, Owner, RoomBootstrap)];
  }

  lemma OwnerAdds(matrix: Matrix, w: World, ref: Id, id: Id)
    requires Open(matrix) && Governed(w.state) && w.state.records != [] && ActiveOwner(w.state.records[0])
    requires RecordIndex(w.state.records, id) == -1 && !HasActiveRecord(w.state.records, w.state.roomId, ref)
    ensures var room, input := w.state.roomId, Requested(w.state.records[0], AddMember(ref, Viewer), Some(id));
      && Step(matrix, w.state, room, w.log, input).result.Ok?
      && Next(matrix, room, w, input).state
         == w.state.(records := w.state.records + [NewRecord(room, ref, id, Viewer, AddedPlaceholder)])
  {
    var p := AddMember(ref, Viewer);
    var room, input := w.state.roomId, Requested(w.state.records[0], p, Some(id));
    OwnerPasses(w.state, 0, p, Some(id));
    hide CheckAuthority, RecordFrom;
    assert matrix(MatrixOperationOf(p), Standard) == MemoryOnly;
    AuthorityIff(w.state, input);
    AcceptedIff(matrix, w.state, room, w.log, input);
    hide Step, HasActiveRecord;
    AcceptedChanges(matrix, w.state, room, w.log, input);
  }

  /** A suspension of an active record, or a reactivation of a suspended one, at its current revision. */
  predicate Movable(r: Record, p: Payload) {
    && !r.role.Owner? && r.revision < MAX_REVISION
    && ((p == SuspendMember(r.membershipId, r.revision) && r.state.ActiveMember?)
        || (p == ReactivateMember(r.membershipId, r.revision) && r.state.SuspendedMember?))
  }

  function Moved(r: Record, p: Payload): Record {
    r.(state := if p.SuspendMember? then SuspendedMember else ActiveMember,
       revision := r.revision + 1, updatedAtLocal := NOW)
  }

  lemma OwnerMoves(matrix: Matrix, w: World, i: nat, p: Payload)
    requires Open(matrix) && Governed(w.state) && 0 < i < |w.state.records| && ActiveOwner(w.state.records[0])
    requires Movable(w.state.records[i], p)
    ensures var room, input := w.state.roomId, Requested(w.state.records[0], p, None);
      && Step(matrix, w.state, room, w.log, input).result.Ok?
      && Next(matrix, room, w, input).state == w.state.(records := w.state.records[i := Moved(w.state.records[i], p)])
  {
    var room, input := w.state.roomId, Requested(w.state.records[0], p, None);
    RequestedIs(w.state.records[0], p);
    MovableNames(w.state, i, p);
    hide *;
    OwnerMoveAccepted(matrix, w, i, p);
    AcceptedChanges(matrix, w.state, room, w.log, input);
    MoveOutcome(w.state, Step(matrix, w.state, room, w.log, input).result.value, i, input);
    NextAccepted(matrix, room, w, input);
  }

  lemma NextAccepted(matrix: Matrix, room: Id, w: World, input: Input)
    requires Step(matrix, w.state, room, w.log, input).result.Ok?
    ensures Next(matrix, room, w, input).state
      == w.state.(records := Step(matrix, w.state, room, w.log, input).result.value)
  {
    hide Step;
  }

  lemma MovableNames(state: RoomState, i: nat, p: Payload)
    requires Governed(state) && i < |state.records| && Movable(state.records[i], p)
    ensures (p.SuspendMember? || p.ReactivateMember?) && RecordIndex(state.records, p.membershipId) == i
  {
    FoundAt(state, i);
    hide Governed, RecordIndex;
  }

  lemma RequestedIs(actor: Record, p: Payload)
    ensures Requested(actor, p, None).command.payload == p && Requested(actor, p, None).now == ""
  {
  }

  lemma FoundAt(state: RoomState, i: nat)
    requires Governed(state) && i < |state.records|
    ensures RecordIndex(state.records, state.records[i].membershipId) == i && state.records[i].roomId == state.roomId
  {
    hide CountActiveOwners;
  }

  lemma OwnerMoveAccepted(matrix: Matrix, w: World, i: nat, p: Payload)
    requires Open(matrix) && Governed(w.state) && 0 < i < |w.state.records| && ActiveOwner(w.state.records[0])
    requires Movable(w.state.records[i], p)
    ensures Step(matrix, w.state, w.state.roomId, w.log, Requested(w.state.records[0], p, None)).result.Ok?
  {
    var room, input := w.state.roomId, Requested(w.state.records[0], p, None);
    OwnerPasses(w.state, 0, p, None);
    FoundAt(w.state, 0);
    FoundAt(w.state, i);
    assert matrix(MatrixOperationOf(p), Standard) == MemoryOnly;
    hide Step, CheckAuthority, RecordFrom, CountActiveOwners, Governed, Open, HasActiveRecord;
    AuthorityIff(w.state, input);
    AcceptedIff(matrix, w.state, room, w.log, input);
  }

  lemma MoveOutcome(state: RoomState, records: seq<Record>, i: nat, input: Input)
    requires Changes(state, records, input) && i < |state.records| && input.now == ""
    requires var p := input.command.payload;
      (p.SuspendMember? || p.ReactivateMember?) && RecordIndex(state.records, p.membershipId) == i
    ensures records == state.records[i := Moved(state.records[i], input.command.payload)]
  {
    hide CheckAuthority, KeepsAnOwner, RecordFrom;
  }

  /** The records after two, three, four and five calls. */
  function Records(room: Id, alice: Id, bob: Id, ids: seq<Id>, k: nat): seq<Record>
    requires |ids| == 3 && 1 <= k <= 5
  {
    var owner := NewRecord(room, alice, ids[0], Owner, RoomBootstrap);
    var first := NewRecord(room, bob, ids[1], Viewer, AddedPlaceholder);
    var second := NewRecord(room, bob, ids[2], Viewer, AddedPlaceholder);
    if k == 1 then [owner]
    else if k == 2 then [owner, first]
    else if k == 3 then [owner, first.(state := SuspendedMember, revision := 2)]
    else if k == 4 then [owner, first.(state := SuspendedMember, revision := 2), second]
    else [owner, first.(revision := 3), second]
  }

  /** The call that leads from one list of records to the next. */
  function Call(room: Id, alice: Id, bob: Id, ids: seq<Id>, k: nat): Input
    requires |ids| == 3 && k < 5
  {
    if k == 0 then Bootstrap(room, alice, ids[0])
    else
      var owner := Records(room, alice, bob, ids, 1)[0];
      if k == 1 then Requested(owner, AddMember(bob, Viewer), Some(ids[1]))
      else if k == 2 then Requested(owner, SuspendMember(ids[1], 1), None)
      else if k == 3 then Requested(owner, AddMember(bob, Viewer), Some(ids[2]))
      else Requested(owner, ReactivateMember(ids[1], 2), None)
  }

  lemma CallLeadsOn(matrix: Matrix, start: World, w: World, alice: Id, bob: Id, ids: seq<Id>, k: nat)
    requires Open(matrix) && alice != bob && |ids| == 3 && ids[0] != ids[1] && ids[0] != ids[2] && ids[1] != ids[2]
    requires k < 5 && Governed(w.state)
    requires w.state == start.state.(records := if k == 0 then [] else Records(start.state.roomId, alice, bob, ids, k))
    ensures var room, input := start.state.roomId, Call(start.state.roomId, alice, bob, ids, k);
      && Step(matrix, w.state, room, w.log, input).result.Ok?
      && Next(matrix, room, w, input).state == start.state.(records := Records(room, alice, bob, ids, k + 1))
  {
    hide Step, Next, Governed, Open;
    if k == 0 {
      Bootstraps(matrix, w, alice, ids[0]);
    } else if k == 1 {
      OwnerAdds(matrix, w, bob, ids[1]);
    } else if k == 2 {
      OwnerMoves(matrix, w, 1, SuspendMember(ids[1], 1));
    } else if k == 3 {
      OwnerAdds(matrix, w, bob, ids[2]);
    } else {
      OwnerMoves(matrix, w, 1, ReactivateMember(ids[1], 2));
    }
  }

  lemma {:induction false} RunLeadsOn(matrix: Matrix, start: World, alice: Id, bob: Id, ids: seq<Id>,
                                      inputs: seq<Input>, k: nat)
    requires Open(matrix) && alice != bob && |ids| == 3 && ids[0] != ids[1] && ids[0] != ids[2] && ids[1] != ids[2]
    requires start.state.records == [] && |inputs| == 5
    requires forall n :: 0 <= n < 5 ==> inputs[n] == Call(start.state.roomId, alice, bob, ids, n)
    requires k <= 5
    ensures At(matrix, start.state.roomId, start, inputs, k).state
         == start.state.(records := if k == 0 then [] else Records(start.state.roomId, alice, bob, ids, k))
    ensures k < 5 ==> AcceptedAt(matrix, start.state.roomId, start, inputs, k)
  {
    hide Step, Next, Open, Call, Records;
    var room := start.state.roomId;
    if k > 0 {
      RunLeadsOn(matrix, start, alice, bob, ids, inputs, k - 1);
      OwnerContinuity(matrix, room, start, inputs, k - 1);
      AtStep(matrix, room, start, inputs, k - 1);
      CallLeadsOn(matrix, start, At(matrix, room, start, inputs, k - 1), alice, bob, ids, k - 1);
    }
    if k < 5 {
      OwnerContinuity(matrix, room, start, inputs, k);
      CallLeadsOn(matrix, start, At(matrix, room, start, inputs, k), alice, bob, ids, k);
    }
  }

  /**
   * Bootstrap, add, suspend, add again under another id, reactivate: from an
   * empty room five accepted calls lead from one active record of a member to two.
   */
  lemma CollisionIsReachable(matrix: Matrix, start: World, alice: Id, bob: Id, ids: seq<Id>)
    returns (inputs: seq<Input>)
    requires Open(matrix) && alice != bob && |ids| == 3 && ids[0] != ids[1] && ids[0] != ids[2] && ids[1] != ids[2]
    requires start.state.records == []
    ensures |inputs| == 5
    ensures forall k :: 0 <= k < 5 ==> AcceptedAt(matrix, start.state.roomId, start, inputs, k)
    ensures OneActivePerMember(At(matrix, start.state.roomId, start, inputs, 4).state.records)
    ensures !OneActivePerMember(At(matrix, start.state.roomId, start, inputs, 5).state.records)
  {
    var room := start.state.roomId;
    inputs := seq(5, k requires 0 <= k < 5 => Call(room, alice, bob, ids, k));
    forall k | 0 <= k < 5 ensures AcceptedAt(matrix, room, start, inputs, k) {
      RunLeadsOn(matrix, start, alice, bob, ids, inputs, k);
    }
    RunLeadsOn(matrix, start, alice, bob, ids, inputs, 4);
    RunLeadsOn(matrix, start, alice, bob, ids, inputs, 5);
    hide At, AcceptedAt, Call;
    var last := Records(room, alice, bob, ids, 5);
    assert SameMember(last[1], last[2]) && last[1].state.ActiveMember? && last[2].state.ActiveMember?;
  }
}
