/** What each membership command asks for and is allowed to do, spelled out command by command. */
module MembershipLaws {
  import opened Common
  import opened Privacy
  import opened EventLogs
  import opened RoomStates
  import opened Capabilities
  import opened Membership
  import opened MembershipRuns

  // ---- The acting member ----

  /** Whatever context a call brings, it is not accepted while its member is not active in the room. */
  lemma InactiveMembersCannotAct(matrix: Matrix, logRoom: Id, start: World, inputs: seq<Input>, k: nat)
    requires k < |inputs| && !inputs[k].command.payload.BootstrapOwner? && inputs[k].authorization.Some?
    requires !ActiveIn(At(matrix, logRoom, start, inputs, k).state.records,
                       inputs[k].authorization.value.membership.membershipId)
    ensures !AcceptedAt(matrix, logRoom, start, inputs, k)
  {
    var w := At(matrix, logRoom, start, inputs, k);
    AcceptedIff(matrix, w.state, logRoom, w.log, inputs[k]);
    hide At, Step, ActiveIn, KeepsAnOwner, HasActiveRecord, RecordFrom;
  }

  /** The record is there and not active; once removed it is removed for good. */
  predicate Idle(records: seq<Record>, id: Id, removed: bool) {
    var r := FindRecord(records, id);
    r.Some? && !r.value.state.ActiveMember? && (removed ==> r.value.state.RemovedMember?)
  }

  predicate Stops(p: Payload, id: Id) {
    (p.SuspendMember? || p.RemoveMember?) && p.membershipId == id
  }

  predicate Reactivates(p: Payload, id: Id) {
    p.ReactivateMember? && p.membershipId == id
  }

  /** No accepted call between steps i and k reactivates this record. */
  predicate NotReactivated(matrix: Matrix, logRoom: Id, start: World, inputs: seq<Input>, i: nat, k: nat, id: Id)
    requires k <= |inputs|
  {
    forall j :: i < j < k && AcceptedAt(matrix, logRoom, start, inputs, j) ==>
      !Reactivates(inputs[j].command.payload, id)
  }

  /** A member suspended or removed by one call can do nothing by a later one, unless reactivated in between. */
  lemma SuspendedMembersCannotAct(matrix: Matrix, logRoom: Id, start: World, inputs: seq<Input>, i: nat, k: nat, id: Id)
    requires i < k < |inputs| && AcceptedAt(matrix, logRoom, start, inputs, i) && Stops(inputs[i].command.payload, id)
    requires inputs[i].command.payload.SuspendMember? ==> NotReactivated(matrix, logRoom, start, inputs, i, k, id)
    requires inputs[k].authorization.Some? && inputs[k].authorization.value.membership.membershipId == id
    requires !inputs[k].command.payload.BootstrapOwner?
    ensures !AcceptedAt(matrix, logRoom, start, inputs, k)
  {
    hide At, AcceptedAt, NotReactivated;
    StaysIdle(matrix, logRoom, start, inputs, i, k, id, inputs[i].command.payload.RemoveMember?);
    hide RecordFrom;
    InactiveMembersCannotAct(matrix, logRoom, start, inputs, k);
  }

  lemma {:induction false} StaysIdle(matrix: Matrix, logRoom: Id, start: World, inputs: seq<Input>, i: nat, k: nat,
                                     id: Id, removed: bool)
    requires i < k <= |inputs| && AcceptedAt(matrix, logRoom, start, inputs, i) && Stops(inputs[i].command.payload, id)
    requires removed == inputs[i].command.payload.RemoveMember?
    requires !removed ==> NotReactivated(matrix, logRoom, start, inputs, i, k, id)
    ensures Idle(At(matrix, logRoom, start, inputs, k).state.records, id, removed)
    decreases k
  {
    hide *;
    AtStep(matrix, logRoom, start, inputs, k - 1);
    if k - 1 > i {
      if !removed {
        NotReactivatedBefore(matrix, logRoom, start, inputs, i, k, id);
      }
      StaysIdle(matrix, logRoom, start, inputs, i, k - 1, id, removed);
    }
    NextIdle(matrix, logRoom, At(matrix, logRoom, start, inputs, k - 1), inputs[k - 1], id, removed);
  }

  lemma NotReactivatedBefore(matrix: Matrix, logRoom: Id, start: World, inputs: seq<Input>, i: nat, k: nat, id: Id)
    requires i < k - 1 < |inputs| && NotReactivated(matrix, logRoom, start, inputs, i, k, id)
    ensures NotReactivated(matrix, logRoom, start, inputs, i, k - 1, id)
    ensures AcceptedAt(matrix, logRoom, start, inputs, k - 1) ==> !Reactivates(inputs[k - 1].command.payload, id)
  {
    hide AcceptedAt, Reactivates;
  }

  lemma NextIdle(matrix: Matrix, logRoom: Id, w: World, input: Input, id: Id, removed: bool)
    requires var p, accepted := input.command.payload, Step(matrix, w.state, logRoom, w.log, input).result.Ok?;
      || (accepted && Stops(p, id) && (removed ==> p.RemoveMember?))
      || (Idle(w.state.records, id, removed) && (accepted && !removed ==> !Reactivates(p, id)))
    ensures Idle(Next(matrix, logRoom, w, input).state.records, id, removed)
  {
    NextIs(matrix, logRoom, w, input);
    if Step(matrix, w.state, logRoom, w.log, input).result.Ok? {
      AcceptedChanges(matrix, w.state, logRoom, w.log, input);
      hide Step, Next, Changes, RecordFrom;
      ChangeAndRecord(w.state, Next(matrix, logRoom, w, input).state.records, input, id);
    }
  }

  lemma NextIs(matrix: Matrix, logRoom: Id, w: World, input: Input)
    ensures var s := Step(matrix, w.state, logRoom, w.log, input);
      Next(matrix, logRoom, w, input).state.records == if s.result.Ok? then s.result.value else w.state.records
  {
    hide Step;
  }

  /** What an accepted call does to the record with a given id. */
  lemma ChangeAndRecord(state: RoomState, records: seq<Record>, input: Input, id: Id)
    requires Changes(state, records, input)
    ensures var p, a, b := input.command.payload, FindRecord(state.records, id), FindRecord(records, id);
      && (a.Some? && (p.IsCreation() || p.membershipId != id) ==> b == a)
      && (!p.IsCreation() && p.membershipId == id ==>
            && a.Some? && b.Some? && !a.value.state.RemovedMember?
            && b.value.state == (if p.SuspendMember? then SuspendedMember else if p.RemoveMember? then RemovedMember
                                 else ActiveMember)
            && (p.ChangeMemberRole? ==> a.value.state.ActiveMember?))
  {
    AcceptedEffect(state, records, input);
    ChangesEvolve(state, records, input);
    SameIndex(state.records, records, id);
    UpdateAllowed(state, records, input);
    hide Changes, RecordFrom;
  }

  lemma UpdateAllowed(state: RoomState, records: seq<Record>, input: Input)
    requires Changes(state, records, input)
    ensures !input.command.payload.IsCreation() ==>
      var i := RecordIndex(state.records, input.command.payload.membershipId);
      i >= 0 && !state.records[i].state.RemovedMember?
  {
    hide CheckAuthority, KeepsAnOwner, RecordFrom;
  }

  lemma SameIndex(a: seq<Record>, b: seq<Record>, id: Id)
    requires RecordsEvolve(a, b)
    ensures RecordIndex(a, id) >= 0 ==> RecordIndex(b, id) == RecordIndex(a, id)
  {
    forall k | 0 <= k < |a| ensures a[k].membershipId == b[k].membershipId {
      assert RecordEvolves(a[k], b[k]);
    }
  }

  // ---- Commands ----

  /** Scope and matrix operation of each command. */
  lemma CommandsAre(p: Payload)
    ensures p.BootstrapOwner? ==>
      ScopeOf(p) == MembershipBootstrap && MatrixOperationOf(p) == "room.membership.bootstrap"
    ensures p.AddMember? ==> ScopeOf(p) == MembershipAdd && MatrixOperationOf(p) == "room.membership.add"
    ensures p.ChangeMemberRole? ==>
      ScopeOf(p) == MembershipChangeRole && MatrixOperationOf(p) == "room.membership.change_role"
    ensures p.SuspendMember? ==> ScopeOf(p) == MembershipSuspend && MatrixOperationOf(p) == "room.membership.suspend"
    ensures p.ReactivateMember? ==>
      ScopeOf(p) == MembershipReactivate && MatrixOperationOf(p) == "room.membership.reactivate"
    ensures p.RemoveMember? ==> ScopeOf(p) == MembershipRemove && MatrixOperationOf(p) == "room.membership.remove"
    ensures !p.BootstrapOwner? ==> Asks(p, CapabilityOf(p))
  {
  }

  /** Which commands the membership policy lets through, command by command. */
  lemma PolicyAllowsIff(mode: PrivacyMode, p: Payload, allow: bool)
    ensures p.SuspendMember? || p.RemoveMember? ==> (MembershipPolicyAllows(mode, p, allow) <==> !mode.UnknownMode?)
    ensures p.BootstrapOwner? ==> (MembershipPolicyAllows(mode, p, allow) <==> !mode.UnknownMode? && !mode.Emergency?)
    ensures p.AddMember? || p.ReactivateMember? || p.ChangeMemberRole? ==>
      (MembershipPolicyAllows(mode, p, allow) <==>
        allow && !mode.UnknownMode? && !mode.Emergency? && !mode.Bunker?)
  {
  }

  /** What an event records of the call and of the record before and after it. */
  lemma EventRecords(matrix: Matrix, state: RoomState, sequence: nat, input: Input)
    requires PrepareEvent(matrix, state, sequence, input).Ok?
    ensures var e, p := PrepareEvent(matrix, state, sequence, input).value, input.command.payload;
      && e.eventId == input.eventId && e.localSequence == sequence && e.createdAtLocal == LocalLabel(input.eventNow)
      && e.membershipId == e.record.membershipId && e.memberRef == e.record.memberRef && e.roomId == e.record.roomId
      && (p.IsCreation() ==> e.previousRevision == None && Some(e.membershipId) == input.membershipId)
      && (!p.IsCreation() ==>
            && e.membershipId == p.membershipId && RecordIndex(state.records, p.membershipId) >= 0
            && e.previousRevision == Some(state.records[RecordIndex(state.records, p.membershipId)].revision))
  {
    hide CheckAuthority, KeepsAnOwner, MembershipPolicyAllows;
  }

  /** Exactly when any event, prepared here or not, reduces on any records, and what it then does. */
  lemma ReducedIff(records: seq<Record>, e: Event)
    ensures var i := RecordIndex(records, e.membershipId);
      ReduceEvent(records, e).Ok? <==>
        if e.previousRevision.None? then
          && i == -1
          && forall r <- records :: r.roomId == e.roomId && r.memberRef == e.memberRef ==> !r.state.ActiveMember?
        else
          && i >= 0 && records[i].roomId == e.roomId && records[i].revision == e.previousRevision.value
          && !records[i].state.RemovedMember?
    ensures var i := RecordIndex(records, e.membershipId);
      ReduceEvent(records, e).Ok? ==>
        ReduceEvent(records, e).value == if i >= 0 then records[i := e.record] else records + [e.record]
  {
    hide RecordFrom;
  }

  // ---- The last owner ----

  predicate ActiveOwnerAt(records: seq<Record>, i: int) {
    0 <= i < |records| && records[i].role == Owner && records[i].state == ActiveMember
  }

  lemma {:induction false} CountIsPositive(records: seq<Record>)
    ensures CountActiveOwners(records) >= 1 <==> exists i :: ActiveOwnerAt(records, i)
  {
    if records != [] {
      var n := |records| - 1;
      CountIsPositive(records[..n]);
      if i :| ActiveOwnerAt(records, i) && i < n {
        assert ActiveOwnerAt(records[..n], i);
      }
      if i :| ActiveOwnerAt(records[..n], i) {
        assert ActiveOwnerAt(records, i);
      }
      if ActiveOwner(records[n]) {
        assert ActiveOwnerAt(records, n);
      }
    }
  }

  lemma {:induction false} CountWithout(records: seq<Record>, i: nat)
    requires ActiveOwnerAt(records, i)
    ensures CountActiveOwners(records) > 1 <==> exists j :: j != i && ActiveOwnerAt(records, j)
  {
    var gone := records[i].(state := RemovedMember);
    CountAfterUpdate(records, i, gone);
    CountIsPositive(records[i := gone]);
    if j :| j != i && ActiveOwnerAt(records, j) {
      assert ActiveOwnerAt(records[i := gone], j);
    }
    var without := records[i := gone];
    if j :| ActiveOwnerAt(without, j) {
      assert j != i && ActiveOwnerAt(records, j);
    }
  }

  /** An active owner may be suspended, removed or demoted exactly when another active owner remains. */
  lemma OwnerGuardIff(records: seq<Record>, i: nat, p: Payload)
    requires i < |records|
    ensures KeepsAnOwner(records, Some(records[i]), p) <==>
      || !ActiveOwnerAt(records, i)
      || !(p.SuspendMember? || p.RemoveMember? || (p.ChangeMemberRole? && p.newRole != Owner))
      || exists j :: j != i && ActiveOwnerAt(records, j)
  {
    if ActiveOwnerAt(records, i) {
      CountWithout(records, i);
    }
    hide CountActiveOwners;
  }
}
