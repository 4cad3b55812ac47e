/** Membership commands, events, the pure reducer, replay, and the mutation pipeline. */
module Membership {
  import opened Common
  import opened Privacy
  import opened EventLogs
  import opened RoomStates
  import opened Capabilities

  datatype Payload =
    | BootstrapOwner(memberRef: Id)
    | AddMember(memberRef: Id, role: Role)
    | ChangeMemberRole(membershipId: Id, newRole: Role, expectedRevision: nat)
    | SuspendMember(membershipId: Id, expectedRevision: nat)
    | ReactivateMember(membershipId: Id, expectedRevision: nat)
    | RemoveMember(membershipId: Id, expectedRevision: nat)
  {
    predicate IsCreation() {
      BootstrapOwner? || AddMember?
    }
  }

  datatype Command = Command(roomId: Id, mode: PrivacyMode, payload: Payload)

  datatype MembershipError =
    | RoomMismatch | NotFound | PolicyDenied | DecisionRejected | ContextRejected | ActorNotActive
    | DuplicateActiveMembership | StaleRevision | FutureRevision | LastOwnerContinuity
    | MembershipTerminal | InvalidLifecycleTransition | RevisionOverflow | InvalidMembershipId | LogRefused

  datatype Event = Event(
    eventId: string, roomId: Id, membershipId: Id, memberRef: Id, localSequence: nat, createdAtLocal: string,
    previousRevision: Option<nat>, record: Record)

  datatype Input = Input(
    command: Command, roomPolicy: RoomPolicy, authorization: Option<AuthorizationContext>,
    bootstrapDecision: Option<Decision>, storageDecision: Decision, eventId: string,
    membershipId: Option<Id>, now: string, eventNow: string)

  function ScopeOf(p: Payload): Scope {
    match p
    case BootstrapOwner(_) => MembershipBootstrap
    case AddMember(_, _) => MembershipAdd
    case ChangeMemberRole(_, _, _) => MembershipChangeRole
    case SuspendMember(_, _) => MembershipSuspend
    case ReactivateMember(_, _) => MembershipReactivate
    case RemoveMember(_, _) => MembershipRemove
  }

  function MatrixOperationOf(p: Payload): string {
    match p
    case BootstrapOwner(_) => "room.membership.bootstrap"
    case AddMember(_, _) => "room.membership.add"
    case ChangeMemberRole(_, _, _) => "room.membership.change_role"
    case SuspendMember(_, _) => "room.membership.suspend"
    case ReactivateMember(_, _) => "room.membership.reactivate"
    case RemoveMember(_, _) => "room.membership.remove"
  }

  function CapabilityOf(p: Payload): CapabilityName {
    match p
    case AddMember(_, _) => AddPlaceholder
    case ChangeMemberRole(_, _, _) => ChangeRole
    case SuspendMember(_, _) => Suspend
    case ReactivateMember(_, _) => Reactivate
    case _ => RemoveTombstone
  }

  predicate MembershipTransition(from: MembershipState, to: MembershipState) {
    match from
    case ActiveMember => !to.ActiveMember?
    case SuspendedMember => !to.SuspendedMember?
    case RemovedMember => false
  }

  /** Mode and room policy: only restrictive commands survive the strict ones. */
  predicate MembershipPolicyAllows(mode: PrivacyMode, p: Payload, allowLocalContentMutation: bool) {
    var restrictive := p.SuspendMember? || p.RemoveMember?;
    var expansion := p.AddMember? || p.ReactivateMember? || p.ChangeMemberRole?;
    && (expansion ==> allowLocalContentMutation)
    && match mode
       case Emergency => restrictive
       case Bunker => restrictive || p.BootstrapOwner?
       case UnknownMode => false
       case _ => true
  }

  predicate ActiveOwner(r: Record) {
    r.role.Owner? && r.state.ActiveMember?
  }

  function CountActiveOwners(records: seq<Record>): nat {
    if records == [] then 0
    else CountActiveOwners(records[..|records| - 1]) + if ActiveOwner(records[|records| - 1]) then 1 else 0
  }

  function Target(records: seq<Record>, p: Payload): Option<Record> {
    if p.IsCreation() then None else FindRecord(records, p.membershipId)
  }

  /** The last active owner may not be suspended, removed or given another role. */
  predicate KeepsAnOwner(records: seq<Record>, target: Option<Record>, p: Payload) {
    target.Some? && ActiveOwner(target.value)
    && (p.SuspendMember? || p.RemoveMember? || (p.ChangeMemberRole? && !p.newRole.Owner?))
    ==> CountActiveOwners(records) > 1
  }

  function CheckAuthority(state: RoomState, input: Input): Check<MembershipError> {
    var p := input.command.payload;
    if p.BootstrapOwner? then
      if input.bootstrapDecision.None? || !Authorizes(input.bootstrapDecision.value, MembershipBootstrap)
        then Fail(DecisionRejected)
      else Need(state.records == [], DuplicateActiveMembership)
    else if input.authorization.None? then Fail(DecisionRejected)
    else
      var context := input.authorization.value;
      // currency is judged against the record in the context itself
      var op := Operation(CapabilityOf(p), ScopeOf(p), state.roomId, None, None);
      var actor := FindRecord(state.records, context.membership.membershipId);
      if ContextAuthorizes(context, context.membership, op).Fail? then Fail(ContextRejected)
      else Need(actor.Some? && actor.value.state.ActiveMember?, ActorNotActive)
  }

  function Guard(matrix: Matrix, state: RoomState, input: Input): Check<MembershipError> {
    var command, p := input.command, input.command.payload;
    var target := Target(state.records, p);
    if command.roomId != state.roomId then Fail(RoomMismatch)
    else if !p.IsCreation() && target.None? then Fail(NotFound)
    else if !MembershipPolicyAllows(command.mode, p, input.roomPolicy.allowLocalContentMutation) then Fail(PolicyDenied)
    else if matrix(MatrixOperationOf(p), command.mode) != MemoryOnly then Fail(PolicyDenied)
    else if CheckAuthority(state, input).Fail? then CheckAuthority(state, input)
    else if !p.IsCreation() && p.expectedRevision < target.value.revision then Fail(StaleRevision)
    else if !p.IsCreation() && p.expectedRevision > target.value.revision then Fail(FutureRevision)
    else Need(KeepsAnOwner(state.records, target, p), LastOwnerContinuity)
  }

  /** The record an update leaves; role changes need an active record, the rest a table move. */
  function UpdatedRecord(r: Record, p: Payload, now: string): Result<Record, MembershipError> {
    var stamped := r.(revision := r.revision + 1, updatedAtLocal := now);
    var to := if p.SuspendMember? then SuspendedMember else if p.ReactivateMember? then ActiveMember else RemovedMember;
    :- Need(r.revision + 1 <= MAX_REVISION, RevisionOverflow);
    if p.ChangeMemberRole? then
      :- Need(r.state.ActiveMember?, InvalidLifecycleTransition);
      Ok(stamped.(role := p.newRole))
    else
      :- Need(!r.state.RemovedMember?, MembershipTerminal);
      :- Need(MembershipTransition(r.state, to), InvalidLifecycleTransition);
      Ok(stamped.(state := to))
  }

  function BuildResultingMembership(target: Option<Record>, command: Command, membershipId: Id,
                                    now: string): Result<Record, MembershipError> {
    var p := command.payload;
    if p.IsCreation() then
      Ok(Record(membershipId, command.roomId, p.memberRef, if p.BootstrapOwner? then Owner else p.role,
                ActiveMember, 1, if p.BootstrapOwner? then RoomBootstrap else AddedPlaceholder, now, now))
    else if target.None? then Err(NotFound)
    else UpdatedRecord(target.value, p, now)
  }

  predicate HasActiveRecord(records: seq<Record>, roomId: Id, memberRef: Id) {
    exists r <- records :: r.roomId == roomId && r.memberRef == memberRef && r.state.ActiveMember?
  }

  function ReduceEvent(records: seq<Record>, event: Event): Result<seq<Record>, MembershipError> {
    var i := RecordIndex(records, event.membershipId);
    if event.previousRevision.None? then
      :- Need(i < 0, DuplicateActiveMembership);
      :- Need(!HasActiveRecord(records, event.roomId, event.memberRef), DuplicateActiveMembership);
      Ok(records + [event.record])
    else
      :- Need(i >= 0, NotFound);
      :- Need(records[i].roomId == event.roomId, RoomMismatch);
      :- Need(records[i].revision == event.previousRevision.value, StaleRevision);
      :- Need(!records[i].state.RemovedMember?, MembershipTerminal);
      Ok(records[i := event.record])
  }

  /** The event a call would append, or the error that stops it before any side effect. */
  function PrepareEvent(matrix: Matrix, state: RoomState, sequence: nat, input: Input): Result<Event, MembershipError> {
    var command, target := input.command, Target(state.records, input.command.payload);
    :- Guard(matrix, state, input);
    :- Need(command.payload.IsCreation() ==> input.membershipId.Some?, InvalidMembershipId);
    var membershipId := if command.payload.IsCreation() then input.membershipId.value else target.value.membershipId;
    var record :- BuildResultingMembership(target, command, membershipId, LocalLabel(input.now));
    Ok(Event(input.eventId, record.roomId, record.membershipId, record.memberRef, sequence, LocalLabel(input.eventNow),
             if target.Some? then Some(target.value.revision) else None, record))
  }

  /** What a call leaves behind. The append comes before the reducer, so a failing call may have changed the log. */
  datatype StepOutcome = StepOutcome(log: LogState<Event>, result: Result<seq<Record>, MembershipError>)

  function AppendPrepared(matrix: Matrix, state: RoomState, logRoom: Id, log: LogState<Event>,
                          input: Input): Result<LogState<Event>, MembershipError> {
    var sequence := NextSequence(log);
    var event :- PrepareEvent(matrix, state, sequence, input);
    match LogAppend(log, logRoom, MembershipLogAppend, event, event.roomId, sequence, input.storageDecision)
    case Err(_) => Err(LogRefused)
    case Ok(log') => Ok(log')
  }

  function Step(matrix: Matrix, state: RoomState, logRoom: Id, log: LogState<Event>, input: Input): StepOutcome {
    match AppendPrepared(matrix, state, logRoom, log, input)
    case Err(e) => StepOutcome(log, Err(e))
    case Ok(log') =>
      StepOutcome(log', ReduceEvent(state.records, PrepareEvent(matrix, state, NextSequence(log), input).value))
  }

  method ApplyLocalRoomMembershipMutation(matrix: Matrix, state: RoomState, input: Input, operationLog: EventLog<Event>)
    returns (r: Result<RoomState, MembershipError>)
    requires operationLog.appendScope == MembershipLogAppend
    modifies operationLog
    ensures StepOutcome(operationLog.State(), if r.Ok? then Ok(r.value.records) else Err(r.error))
         == Step(matrix, state, operationLog.roomId, old(operationLog.State()), input)
    ensures r.Ok? ==> r.value == state.(records := r.value.records)
  {
    var guarded := Guard(matrix, state, input);
    if guarded.Fail? {
      return Err(guarded.error);
    }
    var p, target := input.command.payload, Target(state.records, input.command.payload);
    if p.IsCreation() && input.membershipId.None? {
      return Err(InvalidMembershipId);
    }
    var membershipId := if p.IsCreation() then input.membershipId.value else target.value.membershipId;
    var built := BuildResultingMembership(target, input.command, membershipId, LocalLabel(input.now));
    if built.Err? {
      return Err(built.error);
    }
    var record := built.value;
    var sequence := operationLog.NextLocalSequence();
    var event := Event(input.eventId, record.roomId, record.membershipId, record.memberRef, sequence,
                       LocalLabel(input.eventNow), if target.Some? then Some(target.value.revision) else None, record);
    var append := operationLog.Append(event, event.roomId, event.localSequence, input.storageDecision);
    if append.Err? {
      return Err(LogRefused);
    }
    var next := ReduceEvent(state.records, event);
    if next.Err? {
      return Err(next.error);
    }
    return Ok(state.(records := next.value));
  }

  // ---- Replay ----

  predicate Contiguous(events: seq<Event>) {
    forall i :: 0 < i < |events| ==> events[i].localSequence == events[i - 1].localSequence + 1
  }

  /** Replay accepts exactly the contiguous lists that fold, and returns the fold. */
  method ReplayMembershipEvents(seed: seq<Record>, events: seq<Event>) returns (r: Result<seq<Record>, MembershipError>)
    ensures r.Ok? <==> Contiguous(events) && Fold(ReduceEvent, seed, events).Ok?
    ensures r.Ok? ==> r == Fold(ReduceEvent, seed, events)
  {
    var previousSequence: Option<nat> := None;
    for i := 0 to |events|
      invariant previousSequence == if i == 0 then None else Some(events[i - 1].localSequence)
      invariant Contiguous(events[..i])
    {
      if previousSequence.Some? && events[i].localSequence != previousSequence.value + 1 {
        return Err(InvalidLifecycleTransition);
      }
      previousSequence := Some(events[i].localSequence);
    }
    assert events[..|events|] == events;
    var records := seed;
    for i := 0 to |events|
      invariant Fold(ReduceEvent, seed, events[..i]) == Ok(records)
    {
      assert events[..i + 1][..i] == events[..i];
      var next := ReduceEvent(records, events[i]);
      if next.Err? {
        FoldFailurePersists(ReduceEvent, seed, events, i + 1);
        return Err(next.error);
      }
      records := next.value;
    }
    return Ok(records);
  }
}
