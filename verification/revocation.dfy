/** The revocation pipeline: a revalidated authorization in front of a restrictive membership call. */
module Revocation {
  import opened Common
  import opened Privacy
  import opened EventLogs
  import opened RoomStates
  import opened Capabilities
  import opened Authorization
  import opened Membership
  import Runs = MembershipRuns
  import PolicyComposition

  datatype ChangeDirection = Restrictive | Expansive | NeutralChange | UnknownDirection

  /** Which way a command moves the authority of its current target. */
  function ClassifyChange(p: Payload, current: Option<Record>): ChangeDirection {
    match p
    case BootstrapOwner(_) | AddMember(_, _) | ReactivateMember(_, _) => Expansive
    case SuspendMember(_, _) | RemoveMember(_, _) => Restrictive
    case ChangeMemberRole(_, newRole, _) =>
      if current.None? then UnknownDirection
      else match DirectionOf(current.value.role, newRole)
        case Narrower => Restrictive
        case Wider => Expansive
        case SameAuthority => NeutralChange
        case IncomparableAuthority => UnknownDirection
  }

  datatype RevocationInput = RevocationInput(
    command: Command, prepared: Prepared, decision: Decision, storageDecision: Decision, policy: RoomPolicy,
    eventId: string, now: string, eventNow: string)

  datatype RevocationError =
    | ActorGone | TargetUnknown | Escalation(direction: ChangeDirection) | NotCurrent(error: AuthorizationError)
    | MembershipRefused(refusal: MembershipError)

  datatype RevocationOutcome = RevocationOutcome(log: LogState<Event>, result: Result<seq<Record>, RevocationError>)

  /** What the revocation is about to do, as the fence must have been prepared for it. */
  function ActualRequest(p: Payload, target: Record): Request {
    Request(CapabilityOf(p), ScopeOf(p), None, None, None, Some(target))
  }

  function RevocationGuard(state: RoomState, input: RevocationInput): Check<RevocationError> {
    var p, prepared := input.command.payload, input.prepared;
    var actor, target := FindRecord(state.records, prepared.membershipId), Target(state.records, p);
    if actor.None? then Fail(ActorGone)
    else if target.None? then Fail(TargetUnknown)
    else
      var direction := ClassifyChange(p, target);
      if direction.Expansive? || direction.UnknownDirection? then Fail(Escalation(direction))
      // no posture signal reaches this revalidation
      else match Revalidate(prepared, state, actor.value, input.policy, input.decision, ActualRequest(p, target.value),
                            None)
        case Fail(e) => Fail(NotCurrent(e))
        case Pass => Pass
  }

  /** The membership call it delegates to, on behalf of the actor in the projection. */
  function Delegated(state: RoomState, input: RevocationInput): Input
    requires FindRecord(state.records, input.prepared.membershipId).Some?
  {
    var actor := FindRecord(state.records, input.prepared.membershipId).value;
    Input(input.command, input.policy, Some(AuthorizationContext(actor, input.prepared.capability, input.decision)),
          None, input.storageDecision, input.eventId, None, input.now, input.eventNow)
  }

  function RevocationStep(matrix: Matrix, state: RoomState, logRoom: Id, log: LogState<Event>,
                          input: RevocationInput): RevocationOutcome {
    match RevocationGuard(state, input)
    case Fail(e) => RevocationOutcome(log, Err(e))
    case Pass =>
      var s := Step(matrix, state, logRoom, log, Delegated(state, input));
      RevocationOutcome(s.log, if s.result.Ok? then Ok(s.result.value) else Err(MembershipRefused(s.result.error)))
  }

  datatype Revoked = Revoked(nextState: RoomState, invalidatedRevision: nat)

  method ApplyLocalMembershipRevocation(matrix: Matrix, state: RoomState, input: RevocationInput,
                                        operationLog: EventLog<Event>)
    returns (r: Result<Revoked, RevocationError>)
    requires operationLog.appendScope == MembershipLogAppend
    modifies operationLog
    ensures RevocationOutcome(operationLog.State(), if r.Ok? then Ok(r.value.nextState.records) else Err(r.error))
         == RevocationStep(matrix, state, operationLog.roomId, old(operationLog.State()), input)
    ensures r.Ok? ==>
      && r.value.nextState == state.(records := r.value.nextState.records)
      && !input.command.payload.IsCreation() && input.command.payload.expectedRevision == r.value.invalidatedRevision
  {
    var guarded := RevocationGuard(state, input);
    if guarded.Fail? {
      return Err(guarded.error);
    }
    var target := Target(state.records, input.command.payload).value;
    var delegated := Delegated(state, input);
    if Step(matrix, state, operationLog.roomId, operationLog.State(), delegated).result.Ok? {
      Runs.AcceptedChanges(matrix, state, operationLog.roomId, operationLog.State(), delegated);
    }
    hide Step, RevocationGuard, Revalidate, CheckAuthority, KeepsAnOwner;
    var applied := ApplyLocalRoomMembershipMutation(matrix, state, delegated, operationLog);
    if applied.Err? {
      return Err(MembershipRefused(applied.error));
    }
    return Ok(Revoked(applied.value, target.revision));
  }

  // ---- One revocation ----

  lemma GuardedDirection(state: RoomState, input: RevocationInput)
    requires RevocationGuard(state, input).Pass?
    ensures var p := input.command.payload;
      && !p.IsCreation() && !p.ReactivateMember?
      && Target(state.records, p).Some?
      && (p.ChangeMemberRole? ==> RoleCapabilities(p.newRole) <= RoleCapabilities(Target(state.records, p).value.role))
  {
    hide Revalidate, RoleCapabilities;
  }

  /** A guarded revocation passed the fence, with the actor of the projection. */
  lemma GuardRevalidates(t: RoomState, input: RevocationInput)
    requires RevocationGuard(t, input).Pass?
    ensures FindRecord(t.records, input.prepared.membershipId).Some? && Target(t.records, input.command.payload).Some?
    ensures Revalidate(input.prepared, t, FindRecord(t.records, input.prepared.membershipId).value, input.policy,
                       input.decision,
                       ActualRequest(input.command.payload, Target(t.records, input.command.payload).value), None).Pass?
  {
    hide Revalidate, ClassifyChange, RecordFrom;
  }

  /** A prepared context that passes the fence authorizes the request it passed for, outside of any object. */
  lemma PreparedContextAuthorizes(s: RoomState, membership: Record, p: RoomPolicy, request: Request, risk: bool,
                                  a: Option<PolicyComposition.PostureSignal>, prepared: Prepared, t: RoomState,
                                  m: Record, q: RoomPolicy,
                                  decision: Decision, actual: Request, b: Option<PolicyComposition.PostureSignal>)
    requires Prepare(s, membership, p, request, risk, a) == Ok(prepared)
    requires Revalidate(prepared, t, m, q, decision, actual, b).Pass?
    requires m.roomId == t.roomId && actual.objectId == None && actual.objectKind == None
    ensures ContextAuthorizes(AuthorizationContext(m, prepared.capability, decision), m,
                              Operation(actual.capability, actual.sideEffect, t.roomId, None, None)).Pass?
  {
    hide RecordFrom, PolicyRevisionOf, PolicyComposition.ResolveEffectivePosture, EligibleFor;
  }

  /** For a context that really was prepared, the fence implies the authority check of the delegated call. */
  lemma FenceImpliesAuthority(s: RoomState, membership: Record, p: RoomPolicy, request: Request, risk: bool,
                              a: Option<PolicyComposition.PostureSignal>, t: RoomState, input: RevocationInput)
    requires Prepare(s, membership, p, request, risk, a) == Ok(input.prepared)
    requires RevocationGuard(t, input).Pass? && Runs.Governed(t)
    ensures CheckAuthority(t, Delegated(t, input)).Pass?
  {
    GuardedDirection(t, input);
    GuardRevalidates(t, input);
    var actor, target := FindRecord(t.records, input.prepared.membershipId).value,
      Target(t.records, input.command.payload).value;
    assert actor in t.records;
    var actual := ActualRequest(input.command.payload, target);
    ActorIsActive(input.prepared, t, actor, input.policy, input.decision, actual, None);
    hide Revalidate, Prepare, RevocationGuard, RecordFrom;
    PreparedContextAuthorizes(s, membership, p, request, risk, a, input.prepared, t, actor, input.policy,
                              input.decision, actual, None);
    hide ContextAuthorizes, Runs.Governed;
  }

  lemma ActorIsActive(prepared: Prepared, t: RoomState, m: Record, q: RoomPolicy, decision: Decision, actual: Request,
                      b: Option<PolicyComposition.PostureSignal>)
    requires Revalidate(prepared, t, m, q, decision, actual, b).Pass?
    ensures m.state.ActiveMember? && m.membershipId == prepared.membershipId
  {
    hide RecordFrom, PolicyRevisionOf, PolicyComposition.ResolveEffectivePosture, DescriptorCurrent;
  }

  /** A failing revocation leaves log and records as they were, whatever the state. */
  lemma FailureIsAtomic(matrix: Matrix, state: RoomState, logRoom: Id, log: LogState<Event>, input: RevocationInput)
    requires RevocationStep(matrix, state, logRoom, log, input).result.Err?
    ensures RevocationStep(matrix, state, logRoom, log, input).log == log
  {
    if RevocationGuard(state, input).Pass? {
      GuardedDirection(state, input);
      hide RevocationGuard, Step;
      Runs.FailureAtomicityCharacterised(matrix, state, logRoom, log, Delegated(state, input));
    }
  }

  /** A context prepared under any posture signal other than the conservative default cannot revoke. */
  lemma OnlyDefaultPostureRevokes(matrix: Matrix, state: RoomState, logRoom: Id, log: LogState<Event>,
                                  input: RevocationInput)
    requires RevocationStep(matrix, state, logRoom, log, input).result.Ok?
    ensures input.prepared.revision.posture == PolicyComposition.EffectivePosture(PolicyComposition.Unverified, 0)
  {
    hide Step, ClassifyChange, PolicyRevisionOf, RecordFrom;
  }

  /** The direction check lets through exactly changes that add no capability to an existing record. */
  predicate OnlyRestricts(records: seq<Record>, p: Payload) {
    && !p.IsCreation() && !p.ReactivateMember?
    && RecordIndex(records, p.membershipId) >= 0
    && (p.ChangeMemberRole? ==>
        RoleCapabilities(p.newRole) <= RoleCapabilities(records[RecordIndex(records, p.membershipId)].role))
  }

  lemma DirectionIff(records: seq<Record>, p: Payload)
    requires Target(records, p).Some?
    ensures var d := ClassifyChange(p, Target(records, p));
      !d.Expansive? && !d.UnknownDirection? <==> OnlyRestricts(records, p)
  {
    hide RoleCapabilities, RecordFrom;
  }

  /** What the guard asks of a genuinely prepared context. */
  predicate FenceHolds(s: RoomState, membership: Record, p: RoomPolicy, request: Request,
                       a: Option<PolicyComposition.PostureSignal>,
                       t: RoomState, input: RevocationInput)
    requires OnlyRestricts(t.records, input.command.payload)
  {
    var payload := input.command.payload;
    var before, actor := FindRecord(s.records, membership.membershipId), FindRecord(t.records, membership.membershipId);
    && before.Some? && actor.Some? && SameAuthorityRecord(before.value, actor.value)
    && SameEnvironment(s, p, a, t, input.policy, None)
    && ForRevoking(request, payload, t.records[RecordIndex(t.records, payload.membershipId)])
    && Runs.DecidedFor(input.decision, payload)
  }

  /** The context was prepared for this command on this member at this revision, and for nothing narrower. */
  predicate ForRevoking(request: Request, p: Payload, target: Record) {
    && Runs.Asks(p, request.capability)
    && ((p.SuspendMember? && request.sideEffect.MembershipSuspend?)
        || (p.RemoveMember? && request.sideEffect.MembershipRemove?)
        || (p.ChangeMemberRole? && request.sideEffect.MembershipChangeRole?))
    && request.objectId.None? && request.objectKind.None? && request.view.None?
    && request.target.Some? && request.target.value.membershipId == target.membershipId
    && request.target.value.revision == target.revision
  }

  lemma RequestIs(request: Request, p: Payload, target: Record, decision: Decision)
    requires p.SuspendMember? || p.RemoveMember? || p.ChangeMemberRole?
    ensures SameRequest(request, ActualRequest(p, target)) <==> ForRevoking(request, p, target)
    ensures ActualRequest(p, target).sideEffect == ScopeOf(p)
    ensures Authorizes(decision, ScopeOf(p)) <==> Runs.DecidedFor(decision, p)
  {
  }

  lemma GuardIff(s: RoomState, membership: Record, p: RoomPolicy, request: Request, risk: bool,
                 a: Option<PolicyComposition.PostureSignal>, t: RoomState, input: RevocationInput)
    requires Prepare(s, membership, p, request, risk, a) == Ok(input.prepared)
    ensures RevocationGuard(t, input).Pass? <==>
      OnlyRestricts(t.records, input.command.payload) && FenceHolds(s, membership, p, request, a, t, input)
  {
    PreparedNames(s, membership, p, request, risk, a);
    hide Prepare, Revalidate, RecordFrom, SameEnvironment, SameRequest, SameAuthorityRecord, ClassifyChange,
      RoleCapabilities, ForRevoking, ActualRequest, ScopeOf, Authorizes, Runs.DecidedFor;
    var actor, target := FindRecord(t.records, membership.membershipId), Target(t.records, input.command.payload);
    if actor.Some? && target.Some? {
      DirectionIff(t.records, input.command.payload);
      if OnlyRestricts(t.records, input.command.payload) {
        RequestIs(request, input.command.payload, target.value, input.decision);
      }
      RevalidatedIff(s, membership, p, request, risk, a, t, actor.value, input.policy, input.decision,
                     ActualRequest(input.command.payload, target.value), None);
    }
  }

  lemma PreparedNames(s: RoomState, membership: Record, p: RoomPolicy, request: Request, risk: bool,
                      a: Option<PolicyComposition.PostureSignal>)
    requires Prepare(s, membership, p, request, risk, a).Ok?
    ensures Prepare(s, membership, p, request, risk, a).value.membershipId == membership.membershipId
    ensures FindRecord(s.records, membership.membershipId).Some?
  {
    hide RecordFrom, PolicyRevisionOf, PolicyComposition.ResolveEffectivePosture, EligibleFor;
  }

  /** Exactly when a revocation with a genuinely prepared context is accepted. */
  lemma AcceptedIff(s: RoomState, membership: Record, p: RoomPolicy, request: Request, risk: bool,
                    a: Option<PolicyComposition.PostureSignal>, matrix: Matrix, t: RoomState, logRoom: Id,
                    log: LogState<Event>, input: RevocationInput)
    requires Prepare(s, membership, p, request, risk, a) == Ok(input.prepared) && Runs.Governed(t)
    ensures RevocationStep(matrix, t, logRoom, log, input).result.Ok? <==>
      var payload := input.command.payload;
      && OnlyRestricts(t.records, payload) && FenceHolds(s, membership, p, request, a, t, input)
      && input.command.roomId == t.roomId == logRoom && Authorizes(input.storageDecision, MembershipLogAppend)
      && MembershipPolicyAllows(input.command.mode, payload, input.policy.allowLocalContentMutation)
      && matrix(MatrixOperationOf(payload), input.command.mode) == MemoryOnly
      && var target := t.records[RecordIndex(t.records, payload.membershipId)];
      && target.revision == payload.expectedRevision && payload.expectedRevision < MAX_REVISION
      && KeepsAnOwner(t.records, Some(target), payload)
      && (if payload.RemoveMember? then !target.state.RemovedMember? else target.state.ActiveMember?)
  {
    GuardIff(s, membership, p, request, risk, a, t, input);
    if RevocationGuard(t, input).Pass? {
      PreparedNames(s, membership, p, request, risk, a);
      FenceImpliesAuthority(s, membership, p, request, risk, a, t, input);
      Runs.AuthorityIff(t, Delegated(t, input));
      Runs.AcceptedIff(matrix, t, logRoom, log, Delegated(t, input));
      var i := RecordIndex(t.records, input.command.payload.membershipId);
      assert t.records[i] in t.records;
      hide RevocationGuard, FenceHolds, Step, Prepare, CheckAuthority, KeepsAnOwner, MembershipPolicyAllows,
        RecordFrom, RoleCapabilities;
    }
  }

  /**
   * No genuine context revokes in the strictest modes, nor one prepared under
   * flags that forbid content mutation or at critical risk: the capability
   * cannot be prepared then. Flags and risk are those of the preparation.
   */
  lemma StrictModesCannotRevoke(s: RoomState, membership: Record, p: RoomPolicy, request: Request, risk: bool,
                                a: Option<PolicyComposition.PostureSignal>, matrix: Matrix, t: RoomState, logRoom: Id,
                                log: LogState<Event>, input: RevocationInput)
    requires Prepare(s, membership, p, request, risk, a) == Ok(input.prepared)
    requires RevocationStep(matrix, t, logRoom, log, input).result.Ok?
    ensures !t.mode.Bunker? && !t.mode.Emergency? && p.allowLocalContentMutation && !risk
  {
    AcceptedIsGuarded(matrix, t, logRoom, log, input);
    hide *;
    GuardRevalidates(t, input);
    GuardedDirection(t, input);
    var payload, actor := input.command.payload, FindRecord(t.records, input.prepared.membershipId).value;
    var actual := ActualRequest(payload, Target(t.records, payload).value);
    RevalidatedIff(s, membership, p, request, risk, a, t, actor, input.policy, input.decision, actual, None);
    RevocationsAreMutations(payload, Target(t.records, payload).value);
    SameBasics(s, p, a, t, input.policy, None, request, actual);
    MutationsNeedAnOpenRoom(s, membership, p, request, risk, a);
  }

  lemma AcceptedIsGuarded(matrix: Matrix, t: RoomState, logRoom: Id, log: LogState<Event>, input: RevocationInput)
    requires RevocationStep(matrix, t, logRoom, log, input).result.Ok?
    ensures RevocationGuard(t, input).Pass?
  {
    hide RevocationGuard, Step;
  }

  lemma RevocationsAreMutations(p: Payload, target: Record)
    requires !p.IsCreation()
    ensures ActualRequest(p, target).capability in MUTATION_CAPABILITIES
  {
  }

  lemma SameBasics(s: RoomState, p: RoomPolicy, a: Option<PolicyComposition.PostureSignal>, t: RoomState, q: RoomPolicy,
                   b: Option<PolicyComposition.PostureSignal>, x: Request, y: Request)
    requires SameEnvironment(s, p, a, t, q, b) && SameRequest(x, y)
    ensures s.mode == t.mode && x.capability == y.capability
  {
    hide PolicyRevisionOf, PolicyComposition.ResolveEffectivePosture;
  }

  /** The membership policy itself leaves suspension and removal open in every known mode, whatever the room allows. */
  lemma RestrictiveCommandsStayOpen(mode: PrivacyMode, p: Payload, allowLocalContentMutation: bool)
    ensures (p.SuspendMember? || p.RemoveMember?) && !mode.UnknownMode? ==>
      MembershipPolicyAllows(mode, p, allowLocalContentMutation)
    ensures mode.Emergency? && MembershipPolicyAllows(mode, p, allowLocalContentMutation) ==>
      p.SuspendMember? || p.RemoveMember?
  {
  }

  lemma MutationsNeedAnOpenRoom(s: RoomState, membership: Record, p: RoomPolicy, request: Request, risk: bool,
                                a: Option<PolicyComposition.PostureSignal>)
    requires Prepare(s, membership, p, request, risk, a).Ok? && request.capability in MUTATION_CAPABILITIES
    ensures !s.mode.Bunker? && !s.mode.Emergency? && p.allowLocalContentMutation && !risk
  {
    hide RecordFrom, EligibleFor, PolicyComposition.ResolveEffectivePosture, PolicyRevisionOf;
  }

  // ---- Authority only shrinks ----

  /** What a record lets its member do. */
  function Authority(r: Record): set<CapabilityName> {
    if r.state.ActiveMember? then RoleCapabilities(r.role) else {}
  }

  ghost predicate Shrinks(a: seq<Record>, b: seq<Record>) {
    && |a| == |b|
    && forall i :: 0 <= i < |a| ==> a[i].membershipId == b[i].membershipId && Authority(b[i]) <= Authority(a[i])
  }

  lemma RevocationChanges(matrix: Matrix, state: RoomState, logRoom: Id, log: LogState<Event>, input: RevocationInput)
    requires RevocationStep(matrix, state, logRoom, log, input).result.Ok?
    ensures RevocationGuard(state, input).Pass?
    ensures Runs.Changes(state, RevocationStep(matrix, state, logRoom, log, input).result.value,
                         Delegated(state, input))
  {
    hide Step;
    Runs.AcceptedChanges(matrix, state, logRoom, log, Delegated(state, input));
  }

  lemma RevocationShrinks(matrix: Matrix, state: RoomState, logRoom: Id, log: LogState<Event>, input: RevocationInput)
    requires RevocationStep(matrix, state, logRoom, log, input).result.Ok?
    ensures Shrinks(state.records, RevocationStep(matrix, state, logRoom, log, input).result.value)
  {
    RevocationChanges(matrix, state, logRoom, log, input);
    GuardedDirection(state, input);
    var records := RevocationStep(matrix, state, logRoom, log, input).result.value;
    hide RevocationGuard, RevocationStep;
    ChangeShrinks(state, records, Delegated(state, input));
  }

  /** The record after the command, in full. */
  function RevokedRecord(r: Record, p: Payload, now: string): Record {
    r.(revision := r.revision + 1, updatedAtLocal := LocalLabel(now),
       role := if p.ChangeMemberRole? then p.newRole else r.role,
       state := if p.SuspendMember? then SuspendedMember else if p.RemoveMember? then RemovedMember else r.state)
  }

  /** One record is changed as commanded, and one event says so. */
  predicate Records(before: seq<Record>, after: seq<Record>, log: LogState<Event>, log': LogState<Event>, p: Payload,
                    eventId: string, now: string, eventNow: string)
  {
    && !p.IsCreation()
    && var i := RecordIndex(before, p.membershipId);
    && 0 <= i < |before| && after == before[i := RevokedRecord(before[i], p, now)]
    && (log.MemoryLog? ==>
          && log'.MemoryLog? && |log'.events| == |log.events| + 1 && log'.events[..|log.events|] == log.events
          && var e := log'.events[|log.events|];
          && e.eventId == eventId && e.localSequence == |log.events| + 1 && e.createdAtLocal == LocalLabel(eventNow)
          && e.record == after[i] && e.previousRevision == Some(before[i].revision))
    && (log.NullLog? ==> log' == NullLog(log.lastSequence + 1))
  }

  /** What an accepted revocation leaves of records and log. */
  lemma RevocationMeans(matrix: Matrix, state: RoomState, logRoom: Id, log: LogState<Event>, input: RevocationInput)
    requires RevocationStep(matrix, state, logRoom, log, input).result.Ok?
    ensures var s := RevocationStep(matrix, state, logRoom, log, input);
      Records(state.records, s.result.value, log, s.log, input.command.payload, input.eventId, input.now,
              input.eventNow)
  {
    RevocationChanges(matrix, state, logRoom, log, input);
    GuardedDirection(state, input);
    StepMeans(matrix, state, logRoom, log, Delegated(state, input));
    hide RevocationGuard, Step, Runs.Changes, RecordFrom, Records;
  }

  lemma StepMeans(matrix: Matrix, state: RoomState, logRoom: Id, log: LogState<Event>, input: Input)
    requires Step(matrix, state, logRoom, log, input).result.Ok?
    requires var p := input.command.payload; p.SuspendMember? || p.RemoveMember? || p.ChangeMemberRole?
    ensures var s := Step(matrix, state, logRoom, log, input);
      Records(state.records, s.result.value, log, s.log, input.command.payload, input.eventId, input.now,
              input.eventNow)
  {
    hide Guard, RecordFrom, LocalLabel;
  }

  lemma ChangeShrinks(state: RoomState, records: seq<Record>, input: Input)
    requires Runs.Changes(state, records, input)
    requires var p := input.command.payload;
      && !p.IsCreation() && !p.ReactivateMember?
      && (p.ChangeMemberRole? ==> RoleCapabilities(p.newRole) <= RoleCapabilities(Target(state.records, p).value.role))
    ensures Shrinks(state.records, records)
  {
    hide RoleCapabilities, CheckAuthority, KeepsAnOwner;
    var i := RecordIndex(state.records, input.command.payload.membershipId);
    assert records == state.records[i := records[i]];
    assert Authority(records[i]) <= Authority(state.records[i]);
  }

  function At(matrix: Matrix, logRoom: Id, start: Runs.World, inputs: seq<RevocationInput>, k: nat): Runs.World
    requires k <= |inputs|
  {
    if k == 0 then start
    else
      var w := At(matrix, logRoom, start, inputs, k - 1);
      var s := RevocationStep(matrix, w.state, logRoom, w.log, inputs[k - 1]);
      Runs.World(if s.result.Ok? then w.state.(records := s.result.value) else w.state, s.log)
  }

  lemma ShrinksTransitive(a: seq<Record>, b: seq<Record>, c: seq<Record>)
    requires Shrinks(a, b) && Shrinks(b, c)
    ensures Shrinks(a, c)
  {
    hide Authority;
    forall i | 0 <= i < |a| ensures a[i].membershipId == c[i].membershipId && Authority(c[i]) <= Authority(a[i]) {
      assert Authority(b[i]) <= Authority(a[i]) && Authority(c[i]) <= Authority(b[i]);
    }
  }

  lemma StepShrinks(matrix: Matrix, logRoom: Id, start: Runs.World, inputs: seq<RevocationInput>, k: nat)
    requires 1 <= k <= |inputs|
    ensures Shrinks(At(matrix, logRoom, start, inputs, k - 1).state.records,
                    At(matrix, logRoom, start, inputs, k).state.records)
    ensures Runs.Governed(At(matrix, logRoom, start, inputs, k - 1).state) ==>
      Runs.Governed(At(matrix, logRoom, start, inputs, k).state)
  {
    var w := At(matrix, logRoom, start, inputs, k - 1);
    var s := RevocationStep(matrix, w.state, logRoom, w.log, inputs[k - 1]);
    hide RevocationStep;
    if s.result.Ok? {
      RevocationShrinks(matrix, w.state, logRoom, w.log, inputs[k - 1]);
      RevocationChanges(matrix, w.state, logRoom, w.log, inputs[k - 1]);
      hide Runs.Changes, Runs.Governed, Shrinks;
      if Runs.Governed(w.state) {
        Runs.ChangesGoverned(w.state, s.result.value, Delegated(w.state, inputs[k - 1]));
      }
    }
  }

  /**
   * Along any run of revocations no record is added or dropped, no record gains
   * a capability, and a governed room keeps an active owner.
   */
  lemma {:induction false} RunShrinks(matrix: Matrix, logRoom: Id, start: Runs.World, inputs: seq<RevocationInput>,
                                      i: nat, j: nat)
    requires i <= j <= |inputs|
    ensures Shrinks(At(matrix, logRoom, start, inputs, i).state.records,
                    At(matrix, logRoom, start, inputs, j).state.records)
    ensures Runs.Governed(start.state) ==> Runs.Governed(At(matrix, logRoom, start, inputs, j).state)
    decreases j
  {
    if i < j {
      hide *;
      StepShrinks(matrix, logRoom, start, inputs, j);
      RunShrinks(matrix, logRoom, start, inputs, i, j - 1);
      ShrinksTransitive(At(matrix, logRoom, start, inputs, i).state.records,
                        At(matrix, logRoom, start, inputs, j - 1).state.records,
                        At(matrix, logRoom, start, inputs, j).state.records);
    } else {
      hide Runs.Governed, Shrinks, RevocationStep;
      ShrinksReflexive(At(matrix, logRoom, start, inputs, j).state.records);
      if j > 0 {
        StepShrinks(matrix, logRoom, start, inputs, j);
        RunShrinks(matrix, logRoom, start, inputs, 0, j - 1);
      }
    }
  }

  lemma ShrinksReflexive(a: seq<Record>)
    ensures Shrinks(a, a)
  {
  }
}
