/** Every refusal names a reason that holds, whatever the order in which the checks are made. */
module Refusals {
  import opened Common
  import opened Privacy
  import opened EventLogs
  import opened RoomStates
  import Authorization
  import Capabilities
  import Governance
  import GovernanceRuns
  import Membership
  import MembershipLaws
  import MembershipRuns
  import ObjectEvents
  import ObjectLaws
  import ObjectPipeline
  import ObjectReducer
  import ObjectTypes
  import PolicyComparison
  import PolicyComposition
  import PolicyDocuments
  import Queries
  import QueryPaging
  import Revocation
  import RoomLog
  import RoomLogRuns

  // ---- Objects ----

  /** The object the command names, as it is before the call, in the terms of which it is refused. */
  predicate ObjectReason(p: ObjectReducer.Projection, command: ObjectTypes.Command, e: ObjectEvents.ObjectError) {
    var payload, i := command.payload, ObjectReducer.IndexOf(p.objects, command.objectId);
    match e
    case ObjectNotFound => !ObjectLaws.IsCreation(payload) && i == -1
    case ObjectIsTerminal => i >= 0 && p.objects[i].lifecycle == ObjectTypes.Tombstone
    case MissingExpectedRevision => !ObjectLaws.IsCreation(payload) && command.expectedRevision == None
    case StaleRevision =>
      i >= 0 && command.expectedRevision.Some? && command.expectedRevision.value < p.objects[i].revision
    case FutureRevision =>
      i >= 0 && command.expectedRevision.Some? && command.expectedRevision.value > p.objects[i].revision
    case InvalidLifecycleTransition =>
      && i >= 0
      && (ObjectLaws.IsCreation(payload)
          || !ObjectTypes.LifecycleAllows(p.objects[i].lifecycle, ObjectTypes.ClassOf(payload))
          || (ObjectLaws.IsUpdate(payload) && p.objects[i].content == None))
    case InvalidStatusTransition =>
      i >= 0 && p.objects[i].content.Some? && StatusReason(p.objects[i].content.value.status, payload)
    case RevisionOverflow => i >= 0 && p.objects[i].revision + 1 >= 0x1F_FFFF_FFFF_FFFF
    case _ => false
  }

  /** The status the object has, or lacks, does not allow the command. */
  predicate StatusReason(status: Option<ObjectTypes.Status>, payload: ObjectTypes.Payload) {
    match payload
    case UpdateTaskStatus(to) => status == None || !ObjectTypes.TaskTransition(status.value, to)
    case ResolveDecision(to, _, _, _) => status == None || !ObjectTypes.DecisionTransition(status.value, to)
    case UpdatePollDraft(_, _) | OpenPoll => status != Some(ObjectTypes.Draft)
    case ClosePoll => status != Some(ObjectTypes.OpenLocal)
    case _ => false
  }

  lemma BuildRefusal(p: ObjectReducer.Projection, input: ObjectPipeline.Input)
    requires var current := ObjectReducer.FindCurrent(p, input.command.objectId);
      ObjectEvents.BuildResultingObject(current, input.command, LocalLabel(input.now)).Err?
    ensures var current := ObjectReducer.FindCurrent(p, input.command.objectId);
      var e := ObjectEvents.BuildResultingObject(current, input.command, LocalLabel(input.now)).error;
      ObjectReason(p, input.command, e)
  {
    hide ObjectReducer.IndexFrom;
  }

  lemma ObjectRefusal(matrix: Matrix, p: ObjectReducer.Projection, logRoom: Id,
                      log: LogState<ObjectEvents.ObjectEvent>, input: ObjectPipeline.Input)
    requires ObjectPipeline.Step(matrix, p, logRoom, log, input).result.Err?
    ensures var command, payload, i := input.command, input.command.payload,
        ObjectReducer.IndexOf(p.objects, input.command.objectId);
      match ObjectPipeline.Step(matrix, p, logRoom, log, input).result.error
      case RoomMismatch =>
        command.roomId != p.roomId || logRoom != p.roomId || (i >= 0 && p.objects[i].roomId != command.roomId)
      case CrossObjectReference =>
        || (payload.CreateMessage? && payload.replyTo.Some?
            && ObjectReducer.IndexOf(p.objects, payload.replyTo.value) == -1)
        || (payload.ResolveDecision? && payload.supersedes.Some?
            && var t := ObjectReducer.IndexOf(p.objects, payload.supersedes.value);
            t >= 0 ==> p.objects[t].kind != ObjectTypes.DecisionKind)
      case PolicyDenied =>
        || matrix(ObjectTypes.MatrixOperationOf(ObjectTypes.ClassOf(payload)), command.mode) != MemoryOnly
        || (!ObjectLaws.IsRedaction(payload) && !payload.TombstoneObject?
            && (command.mode == Emergency || !input.allowLocalContentMutation))
      case DecisionRejected =>
        !Authorizes(input.mutationDecision, ObjectTypes.ScopeOf(ObjectTypes.ClassOf(payload)))
      case LogRefused => !Authorizes(input.storageDecision, ObjectLogAppend)
      case e => ObjectReason(p, command, e)
  {
    var prepared := ObjectPipeline.PrepareEvent(matrix, p, logRoom, NextSequence(log), input);
    if prepared.Ok? {
      ObjectPipeline.PreparedEventApplies(matrix, p, logRoom, NextSequence(log), input, prepared.value);
      hide ObjectReducer.IndexFrom, ObjectPipeline.PrepareEvent, ObjectReducer.ApplyEvent, ObjectReason;
      hide ObjectTypes.MatrixOperationOf, ObjectTypes.ScopeOf, ObjectTypes.ClassOf;
    } else if ObjectPipeline.Guard(matrix, p, logRoom, input).Pass? {
      BuildRefusal(p, input);
      hide ObjectPipeline.Guard, ObjectReason, ObjectEvents.BuildResultingObject, ObjectReducer.IndexFrom;
      hide ObjectTypes.MatrixOperationOf, ObjectTypes.ScopeOf, ObjectTypes.ClassOf;
    } else {
      hide ObjectReducer.IndexFrom, ObjectEvents.BuildResultingObject;
    }
  }

  // ---- Membership ----

  ghost predicate MembershipReason(matrix: Matrix, state: RoomState, logRoom: Id, input: Membership.Input,
                             e: Membership.MembershipError) {
    var p, records := input.command.payload, state.records;
    var i := if p.IsCreation() then -1 else RecordIndex(records, p.membershipId);
    match e
    case RoomMismatch => input.command.roomId != state.roomId
    case NotFound => !p.IsCreation() && i == -1
    case PolicyDenied =>
      || !Membership.MembershipPolicyAllows(input.command.mode, p, input.roomPolicy.allowLocalContentMutation)
      || matrix(Membership.MatrixOperationOf(p), input.command.mode) != MemoryOnly
    case DecisionRejected =>
      if p.BootstrapOwner? then
        input.bootstrapDecision == None || !Authorizes(input.bootstrapDecision.value, MembershipBootstrap)
      else input.authorization == None
    case ContextRejected =>
      && input.authorization.Some?
      && var context := input.authorization.value;
      !Capabilities.ContextAuthorizes(context, context.membership,
        Capabilities.Operation(Membership.CapabilityOf(p), Membership.ScopeOf(p), state.roomId, None, None)).Pass?
    case ActorNotActive =>
      && input.authorization.Some?
      && !MembershipRuns.ActiveIn(records, input.authorization.value.membership.membershipId)
    case DuplicateActiveMembership =>
      || (p.BootstrapOwner? && records != [])
      || (p.IsCreation() && input.membershipId.Some?
          && (RecordIndex(records, input.membershipId.value) >= 0
              || exists r <- records ::
                   r.roomId == state.roomId && r.memberRef == p.memberRef && r.state == ActiveMember))
    case StaleRevision => i >= 0 && p.expectedRevision < records[i].revision
    case FutureRevision => i >= 0 && p.expectedRevision > records[i].revision
    case LastOwnerContinuity =>
      && MembershipLaws.ActiveOwnerAt(records, i)
      && (p.SuspendMember? || p.RemoveMember? || (p.ChangeMemberRole? && p.newRole != Owner))
      && forall j :: MembershipLaws.ActiveOwnerAt(records, j) ==> j == i
    case MembershipTerminal => i >= 0 && records[i].state == RemovedMember
    case InvalidLifecycleTransition =>
      && i >= 0
      && ((p.ChangeMemberRole? && records[i].state != ActiveMember)
          || (p.SuspendMember? && records[i].state == SuspendedMember)
          || (p.ReactivateMember? && records[i].state == ActiveMember))
    case RevisionOverflow => i >= 0 && records[i].revision + 1 >= 0x1F_FFFF_FFFF_FFFF
    case InvalidMembershipId => p.IsCreation() && input.membershipId == None
    case LogRefused =>
      || !Authorizes(input.storageDecision, MembershipLogAppend)
      || logRoom != (if i >= 0 then records[i].roomId else input.command.roomId)
  }

  lemma AuthorityRefusal(matrix: Matrix, state: RoomState, logRoom: Id, input: Membership.Input)
    requires Membership.CheckAuthority(state, input).Fail?
    ensures MembershipReason(matrix, state, logRoom, input, Membership.CheckAuthority(state, input).error)
  {
    hide Capabilities.ContextAuthorizes, RecordFrom, Membership.MembershipPolicyAllows;
  }

  lemma OwnerRefusal(matrix: Matrix, state: RoomState, logRoom: Id, input: Membership.Input)
    ensures var p := input.command.payload;
      !Membership.KeepsAnOwner(state.records, Membership.Target(state.records, p), p) ==>
        MembershipReason(matrix, state, logRoom, input, Membership.LastOwnerContinuity)
  {
    var p := input.command.payload;
    if !p.IsCreation() && RecordIndex(state.records, p.membershipId) >= 0 {
      MembershipLaws.OwnerGuardIff(state.records, RecordIndex(state.records, p.membershipId), p);
    }
    hide Membership.CountActiveOwners, RecordFrom;
  }

  lemma GuardRefusal(matrix: Matrix, state: RoomState, logRoom: Id, input: Membership.Input)
    requires Membership.Guard(matrix, state, input).Fail?
    ensures MembershipReason(matrix, state, logRoom, input, Membership.Guard(matrix, state, input).error)
  {
    var p := input.command.payload;
    if Membership.CheckAuthority(state, input).Fail? {
      AuthorityRefusal(matrix, state, logRoom, input);
    }
    OwnerRefusal(matrix, state, logRoom, input);
    hide Membership.CheckAuthority, Membership.KeepsAnOwner, Membership.MembershipPolicyAllows, RecordFrom;
    hide Capabilities.ContextAuthorizes, MembershipRuns.ActiveIn, MembershipLaws.ActiveOwnerAt, Authorizes;
    hide Membership.MatrixOperationOf, Membership.ScopeOf, Membership.CapabilityOf;
  }

  lemma BuiltRefusal(matrix: Matrix, state: RoomState, logRoom: Id, sequence: nat, input: Membership.Input)
    requires Membership.Guard(matrix, state, input).Pass?
    requires Membership.PrepareEvent(matrix, state, sequence, input).Err?
    ensures MembershipReason(matrix, state, logRoom, input,
                             Membership.PrepareEvent(matrix, state, sequence, input).error)
  {
    hide Membership.Guard, RecordFrom, Membership.MembershipPolicyAllows, Capabilities.ContextAuthorizes;
  }

  lemma ReduceRefusal(matrix: Matrix, state: RoomState, logRoom: Id, sequence: nat, input: Membership.Input)
    requires Membership.PrepareEvent(matrix, state, sequence, input).Ok?
    ensures var e := Membership.PrepareEvent(matrix, state, sequence, input).value;
      && e.roomId == (if input.command.payload.IsCreation() then state.roomId
                      else state.records[RecordIndex(state.records, input.command.payload.membershipId)].roomId)
      && (Membership.ReduceEvent(state.records, e).Err? ==>
            MembershipReason(matrix, state, logRoom, input, Membership.ReduceEvent(state.records, e).error))
  {
    hide RecordFrom, Membership.MembershipPolicyAllows, Capabilities.ContextAuthorizes, Membership.KeepsAnOwner,
      Membership.CheckAuthority;
  }

  /** Where the error of a call comes from. */
  lemma ErrorOf(matrix: Matrix, state: RoomState, logRoom: Id, log: LogState<Membership.Event>, input: Membership.Input)
    requires Membership.Step(matrix, state, logRoom, log, input).result.Err?
    ensures var e := Membership.Step(matrix, state, logRoom, log, input).result.error;
      var prepared := Membership.PrepareEvent(matrix, state, NextSequence(log), input);
      if prepared.Err? then e == prepared.error
      else
        || (e == Membership.LogRefused
            && (logRoom != prepared.value.roomId || !Authorizes(input.storageDecision, MembershipLogAppend)))
        || Membership.ReduceEvent(state.records, prepared.value) == Err(e)
  {
    EventSequence(matrix, state, NextSequence(log), input);
    hide Membership.PrepareEvent, Membership.ReduceEvent;
  }

  lemma EventSequence(matrix: Matrix, state: RoomState, sequence: nat, input: Membership.Input)
    ensures var prepared := Membership.PrepareEvent(matrix, state, sequence, input);
      prepared.Ok? ==> prepared.value.localSequence == sequence
  {
    hide Membership.Guard, Membership.BuildResultingMembership, Membership.Target;
  }

  lemma MembershipRefusal(matrix: Matrix, state: RoomState, logRoom: Id, log: LogState<Membership.Event>,
                          input: Membership.Input)
    requires Membership.Step(matrix, state, logRoom, log, input).result.Err?
    ensures MembershipReason(matrix, state, logRoom, input,
                             Membership.Step(matrix, state, logRoom, log, input).result.error)
  {
    var sequence := NextSequence(log);
    ErrorOf(matrix, state, logRoom, log, input);
    hide Membership.Step;
    if Membership.PrepareEvent(matrix, state, sequence, input).Ok? {
      ReduceRefusal(matrix, state, logRoom, sequence, input);
      hide Membership.PrepareEvent, Membership.ReduceEvent, RecordFrom;
    } else if Membership.Guard(matrix, state, input).Fail? {
      GuardRefusal(matrix, state, logRoom, input);
      hide Membership.Guard, MembershipReason;
    } else {
      BuiltRefusal(matrix, state, logRoom, sequence, input);
      hide Membership.PrepareEvent, MembershipReason;
    }
  }

  // ---- The fence ----

  lemma FenceRefusal(prepared: Authorization.Prepared, state: RoomState, m: Record, policy: RoomPolicy,
                     decision: Decision, actual: Authorization.Request,
                     signal: Option<PolicyComposition.PostureSignal>)
    requires Authorization.Revalidate(prepared, state, m, policy, decision, actual, signal).Fail?
    ensures var fence := prepared.revision;
      match Authorization.Revalidate(prepared, state, m, policy, decision, actual, signal).error
      case StructureStale => prepared.schemaVersion != 1 || prepared.authoritative
      case RoomChanged => !(prepared.roomId == fence.roomId == state.roomId)
      case MembershipGone =>
        || FindRecord(state.records, prepared.membershipId) == None || m.membershipId != prepared.membershipId
        || m.state == RemovedMember
      case MemberRefChanged => m.memberRef != prepared.memberRef
      case MembershipSuspended => m.state == SuspendedMember
      case MembershipRevisionChanged => m.revision != fence.membershipRevision
      case RoleRevoked => m.role != prepared.capability.sourceRole
      case PolicyRevisionChanged => Authorization.PolicyRevisionOf(state, policy) != fence.policyRevision
      case ModeChanged => state.mode != fence.mode
      case LifecycleChanged => state.lifecycle != fence.lifecycle
      case PostureChanged => PolicyComposition.ResolveEffectivePosture(signal) != fence.posture
      case DescriptorStale => Capabilities.DescriptorCurrent(prepared.capability, m).Fail?
      case ObjectBinding => prepared.objectId != actual.objectId || prepared.objectKind != actual.objectKind
      case ViewBinding => prepared.view != actual.view
      case TargetBinding =>
        if actual.target.None? then prepared.targetId.Some? || prepared.targetRevision.Some?
        else
          || prepared.targetId != Some(actual.target.value.membershipId)
          || (prepared.targetRevision.Some? && prepared.targetRevision.value != actual.target.value.revision)
      case OperationBinding =>
        prepared.requiredCapability != actual.capability || prepared.requiredSideEffect != actual.sideEffect
      case DecisionMissing => !decision.authentic
      case DecisionMismatch => !Authorizes(decision, actual.sideEffect)
  {
    hide RecordFrom, Authorization.PolicyRevisionOf, PolicyComposition.ResolveEffectivePosture,
      Capabilities.DescriptorCurrent;
  }

  // ---- Governance and revocation ----

  lemma GovernanceRefusal(state: RoomState, current: PolicyDocuments.PolicyDocument, log: LogState<Governance.Event>,
                          input: Governance.Input)
    requires Governance.Step(state, current, log, input).result.Err?
    ensures var command := input.command;
      var changed := Governance.ChangedRules(current.rules, command.change);
      match Governance.Step(state, current, log, input).result.error
      case RoomMismatch => command.roomId != state.roomId
      case ActorNotFound => FindRecord(state.records, command.actorMembershipId) == None
      case RevisionMismatch => command.expectedRevision != current.revision
      case NotCurrent(e) =>
        && FindRecord(state.records, command.actorMembershipId).Some?
        && Authorization.Revalidate(
             input.prepared, state, FindRecord(state.records, command.actorMembershipId).value, input.roomPolicy,
             input.decision, Governance.TIGHTEN_REQUEST, input.signal) == Fail(e)
      case NotTightening(direction) =>
        && (direction.Looser? || direction.Equal?)
        && (direction.Looser? ==> PolicyDocuments.Tightens(changed, current.rules))
        && (direction.Equal? <==> changed == current.rules)
      case LogDenied => !Authorizes(input.storageDecision, GovernanceLogAppend)
      case _ => false
  {
    Governance.DryRunPasses(current, input, NextSequence(log));
    GovernanceRuns.ChangeIsComparable(current, input.command.change);
    PolicyDocuments.TightensIsPartialOrder(
      current.rules, Governance.ChangedRules(current.rules, input.command.change), current.rules);
    hide RecordFrom, Authorization.Revalidate, Governance.ChangedRules, PolicyDocuments.Tightens,
      Governance.ReduceEvent;
  }

  lemma RevocationRefusal(matrix: Matrix, state: RoomState, logRoom: Id, log: LogState<Membership.Event>,
                          input: Revocation.RevocationInput)
    requires Revocation.RevocationStep(matrix, state, logRoom, log, input).result.Err?
    ensures var p, records := input.command.payload, state.records;
      var actor := FindRecord(records, input.prepared.membershipId);
      match Revocation.RevocationStep(matrix, state, logRoom, log, input).result.error
      case ActorGone => actor == None
      case TargetUnknown => p.IsCreation() || FindRecord(records, p.membershipId) == None
      case Escalation(direction) =>
        || p.ReactivateMember?
        || (p.ChangeMemberRole? && RecordIndex(records, p.membershipId) >= 0
            && !(Capabilities.RoleCapabilities(p.newRole)
                   <= Capabilities.RoleCapabilities(records[RecordIndex(records, p.membershipId)].role)))
      case NotCurrent(e) =>
        && actor.Some? && !p.IsCreation() && FindRecord(records, p.membershipId).Some?
        && Authorization.Revalidate(
             input.prepared, state, actor.value, input.policy, input.decision,
             Revocation.ActualRequest(p, FindRecord(records, p.membershipId).value), None) == Fail(e)
      case MembershipRefused(e) =>
        && actor.Some?
        && Membership.Step(matrix, state, logRoom, log, Revocation.Delegated(state, input)).result == Err(e)
  {
    hide RecordFrom, Membership.Step, Authorization.Revalidate, Capabilities.RoleCapabilities;
  }

  /** A context that cannot be prepared fails for the member or for the capability. */
  lemma PreparationRefusal(state: RoomState, membership: Record, policy: RoomPolicy, request: Authorization.Request,
                           risk: bool, signal: Option<PolicyComposition.PostureSignal>)
    requires Authorization.Prepare(state, membership, policy, request, risk, signal).Err?
    ensures Authorization.Prepare(state, membership, policy, request, risk, signal).error
      == if MembershipRuns.ActiveIn(state.records, membership.membershipId) then Authorization.RoleRevoked
         else Authorization.MembershipSuspended
  {
    hide RecordFrom, Authorization.PolicyRevisionOf, PolicyComposition.ResolveEffectivePosture,
      Capabilities.ResolveLocalCapability;
  }

  // ---- Queries ----

  lemma QueryRefusal(matrix: Matrix, s: Queries.Snapshot, request: Queries.Request, decision: Decision,
                     policy: Queries.QueryPolicy)
    requires Queries.Execute(matrix, s, request, decision, policy).Err?
    ensures var query, search := request.query, request.query.SearchQuery?;
      var cursor := if request.page.Some? then request.page.value.cursor else None;
      match Queries.Execute(matrix, s, request, decision, policy).error
      case RoomMismatch => request.roomId != s.roomId
      case NotAvailable =>
        || matrix(Queries.MatrixOperationOfQuery(query), s.mode) != MemoryOnly
        || (query.GetQuery?
            && ((forall o <- s.objects :: o.objectId != request.objectId)
                || exists o <- s.objects :: o.objectId == request.objectId && o.roomId != s.roomId))
      case DecisionMissing => !decision.authentic
      case DecisionMismatch =>
        || decision.capability != Persistence || decision.sideEffect != Queries.ScopeOfQuery(query)
        || policy.query != query || policy.requestedView != request.requestedView
      case PolicyDenied =>
        || !decision.allowed || !policy.allowed
        || (search && !policy.searchAllowed) || (query.CountsQuery? && !policy.countsAllowed)
        || (request.requestedView.DetailContentView? && !policy.contentAllowed)
      case CursorRoomMismatch =>
        cursor.Some? && (cursor.value.roomId != request.roomId || cursor.value.roomId != s.roomId)
      case CursorInvalid =>
        && cursor.Some?
        && ((cursor.value.lastCreatedAtLocal.Some? && !(LOCAL_PREFIX <= cursor.value.lastCreatedAtLocal.value))
            || (cursor.value.lastUpdatedAtLocal.Some? && !(LOCAL_PREFIX <= cursor.value.lastUpdatedAtLocal.value)))
      case CursorSortMismatch => cursor.Some? && cursor.value.sort != Queries.EffectiveSort(request, policy)
      case LimitTooSmall => request.page.Some? && request.page.value.limit < 1
      case LimitTooLarge =>
        && request.page.Some?
        && (request.page.value.limit > policy.maxResults || request.page.value.limit > if search then 50 else 100)
      case MalformedContent =>
        search && exists o <- s.objects ::
          o.kind == ObjectTypes.PollKind && o.content.Some? && o.content.value.options == None
  {
    QueryPaging.FirstIsIn(s.objects, request.objectId);
    NoneHasId(s.objects, request.objectId);
    hide Queries.FirstWithId, Queries.EffectiveSort, Queries.MatrixOperationOfQuery, Queries.ScopeOfQuery,
      Queries.Ordered, Queries.StartOf, Queries.CursorOf, Queries.SummariesOf, Queries.DetailOf, Queries.RoomSummaryOf,
      Queries.MatchesFilter, Queries.Selected;
  }

  lemma {:induction false} NoneHasId(objects: seq<ObjectTypes.RoomObject>, id: Id)
    ensures Queries.FirstWithId(objects, id).None? ==> forall o <- objects :: o.objectId != id
  {
    if objects != [] {
      NoneHasId(objects[1..], id);
      assert objects == [objects[0]] + objects[1..];
    }
  }

  // ---- The base room log ----

  lemma ReductionRefusal(a: RoomState, e: RoomLog.OperationEvent)
    requires RoomLog.Reduce(a, e).Err?
    ensures RoomLog.Reduce(a, e).error
      == if e.roomId != a.roomId then RoomLog.RoomMismatch else RoomLog.LifecycleDenied
  {
  }

  lemma OperationLogRefusal(log: RoomLog.LogState, logRoom: Id, e: RoomLog.OperationEvent, decision: Decision)
    requires RoomLog.AppendTo(log, logRoom, e, decision).Err?
    ensures var last := if log.MemoryLog? && log.events != [] then log.events[|log.events| - 1].localSequence else 0;
      match RoomLog.AppendTo(log, logRoom, e, decision).error
      case DecisionRejected => !Authorizes(decision, OperationLogAppend)
      case InvalidEvent => !RoomLog.ValidEvent(e)
      case RoomMismatch => e.roomId != logRoom
      case DuplicateEvent => log.MemoryLog? && exists earlier <- log.events :: earlier.eventId == e.eventId
      case SequenceConflict => log.MemoryLog? && e.localSequence == last
      case EventOrder => log.MemoryLog? && e.localSequence < last
      case SequenceGap => log.MemoryLog? && e.localSequence > last + 1
      case LifecycleDenied => false
  {
    hide RoomLog.ValidEvent;
  }
}
