/** The registry of issued decisions behind every pipeline: each side effect needs a decision of its own. */
module Decisions {
  import opened Common
  import opened Privacy
  import opened EventLogs
  import opened RoomStates
  import Authorization
  import Governance
  import GovernanceRuns
  import Membership
  import MembershipRuns
  import ObjectEvents
  import ObjectPipeline
  import ObjectReducer
  import ObjectRuns
  import ObjectTypes
  import PolicyDocuments
  import Queries
  import RoomLog
  import Revocation

  /** A decision authorizes exactly if it was issued to allow persistence, and then exactly its own scope. */
  lemma AuthorizesOneScope(registry: DecisionRegistry, d: PolicyDecision, scope: Scope, other: Scope)
    ensures Authorizes(registry.Seen(d), scope) <==>
      d in registry.issued && d.allowed && d.capability.Persistence? && d.sideEffect == scope
    ensures Authorizes(registry.Seen(d), scope) && Authorizes(registry.Seen(d), other) ==> scope == other
  {
  }

  /** Two side effects of different scopes need two decisions, issued one by one. */
  lemma TwoScopesTwoDecisions(registry: DecisionRegistry, d: PolicyDecision, e: PolicyDecision, scope: Scope,
                              other: Scope)
    requires registry.Valid() && scope != other
    requires Authorizes(registry.Seen(d), scope) && Authorizes(registry.Seen(e), other)
    ensures IssuedApart(registry, d, e)
  {
  }

  /** Both were issued, as different objects with different logical numbers. */
  predicate IssuedApart(registry: DecisionRegistry, d: PolicyDecision, e: PolicyDecision)
    reads registry
  {
    d in registry.issued && e in registry.issued && d != e && d.issuedAtLogical != e.issuedAtLogical
  }

  /** Mutating an object and logging that are two separately issued decisions. */
  lemma ObjectCallsNeedTwo(registry: DecisionRegistry, d: PolicyDecision, e: PolicyDecision, matrix: Matrix,
                           p: ObjectReducer.Projection, logRoom: Id,
                           log: LogState<ObjectEvents.ObjectEvent>,
                           input: ObjectPipeline.Input)
    requires registry.Valid() && input.mutationDecision == registry.Seen(d) && input.storageDecision == registry.Seen(e)
    ensures ObjectPipeline.Step(matrix, p, logRoom, log, input).result.Ok? ==> IssuedApart(registry, d, e)
  {
    hide ObjectPipeline.Step;
    if ObjectPipeline.Step(matrix, p, logRoom, log, input).result.Ok? {
      ObjectRuns.AcceptedIff(matrix, p, logRoom, log, input);
      TwoScopesTwoDecisions(registry, d, e, ObjectTypes.ScopeOf(ObjectTypes.ClassOf(input.command.payload)),
                            ObjectLogAppend);
    }
  }

  /** The decision that authorizes a membership call, within the context or beside it for a bootstrap. */
  function MembershipDecision(input: Membership.Input): Option<Decision> {
    if input.command.payload.BootstrapOwner? then input.bootstrapDecision
    else if input.authorization.Some? then Some(input.authorization.value.decision)
    else None
  }

  lemma MembershipCallsNeedTwo(registry: DecisionRegistry, d: PolicyDecision, e: PolicyDecision, matrix: Matrix,
                               state: RoomState, logRoom: Id, log: LogState<Membership.Event>, input: Membership.Input)
    requires registry.Valid() && MembershipDecision(input) == Some(registry.Seen(d))
      && input.storageDecision == registry.Seen(e)
    ensures Membership.Step(matrix, state, logRoom, log, input).result.Ok? ==> IssuedApart(registry, d, e)
  {
    hide Membership.Step;
    if Membership.Step(matrix, state, logRoom, log, input).result.Ok? {
      MembershipRuns.AuthorityIff(state, input);
      MembershipRuns.AcceptedIff(matrix, state, logRoom, log, input);
      AuthorityNeedsScope(state, input);
      TwoScopesTwoDecisions(registry, d, e, Membership.ScopeOf(input.command.payload), MembershipLogAppend);
    }
  }

  lemma AuthorityNeedsScope(state: RoomState, input: Membership.Input)
    requires Membership.CheckAuthority(state, input).Pass?
    ensures MembershipDecision(input).Some?
    ensures Authorizes(MembershipDecision(input).value, Membership.ScopeOf(input.command.payload))
  {
  }

  lemma RevocationsNeedTwo(registry: DecisionRegistry, d: PolicyDecision, e: PolicyDecision, matrix: Matrix,
                           state: RoomState,
                           logRoom: Id, log: LogState<Membership.Event>, input: Revocation.RevocationInput)
    requires registry.Valid() && input.decision == registry.Seen(d) && input.storageDecision == registry.Seen(e)
    ensures Revocation.RevocationStep(matrix, state, logRoom, log, input).result.Ok? ==> IssuedApart(registry, d, e)
  {
    if Revocation.RevocationStep(matrix, state, logRoom, log, input).result.Ok? {
      Revocation.AcceptedIsGuarded(matrix, state, logRoom, log, input);
      Revocation.GuardedDirection(state, input);
      hide Revocation.RevocationGuard, Membership.Step;
      MembershipCallsNeedTwo(registry, d, e, matrix, state, logRoom, log, Revocation.Delegated(state, input));
    }
  }

  lemma GovernanceCallsNeedTwo(registry: DecisionRegistry, d: PolicyDecision, e: PolicyDecision,
                               w: GovernanceRuns.World, input: Governance.Input)
    requires registry.Valid() && input.decision == registry.Seen(d) && input.storageDecision == registry.Seen(e)
    ensures GovernanceRuns.Accepted(w, input) ==> IssuedApart(registry, d, e)
  {
    GovernanceRuns.AcceptedIfStricter(w, input);
    hide GovernanceRuns.Accepted;
    if GovernanceRuns.Accepted(w, input) {
      GuardNeedsScope(w.state, w.policy, input);
      hide Governance.Guard;
      TwoScopesTwoDecisions(registry, d, e, GovernanceUpdate, GovernanceLogAppend);
    }
  }

  lemma GuardNeedsScope(state: RoomState, policy: PolicyDocuments.PolicyDocument, input: Governance.Input)
    requires Governance.Guard(state, policy, input).Pass?
    ensures Authorizes(input.decision, GovernanceUpdate)
  {
    hide Authorization.StateCurrent;
  }

  /**
   * No query is answered, and nothing is appended to or read from the room log, on a decision that
   * was never issued.
   */
  lemma ForgedDecisionsDoNothing(registry: DecisionRegistry, d: PolicyDecision, matrix: Matrix, s: Queries.Snapshot,
                                 request: Queries.Request, policy: Queries.QueryPolicy,
                                 log: RoomLog.LogState, logRoom: Id, event: RoomLog.OperationEvent)
    requires d !in registry.issued
    ensures Queries.Execute(matrix, s, request, registry.Seen(d), policy).Err?
    ensures RoomLog.AppendTo(log, logRoom, event, registry.Seen(d)).Err?
  {
    hide Queries.ExecutePaged, Queries.CursorValid;
  }
}
