/** Prepared authorizations, the revision fence they are bound to, and their revalidation. */
module Authorization {
  import opened Common
  import opened Privacy
  import opened RoomStates
  import opened Capabilities
  import ObjectTypes
  import PolicyComposition

  // ---- Role authority ----

  datatype RoleDirection = Narrower | Wider | SameAuthority | IncomparableAuthority

  /** Where a role change leads, by the capability sets alone. */
  function DirectionOf(from: Role, to: Role): RoleDirection {
    if RoleCapabilities(from) == RoleCapabilities(to) then SameAuthority
    else if RoleCapabilities(to) < RoleCapabilities(from) then Narrower
    else if RoleCapabilities(from) < RoleCapabilities(to) then Wider
    else IncomparableAuthority
  }

  method IsCapabilitySubset(a: set<CapabilityName>, b: set<CapabilityName>) returns (r: bool)
    ensures r <==> a <= b
  {
    var rest := a;
    while rest != {}
      invariant rest <= a && a - rest <= b
      decreases |rest|
    {
      var c :| c in rest;
      if c !in b {
        return false;
      }
      rest := rest - {c};
    }
    return true;
  }

  method CompareRoleAuthority(from: Role, to: Role) returns (d: RoleDirection)
    ensures d == DirectionOf(from, to)
  {
    var a, b := RoleCapabilities(from), RoleCapabilities(to);
    hide RoleCapabilities;
    var aSubB := IsCapabilitySubset(a, b);
    var bSubA := IsCapabilitySubset(b, a);
    if aSubB && bSubA {
      return SameAuthority;
    }
    if bSubA {
      return Narrower;
    }
    return if aSubB then Wider else IncomparableAuthority;
  }

  /** Owner is above editor above viewer; the auditor is only below the owner. */
  lemma RoleOrder(from: Role, to: Role)
    ensures DirectionOf(from, to).SameAuthority? <==> from == to
    ensures DirectionOf(from, to).Narrower? <==>
      from != to && (from.Owner? || (from.Editor? && to.Viewer?))
    ensures DirectionOf(from, to).IncomparableAuthority? <==>
      from != to && !from.Owner? && !to.Owner? && (from.Auditor? || to.Auditor?)
  {
    assert AddPlaceholder in RoleCapabilities(Owner);
    assert CreateObject in RoleCapabilities(Editor) && DetailRead in RoleCapabilities(Viewer);
    assert AuditReadRedacted in RoleCapabilities(Auditor);
    assert RoleCapabilities(Viewer) < RoleCapabilities(Editor) < RoleCapabilities(Owner);
    assert RoleCapabilities(Auditor) < RoleCapabilities(Owner);
  }

  // ---- The policy revision ----

  function PolicyBits(p: RoomPolicy): (bits: seq<bool>)
    ensures |bits| == 8
  {
    [p.allowLocalContentMutation, p.allowPersistentProjection, p.allowOperationLogPersistence, p.allowNetworkSync,
     p.allowMetadataSignals, p.allowNotifications, p.allowLocalAi, p.redactTitles]
  }

  function Pow2(n: nat): (r: nat)
    ensures r >= 1
  {
    if n == 0 then 1 else 2 * Pow2(n - 1)
  }

  /** The number whose binary digits these are, least significant first. */
  function BinaryValue(bits: seq<bool>): (r: nat)
    ensures r < Pow2(|bits|)
  {
    if bits == [] then 0
    else BinaryValue(bits[..|bits| - 1]) + if bits[|bits| - 1] then Pow2(|bits| - 1) else 0
  }

  lemma {:induction false} BinaryValueInjective(a: seq<bool>, b: seq<bool>)
    requires |a| == |b| && BinaryValue(a) == BinaryValue(b)
    ensures a == b
  {
    if a != [] {
      var n := |a| - 1;
      BinaryValueInjective(a[..n], b[..n]);
      assert a == a[..n] + [a[n]] && b == b[..n] + [b[n]];
    }
  }

  function Fingerprint(p: RoomPolicy): nat {
    BinaryValue(PolicyBits(p))
  }

  /** The weight of each flag. */
  lemma FingerprintIs(p: RoomPolicy)
    ensures Fingerprint(p) ==
      Weight(p.allowLocalContentMutation, 1) + Weight(p.allowPersistentProjection, 2)
      + Weight(p.allowOperationLogPersistence, 4) + Weight(p.allowNetworkSync, 8) + Weight(p.allowMetadataSignals, 16)
      + Weight(p.allowNotifications, 32) + Weight(p.allowLocalAi, 64) + Weight(p.redactTitles, 128)
  {
    var bits := PolicyBits(p);
    BitByBit(bits, 8);
    BitByBit(bits, 4);
    assert bits[..8] == bits;
    assert Pow2(4) == 16 && Pow2(5) == 32 && Pow2(6) == 64 && Pow2(7) == 128;
  }

  function Weight(flag: bool, weight: nat): nat {
    if flag then weight else 0
  }

  /** Four digits at once. */
  lemma BitByBit(bits: seq<bool>, n: nat)
    requires 4 <= n <= |bits|
    ensures BinaryValue(bits[..n]) == BinaryValue(bits[..n - 4]) + Weight(bits[n - 4], Pow2(n - 4))
      + Weight(bits[n - 3], Pow2(n - 3)) + Weight(bits[n - 2], Pow2(n - 2)) + Weight(bits[n - 1], Pow2(n - 1))
  {
    LastBit(bits, n - 3);
    LastBit(bits, n - 2);
    LastBit(bits, n - 1);
    LastBit(bits, n);
    hide BinaryValue, Pow2;
  }

  lemma LastBit(bits: seq<bool>, n: nat)
    requires 1 <= n <= |bits|
    ensures BinaryValue(bits[..n]) == BinaryValue(bits[..n - 1]) + Weight(bits[n - 1], Pow2(n - 1))
  {
    assert bits[..n][..n - 1] == bits[..n - 1];
  }

  /** `value | 1 << i` on the naturals. */
  function WithBit(value: nat, i: nat): nat {
    if value / Pow2(i) % 2 == 1 then value else value + Pow2(i)
  }

  lemma WithFreshBit(value: nat, i: nat)
    requires value < Pow2(i)
    ensures WithBit(value, i) == value + Pow2(i)
  {
    hide Pow2;
    SmallQuotient(value, Pow2(i));
  }

  lemma SmallQuotient(value: nat, d: nat)
    requires value < d
    ensures value / d == 0
  {
  }

  method ComputeRoomPolicyFingerprint(p: RoomPolicy) returns (value: nat)
    ensures value == Fingerprint(p)
  {
    var bits := PolicyBits(p);
    hide PolicyBits, WithBit, Pow2;
    value := 0;
    for i := 0 to |bits|
      invariant value == BinaryValue(bits[..i])
    {
      assert bits[..i + 1][..i] == bits[..i];
      if bits[i] {
        WithFreshBit(value, i);
        value := WithBit(value, i);
      }
    }
    assert bits[..|bits|] == bits;
  }

  /** Different room policies have different fingerprints. */
  lemma FingerprintInjective(p: RoomPolicy, q: RoomPolicy)
    requires Fingerprint(p) == Fingerprint(q)
    ensures p == q
  {
    BinaryValueInjective(PolicyBits(p), PolicyBits(q));
    assert forall i :: 0 <= i < 8 ==> PolicyBits(p)[i] == PolicyBits(q)[i];
    assert PolicyBits(p)[0] == PolicyBits(q)[0] && PolicyBits(p)[7] == PolicyBits(q)[7];
  }

  /** The explicit counter when the room has one, else the fingerprint. */
  function PolicyRevisionOf(state: RoomState, policy: RoomPolicy): nat {
    if state.policyRevision.Some? then state.policyRevision.value else Fingerprint(policy)
  }

  /**
   * When the fence takes two policies for the same. Without a counter it sees
   * every flag; with one it sees no flag; between the two numbers may coincide.
   */
  lemma PolicyFenceHoldsIff(s: RoomState, p: RoomPolicy, t: RoomState, q: RoomPolicy)
    ensures PolicyRevisionOf(s, p) == PolicyRevisionOf(t, q) <==>
      match (s.policyRevision, t.policyRevision)
      case (None, None) => p == q
      case (Some(m), Some(n)) => m == n
      case (None, Some(n)) => n == Fingerprint(p)
      case (Some(m), None) => m == Fingerprint(q)
  {
    if s.policyRevision.None? && t.policyRevision.None? && Fingerprint(p) == Fingerprint(q) {
      FingerprintInjective(p, q);
    }
  }

  // ---- Preparation ----

  /** What an authorization is asked for; the same fields are given again when it is used. */
  datatype Request = Request(
    capability: CapabilityName, sideEffect: Scope, objectId: Option<Id>, objectKind: Option<ObjectTypes.Kind>,
    view: Option<View>, target: Option<Record>)

  datatype Fence = Fence(
    roomId: Id, membershipId: Id, membershipRevision: nat, policyRevision: nat, lifecycle: RoomLifecycle,
    mode: PrivacyMode, posture: PolicyComposition.EffectivePosture)

  datatype Prepared = Prepared(
    schemaVersion: int, authoritative: bool, revision: Fence, membershipId: Id, memberRef: Id, capability: Descriptor,
    requiredCapability: CapabilityName, requiredSideEffect: Scope, roomId: Id, objectId: Option<Id>,
    objectKind: Option<ObjectTypes.Kind>, view: Option<View>, targetId: Option<Id>, targetRevision: Option<nat>)

  datatype AuthorizationError =
    | StructureStale | RoomChanged | MembershipGone | MemberRefChanged | MembershipSuspended | MembershipRevisionChanged
    | RoleRevoked | PolicyRevisionChanged | ModeChanged | LifecycleChanged | PostureChanged | DescriptorStale
    | ObjectBinding | ViewBinding | TargetBinding | OperationBinding | DecisionMissing | DecisionMismatch

  function Prepare(state: RoomState, membership: Record, policy: RoomPolicy, request: Request, criticalDeviceRisk: bool,
                   signal: Option<PolicyComposition.PostureSignal>): Result<Prepared, AuthorizationError>
  {
    var current := FindRecord(state.records, membership.membershipId);
    :- Need(current.Some? && current.value.state.ActiveMember?, MembershipSuspended);
    var m := current.value;
    var descriptor := ResolveLocalCapability(m, request.capability, state.mode, policy.allowLocalContentMutation,
                                             criticalDeviceRisk, request.objectKind, request.objectId, request.view);
    :- Need(descriptor.Some?, RoleRevoked);
    Ok(Prepared(1, false,
                Fence(state.roomId, m.membershipId, m.revision, PolicyRevisionOf(state, policy), state.lifecycle,
                      state.mode, PolicyComposition.ResolveEffectivePosture(signal)),
                m.membershipId, m.memberRef, descriptor.value, request.capability, request.sideEffect, state.roomId,
                request.objectId, request.objectKind, request.view,
                if request.target.Some? then Some(request.target.value.membershipId) else None,
                if request.target.Some? then Some(request.target.value.revision) else None))
  }

  // ---- Revalidation ----

  /** The state half of the fence: the room, the membership, the environment. */
  function StateCurrent(prepared: Prepared, state: RoomState, m: Record, policy: RoomPolicy,
                        signal: Option<PolicyComposition.PostureSignal>): Check<AuthorizationError>
  {
    if prepared.schemaVersion != 1 || prepared.authoritative then Fail(StructureStale)
    else if prepared.roomId != state.roomId || prepared.revision.roomId != state.roomId then Fail(RoomChanged)
    else if FindRecord(state.records, prepared.membershipId).None? || m.membershipId != prepared.membershipId
      then Fail(MembershipGone)
    else if m.memberRef != prepared.memberRef then Fail(MemberRefChanged)
    else if m.state.RemovedMember? then Fail(MembershipGone)
    else if !m.state.ActiveMember? then Fail(MembershipSuspended)
    else if m.revision != prepared.revision.membershipRevision then Fail(MembershipRevisionChanged)
    else if m.role != prepared.capability.sourceRole then Fail(RoleRevoked)
    else if PolicyRevisionOf(state, policy) != prepared.revision.policyRevision then Fail(PolicyRevisionChanged)
    else if state.mode != prepared.revision.mode then Fail(ModeChanged)
    else if state.lifecycle != prepared.revision.lifecycle then Fail(LifecycleChanged)
    else if PolicyComposition.ResolveEffectivePosture(signal) != prepared.revision.posture then Fail(PostureChanged)
    else if DescriptorCurrent(prepared.capability, m).Fail? then Fail(DescriptorStale)
    else Pass
  }

  /** The operation half: object, view, target, operation and decision. */
  function OperationBound(prepared: Prepared, decision: Decision, actual: Request): Check<AuthorizationError> {
    if prepared.objectId != actual.objectId || prepared.objectKind != actual.objectKind then Fail(ObjectBinding)
    else if prepared.view != actual.view then Fail(ViewBinding)
    else if prepared.targetId != (if actual.target.Some? then Some(actual.target.value.membershipId) else None)
      then Fail(TargetBinding)
    else if prepared.targetRevision.Some?
            && prepared.targetRevision != (if actual.target.Some? then Some(actual.target.value.revision) else None)
      then Fail(TargetBinding)
    else if prepared.requiredCapability != actual.capability || prepared.requiredSideEffect != actual.sideEffect
      then Fail(OperationBinding)
    else if !decision.authentic then Fail(DecisionMissing)
    else if !decision.allowed || decision.capability != Persistence || decision.sideEffect != actual.sideEffect
      then Fail(DecisionMismatch)
    else Pass
  }

  /** The execution-time fence. `m` is the caller's copy of the acting membership. */
  function Revalidate(prepared: Prepared, state: RoomState, m: Record, policy: RoomPolicy, decision: Decision,
                      actual: Request, signal: Option<PolicyComposition.PostureSignal>): Check<AuthorizationError>
  {
    if StateCurrent(prepared, state, m, policy, signal).Fail? then StateCurrent(prepared, state, m, policy, signal)
    else OperationBound(prepared, decision, actual)
  }

  /** Exactly when any context, prepared or made up, passes the fence. */
  lemma PassesIff(prepared: Prepared, state: RoomState, m: Record, policy: RoomPolicy, decision: Decision,
                  actual: Request, signal: Option<PolicyComposition.PostureSignal>)
    ensures Revalidate(prepared, state, m, policy, decision, actual, signal).Pass? <==>
      var fence, d := prepared.revision, prepared.capability;
      && prepared.schemaVersion == 1 && !prepared.authoritative
      && prepared.roomId == fence.roomId == state.roomId
      && FindRecord(state.records, prepared.membershipId).Some?
      && m.membershipId == prepared.membershipId == d.membershipId && m.memberRef == prepared.memberRef == d.memberRef
      && m.state == ActiveMember && m.revision == fence.membershipRevision == d.membershipRevision
      && m.role == d.sourceRole && d.capability in RoleCapabilities(m.role) && m.roomId == d.roomId
      && PolicyRevisionOf(state, policy) == fence.policyRevision && state.mode == fence.mode
      && state.lifecycle == fence.lifecycle && PolicyComposition.ResolveEffectivePosture(signal) == fence.posture
      && prepared.objectId == actual.objectId && prepared.objectKind == actual.objectKind
      && prepared.view == actual.view
      && (if actual.target.None? then prepared.targetId.None? && prepared.targetRevision.None?
          else
            && prepared.targetId == Some(actual.target.value.membershipId)
            && (prepared.targetRevision.Some? ==> prepared.targetRevision.value == actual.target.value.revision))
      && prepared.requiredCapability == actual.capability && prepared.requiredSideEffect == actual.sideEffect
      && decision.authentic && decision.allowed && decision.capability == Persistence
      && decision.sideEffect == actual.sideEffect
  {
    hide PolicyRevisionOf, PolicyComposition.ResolveEffectivePosture, RecordFrom, RoleCapabilities;
  }

  /** Exactly when a context can be prepared, and what it is bound to. */
  lemma PreparedIff(state: RoomState, membership: Record, policy: RoomPolicy, request: Request, risk: bool,
                    signal: Option<PolicyComposition.PostureSignal>)
    ensures Prepare(state, membership, policy, request, risk, signal).Ok? <==>
      var current := FindRecord(state.records, membership.membershipId);
      && current.Some? && current.value.state == ActiveMember
      && request.capability in RoleCapabilities(current.value.role)
      && state.mode != Emergency && (state.mode == Bunker ==> request.capability in BUNKER_CAPABILITIES)
      && (request.capability in MUTATION_CAPABILITIES ==> policy.allowLocalContentMutation && !risk)
    ensures Prepare(state, membership, policy, request, risk, signal).Ok? ==>
      var r, m := Prepare(state, membership, policy, request, risk, signal).value,
        FindRecord(state.records, membership.membershipId).value;
      && r.capability.capability == r.requiredCapability == request.capability
      && r.requiredSideEffect == request.sideEffect
      && r.capability.exactObjectId == r.objectId == request.objectId
      && r.capability.maximumView == r.view == request.view
      && r.capability.objectKinds == (if request.objectKind.Some? then Some([request.objectKind.value]) else None)
      && r.objectKind == request.objectKind
      && r.capability.membershipRevision == r.revision.membershipRevision == m.revision
      && r.targetId == (if request.target.Some? then Some(request.target.value.membershipId) else None)
      && r.targetRevision == (if request.target.Some? then Some(request.target.value.revision) else None)
  {
    hide PolicyRevisionOf, PolicyComposition.ResolveEffectivePosture, RecordFrom, RoleCapabilities;
  }

  /** The request names the same operation on the same object, view and target version. */
  predicate SameRequest(a: Request, b: Request) {
    && a.capability == b.capability && a.sideEffect == b.sideEffect
    && a.objectId == b.objectId && a.objectKind == b.objectKind && a.view == b.view
    && (a.target.Some? <==> b.target.Some?)
    && (a.target.Some? ==>
          && a.target.value.membershipId == b.target.value.membershipId
          && a.target.value.revision == b.target.value.revision)
  }

  /** The environment as the fence sees it. */
  predicate SameEnvironment(s: RoomState, p: RoomPolicy, a: Option<PolicyComposition.PostureSignal>,
                            t: RoomState, q: RoomPolicy, b: Option<PolicyComposition.PostureSignal>)
  {
    && s.roomId == t.roomId && s.mode == t.mode && s.lifecycle == t.lifecycle
    && PolicyRevisionOf(s, p) == PolicyRevisionOf(t, q)
    && PolicyComposition.ResolveEffectivePosture(a) == PolicyComposition.ResolveEffectivePosture(b)
  }

  predicate SameAuthorityRecord(a: Record, b: Record) {
    && a.membershipId == b.membershipId && a.roomId == b.roomId && a.memberRef == b.memberRef
    && a.role == b.role && a.state == b.state && a.revision == b.revision
  }

  /** Exactly when a context prepared in one state is accepted in another. */
  lemma RevalidatedIff(s: RoomState, membership: Record, p: RoomPolicy, request: Request, risk: bool,
                       a: Option<PolicyComposition.PostureSignal>, t: RoomState, m: Record, q: RoomPolicy,
                       decision: Decision, actual: Request, b: Option<PolicyComposition.PostureSignal>)
    requires Prepare(s, membership, p, request, risk, a).Ok?
    ensures Revalidate(Prepare(s, membership, p, request, risk, a).value, t, m, q, decision, actual, b).Pass? <==>
      && SameEnvironment(s, p, a, t, q, b)
      && FindRecord(t.records, m.membershipId).Some?
      && SameAuthorityRecord(FindRecord(s.records, membership.membershipId).value, m)
      && SameRequest(request, actual)
      && Authorizes(decision, actual.sideEffect)
  {
    hide PolicyRevisionOf, PolicyComposition.ResolveEffectivePosture, RecordFrom, EligibleFor;
    StateCurrentIff(s, membership, p, request, risk, a, t, m, q, b);
    hide StateCurrent, SameEnvironment, SameAuthorityRecord;
  }

  lemma StateCurrentIff(s: RoomState, membership: Record, p: RoomPolicy, request: Request, risk: bool,
                        a: Option<PolicyComposition.PostureSignal>, t: RoomState, m: Record, q: RoomPolicy,
                        b: Option<PolicyComposition.PostureSignal>)
    requires Prepare(s, membership, p, request, risk, a).Ok?
    ensures StateCurrent(Prepare(s, membership, p, request, risk, a).value, t, m, q, b).Pass? <==>
      && SameEnvironment(s, p, a, t, q, b)
      && FindRecord(t.records, m.membershipId).Some?
      && SameAuthorityRecord(FindRecord(s.records, membership.membershipId).value, m)
  {
    hide PolicyRevisionOf, PolicyComposition.ResolveEffectivePosture, RecordFrom, EligibleFor;
  }

  /** What was prepared in a state is accepted in that state. */
  lemma PreparedIsCurrent(s: RoomState, membership: Record, p: RoomPolicy, request: Request, risk: bool,
                          signal: Option<PolicyComposition.PostureSignal>, decision: Decision)
    requires Prepare(s, membership, p, request, risk, signal).Ok? && Authorizes(decision, request.sideEffect)
    ensures Revalidate(Prepare(s, membership, p, request, risk, signal).value, s,
                       FindRecord(s.records, membership.membershipId).value, p, decision, request, signal).Pass?
  {
    hide PolicyRevisionOf, PolicyComposition.ResolveEffectivePosture, StateCurrent, OperationBound, EligibleFor;
    RevalidatedIff(s, membership, p, request, risk, signal, s, FindRecord(s.records, membership.membershipId).value,
                   p, decision, request, signal);
  }

  /**
   * The fence never compares the caller's copy with the projection: with a copy
   * kept from preparation time it passes whatever became of the actor's record,
   * as long as some record still has the id.
   */
  lemma RetainedCopyPasses(s: RoomState, membership: Record, p: RoomPolicy, request: Request, risk: bool,
                           signal: Option<PolicyComposition.PostureSignal>, decision: Decision, later: seq<Record>)
    requires Prepare(s, membership, p, request, risk, signal).Ok? && Authorizes(decision, request.sideEffect)
    requires FindRecord(later, membership.membershipId).Some?
    ensures Revalidate(Prepare(s, membership, p, request, risk, signal).value, s.(records := later),
                       FindRecord(s.records, membership.membershipId).value, p, decision, request, signal).Pass?
  {
    hide PolicyComposition.ResolveEffectivePosture, StateCurrent, OperationBound, EligibleFor, Fingerprint;
    RevalidatedIff(s, membership, p, request, risk, signal, s.(records := later),
                   FindRecord(s.records, membership.membershipId).value, p, decision, request, signal);
  }
}
