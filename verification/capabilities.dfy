/** Roles, capability descriptors, their attenuation, and the authorization context. */
module Capabilities {
  import opened Common
  import opened Privacy
  import opened RoomStates
  import ObjectTypes

  datatype CapabilityName =
    | SummaryRead | ObjectList | DetailRead | SearchLocal
    | CreateObject | UpdateObject | RedactObject | ArchiveObject | TombstoneObject
    | MembershipListRedacted | MembershipDetailRedacted
    | AddPlaceholder | ChangeRole | Suspend | Reactivate | RemoveTombstone
    | PolicyTighten | LifecycleUpdate | AuditReadRedacted

  const ALL_CAPABILITIES: set<CapabilityName> :=
    {SummaryRead, ObjectList, DetailRead, SearchLocal, CreateObject, UpdateObject, RedactObject, ArchiveObject,
     TombstoneObject, MembershipListRedacted, MembershipDetailRedacted, AddPlaceholder, ChangeRole, Suspend,
     Reactivate, RemoveTombstone, PolicyTighten, LifecycleUpdate, AuditReadRedacted}

  function RoleCapabilities(role: Role): set<CapabilityName> {
    match role
    case Owner => ALL_CAPABILITIES
    case Editor => {SummaryRead, ObjectList, DetailRead, SearchLocal, CreateObject, UpdateObject, RedactObject,
                    ArchiveObject, TombstoneObject}
    case Viewer => {SummaryRead, ObjectList, DetailRead}
    case Auditor => {SummaryRead, ObjectList, MembershipListRedacted, MembershipDetailRedacted, AuditReadRedacted}
  }

  /** Who may do what: each capability and the roles that have it. */
  lemma RolesHave(role: Role, c: CapabilityName)
    ensures c in RoleCapabilities(role) <==>
      match c
      case SummaryRead | ObjectList => true
      case DetailRead => role != Auditor
      case SearchLocal | CreateObject | UpdateObject | RedactObject | ArchiveObject | TombstoneObject =>
        role == Owner || role == Editor
      case MembershipListRedacted | MembershipDetailRedacted | AuditReadRedacted => role == Owner || role == Auditor
      case _ => role == Owner
  {
  }

  predicate EligibleFor(role: Role, capability: CapabilityName) {
    capability in RoleCapabilities(role)
  }

  // ---- Descriptors ----

  datatype View =
    | RoomSummaryRedacted | RoomSummary | ObjectSummaryRedacted | ObjectSummaryView | DetailRedacted | DetailContent

  datatype Descriptor = Descriptor(
    roomId: Id, memberRef: Id, membershipId: Id, membershipRevision: nat, capability: CapabilityName,
    objectKinds: Option<seq<ObjectTypes.Kind>>, exactObjectId: Option<Id>, maximumView: Option<View>,
    sourceRole: Role)

  function ViewRank(v: View): nat {
    match v
    case RoomSummaryRedacted | ObjectSummaryRedacted => 0
    case RoomSummary | ObjectSummaryView | DetailRedacted => 1
    case DetailContent => 2
  }

  /** Rank within the object family; the other capabilities have none. */
  function ObjectRank(c: CapabilityName): Option<nat> {
    match c
    case SummaryRead => Some(0)
    case ObjectList => Some(1)
    case DetailRead => Some(2)
    case SearchLocal => Some(3)
    case CreateObject | UpdateObject | RedactObject | ArchiveObject | TombstoneObject => Some(4)
    case _ => None
  }

  predicate NarrowerOrEqual(candidate: CapabilityName, parent: CapabilityName) {
    candidate == parent
    || (ObjectRank(candidate).Some? && ObjectRank(parent).Some?
        && ObjectRank(candidate).value <= ObjectRank(parent).value)
  }

  predicate KindsSubset(candidate: Option<seq<ObjectTypes.Kind>>, parent: Option<seq<ObjectTypes.Kind>>) {
    parent.Some? ==> candidate.Some? && forall k <- candidate.value :: k in parent.value
  }

  predicate IsSubset(candidate: Descriptor, parent: Descriptor) {
    && candidate.roomId == parent.roomId && candidate.memberRef == parent.memberRef
    && candidate.membershipId == parent.membershipId && candidate.membershipRevision == parent.membershipRevision
    && candidate.sourceRole == parent.sourceRole
    && NarrowerOrEqual(candidate.capability, parent.capability)
    && KindsSubset(candidate.objectKinds, parent.objectKinds)
    && (parent.exactObjectId.Some? ==> candidate.exactObjectId == parent.exactObjectId)
    && (parent.maximumView.Some? ==>
          candidate.maximumView.Some? && ViewRank(candidate.maximumView.value) <= ViewRank(parent.maximumView.value))
  }

  datatype Narrowing = Narrowing(
    capability: Option<CapabilityName>, objectKinds: Option<seq<ObjectTypes.Kind>>,
    exactObjectId: Option<Id>, maximumView: Option<View>)

  datatype CapabilityError =
    | CapabilityWidening | CapabilityScope | CapabilityStale | CapabilityMismatch | ContextDecisionRejected

  function Attenuate(parent: Descriptor, n: Narrowing): Result<Descriptor, CapabilityError> {
    var candidate := parent.(
      capability := if n.capability.Some? then n.capability.value else parent.capability,
      objectKinds := Given(n.objectKinds, parent.objectKinds),
      exactObjectId := Given(n.exactObjectId, parent.exactObjectId),
      maximumView := Given(n.maximumView, parent.maximumView));
    if IsSubset(candidate, parent) then Ok(candidate) else Err(CapabilityWidening)
  }

  /** A descriptor is bound to the record it was resolved from, at one revision and role. */
  function DescriptorCurrent(d: Descriptor, m: Record): Check<CapabilityError> {
    if d.roomId != m.roomId || d.memberRef != m.memberRef || d.membershipId != m.membershipId then Fail(CapabilityScope)
    else if d.membershipRevision != m.revision || d.sourceRole != m.role then Fail(CapabilityStale)
    else if !m.state.ActiveMember? || !EligibleFor(m.role, d.capability) then Fail(CapabilityStale)
    else Pass
  }

  // ---- Authorization context ----

  datatype AuthorizationContext = AuthorizationContext(membership: Record, capability: Descriptor, decision: Decision)

  datatype Operation = Operation(
    capability: CapabilityName, sideEffect: Scope, roomId: Id, objectId: Option<Id>,
    objectKind: Option<ObjectTypes.Kind>)

  function ContextAuthorizes(context: AuthorizationContext, currentMembership: Record,
                             op: Operation): Check<CapabilityError> {
    var d := context.capability;
    if DescriptorCurrent(d, currentMembership).Fail? then DescriptorCurrent(d, currentMembership)
    else if d.capability != op.capability then Fail(CapabilityMismatch)
    else if d.roomId != op.roomId || currentMembership.roomId != op.roomId then Fail(CapabilityScope)
    else if d.exactObjectId.Some? && d.exactObjectId != op.objectId then Fail(CapabilityScope)
    else if d.objectKinds.Some? && op.objectKind.Some? && op.objectKind.value !in d.objectKinds.value
      then Fail(CapabilityScope)
    else if !Authorizes(context.decision, op.sideEffect) then Fail(ContextDecisionRejected)
    else Pass
  }

  // ---- Resolution ----

  const MUTATION_CAPABILITIES: set<CapabilityName> :=
    {CreateObject, UpdateObject, RedactObject, ArchiveObject, TombstoneObject,
     AddPlaceholder, ChangeRole, Suspend, Reactivate, RemoveTombstone, PolicyTighten, LifecycleUpdate}

  const BUNKER_CAPABILITIES: set<CapabilityName> :=
    {SummaryRead, ObjectList, MembershipListRedacted, MembershipDetailRedacted, AuditReadRedacted}

  /** Role eligibility is necessary; mode, room policy and device risk can only take away. */
  function ResolveLocalCapability(m: Record, capability: CapabilityName, mode: PrivacyMode, allowMutation: bool,
                                  criticalDeviceRisk: bool, objectKind: Option<ObjectTypes.Kind>,
                                  objectId: Option<Id>, view: Option<View>): (r: Option<Descriptor>)
    ensures r.Some? <==>
      && m.state.ActiveMember? && EligibleFor(m.role, capability) && !mode.Emergency?
      && (mode.Bunker? ==> capability in BUNKER_CAPABILITIES)
      && (capability in MUTATION_CAPABILITIES ==> allowMutation && !criticalDeviceRisk)
    ensures r.Some? ==> DescriptorCurrent(r.value, m).Pass? && r.value.capability == capability
    ensures r.Some? ==>
      && r.value.exactObjectId == objectId && r.value.maximumView == view
      && r.value.objectKinds == if objectKind.Some? then Some([objectKind.value]) else None
  {
    if !m.state.ActiveMember? || !EligibleFor(m.role, capability) || mode.Emergency? then None
    else if mode.Bunker? && capability !in BUNKER_CAPABILITIES then None
    else if capability in MUTATION_CAPABILITIES && (!allowMutation || criticalDeviceRisk) then None
    else Some(Descriptor(m.roomId, m.memberRef, m.membershipId, m.revision, capability,
                         if objectKind.Some? then Some([objectKind.value]) else None, objectId, view, m.role))
  }

  /** Reading survives in bunker mode only redacted, and all that changes the room needs its permission. */
  lemma ModeListsAre(c: CapabilityName)
    ensures c in BUNKER_CAPABILITIES <==>
      c.SummaryRead? || c.ObjectList? || c.MembershipListRedacted? || c.MembershipDetailRedacted?
        || c.AuditReadRedacted?
    ensures c !in MUTATION_CAPABILITIES <==>
      c in BUNKER_CAPABILITIES || c.DetailRead? || c.SearchLocal?
  {
  }

  /** Exactly what a context authorizes. */
  lemma ContextAuthorizesIff(context: AuthorizationContext, m: Record, op: Operation)
    ensures var d, decision := context.capability, context.decision;
      ContextAuthorizes(context, m, op).Pass? <==>
        && d.capability == op.capability && d.roomId == m.roomId == op.roomId
        && d.memberRef == m.memberRef && d.membershipId == m.membershipId && d.membershipRevision == m.revision
        && d.sourceRole == m.role && m.state == ActiveMember && d.capability in RoleCapabilities(m.role)
        && (d.exactObjectId == None || d.exactObjectId == op.objectId)
        && (d.objectKinds == None || op.objectKind == None || op.objectKind.value in d.objectKinds.value)
        && decision.authentic && decision.allowed && decision.capability == Persistence
        && decision.sideEffect == op.sideEffect
  {
    hide RoleCapabilities;
  }

  /** Exactly when a narrowing is no widening, and what it gives. */
  lemma AttenuatesIff(parent: Descriptor, n: Narrowing)
    ensures Attenuate(parent, n).Ok? <==>
      && (n.capability.None? || n.capability.value == parent.capability || Lower(n.capability.value, parent.capability))
      && (n.objectKinds.None? || parent.objectKinds.None?
          || forall k <- n.objectKinds.value :: k in parent.objectKinds.value)
      && (n.exactObjectId.None? || parent.exactObjectId.None? || n.exactObjectId == parent.exactObjectId)
      && (n.maximumView.None? || parent.maximumView.None? || NoWiderView(n.maximumView.value, parent.maximumView.value))
    ensures Attenuate(parent, n).Ok? ==>
      var d := Attenuate(parent, n).value;
      && d.capability == (if n.capability.Some? then n.capability.value else parent.capability)
      && d.objectKinds == (if n.objectKinds.Some? then n.objectKinds else parent.objectKinds)
      && d.exactObjectId == (if n.exactObjectId.Some? then n.exactObjectId else parent.exactObjectId)
      && d.maximumView == (if n.maximumView.Some? then n.maximumView else parent.maximumView)
      && d.roomId == parent.roomId && d.memberRef == parent.memberRef && d.membershipId == parent.membershipId
      && d.membershipRevision == parent.membershipRevision && d.sourceRole == parent.sourceRole
  {
  }

  /** The object family: summaries below lists below details below search below the mutations, which are level. */
  predicate Lower(a: CapabilityName, b: CapabilityName) {
    match b
    case SummaryRead => a.SummaryRead?
    case ObjectList => a.SummaryRead? || a.ObjectList?
    case DetailRead => a.SummaryRead? || a.ObjectList? || a.DetailRead?
    case SearchLocal => a.SummaryRead? || a.ObjectList? || a.DetailRead? || a.SearchLocal?
    case CreateObject | UpdateObject | RedactObject | ArchiveObject | TombstoneObject =>
      || a.SummaryRead? || a.ObjectList? || a.DetailRead? || a.SearchLocal?
      || a.CreateObject? || a.UpdateObject? || a.RedactObject? || a.ArchiveObject? || a.TombstoneObject?
    case _ => false
  }

  /** Content is above plain summaries and redacted details, which are above redacted summaries. */
  predicate NoWiderView(a: View, b: View) {
    match b
    case DetailContent => true
    case RoomSummary | ObjectSummaryView | DetailRedacted => a != DetailContent
    case RoomSummaryRedacted | ObjectSummaryRedacted => a == RoomSummaryRedacted || a == ObjectSummaryRedacted
  }

  // ---- Attenuation chains ----

  lemma SubsetIsPreorder(a: Descriptor, b: Descriptor, c: Descriptor)
    ensures IsSubset(a, a)
    ensures IsSubset(a, b) && IsSubset(b, c) ==> IsSubset(a, c)
  {
  }

  /** It is no partial order: the five mutation capabilities attenuate into each other. */
  lemma SubsetIsNotAntisymmetric(d: Descriptor)
    ensures var c, t := d.(capability := CreateObject), d.(capability := TombstoneObject);
      c != t && IsSubset(c, t) && IsSubset(t, c)
  {
  }

  /** Two descriptors are mutual subsets exactly when they agree but for kinds listed alike and equal ranks. */
  lemma MutualSubsetIff(a: Descriptor, b: Descriptor)
    ensures IsSubset(a, b) && IsSubset(b, a) <==>
      && a.roomId == b.roomId && a.memberRef == b.memberRef && a.membershipId == b.membershipId
      && a.membershipRevision == b.membershipRevision && a.sourceRole == b.sourceRole
      && (a.capability == b.capability || (ObjectRank(a.capability) == ObjectRank(b.capability) == Some(4)))
      && (a.objectKinds.Some? <==> b.objectKinds.Some?)
      && (a.objectKinds.Some? ==> forall k :: k in a.objectKinds.value <==> k in b.objectKinds.value)
      && a.exactObjectId == b.exactObjectId
      && (a.maximumView.Some? <==> b.maximumView.Some?)
      && (a.maximumView.Some? ==> ViewRank(a.maximumView.value) == ViewRank(b.maximumView.value))
  {
  }

  /** Every role's capabilities are closed under the narrowing the attenuation allows. */
  lemma RolesAreDownwardClosed(role: Role, candidate: CapabilityName, parent: CapabilityName)
    requires EligibleFor(role, parent) && NarrowerOrEqual(candidate, parent)
    ensures EligibleFor(role, candidate)
  {
  }

  /** Applying a list of attenuations one after the other. */
  function AttenuateAll(root: Descriptor, ns: seq<Narrowing>): Result<Descriptor, CapabilityError> {
    if ns == [] then Ok(root)
    else
      var d :- AttenuateAll(root, ns[..|ns| - 1]);
      Attenuate(d, ns[|ns| - 1])
  }

  /** A chain of any length stays below its root, and is current whenever the root is. */
  lemma {:induction false} ChainStaysBelowRoot(root: Descriptor, ns: seq<Narrowing>, m: Record)
    requires AttenuateAll(root, ns).Ok?
    ensures IsSubset(AttenuateAll(root, ns).value, root)
    ensures DescriptorCurrent(root, m).Pass? ==> DescriptorCurrent(AttenuateAll(root, ns).value, m).Pass?
  {
    if ns != [] {
      ChainStaysBelowRoot(root, ns[..|ns| - 1], m);
      var before := AttenuateAll(root, ns[..|ns| - 1]).value;
      SubsetIsPreorder(AttenuateAll(root, ns).value, before, root);
    }
    if DescriptorCurrent(root, m).Pass? {
      RolesAreDownwardClosed(m.role, AttenuateAll(root, ns).value.capability, root.capability);
    }
  }

  /** With the same capability, whatever the narrowed descriptor authorizes its root authorizes. */
  lemma ChainNeverAddsAuthority(root: Descriptor, ns: seq<Narrowing>, held: Record, decision: Decision, m: Record,
                                op: Operation)
    requires AttenuateAll(root, ns).Ok? && AttenuateAll(root, ns).value.capability == root.capability
    requires ContextAuthorizes(AuthorizationContext(held, AttenuateAll(root, ns).value, decision), m, op).Pass?
    ensures ContextAuthorizes(AuthorizationContext(held, root, decision), m, op).Pass?
  {
    ChainStaysBelowRoot(root, ns, m);
  }

  /** Given that the end of a chain authorizes something, its root does too exactly when the capability is unchanged. */
  lemma ChainAuthorityIff(root: Descriptor, ns: seq<Narrowing>, held: Record, decision: Decision, m: Record,
                          op: Operation)
    requires AttenuateAll(root, ns).Ok?
    requires ContextAuthorizes(AuthorizationContext(held, AttenuateAll(root, ns).value, decision), m, op).Pass?
    ensures ContextAuthorizes(AuthorizationContext(held, root, decision), m, op).Pass? <==>
      AttenuateAll(root, ns).value.capability == root.capability
  {
    if AttenuateAll(root, ns).value.capability == root.capability {
      ChainNeverAddsAuthority(root, ns, held, decision, m, op);
    }
  }

  /**
   * Attenuation can add authority: from a current descriptor of an object
   * capability one attenuation step reaches every other one of at most its rank,
   * and authorizes what the root does not, such as a tombstone from a create.
   */
  lemma SidewaysAuthority(root: Descriptor, c: CapabilityName, m: Record, op: Operation, decision: Decision)
    requires DescriptorCurrent(root, m).Pass? && c != root.capability && NarrowerOrEqual(c, root.capability)
    requires op.capability == c && op.roomId == m.roomId && Authorizes(decision, op.sideEffect)
    requires root.exactObjectId.Some? ==> root.exactObjectId == op.objectId
    requires root.objectKinds.Some? && op.objectKind.Some? ==> op.objectKind.value in root.objectKinds.value
    ensures var end := Attenuate(root, Narrowing(Some(c), None, None, None));
      && end.Ok?
      && ContextAuthorizes(AuthorizationContext(m, end.value, decision), m, op).Pass?
      && ContextAuthorizes(AuthorizationContext(m, root, decision), m, op).Fail?
  {
    RolesAreDownwardClosed(m.role, c, root.capability);
    hide EligibleFor;
  }

  /** The instance an editor meets: a descriptor to create, narrowed to one to tombstone. */
  lemma CreateAttenuatesToTombstone(m: Record, objectId: Id)
    requires m.state.ActiveMember? && (m.role.Editor? || m.role.Owner?)
    ensures
      var root := Descriptor(m.roomId, m.memberRef, m.membershipId, m.revision, CreateObject, None, None, None, m.role);
      var end := Attenuate(root, Narrowing(Some(TombstoneObject), None, None, None));
      var op := Operation(TombstoneObject, ObjectTombstone, m.roomId, Some(objectId), None);
      var decision := Decision(true, Persistence, ObjectTombstone, true);
      && end.Ok?
      && ContextAuthorizes(AuthorizationContext(m, end.value, decision), m, op).Pass?
      && ContextAuthorizes(AuthorizationContext(m, root, decision), m, op).Fail?
  {
    var root := Descriptor(m.roomId, m.memberRef, m.membershipId, m.revision, CreateObject, None, None, None, m.role);
    SidewaysAuthority(root, TombstoneObject, m,
                      Operation(TombstoneObject, ObjectTombstone, m.roomId, Some(objectId), None),
                      Decision(true, Persistence, ObjectTombstone, true));
  }
}
