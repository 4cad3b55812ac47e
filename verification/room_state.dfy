/** The materialized room state, membership records included. */
module RoomStates {
  import opened Common
  import opened Privacy
  import PolicyDocuments

  datatype RoomKind = Conversation | Workspace | CapsuleRoom | DecisionRoom | ProjectRoom | UnknownKind

  datatype RoomLifecycle =
    | DraftRoom | ActiveRoom | SealedRoom | ArchivedRoom | EmergencyLocked | TombstonedRoom | UnknownLifecycle

  datatype RoomPolicy = RoomPolicy(
    allowLocalContentMutation: bool, allowPersistentProjection: bool, allowOperationLogPersistence: bool,
    allowNetworkSync: bool, allowMetadataSignals: bool, allowNotifications: bool, allowLocalAi: bool,
    redactTitles: bool)

  datatype Role = Owner | Editor | Viewer | Auditor

  datatype MembershipState = ActiveMember | SuspendedMember | RemovedMember

  datatype Origin = RoomBootstrap | AddedPlaceholder

  datatype Record = Record(
    membershipId: Id, roomId: Id, memberRef: Id, role: Role, state: MembershipState, revision: nat,
    origin: Origin, createdAtLocal: string, updatedAtLocal: string)

  datatype MemberSummary = MemberSummary(ref: Id, role: string)

  datatype ObjectSummary = ObjectSummary(id: Id, kind: string)

  datatype RoomState = RoomState(
    roomId: Id, kind: RoomKind, lifecycle: RoomLifecycle, mode: PrivacyMode,
    titleRedacted: bool, title: Option<string>, members: seq<MemberSummary>, objects: seq<ObjectSummary>,
    records: seq<Record>, policyRevision: Option<nat>, policyDocument: Option<PolicyDocuments.PolicyDocument>,
    lastLocalUpdateAt: Option<string>, policy: RoomPolicy)

  /** Position of the record with this membership id, or -1. */
  function RecordFrom(records: seq<Record>, id: Id, from: nat): (r: int)
    requires from <= |records|
    ensures r == -1 || from <= r < |records|
    ensures r >= 0 ==> records[r].membershipId == id
    ensures forall k :: from <= k < (if r >= 0 then r else |records|) ==> records[k].membershipId != id
    decreases |records| - from
  {
    if from == |records| then -1
    else if records[from].membershipId == id then from
    else RecordFrom(records, id, from + 1)
  }

  function RecordIndex(records: seq<Record>, id: Id): int {
    RecordFrom(records, id, 0)
  }

  function FindRecord(records: seq<Record>, id: Id): Option<Record> {
    var i := RecordIndex(records, id);
    if i >= 0 then Some(records[i]) else None
  }
}
