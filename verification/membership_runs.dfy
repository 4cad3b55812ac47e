/** Properties of every run of membership mutations. */
module MembershipRuns {
  import opened Common
  import opened Privacy
  import opened EventLogs
  import opened RoomStates
  import opened Capabilities
  import opened Membership

  datatype World = World(state: RoomState, log: LogState<Event>)

  /** A failing call leaves the caller's state; its log may have grown all the same. */
  function Next(matrix: Matrix, logRoom: Id, w: World, input: Input): World {
    var s := Step(matrix, w.state, logRoom, w.log, input);
    World(if s.result.Ok? then w.state.(records := s.result.value) else w.state, s.log)
  }

  function At(matrix: Matrix, logRoom: Id, start: World, inputs: seq<Input>, k: nat): World
    requires k <= |inputs|
  {
    if k == 0 then start else Next(matrix, logRoom, At(matrix, logRoom, start, inputs, k - 1), inputs[k - 1])
  }

  predicate AcceptedAt(matrix: Matrix, logRoom: Id, start: World, inputs: seq<Input>, k: nat)
    requires k < |inputs|
  {
    var w := At(matrix, logRoom, start, inputs, k);
    Step(matrix, w.state, logRoom, w.log, inputs[k]).result.Ok?
  }

  // ---- What one accepted call does ----

  ghost predicate Changes(state: RoomState, records: seq<Record>, input: Input) {
    var p, earlier, now := input.command.payload, state.records, LocalLabel(input.now);
    && input.command.roomId == state.roomId
    && CheckAuthority(state, input).Pass?
    && if p.IsCreation() then
         && input.membershipId.Some? && RecordIndex(earlier, input.membershipId.value) == -1
         && !HasActiveRecord(earlier, state.roomId, p.memberRef)
         && records == earlier + [BuildResultingMembership(None, input.command, input.membershipId.value, now).value]
       else
         var i := RecordIndex(earlier, p.membershipId);
         && i >= 0 && p.expectedRevision == earlier[i].revision
         && KeepsAnOwner(earlier, Some(earlier[i]), p)
         && UpdatedRecord(earlier[i], p, now).Ok?
         && records == earlier[i := UpdatedRecord(earlier[i], p, now).value]
  }

  lemma AcceptedChanges(matrix: Matrix, state: RoomState, logRoom: Id, log: LogState<Event>, input: Input)
    requires Step(matrix, state, logRoom, log, input).result.Ok?
    ensures Changes(state, Step(matrix, state, logRoom, log, input).result.value, input)
  {
    hide LogAppend;
  }

  /** The capability each command asks for; a bootstrap asks for none. */
  predicate Asks(p: Payload, c: CapabilityName) {
    || (p.AddMember? && c.AddPlaceholder?)
    || (p.ChangeMemberRole? && c.ChangeRole?)
    || (p.SuspendMember? && c.Suspend?)
    || (p.ReactivateMember? && c.Reactivate?)
    || (p.RemoveMember? && c.RemoveTombstone?)
  }

  /** An issued, allowed decision for just this command. */
  predicate DecidedFor(d: Decision, p: Payload) {
    && d.authentic && d.allowed && d.capability.Persistence?
    && match d.sideEffect
       case MembershipBootstrap => p.BootstrapOwner?
       case MembershipAdd => p.AddMember?
       case MembershipChangeRole => p.ChangeMemberRole?
       case MembershipSuspend => p.SuspendMember?
       case MembershipReactivate => p.ReactivateMember?
       case MembershipRemove => p.RemoveMember?
       case _ => false
  }

  /** The member with this id has a record in the room, and it is active there. */
  predicate ActiveIn(records: seq<Record>, id: Id) {
    RecordIndex(records, id) >= 0 && records[RecordIndex(records, id)].state.ActiveMember?
  }

  /**
   * What a caller must bring: for a bootstrap a decision and an empty room; for
   * the rest a descriptor of the command's capability, current for the record in
   * the context, a decision, and a member who is active in the room.
   */
  predicate HoldsAuthority(state: RoomState, input: Input) {
    var p := input.command.payload;
    if p.BootstrapOwner? then
      input.bootstrapDecision.Some? && DecidedFor(input.bootstrapDecision.value, p) && state.records == []
    else
      && input.authorization.Some?
      && var m, d := input.authorization.value.membership, input.authorization.value.capability;
      && Asks(p, d.capability) && d.capability in RoleCapabilities(m.role) && d.exactObjectId.None?
      && d.roomId == m.roomId == state.roomId && d.memberRef == m.memberRef && d.membershipId == m.membershipId
      && d.membershipRevision == m.revision && d.sourceRole == m.role && m.state.ActiveMember?
      && DecidedFor(input.authorization.value.decision, p)
      && ActiveIn(state.records, m.membershipId)
  }

  /** The authority check of the pipeline is that. */
  lemma AuthorityIff(state: RoomState, input: Input)
    ensures CheckAuthority(state, input).Pass? <==> HoldsAuthority(state, input)
  {
    hide RecordFrom, RoleCapabilities;
  }

  /** Exactly when a call is accepted, independently of the order of the checks. */
  lemma AcceptedIff(matrix: Matrix, state: RoomState, logRoom: Id, log: LogState<Event>, input: Input)
    ensures Step(matrix, state, logRoom, log, input).result.Ok? <==>
      var p, records := input.command.payload, state.records;
      && input.command.roomId == state.roomId
      && MembershipPolicyAllows(input.command.mode, p, input.roomPolicy.allowLocalContentMutation)
      && matrix(MatrixOperationOf(p), input.command.mode) == MemoryOnly
      && HoldsAuthority(state, input) && Authorizes(input.storageDecision, MembershipLogAppend)
      && if p.IsCreation() then
           && input.membershipId.Some? && RecordIndex(records, input.membershipId.value) == -1
           && !HasActiveRecord(records, state.roomId, p.memberRef) && logRoom == state.roomId
         else
           var i := RecordIndex(records, p.membershipId);
           && i >= 0 && records[i].revision == p.expectedRevision && p.expectedRevision + 1 < 0x1F_FFFF_FFFF_FFFF
           && records[i].roomId == logRoom
           && KeepsAnOwner(records, Some(records[i]), p)
           && (p.ChangeMemberRole? ==> records[i].state.ActiveMember?)
           && (p.SuspendMember? ==> records[i].state.ActiveMember?)
           && (p.ReactivateMember? ==> records[i].state.SuspendedMember?)
           && (p.RemoveMember? ==> !records[i].state.RemovedMember?)
  {
    var p := input.command.payload;
    if state.records == [] {
      assert forall id :: RecordIndex(state.records, id) == -1;
      assert forall room, ref :: !HasActiveRecord(state.records, room, ref);
    }
    AuthorityIff(state, input);
    assert p.BootstrapOwner? && CheckAuthority(state, input).Pass? ==> state.records == [];
    hide HoldsAuthority, CheckAuthority, KeepsAnOwner, MembershipPolicyAllows, HasActiveRecord, RecordFrom, ReduceEvent,
      MatrixOperationOf, ScopeOf, CapabilityOf, Authorizes;
    if Guard(matrix, state, input).Pass? {
      var prepared := PrepareEvent(matrix, state, NextSequence(log), input);
      if prepared.Ok? && AppendPrepared(matrix, state, logRoom, log, input).Ok? {
        AppendedThenFailsIffCollidingAdd(matrix, state, logRoom, log, input);
      }
    }
  }

  /** What each accepted command leaves: one record changed or added, with role and state as commanded. */
  lemma AcceptedEffect(state: RoomState, records: seq<Record>, input: Input)
    requires Changes(state, records, input)
    ensures var p, earlier := input.command.payload, state.records;
      if p.IsCreation() then
        && |records| == |earlier| + 1 && records[..|earlier|] == earlier
        && var r := records[|earlier|];
        && Some(r.membershipId) == input.membershipId
        && r.memberRef == p.memberRef && r.roomId == state.roomId && r.state.ActiveMember? && r.revision == 1
        && r.createdAtLocal == r.updatedAtLocal == LocalLabel(input.now)
        && (p.BootstrapOwner? ==> earlier == [] && r.role.Owner? && r.origin.RoomBootstrap?)
        && (p.AddMember? ==> r.role == p.role && r.origin.AddedPlaceholder?)
      else
        var i := RecordIndex(earlier, p.membershipId);
        && 0 <= i < |earlier| == |records|
        && (forall k :: 0 <= k < |earlier| && k != i ==> records[k] == earlier[k])
        && records[i].revision == p.expectedRevision + 1 && records[i].updatedAtLocal == LocalLabel(input.now)
        && (p.ChangeMemberRole? ==>
            records[i].role == p.newRole && earlier[i].state.ActiveMember? && records[i].state.ActiveMember?)
        && (!p.ChangeMemberRole? ==> records[i].role == earlier[i].role)
        && records[i] == earlier[i].(role := records[i].role, state := records[i].state,
                                     revision := records[i].revision, updatedAtLocal := records[i].updatedAtLocal)
        && (p.SuspendMember? ==> earlier[i].state.ActiveMember? && records[i].state.SuspendedMember?)
        && (p.ReactivateMember? ==> earlier[i].state.SuspendedMember? && records[i].state.ActiveMember?)
        && (p.RemoveMember? ==> !earlier[i].state.RemovedMember? && records[i].state.RemovedMember?)
  {
    hide KeepsAnOwner, HasActiveRecord, ContextAuthorizes;
  }

  // ---- Failure after the append ----

  /** An add whose id is taken, or whose member already has an active record. */
  predicate CollidingAdd(state: RoomState, input: Input) {
    && input.command.payload.AddMember? && input.membershipId.Some?
    && (RecordIndex(state.records, input.membershipId.value) >= 0
        || HasActiveRecord(state.records, state.roomId, input.command.payload.memberRef))
  }

  /** Once the append went through, the call fails exactly for a colliding add. */
  lemma AppendedThenFailsIffCollidingAdd(matrix: Matrix, state: RoomState, logRoom: Id, log: LogState<Event>,
                                         input: Input)
    requires AppendPrepared(matrix, state, logRoom, log, input).Ok?
    ensures Step(matrix, state, logRoom, log, input).result.Err? <==> CollidingAdd(state, input)
  {
    hide LogAppend;
  }

  /** A failing call changes the log exactly when it is a colliding add that got as far as the append. */
  lemma FailureAtomicityCharacterised(matrix: Matrix, state: RoomState, logRoom: Id, log: LogState<Event>, input: Input)
    requires Step(matrix, state, logRoom, log, input).result.Err?
    ensures Step(matrix, state, logRoom, log, input).log != log <==>
      AppendPrepared(matrix, state, logRoom, log, input).Ok? && CollidingAdd(state, input)
  {
    if AppendPrepared(matrix, state, logRoom, log, input).Ok? {
      AppendedThenFailsIffCollidingAdd(matrix, state, logRoom, log, input);
      AppendedLog(matrix, state, logRoom, log, input);
    }
  }

  lemma AppendedLog(matrix: Matrix, state: RoomState, logRoom: Id, log: LogState<Event>, input: Input)
    requires AppendPrepared(matrix, state, logRoom, log, input).Ok?
    ensures var event := PrepareEvent(matrix, state, NextSequence(log), input).value;
      && event.localSequence == NextSequence(log)
      && AppendPrepared(matrix, state, logRoom, log, input).value ==
           if log.MemoryLog? then MemoryLog(log.events + [event]) else NullLog(NextSequence(log))
  {
    hide Guard, BuildResultingMembership;
  }

  /** The call changed the log and failed. */
  predicate StrayAppend(matrix: Matrix, logRoom: Id, w: World, input: Input) {
    var s := Step(matrix, w.state, logRoom, w.log, input);
    s.result.Err? && s.log != w.log
  }

  predicate StrayAppendAt(matrix: Matrix, logRoom: Id, start: World, inputs: seq<Input>, k: nat)
    requires k < |inputs|
  {
    StrayAppend(matrix, logRoom, At(matrix, logRoom, start, inputs, k), inputs[k])
  }

  /** One more call, in terms of the world before it. */
  lemma AtStep(matrix: Matrix, logRoom: Id, start: World, inputs: seq<Input>, k: nat)
    requires k < |inputs|
    ensures At(matrix, logRoom, start, inputs, k + 1) ==
      Next(matrix, logRoom, At(matrix, logRoom, start, inputs, k), inputs[k])
    ensures StrayAppendAt(matrix, logRoom, start, inputs, k) <==>
      StrayAppend(matrix, logRoom, At(matrix, logRoom, start, inputs, k), inputs[k])
    ensures var w := At(matrix, logRoom, start, inputs, k);
      AcceptedAt(matrix, logRoom, start, inputs, k) <==> Step(matrix, w.state, logRoom, w.log, inputs[k]).result.Ok?
  {
    hide Step, Next, StrayAppend;
  }

  predicate EmptyStart(start: World) {
    start.state.records == [] && start.log == MemoryLog([])
  }

  /** A memory log whose events are numbered from one; replay accepts their order. */
  predicate Numbered(log: LogState<Event>) {
    log.MemoryLog? && forall i :: 0 <= i < |log.events| ==> log.events[i].localSequence == i + 1
  }

  predicate ReplaysTo(log: LogState<Event>, records: seq<Record>) {
    log.MemoryLog? && Contiguous(log.events) && Fold(ReduceEvent, [], log.events) == Ok(records)
  }

  predicate ReplayFails(log: LogState<Event>) {
    log.MemoryLog? && Fold(ReduceEvent, [], log.events).Err?
  }

  lemma NextReplays(matrix: Matrix, logRoom: Id, w: World, input: Input)
    requires Numbered(w.log)
    ensures var w' := Next(matrix, logRoom, w, input);
      && Numbered(w'.log)
      && (ReplayFails(w.log) ==> ReplayFails(w'.log))
      && (ReplaysTo(w.log, w.state.records) ==>
            if StrayAppend(matrix, logRoom, w, input) then ReplayFails(w'.log) else ReplaysTo(w'.log, w'.state.records))
  {
    var s := Step(matrix, w.state, logRoom, w.log, input);
    if AppendPrepared(matrix, w.state, logRoom, w.log, input).Ok? {
      AppendedLog(matrix, w.state, logRoom, w.log, input);
      hide AppendPrepared, PrepareEvent, ReduceEvent;
      assert s.log.events[..|s.log.events| - 1] == w.log.events;
    }
  }

  /**
   * Replaying the log gives the live records exactly when no call of the run so
   * far was a stray append; after one, replay fails for good.
   */
  lemma {:induction false} ReplayGivesLiveIffNoStrayAppend(matrix: Matrix, logRoom: Id, start: World,
                                                           inputs: seq<Input>, k: nat)
    requires k <= |inputs| && EmptyStart(start)
    ensures var w := At(matrix, logRoom, start, inputs, k);
      && Numbered(w.log)
      && if forall j :: 0 <= j < k ==> !StrayAppendAt(matrix, logRoom, start, inputs, j)
         then ReplaysTo(w.log, w.state.records)
         else ReplayFails(w.log)
  {
    if k == 0 {
      hide StrayAppendAt, Next;
    } else {
      hide *;
      ReplayGivesLiveIffNoStrayAppend(matrix, logRoom, start, inputs, k - 1);
      var w := At(matrix, logRoom, start, inputs, k - 1);
      NextReplays(matrix, logRoom, w, inputs[k - 1]);
      AtStep(matrix, logRoom, start, inputs, k - 1);
    }
  }

  // ---- What later records keep of earlier ones ----

  ghost predicate RecordEvolves(a: Record, b: Record) {
    && a.membershipId == b.membershipId && a.roomId == b.roomId && a.memberRef == b.memberRef
    && a.origin == b.origin && a.createdAtLocal == b.createdAtLocal
    && a.revision <= b.revision
    && (a.revision == b.revision ==> a == b)
    && (a.state.RemovedMember? ==> a == b)
  }

  ghost predicate RecordsEvolve(a: seq<Record>, b: seq<Record>) {
    |a| <= |b| && forall i :: 0 <= i < |a| ==> RecordEvolves(a[i], b[i])
  }

  lemma RecordsEvolveTransitive(a: seq<Record>, b: seq<Record>, c: seq<Record>)
    requires RecordsEvolve(a, b) && RecordsEvolve(b, c)
    ensures RecordsEvolve(a, c)
  {
    forall i | 0 <= i < |a| ensures RecordEvolves(a[i], c[i]) {
      assert RecordEvolves(a[i], b[i]) && RecordEvolves(b[i], c[i]);
    }
  }

  lemma ChangesEvolve(state: RoomState, records: seq<Record>, input: Input)
    requires Changes(state, records, input)
    ensures RecordsEvolve(state.records, records)
  {
    hide CheckAuthority, KeepsAnOwner, HasActiveRecord;
  }

  lemma NextEvolves(matrix: Matrix, logRoom: Id, w: World, input: Input)
    ensures RecordsEvolve(w.state.records, Next(matrix, logRoom, w, input).state.records)
    ensures Next(matrix, logRoom, w, input).state == w.state.(records := Next(matrix, logRoom, w, input).state.records)
  {
    if Step(matrix, w.state, logRoom, w.log, input).result.Ok? {
      AcceptedChanges(matrix, w.state, logRoom, w.log, input);
      ChangesEvolve(w.state, Step(matrix, w.state, logRoom, w.log, input).result.value, input);
    }
  }

  /** Over any run records are never dropped, change only with a larger revision, and freeze at tombstone. */
  lemma {:induction false} RunEvolves(matrix: Matrix, logRoom: Id, start: World, inputs: seq<Input>, i: nat, j: nat)
    requires i <= j <= |inputs|
    ensures RecordsEvolve(At(matrix, logRoom, start, inputs, i).state.records,
                          At(matrix, logRoom, start, inputs, j).state.records)
    decreases j
  {
    hide Next, Step;
    if i < j {
      RunEvolves(matrix, logRoom, start, inputs, i, j - 1);
      var before := At(matrix, logRoom, start, inputs, j - 1);
      NextEvolves(matrix, logRoom, before, inputs[j - 1]);
      RecordsEvolveTransitive(At(matrix, logRoom, start, inputs, i).state.records, before.state.records,
                              At(matrix, logRoom, start, inputs, j).state.records);
    }
  }

  // ---- Owner continuity ----

  ghost predicate Governed(state: RoomState) {
    && (forall i, j :: 0 <= i < j < |state.records| ==> state.records[i].membershipId != state.records[j].membershipId)
    && (forall r <- state.records :: r.roomId == state.roomId && 1 <= r.revision <= MAX_REVISION)
    && (state.records != [] ==> CountActiveOwners(state.records) >= 1)
  }

  function OwnerWeight(r: Record): nat {
    if ActiveOwner(r) then 1 else 0
  }

  lemma {:induction false} CountAfterUpdate(records: seq<Record>, i: nat, r: Record)
    requires i < |records|
    ensures CountActiveOwners(records[i := r]) == CountActiveOwners(records) - OwnerWeight(records[i]) + OwnerWeight(r)
  {
    var n := |records| - 1;
    if i < n {
      CountAfterUpdate(records[..n], i, r);
      assert records[i := r][..n] == records[..n][i := r];
    } else {
      assert records[i := r][..n] == records[..n];
    }
  }

  lemma ChangesKeepOwner(state: RoomState, records: seq<Record>, input: Input)
    requires Changes(state, records, input) && (state.records != [] ==> CountActiveOwners(state.records) >= 1)
    ensures CountActiveOwners(records) >= 1
  {
    var p := input.command.payload;
    if p.IsCreation() {
      assert records[..|records| - 1] == state.records;
      assert p.AddMember? ==> state.records != [];
    } else {
      var i := RecordIndex(state.records, p.membershipId);
      CountAfterUpdate(state.records, i, records[i]);
    }
  }

  /** One record is appended under a new id, or one keeps its identity at the next revision. */
  predicate OneRecordChanges(state: RoomState, records: seq<Record>) {
    var earlier := state.records;
    || (|records| == |earlier| + 1 && records[..|earlier|] == earlier
        && RecordIndex(earlier, records[|earlier|].membershipId) == -1
        && records[|earlier|].roomId == state.roomId && records[|earlier|].revision == 1)
    || exists i :: 0 <= i < |earlier| && |records| == |earlier| && records == earlier[i := records[i]]
         && records[i].membershipId == earlier[i].membershipId && records[i].roomId == earlier[i].roomId
         && records[i].revision == earlier[i].revision + 1 <= MAX_REVISION
  }

  lemma ChangesOneRecord(state: RoomState, records: seq<Record>, input: Input)
    requires Changes(state, records, input)
    ensures OneRecordChanges(state, records)
  {
    hide CheckAuthority, KeepsAnOwner, HasActiveRecord;
    var p := input.command.payload;
    if p.IsCreation() {
      assert records[..|state.records|] == state.records;
    } else {
      var i := RecordIndex(state.records, p.membershipId);
      assert records == state.records[i := records[i]];
    }
  }

  lemma ChangesGoverned(state: RoomState, records: seq<Record>, input: Input)
    requires Changes(state, records, input) && Governed(state)
    ensures Governed(state.(records := records))
  {
    ChangesKeepOwner(state, records, input);
    ChangesOneRecord(state, records, input);
    hide Changes, CountActiveOwners;
  }

  lemma NextGoverned(matrix: Matrix, logRoom: Id, w: World, input: Input)
    requires Governed(w.state)
    ensures Governed(Next(matrix, logRoom, w, input).state)
  {
    var s := Step(matrix, w.state, logRoom, w.log, input);
    if s.result.Ok? {
      AcceptedChanges(matrix, w.state, logRoom, w.log, input);
      hide Step, Changes, Governed;
      ChangesGoverned(w.state, s.result.value, input);
    }
  }

  /** Every reachable room is empty or has an active owner, with unique membership ids. */
  lemma {:induction false} OwnerContinuity(matrix: Matrix, logRoom: Id, start: World, inputs: seq<Input>, k: nat)
    requires k <= |inputs| && start.state.records == []
    ensures Governed(At(matrix, logRoom, start, inputs, k).state)
  {
    if k == 0 {
      hide CountActiveOwners, Next;
    } else {
      hide *;
      OwnerContinuity(matrix, logRoom, start, inputs, k - 1);
      AtStep(matrix, logRoom, start, inputs, k - 1);
      NextGoverned(matrix, logRoom, At(matrix, logRoom, start, inputs, k - 1), inputs[k - 1]);
    }
  }

  /** A call is a bootstrap if and only if it is the first accepted call of the run. */
  lemma BootstrapIsFirstAndOnly(matrix: Matrix, logRoom: Id, start: World, inputs: seq<Input>, k: nat)
    requires k < |inputs| && start.state.records == [] && AcceptedAt(matrix, logRoom, start, inputs, k)
    ensures inputs[k].command.payload.BootstrapOwner? <==>
      forall j :: 0 <= j < k ==> !AcceptedAt(matrix, logRoom, start, inputs, j)
  {
    NonEmptyIffAccepted(matrix, logRoom, start, inputs, k);
    var w := At(matrix, logRoom, start, inputs, k);
    AcceptedChanges(matrix, w.state, logRoom, w.log, inputs[k]);
  }

  lemma NextNonEmpty(matrix: Matrix, logRoom: Id, w: World, input: Input)
    ensures Next(matrix, logRoom, w, input).state.records == [] <==>
      w.state.records == [] && Step(matrix, w.state, logRoom, w.log, input).result.Err?
  {
    if Step(matrix, w.state, logRoom, w.log, input).result.Ok? {
      AcceptedChanges(matrix, w.state, logRoom, w.log, input);
      hide Step, CheckAuthority, KeepsAnOwner, HasActiveRecord;
    }
  }

  lemma {:induction false} NonEmptyIffAccepted(matrix: Matrix, logRoom: Id, start: World, inputs: seq<Input>, k: nat)
    requires k <= |inputs| && start.state.records == []
    ensures At(matrix, logRoom, start, inputs, k).state.records == [] <==>
      forall j :: 0 <= j < k ==> !AcceptedAt(matrix, logRoom, start, inputs, j)
  {
    if k == 0 {
      hide AcceptedAt, Next;
    } else {
      hide *;
      NonEmptyIffAccepted(matrix, logRoom, start, inputs, k - 1);
      NextNonEmpty(matrix, logRoom, At(matrix, logRoom, start, inputs, k - 1), inputs[k - 1]);
      AtStep(matrix, logRoom, start, inputs, k - 1);
    }
  }

  // ---- One active record per member ----

  predicate SameMember(a: Record, b: Record) {
    a.roomId == b.roomId && a.memberRef == b.memberRef
  }

  ghost predicate OneActivePerMember(records: seq<Record>) {
    forall i, j :: 0 <= i < j < |records| && records[i].state.ActiveMember? && records[j].state.ActiveMember? ==>
      !SameMember(records[i], records[j])
  }

  /** Reactivating a record while its member has become active under another one. */
  predicate CollidingReactivation(records: seq<Record>, p: Payload) {
    p.ReactivateMember? &&
    var i := RecordIndex(records, p.membershipId);
    i >= 0 && exists j ::
      0 <= j < |records| && j != i && records[j].state.ActiveMember? && SameMember(records[i], records[j])
  }

  /** Every accepted call keeps one active record per member, except exactly a colliding reactivation. */
  lemma OneActiveKeptIffNoCollision(matrix: Matrix, logRoom: Id, w: World, input: Input)
    requires Governed(w.state) && OneActivePerMember(w.state.records)
    requires Step(matrix, w.state, logRoom, w.log, input).result.Ok?
    ensures OneActivePerMember(Next(matrix, logRoom, w, input).state.records) <==>
      !CollidingReactivation(w.state.records, input.command.payload)
  {
    AcceptedChanges(matrix, w.state, logRoom, w.log, input);
    var records := Step(matrix, w.state, logRoom, w.log, input).result.value;
    hide Step;
    ChangeKeepsOneActive(w.state, records, input);
  }

  lemma ChangeKeepsOneActive(state: RoomState, records: seq<Record>, input: Input)
    requires Changes(state, records, input) && OneActivePerMember(state.records)
    ensures OneActivePerMember(records) <==> !CollidingReactivation(state.records, input.command.payload)
  {
    hide CheckAuthority, KeepsAnOwner;
    var p := input.command.payload;
    if !p.IsCreation() {
      var i := RecordIndex(state.records, p.membershipId);
      if CollidingReactivation(state.records, p) {
        var j :| 0 <= j < |records| && j != i && state.records[j].state.ActiveMember?
          && SameMember(state.records[i], state.records[j]);
        assert records[i].state.ActiveMember? && records[j].state.ActiveMember? && SameMember(records[i], records[j]);
      }
    }
  }

  // ---- Both exceptions do happen ----

  const OPEN_POLICY := RoomPolicy(true, false, false, false, false, false, false, false)

  /** A correctly authorized command of this actor, in standard mode. */
  function Requested(actor: Record, p: Payload, id: Option<Id>): Input {
    Input(Command(actor.roomId, Standard, p), OPEN_POLICY,
          Some(AuthorizationContext(
            actor,
            Descriptor(actor.roomId, actor.memberRef, actor.membershipId, actor.revision, CapabilityOf(p),
                       None, None, None, actor.role),
            Decision(true, Persistence, ScopeOf(p), true))),
          None, Decision(true, Persistence, MembershipLogAppend, true), "", id, "", "")
  }

  lemma OwnerIsFound(state: RoomState, owner: nat)
    requires Governed(state) && owner < |state.records| && ActiveOwner(state.records[owner])
    ensures RecordIndex(state.records, state.records[owner].membershipId) == owner
  {
  }

  lemma OwnerPasses(state: RoomState, owner: nat, p: Payload, id: Option<Id>)
    requires Governed(state) && owner < |state.records| && ActiveOwner(state.records[owner]) && !p.BootstrapOwner?
    ensures CheckAuthority(state, Requested(state.records[owner], p, id)).Pass?
  {
    OwnerIsFound(state, owner);
  }

  /**
   * Whatever the room, an owner adding someone who is an active member makes the
   * log grow and the call fail; owners themselves are such members.
   */
  lemma AddingAnActiveMemberStrays(matrix: Matrix, w: World, owner: nat, j: nat, role: Role, id: Id)
    requires Governed(w.state) && owner < |w.state.records| && ActiveOwner(w.state.records[owner])
    requires j < |w.state.records| && w.state.records[j].state.ActiveMember?
    requires matrix("room.membership.add", Standard) == MemoryOnly
    ensures var input := Requested(w.state.records[owner], AddMember(w.state.records[j].memberRef, role), Some(id));
      && CollidingAdd(w.state, input)
      && (w.log.MemoryLog? ==> StrayAppend(matrix, w.state.roomId, w, input))
  {
    var p := AddMember(w.state.records[j].memberRef, role);
    var input := Requested(w.state.records[owner], p, Some(id));
    OwnerPasses(w.state, owner, p, Some(id));
    hide CheckAuthority;
    var room := w.state.roomId;
    assert Guard(matrix, w.state, input).Pass?;
    hide Guard;
    assert PrepareEvent(matrix, w.state, NextSequence(w.log), input).Ok?;
    assert AppendPrepared(matrix, w.state, room, w.log, input).Ok?;
    AppendedThenFailsIffCollidingAdd(matrix, w.state, room, w.log, input);
    AppendedLog(matrix, w.state, room, w.log, input);
  }

  /** Whatever the room, an owner can reactivate a suspended record whose member is active under another. */
  lemma CollidingReactivationIsAccepted(matrix: Matrix, w: World, owner: nat, i: nat, j: nat)
    requires Governed(w.state) && owner < |w.state.records| && ActiveOwner(w.state.records[owner])
    requires i < |w.state.records| && w.state.records[i].state.SuspendedMember?
      && w.state.records[i].revision < MAX_REVISION
    requires j < |w.state.records| && w.state.records[j].state.ActiveMember?
      && SameMember(w.state.records[i], w.state.records[j])
    requires matrix("room.membership.reactivate", Standard) == MemoryOnly
    ensures var p := ReactivateMember(w.state.records[i].membershipId, w.state.records[i].revision);
      && CollidingReactivation(w.state.records, p)
      && Step(matrix, w.state, w.state.roomId, w.log, Requested(w.state.records[owner], p, None)).result.Ok?
  {
    var p := ReactivateMember(w.state.records[i].membershipId, w.state.records[i].revision);
    var input, room := Requested(w.state.records[owner], p, None), w.state.roomId;
    OwnerPasses(w.state, owner, p, None);
    assert RecordIndex(w.state.records, p.membershipId) == i;
    hide CheckAuthority, RecordFrom;
    assert Guard(matrix, w.state, input).Pass?;
    hide Guard;
    assert PrepareEvent(matrix, w.state, NextSequence(w.log), input).Ok?;
    assert AppendPrepared(matrix, w.state, room, w.log, input).Ok?;
    AppendedThenFailsIffCollidingAdd(matrix, w.state, room, w.log, input);
  }
}
