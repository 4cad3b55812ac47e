/** Incremental logging against batch replay, and the one-way lifecycle. */
module RoomLogRuns {
  import opened Common
  import opened Privacy
  import opened RoomStates
  import opened RoomLog

  /** Appending a list one event after the other. */
  function AppendAll(log: LogState, room: Id, events: seq<OperationEvent>,
                     decision: Decision): Result<LogState, RoomError> {
    if events == [] then Ok(log)
    else
      var before :- AppendAll(log, room, events[..|events| - 1], decision);
      AppendTo(before, room, events[|events| - 1], decision)
  }

  /** Which events are valid, kind by kind: the target, room kind or policy revision an event carries must be known. */
  lemma ValidityIs(e: OperationEvent)
    ensures ValidEvent(e) <==>
      && e.localSequence >= 1 && LOCAL_PREFIX <= e.createdAtLocal
      && match e.payload
         case RoomArchive(target) => !target.UnknownLifecycle?
         case RoomLock(target) => !target.UnknownLifecycle?
         case RoomDeleteTombstone(target) => !target.UnknownLifecycle?
         case RoomCreate(kind, _) => !kind.UnknownKind?
         case PolicyUpdate(revision) => revision >= 1
         case _ => true
  {
  }

  /** A fresh memory log accepts a list event by event exactly when the validation phase of replay accepts it whole. */
  lemma {:induction false} LogAgreesWithReplay(room: Id, events: seq<OperationEvent>, decision: Decision)
    requires Authorizes(decision, OperationLogAppend)
    ensures AppendAll(MemoryLog([]), room, events, decision).Ok? <==> Validates(events, room)
    ensures Validates(events, room) ==> AppendAll(MemoryLog([]), room, events, decision) == Ok(MemoryLog(events))
  {
    if events != [] {
      var n := |events| - 1;
      hide *;
      LogAgreesWithReplay(room, events[..n], decision);
      assert events == events[..n] + [events[n]];
      AppendAllOnce(MemoryLog([]), room, events, decision);
      PrefixValidates(events, room);
      if Validates(events[..n], room) {
        ExtensionValidates(events[..n], events[n], room);
        AppendOne(events[..n], room, events[n], decision);
      }
    }
  }

  lemma AppendAllOnce(log: LogState, room: Id, events: seq<OperationEvent>, decision: Decision)
    requires events != []
    ensures var before := AppendAll(log, room, events[..|events| - 1], decision);
      AppendAll(log, room, events, decision) ==
        if before.Ok? then AppendTo(before.value, room, events[|events| - 1], decision) else before
  {
    hide AppendTo;
  }

  lemma AppendOne(events: seq<OperationEvent>, room: Id, e: OperationEvent, decision: Decision)
    requires Authorizes(decision, OperationLogAppend)
    ensures AppendTo(MemoryLog(events), room, e, decision).Ok? <==>
      && ValidEvent(e) && e.roomId == room
      && (forall earlier <- events :: earlier.eventId != e.eventId)
      && e.localSequence == (if events == [] then 0 else events[|events| - 1].localSequence) + 1
    ensures AppendTo(MemoryLog(events), room, e, decision).Ok? ==>
      AppendTo(MemoryLog(events), room, e, decision).value == MemoryLog(events + [e])
  {
    hide ValidEvent;
  }

  lemma PrefixValidates(events: seq<OperationEvent>, room: Id)
    requires events != []
    ensures Validates(events, room) ==> Validates(events[..|events| - 1], room)
  {
  }

  lemma ExtensionValidates(events: seq<OperationEvent>, e: OperationEvent, room: Id)
    requires Validates(events, room)
    ensures Validates(events + [e], room) <==>
      && ValidEvent(e) && e.roomId == room
      && (forall earlier <- events :: earlier.eventId != e.eventId)
      && e.localSequence == (if events == [] then 0 else events[|events| - 1].localSequence) + 1
  {
    hide ValidEvent;
    var all := events + [e];
    assert all[|events|] == e;
    assert forall i :: 0 <= i < |events| ==> all[i] == events[i];
    if forall earlier <- events :: earlier.eventId != e.eventId {
      assert forall i :: 0 <= i < |events| ==> events[i] in events;
    } else {
      var k :| 0 <= k < |events| && events[k].eventId == e.eventId;
      assert all[k].eventId == all[|events|].eventId;
    }
  }

  /** Where a lifecycle can get to. Archived and emergency-locked rooms exclude each other. */
  predicate LifecycleReachable(from: RoomLifecycle, to: RoomLifecycle) {
    from == to ||
    match from
    case DraftRoom => !to.UnknownLifecycle?
    case ActiveRoom => !to.DraftRoom? && !to.UnknownLifecycle?
    case SealedRoom => to.ArchivedRoom? || to.EmergencyLocked? || to.TombstonedRoom?
    case ArchivedRoom | EmergencyLocked => to.TombstonedRoom?
    case TombstonedRoom | UnknownLifecycle => false
  }

  function LifecycleRank(l: RoomLifecycle): int {
    match l
    case UnknownLifecycle => -1
    case DraftRoom => 0
    case ActiveRoom => 1
    case SealedRoom => 2
    case ArchivedRoom | EmergencyLocked => 3
    case TombstonedRoom => 4
  }

  predicate NoDuplicateMembers(members: seq<MemberSummary>) {
    forall i, j :: 0 <= i < j < |members| ==> members[i].ref != members[j].ref
  }

  lemma {:induction false} RemovalKeepsOrder(members: seq<MemberSummary>, ref: Id)
    ensures forall m :: m in WithoutMember(members, ref) <==> m in members && m.ref != ref
    ensures NoDuplicateMembers(members) ==> NoDuplicateMembers(WithoutMember(members, ref))
  {
    if members != [] {
      RemovalKeepsOrder(members[1..], ref);
      assert members == [members[0]] + members[1..];
      var rest := WithoutMember(members[1..], ref);
      assert forall k :: 0 <= k < |rest| ==> rest[k] in rest;
    }
  }

  lemma RemovalOfOne(m: MemberSummary, ref: Id)
    ensures WithoutMember([m], ref) == if m.ref == ref then [] else [m]
  {
    assert [m][1..] == [];
  }

  /** Removal works member by member, so those who stay keep their order. */
  lemma {:induction false} RemovalDistributes(a: seq<MemberSummary>, b: seq<MemberSummary>, ref: Id)
    ensures WithoutMember(a + b, ref) == WithoutMember(a, ref) + WithoutMember(b, ref)
  {
    if a == [] {
      assert a + b == b;
    } else {
      RemovalDistributes(a[1..], b, ref);
      assert (a + b)[0] == a[0] && (a + b)[1..] == a[1..] + b;
      RemovalOnce(a, ref);
      RemovalOnce(a + b, ref);
      InFront(if a[0].ref == ref then [] else [a[0]], WithoutMember(a[1..], ref), WithoutMember(b, ref));
      hide WithoutMember;
    }
  }

  lemma InFront(first: seq<MemberSummary>, a: seq<MemberSummary>, b: seq<MemberSummary>)
    ensures first + (a + b) == first + a + b
  {
  }

  lemma RemovalOnce(members: seq<MemberSummary>, ref: Id)
    requires members != []
    ensures WithoutMember(members, ref) ==
      (if members[0].ref == ref then [] else [members[0]]) + WithoutMember(members[1..], ref)
  {
  }

  /** What one accepted event does to the room as a whole. */
  ghost predicate RoomAdvances(a: RoomState, b: RoomState, p: Payload) {
    && a.roomId == b.roomId && a.policy == b.policy && a.mode == b.mode && a.records == b.records
    && a.policyRevision == b.policyRevision && a.policyDocument == b.policyDocument
    && LifecycleReachable(a.lifecycle, b.lifecycle)
    && (p.RoomCreate? <==> a.lifecycle.DraftRoom? && b.lifecycle.ActiveRoom?)
    && (IsContentOperation(p) ==> a.lifecycle.ActiveRoom?)
    && !a.lifecycle.TombstonedRoom? && !a.lifecycle.UnknownLifecycle?
    && (b.lifecycle.TombstonedRoom? ==> b.members == [] && b.objects == [] && b.titleRedacted && b.title == a.title)
    && (a.policy.redactTitles ==> b.title == a.title)
    && (NoDuplicateMembers(a.members) ==> NoDuplicateMembers(b.members))
    && MembersChange(a, b, p) && ObjectsChange(a, b, p) && LifecycleSettles(a, b, p) && TitleSettles(a, b, p)
  }

  /** Where each event leaves the lifecycle, and the kind, which only creation sets. */
  predicate LifecycleSettles(a: RoomState, b: RoomState, p: Payload) {
    && b.lifecycle == (if p.RoomDeleteTombstone? then TombstonedRoom
                       else if p.RoomArchive? then ArchivedRoom
                       else if p.RoomLock? then p.target
                       else if p.RoomCreate? then ActiveRoom
                       else a.lifecycle)
    && b.kind == (if p.RoomCreate? then p.kind else a.kind)
  }

  /** A title given or changed is shown or, where titles are redacted, only marked; deletion marks it too. */
  predicate TitleSettles(a: RoomState, b: RoomState, p: Payload) {
    var redact := a.policy.redactTitles;
    && b.title == (if redact then a.title
                   else if p.RoomRename? then Some(p.title)
                   else if p.RoomCreate? && p.newTitle.Some? then p.newTitle
                   else a.title)
    && b.titleRedacted == (if p.RoomRename? then redact
                           else if p.RoomCreate? then redact && p.newTitle.Some?
                           else if p.RoomDeleteTombstone? then true
                           else a.titleRedacted)
  }

  /** A new member is added last, a removed one is gone, and other events leave the members alone or empty. */
  ghost predicate MembersChange(a: RoomState, b: RoomState, p: Payload) {
    match p
    case MemberAdd(ref, role) =>
      if exists m <- a.members :: m.ref == ref then b.members == a.members
      else
        && |b.members| == |a.members| + 1 && b.members[..|a.members|] == a.members
        && b.members[|a.members|] == MemberSummary(ref, role)
    case MemberRemove(ref) =>
      && b.members == WithoutMember(a.members, ref)
      && (forall m :: m in b.members <==> m in a.members && m.ref != ref)
    case RoomDeleteTombstone(_) => b.members == []
    case _ => b.members == a.members
  }

  /** A created placeholder is listed last; other events leave the objects alone or empty. */
  ghost predicate ObjectsChange(a: RoomState, b: RoomState, p: Payload) {
    match p
    case PlaceholderCreate(id, kind) =>
      |b.objects| == |a.objects| + 1 && b.objects[..|a.objects|] == a.objects
        && b.objects[|a.objects|] == ObjectSummary(id, kind)
    case RoomDeleteTombstone(_) => b.objects == []
    case _ => b.objects == a.objects
  }

  lemma ReduceAdvances(a: RoomState, e: OperationEvent)
    requires Reduce(a, e).Ok?
    ensures RoomAdvances(a, Reduce(a, e).value, e.payload)
    ensures Reduce(a, e).value.lastLocalUpdateAt == Some(e.createdAtLocal)
  {
    ReduceMembers(a, e);
    ReduceObjects(a, e);
    ReduceSettles(a, e);
    hide MembersChange, ObjectsChange, NoDuplicateMembers, TitleSettles;
  }

  lemma ReduceSettles(a: RoomState, e: OperationEvent)
    requires Reduce(a, e).Ok?
    ensures LifecycleSettles(a, Reduce(a, e).value, e.payload) && TitleSettles(a, Reduce(a, e).value, e.payload)
  {
  }

  /** Exactly which events a room takes, event by event. */
  lemma ReducedIff(a: RoomState, e: OperationEvent)
    ensures Reduce(a, e).Ok? <==> e.roomId == a.roomId && Takes(a.lifecycle, e.payload)
  {
  }

  predicate Takes(l: RoomLifecycle, p: Payload) {
    match p
    case RoomCreate(_, _) => l.DraftRoom?
    case RoomRename(_) | MemberAdd(_, _) | MemberRemove(_) | PlaceholderCreate(_, _) => l.ActiveRoom?
    case RoomArchive(target) => target.ArchivedRoom? && (l.ActiveRoom? || l.SealedRoom?)
    case RoomLock(target) =>
      (target.SealedRoom? && l.ActiveRoom?) || (target.EmergencyLocked? && (l.ActiveRoom? || l.SealedRoom?))
    case RoomDeleteTombstone(target) => !target.UnknownLifecycle? && !l.TombstonedRoom? && !l.UnknownLifecycle?
    case PolicyUpdate(_) => l.DraftRoom? || l.ActiveRoom? || l.SealedRoom? || l.ArchivedRoom?
    case AuditAppend => l.ActiveRoom? || l.SealedRoom? || l.ArchivedRoom? || l.EmergencyLocked?
  }

  lemma ReduceMembers(a: RoomState, e: OperationEvent)
    requires Reduce(a, e).Ok?
    ensures MembersChange(a, Reduce(a, e).value, e.payload)
    ensures NoDuplicateMembers(a.members) ==> NoDuplicateMembers(Reduce(a, e).value.members)
  {
    match e.payload
    case MemberRemove(ref) => RemovalKeepsOrder(a.members, ref);
    case _ =>
  }

  lemma ReduceObjects(a: RoomState, e: OperationEvent)
    requires Reduce(a, e).Ok?
    ensures ObjectsChange(a, Reduce(a, e).value, e.payload)
  {
  }

  /** The state after the first k events of a list that folds. */
  function StateAt(seed: RoomState, events: seq<OperationEvent>, k: nat): RoomState
    requires k <= |events| && Fold(Reduce, seed, events).Ok?
  {
    if Fold(Reduce, seed, events[..k]).Err? then seed else Fold(Reduce, seed, events[..k]).value
  }

  lemma StepAt(seed: RoomState, events: seq<OperationEvent>, k: nat)
    requires k < |events| && Fold(Reduce, seed, events).Ok?
    ensures StateAt(seed, events, 0) == seed
    ensures Reduce(StateAt(seed, events, k), events[k]) == Ok(StateAt(seed, events, k + 1))
    ensures RoomAdvances(StateAt(seed, events, k), StateAt(seed, events, k + 1), events[k].payload)
  {
    hide Reduce, RoomAdvances;
    if Fold(Reduce, seed, events[..k + 1]).Err? {
      FoldFailurePersists(Reduce, seed, events, k + 1);
    }
    assert events[..k + 1][..k] == events[..k];
    ReduceAdvances(StateAt(seed, events, k), events[k]);
  }

  /** Along any successful replay the lifecycle only moves forward. */
  lemma {:induction false} LifecycleIsOneWay(seed: RoomState, events: seq<OperationEvent>, i: nat, j: nat)
    requires i <= j <= |events| && Fold(Reduce, seed, events).Ok?
    ensures LifecycleReachable(StateAt(seed, events, i).lifecycle, StateAt(seed, events, j).lifecycle)
    ensures LifecycleRank(StateAt(seed, events, i).lifecycle) <= LifecycleRank(StateAt(seed, events, j).lifecycle)
    decreases j
  {
    hide Fold, StateAt;
    if i < j {
      LifecycleIsOneWay(seed, events, i, j - 1);
      StepAt(seed, events, j - 1);
    }
  }

  /** A tombstoned room accepts nothing more, and lists no members and no objects. */
  lemma TombstoneIsAbsorbing(seed: RoomState, events: seq<OperationEvent>, k: nat)
    requires k <= |events| && Fold(Reduce, seed, events).Ok? && StateAt(seed, events, k).lifecycle.TombstonedRoom?
    ensures k == |events|
    ensures k > 0 ==> StateAt(seed, events, k).members == [] && StateAt(seed, events, k).objects == []
  {
    hide Fold, StateAt;
    if k < |events| {
      StepAt(seed, events, k);
    } else if k > 0 {
      StepAt(seed, events, k - 1);
    }
  }

  /** A deletion is the last event of any list that folds, and leaves a tombstone. */
  lemma DeletionIsLast(seed: RoomState, events: seq<OperationEvent>, k: nat)
    requires k < |events| && Fold(Reduce, seed, events).Ok? && events[k].payload.RoomDeleteTombstone?
    ensures k == |events| - 1
    ensures var end := Fold(Reduce, seed, events).value;
      end.lifecycle.TombstonedRoom? && end.members == [] && end.objects == []
  {
    StepAt(seed, events, k);
    TombstoneIsAbsorbing(seed, events, k + 1);
    assert events[..|events|] == events;
    hide Reduce, RoomAdvances;
  }

  /** A room is created at most once. */
  lemma CreatedAtMostOnce(seed: RoomState, events: seq<OperationEvent>, i: nat, j: nat)
    requires i < |events| && j < |events| && Fold(Reduce, seed, events).Ok?
    requires events[i].payload.RoomCreate? && events[j].payload.RoomCreate?
    ensures i == j && seed.lifecycle.DraftRoom?
  {
    hide Fold, StateAt;
    var first, second := if i <= j then i else j, if i <= j then j else i;
    StepAt(seed, events, first);
    StepAt(seed, events, second);
    LifecycleIsOneWay(seed, events, 0, first);
    if first < second {
      LifecycleIsOneWay(seed, events, first + 1, second);
    }
  }

  /** Under title redaction no event ever changes the title; and members stay unique. */
  lemma {:induction false} TitlesStayRedacted(seed: RoomState, events: seq<OperationEvent>, k: nat)
    requires k <= |events| && Fold(Reduce, seed, events).Ok?
    ensures StateAt(seed, events, k).policy == seed.policy && StateAt(seed, events, k).roomId == seed.roomId
    ensures seed.policy.redactTitles ==> StateAt(seed, events, k).title == seed.title
    ensures NoDuplicateMembers(seed.members) ==> NoDuplicateMembers(StateAt(seed, events, k).members)
  {
    if k > 0 {
      hide Fold, StateAt;
      TitlesStayRedacted(seed, events, k - 1);
      StepAt(seed, events, k - 1);
    }
  }
}
