/** No ABA: a prepared authorization against every later state of a run. */
module AuthorizationRuns {
  import opened Common
  import opened Privacy
  import opened RoomStates
  import opened Authorization
  import Governance
  import GovernanceRuns
  import Membership
  import Runs = MembershipRuns
  import PolicyComposition
  import RoomLog
  import RoomLogRuns

  /** Membership calls, interleaved with any other change of the room, such as governance. */
  datatype Move = MembershipMove(input: Membership.Input) | OtherMove(after: RoomState)

  /** Other moves leave the membership records and the identity of the room. */
  function Next(matrix: Matrix, logRoom: Id, w: Runs.World, move: Move): Runs.World {
    match move
    case MembershipMove(input) => Runs.Next(matrix, logRoom, w, input)
    case OtherMove(after) => Runs.World(after.(roomId := w.state.roomId, records := w.state.records), w.log)
  }

  function At(matrix: Matrix, logRoom: Id, start: Runs.World, moves: seq<Move>, k: nat): Runs.World
    requires k <= |moves|
  {
    if k == 0 then start else Next(matrix, logRoom, At(matrix, logRoom, start, moves, k - 1), moves[k - 1])
  }

  function RecordAt(matrix: Matrix, logRoom: Id, start: Runs.World, moves: seq<Move>, k: nat, id: Id): Option<Record>
    requires k <= |moves|
  {
    FindRecord(At(matrix, logRoom, start, moves, k).state.records, id)
  }

  /** The record is the same one in every state from i to j. */
  ghost predicate Untouched(matrix: Matrix, logRoom: Id, start: Runs.World, moves: seq<Move>, i: nat, j: nat, id: Id)
    requires i <= j <= |moves|
  {
    forall k :: i <= k <= j ==>
      RecordAt(matrix, logRoom, start, moves, k, id) == RecordAt(matrix, logRoom, start, moves, i, id)
  }

  /** Governance updates and base room events are such other moves. */
  lemma OtherPipelinesAreOtherMoves(matrix: Matrix, logRoom: Id, w: Runs.World, g: GovernanceRuns.World,
                                    input: Governance.Input, event: RoomLog.OperationEvent)
    ensures g.state == w.state ==>
      Next(matrix, logRoom, w, OtherMove(GovernanceRuns.Next(g, input).state)).state
        == GovernanceRuns.Next(g, input).state
    ensures RoomLog.Reduce(w.state, event).Ok? ==>
      Next(matrix, logRoom, w, OtherMove(RoomLog.Reduce(w.state, event).value)).state
        == RoomLog.Reduce(w.state, event).value
  {
    hide Governance.Step;
    if RoomLog.Reduce(w.state, event).Ok? {
      RoomLogRuns.ReduceAdvances(w.state, event);
    }
    hide RoomLog.Reduce;
  }

  lemma {:induction false} RunEvolves(matrix: Matrix, logRoom: Id, start: Runs.World, moves: seq<Move>, i: nat, j: nat)
    requires i <= j <= |moves|
    ensures Runs.RecordsEvolve(At(matrix, logRoom, start, moves, i).state.records,
                               At(matrix, logRoom, start, moves, j).state.records)
    ensures At(matrix, logRoom, start, moves, i).state.roomId == At(matrix, logRoom, start, moves, j).state.roomId
    decreases j
  {
    if i < j {
      RunEvolves(matrix, logRoom, start, moves, i, j - 1);
      var before, after := At(matrix, logRoom, start, moves, j - 1), At(matrix, logRoom, start, moves, j);
      if moves[j - 1].MembershipMove? {
        Runs.NextEvolves(matrix, logRoom, before, moves[j - 1].input);
      }
      hide Runs.Next, Runs.RecordEvolves;
      Runs.RecordsEvolveTransitive(At(matrix, logRoom, start, moves, i).state.records, before.state.records,
                                   after.state.records);
    }
  }

  lemma FoundStays(a: seq<Record>, b: seq<Record>, id: Id)
    requires Runs.RecordsEvolve(a, b) && FindRecord(a, id).Some?
    ensures FindRecord(b, id).Some? && Runs.RecordEvolves(FindRecord(a, id).value, FindRecord(b, id).value)
  {
    var i := RecordIndex(a, id);
    forall k | 0 <= k < |a| ensures a[k].membershipId == b[k].membershipId {
      assert Runs.RecordEvolves(a[k], b[k]);
    }
    assert RecordIndex(b, id) == i;
    assert Runs.RecordEvolves(a[i], b[i]);
  }

  /** Records are never dropped, and equal revisions mean nothing happened in between. */
  lemma UntouchedIffSameRevision(matrix: Matrix, logRoom: Id, start: Runs.World, moves: seq<Move>, i: nat, j: nat,
                                 id: Id)
    requires i <= j <= |moves| && RecordAt(matrix, logRoom, start, moves, i, id).Some?
    ensures RecordAt(matrix, logRoom, start, moves, j, id).Some?
    ensures Untouched(matrix, logRoom, start, moves, i, j, id) <==>
      RecordAt(matrix, logRoom, start, moves, j, id).value.revision
        == RecordAt(matrix, logRoom, start, moves, i, id).value.revision
    ensures Untouched(matrix, logRoom, start, moves, i, j, id) <==>
      RecordAt(matrix, logRoom, start, moves, j, id) == RecordAt(matrix, logRoom, start, moves, i, id)
  {
    hide At, Runs.RecordsEvolve, FindRecord;
    forall k | i <= k <= j
      ensures RecordAt(matrix, logRoom, start, moves, k, id).Some?
      ensures Runs.RecordEvolves(RecordAt(matrix, logRoom, start, moves, i, id).value,
                                 RecordAt(matrix, logRoom, start, moves, k, id).value)
      ensures RecordAt(matrix, logRoom, start, moves, j, id).Some?
      ensures Runs.RecordEvolves(RecordAt(matrix, logRoom, start, moves, k, id).value,
                                 RecordAt(matrix, logRoom, start, moves, j, id).value)
    {
      RunEvolves(matrix, logRoom, start, moves, i, k);
      RunEvolves(matrix, logRoom, start, moves, k, j);
      FoundStays(At(matrix, logRoom, start, moves, i).state.records,
                 At(matrix, logRoom, start, moves, k).state.records, id);
      FoundStays(At(matrix, logRoom, start, moves, k).state.records,
                 At(matrix, logRoom, start, moves, j).state.records, id);
    }
  }

  /** The target of a request, if any, is the record the projection has at that point. */
  predicate TargetFromProjection(request: Request, records: seq<Record>) {
    request.target.Some? ==> FindRecord(records, request.target.value.membershipId) == request.target
  }

  /** Same operation, object and view, and the same target member if any. */
  predicate SameBinding(a: Request, b: Request) {
    && a.capability == b.capability && a.sideEffect == b.sideEffect
    && a.objectId == b.objectId && a.objectKind == b.objectKind && a.view == b.view
    && (a.target.Some? <==> b.target.Some?)
    && (a.target.Some? ==> a.target.value.membershipId == b.target.value.membershipId)
  }

  /**
   * No ABA of records. A context prepared at step i and used at step j with the
   * records of the projection is accepted if and only if the actor's record, and
   * the target's, were never touched in between and the environment is the same
   * at both ends. What the latter says about the steps in between depends on what
   * the other moves are.
   */
  lemma NoAba(matrix: Matrix, logRoom: Id, start: Runs.World, moves: seq<Move>, i: nat, j: nat,
              membership: Record, p: RoomPolicy, request: Request, risk: bool,
              a: Option<PolicyComposition.PostureSignal>,
              m: Record, q: RoomPolicy, decision: Decision, actual: Request, b: Option<PolicyComposition.PostureSignal>)
    requires i <= j <= |moves|
    requires Prepare(At(matrix, logRoom, start, moves, i).state, membership, p, request, risk, a).Ok?
    requires RecordAt(matrix, logRoom, start, moves, j, membership.membershipId) == Some(m)
    requires TargetFromProjection(request, At(matrix, logRoom, start, moves, i).state.records)
    requires TargetFromProjection(actual, At(matrix, logRoom, start, moves, j).state.records)
    ensures var s, t := At(matrix, logRoom, start, moves, i).state, At(matrix, logRoom, start, moves, j).state;
      Revalidate(Prepare(s, membership, p, request, risk, a).value, t, m, q, decision, actual, b).Pass? <==>
        && SameEnvironment(s, p, a, t, q, b)
        && Untouched(matrix, logRoom, start, moves, i, j, membership.membershipId)
        && SameBinding(request, actual)
        && (request.target.Some? ==> Untouched(matrix, logRoom, start, moves, i, j, request.target.value.membershipId))
        && Authorizes(decision, actual.sideEffect)
  {
    var s, t, id := At(matrix, logRoom, start, moves, i).state, At(matrix, logRoom, start, moves, j).state,
      membership.membershipId;
    PreparedActorIsThere(s, membership, p, request, risk, a);
    hide Prepare, Revalidate, SameEnvironment, At, Untouched, RecordFrom;
    UntouchedIffSameRevision(matrix, logRoom, start, moves, i, j, id);
    if request.target.Some? {
      UntouchedIffSameRevision(matrix, logRoom, start, moves, i, j, request.target.value.membershipId);
    }
    RevalidatedIff(s, membership, p, request, risk, a, t, m, q, decision, actual, b);
  }

  lemma PreparedActorIsThere(s: RoomState, membership: Record, p: RoomPolicy, request: Request, risk: bool,
                             a: Option<PolicyComposition.PostureSignal>)
    requires Prepare(s, membership, p, request, risk, a).Ok?
    ensures FindRecord(s.records, membership.membershipId).Some?
    ensures FindRecord(s.records, membership.membershipId).value.state.ActiveMember?
  {
    hide PolicyRevisionOf, PolicyComposition.ResolveEffectivePosture, RecordFrom;
  }

  /** The call at step k was accepted and named this record. */
  predicate TouchedAt(matrix: Matrix, logRoom: Id, start: Runs.World, moves: seq<Move>, k: nat, id: Id)
    requires k < |moves|
  {
    && moves[k].MembershipMove?
    && var w, input := At(matrix, logRoom, start, moves, k), moves[k].input;
    && Membership.Step(matrix, w.state, logRoom, w.log, input).result.Ok?
    && !input.command.payload.IsCreation() && input.command.payload.membershipId == id
  }

  /**
   * One accepted change of the actor in between is enough to reject, also when
   * later ones restored role and state: suspend and reactivate, demote and promote.
   */
  lemma TouchedActorIsRejected(matrix: Matrix, logRoom: Id, start: Runs.World, moves: seq<Move>, i: nat, k: nat, j: nat,
              membership: Record, p: RoomPolicy, request: Request, risk: bool,
              a: Option<PolicyComposition.PostureSignal>,
              m: Record, q: RoomPolicy, decision: Decision, actual: Request, b: Option<PolicyComposition.PostureSignal>)
    requires i <= k < j <= |moves| && TouchedAt(matrix, logRoom, start, moves, k, membership.membershipId)
    requires Prepare(At(matrix, logRoom, start, moves, i).state, membership, p, request, risk, a).Ok?
    requires RecordAt(matrix, logRoom, start, moves, j, membership.membershipId) == Some(m)
    ensures var s, t := At(matrix, logRoom, start, moves, i).state, At(matrix, logRoom, start, moves, j).state;
      Revalidate(Prepare(s, membership, p, request, risk, a).value, t, m, q, decision, actual, b).Fail?
  {
    var s, t, id := At(matrix, logRoom, start, moves, i).state, At(matrix, logRoom, start, moves, j).state,
      membership.membershipId;
    PreparedActorIsThere(s, membership, p, request, risk, a);
    hide Prepare, Revalidate, SameEnvironment;
    RevalidatedIff(s, membership, p, request, risk, a, t, m, q, decision, actual, b);
    TouchMoves(matrix, logRoom, start, moves, k, id);
    hide At, TouchedAt;
    UntouchedIffSameRevision(matrix, logRoom, start, moves, i, k, id);
    UntouchedIffSameRevision(matrix, logRoom, start, moves, i, j, id);
  }

  lemma TouchMoves(matrix: Matrix, logRoom: Id, start: Runs.World, moves: seq<Move>, k: nat, id: Id)
    requires k < |moves| && TouchedAt(matrix, logRoom, start, moves, k, id)
    ensures RecordAt(matrix, logRoom, start, moves, k, id) != RecordAt(matrix, logRoom, start, moves, k + 1, id)
  {
    var w, input := At(matrix, logRoom, start, moves, k), moves[k].input;
    Runs.AcceptedChanges(matrix, w.state, logRoom, w.log, input);
    var records := Membership.Step(matrix, w.state, logRoom, w.log, input).result.value;
    assert At(matrix, logRoom, start, moves, k + 1).state.records == records;
    hide Membership.Step, Membership.CheckAuthority, Membership.KeepsAnOwner, At;
    var i := RecordIndex(w.state.records, id);
    assert records[i].revision != w.state.records[i].revision;
  }
}
