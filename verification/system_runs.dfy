/** No ABA over runs of the real pipelines: membership, governance and base room events interleaved. */
module SystemRuns {
  import opened Common
  import opened Privacy
  import opened EventLogs
  import opened RoomStates
  import opened Authorization
  import PolicyDocuments
  import PolicyComposition
  import Membership
  import Governance
  import GovernanceFence
  import RoomLog
  import RoomLogRuns
  import AR = AuthorizationRuns
  import GR = GovernanceRuns
  import MR = MembershipRuns

  datatype World = World(
    state: RoomState, membershipLog: LogState<Membership.Event>,
    policy: PolicyDocuments.PolicyDocument, governanceLog: LogState<Governance.Event>)

  datatype Move =
    | MembershipCall(membership: Membership.Input)
    | GovernanceCall(governance: Governance.Input)
    | RoomEvent(event: RoomLog.OperationEvent)

  function MembershipHalf(w: World): MR.World {
    MR.World(w.state, w.membershipLog)
  }

  function GovernanceHalf(w: World): GR.World {
    GR.World(w.state, w.policy, w.governanceLog)
  }

  function Next(matrix: Matrix, logRoom: Id, w: World, move: Move): World {
    match move
    case MembershipCall(input) =>
      var m := MR.Next(matrix, logRoom, MembershipHalf(w), input);
      w.(state := m.state, membershipLog := m.log)
    case GovernanceCall(input) =>
      var g := GR.Next(GovernanceHalf(w), input);
      w.(state := g.state, policy := g.policy, governanceLog := g.log)
    case RoomEvent(event) =>
      var r := RoomLog.Reduce(w.state, event);
      if r.Ok? then w.(state := r.value) else w
  }

  function At(matrix: Matrix, logRoom: Id, start: World, moves: seq<Move>, k: nat): World
    requires k <= |moves|
  {
    if k == 0 then start else Next(matrix, logRoom, At(matrix, logRoom, start, moves, k - 1), moves[k - 1])
  }

  predicate Tightens(w: World, move: Move) {
    move.GovernanceCall? && GR.Accepted(GovernanceHalf(w), move.governance)
  }

  /** The governance updates accepted at steps i, i + 1, ..., j - 1. */
  function Updates(matrix: Matrix, logRoom: Id, start: World, moves: seq<Move>, i: nat, j: nat): nat
    requires i <= j <= |moves|
  {
    if i == j then 0
    else
      Updates(matrix, logRoom, start, moves, i, j - 1)
      + if Tightens(At(matrix, logRoom, start, moves, j - 1), moves[j - 1]) then 1 else 0
  }

  // ---- One move ----

  predicate Agrees(w: World) {
    GovernanceFence.Agrees(GovernanceHalf(w))
  }

  /** What a move does to all that the fence looks at, apart from the records. */
  predicate Advances(a: World, b: World, updates: nat) {
    && Agrees(b) && b.state.roomId == a.state.roomId && b.state.mode == a.state.mode
    && RoomLogRuns.LifecycleReachable(a.state.lifecycle, b.state.lifecycle)
    && b.policy.revision == a.policy.revision + updates
    && b.state.policyRevision == (if updates == 0 then a.state.policyRevision else Some(b.policy.revision))
  }

  lemma MoveAdvances(matrix: Matrix, logRoom: Id, w: World, move: Move)
    requires Agrees(w)
    ensures Advances(w, Next(matrix, logRoom, w, move), if Tightens(w, move) then 1 else 0)
  {
    match move
    case MembershipCall(input) =>
      MR.NextEvolves(matrix, logRoom, MembershipHalf(w), input);
      hide MR.Next, MR.RecordsEvolve;
    case GovernanceCall(input) =>
      hide GR.Accepted, GR.Next;
      GovernanceFence.NextCounted(GovernanceHalf(w), GovernanceHalf(w), 0, input);
    case RoomEvent(event) =>
      if RoomLog.Reduce(w.state, event).Ok? {
        RoomLogRuns.ReduceAdvances(w.state, event);
        hide RoomLog.Reduce;
      }
  }

  lemma AdvancesTransitive(a: World, b: World, c: World, m: nat, n: nat)
    requires Advances(a, b, m) && Advances(b, c, n)
    ensures Advances(a, c, m + n)
  {
  }

  lemma AdvancesReflexive(a: World)
    requires Agrees(a)
    ensures Advances(a, a, 0)
  {
  }

  lemma OneMore(matrix: Matrix, logRoom: Id, start: World, moves: seq<Move>, k: nat)
    requires k < |moves|
    ensures At(matrix, logRoom, start, moves, k + 1)
      == Next(matrix, logRoom, At(matrix, logRoom, start, moves, k), moves[k])
  {
    hide Next;
  }

  lemma {:induction false} StartAgrees(matrix: Matrix, logRoom: Id, start: World, moves: seq<Move>, k: nat)
    requires k <= |moves| && Agrees(start)
    ensures Agrees(At(matrix, logRoom, start, moves, k))
  {
    if k == 0 {
      hide Agrees, Next;
    } else {
      StartAgrees(matrix, logRoom, start, moves, k - 1);
      OneMore(matrix, logRoom, start, moves, k - 1);
      MoveAdvances(matrix, logRoom, At(matrix, logRoom, start, moves, k - 1), moves[k - 1]);
      hide At, Next, Tightens, Agrees;
    }
  }

  lemma {:induction false} RunAdvances(matrix: Matrix, logRoom: Id, start: World, moves: seq<Move>, i: nat, j: nat)
    requires i <= j <= |moves| && Agrees(start)
    ensures Advances(At(matrix, logRoom, start, moves, i), At(matrix, logRoom, start, moves, j),
                     Updates(matrix, logRoom, start, moves, i, j))
    decreases j
  {
    hide *;
    if i == j {
      StartAgrees(matrix, logRoom, start, moves, i);
      AdvancesReflexive(At(matrix, logRoom, start, moves, i));
      NoUpdates(matrix, logRoom, start, moves, i);
    } else {
      StartAgrees(matrix, logRoom, start, moves, j - 1);
      OneMore(matrix, logRoom, start, moves, j - 1);
      UpdatesOneMore(matrix, logRoom, start, moves, i, j - 1);
      var before := At(matrix, logRoom, start, moves, j - 1);
      RunAdvances(matrix, logRoom, start, moves, i, j - 1);
      MoveAdvances(matrix, logRoom, before, moves[j - 1]);
      AdvancesTransitive(At(matrix, logRoom, start, moves, i), before, At(matrix, logRoom, start, moves, j),
                         Updates(matrix, logRoom, start, moves, i, j - 1),
                         if Tightens(before, moves[j - 1]) then 1 else 0);
    }
  }

  lemma NoUpdates(matrix: Matrix, logRoom: Id, start: World, moves: seq<Move>, i: nat)
    requires i <= |moves|
    ensures Updates(matrix, logRoom, start, moves, i, i) == 0
  {
  }

  lemma UpdatesOneMore(matrix: Matrix, logRoom: Id, start: World, moves: seq<Move>, i: nat, j: nat)
    requires i <= j < |moves|
    ensures Updates(matrix, logRoom, start, moves, i, j + 1) ==
      Updates(matrix, logRoom, start, moves, i, j) + if Tightens(At(matrix, logRoom, start, moves, j), moves[j]) then 1
        else 0
  {
    hide At, Tightens;
  }

  // ---- The records, by way of the coarser runs ----

  /** The same run with everything but membership calls seen as some other move. */
  function Coarse(matrix: Matrix, logRoom: Id, start: World, moves: seq<Move>): (r: seq<AR.Move>)
    ensures |r| == |moves|
  {
    seq(|moves|, k requires 0 <= k < |moves| =>
      if moves[k].MembershipCall? then AR.MembershipMove(moves[k].membership)
      else AR.OtherMove(At(matrix, logRoom, start, moves, k + 1).state))
  }

  predicate CoarseAgrees(matrix: Matrix, logRoom: Id, start: World, moves: seq<Move>, k: nat)
    requires k <= |moves|
  {
    AR.At(matrix, logRoom, MembershipHalf(start), Coarse(matrix, logRoom, start, moves), k)
    == MembershipHalf(At(matrix, logRoom, start, moves, k))
  }

  lemma {:induction false} CoarseRunAgrees(matrix: Matrix, logRoom: Id, start: World, moves: seq<Move>, k: nat)
    requires k <= |moves|
    ensures CoarseAgrees(matrix, logRoom, start, moves, k)
  {
    if k == 0 {
      hide Coarse, AR.Next, Next;
    } else {
      hide *;
      CoarseRunAgrees(matrix, logRoom, start, moves, k - 1);
      CoarseOneMore(matrix, logRoom, start, moves, k - 1);
    }
  }

  lemma CoarseOneMore(matrix: Matrix, logRoom: Id, start: World, moves: seq<Move>, k: nat)
    requires k < |moves| && CoarseAgrees(matrix, logRoom, start, moves, k)
    ensures CoarseAgrees(matrix, logRoom, start, moves, k + 1)
  {
    hide AR.Next, At, Next, MembershipHalf;
    OneMore(matrix, logRoom, start, moves, k);
    CoarseMove(matrix, logRoom, At(matrix, logRoom, start, moves, k), moves[k]);
    var coarse := Coarse(matrix, logRoom, start, moves);
    assert AR.At(matrix, logRoom, MembershipHalf(start), coarse, k + 1)
      == AR.Next(matrix, logRoom, AR.At(matrix, logRoom, MembershipHalf(start), coarse, k), coarse[k]);
  }

  lemma CoarseMove(matrix: Matrix, logRoom: Id, w: World, move: Move)
    ensures var coarse := if move.MembershipCall? then AR.MembershipMove(move.membership)
                          else AR.OtherMove(Next(matrix, logRoom, w, move).state);
      AR.Next(matrix, logRoom, MembershipHalf(w), coarse) == MembershipHalf(Next(matrix, logRoom, w, move))
  {
    match move
    case MembershipCall(input) => hide MR.Next;
    case GovernanceCall(input) => hide Governance.Step;
    case RoomEvent(event) =>
      if RoomLog.Reduce(w.state, event).Ok? {
        RoomLogRuns.ReduceAdvances(w.state, event);
        hide RoomLog.Reduce;
      }
  }

  function RecordAt(matrix: Matrix, logRoom: Id, start: World, moves: seq<Move>, k: nat, id: Id): Option<Record>
    requires k <= |moves|
  {
    FindRecord(At(matrix, logRoom, start, moves, k).state.records, id)
  }

  /** The record is the same one in every state from i to j. */
  ghost predicate Untouched(matrix: Matrix, logRoom: Id, start: World, moves: seq<Move>, i: nat, j: nat, id: Id)
    requires i <= j <= |moves|
  {
    forall k :: i <= k <= j ==>
      RecordAt(matrix, logRoom, start, moves, k, id) == RecordAt(matrix, logRoom, start, moves, i, id)
  }

  lemma UntouchedCoarse(matrix: Matrix, logRoom: Id, start: World, moves: seq<Move>, i: nat, j: nat, id: Id)
    requires i <= j <= |moves|
    ensures Untouched(matrix, logRoom, start, moves, i, j, id) <==>
      AR.Untouched(matrix, logRoom, MembershipHalf(start), Coarse(matrix, logRoom, start, moves), i, j, id)
  {
    forall k | i <= k <= j
      ensures AR.RecordAt(matrix, logRoom, MembershipHalf(start), Coarse(matrix, logRoom, start, moves), k, id)
           == RecordAt(matrix, logRoom, start, moves, k, id)
    {
      CoarseRunAgrees(matrix, logRoom, start, moves, k);
    }
    hide At, AR.At, Coarse, FindRecord;
  }

  // ---- The environment ----

  /** The lifecycle is the same in every state from i to j. */
  ghost predicate LifecycleKept(matrix: Matrix, logRoom: Id, start: World, moves: seq<Move>, i: nat, j: nat)
    requires i <= j <= |moves|
  {
    forall k :: i <= k <= j ==>
      At(matrix, logRoom, start, moves, k).state.lifecycle == At(matrix, logRoom, start, moves, i).state.lifecycle
  }

  /** The lifecycle being one-way, it is kept in between when it is the same at the ends. */
  lemma LifecycleKeptIff(matrix: Matrix, logRoom: Id, start: World, moves: seq<Move>, i: nat, j: nat)
    requires i <= j <= |moves| && Agrees(start)
    ensures LifecycleKept(matrix, logRoom, start, moves, i, j) <==>
      At(matrix, logRoom, start, moves, i).state.lifecycle == At(matrix, logRoom, start, moves, j).state.lifecycle
  {
    hide At, Updates;
    forall k | i <= k <= j
      ensures RoomLogRuns.LifecycleReachable(At(matrix, logRoom, start, moves, i).state.lifecycle,
                                             At(matrix, logRoom, start, moves, k).state.lifecycle)
      ensures RoomLogRuns.LifecycleReachable(At(matrix, logRoom, start, moves, k).state.lifecycle,
                                             At(matrix, logRoom, start, moves, j).state.lifecycle)
    {
      RunAdvances(matrix, logRoom, start, moves, i, k);
      RunAdvances(matrix, logRoom, start, moves, k, j);
    }
  }

  /**
   * No update in between and the same flags, unless the room has a counter; or,
   * for a context from before the counter, a fingerprint equal to the revision
   * that the updates have reached.
   */
  predicate PolicyUnnoticed(state: RoomState, revision: nat, updates: nat, p: RoomPolicy, q: RoomPolicy) {
    if updates == 0 then state.policyRevision.None? ==> p == q
    else state.policyRevision.None? && Fingerprint(p) == revision + updates
  }

  lemma SameEnvironmentIff(matrix: Matrix, logRoom: Id, start: World, moves: seq<Move>, i: nat, j: nat,
                           p: RoomPolicy, a: Option<PolicyComposition.PostureSignal>,
                           q: RoomPolicy, b: Option<PolicyComposition.PostureSignal>)
    requires i <= j <= |moves| && Agrees(start)
    ensures var w, w' := At(matrix, logRoom, start, moves, i), At(matrix, logRoom, start, moves, j);
      SameEnvironment(w.state, p, a, w'.state, q, b) <==>
        && PolicyUnnoticed(w.state, w.policy.revision, Updates(matrix, logRoom, start, moves, i, j), p, q)
        && LifecycleKept(matrix, logRoom, start, moves, i, j)
        && PolicyComposition.ResolveEffectivePosture(a) == PolicyComposition.ResolveEffectivePosture(b)
  {
    hide At, Updates, Fingerprint, PolicyComposition.ResolveEffectivePosture, RoomLogRuns.LifecycleReachable;
    LifecycleKeptIff(matrix, logRoom, start, moves, i, j);
    StartAgrees(matrix, logRoom, start, moves, i);
    RunAdvances(matrix, logRoom, start, moves, i, j);
    hide LifecycleKept;
    PolicyFenceHoldsIff(At(matrix, logRoom, start, moves, i).state, p, At(matrix, logRoom, start, moves, j).state, q);
  }

  // ---- No ABA ----

  /**
   * A context prepared at step i and used at step j, with the records of the
   * projection, is accepted if and only if in between nothing touched the
   * actor's or the target's record, the lifecycle never moved, no governance
   * update was accepted, and posture, binding and decision are in order - with
   * the one exception that a room without a counter has reached a revision equal
   * to the fingerprint of the flags the context was prepared under.
   */
  lemma NoAba(matrix: Matrix, logRoom: Id, start: World, moves: seq<Move>, i: nat, j: nat,
              membership: Record, p: RoomPolicy, request: Request, risk: bool,
              a: Option<PolicyComposition.PostureSignal>,
              m: Record, q: RoomPolicy, decision: Decision, actual: Request, b: Option<PolicyComposition.PostureSignal>)
    requires i <= j <= |moves| && Agrees(start)
    requires Prepare(At(matrix, logRoom, start, moves, i).state, membership, p, request, risk, a).Ok?
    requires RecordAt(matrix, logRoom, start, moves, j, membership.membershipId) == Some(m)
    requires AR.TargetFromProjection(request, At(matrix, logRoom, start, moves, i).state.records)
    requires AR.TargetFromProjection(actual, At(matrix, logRoom, start, moves, j).state.records)
    ensures var w, w' := At(matrix, logRoom, start, moves, i), At(matrix, logRoom, start, moves, j);
      Revalidate(Prepare(w.state, membership, p, request, risk, a).value, w'.state, m, q, decision, actual,
                 b).Pass? <==>
        && PolicyUnnoticed(w.state, w.policy.revision, Updates(matrix, logRoom, start, moves, i, j), p, q)
        && LifecycleKept(matrix, logRoom, start, moves, i, j)
        && PolicyComposition.ResolveEffectivePosture(a) == PolicyComposition.ResolveEffectivePosture(b)
        && Untouched(matrix, logRoom, start, moves, i, j, membership.membershipId)
        && AR.SameBinding(request, actual)
        && (request.target.Some? ==> Untouched(matrix, logRoom, start, moves, i, j, request.target.value.membershipId))
        && Authorizes(decision, actual.sideEffect)
  {
    hide *;
    CoarseRunAgrees(matrix, logRoom, start, moves, i);
    CoarseRunAgrees(matrix, logRoom, start, moves, j);
    HalfStates(matrix, logRoom, start, moves, i);
    HalfStates(matrix, logRoom, start, moves, j);
    RecordAtIs(matrix, logRoom, start, moves, j, membership.membershipId);
    AR.NoAba(matrix, logRoom, MembershipHalf(start), Coarse(matrix, logRoom, start, moves), i, j,
             membership, p, request, risk, a, m, q, decision, actual, b);
    SameEnvironmentIff(matrix, logRoom, start, moves, i, j, p, a, q, b);
    UntouchedCoarse(matrix, logRoom, start, moves, i, j, membership.membershipId);
    if request.target.Some? {
      UntouchedCoarse(matrix, logRoom, start, moves, i, j, request.target.value.membershipId);
    }
  }

  lemma HalfStates(matrix: Matrix, logRoom: Id, start: World, moves: seq<Move>, k: nat)
    requires k <= |moves| && CoarseAgrees(matrix, logRoom, start, moves, k)
    ensures AR.At(matrix, logRoom, MembershipHalf(start), Coarse(matrix, logRoom, start, moves), k).state
         == At(matrix, logRoom, start, moves, k).state
  {
    hide At, AR.At, Coarse;
  }

  lemma RecordAtIs(matrix: Matrix, logRoom: Id, start: World, moves: seq<Move>, k: nat, id: Id)
    requires k <= |moves|
    ensures AR.RecordAt(matrix, logRoom, MembershipHalf(start), Coarse(matrix, logRoom, start, moves), k, id)
         == RecordAt(matrix, logRoom, start, moves, k, id)
  {
    CoarseRunAgrees(matrix, logRoom, start, moves, k);
    hide At, AR.At, Coarse, FindRecord;
  }
}
