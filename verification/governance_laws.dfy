/** When a governance update is accepted, spelled out in what the caller sends and what the room is. */
module GovernanceLaws {
  import opened Common
  import opened Privacy
  import opened EventLogs
  import opened RoomStates
  import opened PolicyDocuments
  import opened PolicyComparison
  import opened Authorization
  import opened Governance
  import opened GovernanceRuns
  import Capabilities
  import PolicyComposition

  /** An issued, allowed decision for just this scope. */
  predicate Decided(d: Decision, scope: Scope) {
    d.authentic && d.allowed && d.capability.Persistence? && d.sideEffect == scope
  }

  /** The context was prepared for tightening the policy, and for nothing narrower. */
  predicate ForTightening(r: Request) {
    && r.capability.PolicyTighten? && r.sideEffect.GovernanceUpdate?
    && r.objectId.None? && r.objectKind.None? && r.view.None? && r.target.None?
  }

  /**
   * Exactly when an update with a genuinely prepared context is accepted: sent to
   * its room by the member it was prepared for, expecting the current revision,
   * with everything as it was prepared, two decisions, and rules that become
   * stricter in at least one field and weaker in none.
   */
  lemma AcceptedIff(s: RoomState, membership: Record, p: RoomPolicy, request: Request, risk: bool,
                    a: Option<PolicyComposition.PostureSignal>, w: World, input: Input)
    requires Prepare(s, membership, p, request, risk, a) == Ok(input.prepared)
    ensures Accepted(w, input) <==>
      var command, changed := input.command, ChangedRules(w.policy.rules, input.command.change);
      && command.roomId == w.state.roomId && command.expectedRevision == w.policy.revision
      && command.actorMembershipId == membership.membershipId
      && ActorAsPrepared(s, w.state, membership.membershipId)
      && SameEnvironment(s, p, a, w.state, input.roomPolicy, input.signal) && ForTightening(request)
      && Decided(input.decision, GovernanceUpdate) && Decided(input.storageDecision, GovernanceLogAppend)
      && Tightens(w.policy.rules, changed) && changed != w.policy.rules
  {
    hide *;
    GovernanceRuns.AcceptedIff(w, input);
    StricterIff(w.policy, input.command.change);
    FencePassesIff(s, membership, p, request, risk, a, w.state, input);
    DecidedIff(input.storageDecision, GovernanceLogAppend);
  }

  lemma DecidedIff(d: Decision, scope: Scope)
    ensures Authorizes(d, scope) <==> Decided(d, scope)
  {
  }

  /** The fence, for the actor the command names. */
  lemma FencePassesIff(s: RoomState, membership: Record, p: RoomPolicy, request: Request, risk: bool,
                       a: Option<PolicyComposition.PostureSignal>, t: RoomState, input: Input)
    requires Prepare(s, membership, p, request, risk, a) == Ok(input.prepared)
    ensures var actor := FindRecord(t.records, input.command.actorMembershipId);
      actor.Some? && Revalidate(input.prepared, t, actor.value, input.roomPolicy, input.decision,
                                Request(Capabilities.PolicyTighten, GovernanceUpdate, None, None, None, None),
                                input.signal).Pass? <==>
        && input.command.actorMembershipId == membership.membershipId
        && ActorAsPrepared(s, t, membership.membershipId)
        && SameEnvironment(s, p, a, t, input.roomPolicy, input.signal) && ForTightening(request)
        && Decided(input.decision, GovernanceUpdate)
  {
    PreparedFor(s, membership, p, request, risk, a);
    hide Prepare, Revalidate, SameEnvironment, RecordFrom;
    var actor := FindRecord(t.records, input.command.actorMembershipId);
    if actor.Some? {
      RevalidatedIff(s, membership, p, request, risk, a, t, actor.value, input.roomPolicy, input.decision,
                     Request(Capabilities.PolicyTighten, GovernanceUpdate, None, None, None, None), input.signal);
    }
  }

  /** The member has a record in both rooms, and it is the same one as far as authority goes. */
  predicate ActorAsPrepared(s: RoomState, t: RoomState, id: Id) {
    var before, now := FindRecord(s.records, id), FindRecord(t.records, id);
    before.Some? && now.Some? && SameAuthorityRecord(before.value, now.value)
  }

  lemma PreparedFor(s: RoomState, membership: Record, p: RoomPolicy, request: Request, risk: bool,
                    a: Option<PolicyComposition.PostureSignal>)
    requires Prepare(s, membership, p, request, risk, a).Ok?
    ensures FindRecord(s.records, membership.membershipId).Some?
    ensures FindRecord(s.records, membership.membershipId).value.membershipId == membership.membershipId
  {
    hide PolicyRevisionOf, PolicyComposition.ResolveEffectivePosture, Capabilities.ResolveLocalCapability;
  }

  lemma StricterIff(current: PolicyDocument, change: Change)
    ensures Compare(current, Candidate(current, change)).Stricter? <==>
      Tightens(current.rules, ChangedRules(current.rules, change))
        && ChangedRules(current.rules, change) != current.rules
  {
    TightensIsPartialOrder(current.rules, ChangedRules(current.rules, change), current.rules);
    hide Tightens, ChangedRules;
  }

  /** Of two accepted updates of a run the later one expects a strictly larger revision: none is accepted twice. */
  lemma LaterUpdateExpectsMore(start: World, inputs: seq<Input>, i: nat, j: nat)
    requires i < j < |inputs| && Accepted(At(start, inputs, i), inputs[i]) && Accepted(At(start, inputs, j), inputs[j])
    ensures inputs[i].command.expectedRevision == At(start, inputs, i).policy.revision
    ensures inputs[i].command.expectedRevision < inputs[j].command.expectedRevision
  {
    hide *;
    GovernanceRuns.AcceptedIff(At(start, inputs, i), inputs[i]);
    GovernanceRuns.AcceptedIff(At(start, inputs, j), inputs[j]);
    RevisionCountsAccepted(start, inputs, i);
    RevisionCountsAccepted(start, inputs, j);
    CountsMore(start, inputs, i, j);
  }

  lemma {:induction false} CountsMore(start: World, inputs: seq<Input>, i: nat, j: nat)
    requires i < j <= |inputs| && Accepted(At(start, inputs, i), inputs[i])
    ensures AcceptedCount(start, inputs, i) < AcceptedCount(start, inputs, j)
    decreases j
  {
    hide Accepted, At;
    if i < j - 1 {
      CountsMore(start, inputs, i, j - 1);
    }
  }

  /** What an event records of the call and of the two policies. */
  lemma EventRecords(input: Input, current: PolicyDocument, sequence: nat)
    ensures var candidate := Candidate(current, input.command.change);
      var e := BuildEvent(input, current, candidate, sequence);
      && e.eventId == input.eventId && e.actorMembershipId == input.command.actorMembershipId
      && e.roomId == current.roomId && e.localSequence == sequence && e.createdAtLocal == LocalLabel(input.now)
      && e.previousRevision == current.revision && e.resultingRevision == current.revision + 1
      && e.resultingPolicy
           == PolicyDocument(current.roomId, current.revision + 1, ChangedRules(current.rules, input.command.change))
  {
    hide LocalLabel, ChangedRules;
  }

  /** Exactly when any event reduces on any policy, and what it then gives. */
  lemma ReducedIff(current: PolicyDocument, e: Event)
    ensures ReduceEvent(current, e).Ok? <==> current.revision == e.previousRevision && current.roomId == e.roomId
    ensures ReduceEvent(current, e).Ok? ==> ReduceEvent(current, e).value == e.resultingPolicy
  {
  }
}
