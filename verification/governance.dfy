/** Governance commands, the candidate policy, the governance log, and the tighten-only pipeline. */
module Governance {
  import opened Common
  import opened Privacy
  import opened EventLogs
  import opened RoomStates
  import opened PolicyDocuments
  import opened PolicyComparison
  import opened Authorization
  import Capabilities
  import PolicyComposition

  // ---- Commands ----

  datatype Change =
    | DisableFeatures(features: seq<Feature>)
    | RaisePosture(newMinimum: MinimumPosture)
    | RaiseSensitivity(newSensitivity: RoomSensitivity)
    | StrengthenProtected(newRequirement: ProtectedContent)
    | DisableFeature(feature: Feature)

  datatype Command = Command(roomId: Id, actorMembershipId: Id, expectedRevision: nat, mode: PrivacyMode,
                             change: Change)

  datatype GovernanceError =
    | InvalidField | UnknownPolicyInput | RoomMismatch | ActorNotFound | RevisionMismatch
    | NotCurrent(error: AuthorizationError) | NotTightening(direction: Direction) | LogDenied

  /** The features named by a list, each once, in order of first mention. */
  function Mentioned(value: seq<Option<Feature>>): (out: seq<Feature>)
    ensures forall f :: f in out <==> Some(f) in value
    ensures forall i, j :: 0 <= i < j < |out| ==> out[i] != out[j]
  {
    if value == [] then []
    else
      var before, last := Mentioned(value[..|value| - 1]), value[|value| - 1];
      assert value == value[..|value| - 1] + [last];
      if last.Some? && last.value !in before then before + [last.value] else before
  }

  /** Each listed feature stands where it was first mentioned: just the ones before it were mentioned earlier. */
  lemma {:induction false} MentionedInOrder(value: seq<Option<Feature>>, i: nat)
    requires i < |Mentioned(value)|
    ensures exists k ::
      && 0 <= k < |value| && value[k] == Some(Mentioned(value)[i])
      && forall f :: f in Mentioned(value)[..i] <==> Some(f) in value[..k]
  {
    var n := |value| - 1;
    var before, now := Mentioned(value[..n]), Mentioned(value);
    assert now == before || (now == before + [now[|before|]] && value[n] == Some(now[|before|]));
    assert forall f :: f in before <==> Some(f) in value[..n];
    hide Mentioned;
    if i < |before| {
      MentionedInOrder(value[..n], i);
      var k :|
        && 0 <= k < n && value[..n][k] == Some(before[i])
        && forall f :: f in before[..i] <==> Some(f) in value[..n][..k];
      assert now[..i] == before[..i] && value[..n][..k] == value[..k];
      assert value[k] == Some(now[i]);
    } else {
      assert now[..i] == before;
    }
  }

  /** Validating a feature list; an unknown name is `None`. */
  method RequireFeatures(value: seq<Option<Feature>>) returns (r: Result<seq<Feature>, GovernanceError>)
    ensures r.Ok? <==> 1 <= |value| <= |FEATURES| && None !in value
    ensures r.Ok? ==> r.value == Mentioned(value)
  {
    if |value| == 0 || |value| > |FEATURES| {
      return Err(InvalidField);
    }
    var seen: set<Feature> := {};
    var out: seq<Feature> := [];
    for n := 0 to |value|
      invariant None !in value[..n]
      invariant forall f :: f in seen <==> f in out
      invariant out == Mentioned(value[..n])
    {
      assert value[..n + 1][..n] == value[..n];
      if value[n].None? {
        return Err(UnknownPolicyInput);
      }
      var f := value[n].value;
      if f !in seen {
        seen := seen + {f};
        out := out + [f];
      }
    }
    assert value[..|value|] == value;
    return Ok(out);
  }

  // ---- The candidate ----

  function WithFeatureDisabled(rules: Rules, f: Feature): Rules {
    rules.(allowed := rules.allowed - {f})
  }

  function FeatureSet(fs: seq<Feature>): set<Feature> {
    set f | f in fs
  }

  /** The changed field takes the commanded value, also when that is weaker. */
  function ChangedRules(rules: Rules, change: Change): Rules {
    match change
    case DisableFeatures(fs) => rules.(allowed := rules.allowed - FeatureSet(fs))
    case RaisePosture(p) => rules.(minimumPosture := p)
    case RaiseSensitivity(s) => rules.(sensitivity := s)
    case StrengthenProtected(c) => rules.(protectedContent := c)
    case DisableFeature(f) => WithFeatureDisabled(rules, f)
  }

  function Candidate(current: PolicyDocument, change: Change): PolicyDocument {
    current.(revision := current.revision + 1, rules := ChangedRules(current.rules, change))
  }

  method BuildCandidateRoomPolicy(current: PolicyDocument, change: Change) returns (candidate: PolicyDocument)
    ensures candidate == Candidate(current, change)
  {
    var nextRevision := current.revision + 1;
    match change
    case DisableFeatures(features) =>
      var rules := current.rules;
      for i := 0 to |features|
        invariant rules == current.rules.(allowed := current.rules.allowed - FeatureSet(features[..i]))
      {
        assert features[..i + 1] == features[..i] + [features[i]];
        rules := WithFeatureDisabled(rules, features[i]);
        assert rules.allowed == current.rules.allowed - FeatureSet(features[..i + 1]);
      }
      assert features[..|features|] == features;
      return current.(revision := nextRevision, rules := rules);
    case RaisePosture(p) => return current.(revision := nextRevision, rules := current.rules.(minimumPosture := p));
    case RaiseSensitivity(s) => return current.(revision := nextRevision, rules := current.rules.(sensitivity := s));
    case StrengthenProtected(c) =>
      return current.(revision := nextRevision, rules := current.rules.(protectedContent := c));
    case DisableFeature(f) => return current.(revision := nextRevision, rules := WithFeatureDisabled(current.rules, f));
  }

  // ---- Events, log and reducer ----

  datatype Event = Event(
    eventId: string, roomId: Id, actorMembershipId: Id, localSequence: nat, createdAtLocal: string,
    previousRevision: nat, resultingRevision: nat, resultingPolicy: PolicyDocument)

  /** Unlike the other logs this one checks neither room nor sequence, only the decision. */
  function GovernanceAppend(log: LogState<Event>, event: Event,
                            decision: Decision): Result<LogState<Event>, GovernanceError> {
    if !Authorizes(decision, GovernanceLogAppend) then Err(LogDenied)
    else match log
      case MemoryLog(events) => Ok(MemoryLog(events + [event]))
      case NullLog(_) => Ok(NullLog(event.localSequence))
  }

  class GovernanceLog {
    const retention: Retention
    var events: seq<Event>
    var last: nat

    constructor (retention: Retention)
      ensures this.retention == retention
      ensures State() == if retention.MemoryOnlyRetention? then MemoryLog([]) else NullLog(0)
    {
      this.retention, events, last := retention, [], 0;
    }

    function State(): LogState<Event>
      reads this
    {
      if retention.MemoryOnlyRetention? then MemoryLog(events) else NullLog(last)
    }

    method Append(event: Event, decision: Decision) returns (r: Result<bool, GovernanceError>)
      modifies this
      ensures GovernanceAppend(old(State()), event, decision) == if r.Ok? then Ok(State()) else Err(r.error)
      ensures r.Err? ==> State() == old(State())
      ensures r.Ok? ==> (r.value <==> retention.MemoryOnlyRetention?)
    {
      if !Authorizes(decision, GovernanceLogAppend) {
        return Err(LogDenied);
      }
      if retention.MemoryOnlyRetention? {
        events := events + [event];
      } else {
        last := event.localSequence;
      }
      return Ok(retention.MemoryOnlyRetention?);
    }

    method NextLocalSequence() returns (n: nat)
      ensures n == NextSequence(State())
    {
      n := if retention.MemoryOnlyRetention? then |events| + 1 else last + 1;
    }
  }

  function ReduceEvent(current: PolicyDocument, event: Event): Result<PolicyDocument, GovernanceError> {
    if current.revision != event.previousRevision then Err(RevisionMismatch)
    else if current.roomId != event.roomId then Err(RoomMismatch)
    else Ok(event.resultingPolicy)
  }

  // ---- The pipeline ----

  datatype Input = Input(
    command: Command, prepared: Prepared, decision: Decision, storageDecision: Decision, roomPolicy: RoomPolicy,
    signal: Option<PolicyComposition.PostureSignal>, eventId: string, now: string)

  const TIGHTEN_REQUEST := Request(Capabilities.PolicyTighten, GovernanceUpdate, None, None, None, None)

  function Guard(state: RoomState, current: PolicyDocument, input: Input): Check<GovernanceError> {
    var command := input.command;
    var actor := FindRecord(state.records, command.actorMembershipId);
    if command.roomId != state.roomId then Fail(RoomMismatch)
    else if actor.None? then Fail(ActorNotFound)
    else if command.expectedRevision != current.revision then Fail(RevisionMismatch)
    else match Revalidate(input.prepared, state, actor.value, input.roomPolicy, input.decision, TIGHTEN_REQUEST,
                          input.signal)
      case Fail(e) => Fail(NotCurrent(e))
      case Pass => Pass
  }

  function BuildEvent(input: Input, current: PolicyDocument, candidate: PolicyDocument, sequence: nat): Event {
    Event(input.eventId, candidate.roomId, input.command.actorMembershipId, sequence, LocalLabel(input.now),
          current.revision, candidate.revision, candidate)
  }

  datatype StepOutcome = StepOutcome(log: LogState<Event>, result: Result<PolicyDocument, GovernanceError>)

  function Step(state: RoomState, current: PolicyDocument, log: LogState<Event>, input: Input): StepOutcome {
    var candidate := Candidate(current, input.command.change);
    var event := BuildEvent(input, current, candidate, NextSequence(log));
    if Guard(state, current, input).Fail? then StepOutcome(log, Err(Guard(state, current, input).error))
    else if Compare(current, candidate) != Stricter
      then StepOutcome(log, Err(NotTightening(Compare(current, candidate))))
    else if ReduceEvent(current, event).Err? then StepOutcome(log, ReduceEvent(current, event))
    else match GovernanceAppend(log, event, input.storageDecision)
      case Err(e) => StepOutcome(log, Err(e))
      case Ok(log') => StepOutcome(log', ReduceEvent(current, event))
  }

  function Governed(state: RoomState, next: PolicyDocument): RoomState {
    state.(policyDocument := Some(next), policyRevision := Some(next.revision))
  }

  /** The dry run cannot fail: an event always fits the policy it was built from. */
  lemma DryRunPasses(current: PolicyDocument, input: Input, sequence: nat)
    ensures var candidate := Candidate(current, input.command.change);
      ReduceEvent(current, BuildEvent(input, current, candidate, sequence)) == Ok(candidate)
  {
  }

  datatype Applied = Applied(event: Event, nextState: RoomState, nextPolicy: PolicyDocument, retained: bool)

  method ApplyLocalRoomGovernanceUpdate(state: RoomState, currentPolicy: PolicyDocument, input: Input,
                                        operationLog: GovernanceLog)
    returns (r: Result<Applied, GovernanceError>)
    modifies operationLog
    ensures StepOutcome(operationLog.State(), if r.Ok? then Ok(r.value.nextPolicy) else Err(r.error))
         == Step(state, currentPolicy, old(operationLog.State()), input)
    ensures r.Err? ==> operationLog.State() == old(operationLog.State())
    ensures r.Ok? ==>
      && r.value.nextState == Governed(state, r.value.nextPolicy)
      && (r.value.retained <==> operationLog.State().MemoryLog?)
  {
    hide Guard, Candidate, Compare, BuildEvent, ReduceEvent;
    var guarded := Guard(state, currentPolicy, input);
    if guarded.Fail? {
      return Err(guarded.error);
    }
    var candidate := BuildCandidateRoomPolicy(currentPolicy, input.command.change);
    var direction := CompareRoomPolicies(currentPolicy, candidate);
    if direction != Stricter {
      return Err(NotTightening(direction));
    }
    var sequence := operationLog.NextLocalSequence();
    var event := BuildEvent(input, currentPolicy, candidate, sequence);
    DryRunPasses(currentPolicy, input, sequence);
    var dry := ReduceEvent(currentPolicy, event);
    assert dry.Ok?;
    var append := operationLog.Append(event, input.storageDecision);
    if append.Err? {
      return Err(append.error);
    }
    var next := ReduceEvent(currentPolicy, event);
    return Ok(Applied(event, Governed(state, next.value), next.value, append.value));
  }
}
