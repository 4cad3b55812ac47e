/** Properties of every run of governance updates: confluence, bounded length, tightening. */
module GovernanceRuns {
  import opened Common
  import opened Privacy
  import opened EventLogs
  import opened RoomStates
  import opened PolicyDocuments
  import opened PolicyComparison
  import opened Governance
  import opened Authorization
  import Capabilities
  import PolicyComposition

  datatype World = World(state: RoomState, policy: PolicyDocument, log: LogState<Event>)

  function Next(w: World, input: Input): World {
    var s := Step(w.state, w.policy, w.log, input);
    if s.result.Ok? then World(Governed(w.state, s.result.value), s.result.value, s.log) else w.(log := s.log)
  }

  function At(start: World, inputs: seq<Input>, k: nat): World
    requires k <= |inputs|
  {
    if k == 0 then start else Next(At(start, inputs, k - 1), inputs[k - 1])
  }

  predicate Accepted(w: World, input: Input) {
    Step(w.state, w.policy, w.log, input).result.Ok?
  }

  /** Everything but the direction of the change is in order. */
  predicate Authorised(w: World, input: Input) {
    Guard(w.state, w.policy, input).Pass? && Authorizes(input.storageDecision, GovernanceLogAppend)
  }

  // ---- One update ----

  const LOOSEST := Rules(Normal, AnyPosture, NoProtection, EncryptedFuture, ALL_FEATURES)

  /** The least rules that meet what a change asks for. */
  function TargetOf(change: Change): Rules {
    match change
    case DisableFeatures(fs) => LOOSEST.(allowed := ALL_FEATURES - FeatureSet(fs))
    case RaisePosture(p) => LOOSEST.(minimumPosture := p)
    case RaiseSensitivity(s) => LOOSEST.(sensitivity := s)
    case StrengthenProtected(c) => LOOSEST.(protectedContent := c)
    case DisableFeature(f) => LOOSEST.(allowed := ALL_FEATURES - {f})
  }

  lemma FeaturesAreAll(fs: set<Feature>)
    ensures fs <= ALL_FEATURES && |fs| <= 10
  {
    forall f | f in fs ensures f in ALL_FEATURES {
      EveryFeatureListed(f);
    }
    SubsetSize(fs, ALL_FEATURES);
  }

  lemma {:induction false} SubsetSize(a: set<Feature>, b: set<Feature>)
    requires a <= b
    ensures |a| <= |b| && (a != b ==> |a| < |b|)
    decreases |a|
  {
    if a != {} {
      var f :| f in a;
      SubsetSize(a - {f}, b - {f});
      assert (a - {f}) + {f} == a && (b - {f}) + {f} == b;
    } else if b != {} {
      var f :| f in b;
    }
  }

  /** A single-field change compares as stricter, equal or looser, never as incomparable or unknown. */
  lemma ChangeIsComparable(current: PolicyDocument, change: Change)
    ensures var d := Compare(current, Candidate(current, change));
      && !d.Incomparable? && !d.Unknown?
      && (change.DisableFeatures? || change.DisableFeature? ==> !d.Looser?)
  {
  }

  /** Stricter candidates are the join with the target; for all others the join changes nothing. */
  lemma CandidateIsJoin(current: PolicyDocument, change: Change)
    ensures Join(current.rules, TargetOf(change)) ==
      if Compare(current, Candidate(current, change)).Stricter? then ChangedRules(current.rules, change)
        else current.rules
  {
    FeaturesAreAll(current.rules.allowed);
    var allowed := current.rules.allowed;
    assert allowed * ALL_FEATURES == allowed;
    match change
    case DisableFeatures(fs) =>
      assert allowed * (ALL_FEATURES - FeatureSet(fs)) == allowed - FeatureSet(fs);
    case DisableFeature(f) =>
      assert allowed * (ALL_FEATURES - {f}) == allowed - {f};
    case _ =>
  }

  /** Past the guard and with the storage decision, only the direction of the change decides. */
  lemma AcceptedIfStricter(w: World, input: Input)
    ensures Accepted(w, input) <==>
      Authorised(w, input) && Compare(w.policy, Candidate(w.policy, input.command.change)).Stricter?
    ensures Accepted(w, input) ==> Next(w, input).policy == Candidate(w.policy, input.command.change)
  {
    hide Guard, Compare;
    DryRunPasses(w.policy, input, NextSequence(w.log));
  }

  /** Exactly when a call is accepted, independently of the order of the checks. */
  lemma AcceptedIff(w: World, input: Input)
    ensures Accepted(w, input) <==>
      && input.command.roomId == w.state.roomId && input.command.expectedRevision == w.policy.revision
      && FindRecord(w.state.records, input.command.actorMembershipId).Some?
      && Revalidate(input.prepared, w.state, FindRecord(w.state.records, input.command.actorMembershipId).value,
                    input.roomPolicy, input.decision,
                    Request(Capabilities.PolicyTighten, GovernanceUpdate, None, None, None, None), input.signal).Pass?
      && Authorizes(input.storageDecision, GovernanceLogAppend)
      && Compare(w.policy, Candidate(w.policy, input.command.change)).Stricter?
  {
    AcceptedIfStricter(w, input);
    hide Accepted, Next, Compare, Revalidate, RecordFrom, Authorizes, Candidate;
  }

  /** A failing call leaves policy, state and log as they were, whatever they are. */
  lemma FailureIsAtomic(w: World, input: Input)
    requires !Accepted(w, input)
    ensures Next(w, input) == w
  {
    hide Guard, Compare;
    DryRunPasses(w.policy, input, NextSequence(w.log));
  }

  /** An accepted call appends its event, whose number is the next one, and replaces the policy. */
  lemma AcceptedExtendsLog(w: World, input: Input)
    requires Accepted(w, input)
    ensures var w' := Next(w, input);
      && w'.state == w.state.(policyDocument := Some(w'.policy), policyRevision := Some(w'.policy.revision))
      && (w.log.MemoryLog? ==>
            && w'.log.MemoryLog? && |w'.log.events| == |w.log.events| + 1
            && w'.log.events[..|w.log.events|] == w.log.events
            && w'.log.events[|w.log.events|].localSequence == |w.log.events| + 1
            && ReduceEvent(w.policy, w'.log.events[|w.log.events|]) == Ok(w'.policy))
      && (w.log.NullLog? ==> w'.log == NullLog(w.log.lastSequence + 1))
  {
    hide Guard, Compare, Candidate;
  }

  /** Whether accepted or rejected as not stricter, an authorised call leaves the join. */
  lemma NextRules(w: World, input: Input)
    ensures Next(w, input).policy.rules ==
      if Authorised(w, input) then Join(w.policy.rules, TargetOf(input.command.change)) else w.policy.rules
    ensures Tightens(w.policy.rules, Next(w, input).policy.rules)
    ensures Next(w, input).policy.roomId == w.policy.roomId
  {
    AcceptedIfStricter(w, input);
    CandidateIsJoin(w.policy, input.command.change);
    JoinIsLeastUpperBound(w.policy.rules, TargetOf(input.command.change), w.policy.rules);
    hide Authorised, Compare, ChangedRules, Join, TargetOf, Tightens;
    if !Accepted(w, input) {
      FailureIsAtomic(w, input);
      TightensIsPartialOrder(w.policy.rules, w.policy.rules, w.policy.rules);
    }
    hide Accepted, Next;
  }

  // ---- Confluence ----

  /** The targets of the authorised calls among the first k. */
  function Targets(start: World, inputs: seq<Input>, k: nat): seq<Rules>
    requires k <= |inputs|
  {
    if k == 0 then []
    else Targets(start, inputs, k - 1)
         + if Authorised(At(start, inputs, k - 1), inputs[k - 1]) then [TargetOf(inputs[k - 1].command.change)] else []
  }

  /** The rules are always the join of the first ones with every authorised target. */
  lemma {:induction false} RulesAreJoinOfTargets(start: World, inputs: seq<Input>, k: nat)
    requires k <= |inputs|
    ensures At(start, inputs, k).policy.rules == JoinAll(start.policy.rules, Targets(start, inputs, k))
  {
    hide Authorised, Next, Join, TargetOf;
    if k > 0 {
      RulesAreJoinOfTargets(start, inputs, k - 1);
      NextRules(At(start, inputs, k - 1), inputs[k - 1]);
      var before, now := Targets(start, inputs, k - 1), Targets(start, inputs, k);
      if now != before {
        assert now[..|now| - 1] == before;
      }
    }
  }

  /**
   * Confluence. Two runs from the same policy whose authorised calls ask for the
   * same changes, in whatever order, end with the same rules, even when different
   * calls of the two were accepted.
   */
  lemma Confluence(start: World, xs: seq<Input>, other: World, ys: seq<Input>)
    requires start.policy.rules == other.policy.rules
    requires multiset(Targets(start, xs, |xs|)) == multiset(Targets(other, ys, |ys|))
    ensures At(start, xs, |xs|).policy.rules == At(other, ys, |ys|).policy.rules
  {
    hide *;
    RulesAreJoinOfTargets(start, xs, |xs|);
    RulesAreJoinOfTargets(other, ys, |ys|);
    JoinAllPermutes(start.policy.rules, Targets(start, xs, |xs|), Targets(other, ys, |ys|));
  }

  // ---- Bounded runs ----

  /** Ranks left to climb plus features still on. */
  function Slack(rules: Rules): nat {
    (3 - SensitivityRank(rules.sensitivity)) + (4 - PostureRank(rules.minimumPosture))
    + (4 - ProtectedRank(rules.protectedContent)) + |rules.allowed|
  }

  lemma SlackBounds(rules: Rules, mode: PrivacyMode)
    ensures Slack(rules) <= 21
    ensures Slack(DefaultRules(mode)) <= 14
    ensures mode.Standard? ==> Slack(DefaultRules(mode)) == 14
  {
    FeaturesAreAll(rules.allowed);
    assert |DefaultRules(mode).allowed| <= 3;
  }

  lemma StricterUsesSlack(current: PolicyDocument, change: Change)
    requires Compare(current, Candidate(current, change)).Stricter?
    ensures Slack(ChangedRules(current.rules, change)) < Slack(current.rules)
  {
    SubsetSize(ChangedRules(current.rules, change).allowed, current.rules.allowed);
  }

  // One step up each scale.

  function NextSensitivity(s: RoomSensitivity): RoomSensitivity {
    match s
    case Normal => Sensitive
    case Sensitive => HighSensitivity
    case _ => Critical
  }

  function NextPosture(p: MinimumPosture): MinimumPosture {
    match p
    case AnyPosture => BasicPosture
    case BasicPosture => HardenedPosture
    case HardenedPosture => HighAssurancePosture
    case _ => ManagedBunkerPosture
  }

  function NextProtected(c: ProtectedContent): ProtectedContent {
    match c
    case NoProtection => PolicyRedactionOnly
    case PolicyRedactionOnly => SecureDeviceFuture
    case SecureDeviceFuture => ScreenShieldFuture
    case _ => ManagedBunkerFuture
  }

  /** As long as there is slack, some change is stricter and uses just one unit. */
  lemma SlackCanBeSpentSlowly(current: PolicyDocument) returns (change: Change)
    requires Slack(current.rules) > 0
    ensures Compare(current, Candidate(current, change)).Stricter?
    ensures Slack(ChangedRules(current.rules, change)) == Slack(current.rules) - 1
  {
    var r := current.rules;
    if r.allowed != {} {
      var f :| f in r.allowed;
      return DisableFeature(f);
    } else if !r.sensitivity.Critical? {
      return RaiseSensitivity(NextSensitivity(r.sensitivity));
    } else if !r.minimumPosture.ManagedBunkerPosture? {
      return RaisePosture(NextPosture(r.minimumPosture));
    } else {
      return StrengthenProtected(NextProtected(r.protectedContent));
    }
  }

  function AcceptedCount(start: World, inputs: seq<Input>, k: nat): nat
    requires k <= |inputs|
  {
    if k == 0 then 0
    else AcceptedCount(start, inputs, k - 1) + if Accepted(At(start, inputs, k - 1), inputs[k - 1]) then 1 else 0
  }

  /** The revision counts the accepted updates, and each of them used up slack. */
  lemma {:induction false} RevisionCountsAccepted(start: World, inputs: seq<Input>, k: nat)
    requires k <= |inputs|
    ensures At(start, inputs, k).policy.revision == start.policy.revision + AcceptedCount(start, inputs, k)
    ensures AcceptedCount(start, inputs, k) + Slack(At(start, inputs, k).policy.rules) <= Slack(start.policy.rules)
  {
    if k > 0 {
      hide Accepted, Next, Slack, Compare;
      RevisionCountsAccepted(start, inputs, k - 1);
      var w, input := At(start, inputs, k - 1), inputs[k - 1];
      AcceptedIfStricter(w, input);
      if Accepted(w, input) {
        StricterUsesSlack(w.policy, input.command.change);
      } else {
        FailureIsAtomic(w, input);
      }
    }
  }

  /** At most 21 updates are ever accepted, at most 14 from the defaults of any mode. */
  lemma RunsAreBounded(start: World, inputs: seq<Input>, mode: PrivacyMode)
    ensures AcceptedCount(start, inputs, |inputs|) <= 21
    ensures start.policy.rules == DefaultRules(mode) ==> AcceptedCount(start, inputs, |inputs|) <= 14
  {
    hide *;
    RevisionCountsAccepted(start, inputs, |inputs|);
    SlackBounds(start.policy.rules, mode);
  }

  // ---- Updates an owner can make, and a run that reaches the bound ----

  /** The member may govern: an active owner in a mode and room in which the capability can be prepared. */
  predicate CanGovern(state: RoomState, owner: Record, flags: RoomPolicy) {
    && FindRecord(state.records, owner.membershipId) == Some(owner)
    && owner.role.Owner? && owner.state.ActiveMember?
    && !state.mode.Bunker? && !state.mode.Emergency? && flags.allowLocalContentMutation
  }

  function PreparedToGovern(state: RoomState, owner: Record, flags: RoomPolicy): Result<Prepared, AuthorizationError> {
    Prepare(state, owner, flags, TIGHTEN_REQUEST, false, None)
  }

  /** The update with a context freshly prepared in the very state it is sent to. */
  function GenuineUpdate(w: World, owner: Record, flags: RoomPolicy, change: Change): Input
    requires PreparedToGovern(w.state, owner, flags).Ok?
  {
    Input(Command(w.state.roomId, owner.membershipId, w.policy.revision, w.state.mode, change),
          PreparedToGovern(w.state, owner, flags).value, Decision(true, Persistence, GovernanceUpdate, true),
          Decision(true, Persistence, GovernanceLogAppend, true), flags, None, "", "")
  }

  lemma OwnersCanPrepare(state: RoomState, owner: Record, flags: RoomPolicy)
    requires CanGovern(state, owner, flags)
    ensures PreparedToGovern(state, owner, flags).Ok?
  {
    assert Capabilities.EligibleFor(owner.role, Capabilities.PolicyTighten);
    hide RecordFrom, Capabilities.EligibleFor;
  }

  /** Such an update is always authorised, so it is accepted exactly when it is stricter. */
  lemma GenuineUpdateAuthorised(w: World, owner: Record, flags: RoomPolicy, change: Change)
    requires CanGovern(w.state, owner, flags)
    ensures PreparedToGovern(w.state, owner, flags).Ok? && Authorised(w, GenuineUpdate(w, owner, flags, change))
    ensures Accepted(w, GenuineUpdate(w, owner, flags, change)) <==>
      Compare(w.policy, Candidate(w.policy, change)).Stricter?
  {
    OwnersCanPrepare(w.state, owner, flags);
    var input := GenuineUpdate(w, owner, flags, change);
    PreparedIsCurrent(w.state, owner, flags, TIGHTEN_REQUEST, false, None, input.decision);
    AcceptedIfStricter(w, input);
    hide Accepted, Compare, Prepare, Revalidate, RecordFrom;
  }

  lemma {:induction false} CountFromSecond(start: World, first: Input, rest: seq<Input>, k: nat)
    requires k <= |rest|
    ensures At(start, [first] + rest, k + 1) == At(Next(start, first), rest, k)
    ensures AcceptedCount(start, [first] + rest, k + 1) ==
      (if Accepted(start, first) then 1 else 0) + AcceptedCount(Next(start, first), rest, k)
  {
    hide Accepted, Next;
    var all := [first] + rest;
    if k == 0 {
      assert At(start, all, 1) == Next(At(start, all, 0), all[0]);
      assert AcceptedCount(start, all, 0) == 0;
    } else {
      CountFromSecond(start, first, rest, k - 1);
      assert all[k] == rest[k - 1];
      assert At(start, all, k + 1) == Next(At(start, all, k), all[k]);
    }
  }

  /** From any policy some run of genuine updates spends the whole slack, one unit by one. */
  lemma {:induction false} SlackIsReached(start: World, owner: Record, flags: RoomPolicy) returns (inputs: seq<Input>)
    requires CanGovern(start.state, owner, flags)
    ensures AcceptedCount(start, inputs, |inputs|) == |inputs| == Slack(start.policy.rules)
    decreases Slack(start.policy.rules)
  {
    if Slack(start.policy.rules) == 0 {
      inputs := [];
    } else {
      var change := SlackCanBeSpentSlowly(start.policy);
      GenuineUpdateAuthorised(start, owner, flags, change);
      var first := GenuineUpdate(start, owner, flags, change);
      AcceptedIfStricter(start, first);
      AcceptedExtendsLog(start, first);
      hide Accepted, Next, Compare, Slack, ChangedRules, AcceptedCount, At, PreparedToGovern, Authorised;
      var rest := SlackIsReached(Next(start, first), owner, flags);
      CountFromSecond(start, first, rest, |rest|);
      inputs := [first] + rest;
    }
  }

  /** The bounds are met: 21 updates are accepted from the loosest document, 14 from the standard defaults. */
  lemma BoundsAreReached(start: World, owner: Record, flags: RoomPolicy) returns (inputs: seq<Input>)
    requires CanGovern(start.state, owner, flags)
    ensures start.policy.rules == LOOSEST ==> AcceptedCount(start, inputs, |inputs|) == 21
    ensures start.policy.rules == DefaultRules(Standard) ==> AcceptedCount(start, inputs, |inputs|) == 14
  {
    hide *;
    inputs := SlackIsReached(start, owner, flags);
    SlackBounds(start.policy.rules, Standard);
    LoosestSlack();
  }

  lemma LoosestSlack()
    ensures Slack(LOOSEST) == 21
  {
    assert |ALL_FEATURES| == 10;
  }

  // ---- Tightening along a run ----

  lemma {:induction false} RunTightens(start: World, inputs: seq<Input>, i: nat, j: nat)
    requires i <= j <= |inputs|
    ensures Tightens(At(start, inputs, i).policy.rules, At(start, inputs, j).policy.rules)
    decreases j
  {
    var a, b := At(start, inputs, i).policy.rules, At(start, inputs, j).policy.rules;
    if i == j {
      TightensIsPartialOrder(a, b, b);
    } else {
      hide Next, Tightens;
      RunTightens(start, inputs, i, j - 1);
      NextRules(At(start, inputs, j - 1), inputs[j - 1]);
      TightensIsPartialOrder(a, At(start, inputs, j - 1).policy.rules, b);
    }
  }

  /** Along any run the composed policy only tightens and nothing is admitted again. */
  lemma EffectivePolicyTightens(start: World, inputs: seq<Input>, i: nat, j: nat, mode: PrivacyMode,
                                posture: PolicyComposition.DevicePosture, operation: string,
                                action: PolicyComposition.AdmissionAction)
    requires i <= j <= |inputs|
    ensures var a, b := At(start, inputs, i).policy.rules, At(start, inputs, j).policy.rules;
      && PolicyComposition.EffectiveTightens(PolicyComposition.Compose(mode, posture, a, operation),
                                             PolicyComposition.Compose(mode, posture, b, operation))
      && (PolicyComposition.Admits(b, posture, action, mode) ==> PolicyComposition.Admits(a, posture, action, mode))
  {
    hide *;
    RunTightens(start, inputs, i, j);
    PolicyComposition.TighteningIsEndToEnd(At(start, inputs, i).policy.rules, At(start, inputs, j).policy.rules, mode,
                                           posture, operation, action);
  }
}
