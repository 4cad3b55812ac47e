/** Composing the effective room policy, and local admission to sensitive rooms. */
module PolicyComposition {
  import opened Common
  import opened Privacy
  import opened PolicyDocuments

  // ---- Composed effects ----

  datatype Effect =
    | Deny | NotImplemented | FutureGate | NullEffect | RequireUserAction | RedactEffect
    | Coarsen | MemoryOnlyEffect | Allow

  function Strictness(e: Effect): nat {
    match e
    case Deny => 100
    case NotImplemented => 95
    case FutureGate => 90
    case NullEffect => 80
    case RequireUserAction => 70
    case RedactEffect => 60
    case Coarsen => 50
    case MemoryOnlyEffect => 40
    case Allow => 0
  }

  predicate PermitsExecution(e: Effect) {
    !e.Deny? && !e.NotImplemented? && !e.FutureGate?
  }

  function Strictest(a: Effect, b: Effect): Effect {
    if Strictness(a) >= Strictness(b) then a else b
  }

  /** The strictest of the listed effects; with nothing to restrict it, that is `allow`. */
  ghost predicate IsStrictestOf(e: Effect, effects: seq<Effect>) {
    && (e == Allow || e in effects)
    && forall other <- effects :: Strictness(other) <= Strictness(e)
  }

  method FoldStrictestEffect(effects: seq<Effect>) returns (result: Effect)
    ensures IsStrictestOf(result, effects)
  {
    result := Allow;
    for i := 0 to |effects|
      invariant IsStrictestOf(result, effects[..i])
    {
      result := Strictest(result, effects[i]);
    }
  }

  lemma StrictestIsUnique(d: Effect, e: Effect, effects: seq<Effect>)
    requires IsStrictestOf(d, effects) && IsStrictestOf(e, effects)
    ensures d == e
  {
    assert Strictness(d) == Strictness(e);
  }

  // ---- Device posture and protected content ----

  datatype DevicePosture = Unverified | Basic | Hardened | HighAssurance | ManagedBunker | AtRisk

  datatype PostureSignal = PostureSignal(schemaVersion: int, reportedPosture: DevicePosture, signalRevision: int)

  datatype EffectivePosture = EffectivePosture(posture: DevicePosture, signalRevision: int)

  predicate SafeInteger(n: int) {
    -0x1F_FFFF_FFFF_FFFF <= n <= 0x1F_FFFF_FFFF_FFFF
  }

  /** A signal may only lower trust: the outcome is unverified or at risk. */
  function ResolveEffectivePosture(signal: Option<PostureSignal>): (r: EffectivePosture)
    ensures r.posture.AtRisk? <==>
      && signal.Some? && signal.value.reportedPosture.AtRisk? && signal.value.schemaVersion == 1
      && 0 <= signal.value.signalRevision <= 0x1F_FFFF_FFFF_FFFF
    ensures !r.posture.AtRisk? ==> r.posture.Unverified?
    ensures r.signalRevision == if signal.Some? && SafeInteger(signal.value.signalRevision)
      then signal.value.signalRevision else 0
  {
    if signal.None? then EffectivePosture(Unverified, 0)
    else
      var s := signal.value;
      var revision := if SafeInteger(s.signalRevision) then s.signalRevision else 0;
      if s.schemaVersion == 1 && SafeInteger(s.signalRevision) && s.signalRevision >= 0 && s.reportedPosture.AtRisk?
      then EffectivePosture(AtRisk, s.signalRevision)
      else EffectivePosture(Unverified, revision)
  }

  function EffectiveRank(p: DevicePosture): int {
    match p
    case AtRisk => -1
    case Unverified => 0
    case Basic => 1
    case Hardened => 2
    case HighAssurance => 3
    case ManagedBunker => 4
  }

  predicate PostureSatisfies(posture: DevicePosture, required: MinimumPosture) {
    !posture.AtRisk? && EffectiveRank(posture) >= PostureRank(required)
  }

  /** Requirements that wait for a future integration are never satisfied. */
  predicate ProtectedSatisfied(requirement: ProtectedContent) {
    requirement.NoProtection? || requirement.PolicyRedactionOnly?
  }

  // ---- Composition ----

  predicate Contains(text: string, word: string) {
    exists i :: 0 <= i <= |text| && word <= text[i..]
  }

  predicate IsContentOperation(operation: string) {
    || Contains(operation, "create") || Contains(operation, "update") || Contains(operation, "redact")
    || Contains(operation, "detail") || Contains(operation, "search") || Contains(operation, "content")
    || Contains(operation, "mutate")
  }

  datatype Effective = Effective(
    allowed: bool, effect: Effect, contentAllowed: bool, metadataAllowed: bool, notificationAllowed: bool,
    aiAllowed: bool, postureRequirementSatisfied: bool, protectedPresentationSatisfied: bool)

  predicate StrictMode(mode: PrivacyMode) {
    mode.Ghost? || mode.Bunker?
  }

  /** The effect on content: the first reason of the strictest kind decides. */
  function ContentEffect(mode: PrivacyMode, posture: DevicePosture, rules: Rules, isContentOp: bool): Effect {
    if !isContentOp then Allow
    else if mode.Emergency? || posture.AtRisk? || !PostureSatisfies(posture, rules.minimumPosture) then Deny
    else if !ProtectedSatisfied(rules.protectedContent) then FutureGate
    else if StrictMode(mode) && !rules.protectedContent.NoProtection? then RedactEffect
    else Allow
  }

  function StorageEffect(mode: PrivacyMode, rules: Rules): Effect {
    if rules.maximumRetention.NoRetention? || StrictMode(mode) then NullEffect else MemoryOnlyEffect
  }

  function MetadataEffect(mode: PrivacyMode, rules: Rules): Effect {
    if mode.Emergency? then Deny
    else if StrictMode(mode) || ActorRefs !in rules.allowed then Coarsen
    else Allow
  }

  function Compose(mode: PrivacyMode, posture: DevicePosture, rules: Rules, operation: string): Effective {
    var isContentOp := IsContentOperation(operation);
    var postureOk := PostureSatisfies(posture, rules.minimumPosture);
    var protectedOk := ProtectedSatisfied(rules.protectedContent);
    var content, metadata := ContentEffect(mode, posture, rules, isContentOp), MetadataEffect(mode, rules);
    var overall := if isContentOp then content else Strictest(Strictest(content, StorageEffect(mode, rules)), metadata);
    var contentAllowed := PermitsExecution(content) && postureOk && protectedOk;
    Effective(contentAllowed && PermitsExecution(overall), overall, contentAllowed, metadata.Allow?,
              Notifications in rules.allowed, LocalAi in rules.allowed && !StrictMode(mode) && !mode.Emergency?,
              postureOk, protectedOk)
  }

  /** The constraints on content, collected one gate after the other. */
  method ContentConstraints(mode: PrivacyMode, posture: DevicePosture, rules: Rules, isContentOp: bool)
    returns (constraints: seq<Effect>)
    ensures IsStrictestOf(ContentEffect(mode, posture, rules, isContentOp), constraints)
  {
    constraints := [];
    if mode.Emergency? && isContentOp {
      constraints := constraints + [Deny];
    }
    if posture.AtRisk? && isContentOp {
      constraints := constraints + [Deny];
    }
    if !PostureSatisfies(posture, rules.minimumPosture) && isContentOp {
      constraints := constraints + [Deny];
    }
    if !ProtectedSatisfied(rules.protectedContent) && isContentOp {
      constraints := constraints + [FutureGate];
    }
    if StrictMode(mode) && isContentOp && !rules.protectedContent.NoProtection? {
      constraints := constraints + [RedactEffect];
    }
    if constraints == [] {
      constraints := [Allow];
    }
  }

  /** The source collects constraints and folds them; that is the closed form above. */
  method ComposeEffectiveRoomPolicy(mode: PrivacyMode, posture: DevicePosture, rules: Rules, operation: string)
    returns (r: Effective)
    ensures r == Compose(mode, posture, rules, operation)
  {
    hide IsContentOperation, ContentEffect, PostureSatisfies, ProtectedSatisfied, IsStrictestOf, Strictness, Strictest;
    var isContentOp := IsContentOperation(operation);
    var postureOk := PostureSatisfies(posture, rules.minimumPosture);
    var protectedOk := ProtectedSatisfied(rules.protectedContent);
    var constraints := ContentConstraints(mode, posture, rules, isContentOp);
    var contentEffect := FoldStrictestEffect(constraints);
    StrictestIsUnique(contentEffect, ContentEffect(mode, posture, rules, isContentOp), constraints);
    var contentAllowed := PermitsExecution(contentEffect) && postureOk && protectedOk;
    var storageEffect :=
      if rules.maximumRetention.NoRetention? || StrictMode(mode) then NullEffect else MemoryOnlyEffect;
    var metadataEffect := if mode.Emergency? then Deny else if StrictMode(mode) then Coarsen
                          else if ActorRefs in rules.allowed then Allow else Coarsen;
    var overall := contentEffect;
    if !isContentOp {
      var effects := [contentEffect, storageEffect, metadataEffect];
      overall := FoldStrictestEffect(effects);
      StrictestOfThree(contentEffect, storageEffect, metadataEffect);
      StrictestIsUnique(overall, Strictest(Strictest(contentEffect, storageEffect), metadataEffect), effects);
    }
    r := Effective(contentAllowed && PermitsExecution(overall), overall, contentAllowed,
                   PermitsExecution(metadataEffect) && metadataEffect == Allow, Notifications in rules.allowed,
                   LocalAi in rules.allowed && !StrictMode(mode) && !mode.Emergency?, postureOk, protectedOk);
  }

  lemma StrictestOfThree(d: Effect, e: Effect, f: Effect)
    ensures IsStrictestOf(Strictest(Strictest(d, e), f), [d, e, f])
  {
  }

  // ---- Admission ----

  datatype AdmissionAction = OpenSummary | OpenContent | MutateContent | ManageMembership | ChangePolicy

  predicate Admits(rules: Rules, posture: DevicePosture, action: AdmissionAction, mode: PrivacyMode) {
    match action
    case OpenSummary => !mode.Emergency?
    case ManageMembership | ChangePolicy => !posture.AtRisk?
    case OpenContent | MutateContent =>
      && !mode.Emergency? && !posture.AtRisk?
      && PostureSatisfies(posture, rules.minimumPosture) && ProtectedSatisfied(rules.protectedContent)
  }

  // ---- What the gates and effects are ----

  /** The effects from the strictest to the weakest, and the three that forbid execution. */
  lemma EffectsAreOrdered(e: Effect)
    ensures Strictness(Deny) > Strictness(NotImplemented) > Strictness(FutureGate) > Strictness(NullEffect)
         > Strictness(RequireUserAction) > Strictness(RedactEffect) > Strictness(Coarsen) > Strictness(MemoryOnlyEffect)
         > Strictness(Allow)
    ensures PermitsExecution(e) <==> Strictness(e) < Strictness(FutureGate)
  {
  }

  /** The postures that meet a minimum. */
  lemma PostureSatisfiesIff(posture: DevicePosture, required: MinimumPosture)
    ensures PostureSatisfies(posture, required) <==>
      match required
      case AnyPosture => posture != AtRisk
      case BasicPosture => posture in {Basic, Hardened, HighAssurance, ManagedBunker}
      case HardenedPosture => posture in {Hardened, HighAssurance, ManagedBunker}
      case HighAssurancePosture => posture in {HighAssurance, ManagedBunker}
      case ManagedBunkerPosture => posture == ManagedBunker
  {
  }

  /** Protection that the device would have to provide waits for a future gate. */
  lemma ProtectedSatisfiedIff(c: ProtectedContent)
    ensures ProtectedSatisfied(c) <==> c !in {SecureDeviceFuture, ScreenShieldFuture, ManagedBunkerFuture}
  {
  }

  /** When the content of a document is allowed; asking for any posture at all closes it, whatever the signal says. */
  lemma ContentAllowedIff(mode: PrivacyMode, signal: Option<PostureSignal>, rules: Rules, operation: string)
    requires IsContentOperation(operation)
    ensures var posture := ResolveEffectivePosture(signal).posture;
      Compose(mode, posture, rules, operation).allowed <==>
        && mode != Emergency && posture == Unverified && rules.minimumPosture == AnyPosture
        && (rules.protectedContent == NoProtection || rules.protectedContent == PolicyRedactionOnly)
  {
    hide IsContentOperation, ResolveEffectivePosture;
  }

  /** The composed effect of an operation on content, reason by reason. */
  lemma ContentEffectIs(mode: PrivacyMode, posture: DevicePosture, rules: Rules, operation: string)
    requires IsContentOperation(operation)
    ensures var e := Compose(mode, posture, rules, operation).effect;
      && (e == Deny <==> mode == Emergency || !PostureSatisfies(posture, rules.minimumPosture))
      && (e == FutureGate <==> e != Deny && !ProtectedSatisfied(rules.protectedContent))
      && (e == RedactEffect <==>
          e != Deny && e != FutureGate && (mode == Ghost || mode == Bunker) && rules.protectedContent != NoProtection)
      && (e == Allow <==> e != Deny && e != FutureGate && e != RedactEffect)
  {
    hide IsContentOperation;
  }

  /** The composed effect of any other operation: the strictest of what storage and metadata ask for. */
  lemma OtherEffectIs(mode: PrivacyMode, posture: DevicePosture, rules: Rules, operation: string)
    requires !IsContentOperation(operation)
    ensures Compose(mode, posture, rules, operation).effect ==
      if mode == Emergency then Deny
      else if mode == Ghost || mode == Bunker || rules.maximumRetention == NoRetention then NullEffect
      else if ActorRefs !in rules.allowed then Coarsen
      else MemoryOnlyEffect
  {
    hide IsContentOperation;
  }

  /** The other flags of the composed policy. */
  lemma FlagsAre(mode: PrivacyMode, posture: DevicePosture, rules: Rules, operation: string)
    ensures var c := Compose(mode, posture, rules, operation);
      && (c.metadataAllowed <==> mode !in {Emergency, Ghost, Bunker} && ActorRefs in rules.allowed)
      && (c.notificationAllowed <==> Notifications in rules.allowed)
      && (c.aiAllowed <==> mode !in {Emergency, Ghost, Bunker} && LocalAi in rules.allowed)
      && (c.postureRequirementSatisfied <==> PostureSatisfies(posture, rules.minimumPosture))
      && (c.protectedPresentationSatisfied <==> ProtectedSatisfied(rules.protectedContent))
  {
    hide IsContentOperation, PostureSatisfies, ProtectedSatisfied;
  }

  /** Which actions are admitted, action by action. */
  lemma AdmitsIff(rules: Rules, posture: DevicePosture, mode: PrivacyMode)
    ensures Admits(rules, posture, OpenSummary, mode) <==> mode != Emergency
    ensures Admits(rules, posture, ManageMembership, mode) <==> posture != AtRisk
    ensures Admits(rules, posture, ChangePolicy, mode) <==> posture != AtRisk
    ensures Admits(rules, posture, MutateContent, mode) <==> Admits(rules, posture, OpenContent, mode)
    ensures Admits(rules, posture, OpenContent, mode) <==>
      && mode != Emergency && PostureSatisfies(posture, rules.minimumPosture)
      && (rules.protectedContent == NoProtection || rules.protectedContent == PolicyRedactionOnly)
  {
  }

  const CONTENT_WORDS := ["create", "update", "redact", "detail", "search", "content", "mutate"]

  /** The operations on content are those whose name has one of seven words somewhere in it. */
  lemma ContentOperationIff(operation: string)
    ensures IsContentOperation(operation) <==>
      exists before: string, word: string, after: string ::
        word in CONTENT_WORDS && operation == before + word + after
  {
    assert CONTENT_WORDS[0] == "create" && CONTENT_WORDS[1] == "update" && CONTENT_WORDS[2] == "redact"
        && CONTENT_WORDS[3] == "detail" && CONTENT_WORDS[4] == "search" && CONTENT_WORDS[5] == "content"
        && CONTENT_WORDS[6] == "mutate";
    forall word ensures Contains(operation, word) <==>
      exists before: string, after: string :: operation == before + word + after {
      ContainsIff(operation, word);
    }
    hide Contains;
  }

  lemma ContainsIff(text: string, word: string)
    ensures Contains(text, word) <==> exists before: string, after: string :: text == before + word + after
  {
    if Contains(text, word) {
      var i :| 0 <= i <= |text| && word <= text[i..];
      assert text == text[..i] + word + text[i..][|word|..];
    }
    if before: string, after: string :| text == before + word + after {
      assert text[|before|..] == word + after;
    }
  }

  // ---- Tightening end to end ----

  /** No flag turns on and the effect is at least as strict. */
  predicate EffectiveTightens(e: Effective, f: Effective) {
    && Strictness(e.effect) <= Strictness(f.effect)
    && (f.allowed ==> e.allowed) && (f.contentAllowed ==> e.contentAllowed)
    && (f.metadataAllowed ==> e.metadataAllowed) && (f.notificationAllowed ==> e.notificationAllowed)
    && (f.aiAllowed ==> e.aiAllowed)
    && (f.postureRequirementSatisfied ==> e.postureRequirementSatisfied)
    && (f.protectedPresentationSatisfied ==> e.protectedPresentationSatisfied)
  }

  lemma GatesTighten(a: Rules, b: Rules, mode: PrivacyMode, posture: DevicePosture, isContentOp: bool)
    requires Tightens(a, b)
    ensures ProtectedSatisfied(b.protectedContent) ==> ProtectedSatisfied(a.protectedContent)
    ensures PostureSatisfies(posture, b.minimumPosture) ==> PostureSatisfies(posture, a.minimumPosture)
    ensures Strictness(ContentEffect(mode, posture, a, isContentOp))
         <= Strictness(ContentEffect(mode, posture, b, isContentOp))
    ensures Strictness(StorageEffect(mode, a)) <= Strictness(StorageEffect(mode, b))
    ensures Strictness(MetadataEffect(mode, a)) <= Strictness(MetadataEffect(mode, b))
  {
  }

  /** A stricter document composes to a stricter effective policy and admits no more. */
  lemma TighteningIsEndToEnd(a: Rules, b: Rules, mode: PrivacyMode, posture: DevicePosture, operation: string,
                             action: AdmissionAction)
    requires Tightens(a, b)
    ensures EffectiveTightens(Compose(mode, posture, a, operation), Compose(mode, posture, b, operation))
    ensures Admits(b, posture, action, mode) ==> Admits(a, posture, action, mode)
  {
    GatesTighten(a, b, mode, posture, IsContentOperation(operation));
    hide IsContentOperation, ContentEffect, StorageEffect, MetadataEffect, PostureSatisfies, ProtectedSatisfied;
  }

  /** Content is admitted only where composition would also allow it. */
  lemma AdmissionAgreesWithComposition(rules: Rules, mode: PrivacyMode, posture: DevicePosture, operation: string)
    requires IsContentOperation(operation)
    ensures Admits(rules, posture, OpenContent, mode) <==> Compose(mode, posture, rules, operation).allowed
    ensures Admits(rules, posture, MutateContent, mode) <==> Compose(mode, posture, rules, operation).allowed
  {
    hide IsContentOperation;
  }
}
