/** The room policy document, its strictness order, and the join of two sets of rules. */
module PolicyDocuments {
  import opened Common
  import opened Privacy

  datatype RoomSensitivity = Normal | Sensitive | HighSensitivity | Critical

  datatype MinimumPosture = AnyPosture | BasicPosture | HardenedPosture | HighAssurancePosture | ManagedBunkerPosture

  datatype ProtectedContent =
    | NoProtection | PolicyRedactionOnly
    | SecureDeviceFuture | ScreenShieldFuture | ManagedBunkerFuture

  datatype MaximumRetention = EncryptedFuture | MemoryRetention | NoRetention

  /** The switchable features; a document lists those still allowed. */
  datatype Feature =
    | Receipts | Typing | Presence | ExactCounts | ExactTimestamps | ActorRefs
    | Notifications | LocalAi | Network | DirectPeer

  const ALL_FEATURES: set<Feature> :=
    {Receipts, Typing, Presence, ExactCounts, ExactTimestamps, ActorRefs, Notifications, LocalAi, Network, DirectPeer}

  /** Everything a document regulates, that is, all of it but room and revision. */
  datatype Rules = Rules(
    sensitivity: RoomSensitivity, minimumPosture: MinimumPosture, protectedContent: ProtectedContent,
    maximumRetention: MaximumRetention, allowed: set<Feature>)

  datatype PolicyDocument = PolicyDocument(roomId: Id, revision: nat, rules: Rules)

  function DefaultRules(mode: PrivacyMode): Rules {
    Rules(
      if mode.Bunker? then HighSensitivity else if mode.Ghost? then Sensitive else Normal,
      AnyPosture,
      if mode.Standard? then NoProtection else if mode.Bunker? then ScreenShieldFuture else PolicyRedactionOnly,
      if mode.Ghost? || mode.Bunker? then NoRetention else MemoryRetention,
      (if mode.Standard? then {ExactCounts, ExactTimestamps, ActorRefs} else {})
      + (if mode.OfflineCapsule? then {ActorRefs} else {}))
  }

  /** The defaults field by field: what each mode starts with. */
  lemma DefaultsAre(mode: PrivacyMode)
    ensures var r := DefaultRules(mode);
      && r.sensitivity == (if mode == Bunker then HighSensitivity else if mode == Ghost then Sensitive else Normal)
      && r.minimumPosture == AnyPosture
      && (r.protectedContent == NoProtection <==> mode == Standard)
      && (r.protectedContent == ScreenShieldFuture <==> mode == Bunker)
      && (r.protectedContent == PolicyRedactionOnly <==> mode != Standard && mode != Bunker)
      && (r.maximumRetention == NoRetention <==> mode == Ghost || mode == Bunker)
      && (r.maximumRetention == MemoryRetention <==> mode != Ghost && mode != Bunker)
      && (forall f :: f in r.allowed <==>
            (mode == Standard && (f == ExactCounts || f == ExactTimestamps || f == ActorRefs))
            || (mode == OfflineCapsule && f == ActorRefs))
  {
  }

  // A higher rank is stricter.

  function SensitivityRank(s: RoomSensitivity): nat {
    match s
    case Normal => 0
    case Sensitive => 1
    case HighSensitivity => 2
    case Critical => 3
  }

  function PostureRank(p: MinimumPosture): nat {
    match p
    case AnyPosture => 0
    case BasicPosture => 1
    case HardenedPosture => 2
    case HighAssurancePosture => 3
    case ManagedBunkerPosture => 4
  }

  function ProtectedRank(p: ProtectedContent): nat {
    match p
    case NoProtection => 0
    case PolicyRedactionOnly => 1
    case SecureDeviceFuture => 2
    case ScreenShieldFuture => 3
    case ManagedBunkerFuture => 4
  }

  function RetentionRank(r: MaximumRetention): nat {
    match r
    case EncryptedFuture => 0
    case MemoryRetention => 1
    case NoRetention => 2
  }

  /** The scales from the loosest to the strictest value. */
  lemma ScalesAre()
    ensures SensitivityRank(Normal) < SensitivityRank(Sensitive) < SensitivityRank(HighSensitivity)
         < SensitivityRank(Critical)
    ensures PostureRank(AnyPosture) < PostureRank(BasicPosture) < PostureRank(HardenedPosture)
         < PostureRank(HighAssurancePosture) < PostureRank(ManagedBunkerPosture)
    ensures ProtectedRank(NoProtection) < ProtectedRank(PolicyRedactionOnly) < ProtectedRank(SecureDeviceFuture)
         < ProtectedRank(ScreenShieldFuture) < ProtectedRank(ManagedBunkerFuture)
    ensures RetentionRank(EncryptedFuture) < RetentionRank(MemoryRetention) < RetentionRank(NoRetention)
  {
  }

  /** The product order: b is at least as strict as a in every field. */
  predicate Tightens(a: Rules, b: Rules) {
    && SensitivityRank(a.sensitivity) <= SensitivityRank(b.sensitivity)
    && PostureRank(a.minimumPosture) <= PostureRank(b.minimumPosture)
    && ProtectedRank(a.protectedContent) <= ProtectedRank(b.protectedContent)
    && RetentionRank(a.maximumRetention) <= RetentionRank(b.maximumRetention)
    && b.allowed <= a.allowed
  }

  lemma TightensIsPartialOrder(a: Rules, b: Rules, c: Rules)
    ensures Tightens(a, a)
    ensures Tightens(a, b) && Tightens(b, a) ==> a == b
    ensures Tightens(a, b) && Tightens(b, c) ==> Tightens(a, c)
  {
  }

  /** The stricter value in every field. */
  function Join(a: Rules, b: Rules): Rules {
    Rules(
      if SensitivityRank(a.sensitivity) >= SensitivityRank(b.sensitivity) then a.sensitivity else b.sensitivity,
      if PostureRank(a.minimumPosture) >= PostureRank(b.minimumPosture) then a.minimumPosture else b.minimumPosture,
      if ProtectedRank(a.protectedContent) >= ProtectedRank(b.protectedContent)
      then a.protectedContent else b.protectedContent,
      if RetentionRank(a.maximumRetention) >= RetentionRank(b.maximumRetention)
      then a.maximumRetention else b.maximumRetention,
      a.allowed * b.allowed)
  }

  /** The join is the least set of rules at least as strict as both. */
  lemma JoinIsLeastUpperBound(a: Rules, b: Rules, c: Rules)
    ensures Tightens(a, Join(a, b)) && Tightens(b, Join(a, b))
    ensures Tightens(a, c) && Tightens(b, c) ==> Tightens(Join(a, b), c)
  {
  }

  lemma JoinCommutes(a: Rules, b: Rules, c: Rules)
    ensures Join(Join(a, b), c) == Join(Join(a, c), b)
  {
    assert a.allowed * b.allowed * c.allowed == a.allowed * c.allowed * b.allowed;
  }

  function JoinAll(start: Rules, targets: seq<Rules>): Rules {
    if targets == [] then start else Join(JoinAll(start, targets[..|targets| - 1]), targets[|targets| - 1])
  }

  /** One target can be pulled out of the middle and joined last. */
  lemma {:induction false} JoinAllExtract(start: Rules, targets: seq<Rules>, i: nat)
    requires i < |targets|
    ensures JoinAll(start, targets) == Join(JoinAll(start, targets[..i] + targets[i + 1..]), targets[i])
  {
    var n := |targets| - 1;
    var without := targets[..i] + targets[i + 1..];
    if i == n {
      assert without == targets[..n];
    } else {
      JoinAllExtract(start, targets[..n], i);
      assert targets[..n][..i] + targets[..n][i + 1..] == without[..n - 1];
      assert without[n - 1] == targets[n];
      JoinCommutes(JoinAll(start, without[..n - 1]), targets[i], targets[n]);
    }
  }

  lemma RemovingOne(xs: seq<Rules>, i: nat)
    requires i < |xs|
    ensures multiset(xs[..i] + xs[i + 1..]) == multiset(xs) - multiset{xs[i]}
  {
    assert xs == xs[..i] + [xs[i]] + xs[i + 1..];
    assert multiset(xs) == multiset(xs[..i]) + multiset{xs[i]} + multiset(xs[i + 1..]);
  }

  /** Joining is insensitive to order: permuted targets give the same rules. */
  lemma {:induction false} JoinAllPermutes(start: Rules, xs: seq<Rules>, ys: seq<Rules>)
    requires multiset(xs) == multiset(ys)
    ensures JoinAll(start, xs) == JoinAll(start, ys)
    decreases |xs|
  {
    assert |xs| == |multiset(xs)| == |multiset(ys)| == |ys|;
    if xs != [] {
      var n := |xs| - 1;
      var last := xs[n];
      assert last in multiset(ys);
      var i :| 0 <= i < |ys| && ys[i] == last;
      hide Join;
      RemovingOne(xs, n);
      RemovingOne(ys, i);
      assert xs[..n] + xs[n + 1..] == xs[..n];
      JoinAllPermutes(start, xs[..n], ys[..i] + ys[i + 1..]);
      JoinAllExtract(start, ys, i);
    }
  }
}
