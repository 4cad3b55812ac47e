/** Comparing a candidate policy with the current one, field by field. */
module PolicyComparison {
  import opened Common
  import opened PolicyDocuments

  datatype Direction = Stricter | Equal | Looser | Incomparable | Unknown

  /** The direction of a change in terms of the strictness order. */
  function Compare(current: PolicyDocument, candidate: PolicyDocument): Direction {
    var up, down := Tightens(current.rules, candidate.rules), Tightens(candidate.rules, current.rules);
    if current.roomId != candidate.roomId then Unknown
    else if up && down then Equal
    else if up then Stricter
    else if down then Looser
    else Incomparable
  }

  function RankDelta(current: nat, candidate: nat): int {
    if candidate > current then 1 else if candidate < current then -1 else 0
  }

  /** The switches in the order in which they are compared. */
  const FEATURES: seq<Feature> :=
    [Network, DirectPeer, Receipts, Typing, Presence, ExactCounts, ExactTimestamps, ActorRefs, Notifications, LocalAi]

  function FeatureDelta(f: Feature, current: Rules, candidate: Rules): int {
    if (f in current.allowed) == (f in candidate.allowed) then 0 else if f in candidate.allowed then -1 else 1
  }

  /** The deltas of the source decide exactly the order-theoretic direction. */
  method CompareRoomPolicies(current: PolicyDocument, candidate: PolicyDocument) returns (direction: Direction)
    ensures direction == Compare(current, candidate)
  {
    if current.roomId != candidate.roomId {
      return Unknown;
    }
    var a, b := current.rules, candidate.rules;
    var deltas := [];
    deltas := deltas + [RankDelta(SensitivityRank(a.sensitivity), SensitivityRank(b.sensitivity))];
    deltas := deltas + [RankDelta(PostureRank(a.minimumPosture), PostureRank(b.minimumPosture))];
    deltas := deltas + [RankDelta(ProtectedRank(a.protectedContent), ProtectedRank(b.protectedContent))];
    deltas := deltas + [RankDelta(RetentionRank(a.maximumRetention), RetentionRank(b.maximumRetention))];
    deltas := deltas + [FeatureDelta(Network, a, b)];
    deltas := deltas + [FeatureDelta(DirectPeer, a, b)];
    deltas := deltas + [FeatureDelta(Receipts, a, b)];
    deltas := deltas + [FeatureDelta(Typing, a, b)];
    deltas := deltas + [FeatureDelta(Presence, a, b)];
    deltas := deltas + [FeatureDelta(ExactCounts, a, b)];
    deltas := deltas + [FeatureDelta(ExactTimestamps, a, b)];
    deltas := deltas + [FeatureDelta(ActorRefs, a, b)];
    deltas := deltas + [FeatureDelta(Notifications, a, b)];
    deltas := deltas + [FeatureDelta(LocalAi, a, b)];
    assert deltas == Deltas(a, b);
    DeltasDecide(a, b);
    var anyStricter := exists d <- deltas :: d > 0;
    var anyLooser := exists d <- deltas :: d < 0;
    if anyStricter && anyLooser {
      return Incomparable;
    }
    if anyLooser {
      return Looser;
    }
    return if anyStricter then Stricter else Equal;
  }

  /** All fourteen deltas: four ranks, then the features. */
  function Deltas(a: Rules, b: Rules): (r: seq<int>)
    ensures |r| == 4 + |FEATURES|
  {
    [RankDelta(SensitivityRank(a.sensitivity), SensitivityRank(b.sensitivity)),
     RankDelta(PostureRank(a.minimumPosture), PostureRank(b.minimumPosture)),
     RankDelta(ProtectedRank(a.protectedContent), ProtectedRank(b.protectedContent)),
     RankDelta(RetentionRank(a.maximumRetention), RetentionRank(b.maximumRetention))]
    + seq(|FEATURES|, i requires 0 <= i < |FEATURES| => FeatureDelta(FEATURES[i], a, b))
  }

  lemma EveryFeatureListed(f: Feature)
    ensures f in FEATURES
  {
    var at := match f {
      case Network => 0 case DirectPeer => 1 case Receipts => 2 case Typing => 3 case Presence => 4
      case ExactCounts => 5 case ExactTimestamps => 6 case ActorRefs => 7 case Notifications => 8 case LocalAi => 9
    };
    assert FEATURES[at] == f;
  }

  /** Some delta is negative unless b tightens a; some is positive unless a tightens b. */
  lemma DeltasDecide(a: Rules, b: Rules)
    ensures (exists d <- Deltas(a, b) :: d < 0) <==> !Tightens(a, b)
    ensures (exists d <- Deltas(a, b) :: d > 0) <==> !Tightens(b, a)
  {
    var ds := Deltas(a, b);
    forall f | f in b.allowed || f in a.allowed ensures FeatureDelta(f, a, b) in ds {
      EveryFeatureListed(f);
      var i :| 0 <= i < |FEATURES| && FEATURES[i] == f;
      assert ds[4 + i] == FeatureDelta(f, a, b);
    }
    assert ds[0] in ds && ds[1] in ds && ds[2] in ds && ds[3] in ds;
    forall d <- ds ensures (Tightens(a, b) ==> d >= 0) && (Tightens(b, a) ==> d <= 0) {
      var i :| 0 <= i < |ds| && ds[i] == d;
      if i >= 4 {
        assert d == FeatureDelta(FEATURES[i - 4], a, b);
      }
    }
    if !(b.allowed <= a.allowed) {
      var f :| f in b.allowed && f !in a.allowed;
      assert FeatureDelta(f, a, b) < 0;
    }
    if !(a.allowed <= b.allowed) {
      var f :| f in a.allowed && f !in b.allowed;
      assert FeatureDelta(f, a, b) > 0;
    }
  }
}
