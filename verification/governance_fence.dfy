/** Governance against the fence of prepared contexts, over whole runs. */
module GovernanceFence {
  import opened Common
  import opened Privacy
  import opened EventLogs
  import opened RoomStates
  import opened PolicyDocuments
  import opened PolicyComparison
  import opened Authorization
  import opened Governance
  import opened GovernanceRuns
  import GovernanceLaws
  import Capabilities
  import PolicyComposition

  /** The state carries the document the pipeline is given, once there is one. */
  predicate Agrees(w: World) {
    && (w.state.policyRevision.Some? ==> w.state.policyRevision == Some(w.policy.revision))
    && (w.state.policyDocument.Some? ==> w.state.policyDocument == Some(w.policy))
  }

  /** After n accepted updates the counter, if n > 0 or there was one, is the revision; the rest of the room stays. */
  predicate Counted(start: World, w: World, n: nat) {
    && Agrees(w) && w.policy.revision == start.policy.revision + n
    && w.state.policyRevision == (if n == 0 then start.state.policyRevision else Some(start.policy.revision + n))
    && w.state == start.state.(policyRevision := w.state.policyRevision, policyDocument := w.state.policyDocument)
  }

  lemma NextCounted(start: World, w: World, n: nat, input: Input)
    requires Counted(start, w, n)
    ensures Counted(start, Next(w, input), if Accepted(w, input) then n + 1 else n)
  {
    hide Accepted, Next, Authorised, Compare, ChangedRules;
    if Accepted(w, input) {
      AcceptedIfStricter(w, input);
      AcceptedExtendsLog(w, input);
    } else {
      FailureIsAtomic(w, input);
    }
  }

  lemma OneMore(start: World, inputs: seq<Input>, k: nat)
    requires k < |inputs|
    ensures At(start, inputs, 0) == start && AcceptedCount(start, inputs, 0) == 0
    ensures At(start, inputs, k + 1) == Next(At(start, inputs, k), inputs[k])
    ensures AcceptedCount(start, inputs, k + 1) ==
      AcceptedCount(start, inputs, k) + if Accepted(At(start, inputs, k), inputs[k]) then 1 else 0
  {
    hide Accepted, Next;
  }

  lemma {:induction false} CounterFollows(start: World, inputs: seq<Input>, k: nat)
    requires k <= |inputs| && Agrees(start)
    ensures Counted(start, At(start, inputs, k), AcceptedCount(start, inputs, k))
  {
    if k == 0 {
      hide Accepted, Next;
    } else {
      hide *;
      CounterFollows(start, inputs, k - 1);
      OneMore(start, inputs, k - 1);
      NextCounted(start, At(start, inputs, k - 1), AcceptedCount(start, inputs, k - 1), inputs[k - 1]);
    }
  }

  /** Governance touches no membership record, and state and policy keep agreeing. */
  lemma AgreementKept(start: World, inputs: seq<Input>, k: nat)
    requires k <= |inputs| && Agrees(start)
    ensures Agrees(At(start, inputs, k))
    ensures At(start, inputs, k).state.records == start.state.records
      && At(start, inputs, k).state.roomId == start.state.roomId
  {
    CounterFollows(start, inputs, k);
    hide At, Agrees;
  }

  /**
   * What the policy half of the fence sees of a whole run: nothing exactly when
   * no update was accepted, or when the room had no counter at the start and the
   * flags happen to have the fingerprint that the revision has reached by now.
   */
  lemma RunUnnoticedIff(start: World, inputs: seq<Input>, k: nat, flags: RoomPolicy)
    requires k <= |inputs| && Agrees(start)
    ensures PolicyRevisionOf(start.state, flags) == PolicyRevisionOf(At(start, inputs, k).state, flags) <==>
      var n := AcceptedCount(start, inputs, k);
      n == 0 || (start.state.policyRevision.None? && Fingerprint(flags) == start.policy.revision + n)
  {
    CounterFollows(start, inputs, k);
    hide At, AcceptedCount, Fingerprint;
    PolicyFenceHoldsIff(start.state, flags, At(start, inputs, k).state, flags);
  }

  /** One update on its own: contexts prepared right before it miss it only when a first counter coincides. */
  lemma UpdateUnnoticedIff(w: World, input: Input, flags: RoomPolicy)
    requires Agrees(w) && Accepted(w, input)
    ensures PolicyRevisionOf(w.state, flags) == PolicyRevisionOf(Next(w, input).state, flags) <==>
      w.state.policyRevision.None? && Fingerprint(flags) == w.policy.revision + 1
  {
    hide Accepted, Next, Fingerprint;
    assert At(w, [input], 1) == Next(At(w, [input], 0), [input][0]);
    assert AcceptedCount(w, [input], 1) == AcceptedCount(w, [input], 0) + 1;
    RunUnnoticedIff(w, [input], 1, flags);
  }

  // ---- Fingerprints of rooms that can be governed ----

  lemma {:induction false} LowestBit(bits: seq<bool>)
    requires bits != []
    ensures BinaryValue(bits) % 2 == if bits[0] then 1 else 0
  {
    var n := |bits| - 1;
    if n == 0 {
      assert bits[..0] == [];
    } else {
      LowestBit(bits[..n]);
    }
  }

  /** A genuine update of a room without a counter needs content mutation, whose flag makes the fingerprint odd. */
  lemma FirstUpdateHasOddFingerprint(s: RoomState, membership: Record, p: RoomPolicy, request: Request, risk: bool,
                                     a: Option<PolicyComposition.PostureSignal>, w: World, input: Input)
    requires Prepare(s, membership, p, request, risk, a) == Ok(input.prepared)
    requires s.policyRevision.None? && w.state.policyRevision.None? && Accepted(w, input)
    ensures input.roomPolicy == p && p.allowLocalContentMutation && Fingerprint(p) % 2 == 1
  {
    GovernanceLaws.AcceptedIff(s, membership, p, request, risk, a, w, input);
    hide Accepted, Prepare, RecordFrom, Fingerprint, PolicyComposition.ResolveEffectivePosture, Tightens, ChangedRules;
    PolicyFenceHoldsIff(s, p, w.state, input.roomPolicy);
    PreparedTighteningNeedsMutation(s, membership, p, request, risk, a);
    LowestBit(PolicyBits(p));
    FingerprintIsBinary(p);
  }

  lemma FingerprintIsBinary(p: RoomPolicy)
    ensures Fingerprint(p) == BinaryValue(PolicyBits(p)) && PolicyBits(p)[0] == p.allowLocalContentMutation
  {
  }

  lemma PreparedTighteningNeedsMutation(s: RoomState, membership: Record, p: RoomPolicy, request: Request, risk: bool,
                                        a: Option<PolicyComposition.PostureSignal>)
    requires Prepare(s, membership, p, request, risk, a).Ok? && request.capability.PolicyTighten?
    ensures p.allowLocalContentMutation
  {
    hide RecordFrom, Capabilities.EligibleFor, Fingerprint, PolicyComposition.ResolveEffectivePosture;
  }

  /** Under its own flags a genuine first update from an odd revision, such as the initial 1, is always noticed. */
  lemma FirstUpdateFromOddRevisionIsNoticed(s: RoomState, membership: Record, p: RoomPolicy, request: Request,
                                            risk: bool,
                                            a: Option<PolicyComposition.PostureSignal>, w: World, input: Input)
    requires Prepare(s, membership, p, request, risk, a) == Ok(input.prepared) && Agrees(w)
    requires s.policyRevision.None? && w.state.policyRevision.None? && Accepted(w, input) && w.policy.revision % 2 == 1
    ensures PolicyRevisionOf(w.state, p) != PolicyRevisionOf(Next(w, input).state, p)
  {
    hide *;
    FirstUpdateHasOddFingerprint(s, membership, p, request, risk, a, w, input);
    UpdateUnnoticedIff(w, input, p);
  }

  // ---- Updates that do go unnoticed ----

  /** Content mutation and a persistent projection, and nothing else. */
  const FLAGS_OF_THREE := RoomPolicy(true, true, false, false, false, false, false, false)

  lemma FingerprintOfThree()
    ensures Fingerprint(FLAGS_OF_THREE) == 3
  {
    var bits := PolicyBits(FLAGS_OF_THREE);
    FalseTail(bits, 2, 8);
    assert bits[..8] == bits && bits[..2] == [true, true];
    assert [true, true][..1] == [true] && [true][..0] == [];
    assert BinaryValue([true]) == 1;
    assert Pow2(1) == 2;
  }

  lemma {:induction false} FalseTail(bits: seq<bool>, i: nat, j: nat)
    requires i <= j <= |bits| && forall k :: i <= k < j ==> !bits[k]
    ensures BinaryValue(bits[..j]) == BinaryValue(bits[..i])
    decreases j
  {
    if i < j {
      FalseTail(bits, i, j - 1);
      assert bits[..j][..j - 1] == bits[..j - 1];
    }
  }

  /** A standard room of one owner, without a counter, and its default document at some revision. */
  function StandardWorld(owner: Record, revision: nat): World {
    World(RoomState(owner.roomId, Workspace, ActiveRoom, Standard, true, None, [], [], [owner], None, None, None,
                    FLAGS_OF_THREE),
          PolicyDocument(owner.roomId, revision, DefaultRules(Standard)), MemoryLog([]))
  }

  predicate StillPasses(prepared: Prepared, w: World, owner: Record) {
    Revalidate(prepared, w.state, owner, FLAGS_OF_THREE, Decision(true, Persistence, GovernanceUpdate, true),
               TIGHTEN_REQUEST, None).Pass?
  }

  /** A context kept by the owner passes again exactly when the fence sees the same policy revision. */
  lemma KeptContextPassesIff(w: World, later: World, owner: Record)
    requires CanGovern(w.state, owner, FLAGS_OF_THREE)
    requires later.state
      == w.state.(policyRevision := later.state.policyRevision, policyDocument := later.state.policyDocument)
    ensures PreparedToGovern(w.state, owner, FLAGS_OF_THREE).Ok?
    ensures StillPasses(PreparedToGovern(w.state, owner, FLAGS_OF_THREE).value, later, owner) <==>
      PolicyRevisionOf(w.state, FLAGS_OF_THREE) == PolicyRevisionOf(later.state, FLAGS_OF_THREE)
  {
    OwnersCanPrepare(w.state, owner, FLAGS_OF_THREE);
    hide Prepare, Revalidate, PolicyRevisionOf, RecordFrom;
    RevalidatedIff(w.state, owner, FLAGS_OF_THREE, TIGHTEN_REQUEST, false, None, later.state, owner, FLAGS_OF_THREE,
                   Decision(true, Persistence, GovernanceUpdate, true), TIGHTEN_REQUEST, None);
  }

  lemma StandardOwnerGoverns(owner: Record, revision: nat)
    requires owner.role.Owner? && owner.state.ActiveMember?
    ensures CanGovern(StandardWorld(owner, revision).state, owner, FLAGS_OF_THREE)
  {
  }

  lemma DisablingIsStricter(current: PolicyDocument, f: Feature)
    requires f in current.rules.allowed
    ensures Compare(current, Candidate(current, DisableFeature(f))).Stricter?
    ensures Candidate(current, DisableFeature(f)).rules.allowed == current.rules.allowed - {f}
  {
  }

  /** An owner switches one more feature off, with a context prepared on the spot. */
  lemma OwnerDisables(w: World, owner: Record, f: Feature)
    requires CanGovern(w.state, owner, FLAGS_OF_THREE) && f in w.policy.rules.allowed
    ensures PreparedToGovern(w.state, owner, FLAGS_OF_THREE).Ok?
    ensures var input := GenuineUpdate(w, owner, FLAGS_OF_THREE, DisableFeature(f));
      && Accepted(w, input)
      && Next(w, input).policy.rules.allowed == w.policy.rules.allowed - {f}
      && CanGovern(Next(w, input).state, owner, FLAGS_OF_THREE)
      && Next(w, input).state == w.state.(policyRevision := Next(w, input).state.policyRevision,
                                          policyDocument := Next(w, input).state.policyDocument)
  {
    hide Accepted, Next, Compare, PreparedToGovern, Authorised, GenuineUpdate, RecordFrom;
    GenuineUpdateAuthorised(w, owner, FLAGS_OF_THREE, DisableFeature(f));
    var input := GenuineUpdate(w, owner, FLAGS_OF_THREE, DisableFeature(f));
    UpdateIs(w, owner, FLAGS_OF_THREE, DisableFeature(f));
    DisablingIsStricter(w.policy, f);
    AcceptedIfStricter(w, input);
    AcceptedExtendsLog(w, input);
  }

  lemma UpdateIs(w: World, owner: Record, flags: RoomPolicy, change: Change)
    requires PreparedToGovern(w.state, owner, flags).Ok?
    ensures GenuineUpdate(w, owner, flags, change).command.change == change
    ensures Ok(GenuineUpdate(w, owner, flags, change).prepared) == PreparedToGovern(w.state, owner, flags)
  {
    hide PreparedToGovern;
  }

  lemma StandardFacts(owner: Record, revision: nat)
    ensures var w := StandardWorld(owner, revision);
      && Agrees(w) && w.state.policyRevision.None? && w.policy.revision == revision
      && ExactCounts in w.policy.rules.allowed && ActorRefs in w.policy.rules.allowed
  {
  }

  /** A genuine first update, from revision 2, that the very context it was made with survives. */
  lemma FirstUpdateCanGoUnnoticed(owner: Record) returns (w: World, input: Input)
    requires owner.role.Owner? && owner.state.ActiveMember?
    ensures w == StandardWorld(owner, 2)
    ensures Ok(input.prepared) == PreparedToGovern(w.state, owner, FLAGS_OF_THREE)
    ensures Accepted(w, input) && Next(w, input).policy.rules.allowed == w.policy.rules.allowed - {ExactCounts}
    ensures PolicyRevisionOf(w.state, FLAGS_OF_THREE) == PolicyRevisionOf(Next(w, input).state, FLAGS_OF_THREE)
    ensures StillPasses(input.prepared, Next(w, input), owner)
  {
    hide *;
    w := StandardWorld(owner, 2);
    StandardFacts(owner, 2);
    StandardOwnerGoverns(owner, 2);
    OwnerDisables(w, owner, ExactCounts);
    UpdateIs(w, owner, FLAGS_OF_THREE, DisableFeature(ExactCounts));
    input := GenuineUpdate(w, owner, FLAGS_OF_THREE, DisableFeature(ExactCounts));
    FingerprintOfThree();
    UpdateUnnoticedIff(w, input, FLAGS_OF_THREE);
    KeptContextPassesIff(w, Next(w, input), owner);
  }

  /**
   * ABA through accepted tightening. From revision 1 the first of two genuine
   * updates invalidates a context prepared before it; the second, which is not
   * the first of the room, makes that context pass again.
   */
  lemma TighteningCanBeAba(owner: Record) returns (inputs: seq<Input>)
    requires owner.role.Owner? && owner.state.ActiveMember?
    ensures var start := StandardWorld(owner, 1);
      var kept := PreparedToGovern(start.state, owner, FLAGS_OF_THREE);
      && kept.Ok? && |inputs| == 2
      && Ok(inputs[0].prepared) == PreparedToGovern(start.state, owner, FLAGS_OF_THREE)
      && Ok(inputs[1].prepared) == PreparedToGovern(At(start, inputs, 1).state, owner, FLAGS_OF_THREE)
      && AcceptedCount(start, inputs, 1) == 1 && AcceptedCount(start, inputs, 2) == 2
      && StillPasses(kept.value, At(start, inputs, 0), owner)
      && !StillPasses(kept.value, At(start, inputs, 1), owner)
      && StillPasses(kept.value, At(start, inputs, 2), owner)
  {
    hide *;
    var start := StandardWorld(owner, 1);
    StandardFacts(owner, 1);
    StandardOwnerGoverns(owner, 1);
    OwnerDisables(start, owner, ExactCounts);
    UpdateIs(start, owner, FLAGS_OF_THREE, DisableFeature(ExactCounts));
    var first := GenuineUpdate(start, owner, FLAGS_OF_THREE, DisableFeature(ExactCounts));
    var middle := Next(start, first);
    OwnerDisables(middle, owner, ActorRefs);
    UpdateIs(middle, owner, FLAGS_OF_THREE, DisableFeature(ActorRefs));
    inputs := [first, GenuineUpdate(middle, owner, FLAGS_OF_THREE, DisableFeature(ActorRefs))];
    FingerprintOfThree();
    TwoCalls(start, inputs[0], inputs[1]);
    AbaOfTwo(start, inputs, 0, owner);
    AbaOfTwo(start, inputs, 1, owner);
    AbaOfTwo(start, inputs, 2, owner);
  }

  lemma TwoCalls(start: World, first: Input, second: Input)
    requires Accepted(start, first) && Accepted(Next(start, first), second)
    ensures At(start, [first, second], 1) == Next(start, first)
    ensures AcceptedCount(start, [first, second], 0) == 0
    ensures AcceptedCount(start, [first, second], 1) == 1 && AcceptedCount(start, [first, second], 2) == 2
  {
    hide Accepted, Next;
    var inputs := [first, second];
    assert At(start, inputs, 0) == start && AcceptedCount(start, inputs, 0) == 0;
    assert At(start, inputs, 1) == Next(At(start, inputs, 0), inputs[0]);
  }

  lemma AbaOfTwo(start: World, inputs: seq<Input>, k: nat, owner: Record)
    requires k <= |inputs| == 2 && Agrees(start) && CanGovern(start.state, owner, FLAGS_OF_THREE)
    requires start.state.policyRevision.None? && start.policy.revision + 2 == Fingerprint(FLAGS_OF_THREE)
    requires AcceptedCount(start, inputs, k) == k
    ensures PreparedToGovern(start.state, owner, FLAGS_OF_THREE).Ok?
    ensures StillPasses(PreparedToGovern(start.state, owner, FLAGS_OF_THREE).value, At(start, inputs, k), owner) <==>
      k != 1
  {
    CounterFollows(start, inputs, k);
    RunUnnoticedIff(start, inputs, k, FLAGS_OF_THREE);
    assert Counted(start, At(start, inputs, k), k);
    hide *;
    KeptContextPassesIff(start, At(start, inputs, k), owner);
  }
}
