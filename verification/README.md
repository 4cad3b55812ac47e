# RoomOS engine: a verified model

This project models the event-sourced room engine in `packages/rooms/src`, a family of in-memory state machines
that all work the same way: guard, authorize, build an event, append it to a log, reduce it, replay it.

- **Objects** (`object_*.dfy`, `plain_text.dfy`): commands become events that carry the whole resulting object.
  The pipeline is a step function over projection and log; runs are arbitrary sequences of calls, accepted or not.
- **Membership** (`membership*.dfy`, `capabilities.dfy`): records with roles and revisions, the owner-continuity
  guard, capability descriptors and their attenuation.
- **Prepared authorization and revocation** (`authorization*.dfy`, `revocation.dfy`): the fence that must reject an
  authority prepared before a change, and the pipeline that only takes authority away.
- **Governance and policy composition** (`policy_*.dfy`, `governance*.dfy`): the strictness order of policy
  documents, the pipeline that accepts only stricter ones, and the composed effective policy.
- **Queries** (`query*.dfy`): filter, order, cursor paging, search and redacted views over a snapshot.
- **Everything together** (`system_runs.dfy`, `decisions.dfy`): runs that interleave membership, governance and base
  room events, and the registry of issued decisions behind all pipelines.
- **Base room log** (`room_log*.dfy`): incremental append against two-phase batch replay, and the room lifecycle.
- **Refusals** (`refusals.dfy`): every error a pipeline, the fence, a query or the base log gives names a reason that
  holds.

In each area `*_runs.dfy` holds what is kept over runs, and `*_laws.dfy` what commands, guards, tables and views mean
in terms of their inputs alone.

Reducers, builders and guards are functions. Logs and the registry of issued decisions are classes with mutable
fields. Every pipeline, replay loop and search loop is a method proved equal to the function about which the lemmas
speak. A thrown error is an `Err`; the clock, ids and decisions are inputs of each call; the policy matrix is an
arbitrary function from operation and mode to an effect; `structuredClone` and freezing are the identity. Revisions
are unbounded naturals with the engine's own maximum checked where it checks it. Run `dafny verify dfyconfig.toml`
to check everything.

Where the code and its comments disagree, the code is modelled:

- A membership `add` with a taken id, or of a member who is already active, fails after its event was appended;
  from then on replay fails (`MembershipRuns.FailureAtomicityCharacterised`, `ReplayGivesLiveIffNoStrayAppend`).
- One active record per member is checked only at creation; suspending, adding again and reactivating breaks it
  (`OneActiveKeptIffNoCollision`, `CollisionIsReachable`).
- Revalidation looks up the actor in the projection only to see that the id exists, and judges the caller's copy
  (`RetainedCopyPasses`); the no-ABA result is about callers that pass the projection's records, as the revocation
  and governance pipelines do.
- For a context prepared before a room has a policy counter the fence compares a flag fingerprint with the counter
  that governance sets later, and the two can coincide (`RunUnnoticedIff`). The first update can be missed
  (`FirstUpdateCanGoUnnoticed`), though not from an odd revision (`FirstUpdateFromOddRevisionIsNoticed`), and a later
  update can revive a context that an earlier one invalidated (`TighteningCanBeAba`). This is the only exception to
  the no-ABA result over runs of the real pipelines (`SystemRuns.NoAba`). With a counter, flag changes are not seen
  at all (`PolicyFenceHoldsIff`).
- Attenuation moves between capabilities of the object family and so can add authority (`MutualSubsetIff`,
  `ChainAuthorityIff`, `SidewaysAuthority`).
- Suspension and removal stay open in bunker and emergency mode (`RestrictiveCommandsStayOpen`), but no capability for
  them can be prepared there (`StrictModesCannotRevoke`), and revocation ignores posture signals
  (`OnlyDefaultPostureRevokes`); `Revocation.AcceptedIff` has the exact conditions.
- A redacted object can be archived, so its lifecycle label is not monotone; missing content is, and that is what
  `RedactionIsPermanent` states.
- Deleting a room to a tombstone marks the title redacted but keeps it in the state (`ReduceAdvances`).

## Model

| member | source | states |
|---|---|---|
| `Privacy.DecisionRegistry.Issue` | packages/privacy/src/index.ts:200-242 | Issuing makes exactly one new object authentic, with the capability, verdict, mode, scope and next logical number asked for; what every other object counts for is unchanged, and logical numbers stay unique. |
| `Decisions.AuthorizesOneScope` | packages/privacy/src/index.ts:232-242 | A decision object authorizes exactly if it was issued, allows, is for persistence and is of that scope; so never a second scope. |
| `Decisions.TwoScopesTwoDecisions` | packages/rooms/src/room-log.ts:4-8 | Two side effects of different scopes need two decision objects, issued one after the other. |
| `Decisions.ObjectCallsNeedTwo` | packages/rooms/src/objects/object-pipeline.ts:155-176 | An accepted object mutation rests on two separately issued decisions, one for the mutation and one for the log. |
| `Decisions.MembershipCallsNeedTwo` | packages/rooms/src/membership/membership-pipeline.ts:149-227 | So does an accepted membership call, with the bootstrap decision or the one in the context. |
| `Decisions.RevocationsNeedTwo` | packages/rooms/src/authorization/revocation-pipeline.ts:87-120 | So does an accepted revocation. |
| `Decisions.GovernanceCallsNeedTwo` | packages/rooms/src/policy-composition/governance-pipeline.ts:144-175 | So does an accepted governance update. |
| `Decisions.ForgedDecisionsDoNothing` | packages/rooms/src/room-log.ts:72-93 | On a decision that was never issued, whatever its fields, no query is answered and nothing is logged. |
| `EventLogs.EventLog.constructor` | packages/rooms/src/objects/object-log.ts:63-71 | A new log is empty; its retention fixes whether it keeps events or only the last number. |
| `EventLogs.EventLog.Append` | packages/rooms/src/objects/object-log.ts:63-128 | An append is the log transition `LogAppend`; a refused one (decision, room, and for the memory log sequence) leaves the log as it was. |
| `EventLogs.EventLog.ReadAll` | packages/rooms/src/objects/object-log.ts:83-87 | Reading needs the read decision and returns all events, or none for the null log. |
| `EventLogs.EventLog.Clear` | packages/rooms/src/objects/object-log.ts:88-94 | Clearing needs the clear decision, reports how many events went, and a null log has none to lose. |
| `EventLogs.EventLog.NextLocalSequence` | packages/rooms/src/objects/object-log.ts:105-108 | The next number is one more than the count of events, or than the last number of a null log; the membership log (membership-log.ts:62-147) behaves alike. |
| `ObjectReducer.ReplayObjectEvents` | packages/rooms/src/objects/object-reducer.ts:98-131 | Replay accepts exactly the lists of the room numbered 1, 2, 3, ... whose single fold succeeds, and its validation, dry run and application together return that fold. |
| `Common.FoldFailurePersists` | packages/rooms/src/objects/object-reducer.ts:118-126 | A failure on a prefix is a failure on the whole list, whatever the reducer, so a dry run and the real pass agree. |
| `ObjectPipeline.ApplyLocalRoomObjectMutation` | packages/rooms/src/objects/object-pipeline.ts:119-193 | The pipeline, with its guards, event, append and projection, is one step of the object machine on the log it is given; a failing call leaves the log. |
| `ObjectPipeline.PreparedEventApplies` | packages/rooms/src/objects/object-pipeline.ts:155-176 | An event that passed the guards is never refused by the reducer, on any projection, and replaces or adds exactly one object. |
| `ObjectPipeline.FailureIsAtomic` | packages/rooms/src/objects/object-pipeline.ts:155-176 | A failing call leaves the log as it was, on all projections, logs and inputs. |
| `ObjectPipeline.AcceptedStep` | packages/rooms/src/objects/object-pipeline.ts:155-192 | An accepted call appends exactly its event, numbered next, and the new projection is that event applied. |
| `ObjectRuns.AcceptedIff` | packages/rooms/src/objects/object-pipeline.ts:86-176 | Exactly when a call is accepted: room, references, matrix, both decisions, policy, expected revision, lifecycle and status, independently of the order of the checks. |
| `ObjectRuns.NextChanges` | packages/rooms/src/objects/object-pipeline.ts:119-193 | A call either changes the projection as its command says or leaves it alone; what a command says of a new object and of an old one is `CreationMeans` and `CommandsDo`. |
| `ObjectLaws.CreationMeans` | packages/rooms/src/objects/object-events.ts:195-287 | Every accepted creation adds, last, one active object at revision one whose kind, sensitivity, creator, times and every content field are what the command names; all other fields are absent, messages are unedited, and the status is to do, proposed, draft or none. |
| `ObjectLaws.AcceptedCreation` | packages/rooms/src/objects/object-pipeline.ts:155-192 | Through the pipeline, the event and the new projection both carry that object. |
| `ObjectLaws.EventRecords` | packages/rooms/src/objects/object-events.ts:414-444 | The event records the ids, actor, time and number of the call, and kind, revisions and lifecycle before and after it. |
| `ObjectLaws.AppliedIff` | packages/rooms/src/objects/object-reducer.ts:22-95 | Exactly when any event, prepared by the pipeline or not, applies to a projection, and that it then replaces or adds one object. |
| `ObjectLaws.CommandsAre` | packages/rooms/src/objects/object-policy.ts:30-47 | Scope, matrix operation and admissible lifecycles of every command. |
| `ObjectLaws.CommandsDo` | packages/rooms/src/objects/object-events.ts:133-183 | What every command leaves of the object it names: revision, lifecycle, redaction flag and content. |
| `ObjectLaws.StatusMovesAre` | packages/rooms/src/objects/object-lifecycle.ts:46-102 | The status tables are exactly these thirteen moves. |
| `ObjectLaws.LabelsAreLocal` | packages/rooms/src/objects/object-pipeline.ts:195-198 | A local label marks a time that is not yet marked, and no other. |
| `ObjectRuns.ReplayRefinesLive` | packages/rooms/src/objects/object-reducer.ts:98-131 | At every point of every run of accepted and rejected calls, replaying the memory log from empty gives exactly the live projection. |
| `ObjectRuns.RetentionIsInvisible` | packages/rooms/src/objects/object-log.ts:110-153 | A run on the null log gives the same projections as the run on the memory log, call by call. |
| `ObjectRuns.ClassDecidesOutcome` | packages/rooms/src/objects/object-events.ts:121-183 | The class of a command decides lifecycle, redaction and content of the one object it touches, an update overlaying exactly the named fields; every other object is unchanged. |
| `ObjectRuns.UpdateIsOverlay` | packages/rooms/src/objects/object-events.ts:289-411 | A content update works on content of any kind, fails exactly on a status move outside the tables or a redraft of a poll that is no draft, and otherwise writes exactly the fields it names. |
| `ObjectRuns.ReachableIffPath` | packages/rooms/src/objects/object-lifecycle.ts:46-102 | The closed form of status reachability is exactly the existence of a path of table moves. |
| `ObjectRuns.UpdateEvolves` | packages/rooms/src/objects/object-events.ts:133-183 | An update keeps identity, kind and authorship, counts the revision up by one, never restores content and never leaves a tombstone. |
| `ObjectRuns.RunEvolves` | packages/rooms/src/objects/object-reducer.ts:67-84 | Between any two points of any run from any world no object disappears, moves, changes identity or kind, changes without a larger revision, regains content, or changes once tombstoned. |
| `ObjectRuns.StatusDiscipline` | packages/rooms/src/objects/object-lifecycle.ts:46-102 | Over every run and under any command sent to any object, statuses move only along their tables, final ones stay, a resolved decision is never proposed again, and an opened poll keeps question and options until its content is gone. |
| `ObjectRuns.UpdatedContentFits` | packages/rooms/src/objects/object-events.ts:289-411 | Although updates never look at the kind, they keep kind and status in agreement, and only messages reply and only decisions supersede. |
| `ObjectRuns.ReachableWellFormed` | packages/rooms/src/objects/object-pipeline.ts:86-138 | In every reachable projection ids are unique, every reply target exists at a smaller index, every superseded target exists and is a decision, and redaction, lifecycle, content and status agree. |
| `ObjectRuns.ReplyChainsDescend` | packages/rooms/src/objects/object-pipeline.ts:86-96 | Reply chains go strictly backwards, so there are no cycles and each chain is finite. |
| `ObjectRuns.RevisionsEqualLogLength` | packages/rooms/src/objects/object-events.ts:133-146 | The revisions of all objects add up to the length of the uncleared log, at every point of every run. |
| `ObjectRuns.NoLostUpdates` | packages/rooms/src/objects/object-pipeline.ts:98-117 | Of all accepted updates of one object in a run a later one expects a strictly larger revision, so no expected revision is accepted twice. |
| `PlainText.NoLoneIffUtf16` | packages/rooms/src/objects/object-validation.ts:17-20 | The lone-surrogate test accepts exactly the UTF-16 encodings of scalar values (section 2 of RFC 2781). |
| `PlainText.DecodeRestores` | packages/rooms/src/objects/object-validation.ts:17-20 | Decoding an accepted string and encoding it again gives it back. |
| `PlainText.ByteCountIsUtf8Length` | packages/rooms/src/objects/object-validation.ts:27-46 | On accepted strings the byte count is the length of the UTF-8 encoding (section 3 of RFC 3629). |
| `PlainText.ByteCountAdditive` | packages/rooms/src/objects/object-validation.ts:27-46 | The byte count is additive under concatenation of accepted strings. |
| `PlainText.ByteCountAdditiveIff` | packages/rooms/src/objects/object-validation.ts:27-46 | On any string, well-formed or not, such as an unchecked search term, the count is additive behind it exactly when the loop does not end on a high surrogate with nothing after it. |
| `PlainText.DanglingSwallows` | packages/rooms/src/objects/object-validation.ts:34-40 | If it does end so, the next unit, whatever it is, is not counted. |
| `PlainText.CutPairCountsMore` | packages/rooms/src/objects/object-validation.ts:34-40 | Every surrogate pair cut in half counts seven bytes instead of four. |
| `PlainText.ByteCountNotAdditive` | packages/rooms/src/objects/object-validation.ts:27-46 | So the count is not additive on all strings: a concrete pair. |
| `PlainText.Utf8ByteLength` | packages/rooms/src/objects/object-validation.ts:27-46 | The index loop, which skips the second half of a pair, computes that count. |
| `PlainText.ValidateRoomPlainText` | packages/rooms/src/objects/object-validation.ts:48-79 | Validation accepts exactly the texts within the limit, without NUL and without lone surrogates. |
| `Capabilities.ResolveLocalCapability` | packages/rooms/src/membership/capability-resolution.ts:70-126 | A capability is resolved exactly for active, eligible members outside of emergency mode, in bunker mode only from its list, and a mutation only with the room's permission and without critical risk; it is then current for its record. |
| `Capabilities.RolesHave` | packages/rooms/src/membership/membership-roles.ts:23-67 | Which roles have each capability. |
| `Capabilities.ModeListsAre` | packages/rooms/src/membership/capability-resolution.ts:37-68 | Which capabilities remain in bunker mode and which count as mutations. |
| `Capabilities.ContextAuthorizesIff` | packages/rooms/src/membership/authorization-context.ts:35-90 | Exactly what a context authorizes, field by field. |
| `Capabilities.AttenuatesIff` | packages/rooms/src/membership/capability-attenuation.ts:94-120 | Exactly which narrowings are granted, in the capabilities, kinds, object and view themselves, and what they give. |
| `Capabilities.SubsetIsPreorder` | packages/rooms/src/membership/capability-attenuation.ts:66-92 | The subset test on descriptors is reflexive and transitive. |
| `Capabilities.MutualSubsetIff` | packages/rooms/src/membership/capability-attenuation.ts:47-92 | Exactly which descriptors are subsets of each other: same identity and object, the same capability or two object mutations, the same kinds in any order, views of one rank. |
| `Capabilities.SubsetIsNotAntisymmetric` | packages/rooms/src/membership/capability-attenuation.ts:33-55 | So it is no partial order: create and tombstone attenuate into each other. |
| `Capabilities.RolesAreDownwardClosed` | packages/rooms/src/membership/membership-roles.ts:23-67 | Every role has, with a capability, all the ones attenuation may narrow it to. |
| `Capabilities.ChainStaysBelowRoot` | packages/rooms/src/membership/capability-attenuation.ts:94-140 | A chain of attenuations of any length stays below its root, and is current and role-eligible whenever the root is. |
| `Capabilities.ChainNeverAddsAuthority` | packages/rooms/src/membership/authorization-context.ts:35-90 | With the same capability, whatever the end of a chain authorizes its root authorizes. |
| `Capabilities.ChainAuthorityIff` | packages/rooms/src/membership/authorization-context.ts:35-90 | Of what the end of a chain authorizes, its root authorizes exactly that for which the capability is unchanged. |
| `Capabilities.SidewaysAuthority` | packages/rooms/src/membership/capability-attenuation.ts:94-120 | Attenuation can add authority: one step from a current object capability reaches every other of at most its rank and authorizes what the root does not. |
| `Capabilities.CreateAttenuatesToTombstone` | packages/rooms/src/membership/capability-attenuation.ts:33-55 | An editor's descriptor to create attenuates to one that authorizes a tombstone, which the original does not. |
| `Membership.ApplyLocalRoomMembershipMutation` | packages/rooms/src/membership/membership-pipeline.ts:100-239 | The pipeline is one step of the membership machine on the log it is given, appending before it reduces, and changes nothing of the room but the records. |
| `Membership.ReplayMembershipEvents` | packages/rooms/src/membership/membership-reducer.ts:66-80 | Replay accepts exactly the contiguously numbered lists that fold, and returns the fold. |
| `MembershipRuns.AcceptedIff` | packages/rooms/src/membership/membership-pipeline.ts:106-231 | Exactly when a membership call is accepted, independently of the order of the checks: among the rest, the acting member is active in the room and its descriptor is for the capability that the command asks for. |
| `MembershipRuns.AuthorityIff` | packages/rooms/src/membership/membership-pipeline.ts:149-188 | Exactly when a call has the authority it needs: a bootstrap decision in an empty room, or an active acting member with a current descriptor for the command's capability and a decision for its scope. |
| `MembershipLaws.InactiveMembersCannotAct` | packages/rooms/src/membership/membership-pipeline.ts:182-187 | At no point of any run is a call accepted, whatever context it brings, whose member is not active in the room at that point. |
| `MembershipLaws.SuspendedMembersCannotAct` | packages/rooms/src/membership/membership-pipeline.ts:182-187 | A member suspended or removed by one call of a run has no later call accepted, except after an accepted reactivation of a suspended one. |
| `MembershipLaws.CommandsAre` | packages/rooms/src/membership/membership-pipeline.ts:56-180 | Scope, matrix operation and capability of every command. |
| `MembershipLaws.PolicyAllowsIff` | packages/rooms/src/membership/membership-policy.ts:43-136 | Which commands the membership policy lets through in each mode. |
| `MembershipLaws.EventRecords` | packages/rooms/src/membership/membership-events.ts:143-172 | The event records the ids, time and number of the call and the revision before it. |
| `MembershipLaws.ReducedIff` | packages/rooms/src/membership/membership-reducer.ts:15-48 | Exactly when any event reduces on any records, and that it then replaces or adds one record. |
| `MembershipLaws.OwnerGuardIff` | packages/rooms/src/membership/membership-pipeline.ts:82-98 | An active owner may be suspended, removed or demoted exactly when another active owner remains. |
| `MembershipRuns.AcceptedEffect` | packages/rooms/src/membership/membership-events.ts:70-141 | What each accepted command leaves: one record added or changed, at the next revision, with id, role, state and times as commanded, all others untouched. |
| `MembershipRuns.AppendedThenFailsIffCollidingAdd` | packages/rooms/src/membership/membership-reducer.ts:21-33 | Once the append went through, the call fails exactly for an add whose id is taken or whose member is already active. |
| `MembershipRuns.FailureAtomicityCharacterised` | packages/rooms/src/membership/membership-pipeline.ts:216-231 | A failing call changed the log if and only if it was such an add that got as far as the append; the header's claim of no effect on failure (lines 4-5) needs this exception. |
| `MembershipRuns.AddingAnActiveMemberStrays` | packages/rooms/src/membership/membership-pipeline.ts:216-231 | The exception happens in every room with an owner: an owner adding any active member makes the log grow and the call fail. |
| `MembershipRuns.ReplayGivesLiveIffNoStrayAppend` | packages/rooms/src/membership/membership-reducer.ts:66-80 | At every point of every run replay gives the live records exactly when no call so far failed after its append; after one, replay fails for good. |
| `MembershipRuns.RunEvolves` | packages/rooms/src/membership/membership-reducer.ts:15-48 | Over any run records are never dropped, keep id, room, member and origin, change only with a larger revision, and never change again once tombstoned. |
| `MembershipRuns.ChangesKeepOwner` | packages/rooms/src/membership/membership-pipeline.ts:82-98 | Every accepted change leaves an active owner if there was one, or if there were no records. |
| `MembershipRuns.OwnerContinuity` | packages/rooms/src/membership/membership-pipeline.ts:82-98 | Every reachable room is empty or has an active owner; membership ids stay unique and revisions in range. |
| `MembershipRuns.BootstrapIsFirstAndOnly` | packages/rooms/src/membership/membership-pipeline.ts:149-161 | In a run from an empty room an accepted call is a bootstrap if and only if it is the first accepted call. |
| `MembershipRuns.OneActiveKeptIffNoCollision` | packages/rooms/src/membership/membership-reducer.ts:24-33 | An accepted call keeps at most one active record per member exactly when it is not the reactivation of a record whose member is active under another one. |
| `MembershipRuns.CollidingReactivationIsAccepted` | packages/rooms/src/membership/membership-events.ts:125-130 | That exception happens: in any room with such records an owner's reactivation is accepted, so the header's one-active-record claim fails. |
| `MembershipWitness.CollisionIsReachable` | packages/rooms/src/membership/membership-reducer.ts:4-5 | And such rooms are reached: from any empty room the five accepted calls bootstrap, add, suspend, add again, reactivate end with one member active under two records. |
| `Authorization.IsCapabilitySubset` | packages/rooms/src/authorization/role-authority.ts:22-28 | The early-return loop decides set inclusion. |
| `Authorization.CompareRoleAuthority` | packages/rooms/src/authorization/role-authority.ts:31-43 | The comparison is inclusion of capability sets. |
| `Authorization.RoleOrder` | packages/rooms/src/authorization/role-authority.ts:1-7 | On the actual tables: owner above editor above viewer, the auditor only below the owner and incomparable to the rest. |
| `Authorization.ComputeRoomPolicyFingerprint` | packages/rooms/src/authorization/authorization-revision.ts:42-60 | The bit loop computes the number whose binary digits are the eight flags. |
| `Authorization.FingerprintInjective` | packages/rooms/src/authorization/authorization-revision.ts:36-60 | Different flags have different fingerprints. |
| `Authorization.FingerprintIs` | packages/rooms/src/authorization/authorization-revision.ts:36-60 | The weight that each flag has in the fingerprint. |
| `Authorization.PassesIff` | packages/rooms/src/authorization/authorization-revalidation.ts:44-148 | Exactly when any context, prepared or made up, passes the fence, check by check. |
| `Authorization.PreparedIff` | packages/rooms/src/authorization/prepared-authorization.ts:60-127 | Exactly when a context can be prepared, and what it is then bound to. |
| `Authorization.PolicyFenceHoldsIff` | packages/rooms/src/authorization/authorization-revision.ts:63-68 | When two policies look the same to the fence: without a counter the flags must agree, with counters only the counters, and between the two a counter may coincide with a fingerprint. |
| `Authorization.RevalidatedIff` | packages/rooms/src/authorization/authorization-revalidation.ts:44-148 | Exactly when a context prepared in one state is accepted in another: same environment, same record, same request, authorizing decision. |
| `Authorization.PreparedIsCurrent` | packages/rooms/src/authorization/prepared-authorization.ts:60-127 | What was prepared in a state is accepted in that state. |
| `Authorization.RetainedCopyPasses` | packages/rooms/src/authorization/authorization-revalidation.ts:66-90 | The fence trusts the caller's copy of the acting record: with a copy kept from preparation it passes whatever became of the record in the projection. |
| `AuthorizationRuns.UntouchedIffSameRevision` | packages/rooms/src/membership/membership-events.ts:109-140 | Over any interleaving of membership calls and other changes, records are never dropped and an equal revision means the record was never touched in between. |
| `AuthorizationRuns.OtherPipelinesAreOtherMoves` | packages/rooms/src/policy-composition/governance-pipeline.ts:181-188 | Governance updates and base room events are other changes in that sense: they leave records and room. |
| `AuthorizationRuns.NoAba` | packages/rooms/src/authorization/authorization-revalidation.ts:44-148 | Over any such interleaving, a context used with the records of the projection is accepted if and only if actor and target were never touched since preparation, the environment is the same at both ends, and binding and decision agree. |
| `AuthorizationRuns.TouchedActorIsRejected` | packages/rooms/src/authorization/authorization-revalidation.ts:70-90 | One accepted change of the actor in between rejects, also when later ones restored role and state. |
| `SystemRuns.CoarseRunAgrees` | packages/rooms/src/policy-composition/governance-pipeline.ts:181-188 | A run of real membership, governance and base room events is such an interleaving, with the same rooms and membership logs. |
| `SystemRuns.RunAdvances` | packages/rooms/src/policy-composition/governance-pipeline.ts:152-188 | Between any two points of such a run mode and room are constant, the lifecycle only moves forward, and revision and counter grow by exactly the governance updates accepted in between. |
| `SystemRuns.LifecycleKeptIff` | packages/rooms/src/room-lifecycle.ts:28-88 | So an equal lifecycle at both ends means it never changed in between. |
| `SystemRuns.NoAba` | packages/rooms/src/authorization/authorization-revalidation.ts:44-148 | Over every run of the real pipelines a context is accepted if and only if in between no record it is bound to was touched, the lifecycle never moved, no governance update was accepted, and posture, binding and decision agree; the one exception is a room without a counter at preparation whose revision has meanwhile reached the fingerprint of the flags. |
| `Revocation.ApplyLocalMembershipRevocation` | packages/rooms/src/authorization/revocation-pipeline.ts:59-129 | The pipeline is the guarded, delegated membership step, and reports the revision it invalidated. |
| `Revocation.GuardedDirection` | packages/rooms/src/authorization/role-authority.ts:53-78 | What passes the guard creates and reactivates nothing, and changes a role only to one with a subset of the capabilities. |
| `Revocation.FenceImpliesAuthority` | packages/rooms/src/authorization/revocation-pipeline.ts:87-110 | For a genuinely prepared context the authority check of the delegated call never fails. |
| `Revocation.FailureIsAtomic` | packages/rooms/src/authorization/revocation-pipeline.ts:1-7 | A failing revocation leaves the log as it was. |
| `Revocation.GuardIff` | packages/rooms/src/authorization/revocation-pipeline.ts:72-105 | A genuine context passes the guard exactly when the command only restricts and room, environment under no posture signal, actor, target and decision are as prepared. |
| `Revocation.AcceptedIff` | packages/rooms/src/authorization/revocation-pipeline.ts:59-129 | Exactly when a revocation with a genuine context is accepted in a governed room. |
| `Revocation.OnlyDefaultPostureRevokes` | packages/rooms/src/authorization/revocation-pipeline.ts:91-100 | In particular no posture signal reaches the fence here, so a context prepared under any posture but the default one cannot revoke. |
| `Revocation.StrictModesCannotRevoke` | packages/rooms/src/membership/capability-resolution.ts:89-107 | In particular no genuine context revokes in bunker or emergency mode, nor one prepared under flags without content mutation or at critical risk: the capability cannot be prepared then. |
| `Revocation.RestrictiveCommandsStayOpen` | packages/rooms/src/membership/membership-policy.ts:43-136 | The membership policy itself leaves suspension and removal open in every known mode, and in emergency nothing else. |
| `Revocation.RevocationMeans` | packages/rooms/src/authorization/revocation-pipeline.ts:107-129 | An accepted revocation changes exactly the target record as commanded, field by field, and appends exactly one event that carries it. |
| `Revocation.RevocationShrinks` | packages/rooms/src/authorization/revocation-pipeline.ts:78-110 | An accepted revocation adds no record and gives no record a capability. |
| `Revocation.RunShrinks` | packages/rooms/src/authorization/revocation-pipeline.ts:59-129 | Along any run of revocations no record is added, every record's capabilities only shrink, and a governed room keeps an active owner. |
| `PolicyDocuments.TightensIsPartialOrder` | packages/rooms/src/policy-composition/policy-comparison.ts:16-58 | Strictness of rules is a partial order. |
| `PolicyDocuments.DefaultsAre` | packages/rooms/src/policy-composition/room-policy-document.ts:92-143 | The default rules of each mode. |
| `PolicyDocuments.ScalesAre` | packages/rooms/src/policy-composition/policy-comparison.ts:16-41 | The order of the values on each scale. |
| `PolicyDocuments.JoinIsLeastUpperBound` | packages/rooms/src/policy-composition/policy-comparison.ts:16-95 | The field-wise stricter value is the least set of rules at least as strict as both. |
| `PolicyDocuments.JoinAllPermutes` | packages/rooms/src/policy-composition/policy-comparison.ts:16-95 | Joining a list of rules does not depend on its order. |
| `PolicyComparison.CompareRoomPolicies` | packages/rooms/src/policy-composition/policy-comparison.ts:60-95 | The collected deltas decide exactly the direction in the strictness order; different rooms are unknown. |
| `PolicyComparison.DeltasDecide` | packages/rooms/src/policy-composition/policy-comparison.ts:43-95 | Some delta is negative exactly when the candidate does not tighten, some positive exactly when the current policy does not. |
| `PolicyComposition.FoldStrictestEffect` | packages/rooms/src/policy-composition/policy-layers.ts:97-103 | The fold returns the strictest listed effect, and allow when nothing restricts it. |
| `PolicyComposition.StrictestIsUnique` | packages/rooms/src/policy-composition/policy-layers.ts:57-95 | There is only one strictest effect, so the order of constraints is irrelevant. |
| `PolicyComposition.ResolveEffectivePosture` | packages/rooms/src/policy-composition/device-posture.ts:75-120 | A signal can only lower trust: the outcome is at risk exactly if that was reported and unverified otherwise, at the revision of the signal. |
| `PolicyComposition.EffectsAreOrdered` | packages/rooms/src/policy-composition/policy-layers.ts:57-84 | The effects from the strictest to the weakest, and which of them permit execution. |
| `PolicyComposition.PostureSatisfiesIff` | packages/rooms/src/policy-composition/device-posture.ts:149-160 | Which postures meet each minimum. |
| `PolicyComposition.ProtectedSatisfiedIff` | packages/rooms/src/policy-composition/protected-content.ts:41-77 | Which protection requirements can be met without a device. |
| `PolicyComposition.ContentAllowedIff` | packages/rooms/src/policy-composition/policy-composition.ts:94-183 | When content of a document is allowed under a signal: outside of emergency, with no risk reported, no posture and no device protection asked for. |
| `PolicyComposition.ContentEffectIs` | packages/rooms/src/policy-composition/policy-composition.ts:94-183 | The composed effect of an operation on content, reason by reason. |
| `PolicyComposition.OtherEffectIs` | packages/rooms/src/policy-composition/policy-composition.ts:142-165 | The composed effect of every other operation. |
| `PolicyComposition.FlagsAre` | packages/rooms/src/policy-composition/policy-composition.ts:142-183 | The other flags of the composed policy. |
| `PolicyComposition.ContentOperationIff` | packages/rooms/src/policy-composition/policy-composition.ts:92-100 | The operations on content are those with one of seven words somewhere in their name. |
| `PolicyComposition.AdmitsIff` | packages/rooms/src/policy-composition/sensitive-admission.ts:41-99 | Which actions are admitted. |
| `PolicyComposition.ContentConstraints` | packages/rooms/src/policy-composition/policy-composition.ts:94-140 | The constraints collected gate by gate have the closed-form content effect as their strictest. |
| `PolicyComposition.ComposeEffectiveRoomPolicy` | packages/rooms/src/policy-composition/policy-composition.ts:94-183 | Collecting and folding constraints is the closed form of the effective policy. |
| `PolicyComposition.TighteningIsEndToEnd` | packages/rooms/src/policy-composition/policy-composition.ts:94-183 | A stricter document composes, for every mode, posture and operation, to an effect at least as strict with no flag turned on, and admits no action the other did not. |
| `PolicyComposition.AdmissionAgreesWithComposition` | packages/rooms/src/policy-composition/sensitive-admission.ts:41-99 | Opening and changing content is admitted exactly where composition allows the content operation. |
| `Governance.Mentioned` | packages/rooms/src/policy-composition/governance-commands.ts:122-145 | The list of features without repetition, with exactly the features mentioned. |
| `Governance.MentionedInOrder` | packages/rooms/src/policy-composition/governance-commands.ts:131-144 | It is in order of first mention: what stands before a feature is what was mentioned before its first mention. |
| `Governance.RequireFeatures` | packages/rooms/src/policy-composition/governance-commands.ts:122-145 | Validation accepts exactly the lists of one to ten known features and returns them without repetition in order of first mention. |
| `Governance.BuildCandidateRoomPolicy` | packages/rooms/src/policy-composition/governance-commands.ts:224-288 | The candidate, loop over features included, is the current document at the next revision with the one commanded change. |
| `Governance.GovernanceLog.Append` | packages/rooms/src/policy-composition/governance-pipeline.ts:53-88 | The governance log checks only the decision, neither room nor sequence; a refused append leaves it. |
| `Governance.DryRunPasses` | packages/rooms/src/policy-composition/governance-pipeline.ts:160-172 | The dry run cannot fail: the event fits the policy it was built from and reduces to the candidate. |
| `Governance.ApplyLocalRoomGovernanceUpdate` | packages/rooms/src/policy-composition/governance-pipeline.ts:118-197 | The pipeline is one step of the governance machine; failing leaves the log, success puts document and revision into the state. |
| `GovernanceRuns.ChangeIsComparable` | packages/rooms/src/policy-composition/governance-commands.ts:260-288 | A validated change never compares as incomparable or unknown, and disabling features never as looser. |
| `GovernanceRuns.CandidateIsJoin` | packages/rooms/src/policy-composition/governance-commands.ts:260-288 | A stricter candidate is the join of the policy with the change's target; for any other candidate that join is the current policy. |
| `GovernanceRuns.AcceptedIff` | packages/rooms/src/policy-composition/governance-pipeline.ts:129-197 | Exactly when a call is accepted, guard by guard: room, actor, the current revision expected, the fence, a stricter candidate and a decision for the log. |
| `GovernanceRuns.AcceptedIfStricter` | packages/rooms/src/policy-composition/governance-pipeline.ts:151-156 | An authorised call is accepted exactly when its candidate is strictly stricter. |
| `GovernanceLaws.AcceptedIff` | packages/rooms/src/policy-composition/governance-pipeline.ts:129-197 | Exactly when a call with a genuinely prepared context is accepted: sent to its room by the member it was prepared for, expecting the current revision, with record, environment and request as prepared, both decisions, and rules that tighten and change. |
| `GovernanceLaws.LaterUpdateExpectsMore` | packages/rooms/src/policy-composition/governance-pipeline.ts:142-144 | Of two accepted updates of a run the later one expects a strictly larger revision. |
| `GovernanceLaws.EventRecords` | packages/rooms/src/policy-composition/governance-events.ts:70-94 | The event records the ids, time and number of the call, both revisions and the whole resulting policy. |
| `GovernanceLaws.ReducedIff` | packages/rooms/src/policy-composition/governance-pipeline.ts:94-112 | Exactly when any event reduces on any policy. |
| `GovernanceRuns.FailureIsAtomic` | packages/rooms/src/policy-composition/governance-pipeline.ts:160-182 | A failing call leaves policy, state and log, whatever they are. |
| `GovernanceRuns.AcceptedExtendsLog` | packages/rooms/src/policy-composition/governance-pipeline.ts:160-187 | An accepted call appends one event with the next number whose reduction is the new policy, and changes only document and revision of the room. |
| `GovernanceRuns.RulesAreJoinOfTargets` | packages/rooms/src/policy-composition/governance-pipeline.ts:152-187 | After any calls the rules are the join of the first ones with the target of every authorised call, accepted or rejected as not stricter. |
| `GovernanceRuns.Confluence` | packages/rooms/src/policy-composition/governance-pipeline.ts:152-187 | Two runs whose authorised calls ask for the same changes in whatever order end with the same rules. |
| `GovernanceRuns.SlackBounds` | packages/rooms/src/policy-composition/room-policy-document.ts:92-143 | Slack is at most 21, at most 14 in the defaults of any mode, and 14 in the standard ones. |
| `GovernanceRuns.SlackCanBeSpentSlowly` | packages/rooms/src/policy-composition/policy-comparison.ts:16-95 | While slack is left some change is stricter and uses one unit. |
| `GovernanceRuns.GenuineUpdateAuthorised` | packages/rooms/src/policy-composition/governance-pipeline.ts:135-152 | An active owner outside of bunker and emergency mode, in a room with content mutation, can always prepare and send an authorised update, which is accepted exactly when it is stricter. |
| `GovernanceRuns.SlackIsReached` | packages/rooms/src/policy-composition/governance-pipeline.ts:152-187 | From any policy such an owner has a run of genuine updates, all accepted, as long as the slack. |
| `GovernanceRuns.BoundsAreReached` | packages/rooms/src/policy-composition/governance-pipeline.ts:152-187 | So the bounds are met: 21 updates from the loosest document, 14 from the standard defaults. |
| `GovernanceRuns.RevisionCountsAccepted` | packages/rooms/src/policy-composition/governance-commands.ts:260-288 | The revision grows by exactly the number of accepted updates, each of which uses up slack. |
| `GovernanceRuns.RunsAreBounded` | packages/rooms/src/policy-composition/governance-pipeline.ts:152-187 | At most 21 updates are ever accepted in a run, at most 14 from the defaults of a mode. |
| `GovernanceRuns.EffectivePolicyTightens` | packages/rooms/src/policy-composition/policy-composition.ts:94-183 | Along any governance run the composed policy only tightens and nothing is admitted again. |
| `GovernanceFence.AgreementKept` | packages/rooms/src/policy-composition/governance-pipeline.ts:181-188 | Once the state's document and counter agree with the policy passed beside it they keep agreeing, and governance touches no membership record. |
| `GovernanceFence.CounterFollows` | packages/rooms/src/policy-composition/governance-pipeline.ts:181-188 | After any run the revision has grown by the accepted updates, and after the first of them the counter is that revision. |
| `GovernanceFence.RunUnnoticedIff` | packages/rooms/src/authorization/authorization-revision.ts:62-68 | Over a whole run the policy half of the fence notices nothing exactly when no update was accepted, or the room had no counter at the start and the flags have the fingerprint that the revision has reached. |
| `GovernanceFence.UpdateUnnoticedIff` | packages/rooms/src/authorization/authorization-revision.ts:62-68 | A single update is missed by contexts prepared right before it exactly when it brings the first counter and that equals the fingerprint; contexts from before several updates are a matter of `RunUnnoticedIff`. |
| `GovernanceFence.FirstUpdateHasOddFingerprint` | packages/rooms/src/membership/capability-resolution.ts:98-101 | A genuine update of a room without a counter needs content mutation, the lowest flag, so its flags have an odd fingerprint. |
| `GovernanceFence.FirstUpdateFromOddRevisionIsNoticed` | packages/rooms/src/authorization/authorization-revision.ts:36-68 | Hence a genuine first update from an odd revision, such as the initial one, is always noticed under its own flags. |
| `GovernanceFence.FirstUpdateCanGoUnnoticed` | packages/rooms/src/authorization/authorization-revision.ts:62-68 | A genuine first update from revision 2 with fingerprint 3 is missed, and the context it was made with passes again. |
| `GovernanceFence.TighteningCanBeAba` | packages/rooms/src/authorization/authorization-revalidation.ts:91-94 | From the initial revision, a kept context fails after the first of two genuine accepted updates and passes again after the second. |
| `Queries.SearchRoomObjectsExact` | packages/rooms/src/query/query-search.ts:15-77 | The nested loops return exactly the objects with a matching allowed text, in order, and fail exactly on a visited poll without options. |
| `Queries.SanitizeObjectForDetail` | packages/rooms/src/query/query-redaction.ts:81-107 | Stripping the clone field by field yields the sanitized object. |
| `QueryOrder.CompareStringsLaws` | packages/rooms/src/query/query-executor.ts:87-115 | String comparison is a strict total order. |
| `QueryOrder.ComparatorTotal` | packages/rooms/src/query/query-executor.ts:87-115 | Every comparator is antisymmetric and ties only objects with one id. |
| `QueryOrder.BeforeTransitive` | packages/rooms/src/query/query-executor.ts:87-115 | Every comparator is transitive. |
| `QueryOrder.SortedInOrder` | packages/rooms/src/query/query-executor.ts:188-191 | With unique ids the sorted copy is strictly in order. |
| `QueryOrder.InOrderIsUnique` | packages/rooms/src/query/query-executor.ts:188-191 | There is only one permutation in order. |
| `QueryOrder.SortedIsTheSortedPermutation` | packages/rooms/src/query/query-executor.ts:188-191 | Any sorting routine that permutes and orders gives the sorted copy. |
| `QueryExecutor.PaginateItems` | packages/rooms/src/query/query-executor.ts:131-168 | The mutable page start gives the page behind the cursor's object, and nothing behind an unknown one. |
| `QueryExecutor.CreateRoomObjectDetailView` | packages/rooms/src/query/query-redaction.ts:109-142 | The detail view with its clone and stripping branch is the specified one. |
| `QueryExecutor.ExecuteRoomQuery` | packages/rooms/src/query/query-executor.ts:193-289 | The executor with its loops is the query function about which the filter, order, paging and redaction results speak. |
| `QueryLaws.ListedIff` | packages/rooms/src/query/query-executor.ts:49-85 | A list holds an object if and only if the snapshot does, the object is of the query's kind, and every given field of the filter holds. |
| `QueryLaws.CountedIs` | packages/rooms/src/query/query-executor.ts:225-230 | A count is the number of objects for which every given field of the filter holds. |
| `QueryLaws.FoundIff` | packages/rooms/src/query/query-search.ts:15-77 | A search holds an object if and only if it is of an asked kind and shows a text with the term in it. |
| `QueryLaws.ShowsIff` | packages/rooms/src/query/query-search.ts:15-57 | Which texts of an object a search looks at, kind by kind. |
| `QueryLaws.StringLessIff` | packages/rooms/src/query/query-executor.ts:87-115 | Strings are ordered by their first difference. |
| `QueryLaws.BeforeIff` | packages/rooms/src/query/query-executor.ts:87-115 | What comes before what under each sort. |
| `QueryLaws.OrderIs` | packages/rooms/src/query/query-executor.ts:232-262 | The sort asked for is the one used, except by times where they may not be seen; searches are by id. |
| `QueryLaws.ResultsAreOrdered` | packages/rooms/src/query/query-executor.ts:87-115 | Along any results revisions or update times never grow, or creation times never fall, as the sort says. |
| `QueryLaws.CursorNamesLast` | packages/rooms/src/query/query-executor.ts:148-168 | A next cursor names the last object of its page with its revision and times. |
| `QueryLaws.QueriesAre` | packages/rooms/src/query/query-policy.ts:39-60 | Scope and matrix operation of every query. |
| `QueryLaws.AdmittedIff` | packages/rooms/src/query/query-policy.ts:279-334 | Exactly which queries get past the guard. |
| `QueryLaws.ModesAllow` | packages/rooms/src/query/query-policy.ts:87-273 | What each mode allows, flag by flag, with the effective view and the longest page. |
| `QueryLaws.PagesAre` | packages/rooms/src/query/query-executor.ts:117-129 | The longest and the default page in each mode. |
| `QueryLaws.SummaryShows` | packages/rooms/src/query/query-redaction.ts:51-79 | What an object summary shows in each view and under each flag. |
| `QueryLaws.RoomSummaryShows` | packages/rooms/src/query/query-redaction.ts:30-49 | What a room summary shows. |
| `QueryLaws.DetailShows` | packages/rooms/src/query/query-redaction.ts:109-142 | What a detail view keeps and replaces, and the reason it gives, flag by flag. |
| `QueryLaws.ContentIsShown` | packages/rooms/src/query/query-redaction.ts:81-107 | Tags, assignees and due times are replaced where they may not be seen; all other content stays. |
| `QueryPaging.OnePage` | packages/rooms/src/query/query-executor.ts:117-168 | A page with a valid limit is the next stretch of the results, says correctly whether more follow, and its cursor, validated again, points right behind it. |
| `QueryPaging.PagingIsComplete` | packages/rooms/src/query/query-executor.ts:117-168 | Following the cursors with any valid limits gives the results strictly in sort order, each object once, cut off only where the limits run out; as many pages as results always suffice. |
| `QueryPaging.BadPages` | packages/rooms/src/query/query-executor.ts:117-146 | Limits out of range and cursors of another room or order are refused, and the cursor of an object not among the results gives an empty last page. |
| `QueryPaging.DefaultPage` | packages/rooms/src/query/query-executor.ts:117-129 | A request without a page is the first page with the default limit clamped to the ceiling, and an empty page under a ceiling of zero. |
| `QueryPaging.ProjectionOrderIsInvisible` | packages/rooms/src/query/query-executor.ts:188-191 | Snapshots that differ only in the order of objects give the same ordered results. |
| `QueryPaging.CountsAgreeWithLists` | packages/rooms/src/query/query-executor.ts:225-230 | Where counts are allowed the count query reports the length of the full listing for the same filter. |
| `QueryPaging.MissingContentIsUnreachable` | packages/rooms/src/query/query-redaction.ts:109-142 | Content that is gone is in no detail view and found by no search, under any policy. |
| `QueryPaging.RedactionIsPermanent` | packages/rooms/src/objects/object-events.ts:148-183 | Once a call of a run nulled an object's content it stays null and redacted after any later calls, no detail query returns content for it and the results of no search query contain it. |
| `QueryPaging.ModesTighten` | packages/rooms/src/query/query-policy.ts:103-273 | From standard over private, ghost and bunker to emergency each mode allows, for every query, no flag and no longer page than the one before; an unknown mode allows nothing. |
| `QueryPaging.ContentOnlyWhereAllowed` | packages/rooms/src/query/query-policy.ts:103-273 | A detail query returns content only if it was asked for, the mode is neither bunker, emergency nor unknown, and the object still has content; this relies on the snapshot being well formed. |
| `RoomLog.ValidateEvents` | packages/rooms/src/room-reducer.ts:180-211 | The validation phase accepts exactly valid events of the room with distinct ids numbered 1, 2, 3, ..., and each error names a fault of the list. |
| `RoomLog.ReplayRoomOperationEvents` | packages/rooms/src/room-reducer.ts:172-231 | Two-phase replay accepts exactly the lists that validate and fold, and returns the fold with count, first and last number. |
| `RoomLog.OperationLog.constructor` | packages/rooms/src/room-log.ts:95-103 | A new log is empty. |
| `RoomLog.OperationLog.Append` | packages/rooms/src/room-log.ts:105-180 | An append, memory or null, is the transition `AppendTo`; a refused one leaves the log, and the id set always matches the events. |
| `RoomLog.OperationLog.ReadAll` | packages/rooms/src/room-log.ts:128-132 | Reading needs its own decision and returns all events; the null log has none. |
| `RoomLog.OperationLog.Clear` | packages/rooms/src/room-log.ts:134-140 | Clearing needs its own decision, empties events and ids, and reports how many went. |
| `RoomLog.OperationLog.Status` | packages/rooms/src/room-log.ts:142-200 | The status reports count, last number and whether replay is possible. |
| `RoomLogRuns.LogAgreesWithReplay` | packages/rooms/src/room-log.ts:105-126 | A fresh memory log accepts a list event by event exactly when the validation phase of replay accepts it as a whole, and then holds that list. |
| `RoomLogRuns.ReduceAdvances` | packages/rooms/src/room-reducer.ts:54-155 | What one accepted event does to the room: the lifecycle, kind, title and redaction mark it leaves for every payload, members and objects added, removed or kept as the event says and without duplicate members, a tombstone that empties both lists but keeps the title, and the time of the last update. |
| `RoomLogRuns.ReducedIff` | packages/rooms/src/room-lifecycle.ts:28-88 | Exactly which events a room takes in each lifecycle. |
| `RoomLogRuns.ValidityIs` | packages/rooms/src/room-event-v1.ts:158-297 | Which events are valid, payload by payload. |
| `RoomLogRuns.DeletionIsLast` | packages/rooms/src/room-reducer.ts:97-108 | A deletion is the last event of any list that folds and leaves an empty tombstone. |
| `RoomLogRuns.RemovalDistributes` | packages/rooms/src/room-reducer.ts:124-129 | Removing a member works member by member, so those who stay keep their order. |
| `RoomLogRuns.LifecycleIsOneWay` | packages/rooms/src/room-lifecycle.ts:28-88 | Along any successful replay the lifecycle only moves forward and its rank never decreases. |
| `RoomLogRuns.TombstoneIsAbsorbing` | packages/rooms/src/room-lifecycle.ts:83-84 | A tombstoned room accepts nothing more and lists no members and objects. |
| `RoomLogRuns.CreatedAtMostOnce` | packages/rooms/src/room-lifecycle.ts:40-45 | A successful replay creates the room at most once, and only from a draft. |
| `RoomLogRuns.TitlesStayRedacted` | packages/rooms/src/room-reducer.ts:76-97 | Under title redaction no event ever changes the title; members stay unique and the room policy fixed. |
| `Refusals.ObjectRefusal` | packages/rooms/src/objects/object-pipeline.ts:86-176 | Whatever error an object call fails with, its reason holds of the call and the projection; no other error occurs. |
| `Refusals.MembershipRefusal` | packages/rooms/src/membership/membership-pipeline.ts:106-231 | The same for a membership call: for example the last owner is named only where no other active owner remains. |
| `Refusals.FenceRefusal` | packages/rooms/src/authorization/authorization-revalidation.ts:44-148 | Each of the eighteen errors of the fence names something that is not as it was prepared. |
| `Refusals.PreparationRefusal` | packages/rooms/src/authorization/prepared-authorization.ts:60-127 | Preparation fails for the capability if the member is active, and for the member otherwise. |
| `Refusals.RevocationRefusal` | packages/rooms/src/authorization/revocation-pipeline.ts:59-120 | An escalation is named only for a reactivation or a role that is no subset; every other refusal names what is missing or comes from the fence or the membership call. |
| `Refusals.GovernanceRefusal` | packages/rooms/src/policy-composition/governance-pipeline.ts:129-182 | Whatever error a governance call fails with, its reason holds; a change is refused only as looser or as changing nothing. |
| `Refusals.QueryRefusal` | packages/rooms/src/query/query-executor.ts:117-262 | Whatever error a query fails with, its reason holds of the request, the decision, the policy or the snapshot. |
| `Refusals.ReductionRefusal` | packages/rooms/src/room-reducer.ts:54-68 | A base room event is refused for the room if it is of another, and for the lifecycle otherwise. |
| `Refusals.OperationLogRefusal` | packages/rooms/src/room-log.ts:105-126 | Each error of the operation log names what is wrong with decision, event, room, id or number. |

## Left out

- Parsing and validation of raw commands, requests and events (key checks, id and tag syntax, length limits other than
  plain text): commands are modelled validated. Of event and cursor validation only the checks on values are modelled.
- The policy matrix tables and the storage, network, metadata, notification, link-preview and asset resolvers: finite
  tables per mode; the matrix is a parameter.
- Error messages, error subclasses beyond the distinctions named in the error types, reason strings, audit events,
  operation names and `changedFieldCode`: no state depends on them.
- The metadata-only object summary returned by the object pipeline, revocation reports and conflict reports: derived
  from state and easy.
- Privacy.DecisionRegistry.Issue: the id string of a decision, made from its logical number, is not modelled.
- EventLogs.EventLog: the memory and null logs of objects and of membership, four classes in the source, are one class
  with a retention field; membership logs have no clear operation, which no membership run uses. The same holds for
  `Governance.GovernanceLog` and `RoomLog.OperationLog`.
- RoomLogRuns.ReduceAdvances: member roles and object sensitivities are carried as opaque values, and the storage-class
  fields of summaries are not modelled.
- QueryOrder.SortedInOrder: the algorithm of the runtime's array sort is not modelled, only its result, which is proved
  to be the only possible one for a strict order; strings are compared by character, which for characters outside the
  basic plane can differ from comparison by UTF-16 unit.
- Governance.BuildCandidateRoomPolicy: the switches of a document are one set of allowed features instead of nested
  records, and its revision is not cut off at the largest safe integer, which a run of at most 21 updates cannot pass
  unless it starts there.
- PolicyComposition.ComposeEffectiveRoomPolicy: reason codes and the list of conflicts returned beside the effects are
  not modelled.
- Whether a log's retention suits the resolved policy, and whether a query policy was resolved for the mode of its
  snapshot: the pipelines do not compare them, so nothing is claimed.
- The older projection, event and factory code (`room-projection.ts`, `room-events.ts`, `room-factory.ts`), membership
  queries, and every other package.
