/** Privacy modes, the policy-matrix effect, and the registry of issued policy decisions. */
module Privacy {
  datatype PrivacyMode =
    | Standard | Private | Ghost | Bunker | OfflineCapsule | Emergency | SovereignRoom
    | UnknownMode  // commands carry an unchecked mode string

  /** Only `memory_only` lets a room operation proceed; every other effect forbids it. */
  datatype MatrixEffect = MemoryOnly | OtherEffect

  /** The policy-matrix lookup, by operation and mode. */
  type Matrix = (string, PrivacyMode) -> MatrixEffect

  /** The side effects a decision can be scoped to, as far as rooms use them. */
  datatype Scope =
    | ObjectCreate | ObjectUpdate | ObjectRedact | ObjectArchive | ObjectTombstone
    | ObjectLogAppend | ObjectLogRead | ObjectLogClear
    | QuerySummary | QueryList | QueryDetail | QuerySearch | QueryCount
    | MembershipBootstrap | MembershipAdd | MembershipChangeRole
    | MembershipSuspend | MembershipReactivate | MembershipRemove
    | MembershipLogAppend | MembershipLogRead
    | GovernanceUpdate | GovernanceLogAppend
    | OperationLogAppend | OperationLogRead | OperationLogClear
    | OtherScope(name: string)

  datatype Capability = Persistence | OtherCapability(name: string)

  /** What a barrier sees of a presented decision object. */
  datatype Decision = Decision(authentic: bool, capability: Capability, sideEffect: Scope, allowed: bool)

  predicate Authorizes(decision: Decision, scope: Scope) {
    decision.authentic && decision.allowed && decision.capability == Persistence && decision.sideEffect == scope
  }

  /** A decision object. Authenticity is a matter of object identity, not of its fields. */
  class PolicyDecision {
    const capability: Capability
    const sideEffect: Scope
    const allowed: bool
    const mode: PrivacyMode
    const issuedAtLogical: nat

    constructor (capability: Capability, sideEffect: Scope, allowed: bool, mode: PrivacyMode, issuedAtLogical: nat)
      ensures this.capability == capability && this.sideEffect == sideEffect
      ensures this.allowed == allowed && this.mode == mode && this.issuedAtLogical == issuedAtLogical
    {
      this.capability, this.sideEffect := capability, sideEffect;
      this.allowed, this.mode, this.issuedAtLogical := allowed, mode, issuedAtLogical;
    }
  }

  class DecisionRegistry {
    var issued: set<PolicyDecision>
    var decisionSeq: nat

    /** Every issued decision has its own logical number. */
    ghost predicate Valid()
      reads this
    {
      && (forall d <- issued :: 1 <= d.issuedAtLogical <= decisionSeq)
      && (forall d <- issued, e <- issued :: d.issuedAtLogical == e.issuedAtLogical ==> d == e)
    }

    constructor ()
      ensures Valid() && issued == {}
    {
      issued, decisionSeq := {}, 0;
    }

    /** Issuing makes exactly one object authentic: a new one. */
    method Issue(capability: Capability, allowed: bool, mode: PrivacyMode, sideEffect: Scope)
      returns (decision: PolicyDecision)
      requires Valid()
      modifies this
      ensures Valid() && fresh(decision)
      ensures issued == old(issued) + {decision}
      ensures Seen(decision) == Decision(true, capability, sideEffect, allowed)
      ensures decision.mode == mode && decision.issuedAtLogical == decisionSeq == old(decisionSeq) + 1
      ensures forall other: PolicyDecision :: other != decision && old(allocated(other)) ==>
        Seen(other) == old(Seen(other))
    {
      decisionSeq := decisionSeq + 1;
      decision := new PolicyDecision(capability, sideEffect, allowed, mode, decisionSeq);
      issued := issued + {decision};
    }

    function Seen(decision: PolicyDecision): Decision
      reads this
    {
      Decision(decision in issued, decision.capability, decision.sideEffect, decision.allowed)
    }
  }
}
