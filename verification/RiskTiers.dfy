/** Tool risk classification (src/simulacrum/risk_tiers/tiers.py) and the response to a score. */
module RiskTiers {
  import opened Common

  datatype RiskTier = ReadOnly | ReversibleWrite | IrreversibleLowValue | IrreversibleHighValue

  datatype FailPolicy = FailOpen | FailClosed

  predicate Irreversible(tier: RiskTier) {
    tier.IrreversibleLowValue? || tier.IrreversibleHighValue?
  }

  function TierFailPolicy(tier: RiskTier): FailPolicy {
    match tier
    case ReadOnly => FailOpen
    case ReversibleWrite => FailOpen
    case IrreversibleLowValue => FailClosed
    case IrreversibleHighValue => FailClosed
  }

  class ToolRegistry {
    var tools: map<string, RiskTier>

    constructor ()
      ensures tools == map[]
    {
      tools := map[];
    }

    /** `ok` is false where the source raises DuplicateRegistrationError. */
    method Register(toolName: string, tier: RiskTier) returns (ok: bool)
      modifies this
      ensures ok <==> toolName !in old(tools)
      ensures tools == if ok then old(tools)[toolName := tier] else old(tools)
    {
      if toolName in tools {
        return false;
      }
      tools := tools[toolName := tier];
      return true;
    }

    /** None is the source's UnregisteredToolError. */
    method Get(toolName: string) returns (tier: Option<RiskTier>)
      ensures tier == if toolName in tools then Some(tools[toolName]) else None
    {
      tier := if toolName in tools then Some(tools[toolName]) else None;
    }
  }

  /** `_fail_policy_for` of the interceptor: an unregistered tool fails closed. */
  function FailPolicyFor(tiers: map<string, RiskTier>, toolName: string): FailPolicy {
    if toolName in tiers then TierFailPolicy(tiers[toolName]) else FailClosed
  }

  /** With the guardrail unavailable, exactly the registered reversible tools still run. */
  lemma FailsOpenIffReversible(tiers: map<string, RiskTier>, toolName: string)
    ensures FailPolicyFor(tiers, toolName).FailOpen? <==> toolName in tiers && !Irreversible(tiers[toolName])
  {
  }
}

/** Tiered response decision (src/simulacrum/tier_engine/response_tier.py). */
module ResponseTiers {
  import opened RiskTiers

  datatype ResponseTier = Allow | Flag | RequireApproval | Block

  function DecideResponseTier(flaggedDetectorCount: int, toolTier: RiskTier): ResponseTier {
    if flaggedDetectorCount == 0 then Allow
    else if toolTier.IrreversibleHighValue? then Block
    else if toolTier.IrreversibleLowValue? then RequireApproval
    else if flaggedDetectorCount >= 2 then RequireApproval
    else Flag
  }

  function Severity(t: ResponseTier): nat {
    match t case Allow => 0 case Flag => 1 case RequireApproval => 2 case Block => 3
  }

  function TierRank(t: RiskTier): nat {
    match t
    case ReadOnly => 0 case ReversibleWrite => 0
    case IrreversibleLowValue => 1 case IrreversibleHighValue => 2
  }

  /** `InterceptionResult.allowed` with shadow mode off. */
  predicate Proceeds(t: ResponseTier) {
    t.Allow? || t.Flag?
  }

  /** More flags, or a riskier tool, never give a milder response. */
  lemma MoreEvidenceNeverMilder(c: nat, c': nat, t: RiskTier, t': RiskTier)
    requires c <= c' && TierRank(t) <= TierRank(t')
    ensures Severity(DecideResponseTier(c, t)) <= Severity(DecideResponseTier(c', t'))
  {
  }
}
