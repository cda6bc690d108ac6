/** The sandboxed tool registry (src/simulacrum/interception/fake_tools.py). */
module FakeTools {
  import opened Common
  import opened RiskTiers

  type ToolFn = Params -> Params

  /** One run of a tool body, in the session on whose behalf it runs. */
  datatype Execution = Execution(sessionId: string, toolName: string, params: Params)

  class FakeToolRegistry {
    const tierRegistry: ToolRegistry
    var impls: map<string, ToolFn>
    /** History of the tool bodies run so far, oldest first. */
    ghost var executed: seq<Execution>

    /** Every tool with a tier has an implementation and the other way round. */
    ghost predicate Complete()
      reads this, tierRegistry
    {
      impls.Keys == tierRegistry.tools.Keys
    }

    constructor (tierRegistry: ToolRegistry)
      ensures this.tierRegistry == tierRegistry && impls == map[] && executed == []
      ensures tierRegistry.tools == map[] ==> Complete()
    {
      this.tierRegistry, impls, executed := tierRegistry, map[], [];
    }

    /** Registering only here keeps the two registries in step. */
    method Register(toolName: string, tier: RiskTier, fn: ToolFn) returns (ok: bool)
      modifies this`impls, tierRegistry
      ensures ok <==> toolName !in old(tierRegistry.tools)
      ensures tierRegistry.tools == if ok then old(tierRegistry.tools)[toolName := tier] else old(tierRegistry.tools)
      ensures impls == if ok then old(impls)[toolName := fn] else old(impls)
      ensures old(Complete()) ==> Complete()
    {
      ok := tierRegistry.Register(toolName, tier);
      if ok {
        impls := impls[toolName := fn];
      }
    }

    /** None where the source raises UnregisteredToolError: no tier, or a tier without implementation. */
    method Call(sessionId: string, toolName: string, params: Params) returns (result: Option<Params>)
      modifies this`executed
      ensures result.Some? <==> toolName in tierRegistry.tools && toolName in impls
      ensures result.Some? ==> result.value == impls[toolName](params)
      ensures executed == old(executed) + if result.Some? then [Execution(sessionId, toolName, params)] else []
    {
      var tier := tierRegistry.Get(toolName);
      if tier.None? || toolName !in impls {
        return None;
      }
      executed := executed + [Execution(sessionId, toolName, params)];
      return Some(impls[toolName](params));
    }
  }

  /** The table that `build_default_registry` registers. */
  function DefaultTiers(): map<string, RiskTier> {
    map[
      "read_inbox" := ReadOnly, "reply_to_email" := IrreversibleLowValue,
      "search_flights" := ReadOnly, "book_flight" := IrreversibleLowValue,
      "get_calendar" := ReadOnly, "add_calendar_event" := ReversibleWrite,
      "list_files" := ReadOnly, "share_file" := ReversibleWrite,
      "search_contacts" := ReadOnly, "update_contact" := ReversibleWrite,
      "send_payment" := IrreversibleHighValue, "set_forwarding_rule" := IrreversibleLowValue,
      "delete_data" := IrreversibleHighValue, "modify_permissions" := IrreversibleHighValue
    ]
  }

  /** The default tools by tier; there are no others. */
  lemma DefaultTiersByTier(tool: string, tier: RiskTier)
    ensures tool in DefaultTiers() && DefaultTiers()[tool] == tier <==> HasDefaultTier(tool, tier)
  {
  }

  predicate HasDefaultTier(tool: string, tier: RiskTier) {
    match tier
    case ReadOnly => tool in {"read_inbox", "search_flights", "get_calendar", "list_files", "search_contacts"}
    case ReversibleWrite => tool in {"add_calendar_event", "share_file", "update_contact"}
    case IrreversibleLowValue => tool in {"reply_to_email", "book_flight", "set_forwarding_rule"}
    case IrreversibleHighValue => tool in {"send_payment", "delete_data", "modify_permissions"}
  }
}
