/** The session store (src/simulacrum/session/store.py): a session's recorded call attempts. */
module SessionStore {
  import opened Common

  datatype ToolCall = ToolCall(toolName: string, params: Params, turnIndex: int)

  datatype CallOutcome = Allowed | Blocked | ToolError | PendingApproval

  /** Which detectors flagged a call. */
  datatype DetectorFlags = DetectorFlags(
    schema: bool, divergence: bool, escalation: bool,
    loopRate: bool, exfiltration: bool, contentPattern: bool)

  /** The part of the plain-data `scoring_detail` dict that other components read back. */
  datatype ScoringDetail = ScoringDetail(
    flags: DetectorFlags, flaggedDetectorCount: nat, approvalRequestId: Option<string>)

  datatype CallAttempt = CallAttempt(call: ToolCall, outcome: CallOutcome, scoringDetail: Option<ScoringDetail>)

  type Sessions = map<string, seq<CallAttempt>>

  function AttemptsOf(sessions: Sessions, sessionId: string): seq<CallAttempt> {
    if sessionId in sessions then sessions[sessionId] else []
  }

  function Append(sessions: Sessions, sessionId: string, attempt: CallAttempt): Sessions {
    sessions[sessionId := AttemptsOf(sessions, sessionId) + [attempt]]
  }

  function CallsOf(attempts: seq<CallAttempt>): (calls: seq<ToolCall>)
    ensures |calls| == |attempts| && forall i :: 0 <= i < |attempts| ==> calls[i] == attempts[i].call
  {
    Map(attempts, (a: CallAttempt) => a.call)
  }

  function Footprint(attempts: seq<CallAttempt>): set<string> {
    set a | a in attempts :: a.call.toolName
  }

  class InMemorySessionStore {
    var sessions: Sessions

    constructor ()
      ensures sessions == map[]
    {
      sessions := map[];
    }

    method AppendAttempt(sessionId: string, call: ToolCall, outcome: CallOutcome, detail: Option<ScoringDetail>)
      modifies this
      ensures sessions == Append(old(sessions), sessionId, CallAttempt(call, outcome, detail))
    {
      var attempts := if sessionId in sessions then sessions[sessionId] else [];
      sessions := sessions[sessionId := attempts + [CallAttempt(call, outcome, detail)]];
    }

    method AppendCall(sessionId: string, call: ToolCall)
      modifies this
      ensures sessions == Append(old(sessions), sessionId, CallAttempt(call, Allowed, None))
    {
      AppendAttempt(sessionId, call, Allowed, None);
    }

    method GetAttempts(sessionId: string) returns (attempts: seq<CallAttempt>)
      ensures attempts == AttemptsOf(sessions, sessionId)
    {
      attempts := if sessionId in sessions then sessions[sessionId] else [];
    }

    method GetCalls(sessionId: string) returns (calls: seq<ToolCall>)
      ensures calls == CallsOf(AttemptsOf(sessions, sessionId))
    {
      var attempts := GetAttempts(sessionId);
      calls := CallsOf(attempts);
    }

    method GetToolFootprint(sessionId: string) returns (tools: set<string>)
      ensures tools == Footprint(AttemptsOf(sessions, sessionId))
    {
      var attempts := GetAttempts(sessionId);
      tools := Footprint(attempts);
    }
  }
}
