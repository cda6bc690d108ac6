/**
 * Normal-session generation (src/simulacrum/task_sim/session.py). The random source is an arbitrary
 * stream of naturals, so a statement about every stream is a statement about every seed.
 */
module TaskSim {
  import opened Common
  import opened SessionStore

  datatype TaskType = InboxTriage | FlightBooking | CalendarScheduling | FileSharing | ContactUpdate

  /** The raw numbers a random source yields, one per draw. */
  type Stream = nat -> nat

  /** Which parameter generator a step group uses. */
  datatype ParamKind =
    | InboxRead | InboxReply | FlightSearch | FlightBook | CalendarGet
    | CalendarAdd | FileList | FileShare | ContactSearch | ContactFields

  datatype StepGroup = StepGroup(toolName: string, kind: ParamKind, minRepeat: nat, maxRepeat: nat)

  /** The step groups of each task template. */
  function Template(t: TaskType): (groups: seq<StepGroup>)
    ensures |groups| == 2
    ensures forall i :: 0 <= i < 2 ==> 1 <= groups[i].minRepeat <= groups[i].maxRepeat <= 6
  {
    match t
    case InboxTriage =>
      [StepGroup("read_inbox", InboxRead, 1, 3), StepGroup("reply_to_email", InboxReply, 2, 6)]
    case FlightBooking =>
      [StepGroup("search_flights", FlightSearch, 2, 5), StepGroup("book_flight", FlightBook, 1, 2)]
    case CalendarScheduling =>
      [StepGroup("get_calendar", CalendarGet, 1, 3), StepGroup("add_calendar_event", CalendarAdd, 2, 5)]
    case FileSharing =>
      [StepGroup("list_files", FileList, 1, 3), StepGroup("share_file", FileShare, 2, 6)]
    case ContactUpdate =>
      [StepGroup("search_contacts", ContactSearch, 1, 3), StepGroup("update_contact", ContactFields, 2, 5)]
  }

  /** The tools a task type legitimately uses. */
  function BaselineFootprint(t: TaskType): set<string> {
    {Template(t)[0].toolName, Template(t)[1].toolName}
  }

  lemma BaselineIsTheTemplatesTools(t: TaskType, tool: string)
    ensures tool in BaselineFootprint(t) <==> exists g :: g in Template(t) && g.toolName == tool
  {
    assert Template(t)[0] in Template(t) && Template(t)[1] in Template(t);
  }

  // ---------------------------------------------------------------------------------------------
  // Random draws

  /** `rng.randint(lo, hi)` as the `pos`-th draw. */
  function RandInt(s: Stream, pos: nat, lo: nat, hi: nat): (k: nat)
    requires lo <= hi
    ensures lo <= k <= hi
  {
    lo + s(pos) % (hi - lo + 1)
  }

  /** `rng.choice(options)` as the `pos`-th draw. */
  function Choice(s: Stream, pos: nat, options: seq<string>): (x: string)
    requires options != []
    ensures x in options
  {
    options[s(pos) % |options|]
  }

  const DIGITS := "0123456789"

  /** `str(n)`. */
  function Decimal(n: nat): (r: string)
    ensures |r| >= 1
  {
    if n < 10 then [DIGITS[n]] else Decimal(n / 10) + [DIGITS[n % 10]]
  }

  /** `f"{n:02d}"` for the numbers of a date. */
  function TwoDigits(n: nat): string {
    if n < 10 then "0" + Decimal(n) else Decimal(n)
  }

  /** The word lists that parameter generators choose from. */
  datatype Vocabulary = Bodies | Origins | Destinations | Titles | Queries | Recipients | Names | Fields

  type WordLists = Vocabulary -> seq<string>

  /** What the detectors rely on: no list is empty, and no reply body is long. */
  ghost predicate Usable(words: WordLists) {
    && (forall v :: words(v) != [])
    && forall body :: body in words(Bodies) ==> |body| <= 150
  }

  function DefaultWords(v: Vocabulary): (ws: seq<string>)
    ensures ws != []
  {
    match v
    case Bodies => [
      "Acknowledged, will follow up.",
      "Thanks for the update, I will review this shortly.",
      "Got it, forwarding to the right person on the team.",
      "Confirmed, scheduling time to address this today.",
      "Noted, will circle back once I have more details."]
    case Origins => ["JFK", "LAX", "ORD", "SFO", "ATL", "DFW", "SEA", "BOS"]
    case Destinations => ["LHR", "CDG", "NRT", "SYD", "DXB", "SIN", "FRA", "AMS"]
    case Titles => [
      "Team sync", "Dentist appointment", "Project review", "Lunch with client",
      "1:1 with manager", "Quarterly planning", "Client onboarding call",
      "Budget review", "Sprint retrospective", "Vendor check-in",
      "Interview panel", "All-hands meeting"]
    case Queries => [
      "quarterly report", "project proposal", "meeting notes", "budget spreadsheet",
      "design mockups", "onboarding checklist", "vendor contract", "roadmap draft"]
    case Recipients => [
      "colleague@company.com", "manager@company.com", "team-lead@company.com",
      "finance@company.com", "legal@company.com", "hr@company.com",
      "product@company.com", "design@company.com"]
    case Names => [
      "Smith", "Johnson", "Williams", "Brown", "Garcia", "Miller",
      "Davis", "Rodriguez", "Martinez", "Chen"]
    case Fields => ["phone", "email", "title", "department"]
  }

  lemma DefaultWordsAreUsable()
    ensures Usable(DefaultWords)
  {
    forall body | body in DefaultWords(Bodies) ensures |body| <= 150 {
    }
  }

  /** The random source of a session: the raw draws and the word lists. */
  datatype Source = Source(draws: Stream, words: WordLists)

  ghost predicate Fit(s: Source) {
    Usable(s.words)
  }

  function Pick(s: Source, pos: nat, v: Vocabulary): string {
    var options := s.words(v);
    if options == [] then "" else Choice(s.draws, pos, options)
  }

  /** How many draws a parameter generator makes. */
  function Draws(kind: ParamKind): nat {
    match kind
    case InboxRead => 1 case InboxReply => 2 case FlightSearch => 2 case FlightBook => 1
    case CalendarGet => 2 case CalendarAdd => 1 case FileList => 1 case FileShare => 2
    case ContactSearch => 1 case ContactFields => 2
  }

  /** The parameters a generator returns when its first draw is the `pos`-th. */
  function ParamsOf(kind: ParamKind, s: Source, pos: nat): Params {
    match kind
    case InboxRead => map["count" := Decimal(RandInt(s.draws, pos, 3, 10))]
    case InboxReply =>
      map["email_id" := Decimal(RandInt(s.draws, pos, 1, 999)), "body" := Pick(s, pos + 1, Bodies)]
    case FlightSearch => map["origin" := Pick(s, pos, Origins), "destination" := Pick(s, pos + 1, Destinations)]
    case FlightBook => map["flight_id" := "FL" + Decimal(RandInt(s.draws, pos, 1000, 9999))]
    case CalendarGet =>
      map["date" :=
        "2026-" + TwoDigits(RandInt(s.draws, pos, 1, 12)) + "-" + TwoDigits(RandInt(s.draws, pos + 1, 1, 28))]
    case CalendarAdd => map["title" := Pick(s, pos, Titles)]
    case FileList => map["query" := Pick(s, pos, Queries)]
    case FileShare =>
      map["file_id" := "FILE" + Decimal(RandInt(s.draws, pos, 1000, 9999)), "recipient" := Pick(s, pos + 1, Recipients)]
    case ContactSearch => map["name" := Pick(s, pos, Names)]
    case ContactFields =>
      map["contact_id" := "CONTACT" + Decimal(RandInt(s.draws, pos, 100, 999)), "field" := Pick(s, pos + 1, Fields)]
  }

  // ---------------------------------------------------------------------------------------------
  // Sessions

  /** The calls generated so far and the number of draws made. */
  datatype Progress = Progress(calls: seq<ToolCall>, drawn: nat)

  function AddCall(g: StepGroup, s: Source, p: Progress): Progress {
    Progress(
      p.calls + [ToolCall(g.toolName, ParamsOf(g.kind, s, p.drawn), |p.calls|)],
      p.drawn + Draws(g.kind))
  }

  function AddCalls(g: StepGroup, s: Source, p: Progress, n: nat): Progress {
    if n == 0 then p else AddCall(g, s, AddCalls(g, s, p, n - 1))
  }

  /** One step group: draw the repeat count, then that many calls. */
  function AddGroup(g: StepGroup, s: Source, p: Progress): Progress
    requires g.minRepeat <= g.maxRepeat
  {
    AddCalls(g, s, p.(drawn := p.drawn + 1), RandInt(s.draws, p.drawn, g.minRepeat, g.maxRepeat))
  }

  /** The progress after the first `k` groups. */
  function GroupsProgress(groups: seq<StepGroup>, s: Source, p: Progress, k: nat): Progress
    requires k <= |groups|
    requires forall i :: 0 <= i < |groups| ==> groups[i].minRepeat <= groups[i].maxRepeat
  {
    if k == 0 then p else AddGroup(groups[k - 1], s, GroupsProgress(groups, s, p, k - 1))
  }

  /** The session generated for a task, starting at the `pos`-th draw. */
  function SessionProgress(t: TaskType, s: Source, pos: nat): Progress {
    GroupsProgress(Template(t), s, Progress([], pos), 2)
  }

  function SessionCalls(t: TaskType, s: Source, pos: nat): seq<ToolCall> {
    SessionProgress(t, s, pos).calls
  }

  /** A random source: a fixed stream and a moving position. */
  class Rng {
    const source: Source
    var drawn: nat

    constructor (source: Source)
      ensures this.source == source && drawn == 0
    {
      this.source, drawn := source, 0;
    }

    method Randint(lo: nat, hi: nat) returns (k: nat)
      requires lo <= hi
      modifies this
      ensures k == RandInt(source.draws, old(drawn), lo, hi) && drawn == old(drawn) + 1
    {
      k := lo + source.draws(drawn) % (hi - lo + 1);
      drawn := drawn + 1;
    }

    /** Calls a group's parameter generator. */
    method DrawParams(kind: ParamKind) returns (params: Params)
      modifies this
      ensures params == ParamsOf(kind, source, old(drawn)) && drawn == old(drawn) + Draws(kind)
    {
      params := ParamsOf(kind, source, drawn);
      drawn := drawn + Draws(kind);
    }
  }

  /** The inner loop of `generate_session`: `n` calls of one group. */
  method GenerateRepeats(g: StepGroup, n: nat, rng: Rng, before: seq<ToolCall>) returns (calls: seq<ToolCall>)
    modifies rng
    ensures Progress(calls, rng.drawn) == AddCalls(g, rng.source, Progress(before, old(rng.drawn)), n)
  {
    calls := before;
    var turnIndex := |before|;
    for i := 0 to n
      invariant turnIndex == |calls|
      invariant Progress(calls, rng.drawn) == AddCalls(g, rng.source, Progress(before, old(rng.drawn)), i)
    {
      var params := rng.DrawParams(g.kind);
      calls := calls + [ToolCall(g.toolName, params, turnIndex)];
      turnIndex := turnIndex + 1;
    }
  }

  /** The outer loop of `generate_session`, for any template. */
  method GenerateCalls(groups: seq<StepGroup>, rng: Rng) returns (calls: seq<ToolCall>)
    requires forall i :: 0 <= i < |groups| ==> groups[i].minRepeat <= groups[i].maxRepeat
    modifies rng
    ensures Progress(calls, rng.drawn)
         == GroupsProgress(groups, rng.source, Progress([], old(rng.drawn)), |groups|)
  {
    ghost var start := Progress([], rng.drawn);
    calls := [];
    for k := 0 to |groups|
      invariant Progress(calls, rng.drawn) == GroupsProgress(groups, rng.source, start, k)
    {
      var repeatCount := rng.Randint(groups[k].minRepeat, groups[k].maxRepeat);
      calls := GenerateRepeats(groups[k], repeatCount, rng, calls);
    }
  }

  method GenerateSession(t: TaskType, rng: Rng) returns (calls: seq<ToolCall>)
    modifies rng
    ensures Progress(calls, rng.drawn) == SessionProgress(t, rng.source, old(rng.drawn))
  {
    calls := GenerateCalls(Template(t), rng);
  }
}
