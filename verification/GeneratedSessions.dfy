/** Exactly which sessions `generate_session` makes (src/simulacrum/task_sim/session.py), over all random sources. */
module GeneratedSessions {
  import opened Common
  import opened SessionStore
  import opened TaskSim

  // ---------------------------------------------------------------------------------------------
  // Decimal numbers

  /** The number that digits stand for. */
  function NumberOf(digits: string): int {
    if digits == "" then 0
    else 10 * NumberOf(digits[..|digits| - 1]) + (digits[|digits| - 1] as int - '0' as int)
  }

  predicate AreDigits(digits: string) {
    forall i :: 0 <= i < |digits| ==> '0' <= digits[i] <= '9'
  }

  /** The decimal text of a number stands for it, and has no leading zero. */
  lemma {:induction false} DecimalIsTheNumber(n: nat)
    ensures AreDigits(Decimal(n)) && NumberOf(Decimal(n)) == n
    ensures n > 0 ==> Decimal(n)[0] != '0'
  {
    assert forall d :: 0 <= d < 10 ==> DIGITS[d] as int == '0' as int + d;
    if n >= 10 {
      DecimalIsTheNumber(n / 10);
      assert Decimal(n)[..|Decimal(n)| - 1] == Decimal(n / 10);
    } else {
      assert Decimal(n)[..0] == "";
    }
  }

  /** A month or a day has two digits. */
  lemma TwoDigitsAreTheNumber(n: nat)
    requires n < 100
    ensures |TwoDigits(n)| == 2 && AreDigits(TwoDigits(n)) && NumberOf(TwoDigits(n)) == n
  {
    DecimalIsTheNumber(n);
    var d := Decimal(n);
    if n < 10 {
      assert |d| == 1;
      assert TwoDigits(n)[..1] == "0" && "0"[..0] == "" && d[..0] == "";
    } else {
      assert |Decimal(n / 10)| == 1;
    }
  }

  // ---------------------------------------------------------------------------------------------
  // The parameters of one call

  ghost predicate IsNumber(text: string, lo: nat, hi: nat) {
    exists n :: lo <= n <= hi && text == Decimal(n)
  }

  /** The texts of a month and a day, with two digits each. */
  ghost predicate IsDate(text: string) {
    exists month, day :: 1 <= month <= 12 && 1 <= day <= 28 && text == DateText(month, day)
  }

  function DateText(month: nat, day: nat): string {
    "2026-" + TwoDigits(month) + "-" + TwoDigits(day)
  }

  ghost predicate IsId(text: string, prefix: string, lo: nat, hi: nat) {
    exists n :: lo <= n <= hi && text == prefix + Decimal(n)
  }

  /** The parameters that a generator can return. */
  ghost predicate CanDraw(kind: ParamKind, words: WordLists, params: Params) {
    match kind
    case InboxRead => params.Keys == {"count"} && IsNumber(params["count"], 3, 10)
    case InboxReply =>
      params.Keys == {"email_id", "body"} && IsNumber(params["email_id"], 1, 999) && params["body"] in words(Bodies)
    case FlightSearch =>
      && params.Keys == {"origin", "destination"}
      && params["origin"] in words(Origins) && params["destination"] in words(Destinations)
    case FlightBook => params.Keys == {"flight_id"} && IsId(params["flight_id"], "FL", 1000, 9999)
    case CalendarGet => params.Keys == {"date"} && IsDate(params["date"])
    case CalendarAdd => params.Keys == {"title"} && params["title"] in words(Titles)
    case FileList => params.Keys == {"query"} && params["query"] in words(Queries)
    case FileShare =>
      && params.Keys == {"file_id", "recipient"}
      && IsId(params["file_id"], "FILE", 1000, 9999) && params["recipient"] in words(Recipients)
    case ContactSearch => params.Keys == {"name"} && params["name"] in words(Names)
    case ContactFields =>
      && params.Keys == {"contact_id", "field"}
      && IsId(params["contact_id"], "CONTACT", 100, 999) && params["field"] in words(Fields)
  }

  ghost predicate NoListEmpty(words: WordLists) {
    forall v :: words(v) != []
  }

  lemma DrawnParamsCanBeDrawn(kind: ParamKind, s: Source, pos: nat)
    requires NoListEmpty(s.words)
    ensures CanDraw(kind, s.words, ParamsOf(kind, s, pos))
  {
    assert forall v, p :: Pick(s, p, v) in s.words(v);
    match kind
    case InboxRead => assert IsNumber(Decimal(RandInt(s.draws, pos, 3, 10)), 3, 10);
    case InboxReply => assert IsNumber(Decimal(RandInt(s.draws, pos, 1, 999)), 1, 999);
    case FlightSearch =>
    case FlightBook => assert IsId("FL" + Decimal(RandInt(s.draws, pos, 1000, 9999)), "FL", 1000, 9999);
    case CalendarGet =>
      var month, day := RandInt(s.draws, pos, 1, 12), RandInt(s.draws, pos + 1, 1, 28);
      assert IsDate(DateText(month, day));
    case CalendarAdd =>
    case FileList =>
    case FileShare => assert IsId("FILE" + Decimal(RandInt(s.draws, pos, 1000, 9999)), "FILE", 1000, 9999);
    case ContactSearch =>
    case ContactFields => assert IsId("CONTACT" + Decimal(RandInt(s.draws, pos, 100, 999)), "CONTACT", 100, 999);
  }

  /** What the generator makes of the draws `d` and, where it makes two, `e`, each within its range. */
  ghost predicate Yields(kind: ParamKind, words: WordLists, d: nat, e: nat, params: Params) {
    match kind
    case InboxRead => d <= 7 && params == map["count" := Decimal(3 + d)]
    case InboxReply =>
      && d <= 998 && e < |words(Bodies)|
      && params == map["email_id" := Decimal(1 + d), "body" := words(Bodies)[e]]
    case FlightSearch =>
      && d < |words(Origins)| && e < |words(Destinations)|
      && params == map["origin" := words(Origins)[d], "destination" := words(Destinations)[e]]
    case FlightBook => d <= 8999 && params == map["flight_id" := "FL" + Decimal(1000 + d)]
    case CalendarGet =>
      d <= 11 && e <= 27 && params == map["date" := DateText(1 + d, 1 + e)]
    case CalendarAdd => d < |words(Titles)| && params == map["title" := words(Titles)[d]]
    case FileList => d < |words(Queries)| && params == map["query" := words(Queries)[d]]
    case FileShare =>
      && d <= 8999 && e < |words(Recipients)|
      && params == map["file_id" := "FILE" + Decimal(1000 + d), "recipient" := words(Recipients)[e]]
    case ContactSearch => d < |words(Names)| && params == map["name" := words(Names)[d]]
    case ContactFields =>
      && d <= 899 && e < |words(Fields)|
      && params == map["contact_id" := "CONTACT" + Decimal(100 + d), "field" := words(Fields)[e]]
  }

  lemma SmallModulus(d: nat, n: nat)
    requires d < n
    ensures d % n == d
  {
  }

  lemma NumberDraw(s: Stream, pos: nat, lo: nat, hi: nat, d: nat)
    requires lo <= hi && d <= hi - lo && s(pos) == d
    ensures RandInt(s, pos, lo, hi) == lo + d
  {
    SmallModulus(d, hi - lo + 1);
  }

  lemma WordDraw(s: Source, pos: nat, v: Vocabulary, d: nat)
    requires d < |s.words(v)| && s.draws(pos) == d
    ensures Pick(s, pos, v) == s.words(v)[d]
  {
    SmallModulus(d, |s.words(v)|);
  }

  /** With these draws the generator returns these parameters. */
  lemma YieldsIsReturned(kind: ParamKind, s: Source, pos: nat, d: nat, e: nat, params: Params)
    requires Yields(kind, s.words, d, e, params)
    requires s.draws(pos) == d && (Draws(kind) == 2 ==> s.draws(pos + 1) == e)
    ensures ParamsOf(kind, s, pos) == params
  {
    match kind
    case InboxRead => NumberDraw(s.draws, pos, 3, 10, d);
    case InboxReply =>
      NumberDraw(s.draws, pos, 1, 999, d);
      WordDraw(s, pos + 1, Bodies, e);
    case FlightSearch =>
      WordDraw(s, pos, Origins, d);
      WordDraw(s, pos + 1, Destinations, e);
    case FlightBook => NumberDraw(s.draws, pos, 1000, 9999, d);
    case CalendarGet =>
      NumberDraw(s.draws, pos, 1, 12, d);
      NumberDraw(s.draws, pos + 1, 1, 28, e);
    case CalendarAdd => WordDraw(s, pos, Titles, d);
    case FileList => WordDraw(s, pos, Queries, d);
    case FileShare =>
      NumberDraw(s.draws, pos, 1000, 9999, d);
      WordDraw(s, pos + 1, Recipients, e);
    case ContactSearch => WordDraw(s, pos, Names, d);
    case ContactFields =>
      NumberDraw(s.draws, pos, 100, 999, d);
      WordDraw(s, pos + 1, Fields, e);
  }

  lemma IndexOfChoice(options: seq<string>, x: string) returns (d: nat)
    requires x in options
    ensures d < |options| && options[d] == x
  {
    d :| d < |options| && options[d] == x;
  }

  lemma IndexOfNumber(text: string, prefix: string, lo: nat, hi: nat) returns (d: nat)
    requires IsId(text, prefix, lo, hi)
    ensures lo + d <= hi && text == prefix + Decimal(lo + d)
  {
    var n :| lo <= n <= hi && text == prefix + Decimal(n);
    d := n - lo;
  }

  lemma OneParam(params: Params, k: string)
    requires params.Keys == {k}
    ensures params == map[k := params[k]]
  {
  }

  lemma TwoParams(params: Params, k: string, l: string)
    requires params.Keys == {k, l}
    ensures params == map[k := params[k], l := params[l]]
  {
  }

  lemma DrawForOneParam(kind: ParamKind, words: WordLists, params: Params) returns (d: nat)
    requires kind in {InboxRead, FlightBook, CalendarAdd, FileList, ContactSearch} && CanDraw(kind, words, params)
    ensures Yields(kind, words, d, 0, params)
  {
    d := 0;
    match kind
    case InboxRead =>
      var n :| 3 <= n <= 10 && params["count"] == Decimal(n);
      d := n - 3;
      OneParam(params, "count");
    case FlightBook =>
      d := IndexOfNumber(params["flight_id"], "FL", 1000, 9999);
      OneParam(params, "flight_id");
    case CalendarAdd =>
      d := IndexOfChoice(words(Titles), params["title"]);
      OneParam(params, "title");
    case FileList =>
      d := IndexOfChoice(words(Queries), params["query"]);
      OneParam(params, "query");
    case ContactSearch =>
      d := IndexOfChoice(words(Names), params["name"]);
      OneParam(params, "name");
  }

  lemma DrawsForDate(words: WordLists, params: Params) returns (d: nat, e: nat)
    requires CanDraw(CalendarGet, words, params)
    ensures Yields(CalendarGet, words, d, e, params)
  {
    d, e := IndexOfDate(params["date"]);
    OneParam(params, "date");
  }

  lemma IndexOfDate(text: string) returns (d: nat, e: nat)
    requires IsDate(text)
    ensures d <= 11 && e <= 27 && text == DateText(1 + d, 1 + e)
  {
    var month, day :| 1 <= month <= 12 && 1 <= day <= 28 && text == DateText(month, day);
    d, e := month - 1, day - 1;
    assert 1 + d == month && 1 + e == day;
  }

  lemma DrawsForFlight(words: WordLists, params: Params) returns (d: nat, e: nat)
    requires CanDraw(FlightSearch, words, params)
    ensures Yields(FlightSearch, words, d, e, params)
  {
    d := IndexOfChoice(words(Origins), params["origin"]);
    e := IndexOfChoice(words(Destinations), params["destination"]);
    TwoParams(params, "origin", "destination");
  }

  lemma DrawsForReply(words: WordLists, params: Params) returns (d: nat, e: nat)
    requires CanDraw(InboxReply, words, params)
    ensures Yields(InboxReply, words, d, e, params)
  {
    var n :| 1 <= n <= 999 && params["email_id"] == Decimal(n);
    d := n - 1;
    e := IndexOfChoice(words(Bodies), params["body"]);
    TwoParams(params, "email_id", "body");
  }

  lemma DrawsForShare(words: WordLists, params: Params) returns (d: nat, e: nat)
    requires CanDraw(FileShare, words, params)
    ensures Yields(FileShare, words, d, e, params)
  {
    d := IndexOfNumber(params["file_id"], "FILE", 1000, 9999);
    e := IndexOfChoice(words(Recipients), params["recipient"]);
    TwoParams(params, "file_id", "recipient");
  }

  lemma DrawsForContact(words: WordLists, params: Params) returns (d: nat, e: nat)
    requires CanDraw(ContactFields, words, params)
    ensures Yields(ContactFields, words, d, e, params)
  {
    d := IndexOfNumber(params["contact_id"], "CONTACT", 100, 999);
    e := IndexOfChoice(words(Fields), params["field"]);
    TwoParams(params, "contact_id", "field");
  }

  /** The draws that make a generator return given parameters. */
  lemma DrawsForParams(kind: ParamKind, words: WordLists, params: Params) returns (d: nat, e: nat)
    requires CanDraw(kind, words, params)
    ensures Yields(kind, words, d, e, params)
  {
    e := 0;
    match kind
    case InboxReply => d, e := DrawsForReply(words, params);
    case FlightSearch => d, e := DrawsForFlight(words, params);
    case CalendarGet => d, e := DrawsForDate(words, params);
    case FileShare => d, e := DrawsForShare(words, params);
    case ContactFields => d, e := DrawsForContact(words, params);
    case _ => d := DrawForOneParam(kind, words, params);
  }

  // ---------------------------------------------------------------------------------------------
  // The calls of one group

  ghost predicate IsCallOf(words: WordLists, c: ToolCall, tool: string, kind: ParamKind, j: int) {
    c.toolName == tool && c.turnIndex == j && CanDraw(kind, words, c.params)
  }

  ghost predicate AreCallsOf(words: WordLists, calls: seq<ToolCall>, tool: string, kind: ParamKind, from: int, to: int)
    requires 0 <= from <= to <= |calls|
  {
    forall j :: from <= j < to ==> IsCallOf(words, calls[j], tool, kind, j)
  }

  lemma {:induction false} AddedCallsCanBeDrawn(g: StepGroup, s: Source, p: Progress, n: nat)
    requires NoListEmpty(s.words)
    ensures var calls := AddCalls(g, s, p, n).calls;
            && |calls| == |p.calls| + n && calls[..|p.calls|] == p.calls
            && AreCallsOf(s.words, calls, g.toolName, g.kind, |p.calls|, |calls|)
  {
    if n > 0 {
      AddedCallsCanBeDrawn(g, s, p, n - 1);
      DrawnParamsCanBeDrawn(g.kind, s, AddCalls(g, s, p, n - 1).drawn);
    }
  }

  /** The stream begins with these draws. */
  ghost predicate BeginsWith(s: Stream, ds: seq<nat>) {
    forall i :: 0 <= i < |ds| ==> s(i) == ds[i]
  }

  /** If the source begins with these draws, the calls are added and the draws are used up. */
  predicate MakesIf(
    g: StepGroup, s: Source, before: seq<ToolCall>, drawn: nat, n: nat, calls: seq<ToolCall>, ds: seq<nat>)
  {
    AddCalls(g, s, Progress(before, drawn), n) == Progress(calls, |ds|)
  }

  ghost predicate Makes(
    g: StepGroup, words: WordLists, before: seq<ToolCall>, drawn: nat, n: nat, calls: seq<ToolCall>, ds: seq<nat>)
  {
    forall s: Source :: s.words == words && BeginsWith(s.draws, ds) ==> MakesIf(g, s, before, drawn, n, calls, ds)
  }

  lemma {:induction false} DrawsForCalls(
    g: StepGroup, words: WordLists, calls: seq<ToolCall>, from: nat, n: nat, ds: seq<nat>)
    returns (ds': seq<nat>)
    requires from + n <= |calls|
    requires AreCallsOf(words, calls, g.toolName, g.kind, from, from + n)
    ensures ds <= ds' && Makes(g, words, calls[..from], |ds|, n, calls[..from + n], ds')
  {
    if n == 0 {
      ds' := ds;
    } else {
      var ds1 := DrawsForCalls(g, words, calls, from, n - 1, ds);
      var last := calls[from + n - 1];
      assert IsCallOf(words, last, g.toolName, g.kind, from + n - 1);
      var d, e := DrawsForParams(g.kind, words, last.params);
      ds' := ds1 + if Draws(g.kind) == 2 then [d, e] else [d];
      forall s: Source | s.words == words && BeginsWith(s.draws, ds')
        ensures MakesIf(g, s, calls[..from], |ds|, n, calls[..from + n], ds')
      {
        BeginsWithPrefix(s.draws, ds1, ds');
        assert MakesIf(g, s, calls[..from], |ds|, n - 1, calls[..from + n - 1], ds1);
        OneMoreCallIsMade(g, s, calls, from, n, |ds|, ds1, ds', d, e);
      }
    }
  }

  lemma BeginsWithPrefix(s: Stream, ds: seq<nat>, ds': seq<nat>)
    requires ds <= ds' && BeginsWith(s, ds')
    ensures BeginsWith(s, ds)
  {
    assert forall i :: 0 <= i < |ds| ==> ds'[i] == ds[i];
  }

  lemma OneMoreCallIsMade(
    g: StepGroup, s: Source, calls: seq<ToolCall>, from: nat, n: nat, drawn: nat,
    ds: seq<nat>, ds': seq<nat>, d: nat, e: nat)
    requires 0 < n && from + n <= |calls|
    requires MakesIf(g, s, calls[..from], drawn, n - 1, calls[..from + n - 1], ds)
    requires BeginsWith(s.draws, ds') && ds' == ds + if Draws(g.kind) == 2 then [d, e] else [d]
    requires IsCallOf(s.words, calls[from + n - 1], g.toolName, g.kind, from + n - 1)
    requires Yields(g.kind, s.words, d, e, calls[from + n - 1].params)
    ensures MakesIf(g, s, calls[..from], drawn, n, calls[..from + n], ds')
  {
    var last := calls[from + n - 1];
    assert ds'[|ds|] == d;
    assert Draws(g.kind) == 2 ==> ds'[|ds| + 1] == e;
    YieldsIsReturned(g.kind, s, |ds|, d, e, last.params);
    assert calls[..from + n] == calls[..from + n - 1] + [last];
    assert AddCall(g, s, Progress(calls[..from + n - 1], |ds|)) == Progress(calls[..from + n], |ds'|);
  }

  // ---------------------------------------------------------------------------------------------
  // Whole sessions

  /** First calls of one tool, then calls of another, in numbers within the given bounds. */
  ghost predicate HasTwoParts(
    words: WordLists, calls: seq<ToolCall>,
    tool: string, kind: ParamKind, lo: nat, hi: nat, tool': string, kind': ParamKind, lo': nat, hi': nat)
  {
    exists n ::
      && lo <= n <= hi && lo' <= |calls| - n <= hi'
      && AreCallsOf(words, calls, tool, kind, 0, n) && AreCallsOf(words, calls, tool', kind', n, |calls|)
  }

  ghost predicate Fits(words: WordLists, calls: seq<ToolCall>, g: StepGroup, h: StepGroup) {
    HasTwoParts(
      words, calls, g.toolName, g.kind, g.minRepeat, g.maxRepeat, h.toolName, h.kind, h.minRepeat, h.maxRepeat)
  }

  lemma TwoGroupsInSteps(g: StepGroup, h: StepGroup, s: Source, start: Progress)
    requires g.minRepeat <= g.maxRepeat && h.minRepeat <= h.maxRepeat
    ensures GroupsProgress([g, h], s, start, 2) == AddGroup(h, s, AddGroup(g, s, start))
  {
    assert GroupsProgress([g, h], s, start, 0) == start;
    assert GroupsProgress([g, h], s, start, 1) == AddGroup(g, s, start);
  }

  lemma GeneratedHasTwoParts(g: StepGroup, h: StepGroup, s: Source, pos: nat)
    requires NoListEmpty(s.words) && g.minRepeat <= g.maxRepeat && h.minRepeat <= h.maxRepeat
    ensures Fits(s.words, AddGroup(h, s, AddGroup(g, s, Progress([], pos))).calls, g, h)
  {
    var p1 := AddGroup(g, s, Progress([], pos));
    var calls, n := AddGroup(h, s, p1).calls, |p1.calls|;
    AddedGroupCanBeDrawn(g, s, Progress([], pos));
    AddedGroupCanBeDrawn(h, s, p1);
    AreCallsOfPrefix(s.words, p1.calls, calls, g.toolName, g.kind);
  }

  lemma AddedGroupCanBeDrawn(g: StepGroup, s: Source, p: Progress)
    requires NoListEmpty(s.words) && g.minRepeat <= g.maxRepeat
    ensures var calls := AddGroup(g, s, p).calls;
            && p.calls <= calls && g.minRepeat <= |calls| - |p.calls| <= g.maxRepeat
            && AreCallsOf(s.words, calls, g.toolName, g.kind, |p.calls|, |calls|)
  {
    AddedCallsCanBeDrawn(g, s, p.(drawn := p.drawn + 1), RandInt(s.draws, p.drawn, g.minRepeat, g.maxRepeat));
  }

  lemma AreCallsOfPrefix(
    words: WordLists, front: seq<ToolCall>, calls: seq<ToolCall>, tool: string, kind: ParamKind)
    requires front <= calls && AreCallsOf(words, front, tool, kind, 0, |front|)
    ensures AreCallsOf(words, calls, tool, kind, 0, |front|)
  {
    forall j | 0 <= j < |front|
      ensures IsCallOf(words, calls[j], tool, kind, j)
    {
      assert IsCallOf(words, front[j], tool, kind, j);
    }
  }

  function StreamOf(ds: seq<nat>): Stream {
    (i: nat) => if i < |ds| then ds[i] else 0
  }

  /** Any session of that form is generated from some random source, from any position in it. */
  lemma TwoPartsAreGenerated(g: StepGroup, h: StepGroup, words: WordLists, calls: seq<ToolCall>, pos: nat)
    returns (s: Source)
    requires Fits(words, calls, g, h)
    ensures g.minRepeat <= g.maxRepeat && h.minRepeat <= h.maxRepeat
    ensures s.words == words && AddGroup(h, s, AddGroup(g, s, Progress([], pos))).calls == calls
  {
    var n :| && g.minRepeat <= n <= g.maxRepeat && h.minRepeat <= |calls| - n <= h.maxRepeat
             && AreCallsOf(words, calls, g.toolName, g.kind, 0, n)
             && AreCallsOf(words, calls, h.toolName, h.kind, n, |calls|);
    s := PartsAreGenerated(g, h, words, calls, n, pos);
  }

  lemma PartsAreGenerated(
    g: StepGroup, h: StepGroup, words: WordLists, calls: seq<ToolCall>, n: nat, pos: nat)
    returns (s: Source)
    requires n <= |calls| && g.minRepeat <= n <= g.maxRepeat && h.minRepeat <= |calls| - n <= h.maxRepeat
    requires AreCallsOf(words, calls, g.toolName, g.kind, 0, n)
    requires AreCallsOf(words, calls, h.toolName, h.kind, n, |calls|)
    ensures s.words == words && AddGroup(h, s, AddGroup(g, s, Progress([], pos))).calls == calls
  {
    var ds0 := FirstDraws(pos, n - g.minRepeat);
    var ds1 := DrawsForCalls(g, words, calls, 0, n, ds0);
    var ds2 := ds1 + [|calls| - n - h.minRepeat];
    var ds3 := DrawsForCalls(h, words, calls, n, |calls| - n, ds2);
    s := Source(StreamOf(ds3), words);
    assert calls[..0] == [] && calls[..|calls|] == calls;
    BothGroupsAreMade(g, h, s, calls, n, pos, ds0, ds1, ds2, ds3);
  }

  /** Some draws before position `pos`, and this one there. */
  function FirstDraws(pos: nat, d: nat): (ds: seq<nat>)
    ensures |ds| == pos + 1 && ds[pos] == d
  {
    seq(pos, _ => 0) + [d]
  }

  lemma BothGroupsAreMade(
    g: StepGroup, h: StepGroup, s: Source, calls: seq<ToolCall>, n: nat, pos: nat,
    ds0: seq<nat>, ds1: seq<nat>, ds2: seq<nat>, ds3: seq<nat>)
    requires n <= |calls| && g.minRepeat <= n <= g.maxRepeat && h.minRepeat <= |calls| - n <= h.maxRepeat
    requires |ds0| == pos + 1 && ds0[pos] == n - g.minRepeat && ds2 == ds1 + [|calls| - n - h.minRepeat]
    requires ds0 <= ds1 && ds2 <= ds3 && BeginsWith(s.draws, ds3)
    requires Makes(g, s.words, [], |ds0|, n, calls[..n], ds1)
    requires Makes(h, s.words, calls[..n], |ds2|, |calls| - n, calls, ds3)
    ensures AddGroup(h, s, AddGroup(g, s, Progress([], pos))).calls == calls
  {
    BeginsWithPrefix(s.draws, ds2, ds3);
    BeginsWithPrefix(s.draws, ds1, ds2);
    BeginsWithPrefix(s.draws, ds0, ds1);
    assert ds2[|ds1|] == |calls| - n - h.minRepeat;
    GroupIsMade(g, s, [], pos, n, calls[..n], ds1);
    GroupIsMade(h, s, calls[..n], |ds1|, |calls| - n, calls, ds3);
  }

  lemma GroupIsMade(
    g: StepGroup, s: Source, before: seq<ToolCall>, drawn: nat, n: nat, calls: seq<ToolCall>, ds: seq<nat>)
    requires g.minRepeat <= n <= g.maxRepeat && s.draws(drawn) == n - g.minRepeat
    requires Makes(g, s.words, before, drawn + 1, n, calls, ds) && BeginsWith(s.draws, ds)
    ensures AddGroup(g, s, Progress(before, drawn)) == Progress(calls, |ds|)
  {
    NumberDraw(s.draws, drawn, g.minRepeat, g.maxRepeat, n - g.minRepeat);
    assert MakesIf(g, s, before, drawn + 1, n, calls, ds);
  }

  /** The normal sessions of a task. */
  ghost predicate IsNormalSession(t: TaskType, words: WordLists, calls: seq<ToolCall>) {
    match t
    case InboxTriage =>
      HasTwoParts(words, calls, "read_inbox", InboxRead, 1, 3, "reply_to_email", InboxReply, 2, 6)
    case FlightBooking =>
      HasTwoParts(words, calls, "search_flights", FlightSearch, 2, 5, "book_flight", FlightBook, 1, 2)
    case CalendarScheduling =>
      HasTwoParts(words, calls, "get_calendar", CalendarGet, 1, 3, "add_calendar_event", CalendarAdd, 2, 5)
    case FileSharing =>
      HasTwoParts(words, calls, "list_files", FileList, 1, 3, "share_file", FileShare, 2, 6)
    case ContactUpdate =>
      HasTwoParts(words, calls, "search_contacts", ContactSearch, 1, 3, "update_contact", ContactFields, 2, 5)
  }

  lemma NormalFitsTemplate(t: TaskType, words: WordLists, calls: seq<ToolCall>)
    ensures IsNormalSession(t, words, calls) <==> Fits(words, calls, Template(t)[0], Template(t)[1])
  {
    match t
    case InboxTriage =>
    case FlightBooking =>
    case CalendarScheduling =>
    case FileSharing =>
    case ContactUpdate =>
  }

  lemma SessionIsTwoGroups(t: TaskType, s: Source, pos: nat)
    ensures SessionCalls(t, s, pos)
         == AddGroup(Template(t)[1], s, AddGroup(Template(t)[0], s, Progress([], pos))).calls
  {
    var g, h := Template(t)[0], Template(t)[1];
    assert Template(t) == [g, h];
    TwoGroupsInSteps(g, h, s, Progress([], pos));
  }

  /**
   * The generator makes exactly the normal sessions: every session it makes, from any random source, is one, and every
   * one is made from some random source. A normal session has the template's two tools in order, each as often as its
   * bounds allow, numbered from 0, and each call with any of the parameters its generator can draw.
   */
  lemma GeneratesExactlyNormalSessions(t: TaskType, words: WordLists, calls: seq<ToolCall>, pos: nat)
    requires NoListEmpty(words)
    ensures (exists s: Source :: s.words == words && SessionCalls(t, s, pos) == calls)
            <==> IsNormalSession(t, words, calls)
  {
    NormalFitsTemplate(t, words, calls);
    if s: Source :| s.words == words && SessionCalls(t, s, pos) == calls {
      SessionIsTwoGroups(t, s, pos);
      GeneratedHasTwoParts(Template(t)[0], Template(t)[1], s, pos);
    }
    if IsNormalSession(t, words, calls) {
      var s := TwoPartsAreGenerated(Template(t)[0], Template(t)[1], words, calls, pos);
      SessionIsTwoGroups(t, s, pos);
    }
  }
}
