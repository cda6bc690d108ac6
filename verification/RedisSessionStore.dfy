/**
 * The Redis-backed session store (src/simulacrum/session/redis_store.py): a list per session whose time
 * to live slides forward with every write. A key is gone once its time to live has elapsed, and EXPIRE
 * with a time to live that is not positive deletes it at once. Attempts are stored as values.
 */
module RedisSessionStore {
  import opened Common
  import opened SessionStore

  const KEY_PREFIX := "simulacrum:session"

  function Key(sessionId: string): string {
    KEY_PREFIX + ":" + sessionId + ":attempts"
  }

  /** Sessions never share a key. */
  lemma KeyIsInjective(a: string, b: string)
    requires Key(a) == Key(b)
    ensures a == b
  {
    var prefix := KEY_PREFIX + ":";
    assert Key(a) == prefix + a + ":attempts" && Key(b) == prefix + b + ":attempts";
    assert a == Key(a)[|prefix|..|prefix| + |a|];
    assert b == Key(b)[|prefix|..|prefix| + |b|];
  }

  /** A stored list and the moment it disappears, if one is set. */
  datatype Entry = Entry(items: seq<CallAttempt>, deadline: Option<real>)

  type Database = map<string, Entry>

  predicate IsLive(e: Entry, now: real) {
    e.deadline.None? || now < e.deadline.value
  }

  /** LRANGE key 0 -1 */
  function Range(db: Database, key: string, now: real): seq<CallAttempt> {
    if key in db && IsLive(db[key], now) then db[key].items else []
  }

  /** RPUSH: appends to a live list, keeping its deadline, or starts a new one without a deadline. */
  function Push(db: Database, key: string, item: CallAttempt, now: real): Database {
    if key in db && IsLive(db[key], now)
    then db[key := Entry(db[key].items + [item], db[key].deadline)]
    else db[key := Entry([item], None)]
  }

  /** EXPIRE: sets the deadline of a live list. */
  function Expire(db: Database, key: string, ttl: real, now: real): Database {
    if key !in db || !IsLive(db[key], now) then db - {key}
    else if ttl <= 0.0 then db - {key}
    else db[key := Entry(db[key].items, Some(now + ttl))]
  }

  class RedisListServer {
    var db: Database

    constructor ()
      ensures db == map[]
    {
      db := map[];
    }

    method RPush(key: string, item: CallAttempt, now: real)
      modifies this
      ensures db == Push(old(db), key, item, now)
    {
      if key in db && IsLive(db[key], now) {
        db := db[key := Entry(db[key].items + [item], db[key].deadline)];
      } else {
        db := db[key := Entry([item], None)];
      }
    }

    method SetExpiry(key: string, ttl: real, now: real)
      modifies this
      ensures db == Expire(old(db), key, ttl, now)
    {
      if key in db && IsLive(db[key], now) && ttl > 0.0 {
        db := db[key := Entry(db[key].items, Some(now + ttl))];
      } else {
        db := db - {key};
      }
    }

    method LRange(key: string, now: real) returns (items: seq<CallAttempt>)
      ensures items == Range(db, key, now)
    {
      items := if key in db && IsLive(db[key], now) then db[key].items else [];
    }
  }

  class RedisSessionStore {
    const server: RedisListServer
    const ttl: real

    constructor (server: RedisListServer, ttl: real)
      ensures this.server == server && this.ttl == ttl
    {
      this.server, this.ttl := server, ttl;
    }

    /** Two commands, which the server handles at `pushedAt` and `refreshedAt`. */
    method AppendAttempt(
      sessionId: string, call: ToolCall, outcome: CallOutcome, detail: Option<ScoringDetail>,
      pushedAt: real, refreshedAt: real)
      modifies server
      ensures server.db == AfterWrite(
                old(server.db), ttl, Write(sessionId, CallAttempt(call, outcome, detail), pushedAt, refreshedAt))
    {
      var key := Key(sessionId);
      server.RPush(key, CallAttempt(call, outcome, detail), pushedAt);
      server.SetExpiry(key, ttl, refreshedAt);
    }

    method GetAttempts(sessionId: string, now: real) returns (attempts: seq<CallAttempt>)
      ensures attempts == Range(server.db, Key(sessionId), now)
    {
      attempts := server.LRange(Key(sessionId), now);
    }

    method GetCalls(sessionId: string, now: real) returns (calls: seq<ToolCall>)
      ensures calls == CallsOf(Range(server.db, Key(sessionId), now))
    {
      var attempts := GetAttempts(sessionId, now);
      calls := CallsOf(attempts);
    }

    method GetToolFootprint(sessionId: string, now: real) returns (tools: set<string>)
      ensures tools == Footprint(Range(server.db, Key(sessionId), now))
    {
      var attempts := GetAttempts(sessionId, now);
      tools := Footprint(attempts);
    }
  }

  // ---------------------------------------------------------------------------------------------
  // Runs of writes

  datatype Write = Write(sessionId: string, attempt: CallAttempt, pushedAt: real, refreshedAt: real)

  function AfterWrite(db: Database, ttl: real, w: Write): Database {
    Expire(Push(db, Key(w.sessionId), w.attempt, w.pushedAt), Key(w.sessionId), ttl, w.refreshedAt)
  }

  function AfterWrites(ttl: real, writes: seq<Write>): Database {
    if writes == [] then map[]
    else AfterWrite(AfterWrites(ttl, writes[..|writes| - 1]), ttl, writes[|writes| - 1])
  }

  function InSession(sessionId: string): Write -> bool {
    (w: Write) => w.sessionId == sessionId
  }

  function WritesOf(writes: seq<Write>, sessionId: string): seq<Write> {
    Filter(writes, InSession(sessionId))
  }

  function AttemptsIn(writes: seq<Write>): seq<CallAttempt> {
    Map(writes, (w: Write) => w.attempt)
  }

  /** The server handles commands in the order of its clock. */
  ghost predicate InOrder(writes: seq<Write>) {
    && (forall i :: 0 <= i < |writes| ==> writes[i].pushedAt <= writes[i].refreshedAt)
    && (forall i, j :: 0 <= i < j < |writes| ==> writes[i].refreshedAt <= writes[j].pushedAt)
  }

  /** The idle time between one write to a session and the next. */
  predicate IdleGap(ttl: real, before: Write, after: Write) {
    after.pushedAt - before.refreshedAt >= ttl
  }

  /** The old deadline of the list falls between the push and the refresh of the next write. */
  predicate Split(ttl: real, before: Write, after: Write) {
    !IdleGap(ttl, before, after) && after.refreshedAt - before.refreshedAt >= ttl
  }

  predicate IdleGapAt(ttl: real, own: seq<Write>, i: int)
    requires 0 < i < |own|
  {
    IdleGap(ttl, own[i - 1], own[i])
  }

  predicate SplitAt(ttl: real, own: seq<Write>, i: int)
    requires 0 < i < |own|
  {
    Split(ttl, own[i - 1], own[i])
  }

  /** Where the writes since the last idle gap begin. */
  function LastGap(ttl: real, own: seq<Write>): (k: nat)
    ensures k <= |own|
    ensures own != [] ==> k < |own|
    ensures 0 < k < |own| ==> IdleGapAt(ttl, own, k)
    ensures forall i :: k < i < |own| ==> !IdleGapAt(ttl, own, i)
  {
    if |own| <= 1 then 0
    else if IdleGapAt(ttl, own, |own| - 1) then |own| - 1
    else
      var front := own[..|own| - 1];
      assert forall i :: 0 < i < |front| ==> IdleGapAt(ttl, own, i) == IdleGapAt(ttl, front, i);
      LastGap(ttl, front)
  }

  /**
   * Where the stored list begins. A write starts a new list if there is none left to join, and loses the list,
   * itself included, if it is split; the length of `own` means that no list is left.
   */
  function StoredFrom(ttl: real, own: seq<Write>): (k: nat)
    ensures k <= |own|
  {
    if own == [] then 0
    else
      var last := |own| - 1;
      var k := StoredFrom(ttl, own[..last]);
      if k == last || IdleGapAt(ttl, own, last) then last
      else if SplitAt(ttl, own, last) then |own|
      else k
  }

  /** The session's list as the server holds it after the writes. */
  ghost predicate Holds(db: Database, ttl: real, key: string, own: seq<Write>) {
    var k := StoredFrom(ttl, own);
    if k == |own| then key !in db
    else key in db && db[key] == Entry(AttemptsIn(own[k..]), Some(own[|own| - 1].refreshedAt + ttl))
  }

  lemma OtherSessionUntouched(db: Database, ttl: real, w: Write, sessionId: string)
    requires w.sessionId != sessionId
    ensures var db', key := AfterWrite(db, ttl, w), Key(sessionId);
            (key in db' <==> key in db) && (key in db ==> db'[key] == db[key])
  {
    if Key(w.sessionId) == Key(sessionId) {
      KeyIsInjective(w.sessionId, sessionId);
    }
  }

  lemma StoredFromSnoc(ttl: real, own: seq<Write>, w: Write)
    ensures var k := StoredFrom(ttl, own);
            StoredFrom(ttl, own + [w])
            == if k == |own| || IdleGap(ttl, own[|own| - 1], w) then |own|
               else if Split(ttl, own[|own| - 1], w) then |own| + 1
               else k
  {
    assert (own + [w])[..|own|] == own;
  }

  lemma AttemptsSnoc(own: seq<Write>, k: nat, w: Write)
    requires k <= |own|
    ensures AttemptsIn((own + [w])[k..]) == AttemptsIn(own[k..]) + [w.attempt]
  {
    assert (own + [w])[k..] == own[k..] + [w];
  }

  lemma OwnWrite(db: Database, ttl: real, own: seq<Write>, w: Write)
    requires ttl > 0.0 && Holds(db, ttl, Key(w.sessionId), own)
    ensures Holds(AfterWrite(db, ttl, w), ttl, Key(w.sessionId), own + [w])
  {
    StoredFromSnoc(ttl, own, w);
    AttemptsSnoc(own, |own|, w);
    AttemptsSnoc(own, StoredFrom(ttl, own), w);
  }

  lemma {:induction false} StoreHolds(ttl: real, writes: seq<Write>, sessionId: string)
    requires ttl > 0.0
    ensures Holds(AfterWrites(ttl, writes), ttl, Key(sessionId), WritesOf(writes, sessionId))
  {
    if writes != [] {
      var front, w := writes[..|writes| - 1], writes[|writes| - 1];
      assert writes == front + [w];
      FilterSnoc(front, w, InSession(sessionId));
      StoreHolds(ttl, front, sessionId);
      if w.sessionId == sessionId {
        OwnWrite(AfterWrites(ttl, front), ttl, WritesOf(front, sessionId), w);
      } else {
        OtherSessionUntouched(AfterWrites(ttl, front), ttl, w, sessionId);
      }
    }
  }

  ghost predicate NeverSplitAfter(ttl: real, own: seq<Write>, k: nat) {
    forall i :: k < i < |own| ==> !SplitAt(ttl, own, i)
  }

  /** The stored list never begins before the last idle gap, and begins there exactly if no later write is split. */
  lemma {:induction false} StoredFromLastGapIff(ttl: real, own: seq<Write>)
    ensures LastGap(ttl, own) <= StoredFrom(ttl, own)
    ensures LastGap(ttl, own) == StoredFrom(ttl, own) <==> NeverSplitAfter(ttl, own, LastGap(ttl, own))
  {
    if |own| > 1 {
      var last := |own| - 1;
      var front := own[..last];
      StoredFromLastGapIff(ttl, front);
      assert forall i :: 0 < i < last ==> SplitAt(ttl, own, i) == SplitAt(ttl, front, i);
    }
  }

  /** No write to the session for a whole time to live before the moment `now`. */
  predicate Stale(ttl: real, own: seq<Write>, now: real) {
    own == [] || now - own[|own| - 1].refreshedAt >= ttl
  }

  lemma ReadIsStoredList(ttl: real, writes: seq<Write>, sessionId: string, now: real)
    requires ttl > 0.0
    ensures var own := WritesOf(writes, sessionId);
            Range(AfterWrites(ttl, writes), Key(sessionId), now)
            == if Stale(ttl, own, now) then [] else AttemptsIn(own[StoredFrom(ttl, own)..])
  {
    StoreHolds(ttl, writes, sessionId);
  }

  /**
   * Reading a session returns exactly what was appended to it since its last idle gap of at least the time to
   * live, where the time since the last write counts as a gap too, if and only if no write since that gap was
   * split by the deadline before it. Other sessions, and anything before the gap, play no part.
   */
  lemma ReadsSinceLastIdleGapIff(ttl: real, writes: seq<Write>, sessionId: string, now: real)
    requires ttl > 0.0
    ensures var own := WritesOf(writes, sessionId);
            Range(AfterWrites(ttl, writes), Key(sessionId), now)
            == (if Stale(ttl, own, now) then [] else AttemptsIn(own[LastGap(ttl, own)..]))
            <==> Stale(ttl, own, now) || NeverSplitAfter(ttl, own, LastGap(ttl, own))
  {
    var own := WritesOf(writes, sessionId);
    ReadIsStoredList(ttl, writes, sessionId, now);
    StoredFromLastGapIff(ttl, own);
    assert |AttemptsIn(own[StoredFrom(ttl, own)..])| == |own| - StoredFrom(ttl, own);
    assert |AttemptsIn(own[LastGap(ttl, own)..])| == |own| - LastGap(ttl, own);
  }

  /** The in-memory store after the same appends. */
  function InMemoryAfter(writes: seq<Write>): Sessions {
    if writes == [] then map[]
    else
      var w := writes[|writes| - 1];
      Append(InMemoryAfter(writes[..|writes| - 1]), w.sessionId, w.attempt)
  }

  lemma {:induction false} InMemoryHoldsAll(writes: seq<Write>, sessionId: string)
    ensures AttemptsOf(InMemoryAfter(writes), sessionId) == AttemptsIn(WritesOf(writes, sessionId))
  {
    if writes != [] {
      var front, w := writes[..|writes| - 1], writes[|writes| - 1];
      InMemoryHoldsAll(front, sessionId);
      assert writes == front + [w];
      FilterSnoc(front, w, InSession(sessionId));
      var own := WritesOf(front, sessionId);
      assert AttemptsIn(own + [w]) == AttemptsIn(own) + [w.attempt];
    }
  }

  predicate RefreshedInTime(ttl: real, own: seq<Write>, i: int)
    requires 0 < i < |own|
  {
    own[i].refreshedAt - own[i - 1].refreshedAt < ttl
  }

  /** Each refresh comes less than a time to live after the one before, and the read after the last one. */
  ghost predicate KeptAlive(ttl: real, own: seq<Write>, now: real) {
    && (forall i :: 0 < i < |own| ==> RefreshedInTime(ttl, own, i))
    && (own != [] ==> now - own[|own| - 1].refreshedAt < ttl)
  }

  lemma KeptAliveIff(ttl: real, own: seq<Write>, now: real)
    requires forall w :: w in own ==> w.pushedAt <= w.refreshedAt
    ensures KeptAlive(ttl, own, now) <==>
            own == [] || (!Stale(ttl, own, now) && StoredFrom(ttl, own) == 0)
  {
    StoredFromLastGapIff(ttl, own);
    forall i | 0 < i < |own|
      ensures RefreshedInTime(ttl, own, i) <==> !IdleGapAt(ttl, own, i) && !SplitAt(ttl, own, i)
    {
      assert own[i] in own;
    }
  }

  /**
   * The two stores hold the same attempts of a session exactly when the session is empty or was kept alive all
   * the time; then they also give the same calls and the same tool footprint.
   */
  lemma AgreesWithInMemoryStoreIff(ttl: real, writes: seq<Write>, sessionId: string, now: real)
    requires ttl > 0.0 && InOrder(writes)
    ensures var redis := Range(AfterWrites(ttl, writes), Key(sessionId), now);
            var memory := AttemptsOf(InMemoryAfter(writes), sessionId);
            && (redis == memory <==> KeptAlive(ttl, WritesOf(writes, sessionId), now))
            && (redis == memory ==> CallsOf(redis) == CallsOf(memory) && Footprint(redis) == Footprint(memory))
  {
    var own := WritesOf(writes, sessionId);
    ReadIsStoredList(ttl, writes, sessionId, now);
    InMemoryHoldsAll(writes, sessionId);
    FilterMembers(writes, InSession(sessionId));
    KeptAliveIff(ttl, own, now);
    var k := StoredFrom(ttl, own);
    assert |AttemptsIn(own[k..])| == |own| - k;
    assert own[0..] == own;
  }

  // ---------------------------------------------------------------------------------------------
  // A write is two commands

  /**
   * A write survives to be read, right after it, exactly when the list's old deadline does not fall between
   * its push and its refresh. In that window the push joins the expiring list and is lost with it.
   */
  lemma WriteIsKeptIff(db: Database, ttl: real, w: Write)
    requires ttl > 0.0 && w.pushedAt <= w.refreshedAt
    ensures var key := Key(w.sessionId); var read := Range(AfterWrite(db, ttl, w), key, w.refreshedAt);
            (read != [] && read[|read| - 1] == w.attempt) <==>
            !(key in db && db[key].deadline.Some? && w.pushedAt < db[key].deadline.value <= w.refreshedAt)
  {
  }

  /** A session's second write, pushed just before and refreshed just after the first one's deadline, is lost. */
  lemma SlowRefreshLosesWrite(attempt: CallAttempt)
    ensures var writes := [Write("s", attempt, 0.0, 0.0), Write("s", attempt, 9.0, 11.0)];
            InOrder(writes) && Range(AfterWrites(10.0, writes), Key("s"), 11.0) == []
  {
    var first, second := Write("s", attempt, 0.0, 0.0), Write("s", attempt, 9.0, 11.0);
    var writes := [first, second];
    assert writes[..1] == [first] && [first][..0] == [];
    assert AfterWrites(10.0, [first]) == AfterWrite(map[], 10.0, first);
  }

  /** With a time to live that is not positive nothing is ever kept. */
  lemma NoTimeToLiveKeepsNothing(db: Database, ttl: real, w: Write)
    requires ttl <= 0.0
    ensures Key(w.sessionId) !in AfterWrite(db, ttl, w)
  {
  }

  // ---------------------------------------------------------------------------------------------
  // Interleaved writes

  /** The two commands of a write, which may come between those of another replica's write. */
  datatype Command =
    | RPush(sessionId: string, attempt: CallAttempt, at: real)
    | SetExpiry(sessionId: string, at: real)

  function AfterCommand(db: Database, ttl: real, c: Command): Database {
    match c
    case RPush(sessionId, attempt, at) => Push(db, Key(sessionId), attempt, at)
    case SetExpiry(sessionId, at) => Expire(db, Key(sessionId), ttl, at)
  }

  function AfterCommands(ttl: real, commands: seq<Command>): Database {
    if commands == [] then map[]
    else AfterCommand(AfterCommands(ttl, commands[..|commands| - 1]), ttl, commands[|commands| - 1])
  }

  function CommandsIn(sessionId: string): Command -> bool {
    (c: Command) => c.sessionId == sessionId
  }

  function CommandsOf(commands: seq<Command>, sessionId: string): seq<Command> {
    Filter(commands, CommandsIn(sessionId))
  }

  /** The attempts that the commands push. */
  function Pushed(own: seq<Command>): seq<CallAttempt> {
    if own == [] then []
    else
      var c := own[|own| - 1];
      Pushed(own[..|own| - 1]) + if c.RPush? then [c.attempt] else []
  }

  function LastRefresh(own: seq<Command>): Option<real> {
    if own == [] then None
    else if own[|own| - 1].SetExpiry? then Some(own[|own| - 1].at)
    else LastRefresh(own[..|own| - 1])
  }

  /** Less than a time to live has passed since the last refresh, if there was one. */
  predicate InTime(ttl: real, own: seq<Command>, now: real) {
    LastRefresh(own).Some? ==> now - LastRefresh(own).value < ttl
  }

  /** Every command comes in time after those before it. */
  predicate AlwaysInTime(ttl: real, own: seq<Command>) {
    own != [] ==> AlwaysInTime(ttl, own[..|own| - 1]) && InTime(ttl, own[..|own| - 1], own[|own| - 1].at)
  }

  /** What the server holds: the whole list while all commands were in time, and never the whole list again after. */
  ghost predicate HoldsAll(db: Database, ttl: real, key: string, own: seq<Command>) {
    if own == [] then key !in db
    else if AlwaysInTime(ttl, own) then
      && key in db && db[key].items == Pushed(own)
      && db[key].deadline == if LastRefresh(own).Some? then Some(LastRefresh(own).value + ttl) else None
    else key in db ==> |db[key].items| < |Pushed(own)|
  }

  /** A refresh follows a push of the same write, so the first command of a session is a push. */
  ghost predicate StartsWithPush(own: seq<Command>) {
    own != [] ==> own[0].RPush?
  }

  lemma {:induction false} PushedIsNotEmpty(own: seq<Command>)
    requires own != [] && StartsWithPush(own)
    ensures Pushed(own) != []
  {
    if |own| > 1 {
      PushedIsNotEmpty(own[..|own| - 1]);
    }
  }

  lemma OwnCommand(db: Database, ttl: real, own: seq<Command>, c: Command)
    requires ttl > 0.0 && StartsWithPush(own + [c]) && HoldsAll(db, ttl, Key(c.sessionId), own)
    ensures HoldsAll(AfterCommand(db, ttl, c), ttl, Key(c.sessionId), own + [c])
  {
    var all := own + [c];
    assert all[..|own|] == own;
    assert AlwaysInTime(ttl, all) <==> AlwaysInTime(ttl, own) && InTime(ttl, own, c.at);
    assert Pushed(all) == Pushed(own) + if c.RPush? then [c.attempt] else [];
    if own != [] {
      assert own[0] == all[0];
      PushedIsNotEmpty(own);
    }
  }

  lemma OtherSessionsCommand(db: Database, ttl: real, c: Command, sessionId: string)
    requires c.sessionId != sessionId
    ensures var db', key := AfterCommand(db, ttl, c), Key(sessionId);
            (key in db' <==> key in db) && (key in db ==> db'[key] == db[key])
  {
    if Key(c.sessionId) == Key(sessionId) {
      KeyIsInjective(c.sessionId, sessionId);
    }
  }

  lemma {:induction false} ServerHoldsAll(ttl: real, commands: seq<Command>, sessionId: string)
    requires ttl > 0.0 && StartsWithPush(CommandsOf(commands, sessionId))
    ensures HoldsAll(AfterCommands(ttl, commands), ttl, Key(sessionId), CommandsOf(commands, sessionId))
  {
    if commands != [] {
      var front, c := commands[..|commands| - 1], commands[|commands| - 1];
      var own := CommandsOf(front, sessionId);
      assert commands == front + [c];
      FilterSnoc(front, c, CommandsIn(sessionId));
      assert own != [] ==> CommandsOf(commands, sessionId)[0] == own[0];
      ServerHoldsAll(ttl, front, sessionId);
      if c.sessionId == sessionId {
        OwnCommand(AfterCommands(ttl, front), ttl, own, c);
      } else {
        OtherSessionsCommand(AfterCommands(ttl, front), ttl, c, sessionId);
      }
    }
  }

  /** The in-memory store after the same pushes, in the same order. */
  function InMemoryAfterCommands(commands: seq<Command>): Sessions {
    if commands == [] then map[]
    else
      var before, c := InMemoryAfterCommands(commands[..|commands| - 1]), commands[|commands| - 1];
      if c.RPush? then Append(before, c.sessionId, c.attempt) else before
  }

  lemma {:induction false} InMemoryHoldsPushed(commands: seq<Command>, sessionId: string)
    ensures AttemptsOf(InMemoryAfterCommands(commands), sessionId) == Pushed(CommandsOf(commands, sessionId))
  {
    if commands != [] {
      var front, c := commands[..|commands| - 1], commands[|commands| - 1];
      var own := CommandsOf(front, sessionId);
      InMemoryHoldsPushed(front, sessionId);
      assert commands == front + [c];
      FilterSnoc(front, c, CommandsIn(sessionId));
      assert (own + [c])[..|own|] == own;
    }
  }

  /**
   * Any number of replicas may write a session at once, their pushes and refreshes interleaved: the server gives the
   * attempts that an in-memory store gives for the same pushes exactly when the session is empty, or every command
   * and the read came less than a time to live after the last refresh before it, whoever refreshed.
   */
  lemma InterleavedWritesAgreeIff(ttl: real, commands: seq<Command>, sessionId: string, now: real)
    requires ttl > 0.0 && StartsWithPush(CommandsOf(commands, sessionId))
    ensures var own := CommandsOf(commands, sessionId);
            Range(AfterCommands(ttl, commands), Key(sessionId), now)
            == AttemptsOf(InMemoryAfterCommands(commands), sessionId)
            <==> own == [] || (AlwaysInTime(ttl, own) && InTime(ttl, own, now))
  {
    var own := CommandsOf(commands, sessionId);
    ServerHoldsAll(ttl, commands, sessionId);
    InMemoryHoldsPushed(commands, sessionId);
    if own != [] {
      PushedIsNotEmpty(own);
    }
  }
}
