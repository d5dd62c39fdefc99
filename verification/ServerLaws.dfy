/** What the commands about the whole server mean to a client. */
module ServerLaws {
  import opened Text
  import opened Decimal
  import opened RedisDatabase
  import opened RespFormatter
  import opened Replies
  import opened GlobRegex
  import opened CommandHandler
  import opened Runs
  import opened ClientView
  import opened StringLaws
  import VC = ServerCommands

  lemma RunsOther(c: Command, st: Server, args: seq<string>, ctx: Context)
    requires CommandOf(st.commands, args) == Some(c) && c in {PING, ECHO, INFO, FLUSHALL, KEYS, DBSIZE, TIME}
    ensures Process(st, args, ctx).reply == Other(c, args, Tick(st, ctx.now), ctx).reply
    ensures Process(st, args, ctx).server.db == Other(c, args, Tick(st, ctx.now), ctx).db
  {
    Keyless(c, args, ctx);
    hide KeyPlan, CommandOf, Process, Tick, Other;
    OtherCommand(st, args, ctx);
  }

  lemma TextsRun(args: seq<string>, st: Server, ctx: Context)
    ensures Other(PING, args, st, ctx).reply == VC.Ping(args)
    ensures Other(ECHO, args, st, ctx).reply == VC.Echo(args)
  {
    hide VC.Ping, VC.Echo;
  }

  lemma ReportsRun(args: seq<string>, st: Server, ctx: Context)
    ensures Other(INFO, args, st, ctx).reply == VC.Info(|st.db|, st.start, st.total, ctx.now)
    ensures Other(TIME, args, st, ctx).reply == VC.Time(args, ctx.now)
  {
    hide VC.Info, VC.Time;
  }

  lemma MapsRun(args: seq<string>, st: Server, ctx: Context)
    ensures Other(FLUSHALL, args, st, ctx) == VC.Flushall(st.db, args)
    ensures Other(DBSIZE, args, st, ctx) == VC.Dbsize(st.db, args, ctx.now)
  {
    hide VC.Flushall, VC.Dbsize;
  }

  lemma KeysRuns(args: seq<string>, st: Server, ctx: Context)
    ensures Other(KEYS, args, st, ctx).reply == VC.KeysReply(st.db, args, ctx.now, ctx.engine)
  {
    hide VC.KeysReply;
  }

  /** PING answers PONG or its argument, ECHO its argument. */
  lemma EchoesMean(c: Command, st: Server, args: seq<string>, ctx: Context)
    requires CommandOf(st.commands, args) == Some(c) && c in {PING, ECHO}
    requires |args| == 2 || (c == PING && |args| == 1)
    ensures Process(st, args, ctx).reply == if |args| == 1 then Status("PONG") else Bulk(args[1])
  {
    RunsOther(c, st, args, ctx);
    TextsRun(args, Tick(st, ctx.now), ctx);
    hide CommandOf, Process, Tick, Other;
  }

  /** After FLUSHALL nothing is seen under any key. */
  lemma FlushallMeans(st: Server, args: seq<string>, ctx: Context, key: string, t: int)
    requires CommandOf(st.commands, args) == Some(FLUSHALL) && |args| <= 2
    ensures Process(st, args, ctx).reply == Status("OK")
    ensures ViewAt(Process(st, args, ctx).server.db, key, t) == Missing
  {
    RunsOther(FLUSHALL, st, args, ctx);
    MapsRun(args, Tick(st, ctx.now), ctx);
    hide CommandOf, Process, Tick, Other;
  }

  /** The keys that a client can see. */
  function VisibleKeys(d: Db, now: int): set<string> {
    set k | k in d && ViewAt(d, k, now) != Missing
  }

  lemma SweptKeys(st: Server, now: int)
    ensures VisibleKeys(Tick(st, now).db, now) == VisibleKeys(st.db, now)
    ensures Live(Tick(st, now).db, now).Keys == VisibleKeys(st.db, now)
  {
    var d := Tick(st, now).db;
    forall k ensures k in d && ViewAt(d, k, now) != Missing <==> k in st.db && ViewAt(st.db, k, now) != Missing {
    }
    forall k ensures k in Live(d, now) <==> k in d && ViewAt(d, k, now) != Missing {
    }
  }

  /** DBSIZE replies how many keys are visible. */
  lemma DbsizeMeans(st: Server, args: seq<string>, ctx: Context)
    requires CommandOf(st.commands, args) == Some(DBSIZE) && |args| == 1
    ensures Process(st, args, ctx).reply == Number(|VisibleKeys(st.db, ctx.now)|)
  {
    RunsOther(DBSIZE, st, args, ctx);
    MapsRun(args, Tick(st, ctx.now), ctx);
    SweptKeys(st, ctx.now);
    hide CommandOf, Process, Tick, Other, Live, VisibleKeys;
    assert |Live(Tick(st, ctx.now).db, ctx.now)| == |Live(Tick(st, ctx.now).db, ctx.now).Keys|;
  }

  /** `resp` lists these names, each once. */
  ghost predicate ListsNames(resp: string, names: set<string>) {
    exists order :: resp == FormatArray(order) && multiset(order) == multiset(names)
  }

  function VisibleMatching(d: Db, pattern: string, now: int): set<string> {
    set k | k in VisibleKeys(d, now) && Glob.Matches(pattern, k)
  }

  lemma FoundIsVisible(st: Server, pattern: string, now: int, engine: Engine)
    requires Conforms(engine) && '\\' !in pattern && forall k :: k in VisibleKeys(st.db, now) ==> OneLine(k)
    ensures engine(Translate(pattern)).Language?
    ensures Found(Tick(st, now).db, engine(Translate(pattern)).matches, now)
         == VisibleMatching(st.db, pattern, now)
  {
    SweptKeys(st, now);
    hide Tick, Live, VisibleKeys, Conforms, OneLine, Found, Translate, Glob.Matches;
    SearchIsGlob(Tick(st, now).db, pattern, now, engine);
  }

  /** KEYS lists exactly the visible keys that its argument matches as a glob, for a pattern without
      backslash and visible keys free of line terminators. */
  lemma KeysMeans(st: Server, args: seq<string>, ctx: Context, resp: string)
    requires CommandOf(st.commands, args) == Some(KEYS) && |args| == 2 && '\\' !in args[1]
    requires Conforms(ctx.engine) && forall k :: k in VisibleKeys(st.db, ctx.now) ==> OneLine(k)
    requires Renders(Process(st, args, ctx).reply, resp)
    ensures ListsNames(resp, VisibleMatching(st.db, args[1], ctx.now))
  {
    RunsOther(KEYS, st, args, ctx);
    KeysRuns(args, Tick(st, ctx.now), ctx);
    hide CommandOf, Process, Tick, Other, VisibleKeys, VisibleMatching, Conforms, OneLine, Found, Translate,
      FormatArray;
    FoundIsVisible(st, args[1], ctx.now, ctx.engine);
  }

  /** The commands of a run that name something. */
  function CommandsIn(events: seq<Event>): nat {
    if events == [] then 0
    else (if events[0].Issue? && events[0].args != [] then 1 else 0) + CommandsIn(events[1..])
  }

  /** The server counts every command it is given, known or not, and no sweep. */
  lemma {:induction false} CommandsCounted(st: Server, events: seq<Event>)
    ensures Final(st, events).total == st.total + CommandsIn(events)
    ensures Final(st, events).start == st.start
    decreases |events|
  {
    if events != [] {
      EventCounted(st, events[0]);
      hide After;
      CommandsCounted(After(st, events[0]), events[1..]);
    }
  }

  lemma EventCounted(st: Server, e: Event)
    ensures After(st, e).total == st.total + if e.Issue? && e.args != [] then 1 else 0
    ensures After(st, e).start == st.start
  {
    hide Exec, ToUpper;
  }

  function Report(start: int, now: int, commands: int, keys: int): string {
    "# Server\r\n" + "redis_version:7.0.0\r\n"
    + "uptime_in_seconds:" + ToString((now - start) / 1_000_000_000) + "\r\n" + "\r\n"
    + "# Stats\r\n" + "total_commands_processed:" + ToString(commands) + "\r\n" + "\r\n"
    + "# Keyspace\r\n" + "db0:keys=" + ToString(keys) + "\r\n"
  }

  predicate ClockRuns(start: int, now: int) {
    start <= now && InInt64(now - start)
  }

  lemma Reports(keys: nat, start: int, commands: nat, now: int)
    requires ClockRuns(start, now)
    ensures VC.Info(keys, start, commands, now) == Bulk(Report(start, now, commands, keys))
  {
    hide ToString;
  }

  /** INFO reports the seconds since the start, the commands so far with itself, and the stored keys. */
  lemma InfoMeans(st: Server, args: seq<string>, ctx: Context)
    requires CommandOf(st.commands, args) == Some(INFO) && ClockRuns(st.start, ctx.now)
    ensures Process(st, args, ctx).reply == Bulk(Report(st.start, ctx.now, st.total + 1, |Swept(st, ctx.now)|))
  {
    hide CommandOf, Process, Tick, Other, Swept, Report, VC.Info, Lookup, ClockRuns;
    RunsOther(INFO, st, args, ctx);
    ReportsRun(args, Tick(st, ctx.now), ctx);
    TickCounts(st, ctx.now);
    Reports(|Swept(st, ctx.now)|, st.start, st.total + 1, ctx.now);
  }

  lemma TickCounts(st: Server, now: int)
    ensures Tick(st, now).total == st.total + 1 && Tick(st, now).start == st.start
    ensures Tick(st, now).db == Swept(st, now)
  {
    SweptSees(st, now);
  }

  lemma TimeTold(args: seq<string>, now: int)
    requires |args| == 1 && 0 <= now && InInt64(now)
    ensures var reply := VC.Time(args, now);
            && reply.Items? && |reply.items| == 2
            && ParseInt(reply.items[0]) == now / 1_000_000_000
            && ParseInt(reply.items[1]) == now / 1000 % 1_000_000
  {
    VC.TimeRecomposes(args, now);
    var s, us := now / 1_000_000_000, now / 1000;
    assert s == us / 1_000_000;
    hide ParseInt, ToString;
  }

  /** The two numbers of TIME are the seconds of the clock and the microseconds of the current one. */
  lemma TimeMeans(st: Server, args: seq<string>, ctx: Context)
    requires CommandOf(st.commands, args) == Some(TIME) && |args| == 1 && 0 <= ctx.now && InInt64(ctx.now)
    ensures var reply := Process(st, args, ctx).reply;
            && reply.Items? && |reply.items| == 2
            && ParseInt(reply.items[0]) == ctx.now / 1_000_000_000
            && ParseInt(reply.items[1]) == ctx.now / 1000 % 1_000_000
  {
    RunsOther(TIME, st, args, ctx);
    ReportsRun(args, Tick(st, ctx.now), ctx);
    hide CommandOf, Process, Tick, Other, VC.Time, ParseInt;
    TimeTold(args, ctx.now);
  }
}
