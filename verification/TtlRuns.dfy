/** EXPIRE and EXPIREAT, then TTL some time later; and PERSIST in between. */
module TtlRuns {
  import opened Text
  import opened Decimal
  import opened RedisValue
  import opened RedisDatabase
  import opened Replies
  import opened CommandPlan
  import opened CommandHandler
  import opened Runs
  import opened DatabaseInvariants
  import opened ClientView
  import opened TtlCommands
  import CollectionRuns
  import SC = StringCommands

  // ----- the deadline that is stored -----

  /** The clock counts modulo 2^64 nanoseconds. */
  const CLOCK_PERIOD: int := 0x1_0000_0000_0000_0000

  /** The deadline that `seconds` from `now` comes out as. */
  function Deadline(now: int, seconds: int): int {
    Wrap64(now + seconds * 1_000_000_000)
  }

  lemma DeadlineStored(v: RedisValue, now: int, seconds: int)
    ensures v.SetExpiry(now, SecondsToMs(seconds)) == v.(expiry := Deadline(now, seconds), hasExpiry := true)
  {
    var ms := seconds * 1000;
    var k := (ms + 0x8000_0000_0000_0000) / CLOCK_PERIOD;
    assert Wrap64(ms) == ms - k * CLOCK_PERIOD;
    WrapAgain(Wrap64(ms) * 1_000_000, k * 1_000_000);
    assert Wrap64(ms) * 1_000_000 + k * 1_000_000 * CLOCK_PERIOD == seconds * 1_000_000_000;
    WrapSum(now, seconds * 1_000_000_000);
  }

  lemma WrapAgain(n: int, k: int)
    ensures Wrap64(n + k * CLOCK_PERIOD) == Wrap64(n)
  {
    ModAgain(n + 0x8000_0000_0000_0000, k);
  }

  lemma ModAgain(n: int, k: int)
    ensures (n + k * CLOCK_PERIOD) % CLOCK_PERIOD == n % CLOCK_PERIOD
  {
    var q, r := n / CLOCK_PERIOD, n % CLOCK_PERIOD;
    assert n + k * CLOCK_PERIOD == (q + k) * CLOCK_PERIOD + r;
  }

  lemma WrapSum(a: int, b: int)
    ensures Wrap64(a + Wrap64(b)) == Wrap64(a + b)
  {
    var k := (b + 0x8000_0000_0000_0000) / CLOCK_PERIOD;
    assert Wrap64(b) == b - k * CLOCK_PERIOD;
    WrapAgain(a + Wrap64(b), k);
  }

  /** The stored deadline is the intended one exactly when that fits the 64-bit clock. */
  lemma DeadlineExact(v: RedisValue, now: int, seconds: int)
    requires 0 <= now <= INT64_MAX && 0 < seconds
    ensures v.SetExpiry(now, SecondsToMs(seconds)).expiry == now + seconds * 1_000_000_000
       <==> InInt64(now + seconds * 1_000_000_000)
  {
    DeadlineStored(v, now, seconds);
  }

  /** What a duration amounts to on a clock that wraps around. */
  function OnTheClock(seconds: int): nat {
    seconds * 1_000_000_000 % CLOCK_PERIOD
  }

  /** Whatever the number of seconds, the entry outlives the command exactly when what the
      duration amounts to on the clock is not nothing and does not reach past its end. */
  lemma ExpiresAtOnce(v: RedisValue, now: int, seconds: int)
    requires 0 <= now <= INT64_MAX
    ensures !v.SetExpiry(now, SecondsToMs(seconds)).IsExpired(now) <==>
              0 < OnTheClock(seconds) <= INT64_MAX - now
    ensures !v.SetExpiry(now, SecondsToMs(seconds)).IsExpired(now) ==>
              v.SetExpiry(now, SecondsToMs(seconds)).expiry == now + OnTheClock(seconds)
  {
    DeadlineStored(v, now, seconds);
    var k := seconds * 1_000_000_000 / CLOCK_PERIOD;
    WrapAgain(now + OnTheClock(seconds), k);
    assert now + OnTheClock(seconds) + k * CLOCK_PERIOD == now + seconds * 1_000_000_000;
  }

  /** A duration that passes the end of the clock once makes the key disappear at once; one that
      goes further round can come out in the future again. */
  lemma LongExpiries(v: RedisValue, now: int, seconds: int)
    requires 0 <= now <= INT64_MAX && INT64_MAX - now < seconds * 1_000_000_000
    ensures seconds * 1_000_000_000 <= CLOCK_PERIOD ==> v.SetExpiry(now, SecondsToMs(seconds)).IsExpired(now)
    ensures seconds == 20_000_000_000 && now <= 0x4000_0000_0000_0000 ==>
              !v.SetExpiry(now, SecondsToMs(seconds)).IsExpired(now)
  {
    ExpiresAtOnce(v, now, seconds);
  }

  // ----- EXPIRE, then TTL -----

  lemma ExpireStores(st: Server, args: seq<string>, ctx: Context, v: RedisValue)
    requires CommandOf(st.commands, args) == Some(EXPIRE) && |args| == 3 && IntegerText(args[2])
    requires Lookup(st.db, args[1], ctx.now) == Some(v) && ParseInt(args[2]) > 0
    ensures Process(st, args, ctx).reply == Number(1)
    ensures forall t :: Lookup(Process(st, args, ctx).server.db, args[1], t)
                     == Unexpired(v.SetExpiry(ctx.later, SecondsToMs(ParseInt(args[2]))), t)
  {
    hide ToUpper, IntegerText, ParseInt, SecondsToMs, Other;
    var st1 := Tick(st, ctx.now);
    assert Lookup(st1.db, args[1], ctx.now) == Some(v);
  }

  /** EXPIRE replies 0 exactly when nothing is visible under the key. On a visible key, 0 or fewer
      seconds remove it at once; with more it keeps its contents up to the deadline. */
  lemma ExpireMeans(st: Server, args: seq<string>, ctx: Context, t: int)
    requires CommandOf(st.commands, args) == Some(EXPIRE) && |args| == 3 && IntegerText(args[2])
    requires ctx.now <= ctx.later <= t
    requires ParseInt(args[2]) > 0 ==> InInt64(ctx.later + ParseInt(args[2]) * 1_000_000_000)
    ensures Process(st, args, ctx).reply == Number(if ViewAt(st.db, args[1], ctx.now).Missing? then 0 else 1)
    ensures ViewAt(Process(st, args, ctx).server.db, args[1], t)
         == if t < ctx.later + ParseInt(args[2]) * 1_000_000_000 then ViewAt(st.db, args[1], ctx.now) else Missing
  {
    KeyCommand(st, args, ctx, Expire(args, ctx.later), args[1], t);
    hide Process, CommandOf, IntegerText, ParseInt, ViewOf, ViewAfter, Expire;
    ExpireActs(args, st.db, ctx.now, ctx.later, t);
  }

  lemma ExpireActs(args: seq<string>, d: Db, now: int, later: int, t: int)
    requires |args| == 3 && IntegerText(args[2]) && now <= later <= t
    requires ParseInt(args[2]) > 0 ==> InInt64(later + ParseInt(args[2]) * 1_000_000_000)
    ensures var p := Expire(args, later);
            && ReplyTo(p, d, now) == Number(if ViewAt(d, args[1], now).Missing? then 0 else 1)
            && ViewAfter(p, d, args[1], now, t)
               == if t < later + ParseInt(args[2]) * 1_000_000_000 then ViewAt(d, args[1], now) else Missing
  {
    hide Lookup, IntegerText, ParseInt, SecondsToMs;
    var cur, seconds := Lookup(d, args[1], now), ParseInt(args[2]);
    ActionShows(Expire(args, later), d, args[1], now, t, ExpireIn(cur, seconds, later));
    if cur.None? {
      GoneStaysGone(d, args[1], now, t);
    } else if seconds > 0 {
      DeadlineStored(cur.value, later, seconds);
    }
  }

  lemma GoneStaysGone(d: Db, key: string, now: int, t: int)
    requires Lookup(d, key, now).None? && now <= t
    ensures Lookup(d, key, t).None?
  {
  }

  lemma TtlReplies(st: Server, args: seq<string>, ctx: Context)
    requires CommandOf(st.commands, args) == Some(TTL) && |args| == 2
    ensures Process(st, args, ctx).reply == Number(SecondsLeft(Lookup(st.db, args[1], ctx.now), ctx.later))
  {
    hide ToUpper, SecondsLeft, Other;
    var st1 := Tick(st, ctx.now);
    assert Lookup(st1.db, args[1], ctx.now) == Lookup(st.db, args[1], ctx.now);
  }

  /** What TTL replies at time `t` when the deadline is `deadline`. */
  function Remaining(deadline: int, t: int): int {
    if t < deadline then (deadline - t) / 1_000_000_000 else -2
  }

  /** TTL replies -2 when nothing is visible under the key, -1 when it has no expiry, and otherwise
      the whole seconds left at its last look at the clock. */
  lemma TtlMeans(st: Server, args: seq<string>, ctx: Context)
    requires CommandOf(st.commands, args) == Some(TTL) && |args| == 2 && 0 <= ctx.now <= ctx.later
    requires ExpiryAt(st.db, args[1], ctx.now).Some? ==> InInt64(ExpiryAt(st.db, args[1], ctx.now).value)
    ensures Process(st, args, ctx).reply
         == Number(if ViewAt(st.db, args[1], ctx.now).Missing? then -2
                   else if ExpiryAt(st.db, args[1], ctx.now).None? then -1
                   else Remaining(ExpiryAt(st.db, args[1], ctx.now).value, ctx.later))
  {
    TtlReplies(st, args, ctx);
    hide Process, CommandOf, Lookup;
    var cur := Lookup(st.db, args[1], ctx.now);
    if cur.Some? && cur.value.hasExpiry {
      VisibleIsUnexpired(st.db, args[1], ctx.now);
      SecondsToDeadline(cur.value, ctx.now, ctx.later);
    }
  }

  lemma VisibleIsUnexpired(d: Db, key: string, now: int)
    ensures Lookup(d, key, now).Some? ==> Unexpired(Lookup(d, key, now).value, now) == Lookup(d, key, now)
  {
  }

  /** EXPIRE with positive seconds on a visible key, then commands that do not write the key, then
      TTL: the reply is the whole seconds from TTL's own last look at the clock to the stored
      deadline, and -2 from the deadline on, also when that passes while TTL runs. */
  lemma ExpireThenTtl(st: Server, args: seq<string>, ctx: Context, events: seq<Event>,
                      query: seq<string>, ctx1: Context)
    requires CommandOf(st.commands, args) == Some(EXPIRE) && |args| == 3 && IntegerText(args[2])
    requires Lookup(st.db, args[1], ctx.now).Some? && ParseInt(args[2]) > 0
    requires 0 <= ctx.now <= ctx.later
    requires Quiet(st.commands, events, args[1]) && Ordered(events, ctx.later)
    requires EndTime(events, ctx.later) <= ctx1.now <= ctx1.later
    requires CommandOf(st.commands, query) == Some(TTL) && |query| == 2 && query[1] == args[1]
    ensures Process(Final(Process(st, args, ctx).server, events), query, ctx1).reply
         == Number(Remaining(Deadline(ctx.later, ParseInt(args[2])), ctx1.later))
  {
    var key, n, v := args[1], ParseInt(args[2]), Lookup(st.db, args[1], ctx.now).value;
    ExpireStores(st, args, ctx, v);
    DeadlineStored(v, ctx.later, n);
    var w := v.SetExpiry(ctx.later, SecondsToMs(n));
    OrderedEnds(events, ctx.later);
    ReplyAfterQuietRun(st, args, ctx, events, query, ctx1);
    hide Process, Final, Lookup, IntegerText, ParseInt, SecondsToMs, CommandOf, Quiet, Deadline;
    assert Lookup(Process(st, args, ctx).server.db, key, ctx1.now) == Unexpired(w, ctx1.now);
    SecondsToDeadline(w, ctx1.now, ctx1.later);
  }

  lemma SecondsToDeadline(w: RedisValue, now: int, later: int)
    requires w.hasExpiry && 0 <= now <= later && w.expiry <= INT64_MAX
    ensures SecondsLeft(Unexpired(w, now), later) == Remaining(w.expiry, later)
  {
  }

  /** TTL after one command and a run that leaves the key alone sees what that command left. */
  lemma ReplyAfterQuietRun(st: Server, args: seq<string>, ctx: Context, events: seq<Event>,
                           query: seq<string>, ctx1: Context)
    requires Quiet(st.commands, events, Key(query)) && Ordered(events, ctx.later)
    requires EndTime(events, ctx.later) <= ctx1.now
    requires CommandOf(st.commands, query) == Some(TTL) && |query| == 2
    ensures Process(Final(Process(st, args, ctx).server, events), query, ctx1).reply
         == Number(SecondsLeft(Lookup(Process(st, args, ctx).server.db, Key(query), ctx1.now), ctx1.later))
  {
    hide Process, Final, Lookup, CommandOf, Quiet, SecondsLeft;
    var st1 := Process(st, args, ctx).server;
    EventKeepsTable(st, Issue(args, ctx));
    QuietRunKeepsKey(st1, events, ctx.later, Key(query), ctx1.now);
    CollectionRuns.FinalKeepsTable(st1, events);
    TtlReplies(Final(st1, events), query, ctx1);
  }

  function Key(args: seq<string>): string {
    if |args| > 1 then args[1] else ""
  }

  /** Within the range of the clock that is the time asked for: between 0 and n until it is over. */
  lemma RemainingIsExact(now: int, n: int, t: int)
    requires 0 <= now <= t && 0 < n
    requires InInt64(now + n * 1_000_000_000)
    ensures Remaining(Deadline(now, n), t)
         == if t < now + n * 1_000_000_000 then (now + n * 1_000_000_000 - t) / 1_000_000_000 else -2
    ensures t < now + n * 1_000_000_000 ==> 0 <= Remaining(Deadline(now, n), t) <= n
  {
  }

  /** The seconds left never increase. */
  lemma RemainingDecreases(deadline: int, t: int, t': int)
    requires t <= t'
    ensures Remaining(deadline, t') <= Remaining(deadline, t)
  {
  }

  // ----- EXPIREAT, then TTL -----

  /** The point of the 64-bit clock that a timestamp in seconds names. */
  function Moment(timestamp: int): int {
    Wrap64(timestamp * 1_000_000_000)
  }

  /** It is the point that was meant exactly when that is on the clock. */
  lemma MomentExact(timestamp: int)
    ensures Moment(timestamp) == timestamp * 1_000_000_000 <==> InInt64(timestamp * 1_000_000_000)
    ensures Moment(timestamp) <= INT64_MAX
  {
  }

  lemma ExpireatStores(st: Server, args: seq<string>, ctx: Context, t: int)
    requires CommandOf(st.commands, args) == Some(EXPIREAT) && |args| == 3 && IntegerText(args[2])
    requires Lookup(st.db, args[1], ctx.now).Some? && ctx.now <= t
    ensures var a, v, m := Process(st, args, ctx), Lookup(st.db, args[1], ctx.now).value, Moment(ParseInt(args[2]));
            && a.reply == Number(1)
            && Lookup(a.server.db, args[1], t)
               == if m <= ctx.later then None else Unexpired(v.(expiry := m, hasExpiry := true), t)
  {
    hide ToUpper, IntegerText, ParseInt, Wrap64, Other;
    var st1 := Tick(st, ctx.now);
    assert Lookup(st1.db, args[1], ctx.now) == Lookup(st.db, args[1], ctx.now);
  }

  /** EXPIREAT replies 0 exactly when nothing is visible under the key. On a visible key, a moment
      that has passed removes it at once; up to any other it keeps its contents, and then it is gone. */
  lemma ExpireatMeans(st: Server, args: seq<string>, ctx: Context, t: int)
    requires CommandOf(st.commands, args) == Some(EXPIREAT) && |args| == 3 && IntegerText(args[2])
    requires ctx.now <= ctx.later <= t && InInt64(ParseInt(args[2]) * 1_000_000_000)
    ensures Process(st, args, ctx).reply == Number(if ViewAt(st.db, args[1], ctx.now).Missing? then 0 else 1)
    ensures ViewAt(Process(st, args, ctx).server.db, args[1], t)
         == if t < ParseInt(args[2]) * 1_000_000_000 then ViewAt(st.db, args[1], ctx.now) else Missing
    ensures t < ParseInt(args[2]) * 1_000_000_000 && !ViewAt(st.db, args[1], ctx.now).Missing? ==>
              ExpiryAt(Process(st, args, ctx).server.db, args[1], t) == Some(ParseInt(args[2]) * 1_000_000_000)
  {
    KeyCommand(st, args, ctx, Expireat(args, ctx.later), args[1], t);
    hide Process, CommandOf, IntegerText, ParseInt, ViewOf, ViewAfter, ExpiryOf, ExpiryAfter, Expireat;
    ExpireatActs(args, st.db, ctx.now, ctx.later, t);
  }

  lemma ExpireatActs(args: seq<string>, d: Db, now: int, later: int, t: int)
    requires |args| == 3 && IntegerText(args[2]) && now <= later <= t
    requires InInt64(ParseInt(args[2]) * 1_000_000_000)
    ensures var p, moment := Expireat(args, later), ParseInt(args[2]) * 1_000_000_000;
            && ReplyTo(p, d, now) == Number(if ViewAt(d, args[1], now).Missing? then 0 else 1)
            && ViewAfter(p, d, args[1], now, t) == (if t < moment then ViewAt(d, args[1], now) else Missing)
            && (t < moment && !ViewAt(d, args[1], now).Missing? ==>
                  ExpiryAfter(p, d, args[1], now, t) == Some(moment))
  {
    hide Lookup, IntegerText, ParseInt, Wrap64;
    var cur, timestamp := Lookup(d, args[1], now), ParseInt(args[2]);
    MomentExact(timestamp);
    ActionShows(Expireat(args, later), d, args[1], now, t, ExpireAtTime(cur, timestamp, later));
    if cur.None? {
      GoneStaysGone(d, args[1], now, t);
    }
  }

  /** EXPIREAT on a visible key, then commands that do not write the key, then TTL: the reply is the
      whole seconds to the moment given, and -2 from that moment on, also when it had passed before. */
  lemma ExpireatThenTtl(st: Server, args: seq<string>, ctx: Context, events: seq<Event>,
                        query: seq<string>, ctx1: Context)
    requires CommandOf(st.commands, args) == Some(EXPIREAT) && |args| == 3 && IntegerText(args[2])
    requires Lookup(st.db, args[1], ctx.now).Some? && 0 <= ctx.now <= ctx.later
    requires Quiet(st.commands, events, args[1]) && Ordered(events, ctx.later)
    requires EndTime(events, ctx.later) <= ctx1.now <= ctx1.later
    requires CommandOf(st.commands, query) == Some(TTL) && |query| == 2 && query[1] == args[1]
    ensures Process(Final(Process(st, args, ctx).server, events), query, ctx1).reply
         == Number(Remaining(Moment(ParseInt(args[2])), ctx1.later))
  {
    var m, v := Moment(ParseInt(args[2])), Lookup(st.db, args[1], ctx.now).value;
    OrderedEnds(events, ctx.later);
    ExpireatStores(st, args, ctx, ctx1.now);
    ReplyAfterQuietRun(st, args, ctx, events, query, ctx1);
    MomentExact(ParseInt(args[2]));
    hide Process, Final, Lookup, IntegerText, ParseInt, CommandOf, Quiet, Moment;
    SecondsToDeadline(v.(expiry := m, hasExpiry := true), ctx1.now, ctx1.later);
  }

  /** EXPIREAT and EXPIRE say the same thing of the same deadline. */
  lemma SameDeadline(now: int, seconds: int, timestamp: int)
    requires timestamp * 1_000_000_000 == now + seconds * 1_000_000_000
    ensures Moment(timestamp) == Deadline(now, seconds)
  {
  }

  // ----- PERSIST, then TTL -----

  lemma PersistClears(st: Server, args: seq<string>, ctx: Context, v: RedisValue)
    requires CommandOf(st.commands, args) == Some(PERSIST) && |args| == 2
    requires Lookup(st.db, args[1], ctx.now) == Some(v)
    ensures Process(st, args, ctx).reply == Number(if v.hasExpiry then 1 else 0)
    ensures forall t :: ctx.now <= t ==>
              Lookup(Process(st, args, ctx).server.db, args[1], t) == Some(if v.hasExpiry then v.ClearExpiry() else v)
  {
    hide ToUpper, Other;
    var st1 := Tick(st, ctx.now);
    assert Lookup(st1.db, args[1], ctx.now) == Some(v);
  }

  /** PERSIST replies 1 exactly when what is visible under the key has an expiry; then it has none and
      the same contents at any later time. */
  lemma PersistMeans(st: Server, args: seq<string>, ctx: Context, t: int)
    requires CommandOf(st.commands, args) == Some(PERSIST) && |args| == 2 && ctx.now <= t
    requires !ViewAt(st.db, args[1], ctx.now).Missing?
    ensures Process(st, args, ctx).reply == Number(if ExpiryAt(st.db, args[1], ctx.now).Some? then 1 else 0)
    ensures ViewAt(Process(st, args, ctx).server.db, args[1], t) == ViewAt(st.db, args[1], ctx.now)
    ensures ExpiryAt(Process(st, args, ctx).server.db, args[1], t).None?
  {
    PersistClears(st, args, ctx, Lookup(st.db, args[1], ctx.now).value);
    hide Process, CommandOf, Lookup;
  }

  /** After PERSIST on a visible key, and any commands that do not write it, TTL replies -1 forever. */
  lemma PersistThenTtl(st: Server, args: seq<string>, ctx: Context, events: seq<Event>,
                       query: seq<string>, ctx1: Context)
    requires CommandOf(st.commands, args) == Some(PERSIST) && |args| == 2
    requires Lookup(st.db, args[1], ctx.now).Some?
    requires ctx.now <= ctx.later && Quiet(st.commands, events, args[1]) && Ordered(events, ctx.later)
    requires EndTime(events, ctx.later) <= ctx1.now
    requires CommandOf(st.commands, query) == Some(TTL) && |query| == 2 && query[1] == args[1]
    ensures Process(Final(Process(st, args, ctx).server, events), query, ctx1).reply == Number(-1)
  {
    PersistClears(st, args, ctx, Lookup(st.db, args[1], ctx.now).value);
    OrderedEnds(events, ctx.later);
    ReplyAfterQuietRun(st, args, ctx, events, query, ctx1);
    hide Process, Final, CommandOf, Quiet;
  }

  // ----- writers of strings and the expiry -----

  predicate RewritesString(c: Command) {
    c in {APPEND, INCR, DECR, INCRBY, DECRBY}
  }

  /** A number and a fresh string, or a refusal. */
  ghost predicate Rewrites(a: Action) {
    if a.reply.Number? then a.effect.Put? && a.effect.value == OfString(a.effect.value.text) else a.effect == Keep
  }

  ghost predicate PlanRewrites(p: Plan) {
    p.Touch? ==> forall cur :: Rewrites(p.act(cur))
  }

  lemma AddRewrites(cur: Option<RedisValue>, delta: int)
    ensures Rewrites(SC.Add(cur, delta))
  {
    hide ToString, IntegerText, ParseInt, Wrap64;
  }

  lemma PlansRewrite(args: seq<string>)
    ensures PlanRewrites(SC.Append(args)) && PlanRewrites(SC.Incr(args)) && PlanRewrites(SC.Decr(args))
    ensures PlanRewrites(SC.IncrBy(args)) && PlanRewrites(SC.DecrBy(args))
  {
    hide IntegerText, ParseInt, SC.Add;
    forall cur, delta ensures Rewrites(SC.Add(cur, delta)) {
      AddRewrites(cur, delta);
    }
  }

  lemma RewriteAction(c: Command, args: seq<string>, ctx: Context)
    requires RewritesString(c)
    ensures KeyPlan(c, args, ctx).Some? && PlanRewrites(KeyPlan(c, args, ctx).value)
  {
    hide PlanRewrites, SC.Append, SC.Incr, SC.Decr, SC.IncrBy, SC.DecrBy;
    PlansRewrite(args);
  }

  /** APPEND and the counters, when they reply a number, leave a string without expiry, whatever
      expiry there was; when they refuse, what is seen under the key stays as it is. */
  lemma RewriteStores(c: Command, st: Server, args: seq<string>, ctx: Context, t: int)
    requires CommandOf(st.commands, args) == Some(c) && RewritesString(c) && |args| > 1 && ctx.now <= t
    ensures var a := Process(st, args, ctx);
            var after := Lookup(a.server.db, args[1], t);
            if a.reply.Number? then after.Some? && !after.value.hasExpiry && after.value.kind == STRING
            else after == Lookup(st.db, args[1], t)
  {
    hide ToUpper, KeyPlan, Other;
    var st1 := Tick(st, ctx.now);
    RewriteAction(c, args, ctx);
    var p := KeyPlan(c, args, ctx).value;
    if p.Touch? {
      PlanKey(c, args, ctx);
      assert Rewrites(p.act(Lookup(st1.db, args[1], ctx.now)));
    }
  }

  /** An expiry survives them exactly when they refuse; a key without one never gets one. */
  lemma ExpiryKeptWhenRefused(c: Command, st: Server, args: seq<string>, ctx: Context)
    requires CommandOf(st.commands, args) == Some(c) && RewritesString(c) && |args| > 1
    ensures var a := Process(st, args, ctx);
            ExpiryOf(Lookup(a.server.db, args[1], ctx.now)) == ExpiryOf(Lookup(st.db, args[1], ctx.now)) <==>
              !a.reply.Number? || ExpiryOf(Lookup(st.db, args[1], ctx.now)).None?
  {
    RewriteStores(c, st, args, ctx, ctx.now);
    hide Process, Lookup, CommandOf, RewritesString;
  }

  /** So after one of them has replied a number TTL is -1, at any later time, as long as nothing
      writes the key: the expiry it had before does not come back. */
  lemma RewriteThenTtl(c: Command, st: Server, args: seq<string>, ctx: Context, events: seq<Event>,
                       query: seq<string>, ctx1: Context)
    requires CommandOf(st.commands, args) == Some(c) && RewritesString(c) && |args| > 1
    requires Process(st, args, ctx).reply.Number?
    requires ctx.now <= ctx.later && Quiet(st.commands, events, args[1]) && Ordered(events, ctx.later)
    requires EndTime(events, ctx.later) <= ctx1.now
    requires CommandOf(st.commands, query) == Some(TTL) && |query| == 2 && query[1] == args[1]
    ensures Process(Final(Process(st, args, ctx).server, events), query, ctx1).reply == Number(-1)
  {
    OrderedEnds(events, ctx.later);
    RewriteStores(c, st, args, ctx, ctx1.now);
    ReplyAfterQuietRun(st, args, ctx, events, query, ctx1);
    hide Process, Final, Lookup, CommandOf, Quiet, RewritesString;
  }
}
