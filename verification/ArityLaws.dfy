/** Which calls are refused whatever the database holds: those with the wrong number of arguments, and
    those with a text where a number is asked for. */
module ArityLaws {
  import opened Text
  import opened Decimal
  import opened RedisValue
  import opened RedisDatabase
  import opened Replies
  import opened CommandPlan
  import opened GlobRegex
  import opened CommandHandler
  import opened ClientView
  import SC = StringCommands
  import LC = ListCommands
  import EC = SetCommands
  import HC = HashCommands
  import TC = TtlCommands
  import VC = ServerCommands

  /** The numbers of arguments a command takes, its own name counted. */
  predicate Takes(c: Command, n: nat) {
    if c in {DBSIZE, TIME} then n == 1
    else if c in {PING, FLUSHALL} then n <= 2
    else if c in {GET, TYPE, INCR, DECR, STRLEN, LPOP, RPOP, LLEN, SCARD, SMEMBERS, SPOP, HLEN, HKEYS, HVALS, HGETALL,
                  TTL, PERSIST, ECHO, KEYS} then n == 2
    else if c in {DEL, EXISTS, MGET} then n >= 2
    else if c in {INCRBY, DECRBY, APPEND, LINDEX, SISMEMBER, HGET, HEXISTS, EXPIRE, EXPIREAT} then n == 3
    else if c in {Command.SET, LPUSH, RPUSH, SADD, SREM, HDEL} then n >= 3
    else if c in {LRANGE, LSET} then n == 4
    else if c == MSET then n >= 3 && n % 2 == 1
    else if c == HSET then n >= 4 && n % 2 == 0
    else true
  }

  /** Where a number is asked for, the argument is the text of one. */
  predicate NumbersGiven(c: Command, args: seq<string>)
    requires Takes(c, |args|)
  {
    && (c in {INCRBY, DECRBY, LINDEX, LSET, LRANGE, EXPIRE, EXPIREAT} ==> IntegerText(args[2]))
    && (c == LRANGE ==> IntegerText(args[3]))
  }

  /** A plan refuses exactly the wrong calls, and otherwise is about its first argument. */
  ghost predicate Checks(p: Plan, c: Command, args: seq<string>) {
    if !Takes(c, |args|) then p == Refuse(WrongArgs(c))
    else if !NumbersGiven(c, args) then p == Refuse(NotInteger)
    else p.Touch? && |args| > 1 && p.key == args[1] && forall cur :: p.act(cur).reply != Failure(WrongArgs(c))
  }

  lemma StringsCheck(args: seq<string>)
    ensures Checks(SC.Get(args), GET, args) && Checks(SC.Type(args), TYPE, args)
    ensures Checks(SC.Strlen(args), STRLEN, args) && Checks(SC.Append(args), APPEND, args)
  {
    hide SC.TypeName, IntegerText;
  }

  lemma CountersCheck(args: seq<string>)
    ensures Checks(SC.Incr(args), INCR, args) && Checks(SC.Decr(args), DECR, args)
    ensures Checks(SC.IncrBy(args), INCRBY, args) && Checks(SC.DecrBy(args), DECRBY, args)
  {
    hide IntegerText, ParseInt, ToString, Wrap64;
  }

  lemma EndsCheck(args: seq<string>)
    ensures Checks(LC.Lpush(args), LPUSH, args) && Checks(LC.Rpush(args), RPUSH, args)
    ensures Checks(LC.Lpop(args), LPOP, args) && Checks(LC.Rpop(args), RPOP, args)
  {
    hide LC.Reverse, IntegerText;
  }

  lemma ListsCheck(args: seq<string>)
    ensures Checks(LC.Llen(args), LLEN, args) && Checks(LC.Lindex(args), LINDEX, args)
  {
    hide IntegerText, ParseInt;
  }

  lemma RangesCheck(args: seq<string>)
    ensures Checks(LC.Lrange(args), LRANGE, args)
  {
    hide IntegerText, ParseInt, LC.ClampedSlice;
  }

  lemma PlacesCheck(args: seq<string>)
    ensures Checks(LC.Lset(args), LSET, args)
  {
    hide IntegerText, ParseInt;
  }

  lemma SetsCheck(args: seq<string>, pick: string)
    ensures Checks(EC.Sadd(args), SADD, args) && Checks(EC.Srem(args), SREM, args)
    ensures Checks(EC.Spop(args, pick), SPOP, args)
  {
    hide EC.MembersIn, EC.Left, IntegerText;
  }

  lemma MembersCheck(args: seq<string>)
    ensures Checks(EC.Sismember(args), SISMEMBER, args) && Checks(EC.Scard(args), SCARD, args)
    ensures Checks(EC.Smembers(args), SMEMBERS, args)
  {
    hide IntegerText;
  }

  lemma HashesCheck(args: seq<string>)
    ensures Checks(HC.Hset(args), HSET, args) && Checks(HC.Hget(args), HGET, args) && Checks(HC.Hdel(args), HDEL, args)
  {
    hide HC.AllStored, HC.CountNew, HC.AllErased, HC.CountOld, IntegerText;
  }

  lemma FieldsCheck(args: seq<string>)
    ensures Checks(HC.Hexists(args), HEXISTS, args) && Checks(HC.Hlen(args), HLEN, args)
  {
    hide IntegerText;
  }

  lemma ListingsCheck(c: Command, args: seq<string>, part: Part)
    requires c in {HKEYS, HVALS, HGETALL}
    ensures Checks(HC.ListHash(c, args, part), c, args)
  {
    hide IntegerText;
  }

  lemma ExpiriesCheck(args: seq<string>, later: int)
    ensures Checks(TC.Expire(args, later), EXPIRE, args) && Checks(TC.Expireat(args, later), EXPIREAT, args)
    ensures Checks(TC.Ttl(args, later), TTL, args) && Checks(TC.Persist(args), PERSIST, args)
  {
    hide IntegerText, ParseInt, SecondsToMs, TC.FromTimeT, TC.SecondsLeft, Wrap64;
  }

  lemma PlansCheck(c: Command, args: seq<string>, ctx: Context)
    ensures KeyPlan(c, args, ctx).Some? ==> Checks(KeyPlan(c, args, ctx).value, c, args)
  {
    hide Checks, SC.Get, SC.Type, SC.Strlen, SC.Append, SC.Incr, SC.Decr, SC.IncrBy, SC.DecrBy, TC.Expire,
      TC.Expireat, TC.Ttl, TC.Persist, LC.Lpush, LC.Rpush, LC.Lpop, LC.Rpop, LC.Llen, LC.Lrange, LC.Lindex,
      LC.Lset, EC.Sadd, EC.Srem, EC.Sismember, EC.Scard, EC.Smembers, EC.Spop, HC.Hset, HC.Hget, HC.Hdel,
      HC.Hexists, HC.Hlen, HC.ListHash;
    StringsCheck(args);
    CountersCheck(args);
    EndsCheck(args);
    ListsCheck(args);
    RangesCheck(args);
    PlacesCheck(args);
    SetsCheck(args, ctx.pick);
    MembersCheck(args);
    HashesCheck(args);
    FieldsCheck(args);
    if c in {HKEYS, HVALS, HGETALL} {
      ListingsCheck(c, args, if c == HKEYS then KeysOnly else if c == HVALS then ValuesOnly else Both);
    }
    ExpiriesCheck(args, ctx.later);
  }

  lemma SetChecks(d: Db, args: seq<string>, now: int, later: int)
    ensures SC.Set(d, args, now, later).reply == Failure(WrongArgs(Command.SET)) <==> |args| < 3
  {
    hide SC.ReadOptions, SC.Blocked, SC.Conditional, SC.WithExpiry, Lookup, Purge;
  }

  lemma KeysCheck(d: Db, args: seq<string>, now: int)
    ensures SC.Del(d, args).reply == Failure(WrongArgs(DEL)) <==> |args| < 2
    ensures SC.Exists(d, args, now).reply == Failure(WrongArgs(EXISTS)) <==> |args| < 2
    ensures SC.Mget(d, args, now).reply == Failure(WrongArgs(MGET)) <==> |args| < 2
    ensures SC.Mset(d, args).reply == Failure(WrongArgs(MSET)) <==> !(|args| >= 3 && |args| % 2 == 1)
  {
    hide SC.KeysOf, SC.WithoutKeys, SC.CountStored, SC.CountLive, SC.PutPairs, SC.TextOf, PurgeAll;
  }

  lemma ServerChecks(d: Db, args: seq<string>, now: int, engine: Engine)
    ensures VC.Ping(args) == Failure(WrongArgs(PING)) <==> |args| > 2
    ensures VC.Echo(args) == Failure(WrongArgs(ECHO)) <==> |args| != 2
    ensures VC.Flushall(d, args).reply == Failure(WrongArgs(FLUSHALL)) <==> |args| > 2
    ensures VC.KeysReply(d, args, now, engine) == Failure(WrongArgs(KEYS)) <==> |args| != 2
    ensures VC.Dbsize(d, args, now).reply == Failure(WrongArgs(DBSIZE)) <==> |args| != 1
    ensures VC.Time(args, now) == Failure(WrongArgs(TIME)) <==> |args| != 1
  {
    hide ToString, TruncMod, TruncDiv, Live, Found, Translate;
  }

  lemma KeylessOnly(c: Command, args: seq<string>, ctx: Context)
    requires KeyPlan(c, args, ctx).None?
    ensures c in {Command.SET, DEL, EXISTS, MGET, MSET, PING, ECHO, INFO, FLUSHALL, KEYS, DBSIZE, TIME}
  {
  }

  /** Among the other commands exactly those given the wrong number of arguments say so. */
  ghost predicate SaysSo(r: Reply, c: Command, n: nat) {
    r == Failure(WrongArgs(c)) <==> !Takes(c, n)
  }

  lemma WritersCheck(d: Db, args: seq<string>, now: int, later: int)
    ensures SaysSo(SC.Set(d, args, now, later).reply, Command.SET, |args|)
    ensures SaysSo(SC.Del(d, args).reply, DEL, |args|)
    ensures SaysSo(SC.Mset(d, args).reply, MSET, |args|)
    ensures SaysSo(SC.Exists(d, args, now).reply, EXISTS, |args|)
    ensures SaysSo(SC.Mget(d, args, now).reply, MGET, |args|)
  {
    hide SC.Set, SC.Del, SC.Exists, SC.Mget, SC.Mset;
    SetChecks(d, args, now, later);
    KeysCheck(d, args, now);
  }

  lemma ServerSaysSo(st: Server, args: seq<string>, now: int, engine: Engine)
    ensures SaysSo(VC.Ping(args), PING, |args|) && SaysSo(VC.Echo(args), ECHO, |args|)
    ensures SaysSo(VC.Flushall(st.db, args).reply, FLUSHALL, |args|)
    ensures SaysSo(VC.KeysReply(st.db, args, now, engine), KEYS, |args|)
    ensures SaysSo(VC.Dbsize(st.db, args, now).reply, DBSIZE, |args|)
    ensures SaysSo(VC.Time(args, now), TIME, |args|)
    ensures SaysSo(VC.Info(|st.db|, st.start, st.total, now), INFO, |args|)
  {
    hide VC.Ping, VC.Echo, VC.Flushall, VC.KeysReply, VC.Dbsize, VC.Time, VC.InfoHead, VC.Uptime, ToString;
    ServerChecks(st.db, args, now, engine);
  }

  lemma OthersCheck(c: Command, args: seq<string>, st: Server, ctx: Context)
    requires KeyPlan(c, args, ctx).None?
    ensures SaysSo(Other(c, args, st, ctx).reply, c, |args|)
  {
    hide SC.Set, SC.Del, SC.Exists, SC.Mget, SC.Mset, VC.Ping, VC.Echo, VC.Flushall, VC.KeysReply, VC.Dbsize,
      VC.Time, VC.Info, SaysSo, Takes;
    KeylessOnly(c, args, ctx);
    hide KeyPlan;
    WritersCheck(st.db, args, ctx.now, ctx.later);
    ServerSaysSo(st, args, ctx.now, ctx.engine);
  }

  /** A command is told off for the number of its arguments exactly when it does not take that many. */
  lemma ArityExactly(c: Command, st: Server, args: seq<string>, ctx: Context)
    requires CommandOf(st.commands, args) == Some(c)
    ensures Process(st, args, ctx).reply == Failure(WrongArgs(c)) <==> !Takes(c, |args|)
  {
    hide KeyPlan, CommandOf, Process, Tick, Other, Takes, ReplyTo, Checks;
    match KeyPlan(c, args, ctx)
    case Some(p) =>
      PlansCheck(c, args, ctx);
      KeyCommand(st, args, ctx, p, "", ctx.now);
      CheckedReply(p, c, args, st.db, ctx.now);
    case None =>
      OtherCommand(st, args, ctx);
      OthersCheck(c, args, Tick(st, ctx.now), ctx);
  }

  lemma CheckedReply(p: Plan, c: Command, args: seq<string>, d: Db, now: int)
    requires Checks(p, c, args)
    ensures ReplyTo(p, d, now) == Failure(WrongArgs(c)) <==> !Takes(c, |args|)
    ensures Takes(c, |args|) && !NumbersGiven(c, args) ==> p == Refuse(NotInteger)
  {
    hide Takes, NumbersGiven, Lookup;
  }

  /** With the right number of arguments but no number where one is asked for it replies that, and
      nothing a client sees changes. */
  lemma NumbersExpected(c: Command, st: Server, args: seq<string>, ctx: Context, key: string, t: int)
    requires CommandOf(st.commands, args) == Some(c) && Takes(c, |args|) && !NumbersGiven(c, args) && ctx.now <= t
    ensures Process(st, args, ctx).reply == Failure(NotInteger)
    ensures ViewAt(Process(st, args, ctx).server.db, key, t) == ViewAt(st.db, key, t)
  {
    WithNumber(c, args, ctx);
    hide KeyPlan, CommandOf, Process, Takes, NumbersGiven, Checks;
    PlansCheck(c, args, ctx);
    var p := KeyPlan(c, args, ctx).value;
    CheckedReply(p, c, args, st.db, ctx.now);
    KeyCommand(st, args, ctx, p, key, t);
  }

  lemma WithNumber(c: Command, args: seq<string>, ctx: Context)
    requires Takes(c, |args|) && !NumbersGiven(c, args)
    ensures KeyPlan(c, args, ctx).Some?
  {
    hide IntegerText;
  }
}
