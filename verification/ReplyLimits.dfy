/** What has to be small for a reply to be within the parser's limits: the entries a command finds
    and the arguments it is given. Whether it will be is known before the command runs. */
module ReplyLimits {
  import opened Text
  import opened Decimal
  import opened RedisValue
  import opened RedisDatabase
  import opened RespFormatter
  import opened Replies
  import opened CommandPlan
  import opened GlobRegex
  import opened CommandHandler
  import opened Runs
  import opened ArgumentSets
  import opened ReplyFraming
  import SC = StringCommands
  import LC = ListCommands
  import EC = SetCommands
  import HC = HashCommands
  import TC = TtlCommands
  import VC = ServerCommands
  import CC = ClientConnection

  predicate SmallEntry(v: RedisValue) {
    && Short(v.text)
    && |v.list| <= 1000 && AllShort(v.list)
    && |v.members| <= 1000 && (forall x :: x in v.members ==> Short(x))
    && |v.fields| * 2 <= 1000 && (forall k :: k in v.fields ==> Short(k) && Short(v.fields[k]))
  }

  ghost predicate SmallDb(d: Db) {
    |d| <= 1000 && forall k :: k in d ==> Short(k) && SmallEntry(d[k])
  }

  /** std::regex reports errors in texts without terminator. */
  ghost predicate PlainErrors(engine: Engine) {
    forall text :: engine(text).Throws? ==> NoCRLF(engine(text).what)
  }

  /** A request that a server can answer within the limits. */
  ghost predicate SmallRequest(st: Server, args: seq<string>, ctx: Context) {
    && SmallDb(st.db) && FitsParser(args)
    && InInt64(st.total + 1) && InInt64(ctx.now) && PlainErrors(ctx.engine)
    && (args != [] && CommandOf(st.commands, args).None? ==> NoCRLF(args[0]))
  }

  ghost predicate SmallOption(cur: Option<RedisValue>) {
    cur.Some? ==> SmallEntry(cur.value)
  }

  /** A command on one key that finds `cur` replies within the limits. */
  ghost predicate PlanFits(p: Plan, cur: Option<RedisValue>) {
    match p
    case Refuse(problem) => FitsReply(Failure(problem))
    case Touch(_, act) => FitsReply(act(cur).reply)
  }

  // ----- counts -----

  lemma {:induction false} FewDifferent(args: seq<string>, lo: nat)
    ensures |ArgsFrom(args, lo)| <= |args|
  {
    if |args| <= lo {
      assert ArgsFrom(args, lo) == {};
    } else {
      var n := |args| - 1;
      FewDifferent(args[..n], lo);
      ArgsFromSnoc(args, lo, n);
      assert args[..n + 1] == args;
    }
  }

  lemma {:induction false} FewFields(args: seq<string>)
    ensures |HC.FieldsIn(args)| <= |args|
  {
    if |args| >= 4 {
      var n := |args| - 2;
      FewFields(args[..n]);
      assert HC.FieldsIn(args).Keys == HC.FieldsIn(args[..n]).Keys + {args[n]};
    }
  }

  lemma {:induction false} FewLive(d: Db, args: seq<string>, now: int)
    ensures SC.CountLive(d, args, now) <= |args|
  {
    if |args| >= 2 {
      FewLive(d, args[..|args| - 1], now);
    }
  }

  function Pow10(k: nat): nat {
    if k == 0 then 1 else 10 * Pow10(k - 1)
  }

  lemma {:induction false} DigitsFit(n: nat, k: nat)
    requires n < Pow10(k) && k > 0
    ensures |Digits(n)| <= k
  {
    assert Pow10(1) == 10;
    if n >= 10 {
      DigitsFit(n / 10, k - 1);
    }
  }

  lemma NumbersAreShort(n: int)
    requires InInt64(n)
    ensures |ToString(n)| <= 21
  {
    assert Pow10(5) == 100_000;
    assert Pow10(10) == 10_000_000_000 by {
      assert Pow10(10) == 100_000 * Pow10(5);
    }
    assert Pow10(15) == 1_000_000_000_000_000 by {
      assert Pow10(15) == 100_000 * Pow10(10);
    }
    assert Pow10(20) == 100_000_000_000_000_000_000 by {
      assert Pow10(20) == 100_000 * Pow10(15);
    }
    DigitsFit(if n < 0 then -n else n, 20);
  }

  // ----- commands on one key -----

  lemma ConstantsFit(text: string, n: int)
    ensures forall c :: FitsReply(Failure(WrongArgs(c)))
    ensures FitsReply(Failure(WrongType)) && FitsReply(Failure(NotInteger)) && FitsReply(Failure(NoSuchKey))
    ensures FitsReply(Nil) && FitsReply(Status(text)) && FitsReply(Items([]))
    ensures InInt64(n) ==> FitsReply(Number(n))
  {
  }

  lemma TextFits(cur: Option<RedisValue>)
    requires SmallOption(cur) && cur.Some?
    ensures FitsReply(Bulk(cur.value.text)) && |cur.value.text| <= 1_048_576
  {
  }

  lemma ReadStringsFit(args: seq<string>, cur: Option<RedisValue>)
    requires SmallOption(cur)
    ensures PlanFits(SC.Get(args), cur) && PlanFits(SC.Type(args), cur) && PlanFits(SC.Strlen(args), cur)
  {
    hide FitsReply, SmallOption, SC.TypeName;
    ConstantsFit("none", 0);
    if cur.Some? {
      TextFits(cur);
      ConstantsFit(SC.TypeName(cur.value.kind), |cur.value.text|);
    }
  }

  lemma AppendFits(args: seq<string>, cur: Option<RedisValue>)
    requires SmallOption(cur) && FitsParser(args)
    ensures PlanFits(SC.Append(args), cur)
  {
    hide FitsReply, SmallOption;
    ConstantsFit("", 0);
    if |args| == 3 {
      var before := if cur.Some? && cur.value.kind == STRING then cur.value.text else "";
      if cur.Some? {
        TextFits(cur);
      }
      ConstantsFit("", |before + args[2]|);
    }
  }

  lemma AddFits(cur: Option<RedisValue>, delta: int)
    ensures FitsReply(SC.Add(cur, delta).reply)
  {
    hide IntegerText, ParseInt, ToString;
  }

  lemma CountersFit(args: seq<string>, cur: Option<RedisValue>)
    ensures PlanFits(SC.Incr(args), cur) && PlanFits(SC.Decr(args), cur)
    ensures PlanFits(SC.IncrBy(args), cur) && PlanFits(SC.DecrBy(args), cur)
  {
    hide FitsReply, SC.Add, IntegerText, ParseInt;
    ConstantsFit("", 0);
    AddFits(cur, 1);
    AddFits(cur, -1);
    if |args| == 3 {
      AddFits(cur, ParseInt(args[2]));
      AddFits(cur, -ParseInt(args[2]));
    }
  }

  lemma SecondsLeftFits(cur: Option<RedisValue>, later: int)
    ensures InInt64(TC.SecondsLeft(cur, later))
  {
    if cur.Some? {
      var n := Wrap64(cur.value.expiry - later);
      assert InInt64(TruncDiv(n, TC.NS_PER_SECOND));
    }
  }

  lemma ExpiriesFit(args: seq<string>, later: int, cur: Option<RedisValue>)
    ensures PlanFits(TC.Expire(args, later), cur) && PlanFits(TC.Expireat(args, later), cur)
    ensures PlanFits(TC.Ttl(args, later), cur) && PlanFits(TC.Persist(args), cur)
  {
    hide FitsReply, IntegerText, ParseInt, TC.SecondsLeft, TC.FromTimeT, SecondsToMs, Wrap64;
    ConstantsFit("", 0);
    ConstantsFit("", 1);
    SecondsLeftFits(cur, later);
    ConstantsFit("", TC.SecondsLeft(cur, later));
  }

  lemma PushFits(cur: Option<RedisValue>, front: seq<string>, back: seq<string>)
    requires SmallOption(cur) && |front| + |back| <= 1000
    ensures FitsReply(LC.Push(cur, front, back).reply)
  {
  }

  lemma PopFits(cur: Option<RedisValue>)
    requires SmallOption(cur)
    ensures FitsReply(LC.PopFront(cur).reply) && FitsReply(LC.PopBack(cur).reply)
  {
  }

  lemma PushesFit(args: seq<string>, cur: Option<RedisValue>)
    requires SmallOption(cur) && FitsParser(args)
    ensures PlanFits(LC.Lpush(args), cur) && PlanFits(LC.Rpush(args), cur)
    ensures PlanFits(LC.Lpop(args), cur) && PlanFits(LC.Rpop(args), cur)
  {
    hide FitsReply, SmallOption, LC.Push, LC.PopFront, LC.PopBack, LC.Reverse;
    ConstantsFit("", 0);
    PopFits(cur);
    if |args| >= 3 {
      LC.ReverseLength(args[2..]);
      PushFits(cur, LC.Reverse(args[2..]), []);
      PushFits(cur, [], args[2..]);
    }
  }

  lemma ListFits(v: RedisValue, start: int, end: int)
    requires SmallEntry(v)
    ensures FitsReply(Items(LC.ClampedSlice(v.list, start, end))) && FitsReply(LC.Element(v, start))
    ensures FitsReply(Number(|v.list|))
  {
  }

  lemma ReplaceFits(v: RedisValue, i: int, element: string)
    ensures FitsReply(LC.Replace(v, i, element).reply)
  {
  }

  lemma ListsFit(args: seq<string>, cur: Option<RedisValue>)
    requires SmallOption(cur)
    ensures PlanFits(LC.Llen(args), cur) && PlanFits(LC.Lrange(args), cur)
    ensures PlanFits(LC.Lindex(args), cur) && PlanFits(LC.Lset(args), cur)
  {
    hide FitsReply, SmallEntry, LC.ClampedSlice, LC.Element, LC.Replace, IntegerText, ParseInt;
    ConstantsFit("", 0);
    if cur.Some? {
      ListFits(cur.value, 0, 0);
      if |args| == 3 {
        ListFits(cur.value, ParseInt(args[2]), 0);
      }
      if |args| == 4 {
        ListFits(cur.value, ParseInt(args[2]), ParseInt(args[3]));
        ReplaceFits(cur.value, ParseInt(args[2]), args[3]);
      }
    }
  }

  lemma SaddFits(args: seq<string>, cur: Option<RedisValue>)
    requires FitsParser(args)
    ensures PlanFits(EC.Sadd(args), cur)
  {
    hide FitsReply, EC.MembersIn;
    var given, before := EC.MembersIn(args), if cur.Some? then cur.value.members else {};
    FewMembers(args);
    SubsetSize(given - before, given);
    ConstantsFit("", |given - before|);
  }

  lemma FewMembers(args: seq<string>)
    ensures |EC.MembersIn(args)| <= |args|
  {
    FewDifferent(args, 2);
  }

  lemma MembersFit(v: RedisValue, given: set<string>, x: string)
    requires SmallEntry(v)
    ensures FitsReply(Number(|v.members * given|)) && FitsReply(Number(|v.members|)) && FitsReply(Members(v.members))
    ensures x in v.members ==> FitsReply(Bulk(x))
  {
    SubsetSize(v.members * given, v.members);
  }

  lemma SetsFit(args: seq<string>, pick: string, cur: Option<RedisValue>)
    requires SmallOption(cur)
    ensures PlanFits(EC.Srem(args), cur) && PlanFits(EC.Sismember(args), cur) && PlanFits(EC.Scard(args), cur)
    ensures PlanFits(EC.Smembers(args), cur) && PlanFits(EC.Spop(args, pick), cur)
  {
    hide FitsReply, SmallEntry, EC.MembersIn, EC.Left;
    ConstantsFit("", 0);
    ConstantsFit("", 1);
    if cur.Some? {
      MembersFit(cur.value, EC.MembersIn(args), pick);
    }
  }

  lemma FewNew(before: map<string, string>, args: seq<string>)
    ensures HC.CountNew(before, args) <= |args|
  {
    FewFields(args);
    hide HC.FieldsIn;
    SubsetSize(HC.FieldsIn(args).Keys - before.Keys, HC.FieldsIn(args).Keys);
  }

  lemma StoreFits(cur: Option<RedisValue>, args: seq<string>)
    requires |args| <= 1000
    ensures FitsReply(HC.PutFields(cur, args).reply)
  {
    hide HC.CountNew, HC.AllStored;
    FewNew(if cur.Some? then cur.value.fields else map[], args);
  }

  lemma FieldsFit(v: RedisValue, args: seq<string>, x: string)
    requires SmallEntry(v)
    ensures FitsReply(HC.RemoveFields(v, args).reply) && FitsReply(Number(|v.fields|))
    ensures forall part :: FitsReply(Fields(v.fields, part))
    ensures x in v.fields ==> FitsReply(Bulk(v.fields[x]))
  {
    hide HC.FieldNames, HC.AllErased;
    SubsetSize(v.fields.Keys * HC.FieldNames(args), v.fields.Keys);
  }

  lemma HashesFit(args: seq<string>, cur: Option<RedisValue>)
    requires SmallOption(cur) && FitsParser(args)
    ensures PlanFits(HC.Hset(args), cur) && PlanFits(HC.Hget(args), cur) && PlanFits(HC.Hdel(args), cur)
    ensures PlanFits(HC.Hexists(args), cur) && PlanFits(HC.Hlen(args), cur)
    ensures forall c, part :: PlanFits(HC.ListHash(c, args, part), cur)
  {
    hide FitsReply, SmallEntry, HC.PutFields, HC.RemoveFields;
    ConstantsFit("", 0);
    ConstantsFit("", 1);
    StoreFits(cur, args);
    if cur.Some? {
      FieldsFit(cur.value, args, if |args| == 3 then args[2] else "");
    }
  }

  /** A command on one key replies within the limits when the entry it finds is small. */
  lemma PlansFit(c: Command, args: seq<string>, ctx: Context, cur: Option<RedisValue>)
    requires FitsParser(args) && SmallOption(cur) && KeyPlan(c, args, ctx).Some?
    ensures PlanFits(KeyPlan(c, args, ctx).value, cur)
  {
    hide PlanFits, SmallOption, SC.Get, SC.Type, SC.Strlen, SC.Append, SC.Incr, SC.Decr, SC.IncrBy, SC.DecrBy,
      TC.Expire, TC.Expireat, TC.Ttl, TC.Persist, LC.Lpush, LC.Rpush, LC.Lpop, LC.Rpop, LC.Llen, LC.Lrange,
      LC.Lindex, LC.Lset, EC.Sadd, EC.Srem, EC.Sismember, EC.Scard, EC.Smembers, EC.Spop, HC.Hset, HC.Hget,
      HC.Hdel, HC.Hexists, HC.Hlen, HC.ListHash;
    ReadStringsFit(args, cur);
    AppendFits(args, cur);
    CountersFit(args, cur);
    ExpiriesFit(args, ctx.later, cur);
    PushesFit(args, cur);
    ListsFit(args, cur);
    SaddFits(args, cur);
    SetsFit(args, ctx.pick, cur);
    HashesFit(args, cur);
  }

  // ----- the other commands -----

  lemma SetReplyFits(d: Db, args: seq<string>, now: int, later: int)
    ensures FitsReply(SC.Set(d, args, now, later).reply)
  {
    hide SC.ReadOptions, SC.Blocked, SC.Conditional, SC.WithExpiry, Lookup, Purge;
  }

  lemma DelFits(d: Db, args: seq<string>)
    requires |d| <= 1000
    ensures FitsReply(SC.Del(d, args).reply)
  {
    hide SC.KeysOf, SC.WithoutKeys;
    SubsetSize(d.Keys * SC.KeysOf(args), d.Keys);
  }

  lemma ExistsFits(d: Db, args: seq<string>, now: int)
    requires FitsParser(args)
    ensures FitsReply(SC.Exists(d, args, now).reply)
  {
    hide SC.KeysOf, SC.CountLive, PurgeAll;
    FewLive(d, args, now);
  }

  lemma DbsizeFits(d: Db, args: seq<string>, now: int)
    requires |d| <= 1000
    ensures FitsReply(VC.Dbsize(d, args, now).reply)
  {
    assert Live(d, now).Keys <= d.Keys;
    hide Live;
    SubsetSize(Live(d, now).Keys, d.Keys);
  }

  lemma EchoesFit(args: seq<string>)
    requires FitsParser(args)
    ensures FitsReply(VC.Ping(args)) && FitsReply(VC.Echo(args))
  {
  }

  lemma WritesFit(d: Db, args: seq<string>)
    ensures FitsReply(SC.Mset(d, args).reply) && FitsReply(VC.Flushall(d, args).reply)
  {
    hide SC.PutPairs;
  }

  lemma MgetFits(d: Db, args: seq<string>, now: int)
    requires SmallDb(d) && FitsParser(args)
    ensures FitsReply(SC.Mget(d, args, now).reply)
  {
    hide SC.KeysOf, PurgeAll;
    forall k ensures Short(SC.TextOf(Lookup(d, k, now))) {
    }
    hide SC.TextOf, Lookup;
  }

  lemma KeysFit(d: Db, args: seq<string>, now: int, engine: Engine)
    requires SmallDb(d) && PlainErrors(engine)
    ensures FitsReply(VC.KeysReply(d, args, now, engine))
  {
    hide SmallEntry, Translate, NoCRLF;
    if |args| == 2 && engine(Translate(args[1])).Language? {
      var names := Found(d, engine(Translate(args[1])).matches, now);
      assert names <= d.Keys;
      SubsetSize(names, d.Keys);
    }
  }

  lemma InfoFits(stored: nat, start: int, total: nat, now: int)
    requires InInt64(stored) && InInt64(total)
    ensures FitsReply(VC.Info(stored, start, total, now))
  {
    NumbersAreShort(stored);
    NumbersAreShort(total);
    assert InInt64(VC.Uptime(start, now));
    NumbersAreShort(VC.Uptime(start, now));
    hide ToString, VC.Uptime;
  }

  lemma TimeFits(args: seq<string>, now: int)
    requires InInt64(now)
    ensures FitsReply(VC.Time(args, now))
  {
    var us := TruncMod(TruncDiv(now, 1000), 1_000_000);
    VC.ClockParts(now);
    NumbersAreShort(TruncDiv(now, TC.NS_PER_SECOND));
    NumbersAreShort(us);
    hide ToString, TruncDiv, TruncMod;
  }

  lemma OtherRepliesFit(c: Command, args: seq<string>, st: Server, ctx: Context)
    requires SmallDb(st.db) && FitsParser(args) && InInt64(st.total) && InInt64(ctx.now) && PlainErrors(ctx.engine)
    requires KeyPlan(c, args, ctx).None?
    ensures FitsReply(Other(c, args, st, ctx).reply)
  {
    hide FitsReply, SmallEntry, KeyPlan, SC.Set, SC.Del, SC.Exists, SC.Mget, SC.Mset, VC.Ping, VC.Echo,
      VC.Info, VC.Flushall, VC.KeysReply, VC.Dbsize, VC.Time;
    SetReplyFits(st.db, args, ctx.now, ctx.later);
    DelFits(st.db, args);
    ExistsFits(st.db, args, ctx.now);
    MgetFits(st.db, args, ctx.now);
    WritesFit(st.db, args);
    EchoesFit(args);
    InfoFits(|st.db|, st.start, st.total, ctx.now);
    KeysFit(st.db, args, ctx.now, ctx.engine);
    DbsizeFits(st.db, args, ctx.now);
    TimeFits(args, ctx.now);
  }

  /** A small request has a reply within the limits. */
  lemma SmallRequestsFit(st: Server, args: seq<string>, ctx: Context)
    requires SmallRequest(st, args, ctx)
    ensures FitsReply(Process(st, args, ctx).reply)
  {
    hide FitsReply, SmallEntry, NoCRLF, ToUpper, KeyPlan, Other;
    if args == [] || CommandOf(st.commands, args).None? {
      ProblemsFit(args);
    } else {
      var c, st1 := CommandOf(st.commands, args).value, Tick(st, ctx.now);
      var p := KeyPlan(c, args, ctx);
      SmallTick(st, ctx.now);
      if p.Some? {
        var cur := if p.value.Touch? then Lookup(st1.db, p.value.key, ctx.now) else None;
        PlansFit(c, args, ctx, cur);
      } else {
        OtherRepliesFit(c, args, st1, ctx);
      }
    }
  }

  lemma ProblemsFit(args: seq<string>)
    ensures FitsReply(Failure(EmptyCommand))
    ensures args != [] && NoCRLF(args[0]) ==> FitsReply(Failure(UnknownCommand(args[0])))
  {
  }

  lemma SmallTick(st: Server, now: int)
    requires SmallDb(st.db)
    ensures SmallDb(Tick(st, now).db)
  {
    hide SmallEntry;
    assert Live(st.db, now).Keys <= st.db.Keys;
    SubsetSize(Live(st.db, now).Keys, st.db.Keys);
  }

  /** So on a connection whose requests are small when their turn comes the client finds exactly
      one frame for each command. */
  lemma SmallRequestsAreRecovered(st: Server, commands: seq<seq<string>>, ctxs: seq<Context>, sent: seq<string>)
    requires CC.Answered(st, commands, ctxs, sent)
    requires forall i :: 0 <= i < |commands| ==>
               SmallRequest(Served(st, commands[..i], ctxs[..i]), commands[i], ctxs[i])
    ensures Recovered(sent)
  {
    hide Recovered, SmallRequest, FitsReply, Renders, FairAt;
    forall i | 0 <= i < |commands| ensures FitsReply(Answers(st, commands, ctxs)[i]) {
      AnswerAt(st, commands, ctxs, i);
      SmallRequestsFit(Served(st, commands[..i], ctxs[..i]), commands[i], ctxs[i]);
    }
    SentMatchesCommands(st, commands, ctxs, sent);
  }

  lemma {:induction false} AnswerAt(st: Server, commands: seq<seq<string>>, ctxs: seq<Context>, i: nat)
    requires |commands| == |ctxs| && i < |commands|
    ensures Answers(st, commands, ctxs)[i] == Process(Served(st, commands[..i], ctxs[..i]), commands[i], ctxs[i]).reply
    decreases |commands|
  {
    hide Process;
    if i > 0 {
      var st1 := Process(st, commands[0], ctxs[0]).server;
      AnswerAt(st1, commands[1..], ctxs[1..], i - 1);
      assert commands[..i][1..] == commands[1..][..i - 1] && ctxs[..i][1..] == ctxs[1..][..i - 1];
    }
  }
}
