/** The texts of replies: which ones may contain a line terminator. */
module ReplyTexts {
  import opened Text
  import opened Decimal
  import opened RedisValue
  import opened RedisDatabase
  import opened Replies
  import opened CommandPlan
  import opened GlobRegex
  import opened CommandHandler
  import SC = StringCommands
  import LC = ListCommands
  import EC = SetCommands
  import HC = HashCommands
  import TC = TtlCommands
  import VC = ServerCommands

  predicate Clean(s: string) {
    forall i :: 0 <= i < |s| ==> s[i] != '\r'
  }

  lemma CleanText(s: string)
    requires Clean(s)
    ensures NoCRLF(s)
  {
  }

  lemma CleanConcat(a: string, b: string)
    ensures Clean(a + b) <==> Clean(a) && Clean(b)
  {
    assert forall i :: 0 <= i < |a| ==> (a + b)[i] == a[i];
    assert forall i :: 0 <= i < |b| ==> (a + b)[|a| + i] == b[i];
  }

  lemma CommandNamesClean(c: Command)
    ensures Clean(LowerName(c))
  {
    hide Clean, LowerName;
    StringNamesClean(c);
    ListNamesClean(c);
    SetNamesClean(c);
    HashNamesClean(c);
    ServerNamesClean(c);
  }

  lemma StringNamesClean(c: Command)
    ensures c in {Command.SET, GET, DEL, EXISTS, TYPE, INCR, DECR, INCRBY, DECRBY, STRLEN, APPEND} ==>
              Clean(LowerName(c))
  {
  }

  lemma ListNamesClean(c: Command)
    ensures c in {MGET, MSET, LPUSH, RPUSH, LPOP, RPOP, LLEN, LRANGE, LINDEX, LSET} ==> Clean(LowerName(c))
  {
  }

  lemma SetNamesClean(c: Command)
    ensures c in {SADD, SREM, SISMEMBER, SCARD, SMEMBERS, SPOP, EXPIRE, EXPIREAT, TTL, PERSIST} ==> Clean(LowerName(c))
  {
  }

  lemma HashNamesClean(c: Command)
    ensures c in {HSET, HGET, HDEL, HEXISTS, HLEN, HKEYS, HVALS, HGETALL} ==> Clean(LowerName(c))
  {
  }

  lemma ServerNamesClean(c: Command)
    ensures c in {PING, ECHO, INFO, FLUSHALL, KEYS, DBSIZE, TIME} ==> Clean(LowerName(c))
  {
  }

  lemma ShortMessagesClean()
    ensures NoCRLF("ERR syntax error") && NoCRLF("ERR no such key") && NoCRLF("ERR empty command")
    ensures NoCRLF("ERR index out of range")
  {
    assert Clean("ERR syntax error") && Clean("ERR no such key") && Clean("ERR empty command");
  }

  lemma NumberMessageClean()
    ensures NoCRLF("ERR value is not an integer or out of range")
  {
    assert Clean("ERR value is not an integer or out of range");
  }

  lemma TypeMessageClean()
    ensures NoCRLF("ERR Operation against a key" + " holding the wrong kind of value")
  {
    CleanConcat("ERR Operation against a key", " holding the wrong kind of value");
    CleanText("ERR Operation against a key" + " holding the wrong kind of value");
  }

  lemma MessagesClean(p: Problem)
    requires !p.UnknownCommand? && !p.Exception?
    ensures NoCRLF(Message(p))
  {
    hide Clean, NoCRLF, LowerName;
    ShortMessagesClean();
    NumberMessageClean();
    TypeMessageClean();
    if p.WrongArgs? {
      ArityMessageClean(p.command);
    }
  }

  lemma ArityMessageClean(c: Command)
    ensures NoCRLF(Message(WrongArgs(c)))
  {
    hide LowerName, Clean;
    CommandNamesClean(c);
    ArityTextsClean();
    var a, b, name := "ERR wrong number of arguments for '", "' command", LowerName(c);
    CleanConcat(a, name);
    CleanConcat(a + name, b);
    CleanText(Message(WrongArgs(c)));
  }

  lemma ArityTextsClean()
    ensures Clean("ERR wrong number of arguments for '") && Clean("' command")
    ensures Clean("ERR unknown command '") && Clean("ERR ")
  {
  }

  /** A text put after one without carriage return keeps its terminators and gets no other. */
  lemma NoCRLFAfter(a: string, s: string)
    requires Clean(a)
    ensures NoCRLF(a + s) <==> NoCRLF(s)
  {
    forall i: int ensures CRLFAt(a + s, i) <==> CRLFAt(s, i - |a|) {
      assert 0 <= i < |a| ==> (a + s)[i] == a[i];
    }
    if NoCRLF(a + s) {
      forall j: int ensures !CRLFAt(s, j) {
        assert !CRLFAt(a + s, j + |a|);
      }
    }
  }

  /** A quote after a text changes nothing either. */
  lemma NoCRLFQuote(s: string)
    ensures NoCRLF(s + "'") <==> NoCRLF(s)
  {
    forall i: int ensures CRLFAt(s + "'", i) <==> CRLFAt(s, i) {
    }
  }

  lemma OutsideTextsClean(text: string)
    ensures NoCRLF(Message(UnknownCommand(text))) <==> NoCRLF(text)
    ensures NoCRLF(Message(Exception(text))) <==> NoCRLF(text)
  {
    ArityTextsClean();
    hide Clean, NoCRLF;
    NoCRLFAfter("ERR unknown command '", text + "'");
    assert "ERR unknown command '" + text + "'" == "ERR unknown command '" + (text + "'");
    NoCRLFQuote(text);
    NoCRLFAfter("ERR ", text);
  }

  // ----- status replies -----

  ghost predicate StatusClean(r: Reply) {
    r.Status? ==> Clean(r.text)
  }

  ghost predicate PlanStatusClean(p: Plan) {
    p.Touch? ==> forall cur :: StatusClean(p.act(cur).reply)
  }

  lemma FixedStatusesClean()
    ensures Clean("none") && Clean("OK") && Clean("PONG")
  {
  }

  lemma TypeNamesClean(kind: RedisType)
    ensures Clean(SC.TypeName(kind))
  {
  }

  lemma StringStatusClean(args: seq<string>)
    ensures PlanStatusClean(SC.Get(args)) && PlanStatusClean(SC.Type(args)) && PlanStatusClean(SC.Strlen(args))
    ensures PlanStatusClean(SC.Append(args))
  {
    hide Clean, SC.TypeName;
    FixedStatusesClean();
    forall kind: RedisType ensures Clean(SC.TypeName(kind)) {
      TypeNamesClean(kind);
    }
  }

  lemma CounterStatusClean(args: seq<string>)
    ensures PlanStatusClean(SC.Incr(args)) && PlanStatusClean(SC.Decr(args))
    ensures PlanStatusClean(SC.IncrBy(args)) && PlanStatusClean(SC.DecrBy(args))
  {
    hide Clean, IntegerText, ParseInt, ToString, Wrap64;
  }

  lemma TtlStatusClean(args: seq<string>, later: int)
    ensures PlanStatusClean(TC.Expire(args, later)) && PlanStatusClean(TC.Expireat(args, later))
    ensures PlanStatusClean(TC.Ttl(args, later)) && PlanStatusClean(TC.Persist(args))
  {
    hide Clean, IntegerText, ParseInt, SecondsToMs, TC.FromTimeT, TC.SecondsLeft;
  }

  lemma PushStatusClean(args: seq<string>)
    ensures PlanStatusClean(LC.Lpush(args)) && PlanStatusClean(LC.Rpush(args))
    ensures PlanStatusClean(LC.Lpop(args)) && PlanStatusClean(LC.Rpop(args))
  {
    hide Clean, LC.Reverse;
  }

  lemma ListStatusClean(args: seq<string>)
    ensures PlanStatusClean(LC.Llen(args)) && PlanStatusClean(LC.Lrange(args))
    ensures PlanStatusClean(LC.Lindex(args)) && PlanStatusClean(LC.Lset(args))
  {
    hide Clean, IntegerText, ParseInt, LC.ClampedSlice;
    FixedStatusesClean();
  }

  lemma SetStatusClean(args: seq<string>, pick: string)
    ensures PlanStatusClean(EC.Sadd(args)) && PlanStatusClean(EC.Srem(args)) && PlanStatusClean(EC.Spop(args, pick))
    ensures PlanStatusClean(EC.Sismember(args)) && PlanStatusClean(EC.Scard(args)) && PlanStatusClean(EC.Smembers(args))
  {
    hide Clean, EC.MembersIn, EC.Left;
  }

  lemma HashStatusClean(args: seq<string>)
    ensures PlanStatusClean(HC.Hset(args)) && PlanStatusClean(HC.Hget(args)) && PlanStatusClean(HC.Hdel(args))
    ensures PlanStatusClean(HC.Hexists(args)) && PlanStatusClean(HC.Hlen(args))
    ensures forall c, part :: PlanStatusClean(HC.ListHash(c, args, part))
  {
    hide Clean, HC.AllStored, HC.CountNew, HC.AllErased, HC.CountOld;
  }

  lemma PlansStatusClean(c: Command, args: seq<string>, ctx: Context)
    ensures KeyPlan(c, args, ctx).Some? ==> PlanStatusClean(KeyPlan(c, args, ctx).value)
  {
    hide PlanStatusClean, SC.Get, SC.Type, SC.Strlen, SC.Append, SC.Incr, SC.Decr, SC.IncrBy, SC.DecrBy,
      TC.Expire, TC.Expireat, TC.Ttl, TC.Persist, LC.Lpush, LC.Rpush, LC.Lpop, LC.Rpop, LC.Llen, LC.Lrange,
      LC.Lindex, LC.Lset, EC.Sadd, EC.Srem, EC.Sismember, EC.Scard, EC.Smembers, EC.Spop, HC.Hset, HC.Hget,
      HC.Hdel, HC.Hexists, HC.Hlen, HC.ListHash;
    StringStatusClean(args);
    CounterStatusClean(args);
    TtlStatusClean(args, ctx.later);
    PushStatusClean(args);
    ListStatusClean(args);
    SetStatusClean(args, ctx.pick);
    HashStatusClean(args);
  }

  lemma SetReplyClean(d: Db, args: seq<string>, now: int, later: int)
    ensures StatusClean(SC.Set(d, args, now, later).reply)
  {
    FixedStatusesClean();
    hide Clean, SC.ReadOptions, SC.Blocked, SC.Conditional, SC.WithExpiry, Lookup, Purge;
  }

  lemma KeyRepliesClean(d: Db, args: seq<string>, now: int)
    ensures StatusClean(SC.Del(d, args).reply) && StatusClean(SC.Exists(d, args, now).reply)
    ensures StatusClean(SC.Mget(d, args, now).reply) && StatusClean(SC.Mset(d, args).reply)
  {
    FixedStatusesClean();
    hide Clean, SC.KeysOf, SC.WithoutKeys, SC.CountStored, SC.CountLive, SC.PutPairs, SC.TextOf, PurgeAll;
  }

  lemma ServerRepliesClean(d: Db, args: seq<string>, now: int, engine: Engine)
    ensures StatusClean(VC.Ping(args)) && StatusClean(VC.Echo(args)) && StatusClean(VC.Flushall(d, args).reply)
    ensures StatusClean(VC.KeysReply(d, args, now, engine)) && StatusClean(VC.Dbsize(d, args, now).reply)
    ensures StatusClean(VC.Time(args, now))
  {
    FixedStatusesClean();
    hide Clean, ToString, TruncMod, TruncDiv, Live, Found, Translate;
  }

  lemma OtherStatusClean(c: Command, args: seq<string>, st: Server, ctx: Context)
    requires KeyPlan(c, args, ctx).None?
    ensures StatusClean(Other(c, args, st, ctx).reply)
  {
    hide KeyPlan, StatusClean, SC.Set, SC.Del, SC.Exists, SC.Mget, SC.Mset, VC.Ping, VC.Echo, VC.Flushall,
      VC.KeysReply, VC.Dbsize, VC.Time;
    SetReplyClean(st.db, args, ctx.now, ctx.later);
    KeyRepliesClean(st.db, args, ctx.now);
    ServerRepliesClean(st.db, args, ctx.now, ctx.engine);
    InfoClean(|st.db|, st.start, st.total, ctx.now);
  }

  lemma InfoClean(stored: nat, start: int, total: nat, now: int)
    ensures StatusClean(VC.Info(stored, start, total, now))
  {
    hide ToString, VC.InfoHead, VC.Uptime;
  }

  lemma ExecStatusClean(c: Command, args: seq<string>, st: Server, ctx: Context)
    ensures StatusClean(Exec(c, args, st, ctx).reply)
  {
    hide KeyPlan, Other, Clean, Lookup, Purge, Apply;
    PlansStatusClean(c, args, ctx);
    if KeyPlan(c, args, ctx).None? {
      OtherStatusClean(c, args, st, ctx);
    }
  }
}
