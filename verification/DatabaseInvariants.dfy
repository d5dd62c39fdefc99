/** What every command keeps: the shape of the entries, and every key it was not told to write. */
module DatabaseInvariants {
  import opened Text
  import opened RedisValue
  import opened RedisDatabase
  import opened Replies
  import opened CommandPlan
  import opened CommandHandler
  import opened Runs
  import SC = StringCommands
  import LC = ListCommands
  import EC = SetCommands
  import HC = HashCommands
  import TC = TtlCommands
  import VC = ServerCommands

  // ----- the shape of entries -----

  /** Only the field selected by the type is in use, and no container is empty. */
  predicate WellTyped(v: RedisValue) {
    && (v.kind != STRING ==> v.text == "")
    && (v.kind == LIST <==> v.list != [])
    && (v.kind == RedisType.SET <==> v.members != {})
    && (v.kind == HASH <==> v.fields != map[])
    && v.kind != ZSET && v.kind != STREAM
  }

  ghost predicate AllWellTyped(d: Db) {
    forall k :: k in d ==> WellTyped(d[k])
  }

  ghost predicate OptionWellTyped(cur: Option<RedisValue>) {
    cur.Some? ==> WellTyped(cur.value)
  }

  ghost predicate EffectWellTyped(e: Effect) {
    e.Put? ==> WellTyped(e.value)
  }

  ghost predicate PlanWellTyped(p: Plan) {
    p.Touch? ==> forall cur :: OptionWellTyped(cur) ==> EffectWellTyped(p.act(cur).effect)
  }

  lemma {:induction false} ReverseNonEmpty(items: seq<string>)
    ensures items != [] ==> LC.Reverse(items) != []
  {
  }

  lemma KeepIsWellTyped()
    ensures EffectWellTyped(Keep) && EffectWellTyped(Remove)
  {
  }

  lemma StringIsWellTyped(text: string)
    ensures EffectWellTyped(Put(OfString(text)))
  {
  }

  lemma StringPlansWellTyped(args: seq<string>)
    ensures PlanWellTyped(SC.Get(args)) && PlanWellTyped(SC.Type(args)) && PlanWellTyped(SC.Strlen(args))
    ensures PlanWellTyped(SC.Append(args))
  {
    hide OptionWellTyped, EffectWellTyped, OfString;
    KeepIsWellTyped();
    forall text ensures EffectWellTyped(Put(OfString(text))) {
      StringIsWellTyped(text);
    }
  }

  lemma AddWellTyped(cur: Option<RedisValue>, delta: int)
    ensures EffectWellTyped(SC.Add(cur, delta).effect)
  {
    hide Decimal.IntegerText, Decimal.ParseInt, Decimal.ToString, Decimal.Wrap64;
  }

  lemma CounterPlansWellTyped(args: seq<string>)
    ensures PlanWellTyped(SC.Incr(args)) && PlanWellTyped(SC.Decr(args))
    ensures PlanWellTyped(SC.IncrBy(args)) && PlanWellTyped(SC.DecrBy(args))
  {
    hide OptionWellTyped, EffectWellTyped, SC.Add, Decimal.IntegerText, Decimal.ParseInt;
    forall cur, delta ensures EffectWellTyped(SC.Add(cur, delta).effect) {
      AddWellTyped(cur, delta);
    }
  }

  lemma ExpiryWellTyped(v: RedisValue, expiry: int, hasExpiry: bool)
    requires WellTyped(v)
    ensures EffectWellTyped(Put(v.(expiry := expiry, hasExpiry := hasExpiry)))
  {
  }

  lemma TtlPlansWellTyped(args: seq<string>, later: int)
    ensures PlanWellTyped(TC.Expire(args, later)) && PlanWellTyped(TC.Expireat(args, later))
    ensures PlanWellTyped(TC.Ttl(args, later)) && PlanWellTyped(TC.Persist(args))
  {
    hide EffectWellTyped, WellTyped, Decimal.IntegerText, Decimal.ParseInt, Decimal.Wrap64, TC.SecondsLeft,
      TC.FromTimeT, SecondsToMs;
    KeepIsWellTyped();
    forall v, expiry, hasExpiry | WellTyped(v)
      ensures EffectWellTyped(Put(v.(expiry := expiry, hasExpiry := hasExpiry)))
    {
      ExpiryWellTyped(v, expiry, hasExpiry);
    }
  }

  lemma PushWellTyped(cur: Option<RedisValue>, front: seq<string>, back: seq<string>)
    requires OptionWellTyped(cur) && front + back != []
    ensures EffectWellTyped(LC.Push(cur, front, back).effect)
  {
  }

  lemma PopWellTyped(cur: Option<RedisValue>)
    requires OptionWellTyped(cur)
    ensures EffectWellTyped(LC.PopFront(cur).effect) && EffectWellTyped(LC.PopBack(cur).effect)
  {
  }

  lemma ReplaceWellTyped(v: RedisValue, i: int, element: string)
    requires OptionWellTyped(Some(v)) && v.kind == LIST
    ensures EffectWellTyped(LC.Replace(v, i, element).effect)
  {
  }

  lemma PushPlansWellTyped(args: seq<string>)
    ensures PlanWellTyped(LC.Lpush(args)) && PlanWellTyped(LC.Rpush(args))
    ensures PlanWellTyped(LC.Lpop(args)) && PlanWellTyped(LC.Rpop(args))
  {
    hide OptionWellTyped, EffectWellTyped, LC.Push, LC.PopFront, LC.PopBack, LC.Reverse;
    if |args| >= 3 {
      ReverseNonEmpty(args[2..]);
    }
    forall cur | OptionWellTyped(cur)
      ensures |args| >= 3 ==> EffectWellTyped(LC.Push(cur, LC.Reverse(args[2..]), []).effect)
      ensures |args| >= 3 ==> EffectWellTyped(LC.Push(cur, [], args[2..]).effect)
      ensures EffectWellTyped(LC.PopFront(cur).effect) && EffectWellTyped(LC.PopBack(cur).effect)
    {
      PopWellTyped(cur);
      if |args| >= 3 {
        PushWellTyped(cur, LC.Reverse(args[2..]), []);
        PushWellTyped(cur, [], args[2..]);
      }
    }
  }

  lemma ListPlansWellTyped(args: seq<string>)
    ensures PlanWellTyped(LC.Llen(args)) && PlanWellTyped(LC.Lrange(args))
    ensures PlanWellTyped(LC.Lindex(args)) && PlanWellTyped(LC.Lset(args))
  {
    hide OptionWellTyped, EffectWellTyped, LC.ClampedSlice, LC.Replace, LC.Element, Decimal.IntegerText,
      Decimal.ParseInt;
    KeepIsWellTyped();
    forall v, i, element | OptionWellTyped(Some(v)) && v.kind == LIST
      ensures EffectWellTyped(LC.Replace(v, i, element).effect)
    {
      ReplaceWellTyped(v, i, element);
    }
  }

  lemma MembersGiven(args: seq<string>)
    requires |args| >= 3
    ensures args[2] in EC.MembersIn(args)
  {
  }

  lemma AddMembersWellTyped(cur: Option<RedisValue>, given: set<string>)
    requires OptionWellTyped(cur) && given != {}
    ensures EffectWellTyped(EC.AddMembers(cur, given).effect)
  {
  }

  lemma LeftWellTyped(v: RedisValue, members: set<string>)
    requires OptionWellTyped(Some(v)) && v.kind == RedisType.SET
    ensures EffectWellTyped(EC.Left(v, members))
  {
  }

  lemma SetPlansWellTyped(args: seq<string>, pick: string)
    ensures PlanWellTyped(EC.Sadd(args)) && PlanWellTyped(EC.Srem(args)) && PlanWellTyped(EC.Spop(args, pick))
    ensures PlanWellTyped(EC.Sismember(args)) && PlanWellTyped(EC.Scard(args)) && PlanWellTyped(EC.Smembers(args))
  {
    if |args| >= 3 {
      MembersGiven(args);
    }
    hide EC.MembersIn, EC.AddMembers, EC.Left, EffectWellTyped, OptionWellTyped;
    KeepIsWellTyped();
    forall cur | OptionWellTyped(cur)
      ensures |args| >= 3 ==> EffectWellTyped(EC.AddMembers(cur, EC.MembersIn(args)).effect)
    {
      if |args| >= 3 {
        AddMembersWellTyped(cur, EC.MembersIn(args));
      }
    }
    forall v, members | OptionWellTyped(Some(v)) && v.kind == RedisType.SET
      ensures EffectWellTyped(EC.Left(v, members))
    {
      LeftWellTyped(v, members);
    }
  }

  lemma FieldsStored(before: map<string, string>, args: seq<string>)
    requires |args| >= 4
    ensures HC.AllStored(before, args) != map[]
  {
    assert args[|args| - 2] in HC.FieldsIn(args);
    assert args[|args| - 2] in HC.AllStored(before, args);
  }

  lemma PutFieldsWellTyped(args: seq<string>, cur: Option<RedisValue>)
    requires |args| >= 4 && OptionWellTyped(cur)
    ensures EffectWellTyped(HC.PutFields(cur, args).effect)
  {
    FieldsStored(if cur.Some? then cur.value.fields else map[], args);
    hide HC.AllStored, HC.CountNew;
  }

  lemma RemoveFieldsWellTyped(args: seq<string>, v: RedisValue)
    requires OptionWellTyped(Some(v)) && v.kind == HASH
    ensures EffectWellTyped(HC.RemoveFields(v, args).effect)
  {
    hide HC.AllErased, HC.CountOld;
  }

  lemma HashPlansWellTyped(args: seq<string>)
    ensures PlanWellTyped(HC.Hset(args)) && PlanWellTyped(HC.Hget(args)) && PlanWellTyped(HC.Hdel(args))
    ensures PlanWellTyped(HC.Hexists(args)) && PlanWellTyped(HC.Hlen(args))
    ensures forall c, part :: PlanWellTyped(HC.ListHash(c, args, part))
  {
    hide HC.PutFields, HC.RemoveFields, OptionWellTyped, EffectWellTyped;
    KeepIsWellTyped();
    forall cur | OptionWellTyped(cur)
      ensures |args| >= 4 ==> EffectWellTyped(HC.PutFields(cur, args).effect)
    {
      if |args| >= 4 {
        PutFieldsWellTyped(args, cur);
      }
    }
    forall v | OptionWellTyped(Some(v)) && v.kind == HASH
      ensures EffectWellTyped(HC.RemoveFields(v, args).effect)
    {
      RemoveFieldsWellTyped(args, v);
    }
  }

  lemma PlansWellTyped(c: Command, args: seq<string>, ctx: Context)
    ensures KeyPlan(c, args, ctx).Some? ==> PlanWellTyped(KeyPlan(c, args, ctx).value)
  {
    hide PlanWellTyped, SC.Get, SC.Type, SC.Strlen, SC.Append, SC.Incr, SC.Decr, SC.IncrBy, SC.DecrBy,
      TC.Expire, TC.Expireat, TC.Ttl, TC.Persist, LC.Lpush, LC.Rpush, LC.Lpop, LC.Rpop, LC.Llen, LC.Lrange,
      LC.Lindex, LC.Lset, EC.Sadd, EC.Srem, EC.Sismember, EC.Scard, EC.Smembers, EC.Spop, HC.Hset, HC.Hget,
      HC.Hdel, HC.Hexists, HC.Hlen, HC.ListHash;
    StringPlansWellTyped(args);
    CounterPlansWellTyped(args);
    TtlPlansWellTyped(args, ctx.later);
    PushPlansWellTyped(args);
    ListPlansWellTyped(args);
    SetPlansWellTyped(args, ctx.pick);
    HashPlansWellTyped(args);
  }

  lemma {:induction false} StoredStringsWellTyped(d: Db, args: seq<string>)
    requires AllWellTyped(d)
    ensures AllWellTyped(SC.PutPairs(d, args))
  {
    if |args| >= 3 {
      StoredStringsWellTyped(d, args[..|args| - 2]);
    }
  }

  lemma SetWellTyped(d: Db, args: seq<string>, now: int, later: int)
    requires AllWellTyped(d)
    ensures AllWellTyped(SC.Set(d, args, now, later).db)
  {
    hide SC.ReadOptions, SC.Blocked, SC.Conditional;
    if |args| >= 3 {
      SC.WithExpiryKeepsTheRest(OfString(args[2]), SC.ReadOptions(args, 3).options, later);
      hide SC.WithExpiry;
    }
  }

  lemma ExecWellTyped(c: Command, args: seq<string>, st: Server, ctx: Context)
    requires AllWellTyped(st.db)
    ensures AllWellTyped(Exec(c, args, st, ctx).db)
  {
    hide KeyPlan, SC.Set, SC.PutPairs;
    PlansWellTyped(c, args, ctx);
    SetWellTyped(st.db, args, ctx.now, ctx.later);
    StoredStringsWellTyped(st.db, args);
  }

  /** From an empty database on, after any run, every entry is a string, or a non-empty list,
      set or hash, with nothing in the fields of the other types. */
  lemma {:induction false} RunsKeepEntriesWellTyped(st: Server, events: seq<Event>)
    requires AllWellTyped(st.db)
    ensures AllWellTyped(Final(st, events).db)
    decreases |events|
  {
    if events != [] {
      var e := events[0];
      EventWellTyped(st, e);
      hide After, AllWellTyped;
      RunsKeepEntriesWellTyped(After(st, e), events[1..]);
    }
  }

  lemma EventWellTyped(st: Server, e: Event)
    requires AllWellTyped(st.db)
    ensures AllWellTyped(After(st, e).db)
  {
    hide Exec;
    if e.Issue? && e.args != [] && CommandOf(st.commands, e.args).Some? {
      ExecWellTyped(CommandOf(st.commands, e.args).value, e.args, Tick(st, e.ctx.now), e.ctx);
    }
  }

  // ----- keys that are not written -----

  predicate ReadsOnly(c: Command) {
    c in {GET, TYPE, STRLEN, LLEN, LRANGE, LINDEX, SISMEMBER, SCARD, SMEMBERS, HGET, HEXISTS, HLEN,
          HKEYS, HVALS, HGETALL, TTL, EXISTS, MGET, PING, ECHO, INFO, KEYS, DBSIZE, TIME}
  }

  /** The keys a command may write. */
  predicate MayWrite(c: Command, args: seq<string>, key: string) {
    if ReadsOnly(c) then false
    else if c in {FLUSHALL} then true
    else if c in {DEL, MSET} then key in SC.KeysOf(args)
    else |args| > 1 && args[1] == key
  }

  ghost predicate PlanKeeps(p: Plan, key: string) {
    p.Touch? && p.key == key ==> forall cur :: p.act(cur).effect == Keep
  }

  ghost predicate PlanOnlyReads(p: Plan) {
    p.Touch? ==> forall cur :: p.act(cur).effect == Keep
  }

  lemma StringReadsKeep(args: seq<string>)
    ensures PlanOnlyReads(SC.Get(args)) && PlanOnlyReads(SC.Type(args)) && PlanOnlyReads(SC.Strlen(args))
  {
    hide SC.TypeName;
  }

  lemma ListReadsKeep(args: seq<string>)
    ensures PlanOnlyReads(LC.Llen(args)) && PlanOnlyReads(LC.Lrange(args)) && PlanOnlyReads(LC.Lindex(args))
  {
    hide Decimal.IntegerText, Decimal.ParseInt, LC.ClampedSlice, LC.Element;
  }

  lemma SetReadsKeep(args: seq<string>)
    ensures PlanOnlyReads(EC.Sismember(args)) && PlanOnlyReads(EC.Scard(args)) && PlanOnlyReads(EC.Smembers(args))
  {
  }

  lemma HashReadsKeep(args: seq<string>)
    ensures PlanOnlyReads(HC.Hget(args)) && PlanOnlyReads(HC.Hexists(args)) && PlanOnlyReads(HC.Hlen(args))
    ensures forall c, part :: PlanOnlyReads(HC.ListHash(c, args, part))
  {
  }

  lemma ReadingPlansKeep(c: Command, args: seq<string>, ctx: Context)
    requires ReadsOnly(c) && c != TTL
    ensures KeyPlan(c, args, ctx).Some? ==> PlanOnlyReads(KeyPlan(c, args, ctx).value)
  {
    hide PlanOnlyReads, SC.Get, SC.Type, SC.Strlen, SC.Append, SC.Incr, SC.Decr, SC.IncrBy, SC.DecrBy,
      TC.Expire, TC.Expireat, TC.Ttl, TC.Persist, LC.Lpush, LC.Rpush, LC.Lpop, LC.Rpop, LC.Llen, LC.Lrange,
      LC.Lindex, LC.Lset, EC.Sadd, EC.Srem, EC.Sismember, EC.Scard, EC.Smembers, EC.Spop, HC.Hset, HC.Hget,
      HC.Hdel, HC.Hexists, HC.Hlen, HC.ListHash;
    StringReadsKeep(args);
    ListReadsKeep(args);
    SetReadsKeep(args);
    HashReadsKeep(args);
  }

  /** The plan of a command on one key is about its first argument. */
  ghost predicate OnFirstArgument(p: Plan, args: seq<string>) {
    p.Touch? ==> |args| > 1 && p.key == args[1]
  }

  lemma StringPlansKey(args: seq<string>)
    ensures OnFirstArgument(SC.Get(args), args) && OnFirstArgument(SC.Type(args), args)
    ensures OnFirstArgument(SC.Strlen(args), args) && OnFirstArgument(SC.Append(args), args)
    ensures OnFirstArgument(SC.Incr(args), args) && OnFirstArgument(SC.Decr(args), args)
    ensures OnFirstArgument(SC.IncrBy(args), args) && OnFirstArgument(SC.DecrBy(args), args)
  {
    hide Decimal.IntegerText;
  }

  lemma TtlPlansKey(args: seq<string>, later: int)
    ensures OnFirstArgument(TC.Expire(args, later), args) && OnFirstArgument(TC.Expireat(args, later), args)
    ensures OnFirstArgument(TC.Ttl(args, later), args) && OnFirstArgument(TC.Persist(args), args)
  {
    hide Decimal.IntegerText;
  }

  lemma ListPlansKey(args: seq<string>)
    ensures OnFirstArgument(LC.Lpush(args), args) && OnFirstArgument(LC.Rpush(args), args)
    ensures OnFirstArgument(LC.Lpop(args), args) && OnFirstArgument(LC.Rpop(args), args)
    ensures OnFirstArgument(LC.Llen(args), args) && OnFirstArgument(LC.Lrange(args), args)
    ensures OnFirstArgument(LC.Lindex(args), args) && OnFirstArgument(LC.Lset(args), args)
  {
    hide Decimal.IntegerText;
  }

  lemma SetPlansKey(args: seq<string>, pick: string)
    ensures OnFirstArgument(EC.Sadd(args), args) && OnFirstArgument(EC.Srem(args), args)
    ensures OnFirstArgument(EC.Sismember(args), args) && OnFirstArgument(EC.Scard(args), args)
    ensures OnFirstArgument(EC.Smembers(args), args) && OnFirstArgument(EC.Spop(args, pick), args)
  {
  }

  lemma HashPlansKey(args: seq<string>)
    ensures OnFirstArgument(HC.Hset(args), args) && OnFirstArgument(HC.Hget(args), args)
    ensures OnFirstArgument(HC.Hdel(args), args) && OnFirstArgument(HC.Hexists(args), args)
    ensures OnFirstArgument(HC.Hlen(args), args)
    ensures forall c, part :: OnFirstArgument(HC.ListHash(c, args, part), args)
  {
  }

  lemma PlansOnFirstArgument(c: Command, args: seq<string>, ctx: Context)
    ensures KeyPlan(c, args, ctx).Some? ==> OnFirstArgument(KeyPlan(c, args, ctx).value, args)
  {
    hide OnFirstArgument, SC.Get, SC.Type, SC.Strlen, SC.Append, SC.Incr, SC.Decr, SC.IncrBy, SC.DecrBy,
      TC.Expire, TC.Expireat, TC.Ttl, TC.Persist, LC.Lpush, LC.Rpush, LC.Lpop, LC.Rpop, LC.Llen, LC.Lrange,
      LC.Lindex, LC.Lset, EC.Sadd, EC.Srem, EC.Sismember, EC.Scard, EC.Smembers, EC.Spop, HC.Hset, HC.Hget,
      HC.Hdel, HC.Hexists, HC.Hlen, HC.ListHash;
    StringPlansKey(args);
    TtlPlansKey(args, ctx.later);
    ListPlansKey(args);
    SetPlansKey(args, ctx.pick);
    HashPlansKey(args);
  }

  lemma PlanKey(c: Command, args: seq<string>, ctx: Context)
    requires KeyPlan(c, args, ctx).Some? && KeyPlan(c, args, ctx).value.Touch?
    ensures |args| > 1 && KeyPlan(c, args, ctx).value.key == args[1]
  {
    hide KeyPlan;
    PlansOnFirstArgument(c, args, ctx);
  }

  lemma PlansKeepOtherKeys(c: Command, args: seq<string>, ctx: Context, key: string)
    requires KeyPlan(c, args, ctx).Some? && !MayWrite(c, args, key) && c != TTL
    ensures PlanKeeps(KeyPlan(c, args, ctx).value, key)
  {
    if ReadsOnly(c) {
      ReadingPlansKeep(c, args, ctx);
    } else {
      assert c !in {DEL, MSET, FLUSHALL};
      hide KeyPlan;
      if KeyPlan(c, args, ctx).value.Touch? {
        PlanKey(c, args, ctx);
      }
    }
  }

  lemma PlanFrame(p: Plan, d: Db, key: string, now: int, t: int)
    requires PlanKeeps(p, key) && now <= t
    ensures Lookup(RunPlan(p, d, now).db, key, t) == Lookup(d, key, t)
  {
  }

  lemma {:induction false} PutPairsFrame(d: Db, args: seq<string>, key: string)
    requires key !in SC.KeysOf(args)
    ensures key in SC.PutPairs(d, args) <==> key in d
    ensures key in d ==> SC.PutPairs(d, args)[key] == d[key]
  {
    if |args| >= 3 {
      var n := |args| - 2;
      assert args[n] in SC.KeysOf(args);
      forall k | k in SC.KeysOf(args[..n]) ensures k in SC.KeysOf(args) {
        var i :| 1 <= i < n && args[..n][i] == k;
        assert args[i] == k;
      }
      PutPairsFrame(d, args[..n], key);
    }
  }

  lemma SetFrame(d: Db, args: seq<string>, key: string, now: int, later: int, t: int)
    requires now <= t && !(|args| > 1 && args[1] == key)
    ensures Lookup(SC.Set(d, args, now, later).db, key, t) == Lookup(d, key, t)
  {
    hide SC.ReadOptions, SC.WithExpiry, SC.Blocked, SC.Conditional;
  }

  lemma PurgeAllFrame(d: Db, keys: set<string>, key: string, now: int, t: int)
    requires now <= t
    ensures Lookup(PurgeAll(d, keys, now), key, t) == Lookup(d, key, t)
    ensures Lookup(Live(d, now), key, t) == Lookup(d, key, t)
  {
  }

  lemma DelFrame(d: Db, args: seq<string>, key: string, t: int)
    requires key !in SC.KeysOf(args)
    ensures Lookup(SC.WithoutKeys(d, args), key, t) == Lookup(d, key, t)
  {
    hide SC.KeysOf;
  }

  lemma OtherFrame(c: Command, args: seq<string>, st: Server, ctx: Context, key: string, t: int)
    requires KeyPlan(c, args, ctx).None? && !MayWrite(c, args, key) && ctx.now <= t
    ensures Lookup(Other(c, args, st, ctx).db, key, t) == Lookup(st.db, key, t)
  {
    hide KeyPlan, SC.KeysOf, SC.Set, SC.PutPairs, SC.WithoutKeys, SC.CountStored, SC.CountLive, SC.TextOf,
      Lookup, Live, PurgeAll, VC.KeysReply, VC.Info, VC.Time;
    PurgeAllFrame(st.db, SC.KeysOf(args), key, ctx.now, t);
    match c
    case SET => SetFrame(st.db, args, key, ctx.now, ctx.later, t);
    case DEL => DelFrame(st.db, args, key, t);
    case MSET => MsetFrame(st.db, args, key, t);
    case _ =>
  }

  lemma MsetFrame(d: Db, args: seq<string>, key: string, t: int)
    requires key !in SC.KeysOf(args)
    ensures Lookup(SC.PutPairs(d, args), key, t) == Lookup(d, key, t)
  {
    PutPairsFrame(d, args, key);
  }

  /** TTL may erase the entry it looks at, but only once that has expired. */
  lemma TtlFrame(args: seq<string>, d: Db, key: string, now: int, later: int, t: int)
    requires now <= later <= t
    ensures Lookup(RunPlan(TC.Ttl(args, later), d, now).db, key, t) == Lookup(d, key, t)
  {
    hide TC.SecondsLeft;
  }

  lemma TtlPlan(args: seq<string>, ctx: Context)
    ensures KeyPlan(TTL, args, ctx) == Some(TC.Ttl(args, ctx.later))
  {
  }

  /** A command leaves a key it does not write as visible, or not, as it was, at its end and later. */
  lemma ExecFrame(c: Command, args: seq<string>, st: Server, ctx: Context, key: string, t: int)
    requires !MayWrite(c, args, key) && ctx.now <= ctx.later <= t
    ensures Lookup(Exec(c, args, st, ctx).db, key, t) == Lookup(st.db, key, t)
  {
    hide KeyPlan, Other, RunPlan, Lookup, MayWrite, PlanKeeps;
    match KeyPlan(c, args, ctx)
    case Some(p) =>
      if c == TTL {
        TtlPlan(args, ctx);
        TtlFrame(args, st.db, key, ctx.now, ctx.later, t);
      } else {
        PlansKeepOtherKeys(c, args, ctx, key);
        PlanFrame(p, st.db, key, ctx.now, t);
      }
    case None => OtherFrame(c, args, st, ctx, key, t);
  }

  predicate EventQuiet(table: map<string, Command>, e: Event, key: string) {
    e.Issue? && CommandOf(table, e.args).Some? ==> !MayWrite(CommandOf(table, e.args).value, e.args, key)
  }

  /** No command of the run writes the key. */
  predicate Quiet(table: map<string, Command>, events: seq<Event>, key: string) {
    forall i :: 0 <= i < |events| ==> EventQuiet(table, events[i], key)
  }

  lemma EventFrame(st: Server, e: Event, key: string, t: int)
    requires EventQuiet(st.commands, e, key) && TimeOf(e) <= EndOf(e) <= t
    ensures Lookup(After(st, e).db, key, t) == Lookup(st.db, key, t)
  {
    hide Exec, MayWrite, ToUpper;
    if e.Issue? && e.args != [] && CommandOf(st.commands, e.args).Some? {
      ExecFrame(CommandOf(st.commands, e.args).value, e.args, Tick(st, e.ctx.now), e.ctx, key, t);
    }
  }

  lemma EventKeepsTable(st: Server, e: Event)
    ensures After(st, e).commands == st.commands
  {
    hide Exec, ToUpper;
  }

  lemma {:induction false} OrderedEnds(events: seq<Event>, t: int)
    requires Ordered(events, t)
    ensures t <= EndTime(events, t)
    decreases |events|
  {
    if events != [] {
      OrderedEnds(events[1..], EndOf(events[0]));
    }
  }

  /** A run that does not write a key leaves what is seen under it, at its end and later, as if
      nothing had happened: only time can make it disappear. */
  lemma {:induction false} QuietRunKeepsKey(st: Server, events: seq<Event>, t: int, key: string, t': int)
    requires Quiet(st.commands, events, key) && Ordered(events, t) && EndTime(events, t) <= t'
    ensures Lookup(Final(st, events).db, key, t') == Lookup(st.db, key, t')
    decreases |events|
  {
    hide After, Lookup, EventQuiet;
    if events != [] {
      var e := events[0];
      OrderedEnds(events[1..], EndOf(e));
      EventKeepsTable(st, e);
      EventFrame(st, e, key, t');
      QuietRunKeepsKey(After(st, e), events[1..], EndOf(e), key, t');
    }
  }

  /** An entry that has expired is not seen again until its key is written. */
  lemma ExpiredStaysGone(st: Server, events: seq<Event>, t: int, key: string, t': int)
    requires Lookup(st.db, key, t).None?
    requires Quiet(st.commands, events, key) && Ordered(events, t) && EndTime(events, t) <= t'
    ensures Lookup(Final(st, events).db, key, t').None?
  {
    OrderedEnds(events, t);
    QuietRunKeepsKey(st, events, t, key, t');
  }
}
