/** What the string and key commands mean to a client. */
module StringLaws {
  import opened Text
  import opened Decimal
  import opened RedisValue
  import opened RedisDatabase
  import opened Replies
  import opened CommandPlan
  import opened CommandHandler
  import opened ClientView
  import SC = StringCommands

  /** The text of a string, nothing for anything else. */
  function TextSeen(v: View): string {
    if v.TextView? then v.text else ""
  }

  lemma ReadPlans(args: seq<string>, ctx: Context)
    ensures KeyPlan(GET, args, ctx) == Some(SC.Get(args)) && KeyPlan(TYPE, args, ctx) == Some(SC.Type(args))
    ensures KeyPlan(STRLEN, args, ctx) == Some(SC.Strlen(args))
    ensures KeyPlan(APPEND, args, ctx) == Some(SC.Append(args))
  {
    hide SC.Get, SC.Type, SC.Strlen, SC.Append;
  }

  lemma CounterPlans(args: seq<string>, ctx: Context)
    ensures KeyPlan(INCR, args, ctx) == Some(SC.Incr(args)) && KeyPlan(DECR, args, ctx) == Some(SC.Decr(args))
    ensures KeyPlan(INCRBY, args, ctx) == Some(SC.IncrBy(args))
    ensures KeyPlan(DECRBY, args, ctx) == Some(SC.DecrBy(args))
  {
    hide SC.Incr, SC.Decr, SC.IncrBy, SC.DecrBy;
  }

  // ----- reading -----

  lemma ReadsReply(args: seq<string>, d: Db, now: int)
    requires |args| == 2
    ensures var v := ViewAt(d, args[1], now);
            && ReplyTo(SC.Get(args), d, now) == (if v.TextView? then Bulk(v.text) else Nil)
            && ReplyTo(SC.Strlen(args), d, now) == Number(|TextSeen(v)|)
  {
  }

  lemma TypeReplies(args: seq<string>, d: Db, now: int)
    requires |args| == 2
    ensures !ViewAt(d, args[1], now).OtherView? ==>
              ReplyTo(SC.Type(args), d, now)
              == Status(match ViewAt(d, args[1], now)
                        case Missing => "none"
                        case TextView(_) => "string"
                        case ListView(_) => "list"
                        case SetView(_) => "set"
                        case HashView(_) => "hash"
                        case OtherView => "")
  {
  }

  /** GET replies the text of a string, null for anything else; STRLEN its length; TYPE the name of
      the type. */
  lemma ReadsMean(c: Command, st: Server, args: seq<string>, ctx: Context)
    requires CommandOf(st.commands, args) == Some(c) && c in {GET, STRLEN, TYPE} && |args| == 2
    ensures var v := ViewAt(st.db, args[1], ctx.now);
            !v.OtherView? ==>
              Process(st, args, ctx).reply
              == if c == GET then (if v.TextView? then Bulk(v.text) else Nil)
                 else if c == STRLEN then Number(|TextSeen(v)|)
                 else Status(match v
                             case Missing => "none"
                             case TextView(_) => "string"
                             case ListView(_) => "list"
                             case SetView(_) => "set"
                             case HashView(_) => "hash"
                             case OtherView => "")
  {
    hide KeyPlan, CommandOf, Process, SC.Get, SC.Strlen, SC.Type, ViewAt, ReplyTo;
    ReadPlans(args, ctx);
    KeyCommand(st, args, ctx, if c == GET then SC.Get(args) else if c == STRLEN then SC.Strlen(args) else SC.Type(args),
               args[1], ctx.now);
    ReadsReply(args, st.db, ctx.now);
    TypeReplies(args, st.db, ctx.now);
  }

  // ----- rewriting -----

  lemma AppendShows(args: seq<string>, d: Db, now: int, t: int)
    requires |args| == 3
    ensures var p, text := SC.Append(args), TextSeen(ViewAt(d, args[1], now)) + args[2];
            && ReplyTo(p, d, now) == Number(|text|)
            && ViewAfter(p, d, args[1], now, t) == TextView(text) && ExpiryAfter(p, d, args[1], now, t).None?
  {
  }

  /** APPEND puts its argument after the text there was, and replies the length of the whole. */
  lemma AppendMeans(st: Server, args: seq<string>, ctx: Context, t: int)
    requires CommandOf(st.commands, args) == Some(APPEND) && |args| == 3 && ctx.now <= t
    ensures var a, text := Process(st, args, ctx), TextSeen(ViewAt(st.db, args[1], ctx.now)) + args[2];
            && a.reply == Number(|text|)
            && ViewAt(a.server.db, args[1], t) == TextView(text) && ExpiryAt(a.server.db, args[1], t).None?
  {
    hide KeyPlan, CommandOf, Process, SC.Append, ViewAt, ViewAfter, ReplyTo, ExpiryAt, ExpiryAfter;
    ReadPlans(args, ctx);
    KeyCommand(st, args, ctx, SC.Append(args), args[1], t);
    AppendShows(args, st.db, ctx.now, t);
  }

  /** The number a counter command adds. */
  function Step(c: Command, args: seq<string>): int
    requires c in {INCR, DECR} || |args| == 3
  {
    if c == INCR then 1 else if c == DECR then -1 else if c == INCRBY then ParseInt(args[2]) else -ParseInt(args[2])
  }

  /** `m` is `n` on a counter of 64 bits. */
  predicate SameIn64Bits(m: int, n: int) {
    -0x8000_0000_0000_0000 <= m <= 0x7FFF_FFFF_FFFF_FFFF && (m - n) % 0x1_0000_0000_0000_0000 == 0
  }

  /** The action of a counter command that adds `delta`. */
  ghost predicate Adds(a: Action, before: View, delta: int) {
    if before.Missing? || (before.TextView? && IntegerText(before.text)) then
      && a.reply.Number?
      && SameIn64Bits(a.reply.n, (if before.Missing? then 0 else ParseInt(before.text)) + delta)
      && a.effect == Put(OfString(ToString(a.reply.n)))
    else a == Say(Failure(if before.TextView? then NotInteger else WrongType))
  }

  lemma AddAdds(cur: Option<RedisValue>, delta: int)
    ensures Adds(SC.Add(cur, delta), ViewOf(cur), delta)
  {
    hide IntegerText, ParseInt, ToString;
  }

  lemma CounterShows(c: Command, args: seq<string>, ctx: Context, d: Db, t: int)
    requires c in {INCR, DECR, INCRBY, DECRBY} && |args| == (if c in {INCR, DECR} then 2 else 3)
    requires |args| == 3 ==> IntegerText(args[2])
    ensures KeyPlan(c, args, ctx).Some?
    ensures var p, cur := KeyPlan(c, args, ctx).value, Lookup(d, args[1], ctx.now);
            p.Touch? && p.key == args[1] && p.act(cur) == SC.Add(cur, Step(c, args))
  {
    hide SC.Add, IntegerText, ParseInt, Lookup;
  }

  /** What adding `delta` shows. */
  ghost predicate Counted(before: View, delta: int, reply: Reply, after: View, expiry: Option<int>) {
    if before.Missing? || (before.TextView? && IntegerText(before.text)) then
      && reply.Number?
      && SameIn64Bits(reply.n, (if before.Missing? then 0 else ParseInt(before.text)) + delta)
      && after == TextView(ToString(reply.n)) && expiry.None?
    else reply == Failure(if before.TextView? then NotInteger else WrongType) && after == before
  }

  lemma AddShows(p: Plan, delta: int, d: Db, key: string, now: int, t: int)
    requires p.Touch? && p.key == key && p.act(Lookup(d, key, now)) == SC.Add(Lookup(d, key, now), delta)
    requires Lasts(d, key, now, t)
    ensures Counted(ViewAt(d, key, now), delta, ReplyTo(p, d, now), ViewAfter(p, d, key, now, t),
                    ExpiryAfter(p, d, key, now, t))
  {
    var cur := Lookup(d, key, now);
    AddAdds(cur, delta);
    LastsMeans(d, key, now, t);
    FreshString(t);
    hide Lookup, ViewOf, ExpiryOf, IntegerText, ParseInt, ToString, SC.Add, SameIn64Bits, OfString, ReplyTo, ViewAfter,
      ExpiryAfter;
    ActionShows(p, d, key, now, t, SC.Add(cur, delta));
  }

  /** INCR, DECR, INCRBY and DECRBY add 1, -1, their number or its negative to the number a key
      holds (0 for a missing key), as 64 bits do, reply the sum and store its decimal text without
      expiry; a text that is no integer and another type are refused. */
  lemma CounterMeans(c: Command, st: Server, args: seq<string>, ctx: Context, t: int)
    requires CommandOf(st.commands, args) == Some(c) && c in {INCR, DECR, INCRBY, DECRBY}
    requires |args| == (if c in {INCR, DECR} then 2 else 3) && (|args| == 3 ==> IntegerText(args[2]))
    requires Lasts(st.db, args[1], ctx.now, t)
    ensures var d := Process(st, args, ctx).server.db;
            Counted(ViewAt(st.db, args[1], ctx.now), Step(c, args), Process(st, args, ctx).reply,
                    ViewAt(d, args[1], t), ExpiryAt(d, args[1], t))
  {
    CounterShows(c, args, ctx, st.db, t);
    hide KeyPlan, CommandOf, Process, Lookup, ViewAt, ExpiryAt, ReplyTo, ViewAfter, ExpiryAfter, Counted, SC.Add, Step,
      IntegerText, ParseInt;
    var p := KeyPlan(c, args, ctx).value;
    KeyCommand(st, args, ctx, p, args[1], t);
    AddShows(p, Step(c, args), st.db, args[1], ctx.now, t);
  }

  lemma FreshString(t: int)
    ensures forall text :: ViewOf(Some(OfString(text))) == TextView(text) && ExpiryOf(Some(OfString(text))).None?
    ensures forall text :: !OfString(text).IsExpired(t)
  {
  }

  // ----- several keys -----

  /** What is stored when a command looks: every hundredth begins with a sweep. */
  function Swept(st: Server, now: int): Db {
    if (st.total + 1) % 100 == 0 then map k | k in st.db && !st.db[k].IsExpired(now) :: st.db[k] else st.db
  }

  /** The different arguments after the command's name. */
  function Named(args: seq<string>): set<string> {
    set i | 1 <= i < |args| :: args[i]
  }

  lemma Keyless(c: Command, args: seq<string>, ctx: Context)
    requires c in {Command.SET, DEL, EXISTS, MGET, MSET, PING, ECHO, INFO, FLUSHALL, KEYS, DBSIZE, TIME}
    ensures KeyPlan(c, args, ctx).None?
  {
  }

  lemma SweptSees(st: Server, now: int)
    ensures Swept(st, now) == Tick(st, now).db
    ensures forall key, t :: now <= t ==> Lookup(Swept(st, now), key, t) == Lookup(st.db, key, t)
  {
  }

  /** DEL removes its keys and no other, and replies how many different ones of them were stored. */
  lemma DelMeans(st: Server, args: seq<string>, ctx: Context, key: string, t: int)
    requires CommandOf(st.commands, args) == Some(DEL) && |args| >= 2 && ctx.now <= t
    ensures Process(st, args, ctx).reply == Number(|Swept(st, ctx.now).Keys * Named(args)|)
    ensures ViewAt(Process(st, args, ctx).server.db, key, t)
         == if key in Named(args) then Missing else ViewAt(st.db, key, t)
  {
    Keyless(DEL, args, ctx);
    SweptSees(st, ctx.now);
    assert SC.KeysOf(args) == Named(args);
    hide KeyPlan, CommandOf, Process, Tick, SC.KeysOf, Named, Swept;
    OtherCommand(st, args, ctx);
    Removed(Swept(st, ctx.now), Named(args), key, t);
  }

  lemma Removed(d: Db, names: set<string>, key: string, t: int)
    ensures Lookup(d - names, key, t) == if key in names then None else Lookup(d, key, t)
  {
  }

  /** How many times a visible key is among the arguments. */
  function Sightings(d: Db, args: seq<string>, now: int): set<int> {
    set i | 1 <= i < |args| && Lookup(d, args[i], now).Some?
  }

  lemma {:induction false} SightingsCounted(d: Db, args: seq<string>, now: int)
    ensures SC.CountLive(d, args, now) == |Sightings(d, args, now)|
    decreases |args|
  {
    hide Lookup;
    if |args| < 2 {
      assert Sightings(d, args, now) == {};
    } else {
      var n := |args| - 1;
      SightingsCounted(d, args[..n], now);
      assert Sightings(d, args, now)
          == Sightings(d, args[..n], now) + if Lookup(d, args[n], now).Some? then {n} else {};
    }
  }

  lemma SameSightings(d: Db, d': Db, args: seq<string>, now: int)
    requires forall k :: Lookup(d, k, now) == Lookup(d', k, now)
    ensures Sightings(d, args, now) == Sightings(d', args, now)
  {
    hide Lookup;
  }

  /** EXISTS replies how many of its arguments are visible keys, repetitions counted. */
  lemma ExistsMeans(st: Server, args: seq<string>, ctx: Context)
    requires CommandOf(st.commands, args) == Some(EXISTS) && |args| >= 2
    ensures Process(st, args, ctx).reply == Number(|Sightings(st.db, args, ctx.now)|)
  {
    Keyless(EXISTS, args, ctx);
    SweptSees(st, ctx.now);
    hide KeyPlan, CommandOf, Process, Tick, SC.KeysOf, PurgeAll, SC.CountLive, Sightings, Lookup, Swept;
    OtherCommand(st, args, ctx);
    SightingsCounted(Swept(st, ctx.now), args, ctx.now);
    SameSightings(Swept(st, ctx.now), st.db, args, ctx.now);
  }

  /** MGET lists the text of every key in order, an empty one where there is no string. */
  lemma MgetMeans(st: Server, args: seq<string>, ctx: Context, i: nat)
    requires CommandOf(st.commands, args) == Some(MGET) && i + 1 < |args|
    ensures var reply := Process(st, args, ctx).reply;
            reply.Items? && |reply.items| == |args| - 1
            && reply.items[i] == TextSeen(ViewAt(st.db, args[i + 1], ctx.now))
  {
    Keyless(MGET, args, ctx);
    SweptSees(st, ctx.now);
    TextsAlike(Lookup(st.db, args[i + 1], ctx.now));
    hide KeyPlan, CommandOf, Process, Tick, SC.KeysOf, PurgeAll, SC.TextOf, Lookup, Swept, TextSeen, ViewOf;
    OtherCommand(st, args, ctx);
  }

  lemma TextsAlike(cur: Option<RedisValue>)
    ensures SC.TextOf(cur) == TextSeen(ViewOf(cur))
  {
  }

  /** The argument at `i` names a key of MSET, and no later one names it again. */
  predicate LastNaming(args: seq<string>, i: int) {
    1 <= i && i + 1 < |args| && i % 2 == 1 && forall j :: i < j < |args| && j % 2 == 1 ==> args[j] != args[i]
  }

  lemma {:induction false} PairStored(d: Db, args: seq<string>, i: int)
    requires |args| % 2 == 1 && LastNaming(args, i)
    ensures args[i] in SC.PutPairs(d, args) && SC.PutPairs(d, args)[args[i]] == OfString(args[i + 1])
    decreases |args|
  {
    var n := |args| - 2;
    if i < n {
      var before := args[..n];
      assert forall j :: 0 <= j < n ==> before[j] == args[j];
      assert args[n] != args[i];
      PairStored(d, before, i);
    }
  }

  lemma {:induction false} OthersKept(d: Db, args: seq<string>, key: string)
    requires forall i :: 1 <= i < |args| && i % 2 == 1 ==> args[i] != key
    requires |args| % 2 == 1
    ensures key in SC.PutPairs(d, args) <==> key in d
    ensures key in d ==> SC.PutPairs(d, args)[key] == d[key]
    decreases |args|
  {
    if |args| >= 3 {
      var n := |args| - 2;
      assert forall j :: 0 <= j < n ==> args[..n][j] == args[j];
      OthersKept(d, args[..n], key);
    }
  }

  lemma MsetStores(d: Db, args: seq<string>, i: int, t: int)
    requires |args| % 2 == 1 && LastNaming(args, i)
    ensures ViewAt(SC.PutPairs(d, args), args[i], t) == TextView(args[i + 1])
    ensures ExpiryAt(SC.PutPairs(d, args), args[i], t).None?
  {
    PairStored(d, args, i);
    hide SC.PutPairs;
  }

  /** MSET stores every value under its key, the last value of a key counting, whatever the key held
      and without expiry. */
  lemma MsetMeans(st: Server, args: seq<string>, ctx: Context, i: int, t: int)
    requires CommandOf(st.commands, args) == Some(MSET) && |args| >= 3 && |args| % 2 == 1 && LastNaming(args, i)
    ensures var a := Process(st, args, ctx);
            && a.reply == Status("OK")
            && ViewAt(a.server.db, args[i], t) == TextView(args[i + 1]) && ExpiryAt(a.server.db, args[i], t).None?
  {
    Keyless(MSET, args, ctx);
    hide KeyPlan, CommandOf, Process, Tick, SC.PutPairs, LastNaming, ViewAt, ExpiryAt;
    OtherCommand(st, args, ctx);
    MsetStores(Tick(st, ctx.now).db, args, i, t);
  }

  /** And it leaves every other key alone. */
  lemma MsetKeeps(st: Server, args: seq<string>, ctx: Context, key: string, t: int)
    requires CommandOf(st.commands, args) == Some(MSET) && |args| >= 3 && |args| % 2 == 1 && ctx.now <= t
    requires forall i :: 1 <= i < |args| && i % 2 == 1 ==> args[i] != key
    ensures Lookup(Process(st, args, ctx).server.db, key, t) == Lookup(st.db, key, t)
  {
    Keyless(MSET, args, ctx);
    SweptSees(st, ctx.now);
    OthersKept(Swept(st, ctx.now), args, key);
    hide KeyPlan, CommandOf, Process, Tick, SC.PutPairs, Swept;
    OtherCommand(st, args, ctx);
    assert Lookup(Swept(st, ctx.now), key, t) == Lookup(st.db, key, t);
  }

  // ----- one after the other -----

  /** GET after MSET: the last value given for the key. */
  lemma StoredPairIsFound(st: Server, args: seq<string>, ctx: Context, next: seq<string>, ctx1: Context, i: nat)
    requires CommandOf(st.commands, args) == Some(MSET) && |args| >= 3 && |args| % 2 == 1 && LastNaming(args, i)
    requires CommandOf(st.commands, next) == Some(GET) && |next| == 2 && next[1] == args[i]
    ensures Process(Process(st, args, ctx).server, next, ctx1).reply == Bulk(args[i + 1])
  {
    hide CommandOf, Process, ViewAt, ExpiryAt, LastNaming;
    TableKept(st, args, ctx);
    MsetMeans(st, args, ctx, i, ctx1.now);
    ReadsMean(GET, Process(st, args, ctx).server, next, ctx1);
  }

  /** GET after APPEND: the text before, if it was a string, and then the argument. */
  lemma AppendedIsFound(st: Server, args: seq<string>, ctx: Context, next: seq<string>, ctx1: Context)
    requires CommandOf(st.commands, args) == Some(APPEND) && |args| == 3 && ctx.now <= ctx1.now
    requires CommandOf(st.commands, next) == Some(GET) && |next| == 2 && next[1] == args[1]
    ensures Process(Process(st, args, ctx).server, next, ctx1).reply
         == Bulk(TextSeen(ViewAt(st.db, args[1], ctx.now)) + args[2])
  {
    hide CommandOf, Process, ViewAt, ExpiryAt;
    TableKept(st, args, ctx);
    AppendMeans(st, args, ctx, ctx1.now);
    ReadsMean(GET, Process(st, args, ctx).server, next, ctx1);
  }

  /** EXISTS after DEL of the same keys: none. */
  lemma DeletedDoNotExist(st: Server, args: seq<string>, ctx: Context, next: seq<string>, ctx1: Context)
    requires CommandOf(st.commands, args) == Some(DEL) && |args| >= 2 && ctx.now <= ctx1.now
    requires CommandOf(st.commands, next) == Some(EXISTS) && |next| >= 2 && next[1..] == args[1..]
    ensures Process(Process(st, args, ctx).server, next, ctx1).reply == Number(0)
  {
    hide CommandOf, Process, Lookup, Swept;
    TableKept(st, args, ctx);
    var st1 := Process(st, args, ctx).server;
    ExistsMeans(st1, next, ctx1);
    forall i | 1 <= i < |next| ensures Lookup(st1.db, next[i], ctx1.now).None? {
      assert next[i] == next[1..][i - 1] == args[1..][i - 1] == args[i];
      DelMeans(st, args, ctx, next[i], ctx1.now);
      MissingIsNone(Lookup(st1.db, next[i], ctx1.now));
    }
    assert Sightings(st1.db, next, ctx1.now) == {};
  }

  lemma MissingIsNone(cur: Option<RedisValue>)
    ensures ViewOf(cur).Missing? <==> cur.None?
  {
  }

  /** MGET lists what GET replies, with an empty string where GET replies null. */
  lemma MgetListsGet(st: Server, args: seq<string>, ctx: Context, i: nat, next: seq<string>)
    requires CommandOf(st.commands, args) == Some(MGET) && i + 1 < |args|
    requires CommandOf(st.commands, next) == Some(GET) && |next| == 2 && next[1] == args[i + 1]
    ensures var listed, got := Process(st, args, ctx).reply, Process(st, next, ctx).reply;
            && listed.Items? && |listed.items| == |args| - 1
            && (!ViewAt(st.db, next[1], ctx.now).OtherView? ==>
                (got.Bulk? || got == Nil) && listed.items[i] == if got.Bulk? then got.text else "")
  {
    hide CommandOf, Process, ViewAt;
    MgetMeans(st, args, ctx, i);
    ReadsMean(GET, st, next, ctx);
  }

  /** So MGET cannot tell servers apart of which one holds the empty string where the other holds
      nothing. */
  lemma MissingLooksEmpty(st: Server, st': Server, args: seq<string>, ctx: Context)
    requires CommandOf(st.commands, args) == Some(MGET) && CommandOf(st'.commands, args) == Some(MGET) && |args| >= 2
    requires forall k :: var v, v' := ViewAt(st.db, k, ctx.now), ViewAt(st'.db, k, ctx.now);
                         v == v' || (v.Missing? && v' == TextView(""))
    ensures Process(st, args, ctx).reply == Process(st', args, ctx).reply
  {
    hide CommandOf, Process, ViewAt;
    MgetMeans(st, args, ctx, 0);
    MgetMeans(st', args, ctx, 0);
    var a, b := Process(st, args, ctx).reply.items, Process(st', args, ctx).reply.items;
    forall i | 0 <= i < |args| - 1 ensures a[i] == b[i] {
      MgetMeans(st, args, ctx, i);
      MgetMeans(st', args, ctx, i);
    }
    assert a == b;
  }
}
