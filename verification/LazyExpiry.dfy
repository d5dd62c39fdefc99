/** Expired entries are erased by reads, by DBSIZE and by sweeps. No client can tell when:
    the visible part of the database, and every reply except those of DEL and INFO, depend only
    on what was visible before. */
module LazyExpiry {
  import opened Text
  import opened RedisValue
  import opened RedisDatabase
  import opened Replies
  import opened CommandPlan
  import opened GlobRegex
  import opened CommandHandler
  import opened StringCommands
  import opened Runs
  import opened ArgumentSets
  import VC = ServerCommands

  /** Two databases that a client cannot tell apart at time `now`. */
  ghost predicate SameView(d: Db, d': Db, now: int) {
    Live(d, now) == Live(d', now)
  }

  // ----- erasing what has expired changes no view -----

  lemma LiveOfLive(d: Db, now: int, t: int)
    requires now <= t
    ensures Live(Live(d, now), t) == Live(d, t)
  {
  }

  lemma PurgeKeepsView(d: Db, key: string, now: int, t: int)
    requires now <= t
    ensures Live(Purge(d, key, now), t) == Live(d, t)
  {
  }

  lemma PurgeAllKeepsView(d: Db, keys: set<string>, now: int, t: int)
    requires now <= t
    ensures Live(PurgeAll(d, keys, now), t) == Live(d, t)
  {
  }

  /** A view, once equal, stays equal as time passes. */
  lemma ViewsStayEqual(d: Db, d': Db, now: int, t: int)
    requires SameView(d, d', now) && now <= t
    ensures SameView(d, d', t)
  {
    LiveOfLive(d, now, t);
    LiveOfLive(d', now, t);
  }

  lemma SameLookup(d: Db, d': Db, key: string, now: int)
    requires SameView(d, d', now)
    ensures Lookup(d, key, now) == Lookup(d', key, now)
  {
    assert key in Live(d, now) <==> key in Live(d', now);
    if key in Live(d, now) {
      assert Live(d, now)[key] == Live(d', now)[key];
    }
  }

  lemma SameApply(d: Db, d': Db, key: string, e: Effect, now: int)
    requires SameView(d, d', now)
    ensures SameView(Apply(d, key, e), Apply(d', key, e), now)
  {
    forall k ensures Lookup(Apply(d, key, e), k, now) == Lookup(Apply(d', key, e), k, now) {
      SameLookup(d, d', k, now);
    }
    ViewFromLookups(Apply(d, key, e), Apply(d', key, e), now);
  }

  lemma ViewFromLookups(d: Db, d': Db, now: int)
    requires forall k :: Lookup(d, k, now) == Lookup(d', k, now)
    ensures SameView(d, d', now)
  {
    forall k ensures k in Live(d, now) <==> k in Live(d', now) {
      assert Lookup(d, k, now) == Lookup(d', k, now);
    }
    forall k | k in Live(d, now) ensures Live(d, now)[k] == Live(d', now)[k] {
      assert Lookup(d, k, now) == Lookup(d', k, now);
    }
  }

  // ----- commands -----

  lemma SamePlan(p: Plan, d: Db, d': Db, now: int)
    requires SameView(d, d', now)
    ensures RunPlan(p, d, now).reply == RunPlan(p, d', now).reply
    ensures SameView(RunPlan(p, d, now).db, RunPlan(p, d', now).db, now)
  {
    hide Purge, Apply;
    match p
    case Refuse(_) =>
    case Touch(key, act) =>
      SameLookup(d, d', key, now);
      PurgeKeepsView(d, key, now, now);
      PurgeKeepsView(d', key, now, now);
      SameApply(Purge(d, key, now), Purge(d', key, now), key, act(Lookup(d, key, now)).effect, now);
  }

  lemma SameSet(d: Db, d': Db, args: seq<string>, now: int, later: int)
    requires SameView(d, d', now)
    ensures Set(d, args, now, later).reply == Set(d', args, now, later).reply
    ensures SameView(Set(d, args, now, later).db, Set(d', args, now, later).db, now)
  {
    hide Purge, ReadOptions, WithExpiry, Blocked, Conditional;
    if |args| >= 3 {
      var key, o := args[1], ReadOptions(args, 3);
      SameLookup(d, d', key, now);
      PurgeKeepsView(d, key, now, now);
      PurgeKeepsView(d', key, now, now);
      var seen := if Conditional(o.options) then Purge(d, key, now) else d;
      var seen' := if Conditional(o.options) then Purge(d', key, now) else d';
      SameApply(seen, seen', key, Put(WithExpiry(OfString(args[2]), o.options, later)), now);
    }
  }

  lemma SameDel(d: Db, d': Db, args: seq<string>, now: int)
    requires SameView(d, d', now)
    ensures SameView(Del(d, args).db, Del(d', args).db, now)
  {
    hide KeysOf;
    var e, e' := Del(d, args).db, Del(d', args).db;
    forall k ensures Lookup(e, k, now) == Lookup(e', k, now) {
      SameLookup(d, d', k, now);
    }
    ViewFromLookups(e, e', now);
  }

  lemma {:induction false} SameCount(d: Db, d': Db, args: seq<string>, now: int)
    requires SameView(d, d', now)
    ensures CountLive(d, args, now) == CountLive(d', args, now)
  {
    if |args| >= 2 {
      SameCount(d, d', args[..|args| - 1], now);
      SameLookup(d, d', args[|args| - 1], now);
    }
  }

  lemma SameReads(d: Db, d': Db, args: seq<string>, now: int)
    requires SameView(d, d', now)
    ensures Exists(d, args, now).reply == Exists(d', args, now).reply
    ensures SameView(Exists(d, args, now).db, Exists(d', args, now).db, now)
    ensures Mget(d, args, now).reply == Mget(d', args, now).reply
    ensures SameView(Mget(d, args, now).db, Mget(d', args, now).db, now)
  {
    hide PurgeAll, KeysOf, TextOf, SameView;
    assert SameView(d, d', now);
    SameCount(d, d', args, now);
    forall k ensures Lookup(d, k, now) == Lookup(d', k, now) {
      SameLookup(d, d', k, now);
    }
    SamePurgeAll(d, d', KeysOf(args), now);
    if |args| >= 2 {
      assert Mget(d, args, now).reply.items == Mget(d', args, now).reply.items;
    }
  }

  lemma SamePurgeAll(d: Db, d': Db, keys: set<string>, now: int)
    requires SameView(d, d', now)
    ensures SameView(PurgeAll(d, keys, now), PurgeAll(d', keys, now), now)
  {
    PurgeAllKeepsView(d, keys, now, now);
    PurgeAllKeepsView(d', keys, now, now);
  }

  lemma {:induction false} SameMset(d: Db, d': Db, args: seq<string>, now: int)
    requires SameView(d, d', now)
    ensures SameView(PutPairs(d, args), PutPairs(d', args), now)
  {
    if |args| >= 3 {
      var n := |args| - 2;
      SameMset(d, d', args[..n], now);
      SameApply(PutPairs(d, args[..n]), PutPairs(d', args[..n]), args[n], Put(OfString(args[n + 1])), now);
    }
  }

  lemma SameFound(d: Db, d': Db, matches: string -> bool, now: int)
    requires SameView(d, d', now)
    ensures Found(d, matches, now) == Found(d', matches, now)
  {
    forall k ensures k in Found(d, matches, now) <==> k in Found(d', matches, now) {
      SameLookup(d, d', k, now);
    }
  }

  /** The commands whose replies count entries that nobody can see. */
  predicate CountsExpired(c: Command) {
    c == DEL || c == INFO
  }

  lemma SameOther(c: Command, args: seq<string>, st: Server, st': Server, ctx: Context)
    requires SameView(st.db, st'.db, ctx.now) && KeyPlan(c, args, ctx).None?
    ensures !CountsExpired(c) ==> Other(c, args, st, ctx).reply == Other(c, args, st', ctx).reply
    ensures SameView(Other(c, args, st, ctx).db, Other(c, args, st', ctx).db, ctx.now)
  {
    hide SameView, KeyPlan, Set, Exists, Mget, Mset, Del, VC.KeysReply, VC.Dbsize, VC.Flushall, VC.Ping,
      VC.Echo, VC.Info, VC.Time;
    var d, d', now := st.db, st'.db, ctx.now;
    SameSet(d, d', args, now, ctx.later);
    SameDel(d, d', args, now);
    SameReads(d, d', args, now);
    SamePairs(d, d', args, now);
    SameKeys(d, d', args, now, ctx.engine);
    SameSweep(d, d', args, now);
  }

  lemma SamePairs(d: Db, d': Db, args: seq<string>, now: int)
    requires SameView(d, d', now)
    ensures Mset(d, args).reply == Mset(d', args).reply && SameView(Mset(d, args).db, Mset(d', args).db, now)
  {
    hide SameView, PutPairs;
    SameMset(d, d', args, now);
  }

  lemma SameKeys(d: Db, d': Db, args: seq<string>, now: int, engine: Engine)
    requires SameView(d, d', now)
    ensures VC.KeysReply(d, args, now, engine) == VC.KeysReply(d', args, now, engine)
  {
    hide SameView, Found, Translate;
    if |args| == 2 && engine(Translate(args[1])).Language? {
      SameFound(d, d', engine(Translate(args[1])).matches, now);
    }
  }

  /** DBSIZE and FLUSHALL. */
  lemma SameSweep(d: Db, d': Db, args: seq<string>, now: int)
    requires SameView(d, d', now)
    ensures VC.Dbsize(d, args, now).reply == VC.Dbsize(d', args, now).reply
    ensures SameView(VC.Dbsize(d, args, now).db, VC.Dbsize(d', args, now).db, now)
    ensures VC.Flushall(d, args).reply == VC.Flushall(d', args).reply
    ensures SameView(VC.Flushall(d, args).db, VC.Flushall(d', args).db, now)
  {
  }

  lemma SameExec(c: Command, args: seq<string>, st: Server, st': Server, ctx: Context)
    requires SameView(st.db, st'.db, ctx.now)
    ensures !CountsExpired(c) ==> Exec(c, args, st, ctx).reply == Exec(c, args, st', ctx).reply
    ensures SameView(Exec(c, args, st, ctx).db, Exec(c, args, st', ctx).db, ctx.now)
  {
    hide SameView, KeyPlan, Other, RunPlan;
    match KeyPlan(c, args, ctx)
    case Some(p) => SamePlan(p, st.db, st'.db, ctx.now);
    case None => SameOther(c, args, st, st', ctx);
  }

  // ----- runs -----

  function WithoutSweeps(events: seq<Event>): seq<Event> {
    if events == [] then []
    else if events[0].Sweep? then WithoutSweeps(events[1..])
    else [events[0]] + WithoutSweeps(events[1..])
  }

  /** Servers with the same table and the same visible entries; their counters, and so the
      moments of their own sweeps, may differ. */
  ghost predicate Alike(st: Server, st': Server, now: int) {
    st.commands == st'.commands && SameView(st.db, st'.db, now)
  }

  /** The same command was recognised, and the same reply given unless it counts expired entries. */
  ghost predicate SameExchange(x: Exchange, x': Exchange) {
    x.command == x'.command && (x.reply == x'.reply || (x.command.Some? && CountsExpired(x.command.value)))
  }

  lemma TickKeepsView(st: Server, now: int)
    ensures SameView(Tick(st, now).db, st.db, now)
  {
    LiveOfLive(st.db, now, now);
  }

  lemma AlikeAfterCommand(st: Server, st': Server, args: seq<string>, ctx: Context)
    requires Alike(st, st', ctx.now)
    ensures Alike(Process(st, args, ctx).server, Process(st', args, ctx).server, ctx.now)
    ensures SameExchange(Exchange(CommandOf(st.commands, args), Process(st, args, ctx).reply),
                         Exchange(CommandOf(st'.commands, args), Process(st', args, ctx).reply))
  {
    hide Exec, ToUpper, Tick;
    if args != [] && CommandOf(st.commands, args).Some? {
      TickKeepsView(st, ctx.now);
      TickKeepsView(st', ctx.now);
      SameExec(CommandOf(st.commands, args).value, args, Tick(st, ctx.now), Tick(st', ctx.now), ctx);
    } else {
      TickKeepsView(st, ctx.now);
      TickKeepsView(st', ctx.now);
    }
    TickKeepsTable(st, ctx.now);
    TickKeepsTable(st', ctx.now);
  }

  lemma TickKeepsTable(st: Server, now: int)
    ensures Tick(st, now).commands == st.commands
  {
  }

  lemma SweepKeepsAlike(st: Server, st': Server, now: int)
    requires Alike(st, st', now)
    ensures Alike(st.(db := Live(st.db, now)), st', now)
  {
    LiveOfLive(st.db, now, now);
  }

  /** Sweeping at arbitrary moments, or not at all, leads to the same conversation, except for
      the replies of DEL and INFO, and to the same visible database. */
  lemma {:induction false} SweepsAreUnobservable(st: Server, st': Server, events: seq<Event>, t: int)
    requires Alike(st, st', t) && Ordered(events, t)
    ensures var talk, talk' := Conversation(st, events), Conversation(st', WithoutSweeps(events));
            |talk| == |talk'| && forall i :: 0 <= i < |talk| ==> SameExchange(talk[i], talk'[i])
    ensures Alike(Final(st, events), Final(st', WithoutSweeps(events)), EndTime(events, t))
    decreases |events|
  {
    hide Process, SameView, CommandOf, Live;
    if events != [] {
      var e, rest := events[0], events[1..];
      var now := TimeOf(e);
      ViewsStayEqual(st.db, st'.db, t, now);
      if e.Sweep? {
        SweepKeepsAlike(st, st', now);
        SweepsAreUnobservable(After(st, e), st', rest, now);
      } else {
        AlikeAfterCommand(st, st', e.args, e.ctx);
        ViewsStayEqual(After(st, e).db, After(st', e).db, now, EndOf(e));
        SweepsAreUnobservable(After(st, e), After(st', e), rest, EndOf(e));
        assert WithoutSweeps(events)[1..] == WithoutSweeps(rest);
      }
    }
  }

  // ----- the two exceptions, exactly -----

  /** DEL replies the number of visible keys it removed exactly when no key it was given had
      expired without being erased yet. */
  lemma DelCountsVisibleKeys(d: Db, args: seq<string>, now: int)
    requires |args| >= 2
    ensures Del(d, args).reply == Del(Live(d, now), args).reply
       <==> forall k :: k in KeysOf(args) && k in d ==> k in Live(d, now)
  {
    hide KeysOf;
    var keys := KeysOf(args);
    var seen, stored := Live(d, now).Keys * keys, d.Keys * keys;
    assert seen <= stored;
    if forall k :: k in keys && k in d ==> k in Live(d, now) {
      assert seen == stored;
    }
    if |seen| == |stored| {
      SubsetSameSize(seen, stored);
      forall k | k in keys && k in d ensures k in Live(d, now) {
        assert k in stored;
      }
    }
  }

  /** INFO reports the number of visible keys exactly when nothing expired is left. */
  lemma InfoCountsVisibleKeys(d: Db, start: int, total: nat, now: int)
    ensures VC.Info(|d|, start, total, now) == VC.Info(|Live(d, now)|, start, total, now) <==> d == Live(d, now)
  {
    hide VC.Info;
    VC.InfoTellsTheCount(|d|, |Live(d, now)|, start, total, now);
    assert Live(d, now).Keys <= d.Keys;
    if |d| == |Live(d, now)| {
      SubsetSameSize(Live(d, now).Keys, d.Keys);
    }
  }
}
