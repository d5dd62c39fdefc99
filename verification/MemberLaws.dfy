/** What the set commands mean to a client. */
module MemberLaws {
  import opened Text
  import opened RedisValue
  import opened RedisDatabase
  import opened RespFormatter
  import opened StringOrder
  import opened Replies
  import opened CommandPlan
  import opened CommandHandler
  import opened ClientView
  import EC = SetCommands

  /** The members of a set, none for a missing key. */
  function MembersSeen(v: View): set<string> {
    if v.SetView? then v.members else {}
  }

  function RemainingSet(members: set<string>): View {
    if members == {} then Missing else SetView(members)
  }

  /** The different arguments after the key. */
  function Given(args: seq<string>): set<string> {
    set i | 2 <= i < |args| :: args[i]
  }

  lemma GivenMembers(args: seq<string>)
    ensures EC.MembersIn(args) == Given(args)
  {
  }

  lemma UpdatePlans(args: seq<string>, ctx: Context)
    ensures KeyPlan(SADD, args, ctx) == Some(EC.Sadd(args)) && KeyPlan(SREM, args, ctx) == Some(EC.Srem(args))
    ensures KeyPlan(SPOP, args, ctx) == Some(EC.Spop(args, ctx.pick))
  {
    hide EC.Sadd, EC.Srem, EC.Spop;
  }

  lemma ReadPlans(args: seq<string>, ctx: Context)
    ensures KeyPlan(SISMEMBER, args, ctx) == Some(EC.Sismember(args))
    ensures KeyPlan(SCARD, args, ctx) == Some(EC.Scard(args))
    ensures KeyPlan(SMEMBERS, args, ctx) == Some(EC.Smembers(args))
  {
    hide EC.Sismember, EC.Scard, EC.Smembers;
  }

  lemma Added(v: RedisValue, given: set<string>, t: int)
    requires v.kind == RedisType.SET
    ensures var w := v.(members := v.members + given);
            && ViewOf(Some(w)) == SetView(v.members + given)
            && ExpiryOf(Some(w)) == ExpiryOf(Some(v)) && w.IsExpired(t) == v.IsExpired(t)
  {
  }

  lemma AddShows(cur: Option<RedisValue>, given: set<string>, t: int)
    ensures var a, before := EC.AddMembers(cur, given), ViewOf(cur);
            if before.Missing? || before.SetView?
            then && a.reply == Number(|given - MembersSeen(before)|) && a.effect.Put?
                 && ViewOf(Some(a.effect.value)) == SetView(MembersSeen(before) + given)
                 && ExpiryOf(Some(a.effect.value)) == ExpiryOf(cur)
                 && (a.effect.value.IsExpired(t) ==> cur.Some? && cur.value.IsExpired(t))
            else a == Say(Failure(WrongType))
  {
    if cur.None? || cur.value.kind == RedisType.SET {
      Added(if cur.Some? then cur.value else OfType(RedisType.SET), given, t);
    }
  }

  lemma SaddShows(args: seq<string>, d: Db, now: int, t: int)
    requires |args| >= 3 && Lasts(d, args[1], now, t)
    ensures var p, before := EC.Sadd(args), ViewAt(d, args[1], now);
            if before.Missing? || before.SetView?
            then ReplyTo(p, d, now) == Number(|Given(args) - MembersSeen(before)|)
                 && ViewAfter(p, d, args[1], now, t) == SetView(MembersSeen(before) + Given(args))
                 && ExpiryAfter(p, d, args[1], now, t) == ExpiryAt(d, args[1], now)
            else ReplyTo(p, d, now) == Failure(WrongType) && ViewAfter(p, d, args[1], now, t) == before
  {
    GivenMembers(args);
    LastsMeans(d, args[1], now, t);
    AddShows(Lookup(d, args[1], now), Given(args), t);
    hide Given, EC.MembersIn, EC.AddMembers, Lookup, ViewOf, ExpiryOf, MembersSeen;
  }

  /** SADD makes the arguments members and replies how many were not members yet. */
  lemma SaddMeans(st: Server, args: seq<string>, ctx: Context, t: int)
    requires CommandOf(st.commands, args) == Some(SADD) && |args| >= 3 && Lasts(st.db, args[1], ctx.now, t)
    ensures var a, before := Process(st, args, ctx), ViewAt(st.db, args[1], ctx.now);
            var after := ViewAt(a.server.db, args[1], t);
            if before.Missing? || before.SetView?
            then a.reply == Number(|Given(args) - MembersSeen(before)|)
                 && after == SetView(MembersSeen(before) + Given(args))
                 && ExpiryAt(a.server.db, args[1], t) == ExpiryAt(st.db, args[1], ctx.now)
            else a.reply == Failure(WrongType) && after == before
  {
    hide KeyPlan, CommandOf, Process, EC.Sadd, ViewAt, ViewAfter, ReplyTo, ExpiryAt, ExpiryAfter, Given;
    UpdatePlans(args, ctx);
    KeyCommand(st, args, ctx, EC.Sadd(args), args[1], t);
    SaddShows(args, st.db, ctx.now, t);
  }

  lemma SremShows(args: seq<string>, d: Db, now: int, t: int)
    requires |args| >= 3 && Lasts(d, args[1], now, t)
    ensures var p, before := EC.Srem(args), ViewAt(d, args[1], now);
            && ReplyTo(p, d, now) == Number(|MembersSeen(before) * Given(args)|)
            && ViewAfter(p, d, args[1], now, t)
               == if before.SetView? then RemainingSet(before.members - Given(args)) else before
  {
    GivenMembers(args);
    LastsMeans(d, args[1], now, t);
    NothingInCommon(Given(args));
    hide Given, EC.MembersIn, Lookup;
  }

  lemma NothingInCommon(given: set<string>)
    ensures |MembersSeen(Missing) * given| == 0
  {
    assert MembersSeen(Missing) * given == {};
  }

  /** SREM takes the arguments out and replies how many were members; the key goes with the last one. */
  lemma SremMeans(st: Server, args: seq<string>, ctx: Context, t: int)
    requires CommandOf(st.commands, args) == Some(SREM) && |args| >= 3 && Lasts(st.db, args[1], ctx.now, t)
    ensures var a, before := Process(st, args, ctx), ViewAt(st.db, args[1], ctx.now);
            && a.reply == Number(|MembersSeen(before) * Given(args)|)
            && ViewAt(a.server.db, args[1], t)
               == if before.SetView? then RemainingSet(before.members - Given(args)) else before
  {
    hide KeyPlan, CommandOf, Process, EC.Srem, ViewAt, ViewAfter, ReplyTo, Given, RemainingSet;
    UpdatePlans(args, ctx);
    KeyCommand(st, args, ctx, EC.Srem(args), args[1], t);
    SremShows(args, st.db, ctx.now, t);
  }

  lemma SpopShows(args: seq<string>, pick: string, d: Db, now: int, t: int)
    requires |args| == 2 && Lasts(d, args[1], now, t)
    ensures var p, before := EC.Spop(args, pick), ViewAt(d, args[1], now);
            if pick in MembersSeen(before)
            then ReplyTo(p, d, now) == Bulk(pick)
                 && ViewAfter(p, d, args[1], now, t) == RemainingSet(before.members - {pick})
            else ReplyTo(p, d, now) == Nil && ViewAfter(p, d, args[1], now, t) == before
  {
  }

  /** SPOP replies a member and takes just that one out; null for what is not a set with members. */
  lemma SpopMeans(st: Server, args: seq<string>, ctx: Context, t: int)
    requires CommandOf(st.commands, args) == Some(SPOP) && |args| == 2 && Lasts(st.db, args[1], ctx.now, t)
    requires FairAt(st, args, ctx)
    ensures var a, before := Process(st, args, ctx), ViewAt(st.db, args[1], ctx.now);
            var after := ViewAt(a.server.db, args[1], t);
            if MembersSeen(before) == {} then a.reply == Nil && after == before
            else exists x :: x in before.members && a.reply == Bulk(x) && after == RemainingSet(before.members - {x})
  {
    PickIsMember(st, args, ctx);
    hide KeyPlan, CommandOf, Process, EC.Spop, ViewAt, ViewAfter, ReplyTo, RemainingSet, FairAt;
    UpdatePlans(args, ctx);
    KeyCommand(st, args, ctx, EC.Spop(args, ctx.pick), args[1], t);
    SpopShows(args, ctx.pick, st.db, ctx.now, t);
  }

  lemma PickIsMember(st: Server, args: seq<string>, ctx: Context)
    requires CommandOf(st.commands, args) == Some(SPOP) && |args| == 2 && FairAt(st, args, ctx)
    ensures var members := MembersSeen(ViewAt(st.db, args[1], ctx.now));
            members != {} ==> ctx.pick in members
  {
    hide ToUpper;
    assert Lookup(Tick(st, ctx.now).db, args[1], ctx.now) == Lookup(st.db, args[1], ctx.now);
  }

  lemma ReadsReply(args: seq<string>, d: Db, now: int)
    requires |args| >= 2
    ensures var before := ViewAt(d, args[1], now);
            && (|args| == 3 ==>
                ReplyTo(EC.Sismember(args), d, now) == Number(if args[2] in MembersSeen(before) then 1 else 0))
            && (|args| == 2 ==> ReplyTo(EC.Scard(args), d, now) == Number(|MembersSeen(before)|))
            && (|args| == 2 ==>
                ReplyTo(EC.Smembers(args), d, now)
                == if before.SetView? then Members(before.members) else Items([]))
  {
  }

  /** SISMEMBER tells whether its last argument is a member, SCARD how many members there are. */
  lemma MembershipMeans(st: Server, args: seq<string>, ctx: Context)
    requires CommandOf(st.commands, args).Some?
    ensures CommandOf(st.commands, args) == Some(SISMEMBER) && |args| == 3 ==>
              Process(st, args, ctx).reply
              == Number(if args[2] in MembersSeen(ViewAt(st.db, args[1], ctx.now)) then 1 else 0)
    ensures CommandOf(st.commands, args) == Some(SCARD) && |args| == 2 ==>
              Process(st, args, ctx).reply == Number(|MembersSeen(ViewAt(st.db, args[1], ctx.now))|)
  {
    hide KeyPlan, CommandOf, Process, EC.Sismember, EC.Scard, ViewAt, ReplyTo;
    ReadPlans(args, ctx);
    if CommandOf(st.commands, args) == Some(SISMEMBER) && |args| == 3 {
      KeyCommand(st, args, ctx, EC.Sismember(args), args[1], ctx.now);
      ReadsReply(args, st.db, ctx.now);
    } else if CommandOf(st.commands, args) == Some(SCARD) && |args| == 2 {
      KeyCommand(st, args, ctx, EC.Scard(args), args[1], ctx.now);
      ReadsReply(args, st.db, ctx.now);
    }
  }

  /** `resp` lists the members in ascending order. */
  ghost predicate ListsMembers(resp: string, members: set<string>) {
    exists order :: resp == FormatArray(order) && Ascending(order) && multiset(order) == multiset(members)
  }

  lemma MembersRendered(v: View, resp: string)
    requires Renders(if v.SetView? then Members(v.members) else Items([]), resp)
    ensures ListsMembers(resp, MembersSeen(v))
  {
    hide FormatArray;
    if v.SetView? {
      var order :| InOrder(order, v.members) && resp == FormatArray(order);
    } else {
      assert Ascending([]) && multiset([]) == multiset(MembersSeen(Missing));
    }
  }

  /** SMEMBERS lists, in ascending order, exactly the strings for which SISMEMBER replies 1. */
  lemma SmembersMeans(st: Server, args: seq<string>, ctx: Context, resp: string)
    requires CommandOf(st.commands, args) == Some(SMEMBERS) && |args| == 2
    requires Renders(Process(st, args, ctx).reply, resp)
    ensures ListsMembers(resp, MembersSeen(ViewAt(st.db, args[1], ctx.now)))
  {
    hide KeyPlan, CommandOf, Process, EC.Smembers, ViewAt, ReplyTo, Renders, ListsMembers;
    ReadPlans(args, ctx);
    KeyCommand(st, args, ctx, EC.Smembers(args), args[1], ctx.now);
    ReadsReply(args, st.db, ctx.now);
    MembersRendered(ViewAt(st.db, args[1], ctx.now), resp);
  }

  /** SISMEMBER after SADD: the old members and the arguments, and no others. */
  lemma AddedAreMembers(st: Server, args: seq<string>, ctx: Context, next: seq<string>, ctx1: Context)
    requires CommandOf(st.commands, args) == Some(SADD) && |args| >= 3
    requires Lasts(st.db, args[1], ctx.now, ctx1.now)
    requires ViewAt(st.db, args[1], ctx.now).Missing? || ViewAt(st.db, args[1], ctx.now).SetView?
    requires CommandOf(st.commands, next) == Some(SISMEMBER) && |next| == 3 && next[1] == args[1]
    ensures Process(Process(st, args, ctx).server, next, ctx1).reply
         == Number(if next[2] in MembersSeen(ViewAt(st.db, args[1], ctx.now)) || next[2] in args[2..] then 1 else 0)
  {
    GivenAre(args, next[2]);
    hide CommandOf, Process, ViewAt, Lasts, ExpiryAt, Given;
    TableKept(st, args, ctx);
    SaddMeans(st, args, ctx, ctx1.now);
    MembershipMeans(Process(st, args, ctx).server, next, ctx1);
  }

  lemma GivenAre(args: seq<string>, x: string)
    requires |args| >= 2
    ensures x in Given(args) <==> x in args[2..]
  {
    if x in args[2..] {
      var i :| 0 <= i < |args[2..]| && args[2..][i] == x;
      assert args[i + 2] == x;
    }
    if x in Given(args) {
      var i :| 2 <= i < |args| && args[i] == x;
      assert args[2..][i - 2] == x;
    }
  }

  /** SREM of members that SADD has just added replies the same number and restores the set, or its
      absence. */
  lemma RemoveUndoesAdd(st: Server, args: seq<string>, ctx: Context, next: seq<string>, ctx1: Context)
    requires CommandOf(st.commands, args) == Some(SADD) && |args| >= 3
    requires Lasts(st.db, args[1], ctx.now, ctx1.now)
    requires ViewAt(st.db, args[1], ctx.now).Missing? || ViewAt(st.db, args[1], ctx.now).SetView?
    requires ViewAt(st.db, args[1], ctx.now) != SetView({})
    requires MembersSeen(ViewAt(st.db, args[1], ctx.now)) !! Given(args)
    requires CommandOf(st.commands, next) == Some(SREM) && |next| == |args| && next[1..] == args[1..]
    ensures var a := Process(Process(st, args, ctx).server, next, ctx1);
            && a.reply == Process(st, args, ctx).reply
            && ViewAt(a.server.db, args[1], ctx1.now) == ViewAt(st.db, args[1], ctx.now)
  {
    SameGiven(args, next);
    hide CommandOf, Process, ViewAt, ExpiryAt, Given;
    var st1, before, given := Process(st, args, ctx).server, ViewAt(st.db, args[1], ctx.now), Given(args);
    TableKept(st, args, ctx);
    SaddMeans(st, args, ctx, ctx1.now);
    AlwaysLasts(st1.db, args[1], ctx1.now);
    hide Lasts;
    SremMeans(st1, next, ctx1, ctx1.now);
    AddedAndRemoved(MembersSeen(before), given);
  }

  lemma AddedAndRemoved(m: set<string>, given: set<string>)
    requires m !! given
    ensures (m + given) * given == given == given - m && (m + given) - given == m
  {
  }

  lemma SameGiven(args: seq<string>, next: seq<string>)
    requires |next| == |args| >= 3 && next[1..] == args[1..]
    ensures Given(next) == Given(args) && next[1] == args[1]
  {
    assert forall i :: 1 <= i < |args| ==> next[i] == next[1..][i - 1] && args[i] == args[1..][i - 1];
  }
}
