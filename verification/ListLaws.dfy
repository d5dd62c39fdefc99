/** What the list commands mean to a client: which end each of them works at, in which order they
    list, and that a list served from both ends is a queue. */
module ListLaws {
  import opened Text
  import opened Decimal
  import opened RedisDatabase
  import opened Replies
  import opened CommandHandler
  import opened Runs
  import opened DatabaseInvariants
  import opened ClientView
  import LC = ListCommands

  /** The items of a list, none for a missing key. */
  function ItemsIn(v: View): seq<string> {
    if v.ListView? then v.items else []
  }

  function Backwards(items: seq<string>): seq<string> {
    seq(|items|, i requires 0 <= i < |items| => items[|items| - 1 - i])
  }

  /** The view of a list from which the last element may have gone. */
  function Remaining(items: seq<string>): View {
    if items == [] then Missing else ListView(items)
  }

  /** The item an index names: i counts from the front, -i from the back. */
  function ItemAt(items: seq<string>, i: int): Option<string> {
    if 0 <= i < |items| then Some(items[i])
    else if -|items| <= i < 0 then Some(items[|items| + i])
    else None
  }

  lemma {:induction false} ReverseIsBackwards(items: seq<string>)
    ensures LC.Reverse(items) == Backwards(items)
  {
    if items != [] {
      var n := |items| - 1;
      ReverseIsBackwards(items[..n]);
      assert Backwards(items) == [items[n]] + Backwards(items[..n]);
    }
  }

  lemma UpdatePlans(args: seq<string>, ctx: Context)
    ensures KeyPlan(LPUSH, args, ctx) == Some(LC.Lpush(args)) && KeyPlan(RPUSH, args, ctx) == Some(LC.Rpush(args))
    ensures KeyPlan(LPOP, args, ctx) == Some(LC.Lpop(args)) && KeyPlan(RPOP, args, ctx) == Some(LC.Rpop(args))
  {
    hide LC.Lpush, LC.Rpush, LC.Lpop, LC.Rpop;
  }

  lemma IndexPlans(args: seq<string>, ctx: Context)
    ensures KeyPlan(LLEN, args, ctx) == Some(LC.Llen(args)) && KeyPlan(LRANGE, args, ctx) == Some(LC.Lrange(args))
    ensures KeyPlan(LINDEX, args, ctx) == Some(LC.Lindex(args)) && KeyPlan(LSET, args, ctx) == Some(LC.Lset(args))
  {
    hide LC.Llen, LC.Lrange, LC.Lindex, LC.Lset;
  }

  // ----- pushing -----

  lemma LpushShows(args: seq<string>, d: Db, now: int, t: int)
    requires |args| >= 3 && Lasts(d, args[1], now, t)
    ensures var p, before := LC.Lpush(args), ViewAt(d, args[1], now);
            if before.Missing? || before.ListView?
            then ReplyTo(p, d, now) == Number(|ItemsIn(before)| + |args| - 2)
                 && ViewAfter(p, d, args[1], now, t) == ListView(Backwards(args[2..]) + ItemsIn(before))
                 && ExpiryAfter(p, d, args[1], now, t) == ExpiryAt(d, args[1], now)
            else ReplyTo(p, d, now) == Failure(WrongType) && ViewAfter(p, d, args[1], now, t) == before
  {
    ReverseIsBackwards(args[2..]);
    hide LC.Reverse;
    var front, items := Backwards(args[2..]), ItemsIn(ViewAt(d, args[1], now));
    assert front + items + [] == front + items;
    assert front + [] + [] == front + [];
  }

  lemma RpushShows(args: seq<string>, d: Db, now: int, t: int)
    requires |args| >= 3 && Lasts(d, args[1], now, t)
    ensures var p, before := LC.Rpush(args), ViewAt(d, args[1], now);
            if before.Missing? || before.ListView?
            then ReplyTo(p, d, now) == Number(|ItemsIn(before)| + |args| - 2)
                 && ViewAfter(p, d, args[1], now, t) == ListView(ItemsIn(before) + args[2..])
                 && ExpiryAfter(p, d, args[1], now, t) == ExpiryAt(d, args[1], now)
            else ReplyTo(p, d, now) == Failure(WrongType) && ViewAfter(p, d, args[1], now, t) == before
  {
    var items := ItemsIn(ViewAt(d, args[1], now));
    assert [] + items + args[2..] == items + args[2..];
    assert [] + [] + args[2..] == [] + args[2..];
  }

  /** RPUSH appends its arguments in order; LPUSH puts the last one first. Both reply the new length,
      create the list when there is none, keep its expiry, and refuse a key of another type. */
  lemma PushMeans(c: Command, st: Server, args: seq<string>, ctx: Context, t: int)
    requires CommandOf(st.commands, args) == Some(c) && c in {LPUSH, RPUSH} && |args| >= 3
    requires Lasts(st.db, args[1], ctx.now, t)
    ensures var a, before := Process(st, args, ctx), ViewAt(st.db, args[1], ctx.now);
            var after := ViewAt(a.server.db, args[1], t);
            if before.Missing? || before.ListView?
            then a.reply == Number(|ItemsIn(before)| + |args| - 2)
                 && after == ListView(if c == LPUSH then Backwards(args[2..]) + ItemsIn(before)
                                      else ItemsIn(before) + args[2..])
                 && ExpiryAt(a.server.db, args[1], t) == ExpiryAt(st.db, args[1], ctx.now)
            else a.reply == Failure(WrongType) && after == before
  {
    hide KeyPlan, CommandOf, Process, LC.Lpush, LC.Rpush, ViewAt, ViewAfter, ReplyTo, ExpiryAt, ExpiryAfter;
    UpdatePlans(args, ctx);
    if c == LPUSH {
      KeyCommand(st, args, ctx, LC.Lpush(args), args[1], t);
      LpushShows(args, st.db, ctx.now, t);
    } else {
      KeyCommand(st, args, ctx, LC.Rpush(args), args[1], t);
      RpushShows(args, st.db, ctx.now, t);
    }
  }

  // ----- popping -----

  lemma LpopShows(args: seq<string>, d: Db, now: int, t: int)
    requires |args| == 2 && Lasts(d, args[1], now, t)
    ensures var p, items := LC.Lpop(args), ItemsIn(ViewAt(d, args[1], now));
            if items == []
            then ReplyTo(p, d, now) == Nil && ViewAfter(p, d, args[1], now, t) == ViewAt(d, args[1], now)
            else ReplyTo(p, d, now) == Bulk(items[0])
                 && ViewAfter(p, d, args[1], now, t) == Remaining(items[1..])
    ensures ViewAfter(LC.Lpop(args), d, args[1], now, t) != Missing ==>
              ExpiryAfter(LC.Lpop(args), d, args[1], now, t) == ExpiryAt(d, args[1], now)
  {
  }

  lemma RpopShows(args: seq<string>, d: Db, now: int, t: int)
    requires |args| == 2 && Lasts(d, args[1], now, t)
    ensures var p, items := LC.Rpop(args), ItemsIn(ViewAt(d, args[1], now));
            if items == []
            then ReplyTo(p, d, now) == Nil && ViewAfter(p, d, args[1], now, t) == ViewAt(d, args[1], now)
            else ReplyTo(p, d, now) == Bulk(items[|items| - 1])
                 && ViewAfter(p, d, args[1], now, t) == Remaining(items[..|items| - 1])
    ensures ViewAfter(LC.Rpop(args), d, args[1], now, t) != Missing ==>
              ExpiryAfter(LC.Rpop(args), d, args[1], now, t) == ExpiryAt(d, args[1], now)
  {
  }

  /** LPOP takes the first element, RPOP the last; the key goes with the only one, and otherwise
      keeps its expiry. */
  lemma PopMeans(c: Command, st: Server, args: seq<string>, ctx: Context, t: int)
    requires CommandOf(st.commands, args) == Some(c) && c in {LPOP, RPOP} && |args| == 2
    requires Lasts(st.db, args[1], ctx.now, t)
    ensures var a, before := Process(st, args, ctx), ViewAt(st.db, args[1], ctx.now);
            var after, items := ViewAt(a.server.db, args[1], t), ItemsIn(before);
            && (if items == [] then a.reply == Nil && after == before
                else if c == LPOP then a.reply == Bulk(items[0]) && after == Remaining(items[1..])
                else a.reply == Bulk(items[|items| - 1]) && after == Remaining(items[..|items| - 1]))
            && (after != Missing ==> ExpiryAt(a.server.db, args[1], t) == ExpiryAt(st.db, args[1], ctx.now))
  {
    hide KeyPlan, CommandOf, Process, LC.Lpop, LC.Rpop, ViewAt, ViewAfter, ReplyTo, ExpiryAt, ExpiryAfter, Remaining;
    UpdatePlans(args, ctx);
    if c == LPOP {
      KeyCommand(st, args, ctx, LC.Lpop(args), args[1], t);
      LpopShows(args, st.db, ctx.now, t);
    } else {
      KeyCommand(st, args, ctx, LC.Rpop(args), args[1], t);
      RpopShows(args, st.db, ctx.now, t);
    }
  }

  // ----- reading and replacing -----

  lemma LlenReplies(args: seq<string>, d: Db, now: int)
    requires |args| == 2
    ensures ReplyTo(LC.Llen(args), d, now) == Number(|ItemsIn(ViewAt(d, args[1], now))|)
  {
  }

  /** LLEN counts the items. */
  lemma LlenMeans(st: Server, args: seq<string>, ctx: Context)
    requires CommandOf(st.commands, args) == Some(LLEN) && |args| == 2
    ensures Process(st, args, ctx).reply == Number(|ItemsIn(ViewAt(st.db, args[1], ctx.now))|)
  {
    hide KeyPlan, CommandOf, Process, LC.Llen, ViewAt, ReplyTo;
    IndexPlans(args, ctx);
    KeyCommand(st, args, ctx, LC.Llen(args), args[1], ctx.now);
    LlenReplies(args, st.db, ctx.now);
  }

  lemma LrangeReplies(args: seq<string>, d: Db, now: int)
    requires |args| == 4 && IntegerText(args[2]) && IntegerText(args[3])
    ensures ReplyTo(LC.Lrange(args), d, now)
         == Items(LC.ClampedSlice(ItemsIn(ViewAt(d, args[1], now)), ParseInt(args[2]), ParseInt(args[3])))
  {
    hide IntegerText, ParseInt;
    EmptySlice(ParseInt(args[2]), ParseInt(args[3]));
    hide LC.ClampedSlice;
  }

  lemma EmptySlice(s: int, e: int)
    ensures LC.ClampedSlice([], s, e) == []
  {
  }

  lemma InnerSlice(items: seq<string>, s: int, e: int)
    ensures 0 <= s <= e < |items| ==> LC.ClampedSlice(items, s, e) == items[s..e + 1]
    ensures LC.ClampedSlice(items, 0, -1) == items
  {
    assert items[0..|items|] == items;
  }

  /** LRANGE key s e lists the clamped slice from s to e: with 0 <= s <= e < n the items s to e, and
      with 0 and -1 all of them. */
  lemma LrangeMeans(st: Server, args: seq<string>, ctx: Context)
    requires CommandOf(st.commands, args) == Some(LRANGE) && |args| == 4
    requires IntegerText(args[2]) && IntegerText(args[3])
    ensures var items, s, e := ItemsIn(ViewAt(st.db, args[1], ctx.now)), ParseInt(args[2]), ParseInt(args[3]);
            && Process(st, args, ctx).reply == Items(LC.ClampedSlice(items, s, e))
            && (0 <= s <= e < |items| ==> Process(st, args, ctx).reply == Items(items[s..e + 1]))
            && (s == 0 && e == -1 ==> Process(st, args, ctx).reply == Items(items))
  {
    hide KeyPlan, CommandOf, Process, LC.Lrange, LC.ClampedSlice, ViewAt, ReplyTo, IntegerText, ParseInt;
    IndexPlans(args, ctx);
    KeyCommand(st, args, ctx, LC.Lrange(args), args[1], ctx.now);
    LrangeReplies(args, st.db, ctx.now);
    InnerSlice(ItemsIn(ViewAt(st.db, args[1], ctx.now)), ParseInt(args[2]), ParseInt(args[3]));
  }

  lemma LindexReplies(args: seq<string>, d: Db, now: int)
    requires |args| == 3 && IntegerText(args[2])
    ensures var item := ItemAt(ItemsIn(ViewAt(d, args[1], now)), ParseInt(args[2]));
            ReplyTo(LC.Lindex(args), d, now) == if item.Some? then Bulk(item.value) else Nil
  {
    hide IntegerText, ParseInt;
  }

  /** LINDEX replies the item its number names, null when there is none. */
  lemma LindexMeans(st: Server, args: seq<string>, ctx: Context)
    requires CommandOf(st.commands, args) == Some(LINDEX) && |args| == 3 && IntegerText(args[2])
    ensures var item := ItemAt(ItemsIn(ViewAt(st.db, args[1], ctx.now)), ParseInt(args[2]));
            Process(st, args, ctx).reply == if item.Some? then Bulk(item.value) else Nil
  {
    hide KeyPlan, CommandOf, Process, LC.Lindex, ViewAt, ReplyTo, IntegerText, ParseInt, ItemAt;
    IndexPlans(args, ctx);
    KeyCommand(st, args, ctx, LC.Lindex(args), args[1], ctx.now);
    LindexReplies(args, st.db, ctx.now);
  }

  lemma LsetShows(args: seq<string>, d: Db, now: int, t: int)
    requires |args| == 4 && IntegerText(args[2]) && Lasts(d, args[1], now, t)
    ensures var p, before, i := LC.Lset(args), ViewAt(d, args[1], now), ParseInt(args[2]);
            var reply, after := ReplyTo(p, d, now), ViewAfter(p, d, args[1], now, t);
            if !before.ListView? then reply == Failure(NoSuchKey) && after == before
            else if ItemAt(before.items, i).None? then reply == Failure(IndexOutOfRange) && after == before
            else
              && reply == Status("OK")
              && after == ListView(before.items[if i < 0 then |before.items| + i else i := args[3]])
    ensures ExpiryAfter(LC.Lset(args), d, args[1], now, t) == ExpiryAt(d, args[1], now)
  {
    hide IntegerText, ParseInt;
  }

  /** LSET puts its last argument at the place its number names and changes nothing else. */
  lemma LsetMeans(st: Server, args: seq<string>, ctx: Context, t: int)
    requires CommandOf(st.commands, args) == Some(LSET) && |args| == 4 && IntegerText(args[2])
    requires Lasts(st.db, args[1], ctx.now, t)
    ensures var a, before, i := Process(st, args, ctx), ViewAt(st.db, args[1], ctx.now), ParseInt(args[2]);
            var after := ViewAt(a.server.db, args[1], t);
            if !before.ListView? then a.reply == Failure(NoSuchKey) && after == before
            else if ItemAt(before.items, i).None? then a.reply == Failure(IndexOutOfRange) && after == before
            else
              && a.reply == Status("OK")
              && after == ListView(before.items[if i < 0 then |before.items| + i else i := args[3]])
    ensures ExpiryAt(Process(st, args, ctx).server.db, args[1], t) == ExpiryAt(st.db, args[1], ctx.now)
  {
    hide KeyPlan, CommandOf, Process, LC.Lset, ViewAt, ViewAfter, ReplyTo, IntegerText, ParseInt, ExpiryAt, ExpiryAfter;
    IndexPlans(args, ctx);
    KeyCommand(st, args, ctx, LC.Lset(args), args[1], t);
    LsetShows(args, st.db, ctx.now, t);
  }

  // ----- pushing and then popping -----

  /** Two commands on one key, the second at a time when what the first found has not expired. */
  ghost predicate InTurn(st: Server, args: seq<string>, ctx: Context, next: seq<string>, ctx1: Context) {
    && |args| >= 3 && |next| == 2 && next[1] == args[1]
    && Lasts(st.db, args[1], ctx.now, ctx1.now)
    && (ViewAt(st.db, args[1], ctx.now).Missing? || ViewAt(st.db, args[1], ctx.now).ListView?)
  }

  lemma PushedEnds(items: seq<string>, given: seq<string>)
    requires given != []
    ensures var n, back := |items| + |given|, Backwards(given) + items;
            && |back| == n && back[0] == given[|given| - 1]
            && back[n - 1] == if items != [] then items[|items| - 1] else given[0]
    ensures var n, line := |items| + |given|, items + given;
            line[n - 1] == given[|given| - 1] && line[0] == if items != [] then items[0] else given[0]
  {
  }

  /** LPUSH, then a pop: LPOP gets the argument given last, RPOP what was last before, if there
      was anything, and otherwise the argument given first. */
  lemma PopAfterLpush(c: Command, st: Server, args: seq<string>, ctx: Context, next: seq<string>, ctx1: Context)
    requires InTurn(st, args, ctx, next, ctx1) && CommandOf(st.commands, args) == Some(LPUSH)
    requires CommandOf(st.commands, next) == Some(c) && c in {LPOP, RPOP}
    ensures var items := ItemsIn(ViewAt(st.db, args[1], ctx.now));
            Process(Process(st, args, ctx).server, next, ctx1).reply
            == Bulk(if c == LPOP then args[|args| - 1] else if items != [] then items[|items| - 1] else args[2])
  {
    hide CommandOf, Process, ViewAt, Lasts, ExpiryAt, Backwards;
    TableKept(st, args, ctx);
    PushMeans(LPUSH, st, args, ctx, ctx1.now);
    PushedEnds(ItemsIn(ViewAt(st.db, args[1], ctx.now)), args[2..]);
    AlwaysLasts(Process(st, args, ctx).server.db, args[1], ctx1.now);
    PopMeans(c, Process(st, args, ctx).server, next, ctx1, ctx1.now);
  }

  /** RPUSH, then a pop: RPOP gets the argument given last, LPOP what was first before, if there
      was anything, and otherwise the argument given first. */
  lemma PopAfterRpush(c: Command, st: Server, args: seq<string>, ctx: Context, next: seq<string>, ctx1: Context)
    requires InTurn(st, args, ctx, next, ctx1) && CommandOf(st.commands, args) == Some(RPUSH)
    requires CommandOf(st.commands, next) == Some(c) && c in {LPOP, RPOP}
    ensures var items := ItemsIn(ViewAt(st.db, args[1], ctx.now));
            Process(Process(st, args, ctx).server, next, ctx1).reply
            == Bulk(if c == RPOP then args[|args| - 1] else if items != [] then items[0] else args[2])
  {
    hide CommandOf, Process, ViewAt, Lasts, ExpiryAt, Backwards;
    TableKept(st, args, ctx);
    PushMeans(RPUSH, st, args, ctx, ctx1.now);
    PushedEnds(ItemsIn(ViewAt(st.db, args[1], ctx.now)), args[2..]);
    AlwaysLasts(Process(st, args, ctx).server.db, args[1], ctx1.now);
    PopMeans(c, Process(st, args, ctx).server, next, ctx1, ctx1.now);
  }

  lemma OneGiven(items: seq<string>, given: seq<string>, x: string)
    requires given == [x]
    ensures (Backwards(given) + items)[0] == x && (Backwards(given) + items)[1..] == items
    ensures |Backwards(given) + items| == |items + given| == |items| + 1
    ensures (items + given)[|items|] == x && (items + given)[..|items|] == items
  {
  }

  /** A pop at the end where one element was just pushed restores what was seen before, down to the
      absence of the key. */
  lemma PopUndoesPush(left: bool, st: Server, args: seq<string>, ctx: Context, next: seq<string>, ctx1: Context)
    requires InTurn(st, args, ctx, next, ctx1) && |args| == 3
    requires ViewAt(st.db, args[1], ctx.now) != ListView([])
    requires CommandOf(st.commands, args) == Some(if left then LPUSH else RPUSH)
    requires CommandOf(st.commands, next) == Some(if left then LPOP else RPOP)
    ensures var a := Process(Process(st, args, ctx).server, next, ctx1);
            && a.reply == Bulk(args[2])
            && ViewAt(a.server.db, args[1], ctx1.now) == ViewAt(st.db, args[1], ctx.now)
  {
    hide CommandOf, Process, ViewAt, Lasts, ExpiryAt, Backwards;
    var st1, items := Process(st, args, ctx).server, ItemsIn(ViewAt(st.db, args[1], ctx.now));
    TableKept(st, args, ctx);
    PushMeans(if left then LPUSH else RPUSH, st, args, ctx, ctx1.now);
    OneGiven(items, args[2..], args[2]);
    AlwaysLasts(st1.db, args[1], ctx1.now);
    PopMeans(if left then LPOP else RPOP, st1, next, ctx1, ctx1.now);
  }

  // ----- a queue -----

  predicate Enqueues(table: map<string, Command>, e: Event, key: string) {
    e.Issue? && CommandOf(table, e.args) == Some(RPUSH) && |e.args| >= 3 && e.args[1] == key
  }

  predicate Dequeues(table: map<string, Command>, e: Event, key: string) {
    e.Issue? && CommandOf(table, e.args) == Some(LPOP) && |e.args| == 2 && e.args[1] == key
  }

  /** What one event puts in. */
  function Enters(table: map<string, Command>, e: Event, key: string): seq<string> {
    if Enqueues(table, e, key) then e.args[2..] else []
  }

  /** What one event takes out, as the reply says. */
  function Leaves(st: Server, e: Event, key: string): seq<string> {
    if Dequeues(st.commands, e, key) && Process(st, e.args, e.ctx).reply.Bulk?
    then [Process(st, e.args, e.ctx).reply.text] else []
  }

  /** Everything that RPUSH was given, in order. */
  function Entered(table: map<string, Command>, events: seq<Event>, key: string): seq<string> {
    if events == [] then [] else Enters(table, events[0], key) + Entered(table, events[1..], key)
  }

  /** Everything that LPOP replied, in order. */
  function Left(st: Server, events: seq<Event>, key: string): seq<string>
    decreases |events|
  {
    if events == [] then [] else Leaves(st, events[0], key) + Left(After(st, events[0]), events[1..], key)
  }

  /** A list without expiry, or nothing. */
  predicate Queue(d: Db, key: string, t: int) {
    (ViewAt(d, key, t).Missing? || ViewAt(d, key, t).ListView?) && ExpiryAt(d, key, t).None?
  }

  lemma QueueStays(d: Db, key: string, t: int, t': int)
    requires Queue(d, key, t) && t <= t'
    ensures Queue(d, key, t') && Lasts(d, key, t, t') && ViewAt(d, key, t') == ViewAt(d, key, t)
    ensures ViewAt(d, key, t).Missing? || ViewAt(d, key, t).ListView?
  {
  }

  lemma NothingExpires(d: Db, key: string, t: int)
    ensures ViewAt(d, key, t).Missing? ==> ExpiryAt(d, key, t).None?
  {
  }

  /** One step: what leaves and what is then there are what was there and what enters. */
  lemma QueueStep(st: Server, e: Event, key: string)
    requires Queue(st.db, key, TimeOf(e)) && TimeOf(e) <= EndOf(e)
    requires Enqueues(st.commands, e, key) || Dequeues(st.commands, e, key)
    ensures Leaves(st, e, key) + ItemsIn(ViewAt(After(st, e).db, key, EndOf(e)))
         == ItemsIn(ViewAt(st.db, key, TimeOf(e))) + Enters(st.commands, e, key)
    ensures Queue(After(st, e).db, key, EndOf(e))
  {
    hide CommandOf, Process, ViewAt, Lasts, ExpiryAt;
    QueueStays(st.db, key, TimeOf(e), EndOf(e));
    var items := ItemsIn(ViewAt(st.db, key, TimeOf(e)));
    NothingExpires(After(st, e).db, key, EndOf(e));
    if Enqueues(st.commands, e, key) {
      PushMeans(RPUSH, st, e.args, e.ctx, EndOf(e));
      assert [] + (items + e.args[2..]) == items + e.args[2..];
    } else {
      PopMeans(LPOP, st, e.args, e.ctx, EndOf(e));
      assert items != [] ==> [items[0]] + items[1..] == items + [];
    }
  }

  lemma QuietStep(st: Server, e: Event, key: string)
    requires Queue(st.db, key, TimeOf(e)) && TimeOf(e) <= EndOf(e) && EventQuiet(st.commands, e, key)
    requires !Enqueues(st.commands, e, key) && !Dequeues(st.commands, e, key)
    ensures Queue(After(st, e).db, key, EndOf(e))
    ensures Leaves(st, e, key) + ItemsIn(ViewAt(After(st, e).db, key, EndOf(e)))
         == ItemsIn(ViewAt(st.db, key, TimeOf(e))) + Enters(st.commands, e, key)
  {
    hide Enqueues, Dequeues, EventQuiet, After, Process, Lookup;
    QueueStays(st.db, key, TimeOf(e), EndOf(e));
    EventFrame(st, e, key, EndOf(e));
    var items := ItemsIn(ViewAt(st.db, key, TimeOf(e)));
    assert [] + items == items + [];
  }

  /** RPUSH at one end and LPOP at the other make a queue: over any run in which nothing else
      writes the key, what LPOP replied, followed by what is left, is what was there at first,
      followed by what RPUSH was given. */
  lemma {:induction false} QueueRun(st: Server, events: seq<Event>, key: string, t: int)
    requires Queue(st.db, key, t) && Ordered(events, t)
    requires forall i :: 0 <= i < |events| ==>
               || Enqueues(st.commands, events[i], key) || Dequeues(st.commands, events[i], key)
               || EventQuiet(st.commands, events[i], key)
    ensures Left(st, events, key) + ItemsIn(ViewAt(Final(st, events).db, key, EndTime(events, t)))
         == ItemsIn(ViewAt(st.db, key, t)) + Entered(st.commands, events, key)
    decreases |events|
  {
    hide Queue, Enqueues, Dequeues, EventQuiet, After, Process, ViewAt, ItemsIn, Enters, Leaves;
    var before, end := ItemsIn(ViewAt(st.db, key, t)), ItemsIn(ViewAt(Final(st, events).db, key, EndTime(events, t)));
    if events == [] {
      assert [] + before == before + [];
    } else {
      var e, rest := events[0], events[1..];
      var st1 := After(st, e);
      EventKeepsTable(st, e);
      QueueStays(st.db, key, t, TimeOf(e));
      if Enqueues(st.commands, e, key) || Dequeues(st.commands, e, key) {
        QueueStep(st, e, key);
      } else {
        QuietStep(st, e, key);
      }
      QueueRun(st1, rest, key, EndOf(e));
      var next := ItemsIn(ViewAt(st1.db, key, EndOf(e)));
      Regroup(Leaves(st, e, key), Left(st1, rest, key), end, next, before, Enters(st.commands, e, key),
              Entered(st.commands, rest, key));
    }
  }

  lemma Regroup(out: seq<string>, later: seq<string>, end: seq<string>, next: seq<string>, before: seq<string>,
                given: seq<string>, more: seq<string>)
    requires out + next == before + given && later + end == next + more
    ensures (out + later) + end == before + (given + more)
  {
    assert (out + later) + end == out + (later + end);
    assert out + (next + more) == (out + next) + more;
    assert (before + given) + more == before + (given + more);
  }
}
