/** Conservation: what the replies say was added and removed is what is there in the end, for a
    list, set or hash, also when its key is deleted with its last element and created again. */
module CollectionRuns {
  import opened Text
  import opened RedisValue
  import opened RedisDatabase
  import opened Replies
  import opened CommandPlan
  import opened CommandHandler
  import opened Runs
  import opened DatabaseInvariants
  import LC = ListCommands
  import EC = SetCommands
  import HC = HashCommands

  predicate Collects(c: Command) {
    c in {LPUSH, RPUSH, LPOP, RPOP, SADD, SREM, SPOP, HSET, HDEL}
  }

  /** How many elements a reply says were added (or, negative, removed). */
  function Contribution(c: Command, args: seq<string>, reply: Reply): int {
    match c
    case SADD => if reply.Number? then reply.n else 0
    case HSET => if reply.Number? then reply.n else 0
    case SREM => if reply.Number? then -reply.n else 0
    case HDEL => if reply.Number? then -reply.n else 0
    case LPUSH => if reply.Number? then |args| - 2 else 0
    case RPUSH => if reply.Number? then |args| - 2 else 0
    case LPOP => if reply.Bulk? then -1 else 0
    case RPOP => if reply.Bulk? then -1 else 0
    case SPOP => if reply.Bulk? then -1 else 0
    case _ => 0
  }

  /** The number of elements under a key. */
  function Size(cur: Option<RedisValue>): nat {
    match cur case None => 0 case Some(v) => |v.list| + |v.members| + |v.fields|
  }

  function Result(cur: Option<RedisValue>, e: Effect): Option<RedisValue> {
    match e case Keep => cur case Put(v) => Some(v) case Remove => None
  }

  ghost predicate Permanent(cur: Option<RedisValue>) {
    cur.Some? ==> !cur.value.hasExpiry
  }

  /** The type of collection a command works on. */
  function Family(c: Command): RedisType {
    if c in {LPUSH, RPUSH, LPOP, RPOP} then LIST else if c in {HSET, HDEL} then HASH else RedisType.SET
  }

  predicate OfKind(cur: Option<RedisValue>, kind: RedisType) {
    cur.Some? ==> cur.value.kind == kind
  }

  /** One action adds to the size what its reply says, and gives the entry no expiry and no
      other type. */
  ghost predicate Conserves(c: Command, args: seq<string>, cur: Option<RedisValue>, a: Action) {
    var next := Result(cur, a.effect);
    && Size(next) == Size(cur) + Contribution(c, args, a.reply)
    && (Permanent(cur) ==> Permanent(next))
    && (OfKind(cur, Family(c)) ==> OfKind(next, Family(c)))
  }

  ghost predicate PlanConserves(c: Command, args: seq<string>, p: Plan) {
    match p
    case Refuse(problem) => Contribution(c, args, Failure(problem)) == 0
    case Touch(_, act) => forall cur :: OptionWellTyped(cur) ==> Conserves(c, args, cur, act(cur))
  }

  /** A refused command contributes nothing, nor does an action that leaves the entry alone and
      replies null or zero. */
  lemma NothingHappens(c: Command, args: seq<string>, cur: Option<RedisValue>, problem: Problem)
    requires Collects(c)
    ensures Contribution(c, args, Failure(problem)) == 0
    ensures Conserves(c, args, cur, Action(Failure(problem), Keep)) && Conserves(c, args, cur, Action(Nil, Keep))
    ensures c in {SREM, HDEL} ==> Conserves(c, args, cur, Action(Number(0), Keep))
  {
  }

  lemma PushConserves(c: Command, args: seq<string>, cur: Option<RedisValue>, front: seq<string>, back: seq<string>)
    requires c in {LPUSH, RPUSH} && |front| + |back| == |args| - 2
    ensures Conserves(c, args, cur, LC.Push(cur, front, back))
  {
  }

  lemma PopConserves(c: Command, args: seq<string>, v: RedisValue, element: string, others: seq<string>)
    requires c in {LPOP, RPOP} && OptionWellTyped(Some(v)) && v.kind == LIST && |others| == |v.list| - 1
    ensures Conserves(c, args, Some(v), LC.Pop(v, element, others))
  {
  }

  lemma PopsConserve(args: seq<string>, cur: Option<RedisValue>)
    requires OptionWellTyped(cur)
    ensures Conserves(LPOP, args, cur, LC.PopFront(cur)) && Conserves(RPOP, args, cur, LC.PopBack(cur))
  {
    hide OptionWellTyped, Conserves, LC.Pop;
    NothingHappens(LPOP, args, cur, WrongType);
    NothingHappens(RPOP, args, cur, WrongType);
    if cur.Some? && cur.value.kind == LIST && cur.value.list != [] {
      var v, list := cur.value, cur.value.list;
      PopConserves(LPOP, args, v, list[0], list[1..]);
      PopConserves(RPOP, args, v, list[|list| - 1], list[..|list| - 1]);
    }
  }

  lemma ListsConserve(args: seq<string>)
    ensures PlanConserves(LPUSH, args, LC.Lpush(args)) && PlanConserves(RPUSH, args, LC.Rpush(args))
    ensures PlanConserves(LPOP, args, LC.Lpop(args)) && PlanConserves(RPOP, args, LC.Rpop(args))
  {
    hide LC.Reverse, LC.Push, LC.PopFront, LC.PopBack, OptionWellTyped, Conserves;
    forall cur | OptionWellTyped(cur)
      ensures Conserves(LPOP, args, cur, LC.PopFront(cur)) && Conserves(RPOP, args, cur, LC.PopBack(cur))
      ensures |args| >= 3 ==> Conserves(LPUSH, args, cur, LC.Push(cur, LC.Reverse(args[2..]), []))
      ensures |args| >= 3 ==> Conserves(RPUSH, args, cur, LC.Push(cur, [], args[2..]))
    {
      PopsConserve(args, cur);
      if |args| >= 3 {
        LC.ReverseLength(args[2..]);
        PushConserves(LPUSH, args, cur, LC.Reverse(args[2..]), []);
        PushConserves(RPUSH, args, cur, [], args[2..]);
      }
    }
  }

  lemma SetArithmetic(a: set<string>, b: set<string>)
    ensures |a + b| == |a| + |b - a|
    ensures |a - b| == |a| - |a * b|
  {
    assert a + b == a + (b - a);
    assert a == (a - b) + (a * b);
  }

  lemma AddedConserves(args: seq<string>, v: RedisValue, members: set<string>, n: nat)
    requires |members| == |v.members| + n && v.kind == RedisType.SET
    ensures Conserves(SADD, args, Some(v), Action(Number(n), Put(v.(members := members))))
    ensures v == OfType(RedisType.SET) ==> Conserves(SADD, args, None, Action(Number(n), Put(v.(members := members))))
  {
  }

  lemma SaddConserves(args: seq<string>, cur: Option<RedisValue>, given: set<string>)
    ensures Conserves(SADD, args, cur, EC.AddMembers(cur, given))
  {
    hide Conserves;
    NothingHappens(SADD, args, cur, WrongType);
    var v := if cur.Some? then cur.value else OfType(RedisType.SET);
    SetArithmetic(v.members, given);
    if v.kind == RedisType.SET {
      AddedConserves(args, v, v.members + given, |given - v.members|);
    }
  }

  lemma MembersLeave(c: Command, args: seq<string>, v: RedisValue, given: set<string>, reply: Reply)
    requires c in {SREM, SPOP} && OptionWellTyped(Some(v)) && v.kind == RedisType.SET
    requires Contribution(c, args, reply) == -|v.members * given|
    ensures Conserves(c, args, Some(v), Action(reply, EC.Left(v, v.members - given)))
  {
    SetArithmetic(v.members, given);
  }

  lemma RemovalsConserve(args: seq<string>, pick: string, cur: Option<RedisValue>)
    requires OptionWellTyped(cur) && cur.Some? && cur.value.kind == RedisType.SET
    ensures var v, given := cur.value, EC.MembersIn(args);
            Conserves(SREM, args, cur, Action(Number(|v.members * given|), EC.Left(v, v.members - given)))
    ensures pick in cur.value.members ==>
              Conserves(SPOP, args, cur, Action(Bulk(pick), EC.Left(cur.value, cur.value.members - {pick})))
  {
    hide EC.MembersIn, EC.Left, OptionWellTyped, Conserves;
    var v, given := cur.value, EC.MembersIn(args);
    MembersLeave(SREM, args, v, given, Number(|v.members * given|));
    if pick in v.members {
      assert v.members * {pick} == {pick};
      MembersLeave(SPOP, args, v, {pick}, Bulk(pick));
    }
  }

  lemma SetsConserve(args: seq<string>, pick: string)
    ensures PlanConserves(SADD, args, EC.Sadd(args)) && PlanConserves(SREM, args, EC.Srem(args))
    ensures PlanConserves(SPOP, args, EC.Spop(args, pick))
  {
    hide EC.MembersIn, EC.AddMembers, EC.Left, OptionWellTyped, Conserves;
    forall cur ensures Conserves(SADD, args, cur, EC.AddMembers(cur, EC.MembersIn(args))) {
      SaddConserves(args, cur, EC.MembersIn(args));
    }
    if |args| >= 3 {
      forall cur | OptionWellTyped(cur) ensures Conserves(SREM, args, cur, EC.Srem(args).act(cur)) {
        NothingHappens(SREM, args, cur, WrongType);
        if cur.Some? && cur.value.kind == RedisType.SET {
          RemovalsConserve(args, pick, cur);
        }
      }
    }
    if |args| == 2 {
      forall cur | OptionWellTyped(cur) ensures Conserves(SPOP, args, cur, EC.Spop(args, pick).act(cur)) {
        NothingHappens(SPOP, args, cur, WrongType);
        if cur.Some? && cur.value.kind == RedisType.SET {
          RemovalsConserve(args, pick, cur);
        }
      }
    }
  }

  lemma HashArithmetic(before: map<string, string>, args: seq<string>)
    ensures |HC.AllStored(before, args)| == |before| + HC.CountNew(before, args)
    ensures |HC.AllErased(before, args)| == |before| - HC.CountOld(before, args)
  {
    hide HC.FieldsIn, HC.FieldNames;
    var given, names := HC.FieldsIn(args), HC.FieldNames(args);
    assert (before + given).Keys == before.Keys + given.Keys;
    assert (before - names).Keys == before.Keys - names;
    SetArithmetic(before.Keys, given.Keys);
    SetArithmetic(before.Keys, names);
  }

  lemma StoredConserves(args: seq<string>, v: RedisValue, fields: map<string, string>, n: nat)
    requires |fields| == |v.fields| + n && v.kind == HASH
    ensures Conserves(HSET, args, Some(v), Action(Number(n), Put(v.(fields := fields))))
    ensures v == OfType(HASH) ==> Conserves(HSET, args, None, Action(Number(n), Put(v.(fields := fields))))
  {
  }

  lemma HsetConserves(args: seq<string>, cur: Option<RedisValue>)
    ensures Conserves(HSET, args, cur, HC.PutFields(cur, args))
  {
    hide HC.AllStored, HC.CountNew, Conserves;
    NothingHappens(HSET, args, cur, WrongType);
    var v := if cur.Some? then cur.value else OfType(HASH);
    HashArithmetic(v.fields, args);
    if v.kind == HASH {
      StoredConserves(args, v, HC.AllStored(v.fields, args), HC.CountNew(v.fields, args));
    }
  }

  lemma ErasedConserves(args: seq<string>, v: RedisValue, fields: map<string, string>, n: nat)
    requires |v.list| == 0 && |v.members| == 0 && v.kind == HASH && |fields| == |v.fields| - n
    ensures Conserves(HDEL, args, Some(v),
                      Action(Number(n), if fields == map[] then Remove else Put(v.(fields := fields))))
  {
  }

  lemma HashOnly(v: RedisValue)
    requires OptionWellTyped(Some(v)) && v.kind == HASH
    ensures |v.list| == 0 && |v.members| == 0
  {
  }

  lemma HdelConserves(args: seq<string>, v: RedisValue)
    requires OptionWellTyped(Some(v)) && v.kind == HASH
    ensures Conserves(HDEL, args, Some(v), HC.RemoveFields(v, args))
  {
    hide HC.AllErased, HC.CountOld, OptionWellTyped, Conserves;
    HashArithmetic(v.fields, args);
    HashOnly(v);
    ErasedConserves(args, v, HC.AllErased(v.fields, args), HC.CountOld(v.fields, args));
  }

  lemma HashesConserve(args: seq<string>)
    ensures PlanConserves(HSET, args, HC.Hset(args)) && PlanConserves(HDEL, args, HC.Hdel(args))
  {
    hide HC.PutFields, HC.RemoveFields, OptionWellTyped, Conserves;
    forall cur | OptionWellTyped(cur)
      ensures Conserves(HSET, args, cur, HC.PutFields(cur, args))
      ensures cur.Some? && cur.value.kind == HASH ==> Conserves(HDEL, args, cur, HC.RemoveFields(cur.value, args))
      ensures Conserves(HDEL, args, cur, Action(Number(0), Keep))
    {
      HsetConserves(args, cur);
      NothingHappens(HDEL, args, cur, WrongType);
      if cur.Some? && cur.value.kind == HASH {
        HdelConserves(args, cur.value);
      }
    }
  }

  lemma CollectionsConserve(c: Command, args: seq<string>, ctx: Context)
    requires Collects(c)
    ensures KeyPlan(c, args, ctx).Some? && PlanConserves(c, args, KeyPlan(c, args, ctx).value)
  {
    hide PlanConserves, LC.Lpush, LC.Rpush, LC.Lpop, LC.Rpop, EC.Sadd, EC.Srem, EC.Spop, HC.Hset, HC.Hdel;
    ListsConserve(args);
    SetsConserve(args, ctx.pick);
    HashesConserve(args);
  }

  // ----- runs -----

  /** A list, set or hash update on the key. */
  predicate Updates(table: map<string, Command>, e: Event, key: string) {
    e.Issue? && CommandOf(table, e.args).Some? && Collects(CommandOf(table, e.args).value)
    && |e.args| > 1 && e.args[1] == key
  }

  /** The sum of what the replies to those updates say. */
  function Balance(st: Server, events: seq<Event>, key: string): int
    decreases |events|
  {
    if events == [] then 0
    else
      var e := events[0];
      (if Updates(st.commands, e, key)
       then Contribution(CommandOf(st.commands, e.args).value, e.args, Process(st, e.args, e.ctx).reply)
       else 0) + Balance(After(st, e), events[1..], key)
  }

  lemma UpdateConserves(st: Server, e: Event, key: string)
    requires AllWellTyped(st.db) && Updates(st.commands, e, key)
    requires Permanent(Lookup(st.db, key, TimeOf(e)))
    ensures var cur, cur' := Lookup(st.db, key, TimeOf(e)), Lookup(After(st, e).db, key, TimeOf(e));
            && Size(cur') == Size(cur)
                 + Contribution(CommandOf(st.commands, e.args).value, e.args, Process(st, e.args, e.ctx).reply)
            && Permanent(cur')
            && (OfKind(cur, Family(CommandOf(st.commands, e.args).value)) ==>
                OfKind(cur', Family(CommandOf(st.commands, e.args).value)))
  {
    hide ToUpper, KeyPlan, Other, Contribution, Collects, WellTyped, Size, Family;
    var c, st1 := CommandOf(st.commands, e.args).value, Tick(st, e.ctx.now);
    var cur := Lookup(st1.db, key, e.ctx.now);
    assert cur == Lookup(st.db, key, e.ctx.now) && OptionWellTyped(cur);
    CollectionsConserve(c, e.args, e.ctx);
    var p := KeyPlan(c, e.args, e.ctx).value;
    if p.Touch? {
      PlanKey(c, e.args, e.ctx);
      assert Conserves(c, e.args, cur, p.act(cur));
    }
  }

  /** However adding, removing and popping are interleaved, on a key without expiry, the final
      size is the initial size plus what the replies add up to. */
  lemma {:induction false} SizeIsTheBalance(st: Server, events: seq<Event>, key: string, t: int, t': int)
    requires AllWellTyped(st.db) && Permanent(Lookup(st.db, key, t))
    requires Ordered(events, t) && EndTime(events, t) <= t'
    requires forall i :: 0 <= i < |events| ==>
               Updates(st.commands, events[i], key) || EventQuiet(st.commands, events[i], key)
    ensures Size(Lookup(Final(st, events).db, key, t')) == Size(Lookup(st.db, key, t)) + Balance(st, events, key)
    ensures Permanent(Lookup(Final(st, events).db, key, t'))
    decreases |events|
  {
    hide AllWellTyped, Process, After, Lookup, Permanent, Size, Updates, EventQuiet, Contribution;
    if events == [] {
      PermanentStays(st.db, key, t, t');
    } else {
      var e, rest := events[0], events[1..];
      var now := TimeOf(e);
      PermanentStays(st.db, key, t, now);
      EventKeepsTable(st, e);
      EventWellTyped(st, e);
      OrderedEnds(rest, EndOf(e));
      if Updates(st.commands, e, key) {
        UpdateConserves(st, e, key);
        PermanentStays(After(st, e).db, key, now, EndOf(e));
      } else {
        PermanentStays(st.db, key, t, EndOf(e));
        EventFrame(st, e, key, EndOf(e));
      }
      SizeIsTheBalance(After(st, e), rest, key, EndOf(e), t');
    }
  }

  lemma PermanentStays(d: Db, key: string, t: int, t': int)
    requires Permanent(Lookup(d, key, t)) && t <= t'
    ensures Lookup(d, key, t') == Lookup(d, key, t)
  {
  }

  /** The command that asks for the size of a collection of the given type. */
  function SizeCommand(kind: RedisType): Option<Command> {
    match kind case LIST => Some(LLEN) case SET => Some(SCARD) case HASH => Some(HLEN) case _ => None
  }

  /** LLEN, SCARD and HLEN reply the size of what the key holds, when that is of their type. */
  lemma SizeReply(st: Server, args: seq<string>, ctx: Context, key: string, kind: RedisType)
    requires AllWellTyped(st.db) && |args| == 2 && args[1] == key
    requires SizeCommand(kind).Some? && CommandOf(st.commands, args) == SizeCommand(kind)
    requires OfKind(Lookup(st.db, key, ctx.now), kind)
    ensures Process(st, args, ctx).reply == Number(Size(Lookup(st.db, key, ctx.now)))
  {
    hide ToUpper, Other, KeyPlan, Size, WellTyped, OfKind;
    var st1 := Tick(st, ctx.now);
    assert Lookup(st1.db, key, ctx.now) == Lookup(st.db, key, ctx.now);
    SizeAction(args, ctx, kind, Lookup(st.db, key, ctx.now));
  }

  lemma SizeAction(args: seq<string>, ctx: Context, kind: RedisType, cur: Option<RedisValue>)
    requires |args| == 2 && SizeCommand(kind).Some? && OptionWellTyped(cur) && OfKind(cur, kind)
    ensures var p := KeyPlan(SizeCommand(kind).value, args, ctx);
            p.Some? && p.value.Touch? && p.value.key == args[1] && p.value.act(cur) == Say(Number(Size(cur)))
  {
  }

  /** An update of collections of one type, or a command that does not write the key. */
  predicate UpdatesAs(table: map<string, Command>, e: Event, key: string, kind: RedisType) {
    if Updates(table, e, key) then Family(CommandOf(table, e.args).value) == kind else EventQuiet(table, e, key)
  }

  lemma {:induction false} KindStays(st: Server, events: seq<Event>, key: string, t: int, t': int, kind: RedisType)
    requires AllWellTyped(st.db) && Permanent(Lookup(st.db, key, t)) && OfKind(Lookup(st.db, key, t), kind)
    requires Ordered(events, t) && EndTime(events, t) <= t'
    requires forall i :: 0 <= i < |events| ==> UpdatesAs(st.commands, events[i], key, kind)
    ensures OfKind(Lookup(Final(st, events).db, key, t'), kind)
    decreases |events|
  {
    hide AllWellTyped, Process, After, Lookup, Permanent, OfKind, Updates, EventQuiet, Family;
    if events == [] {
      PermanentStays(st.db, key, t, t');
    } else {
      var e, rest := events[0], events[1..];
      var now := TimeOf(e);
      PermanentStays(st.db, key, t, now);
      EventKeepsTable(st, e);
      EventWellTyped(st, e);
      assert UpdatesAs(st.commands, e, key, kind);
      if Updates(st.commands, e, key) {
        UpdateConserves(st, e, key);
        PermanentStays(After(st, e).db, key, now, EndOf(e));
      } else {
        PermanentStays(st.db, key, t, EndOf(e));
        EventFrame(st, e, key, EndOf(e));
      }
      KindStays(After(st, e), rest, key, EndOf(e), t', kind);
    }
  }

  /** So for a key that was absent, and since then written only by commands for one type of
      collection, SCARD (LLEN, HLEN) replies exactly what the replies since then add up to. */
  lemma ConservationFromAbsent(st: Server, events: seq<Event>, args: seq<string>, ctx: Context, t: int, kind: RedisType)
    requires AllWellTyped(st.db) && |args| == 2 && Lookup(st.db, args[1], t).None?
    requires Ordered(events, t) && EndTime(events, t) <= ctx.now
    requires forall i :: 0 <= i < |events| ==> UpdatesAs(st.commands, events[i], args[1], kind)
    requires SizeCommand(kind).Some? && CommandOf(st.commands, args) == SizeCommand(kind)
    ensures Process(Final(st, events), args, ctx).reply == Number(Balance(st, events, args[1]))
  {
    hide Process, Final, Lookup, AllWellTyped, CommandOf, Balance, Updates, EventQuiet;
    forall i | 0 <= i < |events|
      ensures Updates(st.commands, events[i], args[1]) || EventQuiet(st.commands, events[i], args[1])
    {
      assert UpdatesAs(st.commands, events[i], args[1], kind);
    }
    KindStays(st, events, args[1], t, ctx.now, kind);
    SizeIsTheBalance(st, events, args[1], t, ctx.now);
    RunsKeepEntriesWellTyped(st, events);
    FinalKeepsTable(st, events);
    SizeReply(Final(st, events), args, ctx, args[1], kind);
  }

  lemma {:induction false} FinalKeepsTable(st: Server, events: seq<Event>)
    ensures Final(st, events).commands == st.commands
    decreases |events|
  {
    hide After;
    if events != [] {
      EventKeepsTable(st, events[0]);
      FinalKeepsTable(After(st, events[0]), events[1..]);
    }
  }
}
