/** What a client can find out about a key, and how one command on one key changes it. The laws of
    the commands are stated in these terms: a view before, a reply, a view after. */
module ClientView {
  import opened Text
  import opened RedisValue
  import opened RedisDatabase
  import opened Replies
  import opened CommandPlan
  import opened CommandHandler

  datatype View =
    | Missing
    | TextView(text: string)
    | ListView(items: seq<string>)
    | SetView(members: set<string>)
    | HashView(fields: map<string, string>)
    | OtherView

  function ViewOf(cur: Option<RedisValue>): View {
    match cur
    case None => Missing
    case Some(v) =>
      match v.kind
      case STRING => TextView(v.text)
      case LIST => ListView(v.list)
      case SET => SetView(v.members)
      case HASH => HashView(v.fields)
      case _ => OtherView
  }

  /** What is seen under a key at time `t`. */
  function ViewAt(d: Db, key: string, t: int): View {
    ViewOf(Lookup(d, key, t))
  }

  /** The expiry of what is seen under a key. */
  function ExpiryOf(cur: Option<RedisValue>): Option<int> {
    if cur.Some? && cur.value.hasExpiry then Some(cur.value.expiry) else None
  }

  function ExpiryAt(d: Db, key: string, t: int): Option<int> {
    ExpiryOf(Lookup(d, key, t))
  }

  /** What is seen under the key at `now` has not expired by `t`. */
  predicate Lasts(d: Db, key: string, now: int, t: int) {
    now <= t && (Lookup(d, key, now).Some? ==> Lookup(d, key, t).Some?)
  }

  /** What is seen under a key at `t` after an effect on it. */
  function Shown(d: Db, key: string, e: Effect, t: int): Option<RedisValue> {
    match e
    case Keep => Lookup(d, key, t)
    case Put(v) => Unexpired(v, t)
    case Remove => None
  }

  /** What a plan does with its key: the reply, and the view and the expiry at `t`. */
  function ReplyTo(p: Plan, d: Db, now: int): Reply {
    match p
    case Refuse(problem) => Failure(problem)
    case Touch(key, act) => act(Lookup(d, key, now)).reply
  }

  function EntryAfter(p: Plan, d: Db, key: string, now: int, t: int): Option<RedisValue> {
    if p.Touch? && p.key == key then Shown(d, key, p.act(Lookup(d, key, now)).effect, t) else Lookup(d, key, t)
  }

  function ViewAfter(p: Plan, d: Db, key: string, now: int, t: int): View {
    ViewOf(EntryAfter(p, d, key, now, t))
  }

  function ExpiryAfter(p: Plan, d: Db, key: string, now: int, t: int): Option<int> {
    ExpiryOf(EntryAfter(p, d, key, now, t))
  }

  /** What an action shows, by its effect. */
  lemma ActionShows(p: Plan, d: Db, key: string, now: int, t: int, a: Action)
    requires p.Touch? && p.key == key && p.act(Lookup(d, key, now)) == a
    ensures ReplyTo(p, d, now) == a.reply
    ensures a.effect.Put? && !a.effect.value.IsExpired(t) ==>
              && ViewAfter(p, d, key, now, t) == ViewOf(Some(a.effect.value))
              && ExpiryAfter(p, d, key, now, t) == ExpiryOf(Some(a.effect.value))
    ensures a.effect.Keep? ==>
              && ViewAfter(p, d, key, now, t) == ViewAt(d, key, t)
              && ExpiryAfter(p, d, key, now, t) == ExpiryAt(d, key, t)
    ensures a.effect.Remove? ==> ViewAfter(p, d, key, now, t).Missing?
  {
  }

  lemma PlanRuns(p: Plan, d: Db, now: int, key: string, t: int)
    requires now <= t
    ensures RunPlan(p, d, now).reply == ReplyTo(p, d, now)
    ensures Lookup(RunPlan(p, d, now).db, key, t) == EntryAfter(p, d, key, now, t)
  {
  }

  /** Lookups at the beginning of a command do not notice the sweep that may come with it. */
  lemma SweepUnseen(st: Server, p: Plan, key: string, now: int, t: int)
    requires now <= t
    ensures ReplyTo(p, Tick(st, now).db, now) == ReplyTo(p, st.db, now)
    ensures EntryAfter(p, Tick(st, now).db, key, now, t) == EntryAfter(p, st.db, key, now, t)
  {
    var d := Tick(st, now).db;
    forall k, u | now <= u ensures Lookup(d, k, u) == Lookup(st.db, k, u) {
    }
    hide Tick, Lookup;
  }

  /** A command on one key replies and acts as its plan says about what is seen under that key,
      and leaves what is seen under all others. */
  lemma KeyCommand(st: Server, args: seq<string>, ctx: Context, p: Plan, key: string, t: int)
    requires CommandOf(st.commands, args).Some?
    requires KeyPlan(CommandOf(st.commands, args).value, args, ctx) == Some(p)
    requires ctx.now <= t
    ensures Process(st, args, ctx).reply == ReplyTo(p, st.db, ctx.now)
    ensures ViewAt(Process(st, args, ctx).server.db, key, t) == ViewAfter(p, st.db, key, ctx.now, t)
    ensures ExpiryAt(Process(st, args, ctx).server.db, key, t) == ExpiryAfter(p, st.db, key, ctx.now, t)
  {
    hide KeyPlan, Tick, RunPlan, Lookup, EntryAfter, ReplyTo, Other, ToUpper, ViewOf, ExpiryOf;
    PlanRuns(p, Tick(st, ctx.now).db, ctx.now, key, t);
    SweepUnseen(st, p, key, ctx.now, t);
  }

  /** The other commands see the database after the sweep. */
  lemma OtherCommand(st: Server, args: seq<string>, ctx: Context)
    requires CommandOf(st.commands, args).Some?
    requires KeyPlan(CommandOf(st.commands, args).value, args, ctx).None?
    ensures var c, st1 := CommandOf(st.commands, args).value, Tick(st, ctx.now);
            && Process(st, args, ctx).reply == Other(c, args, st1, ctx).reply
            && Process(st, args, ctx).server.db == Other(c, args, st1, ctx).db
  {
    hide KeyPlan, Tick, Other, ToUpper;
  }

  lemma TableKept(st: Server, args: seq<string>, ctx: Context)
    ensures Process(st, args, ctx).server.commands == st.commands
  {
    hide Exec, ToUpper;
  }

  lemma LastsMeans(d: Db, key: string, now: int, t: int)
    requires Lasts(d, key, now, t)
    ensures Lookup(d, key, t) == Lookup(d, key, now)
    ensures Lookup(d, key, now).Some? ==> !Lookup(d, key, now).value.IsExpired(t)
  {
  }

  lemma AlwaysLasts(d: Db, key: string, t: int)
    ensures Lasts(d, key, t, t)
  {
  }
}
