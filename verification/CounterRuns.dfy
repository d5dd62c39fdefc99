/** Runs of INCR, DECR, INCRBY and DECRBY on one key, among any other commands that do not write it. */
module CounterRuns {
  import opened Text
  import opened Decimal
  import opened RedisValue
  import opened RedisDatabase
  import opened Replies
  import opened CommandPlan
  import opened CommandHandler
  import opened Runs
  import opened DatabaseInvariants
  import SC = StringCommands

  /** A well-formed counter command on the key. */
  predicate Counts(table: map<string, Command>, e: Event, key: string) {
    e.Issue? &&
    match CommandOf(table, e.args)
    case Some(INCR) => |e.args| == 2 && e.args[1] == key
    case Some(DECR) => |e.args| == 2 && e.args[1] == key
    case Some(INCRBY) => |e.args| == 3 && e.args[1] == key && IntegerText(e.args[2])
    case Some(DECRBY) => |e.args| == 3 && e.args[1] == key && IntegerText(e.args[2])
    case _ => false
  }

  function Delta(table: map<string, Command>, e: Event): int
    requires e.Issue?
  {
    match CommandOf(table, e.args)
    case Some(INCR) => 1
    case Some(DECR) => -1
    case Some(INCRBY) => if |e.args| == 3 then ParseInt(e.args[2]) else 0
    case Some(DECRBY) => if |e.args| == 3 then -ParseInt(e.args[2]) else 0
    case _ => 0
  }

  /** The running sums from `x`, one for each counter command. */
  function Sums(table: map<string, Command>, events: seq<Event>, key: string, x: int): seq<int> {
    if events == [] then []
    else if Counts(table, events[0], key) then
      var y := x + Delta(table, events[0]);
      [y] + Sums(table, events[1..], key, y)
    else Sums(table, events[1..], key, x)
  }

  /** The replies to the counter commands. */
  function CounterReplies(st: Server, events: seq<Event>, key: string): seq<Reply>
    decreases |events|
  {
    if events == [] then []
    else
      var rest := CounterReplies(After(st, events[0]), events[1..], key);
      if Counts(st.commands, events[0], key)
      then [Process(st, events[0].args, events[0].ctx).reply] + rest
      else rest
  }

  function Numbers(ns: seq<int>): seq<Reply> {
    seq(|ns|, i requires 0 <= i < |ns| => Number(ns[i]))
  }

  /** Nothing stored counts as 0; otherwise the entry is integer text for `x` without expiry. */
  ghost predicate NumberAt(cur: Option<RedisValue>, x: int) {
    match cur
    case None => x == 0
    case Some(v) => v.kind == STRING && !v.hasExpiry && IntegerText(v.text) && ParseInt(v.text) == x
  }

  lemma NumberStays(d: Db, key: string, x: int, t: int, t': int)
    requires NumberAt(Lookup(d, key, t), x) && t <= t'
    ensures Lookup(d, key, t') == Lookup(d, key, t)
  {
    hide IntegerText, ParseInt;
  }

  lemma CanonicalNumber(n: int)
    requires InInt64(n)
    ensures NumberAt(Some(OfString(ToString(n))), n)
  {
    ToStringReads(n);
    ToStringRoundTrip(n);
  }

  /** One reply is the sum exactly when the sum fits in 64 bits. */
  lemma ReplyIsSum(cur: Option<RedisValue>, x: int, delta: int)
    requires NumberAt(cur, x)
    ensures SC.Add(cur, delta).reply == Number(x + delta) <==> InInt64(x + delta)
  {
    hide IntegerText, ParseInt, ToString;
  }

  lemma AddOnNumber(cur: Option<RedisValue>, x: int, delta: int)
    requires NumberAt(cur, x) && InInt64(x + delta)
    ensures SC.Add(cur, delta) == Action(Number(x + delta), Put(OfString(ToString(x + delta))))
  {
    hide IntegerText, ParseInt, ToString;
  }

  lemma CounterPlan(c: Command, args: seq<string>, ctx: Context, key: string, delta: int, cur: Option<RedisValue>)
    requires match c
             case INCR => |args| == 2 && delta == 1
             case DECR => |args| == 2 && delta == -1
             case INCRBY => |args| == 3 && IntegerText(args[2]) && delta == ParseInt(args[2])
             case DECRBY => |args| == 3 && IntegerText(args[2]) && delta == -ParseInt(args[2])
             case _ => false
    requires args[1] == key
    ensures var p := KeyPlan(c, args, ctx);
            p.Some? && p.value.Touch? && p.value.key == key && p.value.act(cur) == SC.Add(cur, delta)
  {
    hide IntegerText, ParseInt, SC.Add;
  }

  lemma CounterStep(st: Server, e: Event, key: string, x: int)
    requires Counts(st.commands, e, key)
    requires NumberAt(Lookup(st.db, key, TimeOf(e)), x) && InInt64(x + Delta(st.commands, e))
    ensures var y := x + Delta(st.commands, e);
            && Process(st, e.args, e.ctx).reply == Number(y)
            && Lookup(After(st, e).db, key, TimeOf(e)) == Some(OfString(ToString(y)))
  {
    hide ToUpper, NumberAt, IntegerText, ParseInt, KeyPlan, ToString, Other;
    var c, st1 := CommandOf(st.commands, e.args).value, Tick(st, e.ctx.now);
    var cur := Lookup(st1.db, key, e.ctx.now);
    assert cur == Lookup(st.db, key, e.ctx.now);
    CounterPlan(c, e.args, e.ctx, key, Delta(st.commands, e), cur);
    AddOnNumber(cur, x, Delta(st.commands, e));
  }

  function LastOf(x: int, sums: seq<int>): int {
    if sums == [] then x else sums[|sums| - 1]
  }

  /** While the running sums stay in the 64-bit range, the replies are the running sums, and
      what is stored at the end is the canonical decimal of the last one. */
  lemma {:induction false} CounterRun(st: Server, events: seq<Event>, key: string, x: int, t: int, t': int)
    requires NumberAt(Lookup(st.db, key, t), x) && Ordered(events, t) && EndTime(events, t) <= t'
    requires forall i :: 0 <= i < |events| ==>
               Counts(st.commands, events[i], key) || EventQuiet(st.commands, events[i], key)
    requires forall i :: 0 <= i < |Sums(st.commands, events, key, x)| ==> InInt64(Sums(st.commands, events, key, x)[i])
    ensures var sums := Sums(st.commands, events, key, x);
            && CounterReplies(st, events, key) == Numbers(sums)
            && NumberAt(Lookup(Final(st, events).db, key, t'), LastOf(x, sums))
            && (sums != [] ==> Lookup(Final(st, events).db, key, t') == Some(OfString(ToString(LastOf(x, sums)))))
    decreases |events|
  {
    hide NumberAt, Process, After, Lookup, Delta, Counts, EventQuiet, ToString;
    if events == [] {
      NumberStays(st.db, key, x, t, t');
    } else {
      var e, rest := events[0], events[1..];
      var now, st1, all := TimeOf(e), After(st, e), Sums(st.commands, events, key, x);
      NumberStays(st.db, key, x, t, now);
      EventKeepsTable(st, e);
      OrderedEnds(rest, EndOf(e));
      if Counts(st.commands, e, key) {
        CountsIsIssue(st.commands, e, key);
        var y := x + Delta(st.commands, e);
        assert all == [y] + Sums(st.commands, rest, key, y);
        assert InInt64(all[0]);
        CounterStep(st, e, key, x);
        CanonicalNumber(y);
        var more := Sums(st.commands, rest, key, y);
        forall i | 0 <= i < |more| ensures InInt64(more[i]) {
          assert more[i] == all[i + 1];
        }
        NumberStays(st1.db, key, y, now, EndOf(e));
        CounterRun(st1, rest, key, y, EndOf(e), t');
        if more == [] {
          QuietOrCounted(st1, rest, key, y);
          QuietRunKeepsKey(st1, rest, EndOf(e), key, t');
          NumberStays(st1.db, key, y, now, t');
        }
      } else {
        NumberStays(st.db, key, x, t, EndOf(e));
        EventFrame(st, e, key, EndOf(e));
        CounterRun(st1, rest, key, x, EndOf(e), t');
      }
    }
  }

  lemma CountsIsIssue(table: map<string, Command>, e: Event, key: string)
    ensures Counts(table, e, key) ==> e.Issue?
  {
  }

  lemma {:induction false} QuietOrCounted(st: Server, events: seq<Event>, key: string, x: int)
    requires forall i :: 0 <= i < |events| ==>
               Counts(st.commands, events[i], key) || EventQuiet(st.commands, events[i], key)
    requires Sums(st.commands, events, key, x) == []
    ensures Quiet(st.commands, events, key)
    decreases |events|
  {
    hide Counts, EventQuiet;
    if events != [] {
      QuietOrCounted(st, events[1..], key, x);
      assert !Counts(st.commands, events[0], key);
      forall i | 0 <= i < |events| ensures EventQuiet(st.commands, events[i], key) {
        assert i > 0 ==> events[i] == events[1..][i - 1];
      }
    }
  }
}
