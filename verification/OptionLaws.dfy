/** What the options of SET mean to a client, wherever they stand in the list. */
module OptionLaws {
  import opened Text
  import opened Decimal
  import opened RedisValue
  import opened RedisDatabase
  import opened Replies
  import opened CommandHandler
  import opened StringCommands
  import opened ClientView
  import TtlRuns
  import StringLaws

  /** The argument at `j` is read as the option `name`, with an argument after it. */
  predicate Given(args: seq<string>, j: int, name: string) {
    3 <= j && j + 1 < |args| && ReadAsOption(args, 3, j) && ToUpper(args[j]) == name
  }

  /** A well-formed expiry option. */
  predicate ExpiryGiven(args: seq<string>, j: int) {
    (Given(args, j, "EX") || Given(args, j, "PX")) && IntegerText(args[j + 1])
  }

  // ----- the options that are read -----

  predicate ReadFrom(args: seq<string>, i: nat, j: int) {
    i <= j && j + 1 < |args| && ReadAsOption(args, i, j)
  }

  function Next(args: seq<string>, i: nat): nat
    requires i < |args|
  {
    i + if ToUpper(args[i]) == "NX" || ToUpper(args[i]) == "XX" then 1 else 2
  }

  lemma ReadsOn(args: seq<string>, i: nat, j: int)
    requires i + 1 < |args|
    ensures ReadFrom(args, i, j) <==> i == j || (NumberGiven(args, i) && ReadFrom(args, Next(args, i), j))
  {
    hide ToUpper, IntegerText, NumberGiven;
    if i <= j && j + 1 < |args| {
      assert ReadAsOption(args, i, j) <==>
               i == j || (i < j && NumberGiven(args, i) && ReadAsOption(args, Next(args, i), j));
    }
  }

  lemma NothingReadFrom(args: seq<string>, i: nat, j: int)
    requires i + 1 >= |args|
    ensures !ReadFrom(args, i, j) && ReadOptions(args, i).options == []
  {
  }

  lemma OptionsFrom(args: seq<string>, i: nat)
    requires i + 1 < |args|
    ensures ReadOptions(args, i).options
         == if NumberGiven(args, i)
            then [OptionNamed(ToUpper(args[i]), ParseInt(args[i + 1]))] + ReadOptions(args, Next(args, i)).options
            else []
  {
    ReadOne(args, i);
    hide ToUpper, IntegerText, ParseInt, SecondsToMs, ReadOptions;
  }

  /** NX is among the options exactly when it was read somewhere, and so is XX. */
  lemma {:induction false} ConditionsRead(args: seq<string>, i: nat)
    ensures IfAbsent in ReadOptions(args, i).options <==> exists j :: ReadFrom(args, i, j) && ToUpper(args[j]) == "NX"
    ensures IfPresent in ReadOptions(args, i).options <==> exists j :: ReadFrom(args, i, j) && ToUpper(args[j]) == "XX"
    decreases |args| - i
  {
    hide ToUpper, IntegerText, ParseInt, SecondsToMs, ReadOptions, ReadFrom;
    if i + 1 >= |args| {
      forall j ensures !ReadFrom(args, i, j) {
        NothingReadFrom(args, i, j);
      }
      NothingReadFrom(args, i, i);
    } else {
      OptionsFrom(args, i);
      NotANumber(args, i);
      forall j ensures ReadFrom(args, i, j) <==> i == j || (NumberGiven(args, i) && ReadFrom(args, Next(args, i), j)) {
        ReadsOn(args, i, j);
      }
      if NumberGiven(args, i) {
        ConditionsRead(args, Next(args, i));
        assert ReadFrom(args, i, i);
      }
    }
  }

  lemma NotANumber(args: seq<string>, i: nat)
    requires i + 1 < |args|
    ensures ToUpper(args[i]) == "NX" || ToUpper(args[i]) == "XX" ==> NumberGiven(args, i)
    ensures OptionNamed(ToUpper(args[i]), ParseInt(args[i + 1])).IfAbsent? <==> ToUpper(args[i]) == "NX"
    ensures OptionNamed(ToUpper(args[i]), ParseInt(args[i + 1])).IfPresent? <==> ToUpper(args[i]) == "XX"
    ensures OptionNamed(ToUpper(args[i]), ParseInt(args[i + 1])).Expire? <==>
              ToUpper(args[i]) == "EX" || ToUpper(args[i]) == "PX"
  {
    hide ToUpper, IntegerText, ParseInt, SecondsToMs;
  }

  /** No expiry option is read from `i` on. */
  ghost predicate NoExpiryFrom(args: seq<string>, i: nat) {
    forall j :: ReadFrom(args, i, j) && IntegerText(args[j + 1]) ==>
      ToUpper(args[j]) != "EX" && ToUpper(args[j]) != "PX"
  }

  lemma {:induction false} NoExpiryRead(args: seq<string>, i: nat)
    requires NoExpiryFrom(args, i)
    ensures forall k :: 0 <= k < |ReadOptions(args, i).options| ==> !ReadOptions(args, i).options[k].Expire?
    decreases |args| - i
  {
    hide ToUpper, IntegerText, ParseInt, SecondsToMs, ReadOptions, ReadFrom;
    if i + 1 >= |args| {
      NothingReadFrom(args, i, i);
    } else {
      OptionsFrom(args, i);
      NotANumber(args, i);
      forall j ensures ReadFrom(args, i, j) <==> i == j || (NumberGiven(args, i) && ReadFrom(args, Next(args, i), j)) {
        ReadsOn(args, i, j);
      }
      if NumberGiven(args, i) {
        assert ReadFrom(args, i, i);
        NoExpiryRead(args, Next(args, i));
      }
    }
  }

  /** The number that the expiry option at `j` sets, in milliseconds. */
  function Milliseconds(args: seq<string>, j: int): int
    requires 0 <= j && j + 1 < |args|
  {
    if ToUpper(args[j]) == "EX" then SecondsToMs(ParseInt(args[j + 1])) else ParseInt(args[j + 1])
  }

  /** The last expiry option that is read sets the expiry. */
  lemma {:induction false} LastExpiryCounts(args: seq<string>, i: nat, j: int, v: RedisValue, now: int)
    requires ReadFrom(args, i, j) && IntegerText(args[j + 1]) && (ToUpper(args[j]) == "EX" || ToUpper(args[j]) == "PX")
    requires forall k :: j < k && ReadFrom(args, i, k) && IntegerText(args[k + 1]) ==>
               ToUpper(args[k]) != "EX" && ToUpper(args[k]) != "PX"
    ensures exists k :: 0 <= k < |ReadOptions(args, i).options|
              && ReadOptions(args, i).options[k] == SetOption.Expire(Milliseconds(args, j))
              && forall m :: k < m < |ReadOptions(args, i).options| ==> !ReadOptions(args, i).options[m].Expire?
    decreases |args| - i
  {
    hide ToUpper, IntegerText, ParseInt, SecondsToMs, ReadOptions, ReadFrom;
    InRange(args, i, j);
    OptionsFrom(args, i);
    NotANumber(args, i);
    forall k ensures ReadFrom(args, i, k) <==> i == k || (NumberGiven(args, i) && ReadFrom(args, Next(args, i), k)) {
      ReadsOn(args, i, k);
    }
    forall k | ReadFrom(args, Next(args, i), k) ensures i < k {
      InRange(args, Next(args, i), k);
    }
    var all := ReadOptions(args, i).options;
    if i == j {
      assert all[0] == SetOption.Expire(Milliseconds(args, j));
      NoExpiryRead(args, Next(args, i));
    } else {
      LastExpiryCounts(args, Next(args, i), j, v, now);
      var rest := ReadOptions(args, Next(args, i)).options;
      var k :| 0 <= k < |rest| && rest[k] == SetOption.Expire(Milliseconds(args, j))
               && forall m :: k < m < |rest| ==> !rest[m].Expire?;
      assert all[k + 1] == rest[k];
      forall m | k + 1 < m < |all| ensures !all[m].Expire? {
        assert all[m] == rest[m - 1];
      }
    }
  }

  lemma InRange(args: seq<string>, i: nat, j: int)
    requires ReadFrom(args, i, j)
    ensures i <= j && i + 1 < |args| && j + 1 < |args|
  {
  }

  /** An expiry option is read whose value is not the text of a number. */
  ghost predicate BadNumberFrom(args: seq<string>, i: nat) {
    exists j ::
      ReadFrom(args, i, j) && (ToUpper(args[j]) == "EX" || ToUpper(args[j]) == "PX") && !IntegerText(args[j + 1])
  }

  lemma EndingStep(args: seq<string>, i: nat)
    requires i + 1 < |args|
    ensures ReadOptions(args, i).ending
         == if NumberGiven(args, i) then ReadOptions(args, Next(args, i)).ending else BadNumber
  {
    ReadOne(args, i);
    hide ToUpper, IntegerText, ParseInt, SecondsToMs, ReadOptions;
  }

  lemma NothingLeft(args: seq<string>, i: nat)
    requires i + 1 >= |args|
    ensures ReadOptions(args, i).ending != BadNumber
  {
  }

  lemma {:induction false} BadNumberExactly(args: seq<string>, i: nat)
    ensures ReadOptions(args, i).ending == BadNumber <==> BadNumberFrom(args, i)
    decreases |args| - i
  {
    hide ToUpper, IntegerText, ParseInt, ReadOptions, ReadFrom;
    if i + 1 >= |args| {
      forall j ensures !ReadFrom(args, i, j) {
        NothingReadFrom(args, i, j);
      }
      NothingLeft(args, i);
    } else {
      EndingStep(args, i);
      forall j ensures ReadFrom(args, i, j) <==> i == j || (NumberGiven(args, i) && ReadFrom(args, Next(args, i), j)) {
        ReadsOn(args, i, j);
      }
      if NumberGiven(args, i) {
        BadNumberExactly(args, Next(args, i));
      } else {
        assert ReadFrom(args, i, i);
      }
    }
  }

  // ----- what a client sees -----

  lemma SetRuns(st: Server, args: seq<string>, ctx: Context, key: string, t: int)
    requires CommandOf(st.commands, args) == Some(Command.SET) && |args| >= 3 && ctx.now <= t
    ensures var a, d := Process(st, args, ctx), Tick(st, ctx.now).db;
            && a.reply == Set(d, args, ctx.now, ctx.later).reply
            && Lookup(d, args[1], ctx.now) == Lookup(st.db, args[1], ctx.now)
            && Lookup(a.server.db, key, t)
               == if a.reply == Status("OK") && key == args[1]
                  then Unexpired(WithExpiry(OfString(args[2]), ReadOptions(args, 3).options, ctx.later), t)
                  else Lookup(st.db, key, t)
  {
    StringLaws.Keyless(Command.SET, args, ctx);
    StringLaws.SweptSees(st, ctx.now);
    hide KeyPlan, CommandOf, Process, Tick, Set, StringLaws.Swept, WithExpiry, ReadOptions, Unexpired;
    OtherCommand(st, args, ctx);
    SetEffect(Tick(st, ctx.now).db, args, ctx.now, ctx.later, t, key);
    assert Lookup(StringLaws.Swept(st, ctx.now), key, t) == Lookup(st.db, key, t);
    assert Lookup(StringLaws.Swept(st, ctx.now), args[1], ctx.now) == Lookup(st.db, args[1], ctx.now);
  }

  /** SET replies null exactly when it reads NX and the key is visible, or XX and it is not. */
  lemma ConditionsDecide(st: Server, args: seq<string>, ctx: Context)
    requires CommandOf(st.commands, args) == Some(Command.SET) && |args| >= 3
    ensures Process(st, args, ctx).reply == Nil <==>
              || ((exists j :: Given(args, j, "NX")) && !ViewAt(st.db, args[1], ctx.now).Missing?)
              || ((exists j :: Given(args, j, "XX")) && ViewAt(st.db, args[1], ctx.now).Missing?)
  {
    SetRuns(st, args, ctx, args[1], ctx.now);
    GivenConditions(args);
    StringLaws.MissingIsNone(Lookup(st.db, args[1], ctx.now));
    hide CommandOf, Process, Tick, ReadOptions, Given, Lookup, ViewOf, WithExpiry, Purge, Conditional;
  }

  lemma GivenConditions(args: seq<string>)
    ensures IfAbsent in ReadOptions(args, 3).options <==> exists j :: Given(args, j, "NX")
    ensures IfPresent in ReadOptions(args, 3).options <==> exists j :: Given(args, j, "XX")
  {
    ConditionsRead(args, 3);
    hide ReadOptions, ReadAsOption, ToUpper;
    forall j, name | Given(args, j, name) ensures ReadFrom(args, 3, j) && ToUpper(args[j]) == name {
    }
    forall j | ReadFrom(args, 3, j) ensures Given(args, j, ToUpper(args[j])) {
    }
  }

  /** A SET that meets its conditions is a syntax error exactly when its last argument is read as an
      option; not a number exactly when that is no number which EX or PX is followed by; else OK. */
  lemma SetReplies(st: Server, args: seq<string>, ctx: Context)
    requires CommandOf(st.commands, args) == Some(Command.SET) && |args| >= 3
    requires Process(st, args, ctx).reply != Nil
    ensures Process(st, args, ctx).reply
         == if |args| > 3 && ReadAsOption(args, 3, |args| - 1) then Failure(SyntaxError)
            else if BadNumberFrom(args, 3) then Failure(NotInteger)
            else Status("OK")
  {
    SetRuns(st, args, ctx, args[1], ctx.now);
    hide CommandOf, Process, Tick, Lookup, Purge, WithExpiry, Conditional, Blocked, BadNumberFrom, ReadAsOption;
    BadNumberExactly(args, 3);
    if |args| > 3 {
      DanglingExactly(args, 3);
    } else {
      NothingReadFrom(args, 3, 3);
    }
    hide ReadOptions;
  }

  /** A SET that is not OK leaves everything a client can see as it was; one that is OK leaves
      everything but its key. */
  lemma SetLeavesOthers(st: Server, args: seq<string>, ctx: Context, key: string, t: int)
    requires CommandOf(st.commands, args) == Some(Command.SET) && |args| >= 3 && ctx.now <= t
    requires Process(st, args, ctx).reply == Status("OK") ==> key != args[1]
    ensures Lookup(Process(st, args, ctx).server.db, key, t) == Lookup(st.db, key, t)
  {
    SetRuns(st, args, ctx, key, t);
  }

  /** EX counts seconds and PX milliseconds from the moment the option is read; of several the last
      counts. The value is seen up to the deadline and not from it on. */
  lemma SetExpires(st: Server, args: seq<string>, ctx: Context, j: int, unit: int, t: int)
    requires CommandOf(st.commands, args) == Some(Command.SET) && ctx.now <= t
    requires Process(st, args, ctx).reply == Status("OK")
    requires ExpiryGiven(args, j) && forall k :: j < k ==> !ExpiryGiven(args, k)
    requires unit == if ToUpper(args[j]) == "EX" then 1_000_000_000 else 1_000_000
    requires InInt64(ctx.later + ParseInt(args[j + 1]) * unit)
    ensures ViewAt(Process(st, args, ctx).server.db, args[1], t)
         == if t < ctx.later + ParseInt(args[j + 1]) * unit then TextView(args[2]) else Missing
  {
    SetRuns(st, args, ctx, args[1], t);
    var v := OfString(args[2]);
    ExpiryStored(args, j, v, ctx.later);
    DeadlineOf(args, j, unit, ctx.later, v);
    hide CommandOf, Process, Tick, Set, ReadOptions, WithExpiry, ExpiryGiven, Milliseconds, ParseInt, ToUpper, Lookup;
    assert ViewOf(Some(v.SetExpiry(ctx.later, Milliseconds(args, j)))) == TextView(args[2]);
  }

  lemma ExpiryStored(args: seq<string>, j: int, v: RedisValue, now: int)
    requires ExpiryGiven(args, j) && forall k :: j < k ==> !ExpiryGiven(args, k)
    ensures 0 <= j && j + 1 < |args|
    ensures WithExpiry(v, ReadOptions(args, 3).options, now) == v.SetExpiry(now, Milliseconds(args, j))
  {
    hide ReadOptions, ReadAsOption, ToUpper, IntegerText, Milliseconds;
    forall k | j < k && ReadFrom(args, 3, k) && IntegerText(args[k + 1])
      ensures ToUpper(args[k]) != "EX" && ToUpper(args[k]) != "PX"
    {
      assert !ExpiryGiven(args, k);
    }
    LastExpiryCounts(args, 3, j, v, now);
    var all := ReadOptions(args, 3).options;
    var k :| 0 <= k < |all| && all[k] == SetOption.Expire(Milliseconds(args, j))
             && forall m :: k < m < |all| ==> !all[m].Expire?;
    ExpiryOfTheLast(v, all, now, k + 1);
  }

  lemma DeadlineOf(args: seq<string>, j: int, unit: int, now: int, v: RedisValue)
    requires ExpiryGiven(args, j) && unit == if ToUpper(args[j]) == "EX" then 1_000_000_000 else 1_000_000
    requires InInt64(now + ParseInt(args[j + 1]) * unit)
    ensures var w := v.SetExpiry(now, Milliseconds(args, j));
            w.hasExpiry && w.expiry == now + ParseInt(args[j + 1]) * unit
  {
    hide ReadAsOption, ToUpper, IntegerText, ParseInt;
    var n := ParseInt(args[j + 1]);
    if ToUpper(args[j]) == "EX" {
      TtlRuns.DeadlineStored(v, now, n);
    } else {
      TtlRuns.WrapSum(now, n * 1_000_000);
    }
  }

  /** Without EX and PX the value stays for good. */
  lemma SetForGood(st: Server, args: seq<string>, ctx: Context, t: int)
    requires CommandOf(st.commands, args) == Some(Command.SET) && |args| >= 3 && ctx.now <= t
    requires Process(st, args, ctx).reply == Status("OK") && forall k :: !ExpiryGiven(args, k)
    ensures ViewAt(Process(st, args, ctx).server.db, args[1], t) == TextView(args[2])
    ensures ExpiryAt(Process(st, args, ctx).server.db, args[1], t).None?
  {
    SetRuns(st, args, ctx, args[1], t);
    NoneStored(args, OfString(args[2]), ctx.later);
    hide CommandOf, Process, Tick, Set, ReadOptions, WithExpiry, ExpiryGiven, Lookup;
  }

  lemma NoneStored(args: seq<string>, v: RedisValue, now: int)
    requires forall k :: !ExpiryGiven(args, k)
    ensures WithExpiry(v, ReadOptions(args, 3).options, now) == v
  {
    hide ReadOptions, ReadAsOption, ToUpper, IntegerText;
    forall k | ReadFrom(args, 3, k) && IntegerText(args[k + 1])
      ensures ToUpper(args[k]) != "EX" && ToUpper(args[k]) != "PX"
    {
      assert !ExpiryGiven(args, k);
    }
    NoExpiryRead(args, 3);
    ExpiryOfTheLast(v, ReadOptions(args, 3).options, now, 0);
  }

  /** SET key value, without options, is always OK. */
  lemma PlainSet(st: Server, args: seq<string>, ctx: Context)
    requires CommandOf(st.commands, args) == Some(Command.SET) && |args| == 3
    ensures Process(st, args, ctx).reply == Status("OK")
  {
    SetRuns(st, args, ctx, args[1], ctx.now);
    hide CommandOf, Process, Tick, Lookup, Purge, WithExpiry;
  }
}
