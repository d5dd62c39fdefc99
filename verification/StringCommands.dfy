/** src/redis/commands/string_commands.cpp. */
module StringCommands {
  import opened Text
  import opened Decimal
  import opened RedisValue
  import opened RedisDatabase
  import opened Replies
  import opened RespFormatter
  import opened CommandPlan
  import opened ArgumentSets

  // ----- commands on one key -----

  function Get(args: seq<string>): Plan {
    if |args| != 2 then Refuse(WrongArgs(GET))
    else Touch(args[1], (cur: Option<RedisValue>) =>
      match Holding(cur, STRING) case None => Say(Nil) case Some(v) => Say(Bulk(v.text)))
  }

  function TypeName(kind: RedisType): string {
    match kind
    case STRING => "string"
    case LIST => "list"
    case SET => "set"
    case HASH => "hash"
    case ZSET => "zset"
    case STREAM => "unknown"
  }

  function Type(args: seq<string>): Plan {
    if |args| != 2 then Refuse(WrongArgs(TYPE))
    else Touch(args[1], (cur: Option<RedisValue>) =>
      match cur case None => Say(Status("none")) case Some(v) => Say(Status(TypeName(v.kind))))
  }

  /** The common end of INCR, DECR, INCRBY and DECRBY: the sum replaces the whole entry. */
  function Add(cur: Option<RedisValue>, delta: int): Action {
    if cur.Some? && cur.value.kind != STRING then Say(Failure(WrongType))
    else if cur.Some? && !IntegerText(cur.value.text) then Say(Failure(NotInteger))
    else
      var sum := Wrap64((if cur.Some? then ParseInt(cur.value.text) else 0) + delta);
      Action(Number(sum), Put(OfString(ToString(sum))))
  }

  function Incr(args: seq<string>): Plan {
    if |args| != 2 then Refuse(WrongArgs(INCR)) else Touch(args[1], (cur: Option<RedisValue>) => Add(cur, 1))
  }

  function Decr(args: seq<string>): Plan {
    if |args| != 2 then Refuse(WrongArgs(DECR)) else Touch(args[1], (cur: Option<RedisValue>) => Add(cur, -1))
  }

  function IncrBy(args: seq<string>): Plan {
    if |args| != 3 then Refuse(WrongArgs(INCRBY))
    else if !IntegerText(args[2]) then Refuse(NotInteger)
    else Touch(args[1], (cur: Option<RedisValue>) => Add(cur, ParseInt(args[2])))
  }

  function DecrBy(args: seq<string>): Plan {
    if |args| != 3 then Refuse(WrongArgs(DECRBY))
    else if !IntegerText(args[2]) then Refuse(NotInteger)
    else Touch(args[1], (cur: Option<RedisValue>) => Add(cur, -ParseInt(args[2])))
  }

  function Strlen(args: seq<string>): Plan {
    if |args| != 2 then Refuse(WrongArgs(STRLEN))
    else Touch(args[1], (cur: Option<RedisValue>) =>
      match Holding(cur, STRING) case None => Say(Number(0)) case Some(v) => Say(Number(|v.text|)))
  }

  /** An entry of another type is silently replaced. */
  function Append(args: seq<string>): Plan {
    if |args| != 3 then Refuse(WrongArgs(APPEND))
    else Touch(args[1], (cur: Option<RedisValue>) =>
      var before := match Holding(cur, STRING) case None => "" case Some(v) => v.text;
      Action(Number(|before + args[2]|), Put(OfString(before + args[2]))))
  }

  // ----- commands on several keys -----

  function KeysOf(args: seq<string>): set<string> {
    ArgsFrom(args, 1)
  }

  function Del(d: Db, args: seq<string>): Outcome {
    if |args| < 2 then Outcome(d, Failure(WrongArgs(DEL)))
    else Outcome(WithoutKeys(d, args), Number(CountStored(d, args)))
  }

  function WithoutKeys(d: Db, args: seq<string>): Db {
    d - KeysOf(args)
  }

  /** How many different keys among the arguments are in the map, visible or not. */
  function CountStored(d: Db, args: seq<string>): nat {
    |d.Keys * KeysOf(args)|
  }

  /** How many of the arguments are visible keys, repetitions counted. */
  function CountLive(d: Db, args: seq<string>, now: int): nat {
    if |args| < 2 then 0
    else CountLive(d, args[..|args| - 1], now) + if Lookup(d, args[|args| - 1], now).Some? then 1 else 0
  }

  function Exists(d: Db, args: seq<string>, now: int): Outcome {
    if |args| < 2 then Outcome(d, Failure(WrongArgs(EXISTS)))
    else Outcome(PurgeAll(d, KeysOf(args), now), Number(CountLive(d, args, now)))
  }

  function TextOf(cur: Option<RedisValue>): string {
    match Holding(cur, STRING) case None => "" case Some(v) => v.text
  }

  function Mget(d: Db, args: seq<string>, now: int): Outcome {
    if |args| < 2 then Outcome(d, Failure(WrongArgs(MGET)))
    else Outcome(PurgeAll(d, KeysOf(args), now),
                 Items(seq(|args| - 1, i requires 0 <= i < |args| - 1 => TextOf(Lookup(d, args[i + 1], now)))))
  }

  /** The map after the pairs args[1], args[2], ... are stored from left to right. */
  function PutPairs(d: Db, args: seq<string>): Db {
    if |args| < 3 then d
    else PutPairs(d, args[..|args| - 2])[args[|args| - 2] := OfString(args[|args| - 1])]
  }

  function Mset(d: Db, args: seq<string>): Outcome {
    if |args| < 3 || |args| % 2 == 0 then Outcome(d, Failure(WrongArgs(MSET)))
    else Outcome(PutPairs(d, args), Status("OK"))
  }

  // ----- SET -----

  datatype SetOption = Expire(milliseconds: int) | IfAbsent | IfPresent | Ignored

  datatype Ending = Complete | Dangling | BadNumber

  datatype SetOptions = SetOptions(options: seq<SetOption>, ending: Ending)

  /** The options of SET from position `i`. NX and XX take no value, but like every option they
      must not be the last argument; an unknown option is skipped together with its value. */
  function ReadOptions(args: seq<string>, i: nat): SetOptions
    decreases |args| - i
  {
    if i >= |args| then SetOptions([], Complete)
    else if i + 1 >= |args| then SetOptions([], Dangling)
    else if TakesNumber(ToUpper(args[i])) && !IntegerText(args[i + 1]) then SetOptions([], BadNumber)
    else
      var o := OptionNamed(ToUpper(args[i]), ParseInt(args[i + 1]));
      Before(o, ReadOptions(args, i + if o.IfAbsent? || o.IfPresent? then 1 else 2))
  }

  predicate TakesNumber(param: string) {
    param == "EX" || param == "PX"
  }

  function OptionNamed(param: string, n: int): SetOption {
    if param == "EX" then Expire(SecondsToMs(n))
    else if param == "PX" then Expire(n)
    else if param == "NX" then IfAbsent
    else if param == "XX" then IfPresent
    else Ignored
  }

  /** The options `done` were read before `rest`. */
  function Following(done: seq<SetOption>, rest: SetOptions): SetOptions {
    rest.(options := done + rest.options)
  }

  function Before(o: SetOption, rest: SetOptions): SetOptions {
    rest.(options := [o] + rest.options)
  }

  predicate Conditional(options: seq<SetOption>) {
    IfAbsent in options || IfPresent in options
  }

  /** Some condition among the options is not met. */
  predicate Blocked(options: seq<SetOption>, present: bool) {
    (IfAbsent in options && present) || (IfPresent in options && !present)
  }

  /** The last expiry option counts. */
  function WithExpiry(v: RedisValue, options: seq<SetOption>, now: int): RedisValue {
    if options == [] then v
    else
      var last := options[|options| - 1];
      if last.Expire? then v.SetExpiry(now, last.milliseconds) else WithExpiry(v, options[..|options| - 1], now)
  }

  function SetReply(o: SetOptions, present: bool): Reply {
    if Blocked(o.options, present) then Nil
    else
      match o.ending
      case Dangling => Failure(SyntaxError)
      case BadNumber => Failure(NotInteger)
      case Complete => Status("OK")
  }

  /** The key is looked up at `now`; an expiry counts from `later`. */
  function Set(d: Db, args: seq<string>, now: int, later: int): Outcome {
    if |args| < 3 then Outcome(d, Failure(WrongArgs(Command.SET)))
    else
      var o := ReadOptions(args, 3);
      var present := Lookup(d, args[1], now).Some?;
      var seen := if Conditional(o.options) then Purge(d, args[1], now) else d;
      var reply := SetReply(o, present);
      if reply.Status? then Outcome(seen[args[1] := WithExpiry(OfString(args[2]), o.options, later)], reply)
      else Outcome(seen, reply)
  }

  lemma PurgeTwice(d: Db, key: string, now: int)
    ensures Purge(Purge(d, key, now), key, now) == Purge(d, key, now)
    ensures Lookup(Purge(d, key, now), key, now) == Lookup(d, key, now)
  {
  }

  lemma NothingRead(v: RedisValue, present: bool, now: int)
    ensures !Blocked([], present) && !Conditional([]) && WithExpiry(v, [], now) == v
  {
  }

  /** What one more option `o` changes, when nothing read before it blocked. */
  lemma OptionRead(v: RedisValue, done: seq<SetOption>, o: SetOption, rest: SetOptions, present: bool, now: int)
    requires !Blocked(done, present)
    ensures Following(done, Before(o, rest)) == Following(done + [o], rest)
    ensures Conditional(done + [o]) == (Conditional(done) || o.IfAbsent? || o.IfPresent?)
    ensures Blocked(done + [o], present) == ((o.IfAbsent? && present) || (o.IfPresent? && !present))
    ensures Blocked(done + [o], present) ==>
              var all := Following(done + [o], rest).options; Blocked(all, present) && Conditional(all)
    ensures WithExpiry(v, done + [o], now)
         == if o.Expire? then WithExpiry(v, done, now).SetExpiry(now, o.milliseconds) else WithExpiry(v, done, now)
  {
    assert done + ([o] + rest.options) == done + [o] + rest.options;
    assert (done + [o])[..|done|] == done;
    WithExpiryKeepsTheRest(v, done, now);
  }

  lemma {:induction false} WithExpiryKeepsTheRest(v: RedisValue, options: seq<SetOption>, now: int)
    ensures WithExpiry(v, options, now).(expiry := v.expiry, hasExpiry := v.hasExpiry) == v
  {
    if options != [] {
      WithExpiryKeepsTheRest(v, options[..|options| - 1], now);
    }
  }

  lemma PurgeAllSnoc(d: Db, args: seq<string>, i: nat, now: int)
    requires 1 <= i < |args|
    ensures Purge(PurgeAll(d, KeysOf(args[..i]), now), args[i], now) == PurgeAll(d, KeysOf(args[..i + 1]), now)
    ensures Lookup(PurgeAll(d, KeysOf(args[..i]), now), args[i], now) == Lookup(d, args[i], now)
  {
    ArgsFromSnoc(args, 1, i);
  }

  lemma NothingDeleted(d: Db, args: seq<string>)
    requires |args| >= 1
    ensures WithoutKeys(d, args[..1]) == d && CountStored(d, args[..1]) == 0
  {
    NoArgsYet(args, 1);
    assert d.Keys * {} == {};
  }

  lemma DelSnoc(d: Db, args: seq<string>, i: nat)
    requires 1 <= i < |args|
    ensures WithoutKeys(d, args[..i]) - {args[i]} == WithoutKeys(d, args[..i + 1])
    ensures CountStored(d, args[..i + 1])
         == CountStored(d, args[..i]) + if args[i] in WithoutKeys(d, args[..i]) then 1 else 0
  {
    hide ArgsFrom;
    ArgsFromSnoc(args, 1, i);
    var before, k := KeysOf(args[..i]), args[i];
    CommonSnoc(before, k, d.Keys);
  }

  lemma RefusalRuns(problem: Problem, d: Db, now: int)
    ensures RunPlan(Refuse(problem), d, now) == Outcome(d, Failure(problem))
  {
  }

  /** How the option list ends a SET, when nothing read so far blocked. */
  lemma Endings(done: seq<SetOption>, present: bool)
    requires !Blocked(done, present)
    ensures SetReply(SetOptions(done, Dangling), present) == Failure(SyntaxError)
    ensures SetReply(SetOptions(done, BadNumber), present) == Failure(NotInteger)
    ensures SetReply(SetOptions(done, Complete), present) == Status("OK")
  {
  }

  lemma BlockedEnds(o: SetOptions, present: bool)
    requires Blocked(o.options, present)
    ensures SetReply(o, present) == Nil && Renders(Nil, FormatNull())
  {
  }

  /** What the option at `i` is when there is an argument after it. */
  lemma ReadOne(args: seq<string>, i: nat)
    requires i + 1 < |args|
    ensures var o := OptionNamed(ToUpper(args[i]), ParseInt(args[i + 1]));
            ReadOptions(args, i) == if TakesNumber(ToUpper(args[i])) && !IntegerText(args[i + 1])
                                    then SetOptions([], BadNumber)
                                    else Before(o, ReadOptions(args, i + if o.IfAbsent? || o.IfPresent? then 1 else 2))
  {
    hide ToUpper, IntegerText, ParseInt, SecondsToMs;
  }

  lemma ReadNone(args: seq<string>, i: nat, done: seq<SetOption>)
    ensures i >= |args| ==> Following(done, ReadOptions(args, i)) == SetOptions(done, Complete)
    ensures i + 1 == |args| ==> Following(done, ReadOptions(args, i)) == SetOptions(done, Dangling)
    ensures Following(done, SetOptions([], BadNumber)) == SetOptions(done, BadNumber)
    ensures Following([], ReadOptions(args, i)) == ReadOptions(args, i)
  {
    assert done + [] == done;
    hide ToUpper, IntegerText, ParseInt, SecondsToMs;
    assert [] + ReadOptions(args, i).options == ReadOptions(args, i).options;
  }

  class StringCommands {
    const db: RedisDatabase

    constructor (database: RedisDatabase)
      ensures db == database
    {
      db := database;
    }

    method CmdSet(args: seq<string>, now: int, later: int) returns (resp: string)
      modifies db
      ensures Yields(Set(old(db.database), args, now, later), db.database, resp)
    {
      hide ReadOptions, Lookup, Purge, WithExpiry, Blocked, Conditional;
      if |args| < 3 {
        resp := RenderProblem(WrongArgs(Command.SET));
        return;
      }
      var key, value := args[1], args[2];
      var refusal, redisValue := ApplyOptions(args, key, OfString(value), now, later);
      if refusal.Some? {
        return refusal.value;
      }
      db.SetValue(key, redisValue);
      resp := FormatSimpleString("OK");
    }

    /** The option loop of cmdSet: a reply that ends the command, or the value to store. */
    method ApplyOptions(args: seq<string>, key: string, value: RedisValue, now: int, later: int)
      returns (refusal: Option<string>, redisValue: RedisValue)
      requires |args| >= 3
      modifies db
      ensures var o := ReadOptions(args, 3);
              var reply := SetReply(o, Lookup(old(db.database), key, now).Some?);
              && refusal.None? == reply.Status?
              && (refusal.Some? ==> Renders(reply, refusal.value))
              && (refusal.None? ==> redisValue == WithExpiry(value, o.options, later))
              && db.database == if Conditional(o.options) then Purge(old(db.database), key, now) else old(db.database)
    {
      hide IntegerText, ParseInt, ToUpper, SecondsToMs, Purge, Lookup, WithExpiry, Blocked, Conditional,
        ReadOptions, Following, Before, SetReply, Renders;
      redisValue := value;
      ghost var d, all := db.database, ReadOptions(args, 3);
      ghost var present := Lookup(d, key, now).Some?;
      ghost var done: seq<SetOption> := [];
      PurgeTwice(d, key, now);
      NothingRead(value, present, later);
      ReadNone(args, 3, done);
      var i := 3;
      while i < |args|
        invariant 3 <= i
        invariant all == Following(done, ReadOptions(args, i))
        invariant !Blocked(done, present)
        invariant redisValue == WithExpiry(value, done, later)
        invariant db.database == if Conditional(done) then Purge(d, key, now) else d
        decreases |args| - i
      {
        Endings(done, present);
        ReadNone(args, i, done);
        if i + 1 >= |args| {
          var problem := RenderProblem(SyntaxError);
          return Some(problem), redisValue;
        }
        var param := ToUpper(args[i]);
        ghost var o := OptionNamed(param, ParseInt(args[i + 1]));
        ghost var rest := ReadOptions(args, i + if o.IfAbsent? || o.IfPresent? then 1 else 2);
        ReadOne(args, i);
        OptionRead(value, done, o, rest, present, later);
        if param == "EX" {
          var isNumber := IsInteger(args[i + 1]);
          if !isNumber {
            var problem := RenderProblem(NotInteger);
            return Some(problem), redisValue;
          }
          redisValue := redisValue.SetExpiry(later, SecondsToMs(ParseInt(args[i + 1])));
        } else if param == "PX" {
          var isNumber := IsInteger(args[i + 1]);
          if !isNumber {
            var problem := RenderProblem(NotInteger);
            return Some(problem), redisValue;
          }
          redisValue := redisValue.SetExpiry(later, ParseInt(args[i + 1]));
        } else if param == "NX" {
          var isPresent := db.KeyExists(key, now);
          if isPresent {
            BlockedEnds(all, present);
            return Some(FormatNull()), redisValue;
          }
          i := i - 1;
        } else if param == "XX" {
          var isPresent := db.KeyExists(key, now);
          if !isPresent {
            BlockedEnds(all, present);
            return Some(FormatNull()), redisValue;
          }
          i := i - 1;
        }
        i := i + 2;
        done := done + [o];
      }
      ReadNone(args, i, done);
      Endings(done, present);
      return None, redisValue;
    }

    method CmdGet(args: seq<string>, now: int) returns (resp: string)
      modifies db
      ensures Yields(RunPlan(Get(args), old(db.database), now), db.database, resp)
    {
      hide Purge, Lookup;
      if |args| != 2 {
        resp := RenderProblem(WrongArgs(GET));
        return;
      }
      var value := db.GetValue(args[1], now);
      if value.None? || value.value.kind != STRING {
        return FormatNull();
      }
      return FormatBulkString(value.value.text);
    }

    method CmdDel(args: seq<string>) returns (resp: string)
      modifies db
      ensures Yields(Del(old(db.database), args), db.database, resp)
    {
      hide WithoutKeys, CountStored;
      if |args| < 2 {
        resp := RenderProblem(WrongArgs(DEL));
        return;
      }
      ghost var d := db.database;
      var deleted := 0;
      NothingDeleted(d, args);
      for i := 1 to |args|
        invariant db.database == WithoutKeys(d, args[..i]) && deleted == CountStored(d, args[..i])
      {
        DelSnoc(d, args, i);
        var erased := db.DeleteKey(args[i]);
        if erased {
          deleted := deleted + 1;
        }
      }
      assert args[..|args|] == args;
      return FormatInteger(deleted);
    }

    method CmdExists(args: seq<string>, now: int) returns (resp: string)
      modifies db
      ensures Yields(Exists(old(db.database), args, now), db.database, resp)
    {
      if |args| < 2 {
        resp := RenderProblem(WrongArgs(EXISTS));
        return;
      }
      ghost var d := db.database;
      var count := 0;
      for i := 1 to |args|
        invariant db.database == PurgeAll(d, KeysOf(args[..i]), now)
        invariant count == CountLive(d, args[..i], now)
      {
        PurgeAllSnoc(d, args, i, now);
        assert args[..i + 1][..i] == args[..i];
        var exists_ := db.KeyExists(args[i], now);
        if exists_ {
          count := count + 1;
        }
      }
      assert args[..|args|] == args;
      return FormatInteger(count);
    }

    method CmdType(args: seq<string>, now: int) returns (resp: string)
      modifies db
      ensures Yields(RunPlan(Type(args), old(db.database), now), db.database, resp)
    {
      hide Purge, Lookup;
      if |args| != 2 {
        resp := RenderProblem(WrongArgs(TYPE));
        return;
      }
      var value := db.GetValue(args[1], now);
      if value.None? {
        return FormatSimpleString("none");
      }
      match value.value.kind
      case STRING => return FormatSimpleString("string");
      case LIST => return FormatSimpleString("list");
      case SET => return FormatSimpleString("set");
      case HASH => return FormatSimpleString("hash");
      case ZSET => return FormatSimpleString("zset");
      case _ => return FormatSimpleString("unknown");
    }

    /** The steps shared by the four counter commands once their arguments are checked. */
    method AddTo(key: string, delta: int, now: int) returns (resp: string)
      modifies db
      ensures Yields(RunPlan(Touch(key, (cur: Option<RedisValue>) => Add(cur, delta)), old(db.database), now),
                     db.database, resp)
    {
      hide IntegerText, ParseInt, ToString, Wrap64, Purge, Lookup;
      var value := db.GetValue(key, now);
      var current := 0;
      if value.Some? {
        if value.value.kind != STRING {
          resp := RenderProblem(WrongType);
          return;
        }
        var isNumber := IsInteger(value.value.text);
        if !isNumber {
          resp := RenderProblem(NotInteger);
          return;
        }
        current := ParseInt(value.value.text);
      }
      current := Wrap64(current + delta);
      db.SetValue(key, OfString(ToString(current)));
      return FormatInteger(current);
    }

    method CmdIncr(args: seq<string>, now: int) returns (resp: string)
      modifies db
      ensures Yields(RunPlan(Incr(args), old(db.database), now), db.database, resp)
    {
      hide RunPlan, Add;
      if |args| != 2 {
        resp := RenderProblem(WrongArgs(INCR));
        RefusalRuns(WrongArgs(INCR), db.database, now);
        return;
      }
      resp := AddTo(args[1], 1, now);
    }

    method CmdDecr(args: seq<string>, now: int) returns (resp: string)
      modifies db
      ensures Yields(RunPlan(Decr(args), old(db.database), now), db.database, resp)
    {
      hide RunPlan, Add;
      if |args| != 2 {
        resp := RenderProblem(WrongArgs(DECR));
        RefusalRuns(WrongArgs(DECR), db.database, now);
        return;
      }
      resp := AddTo(args[1], -1, now);
    }

    method CmdIncrBy(args: seq<string>, now: int) returns (resp: string)
      modifies db
      ensures Yields(RunPlan(IncrBy(args), old(db.database), now), db.database, resp)
    {
      hide RunPlan, Add, IntegerText, ParseInt;
      if |args| != 3 {
        resp := RenderProblem(WrongArgs(INCRBY));
        RefusalRuns(WrongArgs(INCRBY), db.database, now);
        return;
      }
      var isNumber := IsInteger(args[2]);
      if !isNumber {
        resp := RenderProblem(NotInteger);
        RefusalRuns(NotInteger, db.database, now);
        return;
      }
      resp := AddTo(args[1], ParseInt(args[2]), now);
    }

    method CmdDecrBy(args: seq<string>, now: int) returns (resp: string)
      modifies db
      ensures Yields(RunPlan(DecrBy(args), old(db.database), now), db.database, resp)
    {
      hide RunPlan, Add, IntegerText, ParseInt;
      if |args| != 3 {
        resp := RenderProblem(WrongArgs(DECRBY));
        RefusalRuns(WrongArgs(DECRBY), db.database, now);
        return;
      }
      var isNumber := IsInteger(args[2]);
      if !isNumber {
        resp := RenderProblem(NotInteger);
        RefusalRuns(NotInteger, db.database, now);
        return;
      }
      resp := AddTo(args[1], -ParseInt(args[2]), now);
    }

    method CmdStrlen(args: seq<string>, now: int) returns (resp: string)
      modifies db
      ensures Yields(RunPlan(Strlen(args), old(db.database), now), db.database, resp)
    {
      hide Purge, Lookup;
      if |args| != 2 {
        resp := RenderProblem(WrongArgs(STRLEN));
        return;
      }
      var value := db.GetValue(args[1], now);
      if value.None? || value.value.kind != STRING {
        return FormatInteger(0);
      }
      return FormatInteger(|value.value.text|);
    }

    method CmdAppend(args: seq<string>, now: int) returns (resp: string)
      modifies db
      ensures Yields(RunPlan(Append(args), old(db.database), now), db.database, resp)
    {
      hide Purge, Lookup;
      if |args| != 3 {
        resp := RenderProblem(WrongArgs(APPEND));
        return;
      }
      var key, appendValue := args[1], args[2];
      var value := db.GetValue(key, now);
      var result: string;
      if value.Some? && value.value.kind == STRING {
        result := value.value.text + appendValue;
      } else {
        result := appendValue;
        assert result == "" + appendValue;
      }
      db.SetValue(key, OfString(result));
      return FormatInteger(|result|);
    }

    method CmdMget(args: seq<string>, now: int) returns (resp: string)
      modifies db
      ensures Yields(Mget(old(db.database), args, now), db.database, resp)
    {
      if |args| < 2 {
        resp := RenderProblem(WrongArgs(MGET));
        return;
      }
      ghost var d := db.database;
      var results: seq<string> := [];
      for i := 1 to |args|
        invariant db.database == PurgeAll(d, KeysOf(args[..i]), now)
        invariant |results| == i - 1
        invariant forall j :: 0 <= j < i - 1 ==> results[j] == TextOf(Lookup(d, args[j + 1], now))
      {
        PurgeAllSnoc(d, args, i, now);
        var value := db.GetValue(args[i], now);
        if value.Some? && value.value.kind == STRING {
          results := results + [value.value.text];
        } else {
          results := results + [""];
        }
      }
      assert args[..|args|] == args;
      assert Mget(d, args, now).reply == Items(results);
      resp := PrintArray(results);
    }

    method CmdMset(args: seq<string>) returns (resp: string)
      modifies db
      ensures Yields(Mset(old(db.database), args), db.database, resp)
    {
      if |args| < 3 || |args| % 2 == 0 {
        resp := RenderProblem(WrongArgs(MSET));
        return;
      }
      ghost var d := db.database;
      var i := 1;
      while i < |args|
        invariant 1 <= i <= |args| && i % 2 == 1
        invariant db.database == PutPairs(d, args[..i])
      {
        assert args[..i + 2][..i] == args[..i];
        db.SetValue(args[i], OfString(args[i + 1]));
        i := i + 2;
      }
      assert args[..|args|] == args;
      return FormatSimpleString("OK");
    }
  }

  // ----- SET as a client sees it -----

  /** OK exactly when every option is well formed, NX found the key absent and XX found it present. */
  lemma SetSucceedsWhen(d: Db, args: seq<string>, now: int, later: int)
    requires |args| >= 3
    ensures var o := ReadOptions(args, 3);
            Set(d, args, now, later).reply == Status("OK") <==>
              o.ending == Complete
              && (IfAbsent in o.options ==> Lookup(d, args[1], now).None?)
              && (IfPresent in o.options ==> Lookup(d, args[1], now).Some?)
  {
    hide ReadOptions, Lookup, Purge, WithExpiry;
  }

  /** A refused SET changes nothing that a client can see, now or later; an accepted one stores
      the value, with the expiry of the last EX or PX and no other, and nothing else changes. */
  lemma SetEffect(d: Db, args: seq<string>, now: int, later: int, t: int, key: string)
    requires |args| >= 3 && now <= t
    ensures Lookup(Set(d, args, now, later).db, key, t)
         == if Set(d, args, now, later).reply == Status("OK") && key == args[1]
            then Unexpired(WithExpiry(OfString(args[2]), ReadOptions(args, 3).options, later), t)
            else Lookup(d, key, t)
  {
    hide ReadOptions, WithExpiry, Blocked, Conditional;
  }

  /** The expiry stored is that of the last EX or PX, and none without them. */
  lemma {:induction false} ExpiryOfTheLast(v: RedisValue, options: seq<SetOption>, now: int, k: nat)
    requires k <= |options| && forall i :: k <= i < |options| ==> !options[i].Expire?
    requires k > 0 ==> options[k - 1].Expire?
    ensures WithExpiry(v, options, now) == if k == 0 then v else v.SetExpiry(now, options[k - 1].milliseconds)
    decreases |options|
  {
    var n := |options|;
    if k < n {
      ExpiryOfTheLast(v, options[..n - 1], now, k);
    }
  }

  // ----- the end of the option list -----

  predicate TakesNoValue(param: string) {
    param == "NX" || param == "XX"
  }

  predicate NumberGiven(args: seq<string>, i: nat)
    requires i + 1 < |args|
  {
    TakesNumber(ToUpper(args[i])) ==> IntegerText(args[i + 1])
  }

  /** Reading from `i` comes to the argument at `j` as an option, not as a value. */
  predicate ReadAsOption(args: seq<string>, i: nat, j: nat)
    requires j < |args|
    decreases |args| - i
  {
    i == j ||
    (i < j && NumberGiven(args, i) && ReadAsOption(args, i + if TakesNoValue(ToUpper(args[i])) then 1 else 2, j))
  }

  lemma OptionsStep(args: seq<string>, i: nat)
    requires i + 1 < |args| && NumberGiven(args, i)
    ensures ReadOptions(args, i).ending
         == ReadOptions(args, i + if TakesNoValue(ToUpper(args[i])) then 1 else 2).ending
  {
    hide ToUpper, IntegerText, ParseInt, SecondsToMs;
  }

  /** The list ends in a syntax error exactly when its last argument is read as an option. */
  lemma {:induction false} DanglingExactly(args: seq<string>, i: nat)
    requires i < |args|
    ensures ReadOptions(args, i).ending == Dangling <==> ReadAsOption(args, i, |args| - 1)
    decreases |args| - i
  {
    hide ToUpper, IntegerText, ParseInt, SecondsToMs;
    if i + 1 < |args| && NumberGiven(args, i) {
      OptionsStep(args, i);
      var next := i + if TakesNoValue(ToUpper(args[i])) then 1 else 2;
      if next < |args| {
        DanglingExactly(args, next);
      }
    }
  }

  /** It is complete exactly when it is empty, or the last argument but one is an option that
      takes the last one as its value. */
  lemma {:induction false} CompleteExactly(args: seq<string>, i: nat)
    requires i <= |args|
    ensures ReadOptions(args, i).ending == Complete <==>
              i == |args| ||
              (var k := |args| - 2;
               i <= k && ReadAsOption(args, i, k) && !TakesNoValue(ToUpper(args[k])) && NumberGiven(args, k))
    decreases |args| - i
  {
    hide ToUpper, IntegerText, ParseInt, SecondsToMs;
    if i + 1 < |args| && NumberGiven(args, i) {
      OptionsStep(args, i);
      CompleteExactly(args, i + if TakesNoValue(ToUpper(args[i])) then 1 else 2);
    }
  }

  /** A SET whose last argument is read as an option is never OK, whatever that argument is and
      whatever stands before it: a syntax error, unless an earlier condition was not met. */
  lemma TrailingOptionIsRefused(d: Db, args: seq<string>, now: int, later: int)
    requires |args| > 3 && ReadAsOption(args, 3, |args| - 1)
    ensures Set(d, args, now, later).reply
         == if Blocked(ReadOptions(args, 3).options, Lookup(d, args[1], now).Some?) then Nil else Failure(SyntaxError)
  {
    hide ToUpper, IntegerText, ParseInt, SecondsToMs, Blocked, Conditional, Lookup, WithExpiry;
    DanglingExactly(args, 3);
    hide ReadOptions;
  }

  lemma {:induction false} OneArgumentMore(args: seq<string>, x: string, i: nat)
    requires i <= |args| && ReadOptions(args, i).ending == Complete
    ensures ReadOptions(args + [x], i) == SetOptions(ReadOptions(args, i).options, Dangling)
    decreases |args| - i
  {
    hide ToUpper, IntegerText, ParseInt, SecondsToMs;
    if i < |args| {
      var o := OptionNamed(ToUpper(args[i]), ParseInt(args[i + 1]));
      OneArgumentMore(args, x, i + if o.IfAbsent? || o.IfPresent? then 1 else 2);
    }
  }

  /** So one more argument, NX and XX included, makes every well-formed SET fail. */
  lemma OneArgumentMoreFails(d: Db, args: seq<string>, x: string, now: int, later: int)
    requires |args| >= 3 && ReadOptions(args, 3).ending == Complete
    ensures Set(d, args + [x], now, later).reply
         == if Set(d, args, now, later).reply == Status("OK") then Failure(SyntaxError) else Nil
  {
    hide Blocked, Conditional, Lookup, WithExpiry;
    OneArgumentMore(args, x, 3);
    hide ReadOptions;
  }

  lemma ConditionIsNoNumber(s: string)
    requires TakesNoValue(ToUpper(s))
    ensures !IntegerText(s)
  {
    assert |s| == 2 && ToUpper(s)[0] == Upper(s[0]);
  }

  /** A condition in last place never takes effect: the SET is well formed exactly when an
      unknown option takes the NX or XX as its value. */
  lemma TrailingConditionIsLost(args: seq<string>)
    requires |args| > 3 && TakesNoValue(ToUpper(args[|args| - 1]))
    ensures ReadOptions(args, 3).ending == Complete <==>
              (var k := |args| - 2;
               3 <= k && ReadAsOption(args, 3, k) && OptionNamed(ToUpper(args[k]), 0) == Ignored)
  {
    hide ToUpper, IntegerText, ReadOptions, SecondsToMs;
    CompleteExactly(args, 3);
    ConditionIsNoNumber(args[|args| - 1]);
  }
}
