/** src/redis/commands/ttl_commands.cpp. These commands read the clock twice: when they look the
    key up, at `now`, and again when they work with its expiry, at `later`. */
module TtlCommands {
  import opened Text
  import opened Decimal
  import opened RedisValue
  import opened RedisDatabase
  import opened Replies
  import opened RespFormatter
  import opened CommandPlan

  const NS_PER_SECOND: int := 1_000_000_000

  function ExpireIn(cur: Option<RedisValue>, seconds: int, later: int): Action {
    match cur
    case None => Say(Number(0))
    case Some(v) =>
      if seconds <= 0 then Action(Number(1), Remove)
      else Action(Number(1), Put(v.SetExpiry(later, SecondsToMs(seconds))))
  }

  function Expire(args: seq<string>, later: int): Plan {
    if |args| != 3 then Refuse(WrongArgs(EXPIRE))
    else if !IntegerText(args[2]) then Refuse(NotInteger)
    else Touch(args[1], (cur: Option<RedisValue>) => ExpireIn(cur, ParseInt(args[2]), later))
  }

  /** `system_clock::from_time_t`. */
  function FromTimeT(timestamp: int): int {
    Wrap64(timestamp * NS_PER_SECOND)
  }

  function ExpireAtTime(cur: Option<RedisValue>, timestamp: int, later: int): Action {
    match cur
    case None => Say(Number(0))
    case Some(v) =>
      if FromTimeT(timestamp) <= later then Action(Number(1), Remove)
      else Action(Number(1), Put(v.(expiry := FromTimeT(timestamp), hasExpiry := true)))
  }

  function Expireat(args: seq<string>, later: int): Plan {
    if |args| != 3 then Refuse(WrongArgs(EXPIREAT))
    else if !IntegerText(args[2]) then Refuse(NotInteger)
    else Touch(args[1], (cur: Option<RedisValue>) => ExpireAtTime(cur, ParseInt(args[2]), later))
  }

  function SecondsLeft(cur: Option<RedisValue>, later: int): int {
    match cur
    case None => -2
    case Some(v) =>
      if !v.hasExpiry then -1
      else if later >= v.expiry then -2
      else TruncDiv(Wrap64(v.expiry - later), NS_PER_SECOND)
  }

  /** An entry that expires between the two readings is erased. */
  function TimeLeft(cur: Option<RedisValue>, later: int): Action {
    Action(Number(SecondsLeft(cur, later)), if cur.Some? && cur.value.IsExpired(later) then Remove else Keep)
  }

  function Ttl(args: seq<string>, later: int): Plan {
    if |args| != 2 then Refuse(WrongArgs(TTL))
    else Touch(args[1], (cur: Option<RedisValue>) => TimeLeft(cur, later))
  }

  function Unexpire(cur: Option<RedisValue>): Action {
    match cur
    case None => Say(Number(0))
    case Some(v) => if !v.hasExpiry then Say(Number(0)) else Action(Number(1), Put(v.ClearExpiry()))
  }

  function Persist(args: seq<string>): Plan {
    if |args| != 2 then Refuse(WrongArgs(PERSIST))
    else Touch(args[1], (cur: Option<RedisValue>) => Unexpire(cur))
  }

  class TTLCommands {
    const db: RedisDatabase

    constructor (database: RedisDatabase)
      ensures db == database
    {
      db := database;
    }

    method CmdExpire(args: seq<string>, now: int, later: int) returns (resp: string)
      modifies db
      ensures Yields(RunPlan(Expire(args, later), old(db.database), now), db.database, resp)
    {
      hide IntegerText, ParseInt, Purge, Lookup, SecondsToMs;
      if |args| != 3 {
        resp := RenderProblem(WrongArgs(EXPIRE));
        return;
      }
      var key := args[1];
      var isNumber := IsInteger(args[2]);
      if !isNumber {
        resp := RenderProblem(NotInteger);
        return;
      }
      var value := db.GetValue(key, now);
      if value.None? {
        return FormatInteger(0);
      }
      var seconds := ParseInt(args[2]);
      if seconds <= 0 {
        var _ := db.DeleteKey(key);
        return FormatInteger(1);
      }
      db.SetValue(key, value.value.SetExpiry(later, SecondsToMs(seconds)));
      return FormatInteger(1);
    }

    method CmdExpireat(args: seq<string>, now: int, later: int) returns (resp: string)
      modifies db
      ensures Yields(RunPlan(Expireat(args, later), old(db.database), now), db.database, resp)
    {
      hide IntegerText, ParseInt, Purge, Lookup, FromTimeT;
      if |args| != 3 {
        resp := RenderProblem(WrongArgs(EXPIREAT));
        return;
      }
      var key := args[1];
      var isNumber := IsInteger(args[2]);
      if !isNumber {
        resp := RenderProblem(NotInteger);
        return;
      }
      var value := db.GetValue(key, now);
      if value.None? {
        return FormatInteger(0);
      }
      var expiryTime := FromTimeT(ParseInt(args[2]));
      if expiryTime <= later {
        var _ := db.DeleteKey(key);
        return FormatInteger(1);
      }
      db.SetValue(key, value.value.(expiry := expiryTime, hasExpiry := true));
      return FormatInteger(1);
    }

    method CmdTtl(args: seq<string>, now: int, later: int) returns (resp: string)
      modifies db
      ensures Yields(RunPlan(Ttl(args, later), old(db.database), now), db.database, resp)
    {
      hide Purge, Lookup, Wrap64;
      if |args| != 2 {
        resp := RenderProblem(WrongArgs(TTL));
        return;
      }
      var value := db.GetValue(args[1], now);
      if value.None? {
        return FormatInteger(-2);
      }
      if !value.value.hasExpiry {
        return FormatInteger(-1);
      }
      if later >= value.value.expiry {
        var _ := db.DeleteKey(args[1]);
        return FormatInteger(-2);
      }
      return FormatInteger(TruncDiv(Wrap64(value.value.expiry - later), NS_PER_SECOND));
    }

    method CmdPersist(args: seq<string>, now: int) returns (resp: string)
      modifies db
      ensures Yields(RunPlan(Persist(args), old(db.database), now), db.database, resp)
    {
      hide Purge, Lookup;
      if |args| != 2 {
        resp := RenderProblem(WrongArgs(PERSIST));
        return;
      }
      var key := args[1];
      var value := db.GetValue(key, now);
      if value.None? {
        return FormatInteger(0);
      }
      if !value.value.hasExpiry {
        return FormatInteger(0);
      }
      db.SetValue(key, value.value.ClearExpiry());
      return FormatInteger(1);
    }
  }
}
