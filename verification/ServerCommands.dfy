/** src/redis/commands/server_commands.cpp. */
module ServerCommands {
  import opened Decimal
  import opened RedisDatabase
  import opened Replies
  import opened RespFormatter
  import opened CommandPlan
  import opened GlobRegex
  import opened TtlCommands

  function Ping(args: seq<string>): Reply {
    if |args| > 2 then Failure(WrongArgs(PING)) else if |args| == 2 then Bulk(args[1]) else Status("PONG")
  }

  function Echo(args: seq<string>): Reply {
    if |args| != 2 then Failure(WrongArgs(ECHO)) else Bulk(args[1])
  }

  /** The lines of the report before the one about keys. */
  function InfoHead(uptime: int, total: nat): string {
    "# Server\r\n" + "redis_version:7.0.0\r\n" + "uptime_in_seconds:" + ToString(uptime) + "\r\n" + "\r\n"
    + "# Stats\r\n" + "total_commands_processed:" + ToString(total) + "\r\n" + "\r\n" + "# Keyspace\r\n"
  }

  function Uptime(start: int, now: int): int {
    TruncDiv(Wrap64(now - start), NS_PER_SECOND)
  }

  /** The key count is that of the map, expired entries included. */
  function Info(stored: nat, start: int, total: nat, now: int): Reply {
    Bulk(InfoHead(Uptime(start, now), total) + "db0:keys=" + ToString(stored) + "\r\n")
  }

  /** Reports made at the same moment are equal exactly when they count the same number of keys. */
  lemma InfoTellsTheCount(stored: nat, stored': nat, start: int, total: nat, now: int)
    ensures Info(stored, start, total, now) == Info(stored', start, total, now) <==> stored == stored'
  {
    var head := InfoHead(Uptime(start, now), total) + "db0:keys=";
    hide InfoHead, Uptime, ToString;
    assert forall n: nat :: Info(n, start, total, now) == Bulk(head + ToString(n) + "\r\n");
    var t, t' := ToString(stored), ToString(stored');
    if head + t + "\r\n" == head + t' + "\r\n" {
      assert t == (head + t + "\r\n")[|head|..|head + t|];
      assert t' == (head + t' + "\r\n")[|head|..|head + t'|];
      ToStringReads(stored);
      ToStringReads(stored');
    }
  }

  function Flushall(d: Db, args: seq<string>): Outcome {
    if |args| > 2 then Outcome(d, Failure(WrongArgs(FLUSHALL))) else Outcome(map[], Status("OK"))
  }

  function KeysReply(d: Db, args: seq<string>, now: int, engine: Engine): Reply {
    if |args| != 2 then Failure(WrongArgs(KEYS))
    else
      match engine(Translate(args[1]))
      case Throws(what) => Failure(Exception(what))
      case Language(matches) => Names(Found(d, matches, now))
  }

  function Dbsize(d: Db, args: seq<string>, now: int): Outcome {
    if |args| != 1 then Outcome(d, Failure(WrongArgs(DBSIZE))) else Outcome(Live(d, now), Number(|Live(d, now)|))
  }

  /** Seconds, and microseconds within the second. */
  function Time(args: seq<string>, now: int): Reply {
    if |args| != 1 then Failure(WrongArgs(TIME))
    else
      Items([ToString(TruncDiv(now, NS_PER_SECOND)), ToString(TruncMod(TruncDiv(now, 1000), 1_000_000))])
  }

  lemma ClockParts(now: int)
    ensures var us := TruncMod(TruncDiv(now, 1000), 1_000_000);
            && TruncDiv(now, NS_PER_SECOND) * 1_000_000 + us == TruncDiv(now, 1000)
            && -1_000_000 < us < 1_000_000 && (0 <= now ==> 0 <= us)
  {
    var n := if now >= 0 then now else -now;
    assert n / NS_PER_SECOND == n / 1000 / 1_000_000;
  }

  /** The two numbers TIME prints are read back as numbers that make up the clock, to the
      microsecond; the second is the part within one second. */
  lemma TimeRecomposes(args: seq<string>, now: int)
    requires |args| == 1 && InInt64(now)
    ensures var items := Time(args, now).items;
            && |items| == 2
            && ParseInt(items[0]) * 1_000_000 + ParseInt(items[1]) == TruncDiv(now, 1000)
            && -1_000_000 < ParseInt(items[1]) < 1_000_000
            && (0 <= now ==> 0 <= ParseInt(items[1]))
  {
    var s, us := TruncDiv(now, NS_PER_SECOND), TruncMod(TruncDiv(now, 1000), 1_000_000);
    ClockParts(now);
    assert InInt64(s) && InInt64(us);
    hide ToString, ParseInt, TruncDiv, TruncMod;
    ToStringRoundTrip(s);
    ToStringRoundTrip(us);
  }

  class ServerCommands {
    const db: RedisDatabase
    const startTime: int

    constructor (database: RedisDatabase, serverStartTime: int)
      ensures db == database && startTime == serverStartTime
    {
      db, startTime := database, serverStartTime;
    }

    method CmdPing(args: seq<string>) returns (resp: string)
      ensures Renders(Ping(args), resp)
    {
      if |args| > 2 {
        resp := RenderProblem(WrongArgs(PING));
        return;
      }
      if |args| == 2 {
        return FormatBulkString(args[1]);
      }
      return FormatSimpleString("PONG");
    }

    method CmdEcho(args: seq<string>) returns (resp: string)
      ensures Renders(Echo(args), resp)
    {
      if |args| != 2 {
        resp := RenderProblem(WrongArgs(ECHO));
        return;
      }
      return FormatBulkString(args[1]);
    }

    method CmdInfo(total: nat, now: int) returns (resp: string)
      ensures Renders(Info(|db.database|, startTime, total, now), resp)
    {
      hide ToString;
      var uptime := TruncDiv(Wrap64(now - startTime), NS_PER_SECOND);
      var info := "# Server\r\n";
      info := info + "redis_version:7.0.0\r\n";
      info := info + "uptime_in_seconds:" + ToString(uptime) + "\r\n";
      info := info + "\r\n";
      info := info + "# Stats\r\n";
      info := info + "total_commands_processed:" + ToString(total) + "\r\n";
      info := info + "\r\n";
      info := info + "# Keyspace\r\n";
      assert info == InfoHead(uptime, total);
      var keys := db.GetDatabaseSize();
      info := info + "db0:keys=" + ToString(keys) + "\r\n";
      return FormatBulkString(info);
    }

    method CmdFlushall(args: seq<string>) returns (resp: string)
      modifies db
      ensures Yields(Flushall(old(db.database), args), db.database, resp)
    {
      if |args| > 2 {
        resp := RenderProblem(WrongArgs(FLUSHALL));
        return;
      }
      db.ClearDatabase();
      return FormatSimpleString("OK");
    }

    /** The exception of a pattern that does not compile reaches the handler of processCommand. */
    method CmdKeys(args: seq<string>, now: int, engine: Engine) returns (resp: string)
      ensures Renders(KeysReply(db.database, args, now, engine), resp)
    {
      if |args| != 2 {
        resp := RenderProblem(WrongArgs(KEYS));
        return;
      }
      var found := db.GetMatchingKeys(args[1], now, engine);
      match found
      case Thrown(what) => resp := RenderProblem(Exception(what));
      case Keys(keys) => resp := PrintArray(keys);
    }

    method CmdDbsize(args: seq<string>, now: int) returns (resp: string)
      modifies db
      ensures Yields(Dbsize(old(db.database), args, now), db.database, resp)
    {
      if |args| != 1 {
        resp := RenderProblem(WrongArgs(DBSIZE));
        return;
      }
      db.CleanupExpiredKeys(now);
      var size := db.GetDatabaseSize();
      return FormatInteger(size);
    }

    method CmdTime(args: seq<string>, now: int) returns (resp: string)
      ensures Renders(Time(args, now), resp)
    {
      if |args| != 1 {
        resp := RenderProblem(WrongArgs(TIME));
        return;
      }
      var timeNow := TruncDiv(now, NS_PER_SECOND);
      var microseconds := TruncMod(TruncDiv(now, 1000), 1_000_000);
      var timeResult := [ToString(timeNow), ToString(microseconds)];
      resp := PrintArray(timeResult);
    }
  }
}
