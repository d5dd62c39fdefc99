/** src/redis/commands/set_commands.cpp. */
module SetCommands {
  import opened Text
  import opened RedisValue
  import opened RedisDatabase
  import opened Replies
  import opened RespFormatter
  import opened CommandPlan
  import opened ArgumentSets

  /** The member arguments, without repetitions. */
  function MembersIn(args: seq<string>): set<string> {
    ArgsFrom(args, 2)
  }

  /** The reply counts the members that were not there before. */
  function AddMembers(cur: Option<RedisValue>, new_: set<string>): Action {
    if cur.Some? && cur.value.kind != RedisType.SET then Say(Failure(WrongType))
    else
      var v := if cur.Some? then cur.value else OfType(RedisType.SET);
      Action(Number(|new_ - v.members|), Put(v.(members := v.members + new_)))
  }

  function Sadd(args: seq<string>): Plan {
    if |args| < 3 then Refuse(WrongArgs(SADD))
    else Touch(args[1], (cur: Option<RedisValue>) => AddMembers(cur, MembersIn(args)))
  }

  /** What is left of a set; an emptied set disappears with its key. */
  function Left(v: RedisValue, members: set<string>): Effect {
    if members == {} then Remove else Put(v.(members := members))
  }

  function Srem(args: seq<string>): Plan {
    if |args| < 3 then Refuse(WrongArgs(SREM))
    else Touch(args[1], (cur: Option<RedisValue>) =>
      match Holding(cur, RedisType.SET)
      case None => Say(Number(0))
      case Some(v) => Action(Number(|v.members * MembersIn(args)|), Left(v, v.members - MembersIn(args))))
  }

  function Sismember(args: seq<string>): Plan {
    if |args| != 3 then Refuse(WrongArgs(SISMEMBER))
    else Touch(args[1], (cur: Option<RedisValue>) =>
      match Holding(cur, RedisType.SET)
      case None => Say(Number(0))
      case Some(v) => Say(Number(if args[2] in v.members then 1 else 0)))
  }

  function Scard(args: seq<string>): Plan {
    if |args| != 2 then Refuse(WrongArgs(SCARD))
    else Touch(args[1], (cur: Option<RedisValue>) =>
      match Holding(cur, RedisType.SET) case None => Say(Number(0)) case Some(v) => Say(Number(|v.members|)))
  }

  function Smembers(args: seq<string>): Plan {
    if |args| != 2 then Refuse(WrongArgs(SMEMBERS))
    else Touch(args[1], (cur: Option<RedisValue>) =>
      match Holding(cur, RedisType.SET) case None => Say(Items([])) case Some(v) => Say(Members(v.members)))
  }

  /** `pick` is the member the random generator chose; anything else stands for no choice. */
  function Spop(args: seq<string>, pick: string): Plan {
    if |args| != 2 then Refuse(WrongArgs(SPOP))
    else Touch(args[1], (cur: Option<RedisValue>) =>
      match Holding(cur, RedisType.SET)
      case None => Say(Nil)
      case Some(v) => if pick in v.members then Action(Bulk(pick), Left(v, v.members - {pick})) else Say(Nil))
  }

  class SetCommands {
    const db: RedisDatabase

    constructor (database: RedisDatabase)
      ensures db == database
    {
      db := database;
    }

    /** The insertion loop of cmdSadd, with its counter. */
    method InsertAll(before: set<string>, args: seq<string>) returns (members: set<string>, added: nat)
      requires |args| >= 2
      ensures members == before + MembersIn(args)
      ensures added == |MembersIn(args) - before|
    {
      members, added := before, 0;
      NoArgsYet(args, 2);
      hide ArgsFrom;
      for i := 2 to |args|
        invariant members == before + MembersIn(args[..i])
        invariant added == |MembersIn(args[..i]) - before|
      {
        ArgsFromSnoc(args, 2, i);
        NewSnoc(MembersIn(args[..i]), args[i], before);
        if args[i] !in members {
          added := added + 1;
        }
        members := members + {args[i]};
      }
      assert args[..|args|] == args;
    }

    /** The removal loop of cmdSrem, with its counter. */
    method EraseAll(before: set<string>, args: seq<string>) returns (members: set<string>, removed: nat)
      requires |args| >= 2
      ensures members == before - MembersIn(args)
      ensures removed == |before * MembersIn(args)|
    {
      members, removed := before, 0;
      NoArgsYet(args, 2);
      hide ArgsFrom;
      for i := 2 to |args|
        invariant members == before - MembersIn(args[..i])
        invariant removed == |before * MembersIn(args[..i])|
      {
        ArgsFromSnoc(args, 2, i);
        CommonSnoc(MembersIn(args[..i]), args[i], before);
        if args[i] in members {
          removed := removed + 1;
        }
        members := members - {args[i]};
      }
      assert args[..|args|] == args;
    }

    method CmdSadd(args: seq<string>, now: int) returns (resp: string)
      modifies db
      ensures Yields(RunPlan(Sadd(args), old(db.database), now), db.database, resp)
    {
      hide Purge, Lookup, MembersIn;
      if |args| < 3 {
        resp := RenderProblem(WrongArgs(SADD));
        return;
      }
      var key := args[1];
      var value := OpenEntry(db, key, RedisType.SET, now);
      if value.None? {
        resp := RenderProblem(WrongType);
        return;
      }
      var members, added := InsertAll(value.value.members, args);
      var entry := value.value.(members := members);
      PutWhereTheyDiffer(db.database, Purge(old(db.database), key, now), key, entry);
      db.SetValue(key, entry);
      return FormatInteger(added);
    }

    method CmdSrem(args: seq<string>, now: int) returns (resp: string)
      modifies db
      ensures Yields(RunPlan(Srem(args), old(db.database), now), db.database, resp)
    {
      hide Purge, Lookup, MembersIn;
      if |args| < 3 {
        resp := RenderProblem(WrongArgs(SREM));
        return;
      }
      var key := args[1];
      var value := db.GetValue(key, now);
      if value.None? || value.value.kind != RedisType.SET {
        return FormatInteger(0);
      }
      var members, removed := EraseAll(value.value.members, args);
      var entry := value.value.(members := members);
      if entry.members == {} {
        var _ := db.DeleteKey(key);
      } else {
        db.SetValue(key, entry);
      }
      return FormatInteger(removed);
    }

    method CmdSismember(args: seq<string>, now: int) returns (resp: string)
      modifies db
      ensures Yields(RunPlan(Sismember(args), old(db.database), now), db.database, resp)
    {
      hide Purge, Lookup, MembersIn;
      if |args| != 3 {
        resp := RenderProblem(WrongArgs(SISMEMBER));
        return;
      }
      var value := db.GetValue(args[1], now);
      if value.None? || value.value.kind != RedisType.SET {
        return FormatInteger(0);
      }
      return FormatInteger(if args[2] in value.value.members then 1 else 0);
    }

    method CmdScard(args: seq<string>, now: int) returns (resp: string)
      modifies db
      ensures Yields(RunPlan(Scard(args), old(db.database), now), db.database, resp)
    {
      hide Purge, Lookup, MembersIn;
      if |args| != 2 {
        resp := RenderProblem(WrongArgs(SCARD));
        return;
      }
      var value := db.GetValue(args[1], now);
      if value.None? || value.value.kind != RedisType.SET {
        return FormatInteger(0);
      }
      return FormatInteger(|value.value.members|);
    }

    method CmdSmembers(args: seq<string>, now: int) returns (resp: string)
      modifies db
      ensures Yields(RunPlan(Smembers(args), old(db.database), now), db.database, resp)
    {
      hide Purge, Lookup, MembersIn;
      if |args| != 2 {
        resp := RenderProblem(WrongArgs(SMEMBERS));
        return;
      }
      var value := db.GetValue(args[1], now);
      if value.None? || value.value.kind != RedisType.SET {
        resp := PrintArray([]);
        return;
      }
      resp := ListMembers(value.value.members);
    }

    /** The choice is arbitrary, and reported in `pick`. */
    method CmdSpop(args: seq<string>, now: int) returns (resp: string, ghost pick: string)
      modifies db
      ensures Yields(RunPlan(Spop(args, pick), old(db.database), now), db.database, resp)
      ensures |args| == 2 ==>
                match Holding(Lookup(old(db.database), args[1], now), RedisType.SET)
                case None => true
                case Some(v) => v.members != {} ==> pick in v.members
    {
      hide Purge, Lookup, MembersIn;
      pick := "";
      if |args| != 2 {
        resp := RenderProblem(WrongArgs(SPOP));
        return;
      }
      var key := args[1];
      var value := db.GetValue(key, now);
      if value.None? || value.value.kind != RedisType.SET || value.value.members == {} {
        resp := FormatNull();
        return;
      }
      var result :| result in value.value.members;
      pick := result;
      var entry := value.value.(members := value.value.members - {result});
      if entry.members == {} {
        var _ := db.DeleteKey(key);
      } else {
        db.SetValue(key, entry);
      }
      resp := FormatBulkString(result);
    }
  }
}
