/** src/redis/commands/hash_commands.cpp. */
module HashCommands {
  import opened Text
  import opened RedisValue
  import opened RedisDatabase
  import opened Replies
  import opened RespFormatter
  import opened CommandPlan
  import opened ArgumentSets

  /** The field/value pairs of HSET, args[2], args[3], ...: the last value of a field counts. */
  function FieldsIn(args: seq<string>): map<string, string> {
    if |args| < 4 then map[] else FieldsIn(args[..|args| - 2])[args[|args| - 2] := args[|args| - 1]]
  }

  function FieldNames(args: seq<string>): set<string> {
    ArgsFrom(args, 2)
  }

  function AllStored(before: map<string, string>, args: seq<string>): map<string, string> {
    before + FieldsIn(args)
  }

  /** How many different fields among the arguments were not there before. */
  function CountNew(before: map<string, string>, args: seq<string>): nat {
    |FieldsIn(args).Keys - before.Keys|
  }

  function PutFields(cur: Option<RedisValue>, args: seq<string>): Action {
    if cur.Some? && cur.value.kind != HASH then Say(Failure(WrongType))
    else
      var v := if cur.Some? then cur.value else OfType(HASH);
      Action(Number(CountNew(v.fields, args)), Put(v.(fields := AllStored(v.fields, args))))
  }

  function Hset(args: seq<string>): Plan {
    if |args| < 4 || |args| % 2 != 0 then Refuse(WrongArgs(HSET))
    else Touch(args[1], (cur: Option<RedisValue>) => PutFields(cur, args))
  }

  function FieldValue(cur: Option<RedisValue>, field: string): Reply {
    match Holding(cur, HASH)
    case None => Nil
    case Some(v) => if field in v.fields then Bulk(v.fields[field]) else Nil
  }

  function Hget(args: seq<string>): Plan {
    if |args| != 3 then Refuse(WrongArgs(HGET))
    else Touch(args[1], (cur: Option<RedisValue>) => Say(FieldValue(cur, args[2])))
  }

  function AllErased(before: map<string, string>, args: seq<string>): map<string, string> {
    before - FieldNames(args)
  }

  /** How many different fields among the arguments were there before. */
  function CountOld(before: map<string, string>, args: seq<string>): nat {
    |before.Keys * FieldNames(args)|
  }

  /** An emptied hash disappears with its key. */
  function RemoveFields(v: RedisValue, args: seq<string>): Action {
    var fields := AllErased(v.fields, args);
    Action(Number(CountOld(v.fields, args)), if fields == map[] then Remove else Put(v.(fields := fields)))
  }

  function Hdel(args: seq<string>): Plan {
    if |args| < 3 then Refuse(WrongArgs(HDEL))
    else Touch(args[1], (cur: Option<RedisValue>) =>
      match Holding(cur, HASH) case None => Say(Number(0)) case Some(v) => RemoveFields(v, args))
  }

  function Hexists(args: seq<string>): Plan {
    if |args| != 3 then Refuse(WrongArgs(HEXISTS))
    else Touch(args[1], (cur: Option<RedisValue>) =>
      match Holding(cur, HASH)
      case None => Say(Number(0))
      case Some(v) => Say(Number(if args[2] in v.fields then 1 else 0)))
  }

  function Hlen(args: seq<string>): Plan {
    if |args| != 2 then Refuse(WrongArgs(HLEN))
    else Touch(args[1], (cur: Option<RedisValue>) =>
      match Holding(cur, HASH) case None => Say(Number(0)) case Some(v) => Say(Number(|v.fields|)))
  }

  /** HKEYS, HVALS and HGETALL list different parts of the same hash. */
  function ListHash(c: Command, args: seq<string>, part: Part): Plan {
    if |args| != 2 then Refuse(WrongArgs(c))
    else Touch(args[1], (cur: Option<RedisValue>) =>
      match Holding(cur, HASH) case None => Say(Items([])) case Some(v) => Say(Fields(v.fields, part)))
  }

  lemma NothingStored(before: map<string, string>, args: seq<string>)
    requires |args| >= 2
    ensures AllStored(before, args[..2]) == before && CountNew(before, args[..2]) == 0
    ensures AllErased(before, args[..2]) == before && CountOld(before, args[..2]) == 0
  {
    NoArgsYet(args, 2);
    assert before.Keys * {} == {};
    assert before + map[] == before;
  }

  lemma StoreSnoc(before: map<string, string>, args: seq<string>, i: nat)
    requires 2 <= i && i + 1 < |args| && i % 2 == 0
    ensures AllStored(before, args[..i + 2]) == AllStored(before, args[..i])[args[i] := args[i + 1]]
    ensures CountNew(before, args[..i + 2])
         == CountNew(before, args[..i]) + if args[i] in AllStored(before, args[..i]) then 0 else 1
  {
    var b := args[..i + 2];
    assert b[..i] == args[..i];
    var given := FieldsIn(args[..i]);
    assert FieldsIn(b) == given[args[i] := args[i + 1]];
    hide FieldsIn;
    StoredSnoc(before, given, args[i], args[i + 1]);
    assert given[args[i] := args[i + 1]].Keys == given.Keys + {args[i]};
    NewSnoc(given.Keys, args[i], before.Keys);
  }

  lemma StoredSnoc(before: map<string, string>, given: map<string, string>, k: string, v: string)
    ensures before + given[k := v] == (before + given)[k := v]
  {
    var a, b := before + given[k := v], (before + given)[k := v];
    forall x ensures x in a <==> x in b {
    }
    forall x | x in a && x in b ensures a[x] == b[x] {
      if x == k {
      } else if x in given {
        assert a[x] == given[x];
      } else {
        assert a[x] == before[x];
      }
    }
    SameMap(a, b);
  }

  lemma SameMap(a: map<string, string>, b: map<string, string>)
    requires forall x :: x in a <==> x in b
    requires forall x | x in a && x in b :: a[x] == b[x]
    ensures a == b
  {
  }

  lemma EraseSnoc(before: map<string, string>, args: seq<string>, i: nat)
    requires 2 <= i < |args|
    ensures AllErased(before, args[..i + 1]) == AllErased(before, args[..i]) - {args[i]}
    ensures CountOld(before, args[..i + 1])
         == CountOld(before, args[..i]) + if args[i] in AllErased(before, args[..i]) then 1 else 0
  {
    ArgsFromSnoc(args, 2, i);
    var done, k := FieldNames(args[..i]), args[i];
    hide FieldNames;
    assert before - done - {k} == before - (done + {k});
    CommonSnoc(done, k, before.Keys);
  }

  class HashCommands {
    const db: RedisDatabase

    constructor (database: RedisDatabase)
      ensures db == database
    {
      db := database;
    }

    /** The loop of cmdHset, with its counter. */
    method StoreAll(before: map<string, string>, args: seq<string>)
      returns (fields: map<string, string>, added: nat)
      requires |args| >= 2 && |args| % 2 == 0
      ensures fields == AllStored(before, args) && added == CountNew(before, args)
    {
      hide AllStored, CountNew;
      NothingStored(before, args);
      fields, added := before, 0;
      var i := 2;
      while i < |args|
        invariant 2 <= i <= |args| && i % 2 == 0
        invariant fields == AllStored(before, args[..i]) && added == CountNew(before, args[..i])
      {
        StoreSnoc(before, args, i);
        if args[i] !in fields {
          added := added + 1;
        }
        fields := fields[args[i] := args[i + 1]];
        i := i + 2;
      }
      assert args[..|args|] == args;
    }

    /** The loop of cmdHdel, with its counter. */
    method EraseAll(before: map<string, string>, args: seq<string>)
      returns (fields: map<string, string>, deleted: nat)
      requires |args| >= 2
      ensures fields == AllErased(before, args) && deleted == CountOld(before, args)
    {
      hide AllErased, CountOld;
      NothingStored(before, args);
      fields, deleted := before, 0;
      for i := 2 to |args|
        invariant fields == AllErased(before, args[..i]) && deleted == CountOld(before, args[..i])
      {
        EraseSnoc(before, args, i);
        if args[i] in fields {
          deleted := deleted + 1;
        }
        fields := fields - {args[i]};
      }
      assert args[..|args|] == args;
    }

    method CmdHset(args: seq<string>, now: int) returns (resp: string)
      modifies db
      ensures Yields(RunPlan(Hset(args), old(db.database), now), db.database, resp)
    {
      hide Purge, Lookup, AllStored, CountNew;
      if |args| < 4 || |args| % 2 != 0 {
        resp := RenderProblem(WrongArgs(HSET));
        return;
      }
      var key := args[1];
      var value := OpenEntry(db, key, HASH, now);
      if value.None? {
        resp := RenderProblem(WrongType);
        return;
      }
      var fields, added := StoreAll(value.value.fields, args);
      var entry := value.value.(fields := fields);
      PutWhereTheyDiffer(db.database, Purge(old(db.database), key, now), key, entry);
      db.SetValue(key, entry);
      return FormatInteger(added);
    }

    method CmdHget(args: seq<string>, now: int) returns (resp: string)
      modifies db
      ensures Yields(RunPlan(Hget(args), old(db.database), now), db.database, resp)
    {
      hide Purge, Lookup;
      if |args| != 3 {
        resp := RenderProblem(WrongArgs(HGET));
        return;
      }
      var value := db.GetValue(args[1], now);
      if value.None? || value.value.kind != HASH {
        return FormatNull();
      }
      if args[2] !in value.value.fields {
        return FormatNull();
      }
      return FormatBulkString(value.value.fields[args[2]]);
    }

    method CmdHdel(args: seq<string>, now: int) returns (resp: string)
      modifies db
      ensures Yields(RunPlan(Hdel(args), old(db.database), now), db.database, resp)
    {
      hide Purge, Lookup, AllErased, CountOld;
      if |args| < 3 {
        resp := RenderProblem(WrongArgs(HDEL));
        return;
      }
      var key := args[1];
      var value := db.GetValue(key, now);
      if value.None? || value.value.kind != HASH {
        return FormatInteger(0);
      }
      var fields, deleted := EraseAll(value.value.fields, args);
      var entry := value.value.(fields := fields);
      if entry.fields == map[] {
        var _ := db.DeleteKey(key);
      } else {
        db.SetValue(key, entry);
      }
      return FormatInteger(deleted);
    }

    method CmdHexists(args: seq<string>, now: int) returns (resp: string)
      modifies db
      ensures Yields(RunPlan(Hexists(args), old(db.database), now), db.database, resp)
    {
      hide Purge, Lookup;
      if |args| != 3 {
        resp := RenderProblem(WrongArgs(HEXISTS));
        return;
      }
      var value := db.GetValue(args[1], now);
      if value.None? || value.value.kind != HASH {
        return FormatInteger(0);
      }
      return FormatInteger(if args[2] in value.value.fields then 1 else 0);
    }

    method CmdHlen(args: seq<string>, now: int) returns (resp: string)
      modifies db
      ensures Yields(RunPlan(Hlen(args), old(db.database), now), db.database, resp)
    {
      hide Purge, Lookup;
      if |args| != 2 {
        resp := RenderProblem(WrongArgs(HLEN));
        return;
      }
      var value := db.GetValue(args[1], now);
      if value.None? || value.value.kind != HASH {
        return FormatInteger(0);
      }
      return FormatInteger(|value.value.fields|);
    }

    /** The common body of cmdHkeys, cmdHvals and cmdHgetall. */
    method CmdListHash(c: Command, args: seq<string>, part: Part, now: int) returns (resp: string)
      modifies db
      ensures Yields(RunPlan(ListHash(c, args, part), old(db.database), now), db.database, resp)
    {
      hide Purge, Lookup, Renders;
      ItemsAreListed([]);
      if |args| != 2 {
        resp := RenderProblem(WrongArgs(c));
        return;
      }
      var value := db.GetValue(args[1], now);
      if value.None? || value.value.kind != HASH {
        resp := PrintArray([]);
        return;
      }
      resp := ListFields(value.value.fields, part);
    }
  }
}
