/** The shape shared by every command on one key: it is either refused before the database is
    looked at, or it reads the entry of its key (which erases an expired one), and from what it
    sees decides a reply and what becomes of that entry. */
module CommandPlan {
  import opened Text
  import opened RedisValue
  import opened RedisDatabase
  import opened Replies

  datatype Effect = Keep | Put(value: RedisValue) | Remove

  datatype Action = Action(reply: Reply, effect: Effect)

  datatype Plan = Refuse(problem: Problem) | Touch(key: string, act: Option<RedisValue> -> Action)

  datatype Outcome = Outcome(db: Db, reply: Reply)

  function Apply(d: Db, key: string, effect: Effect): Db {
    match effect
    case Keep => d
    case Put(v) => d[key := v]
    case Remove => d - {key}
  }

  function RunPlan(p: Plan, d: Db, now: int): Outcome {
    match p
    case Refuse(problem) => Outcome(d, Failure(problem))
    case Touch(key, act) =>
      var a := act(Lookup(d, key, now));
      Outcome(Apply(Purge(d, key, now), key, a.effect), a.reply)
  }

  /** The database became, and the bytes sent render, what the outcome says. */
  ghost predicate Yields(o: Outcome, d: Db, resp: string) {
    d == o.db && Renders(o.reply, resp)
  }

  function Say(reply: Reply): Action {
    Action(reply, Keep)
  }

  /** The entry, when there is one of the given type. */
  function Holding(cur: Option<RedisValue>, kind: RedisType): Option<RedisValue> {
    if cur.Some? && cur.value.kind == kind then cur else None
  }

  ghost predicate DifferAt(d: Db, d': Db, key: string) {
    d - {key} == d' - {key}
  }

  lemma PutWhereTheyDiffer(d: Db, d': Db, key: string, v: RedisValue)
    requires DifferAt(d, d', key)
    ensures d[key := v] == d'[key := v]
  {
    forall k | k in d && k != key ensures k in d' && d[k] == d'[k] {
      assert k in d - {key} && (d - {key})[k] == d[k];
    }
    forall k | k in d' && k != key ensures k in d {
      assert k in d' - {key};
    }
  }

  /** The opening shared by LPUSH, RPUSH, SADD and HSET: the entry of the key, created empty
      when there is none; None when the key holds another type. */
  method OpenEntry(db: RedisDatabase, key: string, kind: RedisType, now: int) returns (entry: Option<RedisValue>)
    modifies db
    ensures var cur := Lookup(old(db.database), key, now);
            && entry == (if cur.None? then Some(OfType(kind)) else if cur.value.kind == kind then cur else None)
            && (entry.None? ==> db.database == Purge(old(db.database), key, now))
    ensures DifferAt(db.database, Purge(old(db.database), key, now), key)
  {
    entry := db.GetValue(key, now);
    if entry.Some? && entry.value.kind != kind {
      return None;
    }
    if entry.None? {
      db.SetValue(key, OfType(kind));
      entry := db.GetValue(key, now);
    }
  }
}
