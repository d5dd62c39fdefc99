/** The key space of src/redis/database/redis_database.cpp. An entry past its expiry stays in
    the map until a read of its key or a sweep erases it. */
module RedisDatabase {
  import opened Text
  import opened RedisValue
  import opened GlobRegex

  type Db = map<string, RedisValue>

  /** The entries a client can see at time `now`. */
  function Live(d: Db, now: int): Db {
    map k | k in d && !d[k].IsExpired(now) :: d[k]
  }

  function Lookup(d: Db, key: string, now: int): Option<RedisValue> {
    if key in d && !d[key].IsExpired(now) then Some(d[key]) else None
  }

  /** An entry, unless it has expired by `t`. */
  function Unexpired(v: RedisValue, t: int): Option<RedisValue> {
    if v.IsExpired(t) then None else Some(v)
  }

  /** What reading a key does to the map: an expired entry is erased. */
  function Purge(d: Db, key: string, now: int): Db {
    if key in d && d[key].IsExpired(now) then d - {key} else d
  }

  function PurgeAll(d: Db, keys: set<string>, now: int): Db {
    map k | k in d && !(k in keys && d[k].IsExpired(now)) :: d[k]
  }

  /** The keys found by a search: the visible ones in the language of the expression. */
  function Found(d: Db, matches: string -> bool, now: int): set<string> {
    set k | k in d && !d[k].IsExpired(now) && matches(k)
  }

  datatype Search = Thrown(what: string) | Keys(keys: seq<string>)

  class RedisDatabase {
    var database: Db

    constructor ()
      ensures database == map[]
    {
      database := map[];
    }

    method KeyExists(key: string, now: int) returns (r: bool)
      modifies this
      ensures r == Lookup(old(database), key, now).Some?
      ensures database == Purge(old(database), key, now)
    {
      if key in database && !database[key].IsExpired(now) {
        return true;
      }
      if key in database && database[key].IsExpired(now) {
        database := database - {key};
      }
      return false;
    }

    /** The pointer that the source returns is the entry itself; a command that changes the
        entry through it stores the changed entry with SetValue. */
    method GetValue(key: string, now: int) returns (r: Option<RedisValue>)
      modifies this
      ensures r == Lookup(old(database), key, now)
      ensures database == Purge(old(database), key, now)
    {
      if key in database {
        if database[key].IsExpired(now) {
          database := database - {key};
          return None;
        }
        return Some(database[key]);
      }
      return None;
    }

    method SetValue(key: string, value: RedisValue)
      modifies this
      ensures database == old(database)[key := value]
    {
      database := database[key := value];
    }

    method DeleteKey(key: string) returns (erased: bool)
      modifies this
      ensures erased == (key in old(database))
      ensures database == old(database) - {key}
    {
      erased := key in database;
      database := database - {key};
    }

    method ClearDatabase()
      modifies this
      ensures database == map[]
    {
      database := map[];
    }

    method GetDatabaseSize() returns (n: nat)
      ensures n == |database|
    {
      n := |database|;
    }

    /** A sweep keeps exactly the visible entries. */
    method CleanupExpiredKeys(now: int)
      modifies this
      ensures database == Live(old(database), now)
    {
      var todo := database.Keys;
      while todo != {}
        invariant todo <= database.Keys
        invariant database == PurgeAll(old(database), old(database).Keys - todo, now)
        decreases todo
      {
        var k :| k in todo;
        todo := todo - {k};
        if database[k].IsExpired(now) {
          database := database - {k};
        }
      }
    }

    /** The visible keys in the language of the rewritten pattern, once each, in some order;
        or the exception of a regular expression that does not compile. */
    method GetMatchingKeys(pattern: string, now: int, engine: Engine) returns (r: Search)
      ensures match engine(Translate(pattern))
              case Throws(what) => r == Thrown(what)
              case Language(matches) => r.Keys? && multiset(r.keys) == multiset(Found(database, matches, now))
    {
      var regex := ToRegex(pattern);
      match engine(regex)
      case Throws(what) => return Thrown(what);
      case Language(matches) =>
        var found := SelectKeys(matches, now);
        return Keys(found);
    }

    /** The second loop of getMatchingKeys, over the entries of the map. */
    method SelectKeys(matches: string -> bool, now: int) returns (found: seq<string>)
      ensures multiset(found) == multiset(Found(database, matches, now))
    {
      ghost var all := Found(database, matches, now);
      FoundWhen(database, matches, now);
      hide Found;
      var todo := database.Keys;
      found := [];
      while todo != {}
        invariant todo <= database.Keys
        invariant multiset(found) == multiset(all - todo)
        decreases todo
      {
        var k :| k in todo;
        OneLess(all, todo, k);
        if !database[k].IsExpired(now) && matches(k) {
          found := found + [k];
        }
        todo := todo - {k};
      }
    }
  }

  lemma FoundWhen(d: Db, matches: string -> bool, now: int)
    ensures Found(d, matches, now) <= d.Keys
    ensures forall k :: k in d ==> (k in Found(d, matches, now) <==> !d[k].IsExpired(now) && matches(k))
  {
  }

  lemma OneLess(all: set<string>, todo: set<string>, k: string)
    requires k in todo
    ensures multiset(all - (todo - {k}))
         == if k in all then multiset(all - todo) + multiset{k} else multiset(all - todo)
  {
    if k in all {
      assert all - (todo - {k}) == (all - todo) + {k};
    } else {
      assert all - (todo - {k}) == all - todo;
    }
  }

  /** KEYS means the glob: for a pattern without backslash, and visible keys free of line
      terminators, the search returns exactly the visible keys that match the pattern. */
  lemma SearchIsGlob(d: Db, pattern: string, now: int, engine: Engine)
    requires Conforms(engine) && '\\' !in pattern
    requires forall k :: k in Live(d, now) ==> OneLine(k)
    ensures engine(Translate(pattern)).Language?
    ensures Found(d, engine(Translate(pattern)).matches, now) == set k | k in Live(d, now) && Glob.Matches(pattern, k)
  {
    TranslationParses(pattern);
    var text := Translate(pattern);
    assert Agrees(engine(text), ParseRegex(text).value);
    forall k | k in Live(d, now)
      ensures engine(text).matches(k) == Glob.Matches(pattern, k)
    {
      RegexMeansGlob(pattern, k);
    }
  }
}
