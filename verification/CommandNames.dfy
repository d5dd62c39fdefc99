/** The names the server answers to, from its start and for good. */
module CommandNames {
  import opened Text
  import opened Replies
  import opened CommandHandler
  import opened Runs
  import CollectionRuns

  // ----- the table, group by group -----

  lemma Lengths()
    ensures |"SET"| == 3 && |"GET"| == 3 && |"DEL"| == 3 && |"EXISTS"| == 6 && |"TYPE"| == 4 && |"INCR"| == 4
    ensures |"DECR"| == 4 && |"INCRBY"| == 6 && |"DECRBY"| == 6 && |"STRLEN"| == 6 && |"APPEND"| == 6
    ensures |"MGET"| == 4 && |"MSET"| == 4 && |"LPUSH"| == 5 && |"RPUSH"| == 5 && |"LPOP"| == 4 && |"RPOP"| == 4
    ensures |"LLEN"| == 4 && |"LRANGE"| == 6 && |"LINDEX"| == 6 && |"LSET"| == 4 && |"SADD"| == 4
    ensures |"SREM"| == 4 && |"SISMEMBER"| == 9 && |"SCARD"| == 5 && |"SMEMBERS"| == 8 && |"SPOP"| == 4
    ensures |"HSET"| == 4 && |"HGET"| == 4 && |"HDEL"| == 4 && |"HEXISTS"| == 7 && |"HLEN"| == 4
    ensures |"HKEYS"| == 5 && |"HVALS"| == 5 && |"HGETALL"| == 7 && |"EXPIRE"| == 6 && |"EXPIREAT"| == 8
    ensures |"TTL"| == 3 && |"PERSIST"| == 7 && |"PING"| == 4 && |"ECHO"| == 4 && |"INFO"| == 4
    ensures |"FLUSHALL"| == 8 && |"KEYS"| == 4 && |"DBSIZE"| == 6 && |"TIME"| == 4
  {
  }

  lemma StringNames()
    ensures StringTable().Keys == {
              "SET", "GET", "DEL", "EXISTS", "TYPE", "INCR", "DECR", "INCRBY", "DECRBY", "STRLEN",
              "APPEND", "MGET", "MSET"
            }
  {
  }

  lemma ListNames()
    ensures ListTable().Keys == {
              "LPUSH", "RPUSH", "LPOP", "RPOP", "LLEN", "LRANGE", "LINDEX", "LSET"
            }
  {
  }

  lemma SetNames()
    ensures SetTable().Keys == {
              "SADD", "SREM", "SISMEMBER", "SCARD", "SMEMBERS", "SPOP"
            }
  {
  }

  lemma HashNames()
    ensures HashTable().Keys == {
              "HSET", "HGET", "HDEL", "HEXISTS", "HLEN", "HKEYS", "HVALS", "HGETALL"
            }
  {
  }

  lemma ExpiryNames()
    ensures ExpiryTable().Keys == {
              "EXPIRE", "EXPIREAT", "TTL", "PERSIST"
            }
  {
  }

  lemma ServerNames()
    ensures ServerTable().Keys == {
              "PING", "ECHO", "INFO", "FLUSHALL", "KEYS", "DBSIZE", "TIME"
            }
  {
  }

  lemma StringNotList()
    ensures StringTable().Keys !! ListTable().Keys
  {
    Lengths();
  }

  lemma StringNotSet()
    ensures StringTable().Keys !! SetTable().Keys
  {
    Lengths();
  }

  lemma StringNotHash()
    ensures StringTable().Keys !! HashTable().Keys
  {
    Lengths();
  }

  lemma StringNotExpiry()
    ensures StringTable().Keys !! ExpiryTable().Keys
  {
    Lengths();
  }

  lemma StringNotServer()
    ensures StringTable().Keys !! ServerTable().Keys
  {
    Lengths();
  }

  lemma ListNotSet()
    ensures ListTable().Keys !! SetTable().Keys
  {
    Lengths();
  }

  lemma ListNotHash()
    ensures ListTable().Keys !! HashTable().Keys
  {
    Lengths();
  }

  lemma ListNotExpiry()
    ensures ListTable().Keys !! ExpiryTable().Keys
  {
    Lengths();
  }

  lemma ListNotServer()
    ensures ListTable().Keys !! ServerTable().Keys
  {
    Lengths();
  }

  lemma SetNotHash()
    ensures SetTable().Keys !! HashTable().Keys
  {
    Lengths();
  }

  lemma SetNotExpiry()
    ensures SetTable().Keys !! ExpiryTable().Keys
  {
    Lengths();
  }

  lemma SetNotServer()
    ensures SetTable().Keys !! ServerTable().Keys
  {
    Lengths();
  }

  lemma HashNotExpiry()
    ensures HashTable().Keys !! ExpiryTable().Keys
  {
    Lengths();
  }

  lemma HashNotServer()
    ensures HashTable().Keys !! ServerTable().Keys
  {
    Lengths();
  }

  lemma ExpiryNotServer()
    ensures ExpiryTable().Keys !! ServerTable().Keys
  {
    Lengths();
  }

  /** No name is in two groups. */
  lemma GroupsApart()
    ensures StringTable().Keys !! ListTable().Keys && StringTable().Keys !! SetTable().Keys
    ensures StringTable().Keys !! HashTable().Keys && StringTable().Keys !! ExpiryTable().Keys
    ensures StringTable().Keys !! ServerTable().Keys
    ensures ListTable().Keys !! SetTable().Keys && ListTable().Keys !! HashTable().Keys
    ensures ListTable().Keys !! ExpiryTable().Keys && ListTable().Keys !! ServerTable().Keys
    ensures SetTable().Keys !! HashTable().Keys && SetTable().Keys !! ExpiryTable().Keys
    ensures SetTable().Keys !! ServerTable().Keys
    ensures HashTable().Keys !! ExpiryTable().Keys && HashTable().Keys !! ServerTable().Keys
    ensures ExpiryTable().Keys !! ServerTable().Keys
  {
    hide StringTable, ListTable, SetTable, HashTable, ExpiryTable, ServerTable;
    StringNotList();
    StringNotSet();
    StringNotHash();
    StringNotExpiry();
    StringNotServer();
    ListNotSet();
    ListNotHash();
    ListNotExpiry();
    ListNotServer();
    SetNotHash();
    SetNotExpiry();
    SetNotServer();
    HashNotExpiry();
    HashNotServer();
    ExpiryNotServer();
  }

  lemma StringRegistered(name: string)
    requires name in StringTable()
    ensures name in CommandTable() && CommandTable()[name] == StringTable()[name]
  {
    GroupsApart();
    hide StringTable, ListTable, SetTable, HashTable, ExpiryTable, ServerTable;
  }

  lemma ListRegistered(name: string)
    requires name in ListTable()
    ensures name in CommandTable() && CommandTable()[name] == ListTable()[name]
  {
    GroupsApart();
    hide StringTable, ListTable, SetTable, HashTable, ExpiryTable, ServerTable;
  }

  lemma SetRegistered(name: string)
    requires name in SetTable()
    ensures name in CommandTable() && CommandTable()[name] == SetTable()[name]
  {
    GroupsApart();
    hide StringTable, ListTable, SetTable, HashTable, ExpiryTable, ServerTable;
  }

  lemma HashRegistered(name: string)
    requires name in HashTable()
    ensures name in CommandTable() && CommandTable()[name] == HashTable()[name]
  {
    GroupsApart();
    hide StringTable, ListTable, SetTable, HashTable, ExpiryTable, ServerTable;
  }

  lemma ExpiryRegistered(name: string)
    requires name in ExpiryTable()
    ensures name in CommandTable() && CommandTable()[name] == ExpiryTable()[name]
  {
    GroupsApart();
    hide StringTable, ListTable, SetTable, HashTable, ExpiryTable, ServerTable;
  }

  lemma ServerRegistered(name: string)
    requires name in ServerTable()
    ensures name in CommandTable() && CommandTable()[name] == ServerTable()[name]
  {
    GroupsApart();
    hide StringTable, ListTable, SetTable, HashTable, ExpiryTable, ServerTable;
  }

  /** The table has the names of the six groups and no others. */
  lemma TableKeys()
    ensures CommandTable().Keys == StringTable().Keys + ListTable().Keys + SetTable().Keys + HashTable().Keys
                                   + ExpiryTable().Keys + ServerTable().Keys
  {
    hide StringTable, ListTable, SetTable, HashTable, ExpiryTable, ServerTable;
  }

  // ----- what each name stands for -----

  lemma StringAnswers()
    ensures "SET" in CommandTable() && CommandTable()["SET"] == Command.SET
    ensures "GET" in CommandTable() && CommandTable()["GET"] == GET
    ensures "DEL" in CommandTable() && CommandTable()["DEL"] == DEL
    ensures "EXISTS" in CommandTable() && CommandTable()["EXISTS"] == EXISTS
    ensures "TYPE" in CommandTable() && CommandTable()["TYPE"] == TYPE
    ensures "INCR" in CommandTable() && CommandTable()["INCR"] == INCR
    ensures "DECR" in CommandTable() && CommandTable()["DECR"] == DECR
    ensures "INCRBY" in CommandTable() && CommandTable()["INCRBY"] == INCRBY
    ensures "DECRBY" in CommandTable() && CommandTable()["DECRBY"] == DECRBY
    ensures "STRLEN" in CommandTable() && CommandTable()["STRLEN"] == STRLEN
    ensures "APPEND" in CommandTable() && CommandTable()["APPEND"] == APPEND
    ensures "MGET" in CommandTable() && CommandTable()["MGET"] == MGET
    ensures "MSET" in CommandTable() && CommandTable()["MSET"] == MSET
  {
    Lengths();
    hide CommandTable;
    StringRegistered("SET");
    StringRegistered("GET");
    StringRegistered("DEL");
    StringRegistered("EXISTS");
    StringRegistered("TYPE");
    StringRegistered("INCR");
    StringRegistered("DECR");
    StringRegistered("INCRBY");
    StringRegistered("DECRBY");
    StringRegistered("STRLEN");
    StringRegistered("APPEND");
    StringRegistered("MGET");
    StringRegistered("MSET");
  }

  lemma ListAnswers()
    ensures "LPUSH" in CommandTable() && CommandTable()["LPUSH"] == LPUSH
    ensures "RPUSH" in CommandTable() && CommandTable()["RPUSH"] == RPUSH
    ensures "LPOP" in CommandTable() && CommandTable()["LPOP"] == LPOP
    ensures "RPOP" in CommandTable() && CommandTable()["RPOP"] == RPOP
    ensures "LLEN" in CommandTable() && CommandTable()["LLEN"] == LLEN
    ensures "LRANGE" in CommandTable() && CommandTable()["LRANGE"] == LRANGE
    ensures "LINDEX" in CommandTable() && CommandTable()["LINDEX"] == LINDEX
    ensures "LSET" in CommandTable() && CommandTable()["LSET"] == LSET
  {
    Lengths();
    hide CommandTable;
    ListRegistered("LPUSH");
    ListRegistered("RPUSH");
    ListRegistered("LPOP");
    ListRegistered("RPOP");
    ListRegistered("LLEN");
    ListRegistered("LRANGE");
    ListRegistered("LINDEX");
    ListRegistered("LSET");
  }

  lemma SetAnswers()
    ensures "SADD" in CommandTable() && CommandTable()["SADD"] == SADD
    ensures "SREM" in CommandTable() && CommandTable()["SREM"] == SREM
    ensures "SISMEMBER" in CommandTable() && CommandTable()["SISMEMBER"] == SISMEMBER
    ensures "SCARD" in CommandTable() && CommandTable()["SCARD"] == SCARD
    ensures "SMEMBERS" in CommandTable() && CommandTable()["SMEMBERS"] == SMEMBERS
    ensures "SPOP" in CommandTable() && CommandTable()["SPOP"] == SPOP
  {
    Lengths();
    hide CommandTable;
    SetRegistered("SADD");
    SetRegistered("SREM");
    SetRegistered("SISMEMBER");
    SetRegistered("SCARD");
    SetRegistered("SMEMBERS");
    SetRegistered("SPOP");
  }

  lemma HashAnswers()
    ensures "HSET" in CommandTable() && CommandTable()["HSET"] == HSET
    ensures "HGET" in CommandTable() && CommandTable()["HGET"] == HGET
    ensures "HDEL" in CommandTable() && CommandTable()["HDEL"] == HDEL
    ensures "HEXISTS" in CommandTable() && CommandTable()["HEXISTS"] == HEXISTS
    ensures "HLEN" in CommandTable() && CommandTable()["HLEN"] == HLEN
    ensures "HKEYS" in CommandTable() && CommandTable()["HKEYS"] == HKEYS
    ensures "HVALS" in CommandTable() && CommandTable()["HVALS"] == HVALS
    ensures "HGETALL" in CommandTable() && CommandTable()["HGETALL"] == HGETALL
  {
    Lengths();
    hide CommandTable;
    HashRegistered("HSET");
    HashRegistered("HGET");
    HashRegistered("HDEL");
    HashRegistered("HEXISTS");
    HashRegistered("HLEN");
    HashRegistered("HKEYS");
    HashRegistered("HVALS");
    HashRegistered("HGETALL");
  }

  lemma ExpiryAnswers()
    ensures "EXPIRE" in CommandTable() && CommandTable()["EXPIRE"] == EXPIRE
    ensures "EXPIREAT" in CommandTable() && CommandTable()["EXPIREAT"] == EXPIREAT
    ensures "TTL" in CommandTable() && CommandTable()["TTL"] == TTL
    ensures "PERSIST" in CommandTable() && CommandTable()["PERSIST"] == PERSIST
  {
    Lengths();
    hide CommandTable;
    ExpiryRegistered("EXPIRE");
    ExpiryRegistered("EXPIREAT");
    ExpiryRegistered("TTL");
    ExpiryRegistered("PERSIST");
  }

  lemma ServerAnswers()
    ensures "PING" in CommandTable() && CommandTable()["PING"] == PING
    ensures "ECHO" in CommandTable() && CommandTable()["ECHO"] == ECHO
    ensures "INFO" in CommandTable() && CommandTable()["INFO"] == INFO
    ensures "FLUSHALL" in CommandTable() && CommandTable()["FLUSHALL"] == FLUSHALL
    ensures "KEYS" in CommandTable() && CommandTable()["KEYS"] == KEYS
    ensures "DBSIZE" in CommandTable() && CommandTable()["DBSIZE"] == DBSIZE
    ensures "TIME" in CommandTable() && CommandTable()["TIME"] == TIME
  {
    Lengths();
    hide CommandTable;
    ServerRegistered("PING");
    ServerRegistered("ECHO");
    ServerRegistered("INFO");
    ServerRegistered("FLUSHALL");
    ServerRegistered("KEYS");
    ServerRegistered("DBSIZE");
    ServerRegistered("TIME");
  }

  // ----- names as clients write them -----

  /** `s` spells a name of capital letters, in capital or small letters. */
  predicate Spells(s: string, name: string) {
    |s| == |name| && forall i :: 0 <= i < |s| ==> s[i] == name[i] || s[i] as int == name[i] as int + 32
  }

  predicate Capitals(name: string) {
    forall i :: 0 <= i < |name| ==> 'A' <= name[i] <= 'Z'
  }

  lemma UpperLetter(c: char, d: char)
    requires 'A' <= d <= 'Z'
    ensures Upper(c) == d <==> c == d || c as int == d as int + 32
  {
  }

  lemma UpperSpells(s: string, name: string)
    requires Capitals(name)
    ensures ToUpper(s) == name <==> Spells(s, name)
  {
    hide Upper;
    if |s| == |name| {
      forall i | 0 <= i < |s|
        ensures ToUpper(s)[i] == name[i] <==> s[i] == name[i] || s[i] as int == name[i] as int + 32
      {
        UpperLetter(s[i], name[i]);
      }
      if Spells(s, name) {
        assert forall i :: 0 <= i < |s| ==> ToUpper(s)[i] == name[i];
      }
    }
  }

  lemma StringCapitals(name: string)
    requires name in StringTable()
    ensures Capitals(name)
  {
  }

  lemma ListCapitals(name: string)
    requires name in ListTable()
    ensures Capitals(name)
  {
  }

  lemma SetCapitals(name: string)
    requires name in SetTable()
    ensures Capitals(name)
  {
  }

  lemma HashCapitals(name: string)
    requires name in HashTable()
    ensures Capitals(name)
  {
  }

  lemma ExpiryCapitals(name: string)
    requires name in ExpiryTable()
    ensures Capitals(name)
  {
  }

  lemma ServerCapitals(name: string)
    requires name in ServerTable()
    ensures Capitals(name)
  {
  }

  lemma AllCapitals(name: string)
    ensures name in CommandTable() ==> Capitals(name)
  {
    TableKeys();
    hide CommandTable, StringTable, ListTable, SetTable, HashTable, ExpiryTable, ServerTable, Capitals;
    if name in StringTable() {
      StringCapitals(name);
    } else if name in ListTable() {
      ListCapitals(name);
    } else if name in SetTable() {
      SetCapitals(name);
    } else if name in HashTable() {
      HashCapitals(name);
    } else if name in ExpiryTable() {
      ExpiryCapitals(name);
    } else if name in ServerTable() {
      ServerCapitals(name);
    }
  }

  // ----- names as error messages quote them -----

  predicate SmallLetters(name: string) {
    forall i :: 0 <= i < |name| ==> 'a' <= name[i] <= 'z'
  }

  /** The command's own name, in small letters. */
  predicate Quoted(c: Command) {
    && SmallLetters(LowerName(c))
    && ToUpper(LowerName(c)) in CommandTable() && CommandTable()[ToUpper(LowerName(c))] == c
  }

  lemma QuotedAs(c: Command, small: string, name: string)
    requires LowerName(c) == small && SmallLetters(small) && Spells(small, name)
    ensures name in CommandTable() && CommandTable()[name] == c ==> Quoted(c)
  {
    AllCapitals(name);
    if Capitals(name) {
      UpperSpells(small, name);
    }
    hide CommandTable, LowerName, ToUpper, Capitals, Spells, SmallLetters;
  }

  lemma StringsSpelt()
    ensures SmallLetters("set") && Spells("set", "SET")
    ensures SmallLetters("get") && Spells("get", "GET")
    ensures SmallLetters("del") && Spells("del", "DEL")
    ensures SmallLetters("exists") && Spells("exists", "EXISTS")
    ensures SmallLetters("type") && Spells("type", "TYPE")
  {
  }

  lemma StringsQuoted(c: Command)
    requires c in {Command.SET, GET, DEL, EXISTS, TYPE}
    ensures Quoted(c)
  {
    StringAnswers();
    StringsSpelt();
    hide CommandTable, Quoted, Spells, SmallLetters;
    match c
    case SET => QuotedAs(c, "set", "SET");
    case GET => QuotedAs(c, "get", "GET");
    case DEL => QuotedAs(c, "del", "DEL");
    case EXISTS => QuotedAs(c, "exists", "EXISTS");
    case TYPE => QuotedAs(c, "type", "TYPE");
  }

  lemma CountersSpelt()
    ensures SmallLetters("incr") && Spells("incr", "INCR")
    ensures SmallLetters("decr") && Spells("decr", "DECR")
    ensures SmallLetters("incrby") && Spells("incrby", "INCRBY")
    ensures SmallLetters("decrby") && Spells("decrby", "DECRBY")
  {
  }

  lemma CountersQuoted(c: Command)
    requires c in {INCR, DECR, INCRBY, DECRBY}
    ensures Quoted(c)
  {
    StringAnswers();
    CountersSpelt();
    hide CommandTable, Quoted, Spells, SmallLetters;
    match c
    case INCR => QuotedAs(c, "incr", "INCR");
    case DECR => QuotedAs(c, "decr", "DECR");
    case INCRBY => QuotedAs(c, "incrby", "INCRBY");
    case DECRBY => QuotedAs(c, "decrby", "DECRBY");
  }

  lemma TextsSpelt()
    ensures SmallLetters("strlen") && Spells("strlen", "STRLEN")
    ensures SmallLetters("append") && Spells("append", "APPEND")
    ensures SmallLetters("mget") && Spells("mget", "MGET")
    ensures SmallLetters("mset") && Spells("mset", "MSET")
  {
  }

  lemma TextsQuoted(c: Command)
    requires c in {STRLEN, APPEND, MGET, MSET}
    ensures Quoted(c)
  {
    StringAnswers();
    TextsSpelt();
    hide CommandTable, Quoted, Spells, SmallLetters;
    match c
    case STRLEN => QuotedAs(c, "strlen", "STRLEN");
    case APPEND => QuotedAs(c, "append", "APPEND");
    case MGET => QuotedAs(c, "mget", "MGET");
    case MSET => QuotedAs(c, "mset", "MSET");
  }

  lemma EndsSpelt()
    ensures SmallLetters("lpush") && Spells("lpush", "LPUSH")
    ensures SmallLetters("rpush") && Spells("rpush", "RPUSH")
    ensures SmallLetters("lpop") && Spells("lpop", "LPOP")
    ensures SmallLetters("rpop") && Spells("rpop", "RPOP")
  {
  }

  lemma EndsQuoted(c: Command)
    requires c in {LPUSH, RPUSH, LPOP, RPOP}
    ensures Quoted(c)
  {
    ListAnswers();
    EndsSpelt();
    hide CommandTable, Quoted, Spells, SmallLetters;
    match c
    case LPUSH => QuotedAs(c, "lpush", "LPUSH");
    case RPUSH => QuotedAs(c, "rpush", "RPUSH");
    case LPOP => QuotedAs(c, "lpop", "LPOP");
    case RPOP => QuotedAs(c, "rpop", "RPOP");
  }

  lemma PlacesSpelt()
    ensures SmallLetters("llen") && Spells("llen", "LLEN")
    ensures SmallLetters("lrange") && Spells("lrange", "LRANGE")
    ensures SmallLetters("lindex") && Spells("lindex", "LINDEX")
    ensures SmallLetters("lset") && Spells("lset", "LSET")
  {
  }

  lemma PlacesQuoted(c: Command)
    requires c in {LLEN, LRANGE, LINDEX, LSET}
    ensures Quoted(c)
  {
    ListAnswers();
    PlacesSpelt();
    hide CommandTable, Quoted, Spells, SmallLetters;
    match c
    case LLEN => QuotedAs(c, "llen", "LLEN");
    case LRANGE => QuotedAs(c, "lrange", "LRANGE");
    case LINDEX => QuotedAs(c, "lindex", "LINDEX");
    case LSET => QuotedAs(c, "lset", "LSET");
  }

  lemma MembersSpelt()
    ensures SmallLetters("sadd") && Spells("sadd", "SADD")
    ensures SmallLetters("srem") && Spells("srem", "SREM")
    ensures SmallLetters("spop") && Spells("spop", "SPOP")
  {
  }

  lemma MembersQuoted(c: Command)
    requires c in {SADD, SREM, SPOP}
    ensures Quoted(c)
  {
    SetAnswers();
    MembersSpelt();
    hide CommandTable, Quoted, Spells, SmallLetters;
    match c
    case SADD => QuotedAs(c, "sadd", "SADD");
    case SREM => QuotedAs(c, "srem", "SREM");
    case SPOP => QuotedAs(c, "spop", "SPOP");
  }

  lemma SetsSpelt()
    ensures SmallLetters("sismember") && Spells("sismember", "SISMEMBER")
    ensures SmallLetters("scard") && Spells("scard", "SCARD")
    ensures SmallLetters("smembers") && Spells("smembers", "SMEMBERS")
  {
  }

  lemma SetsQuoted(c: Command)
    requires c in {SISMEMBER, SCARD, SMEMBERS}
    ensures Quoted(c)
  {
    SetAnswers();
    SetsSpelt();
    hide CommandTable, Quoted, Spells, SmallLetters;
    match c
    case SISMEMBER => QuotedAs(c, "sismember", "SISMEMBER");
    case SCARD => QuotedAs(c, "scard", "SCARD");
    case SMEMBERS => QuotedAs(c, "smembers", "SMEMBERS");
  }

  lemma FieldsSpelt()
    ensures SmallLetters("hset") && Spells("hset", "HSET")
    ensures SmallLetters("hget") && Spells("hget", "HGET")
    ensures SmallLetters("hdel") && Spells("hdel", "HDEL")
    ensures SmallLetters("hexists") && Spells("hexists", "HEXISTS")
  {
  }

  lemma FieldsQuoted(c: Command)
    requires c in {HSET, HGET, HDEL, HEXISTS}
    ensures Quoted(c)
  {
    HashAnswers();
    FieldsSpelt();
    hide CommandTable, Quoted, Spells, SmallLetters;
    match c
    case HSET => QuotedAs(c, "hset", "HSET");
    case HGET => QuotedAs(c, "hget", "HGET");
    case HDEL => QuotedAs(c, "hdel", "HDEL");
    case HEXISTS => QuotedAs(c, "hexists", "HEXISTS");
  }

  lemma HashesSpelt()
    ensures SmallLetters("hlen") && Spells("hlen", "HLEN")
    ensures SmallLetters("hkeys") && Spells("hkeys", "HKEYS")
    ensures SmallLetters("hvals") && Spells("hvals", "HVALS")
    ensures SmallLetters("hgetall") && Spells("hgetall", "HGETALL")
  {
  }

  lemma HashesQuoted(c: Command)
    requires c in {HLEN, HKEYS, HVALS, HGETALL}
    ensures Quoted(c)
  {
    HashAnswers();
    HashesSpelt();
    hide CommandTable, Quoted, Spells, SmallLetters;
    match c
    case HLEN => QuotedAs(c, "hlen", "HLEN");
    case HKEYS => QuotedAs(c, "hkeys", "HKEYS");
    case HVALS => QuotedAs(c, "hvals", "HVALS");
    case HGETALL => QuotedAs(c, "hgetall", "HGETALL");
  }

  lemma ExpiriesSpelt()
    ensures SmallLetters("expire") && Spells("expire", "EXPIRE")
    ensures SmallLetters("expireat") && Spells("expireat", "EXPIREAT")
    ensures SmallLetters("ttl") && Spells("ttl", "TTL")
    ensures SmallLetters("persist") && Spells("persist", "PERSIST")
  {
  }

  lemma ExpiriesQuoted(c: Command)
    requires c in {EXPIRE, EXPIREAT, TTL, PERSIST}
    ensures Quoted(c)
  {
    ExpiryAnswers();
    ExpiriesSpelt();
    hide CommandTable, Quoted, Spells, SmallLetters;
    match c
    case EXPIRE => QuotedAs(c, "expire", "EXPIRE");
    case EXPIREAT => QuotedAs(c, "expireat", "EXPIREAT");
    case TTL => QuotedAs(c, "ttl", "TTL");
    case PERSIST => QuotedAs(c, "persist", "PERSIST");
  }

  lemma EchoesSpelt()
    ensures SmallLetters("ping") && Spells("ping", "PING")
    ensures SmallLetters("echo") && Spells("echo", "ECHO")
    ensures SmallLetters("info") && Spells("info", "INFO")
    ensures SmallLetters("time") && Spells("time", "TIME")
  {
  }

  lemma EchoesQuoted(c: Command)
    requires c in {PING, ECHO, INFO, TIME}
    ensures Quoted(c)
  {
    ServerAnswers();
    EchoesSpelt();
    hide CommandTable, Quoted, Spells, SmallLetters;
    match c
    case PING => QuotedAs(c, "ping", "PING");
    case ECHO => QuotedAs(c, "echo", "ECHO");
    case INFO => QuotedAs(c, "info", "INFO");
    case TIME => QuotedAs(c, "time", "TIME");
  }

  lemma ServersSpelt()
    ensures SmallLetters("flushall") && Spells("flushall", "FLUSHALL")
    ensures SmallLetters("keys") && Spells("keys", "KEYS")
    ensures SmallLetters("dbsize") && Spells("dbsize", "DBSIZE")
  {
  }

  lemma ServersQuoted(c: Command)
    requires c in {FLUSHALL, KEYS, DBSIZE}
    ensures Quoted(c)
  {
    ServerAnswers();
    ServersSpelt();
    hide CommandTable, Quoted, Spells, SmallLetters;
    match c
    case FLUSHALL => QuotedAs(c, "flushall", "FLUSHALL");
    case KEYS => QuotedAs(c, "keys", "KEYS");
    case DBSIZE => QuotedAs(c, "dbsize", "DBSIZE");
  }

  /** What an error about a command calls it is a name the server answers to, and with that command. */
  lemma NamesAreQuoted(c: Command)
    ensures Quoted(c)
  {
    hide Quoted;
    if c in {Command.SET, GET, DEL, EXISTS, TYPE} {
      StringsQuoted(c);
    } else if c in {INCR, DECR, INCRBY, DECRBY} {
      CountersQuoted(c);
    } else if c in {STRLEN, APPEND, MGET, MSET} {
      TextsQuoted(c);
    } else if c in {LPUSH, RPUSH, LPOP, RPOP} {
      EndsQuoted(c);
    } else if c in {LLEN, LRANGE, LINDEX, LSET} {
      PlacesQuoted(c);
    } else if c in {SADD, SREM, SPOP} {
      MembersQuoted(c);
    } else if c in {SISMEMBER, SCARD, SMEMBERS} {
      SetsQuoted(c);
    } else if c in {HSET, HGET, HDEL, HEXISTS} {
      FieldsQuoted(c);
    } else if c in {HLEN, HKEYS, HVALS, HGETALL} {
      HashesQuoted(c);
    } else if c in {EXPIRE, EXPIREAT, TTL, PERSIST} {
      ExpiriesQuoted(c);
    } else if c in {PING, ECHO, INFO, TIME} {
      EchoesQuoted(c);
    } else {
      ServersQuoted(c);
    }
  }

  // ----- the server from its start -----

  /** The server as it starts. */
  function NewServer(start: int): Server {
    Server(CommandTable(), 0, start, map[])
  }

  lemma TableStays(start: int, events: seq<Event>)
    ensures Final(NewServer(start), events).commands == CommandTable()
  {
    CollectionRuns.FinalKeepsTable(NewServer(start), events);
    hide Final, CommandTable;
  }

  /** At any point of a run of a new server, a vector whose first argument spells a name of the table
      is a command of that name. */
  lemma NamesAreAnswered(start: int, events: seq<Event>, args: seq<string>, name: string)
    requires args != [] && Spells(args[0], name)
    ensures name in CommandTable() ==>
              CommandOf(Final(NewServer(start), events).commands, args) == Some(CommandTable()[name])
  {
    TableStays(start, events);
    AllCapitals(name);
    if Capitals(name) {
      UpperSpells(args[0], name);
    }
    hide CommandTable, Final, NewServer, ToUpper, Spells, Capitals;
  }

  /** One that spells none of them is refused, and quoted as it was written. */
  lemma OtherNamesAreUnknown(start: int, events: seq<Event>, args: seq<string>, ctx: Context, resp: string)
    requires args != [] && forall name :: name in CommandTable() ==> !Spells(args[0], name)
    requires Renders(Process(Final(NewServer(start), events), args, ctx).reply, resp)
    ensures resp == "-" + ("ERR unknown command '" + args[0] + "'") + "\r\n"
  {
    TableStays(start, events);
    if ToUpper(args[0]) in CommandTable() {
      AllCapitals(ToUpper(args[0]));
      UpperSpells(args[0], ToUpper(args[0]));
    }
    hide CommandTable, Final, NewServer, ToUpper, Spells, Capitals, Tick;
  }

  /** A vector without any argument is refused as well; it is not even counted. */
  lemma EmptyIsRefused(st: Server, ctx: Context, resp: string)
    requires Renders(Process(st, [], ctx).reply, resp)
    ensures resp == "-" + "ERR empty command" + "\r\n" && Process(st, [], ctx).server == st
  {
  }
}
