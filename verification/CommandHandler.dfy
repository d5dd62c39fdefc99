/** src/redis/command_handler.cpp: the command table, the sweep every 100 commands, dispatch. */
module CommandHandler {
  import opened Text
  import opened RedisDatabase
  import opened RedisValue
  import opened Replies
  import opened CommandPlan
  import opened GlobRegex
  import SC = StringCommands
  import LC = ListCommands
  import EC = SetCommands
  import HC = HashCommands
  import TC = TtlCommands
  import VC = ServerCommands

  /** What one command depends on besides the server: the clock, when it looks keys up and when
      it then works with an expiry, std::regex, and the random choice. */
  datatype Context = Context(now: int, later: int, engine: Engine, pick: string)

  datatype Server = Server(commands: map<string, Command>, total: nat, start: int, db: Db)

  datatype Answer = Answer(server: Server, reply: Reply)

  /** The commands that work on one key. */
  function KeyPlan(c: Command, args: seq<string>, ctx: Context): Option<Plan> {
    match c
    case GET => Some(SC.Get(args))
    case TYPE => Some(SC.Type(args))
    case INCR => Some(SC.Incr(args))
    case DECR => Some(SC.Decr(args))
    case INCRBY => Some(SC.IncrBy(args))
    case DECRBY => Some(SC.DecrBy(args))
    case STRLEN => Some(SC.Strlen(args))
    case APPEND => Some(SC.Append(args))
    case LPUSH => Some(LC.Lpush(args))
    case RPUSH => Some(LC.Rpush(args))
    case LPOP => Some(LC.Lpop(args))
    case RPOP => Some(LC.Rpop(args))
    case LLEN => Some(LC.Llen(args))
    case LRANGE => Some(LC.Lrange(args))
    case LINDEX => Some(LC.Lindex(args))
    case LSET => Some(LC.Lset(args))
    case SADD => Some(EC.Sadd(args))
    case SREM => Some(EC.Srem(args))
    case SISMEMBER => Some(EC.Sismember(args))
    case SCARD => Some(EC.Scard(args))
    case SMEMBERS => Some(EC.Smembers(args))
    case SPOP => Some(EC.Spop(args, ctx.pick))
    case HSET => Some(HC.Hset(args))
    case HGET => Some(HC.Hget(args))
    case HDEL => Some(HC.Hdel(args))
    case HEXISTS => Some(HC.Hexists(args))
    case HLEN => Some(HC.Hlen(args))
    case HKEYS => Some(HC.ListHash(HKEYS, args, KeysOnly))
    case HVALS => Some(HC.ListHash(HVALS, args, ValuesOnly))
    case HGETALL => Some(HC.ListHash(HGETALL, args, Both))
    case EXPIRE => Some(TC.Expire(args, ctx.later))
    case EXPIREAT => Some(TC.Expireat(args, ctx.later))
    case TTL => Some(TC.Ttl(args, ctx.later))
    case PERSIST => Some(TC.Persist(args))
    case _ => None
  }

  /** The other commands. */
  function Other(c: Command, args: seq<string>, st: Server, ctx: Context): Outcome {
    match c
    case SET => SC.Set(st.db, args, ctx.now, ctx.later)
    case DEL => SC.Del(st.db, args)
    case EXISTS => SC.Exists(st.db, args, ctx.now)
    case MGET => SC.Mget(st.db, args, ctx.now)
    case MSET => SC.Mset(st.db, args)
    case PING => Outcome(st.db, VC.Ping(args))
    case ECHO => Outcome(st.db, VC.Echo(args))
    case INFO => Outcome(st.db, VC.Info(|st.db|, st.start, st.total, ctx.now))
    case FLUSHALL => VC.Flushall(st.db, args)
    case KEYS => Outcome(st.db, VC.KeysReply(st.db, args, ctx.now, ctx.engine))
    case DBSIZE => VC.Dbsize(st.db, args, ctx.now)
    case _ => Outcome(st.db, VC.Time(args, ctx.now))
  }

  function Exec(c: Command, args: seq<string>, st: Server, ctx: Context): Outcome {
    match KeyPlan(c, args, ctx)
    case Some(p) => RunPlan(p, st.db, ctx.now)
    case None => Other(c, args, st, ctx)
  }

  /** The command that an argument vector names. */
  function CommandOf(commands: map<string, Command>, args: seq<string>): Option<Command> {
    if args != [] && ToUpper(args[0]) in commands then Some(commands[ToUpper(args[0])]) else None
  }

  /** The counter, and the sweep that every hundredth command starts with. */
  function Tick(st: Server, now: int): Server {
    st.(total := st.total + 1, db := if (st.total + 1) % 100 == 0 then Live(st.db, now) else st.db)
  }

  function Process(st: Server, args: seq<string>, ctx: Context): Answer {
    if args == [] then Answer(st, Failure(EmptyCommand))
    else
      var st1 := Tick(st, ctx.now);
      match CommandOf(st.commands, args)
      case None => Answer(st1, Failure(UnknownCommand(args[0])))
      case Some(c) =>
        var o := Exec(c, args, st1, ctx);
        Answer(st1.(db := o.db), o.reply)
  }

  /** The choice SPOP made is a member of the set it found, when there was one. */
  ghost predicate FairPick(c: Command, args: seq<string>, d: Db, now: int, pick: string) {
    c == SPOP && |args| == 2 ==>
      match Holding(Lookup(d, args[1], now), RedisType.SET)
      case None => true
      case Some(v) => v.members != {} ==> pick in v.members
  }

  /** The choice made by a command that a server was given. */
  ghost predicate FairAt(st: Server, args: seq<string>, ctx: Context) {
    CommandOf(st.commands, args).Some? ==>
      FairPick(CommandOf(st.commands, args).value, args, Tick(st, ctx.now).db, ctx.now, ctx.pick)
  }

  /** The table that `initializeCommands` fills, group by group. */
  function CommandTable(): map<string, Command> {
    StringTable() + ListTable() + SetTable() + HashTable() + ExpiryTable() + ServerTable()
  }

  function StringTable(): map<string, Command> {
    map["SET" := Command.SET, "GET" := GET, "DEL" := DEL, "EXISTS" := EXISTS, "TYPE" := TYPE,
        "INCR" := INCR, "DECR" := DECR, "INCRBY" := INCRBY, "DECRBY" := DECRBY, "STRLEN" := STRLEN,
        "APPEND" := APPEND, "MGET" := MGET, "MSET" := MSET]
  }

  function ListTable(): map<string, Command> {
    map["LPUSH" := LPUSH, "RPUSH" := RPUSH, "LPOP" := LPOP, "RPOP" := RPOP, "LLEN" := LLEN,
        "LRANGE" := LRANGE, "LINDEX" := LINDEX, "LSET" := LSET]
  }

  function SetTable(): map<string, Command> {
    map["SADD" := SADD, "SREM" := SREM, "SISMEMBER" := SISMEMBER, "SCARD" := SCARD, "SMEMBERS" := SMEMBERS,
        "SPOP" := SPOP]
  }

  function HashTable(): map<string, Command> {
    map["HSET" := HSET, "HGET" := HGET, "HDEL" := HDEL, "HEXISTS" := HEXISTS, "HLEN" := HLEN,
        "HKEYS" := HKEYS, "HVALS" := HVALS, "HGETALL" := HGETALL]
  }

  function ExpiryTable(): map<string, Command> {
    map["EXPIRE" := EXPIRE, "EXPIREAT" := EXPIREAT, "TTL" := TTL, "PERSIST" := PERSIST]
  }

  function ServerTable(): map<string, Command> {
    map["PING" := PING, "ECHO" := ECHO, "INFO" := INFO, "FLUSHALL" := FLUSHALL, "KEYS" := KEYS,
        "DBSIZE" := DBSIZE, "TIME" := TIME]
  }

  /** Which of the command groups a command belongs to. */
  datatype Group = Strings | Lists | Sets | Hashes | Expiries | Others

  function GroupOf(c: Command): Group {
    if c in {Command.SET, GET, DEL, EXISTS, TYPE, INCR, DECR, INCRBY, DECRBY, STRLEN, APPEND, MGET, MSET} then Strings
    else if c in {LPUSH, RPUSH, LPOP, RPOP, LLEN, LRANGE, LINDEX, LSET} then Lists
    else if c in {SADD, SREM, SISMEMBER, SCARD, SMEMBERS, SPOP} then Sets
    else if c in {HSET, HGET, HDEL, HEXISTS, HLEN, HKEYS, HVALS, HGETALL} then Hashes
    else if c in {EXPIRE, EXPIREAT, TTL, PERSIST} then Expiries
    else Others
  }

  class CommandHandler {
    const db: RedisDatabase
    const startTime: int
    var totalCommandsProcessed: nat
    var commands: map<string, Command>
    const stringCommands: SC.StringCommands
    const listCommands: LC.ListCommands
    const setCommands: EC.SetCommands
    const hashCommands: HC.HashCommands
    const ttlCommands: TC.TTLCommands
    const serverCommands: VC.ServerCommands

    /** All command groups work on the one database. */
    ghost predicate Valid() {
      && stringCommands.db == listCommands.db == setCommands.db == hashCommands.db == ttlCommands.db == db
      && serverCommands.db == db && serverCommands.startTime == startTime
    }

    ghost function State(): Server
      reads this, db
    {
      Server(commands, totalCommandsProcessed, startTime, db.database)
    }

    constructor (now: int)
      ensures Valid() && fresh(db) && State() == Server(CommandTable(), 0, now, map[])
    {
      var database := new RedisDatabase();
      db, startTime, totalCommandsProcessed := database, now, 0;
      commands := CommandTable();
      stringCommands := new SC.StringCommands(database);
      listCommands := new LC.ListCommands(database);
      setCommands := new EC.SetCommands(database);
      hashCommands := new HC.HashCommands(database);
      ttlCommands := new TC.TTLCommands(database);
      serverCommands := new VC.ServerCommands(database, now);
    }

    method ProcessCommand(args: seq<string>, now: int, later: int, engine: Engine)
      returns (resp: string, ghost pick: string)
      requires Valid()
      modifies this, db
      ensures Valid()
      ensures var a := Process(old(State()), args, Context(now, later, engine, pick));
              State() == a.server && Renders(a.reply, resp)
      ensures FairAt(old(State()), args, Context(now, later, engine, pick))
    {
      hide Exec, Renders, ToUpper, Live, FairPick;
      pick := "";
      if |args| == 0 {
        resp := RenderProblem(EmptyCommand);
        return;
      }
      totalCommandsProcessed := totalCommandsProcessed + 1;
      if totalCommandsProcessed % 100 == 0 {
        db.CleanupExpiredKeys(now);
      }
      var command := ToUpper(args[0]);
      if command !in commands {
        resp := RenderProblem(UnknownCommand(args[0]));
        return;
      }
      resp, pick := Dispatch(commands[command], args, now, later, engine);
    }

    /** The function objects of the command table, group by group. */
    method Dispatch(c: Command, args: seq<string>, now: int, later: int, engine: Engine)
      returns (resp: string, ghost pick: string)
      requires Valid()
      modifies db
      ensures Yields(Exec(c, args, old(State()), Context(now, later, engine, pick)), db.database, resp)
      ensures FairPick(c, args, old(db.database), now, pick)
    {
      hide Exec, Renders, Yields, Lookup;
      pick := "";
      match GroupOf(c)
      case Strings => resp := RunString(c, args, now, later, engine);
      case Lists => resp := RunList(c, args, now, later, engine);
      case Sets => resp, pick := RunSet(c, args, now, later, engine);
      case Hashes => resp := RunHash(c, args, now, later, engine);
      case Expiries => resp := RunExpiry(c, args, now, later, engine);
      case Others => resp := RunServer(c, args, now, later, engine);
    }

    method RunString(c: Command, args: seq<string>, now: int, later: int, engine: Engine)
      returns (resp: string)
      requires Valid() && GroupOf(c) == Strings
      modifies db
      ensures Yields(Exec(c, args, old(State()), Context(now, later, engine, "")), db.database, resp)
    {
      hide RunPlan, Renders, Lookup, SC.Set, SC.Get, SC.Del, SC.Exists, SC.Type, SC.Incr, SC.Decr, SC.IncrBy,
        SC.DecrBy, SC.Strlen, SC.Append, SC.Mget, SC.Mset;
      match c
      case SET => resp := stringCommands.CmdSet(args, now, later);
      case GET => resp := stringCommands.CmdGet(args, now);
      case DEL => resp := stringCommands.CmdDel(args);
      case EXISTS => resp := stringCommands.CmdExists(args, now);
      case TYPE => resp := stringCommands.CmdType(args, now);
      case INCR => resp := stringCommands.CmdIncr(args, now);
      case DECR => resp := stringCommands.CmdDecr(args, now);
      case INCRBY => resp := stringCommands.CmdIncrBy(args, now);
      case DECRBY => resp := stringCommands.CmdDecrBy(args, now);
      case STRLEN => resp := stringCommands.CmdStrlen(args, now);
      case APPEND => resp := stringCommands.CmdAppend(args, now);
      case MGET => resp := stringCommands.CmdMget(args, now);
      case MSET => resp := stringCommands.CmdMset(args);
    }

    method RunList(c: Command, args: seq<string>, now: int, later: int, engine: Engine)
      returns (resp: string)
      requires Valid() && GroupOf(c) == Lists
      modifies db
      ensures Yields(Exec(c, args, old(State()), Context(now, later, engine, "")), db.database, resp)
    {
      hide RunPlan, Renders, Lookup, LC.Lpush, LC.Rpush, LC.Lpop, LC.Rpop, LC.Llen, LC.Lrange, LC.Lindex,
        LC.Lset;
      match c
      case LPUSH => resp := listCommands.CmdLpush(args, now);
      case RPUSH => resp := listCommands.CmdRpush(args, now);
      case LPOP => resp := listCommands.CmdLpop(args, now);
      case RPOP => resp := listCommands.CmdRpop(args, now);
      case LLEN => resp := listCommands.CmdLlen(args, now);
      case LRANGE => resp := listCommands.CmdLrange(args, now);
      case LINDEX => resp := listCommands.CmdLindex(args, now);
      case LSET => resp := listCommands.CmdLset(args, now);
    }

    method RunSet(c: Command, args: seq<string>, now: int, later: int, engine: Engine)
      returns (resp: string, ghost pick: string)
      requires Valid() && GroupOf(c) == Sets
      modifies db
      ensures Yields(Exec(c, args, old(State()), Context(now, later, engine, pick)), db.database, resp)
      ensures FairPick(c, args, old(db.database), now, pick)
    {
      hide RunPlan, Renders, Lookup, EC.Sadd, EC.Srem, EC.Sismember, EC.Scard, EC.Smembers, EC.Spop;
      pick := "";
      match c
      case SADD => resp := setCommands.CmdSadd(args, now);
      case SREM => resp := setCommands.CmdSrem(args, now);
      case SPOP => resp, pick := setCommands.CmdSpop(args, now);
      case SISMEMBER => resp := setCommands.CmdSismember(args, now);
      case SCARD => resp := setCommands.CmdScard(args, now);
      case SMEMBERS => resp := setCommands.CmdSmembers(args, now);
    }

    method RunHash(c: Command, args: seq<string>, now: int, later: int, engine: Engine)
      returns (resp: string)
      requires Valid() && GroupOf(c) == Hashes
      modifies db
      ensures Yields(Exec(c, args, old(State()), Context(now, later, engine, "")), db.database, resp)
    {
      hide RunPlan, Renders, Lookup, HC.Hset, HC.Hget, HC.Hdel, HC.Hexists, HC.Hlen, HC.ListHash;
      match c
      case HSET => resp := hashCommands.CmdHset(args, now);
      case HGET => resp := hashCommands.CmdHget(args, now);
      case HDEL => resp := hashCommands.CmdHdel(args, now);
      case HEXISTS => resp := hashCommands.CmdHexists(args, now);
      case HLEN => resp := hashCommands.CmdHlen(args, now);
      case HKEYS => resp := hashCommands.CmdListHash(HKEYS, args, KeysOnly, now);
      case HVALS => resp := hashCommands.CmdListHash(HVALS, args, ValuesOnly, now);
      case HGETALL => resp := hashCommands.CmdListHash(HGETALL, args, Both, now);
    }

    method RunExpiry(c: Command, args: seq<string>, now: int, later: int, engine: Engine)
      returns (resp: string)
      requires Valid() && GroupOf(c) == Expiries
      modifies db
      ensures Yields(Exec(c, args, old(State()), Context(now, later, engine, "")), db.database, resp)
    {
      hide RunPlan, Renders, Lookup, TC.Expire, TC.Expireat, TC.Ttl, TC.Persist;
      match c
      case EXPIRE => resp := ttlCommands.CmdExpire(args, now, later);
      case EXPIREAT => resp := ttlCommands.CmdExpireat(args, now, later);
      case TTL => resp := ttlCommands.CmdTtl(args, now, later);
      case PERSIST => resp := ttlCommands.CmdPersist(args, now);
    }

    method RunServer(c: Command, args: seq<string>, now: int, later: int, engine: Engine)
      returns (resp: string)
      requires Valid() && GroupOf(c) == Others
      modifies db
      ensures Yields(Exec(c, args, old(State()), Context(now, later, engine, "")), db.database, resp)
    {
      hide RunPlan, Renders, Lookup, VC.Ping, VC.Echo, VC.Info, VC.Flushall, VC.KeysReply, VC.Dbsize, VC.Time;
      match c
      case FLUSHALL => resp := serverCommands.CmdFlushall(args);
      case DBSIZE => resp := serverCommands.CmdDbsize(args, now);
      case PING => resp := serverCommands.CmdPing(args);
      case ECHO => resp := serverCommands.CmdEcho(args);
      case INFO => resp := serverCommands.CmdInfo(totalCommandsProcessed, now);
      case KEYS => resp := serverCommands.CmdKeys(args, now, engine);
      case TIME => resp := serverCommands.CmdTime(args, now);
    }
  }
}
