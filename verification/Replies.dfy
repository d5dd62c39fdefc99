/** What a command replies, and the bytes RESPFormatter makes of it. */
module Replies {
  import opened Text
  import opened Decimal
  import opened RespFormatter
  import opened StringOrder

  /** The commands registered by `initializeCommands`. */
  datatype Command =
    | SET | GET | DEL | EXISTS | TYPE | INCR | DECR | INCRBY | DECRBY | STRLEN | APPEND | MGET | MSET
    | LPUSH | RPUSH | LPOP | RPOP | LLEN | LRANGE | LINDEX | LSET
    | SADD | SREM | SISMEMBER | SCARD | SMEMBERS | SPOP
    | HSET | HGET | HDEL | HEXISTS | HLEN | HKEYS | HVALS | HGETALL
    | EXPIRE | EXPIREAT | TTL | PERSIST
    | PING | ECHO | INFO | FLUSHALL | KEYS | DBSIZE | TIME

  datatype Problem =
    | WrongArgs(command: Command)
    | NotInteger
    | WrongType
    | SyntaxError
    | NoSuchKey
    | IndexOutOfRange
    | EmptyCommand
    | UnknownCommand(name: string)
    | Exception(what: string)

  datatype Part = KeysOnly | ValuesOnly | Both

  /** Listings of the keys or of a hash come in the order of the container, which is left open;
      the members of a set come in ascending order. */
  datatype Reply =
    | Failure(problem: Problem)
    | Status(text: string)
    | Number(n: int)
    | Bulk(text: string)
    | Nil
    | Items(items: seq<string>)
    | Names(names: set<string>)
    | Members(members: set<string>)
    | Fields(hash: map<string, string>, part: Part)

  function LowerName(c: Command): string {
    match c
    case SET => "set"
    case GET => "get"
    case DEL => "del"
    case EXISTS => "exists"
    case TYPE => "type"
    case INCR => "incr"
    case DECR => "decr"
    case INCRBY => "incrby"
    case DECRBY => "decrby"
    case STRLEN => "strlen"
    case APPEND => "append"
    case MGET => "mget"
    case MSET => "mset"
    case LPUSH => "lpush"
    case RPUSH => "rpush"
    case LPOP => "lpop"
    case RPOP => "rpop"
    case LLEN => "llen"
    case LRANGE => "lrange"
    case LINDEX => "lindex"
    case LSET => "lset"
    case SADD => "sadd"
    case SREM => "srem"
    case SISMEMBER => "sismember"
    case SCARD => "scard"
    case SMEMBERS => "smembers"
    case SPOP => "spop"
    case HSET => "hset"
    case HGET => "hget"
    case HDEL => "hdel"
    case HEXISTS => "hexists"
    case HLEN => "hlen"
    case HKEYS => "hkeys"
    case HVALS => "hvals"
    case HGETALL => "hgetall"
    case EXPIRE => "expire"
    case EXPIREAT => "expireat"
    case TTL => "ttl"
    case PERSIST => "persist"
    case PING => "ping"
    case ECHO => "echo"
    case INFO => "info"
    case FLUSHALL => "flushall"
    case KEYS => "keys"
    case DBSIZE => "dbsize"
    case TIME => "time"
  }

  function Message(p: Problem): string {
    match p
    case WrongArgs(c) => "ERR wrong number of arguments for '" + LowerName(c) + "' command"
    case NotInteger => "ERR value is not an integer or out of range"
    case WrongType => "ERR Operation against a key" + " holding the wrong kind of value"
    case SyntaxError => "ERR syntax error"
    case NoSuchKey => "ERR no such key"
    case IndexOutOfRange => "ERR index out of range"
    case EmptyCommand => "ERR empty command"
    case UnknownCommand(name) => "ERR unknown command '" + name + "'"
    case Exception(what) => "ERR " + what
  }

  function EntryItems(k: string, hash: map<string, string>, part: Part): seq<string> {
    var v := if k in hash then hash[k] else "";
    match part
    case KeysOnly => [k]
    case ValuesOnly => [v]
    case Both => [k, v]
  }

  /** The items listed when the keys come in the given order. */
  function Listing(order: seq<string>, hash: map<string, string>, part: Part): seq<string> {
    if order == [] then []
    else Listing(order[..|order| - 1], hash, part) + EntryItems(order[|order| - 1], hash, part)
  }

  /** `resp` is a rendering of `r`, in some order of the container where order is open. */
  ghost predicate Renders(r: Reply, resp: string) {
    match r
    case Failure(p) => resp == FormatError(Message(p))
    case Status(t) => resp == FormatSimpleString(t)
    case Number(n) => resp == FormatInteger(n)
    case Bulk(t) => resp == FormatBulkString(t)
    case Nil => resp == FormatNull()
    case Items(items) => resp == FormatArray(items)
    case Names(names) => exists order :: multiset(order) == multiset(names) && resp == FormatArray(order)
    case Members(members) => exists order :: InOrder(order, members) && resp == FormatArray(order)
    case Fields(hash, part) =>
      exists order :: multiset(order) == multiset(hash.Keys) && resp == FormatArray(Listing(order, hash, part))
  }

  /** The bytes of a set listing are determined by the set. */
  lemma MembersInOneWay(members: set<string>, resp: string, resp': string)
    requires Renders(Members(members), resp) && Renders(Members(members), resp')
    ensures resp == resp'
  {
    hide FormatArray, Ascending;
    var a :| InOrder(a, members) && resp == FormatArray(a);
    var b :| InOrder(b, members) && resp' == FormatArray(b);
    OrderIsUnique(a, b);
  }

  lemma ItemsAreListed(items: seq<string>)
    ensures Renders(Items(items), FormatArray(items))
  {
  }

  method RenderProblem(p: Problem) returns (resp: string)
    ensures Renders(Failure(p), resp)
  {
    resp := FormatError(Message(p));
  }

  /** Iterating over a set yields each member once. */
  method Enumerate(names: set<string>) returns (order: seq<string>)
    ensures multiset(order) == multiset(names)
  {
    order := [];
    var todo := names;
    while todo != {}
      invariant todo <= names && multiset(order) == multiset(names - todo)
      decreases todo
    {
      var x :| x in todo;
      assert names - (todo - {x}) == (names - todo) + {x};
      order := order + [x];
      todo := todo - {x};
    }
  }

  /** The loops of HKEYS, HVALS and HGETALL over `hash_value`. */
  method ListFields(hash: map<string, string>, part: Part) returns (resp: string)
    ensures Renders(Fields(hash, part), resp)
  {
    var order := Enumerate(hash.Keys);
    var items: seq<string> := [];
    for i := 0 to |order|
      invariant items == Listing(order[..i], hash, part)
    {
      assert order[..i + 1][..i] == order[..i];
      items := items + EntryItems(order[i], hash, part);
    }
    assert order[..|order|] == order;
    resp := PrintArray(items);
  }

  method ListMembers(names: set<string>) returns (resp: string)
    ensures Renders(Members(names), resp)
  {
    var order := EnumerateInOrder(names);
    resp := PrintArray(order);
  }
}
