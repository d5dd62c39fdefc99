# CppRedis in Dafny

A model of the CppRedis key-value server and proofs about it. `dafny verify dfyconfig.toml` checks
everything. Each file models one source file or states one group of theorems.

- **Wire layer.** `RespParser` is the recursive RESP2 parser with its position threaded through,
  proved against `Scan`, a three-valued reading (done, more bytes needed, rejected). `RespGrammar`
  defines the format (sections "Simple strings", "Simple errors", "Integers", "Bulk strings",
  "Arrays" and "Null bulk strings" of the Redis serialization protocol specification, with number
  texts as `std::stoll` reads them) without mentioning the parser, and proves that the parser
  accepts exactly that; `RespPrefixes` tells which beginnings of a stream can still be completed.
  `RespFormatter` is the printer, `ClientConnection` the loop that appends what a read returned,
  drains complete messages and sends the answers, `Decimal` the number texts.
- **Glob matchers.** `Glob` is the greedy `matchPattern`, `GlobRegex` the rewriting of a pattern
  into a regular expression. Both are compared with one recursive meaning, `Glob.Matches`.
- **Database and commands.** `RedisDatabase` is the map with lazily erased entries;
  `StringCommands`, `ListCommands`, `SetCommands`, `HashCommands`, `TtlCommands` and
  `ServerCommands` hold, for each command, a specification and the method proved against it;
  `CommandHandler` is the table, the sweep every 100 commands and dispatch. A command on one key is
  a `Plan`: refused at once, or a function from the visible entry to a reply and an effect.
  `ArgumentSets` counts different arguments. `Runs` are sequences of commands and sweeps.
  `LazyExpiry`, `DatabaseInvariants`, `CounterRuns`, `CollectionRuns` and `TtlRuns` prove what holds
  over runs.
- **What a client sees.** `ClientView` says what is visible under a key; `StringLaws`, `OptionLaws`,
  `ListLaws`, `MemberLaws`, `HashLaws`, `ServerLaws` and `TtlRuns` state what each command replies
  and changes in these terms, with literal constants and names, for the whole server function
  `Process`; `ArityLaws` says which calls are refused, `CommandNames` which names are answered.
  `ReplyTexts`, `ReplyFraming`, `ReplyLimits` and `ReplyMeanings` are about the bytes sent back and
  what a client decodes from them, `StringOrder` about the order of a `std::set`.
- **Connections.** `ConnectionManager` is a system of atomic steps in any interleaving.

A byte is a `char`; no statement depends on an upper bound. Time is a parameter in nanoseconds, the
tick of the system clock, and never runs backwards in a run. A command has two instants: keys are
looked up at the first and expiries worked out at the second, which may be later, so an entry may
expire while TTL is looking at it. 64-bit signed arithmetic is two's complement (`Wrap64`), which is
what compiled code does where the C++ standard leaves overflow undefined. `std::regex` is a
parameter that must agree with a denotational semantics on the fragment the rewriting emits, and is
arbitrary outside it. The random choice of SPOP and the iteration order of hash maps are left open.

## Where the code differs from its own description

- `matchPattern` compares literally before it looks for `*`, so a `*` in the key can consume a `*` of
  the pattern. It is right for all keys exactly for patterns without `*` and for `*` itself, and for
  all patterns exactly on keys without `*`.
- The pattern of KEYS is rewritten without escaping backslashes, and `.` does not match line
  terminators. Both failures are characterised exactly.
- LRANGE pulls both bounds into the list; `LrangeIsRedisSlice` says when that is the documented slice.
- DEL and INFO count entries that have expired but not been erased.
- A number text out of the 64-bit range passes `isInteger` and counts as 0. An EXPIRE that passes
  the end of the clock makes the key disappear at once, or, when it wraps around far enough, gives
  it some other deadline; `TtlRuns.ExpiresAtOnce` says which.
- A SET whose last argument is reached as an option is a syntax error, also for NX and XX, which
  take no value; an unknown option is skipped together with the argument after it.
- APPEND replaces an entry of another type, and APPEND and the counters drop an expiry.
- MGET prints an empty bulk string for a missing key although a comment there says null, so a
  missing key and an empty string look the same.
- The cleanup before adding a connection removes nothing, because a finished thread is still joinable:
  only 100 additions succeed between two stops.
- `MAX_BUFFER_SIZE` (src/server/tcp_server.h) is never used, and QUIT, which the repository's README
  lists, is not registered.

## Model

| member | source | states |
|---|---|---|
| Decimal.IsInteger | src/utils/utility_functions.cpp:4-18 | the loop accepts exactly an optional sign followed by at least one digit, of any length |
| Decimal.SafeInt64Exact | src/resp/resp_parser.cpp:226-236 | a text is accepted with value v exactly when it is blanks, an optional sign and digits spelling v, in the 64-bit range |
| Decimal.ParseIntExact | src/utils/utility_functions.cpp:20-26 | on text that passes isInteger, parseInt is the number if it fits in 64 bits and 0 otherwise |
| Decimal.ParseIntDropsLargeNumbers | src/utils/utility_functions.cpp:4-26 | every number above the 64-bit range passes isInteger and is then read as 0 |
| Decimal.ToStringReads | src/resp/resp_formatter.cpp:15-17 | the decimal text of any integer is integer text with that value |
| Decimal.ToStringRoundTrip | src/resp/resp_formatter.cpp:15-17 | to_string followed by stoll gives the number back exactly when it fits in 64 bits |
| RespValue.ToStringVector | src/resp/resp_parser.cpp:138-170 | nested arrays are flattened in order, null becomes an empty string, a number its decimal text |
| RespValue.ArgumentsOfBulks | src/resp/resp_parser.cpp:138-170 | an array of bulk strings becomes exactly the vector of their texts |
| RespValue.FormsAreAlike | src/resp/resp_parser.cpp:138-170 | anywhere in a message a number stands for its text, a line for a bulk string, a null for an empty one and an array for its elements |
| RespParser.ParseSimpleString | src/resp/resp_parser.cpp:34-44 | success, new position and value agree with reading a simple string at the front of the rest of the input |
| RespParser.ParseError | src/resp/resp_parser.cpp:47-57 | the same for an error line |
| RespParser.ParseInteger | src/resp/resp_parser.cpp:60-72 | the same for an integer |
| RespParser.ParseBulkString | src/resp/resp_parser.cpp:75-102 | the same for a bulk string or null, with the 1 MiB limit |
| RespParser.ParseArray | src/resp/resp_parser.cpp:105-117 | the same for an array or null, with the 1000 element limit |
| RespParser.ParseElements | src/resp/resp_parser.cpp:119-133 | the loop reads exactly the given number of values one after the other, or fails |
| RespParser.ParseValue | src/resp/resp_parser.cpp:17-31 | the recursive parser never leaves the input, terminates, and agrees with the specification from any position and depth |
| RespParser.Parse | src/resp/resp_parser.cpp:7-13 | parse succeeds exactly when a complete acceptable value stands at the front, and reports 0 consumed otherwise |
| RespGrammar.ParserExact | src/resp/resp_parser.cpp:7-134 | parse returns v and n exactly when the first n bytes are a frame for v in the RESP2 grammar with the limits on depth, elements and length |
| RespGrammar.FrameIsScanned | src/resp/resp_parser.cpp:17-134 | every frame of the grammar is accepted, with its value and its exact length, whatever follows |
| RespGrammar.ScannedIsFrame | src/resp/resp_parser.cpp:17-134 | whatever is consumed is a frame of the grammar for the value returned |
| RespGrammar.FramesArePrefixFree | src/resp/resp_parser.cpp:7-13 | no frame is a proper prefix of another, and a frame determines its value |
| RespGrammar.ScanExtends | src/resp/resp_parser.cpp:17-134 | acceptance and rejection at the front of a buffer are final: no further bytes change them |
| RespGrammar.ProperPrefixNeedsMore | src/resp/resp_parser.cpp:7-13 | every proper prefix of a frame is incomplete, neither accepted nor rejected |
| RespFormatter.PrintArray | src/resp/resp_formatter.cpp:19-25 | the loop prints the header and then every item in order |
| RespFormatter.SimpleStringRoundTrip | src/resp/resp_formatter.cpp:3-9 | a status or error line is read back, whatever follows, exactly when its text contains no CRLF, also when it ends in CR |
| RespFormatter.IntegerRoundTrip | src/resp/resp_formatter.cpp:15-17 | an integer is read back exactly when it fits in 64 bits |
| RespFormatter.NullRoundTrip | src/resp/resp_formatter.cpp:27-29 | null is read back as null |
| RespFormatter.BulkStringRoundTrip | src/resp/resp_formatter.cpp:11-13 | a bulk string is read back byte for byte exactly when it is at most 1 MiB |
| RespFormatter.LongBulkIsRejected | src/resp/resp_parser.cpp:92-93 | a printed bulk string over 1 MiB is never accepted, whatever follows and at any depth |
| RespFormatter.FramedArrayFits | src/resp/resp_formatter.cpp:19-25 | a printed argument vector that is a frame of any value has at most 1000 items of at most 1 MiB |
| RespFormatter.ArrayRoundTrip | src/resp/resp_formatter.cpp:19-25 | a printed argument vector is read back exactly when it has at most 1000 items of at most 1 MiB, and its arguments are the items |
| ClientConnection.Client.Receive | src/server/tcp_server.cpp:119-141 | one read: the messages completed by the chunk go to the command handler in order, what is sent renders its answers one by one, the rest stays in the buffer, and the drain loop terminates |
| ClientConnection.Client.HandleClient | src/server/tcp_server.cpp:110-144 | over all reads of any stream, the commands are those of draining the concatenated bytes once, the server ends where they lead it, and the bytes sent render their answers one by one |
| ClientConnection.DrainAppend | src/server/tcp_server.cpp:115-142 | draining early and continuing with the residue dispatches the same messages and leaves the same residue |
| ClientConnection.AfterReadsIsDrain | src/server/tcp_server.cpp:115-142 | any sequence of reads ends where one drain of all bytes ends |
| ClientConnection.ChunkingIsUnobservable | src/server/tcp_server.cpp:115-142 | two ways of cutting the same stream dispatch the same commands and leave the same bytes |
| ClientConnection.DrainIsTheFraming | src/server/tcp_server.cpp:121-141 | the loop finds the only way to read the stream as complete frames followed by a rest of which no prefix is a frame |
| ClientConnection.DrainConservesBytes | src/server/tcp_server.cpp:134-135 | consumed messages followed by the residue are the input |
| ClientConnection.PipelineIsDispatched | src/server/tcp_server.cpp:115-142 | a pipeline of printed commands within the limits is dispatched command by command, with nothing left over |
| ClientConnection.RejectedStaysRejected | src/resp/resp_parser.cpp:17-31 | after a rejected front, no later chunk makes the connection dispatch anything |
| RespPrefixes.ViableExactly | src/resp/resp_parser.cpp:17-134 | a beginning of a stream has an accepted continuation exactly when it is viable: its headers can still become numbers within the limits, what there is of each terminator is right, and the nesting leaves room |
| RespPrefixes.DeadConnectionsExactly | src/server/tcp_server.cpp:119-141 | a connection that waits for more bytes can dispatch again exactly when its buffer is viable; otherwise no chunks ever help |
| RespPrefixes.WaitingInVain | src/resp/resp_parser.cpp:94-102 | there are buffers for which the parser waits although no bytes can complete them |
| Glob.MatchPatternLoop | src/utils/utility_functions.cpp:34-61 | the loop terminates; true implies a glob match on every input; it is the glob meaning if the pattern or the key has no star or the pattern is a single star |
| Glob.PatternsCompose | src/utils/utility_functions.cpp:34-61 | the meaning of a pattern: two put together match what can be cut in two that they match |
| Glob.SymbolsMatch | src/utils/utility_functions.cpp:34-61 | a star matches everything, a question mark one character, any other symbol itself alone |
| Glob.MatchPatternIsSound | src/utils/utility_functions.cpp:34-61 | a reported match is a glob match, for all patterns and keys |
| Glob.MatchPatternIsComplete | src/utils/utility_functions.cpp:34-61 | no glob match is missed unless both the pattern, other than a single star, and the key contain a star |
| Glob.LastStarSuffices | src/utils/utility_functions.cpp:45-50 | the exchange argument: a match with the last star stopping anywhere gives one for the rest of the pattern after the segment consumed, so only the last star needs retrying |
| Glob.PatternsMatchedCorrectly | src/utils/utility_functions.cpp:42-47 | a pattern is matched correctly against every key exactly when it has no star or is a single star |
| Glob.KeysMatchedCorrectly | src/utils/utility_functions.cpp:42-47 | a key is matched correctly against every pattern exactly when it has no star |
| GlobRegex.ToRegex | src/redis/database/redis_database.cpp:63-77 | the loop emits the piece of every pattern character in order |
| GlobRegex.TranslationParses | src/redis/database/redis_database.cpp:63-79 | without backslashes the emitted text parses as intended: each star in it belongs to the dot emitted with it |
| GlobRegex.RegexMeansGlob | src/redis/database/redis_database.cpp:63-84 | for a pattern without backslash the expression matches a key free of line terminators exactly when the glob does |
| GlobRegex.RegexMeansGlobOnAllKeys | src/redis/database/redis_database.cpp:66-69 | on arbitrary keys it means the glob exactly when the pattern has no wildcard |
| GlobRegex.KeysFoundCorrectly | src/redis/database/redis_database.cpp:66-69 | a key is found correctly by every pattern without backslash exactly when it is free of line terminators |
| GlobRegex.BackslashIsNeverRight | src/redis/database/redis_database.cpp:70-76 | whenever the text of a one-line pattern is an expression of the fragment, it means the glob on one-line keys exactly when the pattern has no backslash |
| GlobRegex.PatternsTranslatedCorrectly | src/redis/database/redis_database.cpp:63-79 | whenever the text of a pattern is an expression of the fragment, it means the glob on all keys exactly when the pattern has neither a backslash nor a wildcard |
| GlobRegex.MatchersAgree | src/redis/database/redis_database.cpp:59-88 | both matchers agree on keys free of stars and line terminators |
| RedisDatabase.RedisDatabase.KeyExists | src/redis/database/redis_database.cpp:3-13 | true exactly for a visible key; an expired entry under it is erased and nothing else |
| RedisDatabase.RedisDatabase.GetValue | src/redis/database/redis_database.cpp:14-25 | the visible entry or none; an expired entry under the key is erased and nothing else |
| RedisDatabase.RedisDatabase.DeleteKey | src/redis/database/redis_database.cpp:32-35 | reports whether anything was stored, expired or not, and removes it |
| RedisDatabase.RedisDatabase.CleanupExpiredKeys | src/redis/database/redis_database.cpp:47-57 | a sweep leaves exactly the visible entries |
| RedisDatabase.RedisDatabase.GetMatchingKeys | src/redis/database/redis_database.cpp:59-88 | the visible keys that the expression matches, each once, or the exception of the expression |
| RedisDatabase.SearchIsGlob | src/redis/database/redis_database.cpp:59-88 | for a pattern without backslash over one-line visible keys the search finds exactly the visible keys the glob matches |
| StringCommands.StringCommands.CmdSet | src/redis/commands/string_commands.cpp:7-49 | for every argument vector, the reply and the stored entry are those the option list determines |
| StringCommands.StringCommands.ApplyOptions | src/redis/commands/string_commands.cpp:18-45 | the option loop terminates although NX and XX step back, reads no argument out of range, and refuses exactly as the option list says |
| StringCommands.SetSucceedsWhen | src/redis/commands/string_commands.cpp:18-48 | OK exactly when all options are well formed, NX found the key absent and XX found it present |
| StringCommands.SetEffect | src/redis/commands/string_commands.cpp:18-48 | a refused SET changes nothing visible now or later; an accepted one changes only its key |
| StringCommands.ExpiryOfTheLast | src/redis/commands/string_commands.cpp:24-33 | the stored expiry is that of the last EX or PX, and none without them |
| StringCommands.DanglingExactly | src/redis/commands/string_commands.cpp:18-21 | the option list ends in a syntax error exactly when its last argument is reached as an option |
| StringCommands.CompleteExactly | src/redis/commands/string_commands.cpp:18-45 | it is well formed exactly when it is empty, or its last argument but one is an option that takes the last as its value |
| StringCommands.TrailingOptionIsRefused | src/redis/commands/string_commands.cpp:19-21 | a SET of any length whose last argument is reached as an option, also NX or XX, is a syntax error, or null if an earlier condition failed |
| StringCommands.OneArgumentMoreFails | src/redis/commands/string_commands.cpp:19-21 | one more argument makes any well-formed SET fail |
| StringCommands.TrailingConditionIsLost | src/redis/commands/string_commands.cpp:34-43 | a SET that ends in NX or XX is well formed exactly when an unknown option takes it as its value |
| StringCommands.StringCommands.CmdGet | src/redis/commands/string_commands.cpp:51-64 | the text of a visible string, null otherwise |
| StringCommands.StringCommands.CmdDel | src/redis/commands/string_commands.cpp:66-79 | removes all given keys and counts the different ones that were stored, expired or not |
| StringCommands.StringCommands.CmdExists | src/redis/commands/string_commands.cpp:81-94 | counts the visible keys among the arguments, repetitions included, and erases only expired ones |
| StringCommands.StringCommands.CmdType | src/redis/commands/string_commands.cpp:96-116 | the name of the type of the visible entry |
| StringCommands.StringCommands.AddTo | src/redis/commands/string_commands.cpp:123-139 | the sum replaces the entry, or the entry is of the wrong type or no integer text and stays |
| StringCommands.StringCommands.CmdIncr | src/redis/commands/string_commands.cpp:118-140 | INCR adds 1 to the number stored under the key |
| StringCommands.StringCommands.CmdDecr | src/redis/commands/string_commands.cpp:142-164 | DECR subtracts 1 |
| StringCommands.StringCommands.CmdIncrBy | src/redis/commands/string_commands.cpp:166-192 | INCRBY adds its argument, checked before the key is read |
| StringCommands.StringCommands.CmdDecrBy | src/redis/commands/string_commands.cpp:194-220 | DECRBY subtracts its argument, checked before the key is read |
| StringCommands.StringCommands.CmdStrlen | src/redis/commands/string_commands.cpp:222-235 | the length of a visible string, 0 otherwise |
| StringCommands.StringCommands.CmdAppend | src/redis/commands/string_commands.cpp:237-256 | the old text, if any, followed by the argument, without expiry |
| StringCommands.StringCommands.CmdMget | src/redis/commands/string_commands.cpp:258-274 | one item for each key in order, empty where there is no visible string |
| StringCommands.StringCommands.CmdMset | src/redis/commands/string_commands.cpp:276-286 | all pairs are stored from left to right |
| CommandPlan.OpenEntry | src/redis/commands/list_commands.cpp:11-20 | the visible entry, or a new empty one of the type, or none on another type, with no other key touched |
| ListCommands.ListCommands.CmdLpush | src/redis/commands/list_commands.cpp:5-27 | the arguments are put in front one by one and the reply is the new length |
| ListCommands.ListCommands.CmdRpush | src/redis/commands/list_commands.cpp:29-51 | the arguments are put at the back in order and the reply is the new length |
| ListCommands.ListCommands.CmdLpop | src/redis/commands/list_commands.cpp:53-73 | the first element is replied and removed, the key with the last one |
| ListCommands.ListCommands.CmdRpop | src/redis/commands/list_commands.cpp:75-95 | the last element is replied and removed, the key with the last one |
| ListCommands.ListCommands.CmdLlen | src/redis/commands/list_commands.cpp:97-110 | the length of a visible list, 0 otherwise |
| ListCommands.ListCommands.Slice | src/redis/commands/list_commands.cpp:130-149 | the loop never steps outside the list, also when it is empty, and yields the contiguous slice of the clamped bounds |
| ListCommands.ListCommands.CmdLrange | src/redis/commands/list_commands.cpp:112-152 | that slice for a visible list, no items otherwise |
| ListCommands.LrangeIsRedisSlice | src/redis/commands/list_commands.cpp:133-149 | the slice is the one Redis documents exactly under a condition on the length and the two normalised bounds |
| ListCommands.LrangeInside | src/redis/commands/list_commands.cpp:133-149 | in particular if the start is before the end of the list and the end not before its start |
| ListCommands.ListCommands.CmdLindex | src/redis/commands/list_commands.cpp:154-183 | the element at the position the index denotes, null outside the list |
| ListCommands.ListCommands.CmdLset | src/redis/commands/list_commands.cpp:185-216 | only the element at that position changes, and an index outside the list is an error |
| ListCommands.SetThenIndex | src/redis/commands/list_commands.cpp:154-216 | LINDEX after LSET: the new element under every name of its position, the old one elsewhere |
| ListCommands.NegativeIndexAliases | src/redis/commands/list_commands.cpp:174-178 | index i and i - size read and write the same element |
| SetCommands.SetCommands.CmdSadd | src/redis/commands/set_commands.cpp:5-30 | the members become the union with the arguments |
| SetCommands.SetCommands.InsertAll | src/redis/commands/set_commands.cpp:22-27 | the counter is the number of different new members, despite repeated arguments |
| SetCommands.SetCommands.CmdSrem | src/redis/commands/set_commands.cpp:32-56 | the members lose the arguments, and the key goes with the last one |
| SetCommands.SetCommands.EraseAll | src/redis/commands/set_commands.cpp:44-49 | the counter is the number of different members removed |
| SetCommands.SetCommands.CmdSismember | src/redis/commands/set_commands.cpp:58-72 | 1 exactly for a member of a visible set |
| SetCommands.SetCommands.CmdScard | src/redis/commands/set_commands.cpp:74-87 | the number of members of a visible set, 0 otherwise |
| SetCommands.SetCommands.CmdSmembers | src/redis/commands/set_commands.cpp:89-103 | every member once, in ascending order |
| Replies.MembersInOneWay | src/redis/commands/set_commands.cpp:101-102 | the order of a `std::set` leaves only one reply for a set |
| SetCommands.SetCommands.CmdSpop | src/redis/commands/set_commands.cpp:105-132 | some member is replied and removed, whichever is chosen, and the key goes with the last one |
| HashCommands.HashCommands.CmdHset | src/redis/commands/hash_commands.cpp:5-34 | the given pairs override the old fields, the last value of a field counting |
| HashCommands.HashCommands.StoreAll | src/redis/commands/hash_commands.cpp:22-31 | the counter is the number of different new fields, despite repeated arguments |
| HashCommands.HashCommands.CmdHget | src/redis/commands/hash_commands.cpp:36-55 | the value of the field in a visible hash, null otherwise |
| HashCommands.HashCommands.CmdHdel | src/redis/commands/hash_commands.cpp:57-81 | the given fields are gone, and the key goes with the last one |
| HashCommands.HashCommands.EraseAll | src/redis/commands/hash_commands.cpp:69-74 | the counter is the number of different fields removed |
| HashCommands.HashCommands.CmdHexists | src/redis/commands/hash_commands.cpp:83-97 | 1 exactly for a field of a visible hash |
| HashCommands.HashCommands.CmdHlen | src/redis/commands/hash_commands.cpp:99-112 | the number of fields of a visible hash, 0 otherwise |
| HashCommands.HashCommands.CmdListHash | src/redis/commands/hash_commands.cpp:114-173 | every field once in some order: names, values, or both |
| TtlCommands.TTLCommands.CmdExpire | src/redis/commands/ttl_commands.cpp:5-28 | a visible key gets the deadline, or is deleted if the seconds are not positive |
| TtlCommands.TTLCommands.CmdExpireat | src/redis/commands/ttl_commands.cpp:30-56 | a visible key gets the absolute deadline, or is deleted if that is past |
| TtlCommands.TTLCommands.CmdTtl | src/redis/commands/ttl_commands.cpp:58-82 | the whole seconds left, -1 without expiry, -2 for no visible key or for one that expires between the two tests, which is then erased |
| TtlCommands.TTLCommands.CmdPersist | src/redis/commands/ttl_commands.cpp:84-102 | the expiry of a visible key is cleared, and nothing else changes |
| ServerCommands.ServerCommands.CmdPing | src/redis/commands/server_commands.cpp:8-18 | PONG or the argument |
| ServerCommands.ServerCommands.CmdEcho | src/redis/commands/server_commands.cpp:20-26 | the argument |
| ServerCommands.InfoTellsTheCount | src/redis/commands/server_commands.cpp:28-44 | reports made at the same moment are equal exactly when they count the same number of stored entries |
| ServerCommands.ServerCommands.CmdFlushall | src/redis/commands/server_commands.cpp:46-53 | everything is removed |
| ServerCommands.ServerCommands.CmdKeys | src/redis/commands/server_commands.cpp:55-64 | the visible keys the pattern's expression matches, each once, in some order |
| ServerCommands.ServerCommands.CmdDbsize | src/redis/commands/server_commands.cpp:66-73 | expired entries are erased and the visible ones counted |
| ServerCommands.TimeRecomposes | src/redis/commands/server_commands.cpp:80-90 | the two numbers of TIME, read back from their texts, make up the clock to the microsecond, the second being the part within one second |
| Replies.ListFields | src/redis/commands/hash_commands.cpp:126-130 | the loop lists every field exactly once |
| CommandHandler.CommandHandler.constructor | src/redis/command_handler.cpp:3-12 | a new handler has an empty database, a zero counter and the full table |
| CommandNames.StringAnswers | src/redis/command_handler.cpp:16-28 | SET, GET, DEL, EXISTS, TYPE, INCR, DECR, INCRBY, DECRBY, STRLEN, APPEND, MGET, MSET, as literal names, stand for their commands |
| CommandNames.ListAnswers | src/redis/command_handler.cpp:31-38 | the same for the list commands |
| CommandNames.SetAnswers | src/redis/command_handler.cpp:41-46 | for the set commands |
| CommandNames.HashAnswers | src/redis/command_handler.cpp:49-56 | for the hash commands |
| CommandNames.ExpiryAnswers | src/redis/command_handler.cpp:59-62 | for EXPIRE, EXPIREAT, TTL and PERSIST |
| CommandNames.ServerAnswers | src/redis/command_handler.cpp:65-71 | for PING, ECHO, INFO, FLUSHALL, KEYS, DBSIZE and TIME |
| CommandNames.TableKeys | src/redis/command_handler.cpp:14-72 | the table has no other names |
| CommandNames.NamesAreAnswered | src/redis/command_handler.cpp:74-95 | at any point of a run of a new server, a first argument that spells a name of the table in capital or small letters is that command |
| CommandNames.OtherNamesAreUnknown | src/redis/command_handler.cpp:86-91 | one that spells none of them is refused with the unknown-command line, quoting it as it was written |
| CommandNames.EmptyIsRefused | src/redis/command_handler.cpp:75-77 | a vector without arguments is refused and does not count |
| CommandNames.NamesAreQuoted | src/redis/command_handler.cpp:14-72 | the name an error message gives a command is, in small letters, one the server answers to with that command |
| CommandHandler.CommandHandler.ProcessCommand | src/redis/command_handler.cpp:74-98 | counter, sweep, lookup of the upper-cased name, and the bytes sent, for every argument vector; SPOP really chose a member |
| CommandHandler.CommandHandler.Dispatch | src/redis/command_handler.cpp:14-72 | every command name reaches its own handler |
| ArityLaws.ArityExactly | src/redis/command_handler.cpp:74-98 | for each command, the numbers of arguments it takes; it complains about that number exactly for all others |
| ArityLaws.NumbersExpected | src/redis/commands/list_commands.cpp:117-120 | a command that asks for a number and gets none says so, and nothing a client sees changes |
| ServerLaws.EchoesMean | src/redis/commands/server_commands.cpp:8-26 | PING answers PONG or its argument, ECHO its argument |
| ServerLaws.InfoMeans | src/redis/commands/server_commands.cpp:28-44 | the literal report, with the seconds since the start, the commands so far and the stored keys |
| ServerLaws.FlushallMeans | src/redis/commands/server_commands.cpp:46-53 | afterwards nothing is seen under any key |
| ServerLaws.KeysMeans | src/redis/commands/server_commands.cpp:55-64 | for a pattern without backslash and visible keys on one line, exactly the visible keys that its argument matches as a glob, each once |
| ServerLaws.DbsizeMeans | src/redis/commands/server_commands.cpp:66-73 | the number of visible keys |
| ServerLaws.TimeMeans | src/redis/commands/server_commands.cpp:75-91 | the seconds of the clock and the microseconds of the current one, read back from their texts |
| ServerLaws.CommandsCounted | src/redis/command_handler.cpp:79-79 | over a run the counter rises by one for each command, known or not, and for no sweep |
| LazyExpiry.SweepsAreUnobservable | src/redis/command_handler.cpp:79-84 | for all runs, sweeping at any moments or never gives the same replies, except for DEL and INFO, and the same visible database |
| LazyExpiry.AlikeAfterCommand | src/redis/command_handler.cpp:74-98 | one command on two servers that look the same: same reply, except for DEL and INFO, and they still look the same |
| LazyExpiry.DelCountsVisibleKeys | src/redis/commands/string_commands.cpp:66-79 | DEL replies the number of visible keys removed exactly when no given key is stored but expired |
| LazyExpiry.InfoCountsVisibleKeys | src/redis/commands/server_commands.cpp:41-41 | INFO reports the number of visible keys exactly when nothing expired is stored |
| DatabaseInvariants.RunsKeepEntriesWellTyped | src/redis/commands/list_commands.cpp:17-72 | over any run every entry is a string or a non-empty list, set or hash, with the fields of the other types empty |
| DatabaseInvariants.ExecWellTyped | src/redis/commands/list_commands.cpp:17-72 | each command keeps that shape: removals delete emptied keys and creations store at least one element |
| DatabaseInvariants.ExecFrame | src/redis/database/redis_database.cpp:14-35 | a command leaves every key it does not write as it looks now and at any later time |
| DatabaseInvariants.QuietRunKeepsKey | src/redis/command_handler.cpp:74-98 | over a run that does not write a key only time changes what is seen under it |
| DatabaseInvariants.ExpiredStaysGone | src/redis/database/redis_value.h:27-29 | an expired key is not seen again until it is written |
| CounterRuns.CounterRun | src/redis/commands/string_commands.cpp:118-220 | in any run of counter commands on a key among others, with running sums in 64 bits, the replies are the running sums and the canonical decimal of the last is stored |
| CounterRuns.ReplyIsSum | src/redis/commands/string_commands.cpp:137-139 | one reply is the mathematical sum exactly when it fits in 64 bits |
| CollectionRuns.SizeIsTheBalance | src/redis/commands/set_commands.cpp:22-55 | over any interleaving of additions, removals and pops the final size is the initial size plus what the replies add up to |
| CollectionRuns.ConservationFromAbsent | src/redis/commands/set_commands.cpp:74-87 | for a key that was absent, SCARD, LLEN or HLEN replies exactly that sum, across deletion and re-creation |
| ListLaws.PushMeans | src/redis/commands/list_commands.cpp:5-51 | LPUSH puts the arguments reversed in front of what a client saw, RPUSH in order behind it; the reply is the new length, the expiry stays, another type is refused |
| ListLaws.PopMeans | src/redis/commands/list_commands.cpp:53-95 | LPOP takes the first element and RPOP the last; the rest stays, and the key goes with its last element |
| ListLaws.LlenMeans | src/redis/commands/list_commands.cpp:97-110 | the number of elements, 0 for a key without a list |
| ListLaws.LrangeMeans | src/redis/commands/list_commands.cpp:112-152 | the elements from the first bound to the second, both counted from the end when negative and pulled into the list |
| ListLaws.LindexMeans | src/redis/commands/list_commands.cpp:154-183 | the element at the index, counted from the end when negative, or null |
| ListLaws.LsetMeans | src/redis/commands/list_commands.cpp:185-216 | one element replaced and the others kept, or the index or missing key reported and nothing changed |
| ListLaws.PopAfterLpush | src/redis/commands/list_commands.cpp:5-95 | LPUSH, then a pop, of any list and any arguments: LPOP gets the last argument, RPOP the old last element or else the first argument |
| ListLaws.PopAfterRpush | src/redis/commands/list_commands.cpp:5-95 | RPUSH, then a pop: RPOP gets the last argument, LPOP the old first element or else the first argument |
| ListLaws.PopUndoesPush | src/redis/commands/list_commands.cpp:5-95 | a pop at the end where one element was just pushed replies it and restores what was seen, down to the absence of the key |
| ListLaws.QueueRun | src/redis/commands/list_commands.cpp:29-73 | first in, first out over any run whose only writers of a key are RPUSH and LPOP: what has been popped, followed by what is there, is what was there, followed by what has been pushed |
| MemberLaws.SaddMeans | src/redis/commands/set_commands.cpp:5-30 | the arguments become members, the reply counts those that were none, the expiry stays, another type is refused |
| MemberLaws.SremMeans | src/redis/commands/set_commands.cpp:32-56 | the arguments are members no longer, the reply counts those that were, and the key goes with the last member |
| MemberLaws.SpopMeans | src/redis/commands/set_commands.cpp:105-132 | the reply is a member, which is then gone and nothing else |
| MemberLaws.MembershipMeans | src/redis/commands/set_commands.cpp:58-87 | SISMEMBER replies 1 exactly for a member, SCARD how many there are |
| MemberLaws.SmembersMeans | src/redis/commands/set_commands.cpp:89-103 | exactly the members SISMEMBER knows, each once, in ascending order |
| MemberLaws.AddedAreMembers | src/redis/commands/set_commands.cpp:5-72 | SISMEMBER after SADD: 1 exactly for the old members and the arguments |
| MemberLaws.RemoveUndoesAdd | src/redis/commands/set_commands.cpp:5-56 | SREM of members just added replies the same number and restores the set or its absence |
| HashLaws.ListingMeans | src/redis/commands/hash_commands.cpp:114-173 | HKEYS lists every field once, HVALS the value of each, HGETALL each field with its value right behind it |
| HashLaws.ReadsMean | src/redis/commands/hash_commands.cpp:36-112 | HGET replies the value of the field or null, HEXISTS 1 exactly when HGET finds one, HLEN the number of fields |
| HashLaws.HsetMeans | src/redis/commands/hash_commands.cpp:5-34 | the given pairs override what was there, the last value of a field counting, all other fields keep theirs; the reply counts the new fields, the expiry stays |
| HashLaws.HdelMeans | src/redis/commands/hash_commands.cpp:57-81 | the named fields are gone and the others kept, the reply counts those that were there, and the key goes with the last one |
| HashLaws.StoredFieldIsFound | src/redis/commands/hash_commands.cpp:5-55 | HGET after HSET replies the last value given for the field |
| StringLaws.ReadsMean | src/redis/commands/string_commands.cpp:51-235 | GET replies the text or null, STRLEN its length, TYPE one of string, list, set, hash and none |
| StringLaws.AppendMeans | src/redis/commands/string_commands.cpp:237-256 | the old text and the argument are then seen, without expiry, and the reply is their length |
| StringLaws.CounterMeans | src/redis/commands/string_commands.cpp:118-220 | INCR adds 1, DECR subtracts 1, INCRBY and DECRBY add and subtract the argument, in 64 bits, to the number the text spells or to 0; the reply is the number then stored |
| StringLaws.DelMeans | src/redis/commands/string_commands.cpp:66-79 | exactly the named keys are gone, and the reply is how many of them were stored |
| StringLaws.ExistsMeans | src/redis/commands/string_commands.cpp:81-94 | the reply is how many of the arguments name a visible key, repetitions counted |
| StringLaws.MgetMeans | src/redis/commands/string_commands.cpp:258-274 | one item for each key, in order: its text, or an empty string |
| StringLaws.MsetMeans | src/redis/commands/string_commands.cpp:276-286 | under each key the last value given for it is seen |
| StringLaws.MsetKeeps | src/redis/commands/string_commands.cpp:276-286 | what is under a key that is not named stays |
| StringLaws.StoredPairIsFound | src/redis/commands/string_commands.cpp:51-286 | GET after MSET replies the last value given for the key |
| StringLaws.AppendedIsFound | src/redis/commands/string_commands.cpp:51-256 | GET after APPEND replies the old text and the argument, at any later time |
| StringLaws.MgetListsGet | src/redis/commands/string_commands.cpp:51-274 | each item of MGET is what GET replies for the key, with an empty string where GET replies null |
| StringLaws.MissingLooksEmpty | src/redis/commands/string_commands.cpp:269-269 | MGET cannot tell servers apart that differ in whether a key is missing or holds the empty string |
| StringLaws.DeletedDoNotExist | src/redis/commands/string_commands.cpp:66-94 | EXISTS after DEL of the same keys is 0 |
| OptionLaws.ConditionsDecide | src/redis/commands/string_commands.cpp:36-45 | SET replies null exactly when NX is read and the key is visible, or XX is read and it is not |
| OptionLaws.SetReplies | src/redis/commands/string_commands.cpp:18-48 | otherwise it is a syntax error exactly when the last argument is read as an option, not a number exactly when EX or PX is read before something that is none, and else OK |
| OptionLaws.SetExpires | src/redis/commands/string_commands.cpp:24-33 | wherever in the list it stands, the last EX or PX that is read decides: the value is seen up to that many times 1 000 000 000 or 1 000 000 nanoseconds later and not from then on |
| OptionLaws.SetForGood | src/redis/commands/string_commands.cpp:13-48 | without EX and PX the value stays for good, whatever expiry the key had |
| OptionLaws.SetLeavesOthers | src/redis/commands/string_commands.cpp:47-48 | a SET that is not OK changes nothing a client can see, an accepted one nothing but its key |
| TtlRuns.DeadlineExact | src/redis/database/redis_value.h:31-34 | the stored deadline is the intended instant exactly when that fits the 64-bit clock |
| TtlRuns.ExpiresAtOnce | src/redis/database/redis_value.h:31-34 | for every number of seconds, the key outlives the command exactly when what the duration amounts to on the 64-bit clock is not 0 and does not pass its end, and that is then its deadline |
| TtlRuns.LongExpiries | src/redis/commands/ttl_commands.cpp:20-27 | a duration that passes the end of the clock once makes the key expire at once; one of twenty thousand million seconds comes out in the future again |
| TtlRuns.ExpireThenTtl | src/redis/commands/ttl_commands.cpp:20-82 | EXPIRE with positive seconds, then any run not writing the key, then TTL: the whole seconds left to the stored deadline, and -2 from it on, also if it passes while TTL runs |
| TtlRuns.ExpireMeans | src/redis/commands/ttl_commands.cpp:5-28 | the reply is 0 exactly when nothing is visible; a visible key keeps its contents for that many times 1 000 000 000 nanoseconds and is then gone, at once for 0 or fewer |
| TtlRuns.MomentExact | src/redis/commands/ttl_commands.cpp:46-47 | a timestamp names the point of the clock 1 000 000 000 nanoseconds times as many after the epoch exactly when that fits 64 bits |
| TtlRuns.ExpireatMeans | src/redis/commands/ttl_commands.cpp:30-56 | EXPIREAT replies 0 exactly when nothing is visible; a visible key keeps its contents, with that expiry, until timestamp times 1 000 000 000 nanoseconds and is then gone, at once if that is past |
| TtlRuns.ExpireatThenTtl | src/redis/commands/ttl_commands.cpp:30-82 | EXPIREAT, then any run not writing the key, then TTL: the whole seconds to the moment given, and -2 from it on, also if it was past |
| TtlRuns.SameDeadline | src/redis/commands/ttl_commands.cpp:20-54 | EXPIREAT of the deadline and EXPIRE up to it store the same |
| TtlRuns.TtlMeans | src/redis/commands/ttl_commands.cpp:58-82 | -2 when nothing is visible, -1 without expiry, else the whole seconds left at the last look at the clock |
| TtlRuns.RemainingIsExact | src/redis/commands/ttl_commands.cpp:74-81 | within the range of the clock that is the time asked for, between 0 and n |
| TtlRuns.RemainingDecreases | src/redis/commands/ttl_commands.cpp:74-81 | the seconds left never increase |
| TtlRuns.PersistMeans | src/redis/commands/ttl_commands.cpp:84-102 | 1 exactly when what is visible has an expiry; then it has none, and the same contents at any later time |
| TtlRuns.PersistThenTtl | src/redis/commands/ttl_commands.cpp:84-102 | after PERSIST, and any run not writing the key, TTL is -1 forever |
| TtlRuns.ExpiryKeptWhenRefused | src/redis/commands/string_commands.cpp:118-256 | APPEND, INCR, DECR, INCRBY and DECRBY keep what expiry a key has exactly when they refuse or it has none |
| TtlRuns.RewriteThenTtl | src/redis/commands/string_commands.cpp:118-256 | after one of them has replied a number, and any run not writing the key, TTL is -1, whatever expiry there was |
| ReplyFraming.ReplyIsOneFrame | src/redis/command_handler.cpp:74-98 | a reply is exactly one RESP frame if and only if its texts and items are within the parser's limits and the texts that come from outside contain no CRLF |
| ReplyFraming.UnknownCommandReply | src/redis/command_handler.cpp:89-91 | the reply to an unknown command is one frame exactly when the name contains no CRLF |
| ReplyFraming.RepliesMatchCommands | src/server/tcp_server.cpp:137-140 | reading the reply stream of a run gives back the replies one by one, in order, with nothing left over, if and only if every reply is within the limits |
| ReplyFraming.SentMatchesCommands | src/server/tcp_server.cpp:137-140 | the same for what a connection sent |
| ReplyFraming.RequestsAndReplies | src/server/tcp_server.cpp:110-144 | printed commands cut anywhere are dispatched exactly, and the client finds exactly one reply frame for each if and only if every reply is within the limits |
| ReplyLimits.SmallRequestsFit | src/redis/command_handler.cpp:74-98 | a reply is within the limits when the stored entries and the arguments are: known before the command runs, for every command |
| ReplyLimits.SmallRequestsAreRecovered | src/server/tcp_server.cpp:137-140 | on a connection whose requests are small when their turn comes the client finds exactly one frame for each command |
| ReplyMeanings.ReplyIsTold | src/redis/command_handler.cpp:74-98 | whatever value a client decodes from the bytes of a reply, it says what the reply says: the number, the text, null, the items in order, the members ascending, the fields with their values |
| ReplyMeanings.ConversationIsUnderstood | src/server/tcp_server.cpp:110-144 | from socket to socket: when requests and replies are within the limits, the client finds one frame for each command, in order, and decodes from it the reply to that command |
| ReplyMeanings.ProblemsRead | src/redis/commands/string_commands.cpp:9-22 | what is sent for each problem, byte for byte |
| ConnectionManager.ConnectionManager.CleanupFinishedThreads | src/server/connection_manager.cpp:48-54 | exactly the joinable threads are kept, in order |
| ConnectionManager.ConnectionManager.AddConnection | src/server/connection_manager.cpp:11-30 | succeeds exactly below the limit after the cleanup, and then has one more thread |
| ConnectionManager.ConnectionManager.ThreadEnters | src/server/connection_manager.cpp:22-22 | the step that counts a thread in |
| ConnectionManager.ConnectionManager.ThreadLeaves | src/server/connection_manager.cpp:28-28 | the step that counts it out |
| ConnectionManager.GuardIsTooGenerous | src/server/connection_manager.cpp:7-19 | in every interleaving the guard never turns away a client that an addition would take, and admits one that it refuses exactly when the vector is full and fewer threads are active |
| ConnectionManager.GuardCanBeWrong | src/server/connection_manager.cpp:7-19 | that happens: after 100 additions whose threads have not started |
| ConnectionManager.CleanupRemovesNothing | src/server/connection_manager.cpp:48-54 | outside a stop the cleanup finds nothing to remove |
| ConnectionManager.StepKeepsInvariant | src/server/connection_manager.cpp:11-42 | every step keeps the counter exact, the threads within the limit and the joined ones in front |
| ConnectionManager.CounterIsExact | src/server/connection_manager.cpp:21-46 | in every interleaving the counter is the number of threads between its two updates, at most the number of threads, at most 100, and 0 when a stop resets it |
| ConnectionManager.HundredAdditionsBetweenStops | src/server/connection_manager.cpp:11-19 | an addition succeeds exactly when fewer than 100 succeeded since the last stop, however many of those connections have ended |

## Left out

- Sockets, signals, start and stop, the `running` flag and logging: input and output only; the reads of a connection are a sequence of chunks.
- Commands of several clients interleaved: the lock covers single database calls and a pointer into the map outlives it, so commands are not atomic; runs here are serial, and a connection is served without others in between.
- Clock readings within one command beyond two: the key lookups of one command share an instant, also those of several keys or of several NX and XX options, and so do its other readings of the clock.
- Undefined behaviour of signed overflow: two's complement wrap-around stands for it. Counts of arguments and elements are not cut at 32 or 64 bits.
- Entries changed through a pointer: a command stores the changed entry under its key; the aliasing itself is not modelled, nor is `RedisValue` as an object with mutating methods.
- Order of hash and key listings: they are proved to contain each element once, in some order.
- std::regex outside literals, escaped literals, `.` and a star after one of these: an arbitrary result or exception.
- GlobRegex.BackslashIsNeverRight: for patterns with a backslash whose text is outside that fragment nothing is said; patterns that contain line terminators are covered by GlobRegex.PatternsTranslatedCorrectly, on arbitrary keys.
- StringCommands.StringCommands.AddTo: the body that the source repeats in four commands is written once.
- stopAllConnections and the destructor: steps of `ConnectionManager.Step`, not a method, since each join waits for another thread.
- Handlers that throw something other than `std::exception`, and failures to create a thread or to allocate memory.
- parsePlainText, isValidKey, printValue, ZSET and STREAM: not used by the server path.
