/** Whole runs of a server: commands in some order, with sweeps in between, as time goes on.
    Commands are executed one after the other. */
module Runs {
  import opened Text
  import opened RedisDatabase
  import opened Replies
  import opened CommandHandler

  /** What happens at a server: a command, or a sweep at a moment of its own. */
  datatype Event = Issue(args: seq<string>, ctx: Context) | Sweep(now: int)

  /** One line of the conversation. */
  datatype Exchange = Exchange(command: Option<Command>, reply: Reply)

  /** The first and the last reading of the clock. */
  function TimeOf(e: Event): int {
    match e case Issue(_, ctx) => ctx.now case Sweep(now) => now
  }

  function EndOf(e: Event): int {
    match e case Issue(_, ctx) => ctx.later case Sweep(now) => now
  }

  /** Time never runs backwards, from `t` on. */
  ghost predicate Ordered(events: seq<Event>, t: int) {
    events == [] || (t <= TimeOf(events[0]) <= EndOf(events[0]) && Ordered(events[1..], EndOf(events[0])))
  }

  function After(st: Server, e: Event): Server {
    match e
    case Issue(args, ctx) => Process(st, args, ctx).server
    case Sweep(now) => st.(db := Live(st.db, now))
  }

  function Final(st: Server, events: seq<Event>): Server
    decreases |events|
  {
    if events == [] then st else Final(After(st, events[0]), events[1..])
  }

  function Conversation(st: Server, events: seq<Event>): seq<Exchange>
    decreases |events|
  {
    if events == [] then []
    else
      var rest := Conversation(After(st, events[0]), events[1..]);
      match events[0]
      case Issue(args, ctx) => [Exchange(CommandOf(st.commands, args), Process(st, args, ctx).reply)] + rest
      case Sweep(_) => rest
  }

  function EndTime(events: seq<Event>, t: int): int {
    if events == [] then t else EndTime(events[1..], EndOf(events[0]))
  }

  // ----- commands alone -----

  /** The replies to commands issued one after the other, without sweeps of their own in between. */
  function Answers(st: Server, commands: seq<seq<string>>, ctxs: seq<Context>): (replies: seq<Reply>)
    requires |commands| == |ctxs|
    ensures |replies| == |commands|
    decreases |commands|
  {
    if commands == [] then []
    else
      var a := Process(st, commands[0], ctxs[0]);
      [a.reply] + Answers(a.server, commands[1..], ctxs[1..])
  }

  /** The server after them. */
  function Served(st: Server, commands: seq<seq<string>>, ctxs: seq<Context>): Server
    requires |commands| == |ctxs|
    decreases |commands|
  {
    if commands == [] then st
    else Served(Process(st, commands[0], ctxs[0]).server, commands[1..], ctxs[1..])
  }

  lemma {:induction false} OneCommandMore(st: Server, commands: seq<seq<string>>, ctxs: seq<Context>,
                                          args: seq<string>, ctx: Context)
    requires |commands| == |ctxs|
    ensures var a := Process(Served(st, commands, ctxs), args, ctx);
            && Answers(st, commands + [args], ctxs + [ctx]) == Answers(st, commands, ctxs) + [a.reply]
            && Served(st, commands + [args], ctxs + [ctx]) == a.server
    decreases |commands|
  {
    hide Process;
    if commands == [] {
      assert [args][1..] == [] && [ctx][1..] == [];
    } else {
      assert (commands + [args])[1..] == commands[1..] + [args] && (ctxs + [ctx])[1..] == ctxs[1..] + [ctx];
      OneCommandMore(Process(st, commands[0], ctxs[0]).server, commands[1..], ctxs[1..], args, ctx);
    }
  }

  /** The commands as events of a run. */
  function Issued(commands: seq<seq<string>>, ctxs: seq<Context>): seq<Event>
    requires |commands| == |ctxs|
  {
    seq(|commands|, i requires 0 <= i < |commands| => Issue(commands[i], ctxs[i]))
  }

  /** Issued commands are a run: the conversation consists of the answers. */
  lemma {:induction false} AnswersAreTheConversation(st: Server, commands: seq<seq<string>>, ctxs: seq<Context>)
    requires |commands| == |ctxs|
    ensures Served(st, commands, ctxs) == Final(st, Issued(commands, ctxs))
    ensures |Conversation(st, Issued(commands, ctxs))| == |commands|
    ensures forall i :: 0 <= i < |commands| ==>
              Conversation(st, Issued(commands, ctxs))[i].reply == Answers(st, commands, ctxs)[i]
    decreases |commands|
  {
    hide Process;
    if commands != [] {
      var events, st1 := Issued(commands, ctxs), Process(st, commands[0], ctxs[0]).server;
      assert events[1..] == Issued(commands[1..], ctxs[1..]);
      AnswersAreTheConversation(st1, commands[1..], ctxs[1..]);
      var rest := Conversation(st1, events[1..]);
      assert Conversation(st, events) ==
        [Exchange(CommandOf(st.commands, commands[0]), Process(st, commands[0], ctxs[0]).reply)] + rest;
    }
  }
}
