/** The per-client loop of src/server/tcp_server.cpp: append each chunk that was read to a
    persistent buffer, then take complete messages off its front for as long as there are any,
    hand each to the command handler and send back what that returns. */
module ClientConnection {
  import opened Text
  import opened RespValue
  import opened RespParser
  import opened RespGrammar
  import opened RespFormatter
  import opened GlobRegex
  import opened Replies
  import opened CommandHandler
  import opened Runs

  /** One message taken off the buffer: its bytes and the argument vector dispatched for it. */
  datatype Message = Message(bytes: string, args: seq<string>)

  datatype Drained = Drained(messages: seq<Message>, rest: string)

  function Drain(s: string): Drained {
    match Scan(s, 0)
    case Done(v, used) =>
      var later := Drain(s[used..]);
      Drained([Message(s[..used], Arguments(v))] + later.messages, later.rest)
    case _ => Drained([], s)
  }

  function ArgsOf(messages: seq<Message>): seq<seq<string>> {
    seq(|messages|, i requires 0 <= i < |messages| => messages[i].args)
  }

  function BytesOf(messages: seq<Message>): seq<string> {
    seq(|messages|, i requires 0 <= i < |messages| => messages[i].bytes)
  }

  function Concat(parts: seq<string>): string {
    if parts == [] then "" else parts[0] + Concat(parts[1..])
  }

  lemma {:induction false} ConcatSnoc(parts: seq<string>, part: string)
    ensures Concat(parts + [part]) == Concat(parts) + part
  {
    if parts == [] {
      assert [part][1..] == [];
    } else {
      assert (parts + [part])[1..] == parts[1..] + [part];
      ConcatSnoc(parts[1..], part);
    }
  }

  /** The two readings of the clock that a command makes. */
  datatype Reading = Reading(now: int, later: int)

  /** The `k`-th command of the connection reads the clock as `clock(k)`. */
  ghost predicate OnTime(ctxs: seq<Context>, clock: nat -> Reading, engine: Engine, start: nat) {
    forall i :: 0 <= i < |ctxs| ==>
      ctxs[i] == Context(clock(start + i).now, clock(start + i).later, engine, ctxs[i].pick)
  }

  /** `sent` renders, one by one and in order, the answers to the commands, and whatever was
      chosen at random on the way was there to be chosen. */
  ghost predicate Answered(st: Server, commands: seq<seq<string>>, ctxs: seq<Context>, sent: seq<string>) {
    && |commands| == |ctxs| == |sent|
    && (forall i :: 0 <= i < |sent| ==> Renders(Answers(st, commands, ctxs)[i], sent[i]))
    && (forall i :: 0 <= i < |sent| ==> FairAt(Served(st, commands[..i], ctxs[..i]), commands[i], ctxs[i]))
  }

  class Client {
    const handler: CommandHandler
    var buffer: string
    /** What was passed to send, call by call. */
    var sent: seq<string>

    constructor (commandHandler: CommandHandler)
      ensures handler == commandHandler && buffer == "" && sent == []
    {
      handler, buffer, sent := commandHandler, "", [];
    }

    /** One read of the socket. */
    method Receive(chunk: string, clock: nat -> Reading, engine: Engine)
      returns (ghost commands: seq<seq<string>>, ghost ctxs: seq<Context>)
      requires handler.Valid()
      modifies this, handler, handler.db
      ensures handler.Valid()
      ensures commands == ArgsOf(Drain(old(buffer) + chunk).messages)
      ensures buffer == Drain(old(buffer) + chunk).rest
      ensures old(sent) <= sent
      ensures Answered(old(handler.State()), commands, ctxs, sent[|old(sent)|..])
      ensures handler.State() == Served(old(handler.State()), commands, ctxs)
      ensures OnTime(ctxs, clock, engine, |old(sent)|)
    {
      NothingToDrain();
      hide Drain, Scan, Arguments, ArgsOf, Answered, OnTime, Served, Process, Renders, FairAt;
      buffer := buffer + chunk;
      ghost var start, before, whole := handler.State(), sent, Drain(buffer);
      ghost var replies: seq<string> := [];
      commands, ctxs := [], [];
      NothingAnswered(start, clock, engine, |before|);
      assert [] + ArgsOf(whole.messages) == ArgsOf(whole.messages);
      while true
        invariant handler.Valid()
        invariant Drain(buffer).rest == whole.rest
        invariant commands + ArgsOf(Drain(buffer).messages) == ArgsOf(whole.messages)
        invariant sent == before + replies
        invariant |commands| == |ctxs| == |replies|
        invariant Answered(start, commands, ctxs, replies)
        invariant handler.State() == Served(start, commands, ctxs)
        invariant OnTime(ctxs, clock, engine, |before|)
        decreases |buffer|
      {
        DrainStep(buffer);
        var ok, value, consumed := Parse(buffer);
        if !ok {
          break;
        }
        var args := ToStringVector(value);
        FirstArgs(buffer);
        assert commands + ([args] + ArgsOf(Drain(buffer[consumed..]).messages))
            == commands + [args] + ArgsOf(Drain(buffer[consumed..]).messages);
        buffer := buffer[consumed..];
        ghost var st := handler.State();
        var reading := clock(|sent|);
        var resp, pick := handler.ProcessCommand(args, reading.now, reading.later, engine);
        ghost var ctx := Context(reading.now, reading.later, engine, pick);
        OneAnswerMore(start, commands, ctxs, replies, args, ctx, resp);
        OneReadingMore(ctxs, clock, engine, |before|, ctx);
        RenderedIsNotEmpty(Process(st, args, ctx).reply, resp);
        if resp != "" {
          sent := sent + [resp];
        }
        replies := replies + [resp];
        commands, ctxs := commands + [args], ctxs + [ctx];
        assert before + replies == sent;
      }
      assert commands + [] == commands;
      assert sent[|before|..] == replies;
    }

    /** The whole connection: the chunks that read returned until the stream ended. */
    method HandleClient(chunks: seq<string>, clock: nat -> Reading, engine: Engine)
      returns (ghost commands: seq<seq<string>>, ghost ctxs: seq<Context>)
      requires handler.Valid() && buffer == "" && sent == []
      modifies this, handler, handler.db
      ensures handler.Valid()
      ensures commands == ArgsOf(Drain(Concat(chunks)).messages)
      ensures buffer == Drain(Concat(chunks)).rest
      ensures Answered(old(handler.State()), commands, ctxs, sent)
      ensures handler.State() == Served(old(handler.State()), commands, ctxs)
      ensures OnTime(ctxs, clock, engine, 0)
    {
      NothingToDrain();
      hide Drain, ArgsOf, Answered, OnTime, Served, Concat;
      ghost var start := handler.State();
      commands, ctxs := [], [];
      NothingAnswered(start, clock, engine, 0);
      assert chunks[..0] == [];
      for i := 0 to |chunks|
        invariant handler.Valid()
        invariant commands == ArgsOf(Drain(Concat(chunks[..i])).messages)
        invariant buffer == Drain(Concat(chunks[..i])).rest
        invariant |commands| == |ctxs| == |sent|
        invariant Answered(start, commands, ctxs, sent)
        invariant handler.State() == Served(start, commands, ctxs)
        invariant OnTime(ctxs, clock, engine, 0)
      {
        DrainAppend(Concat(chunks[..i]), chunks[i]);
        ConcatSnoc(chunks[..i], chunks[i]);
        assert chunks[..i] + [chunks[i]] == chunks[..i + 1];
        ArgsOfConcat(Drain(Concat(chunks[..i])).messages, Drain(buffer + chunks[i]).messages);
        ghost var replies := sent;
        var more, moreCtxs := Receive(chunks[i], clock, engine);
        assert replies + sent[|replies|..] == sent;
        OneEach(Served(start, commands, ctxs), more, moreCtxs, sent[|replies|..]);
        AnsweredConcat(start, commands, ctxs, replies, more, moreCtxs, sent[|replies|..]);
        OnTimeConcat(ctxs, moreCtxs, clock, engine);
        commands, ctxs := commands + more, ctxs + moreCtxs;
      }
      assert chunks[..|chunks|] == chunks;
    }
  }

  lemma NothingAnswered(st: Server, clock: nat -> Reading, engine: Engine, start: nat)
    ensures Answered(st, [], [], []) && Served(st, [], []) == st && OnTime([], clock, engine, start)
  {
  }

  lemma OneAnswerMore(st: Server, commands: seq<seq<string>>, ctxs: seq<Context>, sent: seq<string>,
                      args: seq<string>, ctx: Context, resp: string)
    requires Answered(st, commands, ctxs, sent)
    requires Renders(Process(Served(st, commands, ctxs), args, ctx).reply, resp)
    requires FairAt(Served(st, commands, ctxs), args, ctx)
    ensures Answered(st, commands + [args], ctxs + [ctx], sent + [resp])
    ensures Served(st, commands + [args], ctxs + [ctx]) == Process(Served(st, commands, ctxs), args, ctx).server
  {
    hide Renders, Process, Served, Answers, FairAt;
    OneCommandMore(st, commands, ctxs, args, ctx);
    var n, all, allCtxs := |commands|, commands + [args], ctxs + [ctx];
    assert all[..n] == commands && allCtxs[..n] == ctxs;
    forall i | 0 <= i < n ensures FairAt(Served(st, all[..i], allCtxs[..i]), all[i], allCtxs[i]) {
      assert all[..i] == commands[..i] && allCtxs[..i] == ctxs[..i];
    }
  }

  lemma OneReadingMore(ctxs: seq<Context>, clock: nat -> Reading, engine: Engine, start: nat, ctx: Context)
    requires OnTime(ctxs, clock, engine, start)
    requires ctx == Context(clock(start + |ctxs|).now, clock(start + |ctxs|).later, engine, ctx.pick)
    ensures OnTime(ctxs + [ctx], clock, engine, start)
  {
  }

  lemma RenderedIsNotEmpty(r: Reply, resp: string)
    requires Renders(r, resp)
    ensures resp != ""
  {
  }

  /** Answers to some commands, then to some more from where those left the server. */
  lemma {:induction false} AnsweredConcat(
    st: Server, commands: seq<seq<string>>, ctxs: seq<Context>, sent: seq<string>,
    more: seq<seq<string>>, moreCtxs: seq<Context>, moreSent: seq<string>)
    requires Answered(st, commands, ctxs, sent)
    requires Answered(Served(st, commands, ctxs), more, moreCtxs, moreSent)
    ensures Answered(st, commands + more, ctxs + moreCtxs, sent + moreSent)
    ensures Served(st, commands + more, ctxs + moreCtxs) == Served(Served(st, commands, ctxs), more, moreCtxs)
    decreases |more|
  {
    hide Renders, Process, Served, Answers, FairAt, Answered;
    OneEach(st, commands, ctxs, sent);
    OneEach(Served(st, commands, ctxs), more, moreCtxs, moreSent);
    if more == [] {
      assert commands + more == commands && ctxs + moreCtxs == ctxs && sent + moreSent == sent;
      EmptyServed(Served(st, commands, ctxs));
    } else {
      var n := |more| - 1;
      LastAnswer(Served(st, commands, ctxs), more, moreCtxs, moreSent);
      AnsweredConcat(st, commands, ctxs, sent, more[..n], moreCtxs[..n], moreSent[..n]);
      OneAnswerMore(st, commands + more[..n], ctxs + moreCtxs[..n], sent + moreSent[..n],
                    more[n], moreCtxs[n], moreSent[n]);
      assert commands + more[..n] + [more[n]] == commands + more;
      assert ctxs + moreCtxs[..n] + [moreCtxs[n]] == ctxs + moreCtxs;
      assert sent + moreSent[..n] + [moreSent[n]] == sent + moreSent;
    }
  }

  lemma OneEach(st: Server, commands: seq<seq<string>>, ctxs: seq<Context>, sent: seq<string>)
    requires Answered(st, commands, ctxs, sent)
    ensures |commands| == |ctxs| == |sent|
  {
  }

  lemma EmptyServed(st: Server)
    ensures Served(st, [], []) == st
  {
  }

  lemma LastAnswer(st: Server, commands: seq<seq<string>>, ctxs: seq<Context>, sent: seq<string>)
    requires Answered(st, commands, ctxs, sent) && commands != []
    ensures var n := |commands| - 1;
            var before := Served(st, commands[..n], ctxs[..n]);
            && Answered(st, commands[..n], ctxs[..n], sent[..n])
            && Renders(Process(before, commands[n], ctxs[n]).reply, sent[n])
            && FairAt(before, commands[n], ctxs[n])
            && Served(st, commands, ctxs) == Process(before, commands[n], ctxs[n]).server
  {
    hide Renders, Process, Served, Answers, FairAt;
    var n := |commands| - 1;
    OneCommandMore(st, commands[..n], ctxs[..n], commands[n], ctxs[n]);
    assert commands[..n] + [commands[n]] == commands && ctxs[..n] + [ctxs[n]] == ctxs;
    var all := Answers(st, commands, ctxs);
    assert all == Answers(st, commands[..n], ctxs[..n]) + [all[n]];
    forall i | 0 <= i < n ensures Renders(Answers(st, commands[..n], ctxs[..n])[i], sent[..n][i]) {
      assert Answers(st, commands[..n], ctxs[..n])[i] == all[i];
    }
    forall i | 0 <= i < n
      ensures FairAt(Served(st, commands[..n][..i], ctxs[..n][..i]), commands[..n][i], ctxs[..n][i])
    {
      assert commands[..n][..i] == commands[..i] && ctxs[..n][..i] == ctxs[..i];
    }
  }

  lemma OnTimeConcat(ctxs: seq<Context>, more: seq<Context>, clock: nat -> Reading, engine: Engine)
    requires OnTime(ctxs, clock, engine, 0) && OnTime(more, clock, engine, |ctxs|)
    ensures OnTime(ctxs + more, clock, engine, 0)
  {
  }

  // ----- what the loop dispatches -----

  lemma NothingToDrain()
    ensures Drain("") == Drained([], "") && ArgsOf([]) == [] && Concat([]) == ""
  {
  }

  lemma ArgsOfConcat(a: seq<Message>, b: seq<Message>)
    ensures ArgsOf(a + b) == ArgsOf(a) + ArgsOf(b)
  {
  }

  function FirstMessage(s: string): Message
    requires Scan(s, 0).Done?
  {
    Message(s[..Scan(s, 0).used], Arguments(Scan(s, 0).value))
  }

  lemma DrainStep(s: string)
    ensures !Scan(s, 0).Done? ==> Drain(s) == Drained([], s)
    ensures Scan(s, 0).Done? ==> Drain(s).messages == [FirstMessage(s)] + Drain(s[Scan(s, 0).used..]).messages
    ensures Scan(s, 0).Done? ==> Drain(s).rest == Drain(s[Scan(s, 0).used..]).rest
  {
  }

  lemma FirstArgs(s: string)
    requires Scan(s, 0).Done?
    ensures ArgsOf(Drain(s).messages)
         == [Arguments(Scan(s, 0).value)] + ArgsOf(Drain(s[Scan(s, 0).used..]).messages)
  {
    hide Drain, Scan, Arguments;
    DrainStep(s);
    ArgsOfConcat([FirstMessage(s)], Drain(s[Scan(s, 0).used..]).messages);
  }

  /** Draining early and continuing with the residue is draining everything at once. */
  lemma {:induction false} DrainAppend(s: string, t: string)
    ensures Drain(s + t).messages == Drain(s).messages + Drain(Drain(s).rest + t).messages
    ensures Drain(s + t).rest == Drain(Drain(s).rest + t).rest
    decreases |s|
  {
    hide Scan, Drain, Arguments;
    var front := Scan(s, 0);
    DrainStep(s);
    if front.Done? {
      var later, whole := s[front.used..], s + t;
      ScanExtends(s, t, 0);
      assert whole[front.used..] == later + t && whole[..front.used] == s[..front.used];
      DrainAppend(later, t);
      DrainStep(whole);
    }
  }

  /** All messages and the buffer after a sequence of reads. */
  function AfterReads(chunks: seq<string>, messages: seq<Message>, buffer: string): Drained
    decreases |chunks|
  {
    if chunks == [] then Drained(messages, buffer)
    else
      var d := Drain(buffer + chunks[0]);
      AfterReads(chunks[1..], messages + d.messages, d.rest)
  }

  lemma {:induction false} AfterReadsIsDrain(chunks: seq<string>, messages: seq<Message>, buffer: string)
    requires Drain(buffer) == Drained([], buffer)
    ensures AfterReads(chunks, messages, buffer)
         == Drained(messages + Drain(buffer + Concat(chunks)).messages, Drain(buffer + Concat(chunks)).rest)
    decreases |chunks|
  {
    hide Scan, Drain;
    if chunks == [] {
      assert buffer + Concat(chunks) == buffer;
    } else {
      var s, more := buffer + chunks[0], Concat(chunks[1..]);
      assert buffer + Concat(chunks) == s + more;
      DrainAppend(s, more);
      ResidueIsIncomplete(s);
      AfterReadsIsDrain(chunks[1..], messages + Drain(s).messages, Drain(s).rest);
      var later := Drain(Drain(s).rest + more).messages;
      assert (messages + Drain(s).messages) + later == messages + (Drain(s).messages + later);
    }
  }

  lemma {:induction false} ResidueIsIncomplete(s: string)
    ensures Drain(Drain(s).rest) == Drained([], Drain(s).rest)
    decreases |s|
  {
    hide Scan;
    if Scan(s, 0).Done? {
      ResidueIsIncomplete(s[Scan(s, 0).used..]);
    }
  }

  /** Neither the commands dispatched nor the bytes left over depend on how the stream was cut. */
  lemma ChunkingIsUnobservable(chunks: seq<string>, chunks': seq<string>)
    requires Concat(chunks) == Concat(chunks')
    ensures AfterReads(chunks, [], "") == AfterReads(chunks', [], "")
  {
    AfterReadsIsDrain(chunks, [], "");
    AfterReadsIsDrain(chunks', [], "");
  }

  /** A reading of `s` that does not mention the parser: complete frames off the front, and a
      rest of which no prefix is a frame. */
  ghost predicate Framing(s: string, messages: seq<Message>, rest: string)
    decreases |messages|
  {
    if messages == [] then rest == s && forall v, k: nat :: k <= |s| ==> !Frame(v, s[..k], 0)
    else
      && messages[0].bytes <= s
      && (exists v :: Frame(v, messages[0].bytes, 0) && messages[0].args == Arguments(v))
      && Framing(s[|messages[0].bytes|..], messages[1..], rest)
  }

  /** The loop finds the one and only framing of the stream. */
  lemma {:induction false} DrainIsTheFraming(s: string, messages: seq<Message>, rest: string)
    ensures Drain(s) == Drained(messages, rest) <==> Framing(s, messages, rest)
    decreases |messages|
  {
    hide Scan, Frame;
    var front := Scan(s, 0);
    if front.Done? {
      ParserExact(s, front.value, front.used, 0);
    }
    if messages == [] {
      forall v, k: nat | k <= |s| && Frame(v, s[..k], 0) ensures front.Done? {
        ParserExact(s, v, k, 0);
      }
    } else {
      var f := messages[0].bytes;
      if f <= s {
        assert s == f + s[|f|..] && s[..|f|] == f;
        DrainIsTheFraming(s[|f|..], messages[1..], rest);
        forall v | Frame(v, f, 0) ensures front == Done(v, |f|) {
          ParserExact(s, v, |f|, 0);
        }
        assert messages == [messages[0]] + messages[1..];
      }
    }
  }

  /** Consumed messages and residue are the input, in order and with nothing lost. */
  lemma {:induction false} DrainConservesBytes(s: string)
    ensures Concat(BytesOf(Drain(s).messages)) + Drain(s).rest == s
    decreases |s|
  {
    hide Scan, Arguments, Drain;
    var front := Scan(s, 0);
    DrainStep(s);
    if front.Done? {
      DrainConservesBytes(s[front.used..]);
      var later := Drain(s[front.used..]);
      assert BytesOf(Drain(s).messages) == [s[..front.used]] + BytesOf(later.messages);
      assert BytesOf(Drain(s).messages)[1..] == BytesOf(later.messages);
    }
  }

  function Printed(commands: seq<seq<string>>): seq<string> {
    seq(|commands|, i requires 0 <= i < |commands| => FormatArray(commands[i]))
  }

  lemma FirstCommand(command: seq<string>, tail: string)
    requires FitsParser(command)
    ensures ArgsOf(Drain(FormatArray(command) + tail).messages) == [command] + ArgsOf(Drain(tail).messages)
    ensures Drain(FormatArray(command) + tail).rest == Drain(tail).rest
  {
    hide Scan, FormatArray, Arguments, Drain, FitsParser, ArgsOf;
    var f := FormatArray(command);
    var s := f + tail;
    ArrayRoundTrip(command);
    assert Scan(s, 0) == Done(Array(Bulks(command)), |f|);
    assert s[|f|..] == tail;
    DrainStep(s);
    FirstArgs(s);
  }

  /** A pipeline of printed commands, followed by anything, is dispatched command by command. */
  lemma {:induction false} PipelineIsDispatched(commands: seq<seq<string>>, t: string)
    requires forall i :: 0 <= i < |commands| ==> FitsParser(commands[i])
    ensures ArgsOf(Drain(Concat(Printed(commands)) + t).messages) == commands + ArgsOf(Drain(t).messages)
    ensures Drain(Concat(Printed(commands)) + t).rest == Drain(t).rest
    decreases |commands|
  {
    hide FormatArray, Drain, FitsParser, ArgsOf;
    if commands == [] {
      assert Concat(Printed(commands)) + t == t;
    } else {
      var more := Concat(Printed(commands[1..]));
      assert Printed(commands)[1..] == Printed(commands[1..]);
      assert Concat(Printed(commands)) + t == FormatArray(commands[0]) + (more + t);
      FirstCommand(commands[0], more + t);
      PipelineIsDispatched(commands[1..], t);
      assert [commands[0]] + (commands[1..] + ArgsOf(Drain(t).messages)) == commands + ArgsOf(Drain(t).messages);
    }
  }

  /** Once the front of the buffer is rejected the connection never dispatches again. */
  lemma RejectedStaysRejected(s: string, chunks: seq<string>)
    requires Scan(s, 0).Bad?
    ensures AfterReads(chunks, [], s) == Drained([], s + Concat(chunks))
  {
    AfterReadsIsDrain(chunks, [], s);
    ScanExtends(s, Concat(chunks), 0);
  }
}
