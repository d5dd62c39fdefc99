/** What a client reads in the responses: the value it decodes is the reply of the command, and no
    other value can be decoded. */
module ReplyMeanings {
  import opened RespValue
  import opened RespGrammar
  import opened RespFormatter
  import opened StringOrder
  import opened Replies
  import opened CommandHandler
  import opened Runs
  import opened ReplyTexts
  import opened ReplyFraming
  import HashLaws
  import CommandNames
  import CC = ClientConnection

  /** The decoded value `v` says what the reply says; the fields and the keys in some order, the
      members in ascending order. */
  ghost predicate Tells(r: Reply, v: Value) {
    match r
    case Failure(p) => v == Error(Message(p))
    case Status(t) => v == SimpleString(t)
    case Number(n) => v == Integer(n)
    case Bulk(t) => v == BulkString(t)
    case Nil => v == Null
    case Items(items) => v == Array(Bulks(items))
    case Names(names) => exists order :: v == Array(Bulks(order)) && multiset(order) == multiset(names)
    case Members(members) => exists order :: v == Array(Bulks(order)) && InOrder(order, members)
    case Fields(hash, part) =>
      exists items, order :: v == Array(Bulks(items)) && HashLaws.ListedAs(items, order, hash, part)
  }

  lemma OnlyReading(resp: string, v: Value, v': Value)
    requires ReadsBack(resp, v) && Frame(v', resp, 0)
    ensures v == v'
  {
    hide ReadsBack, Frame;
    ReadsBackIsFrame(resp, v);
    FramesArePrefixFree(v, resp, v', resp, 0);
  }

  lemma ArrayRead(items: seq<string>, v: Value)
    requires Frame(v, FormatArray(items), 0)
    ensures v == Array(Bulks(items))
  {
    hide ReadsBack, Frame, FormatArray, FitsParser;
    FramedArrayFits(v, items);
    ArrayRoundTrip(items);
    OnlyReading(FormatArray(items), Array(Bulks(items)), v);
  }

  lemma LineRead(r: Reply, resp: string, v: Value)
    requires r.Failure? || r.Status? || r.Number? || r.Bulk? || r.Nil?
    requires Renders(r, resp) && StatusClean(r) && FitsReply(r) && Frame(v, resp, 0)
    ensures Tells(r, v)
  {
    hide ReadsBack, Frame, OneFrame, Message, Clean;
    match r
    case Failure(p) =>
      FailureIsOneFrame(p);
      TextIsOneFrame(Message(p));
      SimpleStringRoundTrip(Message(p));
      OnlyReading(resp, Error(Message(p)), v);
    case Status(t) =>
      CleanText(t);
      SimpleStringRoundTrip(t);
      OnlyReading(resp, SimpleString(t), v);
    case Number(n) =>
      IntegerRoundTrip(n);
      OnlyReading(resp, Integer(n), v);
    case Bulk(t) =>
      BulkStringRoundTrip(t);
      OnlyReading(resp, BulkString(t), v);
    case Nil =>
      NullRoundTrip();
      OnlyReading(resp, Null, v);
  }

  /** A rendered reply that is a frame decodes as what it says. */
  lemma ReadAsTold(r: Reply, resp: string, v: Value)
    requires Renders(r, resp) && StatusClean(r) && Frame(v, resp, 0)
    ensures Tells(r, v)
  {
    hide Frame, FormatArray, Listing, Bulks, HashLaws.ListedAs, FitsReply, Message;
    assert OneFrame(resp);
    RenderedIsOneFrame(r, resp);
    match r
    case Items(items) => ArrayRead(items, v);
    case Names(names) =>
      var order :| multiset(order) == multiset(names) && resp == FormatArray(order);
      ArrayRead(order, v);
    case Members(members) =>
      var order :| InOrder(order, members) && resp == FormatArray(order);
      ArrayRead(order, v);
    case Fields(hash, part) =>
      var order :| multiset(order) == multiset(hash.Keys) && resp == FormatArray(Listing(order, hash, part));
      ArrayRead(Listing(order, hash, part), v);
      HashLaws.ListingLists(order, hash, part);
    case _ => LineRead(r, resp, v);
  }

  /** Whatever value a client decodes from the response to a command, it is the reply. */
  lemma ReplyIsTold(st: Server, args: seq<string>, ctx: Context, resp: string, v: Value)
    requires Renders(Process(st, args, ctx).reply, resp) && Frame(v, resp, 0)
    ensures Tells(Process(st, args, ctx).reply, v)
  {
    if args != [] && CommandOf(st.commands, args).Some? {
      ExecStatusClean(CommandOf(st.commands, args).value, args, Tick(st, ctx.now), ctx);
    }
    hide Exec, Renders, Frame, Tells;
    ReadAsTold(Process(st, args, ctx).reply, resp, v);
  }

  lemma {:induction false} AnswerIsTold(st: Server, commands: seq<seq<string>>, ctxs: seq<Context>, i: nat,
                                        resp: string, v: Value)
    requires |commands| == |ctxs| && i < |commands|
    requires Renders(Answers(st, commands, ctxs)[i], resp) && Frame(v, resp, 0)
    ensures Tells(Answers(st, commands, ctxs)[i], v)
    decreases |commands|
  {
    hide Process, Renders, Frame, Tells;
    if i == 0 {
      ReplyIsTold(st, commands[0], ctxs[0], resp, v);
    } else {
      AnswerIsTold(Process(st, commands[0], ctxs[0]).server, commands[1..], ctxs[1..], i - 1, resp, v);
    }
  }

  /** From socket to socket, with what is said: a client prints commands within the limits, the
      network cuts the bytes anywhere, and every reply is within the limits. Then the client finds
      one frame for each command, in order, and what it decodes from the frame is the reply to that
      command. */
  lemma ConversationIsUnderstood(commands: seq<seq<string>>, chunks: seq<string>,
                                 st: Server, ctxs: seq<Context>, sent: seq<string>, i: nat)
    requires CC.Concat(chunks) == CC.Concat(CC.Printed(commands))
    requires forall k :: 0 <= k < |commands| ==> FitsParser(commands[k])
    requires CC.Answered(st, CC.ArgsOf(CC.Drain(CC.Concat(chunks)).messages), ctxs, sent)
    requires |ctxs| == |commands| && AllFit(Answers(st, commands, ctxs)) && i < |commands|
    ensures |sent| == |commands| && CC.BytesOf(CC.Drain(CC.Concat(sent)).messages) == sent
    ensures OneFrame(sent[i]) && forall v :: Frame(v, sent[i], 0) ==> Tells(Answers(st, commands, ctxs)[i], v)
  {
    hide Frame, Tells, Renders, FitsReply, FitsParser, CC.Drain, CC.Concat, Process, FairAt, OneFrame;
    RequestsAndReplies(commands, chunks, st, ctxs, sent);
    RecoveredExactly(sent);
    assert Renders(Answers(st, commands, ctxs)[i], sent[i]);
    forall v | Frame(v, sent[i], 0) ensures Tells(Answers(st, commands, ctxs)[i], v) {
      AnswerIsTold(st, commands, ctxs, i, sent[i], v);
    }
  }

  // ----- the words of an error -----

  /** What is sent for each problem, byte for byte; a command is called by its own name. */
  lemma ProblemsRead(p: Problem, resp: string)
    requires Renders(Failure(p), resp)
    ensures p == NotInteger ==> resp == "-" + "ERR value is not an integer or out of range" + "\r\n"
    ensures p == WrongType ==>
              resp == "-" + ("ERR Operation against a key" + " holding the wrong kind of value") + "\r\n"
    ensures p == SyntaxError ==> resp == "-" + "ERR syntax error" + "\r\n"
    ensures p == NoSuchKey ==> resp == "-" + "ERR no such key" + "\r\n"
    ensures p == IndexOutOfRange ==> resp == "-" + "ERR index out of range" + "\r\n"
    ensures p == EmptyCommand ==> resp == "-" + "ERR empty command" + "\r\n"
    ensures p.Exception? ==> resp == "-" + ("ERR " + p.what) + "\r\n"
    ensures p.WrongArgs? ==>
              && resp == "-" + ("ERR wrong number of arguments for '" + LowerName(p.command) + "' command") + "\r\n"
              && CommandNames.Quoted(p.command)
  {
    hide LowerName, CommandNames.Quoted;
    if p.WrongArgs? {
      CommandNames.NamesAreQuoted(p.command);
    }
  }
}
