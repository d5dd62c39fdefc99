/** A reply is exactly one RESP frame if and only if it keeps within the parser's limits and the
    texts from outside contain no terminator; a client that reads a stream of such replies finds
    one frame for each command, in order. */
module ReplyFraming {
  import opened Text
  import opened Decimal
  import opened RespValue
  import opened RespParser
  import opened RespGrammar
  import opened RespFormatter
  import opened StringOrder
  import opened Replies
  import opened CommandHandler
  import opened Runs
  import opened ReplyTexts
  import CC = ClientConnection

  ghost predicate OneFrame(resp: string) {
    exists v :: Frame(v, resp, 0)
  }

  /** What the parser's limits, and the two texts that come from outside, ask of a reply. */
  ghost predicate FitsReply(r: Reply) {
    match r
    case Failure(UnknownCommand(name)) => NoCRLF(name)
    case Failure(Exception(what)) => NoCRLF(what)
    case Failure(_) => true
    case Status(_) => true
    case Number(n) => InInt64(n)
    case Bulk(t) => Short(t)
    case Nil => true
    case Items(items) => FitsParser(items)
    case Names(names) => |names| <= 1000 && forall x :: x in names ==> Short(x)
    case Members(members) => |members| <= 1000 && forall x :: x in members ==> Short(x)
    case Fields(hash, part) =>
      |hash| * Width(part) <= 1000 && forall k :: k in hash ==> AllShort(EntryItems(k, hash, part))
  }

  function Width(part: Part): nat {
    if part == Both then 2 else 1
  }

  predicate AllShort(items: seq<string>) {
    forall i :: 0 <= i < |items| ==> Short(items[i])
  }

  predicate Short(s: string) {
    |s| <= 1_048_576
  }

  // ----- one frame for each reply -----

  lemma FrameOf(resp: string, v: Value)
    requires ReadsBack(resp, v)
    ensures OneFrame(resp)
  {
    ReadsBackIsFrame(resp, v);
  }

  lemma ArrayIsOneFrame(items: seq<string>)
    ensures OneFrame(FormatArray(items)) <==> |items| <= 1000 && AllShort(items)
  {
    hide ReadsBack, Frame, FormatArray;
    ArrayRoundTrip(items);
    if FitsParser(items) {
      FrameOf(FormatArray(items), Array(Bulks(items)));
    }
    forall v | Frame(v, FormatArray(items), 0) ensures FitsParser(items) {
      FramedArrayFits(v, items);
    }
  }

  lemma NumberIsOneFrame(n: int)
    ensures OneFrame(FormatInteger(n)) <==> InInt64(n)
  {
    IntegerRoundTrip(n);
    if InInt64(n) {
      FrameOf(FormatInteger(n), Integer(n));
    }
    forall v | Frame(v, FormatInteger(n), 0) ensures InInt64(n) {
      OnlyIntegerLines(v, n);
    }
  }

  lemma OnlyIntegerLines(v: Value, n: int)
    requires Frame(v, FormatInteger(n), 0)
    ensures InInt64(n)
  {
    var f := FormatInteger(n);
    FrameIsScanned(v, f, 0, "");
    assert f + "" == f;
    assert v.Integer?;
    hide NumberText, Scan, ToString;
    var t :| NumberText(t, v.number) && HeaderLine(f, ':', t);
    assert t == f[1..|f| - 2] == ToString(n);
    NumberOfText(n, v.number);
    NumbersFit(t, v.number);
  }

  lemma NumbersFit(t: string, n: int)
    requires NumberText(t, n)
    ensures InInt64(n)
  {
  }

  lemma BulkIsOneFrame(t: string)
    ensures OneFrame(FormatBulkString(t)) <==> Short(t)
  {
    hide Frame, Scan, FormatBulkString;
    BulkStringRoundTrip(t);
    if Short(t) {
      FrameOf(FormatBulkString(t), BulkString(t));
    } else {
      forall v | Frame(v, FormatBulkString(t), 0) ensures false {
        FrameIsScanned(v, FormatBulkString(t), 0, "");
        LongBulkIsRejected(t, "", 0);
      }
    }
  }

  lemma TextIsOneFrame(text: string)
    ensures OneFrame(FormatError(text)) <==> NoCRLF(text)
  {
    SimpleStringRoundTrip(text);
    hide NoCRLF;
    if NoCRLF(text) {
      FrameOf(FormatError(text), Error(text));
    }
    forall v | Frame(v, FormatError(text), 0) ensures NoCRLF(text) {
      OnlyErrorLines(v, text);
    }
  }

  lemma OnlyErrorLines(v: Value, text: string)
    requires Frame(v, FormatError(text), 0)
    ensures NoCRLF(text)
  {
    var f := FormatError(text);
    FrameIsScanned(v, f, 0, "");
    assert f + "" == f;
    assert v.Error?;
    assert f[1..|f| - 2] == text;
    assert v.text == f[1..|f| - 2];
  }

  lemma OrderOfSet(order: seq<string>, names: set<string>)
    requires multiset(order) == multiset(names)
    ensures |order| == |names| && forall x :: x in order <==> x in names
  {
    assert |multiset(order)| == |order| && |multiset(names)| == |names|;
    forall x ensures x in order <==> x in names {
      assert x in order <==> x in multiset(order);
      assert x in names <==> x in multiset(names);
    }
  }

  lemma MembersAreShort(order: seq<string>, names: set<string>)
    requires forall x :: x in order <==> x in names
    ensures AllShort(order) <==> forall x :: x in names ==> Short(x)
  {
    if AllShort(order) {
      forall x | x in names ensures Short(x) {
        assert x in order;
        var i :| 0 <= i < |order| && order[i] == x;
      }
    }
    if forall x :: x in names ==> Short(x) {
      forall i | 0 <= i < |order| ensures Short(order[i]) {
        assert order[i] in order;
      }
    }
  }

  lemma NamesAreOneFrame(order: seq<string>, names: set<string>)
    requires multiset(order) == multiset(names)
    ensures OneFrame(FormatArray(order)) <==> |names| <= 1000 && forall x :: x in names ==> Short(x)
  {
    hide AllShort, OneFrame, FormatArray;
    OrderOfSet(order, names);
    MembersAreShort(order, names);
    ArrayIsOneFrame(order);
  }

  lemma ShortConcat(a: seq<string>, b: seq<string>)
    ensures AllShort(a + b) <==> AllShort(a) && AllShort(b)
  {
    assert forall i :: 0 <= i < |a| ==> (a + b)[i] == a[i];
    assert forall i :: 0 <= i < |b| ==> (a + b)[|a| + i] == b[i];
  }

  lemma {:induction false} ListingFits(order: seq<string>, hash: map<string, string>, part: Part)
    ensures |Listing(order, hash, part)| == |order| * Width(part)
    ensures AllShort(Listing(order, hash, part)) <==>
              forall i :: 0 <= i < |order| ==> AllShort(EntryItems(order[i], hash, part))
  {
    hide AllShort, EntryItems, Width;
    if order == [] {
      NothingIsLong();
    } else {
      var n := |order| - 1;
      var before, last := order[..n], EntryItems(order[n], hash, part);
      ListingFits(before, hash, part);
      EntryWidth(order[n], hash, part);
      ShortConcat(Listing(before, hash, part), last);
      assert |order| * Width(part) == n * Width(part) + Width(part);
      forall i | 0 <= i < n ensures before[i] == order[i] {
      }
    }
  }

  lemma EntryWidth(k: string, hash: map<string, string>, part: Part)
    ensures |EntryItems(k, hash, part)| == Width(part)
  {
  }

  lemma NothingIsLong()
    ensures AllShort([])
  {
  }

  lemma FieldsAreShort(order: seq<string>, hash: map<string, string>, part: Part)
    requires multiset(order) == multiset(hash.Keys)
    ensures OneFrame(FormatArray(Listing(order, hash, part))) <==>
              |hash| * Width(part) <= 1000 && forall k :: k in hash ==> AllShort(EntryItems(k, hash, part))
  {
    hide AllShort, OneFrame, FormatArray, EntryItems, Listing, Width;
    OrderOfSet(order, hash.Keys);
    ListingFits(order, hash, part);
    ArrayIsOneFrame(Listing(order, hash, part));
    assert |order| == |hash|;
    if forall i :: 0 <= i < |order| ==> AllShort(EntryItems(order[i], hash, part)) {
      forall k | k in hash ensures AllShort(EntryItems(k, hash, part)) {
        var i :| 0 <= i < |order| && order[i] == k;
      }
    }
    if forall k :: k in hash ==> AllShort(EntryItems(k, hash, part)) {
      forall i | 0 <= i < |order| ensures AllShort(EntryItems(order[i], hash, part)) {
        assert order[i] in order;
      }
    }
  }

  lemma FailureIsOneFrame(p: Problem)
    ensures OneFrame(FormatError(Message(p))) <==> FitsReply(Failure(p))
  {
    TextIsOneFrame(Message(p));
    if p.UnknownCommand? {
      OutsideTextsClean(p.name);
    } else if p.Exception? {
      OutsideTextsClean(p.what);
    } else {
      MessagesClean(p);
    }
    hide NoCRLF, Message, OneFrame;
  }

  lemma RenderedIsOneFrame(r: Reply, resp: string)
    requires Renders(r, resp) && StatusClean(r)
    ensures OneFrame(resp) <==> FitsReply(r)
  {
    hide ReadsBack, FormatArray, OneFrame, Listing, NoCRLF, Message, Clean, AllShort, Ascending;
    match r
    case Failure(p) => FailureIsOneFrame(p);
    case Status(t) =>
      CleanText(t);
      SimpleStringRoundTrip(t);
      FrameOf(resp, SimpleString(t));
    case Number(n) => NumberIsOneFrame(n);
    case Bulk(t) => BulkIsOneFrame(t);
    case Nil =>
      NullRoundTrip();
      FrameOf(resp, Null);
    case Items(items) =>
      ArrayIsOneFrame(items);
      FitsIsShort(items);
    case Names(names) =>
      var order :| multiset(order) == multiset(names) && resp == FormatArray(order);
      NamesAreOneFrame(order, names);
    case Members(members) =>
      var order :| InOrder(order, members) && resp == FormatArray(order);
      NamesAreOneFrame(order, members);
    case Fields(hash, part) =>
      var order :| multiset(order) == multiset(hash.Keys) && resp == FormatArray(Listing(order, hash, part));
      FieldsAreShort(order, hash, part);
  }

  lemma FitsIsShort(items: seq<string>)
    ensures FitsParser(items) <==> |items| <= 1000 && AllShort(items)
  {
  }

  /** The bytes processCommand returns are one frame exactly when the reply is within the
      parser's limits and the text it takes from outside contains no terminator. */
  lemma ReplyIsOneFrame(st: Server, args: seq<string>, ctx: Context, resp: string)
    requires Renders(Process(st, args, ctx).reply, resp)
    ensures OneFrame(resp) <==> FitsReply(Process(st, args, ctx).reply)
  {
    if args != [] && CommandOf(st.commands, args).Some? {
      ExecStatusClean(CommandOf(st.commands, args).value, args, Tick(st, ctx.now), ctx);
    }
    hide Exec, Renders, FitsReply, OneFrame;
    RenderedIsOneFrame(Process(st, args, ctx).reply, resp);
  }

  /** In particular the reply to an unknown command is one frame exactly when the name, as the
      client wrote it, contains no terminator. */
  lemma UnknownCommandReply(name: string)
    ensures OneFrame(FormatError(Message(UnknownCommand(name)))) <==> NoCRLF(name)
  {
    FailureIsOneFrame(UnknownCommand(name));
  }

  // ----- the reply stream -----

  /** Frames sent one after the other are found again one by one, with nothing left over. */
  lemma {:induction false} FramesAreRecovered(resps: seq<string>)
    requires forall i :: 0 <= i < |resps| ==> OneFrame(resps[i])
    ensures CC.BytesOf(CC.Drain(CC.Concat(resps)).messages) == resps
    ensures CC.Drain(CC.Concat(resps)).rest == ""
    decreases |resps|
  {
    hide Scan, Frame, Arguments;
    if resps != [] {
      var f, tail := resps[0], CC.Concat(resps[1..]);
      assert OneFrame(f);
      var v :| Frame(v, f, 0);
      FrameIsScanned(v, f, 0, tail);
      FramesAreRecovered(resps[1..]);
      assert (f + tail)[|f|..] == tail && (f + tail)[..|f|] == f;
      CC.DrainStep(f + tail);
      var all, later := CC.Drain(f + tail).messages, CC.Drain(tail).messages;
      assert CC.BytesOf(all) == [f] + CC.BytesOf(later);
    }
  }

  lemma {:induction false} FramedMessageIsFrame(s: string, messages: seq<CC.Message>, rest: string, i: nat)
    requires CC.Framing(s, messages, rest) && i < |messages|
    ensures OneFrame(messages[i].bytes)
    decreases |messages|
  {
    hide Frame;
    if i > 0 {
      FramedMessageIsFrame(s[|messages[0].bytes|..], messages[1..], rest, i - 1);
    }
  }

  /** A client that reads the stream of responses finds exactly them, one by one and with nothing
      left over. */
  ghost predicate Recovered(resps: seq<string>) {
    var d := CC.Drain(CC.Concat(resps));
    CC.BytesOf(d.messages) == resps && d.rest == ""
  }

  lemma RecoveredExactly(resps: seq<string>)
    ensures Recovered(resps) <==> forall i :: 0 <= i < |resps| ==> OneFrame(resps[i])
  {
    hide OneFrame, CC.Drain, CC.Framing, CC.Concat;
    if Recovered(resps) {
      var d := CC.Drain(CC.Concat(resps));
      CC.DrainIsTheFraming(CC.Concat(resps), d.messages, d.rest);
      forall i | 0 <= i < |resps| ensures OneFrame(resps[i]) {
        assert CC.BytesOf(d.messages)[i] == d.messages[i].bytes;
        FramedMessageIsFrame(CC.Concat(resps), d.messages, d.rest, i);
      }
    }
    if forall i :: 0 <= i < |resps| ==> OneFrame(resps[i]) {
      FramesAreRecovered(resps);
    }
  }

  lemma {:induction false} ExchangeIsOneFrame(st: Server, events: seq<Event>, i: nat, resp: string)
    requires i < |Conversation(st, events)|
    requires Renders(Conversation(st, events)[i].reply, resp)
    ensures OneFrame(resp) <==> FitsReply(Conversation(st, events)[i].reply)
    decreases |events|
  {
    hide OneFrame, Renders, FitsReply, Process;
    var e := events[0];
    if e.Sweep? {
      ExchangeIsOneFrame(After(st, e), events[1..], i, resp);
    } else if i == 0 {
      ReplyIsOneFrame(st, e.args, e.ctx, resp);
    } else {
      ExchangeIsOneFrame(After(st, e), events[1..], i - 1, resp);
    }
  }

  function RepliesIn(talk: seq<Exchange>): seq<Reply> {
    seq(|talk|, i requires 0 <= i < |talk| => talk[i].reply)
  }

  ghost predicate AllFit(replies: seq<Reply>) {
    forall i :: 0 <= i < |replies| ==> FitsReply(replies[i])
  }

  /** Over any run the responses can be told apart, one for each command and in order, exactly
      when every reply is within the limits. */
  lemma RepliesMatchCommands(st: Server, events: seq<Event>, resps: seq<string>)
    requires |resps| == |Conversation(st, events)|
    requires forall i :: 0 <= i < |resps| ==> Renders(Conversation(st, events)[i].reply, resps[i])
    ensures Recovered(resps) <==> AllFit(RepliesIn(Conversation(st, events)))
  {
    hide OneFrame, Renders, FitsReply, Recovered;
    RecoveredExactly(resps);
    var replies := RepliesIn(Conversation(st, events));
    forall i | 0 <= i < |resps| ensures OneFrame(resps[i]) <==> FitsReply(replies[i]) {
      ExchangeIsOneFrame(st, events, i, resps[i]);
    }
  }

  /** The same for what a connection sent in answer to the commands it dispatched. */
  lemma SentMatchesCommands(st: Server, commands: seq<seq<string>>, ctxs: seq<Context>, sent: seq<string>)
    requires CC.Answered(st, commands, ctxs, sent)
    ensures Recovered(sent) <==> AllFit(Answers(st, commands, ctxs))
  {
    hide OneFrame, Renders, FitsReply, Recovered, FairAt, Process, Served, Issued;
    AnswersAreTheConversation(st, commands, ctxs);
    RepliesMatchCommands(st, Issued(commands, ctxs), sent);
    assert RepliesIn(Conversation(st, Issued(commands, ctxs))) == Answers(st, commands, ctxs);
  }

  /** From socket to socket: a client prints commands within the limits and the network cuts the
      bytes anywhere. Then the server dispatches exactly those commands, and the client finds in
      what comes back exactly one frame for each of them if and only if every reply is within
      the limits. */
  lemma RequestsAndReplies(commands: seq<seq<string>>, chunks: seq<string>,
                           st: Server, ctxs: seq<Context>, sent: seq<string>)
    requires CC.Concat(chunks) == CC.Concat(CC.Printed(commands))
    requires forall i :: 0 <= i < |commands| ==> FitsParser(commands[i])
    requires CC.Answered(st, CC.ArgsOf(CC.Drain(CC.Concat(chunks)).messages), ctxs, sent)
    ensures CC.ArgsOf(CC.Drain(CC.Concat(chunks)).messages) == commands
    ensures CC.Drain(CC.Concat(chunks)).rest == ""
    ensures |sent| == |ctxs| == |commands|
    ensures Recovered(sent) <==> AllFit(Answers(st, commands, ctxs))
  {
    hide Scan, FitsReply, Recovered, CC.Drain;
    CC.PipelineIsDispatched(commands, "");
    var s := CC.Concat(CC.Printed(commands));
    assert s + "" == s;
    CC.NothingToDrain();
    assert commands + [] == commands;
    SentMatchesCommands(st, commands, ctxs, sent);
  }
}
