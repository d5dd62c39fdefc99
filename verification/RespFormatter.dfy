/** The printer of src/resp/resp_formatter.cpp, and exactly when the parser inverts it. */
module RespFormatter {
  import opened Text
  import opened Decimal
  import opened RespValue
  import opened RespParser
  import opened RespGrammar

  function FormatError(message: string): string {
    "-" + message + CRLF
  }

  function FormatSimpleString(str: string): string {
    "+" + str + CRLF
  }

  function FormatBulkString(str: string): string {
    "$" + ToString(|str|) + CRLF + str + CRLF
  }

  function FormatInteger(value: int): string {
    ":" + ToString(value) + CRLF
  }

  function FormatNull(): string {
    "$-1" + CRLF
  }

  function FormatArray(items: seq<string>): string {
    "*" + ToString(|items|) + CRLF + FormatBulks(items)
  }

  function FormatBulks(items: seq<string>): string {
    if items == [] then "" else FormatBulkString(items[0]) + FormatBulks(items[1..])
  }

  lemma {:induction false} FormatBulksSnoc(items: seq<string>, item: string)
    ensures FormatBulks(items + [item]) == FormatBulks(items) + FormatBulkString(item)
  {
    hide FormatBulkString;
    if items == [] {
      assert [item][1..] == [];
    } else {
      assert (items + [item])[1..] == items[1..] + [item];
      FormatBulksSnoc(items[1..], item);
    }
  }

  /** `RESPFormatter::formatArray`. */
  method PrintArray(items: seq<string>) returns (response: string)
    ensures response == FormatArray(items)
  {
    hide FormatBulkString;
    var header := "*" + ToString(|items|) + CRLF;
    response := header;
    for i := 0 to |items|
      invariant response == header + FormatBulks(items[..i])
    {
      FormatBulksSnoc(items[..i], items[i]);
      assert items[..i] + [items[i]] == items[..i + 1];
      response := response + FormatBulkString(items[i]);
    }
    assert items[..|items|] == items;
  }

  // ----- printing, then parsing -----

  /** The parser reads `f` back as `v`, consuming all of `f`, whatever bytes follow. */
  ghost predicate ReadsBack(f: string, v: Value) {
    forall rest: string :: Scan(f + rest, 0) == Done(v, |f|)
  }

  lemma ReadsBackIsFrame(f: string, v: Value)
    ensures ReadsBack(f, v) <==> Frame(v, f, 0)
  {
    hide Frame, Scan;
    if Frame(v, f, 0) {
      forall rest: string ensures Scan(f + rest, 0) == Done(v, |f|) {
        FrameIsScanned(v, f, 0, rest);
      }
    }
    if ReadsBack(f, v) {
      assert f + "" == f;
      ParserExact(f, v, |f|, 0);
      assert f[..|f|] == f;
    }
  }

  lemma NumberHeader(marker: char, n: int)
    ensures HeaderLine([marker] + ToString(n) + CRLF, marker, ToString(n))
    ensures InInt64(n) ==> NumberText(ToString(n), n)
  {
    ToStringNoCRLF(n);
    ToStringRoundTrip(n);
    SafeInt64Exact(ToString(n), n);
  }

  /** A status or error line comes back exactly when its text contains no terminator. */
  lemma SimpleStringRoundTrip(t: string)
    ensures ReadsBack(FormatSimpleString(t), SimpleString(t)) <==> NoCRLF(t)
    ensures ReadsBack(FormatError(t), Error(t)) <==> NoCRLF(t)
  {
    ReadsBackIsFrame(FormatSimpleString(t), SimpleString(t));
    ReadsBackIsFrame(FormatError(t), Error(t));
  }

  /** An integer comes back exactly when it fits in 64 bits. */
  lemma IntegerRoundTrip(n: int)
    ensures ReadsBack(FormatInteger(n), Integer(n)) <==> InInt64(n)
  {
    ReadsBackIsFrame(FormatInteger(n), Integer(n));
    NumberHeader(':', n);
  }

  lemma NullText()
    ensures ToString(-1) == "-1"
  {
    assert Digits(1) == [Digit(1)];
  }

  lemma NullRoundTrip()
    ensures ReadsBack(FormatNull(), Null)
  {
    NullText();
    NumberHeader('$', -1);
    hide Scan, NumberText, HeaderLine, ToString, ReadsBack;
    assert FormatNull() == ['$'] + ToString(-1) + CRLF;
    assert Frame(Null, FormatNull(), 0);
    ReadsBackIsFrame(FormatNull(), Null);
  }

  lemma BulkIsFrame(s: string, depth: nat)
    requires depth <= 100
    ensures Frame(BulkString(s), FormatBulkString(s), depth) <==> |s| <= 1_048_576
  {
    hide NumberText, HeaderLine;
    NumberHeader('$', |s|);
    if |s| <= 1_048_576 {
      var h := "$" + ToString(|s|) + CRLF;
      assert FormatBulkString(s) == h + s + CRLF;
      assert NumberText(ToString(|s|), |s|) && HeaderLine(h, '$', ToString(|s|));
    }
  }

  /** A bulk string comes back, byte for byte, exactly when it is at most 1 MiB long. */
  lemma BulkStringRoundTrip(s: string)
    ensures ReadsBack(FormatBulkString(s), BulkString(s)) <==> |s| <= 1_048_576
  {
    ReadsBackIsFrame(FormatBulkString(s), BulkString(s));
    BulkIsFrame(s, 0);
  }

  /** An argument vector within the parser's limits. */
  ghost predicate FitsParser(items: seq<string>) {
    |items| <= 1000 && forall i :: 0 <= i < |items| ==> |items[i]| <= 1_048_576
  }

  lemma {:induction false} BulksAreFrames(items: seq<string>, depth: nat)
    requires depth <= 100 && forall i :: 0 <= i < |items| ==> |items[i]| <= 1_048_576
    ensures Frames(Bulks(items), FormatBulks(items), depth)
  {
    hide Frame, FormatBulkString;
    if items != [] {
      var f, body := FormatBulkString(items[0]), FormatBulks(items);
      BulkIsFrame(items[0], depth);
      BulksAreFrames(items[1..], depth);
      assert Bulks(items)[1..] == Bulks(items[1..]);
      assert body[..|f|] == f && body[|f|..] == FormatBulks(items[1..]);
    }
  }

  // ----- what is beyond the limits is no frame at all -----

  lemma NumberOfText(n: int, m: int)
    requires NumberText(ToString(n), m)
    ensures n == m
  {
    SafeInt64Exact(ToString(n), m);
    ToStringRoundTrip(n);
  }

  /** A bulk string beyond 1 MiB is rejected once its header is there, whatever follows. */
  lemma LongBulkIsRejected(s: string, rest: string, depth: nat)
    requires |s| > 1_048_576
    ensures !Scan(FormatBulkString(s) + rest, depth).Done?
  {
    hide NumberText, HeaderLine, CountOf;
    NumberHeader('$', |s|);
    var h, f := "$" + ToString(|s|) + CRLF, FormatBulkString(s) + rest;
    assert f == h + (s + CRLF + rest);
    LineOfHeader(h, '$', ToString(|s|), s + CRLF + rest);
    if CountOf(ToString(|s|)).Done? {
      CountIsNumber(ToString(|s|));
      NumberOfText(|s|, CountOf(ToString(|s|)).value);
    }
  }

  lemma {:induction false} ScannedItemsAreShort(items: seq<string>, depth: nat)
    requires depth <= 100 && ScanMany(FormatBulks(items), |items|, depth).Done?
    ensures forall i :: 0 <= i < |items| ==> |items[i]| <= 1_048_576
  {
    hide Frame, FormatBulkString, Scan;
    if items != [] {
      var f, tail := FormatBulkString(items[0]), FormatBulks(items[1..]);
      if |items[0]| > 1_048_576 {
        LongBulkIsRejected(items[0], tail, depth);
      }
      BulkIsFrame(items[0], depth);
      FrameIsScanned(BulkString(items[0]), f, depth, tail);
      assert (f + tail)[|f|..] == tail;
      ScannedItemsAreShort(items[1..], depth);
    }
  }

  lemma ScannedArrayHeader(s: string, t: string)
    requires s != "" && s[0] == '*' && Line(s) == Some(t) && Scan(s, 0).Done?
    ensures CountOf(t).Done? && CountOf(t).used == |t| + 3 <= |s|
    ensures var n := CountOf(t).value; n == -1 || (0 <= n <= 1000 && ScanMany(s[|t| + 3..], n, 1).Done?)
  {
    hide SafeInt32, Line, ScanMany;
  }

  lemma PrintedArrayScan(items: seq<string>)
    requires Scan(FormatArray(items), 0).Done?
    ensures |items| <= 1000 && ScanMany(FormatBulks(items), |items|, 1).Done?
  {
    NumberHeader('*', |items|);
    hide NumberText, HeaderLine, CountOf, FormatBulks, ToString, Line, ScanMany, Scan;
    var t, body := ToString(|items|), FormatBulks(items);
    var h := "*" + t + CRLF;
    LineOfHeader(h, '*', t, body);
    ScannedArrayHeader(h + body, t);
    CountIsNumber(t);
    NumberOfText(|items|, CountOf(t).value);
    assert (h + body)[|h|..] == body;
  }

  /** A printed argument vector beyond the parser's limits is not a frame of anything. */
  lemma FramedArrayFits(v: Value, items: seq<string>)
    requires Frame(v, FormatArray(items), 0)
    ensures FitsParser(items)
  {
    hide Frame, FormatArray, Scan, ScanMany;
    FrameIsScanned(v, FormatArray(items), 0, "");
    assert FormatArray(items) + "" == FormatArray(items);
    PrintedArrayScan(items);
    ScannedItemsAreShort(items, 1);
  }

  /** A printed argument vector comes back exactly when it is within the parser's limits. */
  lemma ArrayRoundTrip(items: seq<string>)
    ensures ReadsBack(FormatArray(items), Array(Bulks(items))) <==> FitsParser(items)
    ensures Arguments(Array(Bulks(items))) == items
  {
    hide NumberText, HeaderLine, Scan;
    ArgumentsOfBulks(items);
    ReadsBackIsFrame(FormatArray(items), Array(Bulks(items)));
    NumberHeader('*', |items|);
    if FitsParser(items) {
      BulksAreFrames(items, 1);
      var h, body := "*" + ToString(|items|) + CRLF, FormatBulks(items);
      assert NumberText(ToString(|items|), |items|) && HeaderLine(h, '*', ToString(|items|));
      assert FormatArray(items) == h + body;
    }
    if Frame(Array(Bulks(items)), FormatArray(items), 0) {
      FramedArrayFits(Array(Bulks(items)), items);
    }
  }
}
