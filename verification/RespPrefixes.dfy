/** Which beginnings of a stream can still become a complete message. The parser says that it needs
    more bytes for some that no bytes can help; `Viable` tells the two apart, exactly. */
module RespPrefixes {
  import opened Text
  import opened Decimal
  import opened RespValue
  import opened RespParser
  import opened RespGrammar
  import opened ClientConnection

  // ----- the header line -----

  /** `u` can become the text of a number from `lo` to `hi` (a range around 0): blanks, a sign
      perhaps, and digits, which are within the range already. */
  predicate NumberFront(u: string, lo: int, hi: int) {
    var r := u[LeadingSpaces(u)..];
    AllDigits(r[SignLength(r)..]) && (SignLength(r) < |r| ==> lo <= IntegerValue(r) <= hi)
  }

  /** `u` is such a number in full, and the first byte of the terminator. */
  predicate NumberAndCR(u: string, lo: int, hi: int) {
    u != "" && u[|u| - 1] == '\r' &&
    match SafeInt64(u[..|u| - 1]) case None => false case Some(n) => lo <= n <= hi
  }

  predicate HeaderFront(s: string, lo: int, hi: int)
    requires s != ""
  {
    NumberFront(s[1..], lo, hi) || NumberAndCR(s[1..], lo, hi)
  }

  /** What there is of the terminator after the `n` bytes from `b` is right. */
  predicate BodyFront(s: string, b: nat, n: nat) {
    (b + n < |s| ==> s[b + n] == '\r') && (b + n + 1 < |s| ==> s[b + n + 1] == '\n')
  }

  /** At the innermost level there is no room for elements. */
  function MaxCount(depth: nat): int {
    if depth < 100 then 1000 else 0
  }

  /** `s` is the beginning of a message at nesting level `depth`, or one and more. */
  predicate Viable(s: string, depth: nat)
    decreases |s|, 0, 1
  {
    depth <= 100 &&
    (s == "" ||
     match s[0]
     case '+' => true
     case '-' => true
     case ':' => if Line(s).None? then HeaderFront(s, INT64_MIN, INT64_MAX) else SafeInt64(Line(s).value).Some?
     case '$' => if Line(s).None? then HeaderFront(s, -1, 1_048_576) else ViableBulk(s)
     case '*' => if Line(s).None? then HeaderFront(s, -1, MaxCount(depth)) else ViableArray(s, depth)
     case _ => false)
  }

  predicate ViableBulk(s: string)
    requires s != ""
  {
    match Count(s)
    case Done(n, b) => n == -1 || (0 <= n <= 1_048_576 && BodyFront(s, b, n))
    case _ => false
  }

  predicate ViableArray(s: string, depth: nat)
    requires s != ""
    decreases |s|, 0, 0
  {
    match Count(s)
    case Done(n, b) => n == -1 || (0 <= n <= 1000 && ViableMany(s[b..], n, depth + 1))
    case _ => false
  }

  /** The same for `n` messages one after the other. */
  predicate ViableMany(s: string, n: nat, depth: nat)
    decreases |s|, 1, n
  {
    n == 0 ||
    match Scan(s, depth)
    case Done(v, used) => ViableMany(s[used..], n - 1, depth)
    case NeedMore => Viable(s, depth)
    case Bad => false
  }

  // ----- what is accepted begins with a viable front -----

  lemma {:induction false} ValueGrows(d: string, e: string)
    requires AllDigits(d + e)
    ensures 0 <= Decimal.Value(d) <= Decimal.Value(d + e)
    decreases |d| + |e|
  {
    if e != "" {
      var n := |e| - 1;
      assert (d + e)[..|d| + n] == d + e[..n];
      assert IsDigit((d + e)[|d| + n]);
      ValueGrows(d, e[..n]);
    } else if d != "" {
      assert d + e == d;
      var n := |d| - 1;
      assert IsDigit(d[n]);
      assert d[..n] + "" == d[..n];
      ValueGrows(d[..n], "");
    } else {
      assert d + e == "";
    }
  }

  lemma FrontOfInteger(r: string, x: string, n: int, lo: int, hi: int)
    requires r != "" && IntegerText(r + x) && IntegerValue(r + x) == n && lo <= 0 <= hi && lo <= n <= hi
    ensures AllDigits(r[SignLength(r)..]) && (SignLength(r) < |r| ==> lo <= IntegerValue(r) <= hi)
  {
    hide Decimal.Value;
    var q, k := r + x, SignLength(r);
    assert q[0] == r[0];
    assert q[k..] == r[k..] + x;
    assert forall i :: 0 <= i < |r| - k ==> r[k..][i] == q[k..][i];
    ValueGrows(r[k..], x);
  }

  lemma FrontAfterBlanks(u: string, x: string, w: nat, n: int, lo: int, hi: int)
    requires w < |u| && AllSpaces((u + x)[..w]) && IntegerText((u + x)[w..]) && IntegerValue((u + x)[w..]) == n
    requires lo <= 0 <= hi && lo <= n <= hi
    ensures NumberFront(u, lo, hi)
  {
    hide AllSpaces, IntegerText, IntegerValue, AllDigits, LeadingSpaces, SignLength;
    var t, r := u + x, u[w..];
    assert u[..w] == t[..w] && t[w..] == r + x && r[0] == t[w..][0] == u[w];
    NumberNotSpace(t[w..]);
    LeadingSpacesIs(u, w);
    FrontOfInteger(r, x, n, lo, hi);
  }

  lemma FrontOfNumber(u: string, x: string, n: int, lo: int, hi: int)
    requires NumberText(u + x, n) && lo <= 0 <= hi && lo <= n <= hi
    ensures NumberFront(u, lo, hi)
  {
    var t := u + x;
    var w: nat :| w <= |t| && AllSpaces(t[..w]) && IntegerText(t[w..]) && IntegerValue(t[w..]) == n;
    hide AllSpaces, IntegerText, IntegerValue, Decimal.Value, LeadingSpaces, NumberFront, NumberText;
    if |u| <= w {
      FrontIsBlank(u, x, w);
      BlankFront(u, lo, hi);
    } else {
      FrontAfterBlanks(u, x, w, n, lo, hi);
    }
  }

  lemma BlankFront(u: string, lo: int, hi: int)
    requires LeadingSpaces(u) == |u|
    ensures NumberFront(u, lo, hi)
  {
    hide LeadingSpaces;
    assert u[|u|..] == "";
  }

  lemma NumberNotSpace(q: string)
    requires IntegerText(q)
    ensures !IsSpace(q[0])
  {
    assert !IsSign(q[0]) ==> q[0] == q[0..][0];
  }

  lemma FrontIsBlank(u: string, x: string, w: nat)
    requires |u| <= w <= |u + x| && AllSpaces((u + x)[..w])
    ensures LeadingSpaces(u) == |u|
  {
    assert forall i :: 0 <= i < |u| ==> u[i] == (u + x)[..w][i];
    LeadingSpacesIs(u, |u|);
  }

  /** A header line that is complete in `s + t` but not in `s`. */
  lemma HeaderBegins(s: string, t: string, lo: int, hi: int, n: int)
    requires s != "" && Line(s).None? && Line(s + t).Some?
    requires NumberText(Line(s + t).value, n) && lo <= 0 <= hi && lo <= n <= hi
    ensures HeaderFront(s, lo, hi)
  {
    hide NumberText, NumberFront;
    var u, e, text := s[1..], FindCRLF(s + t, 1).value, Line(s + t).value;
    FindCRLFIsFirst(s, 1);
    assert text == (s + t)[1..e];
    if e < |s| {
      assert !CRLFAt(s, e);
      assert u[..|u| - 1] == text && u[|u| - 1] == '\r';
      SafeInt64Exact(text, n);
    } else {
      var x := t[..e - |s|];
      assert text == u + x;
      FrontOfNumber(u, x, n, lo, hi);
    }
  }

  lemma BodyBegins(s: string, t: string, b: nat, n: nat)
    requires ScanBody(s + t, b, n).Done?
    ensures BodyFront(s, b, n)
  {
    assert b + n < |s| ==> s[b + n] == (s + t)[b + n];
    assert b + n + 1 < |s| ==> s[b + n + 1] == (s + t)[b + n + 1];
  }

  lemma TooDeep(s: string, n: nat, depth: nat)
    requires depth > 100 && n > 0
    ensures !ScanMany(s, n, depth).Done?
  {
  }

  lemma {:induction false} AcceptedIsViable(s: string, t: string, depth: nat)
    requires Scan(s + t, depth).Done?
    ensures Viable(s, depth)
    decreases |s|, 0
  {
    if s != "" {
      assert (s + t)[0] == s[0];
      if Line(s).Some? {
        LineExtends(s, t);
      }
      match s[0]
      case ':' => AcceptedInteger(s, t);
      case '$' => AcceptedBulk(s, t);
      case '*' => AcceptedArray(s, t, depth);
      case _ =>
    }
  }

  lemma AcceptedInteger(s: string, t: string)
    requires s != "" && ScanInteger(s + t).Done? && (Line(s).Some? ==> Line(s + t) == Line(s))
    ensures if Line(s).None? then HeaderFront(s, INT64_MIN, INT64_MAX) else SafeInt64(Line(s).value).Some?
  {
    hide NumberText, HeaderFront;
    if Line(s).None? {
      var n := SafeInt64(Line(s + t).value).value;
      SafeInt64Exact(Line(s + t).value, n);
      HeaderBegins(s, t, INT64_MIN, INT64_MAX, n);
    }
  }

  lemma AcceptedBulk(s: string, t: string)
    requires s != "" && ScanBulkString(s + t).Done? && (Line(s).Some? ==> Line(s + t) == Line(s))
    ensures if Line(s).None? then HeaderFront(s, -1, 1_048_576) else ViableBulk(s)
  {
    hide NumberText, HeaderFront, CountOf, Line, ScanBody, BodyFront;
    var n, b := Count(s + t).value, Count(s + t).used;
    if Line(s).None? {
      CountIsNumber(Line(s + t).value);
      HeaderBegins(s, t, -1, 1_048_576, n);
    } else if n != -1 {
      BodyBegins(s, t, b, n);
    }
  }

  lemma {:induction false} AcceptedArray(s: string, t: string, depth: nat)
    requires s != "" && ScanArray(s + t, depth).Done? && (Line(s).Some? ==> Line(s + t) == Line(s))
    ensures if Line(s).None? then HeaderFront(s, -1, MaxCount(depth)) else ViableArray(s, depth)
    decreases |s|, 0, 0
  {
    hide NumberText, HeaderFront, CountOf, Line, ViableMany, ScanMany;
    var n, b := Count(s + t).value, Count(s + t).used;
    if Line(s).None? {
      CountIsNumber(Line(s + t).value);
      if depth >= 100 && n > 0 {
        TooDeep((s + t)[b..], n, depth + 1);
      }
      HeaderBegins(s, t, -1, MaxCount(depth), n);
    } else if n != -1 {
      CountInside(s);
      assert (s + t)[b..] == s[b..] + t;
      AcceptedMany(s[b..], t, n, depth + 1);
    }
  }

  lemma CountInside(s: string)
    requires s != "" && Count(s).Done?
    ensures 0 < Count(s).used <= |s|
  {
  }

  lemma {:induction false} AcceptedMany(s: string, t: string, n: nat, depth: nat)
    requires ScanMany(s + t, n, depth).Done?
    ensures ViableMany(s, n, depth)
    decreases |s|, 1, n
  {
    hide Scan, Viable;
    if n > 0 {
      match Scan(s, depth)
      case Done(v, used) =>
        ScanExtends(s, t, depth);
        assert (s + t)[used..] == s[used..] + t;
        AcceptedMany(s[used..], t, n - 1, depth);
      case NeedMore => AcceptedIsViable(s, t, depth);
      case Bad => ScanExtends(s, t, depth);
    }
  }

  // ----- a viable front can be completed -----

  /** A run of bytes for the body of a bulk string. */
  function Filler(n: nat): string {
    seq(n, _ => 'x')
  }

  lemma ViableIsNotRejected(s: string, depth: nat)
    requires Viable(s, depth)
    ensures !Scan(s, depth).Bad?
    decreases |s|, 0
  {
    if s != "" && s[0] == '*' && Line(s).Some? {
      var n, b := Count(s).value, Count(s).used;
      if n != -1 {
        ViableAreNotRejected(s[b..], n, depth + 1);
      }
    }
  }

  lemma {:induction false} ViableAreNotRejected(s: string, n: nat, depth: nat)
    requires ViableMany(s, n, depth)
    ensures !ScanMany(s, n, depth).Bad?
    decreases |s|, 1, n
  {
    hide Scan, Viable;
    if n > 0 && Scan(s, depth).Done? {
      ViableAreNotRejected(s[Scan(s, depth).used..], n - 1, depth);
    }
  }

  lemma HeaderOfText(s: string, t: string, text: string)
    requires s != "" && NoCRLF(text) && s[1..] + t == text + CRLF
    ensures HeaderLine(s + t, s[0], text)
  {
    assert s + t == [s[0]] + (s[1..] + t);
  }

  lemma CompleteAfterCR(s: string, lo: int, hi: int) returns (t: string, text: string, n: int)
    requires s != "" && Line(s).None? && NumberAndCR(s[1..], lo, hi)
    ensures HeaderLine(s + t, s[0], text) && NumberText(text, n) && lo <= n <= hi
  {
    hide NumberText, HeaderLine, Line, SafeInt64, NoCRLF;
    var u := s[1..];
    text, t := u[..|u| - 1], "\n";
    n := SafeInt64(text).value;
    SafeInt64Exact(text, n);
    OpenLine(s, "");
    NoCRLFPrefix(text, u);
    HeaderOfText(s, t, text);
  }

  lemma CompleteNumber(s: string, lo: int, hi: int) returns (t: string, text: string, n: int)
    requires s != "" && Line(s).None? && NumberFront(s[1..], lo, hi)
    requires INT64_MIN <= lo <= 0 <= hi <= INT64_MAX
    ensures HeaderLine(s + t, s[0], text) && NumberText(text, n) && lo <= n <= hi
  {
    hide NumberText, Decimal.Value, IntegerValue, LeadingSpaces, HeaderLine, Line, NoCRLF;
    var u := s[1..];
    var r := u[LeadingSpaces(u)..];
    if SignLength(r) < |r| {
      text, t, n := u, CRLF, IntegerValue(r);
      WholeNumber(u, n);
      OpenLine(s, "");
      assert u + "" == u;
    } else {
      text, t, n := u + "0", "0" + CRLF, 0;
      ZeroNumber(u);
      OpenLine(s, "0");
      assert u + t == text + CRLF;
    }
    HeaderOfText(s, t, text);
  }

  /** The front of a number becomes a header line for one in the range. */
  lemma CompleteHeader(s: string, lo: int, hi: int) returns (t: string, text: string, n: int)
    requires s != "" && Line(s).None? && HeaderFront(s, lo, hi)
    requires INT64_MIN <= lo <= 0 <= hi <= INT64_MAX
    ensures HeaderLine(s + t, s[0], text) && NumberText(text, n) && lo <= n <= hi
  {
    hide NumberText, HeaderLine, Line, NumberAndCR, NumberFront;
    if NumberAndCR(s[1..], lo, hi) {
      t, text, n := CompleteAfterCR(s, lo, hi);
    } else {
      t, text, n := CompleteNumber(s, lo, hi);
    }
  }

  /** A line that is still open contains no terminator, nor after a digit more. */
  lemma OpenLine(s: string, x: string)
    requires s != "" && Line(s).None? && (x == "" || x == "0")
    ensures NoCRLF(s[1..] + x)
  {
    FindCRLFIsFirst(s, 1);
    var u := s[1..] + x;
    forall i: int ensures !CRLFAt(u, i) {
      if 0 <= i && i + 1 < |u| {
        assert !CRLFAt(s, i + 1);
        assert u[i] == s[i + 1];
        assert i + 1 < |s| - 1 ==> u[i + 1] == s[i + 2];
        assert i + 1 == |s| - 1 ==> u[i + 1] == '0';
      }
    }
  }

  lemma NoCRLFPrefix(a: string, u: string)
    requires a <= u && NoCRLF(u + "")
    ensures NoCRLF(a)
  {
    assert u + "" == u;
    forall i: int ensures !CRLFAt(a, i) {
      assert !CRLFAt(u, i);
    }
  }

  lemma WholeNumber(u: string, n: int)
    requires IntegerText(u[LeadingSpaces(u)..]) && IntegerValue(u[LeadingSpaces(u)..]) == n && InInt64(n)
    ensures NumberText(u, n)
  {
    LeadingSpacesStops(u);
  }

  lemma ZeroNumber(u: string)
    requires var r := u[LeadingSpaces(u)..]; |r| == SignLength(r)
    ensures NumberText(u + "0", 0)
  {
    hide LeadingSpaces, AllSpaces, IntegerText, IntegerValue;
    LeadingSpacesStops(u);
    var w := LeadingSpaces(u);
    assert (u + "0")[..w] == u[..w] && (u + "0")[w..] == u[w..] + "0";
    ZeroText(u[w..]);
  }

  lemma ZeroText(r: string)
    requires |r| == SignLength(r)
    ensures IntegerText(r + "0") && IntegerValue(r + "0") == 0
  {
    var q := r + "0";
    assert SignLength(q) == |r| && q[|r|..] == "0";
    assert Decimal.Value("0") == 0 by {
      assert "0"[..0] == "";
    }
  }

  /** The bytes that complete a viable front, and the message it becomes. */
  lemma {:induction false} Complete(s: string, depth: nat) returns (t: string, v: Value)
    requires Viable(s, depth) && Scan(s, depth).NeedMore?
    ensures Frame(v, s + t, depth)
    decreases |s|, 0
  {
    hide NumberText, HeaderFront, CountOf, BodyFront, HeaderLine;
    if s == "" {
      t, v := "+" + CRLF, SimpleString("");
      EmptyLine();
      assert s + t == t;
    } else if s[0] == '+' || s[0] == '-' {
      OpenLine(s, "");
      t, v := CRLF, if s[0] == '+' then SimpleString(s[1..]) else Error(s[1..]);
      TextLine(s);
    } else if s[0] == ':' {
      var text, n;
      t, text, n := CompleteHeader(s, INT64_MIN, INT64_MAX);
      v := Integer(n);
    } else if s[0] == '$' {
      t, v := CompleteBulk(s, depth);
    } else {
      t, v := CompleteArray(s, depth);
    }
  }

  lemma EmptyLine()
    ensures HeaderLine("+" + CRLF, '+', "")
  {
    assert ['+'] + "" + CRLF == "+" + CRLF;
  }

  lemma TextLine(s: string)
    requires s != "" && NoCRLF(s[1..] + "")
    ensures HeaderLine(s + CRLF, s[0], s[1..])
  {
    assert s[1..] + "" == s[1..];
    assert s + CRLF == [s[0]] + s[1..] + CRLF;
  }

  lemma CompleteBulk(s: string, depth: nat) returns (t: string, v: Value)
    requires s != "" && s[0] == '$' && depth <= 100 && ScanBulkString(s).NeedMore?
    requires if Line(s).None? then HeaderFront(s, -1, 1_048_576) else ViableBulk(s)
    ensures Frame(v, s + t, depth)
  {
    hide NumberText, HeaderFront, CountOf, HeaderLine, Line;
    if Line(s).None? {
      var head, text, n := CompleteHeader(s, -1, 1_048_576);
      if n == -1 {
        t, v := head, Null;
      } else {
        t, v := head + Filler(n) + CRLF, BulkString(Filler(n));
        assert s + t == (s + head) + Filler(n) + CRLF;
      }
    } else {
      var text, n, b := Line(s).value, Count(s).value, Count(s).used;
      HeaderOfLine(s, text);
      CountIsNumber(text);
      CountInside(s);
      var body;
      t, body := CompleteBody(s, b, n);
      v := BulkString(body);
      assert s + t == s[..b] + body + CRLF;
    }
  }

  lemma CompleteBody(s: string, b: nat, n: nat) returns (t: string, body: string)
    requires b <= |s| < b + n + 2 && BodyFront(s, b, n)
    ensures |body| == n && s + t == s[..b] + body + CRLF
  {
    if |s| <= b + n {
      body, t := s[b..] + Filler(b + n - |s|), Filler(b + n - |s|) + CRLF;
    } else {
      body, t := s[b..b + n], "\n";
      assert s == s[..b] + body + "\r";
    }
  }

  /** Empty status lines, to fill up an array. */
  function Blanks(n: nat): seq<Value> {
    seq(n, _ => SimpleString(""))
  }

  function BlankLines(n: nat): string {
    if n == 0 then "" else "+" + CRLF + BlankLines(n - 1)
  }

  lemma {:induction false} BlanksAreFrames(n: nat, depth: nat)
    requires depth <= 100
    ensures Frames(Blanks(n), BlankLines(n), depth)
  {
    if n > 0 {
      EmptyLine();
      hide HeaderLine;
      BlanksAreFrames(n - 1, depth);
      var body := BlankLines(n);
      assert body[..3] == "+" + CRLF && body[3..] == BlankLines(n - 1);
      assert Blanks(n)[1..] == Blanks(n - 1);
    }
  }

  lemma {:induction false} CompleteArray(s: string, depth: nat) returns (t: string, v: Value)
    requires s != "" && s[0] == '*' && depth <= 100 && ScanArray(s, depth).NeedMore?
    requires if Line(s).None? then HeaderFront(s, -1, MaxCount(depth)) else ViableArray(s, depth)
    ensures Frame(v, s + t, depth)
    decreases |s|, 0, 0
  {
    hide NumberText, HeaderFront, CountOf, HeaderLine, Line, Frames, ScanMany, ViableMany;
    if Line(s).None? {
      var head, text, n := CompleteHeader(s, -1, MaxCount(depth));
      if n == -1 {
        t, v := head, Null;
      } else {
        t, v := head + BlankLines(n), Array(Blanks(n));
        NoBlanks(depth + 1);
        if n > 0 {
          BlanksAreFrames(n, depth + 1);
        }
        assert s + t == (s + head) + BlankLines(n);
      }
    } else {
      var text, n, b := Line(s).value, Count(s).value, Count(s).used;
      HeaderOfLine(s, text);
      CountIsNumber(text);
      CountInside(s);
      var vs;
      t, vs := CompleteMany(s[b..], n, depth + 1);
      v := Array(vs);
      assert s + t == s[..b] + (s[b..] + t);
    }
  }

  lemma NoBlanks(depth: nat)
    ensures Frames(Blanks(0), BlankLines(0), depth)
  {
  }

  lemma {:induction false} CompleteMany(s: string, n: nat, depth: nat) returns (t: string, vs: seq<Value>)
    requires ViableMany(s, n, depth) && ScanMany(s, n, depth).NeedMore?
    ensures |vs| == n && Frames(vs, s + t, depth)
    decreases |s|, 1, n
  {
    hide Frame, Scan, Viable;
    match Scan(s, depth)
    case Done(v, used) =>
      ScannedIsFrame(s, depth);
      var rest;
      t, rest := CompleteMany(s[used..], n - 1, depth);
      vs := [v] + rest;
      assert (s + t)[..used] == s[..used] && (s + t)[used..] == s[used..] + t;
      assert vs[1..] == rest;
    case NeedMore =>
      var head, v := Complete(s, depth);
      FrameIsShallow(v, s + head, depth);
      BlanksAreFrames(n - 1, depth);
      t, vs := head + BlankLines(n - 1), [v] + Blanks(n - 1);
      assert (s + t)[..|s + head|] == s + head && (s + t)[|s + head|..] == BlankLines(n - 1);
      assert vs[1..] == Blanks(n - 1);
  }

  lemma FrameIsShallow(v: Value, f: string, depth: nat)
    requires Frame(v, f, depth)
    ensures depth <= 100
  {
  }

  /** Some continuation of `s` is accepted exactly when `s` is viable. */
  lemma ViableExactly(s: string, depth: nat)
    ensures (exists t :: Scan(s + t, depth).Done?) <==> Viable(s, depth)
  {
    hide Scan, Viable, Frame;
    forall t | Scan(s + t, depth).Done? ensures Viable(s, depth) {
      AcceptedIsViable(s, t, depth);
    }
    if Viable(s, depth) {
      ViableIsNotRejected(s, depth);
      if Scan(s, depth).Done? {
        assert s + "" == s;
        assert Scan(s + "", depth).Done?;
      } else {
        var t, v := Complete(s, depth);
        FrameIsScanned(v, s + t, depth, "");
        assert s + t + "" == s + t;
        assert Scan(s + t, depth).Done?;
      }
    }
  }

  /** A connection whose buffer holds no complete message can ever dispatch one again exactly when
      the buffer is viable: this covers every front that is dead, rejected already or not. */
  lemma DeadConnectionsExactly(s: string)
    requires !Scan(s, 0).Done?
    ensures (forall chunks :: AfterReads(chunks, [], s) == Drained([], s + Concat(chunks))) <==> !Viable(s, 0)
  {
    hide Scan, Viable, Drain;
    ViableExactly(s, 0);
    DrainStep(s);
    if Viable(s, 0) {
      var t :| Scan(s + t, 0).Done?;
      AfterReadsIsDrain([t], [], s);
      assert Concat([t]) == t by {
        assert t + "" == t;
      }
      DrainStep(s + t);
      assert AfterReads([t], [], s).messages != [];
    } else {
      forall chunks ensures AfterReads(chunks, [], s) == Drained([], s + Concat(chunks)) {
        AfterReadsIsDrain(chunks, [], s);
        DrainStep(s + Concat(chunks));
      }
    }
  }

  lemma CountOfZero(rest: string)
    ensures Count("$0\r\n" + rest) == Done(0, 4)
  {
    ZeroNumber("");
    assert "" + "0" == "0" && "$0\r\n" == ['$'] + "0" + CRLF;
    hide NumberText, CountOf;
    LineOfHeader("$0\r\n", '$', "0", rest);
    CountOfNumber("0", 0);
  }

  /** The parser can ask for more bytes in vain. */
  lemma WaitingInVain()
    ensures Scan("$0\r\nX", 0).NeedMore? && !Viable("$0\r\nX", 0)
  {
    hide Count;
    CountOfZero("X");
    assert "$0\r\n" + "X" == "$0\r\nX";
    assert Line("$0\r\nX").Some? by {
      FindCRLFUnique("$0\r\nX", 1, 2);
    }
    hide Line;
  }
}
