/** The RESP2 wire format as a grammar, independent of the parser, and the theorems that tie
    the parser to it: it accepts exactly the grammar, its decisions never change when more
    bytes arrive, and frames are prefix-free. */
module RespGrammar {
  import opened Text
  import opened Decimal
  import opened RespValue
  import opened RespParser

  /** A header line: the marker, a text without terminator, the terminator. */
  ghost predicate HeaderLine(f: string, marker: char, t: string) {
    NoCRLF(t) && f == [marker] + t + "\r\n"
  }

  /** `f` is a complete frame for `v` at nesting level `depth`, within the server's limits. */
  ghost predicate Frame(v: Value, f: string, depth: nat)
    decreases v
  {
    depth <= 100 &&
    match v
    case SimpleString(t) => HeaderLine(f, '+', t)
    case Error(t) => HeaderLine(f, '-', t)
    case Integer(n) => exists t :: NumberText(t, n) && HeaderLine(f, ':', t)
    case Null => exists t :: NumberText(t, -1) && (HeaderLine(f, '$', t) || HeaderLine(f, '*', t))
    case BulkString(b) =>
      |b| <= 1_048_576 &&
      exists t, h :: NumberText(t, |b|) && HeaderLine(h, '$', t) && f == h + b + "\r\n"
    case Array(vs) =>
      |vs| <= 1000 &&
      exists t, h, body ::
        NumberText(t, |vs|) && HeaderLine(h, '*', t) && Frames(vs, body, depth + 1) && f == h + body
  }

  /** `body` is one frame for each value, in order. */
  ghost predicate Frames(vs: seq<Value>, body: string, depth: nat)
    decreases vs
  {
    if vs == [] then body == ""
    else exists k: nat :: k <= |body| && Frame(vs[0], body[..k], depth) && Frames(vs[1..], body[k..], depth)
  }

  // ----- more bytes never change a decision -----

  lemma LineExtends(s: string, t: string)
    requires s != [] && Line(s).Some?
    ensures Line(s + t) == Line(s)
  {
    FindCRLFExtends(s, t, 1);
    var e := FindCRLF(s, 1).value;
    assert (s + t)[1..e] == s[1..e];
  }

  lemma ScanBodyExtends(s: string, t: string, b: nat, n: nat)
    requires !ScanBody(s, b, n).NeedMore?
    ensures ScanBody(s + t, b, n) == ScanBody(s, b, n)
  {
    assert (s + t)[b..b + n] == s[b..b + n];
  }

  /** Accepted or rejected, the answer at the front of a buffer is final. */
  lemma {:induction false} ScanExtends(s: string, t: string, depth: nat)
    requires !Scan(s, depth).NeedMore?
    ensures Scan(s + t, depth) == Scan(s, depth)
    decreases |s|, 0
  {
    assert (s + t)[0] == s[0];
    if depth <= MAX_DEPTH && s[0] in "+-:$*" {
      LineExtends(s, t);
      if s[0] == '$' && Count(s).Done? {
        var n := Count(s).value;
        if 0 <= n <= MAX_STRING_LENGTH {
          ScanBodyExtends(s, t, Count(s).used, n);
        }
      } else if s[0] == '*' && Count(s).Done? {
        var n, b := Count(s).value, Count(s).used;
        if 0 <= n <= MAX_ARGS {
          assert (s + t)[b..] == s[b..] + t;
          ScanManyExtends(s[b..], t, n, depth + 1);
        }
      }
    }
  }

  lemma {:induction false} ScanManyExtends(s: string, t: string, n: nat, depth: nat)
    requires !ScanMany(s, n, depth).NeedMore?
    ensures ScanMany(s + t, n, depth) == ScanMany(s, n, depth)
    decreases |s|, 1, n
  {
    hide Scan;
    if n > 0 {
      ScanExtends(s, t, depth);
      var one := Scan(s, depth);
      if one.Done? {
        assert (s + t)[one.used..] == s[one.used..] + t;
        ScanManyExtends(s[one.used..], t, n - 1, depth);
      }
    }
  }

  /** A proper prefix of a frame is always incomplete, never accepted and never rejected. */
  lemma ProperPrefixNeedsMore(s: string, t: string, depth: nat)
    requires Scan(s + t, depth).Done? && |s| < Scan(s + t, depth).used
    ensures Scan(s, depth).NeedMore?
  {
    if !Scan(s, depth).NeedMore? {
      ScanExtends(s, t, depth);
    }
  }

  // ----- the parser accepts exactly the grammar -----

  lemma LineOfHeader(h: string, marker: char, t: string, rest: string)
    requires HeaderLine(h, marker, t)
    ensures h + rest != [] && (h + rest)[0] == marker
    ensures Line(h + rest) == Some(t)
    ensures |h| == |t| + 3
  {
    assert h + rest == [marker] + t + CRLF + rest;
    LineEnds(marker, t, rest);
    assert (h + rest)[1..1 + |t|] == t;
  }

  lemma HeaderOfLine(s: string, t: string)
    requires s != [] && Line(s) == Some(t)
    ensures HeaderLine(s[..|t| + 3], s[0], t)
  {
    FindCRLFIsFirst(s, 1);
    var e := FindCRLF(s, 1).value;
    forall i: int ensures !CRLFAt(t, i) {
      if 0 <= i && i + 1 < |t| {
        assert t[i] == s[i + 1] && t[i + 1] == s[i + 2];
        assert !CRLFAt(s, i + 1);
      }
    }
    assert s[..e + 2] == [s[0]] + s[1..e] + CRLF;
  }

  lemma CountOfNumber(t: string, n: int)
    requires INT32_MIN <= n <= INT32_MAX
    ensures CountOf(t) == Done(n, |t| + 3) <==> NumberText(t, n)
  {
    SafeInt64Exact(t, n);
  }

  lemma CountIsNumber(t: string)
    requires CountOf(t).Done?
    ensures CountOf(t).used == |t| + 3 && NumberText(t, CountOf(t).value)
  {
    CountOfNumber(t, CountOf(t).value);
  }

  lemma LineIsScanned(v: Value, f: string, depth: nat, rest: string)
    requires Frame(v, f, depth) && (v.SimpleString? || v.Error?)
    ensures Scan(f + rest, depth) == Done(v, |f|)
  {
    hide HeaderLine, Line;
    LineOfHeader(f, if v.SimpleString? then '+' else '-', v.text, rest);
  }

  lemma IntegerIsScanned(n: int, f: string, depth: nat, rest: string)
    requires Frame(Integer(n), f, depth)
    ensures Scan(f + rest, depth) == Done(Integer(n), |f|)
  {
    hide NumberText, HeaderLine, Line, SafeInt64;
    var t :| NumberText(t, n) && HeaderLine(f, ':', t);
    LineOfHeader(f, ':', t, rest);
    SafeInt64Exact(t, n);
  }

  lemma BulkIsScanned(b: string, f: string, depth: nat, rest: string)
    requires Frame(BulkString(b), f, depth)
    ensures Scan(f + rest, depth) == Done(BulkString(b), |f|)
  {
    hide NumberText, CountOf, HeaderLine, Line;
    var t, h :| NumberText(t, |b|) && HeaderLine(h, '$', t) && f == h + b + "\r\n";
    var s := f + rest;
    assert s == h + (b + CRLF + rest);
    LineOfHeader(h, '$', t, b + CRLF + rest);
    CountOfNumber(t, |b|);
    assert s[|h|..|h| + |b|] == b;
    assert s[|h| + |b|] == '\r' && s[|h| + |b| + 1] == '\n';
  }

  lemma NullIsScanned(f: string, depth: nat, rest: string)
    requires Frame(Null, f, depth)
    ensures Scan(f + rest, depth) == Done(Null, |f|)
  {
    hide NumberText, CountOf, HeaderLine, Line;
    var t :| NumberText(t, -1) && (HeaderLine(f, '$', t) || HeaderLine(f, '*', t));
    LineOfHeader(f, if HeaderLine(f, '$', t) then '$' else '*', t, rest);
    CountOfNumber(t, -1);
  }

  /** Completeness: whatever follows it, a frame is read back as its value and nothing more. */
  lemma {:induction false} FrameIsScanned(v: Value, f: string, depth: nat, rest: string)
    requires Frame(v, f, depth)
    ensures Scan(f + rest, depth) == Done(v, |f|)
    decreases v
  {
    hide Frame, Scan;
    match v
    case SimpleString(_) => LineIsScanned(v, f, depth, rest);
    case Error(_) => LineIsScanned(v, f, depth, rest);
    case Integer(n) => IntegerIsScanned(n, f, depth, rest);
    case Null => NullIsScanned(f, depth, rest);
    case BulkString(b) => BulkIsScanned(b, f, depth, rest);
    case Array(vs) => ArrayIsScanned(vs, f, depth, rest);
  }

  lemma {:induction false} ArrayIsScanned(vs: seq<Value>, f: string, depth: nat, rest: string)
    requires Frame(Array(vs), f, depth)
    ensures Scan(f + rest, depth) == Done(Array(vs), |f|)
    decreases vs, 1
  {
    hide NumberText, CountOf, HeaderLine, Line, Frames, ScanMany;
    var t, h, body :|
      NumberText(t, |vs|) && HeaderLine(h, '*', t) && Frames(vs, body, depth + 1) && f == h + body;
    assert f + rest == h + (body + rest);
    LineOfHeader(h, '*', t, body + rest);
    CountOfNumber(t, |vs|);
    assert (f + rest)[|h|..] == body + rest;
    FramesAreScanned(vs, body, depth + 1, rest);
  }

  lemma {:induction false} FramesAreScanned(vs: seq<Value>, body: string, depth: nat, rest: string)
    requires Frames(vs, body, depth)
    ensures ScanMany(body + rest, |vs|, depth) == Done(vs, |body|)
    decreases vs, 0
  {
    hide Frame, Scan;
    if vs != [] {
      var k: nat :| k <= |body| && Frame(vs[0], body[..k], depth) && Frames(vs[1..], body[k..], depth);
      assert body + rest == body[..k] + (body[k..] + rest);
      FrameIsScanned(vs[0], body[..k], depth, body[k..] + rest);
      assert (body + rest)[k..] == body[k..] + rest;
      FramesAreScanned(vs[1..], body[k..], depth, rest);
      assert [vs[0]] + vs[1..] == vs;
    }
  }

  lemma ScannedLineIsFrame(s: string, depth: nat)
    requires depth <= MAX_DEPTH && s != "" && (s[0] == '+' || s[0] == '-') && Line(s).Some?
    ensures Scan(s, depth).Done? && Frame(Scan(s, depth).value, s[..Scan(s, depth).used], depth)
  {
    hide HeaderLine, Line;
    HeaderOfLine(s, Line(s).value);
  }

  lemma ScannedIntegerIsFrame(s: string, depth: nat)
    requires depth <= MAX_DEPTH && s != "" && s[0] == ':' && ScanInteger(s).Done?
    ensures Frame(ScanInteger(s).value, s[..ScanInteger(s).used], depth)
  {
    hide NumberText, HeaderLine, Line, SafeInt64;
    var t := Line(s).value;
    HeaderOfLine(s, t);
    SafeInt64Exact(t, SafeInt64(t).value);
  }

  /** Soundness: what the parser consumes is a frame for what it returns. */
  lemma {:induction false} ScannedIsFrame(s: string, depth: nat)
    requires Scan(s, depth).Done?
    ensures Frame(Scan(s, depth).value, s[..Scan(s, depth).used], depth)
    decreases |s|, 0
  {
    hide Frame, Line, ScanInteger, ScanBulkString, ScanArray;
    if s[0] == ':' {
      ScannedIntegerIsFrame(s, depth);
    } else if s[0] == '$' {
      ScannedBulkIsFrame(s, depth);
    } else if s[0] == '*' {
      ScannedArrayIsFrame(s, depth);
    } else {
      ScannedLineIsFrame(s, depth);
    }
  }

  lemma {:induction false} ScannedArrayIsFrame(s: string, depth: nat)
    requires s != [] && s[0] == '*' && depth <= MAX_DEPTH && ScanArray(s, depth).Done?
    ensures Frame(ScanArray(s, depth).value, s[..ScanArray(s, depth).used], depth)
    decreases |s|, 0, 0
  {
    hide NumberText, CountOf, HeaderLine, Line, Frames, ScanMany;
    var t := Line(s).value;
    HeaderOfLine(s, t);
    CountIsNumber(t);
    var h, n, used := s[..|t| + 3], Count(s).value, ScanArray(s, depth).used;
    if n != -1 {
      var body := s[|h|..];
      ScannedAreFrames(body, n, depth + 1);
      assert s[..used] == h + body[..used - |h|];
    }
  }

  lemma ScannedBulkIsFrame(s: string, depth: nat)
    requires s != [] && s[0] == '$' && depth <= MAX_DEPTH && ScanBulkString(s).Done?
    ensures Frame(ScanBulkString(s).value, s[..ScanBulkString(s).used], depth)
  {
    hide NumberText, CountOf, HeaderLine, Line;
    var t := Line(s).value;
    HeaderOfLine(s, t);
    CountIsNumber(t);
    var h, n, used := s[..|t| + 3], Count(s).value, ScanBulkString(s).used;
    if n != -1 {
      var b := s[|h|..|h| + n];
      assert s[..used] == h + b + CRLF;
      assert ScanBulkString(s).value == BulkString(b);
    }
  }

  lemma {:induction false} ScannedAreFrames(s: string, n: nat, depth: nat)
    requires ScanMany(s, n, depth).Done?
    ensures Frames(ScanMany(s, n, depth).value, s[..ScanMany(s, n, depth).used], depth)
    decreases |s|, 1, n
  {
    hide Frame, Scan;
    if n > 0 {
      ScannedIsFrame(s, depth);
      var k := Scan(s, depth).used;
      ScannedAreFrames(s[k..], n - 1, depth);
      var all := ScanMany(s, n, depth);
      var body := s[..all.used];
      assert body[..k] == s[..k];
      assert body[k..] == s[k..][..all.used - k];
      assert all.value[1..] == ScanMany(s[k..], n - 1, depth).value;
    }
  }

  /** The parser returns `v` having consumed `n` bytes exactly when those bytes are a frame for `v`. */
  lemma ParserExact(s: string, v: Value, n: nat, depth: nat)
    ensures Scan(s, depth) == Done(v, n) <==> n <= |s| && Frame(v, s[..n], depth)
  {
    hide Frame, Scan;
    if Scan(s, depth) == Done(v, n) {
      ScannedIsFrame(s, depth);
    }
    if n <= |s| && Frame(v, s[..n], depth) {
      FrameIsScanned(v, s[..n], depth, s[n..]);
      assert s[..n] + s[n..] == s;
    }
  }

  /** Frames are prefix-free, and a frame determines its value. */
  lemma FramesArePrefixFree(v: Value, f: string, v': Value, f': string, depth: nat)
    requires Frame(v, f, depth) && Frame(v', f', depth) && f <= f'
    ensures f == f' && v == v'
  {
    hide Frame, Scan;
    FrameIsScanned(v, f, depth, f'[|f|..]);
    assert f + f'[|f|..] == f';
    FrameIsScanned(v', f', depth, "");
    assert f' + "" == f';
  }
}
