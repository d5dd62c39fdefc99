/** The recursive RESP2 parser of src/resp/resp_parser.cpp.
    `Scan` is the specification: it reads one value at the front of a string and separates
    the two reasons for which the code returns false. `NeedMore` means that the string ended
    before the code could decide, `Bad` that the bytes read so far are rejected. Whether more
    bytes can help is told by `RespPrefixes`. */
module RespParser {
  import opened Text
  import opened Decimal
  import opened RespValue

  const MAX_STRING_LENGTH: nat := 1024 * 1024
  const MAX_ARGS: nat := 1000
  const MAX_DEPTH: nat := 100

  datatype Scanned<+T> = Done(value: T, used: nat) | NeedMore | Bad

  function Scan(s: string, depth: nat): (r: Scanned<Value>)
    ensures r.Done? ==> 0 < r.used <= |s|
    decreases |s|, 0, 1
  {
    if s == [] then NeedMore
    else if depth > MAX_DEPTH then Bad
    else
      match s[0]
      case '+' => ScanSimpleString(s)
      case '-' => ScanError(s)
      case ':' => ScanInteger(s)
      case '$' => ScanBulkString(s)
      case '*' => ScanArray(s, depth)
      case _ => Bad
  }

  /** The text of the header line after the type marker: up to the first terminator. */
  function Line(s: string): (r: Option<string>)
    requires s != []
    ensures r.Some? ==> |r.value| + 3 <= |s|
  {
    match FindCRLF(s, 1)
    case None => None
    case Some(e) => Some(s[1..e])
  }

  function ScanSimpleString(s: string): (r: Scanned<Value>)
    requires s != []
    ensures r.Done? ==> 0 < r.used <= |s|
  {
    match Line(s)
    case None => NeedMore
    case Some(text) => Done(SimpleString(text), |text| + 3)
  }

  function ScanError(s: string): (r: Scanned<Value>)
    requires s != []
    ensures r.Done? ==> 0 < r.used <= |s|
  {
    match Line(s)
    case None => NeedMore
    case Some(text) => Done(Error(text), |text| + 3)
  }

  function ScanInteger(s: string): (r: Scanned<Value>)
    requires s != []
    ensures r.Done? ==> 0 < r.used <= |s|
  {
    match Line(s)
    case None => NeedMore
    case Some(text) =>
      match SafeInt64(text)
      case None => Bad
      case Some(n) => Done(Integer(n), |text| + 3)
  }

  /** The header line of a bulk string or an array: a 32-bit number, and where the line stops. */
  function Count(s: string): (r: Scanned<int>)
    requires s != []
    ensures r.Done? ==> 0 < r.used <= |s|
  {
    match Line(s)
    case None => NeedMore
    case Some(text) => CountOf(text)
  }

  function CountOf(text: string): Scanned<int> {
    match SafeInt32(text)
    case None => Bad
    case Some(n) => Done(n, |text| + 3)
  }

  function ScanBulkString(s: string): (r: Scanned<Value>)
    requires s != []
    ensures r.Done? ==> 0 < r.used <= |s|
  {
    match Count(s)
    case NeedMore => NeedMore
    case Bad => Bad
    case Done(n, b) =>
      if n == -1 then Done(Null, b)
      else if n < 0 || n > MAX_STRING_LENGTH then Bad
      else ScanBody(s, b, n)
  }

  /** The `n` bytes of a bulk string from position `b`, and the terminator after them. */
  function ScanBody(s: string, b: nat, n: nat): (r: Scanned<Value>)
    ensures r.Done? ==> 0 < r.used <= |s|
  {
    if b + n + 2 > |s| then NeedMore
    else if CRLFAt(s, b + n) then Done(BulkString(s[b..b + n]), b + n + 2)
    else Bad
  }

  function ScanArray(s: string, depth: nat): (r: Scanned<Value>)
    requires s != []
    ensures r.Done? ==> 0 < r.used <= |s|
    decreases |s|, 0, 0
  {
    match Count(s)
    case NeedMore => NeedMore
    case Bad => Bad
    case Done(n, b) =>
      if n == -1 then Done(Null, b)
      else if n < 0 || n > MAX_ARGS then Bad
      else
        match ScanMany(s[b..], n, depth + 1)
        case NeedMore => NeedMore
        case Bad => Bad
        case Done(vs, used) => Done(Array(vs), b + used)
  }

  /** `n` values one after the other. */
  function ScanMany(s: string, n: nat, depth: nat): (r: Scanned<seq<Value>>)
    ensures r.Done? ==> r.used <= |s| && |r.value| == n
    decreases |s|, 1, n
  {
    if n == 0 then Done([], 0)
    else
      match Scan(s, depth)
      case NeedMore => NeedMore
      case Bad => Bad
      case Done(v, used) =>
        match ScanMany(s[used..], n - 1, depth)
        case NeedMore => NeedMore
        case Bad => Bad
        case Done(vs, more) => Done([v] + vs, used + more)
  }

  // ----- the parser, with the position threaded through -----

  /** `ok`, the position and the result agree with the specification at `pos`. */
  ghost predicate Reads(spec: Scanned<Value>, pos: nat, ok: bool, next: nat, result: Value) {
    match spec
    case Done(v, used) => ok && next == pos + used && result == v
    case _ => !ok
  }

  predicate MarkerAt(input: string, pos: nat, marker: char) {
    pos < |input| && input[pos] == marker
  }

  /** The header line at `pos` is the header line of the suffix. */
  lemma LineAt(input: string, pos: nat)
    requires pos < |input|
    ensures Line(input[pos..]) == match FindCRLF(input, pos + 1)
                                  case None => None
                                  case Some(e) => Some(input[pos + 1..e])
  {
    FindCRLFShift(input, pos, 1);
    var u := FindCRLF(input[pos..], 1);
    assert u.Some? ==> input[pos..][1..u.value] == input[pos + 1..pos + u.value];
  }

  method ParseSimpleString(input: string, pos: nat) returns (ok: bool, next: nat, result: Value)
    ensures if MarkerAt(input, pos, '+') then Reads(ScanSimpleString(input[pos..]), pos, ok, next, result) else !ok
  {
    next, result := pos, Null;
    if pos >= |input| || input[pos] != '+' {
      return false, next, result;
    }
    LineAt(input, pos);
    var lineEnd := FindCRLF(input, pos + 1);
    if lineEnd.None? {
      return false, next, result;
    }
    var str := input[pos + 1..lineEnd.value];
    return true, lineEnd.value + 2, SimpleString(str);
  }

  method ParseError(input: string, pos: nat) returns (ok: bool, next: nat, result: Value)
    ensures if MarkerAt(input, pos, '-') then Reads(ScanError(input[pos..]), pos, ok, next, result) else !ok
  {
    next, result := pos, Null;
    if pos >= |input| || input[pos] != '-' {
      return false, next, result;
    }
    LineAt(input, pos);
    var lineEnd := FindCRLF(input, pos + 1);
    if lineEnd.None? {
      return false, next, result;
    }
    var error := input[pos + 1..lineEnd.value];
    return true, lineEnd.value + 2, Error(error);
  }

  method ParseInteger(input: string, pos: nat) returns (ok: bool, next: nat, result: Value)
    ensures if MarkerAt(input, pos, ':') then Reads(ScanInteger(input[pos..]), pos, ok, next, result) else !ok
  {
    next, result := pos, Null;
    if pos >= |input| || input[pos] != ':' {
      return false, next, result;
    }
    LineAt(input, pos);
    var lineEnd := FindCRLF(input, pos + 1);
    if lineEnd.None? {
      return false, next, result;
    }
    var value := SafeInt64(input[pos + 1..lineEnd.value]);
    if value.None? {
      return false, next, result;
    }
    return true, lineEnd.value + 2, Integer(value.value);
  }

  /** What the header of a bulk string or an array at `pos` says, in positions of the input. */
  datatype Header = Missing | Wrong | Counted(n: int, next: nat)

  function HeaderAt(input: string, pos: nat): (r: Header)
    requires pos < |input|
    ensures r.Counted? ==> pos < r.next <= |input|
  {
    match FindCRLF(input, pos + 1)
    case None => Missing
    case Some(e) =>
      match SafeInt32(input[pos + 1..e])
      case None => Wrong
      case Some(n) => Counted(n, e + 2)
  }

  lemma CountAt(input: string, pos: nat)
    requires pos < |input|
    ensures Count(input[pos..]) == match HeaderAt(input, pos)
                                   case Missing => NeedMore
                                   case Wrong => Bad
                                   case Counted(n, next) => Done(n, next - pos)
  {
    LineAt(input, pos);
    hide Line, SafeInt32, FindCRLF;
  }

  lemma BodyAt(input: string, pos: nat, next: nat, n: nat)
    requires pos <= next <= |input|
    ensures ScanBody(input[pos..], next - pos, n)
         == if next + n + 2 > |input| then NeedMore
            else if CRLFAt(input, next + n) then Done(BulkString(input[next..next + n]), next + n + 2 - pos)
            else Bad
  {
    var s, b := input[pos..], next - pos;
    if next + n + 2 <= |input| {
      assert s[b..b + n] == input[next..next + n];
      assert CRLFAt(s, b + n) == CRLFAt(input, next + n);
    }
  }

  lemma BulkRefused(input: string, pos: nat, next: nat, result: Value)
    requires pos < |input|
    requires match HeaderAt(input, pos)
             case Counted(n, start) =>
               n != -1 && (n < 0 || n > MAX_STRING_LENGTH || start + n + 2 > |input| || !CRLFAt(input, start + n))
             case _ => true
    ensures Reads(ScanBulkString(input[pos..]), pos, false, next, result)
  {
    CountAt(input, pos);
    hide Count, FindCRLF, SafeInt32, ScanBody;
    var header := HeaderAt(input, pos);
    hide HeaderAt;
    if header.Counted? && header.n >= 0 {
      BodyAt(input, pos, header.next, header.n);
    }
  }

  lemma BulkNull(input: string, pos: nat, next: nat)
    requires pos < |input| && HeaderAt(input, pos) == Counted(-1, next)
    ensures Reads(ScanBulkString(input[pos..]), pos, true, next, Null)
  {
    CountAt(input, pos);
    hide HeaderAt, Count;
  }

  lemma BulkRead(input: string, pos: nat, n: nat, start: nat)
    requires pos < |input| && HeaderAt(input, pos) == Counted(n, start) && n <= MAX_STRING_LENGTH
    requires CRLFAt(input, start + n)
    ensures Reads(ScanBulkString(input[pos..]), pos, true, start + n + 2, BulkString(input[start..start + n]))
  {
    CountAt(input, pos);
    BodyAt(input, pos, start, n);
    hide HeaderAt, Count, ScanBody;
  }

  method ParseBulkString(input: string, pos: nat) returns (ok: bool, next: nat, result: Value)
    ensures if MarkerAt(input, pos, '$') then Reads(ScanBulkString(input[pos..]), pos, ok, next, result) else !ok
  {
    next, result := pos, Null;
    if pos >= |input| || input[pos] != '$' {
      return false, next, result;
    }
    hide SafeInt32, FindCRLF, ScanBulkString, Reads;
    var lenEnd := FindCRLF(input, pos + 1);
    if lenEnd.None? {
      BulkRefused(input, pos, next, result);
      return false, next, result;
    }
    var len := SafeInt32(input[pos + 1..lenEnd.value]);
    if len.None? {
      BulkRefused(input, pos, next, result);
      return false, next, result;
    }
    next := lenEnd.value + 2;
    if len.value == -1 {
      BulkNull(input, pos, next);
      return true, next, Null;
    }
    if len.value < 0 || len.value > MAX_STRING_LENGTH {
      BulkRefused(input, pos, next, result);
      return false, next, result;
    }
    if next + len.value + 2 > |input| {
      BulkRefused(input, pos, next, result);
      return false, next, result;
    }
    ghost var start := next;
    var str := input[next..next + len.value];
    next := next + len.value;
    if next + 2 > |input| || input[next] != '\r' || input[next + 1] != '\n' {
      BulkRefused(input, pos, next, result);
      return false, next, result;
    }
    BulkRead(input, pos, len.value, start);
    next := next + 2;
    return true, next, BulkString(str);
  }

  /** `whole` is what is left to scan, `rest`, put after the elements read so far. */
  ghost predicate Resumes(whole: Scanned<seq<Value>>, elements: seq<Value>, used: nat, rest: Scanned<seq<Value>>) {
    match rest
    case Done(vs, more) => whole == Done(elements + vs, used + more)
    case NeedMore => whole == NeedMore
    case Bad => whole == Bad
  }

  lemma ResumesAtStart(whole: Scanned<seq<Value>>)
    ensures Resumes(whole, [], 0, whole)
  {
    assert whole.Done? ==> [] + whole.value == whole.value;
  }

  lemma ResumesAtEnd(whole: Scanned<seq<Value>>, elements: seq<Value>, used: nat, s: string, depth: nat)
    requires Resumes(whole, elements, used, ScanMany(s, 0, depth))
    ensures whole == Done(elements, used)
  {
    assert elements + [] == elements;
  }

  lemma ResumesStep(whole: Scanned<seq<Value>>, elements: seq<Value>, used: nat, s: string, n: nat, depth: nat)
    requires n > 0 && Resumes(whole, elements, used, ScanMany(s, n, depth))
    ensures match Scan(s, depth)
            case Done(v, u) => Resumes(whole, elements + [v], used + u, ScanMany(s[u..], n - 1, depth))
            case _ => !whole.Done?
  {
    var one := Scan(s, depth);
    if one.Done? {
      var rest := ScanMany(s[one.used..], n - 1, depth);
      if rest.Done? {
        assert elements + ([one.value] + rest.value) == elements + [one.value] + rest.value;
      }
    }
  }

  /** One step of the loop of parseArray, when the value at `next` was read with this result. */
  lemma ElementRead(whole: Scanned<seq<Value>>, elements: seq<Value>, input: string, pos: nat, next: nat, n: nat,
                    depth: nat, ok: bool, after: nat, element: Value)
    requires n > 0 && pos <= next <= |input|
    requires Resumes(whole, elements, next - pos, ScanMany(input[next..], n, depth))
    requires Reads(Scan(input[next..], depth), next, ok, after, element)
    ensures !ok ==> !whole.Done?
    ensures ok ==> next < after <= |input|
                   && Resumes(whole, elements + [element], after - pos, ScanMany(input[after..], n - 1, depth))
  {
    hide Scan, ScanMany, Resumes;
    ResumesStep(whole, elements, next - pos, input[next..], n, depth);
    if ok {
      assert input[next..][after - next..] == input[after..];
    }
  }

  /** The same as `Reads`, for several values. */
  ghost predicate ReadsMany(spec: Scanned<seq<Value>>, pos: nat, ok: bool, next: nat, elements: seq<Value>) {
    match spec
    case Done(vs, used) => ok && next == pos + used && elements == vs
    case _ => !ok
  }

  lemma ArrayRefused(input: string, pos: nat, depth: nat, next: nat, result: Value)
    requires pos < |input|
    requires match HeaderAt(input, pos) case Counted(n, _) => n != -1 && (n < 0 || n > MAX_ARGS) case _ => true
    ensures Reads(ScanArray(input[pos..], depth), pos, false, next, result)
  {
    CountAt(input, pos);
    hide HeaderAt, Count;
  }

  lemma ArrayNull(input: string, pos: nat, depth: nat, next: nat)
    requires pos < |input| && HeaderAt(input, pos) == Counted(-1, next)
    ensures Reads(ScanArray(input[pos..], depth), pos, true, next, Null)
  {
    CountAt(input, pos);
    hide HeaderAt, Count;
  }

  lemma ArrayRead(input: string, pos: nat, depth: nat, n: nat, start: nat, ok: bool, next: nat, elements: seq<Value>)
    requires pos < |input| && HeaderAt(input, pos) == Counted(n, start) && n <= MAX_ARGS
    requires ReadsMany(ScanMany(input[start..], n, depth + 1), start, ok, next, elements)
    ensures Reads(ScanArray(input[pos..], depth), pos, ok, next, Array(elements))
  {
    CountAt(input, pos);
    hide HeaderAt, Count, ScanMany;
    assert input[pos..][start - pos..] == input[start..];
  }

  method ParseArray(input: string, pos: nat, depth: nat) returns (ok: bool, next: nat, result: Value)
    requires depth <= MAX_DEPTH
    ensures if MarkerAt(input, pos, '*') then Reads(ScanArray(input[pos..], depth), pos, ok, next, result) else !ok
    decreases |input| - pos, 0
  {
    next, result := pos, Null;
    if pos >= |input| || input[pos] != '*' {
      return false, next, result;
    }
    hide SafeInt32, FindCRLF, ScanMany, ScanArray, Reads, ReadsMany;
    var lineEnd := FindCRLF(input, pos + 1);
    if lineEnd.None? {
      ArrayRefused(input, pos, depth, next, result);
      return false, next, result;
    }
    var numElements := SafeInt32(input[pos + 1..lineEnd.value]);
    if numElements.None? {
      ArrayRefused(input, pos, depth, next, result);
      return false, next, result;
    }
    if numElements.value == -1 {
      ArrayNull(input, pos, depth, lineEnd.value + 2);
      return true, lineEnd.value + 2, Null;
    }
    if numElements.value < 0 || numElements.value > MAX_ARGS {
      ArrayRefused(input, pos, depth, next, result);
      return false, next, result;
    }
    var elements: seq<Value>;
    ok, next, elements := ParseElements(input, lineEnd.value + 2, numElements.value, depth + 1);
    ArrayRead(input, pos, depth, numElements.value, lineEnd.value + 2, ok, next, elements);
    result := Array(elements);
  }

  /** The loop of parseArray. */
  method ParseElements(input: string, pos: nat, n: nat, depth: nat)
    returns (ok: bool, next: nat, elements: seq<Value>)
    requires pos <= |input|
    ensures ReadsMany(ScanMany(input[pos..], n, depth), pos, ok, next, elements)
    decreases |input| - pos, 2
  {
    ghost var spec := ScanMany(input[pos..], n, depth);
    ResumesAtStart(spec);
    hide Scan, ScanMany, Resumes, Reads;
    next, elements := pos, [];
    var i := 0;
    while i < n
      invariant 0 <= i <= n
      invariant pos <= next <= |input|
      invariant Resumes(spec, elements, next - pos, ScanMany(input[next..], n - i, depth))
    {
      var elementOk, after, element := ParseValue(input, next, depth);
      ElementRead(spec, elements, input, pos, next, n - i, depth, elementOk, after, element);
      if !elementOk {
        return false, next, elements;
      }
      elements := elements + [element];
      next := after;
      i := i + 1;
    }
    ResumesAtEnd(spec, elements, next - pos, input[next..], depth);
    return true, next, elements;
  }

  method ParseValue(input: string, pos: nat, depth: nat) returns (ok: bool, next: nat, result: Value)
    requires pos <= |input|
    ensures Reads(Scan(input[pos..], depth), pos, ok, next, result)
    decreases |input| - pos, 1
  {
    next, result := pos, Null;
    if pos >= |input| {
      return false, next, result;
    }
    if depth > MAX_DEPTH {
      return false, next, result;
    }
    match input[pos]
    case '+' => ok, next, result := ParseSimpleString(input, pos);
    case '-' => ok, next, result := ParseError(input, pos);
    case ':' => ok, next, result := ParseInteger(input, pos);
    case '$' => ok, next, result := ParseBulkString(input, pos);
    case '*' => ok, next, result := ParseArray(input, pos, depth);
    case _ => ok := false;
  }

  /** `RESPParser::parse`. */
  method Parse(input: string) returns (ok: bool, result: Value, consumed: nat)
    ensures ok <==> Scan(input, 0).Done?
    ensures ok ==> Scan(input, 0) == Done(result, consumed)
    ensures !ok ==> consumed == 0
  {
    consumed := 0;
    if |input| == 0 {
      return false, Null, consumed;
    }
    assert input[0..] == input;
    var next: nat;
    ok, next, result := ParseValue(input, 0, 0);
    if ok {
      consumed := next;
    }
  }
}
