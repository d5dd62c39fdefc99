/** `std::to_string`, `std::stoll` (strtoll, section 7.22.1.4 of ISO C11) and the two
    number helpers of src/utils/utility_functions.cpp. */
module Decimal {
  import opened Text

  const INT64_MIN: int := -0x8000_0000_0000_0000
  const INT64_MAX: int := 0x7FFF_FFFF_FFFF_FFFF
  const INT32_MIN: int := -0x8000_0000
  const INT32_MAX: int := 0x7FFF_FFFF

  predicate InInt64(n: int) {
    INT64_MIN <= n <= INT64_MAX
  }

  /** Two's-complement result of 64-bit signed arithmetic. */
  function Wrap64(n: int): (r: int)
    ensures InInt64(r)
    ensures InInt64(n) ==> r == n
  {
    (n + 0x8000_0000_0000_0000) % 0x1_0000_0000_0000_0000 - 0x8000_0000_0000_0000
  }

  /** C++ integer division, which truncates toward zero. */
  function TruncDiv(a: int, b: int): int
    requires b > 0
  {
    if a >= 0 then a / b else -((-a) / b)
  }

  /** The remainder that goes with it, of the sign of `a`. */
  function TruncMod(a: int, b: int): int
    requires b > 0
  {
    a - TruncDiv(a, b) * b
  }

  // ----- printing -----

  function Digit(d: nat): char
    requires d < 10
  {
    ('0' as int + d) as char
  }

  function Digits(n: nat): (s: string)
    ensures s != []
    ensures forall i :: 0 <= i < |s| ==> IsDigit(s[i])
  {
    if n < 10 then [Digit(n)] else Digits(n / 10) + [Digit(n % 10)]
  }

  /** `std::to_string`. */
  function ToString(n: int): string {
    if n < 0 then "-" + Digits(-n) else Digits(n)
  }

  // ----- reading -----

  function LeadingSpaces(s: string): (w: nat)
    ensures w <= |s|
  {
    if s == [] || !IsSpace(s[0]) then 0 else 1 + LeadingSpaces(s[1..])
  }

  function LeadingDigits(s: string): (n: nat)
    ensures n <= |s|
  {
    if s == [] || !IsDigit(s[0]) then 0 else 1 + LeadingDigits(s[1..])
  }

  /** The number that a string of digits spells. */
  function Value(s: string): int {
    if s == [] then 0
    else Value(s[..|s| - 1]) * 10 + (s[|s| - 1] as int - '0' as int)
  }

  predicate IsSign(c: char) {
    c == '-' || c == '+'
  }

  datatype Stoll = Parsed(value: int, processed: nat) | InvalidArgument | OutOfRange

  /** `std::stoll(str, &processed)`: blanks, an optional sign, then as many digits as there are. */
  function ReadInt64(s: string): (r: Stoll)
    ensures r.Parsed? ==> InInt64(r.value) && 0 < r.processed <= |s|
  {
    var w := LeadingSpaces(s);
    var b := if w < |s| && IsSign(s[w]) then w + 1 else w;
    var n := LeadingDigits(s[b..]);
    if n == 0 then InvalidArgument
    else
      var magnitude := Value(s[b..][..n]);
      var v := if b > w && s[w] == '-' then -magnitude else magnitude;
      if InInt64(v) then Parsed(v, b + n) else OutOfRange
  }

  /** `safeStringToLongLong`: the whole text must be one number. */
  function SafeInt64(s: string): (r: Option<int>)
    ensures r.Some? ==> InInt64(r.value)
  {
    match ReadInt64(s)
    case Parsed(v, processed) => if processed == |s| then Some(v) else None
    case _ => None
  }

  /** `safeStringToInt`. */
  function SafeInt32(s: string): (r: Option<int>)
    ensures r.Some? ==> SafeInt64(s) == r && INT32_MIN <= r.value <= INT32_MAX
  {
    var v := SafeInt64(s);
    if v.Some? && INT32_MIN <= v.value <= INT32_MAX then v else None
  }

  /** `UtilityFunctions::parseInt`. */
  function ParseInt(s: string): (n: int)
    ensures InInt64(n)
  {
    match ReadInt64(s)
    case Parsed(v, _) => v
    case _ => 0
  }

  predicate AllDigits(s: string) {
    forall i :: 0 <= i < |s| ==> IsDigit(s[i])
  }

  predicate AllSpaces(s: string) {
    forall i :: 0 <= i < |s| ==> IsSpace(s[i])
  }

  function SignLength(s: string): nat {
    if s != [] && IsSign(s[0]) then 1 else 0
  }

  /** An optional sign and at least one digit, with no bound on their number. */
  predicate IntegerText(s: string) {
    SignLength(s) < |s| && AllDigits(s[SignLength(s)..])
  }

  function IntegerValue(s: string): int
    requires IntegerText(s)
  {
    var magnitude := Value(s[SignLength(s)..]);
    if s[0] == '-' then -magnitude else magnitude
  }

  /** The number syntax of the wire: blanks, an optional sign, digits, in the 64-bit range. */
  ghost predicate NumberText(t: string, v: int) {
    InInt64(v) &&
    exists w: nat :: w <= |t| && AllSpaces(t[..w]) && IntegerText(t[w..]) && IntegerValue(t[w..]) == v
  }

  /** `UtilityFunctions::isInteger`. */
  method IsInteger(str: string) returns (r: bool)
    ensures r <==> IntegerText(str)
  {
    if |str| == 0 {
      return false;
    }
    var start := 0;
    if str[0] == '-' || str[0] == '+' {
      if |str| == 1 {
        return false;
      }
      start := 1;
    }
    var i := start;
    while i < |str|
      invariant start <= i <= |str|
      invariant forall j :: start <= j < i ==> IsDigit(str[j])
    {
      if !IsDigit(str[i]) {
        assert str[start..][i - start] == str[i];
        return false;
      }
      i := i + 1;
    }
    return true;
  }

  // ----- what the readers accept -----

  lemma LeadingSpacesIs(s: string, w: nat)
    requires w <= |s| && AllSpaces(s[..w]) && (w < |s| ==> !IsSpace(s[w]))
    ensures LeadingSpaces(s) == w
  {
    if w > 0 {
      assert s[..w][0] == s[0];
      assert s[1..][..w - 1] == s[..w][1..];
      LeadingSpacesIs(s[1..], w - 1);
    }
  }

  lemma {:induction false} LeadingSpacesStops(s: string)
    ensures AllSpaces(s[..LeadingSpaces(s)])
    ensures LeadingSpaces(s) < |s| ==> !IsSpace(s[LeadingSpaces(s)])
  {
    if s != [] && IsSpace(s[0]) {
      LeadingSpacesStops(s[1..]);
      assert s[..LeadingSpaces(s)] == [s[0]] + s[1..][..LeadingSpaces(s[1..])];
    }
  }

  lemma LeadingDigitsAll(s: string)
    ensures AllDigits(s) <==> LeadingDigits(s) == |s|
  {
    assert s[..|s|] == s;
  }

  lemma ReadIntegerText(t: string, w: nat)
    requires w <= |t| && AllSpaces(t[..w]) && IntegerText(t[w..])
    ensures ReadInt64(t) == if InInt64(IntegerValue(t[w..])) then Parsed(IntegerValue(t[w..]), |t|) else OutOfRange
  {
    var u := t[w..];
    var b := w + SignLength(u);
    assert t[b..] == u[SignLength(u)..];
    assert u[0] == t[w];
    assert u[SignLength(u)..][0] == t[b];
    LeadingSpacesIs(t, w);
    LeadingDigitsAll(t[b..]);
    assert t[b..][..|t| - b] == t[b..];
  }

  lemma ReadAllIsNumber(t: string)
    requires SafeInt64(t).Some?
    ensures NumberText(t, SafeInt64(t).value)
  {
    hide Value, LeadingSpaces, LeadingDigits;
    var w := LeadingSpaces(t);
    LeadingSpacesStops(t);
    var u := t[w..];
    var b := w + SignLength(u);
    assert t[b..] == u[SignLength(u)..];
    LeadingDigitsAll(t[b..]);
    assert t[b..][..|t| - b] == t[b..];
    assert IntegerText(u) && IntegerValue(u) == SafeInt64(t).value;
  }

  /** `safeStringToLongLong` accepts exactly the number syntax, with its value. */
  lemma SafeInt64Exact(t: string, v: int)
    ensures SafeInt64(t) == Some(v) <==> NumberText(t, v)
  {
    if NumberText(t, v) {
      var w: nat :| w <= |t| && AllSpaces(t[..w]) && IntegerText(t[w..]) && IntegerValue(t[w..]) == v;
      ReadIntegerText(t, w);
    }
    if SafeInt64(t) == Some(v) {
      ReadAllIsNumber(t);
    }
  }

  /** On every text `isInteger` lets through, `parseInt` is the number when it fits in
      64 bits and 0 when it does not. */
  lemma ParseIntExact(s: string)
    requires IntegerText(s)
    ensures ParseInt(s) == if InInt64(IntegerValue(s)) then IntegerValue(s) else 0
  {
    assert s[0..] == s && AllSpaces(s[..0]);
    ReadIntegerText(s, 0);
  }

  /** Out-of-range digits pass the integer test and then count as 0. */
  lemma {:induction false} ParseIntDropsLargeNumbers(n: nat)
    requires n > INT64_MAX
    ensures IntegerText(ToString(n)) && ParseInt(ToString(n)) == 0
  {
    ToStringReads(n);
    ParseIntExact(ToString(n));
  }

  lemma {:induction false} DigitsValue(n: nat)
    ensures Value(Digits(n)) == n
  {
    if n >= 10 {
      DigitsValue(n / 10);
      var s := Digits(n);
      assert s[..|s| - 1] == Digits(n / 10);
    } else {
      assert Digits(n)[..0] == [];
    }
  }

  /** The printed form of any integer is integer text with that value. */
  lemma ToStringReads(n: int)
    ensures IntegerText(ToString(n)) && IntegerValue(ToString(n)) == n
  {
    var s := ToString(n);
    var d := Digits(if n < 0 then -n else n);
    DigitsValue(if n < 0 then -n else n);
    assert IsDigit(d[0]);
    assert s[SignLength(s)..] == d;
  }

  /** `to_string` then `stoll`: the same number exactly when it fits in 64 bits. */
  lemma ToStringRoundTrip(n: int)
    ensures SafeInt64(ToString(n)) == if InInt64(n) then Some(n) else None
    ensures InInt64(n) ==> ParseInt(ToString(n)) == n
  {
    var s := ToString(n);
    ToStringReads(n);
    assert s[0..] == s && AllSpaces(s[..0]);
    ReadIntegerText(s, 0);
  }

  lemma ToStringNoCRLF(n: int)
    ensures NoCRLF(ToString(n))
  {
    forall i: int ensures !CRLFAt(ToString(n), i) {
      if n < 0 && i > 0 && i < |ToString(n)| {
        assert ToString(n)[i] == Digits(-n)[i - 1];
      }
    }
  }
}
