/** Byte strings, the few <cctype> tests the server uses, and the RESP line terminator.
    A byte is modelled by a `char`; nothing below depends on an upper bound for it. */
module Text {

  datatype Option<+T> = None | Some(value: T)

  const CRLF: string := "\r\n"

  /** `isspace` in the C locale: space, \t, \n, \v, \f, \r. */
  predicate IsSpace(c: char) {
    c == ' ' || 9 <= c as int <= 13
  }

  predicate IsDigit(c: char) {
    '0' <= c <= '9'
  }

  /** `toupper` in the C locale. */
  function Upper(c: char): char {
    if 'a' <= c <= 'z' then (c as int - 32) as char else c
  }

  function ToUpper(s: string): string {
    seq(|s|, i requires 0 <= i < |s| => Upper(s[i]))
  }

  predicate CRLFAt(s: string, i: int) {
    0 <= i && i + 1 < |s| && s[i] == '\r' && s[i + 1] == '\n'
  }

  ghost predicate NoCRLF(s: string) {
    forall i: int :: !CRLFAt(s, i)
  }

  /** `std::string::find("\r\n", start)`. */
  function FindCRLF(s: string, start: nat): (r: Option<nat>)
    ensures r.Some? ==> start <= r.value && CRLFAt(s, r.value)
    decreases |s| - start
  {
    if start + 1 >= |s| then None
    else if CRLFAt(s, start) then Some(start)
    else FindCRLF(s, start + 1)
  }

  lemma {:induction false} FindCRLFIsFirst(s: string, start: nat)
    ensures match FindCRLF(s, start)
            case Some(e) => forall i: int :: start <= i < e ==> !CRLFAt(s, i)
            case None => forall i: int :: start <= i ==> !CRLFAt(s, i)
    decreases |s| - start
  {
    if start + 1 < |s| && !CRLFAt(s, start) {
      FindCRLFIsFirst(s, start + 1);
    }
  }

  /** The first terminator is the same in every string that agrees up to it. */
  lemma FindCRLFUnique(s: string, start: nat, e: nat)
    requires start <= e && CRLFAt(s, e)
    requires forall i: int :: start <= i < e ==> !CRLFAt(s, i)
    ensures FindCRLF(s, start) == Some(e)
  {
    FindCRLFIsFirst(s, start);
  }

  lemma FindCRLFExtends(s: string, t: string, start: nat)
    requires FindCRLF(s, start).Some?
    ensures FindCRLF(s + t, start) == FindCRLF(s, start)
  {
    var e := FindCRLF(s, start).value;
    FindCRLFIsFirst(s, start);
    forall i: int | start <= i <= e
      ensures CRLFAt(s + t, i) <==> CRLFAt(s, i)
    {
      assert i + 1 < |s|;
    }
    FindCRLFUnique(s + t, start, e);
  }

  /** Searching from an offset is searching the suffix that starts there. */
  lemma FindCRLFShift(s: string, offset: nat, start: nat)
    requires offset <= |s|
    ensures match FindCRLF(s[offset..], start)
            case Some(e) => FindCRLF(s, offset + start) == Some(offset + e)
            case None => FindCRLF(s, offset + start) == None
  {
    var u := s[offset..];
    FindCRLFIsFirst(u, start);
    FindCRLFIsFirst(s, offset + start);
    forall i: int | 0 <= i
      ensures CRLFAt(u, i) <==> CRLFAt(s, offset + i)
    {
    }
    match FindCRLF(u, start)
    case Some(e) =>
      forall i: int | offset + start <= i < offset + e ensures !CRLFAt(s, i) {
        assert !CRLFAt(u, i - offset);
      }
      FindCRLFUnique(s, offset + start, offset + e);
    case None =>
      var r := FindCRLF(s, offset + start);
      if r.Some? {
        assert CRLFAt(u, r.value - offset);
      }
  }

  /** A line whose text holds no terminator ends at the one printed after it,
      also when the text ends in a carriage return. */
  lemma LineEnds(marker: char, text: string, t: string)
    requires NoCRLF(text)
    ensures FindCRLF([marker] + text + CRLF + t, 1) == Some(1 + |text|)
  {
    var s := [marker] + text + CRLF + t;
    var e := 1 + |text|;
    assert s[e] == '\r' && s[e + 1] == '\n';
    forall i: int | 1 <= i < e ensures !CRLFAt(s, i) {
      assert s[i] == text[i - 1];
      if i + 1 < e {
        assert s[i + 1] == text[i];
        assert !CRLFAt(text, i - 1);
      }
    }
    FindCRLFUnique(s, 1, e);
  }
}
