/** The second glob matcher: RedisDatabase::getMatchingKeys rewrites the pattern into an
    ECMAScript regular expression and lets std::regex_match decide.
    std::regex is modelled on the fragment that the rewriting emits: literals, escaped
    literals, `.`, and a `*` after one of these. */
module GlobRegex {
  import opened Text
  import opened Glob

  datatype Atom = Literal(c: char) | AnyChar

  datatype Item = One(atom: Atom) | Many(atom: Atom)

  /** `.` stands for any character but a line terminator (section 15.10.2.8 of ECMA-262). */
  predicate LineTerminator(c: char) {
    c == '\n' || c == '\r'
  }

  predicate OneLine(s: string) {
    forall i :: 0 <= i < |s| ==> !LineTerminator(s[i])
  }

  predicate AtomMatches(a: Atom, c: char) {
    match a
    case Literal(d) => c == d
    case AnyChar => !LineTerminator(c)
  }

  /** What a regular expression of the fragment matches, in full. */
  predicate FullMatch(r: seq<Item>, s: string)
    decreases |r| + |s|
  {
    if r == [] then s == ""
    else
      match r[0]
      case One(a) => s != "" && AtomMatches(a, s[0]) && FullMatch(r[1..], s[1..])
      case Many(a) => FullMatch(r[1..], s) || (s != "" && AtomMatches(a, s[0]) && FullMatch(r, s[1..]))
  }

  predicate SyntaxCharacter(c: char) {
    c in "^$\\.*+?()[]{}|"
  }

  /** A backslash before these is a class, a control, a back reference or an error. */
  predicate WordCharacter(c: char) {
    IsDigit(c) || 'a' <= c <= 'z' || 'A' <= c <= 'Z' || c == '_'
  }

  /** The atom at the front of `text` and what follows it; None outside the fragment. */
  function ParseAtom(text: string): (r: Option<(Atom, string)>)
    requires text != ""
    ensures r.Some? ==> |r.value.1| < |text|
  {
    if text[0] == '\\' then
      if |text| == 1 || WordCharacter(text[1]) then None else Some((Literal(text[1]), text[2..]))
    else if text[0] == '.' then Some((AnyChar, text[1..]))
    else if SyntaxCharacter(text[0]) then None
    else Some((Literal(text[0]), text[1..]))
  }

  function ParseRegex(text: string): Option<seq<Item>>
    decreases |text|
  {
    if text == "" then Some([])
    else
      match ParseAtom(text)
      case None => None
      case Some((a, rest)) =>
        if rest != "" && rest[0] == '*' then Prepend(Many(a), ParseRegex(rest[1..]))
        else Prepend(One(a), ParseRegex(rest))
  }

  function Prepend(item: Item, rest: Option<seq<Item>>): Option<seq<Item>> {
    match rest
    case None => None
    case Some(items) => Some([item] + items)
  }

  /** std::regex: it agrees with the semantics above on the fragment, and does outside it
      whatever it does. */
  datatype Compiled = Throws(what: string) | Language(matches: string -> bool)

  type Engine = string -> Compiled

  ghost predicate Conforms(engine: Engine) {
    forall text :: ParseRegex(text).Some? ==> Agrees(engine(text), ParseRegex(text).value)
  }

  ghost predicate Agrees(compiled: Compiled, r: seq<Item>) {
    compiled.Language? && forall k :: compiled.matches(k) == FullMatch(r, k)
  }

  // ----- the rewriting -----

  predicate Escaped(c: char) {
    c in ".^$+|()[]{}"
  }

  function Piece(c: char): string {
    if c == '*' then ".*"
    else if c == '?' then "."
    else if Escaped(c) then ['\\', c]
    else [c]
  }

  function Translate(p: string): string {
    if p == "" then "" else Piece(p[0]) + Translate(p[1..])
  }

  lemma {:induction false} TranslateSnoc(p: string, c: char)
    ensures Translate(p + [c]) == Translate(p) + Piece(c)
  {
    hide Piece;
    if p == "" {
      assert [c][1..] == "";
    } else {
      assert (p + [c])[1..] == p[1..] + [c];
      TranslateSnoc(p[1..], c);
    }
  }

  /** The first loop of getMatchingKeys. */
  method ToRegex(pattern: string) returns (regex: string)
    ensures regex == Translate(pattern)
  {
    regex := "";
    assert pattern[..0] == "" && Translate("") == "";
    hide Translate;
    for i := 0 to |pattern|
      invariant regex == Translate(pattern[..i])
    {
      var c := pattern[i];
      TranslateSnoc(pattern[..i], c);
      assert pattern[..i] + [c] == pattern[..i + 1];
      if c == '*' {
        regex := regex + ".*";
      } else if c == '?' {
        regex := regex + ".";
      } else if c == '.' || c == '^' || c == '$' || c == '+' || c == '|' ||
        c == '(' || c == ')' || c == '[' || c == ']' || c == '{' || c == '}' {
        EscapedPiece(c);
        assert regex + ['\\'] + [c] == regex + ['\\', c];
        regex := regex + ['\\'] + [c];
      } else {
        regex := regex + [c];
      }
    }
    assert pattern[..|pattern|] == pattern;
  }

  lemma EscapedPiece(c: char)
    requires Escaped(c)
    ensures Piece(c) == ['\\', c] && c != '*'
  {
  }

  /** The intended regular expression of a pattern. */
  function Intended(p: string): seq<Item> {
    if p == "" then []
    else [if p[0] == '*' then Many(AnyChar) else if p[0] == '?' then One(AnyChar) else One(Literal(p[0]))]
         + Intended(p[1..])
  }

  lemma TranslateNeverStartsWithStar(p: string)
    ensures Translate(p) != "" ==> Translate(p)[0] != '*'
  {
  }

  /** What the parser makes of the piece of a character other than the backslash. */
  lemma AtomOfPiece(c: char, rest: string)
    requires c != '\\'
    ensures var text := Piece(c) + rest;
            text != "" && ParseAtom(text) == if c == '*' then Some((AnyChar, ['*'] + rest))
                                             else if c == '?' then Some((AnyChar, rest))
                                             else Some((Literal(c), rest))
  {
    var text := Piece(c) + rest;
    if c == '*' {
      assert text[1..] == ['*'] + rest;
    } else if Escaped(c) {
      assert text[2..] == rest;
    } else {
      assert text[1..] == rest;
    }
  }

  lemma ParsedOnce(text: string, a: Atom, rest: string)
    requires text != "" && ParseAtom(text) == Some((a, rest))
    ensures ParseRegex(text) == if rest != "" && rest[0] == '*' then Prepend(Many(a), ParseRegex(rest[1..]))
                                else Prepend(One(a), ParseRegex(rest))
  {
  }

  /** Without backslashes the emitted text parses as intended: every `*` in it belongs to the
      `.` emitted with it. */
  lemma {:induction false} TranslationParses(p: string)
    requires '\\' !in p
    ensures ParseRegex(Translate(p)) == Some(Intended(p))
    decreases |p|
  {
    if p != "" {
      var c, rest := p[0], Translate(p[1..]);
      TranslateNeverStartsWithStar(p[1..]);
      AtomOfPiece(c, rest);
      hide Piece, ParseAtom, ParseRegex;
      TranslationParses(p[1..]);
      if c == '*' {
        assert (['*'] + rest)[1..] == rest;
        ParsedOnce(Piece(c) + rest, AnyChar, ['*'] + rest);
      } else {
        ParsedOnce(Piece(c) + rest, if c == '?' then AnyChar else Literal(c), rest);
      }
    } else {
      EmptyParses();
    }
  }

  lemma EmptyParses()
    ensures ParseRegex(Translate("")) == Some(Intended(""))
  {
  }

  // ----- what the emitted expression matches -----

  predicate Wild(c: char) {
    c == '*' || c == '?'
  }

  predicate HasWildcard(p: string) {
    exists i :: 0 <= i < |p| && Wild(p[i])
  }

  /** The glob meaning, with wildcards that do not cross line terminators. */
  predicate LineMatches(p: string, s: string)
    decreases |p| + |s|
  {
    if p == "" then s == ""
    else if p[0] == '*' then LineMatches(p[1..], s) || (s != "" && !LineTerminator(s[0]) && LineMatches(p, s[1..]))
    else
      && s != ""
      && (if p[0] == '?' then !LineTerminator(s[0]) else p[0] == s[0])
      && LineMatches(p[1..], s[1..])
  }

  lemma {:induction false} IntendedMeaning(p: string, s: string)
    ensures FullMatch(Intended(p), s) <==> LineMatches(p, s)
    decreases |p| + |s|
  {
    if p != "" {
      assert Intended(p)[1..] == Intended(p[1..]);
      IntendedMeaning(p[1..], s);
      if s != "" {
        IntendedMeaning(p[1..], s[1..]);
        IntendedMeaning(p, s[1..]);
      }
    }
  }

  lemma {:induction false} LineMatchesIsGlob(p: string, s: string)
    ensures LineMatches(p, s) ==> Matches(p, s)
    ensures OneLine(s) || !HasWildcard(p) ==> LineMatches(p, s) == Matches(p, s)
    decreases |p| + |s|
  {
    if p != "" {
      LineMatchesIsGlob(p[1..], s);
      if s != "" {
        LineMatchesIsGlob(p[1..], s[1..]);
        LineMatchesIsGlob(p, s[1..]);
      }
    }
  }

  lemma {:induction false} NewlinesAreLiteral(p: string, s: string)
    requires LineMatches(p, s)
    ensures multiset(s)['\n'] == multiset(p)['\n']
    decreases |p| + |s|
  {
    if p != "" {
      assert p == [p[0]] + p[1..];
      if p[0] == '*' && LineMatches(p[1..], s) {
        NewlinesAreLiteral(p[1..], s);
      } else {
        assert s == [s[0]] + s[1..];
        NewlinesAreLiteral(if p[0] == '*' then p else p[1..], s[1..]);
      }
    }
  }

  /** The pattern with a newline in place of every wildcard: a key of the glob language. */
  function Broken(p: string): (s: string) {
    if p == "" then "" else [if Wild(p[0]) then '\n' else p[0]] + Broken(p[1..])
  }

  lemma {:induction false} BrokenMatches(p: string)
    ensures Matches(p, Broken(p))
  {
    if p != "" {
      BrokenMatches(p[1..]);
      var s := Broken(p);
      assert s[1..] == Broken(p[1..]);
      if p[0] == '*' {
        assert Matches(p, s[1..]);
      }
    }
  }

  lemma NewlinesFirst(s: string)
    requires s != ""
    ensures multiset(s)['\n'] == multiset(s[1..])['\n'] + if s[0] == '\n' then 1 else 0
  {
    assert s == [s[0]] + s[1..];
  }

  lemma WildcardLater(p: string)
    requires HasWildcard(p) && !Wild(p[0])
    ensures HasWildcard(p[1..])
  {
    var i :| 0 <= i < |p| && Wild(p[i]);
    assert p[1..][i - 1] == p[i];
  }

  lemma {:induction false} BrokenHasMore(p: string)
    ensures multiset(Broken(p))['\n'] >= multiset(p)['\n']
    ensures HasWildcard(p) ==> multiset(Broken(p))['\n'] > multiset(p)['\n']
  {
    if p != "" {
      BrokenHasMore(p[1..]);
      var s := Broken(p);
      assert s[1..] == Broken(p[1..]);
      NewlinesFirst(p);
      NewlinesFirst(s);
      if HasWildcard(p) && !Wild(p[0]) {
        WildcardLater(p);
      }
    }
  }

  lemma BrokenKey(p: string)
    ensures Matches(p, Broken(p))
    ensures HasWildcard(p) ==> multiset(Broken(p))['\n'] > multiset(p)['\n']
  {
    BrokenMatches(p);
    BrokenHasMore(p);
  }

  /** The emitted text is an expression of the fragment and decides about `s` as the glob does. */
  ghost predicate MeansGlobOn(p: string, s: string) {
    ParseRegex(Translate(p)).Some? && FullMatch(ParseRegex(Translate(p)).value, s) == Matches(p, s)
  }

  /** For a pattern without backslash the expression has exactly the glob meaning on every key
      free of line terminators. */
  lemma RegexMeansGlob(p: string, s: string)
    requires '\\' !in p && OneLine(s)
    ensures MeansGlobOn(p, s)
  {
    TranslationParses(p);
    IntendedMeaning(p, s);
    LineMatchesIsGlob(p, s);
  }

  /** On arbitrary keys it has the glob meaning exactly when the pattern has no wildcard. */
  lemma RegexMeansGlobOnAllKeys(p: string)
    requires '\\' !in p
    ensures (forall s :: MeansGlobOn(p, s)) <==> !HasWildcard(p)
  {
    hide ParseRegex, Translate, FullMatch, LineMatches, Matches, Intended, Broken;
    TranslationParses(p);
    forall s ensures MeansGlobOn(p, s) <==> LineMatches(p, s) == Matches(p, s) {
      IntendedMeaning(p, s);
    }
    if !HasWildcard(p) {
      forall s ensures MeansGlobOn(p, s) {
        LineMatchesIsGlob(p, s);
      }
    } else {
      BrokenKey(p);
      if LineMatches(p, Broken(p)) {
        NewlinesAreLiteral(p, Broken(p));
      }
      assert !MeansGlobOn(p, Broken(p));
    }
  }

  lemma {:induction false} StarStaysInLine(s: string)
    requires LineMatches("*", s)
    ensures OneLine(s)
  {
    if s != "" {
      StarStaysInLine(s[1..]);
      assert forall i :: 0 < i < |s| ==> s[i] == s[1..][i - 1];
    }
  }

  /** A key is found correctly by every pattern without backslash exactly when it is free of
      line terminators. */
  lemma KeysFoundCorrectly(s: string)
    ensures (forall p :: '\\' !in p ==> MeansGlobOn(p, s)) <==> OneLine(s)
  {
    hide ParseRegex, Translate, FullMatch, LineMatches, Matches, Intended, OneLine;
    if OneLine(s) {
      forall p | '\\' !in p ensures MeansGlobOn(p, s) {
        RegexMeansGlob(p, s);
      }
    }
    if forall p :: '\\' !in p ==> MeansGlobOn(p, s) {
      assert '\\' !in "*" && MeansGlobOn("*", s);
      MatchPatternIsSound("*", s);
      TranslationParses("*");
      IntendedMeaning("*", s);
      StarStaysInLine(s);
    }
  }

  /** Both matchers agree on keys free of stars and line terminators. */
  lemma MatchersAgree(p: string, s: string)
    requires '\\' !in p && OneLine(s) && '*' !in s
    ensures ParseRegex(Translate(p)).Some? && FullMatch(ParseRegex(Translate(p)).value, s) == MatchPattern(p, s)
  {
    RegexMeansGlob(p, s);
    MatchPatternIsSound(p, s);
    MatchPatternIsComplete(p, s);
  }

  // ----- backslashes -----

  function NonStars(p: string): string {
    if p == "" then "" else if p[0] == '*' then NonStars(p[1..]) else [p[0]] + NonStars(p[1..])
  }

  /** A glob match is at least as long as the pattern without its stars, and character by
      character equal to it when it is no longer. */
  lemma {:induction false} ShortestMatch(p: string, s: string)
    requires Matches(p, s)
    ensures |NonStars(p)| <= |s|
    ensures |NonStars(p)| == |s| ==> forall i :: 0 <= i < |s| ==> Single(NonStars(p)[i], s[i])
    decreases |p| + |s|
  {
    if p != "" {
      if p[0] == '*' && Matches(p[1..], s) {
        ShortestMatch(p[1..], s);
      } else if p[0] == '*' {
        ShortestMatch(p, s[1..]);
      } else {
        ShortestMatch(p[1..], s[1..]);
      }
    }
  }

  /** A shortest match of an expression, with `x` for every `.`. */
  function Sample(r: seq<Item>): string {
    if r == [] then ""
    else
      match r[0]
      case Many(_) => Sample(r[1..])
      case One(AnyChar) => ['x'] + Sample(r[1..])
      case One(Literal(c)) => [c] + Sample(r[1..])
  }

  lemma {:induction false} SampleMatches(r: seq<Item>)
    ensures FullMatch(r, Sample(r))
  {
    if r != [] {
      SampleMatches(r[1..]);
      if r[0].One? {
        assert Sample(r)[1..] == Sample(r[1..]);
      }
    }
  }

  /** `s` cannot match `p`: it is too short, or as short as possible and different. */
  ghost predicate Misses(p: string, s: string) {
    |s| < |NonStars(p)| || (|s| == |NonStars(p)| && exists i :: 0 <= i < |s| && !Single(NonStars(p)[i], s[i]))
  }

  /** The first step of the pattern and of its expression: `n` pattern characters that ask for
      the characters `cs` became items whose shortest match is `ds`. */
  ghost predicate Peeled(p: string, n: nat, cs: string, ds: string) {
    && 0 < n <= |p| && NonStars(p) == cs + NonStars(p[n..])
    && ParseRegex(Translate(p)).Some? && ParseRegex(Translate(p[n..])).Some?
    && Sample(ParseRegex(Translate(p)).value) == ds + Sample(ParseRegex(Translate(p[n..])).value)
  }

  lemma PeelPlain(p: string) returns (n: nat, cs: string, ds: string)
    requires p != "" && p[0] != '\\' && ParseRegex(Translate(p)).Some?
    ensures Peeled(p, n, cs, ds) && n == 1 && |ds| <= |cs| <= 1
    ensures ds != "" ==> ds[0] == p[0] || ds[0] == 'x'
  {
    n := 1;
    var rest, text := Translate(p[1..]), Translate(p);
    TranslateNeverStartsWithStar(p[1..]);
    Unfold(p);
    AtomOfPiece(p[0], rest);
    hide ParseRegex, Sample, Translate, NonStars, Piece, ParseAtom;
    if p[0] == '*' {
      assert (['*'] + rest)[1..] == rest;
      ParseMany(text, AnyChar, ['*'] + rest);
      cs, ds := "", "";
    } else {
      ParseOne(text, if p[0] == '?' then AnyChar else Literal(p[0]), rest);
      cs, ds := [p[0]], [if p[0] == '?' then 'x' else p[0]];
    }
  }

  lemma Unfold(p: string)
    requires p != ""
    ensures Translate(p) == Piece(p[0]) + Translate(p[1..])
    ensures NonStars(p) == (if p[0] == '*' then "" else [p[0]]) + NonStars(p[1..])
  {
  }

  lemma UnfoldTwo(p: string)
    requires |p| > 1 && p[0] == '\\'
    ensures Translate(p) == ['\\'] + (Piece(p[1]) + Translate(p[2..]))
    ensures p[1] == '*' ==> NonStars(p) == ['\\'] + NonStars(p[2..])
    ensures p[1] != '*' ==> NonStars(p) == ['\\', p[1]] + NonStars(p[2..])
  {
    BackslashPiece();
    hide Piece, Translate, NonStars;
    Unfold(p);
    Unfold(p[1..]);
    Tail(p);
    if p[1] != '*' {
      Cons2('\\', p[1], NonStars(p[2..]));
    } else {
      Cons2Star('\\', NonStars(p[2..]));
    }
  }

  lemma BackslashPiece()
    ensures Piece('\\') == ['\\']
  {
  }

  lemma Tail(p: string)
    requires |p| > 1
    ensures p[1..] != "" && p[1..][0] == p[1] && p[1..][1..] == p[2..]
  {
  }

  lemma Cons2(c: char, d: char, s: string)
    ensures [c] + ([d] + s) == [c, d] + s
  {
  }

  lemma Cons2Star(c: char, s: string)
    ensures [c] + ("" + s) == [c] + s
  {
    assert "" + s == s;
  }

  lemma ParseMany(text: string, a: Atom, rest: string)
    requires text != "" && ParseAtom(text) == Some((a, rest)) && rest != "" && rest[0] == '*'
    ensures ParseRegex(text) == Prepend(Many(a), ParseRegex(rest[1..]))
    ensures ParseRegex(text).Some? ==> Sample(ParseRegex(text).value) == "" + Sample(ParseRegex(rest[1..]).value)
  {
  }

  lemma PeelEscapedAgain(p: string) returns (n: nat, cs: string, ds: string)
    requires |p| > 1 && p[0] == '\\' && Escaped(p[1]) && ParseRegex(Translate(p)).Some?
    ensures Peeled(p, n, cs, ds) && n == 2 && cs == ['\\', '.'] && ds == ['\\', 'x']
  {
    TranslateNeverStartsWithStar(p[2..]);
    hide ParseRegex, Sample, Translate, NonStars;
    UnfoldTwo(p);
    EscapedPiece(p[1]);
    EscapeMeetsBackslash(p[1], Translate(p[2..]));
    n, cs, ds := 2, ['\\', '.'], ['\\', 'x'];
  }

  /** The backslash of the pattern takes the one meant to escape `c`, which is left bare. */
  lemma EscapeMeetsBackslash(c: char, rest: string)
    requires Escaped(c) && (rest != "" ==> rest[0] != '*')
    requires ParseRegex(['\\'] + (['\\', c] + rest)).Some?
    ensures c == '.' && ParseRegex(rest).Some?
    ensures Sample(ParseRegex(['\\'] + (['\\', c] + rest)).value) == ['\\', 'x'] + Sample(ParseRegex(rest).value)
  {
    hide ParseRegex, Sample;
    var text, bare := ['\\'] + (['\\', c] + rest), [c] + rest;
    AtomsMet(c, rest);
    hide ParseAtom;
    ParseOne(text, Literal('\\'), bare);
    if c != '.' {
      ParseNone(bare);
    }
    ParseOne(bare, AnyChar, rest);
    Cons2('\\', 'x', Sample(ParseRegex(rest).value));
  }

  lemma AtomsMet(c: char, rest: string)
    requires Escaped(c)
    ensures ParseAtom(['\\'] + (['\\', c] + rest)) == Some((Literal('\\'), [c] + rest))
    ensures ParseAtom([c] + rest) == if c == '.' then Some((AnyChar, rest)) else None
  {
    assert (['\\'] + (['\\', c] + rest))[2..] == [c] + rest && ([c] + rest)[1..] == rest;
  }

  lemma ParseOne(text: string, a: Atom, rest: string)
    requires text != "" && ParseAtom(text) == Some((a, rest)) && (rest != "" ==> rest[0] != '*')
    ensures ParseRegex(text) == Prepend(One(a), ParseRegex(rest))
    ensures ParseRegex(text).Some? ==>
              Sample(ParseRegex(text).value) == [if a.Literal? then a.c else 'x'] + Sample(ParseRegex(rest).value)
  {
  }

  lemma ParseNone(text: string)
    requires text != "" && ParseAtom(text).None?
    ensures ParseRegex(text).None?
  {
  }

  lemma PeelBackslash(p: string) returns (n: nat, cs: string, ds: string)
    requires |p| > 1 && p[0] == '\\' && !Escaped(p[1]) && ParseRegex(Translate(p)).Some?
    ensures Peeled(p, n, cs, ds) && n == 2 && |ds| < |cs|
    ensures ds != "" ==> |ds| == 1 && (ds[0] == p[1] || ds[0] == '.')
  {
    TranslateNeverStartsWithStar(p[2..]);
    var c, rest, text := p[1], Translate(p[2..]), Translate(p);
    hide ParseRegex, Sample, Translate, NonStars;
    UnfoldTwo(p);
    n := 2;
    AtomAfterBackslash(c, rest);
    ParsedHasAtom(text);
    hide Piece, ParseAtom;
    if c == '*' {
      ParseMany(text, Literal('.'), ['*'] + rest);
      assert (['*'] + rest)[1..] == rest;
      cs, ds := ['\\'], "";
    } else {
      cs, ds := ['\\', c], [if c == '?' then '.' else c];
      ParseOne(text, Literal(if c == '?' then '.' else c), rest);
    }
  }

  /** What the parser makes of a backslash before the piece of a character that is not escaped. */
  lemma AtomAfterBackslash(c: char, rest: string)
    requires !Escaped(c)
    ensures var text := ['\\'] + (Piece(c) + rest);
            ParseAtom(text).Some? ==>
              ParseAtom(text) == if c == '*' then Some((Literal('.'), ['*'] + rest))
                                 else Some((Literal(if c == '?' then '.' else c), rest))
  {
    assert (['\\'] + (Piece(c) + rest))[2..] == if c == '*' then ['*'] + rest else rest;
  }

  lemma {:induction false} SampleMisses(p: string)
    requires ParseRegex(Translate(p)).Some?
    ensures |Sample(ParseRegex(Translate(p)).value)| <= |NonStars(p)|
    ensures OneLine(p) ==> OneLine(Sample(ParseRegex(Translate(p)).value))
    ensures '\\' in p ==> Misses(p, Sample(ParseRegex(Translate(p)).value))
    decreases |p|
  {
    hide ParseRegex, Translate, NonStars, Sample;
    if p == "" {
      SampleOfNothing();
    } else {
      var n, cs, ds;
      if p[0] != '\\' {
        n, cs, ds := PeelPlain(p);
      } else {
        LoneBackslash(p);
        if Escaped(p[1]) {
          n, cs, ds := PeelEscapedAgain(p);
          assert !Single(cs[1], ds[1]);
        } else {
          n, cs, ds := PeelBackslash(p);
        }
      }
      SampleMisses(p[n..]);
      assert p == p[..n] + p[n..];
      var s, ns := Sample(ParseRegex(Translate(p[n..])).value), NonStars(p[n..]);
      if '\\' in p[n..] {
        MissesLater(cs, ns, ds, s);
      } else if '\\' in p && |ds + s| == |cs + ns| {
        assert !Single((cs + ns)[1], (ds + s)[1]);
      }
    }
  }

  lemma MissesLater(cs: string, ns: string, ds: string, s: string)
    requires |ds| <= |cs| && |s| <= |ns|
    requires |s| < |ns| || exists i :: 0 <= i < |s| && !Single(ns[i], s[i])
    ensures |ds + s| < |cs + ns|
         || (|ds + s| == |cs + ns| && exists i :: 0 <= i < |ds + s| && !Single((cs + ns)[i], (ds + s)[i]))
  {
    if |ds| == |cs| && |s| == |ns| {
      var i :| 0 <= i < |s| && !Single(ns[i], s[i]);
      assert !Single((cs + ns)[|cs| + i], (ds + s)[|cs| + i]);
    }
  }

  lemma LoneBackslash(p: string)
    requires p != "" && p[0] == '\\' && ParseRegex(Translate(p)).Some?
    ensures |p| > 1
  {
    BackslashPiece();
    TranslateNothing();
    hide ParseRegex, Piece, Translate, NonStars;
    var rest := p[1..];
    assert |rest| == |p| - 1;
    Unfold(p);
    ParsedHasAtom(Translate(p));
  }

  lemma TranslateNothing()
    ensures Translate("") == ""
  {
  }

  lemma ParsedHasAtom(text: string)
    requires text != "" && ParseRegex(text).Some?
    ensures ParseAtom(text).Some?
  {
  }

  lemma SampleOfNothing()
    ensures ParseRegex(Translate("")) == Some([]) && Sample([]) == ""
  {
  }

  /** A backslash is never right: whenever the emitted text is an expression of the fragment,
      it means the glob on one-line keys exactly when the pattern has no backslash. */
  lemma BackslashIsNeverRight(p: string)
    requires OneLine(p) && ParseRegex(Translate(p)).Some?
    ensures (forall s :: OneLine(s) ==> MeansGlobOn(p, s)) <==> '\\' !in p
  {
    hide Translate, NonStars;
    if '\\' !in p {
      forall s | OneLine(s) ensures MeansGlobOn(p, s) {
        RegexMeansGlob(p, s);
      }
    } else {
      SampleMisses(p);
      MissedByTheGlob(p);
    }
  }

  lemma MissedByTheGlob(p: string)
    requires ParseRegex(Translate(p)).Some? && Misses(p, Sample(ParseRegex(Translate(p)).value))
    ensures !MeansGlobOn(p, Sample(ParseRegex(Translate(p)).value))
  {
    hide ParseRegex, Translate, NonStars, Sample;
    var r := ParseRegex(Translate(p)).value;
    SampleMatches(r);
    if Matches(p, Sample(r)) {
      ShortestMatch(p, Sample(r));
    }
  }

  /** Without any condition on keys: an emitted expression means the glob exactly when the
      pattern has neither a backslash nor a wildcard. */
  lemma PatternsTranslatedCorrectly(p: string)
    requires ParseRegex(Translate(p)).Some?
    ensures (forall s :: MeansGlobOn(p, s)) <==> '\\' !in p && !HasWildcard(p)
  {
    hide Translate, NonStars, HasWildcard;
    if '\\' !in p {
      RegexMeansGlobOnAllKeys(p);
    } else {
      SampleMisses(p);
      MissedByTheGlob(p);
    }
  }
}
