/** Glob patterns (`*` any run, `?` any one character, everything else itself) and the greedy
    matcher `UtilityFunctions::matchPattern`, which remembers only the last `*` it met. */
module Glob {
  import opened Text

  /** The meaning of a pattern. */
  predicate Matches(p: string, s: string)
    decreases |p| + |s|
  {
    if p == "" then s == ""
    else if p[0] == '*' then Matches(p[1..], s) || (s != "" && Matches(p, s[1..]))
    else s != "" && Single(p[0], s[0]) && Matches(p[1..], s[1..])
  }

  /** Pattern character `c` is consumed together with `d` in one step. */
  predicate Single(c: char, d: char) {
    c == '?' || c == d
  }

  predicate AllStars(p: string) {
    forall k :: 0 <= k < |p| ==> p[k] == '*'
  }

  /** The matcher from pattern position `i` and string position `j`, with the position of the
      last star met (if any) and the string position it was last retried at. */
  predicate Greedy(p: string, s: string, i: nat, j: nat, star: Option<nat>, mark: nat)
    requires i <= |p| && j <= |s| && mark <= j && (star.Some? ==> star.value < i)
    decreases if star.Some? then |p| - star.value else |p| + 1, |s| - mark, |s| - j
  {
    if j == |s| then AllStars(p[i..])
    else if i < |p| && Single(p[i], s[j]) then Greedy(p, s, i + 1, j + 1, star, mark)
    else if i < |p| && p[i] == '*' then Greedy(p, s, i + 1, j, Some(i), j)
    else star.Some? && Greedy(p, s, star.value + 1, mark + 1, star, mark + 1)
  }

  predicate MatchPattern(p: string, s: string) {
    p == "*" || Greedy(p, s, 0, 0, None, 0)
  }

  lemma StarsUpTo(p: string, from: nat, to: nat)
    requires from <= to <= |p| && (forall k :: from <= k < to ==> p[k] == '*') && (to < |p| ==> p[to] != '*')
    ensures AllStars(p[from..]) <==> to == |p|
  {
    if to < |p| {
      assert p[from..][to - from] == p[to];
    }
  }

  /** `UtilityFunctions::matchPattern`. */
  method MatchPatternLoop(pattern: string, str: string) returns (r: bool)
    ensures r == MatchPattern(pattern, str)
    ensures r ==> Matches(pattern, str)
    ensures pattern == "*" || '*' !in pattern || '*' !in str ==> r == Matches(pattern, str)
  {
    hide Matches, AllStars;
    MatchPatternIsSound(pattern, str);
    if pattern == "*" || '*' !in pattern || '*' !in str {
      MatchPatternIsComplete(pattern, str);
    }
    if pattern == "*" {
      return true;
    }
    var p, s := 0, 0;
    var starP: Option<nat>, starS := None, 0;
    while s < |str|
      invariant 0 <= p <= |pattern| && 0 <= starS <= s <= |str|
      invariant starP.Some? ==> starP.value < p
      invariant Greedy(pattern, str, p, s, starP, starS) == Greedy(pattern, str, 0, 0, None, 0)
      decreases if starP.Some? then |pattern| - starP.value else |pattern| + 1, |str| - starS, |str| - s
    {
      if p < |pattern| && (pattern[p] == '?' || pattern[p] == str[s]) {
        p := p + 1;
        s := s + 1;
      } else if p < |pattern| && pattern[p] == '*' {
        starP := Some(p);
        p := p + 1;
        starS := s;
      } else if starP.Some? {
        p := starP.value + 1;
        starS := starS + 1;
        s := starS;
      } else {
        return false;
      }
    }
    ghost var stop := p;
    while p < |pattern| && pattern[p] == '*'
      invariant stop <= p <= |pattern|
      invariant forall k :: stop <= k < p ==> pattern[k] == '*'
    {
      p := p + 1;
    }
    StarsUpTo(pattern, stop, p);
    return p == |pattern|;
  }

  // ----- what patterns mean -----

  /** A pattern put together from two matches what can be cut in two that they match; with what
      single symbols match this determines the meaning of every pattern. */
  lemma PatternsCompose(p: string, q: string, s: string)
    ensures Matches(p + q, s) <==> exists k: nat :: k <= |s| && Matches(p, s[..k]) && Matches(q, s[k..])
  {
    if Matches(p + q, s) {
      var k := Cut(p, q, s);
    }
    if k: nat :| k <= |s| && Matches(p, s[..k]) && Matches(q, s[k..]) {
      Joined(p, q, s, k);
    }
  }

  lemma {:induction false} Cut(p: string, q: string, s: string) returns (k: nat)
    requires Matches(p + q, s)
    ensures k <= |s| && Matches(p, s[..k]) && Matches(q, s[k..])
    decreases |p| + |s|
  {
    if p == "" {
      assert p + q == q && s[..0] == "" && s[0..] == s;
      k := 0;
    } else {
      assert (p + q)[1..] == p[1..] + q;
      if p[0] == '*' && Matches(p[1..] + q, s) {
        k := Cut(p[1..], q, s);
      } else {
        k := Cut(if p[0] == '*' then p else p[1..], q, s[1..]);
        assert s[..k + 1][1..] == s[1..][..k] && s[k + 1..] == s[1..][k..];
        k := k + 1;
      }
    }
  }

  lemma {:induction false} Joined(p: string, q: string, s: string, k: nat)
    requires k <= |s| && Matches(p, s[..k]) && Matches(q, s[k..])
    ensures Matches(p + q, s)
    decreases |p| + k
  {
    if p == "" {
      assert p + q == q && s[k..] == s;
    } else {
      assert (p + q)[1..] == p[1..] + q;
      if p[0] == '*' && Matches(p[1..], s[..k]) {
        Joined(p[1..], q, s, k);
      } else {
        assert s[..k][1..] == s[1..][..k - 1] && s[k..] == s[1..][k - 1..];
        Joined(if p[0] == '*' then p else p[1..], q, s[1..], k - 1);
      }
    }
  }

  /** `*` matches everything, `?` what is one character long, any other symbol itself alone. */
  lemma SymbolsMatch(c: char, s: string)
    ensures Matches([c], s) <==> (c == '*' || (c == '?' && |s| == 1) || s == [c])
    ensures Matches("", s) <==> s == ""
  {
    if c == '*' {
      assert s[|s|..] == "";
      AllStarsMatchNothing([c]);
      StarAbsorbs([c], s, |s|);
    } else {
      assert s != "" ==> s == [s[0]] + s[1..];
    }
  }

  // ----- facts about the meaning -----

  lemma {:induction false} AllStarsMatchNothing(p: string)
    ensures AllStars(p) <==> Matches(p, "")
  {
    if p != "" {
      AllStarsMatchNothing(p[1..]);
      assert p[0] == '*' && AllStars(p[1..]) ==> AllStars(p);
    }
  }

  /** A star may swallow any prefix. */
  lemma {:induction false} StarAbsorbs(p: string, s: string, k: nat)
    requires p != "" && p[0] == '*' && k <= |s| && Matches(p, s[k..])
    ensures Matches(p, s)
    decreases k
  {
    if k > 0 {
      assert s[1..][k - 1..] == s[k..];
      StarAbsorbs(p, s[1..], k - 1);
    }
  }

  /** If a star matches then what follows it matches some suffix. */
  lemma {:induction false} StarStopsSomewhere(p: string, s: string) returns (k: nat)
    requires p != "" && p[0] == '*' && Matches(p, s)
    ensures k <= |s| && Matches(p[1..], s[k..])
    decreases |s|
  {
    if Matches(p[1..], s) {
      k := 0;
      assert s[0..] == s;
    } else {
      k := StarStopsSomewhere(p, s[1..]);
      assert s[1..][k..] == s[k + 1..];
      k := k + 1;
    }
  }

  /** The first `m` characters of a pattern, when none is a star, consume `m` characters. */
  lemma {:induction false} FixedPartConsumes(p: string, s: string, m: nat)
    requires m <= |p| && '*' !in p[..m] && Matches(p, s)
    ensures m <= |s| && Matches(p[m..], s[m..])
  {
    if m > 0 {
      assert p[..m][0] == p[0];
      assert p[1..][..m - 1] == p[..m][1..];
      FixedPartConsumes(p[1..], s[1..], m - 1);
      assert p[1..][m - 1..] == p[m..] && s[1..][m - 1..] == s[m..];
    }
  }

  /** Characters consumed one against one, also a star against a star, keep a match a match. */
  lemma {:induction false} AlignedPrefixMatches(p: string, s: string, n: nat)
    requires n <= |p| && n <= |s| && forall k :: 0 <= k < n ==> Single(p[k], s[k])
    requires Matches(p[n..], s[n..])
    ensures Matches(p, s)
  {
    if n > 0 {
      assert p[1..][n - 1..] == p[n..] && s[1..][n - 1..] == s[n..];
      AlignedPrefixMatches(p[1..], s[1..], n - 1);
    }
  }

  // ----- soundness, on every input -----

  lemma {:induction false} GreedySound(p: string, s: string, i: nat, j: nat, star: Option<nat>, mark: nat)
    requires i <= |p| && j <= |s| && mark <= j && (star.Some? ==> star.value < i && p[star.value] == '*')
    requires Greedy(p, s, i, j, star, mark)
    ensures Matches(p[i..], s[j..]) || (star.Some? && Matches(p[star.value..], s[mark..]))
    decreases if star.Some? then |p| - star.value else |p| + 1, |s| - mark, |s| - j
  {
    if j == |s| {
      AllStarsMatchNothing(p[i..]);
    } else if i < |p| && Single(p[i], s[j]) {
      GreedySound(p, s, i + 1, j + 1, star, mark);
      if Matches(p[i + 1..], s[j + 1..]) {
        AlignedPrefixMatches(p[i..], s[j..], 1);
      }
    } else if i < |p| && p[i] == '*' {
      GreedySound(p, s, i + 1, j, Some(i), j);
    } else {
      GreedySound(p, s, star.value + 1, mark + 1, star, mark + 1);
    }
  }

  lemma MatchPatternIsSound(p: string, s: string)
    ensures MatchPattern(p, s) ==> Matches(p, s)
  {
    if p == "*" {
      assert s[|s|..] == "";
      AllStarsMatchNothing(p);
      StarAbsorbs(p, s, |s|);
    } else if Greedy(p, s, 0, 0, None, 0) {
      GreedySound(p, s, 0, 0, None, 0);
      assert p[0..] == p && s[0..] == s;
    }
  }

  // ----- completeness -----

  /** Since the last star the pattern has consumed one character per character. */
  ghost predicate Segment(p: string, s: string, i: nat, j: nat, star: nat, mark: nat) {
    && star < i <= |p| && mark <= j <= |s|
    && p[star] == '*' && i - star - 1 == j - mark
    && '*' !in p[star + 1..i]
    && Matches(p[star + 1..i], s[mark..j])
  }

  lemma {:induction false} MatchesSnoc(p: string, s: string, c: char, d: char)
    requires Matches(p, s) && '*' !in p && c != '*' && Single(c, d)
    ensures Matches(p + [c], s + [d])
  {
    if p != "" {
      assert (p + [c])[1..] == p[1..] + [c] && (s + [d])[1..] == s[1..] + [d];
      MatchesSnoc(p[1..], s[1..], c, d);
    }
  }

  /** The exchange argument. If a match exists with the last star stopping anywhere, the rest of
      the pattern matches after the segment consumed so far, or the star must move on. */
  lemma LastStarSuffices(p: string, s: string, i: nat, j: nat, star: nat, mark: nat) returns (k: nat)
    requires Segment(p, s, i, j, star, mark)
    requires Matches(p[star..], s[mark..])
    ensures j + k <= |s| && Matches(p[i..], s[j + k..])
    ensures k > 0 ==> Matches(p[star..], s[mark + 1..])
  {
    var m := j - mark;
    k := StarStopsSomewhere(p[star..], s[mark..]);
    assert p[star..][1..] == p[star + 1..] && s[mark..][k..] == s[mark + k..];
    assert p[star + 1..][..m] == p[star + 1..i];
    FixedPartConsumes(p[star + 1..], s[mark + k..], m);
    assert p[star + 1..][m..] == p[i..] && s[mark + k..][m..] == s[j + k..];
    if k > 0 {
      assert s[mark + 1..][k - 1..] == s[mark + k..];
      StarAbsorbs(p[star..], s[mark + 1..], k - 1);
    }
  }

  lemma SegmentStarts(p: string, s: string, star: nat, mark: nat)
    requires star < |p| && p[star] == '*' && mark <= |s|
    ensures Segment(p, s, star + 1, mark, star, mark)
  {
  }

  lemma SegmentGrows(p: string, s: string, i: nat, j: nat, star: nat, mark: nat)
    requires Segment(p, s, i, j, star, mark) && i < |p| && j < |s|
    requires p[i] != '*' && Single(p[i], s[j])
    ensures Segment(p, s, i + 1, j + 1, star, mark)
  {
    MatchesSnoc(p[star + 1..i], s[mark..j], p[i], s[j]);
    assert p[star + 1..i + 1] == p[star + 1..i] + [p[i]];
    assert s[mark..j + 1] == s[mark..j] + [s[j]];
  }

  lemma {:induction false} GreedyComplete(p: string, s: string, i: nat, j: nat, star: Option<nat>, mark: nat)
    requires i <= |p| && j <= |s| && mark <= j && (star.Some? ==> star.value < i && p[star.value] == '*')
    requires '*' !in p || '*' !in s
    requires star.Some? ==> Segment(p, s, i, j, star.value, mark)
    requires if star.Some? then Matches(p[star.value..], s[mark..]) else Matches(p[i..], s[j..])
    ensures Greedy(p, s, i, j, star, mark)
    decreases if star.Some? then |p| - star.value else |p| + 1, |s| - mark, |s| - j
  {
    hide Segment;
    var k := 0;
    if star.Some? {
      k := LastStarSuffices(p, s, i, j, star.value, mark);
    }
    if j == |s| {
      AllStarsMatchNothing(p[i..]);
    } else if i < |p| && Single(p[i], s[j]) {
      assert p[i] != '*' by {
        assert p[i] in p && s[j] in s;
      }
      if star.Some? {
        SegmentGrows(p, s, i, j, star.value, mark);
      }
      assert p[i..][1..] == p[i + 1..] && s[j..][1..] == s[j + 1..];
      GreedyComplete(p, s, i + 1, j + 1, star, mark);
    } else if i < |p| && p[i] == '*' {
      assert s[j..][k..] == s[j + k..];
      StarAbsorbs(p[i..], s[j..], k);
      SegmentStarts(p, s, i, j);
      GreedyComplete(p, s, i + 1, j, Some(i), j);
    } else {
      SegmentStarts(p, s, star.value, mark + 1);
      GreedyComplete(p, s, star.value + 1, mark + 1, star, mark + 1);
    }
  }

  lemma MatchPatternIsComplete(p: string, s: string)
    requires p == "*" || '*' !in p || '*' !in s
    ensures Matches(p, s) ==> MatchPattern(p, s)
  {
    if p != "*" && Matches(p, s) {
      assert p[0..] == p && s[0..] == s;
      GreedyComplete(p, s, 0, 0, None, 0);
    }
  }

  // ----- exactly where the matcher is right -----

  lemma {:induction false} AlignedRun(p: string, s: string, i: nat, n: nat)
    requires i <= n <= |p| && n <= |s| && forall k :: i <= k < n ==> Single(p[k], s[k])
    ensures Greedy(p, s, i, i, None, 0) == Greedy(p, s, n, n, None, 0)
    decreases n - i
  {
    if i < n {
      AlignedRun(p, s, i + 1, n);
    }
  }

  /** Once a run of literal steps has used up the stars, only equal lengths can match. */
  lemma MisalignedFails(p: string, s: string, n: nat)
    requires n <= |p| && n <= |s| && |p| != |s| && '*' !in p[n..]
    requires forall k :: 0 <= k < n ==> Single(p[k], s[k])
    ensures !Greedy(p, s, 0, 0, None, 0)
  {
    AlignedRun(p, s, 0, n);
    if Greedy(p, s, n, n, None, 0) {
      GreedySound(p, s, n, n, None, 0);
      assert p[n..][..|p| - n] == p[n..];
      FixedPartConsumes(p[n..], s[n..], |p| - n);
    }
  }

  lemma {:induction false} QuestionMarks(s: string)
    ensures Matches(seq(|s|, _ => '?'), s)
  {
    if s != "" {
      QuestionMarks(s[1..]);
      assert seq(|s|, _ => '?')[1..] == seq(|s[1..]|, _ => '?');
    }
  }

  function LastStar(p: string): (b: nat)
    requires '*' in p
    ensures b < |p| && p[b] == '*' && '*' !in p[b + 1..]
  {
    var n := |p| - 1;
    if p[n] == '*' then n
    else
      assert p == p[..n] + [p[n]];
      var b := LastStar(p[..n]);
      assert p[b + 1..] == p[..n][b + 1..] + [p[n]];
      b
  }

  function FirstStar(s: string): (a: nat)
    requires '*' in s
    ensures a < |s| && s[a] == '*' && '*' !in s[..a]
  {
    if s[0] == '*' then 0
    else
      assert s == [s[0]] + s[1..];
      var a := 1 + FirstStar(s[1..]);
      assert s[..a] == [s[0]] + s[1..][..a - 1];
      a
  }

  /** A key on which the matcher disagrees with a pattern that contains a star. */
  function HardKey(p: string): string
    requires '*' in p
  {
    var b := LastStar(p) + 1;
    p[..b] + "z" + p[b..]
  }

  /** A pattern on which the matcher disagrees for a key that contains a star. */
  function HardPattern(s: string): string
    requires '*' in s
  {
    var a := FirstStar(s);
    s[..a + 1] + seq(|s| - a, _ => '?')
  }

  lemma {:induction false} SelfMatch(p: string)
    ensures Matches(p, p)
  {
    assert p[|p|..] == "";
    AlignedPrefixMatches(p, p, |p|);
  }

  lemma HardKeyIsMissed(p: string)
    requires '*' in p && p != "*"
    ensures Matches(p, HardKey(p)) && !MatchPattern(p, HardKey(p))
  {
    var b := LastStar(p);
    var s := HardKey(p);
    var v := p[b + 1..];
    assert forall k :: 0 <= k < b + 1 ==> p[k] == s[k];
    MisalignedFails(p, s, b + 1);
    SelfMatch(v);
    assert p[b..][1..] == v && s[b..][2..] == v && p[b..] != "";
    assert Matches(p[b..], v);
    StarAbsorbs(p[b..], s[b..], 2);
    AlignedPrefixMatches(p, s, b);
  }

  lemma HardPatternIsMissed(s: string)
    requires '*' in s
    ensures Matches(HardPattern(s), s) && !MatchPattern(HardPattern(s), s)
  {
    var a := FirstStar(s);
    var p := HardPattern(s);
    var q := seq(|s| - a, _ => '?');
    assert p[a + 1..] == q;
    assert forall k :: 0 <= k < a + 1 ==> p[k] == s[k];
    MisalignedFails(p, s, a + 1);
    QuestionMarks(s[a..]);
    assert p[a..][1..] == q && |s[a..]| == |s| - a;
    assert Matches(p[a..], s[a..]);
    AlignedPrefixMatches(p, s, a);
    assert p != "*" by {
      assert |p| > 1;
    }
  }

  /** A pattern is matched correctly against every key exactly when it has no star or is `*`. */
  lemma PatternsMatchedCorrectly(p: string)
    ensures (forall s :: MatchPattern(p, s) == Matches(p, s)) <==> '*' !in p || p == "*"
  {
    if '*' !in p || p == "*" {
      forall s ensures MatchPattern(p, s) == Matches(p, s) {
        MatchPatternIsSound(p, s);
        MatchPatternIsComplete(p, s);
      }
    } else {
      HardKeyIsMissed(p);
    }
  }

  /** A key is matched correctly against every pattern exactly when it has no star. */
  lemma KeysMatchedCorrectly(s: string)
    ensures (forall p :: MatchPattern(p, s) == Matches(p, s)) <==> '*' !in s
  {
    if '*' !in s {
      forall p ensures MatchPattern(p, s) == Matches(p, s) {
        MatchPatternIsSound(p, s);
        MatchPatternIsComplete(p, s);
      }
    } else {
      HardPatternIsMissed(s);
    }
  }
}
