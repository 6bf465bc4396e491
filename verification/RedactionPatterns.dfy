/**
 The default redaction patterns (src/log_pipeline/redaction.py) as left-to-right substitutions, and why
 a substitution works segment by segment on a text cut by characters foreign to the pattern.
 `beyond` stands for the word characters past ASCII, which the pattern's `\b` depends on.
 */
module RedactionPatterns {
  import opened Collections
  import opened Text
  import opened Numerals

  /**
   A pattern between word boundaries: a fixed shape (`d` a digit, `h` a digit from six up, `-` a space or
   a dash) or an e-mail address.
   */
  datatype Pattern =
    | Fixed(name: string, shape: string)
    | Email(name: string)

  const PATTERNS: seq<Pattern> := [
    Fixed("VID", "dddddddddddddddd"),
    Fixed("AADHAAR", "dddd-dddd-dddd"),
    Fixed("AADHAAR", "dddddddddddd"),
    Fixed("MOBILE", "hddddddddd"),
    Email("EMAIL")
  ]

  const NUL: char := 0 as char

  function Placeholder(p: Pattern): string {
    "[REDACTED:" + p.name + "]"
  }

  // ------------------------------------------------------------------
  // Matching
  // ------------------------------------------------------------------

  predicate Fits(code: char, c: char) {
    if code == 'd' then IsDigit(c) else if code == 'h' then '6' <= c <= '9' else c == ' ' || c == '-'
  }

  predicate IsLetter(c: char) {
    'A' <= c <= 'Z' || 'a' <= c <= 'z'
  }

  predicate IsLocal(c: char) {
    IsLetter(c) || IsDigit(c) || c == '.' || c == '_' || c == '%' || c == '+' || c == '-'
  }

  predicate IsDomain(c: char) {
    IsLetter(c) || IsDigit(c) || c == '.' || c == '-'
  }

  /** Whether a word character is at position `i`; none is past the end. */
  predicate WordAt(s: string, i: nat, beyond: char -> bool) {
    i < |s| && IsWord(s[i], beyond)
  }

  predicate FitsShape(shape: string, s: string) {
    |shape| <= |s| && forall k :: 0 <= k < |shape| ==> Fits(shape[k], s[k])
  }

  /** The end of the last top-level domain starting before `p` in a domain, or 0: the greedy choice. */
  function DomainEnd(s: string, p: nat, beyond: char -> bool): (e: nat)
    requires p <= |s|
    ensures e <= |s|
  {
    if p < 2 then 0
    else
      var e := TopLevelEnd(s, p, beyond);
      if e != 0 then e else DomainEnd(s, p - 1, beyond)
  }

  /** The end of the top-level domain that starts at `p`, or 0 if none does. */
  function TopLevelEnd(s: string, p: nat, beyond: char -> bool): (e: nat)
    requires 0 < p <= |s|
    ensures e <= |s|
  {
    var letters := Run(s[p..], IsLetter);
    if s[p - 1] == '.' && letters >= 2 && !WordAt(s, p + letters, beyond) then p + letters else 0
  }

  /** The length of the match at the start of `s`, or 0; `before`: a word character precedes `s`. */
  function MatchHere(p: Pattern, before: bool, s: string, beyond: char -> bool): (n: nat)
    ensures n <= |s|
  {
    if s == "" || before == IsWord(s[0], beyond) then 0
    else
      match p
      case Fixed(_, shape) =>
        var n := |shape|;
        if FitsShape(shape, s) && n > 0 && IsWord(s[n - 1], beyond) != WordAt(s, n, beyond) then n else 0
      case Email(_) => AddressLength(s, beyond)
  }

  /** The length of the address at the start of `s`, or 0. */
  function AddressLength(s: string, beyond: char -> bool): (n: nat)
    ensures n <= |s|
  {
    var n := Run(s, IsLocal);
    if n == 0 || n == |s| || s[n] != '@' then 0
    else
      var e := DomainLength(s[n + 1..], beyond);
      if e == 0 then 0 else n + 1 + e
  }

  /** The length of the domain at the start of `s`, or 0. */
  function DomainLength(s: string, beyond: char -> bool): (e: nat)
    ensures e <= |s|
  {
    DomainEnd(s, Run(s, IsDomain), beyond)
  }

  type Matcher = (bool, string) -> nat

  function MatcherOf(p: Pattern, beyond: char -> bool): Matcher {
    (before, s) => MatchHere(p, before, s, beyond)
  }

  function WordOf(beyond: char -> bool): char -> bool {
    c => IsWord(c, beyond)
  }

  predicate IsMatch(m: Matcher, before: bool, s: string) {
    0 < m(before, s) <= |s|
  }

  /** How many characters one step consumes, and what it writes for them. */
  function Step(m: Matcher, before: bool, s: string): (k: nat)
    ensures k >= 1 && (s != "" ==> k <= |s|)
  {
    if IsMatch(m, before, s) then m(before, s) else 1
  }

  function Written(m: Matcher, placeholder: string, before: bool, s: string): string
    requires s != ""
  {
    if IsMatch(m, before, s) then placeholder else [s[0]]
  }

  /** `subn`: every match, from the left, becomes the placeholder. */
  function Substituted(m: Matcher, word: char -> bool, placeholder: string, before: bool, s: string): string
    decreases |s|
  {
    if s == "" then ""
    else
      var k := Step(m, before, s);
      Written(m, placeholder, before, s) + Substituted(m, word, placeholder, word(s[k - 1]), s[k..])
  }

  function Matches(m: Matcher, word: char -> bool, before: bool, s: string): nat
    decreases |s|
  {
    if s == "" then 0
    else
      var k := Step(m, before, s);
      (if IsMatch(m, before, s) then 1 else 0) + Matches(m, word, word(s[k - 1]), s[k..])
  }

  /** A text with a pattern's matches replaced, and how many there were. */
  function Scrub(p: Pattern, s: string, beyond: char -> bool): string {
    Substituted(MatcherOf(p, beyond), WordOf(beyond), Placeholder(p), false, s)
  }

  function Hits(p: Pattern, s: string, beyond: char -> bool): nat {
    Matches(MatcherOf(p, beyond), WordOf(beyond), false, s)
  }

  // ------------------------------------------------------------------
  // A match does not look past a character foreign to it
  // ------------------------------------------------------------------

  /** No word character, and none that a match of the pattern could hold. */
  predicate Foreign(p: Pattern, c: char, beyond: char -> bool) {
    && !IsWord(c, beyond)
    && match p
       case Fixed(_, shape) => forall k :: 0 <= k < |shape| ==> !Fits(shape[k], c)
       case Email(_) => !IsLocal(c) && c != '@'
  }

  lemma {:induction false} NulIsForeign(p: Pattern, beyond: char -> bool)
    ensures Foreign(p, NUL, beyond)
  {
  }

  lemma {:induction false} RunStops(a: string, c: char, b: string, p: char -> bool)
    requires !p(c)
    ensures Run(a + [c] + b, p) == Run(a, p)
    decreases |a|
  {
    var s := a + [c] + b;
    if a != "" {
      assert s[0] == a[0] && s[1..] == a[1..] + [c] + b;
      RunStops(a[1..], c, b, p);
    } else {
      assert s[0] == c;
    }
  }

  lemma {:induction false} DomainEndStops(a: string, c: char, b: string, p: nat, beyond: char -> bool)
    requires p <= |a| && !IsLetter(c) && !IsWord(c, beyond)
    ensures DomainEnd(a + [c] + b, p, beyond) == DomainEnd(a, p, beyond)
    decreases p
  {
    if p >= 2 {
      TopLevelStops(a, c, b, p, beyond);
      DomainEndStops(a, c, b, p - 1, beyond);
    }
  }

  lemma {:induction false} TopLevelStops(a: string, c: char, b: string, p: nat, beyond: char -> bool)
    requires 0 < p <= |a| && !IsLetter(c) && !IsWord(c, beyond)
    ensures TopLevelEnd(a + [c] + b, p, beyond) == TopLevelEnd(a, p, beyond)
  {
    Prefixed(a, c, b, p);
    RunStops(a[p..], c, b, IsLetter);
    WordStops(a, c, b, p + Run(a[p..], IsLetter), beyond);
  }

  lemma {:induction false} WordStops(a: string, c: char, b: string, i: nat, beyond: char -> bool)
    requires i <= |a| && !IsWord(c, beyond)
    ensures WordAt(a + [c] + b, i, beyond) == WordAt(a, i, beyond)
  {
    var s := a + [c] + b;
    assert s[i] == if i < |a| then a[i] else c;
  }

  lemma {:induction false} FixedStops(shape: string, a: string, c: char, b: string)
    requires forall k :: 0 <= k < |shape| ==> !Fits(shape[k], c)
    ensures FitsShape(shape, a + [c] + b) == FitsShape(shape, a)
  {
    var s := a + [c] + b;
    assert s[|a|] == c;
    assert |shape| > |a| ==> !Fits(shape[|a|], c);
    assert forall k :: 0 <= k < |shape| && |shape| <= |a| ==> s[k] == a[k];
  }

  lemma {:induction false} MatchStops(p: Pattern, before: bool, a: string, c: char, b: string, beyond: char -> bool)
    requires Foreign(p, c, beyond)
    ensures MatchHere(p, before, a + [c] + b, beyond) == MatchHere(p, before, a, beyond)
  {
    var s := a + [c] + b;
    if a == "" {
      ForeignMatchesNothing(p, before, c, b, beyond);
      assert s == [c] + b;
    } else {
      assert s[0] == a[0];
      match p
      case Fixed(_, shape) => FixedMatchStops(p, before, a, c, b, beyond);
      case Email(_) => EmailMatchStops(p, before, a, c, b, beyond);
    }
  }

  lemma {:induction false} ForeignMatchesNothing(p: Pattern, before: bool, c: char, b: string, beyond: char -> bool)
    requires Foreign(p, c, beyond)
    ensures MatchHere(p, before, [c] + b, beyond) == 0
  {
    var s := [c] + b;
    assert s[0] == c;
    if p.Fixed? && p.shape != "" {
      assert !Fits(p.shape[0], s[0]);
    }
  }

  lemma {:induction false} FixedMatchStops(
    p: Pattern, before: bool, a: string, c: char, b: string, beyond: char -> bool)
    requires Foreign(p, c, beyond) && p.Fixed? && a != "" && (a + [c] + b)[0] == a[0]
    ensures MatchHere(p, before, a + [c] + b, beyond) == MatchHere(p, before, a, beyond)
  {
    FixedStops(p.shape, a, c, b);
    var n := |p.shape|;
    if 0 < n <= |a| {
      WordStops(a, c, b, n, beyond);
      assert (a + [c] + b)[n - 1] == a[n - 1];
    }
  }

  lemma {:induction false} DomainLengthStops(a: string, c: char, b: string, beyond: char -> bool)
    requires !IsLocal(c) && !IsWord(c, beyond)
    ensures DomainLength(a + [c] + b, beyond) == DomainLength(a, beyond)
  {
    RunStops(a, c, b, IsDomain);
    DomainEndStops(a, c, b, Run(a, IsDomain), beyond);
  }

  lemma {:induction false} AfterStops(a: string, c: char, b: string, n: nat)
    requires n < |a|
    ensures (a + [c] + b)[n] == a[n] && (a + [c] + b)[n + 1..] == a[n + 1..] + [c] + b
  {
  }

  lemma {:induction false} EmailMatchStops(
    p: Pattern, before: bool, a: string, c: char, b: string, beyond: char -> bool)
    requires Foreign(p, c, beyond) && p.Email? && a != "" && (a + [c] + b)[0] == a[0]
    ensures MatchHere(p, before, a + [c] + b, beyond) == MatchHere(p, before, a, beyond)
  {
    RunStops(a, c, b, IsLocal);
    var n := Run(a, IsLocal);
    if n < |a| {
      AfterStops(a, c, b, n);
      DomainLengthStops(a[n + 1..], c, b, beyond);
    } else {
      assert (a + [c] + b)[n] == c;
    }
  }

  lemma {:induction false} Prefixed(a: string, c: char, b: string, n: nat)
    requires 0 < n <= |a|
    ensures var s := a + [c] + b;
            s != "" && s[n - 1] == a[n - 1] && s[n..] == a[n..] + [c] + b && s[0] == a[0]
  {
  }

  /** A matcher that treats the character like the end of the text. */
  ghost predicate StopsAt(m: Matcher, c: char) {
    forall before: bool, a: string, b: string :: StopsHere(m, before, a, c, b)
  }

  predicate StopsHere(m: Matcher, before: bool, a: string, c: char, b: string) {
    m(before, a) <= |a| && m(before, a + [c] + b) == m(before, a)
  }

  lemma {:induction false} PatternStopsAt(p: Pattern, c: char, beyond: char -> bool)
    requires Foreign(p, c, beyond)
    ensures StopsAt(MatcherOf(p, beyond), c) && !WordOf(beyond)(c)
  {
    forall before: bool, a: string, b: string
      ensures StopsHere(MatcherOf(p, beyond), before, a, c, b)
    {
      MatchStops(p, before, a, c, b, beyond);
    }
  }

  /** `s` is `a`, the character, and `b`. */
  predicate Cuts(s: string, a: string, c: char, b: string) {
    s == a + [c] + b
  }

  lemma {:induction false} CutsLater(s: string, a: string, c: char, b: string, k: nat)
    requires Cuts(s, a, c, b) && 0 < k <= |a|
    ensures |a| < |s| && Cuts(s[k..], a[k..], c, b) && s[k - 1] == a[k - 1] && s[0] == a[0]
  {
    Prefixed(a, c, b, k);
  }

  /** A step is the same whether the text ends or the character follows. */
  lemma {:induction false} SameStep(
    m: Matcher, placeholder: string, before: bool, s: string, a: string, c: char, b: string)
    requires StopsAt(m, c) && a != "" && Cuts(s, a, c, b)
    ensures s != "" && IsMatch(m, before, s) == IsMatch(m, before, a)
    ensures Step(m, before, s) == Step(m, before, a) <= |a|
    ensures Written(m, placeholder, before, s) == Written(m, placeholder, before, a)
  {
    assert StopsHere(m, before, a, c, b);
    CutsLater(s, a, c, b, Step(m, before, a));
  }

  lemma {:induction false} AtCut(
    m: Matcher, word: char -> bool, placeholder: string, before: bool, s: string, c: char, b: string)
    requires StopsAt(m, c) && !word(c) && Cuts(s, "", c, b)
    ensures Substituted(m, word, placeholder, before, s) == [c] + Substituted(m, word, placeholder, false, b)
    ensures Matches(m, word, before, s) == Matches(m, word, false, b)
  {
    assert StopsHere(m, before, "", c, b);
    assert s == [c] + b && ([c] + b)[1..] == b;
  }

  lemma {:induction false} FirstStep(
    m: Matcher, word: char -> bool, placeholder: string, before: bool, s: string, k: nat, rest: string)
    requires s != "" && k == Step(m, before, s) && rest == s[k..]
    ensures Substituted(m, word, placeholder, before, s) ==
            Written(m, placeholder, before, s) + Substituted(m, word, placeholder, word(s[k - 1]), rest)
    ensures Matches(m, word, before, s) ==
            (if IsMatch(m, before, s) then 1 else 0) + Matches(m, word, word(s[k - 1]), rest)
  {
  }

  lemma {:induction false} SubstitutedAcross(
    m: Matcher, word: char -> bool, placeholder: string, before: bool, s: string, a: string, c: char, b: string)
    requires StopsAt(m, c) && !word(c) && Cuts(s, a, c, b)
    ensures Substituted(m, word, placeholder, before, s) ==
            Substituted(m, word, placeholder, before, a) + ([c] + Substituted(m, word, placeholder, false, b))
    decreases |a|
  {
    if a == "" {
      AtCut(m, word, placeholder, before, s, c, b);
    } else {
      var k := Step(m, before, a);
      SameStep(m, placeholder, before, s, a, c, b);
      CutsLater(s, a, c, b, k);
      var later, rest := s[k..], a[k..];
      SubstitutedAcross(m, word, placeholder, word(a[k - 1]), later, rest, c, b);
      FirstStep(m, word, placeholder, before, s, k, later);
      FirstStep(m, word, placeholder, before, a, k, rest);
      Associate(Written(m, placeholder, before, a),
                Substituted(m, word, placeholder, word(a[k - 1]), rest),
                [c] + Substituted(m, word, placeholder, false, b));
    }
  }

  lemma {:induction false} MatchesAcross(
    m: Matcher, word: char -> bool, before: bool, s: string, a: string, c: char, b: string)
    requires StopsAt(m, c) && !word(c) && Cuts(s, a, c, b)
    ensures Matches(m, word, before, s) == Matches(m, word, before, a) + Matches(m, word, false, b)
    decreases |a|
  {
    if a == "" {
      AtCut(m, word, "", before, s, c, b);
    } else {
      var k := Step(m, before, a);
      SameStep(m, "", before, s, a, c, b);
      CutsLater(s, a, c, b, k);
      var later, rest := s[k..], a[k..];
      MatchesAcross(m, word, word(a[k - 1]), later, rest, c, b);
      FirstStep(m, word, "", before, s, k, later);
      FirstStep(m, word, "", before, a, k, rest);
    }
  }

  /** A substitution treats what stands before and after a foreign character separately. */
  lemma {:induction false} ScrubAcross(p: Pattern, a: string, c: char, b: string, beyond: char -> bool)
    requires Foreign(p, c, beyond)
    ensures Scrub(p, a + [c] + b, beyond) == Scrub(p, a, beyond) + ([c] + Scrub(p, b, beyond))
    ensures Hits(p, a + [c] + b, beyond) == Hits(p, a, beyond) + Hits(p, b, beyond)
  {
    PatternStopsAt(p, c, beyond);
    var m, word := MatcherOf(p, beyond), WordOf(beyond);
    SubstitutedAcross(m, word, Placeholder(p), false, a + [c] + b, a, c, b);
    MatchesAcross(m, word, false, a + [c] + b, a, c, b);
  }

  // ------------------------------------------------------------------
  // Texts a pattern leaves alone
  // ------------------------------------------------------------------

  predicate StartsWithDigit(p: Pattern) {
    p.Fixed? ==> p.shape != "" && (p.shape[0] == 'd' || p.shape[0] == 'h')
  }

  predicate AllWord(s: string, word: char -> bool) {
    forall i :: 0 <= i < |s| ==> word(s[i])
  }

  lemma {:induction false} NoMatchInWord(p: Pattern, before: bool, s: string, beyond: char -> bool)
    requires StartsWithDigit(p) && AllWord(s, WordOf(beyond)) && (before || (s != "" ==> !IsDigit(s[0])))
    ensures MatchHere(p, before, s, beyond) == 0
  {
    if s != "" {
      assert WordOf(beyond)(s[0]);
      if p.Email? {
        var n := Run(s, IsLocal);
        assert n < |s| ==> WordOf(beyond)(s[n]);
      }
    }
  }

  lemma {:induction false} WordIsKept(
    m: Matcher, word: char -> bool, placeholder: string, before: bool, s: string, all: string, k: nat)
    requires k <= |all| && s == all[k..] && AllWord(all, word) && (k > 0 ==> before)
    requires forall i, b :: 0 <= i <= |all| && (i > 0 ==> b) ==> m(b, all[i..]) == 0
    ensures Substituted(m, word, placeholder, before, s) == s && Matches(m, word, before, s) == 0
    decreases |s|
  {
    if s != "" {
      assert word(s[0]) && s[1..] == all[k + 1..];
      assert m(before, all[k..]) == 0;
      WordIsKept(m, word, placeholder, true, s[1..], all, k + 1);
    }
  }

  /** One word that does not start with a digit is not touched. */
  lemma {:induction false} WordIsUntouched(p: Pattern, s: string, beyond: char -> bool)
    requires StartsWithDigit(p) && AllWord(s, WordOf(beyond)) && (s != "" ==> !IsDigit(s[0]))
    ensures Scrub(p, s, beyond) == s && Hits(p, s, beyond) == 0
  {
    forall i, b | 0 <= i <= |s| && (i > 0 ==> b) ensures MatcherOf(p, beyond)(b, s[i..]) == 0 {
      assert i == 0 ==> s[i..] == s;
      NoMatchInWord(p, b, s[i..], beyond);
    }
    assert s[0..] == s;
    WordIsKept(MatcherOf(p, beyond), WordOf(beyond), Placeholder(p), false, s, s, 0);
  }

  lemma {:induction false} NoMatchesNoChange(
    m: Matcher, word: char -> bool, placeholder: string, before: bool, s: string)
    requires Matches(m, word, before, s) == 0
    ensures Substituted(m, word, placeholder, before, s) == s
    decreases |s|
  {
    if s != "" {
      NoMatchesNoChange(m, word, placeholder, word(s[Step(m, before, s) - 1]), s[Step(m, before, s)..]);
    }
  }

  /** No hits, no change. */
  lemma {:induction false} NoHitsNoChange(p: Pattern, s: string, beyond: char -> bool)
    requires Hits(p, s, beyond) == 0
    ensures Scrub(p, s, beyond) == s
  {
    NoMatchesNoChange(MatcherOf(p, beyond), WordOf(beyond), Placeholder(p), false, s);
  }

  lemma {:induction false} SubstitutedIsNulFree(
    m: Matcher, word: char -> bool, placeholder: string, before: bool, s: string)
    requires NUL !in s && NUL !in placeholder
    ensures NUL !in Substituted(m, word, placeholder, before, s)
    decreases |s|
  {
    if s != "" {
      var k := Step(m, before, s);
      NotBehind(s, k, NUL);
      SubstitutedIsNulFree(m, word, placeholder, word(s[k - 1]), s[k..]);
      InConcat(Written(m, placeholder, before, s), Substituted(m, word, placeholder, word(s[k - 1]), s[k..]), NUL);
    }
  }

  lemma {:induction false} NotBehind(s: string, k: nat, c: char)
    requires k <= |s| && c !in s
    ensures c !in s[k..]
  {
  }

  lemma {:induction false} ScrubIsNulFree(p: Pattern, s: string, beyond: char -> bool)
    requires NUL !in s && NUL !in p.name
    ensures NUL !in Scrub(p, s, beyond)
  {
    SubstitutedIsNulFree(MatcherOf(p, beyond), WordOf(beyond), Placeholder(p), false, s);
  }

  // ------------------------------------------------------------------
  // Placeholders stay
  // ------------------------------------------------------------------

  lemma {:induction false} DomainEndIsClean(s: string, p: nat, beyond: char -> bool, i: nat)
    requires p <= |s| && i < DomainEnd(s, p, beyond)
    requires forall k :: 0 <= k < p ==> s[k] != '['
    ensures s[i] != '['
    decreases p
  {
    if p >= 2 {
      var letters := Run(s[p..], IsLetter);
      if s[p - 1] == '.' && letters >= 2 && !WordAt(s, p + letters, beyond) {
        assert i >= p ==> s[i] == s[p..][i - p];
      } else {
        DomainEndIsClean(s, p - 1, beyond, i);
      }
    }
  }

  /** No match holds an opening bracket. */
  lemma {:induction false} MatchIsClean(p: Pattern, before: bool, s: string, beyond: char -> bool, i: nat)
    requires i < MatchHere(p, before, s, beyond)
    ensures s[i] != '['
  {
    match p
    case Fixed(_, shape) => assert Fits(shape[i], s[i]);
    case Email(_) =>
      var n := Run(s, IsLocal);
      if i > n {
        var rest := s[n + 1..];
        DomainEndIsClean(rest, Run(rest, IsDomain), beyond, i - n - 1);
        assert rest[i - n - 1] == s[i];
      }
  }

  ghost predicate IsClean(m: Matcher) {
    forall before: bool, s: string, i: nat :: CleanAt(m, before, s, i)
  }

  predicate CleanAt(m: Matcher, before: bool, s: string, i: nat) {
    i < m(before, s) && i < |s| ==> s[i] != '['
  }

  lemma {:induction false} StepIsClean(m: Matcher, placeholder: string, before: bool, s: string, i: nat)
    requires IsClean(m) && i < |s| && s[i] == '[' && i < Step(m, before, s)
    ensures '[' in Written(m, placeholder, before, s)
  {
    assert CleanAt(m, before, s, i);
  }

  lemma {:induction false} InFrontOrBehind(s: string, k: nat, c: char) returns (i: nat)
    requires k <= |s| && c in s && c !in s[k..]
    ensures i < k && s[i] == c
  {
    var j :| 0 <= j < |s| && s[j] == c;
    assert s == s[..k] + s[k..];
    i := j;
  }

  lemma {:induction false} BracketStays(m: Matcher, word: char -> bool, placeholder: string, before: bool, s: string)
    requires IsClean(m) && '[' in s
    ensures '[' in Substituted(m, word, placeholder, before, s)
    decreases |s|
  {
    var k := Step(m, before, s);
    if '[' in s[k..] {
      BracketStays(m, word, placeholder, word(s[k - 1]), s[k..]);
    } else {
      BracketIsWritten(m, placeholder, before, s);
    }
    InConcat(Written(m, placeholder, before, s), Substituted(m, word, placeholder, word(s[k - 1]), s[k..]), '[');
  }

  lemma {:induction false} BracketIsWritten(m: Matcher, placeholder: string, before: bool, s: string)
    requires IsClean(m) && '[' in s && '[' !in s[Step(m, before, s)..]
    ensures '[' in Written(m, placeholder, before, s)
  {
    var i := InFrontOrBehind(s, Step(m, before, s), '[');
    StepIsClean(m, placeholder, before, s, i);
  }

  lemma {:induction false} MatchLeavesBracket(
    m: Matcher, word: char -> bool, placeholder: string, before: bool, s: string)
    requires Matches(m, word, before, s) > 0 && '[' in placeholder
    ensures '[' in Substituted(m, word, placeholder, before, s)
    decreases |s|
  {
    if !IsMatch(m, before, s) {
      var k := Step(m, before, s);
      MatchLeavesBracket(m, word, placeholder, word(s[k - 1]), s[k..]);
    }
  }

  /** A scrubbed text is the text itself, or shows a bracket; a bracket is never scrubbed away. */
  lemma {:induction false} ScrubShows(p: Pattern, s: string, beyond: char -> bool)
    ensures Scrub(p, s, beyond) == s || '[' in Scrub(p, s, beyond)
    ensures '[' in s ==> '[' in Scrub(p, s, beyond)
  {
    var m, word, placeholder := MatcherOf(p, beyond), WordOf(beyond), Placeholder(p);
    if Hits(p, s, beyond) == 0 {
      NoHitsNoChange(p, s, beyond);
    } else {
      assert placeholder[0] == '[';
      MatchLeavesBracket(m, word, placeholder, false, s);
    }
    if '[' in s {
      forall b: bool, t: string, i: nat ensures CleanAt(m, b, t, i) {
        if i < m(b, t) {
          MatchIsClean(p, b, t, beyond, i);
        }
      }
      BracketStays(m, word, placeholder, false, s);
    }
  }
}
