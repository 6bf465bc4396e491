/**
 That redaction redacts (src/log_pipeline/redaction.py): what the patterns stand for, said without the matcher;
 that a pattern hits exactly the texts that hold it; and that nothing any pattern stands for is left behind.
 */
module RedactionCoverage {
  import opened Collections
  import opened Text
  import opened Numerals
  import opened RedactionPatterns
  import opened Redaction
  import opened RedactionSegments

  // ------------------------------------------------------------------
  // What a pattern stands for
  // ------------------------------------------------------------------

  predicate All(s: string, p: char -> bool) {
    forall i :: 0 <= i < |s| ==> p(s[i])
  }

  predicate Alphanumeric(c: char) {
    'A' <= c <= 'Z' || 'a' <= c <= 'z' || '0' <= c <= '9'
  }

  /** The characters of a local part, of a domain, and of a top-level domain. */
  predicate InLocal(c: char) {
    Alphanumeric(c) || c in {'.', '_', '%', '+', '-'}
  }

  predicate InDomain(c: char) {
    Alphanumeric(c) || c in {'.', '-'}
  }

  predicate InTop(c: char) {
    Alphanumeric(c) && !('0' <= c <= '9')
  }

  /** They are the classes the matcher uses. */
  lemma {:induction false} SameClasses(s: string)
    ensures All(s, InLocal) <==> All(s, IsLocal)
    ensures All(s, InDomain) <==> All(s, IsDomain)
    ensures All(s, InTop) <==> All(s, IsLetter)
  {
    forall i | 0 <= i < |s|
      ensures InLocal(s[i]) == IsLocal(s[i]) && InDomain(s[i]) == IsDomain(s[i]) && InTop(s[i]) == IsLetter(s[i])
    {
    }
  }

  /** An address: a local part, a domain, and a top-level domain of letters. */
  predicate Addresses(t: string, local: string, domain: string, top: string) {
    && t == local + "@" + domain + "." + top
    && local != "" && All(local, InLocal) && domain != "" && All(domain, InDomain) && |top| >= 2 && All(top, InTop)
  }

  /** `t` is a number of the pattern's shape, or an address. */
  ghost predicate Spells(p: Pattern, t: string) {
    match p
    case Fixed(_, shape) => shape != "" && |t| == |shape| && forall k :: 0 <= k < |shape| ==> Fits(shape[k], t[k])
    case Email(_) => exists local, domain, top :: Addresses(t, local, domain, top)
  }

  /** The first `n` characters are what the pattern stands for, between word boundaries. */
  ghost predicate Fulfils(p: Pattern, before: bool, s: string, n: nat, beyond: char -> bool) {
    && 0 < n <= |s| && Spells(p, s[..n])
    && before != IsWord(s[0], beyond) && IsWord(s[n - 1], beyond) != WordAt(s, n, beyond)
  }

  /** The matcher finds the longest such prefix, and misses none. */
  lemma {:induction false} MatchIsLongest(p: Pattern, before: bool, s: string, beyond: char -> bool)
    ensures var n := MatchHere(p, before, s, beyond);
            && (n > 0 ==> Fulfils(p, before, s, n, beyond))
            && forall k: nat :: Fulfils(p, before, s, k, beyond) ==> k <= n
  {
    var n := MatchHere(p, before, s, beyond);
    if p.Email? {
      if n > 0 {
        EmailMatchFulfils(p, before, s, beyond);
      }
      forall k: nat | Fulfils(p, before, s, k, beyond) ensures k <= n {
        EmailIsMatched(p, before, s, k, beyond);
      }
    }
  }

  lemma {:induction false} DomainEndMeans(s: string, p: nat, beyond: char -> bool) returns (q: nat)
    requires p <= |s| && DomainEnd(s, p, beyond) != 0
    ensures 2 <= q <= p && TopLevelEnd(s, q, beyond) == DomainEnd(s, p, beyond)
    decreases p
  {
    if TopLevelEnd(s, p, beyond) != 0 {
      q := p;
    } else {
      q := DomainEndMeans(s, p - 1, beyond);
    }
  }

  lemma {:induction false} DomainEndIsGreatest(s: string, p: nat, q: nat, beyond: char -> bool)
    requires 2 <= q <= p <= |s| && TopLevelEnd(s, q, beyond) != 0
    ensures DomainEnd(s, p, beyond) >= TopLevelEnd(s, q, beyond)
    decreases p
  {
    if q < p {
      if TopLevelEnd(s, p, beyond) != 0 {
        TopLevelsAreApart(s, p, q, beyond);
      } else {
        DomainEndIsGreatest(s, p - 1, q, beyond);
      }
    }
  }

  /** The dot in front of a later top-level domain ends an earlier one. */
  lemma {:induction false} TopLevelsAreApart(s: string, p: nat, q: nat, beyond: char -> bool)
    requires 2 <= q < p <= |s| && TopLevelEnd(s, q, beyond) != 0 && TopLevelEnd(s, p, beyond) != 0
    ensures TopLevelEnd(s, q, beyond) < TopLevelEnd(s, p, beyond)
  {
    var letters := Run(s[q..], IsLetter);
    assert s[p - 1] == '.';
    if p - 1 < q + letters {
      assert s[q..][p - 1 - q] == s[p - 1];
    }
  }

  lemma {:induction false} EmailMatchFulfils(p: Pattern, before: bool, s: string, beyond: char -> bool)
    requires p.Email? && MatchHere(p, before, s, beyond) > 0
    ensures Fulfils(p, before, s, MatchHere(p, before, s, beyond), beyond)
  {
    AddressLengthFulfils(s, beyond);
  }

  lemma {:induction false} AddressLengthFulfils(s: string, beyond: char -> bool)
    requires AddressLength(s, beyond) > 0
    ensures var n := AddressLength(s, beyond);
            && (exists local, domain, top :: Addresses(s[..n], local, domain, top))
            && IsWord(s[n - 1], beyond) && !WordAt(s, n, beyond)
  {
    var n, m := AddressLength(s, beyond), Run(s, IsLocal);
    var q := DomainOfAddress(s[m + 1..], n - m - 1, beyond);
    BoundaryBehind(s, m + 1, n - m - 1, beyond);
    MatchedIsAddress(s, m, q, n);
  }

  lemma {:induction false} DomainOfAddress(s: string, e: nat, beyond: char -> bool) returns (q: nat)
    requires e == DomainLength(s, beyond) && e > 0
    ensures 2 <= q && q + 2 <= e <= |s| && s[q - 1] == '.' && (forall i :: 0 <= i < q - 1 ==> IsDomain(s[i]))
    ensures All(s[q..e], IsLetter) && IsWord(s[e - 1], beyond) && !WordAt(s, e, beyond)
  {
    q := DomainEndMeans(s, Run(s, IsDomain), beyond);
    TopLevelIsLetters(s, q, beyond);
  }

  lemma {:induction false} BoundaryBehind(s: string, from: nat, n: nat, beyond: char -> bool)
    requires 0 < n && from + n <= |s|
    ensures WordAt(s[from..], n, beyond) == WordAt(s, from + n, beyond)
    ensures s[from..][n - 1] == s[from + n - 1]
  {
  }

  lemma {:induction false} MatchedIsAddress(s: string, m: nat, q: nat, n: nat)
    requires 0 < m < |s| && s[m] == '@' && m + 1 + q + 2 <= n <= |s| && 2 <= q
    requires forall i :: 0 <= i < m ==> IsLocal(s[i])
    requires var rest := s[m + 1..];
             && (forall i :: 0 <= i < q - 1 ==> IsDomain(rest[i])) && rest[q - 1] == '.'
             && All(rest[q..n - m - 1], IsLetter)
    ensures exists local, domain, top :: Addresses(s[..n], local, domain, top)
  {
    var rest := s[m + 1..];
    AddressPieces(s, m, q, n);
    SameClasses(s[..m]);
    SameClasses(rest[..q - 1]);
    SameClasses(rest[q..n - m - 1]);
    assert Addresses(s[..n], s[..m], rest[..q - 1], rest[q..n - m - 1]);
  }

  lemma {:induction false} TopLevelIsLetters(s: string, q: nat, beyond: char -> bool)
    requires 0 < q <= |s| && TopLevelEnd(s, q, beyond) != 0
    ensures var e := TopLevelEnd(s, q, beyond);
            && q + 2 <= e <= |s| && s[q - 1] == '.' && All(s[q..e], IsLetter) && !WordAt(s, e, beyond)
            && IsWord(s[e - 1], beyond)
  {
    var e := TopLevelEnd(s, q, beyond);
    assert forall i :: 0 <= i < e - q ==> s[q..][i] == s[q..e][i];
    assert s[q..][e - 1 - q] == s[e - 1];
  }

  lemma {:induction false} AddressPieces(s: string, m: nat, q: nat, n: nat)
    requires m < |s| && s[m] == '@' && 2 <= q && m + 1 + q <= n <= |s| && s[m + 1..][q - 1] == '.'
    ensures var rest := s[m + 1..];
            s[..n] == s[..m] + "@" + rest[..q - 1] + "." + rest[q..n - m - 1]
  {
    var rest := s[m + 1..];
    assert rest[..n - m - 1] == rest[..q - 1] + "." + rest[q..n - m - 1];
    assert s[..n] == s[..m] + "@" + rest[..n - m - 1];
  }

  lemma {:induction false} EmailIsMatched(p: Pattern, before: bool, s: string, k: nat, beyond: char -> bool)
    requires p.Email? && Fulfils(p, before, s, k, beyond)
    ensures k <= MatchHere(p, before, s, beyond)
  {
    var local, domain, top :| Addresses(s[..k], local, domain, top);
    var rest := domain + "." + top + s[k..];
    AddressInFront(s, k, local, domain, top);
    SameClasses(local);
    SameClasses(domain);
    SameClasses(top);
    BoundaryBehind(s, |local| + 1, |domain| + 1 + |top|, beyond);
    assert IsWord(top[|top| - 1], beyond);
    DomainIsMatched(domain, top, s[k..], beyond);
    AddressIsMatched(local, rest, beyond);
  }

  lemma {:induction false} AddressIsMatched(local: string, rest: string, beyond: char -> bool)
    requires local != "" && All(local, IsLocal) && DomainLength(rest, beyond) > 0
    ensures AddressLength(local + ("@" + rest), beyond) == |local| + 1 + DomainLength(rest, beyond)
  {
    var s := local + ("@" + rest);
    RunOf(local, "@" + rest, IsLocal);
    assert s[|local|] == '@' && s[|local| + 1..] == rest;
  }

  lemma {:induction false} AddressInFront(s: string, k: nat, local: string, domain: string, top: string)
    requires k <= |s| && Addresses(s[..k], local, domain, top)
    ensures s == local + ("@" + (domain + "." + top + s[k..])) && k == |local| + 1 + |domain| + 1 + |top|
    ensures s[|local| + 1..] == domain + "." + top + s[k..]
    ensures s[k - 1] == top[|top| - 1]
  {
    assert s == s[..k] + s[k..];
    assert s[..k][k - 1] == top[|top| - 1];
  }

  lemma {:induction false} DomainIsMatched(domain: string, top: string, tail: string, beyond: char -> bool)
    requires domain != "" && All(domain, IsDomain) && |top| >= 2 && All(top, IsLetter)
    requires !WordAt(domain + "." + top + tail, |domain| + 1 + |top|, beyond)
    ensures DomainLength(domain + "." + top + tail, beyond) >= |domain| + 1 + |top|
  {
    var s, q := domain + "." + top + tail, |domain| + 1;
    assert s[q - 1] == '.' && s[q..] == top + tail;
    assert tail != "" ==> s[q + |top|] == tail[0];
    RunOf(top, tail, IsLetter);
    assert TopLevelEnd(s, q, beyond) == q + |top|;
    forall i | 0 <= i < q ensures IsDomain(s[i]) {
      assert i < |domain| ==> s[i] == domain[i];
    }
    DomainEndIsGreatest(s, Run(s, IsDomain), q, beyond);
  }

  // ------------------------------------------------------------------
  // A pass finds what is there, and leaves nothing
  // ------------------------------------------------------------------

  /** Somewhere in `s` there is a match. */
  predicate Finds(m: Matcher, word: char -> bool, before: bool, s: string)
    decreases |s|
  {
    s != "" && (IsMatch(m, before, s) || Finds(m, word, word(s[0]), s[1..]))
  }

  /** Somewhere in `s` there is a match of `q` that starts outside the matches `p` replaces. */
  predicate FindsOutside(p: Matcher, q: Matcher, word: char -> bool, before: bool, s: string)
    decreases |s|
  {
    s != "" &&
    var k := Step(p, before, s);
    (!IsMatch(p, before, s) && IsMatch(q, before, s)) || FindsOutside(p, q, word, word(s[k - 1]), s[k..])
  }

  lemma {:induction false} FindsLater(m: Matcher, word: char -> bool, before: bool, s: string, k: nat)
    requires 0 < k <= |s| && Finds(m, word, word(s[k - 1]), s[k..])
    ensures Finds(m, word, before, s)
    decreases k
  {
    if k > 1 {
      assert s[1..][k - 2] == s[k - 1] && s[1..][k - 1..] == s[k..];
      FindsLater(m, word, word(s[0]), s[1..], k - 1);
    }
  }

  lemma {:induction false} OutsideIsFound(p: Matcher, q: Matcher, word: char -> bool, before: bool, s: string)
    requires FindsOutside(p, q, word, before, s)
    ensures Finds(q, word, before, s)
    decreases |s|
  {
    var k := Step(p, before, s);
    if p == q || IsMatch(p, before, s) || !IsMatch(q, before, s) {
      if FindsOutside(p, q, word, word(s[k - 1]), s[k..]) {
        OutsideIsFound(p, q, word, word(s[k - 1]), s[k..]);
        FindsLater(q, word, before, s, k);
      }
    }
  }

  lemma {:induction false} NothingOutsideItself(p: Matcher, word: char -> bool, before: bool, s: string)
    ensures !FindsOutside(p, p, word, before, s)
    decreases |s|
  {
    if s != "" {
      var k := Step(p, before, s);
      NothingOutsideItself(p, word, word(s[k - 1]), s[k..]);
    }
  }

  /** A pass hits exactly when there is a match somewhere. */
  lemma {:induction false} MatchesExactly(m: Matcher, word: char -> bool, before: bool, s: string)
    ensures Matches(m, word, before, s) > 0 <==> Finds(m, word, before, s)
    decreases |s|
  {
    if s != "" {
      var k := Step(m, before, s);
      MatchesExactly(m, word, word(s[k - 1]), s[k..]);
      if Matches(m, word, word(s[k - 1]), s[k..]) > 0 {
        FindsLater(m, word, before, s, k);
      }
    }
  }

  // ------------------------------------------------------------------
  // What every pattern's matches have in common
  // ------------------------------------------------------------------

  predicate Telling(c: char) {
    IsDigit(c) || c == '@'
  }

  predicate Bracket(c: char) {
    c == '[' || c == ']'
  }

  /** A match begins and ends at word boundaries, with a word character last; it holds no bracket, but a telling one. */
  ghost predicate TameAt(m: Matcher, word: char -> bool, before: bool, s: string) {
    IsMatch(m, before, s) ==>
      var n := m(before, s);
      && before != word(s[0]) && word(s[n - 1]) && (n < |s| ==> !word(s[n]))
      && (forall i :: 0 <= i < n ==> !Bracket(s[i])) && (exists i :: 0 <= i < n && Telling(s[i]))
  }

  /** Where another text begins with the match and no word character follows, there is a match as well. */
  predicate LocalAt(m: Matcher, word: char -> bool, before: bool, s: string, t: string) {
    IsMatch(m, before, t) ==>
      var n := m(before, t);
      n <= |s| && s[..n] == t[..n] && (n < |s| ==> !word(s[n])) ==> IsMatch(m, before, s)
  }

  ghost predicate Tame(m: Matcher, word: char -> bool) {
    && !word('[') && !word(']')
    && (forall before, s :: TameAt(m, word, before, s))
    && (forall before, s, t :: LocalAt(m, word, before, s, t))
  }

  /** A placeholder: brackets around text no match could be found in. */
  predicate Plain(placeholder: string) {
    && |placeholder| >= 2 && placeholder[0] == '[' && placeholder[|placeholder| - 1] == ']'
    && forall i :: 0 <= i < |placeholder| ==> !Telling(placeholder[i])
  }

  /** What can be found in what begins with a placeholder is found behind it. */
  lemma {:induction false} FoundBehind(m: Matcher, word: char -> bool, before: bool, u: string, rest: string)
    requires Tame(m, word) && u != "" && u[|u| - 1] == ']' && (forall i :: 0 <= i < |u| ==> !Telling(u[i]))
    requires Finds(m, word, before, u + rest)
    ensures Finds(m, word, false, rest)
    decreases |u|
  {
    var s := u + rest;
    NoMatchFrom(m, word, before, u, rest);
    assert s[0] == u[0] && s[1..] == u[1..] + rest;
    if |u| == 1 {
      assert u[1..] + rest == rest;
    } else {
      FoundBehind(m, word, word(u[0]), u[1..], rest);
    }
  }

  lemma {:induction false} NoMatchFrom(m: Matcher, word: char -> bool, before: bool, u: string, rest: string)
    requires Tame(m, word) && u != "" && u[|u| - 1] == ']' && (forall i :: 0 <= i < |u| ==> !Telling(u[i]))
    ensures !IsMatch(m, before, u + rest)
  {
    var s := u + rest;
    assert TameAt(m, word, before, s);
    assert Bracket(s[|u| - 1]);
    assert forall i :: 0 <= i < |u| ==> !Telling(s[i]);
  }

  /** Bracket-free text at the start of the result was there, and what follows it was no less a boundary. */
  lemma {:induction false} KeptInFront(
    p: Matcher, word: char -> bool, placeholder: string, before: bool, s: string, n: nat)
    requires Tame(p, word) && Plain(placeholder)
    requires var out := Substituted(p, word, placeholder, before, s);
             n <= |out| && forall i :: 0 <= i < n ==> !Bracket(out[i])
    ensures var out := Substituted(p, word, placeholder, before, s);
            && n <= |s| && s[..n] == out[..n]
            && (n < |s| ==> n < |out| && (out[n] == s[n] || (if n == 0 then before else word(s[n - 1])) != word(s[n])))
    decreases n, 1
  {
    assert TameAt(p, word, before, s);
    if s != "" {
      if IsMatch(p, before, s) {
        PlaceholderInFront(p, word, placeholder, before, s);
      } else if n > 0 {
        KeptBehind(p, word, placeholder, before, s, n);
      }
    }
  }

  lemma {:induction false} PlaceholderInFront(
    p: Matcher, word: char -> bool, placeholder: string, before: bool, s: string)
    requires Plain(placeholder) && s != "" && IsMatch(p, before, s)
    ensures var out := Substituted(p, word, placeholder, before, s);
            out != "" && out[0] == '['
  {
  }

  lemma {:induction false} KeptBehind(
    p: Matcher, word: char -> bool, placeholder: string, before: bool, s: string, n: nat)
    requires Tame(p, word) && Plain(placeholder) && s != "" && !IsMatch(p, before, s) && n > 0
    requires var out := Substituted(p, word, placeholder, before, s);
             n <= |out| && forall i :: 0 <= i < n ==> !Bracket(out[i])
    ensures var out := Substituted(p, word, placeholder, before, s);
            && n <= |s| && s[..n] == out[..n]
            && (n < |s| ==> n < |out| && (out[n] == s[n] || word(s[n - 1]) != word(s[n])))
    decreases n, 0
  {
    var out := Substituted(p, word, placeholder, before, s);
    var rest := Substituted(p, word, placeholder, word(s[0]), s[1..]);
    assert out == [s[0]] + rest;
    forall i | 0 <= i < n - 1 ensures !Bracket(rest[i]) {
      assert rest[i] == out[i + 1];
    }
    KeptInFront(p, word, placeholder, word(s[0]), s[1..], n - 1);
    KeptOneMore(s, out, rest, n);
  }

  lemma {:induction false} KeptOneMore(s: string, out: string, rest: string, n: nat)
    requires s != "" && 0 < n && out == [s[0]] + rest && n - 1 <= |s| - 1 && n - 1 <= |rest|
    requires s[1..][..n - 1] == rest[..n - 1]
    ensures n <= |s| && s[..n] == out[..n] && (n < |s| ==> s[1..][n - 1] == s[n])
    ensures n < |out| ==> rest[n - 1] == out[n]
    ensures n > 1 ==> s[1..][n - 2] == s[n - 1]
  {
    assert s[..n] == [s[0]] + s[1..][..n - 1];
    assert out[..n] == [s[0]] + rest[..n - 1];
  }

  /**
   What is found in the result of a pass was there before, outside what the pass replaced. A placeholder may have
   taken the place of the character in front, if the text does not begin with a word character.
   */
  lemma {:induction false} SurvivorsWereThere(
    p: Matcher, q: Matcher, word: char -> bool, placeholder: string, before: bool, now: bool, s: string)
    requires Tame(p, word) && Tame(q, word) && Plain(placeholder)
    requires now == before || (!now && (s == "" || !word(s[0])))
    requires Finds(q, word, now, Substituted(p, word, placeholder, before, s))
    ensures FindsOutside(p, q, word, before, s)
    decreases |s|
  {
    var k := Step(p, before, s);
    var rest := Substituted(p, word, placeholder, word(s[k - 1]), s[k..]);
    assert TameAt(p, word, before, s);
    if IsMatch(p, before, s) {
      FoundBehind(q, word, now, placeholder, rest);
      assert k < |s| ==> s[k..][0] == s[k];
      SurvivorsWereThere(p, q, word, placeholder, word(s[k - 1]), false, s[k..]);
    } else {
      var out := [s[0]] + rest;
      assert out == Substituted(p, word, placeholder, before, s) && out[1..] == rest;
      if IsMatch(q, now, out) {
        MatchWasThere(p, q, word, placeholder, before, now, s);
      } else {
        SurvivorsWereThere(p, q, word, placeholder, word(s[0]), word(s[0]), s[1..]);
      }
    }
  }

  lemma {:induction false} MatchWasThere(
    p: Matcher, q: Matcher, word: char -> bool, placeholder: string, before: bool, now: bool, s: string)
    requires Tame(p, word) && Tame(q, word) && Plain(placeholder)
    requires now == before || (!now && (s == "" || !word(s[0])))
    requires s != "" && !IsMatch(p, before, s) && IsMatch(q, now, Substituted(p, word, placeholder, before, s))
    ensures IsMatch(q, before, s)
  {
    var out := Substituted(p, word, placeholder, before, s);
    var n := q(now, out);
    assert out[0] == s[0];
    assert TameAt(q, word, now, out);
    KeptInFront(p, word, placeholder, before, s, n);
    assert s[n - 1] == s[..n][n - 1] == out[n - 1];
    assert LocalAt(q, word, before, s, out);
  }

  // ------------------------------------------------------------------
  // The patterns are tame
  // ------------------------------------------------------------------

  predicate IsDigitCode(code: char) {
    code == 'd' || code == 'h'
  }

  /** A shape begins and ends with a digit; a name holds neither digits nor `@`. */
  predicate Sharp(p: Pattern) {
    && (p.Fixed? ==> p.shape != "" && IsDigitCode(p.shape[0]) && IsDigitCode(p.shape[|p.shape| - 1]))
    && forall i :: 0 <= i < |p.name| ==> !Telling(p.name[i])
  }

  lemma {:induction false} SpelledIsTame(p: Pattern, t: string, beyond: char -> bool)
    requires Sharp(p) && Spells(p, t)
    ensures t != "" && IsWord(t[|t| - 1], beyond) && (forall i :: 0 <= i < |t| ==> !Bracket(t[i]))
    ensures exists i :: 0 <= i < |t| && Telling(t[i])
  {
    match p
    case Fixed(_, shape) =>
      assert Fits(shape[0], t[0]) && Fits(shape[|t| - 1], t[|t| - 1]);
      assert Telling(t[0]);
    case Email(_) =>
      var local, domain, top :| Addresses(t, local, domain, top);
      assert t[|local|] == '@' && t[|t| - 1] == top[|top| - 1];
      AddressHoldsNoBracket(t, local, domain, top);
  }

  lemma {:induction false} AddressHoldsNoBracket(t: string, local: string, domain: string, top: string)
    requires Addresses(t, local, domain, top)
    ensures forall i :: 0 <= i < |t| ==> !Bracket(t[i])
  {
    forall i | 0 <= i < |t| ensures !Bracket(t[i]) {
      if i < |local| {
        assert t[i] == local[i] && InLocal(local[i]);
      } else if |local| < i <= |local| + |domain| {
        assert t[i] == domain[i - |local| - 1] && InDomain(domain[i - |local| - 1]);
      } else if i > |local| + |domain| + 1 {
        var j := i - |local| - |domain| - 2;
        assert t[i] == top[j] && InTop(top[j]);
      }
    }
  }

  lemma {:induction false} PatternIsTame(p: Pattern, beyond: char -> bool)
    requires Sharp(p)
    ensures Tame(MatcherOf(p, beyond), WordOf(beyond)) && Plain(Placeholder(p))
  {
    var m, word := MatcherOf(p, beyond), WordOf(beyond);
    forall before, s ensures TameAt(m, word, before, s) {
      PatternIsTameAt(p, before, s, beyond);
    }
    forall before, s, t ensures LocalAt(m, word, before, s, t) {
      PatternIsLocalAt(p, before, s, t, beyond);
    }
    PlaceholderIsPlain(p);
  }

  lemma {:induction false} PlaceholderIsPlain(p: Pattern)
    requires forall i :: 0 <= i < |p.name| ==> !Telling(p.name[i])
    ensures Plain(Placeholder(p))
  {
    var head := "[REDACTED:";
    var placeholder := head + p.name + "]";
    forall i | 0 <= i < |placeholder| ensures !Telling(placeholder[i]) {
      if i < |head| {
        assert placeholder[i] == head[i];
      } else if i < |placeholder| - 1 {
        assert placeholder[i] == p.name[i - |head|];
      }
    }
  }

  lemma {:induction false} PatternIsTameAt(p: Pattern, before: bool, s: string, beyond: char -> bool)
    requires Sharp(p)
    ensures TameAt(MatcherOf(p, beyond), WordOf(beyond), before, s)
  {
    var n := MatchHere(p, before, s, beyond);
    if n > 0 {
      MatchIsLongest(p, before, s, beyond);
      SpelledIsTame(p, s[..n], beyond);
      var i :| 0 <= i < n && Telling(s[..n][i]);
      assert s[i] == s[..n][i] && s[n - 1] == s[..n][n - 1];
      forall j | 0 <= j < n ensures !Bracket(s[j]) {
        assert s[j] == s[..n][j];
      }
    }
  }

  lemma {:induction false} PatternIsLocalAt(p: Pattern, before: bool, s: string, t: string, beyond: char -> bool)
    requires Sharp(p)
    ensures LocalAt(MatcherOf(p, beyond), WordOf(beyond), before, s, t)
  {
    var n := MatchHere(p, before, t, beyond);
    if 0 < n <= |s| && s[..n] == t[..n] && (n < |s| ==> !IsWord(s[n], beyond)) {
      MatchIsLongest(p, before, t, beyond);
      MatchIsLongest(p, before, s, beyond);
      SpelledIsTame(p, t[..n], beyond);
      FulfilsElsewhere(p, before, s, t, n, beyond);
    }
  }

  lemma {:induction false} FulfilsElsewhere(
    p: Pattern, before: bool, s: string, t: string, n: nat, beyond: char -> bool)
    requires Fulfils(p, before, t, n, beyond) && IsWord(t[..n][n - 1], beyond)
    requires n <= |s| && s[..n] == t[..n] && (n < |s| ==> !IsWord(s[n], beyond))
    ensures Fulfils(p, before, s, n, beyond)
  {
    assert s[0] == s[..n][0] == t[..n][0] == t[0];
    assert s[n - 1] == s[..n][n - 1] == t[..n][n - 1];
  }

  // ------------------------------------------------------------------
  // Texts
  // ------------------------------------------------------------------

  /** What the pattern stands for is in the text, `n` characters from `i` on, between word boundaries. */
  ghost predicate Occurs(p: Pattern, before: bool, s: string, i: nat, n: nat, beyond: char -> bool) {
    i <= |s| && Fulfils(p, if i == 0 then before else IsWord(s[i - 1], beyond), s[i..], n, beyond)
  }

  ghost predicate Present(p: Pattern, s: string, beyond: char -> bool) {
    OccursSomewhere(p, false, s, beyond)
  }

  ghost predicate OccursSomewhere(p: Pattern, before: bool, s: string, beyond: char -> bool) {
    exists i: nat, n: nat :: Occurs(p, before, s, i, n, beyond)
  }

  lemma {:induction false} FindsExactly(p: Pattern, before: bool, s: string, beyond: char -> bool)
    ensures Finds(MatcherOf(p, beyond), WordOf(beyond), before, s) <==> OccursSomewhere(p, before, s, beyond)
    decreases |s|
  {
    OccursHereOrLater(p, before, s, beyond);
    if s != "" {
      FindsExactly(p, IsWord(s[0], beyond), s[1..], beyond);
    }
  }

  lemma {:induction false} OccursHereOrLater(p: Pattern, before: bool, s: string, beyond: char -> bool)
    ensures OccursSomewhere(p, before, s, beyond) <==>
            s != "" && (MatchHere(p, before, s, beyond) > 0 || OccursSomewhere(p, IsWord(s[0], beyond), s[1..], beyond))
  {
    if OccursSomewhere(p, before, s, beyond) {
      var i: nat, n: nat :| Occurs(p, before, s, i, n, beyond);
      if i == 0 {
        assert s[0..] == s;
        MatchIsLongest(p, before, s, beyond);
      } else {
        OccursLater(p, before, s, i - 1, n, beyond);
      }
    }
    if s != "" && MatchHere(p, before, s, beyond) > 0 {
      OccursHere(p, before, s, beyond);
    }
    if s != "" && OccursSomewhere(p, IsWord(s[0], beyond), s[1..], beyond) {
      var i: nat, n: nat :| Occurs(p, IsWord(s[0], beyond), s[1..], i, n, beyond);
      OccursLater(p, before, s, i, n, beyond);
    }
  }

  lemma {:induction false} OccursHere(p: Pattern, before: bool, s: string, beyond: char -> bool)
    requires MatchHere(p, before, s, beyond) > 0
    ensures OccursSomewhere(p, before, s, beyond)
  {
    MatchIsLongest(p, before, s, beyond);
    assert s[0..] == s;
    assert Occurs(p, before, s, 0, MatchHere(p, before, s, beyond), beyond);
  }

  lemma {:induction false} OccursLater(p: Pattern, before: bool, s: string, i: nat, n: nat, beyond: char -> bool)
    requires s != ""
    ensures Occurs(p, IsWord(s[0], beyond), s[1..], i, n, beyond) <==> Occurs(p, before, s, i + 1, n, beyond)
  {
    if i + 1 <= |s| {
      assert s[1..][i..] == s[i + 1..];
      assert i > 0 ==> s[1..][i - 1] == s[i];
    }
  }

  /** A pattern hits a text exactly when the text holds what the pattern stands for. */
  lemma {:induction false} HitsExactly(p: Pattern, s: string, beyond: char -> bool)
    ensures Hits(p, s, beyond) > 0 <==> Present(p, s, beyond)
  {
    MatchesExactly(MatcherOf(p, beyond), WordOf(beyond), false, s);
    FindsExactly(p, false, s, beyond);
  }

  /** What a scrubbed text holds of any pattern it held before, and of the pattern itself nothing. */
  lemma {:induction false} ScrubLeaves(p: Pattern, q: Pattern, s: string, beyond: char -> bool)
    requires Sharp(p) && Sharp(q)
    ensures !Present(p, Scrub(p, s, beyond), beyond)
    ensures Present(q, Scrub(p, s, beyond), beyond) ==> Present(q, s, beyond)
  {
    var m, word, placeholder := MatcherOf(p, beyond), WordOf(beyond), Placeholder(p);
    PatternIsTame(p, beyond);
    PatternIsTame(q, beyond);
    NothingOutsideItself(m, word, false, s);
    FindsExactly(p, false, Scrub(p, s, beyond), beyond);
    FindsExactly(q, false, Scrub(p, s, beyond), beyond);
    FindsExactly(q, false, s, beyond);
    if Present(p, Scrub(p, s, beyond), beyond) {
      SurvivorsWereThere(m, m, word, placeholder, false, false, s);
    }
    if Present(q, Scrub(p, s, beyond), beyond) {
      SurvivorsWereThere(m, MatcherOf(q, beyond), word, placeholder, false, false, s);
      OutsideIsFound(m, MatcherOf(q, beyond), word, false, s);
    }
  }

  /** After all patterns no text holds anything that any of them stands for. */
  lemma {:induction false} NothingIsLeft(ps: seq<Pattern>, s: string, beyond: char -> bool)
    requires forall p :: p in ps ==> Sharp(p)
    ensures forall p :: p in ps ==> !Present(p, Scrubbed(ps, s, beyond), beyond)
    decreases |ps|
  {
    if ps != [] {
      var n := |ps| - 1;
      NothingIsLeft(ps[..n], s, beyond);
      forall p | p in ps ensures !Present(p, Scrubbed(ps, s, beyond), beyond) {
        assert ps == ps[..n] + [ps[n]];
        ScrubLeaves(ps[n], p, Scrubbed(ps[..n], s, beyond), beyond);
      }
    }
  }

  // ------------------------------------------------------------------
  // The shipped patterns
  // ------------------------------------------------------------------

  /** `n` digits from `i` on, with no word character in front of them or behind. */
  predicate DigitsStand(s: string, i: nat, n: nat, beyond: char -> bool) {
    && i + n <= |s| && (forall k :: i <= k < i + n ==> IsDigit(s[k]))
    && (i == 0 || !IsWord(s[i - 1], beyond)) && (i + n == |s| || !IsWord(s[i + n], beyond))
  }

  predicate Separates(c: char) {
    c == ' ' || c == '-'
  }

  /** Three groups of four digits, parted by spaces or dashes. */
  predicate GroupsStand(s: string, i: nat, beyond: char -> bool) {
    && i + 14 <= |s| && Separates(s[i + 4]) && Separates(s[i + 9])
    && (forall k :: i <= k < i + 14 && k != i + 4 && k != i + 9 ==> IsDigit(s[k]))
    && (i == 0 || !IsWord(s[i - 1], beyond)) && (i + 14 == |s| || !IsWord(s[i + 14], beyond))
  }

  lemma {:induction false} DefaultsAreSharp()
    ensures forall p :: p in PATTERNS ==> Sharp(p)
  {
  }

  lemma {:induction false} DigitsOccur(s: string, i: nat, p: Pattern, beyond: char -> bool)
    requires p.Fixed? && p.shape != "" && DigitsStand(s, i, |p.shape|, beyond)
    requires forall k :: 0 <= k < |p.shape| ==> Fits(p.shape[k], s[i + k])
    ensures Present(p, s, beyond)
  {
    var n := |p.shape|;
    assert s[i..][n - 1] == s[i + n - 1] && (i + n < |s| ==> s[i..][n] == s[i + n]);
    assert forall k :: 0 <= k < n ==> s[i..][..n][k] == s[i + k];
    assert Occurs(p, false, s, i, n, beyond);
  }

  lemma {:induction false} GroupsOccur(s: string, i: nat, p: Pattern, beyond: char -> bool)
    requires p == PATTERNS[1] && GroupsStand(s, i, beyond)
    ensures Present(p, s, beyond)
  {
    assert |p.shape| == 14 && p.shape == "dddd-dddd-dddd";
    assert s[i..][13] == s[i + 13] && (i + 14 < |s| ==> s[i..][14] == s[i + 14]);
    forall k | 0 <= k < 14 ensures Fits(p.shape[k], s[i..][..14][k]) {
      assert s[i..][..14][k] == s[i + k];
      assert p.shape[k] == if k == 4 || k == 9 then '-' else 'd';
    }
    assert Occurs(p, false, s, i, 14, beyond);
  }

  /** The converse: what a pattern of digits stands for is a standing run of them. */
  lemma {:induction false} PresentIsDigits(s: string, p: Pattern, beyond: char -> bool) returns (i: nat)
    requires p.Fixed? && All(p.shape, IsDigitCode) && Present(p, s, beyond)
    ensures DigitsStand(s, i, |p.shape|, beyond) && |p.shape| > 0
    ensures forall k :: 0 <= k < |p.shape| ==> Fits(p.shape[k], s[i + k])
  {
    var at: nat, n: nat :| Occurs(p, false, s, at, n, beyond);
    i := at;
    assert forall k :: 0 <= k < n ==> s[i..][..n][k] == s[i + k];
    forall k | 0 <= k < n ensures Fits(p.shape[k], s[i + k]) && IsDigit(s[i + k]) {
      assert Fits(p.shape[k], s[i..][..n][k]) && IsDigitCode(p.shape[k]);
    }
    assert s[i..][n - 1] == s[i + n - 1] && (i + n < |s| ==> s[i..][n] == s[i + n]);
    assert s[i..][0] == s[i];
  }

  /** A run of `n` digits stands at `i`; `high` asks for a first digit of six or more. */
  predicate RunStands(s: string, i: nat, n: nat, high: bool, beyond: char -> bool) {
    n > 0 && DigitsStand(s, i, n, beyond) && (high ==> s[i] >= '6')
  }

  /** A pattern of digits is present exactly where such a run stands. */
  lemma {:induction false} RunsExactly(s: string, p: Pattern, n: nat, high: bool, beyond: char -> bool)
    requires p.Fixed? && |p.shape| == n > 0 && (p.shape[0] == if high then 'h' else 'd')
    requires forall k :: 0 < k < n ==> p.shape[k] == 'd'
    ensures Present(p, s, beyond) <==> exists i: nat :: RunStands(s, i, n, high, beyond)
  {
    if Present(p, s, beyond) {
      var i := PresentIsDigits(s, p, beyond);
      assert Fits(p.shape[0], s[i + 0]);
      assert RunStands(s, i, n, high, beyond);
    }
    if i: nat :| RunStands(s, i, n, high, beyond) {
      DigitsOccur(s, i, p, beyond);
    }
  }

  /** The shipped ones: sixteen digits, twelve, ten from six up. */
  lemma {:induction false} DigitsExactly(s: string, beyond: char -> bool)
    ensures Present(PATTERNS[0], s, beyond) <==> exists i: nat :: RunStands(s, i, 16, false, beyond)
    ensures Present(PATTERNS[2], s, beyond) <==> exists i: nat :: RunStands(s, i, 12, false, beyond)
    ensures Present(PATTERNS[3], s, beyond) <==> exists i: nat :: RunStands(s, i, 10, true, beyond)
  {
    RunsExactly(s, PATTERNS[0], 16, false, beyond);
    RunsExactly(s, PATTERNS[2], 12, false, beyond);
    RunsExactly(s, PATTERNS[3], 10, true, beyond);
  }

  /** And that of groups exactly where three groups of four stand. */
  lemma {:induction false} GroupsExactly(s: string, beyond: char -> bool)
    ensures Present(PATTERNS[1], s, beyond) <==> exists i: nat :: GroupsStand(s, i, beyond)
  {
    var p := PATTERNS[1];
    assert p.shape == "dddd-dddd-dddd";
    assert forall k :: 0 <= k < 14 ==> p.shape[k] == if k == 4 || k == 9 then '-' else 'd';
    if Present(p, s, beyond) {
      var i: nat, n: nat :| Occurs(p, false, s, i, n, beyond);
      GroupsStandThere(s, i, beyond);
    }
    if i: nat :| GroupsStand(s, i, beyond) {
      GroupsOccur(s, i, p, beyond);
    }
  }

  lemma {:induction false} GroupsStandThere(s: string, i: nat, beyond: char -> bool)
    requires Occurs(PATTERNS[1], false, s, i, 14, beyond)
    ensures GroupsStand(s, i, beyond)
  {
    var shape := PATTERNS[1].shape;
    assert forall k :: 0 <= k < 14 ==> shape[k] == if k == 4 || k == 9 then '-' else 'd';
    forall k | i <= k < i + 14 ensures Fits(shape[k - i], s[k]) {
      assert s[i..][..14][k - i] == s[k];
    }
    assert shape[4] == '-' && shape[9] == '-';
    forall k | i <= k < i + 14 && k != i + 4 && k != i + 9 ensures IsDigit(s[k]) {
      assert shape[k - i] == 'd';
    }
    assert s[i..][13] == s[i + 13] && s[i..][0] == s[i] && (i + 14 < |s| ==> s[i..][14] == s[i + 14]);
  }

  /**
   Redacted with the shipped patterns and no allowlist, a text holds no standing run of sixteen or twelve digits,
   none of ten that begins with six or more, no three groups of four, and no address.
   */
  lemma {:induction false} NothingShipsThrough(text: string, beyond: char -> bool)
    ensures var out := RedactedText(text, [], PATTERNS, beyond);
            && (forall i: nat :: !DigitsStand(out, i, 16, beyond) && !DigitsStand(out, i, 12, beyond))
            && (forall i: nat :: DigitsStand(out, i, 10, beyond) ==> out[i] < '6')
            && (forall i: nat :: !GroupsStand(out, i, beyond))
            && !Present(Email("EMAIL"), out, beyond)
  {
    var out := Scrubbed(PATTERNS, text, beyond);
    DefaultsAreSharp();
    NothingIsLeft(PATTERNS, text, beyond);
    forall k | 0 <= k < 5 ensures !Present(PATTERNS[k], out, beyond) {
      assert PATTERNS[k] in PATTERNS;
    }
    forall i: nat
      ensures !DigitsStand(out, i, 16, beyond) && !DigitsStand(out, i, 12, beyond)
      ensures DigitsStand(out, i, 10, beyond) ==> out[i] < '6'
      ensures !GroupsStand(out, i, beyond)
    {
      NoNumberHere(out, i, beyond);
    }
    assert PATTERNS[4] == Email("EMAIL");
  }

  lemma {:induction false} NoNumberHere(out: string, i: nat, beyond: char -> bool)
    requires forall k :: 0 <= k < 4 ==> !Present(PATTERNS[k], out, beyond)
    ensures !DigitsStand(out, i, 16, beyond) && !DigitsStand(out, i, 12, beyond)
    ensures DigitsStand(out, i, 10, beyond) ==> out[i] < '6'
    ensures !GroupsStand(out, i, beyond)
  {
    if DigitsStand(out, i, 16, beyond) {
      DigitsOccur(out, i, PATTERNS[0], beyond);
    }
    if DigitsStand(out, i, 12, beyond) {
      DigitsOccur(out, i, PATTERNS[2], beyond);
    }
    if DigitsStand(out, i, 10, beyond) && out[i] >= '6' {
      DigitsOccur(out, i, PATTERNS[3], beyond);
    }
    if GroupsStand(out, i, beyond) {
      GroupsOccur(out, i, PATTERNS[1], beyond);
    }
  }

  // ------------------------------------------------------------------
  // One number, in any text
  // ------------------------------------------------------------------

  predicate EndsForeign(p: Pattern, s: string, beyond: char -> bool) {
    s == "" || Foreign(p, s[|s| - 1], beyond)
  }

  predicate BeginsForeign(p: Pattern, s: string, beyond: char -> bool) {
    s == "" || Foreign(p, s[0], beyond)
  }

  lemma {:induction false} ScrubNothing(p: Pattern, beyond: char -> bool)
    ensures Scrub(p, "", beyond) == "" && Hits(p, "", beyond) == 0
  {
  }

  lemma {:induction false} ScrubUpTo(p: Pattern, a: string, c: char, beyond: char -> bool)
    requires Foreign(p, c, beyond)
    ensures Scrub(p, a + [c], beyond) == Scrub(p, a, beyond) + [c]
    ensures Hits(p, a + [c], beyond) == Hits(p, a, beyond)
  {
    ScrubAcross(p, a, c, "", beyond);
    ScrubNothing(p, beyond);
    assert a + [c] + "" == a + [c] && [c] + "" == [c];
  }

  lemma {:induction false} ScrubFrom(p: Pattern, c: char, b: string, beyond: char -> bool)
    requires Foreign(p, c, beyond)
    ensures Scrub(p, [c] + b, beyond) == [c] + Scrub(p, b, beyond)
    ensures Hits(p, [c] + b, beyond) == Hits(p, b, beyond)
  {
    ScrubAcross(p, "", c, b, beyond);
    ScrubNothing(p, beyond);
    assert "" + [c] + b == [c] + b && "" + ([c] + Scrub(p, b, beyond)) == [c] + Scrub(p, b, beyond);
  }

  /** Behind a foreign character a substitution starts afresh. */
  lemma {:induction false} ScrubBehind(p: Pattern, a: string, b: string, beyond: char -> bool)
    requires EndsForeign(p, a, beyond)
    ensures Scrub(p, a + b, beyond) == Scrub(p, a, beyond) + Scrub(p, b, beyond)
    ensures Hits(p, a + b, beyond) == Hits(p, a, beyond) + Hits(p, b, beyond)
  {
    if a == "" {
      ScrubNothing(p, beyond);
      assert a + b == b && "" + Scrub(p, b, beyond) == Scrub(p, b, beyond);
    } else {
      ScrubBehindLast(p, a[..|a| - 1], a[|a| - 1], b, beyond);
      assert a == a[..|a| - 1] + [a[|a| - 1]];
    }
  }

  lemma {:induction false} ScrubBehindLast(p: Pattern, a: string, c: char, b: string, beyond: char -> bool)
    requires Foreign(p, c, beyond)
    ensures Scrub(p, (a + [c]) + b, beyond) == Scrub(p, a + [c], beyond) + Scrub(p, b, beyond)
    ensures Hits(p, (a + [c]) + b, beyond) == Hits(p, a + [c], beyond) + Hits(p, b, beyond)
  {
    ScrubAcross(p, a, c, b, beyond);
    ScrubUpTo(p, a, c, beyond);
    Associate(Scrub(p, a, beyond), [c], Scrub(p, b, beyond));
  }

  /** In front of a foreign character a substitution ends. */
  lemma {:induction false} ScrubInFront(p: Pattern, a: string, b: string, beyond: char -> bool)
    requires BeginsForeign(p, b, beyond)
    ensures Scrub(p, a + b, beyond) == Scrub(p, a, beyond) + Scrub(p, b, beyond)
    ensures Hits(p, a + b, beyond) == Hits(p, a, beyond) + Hits(p, b, beyond)
  {
    if b == "" {
      ScrubNothing(p, beyond);
      assert a + b == a && Scrub(p, a, beyond) + "" == Scrub(p, a, beyond);
    } else {
      ScrubInFrontOf(p, a, b[0], b[1..], beyond);
      assert b == [b[0]] + b[1..];
    }
  }

  lemma {:induction false} ScrubInFrontOf(p: Pattern, a: string, c: char, b: string, beyond: char -> bool)
    requires Foreign(p, c, beyond)
    ensures Scrub(p, a + ([c] + b), beyond) == Scrub(p, a, beyond) + Scrub(p, [c] + b, beyond)
    ensures Hits(p, a + ([c] + b), beyond) == Hits(p, a, beyond) + Hits(p, [c] + b, beyond)
  {
    ScrubAcross(p, a, c, b, beyond);
    ScrubFrom(p, c, b, beyond);
    Associate(a, [c], b);
  }

  lemma {:induction false} WholeIsReplaced(m: Matcher, word: char -> bool, placeholder: string, before: bool, t: string)
    requires t != "" && m(before, t) == |t|
    ensures Substituted(m, word, placeholder, before, t) == placeholder && Matches(m, word, before, t) == 1
  {
    assert t[|t|..] == "" && placeholder + "" == placeholder;
  }

  lemma {:induction false} SpelledIsReplaced(p: Pattern, t: string, beyond: char -> bool)
    requires Sharp(p) && Spells(p, t) && t != "" && IsWord(t[0], beyond)
    ensures Scrub(p, t, beyond) == Placeholder(p) && Hits(p, t, beyond) == 1
  {
    SpelledIsTame(p, t, beyond);
    assert t[..|t|] == t;
    assert Fulfils(p, false, t, |t|, beyond);
    MatchIsLongest(p, false, t, beyond);
    WholeIsReplaced(MatcherOf(p, beyond), WordOf(beyond), Placeholder(p), false, t);
  }

  /**
   What a pattern stands for, set off by foreign characters or the ends of the text, becomes the placeholder and is
   counted once, whatever the text around it.
   */
  lemma {:induction false} SetOffIsRedacted(p: Pattern, left: string, t: string, right: string, beyond: char -> bool)
    requires Sharp(p) && Spells(p, t) && t != "" && IsWord(t[0], beyond)
    requires EndsForeign(p, left, beyond) && BeginsForeign(p, right, beyond)
    ensures Scrub(p, left + (t + right), beyond) ==
            Scrub(p, left, beyond) + (Placeholder(p) + Scrub(p, right, beyond))
    ensures Hits(p, left + (t + right), beyond) == Hits(p, left, beyond) + 1 + Hits(p, right, beyond)
  {
    ScrubBehind(p, left, t + right, beyond);
    ScrubInFront(p, t, right, beyond);
    SpelledIsReplaced(p, t, beyond);
  }

  /** Neither end of the text around it is a word character where it meets the number. */
  predicate SetOff(left: string, right: string, beyond: char -> bool) {
    (left == "" || !IsWord(left[|left| - 1], beyond)) && (right == "" || !IsWord(right[0], beyond))
  }

  /** For runs of digits any character that is no word character sets off. */
  lemma {:induction false} DigitsAreRedacted(p: Pattern, left: string, t: string, right: string, beyond: char -> bool)
    requires Sharp(p) && p.Fixed? && All(p.shape, IsDigitCode)
    requires |t| == |p.shape| && All(t, IsDigit) && (p.shape[0] == 'h' ==> t[0] >= '6')
    requires forall k :: 0 < k < |p.shape| ==> p.shape[k] == 'd'
    requires SetOff(left, right, beyond)
    ensures Scrub(p, left + (t + right), beyond) ==
            Scrub(p, left, beyond) + (Placeholder(p) + Scrub(p, right, beyond))
    ensures Hits(p, left + (t + right), beyond) == Hits(p, left, beyond) + 1 + Hits(p, right, beyond)
  {
    assert Spells(p, t);
    SetOffIsRedacted(p, left, t, right, beyond);
  }

  lemma {:induction false} VidIsRedacted(left: string, t: string, right: string, beyond: char -> bool)
    requires |t| == 16 && All(t, IsDigit) && SetOff(left, right, beyond)
    ensures Scrub(PATTERNS[0], left + (t + right), beyond) ==
            Scrub(PATTERNS[0], left, beyond) + ("[REDACTED:VID]" + Scrub(PATTERNS[0], right, beyond))
    ensures Hits(PATTERNS[0], left + (t + right), beyond) ==
            Hits(PATTERNS[0], left, beyond) + 1 + Hits(PATTERNS[0], right, beyond)
  {
    DefaultsAreSharp();
    assert PATTERNS[0] in PATTERNS && Placeholder(PATTERNS[0]) == "[REDACTED:VID]";
    DigitsAreRedacted(PATTERNS[0], left, t, right, beyond);
  }

  lemma {:induction false} AadhaarIsRedacted(left: string, t: string, right: string, beyond: char -> bool)
    requires |t| == 12 && All(t, IsDigit) && SetOff(left, right, beyond)
    ensures Scrub(PATTERNS[2], left + (t + right), beyond) ==
            Scrub(PATTERNS[2], left, beyond) + ("[REDACTED:AADHAAR]" + Scrub(PATTERNS[2], right, beyond))
    ensures Hits(PATTERNS[2], left + (t + right), beyond) ==
            Hits(PATTERNS[2], left, beyond) + 1 + Hits(PATTERNS[2], right, beyond)
  {
    DefaultsAreSharp();
    assert PATTERNS[2] in PATTERNS && Placeholder(PATTERNS[2]) == "[REDACTED:AADHAAR]";
    DigitsAreRedacted(PATTERNS[2], left, t, right, beyond);
  }

  lemma {:induction false} MobileIsRedacted(left: string, t: string, right: string, beyond: char -> bool)
    requires |t| == 10 && All(t, IsDigit) && t[0] >= '6' && SetOff(left, right, beyond)
    ensures Scrub(PATTERNS[3], left + (t + right), beyond) ==
            Scrub(PATTERNS[3], left, beyond) + ("[REDACTED:MOBILE]" + Scrub(PATTERNS[3], right, beyond))
    ensures Hits(PATTERNS[3], left + (t + right), beyond) ==
            Hits(PATTERNS[3], left, beyond) + 1 + Hits(PATTERNS[3], right, beyond)
  {
    DefaultsAreSharp();
    assert PATTERNS[3] in PATTERNS && Placeholder(PATTERNS[3]) == "[REDACTED:MOBILE]";
    DigitsAreRedacted(PATTERNS[3], left, t, right, beyond);
  }

  /** Groups of four are set off by characters that are neither word characters nor separators. */
  lemma {:induction false} GroupsAreRedacted(left: string, t: string, right: string, beyond: char -> bool)
    requires |t| == 14 && GroupsStand(t, 0, beyond) && SetOff(left, right, beyond)
    requires (left == "" || !Separates(left[|left| - 1])) && (right == "" || !Separates(right[0]))
    ensures Scrub(PATTERNS[1], left + (t + right), beyond) ==
            Scrub(PATTERNS[1], left, beyond) + ("[REDACTED:AADHAAR]" + Scrub(PATTERNS[1], right, beyond))
    ensures Hits(PATTERNS[1], left + (t + right), beyond) ==
            Hits(PATTERNS[1], left, beyond) + 1 + Hits(PATTERNS[1], right, beyond)
  {
    var p := PATTERNS[1];
    DefaultsAreSharp();
    assert p in PATTERNS && Placeholder(p) == "[REDACTED:AADHAAR]" && p.shape == "dddd-dddd-dddd";
    assert forall k :: 0 <= k < 14 ==> p.shape[k] == if k == 4 || k == 9 then '-' else 'd';
    assert Spells(p, t);
    SetOffIsRedacted(p, left, t, right, beyond);
  }

  /** An address that begins with a word character, set off by characters no address could hold. */
  lemma {:induction false} AddressIsRedacted(
    left: string, local: string, domain: string, top: string, right: string, beyond: char -> bool)
    requires Addresses(local + "@" + domain + "." + top, local, domain, top) && IsWord(local[0], beyond)
    requires EndsForeign(PATTERNS[4], left, beyond) && BeginsForeign(PATTERNS[4], right, beyond)
    ensures var t := local + "@" + domain + "." + top;
            && Scrub(PATTERNS[4], left + (t + right), beyond) ==
               Scrub(PATTERNS[4], left, beyond) + ("[REDACTED:EMAIL]" + Scrub(PATTERNS[4], right, beyond))
            && Hits(PATTERNS[4], left + (t + right), beyond) ==
               Hits(PATTERNS[4], left, beyond) + 1 + Hits(PATTERNS[4], right, beyond)
  {
    var t := local + "@" + domain + "." + top;
    DefaultsAreSharp();
    assert PATTERNS[4] in PATTERNS && Placeholder(PATTERNS[4]) == "[REDACTED:EMAIL]";
    assert Spells(PATTERNS[4], t) && t[0] == local[0];
    SetOffIsRedacted(PATTERNS[4], left, t, right, beyond);
  }

  // ------------------------------------------------------------------
  // Counts, and segments
  // ------------------------------------------------------------------

  lemma {:induction false} NothingPresentNothingDone(ps: seq<Pattern>, s: string, beyond: char -> bool)
    requires forall p :: p in ps ==> !Present(p, s, beyond)
    ensures Scrubbed(ps, s, beyond) == s && forall name :: Tally(ps, s, name, beyond) == 0
    decreases |ps|
  {
    if ps != [] {
      var n := |ps| - 1;
      assert ps == ps[..n] + [ps[n]];
      NothingPresentNothingDone(ps[..n], s, beyond);
      HitsExactly(ps[n], s, beyond);
      NoHitsNoChange(ps[n], s, beyond);
    }
  }

  lemma {:induction false} NothingCountedNothingPresent(ps: seq<Pattern>, s: string, beyond: char -> bool)
    requires forall name :: Tally(ps, s, name, beyond) == 0
    ensures Scrubbed(ps, s, beyond) == s && forall p :: p in ps ==> !Present(p, s, beyond)
    decreases |ps|
  {
    if ps != [] {
      var n := |ps| - 1;
      assert ps == ps[..n] + [ps[n]];
      forall name ensures Tally(ps[..n], s, name, beyond) == 0 {
        assert Tally(ps, s, name, beyond) == 0;
      }
      NothingCountedNothingPresent(ps[..n], s, beyond);
      assert Tally(ps, s, ps[n].name, beyond) == 0;
      HitsExactly(ps[n], s, beyond);
      NoHitsNoChange(ps[n], s, beyond);
    }
  }

  /** The reported counts are empty exactly when the text held nothing that any pattern stands for. */
  lemma {:induction false} EmptyCountsExactly(
    counts: map<string, nat>, ps: seq<Pattern>, s: string, beyond: char -> bool)
    requires Counted(counts, ps, s, beyond)
    ensures counts == map[] <==> forall p :: p in ps ==> !Present(p, s, beyond)
  {
    if counts == map[] {
      forall name ensures Tally(ps, s, name, beyond) == 0 {
        assert Count(counts, name) == Tally(ps, s, name, beyond);
      }
      NothingCountedNothingPresent(ps, s, beyond);
    }
    if forall p :: p in ps ==> !Present(p, s, beyond) {
      NothingPresentNothingDone(ps, s, beyond);
      forall name ensures name !in counts {
        assert Count(counts, name) == Tally(ps, s, name, beyond);
      }
    }
  }

  /** With an allowlist: no segment between the allowlisted values is left with anything in it. */
  lemma {:induction false} SegmentsHoldNothing(ps: seq<Pattern>, cut: Cut, beyond: char -> bool)
    requires forall p :: p in ps ==> Sharp(p)
    ensures forall part, p :: part in Segments(ScrubSegments(ps, cut, beyond)) && p in ps ==> !Present(p, part, beyond)
  {
    match cut
    case Last(s) => NothingIsLeft(ps, s, beyond);
    case Then(s, key, rest) =>
      NothingIsLeft(ps, s, beyond);
      SegmentsHoldNothing(ps, rest, beyond);
  }
}
