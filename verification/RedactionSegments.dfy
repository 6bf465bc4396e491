/**
 What redaction with an allowlist comes to: the text is cut at the allowlisted values, each segment is
 scrubbed alone, and the segments are rejoined with the values intact. It does so exactly when no segment
 between two sentinels can be mistaken for a sentinel while the values are being restored.
 */
module RedactionSegments {
  import opened Collections
  import opened Text
  import opened Numerals
  import opened RedactionPatterns
  import opened Redaction

  /** A text cut into segments; `key` is the index of the value between two segments. */
  datatype Cut = Last(s: string) | Then(s: string, key: nat, rest: Cut)

  // ------------------------------------------------------------------
  // Cutting
  // ------------------------------------------------------------------

  function Glue(front: Cut, key: nat, back: Cut): Cut {
    match front
    case Last(s) => Then(s, key, back)
    case Then(s, j, rest) => Then(s, j, Glue(rest, key, back))
  }

  /** One segment cut at the occurrences of `v`, from the left. */
  function CutSegment(s: string, v: string, key: nat): Cut
    requires v != ""
    decreases |s|
  {
    var i := Find(s, v);
    if i < 0 then Last(s) else Then(s[..i], key, CutSegment(s[i + |v|..], v, key))
  }

  function CutMore(cut: Cut, v: string, key: nat): Cut
    requires v != ""
  {
    match cut
    case Last(s) => CutSegment(s, v, key)
    case Then(s, j, rest) => Glue(CutSegment(s, v, key), j, CutMore(rest, v, key))
  }

  /** The text cut at the first value, the segments then at the second, and so on. */
  function CutAll(text: string, values: seq<string>): Cut {
    if values == [] then Last(text)
    else
      var n := |values| - 1;
      var cut := CutAll(text, values[..n]);
      if values[n] != "" then CutMore(cut, values[n], n) else cut
  }

  function Value(values: seq<string>, key: nat): string {
    if key < |values| then values[key] else ""
  }

  /** The segments rejoined with the values. */
  function Whole(cut: Cut, values: seq<string>): string {
    match cut
    case Last(s) => s
    case Then(s, key, rest) => s + (Value(values, key) + Whole(rest, values))
  }

  /** The segments with sentinels between them. */
  function Render(cut: Cut): string {
    match cut
    case Last(s) => s
    case Then(s, key, rest) => s + [NUL] + (Mark(key) + [NUL] + Render(rest))
  }

  function Segments(cut: Cut): seq<string> {
    match cut
    case Last(s) => [s]
    case Then(s, _, rest) => [s] + Segments(rest)
  }

  function KeysOf(cut: Cut): set<nat> {
    match cut
    case Last(_) => {}
    case Then(_, key, rest) => {key} + KeysOf(rest)
  }

  function ScrubSegments(ps: seq<Pattern>, cut: Cut, beyond: char -> bool): Cut {
    match cut
    case Last(s) => Last(Scrubbed(ps, s, beyond))
    case Then(s, key, rest) => Then(Scrubbed(ps, s, beyond), key, ScrubSegments(ps, rest, beyond))
  }

  // ------------------------------------------------------------------
  // The cut is a cut of the text, and a complete one
  // ------------------------------------------------------------------

  lemma {:induction false} WholeGlue(front: Cut, key: nat, back: Cut, values: seq<string>)
    ensures Whole(Glue(front, key, back), values) ==
            Whole(front, values) + (Value(values, key) + Whole(back, values))
  {
    match front
    case Last(s) =>
    case Then(s, j, rest) =>
      WholeGlue(rest, key, back, values);
      JoinFour(s, Value(values, j), Whole(rest, values), Value(values, key) + Whole(back, values));
  }

  lemma {:induction false} PartsGlue(front: Cut, key: nat, back: Cut)
    ensures Segments(Glue(front, key, back)) == Segments(front) + Segments(back)
    ensures KeysOf(Glue(front, key, back)) == KeysOf(front) + {key} + KeysOf(back)
  {
    if front.Then? {
      PartsGlue(front.rest, key, back);
    }
  }

  lemma {:induction false} JoinFour(a: string, b: string, c: string, d: string)
    ensures a + (b + (c + d)) == (a + (b + c)) + d
  {
  }

  lemma {:induction false} CutSegmentIsCut(s: string, v: string, key: nat, values: seq<string>)
    requires v != "" && Value(values, key) == v
    ensures Whole(CutSegment(s, v, key), values) == s
    ensures KeysOf(CutSegment(s, v, key)) <= {key}
    decreases |s|
  {
    var i := Find(s, v);
    if i >= 0 {
      FindIsFirst(s, v);
      CutAt(s, v, i);
      CutSegmentIsCut(s[i + |v|..], v, key, values);
      Associate(s[..i], v, s[i + |v|..]);
    }
  }

  lemma {:induction false} CutMoreIsCut(cut: Cut, v: string, key: nat, values: seq<string>)
    requires v != "" && Value(values, key) == v
    ensures Whole(CutMore(cut, v, key), values) == Whole(cut, values)
    ensures KeysOf(CutMore(cut, v, key)) <= KeysOf(cut) + {key}
  {
    match cut
    case Last(s) => CutSegmentIsCut(s, v, key, values);
    case Then(s, j, rest) =>
      CutSegmentIsCut(s, v, key, values);
      CutMoreIsCut(rest, v, key, values);
      WholeGlue(CutSegment(s, v, key), j, CutMore(rest, v, key), values);
      PartsGlue(CutSegment(s, v, key), j, CutMore(rest, v, key));
  }

  /** Rejoining the cut gives the text back. */
  lemma {:induction false} CutAllIsCut(text: string, values: seq<string>, n: nat)
    requires n <= |values|
    ensures Whole(CutAll(text, values[..n]), values) == text
    ensures forall key :: key in KeysOf(CutAll(text, values[..n])) ==> key < n
  {
    if n > 0 {
      assert values[..n][..n - 1] == values[..n - 1];
      CutAllIsCut(text, values, n - 1);
      if values[n - 1] != "" {
        CutMoreIsCut(CutAll(text, values[..n - 1]), values[n - 1], n - 1, values);
      }
    }
  }

  lemma {:induction false} CutSegmentIsComplete(s: string, v: string, key: nat, w: string, part: string)
    requires v != "" && part in Segments(CutSegment(s, v, key))
    ensures !Contains(part, v) && (!Contains(s, w) ==> !Contains(part, w))
    decreases |s|
  {
    var i := Find(s, v);
    FindIsFirst(s, v);
    if i >= 0 {
      var head, rest := s[..i], s[i + |v|..];
      if !Contains(s, w) {
        SubstringLacks(s, 0, i, w);
        SubstringLacks(s, i + |v|, |s|, w);
        assert s[0..i] == head && s[i + |v|..|s|] == rest;
      }
      if part == head {
        SplitPieces(s, v, head);
      } else {
        CutSegmentIsComplete(rest, v, key, w, part);
      }
    }
  }

  lemma {:induction false} SubstringLacks(s: string, i: nat, j: nat, w: string)
    requires i <= j <= |s| && !Contains(s, w)
    ensures !Contains(s[i..j], w)
  {
    if k :| 0 <= k <= j - i && OccursAt(s[i..j], w, k) {
      var t := s[i..j];
      assert forall m :: k <= m < k + |w| ==> t[m] == s[i + m];
      assert s[i + k..i + k + |w|] == t[k..k + |w|];
      assert OccursAt(s, w, i + k);
    }
  }

  lemma {:induction false} CutMoreIsComplete(cut: Cut, v: string, key: nat, w: string, part: string)
    requires v != "" && part in Segments(CutMore(cut, v, key))
    ensures !Contains(part, v)
    ensures (forall s :: s in Segments(cut) ==> !Contains(s, w)) ==> !Contains(part, w)
  {
    match cut
    case Last(s) =>
      assert s in Segments(cut);
      CutSegmentIsComplete(s, v, key, w, part);
    case Then(s, j, rest) =>
      PartsGlue(CutSegment(s, v, key), j, CutMore(rest, v, key));
      assert s in Segments(cut) && forall t :: t in Segments(rest) ==> t in Segments(cut);
      if part in Segments(CutSegment(s, v, key)) {
        CutSegmentIsComplete(s, v, key, w, part);
      } else {
        CutMoreIsComplete(rest, v, key, w, part);
      }
  }

  /** No segment holds an allowlisted value. */
  lemma {:induction false} CutAllIsComplete(text: string, values: seq<string>, part: string, k: nat)
    requires k < |values| && values[k] != "" && part in Segments(CutAll(text, values))
    ensures !Contains(part, values[k])
    decreases |values|
  {
    var n := |values| - 1;
    var cut := CutAll(text, values[..n]);
    if k < n {
      forall s | s in Segments(cut) ensures !Contains(s, values[k]) {
        CutAllIsComplete(text, values[..n], s, k);
      }
    }
    if values[n] != "" {
      CutMoreIsComplete(cut, values[n], n, values[k], part);
    }
  }

  // ------------------------------------------------------------------
  // Stashing renders the cut
  // ------------------------------------------------------------------

  predicate NulFree(s: string) {
    NUL !in s
  }

  /** Values are not empty, hold no NUL, and none occurs inside an earlier value's sentinel. */
  predicate Sound(values: seq<string>) {
    forall k :: 0 <= k < |values| ==>
                  && values[k] != "" && NulFree(values[k])
                  && forall i :: 0 <= i < k ==> !Contains(Mark(i), values[k])
  }

  lemma {:induction false} RenderGlue(front: Cut, key: nat, back: Cut)
    ensures Render(Glue(front, key, back)) == Render(front) + [NUL] + (Mark(key) + [NUL] + Render(back))
  {
    match front
    case Last(s) =>
    case Then(s, j, rest) =>
      RenderGlue(rest, key, back);
      NulRegroup(s, Mark(j), Render(rest), Mark(key) + [NUL] + Render(back));
  }

  lemma {:induction false} NulRegroup(a: string, b: string, c: string, d: string)
    ensures a + [NUL] + (b + [NUL] + (c + [NUL] + d)) == a + [NUL] + (b + [NUL] + c) + [NUL] + d
  {
  }

  lemma {:induction false} TokenApart(a: string, key: nat, b: string)
    ensures a + Token(key) + b == a + [NUL] + (Mark(key) + [NUL] + b)
  {
  }

  lemma {:induction false} SegmentRenders(s: string, v: string, key: nat)
    requires v != ""
    ensures Replace(s, v, Token(key)) == Render(CutSegment(s, v, key))
    decreases |s|
  {
    var i := Find(s, v);
    ReplaceFirst(s, v, Token(key));
    if i >= 0 {
      var rest := s[i + |v|..];
      SegmentRenders(rest, v, key);
      TokenApart(s[..i], key, Render(CutSegment(rest, v, key)));
    }
  }

  lemma {:induction false} CutRenders(cut: Cut, v: string, key: nat)
    requires v != "" && NulFree(v) && forall j :: j in KeysOf(cut) ==> !Contains(Mark(j), v)
    ensures Replace(Render(cut), v, Token(key)) == Render(CutMore(cut, v, key))
  {
    match cut
    case Last(s) => SegmentRenders(s, v, key);
    case Then(s, j, rest) =>
      assert j in KeysOf(cut) && forall i :: i in KeysOf(rest) ==> i in KeysOf(cut);
      SegmentRenders(s, v, key);
      CutRenders(rest, v, key);
      ReplaceAbsent(Mark(j), v, Token(key));
      ReplaceAcross(s, NUL, Mark(j) + [NUL] + Render(rest), v, Token(key));
      ReplaceAcross(Mark(j), NUL, Render(rest), v, Token(key));
      RenderGlue(CutSegment(s, v, key), j, CutMore(rest, v, key));
  }

  lemma {:induction false} StashRenders(text: string, values: seq<string>, n: nat)
    requires Sound(values) && n <= |values|
    ensures Stash(text, values[..n]) == Render(CutAll(text, values[..n]))
  {
    if n > 0 {
      assert values[..n][..n - 1] == values[..n - 1];
      StashRenders(text, values, n - 1);
      var cut := CutAll(text, values[..n - 1]);
      CutAllIsCut(text, values, n - 1);
      CutRenders(cut, values[n - 1], n - 1);
    }
  }

  // ------------------------------------------------------------------
  // Scrubbing works segment by segment
  // ------------------------------------------------------------------

  predicate Proper(ps: seq<Pattern>) {
    forall k :: 0 <= k < |ps| ==> StartsWithDigit(ps[k]) && NulFree(ps[k].name)
  }

  lemma {:induction false} DefaultsAreProper()
    ensures Proper(PATTERNS)
  {
  }

  lemma {:induction false} MarkIsUntouched(p: Pattern, key: nat, beyond: char -> bool)
    requires StartsWithDigit(p)
    ensures Scrub(p, Mark(key), beyond) == Mark(key) && Hits(p, Mark(key), beyond) == 0
  {
    var mark := Mark(key);
    forall i | 0 <= i < |mark| ensures WordOf(beyond)(mark[i]) {
      assert mark[i] == if i < 5 then "ALLOW"[i] else Digits(key)[i - 5];
    }
    WordIsUntouched(p, mark, beyond);
  }

  function ScrubCut(p: Pattern, cut: Cut, beyond: char -> bool): Cut {
    match cut
    case Last(s) => Last(Scrub(p, s, beyond))
    case Then(s, key, rest) => Then(Scrub(p, s, beyond), key, ScrubCut(p, rest, beyond))
  }

  function HitsIn(p: Pattern, cut: Cut, beyond: char -> bool): nat {
    match cut
    case Last(s) => Hits(p, s, beyond)
    case Then(s, _, rest) => Hits(p, s, beyond) + HitsIn(p, rest, beyond)
  }

  /** One pattern, over the text with sentinels: every segment alone, nothing in the sentinels. */
  lemma {:induction false} ScrubRenders(p: Pattern, cut: Cut, beyond: char -> bool)
    requires StartsWithDigit(p)
    ensures Scrub(p, Render(cut), beyond) == Render(ScrubCut(p, cut, beyond))
    ensures Hits(p, Render(cut), beyond) == HitsIn(p, cut, beyond)
  {
    match cut
    case Last(s) =>
    case Then(s, key, rest) =>
      ScrubRenders(p, rest, beyond);
      MarkIsUntouched(p, key, beyond);
      var later := Mark(key) + [NUL] + Render(rest);
      NulIsForeign(p, beyond);
      ScrubAcross(p, s, NUL, later, beyond);
      ScrubAcross(p, Mark(key), NUL, Render(rest), beyond);
      NulApart(Mark(key), Render(ScrubCut(p, rest, beyond)));
      NulApart(Scrub(p, s, beyond), Mark(key) + [NUL] + Render(ScrubCut(p, rest, beyond)));
  }

  lemma {:induction false} NulApart(a: string, b: string)
    ensures a + ([NUL] + b) == a + [NUL] + b
  {
  }

  lemma {:induction false} ScrubSegmentsMore(ps: seq<Pattern>, cut: Cut, beyond: char -> bool)
    requires ps != []
    ensures ScrubSegments(ps, cut, beyond) ==
            ScrubCut(ps[|ps| - 1], ScrubSegments(ps[..|ps| - 1], cut, beyond), beyond)
  {
    match cut
    case Last(s) =>
    case Then(s, key, rest) => ScrubSegmentsMore(ps, rest, beyond);
  }

  lemma {:induction false} NoPatternNoChange(cut: Cut, beyond: char -> bool)
    ensures ScrubSegments([], cut, beyond) == cut
  {
    match cut
    case Last(s) =>
    case Then(s, key, rest) => NoPatternNoChange(rest, beyond);
  }

  lemma {:induction false} ScrubbedRenders(ps: seq<Pattern>, cut: Cut, beyond: char -> bool)
    requires Proper(ps)
    ensures Scrubbed(ps, Render(cut), beyond) == Render(ScrubSegments(ps, cut, beyond))
    decreases |ps|
  {
    if ps != [] {
      var n := |ps| - 1;
      assert Proper(ps[..n]);
      ScrubbedRenders(ps[..n], cut, beyond);
      ScrubRenders(ps[n], ScrubSegments(ps[..n], cut, beyond), beyond);
      ScrubSegmentsMore(ps, cut, beyond);
    } else {
      NoPatternNoChange(cut, beyond);
    }
  }

  function TallyIn(ps: seq<Pattern>, cut: Cut, name: string, beyond: char -> bool): nat {
    match cut
    case Last(s) => Tally(ps, s, name, beyond)
    case Then(s, _, rest) => Tally(ps, s, name, beyond) + TallyIn(ps, rest, name, beyond)
  }

  lemma {:induction false} TallyInMore(ps: seq<Pattern>, cut: Cut, name: string, beyond: char -> bool)
    requires ps != []
    ensures var n := |ps| - 1;
            TallyIn(ps, cut, name, beyond) == TallyIn(ps[..n], cut, name, beyond) +
            if ps[n].name == name then HitsIn(ps[n], ScrubSegments(ps[..n], cut, beyond), beyond) else 0
  {
    match cut
    case Last(s) =>
    case Then(s, key, rest) => TallyInMore(ps, rest, name, beyond);
  }

  lemma {:induction false} NoPatternNoTally(cut: Cut, name: string, beyond: char -> bool)
    ensures TallyIn([], cut, name, beyond) == 0
  {
    match cut
    case Last(s) =>
    case Then(s, key, rest) => NoPatternNoTally(rest, name, beyond);
  }

  /** The hits reported for a text are those of its segments, each taken alone. */
  lemma {:induction false} HitsAreTheSegments(ps: seq<Pattern>, cut: Cut, name: string, beyond: char -> bool)
    requires Proper(ps)
    ensures Tally(ps, Render(cut), name, beyond) == TallyIn(ps, cut, name, beyond)
    decreases |ps|
  {
    if ps != [] {
      var n := |ps| - 1;
      assert Proper(ps[..n]);
      HitsAreTheSegments(ps[..n], cut, name, beyond);
      ScrubbedRenders(ps[..n], cut, beyond);
      ScrubRenders(ps[n], ScrubSegments(ps[..n], cut, beyond), beyond);
      TallyInMore(ps, cut, name, beyond);
    } else {
      NoPatternNoTally(cut, name, beyond);
    }
  }
}
