/** The line shapes of a Java stack trace (src/dlt/stacktrace.py), as recognisers and as grammars. */
module TraceLines {
  import opened Options
  import opened Numerals
  import opened Text

  predicate AllSpace(s: string) {
    forall i :: 0 <= i < |s| ==> IsSpace(s[i])
  }

  predicate IsTarget(c: char) {
    !IsSpace(c) && c != '('
  }

  predicate AllTarget(s: string) {
    forall i :: 0 <= i < |s| ==> IsTarget(s[i])
  }

  // ------------------------------------------------------------------
  // Recognisers
  // ------------------------------------------------------------------

  /** What may follow a frame's target: nothing, or a location in parentheses. */
  predicate IsTail(s: string) {
    var t := StripRight(s);
    t == "" || (t[0] == '(' && t[|t| - 1] == ')')
  }

  /** The target of `at <target>(<location>)`, if the line is a frame. */
  function FrameTarget(line: string): Option<string> {
    var l := StripLeft(line);
    if |l| < 3 || l[..2] != "at" || !IsSpace(l[2]) then None
    else
      var body := StripLeft(l[2..]);
      var n := Run(body, IsTarget);
      if n > 0 && IsTail(body[n..]) then Some(body[..n]) else None
  }

  /** The count of `... <count> more`, if the line is an elision. */
  function ElidedCount(line: string): Option<nat> {
    var l := StripLeft(line);
    if |l| < 4 || l[..3] != "..." || !IsSpace(l[3]) then None
    else
      var body := StripLeft(l[3..]);
      var n := Run(body, IsDigit);
      var rest := StripLeft(body[n..]);
      if n > 0 && rest != body[n..] && "more" <= rest && AllSpace(rest[4..]) then Some(Decimal(body[..n])) else None
  }

  // ------------------------------------------------------------------
  // Grammars
  // ------------------------------------------------------------------

  ghost predicate TailForm(tail: string) {
    AllSpace(tail) || exists location, trail :: AllSpace(trail) && tail == Parenthesised(location) + trail
  }

  function Parenthesised(location: string): string {
    "(" + location + ")"
  }

  function FrameText(lead: string, gap: string, target: string, tail: string): string {
    lead + ("at" + (gap + (target + tail)))
  }

  ghost predicate FrameForm(line: string, lead: string, gap: string, target: string, tail: string) {
    && line == FrameText(lead, gap, target, tail)
    && AllSpace(lead) && AllSpace(gap) && gap != ""
    && AllTarget(target) && target != "" && TailForm(tail)
  }

  function ElidedText(lead: string, gap: string, count: string, gap': string, trail: string): string {
    lead + ("..." + (gap + (count + (gap' + ("more" + trail)))))
  }

  ghost predicate ElidedForm(line: string, lead: string, gap: string, count: string, gap': string, trail: string) {
    && line == ElidedText(lead, gap, count, gap', trail)
    && AllSpace(lead) && AllSpace(gap) && gap != "" && AllSpace(gap') && gap' != "" && AllSpace(trail)
    && AllDigits(count) && count != ""
  }

  // ------------------------------------------------------------------
  // White space
  // ------------------------------------------------------------------

  lemma {:induction false} StripLeftCut(s: string) returns (lead: string)
    ensures AllSpace(lead) && s == lead + StripLeft(s)
    ensures StripLeft(s) == "" || !IsSpace(StripLeft(s)[0])
  {
    if s != "" && IsSpace(s[0]) {
      lead := StripLeftCut(s[1..]);
      lead := [s[0]] + lead;
    } else {
      lead := "";
    }
  }

  lemma {:induction false} StripLeftAfter(lead: string, s: string)
    requires AllSpace(lead) && (s == "" || !IsSpace(s[0]))
    ensures StripLeft(lead + s) == s
  {
    if lead != "" {
      StripLeftAfter(lead[1..], s);
      assert (lead + s)[1..] == lead[1..] + s;
    } else {
      assert lead + s == s;
    }
  }

  lemma {:induction false} StripRightCut(s: string) returns (trail: string)
    ensures AllSpace(trail) && s == StripRight(s) + trail
    ensures StripRight(s) == "" || !IsSpace(StripRight(s)[|StripRight(s)| - 1])
  {
    if s != "" && IsSpace(s[|s| - 1]) {
      trail := StripRightCut(s[..|s| - 1]);
      trail := trail + [s[|s| - 1]];
    } else {
      trail := "";
    }
  }

  lemma {:induction false} StripRightBefore(s: string, trail: string)
    requires AllSpace(trail) && (s == "" || !IsSpace(s[|s| - 1]))
    ensures StripRight(s + trail) == s
  {
    if trail != "" {
      var n := |trail| - 1;
      StripRightBefore(s, trail[..n]);
      assert (s + trail)[..|s + trail| - 1] == s + trail[..n];
    } else {
      assert s + trail == s;
    }
  }

  /** A recogniser's first step: the mark is found behind leading space, and the body behind the gap. */
  lemma {:induction false} Marked(lead: string, mark: string, gap: string, body: string)
    requires AllSpace(lead) && AllSpace(gap) && gap != "" && mark != "" && !IsSpace(mark[0])
    requires body == "" || !IsSpace(body[0])
    ensures var l := StripLeft(lead + (mark + (gap + body)));
            && |l| > |mark| && l[..|mark|] == mark && IsSpace(l[|mark|])
            && StripLeft(l[|mark|..]) == body
  {
    var l := mark + (gap + body);
    StripLeftAfter(lead, l);
    assert l[|mark|..] == gap + body && l[|mark|] == gap[0];
    StripLeftAfter(gap, body);
  }

  lemma {:induction false} Unmarked(line: string, n: nat) returns (lead: string, gap: string)
    requires var l := StripLeft(line); 0 < n < |l| && IsSpace(l[n])
    ensures AllSpace(lead) && AllSpace(gap) && gap != ""
    ensures var l := StripLeft(line); line == lead + (l[..n] + (gap + StripLeft(l[n..])))
  {
    var l := StripLeft(line);
    lead := StripLeftCut(line);
    gap := StripLeftCut(l[n..]);
    assert l == l[..n] + l[n..];
  }

  // ------------------------------------------------------------------
  // Frames
  // ------------------------------------------------------------------

  lemma {:induction false} TailIff(tail: string)
    ensures IsTail(tail) <==> TailForm(tail)
  {
    var t := StripRight(tail);
    var trail := StripRightCut(tail);
    if IsTail(tail) && t != "" {
      var location := t[1..|t| - 1];
      assert t == Parenthesised(location);
      assert tail == Parenthesised(location) + trail;
    }
    if AllSpace(tail) {
      StripRightBefore("", tail);
      assert "" + tail == tail;
    } else if TailForm(tail) {
      var location, trail :| AllSpace(trail) && tail == Parenthesised(location) + trail;
      StripRightBefore(Parenthesised(location), trail);
    }
  }

  lemma {:induction false} TailStart(tail: string)
    requires TailForm(tail)
    ensures tail == "" || !IsTarget(tail[0])
  {
  }

  lemma {:induction false} FrameIsRecognised(line: string, lead: string, gap: string, target: string, tail: string)
    requires FrameForm(line, lead, gap, target, tail)
    ensures FrameTarget(line) == Some(target)
  {
    var body := target + tail;
    assert IsTarget(target[0]);
    Marked(lead, "at", gap, body);
    TailStart(tail);
    RunOf(target, tail, IsTarget);
    assert body[..|target|] == target && body[|target|..] == tail;
    TailIff(tail);
  }

  lemma {:induction false} FrameIsExplained(line: string) returns (lead: string, gap: string, tail: string)
    requires FrameTarget(line).Some?
    ensures FrameForm(line, lead, gap, FrameTarget(line).value, tail)
  {
    lead, gap := Unmarked(line, 2);
    var body := StripLeft(StripLeft(line)[2..]);
    var n := Run(body, IsTarget);
    tail := body[n..];
    assert body == body[..n] + tail;
    TailIff(tail);
  }

  /** The recogniser accepts exactly the grammar, and its target is the only one. */
  lemma {:induction false} FrameTargetIff(line: string, target: string)
    ensures FrameTarget(line) == Some(target) <==> exists lead, gap, tail :: FrameForm(line, lead, gap, target, tail)
  {
    if FrameTarget(line) == Some(target) {
      var lead, gap, tail := FrameIsExplained(line);
    }
    if lead, gap, tail :| FrameForm(line, lead, gap, target, tail) {
      FrameIsRecognised(line, lead, gap, target, tail);
    }
  }

  // ------------------------------------------------------------------
  // Elisions
  // ------------------------------------------------------------------

  lemma {:induction false} ElidedIsRecognised(
    line: string, lead: string, gap: string, count: string, gap': string, trail: string)
    requires ElidedForm(line, lead, gap, count, gap', trail)
    ensures ElidedCount(line) == Some(Decimal(count))
  {
    var rest := "more" + trail;
    var body := count + (gap' + rest);
    assert IsDigit(count[0]) && IsSpace(gap'[0]);
    Marked(lead, "...", gap, body);
    RunOf(count, gap' + rest, IsDigit);
    assert body[..|count|] == count && body[|count|..] == gap' + rest;
    StripLeftAfter(gap', rest);
    assert |rest| < |gap' + rest| && rest[4..] == trail && rest[..4] == "more";
  }

  lemma {:induction false} ElidedIsExplained(
    line: string)
    returns (lead: string, gap: string, count: string, gap': string, trail: string)
    requires ElidedCount(line).Some?
    ensures ElidedForm(line, lead, gap, count, gap', trail) && Decimal(count) == ElidedCount(line).value
  {
    lead, gap := Unmarked(line, 3);
    var body := StripLeft(StripLeft(line)[3..]);
    var n := Run(body, IsDigit);
    count := body[..n];
    gap' := StripLeftCut(body[n..]);
    var rest := StripLeft(body[n..]);
    trail := rest[4..];
    assert rest == "more" + trail;
    assert body == count + body[n..];
  }

  lemma {:induction false} ElidedCountIff(line: string, k: nat)
    ensures ElidedCount(line) == Some(k) <==>
              exists lead, gap, count, gap', trail ::
                ElidedForm(line, lead, gap, count, gap', trail) && Decimal(count) == k
  {
    if ElidedCount(line) == Some(k) {
      var lead, gap, count, gap', trail := ElidedIsExplained(line);
    }
    if lead, gap, count, gap', trail :|
      ElidedForm(line, lead, gap, count, gap', trail) && Decimal(count) == k {
      ElidedIsRecognised(line, lead, gap, count, gap', trail);
    }
  }
}
