/**
 The grep-style context selector (src/log_pipeline/sources/k8s/filtering.py). It is fed one line at a
 time and must emit, in order and once each, exactly the lines within `before` lines ahead of a match
 or `after` lines behind one.
 */
module ContextSelector {

  /** Some line of `lines` matches and has line `i` in its window. */
  ghost predicate Kept<T>(matcher: T -> bool, before: nat, after: nat, lines: seq<T>, i: int) {
    exists j :: 0 <= j < |lines| && matcher(lines[j]) && j - before <= i <= j + after
  }

  /** The kept lines among the first `n`, in order. Whether a line is kept may depend on any line. */
  ghost function SelectFirst<T>(matcher: T -> bool, before: nat, after: nat, lines: seq<T>, n: nat): seq<T>
    requires n <= |lines|
  {
    if n == 0 then []
    else SelectFirst(matcher, before, after, lines, n - 1) +
         if Kept(matcher, before, after, lines, n - 1) then [lines[n - 1]] else []
  }

  /** What grep prints with this much context. */
  ghost function Selected<T>(matcher: T -> bool, before: nat, after: nat, lines: seq<T>): seq<T> {
    SelectFirst(matcher, before, after, lines, |lines|)
  }

  /** The lines held back, the trailing counter, and where the last match was. */
  datatype Window<T> = Window(held: seq<T>, remaining: nat, last: int)

  /**
   The held lines are the latest lines not selected, at most `before` of them with nothing unselected
   between them and the reach of a coming match; the counter reaches exactly as far as the trailing
   window of the last match, which is line `last` (-1 if there is none).
   */
  ghost predicate Tracks<T>(matcher: T -> bool, before: nat, after: nat, fed: seq<T>, w: Window<T>) {
    && HoldsLatest(before, fed, w.held)
    && HeldUnselected(matcher, before, after, fed, |fed| - |w.held|)
    && ReachSelected(matcher, before, after, fed, |fed| - |w.held|)
    && LastMatch(matcher, fed, w.last)
    && Counts(after, |fed|, w)
  }

  predicate HoldsLatest<T(==)>(before: nat, fed: seq<T>, held: seq<T>) {
    |held| <= before && |held| <= |fed| && held == fed[|fed| - |held|..]
  }

  ghost predicate HeldUnselected<T>(matcher: T -> bool, before: nat, after: nat, fed: seq<T>, from: int) {
    forall i :: from <= i < |fed| ==> !Kept(matcher, before, after, fed, i)
  }

  ghost predicate ReachSelected<T>(matcher: T -> bool, before: nat, after: nat, fed: seq<T>, from: int) {
    forall i :: 0 <= i < from && |fed| - before <= i ==> Kept(matcher, before, after, fed, i)
  }

  predicate LastMatch<T>(matcher: T -> bool, fed: seq<T>, last: int) {
    && -1 <= last < |fed| && (last >= 0 ==> matcher(fed[last]))
    && forall j :: last < j < |fed| ==> !matcher(fed[j])
  }

  predicate Counts<T>(after: nat, n: nat, w: Window<T>) {
    && w.remaining == (if w.last >= 0 && n <= w.last + after then w.last + after + 1 - n else 0)
    && (w.remaining > 0 ==> |w.held| == 0)
  }

  /** What one line does: the lines to emit, the lines held afterwards, and the counter. */
  function Next<T>(matcher: T -> bool, before: nat, after: nat, held: seq<T>, remaining: nat, line: T)
    : (seq<T>, seq<T>, nat)
  {
    if matcher(line) then (held + [line], [], after)
    else if remaining > 0 then ([line], held, remaining - 1)
    else if before == 0 then ([], held, 0)
    else if |held| == before then ([], held[1..] + [line], 0)
    else ([], held + [line], 0)
  }

  class ContextWindowSelector<T> {
    const matcher: T -> bool
    const before: nat
    const after: nat
    var held: seq<T>
    var afterRemaining: nat

    /** Every line fed since the last reset. */
    ghost var fed: seq<T>
    /** Every line emitted since the last reset. */
    ghost var emitted: seq<T>
    /** Where in `fed` the last match is. */
    ghost var last: int

    ghost predicate Valid()
      reads this
    {
      && emitted == Selected(matcher, before, after, fed)
      && Tracks(matcher, before, after, fed, Window(held, afterRemaining, last))
    }

    constructor (matcher: T -> bool, before: int, after: int)
      ensures Valid() && fed == [] && this.matcher == matcher
      ensures this.before == (if before < 0 then 0 else before) && this.after == (if after < 0 then 0 else after)
    {
      this.matcher := matcher;
      this.before := if before < 0 then 0 else before;
      this.after := if after < 0 then 0 else after;
      held, afterRemaining := [], 0;
      fed, emitted, last := [], [], -1;
    }

    method Feed(line: T) returns (lines: seq<T>)
      requires Valid()
      modifies this
      ensures Valid() && fed == old(fed) + [line] && emitted == old(emitted) + lines
    {
      ghost var next := Next(matcher, before, after, held, afterRemaining, line);
      ghost var last' := if matcher(line) then |fed| else last;
      FeedKeeps(matcher, before, after, fed, held, afterRemaining, last, line);
      if matcher(line) {
        lines := held + [line];
        held := [];
        afterRemaining := after;
      } else if afterRemaining > 0 {
        afterRemaining := afterRemaining - 1;
        lines := [line];
      } else {
        if before > 0 {
          held := if |held| == before then held[1..] + [line] else held + [line];
        }
        lines := [];
      }
      assert (lines, held, afterRemaining) == next;
      last := last';
      fed := fed + [line];
      emitted := emitted + lines;
    }

    method Reset()
      requires Valid()
      modifies this
      ensures Valid() && fed == []
    {
      held, afterRemaining := [], 0;
      fed, emitted, last := [], [], -1;
    }
  }

  lemma {:induction false} KeptMore<T>(matcher: T -> bool, before: nat, after: nat, lines: seq<T>, line: T, i: int)
    ensures Kept(matcher, before, after, lines + [line], i) <==>
              || Kept(matcher, before, after, lines, i)
              || (matcher(line) && |lines| - before <= i <= |lines| + after)
  {
    var more := lines + [line];
    assert more[|lines|] == line;
    if Kept(matcher, before, after, lines, i) {
      var j :| 0 <= j < |lines| && matcher(lines[j]) && j - before <= i <= j + after;
      assert matcher(more[j]);
    }
  }

  /** Lines decided alike are selected alike. */
  lemma {:induction false} SelectAgrees<T>(
      matcher: T -> bool, before: nat, after: nat, lines: seq<T>, line: T, n: nat)
    requires n <= |lines|
    requires forall i :: 0 <= i < n ==>
               Kept(matcher, before, after, lines + [line], i) == Kept(matcher, before, after, lines, i)
    ensures SelectFirst(matcher, before, after, lines + [line], n) == SelectFirst(matcher, before, after, lines, n)
    decreases n
  {
    if n > 0 {
      SelectAgrees(matcher, before, after, lines, line, n - 1);
      assert (lines + [line])[n - 1] == lines[n - 1];
    }
  }

  lemma {:induction false} SelectAll<T>(matcher: T -> bool, before: nat, after: nat, lines: seq<T>, lo: nat, hi: nat)
    requires lo <= hi <= |lines|
    requires forall i :: lo <= i < hi ==> Kept(matcher, before, after, lines, i)
    ensures SelectFirst(matcher, before, after, lines, hi) ==
            SelectFirst(matcher, before, after, lines, lo) + lines[lo..hi]
    decreases hi
  {
    if lo < hi {
      SelectAll(matcher, before, after, lines, lo, hi - 1);
      assert lines[lo..hi] == lines[lo..hi - 1] + [lines[hi - 1]];
    }
  }

  lemma {:induction false} SelectNone<T>(matcher: T -> bool, before: nat, after: nat, lines: seq<T>, lo: nat, hi: nat)
    requires lo <= hi <= |lines|
    requires forall i :: lo <= i < hi ==> !Kept(matcher, before, after, lines, i)
    ensures SelectFirst(matcher, before, after, lines, hi) == SelectFirst(matcher, before, after, lines, lo)
    decreases hi
  {
    if lo < hi {
      SelectNone(matcher, before, after, lines, lo, hi - 1);
    }
  }

  /** A match turns exactly the held lines and itself into selected lines. */
  lemma {:induction false} FeedMatch<T>(
      matcher: T -> bool, before: nat, after: nat, fed: seq<T>, held: seq<T>, remaining: nat, last: int, line: T)
    requires matcher(line) && Tracks(matcher, before, after, fed, Window(held, remaining, last))
    ensures Selected(matcher, before, after, fed + [line]) == Selected(matcher, before, after, fed) + (held + [line])
    ensures Tracks(matcher, before, after, fed + [line], Window([], after, |fed|))
  {
    MatchSelects(matcher, before, after, fed, held, line);
    MatchReaches(matcher, before, after, fed, line);
    assert (fed + [line])[|fed| + 1..] == [];
    assert (fed + [line])[|fed|] == line;
  }

  lemma {:induction false} MatchSelects<T>(
      matcher: T -> bool, before: nat, after: nat, fed: seq<T>, held: seq<T>, line: T)
    requires matcher(line) && HoldsLatest(before, fed, held)
    requires HeldUnselected(matcher, before, after, fed, |fed| - |held|)
    requires ReachSelected(matcher, before, after, fed, |fed| - |held|)
    ensures Selected(matcher, before, after, fed + [line]) == Selected(matcher, before, after, fed) + (held + [line])
  {
    var n, lo, more := |fed|, |fed| - |held|, fed + [line];
    forall i ensures Kept(matcher, before, after, more, i) <==>
                       Kept(matcher, before, after, fed, i) || n - before <= i <= n + after {
      KeptMore(matcher, before, after, fed, line, i);
    }
    SelectAgrees(matcher, before, after, fed, line, lo);
    SelectAll(matcher, before, after, more, lo, n + 1);
    SelectNone(matcher, before, after, fed, lo, n);
    LatestAndOne(fed, lo, line);
  }

  lemma {:induction false} LatestAndOne<T>(fed: seq<T>, lo: nat, line: T)
    requires lo <= |fed|
    ensures (fed + [line])[lo..|fed| + 1] == fed[lo..] + [line]
  {
  }

  lemma {:induction false} MatchReaches<T>(matcher: T -> bool, before: nat, after: nat, fed: seq<T>, line: T)
    requires matcher(line)
    ensures ReachSelected(matcher, before, after, fed + [line], |fed| + 1)
  {
    forall i | 0 <= i < |fed| + 1 && |fed| + 1 - before <= i ensures Kept(matcher, before, after, fed + [line], i) {
      KeptMore(matcher, before, after, fed, line, i);
    }
  }

  /** Any other line changes nothing before it, and is itself selected only by an earlier match. */
  lemma {:induction false} FeedOther<T>(matcher: T -> bool, before: nat, after: nat, fed: seq<T>, line: T)
    requires !matcher(line)
    ensures forall i :: Kept(matcher, before, after, fed + [line], i) <==> Kept(matcher, before, after, fed, i)
    ensures Selected(matcher, before, after, fed + [line]) ==
            Selected(matcher, before, after, fed) + if Kept(matcher, before, after, fed, |fed|) then [line] else []
  {
    forall i ensures Kept(matcher, before, after, fed + [line], i) <==> Kept(matcher, before, after, fed, i) {
      KeptMore(matcher, before, after, fed, line, i);
    }
    SelectAgrees(matcher, before, after, fed, line, |fed|);
  }

  lemma {:induction false} FeedTrailing<T>(
    matcher: T -> bool, before: nat, after: nat, fed: seq<T>, held: seq<T>, remaining: nat, last: int, line: T)
    requires !matcher(line) && remaining > 0 && Tracks(matcher, before, after, fed, Window(held, remaining, last))
    ensures Selected(matcher, before, after, fed + [line]) == Selected(matcher, before, after, fed) + [line]
    ensures Tracks(matcher, before, after, fed + [line], Window([], remaining - 1, last))
  {
    FeedOther(matcher, before, after, fed, line);
    var n, more := |fed|, fed + [line];
    assert matcher(fed[last]) && last - before <= n <= last + after;
    assert Kept(matcher, before, after, fed, n);
    assert more[n + 1..] == [];
  }

  /** A line outside every window is held, at the price of the oldest held line when there is no room. */
  lemma {:induction false} FeedOutside<T>(
      matcher: T -> bool, before: nat, after: nat, fed: seq<T>, held: seq<T>, last: int, line: T)
    requires !matcher(line) && Tracks(matcher, before, after, fed, Window(held, 0, last))
    ensures Selected(matcher, before, after, fed + [line]) == Selected(matcher, before, after, fed)
    ensures var held' := if before == 0 then held else if |held| == before then held[1..] + [line] else held + [line];
            Tracks(matcher, before, after, fed + [line], Window(held', 0, last))
  {
    FeedOther(matcher, before, after, fed, line);
    OutsideIsUnselected(matcher, before, after, fed, last);
    var held' := if before == 0 then held else if |held| == before then held[1..] + [line] else held + [line];
    HoldLine(before, fed, held, line);
    OutsideReach(matcher, before, after, fed, held, line, |held'|);
    OutsideMatches(matcher, fed, last, line);
  }

  /** Past the window of the last match, and so of every match. */
  lemma {:induction false} OutsideIsUnselected<T>(matcher: T -> bool, before: nat, after: nat, fed: seq<T>, last: int)
    requires LastMatch(matcher, fed, last) && (last >= 0 ==> last + after < |fed|)
    ensures !Kept(matcher, before, after, fed, |fed|)
  {
  }

  lemma {:induction false} HoldLine<T>(before: nat, fed: seq<T>, held: seq<T>, line: T)
    requires HoldsLatest(before, fed, held)
    ensures var held' := if before == 0 then held else if |held| == before then held[1..] + [line] else held + [line];
            HoldsLatest(before, fed + [line], held')
  {
  }

  lemma {:induction false} OutsideReach<T>(
      matcher: T -> bool, before: nat, after: nat, fed: seq<T>, held: seq<T>, line: T, size: nat)
    requires |held| <= before
    requires forall i :: Kept(matcher, before, after, fed + [line], i) <==> Kept(matcher, before, after, fed, i)
    requires !Kept(matcher, before, after, fed, |fed|)
    requires HeldUnselected(matcher, before, after, fed, |fed| - |held|)
    requires ReachSelected(matcher, before, after, fed, |fed| - |held|)
    requires size == if before == 0 || |held| == before then |held| else |held| + 1
    ensures HeldUnselected(matcher, before, after, fed + [line], |fed| + 1 - size)
    ensures ReachSelected(matcher, before, after, fed + [line], |fed| + 1 - size)
  {
  }

  lemma {:induction false} OutsideMatches<T>(matcher: T -> bool, fed: seq<T>, last: int, line: T)
    requires LastMatch(matcher, fed, last) && !matcher(line)
    ensures LastMatch(matcher, fed + [line], last)
  {
  }

  lemma {:induction false} FeedKeeps<T>(
    matcher: T -> bool, before: nat, after: nat, fed: seq<T>, held: seq<T>, remaining: nat, last: int, line: T)
    requires Tracks(matcher, before, after, fed, Window(held, remaining, last))
    ensures var (lines, held', remaining') := Next(matcher, before, after, held, remaining, line);
            && Selected(matcher, before, after, fed + [line]) == Selected(matcher, before, after, fed) + lines
            && Tracks(matcher, before, after, fed + [line],
                      Window(held', remaining', if matcher(line) then |fed| else last))
  {
    if matcher(line) {
      FeedMatch(matcher, before, after, fed, held, remaining, last, line);
    } else if remaining > 0 {
      FeedTrailing(matcher, before, after, fed, held, remaining, last, line);
    } else {
      FeedOutside(matcher, before, after, fed, held, last, line);
    }
  }
}
