/**
 Restoring the stashed values, and the main theorems about redaction with an allowlist: when the result is
 the segment-wise one, and an input for which it is not.
 */
module RedactionTheorems {
  import opened Collections
  import opened Text
  import opened Numerals
  import opened RedactionPatterns
  import opened Redaction
  import opened RedactionSegments

  // ------------------------------------------------------------------
  // Replacing a sentinel merges the pieces around it
  // ------------------------------------------------------------------

  /** The pieces of a rendered cut, sentinels' interiors included, between its NULs. */
  function Parts(cut: Cut): (parts: seq<string>)
    ensures parts != []
  {
    match cut
    case Last(s) => [s]
    case Then(s, key, rest) => [s, Mark(key)] + Parts(rest)
  }

  function Lay(parts: seq<string>): string {
    Join(parts, [NUL])
  }

  /** From the left, a piece equal to `mark` with a neighbour on either side is replaced, joining the neighbours. */
  function Merge(first: string, rest: seq<string>, mark: string, v: string): (parts: seq<string>)
    ensures parts != []
    decreases |rest|
  {
    if |rest| >= 2 && rest[0] == mark then Merge(first + v + rest[1], rest[2..], mark, v)
    else if rest == [] then [first]
    else [first] + Merge(rest[0], rest[1..], mark, v)
  }

  predicate AllNulFree(parts: seq<string>) {
    forall k :: 0 <= k < |parts| ==> NulFree(parts[k])
  }

  lemma {:induction false} LayCons(first: string, rest: seq<string>)
    ensures Lay([first] + rest) == if rest == [] then first else first + [NUL] + Lay(rest)
  {
    JoinCons(first, rest, [NUL]);
  }

  /** A sentinel does not start inside a text without NULs. */
  lemma {:induction false} SkipNulFree(lead: string, s: string, token: string, v: string)
    requires NulFree(lead) && token != "" && token[0] == NUL
    ensures Replace(lead + s, token, v) == lead + Replace(s, token, v)
  {
    forall i | 0 <= i < |lead| ensures !OccursAt(lead + s, token, i) {
      assert (lead + s)[i] == lead[i];
      assert i + |token| <= |lead + s| ==> (lead + s)[i..i + |token|][0] == lead[i];
    }
    ReplaceSkips(lead, s, token, v);
  }

  /** A sentinel at the front is replaced. */
  lemma {:induction false} ReplaceFront(mark: string, s: string, v: string)
    ensures Replace([NUL] + mark + [NUL] + s, [NUL] + mark + [NUL], v) == v + Replace(s, [NUL] + mark + [NUL], v)
  {
    var token := [NUL] + mark + [NUL];
    assert OccursAt(token + s, token, 0);
    assert token + s == "" + token + s;
    ReplaceAt("", s, token, v);
  }

  /** The piece before the first NUL is the only NUL-free text before a NUL. */
  lemma {:induction false} FirstPiece(s: string, n: nat, first: string, more: string)
    requires n < |s| && s[n] == NUL && NulFree(s[..n]) && NulFree(first)
    requires s == first || s == first + [NUL] + more
    ensures s != first && s[..n] == first
  {
    assert forall i :: 0 <= i < |first| ==> s[i] == first[i] && first[i] in first;
    assert forall i :: 0 <= i < n ==> s[i] == s[..n][i] && s[..n][i] in s[..n];
    assert |first| <= n;
    assert s[|first|] == NUL;
  }

  lemma {:induction false} MarkInFront(s: string, mark: string)
    requires OccursAt([NUL] + s, [NUL] + mark + [NUL], 0)
    ensures |mark| < |s| && s[|mark|] == NUL && s[..|mark|] == mark
  {
    var token := [NUL] + mark + [NUL];
    var t := [NUL] + s;
    assert t[0..|token|] == token;
    assert forall i :: 0 <= i < |mark| + 1 ==> s[i] == t[i + 1] == token[i + 1];
    assert forall i :: 0 <= i < |mark| ==> token[i + 1] == mark[i];
  }

  /** A NUL that does not open this sentinel is passed over. */
  lemma {:induction false} SkipNul(mark: string, first: string, more: string, s: string, v: string)
    requires s == first || s == first + [NUL] + more
    requires NulFree(mark) && NulFree(first) && (first == mark ==> s == first)
    ensures Replace([NUL] + s, [NUL] + mark + [NUL], v) == [NUL] + Replace(s, [NUL] + mark + [NUL], v)
  {
    var token := [NUL] + mark + [NUL];
    if OccursAt([NUL] + s, token, 0) {
      MarkInFront(s, mark);
      FirstPiece(s, |mark|, first, more);
    }
    ReplaceSkips([NUL], s, token, v);
  }

  lemma {:induction false} ReplaceIsMerge(first: string, rest: seq<string>, mark: string, v: string)
    requires NulFree(first) && AllNulFree(rest) && NulFree(mark) && NulFree(v)
    ensures Replace(Lay([first] + rest), [NUL] + mark + [NUL], v) == Lay(Merge(first, rest, mark, v))
    ensures AllNulFree(Merge(first, rest, mark, v))
    decreases |rest|
  {
    var token := [NUL] + mark + [NUL];
    LayCons(first, rest);
    if |rest| >= 2 && rest[0] == mark {
      MergeStep(first, rest, mark, v);
      assert NulFree(first + v + rest[1]);
      ReplaceIsMerge(first + v + rest[1], rest[2..], mark, v);
    } else if rest == [] {
      SkipNulFree(first, "", token, v);
      ReplaceFirst("", token, v);
      assert first + "" == first;
    } else {
      assert [rest[0]] + rest[1..] == rest;
      LayCons(rest[0], rest[1..]);
      SkipNulFree(first, [NUL] + Lay(rest), token, v);
      SkipNul(mark, rest[0], if |rest| > 1 then Lay(rest[1..]) else "", Lay(rest), v);
      ReplaceIsMerge(rest[0], rest[1..], mark, v);
      LayCons(first, Merge(rest[0], rest[1..], mark, v));
      NulApart(first, Lay(rest));
      NulApart(first, Lay(Merge(rest[0], rest[1..], mark, v)));
    }
  }

  /** A sentinel after a NUL-free text is replaced, and the scan goes on behind it. */
  lemma {:induction false} ReplaceToken(first: string, mark: string, later: string, v: string)
    requires NulFree(first) && NulFree(v)
    ensures var token := [NUL] + mark + [NUL];
            Replace(first + (token + later), token, v) == Replace((first + v) + later, token, v)
  {
    var token := [NUL] + mark + [NUL];
    SkipNulFree(first, token + later, token, v);
    ReplaceFront(mark, later, v);
    SkipNulFree(first + v, later, token, v);
    Associate(first, v, Replace(later, token, v));
  }

  lemma {:induction false} LayMark(first: string, rest: seq<string>)
    requires |rest| >= 2
    ensures Lay([first] + rest) == first + (([NUL] + rest[0] + [NUL]) + Lay(rest[1..]))
  {
    var later := rest[1..];
    assert rest == [rest[0]] + later;
    LayCons(first, rest);
    LayCons(rest[0], later);
    TokenGroups(first, rest[0], Lay(later));
  }

  lemma {:induction false} TokenGroups(a: string, b: string, c: string)
    ensures a + [NUL] + (b + [NUL] + c) == a + (([NUL] + b + [NUL]) + c)
  {
  }

  lemma {:induction false} LayGrown(lead: string, parts: seq<string>)
    requires parts != []
    ensures Lay([lead + parts[0]] + parts[1..]) == lead + Lay(parts)
  {
    assert parts == [parts[0]] + parts[1..];
    LayCons(parts[0], parts[1..]);
    LayCons(lead + parts[0], parts[1..]);
    Regroup(lead, parts[0], [NUL], Lay(parts[1..]));
  }

  lemma {:induction false} MergeStep(first: string, rest: seq<string>, mark: string, v: string)
    requires |rest| >= 2 && rest[0] == mark && NulFree(first) && NulFree(v)
    ensures var token := [NUL] + mark + [NUL];
            Replace(Lay([first] + rest), token, v) == Replace(Lay([first + v + rest[1]] + rest[2..]), token, v)
  {
    LayMark(first, rest);
    ReplaceToken(first, mark, Lay(rest[1..]), v);
    LayGrown(first + v, rest[1..]);
    assert rest[1..][1..] == rest[2..];
  }

  lemma {:induction false} RenderIsLay(cut: Cut)
    ensures Render(cut) == Lay(Parts(cut))
  {
    match cut
    case Last(s) =>
    case Then(s, key, rest) =>
      RenderIsLay(rest);
      LayCons(Mark(key), Parts(rest));
      LayCons(s, [Mark(key)] + Parts(rest));
      assert [s] + ([Mark(key)] + Parts(rest)) == Parts(cut);
  }

  // ------------------------------------------------------------------
  // When restoring works
  // ------------------------------------------------------------------

  /** No segment right after another sentinel and before a sentinel reads like the interior of sentinel `key`. */
  predicate Clear(cut: Cut, key: nat) {
    match cut
    case Last(_) => true
    case Then(_, j, rest) => Clear(rest, key) && (j != key && rest.Then? ==> rest.s != Mark(key))
  }

  function Prepend(lead: string, cut: Cut): Cut {
    match cut
    case Last(s) => Last(lead + s)
    case Then(s, j, rest) => Then(lead + s, j, rest)
  }

  /** The cut with the value `key` put back. */
  function Absorb(cut: Cut, key: nat, v: string): Cut {
    match cut
    case Last(s) => cut
    case Then(s, j, rest) =>
      if j == key then Prepend(s + v, Absorb(rest, key, v)) else Then(s, j, Absorb(rest, key, v))
  }

  /** At every step of the restoration, no segment can be mistaken for the sentinel being restored. */
  predicate Untangled(cut: Cut, stashed: seq<(nat, string)>)
    decreases |stashed|
  {
    stashed == [] ||
    (Clear(cut, stashed[0].0) && Untangled(Absorb(cut, stashed[0].0, stashed[0].1), stashed[1..]))
  }

  lemma {:induction false} DigitsDiffer(j: nat, k: nat)
    requires Mark(j) == Mark(k)
    ensures j == k
  {
    assert Mark(j)[5..] == Digits(j) && Mark(k)[5..] == Digits(k);
    DecimalOfDigits(j);
    DecimalOfDigits(k);
  }

  lemma {:induction false} PartsOf(cut: Cut)
    ensures Parts(cut)[0] == cut.s
    ensures Parts(cut)[1..] == if cut.Then? then [Mark(cut.key)] + Parts(cut.rest) else []
  {
  }

  lemma {:induction false} PrependParts(lead: string, cut: Cut)
    ensures Parts(Prepend(lead, cut)) == [lead + cut.s] + Parts(cut)[1..]
  {
    PartsOf(cut);
    PartsOf(Prepend(lead, cut));
  }

  lemma {:induction false} PrependTwice(a: string, b: string, cut: Cut)
    ensures Prepend(a, Prepend(b, cut)) == Prepend(a + b, cut)
  {
    Associate(a, b, cut.s);
  }

  /** On a clear cut, replacing a sentinel puts its value back. */
  lemma {:induction false} ClearMerges(lead: string, cut: Cut, key: nat, v: string)
    requires Clear(cut, key)
    ensures Merge(lead + cut.s, Parts(cut)[1..], Mark(key), v) == Parts(Prepend(lead, Absorb(cut, key, v)))
    decreases cut
  {
    PartsOf(cut);
    match cut
    case Last(s) => PrependParts(lead, cut);
    case Then(s, j, rest) =>
      var tail := [Mark(j)] + Parts(rest);
      PartsOf(rest);
      assert tail[1] == rest.s && tail[2..] == Parts(rest)[1..] && tail[1..] == Parts(rest);
      if j == key {
        ClearMerges(lead + s + v, rest, key, v);
        PrependTwice(lead, s + v, Absorb(rest, key, v));
        Associate(lead, s, v);
      } else {
        if Mark(j) == Mark(key) {
          DigitsDiffer(j, key);
        }
        ClearMerges("", rest, key, v);
        EmptyPrepend(rest.s, Absorb(rest, key, v));
        MergeSteps(lead + s, j, rest, key, v);
        PartsOf(Then(lead + s, j, Absorb(rest, key, v)));
      }
  }

  lemma {:induction false} EmptyPrepend(s: string, cut: Cut)
    ensures Prepend("", cut) == cut && "" + s == s
  {
    assert "" + cut.s == cut.s;
  }

  /** Two scan steps: a segment, and a sentinel that is not the one being replaced. */
  lemma {:induction false} MergeSteps(first: string, j: nat, rest: Cut, key: nat, v: string)
    requires Mark(j) != Mark(key) && (rest.Then? ==> rest.s != Mark(key))
    ensures Merge(first, [Mark(j)] + Parts(rest), Mark(key), v) ==
            [first, Mark(j)] + Merge(rest.s, Parts(rest)[1..], Mark(key), v)
  {
    PartsOf(rest);
    var tail := Parts(rest)[1..];
    assert Parts(rest) == [rest.s] + tail;
    TwoMisses(first, Mark(j), rest.s, tail, Mark(key), v);
  }

  /** A scan step over a piece that is not the mark, or is the last. */
  lemma {:induction false} OneMiss(first: string, piece: string, tail: seq<string>, mark: string, v: string)
    requires piece != mark || tail == []
    ensures Merge(first, [piece] + tail, mark, v) == [first] + Merge(piece, tail, mark, v)
  {
    assert ([piece] + tail)[1..] == tail;
  }

  lemma {:induction false} TwoMisses(
    first: string, piece: string, next: string, tail: seq<string>, mark: string, v: string)
    requires piece != mark && (next != mark || tail == [])
    ensures Merge(first, [piece] + ([next] + tail), mark, v) == [first, piece] + Merge(next, tail, mark, v)
  {
    OneMiss(first, piece, [next] + tail, mark, v);
    OneMiss(piece, next, tail, mark, v);
    assert [first] + ([piece] + Merge(next, tail, mark, v)) == [first, piece] + Merge(next, tail, mark, v);
  }

  // ------------------------------------------------------------------
  // When it does not
  // ------------------------------------------------------------------

  /** A text that is no sentinel's interior and cannot become one by growing. */
  predicate Unmarkable(s: string) {
    exists i :: 1 <= i < |s| && s[i] == 'A'
  }

  lemma {:induction false} MarksAreMarkable(key: nat)
    ensures !Unmarkable(Mark(key))
  {
    var mark := Mark(key);
    forall i | 1 <= i < |mark| ensures mark[i] != 'A' {
      assert mark[i] == if i < 5 then "ALLOW"[i] else Digits(key)[i - 5];
    }
  }

  lemma {:induction false} UnmarkableGrows(a: string, v: string, b: string)
    requires Unmarkable(a) || Unmarkable(b)
    ensures Unmarkable(a + v + b)
  {
    var s := a + v + b;
    if i :| 1 <= i < |a| && a[i] == 'A' {
      assert s[i] == 'A';
    } else {
      var i :| 1 <= i < |b| && b[i] == 'A';
      assert s[|a + v| + i] == 'A';
    }
  }

  lemma {:induction false} TwoMarksAreUnmarkable(j: nat, v: string, k: nat)
    ensures Unmarkable(Mark(j) + v + Mark(k))
  {
    var s := Mark(j) + v + Mark(k);
    assert s[|Mark(j) + v|] == Mark(k)[0] == 'A';
  }

  /** A piece in a sentinel's place (every second one) that will never be a sentinel again. */
  predicate Stuck(parts: seq<string>, inside: bool)
    decreases |parts|
  {
    parts != [] && ((inside && Unmarkable(parts[0])) || Stuck(parts[1..], !inside))
  }

  lemma {:induction false} StuckCons(first: string, rest: seq<string>, inside: bool)
    ensures Stuck([first] + rest, inside) <==> (inside && Unmarkable(first)) || Stuck(rest, !inside)
  {
    assert ([first] + rest)[1..] == rest;
  }

  /** Replacing further sentinels leaves a stuck piece stuck. */
  lemma {:induction false} MergeKeepsStuck(first: string, rest: seq<string>, key: nat, v: string, inside: bool)
    requires Stuck([first] + rest, inside)
    ensures Stuck(Merge(first, rest, Mark(key), v), inside)
    decreases |rest|
  {
    StuckCons(first, rest, inside);
    if |rest| >= 2 && rest[0] == Mark(key) {
      MarksAreMarkable(key);
      assert rest == [rest[0]] + rest[1..] && rest[1..] == [rest[1]] + rest[2..];
      StuckCons(rest[0], rest[1..], !inside);
      StuckCons(rest[1], rest[2..], inside);
      if inside && (Unmarkable(first) || Unmarkable(rest[1])) {
        UnmarkableGrows(first, v, rest[1]);
      }
      StuckCons(first + v + rest[1], rest[2..], inside);
      MergeKeepsStuck(first + v + rest[1], rest[2..], key, v, inside);
    } else if rest != [] {
      assert rest == [rest[0]] + rest[1..];
      if inside && Unmarkable(first) {
        StuckCons(first, Merge(rest[0], rest[1..], Mark(key), v), inside);
      } else {
        MergeKeepsStuck(rest[0], rest[1..], key, v, !inside);
        StuckCons(first, Merge(rest[0], rest[1..], Mark(key), v), inside);
      }
    }
  }

  /** On a cut that is not clear, replacing a sentinel leaves a stuck piece. */
  lemma {:induction false} TangledSticks(first: string, cut: Cut, key: nat, v: string)
    requires !Clear(cut, key)
    ensures Stuck(Merge(first, Parts(cut)[1..], Mark(key), v), false)
    decreases cut
  {
    var j, rest := cut.key, cut.rest;
    PartsOf(cut);
    PartsOf(rest);
    var tail := [Mark(j)] + Parts(rest);
    assert tail[1] == rest.s && tail[2..] == Parts(rest)[1..] && tail[1..] == Parts(rest);
    if j == key {
      TangledSticks(first + v + rest.s, rest, key, v);
    } else {
      if Mark(j) == Mark(key) {
        DigitsDiffer(j, key);
      }
      if rest.Then? && rest.s == Mark(key) {
        Mistaken(first, j, rest, key, v);
      } else {
        MergeSteps(first, j, rest, key, v);
        TangledSticks(rest.s, rest, key, v);
        var later := Merge(rest.s, Parts(rest)[1..], Mark(key), v);
        assert [first, Mark(j)] + later == [first] + ([Mark(j)] + later);
        StuckCons(Mark(j), later, true);
        StuckCons(first, [Mark(j)] + later, false);
      }
    }
  }

  /** A segment mistaken for a sentinel joins the two sentinels around it. */
  lemma {:induction false} Mistaken(first: string, j: nat, rest: Cut, key: nat, v: string)
    requires Mark(j) != Mark(key) && rest.Then? && rest.s == Mark(key)
    ensures Stuck(Merge(first, [Mark(j)] + Parts(rest), Mark(key), v), false)
  {
    var tail := [Mark(j)] + Parts(rest);
    var joined := Mark(j) + v + Mark(rest.key);
    PartsOf(rest);
    assert tail[0] == Mark(j) && tail[1..] == Parts(rest);
    assert Parts(rest)[0] == Mark(key) && Parts(rest)[1] == Mark(rest.key) && Parts(rest)[2..] == Parts(rest.rest);
    TwoMarksAreUnmarkable(j, v, rest.key);
    StuckCons(joined, Parts(rest.rest), true);
    MergeKeepsStuck(joined, Parts(rest.rest), key, v, true);
    var later := Merge(joined, Parts(rest.rest), Mark(key), v);
    assert Merge(Mark(j), Parts(rest), Mark(key), v) == later;
    StuckCons(first, later, false);
    assert Merge(first, tail, Mark(key), v) == [first] + later;
  }

  lemma {:induction false} StuckShowsNul(parts: seq<string>)
    requires Stuck(parts, false)
    ensures !NulFree(Lay(parts))
  {
    assert parts == [parts[0]] + parts[1..];
    LayCons(parts[0], parts[1..]);
    assert Lay(parts)[|parts[0]|] == NUL;
  }

  /** Once a piece is stuck, the restored text keeps a NUL. */
  lemma {:induction false} StuckForever(parts: seq<string>, stashed: seq<(nat, string)>)
    requires Stuck(parts, false) && AllNulFree(parts)
    requires forall k :: 0 <= k < |stashed| ==> NulFree(stashed[k].1)
    ensures !NulFree(Restore(Lay(parts), stashed))
    decreases |stashed|
  {
    if stashed == [] {
      StuckShowsNul(parts);
    } else {
      var key, v := stashed[0].0, stashed[0].1;
      assert parts == [parts[0]] + parts[1..];
      ReplaceIsMerge(parts[0], parts[1..], Mark(key), v);
      MergeKeepsStuck(parts[0], parts[1..], key, v, false);
      StuckForever(Merge(parts[0], parts[1..], Mark(key), v), stashed[1..]);
    }
  }

  // ------------------------------------------------------------------
  // Restoring, exactly
  // ------------------------------------------------------------------

  predicate NulFreeCut(cut: Cut) {
    match cut
    case Last(s) => NulFree(s)
    case Then(s, _, rest) => NulFree(s) && NulFreeCut(rest)
  }

  lemma {:induction false} PartsAreNulFree(cut: Cut)
    requires NulFreeCut(cut)
    ensures AllNulFree(Parts(cut))
  {
    match cut
    case Last(s) =>
    case Then(s, key, rest) => PartsAreNulFree(rest);
  }

  lemma {:induction false} AbsorbKeeps(cut: Cut, key: nat, values: seq<string>)
    requires NulFreeCut(cut) && NulFree(Value(values, key))
    ensures var more := Absorb(cut, key, Value(values, key));
            NulFreeCut(more) && Whole(more, values) == Whole(cut, values) && KeysOf(more) == KeysOf(cut) - {key}
  {
    var v := Value(values, key);
    match cut
    case Last(s) =>
    case Then(s, j, rest) =>
      AbsorbKeeps(rest, key, values);
      if j == key {
        PrependWhole(s + v, Absorb(rest, key, v), values);
        Associate(s, v, Whole(rest, values));
      }
  }

  lemma {:induction false} PrependWhole(lead: string, cut: Cut, values: seq<string>)
    ensures Whole(Prepend(lead, cut), values) == lead + Whole(cut, values)
    ensures KeysOf(Prepend(lead, cut)) == KeysOf(cut)
    ensures NulFree(lead) && NulFreeCut(cut) ==> NulFreeCut(Prepend(lead, cut))
  {
    if cut.Then? {
      Associate(lead, cut.s, Value(values, cut.key) + Whole(cut.rest, values));
    }
  }

  lemma {:induction false} WholeIsNulFree(cut: Cut, values: seq<string>)
    requires NulFreeCut(cut) && forall key :: key in KeysOf(cut) ==> NulFree(Value(values, key))
    ensures NulFree(Whole(cut, values))
  {
    match cut
    case Last(s) =>
    case Then(s, key, rest) =>
      assert key in KeysOf(cut) && forall j :: j in KeysOf(rest) ==> j in KeysOf(cut);
      WholeIsNulFree(rest, values);
  }

  /** The stash lists some of the values under their indices. */
  predicate Lists(stashed: seq<(nat, string)>, values: seq<string>) {
    forall k :: 0 <= k < |stashed| ==> NulFree(stashed[k].1) && stashed[k].1 == Value(values, stashed[k].0)
  }

  ghost predicate Covers(stashed: seq<(nat, string)>, cut: Cut) {
    forall key :: key in KeysOf(cut) ==> exists k :: 0 <= k < |stashed| && stashed[k].0 == key
  }

  lemma {:induction false} RestoreOne(cut: Cut, key: nat, v: string)
    requires NulFreeCut(cut) && NulFree(v)
    ensures var more := Merge(cut.s, Parts(cut)[1..], Mark(key), v);
            Replace(Render(cut), Token(key), v) == Lay(more) && AllNulFree(more)
    ensures Clear(cut, key) ==> Replace(Render(cut), Token(key), v) == Render(Absorb(cut, key, v))
    ensures !Clear(cut, key) ==> Stuck(Merge(cut.s, Parts(cut)[1..], Mark(key), v), false)
  {
    RenderIsLay(cut);
    PartsOf(cut);
    PartsAreNulFree(cut);
    assert Parts(cut) == [cut.s] + Parts(cut)[1..];
    MarkIsNulFree(key);
    ReplaceIsMerge(cut.s, Parts(cut)[1..], Mark(key), v);
    if Clear(cut, key) {
      ClearMerges("", cut, key, v);
      EmptyPrepend(cut.s, Absorb(cut, key, v));
      RenderIsLay(Absorb(cut, key, v));
    } else {
      TangledSticks(cut.s, cut, key, v);
    }
  }

  lemma {:induction false} MarkIsNulFree(key: nat)
    ensures NulFree(Mark(key))
  {
    assert forall i :: 0 <= i < |Digits(key)| ==> Digits(key)[i] != NUL;
  }

  /** Restoring every stashed value gives the segments rejoined exactly when nothing is tangled. */
  lemma {:induction false} RestoresExactly(cut: Cut, stashed: seq<(nat, string)>, values: seq<string>)
    requires NulFreeCut(cut) && Lists(stashed, values) && Covers(stashed, cut)
    ensures Restore(Render(cut), stashed) == Whole(cut, values) <==> Untangled(cut, stashed)
    decreases |stashed|
  {
    if stashed == [] {
      if cut.Then? {
        assert cut.key in KeysOf(cut);
      }
    } else {
      var key, v := stashed[0].0, stashed[0].1;
      RestoreOne(cut, key, v);
      if Clear(cut, key) {
        var more := Absorb(cut, key, v);
        AbsorbKeeps(cut, key, values);
        CoversLater(stashed, cut, more);
        RestoresExactly(more, stashed[1..], values);
      } else {
        var parts := Merge(cut.s, Parts(cut)[1..], Mark(key), v);
        StuckForever(parts, stashed[1..]);
        forall j | j in KeysOf(cut) ensures NulFree(Value(values, j)) {
          var k :| 0 <= k < |stashed| && stashed[k].0 == j;
        }
        WholeIsNulFree(cut, values);
      }
    }
  }

  lemma {:induction false} CoversLater(stashed: seq<(nat, string)>, cut: Cut, more: Cut)
    requires stashed != [] && Covers(stashed, cut) && KeysOf(more) == KeysOf(cut) - {stashed[0].0}
    ensures Covers(stashed[1..], more)
  {
    forall key | key in KeysOf(more) ensures exists k :: 0 <= k < |stashed[1..]| && stashed[1..][k].0 == key {
      var k :| 0 <= k < |stashed| && stashed[k].0 == key;
      assert stashed[1..][k - 1].0 == key;
    }
  }

  // ------------------------------------------------------------------
  // The cut of a text meets those conditions
  // ------------------------------------------------------------------

  lemma {:induction false} SegmentIsNulFree(s: string, v: string, key: nat)
    requires v != "" && NulFree(s)
    ensures NulFreeCut(CutSegment(s, v, key))
    decreases |s|
  {
    var i := Find(s, v);
    if i >= 0 {
      assert forall k :: i + |v| <= k < |s| ==> s[k] in s;
      SegmentIsNulFree(s[i + |v|..], v, key);
    }
  }

  lemma {:induction false} GlueIsNulFree(front: Cut, key: nat, back: Cut)
    requires NulFreeCut(front) && NulFreeCut(back)
    ensures NulFreeCut(Glue(front, key, back))
  {
    match front
    case Last(s) =>
    case Then(s, j, rest) => GlueIsNulFree(rest, key, back);
  }

  lemma {:induction false} CutMoreIsNulFree(cut: Cut, v: string, key: nat)
    requires v != "" && NulFreeCut(cut)
    ensures NulFreeCut(CutMore(cut, v, key))
  {
    match cut
    case Last(s) => SegmentIsNulFree(s, v, key);
    case Then(s, j, rest) =>
      SegmentIsNulFree(s, v, key);
      CutMoreIsNulFree(rest, v, key);
      GlueIsNulFree(CutSegment(s, v, key), j, CutMore(rest, v, key));
  }

  lemma {:induction false} CutAllIsNulFree(text: string, values: seq<string>)
    requires NulFree(text)
    ensures NulFreeCut(CutAll(text, values))
    decreases |values|
  {
    if values != [] {
      var n := |values| - 1;
      CutAllIsNulFree(text, values[..n]);
      if values[n] != "" {
        CutMoreIsNulFree(CutAll(text, values[..n]), values[n], n);
      }
    }
  }

  lemma {:induction false} ScrubbedIsNulFree(ps: seq<Pattern>, s: string, beyond: char -> bool)
    requires Proper(ps) && NulFree(s)
    ensures NulFree(Scrubbed(ps, s, beyond))
    decreases |ps|
  {
    if ps != [] {
      var n := |ps| - 1;
      assert Proper(ps[..n]);
      ScrubbedIsNulFree(ps[..n], s, beyond);
      ScrubIsNulFree(ps[n], Scrubbed(ps[..n], s, beyond), beyond);
    }
  }

  lemma {:induction false} SegmentsAreNulFree(ps: seq<Pattern>, cut: Cut, beyond: char -> bool)
    requires Proper(ps) && NulFreeCut(cut)
    ensures NulFreeCut(ScrubSegments(ps, cut, beyond)) && KeysOf(ScrubSegments(ps, cut, beyond)) == KeysOf(cut)
  {
    ScrubbedIsNulFree(ps, cut.s, beyond);
    match cut
    case Last(s) =>
    case Then(s, key, rest) => SegmentsAreNulFree(ps, rest, beyond);
  }

  lemma {:induction false} UncutSegments(cut: Cut, v: string, key: nat)
    requires v != "" && key in KeysOf(CutMore(cut, v, key)) && key !in KeysOf(cut)
    ensures Contains(Render(cut), v)
  {
    match cut
    case Last(s) =>
      FindIsFirst(s, v);
    case Then(s, j, rest) =>
      PartsGlue(CutSegment(s, v, key), j, CutMore(rest, v, key));
      if key in KeysOf(CutSegment(s, v, key)) {
        FindIsFirst(s, v);
        ContainsInFront(s, [NUL] + (Mark(j) + [NUL] + Render(rest)), v);
        NulApart(s, Mark(j) + [NUL] + Render(rest));
      } else {
        UncutSegments(rest, v, key);
        ContainsInTail(Mark(j) + [NUL], Render(rest), v);
        ContainsInTail(s + [NUL], Mark(j) + [NUL] + Render(rest), v);
      }
  }

  lemma {:induction false} ContainsInFront(s: string, more: string, v: string)
    requires Contains(s, v)
    ensures Contains(s + more, v)
  {
    FindIsFirst(s, v);
    FindKeeps(s, more, v);
    FindIsFirst(s + more, v);
  }

  lemma {:induction false} ContainsInTail(lead: string, s: string, v: string)
    requires Contains(s, v)
    ensures Contains(lead + s, v)
  {
    var i :| 0 <= i <= |s| && OccursAt(s, v, i);
    OccursAfter(lead, s, v, i);
  }

  /** Every key of the cut was stashed, with its own value. */
  lemma {:induction false} StashCovers(text: string, values: seq<string>, n: nat)
    requires Sound(values) && n <= |values|
    ensures Lists(Stashed(text, values[..n]), values) && Covers(Stashed(text, values[..n]), CutAll(text, values[..n]))
  {
    if n > 0 {
      assert values[..n][..n - 1] == values[..n - 1];
      StashCovers(text, values, n - 1);
      StashRenders(text, values, n - 1);
      var cut, v := CutAll(text, values[..n - 1]), values[n - 1];
      CutMoreIsCut(cut, v, n - 1, values);
      CutAllIsCut(text, values, n - 1);
      var earlier, stashed := Stashed(text, values[..n - 1]), Stashed(text, values[..n]);
      var keys := KeysOf(CutMore(cut, v, n - 1));
      forall key | key in keys ensures exists k :: 0 <= k < |stashed| && stashed[k].0 == key {
        if key in KeysOf(cut) {
          var k :| 0 <= k < |earlier| && earlier[k].0 == key;
          assert stashed[k].0 == key;
        } else {
          UncutSegments(cut, v, n - 1);
          assert stashed[|earlier|].0 == key;
        }
      }
    }
  }

  // ------------------------------------------------------------------
  // Main theorems
  // ------------------------------------------------------------------

  /** The text cut at the allowlisted values, each segment scrubbed alone. */
  function ScrubbedCut(text: string, values: seq<string>, ps: seq<Pattern>, beyond: char -> bool): Cut {
    ScrubSegments(ps, CutAll(text, values), beyond)
  }

  /**
   Redaction is segment-wise, exactly when nothing is tangled: the redacted text is the scrubbed segments
   rejoined with the allowlisted values intact.
   */
  lemma {:induction false} RedactionIsSegmentWise(
    text: string, values: seq<string>, ps: seq<Pattern>, beyond: char -> bool)
    requires NulFree(text) && Sound(values) && Proper(ps)
    ensures RedactedText(text, values, ps, beyond) == Whole(ScrubbedCut(text, values, ps, beyond), values) <==>
            Untangled(ScrubbedCut(text, values, ps, beyond), Stashed(text, values))
  {
    assert values[..|values|] == values;
    var cut := CutAll(text, values);
    StashRenders(text, values, |values|);
    ScrubbedRenders(ps, cut, beyond);
    CutAllIsNulFree(text, values);
    SegmentsAreNulFree(ps, cut, beyond);
    StashCovers(text, values, |values|);
    RestoresExactly(ScrubbedCut(text, values, ps, beyond), Stashed(text, values), values);
  }

  /** The segments really are the text's: rejoined unscrubbed they give it back, and none holds a value. */
  lemma {:induction false} SegmentsAreTheText(text: string, values: seq<string>)
    requires Sound(values)
    ensures Whole(CutAll(text, values), values) == text
    ensures forall part, k :: part in Segments(CutAll(text, values)) && 0 <= k < |values| ==> !Contains(part, values[k])
  {
    assert values[..|values|] == values;
    CutAllIsCut(text, values, |values|);
    forall part, k | part in Segments(CutAll(text, values)) && 0 <= k < |values| ensures !Contains(part, values[k]) {
      CutAllIsComplete(text, values, part, k);
    }
  }

  /** The reported counts are the sums over the segments. */
  lemma {:induction false} CountsAreTheSegments(
    text: string, values: seq<string>, ps: seq<Pattern>, name: string, beyond: char -> bool)
    requires Sound(values) && Proper(ps)
    ensures Tally(ps, Stash(text, values), name, beyond) == TallyIn(ps, CutAll(text, values), name, beyond)
  {
    assert values[..|values|] == values;
    StashRenders(text, values, |values|);
    HitsAreTheSegments(ps, CutAll(text, values), name, beyond);
  }

  lemma {:induction false} NoTallyNoChange(ps: seq<Pattern>, s: string, beyond: char -> bool)
    requires forall name :: Tally(ps, s, name, beyond) == 0
    ensures Scrubbed(ps, s, beyond) == s
    decreases |ps|
  {
    if ps != [] {
      var n := |ps| - 1;
      forall name ensures Tally(ps[..n], s, name, beyond) == 0 {
        assert Tally(ps, s, name, beyond) == 0;
      }
      NoTallyNoChange(ps[..n], s, beyond);
      assert Tally(ps, s, ps[n].name, beyond) == 0;
      NoHitsNoChange(ps[n], s, beyond);
    }
  }

  /** With no pattern hits redaction is the identity, exactly when nothing is tangled. */
  lemma {:induction false} NoHitsIsIdentity(text: string, values: seq<string>, ps: seq<Pattern>, beyond: char -> bool)
    requires NulFree(text) && Sound(values) && Proper(ps)
    requires forall name :: Tally(ps, Stash(text, values), name, beyond) == 0
    ensures RedactedText(text, values, ps, beyond) == text <==> Untangled(CutAll(text, values), Stashed(text, values))
  {
    assert values[..|values|] == values;
    NoTallyNoChange(ps, Stash(text, values), beyond);
    StashRenders(text, values, |values|);
    CutAllIsNulFree(text, values);
    StashCovers(text, values, |values|);
    RestoresExactly(CutAll(text, values), Stashed(text, values), values);
    CutAllIsCut(text, values, |values|);
  }

  // ------------------------------------------------------------------
  // A check on the text alone
  // ------------------------------------------------------------------

  /** Segment by segment, the scrubbed cut shows the original or a bracket. */
  predicate Shows(original: Cut, scrubbed: Cut)
    decreases original
  {
    && (scrubbed.s == original.s || '[' in scrubbed.s)
    && (scrubbed.Then? <==> original.Then?)
    && (original.Then? ==> scrubbed.key == original.key && Shows(original.rest, scrubbed.rest))
  }

  lemma {:induction false} ScrubbedShows(ps: seq<Pattern>, s: string, beyond: char -> bool)
    ensures Scrubbed(ps, s, beyond) == s || '[' in Scrubbed(ps, s, beyond)
    decreases |ps|
  {
    if ps != [] {
      var n := |ps| - 1;
      ScrubbedShows(ps[..n], s, beyond);
      ScrubShows(ps[n], Scrubbed(ps[..n], s, beyond), beyond);
    }
  }

  lemma {:induction false} SegmentsShow(ps: seq<Pattern>, cut: Cut, beyond: char -> bool)
    ensures Shows(cut, ScrubSegments(ps, cut, beyond))
  {
    ScrubbedShows(ps, cut.s, beyond);
    match cut
    case Last(s) =>
    case Then(s, key, rest) => SegmentsShow(ps, rest, beyond);
  }

  lemma {:induction false} PrependShows(lead: string, lead': string, a: Cut, b: Cut)
    requires Shows(a, b) && (lead == lead' || '[' in lead')
    ensures Shows(Prepend(lead, a), Prepend(lead', b))
  {
    if '[' in b.s {
      assert '[' in lead' + b.s;
    }
  }

  lemma {:induction false} AbsorbShows(a: Cut, b: Cut, key: nat, v: string)
    requires Shows(a, b)
    ensures Shows(Absorb(a, key, v), Absorb(b, key, v))
    decreases a
  {
    if a.Then? {
      AbsorbShows(a.rest, b.rest, key, v);
      if a.key == key {
        assert '[' in b.s ==> '[' in b.s + v;
        PrependShows(a.s + v, b.s + v, Absorb(a.rest, key, v), Absorb(b.rest, key, v));
      }
    }
  }

  lemma {:induction false} PlainIsClear(a: Cut, b: Cut, key: nat, values: seq<string>)
    requires Shows(a, b) && !Contains(Whole(a, values), "ALLOW")
    ensures Clear(b, key)
    decreases a
  {
    if a.Then? {
      var rest := Whole(a.rest, values);
      if Contains(rest, "ALLOW") {
        ContainsInTail(a.s + Value(values, a.key), rest, "ALLOW");
        Associate(a.s, Value(values, a.key), rest);
      }
      PlainIsClear(a.rest, b.rest, key, values);
      if b.rest.Then? && b.rest.s == Mark(key) {
        MarkShows(key);
        MarkInWhole(a.rest, key, values);
      }
    }
  }

  lemma {:induction false} MarkInWhole(cut: Cut, key: nat, values: seq<string>)
    requires cut.Then? && cut.s == Mark(key)
    ensures Contains(Whole(cut, values), "ALLOW")
  {
    var whole := Whole(cut, values);
    assert whole[0..5] == Mark(key)[..5] == "ALLOW";
    assert OccursAt(whole, "ALLOW", 0);
  }

  lemma {:induction false} MarkShows(key: nat)
    ensures '[' !in Mark(key)
  {
    assert forall i :: 0 <= i < |Digits(key)| ==> IsDigit(Digits(key)[i]);
  }

  lemma {:induction false} PlainIsUntangled(a: Cut, b: Cut, stashed: seq<(nat, string)>, values: seq<string>)
    requires Shows(a, b) && !Contains(Whole(a, values), "ALLOW") && NulFreeCut(a) && Lists(stashed, values)
    ensures Untangled(b, stashed)
    decreases |stashed|
  {
    if stashed != [] {
      var key, v := stashed[0].0, stashed[0].1;
      PlainIsClear(a, b, key, values);
      AbsorbShows(a, b, key, v);
      AbsorbKeeps(a, key, values);
      PlainIsUntangled(Absorb(a, key, v), Absorb(b, key, v), stashed[1..], values);
    }
  }

  /** A text that does not hold the word `ALLOW` is redacted segment by segment. */
  lemma {:induction false} PlainTextIsSegmentWise(
    text: string, values: seq<string>, ps: seq<Pattern>, beyond: char -> bool)
    requires NulFree(text) && Sound(values) && Proper(ps) && !Contains(text, "ALLOW")
    ensures RedactedText(text, values, ps, beyond) == Whole(ScrubbedCut(text, values, ps, beyond), values)
  {
    assert values[..|values|] == values;
    CutAllIsCut(text, values, |values|);
    CutAllIsNulFree(text, values);
    StashCovers(text, values, |values|);
    SegmentsShow(ps, CutAll(text, values), beyond);
    PlainIsUntangled(CutAll(text, values), ScrubbedCut(text, values, ps, beyond), Stashed(text, values), values);
    RedactionIsSegmentWise(text, values, ps, beyond);
  }

  /**
   The shipped patterns meet the theorems' hypothesis: with them redaction is segment-wise exactly when nothing
   is tangled, and always on a text that does not hold the word `ALLOW`.
   */
  lemma {:induction false} DefaultRedaction(text: string, values: seq<string>, beyond: char -> bool)
    requires NulFree(text) && Sound(values)
    ensures var cut := ScrubbedCut(text, values, PATTERNS, beyond);
            RedactedText(text, values, PATTERNS, beyond) == Whole(cut, values) <==>
            Untangled(cut, Stashed(text, values))
    ensures !Contains(text, "ALLOW") ==>
              Untangled(ScrubbedCut(text, values, PATTERNS, beyond), Stashed(text, values))
  {
    DefaultsAreProper();
    RedactionIsSegmentWise(text, values, PATTERNS, beyond);
    if !Contains(text, "ALLOW") {
      PlainTextIsSegmentWise(text, values, PATTERNS, beyond);
    }
  }

  // ------------------------------------------------------------------
  // A tangled text
  // ------------------------------------------------------------------

  lemma {:induction false} CutOnce(head: string, v: string, rest: string, key: nat)
    requires Separator(v) && !Contains(head, v)
    ensures CutSegment(head + v + rest, v, key) == Then(head, key, CutSegment(rest, v, key))
  {
    FindSeparator(head, v, rest);
    var s := head + v + rest;
    assert s[..|head|] == head && s[|head| + |v|..] == rest;
  }

  lemma {:induction false} CutNever(s: string, v: string, key: nat)
    requires v != "" && !Contains(s, v)
    ensures CutSegment(s, v, key) == Last(s)
  {
    FindIsFirst(s, v);
  }

  lemma {:induction false} CharAbsent(s: string, c: char)
    requires c !in s
    ensures !Contains(s, [c])
  {
    forall i | 0 <= i <= |s| ensures !OccursAt(s, [c], i) {
      assert i < |s| ==> s[i..i + 1][0] == s[i];
    }
  }

  /** A text `y ALLOW<k> y x` (without the blanks): the value `y`, then what reads like a sentinel's interior. */
  function Lookalike(x: char, y: char, mark: string): string {
    ([y] + mark + [y]) + [x] + ""
  }

  function LookalikeCut(mark: string): Cut {
    Then("", 1, Then(mark, 1, Then("", 0, Last(""))))
  }

  lemma {:induction false} LookalikeIsCut(x: char, y: char, mark: string)
    requires x != y && x !in mark && y !in mark
    ensures CutAll(Lookalike(x, y, mark), [[x], [y]]) == LookalikeCut(mark)
  {
    var text := Lookalike(x, y, mark);
    CutLater(text, [[x]], [y]);
    CutLater(text, [], [x]);
    assert [] + [[x]] == [[x]] && [[x]] + [[y]] == [[x], [y]];
    LookalikeTail(x, y, mark);
    FrontIsCut(y, mark);
  }

  lemma {:induction false} LookalikeTail(x: char, y: char, mark: string)
    requires x != y && x !in mark
    ensures CutMore(Last(Lookalike(x, y, mark)), [x], 0) == Then([y] + mark + [y], 0, Last(""))
  {
    var front := [y] + mark + [y];
    CharAbsent(front, x);
    CharAbsent("", x);
    CutOnce(front, [x], "", 0);
    CutNever("", [x], 0);
  }

  lemma {:induction false} CutLater(text: string, values: seq<string>, v: string)
    requires v != ""
    ensures CutAll(text, values + [v]) == CutMore(CutAll(text, values), v, |values|)
    ensures Stashed(text, values + [v]) ==
            Stashed(text, values) + if Contains(Stash(text, values), v) then [(|values|, v)] else []
  {
    assert (values + [v])[..|values|] == values;
  }

  lemma {:induction false} FrontIsCut(y: char, mark: string)
    requires y !in mark
    ensures CutMore(Then([y] + mark + [y], 0, Last("")), [y], 1) == LookalikeCut(mark)
  {
    CharAbsent("", y);
    CutNever("", [y], 1);
    FrontSegments(y, mark);
    assert CutMore(Last(""), [y], 1) == Last("");
    GlueTwice("", 1, mark, 1, "", 0, Last(""));
  }

  lemma {:induction false} FrontSegments(y: char, mark: string)
    requires y !in mark
    ensures CutSegment([y] + mark + [y], [y], 1) == Then("", 1, Then(mark, 1, Last("")))
  {
    CharAbsent("", y);
    CharAbsent(mark, y);
    CutNever("", [y], 1);
    CutOnce(mark, [y], "", 1);
    CutOnce("", [y], mark + [y] + "", 1);
    BlankEnds([y], mark);
  }

  lemma {:induction false} BlankEnds(v: string, mark: string)
    ensures v + mark + v == "" + v + (mark + v + "")
  {
  }

  lemma {:induction false} GlueTwice(a: string, i: nat, b: string, j: nat, c: string, k: nat, back: Cut)
    ensures Glue(Then(a, i, Then(b, j, Last(c))), k, back) == Then(a, i, Then(b, j, Then(c, k, back)))
  {
    assert Glue(Last(c), k, back) == Then(c, k, back);
    assert Glue(Then(b, j, Last(c)), k, back) == Then(b, j, Then(c, k, back));
  }

  lemma {:induction false} LookalikeIsStashed(x: char, y: char, mark: string)
    ensures var stashed := Stashed(Lookalike(x, y, mark), [[x], [y]]); stashed != [] && stashed[0] == (0, [x])
  {
    var text := Lookalike(x, y, mark);
    CutLater(text, [[x]], [y]);
    CutLater(text, [], [x]);
    assert [] + [[x]] == [[x]] && [[x]] + [[y]] == [[x], [y]];
    var n := |[y] + mark + [y]|;
    assert text[n..n + 1] == [x];
    assert OccursAt(text, [x], n);
  }

  lemma {:induction false} LookalikeIsSound(x: char, y: char)
    requires x != NUL && y != NUL && y !in Mark(0)
    ensures Sound([[x], [y]])
  {
    CharAbsent(Mark(0), y);
  }

  lemma {:induction false} MarkStays(ps: seq<Pattern>, key: nat, beyond: char -> bool)
    requires Proper(ps)
    ensures Scrubbed(ps, Mark(key), beyond) == Mark(key) && Scrubbed(ps, "", beyond) == ""
    decreases |ps|
  {
    if ps != [] {
      var n := |ps| - 1;
      assert Proper(ps[..n]);
      MarkStays(ps[..n], key, beyond);
      MarkIsUntouched(ps[n], key, beyond);
    }
  }

  lemma {:induction false} LookalikeStays(ps: seq<Pattern>, mark: string, beyond: char -> bool)
    requires Scrubbed(ps, mark, beyond) == mark && Scrubbed(ps, "", beyond) == ""
    ensures ScrubSegments(ps, LookalikeCut(mark), beyond) == LookalikeCut(mark)
  {
    assert ScrubSegments(ps, Then("", 0, Last("")), beyond) == Then("", 0, Last(""));
    assert ScrubSegments(ps, Then(mark, 1, Then("", 0, Last(""))), beyond) == Then(mark, 1, Then("", 0, Last("")));
  }

  /**
   A whole family of sound allowlists, and texts without NULs or anything to redact, that redaction
   corrupts: for any two characters `x` and `y` outside `ALLOW0`, the text `yALLOW0yx` with both allowlisted.
   The segment between the two `y` reads like the sentinel of `x`, and the restoration takes it for one.
   */
  lemma {:induction false} LookalikeIsCorrupted(x: char, y: char, ps: seq<Pattern>, beyond: char -> bool)
    requires Proper(ps) && x != y && x != NUL && y != NUL && x !in Mark(0) && y !in Mark(0)
    ensures var text, values := Lookalike(x, y, Mark(0)), [[x], [y]];
            && NulFree(text) && Sound(values)
            && Whole(ScrubbedCut(text, values, ps, beyond), values) == text
            && RedactedText(text, values, ps, beyond) != text
  {
    var text, values := Lookalike(x, y, Mark(0)), [[x], [y]];
    MarkIsNulFree(0);
    LookalikeIsSound(x, y);
    LookalikeIsCut(x, y, Mark(0));
    LookalikeIsStashed(x, y, Mark(0));
    MarkStays(ps, 0, beyond);
    LookalikeStays(ps, Mark(0), beyond);
    SegmentsAreTheText(text, values);
    LookalikeIsTangled(Stashed(text, values), [x]);
    RedactionIsSegmentWise(text, values, ps, beyond);
  }

  lemma {:induction false} LookalikeIsTangled(stashed: seq<(nat, string)>, v: string)
    requires stashed != [] && stashed[0] == (0, v)
    ensures !Untangled(LookalikeCut(Mark(0)), stashed)
  {
    assert !Clear(LookalikeCut(Mark(0)), 0);
  }

  // ------------------------------------------------------------------
  // Outside the sound allowlists
  // ------------------------------------------------------------------

  lemma {:induction false} WordsStay(p: Pattern, parts: seq<string>, beyond: char -> bool)
    requires StartsWithDigit(p) && parts != []
    requires forall part :: part in parts ==> AllWord(part, WordOf(beyond)) && (part != "" ==> !IsDigit(part[0]))
    ensures Scrub(p, Lay(parts), beyond) == Lay(parts)
    decreases |parts|
  {
    assert parts == [parts[0]] + parts[1..];
    LayCons(parts[0], parts[1..]);
    WordIsUntouched(p, parts[0], beyond);
    if parts[1..] != [] {
      assert forall part :: part in parts[1..] ==> part in parts;
      WordsStay(p, parts[1..], beyond);
      NulIsForeign(p, beyond);
      ScrubAcross(p, parts[0], NUL, Lay(parts[1..]), beyond);
      NulApart(parts[0], Lay(parts[1..]));
    }
  }

  lemma {:induction false} AllWordsStay(ps: seq<Pattern>, parts: seq<string>, beyond: char -> bool)
    requires Proper(ps) && parts != []
    requires forall part :: part in parts ==> AllWord(part, WordOf(beyond)) && (part != "" ==> !IsDigit(part[0]))
    ensures Scrubbed(ps, Lay(parts), beyond) == Lay(parts)
    decreases |ps|
  {
    if ps != [] {
      var n := |ps| - 1;
      assert Proper(ps[..n]);
      AllWordsStay(ps[..n], parts, beyond);
      WordsStay(ps[n], parts, beyond);
    }
  }

  /** A sentinel whose interior is no piece is not replaced. */
  lemma {:induction false} MergeNothing(first: string, rest: seq<string>, mark: string, v: string)
    requires mark !in rest
    ensures Merge(first, rest, mark, v) == [first] + rest
    decreases |rest|
  {
    if rest != [] {
      assert rest[0] in rest && forall part :: part in rest[1..] ==> part in rest;
      MergeNothing(rest[0], rest[1..], mark, v);
      assert [rest[0]] + rest[1..] == rest;
    }
  }

  /** The pieces after both stashes: the second value was found inside the sentinel of the first. */
  function Broken(): seq<string> {
    ["", "ALLOW", Mark(1), "", ""]
  }

  lemma {:induction false} MarksAreShort()
    ensures Mark(0) == "ALLOW" + "0" && Mark(1) == "ALLOW" + "1"
    ensures Token(0) == ([NUL] + "ALLOW") + "0" + [NUL]
  {
    assert Digits(0) == "0" && Digits(1) == "1";
  }

  lemma {:induction false} BrokenIsStashed(x: char)
    ensures Stash([x], [[x], "0"]) == Lay(Broken())
    ensures Stashed([x], [[x], "0"]) == [(0, [x]), (1, "0")]
  {
    var values := [[x], "0"];
    assert values[..1] == [[x]] && values[..1][..0] == [];
    ReplaceWhole([x], Token(0));
    assert OccursAt([x], [x], 0);
    assert Stash([x], []) == [x];
    assert Stash([x], values[..1]) == Token(0);
    assert Stashed([x], values[..1]) == [(0, [x])];
    MarksAreShort();
    assert OccursAt(Token(0), "0", 6);
    TokenIsBroken();
  }

  lemma {:induction false} ReplaceWhole(s: string, replacement: string)
    requires s != ""
    ensures Replace(s, s, replacement) == replacement
  {
    assert OccursAt(s, s, 0);
    assert s == "" + s + "";
    ReplaceAt("", "", s, replacement);
    ReplaceFirst("", s, replacement);
    assert "" + replacement + "" == replacement;
  }

  lemma {:induction false} TokenIsBroken()
    ensures Replace(Token(0), "0", Token(1)) == Lay(Broken())
  {
    var lead := [NUL] + "ALLOW";
    MarksAreShort();
    CharAbsent(lead, '0');
    CharAbsent([NUL], '0');
    FindSeparator(lead, "0", [NUL]);
    ReplaceAt(lead, [NUL], "0", Token(1));
    ReplaceAbsent([NUL], "0", Token(1));
    LayFive("ALLOW", Mark(1));
  }

  lemma {:induction false} LayTail(mark: string)
    ensures Lay([mark, "", ""]) == mark + [NUL] + [NUL]
  {
    LayCons("", [""]);
    LayCons(mark, ["", ""]);
    assert [""] + [""] == ["", ""] && [mark] + ["", ""] == [mark, "", ""];
  }

  lemma {:induction false} LayFive(a: string, mark: string)
    ensures Lay(["", a, mark, "", ""]) == ([NUL] + a) + ([NUL] + mark + [NUL]) + [NUL]
  {
    LayTail(mark);
    LayCons(a, [mark, "", ""]);
    LayCons("", [a, mark, "", ""]);
    assert [a] + [mark, "", ""] == [a, mark, "", ""] && [""] + [a, mark, "", ""] == ["", a, mark, "", ""];
    FiveGroups(a, mark);
  }

  lemma {:induction false} FiveGroups(a: string, mark: string)
    ensures "" + [NUL] + (a + [NUL] + (mark + [NUL] + [NUL])) == ([NUL] + a) + ([NUL] + mark + [NUL]) + [NUL]
  {
  }

  lemma {:induction false} BrokenMerges()
    ensures Merge("", ["ALLOW", Mark(1), "", ""], Mark(1), "0") == ["", Mark(0), ""]
  {
    MarksAreShort();
    var rest := ["ALLOW", Mark(1), "", ""];
    assert rest[1..] == [Mark(1), "", ""] && [Mark(1), "", ""][2..] == [""] && [""][1..] == [];
    assert Merge("", [], Mark(1), "0") == [""];
    assert Merge(Mark(0), [""], Mark(1), "0") == [Mark(0)] + [""];
    assert "ALLOW" + "0" + "" == Mark(0);
    assert Merge("ALLOW", [Mark(1), "", ""], Mark(1), "0") == [Mark(0)] + [""];
  }

  /**
   Why values must not occur inside an earlier value's sentinel: with any `x` and then `0` allowlisted, the text
   `x` loses its allowlisted value. The second stash breaks the sentinel of the first, which then is never restored.
   */
  lemma {:induction false} UnsoundAllowlistLosesValue(x: char, ps: seq<Pattern>, beyond: char -> bool)
    requires Proper(ps) && x != NUL
    ensures !Sound([[x], "0"])
    ensures RedactedText([x], [[x], "0"], ps, beyond) == Token(0) != [x]
  {
    MarksAreShort();
    assert OccursAt(Mark(0), "0", 5);
    BrokenIsStashed(x);
    BrokenIsScrubbed(ps, beyond);
    BrokenIsRestored(x);
  }

  lemma {:induction false} BrokenIsScrubbed(ps: seq<Pattern>, beyond: char -> bool)
    requires Proper(ps)
    ensures Scrubbed(ps, Lay(Broken()), beyond) == Lay(Broken())
  {
    var parts := Broken();
    MarksAreShort();
    forall part | part in parts ensures AllWord(part, WordOf(beyond)) && (part != "" ==> !IsDigit(part[0])) {
      assert part == "" || part == "ALLOW" || part == Mark(1);
    }
    AllWordsStay(ps, parts, beyond);
  }

  lemma {:induction false} RestoreTwo(text: string, a: nat, v: string, b: nat, w: string)
    ensures Restore(text, [(a, v), (b, w)]) == Replace(Replace(text, Token(a), v), Token(b), w)
  {
    var stashed: seq<(nat, string)> := [(a, v), (b, w)];
    assert stashed[1..] == [(b, w)];
    RestoreSingle(Replace(text, Token(a), v), b, w);
  }

  lemma {:induction false} RestoreSingle(text: string, key: nat, v: string)
    ensures Restore(text, [(key, v)]) == Replace(text, Token(key), v)
  {
    var stashed: seq<(nat, string)> := [(key, v)];
    assert |stashed[1..]| == 0;
  }

  lemma {:induction false} LayToken(mark: string)
    ensures Lay(["", mark, ""]) == [NUL] + mark + [NUL]
  {
    LayCons(mark, [""]);
    LayCons("", [mark, ""]);
    assert [mark] + [""] == [mark, ""] && [""] + [mark, ""] == ["", mark, ""];
  }

  /** The first sentinel is not there any more, and restoring the second gives the first one's text back. */
  lemma {:induction false} FirstIsLost(v: string)
    requires NulFree(v)
    ensures Replace(Lay(Broken()), Token(0), v) == Lay(Broken())
    ensures Replace(Lay(Broken()), Token(1), "0") == Token(0)
  {
    var rest := ["ALLOW", Mark(1), "", ""];
    MarksAreShort();
    assert [""] + rest == Broken();
    assert Mark(0)[5] != Mark(1)[5];
    assert rest[0] != Mark(0) && rest[1] != Mark(0) && rest[2] != Mark(0) && rest[3] != Mark(0);
    ReplaceIsMerge("", rest, Mark(0), v);
    MergeNothing("", rest, Mark(0), v);
    ReplaceIsMerge("", rest, Mark(1), "0");
    BrokenMerges();
    LayToken(Mark(0));
  }

  lemma {:induction false} BrokenIsRestored(x: char)
    requires x != NUL
    ensures Restore(Lay(Broken()), [(0, [x]), (1, "0")]) == Token(0)
  {
    RestoreTwo(Lay(Broken()), 0, [x], 1, "0");
    FirstIsLost([x]);
  }
}
