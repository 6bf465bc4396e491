/** Python's string operations: `find`, `split`, `join`, `replace`, `strip`. */
module Text {
  import opened Collections

  predicate OccursAt(s: string, sub: string, i: int) {
    0 <= i <= i + |sub| <= |s| && s[i..i + |sub|] == sub
  }

  predicate Contains(s: string, sub: string) {
    exists i :: 0 <= i <= |s| && OccursAt(s, sub, i)
  }

  /** The first occurrence at or after `from`, or -1. */
  function FindFrom(s: string, sub: string, from: nat): (r: int)
    requires from <= |s|
    ensures r == -1 || from <= r <= |s| - |sub|
    decreases |s| - from
  {
    if OccursAt(s, sub, from) then from
    else if from == |s| then -1
    else FindFrom(s, sub, from + 1)
  }

  function Find(s: string, sub: string): (r: int)
    ensures r == -1 || 0 <= r <= |s| - |sub|
  {
    FindFrom(s, sub, 0)
  }

  lemma {:induction false} FindFromIsFirst(s: string, sub: string, from: nat)
    requires from <= |s|
    ensures var r := FindFrom(s, sub, from);
            && (r >= 0 ==> OccursAt(s, sub, r))
            && forall i :: from <= i < (if r >= 0 then r else |s| + 1) ==> !OccursAt(s, sub, i)
    decreases |s| - from
  {
    if !OccursAt(s, sub, from) && from < |s| {
      FindFromIsFirst(s, sub, from + 1);
    }
  }

  /** `find` returns the first occurrence, and -1 exactly when there is none. */
  lemma {:induction false} FindIsFirst(s: string, sub: string)
    ensures var r := Find(s, sub);
            && (r >= 0 <==> Contains(s, sub))
            && (r >= 0 ==> OccursAt(s, sub, r) && forall i :: 0 <= i < r ==> !OccursAt(s, sub, i))
  {
    FindFromIsFirst(s, sub, 0);
  }

  function Split(s: string, sep: string): (parts: seq<string>)
    requires sep != ""
    ensures |parts| >= 1
    decreases |s|
  {
    var i := Find(s, sep);
    if i < 0 then [s] else [s[..i]] + Split(s[i + |sep|..], sep)
  }

  function Join(parts: seq<string>, sep: string): string {
    if parts == [] then ""
    else if |parts| == 1 then parts[0]
    else parts[0] + sep + Join(parts[1..], sep)
  }

  function Replace(s: string, sub: string, replacement: string): string
    requires sub != ""
  {
    Join(Split(s, sub), replacement)
  }

  /** The characters `str.strip` removes and `\s` matches. */
  predicate IsSpace(c: char) {
    var n := c as int;
    9 <= n <= 13 || 28 <= n <= 32 || n == 0x85 || n == 0xA0 || n == 0x1680 || 0x2000 <= n <= 0x200A ||
    n == 0x2028 || n == 0x2029 || n == 0x202F || n == 0x205F || n == 0x3000
  }

  /** What `\w` matches: `beyond` stands for its characters past ASCII. */
  predicate IsWord(c: char, beyond: char -> bool) {
    || 'A' <= c <= 'Z' || 'a' <= c <= 'z' || '0' <= c <= '9' || c == '_'
    || (c as int >= 128 && !IsSpace(c) && beyond(c))
  }

  /** The longest prefix of characters satisfying `p`. */
  function Run(s: string, p: char -> bool): (n: nat)
    ensures n <= |s| && (forall i :: 0 <= i < n ==> p(s[i])) && (n < |s| ==> !p(s[n]))
  {
    if s != "" && p(s[0]) then 1 + Run(s[1..], p) else 0
  }

  lemma {:induction false} RunOf(s: string, rest: string, p: char -> bool)
    requires (forall i :: 0 <= i < |s| ==> p(s[i])) && (rest == "" || !p(rest[0]))
    ensures Run(s + rest, p) == |s|
  {
    assert forall i :: 0 <= i < |s| ==> (s + rest)[i] == s[i];
    assert rest != "" ==> (s + rest)[|s|] == rest[0];
  }

  function StripLeft(s: string): string {
    if s != "" && IsSpace(s[0]) then StripLeft(s[1..]) else s
  }

  function StripRight(s: string): string {
    if s != "" && IsSpace(s[|s| - 1]) then StripRight(s[..|s| - 1]) else s
  }

  function Strip(s: string): string {
    StripRight(StripLeft(s))
  }

  /** Neither end is white space. */
  predicate Stripped(s: string) {
    s == "" || (!IsSpace(s[0]) && !IsSpace(s[|s| - 1]))
  }

  lemma {:induction false} StripStripped(s: string)
    requires Stripped(s)
    ensures Strip(s) == s
  {
  }

  /** A text strips to nothing exactly when it is all white space. */
  lemma {:induction false} BlankStrips(s: string)
    ensures Strip(s) == "" <==> forall i :: 0 <= i < |s| ==> IsSpace(s[i])
  {
    BlankStripsLeft(s);
    RightKeepsFirst(StripLeft(s));
  }

  lemma {:induction false} BlankStripsLeft(s: string)
    ensures StripLeft(s) == "" <==> forall i :: 0 <= i < |s| ==> IsSpace(s[i])
    ensures StripLeft(s) != "" ==> !IsSpace(StripLeft(s)[0])
  {
    if s != "" && IsSpace(s[0]) {
      BlankStripsLeft(s[1..]);
      assert forall i :: 1 <= i < |s| ==> s[i] == s[1..][i - 1];
    }
  }

  lemma {:induction false} RightKeepsFirst(s: string)
    requires s == "" || !IsSpace(s[0])
    ensures StripRight(s) == "" <==> s == ""
  {
    if s != "" && IsSpace(s[|s| - 1]) {
      RightKeepsFirst(s[..|s| - 1]);
    }
  }

  lemma {:induction false} JoinCons(part: string, parts: seq<string>, sep: string)
    ensures Join([part] + parts, sep) == if parts == [] then part else part + sep + Join(parts, sep)
  {
    assert ([part] + parts)[1..] == parts;
  }

  lemma {:induction false} CutAt(s: string, sub: string, i: nat)
    requires OccursAt(s, sub, i)
    ensures s == s[..i] + sub + s[i + |sub|..]
  {
  }

  lemma {:induction false} JoinSplit(s: string, sep: string)
    requires sep != ""
    ensures Join(Split(s, sep), sep) == s
    decreases |s|
  {
    var i := Find(s, sep);
    FindIsFirst(s, sep);
    if i >= 0 {
      CutAt(s, sep, i);
      var head, rest := s[..i], s[i + |sep|..];
      JoinSplit(rest, sep);
      JoinCons(head, Split(rest, sep), sep);
      assert Split(s, sep) == [head] + Split(rest, sep);
    }
  }

  /** The separator cannot overlap itself: its first character does not come back in it. */
  predicate Separator(sep: string) {
    sep != "" && forall k :: 1 <= k < |sep| ==> sep[k] != sep[0]
  }

  lemma {:induction false} FindSeparator(part: string, sep: string, rest: string)
    requires Separator(sep) && !Contains(part, sep)
    ensures Find(part + sep + rest, sep) == |part|
  {
    var s := part + sep + rest;
    FindIsFirst(s, sep);
    assert OccursAt(s, sep, |part|);
    forall i | 0 <= i < |part| ensures !OccursAt(s, sep, i) {
      if i + |sep| <= |part| {
        assert s[i..i + |sep|] == part[i..i + |sep|];
        assert !OccursAt(part, sep, i);
      } else {
        assert s[|part|] == sep[0];
        assert i + |sep| <= |s| ==> s[i..i + |sep|][|part| - i] == sep[0] != sep[|part| - i];
      }
    }
  }

  lemma {:induction false} SplitCons(part: string, sep: string, rest: string)
    requires Separator(sep) && !Contains(part, sep)
    ensures Split(part + sep + rest, sep) == [part] + Split(rest, sep)
  {
    FindSeparator(part, sep, rest);
    var s := part + sep + rest;
    assert s[..|part|] == part && s[|part| + |sep|..] == rest;
  }

  lemma {:induction false} SplitJoin(parts: seq<string>, sep: string)
    requires Separator(sep) && parts != []
    requires forall p :: p in parts ==> !Contains(p, sep)
    ensures Split(Join(parts, sep), sep) == parts
    decreases |parts|
  {
    assert parts[0] in parts;
    FindIsFirst(parts[0], sep);
    if |parts| > 1 {
      SplitCons(parts[0], sep, Join(parts[1..], sep));
      SplitJoin(parts[1..], sep);
      assert parts == [parts[0]] + parts[1..];
    } else {
      assert parts == [parts[0]];
    }
  }

  /** What stands before the first occurrence holds none. */
  lemma {:induction false} PrefixLacks(s: string, i: nat, sub: string)
    requires i <= |s| && sub != "" && forall k :: 0 <= k < i ==> !OccursAt(s, sub, k)
    ensures !Contains(s[..i], sub)
  {
    var part := s[..i];
    forall k | 0 <= k <= i ensures !OccursAt(part, sub, k) {
      if k + |sub| <= i {
        assert !OccursAt(s, sub, k);
        assert forall m :: k <= m < k + |sub| ==> part[m] == s[m];
        assert s[k..k + |sub|] == part[k..k + |sub|];
      }
    }
  }

  /** No piece of a split holds the separator. */
  lemma {:induction false} SplitPieces(s: string, sep: string, part: string)
    requires sep != "" && part in Split(s, sep)
    ensures !Contains(part, sep)
    decreases |s|
  {
    FindIsFirst(s, sep);
    var i := Find(s, sep);
    if i >= 0 {
      if part == s[..i] {
        PrefixLacks(s, i, sep);
      } else {
        SplitPieces(s[i + |sep|..], sep, part);
      }
    }
  }

  /** Either the separator is absent, or the text is cut at its first occurrence. */
  lemma {:induction false} SplitCases(s: string, sep: string) returns (head: string, rest: string)
    requires sep != ""
    ensures !Contains(head, sep)
    ensures if Contains(s, sep) then s == head + sep + rest && Split(s, sep) == [head] + Split(rest, sep)
            else s == head && Split(s, sep) == [head]
  {
    FindIsFirst(s, sep);
    var i := Find(s, sep);
    if i >= 0 {
      CutAt(s, sep, i);
      head, rest := s[..i], s[i + |sep|..];
      SplitPieces(s, sep, head);
    } else {
      head, rest := s, "";
    }
  }

  lemma {:induction false} SplitAppend(a: string, sep: string, b: string)
    requires Separator(sep)
    ensures Split(a + sep + b, sep) == Split(a, sep) + Split(b, sep)
    decreases |a|
  {
    var head, rest := SplitCases(a, sep);
    if Contains(a, sep) {
      SplitAppend(rest, sep, b);
      SplitAppendStep(head, rest, sep, b);
    } else {
      SplitCons(a, sep, b);
    }
  }

  lemma {:induction false} SplitAppendStep(head: string, rest: string, sep: string, b: string)
    requires Separator(sep) && !Contains(head, sep)
    requires Split(rest + sep + b, sep) == Split(rest, sep) + Split(b, sep)
    ensures Split(head + sep + rest + sep + b, sep) == ([head] + Split(rest, sep)) + Split(b, sep)
  {
    FlattenFive(head, sep, rest, sep, b);
    SplitCons(head, sep, rest + sep + b);
    Associate([head], Split(rest, sep), Split(b, sep));
  }

  lemma {:induction false} FlattenFive(a: string, b: string, c: string, d: string, e: string)
    ensures a + b + c + d + e == a + b + (c + d + e)
  {
  }

  lemma {:induction false} NotInLead(lead: string, s: string, sep: string)
    requires sep != "" && sep[0] !in lead && !Contains(s, sep)
    ensures !Contains(lead + s, sep)
  {
    forall k | 0 <= k <= |lead + s| ensures !OccursAt(lead + s, sep, k) {
      if k < |lead| {
        assert (lead + s)[k] == lead[k];
        assert k + |sep| <= |lead + s| ==> (lead + s)[k..k + |sep|][0] == lead[k];
      } else {
        assert !OccursAt(s, sep, k - |lead|);
        assert k + |sep| <= |lead + s| ==> (lead + s)[k..k + |sep|] == s[k - |lead|..k - |lead| + |sep|];
      }
    }
  }

  lemma {:induction false} SplitNone(s: string, sep: string)
    requires sep != "" && !Contains(s, sep)
    ensures Split(s, sep) == [s]
  {
    FindIsFirst(s, sep);
  }

  /** Text without the separator's first character only lengthens the first piece. */
  lemma {:induction false} SplitAfter(lead: string, s: string, sep: string)
    requires Separator(sep) && sep[0] !in lead
    ensures Split(lead + s, sep) == [lead + Split(s, sep)[0]] + Split(s, sep)[1..]
  {
    var head, rest := SplitCases(s, sep);
    NotInLead(lead, head, sep);
    if Contains(s, sep) {
      SplitCons(head, sep, rest);
      SplitAfterLead(lead, head, sep, rest);
    } else {
      SplitNone(lead + s, sep);
      SplitNone(s, sep);
    }
  }

  lemma {:induction false} SplitAfterLead(lead: string, head: string, sep: string, rest: string)
    requires Separator(sep) && !Contains(lead + head, sep)
    ensures Split(lead + (head + sep + rest), sep) == [lead + head] + Split(rest, sep)
  {
    SplitCons(lead + head, sep, rest);
    LeadIn(lead, head, sep, rest);
  }

  lemma {:induction false} LeadIn(lead: string, head: string, sep: string, rest: string)
    ensures lead + (head + sep + rest) == (lead + head) + sep + rest
  {
  }

  lemma {:induction false} NewlineOccurs(s: string, mark: string, j: nat)
    requires OccursAt(s, "\n" + mark, j)
    ensures OccursAt(s, "\n", j) && mark <= s[j + 1..]
  {
    var sep := "\n" + mark;
    assert s[j] == s[j..j + |sep|][0] == '\n';
    assert s[j + 1..][..|mark|] == s[j..j + |sep|][1..] == mark;
  }

  lemma {:induction false} OccursLater(head: string, rest: string, sub: string, j: nat)
    requires j >= |head| && OccursAt(head + rest, sub, j)
    ensures Contains(rest, sub)
  {
    assert rest[j - |head|..j - |head| + |sub|] == (head + rest)[j..j + |sub|];
    assert OccursAt(rest, sub, j - |head|);
  }

  /** Where a newline and `mark` occur, a later line starts with `mark`. */
  lemma {:induction false} MarkAfterNewline(head: string, rest: string, mark: string)
    requires !Contains(head, "\n") && Contains(head + "\n" + rest, "\n" + mark)
    ensures mark <= rest || Contains(rest, "\n" + mark)
  {
    var s := head + "\n" + rest;
    var j :| 0 <= j <= |s| && OccursAt(s, "\n" + mark, j);
    NewlineOccurs(s, mark, j);
    if j < |head| {
      assert head[j..j + 1] == s[j..j + 1];
      assert OccursAt(head, "\n", j);
    } else if j > |head| {
      OccursLater(head + "\n", rest, "\n" + mark, j);
    } else {
      assert s[j + 1..] == rest;
    }
  }

  lemma {:induction false} FirstLineStarts(s: string, mark: string)
    requires '\n' !in mark && mark <= s
    ensures mark <= Split(s, "\n")[0]
  {
    assert s == mark + s[|mark|..];
    SplitAfter(mark, s[|mark|..], "\n");
  }

  /** A text none of whose later lines starts with `mark` does not hold a newline followed by `mark`. */
  lemma {:induction false} NoLineStarts(s: string, mark: string)
    requires '\n' !in mark
    requires forall line :: line in Split(s, "\n")[1..] ==> !(mark <= line)
    ensures !Contains(s, "\n" + mark)
    decreases |s|
  {
    var head, rest := SplitCases(s, "\n");
    if Contains(s, "\n") {
      var lines := Split(rest, "\n");
      assert Split(s, "\n")[1..] == lines;
      assert lines[0] in lines && forall line :: line in lines[1..] ==> line in lines;
      NoLineStarts(rest, mark);
      if mark <= rest {
        FirstLineStarts(rest, mark);
      }
      if Contains(s, "\n" + mark) {
        MarkAfterNewline(head, rest, mark);
      }
    } else if j :| 0 <= j <= |s| && OccursAt(s, "\n" + mark, j) {
      NewlineOccurs(s, mark, j);
    }
  }

  // ------------------------------------------------------------------
  // Replacement
  // ------------------------------------------------------------------

  lemma {:induction false} ReplaceFirst(s: string, sub: string, replacement: string)
    requires sub != ""
    ensures var i := Find(s, sub);
            Replace(s, sub, replacement) ==
            if i < 0 then s else s[..i] + replacement + Replace(s[i + |sub|..], sub, replacement)
  {
    var i := Find(s, sub);
    if i >= 0 {
      JoinCons(s[..i], Split(s[i + |sub|..], sub), replacement);
    }
  }

  lemma {:induction false} ReplaceAbsent(s: string, sub: string, replacement: string)
    requires sub != "" && !Contains(s, sub)
    ensures Replace(s, sub, replacement) == s
  {
    FindIsFirst(s, sub);
    ReplaceFirst(s, sub, replacement);
  }

  /** The first occurrence stays the first when the text grows at its end. */
  lemma {:induction false} FindKeeps(s: string, more: string, sub: string)
    requires Find(s, sub) >= 0
    ensures Find(s + more, sub) == Find(s, sub)
  {
    FindIsFirst(s, sub);
    FindIsFirst(s + more, sub);
    var r, r' := Find(s, sub), Find(s + more, sub);
    assert (s + more)[r..r + |sub|] == s[r..r + |sub|];
    assert OccursAt(s + more, sub, r);
    assert (s + more)[r'..r' + |sub|] == s[r'..r' + |sub|];
    assert OccursAt(s, sub, r');
  }

  lemma {:induction false} OccursAfter(lead: string, s: string, sub: string, i: nat)
    ensures OccursAt(lead + s, sub, |lead| + i) <==> OccursAt(s, sub, i)
  {
    if i + |sub| <= |s| {
      assert (lead + s)[|lead| + i..|lead| + i + |sub|] == s[i..i + |sub|];
    }
  }

  lemma {:induction false} FindSkips(lead: string, s: string, sub: string)
    requires forall i :: 0 <= i < |lead| ==> !OccursAt(lead + s, sub, i)
    ensures Find(lead + s, sub) == if Find(s, sub) < 0 then -1 else |lead| + Find(s, sub)
  {
    FindIsFirst(s, sub);
    FindIsFirst(lead + s, sub);
    var i, j := Find(s, sub), Find(lead + s, sub);
    if i >= 0 {
      OccursAfter(lead, s, sub, i);
    }
    if j >= 0 {
      OccursAfter(lead, s, sub, j - |lead|);
    }
  }

  /** A lead in which no occurrence starts is left alone. */
  lemma {:induction false} ReplaceSkips(lead: string, s: string, sub: string, replacement: string)
    requires sub != "" && forall i :: 0 <= i < |lead| ==> !OccursAt(lead + s, sub, i)
    ensures Replace(lead + s, sub, replacement) == lead + Replace(s, sub, replacement)
  {
    FindSkips(lead, s, sub);
    ReplaceShifts(lead, s, sub, replacement);
  }

  lemma {:induction false} ReplaceShifts(lead: string, s: string, sub: string, replacement: string)
    requires sub != "" && Find(lead + s, sub) == if Find(s, sub) < 0 then -1 else |lead| + Find(s, sub)
    ensures Replace(lead + s, sub, replacement) == lead + Replace(s, sub, replacement)
  {
    var i := Find(s, sub);
    if i >= 0 {
      FindIsFirst(s, sub);
      CutAt(s, sub, i);
      var head, rest := s[..i], s[i + |sub|..];
      ReplaceAtShift(lead, head, rest, sub, replacement);
    } else {
      ReplaceFirst(s, sub, replacement);
      ReplaceFirst(lead + s, sub, replacement);
    }
  }

  lemma {:induction false} ReplaceAtShift(lead: string, head: string, rest: string, sub: string, replacement: string)
    requires sub != "" && Find(head + sub + rest, sub) == |head|
    requires Find(lead + (head + sub + rest), sub) == |lead| + |head|
    ensures Replace(lead + (head + sub + rest), sub, replacement) == lead + Replace(head + sub + rest, sub, replacement)
  {
    var later := Replace(rest, sub, replacement);
    ReplaceAt(head, rest, sub, replacement);
    Regroup(lead, head, sub, rest);
    ReplaceAt(lead + head, rest, sub, replacement);
    Regroup(lead, head, replacement, later);
  }

  lemma {:induction false} Regroup(a: string, b: string, c: string, d: string)
    ensures (a + b) + c + d == a + (b + c + d)
  {
  }

  lemma {:induction false} ReplaceAt(head: string, rest: string, sub: string, replacement: string)
    requires sub != "" && Find(head + sub + rest, sub) == |head|
    ensures Replace(head + sub + rest, sub, replacement) == head + replacement + Replace(rest, sub, replacement)
  {
    var s := head + sub + rest;
    ReplaceFirst(s, sub, replacement);
    assert s[..|head|] == head && s[|head| + |sub|..] == rest;
  }

  /** An occurrence of a text without `c` does not reach across a `c`. */
  lemma {:induction false} NoOccurrenceAcross(a: string, c: char, b: string, sub: string, i: nat)
    requires sub != "" && c !in sub && i <= |a|
    ensures OccursAt(a + [c] + b, sub, i) <==> OccursAt(a, sub, i)
  {
    var s := a + [c] + b;
    if i + |sub| <= |a| {
      assert s[i..i + |sub|] == a[i..i + |sub|];
    } else if i + |sub| <= |s| {
      assert s[i..i + |sub|][|a| - i] == c;
    }
  }

  lemma {:induction false} ReplaceAcross(a: string, c: char, b: string, sub: string, replacement: string)
    requires sub != "" && c !in sub
    ensures Replace(a + [c] + b, sub, replacement) == Replace(a, sub, replacement) + [c] + Replace(b, sub, replacement)
    decreases |a|
  {
    if Find(a, sub) >= 0 {
      var i, rest := FirstAcross(a, [c] + b, sub, replacement);
      ReplaceAcross(rest, c, b, sub, replacement);
      Associate(a, [c], b);
      Associate(rest, [c], b);
      FlattenFive(a[..i], replacement, Replace(rest, sub, replacement), [c], Replace(b, sub, replacement));
    } else {
      NoneAcross(a, c, b, sub);
      ReplaceSkips(a + [c], b, sub, replacement);
      ReplaceFirst(a, sub, replacement);
    }
  }

  lemma {:induction false} FirstAcross(
    a: string, more: string, sub: string, replacement: string)
    returns (i: nat, rest: string)
    requires sub != "" && Find(a, sub) >= 0
    ensures |rest| < |a| && i <= |a|
    ensures Replace(a, sub, replacement) == a[..i] + replacement + Replace(rest, sub, replacement)
    ensures Replace(a + more, sub, replacement) == a[..i] + replacement + Replace(rest + more, sub, replacement)
  {
    i := Find(a, sub);
    FindIsFirst(a, sub);
    FindKeeps(a, more, sub);
    CutAt(a, sub, i);
    var head := a[..i];
    rest := a[i + |sub|..];
    ReplaceAt(head, rest, sub, replacement);
    Longer(head, sub, rest, more);
    ReplaceAt(head, rest + more, sub, replacement);
  }

  lemma {:induction false} Longer(head: string, sub: string, rest: string, more: string)
    ensures (head + sub + rest) + more == head + sub + (rest + more)
  {
  }

  lemma {:induction false} NoneAcross(a: string, c: char, b: string, sub: string)
    requires sub != "" && c !in sub && Find(a, sub) < 0
    ensures forall k :: 0 <= k < |a + [c]| ==> !OccursAt(a + [c] + b, sub, k)
  {
    FindIsFirst(a, sub);
    forall k | 0 <= k < |a + [c]| ensures !OccursAt(a + [c] + b, sub, k) {
      NoOccurrenceAcross(a, c, b, sub, k);
    }
  }
}
