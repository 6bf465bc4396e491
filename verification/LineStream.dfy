/**
 Lines from a chunked log response (src/log_pipeline/sources/k8s/retrieval.py): chunks are reassembled
 around newlines with a carry buffer, up to a byte cap, and the non-blank lines go through the context
 selector.
 */
module LineStream {
  import opened Collections
  import opened Text
  import opened ContextSelector

  /** One yielded triple: the line, the bytes read so far, whether the cap was hit. */
  datatype Item = Item(line: string, total: nat, hitCap: bool)

  /** Bytes of one character in UTF-8. */
  function CharBytes(c: char): nat {
    var n := c as int;
    if n < 0x80 then 1 else if n < 0x800 then 2 else if n < 0x1_0000 then 3 else 4
  }

  function ByteLen(s: string): nat {
    if s == "" then 0 else ByteLen(s[..|s| - 1]) + CharBytes(s[|s| - 1])
  }

  function Concat(chunks: seq<string>): string {
    if chunks == [] then "" else Concat(chunks[..|chunks| - 1]) + chunks[|chunks| - 1]
  }

  /** The first `k` chunks reach the cap, and the last of them is what reached it. */
  predicate CapAt(chunks: seq<string>, maxBytes: int, k: nat) {
    1 <= k <= |chunks| && chunks[k - 1] != "" && maxBytes <= ByteLen(Concat(chunks[..k]))
  }

  /** How many chunks are read: up to the first that reaches the cap, else all of them. */
  function ChunksRead(chunks: seq<string>, maxBytes: int, from: nat): (k: nat)
    requires from <= |chunks|
    ensures from <= k <= |chunks|
    ensures forall j :: from < j < k ==> !CapAt(chunks, maxBytes, j)
    ensures k == |chunks| || CapAt(chunks, maxBytes, k)
    decreases |chunks| - from
  {
    if from == |chunks| then from
    else if CapAt(chunks, maxBytes, from + 1) then from + 1
    else ChunksRead(chunks, maxBytes, from + 1)
  }

  function TextRead(chunks: seq<string>, maxBytes: int): string {
    Concat(chunks[..ChunksRead(chunks, maxBytes, 0)])
  }

  predicate Capped(chunks: seq<string>, maxBytes: int) {
    CapAt(chunks, maxBytes, ChunksRead(chunks, maxBytes, 0))
  }

  function Last(parts: seq<string>): string
    requires parts != []
  {
    parts[|parts| - 1]
  }

  function Init(parts: seq<string>): seq<string>
    requires parts != []
  {
    parts[..|parts| - 1]
  }

  /** `text.split("\n")`. */
  function SplitLines(text: string): (parts: seq<string>)
    ensures |parts| >= 1
  {
    if text == "" then [""] else Extend(SplitLines(text[..|text| - 1]), text[|text| - 1])
  }

  /** The pieces after one more character. */
  function Extend(parts: seq<string>, c: char): (more: seq<string>)
    requires parts != []
    ensures more != []
  {
    if c == '\n' then parts + [""] else Init(parts) + [Last(parts) + [c]]
  }

  /** The lines of a text: its newline split, without an empty last piece. */
  function Lines(text: string): seq<string> {
    var parts := SplitLines(text);
    if Last(parts) == "" then Init(parts) else parts
  }

  function LinesOf(items: seq<Item>): (lines: seq<string>)
    ensures |lines| == |items| && forall k :: 0 <= k < |items| ==> lines[k] == items[k].line
  {
    seq(|items|, k requires 0 <= k < |items| => items[k].line)
  }

  method IterLines(chunks: seq<string>, maxBytes: int) returns (items: seq<Item>)
    ensures Yields(items, TextRead(chunks, maxBytes), Capped(chunks, maxBytes))
  {
    items := [];
    var buffer, total, capped := "", 0, false;
    assert chunks[..|chunks|] == chunks;
    ghost var read, n := "", |chunks|;
    for k := 0 to |chunks|
      invariant !capped && n == |chunks|
      invariant read == Concat(chunks[..k]) && total == ByteLen(read) && Reading(items, buffer, read)
      invariant ChunksRead(chunks, maxBytes, 0) == ChunksRead(chunks, maxBytes, k)
      invariant forall j :: 0 <= j <= k ==> !CapAt(chunks, maxBytes, j)
    {
      var chunk := chunks[k];
      ConcatMore(chunks, k);
      if chunk == "" {
        assert read + chunk == read;
        continue;
      }
      total := total + ByteLen(chunk);
      items, buffer := TakeChunk(items, buffer, total, chunk, read);
      read := read + chunk;
      if total >= maxBytes {
        capped, n := true, k + 1;
        break;
      }
    }
    assert n == ChunksRead(chunks, maxBytes, 0) && read == TextRead(chunks, maxBytes);
    assert capped == Capped(chunks, maxBytes);
    items := Finish(items, buffer, total, read, capped);
  }

  /** Yields the lines the chunk ends and carries what is left. */
  method TakeChunk(items: seq<Item>, buffer: string, total: nat, chunk: string, ghost read: string)
    returns (more: seq<Item>, carry: string)
    requires Reading(items, buffer, read) && total == ByteLen(read) + ByteLen(chunk)
    ensures Reading(more, carry, read + chunk)
  {
    Absorb(items, buffer, read, chunk);
    var parts := SplitLines(buffer + chunk);
    more, carry := items + Tagged(Init(parts), total), Last(parts);
  }

  /** What is yielded once the stream ends: a non-empty carry is a last line of its own. */
  method Finish(items: seq<Item>, buffer: string, total: nat, ghost read: string, capped: bool)
    returns (finished: seq<Item>)
    requires Reading(items, buffer, read) && total == ByteLen(read)
    ensures Yields(finished, read, capped)
  {
    InitSnoc(LinesOf(items), buffer);
    finished := items;
    if buffer != "" {
      finished := finished + [Item(buffer, total, capped)];
      LinesOfMore(items, [Item(buffer, total, capped)], [buffer]);
    }
  }

  function Tagged(lines: seq<string>, total: nat): (items: seq<Item>)
    ensures LinesOf(items) == lines
    ensures forall k :: 0 <= k < |items| ==> items[k] == Item(lines[k], total, false)
  {
    seq(|lines|, k requires 0 <= k < |lines| => Item(lines[k], total, false))
  }

  /** The loop's state after reading `read`: the lines it ends have been yielded, the rest is carried. */
  ghost predicate Reading(items: seq<Item>, buffer: string, read: string) {
    && LinesOf(items) + [buffer] == SplitLines(read)
    && forall j :: 0 <= j < |items| ==> !items[j].hitCap && items[j].total <= ByteLen(read)
  }

  /** The yielded items when the text read is `read`; `capped` says whether the cap ended the stream. */
  ghost predicate Yields(items: seq<Item>, read: string, capped: bool) {
    && LinesOf(items) == Lines(read)
    && (forall k :: 0 <= k < |items| ==> items[k].total <= ByteLen(read))
    && (forall k :: 0 <= k < |items| ==>
          (items[k].hitCap <==> k == |items| - 1 && capped && Last(SplitLines(read)) != ""))
  }

  lemma {:induction false} ConcatMore(chunks: seq<string>, k: nat)
    requires k < |chunks|
    ensures Concat(chunks[..k + 1]) == Concat(chunks[..k]) + chunks[k]
    ensures ByteLen(Concat(chunks[..k + 1])) == ByteLen(Concat(chunks[..k])) + ByteLen(chunks[k])
  {
    assert chunks[..k + 1][..k] == chunks[..k];
    ByteLenAppend(Concat(chunks[..k]), chunks[k]);
  }

  lemma {:induction false} LinesOfMore(items: seq<Item>, more: seq<Item>, lines: seq<string>)
    requires |more| == |lines| && forall k :: 0 <= k < |more| ==> more[k].line == lines[k]
    ensures LinesOf(items + more) == LinesOf(items) + lines
  {
  }

  /** One more chunk completes the lines it ends and leaves a new carry. */
  lemma {:induction false} Absorb(items: seq<Item>, buffer: string, read: string, chunk: string)
    requires Reading(items, buffer, read)
    ensures var parts, total := SplitLines(buffer + chunk), ByteLen(read) + ByteLen(chunk);
            Reading(items + Tagged(Init(parts), total), Last(parts), read + chunk)
  {
    var parts, total := SplitLines(buffer + chunk), ByteLen(read) + ByteLen(chunk);
    ByteLenAppend(read, chunk);
    LinesOfMore(items, Tagged(Init(parts), total), Init(parts));
    AbsorbLines(LinesOf(items), buffer, read, chunk, parts);
  }

  lemma {:induction false} AbsorbLines(
    lines: seq<string>, buffer: string, read: string, chunk: string, parts: seq<string>)
    requires lines + [buffer] == SplitLines(read) && parts == SplitLines(buffer + chunk)
    ensures lines + Init(parts) + [Last(parts)] == SplitLines(read + chunk)
  {
    SplitAppend(read, chunk);
    InitSnoc(lines, buffer);
    InitLast(lines, parts);
  }

  lemma {:induction false} InitSnoc(lines: seq<string>, last: string)
    ensures Init(lines + [last]) == lines && Last(lines + [last]) == last
  {
  }

  lemma {:induction false} InitLast(lines: seq<string>, parts: seq<string>)
    requires parts != []
    ensures lines + Init(parts) + [Last(parts)] == lines + parts
  {
  }

  lemma {:induction false} ByteLenAppend(a: string, b: string)
    ensures ByteLen(a + b) == ByteLen(a) + ByteLen(b)
    decreases |b|
  {
    if b == "" {
      assert a + b == a;
    } else {
      ByteLenAppend(a, b[..|b| - 1]);
      assert (a + b)[..|a + b| - 1] == a + b[..|b| - 1];
    }
  }

  predicate OneLine(s: string) {
    forall k :: 0 <= k < |s| ==> s[k] != '\n'
  }

  /** The pieces are the text between the newlines: none holds a newline, and joined they are the text. */
  lemma {:induction false} SplitLinesIsSplit(text: string)
    ensures forall p :: p in SplitLines(text) ==> OneLine(p)
    ensures Join(SplitLines(text), "\n") == text
    decreases |text|
  {
    if text != "" {
      var init, c := text[..|text| - 1], text[|text| - 1];
      SplitLinesIsSplit(init);
      ExtendKeeps(SplitLines(init), c);
      assert text == init + [c];
    }
  }

  /** It is the newline split of the text library. */
  lemma {:induction false} SplitLinesIsTextSplit(text: string)
    ensures SplitLines(text) == Split(text, "\n")
  {
    var parts := SplitLines(text);
    SplitLinesIsSplit(text);
    forall p | p in parts ensures !Contains(p, "\n") {
      OneLineHoldsNone(p);
    }
    SplitJoin(parts, "\n");
  }

  lemma {:induction false} OneLineHoldsNone(s: string)
    requires OneLine(s)
    ensures !Contains(s, "\n")
  {
    forall i | 0 <= i <= |s| ensures !OccursAt(s, "\n", i) {
      assert i < |s| ==> s[i..i + 1][0] == s[i];
    }
  }

  lemma {:induction false} ExtendKeeps(parts: seq<string>, c: char)
    requires parts != [] && forall p :: p in parts ==> OneLine(p)
    ensures forall p :: p in Extend(parts, c) ==> OneLine(p)
    ensures Join(Extend(parts, c), "\n") == Join(parts, "\n") + [c]
  {
    var init, last := Init(parts), Last(parts);
    assert parts == init + [last] && last in parts;
    JoinSnoc(init, last);
    JoinSnoc(init, last + [c]);
    JoinSnoc(parts, "");
    assert Join(parts, "\n") + "\n" + "" == Join(parts, "\n") + "\n";
    assert init != [] ==> Join(init, "\n") + "\n" + (last + [c]) == Join(init, "\n") + "\n" + last + [c];
  }

  lemma {:induction false} JoinSnoc(parts: seq<string>, last: string)
    ensures Join(parts + [last], "\n") == if parts == [] then last else Join(parts, "\n") + "\n" + last
    decreases |parts|
  {
    if parts != [] {
      assert (parts + [last])[1..] == parts[1..] + [last];
      JoinSnoc(parts[1..], last);
    }
  }

  lemma {:induction false} OneLineSplits(s: string)
    requires OneLine(s)
    ensures SplitLines(s) == [s]
    decreases |s|
  {
    if s != "" {
      OneLineSplits(s[..|s| - 1]);
      assert s == s[..|s| - 1] + [s[|s| - 1]];
    }
  }

  /** Splitting in two steps: the lines `a` completes, then its carry followed by `b`. */
  lemma {:induction false} SplitAppend(a: string, b: string)
    ensures SplitLines(a + b) == Init(SplitLines(a)) + SplitLines(Last(SplitLines(a)) + b)
    decreases |b|
  {
    if b == "" {
      NothingAppended(a);
    } else {
      SplitAppend(a, b[..|b| - 1]);
      OneMoreAppended(a, b[..|b| - 1], b[|b| - 1]);
      assert b[..|b| - 1] + [b[|b| - 1]] == b;
    }
  }

  lemma {:induction false} LastIsOneLine(text: string)
    ensures OneLine(Last(SplitLines(text)))
    decreases |text|
  {
    if text != "" {
      LastIsOneLine(text[..|text| - 1]);
    }
  }

  lemma {:induction false} Unchanged(s: string)
    ensures s + "" == s
  {
  }

  lemma {:induction false} NothingAppended(a: string)
    ensures SplitLines(a + "") == Init(SplitLines(a)) + SplitLines(Last(SplitLines(a)) + "")
  {
    LastIsOneLine(a);
    OneLineSplits(Last(SplitLines(a)));
    Unchanged(a);
    Unchanged(Last(SplitLines(a)));
  }

  lemma {:induction false} OneMoreAppended(a: string, b: string, c: char)
    requires SplitLines(a + b) == Init(SplitLines(a)) + SplitLines(Last(SplitLines(a)) + b)
    ensures SplitLines(a + (b + [c])) == Init(SplitLines(a)) + SplitLines(Last(SplitLines(a)) + (b + [c]))
  {
    var front, carry := Init(SplitLines(a)), Last(SplitLines(a));
    Associate(a, b, [c]);
    Associate(carry, b, [c]);
    SplitSnoc(a + b, c);
    SplitSnoc(carry + b, c);
    ExtendAppend(front, SplitLines(carry + b), c);
  }

  lemma {:induction false} SplitSnoc(text: string, c: char)
    ensures SplitLines(text + [c]) == Extend(SplitLines(text), c)
  {
    assert (text + [c])[..|text|] == text;
  }

  lemma {:induction false} ExtendAppend(front: seq<string>, parts: seq<string>, c: char)
    requires parts != []
    ensures Extend(front + parts, c) == front + Extend(parts, c)
  {
    assert Init(front + parts) == front + Init(parts);
  }

  lemma {:induction false} PrefixIsShorter(chunks: seq<string>, k: nat)
    requires k <= |chunks|
    ensures ByteLen(Concat(chunks[..k])) <= ByteLen(Concat(chunks))
    decreases |chunks|
  {
    if k < |chunks| {
      PrefixIsShorter(chunks[..|chunks| - 1], k);
      assert chunks[..|chunks| - 1][..k] == chunks[..k];
      ByteLenAppend(Concat(chunks[..|chunks| - 1]), chunks[|chunks| - 1]);
    } else {
      assert chunks[..k] == chunks;
    }
  }

  /** Below the cap the whole text is read, so where the chunk boundaries fall makes no difference. */
  lemma {:induction false} ChunkingDoesNotMatter(a: seq<string>, b: seq<string>, maxBytes: int)
    requires Concat(a) == Concat(b) && ByteLen(Concat(a)) < maxBytes
    ensures Lines(TextRead(a, maxBytes)) == Lines(TextRead(b, maxBytes)) == Lines(Concat(a))
    ensures !Capped(a, maxBytes) && !Capped(b, maxBytes)
  {
    WholeTextRead(a, maxBytes);
    WholeTextRead(b, maxBytes);
  }

  lemma {:induction false} WholeTextRead(chunks: seq<string>, maxBytes: int)
    requires ByteLen(Concat(chunks)) < maxBytes
    ensures TextRead(chunks, maxBytes) == Concat(chunks) && !Capped(chunks, maxBytes)
  {
    var k := ChunksRead(chunks, maxBytes, 0);
    PrefixIsShorter(chunks, k);
    assert chunks[..|chunks|] == chunks;
  }

  /**
   Where reading stops: behind the first chunk that is not empty and with which the bytes read reach the cap. All
   chunks are read if there is none.
   */
  lemma {:induction false} StopsExactly(chunks: seq<string>, maxBytes: int) returns (k: nat)
    ensures k <= |chunks| && TextRead(chunks, maxBytes) == Concat(chunks[..k])
    ensures forall j :: 1 <= j < k && chunks[j - 1] != "" ==> ByteLen(Concat(chunks[..j])) < maxBytes
    ensures Capped(chunks, maxBytes) <==>
              k > 0 && chunks[k - 1] != "" && ByteLen(Concat(chunks[..k])) >= maxBytes
    ensures !Capped(chunks, maxBytes) ==> k == |chunks|
  {
    k := ChunksRead(chunks, maxBytes, 0);
    forall j | 1 <= j < k && chunks[j - 1] != "" ensures ByteLen(Concat(chunks[..j])) < maxBytes {
      assert !CapAt(chunks, maxBytes, j);
    }
  }

  /** A character in UTF-8: one to four bytes, as section 3 of RFC 3629 lays them out. */
  function Utf8(c: char): seq<int> {
    var n := c as int;
    if n < 0x80 then [n]
    else if n < 0x800 then [0xC0 + n / 0x40, 0x80 + n % 0x40]
    else if n < 0x1_0000 then [0xE0 + n / 0x1000, 0x80 + n / 0x40 % 0x40, 0x80 + n % 0x40]
    else [0xF0 + n / 0x4_0000, 0x80 + n / 0x1000 % 0x40, 0x80 + n / 0x40 % 0x40, 0x80 + n % 0x40]
  }

  function Encoded(s: string): seq<int> {
    if s == "" then [] else Encoded(s[..|s| - 1]) + Utf8(s[|s| - 1])
  }

  /** The bytes counted are the bytes of the encoded text. */
  lemma {:induction false} ByteLenIsEncoded(s: string)
    ensures ByteLen(s) == |Encoded(s)|
    decreases |s|
  {
    if s != "" {
      ByteLenIsEncoded(s[..|s| - 1]);
    }
  }

  // ------------------------------------------------------------------
  // One container instance
  // ------------------------------------------------------------------

  function NonBlank(lines: seq<string>): seq<string> {
    NonBlankTo(lines, |lines|)
  }

  /** The same for the first `n` lines. */
  function NonBlankTo(lines: seq<string>, n: nat): seq<string>
    requires n <= |lines|
  {
    if n == 0 then [] else NonBlankTo(lines, n - 1) + if Strip(lines[n - 1]) != "" then [lines[n - 1]] else []
  }

  /**
   Reads one instance: the records are what grep with context prints for the non-blank lines of the
   text read, whatever the chunk boundaries and whatever the selector saw before.
   */
  method ReadInstance(chunks: seq<string>, maxBytes: int, selector: ContextWindowSelector<string>)
    returns (records: seq<string>, truncated: bool)
    requires selector.Valid()
    modifies selector
    ensures selector.Valid()
    ensures records == Selected(selector.matcher, selector.before, selector.after,
                                NonBlank(Lines(TextRead(chunks, maxBytes))))
    ensures truncated <==> Capped(chunks, maxBytes) && Last(SplitLines(TextRead(chunks, maxBytes))) != ""
  {
    selector.Reset();
    var items := IterLines(chunks, maxBytes);
    records, truncated := FeedLines(items, selector);
    LastHitsCap(items, TextRead(chunks, maxBytes), Capped(chunks, maxBytes));
  }

  /** Only the last item can have hit the cap. */
  ghost predicate CapIsLast(items: seq<Item>) {
    forall k :: 0 <= k < |items| - 1 ==> !items[k].hitCap
  }

  /** The loop over the lines; it stops behind a line that hit the cap. */
  method FeedLines(items: seq<Item>, selector: ContextWindowSelector<string>)
    returns (records: seq<string>, truncated: bool)
    requires selector.Valid() && selector.fed == [] && selector.emitted == [] && CapIsLast(items)
    modifies selector
    ensures selector.Valid()
    ensures records == Selected(selector.matcher, selector.before, selector.after, NonBlank(LinesOf(items)))
    ensures truncated <==> items != [] && items[|items| - 1].hitCap
  {
    records, truncated := [], false;
    ghost var lines, n := LinesOf(items), |items|;
    for k := 0 to |items|
      invariant selector.Valid() && !truncated && n == |items|
      invariant selector.fed == NonBlankTo(lines, k) && selector.emitted == records
      invariant k > 0 ==> !items[k - 1].hitCap
    {
      var emitted := FeedLine(items[k].line, selector);
      records := records + emitted;
      if items[k].hitCap {
        truncated, n := true, k + 1;
        break;
      }
    }
    assert n == |items|;
  }

  /** Blank lines are passed over. */
  method FeedLine(line: string, selector: ContextWindowSelector<string>) returns (emitted: seq<string>)
    requires selector.Valid()
    modifies selector
    ensures selector.Valid() && selector.emitted == old(selector.emitted) + emitted
    ensures selector.fed == old(selector.fed) + if Strip(line) != "" then [line] else []
  {
    if Strip(line) != "" {
      emitted := selector.Feed(line);
    } else {
      emitted := [];
    }
  }

  lemma {:induction false} LastHitsCap(items: seq<Item>, read: string, capped: bool)
    requires Yields(items, read, capped)
    ensures CapIsLast(items)
    ensures (items != [] && items[|items| - 1].hitCap) <==> capped && Last(SplitLines(read)) != ""
  {
    assert |items| == |Lines(read)|;
  }

  /** A line is passed over exactly when it holds nothing but white space; the others stay, in order. */
  lemma {:induction false} NonBlankExactly(before: seq<string>, line: string, after: seq<string>)
    ensures NonBlank(before + ([line] + after)) ==
            NonBlank(before) +
            ((if forall i :: 0 <= i < |line| ==> IsSpace(line[i]) then [] else [line]) + NonBlank(after))
  {
    NonBlankConcat(before, [line] + after);
    NonBlankConcat([line], after);
    BlankStrips(line);
    assert NonBlankTo([line], 0) == [];
  }

  lemma {:induction false} NonBlankConcat(a: seq<string>, b: seq<string>)
    ensures NonBlank(a + b) == NonBlank(a) + NonBlank(b)
  {
    NonBlankPrefix(a, b, |a|);
    NonBlankSuffix(a, b, |b|);
    assert |a + b| == |a| + |b|;
  }

  lemma {:induction false} NonBlankPrefix(a: seq<string>, b: seq<string>, n: nat)
    requires n <= |a|
    ensures NonBlankTo(a + b, n) == NonBlankTo(a, n)
    decreases n
  {
    if n > 0 {
      NonBlankPrefix(a, b, n - 1);
    }
  }

  lemma {:induction false} NonBlankSuffix(a: seq<string>, b: seq<string>, n: nat)
    requires n <= |b| && NonBlankTo(a + b, |a|) == NonBlank(a)
    ensures NonBlankTo(a + b, |a| + n) == NonBlank(a) + NonBlankTo(b, n)
    decreases n
  {
    if n > 0 {
      NonBlankSuffix(a, b, n - 1);
      assert (a + b)[|a| + n - 1] == b[n - 1];
    }
  }
}
