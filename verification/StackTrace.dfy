/**
 Java exception chains (src/dlt/stacktrace.py): parsing a trace into links, and the layout the parser inverts.
 `beyond` stands for the characters past ASCII that the regular expression `\w` accepts.
 */
module StackTrace {
  import opened Collections
  import opened Options
  import opened Numerals
  import opened Text
  import opened TraceLines

  datatype ExceptionLink = ExceptionLink(fqcn: string, message: string, frames: seq<string>, elided: Option<nat>)

  /** The chain, outermost link first. */
  datatype ParsedTrace = ParsedTrace(chain: seq<ExceptionLink>, truncated: bool)

  const CAUSED_BY: string := "Caused by: "

  // ------------------------------------------------------------------
  // Class names
  // ------------------------------------------------------------------

  predicate StartsName(c: char) {
    'A' <= c <= 'Z' || 'a' <= c <= 'z' || c == '_' || c == '$'
  }

  predicate IsIdentifier(s: string, beyond: char -> bool) {
    s != "" && StartsName(s[0]) && forall i :: 1 <= i < |s| ==> IsWord(s[i], beyond) || s[i] == '$'
  }

  /** Identifiers joined by dots. */
  predicate IsClassName(s: string, beyond: char -> bool) {
    forall part :: part in Split(s, ".") ==> IsIdentifier(part, beyond)
  }

  /** The pattern's `$` also matches before a final newline. */
  predicate MatchesFqcn(s: string, beyond: char -> bool) {
    IsClassName(s, beyond) || (s != "" && s[|s| - 1] == '\n' && IsClassName(s[..|s| - 1], beyond))
  }

  // ------------------------------------------------------------------
  // Parsing
  // ------------------------------------------------------------------

  /** `java.base/java.lang.Thread.run` without its module. */
  function StripModule(target: string): string {
    var i := Find(target, "/");
    if i >= 0 then target[i + 1..] else target
  }

  predicate IsMarked(line: string) {
    FrameTarget(line).Some? || ElidedCount(line).Some?
  }

  function FramesOf(lines: seq<string>): seq<string> {
    if lines == [] then []
    else
      var target := FrameTarget(lines[0]);
      (if target.Some? then [StripModule(target.value)] else []) + FramesOf(lines[1..])
  }

  /** The last elision, frames excepted. */
  function ElidedOf(lines: seq<string>): Option<nat> {
    if lines == [] then None
    else
      var later := ElidedOf(lines[1..]);
      if later.Some? || FrameTarget(lines[0]).Some? then later else ElidedCount(lines[0])
  }

  /** The lines before the first frame or elision. */
  function HeaderOf(lines: seq<string>): seq<string> {
    if lines == [] || IsMarked(lines[0]) then [] else [lines[0]] + HeaderOf(lines[1..])
  }

  /** Frames come in the order of their lines, wherever they stand. */
  lemma {:induction false} FramesInOrder(a: seq<string>, b: seq<string>)
    ensures FramesOf(a + b) == FramesOf(a) + FramesOf(b)
  {
    if a == [] {
      assert a + b == b;
    } else {
      var rest := a[1..];
      assert (a + b)[0] == a[0] && (a + b)[1..] == rest + b;
      FramesInOrder(rest, b);
      FirstFrame(a + b, rest + b);
      FirstFrame(a, rest);
      var target := FrameTarget(a[0]);
      Associate(if target.Some? then [StripModule(target.value)] else [], FramesOf(rest), FramesOf(b));
    }
  }

  lemma {:induction false} FirstFrame(lines: seq<string>, rest: seq<string>)
    requires lines != [] && rest == lines[1..]
    ensures var target := FrameTarget(lines[0]);
            FramesOf(lines) == (if target.Some? then [StripModule(target.value)] else []) + FramesOf(rest)
  {
  }

  /** An elision counts when no other comes after it. */
  lemma {:induction false} LastElisionCounts(a: seq<string>, line: string, b: seq<string>)
    requires FrameTarget(line).None? && ElidedCount(line).Some?
    requires forall later :: later in b ==> FrameTarget(later).Some? || ElidedCount(later).None?
    ensures ElidedOf(a + ([line] + b)) == ElidedCount(line)
  {
    if a == [] {
      assert a + ([line] + b) == [line] + b && ([line] + b)[1..] == b;
      NoElision(b);
    } else {
      assert (a + ([line] + b))[1..] == a[1..] + ([line] + b);
      LastElisionCounts(a[1..], line, b);
    }
  }

  lemma {:induction false} NoElision(lines: seq<string>)
    requires forall line :: line in lines ==> FrameTarget(line).Some? || ElidedCount(line).None?
    ensures ElidedOf(lines) == None
  {
    if lines != [] {
      NoElision(lines[1..]);
    }
  }

  /** The header ends before the first line that is a frame or an elision. */
  lemma {:induction false} HeaderEnds(a: seq<string>, b: seq<string>)
    requires (forall line :: line in a ==> !IsMarked(line)) && (b == [] || IsMarked(b[0]))
    ensures HeaderOf(a + b) == a
  {
    if a == [] {
      assert a + b == b;
    } else {
      assert (a + b)[1..] == a[1..] + b;
      HeaderEnds(a[1..], b);
    }
  }

  /** The class name and message of a stripped header; no class name unless the part before `: ` is one. */
  function NameAndMessage(header: string, beyond: char -> bool): (string, string) {
    var i := Find(header, ": ");
    var candidate := if i >= 0 then header[..i] else header;
    var message := if i >= 0 then header[i + 2..] else "";
    if header != "" && MatchesFqcn(candidate, beyond) then (candidate, Strip(message))
    else if header != "" && MatchesFqcn(header, beyond) then (header, "")
    else ("", header)
  }

  function LinkOf(block: string, beyond: char -> bool): ExceptionLink {
    var lines := Split(block, "\n");
    var (fqcn, message) := NameAndMessage(Strip(Join(HeaderOf(lines), "\n")), beyond);
    ExceptionLink(fqcn, message, FramesOf(lines), ElidedOf(lines))
  }

  /** The lines up to `rest` have been scanned into the parser's variables. */
  ghost predicate Scanned(
    lines: seq<string>, rest: seq<string>, header: seq<string>, frames: seq<string>, elided: Option<nat>,
    inFrames: bool)
  {
    && frames + FramesOf(rest) == FramesOf(lines)
    && ElidedOf(lines) == (if ElidedOf(rest).Some? then ElidedOf(rest) else elided)
    && HeaderOf(lines) == header + if inFrames then [] else HeaderOf(rest)
  }

  lemma {:induction false} ScanFrame(
    lines: seq<string>, rest: seq<string>, header: seq<string>, frames: seq<string>, elided: Option<nat>,
    inFrames: bool)
    requires Scanned(lines, rest, header, frames, elided, inFrames) && rest != [] && FrameTarget(rest[0]).Some?
    ensures Scanned(lines, rest[1..], header, frames + [StripModule(FrameTarget(rest[0]).value)], elided, true)
  {
    Associate(frames, [StripModule(FrameTarget(rest[0]).value)], FramesOf(rest[1..]));
  }

  lemma {:induction false} ScanElision(
    lines: seq<string>, rest: seq<string>, header: seq<string>, frames: seq<string>, elided: Option<nat>,
    inFrames: bool)
    requires Scanned(lines, rest, header, frames, elided, inFrames) && rest != []
    requires FrameTarget(rest[0]).None? && ElidedCount(rest[0]).Some?
    ensures Scanned(lines, rest[1..], header, frames, ElidedCount(rest[0]), true)
  {
    assert FramesOf(rest) == FramesOf(rest[1..]);
  }

  lemma {:induction false} ScanPlain(
    lines: seq<string>, rest: seq<string>, header: seq<string>, frames: seq<string>, elided: Option<nat>,
    inFrames: bool)
    requires Scanned(lines, rest, header, frames, elided, inFrames) && rest != [] && !IsMarked(rest[0])
    ensures Scanned(lines, rest[1..], if inFrames then header else header + [rest[0]], frames, elided, inFrames)
  {
    assert FramesOf(rest) == FramesOf(rest[1..]);
    Associate(header, [rest[0]], HeaderOf(rest[1..]));
  }

  lemma {:induction false} ScanEnds(
    lines: seq<string>, header: seq<string>, frames: seq<string>, elided: Option<nat>, inFrames: bool)
    requires Scanned(lines, [], header, frames, elided, inFrames)
    ensures header == HeaderOf(lines) && frames == FramesOf(lines) && elided == ElidedOf(lines)
  {
  }

  method ParseLink(block: string, beyond: char -> bool) returns (link: ExceptionLink)
    ensures link == LinkOf(block, beyond)
  {
    var headerLines: seq<string> := [];
    var frames: seq<string> := [];
    var elided: Option<nat> := None;
    var inFrames := false;
    var lines := Split(block, "\n");
    assert lines[0..] == lines;
    for k := 0 to |lines|
      invariant Scanned(lines, lines[k..], headerLines, frames, elided, inFrames)
    {
      var line := lines[k];
      assert lines[k..][0] == line && lines[k..][1..] == lines[k + 1..];
      var target := FrameTarget(line);
      if target.Some? {
        ScanFrame(lines, lines[k..], headerLines, frames, elided, inFrames);
        inFrames := true;
        frames := frames + [StripModule(target.value)];
        continue;
      }
      var count := ElidedCount(line);
      if count.Some? {
        ScanElision(lines, lines[k..], headerLines, frames, elided, inFrames);
        inFrames := true;
        elided := count;
        continue;
      }
      ScanPlain(lines, lines[k..], headerLines, frames, elided, inFrames);
      if !inFrames {
        headerLines := headerLines + [line];
      }
    }
    assert lines[|lines|..] == [];
    ScanEnds(lines, headerLines, frames, elided, inFrames);
    var header := Strip(Join(headerLines, "\n"));
    var fqcn, message := "", header;
    if header != "" {
      var i := Find(header, ": ");
      var candidate := if i >= 0 then header[..i] else header;
      var rest := if i >= 0 then header[i + 2..] else "";
      if MatchesFqcn(candidate, beyond) {
        fqcn, message := candidate, Strip(rest);
      } else if MatchesFqcn(header, beyond) {
        fqcn, message := header, "";
      }
    }
    link := ExceptionLink(fqcn, message, frames, elided);
  }

  function Links(blocks: seq<string>, beyond: char -> bool): (links: seq<ExceptionLink>)
    ensures |links| == |blocks| && forall k :: 0 <= k < |blocks| ==> links[k] == LinkOf(blocks[k], beyond)
  {
    seq(|blocks|, k requires 0 <= k < |blocks| => LinkOf(blocks[k], beyond))
  }

  /** A missing or blank trace is an empty, truncated chain. */
  function ParseStacktrace(text: Option<string>, beyond: char -> bool): (trace: ParsedTrace) {
    if text == None || Strip(text.value) == "" then ParsedTrace([], true)
    else Chained(Links(Split(text.value, "\n" + CAUSED_BY), beyond))
  }

  /** A last link with neither frames nor an elision means the trace was cut short. */
  function Chained(links: seq<ExceptionLink>): ParsedTrace
    requires links != []
  {
    var last := links[|links| - 1];
    ParsedTrace(links, last.frames == [] && last.elided == None)
  }

  function Root(trace: ParsedTrace): Option<ExceptionLink> {
    if trace.chain == [] then None else Some(trace.chain[|trace.chain| - 1])
  }

  // ------------------------------------------------------------------
  // The layout of a chain
  // ------------------------------------------------------------------

  /** A frame as the JVM prints it: `at <prefix>/<target>(<location>)`, prefix and location optional. */
  datatype Frame = Frame(prefix: Option<string>, target: string, location: Option<string>)

  datatype Cause = Cause(fqcn: string, message: string, frames: seq<Frame>, elided: Option<nat>)

  function FullTarget(frame: Frame): string {
    (if frame.prefix.Some? then frame.prefix.value + "/" else "") + frame.target
  }

  function Location(frame: Frame): string {
    if frame.location.Some? then Parenthesised(frame.location.value) else ""
  }

  function FrameLine(frame: Frame): string {
    FrameText("\t", " ", FullTarget(frame), Location(frame))
  }

  function ElidedLine(count: nat): string {
    ElidedText("\t", " ", Digits(count), " ", "")
  }

  function Header(cause: Cause): string {
    if cause.message == "" then cause.fqcn else cause.fqcn + ": " + cause.message
  }

  function FrameLines(frames: seq<Frame>): (lines: seq<string>)
    ensures |lines| == |frames| && forall k :: 0 <= k < |frames| ==> lines[k] == FrameLine(frames[k])
  {
    seq(|frames|, k requires 0 <= k < |frames| => FrameLine(frames[k]))
  }

  function MarkedLines(cause: Cause): seq<string> {
    FrameLines(cause.frames) + ElidedLines(cause.elided)
  }

  function Block(cause: Cause): string {
    Join([Header(cause)] + MarkedLines(cause), "\n")
  }

  function Blocks(chain: seq<Cause>): (blocks: seq<string>)
    ensures |blocks| == |chain| && forall k :: 0 <= k < |chain| ==> blocks[k] == Block(chain[k])
  {
    seq(|chain|, k requires 0 <= k < |chain| => Block(chain[k]))
  }

  function Layout(chain: seq<Cause>): string {
    Join(Blocks(chain), "\n" + CAUSED_BY)
  }

  predicate ProperFrame(frame: Frame) {
    && frame.target != "" && AllTarget(frame.target)
    && (frame.prefix.Some? ==> AllTarget(frame.prefix.value) && '/' !in frame.prefix.value)
    && (frame.prefix == None ==> '/' !in frame.target)
    && (frame.location.Some? ==> '\n' !in frame.location.value)
  }

  /** A line of free text that the parser cannot take for a frame, an elision or the next cause. */
  predicate PlainLine(line: string) {
    !IsMarked(line) && !(CAUSED_BY <= line)
  }

  /** A class name, a message with no blank ends whose later lines are plain, and proper frames. */
  predicate ProperCause(cause: Cause, beyond: char -> bool) {
    && IsClassName(cause.fqcn, beyond)
    && Stripped(cause.message)
    && (forall line :: line in Split(cause.message, "\n")[1..] ==> PlainLine(line))
    && (forall frame :: frame in cause.frames ==> ProperFrame(frame))
  }

  function Targets(frames: seq<Frame>): (targets: seq<string>)
    ensures |targets| == |frames| && forall k :: 0 <= k < |frames| ==> targets[k] == frames[k].target
  {
    seq(|frames|, k requires 0 <= k < |frames| => frames[k].target)
  }

  function Recovered(cause: Cause): ExceptionLink {
    ExceptionLink(cause.fqcn, cause.message, Targets(cause.frames), cause.elided)
  }

  // ------------------------------------------------------------------
  // Marked lines
  // ------------------------------------------------------------------

  lemma {:induction false} FullTargetStrips(frame: Frame)
    requires ProperFrame(frame)
    ensures StripModule(FullTarget(frame)) == frame.target
    ensures AllTarget(FullTarget(frame)) && FullTarget(frame) != ""
  {
    if frame.prefix.Some? {
      PrefixIsStripped(frame.prefix.value, frame.target);
    } else {
      SlashFree(frame.target);
      FindIsFirst(frame.target, "/");
      assert FullTarget(frame) == frame.target;
    }
  }

  lemma {:induction false} PrefixIsStripped(prefix: string, target: string)
    requires '/' !in prefix
    ensures StripModule(prefix + "/" + target) == target
  {
    SlashFree(prefix);
    FindSeparator(prefix, "/", target);
    assert (prefix + "/" + target)[|prefix| + 1..] == target;
  }

  lemma {:induction false} SlashFree(s: string)
    requires '/' !in s
    ensures !Contains(s, "/")
  {
    forall i | 0 <= i <= |s| ensures !OccursAt(s, "/", i) {
      assert i < |s| ==> s[i..i + 1][0] == s[i];
    }
  }

  lemma {:induction false} FrameLineIsFrame(frame: Frame)
    requires ProperFrame(frame)
    ensures FrameTarget(FrameLine(frame)) == Some(FullTarget(frame))
    ensures StripModule(FullTarget(frame)) == frame.target
  {
    FullTargetStrips(frame);
    var tail := Location(frame);
    if frame.location.Some? {
      assert AllSpace("") && tail == Parenthesised(frame.location.value) + "";
    }
    FrameIsRecognised(FrameLine(frame), "\t", " ", FullTarget(frame), tail);
  }

  lemma {:induction false} ElidedLineIsElision(count: nat)
    ensures ElidedCount(ElidedLine(count)) == Some(count) && FrameTarget(ElidedLine(count)) == None
  {
    DecimalOfDigits(count);
    ElidedIsRecognised(ElidedLine(count), "\t", " ", Digits(count), " ", "");
    StripLeftAfter("\t", "..." + (" " + (Digits(count) + (" " + ("more" + "")))));
  }

  lemma {:induction false} FrameFirst(frame: Frame, lines: seq<string>)
    requires ProperFrame(frame)
    ensures var more := [FrameLine(frame)] + lines;
            && FramesOf(more) == [frame.target] + FramesOf(lines)
            && ElidedOf(more) == ElidedOf(lines)
            && HeaderOf(more) == []
  {
    FrameLineIsFrame(frame);
    assert ([FrameLine(frame)] + lines)[1..] == lines;
  }

  function ElidedLines(elided: Option<nat>): seq<string> {
    if elided.Some? then [ElidedLine(elided.value)] else []
  }

  lemma {:induction false} ElidedLinesParse(elided: Option<nat>)
    ensures var lines := ElidedLines(elided);
            FramesOf(lines) == [] && ElidedOf(lines) == elided && HeaderOf(lines) == []
  {
    if elided.Some? {
      ElidedLineIsElision(elided.value);
      assert ElidedLines(elided)[1..] == [];
    }
  }

  lemma {:induction false} FirstAndRest(frames: seq<Frame>, tail: seq<string>)
    requires frames != []
    ensures FrameLines(frames) + tail == [FrameLine(frames[0])] + (FrameLines(frames[1..]) + tail)
    ensures Targets(frames) == [frames[0].target] + Targets(frames[1..])
    ensures frames[0] in frames && forall frame :: frame in frames[1..] ==> frame in frames
  {
  }

  lemma {:induction false} MarkedLinesParse(frames: seq<Frame>, elided: Option<nat>)
    requires forall frame :: frame in frames ==> ProperFrame(frame)
    ensures var lines := FrameLines(frames) + ElidedLines(elided);
            FramesOf(lines) == Targets(frames) && ElidedOf(lines) == elided && HeaderOf(lines) == []
    decreases |frames|
  {
    if frames != [] {
      var lines := FrameLines(frames[1..]) + ElidedLines(elided);
      FirstAndRest(frames, ElidedLines(elided));
      MarkedLinesParse(frames[1..], elided);
      FrameFirst(frames[0], lines);
    } else {
      ElidedLinesParse(elided);
      assert FrameLines(frames) + ElidedLines(elided) == ElidedLines(elided);
    }
  }

  /** Plain lines in front of marked lines are the header, and nothing else. */
  lemma {:induction false} PlainThenMarked(plain: seq<string>, marked: seq<string>)
    requires forall line :: line in plain ==> !IsMarked(line)
    requires HeaderOf(marked) == []
    ensures FramesOf(plain + marked) == FramesOf(marked)
    ensures ElidedOf(plain + marked) == ElidedOf(marked)
    ensures HeaderOf(plain + marked) == plain
  {
    HeaderEnds(plain, marked);
    FramesInOrder(plain, marked);
    PlainHoldsNone(plain);
    ElidedBehind(plain, marked);
  }

  lemma {:induction false} PlainHoldsNone(plain: seq<string>)
    requires forall line :: line in plain ==> !IsMarked(line)
    ensures FramesOf(plain) == []
  {
    if plain != [] {
      assert plain[0] in plain;
      PlainHoldsNone(plain[1..]);
    }
  }

  lemma {:induction false} ElidedBehind(plain: seq<string>, marked: seq<string>)
    requires forall line :: line in plain ==> !IsMarked(line)
    ensures ElidedOf(plain + marked) == ElidedOf(marked)
  {
    if plain == [] {
      assert plain + marked == marked;
    } else {
      assert (plain + marked)[1..] == plain[1..] + marked;
      assert plain[0] in plain;
      ElidedBehind(plain[1..], marked);
    }
  }

  // ------------------------------------------------------------------
  // Headers
  // ------------------------------------------------------------------

  predicate IsNameChar(c: char, beyond: char -> bool) {
    IsWord(c, beyond) || c == '$' || c == '.'
  }

  predicate AllNameChars(s: string, beyond: char -> bool) {
    forall i :: 0 <= i < |s| ==> IsNameChar(s[i], beyond)
  }

  lemma {:induction false} DottedNameChars(head: string, rest: string, beyond: char -> bool)
    requires AllNameChars(head, beyond) && AllNameChars(rest, beyond)
    ensures AllNameChars(head + "." + rest, beyond)
  {
  }

  lemma {:induction false} IdentifierChars(s: string, beyond: char -> bool)
    requires IsIdentifier(s, beyond)
    ensures s != "" && StartsName(s[0]) && AllNameChars(s, beyond)
  {
  }

  /** A class name is not empty and is made of name characters; it does not start with a dot. */
  lemma {:induction false} ClassNameChars(s: string, beyond: char -> bool)
    requires IsClassName(s, beyond)
    ensures s != "" && StartsName(s[0]) && AllNameChars(s, beyond)
    decreases |s|
  {
    var head, rest := SplitCases(s, ".");
    assert head == Split(s, ".")[0];
    assert head in Split(s, ".");
    IdentifierChars(head, beyond);
    if Contains(s, ".") {
      assert forall part :: part in Split(rest, ".") ==> part in Split(s, ".");
      ClassNameChars(rest, beyond);
      DottedNameChars(head, rest, beyond);
    }
  }

  /** Name characters; the first, and every one behind a dot, starts a name. */
  predicate NameShaped(s: string, beyond: char -> bool) {
    && s != "" && AllNameChars(s, beyond) && StartsName(s[0])
    && forall i :: 0 <= i < |s| && s[i] == '.' ==> i + 1 < |s| && StartsName(s[i + 1])
  }

  /** The class names, character by character. */
  lemma {:induction false} ClassNameExactly(s: string, beyond: char -> bool)
    ensures IsClassName(s, beyond) <==> NameShaped(s, beyond)
    decreases |s|
  {
    var head, rest := SplitCases(s, ".");
    NoDotInside(head);
    if Contains(s, ".") {
      ClassNameExactly(rest, beyond);
      SplitNames(s, head, rest, beyond);
      DottedShape(head, rest, beyond);
    } else {
      assert Split(s, ".") == [s];
      UndottedShape(s, beyond);
      assert IsClassName(s, beyond) <==> IsIdentifier(s, beyond) by {
        assert s in Split(s, ".");
      }
    }
  }

  lemma {:induction false} NoDotInside(s: string)
    requires !Contains(s, ".")
    ensures forall i :: 0 <= i < |s| ==> s[i] != '.'
  {
    forall i | 0 <= i < |s| ensures s[i] != '.' {
      assert !OccursAt(s, ".", i);
      assert s[i..i + 1] == [s[i]];
    }
  }

  lemma {:induction false} SplitNames(s: string, head: string, rest: string, beyond: char -> bool)
    requires Split(s, ".") == [head] + Split(rest, ".")
    ensures IsClassName(s, beyond) <==> IsIdentifier(head, beyond) && IsClassName(rest, beyond)
  {
    assert head in Split(s, ".");
    assert forall part :: part in Split(s, ".") <==> part == head || part in Split(rest, ".");
  }

  lemma {:induction false} UndottedShape(s: string, beyond: char -> bool)
    requires forall i :: 0 <= i < |s| ==> s[i] != '.'
    ensures IsIdentifier(s, beyond) <==> NameShaped(s, beyond)
  {
    assert s != "" && StartsName(s[0]) ==> IsNameChar(s[0], beyond);
  }

  lemma {:induction false} DottedShape(head: string, rest: string, beyond: char -> bool)
    requires forall i :: 0 <= i < |head| ==> head[i] != '.'
    ensures NameShaped(head + "." + rest, beyond) <==> IsIdentifier(head, beyond) && NameShaped(rest, beyond)
  {
    var s, n := head + "." + rest, |head|;
    UndottedShape(head, beyond);
    assert s[n] == '.' && (forall i :: 0 <= i < n ==> s[i] == head[i]);
    assert forall i :: 0 <= i < |rest| ==> s[n + 1 + i] == rest[i];
    if NameShaped(s, beyond) {
      forall i | 0 <= i < |rest| ensures IsNameChar(rest[i], beyond) {
        assert s[n + 1 + i] == rest[i];
      }
      assert rest != "" && s[n + 1] == rest[0];
      forall i | 0 <= i < |rest| && rest[i] == '.' ensures i + 1 < |rest| && StartsName(rest[i + 1]) {
        assert s[n + 1 + i] == '.';
      }
    }
    if IsIdentifier(head, beyond) && NameShaped(rest, beyond) {
      DottedNameChars(head, rest, beyond);
      forall i | 0 <= i < |s| && s[i] == '.' ensures i + 1 < |s| && StartsName(s[i + 1]) {
        assert i >= n;
        assert i > n ==> rest[i - n - 1] == '.' && s[n + 1 + (i - n)] == rest[i - n];
      }
    }
  }

  lemma {:induction false} ClassNameIsClean(s: string, beyond: char -> bool)
    requires IsClassName(s, beyond)
    ensures s != "" && StartsName(s[0])
    ensures forall i :: 0 <= i < |s| ==> !IsSpace(s[i]) && s[i] != ':' && s[i] != '\n' && s[i] != '|'
  {
    ClassNameChars(s, beyond);
  }

  /** A line that begins with a class name and then ends, or goes on with a colon, is not a frame or an elision. */
  lemma {:induction false} NameLineIsUnmarked(name: string, rest: string, beyond: char -> bool)
    requires IsClassName(name, beyond) && (rest == "" || rest[0] == ':')
    ensures !IsMarked(name + rest)
  {
    ClassNameIsClean(name, beyond);
    var line := name + rest;
    assert line[0] == name[0];
    assert StripLeft(line) == line;
    assert |line| > 2 ==> line[2] == (if |name| > 2 then name[2] else rest[2 - |name|]);
    assert |line| >= 3 && line[..2] == "at" ==> line[1] == 't';
    assert |line| >= 3 ==> line[..3][0] == name[0] != '.';
    if |name| == 1 && |line| >= 3 {
      assert line[1] == ':';
    }
  }

  lemma {:induction false} HeaderIsStripped(cause: Cause, beyond: char -> bool)
    requires ProperCause(cause, beyond)
    ensures Stripped(Header(cause)) && Strip(Header(cause)) == Header(cause) != "" && cause.fqcn != ""
    ensures Header(cause)[0] == cause.fqcn[0]
  {
    ClassNameIsClean(cause.fqcn, beyond);
    var header := Header(cause);
    if cause.message != "" {
      assert header[|header| - 1] == cause.message[|cause.message| - 1];
    }
    StripStripped(header);
  }

  lemma {:induction false} ColonFree(s: string)
    requires forall i :: 0 <= i < |s| ==> s[i] != ':'
    ensures !Contains(s, ": ")
  {
    forall i | 0 <= i <= |s| ensures !OccursAt(s, ": ", i) {
      assert i + 2 <= |s| ==> s[i..i + 2][0] == s[i];
    }
  }

  lemma {:induction false} NameAndMessageOfHeader(cause: Cause, beyond: char -> bool)
    requires ProperCause(cause, beyond)
    ensures NameAndMessage(Header(cause), beyond) == (cause.fqcn, cause.message)
  {
    ClassNameIsClean(cause.fqcn, beyond);
    ColonFree(cause.fqcn);
    FindIsFirst(cause.fqcn, ": ");
    if cause.message != "" {
      FindSeparator(cause.fqcn, ": ", cause.message);
      var header := Header(cause);
      assert header[..|cause.fqcn|] == cause.fqcn && header[|cause.fqcn| + 2..] == cause.message;
      StripStripped(cause.message);
    }
  }

  /** The first line of a header: the class name, and the first line of the message if there is one. */
  function FirstLine(cause: Cause): string {
    if cause.message == "" then cause.fqcn else cause.fqcn + ": " + Split(cause.message, "\n")[0]
  }

  lemma {:induction false} FirstHeaderLine(cause: Cause, beyond: char -> bool)
    requires ProperCause(cause, beyond)
    ensures !IsMarked(FirstLine(cause))
    ensures Split(Header(cause), "\n") == [FirstLine(cause)] + Split(cause.message, "\n")[1..]
  {
    ClassNameIsClean(cause.fqcn, beyond);
    if cause.message == "" {
      BareHeader(cause.fqcn, beyond);
    } else {
      SplitAfter(cause.fqcn + ": ", cause.message, "\n");
      NamedLineIsUnmarked(cause.fqcn, Split(cause.message, "\n")[0], beyond);
    }
  }

  lemma {:induction false} BareHeader(name: string, beyond: char -> bool)
    requires IsClassName(name, beyond)
    ensures !IsMarked(name) && Split(name, "\n") == [name] && Split("", "\n") == [""]
  {
    ClassNameIsClean(name, beyond);
    NewlineFree(name);
    SplitNone(name, "\n");
    NewlineFree("");
    SplitNone("", "\n");
    NameLineIsUnmarked(name, "", beyond);
    assert name + "" == name;
  }

  lemma {:induction false} NamedLineIsUnmarked(name: string, rest: string, beyond: char -> bool)
    requires IsClassName(name, beyond)
    ensures !IsMarked(name + ": " + rest)
  {
    NameLineIsUnmarked(name, ": " + rest, beyond);
    assert name + ": " + rest == name + (": " + rest);
  }

  lemma {:induction false} HeaderLines(cause: Cause, beyond: char -> bool)
    requires ProperCause(cause, beyond)
    ensures var lines := Split(Header(cause), "\n");
            && (forall line :: line in lines ==> !IsMarked(line))
            && (forall line :: line in lines[1..] ==> !(CAUSED_BY <= line))
  {
    FirstHeaderLine(cause, beyond);
    var lines := Split(Header(cause), "\n");
    assert lines[1..] == Split(cause.message, "\n")[1..] && lines == [lines[0]] + lines[1..];
  }

  // ------------------------------------------------------------------
  // Blocks and chains
  // ------------------------------------------------------------------

  lemma {:induction false} NewlineFree(s: string)
    requires '\n' !in s
    ensures !Contains(s, "\n")
  {
    forall i | 0 <= i <= |s| ensures !OccursAt(s, "\n", i) {
      assert i < |s| ==> s[i..i + 1][0] == s[i];
    }
  }

  lemma {:induction false} LocationIsOneLine(frame: Frame)
    requires ProperFrame(frame)
    ensures '\n' !in Location(frame)
  {
  }

  lemma {:induction false} FrameLineIsOneLine(frame: Frame)
    requires ProperFrame(frame)
    ensures !Contains(FrameLine(frame), "\n") && !(CAUSED_BY <= FrameLine(frame))
  {
    FullTargetStrips(frame);
    LocationIsOneLine(frame);
    OneLineText(FullTarget(frame), Location(frame));
  }

  lemma {:induction false} OneLineText(target: string, tail: string)
    requires AllTarget(target) && '\n' !in tail
    ensures !Contains(FrameText("\t", " ", target, tail), "\n") && !(CAUSED_BY <= FrameText("\t", " ", target, tail))
  {
    assert '\n' !in target;
    assert '\n' !in target + tail;
    assert '\n' !in "at" + (" " + (target + tail));
    NewlineFree(FrameText("\t", " ", target, tail));
    assert FrameText("\t", " ", target, tail)[0] == '\t';
  }

  lemma {:induction false} ElidedLineIsOneLine(count: nat)
    ensures !Contains(ElidedLine(count), "\n") && !(CAUSED_BY <= ElidedLine(count))
  {
    assert '\n' !in Digits(count);
    NewlineFree(ElidedLine(count));
    assert ElidedLine(count)[0] == '\t';
  }

  lemma {:induction false} MarkedLinesAreOneLine(cause: Cause, line: string)
    requires (forall frame :: frame in cause.frames ==> ProperFrame(frame)) && line in MarkedLines(cause)
    ensures !Contains(line, "\n") && !(CAUSED_BY <= line)
  {
    if line in FrameLines(cause.frames) {
      var k :| 0 <= k < |cause.frames| && line == FrameLine(cause.frames[k]);
      FrameLineIsOneLine(cause.frames[k]);
    } else {
      ElidedLineIsOneLine(cause.elided.value);
    }
  }

  /** A block's lines are its header's lines and then its marked lines. */
  lemma {:induction false} BlockLines(cause: Cause, beyond: char -> bool)
    requires ProperCause(cause, beyond)
    ensures Split(Block(cause), "\n") == Split(Header(cause), "\n") + MarkedLines(cause)
  {
    var marked := MarkedLines(cause);
    JoinCons(Header(cause), marked, "\n");
    if marked != [] {
      SplitAppend(Header(cause), "\n", Join(marked, "\n"));
      forall line | line in marked ensures !Contains(line, "\n") {
        MarkedLinesAreOneLine(cause, line);
      }
      SplitJoin(marked, "\n");
    }
  }

  lemma {:induction false} BlockParses(cause: Cause, beyond: char -> bool)
    requires ProperCause(cause, beyond)
    ensures LinkOf(Block(cause), beyond) == Recovered(cause)
  {
    BlockLines(cause, beyond);
    HeaderLines(cause, beyond);
    MarkedLinesParse(cause.frames, cause.elided);
    PlainThenMarked(Split(Header(cause), "\n"), MarkedLines(cause));
    JoinSplit(Header(cause), "\n");
    HeaderIsStripped(cause, beyond);
    NameAndMessageOfHeader(cause, beyond);
  }

  lemma {:induction false} BlockHoldsNoCause(cause: Cause, beyond: char -> bool)
    requires ProperCause(cause, beyond)
    ensures !Contains(Block(cause), "\n" + CAUSED_BY)
  {
    var lines := Split(Block(cause), "\n");
    forall line | line in lines[1..] ensures !(CAUSED_BY <= line) {
      LaterLine(cause, beyond, line);
    }
    NoLineStarts(Block(cause), CAUSED_BY);
  }

  lemma {:induction false} LaterLine(cause: Cause, beyond: char -> bool, line: string)
    requires ProperCause(cause, beyond) && line in Split(Block(cause), "\n")[1..]
    ensures !(CAUSED_BY <= line)
  {
    BlockLines(cause, beyond);
    LaterOf(Split(Header(cause), "\n"), MarkedLines(cause), line);
    if line in MarkedLines(cause) {
      MarkedLinesAreOneLine(cause, line);
    } else {
      HeaderLines(cause, beyond);
    }
  }

  lemma {:induction false} LaterOf(header: seq<string>, marked: seq<string>, line: string)
    requires header != [] && line in (header + marked)[1..]
    ensures line in header[1..] || line in marked
  {
    assert (header + marked)[1..] == header[1..] + marked;
  }

  predicate ProperChain(chain: seq<Cause>, beyond: char -> bool) {
    chain != [] && forall cause :: cause in chain ==> ProperCause(cause, beyond)
  }

  lemma {:induction false} LayoutIsNotBlank(chain: seq<Cause>, beyond: char -> bool)
    requires ProperChain(chain, beyond)
    ensures Strip(Layout(chain)) != ""
  {
    var cause := chain[0];
    HeaderIsStripped(cause, beyond);
    ClassNameIsClean(cause.fqcn, beyond);
    JoinCons(Header(cause), MarkedLines(cause), "\n");
    assert Block(cause)[0] == cause.fqcn[0];
    var text := Layout(chain);
    assert text[0] == cause.fqcn[0];
    NonBlank(text);
  }

  lemma {:induction false} NonBlank(s: string)
    requires s != "" && !IsSpace(s[0])
    ensures StripRight(s) != "" && Strip(s) != ""
  {
    if IsSpace(s[|s| - 1]) {
      NonBlank(s[..|s| - 1]);
    }
  }

  lemma {:induction false} LayoutSplits(chain: seq<Cause>, beyond: char -> bool)
    requires ProperChain(chain, beyond)
    ensures Split(Layout(chain), "\n" + CAUSED_BY) == Blocks(chain)
  {
    var blocks := Blocks(chain);
    forall block | block in blocks ensures !Contains(block, "\n" + CAUSED_BY) {
      var k :| 0 <= k < |chain| && block == Block(chain[k]);
      BlockHoldsNoCause(chain[k], beyond);
    }
    CausedBySeparates();
    SplitJoin(blocks, "\n" + CAUSED_BY);
  }

  lemma {:induction false} CausedBySeparates()
    ensures Separator("\n" + CAUSED_BY)
  {
    assert "\n" + CAUSED_BY == "\nCaused by: ";
  }

  function RecoveredChain(chain: seq<Cause>): (links: seq<ExceptionLink>)
    ensures |links| == |chain| && forall k :: 0 <= k < |chain| ==> links[k] == Recovered(chain[k])
  {
    seq(|chain|, k requires 0 <= k < |chain| => Recovered(chain[k]))
  }

  lemma {:induction false} BlocksParse(chain: seq<Cause>, beyond: char -> bool)
    requires ProperChain(chain, beyond)
    ensures Links(Blocks(chain), beyond) == RecoveredChain(chain)
  {
    forall k | 0 <= k < |chain| ensures Links(Blocks(chain), beyond)[k] == Recovered(chain[k]) {
      BlockParses(chain[k], beyond);
    }
  }

  lemma {:induction false} LayoutParses(chain: seq<Cause>, beyond: char -> bool)
    requires ProperChain(chain, beyond)
    ensures ParseStacktrace(Some(Layout(chain)), beyond) == Chained(RecoveredChain(chain))
  {
    LayoutIsNotBlank(chain, beyond);
    LayoutSplits(chain, beyond);
    BlocksParse(chain, beyond);
  }

  /**
   The parser inverts the layout: every link's class name, message, module-stripped frames and elision
   count come back, and the trace is truncated exactly when the last link has neither frames nor elision.
   */
  lemma {:induction false} ParseInvertsLayout(chain: seq<Cause>, beyond: char -> bool)
    requires ProperChain(chain, beyond)
    ensures ParseStacktrace(Some(Layout(chain)), beyond) ==
            var last := chain[|chain| - 1];
            ParsedTrace(RecoveredChain(chain), last.frames == [] && last.elided == None)
  {
    LayoutParses(chain, beyond);
    var last := chain[|chain| - 1];
    assert |Targets(last.frames)| == |last.frames|;
  }

  // ------------------------------------------------------------------
  // Blank messages
  // ------------------------------------------------------------------

  lemma {:induction false} StripRightKeeps(lead: string, s: string)
    ensures StripRight(s) != "" ==> StripRight(lead + s) == lead + StripRight(s)
    ensures StripRight(s) == "" ==> StripRight(lead + s) == StripRight(lead)
    decreases |s|
  {
    if s != "" {
      var n := |s| - 1;
      assert (lead + s)[..|lead + s| - 1] == lead + s[..n];
      if IsSpace(s[n]) {
        StripRightKeeps(lead, s[..n]);
      } else {
        assert s[..n] + [s[n]] == s && (lead + s)[|lead + s| - 1] == s[n];
      }
    } else {
      assert lead + s == lead;
    }
  }

  lemma {:induction false} ColonIsNoName(name: string, beyond: char -> bool)
    requires name != "" && name[|name| - 1] == ':'
    ensures !MatchesFqcn(name, beyond)
  {
    if IsClassName(name, beyond) {
      ClassNameIsClean(name, beyond);
    }
  }

  /**
   A header `name: message` yields its class name exactly when the message is not blank: an exception with
   an empty message is printed with a bare colon, which stripping leaves attached to the name.
   */
  lemma {:induction false} NameSurvivesExactly(name: string, message: string, beyond: char -> bool)
    requires IsClassName(name, beyond)
    ensures NameAndMessage(Strip(name + ": " + message), beyond).0 == name <==> StripRight(message) != ""
    ensures StripRight(message) == "" ==> NameAndMessage(Strip(name + ": " + message), beyond) == ("", name + ":")
  {
    ClassNameIsClean(name, beyond);
    ColonFree(name);
    FindIsFirst(name, ": ");
    var lead := name + ": ";
    var text := lead + message;
    assert text[0] == name[0];
    StripRightKeeps(lead, message);
    if StripRight(message) != "" {
      FindSeparator(name, ": ", StripRight(message));
      var header := lead + StripRight(message);
      assert header[..|name|] == name;
    } else {
      BareColon(name, beyond);
    }
  }

  lemma {:induction false} BareColon(name: string, beyond: char -> bool)
    requires IsClassName(name, beyond)
    ensures StripRight(name + ": ") == name + ":"
    ensures NameAndMessage(name + ":", beyond) == ("", name + ":")
  {
    assert (name + ": ")[..|name| + 1] == name + ":";
    ClassNameIsClean(name, beyond);
    ColonIsNoName(name + ":", beyond);
    FindIsFirst(":", ": ");
    NotInLead(name, ":", ": ");
    FindIsFirst(name + ":", ": ");
  }
}
