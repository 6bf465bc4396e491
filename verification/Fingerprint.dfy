/**
 Fingerprints (src/dlt/stacktrace.py): what is hashed, that it determines class, code and frames, and
 what may change in a trace without changing it. The digest itself is not modelled.
 */
module Fingerprint {
  import opened Options
  import opened Text
  import opened Numerals
  import opened TraceLines
  import opened StackTrace

  // ------------------------------------------------------------------
  // Frames that identify a failure
  // ------------------------------------------------------------------

  const GENERATED: seq<string> :=
    ["$$SpringCGLIB", "$$EnhancerBySpringCGLIB", "$$FastClassBySpringCGLIB", "$$Lambda"]

  const NUMBERED: seq<string> := ["GeneratedMethodAccessor", "GeneratedConstructorAccessor", "$Proxy"]

  predicate HoldsNumbered(s: string, mark: string) {
    exists i :: 0 <= i < |s| && OccursAt(s, mark, i) && i + |mark| < |s| && IsDigit(s[i + |mark|])
  }

  predicate IsSynthetic(target: string) {
    || (exists mark :: mark in GENERATED && Contains(target, mark))
    || (exists mark :: mark in NUMBERED && HoldsNumbered(target, mark))
  }

  predicate StartsWithAny(s: string, prefixes: seq<string>) {
    exists prefix :: prefix in prefixes && prefix <= s
  }

  datatype Filters = Filters(packages: seq<string>, boilerplate: seq<string>)

  /** An application frame that is neither generated nor exception plumbing. */
  predicate IsSignal(frame: string, filters: Filters) {
    && frame != ""
    && StartsWithAny(frame, filters.packages)
    && !IsSynthetic(frame)
    && !StartsWithAny(frame, filters.boilerplate)
  }

  function NormaliseFrames(frames: seq<string>, filters: Filters): seq<string> {
    if frames == [] then []
    else (if IsSignal(frames[0], filters) then [frames[0]] else []) + NormaliseFrames(frames[1..], filters)
  }

  function FirstFrames(frames: seq<string>, limit: int): seq<string> {
    var count := if limit < 1 then 1 else limit;
    if |frames| <= count then frames else frames[..count]
  }

  /** The text that is hashed. */
  function PreHash(fqcn: string, frames: seq<string>, code: string, limit: int): string {
    Join([Strip(fqcn), Strip(code), Join(FirstFrames(frames, limit), "\n")], "|")
  }

  /** The pre-hash text of a whole trace: its root's class and normalised frames. */
  function TraceHash(trace: ParsedTrace, filters: Filters, code: string, limit: int): string {
    match Root(trace)
    case None => PreHash("", [], code, limit)
    case Some(root) => PreHash(root.fqcn, NormaliseFrames(root.frames, filters), code, limit)
  }

  // ------------------------------------------------------------------
  // Which frames are noise
  // ------------------------------------------------------------------

  predicate Around(s: string, a: string, mark: string, b: string) {
    s == a + mark + b
  }

  ghost predicate Holds(s: string, mark: string) {
    exists a, b :: Around(s, a, mark, b)
  }

  /** The mark, and a digit right behind it. */
  ghost predicate HoldsCounted(s: string, mark: string) {
    exists a, b :: Around(s, a, mark, b) && b != "" && IsDigit(b[0])
  }

  /**
   A frame that says nothing about the failure: outside the application's packages, of a class the JVM or a
   framework generated, or exception plumbing.
   */
  ghost predicate Noisy(frame: string, filters: Filters) {
    || frame == ""
    || (forall prefix :: prefix in filters.packages ==> !(prefix <= frame))
    || Holds(frame, "$$SpringCGLIB") || Holds(frame, "$$EnhancerBySpringCGLIB")
    || Holds(frame, "$$FastClassBySpringCGLIB") || Holds(frame, "$$Lambda")
    || HoldsCounted(frame, "GeneratedMethodAccessor") || HoldsCounted(frame, "GeneratedConstructorAccessor")
    || HoldsCounted(frame, "$Proxy")
    || (exists prefix :: prefix in filters.boilerplate && prefix <= frame)
  }

  lemma {:induction false} ContainsIsHolds(s: string, mark: string)
    requires mark != ""
    ensures Contains(s, mark) <==> Holds(s, mark)
  {
    if Contains(s, mark) {
      var i :| 0 <= i <= |s| && OccursAt(s, mark, i);
      assert s == s[..i] + s[i..i + |mark|] + s[i + |mark|..];
      assert Around(s, s[..i], mark, s[i + |mark|..]);
    }
    if Holds(s, mark) {
      var a, b :| Around(s, a, mark, b);
      assert s[|a|..|a| + |mark|] == mark;
      assert OccursAt(s, mark, |a|);
    }
  }

  lemma {:induction false} NumberedIsCounted(s: string, mark: string)
    requires mark != ""
    ensures HoldsNumbered(s, mark) <==> HoldsCounted(s, mark)
  {
    if HoldsNumbered(s, mark) {
      var i :| 0 <= i < |s| && OccursAt(s, mark, i) && i + |mark| < |s| && IsDigit(s[i + |mark|]);
      var b := s[i + |mark|..];
      assert s == s[..i] + s[i..i + |mark|] + b && b[0] == s[i + |mark|];
      assert Around(s, s[..i], mark, b);
    }
    if HoldsCounted(s, mark) {
      var a, b :| Around(s, a, mark, b) && b != "" && IsDigit(b[0]);
      assert s[|a|..|a| + |mark|] == mark && s[|a| + |mark|] == b[0];
      assert OccursAt(s, mark, |a|);
    }
  }

  lemma {:induction false} SyntheticExactly(s: string)
    ensures IsSynthetic(s) <==>
              || Holds(s, "$$SpringCGLIB") || Holds(s, "$$EnhancerBySpringCGLIB")
              || Holds(s, "$$FastClassBySpringCGLIB") || Holds(s, "$$Lambda")
              || HoldsCounted(s, "GeneratedMethodAccessor") || HoldsCounted(s, "GeneratedConstructorAccessor")
              || HoldsCounted(s, "$Proxy")
  {
    MarksHold(s, GENERATED);
    MarksCount(s, NUMBERED);
    assert GENERATED[0] in GENERATED && GENERATED[1] in GENERATED;
    assert GENERATED[2] in GENERATED && GENERATED[3] in GENERATED;
    assert NUMBERED[0] in NUMBERED && NUMBERED[1] in NUMBERED && NUMBERED[2] in NUMBERED;
  }

  lemma {:induction false} MarksHold(s: string, marks: seq<string>)
    requires forall mark :: mark in marks ==> mark != ""
    ensures forall mark :: mark in marks ==> (Contains(s, mark) <==> Holds(s, mark))
  {
    forall mark | mark in marks ensures Contains(s, mark) <==> Holds(s, mark) {
      ContainsIsHolds(s, mark);
    }
  }

  lemma {:induction false} MarksCount(s: string, marks: seq<string>)
    requires forall mark :: mark in marks ==> mark != ""
    ensures forall mark :: mark in marks ==> (HoldsNumbered(s, mark) <==> HoldsCounted(s, mark))
  {
    forall mark | mark in marks ensures HoldsNumbered(s, mark) <==> HoldsCounted(s, mark) {
      NumberedIsCounted(s, mark);
    }
  }

  /** The filter keeps exactly the frames that are not noise. */
  lemma {:induction false} SignalExactly(frame: string, filters: Filters)
    ensures IsSignal(frame, filters) <==> !Noisy(frame, filters)
  {
    SyntheticExactly(frame);
  }

  lemma {:induction false} NormaliseConcat(a: seq<string>, b: seq<string>, filters: Filters)
    ensures NormaliseFrames(a + b, filters) == NormaliseFrames(a, filters) + NormaliseFrames(b, filters)
    decreases a
  {
    if a == [] {
      assert a + b == b;
    } else {
      assert (a + b)[1..] == a[1..] + b;
      NormaliseConcat(a[1..], b, filters);
    }
  }

  /** A frame that is noise leaves nothing behind; any other is kept, in its place. */
  lemma {:induction false} FrameIsKeptExactly(
    before: seq<string>, frame: string, after: seq<string>, filters: Filters)
    ensures NormaliseFrames(before + ([frame] + after), filters) ==
            NormaliseFrames(before, filters) +
            ((if Noisy(frame, filters) then [] else [frame]) + NormaliseFrames(after, filters))
  {
    SignalExactly(frame, filters);
    NormaliseConcat(before, [frame] + after, filters);
    NormaliseConcat([frame], after, filters);
    assert [frame][1..] == [];
  }

  /** Of the frames kept, the first ones count, as many as the limit says, and at least one. */
  lemma {:induction false} FirstFramesAreFirst(frames: seq<string>, limit: int)
    ensures var first := FirstFrames(frames, limit);
            && first <= frames && (first == frames || |first| == limit || (limit < 1 && |first| == 1))
            && (|first| <= limit || |first| <= 1)
  {
  }

  // ------------------------------------------------------------------
  // The pre-hash text determines its parts
  // ------------------------------------------------------------------

  predicate BarFree(s: string) {
    '|' !in s
  }

  /** A frame as the parser produces it: not empty, on one line. */
  predicate IsFrame(s: string) {
    s != "" && '\n' !in s
  }

  lemma {:induction false} BarFreeParts(s: string)
    requires BarFree(s)
    ensures !Contains(s, "|")
  {
    forall i | 0 <= i <= |s| ensures !OccursAt(s, "|", i) {
      assert i < |s| ==> s[i..i + 1][0] == s[i];
    }
  }

  lemma {:induction false} StripKeepsBarFree(s: string)
    requires BarFree(s)
    ensures BarFree(Strip(s))
  {
    var lead := StripLeftCut(s);
    var trail := StripRightCut(StripLeft(s));
  }

  /** Two bars part the class and the code from the frames, whatever the frames hold. */
  lemma {:induction false} PartsAreDetermined(a: string, b: string, c: string, a': string, b': string, c': string)
    requires BarFree(a) && BarFree(b) && BarFree(a') && BarFree(b')
    requires Join([a, b, c], "|") == Join([a', b', c'], "|")
    ensures a == a' && b == b' && c == c'
  {
    assert Join([a, b, c], "|") == a + "|" + (b + "|" + c) by {
      JoinThree(a, b, c);
    }
    assert Join([a', b', c'], "|") == a' + "|" + (b' + "|" + c') by {
      JoinThree(a', b', c');
    }
    FirstPart(a, b + "|" + c, a', b' + "|" + c');
    FirstPart(b, c, b', c');
  }

  lemma {:induction false} JoinThree(a: string, b: string, c: string)
    ensures Join([a, b, c], "|") == a + "|" + (b + "|" + c)
  {
    JoinCons(a, [b, c], "|");
    JoinCons(b, [c], "|");
    assert [a] + [b, c] == [a, b, c] && [b] + [c] == [b, c];
  }

  lemma {:induction false} FirstPart(a: string, rest: string, a': string, rest': string)
    requires BarFree(a) && BarFree(a') && a + "|" + rest == a' + "|" + rest'
    ensures a == a' && rest == rest'
  {
    BarFreeParts(a);
    BarFreeParts(a');
    FindSeparator(a, "|", rest);
    FindSeparator(a', "|", rest');
    var s := a + "|" + rest;
    assert a == s[..|a|] && a' == s[..|a|] && rest == s[|a| + 1..] && rest' == s[|a| + 1..];
  }

  /** Joined frames determine the frames: none is empty, none spans lines. */
  lemma {:induction false} FramesAreDetermined(frames: seq<string>, frames': seq<string>)
    requires (forall f :: f in frames ==> IsFrame(f)) && (forall f :: f in frames' ==> IsFrame(f))
    requires Join(frames, "\n") == Join(frames', "\n")
    ensures frames == frames'
  {
    if frames != [] && frames' != [] {
      forall f | f in frames ensures !Contains(f, "\n") { NewlineFree(f); }
      forall f | f in frames' ensures !Contains(f, "\n") { NewlineFree(f); }
      SplitJoin(frames, "\n");
      SplitJoin(frames', "\n");
    } else if frames != [] {
      assert IsFrame(frames[0]);
      JoinNotEmpty(frames);
    } else if frames' != [] {
      assert IsFrame(frames'[0]);
      JoinNotEmpty(frames');
    }
  }

  lemma {:induction false} JoinNotEmpty(frames: seq<string>)
    requires frames != [] && frames[0] != ""
    ensures Join(frames, "\n") != ""
  {
  }

  /** The pre-hash text is injective: equal exactly when class, code and the first frames are equal. */
  lemma {:induction false} PreHashIsInjective(
    fqcn: string, frames: seq<string>, code: string, fqcn': string, frames': seq<string>, code': string, limit: int)
    requires BarFree(fqcn) && BarFree(code) && BarFree(fqcn') && BarFree(code')
    requires (forall f :: f in frames ==> IsFrame(f)) && (forall f :: f in frames' ==> IsFrame(f))
    ensures PreHash(fqcn, frames, code, limit) == PreHash(fqcn', frames', code', limit) <==>
            Strip(fqcn) == Strip(fqcn') && Strip(code) == Strip(code') &&
            FirstFrames(frames, limit) == FirstFrames(frames', limit)
  {
    if PreHash(fqcn, frames, code, limit) == PreHash(fqcn', frames', code', limit) {
      StripKeepsBarFree(fqcn);
      StripKeepsBarFree(fqcn');
      StripKeepsBarFree(code);
      StripKeepsBarFree(code');
      var first, first' := FirstFrames(frames, limit), FirstFrames(frames', limit);
      PartsAreDetermined(Strip(fqcn), Strip(code), Join(first, "\n"), Strip(fqcn'), Strip(code'), Join(first', "\n"));
      FramesAreDetermined(first, first');
    }
  }

  // ------------------------------------------------------------------
  // Parsed traces meet those conditions
  // ------------------------------------------------------------------

  lemma {:induction false} NoFrameHasSpace(line: string)
    requires FrameTarget(line).Some?
    ensures '\n' !in StripModule(FrameTarget(line).value)
  {
    var lead, gap, tail := FrameIsExplained(line);
    var target := FrameTarget(line).value;
    assert '\n' !in target;
    var i := Find(target, "/");
    assert i >= 0 ==> target == target[..i + 1] + target[i + 1..];
  }

  lemma {:induction false} ParsedFramesAreOneLine(lines: seq<string>, frame: string)
    requires frame in FramesOf(lines)
    ensures '\n' !in frame
  {
    var target := FrameTarget(lines[0]);
    if target.Some? && frame == StripModule(target.value) {
      NoFrameHasSpace(lines[0]);
    } else {
      ParsedFramesAreOneLine(lines[1..], frame);
    }
  }

  lemma {:induction false} NormalisedFrames(frames: seq<string>, filters: Filters, frame: string)
    requires frame in NormaliseFrames(frames, filters)
    ensures frame in frames && IsSignal(frame, filters)
  {
    if !(IsSignal(frames[0], filters) && frame == frames[0]) {
      NormalisedFrames(frames[1..], filters, frame);
    }
  }

  lemma {:induction false} ParsedNameIsBarFree(header: string, beyond: char -> bool)
    ensures BarFree(NameAndMessage(header, beyond).0)
  {
    var name := NameAndMessage(header, beyond).0;
    if name != "" {
      MatchedIsBarFree(name, beyond);
    }
  }

  lemma {:induction false} MatchedIsBarFree(name: string, beyond: char -> bool)
    requires MatchesFqcn(name, beyond)
    ensures BarFree(name)
  {
    if IsClassName(name, beyond) {
      ClassNameIsClean(name, beyond);
    } else {
      ClassNameIsClean(name[..|name| - 1], beyond);
      assert name == name[..|name| - 1] + [name[|name| - 1]];
    }
  }

  /** What a parsed trace contributes to the hash. */
  function RootName(trace: ParsedTrace): string {
    match Root(trace)
    case None => ""
    case Some(root) => root.fqcn
  }

  function RootFrames(trace: ParsedTrace, filters: Filters): seq<string> {
    match Root(trace)
    case None => []
    case Some(root) => NormaliseFrames(root.frames, filters)
  }

  lemma {:induction false} ParsedLink(block: string, beyond: char -> bool, filters: Filters)
    ensures var link := LinkOf(block, beyond);
            && BarFree(link.fqcn)
            && forall frame :: frame in NormaliseFrames(link.frames, filters) ==> IsFrame(frame)
  {
    var lines := Split(block, "\n");
    ParsedNameIsBarFree(Strip(Join(HeaderOf(lines), "\n")), beyond);
    forall frame | frame in NormaliseFrames(FramesOf(lines), filters) ensures IsFrame(frame) {
      NormalisedFrames(FramesOf(lines), filters, frame);
      ParsedFramesAreOneLine(lines, frame);
    }
  }

  lemma {:induction false} RootIsALink(text: Option<string>, beyond: char -> bool) returns (block: string)
    requires ParseStacktrace(text, beyond).chain != []
    ensures Root(ParseStacktrace(text, beyond)) == Some(LinkOf(block, beyond))
  {
    var blocks := ParsedBlocks(text, beyond);
    block := RootOfBlocks(blocks, ParseStacktrace(text, beyond), beyond);
  }

  lemma {:induction false} RootOfBlocks(blocks: seq<string>, trace: ParsedTrace, beyond: char -> bool)
    returns (block: string)
    requires blocks != [] && trace == Chained(Links(blocks, beyond))
    ensures Root(trace) == Some(LinkOf(block, beyond))
  {
    block := blocks[|blocks| - 1];
    LastOfChain(Links(blocks, beyond));
  }

  lemma {:induction false} ParsedBlocks(text: Option<string>, beyond: char -> bool) returns (blocks: seq<string>)
    requires ParseStacktrace(text, beyond).chain != []
    ensures blocks != [] && ParseStacktrace(text, beyond) == Chained(Links(blocks, beyond))
  {
    blocks := Split(text.value, "\n" + CAUSED_BY);
  }

  lemma {:induction false} LastOfChain(links: seq<ExceptionLink>)
    requires links != []
    ensures Root(Chained(links)) == Some(links[|links| - 1])
  {
  }

  lemma {:induction false} ParsedRoot(text: Option<string>, beyond: char -> bool, filters: Filters)
    ensures var trace := ParseStacktrace(text, beyond);
            && BarFree(RootName(trace))
            && forall frame :: frame in RootFrames(trace, filters) ==> IsFrame(frame)
  {
    if ParseStacktrace(text, beyond).chain != [] {
      var block := RootIsALink(text, beyond);
      ParsedLink(block, beyond, filters);
    }
  }

  /** A business code: upper-case letters, digits and underscores, or none. */
  predicate IsCode(code: string) {
    forall i :: 0 <= i < |code| ==> 'A' <= code[i] <= 'Z' || '0' <= code[i] <= '9' || code[i] == '_'
  }

  lemma {:induction false} CodeIsStripped(code: string)
    requires IsCode(code)
    ensures BarFree(code) && Strip(code) == code
  {
    StripStripped(code);
  }

  /**
   Two traces, whatever their text, hash alike exactly when root class, business code and the first
   normalised frames agree: distinct failures never share a pre-hash text.
   */
  lemma {:induction false} TraceHashIsInjective(
    text: Option<string>, code: string, text': Option<string>, code': string,
    beyond: char -> bool, filters: Filters, limit: int)
    requires IsCode(code) && IsCode(code')
    ensures var trace, trace' := ParseStacktrace(text, beyond), ParseStacktrace(text', beyond);
            TraceHash(trace, filters, code, limit) == TraceHash(trace', filters, code', limit) <==>
            && Strip(RootName(trace)) == Strip(RootName(trace'))
            && code == code'
            && FirstFrames(RootFrames(trace, filters), limit) == FirstFrames(RootFrames(trace', filters), limit)
  {
    var trace, trace' := ParseStacktrace(text, beyond), ParseStacktrace(text', beyond);
    ParsedRoot(text, beyond, filters);
    ParsedRoot(text', beyond, filters);
    CodeIsStripped(code);
    CodeIsStripped(code');
    PreHashIsInjective(RootName(trace), RootFrames(trace, filters), code,
                       RootName(trace'), RootFrames(trace', filters), code', limit);
  }

  // ------------------------------------------------------------------
  // Stability
  // ------------------------------------------------------------------

  /** The two frame blocks differ only in locations, module prefixes and frames that are noise. */
  predicate SameSignal(a: seq<Frame>, b: seq<Frame>, filters: Filters)
    decreases |a| + |b|
  {
    || (a == [] && b == [])
    || (a != [] && !IsSignal(a[0].target, filters) && SameSignal(a[1..], b, filters))
    || (b != [] && !IsSignal(b[0].target, filters) && SameSignal(a, b[1..], filters))
    || (a != [] && b != [] && a[0].target == b[0].target && SameSignal(a[1..], b[1..], filters))
  }

  lemma {:induction false} TargetsCons(frames: seq<Frame>, filters: Filters)
    requires frames != []
    ensures NormaliseFrames(Targets(frames), filters) ==
            (if IsSignal(frames[0].target, filters) then [frames[0].target] else []) +
            NormaliseFrames(Targets(frames[1..]), filters)
  {
    assert Targets(frames)[1..] == Targets(frames[1..]);
  }

  lemma {:induction false} SameSignalNormalises(a: seq<Frame>, b: seq<Frame>, filters: Filters)
    requires SameSignal(a, b, filters)
    ensures NormaliseFrames(Targets(a), filters) == NormaliseFrames(Targets(b), filters)
    decreases |a| + |b|
  {
    if a != [] {
      TargetsCons(a, filters);
    }
    if b != [] {
      TargetsCons(b, filters);
    }
    if a == [] && b == [] {
    } else if a != [] && !IsSignal(a[0].target, filters) && SameSignal(a[1..], b, filters) {
      SameSignalNormalises(a[1..], b, filters);
    } else if b != [] && !IsSignal(b[0].target, filters) && SameSignal(a, b[1..], filters) {
      SameSignalNormalises(a, b[1..], filters);
    } else {
      SameSignalNormalises(a[1..], b[1..], filters);
    }
  }

  /**
   The fingerprint is stable: two traces whose root links have the same class and the same signal frames
   hash alike, whatever their other links, messages, locations, module prefixes and noise frames.
   */
  lemma {:induction false} FingerprintIsStable(
    chain: seq<Cause>, chain': seq<Cause>, beyond: char -> bool, filters: Filters, code: string, limit: int)
    requires ProperChain(chain, beyond) && ProperChain(chain', beyond)
    requires var root, root' := chain[|chain| - 1], chain'[|chain'| - 1];
             root.fqcn == root'.fqcn && SameSignal(root.frames, root'.frames, filters)
    ensures TraceHash(ParseStacktrace(Some(Layout(chain)), beyond), filters, code, limit) ==
            TraceHash(ParseStacktrace(Some(Layout(chain')), beyond), filters, code, limit)
  {
    LayoutParses(chain, beyond);
    LayoutParses(chain', beyond);
    SameSignalNormalises(chain[|chain| - 1].frames, chain'[|chain'| - 1].frames, filters);
  }

  /** Noise may be inserted anywhere in the root's frame block. */
  lemma {:induction false} NoiseIsSameSignal(before: seq<Frame>, noise: seq<Frame>, after: seq<Frame>, filters: Filters)
    requires forall frame :: frame in noise ==> !IsSignal(frame.target, filters)
    ensures SameSignal(before + after, before + noise + after, filters)
    decreases |before| + |noise| + |after|
  {
    var a, b := before + after, before + noise + after;
    if before != [] {
      NoiseIsSameSignal(before[1..], noise, after, filters);
      assert a[1..] == before[1..] + after && b[1..] == before[1..] + noise + after;
    } else if noise != [] {
      assert noise[0] in noise && forall frame :: frame in noise[1..] ==> frame in noise;
      NoiseIsSameSignal([], noise[1..], after, filters);
      assert a == [] + after && b[1..] == [] + noise[1..] + after;
      assert b[0] == noise[0];
    } else if after != [] {
      NoiseIsSameSignal([], [], after[1..], filters);
      assert a[1..] == [] + after[1..] && b[1..] == [] + [] + after[1..];
    }
  }

  /** In terms of the frames' text: noise inserted anywhere into the root's frames leaves the pre-hash text alone. */
  lemma {:induction false} NoiseChangesNothing(
    causes: seq<Cause>, root: Cause, before: seq<Frame>, noise: seq<Frame>, after: seq<Frame>,
    beyond: char -> bool, filters: Filters, code: string, limit: int)
    requires forall frame :: frame in noise ==> Noisy(frame.target, filters)
    requires ProperChain(causes + [root.(frames := before + after)], beyond)
    requires ProperChain(causes + [root.(frames := before + noise + after)], beyond)
    ensures var plain := Layout(causes + [root.(frames := before + after)]);
            var noisy := Layout(causes + [root.(frames := before + noise + after)]);
            TraceHash(ParseStacktrace(Some(noisy), beyond), filters, code, limit) ==
            TraceHash(ParseStacktrace(Some(plain), beyond), filters, code, limit)
  {
    forall frame | frame in noise ensures !IsSignal(frame.target, filters) {
      SignalExactly(frame.target, filters);
    }
    NoiseIsSameSignal(before, noise, after, filters);
    FingerprintIsStable(causes + [root.(frames := before + after)], causes + [root.(frames := before + noise + after)],
                        beyond, filters, code, limit);
  }

  /** A frame that is not noise changes the pre-hash text, as long as the limit lets all frames in. */
  lemma {:induction false} SignalChangesHash(
    fqcn: string, code: string, before: seq<string>, frame: string, after: seq<string>, filters: Filters, limit: int)
    requires BarFree(fqcn) && BarFree(code) && !Noisy(frame, filters)
    requires forall f :: f in before + ([frame] + after) ==> '\n' !in f
    requires |NormaliseFrames(before + ([frame] + after), filters)| <= limit
    ensures PreHash(fqcn, NormaliseFrames(before + ([frame] + after), filters), code, limit) !=
            PreHash(fqcn, NormaliseFrames(before + after, filters), code, limit)
  {
    var more, fewer := NormaliseFrames(before + ([frame] + after), filters), NormaliseFrames(before + after, filters);
    FrameIsKeptExactly(before, frame, after, filters);
    NormaliseConcat(before, after, filters);
    forall f | f in more ensures IsFrame(f) {
      NormalisedFrames(before + ([frame] + after), filters, f);
    }
    forall f | f in fewer ensures IsFrame(f) {
      NormalisedFrames(before + after, filters, f);
      assert f in before + ([frame] + after);
    }
    PreHashIsInjective(fqcn, more, code, fqcn, fewer, code, limit);
    assert |more| == |fewer| + 1;
  }

  /** Locations and module prefixes may change in every frame. */
  lemma {:induction false} RelocationIsSameSignal(a: seq<Frame>, b: seq<Frame>, filters: Filters)
    requires |a| == |b| && forall k :: 0 <= k < |a| ==> a[k].target == b[k].target
    ensures SameSignal(a, b, filters)
    decreases |a|
  {
    if a != [] {
      RelocationIsSameSignal(a[1..], b[1..], filters);
    }
  }
}
