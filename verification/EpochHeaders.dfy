/** Epoch-millisecond headers written in decimal or in hexadecimal (src/dlt/headers.py). */
module EpochHeaders {
  import opened Options
  import opened Numerals
  import opened Text

  const EPOCH_MS_MIN := 946684800000
  const EPOCH_MS_MAX := 4102444800000

  predicate Plausible(t: int) {
    EPOCH_MS_MIN <= t <= EPOCH_MS_MAX
  }

  // ------------------------------------------------------------------
  // Hexadecimal literals
  // ------------------------------------------------------------------

  /** Hexadecimal digits with single underscores between them. */
  predicate Grouped(s: string) {
    && s != "" && s[0] != '_' && s[|s| - 1] != '_'
    && (forall i :: 0 <= i < |s| ==> s[i] == '_' || IsHexDigit(s[i]))
    && (forall i :: 0 < i < |s| ==> s[i - 1] != '_' || s[i] != '_')
  }

  function Ungrouped(s: string): (digits: string)
    requires forall i :: 0 <= i < |s| ==> s[i] == '_' || IsHexDigit(s[i])
    ensures AllHexDigits(digits)
  {
    if s == "" then "" else Ungrouped(s[..|s| - 1]) + if s[|s| - 1] == '_' then "" else [s[|s| - 1]]
  }

  /** The digits behind an optional `0x`, which may be followed by one underscore. */
  function Unprefixed(s: string): string {
    if |s| >= 2 && s[0] == '0' && (s[1] == 'x' || s[1] == 'X') then
      if |s| >= 3 && s[2] == '_' then s[3..] else s[2..]
    else s
  }

  /** `int(text, 16)` of a stripped text; nothing where it raises. */
  function ParseHex(text: string): Option<int> {
    var signed := text != "" && (text[0] == '-' || text[0] == '+');
    var digits := Unprefixed(if signed then text[1..] else text);
    if !Grouped(digits) then None
    else
      var n: int := Hexadecimal(Ungrouped(digits));
      Some(if signed && text[0] == '-' then -n else n)
  }

  // ------------------------------------------------------------------
  // Decoding
  // ------------------------------------------------------------------

  /** `t` is the text's value in decimal or in hexadecimal. */
  predicate Reads(text: string, t: int) {
    (text != "" && AllDigits(text) && Decimal(text) == t) || ParseHex(text) == Some(t)
  }

  /** A plausible reading of the text; there is at most one (`OneReading`). */
  ghost function Decoded(value: Option<string>): (r: Option<int>)
    ensures r.Some? ==> value.Some? && Plausible(r.value) && Reads(Strip(value.value), r.value)
  {
    if value.Some? && exists t :: Plausible(t) && Reads(Strip(value.value), t) then
      var t :| Plausible(t) && Reads(Strip(value.value), t);
      Some(t)
    else None
  }

  method DecodeEpochMs(value: Option<string>) returns (r: Option<int>)
    ensures r == Decoded(value)
    ensures r.Some? <==> value.Some? && exists t :: Plausible(t) && Reads(Strip(value.value), t)
  {
    if value.None? {
      return None;
    }
    var text := Strip(value.value);
    if text == "" {
      return None;
    }
    var candidates: seq<int> := [];
    if AllDigits(text) {
      candidates := candidates + [Decimal(text)];
    }
    var hex := ParseHex(text);
    if hex.Some? {
      candidates := candidates + [hex.value];
    }
    assert forall t :: t in candidates <==> Reads(text, t);
    for k := 0 to |candidates|
      invariant forall j :: 0 <= j < k ==> !Plausible(candidates[j])
    {
      if EPOCH_MS_MIN <= candidates[k] <= EPOCH_MS_MAX {
        assert Plausible(candidates[k]) && Reads(text, candidates[k]);
        OneReading(text, candidates[k], Decoded(value).value);
        return Some(candidates[k]);
      }
    }
    r := None;
  }

  // ------------------------------------------------------------------
  // The grammar of hexadecimal literals
  // ------------------------------------------------------------------

  function Flat(groups: seq<string>): string {
    if groups == [] then "" else groups[0] + Flat(groups[1..])
  }

  predicate HexGroups(groups: seq<string>) {
    groups != [] && forall g :: g in groups ==> g != "" && AllHexDigits(g)
  }

  /** A sign, a prefix and groups of hexadecimal digits with one underscore between them. */
  predicate HexText(text: string, sign: string, prefix: string, groups: seq<string>) {
    && text == sign + (prefix + Join(groups, "_"))
    && (sign == "" || sign == "+" || sign == "-")
    && (prefix == "" || prefix == "0x" || prefix == "0X" || prefix == "0x_" || prefix == "0X_")
    && HexGroups(groups)
  }

  predicate HexCharsOrBars(s: string) {
    forall i :: 0 <= i < |s| ==> s[i] == '_' || IsHexDigit(s[i])
  }

  lemma {:induction false} FlatIsHex(groups: seq<string>)
    requires forall g :: g in groups ==> AllHexDigits(g)
    ensures AllHexDigits(Flat(groups))
  {
    if groups != [] {
      assert groups[0] in groups;
      FlatIsHex(groups[1..]);
    }
  }

  lemma {:induction false} UngroupedConcat(a: string, b: string)
    requires HexCharsOrBars(a) && HexCharsOrBars(b) && HexCharsOrBars(a + b)
    ensures Ungrouped(a + b) == Ungrouped(a) + Ungrouped(b)
    decreases |b|
  {
    if b == "" {
      assert a + b == a;
    } else {
      assert (a + b)[..|a + b| - 1] == a + b[..|b| - 1];
      UngroupedConcat(a, b[..|b| - 1]);
    }
  }

  /** Joined groups are grouped digits, and give their digits back. */
  lemma {:induction false} JoinedIsGrouped(groups: seq<string>)
    requires HexGroups(groups)
    ensures Grouped(Join(groups, "_")) && Ungrouped(Join(groups, "_")) == Flat(groups)
  {
    assert groups[0] in groups;
    UngroupedDigits(groups[0]);
    if |groups| > 1 {
      var rest := groups[1..];
      assert forall g :: g in rest ==> g in groups;
      JoinedIsGrouped(rest);
      GroupAndMore(groups[0], Join(rest, "_"));
    } else {
      assert groups[1..] == [] && groups[0] + Flat([]) == groups[0];
    }
  }

  lemma {:induction false} GroupAndMore(g: string, s: string)
    requires g != "" && AllHexDigits(g) && Grouped(s)
    ensures Grouped(g + "_" + s) && Ungrouped(g + "_" + s) == g + Ungrouped(s)
  {
    assert g + "_" + s == g + ("_" + s);
    GroupedBehind(g, s);
    UngroupedBehind(g, s);
  }

  lemma {:induction false} GroupedBehind(g: string, s: string)
    requires g != "" && AllHexDigits(g) && Grouped(s)
    ensures Grouped(g + ("_" + s))
  {
    var t, n := g + ("_" + s), |g|;
    assert !IsHexDigit('_');
    forall i | 0 <= i < |t| ensures t[i] == if i < n then g[i] else if i == n then '_' else s[i - n - 1] {
    }
    forall i | 0 < i < |t| ensures t[i - 1] != '_' || t[i] != '_' {
      if i > n + 1 {
        assert s[i - n - 2] != '_' || s[i - n - 1] != '_';
      }
    }
  }

  lemma {:induction false} UngroupedBehind(g: string, s: string)
    requires AllHexDigits(g) && HexCharsOrBars(s) && HexCharsOrBars(g + ("_" + s))
    ensures Ungrouped(g + ("_" + s)) == g + Ungrouped(s)
  {
    assert HexCharsOrBars("_" + s);
    UngroupedConcat(g, "_" + s);
    UngroupedConcat("_", s);
    UngroupedDigits(g);
    assert "_"[..0] == "" && Ungrouped("_") == "";
    assert "" + Ungrouped(s) == Ungrouped(s);
  }

  lemma {:induction false} RestIsGrouped(s: string, n: nat)
    requires Grouped(s) && n < |s| && s[n] == '_'
    ensures 0 < n && Grouped(s[n + 1..]) && s == s[..n] + "_" + s[n + 1..]
  {
    var rest := s[n + 1..];
    assert rest != "" ==> rest[0] == s[n + 1] && rest[|rest| - 1] == s[|s| - 1];
    assert forall i :: 0 <= i < |rest| ==> rest[i] == s[n + 1 + i];
  }

  lemma {:induction false} GroupsMore(g: string, groups: seq<string>)
    requires g != "" && AllHexDigits(g) && HexGroups(groups)
    ensures HexGroups([g] + groups) && Join([g] + groups, "_") == g + "_" + Join(groups, "_")
  {
    JoinCons(g, groups, "_");
  }

  /** Grouped digits are joined groups. */
  lemma {:induction false} GroupedIsJoined(s: string) returns (groups: seq<string>)
    requires Grouped(s)
    ensures HexGroups(groups) && s == Join(groups, "_")
    decreases |s|
  {
    var n := Run(s, IsHexDigit);
    if n == |s| {
      groups := [s];
    } else {
      RestIsGrouped(s, n);
      groups := GroupedIsJoined(s[n + 1..]);
      GroupsMore(s[..n], groups);
      groups := [s[..n]] + groups;
    }
  }

  lemma {:induction false} PrefixIsDropped(prefix: string, s: string)
    requires prefix == "" || prefix == "0x" || prefix == "0X" || prefix == "0x_" || prefix == "0X_"
    requires Grouped(s)
    ensures Unprefixed(prefix + s) == s
  {
    var t := prefix + s;
    if prefix == "" {
      assert t == s;
    } else {
      assert t[0] == '0' && t[1] == prefix[1];
      assert |prefix| == 2 ==> t[2] == s[0];
      assert t[|prefix|..] == s;
    }
  }

  lemma {:induction false} PrefixIsThere(s: string) returns (prefix: string)
    ensures prefix == "" || prefix == "0x" || prefix == "0X" || prefix == "0x_" || prefix == "0X_"
    ensures s == prefix + Unprefixed(s)
  {
    var n := |s| - |Unprefixed(s)|;
    prefix := s[..n];
    assert s == s[..n] + s[n..];
    if n == 2 {
      assert prefix == [s[0]] + [s[1]];
    } else if n == 3 {
      assert prefix == [s[0]] + [s[1]] + [s[2]];
    }
  }

  function Signed(sign: string, groups: seq<string>): int {
    var n: int := if AllHexDigits(Flat(groups)) then Hexadecimal(Flat(groups)) else 0;
    if sign == "-" then -n else n
  }

  ghost predicate HexReads(text: string, n: int) {
    exists sign, prefix, groups :: HexText(text, sign, prefix, groups) && n == Signed(sign, groups)
  }

  /** What `int(text, 16)` accepts is exactly this grammar, and its value is the digits' under the sign. */
  lemma {:induction false} HexExactly(text: string, n: int)
    ensures ParseHex(text) == Some(n) <==> HexReads(text, n)
  {
    if ParseHex(text) == Some(n) {
      ParsedIsHexText(text, n);
    }
    if HexReads(text, n) {
      var sign, prefix, groups :| HexText(text, sign, prefix, groups) && n == Signed(sign, groups);
      HexTextIsParsed(text, sign, prefix, groups);
    }
  }

  lemma {:induction false} ParsedIsHexText(text: string, n: int)
    requires ParseHex(text) == Some(n)
    ensures HexReads(text, n)
  {
    var sign := if text != "" && (text[0] == '-' || text[0] == '+') then [text[0]] else "";
    var body := text[|sign|..];
    assert text == sign + body && (sign == "" ==> body == text);
    var prefix, groups := BodyIsHexText(body);
    assert HexText(text, sign, prefix, groups);
    assert n == Signed(sign, groups);
  }

  lemma {:induction false} BodyIsHexText(body: string) returns (prefix: string, groups: seq<string>)
    requires Grouped(Unprefixed(body))
    ensures prefix == "" || prefix == "0x" || prefix == "0X" || prefix == "0x_" || prefix == "0X_"
    ensures HexGroups(groups) && body == prefix + Join(groups, "_")
    ensures AllHexDigits(Flat(groups)) && Ungrouped(Unprefixed(body)) == Flat(groups)
  {
    prefix := PrefixIsThere(body);
    groups := GroupedIsJoined(Unprefixed(body));
    JoinedIsGrouped(groups);
    FlatIsHex(groups);
  }

  lemma {:induction false} HexTextIsParsed(text: string, sign: string, prefix: string, groups: seq<string>)
    requires HexText(text, sign, prefix, groups)
    ensures ParseHex(text) == Some(Signed(sign, groups))
  {
    var digits := Join(groups, "_");
    var body := prefix + digits;
    JoinedIsGrouped(groups);
    FlatIsHex(groups);
    PrefixIsDropped(prefix, digits);
    BodyHasNoSign(prefix, digits);
    SignIsDropped(text, sign, body);
    ParsedValue(text, sign, body, digits, Flat(groups));
  }

  lemma {:induction false} BodyHasNoSign(prefix: string, digits: string)
    requires prefix == "" || prefix == "0x" || prefix == "0X" || prefix == "0x_" || prefix == "0X_"
    requires Grouped(digits)
    ensures var body := prefix + digits; body != "" && body[0] != '-' && body[0] != '+'
  {
    assert (prefix + digits)[0] == if prefix == "" then digits[0] else prefix[0];
  }

  lemma {:induction false} SignIsDropped(text: string, sign: string, body: string)
    requires text == sign + body && body != "" && body[0] != '-' && body[0] != '+'
    requires sign == "" || sign == "+" || sign == "-"
    ensures text != "" && (sign == "" ==> text == body) && (sign != "" ==> text[0] == sign[0] && text[1..] == body)
  {
  }

  lemma {:induction false} ParsedValue(text: string, sign: string, body: string, digits: string, flat: string)
    requires text != "" && (sign == "" ==> text == body && body != "" && body[0] != '-' && body[0] != '+')
    requires sign == "" || ((sign == "+" || sign == "-") && text[0] == sign[0] && text[1..] == body)
    requires Unprefixed(body) == digits && Grouped(digits) && Ungrouped(digits) == flat && AllHexDigits(flat)
    ensures ParseHex(text) == Some(if sign == "-" then -(Hexadecimal(flat) as int) else Hexadecimal(flat))
  {
  }

  // ------------------------------------------------------------------
  // Unambiguity
  // ------------------------------------------------------------------

  function Power(base: nat, k: nat): nat {
    if k == 0 then 1 else if base == 10 then 10 * Power(base, k - 1) else 16 * Power(base, k - 1)
  }

  lemma {:induction false} DigitsAreHex(s: string)
    requires AllDigits(s)
    ensures AllHexDigits(s)
  {
  }

  /** A digit string of at least `10^k` in decimal is at least `16^k` in hexadecimal. */
  lemma {:induction false} HexOutgrowsDecimal(s: string, k: nat)
    requires AllDigits(s) && AllHexDigits(s) && Decimal(s) >= Power(10, k)
    ensures Hexadecimal(s) >= Power(16, k)
    decreases |s|
  {
    if s == "" {
      PowerIsPositive(k);
    } else {
      var front := s[..|s| - 1];
      if k == 0 {
        DigitsBound(s);
      } else {
        HexOutgrowsDecimal(front, k - 1);
      }
    }
  }

  lemma {:induction false} PowerIsPositive(k: nat)
    ensures Power(10, k) >= 1
  {
    if k > 0 {
      PowerIsPositive(k - 1);
    }
  }

  lemma {:induction false} DigitsBound(s: string)
    requires AllDigits(s) && AllHexDigits(s)
    ensures Hexadecimal(s) >= Decimal(s)
    decreases |s|
  {
    if s != "" {
      DigitsBound(s[..|s| - 1]);
    }
  }

  lemma {:induction false} Powers()
    ensures Power(10, 11) == 100000000000 && Power(16, 11) == 17592186044416
  {
    assert Power(10, 5) == 100000 && Power(16, 5) == 1048576;
    assert Power(10, 8) == 100000000 && Power(16, 8) == 4294967296;
  }

  /** No digit string has both readings in the plausible range. */
  lemma {:induction false} ReadingsAreDisjoint(s: string)
    requires AllDigits(s) && AllHexDigits(s)
    ensures !(Plausible(Decimal(s)) && Plausible(Hexadecimal(s)))
  {
    Powers();
    if Plausible(Decimal(s)) {
      HexOutgrowsDecimal(s, 11);
    }
  }

  lemma {:induction false} UngroupedDigits(s: string)
    requires AllHexDigits(s)
    ensures Ungrouped(s) == s
    decreases |s|
  {
    if s != "" {
      UngroupedDigits(s[..|s| - 1]);
      assert s[|s| - 1] != '_';
      assert s == s[..|s| - 1] + [s[|s| - 1]];
    }
  }

  /** Plain hexadecimal digits, in either case and with any leading zeros, are read as their value. */
  lemma {:induction false} HexIsParsed(s: string)
    requires s != "" && AllHexDigits(s)
    ensures ParseHex(s) == Some(Hexadecimal(s))
  {
    HexHasNoPrefix(s);
    HexIsGrouped(s);
    UngroupedDigits(s);
  }

  lemma {:induction false} HexHasNoPrefix(s: string)
    requires s != "" && AllHexDigits(s)
    ensures s[0] != '-' && s[0] != '+' && Unprefixed(s) == s
  {
    assert IsHexDigit(s[0]);
    assert |s| >= 2 ==> IsHexDigit(s[1]);
  }

  lemma {:induction false} HexIsGrouped(s: string)
    requires s != "" && AllHexDigits(s)
    ensures Grouped(s)
  {
    assert !IsHexDigit('_');
    assert forall i :: 0 <= i < |s| ==> s[i] != '_';
  }

  /** A text has at most one plausible reading, so the order of the candidates does not matter. */
  lemma {:induction false} OneReading(text: string, t: int, t': int)
    requires Plausible(t) && Reads(text, t) && Plausible(t') && Reads(text, t')
    ensures t == t'
  {
    if t != t' {
      DigitsAreHex(text);
      HexIsParsed(text);
      ReadingsAreDisjoint(text);
    }
  }

  // ------------------------------------------------------------------
  // Round trips
  // ------------------------------------------------------------------

  lemma {:induction false} ReadingIsDecoded(text: string, t: int)
    requires Plausible(t) && Reads(Strip(text), t)
    ensures Decoded(Some(text)) == Some(t)
  {
    OneReading(Strip(text), t, Decoded(Some(text)).value);
  }

  lemma {:induction false} DigitsAreStripped(s: string)
    requires AllHexDigits(s)
    ensures Strip(s) == s
  {
    assert s != "" ==> IsHexDigit(s[0]) && IsHexDigit(s[|s| - 1]);
    StripStripped(s);
  }

  /** Every plausible time comes back from its decimal form. */
  lemma {:induction false} DecimalRoundTrip(t: nat)
    requires Plausible(t)
    ensures Decoded(Some(Digits(t))) == Some(t)
  {
    DecimalOfDigits(t);
    DigitsAreHex(Digits(t));
    DigitsAreStripped(Digits(t));
    ReadingIsDecoded(Digits(t), t);
  }

  /** A hexadecimal digit in the case asked for. */
  function HexDigit(d: nat, upper: bool): (c: char)
    requires d < 16
    ensures DigitValue(c) == d
  {
    if d < 10 then ('0' as int + d) as char else ((if upper then 'A' else 'a') as int + d - 10) as char
  }

  /** `t` in hexadecimal with `padding` leading zeros, each digit in the case `upper` says. */
  function HexForm(t: nat, padding: nat, upper: nat -> bool): (s: string)
    ensures AllHexDigits(s)
  {
    if t == 0 then seq(padding, _ => '0') else HexForm(t / 16, padding, upper) + [HexDigit(t % 16, upper(t))]
  }

  lemma {:induction false} ZerosAreNothing(padding: nat)
    ensures Hexadecimal(seq(padding, _ => '0')) == 0
  {
    if padding > 0 {
      var s: string := seq(padding, _ => '0');
      assert s[..padding - 1] == seq(padding - 1, _ => '0');
      ZerosAreNothing(padding - 1);
    }
  }

  lemma {:induction false} HexFormValue(t: nat, padding: nat, upper: nat -> bool)
    ensures Hexadecimal(HexForm(t, padding, upper)) == t
    ensures t > 0 ==> HexForm(t, padding, upper) != ""
  {
    if t == 0 {
      ZerosAreNothing(padding);
    } else {
      var s := HexForm(t, padding, upper);
      HexFormValue(t / 16, padding, upper);
      assert s[..|s| - 1] == HexForm(t / 16, padding, upper);
    }
  }

  /** Every plausible time comes back from its hexadecimal form, whatever the padding and the letters' case. */
  lemma {:induction false} HexRoundTrip(t: nat, padding: nat, upper: nat -> bool)
    requires Plausible(t)
    ensures Decoded(Some(HexForm(t, padding, upper))) == Some(t)
  {
    var s := HexForm(t, padding, upper);
    HexFormValue(t, padding, upper);
    HexIsParsed(s);
    DigitsAreStripped(s);
    ReadingIsDecoded(s, t);
  }

  // ------------------------------------------------------------------
  // The log-window anchor
  // ------------------------------------------------------------------

  datatype DltHeaders = DltHeaders(originalTimestampMs: Option<int>, backoffTimestampMs: Option<int>)

  /** Python's `a or b` on optional integers: zero counts as missing. */
  function Or(a: Option<int>, b: Option<int>): Option<int> {
    if a.Some? && a.value != 0 then a else b
  }

  function LastAttemptMs(headers: DltHeaders): Option<int> {
    Or(headers.backoffTimestampMs, headers.originalTimestampMs)
  }

  predicate AnchorIsFallback(headers: DltHeaders) {
    headers.backoffTimestampMs.None?
  }

  method ParseHeaders(original: Option<string>, backoff: Option<string>) returns (headers: DltHeaders)
    ensures headers == DltHeaders(Decoded(original), Decoded(backoff))
  {
    var o := DecodeEpochMs(original);
    var b := DecodeEpochMs(backoff);
    headers := DltHeaders(o, b);
  }

  /**
   A decoded time is never zero, so `or` falls back exactly when the backoff header did not decode; the
   anchor is missing exactly when neither header decoded.
   */
  lemma {:induction false} FallbackIsANoneTest(original: Option<string>, backoff: Option<string>)
    ensures var headers := DltHeaders(Decoded(original), Decoded(backoff));
            && (LastAttemptMs(headers) == if AnchorIsFallback(headers) then Decoded(original) else Decoded(backoff))
            && (LastAttemptMs(headers).None? <==> Decoded(original).None? && Decoded(backoff).None?)
            && (LastAttemptMs(headers).Some? ==> Plausible(LastAttemptMs(headers).value))
  {
  }
}
