/**
 The bounded breadth-first search for a correlation id in a decoded payload (src/dlt/payload.py).
 */
module RefIdSearch {
  import opened Options
  import opened Numerals
  import opened Text
  import opened TraceLines
  import opened BreadthFirst

  /** A decoded JSON value. A dictionary's keys are distinct, in insertion order. */
  datatype Json =
    | Null
    | Bool(b: bool)
    | Int(n: int)
    | Float(r: real)
    | Str(s: string)
    | List(items: seq<Json>)
    | Dict(entries: seq<(string, Json)>)

  const MAX_SEARCH_NODES := 2000

  const DEFAULT_REFID_KEYS: seq<string> := ["refId", "ref_id", "referenceId"]

  const DENY_KEYS: set<string> :=
    {"event_id", "eventId", "candidateRefId", "candidate_ref_id", "requestId", "request_id"}

  // ------------------------------------------------------------------
  // Keys and scalars
  // ------------------------------------------------------------------

  /** The configured keys that survive: stripped, not empty, not denied. */
  function Allowed(entries: seq<string>): seq<string> {
    if entries == [] then []
    else
      var key := Strip(entries[|entries| - 1]);
      Allowed(entries[..|entries| - 1]) + if key == "" || key in DENY_KEYS then [] else [key]
  }

  /** Keys the search accepts, given the setting's raw text. Denied keys never get through. */
  method RefIdKeys(raw: string) returns (keys: seq<string>)
    ensures keys != [] && forall key :: key in keys ==> key !in DENY_KEYS
    ensures var allowed := if Strip(raw) == "" then [] else Allowed(Split(Strip(raw), ","));
            keys == if allowed == [] then DEFAULT_REFID_KEYS else allowed
  {
    DefaultsAreAllowed();
    if Strip(raw) == "" {
      return DEFAULT_REFID_KEYS;
    }
    var entries := Split(Strip(raw), ",");
    var parsed: seq<string> := [];
    for k := 0 to |entries|
      invariant parsed == Allowed(entries[..k])
      invariant forall key :: key in parsed ==> key !in DENY_KEYS
    {
      var key := Strip(entries[k]);
      assert entries[..k + 1][..k] == entries[..k];
      if key != "" {
        if key !in DENY_KEYS {
          parsed := parsed + [key];
        }
      }
    }
    assert entries[..|entries|] == entries;
    keys := if parsed != [] then parsed else DEFAULT_REFID_KEYS;
  }

  /** An entry counts, trimmed and in its place, unless it is blank or denied. */
  lemma {:induction false} AllowedExactly(before: seq<string>, entry: string, after: seq<string>)
    ensures var key := Strip(entry);
            Allowed(before + ([entry] + after)) ==
            Allowed(before) + ((if AllSpace(entry) || key in DENY_KEYS then [] else [key]) + Allowed(after))
  {
    AllowedConcat(before, [entry] + after);
    AllowedConcat([entry], after);
    StripTrims(entry);
    assert [entry][..0] == [];
  }

  lemma {:induction false} AllowedConcat(a: seq<string>, b: seq<string>)
    ensures Allowed(a + b) == Allowed(a) + Allowed(b)
    decreases |b|
  {
    if b == [] {
      assert a + b == a;
    } else {
      var n := |b| - 1;
      assert (a + b)[..|a + b| - 1] == a + b[..n];
      AllowedConcat(a, b[..n]);
    }
  }

  lemma {:induction false} DefaultsAreAllowed()
    ensures forall key :: key in DEFAULT_REFID_KEYS ==> key !in DENY_KEYS
  {
    forall key | key in DEFAULT_REFID_KEYS ensures key !in DENY_KEYS {
      assert key[0] == 'r';
      assert |key| == 5 || |key| == 6 || |key| == 11;
    }
  }

  function IntText(n: int): string {
    if n < 0 then "-" + Digits(-n) else Digits(n)
  }

  /** The identifier a value can be: non-blank text or an integer, never a boolean or a container. */
  function Scalar(value: Json): Option<string> {
    match value
    case Int(n) => Some(Strip(IntText(n)))
    case Str(s) => if Strip(s) == "" then None else Some(Strip(s))
    case _ => None
  }

  function Lookup(entries: seq<(string, Json)>, key: string): Option<Json> {
    if entries == [] then None
    else if entries[0].0 == key then Some(entries[0].1)
    else Lookup(entries[1..], key)
  }

  /** The first wanted key with a usable scalar, in the order the keys are wanted. */
  function FirstWanted(entries: seq<(string, Json)>, wanted: seq<string>): Option<string> {
    if wanted == [] then None
    else
      var value := Lookup(entries, wanted[0]);
      if value.Some? && Scalar(value.value).Some? then Scalar(value.value) else FirstWanted(entries, wanted[1..])
  }

  function Hit(node: Json, wanted: seq<string>): Option<string> {
    if node.Dict? then FirstWanted(node.entries, wanted) else None
  }

  // ------------------------------------------------------------------
  // Containers
  // ------------------------------------------------------------------

  predicate Container(value: Json) {
    value.List? || value.Dict?
  }

  function Containers(values: seq<Json>): seq<Json> {
    if values == [] then []
    else Containers(values[..|values| - 1]) + if Container(values[|values| - 1]) then [values[|values| - 1]] else []
  }

  function Values(entries: seq<(string, Json)>): seq<Json> {
    seq(|entries|, k requires 0 <= k < |entries| => entries[k].1)
  }

  function Children(node: Json): seq<Json> {
    match node
    case List(items) => Containers(items)
    case Dict(entries) => Containers(Values(entries))
    case _ => []
  }

  // ------------------------------------------------------------------
  // The search
  // ------------------------------------------------------------------

  method FirstUsable(entries: seq<(string, Json)>, wanted: seq<string>) returns (found: Option<string>)
    ensures found == FirstWanted(entries, wanted)
  {
    for k := 0 to |wanted|
      invariant FirstWanted(entries, wanted) == FirstWanted(entries, wanted[k..])
    {
      assert wanted[k..][0] == wanted[k] && wanted[k..][1..] == wanted[k + 1..];
      var value := Lookup(entries, wanted[k]);
      if value.Some? {
        found := Scalar(value.value);
        if found.Some? {
          return;
        }
      }
    }
    found := None;
  }

  method PushContainers(queue: seq<(Json, int)>, values: seq<Json>, d: int) returns (longer: seq<(Json, int)>)
    ensures longer == queue + Tag(Containers(values), d)
  {
    longer := queue;
    for k := 0 to |values|
      invariant longer == queue + Tag(Containers(values[..k]), d)
    {
      assert values[..k + 1][..k] == values[..k];
      if Container(values[k]) {
        longer := longer + [(values[k], d)];
      }
    }
    assert values[..|values|] == values;
  }

  method PushChildren(queue: seq<(Json, int)>, node: Json, d: int) returns (longer: seq<(Json, int)>)
    ensures longer == queue + Tag(Children(node), d)
  {
    match node
    case Dict(entries) => longer := PushContainers(queue, Values(entries), d);
    case List(items) => longer := PushContainers(queue, items, d);
    case _ => longer := queue;
  }

  function Floor(maxDepth: int): nat {
    if maxDepth < 0 then 0 else maxDepth + 1
  }

  function Hits(wanted: seq<string>): Json -> Option<string> {
    node => Hit(node, wanted)
  }

  /** The first hit, in level order, among the first `MAX_SEARCH_NODES` containers no deeper than `maxDepth`. */
  function SearchResult(root: Json, wanted: seq<string>, maxDepth: int): Option<string> {
    FirstHit(Examined(root, Children, Floor(maxDepth), MAX_SEARCH_NODES), Hits(wanted))
  }

  /** Breadth first with a depth cap and a node cap. */
  method ExtractBySearch(payload: Json, wanted: seq<string>, maxDepth: int) returns (found: Option<string>)
    ensures found == SearchResult(payload, wanted, maxDepth)
  {
    var queue: seq<(Json, int)> := [(payload, 0)];
    var visited := 0;
    ghost var seen := [];
    Starts(payload, Children, Hits(wanted), Floor(maxDepth));
    while queue != []
      invariant Walking(payload, wanted, maxDepth, queue, seen)
      invariant visited == |seen| <= MAX_SEARCH_NODES
      decreases MAX_SEARCH_NODES - visited
    {
      Visit(payload, wanted, maxDepth, queue, seen);
      var (node, depth) := queue[0];
      queue := queue[1..];
      visited := visited + 1;
      if depth > maxDepth || visited > MAX_SEARCH_NODES {
        return None;
      }
      if node.Dict? {
        found := FirstUsable(node.entries, wanted);
        if found.Some? {
          return;
        }
      }
      queue := PushChildren(queue, node, depth + 1);
      seen := seen + [node];
    }
    Ends(payload, Children, Hits(wanted), Floor(maxDepth), MAX_SEARCH_NODES, seen);
    found := None;
  }

  /** The queue and the containers seen are those of the breadth-first search in mid-run. */
  ghost predicate Walking(payload: Json, wanted: seq<string>, maxDepth: int, queue: seq<(Json, int)>, seen: seq<Json>) {
    Midway(payload, Children, Hits(wanted), Floor(maxDepth), queue, seen)
  }

  /** What visiting the next container comes to. */
  lemma {:induction false} Visit(
    payload: Json, wanted: seq<string>, maxDepth: int, queue: seq<(Json, int)>, seen: seq<Json>)
    requires Walking(payload, wanted, maxDepth, queue, seen) && queue != [] && |seen| <= MAX_SEARCH_NODES
    ensures var (node, depth) := queue[0];
            if depth > maxDepth || |seen| == MAX_SEARCH_NODES then SearchResult(payload, wanted, maxDepth) == None
            else if Hit(node, wanted).Some? then SearchResult(payload, wanted, maxDepth) == Hit(node, wanted)
            else Walking(payload, wanted, maxDepth, queue[1..] + Tag(Children(node), depth + 1), seen + [node])
  {
    Step(payload, Children, Hits(wanted), Floor(maxDepth), MAX_SEARCH_NODES, queue, seen);
    DepthIsNatural(payload, Children, Hits(wanted), Floor(maxDepth), queue, seen);
  }

  // ------------------------------------------------------------------
  // Completeness and depth
  // ------------------------------------------------------------------

  /** `child` is a container directly inside `node`: an item of a list, a value of a dictionary. */
  ghost predicate Inside(child: Json, node: Json) {
    match node
    case List(items) => (child.List? || child.Dict?) && child in items
    case Dict(entries) => (child.List? || child.Dict?) && exists k :: 0 <= k < |entries| && entries[k].1 == child
    case _ => false
  }

  lemma {:induction false} ContainersIn(values: seq<Json>, v: Json)
    ensures v in Containers(values) <==> Container(v) && v in values
  {
    if values != [] {
      var n := |values| - 1;
      ContainersIn(values[..n], v);
      assert values == values[..n] + [values[n]];
    }
  }

  lemma {:induction false} ChildrenIn(node: Json, child: Json)
    ensures child in Children(node) <==> Inside(child, node)
  {
    match node
    case List(items) => ContainersIn(items, child);
    case Dict(entries) =>
      ContainersIn(Values(entries), child);
      assert forall k :: 0 <= k < |entries| ==> Values(entries)[k] == entries[k].1;
    case _ =>
  }

  /** An integer, or text that is not blank; never a boolean, a fraction or a container. */
  predicate Identifies(value: Json) {
    value.Int? || (value.Str? && exists i :: 0 <= i < |value.s| && !IsSpace(value.s[i]))
  }

  predicate IsFirstOf(entries: seq<(string, Json)>, key: string, k: nat) {
    k < |entries| && entries[k].0 == key && forall i :: 0 <= i < k ==> entries[i].0 != key
  }

  /** Entry `k` is the key's, and its value can be an identifier. */
  predicate UsableAt(entries: seq<(string, Json)>, key: string, k: nat) {
    IsFirstOf(entries, key, k) && Identifies(entries[k].1)
  }

  /** The key is there and its value can be an identifier. */
  ghost predicate Usable(entries: seq<(string, Json)>, key: string) {
    exists k: nat :: UsableAt(entries, key, k)
  }

  /** The text without the white space around it. */
  predicate Trims(s: string, lead: string, text: string, trail: string) {
    && s == lead + text + trail && AllSpace(lead) && AllSpace(trail)
    && text != "" && !IsSpace(text[0]) && !IsSpace(text[|text| - 1])
  }

  /** A numeral without leading zeros. */
  predicate Numeral(text: string, n: nat) {
    text != "" && AllDigits(text) && Decimal(text) == n && (text[0] == '0' ==> |text| == 1)
  }

  /** The identifier is the value's text, trimmed, or its integer in decimal. */
  ghost predicate Says(value: Json, text: string) {
    match value
    case Int(n) => if n >= 0 then Numeral(text, n) else text != "" && text[0] == '-' && Numeral(text[1..], -n)
    case Str(s) => exists lead, trail :: Trims(s, lead, text, trail)
    case _ => false
  }

  predicate HasScalar(entries: seq<(string, Json)>, key: string) {
    var value := Lookup(entries, key);
    value.Some? && Scalar(value.value).Some?
  }

  lemma {:induction false} LookupIsFirst(entries: seq<(string, Json)>, key: string)
    ensures Lookup(entries, key) == None <==> forall i :: 0 <= i < |entries| ==> entries[i].0 != key
    ensures forall k: nat :: IsFirstOf(entries, key, k) ==> Lookup(entries, key) == Some(entries[k].1)
  {
    if entries != [] && entries[0].0 != key {
      var rest := entries[1..];
      LookupIsFirst(rest, key);
      forall i | 0 <= i < |entries| ensures i > 0 ==> entries[i] == rest[i - 1] {
      }
      assert forall i :: 0 <= i < |rest| ==> rest[i] == entries[i + 1];
    }
  }

  lemma {:induction false} FirstEntry(entries: seq<(string, Json)>, key: string) returns (k: nat)
    requires exists i :: 0 <= i < |entries| && entries[i].0 == key
    ensures IsFirstOf(entries, key, k)
  {
    k := 0;
    while entries[k].0 != key
      invariant k < |entries| && forall i :: 0 <= i < k ==> entries[i].0 != key
      decreases |entries| - k
    {
      k := k + 1;
    }
  }

  lemma {:induction false} StripTrims(s: string)
    ensures Strip(s) == "" <==> AllSpace(s)
    ensures Strip(s) != "" ==> exists lead, trail :: Trims(s, lead, Strip(s), trail)
  {
    var lead := StripLeftCut(s);
    var rest := StripLeft(s);
    var trail := StripRightCut(rest);
    assert s == lead + Strip(s) + trail;
    if Strip(s) != "" {
      assert Strip(s)[0] == rest[0];
      assert Trims(s, lead, Strip(s), trail);
      assert s[|lead|] == rest[0];
    } else {
      assert rest == "" && s == lead;
    }
  }

  lemma {:induction false} DigitsAreNumeral(n: nat)
    ensures Numeral(Digits(n), n)
  {
    DecimalOfDigits(n);
    NoLeadingZero(n);
  }

  lemma {:induction false} NoLeadingZero(n: nat)
    ensures Digits(n)[0] == '0' ==> n == 0 && |Digits(n)| == 1
  {
    if n >= 10 {
      NoLeadingZero(n / 10);
    }
  }

  lemma {:induction false} IntTextSays(n: int)
    ensures Strip(IntText(n)) == IntText(n) != "" && Says(Int(n), IntText(n))
  {
    var text := IntText(n);
    if n >= 0 {
      DigitsAreNumeral(n);
    } else {
      DigitsAreNumeral(-n);
      assert text[1..] == Digits(-n);
      assert forall i :: 1 <= i < |text| ==> text[i] == Digits(-n)[i - 1];
    }
    StripStripped(text);
  }

  lemma {:induction false} ScalarExactly(value: Json)
    ensures Scalar(value).Some? <==> Identifies(value)
    ensures Scalar(value).Some? ==> Says(value, Scalar(value).value)
  {
    match value
    case Int(n) => IntTextSays(n);
    case Str(s) => StripTrims(s);
    case _ =>
  }

  lemma {:induction false} UsableExactly(entries: seq<(string, Json)>, key: string)
    ensures HasScalar(entries, key) <==> Usable(entries, key)
    ensures HasScalar(entries, key) ==>
              exists k: nat :: UsableAt(entries, key, k) && Lookup(entries, key) == Some(entries[k].1)
  {
    LookupIsFirst(entries, key);
    if Lookup(entries, key).Some? {
      var k := FirstEntry(entries, key);
      ScalarExactly(entries[k].1);
      assert HasScalar(entries, key) ==> UsableAt(entries, key, k);
    }
    if Usable(entries, key) {
      var k: nat :| UsableAt(entries, key, k);
      ScalarExactly(entries[k].1);
    }
  }

  /** The answer comes from the first wanted key that is usable: it is what that key's value says. */
  ghost predicate AnsweredBy(entries: seq<(string, Json)>, wanted: seq<string>, k: nat, j: nat, text: string) {
    && k < |wanted| && UsableAt(entries, wanted[k], j) && Says(entries[j].1, text)
    && forall i :: 0 <= i < k ==> !Usable(entries, wanted[i])
  }

  lemma {:induction false} FirstWantedMeaning(entries: seq<(string, Json)>, wanted: seq<string>)
    ensures FirstWanted(entries, wanted) == None <==> forall key :: key in wanted ==> !Usable(entries, key)
    ensures FirstWanted(entries, wanted).Some? ==>
              exists k, j :: AnsweredBy(entries, wanted, k, j, FirstWanted(entries, wanted).value)
  {
    NoneWanted(entries, wanted);
    forall key ensures HasScalar(entries, key) <==> Usable(entries, key) {
      UsableExactly(entries, key);
    }
    if FirstWanted(entries, wanted).Some? {
      var k := FirstUsableAt(entries, wanted);
      UsableExactly(entries, wanted[k]);
      var j: nat :| UsableAt(entries, wanted[k], j) && Lookup(entries, wanted[k]) == Some(entries[j].1);
      ScalarExactly(entries[j].1);
      assert AnsweredBy(entries, wanted, k, j, FirstWanted(entries, wanted).value);
    }
  }

  lemma {:induction false} NoneWanted(entries: seq<(string, Json)>, wanted: seq<string>)
    ensures FirstWanted(entries, wanted) == None <==> forall key :: key in wanted ==> !HasScalar(entries, key)
  {
    if wanted != [] {
      var rest := wanted[1..];
      NoneWanted(entries, rest);
      if HasScalar(entries, wanted[0]) {
        assert wanted[0] in wanted;
      } else if forall key :: key in rest ==> !HasScalar(entries, key) {
        forall key | key in wanted ensures !HasScalar(entries, key) {
          assert key == wanted[0] || key in rest;
        }
      } else {
        var key :| key in rest && HasScalar(entries, key);
        assert key in wanted;
      }
    }
  }

  lemma {:induction false} FirstUsableAt(entries: seq<(string, Json)>, wanted: seq<string>) returns (k: nat)
    requires FirstWanted(entries, wanted).Some?
    ensures k < |wanted| && HasScalar(entries, wanted[k]) && forall i :: 0 <= i < k ==> !HasScalar(entries, wanted[i])
    ensures FirstWanted(entries, wanted) == Scalar(Lookup(entries, wanted[k]).value)
  {
    if HasScalar(entries, wanted[0]) {
      k := 0;
    } else {
      var rest := wanted[1..];
      var j := FirstUsableAt(entries, rest);
      k := j + 1;
      forall i | 0 <= i < k ensures !HasScalar(entries, wanted[i]) {
        assert i > 0 ==> wanted[i] == rest[i - 1];
      }
    }
  }

  lemma {:induction false} HitMeaning(node: Json, wanted: seq<string>)
    ensures Hits(wanted)(node).Some? <==> node.Dict? && exists key :: key in wanted && Usable(node.entries, key)
  {
    if node.Dict? {
      FirstWantedMeaning(node.entries, wanted);
    }
  }

  /** `node` is reached from `root` by stepping into a container `d` times. */
  ghost predicate Within(root: Json, node: Json, d: nat)
    decreases d
  {
    if d == 0 then node == root else exists child :: Inside(child, root) && Within(child, node, d - 1)
  }

  /** Stepping into containers is what the search's levels count. */
  lemma {:induction false} WithinIsAtDepth(root: Json, node: Json, d: nat)
    ensures Within(root, node, d) <==> AtDepth(root, Children, node, d)
    decreases d
  {
    if d > 0 {
      forall child ensures Inside(child, root) <==> child in Children(root) {
        ChildrenIn(root, child);
      }
      var e: nat := d - 1;
      forall child ensures Within(child, node, e) <==> AtDepth(child, Children, node, e) {
        WithinIsAtDepth(child, node, e);
      }
    }
  }

  /** A dictionary `d` containers below the root that maps a wanted key to a usable value. */
  ghost predicate Answers(root: Json, node: Json, d: nat, wanted: seq<string>) {
    Within(root, node, d) && node.Dict? && exists key :: key in wanted && Usable(node.entries, key)
  }

  /**
   Shallowest first, whether or not the node cap bites: a returned value is the first usable wanted key's of
   a dictionary no deeper than `maxDepth`, and no dictionary nearer the root has a usable wanted key.
   */
  lemma {:induction false} SearchIsShallowest(
    root: Json, wanted: seq<string>, maxDepth: nat)
    returns (node: Json, d: nat)
    requires SearchResult(root, wanted, maxDepth).Some?
    ensures d <= maxDepth && Answers(root, node, d, wanted)
    ensures SearchResult(root, wanted, maxDepth) == FirstWanted(node.entries, wanted)
    ensures NoneAbove(root, d, wanted)
  {
    node, d := Shallowest(root, Children, Hits(wanted), maxDepth + 1, MAX_SEARCH_NODES);
    HitIsAnswer(root, wanted, node, d);
    NoHitNoneAbove(root, wanted, d);
  }

  lemma {:induction false} NoHitNoneAbove(root: Json, wanted: seq<string>, d: nat)
    requires NoHitAbove(root, Children, Hits(wanted), d)
    ensures NoneAbove(root, d, wanted)
  {
    forall other: Json, e: nat | e < d ensures !Answers(root, other, e, wanted) {
      NoAnswer(root, wanted, other, e);
    }
  }

  /** No dictionary nearer the root than `d` has a usable wanted key. */
  ghost predicate NoneAbove(root: Json, d: nat, wanted: seq<string>) {
    forall other: Json, e: nat :: e < d ==> !Answers(root, other, e, wanted)
  }

  lemma {:induction false} HitIsAnswer(root: Json, wanted: seq<string>, node: Json, d: nat)
    requires AtDepth(root, Children, node, d) && Hits(wanted)(node).Some?
    ensures Answers(root, node, d, wanted) && Hits(wanted)(node) == FirstWanted(node.entries, wanted)
  {
    WithinIsAtDepth(root, node, d);
    HitMeaning(node, wanted);
  }

  lemma {:induction false} NoAnswer(root: Json, wanted: seq<string>, other: Json, e: nat)
    requires AtDepth(root, Children, other, e) ==> Hits(wanted)(other) == None
    ensures !Answers(root, other, e, wanted)
  {
    WithinIsAtDepth(root, other, e);
    HitMeaning(other, wanted);
  }

  lemma {:induction false} AnswerIsHit(root: Json, wanted: seq<string>, node: Json, d: nat)
    requires Answers(root, node, d, wanted)
    ensures AtDepth(root, Children, node, d) && Hits(wanted)(node).Some?
  {
    WithinIsAtDepth(root, node, d);
    HitMeaning(node, wanted);
  }

  ghost predicate Answered(root: Json, wanted: seq<string>, maxDepth: nat) {
    exists node: Json, d: nat :: d <= maxDepth && Answers(root, node, d, wanted)
  }

  /**
   The search is complete: when the containers down to `maxDepth` fit the node cap, it finds something
   exactly when some dictionary at a depth of at most `maxDepth` has a usable wanted key.
   */
  lemma {:induction false} SearchIsComplete(root: Json, wanted: seq<string>, maxDepth: nat)
    requires |Above(root, Children, maxDepth + 1)| <= MAX_SEARCH_NODES
    ensures SearchResult(root, wanted, maxDepth).Some? <==> Answered(root, wanted, maxDepth)
  {
    Complete(root, Children, Hits(wanted), Floor(maxDepth), MAX_SEARCH_NODES);
    AnsweredIsHit(root, wanted, maxDepth);
  }

  lemma {:induction false} AnsweredIsHit(root: Json, wanted: seq<string>, maxDepth: nat)
    ensures HitWithin(root, Children, Hits(wanted), Floor(maxDepth)) <==> Answered(root, wanted, maxDepth)
  {
    if HitWithin(root, Children, Hits(wanted), Floor(maxDepth)) {
      var node: Json, d: nat :| d < Floor(maxDepth) && AtDepth(root, Children, node, d) && Hits(wanted)(node).Some?;
      HitIsAnswer(root, wanted, node, d);
    }
    if Answered(root, wanted, maxDepth) {
      var node: Json, d: nat :| d <= maxDepth && Answers(root, node, d, wanted);
      AnswerIsHit(root, wanted, node, d);
    }
  }
}
