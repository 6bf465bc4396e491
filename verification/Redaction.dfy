/**
 Redaction with an allowlist (src/log_pipeline/redaction.py): allowlisted values are stashed behind
 sentinels, the patterns are substituted, and the values are restored.
 */
module Redaction {
  import opened Text
  import opened Numerals
  import opened RedactionPatterns

  // ------------------------------------------------------------------
  // The three loops, as functions
  // ------------------------------------------------------------------

  function Mark(k: nat): string {
    "ALLOW" + Digits(k)
  }

  /** The sentinel for the value of index `k`. */
  function Token(k: nat): string {
    [NUL] + Mark(k) + [NUL]
  }

  function NonEmpty(allowlist: seq<string>): seq<string> {
    if allowlist == [] then []
    else
      var n := |allowlist| - 1;
      NonEmpty(allowlist[..n]) + if allowlist[n] != "" then [allowlist[n]] else []
  }

  /** The text with the values replaced by their sentinels, one value after another. */
  function Stash(text: string, values: seq<string>): string {
    if values == [] then text
    else
      var n := |values| - 1;
      var t := Stash(text, values[..n]);
      if values[n] != "" then Replace(t, values[n], Token(n)) else t
  }

  /** The indices and values that were found and stashed, in order. */
  function Stashed(text: string, values: seq<string>): seq<(nat, string)> {
    if values == [] then []
    else
      var n := |values| - 1;
      Stashed(text, values[..n]) + if Contains(Stash(text, values[..n]), values[n]) then [(n, values[n])] else []
  }

  function Scrubbed(ps: seq<Pattern>, s: string, beyond: char -> bool): string {
    if ps == [] then s else Scrub(ps[|ps| - 1], Scrubbed(ps[..|ps| - 1], s, beyond), beyond)
  }

  /** The hits of all patterns of one name. */
  function Tally(ps: seq<Pattern>, s: string, name: string, beyond: char -> bool): nat {
    if ps == [] then 0
    else
      var n := |ps| - 1;
      Tally(ps[..n], s, name, beyond) +
      if ps[n].name == name then Hits(ps[n], Scrubbed(ps[..n], s, beyond), beyond) else 0
  }

  function Restore(text: string, stashed: seq<(nat, string)>): string
    decreases |stashed|
  {
    if stashed == [] then text else Restore(Replace(text, Token(stashed[0].0), stashed[0].1), stashed[1..])
  }

  function RedactedText(text: string, values: seq<string>, ps: seq<Pattern>, beyond: char -> bool): string {
    Restore(Scrubbed(ps, Stash(text, values), beyond), Stashed(text, values))
  }

  function Count(counts: map<string, nat>, name: string): nat {
    if name in counts then counts[name] else 0
  }

  /** `counts` holds exactly the names with hits. */
  ghost predicate Counted(counts: map<string, nat>, ps: seq<Pattern>, s: string, beyond: char -> bool) {
    && (forall name :: Count(counts, name) == Tally(ps, s, name, beyond))
    && (forall name :: name in counts ==> counts[name] > 0)
  }

  /** Redacts one text; `counts` says how often each pattern hit. */
  method RedactText(text: string, allowlist: seq<string>, ps: seq<Pattern>, beyond: char -> bool)
    returns (redacted: string, counts: map<string, nat>)
    ensures redacted == RedactedText(text, NonEmpty(allowlist), ps, beyond)
    ensures Counted(counts, ps, Stash(text, NonEmpty(allowlist)), beyond)
  {
    ghost var values := NonEmpty(allowlist);
    counts := map[];
    if text == "" {
      forall v | v in values ensures v != "" { NonEmptyHasNoEmpty(allowlist, v); }
      EmptyStash(values);
      EmptyScrub(ps, beyond);
      return "", counts;
    }
    var stashed;
    redacted, stashed := StashAll(text, allowlist);
    redacted, counts := ScrubAll(ps, redacted, beyond);
    redacted := RestoreAll(redacted, stashed);
  }

  method StashAll(text: string, allowlist: seq<string>) returns (hidden: string, stashed: seq<(nat, string)>)
    ensures hidden == Stash(text, NonEmpty(allowlist)) && stashed == Stashed(text, NonEmpty(allowlist))
  {
    hidden := text;
    stashed := [];
    var index := 0;
    for k := 0 to |allowlist|
      invariant index == |NonEmpty(allowlist[..k])|
      invariant hidden == Stash(text, NonEmpty(allowlist[..k]))
      invariant stashed == Stashed(text, NonEmpty(allowlist[..k]))
    {
      var value := allowlist[k];
      NonEmptyMore(allowlist, k);
      if value != "" {
        StashMore(text, NonEmpty(allowlist[..k]), value);
        if Contains(hidden, value) {
          stashed := stashed + [(index, value)];
          hidden := Replace(hidden, value, Token(index));
        }
        index := index + 1;
      }
    }
    assert allowlist[..|allowlist|] == allowlist;
  }

  lemma {:induction false} StashMore(text: string, values: seq<string>, value: string)
    requires value != ""
    ensures var t := Stash(text, values); var n := |values|;
            && Stash(text, values + [value]) == (if Contains(t, value) then Replace(t, value, Token(n)) else t)
            && Stashed(text, values + [value]) ==
               Stashed(text, values) + if Contains(t, value) then [(n, value)] else []
  {
    assert (values + [value])[..|values|] == values;
    if !Contains(Stash(text, values), value) {
      ReplaceAbsent(Stash(text, values), value, Token(|values|));
    }
  }

  lemma {:induction false} NonEmptyMore(allowlist: seq<string>, k: nat)
    requires k < |allowlist|
    ensures NonEmpty(allowlist[..k + 1]) ==
            if allowlist[k] != "" then NonEmpty(allowlist[..k]) + [allowlist[k]] else NonEmpty(allowlist[..k])
  {
    assert allowlist[..k + 1][..k] == allowlist[..k];
  }

  method ScrubAll(
    ps: seq<Pattern>, text: string, beyond: char -> bool)
    returns (scrubbed: string, counts: map<string, nat>)
    ensures scrubbed == Scrubbed(ps, text, beyond)
    ensures Counted(counts, ps, text, beyond)
  {
    scrubbed := text;
    counts := map[];
    for k := 0 to |ps|
      invariant scrubbed == Scrubbed(ps[..k], text, beyond)
      invariant Counted(counts, ps[..k], text, beyond)
    {
      var p := ps[k];
      var hits := Hits(p, scrubbed, beyond);
      CountMore(counts, ps, k, text, beyond);
      scrubbed := Scrub(p, scrubbed, beyond);
      assert ps[..k + 1][..k] == ps[..k];
      if hits > 0 {
        counts := counts[p.name := Count(counts, p.name) + hits];
      }
    }
    assert ps[..|ps|] == ps;
  }

  function Added(counts: map<string, nat>, name: string, hits: nat): map<string, nat> {
    if hits > 0 then counts[name := Count(counts, name) + hits] else counts
  }

  lemma {:induction false} AddedCounts(counts: map<string, nat>, name: string, hits: nat)
    requires forall n :: n in counts ==> counts[n] > 0
    ensures var more := Added(counts, name, hits);
            && (forall n :: Count(more, n) == Count(counts, n) + if n == name then hits else 0)
            && (forall n :: n in more ==> more[n] > 0)
  {
  }

  lemma {:induction false} CountMore(
    counts: map<string, nat>, ps: seq<Pattern>, k: nat, text: string, beyond: char -> bool)
    requires k < |ps| && Counted(counts, ps[..k], text, beyond)
    ensures var hits := Hits(ps[k], Scrubbed(ps[..k], text, beyond), beyond);
            Counted(Added(counts, ps[k].name, hits), ps[..k + 1], text, beyond)
  {
    var hits := Hits(ps[k], Scrubbed(ps[..k], text, beyond), beyond);
    var more := Added(counts, ps[k].name, hits);
    AddedCounts(counts, ps[k].name, hits);
    forall name ensures Count(more, name) == Tally(ps[..k + 1], text, name, beyond) {
      TallyMore(ps, k, text, name, beyond);
    }
  }

  lemma {:induction false} TallyMore(ps: seq<Pattern>, k: nat, text: string, name: string, beyond: char -> bool)
    requires k < |ps|
    ensures Tally(ps[..k + 1], text, name, beyond) == Tally(ps[..k], text, name, beyond) +
            if ps[k].name == name then Hits(ps[k], Scrubbed(ps[..k], text, beyond), beyond) else 0
  {
    assert ps[..k + 1][..k] == ps[..k];
  }

  method RestoreAll(text: string, stashed: seq<(nat, string)>) returns (restored: string)
    ensures restored == Restore(text, stashed)
  {
    restored := text;
    for k := 0 to |stashed|
      invariant Restore(restored, stashed[k..]) == Restore(text, stashed)
    {
      assert stashed[k..][0] == stashed[k] && stashed[k..][1..] == stashed[k + 1..];
      restored := Replace(restored, Token(stashed[k].0), stashed[k].1);
    }
  }

  lemma {:induction false} EmptyStash(values: seq<string>)
    requires forall v :: v in values ==> v != ""
    ensures Stash("", values) == "" && Stashed("", values) == []
  {
    if values != [] {
      var n := |values| - 1;
      assert values[n] in values && forall v :: v in values[..n] ==> v in values;
      EmptyStash(values[..n]);
      ReplaceAbsent("", values[n], Token(n));
    }
  }

  lemma {:induction false} EmptyScrub(ps: seq<Pattern>, beyond: char -> bool)
    ensures Scrubbed(ps, "", beyond) == "" && forall name :: Tally(ps, "", name, beyond) == 0
  {
    if ps != [] {
      EmptyScrub(ps[..|ps| - 1], beyond);
    }
  }

  lemma {:induction false} NonEmptyHasNoEmpty(allowlist: seq<string>, v: string)
    requires v in NonEmpty(allowlist)
    ensures v != ""
  {
    var n := |allowlist| - 1;
    if v in NonEmpty(allowlist[..n]) {
      NonEmptyHasNoEmpty(allowlist[..n], v);
    }
  }

  // ------------------------------------------------------------------
  // Records
  // ------------------------------------------------------------------

  const MESSAGE := "message"

  function Message(record: map<string, string>): string {
    if MESSAGE in record then record[MESSAGE] else ""
  }

  /** A record with its message redacted; a record without one gets an empty message. */
  function RedactedRecord(
    record: map<string, string>, values: seq<string>, ps: seq<Pattern>, beyond: char -> bool): map<string, string> {
    record[MESSAGE := RedactedText(Message(record), values, ps, beyond)]
  }

  function TotalTally(
    records: seq<map<string, string>>, values: seq<string>, ps: seq<Pattern>, name: string, beyond: char -> bool): nat {
    if records == [] then 0
    else
      var n := |records| - 1;
      TotalTally(records[..n], values, ps, name, beyond) + Tally(ps, Stash(Message(records[n]), values), name, beyond)
  }

  ghost predicate Totalled(
    totals: map<string, nat>, records: seq<map<string, string>>, values: seq<string>, ps: seq<Pattern>,
    beyond: char -> bool)
  {
    forall name :: Count(totals, name) == TotalTally(records, values, ps, name, beyond)
  }

  lemma {:induction false} TotalledMore(
    totals: map<string, nat>, counts: map<string, nat>, sums: map<string, nat>,
    records: seq<map<string, string>>, k: nat, values: seq<string>, ps: seq<Pattern>, beyond: char -> bool)
    requires k < |records| && Totalled(totals, records[..k], values, ps, beyond)
    requires Counted(counts, ps, Stash(Message(records[k]), values), beyond)
    requires forall name :: Count(sums, name) == Count(totals, name) + Count(counts, name)
    ensures Totalled(sums, records[..k + 1], values, ps, beyond)
  {
    assert records[..k + 1][..k] == records[..k];
    forall name ensures Count(sums, name) == TotalTally(records[..k + 1], values, ps, name, beyond) {
      assert Count(sums, name) == Count(totals, name) + Count(counts, name);
    }
  }

  method AddCounts(totals: map<string, nat>, counts: map<string, nat>) returns (sums: map<string, nat>)
    ensures forall name :: Count(sums, name) == Count(totals, name) + Count(counts, name)
  {
    sums := totals;
    var names := counts.Keys;
    while names != {}
      invariant names <= counts.Keys
      invariant forall name ::
                  Count(sums, name) == Count(totals, name) + if name in names then 0 else Count(counts, name)
      decreases |names|
    {
      var name :| name in names;
      sums := sums[name := Count(sums, name) + counts[name]];
      names := names - {name};
    }
  }

  method RedactOne(
    records: array<map<string, string>>, k: nat, allowlist: seq<string>, ps: seq<Pattern>, beyond: char -> bool)
    returns (counts: map<string, nat>)
    requires k < records.Length
    modifies records
    ensures records[k] == RedactedRecord(old(records[k]), NonEmpty(allowlist), ps, beyond)
    ensures forall j :: 0 <= j < records.Length && j != k ==> records[j] == old(records[j])
    ensures Counted(counts, ps, Stash(Message(old(records[k])), NonEmpty(allowlist)), beyond)
  {
    var redacted;
    redacted, counts := RedactText(Message(records[k]), allowlist, ps, beyond);
    records[k] := records[k][MESSAGE := redacted];
  }

  /** Redacts every record's message in place and totals the hits; does nothing when redaction is disabled. */
  method RedactRecords(
    records: array<map<string, string>>, allowlist: seq<string>, ps: seq<Pattern>, enabled: bool, beyond: char -> bool)
    returns (totals: map<string, nat>)
    modifies records
    ensures !enabled ==> records[..] == old(records[..]) && totals == map[]
    ensures enabled ==> forall k :: 0 <= k < records.Length ==>
                          records[k] == RedactedRecord(old(records[k]), NonEmpty(allowlist), ps, beyond)
    ensures enabled ==> Totalled(totals, old(records[..]), NonEmpty(allowlist), ps, beyond)
  {
    totals := map[];
    if !enabled {
      return;
    }
    ghost var before := records[..];
    for k := 0 to records.Length
      invariant forall j :: 0 <= j < k ==> records[j] == RedactedRecord(before[j], NonEmpty(allowlist), ps, beyond)
      invariant forall j :: k <= j < records.Length ==> records[j] == before[j]
      invariant Totalled(totals, before[..k], NonEmpty(allowlist), ps, beyond)
    {
      var counts := RedactOne(records, k, allowlist, ps, beyond);
      var sums := AddCounts(totals, counts);
      TotalledMore(totals, counts, sums, before, k, NonEmpty(allowlist), ps, beyond);
      totals := sums;
    }
    assert before[..records.Length] == before;
  }
}
