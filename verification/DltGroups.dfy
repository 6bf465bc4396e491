/**
 The durable record of one failure mode (src/dlt/groups.py): how often it was seen, which cases belong
 to it, and the recommendation an earlier investigation left. The store is updated in place under a
 lock, so each method is one atomic step. A load that fails reads as "no record yet".
 */
module DltGroups {
  import opened Options
  import opened DltFindings

  datatype RecommendationState = NoRecommendation | Draft | Final

  datatype Group = Group(
    occurrences: nat, members: seq<string>,
    recommendation: Option<Finding>, state: RecommendationState,
    history: map<Verdict, nat>,
    signature: string, failureClass: FailureClass, businessCode: Option<string>,
    firstSeen: Option<real>, lastSeen: Option<real>)

  const BLANK := Group(0, [], None, NoRecommendation, map[], "", Unclassified, None, None, None)

  /** One call of `record_occurrence`, with the cap and the clock it read. */
  datatype Occurrence = Occurrence(
    caseId: string, signature: string, failureClass: FailureClass, businessCode: Option<string>,
    verdict: Option<Verdict>, cap: nat, now: real)

  function Count(history: map<Verdict, nat>, verdict: Verdict): nat {
    if verdict in history then history[verdict] else 0
  }

  /** The last `cap` members. */
  function Latest(members: seq<string>, cap: nat): seq<string>
    decreases |members|
  {
    if |members| <= cap then members else Latest(members[1..], cap)
  }

  /** They are what a slice from the end takes. */
  lemma {:induction false} LatestIsSlice(members: seq<string>, cap: nat)
    requires |members| > cap
    ensures Latest(members, cap) == members[|members| - cap..]
    decreases |members|
  {
    if |members| - 1 > cap {
      LatestIsSlice(members[1..], cap);
    }
  }

  lemma {:induction false} LatestFits(members: seq<string>, cap: nat)
    ensures |Latest(members, cap)| == if |members| <= cap then |members| else cap
    decreases |members|
  {
    if |members| > cap {
      LatestFits(members[1..], cap);
    }
  }

  lemma {:induction false} LatestIn(members: seq<string>, cap: nat, m: string)
    requires m in Latest(members, cap)
    ensures m in members
    decreases |members|
  {
    if |members| > cap {
      LatestIn(members[1..], cap, m);
    }
  }

  lemma {:induction false} LatestIsDistinct(members: seq<string>, cap: nat)
    requires Distinct(members)
    ensures Distinct(Latest(members, cap))
    decreases |members|
  {
    if |members| > cap {
      LatestIsDistinct(members[1..], cap);
    }
  }

  /** The group after one more call. A case that is already a member counts nothing. */
  function Recorded(g: Group, o: Occurrence): Group {
    var known := o.caseId in g.members;
    g.(occurrences := if known then g.occurrences else g.occurrences + 1,
       members := if known then g.members else Latest(g.members + [o.caseId], o.cap),
       history := if known || o.verdict.None? then g.history
                  else g.history[o.verdict.value := Count(g.history, o.verdict.value) + 1],
       signature := if o.signature != "" then o.signature else g.signature,
       failureClass := o.failureClass,
       businessCode := if o.businessCode.Some? && o.businessCode.value != "" then o.businessCode else g.businessCode,
       firstSeen := if g.firstSeen.Some? && g.firstSeen.value != 0.0 then g.firstSeen else Some(o.now),
       lastSeen := Some(o.now))
  }

  function Attached(g: Group, recommendation: Finding): Group {
    g.(recommendation := Some(recommendation), state := Draft)
  }

  predicate Usable(g: Group) {
    g.recommendation.Some? && (g.state == Draft || g.state == Final)
  }

  class GroupStore {
    var groups: map<string, Group>

    ghost function Of(fingerprint: string): Group
      reads this
    {
      if fingerprint in groups then groups[fingerprint] else BLANK
    }

    constructor ()
      ensures forall fingerprint :: Of(fingerprint) == BLANK
    {
      groups := map[];
    }

    /** `readable` says whether the storage layer could load the record. */
    method LoadGroup(fingerprint: string, readable: bool) returns (g: Option<Group>)
      ensures g.Some? <==> readable && fingerprint != "" && fingerprint in groups
      ensures g.Some? ==> g.value == Of(fingerprint)
    {
      g := if fingerprint == "" || !readable || fingerprint !in groups then None else Some(groups[fingerprint]);
    }

    method RecordOccurrence(fingerprint: string, o: Occurrence, readable: bool) returns (group: Group)
      requires fingerprint != "" && o.cap >= 1
      modifies this
      ensures group == Of(fingerprint) == Recorded(if readable then old(Of(fingerprint)) else BLANK, o)
      ensures groups == old(groups)[fingerprint := group]
    {
      var loaded := LoadGroup(fingerprint, readable);
      group := if loaded.Some? then loaded.value else BLANK;
      var alreadyMember := o.caseId in group.members;
      if !alreadyMember {
        var members := group.members + [o.caseId];
        if |members| > o.cap {
          LatestIsSlice(members, o.cap);
        }
        group := group.(occurrences := group.occurrences + 1,
                        members := if |members| > o.cap then members[|members| - o.cap..] else members);
      }
      group := group.(
        signature := if o.signature != "" then o.signature else group.signature,
        failureClass := o.failureClass,
        businessCode :=
          if o.businessCode.Some? && o.businessCode.value != "" then o.businessCode else group.businessCode,
        firstSeen := if group.firstSeen.Some? && group.firstSeen.value != 0.0 then group.firstSeen else Some(o.now),
        lastSeen := Some(o.now));
      if o.verdict.Some? && !alreadyMember {
        group := group.(history := group.history[o.verdict.value := Count(group.history, o.verdict.value) + 1]);
      }
      groups := groups[fingerprint := group];
    }

    method AttachRecommendation(fingerprint: string, recommendation: Finding, readable: bool) returns (group: Group)
      requires fingerprint != ""
      modifies this
      ensures group == Of(fingerprint) == Attached(if readable then old(Of(fingerprint)) else BLANK, recommendation)
      ensures group.recommendation == Some(recommendation) && group.state == Draft
      ensures readable ==> SameAccount(group, old(Of(fingerprint)))
      ensures groups == old(groups)[fingerprint := group]
    {
      var loaded := LoadGroup(fingerprint, readable);
      group := if loaded.Some? then loaded.value else BLANK;
      group := group.(recommendation := Some(recommendation), state := Draft);
      groups := groups[fingerprint := group];
    }
  }

  // ------------------------------------------------------------------
  // Conservation over any run of calls
  // ------------------------------------------------------------------

  function RecordAll(g: Group, calls: seq<Occurrence>): Group {
    if calls == [] then g else Recorded(RecordAll(g, calls[..|calls| - 1]), calls[|calls| - 1])
  }

  function Cases(calls: seq<Occurrence>): set<string> {
    set o | o in calls :: o.caseId
  }

  function HistoryTotal(history: map<Verdict, nat>): nat {
    Count(history, Corroborated) + Count(history, Partial) + Count(history, Contradicted) + Count(history, Unverifiable)
  }

  predicate Distinct(s: seq<string>) {
    forall i, j :: 0 <= i < j < |s| ==> s[i] != s[j]
  }

  /** Call `k` counts a case that was counted before: the cap had pushed it out of the members. */
  predicate Recount(calls: seq<Occurrence>, k: nat)
    requires k < |calls|
  {
    calls[k].caseId in Cases(calls[..k]) && calls[k].caseId !in RecordAll(BLANK, calls[..k]).members
  }

  function Recounts(calls: seq<Occurrence>): nat {
    if calls == [] then 0
    else Recounts(calls[..|calls| - 1]) + if Recount(calls, |calls| - 1) then 1 else 0
  }

  /**
   What every run of calls keeps: the members are distinct, recorded cases, no more than any cap allows
   and no more than the count; and the verdict history adds up to the count when every call gave one.
   */
  lemma {:induction false} GroupConservation(calls: seq<Occurrence>, cap: nat)
    requires forall o :: o in calls ==> 1 <= o.cap <= cap
    ensures var g := RecordAll(BLANK, calls);
            && Distinct(g.members) && (forall m :: m in g.members ==> m in Cases(calls))
            && |g.members| <= cap && |g.members| <= g.occurrences
            && ((forall o :: o in calls ==> o.verdict.Some?) ==> HistoryTotal(g.history) == g.occurrences)
  {
    if calls != [] {
      var init, last := calls[..|calls| - 1], calls[|calls| - 1];
      assert calls == init + [last];
      GroupConservation(init, cap);
      assert Cases(calls) == Cases(init) + {last.caseId};
      RecordedMembers(RecordAll(BLANK, init), last, cap);
      if last.verdict.Some? {
        RecordedHistory(RecordAll(BLANK, init), last);
      }
    }
  }

  lemma {:induction false} RecordedMembers(g: Group, o: Occurrence, cap: nat)
    requires Distinct(g.members) && |g.members| <= cap && |g.members| <= g.occurrences && 1 <= o.cap <= cap
    ensures var r := Recorded(g, o);
            && Distinct(r.members) && |r.members| <= cap && |r.members| <= r.occurrences
            && (forall m :: m in r.members ==> m in g.members || m == o.caseId)
  {
    if o.caseId !in g.members {
      var longer := g.members + [o.caseId];
      LatestFits(longer, o.cap);
      LatestIsDistinct(longer, o.cap);
      forall m | m in Latest(longer, o.cap) ensures m in g.members || m == o.caseId {
        LatestIn(longer, o.cap, m);
      }
    }
  }

  lemma {:induction false} RecordedHistory(g: Group, o: Occurrence)
    requires o.verdict.Some?
    ensures HistoryTotal(Recorded(g, o).history) - HistoryTotal(g.history) ==
            Recorded(g, o).occurrences - g.occurrences
  {
    assert forall v :: Count(Recorded(g, o).history, v) ==
                       Count(g.history, v) + if o.caseId !in g.members && v == o.verdict.value then 1 else 0;
  }

  /**
   The count is the number of distinct cases plus the recounts, so it equals the number of distinct
   cases exactly when no case came back after the cap had dropped it.
   */
  lemma {:induction false} CountIsDistinctPlusRecounts(calls: seq<Occurrence>)
    ensures RecordAll(BLANK, calls).occurrences == |Cases(calls)| + Recounts(calls)
    ensures forall m :: m in RecordAll(BLANK, calls).members ==> m in Cases(calls)
  {
    if calls != [] {
      var n := |calls| - 1;
      CountIsDistinctPlusRecounts(calls[..n]);
      CasesMore(calls);
      RecordedCount(RecordAll(BLANK, calls[..n]), calls[n], Cases(calls[..n]));
    } else {
      assert Cases(calls) == {};
    }
  }

  lemma {:induction false} CasesMore(calls: seq<Occurrence>)
    requires calls != []
    ensures var n := |calls| - 1; Cases(calls) == Cases(calls[..n]) + {calls[n].caseId}
  {
    var n := |calls| - 1;
    assert calls == calls[..n] + [calls[n]];
  }

  lemma {:induction false} RecordedCount(g: Group, o: Occurrence, cases: set<string>)
    requires forall m :: m in g.members ==> m in cases
    ensures var r := Recorded(g, o);
            && r.occurrences == g.occurrences + (if o.caseId in g.members then 0 else 1)
            && (forall m :: m in r.members ==> m in cases + {o.caseId})
    ensures |cases + {o.caseId}| == |cases| + if o.caseId in cases then 0 else 1
  {
    if o.caseId in cases {
      assert cases + {o.caseId} == cases;
    }
    forall m | m in Recorded(g, o).members ensures m in cases + {o.caseId} {
      if o.caseId !in g.members {
        LatestIn(g.members + [o.caseId], o.cap, m);
      }
    }
  }

  // ------------------------------------------------------------------
  // What the record says of its calls
  // ------------------------------------------------------------------

  /** How many counted calls had the verdict: those of cases that were no member at the time. */
  function CountedWith(calls: seq<Occurrence>, verdict: Verdict): nat {
    if calls == [] then 0
    else
      var n := |calls| - 1;
      CountedWith(calls[..n], verdict) +
      if calls[n].caseId !in RecordAll(BLANK, calls[..n]).members && calls[n].verdict == Some(verdict) then 1 else 0
  }

  /** The history holds, verdict by verdict, the counted calls that had it. */
  lemma {:induction false} HistoryIsPerVerdict(calls: seq<Occurrence>, verdict: Verdict)
    ensures Count(RecordAll(BLANK, calls).history, verdict) == CountedWith(calls, verdict)
    decreases |calls|
  {
    if calls != [] {
      HistoryIsPerVerdict(calls[..|calls| - 1], verdict);
    }
  }

  /** The latest of the calls that named a signature, if any did. */
  predicate LatestNamed(calls: seq<Occurrence>, k: nat) {
    k < |calls| && calls[k].signature != "" && forall i :: k < i < |calls| ==> calls[i].signature == ""
  }

  predicate HasCode(o: Occurrence) {
    o.businessCode.Some? && o.businessCode.value != ""
  }

  predicate LatestCoded(calls: seq<Occurrence>, k: nat) {
    k < |calls| && HasCode(calls[k]) && forall i :: k < i < |calls| ==> !HasCode(calls[i])
  }

  /** A group is seen first at its first call, if that has a time, and last at its last, whose class it takes. */
  lemma {:induction false} SeenFirstAndLast(calls: seq<Occurrence>)
    requires calls != [] && calls[0].now != 0.0
    ensures var g := RecordAll(BLANK, calls);
            && g.firstSeen == Some(calls[0].now) && g.lastSeen == Some(calls[|calls| - 1].now)
            && g.failureClass == calls[|calls| - 1].failureClass
    decreases |calls|
  {
    if |calls| > 1 {
      SeenFirstAndLast(calls[..|calls| - 1]);
    } else {
      assert calls[..0] == [];
    }
  }

  /** Signature and code are the latest that a call named. */
  lemma {:induction false} LatestNameStands(calls: seq<Occurrence>, k: nat)
    ensures LatestNamed(calls, k) ==> RecordAll(BLANK, calls).signature == calls[k].signature
    ensures LatestCoded(calls, k) ==> RecordAll(BLANK, calls).businessCode == calls[k].businessCode
    decreases |calls|
  {
    if k < |calls| - 1 {
      var init := calls[..|calls| - 1];
      LatestNameStands(init, k);
      assert LatestNamed(calls, k) ==> LatestNamed(init, k);
      assert LatestCoded(calls, k) ==> LatestCoded(init, k);
    }
  }

  // ------------------------------------------------------------------
  // Runs in which a load may fail
  // ------------------------------------------------------------------

  datatype Call =
    | Recording(o: Occurrence, readable: bool)
    | Attaching(finding: Finding, readable: bool)

  function AfterCall(g: Group, c: Call): Group {
    var loaded := if c.readable then g else BLANK;
    match c
    case Recording(o, _) => Recorded(loaded, o)
    case Attaching(finding, _) => Attached(loaded, finding)
  }

  function AfterCalls(calls: seq<Call>): Group {
    if calls == [] then BLANK else AfterCall(AfterCalls(calls[..|calls| - 1]), calls[|calls| - 1])
  }

  function Occurrences(calls: seq<Call>): seq<Occurrence> {
    if calls == [] then []
    else
      var n := |calls| - 1;
      Occurrences(calls[..n]) + if calls[n].Recording? then [calls[n].o] else []
  }

  /** Where the calls since the last failed load begin, that call included. */
  function ResetAt(calls: seq<Call>): (k: nat)
    ensures k <= |calls|
  {
    if calls == [] then 0
    else
      var n := |calls| - 1;
      if calls[n].readable then ResetAt(calls[..n]) else n
  }

  lemma {:induction false} ResetIsLastFailure(calls: seq<Call>)
    ensures var k := ResetAt(calls);
            && (k == 0 || (k < |calls| && !calls[k].readable))
            && forall i :: k < i < |calls| ==> calls[i].readable
    decreases |calls|
  {
    if calls != [] {
      var n := |calls| - 1;
      ResetIsLastFailure(calls[..n]);
      forall i | ResetAt(calls) < i < |calls| ensures calls[i].readable {
        assert i < n ==> calls[..n][i] == calls[i];
      }
    }
  }

  /** The two groups differ in nothing but the recommendation. */
  predicate SameAccount(a: Group, b: Group) {
    a == b.(recommendation := a.recommendation, state := a.state)
  }

  /** A failed load starts the account anew: it is that of the calls since. */
  lemma {:induction false} AccountIsSinceReset(calls: seq<Call>)
    ensures SameAccount(AfterCalls(calls), RecordAll(BLANK, Occurrences(calls[ResetAt(calls)..])))
    decreases |calls|
  {
    if calls != [] {
      var n, k := |calls| - 1, ResetAt(calls);
      AccountIsSinceReset(calls[..n]);
      if calls[n].readable {
        LaterCalls(calls, k);
        OneMoreCall(AfterCalls(calls[..n]), Occurrences(calls[k..n]), calls[n]);
      } else {
        LaterCalls(calls, n);
        OneMoreCall(BLANK, [], calls[n]);
      }
    }
  }

  /** A call does the same to the account of a group and to a history with that account. */
  lemma {:induction false} OneMoreCall(g: Group, earlier: seq<Occurrence>, c: Call)
    requires SameAccount(if c.readable then g else BLANK, RecordAll(BLANK, earlier))
    ensures SameAccount(AfterCall(g, c), RecordAll(BLANK, earlier + if c.Recording? then [c.o] else []))
  {
    if c.Recording? {
      RecordOneMore(earlier, c.o);
    } else {
      assert earlier + [] == earlier;
    }
  }

  lemma {:induction false} LaterCalls(calls: seq<Call>, k: nat)
    requires calls != [] && k <= |calls| - 1
    ensures var n := |calls| - 1;
            && calls[..n][k..] == calls[k..n] && calls[n..n] == []
            && Occurrences(calls[k..]) == Occurrences(calls[k..n]) + if calls[n].Recording? then [calls[n].o] else []
  {
    var n := |calls| - 1;
    assert calls[k..][..n - k] == calls[k..n] && calls[k..][n - k] == calls[n];
    assert calls[n..n] == [];
  }

  /**
   Whatever loads fail and whatever is attached in between: members distinct, recorded, within the cap and the
   count; the history adds up to the count; and the count is distinct cases plus recounts of the calls since the
   last failed load.
   */
  lemma {:induction false} ConservationAcrossFailedLoads(calls: seq<Call>, cap: nat)
    requires forall c :: c in calls && c.Recording? ==> 1 <= c.o.cap <= cap
    ensures var g, since := AfterCalls(calls), Occurrences(calls[ResetAt(calls)..]);
            && Distinct(g.members) && (forall m :: m in g.members ==> m in Cases(Occurrences(calls)))
            && |g.members| <= cap && |g.members| <= g.occurrences
            && ((forall o :: o in since ==> o.verdict.Some?) ==> HistoryTotal(g.history) == g.occurrences)
            && g.occurrences == |Cases(since)| + Recounts(since)
  {
    var k := ResetAt(calls);
    var since := Occurrences(calls[k..]);
    forall o | o in since ensures 1 <= o.cap <= cap && o in Occurrences(calls) {
      var c := OccurrenceOf(calls[k..], o);
      assert c in calls;
      OccurrenceIn(calls, c);
    }
    AccountIsSinceReset(calls);
    GroupConservation(since, cap);
    CountIsDistinctPlusRecounts(since);
  }

  lemma {:induction false} OccurrenceOf(calls: seq<Call>, o: Occurrence) returns (c: Call)
    requires o in Occurrences(calls)
    ensures c in calls && c.Recording? && c.o == o
    decreases |calls|
  {
    var n := |calls| - 1;
    if calls[n].Recording? && calls[n].o == o {
      c := calls[n];
    } else {
      c := OccurrenceOf(calls[..n], o);
    }
  }

  lemma {:induction false} OccurrenceIn(calls: seq<Call>, c: Call)
    requires c in calls && c.Recording?
    ensures c.o in Occurrences(calls)
    decreases |calls|
  {
    var n := |calls| - 1;
    if c != calls[n] {
      assert calls == calls[..n] + [calls[n]];
      OccurrenceIn(calls[..n], c);
    }
  }

  /** While the distinct cases fit the smallest cap in use nothing is dropped, so the count is exact. */
  lemma {:induction false} CountIsExactWithinCap(calls: seq<Occurrence>, cap: nat)
    requires forall o :: o in calls ==> cap <= o.cap
    requires |Cases(calls)| <= cap
    ensures RecordAll(BLANK, calls).occurrences == |Cases(calls)| == |RecordAll(BLANK, calls).members|
    ensures forall c :: c in Cases(calls) <==> c in RecordAll(BLANK, calls).members
  {
    if calls != [] {
      var init, last := calls[..|calls| - 1], calls[|calls| - 1];
      assert calls == init + [last];
      assert Cases(calls) == Cases(init) + {last.caseId};
      if last.caseId in Cases(init) {
        assert Cases(calls) == Cases(init);
      }
      CountIsExactWithinCap(init, cap);
    } else {
      assert Cases(calls) == {};
    }
  }

  /** With a cap of one, a case redelivered after another is counted twice. */
  lemma {:induction false} RedeliveryBeyondCapIsCountedTwice(a: Occurrence, b: Occurrence)
    requires a.cap == b.cap == 1 && a.caseId != b.caseId
    ensures RecordAll(BLANK, [a] + [b] + [a]).occurrences == 3
    ensures Cases([a] + [b] + [a]) == {a.caseId, b.caseId}
  {
    RecordOneMore([a], b);
    RecordOneMore([a] + [b], a);
    DroppedMember(a, b);
    ThreeCases(a, b);
  }

  lemma {:induction false} LatestOne(s: seq<string>, c: string)
    ensures Latest(s + [c], 1) == [c]
    decreases |s|
  {
    if s != [] {
      assert (s + [c])[1..] == s[1..] + [c];
      LatestOne(s[1..], c);
    }
  }

  lemma {:induction false} RecordedAlone(g: Group, o: Occurrence)
    requires o.cap == 1 && o.caseId !in g.members
    ensures Recorded(g, o).occurrences == g.occurrences + 1 && Recorded(g, o).members == [o.caseId]
  {
    LatestOne(g.members, o.caseId);
  }

  lemma {:induction false} DroppedMember(a: Occurrence, b: Occurrence)
    requires a.cap == b.cap == 1 && a.caseId != b.caseId
    ensures Recorded(Recorded(Recorded(BLANK, a), b), a).occurrences == 3
  {
    var one := Recorded(BLANK, a);
    RecordedAlone(BLANK, a);
    RecordedAlone(one, b);
    RecordedAlone(Recorded(one, b), a);
  }

  lemma {:induction false} ThreeCases(a: Occurrence, b: Occurrence)
    ensures Cases([a] + [b] + [a]) == {a.caseId, b.caseId}
  {
  }

  lemma {:induction false} RecordOneMore(calls: seq<Occurrence>, o: Occurrence)
    ensures RecordAll(BLANK, calls + [o]) == Recorded(RecordAll(BLANK, calls), o)
  {
    assert (calls + [o])[..|calls|] == calls;
  }
}
