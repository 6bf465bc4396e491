/**
 The round-robin merge of several services' pods, deduplicated and capped
 (src/log_pipeline/sources/k8s/discovery.py).
 */
module PodMerge {
  import opened Collections

  /** One container of a pod to read logs from. */
  datatype Target = Target(pod: (string, string), container: string)

  /** A pod with its targets: one entry of the dictionary the source groups by. */
  datatype Group = Group(pod: (string, string), targets: seq<Target>)

  // ------------------------------------------------------------------
  // One service's pods
  // ------------------------------------------------------------------

  /** The targets of one pod, in order. */
  function PodTargets(targets: seq<Target>, pod: (string, string)): seq<Target> {
    if targets == [] then []
    else
      var n := |targets| - 1;
      PodTargets(targets[..n], pod) + if targets[n].pod == pod then [targets[n]] else []
  }

  /** The pods of a target list, each once, in order of first appearance. */
  function Pods(targets: seq<Target>): seq<(string, string)> {
    if targets == [] then []
    else
      var n := |targets| - 1;
      var pods := Pods(targets[..n]);
      if targets[n].pod in pods then pods else pods + [targets[n].pod]
  }

  /** Groups holding, in order of first appearance, all the targets of each pod. */
  ghost predicate GroupedByPod(groups: seq<Group>, targets: seq<Target>) {
    && |groups| == |Pods(targets)|
    && forall k :: 0 <= k < |groups| ==> groups[k] == Group(Pods(targets)[k], PodTargets(targets, Pods(targets)[k]))
  }

  method GroupByPod(targets: seq<Target>) returns (groups: seq<Group>)
    ensures GroupedByPod(groups, targets)
  {
    groups := [];
    for n := 0 to |targets|
      invariant GroupedByPod(groups, targets[..n])
    {
      var target := targets[n];
      var k := 0;
      while k < |groups| && groups[k].pod != target.pod
        invariant 0 <= k <= |groups|
        invariant forall j :: 0 <= j < k ==> groups[j].pod != target.pod
      {
        k := k + 1;
      }
      GroupOneMore(groups, targets, n, k);
      groups := if k < |groups| then groups[k := groups[k].(targets := groups[k].targets + [target])]
                else groups + [Group(target.pod, [target])];
    }
    assert targets[..|targets|] == targets;
  }

  lemma {:induction false} PodsAreDistinct(targets: seq<Target>, i: nat, j: nat)
    requires i < j < |Pods(targets)|
    ensures Pods(targets)[i] != Pods(targets)[j]
    decreases |targets|
  {
    var n := |targets| - 1;
    if j < |Pods(targets[..n])| {
      PodsAreDistinct(targets[..n], i, j);
    }
  }

  lemma {:induction false} NewPodHasNoTargets(targets: seq<Target>, pod: (string, string))
    requires pod !in Pods(targets)
    ensures PodTargets(targets, pod) == []
    decreases |targets|
  {
    if targets != [] {
      NewPodHasNoTargets(targets[..|targets| - 1], pod);
    }
  }

  lemma {:induction false} GroupOneMore(groups: seq<Group>, targets: seq<Target>, n: nat, k: nat)
    requires n < |targets| && GroupedByPod(groups, targets[..n]) && k <= |groups|
    requires forall j :: 0 <= j < k ==> groups[j].pod != targets[n].pod
    requires k < |groups| ==> groups[k].pod == targets[n].pod
    ensures GroupedByPod(if k < |groups| then groups[k := groups[k].(targets := groups[k].targets + [targets[n]])]
                         else groups + [Group(targets[n].pod, [targets[n]])],
                         targets[..n + 1])
  {
    var before, after, target := targets[..n], targets[..n + 1], targets[n];
    assert after[..n] == before && after[n] == target;
    var pods := Pods(before);
    if k < |groups| {
      assert pods[k] == target.pod;
      forall j | 0 <= j < |groups| && j != k ensures pods[j] != target.pod {
        PodsAreDistinct(before, if j < k then j else k, if j < k then k else j);
      }
    } else {
      NewPodHasNoTargets(before, target.pod);
    }
  }

  // ------------------------------------------------------------------
  // The merge
  // ------------------------------------------------------------------

  /** The groups at one index of every service that has so many, in the services' order. */
  function Column(services: seq<seq<Group>>, index: nat): seq<Group> {
    ColumnTo(services, |services|, index)
  }

  /** The same for the first `s` services. */
  function ColumnTo(services: seq<seq<Group>>, s: nat, index: nat): seq<Group>
    requires s <= |services|
  {
    if s == 0 then []
    else ColumnTo(services, s - 1, index) + if index < |services[s - 1]| then [services[s - 1][index]] else []
  }

  /** The round-robin order: the first groups of all services, then the second ones, and so on. */
  function Columns(services: seq<seq<Group>>, count: nat): seq<Group> {
    if count == 0 then [] else Columns(services, count - 1) + Column(services, count - 1)
  }

  function Longest(services: seq<seq<Group>>): nat {
    LongestTo(services, |services|)
  }

  /** The same for the first `n` services. */
  function LongestTo(services: seq<seq<Group>>, n: nat): nat
    requires n <= |services|
  {
    if n == 0 then 0
    else if |services[n - 1]| > LongestTo(services, n - 1) then |services[n - 1]|
    else LongestTo(services, n - 1)
  }

  lemma {:induction false} LongestIsMaximum(services: seq<seq<Group>>)
    ensures forall k :: 0 <= k < |services| ==> |services[k]| <= Longest(services)
    ensures if services == [] then Longest(services) == 0
            else exists k :: 0 <= k < |services| && |services[k]| == Longest(services)
  {
    LongestToIsMaximum(services, |services|);
  }

  lemma {:induction false} LongestToIsMaximum(services: seq<seq<Group>>, n: nat)
    requires n <= |services|
    ensures forall k :: 0 <= k < n ==> |services[k]| <= LongestTo(services, n)
    ensures if n == 0 then LongestTo(services, n) == 0
            else exists k :: 0 <= k < n && |services[k]| == LongestTo(services, n)
    decreases n
  {
    if n > 0 {
      LongestToIsMaximum(services, n - 1);
      assert |services[n - 1]| <= LongestTo(services, n);
    }
  }

  function RoundRobin(services: seq<seq<Group>>): seq<Group> {
    Columns(services, Longest(services))
  }

  /** Of the groups with one pod, only the first. */
  function Firsts(groups: seq<Group>): seq<Group> {
    if groups == [] then []
    else
      var n := |groups| - 1;
      Firsts(groups[..n]) + if groups[n].pod in Keys(groups[..n]) then [] else [groups[n]]
  }

  function Keys(groups: seq<Group>): set<(string, string)> {
    set g | g in groups :: g.pod
  }

  function Flatten(groups: seq<Group>): seq<Target> {
    if groups == [] then [] else Flatten(groups[..|groups| - 1]) + groups[|groups| - 1].targets
  }

  function Limit(cap: int): nat {
    if cap < 0 then 0 else cap
  }

  datatype Ending = Exhausted | CapReached

  /** How a merge went: the groups walked, a part of the round-robin order ending in `row`, and those kept. */
  datatype Trace = Trace(services: seq<seq<Group>>, done: seq<Group>, row: nat, kept: seq<Group>, ending: Ending)

  /** The first group of every pod walked past was kept and the others counted, within the cap. */
  ghost predicate Kept(cap: int, trace: Trace, duplicates: int) {
    && Columns(trace.services, trace.row) <= trace.done <= Columns(trace.services, trace.row + 1)
    && trace.done <= RoundRobin(trace.services)
    && trace.kept == Firsts(trace.done)
    && duplicates == |trace.done| - |trace.kept|
    && (cap != 0 ==> |trace.kept| <= Limit(cap))
  }

  /** The walk went to the end, or stopped early exactly at a new pod for which there was no room left. */
  ghost predicate Outcome(cap: int, trace: Trace, duplicates: int, capped: bool) {
    match trace.ending
    case Exhausted => Kept(cap, trace, duplicates) && !capped && trace.done == RoundRobin(trace.services)
    case CapReached =>
      && Kept(cap, trace, duplicates) && capped && cap != 0 && |trace.kept| == Limit(cap)
      && |trace.done| < |RoundRobin(trace.services)|
      && RoundRobin(trace.services)[|trace.done|].pod !in Keys(trace.done)
  }

  ghost predicate AllGrouped(services: seq<seq<Group>>, perService: seq<seq<Target>>) {
    |services| == |perService| && forall k :: 0 <= k < |services| ==> GroupedByPod(services[k], perService[k])
  }

  predicate RowLeft(services: seq<seq<Group>>, index: nat) {
    exists groups :: groups in services && index < |groups|
  }

  /** The merge in mid-run: the groups walked, those kept, and the method's variables. */
  datatype Walk = Walk(
    done: seq<Group>, kept: seq<Group>, merged: seq<Target>, seen: set<(string, string)>, duplicates: int)

  /** The walk so far: `s` services of row `index`. */
  ghost predicate Walked(services: seq<seq<Group>>, cap: int, index: nat, s: nat, w: Walk) {
    match w
    case Walk(done, kept, merged, seen, duplicates) =>
      && s <= |services|
      && done == Columns(services, index) + ColumnTo(services, s, index)
      && kept == Firsts(done) && seen == Keys(done) && |seen| == |kept| && duplicates == |done| - |kept|
      && merged == Flatten(kept) && (cap != 0 ==> |kept| <= Limit(cap))
  }

  method GroupAll(perService: seq<seq<Target>>) returns (grouped: seq<seq<Group>>)
    ensures AllGrouped(grouped, perService)
  {
    grouped := [];
    for k := 0 to |perService|
      invariant AllGrouped(grouped, perService[..k])
    {
      var groups := GroupByPod(perService[k]);
      grouped := grouped + [groups];
    }
    assert perService[..|perService|] == perService;
  }

  /** The walk accounts for the method's variables. */
  predicate Accounts(w: Walk, merged: seq<Target>, seen: set<(string, string)>, duplicates: nat) {
    w.merged == merged && w.seen == seen && w.duplicates == duplicates
  }

  /** One row: the inner loop. */
  method MergeRow(
    grouped: seq<seq<Group>>, cap: int, index: nat,
    merged0: seq<Target>, seen0: set<(string, string)>, duplicates0: nat, ghost w0: Walk)
    returns (merged: seq<Target>, seen: set<(string, string)>, duplicates: nat, capped: bool, ghost w: Walk)
    requires index < Longest(grouped) && Walked(grouped, cap, index, 0, w0) && Accounts(w0, merged0, seen0, duplicates0)
    ensures Accounts(w, merged, seen, duplicates)
    ensures if capped then Ended(grouped, cap, index, w, true) else Walked(grouped, cap, index, |grouped|, w)
  {
    merged, seen, duplicates, capped, w := merged0, seen0, duplicates0, false, w0;
    for s := 0 to |grouped|
      invariant !capped && Walked(grouped, cap, index, s, w) && Accounts(w, merged, seen, duplicates)
    {
      if index >= |grouped[s]| {
        WalkSkips(grouped, cap, index, s, w);
        continue;
      }
      merged, seen, duplicates, capped, w := MergeGroup(grouped, cap, index, s, merged, seen, duplicates, w);
      if capped {
        return;
      }
    }
  }

  /** One service's group: a duplicate is counted, a new pod kept if there is room for it. */
  method MergeGroup(
    grouped: seq<seq<Group>>, cap: int, index: nat, s: nat,
    merged0: seq<Target>, seen0: set<(string, string)>, duplicates0: nat, ghost w0: Walk)
    returns (merged: seq<Target>, seen: set<(string, string)>, duplicates: nat, capped: bool, ghost w: Walk)
    requires s < |grouped| && index < |grouped[s]| && index < Longest(grouped)
    requires Walked(grouped, cap, index, s, w0) && Accounts(w0, merged0, seen0, duplicates0)
    ensures Accounts(w, merged, seen, duplicates)
    ensures if capped then Ended(grouped, cap, index, w, true) else Walked(grouped, cap, index, s + 1, w)
  {
    merged, seen, duplicates, capped, w := merged0, seen0, duplicates0, false, w0;
    WalkOne(grouped, cap, index, s, w);
    var group := grouped[s][index];
    if group.pod in seen {
      duplicates := duplicates + 1;
      w := w.(done := w.done + [group], duplicates := duplicates);
      return;
    }
    if cap != 0 && |seen| >= cap {
      StopsEarly(grouped, cap, index, s, w);
      capped := true;
      return;
    }
    seen := seen + {group.pod};
    merged := merged + group.targets;
    w := Walk(w.done + [group], w.kept + [group], merged, seen, duplicates);
  }

  /** The walk has ended in row `row`, early or not. */
  ghost predicate Ended(services: seq<seq<Group>>, cap: int, row: nat, w: Walk, capped: bool) {
    && Outcome(cap, Trace(services, w.done, row, w.kept, if capped then CapReached else Exhausted),
               w.duplicates, capped)
    && w.merged == Flatten(w.kept) && |w.seen| == |w.kept|
  }

  /**
   `cap` zero means no cap. Returns the targets, the duplicates met, whether the cap stopped it, and the pods
   kept.
   */
  method MergeRoundRobin(perService: seq<seq<Target>>, cap: int)
    returns (merged: seq<Target>, duplicates: nat, capped: bool, pods: nat, ghost trace: Trace)
    ensures AllGrouped(trace.services, perService)
    ensures Outcome(cap, trace, duplicates, capped)
    ensures merged == Flatten(trace.kept) && pods == |trace.kept|
  {
    var grouped := GroupAll(perService);
    var seen;
    ghost var w, row;
    merged, duplicates, capped, seen, w, row := WalkRows(grouped, cap);
    pods := |seen|;
    trace := Trace(grouped, w.done, row, w.kept, if capped then CapReached else Exhausted);
  }

  /** The outer loop, row by row. */
  method WalkRows(grouped: seq<seq<Group>>, cap: int)
    returns (merged: seq<Target>, duplicates: nat, capped: bool, seen: set<(string, string)>,
             ghost w: Walk, ghost row: nat)
    ensures Accounts(w, merged, seen, duplicates)
    ensures Ended(grouped, cap, row, w, capped)
  {
    seen := {};
    var index := 0;
    merged, duplicates, capped := [], 0, false;
    w := Walk([], [], [], {}, 0);
    WalkStarts(grouped, cap);
    while RowLeft(grouped, index)
      invariant index <= Longest(grouped) && !capped
      invariant Walked(grouped, cap, index, 0, w)
      invariant Accounts(w, merged, seen, duplicates)
      decreases Longest(grouped) - index
    {
      RowExists(grouped, index);
      merged, seen, duplicates, capped, w := MergeRow(grouped, cap, index, merged, seen, duplicates, w);
      if capped {
        row := index;
        return;
      }
      RowEnds(grouped, cap, index, w);
      index := index + 1;
    }
    NoRowLeft(grouped, index);
    row := index;
    WalkEnds(grouped, cap, index, w);
  }

  lemma {:induction false} WalkStarts(services: seq<seq<Group>>, cap: int)
    ensures Walked(services, cap, 0, 0, Walk([], [], [], {}, 0))
  {
  }

  lemma {:induction false} FlattenMore(kept: seq<Group>, group: Group)
    ensures Flatten(kept + [group]) == Flatten(kept) + group.targets
  {
    assert (kept + [group])[..|kept|] == kept;
  }

  lemma {:induction false} RowExists(services: seq<seq<Group>>, index: nat)
    requires RowLeft(services, index)
    ensures index < Longest(services)
  {
    LongestIsMaximum(services);
  }

  lemma {:induction false} NoRowLeft(services: seq<seq<Group>>, index: nat)
    requires !RowLeft(services, index)
    requires index <= Longest(services)
    ensures index == Longest(services)
  {
    LongestIsMaximum(services);
    if services != [] {
      var k :| 0 <= k < |services| && |services[k]| == Longest(services);
      assert services[k] in services;
    }
  }

  lemma {:induction false} FirstsMore(done: seq<Group>, group: Group)
    ensures Firsts(done + [group]) == Firsts(done) + if group.pod in Keys(done) then [] else [group]
    ensures Keys(done + [group]) == Keys(done) + {group.pod}
  {
    assert (done + [group])[..|done|] == done;
    assert forall g :: g in done + [group] <==> g in done || g == group;
  }

  lemma {:induction false} ColumnMore(services: seq<seq<Group>>, s: nat, index: nat)
    requires s < |services|
    ensures ColumnTo(services, s + 1, index) ==
            ColumnTo(services, s, index) + if index < |services[s]| then [services[s][index]] else []
  {
  }

  lemma {:induction false} WalkSkips(services: seq<seq<Group>>, cap: int, index: nat, s: nat, w: Walk)
    requires s < |services| && index >= |services[s]| && Walked(services, cap, index, s, w)
    ensures Walked(services, cap, index, s + 1, w)
  {
  }

  lemma {:induction false} WalkOne(services: seq<seq<Group>>, cap: int, index: nat, s: nat, w: Walk)
    requires s < |services| && index < |services[s]| && Walked(services, cap, index, s, w)
    ensures var group := services[s][index];
            if group.pod in w.seen then
              Walked(services, cap, index, s + 1, w.(done := w.done + [group], duplicates := w.duplicates + 1))
            else if cap != 0 && |w.seen| >= cap then true
            else
              Walked(services, cap, index, s + 1,
                     Walk(w.done + [group], w.kept + [group], w.merged + group.targets, w.seen + {group.pod},
                          w.duplicates))
  {
    ColumnMore(services, s, index);
    var group := services[s][index];
    Associate(Columns(services, index), ColumnTo(services, s, index), [group]);
    if group.pod in w.seen {
      WalkDuplicate(services, cap, index, s, w, group);
    } else if !(cap != 0 && |w.seen| >= cap) {
      WalkNew(services, cap, index, s, w, group);
    }
  }

  lemma {:induction false} WalkDuplicate(services: seq<seq<Group>>, cap: int, index: nat, s: nat, w: Walk, group: Group)
    requires s < |services| && Walked(services, cap, index, s, w) && group.pod in w.seen
    requires Columns(services, index) + ColumnTo(services, s + 1, index) == w.done + [group]
    ensures Walked(services, cap, index, s + 1, w.(done := w.done + [group], duplicates := w.duplicates + 1))
  {
    FirstsMore(w.done, group);
    assert Firsts(w.done) + [] == Firsts(w.done);
    assert w.seen + {group.pod} == w.seen;
  }

  lemma {:induction false} WalkNew(services: seq<seq<Group>>, cap: int, index: nat, s: nat, w: Walk, group: Group)
    requires s < |services| && Walked(services, cap, index, s, w) && group.pod !in w.seen
    requires !(cap != 0 && |w.seen| >= cap)
    requires Columns(services, index) + ColumnTo(services, s + 1, index) == w.done + [group]
    ensures Walked(services, cap, index, s + 1,
              Walk(w.done + [group], w.kept + [group], w.merged + group.targets, w.seen + {group.pod}, w.duplicates))
  {
    FirstsMore(w.done, group);
    FlattenMore(w.kept, group);
  }

  lemma {:induction false} RowEnds(services: seq<seq<Group>>, cap: int, index: nat, w: Walk)
    requires Walked(services, cap, index, |services|, w)
    ensures Walked(services, cap, index + 1, 0, w)
  {
    assert Columns(services, index + 1) + ColumnTo(services, 0, index + 1) == Columns(services, index + 1);
  }

  lemma {:induction false} ColumnPrefix(services: seq<seq<Group>>, s: nat, index: nat)
    requires s <= |services|
    ensures ColumnTo(services, s, index) <= Column(services, index)
    decreases |services| - s
  {
    if s < |services| {
      ColumnPrefix(services, s + 1, index);
      ColumnMore(services, s, index);
    }
  }

  lemma {:induction false} ColumnsPrefix(services: seq<seq<Group>>, m: nat, n: nat)
    requires m <= n
    ensures Columns(services, m) <= Columns(services, n)
    decreases n
  {
    if m < n {
      ColumnsPrefix(services, m, n - 1);
    }
  }

  lemma {:induction false} LongerPrefix<T>(a: seq<T>, b: seq<T>, c: seq<T>)
    requires b <= c
    ensures a + b <= a + c
  {
  }

  lemma {:induction false} PrefixOfPrefix<T>(a: seq<T>, x: T, b: seq<T>, c: seq<T>)
    requires a + [x] <= b <= c
    ensures a <= b && a <= c && |a| < |c| && c[|a|] == x
  {
    assert (a + [x])[|a|] == x;
  }

  lemma {:induction false} StopsEarly(services: seq<seq<Group>>, cap: int, index: nat, s: nat, w: Walk)
    requires Walked(services, cap, index, s, w)
    requires s < |services| && index < |services[s]| && index < Longest(services)
    requires services[s][index].pod !in w.seen && cap != 0 && |w.seen| >= cap
    ensures Ended(services, cap, index, w, true)
  {
    var group := services[s][index];
    ColumnMore(services, s, index);
    ColumnPrefix(services, s + 1, index);
    ColumnsPrefix(services, index + 1, Longest(services));
    var before, column, upTo := Columns(services, index), Column(services, index), ColumnTo(services, s + 1, index);
    Associate(before, ColumnTo(services, s, index), [group]);
    LongerPrefix(before, upTo, column);
    PrefixOfPrefix(w.done, group, Columns(services, index + 1), RoundRobin(services));
  }

  lemma {:induction false} WalkEnds(services: seq<seq<Group>>, cap: int, index: nat, w: Walk)
    requires Walked(services, cap, index, 0, w) && index == Longest(services)
    ensures Ended(services, cap, index, w, false)
  {
    assert w.done == Columns(services, index);
  }

  // ------------------------------------------------------------------
  // Conservation
  // ------------------------------------------------------------------

  lemma {:induction false} FirstsKeepKeys(groups: seq<Group>)
    ensures Keys(Firsts(groups)) == Keys(groups)
    decreases |groups|
  {
    if groups != [] {
      var n := |groups| - 1;
      FirstsKeepKeys(groups[..n]);
      assert groups == groups[..n] + [groups[n]];
      FirstsMore(groups[..n], groups[n]);
      if groups[n].pod !in Keys(groups[..n]) {
        AddedKey(Firsts(groups[..n]), groups[n]);
      } else {
        assert Firsts(groups) == Firsts(groups[..n]);
      }
    }
  }

  lemma {:induction false} AddedKey(groups: seq<Group>, group: Group)
    ensures Keys(groups + [group]) == Keys(groups) + {group.pod}
  {
    assert forall g :: g in groups + [group] <==> g in groups || g == group;
  }

  /** The kept pods are distinct. */
  lemma {:induction false} FirstsAreDistinct(groups: seq<Group>, i: nat, j: nat)
    requires i < j < |Firsts(groups)|
    ensures Firsts(groups)[i].pod != Firsts(groups)[j].pod
    decreases |groups|
  {
    var n := |groups| - 1;
    var earlier := Firsts(groups[..n]);
    if j < |earlier| {
      FirstsAreDistinct(groups[..n], i, j);
    } else {
      FirstsKeepKeys(groups[..n]);
      assert earlier[i] in earlier;
    }
  }

  lemma {:induction false} FirstsAreGroups(groups: seq<Group>, g: Group)
    requires g in Firsts(groups)
    ensures g in groups
    decreases |groups|
  {
    var n := |groups| - 1;
    assert groups == groups[..n] + [groups[n]];
    if g in Firsts(groups[..n]) {
      FirstsAreGroups(groups[..n], g);
    }
  }

  lemma {:induction false} ColumnIncludes(services: seq<seq<Group>>, index: nat, s: nat, upTo: nat)
    requires s < upTo <= |services| && index < |services[s]|
    ensures services[s][index] in ColumnTo(services, upTo, index)
    decreases upTo
  {
    if s < upTo - 1 {
      ColumnIncludes(services, index, s, upTo - 1);
    }
  }

  lemma {:induction false} ColumnHasService(services: seq<seq<Group>>, index: nat, upTo: nat, g: Group)
    returns (s: nat)
    requires upTo <= |services| && g in ColumnTo(services, upTo, index)
    ensures s < upTo && index < |services[s]| && services[s][index] == g
    decreases upTo
  {
    if g in ColumnTo(services, upTo - 1, index) {
      s := ColumnHasService(services, index, upTo - 1, g);
    } else {
      s := upTo - 1;
    }
  }

  lemma {:induction false} ColumnsInclude(services: seq<seq<Group>>, count: nat, s: nat, k: nat, g: Group)
    requires s < |services| && k < |services[s]| && services[s][k] == g && k < count
    ensures g in Columns(services, count)
  {
    ColumnIncludes(services, k, s, |services|);
    ColumnsHold(services, k + 1, g);
    ColumnsPrefix(services, k + 1, count);
    InLonger(Columns(services, k + 1), Columns(services, count), g);
  }

  lemma {:induction false} InLonger(a: seq<Group>, b: seq<Group>, g: Group)
    requires a <= b && g in a
    ensures g in b
  {
  }

  lemma {:induction false} ColumnsHold(services: seq<seq<Group>>, count: nat, g: Group)
    ensures g in Columns(services, count) <==>
              count > 0 && (g in Columns(services, count - 1) || g in Column(services, count - 1))
  {
    if count > 0 {
      InConcat(Columns(services, count - 1), Column(services, count - 1), g);
    }
  }

  lemma {:induction false} ColumnOf(services: seq<seq<Group>>, count: nat, g: Group) returns (k: nat)
    requires g in Columns(services, count)
    ensures k < count && g in Column(services, k)
    decreases count
  {
    ColumnsHold(services, count, g);
    if g in Columns(services, count - 1) {
      k := ColumnOf(services, count - 1, g);
    } else {
      k := count - 1;
    }
  }

  lemma {:induction false} ColumnsAreGroups(services: seq<seq<Group>>, count: nat, g: Group) returns (s: nat, k: nat)
    requires g in Columns(services, count)
    ensures s < |services| && k < |services[s]| && k < count && services[s][k] == g
  {
    k := ColumnOf(services, count, g);
    s := ColumnHasService(services, k, |services|, g);
  }

  /** How many groups the first `n` services have in the first rows. */
  function GroupCount(services: seq<seq<Group>>, n: nat, rows: nat): nat
    requires n <= |services|
  {
    if n == 0 then 0
    else GroupCount(services, n - 1, rows) + if |services[n - 1]| < rows then |services[n - 1]| else rows
  }

  lemma {:induction false} RowCount(services: seq<seq<Group>>, n: nat, rows: nat)
    requires n <= |services|
    ensures GroupCount(services, n, rows + 1) == GroupCount(services, n, rows) + |ColumnTo(services, n, rows)|
    decreases n
  {
    if n > 0 {
      RowCount(services, n - 1, rows);
    }
  }

  lemma {:induction false} ColumnsCount(services: seq<seq<Group>>, rows: nat)
    ensures |Columns(services, rows)| == GroupCount(services, |services|, rows)
    decreases rows
  {
    if rows == 0 {
      NoRows(services, |services|);
    } else {
      ColumnsCount(services, rows - 1);
      RowCount(services, |services|, rows - 1);
    }
  }

  lemma {:induction false} NoRows(services: seq<seq<Group>>, n: nat)
    requires n <= |services|
    ensures GroupCount(services, n, 0) == 0
    decreases n
  {
    if n > 0 {
      NoRows(services, n - 1);
    }
  }

  /** How many groups the first `n` services have. */
  function Total(services: seq<seq<Group>>, n: nat): nat
    requires n <= |services|
  {
    if n == 0 then 0 else Total(services, n - 1) + |services[n - 1]|
  }

  lemma {:induction false} AllRowsCount(services: seq<seq<Group>>, n: nat, rows: nat)
    requires n <= |services| && forall s :: 0 <= s < |services| ==> |services[s]| <= rows
    ensures GroupCount(services, n, rows) == Total(services, n)
    decreases n
  {
    if n > 0 {
      AllRowsCount(services, n - 1, rows);
    }
  }

  /** `g` is the group `k` of service `s`. */
  predicate GroupAt(services: seq<seq<Group>>, s: nat, k: nat, g: Group) {
    s < |services| && k < |services[s]| && services[s][k] == g
  }

  /** Some pod of some service is not among the kept ones. */
  ghost predicate SomePodDropped(services: seq<seq<Group>>, kept: seq<Group>) {
    exists s, k, g :: GroupAt(services, s, k, g) && g.pod !in Keys(kept)
  }

  lemma {:induction false} RowsAreCovered(
    services: seq<seq<Group>>, rows: nat, done: seq<Group>, s: nat, k: nat, g: Group)
    requires Columns(services, rows) <= done && GroupAt(services, s, k, g) && k < rows
    ensures g.pod in Keys(Firsts(done))
  {
    ColumnsInclude(services, rows, s, k, g);
    FirstsKeepKeys(done);
    assert g in done;
  }

  lemma {:induction false} KeptFromRows(
    services: seq<seq<Group>>, row: nat, done: seq<Group>, g: Group)
    returns (s: nat, k: nat)
    requires done <= Columns(services, row + 1) && g in Firsts(done)
    ensures GroupAt(services, s, k, g) && k <= row
  {
    FirstsAreGroups(done, g);
    assert g in Columns(services, row + 1);
    s, k := ColumnsAreGroups(services, row + 1, g);
  }

  lemma {:induction false} NextIsDropped(services: seq<seq<Group>>, done: seq<Group>)
    requires |done| < |RoundRobin(services)| && RoundRobin(services)[|done|].pod !in Keys(done)
    ensures SomePodDropped(services, Firsts(done))
  {
    var g := RoundRobin(services)[|done|];
    FirstsKeepKeys(done);
    assert g in RoundRobin(services);
    var s, k := ColumnsAreGroups(services, Longest(services), g);
    assert GroupAt(services, s, k, g);
  }

  lemma {:induction false} AllGroupsCount(services: seq<seq<Group>>)
    ensures |RoundRobin(services)| == Total(services, |services|)
  {
    LongestIsMaximum(services);
    ColumnsCount(services, Longest(services));
    AllRowsCount(services, |services|, Longest(services));
  }

  /** No cap reached: every service's every pod is kept, and all groups are either kept or counted as duplicates. */
  lemma {:induction false} UncappedConserves(cap: int, trace: Trace, duplicates: int)
    requires Outcome(cap, trace, duplicates, false)
    ensures !SomePodDropped(trace.services, trace.kept)
    ensures Total(trace.services, |trace.services|) == |trace.kept| + duplicates
  {
    forall s, k, g | GroupAt(trace.services, s, k, g) ensures g.pod in Keys(trace.kept) {
      LongestIsMaximum(trace.services);
      RowsAreCovered(trace.services, Longest(trace.services), trace.done, s, k, g);
    }
    AllGroupsCount(trace.services);
  }

  /** The cap flag is up exactly when some pod was dropped; exactly `cap` pods are kept then. */
  lemma {:induction false} CappedExactlyWhenDropped(cap: int, trace: Trace, duplicates: int, capped: bool)
    requires Outcome(cap, trace, duplicates, capped)
    ensures capped <==> SomePodDropped(trace.services, trace.kept)
    ensures capped ==> cap != 0 && |trace.kept| == Limit(cap)
  {
    if capped {
      NextIsDropped(trace.services, trace.done);
    } else {
      UncappedConserves(cap, trace, duplicates);
    }
  }

  /** Fairness, one half: when the merge ends in row `row`, the first `row` pods of every service are covered. */
  lemma {:induction false} MergeCoversRows(
    cap: int, trace: Trace, duplicates: int, capped: bool, s: nat, k: nat, g: Group)
    requires Outcome(cap, trace, duplicates, capped) && GroupAt(trace.services, s, k, g) && k < trace.row
    ensures g.pod in Keys(trace.kept)
  {
    RowsAreCovered(trace.services, trace.row, trace.done, s, k, g);
  }

  /** Fairness, the other half: no service contributed a pod from beyond that row. */
  lemma {:induction false} MergeStaysInRows(
    cap: int, trace: Trace, duplicates: int, capped: bool, g: Group)
    returns (s: nat, k: nat)
    requires Outcome(cap, trace, duplicates, capped) && g in trace.kept
    ensures GroupAt(trace.services, s, k, g) && k <= trace.row
  {
    s, k := KeptFromRows(trace.services, trace.row, trace.done, g);
  }

  /** Kept pods are distinct. */
  lemma {:induction false} KeptPodsAreDistinct(cap: int, trace: Trace, duplicates: int, capped: bool, i: nat, j: nat)
    requires Outcome(cap, trace, duplicates, capped) && i < j < |trace.kept|
    ensures trace.kept[i].pod != trace.kept[j].pod
  {
    FirstsAreDistinct(trace.done, i, j);
  }

  /** A kept pod is whole: it comes with all the targets some service has for it, in order, and has some. */
  lemma {:induction false} KeptPodIsWhole(
    perService: seq<seq<Target>>, cap: int, trace: Trace, duplicates: int, capped: bool, g: Group) returns (s: nat)
    requires AllGrouped(trace.services, perService) && Outcome(cap, trace, duplicates, capped) && g in trace.kept
    ensures s < |perService| && g.targets == PodTargets(perService[s], g.pod) != []
  {
    var k;
    s, k := MergeStaysInRows(cap, trace, duplicates, capped, g);
    assert GroupedByPod(trace.services[s], perService[s]);
    PodHasTargets(perService[s], k);
  }

  lemma {:induction false} PodHasTargets(targets: seq<Target>, k: nat)
    requires k < |Pods(targets)|
    ensures PodTargets(targets, Pods(targets)[k]) != []
    decreases |targets|
  {
    var n := |targets| - 1;
    if k < |Pods(targets[..n])| {
      PodHasTargets(targets[..n], k);
    }
  }
}
