/**
 Where a reused finding comes from (src/api/dlt_routes.py, src/dlt/groups.py): over whole runs of the analysis
 lane, what is served is an agent's finding as it was stored, decayed once. And the lane's runs against the
 analysis itself.
 */
module DltServed {
  import opened Options
  import opened Casebooks
  import opened DltFindings
  import opened DltGroups
  import opened DltLane

  // ------------------------------------------------------------------
  // The last step of a run
  // ------------------------------------------------------------------

  lemma {:induction false} SplitRun(env: Settings, workers: nat, l: Lane, left: seq<Step>, right: seq<Step>)
    ensures Exec(env, l, left + right) == Exec(env, Exec(env, l, left), right)
    ensures ValidRun(env, workers, l, left + right) <==>
            ValidRun(env, workers, l, left) && ValidRun(env, workers, Exec(env, l, left), right)
    decreases left
  {
    if left == [] {
      assert left + right == right;
    } else {
      assert (left + right)[1..] == left[1..] + right;
      SplitRun(env, workers, Apply(env, l, left[0]), left[1..], right);
    }
  }

  lemma {:induction false} LastStep(env: Settings, workers: nat, l: Lane, run: seq<Step>)
    requires run != [] && ValidRun(env, workers, l, run)
    ensures var n := |run| - 1;
            && ValidRun(env, workers, l, run[..n])
            && Enabled(workers, Exec(env, l, run[..n]), run[n])
            && Exec(env, l, run) == Apply(env, Exec(env, l, run[..n]), run[n])
  {
    var n := |run| - 1;
    SplitRun(env, workers, l, run[..n], [run[n]]);
    assert run[..n] + [run[n]] == run;
  }

  // ------------------------------------------------------------------
  // Where a stored finding comes from
  // ------------------------------------------------------------------

  /** Step `i` is the model's answer to worker `w`; `finding` is that answer under its case's ceilings, not decayed. */
  ghost predicate AnsweredAt(env: Settings, run: seq<Step>, i: nat, w: nat, finding: Finding) {
    && i < |run| && run[i].Answer? && run[i].worker == w && run[i].model.Produced? && InContract(run[i].model.finding)
    && var asked := Exec(env, IDLE, run[..i]);
       && w in asked.busy && asked.busy[w].Asking?
       && finding == Policy(env, run[i].model.finding, asked.busy[w].evidence, false)
  }

  /** No step of worker `w` lies strictly between steps `i` and `k`. */
  predicate IdleBetween(run: seq<Step>, i: int, k: int, w: nat) {
    forall m :: i < m < k && 0 <= m < |run| ==> run[m].worker != w
  }

  lemma {:induction false} AnsweredInLonger(env: Settings, run: seq<Step>, n: nat, i: nat, w: nat, finding: Finding)
    requires n <= |run| && AnsweredAt(env, run[..n], i, w, finding)
    ensures AnsweredAt(env, run, i, w, finding)
  {
    assert run[..n][..i] == run[..i] && run[..n][i] == run[i];
  }

  lemma {:induction false} IdleLonger(run: seq<Step>, n: nat, i: int, k: int, w: nat)
    requires k <= n <= |run| && IdleBetween(run[..n], i, k, w)
    ensures IdleBetween(run, i, k, w)
  {
    forall m | i < m < k && 0 <= m < |run| ensures run[m].worker != w {
      assert run[..n][m] == run[m];
    }
  }

  /** A finding a worker holds after a step was held before, or the step is the answer it comes from. */
  lemma {:induction false} HeldStep(env: Settings, workers: nat, l: Lane, step: Step, w: nat)
    requires Enabled(workers, l, step)
    requires w in Apply(env, l, step).busy && Apply(env, l, step).busy[w].Storing?
    ensures if step.worker != w then w in l.busy && l.busy[w] == Apply(env, l, step).busy[w]
            else
              && step.Answer? && step.model.Produced? && InContract(step.model.finding)
              && w in l.busy && l.busy[w].Asking?
              && Apply(env, l, step).busy[w].finding == Policy(env, step.model.finding, l.busy[w].evidence, false)
  {
  }

  lemma {:induction false} AnswerIsHeld(env: Settings, run: seq<Step>, n: nat, w: nat, finding: Finding)
    requires |run| == n + 1 && run[n].Answer? && run[n].worker == w
    requires run[n].model.Produced? && InContract(run[n].model.finding)
    requires var asked := Exec(env, IDLE, run[..n]);
             && w in asked.busy && asked.busy[w].Asking?
             && finding == Policy(env, run[n].model.finding, asked.busy[w].evidence, false)
    ensures AnsweredAt(env, run, n, w, finding) && IdleBetween(run, n, |run|, w)
  {
  }

  lemma {:induction false} AnswerStaysHeld(env: Settings, run: seq<Step>, n: nat, i: nat, w: nat, finding: Finding)
    requires |run| == n + 1 && run[n].worker != w
    requires AnsweredAt(env, run[..n], i, w, finding) && IdleBetween(run[..n], i, n, w)
    ensures AnsweredAt(env, run, i, w, finding) && IdleBetween(run, i, |run|, w)
  {
    AnsweredInLonger(env, run, n, i, w, finding);
    IdleLonger(run, n, i, n, w);
  }

  /** A finding a worker holds is the model's last answer to that worker. */
  lemma {:induction false} HeldWasAnswered(
    env: Settings, workers: nat, run: seq<Step>, w: nat, l: Lane)
    returns (i: nat)
    requires ValidRun(env, workers, IDLE, run) && l == Exec(env, IDLE, run)
    requires w in l.busy && l.busy[w].Storing?
    ensures AnsweredAt(env, run, i, w, l.busy[w].finding) && IdleBetween(run, i, |run|, w)
    decreases |run|
  {
    var n := |run| - 1;
    LastStep(env, workers, IDLE, run);
    var earlier := Exec(env, IDLE, run[..n]);
    HeldStep(env, workers, earlier, run[n], w);
    if run[n].worker == w {
      i := n;
      AnswerIsHeld(env, run, n, w, l.busy[w].finding);
    } else {
      i := HeldWasAnswered(env, workers, run[..n], w, earlier);
      AnswerStaysHeld(env, run, n, i, w, l.busy[w].finding);
    }
  }

  /**
   Step `k` is the latest store of the run, and what it stored is the model's last answer, step `i`, to its
   worker.
   */
  ghost predicate StoredAt(env: Settings, run: seq<Step>, k: nat, i: nat, finding: Finding) {
    && i < k < |run| && run[k].Store?
    && (forall m :: k < m < |run| ==> !run[m].Store?)
    && AnsweredAt(env, run, i, run[k].worker, finding) && IdleBetween(run, i, k, run[k].worker)
  }

  lemma {:induction false} StoredInLonger(env: Settings, run: seq<Step>, n: nat, k: nat, i: nat, finding: Finding)
    requires n <= |run| && StoredAt(env, run[..n], k, i, finding)
    requires forall m :: n <= m < |run| ==> !run[m].Store?
    ensures StoredAt(env, run, k, i, finding)
  {
    assert run[..n][k] == run[k];
    forall m | k < m < |run| ensures !run[m].Store? {
      assert m < n ==> run[..n][m] == run[m];
    }
    AnsweredInLonger(env, run, n, i, run[k].worker, finding);
    IdleLonger(run, n, i, k, run[k].worker);
  }

  lemma {:induction false} StoredJustNow(env: Settings, run: seq<Step>, n: nat, i: nat, finding: Finding)
    requires n == |run| - 1 && run[n].Store?
    requires AnsweredAt(env, run[..n], i, run[n].worker, finding) && IdleBetween(run[..n], i, n, run[n].worker)
    ensures StoredAt(env, run, n, i, finding)
  {
    AnsweredInLonger(env, run, n, i, run[n].worker, finding);
    IdleLonger(run, n, i, n, run[n].worker);
  }

  /** A step leaves the recommendation alone, drops it, or is a store of what its worker holds. */
  lemma {:induction false} RecommendationStep(env: Settings, workers: nat, l: Lane, step: Step)
    requires Enabled(workers, l, step) && Apply(env, l, step).group.recommendation.Some?
    ensures if step.Store? then
              && step.worker in l.busy && l.busy[step.worker].Storing?
              && Apply(env, l, step).group.recommendation.value == l.busy[step.worker].finding
            else Apply(env, l, step).group.recommendation == l.group.recommendation
  {
  }

  /** A group's recommendation is what the latest store put there: an agent's finding, never a decayed one. */
  lemma {:induction false} RecommendationWasStored(env: Settings, workers: nat, run: seq<Step>) returns (k: nat, i: nat)
    requires ValidRun(env, workers, IDLE, run) && Exec(env, IDLE, run).group.recommendation.Some?
    ensures StoredAt(env, run, k, i, Exec(env, IDLE, run).group.recommendation.value)
  {
    k, i := GroupWasStored(env, workers, run, Exec(env, IDLE, run));
  }

  lemma {:induction false} LastGroup(env: Settings, workers: nat, run: seq<Step>, l: Lane) returns (earlier: Lane)
    requires ValidRun(env, workers, IDLE, run) && l == Exec(env, IDLE, run) && l.group.recommendation.Some?
    ensures run != [] && ValidRun(env, workers, IDLE, run[..|run| - 1]) && earlier == Exec(env, IDLE, run[..|run| - 1])
    ensures var step := run[|run| - 1];
            if step.Store? then
              && step.worker in earlier.busy && earlier.busy[step.worker].Storing?
              && l.group.recommendation.value == earlier.busy[step.worker].finding
            else l.group.recommendation == earlier.group.recommendation
  {
    LastStep(env, workers, IDLE, run);
    earlier := Exec(env, IDLE, run[..|run| - 1]);
    RecommendationStep(env, workers, earlier, run[|run| - 1]);
  }

  lemma {:induction false} StoredByLast(env: Settings, workers: nat, run: seq<Step>, n: nat, l: Lane, finding: Finding)
    returns (i: nat)
    requires n == |run| - 1 && run[n].Store?
    requires ValidRun(env, workers, IDLE, run[..n]) && l == Exec(env, IDLE, run[..n])
    requires run[n].worker in l.busy && l.busy[run[n].worker].Storing? && l.busy[run[n].worker].finding == finding
    ensures StoredAt(env, run, n, i, finding)
  {
    i := HeldWasAnswered(env, workers, run[..n], run[n].worker, l);
    StoredJustNow(env, run, n, i, finding);
  }

  lemma {:induction false} GroupWasStored(env: Settings, workers: nat, run: seq<Step>, l: Lane) returns (k: nat, i: nat)
    requires ValidRun(env, workers, IDLE, run) && l == Exec(env, IDLE, run) && l.group.recommendation.Some?
    ensures StoredAt(env, run, k, i, l.group.recommendation.value)
    decreases |run|
  {
    var n := |run| - 1;
    var earlier := LastGroup(env, workers, run, l);
    if run[n].Store? {
      k := n;
      i := StoredByLast(env, workers, run, n, earlier, l.group.recommendation.value);
    } else {
      k, i := GroupWasStored(env, workers, run[..n], earlier);
      StoredInLonger(env, run, n, k, i, l.group.recommendation.value);
    }
  }

  // ------------------------------------------------------------------
  // What is served
  // ------------------------------------------------------------------

  /**
   In any run, when the next case reuses the group, what it is served is the finding of the latest store, which
   is a model's answer under its own case's ceilings: that finding's confidence decayed once, and capped by
   the evidence at hand. However many cases were served before, none of their decays is in it.
   */
  lemma {:induction false} ServedIsDecayedOnce(
    env: Settings, workers: nat, run: seq<Step>, o: Occurrence, readable: bool, e: Evidence, text: string, model: Model)
    returns (k: nat, i: nat, stored: Finding)
    requires ValidRun(env, workers, IDLE, run)
    requires var g := Recorded(if readable then Exec(env, IDLE, run).group else BLANK, o);
             Decide(env, e.failureClass, e.verdict, Usable(g)) == ReuseGroup
    ensures StoredAt(env, run, k, i, stored)
    ensures var g := Recorded(if readable then Exec(env, IDLE, run).group else BLANK, o);
            var raw, served := run[i].model.finding, FinalFinding(env, g, text, e, model);
            && (served.confidence.Some? <==> raw.confidence.Some?)
            && (stored.confidence.Some? <==> raw.confidence.Some?)
            && (raw.confidence.Some? ==>
                  && Bounded(raw.confidence.value, Caps(env, Exec(env, IDLE, run[..i]).busy[run[k].worker].evidence),
                             stored.confidence.value)
                  && Bounded(Decayed(env, stored.confidence.value, true), Caps(env, e), served.confidence.value))
  {
    var g := Recorded(if readable then Exec(env, IDLE, run).group else BLANK, o);
    ReuseServesTheGroup(env, g, text, e, model);
    k, i := RecommendationWasStored(env, workers, run);
    stored := g.recommendation.value;
    PolicyPromises(env, run[i].model.finding, Exec(env, IDLE, run[..i]).busy[run[k].worker].evidence, false);
    PolicyPromises(env, stored, e, true);
  }

  /** With the source's decay that is the stored confidence times the factor, once, or the least ceiling below it. */
  lemma {:induction false} ServedIsMultipliedOnce(
    env: Settings, factor: real, workers: nat, run: seq<Step>, o: Occurrence, readable: bool,
    e: Evidence, text: string, model: Model)
    returns (k: nat, i: nat, stored: Finding)
    requires env.decay == Times(factor) && ValidRun(env, workers, IDLE, run)
    requires var g := Recorded(if readable then Exec(env, IDLE, run).group else BLANK, o);
             Decide(env, e.failureClass, e.verdict, Usable(g)) == ReuseGroup
    ensures StoredAt(env, run, k, i, stored)
    ensures var g := Recorded(if readable then Exec(env, IDLE, run).group else BLANK, o);
            var served := FinalFinding(env, g, text, e, model);
            && (served.confidence.Some? <==> stored.confidence.Some?)
            && (stored.confidence.Some? ==>
                  Bounded(stored.confidence.value * factor, Caps(env, e), served.confidence.value))
  {
    k, i, stored := ServedIsDecayedOnce(env, workers, run, o, readable, e, text, model);
    assert stored.confidence.Some? ==>
        Decayed(env, stored.confidence.value, true) == stored.confidence.value * factor;
  }

  /** A stored confidence stays in the contract exactly when no ceiling that applied to it is negative. */
  lemma {:induction false} StoredInContractExactly(env: Settings, finding: Finding, e: Evidence)
    requires InContract(finding)
    ensures InContract(Policy(env, finding, e, false)) <==>
            finding.confidence.None? || forall cap :: cap in Caps(env, e) ==> 0.0 <= cap.0
  {
    if finding.confidence.Some? {
      var c := Lowest(finding.confidence.value, Caps(env, e));
      assert Bounded(finding.confidence.value, Caps(env, e), c);
    }
  }

  /**
   In any run, reusing the group raises exactly when the model's answer behind it had a confidence and a negative
   ceiling was configured for the evidence of the case it answered.
   */
  lemma {:induction false} ReuseRaisesExactly(
    env: Settings, workers: nat, run: seq<Step>, o: Occurrence, readable: bool, e: Evidence, model: Model)
    returns (k: nat, i: nat, stored: Finding)
    requires ValidRun(env, workers, IDLE, run)
    requires var g := Recorded(if readable then Exec(env, IDLE, run).group else BLANK, o);
             Decide(env, e.failureClass, e.verdict, Usable(g)) == ReuseGroup
    ensures StoredAt(env, run, k, i, stored)
    ensures var g := Recorded(if readable then Exec(env, IDLE, run).group else BLANK, o);
            var evidence := Exec(env, IDLE, run[..i]).busy[run[k].worker].evidence;
            Raises(ReuseGroup, g, model) <==>
              && run[i].model.finding.confidence.Some?
              && exists cap :: cap in Caps(env, evidence) && cap.0 < 0.0
  {
    var g := Recorded(if readable then Exec(env, IDLE, run).group else BLANK, o);
    k, i := RecommendationWasStored(env, workers, run);
    stored := g.recommendation.value;
    StoredInContractExactly(env, run[i].model.finding, Exec(env, IDLE, run[..i]).busy[run[k].worker].evidence);
  }

  // ------------------------------------------------------------------
  // The analysis is a run of the lane
  // ------------------------------------------------------------------

  /** The steps of one undisturbed analysis by worker `w`; `g` is the group with the case recorded. */
  function AnalysisSteps(
    env: Settings, m: Message, model: Model, g: Group, w: nat, readable: bool, readableAgain: bool): seq<Step>
  {
    [Begin(w, m.occurrence, m.evidence, readable)] +
    if Decide(env, m.evidence.failureClass, m.evidence.verdict, Usable(g)) != LlmRequired then []
    else if model.Produced? then [Answer(w, model), Store(w, readableAgain)]
    else [Answer(w, model)]
  }

  lemma {:induction false} ExecOne(env: Settings, l: Lane, a: Step)
    ensures Exec(env, l, [a]) == Apply(env, l, a)
  {
    assert [a][1..] == [];
  }

  lemma {:induction false} ExecTwo(env: Settings, l: Lane, a: Step, b: Step)
    ensures Exec(env, l, [a] + [b]) == Apply(env, Apply(env, l, a), b)
  {
    assert ([a] + [b])[1..] == [b];
    ExecOne(env, Apply(env, l, a), b);
  }

  lemma {:induction false} ExecThree(env: Settings, l: Lane, a: Step, b: Step, c: Step)
    ensures Exec(env, l, [a] + [b, c]) == Apply(env, Apply(env, Apply(env, l, a), b), c)
  {
    assert ([a] + [b, c])[1..] == [b] + [c];
    ExecTwo(env, Apply(env, l, a), b, c);
  }

  /**
   What `AnalyzeDlt` does to an open case, undisturbed, is the run [Begin, Answer, Store] of the lane, cut off where
   the analysis ends: the same group and the same number of model runs. So the bounds on the lane are bounds on it.
   */
  lemma {:induction false} AnalysisIsALaneRun(
    env: Settings, m: Message, model: Model, l: Lane, w: nat, readable: bool, readableAgain: bool, outcome: Outcome,
    modelRuns: nat, before: map<string, Group>, after: map<string, Group>, untouched: bool, files: Files)
    requires var g := Recorded(if readable then l.group else BLANK, m.occurrence);
             Analyzed(env, m, model, g, readableAgain, outcome, modelRuns, before, after, untouched, files)
    requires w !in l.busy
    ensures var g := Recorded(if readable then l.group else BLANK, m.occurrence);
            var end := Exec(env, l, AnalysisSteps(env, m, model, g, w, readable, readableAgain));
            && m.fingerprint in after && end.group == after[m.fingerprint]
            && end.modelRuns == l.modelRuns + modelRuns
            && end.busy == l.busy
  {
    var g := Recorded(if readable then l.group else BLANK, m.occurrence);
    StepsRun(env, m, model, l, w, g, readable, readableAgain);
    AfterHolds(env, m, model, g, readableAgain, outcome, modelRuns, before, after, untouched, files);
  }

  lemma {:induction false} StepsRun(
    env: Settings, m: Message, model: Model, l: Lane, w: nat, g: Group, readable: bool, readableAgain: bool)
    requires g == Recorded(if readable then l.group else BLANK, m.occurrence) && w !in l.busy
    ensures var asks := Decide(env, m.evidence.failureClass, m.evidence.verdict, Usable(g)) == LlmRequired;
            var end := Exec(env, l, AnalysisSteps(env, m, model, g, w, readable, readableAgain));
            && end.modelRuns == l.modelRuns + (if asks then 1 else 0) && end.busy == l.busy
            && end.group ==
               if asks && model.Produced?
               then Attached(if readableAgain then g else BLANK, FinalFinding(env, g, m.text, m.evidence, model))
               else g
  {
    var begin := Begin(w, m.occurrence, m.evidence, readable);
    BeginOpens(env, l, w, m, g, readable);
    if Decide(env, m.evidence.failureClass, m.evidence.verdict, Usable(g)) != LlmRequired {
      assert [begin] + [] == [begin];
      ExecOne(env, l, begin);
    } else if model.Produced? {
      ExecThree(env, l, begin, Answer(w, model), Store(w, readableAgain));
      AnswerAndStore(env, Apply(env, l, begin), w, m, model, g, readableAgain);
    } else {
      ExecTwo(env, l, begin, Answer(w, model));
      AnswerWithout(env, Apply(env, l, begin), w, model);
    }
    assert l.busy[w := Asking(m.evidence)] - {w} == l.busy;
  }

  lemma {:induction false} BeginOpens(env: Settings, l: Lane, w: nat, m: Message, g: Group, readable: bool)
    requires g == Recorded(if readable then l.group else BLANK, m.occurrence)
    ensures var begun := Apply(env, l, Begin(w, m.occurrence, m.evidence, readable));
            var asks := Decide(env, m.evidence.failureClass, m.evidence.verdict, Usable(g)) == LlmRequired;
            && begun.group == g && begun.modelRuns == l.modelRuns + (if asks then 1 else 0)
            && begun.busy == if asks then l.busy[w := Asking(m.evidence)] else l.busy
  {
  }

  lemma {:induction false} AnswerAndStore(
    env: Settings, l: Lane, w: nat, m: Message, model: Model, g: Group, readableAgain: bool)
    requires model.Produced? && w in l.busy && l.busy[w] == Asking(m.evidence) && l.group == g
    requires Decide(env, m.evidence.failureClass, m.evidence.verdict, Usable(g)) == LlmRequired
    ensures var end := Apply(env, Apply(env, l, Answer(w, model)), Store(w, readableAgain));
            && end.group ==
               Attached(if readableAgain then g else BLANK, FinalFinding(env, g, m.text, m.evidence, model))
            && end.modelRuns == l.modelRuns && end.busy == l.busy - {w}
  {
  }

  lemma {:induction false} AnswerWithout(env: Settings, l: Lane, w: nat, model: Model)
    requires !model.Produced? && w in l.busy
    ensures var end := Apply(env, l, Answer(w, model));
            end.group == l.group && end.modelRuns == l.modelRuns && end.busy == l.busy - {w}
  {
  }

  /** The group an analysis leaves behind, and the model runs it took. */
  lemma {:induction false} AfterHolds(
    env: Settings, m: Message, model: Model, g: Group, readableAgain: bool, outcome: Outcome,
    modelRuns: nat, before: map<string, Group>, after: map<string, Group>, untouched: bool, files: Files)
    requires Analyzed(env, m, model, g, readableAgain, outcome, modelRuns, before, after, untouched, files)
    ensures var asks := Decide(env, m.evidence.failureClass, m.evidence.verdict, Usable(g)) == LlmRequired;
            && modelRuns == (if asks then 1 else 0) && m.fingerprint in after
            && after[m.fingerprint] ==
               if asks && model.Produced?
               then Attached(if readableAgain then g else BLANK, FinalFinding(env, g, m.text, m.evidence, model))
               else g
  {
  }
}
