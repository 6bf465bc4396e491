/**
 The dead-letter analysis lane (src/api/dlt_routes.py): one analysis as a sequence of storage and group
 updates, and what follows for the model's cost, for reused confidences and for replays over whole runs.
 The model is an arbitrary function: its outcome is an argument.
 */
module DltLane {
  import opened Collections
  import opened Options
  import opened Casebooks
  import opened DltFindings
  import opened DltGroups

  datatype Message = Message(caseId: string, refId: string, fingerprint: string, text: string, evidence: Evidence,
                             occurrence: Occurrence)

  /** How the agent graph ended: a finding, output that breaks the contract even after repair, an exception. */
  datatype Model = Produced(finding: Finding) | ContractBroken | ModelRaised

  datatype Provenance = FixedTreatment | GroupReuse | Agent | FailedRun

  datatype Outcome =
    | AlreadyProcessed
    | Aborted
    | Processed(decision: Decision, provenance: Provenance, finding: Finding, replay: Replay)

  function ProvenanceOf(decision: Decision, model: Model): Provenance {
    match decision
    case Canned => FixedTreatment
    case ReuseGroup => GroupReuse
    case LlmRequired => if model.Produced? then Agent else FailedRun
  }

  /** The finding before the ceilings: the fixed treatment, the group's stored finding, or the model's. */
  function Raw(decision: Decision, g: Group, failureClass: FailureClass, text: string, model: Model): Finding {
    match decision
    case Canned => Build(failureClass, text)
    case ReuseGroup => if g.recommendation.Some? then g.recommendation.value else FAILED_SYNTHESIS
    case LlmRequired => if model.Produced? then model.finding else FAILED_SYNTHESIS
  }

  /**
   Whether the analysis ends in an exception: the model's own, or that of a stored finding that is rebuilt for
   reuse although the ceilings it was stored under took its confidence out of the contract.
   */
  predicate Raises(decision: Decision, g: Group, model: Model) {
    || (decision == LlmRequired && model == ModelRaised)
    || (decision == ReuseGroup && g.recommendation.Some? && !InContract(g.recommendation.value))
  }

  /** The finding of one analysis after the ceilings; `g` is the group with this case recorded. */
  function FinalFinding(env: Settings, g: Group, text: string, e: Evidence, model: Model): Finding {
    var decision := Decide(env, e.failureClass, e.verdict, Usable(g));
    Policy(env, Raw(decision, g, e.failureClass, text, model), e, decision == ReuseGroup)
  }

  /** The status the case ends in. */
  function CaseStatus(finding: Finding): string {
    if finding.action == NoAction then "COMPLETED" else "NEEDS_MANUAL_REVIEW"
  }

  /**
   What one analysis of an open case does; `g` is the group with the case recorded. The model runs only if
   the reuse decision says so. If it or a reuse raises, the occurrence stays recorded and the case stays open.
   Otherwise the finding is the one under the ceilings, only an agent's finding is stored for reuse, the
   replay gate sees the final finding, and the case ends terminal in both files.
   */
  ghost predicate Analyzed(
    env: Settings, m: Message, model: Model, g: Group, readableAgain: bool, outcome: Outcome, modelRuns: nat,
    before: map<string, Group>, after: map<string, Group>, untouched: bool, files: Files)
  {
    var decision := Decide(env, m.evidence.failureClass, m.evidence.verdict, Usable(g));
    modelRuns == (if decision == LlmRequired then 1 else 0) &&
    match outcome
    case AlreadyProcessed => false
    case Aborted =>
      && Raises(decision, g, model)
      && after == before[m.fingerprint := g] && untouched
    case Processed(d, provenance, finding, replay) =>
      && !Raises(decision, g, model)
      && d == decision && provenance == ProvenanceOf(decision, model)
      && finding == FinalFinding(env, g, m.text, m.evidence, model)
      && (replay.attempted, replay.reason) == DecideReplay(env, finding, m.refId)
      && after == before[m.fingerprint :=
           if provenance == Agent then Attached(if readableAgain then g else BLANK, finding) else g]
      && files == Files(Some(CaseStatus(finding)), Some(CaseStatus(finding)))
  }

  /** A recommendation is stored, in draft or final. */
  predicate HasFinding(g: Group) {
    g.recommendation.Some? && (g.state == Draft || g.state == Final)
  }

  /** The logs contradict the trace, or bear it out in part only. */
  predicate InDoubt(verdict: Verdict) {
    verdict == Contradicted || verdict == Partial
  }

  /**
   Which of the three ways an analysis goes: the fixed treatment for every class but A; for class A the stored
   finding if reuse is on, there is one and the logs leave the trace in no doubt; the model otherwise. What a model
   run without a finding leaves is for a human, and both files say how the case ended.
   */
  ghost predicate GoesItsWay(
    env: Settings, m: Message, model: Model, g: Group, outcome: Outcome, modelRuns: nat, files: Files)
  {
    var e := m.evidence;
    && (modelRuns == 0 || modelRuns == 1)
    && (modelRuns == 1 <==>
          e.failureClass == Business && (InDoubt(e.verdict) || !env.reuseEnabled || !HasFinding(g)))
    && (outcome.Processed? ==>
          && (outcome.provenance == GroupReuse <==>
                e.failureClass == Business && !InDoubt(e.verdict) && env.reuseEnabled && HasFinding(g))
          && (outcome.provenance == FixedTreatment <==> e.failureClass != Business)
          && (outcome.provenance == Agent <==> modelRuns == 1 && model.Produced?)
          && (outcome.provenance == GroupReuse ==> outcome.finding.text == g.recommendation.value.text)
          && (outcome.provenance == Agent ==> outcome.finding.text == model.finding.text)
          && (outcome.provenance == FixedTreatment ==> outcome.finding.text == m.text)
          && (outcome.provenance == FailedRun ==>
                && outcome.finding.action == NeedsManualReview
                && outcome.finding.confidence.Some? && outcome.finding.confidence.value <= 0.0)
          && (outcome.finding.action == NoAction ==> files == Files(Some("COMPLETED"), Some("COMPLETED")))
          && (outcome.finding.action != NoAction ==>
                files == Files(Some("NEEDS_MANUAL_REVIEW"), Some("NEEDS_MANUAL_REVIEW"))))
  }

  lemma {:induction false} AnalysisGoesItsWay(
    env: Settings, m: Message, model: Model, g: Group, readableAgain: bool, outcome: Outcome, modelRuns: nat,
    before: map<string, Group>, after: map<string, Group>, untouched: bool, files: Files)
    requires Analyzed(env, m, model, g, readableAgain, outcome, modelRuns, before, after, untouched, files)
    ensures GoesItsWay(env, m, model, g, outcome, modelRuns, files)
  {
  }

  /**
   One analysis. A case that already has a verdict costs nothing and changes nothing; an open one is recorded
   first and then analysed.
   */
  method AnalyzeDlt(env: Settings, store: GroupStore, cases: CasebookStorage, m: Message, model: Model,
                    readable: bool, readableAgain: bool, toolRaised: bool)
    returns (outcome: Outcome, modelRuns: nat)
    requires m.fingerprint != "" && m.occurrence.cap >= 1 && m.occurrence.caseId == m.caseId
    modifies store, cases
    ensures Visible(old(cases.Of(m.caseId))).Some? <==> outcome == AlreadyProcessed
    ensures outcome == AlreadyProcessed ==>
              store.groups == old(store.groups) && cases.history == old(cases.history) && modelRuns == 0
    ensures outcome != AlreadyProcessed ==>
              Analyzed(env, m, model, Recorded(if readable then old(store.Of(m.fingerprint)) else BLANK, m.occurrence),
                       readableAgain, outcome, modelRuns, old(store.groups), store.groups,
                       cases.history == old(cases.history), cases.Of(m.caseId))
    ensures outcome != AlreadyProcessed ==>
              GoesItsWay(env, m, model,
                         Recorded(if readable then old(store.Of(m.fingerprint)) else BLANK, m.occurrence),
                         outcome, modelRuns, cases.Of(m.caseId))
  {
    var done := HasVerdict(cases, m.caseId);
    if done {
      return AlreadyProcessed, 0;
    }
    ghost var g := Recorded(if readable then store.Of(m.fingerprint) else BLANK, m.occurrence);
    outcome, modelRuns := AnalyzeOpen(env, store, cases, m, model, readable, readableAgain, toolRaised);
    AnalysisGoesItsWay(env, m, model, g, readableAgain, outcome, modelRuns, old(store.groups), store.groups,
                       cases.history == old(cases.history), cases.Of(m.caseId));
  }

  method AnalyzeOpen(env: Settings, store: GroupStore, cases: CasebookStorage, m: Message, model: Model,
                     readable: bool, readableAgain: bool, toolRaised: bool)
    returns (outcome: Outcome, modelRuns: nat)
    requires m.fingerprint != "" && m.occurrence.cap >= 1 && m.occurrence.caseId == m.caseId
    modifies store, cases
    ensures Analyzed(env, m, model, Recorded(if readable then old(store.Of(m.fingerprint)) else BLANK, m.occurrence),
                     readableAgain, outcome, modelRuns, old(store.groups), store.groups,
                     cases.history == old(cases.history), cases.Of(m.caseId))
  {
    ghost var before := store.groups;
    var group := store.RecordOccurrence(m.fingerprint, m.occurrence, readable);
    var decision := Decide(env, m.evidence.failureClass, m.evidence.verdict, Usable(group));
    modelRuns := if decision == LlmRequired then 1 else 0;
    if Raises(decision, group, model) {
      return Aborted, modelRuns;
    }
    var raw := Raw(decision, group, m.evidence.failureClass, m.text, model);
    var provenance := ProvenanceOf(decision, model);
    var finding, replay := Conclude(env, store, cases, m, decision, provenance, raw, readableAgain, toolRaised);
    outcome := Processed(decision, provenance, finding, replay);
    Overwritten(before, m.fingerprint, group, Attached(if readableAgain then group else BLANK, finding));
  }

  /** Whether the case has a terminal status on record. */
  method HasVerdict(cases: CasebookStorage, caseId: string) returns (done: bool)
    ensures done <==> Visible(cases.Of(caseId)).Some?
  {
    var recorded := cases.TerminalStatus(caseId);
    done := recorded.Some? && recorded.value in TERMINAL_STATUSES;
  }

  /** The second half of an analysis: ceilings, storing an agent's finding, the replay gate, the terminal save. */
  method Conclude(env: Settings, store: GroupStore, cases: CasebookStorage, m: Message, decision: Decision,
                  provenance: Provenance, raw: Finding, readableAgain: bool, toolRaised: bool)
    returns (finding: Finding, replay: Replay)
    requires m.fingerprint != ""
    modifies store, cases
    ensures finding == Policy(env, raw, m.evidence, decision == ReuseGroup)
    ensures (replay.attempted, replay.reason) == DecideReplay(env, finding, m.refId)
    ensures store.groups == (if provenance == Agent
              then old(store.groups)[m.fingerprint :=
                     Attached(if readableAgain then old(store.Of(m.fingerprint)) else BLANK, finding)]
              else old(store.groups))
    ensures cases.Of(m.caseId) == Files(Some(CaseStatus(finding)), Some(CaseStatus(finding)))
  {
    finding := ApplyConfidencePolicy(env, raw, m.evidence, decision == ReuseGroup);
    if provenance == Agent {
      var group := store.AttachRecommendation(m.fingerprint, finding, readableAgain);
    }
    var calls;
    replay, calls := MaybeReplay(env, finding, m.refId, toolRaised);
    cases.SaveTerminal(m.caseId, Some(CaseStatus(finding)));
  }

  // ------------------------------------------------------------------
  // The replay gate
  // ------------------------------------------------------------------

  /**
   Whatever the model says and however thresholds, ceilings and replayable actions are set, a replay is
   attempted only for a class A case with a confidence at or above the threshold; the gate reads the
   capped confidence, so with the shipped ceilings and threshold it also takes a registry hit and a
   verdict the logs could support.
   */
  lemma {:induction false} ReplayGate(env: Settings, g: Group, text: string, e: Evidence, model: Model, refId: string)
    requires DecideReplay(env, FinalFinding(env, g, text, e, model), refId).0
    ensures e.failureClass == Business && refId != "" && env.replayEnabled
    ensures var f := FinalFinding(env, g, text, e, model);
            && f.action in env.replayActions
            && f.confidence.Some? && env.threshold <= f.confidence.value
    ensures DefaultCeilings(env) && env.threshold == DEFAULT_CONFIDENCE_THRESHOLD ==>
              e.registryHit && e.verdict != Unverifiable
  {
    var decision := Decide(env, e.failureClass, e.verdict, Usable(g));
    PolicyPromises(env, Raw(decision, g, e.failureClass, text, model), e, decision == ReuseGroup);
  }

  // ------------------------------------------------------------------
  // Runs of one fingerprint on several workers
  // ------------------------------------------------------------------

  /** A worker is waiting for the model, or holds a finding it has not stored yet. */
  datatype Work = Asking(evidence: Evidence) | Storing(evidence: Evidence, finding: Finding)

  /** `unstored` counts undisturbed model runs whose finding never reached the group, `losses` failed loads. */
  datatype Lane = Lane(group: Group, busy: map<nat, Work>, modelRuns: nat, discrepant: nat, unstored: nat, losses: nat)

  const IDLE := Lane(BLANK, map[], 0, 0, 0, 0)

  datatype Step =
    | Begin(worker: nat, occurrence: Occurrence, evidence: Evidence, readable: bool)
    | Answer(worker: nat, model: Model)
    | Store(worker: nat, readable: bool)
    | Die(worker: nat)

  predicate Enabled(workers: nat, l: Lane, step: Step) {
    match step
    case Begin(w, o, e, readable) => w < workers && w !in l.busy && o.cap >= 1
    case Answer(w, model) => w in l.busy && l.busy[w].Asking? && (model.Produced? ==> InContract(model.finding))
    case Store(w, readable) => w in l.busy && l.busy[w].Storing?
    case Die(w) => w in l.busy
  }

  function Drop(l: Lane, w: nat): Lane
    requires w in l.busy
  {
    l.(busy := l.busy - {w},
       unstored := l.unstored + if Discrepant(l.busy[w].evidence.verdict) then 0 else 1)
  }

  /** The occurrence is recorded, the group being `g` now; the worker asks the model if the reuse decision says so. */
  function Begun(env: Settings, l: Lane, w: nat, g: Group, losses: nat, e: Evidence): Lane {
    if Decide(env, e.failureClass, e.verdict, Usable(g)) == LlmRequired then
      Lane(g, l.busy[w := Asking(e)], l.modelRuns + 1,
           if Discrepant(e.verdict) then l.discrepant + 1 else l.discrepant, l.unstored, losses)
    else l.(group := g, losses := losses)
  }

  function Apply(env: Settings, l: Lane, step: Step): Lane {
    match step
    case Begin(w, o, e, readable) =>
      Begun(env, l, w, Recorded(if readable then l.group else BLANK, o), if readable then l.losses else l.losses + 1, e)
    case Answer(w, model) =>
      if w !in l.busy then l
      else if model.Produced? then
        l.(busy := l.busy[w := Storing(l.busy[w].evidence, Policy(env, model.finding, l.busy[w].evidence, false))])
      else Drop(l, w)
    case Store(w, readable) =>
      if w !in l.busy || !l.busy[w].Storing? then l
      else l.(group := Attached(if readable then l.group else BLANK, l.busy[w].finding), busy := l.busy - {w})
    case Die(w) => if w !in l.busy then l else Drop(l, w)
  }

  function Exec(env: Settings, l: Lane, run: seq<Step>): Lane
    decreases run
  {
    if run == [] then l else Exec(env, Apply(env, l, run[0]), run[1..])
  }

  predicate ValidRun(env: Settings, workers: nat, l: Lane, run: seq<Step>)
    decreases run
  {
    run == [] || (Enabled(workers, l, run[0]) && ValidRun(env, workers, Apply(env, l, run[0]), run[1..]))
  }

  /** The workers busy with a model run that no discrepancy asked for. */
  function Plain(l: Lane): set<nat> {
    set w | w in l.busy && !Discrepant(l.busy[w].evidence.verdict)
  }

  /** One model run per worker for every record that could not be read. */
  function Allowance(workers: nat, losses: nat): nat {
    if losses == 0 then 0 else workers + Allowance(workers, losses - 1)
  }

  predicate WithinBudget(workers: nat, l: Lane) {
    var plain := l.modelRuns - l.discrepant - l.unstored;
    && (forall w :: w in l.busy ==> w < workers)
    && |Plain(l)| <= plain <= workers + Allowance(workers, l.losses)
    && (!Usable(l.group) ==> plain - |Plain(l)| <= Allowance(workers, l.losses))
  }

  lemma {:induction false} StepWithinBudget(env: Settings, workers: nat, l: Lane, step: Step)
    requires env.reuseEnabled && WithinBudget(workers, l) && Enabled(workers, l, step)
    ensures WithinBudget(workers, Apply(env, l, step))
  {
    match step
    case Begin(w, o, e, readable) => BeginWithinBudget(env, workers, l, w, o, e, readable);
    case Answer(w, model) => DropWithinBudget(workers, l, w); AnswerWithinBudget(env, workers, l, w, model);
    case Store(w, readable) => StoreWithinBudget(env, workers, l, w, readable);
    case Die(w) => DropWithinBudget(workers, l, w);
  }

  lemma {:induction false} BeginWithinBudget(
    env: Settings, workers: nat, l: Lane, w: nat, o: Occurrence, e: Evidence, readable: bool)
    requires env.reuseEnabled && WithinBudget(workers, l) && Enabled(workers, l, Begin(w, o, e, readable))
    ensures WithinBudget(workers, Begun(env, l, w, Recorded(if readable then l.group else BLANK, o),
                                        if readable then l.losses else l.losses + 1, e))
  {
    RecordedUsable(l.group, o);
    BegunWithinBudget(env, workers, l, w, Recorded(if readable then l.group else BLANK, o),
                      if readable then l.losses else l.losses + 1, e);
  }

  lemma {:induction false} RecordedUsable(g: Group, o: Occurrence)
    requires o.cap >= 1
    ensures Usable(Recorded(g, o)) == Usable(g)
  {
  }

  lemma {:induction false} BegunWithinBudget(
    env: Settings, workers: nat, l: Lane, w: nat, g: Group, losses: nat, e: Evidence)
    requires env.reuseEnabled && WithinBudget(workers, l) && w < workers && w !in l.busy
    requires losses == l.losses + 1 || (losses == l.losses && Usable(g) == Usable(l.group))
    ensures WithinBudget(workers, Begun(env, l, w, g, losses, e))
  {
    if Decide(env, e.failureClass, e.verdict, Usable(g)) != LlmRequired {
      SameWork(workers, l, g, losses);
    } else if Discrepant(e.verdict) {
      OneMoreDiscrepant(workers, l, g, losses, w, e);
    } else {
      OneMoreAsking(workers, l, g, losses, w, e);
    }
  }

  lemma {:induction false} OneMoreDiscrepant(workers: nat, l: Lane, g: Group, losses: nat, w: nat, e: Evidence)
    requires WithinBudget(workers, l) && w < workers && w !in l.busy && Discrepant(e.verdict)
    requires losses == l.losses + 1 || (losses == l.losses && Usable(g) == Usable(l.group))
    ensures WithinBudget(workers,
              Lane(g, l.busy[w := Asking(e)], l.modelRuns + 1, l.discrepant + 1, l.unstored, losses))
  {
    var l' := Lane(g, l.busy[w := Asking(e)], l.modelRuns + 1, l.discrepant + 1, l.unstored, losses);
    assert Plain(l') == Plain(l);
    assert Allowance(workers, l.losses + 1) == workers + Allowance(workers, l.losses);
  }

  lemma {:induction false} OneMoreAsking(workers: nat, l: Lane, g: Group, losses: nat, w: nat, e: Evidence)
    requires WithinBudget(workers, l) && w < workers && w !in l.busy && !Discrepant(e.verdict) && !Usable(g)
    requires losses == l.losses + 1 || (losses == l.losses && !Usable(l.group))
    ensures WithinBudget(workers,
              Lane(g, l.busy[w := Asking(e)], l.modelRuns + 1, l.discrepant, l.unstored, losses))
  {
    var l' := Lane(g, l.busy[w := Asking(e)], l.modelRuns + 1, l.discrepant, l.unstored, losses);
    assert Plain(l') == Plain(l) + {w};
    PlainWithin(workers, l');
    assert Allowance(workers, l.losses + 1) == workers + Allowance(workers, l.losses);
  }

  lemma {:induction false} SameWork(workers: nat, l: Lane, g: Group, losses: nat)
    requires WithinBudget(workers, l)
    requires losses == l.losses + 1 || (losses == l.losses && Usable(g) == Usable(l.group))
    ensures WithinBudget(workers, l.(group := g, losses := losses))
  {
    assert Plain(l.(group := g, losses := losses)) == Plain(l);
    assert Allowance(workers, l.losses + 1) == workers + Allowance(workers, l.losses);
  }

  lemma {:induction false} DropWithinBudget(workers: nat, l: Lane, w: nat)
    requires WithinBudget(workers, l) && w in l.busy
    ensures WithinBudget(workers, Drop(l, w))
  {
    assert Plain(Drop(l, w)) == Plain(l) - {w};
  }

  lemma {:induction false} AnswerWithinBudget(env: Settings, workers: nat, l: Lane, w: nat, model: Model)
    requires WithinBudget(workers, l) && Enabled(workers, l, Answer(w, model)) && WithinBudget(workers, Drop(l, w))
    ensures WithinBudget(workers, Apply(env, l, Answer(w, model)))
  {
    var l' := Apply(env, l, Answer(w, model));
    if model.Produced? {
      assert Plain(l') == Plain(l);
    }
  }

  lemma {:induction false} StoreWithinBudget(env: Settings, workers: nat, l: Lane, w: nat, readable: bool)
    requires WithinBudget(workers, l) && Enabled(workers, l, Store(w, readable))
    ensures WithinBudget(workers, Apply(env, l, Store(w, readable)))
  {
    var l' := Apply(env, l, Store(w, readable));
    assert Plain(l') == Plain(l) - {w};
    assert Usable(l'.group);
  }

  lemma {:induction false} PlainWithin(workers: nat, l: Lane)
    requires forall w :: w in l.busy ==> w < workers
    ensures |Plain(l)| <= workers
  {
    CountBelow(Plain(l), workers);
  }

  lemma {:induction false} CountBelow(s: set<nat>, n: nat)
    requires forall w :: w in s ==> w < n
    ensures |s| <= n
  {
    if n > 0 {
      CountBelow(s - {n - 1}, n - 1);
    } else {
      assert s == {};
    }
  }

  lemma {:induction false} RunWithinBudget(env: Settings, workers: nat, l: Lane, run: seq<Step>)
    requires env.reuseEnabled && WithinBudget(workers, l) && ValidRun(env, workers, l, run)
    ensures WithinBudget(workers, Exec(env, l, run))
    decreases run
  {
    if run != [] {
      StepWithinBudget(env, workers, l, run[0]);
      RunWithinBudget(env, workers, Apply(env, l, run[0]), run[1..]);
    }
  }

  lemma {:induction false} AllowanceIsProduct(workers: nat, losses: nat)
    ensures Allowance(workers, losses) == workers * losses
  {
    if losses > 0 {
      AllowanceIsProduct(workers, losses - 1);
    }
  }

  /**
   The cost of one failure mode over any run on `workers` workers with reuse enabled: apart from the
   runs a discrepancy asked for and the runs that left nothing behind, the model runs at most once per
   worker, and once more per worker for every time the group record could not be read.
   */
  lemma {:induction false} ModelCost(env: Settings, workers: nat, run: seq<Step>, end: Lane)
    requires env.reuseEnabled && ValidRun(env, workers, IDLE, run) && end == Exec(env, IDLE, run)
    ensures end.modelRuns <= workers + workers * end.losses + end.discrepant + end.unstored
  {
    AllowanceIsProduct(workers, end.losses);
    IdleWithinBudget(workers);
    RunWithinBudget(env, workers, IDLE, run);
  }

  /** A case of class A whose logs leave the trace in doubt. */
  predicate DoubtfulBegin(step: Step) {
    step.Begin? && step.evidence.failureClass == Business && InDoubt(step.evidence.verdict)
  }

  function DoubtfulBegins(run: seq<Step>): nat
    decreases run
  {
    if run == [] then 0 else (if DoubtfulBegin(run[0]) then 1 else 0) + DoubtfulBegins(run[1..])
  }

  /** How often the record of the group could not be read when a case began. */
  function UnreadableBegins(run: seq<Step>): nat
    decreases run
  {
    if run == [] then 0 else (if run[0].Begin? && !run[0].readable then 1 else 0) + UnreadableBegins(run[1..])
  }

  /** How often a worker died, or its model gave no finding. */
  function Failures(run: seq<Step>): nat
    decreases run
  {
    if run == [] then 0
    else (if run[0].Die? || (run[0].Answer? && !run[0].model.Produced?) then 1 else 0) + Failures(run[1..])
  }

  /** A case asks the model exactly when it is of class A and in doubt, reuse is off, or no finding is stored. */
  lemma {:induction false} BeginAsksExactly(
    env: Settings, l: Lane, w: nat, o: Occurrence, e: Evidence, readable: bool)
    ensures var t := Apply(env, l, Begin(w, o, e, readable));
            && (t.modelRuns == l.modelRuns || t.modelRuns == l.modelRuns + 1)
            && (t.modelRuns == l.modelRuns + 1 <==>
                  && e.failureClass == Business
                  && (InDoubt(e.verdict) || !env.reuseEnabled || !readable || !HasFinding(l.group)))
            && (t.modelRuns == l.modelRuns + 1 ==> w in t.busy && t.busy[w] == Asking(e))
  {
  }

  lemma {:induction false} StepCounts(env: Settings, workers: nat, l: Lane, step: Step)
    requires Enabled(workers, l, step)
    ensures var t := Apply(env, l, step);
            && t.discrepant == l.discrepant + (if DoubtfulBegin(step) then 1 else 0)
            && t.losses == l.losses + (if step.Begin? && !step.readable then 1 else 0)
            && t.unstored <= l.unstored + (if step.Die? || (step.Answer? && !step.model.Produced?) then 1 else 0)
            && t.modelRuns >= l.modelRuns + (if DoubtfulBegin(step) then 1 else 0)
  {
  }

  /** The lane's counters count the steps of its run. */
  lemma {:induction false} RunCounts(env: Settings, workers: nat, l: Lane, run: seq<Step>)
    requires ValidRun(env, workers, l, run)
    ensures var end := Exec(env, l, run);
            && end.discrepant == l.discrepant + DoubtfulBegins(run) && end.losses == l.losses + UnreadableBegins(run)
            && end.unstored <= l.unstored + Failures(run) && end.modelRuns >= l.modelRuns + DoubtfulBegins(run)
    decreases run
  {
    if run != [] {
      StepCounts(env, workers, l, run[0]);
      RunCounts(env, workers, Apply(env, l, run[0]), run[1..]);
    }
  }

  /**
   The cost in terms of the run alone, from both sides: every doubtful case of class A has its own model run, and
   beyond those the model runs at most once per worker, per worker and unreadable record, and per failure.
   */
  lemma {:induction false} ModelCostOfRun(env: Settings, workers: nat, run: seq<Step>, end: Lane)
    requires env.reuseEnabled && ValidRun(env, workers, IDLE, run) && end == Exec(env, IDLE, run)
    ensures DoubtfulBegins(run) <= end.modelRuns
    ensures end.modelRuns <= workers + workers * UnreadableBegins(run) + DoubtfulBegins(run) + Failures(run)
  {
    RunCounts(env, workers, IDLE, run);
    ModelCost(env, workers, run, end);
  }

  /** With one worker and readable records: at most one run, plus discrepancies, plus failures. */
  lemma {:induction false} SequentialModelCost(env: Settings, run: seq<Step>, end: Lane)
    requires env.reuseEnabled && ValidRun(env, 1, IDLE, run) && end == Exec(env, IDLE, run) && end.losses == 0
    ensures end.modelRuns <= 1 + end.discrepant + end.unstored
  {
    ModelCost(env, 1, run, end);
  }

  lemma {:induction false} IdleWithinBudget(workers: nat)
    ensures WithinBudget(workers, IDLE)
  {
    assert Plain(IDLE) == {};
  }

  lemma {:induction false} ReuseServesTheGroup(env: Settings, g: Group, text: string, e: Evidence, model: Model)
    requires Decide(env, e.failureClass, e.verdict, Usable(g)) == ReuseGroup
    ensures g.recommendation.Some?
    ensures FinalFinding(env, g, text, e, model) == Policy(env, g.recommendation.value, e, true)
  {
  }
}
