/**
 Findings of the dead-letter lane and the rules that bound them: the reuse decision
 (src/dlt/reuse.py), the fixed treatments (src/dlt/canned.py), the confidence ceilings
 (src/models/dlt_synthesis.py) and the replay gate (src/dlt/auto_replay.py).
 */
module DltFindings {
  import opened Collections
  import opened Options

  /** Classes A, B, C and U. */
  datatype FailureClass = Business | CodeDefect | Technical | Unclassified

  datatype Verdict = Corroborated | Partial | Contradicted | Unverifiable

  datatype Action = NeedsManualReview | RouteToDev | RedriveAfterRecovery | DataFixRequired | NoAction

  datatype Ceiling = ClassB | ClassU | UnverifiableLogs | ContradictedTrace | RegistryMiss | EvidenceGap | ReuseDecay

  datatype Finding = Finding(text: string, action: Action, confidence: Option<real>, ceilings: seq<Ceiling>)

  /** A present confidence lies between 0 and 1: what the finding contract checks whenever a finding is built. */
  predicate InContract(finding: Finding) {
    finding.confidence.Some? ==> 0.0 <= finding.confidence.value <= 1.0
  }

  /** The environment settings. Operators may set any numbers; `decay` is what reuse does to a confidence. */
  datatype Settings = Settings(
    classB: real, unverified: real, contradicted: real, registryMiss: real, gap: real, decay: real -> real,
    reuseEnabled: bool, replayEnabled: bool, replayActions: set<Action>, threshold: real)

  /** The evidence of one case. */
  datatype Evidence = Evidence(failureClass: FailureClass, verdict: Verdict, registryHit: bool, gapped: bool)

  predicate DefaultCeilings(env: Settings) {
    env.classB == 0.3 && env.unverified == 0.5 && env.contradicted == 0.6 && env.registryMiss == 0.5
  }

  const DEFAULT_CONFIDENCE_THRESHOLD := 0.55

  // ------------------------------------------------------------------
  // Reuse
  // ------------------------------------------------------------------

  datatype Decision = LlmRequired | ReuseGroup | Canned

  predicate Discrepant(verdict: Verdict) {
    verdict == Contradicted || verdict == Partial
  }

  function Decide(env: Settings, failureClass: FailureClass, verdict: Verdict, usable: bool): Decision {
    if failureClass != Business then Canned
    else if Discrepant(verdict) then LlmRequired
    else if !env.reuseEnabled then LlmRequired
    else if !usable then LlmRequired
    else ReuseGroup
  }

  // ------------------------------------------------------------------
  // Fixed treatments
  // ------------------------------------------------------------------

  function Build(failureClass: FailureClass, text: string): Finding {
    var action := match failureClass
      case Technical => RedriveAfterRecovery
      case CodeDefect => RouteToDev
      case _ => NeedsManualReview;
    Finding(text, action, None, [])
  }

  /** What stands in for an agent run whose output breaks the contract. */
  const FAILED_SYNTHESIS := Finding("failed synthesis", NeedsManualReview, Some(0.0), [])

  // ------------------------------------------------------------------
  // Confidence ceilings
  // ------------------------------------------------------------------

  /** Without source access a class B or U narrative would be invention. */
  predicate OnlyRouted(failureClass: FailureClass) {
    failureClass == CodeDefect || failureClass == Unclassified
  }

  predicate RoutingAction(action: Action) {
    action == NeedsManualReview || action == RouteToDev
  }

  function ClassCap(env: Settings, e: Evidence): seq<(real, Ceiling)> {
    if OnlyRouted(e.failureClass) then [(env.classB, if e.failureClass == CodeDefect then ClassB else ClassU)] else []
  }

  function VerdictCap(env: Settings, e: Evidence): seq<(real, Ceiling)> {
    if e.verdict == Unverifiable then [(env.unverified, UnverifiableLogs)]
    else if e.verdict == Contradicted then [(env.contradicted, ContradictedTrace)]
    else []
  }

  function RegistryCap(env: Settings, e: Evidence): seq<(real, Ceiling)> {
    if e.failureClass == Business && !e.registryHit then [(env.registryMiss, RegistryMiss)] else []
  }

  function GapCap(env: Settings, e: Evidence): seq<(real, Ceiling)> {
    if e.gapped then [(env.gap, EvidenceGap)] else []
  }

  /** The ceilings the evidence calls for, in the order they are named. */
  function Caps(env: Settings, e: Evidence): seq<(real, Ceiling)> {
    ClassCap(env, e) + VerdictCap(env, e) + RegistryCap(env, e) + GapCap(env, e)
  }

  function Labels(caps: seq<(real, Ceiling)>): (labels: seq<Ceiling>)
    ensures |labels| == |caps| && forall k :: 0 <= k < |caps| ==> labels[k] == caps[k].1
  {
    seq(|caps|, k requires 0 <= k < |caps| => caps[k].1)
  }

  /** `c` is the least of `own`, 1 and every applicable ceiling. */
  ghost predicate Bounded(own: real, caps: seq<(real, Ceiling)>, c: real) {
    && c <= own && c <= 1.0 && (forall cap :: cap in caps ==> c <= cap.0)
    && (c == own || c == 1.0 || exists cap :: cap in caps && c == cap.0)
  }

  function Lesser(a: real, b: real): real {
    if a < b then a else b
  }

  function Lowest(own: real, caps: seq<(real, Ceiling)>): (c: real)
    ensures Bounded(own, caps, c)
  {
    if caps == [] then Lesser(own, 1.0)
    else
      var init, last := caps[..|caps| - 1], caps[|caps| - 1];
      var below := Lowest(own, init);
      assert caps == init + [last];
      Lesser(last.0, below)
  }

  lemma {:induction false} BoundedIsUnique(own: real, caps: seq<(real, Ceiling)>, c: real, d: real)
    requires Bounded(own, caps, c) && Bounded(own, caps, d)
    ensures c == d
  {
  }

  function Decayed(env: Settings, confidence: real, reused: bool): real {
    if reused then env.decay(confidence) else confidence
  }

  /** The decay of the source: multiplication by the configured factor. */
  function Times(factor: real): real -> real {
    confidence => confidence * factor
  }

  function CappedConfidence(own: Option<real>, caps: seq<(real, Ceiling)>): Option<real> {
    if own.None? then None else Some(Lowest(own.value, caps))
  }

  function RoutedAction(failureClass: FailureClass, action: Action): Action {
    if OnlyRouted(failureClass) && !RoutingAction(action) then NeedsManualReview else action
  }

  /**
   The finding the lane keeps: an absent confidence stays absent, a present one becomes the least of
   its own value (decayed once if reused) and the ceilings, and a class B or U finding is only routed.
   */
  function Policy(env: Settings, finding: Finding, e: Evidence, reused: bool): Finding {
    Finding(finding.text, RoutedAction(e.failureClass, finding.action),
            CappedConfidence(Own(env, finding, reused), Caps(env, e)),
            Labels(Caps(env, e)) + if reused && finding.confidence.Some? then [ReuseDecay] else [])
  }

  /** The confidence the ceilings are applied to. */
  function Own(env: Settings, finding: Finding, reused: bool): Option<real> {
    if finding.confidence.None? then None else Some(Decayed(env, finding.confidence.value, reused))
  }

  method Cap(applied: seq<(real, Ceiling)>, ceiling: real, value: real, name: Ceiling)
    returns (applied': seq<(real, Ceiling)>, ceiling': real)
    requires Bounded(1.0, applied, ceiling)
    ensures applied' == applied + [(value, name)] && Bounded(1.0, applied', ceiling')
  {
    ceiling' := if value < ceiling then value else ceiling;
    applied' := applied + [(value, name)];
  }

  method EvidenceCeiling(env: Settings, e: Evidence) returns (applied: seq<(real, Ceiling)>, ceiling: real)
    ensures applied == Caps(env, e) && Bounded(1.0, applied, ceiling)
  {
    applied, ceiling := [], 1.0;
    if OnlyRouted(e.failureClass) {
      applied, ceiling := Cap(applied, ceiling, env.classB, if e.failureClass == CodeDefect then ClassB else ClassU);
    }
    assert applied == ClassCap(env, e);
    if e.verdict == Unverifiable {
      applied, ceiling := Cap(applied, ceiling, env.unverified, UnverifiableLogs);
    } else if e.verdict == Contradicted {
      applied, ceiling := Cap(applied, ceiling, env.contradicted, ContradictedTrace);
    }
    assert applied == ClassCap(env, e) + VerdictCap(env, e);
    if e.failureClass == Business && !e.registryHit {
      applied, ceiling := Cap(applied, ceiling, env.registryMiss, RegistryMiss);
    }
    assert applied == ClassCap(env, e) + VerdictCap(env, e) + RegistryCap(env, e);
    if e.gapped {
      applied, ceiling := Cap(applied, ceiling, env.gap, EvidenceGap);
    }
    assert applied == Caps(env, e);
  }

  method ApplyConfidencePolicy(env: Settings, finding: Finding, e: Evidence, reused: bool) returns (r: Finding)
    ensures r == Policy(env, finding, e, reused)
  {
    var applied, ceiling := EvidenceCeiling(env, e);
    var labels := Labels(applied);
    var own := finding.confidence;
    if own.Some? && reused {
      own := Some(Decayed(env, own.value, true));
      labels := labels + [ReuseDecay];
    }
    assert own == Own(env, finding, reused);
    var confidence := None;
    if own.Some? {
      confidence := UnderCeiling(own.value, applied, ceiling);
    }
    assert confidence == CappedConfidence(own, applied);
    var action := finding.action;
    if OnlyRouted(e.failureClass) && !RoutingAction(action) {
      action := NeedsManualReview;
    }
    r := finding.(confidence := confidence, ceilings := labels, action := action);
  }

  method UnderCeiling(own: real, applied: seq<(real, Ceiling)>, ceiling: real) returns (confidence: Option<real>)
    requires Bounded(1.0, applied, ceiling)
    ensures confidence == CappedConfidence(Some(own), applied)
  {
    confidence := Some(Lesser(own, ceiling));
    BoundedIsUnique(own, applied, Lesser(own, ceiling), Lowest(own, applied));
  }

  /** What the policy promises of every finding, whatever the model said and however the ceilings are set. */
  lemma {:induction false} PolicyPromises(env: Settings, finding: Finding, e: Evidence, reused: bool)
    ensures var r := Policy(env, finding, e, reused);
            && (r.confidence.Some? <==> finding.confidence.Some?)
            && (r.confidence.Some? ==>
                  && Bounded(Decayed(env, finding.confidence.value, reused), Caps(env, e), r.confidence.value)
                  && (e.verdict == Unverifiable ==> r.confidence.value <= env.unverified)
                  && (e.verdict == Contradicted ==> r.confidence.value <= env.contradicted)
                  && (e.failureClass == Business && !e.registryHit ==> r.confidence.value <= env.registryMiss)
                  && (OnlyRouted(e.failureClass) ==> r.confidence.value <= env.classB)
                  && (e.gapped ==> r.confidence.value <= env.gap))
            && (OnlyRouted(e.failureClass) ==> RoutingAction(r.action))
            && (!OnlyRouted(e.failureClass) ==> r.action == finding.action)
            && r.text == finding.text
            && (r.action == finding.action ||
                  (r.action == NeedsManualReview
                   && (e.failureClass == CodeDefect || e.failureClass == Unclassified)
                   && finding.action != RouteToDev))
  {
    CapsApply(env, e);
  }

  /** Every ceiling the evidence calls for is among the caps. */
  lemma {:induction false} CapsApply(env: Settings, e: Evidence)
    ensures OnlyRouted(e.failureClass) ==> exists cap :: cap in Caps(env, e) && cap.0 == env.classB
    ensures e.verdict == Unverifiable ==> exists cap :: cap in Caps(env, e) && cap.0 == env.unverified
    ensures e.verdict == Contradicted ==> exists cap :: cap in Caps(env, e) && cap.0 == env.contradicted
    ensures e.failureClass == Business && !e.registryHit ==>
              exists cap :: cap in Caps(env, e) && cap.0 == env.registryMiss
    ensures e.gapped ==> exists cap :: cap in Caps(env, e) && cap.0 == env.gap
  {
    var caps := Caps(env, e);
    assert OnlyRouted(e.failureClass) ==> ClassCap(env, e)[0] in caps;
    assert e.verdict == Unverifiable || e.verdict == Contradicted ==> VerdictCap(env, e)[0] in caps;
    assert e.failureClass == Business && !e.registryHit ==> RegistryCap(env, e)[0] in caps;
    assert e.gapped ==> GapCap(env, e)[0] in caps;
  }

  /** A label names its ceiling exactly when the evidence calls for it. */
  predicate Called(e: Evidence, name: Ceiling) {
    match name
    case ClassB => e.failureClass == CodeDefect
    case ClassU => e.failureClass == Unclassified
    case UnverifiableLogs => e.verdict == Unverifiable
    case ContradictedTrace => e.verdict == Contradicted
    case RegistryMiss => e.failureClass == Business && !e.registryHit
    case EvidenceGap => e.gapped
    case ReuseDecay => false
  }

  /** The value a label stands for. */
  function ValueOf(env: Settings, name: Ceiling): real {
    match name
    case UnverifiableLogs => env.unverified
    case ContradictedTrace => env.contradicted
    case RegistryMiss => env.registryMiss
    case EvidenceGap => env.gap
    case _ => env.classB
  }

  function Rank(name: Ceiling): nat {
    match name
    case ClassB => 0
    case ClassU => 0
    case UnverifiableLogs => 1
    case ContradictedTrace => 1
    case RegistryMiss => 2
    case EvidenceGap => 3
    case ReuseDecay => 4
  }

  /** Caps the evidence calls for, with their own values, in the order of their ranks and below rank `r`. */
  predicate InOrder(env: Settings, e: Evidence, caps: seq<(real, Ceiling)>, r: nat) {
    && (forall k :: 0 <= k < |caps| ==>
          Called(e, caps[k].1) && caps[k].0 == ValueOf(env, caps[k].1) && Rank(caps[k].1) < r)
    && (forall i, j :: 0 <= i < j < |caps| ==> Rank(caps[i].1) < Rank(caps[j].1))
  }

  /** At most one cap, of rank `r`. */
  predicate OfRank(env: Settings, e: Evidence, caps: seq<(real, Ceiling)>, r: nat) {
    |caps| <= 1 &&
    (|caps| == 1 ==> Called(e, caps[0].1) && caps[0].0 == ValueOf(env, caps[0].1) && Rank(caps[0].1) == r)
  }

  lemma {:induction false} OneMoreInOrder(
    env: Settings, e: Evidence, caps: seq<(real, Ceiling)>, more: seq<(real, Ceiling)>, r: nat)
    requires InOrder(env, e, caps, r) && OfRank(env, e, more, r)
    ensures InOrder(env, e, caps + more, r + 1)
  {
  }

  lemma {:induction false} FourInOrder(
    env: Settings, e: Evidence, a: seq<(real, Ceiling)>, b: seq<(real, Ceiling)>,
    c: seq<(real, Ceiling)>, d: seq<(real, Ceiling)>)
    requires OfRank(env, e, a, 0) && OfRank(env, e, b, 1) && OfRank(env, e, c, 2) && OfRank(env, e, d, 3)
    ensures InOrder(env, e, a + b + c + d, 4)
  {
    OneMoreInOrder(env, e, a, b, 1);
    OneMoreInOrder(env, e, a + b, c, 2);
    OneMoreInOrder(env, e, a + b + c, d, 3);
  }

  lemma {:induction false} CapsAreInOrder(env: Settings, e: Evidence)
    ensures InOrder(env, e, Caps(env, e), 4)
  {
    FourInOrder(env, e, ClassCap(env, e), VerdictCap(env, e), RegistryCap(env, e), GapCap(env, e));
  }

  /** Every ceiling the evidence calls for is applied once, with its own value, and no other. */
  lemma {:induction false} CapsAreCalled(env: Settings, e: Evidence, name: Ceiling)
    ensures Called(e, name) <==> (ValueOf(env, name), name) in Caps(env, e)
    ensures forall i, j :: 0 <= i < j < |Caps(env, e)| ==> Caps(env, e)[i].1 != Caps(env, e)[j].1
  {
    CapsAreInOrder(env, e);
    if Called(e, name) {
      CalledIsCapped(env, e, name);
    }
  }

  lemma {:induction false} CalledIsCapped(env: Settings, e: Evidence, name: Ceiling)
    requires Called(e, name)
    ensures (ValueOf(env, name), name) in Caps(env, e)
  {
    var cap := (ValueOf(env, name), name);
    if name == ClassB || name == ClassU {
      assert ClassCap(env, e)[0] == cap;
    } else if name == UnverifiableLogs || name == ContradictedTrace {
      assert VerdictCap(env, e)[0] == cap;
    } else if name == RegistryMiss {
      assert RegistryCap(env, e)[0] == cap;
    } else {
      assert GapCap(env, e)[0] == cap;
    }
    InFour(ClassCap(env, e), VerdictCap(env, e), RegistryCap(env, e), GapCap(env, e), cap);
  }

  lemma {:induction false} InFour<T>(a: seq<T>, b: seq<T>, c: seq<T>, d: seq<T>, x: T)
    ensures x in a + b + c + d <==> x in a || x in b || x in c || x in d
  {
  }

  /** A finding's labels name the ceilings the evidence called for, and the decay of a reused confidence. */
  lemma {:induction false} CeilingsAreNamed(env: Settings, finding: Finding, e: Evidence, reused: bool, name: Ceiling)
    ensures name in Policy(env, finding, e, reused).ceilings <==>
            Called(e, name) || (name == ReuseDecay && reused && finding.confidence.Some?)
  {
    CapsAreInOrder(env, e);
    CapsAreCalled(env, e, name);
    LabelsName(env, e, Caps(env, e), name);
    var decay := if reused && finding.confidence.Some? then [ReuseDecay] else [];
    InConcat(Labels(Caps(env, e)), decay, name);
  }

  lemma {:induction false} LabelsName(env: Settings, e: Evidence, caps: seq<(real, Ceiling)>, name: Ceiling)
    requires InOrder(env, e, caps, 4)
    ensures name in Labels(caps) <==> (ValueOf(env, name), name) in caps
  {
    var labels := Labels(caps);
    if (ValueOf(env, name), name) in caps {
      var k :| 0 <= k < |caps| && caps[k] == (ValueOf(env, name), name);
      assert labels[k] == name;
    }
    if name in labels {
      var k :| 0 <= k < |labels| && labels[k] == name;
      assert caps[k] == (ValueOf(env, name), name);
    }
  }

  /**
   The fixed treatment of each class but A is kept by the policy: redrive a technical fault, route a code defect
   to its team, leave the unclassified to a human; and it carries no confidence.
   */
  lemma {:induction false} TreatmentStands(env: Settings, text: string, e: Evidence)
    requires e.failureClass != Business
    ensures var r := Policy(env, Build(e.failureClass, text), e, false);
            && r.text == text && r.confidence == None
            && r.action == match e.failureClass
                           case Technical => RedriveAfterRecovery
                           case CodeDefect => RouteToDev
                           case _ => NeedsManualReview
  {
  }

  // ------------------------------------------------------------------
  // Replay gate
  // ------------------------------------------------------------------

  datatype ReplayReason = SwitchedOff | ActionNotReplayable | NoConfidence | BelowThreshold | NoReference | Clears

  function DecideReplay(env: Settings, finding: Finding, refId: string): (bool, ReplayReason) {
    if !env.replayEnabled then (false, SwitchedOff)
    else if finding.action !in env.replayActions then (false, ActionNotReplayable)
    else if finding.confidence.None? then (false, NoConfidence)
    else if finding.confidence.value < env.threshold then (false, BelowThreshold)
    else if refId == "" then (false, NoReference)
    else (true, Clears)
  }

  /** The `replay` block of the casebook. */
  datatype Replay = Replay(attempted: bool, queued: bool, reason: ReplayReason)

  /** `toolRaised` says how the replay tool's call ended, if it was made. */
  method MaybeReplay(
    env: Settings, finding: Finding, refId: string, toolRaised: bool)
    returns (replay: Replay, calls: nat)
    ensures replay.attempted <==> replay.reason == Clears
    ensures replay.attempted <==>
              && env.replayEnabled && finding.action in env.replayActions && refId != ""
              && finding.confidence.Some? && env.threshold <= finding.confidence.value
    ensures calls == if replay.attempted then 1 else 0
    ensures replay.queued <==> replay.attempted && !toolRaised
    ensures (replay.attempted, replay.reason) == DecideReplay(env, finding, refId)
  {
    var decision := DecideReplay(env, finding, refId);
    if !decision.0 {
      return Replay(false, false, decision.1), 0;
    }
    calls := 1;
    replay := Replay(true, !toolRaised, decision.1);
  }
}
