/**
 Who may overwrite a verdict (src/api/routes.py, src/utils/kafkaConsumer.py, src/storage/local.py).

 Any number of actors work on the same case at once: log fetches, investigations, the consumer's
 timeout handler and the API's shutdown drain. Every file read and every file write is one step of its
 own, other actors run in between, and an actor may stop for good after any step.
 */
module TerminalProtocol {
  import opened Collections
  import opened Options
  import opened Casebooks

  datatype Kind = Fetch | Investigation | Timeout | Shutdown

  /** Where an actor stands: the name says what its next step does. */
  datatype Pc =
    | FetchReadStatus | FetchReadCasebook | FetchReload | FetchMark
    | RunLoadCasebook | RunLoadStatus(closed: bool) | RunMark | RunAgent
    | GuardReadStatus(verdict: string) | GuardReadCasebook(verdict: string)
    | DrainReadStatus | DrainReadCasebook
    | SaveCasebook(verdict: string, inTry: bool) | SaveStatus(verdict: string, inTry: bool)
    | Done

  datatype World = World(files: Files, actors: map<nat, Pc>)

  const START := World(NO_FILES, map[])

  /**
   What the outside decides at a step: nothing, the agent's outcome, how old an IN_PROGRESS case is and
   whether a checkpoint of it can be resumed, or a storage fault. A fault ends the actor, except that one inside the
   agent-timeout branch is caught by the enclosing handler, which records DLQ instead.
   */
  datatype Outside =
    | Nothing
    | Verdict(status: string) | AgentTimeout | AgentRaised
    | InProgress(stale: bool, resumable: bool)
    | Fault

  datatype Action = Spawn(id: nat, kind: Kind) | Step(id: nat, outside: Outside) | Stop(id: nat)

  function First(kind: Kind): Pc {
    match kind
    case Fetch => FetchReadStatus
    case Investigation => RunLoadCasebook
    case Timeout => SaveCasebook("FAILED_TIMEOUT", false)
    case Shutdown => DrainReadStatus
  }

  /** Where the actor's next step leads, given what it reads. */
  function Next(files: Files, pc: Pc, outside: Outside): Pc {
    if outside == Fault then
      if (pc.SaveCasebook? || pc.SaveStatus?) && pc.inTry then SaveCasebook("DLQ", false) else Done
    else
    match pc
    case FetchReadStatus => if Terminal(files.status) then Done else FetchReadCasebook
    case FetchReadCasebook => if Terminal(files.casebook) then Done else FetchReload
    case FetchReload => if files.status == None || files.status == Some(LOGS_FETCHED) then FetchMark else Done
    case FetchMark => Done
    case RunLoadCasebook => RunLoadStatus(Terminal(files.casebook))
    case RunLoadStatus(closed) =>
      if closed then Done
      else if files.status == Some(IN_PROGRESS) && outside != InProgress(true, false) then Done
      else RunMark
    case RunMark => RunAgent
    case RunAgent =>
      (match outside
       case Verdict(status) => GuardReadStatus(status)
       case AgentTimeout => SaveCasebook("FAILED_TIMEOUT", true)
       case _ => SaveCasebook("DLQ", false))
    case GuardReadStatus(verdict) =>
      if !Terminal(files.status) then GuardReadCasebook(verdict)
      else if Protected(files.status) then Done else SaveCasebook(verdict, false)
    case GuardReadCasebook(verdict) => if Protected(files.casebook) then Done else SaveCasebook(verdict, false)
    case DrainReadStatus => if Terminal(files.status) then Done else DrainReadCasebook
    case DrainReadCasebook => if Terminal(files.casebook) then Done else SaveCasebook("FAILED_SHUTDOWN", false)
    case SaveCasebook(verdict, inTry) => SaveStatus(verdict, inTry)
    case SaveStatus(verdict, inTry) => Done
    case Done => Done
  }

  /** What the actor's next step does to the files. A step whose storage call faults writes nothing. */
  function Written(files: Files, pc: Pc, outside: Outside): Files {
    if outside == Fault then files else
    match pc
    case FetchMark => Write(files, StatusFile, Some(LOGS_FETCHED))
    case RunMark => Write(files, StatusFile, Some(IN_PROGRESS))
    case SaveCasebook(verdict, _) => Write(files, CasebookFile, Some(verdict))
    case SaveStatus(verdict, _) => Write(files, StatusFile, Some(verdict))
    case _ => files
  }

  /** The agent run ends, in a status the storage layer counts as terminal, by timeout or by an exception. */
  predicate Enabled(w: World, a: Action) {
    match a
    case Spawn(id, kind) => id !in w.actors
    case Step(id, outside) =>
      && id in w.actors && (outside.Verdict? ==> outside.status in TERMINAL_STATUSES)
      && (w.actors[id] == RunAgent ==> outside.Verdict? || outside == AgentTimeout || outside == AgentRaised)
    case Stop(id) => id in w.actors
  }

  function Apply(w: World, a: Action): World {
    match a
    case Spawn(id, kind) => w.(actors := w.actors[id := First(kind)])
    case Step(id, outside) =>
      if id !in w.actors then w else
      World(Written(w.files, w.actors[id], outside), w.actors[id := Next(w.files, w.actors[id], outside)])
    case Stop(id) => if id !in w.actors then w else w.(actors := w.actors[id := Done])
  }

  function Exec(w: World, run: seq<Action>): World
    decreases run
  {
    if run == [] then w else Exec(Apply(w, run[0]), run[1..])
  }

  predicate ValidRun(w: World, run: seq<Action>)
    decreases run
  {
    run == [] || (Enabled(w, run[0]) && ValidRun(Apply(w, run[0]), run[1..]))
  }

  // ------------------------------------------------------------------
  // A terminal case stays terminal
  // ------------------------------------------------------------------

  predicate PcSound(files: Files, pc: Pc) {
    match pc
    case GuardReadStatus(verdict) => verdict in TERMINAL_STATUSES
    case GuardReadCasebook(verdict) => verdict in TERMINAL_STATUSES
    case SaveCasebook(verdict, _) => verdict in TERMINAL_STATUSES
    case SaveStatus(verdict, _) => verdict in TERMINAL_STATUSES && Terminal(files.casebook)
    case _ => true
  }

  predicate Sound(w: World) {
    && (Terminal(w.files.status) ==> Terminal(w.files.casebook))
    && forall id :: id in w.actors ==> PcSound(w.files, w.actors[id])
  }

  lemma {:induction false} StepSound(w: World, a: Action)
    requires Sound(w) && Enabled(w, a)
    ensures Sound(Apply(w, a))
    ensures Terminal(w.files.casebook) ==> Terminal(Apply(w, a).files.casebook)
  {
    assert a.Step? ==> PcSound(w.files, w.actors[a.id]);
  }

  lemma {:induction false} RunSound(w: World, run: seq<Action>)
    requires Sound(w) && ValidRun(w, run)
    ensures Sound(Exec(w, run))
    ensures Terminal(w.files.casebook) ==> Terminal(Exec(w, run).files.casebook)
    decreases run
  {
    if run != [] {
      StepSound(w, run[0]);
      RunSound(Apply(w, run[0]), run[1..]);
    }
  }

  /**
   Terminal is absorbing, whatever the interleaving and wherever actors stop: a terminal status.json
   always has a terminal casebook behind it, and once the casebook is terminal every later reader of
   both files finds a verdict.
   */
  lemma {:induction false} TerminalIsAbsorbing(before: seq<Action>, after: seq<Action>)
    requires ValidRun(START, before) && ValidRun(Exec(START, before), after)
    ensures var mid, end := Exec(START, before).files, Exec(Exec(START, before), after).files;
            && (Terminal(mid.status) ==> Terminal(mid.casebook))
            && (Terminal(mid.casebook) ==> Terminal(end.casebook) && Visible(end).Some?)
  {
    RunSound(START, before);
    RunSound(Exec(START, before), after);
  }

  // ------------------------------------------------------------------
  // Late starters write nothing
  // ------------------------------------------------------------------

  /** An actor that has not looked at the casebook yet, or has found it terminal. */
  predicate Shut(pc: Pc) {
    pc in {FetchReadStatus, FetchReadCasebook, RunLoadCasebook, RunLoadStatus(true), DrainReadStatus,
           DrainReadCasebook, Done}
  }

  lemma {:induction false} ShutStaysShut(w: World, run: seq<Action>, id: nat)
    requires Sound(w) && ValidRun(w, run) && Terminal(w.files.casebook)
    requires id in w.actors ==> Shut(w.actors[id])
    requires forall k :: 0 <= k < |run| && run[k].Spawn? && run[k].id == id ==> run[k].kind != Timeout
    ensures var end := Exec(w, run);
            id in end.actors ==> Shut(end.actors[id])
    decreases run
  {
    if run != [] {
      StepSound(w, run[0]);
      assert forall k :: 0 <= k < |run| - 1 ==> run[1..][k] == run[k + 1];
      ShutStaysShut(Apply(w, run[0]), run[1..], id);
    }
  }

  /**
   Once the casebook is terminal, a fetch, an investigation or a drain that starts its checks then or
   later never changes either file.
   */
  lemma {:induction false} LateStartersWriteNothing(before: seq<Action>, after: seq<Action>, id: nat, outside: Outside)
    requires ValidRun(START, before) && ValidRun(Exec(START, before), after)
    requires var mid := Exec(START, before);
             Terminal(mid.files.casebook) && (id in mid.actors ==> Shut(mid.actors[id]))
    requires forall k :: 0 <= k < |after| && after[k].Spawn? && after[k].id == id ==> after[k].kind != Timeout
    requires id in Exec(Exec(START, before), after).actors
    ensures var end := Exec(Exec(START, before), after);
            Apply(end, Step(id, outside)).files == end.files
  {
    RunSound(START, before);
    ShutStaysShut(Exec(START, before), after, id);
  }

  // ------------------------------------------------------------------
  // The late-result guard
  // ------------------------------------------------------------------

  /** The run's remaining steps when nobody else moves: two guard reads at most, then the two writes. */
  function Alone(id: nat, n: nat): seq<Action> {
    seq(n, _ => Step(id, Nothing))
  }

  lemma {:induction false} AloneStep(w: World, id: nat, n: nat)
    requires id in w.actors && n > 0
    ensures Exec(w, Alone(id, n)) == Exec(Apply(w, Step(id, Nothing)), Alone(id, n - 1))
  {
    assert Alone(id, n)[1..] == Alone(id, n - 1);
  }

  /**
   When nobody else moves, the guard discards a late result exactly when the verdict a reader of both
   files sees is a protected one; otherwise both files end up with the late result.
   `LateResultIsDiscardedExactly` is the theorem for every interleaving.
   */
  lemma {:induction false} GuardDiscardsExactly(w: World, id: nat)
    requires id in w.actors && w.actors[id].GuardReadStatus?
    ensures var end := Exec(w, Alone(id, 4)).files;
            end == if Protected(Visible(w.files)) then w.files
                   else Files(Some(w.actors[id].verdict), Some(w.actors[id].verdict))
  {
    var w1 := Apply(w, Step(id, Nothing));
    var w2 := Apply(w1, Step(id, Nothing));
    var w3 := Apply(w2, Step(id, Nothing));
    AloneStep(w, id, 4);
    AloneStep(w1, id, 3);
    AloneStep(w2, id, 2);
    AloneStep(w3, id, 1);
    assert Alone(id, 0) == [];
  }

  /** Steps of the other actors only. */
  predicate OthersOnly(run: seq<Action>, id: nat) {
    forall k :: 0 <= k < |run| ==> run[k].id != id
  }

  /**
   What the guard's reads find: a protected status.json at the first one, or a status.json that is not
   terminal then and a protected casebook.json at the second.
   */
  predicate FindsProtected(first: Files, second: Files) {
    Protected(first.status) || (!Terminal(first.status) && Protected(second.casebook))
  }

  /** The world behind the guard's last read: one read if status.json was terminal, else a second, `between` later. */
  function Guarded(w: World, id: nat, between: seq<Action>): World {
    var read := Exec(Apply(w, Step(id, Nothing)), between);
    if Terminal(w.files.status) then read else Apply(read, Step(id, Nothing))
  }

  /**
   The guard, for every interleaving: it ends the run if and only if its reads find a protected verdict;
   otherwise the run goes on to write.
   */
  lemma {:induction false} GuardEndsRunExactly(w: World, id: nat, between: seq<Action>)
    requires id in w.actors && w.actors[id].GuardReadStatus?
    requires OthersOnly(between, id) && ValidRun(Apply(w, Step(id, Nothing)), between)
    ensures var read, end := Exec(Apply(w, Step(id, Nothing)), between), Guarded(w, id, between);
            && id in end.actors
            && end.actors[id] == if FindsProtected(w.files, read.files) then Done
                                 else SaveCasebook(w.actors[id].verdict, false)
  {
    OthersLeavePc(Apply(w, Step(id, Nothing)), between, id);
  }

  /** Some verdict is on record, in the words the files use. */
  predicate Closed(recorded: Option<string>) {
    || recorded == Some("COMPLETED") || recorded == Some("REJECTED") || recorded == Some("NEEDS_MANUAL_REVIEW")
    || recorded == Some("FAILED_PERMANENT") || recorded == Some("DLQ") || recorded == Some("FAILED_TIMEOUT")
    || recorded == Some("FAILED_SYNTHESIS_PARSE") || recorded == Some("FAILED_SHUTDOWN")
  }

  /** A verdict that others are acting on already. */
  predicate Reserved(recorded: Option<string>) {
    recorded == Some("FAILED_TIMEOUT") || recorded == Some("DLQ")
  }

  /** In the words the files use: the guard gives way to FAILED_TIMEOUT and DLQ alone. */
  lemma {:induction false} GuardGivesWay(w: World, id: nat, between: seq<Action>)
    requires id in w.actors && w.actors[id].GuardReadStatus?
    requires OthersOnly(between, id) && ValidRun(Apply(w, Step(id, Nothing)), between)
    ensures var read, end := Exec(Apply(w, Step(id, Nothing)), between), Guarded(w, id, between);
            && id in end.actors
            && (end.actors[id] == Done <==>
                  Reserved(w.files.status) || (!Closed(w.files.status) && Reserved(read.files.casebook)))
  {
    GuardEndsRunExactly(w, id, between);
    StatusesAreClosed(w.files.status);
  }

  lemma {:induction false} StatusesAreClosed(recorded: Option<string>)
    ensures Terminal(recorded) <==> Closed(recorded)
  {
  }

  /** A finished actor never writes again. */
  lemma {:induction false} DoneStaysDone(w: World, run: seq<Action>, id: nat)
    requires ValidRun(w, run) && id in w.actors && w.actors[id] == Done
    ensures id in Exec(w, run).actors && Exec(w, run).actors[id] == Done
    decreases run
  {
    if run != [] {
      DoneStaysDone(Apply(w, run[0]), run[1..], id);
    }
  }

  /** A run whose guard found a protected verdict is finished: whatever happens later, it never writes. */
  lemma {:induction false} ProtectedVerdictIsNeverReplaced(w: World, id: nat, between: seq<Action>, after: seq<Action>)
    requires id in w.actors && w.actors[id].GuardReadStatus?
    requires OthersOnly(between, id) && ValidRun(Apply(w, Step(id, Nothing)), between)
    requires FindsProtected(w.files, Exec(Apply(w, Step(id, Nothing)), between).files)
    requires ValidRun(Guarded(w, id, between), after)
    ensures var end := Exec(Guarded(w, id, between), after);
            && id in end.actors && end.actors[id] == Done
            && forall outside :: Apply(end, Step(id, outside)).files == end.files
  {
    GuardEndsRunExactly(w, id, between);
    DoneStaysDone(Guarded(w, id, between), after, id);
  }

  /**
   A run past its guard overwrites whatever others have written since the guard's last read: right after
   its first write casebook.json holds its verdict, and right after its second so does status.json, in
   every interleaving in which the two writes come and do not fault.
   */
  lemma {:induction false} PastTheGuardOverwrites(w: World, id: nat, since: seq<Action>, between: seq<Action>)
    requires id in w.actors && w.actors[id].SaveCasebook?
    requires OthersOnly(since, id) && ValidRun(w, since)
    requires OthersOnly(between, id) && ValidRun(Apply(Exec(w, since), Step(id, Nothing)), between)
    ensures var verdict := Some(w.actors[id].verdict);
            var first := Apply(Exec(w, since), Step(id, Nothing));
            var second := Apply(Exec(first, between), Step(id, Nothing));
            && first.files.casebook == verdict && second.files.status == verdict
            && (between == [] ==> second.files == Files(verdict, verdict))
            && id in second.actors && second.actors[id] == Done
  {
    OthersLeavePc(w, since, id);
    OthersLeavePc(Apply(Exec(w, since), Step(id, Nothing)), between, id);
  }

  /**
   The late result's fate over a whole schedule: with others acting between any two of its steps, and no
   fault, the run leaves both files to the others if and only if the guard's reads find a protected
   verdict; if not, each file holds the late result right after its write.
   */
  lemma {:induction false} LateResultIsDiscardedExactly(
    w: World, id: nat, between: seq<Action>, since: seq<Action>, middle: seq<Action>)
    requires id in w.actors && w.actors[id].GuardReadStatus?
    requires OthersOnly(between, id) && OthersOnly(since, id) && OthersOnly(middle, id)
    requires ValidRun(Apply(w, Step(id, Nothing)), between) && ValidRun(Guarded(w, id, between), since)
    requires ValidRun(Apply(Exec(Guarded(w, id, between), since), Step(id, Nothing)), middle)
    ensures var read := Exec(Apply(w, Step(id, Nothing)), between);
            var verdict := Some(w.actors[id].verdict);
            var before := Exec(Guarded(w, id, between), since);
            var first := Apply(before, Step(id, Nothing));
            var last := Exec(first, middle);
            var second := Apply(last, Step(id, Nothing));
            if FindsProtected(w.files, read.files) then first.files == before.files && second.files == last.files
            else first.files.casebook == verdict && second.files.status == verdict
  {
    GuardEndsRunExactly(w, id, between);
    var g := Guarded(w, id, between);
    if g.actors[id] == Done {
      DoneStaysDone(g, since, id);
      DoneStaysDone(Apply(Exec(g, since), Step(id, Nothing)), middle, id);
    } else {
      PastTheGuardOverwrites(g, id, since, middle);
    }
  }

  // ------------------------------------------------------------------
  // What each actor writes, and when
  // ------------------------------------------------------------------

  /** Others act, in any number, and then the actor takes its next step. */
  function Turn(w: World, id: nat, others: seq<Action>, outside: Outside): World {
    Apply(Exec(w, others), Step(id, outside))
  }

  /** `others` is a possible run of everybody but the actor. */
  predicate Meanwhile(w: World, id: nat, others: seq<Action>) {
    id in w.actors && OthersOnly(others, id) && ValidRun(w, others)
  }

  lemma {:induction false} TurnMoves(w: World, id: nat, others: seq<Action>, outside: Outside)
    requires Meanwhile(w, id, others)
    ensures var files, t := Exec(w, others).files, Turn(w, id, others, outside);
            && id in t.actors && t.actors[id] == Next(files, w.actors[id], outside)
            && t.files == Written(files, w.actors[id], outside)
  {
    OthersLeavePc(w, others, id);
  }

  /** The two writes of a verdict, with others before and between them. */
  ghost predicate WritesBoth(w: World, id: nat, verdict: string, o1: seq<Action>, o2: seq<Action>) {
    var first := Turn(w, id, o1, Nothing);
    var second := Turn(first, id, o2, Nothing);
    && first.files == Exec(w, o1).files.(casebook := Some(verdict))
    && second.files == Exec(first, o2).files.(status := Some(verdict))
    && id in second.actors && second.actors[id] == Done
  }

  lemma {:induction false} SavingWritesBoth(w: World, id: nat, o1: seq<Action>, o2: seq<Action>)
    requires Meanwhile(w, id, o1) && Meanwhile(Turn(w, id, o1, Nothing), id, o2)
    requires w.actors[id].SaveCasebook?
    ensures WritesBoth(w, id, w.actors[id].verdict, o1, o2)
  {
    TurnMoves(w, id, o1, Nothing);
    TurnMoves(Turn(w, id, o1, Nothing), id, o2, Nothing);
  }

  /** An agent run that ends in a verdict writes nothing yet: its guard comes first. */
  lemma {:induction false} FinishedRunIsGuarded(w: World, id: nat, verdict: string, others: seq<Action>)
    requires Meanwhile(w, id, others) && w.actors[id] == RunAgent
    ensures var t := Turn(w, id, others, Verdict(verdict));
            && t.files == Exec(w, others).files
            && id in t.actors && t.actors[id] == GuardReadStatus(verdict)
  {
    TurnMoves(w, id, others, Verdict(verdict));
  }

  /** An agent run that exceeds its budget records FAILED_TIMEOUT in both files, one that raises records DLQ. */
  lemma {:induction false} FailedRunRecords(
    w: World, id: nat, failure: Outside, o0: seq<Action>, o1: seq<Action>, o2: seq<Action>)
    requires failure == AgentTimeout || failure == AgentRaised
    requires Meanwhile(w, id, o0) && w.actors[id] == RunAgent
    requires Meanwhile(Turn(w, id, o0, failure), id, o1)
    requires Meanwhile(Turn(Turn(w, id, o0, failure), id, o1, Nothing), id, o2)
    ensures Turn(w, id, o0, failure).files == Exec(w, o0).files
    ensures var verdict := if failure == AgentTimeout then "FAILED_TIMEOUT" else "DLQ";
            WritesBoth(Turn(w, id, o0, failure), id, verdict, o1, o2)
  {
    TurnMoves(w, id, o0, failure);
    SavingWritesBoth(Turn(w, id, o0, failure), id, o1, o2);
  }

  /**
   A storage fault in either save of the timeout's verdict is caught by the enclosing handler, which records DLQ
   in both files; the save that faulted has written nothing.
   */
  lemma {:induction false} FaultInTimeoutRecordsDlq(
    w: World, id: nat, second: bool, o0: seq<Action>, o1: seq<Action>, o2: seq<Action>,
    o3: seq<Action>, o4: seq<Action>)
    requires Meanwhile(w, id, o0) && w.actors[id] == RunAgent
    requires var timedOut := Turn(w, id, o0, AgentTimeout);
             && Meanwhile(timedOut, id, o1)
             && var saving := if second then Turn(timedOut, id, o1, Nothing) else timedOut;
                && Meanwhile(saving, id, o2)
                && var faulted := Turn(saving, id, o2, Fault);
                   Meanwhile(faulted, id, o3) && Meanwhile(Turn(faulted, id, o3, Nothing), id, o4)
    ensures var timedOut := Turn(w, id, o0, AgentTimeout);
            var saving := if second then Turn(timedOut, id, o1, Nothing) else timedOut;
            var faulted := Turn(saving, id, o2, Fault);
            && faulted.files == Exec(saving, o2).files
            && WritesBoth(faulted, id, "DLQ", o3, o4)
  {
    TurnMoves(w, id, o0, AgentTimeout);
    var timedOut := Turn(w, id, o0, AgentTimeout);
    var saving := timedOut;
    if second {
      TurnMoves(timedOut, id, o1, Nothing);
      saving := Turn(timedOut, id, o1, Nothing);
    }
    TurnMoves(saving, id, o2, Fault);
    SavingWritesBoth(Turn(saving, id, o2, Fault), id, o3, o4);
  }

  /**
   An investigation goes on to mark the case IN_PROGRESS exactly when it read a casebook that is not terminal and
   then a status that is not IN_PROGRESS, or is one left behind: stale, and without a checkpoint to resume. Its
   reads write nothing, and when it does not go on it is finished.
   */
  lemma {:induction false} InvestigationStartsExactly(
    w: World, id: nat, age: Outside, o1: seq<Action>, o2: seq<Action>, o3: seq<Action>)
    requires Meanwhile(w, id, o1) && w.actors[id] == RunLoadCasebook
    requires age == Nothing || age.InProgress?
    requires Meanwhile(Turn(w, id, o1, Nothing), id, o2)
    requires Meanwhile(Turn(Turn(w, id, o1, Nothing), id, o2, age), id, o3)
    ensures var first := Turn(w, id, o1, Nothing);
            var second := Turn(first, id, o2, age);
            var third := Turn(second, id, o3, Nothing);
            var goes := && !Terminal(Exec(w, o1).files.casebook)
                        && (Exec(first, o2).files.status == Some(IN_PROGRESS) ==>
                              age.InProgress? && age.stale && !age.resumable);
            && first.files == Exec(w, o1).files && second.files == Exec(first, o2).files
            && id in third.actors
            && (if goes
                then third.files == Exec(second, o3).files.(status := Some(IN_PROGRESS)) && third.actors[id] == RunAgent
                else third.files == Exec(second, o3).files && third.actors[id] == Done)
  {
    TurnMoves(w, id, o1, Nothing);
    TurnMoves(Turn(w, id, o1, Nothing), id, o2, age);
    TurnMoves(Turn(Turn(w, id, o1, Nothing), id, o2, age), id, o3, Nothing);
  }

  /**
   A fetch marks the case LOGS_FETCHED exactly when neither file was terminal when it looked and status.json was
   absent or LOGS_FETCHED at its last read; otherwise it writes nothing.
   */
  lemma {:induction false} FetchMarksExactly(
    w: World, id: nat, o1: seq<Action>, o2: seq<Action>, o3: seq<Action>, o4: seq<Action>)
    requires Meanwhile(w, id, o1) && w.actors[id] == FetchReadStatus
    requires Meanwhile(Turn(w, id, o1, Nothing), id, o2)
    requires Meanwhile(Turn(Turn(w, id, o1, Nothing), id, o2, Nothing), id, o3)
    requires Meanwhile(Turn(Turn(Turn(w, id, o1, Nothing), id, o2, Nothing), id, o3, Nothing), id, o4)
    ensures var first := Turn(w, id, o1, Nothing);
            var second := Turn(first, id, o2, Nothing);
            var third := Turn(second, id, o3, Nothing);
            var fourth := Turn(third, id, o4, Nothing);
            var status := Exec(second, o3).files.status;
            var marks := && !Terminal(Exec(w, o1).files.status) && !Terminal(Exec(first, o2).files.casebook)
                         && (status == None || status == Some(LOGS_FETCHED));
            && first.files == Exec(w, o1).files && second.files == Exec(first, o2).files
            && third.files == Exec(second, o3).files && id in fourth.actors && fourth.actors[id] == Done
            && fourth.files == if marks then Exec(third, o4).files.(status := Some(LOGS_FETCHED))
                               else Exec(third, o4).files
  {
    FetchReads(w, id, o1, o2, o3);
    var third := Turn(Turn(Turn(w, id, o1, Nothing), id, o2, Nothing), id, o3, Nothing);
    TurnMoves(third, id, o4, Nothing);
  }

  lemma {:induction false} FetchReads(w: World, id: nat, o1: seq<Action>, o2: seq<Action>, o3: seq<Action>)
    requires Meanwhile(w, id, o1) && w.actors[id] == FetchReadStatus
    requires Meanwhile(Turn(w, id, o1, Nothing), id, o2)
    requires Meanwhile(Turn(Turn(w, id, o1, Nothing), id, o2, Nothing), id, o3)
    ensures var first := Turn(w, id, o1, Nothing);
            var second := Turn(first, id, o2, Nothing);
            var third := Turn(second, id, o3, Nothing);
            var status := Exec(second, o3).files.status;
            && first.files == Exec(w, o1).files && second.files == Exec(first, o2).files
            && third.files == Exec(second, o3).files && id in third.actors
            && third.actors[id] ==
               if !Terminal(Exec(w, o1).files.status) && !Terminal(Exec(first, o2).files.casebook)
                  && (status == None || status == Some(LOGS_FETCHED))
               then FetchMark else Done
  {
    TurnMoves(w, id, o1, Nothing);
    var first := Turn(w, id, o1, Nothing);
    TurnMoves(first, id, o2, Nothing);
    TurnMoves(Turn(first, id, o2, Nothing), id, o3, Nothing);
  }

  /** A drain records FAILED_SHUTDOWN in both files exactly when neither was terminal when it looked. */
  lemma {:induction false} DrainRecordsExactly(
    w: World, id: nat, o1: seq<Action>, o2: seq<Action>, o3: seq<Action>, o4: seq<Action>)
    requires Meanwhile(w, id, o1) && w.actors[id] == DrainReadStatus
    requires Meanwhile(Turn(w, id, o1, Nothing), id, o2)
    requires Meanwhile(Turn(Turn(w, id, o1, Nothing), id, o2, Nothing), id, o3)
    requires Meanwhile(Turn(Turn(Turn(w, id, o1, Nothing), id, o2, Nothing), id, o3, Nothing), id, o4)
    ensures var first := Turn(w, id, o1, Nothing);
            var second := Turn(first, id, o2, Nothing);
            var third := Turn(second, id, o3, Nothing);
            && first.files == Exec(w, o1).files && second.files == Exec(first, o2).files
            && if !Terminal(Exec(w, o1).files.status) && !Terminal(Exec(first, o2).files.casebook)
               then WritesBoth(second, id, "FAILED_SHUTDOWN", o3, o4)
               else third.files == Exec(second, o3).files && Turn(third, id, o4, Nothing).files == Exec(third, o4).files
  {
    var second := Turn(Turn(w, id, o1, Nothing), id, o2, Nothing);
    DrainReads(w, id, o1, o2);
    if second.actors[id] == Done {
      TurnMoves(second, id, o3, Nothing);
      TurnMoves(Turn(second, id, o3, Nothing), id, o4, Nothing);
    } else {
      SavingWritesBoth(second, id, o3, o4);
    }
  }

  lemma {:induction false} DrainReads(w: World, id: nat, o1: seq<Action>, o2: seq<Action>)
    requires Meanwhile(w, id, o1) && w.actors[id] == DrainReadStatus
    requires Meanwhile(Turn(w, id, o1, Nothing), id, o2)
    ensures var first := Turn(w, id, o1, Nothing);
            var second := Turn(first, id, o2, Nothing);
            && first.files == Exec(w, o1).files && second.files == Exec(first, o2).files
            && id in second.actors
            && second.actors[id] ==
               if !Terminal(Exec(w, o1).files.status) && !Terminal(Exec(first, o2).files.casebook)
               then SaveCasebook("FAILED_SHUTDOWN", false) else Done
  {
    TurnMoves(w, id, o1, Nothing);
    TurnMoves(Turn(w, id, o1, Nothing), id, o2, Nothing);
  }

  /** The consumer's timeout handler records FAILED_TIMEOUT in both files, whatever they hold. */
  lemma {:induction false} TimeoutRecords(w: World, id: nat, o1: seq<Action>, o2: seq<Action>)
    requires id !in w.actors
    requires Meanwhile(Apply(w, Spawn(id, Timeout)), id, o1)
    requires Meanwhile(Turn(Apply(w, Spawn(id, Timeout)), id, o1, Nothing), id, o2)
    ensures WritesBoth(Apply(w, Spawn(id, Timeout)), id, "FAILED_TIMEOUT", o1, o2)
  {
    SavingWritesBoth(Apply(w, Spawn(id, Timeout)), id, o1, o2);
  }

  /** Whatever the others start with: a fetch, an investigation and a drain begin by looking. */
  lemma {:induction false} StartersLook(w: World, id: nat, kind: Kind)
    requires id !in w.actors
    ensures var t := Apply(w, Spawn(id, kind));
            && t.files == w.files && id in t.actors
            && (kind == Fetch ==> t.actors[id] == FetchReadStatus)
            && (kind == Investigation ==> t.actors[id] == RunLoadCasebook)
            && (kind == Shutdown ==> t.actors[id] == DrainReadStatus)
  {
  }

  lemma {:induction false} OthersLeavePc(w: World, run: seq<Action>, id: nat)
    requires id in w.actors && ValidRun(w, run) && OthersOnly(run, id)
    ensures id in Exec(w, run).actors && Exec(w, run).actors[id] == w.actors[id]
    decreases run
  {
    if run != [] {
      assert run[0].id != id;
      OthersLeavePc(Apply(w, run[0]), run[1..], id);
    }
  }

  // ------------------------------------------------------------------
  // Where a protected verdict is lost
  // ------------------------------------------------------------------

  /** The investigation has its result and is about to run its guard. */
  const INVESTIGATED: seq<Action> :=
    [Spawn(0, Investigation), Step(0, Nothing), Step(0, Nothing), Step(0, Nothing), Step(0, Verdict("REJECTED"))]

  /** The drain finds no verdict and writes its casebook. */
  const DRAIN_HALFWAY: seq<Action> := [Spawn(1, Shutdown), Step(1, Nothing), Step(1, Nothing), Step(1, Nothing)]

  /** The consumer's timeout handler writes both files, then the drain writes its status file. */
  const TIMEOUT_IN_BETWEEN: seq<Action> := [Spawn(2, Timeout), Step(2, Nothing), Step(2, Nothing), Step(1, Nothing)]

  /**
   The casebook says FAILED_TIMEOUT, yet the late run overwrites it: its guard stops at the drain's
   terminal but unprotected status.json.
   */
  lemma {:induction false} ShadowedVerdictIsReplaced()
    ensures ValidRun(START, INVESTIGATED + (DRAIN_HALFWAY + TIMEOUT_IN_BETWEEN))
    ensures var w := Exec(START, INVESTIGATED + (DRAIN_HALFWAY + TIMEOUT_IN_BETWEEN));
            && w.files == Files(Some("FAILED_TIMEOUT"), Some("FAILED_SHUTDOWN"))
            && 0 in w.actors && w.actors[0] == GuardReadStatus("REJECTED")
            && Exec(w, Alone(0, 4)).files == Files(Some("REJECTED"), Some("REJECTED"))
  {
    InvestigatedRuns();
    DrainHalfwayRuns();
    TimeoutInBetweenRuns();
    ComposeRuns(START, INVESTIGATED, DRAIN_HALFWAY, TIMEOUT_IN_BETWEEN, AWAITING_GUARD, HALF_DRAINED, SHADOWED);
    ShadowedIsOverwritten();
  }

  lemma {:induction false} ShadowedIsOverwritten()
    ensures Exec(SHADOWED, Alone(0, 4)).files == Files(Some("REJECTED"), Some("REJECTED"))
  {
    GuardDiscardsExactly(SHADOWED, 0);
  }

  lemma {:induction false} ComposeRuns(
    w: World, r1: seq<Action>, r2: seq<Action>, r3: seq<Action>, w1: World, w2: World, w3: World)
    requires ValidRun(w, r1) && Exec(w, r1) == w1
    requires ValidRun(w1, r2) && Exec(w1, r2) == w2
    requires ValidRun(w2, r3) && Exec(w2, r3) == w3
    ensures ValidRun(w, r1 + (r2 + r3)) && Exec(w, r1 + (r2 + r3)) == w3
  {
    SplitRun(w1, r2, r3);
    SplitRun(w, r1, r2 + r3);
  }

  const LATE_GUARD := GuardReadStatus("REJECTED")
  const DRAIN_LAST_WRITE := SaveStatus("FAILED_SHUTDOWN", false)

  const AWAITING_GUARD := World(Files(None, Some(IN_PROGRESS)), map[0 := LATE_GUARD])

  const HALF_DRAINED :=
    World(Files(Some("FAILED_SHUTDOWN"), Some(IN_PROGRESS)), map[0 := LATE_GUARD, 1 := DRAIN_LAST_WRITE])

  const SHADOWED :=
    World(Files(Some("FAILED_TIMEOUT"), Some("FAILED_SHUTDOWN")), map[0 := LATE_GUARD, 1 := Done, 2 := Done])

  lemma {:induction false} InvestigatedRuns()
    ensures ValidRun(START, INVESTIGATED) && Exec(START, INVESTIGATED) == AWAITING_GUARD
  {
    InvestigationMarks();
    var w := Unroll(World(NO_FILES, map[0 := RunMark]), INVESTIGATED[3..]);
    assert w == World(Files(None, Some(IN_PROGRESS)), map[0 := RunAgent]);
    w := Unroll(w, INVESTIGATED[4..]);
    assert w.actors == AWAITING_GUARD.actors;
  }

  lemma {:induction false} InvestigationMarks()
    ensures var w := World(NO_FILES, map[0 := RunMark]);
            && (ValidRun(START, INVESTIGATED) <==> ValidRun(w, INVESTIGATED[3..]))
            && Exec(START, INVESTIGATED) == Exec(w, INVESTIGATED[3..])
  {
    var w := Unroll(START, INVESTIGATED);
    assert w == World(NO_FILES, map[0 := RunLoadCasebook]);
    w := Unroll(w, INVESTIGATED[1..]);
    assert w == World(NO_FILES, map[0 := RunLoadStatus(false)]);
    w := Unroll(w, INVESTIGATED[2..]);
    assert w == World(NO_FILES, map[0 := RunMark]);
  }

  lemma {:induction false} DrainHalfwayRuns()
    ensures ValidRun(AWAITING_GUARD, DRAIN_HALFWAY) && Exec(AWAITING_GUARD, DRAIN_HALFWAY) == HALF_DRAINED
  {
    DrainHalf(AWAITING_GUARD, 1);
    assert AWAITING_GUARD.actors[1 := DRAIN_LAST_WRITE] == HALF_DRAINED.actors;
  }

  /** The first half of a drain that finds no verdict, nobody else moving. */
  lemma {:induction false} DrainHalf(w: World, id: nat)
    requires id !in w.actors && !Terminal(w.files.status) && !Terminal(w.files.casebook)
    ensures var run := [Spawn(id, Shutdown), Step(id, Nothing), Step(id, Nothing), Step(id, Nothing)];
            && ValidRun(w, run)
            && Exec(w, run) == World(w.files.(casebook := Some("FAILED_SHUTDOWN")), w.actors[id := DRAIN_LAST_WRITE])
  {
    var run := [Spawn(id, Shutdown), Step(id, Nothing), Step(id, Nothing), Step(id, Nothing)];
    var w1 := Unroll(w, run);
    var w2 := Unroll(w1, run[1..]);
    Overwritten(w.actors, id, DrainReadStatus, DrainReadCasebook);
    var w3 := Unroll(w2, run[2..]);
    Overwritten(w.actors, id, DrainReadCasebook, SaveCasebook("FAILED_SHUTDOWN", false));
    var w4 := Unroll(w3, run[3..]);
    Overwritten(w.actors, id, SaveCasebook("FAILED_SHUTDOWN", false), DRAIN_LAST_WRITE);
  }

  lemma {:induction false} TimeoutInBetweenRuns()
    ensures ValidRun(HALF_DRAINED, TIMEOUT_IN_BETWEEN) && Exec(HALF_DRAINED, TIMEOUT_IN_BETWEEN) == SHADOWED
  {
    var w := Unroll(HALF_DRAINED, TIMEOUT_IN_BETWEEN);
    assert w.actors == map[0 := LATE_GUARD, 1 := DRAIN_LAST_WRITE, 2 := SaveCasebook("FAILED_TIMEOUT", false)];
    w := Unroll(w, TIMEOUT_IN_BETWEEN[1..]);
    assert w.actors == map[0 := LATE_GUARD, 1 := DRAIN_LAST_WRITE, 2 := SaveStatus("FAILED_TIMEOUT", false)];
    w := Unroll(w, TIMEOUT_IN_BETWEEN[2..]);
    assert w.actors == map[0 := LATE_GUARD, 1 := DRAIN_LAST_WRITE, 2 := Done];
    w := Unroll(w, TIMEOUT_IN_BETWEEN[3..]);
    assert w.actors == SHADOWED.actors;
  }

  /** The guard reads both files and finds nothing. */
  const GUARD_PASSES: seq<Action> := [Step(0, Nothing), Step(0, Nothing)]

  /** The consumer's timeout handler then writes both files. */
  const TIMEOUT_LANDS: seq<Action> := [Spawn(1, Timeout), Step(1, Nothing), Step(1, Nothing)]

  const PAST_GUARD := World(Files(None, Some(IN_PROGRESS)), map[0 := SaveCasebook("REJECTED", false)])

  const TIMED_OUT :=
    World(Files(Some("FAILED_TIMEOUT"), Some("FAILED_TIMEOUT")), map[0 := SaveCasebook("REJECTED", false), 1 := Done])

  /**
   The guard and the write are separate steps: a timeout whose two writes land in between is lost, although
   both files said FAILED_TIMEOUT before the late run wrote.
   */
  lemma {:induction false} TimeoutBehindTheGuardIsReplaced()
    ensures ValidRun(START, INVESTIGATED + (GUARD_PASSES + TIMEOUT_LANDS))
    ensures Exec(START, INVESTIGATED + (GUARD_PASSES + TIMEOUT_LANDS)) == TIMED_OUT
    ensures var written := Apply(Apply(TIMED_OUT, Step(0, Nothing)), Step(0, Nothing)).files;
            written == Files(Some("REJECTED"), Some("REJECTED"))
  {
    InvestigatedRuns();
    GuardPassesRuns();
    TimeoutLandsRuns();
    ComposeRuns(START, INVESTIGATED, GUARD_PASSES, TIMEOUT_LANDS, AWAITING_GUARD, PAST_GUARD, TIMED_OUT);
    PastTheGuardOverwrites(TIMED_OUT, 0, [], []);
  }

  lemma {:induction false} GuardPassesRuns()
    ensures ValidRun(AWAITING_GUARD, GUARD_PASSES) && Exec(AWAITING_GUARD, GUARD_PASSES) == PAST_GUARD
  {
    var files := AWAITING_GUARD.files;
    var w := Unroll(AWAITING_GUARD, GUARD_PASSES);
    assert w == World(files, map[0 := GuardReadCasebook("REJECTED")]);
    w := Unroll(w, GUARD_PASSES[1..]);
    assert w.actors == PAST_GUARD.actors;
  }

  lemma {:induction false} TimeoutLandsRuns()
    ensures ValidRun(PAST_GUARD, TIMEOUT_LANDS) && Exec(PAST_GUARD, TIMEOUT_LANDS) == TIMED_OUT
  {
    var w := Unroll(PAST_GUARD, TIMEOUT_LANDS);
    assert w.actors == map[0 := SaveCasebook("REJECTED", false), 1 := SaveCasebook("FAILED_TIMEOUT", false)];
    w := Unroll(w, TIMEOUT_LANDS[1..]);
    assert w.actors == map[0 := SaveCasebook("REJECTED", false), 1 := SaveStatus("FAILED_TIMEOUT", false)];
    w := Unroll(w, TIMEOUT_LANDS[2..]);
    assert w.actors == TIMED_OUT.actors;
  }

  lemma {:induction false} Unroll(w: World, run: seq<Action>) returns (next: World)
    requires run != [] && Enabled(w, run[0])
    ensures next == Apply(w, run[0])
    ensures Exec(w, run) == Exec(next, run[1..]) && (ValidRun(w, run) <==> ValidRun(next, run[1..]))
    ensures |run| == 1 ==> Exec(w, run) == next && ValidRun(w, run)
    ensures forall k :: 0 <= k < |run| - 1 ==> run[1..][k] == run[k + 1]
  {
    next := Apply(w, run[0]);
  }

  lemma {:induction false} SplitRun(w: World, left: seq<Action>, right: seq<Action>)
    ensures Exec(w, left + right) == Exec(Exec(w, left), right)
    ensures ValidRun(w, left + right) <==> ValidRun(w, left) && ValidRun(Exec(w, left), right)
    decreases left
  {
    if left == [] {
      assert left + right == right;
    } else {
      assert (left + right)[1..] == left[1..] + right;
      SplitRun(Apply(w, left[0]), left[1..], right);
    }
  }
}
