/**
 Offset commits over whole runs (src/utils/kafkaConsumer.py).

 Several consumer processes of one group share the broker's committed positions. Each polls batches
 in offset order, hands messages to workers that finish in any order, and drains its tracker at
 arbitrary moments; partitions are revoked and assigned at any time, workers outlive a revocation,
 commits get lost, delayed or reordered, and processes die. `System` is the state of all of that,
 `Action` one atomic step, and `settled` the ghost history of messages that were forwarded,
 deliberately skipped, or whose dead-letter publish returned normally.
 */
module CommitProtocol {
  import opened Extrema
  import opened OffsetTracking
  import opened MessageHandlers

  /** Which offsets a partition holds. Offsets may have gaps, and the log only ever grows at its end. */
  type Log = (TopicPartition, int) -> bool

  /** One ownership period of one partition: next offset to poll, to dispatch, and the last one committed. */
  datatype Session = Session(period: nat, position: int, high: int, last: int)

  datatype Member = Member(book: Book, sessions: map<TopicPartition, Session>)

  datatype Job = Job(member: nat, period: nat, tp: TopicPartition, offset: int)

  /** A polled message waits, is worked on, has met its fate, and finally has been told to the tracker. */
  datatype Phase = Waiting | Working | Decided(fate: Fate) | Recorded

  datatype System = System(
    members: map<nat, Member>,
    jobs: map<Job, Phase>,
    settled: set<(TopicPartition, int)>,
    wire: set<(TopicPartition, int)>,
    broker: map<TopicPartition, int>,
    periods: nat)

  const BOOT := System(map[], map[], {}, {}, map[], 0)

  datatype Action =
    | Join(member: nat)
    | Assign(member: nat, tp: TopicPartition)
    | Poll(member: nat, tp: TopicPartition, next: int)
    | Start(job: Job)
    | Decide(job: Job, fate: Fate)
    | Record(job: Job)
    | Commit(member: nat, partitions: set<TopicPartition>)
    | Revoke(member: nat, partitions: set<TopicPartition>)
    | Deliver(tp: TopicPartition, position: int)
    | Crash(member: nat)

  function Position(s: System, tp: TopicPartition): int {
    if tp in s.broker then s.broker[tp] else 0
  }

  predicate Owns(s: System, member: nat, tp: TopicPartition) {
    member in s.members && tp in s.members[member].sessions
  }

  /** The job belongs to the current ownership period of its partition. */
  predicate Live(s: System, j: Job) {
    Owns(s, j.member, j.tp) && s.members[j.member].sessions[j.tp].period == j.period
  }

  predicate InPhase(s: System, j: Job, p: Phase) {
    j in s.jobs && s.jobs[j] == p
  }

  ghost predicate Enabled(log: Log, s: System, a: Action) {
    match a
    case Join(m) => m !in s.members
    case Assign(m, tp) => m in s.members && tp !in s.members[m].sessions
    case Poll(m, tp, next) => Owns(s, m, tp) && s.members[m].sessions[tp].position <= next
    case Start(j) =>
      && Live(s, j) && InPhase(s, j, Waiting)
      && forall k :: k in s.jobs && k.(offset := 0) == j.(offset := 0) && s.jobs[k] == Waiting ==> j.offset <= k.offset
    case Decide(j, fate) => InPhase(s, j, Working)
    case Record(j) => j.member in s.members && j in s.jobs && s.jobs[j].Decided? && s.jobs[j].fate != Held
    case Commit(m, partitions) => m in s.members
    case Revoke(m, partitions) => m in s.members
    case Deliver(tp, v) => (tp, v) in s.wire
    case Crash(m) => m in s.members
  }

  function Apply(log: Log, s: System, a: Action): System {
    match a
    case Join(m) => s.(members := s.members[m := Member(EMPTY_BOOK, map[])])
    case Assign(m, tp) =>
      if m !in s.members then s else
      var at := Position(s, tp);
      var member := Member(Forget(s.members[m].book, {tp}),
                           s.members[m].sessions[tp := Session(s.periods, at, at, at)]);
      s.(members := s.members[m := member], periods := s.periods + 1)
    case Poll(m, tp, next) =>
      if !Owns(s, m, tp) then s else
      var member := s.members[m];
      var session := member.sessions[tp];
      s.(members := s.members[m := member.(sessions := member.sessions[tp := session.(position := next)])],
         jobs := s.jobs + map j | j in Batch(log, m, tp, session, next) :: Waiting)
    case Start(j) =>
      if !Owns(s, j.member, j.tp) then s else
      var member := s.members[j.member];
      var session := member.sessions[j.tp];
      s.(members := s.members[j.member := Member(Dispatch(member.book, j.tp, j.offset),
                                                 member.sessions[j.tp := session.(high := j.offset + 1)])],
         jobs := s.jobs[j := Working])
    case Decide(j, fate) =>
      s.(jobs := s.jobs[j := Decided(fate)],
         settled := if fate == Held then s.settled else s.settled + {(j.tp, j.offset)})
    case Record(j) =>
      if j !in s.jobs || !s.jobs[j].Decided? || j.member !in s.members then s else
      var member := s.members[j.member];
      s.(members := s.members[j.member := member.(book := RecordFate(member.book, j.tp, j.offset, s.jobs[j].fate))],
         jobs := s.jobs[j := Recorded])
    case Commit(m, partitions) =>
      if m !in s.members then s else
      var member := s.members[m];
      var commits := Commits(member.book, partitions);
      s.(members := s.members[m := Member(Drain(member.book, partitions), Advance(member.sessions, commits))],
         wire := s.wire + set tp | tp in commits :: (tp, commits[tp]))
    case Revoke(m, partitions) =>
      if m !in s.members then s else
      var member := s.members[m];
      s.(members := s.members[m := Member(Forget(member.book, partitions), member.sessions - partitions)])
    case Deliver(tp, v) => s.(broker := s.broker[tp := v])
    case Crash(m) => s.(members := s.members - {m})
  }

  /** The messages a poll returns: everything the log holds from the current position up to `next`. */
  function Batch(log: Log, m: nat, tp: TopicPartition, session: Session, next: int): (batch: set<Job>)
    ensures forall j :: j in batch <==>
              && j == Job(m, session.period, tp, j.offset)
              && session.position <= j.offset < next && log(tp, j.offset)
  {
    set o | session.position <= o < next && log(tp, o) :: Job(m, session.period, tp, o)
  }

  function Advance(
    sessions: map<TopicPartition, Session>, commits: map<TopicPartition, int>): map<TopicPartition, Session> {
    map tp | tp in sessions :: if tp in commits then sessions[tp].(last := commits[tp]) else sessions[tp]
  }

  // ------------------------------------------------------------------
  // Runs
  // ------------------------------------------------------------------

  function Exec(log: Log, s: System, run: seq<Action>): System
    decreases run
  {
    if run == [] then s else Exec(log, Apply(log, s, run[0]), run[1..])
  }

  ghost predicate ValidRun(log: Log, s: System, run: seq<Action>)
    decreases run
  {
    run == [] || (Enabled(log, s, run[0]) && ValidRun(log, Apply(log, s, run[0]), run[1..]))
  }

  /** The first offset the current ownership period has not dispatched; all of them where there is no period. */
  function Frontier(s: System, m: nat, tp: TopicPartition): int {
    if Owns(s, m, tp) then s.members[m].sessions[tp].high else 0
  }

  /** Every message of `tp` from the frontier up to `v` has been settled. */
  ghost predicate Covered(log: Log, s: System, m: nat, tp: TopicPartition, v: int) {
    forall o :: 0 <= o && Frontier(s, m, tp) <= o < v && log(tp, o) ==> (tp, o) in s.settled
  }

  /** A completion told to the tracker has every message from the frontier up to it settled. */
  ghost predicate Covers(log: Log, s: System, a: Action) {
    a.Record? && a.job in s.jobs && s.jobs[a.job].Decided? && Completes(s.jobs[a.job].fate) ==>
      Covered(log, s, a.job.member, a.job.tp, a.job.offset)
  }

  ghost predicate CoveringRun(log: Log, s: System, run: seq<Action>)
    decreases run
  {
    run == [] || (Covers(log, s, run[0]) && CoveringRun(log, Apply(log, s, run[0]), run[1..]))
  }

  /** A commit hands over a position although some message between the frontier and it is unsettled. */
  ghost predicate Oversteps(log: Log, s: System, a: Action) {
    && a.Commit? && a.member in s.members
    && var commits := Commits(s.members[a.member].book, a.partitions);
       exists tp :: tp in commits && !Covered(log, s, a.member, tp, commits[tp])
  }

  ghost predicate CarefulRun(log: Log, s: System, run: seq<Action>)
    decreases run
  {
    run == [] || (!Oversteps(log, s, run[0]) && CarefulRun(log, Apply(log, s, run[0]), run[1..]))
  }

  /** No worker outlives the ownership period its message was polled in. */
  predicate TimelyRun(log: Log, s: System, run: seq<Action>)
    decreases run
  {
    run == [] || ((run[0].Record? ==> Live(s, run[0].job)) && TimelyRun(log, Apply(log, s, run[0]), run[1..]))
  }

  // ------------------------------------------------------------------
  // Safety
  // ------------------------------------------------------------------

  /** Every message of `tp` below position `v` has been settled. */
  ghost predicate SettledBelow(log: Log, settled: set<(TopicPartition, int)>, tp: TopicPartition, v: int) {
    forall o :: 0 <= o < v && log(tp, o) ==> (tp, o) in settled
  }

  /** No position the broker holds, and none on its way there, has an unsettled message below it. */
  ghost predicate Lossless(log: Log, s: System) {
    && (forall tp, v :: (tp, v) in s.wire ==> SettledBelow(log, s.settled, tp, v))
    && (forall tp :: tp in s.broker ==> SettledBelow(log, s.settled, tp, s.broker[tp]))
  }

  ghost predicate LosslessRun(log: Log, s: System, run: seq<Action>)
    decreases run
  {
    Lossless(log, s) && (run != [] ==> LosslessRun(log, Apply(log, s, run[0]), run[1..]))
  }

  /** What was dispatched is still tracked or settled; what was polled and not dispatched still waits. */
  ghost predicate SessionSafe(log: Log, s: System, m: nat, tp: TopicPartition)
    requires Owns(s, m, tp)
  {
    var session := s.members[m].sessions[tp];
    && session.period < s.periods
    && session.high <= session.position
    && (forall o :: 0 <= o < session.high && log(tp, o) ==>
          o in At(s.members[m].book.dispatched, tp) || (tp, o) in s.settled)
    && (forall o :: session.high <= o < session.position && log(tp, o) ==>
          InPhase(s, Job(m, session.period, tp, o), Waiting))
  }

  predicate BookSafe(s: System, m: nat, tp: TopicPartition)
    requires m in s.members
  {
    && (forall o :: o in At(s.members[m].book.dispatched, tp) ==> Owns(s, m, tp) && o < Frontier(s, m, tp))
    && (forall o :: o in At(s.members[m].book.completed, tp) ==> (tp, o) in s.settled)
  }

  predicate JobSafe(s: System, j: Job)
    requires j in s.jobs
  {
    && j.period < s.periods
    && (s.jobs[j].Decided? && s.jobs[j].fate != Held ==> (j.tp, j.offset) in s.settled)
    && (Live(s, j) ==>
          var session := s.members[j.member].sessions[j.tp];
          if s.jobs[j] == Waiting then session.high <= j.offset < session.position else j.offset < session.high)
  }

  ghost predicate Safe(log: Log, s: System) {
    && Lossless(log, s)
    && (forall m: nat, tp :: Owns(s, m, tp) ==> SessionSafe(log, s, m, tp))
    && (forall m: nat, tp :: m in s.members ==> BookSafe(s, m, tp))
    && (forall j :: j in s.jobs ==> JobSafe(s, j))
  }

  /**
   Whatever completions the tracker was told of: everything below a position it hands over is settled
   exactly when everything between the frontier and that position is.
   */
  lemma {:induction false} CommitPassesExactly(
      log: Log, s: System, m: nat, partitions: set<TopicPartition>, tp: TopicPartition)
    requires Safe(log, s) && m in s.members && tp in Commits(s.members[m].book, partitions)
    ensures var v := Commits(s.members[m].book, partitions)[tp];
            SettledBelow(log, s.settled, tp, v) <==> Covered(log, s, m, tp, v)
  {
    var book, v := s.members[m].book, Commits(s.members[m].book, partitions)[tp];
    assert BookSafe(s, m, tp);
    assert Owns(s, m, tp) ==> SessionSafe(log, s, m, tp);
    var running := At(book.dispatched, tp) - At(book.completed, tp);
    assert forall x :: x in running ==> Max(Ready(book, tp)) < x;
    if Covered(log, s, m, tp, v) {
      forall o | 0 <= o < v && log(tp, o) ensures (tp, o) in s.settled {
        assert o !in running;
      }
    }
  }

  /** A step puts a position above an unsettled message on the wire exactly when it is a commit that oversteps. */
  lemma {:induction false} StepLosesExactly(log: Log, s: System, a: Action)
    requires Safe(log, s) && Enabled(log, s, a)
    ensures Lossless(log, Apply(log, s, a)) <==> !Oversteps(log, s, a)
  {
    var t := Apply(log, s, a);
    if a.Commit? {
      CommitLosesExactly(log, s, a.member, a.partitions);
    } else {
      assert t.wire == s.wire && s.settled <= t.settled;
      forall tp | tp in t.broker ensures SettledBelow(log, t.settled, tp, t.broker[tp]) {
        assert tp in s.broker ==> SettledBelow(log, s.settled, tp, s.broker[tp]);
        assert a.Deliver? ==> SettledBelow(log, s.settled, a.tp, a.position);
      }
    }
  }

  lemma {:induction false} CommitLosesExactly(log: Log, s: System, m: nat, partitions: set<TopicPartition>)
    requires Safe(log, s) && m in s.members
    ensures Lossless(log, Apply(log, s, Commit(m, partitions))) <==> !Oversteps(log, s, Commit(m, partitions))
  {
    var t, commits := Apply(log, s, Commit(m, partitions)), Commits(s.members[m].book, partitions);
    forall tp | tp in commits
      ensures (tp, commits[tp]) in t.wire
      ensures SettledBelow(log, s.settled, tp, commits[tp]) <==> Covered(log, s, m, tp, commits[tp])
    {
      CommitPassesExactly(log, s, m, partitions, tp);
    }
    if !Oversteps(log, s, Commit(m, partitions)) {
      forall tp, v | (tp, v) in t.wire ensures SettledBelow(log, t.settled, tp, v) {
        assert (tp, v) in s.wire || (tp in commits && v == commits[tp]);
      }
    }
  }

  /** One step keeps the safety invariant, unless it is a commit that oversteps. */
  lemma {:induction false} StepSafe(log: Log, s: System, a: Action)
    requires Safe(log, s) && Enabled(log, s, a) && !Oversteps(log, s, a)
    ensures Safe(log, Apply(log, s, a))
  {
    var t := Apply(log, s, a);
    StepLosesExactly(log, s, a);
    forall m: nat, tp | Owns(t, m, tp) ensures SessionSafe(log, t, m, tp) {
      StepKeepsSession(log, s, a, m, tp);
    }
    forall m: nat, tp | m in t.members ensures BookSafe(t, m, tp) {
      StepKeepsBook(log, s, a, m, tp);
    }
    forall j | j in t.jobs ensures JobSafe(t, j) {
      StepKeepsJob(log, s, a, j);
    }
  }

  /** A period goes on with everything the safety of its session speaks of. */
  ghost predicate Continues(s: System, t: System, m: nat, tp: TopicPartition) {
    && Owns(s, m, tp) && Owns(t, m, tp)
    && t.members[m].sessions[tp].(last := 0) == s.members[m].sessions[tp].(last := 0)
    && s.periods <= t.periods && s.settled <= t.settled
    && (forall o :: o in At(s.members[m].book.dispatched, tp) ==>
          o in At(t.members[m].book.dispatched, tp) || (tp, o) in t.settled)
    && (forall j :: InPhase(s, j, Waiting) && (j.member, j.tp) == (m, tp) ==> InPhase(t, j, Waiting))
  }

  lemma {:induction false} ContinuedIsSafe(log: Log, s: System, t: System, m: nat, tp: TopicPartition)
    requires Continues(s, t, m, tp) && SessionSafe(log, s, m, tp)
    ensures SessionSafe(log, t, m, tp)
  {
  }

  lemma {:induction false} StepKeepsSession(log: Log, s: System, a: Action, m: nat, tp: TopicPartition)
    requires Safe(log, s) && Enabled(log, s, a) && Owns(Apply(log, s, a), m, tp)
    ensures SessionSafe(log, Apply(log, s, a), m, tp)
  {
    if a == Assign(m, tp) {
      AssignOpensSession(log, s, m, tp);
    } else if a.Poll? && (a.member, a.tp) == (m, tp) {
      PollMovesSession(log, s, m, tp, a.next);
    } else if a.Start? && (a.job.member, a.job.tp) == (m, tp) {
      StartMovesSession(log, s, a.job);
    } else {
      OthersContinue(log, s, a, m, tp);
      ContinuedIsSafe(log, s, Apply(log, s, a), m, tp);
    }
  }

  /** A new period starts at the broker's position, below which everything is settled. */
  lemma {:induction false} AssignOpensSession(log: Log, s: System, m: nat, tp: TopicPartition)
    requires Safe(log, s) && Enabled(log, s, Assign(m, tp))
    ensures SessionSafe(log, Apply(log, s, Assign(m, tp)), m, tp)
  {
    assert tp in s.broker ==> SettledBelow(log, s.settled, tp, s.broker[tp]);
  }

  lemma {:induction false} PollMovesSession(log: Log, s: System, m: nat, tp: TopicPartition, next: int)
    requires Safe(log, s) && Enabled(log, s, Poll(m, tp, next))
    ensures SessionSafe(log, Apply(log, s, Poll(m, tp, next)), m, tp)
  {
    assert SessionSafe(log, s, m, tp);
    var t, session := Apply(log, s, Poll(m, tp, next)), s.members[m].sessions[tp];
    forall o | session.high <= o < next && log(tp, o)
      ensures InPhase(t, Job(m, session.period, tp, o), Waiting)
    {
      var j := Job(m, session.period, tp, o);
      assert j in Batch(log, m, tp, session, next) <==> session.position <= o;
    }
  }

  lemma {:induction false} StartMovesSession(log: Log, s: System, j: Job)
    requires Safe(log, s) && Enabled(log, s, Start(j))
    ensures SessionSafe(log, Apply(log, s, Start(j)), j.member, j.tp)
  {
    var t := Apply(log, s, Start(j));
    var session, book := s.members[j.member].sessions[j.tp], s.members[j.member].book;
    assert JobSafe(s, j) && SessionSafe(log, s, j.member, j.tp);
    assert At(t.members[j.member].book.dispatched, j.tp) == At(book.dispatched, j.tp) + {j.offset};
    forall o | 0 <= o < j.offset && log(j.tp, o)
      ensures o in At(book.dispatched, j.tp) || (j.tp, o) in s.settled
    {
      var skipped := Job(j.member, session.period, j.tp, o);
      assert session.high <= o ==> InPhase(s, skipped, Waiting);
      assert skipped.(offset := 0) == j.(offset := 0);
    }
  }

  lemma {:induction false} OthersContinue(log: Log, s: System, a: Action, m: nat, tp: TopicPartition)
    requires Safe(log, s) && Enabled(log, s, a) && Owns(Apply(log, s, a), m, tp)
    requires a != Assign(m, tp)
    requires (a.Poll? ==> (a.member, a.tp) != (m, tp)) && (a.Start? ==> (a.job.member, a.job.tp) != (m, tp))
    ensures Continues(s, Apply(log, s, a), m, tp) && SessionSafe(log, s, m, tp)
  {
    assert Owns(s, m, tp);
    if a.Record? && a.job.member == m {
      RecordContinues(log, s, a.job, tp);
    } else if a.Commit? && a.member == m {
      CommitContinues(log, s, m, a.partitions, tp);
    } else if a.Assign? || a.Revoke? {
      RebalanceContinues(log, s, a, m, tp);
    } else if a.Poll? {
      PollContinues(log, s, a, m, tp);
    } else if a.Start? {
      StartContinues(log, s, a.job, m, tp);
    } else {
      RestContinue(log, s, a, m, tp);
    }
  }

  lemma {:induction false} RebalanceContinues(log: Log, s: System, a: Action, m: nat, tp: TopicPartition)
    requires Enabled(log, s, a) && (a.Assign? || a.Revoke?) && a != Assign(m, tp)
    requires Owns(s, m, tp) && Owns(Apply(log, s, a), m, tp)
    ensures Continues(s, Apply(log, s, a), m, tp)
  {
    var forgotten := if a.Assign? then {a.tp} else a.partitions;
    ForgetAt(s.members[m].book, forgotten, tp);
  }

  lemma {:induction false} RestContinue(log: Log, s: System, a: Action, m: nat, tp: TopicPartition)
    requires Enabled(log, s, a) && Owns(s, m, tp) && Owns(Apply(log, s, a), m, tp)
    requires !a.Assign? && !a.Revoke? && !a.Poll? && !a.Start?
    requires (a.Record? ==> a.job.member != m) && (a.Commit? ==> a.member != m)
    ensures Continues(s, Apply(log, s, a), m, tp)
  {
  }

  lemma {:induction false} PollContinues(log: Log, s: System, a: Action, m: nat, tp: TopicPartition)
    requires a.Poll? && (a.member, a.tp) != (m, tp) && Enabled(log, s, a) && Owns(s, m, tp)
    ensures Continues(s, Apply(log, s, a), m, tp)
  {
  }

  lemma {:induction false} StartContinues(log: Log, s: System, j: Job, m: nat, tp: TopicPartition)
    requires Enabled(log, s, Start(j)) && Owns(s, m, tp) && (j.member, j.tp) != (m, tp)
    ensures Continues(s, Apply(log, s, Start(j)), m, tp)
  {
    DispatchAt(s.members[j.member].book, j.tp, j.offset, tp);
  }

  lemma {:induction false} RecordContinues(log: Log, s: System, j: Job, tp: TopicPartition)
    requires Safe(log, s) && Enabled(log, s, Record(j)) && Owns(s, j.member, tp)
    ensures Continues(s, Apply(log, s, Record(j)), j.member, tp)
  {
    assert JobSafe(s, j);
    RecordAt(s.members[j.member].book, j.tp, j.offset, s.jobs[j].fate, tp);
  }

  lemma {:induction false} CommitContinues(
      log: Log, s: System, m: nat, partitions: set<TopicPartition>, tp: TopicPartition)
    requires Safe(log, s) && Owns(s, m, tp)
    ensures Continues(s, Apply(log, s, Commit(m, partitions)), m, tp)
  {
    assert BookSafe(s, m, tp);
    DrainAt(s.members[m].book, partitions, tp);
  }

  /** What a record does to the offsets of a partition. */
  lemma {:induction false} RecordAt(b: Book, tp: TopicPartition, offset: int, fate: Fate, q: TopicPartition)
    ensures var r := RecordFate(b, tp, offset, fate);
            && (q != tp ==> At(r.dispatched, q) == At(b.dispatched, q) && At(r.completed, q) == At(b.completed, q))
            && At(r.dispatched, tp) == At(b.dispatched, tp) - (if fate.DlqAbandoned? then {offset} else {})
            && At(r.completed, tp) == if Completes(fate) then At(b.completed, tp) + {offset}
                                      else if fate.DlqAbandoned? then At(b.completed, tp) - {offset}
                                      else At(b.completed, tp)
  {
  }

  lemma {:induction false} ForgetAt(b: Book, partitions: set<TopicPartition>, tp: TopicPartition)
    ensures At(Forget(b, partitions).dispatched, tp) == if tp in partitions then {} else At(b.dispatched, tp)
    ensures At(Forget(b, partitions).completed, tp) == if tp in partitions then {} else At(b.completed, tp)
  {
  }

  /** The tracker of `m` knows of no new offset of `tp`, and its period has not gone back. */
  predicate Shrinks(s: System, t: System, m: nat, tp: TopicPartition) {
    && m in s.members && m in t.members && s.settled <= t.settled
    && At(t.members[m].book.dispatched, tp) <= At(s.members[m].book.dispatched, tp)
    && At(t.members[m].book.completed, tp) <= At(s.members[m].book.completed, tp)
    && (Tracks(t, m, tp) ==> (Owns(s, m, tp) <==> Owns(t, m, tp)) && Frontier(s, m, tp) <= Frontier(t, m, tp))
  }

  predicate Tracks(s: System, m: nat, tp: TopicPartition)
    requires m in s.members
  {
    At(s.members[m].book.dispatched, tp) + At(s.members[m].book.completed, tp) != {}
  }

  lemma {:induction false} ShrunkIsSafe(s: System, t: System, m: nat, tp: TopicPartition)
    requires Shrinks(s, t, m, tp) && BookSafe(s, m, tp)
    ensures BookSafe(t, m, tp)
  {
  }

  lemma {:induction false} StepKeepsBook(log: Log, s: System, a: Action, m: nat, tp: TopicPartition)
    requires Safe(log, s) && Enabled(log, s, a) && m in Apply(log, s, a).members
    ensures BookSafe(Apply(log, s, a), m, tp)
  {
    assert m in s.members ==> BookSafe(s, m, tp);
    if a.Start? && a.job.member == m {
      StartKeepsBook(log, s, a.job, tp);
    } else if a.Record? && a.job.member == m {
      RecordKeepsBook(log, s, a.job, tp);
    } else if a != Join(m) {
      OthersShrink(log, s, a, m, tp);
      ShrunkIsSafe(s, Apply(log, s, a), m, tp);
    }
  }

  lemma {:induction false} StartKeepsBook(log: Log, s: System, j: Job, tp: TopicPartition)
    requires Safe(log, s) && Enabled(log, s, Start(j))
    ensures BookSafe(Apply(log, s, Start(j)), j.member, tp)
  {
    assert BookSafe(s, j.member, tp) && JobSafe(s, j);
    DispatchAt(s.members[j.member].book, j.tp, j.offset, tp);
  }

  lemma {:induction false} DispatchAt(b: Book, tp: TopicPartition, offset: int, q: TopicPartition)
    ensures At(Dispatch(b, tp, offset).dispatched, q) == At(b.dispatched, q) + if q == tp then {offset} else {}
    ensures Dispatch(b, tp, offset).completed == b.completed
  {
  }

  lemma {:induction false} RecordKeepsBook(log: Log, s: System, j: Job, tp: TopicPartition)
    requires Safe(log, s) && Enabled(log, s, Record(j))
    ensures BookSafe(Apply(log, s, Record(j)), j.member, tp)
  {
    assert BookSafe(s, j.member, tp) && JobSafe(s, j);
    RecordAt(s.members[j.member].book, j.tp, j.offset, s.jobs[j].fate, tp);
  }

  lemma {:induction false} OthersShrink(log: Log, s: System, a: Action, m: nat, tp: TopicPartition)
    requires Enabled(log, s, a) && m in Apply(log, s, a).members && a != Join(m)
    requires (a.Start? || a.Record?) ==> a.job.member != m
    ensures Shrinks(s, Apply(log, s, a), m, tp)
  {
    match a
    case Assign(n, q) => if n == m { ForgetAt(s.members[m].book, {q}, tp); }
    case Commit(n, partitions) => if n == m { DrainAt(s.members[m].book, partitions, tp); }
    case Revoke(n, partitions) => if n == m { ForgetAt(s.members[m].book, partitions, tp); }
    case _ =>
  }

  lemma {:induction false} StepKeepsJob(log: Log, s: System, a: Action, j: Job)
    requires Safe(log, s) && Enabled(log, s, a) && j in Apply(log, s, a).jobs
    ensures JobSafe(Apply(log, s, a), j)
  {
    if a.Assign? {
      AssignKeepsJob(log, s, a.member, a.tp, j);
    } else if a.Poll? {
      PollKeepsJob(log, s, a.member, a.tp, a.next, j);
    } else if a.Start? {
      StartKeepsJob(log, s, a.job, j);
    } else if a.Commit? {
      CommitKeepsJob(log, s, a.member, a.partitions, j);
    } else {
      assert JobSafe(s, j);
    }
  }

  lemma {:induction false} CommitKeepsJob(log: Log, s: System, m: nat, partitions: set<TopicPartition>, j: Job)
    requires Safe(log, s) && Enabled(log, s, Commit(m, partitions)) && j in s.jobs
    ensures JobSafe(Apply(log, s, Commit(m, partitions)), j)
  {
    assert JobSafe(s, j);
  }

  /** No message polled in an earlier period belongs to the new one. */
  lemma {:induction false} AssignKeepsJob(log: Log, s: System, m: nat, tp: TopicPartition, j: Job)
    requires Safe(log, s) && Enabled(log, s, Assign(m, tp)) && j in s.jobs
    ensures JobSafe(Apply(log, s, Assign(m, tp)), j)
  {
    var t := Apply(log, s, Assign(m, tp));
    assert JobSafe(s, j);
    if (j.member, j.tp) == (m, tp) {
      assert !Live(t, j);
    } else {
      assert Live(t, j) ==> Live(s, j);
    }
  }

  lemma {:induction false} PollKeepsJob(log: Log, s: System, m: nat, tp: TopicPartition, next: int, j: Job)
    requires Safe(log, s) && Enabled(log, s, Poll(m, tp, next)) && j in Apply(log, s, Poll(m, tp, next)).jobs
    ensures JobSafe(Apply(log, s, Poll(m, tp, next)), j)
  {
    assert SessionSafe(log, s, m, tp);
    if j in s.jobs {
      assert JobSafe(s, j);
    }
  }

  lemma {:induction false} StartKeepsJob(log: Log, s: System, j: Job, k: Job)
    requires Safe(log, s) && Enabled(log, s, Start(j)) && k in Apply(log, s, Start(j)).jobs
    ensures JobSafe(Apply(log, s, Start(j)), k)
  {
    var t := Apply(log, s, Start(j));
    assert JobSafe(s, j) && SessionSafe(log, s, j.member, j.tp) && JobSafe(s, k);
    assert Live(t, k) <==> Live(s, k);
    if k != j && Live(s, k) && s.jobs[k] == Waiting && (k.member, k.tp) == (j.member, j.tp) {
      assert k.(offset := 0) == j.(offset := 0);
      assert k.(offset := j.offset) == j;
    }
  }

  /**
   With no hypothesis at all: along a run no message is ever lost exactly when no commit of it hands
   over a position with an unsettled message between its period's frontier and that position.
   */
  lemma {:induction false} NoLossExactly(log: Log, run: seq<Action>)
    requires ValidRun(log, BOOT, run)
    ensures LosslessRun(log, BOOT, run) <==> CarefulRun(log, BOOT, run)
  {
    RunLosesExactly(log, BOOT, run);
  }

  lemma {:induction false} RunLosesExactly(log: Log, s: System, run: seq<Action>)
    requires Safe(log, s) && ValidRun(log, s, run)
    ensures LosslessRun(log, s, run) <==> CarefulRun(log, s, run)
    ensures CarefulRun(log, s, run) ==> Safe(log, Exec(log, s, run))
    decreases run
  {
    if run != [] {
      var t := Apply(log, s, run[0]);
      StepLosesExactly(log, s, run[0]);
      if !Oversteps(log, s, run[0]) {
        StepSafe(log, s, run[0]);
        RunLosesExactly(log, t, run[1..]);
      } else {
        assert !LosslessRun(log, t, run[1..]);
      }
    }
  }

  // ------------------------------------------------------------------
  // Covered completions
  // ------------------------------------------------------------------

  ghost predicate CompletedCovered(log: Log, s: System, m: nat, tp: TopicPartition)
    requires m in s.members
  {
    forall o :: o in At(s.members[m].book.completed, tp) ==> Covered(log, s, m, tp, o)
  }

  ghost predicate Backed(log: Log, s: System) {
    forall m: nat, tp :: m in s.members ==> CompletedCovered(log, s, m, tp)
  }

  lemma {:induction false} CommitsAreSettled(
      log: Log, s: System, m: nat, partitions: set<TopicPartition>, tp: TopicPartition)
    requires Safe(log, s) && Backed(log, s) && m in s.members && tp in Commits(s.members[m].book, partitions)
    ensures SettledBelow(log, s.settled, tp, Commits(s.members[m].book, partitions)[tp])
  {
    var done := Max(Ready(s.members[m].book, tp));
    assert done in At(s.members[m].book.completed, tp);
    assert CompletedCovered(log, s, m, tp) && BookSafe(s, m, tp);
    assert Covered(log, s, m, tp, done) && (tp, done) in s.settled;
    CommitPassesExactly(log, s, m, partitions, tp);
  }

  lemma {:induction false} BackedDoesNotOverstep(log: Log, s: System, a: Action)
    requires Safe(log, s) && Backed(log, s)
    ensures !Oversteps(log, s, a)
  {
    if a.Commit? && a.member in s.members {
      var commits := Commits(s.members[a.member].book, a.partitions);
      forall tp | tp in commits ensures Covered(log, s, a.member, tp, commits[tp]) {
        CommitsAreSettled(log, s, a.member, a.partitions, tp);
      }
    }
  }

  lemma {:induction false} StepBacked(log: Log, s: System, a: Action)
    requires Safe(log, s) && Backed(log, s) && Enabled(log, s, a) && Covers(log, s, a)
    ensures Backed(log, Apply(log, s, a))
  {
    var t := Apply(log, s, a);
    forall m: nat, tp | m in t.members ensures CompletedCovered(log, t, m, tp) {
      StepKeepsCovered(log, s, a, m, tp);
    }
  }

  lemma {:induction false} StepKeepsCovered(log: Log, s: System, a: Action, m: nat, tp: TopicPartition)
    requires Safe(log, s) && Backed(log, s) && Enabled(log, s, a) && Covers(log, s, a)
    requires m in Apply(log, s, a).members
    ensures CompletedCovered(log, Apply(log, s, a), m, tp)
  {
    assert m in s.members ==> CompletedCovered(log, s, m, tp);
    if a.Start? && a.job.member == m {
      assert JobSafe(s, a.job);
      DispatchAt(s.members[m].book, a.job.tp, a.job.offset, tp);
    } else if a.Record? && a.job.member == m {
      RecordAt(s.members[m].book, a.job.tp, a.job.offset, s.jobs[a.job].fate, tp);
    } else if a != Join(m) {
      OthersShrink(log, s, a, m, tp);
      ShrunkIsCovered(log, s, Apply(log, s, a), m, tp);
    }
  }

  lemma {:induction false} ShrunkIsCovered(log: Log, s: System, t: System, m: nat, tp: TopicPartition)
    requires Shrinks(s, t, m, tp) && CompletedCovered(log, s, m, tp)
    ensures CompletedCovered(log, t, m, tp)
  {
    forall o | o in At(t.members[m].book.completed, tp) ensures Covered(log, t, m, tp, o) {
      assert Covered(log, s, m, tp, o);
    }
  }

  lemma {:induction false} RunSafe(log: Log, s: System, run: seq<Action>)
    requires Safe(log, s) && Backed(log, s) && ValidRun(log, s, run) && CoveringRun(log, s, run)
    ensures Safe(log, Exec(log, s, run)) && Backed(log, Exec(log, s, run)) && CarefulRun(log, s, run)
    decreases run
  {
    if run != [] {
      BackedDoesNotOverstep(log, s, run[0]);
      StepSafe(log, s, run[0]);
      StepBacked(log, s, run[0]);
      RunSafe(log, Apply(log, s, run[0]), run[1..]);
    }
  }

  /**
   At-least-once over every run whose completions are covered: whatever position the broker holds for
   a partition, and whatever position is still on its way there, every message below it was forwarded,
   deliberately skipped, or had its dead-letter publish return.
   */
  lemma {:induction false} AtLeastOnce(log: Log, run: seq<Action>, tp: TopicPartition, offset: int)
    requires ValidRun(log, BOOT, run) && CoveringRun(log, BOOT, run)
    requires 0 <= offset && log(tp, offset)
    ensures var end := Exec(log, BOOT, run);
            && (offset < Position(end, tp) ==> (tp, offset) in end.settled)
            && (forall v :: (tp, v) in end.wire && offset < v ==> (tp, offset) in end.settled)
  {
    RunSafe(log, BOOT, run);
    assert forall v :: (tp, v) in Exec(log, BOOT, run).wire ==> SettledBelow(log, Exec(log, BOOT, run).settled, tp, v);
  }

  /** A worker that reports within its ownership period reports an offset below the frontier. */
  lemma {:induction false} TimelyIsCovering(log: Log, s: System, run: seq<Action>)
    requires Safe(log, s) && Backed(log, s) && ValidRun(log, s, run) && TimelyRun(log, s, run)
    ensures CoveringRun(log, s, run)
    decreases run
  {
    if run != [] {
      assert run[0].Record? ==> JobSafe(s, run[0].job);
      BackedDoesNotOverstep(log, s, run[0]);
      StepSafe(log, s, run[0]);
      StepBacked(log, s, run[0]);
      TimelyIsCovering(log, Apply(log, s, run[0]), run[1..]);
    }
  }

  // ------------------------------------------------------------------
  // Order of the committed positions, when no worker outlives its period
  // ------------------------------------------------------------------

  predicate SessionOrdered(s: System, m: nat, tp: TopicPartition)
    requires Owns(s, m, tp)
  {
    && s.members[m].sessions[tp].last <= s.members[m].sessions[tp].high
    && forall o :: o in At(s.members[m].book.dispatched, tp) ==> s.members[m].sessions[tp].last <= o
  }

  /** Nothing is finished that was not dispatched. */
  predicate BookOrdered(b: Book, tp: TopicPartition) {
    At(b.completed, tp) <= At(b.dispatched, tp)
  }

  /** A live message that was started and not yet reported is still running for the tracker. */
  predicate JobOrdered(s: System, j: Job)
    requires j in s.jobs
  {
    Live(s, j) && (s.jobs[j].Working? || s.jobs[j].Decided?) ==> j.offset in Running(s.members[j.member].book, j.tp)
  }

  ghost predicate Ordered(s: System) {
    && (forall m: nat, tp :: Owns(s, m, tp) ==> SessionOrdered(s, m, tp))
    && (forall m: nat, tp :: m in s.members ==> BookOrdered(s.members[m].book, tp))
    && (forall j :: j in s.jobs ==> JobOrdered(s, j))
  }

  /** Whatever is finished was dispatched by the current period, so every completion so far is covered. */
  lemma {:induction false} OrderedIsBacked(log: Log, s: System)
    requires Safe(log, s) && Ordered(s)
    ensures Backed(log, s)
  {
    forall m: nat, tp | m in s.members ensures CompletedCovered(log, s, m, tp) {
      assert BookOrdered(s.members[m].book, tp) && BookSafe(s, m, tp);
    }
  }

  /** Along a timely run the tracker and the ownership periods stay in step. */
  lemma {:induction false} OrderedStep(log: Log, s: System, a: Action)
    requires Safe(log, s) && Ordered(s) && Enabled(log, s, a) && (a.Record? ==> Live(s, a.job))
    ensures Safe(log, Apply(log, s, a)) && Ordered(Apply(log, s, a))
  {
    var t := Apply(log, s, a);
    OrderedIsBacked(log, s);
    BackedDoesNotOverstep(log, s, a);
    StepSafe(log, s, a);
    forall m: nat, tp | Owns(t, m, tp) ensures SessionOrdered(t, m, tp) {
      SessionOrderedStep(log, s, a, m, tp);
    }
    forall m: nat, tp | m in t.members ensures BookOrdered(t.members[m].book, tp) {
      BookOrderedStep(log, s, a, m, tp);
    }
    forall j | j in t.jobs ensures JobOrdered(t, j) {
      JobOrderedStep(log, s, a, j);
    }
  }

  lemma {:induction false} SessionOrderedStep(log: Log, s: System, a: Action, m: nat, tp: TopicPartition)
    requires Safe(log, s) && Ordered(s) && Enabled(log, s, a) && Owns(Apply(log, s, a), m, tp)
    ensures SessionOrdered(Apply(log, s, a), m, tp)
  {
    if a == Assign(m, tp) {
      ForgetAt(s.members[m].book, {tp}, tp);
    } else if a.Start? && (a.job.member, a.job.tp) == (m, tp) {
      assert JobSafe(s, a.job) && SessionOrdered(s, m, tp);
    } else if a.Commit? && a.member == m {
      SessionOrderedCommit(log, s, m, a.partitions, tp);
    } else {
      OthersKeepPeriod(log, s, a, m, tp);
      assert SessionOrdered(s, m, tp);
    }
  }

  lemma {:induction false} OthersKeepPeriod(log: Log, s: System, a: Action, m: nat, tp: TopicPartition)
    requires Safe(log, s) && Enabled(log, s, a) && Owns(Apply(log, s, a), m, tp) && a != Assign(m, tp)
    requires (a.Start? ==> (a.job.member, a.job.tp) != (m, tp)) && (a.Commit? ==> a.member != m)
    ensures var t := Apply(log, s, a);
            && Owns(s, m, tp)
            && t.members[m].sessions[tp].(position := 0) == s.members[m].sessions[tp].(position := 0)
            && At(t.members[m].book.dispatched, tp) <= At(s.members[m].book.dispatched, tp)
  {
    if a.Start? && a.job.member == m {
      DispatchAt(s.members[m].book, a.job.tp, a.job.offset, tp);
    } else if a.Record? && a.job.member == m {
      RecordAt(s.members[m].book, a.job.tp, a.job.offset, s.jobs[a.job].fate, tp);
    } else {
      OthersShrink(log, s, a, m, tp);
    }
  }

  lemma {:induction false} SessionOrderedCommit(
      log: Log, s: System, m: nat, partitions: set<TopicPartition>, tp: TopicPartition)
    requires Safe(log, s) && Ordered(s) && Owns(s, m, tp)
    ensures Owns(Apply(log, s, Commit(m, partitions)), m, tp)
    ensures SessionOrdered(Apply(log, s, Commit(m, partitions)), m, tp)
  {
    var book := s.members[m].book;
    assert SessionOrdered(s, m, tp) && BookSafe(s, m, tp) && BookOrdered(book, tp);
    DrainAt(book, partitions, tp);
    if tp in Commits(book, partitions) {
      DrainLeavesHigher(book, tp);
      CommitBelow(s, m, tp);
    }
  }

  lemma {:induction false} CommitBelow(s: System, m: nat, tp: TopicPartition)
    requires Owns(s, m, tp) && BookSafe(s, m, tp) && BookOrdered(s.members[m].book, tp)
    requires Ready(s.members[m].book, tp) != {}
    ensures Max(Ready(s.members[m].book, tp)) < s.members[m].sessions[tp].high
  {
    assert Max(Ready(s.members[m].book, tp)) in At(s.members[m].book.dispatched, tp);
  }

  /** Whatever a drain leaves dispatched lies at or above the position it commits. */
  lemma {:induction false} DrainLeavesHigher(b: Book, tp: TopicPartition)
    requires Ready(b, tp) != {}
    ensures forall o :: o in At(b.dispatched, tp) - Ready(b, tp) ==> Max(Ready(b, tp)) < o
  {
    var ready, running := Ready(b, tp), Running(b, tp);
    assert forall x :: x in running ==> Max(ready) < x;
    forall o | o in At(b.dispatched, tp) - ready ensures Max(ready) < o {
      if o !in running {
        assert exists x :: x in running && x <= o;
      }
    }
  }

  lemma {:induction false} BookOrderedStep(log: Log, s: System, a: Action, m: nat, tp: TopicPartition)
    requires Ordered(s) && Enabled(log, s, a) && (a.Record? ==> Live(s, a.job)) && m in Apply(log, s, a).members
    ensures BookOrdered(Apply(log, s, a).members[m].book, tp)
  {
    if m in s.members {
      var book := s.members[m].book;
      assert BookOrdered(book, tp);
      match a
      case Assign(n, q) => ForgetAt(book, {q}, tp);
      case Start(j) => DispatchAt(book, j.tp, j.offset, tp);
      case Record(j) =>
        assert JobOrdered(s, j);
        RecordAt(book, j.tp, j.offset, s.jobs[j].fate, tp);
      case Commit(n, partitions) => DrainAt(book, partitions, tp);
      case Revoke(n, partitions) => ForgetAt(book, partitions, tp);
      case _ =>
    }
  }

  lemma {:induction false} JobOrderedStep(log: Log, s: System, a: Action, j: Job)
    requires Safe(log, s) && Ordered(s) && Enabled(log, s, a) && (a.Record? ==> Live(s, a.job))
    requires j in Apply(log, s, a).jobs
    ensures JobOrdered(Apply(log, s, a), j)
  {
    var t := Apply(log, s, a);
    if j in s.jobs && Live(t, j) {
      assert JobSafe(s, j) && JobOrdered(s, j);
      if a.Start? {
        JobOrderedStart(log, s, a.job, j);
      } else if a.Record? {
        JobOrderedRecord(log, s, a.job, j);
      } else if a.Commit? && a.member == j.member {
        JobOrderedCommit(log, s, a.partitions, j);
      } else if a.Revoke? && a.member == j.member {
        ForgetAt(s.members[j.member].book, a.partitions, j.tp);
      }
    }
  }

  lemma {:induction false} JobOrderedCommit(log: Log, s: System, partitions: set<TopicPartition>, j: Job)
    requires j in s.jobs && JobOrdered(s, j) && j.member in s.members
    ensures JobOrdered(Apply(log, s, Commit(j.member, partitions)), j)
  {
    DrainAt(s.members[j.member].book, partitions, j.tp);
  }

  lemma {:induction false} JobOrderedStart(log: Log, s: System, k: Job, j: Job)
    requires Safe(log, s) && Ordered(s) && Enabled(log, s, Start(k)) && j in s.jobs
    ensures JobOrdered(Apply(log, s, Start(k)), j)
  {
    assert BookSafe(s, k.member, k.tp) && BookOrdered(s.members[k.member].book, k.tp) && JobSafe(s, k);
    assert JobSafe(s, j) && JobOrdered(s, j);
    if j.member == k.member {
      DispatchAt(s.members[k.member].book, k.tp, k.offset, j.tp);
    }
  }

  lemma {:induction false} JobOrderedRecord(log: Log, s: System, k: Job, j: Job)
    requires Safe(log, s) && Ordered(s) && Enabled(log, s, Record(k)) && Live(s, k) && j in s.jobs
    ensures JobOrdered(Apply(log, s, Record(k)), j)
  {
    assert JobSafe(s, j) && JobOrdered(s, j);
    RecordAt(s.members[k.member].book, k.tp, k.offset, s.jobs[k].fate, j.tp);
    assert k != j && (k.member, k.tp, k.period) == (j.member, j.tp, j.period) ==> k.offset != j.offset;
  }

  lemma {:induction false} RunOrdered(log: Log, s: System, run: seq<Action>)
    requires Safe(log, s) && Ordered(s) && ValidRun(log, s, run) && TimelyRun(log, s, run)
    ensures Safe(log, Exec(log, s, run)) && Ordered(Exec(log, s, run))
    decreases run
  {
    if run != [] {
      OrderedStep(log, s, run[0]);
      RunOrdered(log, Apply(log, s, run[0]), run[1..]);
    }
  }

  /** In ownership period `period` of `tp`, member `m` has committed up to at least `v`. */
  predicate CommittedTo(s: System, m: nat, tp: TopicPartition, period: nat, v: int) {
    && period < s.periods
    && (Owns(s, m, tp) && s.members[m].sessions[tp].period == period ==> v <= s.members[m].sessions[tp].last)
  }

  lemma {:induction false} CommitIsHigher(
      log: Log, s: System, m: nat, partitions: set<TopicPartition>, tp: TopicPartition)
    requires Safe(log, s) && Ordered(s) && m in s.members && tp in Commits(s.members[m].book, partitions)
    ensures Owns(s, m, tp) && s.members[m].sessions[tp].last < Commits(s.members[m].book, partitions)[tp]
  {
    var book := s.members[m].book;
    assert BookOrdered(book, tp) && BookSafe(s, m, tp);
    assert Max(Ready(book, tp)) in At(book.dispatched, tp);
    assert SessionOrdered(s, m, tp);
  }

  lemma {:induction false} CommittedToStep(
      log: Log, s: System, a: Action, m: nat, tp: TopicPartition, period: nat, v: int)
    requires Safe(log, s) && Ordered(s) && Enabled(log, s, a)
    requires CommittedTo(s, m, tp, period, v)
    ensures CommittedTo(Apply(log, s, a), m, tp, period, v)
  {
    if a.Commit? {
      CommittedToCommit(log, s, a.member, a.partitions, m, tp, period, v);
    }
  }

  lemma {:induction false} CommittedToCommit(
      log: Log, s: System, n: nat, partitions: set<TopicPartition>, m: nat, tp: TopicPartition, period: nat, v: int)
    requires Safe(log, s) && Ordered(s) && n in s.members && CommittedTo(s, m, tp, period, v)
    ensures CommittedTo(Apply(log, s, Commit(n, partitions)), m, tp, period, v)
  {
    if n == m && tp in Commits(s.members[m].book, partitions) {
      CommitIsHigher(log, s, m, partitions, tp);
    }
  }

  lemma {:induction false} CommittedToStays(
      log: Log, s: System, run: seq<Action>, m: nat, tp: TopicPartition, period: nat, v: int)
    requires Safe(log, s) && Ordered(s) && ValidRun(log, s, run) && TimelyRun(log, s, run)
    requires CommittedTo(s, m, tp, period, v)
    ensures CommittedTo(Exec(log, s, run), m, tp, period, v)
    decreases run
  {
    if run != [] {
      var a := run[0];
      OrderedStep(log, s, a);
      CommittedToStep(log, s, a, m, tp, period, v);
      CommittedToStays(log, Apply(log, s, a), run[1..], m, tp, period, v);
    }
  }

  /**
   Within one ownership period the positions handed to the broker strictly increase, so a commit the
   broker never saw is covered by every later one.
   */
  lemma {:induction false} PositionsIncrease(
      log: Log, before: seq<Action>, between: seq<Action>, m: nat, tp: TopicPartition,
      first: set<TopicPartition>, second: set<TopicPartition>)
    requires ValidRun(log, BOOT, before + [Commit(m, first)] + between)
    requires TimelyRun(log, BOOT, before + [Commit(m, first)] + between)
    requires var s, t := Exec(log, BOOT, before), Exec(log, BOOT, before + [Commit(m, first)] + between);
             && m in s.members && tp in Commits(s.members[m].book, first)
             && m in t.members && tp in Commits(t.members[m].book, second)
             && Owns(s, m, tp) && Live(t, Job(m, s.members[m].sessions[tp].period, tp, 0))
    ensures var s, t := Exec(log, BOOT, before), Exec(log, BOOT, before + [Commit(m, first)] + between);
            Commits(s.members[m].book, first)[tp] < Commits(t.members[m].book, second)[tp]
  {
    var s := Exec(log, BOOT, before);
    SplitRun(log, BOOT, before + [Commit(m, first)], between);
    SplitRun(log, BOOT, before, [Commit(m, first)]);
    RunOrdered(log, BOOT, before);
    LaterCommitIsHigher(log, s, between, m, tp, first, second);
  }

  lemma {:induction false} LaterCommitIsHigher(
      log: Log, s: System, between: seq<Action>, m: nat, tp: TopicPartition,
      first: set<TopicPartition>, second: set<TopicPartition>)
    requires Safe(log, s) && Ordered(s) && Owns(s, m, tp) && tp in Commits(s.members[m].book, first)
    requires var next := Apply(log, s, Commit(m, first));
             ValidRun(log, next, between) && TimelyRun(log, next, between)
    requires var t := Exec(log, Apply(log, s, Commit(m, first)), between);
             && m in t.members && tp in Commits(t.members[m].book, second)
             && Live(t, Job(m, s.members[m].sessions[tp].period, tp, 0))
    ensures Commits(s.members[m].book, first)[tp] <
            Commits(Exec(log, Apply(log, s, Commit(m, first)), between).members[m].book, second)[tp]
  {
    var next := Apply(log, s, Commit(m, first));
    OrderedStep(log, s, Commit(m, first));
    assert SessionSafe(log, s, m, tp);
    var v, period := Commits(s.members[m].book, first)[tp], s.members[m].sessions[tp].period;
    assert CommittedTo(next, m, tp, period, v);
    CommittedToStays(log, next, between, m, tp, period, v);
    RunOrdered(log, next, between);
    CommitIsHigher(log, Exec(log, next, between), m, second, tp);
  }

  lemma {:induction false} SplitRun(log: Log, s: System, left: seq<Action>, right: seq<Action>)
    ensures Exec(log, s, left + right) == Exec(log, Exec(log, s, left), right)
    ensures ValidRun(log, s, left + right) <==>
              ValidRun(log, s, left) && ValidRun(log, Exec(log, s, left), right)
    ensures TimelyRun(log, s, left + right) <==>
              TimelyRun(log, s, left) && TimelyRun(log, Exec(log, s, left), right)
    decreases left
  {
    if left == [] {
      assert left + right == right;
    } else {
      assert (left + right)[1..] == left[1..] + right;
      SplitRun(log, Apply(log, s, left[0]), left[1..], right);
    }
  }

  lemma {:induction false} HeldStays(log: Log, s: System, run: seq<Action>, j: Job)
    requires Safe(log, s) && Ordered(s) && ValidRun(log, s, run) && TimelyRun(log, s, run)
    requires InPhase(s, j, Decided(Held))
    ensures InPhase(Exec(log, s, run), j, Decided(Held))
    decreases run
  {
    if run != [] {
      HeldStep(log, s, run[0], j);
      OrderedStep(log, s, run[0]);
      HeldStays(log, Apply(log, s, run[0]), run[1..], j);
    }
  }

  lemma {:induction false} HeldStep(log: Log, s: System, a: Action, j: Job)
    requires Safe(log, s) && Enabled(log, s, a) && InPhase(s, j, Decided(Held))
    ensures InPhase(Apply(log, s, a), j, Decided(Held))
  {
    assert JobSafe(s, j);
    assert a.Poll? ==> SessionSafe(log, s, a.member, a.tp);
  }

  /**
   A message whose dead-letter publish raised holds the floor for as long as its ownership period
   lasts: no commit of that period ever passes it.
   */
  lemma {:induction false} HeldForever(
      log: Log, before: seq<Action>, after: seq<Action>, j: Job, partitions: set<TopicPartition>)
    requires ValidRun(log, BOOT, before + after) && TimelyRun(log, BOOT, before + after)
    requires InPhase(Exec(log, BOOT, before), j, Decided(Held))
    requires Live(Exec(log, BOOT, before + after), j)
    ensures var book := Exec(log, BOOT, before + after).members[j.member].book;
            && j.offset in Running(book, j.tp)
            && (j.tp in Commits(book, partitions) ==> Commits(book, partitions)[j.tp] <= j.offset)
  {
    SplitRun(log, BOOT, before, after);
    RunOrdered(log, BOOT, before + after);
    var end := Exec(log, BOOT, before + after);
    RunOrdered(log, BOOT, before);
    HeldStays(log, Exec(log, BOOT, before), after, j);
    assert JobOrdered(end, j);
    var book := end.members[j.member].book;
    var running := At(book.dispatched, j.tp) - At(book.completed, j.tp);
    assert j.offset in running;
  }

  // ------------------------------------------------------------------
  // The floor moves on
  // ------------------------------------------------------------------

  /** The message was started in the current period and the tracker has not been told of its fate. */
  predicate Unreported(s: System, m: nat, tp: TopicPartition, offset: int) {
    && Owns(s, m, tp)
    && var j := Job(m, s.members[m].sessions[tp].period, tp, offset);
       j in s.jobs && (s.jobs[j].Working? || s.jobs[j].Decided?)
  }

  ghost predicate JobPlaced(s: System, j: Job) {
    && j.period < s.periods
    && (Live(s, j) ==> j.offset < s.members[j.member].sessions[j.tp].position)
  }

  ghost predicate RunningUnreported(s: System, m: nat, tp: TopicPartition)
    requires m in s.members
  {
    forall o :: o in Running(s.members[m].book, tp) ==> Unreported(s, m, tp, o)
  }

  /** Whatever runs for the tracker is a message nobody has reported yet. */
  ghost predicate Grounded(s: System) {
    && (forall j :: j in s.jobs ==> JobPlaced(s, j))
    && (forall m: nat, tp :: Owns(s, m, tp) ==> s.members[m].sessions[tp].period < s.periods)
    && (forall m: nat, tp :: m in s.members ==> RunningUnreported(s, m, tp))
  }

  lemma {:induction false} StepGrounded(log: Log, s: System, a: Action)
    requires Grounded(s) && Enabled(log, s, a)
    ensures Grounded(Apply(log, s, a))
  {
    var t := Apply(log, s, a);
    forall j | j in t.jobs ensures JobPlaced(t, j) {
      StepPlaces(log, s, a, j);
    }
    forall m: nat, tp | Owns(t, m, tp) ensures t.members[m].sessions[tp].period < t.periods {
      assert Owns(s, m, tp) || a == Assign(m, tp);
    }
    forall m: nat, tp | m in t.members ensures RunningUnreported(t, m, tp) {
      StepUnreported(log, s, a, m, tp);
    }
  }

  lemma {:induction false} StepPlaces(log: Log, s: System, a: Action, j: Job)
    requires Grounded(s) && Enabled(log, s, a) && j in Apply(log, s, a).jobs
    ensures JobPlaced(Apply(log, s, a), j)
  {
    assert j in s.jobs ==> JobPlaced(s, j);
    if a.Start? {
      assert JobPlaced(s, a.job);
    } else if a.Commit? {
      CommitPlaces(log, s, a.member, a.partitions, j);
    }
  }

  lemma {:induction false} CommitPlaces(log: Log, s: System, m: nat, partitions: set<TopicPartition>, j: Job)
    requires j in s.jobs && JobPlaced(s, j) && m in s.members
    ensures JobPlaced(Apply(log, s, Commit(m, partitions)), j)
  {
  }

  /** Nothing new runs, and what was not reported before is not now. */
  ghost predicate NothingStarts(s: System, t: System, m: nat, tp: TopicPartition) {
    && m in s.members && m in t.members
    && Running(t.members[m].book, tp) <= Running(s.members[m].book, tp)
    && (Running(t.members[m].book, tp) != {} ==> forall o :: Unreported(s, m, tp, o) ==> Unreported(t, m, tp, o))
  }

  lemma {:induction false} NothingStartsIsUnreported(s: System, t: System, m: nat, tp: TopicPartition)
    requires NothingStarts(s, t, m, tp) && RunningUnreported(s, m, tp)
    ensures RunningUnreported(t, m, tp)
  {
  }

  lemma {:induction false} StepUnreported(log: Log, s: System, a: Action, m: nat, tp: TopicPartition)
    requires Grounded(s) && Enabled(log, s, a) && m in Apply(log, s, a).members
    ensures RunningUnreported(Apply(log, s, a), m, tp)
  {
    if m in s.members {
      assert RunningUnreported(s, m, tp);
      if a.Start? {
        StartUnreported(log, s, a.job, m, tp);
      } else if a.Record? && a.job.member == m {
        RecordUnreported(log, s, a.job, tp);
      } else if a.Poll? {
        PollUnreported(log, s, a, m, tp);
      } else {
        if a.Commit? || a.Assign? || a.Revoke? {
          DrainStartsNothing(log, s, a, m, tp);
        } else {
          RestStartsNothing(log, s, a, m, tp);
        }
        NothingStartsIsUnreported(s, Apply(log, s, a), m, tp);
      }
    }
  }

  lemma {:induction false} DrainStartsNothing(log: Log, s: System, a: Action, m: nat, tp: TopicPartition)
    requires Enabled(log, s, a) && m in s.members && (a.Commit? || a.Assign? || a.Revoke?)
    ensures NothingStarts(s, Apply(log, s, a), m, tp)
  {
    if a.member == m {
      if a.Commit? {
        DrainAt(s.members[m].book, a.partitions, tp);
      } else {
        ForgetAt(s.members[m].book, if a.Assign? then {a.tp} else a.partitions, tp);
      }
    }
  }

  lemma {:induction false} RestStartsNothing(log: Log, s: System, a: Action, m: nat, tp: TopicPartition)
    requires Enabled(log, s, a) && m in s.members && m in Apply(log, s, a).members
    requires a.Join? || a.Decide? || a.Deliver? || a.Crash? || (a.Record? && a.job.member != m)
    ensures NothingStarts(s, Apply(log, s, a), m, tp)
  {
  }

  lemma {:induction false} StartUnreported(log: Log, s: System, j: Job, m: nat, tp: TopicPartition)
    requires Grounded(s) && Enabled(log, s, Start(j)) && m in s.members
    ensures RunningUnreported(Apply(log, s, Start(j)), m, tp)
  {
    var t := Apply(log, s, Start(j));
    assert RunningUnreported(s, m, tp);
    DispatchAt(s.members[j.member].book, j.tp, j.offset, tp);
    forall o | o in Running(t.members[m].book, tp) ensures Unreported(t, m, tp, o) {
      assert (m, tp, o) == (j.member, j.tp, j.offset) || Unreported(s, m, tp, o);
    }
  }

  lemma {:induction false} RecordUnreported(log: Log, s: System, j: Job, tp: TopicPartition)
    requires Grounded(s) && Enabled(log, s, Record(j))
    ensures RunningUnreported(Apply(log, s, Record(j)), j.member, tp)
  {
    var book, t := s.members[j.member].book, Apply(log, s, Record(j));
    assert RunningUnreported(s, j.member, tp);
    RecordTells(book, j.tp, j.offset, s.jobs[j].fate);
    forall o | o in Running(t.members[j.member].book, tp) ensures Unreported(t, j.member, tp, o) {
      assert o in Running(book, tp) && (tp, o) != (j.tp, j.offset);
      assert Unreported(s, j.member, tp, o);
    }
  }

  lemma {:induction false} PollUnreported(log: Log, s: System, a: Action, m: nat, tp: TopicPartition)
    requires Grounded(s) && Enabled(log, s, a) && a.Poll? && m in s.members
    ensures RunningUnreported(Apply(log, s, a), m, tp)
  {
    var t := Apply(log, s, a);
    assert RunningUnreported(s, m, tp);
    forall o | o in Running(t.members[m].book, tp) ensures Unreported(t, m, tp, o) {
      assert Unreported(s, m, tp, o);
      assert JobPlaced(s, Job(m, s.members[m].sessions[tp].period, tp, o));
    }
  }

  lemma {:induction false} RunGrounded(log: Log, s: System, run: seq<Action>)
    requires Grounded(s) && ValidRun(log, s, run)
    ensures Grounded(Exec(log, s, run))
    decreases run
  {
    if run != [] {
      StepGrounded(log, s, run[0]);
      RunGrounded(log, Apply(log, s, run[0]), run[1..]);
    }
  }

  /**
   Nothing holds the floor for ever but a message whose publish raised. In every run: once each message of a
   partition that was started has been forwarded, skipped or dead-lettered and reported, the next drain hands
   over one past the greatest completed offset and leaves nothing of the partition tracked.
   */
  lemma {:induction false} ReportedIsCommitted(
      log: Log, run: seq<Action>, m: nat, tp: TopicPartition, partitions: set<TopicPartition>)
    requires ValidRun(log, BOOT, run) && m in Exec(log, BOOT, run).members && tp in partitions
    requires forall offset :: !Unreported(Exec(log, BOOT, run), m, tp, offset)
    ensures var s := Exec(log, BOOT, run);
            var completed, after := At(s.members[m].book.completed, tp), Apply(log, s, Commit(m, partitions));
            && m in after.members
            && At(after.members[m].book.dispatched, tp) == {} && At(after.members[m].book.completed, tp) == {}
            && (completed != {} ==> (tp, Max(completed) + 1) in after.wire)
  {
    RunGrounded(log, BOOT, run);
    var s := Exec(log, BOOT, run);
    var book := s.members[m].book;
    assert RunningUnreported(s, m, tp);
    forall o ensures o !in Running(book, tp) {
      assert !Unreported(s, m, tp, o);
    }
    AllFinishedIsDrained(book, partitions, tp);
  }

  lemma {:induction false} AllFinishedIsDrained(book: Book, partitions: set<TopicPartition>, tp: TopicPartition)
    requires Running(book, tp) == {} && tp in partitions
    ensures At(Drain(book, partitions).dispatched, tp) == {} && At(Drain(book, partitions).completed, tp) == {}
    ensures var completed := At(book.completed, tp);
            completed != {} ==> tp in Commits(book, partitions) && Commits(book, partitions)[tp] == Max(completed) + 1
  {
    DrainAt(book, partitions, tp);
    assert Ready(book, tp) == At(book.completed, tp);
  }

  /** When no worker outlives its period, what runs for the tracker is exactly what was started and not reported. */
  lemma {:induction false} RunningIsUnreported(log: Log, run: seq<Action>, m: nat, tp: TopicPartition, offset: int)
    requires ValidRun(log, BOOT, run) && TimelyRun(log, BOOT, run) && m in Exec(log, BOOT, run).members
    ensures var s := Exec(log, BOOT, run);
            offset in Running(s.members[m].book, tp) <==> Unreported(s, m, tp, offset)
  {
    var s := Exec(log, BOOT, run);
    RunGrounded(log, BOOT, run);
    RunOrdered(log, BOOT, run);
    assert RunningUnreported(s, m, tp);
    if Unreported(s, m, tp, offset) {
      assert JobOrdered(s, Job(m, s.members[m].sessions[tp].period, tp, offset));
    }
  }

  // ------------------------------------------------------------------
  // What was committed is not fetched again
  // ------------------------------------------------------------------

  /** In ownership period `period` nothing below `v` is fetched. */
  ghost predicate FetchesFrom(s: System, m: nat, tp: TopicPartition, period: nat, v: int) {
    && period < s.periods
    && (Owns(s, m, tp) && s.members[m].sessions[tp].period == period ==> v <= s.members[m].sessions[tp].position)
    && forall o :: Job(m, period, tp, o) in s.jobs ==> v <= o
  }

  lemma {:induction false} FetchesFromStays(
      log: Log, s: System, run: seq<Action>, m: nat, tp: TopicPartition, period: nat, v: int)
    requires ValidRun(log, s, run) && FetchesFrom(s, m, tp, period, v)
    ensures FetchesFrom(Exec(log, s, run), m, tp, period, v)
    decreases run
  {
    if run != [] {
      FetchesFromStep(log, s, run[0], m, tp, period, v);
      FetchesFromStays(log, Apply(log, s, run[0]), run[1..], m, tp, period, v);
    }
  }

  lemma {:induction false} FetchesFromStep(
      log: Log, s: System, a: Action, m: nat, tp: TopicPartition, period: nat, v: int)
    requires Enabled(log, s, a) && FetchesFrom(s, m, tp, period, v)
    ensures FetchesFrom(Apply(log, s, a), m, tp, period, v)
  {
    if a.Poll? {
      FetchesFromPoll(log, s, a, m, tp, period, v);
    } else {
      assert forall o :: Job(m, period, tp, o) in Apply(log, s, a).jobs ==> Job(m, period, tp, o) in s.jobs by {
        NoNewJobs(log, s, a);
      }
    }
  }

  lemma {:induction false} NoNewJobs(log: Log, s: System, a: Action)
    requires Enabled(log, s, a) && !a.Poll?
    ensures Apply(log, s, a).jobs.Keys == s.jobs.Keys
  {
  }

  lemma {:induction false} FetchesFromPoll(
      log: Log, s: System, a: Action, m: nat, tp: TopicPartition, period: nat, v: int)
    requires a.Poll? && Enabled(log, s, a) && FetchesFrom(s, m, tp, period, v)
    ensures FetchesFrom(Apply(log, s, a), m, tp, period, v)
  {
    var session := s.members[a.member].sessions[a.tp];
    forall o | Job(m, period, tp, o) in Apply(log, s, a).jobs ensures v <= o {
      assert Job(m, period, tp, o) in s.jobs ||
             Job(m, period, tp, o) in Batch(log, a.member, a.tp, session, a.next);
    }
  }

  /** An ownership period fetches from the position the broker held when the partition was assigned. */
  lemma {:induction false} CommittedIsNotFetchedAgain(
      log: Log, before: seq<Action>, m: nat, tp: TopicPartition, after: seq<Action>, j: Job)
    requires ValidRun(log, BOOT, before) && Enabled(log, Exec(log, BOOT, before), Assign(m, tp))
    requires ValidRun(log, Apply(log, Exec(log, BOOT, before), Assign(m, tp)), after)
    requires var s := Exec(log, BOOT, before);
             && j in Exec(log, Apply(log, s, Assign(m, tp)), after).jobs
             && (j.member, j.period, j.tp) == (m, s.periods, tp)
    ensures Position(Exec(log, BOOT, before), tp) <= j.offset
  {
    var s := Exec(log, BOOT, before);
    RunGrounded(log, BOOT, before);
    forall o ensures Job(m, s.periods, tp, o) !in s.jobs {
      assert Job(m, s.periods, tp, o) in s.jobs ==> JobPlaced(s, Job(m, s.periods, tp, o));
    }
    FetchesFromStays(log, Apply(log, s, Assign(m, tp)), after, m, tp, s.periods, Position(s, tp));
    assert j == Job(m, s.periods, tp, j.offset);
  }

  // ------------------------------------------------------------------
  // The handlers are runs of the protocol
  // ------------------------------------------------------------------

  function HandlingRun(j: Job, fate: Fate): seq<Action> {
    [Start(j), Decide(j, fate)] + if fate == Held then [] else [Record(j)]
  }

  lemma {:induction false} HandlingIsARun(log: Log, s: System, j: Job, fate: Fate)
    requires Enabled(log, s, Start(j))
    ensures ValidRun(log, s, HandlingRun(j, fate))
    ensures var end, book := Exec(log, s, HandlingRun(j, fate)), s.members[j.member].book;
            && j.member in end.members
            && end.members[j.member].book == RecordFate(Dispatch(book, j.tp, j.offset), j.tp, j.offset, fate)
            && (fate != Held ==> (j.tp, j.offset) in end.settled)
  {
    var started := Apply(log, s, Start(j));
    var decided := Apply(log, started, Decide(j, fate));
    var run := HandlingRun(j, fate);
    assert run[1..][0] == Decide(j, fate);
    if fate == Held {
      assert run[1..][1..] == [];
      assert ValidRun(log, decided, []) && Exec(log, decided, []) == decided;
    } else {
      var recorded := Apply(log, decided, Record(j));
      assert run[1..][1..] == [Record(j)] && [Record(j)][1..] == [];
      assert ValidRun(log, recorded, []) && Exec(log, recorded, []) == recorded;
      assert ValidRun(log, decided, [Record(j)]) && Exec(log, decided, [Record(j)]) == recorded;
    }
  }

  /**
   One message through the poll thread's handler and, if it was submitted, the worker's: undisturbed,
   the two take the tracker from the member's book to its book after the run of the protocol with the
   fate they report, give back exactly one slot, and report the message finished only after it was
   answered, skipped, or a publish of it returned.
   */
  method HandleMessage(
      ghost log: Log, ghost s: System, j: Job, tracker: OffsetTracker, slots: Slots,
      intake: Intake, publishReturns: bool, hasIdentity: bool, forward: Forward, workerPublishReturns: bool)
    returns (fate: Fate, calls: seq<Call>)
    requires Enabled(log, s, Start(j)) && tracker.Value() == s.members[j.member].book
    modifies tracker, slots
    ensures ValidRun(log, s, HandlingRun(j, fate))
    ensures j.member in Exec(log, s, HandlingRun(j, fate)).members
    ensures tracker.Value() == Exec(log, s, HandlingRun(j, fate)).members[j.member].book
    ensures slots.permits == old(slots.permits) + 1
    ensures fate == Forwarded ==> intake == Submitted && forward == Answered
    ensures fate == Skipped ==> intake == Skip
    ensures fate.DlqCompleted? || fate.DlqAbandoned? ==> Publish(true) in calls
  {
    var submitted;
    submitted, fate, calls := HandleOneMessage(tracker, slots, j.tp, j.offset, intake, publishReturns);
    if submitted {
      var more;
      fate, more := ProcessAndCommit(tracker, slots, j.tp, j.offset + 1, hasIdentity, forward, workerPublishReturns);
      calls := calls + more;
    }
    HandlingIsARun(log, s, j, fate);
  }
}
