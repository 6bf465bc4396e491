/**
 Completions the ownership period does not cover (src/utils/kafkaConsumer.py): what a worker that
 outlives its period does to the next drain, and two runs in which it loses a message.
 */
module StrayCompletions {
  import opened Extrema
  import opened OffsetTracking
  import opened MessageHandlers
  import opened CommitProtocol

  /**
   Completing an offset the current ownership period has not dispatched (or of a partition no longer
   owned): the next drain passes it exactly when nothing of the partition is running.
   */
  lemma {:induction false} StrayCompletionOverruns(log: Log, s: System, j: Job)
    requires Safe(log, s) && Enabled(log, s, Record(j)) && Completes(s.jobs[j].fate)
    requires Owns(s, j.member, j.tp) ==> Frontier(s, j.member, j.tp) <= j.offset
    ensures var before, after := s.members[j.member].book, Apply(log, s, Record(j)).members[j.member].book;
            (j.tp in Commits(after, {j.tp}) && j.offset < Commits(after, {j.tp})[j.tp])
              <==> Running(before, j.tp) == {}
  {
    var tp, offset := j.tp, j.offset;
    var before, after := s.members[j.member].book, Apply(log, s, Record(j)).members[j.member].book;
    assert BookSafe(s, j.member, tp);
    RecordAt(before, tp, offset, s.jobs[j].fate, tp);
    assert forall o :: o in At(before.dispatched, tp) ==> o < offset;
    StrayDrain(before, after, tp, offset);
  }

  lemma {:induction false} StrayDrain(before: Book, after: Book, tp: TopicPartition, offset: int)
    requires At(after.dispatched, tp) == At(before.dispatched, tp)
    requires At(after.completed, tp) == At(before.completed, tp) + {offset}
    requires forall o :: o in At(before.dispatched, tp) ==> o < offset
    ensures Running(after, tp) == Running(before, tp)
    ensures (tp in Commits(after, {tp}) && offset < Commits(after, {tp})[tp]) <==> Running(before, tp) == {}
    ensures Running(before, tp) != {} && tp in Commits(after, {tp}) ==>
              exists r :: r in Running(before, tp) && Commits(after, {tp})[tp] <= r
  {
    var running := At(after.dispatched, tp) - At(after.completed, tp);
    assert running == Running(before, tp);
    if running == {} {
      assert offset in Ready(after, tp);
      assert tp in Committing(after, {tp});
    } else {
      var r := AnyElement(running);
      assert forall o :: o in Ready(after, tp) ==> o < r;
    }
  }

  /**
   The next drain: where every earlier completion is covered, telling one more makes the drain straight
   after it pass an unsettled message exactly when that completion is not covered and nothing of the
   partition is running. Later drains are the subject of `NoLossExactly`.
   */
  lemma {:induction false} StrayCompletionLosesExactly(log: Log, s: System, j: Job)
    requires Safe(log, s) && Backed(log, s) && Enabled(log, s, Record(j)) && Completes(s.jobs[j].fate)
    ensures var before, t := s.members[j.member].book, Apply(log, s, Record(j));
            var commits := Commits(t.members[j.member].book, {j.tp});
            (j.tp in commits && !SettledBelow(log, t.settled, j.tp, commits[j.tp]))
              <==> Running(before, j.tp) == {} && !Covered(log, s, j.member, j.tp, j.offset)
  {
    if Covered(log, s, j.member, j.tp, j.offset) {
      CoveredCompletionKeepsAll(log, s, j);
    } else {
      UncoveredCompletionLosesExactly(log, s, j);
    }
  }

  lemma {:induction false} CoveredCompletionKeepsAll(log: Log, s: System, j: Job)
    requires Safe(log, s) && Backed(log, s) && Enabled(log, s, Record(j)) && Completes(s.jobs[j].fate)
    requires Covered(log, s, j.member, j.tp, j.offset)
    ensures var t := Apply(log, s, Record(j));
            var commits := Commits(t.members[j.member].book, {j.tp});
            j.tp in commits ==> SettledBelow(log, t.settled, j.tp, commits[j.tp])
  {
    var t := Apply(log, s, Record(j));
    StepSafe(log, s, Record(j));
    StepBacked(log, s, Record(j));
    if j.tp in Commits(t.members[j.member].book, {j.tp}) {
      CommitsAreSettled(log, t, j.member, {j.tp}, j.tp);
    }
  }

  lemma {:induction false} UncoveredCompletionLosesExactly(log: Log, s: System, j: Job)
    requires Safe(log, s) && Enabled(log, s, Record(j)) && Completes(s.jobs[j].fate)
    requires !Covered(log, s, j.member, j.tp, j.offset)
    ensures var before, t := s.members[j.member].book, Apply(log, s, Record(j));
            var commits := Commits(t.members[j.member].book, {j.tp});
            (j.tp in commits && !SettledBelow(log, t.settled, j.tp, commits[j.tp]))
              <==> Running(before, j.tp) == {}
  {
    var m, tp, t := j.member, j.tp, Apply(log, s, Record(j));
    var before, after := s.members[m].book, t.members[m].book;
    assert BookSafe(s, m, tp);
    RecordAt(before, tp, j.offset, s.jobs[j].fate, tp);
    StrayDrain(before, after, tp, j.offset);
    StepSafe(log, s, Record(j));
    assert Frontier(t, m, tp) == Frontier(s, m, tp);
    if tp in Commits(after, {tp}) {
      CommitPassesExactly(log, t, m, {tp}, tp);
    }
  }

  // ------------------------------------------------------------------
  // Runs with a concrete log
  // ------------------------------------------------------------------

  const ORDERS := TopicPartition("rejections", 0)

  ghost const THREE_MESSAGES: Log := (tp: TopicPartition, o: int) => tp == ORDERS && 0 <= o < 3

  /** The job for an offset in the member's first or second ownership period. */
  function Task(period: nat, offset: int): Job {
    Job(0, period, ORDERS, offset)
  }

  /** One member that has at most the one partition. */
  function Alone(
      book: Book, sessions: map<TopicPartition, Session>, jobs: map<Job, Phase>,
      settled: set<(TopicPartition, int)>, periods: nat): System
  {
    System(map[0 := Member(book, sessions)], jobs, settled, {}, map[], periods)
  }

  function Owning(session: Session): map<TopicPartition, Session> {
    map[ORDERS := session]
  }

  function Tasks(period: nat, first: Phase, second: Phase, third: Phase): map<Job, Phase> {
    map[Task(period, 0) := first, Task(period, 1) := second, Task(period, 2) := third]
  }

  ghost predicate Leads(s: System, run: seq<Action>, t: System) {
    ValidRun(THREE_MESSAGES, s, run) && Exec(THREE_MESSAGES, s, run) == t
  }

  ghost predicate Steps(s: System, a: Action, t: System) {
    Enabled(THREE_MESSAGES, s, a) && Apply(THREE_MESSAGES, s, a) == t
  }

  lemma {:induction false} Nothing(s: System)
    ensures Leads(s, [], s)
  {
  }

  lemma {:induction false} Prepend(s: System, a: Action, t: System, rest: seq<Action>, end: System)
    requires Steps(s, a, t) && Leads(t, rest, end)
    ensures Leads(s, [a] + rest, end)
  {
    assert ([a] + rest)[1..] == rest;
  }

  lemma {:induction false} TwoSteps(s: System, a: Action, t: System, b: Action, u: System)
    requires Steps(s, a, t) && Steps(t, b, u)
    ensures Leads(s, [a, b], u)
  {
    Nothing(u);
    Prepend(t, b, u, [], u);
    assert [b] + [] == [b];
    Prepend(s, a, t, [b], u);
    assert [a] + [b] == [a, b];
  }

  lemma {:induction false} ThreeSteps(s: System, a: Action, t: System, b: Action, u: System, c: Action, v: System)
    requires Steps(s, a, t) && Steps(t, b, u) && Steps(u, c, v)
    ensures Leads(s, [a, b, c], v)
  {
    TwoSteps(t, b, u, c, v);
    Prepend(s, a, t, [b, c], v);
    assert [a] + [b, c] == [a, b, c];
  }

  lemma {:induction false} Then(s: System, run: seq<Action>, t: System, more: seq<Action>, u: System)
    requires Leads(s, run, t) && Leads(t, more, u)
    ensures Leads(s, run + more, u)
  {
    SplitRun(THREE_MESSAGES, s, run, more);
  }

  // What single steps do to such a system.

  lemma {:induction false} Starting(
      book: Book, session: Session, jobs: map<Job, Phase>, settled: set<(TopicPartition, int)>, periods: nat,
      offset: int)
    requires Task(session.period, offset) in jobs && jobs[Task(session.period, offset)] == Waiting
    requires forall o :: Task(session.period, o) in jobs && jobs[Task(session.period, o)] == Waiting ==> offset <= o
    ensures Steps(Alone(book, Owning(session), jobs, settled, periods), Start(Task(session.period, offset)),
                  Alone(Dispatch(book, ORDERS, offset), Owning(session.(high := offset + 1)),
                        jobs[Task(session.period, offset) := Working], settled, periods))
  {
    var s, j := Alone(book, Owning(session), jobs, settled, periods), Task(session.period, offset);
    forall k | k in s.jobs && k.(offset := 0) == j.(offset := 0) && s.jobs[k] == Waiting ensures j.offset <= k.offset {
      assert k == Task(session.period, k.offset);
    }
    var t := Apply(THREE_MESSAGES, s, Start(j));
    assert t.members[0].sessions == Owning(session.(high := offset + 1));
    assert t.members == map[0 := Member(Dispatch(book, ORDERS, offset), Owning(session.(high := offset + 1)))];
  }

  lemma {:induction false} Deciding(
      book: Book, sessions: map<TopicPartition, Session>, jobs: map<Job, Phase>,
      settled: set<(TopicPartition, int)>, periods: nat, j: Job)
    requires j in jobs && jobs[j] == Working && j.tp == ORDERS
    ensures Steps(Alone(book, sessions, jobs, settled, periods), Decide(j, Forwarded),
                  Alone(book, sessions, jobs[j := Decided(Forwarded)], settled + {(ORDERS, j.offset)}, periods))
  {
  }

  lemma {:induction false} Recording(
      book: Book, sessions: map<TopicPartition, Session>, jobs: map<Job, Phase>,
      settled: set<(TopicPartition, int)>, periods: nat, period: nat, offset: int)
    requires Task(period, offset) in jobs && jobs[Task(period, offset)] == Decided(Forwarded)
    ensures Steps(Alone(book, sessions, jobs, settled, periods), Record(Task(period, offset)),
                  Alone(Complete(book, ORDERS, offset), sessions, jobs[Task(period, offset) := Recorded],
                        settled, periods))
  {
    var s := Alone(book, sessions, jobs, settled, periods);
    var t := Apply(THREE_MESSAGES, s, Record(Task(period, offset)));
    assert t.members == map[0 := Member(Complete(book, ORDERS, offset), sessions)];
  }

  lemma {:induction false} Assigning(
    book: Book, jobs: map<Job, Phase>, settled: set<(TopicPartition, int)>, periods: nat)
    requires Tracked(book) <= {ORDERS}
    ensures Steps(Alone(book, map[], jobs, settled, periods), Assign(0, ORDERS),
                  Alone(EMPTY_BOOK, Owning(Session(periods, 0, 0, 0)), jobs, settled, periods + 1))
  {
    ForgetAll(book);
    var t := Apply(THREE_MESSAGES, Alone(book, map[], jobs, settled, periods), Assign(0, ORDERS));
    assert t.members[0].sessions == Owning(Session(periods, 0, 0, 0));
    assert t.members == map[0 := Member(EMPTY_BOOK, Owning(Session(periods, 0, 0, 0)))];
  }

  lemma {:induction false} Revoking(
      book: Book, session: Session, jobs: map<Job, Phase>, settled: set<(TopicPartition, int)>, periods: nat)
    requires Tracked(book) <= {ORDERS}
    ensures Steps(Alone(book, Owning(session), jobs, settled, periods), Revoke(0, {ORDERS}),
                  Alone(EMPTY_BOOK, map[], jobs, settled, periods))
  {
    ForgetAll(book);
    var t := Apply(THREE_MESSAGES, Alone(book, Owning(session), jobs, settled, periods), Revoke(0, {ORDERS}));
    assert Owning(session) - {ORDERS} == map[];
    assert t.members == map[0 := Member(EMPTY_BOOK, map[])];
  }

  lemma {:induction false} ForgetAll(book: Book)
    requires Tracked(book) <= {ORDERS}
    ensures Forget(book, {ORDERS}) == EMPTY_BOOK
  {
    assert book.dispatched - {ORDERS} == map[] && book.completed - {ORDERS} == map[];
  }

  lemma {:induction false} Polling(
    jobs: map<Job, Phase>, settled: set<(TopicPartition, int)>, period: nat, periods: nat)
    ensures Steps(Alone(EMPTY_BOOK, Owning(Session(period, 0, 0, 0)), jobs, settled, periods), Poll(0, ORDERS, 3),
                  Alone(EMPTY_BOOK, Owning(Session(period, 3, 0, 0)),
                        jobs + Tasks(period, Waiting, Waiting, Waiting), settled, periods))
  {
    var session := Session(period, 0, 0, 0);
    var s := Alone(EMPTY_BOOK, Owning(session), jobs, settled, periods);
    var t := Apply(THREE_MESSAGES, s, Poll(0, ORDERS, 3));
    assert t.members[0].sessions == Owning(Session(period, 3, 0, 0));
    assert t.members == map[0 := Member(EMPTY_BOOK, Owning(Session(period, 3, 0, 0)))];
    BatchOfThree(session);
    assert (map j | j in Batch(THREE_MESSAGES, 0, ORDERS, session, 3) :: Waiting) ==
           Tasks(period, Waiting, Waiting, Waiting);
  }

  lemma {:induction false} BatchOfThree(session: Session)
    requires session.position == 0
    ensures Batch(THREE_MESSAGES, 0, ORDERS, session, 3) ==
            {Task(session.period, 0), Task(session.period, 1), Task(session.period, 2)}
  {
    var batch := Batch(THREE_MESSAGES, 0, ORDERS, session, 3);
    forall o | 0 <= o < 3 ensures Task(session.period, o) in batch {
    }
    forall j | j in batch ensures j in {Task(session.period, 0), Task(session.period, 1), Task(session.period, 2)} {
      assert j == Task(session.period, j.offset);
    }
  }

  /** A drain of the partition goes out to the broker, which takes it. */
  lemma {:induction false} Delivering(s: System, v: int)
    requires 0 in s.members && ORDERS in Commits(s.members[0].book, {ORDERS})
    requires Commits(s.members[0].book, {ORDERS})[ORDERS] == v
    ensures ValidRun(THREE_MESSAGES, s, [Commit(0, {ORDERS}), Deliver(ORDERS, v)])
    ensures var end := Exec(THREE_MESSAGES, s, [Commit(0, {ORDERS}), Deliver(ORDERS, v)]);
            Position(end, ORDERS) == v && end.settled == s.settled
  {
    var t := Apply(THREE_MESSAGES, s, Commit(0, {ORDERS}));
    assert (ORDERS, v) in t.wire;
    TwoSteps(s, Commit(0, {ORDERS}), t, Deliver(ORDERS, v), Apply(THREE_MESSAGES, t, Deliver(ORDERS, v)));
  }

  /** Three messages are fetched and started; the last is forwarded, then the partition is revoked. */
  const FETCHING: seq<Action> := [Join(0), Assign(0, ORDERS), Poll(0, ORDERS, 3)]
  const STARTING: seq<Action> := [Start(Task(0, 0)), Start(Task(0, 1)), Start(Task(0, 2))]
  const LEAVING: seq<Action> := [Decide(Task(0, 2), Forwarded), Revoke(0, {ORDERS})]
  const PREFIX: seq<Action> := FETCHING + STARTING + LEAVING

  /** The worker of the last message reports only now. */
  const REPORTING: seq<Action> := [Record(Task(0, 2))]

  /** The partition comes back to the same member, which fetches it again and starts the first message ... */
  const RETURNING: seq<Action> := [Assign(0, ORDERS), Poll(0, ORDERS, 3), Start(Task(1, 0))]

  /** ... and the old worker reports before that message is done. */
  const PASSING: seq<Action> := [Record(Task(0, 2)), Decide(Task(1, 0), Forwarded), Record(Task(1, 0))]

  const OVERTAKING: seq<Action> := [Commit(0, {ORDERS}), Deliver(ORDERS, 3)]

  const LEFT_OVER := Tasks(0, Working, Working, Decided(Forwarded))
  const REVOKED := Alone(EMPTY_BOOK, map[], LEFT_OVER, {(ORDERS, 2)}, 1)

  const RETURNED_JOBS := LEFT_OVER + Tasks(1, Waiting, Waiting, Waiting)
  const RETURNED := Alone(Dispatch(EMPTY_BOOK, ORDERS, 0), Owning(Session(1, 3, 1, 0)),
                          RETURNED_JOBS[Task(1, 0) := Working], {(ORDERS, 2)}, 2)

  /** The broker's position is past a message that was never settled. */
  ghost predicate LosesSecond(s: System) {
    THREE_MESSAGES(ORDERS, 1) && 1 < Position(s, ORDERS) && (ORDERS, 1) !in s.settled
  }

  /** A worker that reports after the partition was revoked moves the broker past the messages before its own. */
  lemma {:induction false} LateWorkerLosesMessage()
    ensures ValidRun(THREE_MESSAGES, BOOT, PREFIX + (REPORTING + OVERTAKING))
    ensures LosesSecond(Exec(THREE_MESSAGES, BOOT, PREFIX + (REPORTING + OVERTAKING)))
  {
    PrefixLeads();
    var book := Complete(EMPTY_BOOK, ORDERS, 2);
    var reported := Alone(book, map[], LEFT_OVER[Task(0, 2) := Recorded], {(ORDERS, 2)}, 1);
    Recording(EMPTY_BOOK, map[], LEFT_OVER, {(ORDERS, 2)}, 1, 0, 2);
    Nothing(reported);
    Prepend(REVOKED, Record(Task(0, 2)), reported, [], reported);
    assert [Record(Task(0, 2))] + [] == REPORTING;
    assert At(book.completed, ORDERS) == {2} && At(book.dispatched, ORDERS) == {};
    AllFinished(book);
    Delivering(reported, 3);
    Then(REVOKED, REPORTING, reported, OVERTAKING, Exec(THREE_MESSAGES, reported, OVERTAKING));
    SplitRun(THREE_MESSAGES, BOOT, PREFIX, REPORTING + OVERTAKING);
  }

  /**
   A partition that comes back to its old owner: the stray completion waits behind the floor while the
   first message runs again, and the drain after that message passes the second one.
   */
  lemma {:induction false} ReturningPartitionLosesMessage()
    ensures ValidRun(THREE_MESSAGES, BOOT, PREFIX + (RETURNING + PASSING + OVERTAKING))
    ensures LosesSecond(Exec(THREE_MESSAGES, BOOT, PREFIX + (RETURNING + PASSING + OVERTAKING)))
  {
    PrefixLeads();
    ReturningLeads();
    var passed := Exec(THREE_MESSAGES, RETURNED, PASSING);
    PassingLeads();
    Delivering(passed, 3);
    Then(REVOKED, RETURNING, RETURNED, PASSING, passed);
    Then(REVOKED, RETURNING + PASSING, passed, OVERTAKING, Exec(THREE_MESSAGES, passed, OVERTAKING));
    SplitRun(THREE_MESSAGES, BOOT, PREFIX, RETURNING + PASSING + OVERTAKING);
  }

  lemma {:induction false} AllFinished(book: Book)
    requires At(book.completed, ORDERS) in {{2}, {0, 2}} && At(book.dispatched, ORDERS) <= At(book.completed, ORDERS)
    ensures ORDERS in Commits(book, {ORDERS}) && Commits(book, {ORDERS})[ORDERS] == 3
  {
    assert Ready(book, ORDERS) == At(book.completed, ORDERS);
    assert 2 in Ready(book, ORDERS) && Max(Ready(book, ORDERS)) == 2;
  }

  lemma {:induction false} PrefixLeads()
    ensures Leads(BOOT, PREFIX, REVOKED)
  {
    var fetched := Alone(EMPTY_BOOK, Owning(Session(0, 3, 0, 0)), Tasks(0, Waiting, Waiting, Waiting), {}, 1);
    FetchingLeads();
    var one := Dispatch(EMPTY_BOOK, ORDERS, 0);
    var two := Dispatch(one, ORDERS, 1);
    var three := Dispatch(two, ORDERS, 2);
    StartingLeads(one, two, three);
    var started := Alone(three, Owning(Session(0, 3, 3, 0)), Tasks(0, Working, Working, Working), {}, 1);
    LeavingLeads(three);
    Then(BOOT, FETCHING, fetched, STARTING, started);
    Then(BOOT, FETCHING + STARTING, started, LEAVING, REVOKED);
  }

  lemma {:induction false} FetchingLeads()
    ensures Leads(BOOT, FETCHING,
                  Alone(EMPTY_BOOK, Owning(Session(0, 3, 0, 0)), Tasks(0, Waiting, Waiting, Waiting), {}, 1))
  {
    var joined := Alone(EMPTY_BOOK, map[], map[], {}, 0);
    var begun := Alone(EMPTY_BOOK, Owning(Session(0, 0, 0, 0)), map[], {}, 1);
    var fetched := Alone(EMPTY_BOOK, Owning(Session(0, 3, 0, 0)), map[] + Tasks(0, Waiting, Waiting, Waiting), {}, 1);
    Assigning(EMPTY_BOOK, map[], {}, 0);
    Polling(map[], {}, 0, 1);
    ThreeSteps(BOOT, Join(0), joined, Assign(0, ORDERS), begun, Poll(0, ORDERS, 3), fetched);
    assert map[] + Tasks(0, Waiting, Waiting, Waiting) == Tasks(0, Waiting, Waiting, Waiting);
  }

  lemma {:induction false} StartingLeads(one: Book, two: Book, three: Book)
    requires one == Dispatch(EMPTY_BOOK, ORDERS, 0)
    requires two == Dispatch(one, ORDERS, 1) && three == Dispatch(two, ORDERS, 2)
    ensures Leads(Alone(EMPTY_BOOK, Owning(Session(0, 3, 0, 0)), Tasks(0, Waiting, Waiting, Waiting), {}, 1), STARTING,
                  Alone(three, Owning(Session(0, 3, 3, 0)), Tasks(0, Working, Working, Working), {}, 1))
  {
    var jobs0, jobs1 := Tasks(0, Waiting, Waiting, Waiting), Tasks(0, Working, Waiting, Waiting);
    var jobs2, jobs3 := Tasks(0, Working, Working, Waiting), Tasks(0, Working, Working, Working);
    StartingFirst(EMPTY_BOOK);
    StartingSecond(one);
    StartingThird(two);
    ThreeSteps(Alone(EMPTY_BOOK, Owning(Session(0, 3, 0, 0)), jobs0, {}, 1), Start(Task(0, 0)),
               Alone(one, Owning(Session(0, 3, 1, 0)), jobs1, {}, 1), Start(Task(0, 1)),
               Alone(two, Owning(Session(0, 3, 2, 0)), jobs2, {}, 1), Start(Task(0, 2)),
               Alone(three, Owning(Session(0, 3, 3, 0)), jobs3, {}, 1));
  }

  lemma {:induction false} StartingFirst(book: Book)
    ensures Steps(Alone(book, Owning(Session(0, 3, 0, 0)), Tasks(0, Waiting, Waiting, Waiting), {}, 1),
                  Start(Task(0, 0)),
                  Alone(Dispatch(book, ORDERS, 0), Owning(Session(0, 3, 1, 0)),
                        Tasks(0, Working, Waiting, Waiting), {}, 1))
  {
    Starting(book, Session(0, 3, 0, 0), Tasks(0, Waiting, Waiting, Waiting), {}, 1, 0);
    FirstUpdated(0, Waiting, Waiting, Waiting, Working);
  }

  lemma {:induction false} StartingSecond(book: Book)
    ensures Steps(Alone(book, Owning(Session(0, 3, 1, 0)), Tasks(0, Working, Waiting, Waiting), {}, 1),
                  Start(Task(0, 1)),
                  Alone(Dispatch(book, ORDERS, 1), Owning(Session(0, 3, 2, 0)),
                        Tasks(0, Working, Working, Waiting), {}, 1))
  {
    Starting(book, Session(0, 3, 1, 0), Tasks(0, Working, Waiting, Waiting), {}, 1, 1);
    SecondUpdated(0, Working, Waiting, Waiting, Working);
  }

  lemma {:induction false} StartingThird(book: Book)
    ensures Steps(Alone(book, Owning(Session(0, 3, 2, 0)), Tasks(0, Working, Working, Waiting), {}, 1),
                  Start(Task(0, 2)),
                  Alone(Dispatch(book, ORDERS, 2), Owning(Session(0, 3, 3, 0)),
                        Tasks(0, Working, Working, Working), {}, 1))
  {
    Starting(book, Session(0, 3, 2, 0), Tasks(0, Working, Working, Waiting), {}, 1, 2);
    ThirdUpdated(0, Working, Working, Waiting, Working);
  }

  lemma {:induction false} FirstUpdated(period: nat, first: Phase, second: Phase, third: Phase, next: Phase)
    ensures Tasks(period, first, second, third)[Task(period, 0) := next] == Tasks(period, next, second, third)
  {
    SameTasks(period, Tasks(period, first, second, third)[Task(period, 0) := next], next, second, third);
  }

  lemma {:induction false} SecondUpdated(period: nat, first: Phase, second: Phase, third: Phase, next: Phase)
    ensures Tasks(period, first, second, third)[Task(period, 1) := next] == Tasks(period, first, next, third)
  {
    SameTasks(period, Tasks(period, first, second, third)[Task(period, 1) := next], first, next, third);
  }

  lemma {:induction false} ThirdUpdated(period: nat, first: Phase, second: Phase, third: Phase, next: Phase)
    ensures Tasks(period, first, second, third)[Task(period, 2) := next] == Tasks(period, first, second, next)
  {
    SameTasks(period, Tasks(period, first, second, third)[Task(period, 2) := next], first, second, next);
  }

  lemma {:induction false} SameTasks(period: nat, jobs: map<Job, Phase>, first: Phase, second: Phase, third: Phase)
    requires jobs.Keys == {Task(period, 0), Task(period, 1), Task(period, 2)}
    requires jobs[Task(period, 0)] == first && jobs[Task(period, 1)] == second && jobs[Task(period, 2)] == third
    ensures jobs == Tasks(period, first, second, third)
  {
    var tasks := Tasks(period, first, second, third);
    assert tasks.Keys == jobs.Keys;
    forall j | j in jobs ensures tasks[j] == jobs[j] {
      assert j in jobs.Keys;
    }
  }

  lemma {:induction false} LeavingLeads(book: Book)
    requires Tracked(book) <= {ORDERS}
    ensures Leads(Alone(book, Owning(Session(0, 3, 3, 0)), Tasks(0, Working, Working, Working), {}, 1),
                  LEAVING, REVOKED)
  {
    var session, jobs := Session(0, 3, 3, 0), Tasks(0, Working, Working, Working);
    Deciding(book, Owning(session), jobs, {}, 1, Task(0, 2));
    ThirdUpdated(0, Working, Working, Working, Decided(Forwarded));
    assert {} + {(ORDERS, 2)} == {(ORDERS, 2)};
    Revoking(book, session, LEFT_OVER, {(ORDERS, 2)}, 1);
    TwoSteps(Alone(book, Owning(session), jobs, {}, 1), Decide(Task(0, 2), Forwarded),
             Alone(book, Owning(session), LEFT_OVER, {(ORDERS, 2)}, 1), Revoke(0, {ORDERS}), REVOKED);
  }

  lemma {:induction false} ReturningLeads()
    ensures Leads(REVOKED, RETURNING, RETURNED)
  {
    Assigning(EMPTY_BOOK, LEFT_OVER, {(ORDERS, 2)}, 1);
    Polling(LEFT_OVER, {(ORDERS, 2)}, 1, 2);
    StartingAgain();
    ThreeSteps(REVOKED, Assign(0, ORDERS),
               Alone(EMPTY_BOOK, Owning(Session(1, 0, 0, 0)), LEFT_OVER, {(ORDERS, 2)}, 2), Poll(0, ORDERS, 3),
               Alone(EMPTY_BOOK, Owning(Session(1, 3, 0, 0)), RETURNED_JOBS, {(ORDERS, 2)}, 2), Start(Task(1, 0)),
               RETURNED);
  }

  lemma {:induction false} StartingAgain()
    ensures Steps(Alone(EMPTY_BOOK, Owning(Session(1, 3, 0, 0)), RETURNED_JOBS, {(ORDERS, 2)}, 2), Start(Task(1, 0)),
                  RETURNED)
  {
    forall o | Task(1, o) in RETURNED_JOBS ensures 0 <= o {
      assert Task(1, o) in Tasks(1, Waiting, Waiting, Waiting);
    }
    assert RETURNED_JOBS[Task(1, 0)] == Waiting;
    Starting(EMPTY_BOOK, Session(1, 3, 0, 0), RETURNED_JOBS, {(ORDERS, 2)}, 2, 0);
  }

  lemma {:induction false} PassingLeads()
    ensures ValidRun(THREE_MESSAGES, RETURNED, PASSING)
    ensures var end := Exec(THREE_MESSAGES, RETURNED, PASSING);
            && end.settled == {(ORDERS, 0), (ORDERS, 2)} && 0 in end.members
            && ORDERS in Commits(end.members[0].book, {ORDERS}) && Commits(end.members[0].book, {ORDERS})[ORDERS] == 3
  {
    var one := Dispatch(EMPTY_BOOK, ORDERS, 0);
    var three := Complete(Complete(one, ORDERS, 2), ORDERS, 0);
    var jobs := PassingFrom(one, Owning(Session(1, 3, 1, 0)), RETURNED_JOBS[Task(1, 0) := Working], {(ORDERS, 2)}, 2);
    assert At(three.completed, ORDERS) == {0, 2} && At(three.dispatched, ORDERS) == {0};
    AllFinished(three);
  }

  lemma {:induction false} PassingFrom(
      book: Book, sessions: map<TopicPartition, Session>, jobs: map<Job, Phase>,
      settled: set<(TopicPartition, int)>, periods: nat)
    returns (passed: map<Job, Phase>)
    requires Task(0, 2) in jobs && jobs[Task(0, 2)] == Decided(Forwarded)
    requires Task(1, 0) in jobs && jobs[Task(1, 0)] == Working
    ensures Leads(Alone(book, sessions, jobs, settled, periods), PASSING,
                  Alone(Complete(Complete(book, ORDERS, 2), ORDERS, 0), sessions, passed,
                        settled + {(ORDERS, 0)}, periods))
  {
    var two := Complete(book, ORDERS, 2);
    var jobs1 := jobs[Task(0, 2) := Recorded];
    var jobs2 := jobs1[Task(1, 0) := Decided(Forwarded)];
    passed := jobs2[Task(1, 0) := Recorded];
    Recording(book, sessions, jobs, settled, periods, 0, 2);
    Deciding(two, sessions, jobs1, settled, periods, Task(1, 0));
    Recording(two, sessions, jobs2, settled + {(ORDERS, 0)}, periods, 1, 0);
    ThreeSteps(Alone(book, sessions, jobs, settled, periods), Record(Task(0, 2)),
               Alone(two, sessions, jobs1, settled, periods), Decide(Task(1, 0), Forwarded),
               Alone(two, sessions, jobs2, settled + {(ORDERS, 0)}, periods), Record(Task(1, 0)),
               Alone(Complete(two, ORDERS, 0), sessions, passed, settled + {(ORDERS, 0)}, periods));
  }
}
