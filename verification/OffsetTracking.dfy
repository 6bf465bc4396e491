/**
 The consumer's offset bookkeeping (src/utils/kafkaConsumer.py).

 A `Book` is the value of the tracker: the offsets handed to workers and the offsets known to be
 finished, per partition. The functions below it say what each tracker call does to that value; the
 class `OffsetTracker` updates its two dictionaries in place and is proved against them. A method of
 the class is one atomic step, because the source holds one lock for the whole of each method.
 */
module OffsetTracking {
  import opened Extrema

  datatype TopicPartition = TopicPartition(topic: string, partition: int)

  type Offsets = map<TopicPartition, set<int>>

  datatype Book = Book(dispatched: Offsets, completed: Offsets)

  const EMPTY_BOOK := Book(map[], map[])

  /** A dictionary read of a `defaultdict(set)`: an absent partition holds no offset. */
  function At(m: Offsets, tp: TopicPartition): set<int> {
    if tp in m then m[tp] else {}
  }

  function Running(b: Book, tp: TopicPartition): set<int> {
    At(b.dispatched, tp) - At(b.completed, tp)
  }

  /** The finished offsets that lie below everything still running. */
  function Committable(dispatched: set<int>, completed: set<int>): (ready: set<int>)
    ensures forall o :: o in ready <==> o in completed && forall x :: x in dispatched - completed ==> o < x
  {
    var stillRunning := dispatched - completed;
    if stillRunning != {} then
      set o | o in completed && o < Min(stillRunning)
    else
      assert forall x :: x !in stillRunning;
      completed
  }

  function Ready(b: Book, tp: TopicPartition): set<int> {
    Committable(At(b.dispatched, tp), At(b.completed, tp))
  }

  function Dispatch(b: Book, tp: TopicPartition, offset: int): Book {
    b.(dispatched := b.dispatched[tp := At(b.dispatched, tp) + {offset}])
  }

  function Complete(b: Book, tp: TopicPartition, offset: int): Book {
    b.(completed := b.completed[tp := At(b.completed, tp) + {offset}])
  }

  function Abandon(b: Book, tp: TopicPartition, offset: int): Book {
    Book(b.dispatched[tp := At(b.dispatched, tp) - {offset}],
         b.completed[tp := At(b.completed, tp) - {offset}])
  }

  function Forget(b: Book, partitions: set<TopicPartition>): Book {
    Book(b.dispatched - partitions, b.completed - partitions)
  }

  function Tracked(b: Book): set<TopicPartition> {
    b.dispatched.Keys + b.completed.Keys
  }

  /** The partitions among `partitions` with something to commit. */
  function Committing(b: Book, partitions: set<TopicPartition>): set<TopicPartition> {
    set tp | tp in b.completed && tp in partitions && Ready(b, tp) != {}
  }

  /** The positions a drain of `partitions` hands to the broker. */
  function Commits(b: Book, partitions: set<TopicPartition>): map<TopicPartition, int> {
    map tp | tp in Committing(b, partitions) :: Max(Ready(b, tp)) + 1
  }

  function Retire(m: Offsets, b: Book, committing: set<TopicPartition>): Offsets {
    map tp | tp in m.Keys + committing :: if tp in committing then At(m, tp) - Ready(b, tp) else At(m, tp)
  }

  /** The book after a drain: what was handed over is retired from both sides. */
  function Drain(b: Book, partitions: set<TopicPartition>): Book {
    var committing := Committing(b, partitions);
    Book(Retire(b.dispatched, b, committing), Retire(b.completed, b, committing))
  }

  lemma {:induction false} RetireKeeps(m: Offsets, b: Book, committing: set<TopicPartition>, tp: TopicPartition)
    requires tp !in committing
    ensures At(Retire(m, b, committing), tp) == At(m, tp)
    ensures tp in m ==> tp in Retire(m, b, committing)
  {
  }

  lemma {:induction false} RetireOneMore(m: Offsets, b: Book, committing: set<TopicPartition>, tp: TopicPartition)
    requires tp !in committing
    ensures Retire(m, b, committing + {tp}) == Retire(m, b, committing)[tp := At(m, tp) - Ready(b, tp)]
  {
    var one, more := Retire(m, b, committing)[tp := At(m, tp) - Ready(b, tp)], Retire(m, b, committing + {tp});
    forall q ensures q in one <==> q in more {
    }
    forall q | q in one ensures one[q] == more[q] {
    }
  }

  lemma {:induction false} CommittingMore(b: Book, done: set<TopicPartition>, tp: TopicPartition)
    requires tp !in done && tp in b.completed
    ensures tp !in Committing(b, done)
    ensures Committing(b, done + {tp}) == Committing(b, done) + if Ready(b, tp) == {} then {} else {tp}
  {
  }

  /** Draining other partitions keeps a partition's entries. */
  lemma {:induction false} DrainKeeps(b: Book, done: set<TopicPartition>, tp: TopicPartition)
    requires tp !in done && tp in b.completed
    ensures At(Drain(b, done).dispatched, tp) == At(b.dispatched, tp)
    ensures tp in Drain(b, done).completed && Drain(b, done).completed[tp] == b.completed[tp]
  {
    CommittingMore(b, done, tp);
    RetireKeeps(b.dispatched, b, Committing(b, done), tp);
    RetireKeeps(b.completed, b, Committing(b, done), tp);
  }

  /** A partition with nothing ready is passed over. */
  lemma {:induction false} DrainSkips(b: Book, done: set<TopicPartition>, tp: TopicPartition)
    requires tp !in done && tp in b.completed && Ready(b, tp) == {}
    ensures Commits(b, done + {tp}) == Commits(b, done) && Drain(b, done + {tp}) == Drain(b, done)
  {
    CommittingMore(b, done, tp);
    SameCommitting(b, done + {tp}, done);
  }

  /** What is drained depends on the partitions that have something to commit only. */
  lemma {:induction false} SameCommitting(b: Book, p: set<TopicPartition>, q: set<TopicPartition>)
    requires Committing(b, p) == Committing(b, q)
    ensures Commits(b, p) == Commits(b, q) && Drain(b, p) == Drain(b, q)
  {
  }

  lemma {:induction false} CommitsTake(b: Book, done: set<TopicPartition>, tp: TopicPartition)
    requires tp !in done && tp in b.completed && Ready(b, tp) != {}
    ensures Commits(b, done + {tp}) == Commits(b, done)[tp := Max(Ready(b, tp)) + 1]
  {
    CommittingMore(b, done, tp);
  }

  /** Any other partition is drained on its own. */
  lemma {:induction false} DrainTakes(b: Book, done: set<TopicPartition>, tp: TopicPartition)
    requires tp !in done && tp in b.completed && Ready(b, tp) != {}
    ensures Drain(b, done + {tp}).dispatched == Drain(b, done).dispatched[tp := At(b.dispatched, tp) - Ready(b, tp)]
    ensures Drain(b, done + {tp}).completed == Drain(b, done).completed[tp := b.completed[tp] - Ready(b, tp)]
  {
    CommittingMore(b, done, tp);
    RetireOneMore(b.dispatched, b, Committing(b, done), tp);
    RetireOneMore(b.completed, b, Committing(b, done), tp);
  }

  function Taken(commits: map<TopicPartition, int>, ready: set<int>, tp: TopicPartition): map<TopicPartition, int> {
    if ready == {} then commits else commits[tp := Max(ready) + 1]
  }

  function Taking(m: Offsets, ready: set<int>, tp: TopicPartition): Offsets {
    if ready == {} then m else m[tp := At(m, tp) - ready]
  }

  lemma {:induction false} DrainNothing(b: Book)
    ensures Commits(b, {}) == map[] && Drain(b, {}) == b
  {
    assert Committing(b, {}) == {};
    assert Retire(b.dispatched, b, {}) == b.dispatched && Retire(b.completed, b, {}) == b.completed;
  }

  /** Draining one more partition touches that partition's entries and no other. */
  lemma {:induction false} DrainOne(b: Book, done: set<TopicPartition>, tp: TopicPartition)
    requires tp !in done && tp in b.completed
    ensures Commits(b, done + {tp}) == Taken(Commits(b, done), Ready(b, tp), tp)
    ensures Drain(b, done + {tp}).dispatched == Taking(Drain(b, done).dispatched, Ready(b, tp), tp)
    ensures Drain(b, done + {tp}).completed == Taking(Drain(b, done).completed, Ready(b, tp), tp)
  {
    DrainKeeps(b, done, tp);
    if Ready(b, tp) == {} {
      DrainSkips(b, done, tp);
    } else {
      CommitsTake(b, done, tp);
      DrainTakes(b, done, tp);
    }
  }

  /** Only partitions with finished offsets matter to a drain. */
  lemma {:induction false} DrainAll(b: Book, done: set<TopicPartition>)
    requires done == b.completed.Keys
    ensures Commits(b, Tracked(b)) == Commits(b, done) && Drain(b, Tracked(b)) == Drain(b, done)
  {
    assert Committing(b, Tracked(b)) == Committing(b, done);
  }

  /** A drain of some partitions is the full drain restricted to them; the others keep their entries. */
  lemma {:induction false} RestrictedDrain(b: Book, done: set<TopicPartition>, partitions: set<TopicPartition>)
    requires done == b.completed.Keys
    ensures Commits(b, done * partitions) ==
              map tp | tp in Commits(b, Tracked(b)) && tp in partitions :: Commits(b, Tracked(b))[tp]
    ensures Drain(b, done * partitions) == Drain(b, partitions)
    ensures forall tp :: tp !in partitions ==>
              && At(Drain(b, partitions).dispatched, tp) == At(b.dispatched, tp)
              && At(Drain(b, partitions).completed, tp) == At(b.completed, tp)
  {
    assert Committing(b, done * partitions) == Committing(b, partitions);
    SameCommitting(b, done * partitions, partitions);
    RestrictedCommits(b, partitions);
    forall tp | tp !in partitions
      ensures At(Drain(b, partitions).dispatched, tp) == At(b.dispatched, tp)
      ensures At(Drain(b, partitions).completed, tp) == At(b.completed, tp)
    {
      DrainAt(b, partitions, tp);
    }
  }

  /** Restricting a drain restricts what it commits. */
  lemma {:induction false} RestrictedCommits(b: Book, partitions: set<TopicPartition>)
    ensures Commits(b, partitions) ==
              map tp | tp in Commits(b, Tracked(b)) && tp in partitions :: Commits(b, Tracked(b))[tp]
  {
    assert Committing(b, partitions) == Committing(b, Tracked(b)) * partitions;
  }

  /** What a drain leaves behind, and what it takes away. */
  lemma {:induction false} DrainAt(b: Book, partitions: set<TopicPartition>, tp: TopicPartition)
    ensures var taken := if tp in Commits(b, partitions) then Ready(b, tp) else {};
            && At(Drain(b, partitions).dispatched, tp) == At(b.dispatched, tp) - taken
            && At(Drain(b, partitions).completed, tp) == At(b.completed, tp) - taken
  {
  }

  class OffsetTracker {
    var dispatched: Offsets
    var completed: Offsets

    ghost function Value(): Book
      reads this
    {
      Book(dispatched, completed)
    }

    constructor ()
      ensures Value() == EMPTY_BOOK
    {
      dispatched, completed := map[], map[];
    }

    method Dispatched(tp: TopicPartition, offset: int)
      modifies this
      ensures Value() == Dispatch(old(Value()), tp, offset)
    {
      dispatched := dispatched[tp := At(dispatched, tp) + {offset}];
    }

    method Completed(tp: TopicPartition, offset: int)
      modifies this
      ensures Value() == Complete(old(Value()), tp, offset)
    {
      completed := completed[tp := At(completed, tp) + {offset}];
    }

    method Abandoned(tp: TopicPartition, offset: int)
      modifies this
      ensures Value() == Abandon(old(Value()), tp, offset)
    {
      dispatched := dispatched[tp := At(dispatched, tp) - {offset}];
      completed := completed[tp := At(completed, tp) - {offset}];
    }

    method ForgetPartitions(partitions: set<TopicPartition>)
      modifies this
      ensures Value() == Forget(old(Value()), partitions)
    {
      var todo := partitions;
      while todo != {}
        invariant todo <= partitions
        invariant dispatched == old(dispatched) - (partitions - todo)
        invariant completed == old(completed) - (partitions - todo)
        decreases todo
      {
        var tp :| tp in todo;
        dispatched, completed := dispatched - {tp}, completed - {tp};
        todo := todo - {tp};
      }
    }

    method TrackedPartitions() returns (tracked: set<TopicPartition>)
      ensures tracked == Tracked(Value())
    {
      tracked := dispatched.Keys + completed.Keys;
    }

    /** Takes what is ready of one partition and adds its position to the commits. */
    method TakeReady(tp: TopicPartition, commits: map<TopicPartition, int>)
      returns (more: map<TopicPartition, int>)
      requires tp in completed
      modifies this
      ensures more == Taken(commits, old(Ready(Value(), tp)), tp)
      ensures dispatched == Taking(old(dispatched), old(Ready(Value(), tp)), tp)
      ensures completed == Taking(old(completed), old(Ready(Value(), tp)), tp)
    {
      more := commits;
      var finished := completed[tp];
      if finished != {} {
        var committable := Committable(At(dispatched, tp), finished);
        if committable != {} {
          more := commits[tp := Max(committable) + 1];
          dispatched := dispatched[tp := At(dispatched, tp) - committable];
          completed := completed[tp := finished - committable];
        }
      }
    }

    /** Takes the safe floor of every tracked partition and retires it. */
    method TakeCommittable() returns (commits: map<TopicPartition, int>)
      modifies this
      ensures commits == Commits(old(Value()), old(Tracked(Value())))
      ensures Value() == Drain(old(Value()), old(Tracked(Value())))
    {
      ghost var before, done := Value(), {};
      commits := map[];
      DrainNothing(before);
      var todo := completed.Keys;
      while todo != {}
        invariant todo <= before.completed.Keys && done == before.completed.Keys - todo
        invariant commits == Commits(before, done)
        invariant dispatched == Drain(before, done).dispatched && completed == Drain(before, done).completed
        decreases todo
      {
        var tp :| tp in todo;
        DrainKeeps(before, done, tp);
        commits := TakeReady(tp, commits);
        DrainOne(before, done, tp);
        OneLess(before.completed.Keys, todo, tp);
        todo, done := todo - {tp}, done + {tp};
      }
      DrainAll(before, done);
    }

    /**
     Takes the safe floor of `partitions` only, as a revocation does: the result is the full drain
     restricted to them, and every other partition keeps its entries.
     */
    method CommittableFor(partitions: set<TopicPartition>) returns (commits: map<TopicPartition, int>)
      modifies this
      ensures commits == map tp | tp in old(Commits(Value(), Tracked(Value()))) && tp in partitions ::
                           old(Commits(Value(), Tracked(Value())))[tp]
      ensures Value() == Drain(old(Value()), partitions)
    {
      ghost var before, seen, done := Value(), {}, {};
      commits := map[];
      DrainNothing(before);
      var todo := completed.Keys;
      while todo != {}
        invariant todo <= before.completed.Keys && seen == before.completed.Keys - todo
        invariant done == seen * partitions
        invariant commits == Commits(before, done)
        invariant dispatched == Drain(before, done).dispatched && completed == Drain(before, done).completed
        decreases todo
      {
        var tp :| tp in todo;
        if tp in partitions {
          DrainKeeps(before, done, tp);
          commits := TakeReady(tp, commits);
          DrainOne(before, done, tp);
        }
        OneLess(before.completed.Keys, todo, tp);
        OneMoreOf(seen, partitions, tp);
        todo, seen, done := todo - {tp}, seen + {tp}, if tp in partitions then done + {tp} else done;
      }
      RestrictedDrain(before, seen, partitions);
    }
  }

  lemma {:induction false} OneLess<T>(all: set<T>, todo: set<T>, x: T)
    requires x in todo && todo <= all
    ensures all - todo + {x} == all - (todo - {x})
  {
  }

  lemma {:induction false} OneMoreOf<T>(done: set<T>, some: set<T>, x: T)
    ensures (done + {x}) * some == if x in some then done * some + {x} else done * some
  {
  }
}
