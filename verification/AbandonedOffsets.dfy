/**
 Abandonment over whole histories of one tracker (src/utils/kafkaConsumer.py): whatever other offsets were
 dispatched, completed, abandoned and drained meanwhile, an abandoned offset leaves no trace.
 */
module AbandonedOffsets {
  import opened Options
  import opened Extrema
  import opened OffsetTracking

  datatype Update =
    | Dispatching(tp: TopicPartition, offset: int)
    | Completing(tp: TopicPartition, offset: int)
    | Abandoning(tp: TopicPartition, offset: int)
    | Draining(partitions: set<TopicPartition>)

  function After(b: Book, u: Update): Book {
    match u
    case Dispatching(tp, offset) => Dispatch(b, tp, offset)
    case Completing(tp, offset) => Complete(b, tp, offset)
    case Abandoning(tp, offset) => Abandon(b, tp, offset)
    case Draining(partitions) => Drain(b, partitions)
  }

  function AfterAll(b: Book, updates: seq<Update>): Book {
    if updates == [] then b else After(AfterAll(b, updates[..|updates| - 1]), updates[|updates| - 1])
  }

  /** Two books that track the same offsets, whatever empty entries they keep. */
  ghost predicate SameOffsets(a: Book, b: Book) {
    forall tp :: SameAt(a, b, tp)
  }

  predicate SameAt(a: Book, b: Book, tp: TopicPartition) {
    At(a.dispatched, tp) == At(b.dispatched, tp) && At(a.completed, tp) == At(b.completed, tp)
  }

  lemma {:induction false} SameOffsetsCommitAlike(a: Book, b: Book)
    requires SameOffsets(a, b)
    ensures Commits(a, Tracked(a)) == Commits(b, Tracked(b))
  {
    forall tp ensures Ready(a, tp) == Ready(b, tp) {
      assert SameAt(a, b, tp);
    }
    assert forall tp :: tp in Committing(a, Tracked(a)) <==> Ready(a, tp) != {};
    assert forall tp :: tp in Committing(b, Tracked(b)) <==> Ready(b, tp) != {};
    assert Committing(a, Tracked(a)) == Committing(b, Tracked(b));
  }

  // ------------------------------------------------------------------
  // Between two drains
  // ------------------------------------------------------------------

  /** The updates are calls about single offsets, none of them the given one. */
  predicate Spares(updates: seq<Update>, tp: TopicPartition, offset: int) {
    forall k :: 0 <= k < |updates| ==>
                  !updates[k].Draining? && (updates[k].tp, updates[k].offset) != (tp, offset)
  }

  /** The offsets of `q` an update adds to the dispatched, to the completed ones, and takes from both. */
  function Started(u: Update, q: TopicPartition): set<int> {
    if u.Dispatching? && u.tp == q then {u.offset} else {}
  }

  function Finished(u: Update, q: TopicPartition): set<int> {
    if u.Completing? && u.tp == q then {u.offset} else {}
  }

  function Dropped(u: Update, q: TopicPartition): set<int> {
    if u.Abandoning? && u.tp == q then {u.offset} else {}
  }

  lemma {:induction false} AfterAt(b: Book, u: Update, q: TopicPartition)
    requires !u.Draining?
    ensures At(After(b, u).dispatched, q) == At(b.dispatched, q) + Started(u, q) - Dropped(u, q)
    ensures At(After(b, u).completed, q) == At(b.completed, q) + Finished(u, q) - Dropped(u, q)
  {
  }

  lemma {:induction false} AbandonAt(b: Book, tp: TopicPartition, offset: int, q: TopicPartition)
    ensures var gone := if q == tp then {offset} else {};
            && At(Abandon(b, tp, offset).dispatched, q) == At(b.dispatched, q) - gone
            && At(Abandon(b, tp, offset).completed, q) == At(b.completed, q) - gone
  {
  }

  lemma {:induction false} Reorder(s: set<int>, added: set<int>, dropped: set<int>, gone: set<int>)
    requires added !! gone
    ensures s + added - dropped - gone == s - gone + added - dropped
  {
  }

  lemma {:induction false} AbandonCommutes(b: Book, c: Book, tp: TopicPartition, offset: int, u: Update)
    requires SameOffsets(Abandon(b, tp, offset), c) && !u.Draining? && (u.tp, u.offset) != (tp, offset)
    ensures SameOffsets(Abandon(After(b, u), tp, offset), After(c, u))
  {
    forall q ensures SameAt(Abandon(After(b, u), tp, offset), After(c, u), q) {
      assert SameAt(Abandon(b, tp, offset), c, q);
      AbandonCommutesAt(b, c, tp, offset, u, q);
    }
  }

  lemma {:induction false} AbandonCommutesAt(
    b: Book, c: Book, tp: TopicPartition, offset: int, u: Update, q: TopicPartition)
    requires SameAt(Abandon(b, tp, offset), c, q) && !u.Draining? && (u.tp, u.offset) != (tp, offset)
    ensures SameAt(Abandon(After(b, u), tp, offset), After(c, u), q)
  {
    var gone := if q == tp then {offset} else {};
    AfterAt(b, u, q);
    AfterAt(c, u, q);
    AbandonAt(b, tp, offset, q);
    AbandonAt(After(b, u), tp, offset, q);
    Reorder(At(b.dispatched, q), Started(u, q), Dropped(u, q), gone);
    Reorder(At(b.completed, q), Finished(u, q), Dropped(u, q), gone);
  }

  /**
   Abandoning an offset gives the book there would be had it never been dispatched, and so the same
   committable offsets, whatever was dispatched, completed and abandoned in between.
   */
  lemma {:induction false} AbandonUndoesDispatch(b: Book, tp: TopicPartition, offset: int, updates: seq<Update>)
    requires offset !in At(b.dispatched, tp) && offset !in At(b.completed, tp) && Spares(updates, tp, offset)
    ensures var abandoned := Abandon(AfterAll(Dispatch(b, tp, offset), updates), tp, offset);
            && SameOffsets(abandoned, AfterAll(b, updates))
            && Commits(abandoned, Tracked(abandoned)) == Commits(AfterAll(b, updates), Tracked(AfterAll(b, updates)))
  {
    AbandonRestores(b, tp, offset, updates);
    SameOffsetsCommitAlike(Abandon(AfterAll(Dispatch(b, tp, offset), updates), tp, offset), AfterAll(b, updates));
  }

  lemma {:induction false} AbandonRestores(b: Book, tp: TopicPartition, offset: int, updates: seq<Update>)
    requires offset !in At(b.dispatched, tp) && offset !in At(b.completed, tp) && Spares(updates, tp, offset)
    ensures SameOffsets(Abandon(AfterAll(Dispatch(b, tp, offset), updates), tp, offset), AfterAll(b, updates))
    decreases |updates|
  {
    var d := Dispatch(b, tp, offset);
    if updates == [] {
      assert At(d.dispatched, tp) - {offset} == At(b.dispatched, tp);
      assert At(b.completed, tp) - {offset} == At(b.completed, tp);
      forall q ensures SameAt(Abandon(d, tp, offset), b, q) {
      }
    } else {
      var n := |updates| - 1;
      AbandonRestores(b, tp, offset, updates[..n]);
      AbandonCommutes(AfterAll(d, updates[..n]), AfterAll(b, updates[..n]), tp, offset, updates[n]);
    }
  }

  // ------------------------------------------------------------------
  // Across drains
  // ------------------------------------------------------------------

  /** Everything the drains have retired of one partition. */
  function Retired(b: Book, updates: seq<Update>, tp: TopicPartition): set<int> {
    if updates == [] then {}
    else
      var n := |updates| - 1;
      Retired(b, updates[..n], tp) + RetiredBy(AfterAll(b, updates[..n]), updates[n], tp)
  }

  function RetiredBy(b: Book, u: Update, tp: TopicPartition): set<int> {
    if u.Draining? && tp in u.partitions then Ready(b, tp) else {}
  }

  function Later(a: Option<int>, b: Option<int>): Option<int> {
    if a.None? || (b.Some? && b.value > a.value) then b else a
  }

  /** The position one update hands to the broker for a partition, if any. */
  function Position(b: Book, u: Update, tp: TopicPartition): Option<int> {
    if u.Draining? && tp in Commits(b, u.partitions) then Some(Commits(b, u.partitions)[tp]) else None
  }

  /** The greatest position the drains have handed to the broker for a partition, if any. */
  function HandedOver(b: Book, updates: seq<Update>, tp: TopicPartition): Option<int> {
    if updates == [] then None
    else
      var n := |updates| - 1;
      Later(HandedOver(b, updates[..n], tp), Position(AfterAll(b, updates[..n]), updates[n], tp))
  }

  function Past(s: set<int>): Option<int> {
    if s == {} then None else Some(Max(s) + 1)
  }

  /** It is one past the greatest offset retired. */
  lemma {:induction false} HandedOverIsRetired(b: Book, updates: seq<Update>, tp: TopicPartition)
    ensures HandedOver(b, updates, tp) == Past(Retired(b, updates, tp))
    decreases |updates|
  {
    if updates != [] {
      var n := |updates| - 1;
      HandedOverIsRetired(b, updates[..n], tp);
      var book, earlier := AfterAll(b, updates[..n]), Retired(b, updates[..n], tp);
      OnePosition(book, updates[n], tp);
      LaterIsPast(earlier, RetiredBy(book, updates[n], tp));
    }
  }

  lemma {:induction false} OnePosition(b: Book, u: Update, tp: TopicPartition)
    ensures Position(b, u, tp) == Past(RetiredBy(b, u, tp))
  {
    if u.Draining? && tp in u.partitions && Ready(b, tp) != {} {
      var o := AnyElement(Ready(b, tp));
      assert tp in Committing(b, u.partitions);
    }
  }

  lemma {:induction false} LaterIsPast(a: set<int>, b: set<int>)
    ensures Later(Past(a), Past(b)) == Past(a + b)
  {
    if a + b != {} {
      var m := Max(a + b);
      assert a != {} ==> Max(a) in a + b;
      assert b != {} ==> Max(b) in a + b;
    }
  }

  // ------------------------------------------------------------------
  // Abandoning across drains
  // ------------------------------------------------------------------

  /** One past the greatest offset dispatched. */
  function High(updates: seq<Update>, tp: TopicPartition, high: int): int {
    if updates == [] then high
    else
      var last := updates[|updates| - 1];
      if last.Dispatching? && last.tp == tp then last.offset + 1 else High(updates[..|updates| - 1], tp, high)
  }

  /** Offsets of `tp` are dispatched in increasing order from `high` on, and those that end were running. */
  predicate Orderly(b: Book, updates: seq<Update>, tp: TopicPartition, high: int) {
    updates == [] ||
    var n := |updates| - 1;
    var u := updates[n];
    && Orderly(b, updates[..n], tp, high)
    && (u.Dispatching? && u.tp == tp ==> High(updates[..n], tp, high) <= u.offset)
    && (u.Completing? || u.Abandoning? ==> u.offset in Running(AfterAll(b, updates[..n]), u.tp))
  }

  /**
   One partition of two books, dispatched and completed offsets each. The first book has the running `offset`
   and lags behind the second, which does not: it still holds the finished offsets `lag` that the second has
   retired, all of them below whatever runs there.
   */
  ghost predicate Lags(
    dispatched: set<int>, completed: set<int>, dispatched': set<int>, completed': set<int>,
    offset: int, high: int, lag: set<int>)
  {
    && dispatched == dispatched' + lag + {offset}
    && completed == completed' + lag && completed' <= dispatched'
    && (forall r, x :: r in lag && x in dispatched' - completed' ==> r < x)
    && offset !in lag && offset !in dispatched'
    && offset < high && forall x :: x in dispatched' + lag ==> x < high
  }

  lemma {:induction false} LagsReady(
    d: set<int>, c: set<int>, d': set<int>, c': set<int>, offset: int, high: int, lag: set<int>)
    requires Lags(d, c, d', c', offset, high, lag)
    ensures d - c == (d' - c') + {offset}
    ensures Committable(d, c) == set x | x in Committable(d', c') + lag && x < offset
  {
    forall x | x in d' - c' ensures x !in lag {
    }
    assert d - c == (d' - c') + {offset};
  }

  /** Calls about single offsets leave the lag as it is. */
  lemma {:induction false} LagsUpdate(
    d: set<int>, c: set<int>, d': set<int>, c': set<int>, offset: int, high: int, lag: set<int>,
    started: set<int>, finished: set<int>, dropped: set<int>, higher: int)
    requires Lags(d, c, d', c', offset, high, lag)
    requires finished <= d' - c' && dropped <= d' - c' && high <= higher
    requires forall x :: x in started ==> high <= x < higher
    requires finished == {} || dropped == {}
    ensures Lags(d + started - dropped, c + finished - dropped, d' + started - dropped, c' + finished - dropped,
                 offset, higher, lag)
  {
    forall x | x in d' - c' ensures x !in lag {
    }
    assert dropped !! lag && offset !in dropped;
    assert (d' + started - dropped) - (c' + finished - dropped) <= (d' - c') + started;
  }

  /** A drain takes from the first what lies below the offset; the rest of what the second retires joins the lag. */
  lemma {:induction false} LagsDrain(
    d: set<int>, c: set<int>, d': set<int>, c': set<int>, offset: int, high: int, lag: set<int>)
    requires Lags(d, c, d', c', offset, high, lag)
    ensures var ready, ready' := Committable(d, c), Committable(d', c');
            Lags(d - ready, c - ready, d' - ready', c' - ready', offset, high, ready' + lag - ready)
  {
    var ready, ready' := Committable(d, c), Committable(d', c');
    LagsReady(d, c, d', c', offset, high, lag);
    assert (d' - ready') - (c' - ready') == d' - c';
    forall x | x in lag && x in d' ensures x in ready' {
      assert x !in d' - c';
    }
  }

  /** Without the offset, a drain of the first catches up with the second. */
  lemma {:induction false} LagsEnd(
    d: set<int>, c: set<int>, d': set<int>, c': set<int>, offset: int, high: int, lag: set<int>)
    requires Lags(d, c, d', c', offset, high, lag)
    ensures var ready, ready' := Committable(d - {offset}, c - {offset}), Committable(d', c');
            ready == ready' + lag && d - {offset} - ready == d' - ready' && c - {offset} - ready == c' - ready'
  {
    forall x | x in d' - c' ensures x !in lag {
    }
    assert (d - {offset}) - (c - {offset}) == d' - c';
    var ready, ready' := Committable(d - {offset}, c - {offset}), Committable(d', c');
    assert ready == ready' + lag;
    forall x | x in lag && x in d' ensures x in ready' {
      assert x !in d' - c';
    }
  }

  ghost predicate Behind(a: Book, b: Book, tp: TopicPartition, offset: int, high: int, lag: set<int>) {
    && Lags(At(a.dispatched, tp), At(a.completed, tp), At(b.dispatched, tp), At(b.completed, tp), offset, high, lag)
    && forall q :: q != tp ==> SameAt(a, b, q)
  }

  lemma {:induction false} SameAtAfter(a: Book, b: Book, u: Update, q: TopicPartition)
    requires SameAt(a, b, q)
    ensures SameAt(After(a, u), After(b, u), q) && RetiredBy(a, u, q) == RetiredBy(b, u, q)
  {
    if u.Draining? {
      DrainedAt(a, u.partitions, q);
      DrainedAt(b, u.partitions, q);
    } else {
      AfterAt(a, u, q);
      AfterAt(b, u, q);
    }
  }

  lemma {:induction false} DrainedAt(b: Book, partitions: set<TopicPartition>, q: TopicPartition)
    ensures var taken := if q in partitions then Ready(b, q) else {};
            && At(Drain(b, partitions).dispatched, q) == At(b.dispatched, q) - taken
            && At(Drain(b, partitions).completed, q) == At(b.completed, q) - taken
  {
    DrainAt(b, partitions, q);
    if Ready(b, q) != {} {
      var o := AnyElement(Ready(b, q));
    }
  }

  lemma {:induction false} BehindCall(
    a: Book, b: Book, tp: TopicPartition, offset: int, high: int, lag: set<int>, u: Update)
    requires Behind(a, b, tp, offset, high, lag) && !u.Draining?
    requires u.Dispatching? && u.tp == tp ==> high <= u.offset
    requires u.Completing? || u.Abandoning? ==> u.offset in Running(b, u.tp)
    ensures Behind(After(a, u), After(b, u), tp, offset,
                   if u.Dispatching? && u.tp == tp then u.offset + 1 else high, lag)
  {
    AfterAt(a, u, tp);
    AfterAt(b, u, tp);
    LagsUpdate(At(a.dispatched, tp), At(a.completed, tp), At(b.dispatched, tp), At(b.completed, tp), offset, high, lag,
               Started(u, tp), Finished(u, tp), Dropped(u, tp),
               if u.Dispatching? && u.tp == tp then u.offset + 1 else high);
    forall q | q != tp ensures SameAt(After(a, u), After(b, u), q) {
      SameAtAfter(a, b, u, q);
    }
  }

  /** What both drains take from the partition. */
  lemma {:induction false} LagsTaken(
    d: set<int>, c: set<int>, d': set<int>, c': set<int>, offset: int, high: int, lag: set<int>)
    returns (more: set<int>)
    requires Lags(d, c, d', c', offset, high, lag)
    ensures var ready, ready' := Committable(d, c), Committable(d', c');
            && Lags(d - ready, c - ready, d' - ready', c' - ready', offset, high, more)
            && ready + more == lag + ready'
  {
    LagsReady(d, c, d', c', offset, high, lag);
    LagsDrain(d, c, d', c', offset, high, lag);
    more := Committable(d', c') + lag - Committable(d, c);
    assert Committable(d, c) <= lag + Committable(d', c');
  }

  lemma {:induction false} BehindDrain(
    a: Book, b: Book, tp: TopicPartition, offset: int, high: int, lag: set<int>, partitions: set<TopicPartition>)
    returns (more: set<int>)
    requires Behind(a, b, tp, offset, high, lag)
    ensures Behind(Drain(a, partitions), Drain(b, partitions), tp, offset, high, more)
    ensures RetiredBy(a, Draining(partitions), tp) + more == lag + RetiredBy(b, Draining(partitions), tp)
  {
    if tp in partitions {
      DrainedAt(a, partitions, tp);
      DrainedAt(b, partitions, tp);
      more := LagsTaken(At(a.dispatched, tp), At(a.completed, tp), At(b.dispatched, tp), At(b.completed, tp),
                        offset, high, lag);
    } else {
      more := lag;
      NotDrained(a, partitions, tp);
      NotDrained(b, partitions, tp);
    }
    forall q | q != tp ensures SameAt(Drain(a, partitions), Drain(b, partitions), q) {
      SameAtAfter(a, b, Draining(partitions), q);
    }
  }

  lemma {:induction false} NotDrained(b: Book, partitions: set<TopicPartition>, q: TopicPartition)
    requires q !in partitions
    ensures SameAt(Drain(b, partitions), b, q)
  {
    DrainAt(b, partitions, q);
  }

  lemma {:induction false} BehindUpdate(
    a: Book, b: Book, tp: TopicPartition, offset: int, high: int, lag: set<int>, u: Update)
    returns (more: set<int>)
    requires Behind(a, b, tp, offset, high, lag)
    requires u.Dispatching? && u.tp == tp ==> high <= u.offset
    requires u.Completing? || u.Abandoning? ==> u.offset in Running(b, u.tp)
    ensures Behind(After(a, u), After(b, u), tp, offset,
                   if u.Dispatching? && u.tp == tp then u.offset + 1 else high, more)
    ensures RetiredBy(a, u, tp) + more == lag + RetiredBy(b, u, tp)
  {
    if u.Draining? {
      more := BehindDrain(a, b, tp, offset, high, lag, u.partitions);
    } else {
      BehindCall(a, b, tp, offset, high, lag, u);
      more := lag;
    }
  }

  lemma {:induction false} RetiredMore(retired: set<int>, one: set<int>, more: set<int>, lag: set<int>, other: set<int>)
    requires one + more == lag + other
    ensures (retired + one) + more == (retired + lag) + other
  {
    assert (retired + one) + more == retired + (one + more) == retired + (lag + other);
  }

  /** The offset is new to the partition, all of whose offsets lie below `high`; what is finished was dispatched. */
  predicate NeverSeen(b: Book, tp: TopicPartition, offset: int, high: int) {
    && offset < high && offset !in At(b.dispatched, tp)
    && At(b.completed, tp) <= At(b.dispatched, tp)
    && forall x :: x in At(b.dispatched, tp) ==> x < high
  }

  /** Along any orderly history the book with the offset lags behind the book without it. */
  lemma {:induction false} BehindAll(b: Book, updates: seq<Update>, tp: TopicPartition, offset: int, high: int)
    returns (lag: set<int>)
    requires NeverSeen(b, tp, offset, high) && Orderly(b, updates, tp, high)
    ensures Behind(AfterAll(Dispatch(b, tp, offset), updates), AfterAll(b, updates), tp, offset,
                   High(updates, tp, high), lag)
    ensures Retired(Dispatch(b, tp, offset), updates, tp) + lag == Retired(b, updates, tp)
    decreases |updates|
  {
    var d := Dispatch(b, tp, offset);
    if updates == [] {
      lag := {};
    } else {
      var n := |updates| - 1;
      var earlier := BehindAll(b, updates[..n], tp, offset, high);
      var one, other := AfterAll(d, updates[..n]), AfterAll(b, updates[..n]);
      lag := BehindUpdate(one, other, tp, offset, High(updates[..n], tp, high), earlier, updates[n]);
      RetiredMore(Retired(d, updates[..n], tp), RetiredBy(one, updates[n], tp), lag, earlier,
                  RetiredBy(other, updates[n], tp));
    }
  }

  /** Other partitions do not notice the offset at all. */
  lemma {:induction false} OthersRetireAlike(
    b: Book, updates: seq<Update>, tp: TopicPartition, offset: int, q: TopicPartition)
    requires q != tp
    ensures SameAt(AfterAll(Dispatch(b, tp, offset), updates), AfterAll(b, updates), q)
    ensures Retired(Dispatch(b, tp, offset), updates, q) == Retired(b, updates, q)
    decreases |updates|
  {
    if updates != [] {
      var n := |updates| - 1;
      OthersRetireAlike(b, updates[..n], tp, offset, q);
      SameAtAfter(AfterAll(Dispatch(b, tp, offset), updates[..n]), AfterAll(b, updates[..n]), updates[n], q);
    }
  }

  /** Once the offset is abandoned, a drain hands over and retires all the lag. */
  lemma {:induction false} NextDrainCatchesUp(
    a: Book, b: Book, tp: TopicPartition, offset: int, high: int, lag: set<int>, partitions: set<TopicPartition>)
    requires Behind(a, b, tp, offset, high, lag) && tp in partitions
    ensures Ready(Abandon(a, tp, offset), tp) == Ready(b, tp) + lag
    ensures forall q :: q != tp ==> Ready(Abandon(a, tp, offset), q) == Ready(b, q)
    ensures SameOffsets(Drain(Abandon(a, tp, offset), partitions), Drain(b, partitions))
  {
    var c := Abandon(a, tp, offset);
    CaughtUp(a, b, tp, offset, high, lag, partitions);
    forall q | q != tp ensures SameAt(c, b, q) && Ready(c, q) == Ready(b, q) {
      assert SameAt(a, b, q);
      AbandonAt(a, tp, offset, q);
    }
    forall q ensures SameAt(Drain(c, partitions), Drain(b, partitions), q) {
      if q != tp {
        SameAtAfter(c, b, Draining(partitions), q);
      }
    }
  }

  lemma {:induction false} CaughtUp(
    a: Book, b: Book, tp: TopicPartition, offset: int, high: int, lag: set<int>, partitions: set<TopicPartition>)
    requires Behind(a, b, tp, offset, high, lag) && tp in partitions
    ensures Ready(Abandon(a, tp, offset), tp) == Ready(b, tp) + lag
    ensures SameAt(Drain(Abandon(a, tp, offset), partitions), Drain(b, partitions), tp)
  {
    AbandonAt(a, tp, offset, tp);
    LagsEnd(At(a.dispatched, tp), At(a.completed, tp), At(b.dispatched, tp), At(b.completed, tp), offset, high, lag);
    DrainedAt(Abandon(a, tp, offset), partitions, tp);
    DrainedAt(b, partitions, tp);
  }

  lemma {:induction false} LastUpdate(b: Book, updates: seq<Update>, u: Update, tp: TopicPartition)
    ensures AfterAll(b, updates + [u]) == After(AfterAll(b, updates), u)
    ensures Retired(b, updates + [u], tp) == Retired(b, updates, tp) + RetiredBy(AfterAll(b, updates), u, tp)
  {
    assert (updates + [u])[..|updates|] == updates;
  }

  /**
   An abandoned offset leaves no trace, drains in between or not: over any orderly history, once it is abandoned
   and its partition drained, the greatest position handed to the broker and the offsets tracked are, for every
   partition, those of the history in which it was never dispatched.
   */
  lemma {:induction false} AbandonedOffsetLeavesNoTrace(
    b: Book, updates: seq<Update>, tp: TopicPartition, offset: int, high: int,
    partitions: set<TopicPartition>, q: TopicPartition)
    requires NeverSeen(b, tp, offset, high) && Orderly(b, updates, tp, high) && tp in partitions
    ensures var with := updates + [Abandoning(tp, offset)] + [Draining(partitions)];
            var without := updates + [Draining(partitions)];
            && HandedOver(Dispatch(b, tp, offset), with, q) == HandedOver(b, without, q)
            && SameOffsets(AfterAll(Dispatch(b, tp, offset), with), AfterAll(b, without))
  {
    var with, without := updates + [Abandoning(tp, offset)] + [Draining(partitions)], updates + [Draining(partitions)];
    BothEndAlike(b, updates, tp, offset, high, partitions, q);
    HandedOverIsRetired(Dispatch(b, tp, offset), with, q);
    HandedOverIsRetired(b, without, q);
  }

  lemma {:induction false} BothEndAlike(
    b: Book, updates: seq<Update>, tp: TopicPartition, offset: int, high: int,
    partitions: set<TopicPartition>, q: TopicPartition)
    requires NeverSeen(b, tp, offset, high) && Orderly(b, updates, tp, high) && tp in partitions
    ensures var with := updates + [Abandoning(tp, offset)] + [Draining(partitions)];
            var without := updates + [Draining(partitions)];
            && Retired(Dispatch(b, tp, offset), with, q) == Retired(b, without, q)
            && SameOffsets(AfterAll(Dispatch(b, tp, offset), with), AfterAll(b, without))
  {
    var d, drain := Dispatch(b, tp, offset), Draining(partitions);
    LastUpdate(d, updates, Abandoning(tp, offset), q);
    LastUpdate(d, updates + [Abandoning(tp, offset)], drain, q);
    LastUpdate(b, updates, drain, q);
    LastDrain(b, updates, tp, offset, high, partitions, q);
  }

  /** The drain after the abandonment makes up for everything retired later than without the offset. */
  lemma {:induction false} LastDrain(
    b: Book, updates: seq<Update>, tp: TopicPartition, offset: int, high: int,
    partitions: set<TopicPartition>, q: TopicPartition)
    requires NeverSeen(b, tp, offset, high) && Orderly(b, updates, tp, high) && tp in partitions
    ensures var d, drain := Dispatch(b, tp, offset), Draining(partitions);
            var abandoned := Abandon(AfterAll(d, updates), tp, offset);
            && Retired(d, updates, q) + RetiredBy(abandoned, drain, q) ==
               Retired(b, updates, q) + RetiredBy(AfterAll(b, updates), drain, q)
            && SameOffsets(Drain(abandoned, partitions), Drain(AfterAll(b, updates), partitions))
  {
    var lag := BehindAll(b, updates, tp, offset, high);
    var one, other := AfterAll(Dispatch(b, tp, offset), updates), AfterAll(b, updates);
    if q != tp {
      OthersRetireAlike(b, updates, tp, offset, q);
    }
    RetiresTheLag(one, other, Retired(Dispatch(b, tp, offset), updates, q), Retired(b, updates, q), tp, offset,
                  High(updates, tp, high), lag, partitions, q);
    NextDrainCatchesUp(one, other, tp, offset, High(updates, tp, high), lag, partitions);
  }

  lemma {:induction false} RetiresTheLag(
    a: Book, b: Book, before: set<int>, before': set<int>, tp: TopicPartition, offset: int, high: int, lag: set<int>,
    partitions: set<TopicPartition>, q: TopicPartition)
    requires Behind(a, b, tp, offset, high, lag) && tp in partitions
    requires before' == if q == tp then before + lag else before
    ensures before + RetiredBy(Abandon(a, tp, offset), Draining(partitions), q) ==
            before' + RetiredBy(b, Draining(partitions), q)
  {
    NextDrainCatchesUp(a, b, tp, offset, high, lag, partitions);
    if q == tp {
      MoveLast(before, Ready(b, tp), lag);
    }
  }

  lemma {:induction false} MoveLast(a: set<int>, b: set<int>, c: set<int>)
    ensures a + (b + c) == (a + c) + b
  {
  }
}
