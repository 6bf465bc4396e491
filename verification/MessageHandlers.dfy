/**
 The message handlers of the consumer (src/utils/kafkaConsumer.py).

 Calls that leave the process (the forward, the terminal write, the dead-letter publish, the pool
 submission, the broker commit) are arguments that say how they ended. Each handler returns the calls
 it made, in order.
 */
module MessageHandlers {
  import opened OffsetTracking

  /** How a message ended. `Held` means its dead-letter publish raised. */
  datatype Fate = Forwarded | Skipped | DlqCompleted | DlqAbandoned | Held

  predicate Completes(fate: Fate) {
    fate.Forwarded? || fate.Skipped? || fate.DlqCompleted?
  }

  /** What a fate does to the tracker. */
  function RecordFate(b: Book, tp: TopicPartition, offset: int, fate: Fate): Book {
    if Completes(fate) then Complete(b, tp, offset)
    else if fate.DlqAbandoned? then Abandon(b, tp, offset)
    else b
  }

  /**
   What a message's fate must leave behind, offset by offset: a held one stays as it was, a finished one is
   among the completed, an abandoned one is in neither set; no other offset and no other partition changes.
   */
  ghost predicate Told(before: Book, after: Book, tp: TopicPartition, offset: int, fate: Fate) {
    && (forall q :: q != tp ==>
          At(after.dispatched, q) == At(before.dispatched, q) && At(after.completed, q) == At(before.completed, q))
    && At(after.dispatched, tp) - {offset} == At(before.dispatched, tp) - {offset}
    && At(after.completed, tp) - {offset} == At(before.completed, tp) - {offset}
    && (offset in At(after.dispatched, tp) <==> fate != DlqAbandoned && offset in At(before.dispatched, tp))
    && (offset in At(after.completed, tp) <==>
          || fate == Forwarded || fate == Skipped || fate == DlqCompleted
          || (fate == Held && offset in At(before.completed, tp)))
  }

  lemma {:induction false} RecordTells(b: Book, tp: TopicPartition, offset: int, fate: Fate)
    ensures Told(b, RecordFate(b, tp, offset, fate), tp, offset, fate)
  {
  }

  lemma {:induction false} SkipOrRecord(
    b: Book, after: Book, tp: TopicPartition, offset: int, submitted: bool, fate: Fate)
    requires after == if submitted then b else RecordFate(b, tp, offset, fate)
    ensures !submitted ==> Told(b, after, tp, offset, fate)
  {
    RecordTells(b, tp, offset, fate);
  }

  /** A message that was dispatched, and not finished before, is still running exactly when its fate is `Held`. */
  lemma {:induction false} OnlyHeldKeepsRunning(
    before: Book, after: Book, tp: TopicPartition, offset: int, fate: Fate)
    requires Told(before, after, tp, offset, fate)
    requires offset in At(before.dispatched, tp) && offset !in At(before.completed, tp)
    ensures offset in Running(after, tp) <==> fate == Held
  {
  }

  /** How the forward to the internal endpoint ended. */
  datatype Forward = Answered | TimedOut | Failed

  /** How far the poll thread got with a message before it was submitted or given up. */
  datatype Intake = Poison(published: bool) | ParseRaised | SkipCheckRaised | Skip | SubmitRaised | Submitted

  datatype Call = SaveTerminal | Publish(returned: bool) | MarkCompleted | MarkAbandoned | Submit | ReleaseSlot

  /** The semaphore that bounds the messages in hand. */
  class Slots {
    var permits: nat

    constructor (n: nat)
      ensures permits == n
    {
      permits := n;
    }

    method Release()
      modifies this
      ensures permits == old(permits) + 1
    {
      permits := permits + 1;
    }
  }

  /** Publish first, retire second: the floor moves only once the publish has returned. */
  method DlqAndAbandon(tracker: OffsetTracker, tp: TopicPartition, next: int, publishReturns: bool)
    returns (fate: Fate, calls: seq<Call>)
    modifies tracker
    ensures fate == if publishReturns then DlqAbandoned else Held
    ensures calls == if publishReturns then [Publish(true), MarkAbandoned] else [Publish(false)]
    ensures tracker.Value() == RecordFate(old(tracker.Value()), tp, next - 1, fate)
  {
    calls := [Publish(publishReturns)];
    if publishReturns {
      tracker.Abandoned(tp, next - 1);
      calls := calls + [MarkAbandoned];
      fate := DlqAbandoned;
    } else {
      fate := Held;
    }
  }

  /**
   A worker's handling of one message. `next` is the position to commit once it is done, one past its
   offset. Exactly one slot is released on every path, and the tracker hears of the message only after
   its forward was answered or its publish returned.
   */
  method ProcessAndCommit(tracker: OffsetTracker, slots: Slots, tp: TopicPartition, next: int,
                          hasIdentity: bool, forward: Forward, publishReturns: bool)
    returns (fate: Fate, calls: seq<Call>)
    modifies tracker, slots
    ensures tracker.Value() == RecordFate(old(tracker.Value()), tp, next - 1, fate)
    ensures Told(old(tracker.Value()), tracker.Value(), tp, next - 1, fate)
    ensures slots.permits == old(slots.permits) + 1
    ensures forward == Answered ==> fate == Forwarded && calls == [MarkCompleted, ReleaseSlot]
    ensures forward != Answered && !publishReturns ==> fate == Held
    ensures forward == TimedOut ==>
              calls == (if hasIdentity then [SaveTerminal] else []) + [Publish(publishReturns)] +
                       (if publishReturns then [MarkCompleted] else []) + [ReleaseSlot]
    ensures forward == TimedOut && publishReturns ==> fate == DlqCompleted
    ensures forward == Failed ==>
              calls == [Publish(publishReturns)] + (if publishReturns then [MarkAbandoned] else []) + [ReleaseSlot]
    ensures forward == Failed && publishReturns ==> fate == DlqAbandoned
  {
    var success := false;
    calls := [];
    fate := Held;
    match forward {
      case Answered =>
        success, fate := true, Forwarded;
      case TimedOut =>
        if hasIdentity {
          calls := calls + [SaveTerminal];
        }
        calls := calls + [Publish(publishReturns)];
        if publishReturns {
          success, fate := true, DlqCompleted;
        }
      case Failed =>
        fate, calls := DlqAndAbandon(tracker, tp, next, publishReturns);
    }
    if success {
      tracker.Completed(tp, next - 1);
      calls := calls + [MarkCompleted];
    }
    slots.Release();
    calls := calls + [ReleaseSlot];
    RecordTells(old(tracker.Value()), tp, next - 1, fate);
  }

  /**
   The poll thread's handling of one message; the caller holds a slot for it. The slot is released
   here unless the message was submitted, in which case the worker releases it. A message that was
   neither submitted nor settled stays dispatched and unfinished.
   */
  method HandleOneMessage(tracker: OffsetTracker, slots: Slots, tp: TopicPartition, offset: int,
                          intake: Intake, publishReturns: bool)
    returns (submitted: bool, fate: Fate, calls: seq<Call>)
    modifies tracker, slots
    ensures submitted <==> intake == Submitted
    ensures slots.permits == old(slots.permits) + if submitted then 0 else 1
    ensures tracker.Value() ==
              var b := Dispatch(old(tracker.Value()), tp, offset);
              if submitted then b else RecordFate(b, tp, offset, fate)
    ensures offset in At(Dispatch(old(tracker.Value()), tp, offset).dispatched, tp)
    ensures !submitted ==> Told(Dispatch(old(tracker.Value()), tp, offset), tracker.Value(), tp, offset, fate)
    ensures calls == (match intake
                      case Submitted => [Submit]
                      case Skip => [MarkCompleted, ReleaseSlot]
                      case Poison(true) => [Publish(true), MarkCompleted, ReleaseSlot]
                      case _ =>
                        (if intake.Poison? then [Publish(false)] else []) + [Publish(publishReturns)] +
                        (if publishReturns then [MarkAbandoned] else []) + [ReleaseSlot])
    ensures !submitted ==> fate == (match intake
                                    case Skip => Skipped
                                    case Poison(true) => DlqCompleted
                                    case _ => if publishReturns then DlqAbandoned else Held)
  {
    submitted, fate, calls := false, Held, [];
    var raised := false;
    tracker.Dispatched(tp, offset);
    match intake {
      case Poison(published) =>
        calls := calls + [Publish(published)];
        if published {
          tracker.Completed(tp, offset);
          fate, calls := DlqCompleted, calls + [MarkCompleted];
        } else {
          raised := true;
        }
      case Skip =>
        tracker.Completed(tp, offset);
        fate, calls := Skipped, calls + [MarkCompleted];
      case Submitted =>
        submitted, calls := true, calls + [Submit];
      case ParseRaised => raised := true;
      case SkipCheckRaised => raised := true;
      case SubmitRaised => raised := true;
    }
    if raised {
      var more;
      fate, more := DlqAndAbandon(tracker, tp, offset + 1, publishReturns);
      calls := calls + more;
    }
    if !submitted {
      slots.Release();
      calls := calls + [ReleaseSlot];
    }
    SkipOrRecord(Dispatch(old(tracker.Value()), tp, offset), tracker.Value(), tp, offset, submitted, fate);
  }

  /**
   Revocation: what is safe is handed to the broker (whether or not that commit succeeds), then every
   trace of the revoked partitions is dropped.
   */
  method OnPartitionsRevoked(tracker: OffsetTracker, revoked: set<TopicPartition>)
    returns (sent: map<TopicPartition, int>)
    modifies tracker
    ensures sent == Commits(old(tracker.Value()), revoked)
    ensures tracker.Value() == Forget(old(tracker.Value()), revoked)
  {
    ghost var before := tracker.Value();
    sent := map[];
    if revoked == {} {
      ForgetNothing(before);
      return;
    }
    sent := tracker.CommittableFor(revoked);
    RestrictedCommits(before, revoked);
    tracker.ForgetPartitions(revoked);
    ForgetAfterDrain(before, revoked);
  }

  /** Assignment: a partition coming back inherits nothing from an earlier ownership period. */
  method OnPartitionsAssigned(tracker: OffsetTracker, gained: set<TopicPartition>)
    modifies tracker
    ensures tracker.Value() == Forget(old(tracker.Value()), gained)
  {
    ghost var before := tracker.Value();
    var tracked := tracker.TrackedPartitions();
    var stale := tracked * gained;
    ForgetTracked(before, gained);
    if stale != {} {
      tracker.ForgetPartitions(stale);
    } else {
      ForgetNothing(before);
    }
  }

  lemma {:induction false} ForgetNothing(b: Book)
    ensures Forget(b, {}) == b
    ensures Commits(b, {}) == map[]
  {
    assert b.dispatched - {} == b.dispatched;
    assert b.completed - {} == b.completed;
  }

  lemma {:induction false} ForgetTracked(b: Book, partitions: set<TopicPartition>)
    ensures Forget(b, Tracked(b) * partitions) == Forget(b, partitions)
  {
    assert b.dispatched - Tracked(b) * partitions == b.dispatched - partitions;
    assert b.completed - Tracked(b) * partitions == b.completed - partitions;
  }

  lemma {:induction false} ForgetAfterDrain(b: Book, partitions: set<TopicPartition>)
    ensures Forget(Drain(b, partitions), partitions) == Forget(b, partitions)
  {
    assert Drain(b, partitions).dispatched - partitions == b.dispatched - partitions;
    assert Drain(b, partitions).completed - partitions == b.completed - partitions;
  }
}
