/**
Refunds of Midjourney tasks over whole runs (controller/midjourney.go, relay/mjproxy_handler.go):
exactly which traffic from outside allows a task to be refunded twice.
*/
module Refunds {
  import opened Prelude
  import opened Midjourney

  /** What can come in: polling responses, notifications, rows of submitted tasks, and whether one
      polling response may list a task again. */
  datatype Traffic = Traffic(polled: Item -> bool, notified: Item -> bool, submitted: Row -> bool, again: bool)

  ghost predicate Initial(t: Traffic, w: World) {
    w.workers == map[] && w.credits == map[] && forall id :: id in w.rows ==> t.submitted(w.rows[id])
  }

  predicate Repeats(w: World, step: Step) {
    step.Respond? && step.pid in w.workers && step.id in w.workers[step.pid].judged
  }

  predicate Allowed(t: Traffic, w: World, step: Step) {
    match step
    case Submit(_, row) => t.submitted(row)
    case Respond(_, _, item, _) => t.polled(item) && (t.again || !Repeats(w, step))
    case Notify(_, _, item) => t.notified(item)
    case _ => true
  }

  ghost predicate Admits(t: Traffic, w: World, steps: seq<Step>) {
    forall i :: 0 <= i < |steps| ==> Allowed(t, Run(w, steps[..i]), steps[i])
  }

  /** No task is refunded twice in any run. */
  ghost predicate SafeFor(t: Traffic) {
    forall w, steps, id :: Initial(t, w) && Admits(t, w, steps) ==> Credits(Run(w, steps), id) <= 1
  }

  // ----- the condition -----

  /** Leaves a task unfinished. */
  predicate Continues(item: Item) {
    item.progress != COMPLETE && item.failReason == ""
  }

  /** Fails a task that it does not report complete. */
  predicate Rejects(item: Item) {
    item.progress != COMPLETE && item.failReason != ""
  }

  predicate Finishes(item: Item) {
    item.progress == COMPLETE && item.status != FAILURE
  }

  ghost predicate Chargeable(t: Traffic) {
    exists row :: t.submitted(row) && row.quota > 0
  }

  ghost predicate OpenCharged(t: Traffic, row: Row) {
    t.submitted(row) && row.quota > 0 && row.progress != COMPLETE
  }

  ghost predicate OpenWith(t: Traffic, status: string) {
    exists row :: OpenCharged(t, row) && row.status == status
  }

  ghost predicate SomeOpen(t: Traffic) {
    exists row :: OpenCharged(t, row)
  }

  ghost predicate SomePolled(t: Traffic) {
    exists item :: t.polled(item)
  }

  /** An unfinished charged task can have this status. */
  ghost predicate Waiting(t: Traffic, status: string) {
    || OpenWith(t, status)
    || (SomeOpen(t) && exists item :: t.polled(item) && Continues(item) && item.status == status)
    || (Chargeable(t) && exists item :: t.notified(item) && item.progress != COMPLETE && item.status == status)
  }

  /** A poller can leave this status on a task that it refunds, or something can write it later. */
  ghost predicate Ending(t: Traffic, status: string) {
    && SomePolled(t)
    && (|| status == FAILURE
        || (exists item :: t.polled(item) && item.status == status && (Rejects(item) || (t.again && Finishes(item))))
        || (exists item :: t.notified(item) && item.status == status))
  }

  predicate SameColumns(a: Item, b: Item) {
    a.(properties := b.properties, buttons := b.buttons) == b
  }

  predicate LikeTimeout(item: Item) {
    item.progress == COMPLETE && item.status == FAILURE && item.failReason == TIMEOUT_REASON
  }

  /** Every response says what a poller says itself of a task that is overdue. */
  ghost predicate Steady(t: Traffic) {
    && (forall item :: t.polled(item) ==> LikeTimeout(item))
    && (forall a, b :: t.polled(a) && t.polled(b) ==> SameColumns(a, b))
  }

  /** Listing a task again does no harm. */
  ghost predicate Harmless(t: Traffic) {
    (forall item :: t.polled(item) ==> Finishes(item)) || Steady(t)
  }

  /** No notification reports a failure, no status is both one that an unfinished task can have and
      one that an ended task can have, and listing a task again does no harm. */
  ghost predicate Separate(t: Traffic) {
    && (Chargeable(t) ==> forall item :: t.notified(item) ==> !Failed(item))
    && (forall status :: Waiting(t, status) ==> !Ending(t, status))
    && (t.again && SomeOpen(t) ==> Harmless(t))
  }

  // ----- what one worker holds of one task -----

  datatype Stake = Stake(copy: Option<Row>, judged: bool, notice: bool, debt: Option<int>)

  function StakeOf(w: World, pid: Pid, id: Id): Stake {
    if pid !in w.workers then Stake(None, false, false, None)
    else
      var p := w.workers[pid];
      Stake(if id in p.tasks then Some(p.tasks[id]) else None, id in p.judged, p.notice,
            if p.owed.Some? && p.owed.value.id == id then Some(p.owed.value.quota) else None)
  }

  /** A finished copy on which no further response acts, or only one that finishes its task. */
  ghost predicate Quiet(t: Traffic, copy: Row) {
    (forall item :: t.polled(item) ==> Finishes(item)) || (forall item :: t.polled(item) ==> !NeedsUpdate(copy, item))
  }

  /** An unfinished copy that a poller holds of a charged task has a status of unfinished tasks. */
  ghost predicate GoodStake(t: Traffic, s: Stake) {
    s.copy.Some? && !s.notice ==>
      && (s.copy.value.progress != COMPLETE ==> s.copy.value.quota > 0 && Waiting(t, s.copy.value.status))
      && (!s.judged ==> s.copy.value.progress != COMPLETE)
      && (t.again && s.copy.value.progress == COMPLETE ==> Quiet(t, s.copy.value))
  }

  // ----- the three phases of a task -----

  predicate FreeStake(s: Stake) {
    (s.copy.Some? ==> s.copy.value.quota <= 0) && (s.debt.Some? ==> s.debt.value <= 0)
  }

  ghost predicate Uncharged(w: World, id: Id) {
    && Credits(w, id) == 0
    && (id in w.rows ==> w.rows[id].quota <= 0)
    && forall pid :: FreeStake(StakeOf(w, pid, id))
  }

  ghost predicate OpenStake(t: Traffic, s: Stake) {
    GoodStake(t, s) && s.debt.None? && (s.copy.Some? ==> s.copy.value.quota > 0)
  }

  /** Charged, and no poller has failed it. */
  ghost predicate Pending(t: Traffic, w: World, id: Id) {
    && Credits(w, id) == 0 && Chargeable(t)
    && id in w.rows && w.rows[id].quota > 0
    && (w.rows[id].progress != COMPLETE ==> Waiting(t, w.rows[id].status))
    && forall pid :: OpenStake(t, StakeOf(w, pid, id))
  }

  ghost predicate EndedStake(t: Traffic, s: Stake) {
    GoodStake(t, s) && (s.debt.Some? ==> s.copy.Some? && s.copy.value.progress == COMPLETE)
  }

  ghost predicate OneClaim(w: World, id: Id) {
    && Credits(w, id) <= 1
    && (Credits(w, id) == 1 ==> forall pid :: StakeOf(w, pid, id).debt.None?)
    && (forall p, q :: StakeOf(w, p, id).debt.Some? && StakeOf(w, q, id).debt.Some? ==> p == q)
  }

  /** Polling only, each task once in a response. */
  ghost predicate PollingOnly(t: Traffic) {
    !t.again && forall item :: !t.notified(item)
  }

  /** A poller has failed it: refunded or to be refunded once, and closed to every unfinished copy. */
  ghost predicate Ended(t: Traffic, w: World, id: Id) {
    && OneClaim(w, id) && Chargeable(t)
    && id in w.rows && w.rows[id].progress == COMPLETE && Ending(t, w.rows[id].status)
    && (PollingOnly(t) && Credits(w, id) == 1 ==> w.rows[id].quota == 0 && w.rows[id].refunded)
    && forall pid :: EndedStake(t, StakeOf(w, pid, id))
  }

  ghost predicate Phase(t: Traffic, w: World, id: Id) {
    Uncharged(w, id) || Pending(t, w, id) || Ended(t, w, id)
  }

  ghost predicate Known(w: World) {
    forall pid, id :: id !in w.rows ==> StakeOf(w, pid, id).copy.None? && StakeOf(w, pid, id).debt.None?
  }

  ghost predicate Inv(t: Traffic, w: World) {
    Known(w) && (forall id :: Phase(t, w, id)) && forall id :: id !in w.rows ==> Credits(w, id) == 0
  }

  // ----- verdicts -----

  /** While responses arrive, only submitted rows are unfinished. */
  lemma WaitingMeansOpen(t: Traffic, status: string, item: Item)
    requires Separate(t) && Waiting(t, status) && t.polled(item)
    ensures SomeOpen(t)
  {
    if !SomeOpen(t) {
      var n :| t.notified(n) && n.progress != COMPLETE && n.status == status;
      assert Ending(t, status);
    }
  }

  lemma VerdictEnds(t: Traffic, task: Row, given: Item, now: int)
    requires t.polled(given) && task.progress != COMPLETE
    ensures var item := Judged(task, given, now);
            Failed(item) ==> Ending(t, item.status) && Updated(task, item).progress == COMPLETE
  {
  }

  lemma VerdictContinues(t: Traffic, task: Row, given: Item, now: int)
    requires t.polled(given) && SomeOpen(t)
    ensures var item := Judged(task, given, now);
            !Failed(item) && item.progress != COMPLETE ==> Waiting(t, item.status)
  {
  }

  /** With responses that may repeat, a finished copy stays out of the way. */
  lemma FinishedIsQuiet(t: Traffic, task: Row, given: Item, now: int)
    requires t.polled(given) && Harmless(t) && task.progress != COMPLETE
    ensures Quiet(t, Updated(task, Judged(task, given, now)))
  {
    if Steady(t) {
      forall item | t.polled(item)
        ensures !NeedsUpdate(Updated(task, Judged(task, given, now)), item)
      {
        assert LikeTimeout(given) && LikeTimeout(item) && SameColumns(given, item);
      }
    }
  }

  // ----- every step keeps the phases -----

  lemma Unaffected(t: Traffic, w: World, w': World, id: Id)
    requires Phase(t, w, id)
    requires Credits(w', id) == Credits(w, id)
    requires (id in w'.rows <==> id in w.rows) && (id in w.rows ==> w'.rows[id] == w.rows[id])
    requires forall pid :: StakeOf(w', pid, id) == StakeOf(w, pid, id)
    ensures Phase(t, w', id)
  {
  }

  /** A write concerns one worker and one task. */
  lemma WrittenElsewhere(w: World, pid: Pid, id: Id, next: Row, due: bool, q: Pid, other: Id)
    requires Holds(w, pid, id) && (q != pid || other != id)
    ensures StakeOf(Written(w, pid, id, next, due), q, other) == StakeOf(w, q, other)
  {
  }

  lemma WrittenHere(w: World, pid: Pid, id: Id, next: Row, due: bool)
    requires Holds(w, pid, id) && id in w.rows
    ensures var w', won := Written(w, pid, id, next, due), w.rows[id].status == w.workers[pid].tasks[id].status;
            && w'.credits == w.credits && id in w'.rows && w'.rows[id] == (if won then next else w.rows[id])
            && StakeOf(w', pid, id)
            == Stake(Some(next), true, w.workers[pid].notice, if won && due then Some(next.quota) else None)
  {
  }

  lemma FreeWrite(w: World, pid: Pid, id: Id, next: Row, due: bool)
    requires Uncharged(w, id) && Holds(w, pid, id) && id in w.rows && next.quota == w.workers[pid].tasks[id].quota
    ensures Uncharged(Written(w, pid, id, next, due), id)
  {
    var w' := Written(w, pid, id, next, due);
    WrittenHere(w, pid, id, next, due);
    assert FreeStake(StakeOf(w, pid, id));
    forall q
      ensures FreeStake(StakeOf(w', q, id))
    {
      assert FreeStake(StakeOf(w, q, id));
      if q != pid { WrittenElsewhere(w, pid, id, next, due, q, id); }
    }
  }

  lemma PendingWrite(t: Traffic, w: World, pid: Pid, id: Id, next: Row, due: bool)
    requires Pending(t, w, id) && Holds(w, pid, id) && next.quota == w.workers[pid].tasks[id].quota
    requires due ==> next.progress == COMPLETE && Ending(t, next.status)
    requires next.progress != COMPLETE ==> Waiting(t, next.status)
    requires GoodStake(t, Stake(Some(next), true, w.workers[pid].notice, None))
    ensures Pending(t, Written(w, pid, id, next, due), id) || Ended(t, Written(w, pid, id, next, due), id)
  {
    var w' := Written(w, pid, id, next, due);
    WrittenHere(w, pid, id, next, due);
    assert OpenStake(t, StakeOf(w, pid, id));
    forall q | q != pid
      ensures OpenStake(t, StakeOf(w', q, id))
    {
      WrittenElsewhere(w, pid, id, next, due, q, id);
      assert OpenStake(t, StakeOf(w, q, id));
    }
  }

  lemma EndedWrite(t: Traffic, w: World, pid: Pid, id: Id, next: Row, due: bool)
    requires Ended(t, w, id) && Holds(w, pid, id)
    requires w.rows[id].status == w.workers[pid].tasks[id].status ==>
      !due && !PollingOnly(t) && next.progress == COMPLETE && Ending(t, next.status)
    requires GoodStake(t, Stake(Some(next), true, w.workers[pid].notice, None))
    ensures Ended(t, Written(w, pid, id, next, due), id)
  {
    var w' := Written(w, pid, id, next, due);
    WrittenHere(w, pid, id, next, due);
    forall q
      ensures EndedStake(t, StakeOf(w', q, id)) && (StakeOf(w', q, id).debt.Some? ==> StakeOf(w, q, id).debt.Some?)
    {
      assert EndedStake(t, StakeOf(w, q, id));
      if q != pid { WrittenElsewhere(w, pid, id, next, due, q, id); }
    }
  }

  /** What a poller writes over its copy of a charged task. */
  lemma RespondedStake(t: Traffic, w: World, pid: Pid, id: Id, given: Item, now: int)
    requires Separate(t) && Allowed(t, w, Respond(pid, id, given, now))
    requires Holds(w, pid, id) && !w.workers[pid].notice && GoodStake(t, StakeOf(w, pid, id))
    ensures var task := w.workers[pid].tasks[id];
            var item := Judged(task, given, now);
            NeedsUpdate(task, item) ==>
              var next := Updated(task, item);
              && GoodStake(t, Stake(Some(next), true, false, None))
              && (Failed(item) ==> task.progress != COMPLETE && next.progress == COMPLETE && Ending(t, next.status))
              && (next.progress != COMPLETE ==> Waiting(t, next.status))
              && (task.progress == COMPLETE ==> t.again && next.progress == COMPLETE && Ending(t, next.status))
  {
    var task := w.workers[pid].tasks[id];
    assert StakeOf(w, pid, id).copy == Some(task);
    if task.progress != COMPLETE {
      WaitingMeansOpen(t, task.status, given);
      VerdictEnds(t, task, given, now);
      VerdictContinues(t, task, given, now);
      if t.again { FinishedIsQuiet(t, task, given, now); }
    }
  }

  lemma RespondPhase(t: Traffic, w: World, pid: Pid, id: Id, given: Item, now: int)
    requires Separate(t) && Phase(t, w, id) && Allowed(t, w, Respond(pid, id, given, now))
    requires Holds(w, pid, id) && !w.workers[pid].notice && id in w.rows
    requires NeedsUpdate(w.workers[pid].tasks[id], Judged(w.workers[pid].tasks[id], given, now))
    ensures Phase(t, RespondStep(w, pid, id, given, now), id)
  {
    var task := w.workers[pid].tasks[id];
    var item := Judged(task, given, now);
    var next, due := Updated(task, item), RefundDue(task, item);
    assert StakeOf(w, pid, id).copy == Some(task);
    if Uncharged(w, id) {
      FreeWrite(w, pid, id, next, due);
    } else if Pending(t, w, id) {
      assert OpenStake(t, StakeOf(w, pid, id));
      RespondedStake(t, w, pid, id, given, now);
      PendingWrite(t, w, pid, id, next, due);
    } else {
      assert EndedStake(t, StakeOf(w, pid, id));
      RespondedStake(t, w, pid, id, given, now);
      EndedWrite(t, w, pid, id, next, due);
    }
  }

  lemma NotifyPhase(t: Traffic, w: World, pid: Pid, id: Id, item: Item)
    requires Separate(t) && Phase(t, w, id) && t.notified(item)
    requires Holds(w, pid, id) && w.workers[pid].notice && id in w.rows
    ensures Phase(t, NotifyStep(w, pid, id, item), id)
  {
    var task := w.workers[pid].tasks[id];
    var next, due := Notified(task, item), Failed(item) && task.quota > 0;
    if Uncharged(w, id) {
      FreeWrite(w, pid, id, next, due);
    } else if Pending(t, w, id) {
      PendingWrite(t, w, pid, id, next, due);
    } else {
      NoticeEnds(t, w, id, item);
      EndedWrite(t, w, pid, id, next, due);
    }
  }

  lemma NoticeEnds(t: Traffic, w: World, id: Id, item: Item)
    requires Separate(t) && t.notified(item) && Ended(t, w, id)
    ensures item.progress == COMPLETE && Ending(t, item.status) && !Failed(item)
  {
    assert Ending(t, item.status);
    assert item.progress != COMPLETE ==> Waiting(t, item.status);
  }

  lemma RefundElsewhere(w: World, pid: Pid, q: Pid, other: Id)
    requires pid in w.workers && w.workers[pid].owed.Some? && (q != pid || other != w.workers[pid].owed.value.id)
    ensures StakeOf(RefundStep(w, pid), q, other) == StakeOf(w, q, other)
  {
  }

  /** Two rows of a task that differ at most in what a refund changes. */
  predicate Alike(a: Row, b: Row) {
    a.(quota := b.quota, refunded := b.refunded, refundQuota := b.refundQuota) == b
  }

  lemma RefundHere(w: World, pid: Pid)
    requires pid in w.workers && w.workers[pid].owed.Some? && w.workers[pid].owed.value.id in w.rows
    ensures var w', id := RefundStep(w, pid), w.workers[pid].owed.value.id;
            var s, s' := StakeOf(w, pid, id), StakeOf(w', pid, id);
            && id in w'.rows && Alike(w.rows[id], w'.rows[id])
            && s' == s.(copy := s'.copy, debt := None)
            && (s'.copy.Some? ==> s.copy.Some? && Alike(s.copy.value, s'.copy.value))
            && (s.debt.value <= 0 ==> w'.rows == w.rows && w'.credits == w.credits && s'.copy == s.copy)
  {
  }

  lemma RefundCredits(w: World, pid: Pid)
    requires pid in w.workers && w.workers[pid].owed.Some? && w.workers[pid].owed.value.id in w.rows
    ensures var w', id := RefundStep(w, pid), w.workers[pid].owed.value.id;
            && id in w'.rows
            && (|| Credits(w', id) == Credits(w, id)
                || (Credits(w', id) == Credits(w, id) + 1 && w'.rows[id].quota == 0 && w'.rows[id].refunded))
  {
  }

  lemma RefundPhase(t: Traffic, w: World, pid: Pid)
    requires pid in w.workers && w.workers[pid].owed.Some?
    requires Phase(t, w, w.workers[pid].owed.value.id) && w.workers[pid].owed.value.id in w.rows
    ensures Phase(t, RefundStep(w, pid), w.workers[pid].owed.value.id)
  {
    var w', id := RefundStep(w, pid), w.workers[pid].owed.value.id;
    RefundHere(w, pid);
    RefundCredits(w, pid);
    assert StakeOf(w, pid, id).debt.Some?;
    if Uncharged(w, id) {
      assert FreeStake(StakeOf(w, pid, id));
      forall q
        ensures FreeStake(StakeOf(w', q, id))
      {
        assert FreeStake(StakeOf(w, q, id));
        if q != pid { RefundElsewhere(w, pid, q, id); }
      }
    } else {
      assert Ended(t, w, id) by { assert Pending(t, w, id) ==> OpenStake(t, StakeOf(w, pid, id)); }
      forall q
        ensures EndedStake(t, StakeOf(w', q, id)) && StakeOf(w', q, id).debt.None?
      {
        assert EndedStake(t, StakeOf(w, q, id));
        if q != pid { RefundElsewhere(w, pid, q, id); }
      }
    }
  }

  lemma BulkFailPhase(t: Traffic, w: World, ids: set<Id>, reason: Option<string>, id: Id)
    requires Phase(t, w, id)
    ensures Phase(t, Next(w, BulkFail(ids, reason)), id)
  {
    var w' := Next(w, BulkFail(ids, reason));
    assert forall pid :: StakeOf(w', pid, id) == StakeOf(w, pid, id);
  }

  /** A worker that owes nothing is replaced by one that takes up open tasks, gives up a debt, or
      marks a task as judged. */
  lemma ReplacedPhase(t: Traffic, w: World, pid: Pid, p: Worker, id: Id)
    requires Phase(t, w, id) && p.owed.None?
    requires Uncharged(w, id) ==> FreeStake(StakeOf(w.(workers := w.workers[pid := p]), pid, id))
    requires Pending(t, w, id) ==> OpenStake(t, StakeOf(w.(workers := w.workers[pid := p]), pid, id))
    requires Ended(t, w, id) ==> EndedStake(t, StakeOf(w.(workers := w.workers[pid := p]), pid, id))
    ensures Phase(t, w.(workers := w.workers[pid := p]), id)
  {
    var w' := w.(workers := w.workers[pid := p]);
    assert forall q :: q != pid ==> StakeOf(w', q, id) == StakeOf(w, q, id);
    assert StakeOf(w', pid, id).debt.None?;
  }

  lemma PollPhase(t: Traffic, w: World, pid: Pid, id: Id)
    requires Phase(t, w, id) && Idle(w, pid)
    ensures Phase(t, Next(w, Poll(pid)), id)
  {
    ReplacedPhase(t, w, pid, Worker(Unfinished(w.rows), {}, None, false), id);
  }

  lemma ReceivePhase(t: Traffic, w: World, pid: Pid, id: Id, other: Id)
    requires Phase(t, w, other) && Idle(w, pid) && id in w.rows
    ensures Phase(t, Next(w, Receive(pid, id)), other)
  {
    ReplacedPhase(t, w, pid, Worker(map[id := w.rows[id]], {}, None, true), other);
  }

  lemma GiveUpPhase(t: Traffic, w: World, pid: Pid, id: Id)
    requires Phase(t, w, id) && pid in w.workers
    ensures Phase(t, Next(w, RefundFails(pid)), id)
  {
    var p := w.workers[pid].(owed := None);
    var s, s' := StakeOf(w, pid, id), StakeOf(w.(workers := w.workers[pid := p]), pid, id);
    assert s' == s.(debt := None);
    ReplacedPhase(t, w, pid, p, id);
  }

  /** A response that changes nothing only marks its task as judged. */
  lemma SkipPhase(t: Traffic, w: World, pid: Pid, id: Id, other: Id)
    requires Phase(t, w, other) && Holds(w, pid, id)
    ensures Phase(t, w.(workers := w.workers[pid := w.workers[pid].(judged := w.workers[pid].judged + {id})]), other)
  {
    var p := w.workers[pid].(judged := w.workers[pid].judged + {id});
    var s, s' := StakeOf(w, pid, other), StakeOf(w.(workers := w.workers[pid := p]), pid, other);
    assert s' == s.(judged := s'.judged) && (s.judged ==> s'.judged);
    ReplacedPhase(t, w, pid, p, other);
  }

  lemma SubmitPhase(t: Traffic, w: World, id: Id, row: Row)
    requires Inv(t, w) && id !in w.rows && t.submitted(row)
    ensures Phase(t, w.(rows := w.rows[id := row]), id)
  {
    var w' := w.(rows := w.rows[id := row]);
    assert forall pid :: StakeOf(w', pid, id) == StakeOf(w, pid, id);
    assert forall pid :: StakeOf(w, pid, id).copy.None? && StakeOf(w, pid, id).debt.None?;
    if row.quota > 0 {
      assert row.progress != COMPLETE ==> OpenCharged(t, row);
    }
  }

  lemma WrittenUnknown(w: World, pid: Pid, at: Id, next: Row, due: bool, q: Pid, id: Id)
    requires Known(w) && Holds(w, pid, at) && id !in w.rows
    ensures StakeOf(Written(w, pid, at, next, due), q, id) == StakeOf(w, q, id)
  {
    assert StakeOf(w, pid, at).copy.Some?;
    WrittenElsewhere(w, pid, at, next, due, q, id);
  }

  lemma RefundUnknown(w: World, pid: Pid, q: Pid, id: Id)
    requires Known(w) && pid in w.workers && w.workers[pid].owed.Some? && id !in w.rows
    ensures StakeOf(RefundStep(w, pid), q, id) == StakeOf(w, q, id)
  {
    assert StakeOf(w, pid, w.workers[pid].owed.value.id).debt.Some?;
    RefundElsewhere(w, pid, q, id);
  }

  lemma StillUnknown(w: World, step: Step, q: Pid, id: Id)
    requires Known(w) && id !in w.rows && id !in Next(w, step).rows
    ensures StakeOf(Next(w, step), q, id).copy.None? && StakeOf(Next(w, step), q, id).debt.None?
  {
    assert StakeOf(w, q, id).copy.None? && StakeOf(w, q, id).debt.None?;
    match step
    case Respond(pid, at, item, now) =>
      if Holds(w, pid, at) {
        var task := w.workers[pid].tasks[at];
        var verdict := Judged(task, item, now);
        WrittenUnknown(w, pid, at, Updated(task, verdict), RefundDue(task, verdict), q, id);
      }
    case Notify(pid, at, item) =>
      if Holds(w, pid, at) {
        var task := w.workers[pid].tasks[at];
        WrittenUnknown(w, pid, at, Notified(task, item), Failed(item) && task.quota > 0, q, id);
      }
    case Refund(pid) =>
      if pid in w.workers && w.workers[pid].owed.Some? { RefundUnknown(w, pid, q, id); }
    case _ =>
  }

  lemma RowsStay(w: World, step: Step, id: Id)
    requires id in w.rows
    ensures id in Next(w, step).rows
  {
  }

  lemma KnownKept(w: World, step: Step)
    requires Known(w)
    ensures Known(Next(w, step))
  {
    var w' := Next(w, step);
    forall pid, id | id !in w'.rows
      ensures StakeOf(w', pid, id).copy.None? && StakeOf(w', pid, id).debt.None?
    {
      if id in w.rows { RowsStay(w, step, id); }
      StillUnknown(w, step, pid, id);
    }
  }

  lemma CreditsKnown(w: World, step: Step, id: Id)
    requires Known(w) && id !in w.rows && Credits(w, id) == 0
    ensures Credits(Next(w, step), id) == 0
  {
    if step.Refund? && step.pid in w.workers && w.workers[step.pid].owed.Some? {
      assert StakeOf(w, step.pid, id).debt.None?;
    }
  }

  lemma WrittenOthers(t: Traffic, w: World, pid: Pid, id: Id, next: Row, due: bool, other: Id)
    requires Phase(t, w, other) && Holds(w, pid, id) && other != id
    ensures Phase(t, Written(w, pid, id, next, due), other)
  {
    forall q
      ensures StakeOf(Written(w, pid, id, next, due), q, other) == StakeOf(w, q, other)
    {
      WrittenElsewhere(w, pid, id, next, due, q, other);
    }
    Unaffected(t, w, Written(w, pid, id, next, due), other);
  }

  lemma RefundOthers(t: Traffic, w: World, pid: Pid, other: Id)
    requires Phase(t, w, other) && pid in w.workers && w.workers[pid].owed.Some? && other != w.workers[pid].owed.value.id
    ensures Phase(t, RefundStep(w, pid), other)
  {
    forall q
      ensures StakeOf(RefundStep(w, pid), q, other) == StakeOf(w, q, other)
    {
      RefundElsewhere(w, pid, q, other);
    }
    Unaffected(t, w, RefundStep(w, pid), other);
  }

  lemma SubmitOthers(t: Traffic, w: World, id: Id, row: Row, other: Id)
    requires Phase(t, w, other) && other != id
    ensures Phase(t, Next(w, Submit(id, row)), other)
  {
    var w' := Next(w, Submit(id, row));
    assert forall q :: StakeOf(w', q, other) == StakeOf(w, q, other);
    Unaffected(t, w, w', other);
  }

  lemma NextPhase(t: Traffic, w: World, step: Step, id: Id)
    requires Separate(t) && Inv(t, w) && Allowed(t, w, step)
    ensures Phase(t, Next(w, step), id)
  {
    assert Phase(t, w, id);
    match step
    case Submit(at, row) =>
      if at != id { SubmitOthers(t, w, at, row, id); } else if id !in w.rows { SubmitPhase(t, w, id, row); }
    case Poll(pid) =>
      if Idle(w, pid) { PollPhase(t, w, pid, id); }
    case Respond(pid, at, item, now) =>
      RespondNext(t, w, pid, at, item, now, id);
    case Receive(pid, at) =>
      if Idle(w, pid) && at in w.rows { ReceivePhase(t, w, pid, at, id); }
    case Notify(pid, at, item) =>
      NotifyNext(t, w, pid, at, item, id);
    case Refund(pid) =>
      RefundNext(t, w, pid, id);
    case RefundFails(pid) =>
      if pid in w.workers { GiveUpPhase(t, w, pid, id); }
    case BulkFail(ids, reason) =>
      BulkFailPhase(t, w, ids, reason, id);
  }

  lemma RespondNext(t: Traffic, w: World, pid: Pid, at: Id, item: Item, now: int, id: Id)
    requires Separate(t) && Inv(t, w) && Allowed(t, w, Respond(pid, at, item, now))
    ensures Phase(t, Next(w, Respond(pid, at, item, now)), id)
  {
    assert Phase(t, w, id);
    if Holds(w, pid, at) && !w.workers[pid].notice {
      var task := w.workers[pid].tasks[at];
      var verdict := Judged(task, item, now);
      assert StakeOf(w, pid, at).copy.Some?;
      if !NeedsUpdate(task, verdict) {
        SkipPhase(t, w, pid, at, id);
      } else if at != id {
        WrittenOthers(t, w, pid, at, Updated(task, verdict), RefundDue(task, verdict), id);
      } else {
        RespondPhase(t, w, pid, id, item, now);
      }
    }
  }

  lemma NotifyNext(t: Traffic, w: World, pid: Pid, at: Id, item: Item, id: Id)
    requires Separate(t) && Inv(t, w) && t.notified(item)
    ensures Phase(t, Next(w, Notify(pid, at, item)), id)
  {
    assert Phase(t, w, id);
    if Holds(w, pid, at) && w.workers[pid].notice && at !in w.workers[pid].judged {
      var task := w.workers[pid].tasks[at];
      assert StakeOf(w, pid, at).copy.Some?;
      if at != id {
        WrittenOthers(t, w, pid, at, Notified(task, item), Failed(item) && task.quota > 0, id);
      } else {
        NotifyPhase(t, w, pid, id, item);
      }
    }
  }

  lemma RefundNext(t: Traffic, w: World, pid: Pid, id: Id)
    requires Inv(t, w)
    ensures Phase(t, Next(w, Refund(pid)), id)
  {
    assert Phase(t, w, id);
    if pid in w.workers && w.workers[pid].owed.Some? {
      if w.workers[pid].owed.value.id == id {
        assert StakeOf(w, pid, id).debt.Some?;
        RefundPhase(t, w, pid);
      } else {
        RefundOthers(t, w, pid, id);
      }
    }
  }

  /** Every step keeps the invariant that ties refunds, debts, statuses and copies together. */
  lemma NextKeepsInv(t: Traffic, w: World, step: Step)
    requires Separate(t) && Inv(t, w) && Allowed(t, w, step)
    ensures Inv(t, Next(w, step))
  {
    KnownKept(w, step);
    forall id
      ensures Phase(t, Next(w, step), id)
    {
      NextPhase(t, w, step, id);
    }
    forall id | id !in Next(w, step).rows
      ensures Credits(Next(w, step), id) == 0
    {
      if id in w.rows { RowsStay(w, step, id); }
      CreditsKnown(w, step, id);
    }
  }

  lemma AdmitsPrefix(t: Traffic, w: World, steps: seq<Step>, k: nat)
    requires Admits(t, w, steps) && k < |steps|
    ensures Admits(t, w, steps[..k]) && Allowed(t, Run(w, steps[..k]), steps[k])
  {
    forall i | 0 <= i < k
      ensures Allowed(t, Run(w, steps[..k][..i]), steps[..k][i])
    {
      assert steps[..k][..i] == steps[..i];
    }
  }

  lemma InitialInv(t: Traffic, w: World)
    requires Initial(t, w)
    ensures Inv(t, w)
  {
    assert forall pid, id :: StakeOf(w, pid, id) == Stake(None, false, false, None);
    forall id
      ensures Phase(t, w, id)
    {
      if id in w.rows && w.rows[id].quota > 0 {
        assert w.rows[id].progress != COMPLETE ==> OpenCharged(t, w.rows[id]);
      }
    }
  }

  lemma {:induction false} RunKeepsInv(t: Traffic, w: World, steps: seq<Step>)
    requires Separate(t) && Initial(t, w) && Admits(t, w, steps)
    ensures Inv(t, Run(w, steps))
  {
    if steps == [] {
      InitialInv(t, w);
    } else {
      var k := |steps| - 1;
      AdmitsPrefix(t, w, steps, k);
      RunKeepsInv(t, w, steps[..k]);
      NextKeepsInv(t, Run(w, steps[..k]), steps[k]);
    }
  }

  /** No run refunds a task twice, whatever the number of workers and the order of their steps; with
      polling alone a refunded task is closed and has no quota left, and it is failed if every
      verdict of failure says so. */
  lemma RefundedAtMostOnce(t: Traffic, w: World, steps: seq<Step>, id: Id)
    requires Separate(t) && Initial(t, w) && Admits(t, w, steps)
    ensures Credits(Run(w, steps), id) <= 1
    ensures Credits(Run(w, steps), id) == 1 ==>
      id in Run(w, steps).rows && Run(w, steps).rows[id].progress == COMPLETE && Ending(t, Run(w, steps).rows[id].status)
    ensures Credits(Run(w, steps), id) == 1 && PollingOnly(t) ==>
      && Run(w, steps).rows[id].refunded && Run(w, steps).rows[id].quota == 0
      && ((forall item :: t.polled(item) && Rejects(item) ==> item.status == FAILURE) ==> Run(w, steps).rows[id].status == FAILURE)
  {
    RunKeepsInv(t, w, steps);
    assert Phase(t, Run(w, steps), id);
  }

  // ----- no failure, no refund -----

  /** A response that comes within an hour of the submission its poller knows of, or for a task that
      its poller knows to be complete. */
  predicate OnTime(w: World, step: Step) {
    step.Respond? && Holds(w, step.pid, step.id) ==>
      var task := w.workers[step.pid].tasks[step.id];
      step.now - task.submitTime <= 3600000 || task.progress == "100%"
  }

  ghost predicate AllOnTime(w: World, steps: seq<Step>) {
    forall i :: 0 <= i < |steps| ==> OnTime(Run(w, steps[..i]), steps[i])
  }

  ghost predicate NoFailures(t: Traffic) {
    forall item :: t.polled(item) || t.notified(item) ==> !Failed(item)
  }

  /** Nothing was paid and nobody owes anything. */
  ghost predicate Untouched(w: World) {
    w.credits == map[] && forall pid :: pid in w.workers ==> w.workers[pid].owed.None?
  }

  lemma NextUntouched(t: Traffic, w: World, step: Step)
    requires NoFailures(t) && Untouched(w) && Allowed(t, w, step) && OnTime(w, step)
    ensures Untouched(Next(w, step))
  {
    if step.Respond? && Holds(w, step.pid, step.id) {
      VerdictIff(w.workers[step.pid].tasks[step.id], step.item, step.now);
    }
  }

  lemma OnTimePrefix(w: World, steps: seq<Step>, k: nat)
    requires AllOnTime(w, steps) && k < |steps|
    ensures AllOnTime(w, steps[..k]) && OnTime(Run(w, steps[..k]), steps[k])
  {
    forall i | 0 <= i < k
      ensures OnTime(Run(w, steps[..k][..i]), steps[..k][i])
    {
      assert steps[..k][..i] == steps[..i];
    }
  }

  lemma {:induction false} RunUntouched(t: Traffic, w: World, steps: seq<Step>)
    requires NoFailures(t) && Initial(t, w) && Admits(t, w, steps) && AllOnTime(w, steps)
    ensures Untouched(Run(w, steps))
  {
    if steps != [] {
      var k := |steps| - 1;
      AdmitsPrefix(t, w, steps, k);
      OnTimePrefix(w, steps, k);
      RunUntouched(t, w, steps[..k]);
      NextUntouched(t, Run(w, steps[..k]), steps[k]);
    }
  }

  /** Where no response and no notification fails a task and every response comes within the hour, no
      task is ever refunded. */
  lemma NothingRefunded(t: Traffic, w: World, steps: seq<Step>, id: Id)
    requires NoFailures(t) && Initial(t, w) && Admits(t, w, steps) && AllOnTime(w, steps)
    ensures Credits(Run(w, steps), id) == 0
  {
    RunUntouched(t, w, steps);
  }
}
