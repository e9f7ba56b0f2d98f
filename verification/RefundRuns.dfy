/**
Runs that refund a Midjourney task twice (controller/midjourney.go, relay/mjproxy_handler.go), for
all traffic that leaves room for one, and with them the exact condition.
*/
module RefundRuns {
  import opened Prelude
  import opened Midjourney
  import opened Refunds

  // ----- building runs -----

  ghost predicate Reaches(t: Traffic, w: World) {
    exists w0, steps :: Initial(t, w0) && Admits(t, w0, steps) && Run(w0, steps) == w
  }

  lemma Begin(t: Traffic, row: Row) returns (w: World)
    requires t.submitted(row)
    ensures w == World(map[1 := row], map[], map[]) && Reaches(t, w)
  {
    w := World(map[1 := row], map[], map[]);
    assert Initial(t, w) && Admits(t, w, []) && Run(w, []) == w;
  }

  lemma Go(t: Traffic, w: World, step: Step) returns (w': World)
    requires Reaches(t, w) && Allowed(t, w, step)
    ensures w' == Next(w, step) && Reaches(t, w')
  {
    var w0, steps :| Initial(t, w0) && Admits(t, w0, steps) && Run(w0, steps) == w;
    RunSnoc(w0, steps, step);
    var more := steps + [step];
    forall i | 0 <= i < |more|
      ensures Allowed(t, Run(w0, more[..i]), more[i])
    {
      assert more[..i] == if i == |steps| then steps else steps[..i];
    }
    w' := Next(w, step);
    assert Admits(t, w0, more) && Run(w0, more) == w';
  }

  lemma PaidTwice(t: Traffic, w: World)
    requires Reaches(t, w) && Credits(w, 1) >= 2
    ensures !SafeFor(t)
  {
    var w0, steps :| Initial(t, w0) && Admits(t, w0, steps) && Run(w0, steps) == w;
  }

  /** Nothing but one worker has changed. */
  predicate Only(w: World, w': World, pid: Pid) {
    pid in w'.workers && w'.workers == w.workers[pid := w'.workers[pid]]
  }

  lemma Receives(t: Traffic, w: World, pid: Pid) returns (w': World)
    requires Reaches(t, w) && Idle(w, pid) && 1 in w.rows
    ensures Reaches(t, w') && Only(w, w', pid) && w'.rows == w.rows && w'.credits == w.credits
    ensures w'.workers[pid] == Worker(map[1 := w.rows[1]], {}, None, true)
  {
    w' := Go(t, w, Receive(pid, 1));
  }

  /** The handler of a notification whose copy agrees with the row on the status. */
  lemma NoticeWins(t: Traffic, w: World, pid: Pid, item: Item) returns (w': World)
    requires Reaches(t, w) && Holds(w, pid, 1) && w.workers[pid].notice && 1 !in w.workers[pid].judged && t.notified(item)
    requires 1 in w.rows && w.rows[1].status == w.workers[pid].tasks[1].status
    ensures Reaches(t, w') && Only(w, w', pid) && w'.credits == w.credits
    ensures var next := Notified(w.workers[pid].tasks[1], item);
            && w'.rows == w.rows[1 := next] && 1 in w'.workers[pid].tasks
            && w'.workers[pid].owed == if Failed(item) && next.quota > 0 then Some(Debt(1, next.quota)) else None
  {
    w' := Go(t, w, Notify(pid, 1, item));
  }

  lemma Repays(t: Traffic, w: World, pid: Pid) returns (w': World)
    requires Reaches(t, w) && pid in w.workers && 1 in w.workers[pid].tasks && 1 in w.rows
    requires w.rows[1].quota > 0 && w.workers[pid].owed == Some(Debt(1, w.rows[1].quota))
    ensures Reaches(t, w') && Only(w, w', pid) && w'.workers[pid].owed.None?
    ensures Credits(w', 1) == Credits(w, 1) + 1 && 1 in w'.rows && w'.rows[1].status == w.rows[1].status
  {
    w' := Go(t, w, Refund(pid));
  }

  ghost predicate HasCopy(w: World, pid: Pid, row: Row) {
    && pid in w.workers && 1 in w.workers[pid].tasks && w.workers[pid].tasks[1] == row
    && w.workers[pid] == Worker(w.workers[pid].tasks, {}, None, false)
  }

  lemma Polls(t: Traffic, w: World, pid: Pid) returns (w': World)
    requires Reaches(t, w) && Idle(w, pid) && 1 in w.rows && w.rows[1].progress != COMPLETE
    ensures Reaches(t, w') && Only(w, w', pid) && w'.rows == w.rows && w'.credits == w.credits && HasCopy(w', pid, w.rows[1])
  {
    w' := Go(t, w, Poll(pid));
  }

  /** A poller may judge task 1 on its copy. */
  ghost predicate Ready(t: Traffic, w: World, pid: Pid) {
    Holds(w, pid, 1) && !w.workers[pid].notice && (t.again || 1 !in w.workers[pid].judged)
  }

  /** A poller takes over a response on its copy, and on the row if both have the same status. */
  lemma Responds(t: Traffic, w: World, pid: Pid, item: Item, now: int) returns (w': World)
    requires Reaches(t, w) && Ready(t, w, pid) && t.polled(item) && 1 in w.rows
    requires NeedsUpdate(w.workers[pid].tasks[1], Judged(w.workers[pid].tasks[1], item, now))
    ensures Reaches(t, w') && Only(w, w', pid) && w'.credits == w.credits
    ensures var task := w.workers[pid].tasks[1];
            var next, won := Updated(task, Judged(task, item, now)), w.rows[1].status == task.status;
            && w'.rows == (if won then w.rows[1 := next] else w.rows)
            && 1 in w'.workers[pid].tasks && w'.workers[pid].tasks[1] == next && !w'.workers[pid].notice
            && w'.workers[pid].owed == if won && RefundDue(task, Judged(task, item, now)) then Some(Debt(1, next.quota)) else None
  {
    w' := Go(t, w, Respond(pid, 1, item, now));
  }

  /** A poller whose copy agrees with the row on the status gets its refund. */
  lemma Pay(t: Traffic, w: World, pid: Pid, item: Item, now: int) returns (w': World)
    requires Reaches(t, w) && Ready(t, w, pid) && t.polled(item) && 1 in w.rows
    requires var task := w.workers[pid].tasks[1];
             && task.status == w.rows[1].status && task.quota > 0
             && Failed(Judged(task, item, now)) && NeedsUpdate(task, Judged(task, item, now))
    ensures Reaches(t, w') && Credits(w', 1) == Credits(w, 1) + 1
    ensures Only(w, w', pid) && w'.workers[pid].owed.None?
    ensures 1 in w'.rows && w'.rows[1].status == Judged(w.workers[pid].tasks[1], item, now).status
  {
    w' := Responds(t, w, pid, item, now);
    w' := Repays(t, w', pid);
  }

  function Overdue(task: Row): int { task.submitTime + TIMEOUT_MILLIS + 1 }

  /** Whatever the response, an overdue task is judged failed. */
  lemma LateVerdict(task: Row, item: Item)
    requires task.progress != COMPLETE
    ensures var late := Judged(task, item, Overdue(task));
            late.status == FAILURE && Failed(late) && NeedsUpdate(task, late)
  {
  }

  /** A charged task that is still unfinished an hour after its submission is refunded on the next response,
      whatever that says. */
  lemma OverdueRefunded(t: Traffic, row: Row, item: Item) returns (w: World)
    requires OpenCharged(t, row) && t.polled(item)
    ensures Reaches(t, w) && Credits(w, 1) == 1
  {
    w := Begin(t, row);
    w := Polls(t, w, 7);
    VerdictIff(row, item, row.submitTime + 3600001);
    w := Pay(t, w, 7, item, row.submitTime + 3600001);
  }

  // ----- a failure reported by notification -----

  /** A second notification that is read between the write and the refund of the first. */
  lemma NotifiedFailure(t: Traffic, row: Row, item: Item)
    requires t.submitted(row) && row.quota > 0 && t.notified(item) && Failed(item)
    ensures !SafeFor(t)
  {
    var w := Begin(t, row);
    w := Receives(t, w, 7);
    w := NoticeWins(t, w, 7, item);
    w := Receives(t, w, 8);
    w := Repays(t, w, 7);
    w := NoticeWins(t, w, 8, item);
    w := Repays(t, w, 8);
    PaidTwice(t, w);
  }

  // ----- a status on both sides -----

  /** Task 1 is unfinished and charged, and nobody owes a refund. */
  ghost predicate OpenAt(w: World, status: string) {
    && 1 in w.rows && w.rows[1].progress != COMPLETE && w.rows[1].quota > 0 && w.rows[1].status == status
    && Credits(w, 1) == 0 && Idle(w, 7) && Idle(w, 8) && Idle(w, 9)
  }

  lemma OpenByResponse(t: Traffic, row: Row, item: Item) returns (w: World)
    requires OpenCharged(t, row) && t.polled(item) && Continues(item)
    ensures Reaches(t, w) && OpenAt(w, item.status)
  {
    w := Begin(t, row);
    if NeedsUpdate(row, item) {
      w := Polls(t, w, 7);
      assert Judged(row, item, row.submitTime) == item;
      w := Responds(t, w, 7, item, row.submitTime);
    }
  }

  lemma OpenByNotice(t: Traffic, row: Row, item: Item) returns (w: World)
    requires t.submitted(row) && row.quota > 0 && t.notified(item) && item.progress != COMPLETE && !Failed(item)
    ensures Reaches(t, w) && OpenAt(w, item.status)
  {
    w := Begin(t, row);
    w := Receives(t, w, 7);
    w := NoticeWins(t, w, 7, item);
  }

  lemma ReachOpen(t: Traffic, status: string) returns (w: World)
    requires Waiting(t, status) && forall item :: t.notified(item) ==> !Failed(item)
    ensures Reaches(t, w) && OpenAt(w, status)
  {
    if row :| OpenCharged(t, row) && row.status == status {
      w := Begin(t, row);
    } else if item, row :| t.polled(item) && Continues(item) && item.status == status && OpenCharged(t, row) {
      w := OpenByResponse(t, row, item);
    } else {
      var row :| t.submitted(row) && row.quota > 0;
      var item :| t.notified(item) && item.progress != COMPLETE && item.status == status;
      w := OpenByNotice(t, row, item);
    }
  }

  /** Three idle pollers each take a copy of the same unfinished task. */
  lemma AllPoll(t: Traffic, w: World, status: string) returns (w': World)
    requires Reaches(t, w) && OpenAt(w, status)
    ensures Reaches(t, w') && w'.rows == w.rows && w'.credits == w.credits
    ensures HasCopy(w', 7, w.rows[1]) && HasCopy(w', 8, w.rows[1]) && HasCopy(w', 9, w.rows[1])
  {
    w' := Polls(t, w, 7);
    w' := Polls(t, w', 8);
    w' := Polls(t, w', 9);
  }

  /** One payment is made and the row has the status of the copies again. */
  ghost predicate BackAgain(t: Traffic, w: World, row: Row) {
    && Reaches(t, w) && Credits(w, 1) == 1 && HasCopy(w, 9, row)
    && 1 in w.rows && w.rows[1].status == row.status && row.progress != COMPLETE && row.quota > 0
  }

  lemma SecondPayment(t: Traffic, w: World, row: Row, item: Item)
    requires BackAgain(t, w, row) && t.polled(item)
    ensures !SafeFor(t)
  {
    LateVerdict(row, item);
    var w' := Pay(t, w, 9, item, Overdue(row));
    PaidTwice(t, w');
  }

  /** The first poller's refund, of a task that is overdue. */
  lemma FirstPayment(t: Traffic, status: string, item: Item) returns (row: Row, w: World)
    requires Waiting(t, status) && t.polled(item) && forall n :: t.notified(n) ==> !Failed(n)
    ensures row.status == status && row.progress != COMPLETE && row.quota > 0
    ensures Reaches(t, w) && Credits(w, 1) == 1 && Idle(w, 7)
    ensures HasCopy(w, 8, row) && HasCopy(w, 9, row) && 1 in w.rows && w.rows[1].status == FAILURE
  {
    w := ReachOpen(t, status);
    row := w.rows[1];
    w := AllPoll(t, w, status);
    LateVerdict(row, item);
    w := Pay(t, w, 7, item, Overdue(row));
  }

  lemma RejectedTwice(t: Traffic, item: Item)
    requires Waiting(t, item.status) && t.polled(item) && Rejects(item) && forall n :: t.notified(n) ==> !Failed(n)
    ensures !SafeFor(t)
  {
    var w := ReachOpen(t, item.status);
    var row := w.rows[1];
    w := AllPoll(t, w, item.status);
    assert Judged(row, item, row.submitTime) == item;
    w := Pay(t, w, 7, item, row.submitTime);
    SecondPayment(t, w, row, item);
  }

  lemma NoticeBringsBack(t: Traffic, status: string, item: Item, n: Item)
    requires Waiting(t, status) && t.polled(item) && t.notified(n) && n.status == status
    requires forall n :: t.notified(n) ==> !Failed(n)
    ensures !SafeFor(t)
  {
    var row, w := FirstPayment(t, status, item);
    w := Receives(t, w, 7);
    w := NoticeWins(t, w, 7, n);
    SecondPayment(t, w, row, item);
  }

  /** A poller that has lost the race has marked its own copy failed and finished: that is what the
      row says too, so its next response wins. */
  lemma Loses(t: Traffic, w: World, row: Row, item: Item) returns (w': World)
    requires Reaches(t, w) && HasCopy(w, 8, row) && t.polled(item)
    requires row.progress != COMPLETE && row.status != FAILURE && 1 in w.rows && w.rows[1].status == FAILURE
    ensures Reaches(t, w') && Only(w, w', 8) && w'.rows == w.rows && w'.credits == w.credits
    ensures Holds(w', 8, 1) && !w'.workers[8].notice
    ensures w'.workers[8].tasks[1] == Updated(row, Judged(row, item, Overdue(row)))
  {
    LateVerdict(row, item);
    w' := Responds(t, w, 8, item, Overdue(row));
  }

  lemma RepeatBringsBack(t: Traffic, item: Item)
    requires t.again && Waiting(t, item.status) && t.polled(item) && Finishes(item)
    requires forall n :: t.notified(n) ==> !Failed(n)
    ensures !SafeFor(t)
  {
    var row, w := FirstPayment(t, item.status, item);
    w := Loses(t, w, row, item);
    var copy := w.workers[8].tasks[1];
    assert Judged(copy, item, 0) == item && NeedsUpdate(copy, item);
    w := Responds(t, w, 8, item, 0);
    SecondPayment(t, w, row, item);
  }

  /** A status that both an unfinished and an ended task can have. */
  lemma SharedStatus(t: Traffic, status: string)
    requires Waiting(t, status) && Ending(t, status) && forall n :: t.notified(n) ==> !Failed(n)
    ensures !SafeFor(t)
  {
    var any :| t.polled(any);
    if status == FAILURE {
      var row, w := FirstPayment(t, status, any);
      SecondPayment(t, w, row, any);
    } else if item :| t.polled(item) && item.status == status && (Rejects(item) || (t.again && Finishes(item))) {
      if Rejects(item) {
        RejectedTwice(t, item);
      } else {
        RepeatBringsBack(t, item);
      }
    } else {
      var n :| t.notified(n) && n.status == status;
      NoticeBringsBack(t, status, any, n);
    }
  }

  // ----- a task listed again -----

  /** One payment is made; poller 8 holds a finished copy that agrees with the row on the status. */
  ghost predicate CanStrike(t: Traffic, w: World) {
    && t.again && Reaches(t, w) && Credits(w, 1) == 1 && Idle(w, 7) && Holds(w, 8, 1) && !w.workers[8].notice
    && w.workers[8].tasks[1].progress == COMPLETE && w.workers[8].tasks[1].quota > 0
    && 1 in w.rows && w.rows[1].status == w.workers[8].tasks[1].status
  }

  lemma FailsAgain(t: Traffic, w: World, item: Item)
    requires CanStrike(t, w) && t.polled(item) && Failed(item) && NeedsUpdate(w.workers[8].tasks[1], item)
    ensures !SafeFor(t)
  {
    assert Judged(w.workers[8].tasks[1], item, 0) == item;
    var w' := Pay(t, w, 8, item, 0);
    PaidTwice(t, w');
  }

  lemma OpensAgain(t: Traffic, w: World, item: Item)
    requires CanStrike(t, w) && t.polled(item) && Continues(item)
    ensures !SafeFor(t)
  {
    assert Judged(w.workers[8].tasks[1], item, 0) == item;
    var w' := Responds(t, w, 8, item, 0);
    w' := Polls(t, w', 7);
    var row := w'.rows[1];
    LateVerdict(row, item);
    w' := Pay(t, w', 7, item, Overdue(row));
    PaidTwice(t, w');
  }

  lemma FinishesAgain(t: Traffic, w: World, item: Item) returns (w': World)
    requires CanStrike(t, w) && t.polled(item) && Finishes(item) && NeedsUpdate(w.workers[8].tasks[1], item)
    ensures CanStrike(t, w') && w'.workers[8].tasks[1].status == item.status
  {
    assert Judged(w.workers[8].tasks[1], item, 0) == item;
    w' := Responds(t, w, 8, item, 0);
  }

  /** A response that finishes a task is overwritten by one that does not. */
  lemma StrikesWith(t: Traffic, w: World, item: Item, other: Item)
    requires CanStrike(t, w) && t.polled(item) && t.polled(other) && !Finishes(other)
    requires NeedsUpdate(w.workers[8].tasks[1], item)
    ensures !SafeFor(t)
  {
    if Continues(item) {
      OpensAgain(t, w, item);
    } else if Failed(item) {
      FailsAgain(t, w, item);
    } else {
      var w' := FinishesAgain(t, w, item);
      if Continues(other) {
        OpensAgain(t, w', other);
      } else {
        FailsAgain(t, w', other);
      }
    }
  }

  lemma NotSteady(t: Traffic, row: Row) returns (first: Item, second: Item)
    requires !Steady(t) && row.progress != COMPLETE
    ensures t.polled(first) && t.polled(second)
    ensures NeedsUpdate(Updated(row, Judged(row, first, Overdue(row))), second)
  {
    if item :| t.polled(item) && !LikeTimeout(item) {
      first, second := item, item;
    } else {
      first, second :| t.polled(first) && t.polled(second) && !SameColumns(first, second);
    }
  }

  /** Why a pass must not judge a task twice: the poller that lost the race has marked its own
      copy failed, so its second write compares failed with failed. */
  lemma RepeatedResponsePaysTwice(t: Traffic)
    requires t.again && SomeOpen(t) && !Harmless(t) && forall n :: t.notified(n) ==> !Failed(n)
    ensures !SafeFor(t)
  {
    var open :| OpenCharged(t, open);
    var other :| t.polled(other) && !Finishes(other);
    if open.status == FAILURE {
      SharedStatus(t, FAILURE);
    } else {
      var row, w := FirstPayment(t, open.status, other);
      var first, second := NotSteady(t, row);
      w := Loses(t, w, row, first);
      LateVerdict(row, first);
      StrikesWith(t, w, second, other);
    }
  }

  // ----- the exact condition -----

  /** Over all runs a task is refunded at most once just when the traffic is separate. */
  lemma SafeIff(t: Traffic)
    ensures SafeFor(t) <==> Separate(t)
  {
    if Separate(t) {
      forall w, steps, id | Initial(t, w) && Admits(t, w, steps)
        ensures Credits(Run(w, steps), id) <= 1
      {
        RefundedAtMostOnce(t, w, steps, id);
      }
    } else if item, row :| t.notified(item) && Failed(item) && t.submitted(row) && row.quota > 0 {
      NotifiedFailure(t, row, item);
    } else {
      NotSeparate(t);
    }
  }

  lemma NotSeparate(t: Traffic)
    requires !Separate(t) && forall item, row :: t.notified(item) && t.submitted(row) && row.quota > 0 ==> !Failed(item)
    ensures !SafeFor(t)
  {
    var row :| t.submitted(row) && row.quota > 0;
    if status :| Waiting(t, status) && Ending(t, status) {
      SharedStatus(t, status);
    } else {
      RepeatedResponsePaysTwice(t);
    }
  }

  // ----- particular traffic -----

  /** A failure verdict carries the failure status, and a failure status carries a reason or
      full progress. */
  predicate Good(item: Item) {
    && (Rejects(item) ==> item.status == FAILURE)
    && (item.status == FAILURE ==> item.failReason != "" || item.progress == COMPLETE)
  }

  /** A failed task has left the set of unfinished tasks. */
  predicate Settled(row: Row) {
    row.status == FAILURE ==> row.progress == COMPLETE
  }

  /** Tasks are charged and submitted with any status but failure. */
  ghost predicate AnyStatus(t: Traffic) {
    forall status :: status != FAILURE ==> OpenWith(t, status)
  }

  ghost predicate ChargedSettled(t: Traffic) {
    forall row :: t.submitted(row) && row.quota > 0 ==> Settled(row)
  }

  lemma FailureEnds(t: Traffic)
    requires SomePolled(t)
    ensures Ending(t, FAILURE)
  {
  }

  lemma ChargedSettledIff(t: Traffic)
    ensures ChargedSettled(t) <==> !OpenWith(t, FAILURE)
  {
    if !ChargedSettled(t) {
      var row :| t.submitted(row) && row.quota > 0 && !Settled(row);
      assert OpenCharged(t, row);
    }
  }

  lemma AnyOpen(t: Traffic)
    requires AnyStatus(t)
    ensures SomeOpen(t) && Chargeable(t)
  {
    assert OpenWith(t, "");
  }

  lemma SeparateIsGood(t: Traffic, item: Item)
    requires Separate(t) && AnyStatus(t) && t.polled(item)
    ensures Good(item)
  {
    AnyOpen(t);
    FailureEnds(t);
    if Rejects(item) && item.status != FAILURE {
      assert Waiting(t, item.status) && Ending(t, item.status);
    }
    if Continues(item) && item.status == FAILURE {
      assert Waiting(t, FAILURE);
    }
  }

  lemma SeparateIsSettled(t: Traffic)
    requires Separate(t) && SomePolled(t)
    ensures ChargedSettled(t)
  {
    FailureEnds(t);
    ChargedSettledIff(t);
    assert OpenWith(t, FAILURE) ==> Waiting(t, FAILURE);
  }

  lemma GoodIsSeparate(t: Traffic)
    requires PollingOnly(t) && (forall item :: t.polled(item) ==> Good(item)) && (SomePolled(t) ==> ChargedSettled(t))
    ensures Separate(t)
  {
    ChargedSettledIff(t);
    forall status | Ending(t, status)
      ensures !Waiting(t, status)
    {
      assert status == FAILURE;
    }
  }

  /** With polling alone, a task never twice in a response: every response that can arrive must be
      good, and if any can, every charged task submitted as failed must be finished. */
  lemma PollingSafeIff(t: Traffic)
    requires PollingOnly(t) && AnyStatus(t)
    ensures SafeFor(t) <==> (forall item :: t.polled(item) ==> Good(item)) && (SomePolled(t) ==> ChargedSettled(t))
  {
    SafeIff(t);
    if Separate(t) {
      forall item | t.polled(item)
        ensures Good(item)
      {
        SeparateIsGood(t, item);
      }
      if SomePolled(t) { SeparateIsSettled(t); }
    } else if (forall item :: t.polled(item) ==> Good(item)) && (SomePolled(t) ==> ChargedSettled(t)) {
      GoodIsSeparate(t);
    }
  }

  lemma SeparateIsSteady(t: Traffic)
    requires Separate(t) && t.again && AnyStatus(t) && SomePolled(t)
    ensures Steady(t)
  {
    AnyOpen(t);
    var item :| t.polled(item);
    if Finishes(item) {
      assert OpenWith(t, item.status) && Ending(t, item.status);
      assert Waiting(t, item.status);
    }
  }

  lemma SteadyIsSeparate(t: Traffic)
    requires (forall item :: !t.notified(item)) && (SomePolled(t) ==> Steady(t) && ChargedSettled(t))
    ensures Separate(t)
  {
    ChargedSettledIff(t);
    forall status | Ending(t, status)
      ensures !Waiting(t, status)
    {
      assert status == FAILURE;
    }
    if !SomePolled(t) {
      assert forall item :: t.polled(item) ==> Finishes(item);
    }
  }

  /** When a response may list a task twice: none may arrive, but for those that say what a poller
      says itself of an overdue task. */
  lemma RepeatsSafeIff(t: Traffic)
    requires t.again && (forall item :: !t.notified(item)) && AnyStatus(t)
    ensures SafeFor(t) <==> (SomePolled(t) ==> Steady(t) && ChargedSettled(t))
  {
    SafeIff(t);
    if Separate(t) && SomePolled(t) {
      SeparateIsSteady(t);
      SeparateIsSettled(t);
    } else if SomePolled(t) ==> Steady(t) && ChargedSettled(t) {
      SteadyIsSeparate(t);
    }
  }

  /** Responses that only finish tasks may be listed again, for tasks that have another status. */
  lemma FinishingRepeatsSafe(t: Traffic)
    requires forall item :: !t.notified(item)
    requires forall item :: t.polled(item) ==> Finishes(item) && !OpenWith(t, item.status)
    requires !OpenWith(t, FAILURE)
    ensures SafeFor(t)
  {
    SafeIff(t);
    forall status | Waiting(t, status)
      ensures !Ending(t, status)
    {
      assert OpenWith(t, status);
    }
  }

  /** A failure verdict without the status, for a task that has the response's status. */
  lemma FailureWithoutStatus(t: Traffic, row: Row, item: Item)
    requires OpenCharged(t, row) && t.polled(item) && Rejects(item) && item.status == row.status
    ensures !SafeFor(t)
  {
    assert Waiting(t, item.status) && Ending(t, item.status);
    SafeIff(t);
  }

  /** The status without a failure verdict. */
  lemma StatusWithoutFailure(t: Traffic, row: Row, item: Item)
    requires OpenCharged(t, row) && t.polled(item) && Continues(item) && item.status == FAILURE
    ensures !SafeFor(t)
  {
    assert Waiting(t, FAILURE) && Ending(t, FAILURE);
    SafeIff(t);
  }

  /** A submission inserts a charged task that is failed and unfinished exactly when the upstream
      accepts it as a task that exists already and has failed. */
  lemma InsertedSettledIff(reply: Reply, upload: bool, charged: bool, quota: int, now: int)
    ensures var row := Inserted(reply, upload, charged, quota, now);
            row.quota > 0 ==>
              (Settled(row) <==> !(reply.code == 21 && reply.found.Some? && reply.found.value.1 == FAILURE))
  {
  }

  /** Such a submission and any polling response at all are enough. */
  lemma ExistingFailedTask(t: Traffic, reply: Reply, upload: bool, quota: int, now: int, item: Item)
    requires reply.httpOk && reply.code == 21 && reply.found.Some? && reply.found.value.1 == FAILURE && quota > 0
    requires t.submitted(Inserted(reply, upload, true, quota, now)) && t.polled(item)
    ensures !SafeFor(t)
  {
    var row := Inserted(reply, upload, true, quota, now);
    assert OpenCharged(t, row) && row.status == FAILURE;
    assert Waiting(t, FAILURE) && Ending(t, FAILURE);
    SafeIff(t);
  }
}
