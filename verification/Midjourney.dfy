/**
Midjourney polling, notifications and refunds (controller/midjourney.go, relay/mjproxy_handler.go,
model/midjourney.go): any number of pollers take snapshots of the unfinished tasks, judge
upstream responses on their own copies, write back under a compare-and-set on the status and
refund a failed task; notifications from upstream do the same to one task. The steps of all
of them interleave freely; each step is atomic.
*/
module Midjourney {
  import opened Prelude

  const FAILURE := "FAILURE"
  const SUCCESS := "SUCCESS"
  const COMPLETE := "100%"
  const TIMEOUT_REASON := "上游任务超时（超过1小时）"
  const TIMEOUT_MILLIS := 3600000

  /** One upstream response. `videoUrls` is the serialized list, empty when the list is;
      `properties` and `buttons` are serialized when present. */
  datatype Item = Item(
    progress: string, promptEn: string, state: string,
    submitTime: int, startTime: int, finishTime: int,
    imageUrl: string, status: string, failReason: string,
    properties: Option<string>, buttons: Option<string>,
    videoUrl: string, videoUrls: string)

  /** One task row; `refunded` stands for the refund status being completed. */
  datatype Row = Row(
    code: int,
    progress: string, promptEn: string, state: string,
    submitTime: int, startTime: int, finishTime: int,
    imageUrl: string, status: string, failReason: string,
    properties: string, buttons: string,
    videoUrl: string, videoUrls: string,
    quota: int, refunded: bool, refundQuota: int)

  // ----- the judgement on one response -----

  predicate TimedOut(task: Row, now: int) {
    now - task.submitTime > TIMEOUT_MILLIS && task.progress != COMPLETE
  }

  function Judged(task: Row, item: Item, now: int): Item {
    if TimedOut(task, now) then item.(failReason := TIMEOUT_REASON, status := FAILURE) else item
  }

  predicate NeedsUpdate(task: Row, item: Item) {
    || task.code != 1
    || task.progress != item.progress
    || task.promptEn != item.promptEn
    || task.state != item.state
    || task.submitTime != item.submitTime
    || task.startTime != item.startTime
    || task.finishTime != item.finishTime
    || task.imageUrl != item.imageUrl
    || task.status != item.status
    || task.failReason != item.failReason
    || (task.progress != COMPLETE && item.failReason != "")
    || task.videoUrl != item.videoUrl
    || task.videoUrls != item.videoUrls
  }

  predicate Failed(item: Item) {
    || (item.progress != COMPLETE && item.failReason != "")
    || (item.progress == COMPLETE && item.status == FAILURE)
  }

  function Updated(task: Row, item: Item): Row {
    Row(1,
        if Failed(item) then COMPLETE else item.progress, item.promptEn, item.state,
        item.submitTime, item.startTime, item.finishTime,
        item.imageUrl, item.status, item.failReason,
        if item.properties.Some? then item.properties.value else task.properties,
        if item.buttons.Some? then item.buttons.value else task.buttons,
        item.videoUrl, item.videoUrls,
        task.quota, task.refunded, task.refundQuota)
  }

  /** A notification is taken over as it is: a failure does not complete a task. */
  function Notified(task: Row, item: Item): Row {
    task.(progress := item.progress, promptEn := item.promptEn, state := item.state,
          submitTime := item.submitTime, startTime := item.startTime, finishTime := item.finishTime,
          imageUrl := item.imageUrl, videoUrl := item.videoUrl, videoUrls := item.videoUrls,
          status := item.status, failReason := item.failReason)
  }

  predicate RefundDue(task: Row, item: Item) {
    Failed(item) && task.quota != 0
  }

  /** Skipping a response loses at most its properties and buttons, which the check ignores. */
  lemma SkippedLosesNothing(task: Row, item: Item)
    requires !NeedsUpdate(task, item)
    ensures Updated(task, item).(properties := task.properties, buttons := task.buttons) == task
  {
  }

  /** A response already taken over is taken over again exactly when it fails a task without
      reporting it complete. */
  lemma SettledIff(task: Row, item: Item)
    ensures NeedsUpdate(Updated(task, item), item) <==> item.progress != COMPLETE && item.failReason != ""
  {
  }

  /** A poller fails a task when the response does, or by itself when the task is unfinished an hour
      after its submission; it then says so. */
  lemma VerdictIff(task: Row, item: Item, now: int)
    ensures var late, verdict := now - task.submitTime > 3600000 && task.progress != "100%", Judged(task, item, now);
            && (Failed(verdict) <==> late || (item.progress != "100%" && item.failReason != "")
                                          || (item.progress == "100%" && item.status == "FAILURE"))
            && (!late ==> verdict == item)
            && (late ==> verdict == item.(status := "FAILURE", failReason := "上游任务超时（超过1小时）"))
  {
  }

  /** A row read back as a response. */
  function Reported(row: Row): Item {
    Item(row.progress, row.promptEn, row.state, row.submitTime, row.startTime, row.finishTime, row.imageUrl,
         row.status, row.failReason, Some(row.properties), Some(row.buttons), row.videoUrl, row.videoUrls)
  }

  /** A response taken over can be read off the row: every column is there, a failed task is complete,
      absent properties and buttons stay as they were, and the bill is untouched. */
  lemma UpdatedReports(task: Row, item: Item)
    ensures var row := Updated(task, item);
            && row.code == 1 && row.quota == task.quota && row.refunded == task.refunded && row.refundQuota == task.refundQuota
            && Reported(row) == item.(
                 progress := if Failed(item) then "100%" else item.progress,
                 properties := Some(if item.properties.Some? then item.properties.value else task.properties),
                 buttons := Some(if item.buttons.Some? then item.buttons.value else task.buttons))
  {
  }

  /** A notification taken over can be read off the row as it came, but for properties and buttons. */
  lemma NotifiedReports(task: Row, item: Item)
    ensures var row := Notified(task, item);
            && row.code == task.code && row.quota == task.quota
            && row.refunded == task.refunded && row.refundQuota == task.refundQuota
            && Reported(row) == item.(properties := Some(task.properties), buttons := Some(task.buttons))
  {
  }

  /** A refund is due exactly for a failed task that was charged. */
  lemma RefundDueIff(task: Row, item: Item)
    ensures RefundDue(task, item) <==>
      task.quota != 0 && ((item.progress != "100%" && item.failReason != "") || (item.progress == "100%" && item.status == "FAILURE"))
  {
  }

  // ----- the protocol -----

  type Id = int
  type Pid = int

  datatype Debt = Debt(id: Id, quota: int)

  /** A polling pass or the handling of one notification: its copies of the tasks, the ids already
      judged, and a refund it has won but not made yet. */
  datatype Worker = Worker(tasks: map<Id, Row>, judged: set<Id>, owed: Option<Debt>, notice: bool)

  /** `credits` counts the refunds actually paid for each task. */
  datatype World = World(rows: map<Id, Row>, workers: map<Pid, Worker>, credits: map<Id, nat>)

  datatype Step =
    | Submit(id: Id, row: Row)
    | Poll(pid: Pid)
    | Respond(pid: Pid, id: Id, item: Item, now: int)
    | Receive(pid: Pid, id: Id)
    | Notify(pid: Pid, id: Id, item: Item)
    | Refund(pid: Pid)
    | RefundFails(pid: Pid)
    | BulkFail(ids: set<Id>, reason: Option<string>)

  function Credits(w: World, id: Id): nat { Count(w.credits, id) }

  function Count(credits: map<Id, nat>, id: Id): nat {
    if id in credits then credits[id] else 0
  }

  function Unfinished(rows: map<Id, Row>): map<Id, Row> {
    map id | id in rows && rows[id].progress != COMPLETE :: rows[id]
  }

  predicate Idle(w: World, pid: Pid) {
    pid in w.workers ==> w.workers[pid].owed.None?
  }

  predicate Holds(w: World, pid: Pid, id: Id) {
    pid in w.workers && w.workers[pid].owed.None? && id in w.workers[pid].tasks
  }

  /** The compare-and-set wins when the row still has the status of the worker's copy; it then
      writes every column of the copy. */
  function Written(w: World, pid: Pid, id: Id, next: Row, due: bool): World
    requires Holds(w, pid, id)
  {
    var p := w.workers[pid];
    var won := id in w.rows && w.rows[id].status == p.tasks[id].status;
    var owed := if won && due then Some(Debt(id, next.quota)) else None;
    w.(rows := if won then w.rows[id := next] else w.rows,
       workers := w.workers[pid := Worker(p.tasks[id := next], p.judged + {id}, owed, p.notice)])
  }

  function RespondStep(w: World, pid: Pid, id: Id, given: Item, now: int): World
    requires Holds(w, pid, id)
  {
    var p := w.workers[pid];
    var item := Judged(p.tasks[id], given, now);
    if NeedsUpdate(p.tasks[id], item) then Written(w, pid, id, Updated(p.tasks[id], item), RefundDue(p.tasks[id], item))
    else w.(workers := w.workers[pid := p.(judged := p.judged + {id})])
  }

  function NotifyStep(w: World, pid: Pid, id: Id, item: Item): World
    requires Holds(w, pid, id)
  {
    var task := w.workers[pid].tasks[id];
    Written(w, pid, id, Notified(task, item), Failed(item) && task.quota > 0)
  }

  /** The stored tasks, the refunds paid and one worker's copy of a task. */
  datatype Books = Books(rows: map<Id, Row>, credits: map<Id, nat>, copy: Row)

  /** The refund transaction: an error when the stored quota is not the expected one, nothing for
      a task already refunded, else one credit and the quota cleared. The worker's copy follows
      the row unless the transaction failed. */
  function PayBack(b: Books, id: Id, quota: int): Books {
    if quota <= 0 || id !in b.rows then b
    else
      var row := b.rows[id];
      if row.refunded && row.quota == 0 then b.(copy := Follow(b.copy, row))
      else if row.quota != quota then b
      else
        var paid := row.(quota := 0, refunded := true, refundQuota := quota);
        Books(b.rows[id := paid], b.credits[id := Count(b.credits, id) + 1], Follow(b.copy, paid))
  }

  function Follow(copy: Row, row: Row): Row {
    copy.(quota := row.quota, refunded := row.refunded, refundQuota := row.refundQuota)
  }

  /** A refund is paid exactly when the row still holds the expected quota; then the quota moves to
      the refunded amount, and nothing else of any row changes. */
  lemma PayBackIff(b: Books, id: Id, quota: int)
    ensures var paid := PayBack(b, id, quota);
            var due := quota > 0 && id in b.rows && b.rows[id].quota == quota;
            && (forall other :: Count(paid.credits, other) == Count(b.credits, other) + if due && other == id then 1 else 0)
            && paid.rows == (if due then b.rows[id := b.rows[id].(quota := 0, refunded := true, refundQuota := quota)] else b.rows)
            && (due ==> paid.copy.quota == 0 && paid.copy.refunded && paid.copy.refundQuota == quota)
  {
  }

  function RefundStep(w: World, pid: Pid): World
    requires pid in w.workers && w.workers[pid].owed.Some?
  {
    var p := w.workers[pid];
    var Debt(id, quota) := p.owed.value;
    if id !in p.tasks then w.(workers := w.workers[pid := p.(owed := None)])
    else
      var b := PayBack(Books(w.rows, w.credits, p.tasks[id]), id, quota);
      World(b.rows, w.workers[pid := p.(tasks := p.tasks[id := b.copy], owed := None)], b.credits)
  }

  function BulkFailed(row: Row, reason: Option<string>): Row {
    row.(status := FAILURE, progress := COMPLETE, failReason := if reason.Some? then reason.value else row.failReason)
  }

  /** A step that is not possible changes nothing. A notification is read beside whatever state its
      task is in, finished or not, and is applied once. */
  function Next(w: World, step: Step): World {
    match step
    case Submit(id, row) =>
      if id !in w.rows then w.(rows := w.rows[id := row]) else w
    case Poll(pid) =>
      if Idle(w, pid) then w.(workers := w.workers[pid := Worker(Unfinished(w.rows), {}, None, false)]) else w
    case Respond(pid, id, item, now) =>
      if Holds(w, pid, id) && !w.workers[pid].notice then RespondStep(w, pid, id, item, now) else w
    case Receive(pid, id) =>
      if Idle(w, pid) && id in w.rows
      then w.(workers := w.workers[pid := Worker(map[id := w.rows[id]], {}, None, true)]) else w
    case Notify(pid, id, item) =>
      if Holds(w, pid, id) && w.workers[pid].notice && id !in w.workers[pid].judged
      then NotifyStep(w, pid, id, item) else w
    case Refund(pid) =>
      if pid in w.workers && w.workers[pid].owed.Some? then RefundStep(w, pid) else w
    case RefundFails(pid) =>
      if pid in w.workers then w.(workers := w.workers[pid := w.workers[pid].(owed := None)]) else w
    case BulkFail(ids, reason) =>
      w.(rows := map id | id in w.rows :: if id in ids then BulkFailed(w.rows[id], reason) else w.rows[id])
  }

  /** Failing tasks in bulk finishes exactly the rows named, and moves no quota: neither theirs nor anybody's. */
  lemma BulkFailsOnly(w: World, ids: set<Id>, reason: Option<string>, id: Id)
    requires id in w.rows
    ensures var after := Next(w, BulkFail(ids, reason));
            && after.rows.Keys == w.rows.Keys && after.credits == w.credits && after.workers == w.workers
            && (id !in ids ==> after.rows[id] == w.rows[id])
            && (id in ids ==> && after.rows[id].status == "FAILURE" && after.rows[id].progress == "100%"
                              && (reason.Some? ==> after.rows[id].failReason == reason.value)
                              && (reason.None? ==> after.rows[id].failReason == w.rows[id].failReason)
                              && after.rows[id].quota == w.rows[id].quota
                              && after.rows[id].refunded == w.rows[id].refunded)
  {
  }

  function Run(w: World, steps: seq<Step>): World {
    if steps == [] then w else Next(Run(w, steps[..|steps| - 1]), steps[|steps| - 1])
  }

  lemma RunSnoc(w: World, steps: seq<Step>, step: Step)
    ensures Run(w, steps + [step]) == Next(Run(w, steps), step)
  {
    assert (steps + [step])[..|steps|] == steps;
  }

  // ----- the row that a submission inserts -----

  /** The upstream's answer to a submission; `found` holds the image and status of a task that exists
      already, when the properties name both. */
  datatype Reply = Reply(httpOk: bool, code: int, description: string, found: Option<(string, string)>)

  predicate Taken(code: int) {
    code == 1 || code == 21 || code == 22
  }

  function Inserted(reply: Reply, upload: bool, charged: bool, quota: int, now: int): Row {
    var found := reply.code == 21 && reply.found.Some?;
    var done := found && reply.found.value.1 == SUCCESS;
    var uploaded := (reply.code == 1 || done) && upload;
    Row(reply.code, if done || uploaded then COMPLETE else "0%", "", "",
        now, if done then now else 0, if done then now else 0,
        if found then reply.found.value.0 else "",
        if uploaded then SUCCESS else if found then reply.found.value.1 else "",
        if Taken(reply.code) then "" else reply.description,
        "", "", "", "",
        if charged && Taken(reply.code) && reply.httpOk then quota else 0, false, 0)
  }

  /** What a submission inserts: charged exactly when the charge was made and the upstream took the task;
      complete exactly when the task had succeeded already or is an upload taken at once; with the
      description as the reason exactly when it was not taken. */
  lemma InsertedAs(reply: Reply, upload: bool, charged: bool, quota: int, now: int)
    ensures var row := Inserted(reply, upload, charged, quota, now);
            var taken := reply.code in {1, 21, 22};
            var succeeded := reply.code == 21 && reply.found.Some? && reply.found.value.1 == "SUCCESS";
            && row.quota == (if charged && reply.httpOk && taken then quota else 0) && !row.refunded && row.submitTime == now
            && (row.progress == "100%" <==> succeeded || (upload && reply.code == 1))
            && (row.progress != "100%" ==> row.progress == "0%")
            && row.failReason == (if taken then "" else reply.description)
            && (reply.code == 21 && reply.found.Some? ==> row.imageUrl == reply.found.value.0 && row.status == reply.found.value.1)
  {
  }

  // ----- one polling pass -----

  /** A poller's copy of a task, overwritten column by column. */
  class TaskCopy {
    var row: Row

    constructor (row: Row)
      ensures this.row == row
    {
      this.row := row;
    }

    method Overwrite(item: Item) returns (shouldReturnQuota: bool)
      modifies this
      ensures row == Updated(old(row), item)
      ensures shouldReturnQuota == RefundDue(old(row), item)
    {
      row := row.(code := 1, progress := item.progress, promptEn := item.promptEn, state := item.state);
      row := row.(submitTime := item.submitTime, startTime := item.startTime, finishTime := item.finishTime);
      row := row.(imageUrl := item.imageUrl, status := item.status, failReason := item.failReason);
      if item.properties.Some? {
        row := row.(properties := item.properties.value);
      }
      if item.buttons.Some? {
        row := row.(buttons := item.buttons.value);
      }
      row := row.(videoUrl := item.videoUrl, videoUrls := item.videoUrls);
      shouldReturnQuota := false;
      if (row.progress != COMPLETE && item.failReason != "") || (row.progress == COMPLETE && row.status == FAILURE) {
        row := row.(progress := COMPLETE);
        if row.quota != 0 {
          shouldReturnQuota := true;
        }
      }
    }

    method RefundQuota(id: Id, db: Database)
      modifies this, db
      ensures Books(db.rows, db.credits, row) == PayBack(Books(old(db.rows), old(db.credits), old(row)), id, old(row.quota))
    {
      var quota := row.quota;
      if quota <= 0 || id !in db.rows {
        return;
      }
      var stored := db.rows[id];
      if !(stored.refunded && stored.quota == 0) {
        if stored.quota != quota {
          return;
        }
        stored := stored.(quota := 0, refunded := true, refundQuota := quota);
        db.rows, db.credits := db.rows[id := stored], db.credits[id := Count(db.credits, id) + 1];
      }
      row := row.(quota := stored.quota, refunded := stored.refunded, refundQuota := stored.refundQuota);
    }
  }

  class Database {
    var rows: map<Id, Row>
    var credits: map<Id, nat>

    method UpdateWithStatus(id: Id, row: Row, fromStatus: string) returns (won: bool)
      modifies `rows
      ensures won == (id in old(rows) && old(rows)[id].status == fromStatus)
      ensures rows == if won then old(rows)[id := row] else old(rows)
    {
      won := id in rows && rows[id].status == fromStatus;
      if won {
        rows := rows[id := row];
      }
    }
  }

  datatype Response = Response(id: Id, item: Item, now: int)

  /** One response handled without interference: judge, compare-and-set, refund. */
  function Handled(b: Books, id: Id, given: Item, now: int): Books {
    var item := Judged(b.copy, given, now);
    if !NeedsUpdate(b.copy, item) then b
    else
      var next := Updated(b.copy, item);
      var won := id in b.rows && b.rows[id].status == b.copy.status;
      var written := Books(if won then b.rows[id := next] else b.rows, b.credits, next);
      if won && RefundDue(b.copy, item) then PayBack(written, id, next.quota) else written
  }

  method Handle(db: Database, id: Id, copy: Row, given: Item, now: int) returns (copy': Row)
    modifies db
    ensures Books(db.rows, db.credits, copy') == Handled(Books(old(db.rows), old(db.credits), copy), id, given, now)
  {
    var task := new TaskCopy(copy);
    var item := given;
    if now - task.row.submitTime > TIMEOUT_MILLIS && task.row.progress != COMPLETE {
      item := item.(failReason := TIMEOUT_REASON, status := FAILURE);
    }
    if !NeedsUpdate(task.row, item) {
      return copy;
    }
    var preStatus := task.row.status;
    var shouldReturnQuota := task.Overwrite(item);
    var won := db.UpdateWithStatus(id, task.row, preStatus);
    if won && shouldReturnQuota {
      task.RefundQuota(id, db);
    }
    copy' := task.row;
  }

  /** The protocol state in which poller 0 holds the given copies and owes nothing. */
  ghost predicate Agrees(w: World, rows: map<Id, Row>, credits: map<Id, nat>, tasks: map<Id, Row>) {
    && w.rows == rows && w.credits == credits
    && 0 in w.workers && w.workers[0].tasks == tasks && w.workers[0].owed.None? && !w.workers[0].notice
  }

  lemma HandledIsTwoSteps(w: World, tasks: map<Id, Row>, id: Id, item: Item, now: int)
    requires Agrees(w, w.rows, w.credits, tasks) && id in tasks
    ensures var b := Handled(Books(w.rows, w.credits, tasks[id]), id, item, now);
            Agrees(Next(Next(w, Respond(0, id, item, now)), Refund(0)), b.rows, b.credits, tasks[id := b.copy])
  {
    var w' := Next(w, Respond(0, id, item, now));
    if w'.workers[0].owed.Some? {
      assert w'.workers[0].owed.value == Debt(id, w'.workers[0].tasks[id].quota);
    } else {
      assert Next(w', Refund(0)) == w';
    }
  }

  ghost function PassSteps(responses: seq<Response>): seq<Step> {
    if responses == [] then [Poll(0)]
    else
      var r := responses[|responses| - 1];
      PassSteps(responses[..|responses| - 1]) + [Respond(0, r.id, r.item, r.now)] + [Refund(0)]
  }

  lemma PassSnoc(w: World, responses: seq<Response>, k: nat)
    requires k < |responses|
    ensures Run(w, PassSteps(responses[..k + 1]))
         == Next(Next(Run(w, PassSteps(responses[..k])),
                      Respond(0, responses[k].id, responses[k].item, responses[k].now)), Refund(0))
  {
    var r, before := responses[k], PassSteps(responses[..k]);
    assert responses[..k + 1][..k] == responses[..k];
    RunSnoc(w, before, Respond(0, r.id, r.item, r.now));
    RunSnoc(w, before + [Respond(0, r.id, r.item, r.now)], Refund(0));
  }

  /** A pass that nobody interferes with takes exactly the steps of the protocol. */
  method PollOnce(db: Database, responses: seq<Response>)
    modifies db
    ensures var w := Run(World(old(db.rows), map[], old(db.credits)), PassSteps(responses));
            db.rows == w.rows && db.credits == w.credits
  {
    ghost var w0 := World(db.rows, map[], db.credits);
    var tasks := Unfinished(db.rows);
    assert [Poll(0)][..0] == [];
    for i := 0 to |responses|
      invariant Agrees(Run(w0, PassSteps(responses[..i])), db.rows, db.credits, tasks)
    {
      PassSnoc(w0, responses, i);
      var Response(id, item, now) := responses[i];
      if id in tasks {
        HandledIsTwoSteps(Run(w0, PassSteps(responses[..i])), tasks, id, item, now);
        var copy := Handle(db, id, tasks[id], item, now);
        tasks := tasks[id := copy];
      }
    }
    assert responses[..|responses|] == responses;
  }

  // ----- one notification -----

  /** A notification that nobody interferes with takes exactly the steps of the protocol; one for a
      task that does not exist is refused. */
  method HandleNotice(db: Database, id: Id, item: Item) returns (found: bool)
    modifies db
    ensures found <==> id in old(db.rows)
    ensures var w := Run(World(old(db.rows), map[], old(db.credits)), [Receive(0, id), Notify(0, id, item), Refund(0)]);
            db.rows == w.rows && db.credits == w.credits
  {
    ghost var w0 := World(db.rows, map[], db.credits);
    NoticeSteps(w0, id, item);
    if id !in db.rows {
      return false;
    }
    var task := new TaskCopy(db.rows[id]);
    var previousStatus := task.row.status;
    task.row := Notified(task.row, item);
    var shouldRefund := task.row.quota > 0 &&
      ((task.row.progress != COMPLETE && task.row.failReason != "") ||
       (task.row.progress == COMPLETE && task.row.status == FAILURE));
    var won := db.UpdateWithStatus(id, task.row, previousStatus);
    if won && shouldRefund {
      task.RefundQuota(id, db);
    }
    found := true;
  }

  /** The two steps of a notification after it is read. */
  lemma NoticeTaken(w: World, id: Id, item: Item)
    requires w.workers == map[] && id in w.rows
    ensures var read := Next(w, Receive(0, id));
            var next := Notified(w.rows[id], item);
            && Holds(read, 0, id) && Next(read, Notify(0, id, item)) == World(w.rows[id := next],
                 map[0 := Worker(map[id := next], {id}, if Failed(item) && next.quota > 0 then Some(Debt(id, next.quota)) else None, true)],
                 w.credits)
  {
    var read := Next(w, Receive(0, id));
    assert read.workers == map[0 := Worker(map[id := w.rows[id]], {}, None, true)];
    var p := read.workers[0];
    assert p.judged + {id} == {id} && p.tasks[id := Notified(w.rows[id], item)] == map[id := Notified(w.rows[id], item)];
  }

  lemma NoticeSteps(w: World, id: Id, item: Item)
    requires w.workers == map[]
    ensures var w' := Run(w, [Receive(0, id), Notify(0, id, item), Refund(0)]);
            if id !in w.rows then w' == w
            else
              var next := Notified(w.rows[id], item);
              var b := Books(w.rows[id := next], w.credits, next);
              var paid := if Failed(item) && next.quota > 0 then PayBack(b, id, next.quota) else b;
              w'.rows == paid.rows && w'.credits == paid.credits
  {
    assert [Receive(0, id), Notify(0, id, item), Refund(0)] == [Receive(0, id)] + [Notify(0, id, item)] + [Refund(0)];
    RunSnoc(w, [], Receive(0, id));
    assert [] + [Receive(0, id)] == [Receive(0, id)];
    RunSnoc(w, [Receive(0, id)], Notify(0, id, item));
    RunSnoc(w, [Receive(0, id)] + [Notify(0, id, item)], Refund(0));
    if id in w.rows {
      NoticeTaken(w, id, item);
    }
  }
}
