/** Pollers that update Midjourney tasks by compare-and-set and give back the quota of failed ones. */
module Midjourney {
  import opened Basics

  datatype Status = Failure | Status(text: string)       // "FAILURE", any other text

  datatype Progress = Done | Progress(text: string)      // "100%", any other text

  const TIMEOUT_MS := 3600000
  const TIMEOUT_REASON := "上游任务超时（超过1小时）"

  /** The fields that are compared and copied and play no other part. */
  datatype Info = Info(promptEn: string, state: string, submitTime: int, startTime: int, finishTime: int,
                       imageUrl: string, videoUrl: string, videoUrls: string)

  datatype Task = Task(id: nat, mjId: string, userId: nat, channelId: nat, quota: int, code: int, status: Status,
                       progress: Progress, failReason: string, info: Info, buttons: string, properties: string)

  /** One element of the upstream's reply. */
  datatype Item = Item(mjId: string, status: Status, progress: Progress, failReason: string, info: Info,
                       buttons: Option<string>, properties: Option<string>)

  // ---------------------------------------------------------------- one reply

  /** The reply as it is taken: an unfinished task fails after an hour. */
  function Effective(task: Task, item: Item, now: int): Item {
    if now - task.info.submitTime > TIMEOUT_MS && task.progress != Done
    then item.(failReason := TIMEOUT_REASON, status := Failure) else item
  }

  /** checkMjTaskNeedUpdate */
  predicate NeedsUpdate(task: Task, item: Item) {
    || task.code != 1
    || task.progress != item.progress
    || task.info != item.info
    || task.status != item.status
    || task.failReason != item.failReason
    || (task.progress != Done && item.failReason != "")
  }

  predicate Fails(item: Item) {
    || (item.progress != Done && item.failReason != "")
    || (item.progress == Done && item.status == Failure)
  }

  function Written(task: Task, item: Item): Task {
    Task(task.id, task.mjId, task.userId, task.channelId, task.quota, 1, item.status,
         if Fails(item) then Done else item.progress, item.failReason, item.info,
         if item.buttons.Some? then item.buttons.value else task.buttons,
         if item.properties.Some? then item.properties.value else task.properties)
  }

  /** A skipped reply to an unfinished task fails nothing and would have changed nothing but the buttons and the
      properties, which are not compared. */
  lemma SkippingIsHarmless(task: Task, item: Item)
    requires task.progress != Done && !NeedsUpdate(task, item)
    ensures !Fails(item)
    ensures Written(task, item) ==
      task.(buttons := Written(task, item).buttons, properties := Written(task, item).properties)
  {
  }

  /** A task keeps its ids, its owner and its quota, takes everything else from the reply, and is finished exactly when
      the reply is or names a reason for a failure. */
  lemma WrittenIs(task: Task, item: Item)
    ensures var w := Written(task, item);
      && w.id == task.id && w.mjId == task.mjId && w.userId == task.userId && w.channelId == task.channelId
      && w.quota == task.quota && w.code == 1
      && w.status == item.status && w.failReason == item.failReason && w.info == item.info
      && (w.progress == Done <==> item.progress == Done || item.failReason != "")
      && (w.progress != Done ==> w.progress == item.progress)
      && w.buttons == (match item.buttons case Some(b) => b case None => task.buttons)
      && w.properties == (match item.properties case Some(b) => b case None => task.properties)
  {
  }

  /** A reply is skipped exactly when it reports no failure of an unfinished task and writing it would change nothing
      but the buttons and the properties. */
  lemma SkippedExactlyWhen(task: Task, item: Item)
    ensures !NeedsUpdate(task, item) <==>
      && (item.progress != Done ==> item.failReason == "")
      && Written(task, item).(buttons := task.buttons, properties := task.properties) == task
  {
  }

  /** A fail reason before the end means FAILURE, and FAILURE comes with a fail reason or with the end. */
  predicate Consistent(item: Item) {
    && (item.progress != Done && item.failReason != "" ==> item.status == Failure)
    && (item.status == Failure ==> item.failReason != "" || item.progress == Done)
  }

  /** What is written for a consistent reply is FAILURE exactly when the task is to be refunded, and then it is
      finished. */
  lemma ConsistentWrite(task: Task, item: Item)
    requires Consistent(item)
    ensures Written(task, item).status == Failure <==> Fails(item)
    ensures Written(task, item).status == Failure ==> Written(task, item).progress == Done
  {
  }

  // ---------------------------------------------------------------- the pollers

  /** One pass of a poller: the tasks as it holds them in memory, the replies its requests bring, one response after the
      other, how many of them it has handled, and the task it is about to refund. */
  datatype Poller = Poller(tasks: map<string, Task>, replies: seq<Item>, next: nat, pending: Option<Task>)

  datatype State = State(rows: map<nat, Task>, pollers: map<nat, Poller>, balances: map<nat, int>, refunded: seq<nat>)

  datatype Step =
    | Insert(task: Task)
    | Load(p: nat, order: seq<nat>, replies: seq<Item>)    // GetAllUnFinishTasks, in the order of the rows
    | BulkFail(ids: set<nat>, reason: Option<string>)      // MjBulkUpdate, MjBulkUpdateByTaskIds
    | Handle(p: nat, now: int, dbOk: bool)                 // the next reply, up to the update
    | Refund(p: nat, ok: bool)                             // the refund that follows a won update

  /** taskM: the tasks by their upstream id, the last one where two share it. */
  function ByMjId(rows: map<nat, Task>, order: seq<nat>): map<string, Task>
    requires forall i | 0 <= i < |order| :: order[i] in rows
  {
    if order == [] then map[] else
    var before, task := ByMjId(rows, order[..|order| - 1]), rows[order[|order| - 1]];
    if task.mjId == "" then before else before[task.mjId := task]
  }

  predicate Enabled(s: State, step: Step) {
    match step
    case Insert(task) => task.id !in s.rows && (task.status != Failure || task.progress == Done)
    case Load(p, order, _) =>
      && (p in s.pollers ==> s.pollers[p].pending.None?)
      && forall i | 0 <= i < |order| :: order[i] in s.rows && s.rows[order[i]].progress != Done
    case BulkFail(ids, _) => true
    case Handle(p, _, _) => p in s.pollers && s.pollers[p].pending.None? && s.pollers[p].next < |s.pollers[p].replies|
    case Refund(p, _) => p in s.pollers && s.pollers[p].pending.Some?
  }

  function FailedRow(task: Task, reason: Option<string>): Task {
    var t := task.(status := Failure, progress := Done);
    if reason.Some? then t.(failReason := reason.value) else t
  }

  function HandleItem(s: State, p: nat, item: Item, now: int, dbOk: bool): State
    requires p in s.pollers
  {
    var poller := s.pollers[p];
    if item.mjId !in poller.tasks then s else
    var task := poller.tasks[item.mjId];
    var reply := Effective(task, item, now);
    if !NeedsUpdate(task, reply) then s else
    var written := Written(task, reply);
    var won := dbOk && task.id in s.rows && s.rows[task.id].status == task.status;
    var pending := if won && Fails(reply) && written.quota != 0 then Some(written) else None;
    s.(rows := if won then s.rows[task.id := written] else s.rows,
       pollers := s.pollers[p := poller.(tasks := poller.tasks[item.mjId := written], pending := pending)])
  }

  /** What a reply does, in full.  It is late after an hour; it is passed over if it tells nothing new; otherwise the
      poller remembers it, the row takes it if it still has the status that the poller held, and a failure that was
      written is to be refunded. */
  lemma ReplyOutcome(s: State, p: nat, item: Item, now: int, dbOk: bool, task: Task, late: bool, status: Status,
                     reason: string, known: bool)
    requires p in s.pollers && item.mjId in s.pollers[p].tasks && task == s.pollers[p].tasks[item.mjId]
    requires late == (now - task.info.submitTime > 3600000 && task.progress != Done)
    requires status == (if late then Failure else item.status)
    requires reason == (if late then "上游任务超时（超过1小时）" else item.failReason)
    requires known == (&& task.code == 1 && task.progress == item.progress && task.info == item.info
                       && task.status == status && task.failReason == reason && (item.progress == Done || reason == ""))
    ensures known ==> HandleItem(s, p, item, now, dbOk) == s
    ensures !known ==> Outcome(s, HandleItem(s, p, item, now, dbOk), p, item, dbOk, task, status, reason)
  {
  }

  /** The task as it is remembered, the row that takes it, and the refund. */
  ghost predicate Outcome(s: State, t: State, p: nat, item: Item, dbOk: bool, task: Task, status: Status,
                          reason: string)
    requires p in s.pollers
  {
    var fails := if item.progress == Done then status == Failure else reason != "";
    var w := task.(code := 1, status := status, progress := if fails then Done else item.progress,
                   failReason := reason, info := item.info,
                   buttons := match item.buttons case Some(b) => b case None => task.buttons,
                   properties := match item.properties case Some(b) => b case None => task.properties);
    var won := dbOk && task.id in s.rows && s.rows[task.id].status == task.status;
    t == s.(rows := if won then s.rows[task.id := w] else s.rows,
            pollers := s.pollers[p := s.pollers[p].(
              tasks := s.pollers[p].tasks[item.mjId := w],
              pending := if won && fails && task.quota != 0 then Some(w) else None)])
  }

  /** A reply for a task that the poller does not hold does nothing. */
  lemma UnknownReply(s: State, p: nat, item: Item, now: int, dbOk: bool)
    requires p in s.pollers && item.mjId !in s.pollers[p].tasks
    ensures HandleItem(s, p, item, now, dbOk) == s
  {
  }

  function Advanced(s: State, p: nat): State
    requires p in s.pollers
  {
    s.(pollers := s.pollers[p := s.pollers[p].(next := s.pollers[p].next + 1)])
  }

  function Balance(balances: map<nat, int>, u: nat): int {
    if u in balances then balances[u] else 0
  }

  /** IncreaseUserQuota refuses a negative quota. */
  function PayBack(s: State, p: nat, ok: bool): State
    requires p in s.pollers && s.pollers[p].pending.Some?
  {
    var task := s.pollers[p].pending.value;
    var t := s.(pollers := s.pollers[p := s.pollers[p].(pending := None)]);
    if !ok || task.quota < 0 then t else
    t.(balances := s.balances[task.userId := Balance(s.balances, task.userId) + task.quota],
       refunded := s.refunded + [task.id])
  }

  function Apply(s: State, step: Step): State
    requires Enabled(s, step)
  {
    match step
    case Insert(task) => s.(rows := s.rows[task.id := task])
    case Load(p, order, replies) => s.(pollers := s.pollers[p := Poller(ByMjId(s.rows, order), replies, 0, None)])
    case BulkFail(ids, reason) =>
      s.(rows := map id | id in s.rows :: if id in ids then FailedRow(s.rows[id], reason) else s.rows[id])
    case Handle(p, now, dbOk) => HandleItem(Advanced(s, p), p, s.pollers[p].replies[s.pollers[p].next], now, dbOk)
    case Refund(p, ok) => PayBack(s, p, ok)
  }

  /** A bulk update fails the rows with the given ids and finishes them, and touches nothing else. */
  lemma BulkFailIs(s: State, ids: set<nat>, reason: Option<string>)
    ensures var t := Apply(s, BulkFail(ids, reason));
      && t.pollers == s.pollers && t.balances == s.balances && t.refunded == s.refunded
      && t.rows.Keys == s.rows.Keys
      && forall id | id in s.rows ::
           t.rows[id] == if id !in ids then s.rows[id] else
             s.rows[id].(status := Failure, progress := Done,
                         failReason := match reason case Some(r) => r case None => s.rows[id].failReason)
  {
  }

  // ---------------------------------------------------------------- replies that can be trusted

  /** What a later reply for the task of an earlier one may be: the same failure again.  Since the earlier reply may
      come after the timeout, the failure is the one that a timeout writes. */
  predicate Repeats(earlier: Item, later: Item) {
    && later.progress == Done && later.status == Failure && later.info == earlier.info
    && later.failReason == TIMEOUT_REASON
    && (Fails(earlier) ==> earlier.failReason == TIMEOUT_REASON)
  }

  /** The replies of one pass; those with an empty id reach no task. */
  ghost predicate Trustworthy(replies: seq<Item>) {
    && (forall i | 0 <= i < |replies| && replies[i].mjId != "" :: Consistent(replies[i]))
    && (forall i, j | 0 <= i < j < |replies| && replies[i].mjId == replies[j].mjId != "" ::
          Repeats(replies[i], replies[j]))
  }

  // ---------------------------------------------------------------- what every step keeps

  /** A failed row is finished, so no poller loads it. */
  ghost predicate RowsOk(rows: map<nat, Task>) {
    forall id | id in rows :: rows[id].id == id && (rows[id].status == Failure ==> rows[id].progress == Done)
  }

  ghost predicate SameOwner(rows: map<nat, Task>, t: Task) {
    t.id in rows && rows[t.id].quota == t.quota && rows[t.id].userId == t.userId
  }

  /** A task that the poller holds as failed is finished, and no reply still to come touches it again. */
  ghost predicate SnapshotsOk(rows: map<nat, Task>, poller: Poller) {
    && Trustworthy(poller.replies)
    && forall m | m in poller.tasks ::
         m != "" && SameOwner(rows, poller.tasks[m]) && (poller.tasks[m].status == Failure ==> Closed(poller, m))
  }

  ghost predicate Closed(poller: Poller, m: string)
    requires m in poller.tasks
  {
    && poller.tasks[m].progress == Done
    && forall j | poller.next <= j < |poller.replies| && poller.replies[j].mjId == m ::
         !NeedsUpdate(poller.tasks[m], poller.replies[j])
  }

  ghost predicate Owed(rows: map<nat, Task>, t: Task) {
    SameOwner(rows, t) && rows[t.id].status == Failure && t.quota != 0
  }

  ghost predicate PollersOk(s: State) {
    forall p | p in s.pollers ::
      SnapshotsOk(s.rows, s.pollers[p]) && (s.pollers[p].pending.Some? ==> Owed(s.rows, s.pollers[p].pending.value))
  }

  /** No task is refunded twice: not in the past, not by two pollers, not again. */
  ghost predicate RefundsOnce(s: State) {
    && (forall i, j | 0 <= i < j < |s.refunded| :: s.refunded[i] != s.refunded[j])
    && (forall p | p in s.pollers && s.pollers[p].pending.Some? :: s.pollers[p].pending.value.id !in s.refunded)
    && (forall p, q | p in s.pollers && q in s.pollers && p != q ::
          s.pollers[p].pending.Some? && s.pollers[q].pending.Some? ==>
            s.pollers[p].pending.value.id != s.pollers[q].pending.value.id)
  }

  ghost predicate RefundsDue(s: State) {
    forall id | id in s.refunded :: id in s.rows && s.rows[id].status == Failure && s.rows[id].quota > 0
  }

  /** The quotas given back to a user. */
  function GivenBack(rows: map<nat, Task>, refunded: seq<nat>, u: nat): int {
    if refunded == [] then 0 else
    var id := refunded[|refunded| - 1];
    GivenBack(rows, refunded[..|refunded| - 1], u) + if id in rows && rows[id].userId == u then rows[id].quota else 0
  }

  ghost predicate BalancesOk(s: State, initial: map<nat, int>) {
    forall u :: Balance(s.balances, u) == Balance(initial, u) + GivenBack(s.rows, s.refunded, u)
  }

  ghost predicate Inv(s: State, initial: map<nat, int>) {
    RowsOk(s.rows) && PollersOk(s) && RefundsOnce(s) && RefundsDue(s) && BalancesOk(s, initial)
  }

  /** Rows keep their owners and quotas, and failed rows stay failed. */
  ghost predicate RowsKept(before: map<nat, Task>, after: map<nat, Task>) {
    forall id | id in before ::
      && id in after && after[id].quota == before[id].quota && after[id].userId == before[id].userId
      && (before[id].status == Failure ==> after[id].status == Failure)
  }

  lemma {:induction false} GivenBackKept(before: map<nat, Task>, after: map<nat, Task>, refunded: seq<nat>, u: nat)
    requires RowsKept(before, after) && forall i | 0 <= i < |refunded| :: refunded[i] in before
    ensures GivenBack(before, refunded, u) == GivenBack(after, refunded, u)
  {
    if refunded != [] { GivenBackKept(before, after, refunded[..|refunded| - 1], u); }
  }

  /** Changing rows alone. */
  lemma RowChangeKept(s: State, t: State, initial: map<nat, int>)
    requires Inv(s, initial) && RowsKept(s.rows, t.rows) && RowsOk(t.rows)
    requires t.pollers == s.pollers && t.balances == s.balances && t.refunded == s.refunded
    ensures Inv(t, initial)
  {
    forall u ensures Balance(t.balances, u) == Balance(initial, u) + GivenBack(t.rows, t.refunded, u) {
      GivenBackKept(s.rows, t.rows, s.refunded, u);
    }
    forall p | p in t.pollers ensures SnapshotsOk(t.rows, t.pollers[p]) {
      assert SnapshotsOk(s.rows, s.pollers[p]);
    }
  }

  lemma {:induction false} ByMjIdTasks(rows: map<nat, Task>, order: seq<nat>)
    requires RowsOk(rows) && forall i | 0 <= i < |order| :: order[i] in rows && rows[order[i]].progress != Done
    ensures forall m | m in ByMjId(rows, order) ::
      var t := ByMjId(rows, order)[m]; t.id in rows && rows[t.id] == t && t.mjId == m != "" && t.progress != Done
  {
    if order != [] { ByMjIdTasks(rows, order[..|order| - 1]); }
  }

  lemma LoadKept(s: State, step: Step, initial: map<nat, int>)
    requires Inv(s, initial) && step.Load? && Enabled(s, step) && Trustworthy(step.replies)
    ensures Inv(Apply(s, step), initial)
  {
    ByMjIdTasks(s.rows, step.order);
    var t := Apply(s, step);
    forall p | p in t.pollers ensures SnapshotsOk(t.rows, t.pollers[p]) {
      if p != step.p { assert SnapshotsOk(s.rows, s.pollers[p]); }
    }
  }

  /** A poller that changes without a refund in hand. */
  lemma PollerChangeKept(s: State, t: State, p: nat, initial: map<nat, int>)
    requires Inv(s, initial) && p in s.pollers && s.pollers[p].pending.None?
    requires p in t.pollers && t == s.(pollers := s.pollers[p := t.pollers[p]])
    requires SnapshotsOk(s.rows, t.pollers[p])
    requires t.pollers[p].pending.Some? ==>
      Owed(s.rows, t.pollers[p].pending.value) && t.pollers[p].pending.value.id !in s.refunded
    requires t.pollers[p].pending.Some? ==>
      forall q | q in s.pollers && s.pollers[q].pending.Some? ::
        s.pollers[q].pending.value.id != t.pollers[p].pending.value.id
    ensures Inv(t, initial)
  {
  }

  /** A consistent reply that fails a task closes it for the rest of a trustworthy pass. */
  lemma FailureCloses(poller: Poller, task: Task, item: Item, now: int)
    requires Trustworthy(poller.replies) && 1 <= poller.next <= |poller.replies|
    requires item == poller.replies[poller.next - 1]
    requires item.mjId != "" && item.mjId in poller.tasks
    requires poller.tasks[item.mjId] == Written(task, Effective(task, item, now))
    requires poller.tasks[item.mjId].status == Failure
    ensures Closed(poller, item.mjId)
  {
    assert Consistent(item);
    ConsistentWrite(task, Effective(task, item, now));
    forall j | poller.next <= j < |poller.replies| && poller.replies[j].mjId == item.mjId
      ensures !NeedsUpdate(poller.tasks[item.mjId], poller.replies[j])
    {
      assert Repeats(item, poller.replies[j]);
    }
  }

  lemma HandledSnapshots(s: State, step: Step, rows: map<nat, Task>)
    requires step.Handle? && Enabled(s, step) && SnapshotsOk(s.rows, s.pollers[step.p]) && RowsKept(s.rows, rows)
    ensures SnapshotsOk(rows, Apply(s, step).pollers[step.p])
  {
    var before, after := s.pollers[step.p], Apply(s, step).pollers[step.p];
    var item := before.replies[before.next];
    forall m | m in after.tasks
      ensures m != "" && SameOwner(rows, after.tasks[m]) && (after.tasks[m].status == Failure ==> Closed(after, m))
    {
      assert m in before.tasks && (before.tasks[m].status == Failure ==> Closed(before, m));
      if m == item.mjId && after.tasks[m] != before.tasks[m] && after.tasks[m].status == Failure {
        FailureCloses(after, before.tasks[m], item, step.now);
      }
    }
  }

  lemma HandleKept(s: State, step: Step, initial: map<nat, int>)
    requires Inv(s, initial) && step.Handle? && Enabled(s, step)
    ensures Inv(Apply(s, step), initial)
  {
    var p, t := step.p, Apply(s, step);
    HandledRows(s, step);
    HandledShape(s, step);
    RowChangeKept(s, s.(rows := t.rows), initial);
    HandledSnapshots(s, step, t.rows);
    RefundNew(s, t, p);
    PollerChangeKept(s.(rows := t.rows), t, p, initial);
  }

  /** A reply touches rows and its own poller only. */
  lemma HandledShape(s: State, step: Step)
    requires step.Handle? && Enabled(s, step)
    ensures var t := Apply(s, step);
      step.p in t.pollers && t == s.(rows := t.rows, pollers := s.pollers[step.p := t.pollers[step.p]])
  {
    var poller, p := s.pollers[step.p], step.p;
    var s' := Advanced(s, p);
    var t := HandleItem(s', p, poller.replies[poller.next], step.now, step.dbOk);
    assert s'.pollers[p := t.pollers[p]] == s.pollers[p := t.pollers[p]];
    assert t.pollers == s'.pollers[p := t.pollers[p]];
  }

  /** A refund for a row that had not failed is in nobody's hands yet. */
  lemma RefundNew(s: State, t: State, p: nat)
    requires PollersOk(s) && RefundsDue(s) && p in t.pollers
    requires t.pollers[p].pending.Some? ==>
      t.pollers[p].pending.value.id in s.rows && s.rows[t.pollers[p].pending.value.id].status != Failure
    ensures t.pollers[p].pending.Some? ==> t.pollers[p].pending.value.id !in s.refunded
    ensures t.pollers[p].pending.Some? ==>
      forall q | q in s.pollers && s.pollers[q].pending.Some? ::
        s.pollers[q].pending.value.id != t.pollers[p].pending.value.id
  {
  }

  /** The update of a reply moves a row that has not failed, and fails it exactly when a refund is due. */
  lemma HandledRows(s: State, step: Step)
    requires step.Handle? && Enabled(s, step) && RowsOk(s.rows) && SnapshotsOk(s.rows, s.pollers[step.p])
    ensures var t := Apply(s, step); var pending := t.pollers[step.p].pending;
      && RowsOk(t.rows) && RowsKept(s.rows, t.rows)
      && (pending.Some? ==>
            Owed(t.rows, pending.value) && pending.value.id in s.rows && s.rows[pending.value.id].status != Failure)
  {
    var poller := s.pollers[step.p];
    var item := poller.replies[poller.next];
    if item.mjId in poller.tasks {
      var task := poller.tasks[item.mjId];
      assert SameOwner(s.rows, task) && (task.status == Failure ==> Closed(poller, item.mjId));
      assert Consistent(item);
      ConsistentWrite(task, Effective(task, item, step.now));
    }
  }

  /** Paying a refund in hand. */
  lemma PaidBalances(s: State, t: State, task: Task, initial: map<nat, int>)
    requires BalancesOk(s, initial) && Owed(s.rows, task) && t.rows == s.rows && t.refunded == s.refunded + [task.id]
    requires t.balances == s.balances[task.userId := Balance(s.balances, task.userId) + task.quota]
    ensures BalancesOk(t, initial)
  {
    assert t.refunded[..|t.refunded| - 1] == s.refunded;
  }

  lemma PaidOnce(s: State, t: State, p: nat)
    requires RefundsOnce(s) && p in s.pollers && s.pollers[p].pending.Some?
    requires t.pollers == s.pollers[p := s.pollers[p].(pending := None)]
    requires t.refunded == s.refunded + [s.pollers[p].pending.value.id] || t.refunded == s.refunded
    ensures RefundsOnce(t)
  {
  }

  lemma RefundKept(s: State, step: Step, initial: map<nat, int>)
    requires Inv(s, initial) && step.Refund? && Enabled(s, step)
    ensures Inv(Apply(s, step), initial)
  {
    var t, task := Apply(s, step), s.pollers[step.p].pending.value;
    PaidOnce(s, t, step.p);
    PaidPollers(s, t, step.p);
    if step.ok && task.quota >= 0 { PaidBalances(s, t, task, initial); }
  }

  lemma PaidPollers(s: State, t: State, p: nat)
    requires PollersOk(s) && p in s.pollers && t.rows == s.rows
    requires t.pollers == s.pollers[p := s.pollers[p].(pending := None)]
    ensures PollersOk(t)
  {
    forall q | q in t.pollers
      ensures SnapshotsOk(t.rows, t.pollers[q])
      ensures t.pollers[q].pending.Some? ==> Owed(t.rows, t.pollers[q].pending.value)
    {
      if q == p { UnpendingOk(s.rows, s.pollers[p]); } else { assert SnapshotsOk(s.rows, s.pollers[q]); }
    }
  }

  lemma UnpendingOk(rows: map<nat, Task>, poller: Poller)
    requires SnapshotsOk(rows, poller)
    ensures SnapshotsOk(rows, poller.(pending := None))
  {
    forall m | m in poller.tasks && poller.tasks[m].status == Failure ensures Closed(poller.(pending := None), m) {
      assert Closed(poller, m);
    }
  }

  /** Every step keeps the invariant, whatever the other pollers are doing. */
  lemma StepKept(s: State, step: Step, initial: map<nat, int>)
    requires Inv(s, initial) && Enabled(s, step) && (step.Load? ==> Trustworthy(step.replies))
    ensures Inv(Apply(s, step), initial)
  {
    match step
    case Insert(_) => RowChangeKept(s, Apply(s, step), initial);
    case Load(_, _, _) => LoadKept(s, step, initial);
    case BulkFail(_, _) => RowChangeKept(s, Apply(s, step), initial);
    case Handle(_, _, _) => HandleKept(s, step, initial);
    case Refund(_, _) => RefundKept(s, step, initial);
  }

  /** One more reply in the same pass for a task that was just failed and refunded: it leaves the task refunded once and
      failed exactly when it is the failure that was written, told again. */
  lemma RepeatedReplyExactlyWhen(s: State, p: nat, a: Item, b: Item, now: int, later: int)
    requires p in s.pollers && s.pollers[p].pending.None? && a.mjId in s.pollers[p].tasks && b.mjId == a.mjId
    requires Consistent(a) && Consistent(b)
    requires var task := s.pollers[p].tasks[a.mjId];
      && task.id in s.rows && s.rows[task.id].status == task.status && task.quota > 0 && task.progress != Done
      && Fails(Effective(task, a, now))
    ensures var task := s.pollers[p].tasks[a.mjId];
      var s1 := HandleItem(s, p, a, now, true);
      s1.pollers[p].pending.Some? &&
      var s2 := HandleItem(PayBack(s1, p, true), p, b, later, true);
      var s3 := if s2.pollers[p].pending.Some? then PayBack(s2, p, true) else s2;
      (s3.refunded == s.refunded + [task.id] && task.id in s3.rows && s3.rows[task.id].status == Failure <==>
        && b.progress == Done && b.status == Failure && b.info == a.info
        && b.failReason == Effective(task, a, now).failReason)
  {
    var task := s.pollers[p].tasks[a.mjId];
    var paid := PayBack(HandleItem(s, p, a, now, true), p, true);
    FirstRefund(s, p, a, now);
    SecondHandled(paid, p, Written(task, Effective(task, a, now)), b, later);
    assert [task.id] + [task.id] != [task.id];
    assert s.refunded + [task.id] + [task.id] != s.refunded + [task.id];
  }

  lemma FirstRefund(s: State, p: nat, a: Item, now: int)
    requires p in s.pollers && s.pollers[p].pending.None? && a.mjId in s.pollers[p].tasks && Consistent(a)
    requires var task := s.pollers[p].tasks[a.mjId];
      && task.id in s.rows && s.rows[task.id].status == task.status && task.quota > 0 && task.progress != Done
      && Fails(Effective(task, a, now))
    ensures var task := s.pollers[p].tasks[a.mjId]; var w := Written(task, Effective(task, a, now));
      var s1 := HandleItem(s, p, a, now, true);
      && s1.pollers[p].pending.Some? && w.status == Failure && w.progress == Done
      && var paid := PayBack(s1, p, true);
         && paid.refunded == s.refunded + [task.id] && a.mjId in paid.pollers[p].tasks
         && paid.pollers[p].tasks[a.mjId] == w && paid.pollers[p].pending.None?
         && task.id in paid.rows && paid.rows[task.id] == w
  {
    var task := s.pollers[p].tasks[a.mjId];
    ConsistentWrite(task, Effective(task, a, now));
  }

  /** A reply for a task that is held, and stored, as failed and finished. */
  lemma SecondHandled(s: State, p: nat, w: Task, b: Item, later: int)
    requires p in s.pollers && s.pollers[p].pending.None? && b.mjId in s.pollers[p].tasks
    requires s.pollers[p].tasks[b.mjId] == w
    requires w.id in s.rows && s.rows[w.id] == w && w.status == Failure && w.progress == Done && w.quota > 0
    requires w.code == 1
    requires Consistent(b)
    ensures var s2 := HandleItem(s, p, b, later, true);
      if !NeedsUpdate(w, b) then s2 == s
      else if Fails(b) then s2.pollers[p].pending.Some? && PayBack(s2, p, true).refunded == s.refunded + [w.id]
      else s2.pollers[p].pending.None? && s2.refunded == s.refunded && s2.rows[w.id].status != Failure
  {
    assert Effective(w, b, later) == b;
    ConsistentWrite(w, b);
  }

  // ---------------------------------------------------------------- runs

  ghost predicate Init(s: State) {
    s.pollers == map[] && s.refunded == [] && RowsOk(s.rows)
  }

  /** A run of any number of pollers against an upstream, given by the replies that a pass may bring. */
  ghost predicate Run(states: seq<State>, steps: seq<Step>, upstream: seq<Item> -> bool) {
    && |states| == |steps| + 1 && Init(states[0])
    && forall k {:trigger steps[k]} | 0 <= k < |steps| ::
         && Enabled(states[k], steps[k]) && states[k + 1] == Apply(states[k], steps[k])
         && (steps[k].Load? ==> upstream(steps[k].replies))
  }

  /** The clock does not go back. */
  ghost predicate Forward(steps: seq<Step>) {
    forall i, j | 0 <= i < j < |steps| && steps[i].Handle? && steps[j].Handle? :: steps[i].now <= steps[j].now
  }

  ghost predicate TrustworthyUpstream(upstream: seq<Item> -> bool) {
    forall replies | upstream(replies) :: Trustworthy(replies)
  }

  lemma {:induction false} RunInv(states: seq<State>, steps: seq<Step>, upstream: seq<Item> -> bool, k: nat)
    requires TrustworthyUpstream(upstream) && Run(states, steps, upstream) && k < |states|
    ensures Inv(states[k], states[0].balances)
  {
    if k > 0 {
      RunInv(states, steps, upstream, k - 1);
      StepKept(states[k - 1], steps[k - 1], states[0].balances);
    }
  }

  /** Each task was refunded at most once, only tasks that failed and had a quota were refunded, and each balance grew
      by exactly the refunds of its user. */
  ghost predicate RefundsRight(s: State, initial: map<nat, int>) {
    && (forall i, j | 0 <= i < j < |s.refunded| :: s.refunded[i] != s.refunded[j])
    && RefundsDue(s)
    && (forall u :: Balance(s.balances, u) == Balance(initial, u) + GivenBack(s.rows, s.refunded, u))
  }

  ghost predicate AlwaysRight(upstream: seq<Item> -> bool) {
    forall states: seq<State>, steps: seq<Step> | Run(states, steps, upstream) ::
      RefundsRight(states[|steps|], states[0].balances)
  }

  /** The same for the runs whose clock does not go back. */
  ghost predicate RightWhenForward(upstream: seq<Item> -> bool) {
    forall states: seq<State>, steps: seq<Step> | Run(states, steps, upstream) && Forward(steps) ::
      RefundsRight(states[|steps|], states[0].balances)
  }

  /** The refunds of every run of every number of pollers are right exactly when every pass brings trustworthy replies,
      whether the clock may go back or not. */
  lemma RefundsExactlyWhen(upstream: seq<Item> -> bool)
    ensures AlwaysRight(upstream) <==> TrustworthyUpstream(upstream)
    ensures RightWhenForward(upstream) <==> TrustworthyUpstream(upstream)
  {
    if TrustworthyUpstream(upstream) {
      forall states: seq<State>, steps: seq<Step> | Run(states, steps, upstream)
        ensures RefundsRight(states[|steps|], states[0].balances)
      {
        RunInv(states, steps, upstream, |steps|);
      }
    } else {
      var replies :| upstream(replies) && !Trustworthy(replies);
      var init, s, now := GoesWrong(replies, upstream);
      var states, steps :| RunUntil(states, steps, upstream, now) && states[0] == init && states[|steps|] == s;
      assert Run(states, steps, upstream) && Forward(steps);
    }
  }

  // ---------------------------------------------------------------- runs that go wrong

  /** A run up to a moment, with a clock that does not go back. */
  ghost predicate RunUntil(states: seq<State>, steps: seq<Step>, upstream: seq<Item> -> bool, now: int) {
    && Run(states, steps, upstream) && Forward(steps)
    && (forall k | 0 <= k < |steps| && steps[k].Handle? :: steps[k].now <= now)
    && forall k | 0 <= k < |steps| :: !steps[k].Insert?
  }

  ghost predicate Reachable(init: State, s: State, now: int, upstream: seq<Item> -> bool) {
    exists states, steps :: RunUntil(states, steps, upstream, now) && states[0] == init && states[|steps|] == s
  }

  lemma RunExtended(states: seq<State>, steps: seq<Step>, step: Step, upstream: seq<Item> -> bool)
    requires Run(states, steps, upstream) && Enabled(states[|steps|], step) && (step.Load? ==> upstream(step.replies))
    ensures Run(states + [Apply(states[|steps|], step)], steps + [step], upstream)
  {
    var states', steps' := states + [Apply(states[|steps|], step)], steps + [step];
    forall k | 0 <= k < |steps'|
      ensures Enabled(states'[k], steps'[k]) && states'[k + 1] == Apply(states'[k], steps'[k])
      ensures steps'[k].Load? ==> upstream(steps'[k].replies)
    {
      assert states'[k] == states[k];
      if k < |steps| { assert steps'[k] == steps[k] && states'[k + 1] == states[k + 1]; }
    }
  }

  lemma ForwardExtended(steps: seq<Step>, step: Step, now: int)
    requires Forward(steps) && (forall k | 0 <= k < |steps| && steps[k].Handle? :: steps[k].now <= now)
    requires step.Handle? ==> now <= step.now
    ensures Forward(steps + [step])
    ensures forall k | 0 <= k < |steps + [step]| && (steps + [step])[k].Handle? ::
      (steps + [step])[k].now <= if step.Handle? then step.now else now
  {
  }

  lemma ReachableStep(init: State, s: State, now: int, step: Step, upstream: seq<Item> -> bool)
    requires Reachable(init, s, now, upstream) && Enabled(s, step) && (step.Load? ==> upstream(step.replies))
    requires !step.Insert? && (step.Handle? ==> now <= step.now)
    ensures Reachable(init, Apply(s, step), if step.Handle? then step.now else now, upstream)
  {
    var states, steps :| RunUntil(states, steps, upstream, now) && states[0] == init && states[|steps|] == s;
    RunExtended(states, steps, step, upstream);
    ForwardExtended(steps, step, now);
    var states', steps' := states + [Apply(s, step)], steps + [step];
    assert RunUntil(states', steps', upstream, if step.Handle? then step.now else now);
    assert states'[0] == init && states'[|steps'|] == Apply(s, step);
  }

  /** One new task with quota 1. */
  function Start(mjId: string, info: Info, status: Status := Status("")): State {
    State(map[0 := Task(0, mjId, 0, 0, 1, 0, status, Progress("0%"), "", info, "", "")], map[], map[], [])
  }

  lemma Started(mjId: string, info: Info, now: int, upstream: seq<Item> -> bool, status: Status := Status(""))
    requires status != Failure
    ensures Reachable(Start(mjId, info, status), Start(mjId, info, status), now, upstream)
  {
    assert RunUntil([Start(mjId, info, status)], [], upstream, now);
  }

  /** A reply that the poller passes over. */
  predicate Ignores(tasks: map<string, Task>, item: Item) {
    item.mjId in tasks ==> tasks[item.mjId].progress == Done && !NeedsUpdate(tasks[item.mjId], item)
  }

  lemma {:induction false} PassesOver(init: State, s: State, p: nat, k: nat, now: int, upstream: seq<Item> -> bool)
    returns (t: State)
    requires Reachable(init, s, now, upstream) && p in s.pollers && s.pollers[p].pending.None?
    requires s.pollers[p].next <= k <= |s.pollers[p].replies|
    requires forall j | s.pollers[p].next <= j < k :: Ignores(s.pollers[p].tasks, s.pollers[p].replies[j])
    ensures Reachable(init, t, now, upstream) && t == s.(pollers := s.pollers[p := s.pollers[p].(next := k)])
    decreases k - s.pollers[p].next
  {
    if s.pollers[p].next == k {
      t := s;
      assert s.pollers[p := s.pollers[p].(next := k)] == s.pollers;
    } else {
      assert Ignores(s.pollers[p].tasks, s.pollers[p].replies[s.pollers[p].next]);
      ReachableStep(init, s, now, Handle(p, now, true), upstream);
      var s' := Advanced(s, p);
      t := PassesOver(init, s', p, k, now, upstream);
      assert s'.pollers[p := s'.pollers[p].(next := k)] == s.pollers[p := s.pollers[p].(next := k)];
    }
  }

  /** A pass that holds one task, before its reply number k. */
  function Holding(task: Task, replies: seq<Item>, k: nat): Poller {
    Poller(map[task.mjId := task], replies, k, None)
  }

  /** A new pass loads task 0 and comes to the first reply for it. */
  lemma ComesTo(init: State, s: State, p: nat, replies: seq<Item>, k: nat, now: int, upstream: seq<Item> -> bool)
    returns (t: State)
    requires Reachable(init, s, now, upstream) && p !in s.pollers && upstream(replies) && k <= |replies|
    requires 0 in s.rows && s.rows[0].mjId != "" && s.rows[0].progress != Done
    requires forall j | 0 <= j < k :: replies[j].mjId != s.rows[0].mjId
    ensures Reachable(init, t, now, upstream) && t == s.(pollers := s.pollers[p := Holding(s.rows[0], replies, k)])
  {
    var step := Load(p, [0], replies);
    ReachableStep(init, s, now, step, upstream);
    assert ByMjId(s.rows, [0][..0]) == map[];
    assert ByMjId(s.rows, [0]) == map[s.rows[0].mjId := s.rows[0]];
    var s' := Apply(s, step);
    t := PassesOver(init, s', p, k, now, upstream);
    assert s'.pollers[p := Holding(s.rows[0], replies, k)] == s.pollers[p := Holding(s.rows[0], replies, k)];
  }

  /** The poller holds one task, the next reply is for it and changes it, and the row still has its status. */
  ghost predicate Winning(s: State, p: nat, task: Task, now: int) {
    && p in s.pollers && s.pollers[p].next < |s.pollers[p].replies|
    && s.pollers[p] == Holding(task, s.pollers[p].replies, s.pollers[p].next)
    && task.id in s.rows && s.rows[task.id].status == task.status && task.quota != 0
    && var item := s.pollers[p].replies[s.pollers[p].next];
       item.mjId == task.mjId && NeedsUpdate(task, Effective(task, item, now))
  }

  function AfterWin(s: State, p: nat, task: Task, reply: Item): State
    requires p in s.pollers
  {
    var w := Written(task, reply);
    var poller := Holding(w, s.pollers[p].replies, s.pollers[p].next + 1);
    s.(rows := s.rows[task.id := w],
       pollers := s.pollers[p := poller.(pending := if Fails(reply) then Some(w) else None)])
  }

  lemma WinEffect(s: State, p: nat, task: Task, now: int)
    requires Winning(s, p, task, now)
    ensures var reply := Effective(task, s.pollers[p].replies[s.pollers[p].next], now);
      Apply(s, Handle(p, now, true)) == AfterWin(s, p, task, reply)
  {
    var poller, t := s.pollers[p], Apply(s, Handle(p, now, true));
    var w := Written(task, Effective(task, poller.replies[poller.next], now));
    assert map[task.mjId := task][task.mjId := w] == map[w.mjId := w];
    var last := Holding(w, poller.replies, poller.next + 1).(pending := t.pollers[p].pending);
    assert Advanced(s, p).pollers[p := last] == s.pollers[p := last];
  }

  /** The next reply wins its update. */
  lemma Wins(init: State, s: State, p: nat, task: Task, before: int, now: int, upstream: seq<Item> -> bool)
    returns (t: State)
    requires Reachable(init, s, before, upstream) && before <= now && Winning(s, p, task, now)
    ensures Reachable(init, t, now, upstream)
    ensures t == AfterWin(s, p, task, Effective(task, s.pollers[p].replies[s.pollers[p].next], now))
  {
    ReachableStep(init, s, before, Handle(p, now, true), upstream);
    WinEffect(s, p, task, now);
    t := Apply(s, Handle(p, now, true));
  }

  lemma Pays(init: State, s: State, p: nat, now: int, upstream: seq<Item> -> bool) returns (t: State)
    requires Reachable(init, s, now, upstream)
    requires p in s.pollers && s.pollers[p].pending.Some? && s.pollers[p].pending.value.quota > 0
    ensures Reachable(init, t, now, upstream)
    ensures t.rows == s.rows && t.refunded == s.refunded + [s.pollers[p].pending.value.id]
    ensures t.pollers == s.pollers[p := s.pollers[p].(pending := None)]
  {
    ReachableStep(init, s, now, Refund(p, true), upstream);
    t := Apply(s, Refund(p, true));
  }

  /** The reply number k is the first one for its task. */
  ghost predicate FirstFor(replies: seq<Item>, k: nat) {
    k < |replies| && replies[k].mjId != "" && forall j | 0 <= j < k :: replies[j].mjId != replies[k].mjId
  }

  /** A row of task 0 that a new pass would load for this reply. */
  ghost predicate Loadable(s: State, item: Item) {
    && 0 in s.rows && s.rows[0].id == 0 && s.rows[0].mjId == item.mjId && s.rows[0].progress != Done
    && s.rows[0].quota == 1
  }

  /** A pass whose first reply for task 0 fails it refunds it. */
  lemma PassRefunds(init: State, s: State, p: nat, replies: seq<Item>, k: nat, before: int, now: int,
                    upstream: seq<Item> -> bool)
    returns (t: State)
    requires Reachable(init, s, before, upstream) && before <= now
    requires upstream(replies) && FirstFor(replies, k) && p !in s.pollers && Loadable(s, replies[k])
    requires var reply := Effective(s.rows[0], replies[k], now); Fails(reply) && NeedsUpdate(s.rows[0], reply)
    ensures Reachable(init, t, now, upstream) && t.refunded == s.refunded + [0]
    ensures var w := Written(s.rows[0], Effective(s.rows[0], replies[k], now));
      t.rows == s.rows[0 := w] && t.pollers == s.pollers[p := Holding(w, replies, k + 1)]
  {
    var task := s.rows[0];
    t := ComesTo(init, s, p, replies, k, before, upstream);
    t := Wins(init, t, p, task, before, now, upstream);
    t := Pays(init, t, p, now, upstream);
    assert t.pollers[p] == Holding(t.rows[0], replies, k + 1);
    assert t.pollers == s.pollers[p := Holding(t.rows[0], replies, k + 1)];
  }

  /** A fail reason without FAILURE: the quota goes back for a task that is not marked as failed. */
  lemma RefundedUnfailed(replies: seq<Item>, k: nat, upstream: seq<Item> -> bool) returns (s: State, now: int)
    requires upstream(replies) && FirstFor(replies, k)
    requires replies[k].progress != Done && replies[k].failReason != "" && replies[k].status != Failure
    ensures var init := Start(replies[k].mjId, replies[k].info);
      Reachable(init, s, now, upstream) && s.refunded == [0] && 0 in s.rows && s.rows[0].status != Failure
  {
    var init := Start(replies[k].mjId, replies[k].info);
    now := replies[k].info.submitTime;
    Started(replies[k].mjId, replies[k].info, now, upstream);
    s := ComesTo(init, init, 0, replies, k, now, upstream);
    s := Wins(init, s, 0, init.rows[0], now, now, upstream);
    s := Pays(init, s, 0, now, upstream);
  }

  /** FAILURE without a fail reason before the end: the task is loaded again as unfinished, and when it times out two
      pollers refund it. */
  lemma RefundedTwice(replies: seq<Item>, k: nat, upstream: seq<Item> -> bool) returns (s: State, late: int)
    requires upstream(replies) && FirstFor(replies, k)
    requires replies[k].progress != Done && replies[k].failReason == "" && replies[k].status == Failure
    ensures Reachable(Start(replies[k].mjId, replies[k].info), s, late, upstream) && s.refunded == [0, 0]
  {
    var init := Start(replies[k].mjId, replies[k].info);
    var now := replies[k].info.submitTime;
    late := now + TIMEOUT_MS + 1;
    Started(replies[k].mjId, replies[k].info, now, upstream);
    s := ComesTo(init, init, 0, replies, k, now, upstream);
    s := Wins(init, s, 0, init.rows[0], now, now, upstream);
    s := BothRefund(init, s, replies, k, now, late, upstream);
  }

  /** Two new pollers load the same unfinished task, and both give it back when it is late: its status does not
      change. */
  lemma BothRefund(init: State, s: State, replies: seq<Item>, k: nat, now: int, late: int, upstream: seq<Item> -> bool)
    returns (t: State)
    requires Reachable(init, s, now, upstream) && now <= late && upstream(replies) && FirstFor(replies, k)
    requires Loadable(s, replies[k]) && s.rows[0].status == Failure && s.refunded == [] && 1 !in s.pollers
    requires 2 !in s.pollers
    requires late - s.rows[0].info.submitTime > TIMEOUT_MS && replies[k].progress != Done
    ensures Reachable(init, t, late, upstream) && t.refunded == [0, 0]
  {
    var task := s.rows[0];
    t := ComesTo(init, s, 1, replies, k, now, upstream);
    t := ComesTo(init, t, 2, replies, k, now, upstream);
    t := BothWin(init, t, task, now, late, upstream);
    t := Pays(init, t, 1, late, upstream);
    t := Pays(init, t, 2, late, upstream);
  }

  /** The first update leaves the status as it was, so the second one wins too. */
  lemma BothWin(init: State, s: State, task: Task, now: int, late: int, upstream: seq<Item> -> bool) returns (t: State)
    requires Reachable(init, s, now, upstream) && now <= late && Winning(s, 1, task, late) && Winning(s, 2, task, late)
    requires task.status == Failure && late - task.info.submitTime > TIMEOUT_MS && task.progress != Done
    requires s.pollers[1].replies[s.pollers[1].next].progress != Done
    requires s.pollers[2].replies[s.pollers[2].next].progress != Done
    ensures Reachable(init, t, late, upstream) && t.refunded == s.refunded && 1 in t.pollers && 2 in t.pollers
    ensures t.pollers[1].pending.Some? && t.pollers[1].pending.value.id == task.id
    ensures t.pollers[1].pending.value.quota == task.quota
    ensures t.pollers[2].pending.Some? && t.pollers[2].pending.value.id == task.id
    ensures t.pollers[2].pending.value.quota == task.quota
  {
    t := Wins(init, s, 1, task, now, late, upstream);
    t := Wins(init, t, 2, task, late, late, upstream);
  }

  /** The moment at which a reply with this submit time counts as late, or not. */
  function Moments(info: Info, late: bool): int {
    if late then info.submitTime + TIMEOUT_MS + 1 else info.submitTime
  }

  /** The first reply for a task that refunds it, either because it comes late or because it is a failure itself. */
  lemma FirstReplyRefunds(replies: seq<Item>, k: nat, late: bool, upstream: seq<Item> -> bool) returns (s: State)
    requires upstream(replies) && FirstFor(replies, k) && Consistent(replies[k]) && (late || Fails(replies[k]))
    ensures var item := replies[k];
      var reply := if late then item.(failReason := TIMEOUT_REASON, status := Failure) else item;
      var init := Start(item.mjId, item.info); var w := Written(init.rows[0], reply);
      && Reachable(init, s, Moments(item.info, late), upstream) && s.refunded == [0]
      && s.rows == map[0 := w] && s.pollers == map[0 := Holding(w, replies, k + 1)]
  {
    var init := Start(replies[k].mjId, replies[k].info);
    var now := Moments(replies[k].info, late);
    Started(replies[k].mjId, replies[k].info, now, upstream);
    s := PassRefunds(init, init, 0, replies, k, now, now, upstream);
    assert s.rows == map[0 := s.rows[0]] && s.pollers == map[0 := s.pollers[0]];
  }

  /** A later reply of the same pass that is not the same failure again: the task is refunded twice, or is no longer
      failed. */
  lemma RepeatGoesWrong(replies: seq<Item>, k: nat, j: nat, upstream: seq<Item> -> bool) returns (s: State, now: int)
    requires upstream(replies) && FirstFor(replies, k) && Consistent(replies[k])
    requires k < j < |replies| && replies[j].mjId == replies[k].mjId && !Repeats(replies[k], replies[j])
    requires forall i | k < i < j && replies[i].mjId == replies[k].mjId :: Repeats(replies[k], replies[i])
    ensures Reachable(Start(replies[k].mjId, replies[k].info), s, now, upstream)
    ensures s.refunded == [0, 0] || (s.refunded == [0] && 0 in s.rows && s.rows[0].status != Failure)
  {
    var a, b := replies[k], replies[j];
    var init := Start(a.mjId, a.info);
    var late := !(b.progress == Done && b.status == Failure && b.info == a.info && b.failReason == TIMEOUT_REASON);
    s := FirstReplyRefunds(replies, k, late, upstream);
    var w := s.rows[0];
    now := Moments(a.info, late);
    s := PassesOver(init, s, 0, j, now, upstream);
    s, now := SecondReply(init, s, w, replies, k, j, now, upstream);
  }

  /** A reply for a task that was failed and refunded before in the same pass, and that it would change. */
  lemma SecondReply(init: State, s: State, w: Task, replies: seq<Item>, k: nat, j: nat, now: int,
                    upstream: seq<Item> -> bool)
    returns (t: State, late: int)
    requires Reachable(init, s, now, upstream) && upstream(replies) && FirstFor(replies, k)
    requires k < j < |replies| && replies[j].mjId == replies[k].mjId == w.mjId && NeedsUpdate(w, replies[j])
    requires w.id == 0 && w.status == Failure && w.progress == Done && w.quota == 1
    requires s.refunded == [0] && s.rows == map[0 := w] && s.pollers == map[0 := Holding(w, replies, j)]
    ensures Reachable(init, t, late, upstream)
    ensures t.refunded == [0, 0] || (t.refunded == [0] && 0 in t.rows && t.rows[0].status != Failure)
  {
    t := Wins(init, s, 0, w, now, now, upstream);
    late := now;
    if Fails(replies[j]) {
      t := Pays(init, t, 0, now, upstream);
    } else if replies[j].status == Failure {
      var timeout := Moments(t.rows[0].info, true);
      late := if timeout < now then now else timeout;
      t := PassRefunds(init, t, 1, replies, k, now, late, upstream);
    }
  }

  /** Two passes of replies that are consistent and yet not trustworthy: an unfinished reply that comes twice, and a
      failure with a reason of its own that comes twice. */
  lemma RepeatExamples(item: Item)
    requires item.mjId != "" && Consistent(item) && (item.progress != Done || item.failReason != TIMEOUT_REASON)
    ensures !Trustworthy([item, item])
  {
    var replies := [item, item];
    assert replies[0].mjId == replies[1].mjId && !Repeats(replies[0], replies[1]);
  }

  lemma {:induction false} FirstOf(replies: seq<Item>, i: nat) returns (k: nat)
    requires i < |replies| && replies[i].mjId != ""
    ensures k <= i && replies[k].mjId == replies[i].mjId && FirstFor(replies, k)
  {
    k := i;
    if j: nat :| j < i && replies[j].mjId == replies[i].mjId { k := FirstOf(replies, j); }
  }

  lemma {:induction false} FirstBadRepeat(replies: seq<Item>, k: nat, i: nat) returns (j: nat)
    requires k < i < |replies| && replies[i].mjId == replies[k].mjId && !Repeats(replies[k], replies[i])
    ensures k < j <= i && replies[j].mjId == replies[k].mjId && !Repeats(replies[k], replies[j])
    ensures forall x | k < x < j && replies[x].mjId == replies[k].mjId :: Repeats(replies[k], replies[x])
  {
    j := i;
    if x: nat :| k < x < i && replies[x].mjId == replies[k].mjId && !Repeats(replies[k], replies[x]) {
      j := FirstBadRepeat(replies, k, x);
    }
  }

  /** In replies that are not trustworthy some first reply is inconsistent, or some later one does not repeat it. */
  lemma WhatIsWrong(replies: seq<Item>) returns (k: nat, j: nat)
    requires !Trustworthy(replies)
    ensures FirstFor(replies, k)
    ensures Consistent(replies[k]) ==>
      && k < j < |replies| && replies[j].mjId == replies[k].mjId && !Repeats(replies[k], replies[j])
      && forall x | k < x < j && replies[x].mjId == replies[k].mjId :: Repeats(replies[k], replies[x])
  {
    var i: nat;
    if y: nat :| y < |replies| && replies[y].mjId != "" && !Consistent(replies[y]) {
      i, j := y, y;
    } else {
      i, j :| 0 <= i < j < |replies| && replies[i].mjId == replies[j].mjId != "" && !Repeats(replies[i], replies[j]);
    }
    k := FirstOf(replies, i);
    if Consistent(replies[k]) {
      if i < j && Repeats(replies[k], replies[j]) { j := i; }
      j := FirstBadRepeat(replies, k, j);
    }
  }

  /** Whenever the replies of a pass are not trustworthy some run refunds wrongly. */
  lemma GoesWrong(replies: seq<Item>, upstream: seq<Item> -> bool) returns (init: State, s: State, now: int)
    requires upstream(replies) && !Trustworthy(replies)
    ensures Reachable(init, s, now, upstream) && !RefundsRight(s, init.balances)
  {
    var k, j := WhatIsWrong(replies);
    init := Start(replies[k].mjId, replies[k].info);
    if Consistent(replies[k]) {
      s, now := RepeatGoesWrong(replies, k, j, upstream);
    } else if replies[k].status == Failure {
      s, now := RefundedTwice(replies, k, upstream);
    } else {
      s, now := RefundedUnfailed(replies, k, upstream);
    }
    assert s.refunded == [0, 0] ==> s.refunded[0] == s.refunded[1];
    assert s.refunded == [0] ==> 0 in s.refunded;
  }

  // ---------------------------------------------------------------- the pass as it is programmed

  function NullIds(rows: map<nat, Task>, order: seq<nat>): seq<nat>
    requires forall i | 0 <= i < |order| :: order[i] in rows
  {
    if order == [] then [] else
    NullIds(rows, order[..|order| - 1]) + if rows[order[|order| - 1]].mjId == "" then [order[|order| - 1]] else []
  }

  /** The upstream ids asked for in one channel. */
  function IdsOf(rows: map<nat, Task>, order: seq<nat>, channel: nat): seq<string>
    requires forall i | 0 <= i < |order| :: order[i] in rows
  {
    if order == [] then [] else
    var task := rows[order[|order| - 1]];
    IdsOf(rows, order[..|order| - 1], channel) +
    if task.mjId != "" && task.channelId == channel then [task.mjId] else []
  }

  /** The channels that have ids to ask for, each with its ids. */
  ghost predicate Grouped(rows: map<nat, Task>, order: seq<nat>, channels: map<nat, seq<string>>)
    requires forall i | 0 <= i < |order| :: order[i] in rows
  {
    && (forall c: nat :: IdsOf(rows, order, c) == if c in channels then channels[c] else [])
    && (forall c | c in channels :: channels[c] != [])
  }

  /** A pass holds a task for each upstream id that a loaded task has. */
  lemma {:induction false} HeldTasks(rows: map<nat, Task>, order: seq<nat>, m: string)
    requires forall i | 0 <= i < |order| :: order[i] in rows
    ensures m in ByMjId(rows, order) <==> m != "" && exists i :: 0 <= i < |order| && rows[order[i]].mjId == m
  {
    if order != [] {
      var init := order[..|order| - 1];
      HeldTasks(rows, init, m);
      if i :| 0 <= i < |init| && rows[init[i]].mjId == m { assert rows[order[i]].mjId == m; }
      if i :| 0 <= i < |order| && rows[order[i]].mjId == m { assert i < |init| ==> rows[init[i]].mjId == m; }
    }
  }

  /** Of several tasks with the same id it holds the last one. */
  lemma {:induction false} LastHeld(rows: map<nat, Task>, order: seq<nat>, i: nat)
    requires (forall j | 0 <= j < |order| :: order[j] in rows) && i < |order| && rows[order[i]].mjId != ""
    requires forall j | i < j < |order| :: rows[order[j]].mjId != rows[order[i]].mjId
    ensures rows[order[i]].mjId in ByMjId(rows, order)
    ensures ByMjId(rows, order)[rows[order[i]].mjId] == rows[order[i]]
  {
    if i < |order| - 1 { LastHeld(rows, order[..|order| - 1], i); }
  }

  /** The nameless tasks, in the order of the rows. */
  lemma {:induction false} NullIdsAre(rows: map<nat, Task>, order: seq<nat>) returns (idx: seq<nat>)
    requires forall i | 0 <= i < |order| :: order[i] in rows
    ensures KeptInOrder(order, (id: nat) => id in rows && rows[id].mjId == "", (id: nat) => id,
                        NullIds(rows, order), idx)
  {
    idx := [];
    if order != [] {
      var init, last := order[..|order| - 1], order[|order| - 1];
      idx := NullIdsAre(rows, init);
      assert order == init + [last];
      var keep, make, ids := (id: nat) => id in rows && rows[id].mjId == "", (id: nat) => id, NullIds(rows, init);
      if rows[last].mjId == "" {
        InOrderTakes(init, last, keep, make, ids, idx);
        idx := idx + [|init|];
      } else {
        InOrderPasses(init, last, keep, make, ids, idx);
      }
    }
  }

  /** The ids of a channel, in the order of the rows. */
  lemma {:induction false} ChannelIdsAre(rows: map<nat, Task>, order: seq<nat>, channel: nat) returns (idx: seq<nat>)
    requires forall i | 0 <= i < |order| :: order[i] in rows
    ensures KeptInOrder(order, (id: nat) => id in rows && rows[id].mjId != "" && rows[id].channelId == channel,
                      (id: nat) => if id in rows then rows[id].mjId else "", IdsOf(rows, order, channel), idx)
  {
    idx := [];
    if order != [] {
      var init, last := order[..|order| - 1], order[|order| - 1];
      idx := ChannelIdsAre(rows, init, channel);
      assert order == init + [last];
      var keep := (id: nat) => id in rows && rows[id].mjId != "" && rows[id].channelId == channel;
      var make, ids := (id: nat) => if id in rows then rows[id].mjId else "", IdsOf(rows, init, channel);
      if rows[last].mjId != "" && rows[last].channelId == channel {
        InOrderTakes(init, last, keep, make, ids, idx);
        idx := idx + [|init|];
      } else {
        InOrderPasses(init, last, keep, make, ids, idx);
      }
    }
  }

  /** The grouping loop: every unfinished task is either failed as nameless or asked for in its channel. */
  method Group(rows: map<nat, Task>, order: seq<nat>)
    returns (taskM: map<string, Task>, channels: map<nat, seq<string>>, nullIds: seq<nat>)
    requires forall i | 0 <= i < |order| :: order[i] in rows
    ensures taskM == ByMjId(rows, order) && nullIds == NullIds(rows, order)
    ensures Grouped(rows, order, channels)
  {
    taskM, channels, nullIds := map[], map[], [];
    for i := 0 to |order|
      invariant taskM == ByMjId(rows, order[..i]) && nullIds == NullIds(rows, order[..i])
      invariant Grouped(rows, order[..i], channels)
    {
      assert order[..i + 1][..i] == order[..i];
      var task := rows[order[i]];
      if task.mjId == "" {
        nullIds := nullIds + [order[i]];
      } else {
        taskM := taskM[task.mjId := task];
        var before := if task.channelId in channels then channels[task.channelId] else [];
        channels := channels[task.channelId := before + [task.mjId]];
      }
    }
    assert order[..|order|] == order;
  }

  /** What the clock and the database do while one reply is handled. */
  datatype Moment = Moment(now: int, dbOk: bool, payOk: bool)

  /** One reply with the refund that may follow it. */
  function Handled(s: State, item: Item, at: Moment): State
    requires 0 in s.pollers
  {
    var t := HandleItem(s, 0, item, at.now, at.dbOk);
    if t.pollers[0].pending.Some? then PayBack(t, 0, at.payOk) else t
  }

  function HandledAll(s: State, items: seq<Item>, at: seq<Moment>): (t: State)
    requires 0 in s.pollers && |at| == |items|
    ensures 0 in t.pollers
  {
    if items == [] then s
    else Handled(HandledAll(s, items[..|items| - 1], at[..|at| - 1]), items[|items| - 1], at[|at| - 1])
  }

  /** What a pass sees of a state. */
  function Seen(s: State): State
    requires 0 in s.pollers
  {
    s.(pollers := map[0 := Poller(s.pollers[0].tasks, [], 0, None)])
  }

  /** Steps of poller 0 alone. */
  ghost predicate OwnSteps(states: seq<State>, steps: seq<Step>) {
    && |states| == |steps| + 1
    && forall k {:trigger steps[k]} | 0 <= k < |steps| ::
         && ((steps[k].Handle? && steps[k].p == 0) || (steps[k].Refund? && steps[k].p == 0))
         && Enabled(states[k], steps[k]) && states[k + 1] == Apply(states[k], steps[k])
  }

  /** Poller 0 has handled k of these replies. */
  ghost predicate At(s: State, items: seq<Item>, k: nat) {
    0 in s.pollers && s.pollers[0].replies == items && s.pollers[0].next == k && s.pollers[0].pending.None?
  }

  lemma HandleSeen(s: State, items: seq<Item>, k: nat, at: Moment)
    requires At(s, items, k) && k < |items|
    ensures var t := Apply(s, Handle(0, at.now, at.dbOk)); var v := HandleItem(Seen(s), 0, items[k], at.now, at.dbOk);
      && 0 in t.pollers && t.pollers[0].replies == items && t.pollers[0].next == k + 1
      && t.rows == v.rows && t.balances == v.balances && t.refunded == v.refunded
      && t.pollers[0].tasks == v.pollers[0].tasks && t.pollers[0].pending == v.pollers[0].pending
      && v.pollers == map[0 := Poller(t.pollers[0].tasks, [], 0, t.pollers[0].pending)]
  {
  }

  lemma RefundSeen(t: State, v: State, items: seq<Item>, k: nat, ok: bool)
    requires 0 in t.pollers && t.pollers[0].replies == items && t.pollers[0].next == k && t.pollers[0].pending.Some?
    requires t.rows == v.rows && t.balances == v.balances && t.refunded == v.refunded
    requires v.pollers == map[0 := Poller(t.pollers[0].tasks, [], 0, t.pollers[0].pending)]
    ensures At(Apply(t, Refund(0, ok)), items, k) && Seen(Apply(t, Refund(0, ok))) == PayBack(v, 0, ok)
  {
    var pollers := map[0 := Poller(t.pollers[0].tasks, [], 0, None)];
    assert v.pollers[0 := v.pollers[0].(pending := None)] == pollers;
  }

  lemma OneReplyRuns(s: State, items: seq<Item>, k: nat, at: Moment) returns (states: seq<State>, steps: seq<Step>)
    requires At(s, items, k) && k < |items|
    ensures OwnSteps(states, steps) && states[0] == s && At(states[|steps|], items, k + 1)
    ensures Seen(states[|steps|]) == Handled(Seen(s), items[k], at)
  {
    var handle, refund := Handle(0, at.now, at.dbOk), Refund(0, at.payOk);
    var t := Apply(s, handle);
    HandleSeen(s, items, k, at);
    states, steps := [s, t], [handle];
    if t.pollers[0].pending.Some? {
      RefundSeen(t, HandleItem(Seen(s), 0, items[k], at.now, at.dbOk), items, k + 1, at.payOk);
      states, steps := states + [Apply(t, refund)], steps + [refund];
    }
  }

  lemma Joined(states: seq<State>, steps: seq<Step>, states': seq<State>, steps': seq<Step>)
    requires OwnSteps(states, steps) && OwnSteps(states', steps') && states'[0] == states[|steps|]
    ensures OwnSteps(states[..|steps|] + states', steps + steps')
  {
    var all, both := states[..|steps|] + states', steps + steps';
    forall k | 0 <= k < |both|
      ensures (both[k].Handle? && both[k].p == 0) || (both[k].Refund? && both[k].p == 0)
      ensures Enabled(all[k], both[k]) && all[k + 1] == Apply(all[k], both[k])
    {
      if k < |steps| {
        assert both[k] == steps[k] && all[k] == states[k] && all[k + 1] == states[k + 1];
      } else {
        assert both[k] == steps'[k - |steps|];
      }
    }
  }

  /** The loop over a response is a run of one poller's steps, so what every run keeps, it keeps. */
  lemma {:induction false} PassIsARun(s: State, items: seq<Item>, at: seq<Moment>, k: nat)
    returns (states: seq<State>, steps: seq<Step>)
    requires At(s, items, 0) && k <= |items| == |at|
    ensures OwnSteps(states, steps) && states[0] == s && At(states[|steps|], items, k)
    ensures Seen(states[|steps|]) == HandledAll(Seen(s), items[..k], at[..k])
  {
    if k == 0 {
      states, steps := [s], [];
    } else {
      var before, first := PassIsARun(s, items, at, k - 1);
      var after, last := OneReplyRuns(before[|first|], items, k - 1, at[k - 1]);
      assert items[..k][..k - 1] == items[..k - 1] && at[..k][..k - 1] == at[..k - 1];
      Joined(before, first, after, last);
      states, steps := before[..|first|] + after, first + last;
    }
  }

  class Database {
    var rows: map<nat, Task>
    var balances: map<nat, int>
    var refunded: seq<nat>

    /** UpdateWithStatus: writes the whole task if the row still has the status it was read with. */
    method UpdateWithStatus(task: Task, fromStatus: Status, dbOk: bool) returns (won: bool)
      modifies this
      ensures won == (dbOk && task.id in old(rows) && old(rows)[task.id].status == fromStatus)
      ensures rows == (if won then old(rows)[task.id := task] else old(rows)) && balances == old(balances)
      ensures refunded == old(refunded)
    {
      won := dbOk && task.id in rows && rows[task.id].status == fromStatus;
      if won { rows := rows[task.id := task]; }
    }

    method IncreaseUserQuota(task: Task, ok: bool)
      modifies this
      ensures rows == old(rows)
      ensures ok && task.quota >= 0 ==>
        && refunded == old(refunded) + [task.id]
        && balances == old(balances)[task.userId := Balance(old(balances), task.userId) + task.quota]
      ensures !ok || task.quota < 0 ==> refunded == old(refunded) && balances == old(balances)
    {
      if task.quota < 0 || !ok { return; }
      balances := balances[task.userId := Balance(balances, task.userId) + task.quota];
      refunded := refunded + [task.id];
    }
  }

  /** Copies the reply into the task and finishes it if it failed. */
  method CopyReply(task: Task, item: Item) returns (t: Task, failed: bool)
    ensures t == Written(task, item) && failed == Fails(item)
  {
    t := task.(code := 1, progress := item.progress, info := item.info, status := item.status,
               failReason := item.failReason);
    if item.properties.Some? { t := t.(properties := item.properties.value); }
    if item.buttons.Some? { t := t.(buttons := item.buttons.value); }
    failed := (t.progress != Done && item.failReason != "") || (t.progress == Done && t.status == Failure);
    if failed { t := t.(progress := Done); }
  }

  lemma Overwrites(m: map<nat, Poller>, p: nat, a: Poller, b: Poller)
    requires m.Keys == {p}
    ensures m[p := a] == map[p := a] && m[p := b][p := a] == map[p := a]
  {
  }

  class Pass {
    var taskM: map<string, Task>
    const db: Database

    ghost function View(): State
      reads this, db
    {
      State(db.rows, map[0 := Poller(taskM, [], 0, None)], db.balances, db.refunded)
    }

    constructor (db: Database, taskM: map<string, Task>)
      ensures this.db == db && this.taskM == taskM
    {
      this.db, this.taskM := db, taskM;
    }

    method HandleReply(reply: Item, at: Moment)
      modifies this, db
      ensures View() == Handled(old(View()), reply, at)
    {
      if reply.mjId !in taskM { return; }
      var task := taskM[reply.mjId];
      var item := reply;
      if at.now - task.info.submitTime > TIMEOUT_MS && task.progress != Done {
        item := item.(failReason := TIMEOUT_REASON, status := Failure);
      }
      if !NeedsUpdate(task, item) { return; }
      var preStatus, failed := task.status, false;
      task, failed := CopyReply(task, item);
      taskM := taskM[reply.mjId := task];
      var won := db.UpdateWithStatus(task, preStatus, at.dbOk);
      if won && failed && task.quota != 0 { db.IncreaseUserQuota(task, at.payOk); }
      Overwrites(old(View()).pollers, 0, View().pollers[0], Poller(taskM, [], 0, Some(task)));
    }

    /** The loop over one response. */
    method HandleReplies(items: seq<Item>, at: seq<Moment>)
      requires |at| == |items|
      modifies this, db
      ensures View() == HandledAll(old(View()), items, at)
    {
      for k := 0 to |items|
        invariant View() == HandledAll(old(View()), items[..k], at[..k])
      {
        assert items[..k + 1][..k] == items[..k] && at[..k + 1][..k] == at[..k];
        HandleReply(items[k], at[k]);
      }
      assert items[..|items|] == items && at[..|at|] == at;
    }
  }
}
