/** What becomes of a Midjourney task that has finished without a failure. */
module MidjourneySuccess {
  import opened Basics
  import opened Midjourney

  /** A final reply that is no failure. */
  predicate Succeeds(item: Item) {
    item.progress == Done && item.status != Failure
  }

  predicate Succeeded(rows: map<nat, Task>, id: nat) {
    id in rows && rows[id].progress == Done && rows[id].status != Failure
  }

  /** A final reply that comes before the timeout is stored as it is; one that wins its update finishes the row. */
  lemma SuccessIsStored(s: State, p: nat, item: Item, now: int)
    requires p in s.pollers && item.mjId in s.pollers[p].tasks && Succeeds(item)
    requires var task := s.pollers[p].tasks[item.mjId];
      && task.id in s.rows && s.rows[task.id].status == task.status
      && task.progress != Done && now - task.info.submitTime <= 3600000
    ensures var task := s.pollers[p].tasks[item.mjId]; var t := HandleItem(s, p, item, now, true);
      && task.id in t.rows && Succeeded(t.rows, task.id)
      && t.rows[task.id].(buttons := task.buttons, properties := task.properties) ==
         task.(code := 1, status := item.status, progress := Done, failReason := item.failReason, info := item.info)
      && (item.buttons.Some? ==> t.rows[task.id].buttons == item.buttons.value)
      && (item.properties.Some? ==> t.rows[task.id].properties == item.properties.value)
      && t.pollers[p].pending.None? && t.refunded == s.refunded && t.balances == s.balances
      && forall id | id in s.rows && id != task.id :: id in t.rows && t.rows[id] == s.rows[id]
  {
  }

  /** After an hour the same reply fails the task, and its quota is to be given back. */
  lemma LateSuccessFails(s: State, p: nat, item: Item, now: int)
    requires p in s.pollers && item.mjId in s.pollers[p].tasks && Succeeds(item)
    requires var task := s.pollers[p].tasks[item.mjId];
      && task.id in s.rows && s.rows[task.id].status == task.status && task.quota != 0
      && task.progress != Done && now - task.info.submitTime > 3600000
    ensures var task := s.pollers[p].tasks[item.mjId]; var t := HandleItem(s, p, item, now, true);
      && task.id in t.rows && t.rows[task.id].status == Failure && t.rows[task.id].progress == Done
      && t.rows[task.id].failReason == "上游任务超时（超过1小时）"
      && t.pollers[p].pending == Some(t.rows[task.id])
  {
  }

  // ---------------------------------------------------------------- the condition

  /** Some pass may end the task with this status. */
  ghost predicate Final(upstream: seq<Item> -> bool, m: string, status: Status) {
    exists r: seq<Item>, i: nat :: upstream(r) && i < |r| && r[i].mjId == m && Succeeds(r[i]) && r[i].status == status
  }

  /** The status of a final reply is one that the task cannot have before: neither from the start nor by a reply that
      does not finish it; and no reply of the same pass follows it. */
  ghost predicate Orderly(upstream: seq<Item> -> bool, starting: Status -> bool) {
    forall r: seq<Item>, i: nat {:trigger upstream(r), r[i]} |
      upstream(r) && i < |r| && r[i].mjId != "" && Succeeds(r[i]) ::
      && !starting(r[i].status)
      && (forall j | i < j < |r| :: r[j].mjId != r[i].mjId)
      && !Underway(upstream, r[i].mjId, r[i].status)
  }

  /** Some pass may leave the task unfinished with this status. */
  ghost predicate Underway(upstream: seq<Item> -> bool, m: string, status: Status) {
    exists r: seq<Item>, i: nat ::
      upstream(r) && i < |r| && r[i].mjId == m && r[i].progress != Done && r[i].status == status
  }

  /** The unfinished tasks that are there in the beginning or are inserted have one of these statuses. */
  ghost predicate NewTasks(states: seq<State>, steps: seq<Step>, starting: Status -> bool)
    requires |states| > 0
  {
    && (forall id | id in states[0].rows && states[0].rows[id].progress != Done :: starting(states[0].rows[id].status))
    && (forall k | 0 <= k < |steps| && steps[k].Insert? && steps[k].task.progress != Done ::
          starting(steps[k].task.status))
  }

  // ---------------------------------------------------------------- what every step keeps

  ghost predicate Holds(s: State, p: nat, m: string) {
    p in s.pollers && m in s.pollers[p].tasks
  }

  ghost predicate NoReplyLeft(poller: Poller, m: string) {
    forall j | poller.next <= j < |poller.replies| :: poller.replies[j].mjId != m
  }

  ghost predicate SnapshotOk(s: State, p: nat, m: string, upstream: seq<Item> -> bool)
    requires Holds(s, p, m)
  {
    var task := s.pollers[p].tasks[m];
    && task.mjId == m != "" && task.id in s.rows && s.rows[task.id].mjId == m
    && (Final(upstream, m, task.status) ==> NoReplyLeft(s.pollers[p], m))
  }

  /** An unfinished row does not have a final status; a finished one has one, or failed, or is held by nobody. */
  ghost predicate RowOk(s: State, id: nat, upstream: seq<Item> -> bool)
    requires id in s.rows
  {
    && (s.rows[id].progress != Done && s.rows[id].mjId != "" ==>
          !Final(upstream, s.rows[id].mjId, s.rows[id].status))
    && (Succeeded(s.rows, id) ==>
          || Final(upstream, s.rows[id].mjId, s.rows[id].status)
          || forall p, m | Holds(s, p, m) :: s.pollers[p].tasks[m].id != id)
  }

  ghost predicate SuccessInv(s: State, upstream: seq<Item> -> bool) {
    && (forall p | p in s.pollers :: upstream(s.pollers[p].replies))
    && (forall p, m | Holds(s, p, m) :: SnapshotOk(s, p, m, upstream))
    && (forall id | id in s.rows :: s.rows[id].id == id && RowOk(s, id, upstream))
  }

  /** What a reply writes is final only for a final reply, the last one for its task, and is final if it succeeded. */
  lemma WrittenStatus(task: Task, r: seq<Item>, i: nat, now: int, upstream: seq<Item> -> bool, starting: Status -> bool)
    requires Orderly(upstream, starting) && upstream(r) && i < |r| && r[i].mjId != "" && Consistent(r[i])
    ensures var w := Written(task, Effective(task, r[i], now));
      && (Final(upstream, r[i].mjId, w.status) ==> forall j | i < j < |r| :: r[j].mjId != r[i].mjId)
      && (w.progress != Done ==> !Final(upstream, r[i].mjId, w.status))
      && (w.progress == Done && w.status != Failure ==> Final(upstream, r[i].mjId, w.status))
  {
    var w := Written(task, Effective(task, r[i], now));
    if Final(upstream, r[i].mjId, w.status) {
      var r': seq<Item>, i': nat :| upstream(r') && i' < |r'| && r'[i'].mjId == r[i].mjId && Succeeds(r'[i']) &&
                    r'[i'].status == w.status;
      assert !Underway(upstream, r'[i'].mjId, r'[i'].status);
    }
  }

  lemma LoadKeepsSuccess(s: State, step: Step, upstream: seq<Item> -> bool)
    requires SuccessInv(s, upstream) && RowsOk(s.rows) && step.Load? && Enabled(s, step) && upstream(step.replies)
    ensures SuccessInv(Apply(s, step), upstream)
  {
    var t := Apply(s, step);
    ByMjIdTasks(s.rows, step.order);
    forall p, m | Holds(t, p, m) ensures SnapshotOk(t, p, m, upstream) {
      if p == step.p {
        assert RowOk(s, t.pollers[p].tasks[m].id, upstream);
      } else {
        assert Holds(s, p, m) && SnapshotOk(s, p, m, upstream);
      }
    }
    forall id | id in t.rows ensures RowOk(t, id, upstream) {
      assert RowOk(s, id, upstream);
      forall p, m | Holds(t, p, m) && t.pollers[p].tasks[m].id == id && Succeeded(t.rows, id)
        ensures Holds(s, p, m) && s.pollers[p].tasks[m].id == id
      {
      }
    }
  }

  /** A poller takes its next reply: it may write what it now holds of one task, to its memory and to the row. */
  ghost predicate Takes(s: State, t: State, p: nat) {
    && p in s.pollers && p in t.pollers && s.pollers[p].next < |s.pollers[p].replies|
    && t.pollers == s.pollers[p := t.pollers[p]]
    && t.pollers[p].replies == s.pollers[p].replies && t.pollers[p].next == s.pollers[p].next + 1
    && (Skips(s, t, p) || Writes(s, t, p))
  }

  ghost predicate Skips(s: State, t: State, p: nat)
    requires p in s.pollers && p in t.pollers
  {
    t.rows == s.rows && t.pollers[p].tasks == s.pollers[p].tasks
  }

  ghost predicate Writes(s: State, t: State, p: nat)
    requires p in s.pollers && p in t.pollers && s.pollers[p].next < |s.pollers[p].replies|
  {
    var m := s.pollers[p].replies[s.pollers[p].next].mjId;
    && m in s.pollers[p].tasks && m in t.pollers[p].tasks
    && t.pollers[p].tasks == s.pollers[p].tasks[m := t.pollers[p].tasks[m]]
    && var before, w := s.pollers[p].tasks[m], t.pollers[p].tasks[m];
       && w.id == before.id && w.mjId == before.mjId
       && (t.rows == s.rows || t.rows == s.rows[w.id := w])
  }

  /** What is written is final only after the last reply for its task, and is final if it succeeded. */
  ghost predicate WellWritten(t: State, p: nat, m: string, upstream: seq<Item> -> bool) {
    && Holds(t, p, m)
    && var w := t.pollers[p].tasks[m];
    && (Final(upstream, m, w.status) ==> NoReplyLeft(t.pollers[p], m))
    && (w.progress != Done ==> !Final(upstream, m, w.status))
    && (w.progress == Done && w.status != Failure ==> Final(upstream, m, w.status))
  }

  lemma HandleTakes(s: State, step: Step, upstream: seq<Item> -> bool, starting: Status -> bool)
    requires SuccessInv(s, upstream) && Orderly(upstream, starting) && TrustworthyUpstream(upstream)
    requires step.Handle? && Enabled(s, step)
    ensures var t := Apply(s, step); var m := s.pollers[step.p].replies[s.pollers[step.p].next].mjId;
      && Takes(s, t, step.p)
      && (Skips(s, t, step.p) || WellWritten(t, step.p, m, upstream))
  {
    var p, before := step.p, s.pollers[step.p];
    var item := before.replies[before.next];
    HandledShape(s, step);
    assert upstream(before.replies) && Trustworthy(before.replies);
    if Holds(s, p, item.mjId) {
      assert SnapshotOk(s, p, item.mjId, upstream);
      WrittenStatus(before.tasks[item.mjId], before.replies, before.next, step.now, upstream, starting);
    }
  }

  lemma TakesKeepsSnapshots(s: State, t: State, p: nat, upstream: seq<Item> -> bool)
    requires SuccessInv(s, upstream) && Takes(s, t, p)
    requires var m := s.pollers[p].replies[s.pollers[p].next].mjId;
      Skips(s, t, p) || WellWritten(t, p, m, upstream)
    ensures forall q, m | Holds(t, q, m) :: SnapshotOk(t, q, m, upstream)
  {
    var m := s.pollers[p].replies[s.pollers[p].next].mjId;
    if Holds(s, p, m) { assert SnapshotOk(s, p, m, upstream); }
    forall q, m | Holds(t, q, m) ensures SnapshotOk(t, q, m, upstream) {
      assert Holds(s, q, m) && SnapshotOk(s, q, m, upstream);
    }
  }

  lemma TakesKeepsRows(s: State, t: State, p: nat, upstream: seq<Item> -> bool)
    requires SuccessInv(s, upstream) && Takes(s, t, p)
    requires var m := s.pollers[p].replies[s.pollers[p].next].mjId;
      Skips(s, t, p) || WellWritten(t, p, m, upstream)
    ensures forall id | id in t.rows :: t.rows[id].id == id && RowOk(t, id, upstream)
  {
    var m := s.pollers[p].replies[s.pollers[p].next].mjId;
    if Holds(s, p, m) { assert SnapshotOk(s, p, m, upstream); }
    forall id | id in t.rows ensures t.rows[id].id == id && RowOk(t, id, upstream) {
      assert id in s.rows && RowOk(s, id, upstream);
      SameHolders(s, t, p, id);
    }
  }

  /** No poller comes to hold another task by handling a reply. */
  lemma SameHolders(s: State, t: State, p: nat, id: nat)
    requires Takes(s, t, p)
    ensures (forall q, m | Holds(s, q, m) :: s.pollers[q].tasks[m].id != id) ==>
      forall q, m | Holds(t, q, m) :: t.pollers[q].tasks[m].id != id
  {
    forall q, m | Holds(t, q, m) ensures Holds(s, q, m) && s.pollers[q].tasks[m].id == t.pollers[q].tasks[m].id {
    }
  }

  lemma HandleKeepsSuccess(s: State, step: Step, upstream: seq<Item> -> bool, starting: Status -> bool)
    requires SuccessInv(s, upstream) && Orderly(upstream, starting) && TrustworthyUpstream(upstream)
    requires step.Handle? && Enabled(s, step)
    ensures SuccessInv(Apply(s, step), upstream)
  {
    var t := Apply(s, step);
    HandleTakes(s, step, upstream, starting);
    TakesKeepsSnapshots(s, t, step.p, upstream);
    TakesKeepsRows(s, t, step.p, upstream);
  }

  /** The other steps leave the tasks in the pollers' hands as they are. */
  ghost predicate SameHands(s: State, t: State) {
    && t.pollers.Keys == s.pollers.Keys
    && forall p | p in s.pollers ::
         && t.pollers[p].tasks == s.pollers[p].tasks && t.pollers[p].replies == s.pollers[p].replies
         && t.pollers[p].next == s.pollers[p].next
  }

  /** The rows are the same, or failed, or new. */
  ghost predicate OnlyFailedOrNew(s: State, t: State, starting: Status -> bool) {
    && (forall id | id in s.rows :: id in t.rows && t.rows[id].mjId == s.rows[id].mjId)
    && (forall id | id in t.rows ::
          && t.rows[id].id == id
          && (id in s.rows ==>
                t.rows[id] == s.rows[id] || (t.rows[id].progress == Done && t.rows[id].status == Failure))
          && (id !in s.rows && t.rows[id].progress != Done ==> starting(t.rows[id].status)))
  }

  lemma SameHandsKept(s: State, t: State, upstream: seq<Item> -> bool, starting: Status -> bool)
    requires SuccessInv(s, upstream) && Orderly(upstream, starting)
    requires SameHands(s, t) && OnlyFailedOrNew(s, t, starting)
    ensures SuccessInv(t, upstream)
  {
    forall p, m | Holds(t, p, m) ensures SnapshotOk(t, p, m, upstream) {
      assert Holds(s, p, m) && SnapshotOk(s, p, m, upstream);
    }
    forall id | id in t.rows ensures RowOk(t, id, upstream) {
      if id in s.rows { assert RowOk(s, id, upstream); }
      forall p, m | Holds(t, p, m) ensures Holds(s, p, m) && SnapshotOk(s, p, m, upstream) {
      }
    }
  }

  lemma OtherSteps(s: State, step: Step, starting: Status -> bool)
    requires RowsOk(s.rows) && Enabled(s, step) && (step.Insert? || step.BulkFail? || step.Refund?)
    requires step.Insert? && step.task.progress != Done ==> starting(step.task.status)
    ensures SameHands(s, Apply(s, step)) && OnlyFailedOrNew(s, Apply(s, step), starting)
  {
    if step.BulkFail? { BulkFailIs(s, step.ids, step.reason); }
  }

  lemma StepKeepsSuccess(s: State, step: Step, upstream: seq<Item> -> bool, starting: Status -> bool)
    requires SuccessInv(s, upstream) && RowsOk(s.rows) && Orderly(upstream, starting) && TrustworthyUpstream(upstream)
    requires Enabled(s, step) && (step.Load? ==> upstream(step.replies))
    requires step.Insert? && step.task.progress != Done ==> starting(step.task.status)
    ensures SuccessInv(Apply(s, step), upstream)
  {
    if step.Load? {
      LoadKeepsSuccess(s, step, upstream);
    } else if step.Handle? {
      HandleKeepsSuccess(s, step, upstream, starting);
    } else {
      OtherSteps(s, step, starting);
      SameHandsKept(s, Apply(s, step), upstream, starting);
    }
  }

  // ---------------------------------------------------------------- runs

  /** The task is finished and has no refund, neither paid nor in anybody's hands. */
  ghost predicate Settled(s: State, id: nat) {
    && id in s.rows && s.rows[id].progress == Done && id !in s.refunded
    && forall p | p in s.pollers && s.pollers[p].pending.Some? :: s.pollers[p].pending.value.id != id
  }

  /** A reply changes no row that succeeded: whoever still holds the task holds another status, or has no reply left. */
  lemma SuccessUntouched(s: State, step: Step, id: nat, upstream: seq<Item> -> bool)
    requires SuccessInv(s, upstream) && step.Handle? && Enabled(s, step) && Succeeded(s.rows, id)
    ensures id in Apply(s, step).rows && Apply(s, step).rows[id] == s.rows[id]
  {
    var poller := s.pollers[step.p];
    var m := poller.replies[poller.next].mjId;
    assert RowOk(s, id, upstream);
    if Holds(s, step.p, m) { assert SnapshotOk(s, step.p, m, upstream); }
  }

  lemma HandleKeepsSettled(s: State, step: Step, id: nat, upstream: seq<Item> -> bool)
    requires RowsOk(s.rows) && PollersOk(s) && SuccessInv(s, upstream)
    requires step.Handle? && Enabled(s, step) && Settled(s, id)
    ensures Settled(Apply(s, step), id)
    ensures Succeeded(s.rows, id) ==> Apply(s, step).rows[id] == s.rows[id]
  {
    HandledRows(s, step);
    HandledShape(s, step);
    if s.rows[id].status != Failure { SuccessUntouched(s, step, id, upstream); }
  }

  lemma SettledKept(s: State, step: Step, id: nat, initial: map<nat, int>, upstream: seq<Item> -> bool)
    requires Inv(s, initial) && SuccessInv(s, upstream) && Enabled(s, step) && Settled(s, id)
    ensures Settled(Apply(s, step), id)
    ensures Succeeded(s.rows, id) && !(step.BulkFail? && id in step.ids) ==> Apply(s, step).rows[id] == s.rows[id]
  {
    if step.Handle? { HandleKeepsSettled(s, step, id, upstream); }
  }

  ghost predicate GoodRun(states: seq<State>, steps: seq<Step>, upstream: seq<Item> -> bool, starting: Status -> bool) {
    Run(states, steps, upstream) && NewTasks(states, steps, starting)
  }

  lemma {:induction false} RunSuccessInv(states: seq<State>, steps: seq<Step>, upstream: seq<Item> -> bool,
                                         starting: Status -> bool, k: nat)
    requires TrustworthyUpstream(upstream) && Orderly(upstream, starting)
    requires GoodRun(states, steps, upstream, starting) && k < |states|
    ensures Inv(states[k], states[0].balances) && SuccessInv(states[k], upstream)
  {
    RunInv(states, steps, upstream, k);
    if k == 0 {
      FirstSuccessInv(states[0], upstream, starting);
    } else {
      RunSuccessInv(states, steps, upstream, starting, k - 1);
      StepKeepsSuccess(states[k - 1], steps[k - 1], upstream, starting);
    }
  }

  lemma FirstSuccessInv(s: State, upstream: seq<Item> -> bool, starting: Status -> bool)
    requires Init(s) && Orderly(upstream, starting)
    requires forall id | id in s.rows && s.rows[id].progress != Done :: starting(s.rows[id].status)
    ensures SuccessInv(s, upstream)
  {
  }

  /** No bulk update fails the task in this part of the run. */
  ghost predicate NotBulkFailed(steps: seq<Step>, id: nat, j: nat, k: nat) {
    forall i | j <= i < k && i < |steps| && steps[i].BulkFail? :: id !in steps[i].ids
  }

  /** The task is finished and not refunded, no pass loads it now, and it is what it was unless a bulk update failed
      it. */
  ghost predicate Stays(states: seq<State>, steps: seq<Step>, id: nat, j: nat, k: nat)
    requires j <= k < |states| && id in states[j].rows
  {
    && id in states[k].rows && states[k].rows[id].progress == Done && id !in states[k].refunded
    && (k < |steps| && steps[k].Load? ==> id !in steps[k].order)
    && (NotBulkFailed(steps, id, j, k) ==> states[k].rows[id] == states[j].rows[id])
  }

  ghost predicate AllStay(states: seq<State>, steps: seq<Step>) {
    forall id, j: nat, k: nat {:trigger Stays(states, steps, id, j, k)} |
      j <= k < |states| && Succeeded(states[j].rows, id) :: Stays(states, steps, id, j, k)
  }

  /** In every run a task that has finished without a failure stays so: no later pass loads it, none refunds it. */
  ghost predicate SuccessesStay(upstream: seq<Item> -> bool, starting: Status -> bool) {
    forall states, steps | GoodRun(states, steps, upstream, starting) && Forward(steps) :: AllStay(states, steps)
  }

  lemma {:induction false} SettledStays(states: seq<State>, steps: seq<Step>, id: nat, j: nat, k: nat,
                                        upstream: seq<Item> -> bool, starting: Status -> bool)
    requires TrustworthyUpstream(upstream) && Orderly(upstream, starting)
    requires GoodRun(states, steps, upstream, starting) && j <= k < |states| && Succeeded(states[j].rows, id)
    ensures Settled(states[k], id)
    ensures NotBulkFailed(steps, id, j, k) ==> states[k].rows[id] == states[j].rows[id]
  {
    if k == j {
      RunSuccessInv(states, steps, upstream, starting, k);
    } else {
      SettledStays(states, steps, id, j, k - 1, upstream, starting);
      RunSuccessInv(states, steps, upstream, starting, k - 1);
      assert states[k] == Apply(states[k - 1], steps[k - 1]);
      SettledKept(states[k - 1], steps[k - 1], id, states[0].balances, upstream);
    }
  }

  lemma RunStays(states: seq<State>, steps: seq<Step>, upstream: seq<Item> -> bool, starting: Status -> bool)
    requires TrustworthyUpstream(upstream) && Orderly(upstream, starting)
    requires GoodRun(states, steps, upstream, starting)
    ensures AllStay(states, steps)
  {
    forall id, j: nat, k: nat | j <= k < |states| && Succeeded(states[j].rows, id)
      ensures Stays(states, steps, id, j, k)
    {
      SettledStays(states, steps, id, j, k, upstream, starting);
      if k < |steps| { assert Enabled(states[k], steps[k]); }
    }
  }

  // ---------------------------------------------------------------- runs that lose a success

  /** A poller whose next reply fails a task that has finished meanwhile, with the status that it still holds. */
  ghost predicate FailsFinished(s: State, p: nat, task: Task, now: int) {
    && Winning(s, p, task, now) && task.quota > 0 && Succeeded(s.rows, task.id)
    && Fails(Effective(task, s.pollers[p].replies[s.pollers[p].next], now))
  }

  /** The states of a run and what follows the last one. */
  ghost predicate Continues(states: seq<State>, steps: seq<Step>, states': seq<State>, steps': seq<Step>) {
    && |states| == |steps| + 1 && |states'| == |steps'| + 1 && |steps| <= |steps'|
    && (forall k | 0 <= k < |states| :: states'[k] == states[k])
  }

  lemma OneMore(states: seq<State>, steps: seq<Step>, step: Step, before: int, upstream: seq<Item> -> bool)
    returns (states': seq<State>, steps': seq<Step>)
    requires RunUntil(states, steps, upstream, before) && Enabled(states[|steps|], step)
    requires (step.Handle? && before <= step.now) || step.Refund?
    ensures Continues(states, steps, states', steps') && states'[|steps'|] == Apply(states[|steps|], step)
    ensures RunUntil(states', steps', upstream, if step.Handle? then step.now else before)
    ensures |steps'| == |steps| + 1
  {
    RunExtended(states, steps, step, upstream);
    ForwardExtended(steps, step, before);
    states', steps' := states + [Apply(states[|steps|], step)], steps + [step];
  }

  /** Then the task is refunded, although it had succeeded. */
  lemma LosesSuccess(init: State, s: State, p: nat, task: Task, before: int, now: int, upstream: seq<Item> -> bool,
                     starting: Status -> bool)
    requires Reachable(init, s, before, upstream) && before <= now && FailsFinished(s, p, task, now)
    requires forall id | id in init.rows && init.rows[id].progress != Done :: starting(init.rows[id].status)
    ensures !SuccessesStay(upstream, starting)
  {
    var states, steps :| RunUntil(states, steps, upstream, before) && states[0] == init && states[|steps|] == s;
    WinEffect(s, p, task, now);
    var states1, steps1 := OneMore(states, steps, Handle(p, now, true), before, upstream);
    var states2, steps2 := OneMore(states1, steps1, Refund(p, true), now, upstream);
    NotAllStay(states2, steps2, task.id, |steps|);
    assert GoodRun(states2, steps2, upstream, starting) && Forward(steps2);
  }

  lemma NotAllStay(states: seq<State>, steps: seq<Step>, id: nat, j: nat)
    requires |states| == |steps| + 1 && j <= |steps| && Succeeded(states[j].rows, id) && id in states[|steps|].refunded
    ensures !AllStay(states, steps)
  {
    assert !Stays(states, steps, id, j, |steps|);
  }

  /** A success is the first reply for its task in a trustworthy pass, and so is a reply that does not finish it. */
  lemma IsFirst(r: seq<Item>, i: nat)
    requires Trustworthy(r) && i < |r| && r[i].mjId != "" && (Succeeds(r[i]) || r[i].progress != Done)
    ensures FirstFor(r, i)
  {
    forall j | 0 <= j < i ensures r[j].mjId != r[i].mjId {
      assert r[j].mjId == r[i].mjId ==> Repeats(r[j], r[i]);
    }
  }

  /** Two pollers hold an unfinished task that already has the status of the final reply: one finishes it in time, the
      other one is late. */
  lemma OneInTimeOneLate(init: State, s: State, r: seq<Item>, i: nat, upstream: seq<Item> -> bool,
                         starting: Status -> bool)
    requires upstream(r) && FirstFor(r, i) && Succeeds(r[i]) && Loadable(s, r[i]) && s.rows[0].status == r[i].status
    requires Reachable(init, s, s.rows[0].info.submitTime, upstream) && 1 !in s.pollers && 2 !in s.pollers
    requires forall id | id in init.rows && init.rows[id].progress != Done :: starting(init.rows[id].status)
    ensures !SuccessesStay(upstream, starting)
  {
    var task, now := s.rows[0], s.rows[0].info.submitTime;
    var t := ComesTo(init, s, 1, r, i, now, upstream);
    t := ComesTo(init, t, 2, r, i, now, upstream);
    t := Wins(init, t, 1, task, now, now, upstream);
    LosesSuccess(init, t, 2, task, now, now + TIMEOUT_MS + 1, upstream, starting);
  }

  /** The task may start with the status of its final reply. */
  lemma FromTheStart(r: seq<Item>, i: nat, upstream: seq<Item> -> bool, starting: Status -> bool)
    requires upstream(r) && FirstFor(r, i) && Succeeds(r[i]) && starting(r[i].status)
    ensures !SuccessesStay(upstream, starting)
  {
    var init := Start(r[i].mjId, r[i].info, r[i].status);
    Started(r[i].mjId, r[i].info, r[i].info.submitTime, upstream, r[i].status);
    OneInTimeOneLate(init, init, r, i, upstream, starting);
  }

  /** Another reply may give the task the status of its final reply without finishing it. */
  lemma FromAReply(r: seq<Item>, i: nat, r': seq<Item>, i': nat, upstream: seq<Item> -> bool, starting: Status -> bool)
    requires upstream(r) && FirstFor(r, i) && Succeeds(r[i]) && starting(Status(""))
    requires upstream(r') && FirstFor(r', i') && Consistent(r'[i']) && r'[i'].mjId == r[i].mjId
    requires r'[i'].progress != Done && r'[i'].status == r[i].status
    ensures !SuccessesStay(upstream, starting)
  {
    var b := r'[i'];
    var init, now := Start(b.mjId, b.info), b.info.submitTime;
    Started(b.mjId, b.info, now, upstream);
    var s := ComesTo(init, init, 0, r', i', now, upstream);
    s := Wins(init, s, 0, init.rows[0], now, now, upstream);
    OneInTimeOneLate(init, s, r, i, upstream, starting);
  }

  /** A failure for the same task may follow in the same pass. */
  lemma FollowedByFailure(r: seq<Item>, i: nat, j: nat, upstream: seq<Item> -> bool, starting: Status -> bool)
    requires upstream(r) && Trustworthy(r) && FirstFor(r, i) && Succeeds(r[i]) && starting(Status(""))
    requires i < j < |r| && r[j].mjId == r[i].mjId && forall k | i < k < j :: r[k].mjId != r[i].mjId
    ensures !SuccessesStay(upstream, starting)
  {
    var a := r[i];
    var init, now := Start(a.mjId, a.info), a.info.submitTime;
    Started(a.mjId, a.info, now, upstream);
    var s := ComesTo(init, init, 0, r, i, now, upstream);
    s := Wins(init, s, 0, init.rows[0], now, now, upstream);
    var w := s.rows[0];
    s := PassesOver(init, s, 0, j, now, upstream);
    assert Repeats(r[i], r[j]);
    LosesSuccess(init, s, 0, w, now, now, upstream, starting);
  }

  lemma {:induction false} NextFor(r: seq<Item>, i: nat, j: nat) returns (k: nat)
    requires i < j < |r| && r[j].mjId == r[i].mjId
    ensures i < k <= j && r[k].mjId == r[i].mjId && forall x | i < x < k :: r[x].mjId != r[i].mjId
  {
    k := j;
    if x: nat :| i < x < j && r[x].mjId == r[i].mjId { k := NextFor(r, i, x); }
  }

  lemma DisorderLoses(upstream: seq<Item> -> bool, starting: Status -> bool)
    requires TrustworthyUpstream(upstream) && starting(Status("")) && !Orderly(upstream, starting)
    ensures !SuccessesStay(upstream, starting)
  {
    var r: seq<Item>, i: nat :|
      && upstream(r) && i < |r| && r[i].mjId != "" && Succeeds(r[i])
      && (starting(r[i].status) || (exists j :: i < j < |r| && r[j].mjId == r[i].mjId)
          || Underway(upstream, r[i].mjId, r[i].status));
    IsFirst(r, i);
    if starting(r[i].status) {
      FromTheStart(r, i, upstream, starting);
    } else if j: nat :| i < j < |r| && r[j].mjId == r[i].mjId {
      var k := NextFor(r, i, j);
      FollowedByFailure(r, i, k, upstream, starting);
    } else {
      var r': seq<Item>, i': nat :|
        && upstream(r') && i' < |r'| && r'[i'].mjId == r[i].mjId
        && r'[i'].progress != Done && r'[i'].status == r[i].status;
      IsFirst(r', i');
      FromAReply(r, i, r', i', upstream, starting);
    }
  }

  /** With replies that can be trusted, a task that has finished without a failure stays finished, is loaded by no later
      pass and refunded by none, in every run of every number of pollers, exactly when the status of a final reply is
      one that the task cannot have before and no reply of the same pass follows it. */
  lemma SuccessesStayExactlyWhen(upstream: seq<Item> -> bool, starting: Status -> bool)
    requires TrustworthyUpstream(upstream) && starting(Status(""))
    ensures SuccessesStay(upstream, starting) <==> Orderly(upstream, starting)
  {
    if Orderly(upstream, starting) {
      forall states, steps | GoodRun(states, steps, upstream, starting) && Forward(steps)
        ensures AllStay(states, steps)
      {
        RunStays(states, steps, upstream, starting);
      }
    } else {
      DisorderLoses(upstream, starting);
    }
  }
}
