/** The payment callbacks of one process: every callback runs inside the order lock, access by access,
    interleaved with the others and with the writers that take no lock. */
module PaymentSystem {
  import opened Basics
  import opened PaymentOrders
  import OrderLock

  type Tid = OrderLock.Tid

  datatype Work = Work(cb: Callback, st: Stage)

  /** `creating` and `creatingSubs` hold the rows of the payment requests that still wait for the payment provider
      and would write to their order without its lock if that fails.

      The last three are history: the orders whose final status such a request has overwritten, and the Epay orders
      whose credit was refused after they had been saved as Success. */
  datatype State = State(
    lock: OrderLock.Lock, work: map<Tid, Work>, db: Db,
    creating: map<TradeNo, TopUp>, creatingSubs: map<TradeNo, SubOrder>,
    overwritten: set<TradeNo>, overwrittenSubs: set<TradeNo>, lost: set<TradeNo>)

  datatype Step =
    | Begin(t: Tid, order: TradeNo, cb: Callback)
    | Access(t: Tid, ok: bool)                     // a database access inside the critical section
    | Lock(t: Tid)                                 // a step of LockOrder or UnlockOrder
    | CreateTopUp(order: TradeNo, row: TopUp)
    | CreateSub(order: TradeNo, sub: SubOrder)
    | RequestDone(order: TradeNo)
    | RequestFailed(order: TradeNo, ok: bool)
    | SubRequestDone(order: TradeNo)
    | SubRequestFailed(order: TradeNo, ok: bool)
    | WaffoNotice(order: TradeNo, ok: bool)

  function Init(unit: real): State {
    State(OrderLock.UNLOCKED, map[], Db(unit, map[], map[], []), map[], map[], {}, {}, {})
  }

  predicate InCritical(s: State, t: Tid) { t in s.lock.threads && s.lock.threads[t].pc.Critical? && t in s.work }

  predicate Enabled(s: State, step: Step) {
    match step
    case Begin(t, _, _) => t !in s.lock.threads
    case Access(t, _) => InCritical(s, t) && !s.work[t].st.Finished?
    case Lock(t) =>
      && OrderLock.CanAdvance(s.lock, t) && t in s.work
      && (s.lock.threads[t].pc.Critical? ==> s.work[t].st.Finished?)
    // trade numbers are unique in each table, and the two tables use different prefixes
    case CreateTopUp(o, row) => o !in s.db.topups && o !in s.db.subs && row.status.Pending? && !row.provider.NoProvider?
    case CreateSub(o, sub) => o !in s.db.topups && o !in s.db.subs && sub.status.Pending?
    case RequestDone(o) => o in s.creating
    case RequestFailed(o, _) => o in s.creating
    case SubRequestDone(o) => o in s.creatingSubs
    case SubRequestFailed(o, _) => o in s.creatingSubs
    case WaffoNotice(_, _) => true
  }

  function Apply(s: State, step: Step): State
    requires Enabled(s, step)
  {
    match step
    case Begin(t, o, cb) => s.(lock := OrderLock.Enter(s.lock, t, o), work := s.work[t := Work(cb, Begun)])
    case Access(t, ok) =>
      var o, w := s.lock.threads[t].order, s.work[t];
      var (db', st') := HandlerStep(s.db, o, w.cb, w.st, ok);
      s.(db := db', work := s.work[t := w.(st := st')],
         lost := if w.st.Saved? && CreditRefused(s.db, w.st.row, ok) then s.lost + {o} else s.lost)
    case Lock(t) => s.(lock := OrderLock.Advance(s.lock, t))
    case CreateTopUp(o, row) =>
      s.(db := s.db.(topups := s.db.topups[o := row]),
         creating := if row.provider.Waffo? || row.provider.Pancake? then s.creating[o := row] else s.creating)
    case CreateSub(o, sub) =>
      s.(db := s.db.(subs := s.db.subs[o := sub]),
         creatingSubs :=
           if sub.provider.Pancake? || sub.provider.Epay? then s.creatingSubs[o := sub] else s.creatingSubs)
    case RequestDone(o) => s.(creating := s.creating - {o})
    case RequestFailed(o, ok) =>
      // the row as it was inserted is saved as Failed, whatever became of the order since
      if !ok then s.(creating := s.creating - {o}) else
      s.(db := s.db.(topups := s.db.topups[o := s.creating[o].(status := Failed)]),
         creating := s.creating - {o},
         overwritten :=
           if FinalStatus(s.db, o) && !s.db.topups[o].status.Failed? then s.overwritten + {o} else s.overwritten)
    case SubRequestDone(o) => s.(creatingSubs := s.creatingSubs - {o})
    case SubRequestFailed(o, ok) =>
      // Epay expires the order if it is still pending; Pancake saves the row as it was inserted
      var t := s.(creatingSubs := s.creatingSubs - {o});
      if s.creatingSubs[o].provider.Epay? then t.(db := ExpireSub(s.db, o, Epay, ok))
      else if !ok then t
      else
      t.(db := s.db.(subs := s.db.subs[o := s.creatingSubs[o].(status := Failed)]),
         overwrittenSubs :=
           if FinalSub(s.db, o) && !s.db.subs[o].status.Failed? then s.overwrittenSubs + {o} else s.overwrittenSubs)
    case WaffoNotice(o, ok) => s.(db := UpdatePending(s.db, o, Waffo, Failed, ok))
  }

  predicate FinalStatus(db: Db, o: TradeNo) { o in db.topups && !db.topups[o].status.Pending? }

  predicate FinalSub(db: Db, o: TradeNo) { o in db.subs && !db.subs[o].status.Pending? }

  // ---------------------------------------------------------------- the invariant

  ghost predicate WorkInv(s: State) {
    forall t | t in s.lock.threads ::
      && t in s.work
      && StageOk(s.db, s.lock.threads[t].order, s.work[t].cb, s.work[t].st)
      && (!s.lock.threads[t].pc.Critical? ==> s.work[t].st.Begun? || s.work[t].st.Finished?)
  }

  ghost predicate OrdersInv(s: State) {
    forall o :: OrderOk(s.db, o)
  }

  ghost predicate LedgerInv(s: State) {
    forall i | 0 <= i < |s.db.ledger| :: EntryRight(s.db, s.db.ledger[i])
  }

  ghost predicate CreatingInv(s: State) {
    && (forall o | o in s.creating ::
          && (s.creating[o].provider.Waffo? || s.creating[o].provider.Pancake?)
          && o in s.db.topups && SameTerms(s.db.topups[o], s.creating[o]))
    && (forall o | o in s.creatingSubs ::
          && (s.creatingSubs[o].provider.Pancake? || s.creatingSubs[o].provider.Epay?)
          && o in s.db.subs && SameSubTerms(s.db.subs[o], s.creatingSubs[o]))
  }

  ghost predicate Inv(s: State) {
    OrderLock.LockInv(s.lock) && WorkInv(s) && OrdersInv(s) && LedgerInv(s) && CreatingInv(s)
  }

  /** An access that changes one order and is good for it keeps everything except the writer's own stage. */
  lemma GoodDbKept(s: State, s': State, o: TradeNo)
    requires OrdersInv(s) && LedgerInv(s) && CreatingInv(s) && Good(s.db, s'.db, o)
    requires s'.creating == s.creating && s'.creatingSubs.Keys <= s.creatingSubs.Keys
    requires forall x | x in s'.creatingSubs :: s'.creatingSubs[x] == s.creatingSubs[x]
    ensures OrdersInv(s') && LedgerInv(s') && CreatingInv(s')
  {
    forall x ensures OrderOk(s'.db, x) {
      if x != o { assert OrderOk(s.db, x); }
    }
    GoodLedgerKept(s.db, s'.db, o);
  }

  lemma GoodLedgerKept(db: Db, db': Db, o: TradeNo)
    requires Good(db, db', o) && forall i | 0 <= i < |db.ledger| :: EntryRight(db, db.ledger[i])
    ensures forall i | 0 <= i < |db'.ledger| :: EntryRight(db', db'.ledger[i])
  {
    forall i | 0 <= i < |db'.ledger| ensures EntryRight(db', db'.ledger[i]) {
      if i < |db.ledger| {
        assert db'.ledger[i] == db.ledger[i];
        assert TermsKept(db, db', db.ledger[i].order);
        EntryStays(db, db', db.ledger[i]);
      }
    }
  }

  /** An entry stays right while its order is there and keeps its terms. */
  lemma EntryStays(db: Db, db': Db, e: Entry)
    requires EntryRight(db, e) && TermsKept(db, db', e.order) && db'.unit == db.unit
    ensures EntryRight(db', e)
  {
    if e.Credit? { CreditStaysRight(db, db', e); }
  }

  lemma EntriesStay(s: State, s': State)
    requires LedgerInv(s) && s'.db.ledger == s.db.ledger && s'.db.unit == s.db.unit
    requires forall o :: TermsKept(s.db, s'.db, o)
    ensures LedgerInv(s')
  {
    forall i | 0 <= i < |s'.db.ledger| ensures EntryRight(s'.db, s'.db.ledger[i]) {
      EntryStays(s.db, s'.db, s.db.ledger[i]);
    }
  }

  lemma AccessKept(s: State, t: Tid, ok: bool)
    requires Inv(s) && Enabled(s, Access(t, ok))
    ensures Inv(Apply(s, Access(t, ok)))
    ensures Good(s.db, Apply(s, Access(t, ok)).db, s.lock.threads[t].order)
  {
    var s' := Apply(s, Access(t, ok));
    var o := s.lock.threads[t].order;
    assert OrderOk(s.db, o);
    HandlerStepGood(s.db, o, s.work[t].cb, s.work[t].st, ok);
    GoodDbKept(s, s', o);
    OtherStagesKept(s, s', t);
  }

  /** The other callbacks of the same order are not in its critical section, and those of other orders see no change. */
  lemma OtherStagesKept(s: State, s': State, t: Tid)
    requires OrderLock.LockInv(s.lock) && WorkInv(s) && InCritical(s, t)
    requires SameElsewhere(s.db, s'.db, s.lock.threads[t].order)
    requires s'.lock == s.lock && t in s'.work && s'.work == s.work[t := s'.work[t]]
    requires StageOk(s'.db, s.lock.threads[t].order, s'.work[t].cb, s'.work[t].st)
    ensures WorkInv(s')
  {
    var o := s.lock.threads[t].order;
    forall x | x in s'.lock.threads
      ensures StageOk(s'.db, s'.lock.threads[x].order, s'.work[x].cb, s'.work[x].st)
    {
      if x != t && s.lock.threads[x].pc.Critical? && s.lock.threads[x].order == o {
        OrderLock.MutualExclusion(s.lock, t, x);
      }
    }
  }

  lemma LockKept(s: State, t: Tid)
    requires Inv(s) && Enabled(s, Lock(t))
    ensures Inv(Apply(s, Lock(t)))
  {
    OrderLock.AdvanceKept(s.lock, t);
    OrderLock.OthersStay(s.lock, t);
  }

  lemma BeginKept(s: State, t: Tid, o: TradeNo, cb: Callback)
    requires Inv(s) && Enabled(s, Begin(t, o, cb))
    ensures Inv(Apply(s, Begin(t, o, cb)))
  {
    OrderLock.EnterKept(s.lock, t, o);
  }

  lemma CreateTopUpKept(s: State, o: TradeNo, row: TopUp)
    requires Inv(s) && Enabled(s, CreateTopUp(o, row))
    ensures Inv(Apply(s, CreateTopUp(o, row)))
  {
    var s' := Apply(s, CreateTopUp(o, row));
    forall x ensures OrderOk(s'.db, x) { CreatedOk(s.db, s'.db, o, x); }
    EntriesStay(s, s');
    StagesKept(s, s');
  }

  lemma CreateSubKept(s: State, o: TradeNo, sub: SubOrder)
    requires Inv(s) && Enabled(s, CreateSub(o, sub))
    ensures Inv(Apply(s, CreateSub(o, sub)))
  {
    var s' := Apply(s, CreateSub(o, sub));
    forall x ensures OrderOk(s'.db, x) { CreatedOk(s.db, s'.db, o, x); }
    EntriesStay(s, s');
    StagesKept(s, s');
  }

  /** A new pending row in one of the two tables. */
  lemma CreatedOk(db: Db, db': Db, o: TradeNo, x: TradeNo)
    requires (forall y :: OrderOk(db, y)) && o !in db.topups && o !in db.subs && db'.ledger == db.ledger
    requires
      || (db'.subs == db.subs && o in db'.topups && db'.topups == db.topups[o := db'.topups[o]] &&
          db'.topups[o].status.Pending? && !db'.topups[o].provider.NoProvider?)
      || (db'.topups == db.topups && o in db'.subs && db'.subs == db.subs[o := db'.subs[o]] &&
          db'.subs[o].status.Pending?)
    ensures OrderOk(db', x)
  {
    assert OrderOk(db, x);
  }

  lemma WaffoNoticeKept(s: State, o: TradeNo, ok: bool)
    requires Inv(s)
    ensures Inv(Apply(s, WaffoNotice(o, ok)))
  {
    assert OrderOk(s.db, o);
    UpdatePendingGood(s.db, o, Waffo, Failed, ok);
    GoodDbKept(s, Apply(s, WaffoNotice(o, ok)), o);
    StagesKept(s, Apply(s, WaffoNotice(o, ok)));
  }

  /** The callbacks in their critical sections rely on nothing that the unlocked saves of old copies change. */
  lemma StagesKept(s: State, s': State)
    requires WorkInv(s) && s'.lock == s.lock && s'.work == s.work && s'.db.ledger == s.db.ledger
    requires forall o | o in s.db.topups && (s.db.topups[o].provider.Epay? || s.db.topups[o].provider.Stripe?) ::
      o in s'.db.topups && s'.db.topups[o] == s.db.topups[o]
    ensures WorkInv(s')
  {
    forall t | t in s'.lock.threads
      ensures t in s'.work && StageOk(s'.db, s'.lock.threads[t].order, s'.work[t].cb, s'.work[t].st)
    {
      assert StageOk(s.db, s.lock.threads[t].order, s.work[t].cb, s.work[t].st);
    }
  }

  lemma RequestFailedKept(s: State, o: TradeNo, ok: bool)
    requires Inv(s) && o in s.creating
    ensures Inv(Apply(s, RequestFailed(o, ok)))
  {
    var s' := Apply(s, RequestFailed(o, ok));
    RequestFailedOrders(s, o, ok);
    StagesKept(s, s');
  }

  lemma RequestFailedOrders(s: State, o: TradeNo, ok: bool)
    requires OrdersInv(s) && LedgerInv(s) && CreatingInv(s) && o in s.creating
    ensures var s' := Apply(s, RequestFailed(o, ok)); OrdersInv(s') && LedgerInv(s') && CreatingInv(s')
  {
    var s' := Apply(s, RequestFailed(o, ok));
    forall x ensures OrderOk(s'.db, x) { assert OrderOk(s.db, x); }
    EntriesStay(s, s');
  }

  lemma SubRequestFailedKept(s: State, o: TradeNo, ok: bool)
    requires Inv(s) && o in s.creatingSubs
    ensures Inv(Apply(s, SubRequestFailed(o, ok)))
  {
    var s' := Apply(s, SubRequestFailed(o, ok));
    SubRequestFailedOrders(s, o, ok);
    StagesKept(s, s');
  }

  lemma SubRequestFailedOrders(s: State, o: TradeNo, ok: bool)
    requires OrdersInv(s) && LedgerInv(s) && CreatingInv(s) && o in s.creatingSubs
    ensures var s' := Apply(s, SubRequestFailed(o, ok)); OrdersInv(s') && LedgerInv(s') && CreatingInv(s')
  {
    var s' := Apply(s, SubRequestFailed(o, ok));
    forall x ensures OrderOk(s'.db, x) { SubMovedOk(s.db, s'.db, o, x); }
    EntriesStay(s, s');
  }

  /** A subscription order is left as it is, or moved to Failed or Expired, from Pending or from anything. */
  lemma SubMovedOk(db: Db, db': Db, o: TradeNo, x: TradeNo)
    requires (forall y :: OrderOk(db, y)) && o in db.subs && db'.topups == db.topups && db'.ledger == db.ledger
    requires db' == db ||
      (o in db'.subs && db'.subs == db.subs[o := db'.subs[o]] &&
       (db'.subs[o].status.Failed? || db'.subs[o].status.Expired?))
    ensures OrderOk(db', x)
  {
    assert OrderOk(db, x);
  }

  /** Every step of every goroutine keeps the invariant. */
  lemma StepKept(s: State, step: Step)
    requires Inv(s) && Enabled(s, step)
    ensures Inv(Apply(s, step))
  {
    match step
    case Begin(t, o, cb) => BeginKept(s, t, o, cb);
    case Access(t, ok) => AccessKept(s, t, ok);
    case Lock(t) => LockKept(s, t);
    case RequestFailed(o, ok) => RequestFailedKept(s, o, ok);
    case SubRequestFailed(o, ok) => SubRequestFailedKept(s, o, ok);
    case WaffoNotice(o, ok) => WaffoNoticeKept(s, o, ok);
    case CreateTopUp(o, row) => CreateTopUpKept(s, o, row);
    case CreateSub(o, sub) => CreateSubKept(s, o, sub);
    case RequestDone(_) =>
    case SubRequestDone(_) =>
  }

  // ---------------------------------------------------------------- final statuses

  /** A final status changes in a step exactly when that step is a payment request, still waiting for the
      provider's answer, that fails and saves its old copy of a row that meanwhile became Success or Expired. */
  lemma FinalStatusChanges(s: State, step: Step, o: TradeNo)
    requires Inv(s) && Enabled(s, step) && FinalStatus(s.db, o)
    ensures o in Apply(s, step).db.topups
    ensures Apply(s, step).db.topups[o].status != s.db.topups[o].status <==>
      step == RequestFailed(o, true) && !s.db.topups[o].status.Failed?
  {
    if step.Access? { AccessKeepsStatus(s, step.t, step.ok, o); } else { WritersKeepStatus(s, step, o); }
  }

  lemma AccessKeepsStatus(s: State, t: Tid, ok: bool, o: TradeNo)
    requires Inv(s) && Enabled(s, Access(t, ok))
    ensures StatusKept(s.db, Apply(s, Access(t, ok)).db, o)
  {
    AccessKept(s, t, ok);
    GoodKeepsStatus(s.db, Apply(s, Access(t, ok)).db, s.lock.threads[t].order, o);
  }

  lemma GoodKeepsStatus(db: Db, db': Db, o: TradeNo, x: TradeNo)
    requires Good(db, db', o)
    ensures StatusKept(db, db', x)
  {
  }

  /** The writers outside the critical sections. */
  lemma WritersKeepStatus(s: State, step: Step, o: TradeNo)
    requires Enabled(s, step) && !step.Access? && CreatingInv(s)
    ensures FinalStatus(s.db, o) && step != RequestFailed(o, true) ==>
      o in Apply(s, step).db.topups && Apply(s, step).db.topups[o].status == s.db.topups[o].status
    ensures FinalSub(s.db, o) && step != SubRequestFailed(o, true) ==>
      o in Apply(s, step).db.subs && Apply(s, step).db.subs[o].status == s.db.subs[o].status
  {
  }

  /** For subscription orders only the request to Pancake does so. */
  lemma FinalSubChanges(s: State, step: Step, o: TradeNo)
    requires Inv(s) && Enabled(s, step) && FinalSub(s.db, o)
    ensures o in Apply(s, step).db.subs
    ensures Apply(s, step).db.subs[o].status != s.db.subs[o].status <==>
      step == SubRequestFailed(o, true) && s.creatingSubs[o].provider.Pancake? && !s.db.subs[o].status.Failed?
  {
    if step.Access? { AccessKeepsStatus(s, step.t, step.ok, o); } else { WritersKeepStatus(s, step, o); }
  }

  // ---------------------------------------------------------------- the history

  /** An order that was credited or granted is Success unless it was overwritten, and an overwritten one is Failed and
      will not be overwritten again. */
  ghost predicate OverwrittenInv(s: State) {
    && (forall o | Credits(s.db.ledger, o) == 1 && o !in s.overwritten ::
          o in s.db.topups && s.db.topups[o].status.Success?)
    && (forall o | o in s.overwritten :: o in s.db.topups && s.db.topups[o].status.Failed? && o !in s.creating)
  }

  ghost predicate OverwrittenSubsInv(s: State) {
    && (forall o | Grants(s.db.ledger, o) == 1 && o !in s.overwrittenSubs ::
          o in s.db.subs && s.db.subs[o].status.Success?)
    && (forall o | o in s.overwrittenSubs :: o in s.db.subs && s.db.subs[o].status.Failed? && o !in s.creatingSubs)
  }

  /** A callback that has saved the order as Success and is about to credit it. */
  predicate Crediting(s: State, t: Tid, o: TradeNo) {
    InCritical(s, t) && s.lock.threads[t].order == o && s.work[t].st.Saved?
  }

  /** The steps that the history records. */
  predicate Overwrites(s: State, step: Step, o: TradeNo) {
    step == RequestFailed(o, true) && FinalStatus(s.db, o) && !s.db.topups[o].status.Failed?
  }

  predicate OverwritesSub(s: State, step: Step, o: TradeNo) {
    && step == SubRequestFailed(o, true) && o in s.creatingSubs && !s.creatingSubs[o].provider.Epay?
    && FinalSub(s.db, o) && !s.db.subs[o].status.Failed?
  }

  predicate RefusesCredit(s: State, step: Step, o: TradeNo) {
    step.Access? && Crediting(s, step.t, o) && CreditRefused(s.db, s.work[step.t].st.row, step.ok)
  }

  lemma HistoryGrows(s: State, step: Step, o: TradeNo)
    requires Enabled(s, step)
    ensures o in Apply(s, step).overwritten <==> o in s.overwritten || Overwrites(s, step, o)
    ensures o in Apply(s, step).overwrittenSubs <==> o in s.overwrittenSubs || OverwritesSub(s, step, o)
    ensures o in Apply(s, step).lost <==> o in s.lost || RefusesCredit(s, step, o)
  {
  }

  /** Credits come with a callback's access only. */
  lemma CreditsStay(s: State, step: Step, o: TradeNo)
    requires Inv(s) && Enabled(s, step)
    ensures var s' := Apply(s, step);
      && (Credits(s'.db.ledger, o) > Credits(s.db.ledger, o) ==> o in s'.db.topups && s'.db.topups[o].status.Success?)
      && (Grants(s'.db.ledger, o) > Grants(s.db.ledger, o) ==> o in s'.db.subs && s'.db.subs[o].status.Success?)
  {
    if step.Access? {
      AccessKept(s, step.t, step.ok);
      NewEntryMeansSuccess(s.db, Apply(s, step).db, s.lock.threads[step.t].order, o);
    } else {
      LedgerUntouched(s, step);
    }
  }

  lemma NewEntryMeansSuccess(db: Db, db': Db, o: TradeNo, x: TradeNo)
    requires Good(db, db', o)
    ensures Credits(db'.ledger, x) > Credits(db.ledger, x) ==> x in db'.topups && db'.topups[x].status.Success?
    ensures Grants(db'.ledger, x) > Grants(db.ledger, x) ==> x in db'.subs && db'.subs[x].status.Success?
  {
  }

  lemma LedgerUntouched(s: State, step: Step)
    requires Enabled(s, step) && !step.Access?
    ensures Apply(s, step).db.ledger == s.db.ledger
  {
  }

  lemma OverwrittenKept(s: State, step: Step)
    requires Inv(s) && OverwrittenInv(s) && Enabled(s, step)
    ensures OverwrittenInv(Apply(s, step))
  {
    var s' := Apply(s, step);
    forall o
      ensures Credits(s'.db.ledger, o) == 1 && o !in s'.overwritten ==>
        o in s'.db.topups && s'.db.topups[o].status.Success?
      ensures o in s'.overwritten ==> o in s'.db.topups && s'.db.topups[o].status.Failed? && o !in s'.creating
    {
      CreditedStays(s, step, o);
      OverwrittenStays(s, step, o);
    }
  }

  lemma CreditedStays(s: State, step: Step, o: TradeNo)
    requires Inv(s) && OverwrittenInv(s) && Enabled(s, step)
    ensures var s' := Apply(s, step);
      Credits(s'.db.ledger, o) == 1 && o !in s'.overwritten ==> o in s'.db.topups && s'.db.topups[o].status.Success?
  {
    CreditsStay(s, step, o);
    HistoryGrows(s, step, o);
    assert OrderOk(s.db, o);
    if Credits(s.db.ledger, o) == 1 && o !in s.overwritten { FinalStatusChanges(s, step, o); }
  }

  lemma OverwrittenStays(s: State, step: Step, o: TradeNo)
    requires Inv(s) && OverwrittenInv(s) && Enabled(s, step)
    ensures var s' := Apply(s, step);
      o in s'.overwritten ==> o in s'.db.topups && s'.db.topups[o].status.Failed? && o !in s'.creating
  {
    HistoryGrows(s, step, o);
    if o in s.overwritten {
      FinalStatusChanges(s, step, o);
      CreatingShrinks(s, step, o);
    }
  }

  /** Requests wait for orders that were not there before. */
  lemma CreatingShrinks(s: State, step: Step, o: TradeNo)
    requires Enabled(s, step)
    ensures o in Apply(s, step).creating ==> o in s.creating || o !in s.db.topups
    ensures o in Apply(s, step).creatingSubs ==> o in s.creatingSubs || o !in s.db.subs
  {
  }

  lemma OverwrittenSubsKept(s: State, step: Step)
    requires Inv(s) && OverwrittenSubsInv(s) && Enabled(s, step)
    ensures OverwrittenSubsInv(Apply(s, step))
  {
    var s' := Apply(s, step);
    forall o
      ensures Grants(s'.db.ledger, o) == 1 && o !in s'.overwrittenSubs ==>
        o in s'.db.subs && s'.db.subs[o].status.Success?
      ensures o in s'.overwrittenSubs ==> o in s'.db.subs && s'.db.subs[o].status.Failed? && o !in s'.creatingSubs
    {
      GrantedStays(s, step, o);
      OverwrittenSubStays(s, step, o);
    }
  }

  lemma GrantedStays(s: State, step: Step, o: TradeNo)
    requires Inv(s) && OverwrittenSubsInv(s) && Enabled(s, step)
    ensures var s' := Apply(s, step);
      Grants(s'.db.ledger, o) == 1 && o !in s'.overwrittenSubs ==> o in s'.db.subs && s'.db.subs[o].status.Success?
  {
    CreditsStay(s, step, o);
    HistoryGrows(s, step, o);
    assert OrderOk(s.db, o);
    if Grants(s.db.ledger, o) == 1 && o !in s.overwrittenSubs { FinalSubChanges(s, step, o); }
  }

  lemma OverwrittenSubStays(s: State, step: Step, o: TradeNo)
    requires Inv(s) && OverwrittenSubsInv(s) && Enabled(s, step)
    ensures var s' := Apply(s, step);
      o in s'.overwrittenSubs ==> o in s'.db.subs && s'.db.subs[o].status.Failed? && o !in s'.creatingSubs
  {
    HistoryGrows(s, step, o);
    if o in s.overwrittenSubs {
      FinalSubChanges(s, step, o);
      CreatingShrinks(s, step, o);
    }
  }

  /** An Epay order that is Success without a credit is being credited, or its credit was refused, and not both. */
  ghost predicate LostInv(s: State) {
    && (forall o | EpayUncredited(s.db, o) && o !in s.lost :: exists t :: Crediting(s, t, o))
    && (forall o | o in s.lost :: EpayUncredited(s.db, o))
    && (forall o, t | o in s.lost :: !Crediting(s, t, o))
  }

  lemma CreditingAlone(s: State, t: Tid, t': Tid, o: TradeNo)
    requires Inv(s) && InCritical(s, t) && s.lock.threads[t].order == o && Crediting(s, t', o)
    ensures t == t'
  {
    OrderLock.MutualExclusion(s.lock, t, t');
  }

  /** The order of the callback that makes an access. */
  lemma LostAccessHere(s: State, t: Tid, ok: bool)
    requires Inv(s) && LostInv(s) && Enabled(s, Access(t, ok))
    ensures var s', o := Apply(s, Access(t, ok)), s.lock.threads[t].order;
      && (EpayUncredited(s'.db, o) && o !in s'.lost ==> exists t' :: Crediting(s', t', o))
      && (o in s'.lost ==> EpayUncredited(s'.db, o) && forall t' :: !Crediting(s', t', o))
  {
    var s', o, w := Apply(s, Access(t, ok)), s.lock.threads[t].order, s.work[t];
    assert OrderOk(s.db, o);
    EpayUncreditedStep(s.db, o, w.cb, w.st, ok);
    if EpayUncredited(s'.db, o) && o !in s'.lost {
      if !s'.work[t].st.Saved? {
        var t' :| Crediting(s, t', o);
        CreditingAlone(s, t, t', o);
        assert false;
      }
      assert Crediting(s', t, o);
    }
    if o in s'.lost {
      assert !w.st.Saved? || CreditRefused(s.db, w.st.row, ok) by { assert o in s.lost ==> !Crediting(s, t, o); }
      assert EpayUncredited(s.db, o);
      forall t' ensures !Crediting(s', t', o) {
        if t' != t && Crediting(s', t', o) {
          CreditingAlone(s, t, t', o);
          assert false;
        }
      }
    }
  }

  lemma AccessElsewhere(s: State, t: Tid, ok: bool, x: TradeNo)
    requires Enabled(s, Access(t, ok)) && x != s.lock.threads[t].order
    requires SameElsewhere(s.db, Apply(s, Access(t, ok)).db, s.lock.threads[t].order)
    ensures var s' := Apply(s, Access(t, ok));
      && (EpayUncredited(s'.db, x) <==> EpayUncredited(s.db, x)) && (x in s'.lost <==> x in s.lost)
      && forall t' :: Crediting(s', t', x) <==> Crediting(s, t', x)
  {
  }

  lemma LostAccessKept(s: State, t: Tid, ok: bool)
    requires Inv(s) && LostInv(s) && Enabled(s, Access(t, ok))
    ensures LostInv(Apply(s, Access(t, ok)))
  {
    AccessKept(s, t, ok);
    LostAccessHere(s, t, ok);
    LostEverywhere(s, Apply(s, Access(t, ok)), t, ok);
  }

  lemma LostEverywhere(s: State, s': State, t: Tid, ok: bool)
    requires LostInv(s) && Enabled(s, Access(t, ok)) && s' == Apply(s, Access(t, ok))
    requires SameElsewhere(s.db, s'.db, s.lock.threads[t].order)
    requires var o := s.lock.threads[t].order;
      && (EpayUncredited(s'.db, o) && o !in s'.lost ==> exists t' :: Crediting(s', t', o))
      && (o in s'.lost ==> EpayUncredited(s'.db, o) && forall t' :: !Crediting(s', t', o))
    ensures LostInv(s')
  {
    forall x
      ensures EpayUncredited(s'.db, x) && x !in s'.lost ==> exists t' :: Crediting(s', t', x)
      ensures x in s'.lost ==> EpayUncredited(s'.db, x) && forall t' :: !Crediting(s', t', x)
    {
      if x != s.lock.threads[t].order { AccessElsewhere(s, t, ok, x); }
    }
  }

  /** A step that leaves the Epay orders and the callbacks that are crediting one as they are. */
  lemma LostSame(s: State, s': State)
    requires LostInv(s) && s'.lost == s.lost
    requires forall o :: EpayUncredited(s'.db, o) <==> EpayUncredited(s.db, o)
    requires forall t, o :: Crediting(s', t, o) <==> Crediting(s, t, o)
    ensures LostInv(s')
  {
    forall o | EpayUncredited(s'.db, o) && o !in s'.lost ensures exists t :: Crediting(s', t, o) {
      var t :| Crediting(s, t, o);
      assert Crediting(s', t, o);
    }
  }

  /** Entering or leaving the critical section is no crediting. */
  lemma LockStarts(s: State, t: Tid)
    requires Inv(s) && Enabled(s, Lock(t))
    ensures forall o :: !Crediting(s, t, o) && !Crediting(Apply(s, Lock(t)), t, o)
  {
  }

  lemma CreditingSame(s: State, t: Tid, t': Tid, o: TradeNo)
    requires Inv(s) && Enabled(s, Lock(t))
    ensures Crediting(Apply(s, Lock(t)), t', o) <==> Crediting(s, t', o)
  {
    LockStarts(s, t);
    if t' != t { OrderLock.OtherStays(s.lock, t, t'); }
  }

  lemma LostLockKept(s: State, t: Tid)
    requires Inv(s) && LostInv(s) && Enabled(s, Lock(t))
    ensures LostInv(Apply(s, Lock(t)))
  {
    forall t', o ensures Crediting(Apply(s, Lock(t)), t', o) <==> Crediting(s, t', o) { CreditingSame(s, t, t', o); }
    LostSame(s, Apply(s, Lock(t)));
  }

  lemma LostKept(s: State, step: Step)
    requires Inv(s) && LostInv(s) && Enabled(s, step)
    ensures LostInv(Apply(s, step))
  {
    if step.Access? {
      LostAccessKept(s, step.t, step.ok);
    } else if step.Lock? {
      LostLockKept(s, step.t);
    } else {
      LostRestKept(s, step);
    }
  }

  lemma LostRestKept(s: State, step: Step)
    requires Inv(s) && LostInv(s) && Enabled(s, step) && !step.Access? && !step.Lock?
    ensures LostInv(Apply(s, step))
  {
    EpayOrdersSame(s, step);
    CreditingUntouched(s, step);
    LostSame(s, Apply(s, step));
  }

  lemma CreditingUntouched(s: State, step: Step)
    requires WorkInv(s) && Enabled(s, step) && !step.Access? && !step.Lock?
    ensures forall t, o :: Crediting(Apply(s, step), t, o) <==> Crediting(s, t, o)
    ensures Apply(s, step).lost == s.lost
  {
  }

  /** Epay orders and the ledger are written by callbacks only, once the order is there. */
  lemma EpayOrdersSame(s: State, step: Step)
    requires CreatingInv(s) && OrdersInv(s) && Enabled(s, step) && !step.Access? && !step.Lock?
    ensures forall o :: EpayUncredited(Apply(s, step).db, o) <==> EpayUncredited(s.db, o)
  {
  }

  // ---------------------------------------------------------------- runs

  /** `states` is a run of the process that takes `steps` from an empty database. */
  ghost predicate Run(states: seq<State>, steps: seq<Step>) {
    && |states| == |steps| + 1
    && (exists unit :: states[0] == Init(unit))
    && forall i {:trigger steps[i]} | 0 <= i < |steps| ::
         Enabled(states[i], steps[i]) && states[i + 1] == Apply(states[i], steps[i])
  }

  lemma {:induction false} RunInv(states: seq<State>, steps: seq<Step>, n: nat)
    requires Run(states, steps) && n < |states|
    ensures Inv(states[n])
  {
    if n > 0 {
      RunInv(states, steps, n - 1);
      StepKept(states[n - 1], steps[n - 1]);
    }
  }

  lemma {:induction false} RunHistory(states: seq<State>, steps: seq<Step>, n: nat)
    requires Run(states, steps) && n < |states|
    ensures OverwrittenInv(states[n]) && OverwrittenSubsInv(states[n]) && LostInv(states[n])
  {
    if n > 0 {
      RunHistory(states, steps, n - 1);
      RunInv(states, steps, n - 1);
      OverwrittenKept(states[n - 1], steps[n - 1]);
      OverwrittenSubsKept(states[n - 1], steps[n - 1]);
      LostKept(states[n - 1], steps[n - 1]);
    }
  }

  /** Some step from number i on and before number j did so. */
  ghost predicate EverOverwritten(states: seq<State>, steps: seq<Step>, i: nat, j: nat, o: TradeNo)
    requires j <= |steps| < |states|
  {
    exists k {:trigger steps[k]} :: i <= k < j && Overwrites(states[k], steps[k], o)
  }

  ghost predicate EverSubOverwritten(states: seq<State>, steps: seq<Step>, i: nat, j: nat, o: TradeNo)
    requires j <= |steps| < |states|
  {
    exists k {:trigger steps[k]} :: i <= k < j && OverwritesSub(states[k], steps[k], o)
  }

  ghost predicate EverRefused(states: seq<State>, steps: seq<Step>, i: nat, j: nat, o: TradeNo)
    requires j <= |steps| < |states|
  {
    exists k {:trigger steps[k]} :: i <= k < j && RefusesCredit(states[k], steps[k], o)
  }

  /** The history is what it says: an order is in it exactly when some step of the run put it there. */
  lemma HistoryExactlyWhen(states: seq<State>, steps: seq<Step>, n: nat, o: TradeNo)
    requires Run(states, steps) && n < |states|
    ensures o in states[n].overwritten <==> EverOverwritten(states, steps, 0, n, o)
    ensures o in states[n].overwrittenSubs <==> EverSubOverwritten(states, steps, 0, n, o)
    ensures o in states[n].lost <==> EverRefused(states, steps, 0, n, o)
  {
    OverwrittenWhen(states, steps, n, o);
    OverwrittenSubWhen(states, steps, n, o);
    LostWhen(states, steps, n, o);
  }

  lemma {:induction false} OverwrittenWhen(states: seq<State>, steps: seq<Step>, n: nat, o: TradeNo)
    requires Run(states, steps) && n < |states|
    ensures o in states[n].overwritten <==> EverOverwritten(states, steps, 0, n, o)
  {
    if n > 0 {
      OverwrittenWhen(states, steps, n - 1, o);
      HistoryGrows(states[n - 1], steps[n - 1], o);
    }
  }

  lemma {:induction false} OverwrittenSubWhen(states: seq<State>, steps: seq<Step>, n: nat, o: TradeNo)
    requires Run(states, steps) && n < |states|
    ensures o in states[n].overwrittenSubs <==> EverSubOverwritten(states, steps, 0, n, o)
  {
    if n > 0 {
      OverwrittenSubWhen(states, steps, n - 1, o);
      HistoryGrows(states[n - 1], steps[n - 1], o);
    }
  }

  lemma {:induction false} LostWhen(states: seq<State>, steps: seq<Step>, n: nat, o: TradeNo)
    requires Run(states, steps) && n < |states|
    ensures o in states[n].lost <==> EverRefused(states, steps, 0, n, o)
  {
    if n > 0 {
      LostWhen(states, steps, n - 1, o);
      HistoryGrows(states[n - 1], steps[n - 1], o);
    }
  }

  /** In every interleaving, no top-up order is credited twice and no subscription order granted twice; every
      entry went to the owner of its order, and every credit is for the quota the order calls for. */
  lemma CreditedAtMostOnce(states: seq<State>, steps: seq<Step>, n: nat)
    requires Run(states, steps) && n < |states|
    ensures forall o :: Credits(states[n].db.ledger, o) <= 1 && Grants(states[n].db.ledger, o) <= 1
    ensures forall i | 0 <= i < |states[n].db.ledger| :: EntryRight(states[n].db, states[n].db.ledger[i])
  {
    RunInv(states, steps, n);
    forall o ensures Credits(states[n].db.ledger, o) <= 1 && Grants(states[n].db.ledger, o) <= 1 {
      assert OrderOk(states[n].db, o);
    }
  }

  /** A credited order is Success exactly when no failed payment request has overwritten its final status; an order of a
      provider other than Epay that is Success has been credited. */
  lemma CreditMeansSuccess(states: seq<State>, steps: seq<Step>, n: nat, o: TradeNo)
    requires Run(states, steps) && n < |states|
    ensures Credits(states[n].db.ledger, o) == 1 ==>
      o in states[n].db.topups && (states[n].db.topups[o].status.Success? <==> !EverOverwritten(states, steps, 0, n, o))
    ensures o in states[n].db.topups && states[n].db.topups[o].status.Success? &&
            !states[n].db.topups[o].provider.Epay? && !states[n].db.topups[o].provider.NoProvider? ==>
      Credits(states[n].db.ledger, o) == 1
  {
    RunInv(states, steps, n);
    RunHistory(states, steps, n);
    HistoryExactlyWhen(states, steps, n, o);
    assert OrderOk(states[n].db, o);
  }

  /** The same for subscription orders. */
  lemma GrantMeansSuccess(states: seq<State>, steps: seq<Step>, n: nat, o: TradeNo)
    requires Run(states, steps) && n < |states|
    ensures Grants(states[n].db.ledger, o) == 1 ==>
      o in states[n].db.subs && (states[n].db.subs[o].status.Success? <==> !EverSubOverwritten(states, steps, 0, n, o))
    ensures o in states[n].db.subs && states[n].db.subs[o].status.Success? ==> Grants(states[n].db.ledger, o) == 1
  {
    RunInv(states, steps, n);
    RunHistory(states, steps, n);
    HistoryExactlyWhen(states, steps, n, o);
    assert OrderOk(states[n].db, o);
  }

  /** An Epay order that is Success, and that no callback is about to credit, has been credited exactly when no
      crediting access was refused. */
  lemma EpayCreditedExactlyWhen(states: seq<State>, steps: seq<Step>, n: nat, o: TradeNo)
    requires Run(states, steps) && n < |states| && o in states[n].db.topups
    requires states[n].db.topups[o].provider.Epay? && states[n].db.topups[o].status.Success?
    requires forall t :: !Crediting(states[n], t, o)
    ensures Credits(states[n].db.ledger, o) == 1 <==> !EverRefused(states, steps, 0, n, o)
  {
    RunInv(states, steps, n);
    RunHistory(states, steps, n);
    HistoryExactlyWhen(states, steps, n, o);
    assert OrderOk(states[n].db, o);
  }

  /** An order that has left Pending keeps its status for the rest of the run, unless overwritten as above. */
  lemma {:induction false} FinalStatusKept(states: seq<State>, steps: seq<Step>, i: nat, j: nat, o: TradeNo)
    requires Run(states, steps) && i <= j < |states| && FinalStatus(states[i].db, o)
    requires !EverOverwritten(states, steps, i, j, o)
    ensures FinalStatus(states[j].db, o) && states[j].db.topups[o].status == states[i].db.topups[o].status
  {
    if i < j {
      FinalStatusKept(states, steps, i, j - 1, o);
      FinalStatusStays(states, steps, j - 1, o);
    }
  }

  lemma FinalStatusStays(states: seq<State>, steps: seq<Step>, k: nat, o: TradeNo)
    requires Run(states, steps) && k < |steps| && FinalStatus(states[k].db, o) && !Overwrites(states[k], steps[k], o)
    ensures FinalStatus(states[k + 1].db, o) && states[k + 1].db.topups[o].status == states[k].db.topups[o].status
  {
    RunInv(states, steps, k);
    FinalStatusChanges(states[k], steps[k], o);
  }

  lemma {:induction false} FinalSubKept(states: seq<State>, steps: seq<Step>, i: nat, j: nat, o: TradeNo)
    requires Run(states, steps) && i <= j < |states| && FinalSub(states[i].db, o)
    requires !EverSubOverwritten(states, steps, i, j, o)
    ensures FinalSub(states[j].db, o) && states[j].db.subs[o].status == states[i].db.subs[o].status
  {
    if i < j {
      FinalSubKept(states, steps, i, j - 1, o);
      FinalSubStays(states, steps, j - 1, o);
    }
  }

  lemma FinalSubStays(states: seq<State>, steps: seq<Step>, k: nat, o: TradeNo)
    requires Run(states, steps) && k < |steps| && FinalSub(states[k].db, o) && !OverwritesSub(states[k], steps[k], o)
    ensures FinalSub(states[k + 1].db, o) && states[k + 1].db.subs[o].status == states[k].db.subs[o].status
  {
    RunInv(states, steps, k);
    FinalSubChanges(states[k], steps[k], o);
  }

  // ---------------------------------------------------------------- what the steps outside the lock do

  /** A new order is stored as it is; a request to one of the Waffos waits for the provider with a copy of it. */
  lemma OrderIsCreated(s: State, o: TradeNo, row: TopUp)
    requires Enabled(s, CreateTopUp(o, row))
    ensures var s' := Apply(s, CreateTopUp(o, row));
      && s'.db == s.db.(topups := s'.db.topups) && s'.db.topups == s.db.topups[o := row]
      && s'.creating == (if row.provider in {Waffo, Pancake} then s.creating[o := row] else s.creating)
      && s'.creatingSubs == s.creatingSubs && s'.lock == s.lock && s'.work == s.work
  {
  }

  lemma SubOrderIsCreated(s: State, o: TradeNo, sub: SubOrder)
    requires Enabled(s, CreateSub(o, sub))
    ensures var s' := Apply(s, CreateSub(o, sub));
      && s'.db == s.db.(subs := s'.db.subs) && s'.db.subs == s.db.subs[o := sub]
      && s'.creatingSubs == (if sub.provider in {Pancake, Epay} then s.creatingSubs[o := sub] else s.creatingSubs)
      && s'.creating == s.creating && s'.lock == s.lock && s'.work == s.work
  {
  }

  /** A request that fails leaves its order Failed, with the terms it was created with, whatever became of it; one that
      is answered, or whose last write fails, leaves it alone. */
  lemma RequestEnds(s: State, o: TradeNo, ok: bool)
    requires o in s.creating
    ensures Apply(s, RequestDone(o)).db == s.db && Apply(s, RequestFailed(o, false)).db == s.db
    ensures var db := Apply(s, RequestFailed(o, true)).db;
      db == s.db.(topups := s.db.topups[o := s.creating[o].(status := Failed)])
    ensures o !in Apply(s, RequestDone(o)).creating && o !in Apply(s, RequestFailed(o, ok)).creating
  {
  }

  /** For subscriptions: Pancake likewise, Epay by expiring an order that still waits. */
  lemma SubRequestEnds(s: State, o: TradeNo, ok: bool)
    requires CreatingInv(s) && o in s.creatingSubs
    ensures Apply(s, SubRequestDone(o)).db == s.db && Apply(s, SubRequestFailed(o, false)).db == s.db
    ensures var sub, db := s.creatingSubs[o], Apply(s, SubRequestFailed(o, true)).db;
      db == s.db.(subs :=
        if sub.provider == Pancake then s.db.subs[o := sub.(status := Failed)]
        else if s.db.subs[o].status == Pending then s.db.subs[o := s.db.subs[o].(status := Expired)]
        else s.db.subs)
    ensures o !in Apply(s, SubRequestDone(o)).creatingSubs && o !in Apply(s, SubRequestFailed(o, ok)).creatingSubs
  {
  }

  /** A Waffo failure notice fails the order that waits for a Waffo payment. */
  lemma NoticeFails(s: State, o: TradeNo, ok: bool)
    ensures Apply(s, WaffoNotice(o, ok)).db ==
      if ok && o in s.db.topups && s.db.topups[o].provider == Waffo && s.db.topups[o].status == Pending
      then s.db.(topups := s.db.topups[o := s.db.topups[o].(status := Failed)]) else s.db
  {
  }

  lemma RowsStay(s: State, step: Step, o: TradeNo)
    requires Inv(s) && Enabled(s, step) && o in s.db.topups
    ensures o in Apply(s, step).db.topups
  {
    assert OrderOk(s.db, o);
    if step.Access? { AccessKept(s, step.t, step.ok); }
  }

  /** A request ends once: after that it is not waiting any more, so it overwrites nothing. */
  lemma {:induction false} RequestEndsOnce(states: seq<State>, steps: seq<Step>, k: nat, j: nat, o: TradeNo)
    requires Run(states, steps) && k < j < |states|
    requires steps[k] == RequestDone(o) || (steps[k].RequestFailed? && steps[k].order == o)
    ensures o !in states[j].creating && o in states[j].db.topups
    ensures j < |steps| ==> !Overwrites(states[j], steps[j], o)
  {
    if j == k + 1 { NotWaiting(states, steps, k, o); } else {
      RequestEndsOnce(states, steps, k, j - 1, o);
      StillNotWaiting(states, steps, j - 1, o);
    }
  }

  lemma NotWaiting(states: seq<State>, steps: seq<Step>, k: nat, o: TradeNo)
    requires Run(states, steps) && k < |steps|
    requires steps[k] == RequestDone(o) || (steps[k].RequestFailed? && steps[k].order == o)
    ensures o !in states[k + 1].creating && o in states[k + 1].db.topups
  {
    RunInv(states, steps, k);
    RequestEnds(states[k], o, if steps[k].RequestFailed? then steps[k].ok else true);
  }

  lemma StillNotWaiting(states: seq<State>, steps: seq<Step>, k: nat, o: TradeNo)
    requires Run(states, steps) && k < |steps| && o !in states[k].creating && o in states[k].db.topups
    ensures o !in states[k + 1].creating && o in states[k + 1].db.topups
  {
    RunInv(states, steps, k);
    CreatingShrinks(states[k], steps[k], o);
    RowsStay(states[k], steps[k], o);
  }

  ghost predicate Reachable(s: State) {
    exists states, steps :: Run(states, steps) && states[|steps|] == s
  }

  lemma ReachableStep(s: State, step: Step)
    requires Reachable(s) && Enabled(s, step)
    ensures Reachable(Apply(s, step))
  {
    var states, steps :| Run(states, steps) && states[|steps|] == s;
    var states', steps' := states + [Apply(s, step)], steps + [step];
    assert states'[0] == states[0];
    assert Run(states', steps');
  }

  /** The overwriting happens: an order can be credited and then be marked Failed. */
  lemma CreditedOrderMarkedFailed() returns (s: State)
    ensures Reachable(s)
    ensures 1 in s.db.topups && s.db.topups[1].status.Failed? && Credits(s.db.ledger, 1) == 1
  {
    var row := TopUp(7, 1, 1.0, "waffo", Waffo, Pending);
    s := PaidAlone(row, WaffoPaid);
    WaffoCredits(s.db, row);
    s := Accessed(s, 0, true);
    s := TopUpSavedAsFailed(s);
  }

  lemma WaffoCredits(db: Db, row: TopUp)
    requires db == Db(500000.0, map[1 := row], map[], []) && row == TopUp(7, 1, 1.0, "waffo", Waffo, Pending)
    ensures Credits(HandlerStep(db, 1, WaffoPaid, Begun, true).0.ledger, 1) == 1
  {
    OneUnit(row);
    AppendCounts([], Credit(1, 7, 500000), 1);
    assert Complete(db, 1, 500000).ledger == [] + [Credit(1, 7, 500000)];
  }

  lemma OneUnit(row: TopUp)
    requires row.amount == 1 && row.provider.Waffo?
    ensures CallbackQuota(500000.0, row) == 500000
  {
  }

  lemma TopUpSavedAsFailed(s: State) returns (s': State)
    requires Reachable(s) && 1 in s.creating
    ensures Reachable(s') && s'.db.ledger == s.db.ledger && 1 in s'.db.topups && s'.db.topups[1].status.Failed?
  {
    ReachableStep(s, RequestFailed(1, true));
    s' := Apply(s, RequestFailed(1, true));
  }

  /** One access of a callback in its critical section. */
  lemma Accessed(s: State, t: Tid, ok: bool) returns (s': State)
    requires Reachable(s) && InCritical(s, t) && !s.work[t].st.Finished?
    ensures Reachable(s') && s'.lock == s.lock && s'.creating == s.creating && s'.creatingSubs == s.creatingSubs
    ensures var (db', st') := HandlerStep(s.db, s.lock.threads[t].order, s.work[t].cb, s.work[t].st, ok);
      s'.db == db' && s'.work == s.work[t := s.work[t].(st := st')]
  {
    ReachableStep(s, Access(t, ok));
    s' := Apply(s, Access(t, ok));
  }

  /** So can a subscription order that has been granted. */
  lemma GrantedOrderMarkedFailed() returns (s: State)
    ensures Reachable(s)
    ensures 1 in s.db.subs && s.db.subs[1].status.Failed? && Grants(s.db.ledger, 1) == 1
  {
    s := SubPaidAlone(SubOrder(7, 1.0, "waffo_pancake", Pancake, Pending), SubscriptionPaid(Pancake, ""));
    s := Accessed(s, 0, true);
    AppendCounts([], Grant(1, 7), 1);
    assert s.db.ledger == [] + [Grant(1, 7)];
    s := SavedAsFailed(s);
  }

  lemma SavedAsFailed(s: State) returns (s': State)
    requires Reachable(s) && 1 in s.creatingSubs && s.creatingSubs[1].provider.Pancake?
    ensures Reachable(s') && s'.db.ledger == s.db.ledger && 1 in s'.db.subs && s'.db.subs[1].status.Failed?
  {
    ReachableStep(s, SubRequestFailed(1, true));
    s' := Apply(s, SubRequestFailed(1, true));
  }

  /** An Epay order can end as Success without a credit: its row is saved and the next access fails. */
  lemma EpayOrderLeftUncredited() returns (s: State)
    ensures Reachable(s) && 1 in s.db.topups && s.db.topups[1].status.Success? && Credits(s.db.ledger, 1) == 0
    ensures forall t | t in s.work :: s.work[t].st.Finished?
  {
    s := PaidAlone(TopUp(7, 1, 1.0, "alipay", Epay, Pending), EpayNotify("alipay"));
    s := Accessed(s, 0, true);
    s := Accessed(s, 0, true);
    s := Accessed(s, 0, false);
  }

  /** One top-up order, and the one callback in its critical section. */
  lemma PaidAlone(row: TopUp, cb: Callback) returns (s: State)
    requires row.status.Pending? && !row.provider.NoProvider?
    ensures Reachable(s) && InCritical(s, 0) && s.lock.threads[0].order == 1 && s.work == map[0 := Work(cb, Begun)]
    ensures s.db == Db(500000.0, map[1 := row], map[], []) && (row.provider.Waffo? ==> s.creating == map[1 := row])
  {
    s := Init(500000.0);
    assert Run([s], []);
    ReachableStep(s, CreateTopUp(1, row));
    s := Apply(s, CreateTopUp(1, row));
    s := LockAlone(s, cb);
  }

  lemma SubPaidAlone(sub: SubOrder, cb: Callback) returns (s: State)
    requires sub.status.Pending? && sub.provider.Pancake?
    ensures Reachable(s) && InCritical(s, 0) && s.lock.threads[0].order == 1 && s.work == map[0 := Work(cb, Begun)]
    ensures s.db == Db(500000.0, map[], map[1 := sub], []) && s.creatingSubs == map[1 := sub]
  {
    s := Init(500000.0);
    assert Run([s], []);
    ReachableStep(s, CreateSub(1, sub));
    s := Apply(s, CreateSub(1, sub));
    s := LockAlone(s, cb);
  }

  lemma LockOnce(s: State) returns (s': State)
    requires Reachable(s) && 0 in s.work && OrderLock.CanAdvance(s.lock, 0) && !s.lock.threads[0].pc.Critical?
    ensures Reachable(s') && s' == s.(lock := OrderLock.Advance(s.lock, 0))
  {
    ReachableStep(s, Lock(0));
    s' := Apply(s, Lock(0));
  }

  /** A goroutine alone in the process gets its lock. */
  lemma LockAlone(s: State, cb: Callback) returns (s': State)
    requires Reachable(s) && s.lock == OrderLock.UNLOCKED && s.work == map[]
    ensures Reachable(s') && s'.lock.threads.Keys == {0} && s'.lock.threads[0].order == 1
    ensures s'.lock.threads[0].pc.Critical?
    ensures s' == s.(lock := s'.lock, work := map[0 := Work(cb, Begun)])
  {
    ReachableStep(s, Begin(0, 1, cb));
    s' := LockSteps(Apply(s, Begin(0, 1, cb)));
  }

  lemma LockSteps(s: State) returns (s': State)
    requires Reachable(s) && 0 in s.work && s.lock == OrderLock.Enter(OrderLock.UNLOCKED, 0, 1)
    ensures Reachable(s') && s'.lock.threads.Keys == {0} && s'.lock.threads[0].order == 1
    ensures s'.lock.threads[0].pc.Critical?
    ensures s' == s.(lock := s'.lock)
  {
    s' := LockOnce(s);
    s' := LockOnce(s');
    s' := MiddleStep(s');
  }

  /** About to be counted, and alone. */
  lemma MiddleStep(s: State) returns (s': State)
    requires Reachable(s) && 0 in s.work && s.lock.threads == map[0 := OrderLock.Thread(1, OrderLock.Counting(0))]
    requires 0 in s.lock.heap && s.lock.heap[0].holder.None?
    ensures Reachable(s') && s'.lock.threads.Keys == {0} && s'.lock.threads[0].order == 1
    ensures s'.lock.threads[0].pc.Critical?
    ensures s' == s.(lock := s'.lock)
  {
    s' := LockOnce(s);
    s' := LastSteps(s');
  }

  /** Counted and alone. */
  lemma LastSteps(s: State) returns (s': State)
    requires Reachable(s) && 0 in s.work && s.lock.threads == map[0 := OrderLock.Thread(1, OrderLock.Counted(0))]
    requires 0 in s.lock.heap && s.lock.heap[0].holder.None?
    ensures Reachable(s') && s'.lock.threads.Keys == {0} && s'.lock.threads[0].order == 1
    ensures s'.lock.threads[0].pc.Critical?
    ensures s' == s.(lock := s'.lock)
  {
    s' := LockOnce(s);
    s' := LockOnce(s');
  }

  /** The lock's guarantees hold in every reachable state, and the process never gets stuck. */
  lemma LockGuarantees(states: seq<State>, steps: seq<Step>, n: nat)
    requires Run(states, steps) && n < |states|
    ensures !states[n].lock.missed && !states[n].lock.crashed
    ensures forall t, t' | InCritical(states[n], t) && InCritical(states[n], t') &&
                           states[n].lock.threads[t].order == states[n].lock.threads[t'].order :: t == t'
    ensures states[n].lock.threads == map[] ==> states[n].lock.orderLocks == map[]
    ensures states[n].lock.threads != map[] ==>
      exists t: Tid :: Enabled(states[n], Lock(t)) || Enabled(states[n], Access(t, true))
  {
    var s := states[n];
    RunInv(states, steps, n);
    forall t, t' | InCritical(s, t) && InCritical(s, t') && s.lock.threads[t].order == s.lock.threads[t'].order
      ensures t == t'
    {
      OrderLock.MutualExclusion(s.lock, t, t');
    }
    if s.lock.threads == map[] {
      OrderLock.QuiescentMapIsEmpty(s.lock);
    } else {
      OrderLock.NoDeadlock(s.lock);
      var t :| OrderLock.CanAdvance(s.lock, t);
      assert Enabled(s, Lock(t)) || Enabled(s, Access(t, true));
    }
  }
}
