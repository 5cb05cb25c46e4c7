/** Top-up and subscription orders, the database transactions that complete them, and the payment
    callbacks as sequences of database accesses.

    A callback is not one transaction: EpayNotify reads the row, saves it and credits the user in
    three separate accesses, and every access may fail.  `HandlerStep` performs one access, so that
    callbacks can be interleaved access by access. */
module PaymentOrders {
  import opened Basics

  datatype Status = Pending | Success | Failed | Expired

  datatype Provider = NoProvider | Epay | Stripe | Creem | Waffo | Pancake

  datatype TopUp = TopUp(user: nat, amount: int, money: real, payMethod: string, provider: Provider, status: Status)

  datatype SubOrder = SubOrder(user: nat, money: real, payMethod: string, provider: Provider, status: Status)

  /** What the users received, oldest first. */
  datatype Entry =
    | Credit(order: TradeNo, user: nat, quota: int)
    | Grant(order: TradeNo, user: nat)

  /** `unit` is common.QuotaPerUnit. */
  datatype Db = Db(unit: real, topups: map<TradeNo, TopUp>, subs: map<TradeNo, SubOrder>, ledger: seq<Entry>)

  ghost function Credits(ledger: seq<Entry>, o: TradeNo): nat {
    if ledger == [] then 0 else
    var last := ledger[|ledger| - 1];
    Credits(ledger[..|ledger| - 1], o) + (if last.Credit? && last.order == o then 1 else 0)
  }

  ghost function Grants(ledger: seq<Entry>, o: TradeNo): nat {
    if ledger == [] then 0 else
    var last := ledger[|ledger| - 1];
    Grants(ledger[..|ledger| - 1], o) + (if last.Grant? && last.order == o then 1 else 0)
  }

  // ---------------------------------------------------------------- database transactions

  /** decimal.IntPart: truncation toward zero. */
  function Trunc(x: real): int {
    if x >= 0.0 then x.Floor else -((-x).Floor)
  }

  /** The quota a provider's own callback credits for an order. */
  function CallbackQuota(unit: real, row: TopUp): int {
    match row.provider
    case Stripe => Trunc(row.money * unit)
    case Creem => row.amount
    case _ => Trunc(row.amount as real * unit)
  }

  /** The quota ManualCompleteTopUp credits for an order. */
  function ManualQuota(unit: real, row: TopUp): int {
    if row.provider.Stripe? then Trunc(row.money * unit) else Trunc(row.amount as real * unit)
  }

  /** The row becomes Success and the user is credited, in one transaction. */
  function Complete(db: Db, o: TradeNo, quota: int): Db
    requires o in db.topups
  {
    var row := db.topups[o];
    db.(topups := db.topups[o := row.(status := Success)], ledger := db.ledger + [Credit(o, row.user, quota)])
  }

  /** Recharge, RechargeCreem, RechargeWaffo and RechargeWaffoPancake; `ok` says that no access failed.
      The two Waffo transactions also refuse a quota that is not positive. */
  function Recharge(db: Db, o: TradeNo, p: Provider, ok: bool): Db {
    if ok && o in db.topups && db.topups[o].provider == p && db.topups[o].status.Pending? &&
       ((p.Waffo? || p.Pancake?) ==> CallbackQuota(db.unit, db.topups[o]) > 0)
    then Complete(db, o, CallbackQuota(db.unit, db.topups[o]))
    else db
  }

  function ManualComplete(db: Db, o: TradeNo, ok: bool): Db {
    if ok && o in db.topups && db.topups[o].status.Pending? && ManualQuota(db.unit, db.topups[o]) > 0
    then Complete(db, o, ManualQuota(db.unit, db.topups[o]))
    else db
  }

  function UpdatePending(db: Db, o: TradeNo, p: Provider, target: Status, ok: bool): Db {
    if ok && o in db.topups && db.topups[o].provider == p && db.topups[o].status.Pending?
    then db.(topups := db.topups[o := db.topups[o].(status := target)])
    else db
  }

  /** CompleteSubscriptionOrder: grants the subscription, mirrors the order as a top-up row of the same
      trade number, and marks the order.  The caller learns whether a subscription order exists. */
  function CompleteSub(db: Db, o: TradeNo, p: Provider, payMethod: string, ok: bool): Db {
    if o !in db.subs || db.subs[o].provider != p || !db.subs[o].status.Pending? || !ok then db else
    var sub := db.subs[o];
    if o in db.topups && db.topups[o].payMethod != "" && db.topups[o].payMethod != sub.payMethod then db else
    var mirror :=
      if o in db.topups then
        var row := db.topups[o];
        row.(money := sub.money, payMethod := if row.payMethod == "" then sub.payMethod else row.payMethod,
             status := Success)
      else TopUp(sub.user, 0, sub.money, sub.payMethod, NoProvider, Success);
    var paid := sub.(status := Success, payMethod := if payMethod != "" then payMethod else sub.payMethod);
    db.(topups := db.topups[o := mirror], subs := db.subs[o := paid], ledger := db.ledger + [Grant(o, sub.user)])
  }

  function ExpireSub(db: Db, o: TradeNo, p: Provider, ok: bool): Db {
    if ok && o in db.subs && db.subs[o].provider == p && db.subs[o].status.Pending?
    then db.(subs := db.subs[o := db.subs[o].(status := Expired)])
    else db
  }

  // ---------------------------------------------------------------- callbacks

  datatype Callback =
    | EpayNotify(payMethod: string)
    | StripeFulfil
    | StripeAsyncFailed
    | StripeExpired
    | CreemPaid(oneTime: bool)
    | WaffoPaid
    | PancakePaid
    | AdminComplete
    | SubscriptionPaid(provider: Provider, payMethod: string)

  /** How far a callback has come inside its critical section. */
  datatype Stage =
    | Begun
    | NotSubscription
    | Confirmed
    | Loaded(row: TopUp)
    | Saved(row: TopUp)
    | Finished

  /** The next database access of a callback. */
  function HandlerStep(db: Db, o: TradeNo, cb: Callback, st: Stage, ok: bool): (Db, Stage) {
    match cb
    case EpayNotify(payMethod) => EpayStep(db, o, payMethod, st, ok)
    case StripeAsyncFailed =>
      (match st
       case Begun =>
         if o in db.topups && db.topups[o].provider.Stripe? && db.topups[o].status.Pending?
         then (db, Loaded(db.topups[o])) else (db, Finished)
       case Loaded(row) =>
         (if ok then db.(topups := db.topups[o := row.(status := Failed)]) else db, Finished)
       case _ => (db, Finished))
    case StripeFulfil =>
      (match st
       case Begun => (CompleteSub(db, o, Stripe, "", ok), if o in db.subs then Finished else NotSubscription)
       case NotSubscription => (Recharge(db, o, Stripe, ok), Finished)
       case _ => (db, Finished))
    case StripeExpired =>
      (match st
       case Begun => (ExpireSub(db, o, Stripe, ok), if o in db.subs then Finished else NotSubscription)
       case NotSubscription => (UpdatePending(db, o, Stripe, Expired, ok), Finished)
       case _ => (db, Finished))
    case CreemPaid(oneTime) =>
      (match st
       case Begun =>
         (CompleteSub(db, o, Creem, "", ok), if o in db.subs || !oneTime then Finished else NotSubscription)
       case NotSubscription =>
         if o in db.topups && db.topups[o].status.Pending? then (db, Confirmed) else (db, Finished)
       case Confirmed => (Recharge(db, o, Creem, ok), Finished)
       case _ => (db, Finished))
    case WaffoPaid => (Recharge(db, o, Waffo, ok), Finished)
    case PancakePaid => (Recharge(db, o, Pancake, ok), Finished)
    case AdminComplete => (ManualComplete(db, o, ok), Finished)
    case SubscriptionPaid(p, payMethod) => (CompleteSub(db, o, p, payMethod, ok), Finished)
  }

  /** EpayNotify: read and check the row, save it as Success, then credit the user. */
  function EpayStep(db: Db, o: TradeNo, payMethod: string, st: Stage, ok: bool): (Db, Stage) {
    match st
    case Begun =>
      if o in db.topups && db.topups[o].provider.Epay? && db.topups[o].status.Pending?
      then (db, Loaded(db.topups[o].(payMethod := payMethod))) else (db, Finished)
    case Loaded(row) =>
      var row' := row.(status := Success);
      if ok then (db.(topups := db.topups[o := row']), Saved(row')) else (db, Finished)
    case Saved(row) =>
      var quota := CallbackQuota(db.unit, row);
      // IncreaseUserQuota refuses a negative amount
      (if ok && quota >= 0 then db.(ledger := db.ledger + [Credit(o, row.user, quota)]) else db, Finished)
    case _ => (db, Finished)
  }

  // ---------------------------------------------------------------- invariants

  /** What holds of every order between database accesses. */
  ghost predicate OrderOk(db: Db, o: TradeNo) {
    && Credits(db.ledger, o) <= 1
    && Grants(db.ledger, o) <= 1
    && (Credits(db.ledger, o) == 1 ==> o in db.topups && !db.topups[o].status.Pending?)
    && (Grants(db.ledger, o) == 1 ==> o in db.subs && !db.subs[o].status.Pending?)
    && (o in db.topups && o in db.subs ==> db.topups[o].provider.NoProvider?)
    && (o in db.topups && db.topups[o].provider.NoProvider? ==> o in db.subs && db.topups[o].status.Success?)
    && (o in db.topups && db.topups[o].status.Success? &&
        !db.topups[o].provider.Epay? && !db.topups[o].provider.NoProvider? ==>
          Credits(db.ledger, o) == 1)
    && (o in db.subs && db.subs[o].status.Success? ==> Grants(db.ledger, o) == 1)
  }

  /** What a callback that has locked order `o` relies on at its current stage. */
  ghost predicate StageOk(db: Db, o: TradeNo, cb: Callback, st: Stage) {
    match st
    case Loaded(row) =>
      && o in db.topups && db.topups[o].status.Pending?
      && (cb.EpayNotify? || cb.StripeAsyncFailed?)
      && row == db.topups[o].(payMethod := row.payMethod)
      && row.provider == (if cb.EpayNotify? then Epay else Stripe)
    case Saved(row) =>
      && cb.EpayNotify? && o in db.topups && db.topups[o] == row
      && row.provider.Epay? && row.status.Success? && Credits(db.ledger, o) == 0
    case _ => true
  }

  /** Nothing about any other order changes. */
  ghost predicate SameElsewhere(db: Db, db': Db, o: TradeNo) {
    forall x: TradeNo | x != o ::
      && (x in db.topups <==> x in db'.topups)
      && (x in db.topups ==> db'.topups[x] == db.topups[x])
      && (x in db.subs <==> x in db'.subs)
      && (x in db.subs ==> db'.subs[x] == db.subs[x])
      && Credits(db'.ledger, x) == Credits(db.ledger, x)
      && Grants(db'.ledger, x) == Grants(db.ledger, x)
  }

  lemma AppendCounts(ledger: seq<Entry>, e: Entry, x: TradeNo)
    ensures Credits(ledger + [e], x) == Credits(ledger, x) + (if e.Credit? && e.order == x then 1 else 0)
    ensures Grants(ledger + [e], x) == Grants(ledger, x) + (if e.Grant? && e.order == x then 1 else 0)
  {
    assert (ledger + [e])[..|ledger|] == ledger;
  }

  lemma AppendElsewhere(db: Db, db': Db, o: TradeNo, e: Entry)
    requires db'.ledger == db.ledger + [e] && e.order == o
    requires forall x: TradeNo | x != o ::
      && (x in db.topups <==> x in db'.topups) && (x in db.topups ==> db'.topups[x] == db.topups[x])
      && (x in db.subs <==> x in db'.subs) && (x in db.subs ==> db'.subs[x] == db.subs[x])
    ensures SameElsewhere(db, db', o)
    ensures Credits(db'.ledger, o) == Credits(db.ledger, o) + (if e.Credit? then 1 else 0)
    ensures Grants(db'.ledger, o) == Grants(db.ledger, o) + (if e.Grant? then 1 else 0)
  {
    forall x: TradeNo
      ensures Credits(db'.ledger, x) == Credits(db.ledger, x) + (if e.Credit? && e.order == x then 1 else 0)
      ensures Grants(db'.ledger, x) == Grants(db.ledger, x) + (if e.Grant? && e.order == x then 1 else 0)
    {
      AppendCounts(db.ledger, e, x);
    }
  }

  /** The rows of an order that has left Pending keep their status. */
  ghost predicate StatusKept(db: Db, db': Db, o: TradeNo) {
    && (o in db.topups && !db.topups[o].status.Pending? ==>
          o in db'.topups && db'.topups[o].status == db.topups[o].status)
    && (o in db.subs && !db.subs[o].status.Pending? ==> o in db'.subs && db'.subs[o].status == db.subs[o].status)
  }

  /** The entry went to the owner of the order, a credit for the quota that the order calls for. */
  ghost predicate EntryRight(db: Db, e: Entry) {
    match e
    case Credit(o, user, quota) =>
      && o in db.topups && user == db.topups[o].user && !db.topups[o].provider.NoProvider?
      && (quota == CallbackQuota(db.unit, db.topups[o]) || quota == ManualQuota(db.unit, db.topups[o]))
    case Grant(o, user) => o in db.subs && user == db.subs[o].user
  }

  /** Whatever this access wrote to the ledger is right, and leaves the order Success. */
  ghost predicate EntriesRight(db: Db, db': Db, o: TradeNo) {
    && (forall i | |db.ledger| <= i < |db'.ledger| :: db'.ledger[i].order == o && EntryRight(db', db'.ledger[i]))
    && (Credits(db'.ledger, o) > Credits(db.ledger, o) ==> o in db'.topups && db'.topups[o].status.Success?)
    && (Grants(db'.ledger, o) > Grants(db.ledger, o) ==> o in db'.subs && db'.subs[o].status.Success?)
  }

  /** The terms of an order do not change. */
  ghost predicate TermsKept(db: Db, db': Db, o: TradeNo) {
    && (o in db.topups && !db.topups[o].provider.NoProvider? ==>
          o in db'.topups && SameTerms(db.topups[o], db'.topups[o]))
    && (o in db.subs ==> o in db'.subs && SameSubTerms(db.subs[o], db'.subs[o]))
  }

  ghost predicate SameSubTerms(a: SubOrder, b: SubOrder) {
    a.user == b.user && a.money == b.money && a.provider == b.provider
  }

  ghost predicate SameTerms(a: TopUp, b: TopUp) {
    a.user == b.user && a.amount == b.amount && a.money == b.money && a.provider == b.provider
  }

  ghost predicate Good(db: Db, db': Db, o: TradeNo) {
    && SameElsewhere(db, db', o) && OrderOk(db', o) && StatusKept(db, db', o) && TermsKept(db, db', o)
    && db.ledger <= db'.ledger && db'.unit == db.unit && EntriesRight(db, db', o)
  }

  /** The quotas of an order depend on its terms only. */
  lemma SameQuotas(unit: real, a: TopUp, b: TopUp)
    requires SameTerms(a, b)
    ensures CallbackQuota(unit, a) == CallbackQuota(unit, b) && ManualQuota(unit, a) == ManualQuota(unit, b)
  {
  }

  /** A credit that was right stays right while the terms of its order stay. */
  lemma CreditStaysRight(db: Db, db': Db, e: Entry)
    requires e.Credit? && EntryRight(db, e) && db'.unit == db.unit
    requires e.order in db'.topups && SameTerms(db.topups[e.order], db'.topups[e.order])
    ensures EntryRight(db', e)
  {
    SameQuotas(db.unit, db.topups[e.order], db'.topups[e.order]);
  }

  /** An access that changes no more than the status and the payment method of a top-up row. */
  ghost predicate RowMoved(db: Db, db': Db, o: TradeNo, row: TopUp) {
    && o in db.topups && !db.topups[o].provider.NoProvider? && SameTerms(db.topups[o], row)
    && db'.topups == db.topups[o := row] && db'.subs == db.subs && db'.unit == db.unit
  }

  /** Such a change alone, of a row that is still pending. */
  lemma MovedGood(db: Db, db': Db, o: TradeNo, row: TopUp)
    requires OrderOk(db, o) && RowMoved(db, db', o, row) && db'.ledger == db.ledger
    requires db.topups[o].status.Pending? && !row.status.Pending? && (row.status.Success? ==> row.provider.Epay?)
    ensures Good(db, db', o)
  {
  }

  /** The row is Success and its user is credited for the first time. */
  lemma CreditedGood(db: Db, db': Db, o: TradeNo, row: TopUp, e: Entry)
    requires OrderOk(db, o) && RowMoved(db, db', o, row) && db'.ledger == db.ledger + [e]
    requires row.status.Success? && Credits(db.ledger, o) == 0
    requires db.topups[o].status.Pending? || db.topups[o].status.Success?
    requires e.Credit? && e.order == o && EntryRight(db, e)
    ensures Good(db, db', o)
  {
    AppendElsewhere(db, db', o, e);
    CreditStaysRight(db, db', e);
    NewEntryRight(db, db', o, e);
  }

  lemma NewEntryRight(db: Db, db': Db, o: TradeNo, e: Entry)
    requires db'.ledger == db.ledger + [e] && e.order == o && EntryRight(db', e)
    requires e.Credit? ==> o in db'.topups && db'.topups[o].status.Success?
    requires e.Grant? ==> o in db'.subs && db'.subs[o].status.Success?
    requires Credits(db'.ledger, o) == Credits(db.ledger, o) + (if e.Credit? then 1 else 0)
    requires Grants(db'.ledger, o) == Grants(db.ledger, o) + (if e.Grant? then 1 else 0)
    ensures EntriesRight(db, db', o)
  {
    forall i | |db.ledger| <= i < |db'.ledger| ensures db'.ledger[i].order == o && EntryRight(db', db'.ledger[i]) {
      assert db'.ledger[i] == e;
    }
  }

  lemma CompleteGood(db: Db, o: TradeNo, quota: int)
    requires OrderOk(db, o) && o in db.topups && db.topups[o].status.Pending?
    requires quota == CallbackQuota(db.unit, db.topups[o]) || quota == ManualQuota(db.unit, db.topups[o])
    ensures Good(db, Complete(db, o, quota), o)
  {
    var row := db.topups[o];
    CreditedGood(db, Complete(db, o, quota), o, row.(status := Success), Credit(o, row.user, quota));
  }

  lemma CompleteSubGood(db: Db, o: TradeNo, p: Provider, payMethod: string, ok: bool)
    requires OrderOk(db, o)
    ensures Good(db, CompleteSub(db, o, p, payMethod, ok), o)
  {
    var db' := CompleteSub(db, o, p, payMethod, ok);
    if db'.ledger != db.ledger {
      var e := Grant(o, db.subs[o].user);
      AppendElsewhere(db, db', o, e);
      NewEntryRight(db, db', o, e);
    }
  }

  /** One access of a callback keeps its order consistent, touches no other order, never moves an order
      out of a final status, and leaves the callback's own stage consistent. */
  lemma HandlerStepGood(db: Db, o: TradeNo, cb: Callback, st: Stage, ok: bool)
    requires OrderOk(db, o) && StageOk(db, o, cb, st)
    ensures var (db', st') := HandlerStep(db, o, cb, st, ok);
      Good(db, db', o) && StageOk(db', o, cb, st')
  {
    match cb
    case EpayNotify(_) => EpayStepGood(db, o, cb, st, ok);
    case StripeAsyncFailed => AsyncFailedGood(db, o, st, ok);
    case StripeExpired => StripeExpiredGood(db, o, st, ok);
    case StripeFulfil => FulfilGood(db, o, cb, Stripe, st, ok);
    case CreemPaid(_) => FulfilGood(db, o, cb, Creem, st, ok);
    case WaffoPaid => RechargeGood(db, o, Waffo, ok);
    case PancakePaid => RechargeGood(db, o, Pancake, ok);
    case AdminComplete => ManualGood(db, o, ok);
    case SubscriptionPaid(p, payMethod) => CompleteSubGood(db, o, p, payMethod, ok);
  }

  lemma FulfilGood(db: Db, o: TradeNo, cb: Callback, p: Provider, st: Stage, ok: bool)
    requires OrderOk(db, o) && StageOk(db, o, cb, st)
    requires (cb.StripeFulfil? && p.Stripe?) || (cb.CreemPaid? && p.Creem?)
    ensures var (db', st') := HandlerStep(db, o, cb, st, ok);
      Good(db, db', o) && StageOk(db', o, cb, st')
  {
    CompleteSubGood(db, o, p, "", ok);
    RechargeGood(db, o, p, ok);
    NothingGood(db, o);
  }

  lemma NothingGood(db: Db, o: TradeNo)
    requires OrderOk(db, o)
    ensures Good(db, db, o)
  {
  }

  lemma AsyncFailedGood(db: Db, o: TradeNo, st: Stage, ok: bool)
    requires OrderOk(db, o) && StageOk(db, o, StripeAsyncFailed, st)
    ensures var (db', st') := HandlerStep(db, o, StripeAsyncFailed, st, ok);
      Good(db, db', o) && StageOk(db', o, StripeAsyncFailed, st')
  {
    NothingGood(db, o);
    if st.Loaded? && ok {
      var row := st.row.(status := Failed);
      MovedGood(db, db.(topups := db.topups[o := row]), o, row);
    }
  }

  lemma StripeExpiredGood(db: Db, o: TradeNo, st: Stage, ok: bool)
    requires OrderOk(db, o) && StageOk(db, o, StripeExpired, st)
    ensures var (db', st') := HandlerStep(db, o, StripeExpired, st, ok);
      Good(db, db', o) && StageOk(db', o, StripeExpired, st')
  {
    NothingGood(db, o);
    ExpireSubGood(db, o, Stripe, ok);
    UpdatePendingGood(db, o, Stripe, Expired, ok);
  }

  lemma ExpireSubGood(db: Db, o: TradeNo, p: Provider, ok: bool)
    requires OrderOk(db, o)
    ensures Good(db, ExpireSub(db, o, p, ok), o)
  {
  }

  lemma RechargeGood(db: Db, o: TradeNo, p: Provider, ok: bool)
    requires OrderOk(db, o)
    ensures Good(db, Recharge(db, o, p, ok), o)
  {
    NothingGood(db, o);
    if Recharge(db, o, p, ok) != db { CompleteGood(db, o, CallbackQuota(db.unit, db.topups[o])); }
  }

  lemma ManualGood(db: Db, o: TradeNo, ok: bool)
    requires OrderOk(db, o)
    ensures Good(db, ManualComplete(db, o, ok), o)
  {
    NothingGood(db, o);
    if ManualComplete(db, o, ok) != db { CompleteGood(db, o, ManualQuota(db.unit, db.topups[o])); }
  }

  lemma UpdatePendingGood(db: Db, o: TradeNo, p: Provider, target: Status, ok: bool)
    requires OrderOk(db, o) && (target.Failed? || target.Expired?) && !p.NoProvider?
    ensures Good(db, UpdatePending(db, o, p, target, ok), o)
  {
    var db' := UpdatePending(db, o, p, target, ok);
    NothingGood(db, o);
    if db' != db { MovedGood(db, db', o, db.topups[o].(status := target)); }
  }

  lemma EpayStepGood(db: Db, o: TradeNo, cb: Callback, st: Stage, ok: bool)
    requires cb.EpayNotify? && OrderOk(db, o) && StageOk(db, o, cb, st)
    ensures var (db', st') := EpayStep(db, o, cb.payMethod, st, ok);
      Good(db, db', o) && StageOk(db', o, cb, st')
  {
    var (db', st') := EpayStep(db, o, cb.payMethod, st, ok);
    NothingGood(db, o);
    if st.Loaded? && ok {
      MovedGood(db, db', o, st.row.(status := Success));
    } else if st.Saved? && db' != db {
      EpayCreditGood(db, o, cb, st.row);
    }
  }

  lemma EpayCreditGood(db: Db, o: TradeNo, cb: Callback, row: TopUp)
    requires cb.EpayNotify? && OrderOk(db, o) && StageOk(db, o, cb, Saved(row))
    ensures Good(db, db.(ledger := db.ledger + [Credit(o, row.user, CallbackQuota(db.unit, row))]), o)
  {
    var e := Credit(o, row.user, CallbackQuota(db.unit, row));
    assert db.topups[o := row] == db.topups;
    CreditedGood(db, db.(ledger := db.ledger + [e]), o, row, e);
  }

  /** Where a unit leaves an amount as it is: within less than one of it, and not below. */
  predicate UnitKeeps(unit: real, amount: int) {
    amount == 0 || (1.0 <= unit && (unit - 1.0) * Size(amount) < 1.0)
  }

  function Size(amount: int): real {
    if amount < 0 then (-amount) as real else amount as real
  }

  /** What the callback of the order's own provider makes of it, with every access succeeding. */
  function CallbackAlone(db: Db, o: TradeNo, payMethod: string): Db
    requires o in db.topups
  {
    if !db.topups[o].provider.Epay? then Recharge(db, o, db.topups[o].provider, true) else
    var (db1, st1) := EpayStep(db, o, payMethod, Begun, true);
    var (db2, st2) := EpayStep(db1, o, payMethod, st1, true);
    EpayStep(db2, o, payMethod, st2, true).0
  }

  /** The administrator's completion of a pending order credits what the provider's callback would have credited, and
      leaves the same status, exactly when the provider is one of the Waffos, whose callbacks refuse the same quotas, or
      the quota is positive and, for Creem, whose amount is already a quota, the unit leaves the amount as it is. */
  lemma ManualMatchesCallback(db: Db, o: TradeNo, payMethod: string)
    requires o in db.topups && db.topups[o].status.Pending? && !db.topups[o].provider.NoProvider?
    ensures var row := db.topups[o];
      var byHand, byCallback := ManualComplete(db, o, true), CallbackAlone(db, o, payMethod);
      && o in byHand.topups && o in byCallback.topups
      && (byHand.ledger == byCallback.ledger && byHand.topups[o].status == byCallback.topups[o].status <==>
           || row.provider.Waffo? || row.provider.Pancake?
           || (CallbackQuota(db.unit, row) > 0 && (row.provider.Creem? ==> UnitKeeps(db.unit, row.amount))))
  {
    var row := db.topups[o];
    QuotasMatch(db.unit, row);
    AloneIs(db, o, payMethod);
    LedgersDiffer(db.ledger, Credit(o, row.user, ManualQuota(db.unit, row)),
                  Credit(o, row.user, CallbackQuota(db.unit, row)));
  }

  lemma LedgersDiffer(ledger: seq<Entry>, e: Entry, e': Entry)
    ensures ledger + [e] != ledger && (ledger + [e] == ledger + [e'] <==> e == e')
  {
    assert (ledger + [e])[|ledger|] == e && (ledger + [e'])[|ledger|] == e';
  }

  /** The effect of the callback alone on a pending order. */
  lemma AloneIs(db: Db, o: TradeNo, payMethod: string)
    requires o in db.topups && db.topups[o].status.Pending?
    ensures var row, db' := db.topups[o], CallbackAlone(db, o, payMethod); var quota := CallbackQuota(db.unit, row);
      && o in db'.topups
      && (if (row.provider.Waffo? || row.provider.Pancake?) && quota <= 0 then db' == db
          else if row.provider.Epay? && quota < 0 then db'.topups[o].status.Success? && db'.ledger == db.ledger
          else db'.topups[o].status.Success? && db'.ledger == db.ledger + [Credit(o, row.user, quota)])
  {
    var row := db.topups[o];
    SameQuotas(db.unit, row, row.(payMethod := payMethod, status := Success));
  }

  /** The two quotas of an order are the same, except that a unit may change the amount of a Creem order. */
  lemma QuotasMatch(unit: real, row: TopUp)
    ensures ManualQuota(unit, row) == CallbackQuota(unit, row) <==> !row.provider.Creem? || UnitKeeps(unit, row.amount)
  {
    if row.provider.Creem? { AmountKept(unit, row.amount); }
  }

  lemma AmountKept(unit: real, amount: int)
    ensures Trunc(amount as real * unit) == amount <==> UnitKeeps(unit, amount)
  {
    if amount > 0 {
      TruncKeeps(unit, amount);
    } else if amount < 0 {
      var n := -amount;
      TruncKeeps(unit, n);
      assert amount as real == -(n as real);
      NegatedProduct(n as real, unit);
    }
  }

  lemma NegatedProduct(x: real, y: real)
    ensures (-x) * y == -(x * y)
  {
  }

  lemma ProductSign(x: real, y: real)
    requires y > 0.0
    ensures x >= 0.0 <==> x * y >= 0.0
  {
  }

  lemma TruncKeeps(unit: real, n: int)
    requires n > 0
    ensures Trunc(n as real * unit) == n <==> 1.0 <= unit && (unit - 1.0) * n as real < 1.0
    ensures Trunc(-(n as real * unit)) == -n <==> Trunc(n as real * unit) == n
  {
    var x, y := n as real * unit, n as real;
    ProductSign(unit - 1.0, y);
    assert (unit - 1.0) * y == x - y;
    TruncIs(x, n);
  }

  lemma TruncIs(x: real, n: int)
    requires n > 0
    ensures Trunc(x) == n <==> 0.0 <= x - n as real < 1.0
    ensures Trunc(-x) == -n <==> Trunc(x) == n
  {
  }

  /** At the default unit a Creem order for a quota of 1 is worth 500000 when it is completed by hand. */
  lemma ManualCreemExample(row: TopUp)
    requires row.provider.Creem? && row.amount == 1
    ensures CallbackQuota(500000.0, row) == 1 && ManualQuota(500000.0, row) == 500000
    ensures !UnitKeeps(500000.0, row.amount)
  {
  }

  /** The last access of EpayNotify credits nothing: it fails, or IncreaseUserQuota refuses the quota. */
  predicate CreditRefused(db: Db, row: TopUp, ok: bool) {
    !ok || CallbackQuota(db.unit, row) < 0
  }

  /** EpayNotify can leave an order Success without a credit, and exactly then: the row is saved, and the
      separate access that credits the user is refused. */
  lemma EpayCreditLost(db: Db, o: TradeNo, payMethod: string, row: TopUp, ok: bool)
    requires OrderOk(db, o) && StageOk(db, o, EpayNotify(payMethod), Saved(row))
    ensures var (db', st') := HandlerStep(db, o, EpayNotify(payMethod), Saved(row), ok);
      && st'.Finished? && db'.topups[o].status.Success?
      && (Credits(db'.ledger, o) == 0 <==> CreditRefused(db, row, ok))
  {
    AppendCounts(db.ledger, Credit(o, row.user, CallbackQuota(db.unit, row)), o);
  }

  /** An Epay order that is Success and has no credit. */
  ghost predicate EpayUncredited(db: Db, o: TradeNo) {
    o in db.topups && db.topups[o].provider.Epay? && db.topups[o].status.Success? && Credits(db.ledger, o) == 0
  }

  /** Only saving the row leaves an Epay order Success and uncredited; only the access after that can credit it. */
  lemma EpayUncreditedStep(db: Db, o: TradeNo, cb: Callback, st: Stage, ok: bool)
    requires OrderOk(db, o) && StageOk(db, o, cb, st)
    ensures var (db', st') := HandlerStep(db, o, cb, st, ok);
      && (EpayUncredited(db', o) ==>
            st'.Saved? || (EpayUncredited(db, o) && (st.Saved? ==> CreditRefused(db, st.row, ok))))
      && (EpayUncredited(db, o) && (st.Saved? ==> CreditRefused(db, st.row, ok)) ==>
            EpayUncredited(db', o) && !st'.Saved?)
      && (st.Saved? ==> EpayUncredited(db, o) && cb.EpayNotify?)
  {
    HandlerStepGood(db, o, cb, st, ok);
    var (db', st') := HandlerStep(db, o, cb, st, ok);
    if st.Saved? { EpayCreditLost(db, o, cb.payMethod, st.row, ok); }
    if o in db.topups && db.topups[o].provider.Epay? && db.topups[o].status.Pending? && cb.AdminComplete? && db' != db {
      AppendCounts(db.ledger, Credit(o, db.topups[o].user, ManualQuota(db.unit, db.topups[o])), o);
    }
  }

  /** Without the order lock the at-most-once property fails: two Epay callbacks whose accesses
      alternate credit the order twice. */
  lemma UnlockedEpayCreditsTwice()
    ensures exists db0: Db, o: TradeNo, cb: Callback ::
      && OrderOk(db0, o)
      && var (db1, a1) := HandlerStep(db0, o, cb, Begun, true);
         var (db2, b1) := HandlerStep(db1, o, cb, Begun, true);
         var (db3, a2) := HandlerStep(db2, o, cb, a1, true);
         var (db4, b2) := HandlerStep(db3, o, cb, b1, true);
         var (db5, _) := HandlerStep(db4, o, cb, a2, true);
         var (db6, _) := HandlerStep(db5, o, cb, b2, true);
         Credits(db6.ledger, o) == 2
  {
    var row := TopUp(7, 1, 1.0, "alipay", Epay, Pending);
    var o, cb := 1, EpayNotify("alipay");
    var db0 := Db(500000.0, map[o := row], map[], []);
    var (db1, a1) := HandlerStep(db0, o, cb, Begun, true);
    var (db2, b1) := HandlerStep(db1, o, cb, Begun, true);
    var (db3, a2) := HandlerStep(db2, o, cb, a1, true);
    var (db4, b2) := HandlerStep(db3, o, cb, b1, true);
    var (db5, _) := HandlerStep(db4, o, cb, a2, true);
    var (db6, _) := HandlerStep(db5, o, cb, b2, true);
    var e := Credit(o, 7, CallbackQuota(500000.0, row));
    AppendCounts([], e, o);
    AppendCounts([e], e, o);
    assert OrderOk(db0, o);
    assert db6.ledger == [e] + [e];
  }
}
