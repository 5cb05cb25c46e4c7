/** What the payment callbacks are for: which access credits, and what a callback leaves behind when every one of its
    accesses succeeds. */
module PaymentOutcomes {
  import opened Basics
  import opened PaymentOrders

  /** How many accesses are left at most. */
  function AccessesLeft(st: Stage): nat {
    match st
    case Begun => 3
    case NotSubscription => 2
    case Loaded(_) => 2
    case Confirmed => 1
    case Saved(_) => 1
    case Finished => 0
  }

  /** The accesses of a callback, one after the other, until it is finished. */
  function Completed(db: Db, o: TradeNo, cb: Callback, st: Stage): Db
    decreases AccessesLeft(st)
  {
    if st.Finished? then db else
    var (db', st') := HandlerStep(db, o, cb, st, true);
    Completed(db', o, cb, st')
  }

  lemma CompletedStep(db: Db, o: TradeNo, cb: Callback, st: Stage)
    requires !st.Finished?
    ensures var (db', st') := HandlerStep(db, o, cb, st, true); Completed(db, o, cb, st) == Completed(db', o, cb, st')
  {
  }

  lemma CompletedEnds(db: Db, o: TradeNo, cb: Callback)
    ensures Completed(db, o, cb, Finished) == db
  {
  }

  /** The integer part: toward zero, and less than one away. */
  lemma TruncIsIntegerPart(x: real)
    ensures x >= 0.0 ==> 0.0 <= Trunc(x) as real <= x < Trunc(x) as real + 1.0
    ensures x <= 0.0 ==> Trunc(x) as real - 1.0 < x <= Trunc(x) as real <= 0.0
  {
  }

  /** The quota of a number of units. */
  ghost predicate InUnits(quota: int, units: real, unit: real) {
    quota == Trunc(units * unit)
  }

  lemma MoneyQuota(unit: real, row: TopUp, quota: int)
    requires row.provider == Stripe && InUnits(quota, row.money, unit)
    ensures CallbackQuota(unit, row) == quota && ManualQuota(unit, row) == quota
  {
  }

  lemma AmountQuota(unit: real, row: TopUp, quota: int)
    requires row.provider != Stripe && InUnits(quota, row.amount as real, unit)
    ensures ManualQuota(unit, row) == quota && (row.provider != Creem ==> CallbackQuota(unit, row) == quota)
  {
  }

  /** An order of a provider that waits for its payment. */
  predicate Waits(db: Db, o: TradeNo, p: Provider) {
    o in db.topups && db.topups[o].provider == p && db.topups[o].status == Pending
  }

  predicate SubWaits(db: Db, o: TradeNo, p: Provider) {
    o in db.subs && db.subs[o].provider == p && db.subs[o].status == Pending
  }

  /** The order is Success, its user has the quota, and nothing else has changed. */
  function Paid(db: Db, o: TradeNo, quota: int): Db
    requires o in db.topups
  {
    db.(topups := db.topups[o := db.topups[o].(status := Success)],
        ledger := db.ledger + [Credit(o, db.topups[o].user, quota)])
  }

  lemma RechargeIs(db: Db, o: TradeNo, p: Provider, quota: int)
    requires Waits(db, o, p) ==> quota == CallbackQuota(db.unit, db.topups[o])
    ensures Recharge(db, o, p, true) ==
      if Waits(db, o, p) && ((p.Waffo? || p.Pancake?) ==> quota > 0) then Paid(db, o, quota) else db
  {
  }

  // ---------------------------------------------------------------- top-up orders

  /** A Stripe payment is worth its money times QuotaPerUnit; a callback for anything but a waiting Stripe order changes
      nothing. */
  lemma StripePays(db: Db, o: TradeNo, quota: int)
    requires o !in db.subs && (o in db.topups ==> InUnits(quota, db.topups[o].money, db.unit))
    ensures Completed(db, o, StripeFulfil, Begun) == if Waits(db, o, Stripe) then Paid(db, o, quota) else db
  {
    if Waits(db, o, Stripe) { MoneyQuota(db.unit, db.topups[o], quota); }
    RechargeIs(db, o, Stripe, quota);
    FulfilCompleted(db, o);
  }

  lemma FulfilCompleted(db: Db, o: TradeNo)
    requires o !in db.subs
    ensures Completed(db, o, StripeFulfil, Begun) == Recharge(db, o, Stripe, true)
  {
    CompletedStep(db, o, StripeFulfil, Begun);
    CompletedStep(db, o, StripeFulfil, NotSubscription);
    CompletedEnds(Recharge(db, o, Stripe, true), o, StripeFulfil);
  }

  /** A one-time Creem payment is worth its amount; a recurring one without a subscription order nothing. */
  lemma CreemPays(db: Db, o: TradeNo, oneTime: bool)
    requires o !in db.subs
    ensures oneTime && Waits(db, o, Creem) ==>
      Completed(db, o, CreemPaid(oneTime), Begun) == Paid(db, o, db.topups[o].amount)
    ensures !oneTime || !Waits(db, o, Creem) ==> Completed(db, o, CreemPaid(oneTime), Begun) == db
  {
    var cb := CreemPaid(oneTime);
    CompletedStep(db, o, cb, Begun);
    CompletedEnds(db, o, cb);
    if oneTime {
      RechargeIs(db, o, Creem, if Waits(db, o, Creem) then db.topups[o].amount else 0);
      CompletedStep(db, o, cb, NotSubscription);
      CompletedStep(db, o, cb, Confirmed);
      CompletedEnds(Recharge(db, o, Creem, true), o, cb);
    }
  }

  /** The two Waffo payments are worth their amount times QuotaPerUnit, and are refused unless that is positive. */
  lemma WaffoPays(db: Db, o: TradeNo, cb: Callback, p: Provider, quota: int)
    requires (cb.WaffoPaid? && p.Waffo?) || (cb.PancakePaid? && p.Pancake?)
    requires o in db.topups ==> InUnits(quota, db.topups[o].amount as real, db.unit)
    ensures Completed(db, o, cb, Begun) == if Waits(db, o, p) && quota > 0 then Paid(db, o, quota) else db
  {
    if Waits(db, o, p) { AmountQuota(db.unit, db.topups[o], quota); }
    RechargeIs(db, o, p, quota);
    WaffoCompleted(db, o, cb, p);
  }

  lemma WaffoCompleted(db: Db, o: TradeNo, cb: Callback, p: Provider)
    requires (cb.WaffoPaid? && p.Waffo?) || (cb.PancakePaid? && p.Pancake?)
    ensures Completed(db, o, cb, Begun) == Recharge(db, o, p, true)
  {
    CompletedStep(db, o, cb, Begun);
    CompletedEnds(Recharge(db, o, p, true), o, cb);
  }

  /** An Epay payment is worth its amount times QuotaPerUnit, and also sets how it was paid; a negative quota leaves the
      order Success without a credit. */
  lemma EpayPays(db: Db, o: TradeNo, how: string, quota: int)
    requires o in db.topups ==> InUnits(quota, db.topups[o].amount as real, db.unit)
    ensures Waits(db, o, Epay) ==>
      var row := db.topups[o].(payMethod := how, status := Success);
      Completed(db, o, EpayNotify(how), Begun) ==
        db.(topups := db.topups[o := row],
            ledger := if quota >= 0 then db.ledger + [Credit(o, row.user, quota)] else db.ledger)
    ensures !Waits(db, o, Epay) ==> Completed(db, o, EpayNotify(how), Begun) == db
  {
    if Waits(db, o, Epay) {
      AmountQuota(db.unit, db.topups[o].(payMethod := how, status := Success), quota);
      EpayCompleted(db, o, how, quota);
    } else {
      CompletedStep(db, o, EpayNotify(how), Begun);
      CompletedEnds(db, o, EpayNotify(how));
    }
  }

  lemma EpayCompleted(db: Db, o: TradeNo, how: string, quota: int)
    requires Waits(db, o, Epay) && quota == CallbackQuota(db.unit, db.topups[o].(payMethod := how, status := Success))
    ensures var row := db.topups[o].(payMethod := how, status := Success);
      Completed(db, o, EpayNotify(how), Begun) ==
        db.(topups := db.topups[o := row],
            ledger := if quota >= 0 then db.ledger + [Credit(o, row.user, quota)] else db.ledger)
  {
    var cb, row := EpayNotify(how), db.topups[o].(payMethod := how);
    var row' := row.(status := Success);
    var db' := db.(topups := db.topups[o := row']);
    CompletedStep(db, o, cb, Begun);
    CompletedStep(db, o, cb, Loaded(row));
    CompletedStep(db', o, cb, Saved(row'));
    CompletedEnds(HandlerStep(db', o, cb, Saved(row'), true).0, o, cb);
  }

  /** An administrator completes any pending order: a Stripe order for its money and every other one for its amount,
      times QuotaPerUnit, unless that is not positive. */
  lemma AdministratorPays(db: Db, o: TradeNo, quota: int)
    requires o in db.topups && db.topups[o].provider == Stripe ==> InUnits(quota, db.topups[o].money, db.unit)
    requires o in db.topups && db.topups[o].provider != Stripe ==> InUnits(quota, db.topups[o].amount as real, db.unit)
    ensures Completed(db, o, AdminComplete, Begun) ==
      if o in db.topups && db.topups[o].status == Pending && quota > 0 then Paid(db, o, quota) else db
  {
    ManualCompleted(db, o);
    if o in db.topups {
      if db.topups[o].provider == Stripe {
        MoneyQuota(db.unit, db.topups[o], quota);
      } else {
        AmountQuota(db.unit, db.topups[o], quota);
      }
      ManualIs(db, o, quota);
    }
  }

  lemma ManualCompleted(db: Db, o: TradeNo)
    ensures Completed(db, o, AdminComplete, Begun) == ManualComplete(db, o, true)
  {
    CompletedStep(db, o, AdminComplete, Begun);
    CompletedEnds(ManualComplete(db, o, true), o, AdminComplete);
  }

  lemma ManualIs(db: Db, o: TradeNo, quota: int)
    requires o in db.topups && quota == ManualQuota(db.unit, db.topups[o])
    ensures ManualComplete(db, o, true) ==
      if db.topups[o].status == Pending && quota > 0 then Paid(db, o, quota) else db
  {
  }

  /** A failed Stripe payment fails the order that waits for it. */
  lemma StripeFails(db: Db, o: TradeNo)
    ensures Completed(db, o, StripeAsyncFailed, Begun) ==
      if Waits(db, o, Stripe) then db.(topups := db.topups[o := db.topups[o].(status := Failed)]) else db
  {
    var cb := StripeAsyncFailed;
    CompletedStep(db, o, cb, Begun);
    CompletedEnds(db, o, cb);
    if Waits(db, o, Stripe) {
      CompletedStep(db, o, cb, Loaded(db.topups[o]));
      CompletedEnds(HandlerStep(db, o, cb, Loaded(db.topups[o]), true).0, o, cb);
    }
  }

  /** A Stripe session that has expired expires the order that waits for it, a subscription order first. */
  lemma StripeExpires(db: Db, o: TradeNo)
    ensures Completed(db, o, StripeExpired, Begun) ==
      if SubWaits(db, o, Stripe) then db.(subs := db.subs[o := db.subs[o].(status := Expired)])
      else if o !in db.subs && Waits(db, o, Stripe) then
        db.(topups := db.topups[o := db.topups[o].(status := Expired)])
      else db
  {
    var cb := StripeExpired;
    CompletedStep(db, o, cb, Begun);
    CompletedEnds(ExpireSub(db, o, Stripe, true), o, cb);
    if o !in db.subs {
      CompletedStep(db, o, cb, NotSubscription);
      CompletedEnds(UpdatePending(db, o, Stripe, Expired, true), o, cb);
    }
  }

  // ---------------------------------------------------------------- subscription orders

  /** The order is granted: it is Success and says how it was paid, its user has the subscription, and the list of
      top-ups shows it with its money and no quota. */
  ghost predicate Granted(db: Db, db': Db, o: TradeNo, payMethod: string)
    requires o in db.subs
  {
    var sub := db.subs[o];
    && db'.subs == db.subs[o := sub.(status := Success,
                                     payMethod := if payMethod == "" then sub.payMethod else payMethod)]
    && db'.ledger == db.ledger + [Grant(o, sub.user)] && db'.unit == db.unit
    && o in db'.topups && db'.topups == db.topups[o := db'.topups[o]]
    && db'.topups[o].status == Success && db'.topups[o].money == sub.money && db'.topups[o].payMethod == sub.payMethod
    && (o !in db.topups ==> db'.topups[o].user == sub.user && db'.topups[o].amount == 0)
  }

  /** The callbacks that grant, with the provider whose orders they take. */
  predicate Granting(cb: Callback, p: Provider, payMethod: string) {
    || (cb == StripeFulfil && p == Stripe && payMethod == "")
    || (cb.CreemPaid? && p == Creem && payMethod == "")
    || cb == SubscriptionPaid(p, payMethod)
  }

  /** A paid subscription order that waits is granted, unless a top-up row of its number was paid in another way; any
      other one is left alone. */
  lemma SubscriptionPays(db: Db, o: TradeNo, cb: Callback, p: Provider, payMethod: string)
    requires Granting(cb, p, payMethod) && o in db.subs
    ensures var db' := Completed(db, o, cb, Begun);
      if SubWaits(db, o, p) && (o in db.topups ==> db.topups[o].payMethod in {"", db.subs[o].payMethod})
      then Granted(db, db', o, payMethod) else db' == db
  {
    CompletedStep(db, o, cb, Begun);
    CompletedEnds(CompleteSub(db, o, p, payMethod, true), o, cb);
  }

  // ---------------------------------------------------------------- one access

  /** An access that fails changes nothing. */
  lemma FailedAccess(db: Db, o: TradeNo, cb: Callback, st: Stage)
    ensures HandlerStep(db, o, cb, st, false).0 == db
  {
  }

  /** The callback is at the access that pays. */
  predicate AtPayment(db: Db, o: TradeNo, cb: Callback, st: Stage) {
    match cb
    case StripeFulfil => st == NotSubscription && Waits(db, o, Stripe)
    case CreemPaid(_) => st == Confirmed && Waits(db, o, Creem)
    case WaffoPaid => Waits(db, o, Waffo)
    case PancakePaid => Waits(db, o, Pancake)
    case AdminComplete => o in db.topups && db.topups[o].status == Pending
    case EpayNotify(_) => st.Saved? && o in db.topups
    case _ => false
  }

  /** What an order is worth: a Stripe order its money in units, a Creem order (unless completed by hand) its amount as
      it is, and any other order its amount in units. */
  ghost predicate Worth(db: Db, o: TradeNo, cb: Callback, quota: int)
    requires o in db.topups
  {
    var row := db.topups[o];
    if row.provider == Stripe then InUnits(quota, row.money, db.unit)
    else if row.provider == Creem && cb != AdminComplete then quota == row.amount
    else InUnits(quota, row.amount as real, db.unit)
  }

  /** The payments that refuse a quota that is not positive, or is negative. */
  predicate Accepts(cb: Callback, quota: int) {
    match cb
    case StripeFulfil => true
    case CreemPaid(_) => true
    case EpayNotify(_) => quota >= 0
    case _ => quota > 0
  }

  /** An access writes to the ledger exactly when it is the one that pays, accepts the quota and succeeds, or grants a
      subscription; a credit is for what the order is worth, and goes to its owner. */
  lemma CreditsExactlyWhen(db: Db, o: TradeNo, cb: Callback, st: Stage, ok: bool, worth: int)
    requires StageOk(db, o, cb, st) && (o in db.topups ==> Worth(db, o, cb, worth))
    ensures var after := HandlerStep(db, o, cb, st, ok).0.ledger;
      if ok && AtPayment(db, o, cb, st) && Accepts(cb, worth)
      then after == db.ledger + [Credit(o, db.topups[o].user, worth)]
      else after == db.ledger || (ok && o in db.subs && after == db.ledger + [Grant(o, db.subs[o].user)])
  {
    if o in db.topups {
      var row := db.topups[o];
      if row.provider == Stripe {
        MoneyQuota(db.unit, row, worth);
      } else if row.provider != Creem || cb == AdminComplete {
        AmountQuota(db.unit, row, worth);
      }
      WorthIs(db, o, cb, st, ok, worth);
    }
  }

  lemma WorthIs(db: Db, o: TradeNo, cb: Callback, st: Stage, ok: bool, worth: int)
    requires StageOk(db, o, cb, st) && o in db.topups
    requires AtPayment(db, o, cb, st) ==>
      worth == if cb == AdminComplete then ManualQuota(db.unit, db.topups[o]) else CallbackQuota(db.unit, db.topups[o])
    ensures var after := HandlerStep(db, o, cb, st, ok).0.ledger;
      if ok && AtPayment(db, o, cb, st) && Accepts(cb, worth)
      then after == db.ledger + [Credit(o, db.topups[o].user, worth)]
      else after == db.ledger || (ok && o in db.subs && after == db.ledger + [Grant(o, db.subs[o].user)])
  {
  }
}
