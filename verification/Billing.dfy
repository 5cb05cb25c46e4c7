/** The billing of one request: quota is taken in advance, then settled to the real amount or given back. */
module Billing {
  import opened Basics

  datatype Funding = Wallet | Subscription

  /** What one request has taken so far from the user's wallet or subscription, and from the token. */
  class Accounts {
    var spent: int
    var tokenSpent: int

    constructor ()
      ensures spent == 0 && tokenSpent == 0
    {
      spent, tokenSpent := 0, 0;
    }
  }

  class BillingSession {
    const accounts: Accounts
    const funding: Funding
    const playground: bool          // a playground request has no token
    var preConsumed: int            // preConsumedQuota
    var consumed: int               // WalletFunding.consumed or SubscriptionFunding.preConsumed
    var tokenConsumed: int
    var extraReserved: int
    const trusted: bool             // set while the quota is taken in advance
    var fundingSettled: bool
    var settled: bool
    var refunded: bool
    ghost var stuck: nat            // taken by reservations whose rollback failed

    /** While the session is open the accounts hold exactly what it remembers to have taken. */
    ghost predicate Valid()
      reads this, accounts
    {
      && (fundingSettled ==> settled)
      && (trusted ==> preConsumed == 0)
      && 0 <= extraReserved <= preConsumed == tokenConsumed
      && consumed == (if funding == Wallet then preConsumed + stuck else preConsumed - extraReserved)
      && (funding == Subscription ==> consumed > 0)
      && (refunded ==> preConsumed > 0)
      && (!settled && !refunded ==> accounts.spent == preConsumed + stuck && accounts.tokenSpent == Token(preConsumed))
    }

    function Token(quota: int): int {
      if playground then 0 else quota
    }

    /** A session that has taken its quota in advance; a trusted user's session takes nothing.  A subscription always
        takes at least one unit. */
    constructor (accounts: Accounts, funding: Funding, playground: bool, trusted: bool, quota: nat)
      requires accounts.spent == 0 && accounts.tokenSpent == 0
      requires funding == Subscription ==> !trusted
      modifies accounts
      ensures Valid() && fresh(this) && this.accounts == accounts && this.funding == funding
      ensures this.playground == playground
      ensures this.trusted == trusted && !settled && !refunded && extraReserved == 0 && stuck == 0
      ensures preConsumed == if trusted then 0 else if funding == Subscription && quota == 0 then 1 else quota
      ensures accounts.spent == preConsumed && accounts.tokenSpent == (if playground then 0 else preConsumed)
    {
      var effective := if trusted then 0 else if funding == Subscription && quota == 0 then 1 else quota;
      this.accounts, this.funding, this.playground, this.trusted := accounts, funding, playground, trusted;
      preConsumed, consumed, tokenConsumed, extraReserved := effective, effective, effective, 0;
      fundingSettled, settled, refunded, stuck := false, false, false, 0;
      new;
      accounts.tokenSpent := accounts.tokenSpent + Token(effective);
      accounts.spent := accounts.spent + effective;
    }

    /** Settle: `fundsOk` and `tokenOk` say whether the two database updates succeed. */
    method Settle(actual: int, fundsOk: bool, tokenOk: bool) returns (ok: bool)
      requires Valid()
      modifies this, accounts
      ensures Valid() && preConsumed == old(preConsumed) && refunded == old(refunded) && stuck == old(stuck)
      ensures old(settled) ==> settled && ok && Unchanged(old(accounts.spent), old(accounts.tokenSpent))
      ensures !old(settled) ==> settled == (fundsOk || actual == preConsumed)
      ensures !old(settled) ==> ok == (actual == preConsumed || (fundsOk && (playground || tokenOk)))
      ensures !old(settled) && settled ==>
        && accounts.spent == old(accounts.spent) + actual - preConsumed
        && accounts.tokenSpent == old(accounts.tokenSpent) + (if ok && !playground then actual - preConsumed else 0)
      ensures !settled ==> Unchanged(old(accounts.spent), old(accounts.tokenSpent))
    {
      if settled { return true; }
      var delta := actual - preConsumed;
      if delta == 0 {
        settled := true;
        return true;
      }
      if !fundingSettled {
        if !fundsOk { return false; }
        accounts.spent := accounts.spent + delta;
        fundingSettled := true;
      }
      ok := true;
      if !playground {
        if tokenOk { accounts.tokenSpent := accounts.tokenSpent + delta; } else { ok := false; }
      }
      settled := true;
    }

    ghost predicate Unchanged(spent: int, tokenSpent: int)
      reads this, accounts
    {
      accounts.spent == spent && accounts.tokenSpent == tokenSpent
    }

    predicate NeedsRefund()
      reads this
    {
      !settled && !refunded && !fundingSettled && (tokenConsumed > 0 || (funding == Subscription && consumed > 0))
    }

    /** Refund; the three updates run one after the other, each on its own, and each of them may fail. */
    method Refund(fundsOk: bool, extraOk: bool, tokenOk: bool)
      requires Valid()
      modifies this, accounts
      ensures Valid() && preConsumed == old(preConsumed) && settled == old(settled) && stuck == old(stuck)
      ensures refunded == (old(refunded) || (!old(settled) && preConsumed > 0))
      ensures old(settled) || old(refunded) || preConsumed == 0 ==>
        Unchanged(old(accounts.spent), old(accounts.tokenSpent))
      ensures !old(settled) && !old(refunded) && preConsumed > 0 && fundsOk && extraOk && tokenOk ==>
        Unchanged(if funding == Wallet then 0 else stuck, 0)
      ensures extraReserved == old(extraReserved)
      ensures !old(settled) && !old(refunded) && preConsumed > 0 ==>
        && old(accounts.spent) - accounts.spent ==
           (if !fundsOk then 0 else if funding == Wallet then preConsumed + stuck else preConsumed - extraReserved) +
           (if extraOk && funding == Subscription then extraReserved else 0)
        && old(accounts.tokenSpent) - accounts.tokenSpent == if tokenOk && !playground then preConsumed else 0
    {
      if settled || refunded || !NeedsRefund() { return; }
      refunded := true;
      if fundsOk && consumed > 0 { accounts.spent := accounts.spent - consumed; }
      if extraReserved > 0 && funding == Subscription && extraOk { accounts.spent := accounts.spent - extraReserved; }
      if tokenConsumed > 0 && !playground && tokenOk { accounts.tokenSpent := accounts.tokenSpent - tokenConsumed; }
    }

    /** Reserve: takes more in advance, or leaves everything as it was, unless the rollback itself fails. */
    method Reserve(target: int, fundsOk: bool, tokenOk: bool, rollbackOk: bool) returns (ok: bool)
      requires Valid()
      modifies this, accounts
      ensures Valid() && settled == old(settled) && refunded == old(refunded)
      ensures (old(settled || refunded) || trusted) || target <= old(preConsumed) ==>
        && ok && preConsumed == old(preConsumed) && stuck == old(stuck)
        && Unchanged(old(accounts.spent), old(accounts.tokenSpent))
      ensures !(old(settled || refunded) || trusted) && target > old(preConsumed) ==>
        && ok == (fundsOk && (playground || tokenOk)) && preConsumed == (if ok then target else old(preConsumed))
        && stuck == old(stuck) + (if ok || !fundsOk || rollbackOk then 0 else target - old(preConsumed))
      ensures extraReserved - old(extraReserved) == preConsumed - old(preConsumed)
      ensures !settled && !refunded ==>
        accounts.spent == preConsumed + stuck && accounts.tokenSpent == if playground then 0 else preConsumed
    {
      if settled || refunded || trusted || target <= preConsumed { return true; }
      var delta := target - preConsumed;
      if !fundsOk { return false; }
      accounts.spent := accounts.spent + delta;
      if funding == Wallet { consumed := consumed + delta; }
      if !playground {
        if !tokenOk {
          if rollbackOk {
            accounts.spent := accounts.spent - delta;
            if funding == Wallet { consumed := consumed - delta; }
          } else {
            stuck := stuck + delta;
          }
          return false;
        }
        accounts.tokenSpent := accounts.tokenSpent + delta;
      }
      preConsumed, tokenConsumed, extraReserved := preConsumed + delta, tokenConsumed + delta, extraReserved + delta;
      return true;
    }
  }

  // ---------------------------------------------------------------- any sequence of calls

  datatype Call = Reserve(target: int) | Settle(actual: int) | Refund

  function FirstSettle(calls: seq<Call>): Option<int> {
    if calls == [] then None else if calls[0].Settle? then Some(calls[0].actual) else FirstSettle(calls[1..])
  }

  /** What a session that has taken `pre` will have spent after the calls: the first Settle or Refund decides, but a
      Settle that follows a Refund still applies its difference. */
  function Spends(pre: int, trusted: bool, calls: seq<Call>): int
    decreases |calls|
  {
    if calls == [] then pre else
    match calls[0]
    case Reserve(target) => Spends(if !trusted && target > pre then target else pre, trusted, calls[1..])
    case Settle(actual) => actual
    case Refund => if pre == 0 then Spends(pre, trusted, calls[1..]) else SpendsAfterRefund(pre, calls[1..])
  }

  function SpendsAfterRefund(pre: int, calls: seq<Call>): int {
    if FirstSettle(calls).Some? then FirstSettle(calls).value - pre else 0
  }

  /** The state of a session, as far as later calls depend on it. */
  function WillSpend(pre: int, trusted: bool, settled: bool, refunded: bool, spent: int, calls: seq<Call>): int {
    if settled then spent
    else if refunded then SpendsAfterRefund(pre, calls)
    else Spends(pre, trusted, calls)
  }

  /** With a working database, after any sequence of calls the user has spent what Spends says, and the token of a
      request that has one exactly as much. */
  method PerformCalls(s: BillingSession, calls: seq<Call>)
    requires s.Valid() && !s.settled && !s.refunded && s.stuck == 0
    modifies s, s.accounts
    ensures s.Valid() && s.accounts.spent == Spends(old(s.preConsumed), s.trusted, calls)
    ensures s.accounts.tokenSpent == if s.playground then 0 else s.accounts.spent
  {
    for k := 0 to |calls|
      invariant s.Valid() && s.stuck == 0
      invariant s.refunded && !s.settled ==> s.accounts.spent == 0
      invariant s.accounts.tokenSpent == s.Token(s.accounts.spent)
      invariant Spends(old(s.preConsumed), s.trusted, calls) ==
        WillSpend(s.preConsumed, s.trusted, s.settled, s.refunded, s.accounts.spent, calls[k..])
    {
      assert calls[k..][1..] == calls[k + 1..];
      match calls[k] {
        case Reserve(target) => var ok := s.Reserve(target, true, true, true);
        case Settle(actual) => var ok := s.Settle(actual, true, true);
        case Refund => s.Refund(true, true, true);
      }
    }
  }

  /** What a session has taken in advance after the calls, had it not been settled or refunded. */
  function Reserved(pre: int, trusted: bool, calls: seq<Call>): int
    decreases |calls|
  {
    if calls == [] then pre else Reserved(AfterCall(pre, trusted, calls[0]), trusted, calls[1..])
  }

  function AfterCall(pre: int, trusted: bool, call: Call): int {
    if call.Reserve? && !trusted && call.target > pre then call.target else pre
  }

  /** That is the largest of what was taken and of the targets; a trusted user's session takes nothing more. */
  lemma {:induction false} ReservedIs(pre: int, trusted: bool, calls: seq<Call>)
    ensures trusted ==> Reserved(pre, trusted, calls) == pre
    ensures Reserved(pre, trusted, calls) >= pre
    ensures !trusted ==>
      forall i | 0 <= i < |calls| && calls[i].Reserve? :: Reserved(pre, trusted, calls) >= calls[i].target
    ensures Reserved(pre, trusted, calls) == pre ||
      exists i :: 0 <= i < |calls| && calls[i].Reserve? && Reserved(pre, trusted, calls) == calls[i].target
    decreases |calls|
  {
    if calls != [] {
      var next := AfterCall(pre, trusted, calls[0]);
      ReservedIs(next, trusted, calls[1..]);
      assert forall i | 1 <= i < |calls| :: calls[i] == calls[1..][i - 1];
    }
  }

  /** The call number k is a Refund that finds something to give back. */
  predicate GivesBack(pre: int, trusted: bool, calls: seq<Call>, k: nat) {
    k < |calls| && calls[k] == Refund && Reserved(pre, trusted, calls[..k]) != 0
  }

  ghost predicate FirstRefundAt(pre: int, trusted: bool, calls: seq<Call>, i: nat) {
    GivesBack(pre, trusted, calls, i) && forall k: nat | k < i :: !GivesBack(pre, trusted, calls, k)
  }

  ghost predicate FirstSettleAt(calls: seq<Call>, j: nat) {
    j < |calls| && calls[j].Settle? && forall k | 0 <= k < j :: !calls[k].Settle?
  }

  /** What the calls are meant to cost: the amount of the first Settle, nothing if a Refund gave something back
      before it, and without either what is reserved. */
  ghost predicate Meant(pre: int, trusted: bool, calls: seq<Call>, cost: int) {
    && (forall j: nat | FirstSettleAt(calls, j) && (forall i: nat | i < j :: !GivesBack(pre, trusted, calls, i)) ::
          cost == calls[j].actual)
    && (forall i: nat | FirstRefundAt(pre, trusted, calls, i) && (forall j | 0 <= j < i :: !calls[j].Settle?) ::
          cost == 0)
    && ((forall k: nat | k < |calls| :: !GivesBack(pre, trusted, calls, k) && !calls[k].Settle?) ==>
          cost == Reserved(pre, trusted, calls))
  }

  lemma GivesBackLater(pre: int, trusted: bool, calls: seq<Call>, k: nat)
    requires calls != []
    ensures GivesBack(AfterCall(pre, trusted, calls[0]), trusted, calls[1..], k) <==>
      GivesBack(pre, trusted, calls, k + 1)
    ensures k < |calls| ==>
      Reserved(pre, trusted, calls[..k + 1]) == Reserved(AfterCall(pre, trusted, calls[0]), trusted, calls[1..][..k])
  {
    if k < |calls| { assert calls[..k + 1][1..] == calls[1..][..k]; }
  }

  lemma {:induction false} SettleFirst(pre: int, trusted: bool, calls: seq<Call>, j: nat)
    requires FirstSettleAt(calls, j) && forall k: nat | k < j :: !GivesBack(pre, trusted, calls, k)
    ensures Spends(pre, trusted, calls) == calls[j].actual
    decreases j
  {
    if j > 0 {
      assert !GivesBack(pre, trusted, calls, 0) && calls[..0] == [];
      forall k: nat | k < j - 1 ensures !GivesBack(AfterCall(pre, trusted, calls[0]), trusted, calls[1..], k) {
        GivesBackLater(pre, trusted, calls, k);
      }
      SettleFirst(AfterCall(pre, trusted, calls[0]), trusted, calls[1..], j - 1);
    }
  }

  lemma {:induction false} RefundFirst(pre: int, trusted: bool, calls: seq<Call>, i: nat)
    requires FirstRefundAt(pre, trusted, calls, i) && forall j | 0 <= j < i :: !calls[j].Settle?
    ensures Spends(pre, trusted, calls) == SpendsAfterRefund(Reserved(pre, trusted, calls[..i]), calls[i + 1..])
    decreases i
  {
    assert calls[..0] == [];
    if i > 0 {
      assert !GivesBack(pre, trusted, calls, 0);
      forall k: nat | k < i
        ensures GivesBack(AfterCall(pre, trusted, calls[0]), trusted, calls[1..], k) <==>
          GivesBack(pre, trusted, calls, k + 1)
      {
        GivesBackLater(pre, trusted, calls, k);
      }
      GivesBackLater(pre, trusted, calls, i - 1);
      RefundFirst(AfterCall(pre, trusted, calls[0]), trusted, calls[1..], i - 1);
      assert calls[1..][i..] == calls[i + 1..];
    }
  }

  lemma {:induction false} NothingDecides(pre: int, trusted: bool, calls: seq<Call>)
    requires forall k: nat | k < |calls| :: !GivesBack(pre, trusted, calls, k) && !calls[k].Settle?
    ensures Spends(pre, trusted, calls) == Reserved(pre, trusted, calls)
    decreases |calls|
  {
    if calls != [] {
      assert !GivesBack(pre, trusted, calls, 0) && calls[..0] == [];
      forall k: nat | k < |calls| - 1
        ensures !GivesBack(AfterCall(pre, trusted, calls[0]), trusted, calls[1..], k) && !calls[1..][k].Settle?
      {
        GivesBackLater(pre, trusted, calls, k);
      }
      NothingDecides(AfterCall(pre, trusted, calls[0]), trusted, calls[1..]);
    }
  }

  lemma {:induction false} FirstSettleFound(calls: seq<Call>) returns (j: nat)
    ensures FirstSettle(calls).Some? ==> FirstSettleAt(calls, j) && FirstSettle(calls).value == calls[j].actual
    ensures FirstSettle(calls).None? ==> forall k | 0 <= k < |calls| :: !calls[k].Settle?
  {
    j := 0;
    if calls != [] && !calls[0].Settle? {
      j := FirstSettleFound(calls[1..]);
      assert forall k | 1 <= k < |calls| :: calls[k] == calls[1..][k - 1];
      j := j + 1;
    }
  }

  /** A Refund gave something back, and the first Settle comes after it with another amount. */
  ghost predicate SettlesAfterRefund(pre: int, trusted: bool, calls: seq<Call>) {
    exists i: nat, j: nat :: i < j && FirstRefundAt(pre, trusted, calls, i) && FirstSettleAt(calls, j)
      && calls[j].actual != Reserved(pre, trusted, calls[..i])
  }

  lemma {:induction false} FirstRefundFound(pre: int, trusted: bool, calls: seq<Call>, k: nat) returns (i: nat)
    requires GivesBack(pre, trusted, calls, k)
    ensures i <= k && FirstRefundAt(pre, trusted, calls, i)
  {
    i := k;
    if x: nat :| x < k && GivesBack(pre, trusted, calls, x) { i := FirstRefundFound(pre, trusted, calls, x); }
  }

  /** A session costs what it is meant to cost exactly when it is not settled, with another amount, after a refund. */
  lemma CostsExactlyWhen(pre: int, trusted: bool, calls: seq<Call>)
    ensures Meant(pre, trusted, calls, Spends(pre, trusted, calls)) <==> !SettlesAfterRefund(pre, trusted, calls)
  {
    var j := FirstSettleFound(calls);
    if k: nat :| GivesBack(pre, trusted, calls, k) && (FirstSettle(calls).Some? ==> k < j) {
      var i := FirstRefundFound(pre, trusted, calls, k);
      RefundDecides(pre, trusted, calls, i);
    } else if FirstSettle(calls).Some? {
      SettleDecides(pre, trusted, calls, j);
    } else {
      NothingDecides(pre, trusted, calls);
    }
  }

  lemma SettleDecides(pre: int, trusted: bool, calls: seq<Call>, j: nat)
    requires FirstSettleAt(calls, j) && forall k: nat | k < j :: !GivesBack(pre, trusted, calls, k)
    ensures Meant(pre, trusted, calls, Spends(pre, trusted, calls)) && !SettlesAfterRefund(pre, trusted, calls)
  {
    SettleFirst(pre, trusted, calls, j);
    forall x: nat | FirstSettleAt(calls, x) ensures x == j {}
    forall i: nat | FirstRefundAt(pre, trusted, calls, i) ensures i > j { assert calls[j] != Refund; }
  }

  lemma RefundDecides(pre: int, trusted: bool, calls: seq<Call>, i: nat)
    requires FirstRefundAt(pre, trusted, calls, i) && forall j | 0 <= j < i :: !calls[j].Settle?
    ensures Meant(pre, trusted, calls, Spends(pre, trusted, calls)) <==> !SettlesAfterRefund(pre, trusted, calls)
  {
    RefundFirst(pre, trusted, calls, i);
    MeantAfterRefund(pre, trusted, calls, i, Spends(pre, trusted, calls));
    var rest := calls[i + 1..];
    var x := FirstSettleFound(rest);
    if FirstSettle(rest).Some? {
      SettleBehind(calls, i, x);
      SettlesOtherwise(pre, trusted, calls, i, i + 1 + x);
    } else {
      NoSettleBehind(calls, i, rest);
    }
  }

  lemma MeantAfterRefund(pre: int, trusted: bool, calls: seq<Call>, i: nat, cost: int)
    requires FirstRefundAt(pre, trusted, calls, i) && forall j | 0 <= j < i :: !calls[j].Settle?
    ensures Meant(pre, trusted, calls, cost) <==> cost == 0
  {
    assert GivesBack(pre, trusted, calls, i);
    forall y: nat | FirstSettleAt(calls, y) ensures i < y { assert calls[i] == Refund; }
  }

  lemma SettlesOtherwise(pre: int, trusted: bool, calls: seq<Call>, i: nat, j: nat)
    requires i < j && FirstRefundAt(pre, trusted, calls, i) && FirstSettleAt(calls, j)
    ensures SettlesAfterRefund(pre, trusted, calls) <==> calls[j].actual != Reserved(pre, trusted, calls[..i])
  {
    forall y: nat | FirstRefundAt(pre, trusted, calls, y) ensures y == i {}
    forall y: nat | FirstSettleAt(calls, y) ensures y == j {}
  }

  /** The first settlement among the calls behind number i, none of those up to it being one. */
  lemma SettleBehind(calls: seq<Call>, i: nat, x: nat)
    requires i < |calls| && (forall j | 0 <= j <= i :: !calls[j].Settle?) && FirstSettleAt(calls[i + 1..], x)
    ensures FirstSettleAt(calls, i + 1 + x) && calls[i + 1 + x] == calls[i + 1..][x]
    ensures forall y: nat | FirstSettleAt(calls, y) :: y == i + 1 + x
  {
    var rest := calls[i + 1..];
    assert forall k | i < k < |calls| :: calls[k] == rest[k - i - 1];
    forall y: nat | FirstSettleAt(calls, y) ensures y == i + 1 + x {}
  }

  lemma NoSettleBehind(calls: seq<Call>, i: nat, rest: seq<Call>)
    requires i < |calls| && rest == calls[i + 1..]
    requires (forall j | 0 <= j <= i :: !calls[j].Settle?) && forall k | 0 <= k < |rest| :: !rest[k].Settle?
    ensures forall y: nat :: !FirstSettleAt(calls, y)
  {
    assert forall k | i < k < |calls| :: calls[k] == rest[k - i - 1];
  }

  /** Settled after a refund, a session costs what is settled less what was given back. */
  lemma RefundThenSettle(pre: int, trusted: bool, calls: seq<Call>, i: nat, j: nat)
    requires i < j && FirstRefundAt(pre, trusted, calls, i) && FirstSettleAt(calls, j)
    ensures Spends(pre, trusted, calls) == calls[j].actual - Reserved(pre, trusted, calls[..i])
  {
    RefundFirst(pre, trusted, calls, i);
    var x := FirstSettleFound(calls[i + 1..]);
    assert calls[i + 1..][j - i - 1] == calls[j];
    SettleBehind(calls, i, x);
  }

  /** Ten taken in advance, given back, and then settled at three: the user is paid seven. */
  lemma SettledAfterRefundExample()
    ensures Spends(10, false, [Refund, Settle(3)]) == -7 && SettlesAfterRefund(10, false, [Refund, Settle(3)])
  {
    var calls := [Refund, Settle(3)];
    assert calls[1..] == [Settle(3)] && calls[..0] == [];
    assert FirstSettle(calls[1..]) == Some(3);
    assert GivesBack(10, false, calls, 0);
    assert FirstRefundAt(10, false, calls, 0) && FirstSettleAt(calls, 1);
  }

  /** Settling twice, refunding after settling and refunding twice change nothing. */
  lemma {:induction false} FirstDecides(pre: int, trusted: bool, before: seq<Call>, after: seq<Call>)
    requires forall i | 0 <= i < |before| :: before[i].Reserve?
    ensures forall a :: Spends(pre, trusted, before + [Settle(a)] + after) == a
    ensures FirstSettle(after).None? ==>
      Spends(pre, trusted, before + [Refund] + after) == 0 || Spends(pre, trusted, before) == 0
    decreases |before|
  {
    if before == [] {
      forall a
        ensures Spends(pre, trusted, [] + [Settle(a)] + after) == a
      {
        assert ([] + [Settle(a)] + after)[0] == Settle(a);
      }
      assert ([] + [Refund] + after)[1..] == after;
    } else {
      var next := if !trusted && before[0].target > pre then before[0].target else pre;
      FirstDecides(next, trusted, before[1..], after);
      forall a ensures Spends(pre, trusted, before + [Settle(a)] + after) == a {
        assert (before + [Settle(a)] + after)[1..] == before[1..] + [Settle(a)] + after;
      }
      assert (before + [Refund] + after)[1..] == before[1..] + [Refund] + after;
    }
  }
}
