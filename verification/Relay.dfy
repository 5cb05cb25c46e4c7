/** The retry loops of Relay and RelayTask: how often they try, with which channel, and what becomes of the bill. */
module Relay {
  import opened Basics
  import opened Billing

  // ---------------------------------------------------------------- the retry decisions

  datatype ApiError = ApiError(channelError: bool, skipRetry: bool, statusCode: int, alwaysSkipped: bool)

  /** What the request context and the settings say. */
  datatype Context = Context(
    affinitySkip: bool, specificChannel: bool, retryByStatus: int -> bool, skipByStatus: int -> bool)

  /** shouldRetry */
  predicate ShouldRetry(c: Context, err: ApiError, left: int) {
    if c.affinitySkip then false
    else if err.channelError then true
    else if err.skipRetry then false
    else if left <= 0 then false
    else if c.specificChannel then false
    else if 200 <= err.statusCode < 300 then false
    else if err.statusCode < 100 || err.statusCode > 599 then true
    else if err.alwaysSkipped then false
    else c.retryByStatus(err.statusCode)
  }

  datatype TaskError = TaskError(statusCode: nat, local: bool)

  /** shouldRetryTaskRelay */
  predicate ShouldRetryTask(c: Context, err: TaskError, left: int) {
    if c.affinitySkip then false
    else if left <= 0 then false
    else if c.specificChannel then false
    else if err.statusCode == 429 || err.statusCode == 307 then true
    else if err.statusCode / 100 == 5 then !c.skipByStatus(err.statusCode)
    else if err.statusCode == 400 || err.statusCode == 408 then false
    else if err.local then false
    else err.statusCode / 100 != 2
  }

  /** An error of the channel is always worth another attempt unless the affinity rule forbids it; with more retries
      left a decision to retry stands. */
  lemma RetryDecision(c: Context, err: ApiError, left: int, more: int)
    requires left <= more
    ensures c.affinitySkip ==> !ShouldRetry(c, err, left)
    ensures !c.affinitySkip && err.channelError ==> ShouldRetry(c, err, left)
    ensures !c.affinitySkip && !err.channelError ==> (ShouldRetry(c, err, left) <==>
      && left > 0 && !c.specificChannel && !err.skipRetry && !(200 <= err.statusCode < 300)
      && (100 <= err.statusCode <= 599 ==> !err.alwaysSkipped && c.retryByStatus(err.statusCode)))
    ensures ShouldRetry(c, err, left) ==> ShouldRetry(c, err, more)
  {
  }

  /** A task is retried only while retries are left and no channel was asked for; then always when the upstream is
      overloaded or redirects, never after the statuses 400 and 408, after an error of the upstream's server unless its
      status is one to be skipped, and otherwise exactly when it is no error of the gateway itself and no success. */
  lemma TaskRetryDecision(c: Context, err: TaskError, left: int, more: int)
    requires left <= more
    ensures left <= 0 || c.specificChannel || c.affinitySkip ==> !ShouldRetryTask(c, err, left)
    ensures left > 0 && !c.specificChannel && !c.affinitySkip && err.statusCode in {307, 429} ==>
      ShouldRetryTask(c, err, left)
    ensures err.statusCode in {400, 408} ==> !ShouldRetryTask(c, err, left)
    ensures left > 0 && !c.specificChannel && !c.affinitySkip && 500 <= err.statusCode < 600 ==>
      (ShouldRetryTask(c, err, left) <==> !c.skipByStatus(err.statusCode))
    ensures (&& left > 0 && !c.specificChannel && !c.affinitySkip
             && !(500 <= err.statusCode < 600) && err.statusCode !in {307, 400, 408, 429}) ==>
      (ShouldRetryTask(c, err, left) <==> !err.local && !(200 <= err.statusCode < 300))
    ensures ShouldRetryTask(c, err, left) ==> ShouldRetryTask(c, err, more)
  {
  }

  // ---------------------------------------------------------------- the loop

  /** `groups` is the number of automatic groups; a locked channel is used by every attempt. */
  datatype Config = Config(retryTimes: int, auto: bool, crossGroup: bool, groups: nat, locked: bool)

  /** What the loop meets, by the number of attempts made before: whether a group has a channel at a priority, whether
      the channel can be set up (it may have no enabled key), whether the body can be had, whether the attempt succeeds,
      and whether its error is worth `left` more retries. */
  datatype World = World(available: (nat, nat, int) -> bool, setup: nat -> bool, body: nat -> bool,
                         succeeds: nat -> bool, retries: (nat, int) -> bool)

  datatype Selection = Selection(found: bool, retry: int, stay: bool, group: nat)

  /** CacheGetRandomSatisfiedChannel for the group "auto": a group without a channel passes the request on to the next
      one, which starts again at the highest priority. */
  function SelectAuto(cfg: Config, w: World, n: nat, retry: int, group: nat): Selection
    decreases cfg.groups - group
  {
    if group >= cfg.groups then Selection(false, retry, false, group)
    else if !w.available(n, group, retry) then SelectAuto(cfg, w, n, 0, group + 1)
    else if cfg.crossGroup && retry >= cfg.retryTimes then Selection(true, 0, true, group + 1)
    else Selection(true, retry, false, group)
  }

  /** getChannel: the first attempt uses the channel the request came with, which is set up; every other channel has to
      be set up first, a locked one again for every retry. */
  function Select(cfg: Config, w: World, n: nat, retry: int, group: nat): Selection {
    if cfg.locked then Selection(retry <= 0 || w.setup(n), retry, false, group)
    else if n == 0 then Selection(true, retry, false, group)
    else if cfg.auto then var s := SelectAuto(cfg, w, n, retry, group); s.(found := s.found && w.setup(n))
    else Selection(w.available(n, 0, retry) && w.setup(n), retry, false, group)
  }

  /** The priority at which a group is asked: only the group where the search begins has retries behind it. */
  function Asked(retry: int, group: nat, g: nat): int {
    if g == group then retry else 0
  }

  /** The search takes the first group from here on that has a channel.  The next attempt stays with that group and
      counts on, or, across groups and with the retries of the group used up, starts afresh in the one behind it. */
  lemma {:induction false} SelectAutoIs(cfg: Config, w: World, n: nat, retry: int, group: nat) returns (g: nat)
    ensures var s := SelectAuto(cfg, w, n, retry, group);
      && group <= g && (forall h: nat | group <= h < g && h < cfg.groups :: !w.available(n, h, Asked(retry, group, h)))
      && (s.found <==> g < cfg.groups) && (s.found ==> w.available(n, g, Asked(retry, group, g)))
      && (s.found && cfg.crossGroup && Asked(retry, group, g) >= cfg.retryTimes ==>
            s == Selection(true, 0, true, g + 1))
      && (s.found && !(cfg.crossGroup && Asked(retry, group, g) >= cfg.retryTimes) ==>
            s == Selection(true, Asked(retry, group, g), false, g))
      && (!s.found ==> s == Selection(false, Asked(retry, group, g), false, g))
    decreases cfg.groups - group
  {
    g := group;
    if group < cfg.groups && !w.available(n, group, retry) {
      g := SelectAutoIs(cfg, w, n, 0, group + 1);
      forall h: nat | group <= h < g && h < cfg.groups ensures !w.available(n, h, Asked(retry, group, h)) {
        if h > group { assert Asked(retry, group, h) == Asked(0, group + 1, h); }
      }
    }
  }

  /** When an attempt gets a channel. */
  lemma SelectIs(cfg: Config, w: World, n: nat, retry: int, group: nat)
    ensures var s := Select(cfg, w, n, retry, group);
      && (cfg.locked ==> (s.found <==> retry <= 0 || w.setup(n)))
      && (!cfg.locked && n == 0 ==> s.found)
      && (!cfg.locked && n > 0 && !cfg.auto ==> (s.found <==> w.available(n, 0, retry) && w.setup(n)))
      && (!cfg.locked && n > 0 && cfg.auto ==>
            (s.found <==>
              w.setup(n) && exists g: nat :: group <= g < cfg.groups && w.available(n, g, Asked(retry, group, g))))
      && (cfg.locked || n == 0 || !cfg.auto ==> s.retry == retry && !s.stay && s.group == group)
      && (!cfg.locked && n > 0 && cfg.auto ==> s.(found := true) == SelectAuto(cfg, w, n, retry, group).(found := true))
  {
    var g := SelectAutoIs(cfg, w, n, retry, group);
  }

  function NextRetry(s: Selection): int {
    if s.stay then s.retry else s.retry + 1
  }

  datatype End = Succeeded | Failed | NoChannel | NoBody

  datatype Outcome = Outcome(attempts: nat, end: End)

  lemma {:induction false} SelectAutoMoves(cfg: Config, w: World, n: nat, retry: int, group: nat)
    requires 0 <= retry <= cfg.retryTimes && group <= cfg.groups
    ensures var s := SelectAuto(cfg, w, n, retry, group);
      && 0 <= s.retry <= cfg.retryTimes && s.group <= cfg.groups
      && (s.found ==> group < cfg.groups && Left(cfg, NextRetry(s), s.group) <= Left(cfg, retry, group) - 1)
      && (s.found && s.group == group ==> s.retry == retry && !s.stay)
      && s.group >= group
    decreases cfg.groups - group
  {
    if group < cfg.groups {
      assert (cfg.groups - group) * (cfg.retryTimes + 1) ==
        (cfg.groups - group - 1) * (cfg.retryTimes + 1) + cfg.retryTimes + 1;
      if !w.available(n, group, retry) { SelectAutoMoves(cfg, w, n, 0, group + 1); }
    }
  }

  /** The attempts that are left in the automatic groups. */
  function Left(cfg: Config, retry: int, group: nat): int {
    (cfg.groups - group) * (cfg.retryTimes + 1) - retry
  }

  lemma {:induction false} SelectMoves(cfg: Config, w: World, n: nat, retry: int, group: nat)
    requires 0 <= retry <= cfg.retryTimes && group <= cfg.groups
    ensures var s := Select(cfg, w, n, retry, group);
      && 0 <= s.retry <= cfg.retryTimes && group <= s.group <= cfg.groups
      && (s.found && s.group == group ==> s.retry == retry && !s.stay)
  {
    SelectAutoMoves(cfg, w, n, retry, group);
  }

  /** The whole loop, from the point where n attempts were made. */
  function Loop(cfg: Config, w: World, n: nat, retry: int, group: nat): Outcome
    requires 0 <= retry && group <= cfg.groups
    decreases cfg.groups - group, cfg.retryTimes + 1 - retry
  {
    if retry > cfg.retryTimes then Outcome(n, if n == 0 then NoChannel else Failed) else
    var s := Select(cfg, w, n, retry, group);
    if !s.found then Outcome(n, NoChannel)
    else if !w.body(n) then Outcome(n, NoBody)
    else if w.succeeds(n) then Outcome(n + 1, Succeeded)
    else if !w.retries(n, cfg.retryTimes - s.retry) then Outcome(n + 1, Failed)
    else
      SelectMoves(cfg, w, n, retry, group);
      Loop(cfg, w, n + 1, NextRetry(s), s.group)
  }

  /** The counters and groups of the attempts, one after the other: every attempt has a channel and a body, every one
      but the last has failed with an error worth another attempt. */
  ghost predicate Trace(cfg: Config, w: World, n: nat, rs: seq<int>, gs: seq<nat>) {
    |rs| == |gs| > 0 && forall i: nat | i < |rs| - 1 :: TraceAt(cfg, w, n, rs, gs, i)
  }

  ghost predicate TraceAt(cfg: Config, w: World, n: nat, rs: seq<int>, gs: seq<nat>, i: nat)
    requires |rs| == |gs| && i < |rs| - 1
  {
    var s := Select(cfg, w, n + i, rs[i], gs[i]);
    && rs[i] <= cfg.retryTimes && s.found && w.body(n + i)
    && rs[i + 1] == (if s.stay then s.retry else s.retry + 1) && gs[i + 1] == s.group
    && (i < |rs| - 2 ==> !w.succeeds(n + i) && w.retries(n + i, cfg.retryTimes - s.retry))
  }

  /** The last attempt of a trace failed with an error worth another one. */
  ghost predicate GoesOn(cfg: Config, w: World, n: nat, rs: seq<int>, gs: seq<nat>)
    requires Trace(cfg, w, n, rs, gs)
  {
    var i := |rs| - 2;
    i >= 0 ==> !w.succeeds(n + i) && w.retries(n + i, cfg.retryTimes - Select(cfg, w, n + i, rs[i], gs[i]).retry)
  }

  /** Why the loop stops after these attempts. */
  ghost predicate Stops(cfg: Config, w: World, n: nat, rs: seq<int>, gs: seq<nat>, end: End)
    requires Trace(cfg, w, n, rs, gs)
  {
    var k := |rs| - 1;
    match end
    case Succeeded => k > 0 && w.succeeds(n + k - 1)
    case Failed => n + k > 0 && (k > 0 ==> !w.succeeds(n + k - 1)) &&
                   (GoesOn(cfg, w, n, rs, gs) ==> rs[k] > cfg.retryTimes)
    case NoChannel => GoesOn(cfg, w, n, rs, gs) &&
                      (rs[k] <= cfg.retryTimes ==> !Select(cfg, w, n + k, rs[k], gs[k]).found) &&
                      (n + k > 0 ==> rs[k] <= cfg.retryTimes)
    case NoBody => GoesOn(cfg, w, n, rs, gs) && rs[k] <= cfg.retryTimes &&
                   Select(cfg, w, n + k, rs[k], gs[k]).found && !w.body(n + k)
  }

  /** The loop tries again as long as there is a reason to, and stops for the reason that it gives. */
  lemma {:induction false} LoopIs(cfg: Config, w: World, n: nat, retry: int, group: nat)
    returns (rs: seq<int>, gs: seq<nat>)
    requires 0 <= retry && group <= cfg.groups
    ensures Trace(cfg, w, n, rs, gs) && rs[0] == retry && gs[0] == group
    ensures var o := Loop(cfg, w, n, retry, group); n + |rs| - 1 == o.attempts && Stops(cfg, w, n, rs, gs, o.end)
    decreases cfg.groups - group, cfg.retryTimes + 1 - retry
  {
    rs, gs := [retry], [group];
    if retry <= cfg.retryTimes {
      var s := Select(cfg, w, n, retry, group);
      if s.found && w.body(n) {
        SelectMoves(cfg, w, n, retry, group);
        if !w.succeeds(n) && w.retries(n, cfg.retryTimes - s.retry) {
          var rs', gs' := LoopIs(cfg, w, n + 1, NextRetry(s), s.group);
          TraceGrows(cfg, w, n, retry, group, rs', gs');
          StopsLater(cfg, w, n, retry, group, rs', gs', Loop(cfg, w, n, retry, group).end);
          rs, gs := rs + rs', gs + gs';
        } else {
          rs, gs := rs + [NextRetry(s)], gs + [s.group];
        }
      }
    }
  }

  /** One more attempt in front of a trace. */
  ghost predicate Precedes(cfg: Config, w: World, n: nat, retry: int, group: nat, rs: seq<int>, gs: seq<nat>) {
    var s := Select(cfg, w, n, retry, group);
    && retry <= cfg.retryTimes && s.found && w.body(n) && !w.succeeds(n) && w.retries(n, cfg.retryTimes - s.retry)
    && |rs| == |gs| > 0 && rs[0] == (if s.stay then s.retry else s.retry + 1) && gs[0] == s.group
  }

  lemma TraceGrows(cfg: Config, w: World, n: nat, retry: int, group: nat, rs: seq<int>, gs: seq<nat>)
    requires Trace(cfg, w, n + 1, rs, gs) && Precedes(cfg, w, n, retry, group, rs, gs)
    ensures Trace(cfg, w, n, [retry] + rs, [group] + gs)
  {
    var rs', gs' := [retry] + rs, [group] + gs;
    forall i: nat | i < |rs'| - 1 ensures TraceAt(cfg, w, n, rs', gs', i) {
      if i > 0 { assert TraceAt(cfg, w, n + 1, rs, gs, i - 1) && n + i == n + 1 + (i - 1); }
    }
  }

  lemma StopsLater(cfg: Config, w: World, n: nat, retry: int, group: nat, rs: seq<int>, gs: seq<nat>, end: End)
    requires Trace(cfg, w, n + 1, rs, gs) && Stops(cfg, w, n + 1, rs, gs, end)
    requires Precedes(cfg, w, n, retry, group, rs, gs) && Trace(cfg, w, n, [retry] + rs, [group] + gs)
    ensures Stops(cfg, w, n, [retry] + rs, [group] + gs, end)
  {
    var rs', gs', k := [retry] + rs, [group] + gs, |rs|;
    assert rs'[k] == rs[k - 1] && gs'[k] == gs[k - 1] && n + k == n + 1 + (k - 1);
    if k > 1 { assert rs'[k - 1] == rs[k - 2] && gs'[k - 1] == gs[k - 2] && n + (k - 1) == n + 1 + (k - 2); }
  }

  /** Outside the automatic groups, or with a locked channel, the counter counts the attempts. */
  lemma {:induction false} CountsAttempts(cfg: Config, w: World, rs: seq<int>, gs: seq<nat>, k: nat)
    requires Trace(cfg, w, 0, rs, gs) && rs[0] == 0 && k < |rs|
    ensures !cfg.auto || cfg.locked ==> rs[k] == k
    ensures gs[k] >= gs[0]
  {
    if k > 0 {
      CountsAttempts(cfg, w, rs, gs, k - 1);
      SelectIs(cfg, w, k - 1, rs[k - 1], gs[k - 1]);
      var g := SelectAutoIs(cfg, w, k - 1, rs[k - 1], gs[k - 1]);
      assert TraceAt(cfg, w, 0, rs, gs, k - 1);
    }
  }

  /** Every attempt had the body of the request, and every one but the first a channel that could be set up; in one
      group it is asked for at the priority that the number of the attempt gives. */
  lemma AttemptHad(cfg: Config, w: World, group: nat, k: nat)
    requires group <= cfg.groups && k < Loop(cfg, w, 0, 0, group).attempts
    ensures w.body(k) && (k > 0 ==> w.setup(k))
    ensures k > 0 && !cfg.locked && !cfg.auto ==> w.available(k, 0, k)
    ensures k > 0 && !cfg.locked && cfg.auto ==>
      exists g: nat, r: int :: group <= g < cfg.groups && r <= cfg.retryTimes && w.available(k, g, r)
  {
    var rs, gs := LoopIs(cfg, w, 0, 0, group);
    assert TraceAt(cfg, w, 0, rs, gs, k);
    CountsAttempts(cfg, w, rs, gs, k);
    SelectIs(cfg, w, k, rs[k], gs[k]);
    if k > 0 && !cfg.locked && cfg.auto {
      var g: nat :| gs[k] <= g < cfg.groups && w.available(k, g, Asked(rs[k], gs[k], g));
      assert Asked(rs[k], gs[k], g) <= cfg.retryTimes || cfg.retryTimes < 0;
    }
  }

  /** What the loop ends with is what the attempts were: the last one succeeded, or failed with an error that is not
      worth the retries left, or the body or a channel was missing for the next one. */
  lemma LoopEnds(cfg: Config, w: World, group: nat)
    requires group <= cfg.groups && cfg.retryTimes >= 0
    ensures var o := Loop(cfg, w, 0, 0, group);
      && (o.end == Succeeded <==> o.attempts > 0 && w.succeeds(o.attempts - 1))
      && (o.end == NoBody ==> !w.body(o.attempts))
      && (o.end == NoChannel ==> o.attempts > 0)
      && (o.end == NoChannel && (cfg.locked || !cfg.auto) ==>
            !w.setup(o.attempts) || (!cfg.locked && !w.available(o.attempts, 0, o.attempts)))
      && (o.end == Failed ==> o.attempts > 0)
      && (o.end == Failed && (cfg.locked || !cfg.auto) ==>
            !w.retries(o.attempts - 1, cfg.retryTimes - (o.attempts - 1)) || o.attempts == cfg.retryTimes + 1)
  {
    var o := Loop(cfg, w, 0, 0, group);
    var rs, gs := LoopIs(cfg, w, 0, 0, group);
    CountsAttempts(cfg, w, rs, gs, o.attempts);
    SelectIs(cfg, w, o.attempts, rs[o.attempts], gs[o.attempts]);
    if o.attempts > 0 {
      CountsAttempts(cfg, w, rs, gs, o.attempts - 1);
      SelectIs(cfg, w, o.attempts - 1, rs[o.attempts - 1], gs[o.attempts - 1]);
      assert TraceAt(cfg, w, 0, rs, gs, o.attempts - 1);
    }
  }

  /** A request to one group, or with a locked channel, makes at most RetryTimes + 1 attempts. */
  lemma {:induction false} OrdinaryBound(cfg: Config, w: World, n: nat, retry: int, group: nat)
    requires 0 <= retry <= cfg.retryTimes + 1 && group <= cfg.groups && (!cfg.auto || cfg.locked)
    ensures n <= Loop(cfg, w, n, retry, group).attempts <= n + cfg.retryTimes + 1 - retry
    decreases cfg.retryTimes + 1 - retry
  {
    if retry <= cfg.retryTimes {
      var s := Select(cfg, w, n, retry, group);
      if s.found && w.body(n) && !w.succeeds(n) && w.retries(n, cfg.retryTimes - s.retry) {
        OrdinaryBound(cfg, w, n + 1, NextRetry(s), s.group);
      }
    }
  }

  lemma Product(a: nat, b: nat)
    ensures a * b >= 0 && (a + 1) * b == a * b + b
  {
  }

  lemma LeftPositive(cfg: Config, retry: int, group: nat)
    requires group < cfg.groups && cfg.retryTimes >= 0
    ensures Left(cfg, retry, group) >= cfg.retryTimes + 1 - retry
  {
    Product(cfg.groups - group - 1, cfg.retryTimes + 1);
  }

  /** In automatic groups the counter starts again in every group. */
  lemma {:induction false} AutoBound(cfg: Config, w: World, n: nat, retry: int, group: nat)
    requires n > 0 && 0 <= retry <= cfg.retryTimes + 1 && group <= cfg.groups && cfg.auto && !cfg.locked
    requires cfg.retryTimes >= 0
    ensures n <= Loop(cfg, w, n, retry, group).attempts
    ensures Loop(cfg, w, n, retry, group).attempts <= n + (if group < cfg.groups then Left(cfg, retry, group) else 0)
    decreases cfg.groups - group, cfg.retryTimes + 1 - retry
  {
    if group < cfg.groups { LeftPositive(cfg, retry, group); }
    if retry <= cfg.retryTimes {
      SelectAutoMoves(cfg, w, n, retry, group);
      var s := SelectAuto(cfg, w, n, retry, group);
      if s.found && w.body(n) && !w.succeeds(n) && w.retries(n, cfg.retryTimes - s.retry) {
        AutoBound(cfg, w, n + 1, NextRetry(s), s.group);
      }
    }
  }

  function Bound(cfg: Config, group: nat): int {
    if cfg.auto && !cfg.locked && cfg.groups > group then (cfg.groups - group) * (cfg.retryTimes + 1)
    else if cfg.auto && !cfg.locked then 1
    else cfg.retryTimes + 1
  }

  /** A request makes at least one attempt if its body can be had, and at most Bound. */
  lemma AttemptsBounded(cfg: Config, w: World, group: nat)
    requires cfg.retryTimes >= 0 && group <= cfg.groups
    ensures Loop(cfg, w, 0, 0, group).attempts <= Bound(cfg, group)
    ensures w.body(0) ==> Loop(cfg, w, 0, 0, group).attempts >= 1
  {
    if cfg.auto && !cfg.locked {
      if w.body(0) && !w.succeeds(0) && w.retries(0, cfg.retryTimes) { AutoBound(cfg, w, 1, 1, group); }
      if group < cfg.groups { LeftPositive(cfg, 0, group); }
    } else {
      OrdinaryBound(cfg, w, 0, 0, group);
      if w.body(0) && !w.succeeds(0) && w.retries(0, cfg.retryTimes) { OrdinaryBound(cfg, w, 1, 1, group); }
    }
  }

  /** Channels can be set up, the body can be had, every attempt fails, and every error is worth another attempt
      while retries are left. */
  ghost predicate Hopeless(w: World) {
    && (forall n :: w.setup(n) && w.body(n) && !w.succeeds(n))
    && (forall n, left | left > 0 :: w.retries(n, left))
  }

  /** The bound is reached: across groups that all have channels a failing request tries RetryTimes + 1 times in each of
      them, and then fails for want of a channel instead of with its last error. */
  lemma {:induction false} TriesAllGroups(cfg: Config, w: World, n: nat, retry: int, group: nat)
    requires Hopeless(w) && (forall n, g, r :: w.available(n, g, r)) && cfg.auto && cfg.crossGroup && !cfg.locked
    requires n > 0
    requires 0 <= retry <= cfg.retryTimes && cfg.retryTimes >= 1 && group < cfg.groups
    ensures Loop(cfg, w, n, retry, group).attempts == n + Left(cfg, retry, group)
    ensures Loop(cfg, w, n, retry, group).end == NoChannel
    decreases cfg.groups - group, cfg.retryTimes + 1 - retry
  {
    LeftPositive(cfg, retry, group);
    Product(cfg.groups - group - 1, cfg.retryTimes + 1);
    if retry < cfg.retryTimes {
      TriesAllGroups(cfg, w, n + 1, retry + 1, group);
    } else if group + 1 < cfg.groups {
      TriesAllGroups(cfg, w, n + 1, 0, group + 1);
    }
  }

  lemma HopelessRequest(cfg: Config, w: World, group: nat)
    requires Hopeless(w) && (forall n, g, r :: w.available(n, g, r)) && cfg.auto && cfg.crossGroup && !cfg.locked
    requires cfg.retryTimes >= 1 && group < cfg.groups
    ensures Loop(cfg, w, 0, 0, group).attempts == Bound(cfg, group) && Loop(cfg, w, 0, 0, group).end == NoChannel
  {
    assert w.retries(0, cfg.retryTimes);
    TriesAllGroups(cfg, w, 1, 1, group);
  }

  lemma {:induction false} TriesWholeGroup(cfg: Config, w: World, n: nat, retry: int, group: nat)
    requires Hopeless(w) && cfg.auto && !cfg.locked && n > 0 && 0 <= retry <= cfg.retryTimes && group < cfg.groups
    requires forall n, r :: w.available(n, group, r)
    ensures Loop(cfg, w, n, retry, group).attempts >= n + cfg.retryTimes + 1 - retry
    decreases cfg.retryTimes - retry
  {
    assert w.available(n, group, retry);
    if retry < cfg.retryTimes {
      TriesWholeGroup(cfg, w, n + 1, retry + 1, group);
    } else if cfg.crossGroup {
      AutoBound(cfg, w, n + 1, 0, group + 1);
    }
  }

  /** A first group without channels and a second one with channels that always fail: more than RetryTimes + 1
      attempts. */
  lemma CounterSetBack(cfg: Config, w: World, group: nat)
    requires Hopeless(w) && (forall n, g, r :: w.available(n, g, r) <==> g != group)
    requires cfg.auto && !cfg.locked && cfg.retryTimes >= 1 && cfg.groups - group >= 2
    ensures !WithinRetryTimes(cfg, w, group)
  {
    assert w.retries(0, cfg.retryTimes) && w.retries(1, cfg.retryTimes);
    assert !w.available(1, group, 1) && w.available(1, group + 1, 0);
    assert SelectAuto(cfg, w, 1, 1, group) == Selection(true, 0, false, group + 1);
    TriesWholeGroup(cfg, w, 2, 1, group + 1);
    assert Loop(cfg, w, 0, 0, group) == Loop(cfg, w, 1, 1, group) == Loop(cfg, w, 2, 1, group + 1);
  }

  predicate WithinRetryTimes(cfg: Config, w: World, group: nat)
    requires group <= cfg.groups
  {
    Loop(cfg, w, 0, 0, group).attempts <= cfg.retryTimes + 1
  }

  lemma CounterGrows(cfg: Config, w: World, group: nat)
    requires cfg.retryTimes >= 0 && group <= cfg.groups && NeverSetBack(cfg, group)
    ensures WithinRetryTimes(cfg, w, group)
  {
    if cfg.auto && !cfg.locked && cfg.retryTimes == 0 {
      assert Loop(cfg, w, 1, 1, group).attempts == 1;
    } else {
      AttemptsBounded(cfg, w, group);
      Product(0, cfg.retryTimes + 1);
    }
  }

  /** Outside the automatic groups, with a locked channel, without retries, or in the last group. */
  predicate NeverSetBack(cfg: Config, group: nat) {
    !cfg.auto || cfg.locked || cfg.retryTimes == 0 || cfg.groups - group <= 1
  }

  /** Every attempt but the last failed, with an error that was worth another attempt. */
  lemma {:induction false} EarlierAttempts(cfg: Config, w: World, n: nat, retry: int, group: nat, k: nat)
    returns (left: int)
    requires 0 <= retry && group <= cfg.groups && n <= k < Loop(cfg, w, n, retry, group).attempts - 1
    ensures !w.succeeds(k) && w.retries(k, left) && left <= cfg.retryTimes
    decreases cfg.groups - group, cfg.retryTimes + 1 - retry
  {
    SelectMoves(cfg, w, n, retry, group);
    var s := Select(cfg, w, n, retry, group);
    left := cfg.retryTimes - s.retry;
    if k > n { left := EarlierAttempts(cfg, w, n + 1, NextRetry(s), s.group, k); }
  }

  // ---------------------------------------------------------------- RelayTask and Relay

  class RetryParam {
    var retry: int
    var resetNextTry: bool
    var groupIndex: nat          // ContextKeyAutoGroupIndex

    function Chosen(found: bool): Selection
      reads this
    {
      Selection(found, retry, resetNextTry, groupIndex)
    }

    method IncreaseRetry()
      modifies this
      ensures retry == NextRetry(old(Chosen(true))) && !resetNextTry && groupIndex == old(groupIndex)
    {
      if resetNextTry {
        resetNextTry := false;
        return;
      }
      retry := retry + 1;
    }

    /** The search through the automatic groups. */
    method SearchGroups(cfg: Config, w: World, n: nat) returns (found: bool)
      requires !resetNextTry
      modifies this
      ensures Chosen(found) == SelectAuto(cfg, w, n, old(retry), old(groupIndex))
    {
      var start, i := groupIndex, groupIndex;
      while i < cfg.groups
        invariant start <= i == groupIndex && !resetNextTry && (i > start ==> retry == 0)
        invariant SelectAuto(cfg, w, n, old(retry), old(groupIndex)) == SelectAuto(cfg, w, n, retry, i)
      {
        var priorityRetry := retry;
        if i > start { priorityRetry := 0; }
        if !w.available(n, i, priorityRetry) {
          groupIndex, retry := i + 1, 0;
          i := i + 1;
          continue;
        }
        if cfg.crossGroup && priorityRetry >= cfg.retryTimes {
          groupIndex, retry, resetNextTry := i + 1, 0, true;
        } else {
          groupIndex := i;
        }
        return true;
      }
      return false;
    }

    method GetChannel(cfg: Config, w: World, n: nat) returns (found: bool)
      requires !resetNextTry
      modifies this
      ensures Chosen(found) == Select(cfg, w, n, old(retry), old(groupIndex))
    {
      if cfg.locked {
        if retry > 0 { return w.setup(n); }
        return true;
      }
      if n == 0 { return true; }
      if cfg.auto { found := SearchGroups(cfg, w, n); } else { found := w.available(n, 0, retry); }
      if found { found := w.setup(n); }
    }
  }

  /** One RelayTaskSubmit: a rejected attempt may or may not have come as far as taking the quota. */
  datatype TaskAttempt = Accepted(quota: nat) | Rejected(err: TaskError, billed: bool)

  datatype TaskEnv = TaskEnv(context: nat -> Context, available: (nat, nat, int) -> bool, setup: nat -> bool,
                             body: nat -> bool, attempt: nat -> TaskAttempt, estimate: nat -> nat, free: bool,
                             funding: Funding, playground: bool)

  function TaskWorld(env: TaskEnv): World {
    World(env.available, env.setup, env.body, (n: nat) => env.attempt(n).Accepted?,
          (n: nat, left: int) => env.attempt(n).Rejected? && ShouldRetryTask(env.context(n), env.attempt(n).err, left))
  }

  /** A task that every channel answers with the status 429 of an overloaded upstream. */
  function Overloaded(available: (nat, nat, int) -> bool): TaskEnv {
    var c := Context(false, false, _ => false, _ => false);
    TaskEnv(_ => c, available, _ => true, _ => true, _ => Rejected(TaskError(429, false), true), _ => 1, false, Wallet,
            false)
  }

  lemma OverloadedIsHopeless(available: (nat, nat, int) -> bool)
    ensures Hopeless(TaskWorld(Overloaded(available))) && TaskWorld(Overloaded(available)).available == available
  {
    var w := TaskWorld(Overloaded(available));
    forall n: nat, left: int | left > 0 ensures w.retries(n, left) {
      assert ShouldRetryTask(Overloaded(available).context(n), TaskError(429, false), left);
    }
  }

  /** For tasks the bound of the automatic groups is reached. */
  lemma TaskBoundReached(cfg: Config, group: nat)
    requires cfg.auto && cfg.crossGroup && !cfg.locked && cfg.retryTimes >= 1 && group < cfg.groups
    ensures var o := Loop(cfg, TaskWorld(Overloaded((n, g, r) => true)), 0, 0, group);
      o.attempts == Bound(cfg, group) && o.end == NoChannel
  {
    OverloadedIsHopeless((n, g, r) => true);
    HopelessRequest(cfg, TaskWorld(Overloaded((n, g, r) => true)), group);
  }

  /** RetryTimes + 1 bounds the attempts of every task exactly when the counter is never set back. */
  lemma TaskRetryTimesBound(cfg: Config, group: nat)
    requires cfg.retryTimes >= 0 && group <= cfg.groups
    ensures (forall env: TaskEnv :: WithinRetryTimes(cfg, TaskWorld(env), group)) <==> NeverSetBack(cfg, group)
  {
    if NeverSetBack(cfg, group) {
      forall env: TaskEnv
        ensures WithinRetryTimes(cfg, TaskWorld(env), group)
      {
        CounterGrows(cfg, TaskWorld(env), group);
      }
    } else {
      OverloadedIsHopeless((n, g, r) => g != group);
      CounterSetBack(cfg, TaskWorld(Overloaded((n, g, r) => g != group)), group);
    }
  }

  /** A task is tried again only after an error that is not final for tasks, for a request that asks for no channel. */
  lemma TaskTriedAgain(cfg: Config, env: TaskEnv, group: nat, k: nat)
    requires group <= cfg.groups && k < Loop(cfg, TaskWorld(env), 0, 0, group).attempts - 1
    ensures env.attempt(k).Rejected? && !env.context(k).specificChannel && !env.context(k).affinitySkip
    ensures var err := env.attempt(k).err;
      && err.statusCode !in {400, 408} && !(200 <= err.statusCode < 300) && cfg.retryTimes > 0
      && (err.local ==> err.statusCode >= 500 || err.statusCode in {307, 429})
      && (500 <= err.statusCode < 600 ==> !env.context(k).skipByStatus(err.statusCode))
  {
    var left := EarlierAttempts(cfg, TaskWorld(env), 0, 0, group, k);
    TaskRetryDecision(env.context(k), env.attempt(k).err, left, left);
  }

  /** How a task ends, by what its attempts met. */
  lemma TaskEnds(cfg: Config, env: TaskEnv, group: nat)
    requires group <= cfg.groups && cfg.retryTimes >= 0
    ensures var o := Loop(cfg, TaskWorld(env), 0, 0, group);
      && (forall k: nat | k < o.attempts :: env.body(k) && (k > 0 ==> env.setup(k)))
      && (o.end == Succeeded <==> o.attempts > 0 && env.attempt(o.attempts - 1).Accepted?)
      && (o.end == NoBody ==> !env.body(o.attempts))
      && (o.end == NoChannel && (cfg.locked || !cfg.auto) ==>
            !env.setup(o.attempts) || (!cfg.locked && !env.available(o.attempts, 0, o.attempts)))
  {
    LoopEnds(cfg, TaskWorld(env), group);
    var w := TaskWorld(env);
    forall k: nat | k < Loop(cfg, w, 0, 0, group).attempts ensures env.body(k) && (k > 0 ==> env.setup(k)) {
      AttemptHad(cfg, w, group, k);
    }
  }

  datatype TaskResult = Success | Error(err: TaskError) | LocalFailure(end: End)

  /** Without a session nothing was taken; an open session knows what it has taken. */
  ghost predicate Unbilled(b: Option<BillingSession>, accounts: Accounts, playground: bool)
    reads accounts, if b.Some? then {b.value, b.value.accounts} else {}
  {
    if b.None? then accounts.spent == 0 && accounts.tokenSpent == 0
    else
      && b.value.Valid() && b.value.accounts == accounts && b.value.playground == playground
      && !b.value.settled && !b.value.refunded && b.value.stuck == 0
  }

  /** The first attempt that comes as far as the billing takes the quota; later ones find it taken. */
  method SubmitTask(env: TaskEnv, n: nat, accounts: Accounts, billing: Option<BillingSession>)
    returns (b: Option<BillingSession>)
    requires Unbilled(billing, accounts, env.playground)
    modifies accounts
    ensures Unbilled(b, accounts, env.playground) && (billing.Some? ==> b == billing)
    ensures billing.None? && b.Some? ==> fresh(b.value)
    ensures billing.None? ==> (b.Some? <==> !env.free && (env.attempt(n).Accepted? || env.attempt(n).billed))
    ensures billing.None? && b.Some? ==>
      b.value.preConsumed == if env.funding == Subscription && env.estimate(n) == 0 then 1 else env.estimate(n)
  {
    b := billing;
    if billing.None? && !env.free && (env.attempt(n).Accepted? || env.attempt(n).billed) {
      var session := new BillingSession(accounts, env.funding, env.playground, false, env.estimate(n));
      b := Some(session);
    }
  }

  /** PostConsumeQuota: what SettleBilling does for a request without a session. */
  method PostConsumeQuota(accounts: Accounts, playground: bool, quota: int)
    modifies accounts
    ensures accounts.spent == old(accounts.spent) + quota
    ensures accounts.tokenSpent == old(accounts.tokenSpent) + if playground then 0 else quota
  {
    accounts.spent := accounts.spent + quota;
    if !playground { accounts.tokenSpent := accounts.tokenSpent + quota; }
  }

  /** What the loop ended with is what the attempts say. */
  ghost predicate Ended(env: TaskEnv, attempts: nat, r: TaskResult, o: Outcome) {
    && attempts == o.attempts
    && match r
       case Success => o.end == Succeeded && attempts > 0 && env.attempt(attempts - 1).Accepted?
       case Error(err) =>
         && o.end == Failed && attempts > 0
         && env.attempt(attempts - 1).Rejected? && env.attempt(attempts - 1).err == err
       case LocalFailure(end) => o.end == end && (end == NoChannel || end == NoBody)
  }

  /** One turn of the loop of RelayTask: `done` if it leaves the loop. */
  method TryOnce(cfg: Config, env: TaskEnv, p: RetryParam, n: nat, accounts: Accounts, billing: Option<BillingSession>)
    returns (done: bool, attempts: nat, r: TaskResult, b: Option<BillingSession>)
    requires 0 <= p.retry <= cfg.retryTimes && !p.resetNextTry && p.groupIndex <= cfg.groups
    requires Unbilled(billing, accounts, env.playground)
    modifies p, accounts
    ensures Unbilled(b, accounts, env.playground) && (billing.Some? ==> b == billing)
    ensures billing.None? && b.Some? ==> fresh(b.value)
    ensures done ==> Ended(env, attempts, r, Loop(cfg, TaskWorld(env), n, old(p.retry), old(p.groupIndex)))
    ensures done && r.Success? && !env.free ==> b.Some?
    ensures !done ==>
      && 0 <= p.retry && !p.resetNextTry && old(p.groupIndex) <= p.groupIndex <= cfg.groups
      && (p.groupIndex == old(p.groupIndex) ==> p.retry == old(p.retry) + 1)
      && attempts == n + 1 && env.attempt(n).Rejected? && r == Error(env.attempt(n).err)
      && Loop(cfg, TaskWorld(env), n, old(p.retry), old(p.groupIndex)) ==
         Loop(cfg, TaskWorld(env), n + 1, p.retry, p.groupIndex)
  {
    var w := TaskWorld(env);
    b := billing;
    SelectMoves(cfg, w, n, p.retry, p.groupIndex);
    var found := p.GetChannel(cfg, w, n);
    if !found { return true, n, LocalFailure(NoChannel), b; }
    if !env.body(n) { return true, n, LocalFailure(NoBody), b; }
    b := SubmitTask(env, n, accounts, billing);
    if env.attempt(n).Accepted? { return true, n + 1, Success, b; }
    done, attempts, r := false, n + 1, Error(env.attempt(n).err);
    if !ShouldRetryTask(env.context(n), r.err, cfg.retryTimes - p.retry) { done := true; return; }
    p.IncreaseRetry();
  }

  /** The loop of RelayTask. */
  method TryTask(cfg: Config, env: TaskEnv, p: RetryParam, accounts: Accounts)
    returns (attempts: nat, r: TaskResult, billing: Option<BillingSession>)
    requires cfg.retryTimes >= 0 && p.retry == 0 && !p.resetNextTry && p.groupIndex <= cfg.groups
    requires accounts.spent == 0 && accounts.tokenSpent == 0
    modifies p, accounts
    ensures Ended(env, attempts, r, Loop(cfg, TaskWorld(env), 0, 0, old(p.groupIndex)))
    ensures Unbilled(billing, accounts, env.playground) && (billing.Some? ==> fresh(billing.value))
    ensures r.Success? && !env.free ==> billing.Some?
  {
    attempts, r, billing := 0, LocalFailure(NoChannel), None;
    while p.retry <= cfg.retryTimes
      invariant 0 <= p.retry && p.groupIndex <= cfg.groups && !p.resetNextTry
      invariant Loop(cfg, TaskWorld(env), attempts, p.retry, p.groupIndex) ==
        Loop(cfg, TaskWorld(env), 0, 0, old(p.groupIndex))
      invariant Unbilled(billing, accounts, env.playground) && (billing.Some? ==> fresh(billing.value))
      invariant attempts > 0 ==> env.attempt(attempts - 1).Rejected? && r == Error(env.attempt(attempts - 1).err)
      invariant attempts == 0 ==> p.retry == 0
      decreases cfg.groups - p.groupIndex, cfg.retryTimes + 1 - p.retry
    {
      var done;
      done, attempts, r, billing := TryOnce(cfg, env, p, attempts, accounts, billing);
      if done { return; }
    }
  }

  /** RelayTask ends with exactly one of a settlement, after an accepted attempt, and a refund, after any error: the
      request has then cost the quota of the accepted attempt, or nothing.  The database is taken to work. */
  method RelayTask(cfg: Config, env: TaskEnv, p: RetryParam, accounts: Accounts)
    returns (attempts: nat, r: TaskResult, billing: Option<BillingSession>)
    requires cfg.retryTimes >= 0 && p.retry == 0 && !p.resetNextTry && p.groupIndex <= cfg.groups
    requires accounts.spent == 0 && accounts.tokenSpent == 0
    modifies p, accounts
    ensures Ended(env, attempts, r, Loop(cfg, TaskWorld(env), 0, 0, old(p.groupIndex)))
    ensures attempts <= Bound(cfg, old(p.groupIndex))
    ensures accounts.spent == if r.Success? then env.attempt(attempts - 1).quota else 0
    ensures accounts.tokenSpent == if env.playground then 0 else accounts.spent
    ensures r.Success? && !env.free ==> billing.Some?
    ensures billing.Some? ==>
      billing.value.settled == r.Success? && billing.value.refunded == (!r.Success? && billing.value.preConsumed > 0)
  {
    AttemptsBounded(cfg, TaskWorld(env), p.groupIndex);
    attempts, r, billing := TryTask(cfg, env, p, accounts);
    if r.Success? {
      if billing.Some? {
        var ok := billing.value.Settle(env.attempt(attempts - 1).quota, true, true);
      } else {
        PostConsumeQuota(accounts, env.playground, env.attempt(attempts - 1).quota);
      }
    } else if billing.Some? {
      billing.value.Refund(true, true, true);
    }
  }

  /** One handler call of Relay: it may settle the bill, and it may fail. */
  datatype Attempt = Attempt(settles: Option<nat>, error: Option<ApiError>)

  datatype RelayEnv = RelayEnv(context: nat -> Context, available: (nat, nat, int) -> bool, setup: nat -> bool,
                               body: nat -> bool, attempt: nat -> Attempt)

  function RelayWorld(env: RelayEnv): World {
    World(env.available, env.setup, env.body, (n: nat) => env.attempt(n).error.None?,
          (n: nat, left: int) =>
            env.attempt(n).error.Some? && ShouldRetry(env.context(n), env.attempt(n).error.value, left))
  }

  /** A request that every channel answers with an error of its own. */
  function ChannelsBroken(available: (nat, nat, int) -> bool): RelayEnv {
    var c := Context(false, false, _ => false, _ => false);
    RelayEnv(_ => c, available, _ => true, _ => true, _ => Attempt(None, Some(ApiError(true, false, 500, false))))
  }

  lemma BrokenIsHopeless(available: (nat, nat, int) -> bool)
    ensures Hopeless(RelayWorld(ChannelsBroken(available)))
    ensures RelayWorld(ChannelsBroken(available)).available == available
  {
    var w := RelayWorld(ChannelsBroken(available));
    forall n: nat, left: int | left > 0 ensures w.retries(n, left) {
      assert ShouldRetry(ChannelsBroken(available).context(n), ApiError(true, false, 500, false), left);
    }
  }

  /** The same for the requests of Relay. */
  lemma RelayBoundReached(cfg: Config, group: nat)
    requires cfg.auto && cfg.crossGroup && !cfg.locked && cfg.retryTimes >= 1 && group < cfg.groups
    ensures var o := Loop(cfg, RelayWorld(ChannelsBroken((n, g, r) => true)), 0, 0, group);
      o.attempts == Bound(cfg, group) && o.end == NoChannel
  {
    BrokenIsHopeless((n, g, r) => true);
    HopelessRequest(cfg, RelayWorld(ChannelsBroken((n, g, r) => true)), group);
  }

  lemma RelayRetryTimesBound(cfg: Config, group: nat)
    requires cfg.retryTimes >= 0 && group <= cfg.groups
    ensures (forall env: RelayEnv :: WithinRetryTimes(cfg, RelayWorld(env), group)) <==> NeverSetBack(cfg, group)
  {
    if NeverSetBack(cfg, group) {
      forall env: RelayEnv
        ensures WithinRetryTimes(cfg, RelayWorld(env), group)
      {
        CounterGrows(cfg, RelayWorld(env), group);
      }
    } else {
      BrokenIsHopeless((n, g, r) => g != group);
      CounterSetBack(cfg, RelayWorld(ChannelsBroken((n, g, r) => g != group)), group);
    }
  }

  /** A request that asks for a channel, or that met a final error or a success status, is tried again only after an
      error of the channel itself. */
  lemma RelayTriedAgain(cfg: Config, env: RelayEnv, group: nat, k: nat)
    requires group <= cfg.groups && k < Loop(cfg, RelayWorld(env), 0, 0, group).attempts - 1
    ensures env.attempt(k).error.Some? && !env.context(k).affinitySkip
    ensures var err := env.attempt(k).error.value;
      cfg.retryTimes <= 0 || env.context(k).specificChannel || err.skipRetry || 200 <= err.statusCode < 300 ==>
        err.channelError
  {
    var left := EarlierAttempts(cfg, RelayWorld(env), 0, 0, group, k);
    RetryDecision(env.context(k), env.attempt(k).error.value, left, cfg.retryTimes);
    RetryDecision(env.context(k), env.attempt(k).error.value, cfg.retryTimes, cfg.retryTimes);
  }

  lemma RelayEnds(cfg: Config, env: RelayEnv, group: nat)
    requires group <= cfg.groups && cfg.retryTimes >= 0
    ensures var o := Loop(cfg, RelayWorld(env), 0, 0, group);
      && (forall k: nat | k < o.attempts :: env.body(k) && (k > 0 ==> env.setup(k)))
      && (o.end == Succeeded <==> o.attempts > 0 && env.attempt(o.attempts - 1).error.None?)
      && (o.end == NoBody ==> !env.body(o.attempts))
      && (o.end == NoChannel && (cfg.locked || !cfg.auto) ==>
            !env.setup(o.attempts) || (!cfg.locked && !env.available(o.attempts, 0, o.attempts)))
  {
    LoopEnds(cfg, RelayWorld(env), group);
    var w := RelayWorld(env);
    forall k: nat | k < Loop(cfg, w, 0, 0, group).attempts ensures env.body(k) && (k > 0 ==> env.setup(k)) {
      AttemptHad(cfg, w, group, k);
    }
  }

  /** The first amount settled in n attempts. */
  function SettledIn(env: RelayEnv, n: nat): Option<nat> {
    if n == 0 then None else if SettledIn(env, n - 1).Some? then SettledIn(env, n - 1) else env.attempt(n - 1).settles
  }

  /** All the amounts settled in n attempts. */
  function TotalSettled(env: RelayEnv, n: nat): nat {
    if n == 0 then 0 else
    TotalSettled(env, n - 1) + if env.attempt(n - 1).settles.Some? then env.attempt(n - 1).settles.value else 0
  }

  lemma {:induction false} FirstSettled(env: RelayEnv, n: nat) returns (k: nat)
    ensures SettledIn(env, n).Some? <==> exists i: nat :: i < n && env.attempt(i).settles.Some?
    ensures SettledIn(env, n).Some? ==>
      && k < n && env.attempt(k).settles == SettledIn(env, n) && forall i: nat | i < k :: env.attempt(i).settles.None?
  {
    k := 0;
    if n > 0 {
      k := FirstSettled(env, n - 1);
      if SettledIn(env, n - 1).None? { k := n - 1; }
    }
  }

  /** Without the settlement of one attempt the total is less by its amount. */
  lemma {:induction false} EverySettlementCounts(env: RelayEnv, other: RelayEnv, n: nat, k: nat)
    requires k < n && env.attempt(k).settles.Some? && other.attempt(k).settles.None?
    requires forall i: nat | i < n && i != k :: env.attempt(i).settles == other.attempt(i).settles
    ensures TotalSettled(env, n) == TotalSettled(other, n) + env.attempt(k).settles.value
  {
    if k < n - 1 {
      EverySettlementCounts(env, other, n - 1, k);
    } else {
      SameSettlements(env, other, n - 1);
    }
  }

  lemma {:induction false} SameSettlements(env: RelayEnv, other: RelayEnv, n: nat)
    requires forall i: nat | i < n :: env.attempt(i).settles == other.attempt(i).settles
    ensures TotalSettled(env, n) == TotalSettled(other, n)
    ensures (forall i: nat | i < n :: env.attempt(i).settles.None?) ==> TotalSettled(env, n) == 0
  {
    if n > 0 { SameSettlements(env, other, n - 1); }
  }

  datatype RelayResult = Answered | ApiFailure(err: ApiError) | RelayFailure(end: End)

  /** After n attempts: a session is settled at most once, at the first amount; a free request, which has none, has paid
      every amount. */
  ghost predicate Settling(b: Option<BillingSession>, accounts: Accounts, playground: bool, env: RelayEnv, n: nat)
    reads accounts, if b.Some? then {b.value, b.value.accounts} else {}
  {
    var q := SettledIn(env, n);
    if b.None? then accounts.spent == TotalSettled(env, n)
    else
      && b.value.Valid() && b.value.accounts == accounts && b.value.playground == playground && b.value.stuck == 0
      && !b.value.refunded && b.value.settled == q.Some? && (q.Some? ==> accounts.spent == q.value)
  }

  /** The token of a request pays what its user pays, unless it comes from the playground. */
  ghost predicate TokenPays(accounts: Accounts, playground: bool)
    reads accounts
  {
    accounts.tokenSpent == if playground then 0 else accounts.spent
  }

  ghost predicate RelayEnded(env: RelayEnv, attempts: nat, r: RelayResult, o: Outcome) {
    && attempts == o.attempts
    && match r
       case Answered => o.end == Succeeded
       case ApiFailure(err) => o.end == Failed && attempts > 0 && env.attempt(attempts - 1).error == Some(err)
       case RelayFailure(end) => o.end == end && (end == NoChannel || end == NoBody)
  }

  method SettleAttempt(env: RelayEnv, n: nat, b: Option<BillingSession>, accounts: Accounts, playground: bool)
    requires Settling(b, accounts, playground, env, n) && TokenPays(accounts, playground)
    modifies accounts, if b.Some? then {b.value} else {}
    ensures Settling(b, accounts, playground, env, n + 1) && TokenPays(accounts, playground)
    ensures b.Some? ==> b.value.preConsumed == old(b.value.preConsumed)
  {
    var settles := env.attempt(n).settles;
    if settles.Some? {
      if b.Some? {
        var ok := b.value.Settle(settles.value, true, true);
      } else {
        PostConsumeQuota(accounts, playground, settles.value);
      }
    }
  }

  /** What holds whenever the loop of Relay comes round: `o` is what it will end with. */
  ghost predicate Relaying(cfg: Config, env: RelayEnv, p: RetryParam, attempts: nat, r: RelayResult, o: Outcome)
    reads p
  {
    && 0 <= p.retry && p.groupIndex <= cfg.groups && !p.resetNextTry
    && Loop(cfg, RelayWorld(env), attempts, p.retry, p.groupIndex) == o
    && if attempts == 0 then p.retry == 0 else r.ApiFailure? && env.attempt(attempts - 1).error == Some(r.err)
  }

  /** What is billed meanwhile. */
  ghost predicate Billed(env: RelayEnv, b: Option<BillingSession>, accounts: Accounts, playground: bool, pre: int,
                         n: nat)
    reads accounts, if b.Some? then {b.value, b.value.accounts} else {}
  {
    && Settling(b, accounts, playground, env, n) && TokenPays(accounts, playground)
    && (b.Some? ==> b.value.preConsumed == pre)
  }

  /** One turn of the loop of Relay: `done` if it leaves the loop. */
  method RelayOnce(cfg: Config, env: RelayEnv, p: RetryParam, n: nat, last: RelayResult, b: Option<BillingSession>,
                   accounts: Accounts,
                   playground: bool, ghost pre: int, ghost o: Outcome)
    returns (done: bool, attempts: nat, r: RelayResult)
    requires p.retry <= cfg.retryTimes && Relaying(cfg, env, p, n, last, o)
    requires Billed(env, b, accounts, playground, pre, n)
    modifies p, accounts, if b.Some? then {b.value} else {}
    ensures Billed(env, b, accounts, playground, pre, attempts)
    ensures done ==> RelayEnded(env, attempts, r, o)
    ensures !done ==> Relaying(cfg, env, p, attempts, r, o) && old(p.groupIndex) <= p.groupIndex
    ensures !done && p.groupIndex == old(p.groupIndex) ==> p.retry == old(p.retry) + 1
  {
    var w := RelayWorld(env);
    SelectMoves(cfg, w, n, p.retry, p.groupIndex);
    var found := p.GetChannel(cfg, w, n);
    if !found { return true, n, RelayFailure(NoChannel); }
    if !env.body(n) { return true, n, RelayFailure(NoBody); }
    SettleAttempt(env, n, b, accounts, playground);
    var error := env.attempt(n).error;
    if error.None? { return true, n + 1, Answered; }
    done, attempts, r := false, n + 1, ApiFailure(error.value);
    if !ShouldRetry(env.context(n), r.err, cfg.retryTimes - p.retry) { done := true; return; }
    p.IncreaseRetry();
  }

  method TryRelay(cfg: Config, env: RelayEnv, p: RetryParam, b: Option<BillingSession>, accounts: Accounts,
                  playground: bool, ghost pre: int)
    returns (attempts: nat, r: RelayResult)
    requires cfg.retryTimes >= 0 && p.retry == 0 && !p.resetNextTry && p.groupIndex <= cfg.groups
    requires Billed(env, b, accounts, playground, pre, 0)
    modifies p, accounts, if b.Some? then {b.value} else {}
    ensures RelayEnded(env, attempts, r, Loop(cfg, RelayWorld(env), 0, 0, old(p.groupIndex)))
    ensures Billed(env, b, accounts, playground, pre, attempts)
  {
    ghost var o := Loop(cfg, RelayWorld(env), 0, 0, p.groupIndex);
    attempts, r := 0, RelayFailure(NoChannel);
    while p.retry <= cfg.retryTimes
      invariant Relaying(cfg, env, p, attempts, r, o) && Billed(env, b, accounts, playground, pre, attempts)
      decreases cfg.groups - p.groupIndex, cfg.retryTimes + 1 - p.retry
    {
      var done, n, r' := RelayOnce(cfg, env, p, attempts, r, b, accounts, playground, pre, o);
      attempts, r := n, r';
      if done { return; }
    }
  }

  /** Relay, with a session that has taken its quota in advance, or without one for a free request.  It calls Refund
      exactly when it ends with an error.  With a session the request has then cost what was settled first, nothing if
      nothing was settled and it failed, and otherwise what was taken in advance; without one it has cost all that was
      settled. */
  method Relay(cfg: Config, env: RelayEnv, p: RetryParam, b: Option<BillingSession>, accounts: Accounts,
               playground: bool)
    returns (attempts: nat, r: RelayResult)
    requires cfg.retryTimes >= 0 && p.retry == 0 && !p.resetNextTry && p.groupIndex <= cfg.groups
    requires Unbilled(b, accounts, playground)
    modifies p, accounts, if b.Some? then {b.value} else {}
    ensures RelayEnded(env, attempts, r, Loop(cfg, RelayWorld(env), 0, 0, old(p.groupIndex)))
    ensures attempts <= Bound(cfg, old(p.groupIndex))
    ensures var q := SettledIn(env, attempts);
      accounts.spent ==
        if b.None? then TotalSettled(env, attempts)
        else if q.Some? then q.value
        else if r.Answered? then b.value.preConsumed
        else 0
    ensures accounts.tokenSpent == if playground then 0 else accounts.spent
    ensures b.Some? ==>
      b.value.settled == SettledIn(env, attempts).Some? && b.value.preConsumed == old(b.value.preConsumed)
    ensures b.Some? ==> b.value.refunded == (!r.Answered? && !b.value.settled && b.value.preConsumed > 0)
  {
    AttemptsBounded(cfg, RelayWorld(env), p.groupIndex);
    attempts, r := TryRelay(cfg, env, p, b, accounts, playground, if b.Some? then b.value.preConsumed else 0);
    if !r.Answered? && b.Some? { b.value.Refund(true, true, true); }
  }
}
