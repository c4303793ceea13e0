/**
 * The per-account fraud rule of the spend report: a transaction below SmallAmount opens a
 * window; if the very next event for the account is a transaction above LargeAmount, an alert
 * is raised. A timer registered TenSeconds after the small transaction closes the window.
 * Every transaction is also added to the account's running total.
 *
 * This module states the rule on values: one account's state, one step at a time, and whole
 * runs of events with reference definitions that describe the outcome without the state.
 */
module FraudRule {
  import opened Wrappers

  type AccountId = int

  /** A transaction strictly below this amount opens a window. */
  const SmallAmount: real := 1.00
  /** A transaction strictly above this amount closes an open window with an alert. */
  const LargeAmount: real := 500.00
  /** Processing-time milliseconds between a small transaction and its expiry timer. */
  const TenSeconds: int := 10 * 1000

  datatype Transaction = Transaction(accountId: AccountId, amount: real)

  datatype Alert = Alert(id: AccountId)

  /**
   * The three keyed state fields of one account: whether the flag is present (only presence is
   * ever looked at), the running aggregate (absent before the first transaction) and the last
   * requested timer deadline.
   */
  datatype AccountState = AccountState(flag: bool, aggregate: Option<real>, timer: Option<int>)

  /** Every field absent: the state of an account before its first event. */
  const Initial: AccountState := AccountState(false, None, None)

  /** The result of handling one transaction: the new state, the alert and the timer requested. */
  datatype Step = Step(state: AccountState, alert: Option<Alert>, timer: Option<int>)

  /** The running total, reading an absent aggregate as zero. */
  function Total(s: AccountState): real {
    s.aggregate.GetOr(0.0)
  }

  /** Handling of one transaction, in the order the handler applies its three steps. */
  function Process(s: AccountState, t: Transaction, now: int): (r: Step)
    // an alert fires exactly when the flag was present and the amount is strictly large
    ensures r.alert.Some? <==> s.flag && t.amount > LargeAmount
    ensures r.alert.Some? ==> r.alert.value == Alert(t.accountId)
    // the old flag is always consumed; a new one is present exactly after a strictly small amount
    ensures r.state.flag <==> t.amount < SmallAmount
    // a small amount requests one timer ten seconds ahead and records its deadline
    ensures t.amount < SmallAmount ==> r.timer == Some(now + TenSeconds) && r.state.timer == r.timer
    // otherwise nothing is requested and an earlier deadline is left as it was
    ensures !(t.amount < SmallAmount) ==> r.timer == None && r.state.timer == s.timer
    // the amount is added to the total, which is present from now on
    ensures r.state.aggregate.Some? && Total(r.state) == Total(s) + t.amount
  {
    // 1. A present flag makes this transaction the candidate payoff, and is cleared either way.
    var alert := if s.flag && t.amount > LargeAmount then Some(Alert(t.accountId)) else None;
    var consumed := if s.flag then s.(flag := false) else s;
    // 2. A small amount sets the flag and arms the expiry timer.
    var timer := if t.amount < SmallAmount then Some(now + TenSeconds) else None;
    var armed := if t.amount < SmallAmount then consumed.(flag := true, timer := timer) else consumed;
    // 3. The aggregate, initialised to zero when absent, grows by the amount.
    var base := if armed.aggregate.None? then armed.(aggregate := Some(0.0)) else armed;
    Step(base.(aggregate := Some(base.aggregate.value + t.amount)), alert, timer)
  }

  /** Handling of a timer firing: the window closes, whatever the state. */
  function Expire(s: AccountState): (r: AccountState)
    ensures !r.flag && r.timer.None?
    ensures r.aggregate == s.aggregate
  {
    s.(timer := None, flag := false)
  }

  /** An expiry does the same whether it runs once or twice. */
  lemma ExpireIdempotent(s: AccountState)
    ensures Expire(Expire(s)) == Expire(s)
  {
  }

  /** The comparisons are strict: amounts equal to a threshold trigger neither branch. */
  lemma ThresholdsAreStrict(s: AccountState, id: AccountId, now: int)
    ensures Process(s.(flag := true), Transaction(id, LargeAmount), now).alert.None?
    ensures !Process(s, Transaction(id, SmallAmount), now).state.flag
    ensures Process(s, Transaction(id, SmallAmount), now).timer.None?
  {
  }

  // ----- Runs of events for one account -----

  /** What the runtime delivers for one key: a transaction at processing time `now`, or a timer. */
  datatype Event = Tx(t: Transaction, now: int) | Fire(timestamp: int)

  /** The state after a run, with every alert collected and every timer requested, in order. */
  datatype Trace = Trace(state: AccountState, alerts: seq<Alert>, timers: seq<int>)

  function Apply(tr: Trace, e: Event): Trace {
    match e
    case Tx(t, now) =>
      var r := Process(tr.state, t, now);
      Trace(r.state, tr.alerts + r.alert.ToSeq(), tr.timers + r.timer.ToSeq())
    case Fire(_) =>
      Trace(Expire(tr.state), tr.alerts, tr.timers)
  }

  /** The events handled one after the other from state `s`. */
  function Run(s: AccountState, events: seq<Event>): Trace
    decreases |events|
  {
    if events == [] then Trace(s, [], [])
    else Apply(Run(s, events[..|events| - 1]), events[|events| - 1])
  }

  // ----- Reference definitions, in terms of the events alone -----

  predicate IsProbe(e: Event) {
    e.Tx? && e.t.amount < SmallAmount
  }

  predicate IsPayoff(e: Event) {
    e.Tx? && e.t.amount > LargeAmount
  }

  /** A window is open after `events`: the last event was a small transaction (or, with no event, it was open before). */
  predicate WindowOpen(s: AccountState, events: seq<Event>) {
    if events == [] then s.flag else IsProbe(events[|events| - 1])
  }

  /** One alert per large transaction that comes immediately after a small one. */
  function ExpectedAlerts(s: AccountState, events: seq<Event>): seq<Alert>
    decreases |events|
  {
    if events == [] then []
    else
      var last := events[|events| - 1];
      var before := events[..|events| - 1];
      ExpectedAlerts(s, before)
        + (if IsPayoff(last) && WindowOpen(s, before) then [Alert(last.t.accountId)] else [])
  }

  /** One deadline per small transaction, ten seconds after it. */
  function ExpectedDeadlines(events: seq<Event>): seq<int>
    decreases |events|
  {
    if events == [] then []
    else
      var last := events[|events| - 1];
      ExpectedDeadlines(events[..|events| - 1])
        + (if IsProbe(last) then [last.now + TenSeconds] else [])
  }

  /** The deadline of the last small transaction, unless a timer fired after it. */
  function LastDeadline(s: AccountState, events: seq<Event>): Option<int>
    decreases |events|
  {
    if events == [] then s.timer
    else
      var last := events[|events| - 1];
      if last.Fire? then None
      else if IsProbe(last) then Some(last.now + TenSeconds)
      else LastDeadline(s, events[..|events| - 1])
  }

  function CountTransactions(events: seq<Event>): nat
    decreases |events|
  {
    if events == [] then 0
    else CountTransactions(events[..|events| - 1]) + (if events[|events| - 1].Tx? then 1 else 0)
  }

  function SumAmounts(events: seq<Event>): real
    decreases |events|
  {
    if events == [] then 0.0
    else
      var last := events[|events| - 1];
      SumAmounts(events[..|events| - 1]) + (if last.Tx? then last.t.amount else 0.0)
  }

  // ----- What a run computes -----

  /** The flag is present after a run exactly when the window is open. */
  lemma RunFlag(s: AccountState, events: seq<Event>)
    ensures Run(s, events).state.flag == WindowOpen(s, events)
  {
  }

  /** The alerts of a run are exactly the small-then-large pairs of consecutive events. */
  lemma {:induction false} RunAlerts(s: AccountState, events: seq<Event>)
    ensures Run(s, events).alerts == ExpectedAlerts(s, events)
    decreases |events|
  {
    if events != [] {
      var before := events[..|events| - 1];
      RunAlerts(s, before);
      RunFlag(s, before);
    }
  }

  /** A run alerts at most once per transaction. */
  lemma {:induction false} AlertsBounded(s: AccountState, events: seq<Event>)
    ensures |Run(s, events).alerts| <= CountTransactions(events)
    decreases |events|
  {
    if events != [] {
      var before := events[..|events| - 1];
      AlertsBounded(s, before);
    }
  }

  /** A run requests one timer per small transaction, ten seconds after it, and never cancels one. */
  lemma {:induction false} RunTimers(s: AccountState, events: seq<Event>)
    ensures Run(s, events).timers == ExpectedDeadlines(events)
    decreases |events|
  {
    if events != [] {
      RunTimers(s, events[..|events| - 1]);
    }
  }

  /** The recorded deadline is that of the last small transaction, cleared by any later timer. */
  lemma {:induction false} RunDeadline(s: AccountState, events: seq<Event>)
    ensures Run(s, events).state.timer == LastDeadline(s, events)
    decreases |events|
  {
    if events != [] {
      RunDeadline(s, events[..|events| - 1]);
    }
  }

  /**
   * The running total grows by the sum of the amounts, whatever alerts or timers occur, and is
   * present once any transaction has been seen.
   */
  lemma {:induction false} RunAggregate(s: AccountState, events: seq<Event>)
    ensures Total(Run(s, events).state) == Total(s) + SumAmounts(events)
    ensures Run(s, events).state.aggregate.Some? <==> s.aggregate.Some? || CountTransactions(events) > 0
    decreases |events|
  {
    if events != [] {
      RunAggregate(s, events[..|events| - 1]);
    }
  }

  /** From an account's first event on, the aggregate is the sum of all its amounts. */
  lemma AggregateFromStart(events: seq<Event>)
    requires CountTransactions(events) > 0
    ensures Run(Initial, events).state.aggregate == Some(SumAmounts(events))
  {
    RunAggregate(Initial, events);
  }

  lemma {:induction false} SumOfNonNegative(events: seq<Event>)
    requires forall i :: 0 <= i < |events| && events[i].Tx? ==> events[i].t.amount >= 0.0
    ensures SumAmounts(events) >= 0.0
    decreases |events|
  {
    if events != [] {
      SumOfNonNegative(events[..|events| - 1]);
    }
  }

  /** With non-negative amounts the running total never decreases. */
  lemma {:induction false} AggregateNonDecreasing(s: AccountState, events: seq<Event>)
    requires forall i :: 0 <= i < |events| && events[i].Tx? ==> events[i].t.amount >= 0.0
    ensures Total(s) <= Total(Run(s, events).state)
  {
    RunAggregate(s, events);
    SumOfNonNegative(events);
  }

  // ----- Scenarios -----

  /** A probe and a payoff back to back: one alert, and the total is their sum. */
  lemma ProbeThenPayoff(id: AccountId, t0: int)
    ensures Run(Initial, [Tx(Transaction(id, 0.50), t0), Tx(Transaction(id, 600.00), t0 + 1)])
      == Trace(AccountState(false, Some(600.50), Some(t0 + TenSeconds)), [Alert(id)], [t0 + TenSeconds])
  {
    var probe, payoff := Tx(Transaction(id, 0.50), t0), Tx(Transaction(id, 600.00), t0 + 1);
    assert [probe, payoff][..1] == [probe];
    assert [probe][..0] == [];
    assert Run(Initial, [probe]) == Trace(AccountState(true, Some(0.50), Some(t0 + TenSeconds)), [], [t0 + TenSeconds]);
  }

  /** The timer fires between probe and payoff: no alert, the same total. */
  lemma ProbeExpiresBeforePayoff(id: AccountId, t0: int)
    ensures Run(Initial, [Tx(Transaction(id, 0.50), t0), Fire(t0 + TenSeconds), Tx(Transaction(id, 600.00), t0 + 20000)])
      == Trace(AccountState(false, Some(600.50), None), [], [t0 + TenSeconds])
  {
    var probe, fire, payoff := Tx(Transaction(id, 0.50), t0), Fire(t0 + TenSeconds), Tx(Transaction(id, 600.00), t0 + 20000);
    assert [probe, fire, payoff][..2] == [probe, fire];
    assert [probe, fire][..1] == [probe];
    assert [probe][..0] == [];
    assert Run(Initial, [probe]) == Trace(AccountState(true, Some(0.50), Some(t0 + TenSeconds)), [], [t0 + TenSeconds]);
    assert Run(Initial, [probe, fire]) == Trace(AccountState(false, Some(0.50), None), [], [t0 + TenSeconds]);
  }

  /** A middle amount consumes the window, so a later large amount raises nothing. */
  lemma MiddleAmountConsumesWindow(id: AccountId, t0: int)
    ensures Run(Initial, [Tx(Transaction(id, 0.50), t0), Tx(Transaction(id, 250.00), t0 + 1), Tx(Transaction(id, 600.00), t0 + 2)]).alerts == []
  {
    var probe, middle, payoff := Tx(Transaction(id, 0.50), t0), Tx(Transaction(id, 250.00), t0 + 1), Tx(Transaction(id, 600.00), t0 + 2);
    assert [probe, middle, payoff][..2] == [probe, middle];
    assert [probe, middle][..1] == [probe];
    assert [probe][..0] == [];
    assert Run(Initial, [probe]) == Trace(AccountState(true, Some(0.50), Some(t0 + TenSeconds)), [], [t0 + TenSeconds]);
    assert Run(Initial, [probe, middle]).alerts == [];
  }

  /**
   * Timers are never cancelled, so the timer of an earlier probe also closes the window opened
   * by a later probe, before that later window's own ten seconds have passed.
   */
  lemma StaleTimerClosesLaterWindow(id: AccountId, t0: int)
    ensures Run(Initial, [Tx(Transaction(id, 0.50), t0), Tx(Transaction(id, 0.50), t0 + 5000),
                          Fire(t0 + TenSeconds), Tx(Transaction(id, 600.00), t0 + 12000)]).alerts == []
  {
    var first, second := Tx(Transaction(id, 0.50), t0), Tx(Transaction(id, 0.50), t0 + 5000);
    var stale, payoff := Fire(t0 + TenSeconds), Tx(Transaction(id, 600.00), t0 + 12000);
    assert [first, second, stale, payoff][..3] == [first, second, stale];
    assert [first, second, stale][..2] == [first, second];
    assert [first, second][..1] == [first];
    assert [first][..0] == [];
    assert Run(Initial, [first]) == Trace(AccountState(true, Some(0.50), Some(t0 + TenSeconds)), [], [t0 + TenSeconds]);
    assert Run(Initial, [first, second]).alerts == [];
    assert Run(Initial, [first, second]).state.timer == Some(t0 + 5000 + TenSeconds);
    assert !Run(Initial, [first, second, stale]).state.flag;
  }
}
