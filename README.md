# Fraud detector of the spend report, in Dafny

This project models the keyed fraud rule of the spend report job, `FraudDetector`. It is a stream
function keyed by account id, and it keeps three state fields per account:

- a flag, where only presence matters;
- a running aggregate of the amounts;
- the deadline of the last requested timer.

It has two callbacks:

- `processElement` handles one transaction. A present flag makes the transaction a candidate
  payoff: an alert fires when the amount is strictly above 500.00, and the flag is cleared either
  way. An amount strictly below 1.00 sets the flag, registers a processing-time timer ten seconds
  ahead and records that deadline. The amount is then added to the aggregate, which starts at zero.
- `onTimer` clears the flag and the deadline.

The files:

- `wrappers.dfy`: `Option`. A null `ValueState` is `None`.
- `fraud_rule.dfy` (module `FraudRule`): the rule for one account, stated on values. It holds the
  thresholds, the step functions `Process` and `Expire`, and `Run`, which handles a sequence of
  events. Reference definitions say what a run must produce in terms of the events alone: the
  alerts, the requested deadlines, the recorded deadline and the sum of the amounts. Induction
  lemmas tie `Run` to each of them. Concrete scenario lemmas follow.
- `spend_report.dfy` (module `SpendReport`): the class `FraudDetector`. It holds the three keyed
  state handles, each as a map from account id to value, where a missing key is a null value. It
  also holds the alert collector and the timer service, as the sequences the callbacks append to.
  `ProcessElement` and `OnTimer` update these fields in place. Their contracts tie the touched
  account's new state to `Process` and `Expire`, and they state that every other account's state
  is unchanged.

## Model

| member | source | states |
|---|---|---|
| FraudRule.Process | src/main/java/com/camilo/spendreport/FraudDetector.java:67-102 | An alert for the transaction's account fires exactly when the flag was present and the amount is strictly above 500.00. Afterwards the flag is present exactly when the amount is strictly below 1.00, so an old flag is consumed even without an alert. A small amount requests one timer at now + 10000 and records it; any other amount requests none and leaves the recorded deadline as it was. The aggregate becomes the old total (0 if absent) plus the amount. |
| FraudRule.Expire | src/main/java/com/camilo/spendreport/FraudDetector.java:109-112 | A timer leaves the flag and the deadline absent and the aggregate unchanged. |
| FraudRule.ExpireIdempotent | src/main/java/com/camilo/spendreport/FraudDetector.java:109-112 | Two expiries give the same state as one, so stale, never-cancelled timers are harmless to the state. |
| FraudRule.ThresholdsAreStrict | src/main/java/com/camilo/spendreport/FraudDetector.java:37-38 | Exactly 500.00 after a flagged transaction raises no alert; exactly 1.00 sets no flag and requests no timer. |
| FraudRule.RunFlag | src/main/java/com/camilo/spendreport/FraudDetector.java:72-92 | After any run the flag is present exactly when the last event was a transaction below 1.00. |
| FraudRule.RunAlerts | src/main/java/com/camilo/spendreport/FraudDetector.java:72-84 | The alerts of a run are exactly one per transaction above 500.00 that immediately follows a transaction below 1.00, in order. With no window open, no alert fires whatever the amount. |
| FraudRule.AlertsBounded | src/main/java/com/camilo/spendreport/FraudDetector.java:74-81 | A run raises at most one alert per transaction. |
| FraudRule.RunTimers | src/main/java/com/camilo/spendreport/FraudDetector.java:86-92 | A run requests exactly one timer per transaction below 1.00, at its time + 10000, in order. No request is ever withdrawn. |
| FraudRule.RunDeadline | src/main/java/com/camilo/spendreport/FraudDetector.java:86-92 | The recorded deadline is that of the last small transaction, or absent if a timer fired after it. |
| FraudRule.RunAggregate | src/main/java/com/camilo/spendreport/FraudDetector.java:94-98 | The total after a run is the total before plus the sum of the transaction amounts, whatever alerts or timers occurred. The aggregate is present exactly when it was before or some transaction was seen. |
| FraudRule.AggregateFromStart | src/main/java/com/camilo/spendreport/FraudDetector.java:94-98 | From an account's first event, after at least one transaction, the aggregate equals the sum of all amounts. |
| FraudRule.SumOfNonNegative | src/main/java/com/camilo/spendreport/FraudDetector.java:98 | Non-negative amounts sum to a non-negative value. |
| FraudRule.AggregateNonDecreasing | src/main/java/com/camilo/spendreport/FraudDetector.java:94-98 | With non-negative amounts the running total never decreases. |
| FraudRule.ProbeThenPayoff | src/main/java/com/camilo/spendreport/FraudDetector.java:72-98 | 0.50 then 600.00: one alert for the account, one timer, aggregate 600.50. |
| FraudRule.ProbeExpiresBeforePayoff | src/main/java/com/camilo/spendreport/FraudDetector.java:72-112 | 0.50, a timer, then 600.00: no alert, aggregate 600.50, deadline cleared. |
| FraudRule.MiddleAmountConsumesWindow | src/main/java/com/camilo/spendreport/FraudDetector.java:72-87 | 0.50, 250.00, 600.00: no alert, because 250.00 consumes the window without opening one. |
| FraudRule.StaleTimerClosesLaterWindow | src/main/java/com/camilo/spendreport/FraudDetector.java:86-112 | Two probes 5 s apart: the first probe's timer also closes the second probe's window, so a payoff 7 s after the second probe raises no alert. |
| SpendReport.FraudDetector.constructor | src/main/java/com/camilo/spendreport/FraudDetector.java:41-43 | Every account starts with flag, aggregate and deadline absent; nothing collected or registered. |
| SpendReport.FraudDetector.ProcessElement | src/main/java/com/camilo/spendreport/FraudDetector.java:67-102 | The transaction's account moves to the state `Process` gives, its alert (if any) is appended to the collector, and its timer (if any) is registered for that key. Every other account's state is unchanged. |
| SpendReport.FraudDetector.OnTimer | src/main/java/com/camilo/spendreport/FraudDetector.java:109-112 | The fired key's flag and deadline are cleared. Its aggregate, every other account, the collector and the timer service are unchanged. |

## Left out

- `open()` and the state descriptors (`FraudDetector.java:46-64`) are runtime plumbing. The three state handles are maps that start empty.
- Amounts are exact `real` numbers. The IEEE-754 `double` rounding of the aggregate sum and of the comparisons is not modelled.
- Times are unbounded `int`. A `long` overflow of `currentProcessingTime() + TEN_SECONDS` is not modelled.
- The clock is a parameter (`now`). When the timer service delivers a timer is up to the runtime, so `OnTimer` may be called at any point. Its `timestamp` is ignored, as the handler ignores it.
- Key partitioning and per-key serialisation are provided by the runtime. The model is sequential, and non-interference between keys is stated per call.
- The alert sink and the job wiring are not part of this model. Neither is the commented-out printing of the aggregate.
- `TaxiRide.java` is not part of this model. It is a record with parsing and formatting that has no link to the rule.
