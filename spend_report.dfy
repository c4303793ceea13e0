/**
 * The keyed process function of the spend report. The runtime keeps each state handle per
 * account key; here each handle is a map from key to value, where a missing key is a null value.
 * The alert collector and the timer service are the streams the handler appends to.
 */
module SpendReport {
  import opened Wrappers
  import opened FraudRule

  /** A processing-time timer requested for a key. */
  datatype TimerRequest = TimerRequest(key: AccountId, time: int)

  function Requests(key: AccountId, timer: Option<int>): seq<TimerRequest> {
    match timer
    case Some(time) => [TimerRequest(key, time)]
    case None => []
  }

  class FraudDetector {
    var flagState: map<AccountId, bool>
    var accountAggregate: map<AccountId, real>
    var timerState: map<AccountId, int>
    /** Every alert handed to the collector so far. */
    var collector: seq<Alert>
    /** Every timer registered with the timer service so far. */
    var timerService: seq<TimerRequest>

    /** The state of one account, as its three handles read it. */
    function StateOf(key: AccountId): AccountState
      reads this
    {
      AccountState(
        key in flagState,
        if key in accountAggregate then Some(accountAggregate[key]) else None,
        if key in timerState then Some(timerState[key]) else None)
    }

    /** Fresh state handles: every account starts with no flag, no aggregate and no timer. */
    constructor ()
      ensures forall key :: StateOf(key) == Initial
      ensures collector == [] && timerService == []
    {
      flagState, accountAggregate, timerState := map[], map[], map[];
      collector, timerService := [], [];
    }

    /**
     * Handles one transaction for its account. Only that account's state changes, as the rule
     * says; the alert, if any, is collected, and the timer, if any, is registered for that key.
     */
    method ProcessElement(transaction: Transaction, now: int)
      modifies this
      ensures StateOf(transaction.accountId)
        == Process(old(StateOf(transaction.accountId)), transaction, now).state
      ensures collector
        == old(collector) + Process(old(StateOf(transaction.accountId)), transaction, now).alert.ToSeq()
      ensures timerService
        == old(timerService) + Requests(transaction.accountId, Process(old(StateOf(transaction.accountId)), transaction, now).timer)
      ensures forall key :: key != transaction.accountId ==> StateOf(key) == old(StateOf(key))
    {
      var key := transaction.accountId;
      var lastTransactionWasSmall := key in flagState;
      if lastTransactionWasSmall {
        if transaction.amount > LargeAmount {
          collector := collector + [Alert(key)];
        }
        flagState := flagState - {key};
      }
      if transaction.amount < SmallAmount {
        flagState := flagState[key := true];
        var timer := now + TenSeconds;
        timerService := timerService + [TimerRequest(key, timer)];
        timerState := timerState[key := timer];
      }
      if key !in accountAggregate {
        accountAggregate := accountAggregate[key := 0.0];
      }
      accountAggregate := accountAggregate[key := accountAggregate[key] + transaction.amount];
    }

    /** A timer for `key` fired: that account's flag and deadline are cleared, nothing else changes. */
    method OnTimer(key: AccountId, timestamp: int)
      modifies this
      ensures StateOf(key) == Expire(old(StateOf(key)))
      ensures forall k :: k != key ==> StateOf(k) == old(StateOf(k))
      ensures collector == old(collector) && timerService == old(timerService)
    {
      timerState := timerState - {key};
      flagState := flagState - {key};
    }
  }
}
