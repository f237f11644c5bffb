/** Connection states, transport failures and the reconnect schedule. */
module Connection {
  import opened Common

  datatype ConnectionState =
    | Idle
    | Connecting
    | Online
    | Reconnecting(attempt: nat, retryInMs: nat)
    | Failed(message: string, recoverable: bool)

  /** A transport failure: what it says, and whether reconnecting could help. */
  datatype TransportError = TransportError(message: string, transient: bool)

  const BACKOFF_MS: seq<nat> := [1_000, 2_000, 5_000, 10_000, 20_000, 30_000]

  function BackoffFor(attempt: nat): (ms: nat)
    ensures 1_000 <= ms <= 30_000
  {
    var index := Min(if attempt == 0 then 0 else attempt - 1, |BACKOFF_MS| - 1);
    BACKOFF_MS[index]
  }

  /** The schedule, in milliseconds after each failure in a row. */
  lemma BackoffSchedule(failures: nat)
    requires failures >= 1
    ensures BackoffFor(failures)
         == if failures == 1 then 1_000
            else if failures == 2 then 2_000
            else if failures == 3 then 5_000
            else if failures == 4 then 10_000
            else if failures == 5 then 20_000
            else 30_000
  {
  }

  lemma BackoffNeverShrinks(m: nat, n: nat)
    requires m <= n
    ensures BackoffFor(m) <= BackoffFor(n)
  {
    var i := Min(if m == 0 then 0 else m - 1, 5);
    var j := Min(if n == 0 then 0 else n - 1, 5);
    assert i <= j;
  }

  /** What a runtime becomes when its session is lost after `attempt` earlier losses. */
  function StateAfterLoss(attempt: nat, error: TransportError): ConnectionState {
    if error.transient then
      Reconnecting(attempt + 1, BackoffFor(attempt + 1))
    else
      Failed(error.message, false)
  }
}
