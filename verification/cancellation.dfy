/**
 * The cancellation token as an oracle: it is polled by `IsCancellationRequested`
 * and answers true from a fixed poll onwards. Polls are numbered from 0 over the
 * token's lifetime; `AtCheck(n)` means that poll number `n` is the first to see
 * cancellation, `Never` that no poll sees it.
 */
module Cancellation {

  datatype Signal = Never | AtCheck(first: nat)

  /** Whether poll number `check` sees cancellation. */
  predicate Requested(signal: Signal, check: nat) {
    signal.AtCheck? && signal.first <= check
  }

  class CancellationToken {
    const signal: Signal
    /** How many times the token has been polled so far. */
    var checks: nat

    constructor (signal: Signal)
      ensures this.signal == signal && checks == 0
    {
      this.signal := signal;
      checks := 0;
    }

    /** `IsCancellationRequested`: one poll of the token. */
    method IsCancellationRequested() returns (requested: bool)
      modifies this
      ensures checks == old(checks) + 1
      ensures requested == Requested(signal, old(checks))
    {
      requested := Requested(signal, checks);
      checks := checks + 1;
    }
  }
}
