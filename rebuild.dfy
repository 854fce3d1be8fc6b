/** The tree rebuild and monitor polling decisions of the extension (src/extension-rebuild.ts). */
module Rebuild {

  /** shouldRebuildTree (src/extension-rebuild.ts:1-2): monitors exist but no output does. */
  predicate ShouldRebuildTree(outputs: int, monitors: int) {
    monitors > 0 && outputs == 0
  }

  /** maybeRebuildTree (src/extension-rebuild.ts:4-15): the decision, and how many times the
      `rebuild` callback ran. */
  function MaybeRebuildTree(outputs: int, monitors: int): (r: (bool, nat))
    ensures r.0 <==> monitors > 0 && outputs == 0
    ensures r.1 == (if r.0 then 1 else 0)
  {
    if !ShouldRebuildTree(outputs, monitors) then (false, 0) else (true, 1)
  }

  /** shouldContinuePolling (src/extension-rebuild.ts:17-27). */
  predicate ShouldContinuePolling(attempts: int, maxAttempts: int, outputs: int) {
    if outputs > 0 then false else attempts < maxAttempts
  }

  /** How many ticks the poll runs from `attempts`, one attempt more per tick, while no
      output appears. */
  function PollTicks(attempts: int, maxAttempts: int, outputs: int): (n: nat)
    decreases maxAttempts - attempts
  {
    if ShouldContinuePolling(attempts, maxAttempts, outputs)
    then 1 + PollTicks(attempts + 1, maxAttempts, outputs)
    else 0
  }

  /** Polling never continues once an output exists, and otherwise stops after exactly
      `maxAttempts - attempts` ticks (none when that is not positive). */
  lemma {:induction false} PollingStops(attempts: int, maxAttempts: int, outputs: int)
    ensures outputs > 0 ==> !ShouldContinuePolling(attempts, maxAttempts, outputs)
    ensures outputs > 0 ==> PollTicks(attempts, maxAttempts, outputs) == 0
    ensures outputs <= 0 ==>
              PollTicks(attempts, maxAttempts, outputs) == if attempts < maxAttempts then maxAttempts - attempts else 0
    ensures !ShouldContinuePolling(attempts + PollTicks(attempts, maxAttempts, outputs), maxAttempts, outputs)
    decreases maxAttempts - attempts
  {
    if ShouldContinuePolling(attempts, maxAttempts, outputs) {
      PollingStops(attempts + 1, maxAttempts, outputs);
    }
  }
}
