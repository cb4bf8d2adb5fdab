/**
 * The delay rule of the derivation loop (app.py, lines 194-198): the number of
 * whole days by which a present reschedule date lies after the milestone's
 * date, and 0 when it is absent or not later.
 */
module Delays {
  import opened Wrappers

  function Max(a: int, b: int): int { if a < b then b else a }

  /**
   * Delay in days of a milestone dated `nominal` whose reschedule date is
   * `resched`: how far the reschedule pushes the milestone past its date,
   * never backwards.
   */
  function Delay(nominal: int, resched: Option<int>): (r: nat)
    ensures resched.None? ==> r == 0
    ensures resched.Some? ==> nominal + r == Max(nominal, resched.value)
  {
    if resched.Some? && resched.value > nominal then resched.value - nominal else 0
  }

  /** A delay is positive exactly when the reschedule date is present and later. */
  lemma DelayPositiveIff(nominal: int, resched: Option<int>)
    ensures Delay(nominal, resched) > 0 <==> resched.Some? && resched.value > nominal
    ensures Delay(nominal, resched) > 0 ==> Delay(nominal, resched) >= 1
  {
  }

  /** A reschedule date on or before the milestone date is no delay. */
  lemma DelayNotLater(nominal: int, resched: int)
    requires resched <= nominal
    ensures Delay(nominal, Some(resched)) == 0
  {
  }

  /** Reading the delay against the milestone's own date always gives 0. */
  lemma DelayOfSameDate(d: int)
    ensures Delay(d, Some(d)) == 0
  {
  }
}
