/**
 The latest moment a punch still belongs to a shift (src/lib/shiftCheckout.js, 44-65). Times are milliseconds.
 */
module Checkout {
  import opened Options
  import opened Arithmetic

  const MINUTE := 60_000
  const DAY := 86_400_000

  /**
   A latest check-out set on the roster wins, never within an hour of the next shift; without one, until the next
   shift's check-in window opens, for at most a day; without a next shift, the leniency after the end.
   */
  function BoundedCheckout(end: int, cutoff: Option<int>, next: Option<int>, leniency: int,
                           checkinWindow: int): (d: int)
    ensures cutoff.Some? ==> d <= cutoff.value && (next.Some? ==> d <= next.value - 60 * MINUTE)
    ensures cutoff.Some? && d < cutoff.value ==> next.Some? && d == next.value - 60 * MINUTE
    ensures cutoff.None? && next.Some? ==> end <= d <= end + DAY && (d <= next.value - checkinWindow || d == end)
    ensures cutoff.None? && next.None? ==> d == end + leniency
    ensures cutoff.None? && next.Some? && d < end + DAY ==> d >= next.value - checkinWindow
  {
    if cutoff.Some? then
      if next.Some? then Min(cutoff.value, next.value - 60 * MINUTE) else cutoff.value
    else if next.None? then
      end + leniency
    else
      Min(Max(end, next.value - checkinWindow), end + DAY)
  }
}
