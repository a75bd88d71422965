/** What all the models of cluster components share: the clock, and what may happen to a write. */
module Cluster {

  /** Instants and durations in nanoseconds. */
  type Time = int
  type Duration = int

  const SECOND: Duration := 1_000_000_000
  const MINUTE: Duration := 60 * SECOND
  const HOUR: Duration := 60 * MINUTE

  /** The start of the second: stored timestamps have no fraction. */
  function WholeSecond(t: Time): Time {
    t - t % SECOND
  }

  lemma WholeSecondGrows(t: Time, u: Time)
    requires t <= u
    ensures WholeSecond(t) <= WholeSecond(u)
    ensures WholeSecond(u) <= u < WholeSecond(u) + SECOND
  {
  }

  /** A write either takes effect and is acknowledged, is lost on its way, or takes effect without the caller learning it. */
  datatype Fault = Reliable | DroppedRequest | DroppedResponse
}
