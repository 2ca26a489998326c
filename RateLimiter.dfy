/** The slew-rate limit that write applies to velocity commands, over the reals. */
module RateLimiter {

  function Abs(x: real): real
  {
    if x < 0.0 then -x else x
  }

  /** One joint's dispatched velocity: the requested value, pulled back into the band
      [previous - maxDelta, previous + maxDelta] around the previously dispatched value.
      The upper bound is tested first. */
  function Clamp(requested: real, previous: real, maxDelta: real): (c: real)
    ensures maxDelta >= 0.0 ==> previous - maxDelta <= c <= previous + maxDelta
    ensures previous - maxDelta <= requested <= previous + maxDelta ==> c == requested
  {
    if requested > previous + maxDelta then previous + maxDelta
    else if requested < previous - maxDelta then previous - maxDelta
    else requested
  }

  /** The whole dispatched velocity vector: each requested joint velocity clamped
      against the same joint's previous command. */
  function Limit(requested: seq<real>, previous: seq<real>, maxDelta: real): (r: seq<real>)
    requires |requested| <= |previous|
    ensures |r| == |requested|
    ensures maxDelta >= 0.0 ==>
      forall i :: 0 <= i < |r| ==> previous[i] - maxDelta <= r[i] <= previous[i] + maxDelta
    ensures forall i :: 0 <= i < |r| ==>
      (previous[i] - maxDelta <= requested[i] <= previous[i] + maxDelta ==> r[i] == requested[i])
  {
    seq(|requested|, i requires 0 <= i < |requested| => Clamp(requested[i], previous[i], maxDelta))
  }

  /** The clamp picks the point of the band nearest to the request. */
  lemma ClampIsNearest(requested: real, previous: real, maxDelta: real, x: real)
    requires previous - maxDelta <= x <= previous + maxDelta
    ensures Abs(Clamp(requested, previous, maxDelta) - requested) <= Abs(x - requested)
  {
  }

  /** The clamp agrees with the textbook definition max(low, min(request, high)). */
  lemma ClampIsMinMax(requested: real, previous: real, maxDelta: real)
    requires maxDelta >= 0.0
    ensures var high := if requested < previous + maxDelta then requested else previous + maxDelta;
            Clamp(requested, previous, maxDelta) == if high > previous - maxDelta then high else previous - maxDelta
  {
  }

  /** Clamping an already clamped value changes nothing. */
  lemma ClampIdempotent(requested: real, previous: real, maxDelta: real)
    requires maxDelta >= 0.0
    ensures Clamp(Clamp(requested, previous, maxDelta), previous, maxDelta) == Clamp(requested, previous, maxDelta)
  {
  }

  /** A larger request never yields a smaller dispatched velocity. */
  lemma ClampMonotone(r1: real, r2: real, previous: real, maxDelta: real)
    requires maxDelta >= 0.0
    requires r1 <= r2
    ensures Clamp(r1, previous, maxDelta) <= Clamp(r2, previous, maxDelta)
  {
  }

  /** Six joints at rest, a limit of 0.12 and a request of 1 on the first joint: only
      0.12 is dispatched on that joint. */
  lemma LimitFromRest()
    ensures Limit([1.0, 0.0, 0.0, 0.0, 0.0, 0.0], [0.0, 0.0, 0.0, 0.0, 0.0, 0.0], 0.12)
      == [0.12, 0.0, 0.0, 0.0, 0.0, 0.0]
  {
  }
}
