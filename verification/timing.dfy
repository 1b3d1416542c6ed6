/** A model of `tvsub`, the `struct timeval` subtraction the detector's
    timing probes use. A `timeval` is a pair of whole seconds and
    microseconds; it is normalised when its microseconds lie in
    [0, 1000000).
 */
module Timing {

  const MicrosPerSecond: int := 1000000

  /** `struct timeval`: `tv_sec` and `tv_usec`. */
  datatype Timeval = Timeval(sec: int, usec: int)

  predicate Normalized(t: Timeval)
  {
    0 <= t.usec < MicrosPerSecond
  }

  /** The instant a `timeval` denotes, in microseconds. */
  function TotalMicros(t: Timeval): (r: int)
  {
    t.sec * MicrosPerSecond + t.usec
  }

  /** `tvsub(x, y, ret)`: fieldwise difference, then one borrow of a second
      when the microsecond difference is negative. */
  function TvSub(x: Timeval, y: Timeval): (r: Timeval)
    ensures TotalMicros(r) == TotalMicros(x) - TotalMicros(y)
    ensures x.usec >= y.usec <==> r.sec == x.sec - y.sec
    ensures x.usec < y.usec <==> r.sec == x.sec - y.sec - 1
    ensures Normalized(x) && Normalized(y) ==> Normalized(r)
  {
    var diff := Timeval(x.sec - y.sec, x.usec - y.usec);
    if diff.usec < 0 then Timeval(diff.sec - 1, diff.usec + MicrosPerSecond) else diff
  }

  /** A duration has exactly one normalised `timeval`. */
  lemma NormalizedUnique(a: Timeval, b: Timeval)
    requires Normalized(a) && Normalized(b)
    requires TotalMicros(a) == TotalMicros(b)
    ensures a == b
  {
  }

  /** On normalised inputs `tvsub` yields the one normalised `timeval` of
      the difference: seconds and microseconds are the floor quotient and
      remainder of the microsecond difference. */
  lemma TvSubIsCanonical(x: Timeval, y: Timeval)
    requires Normalized(x) && Normalized(y)
    ensures var d := TotalMicros(x) - TotalMicros(y);
      TvSub(x, y) == Timeval(d / MicrosPerSecond, d % MicrosPerSecond)
  {
  }
}
