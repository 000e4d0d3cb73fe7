/** The per-pool summary `RateResult`, and the averaging rule both pool
    generations (ratespull.go and fabric.go) apply to the readings they count. */
module Results {

  /** What one `RatesPull.GetRate` call reports. */
  datatype RateResult = RateResult(
    rate: real,
    countSources: int,
    totalSources: int,
    errors: seq<string>)

  /** The mean of `count` readings adding up to `sum`; with nothing counted the
      rate stays at its zero value instead of dividing by zero. */
  function Mean(sum: real, count: nat): (m: real)
    ensures count == 0 ==> m == 0.0
    ensures count > 0 ==> m * count as real == sum
  {
    if count > 0 then sum / count as real else 0.0
  }

  /** The mean of readings that each lie in `[lo, hi]` lies in `[lo, hi]` too. */
  lemma MeanWithinBounds(sum: real, count: nat, lo: real, hi: real)
    requires count > 0
    requires count as real * lo <= sum <= count as real * hi
    ensures lo <= Mean(sum, count) <= hi
  {
    var m := Mean(sum, count);
    var c := count as real;
    assert (m - lo) * c == sum - lo * c;
    assert (hi - m) * c == hi * c - sum;
  }
}
