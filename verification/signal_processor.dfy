/**
 * The stateless transforms of `SignalProcessor`: a centred, boundary-clamped
 * moving average, a linear min/max rescale and a first backward difference.
 * Swift's `Double` is modelled as `real` (exact arithmetic, no rounding).
 */
module SignalProcessor {
  import opened Series

  // ---------------------------------------------------------------------------
  // Moving average
  // ---------------------------------------------------------------------------

  /** `windowSize / 2` with Swift's `Int` division, which truncates toward zero. */
  function HalfWindow(windowSize: int): (h: int)
    ensures windowSize >= 0 ==> 0 <= h && 2 * h <= windowSize <= 2 * h + 1
    ensures windowSize < 0 ==> h <= 0 && 2 * h - 1 <= windowSize <= 2 * h
  {
    if windowSize >= 0 then windowSize / 2 else -((-windowSize) / 2)
  }

  /**
   * The inputs on which `movingAverageFilter` does not trap: a window size
   * below -1 gives a negative half window, and `start...end` with
   * `start > end` is a runtime error once there is any element to visit.
   */
  predicate FilterDefined(n: nat, windowSize: int)
  {
    n == 0 || windowSize >= -1
  }

  /** First index of the clamped window centred on `i`. */
  function WindowStart(i: int, windowSize: int): int
  {
    if i - HalfWindow(windowSize) < 0 then 0 else i - HalfWindow(windowSize)
  }

  /** Last index (inclusive) of the clamped window centred on `i` in a series of length `n`. */
  function WindowEnd(i: int, n: int, windowSize: int): int
  {
    if n - 1 < i + HalfWindow(windowSize) then n - 1 else i + HalfWindow(windowSize)
  }

  /** The samples averaged for output position `i`. */
  function Window(data: seq<real>, i: int, windowSize: int): (win: seq<real>)
    requires 0 <= i < |data|
    requires windowSize >= -1
    ensures 1 <= |win| <= 2 * HalfWindow(windowSize) + 1
    ensures data[i] in win
  {
    assert 0 <= WindowStart(i, windowSize) <= i <= WindowEnd(i, |data|, windowSize) < |data|;
    assert data[i] == data[WindowStart(i, windowSize)..WindowEnd(i, |data|, windowSize) + 1][i - WindowStart(i, windowSize)];
    data[WindowStart(i, windowSize)..WindowEnd(i, |data|, windowSize) + 1]
  }

  /** Reference definition of `movingAverageFilter(data:windowSize:)`. */
  function MovingAverage(data: seq<real>, windowSize: int): (r: seq<real>)
    requires FilterDefined(|data|, windowSize)
    ensures |r| == |data|
    ensures |data| <= windowSize ==> r == data
  {
    if |data| <= windowSize then data
    else seq(|data|, i requires 0 <= i < |data| => Mean(Window(data, i, windowSize)))
  }

  /**
   * `movingAverageFilter` as the source computes it: an outer loop over the
   * output positions, each averaging its clamped window.
   */
  method MovingAverageFilter(data: seq<real>, windowSize: int) returns (result: seq<real>)
    requires FilterDefined(|data|, windowSize)
    ensures |result| == |data|
    ensures |data| <= windowSize ==> result == data
    ensures |data| > windowSize ==>
      forall i :: 0 <= i < |data| ==> result[i] == Mean(Window(data, i, windowSize))
    ensures result == MovingAverage(data, windowSize)
  {
    if |data| <= windowSize {
      return data;
    }
    var out := seq(|data|, _ => 0.0);
    var i := 0;
    while i < |data|
      invariant 0 <= i <= |data|
      invariant |out| == |data|
      invariant forall k :: 0 <= k < i ==> out[k] == Mean(Window(data, k, windowSize))
    {
      var half := HalfWindow(windowSize);
      var start := if i - half < 0 then 0 else i - half;
      var end := if |data| - 1 < i + half then |data| - 1 else i + half;
      var sum, count := SumWindow(data, start, end);
      out := out[i := sum / (count as real)];
      i := i + 1;
    }
    result := out;
  }

  /** The inner loop of `movingAverageFilter`: sum and count of `data[start...end]`. */
  method SumWindow(data: seq<real>, start: int, end: int) returns (sum: real, count: int)
    requires 0 <= start <= end < |data|
    ensures sum == Sum(data[start..end + 1])
    ensures count == end - start + 1 == |data[start..end + 1]|
  {
    sum, count := 0.0, 0;
    var j := start;
    while j <= end
      invariant start <= j <= end + 1
      invariant sum == Sum(data[start..j])
      invariant count == j - start
    {
      assert data[start..j + 1] == data[start..j] + [data[j]];
      SumSnoc(data[start..j], data[j]);
      sum := sum + data[j];
      count := count + 1;
      j := j + 1;
    }
  }

  /** Each smoothed sample lies between the smallest and largest sample of its window. */
  lemma MovingAverageWithinWindow(data: seq<real>, windowSize: int, i: int)
    requires FilterDefined(|data|, windowSize)
    requires 0 <= i < |data|
    ensures windowSize >= -1
    ensures Min(Window(data, i, windowSize)) <= MovingAverage(data, windowSize)[i]
                                             <= Max(Window(data, i, windowSize))
  {
    var win := Window(data, i, windowSize);
    if |data| > windowSize {
      MeanBetweenMinAndMax(win);
    } else {
      assert MovingAverage(data, windowSize)[i] == data[i];
    }
  }

  /** A constant series is a fixed point of the moving average. */
  lemma MovingAverageConstant(data: seq<real>, windowSize: int, c: real)
    requires FilterDefined(|data|, windowSize)
    requires forall k :: 0 <= k < |data| ==> data[k] == c
    ensures MovingAverage(data, windowSize) == data
  {
    var r := MovingAverage(data, windowSize);
    forall i | 0 <= i < |data|
      ensures r[i] == data[i]
    {
      var win := Window(data, i, windowSize);
      assert Within(win, c, c) by {
        forall k | 0 <= k < |win| ensures c <= win[k] <= c {
          assert win[k] == data[WindowStart(i, windowSize) + k];
        }
      }
      if |data| > windowSize {
        MeanBounds(win, c, c);
      }
    }
  }

  /** The ten-sample example: the clamped end windows average three samples. */
  lemma MovingAverageBoundaryExample()
    ensures MovingAverage([1.0, 2.0, 3.0, 4.0, 5.0, 6.0, 7.0, 8.0, 9.0, 10.0], 5)[0] == 2.0
    ensures MovingAverage([1.0, 2.0, 3.0, 4.0, 5.0, 6.0, 7.0, 8.0, 9.0, 10.0], 5)[9] == 9.0
  {
    var data := [1.0, 2.0, 3.0, 4.0, 5.0, 6.0, 7.0, 8.0, 9.0, 10.0];
    assert HalfWindow(5) == 2;
    assert WindowStart(0, 5) == 0 && WindowEnd(0, 10, 5) == 2;
    assert WindowStart(9, 5) == 7 && WindowEnd(9, 10, 5) == 9;
    assert Window(data, 0, 5) == data[0..3] == [1.0, 2.0, 3.0];
    assert Window(data, 9, 5) == data[7..10] == [8.0, 9.0, 10.0];
    assert Sum([1.0, 2.0, 3.0]) == 6.0 by {
      assert [1.0, 2.0, 3.0][..2] == [1.0, 2.0];
      assert [1.0, 2.0][..1] == [1.0];
    }
    assert Sum([8.0, 9.0, 10.0]) == 27.0 by {
      assert [8.0, 9.0, 10.0][..2] == [8.0, 9.0];
      assert [8.0, 9.0][..1] == [8.0];
    }
  }

  // ---------------------------------------------------------------------------
  // Normalisation
  // ---------------------------------------------------------------------------

  /** No variation to rescale: the series is empty or its minimum equals its maximum. */
  predicate Flat(data: seq<real>)
  {
    |data| == 0 || Min(data) == Max(data)
  }

  /** The affine map sending `lo` to `minValue` and `hi` to `maxValue`. */
  function Rescale(x: real, lo: real, hi: real, minValue: real, maxValue: real): real
    requires lo != hi
  {
    minValue + ((x - lo) / (hi - lo)) * (maxValue - minValue)
  }

  /** Reference definition of `normalize(data:minValue:maxValue:)`. */
  function Normalize(data: seq<real>, minValue: real, maxValue: real): (r: seq<real>)
    ensures |r| == |data|
    ensures Flat(data) ==> forall k :: 0 <= k < |r| ==> r[k] == 0.0
  {
    if Flat(data) then seq(|data|, _ => 0.0)
    else seq(|data|, k requires 0 <= k < |data| => Rescale(data[k], Min(data), Max(data), minValue, maxValue))
  }

  lemma RescaleEndpoints(lo: real, hi: real, minValue: real, maxValue: real)
    requires lo != hi
    ensures Rescale(lo, lo, hi, minValue, maxValue) == minValue
    ensures Rescale(hi, lo, hi, minValue, maxValue) == maxValue
  {
    assert (hi - lo) / (hi - lo) == 1.0;
  }

  lemma RescaleMonotone(x: real, y: real, lo: real, hi: real, minValue: real, maxValue: real)
    requires lo < hi
    requires minValue <= maxValue
    requires x <= y
    ensures Rescale(x, lo, hi, minValue, maxValue) <= Rescale(y, lo, hi, minValue, maxValue)
    ensures minValue < maxValue && x < y ==>
      Rescale(x, lo, hi, minValue, maxValue) < Rescale(y, lo, hi, minValue, maxValue)
  {
    var d, t := hi - lo, maxValue - minValue;
    var u, v := (x - lo) / d, (y - lo) / d;
    assert u <= v by { assert v - u == (y - x) / d; }
    assert u * t <= v * t by { assert v * t - u * t == (v - u) * t; }
    if minValue < maxValue && x < y {
      assert u < v by { assert v - u == (y - x) / d; }
      assert u * t < v * t by { assert v * t - u * t == (v - u) * t; }
    }
  }

  /** The affine map back from [minValue, maxValue] to [lo, hi]. */
  function Unscale(y: real, lo: real, hi: real, minValue: real, maxValue: real): real
    requires minValue != maxValue
  {
    lo + (y - minValue) / (maxValue - minValue) * (hi - lo)
  }

  lemma RescaleInverse(x: real, lo: real, hi: real, minValue: real, maxValue: real)
    requires lo != hi
    requires minValue != maxValue
    ensures Unscale(Rescale(x, lo, hi, minValue, maxValue), lo, hi, minValue, maxValue) == x
  {
    var d, t := hi - lo, maxValue - minValue;
    var u := (x - lo) / d;
    var y := Rescale(x, lo, hi, minValue, maxValue);
    assert y == minValue + u * t;
    assert (y - minValue) / t == u by {
      assert y - minValue == u * t;
      assert u * t / t == u;
    }
    assert u * d == x - lo;
    assert Unscale(y, lo, hi, minValue, maxValue) == lo + u * d;
  }

  /** The input minimum maps to `minValue` and the input maximum to `maxValue`. */
  lemma NormalizeHitsTargets(data: seq<real>, minValue: real, maxValue: real, k: int)
    requires !Flat(data)
    requires 0 <= k < |data|
    ensures data[k] == Min(data) ==> Normalize(data, minValue, maxValue)[k] == minValue
    ensures data[k] == Max(data) ==> Normalize(data, minValue, maxValue)[k] == maxValue
  {
    RescaleEndpoints(Min(data), Max(data), minValue, maxValue);
  }

  /** Rescaling keeps order, and reflects it when the target range is not degenerate. */
  lemma NormalizePreservesOrder(data: seq<real>, minValue: real, maxValue: real, j: int, k: int)
    requires !Flat(data)
    requires minValue <= maxValue
    requires 0 <= j < |data| && 0 <= k < |data|
    ensures data[j] <= data[k] ==> Normalize(data, minValue, maxValue)[j] <= Normalize(data, minValue, maxValue)[k]
    ensures minValue < maxValue ==>
      (data[j] < data[k] <==> Normalize(data, minValue, maxValue)[j] < Normalize(data, minValue, maxValue)[k])
  {
    var lo, hi := Min(data), Max(data);
    assert lo < hi;
    if data[j] <= data[k] {
      RescaleMonotone(data[j], data[k], lo, hi, minValue, maxValue);
    } else {
      RescaleMonotone(data[k], data[j], lo, hi, minValue, maxValue);
    }
  }

  /** For a non-degenerate ordered target, the output spans exactly [minValue, maxValue]. */
  lemma NormalizeSpansTargets(data: seq<real>, minValue: real, maxValue: real)
    requires !Flat(data)
    requires minValue <= maxValue
    ensures Within(Normalize(data, minValue, maxValue), minValue, maxValue)
    ensures Min(Normalize(data, minValue, maxValue)) == minValue
    ensures Max(Normalize(data, minValue, maxValue)) == maxValue
  {
    var r := Normalize(data, minValue, maxValue);
    var lo, hi := Min(data), Max(data);
    RescaleEndpoints(lo, hi, minValue, maxValue);
    forall k | 0 <= k < |r|
      ensures minValue <= r[k] <= maxValue
    {
      RescaleMonotone(lo, data[k], lo, hi, minValue, maxValue);
      RescaleMonotone(data[k], hi, lo, hi, minValue, maxValue);
    }
    var kMin :| 0 <= kMin < |data| && data[kMin] == lo;
    var kMax :| 0 <= kMax < |data| && data[kMax] == hi;
    assert r[kMin] == minValue && r[kMax] == maxValue;
  }

  /** With a non-degenerate target range, the input is recovered from the output. */
  lemma NormalizeRoundTrip(data: seq<real>, minValue: real, maxValue: real, k: int)
    requires !Flat(data)
    requires minValue != maxValue
    requires 0 <= k < |data|
    ensures Unscale(Normalize(data, minValue, maxValue)[k], Min(data), Max(data), minValue, maxValue) == data[k]
  {
    RescaleInverse(data[k], Min(data), Max(data), minValue, maxValue);
  }

  // ---------------------------------------------------------------------------
  // Derivative
  // ---------------------------------------------------------------------------

  /** Reference definition of `derivative(data:)`. */
  function Derivative(data: seq<real>): (r: seq<real>)
    ensures |data| <= 1 ==> r == []
    ensures |data| > 1 ==> |r| == |data| && r[0] == 0.0
    ensures |data| > 1 ==> forall k :: 1 <= k < |data| ==> r[k] == data[k] - data[k - 1]
  {
    if |data| <= 1 then []
    else seq(|data|, k requires 0 <= k < |data| => if k == 0 then 0.0 else data[k] - data[k - 1])
  }

  /** Summing the differences recovers the signal: the derivative loses only `data[0]`. */
  lemma {:induction false} DerivativeTelescopes(data: seq<real>, k: int)
    requires |data| > 1
    requires 0 <= k < |data|
    ensures data[k] == data[0] + Sum(Derivative(data)[1..k + 1])
  {
    var r := Derivative(data);
    if k > 0 {
      DerivativeTelescopes(data, k - 1);
      assert r[1..k + 1] == r[1..k] + [r[k]];
      SumSnoc(r[1..k], r[k]);
    }
  }
}
