/** The bar-chart arithmetic shared by the dashboard trends and the timeline charts:
    `Math.max(...values, 1)` as the scale, `value / scale * 100` as the bar height in
    percent, and `Math.max(height, floor)` as the rendered height. */
module Charts {

  function Max(a: real, b: real): real {
    if a >= b then a else b
  }

  /** `Math.max(...values)` over a non-empty list. */
  function Peak(values: seq<real>): (r: real)
    requires |values| > 0
    ensures r in values
    ensures forall i :: 0 <= i < |values| ==> values[i] <= r
  {
    if |values| == 1 then values[0] else Max(Peak(values[..|values| - 1]), values[|values| - 1])
  }

  /** `Math.max(...values, 1)`: the scale of a chart, never below 1 and so never 0. */
  function ScaleMax(values: seq<real>): (r: real)
    ensures r >= 1.0
    ensures forall i :: 0 <= i < |values| ==> values[i] <= r
    ensures r == 1.0 || r in values
  {
    if values == [] then 1.0 else Max(ScaleMax(values[..|values| - 1]), values[|values| - 1])
  }

  /** The scale is the peak floored at 1. */
  lemma ScaleMaxIsFlooredPeak(values: seq<real>)
    requires |values| > 0
    ensures ScaleMax(values) == Max(Peak(values), 1.0)
  {
  }

  /** `(value / scale) * 100` for the value at `i` of the chart's values. */
  function Height(values: seq<real>, i: int): real
    requires 0 <= i < |values|
  {
    values[i] / ScaleMax(values) * 100.0
  }

  /** Dividing by a positive number keeps the order of the dividends. */
  lemma DivideMonotone(a: real, b: real, m: real)
    requires m > 0.0 && a <= b
    ensures a / m <= b / m
  {
    var qa, qb := a / m, b / m;
    assert qa * m == a && qb * m == b;
  }

  /** Any non-zero number divided by itself is 1. */
  lemma DivideSelf(m: real)
    requires m != 0.0
    ensures m / m == 1.0
  {
    var q := m / m;
    assert q * m == 1.0 * m;
  }

  /** A part of a positive whole is between 0% and 100% of it. */
  lemma PercentBounds(part: real, whole: real)
    requires 0.0 <= part <= whole && whole > 0.0
    ensures 0.0 <= part / whole * 100.0 <= 100.0
  {
    DivideMonotone(part, whole, whole);
    DivideMonotone(0.0, part, whole);
    var q := part / whole;
    assert 0.0 <= q <= 1.0;
  }

  /** For non-negative values every bar is between 0% and 100% high, and the highest bar of
      a chart whose peak is at least 1 is exactly 100%. */
  lemma HeightBounds(values: seq<real>, i: int)
    requires 0 <= i < |values|
    requires forall k :: 0 <= k < |values| ==> values[k] >= 0.0
    ensures 0.0 <= Height(values, i) <= 100.0
    ensures values[i] >= 1.0 && (forall k :: 0 <= k < |values| ==> values[k] <= values[i]) ==> Height(values, i) == 100.0
  {
    var m := ScaleMax(values);
    assert Height(values, i) == values[i] / m * 100.0;
    PercentBounds(values[i], m);
    if values[i] >= 1.0 && (forall k :: 0 <= k < |values| ==> values[k] <= values[i]) {
      assert m == values[i] by {
        if m != 1.0 {
          var j :| 0 <= j < |values| && values[j] == m;
        }
      }
      DivideSelf(m);
    }
  }

  /** Bars grow with their value: a larger value never gets a lower bar. */
  lemma HeightMonotone(values: seq<real>, i: int, j: int)
    requires 0 <= i < |values| && 0 <= j < |values| && values[i] <= values[j]
    ensures Height(values, i) <= Height(values, j)
  {
    DivideMonotone(values[i], values[j], ScaleMax(values));
  }

  /** `Math.max(height, floor)`: a rendered bar is never lower than `floor` percent. */
  function Rendered(height: real, floor: real): (r: real)
    ensures r >= floor && r >= height
    ensures r == height || r == floor
  {
    Max(height, floor)
  }
}
