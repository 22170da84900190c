/** The step scales and ratios used when drawing: the size of a postcode
    marker and of a marker cluster by the number of sales they stand for,
    and how far a comparison bar is filled. */
module DisplayScales {
  import opened JsValues

  /** getPostcodeMarkerIcon: the marker's width in pixels for `count` sales. */
  function PostcodeMarkerSize(count: real): (size: nat)
    ensures size == 36 || size == 42 || size == 50
    ensures size == 50 <==> count > 25.0
    ensures size == 36 <==> count <= 10.0
  {
    if count > 25.0 then 50 else if count > 10.0 then 42 else 36
  }

  /** getClusterMarkerSize: the cluster icon's width in pixels for `count`
      sales. */
  function ClusterMarkerSize(count: real): (size: nat)
    ensures 48 <= size <= 80
    ensures size == 80 <==> count > 200.0
    ensures size == 48 <==> count <= 50.0
    ensures 100.0 < count <= 200.0 ==> size == 68
    ensures 50.0 < count <= 100.0 ==> size == 58
  {
    if count > 200.0 then 80
    else if count > 100.0 then 68
    else if count > 50.0 then 58
    else 48
  }

  /** Larger counts never draw smaller markers or clusters. */
  lemma MarkerSizesMonotone(a: real, b: real)
    requires a <= b
    ensures PostcodeMarkerSize(a) <= PostcodeMarkerSize(b)
    ensures ClusterMarkerSize(a) <= ClusterMarkerSize(b)
  {
  }

  /** renderStatComparisonBar: the percentage of the bar that is filled,
      or None ("No data") when the value is not finite or the maximum is
      not a finite positive number.  Negative values fill nothing. */
  function BarRatio(value: JsNumber, maxValue: JsNumber): (r: Option<real>)
    ensures r.Some? <==> value.Finite? && maxValue.Finite? && maxValue.x > 0.0
  {
    if value.NonFinite? || maxValue.NonFinite? || maxValue.x <= 0.0 then None
    else
      var safeValue := Max(value.x, 0.0);
      Some(Min(safeValue / maxValue.x, 1.0) * 100.0)
  }

  /** A filled bar is between empty and full; non-positive values leave it
      empty and values at or above the maximum fill it. */
  lemma BarRatioBounds(value: real, maxValue: real)
    requires maxValue > 0.0
    ensures var r := BarRatio(Finite(value), Finite(maxValue)).value;
      0.0 <= r <= 100.0 && (value <= 0.0 ==> r == 0.0) && (value >= maxValue ==> r == 100.0)
  {
    DivNonNegative(Max(value, 0.0), maxValue);
    if value >= maxValue {
      DivMonotone(maxValue, value, maxValue);
    }
  }

  /** A larger value never fills less of the bar. */
  lemma BarRatioMonotone(a: real, b: real, maxValue: real)
    requires a <= b && maxValue > 0.0
    ensures BarRatio(Finite(a), Finite(maxValue)).value <= BarRatio(Finite(b), Finite(maxValue)).value
  {
    DivMonotone(Max(a, 0.0), Max(b, 0.0), maxValue);
  }

  /** Below the maximum the bar is filled in proportion: the percentage of
      the maximum the value is. */
  lemma BarRatioProportional(value: real, maxValue: real)
    requires 0.0 <= value <= maxValue
    requires maxValue > 0.0
    ensures BarRatio(Finite(value), Finite(maxValue)).value * maxValue == value * 100.0
  {
    DivMonotone(value, maxValue, maxValue);
    assert value / maxValue * maxValue == value;
  }
}
