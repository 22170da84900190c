/** The choropleth classifier: class breaks from the current features
    (computeBreaks), the colour of a value against those breaks (getColor)
    and the path style of a feature (style). */
module Classifier {
  import opened JsValues
  import opened Extractors
  import opened Resolver

  /** colorRamp: six shades from lightest to darkest. */
  const COLOR_RAMP: seq<string> := ["#f7fbff", "#c6dbef", "#9ecae1", "#4292c6", "#0868ac", "#08306b"]

  /** The colour used when there are too few breaks to classify. */
  const NO_BREAKS_COLOR: string := "#f0f0f0"

  /** Fixed breaks for the mansion-tax count metrics. */
  const COUNT_BREAKS: seq<real> := [0.0, 50.0, 100.0, 300.0, 1000.0, 5000.0]

  /** Fixed breaks for the mansion-tax revenue metric. */
  const AMOUNT_BREAKS: seq<real> := [0.0, 100000.0, 300000.0, 500000.0, 1000000.0, 10000000.0]

  /** nClasses in computeBreaks. */
  const N_CLASSES: nat := 5

  predicate SortedAsc(s: seq<real>) {
    forall i, j :: 0 <= i < j < |s| ==> s[i] <= s[j]
  }

  predicate StrictlyIncreasing(s: seq<real>) {
    forall i, j :: 0 <= i < j < |s| ==> s[i] < s[j]
  }

  // ---------------------------------------------------------------------
  // Sorting and de-duplication (Array.prototype.sort with (a, b) => a - b,
  // and [...new Set(xs)])
  // ---------------------------------------------------------------------

  /** Inserts `x` into a sorted sequence. */
  function Insert(x: real, s: seq<real>): (r: seq<real>)
    requires SortedAsc(s)
    ensures SortedAsc(r)
    ensures multiset(r) == multiset(s) + multiset{x}
  {
    if s == [] then [x]
    else if x <= s[0] then
      ConsSorted(x, s);
      [x] + s
    else
      var t := Insert(x, s[1..]);
      assert s == [s[0]] + s[1..];
      HeadStaysAbove(s[0], x, s[1..], t);
      ConsSorted(s[0], t);
      [s[0]] + t
  }

  /** Putting a value no larger than the head in front keeps a sequence sorted. */
  lemma ConsSorted(a: real, t: seq<real>)
    requires SortedAsc(t) && (t != [] ==> a <= t[0])
    ensures SortedAsc([a] + t)
  {
    var r := [a] + t;
    forall i, j | 0 <= i < j < |r|
      ensures r[i] <= r[j]
    {
      if i == 0 {
        assert r[j] == t[j - 1];
        assert t[0] <= t[j - 1];
      } else {
        assert r[i] == t[i - 1] && r[j] == t[j - 1];
      }
    }
  }

  /** After inserting `x` above `a` into values no smaller than `a`, the head
      is still no smaller than `a`. */
  lemma HeadStaysAbove(a: real, x: real, u: seq<real>, t: seq<real>)
    requires a < x && SortedAsc([a] + u)
    requires multiset(t) == multiset(u) + multiset{x} && t != []
    ensures a <= t[0]
  {
    assert t[0] in multiset(t);
    if t[0] != x {
      assert t[0] in multiset(u);
      var k :| 0 <= k < |u| && u[k] == t[0];
      assert ([a] + u)[0] <= ([a] + u)[k + 1];
    }
  }

  /** An ascending permutation of `s`. */
  function Sort(s: seq<real>): (r: seq<real>)
    ensures SortedAsc(r)
    ensures multiset(r) == multiset(s)
  {
    if s == [] then []
    else
      assert s == [s[0]] + s[1..];
      Insert(s[0], Sort(s[1..]))
  }

  /** The position of the first occurrence of `x` in `s`. */
  function FirstIndex(s: seq<real>, x: real): (k: nat)
    requires x in s
    ensures k < |s| && s[k] == x
    ensures forall i :: 0 <= i < k ==> s[i] != x
  {
    if s[0] == x then 0 else 1 + FirstIndex(s[1..], x)
  }

  /** Appending never moves a first occurrence. */
  lemma FirstIndexAppend(s: seq<real>, last: real, x: real)
    requires x in s
    ensures FirstIndex(s + [last], x) == FirstIndex(s, x)
  {
    var i := FirstIndex(s, x);
    var j := FirstIndex(s + [last], x);
    assert (s + [last])[i] == x;
  }

  /** The distinct elements of `s` in order of first occurrence:
      `[...new Set(s)]`. */
  function Dedupe(s: seq<real>): (r: seq<real>)
    ensures forall x :: x in r <==> x in s
    ensures forall i, j :: 0 <= i < j < |r| ==> r[i] != r[j]
    ensures |r| <= |s|
  {
    if s == [] then []
    else
      var d := Dedupe(s[..|s| - 1]);
      assert s == s[..|s| - 1] + [s[|s| - 1]];
      if s[|s| - 1] in d then d else d + [s[|s| - 1]]
  }

  /** De-duplicating keeps the order of first occurrences. */
  lemma {:induction false} DedupeOrder(s: seq<real>)
    ensures forall i, j :: 0 <= i < j < |Dedupe(s)| ==> FirstIndex(s, Dedupe(s)[i]) < FirstIndex(s, Dedupe(s)[j])
  {
    if s != [] {
      var init := s[..|s| - 1];
      assert s == init + [s[|s| - 1]];
      DedupeOrder(init);
      OrderKept(init, s[|s| - 1], Dedupe(init));
    }
  }

  /** Elements of `init` listed in first-occurrence order stay in that order
      in `init + [last]`, and a new `last` goes after them. */
  lemma OrderKept(init: seq<real>, last: real, d: seq<real>)
    requires forall x :: x in d ==> x in init
    requires forall i, j :: 0 <= i < j < |d| ==> FirstIndex(init, d[i]) < FirstIndex(init, d[j])
    ensures forall i, j :: 0 <= i < j < |d| ==> FirstIndex(init + [last], d[i]) < FirstIndex(init + [last], d[j])
    ensures last !in init ==>
      forall i, j :: 0 <= i < j < |d + [last]| ==> FirstIndex(init + [last], (d + [last])[i]) < FirstIndex(init + [last], (d + [last])[j])
  {
    var s := init + [last];
    forall x | x in d
      ensures FirstIndex(s, x) == FirstIndex(init, x) && FirstIndex(init, x) < |init|
    {
      FirstIndexAppend(init, last, x);
    }
    if last !in init {
      assert FirstIndex(s, last) == |init|;
      var r := d + [last];
      forall i, j | 0 <= i < j < |r|
        ensures FirstIndex(s, r[i]) < FirstIndex(s, r[j])
      {
        assert r[i] in d;
      }
    }
  }

  /** De-duplicating a sorted non-empty sequence leaves it strictly increasing,
      from the same first element to the same last element. */
  lemma {:induction false} DedupeSorted(s: seq<real>)
    requires SortedAsc(s) && |s| > 0
    ensures StrictlyIncreasing(Dedupe(s))
    ensures |Dedupe(s)| > 0
    ensures Dedupe(s)[0] == s[0]
    ensures Dedupe(s)[|Dedupe(s)| - 1] == s[|s| - 1]
  {
    var init := s[..|s| - 1];
    var last := s[|s| - 1];
    if init == [] {
      assert Dedupe(init) == [];
    } else {
      DedupeSorted(init);
      var d := Dedupe(init);
      assert d[|d| - 1] == init[|init| - 1];
      if last in d {
        assert last in init;
        var j :| 0 <= j < |init| && init[j] == last;
        assert init[j] <= init[|init| - 1];
      } else {
        assert d[|d| - 1] in d;
        assert d[|d| - 1] != last;
        assert init[|init| - 1] <= last;
        var r := d + [last];
        forall i, j | 0 <= i < j < |r|
          ensures r[i] < r[j]
        {
          if j < |d| {
          } else {
            assert d[i] <= d[|d| - 1];
          }
        }
      }
    }
  }

  // ---------------------------------------------------------------------
  // computeBreaks
  // ---------------------------------------------------------------------

  /** `values[Math.floor(i / nClasses * (values.length - 1))]` over the integers. */
  function QuantileIndex(i: nat, n: nat): (r: nat)
    requires i < N_CLASSES && n > 0
    ensures r < n
  {
    QuantileIndexBound(i, n);
    (i * (n - 1)) / N_CLASSES
  }

  lemma QuantileIndexBound(i: nat, n: nat)
    requires i < N_CLASSES && n > 0
    ensures (i * (n - 1)) / N_CLASSES <= n - 1
  {
    MulLeft(i, N_CLASSES, n - 1);
  }

  /** Quantile picks at higher classes never come earlier. */
  lemma QuantileIndexMonotone(i: nat, j: nat, n: nat)
    requires i <= j < N_CLASSES && n > 0
    ensures QuantileIndex(i, n) <= QuantileIndex(j, n)
  {
    MulLeft(i, j, n - 1);
  }

  lemma MulLeft(a: nat, b: nat, c: nat)
    requires a <= b
    ensures a * c <= b * c
  {
  }

  /** Whether some feature's metric value is `v`. */
  ghost predicate IsMetricValue(vs: ViewState, feats: seq<Props>, v: real) {
    exists i :: 0 <= i < |feats| && GetMetricValue(vs, feats[i]) == Some(v)
  }

  /** `features.map(getMetricValue).filter(Number.isFinite)`. */
  function MetricValues(vs: ViewState, feats: seq<Props>): (r: seq<real>)
    ensures forall v :: v in r <==> IsMetricValue(vs, feats, v)
  {
    if feats == [] then []
    else
      var rest := MetricValues(vs, feats[1..]);
      assert forall v :: IsMetricValue(vs, feats[1..], v) ==> IsMetricValue(vs, feats, v) by {
        forall v | IsMetricValue(vs, feats[1..], v)
          ensures IsMetricValue(vs, feats, v)
        {
          var i :| 0 <= i < |feats[1..]| && GetMetricValue(vs, feats[1..][i]) == Some(v);
          assert feats[i + 1] == feats[1..][i];
        }
      }
      assert forall v :: IsMetricValue(vs, feats, v) ==>
        GetMetricValue(vs, feats[0]) == Some(v) || IsMetricValue(vs, feats[1..], v) by {
        forall v | IsMetricValue(vs, feats, v)
          ensures GetMetricValue(vs, feats[0]) == Some(v) || IsMetricValue(vs, feats[1..], v)
        {
          var i :| 0 <= i < |feats| && GetMetricValue(vs, feats[i]) == Some(v);
          if i > 0 {
            assert feats[1..][i - 1] == feats[i];
          }
        }
      }
      match GetMetricValue(vs, feats[0])
      case Some(v) => [v] + rest
      case None => rest
  }

  /** The values keep the features' order and multiplicity: collecting over
      two lists of features is collecting over each. */
  lemma {:induction false} MetricValuesAppend(vs: ViewState, a: seq<Props>, b: seq<Props>)
    ensures MetricValues(vs, a + b) == MetricValues(vs, a) + MetricValues(vs, b)
  {
    if a == [] {
      assert a + b == b;
    } else {
      assert (a + b)[0] == a[0];
      assert (a + b)[1..] == a[1..] + b;
      MetricValuesAppend(vs, a[1..], b);
    }
  }

  /** A single feature contributes its value when it has one, else nothing. */
  lemma MetricValuesSingle(vs: ViewState, p: Props)
    ensures MetricValues(vs, [p]) == match GetMetricValue(vs, p) case Some(v) => [v] case None => []
  {
    assert [p][1..] == [];
  }

  /** The five quantile picks of an ascending sequence, then its maximum. */
  function QuantilePicks(values: seq<real>): (r: seq<real>)
    requires |values| > 0
    ensures |r| == N_CLASSES + 1
  {
    seq(N_CLASSES, i requires 0 <= i < N_CLASSES => values[QuantileIndex(i, |values|)]) + [values[|values| - 1]]
  }

  /** The fixed breaks used for the mansion-tax dataset. */
  function LiteralBreaks(t: MetricType): seq<real> {
    match t
    case Count => COUNT_BREAKS
    case Amount => AMOUNT_BREAKS
  }

  /** Whether computeBreaks answers with fixed breaks: only `mansion_tax`
      (not the postcode dataset) with a listed metric. */
  predicate UsesLiteralBreaks(vs: ViewState) {
    vs.dataset == MansionTax && LookupTxMetric(vs.txMetric).Some?
  }

  /** The breaks of a non-literal dataset from its finite metric values. */
  function BreaksOfValues(values: seq<real>): seq<real> {
    var sorted := Sort(values);
    if sorted == [] then [] else Dedupe(QuantilePicks(sorted))
  }

  /** What computeBreaks returns, for use by functions and lemmas.  `data`
      is the loaded feature collection, None before it has loaded. */
  function Breaks(vs: ViewState, data: Option<seq<Props>>): seq<real> {
    if UsesLiteralBreaks(vs) then LiteralBreaks(LookupTxMetric(vs.txMetric).value.metricType)
    else if data.None? then []
    else BreaksOfValues(MetricValues(vs, data.value))
  }

  /** computeBreaks: sorts the finite metric values, pushes the five quantile
      picks and the maximum, and drops repeated breaks. */
  method ComputeBreaks(vs: ViewState, data: Option<seq<Props>>) returns (breaks: seq<real>)
    ensures breaks == Breaks(vs, data)
  {
    if UsesLiteralBreaks(vs) {
      return LiteralBreaks(LookupTxMetric(vs.txMetric).value.metricType);
    }
    if data.None? {
      return [];
    }
    var mv := MetricValues(vs, data.value);
    var values := Sort(mv);
    if |values| == 0 {
      return [];
    }
    var picks := PushQuantilePicks(values);
    breaks := Dedupe(picks);
    assert breaks == BreaksOfValues(mv);
  }

  /** The quantile loop of computeBreaks: five picks, then the maximum. */
  method PushQuantilePicks(values: seq<real>) returns (picks: seq<real>)
    requires |values| > 0
    ensures picks == QuantilePicks(values)
  {
    picks := [];
    for i := 0 to N_CLASSES
      invariant |picks| == i
      invariant forall k :: 0 <= k < i ==> picks[k] == values[QuantileIndex(k, |values|)]
    {
      picks := picks + [values[QuantileIndex(i, |values|)]];
    }
    picks := picks + [values[|values| - 1]];
  }

  /** With `mansion_tax` and a listed metric the breaks are fixed, whatever
      the features. */
  lemma MansionTaxBreaks(vs: ViewState, data: Option<seq<Props>>)
    requires vs.dataset == MansionTax && LookupTxMetric(vs.txMetric).Some?
    ensures LookupTxMetric(vs.txMetric).value.metricType == Count ==> Breaks(vs, data) == [0.0, 50.0, 100.0, 300.0, 1000.0, 5000.0]
    ensures LookupTxMetric(vs.txMetric).value.metricType == Amount ==> Breaks(vs, data) == [0.0, 100000.0, 300000.0, 500000.0, 1000000.0, 10000000.0]
  {
  }

  /** Without any finite metric value there are no breaks. */
  lemma NoValuesNoBreaks(vs: ViewState, data: Option<seq<Props>>)
    requires !UsesLiteralBreaks(vs)
    requires data.Some? ==> forall i :: 0 <= i < |data.value| ==> GetMetricValue(vs, data.value[i]).None?
    ensures Breaks(vs, data) == []
  {
    if data.Some? {
      NoMetricValues(vs, data.value);
      EmptyValuesNoBreaks(MetricValues(vs, data.value));
    }
  }

  /** Features without a metric value contribute no values. */
  lemma {:induction false} NoMetricValues(vs: ViewState, feats: seq<Props>)
    requires forall i :: 0 <= i < |feats| ==> GetMetricValue(vs, feats[i]).None?
    ensures MetricValues(vs, feats) == []
  {
    if feats != [] {
      NoMetricValues(vs, feats[1..]);
    }
  }

  lemma EmptyValuesNoBreaks(values: seq<real>)
    requires values == []
    ensures BreaksOfValues(values) == []
  {
  }

  /** The quantile picks of an ascending sequence are ascending, start at its
      minimum, end at its maximum and are drawn from it. */
  lemma QuantilePicksSorted(values: seq<real>)
    requires SortedAsc(values) && |values| > 0
    ensures SortedAsc(QuantilePicks(values))
    ensures QuantilePicks(values)[0] == values[0]
    ensures QuantilePicks(values)[N_CLASSES] == values[|values| - 1]
    ensures forall x :: x in QuantilePicks(values) ==> x in values
  {
    var q := QuantilePicks(values);
    var n := |values|;
    forall i, j | 0 <= i < j < |q|
      ensures q[i] <= q[j]
    {
      if j < N_CLASSES {
        QuantileIndexMonotone(i, j, n);
      }
    }
  }

  /** Sorting keeps the same members and the same length. */
  lemma SortMembers(values: seq<real>)
    ensures |Sort(values)| == |values|
    ensures forall x :: x in Sort(values) <==> x in values
  {
    var sorted := Sort(values);
    assert |sorted| == |multiset(sorted)| == |multiset(values)| == |values|;
    forall x
      ensures x in sorted <==> x in values
    {
      assert x in sorted <==> x in multiset(sorted);
      assert x in values <==> x in multiset(values);
    }
  }

  /** Every member of an ascending sequence lies between its ends. */
  lemma SortedBetweenEnds(s: seq<real>, v: real)
    requires SortedAsc(s) && v in s
    ensures s[0] <= v <= s[|s| - 1]
  {
    var k :| 0 <= k < |s| && s[k] == v;
  }

  /** From a non-empty list of values the breaks are strictly increasing, one
      to six of them, from the smallest value to the largest, and each break
      is one of the values. */
  lemma BreaksOfValuesShape(values: seq<real>)
    requires |values| > 0
    ensures StrictlyIncreasing(BreaksOfValues(values))
    ensures 1 <= |BreaksOfValues(values)| <= N_CLASSES + 1
    ensures forall x :: x in BreaksOfValues(values) ==> x in values
    ensures forall v :: v in values ==>
      BreaksOfValues(values)[0] <= v <= BreaksOfValues(values)[|BreaksOfValues(values)| - 1]
    ensures BreaksOfValues(values)[0] in values
    ensures BreaksOfValues(values)[|BreaksOfValues(values)| - 1] in values
  {
    var sorted := Sort(values);
    SortMembers(values);
    var q := QuantilePicks(sorted);
    QuantilePicksSorted(sorted);
    DedupeSorted(q);
    var b := Dedupe(q);
    assert b == BreaksOfValues(values);
    assert b[0] == sorted[0] && b[|b| - 1] == sorted[|sorted| - 1];
    forall v | v in values
      ensures b[0] <= v <= b[|b| - 1]
    {
      SortedBetweenEnds(sorted, v);
    }
    assert sorted[0] in sorted && sorted[|sorted| - 1] in sorted;
  }

  /** With some finite metric value the breaks are strictly increasing, one
      to six of them, from the smallest value to the largest, and each break
      is one of the values. */
  lemma BreaksShape(vs: ViewState, data: Option<seq<Props>>, witnessIndex: nat)
    requires !UsesLiteralBreaks(vs) && data.Some?
    requires witnessIndex < |data.value| && GetMetricValue(vs, data.value[witnessIndex]).Some?
    ensures var b := Breaks(vs, data);
      && StrictlyIncreasing(b)
      && 1 <= |b| <= N_CLASSES + 1
      && (forall x :: x in b ==> IsMetricValue(vs, data.value, x))
      && (forall v :: IsMetricValue(vs, data.value, v) ==> b[0] <= v <= b[|b| - 1])
      && IsMetricValue(vs, data.value, b[0])
      && IsMetricValue(vs, data.value, b[|b| - 1])
  {
    var mv := MetricValues(vs, data.value);
    assert IsMetricValue(vs, data.value, GetMetricValue(vs, data.value[witnessIndex]).value);
    BreaksOfValuesShape(mv);
  }

  // ---------------------------------------------------------------------
  // getColor
  // ---------------------------------------------------------------------

  /** The largest index below `i` whose break `d` reaches, scanning down. */
  function ScanDown(d: real, b: seq<real>, i: nat): (r: Option<nat>)
    requires i <= |b|
    ensures r.Some? ==> r.value < i && d >= b[r.value] && forall k :: r.value < k < i ==> d < b[k]
    ensures r.None? ==> forall k :: 0 <= k < i ==> d < b[k]
  {
    if i == 0 then None
    else if d >= b[i - 1] then Some(i - 1)
    else ScanDown(d, b, i - 1)
  }

  /** The ramp position getColor picks for `d` (given at least two breaks). */
  function RampIndex(d: real, b: seq<real>): (r: nat)
    ensures r < |COLOR_RAMP|
  {
    match ScanDown(d, b, |b|)
    case Some(i) => if i < |COLOR_RAMP| - 1 then i else |COLOR_RAMP| - 1
    case None => 0
  }

  /** getColor; `breaks` is None while no breaks have been computed. */
  function GetColor(d: real, breaks: Option<seq<real>>): (c: string)
    ensures c == NO_BREAKS_COLOR <==> breaks.None? || |breaks.value| < 2
    ensures c != NO_BREAKS_COLOR ==> c in COLOR_RAMP
  {
    if breaks.None? || |breaks.value| < 2 then NO_BREAKS_COLOR
    else COLOR_RAMP[RampIndex(d, breaks.value)]
  }

  /** The ramp index is min(i, 5) for the largest i with d >= breaks[i], and 0
      when d is below every break. */
  lemma RampIndexSpec(d: real, b: seq<real>)
    ensures (forall k :: 0 <= k < |b| ==> d < b[k]) ==> RampIndex(d, b) == 0
    ensures forall i :: 0 <= i < |b| && d >= b[i] && (forall k :: i < k < |b| ==> d < b[k]) ==>
      RampIndex(d, b) == if i < 5 then i else 5
  {
  }

  /** A larger value never gets a lighter colour, whatever the breaks. */
  lemma RampIndexMonotone(d1: real, d2: real, b: seq<real>)
    requires d1 <= d2
    ensures RampIndex(d1, b) <= RampIndex(d2, b)
  {
  }

  /** For strictly increasing breaks, the k-th break itself gets ramp colour
      min(k, 5). */
  lemma BreakGetsItsClass(b: seq<real>, k: nat)
    requires StrictlyIncreasing(b) && k < |b|
    ensures RampIndex(b[k], b) == if k < 5 then k else 5
  {
    RampIndexSpec(b[k], b);
    assert forall j :: k < j < |b| ==> b[k] < b[j];
  }

  // ---------------------------------------------------------------------
  // style
  // ---------------------------------------------------------------------

  /** The Leaflet path options style returns; `interactive` is None where the
      options leave the key out. */
  datatype PathStyle = PathStyle(
    fillColor: string, weight: real, opacity: real, color: string,
    dashArray: string, fillOpacity: real, interactive: Option<bool>)

  const NO_DATA_STYLE: PathStyle := PathStyle("transparent", 0.6, 1.0, "#cccccc", "2 4", 0.0, Some(false))

  /** style: the no-data style for a feature without a metric value, else its
      class colour against the current breaks. */
  function Style(vs: ViewState, p: Props, breaks: Option<seq<real>>): (r: PathStyle)
    ensures r.interactive == Some(false) <==> GetMetricValue(vs, p).None?
    ensures r.fillOpacity == 0.0 <==> GetMetricValue(vs, p).None?
    ensures GetMetricValue(vs, p).Some? ==> r.fillColor == GetColor(GetMetricValue(vs, p).value, breaks)
  {
    match GetMetricValue(vs, p)
    case None => NO_DATA_STYLE
    case Some(v) => PathStyle(GetColor(v, breaks), 0.5, 1.0, "#ffffff", "", 0.8, None)
  }
}
