/** Metric extractors: per-feature property bags turned into council-tax band
    counts and their total, house-price figures, transaction tier counts and
    the estimated mansion-tax revenue. */
module Extractors {
  import opened JsValues

  /** A feature's property bag.  A key that is absent reads as `undefined`. */
  type Props = map<string, Value>

  function Get(p: Props, key: string): Value {
    if key in p then p[key] else VUndefined
  }

  /** The nine council-tax band columns, in display order. */
  const BAND_COLUMNS: seq<string> :=
    ["band_A", "band_B", "band_C", "band_D", "band_E", "band_F", "band_G", "band_H", "band_I"]

  /** Left-to-right sum, in the order the source accumulates. */
  function Sum(xs: seq<real>): real {
    if xs == [] then 0.0 else Sum(xs[..|xs| - 1]) + xs[|xs| - 1]
  }

  // ---------------------------------------------------------------------
  // Council-tax bands (calculateBandStats, getBandPercent)
  // ---------------------------------------------------------------------

  /** Per-band counts, aligned with BAND_COLUMNS, and their total. */
  datatype BandStats = BandStats(values: seq<real>, total: real)

  /** The band counts, each missing or unusable value read as 0. */
  function BandValues(p: Props): (vs: seq<real>)
    ensures |vs| == |BAND_COLUMNS|
  {
    seq(|BAND_COLUMNS|, i requires 0 <= i < |BAND_COLUMNS| => SafeNumber(Get(p, BAND_COLUMNS[i])))
  }

  /** What calculateBandStats returns, for use by functions and lemmas. */
  function BandStatsOf(p: Props): BandStats {
    BandStats(BandValues(p), Sum(BandValues(p)))
  }

  /** calculateBandStats: one pass over the band columns accumulating the total. */
  method CalculateBandStats(p: Props) returns (stats: BandStats)
    ensures |stats.values| == |BAND_COLUMNS|
    ensures forall i :: 0 <= i < |BAND_COLUMNS| ==> stats.values[i] == SafeNumber(Get(p, BAND_COLUMNS[i]))
    ensures stats.total == Sum(stats.values)
    ensures stats == BandStatsOf(p)
  {
    var values: seq<real> := [];
    var total := 0.0;
    for k := 0 to |BAND_COLUMNS|
      invariant |values| == k
      invariant forall i :: 0 <= i < k ==> values[i] == SafeNumber(Get(p, BAND_COLUMNS[i]))
      invariant total == Sum(values)
    {
      var value := SafeNumber(Get(p, BAND_COLUMNS[k]));
      assert (values + [value])[..k] == values;
      values := values + [value];
      total := total + value;
    }
    assert values == BandValues(p);
    stats := BandStats(values, total);
  }

  /** getBandPercent: the share of the total, in percent, or 0 when the total
      is not positive. */
  function GetBandPercent(value: real, total: real): (r: real)
    ensures total <= 0.0 ==> r == 0.0
    ensures total > 0.0 ==> r * total == value * 100.0
  {
    if total > 0.0 then (value / total) * 100.0 else 0.0
  }

  /** A band count between 0 and the total is a share between 0 and 100. */
  lemma BandPercentBounds(value: real, total: real)
    requires 0.0 <= value <= total && total > 0.0
    ensures 0.0 <= GetBandPercent(value, total) <= 100.0
  {
  }

  function Percents(xs: seq<real>, total: real): (ps: seq<real>)
    ensures |ps| == |xs|
    ensures forall i :: 0 <= i < |xs| ==> ps[i] == GetBandPercent(xs[i], total)
  {
    seq(|xs|, i requires 0 <= i < |xs| => GetBandPercent(xs[i], total))
  }

  lemma {:induction false} SumOfPercents(xs: seq<real>, total: real)
    requires total > 0.0
    ensures Sum(Percents(xs, total)) * total == Sum(xs) * 100.0
  {
    if xs != [] {
      var n := |xs| - 1;
      var ps := Percents(xs, total);
      assert ps[..n] == Percents(xs[..n], total);
      SumOfPercents(xs[..n], total);
      var a, b := Sum(ps[..n]), ps[n];
      assert Sum(ps) == a + b;
      assert b * total == xs[n] * 100.0;
      assert Sum(xs) == Sum(xs[..n]) + xs[n];
      Distribute(a, b, total);
      Distribute(Sum(xs[..n]), xs[n], 100.0);
    }
  }

  /** With a positive total the nine band shares add up to exactly 100. */
  lemma BandPercentsSumTo100(p: Props)
    requires BandStatsOf(p).total > 0.0
    ensures Sum(Percents(BandStatsOf(p).values, BandStatsOf(p).total)) == 100.0
  {
    var s := BandStatsOf(p);
    SumOfPercents(s.values, s.total);
    var q := Sum(Percents(s.values, s.total));
    var t := s.total;
    assert q * t == Sum(s.values) * 100.0;
    assert Sum(s.values) * 100.0 == t * 100.0;
    assert t * 100.0 == 100.0 * t;
    CancelPositive(q, 100.0, t);
  }

  lemma CancelPositive(a: real, b: real, t: real)
    requires t > 0.0 && a * t == b * t
    ensures a == b
  {
    calc {
      a;
      (a * t) / t;
      (b * t) / t;
      b;
    }
  }

  lemma Distribute(a: real, b: real, t: real)
    ensures (a + b) * t == a * t + b * t
  {
  }

  /** Keys other than the nine band columns do not affect the band statistics. */
  lemma BandStatsIgnoreOtherKeys(p: Props, key: string, v: Value)
    requires key !in BAND_COLUMNS
    ensures BandStatsOf(p[key := v]) == BandStatsOf(p)
  {
    assert BandValues(p[key := v]) == BandValues(p) by {
      forall i | 0 <= i < |BAND_COLUMNS|
        ensures Get(p[key := v], BAND_COLUMNS[i]) == Get(p, BAND_COLUMNS[i])
      {
        assert BAND_COLUMNS[i] != key;
      }
    }
  }

  // ---------------------------------------------------------------------
  // Estimated revenue (SURCHARGE_RATE_MAP, calculateEstimatedRevenue)
  // ---------------------------------------------------------------------

  datatype SurchargeTier = SurchargeTier(key: string, rate: real)

  /** The flat annual surcharge per property in each transaction tier. */
  const SURCHARGE_RATES: seq<SurchargeTier> := [
    SurchargeTier("tx_2m_to_2_5m_count", 2500.0),
    SurchargeTier("tx_2_5m_to_3_5m_count", 3500.0),
    SurchargeTier("tx_3_5m_to_5m_count", 5000.0),
    SurchargeTier("tx_over_5m_count", 7500.0)
  ]

  /** A sanitised count where positive, 0 otherwise. */
  function PositivePart(o: Option<real>): (r: real)
    ensures r >= 0.0
  {
    if o.Some? && o.value > 0.0 then o.value else 0.0
  }

  /** One tier's contribution: count times rate when both are positive. */
  function TierAmount(count: Option<real>, rate: real): real {
    if count.Some? && count.value > 0.0 && rate > 0.0 then count.value * rate else 0.0
  }

  function TierRevenue(counts: Props, tier: SurchargeTier): real {
    TierAmount(ToNumberOrNull(Get(counts, tier.key)), tier.rate)
  }

  lemma TierAmountMonotone(a: Option<real>, b: Option<real>, rate: real)
    requires rate > 0.0 && PositivePart(a) <= PositivePart(b)
    ensures TierAmount(a, rate) <= TierAmount(b, rate)
  {
    assert TierAmount(a, rate) == PositivePart(a) * rate;
    assert TierAmount(b, rate) == PositivePart(b) * rate;
    ScaleMonotone(PositivePart(a), PositivePart(b), rate);
  }

  function RevenueOver(counts: Props, tiers: seq<SurchargeTier>): real {
    if tiers == [] then 0.0
    else RevenueOver(counts, tiers[..|tiers| - 1]) + TierRevenue(counts, tiers[|tiers| - 1])
  }

  /** What calculateEstimatedRevenue returns, for use by functions and lemmas. */
  function EstimatedRevenue(counts: Props): real {
    RevenueOver(counts, SURCHARGE_RATES)
  }

  /** calculateEstimatedRevenue: one pass over the rate table. */
  method CalculateEstimatedRevenue(counts: Props) returns (total: real)
    ensures total == EstimatedRevenue(counts)
    ensures total >= 0.0
  {
    total := 0.0;
    for k := 0 to |SURCHARGE_RATES|
      invariant total == RevenueOver(counts, SURCHARGE_RATES[..k])
      invariant total >= 0.0
    {
      var tier := SURCHARGE_RATES[k];
      var count := ToNumberOrNull(Get(counts, tier.key));
      assert SURCHARGE_RATES[..k + 1][..k] == SURCHARGE_RATES[..k];
      if count.Some? && tier.rate > 0.0 && count.value > 0.0 {
        total := total + count.value * tier.rate;
      }
    }
    assert SURCHARGE_RATES[..|SURCHARGE_RATES|] == SURCHARGE_RATES;
  }

  /** The revenue written out: each tier's positive count times its rate. */
  lemma RevenueClosedForm(counts: Props)
    ensures EstimatedRevenue(counts)
         == 2500.0 * PositivePart(ToNumberOrNull(Get(counts, "tx_2m_to_2_5m_count")))
          + 3500.0 * PositivePart(ToNumberOrNull(Get(counts, "tx_2_5m_to_3_5m_count")))
          + 5000.0 * PositivePart(ToNumberOrNull(Get(counts, "tx_3_5m_to_5m_count")))
          + 7500.0 * PositivePart(ToNumberOrNull(Get(counts, "tx_over_5m_count")))
  {
    var t := SURCHARGE_RATES;
    assert t[..3][..2][..1][..0] == [];
    assert t[..3][..2][..1] == [t[0]];
    assert t[..3][..2] == [t[0], t[1]];
    assert t[..3] == [t[0], t[1], t[2]];
    forall i | 0 <= i < 4
      ensures TierRevenue(counts, t[i]) == t[i].rate * PositivePart(ToNumberOrNull(Get(counts, t[i].key)))
    {
    }
    assert RevenueOver(counts, t[..3][..2][..1]) == TierRevenue(counts, t[0]);
    assert RevenueOver(counts, t[..3][..2]) == TierRevenue(counts, t[0]) + TierRevenue(counts, t[1]);
    assert RevenueOver(counts, t[..3])
        == TierRevenue(counts, t[0]) + TierRevenue(counts, t[1]) + TierRevenue(counts, t[2]);
  }

  lemma {:induction false} RevenueOverNonNegative(counts: Props, tiers: seq<SurchargeTier>)
    ensures RevenueOver(counts, tiers) >= 0.0
  {
    if tiers != [] {
      RevenueOverNonNegative(counts, tiers[..|tiers| - 1]);
    }
  }

  /** Revenue is never negative. */
  lemma RevenueNonNegative(counts: Props)
    ensures EstimatedRevenue(counts) >= 0.0
  {
    RevenueOverNonNegative(counts, SURCHARGE_RATES);
  }

  lemma {:induction false} RevenueOverMonotone(c1: Props, c2: Props, tiers: seq<SurchargeTier>)
    requires forall i :: 0 <= i < |tiers| ==> tiers[i].rate > 0.0
    requires forall i :: 0 <= i < |tiers| ==>
      PositivePart(ToNumberOrNull(Get(c1, tiers[i].key))) <= PositivePart(ToNumberOrNull(Get(c2, tiers[i].key)))
    ensures RevenueOver(c1, tiers) <= RevenueOver(c2, tiers)
  {
    if tiers != [] {
      var n := |tiers| - 1;
      RevenueOverMonotone(c1, c2, tiers[..n]);
      var t := tiers[n];
      TierAmountMonotone(ToNumberOrNull(Get(c1, t.key)), ToNumberOrNull(Get(c2, t.key)), t.rate);
    }
  }

  lemma ScaleMonotone(a: real, b: real, r: real)
    requires a <= b && r > 0.0
    ensures a * r <= b * r
  {
  }

  /** Revenue is non-decreasing in every tier count: raising any tier's
      positive count, holding the others, never lowers it. */
  lemma RevenueMonotone(c1: Props, c2: Props)
    requires forall i :: 0 <= i < |SURCHARGE_RATES| ==>
      PositivePart(ToNumberOrNull(Get(c1, SURCHARGE_RATES[i].key)))
        <= PositivePart(ToNumberOrNull(Get(c2, SURCHARGE_RATES[i].key)))
    ensures EstimatedRevenue(c1) <= EstimatedRevenue(c2)
  {
    RevenueOverMonotone(c1, c2, SURCHARGE_RATES);
  }

  /** The single-tier form: replacing one tier's count by a larger number. */
  lemma RevenueMonotoneInTier(counts: Props, i: nat, a: real, b: real)
    requires i < |SURCHARGE_RATES| && a <= b
    ensures EstimatedRevenue(counts[SURCHARGE_RATES[i].key := VNum(Finite(a))])
         <= EstimatedRevenue(counts[SURCHARGE_RATES[i].key := VNum(Finite(b))])
  {
    var key := SURCHARGE_RATES[i].key;
    var c1, c2 := counts[key := VNum(Finite(a))], counts[key := VNum(Finite(b))];
    forall j | 0 <= j < |SURCHARGE_RATES|
      ensures PositivePart(ToNumberOrNull(Get(c1, SURCHARGE_RATES[j].key)))
           <= PositivePart(ToNumberOrNull(Get(c2, SURCHARGE_RATES[j].key)))
    {
      if SURCHARGE_RATES[j].key != key {
        assert Get(c1, SURCHARGE_RATES[j].key) == Get(c2, SURCHARGE_RATES[j].key);
      }
    }
    RevenueMonotone(c1, c2);
  }

  lemma {:induction false} RevenueOverZero(counts: Props, tiers: seq<SurchargeTier>)
    requires forall t :: t in tiers ==> PositivePart(ToNumberOrNull(Get(counts, t.key))) == 0.0
    ensures RevenueOver(counts, tiers) == 0.0
  {
    if tiers != [] {
      var n := |tiers| - 1;
      assert forall t :: t in tiers[..n] ==> t in tiers;
      assert tiers[n] in tiers;
      RevenueOverZero(counts, tiers[..n]);
    }
  }

  /** Revenue is 0 when every tier count is missing, unusable or not positive. */
  lemma RevenueZeroWithoutPositiveCounts(counts: Props)
    requires forall t :: t in SURCHARGE_RATES ==>
      ToNumberOrNull(Get(counts, t.key)).None? || ToNumberOrNull(Get(counts, t.key)).value <= 0.0
    ensures EstimatedRevenue(counts) == 0.0
  {
    RevenueOverZero(counts, SURCHARGE_RATES);
  }

  lemma {:induction false} RevenueOverSameCounts(c1: Props, c2: Props, tiers: seq<SurchargeTier>)
    requires forall t :: t in tiers ==> ToNumberOrNull(Get(c1, t.key)) == ToNumberOrNull(Get(c2, t.key))
    ensures RevenueOver(c1, tiers) == RevenueOver(c2, tiers)
  {
    if tiers != [] {
      var n := |tiers| - 1;
      assert forall t :: t in tiers[..n] ==> t in tiers;
      assert tiers[n] in tiers;
      RevenueOverSameCounts(c1, c2, tiers[..n]);
    }
  }

  // ---------------------------------------------------------------------
  // House prices and transactions (getHousePriceInfo, getTransactionInfo)
  // ---------------------------------------------------------------------

  /** Each figure is sanitised on its own; the change is read from its own
      field, not derived from the two prices. */
  datatype HousePriceInfo = HousePriceInfo(price2025: Option<real>, price1995: Option<real>, changePct: Option<real>)

  function GetHousePriceInfo(p: Props): HousePriceInfo {
    HousePriceInfo(
      ToNumberOrNull(Get(p, "median_price_2025")),
      ToNumberOrNull(Get(p, "median_price_1995")),
      ToNumberOrNull(Get(p, "median_price_change_pct")))
  }

  /** The seven transaction count fields read by getTransactionInfo. */
  const TX_COUNT_FIELDS: seq<string> := [
    "tx_2m_to_2_5m_count", "tx_2_5m_to_3_5m_count", "tx_3_5m_to_5m_count", "tx_over_5m_count",
    "tx_2m_plus_count", "tx_total_count", "tx_rejected_count"
  ]

  datatype TransactionInfo = TransactionInfo(counts: map<string, Option<real>>, estimatedRevenue: real)

  /** The sanitised counts stored back as numbers or nulls. */
  function CountsAsProps(counts: map<string, Option<real>>): Props {
    map k | k in counts :: FromOption(counts[k])
  }

  /** getTransactionInfo: the seven counts sanitised, and the revenue estimated
      from those sanitised counts. */
  function GetTransactionInfo(p: Props): TransactionInfo {
    var counts := map k | k in TX_COUNT_FIELDS :: ToNumberOrNull(Get(p, k));
    TransactionInfo(counts, EstimatedRevenue(CountsAsProps(counts)))
  }

  /** Estimating from the sanitised counts gives the same revenue as
      estimating from the raw property bag, and every tracked count is
      exactly the sanitised field. */
  lemma TransactionInfoFaithful(p: Props)
    ensures GetTransactionInfo(p).estimatedRevenue == EstimatedRevenue(p)
    ensures forall k :: k in TX_COUNT_FIELDS ==>
      k in GetTransactionInfo(p).counts && GetTransactionInfo(p).counts[k] == ToNumberOrNull(Get(p, k))
  {
    var counts := map k | k in TX_COUNT_FIELDS :: ToNumberOrNull(Get(p, k));
    var bag := CountsAsProps(counts);
    forall t | t in SURCHARGE_RATES
      ensures ToNumberOrNull(Get(bag, t.key)) == ToNumberOrNull(Get(p, t.key))
    {
      assert t.key in TX_COUNT_FIELDS;
      SanitiseIdempotent(Get(p, t.key));
    }
    RevenueOverSameCounts(bag, p, SURCHARGE_RATES);
  }
}
