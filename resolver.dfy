/** The dataset resolver: given the selected dataset and sub-metric (passed in
    as a view-state value instead of read from globals), the single number a
    feature is coloured by, and whether the feature has data at all. */
module Resolver {
  import opened JsValues
  import opened Extractors

  /** The five datasets of DATASET_OPTIONS. */
  datatype Dataset = MansionTaxPostcodes | MansionTax | CouncilTax | HousePrice | HousePriceChange

  function DatasetKey(d: Dataset): string {
    match d
    case MansionTaxPostcodes => "mansion_tax_postcodes"
    case MansionTax => "mansion_tax"
    case CouncilTax => "council_tax"
    case HousePrice => "house_price"
    case HousePriceChange => "house_price_change"
  }

  /** `DATASET_OPTIONS[choice]`: the dataset a selector value names, if any. */
  function ParseDataset(s: string): (r: Option<Dataset>)
    ensures r.Some? ==> DatasetKey(r.value) == s
  {
    if s == "mansion_tax_postcodes" then Some(MansionTaxPostcodes)
    else if s == "mansion_tax" then Some(MansionTax)
    else if s == "council_tax" then Some(CouncilTax)
    else if s == "house_price" then Some(HousePrice)
    else if s == "house_price_change" then Some(HousePriceChange)
    else None
  }

  /** Every dataset is selectable by its own key. */
  lemma DatasetKeyRoundTrip(d: Dataset)
    ensures ParseDataset(DatasetKey(d)) == Some(d)
  {
  }

  datatype MetricType = Amount | Count

  /** An entry of TRANSACTION_METRICS; `countField` is empty for the amount metric. */
  datatype TxMetric = TxMetric(value: string, metricType: MetricType, countField: string)

  const TRANSACTION_METRICS: seq<TxMetric> := [
    TxMetric("tx_estimated_revenue", Amount, ""),
    TxMetric("tx_2m_plus_count", Count, "tx_2m_plus_count"),
    TxMetric("tx_2m_to_2_5m_count", Count, "tx_2m_to_2_5m_count"),
    TxMetric("tx_2_5m_to_3_5m_count", Count, "tx_2_5m_to_3_5m_count"),
    TxMetric("tx_3_5m_to_5m_count", Count, "tx_3_5m_to_5m_count"),
    TxMetric("tx_over_5m_count", Count, "tx_over_5m_count")
  ]

  /** The metric keyed `key` in a metric table. */
  function FindMetric(ms: seq<TxMetric>, key: string): (r: Option<TxMetric>)
    ensures r.Some? ==> r.value in ms && r.value.value == key
    ensures r.None? ==> forall m :: m in ms ==> m.value != key
  {
    if ms == [] then None
    else if ms[0].value == key then Some(ms[0])
    else FindMetric(ms[1..], key)
  }

  /** `TRANSACTION_METRIC_MAP[key]`. */
  function LookupTxMetric(key: string): Option<TxMetric> {
    FindMetric(TRANSACTION_METRICS, key)
  }

  /** Every count metric counts one of the fields getTransactionInfo reads. */
  lemma CountFieldsTracked()
    ensures forall m :: m in TRANSACTION_METRICS && m.metricType == Count ==> m.countField in TX_COUNT_FIELDS
  {
  }

  /** The selection every derivation reads: selectedDataset, selectedBand
      and selectedTransactionMetric. */
  datatype ViewState = ViewState(dataset: Dataset, band: string, txMetric: string)

  /** The selection handlers only ever store a listed band and a listed metric. */
  predicate ValidView(vs: ViewState) {
    vs.band in BAND_COLUMNS && LookupTxMetric(vs.txMetric).Some?
  }

  /** Position of `x` in `s`, if present. */
  function IndexOf(s: seq<string>, x: string): (r: Option<nat>)
    ensures r.Some? ==> r.value < |s| && s[r.value] == x
    ensures r.None? ==> x !in s
  {
    if s == [] then None
    else if s[0] == x then Some(0)
    else match IndexOf(s[1..], x)
      case Some(i) => Some(i + 1)
      case None => None
  }

  /** The count a count metric reads: `txInfo.counts[metric.countField]`. */
  function TxCount(info: TransactionInfo, field: string): Option<real> {
    if field in info.counts then info.counts[field] else None
  }

  /** hasDataForProps. */
  function HasDataForProps(vs: ViewState, p: Props): bool {
    match vs.dataset
    case CouncilTax => BandStatsOf(p).total > 0.0
    case HousePrice => GetHousePriceInfo(p).price2025.Some?
    case HousePriceChange => GetHousePriceInfo(p).changePct.Some?
    case _ =>
      // both mansion-tax datasets fall through to the transaction branch
      match LookupTxMetric(vs.txMetric)
      case None => false
      case Some(m) =>
        var info := GetTransactionInfo(p);
        if m.metricType == Count then
          var c := TxCount(info, m.countField);
          c.Some? && c.value > 0.0
        else
          info.estimatedRevenue > 0.0
  }

  /** getMetricValue.  None stands for JavaScript's null and also for the NaN
      `getBandPercent(undefined, total)` gives for a band that is not listed:
      every consumer treats both as "no data". */
  function GetMetricValue(vs: ViewState, p: Props): Option<real> {
    match vs.dataset
    case CouncilTax =>
      var st := BandStatsOf(p);
      if st.total == 0.0 then None
      else
        (match IndexOf(BAND_COLUMNS, vs.band)
         case Some(i) => Some(GetBandPercent(st.values[i], st.total))
         case None => if st.total > 0.0 then None else Some(0.0))
    case HousePrice => GetHousePriceInfo(p).price2025
    case HousePriceChange => GetHousePriceInfo(p).changePct
    case _ =>
      match LookupTxMetric(vs.txMetric)
      case None => None
      case Some(m) =>
        var info := GetTransactionInfo(p);
        if m.metricType == Count then TxCount(info, m.countField)
        else Some(info.estimatedRevenue)
  }

  // ---------------------------------------------------------------------
  // Agreement between the value and the has-data predicate
  // ---------------------------------------------------------------------

  /** House prices: the value is the sanitised field, and it exists exactly
      when the feature has data. */
  lemma HousePriceAgreement(vs: ViewState, p: Props)
    requires vs.dataset == HousePrice || vs.dataset == HousePriceChange
    ensures GetMetricValue(vs, p).Some? <==> HasDataForProps(vs, p)
    ensures vs.dataset == HousePrice ==> GetMetricValue(vs, p) == ToNumberOrNull(Get(p, "median_price_2025"))
    ensures vs.dataset == HousePriceChange ==> GetMetricValue(vs, p) == ToNumberOrNull(Get(p, "median_price_change_pct"))
  {
  }

  /** Council tax: no value exactly when the band total is 0; otherwise the
      selected band's percentage share; data exactly when the total is
      positive.  (A negative total gives the value 0 but no data.) */
  lemma CouncilTaxResolution(vs: ViewState, p: Props, i: nat)
    requires vs.dataset == CouncilTax && i < |BAND_COLUMNS| && BAND_COLUMNS[i] == vs.band
    ensures GetMetricValue(vs, p).None? <==> BandStatsOf(p).total == 0.0
    ensures BandStatsOf(p).total != 0.0 ==>
      GetMetricValue(vs, p) == Some(GetBandPercent(BandStatsOf(p).values[i], BandStatsOf(p).total))
    ensures HasDataForProps(vs, p) <==> BandStatsOf(p).total > 0.0
    ensures HasDataForProps(vs, p) ==> GetMetricValue(vs, p).Some?
  {
    var j := IndexOf(BAND_COLUMNS, vs.band);
    assert vs.band in BAND_COLUMNS;
    assert j.Some?;
    BandColumnsDistinct(i, j.value);
  }

  lemma BandColumnsDistinct(i: nat, j: nat)
    requires i < |BAND_COLUMNS| && j < |BAND_COLUMNS| && BAND_COLUMNS[i] == BAND_COLUMNS[j]
    ensures i == j
  {
  }

  /** Mansion-tax datasets: a feature has data exactly when its value exists
      and is positive. */
  lemma TransactionAgreement(vs: ViewState, p: Props)
    requires vs.dataset == MansionTax || vs.dataset == MansionTaxPostcodes
    ensures HasDataForProps(vs, p) <==> GetMetricValue(vs, p).Some? && GetMetricValue(vs, p).value > 0.0
  {
  }

  /** The amount metric is the estimated revenue of the raw property bag; a
      count metric is the sanitised count field. */
  lemma TransactionValue(vs: ViewState, p: Props)
    requires vs.dataset == MansionTax || vs.dataset == MansionTaxPostcodes
    requires LookupTxMetric(vs.txMetric).Some?
    ensures LookupTxMetric(vs.txMetric).value.metricType == Amount ==>
      GetMetricValue(vs, p) == Some(EstimatedRevenue(p))
    ensures LookupTxMetric(vs.txMetric).value.metricType == Count ==>
      GetMetricValue(vs, p) == ToNumberOrNull(Get(p, LookupTxMetric(vs.txMetric).value.countField))
  {
    TransactionInfoFaithful(p);
    CountFieldsTracked();
  }

  /** Under a valid selection, a feature with data always has a value. */
  lemma HasDataHasValue(vs: ViewState, p: Props)
    requires ValidView(vs)
    ensures HasDataForProps(vs, p) ==> GetMetricValue(vs, p).Some?
  {
    if vs.dataset == CouncilTax {
      var j := IndexOf(BAND_COLUMNS, vs.band);
      CouncilTaxResolution(vs, p, j.value);
    }
  }

  /** The documented end-to-end example: bands A = 10 and D = 40 (total 50)
      with band D selected give 80 and the feature has data. */
  lemma CouncilTaxExample(p: Props, vs: ViewState)
    requires p == map["band_A" := VNum(Finite(10.0)), "band_D" := VNum(Finite(40.0))]
    requires vs == ViewState(CouncilTax, "band_D", "tx_estimated_revenue")
    ensures GetMetricValue(vs, p) == Some(80.0)
    ensures HasDataForProps(vs, p)
  {
    var vals := BandValues(p);
    assert Get(p, "band_A") == VNum(Finite(10.0));
    assert Get(p, "band_D") == VNum(Finite(40.0));
    UnlistedBandReadsZero(p, 1);
    UnlistedBandReadsZero(p, 2);
    UnlistedBandReadsZero(p, 4);
    UnlistedBandReadsZero(p, 5);
    UnlistedBandReadsZero(p, 6);
    UnlistedBandReadsZero(p, 7);
    UnlistedBandReadsZero(p, 8);
    assert vals[0] == 10.0 && vals[3] == 40.0;
    SumOfNine(vals);
    CouncilTaxResolution(vs, p, 3);
  }

  /** A band column missing from the properties reads as 0. */
  lemma UnlistedBandReadsZero(p: Props, i: nat)
    requires i < |BAND_COLUMNS| && BAND_COLUMNS[i] !in p
    ensures BandValues(p)[i] == 0.0
  {
  }

  /** A nine-element sum written out. */
  lemma SumOfNine(v: seq<real>)
    requires |v| == 9
    ensures Sum(v) == v[0] + v[1] + v[2] + v[3] + v[4] + v[5] + v[6] + v[7] + v[8]
  {
    assert v[..9] == v;
    forall k | 1 <= k <= 9
      ensures Sum(v[..k]) == Sum(v[..k - 1]) + v[k - 1]
    {
      assert v[..k][..k - 1] == v[..k - 1];
    }
  }
}
