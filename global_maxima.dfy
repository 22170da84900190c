/** The largest house price, price change, transaction count and surcharge
    count over the loaded constituencies (computeGlobalStatMaximums), against
    which the comparison bars are drawn. */
module GlobalMaxima {
  import opened JsValues
  import opened Extractors

  /** globalStatMaximums. */
  datatype StatMaximums = StatMaximums(price2025: real, changePct: real, transactions: real, surchargeProperties: real)

  /** The value globalStatMaximums starts from, and the seed of each running maximum. */
  const ZERO_MAXIMUMS: StatMaximums := StatMaximums(0.0, 0.0, 0.0, 0.0)

  const PRICE_FIELD: string := "median_price_2025"
  const CHANGE_FIELD: string := "median_price_change_pct"
  const TRANSACTIONS_FIELD: string := "tx_total_count"
  const SURCHARGE_FIELD: string := "tx_2m_plus_count"

  /** One step of a running maximum: a finite value above the maximum replaces it. */
  function Raise(m: real, x: Option<real>): (r: real)
    ensures r >= m
    ensures x.Some? ==> r >= x.value
    ensures r == m || (x.Some? && r == x.value)
  {
    if x.Some? && x.value > m then x.value else m
  }

  /** The sanitised value of `field` in feature `i`. */
  function FieldValue(feats: seq<Props>, field: string, i: nat): Option<real>
    requires i < |feats|
  {
    ToNumberOrNull(Get(feats[i], field))
  }

  /** The running maximum of `field` over the features, seeded at 0. */
  function FieldMax(feats: seq<Props>, field: string): real {
    if feats == [] then 0.0
    else Raise(FieldMax(feats[..|feats| - 1], field), ToNumberOrNull(Get(feats[|feats| - 1], field)))
  }

  /** The four running maxima over a list of features. */
  function MaximumsOf(feats: seq<Props>): StatMaximums {
    StatMaximums(FieldMax(feats, PRICE_FIELD), FieldMax(feats, CHANGE_FIELD),
                 FieldMax(feats, TRANSACTIONS_FIELD), FieldMax(feats, SURCHARGE_FIELD))
  }

  /** computeGlobalStatMaximums: one pass over the features raising four
      maxima.  `data` is None before the constituencies have loaded, in which
      case the previous maxima stay in place. */
  method ComputeGlobalStatMaximums(data: Option<seq<Props>>, previous: StatMaximums) returns (stats: StatMaximums)
    ensures data.None? ==> stats == previous
    ensures data.Some? ==> stats == MaximumsOf(data.value)
  {
    if data.None? {
      return previous;
    }
    var feats := data.value;
    stats := ZERO_MAXIMUMS;
    for i := 0 to |feats|
      invariant stats == MaximumsOf(feats[..i])
    {
      assert feats[..i + 1][..i] == feats[..i];
      var props := feats[i];
      var price := ToNumberOrNull(Get(props, PRICE_FIELD));
      if price.Some? && price.value > stats.price2025 {
        stats := stats.(price2025 := price.value);
      }
      var change := ToNumberOrNull(Get(props, CHANGE_FIELD));
      if change.Some? && change.value > stats.changePct {
        stats := stats.(changePct := change.value);
      }
      var tx := ToNumberOrNull(Get(props, TRANSACTIONS_FIELD));
      if tx.Some? && tx.value > stats.transactions {
        stats := stats.(transactions := tx.value);
      }
      var surcharge := ToNumberOrNull(Get(props, SURCHARGE_FIELD));
      if surcharge.Some? && surcharge.value > stats.surchargeProperties {
        stats := stats.(surchargeProperties := surcharge.value);
      }
    }
    assert feats[..|feats|] == feats;
  }

  /** Each maximum is at least 0, at least every finite value of its field,
      and either 0 or one of those values. */
  lemma {:induction false} FieldMaxIsMaximum(feats: seq<Props>, field: string)
    ensures FieldMax(feats, field) >= 0.0
    ensures forall i :: 0 <= i < |feats| && FieldValue(feats, field, i).Some? ==>
      FieldValue(feats, field, i).value <= FieldMax(feats, field)
    ensures FieldMax(feats, field) == 0.0 ||
      exists i :: 0 <= i < |feats| && FieldValue(feats, field, i) == Some(FieldMax(feats, field))
  {
    if feats != [] {
      var init := feats[..|feats| - 1];
      FieldMaxIsMaximum(init, field);
      forall i | 0 <= i < |init|
        ensures FieldValue(init, field, i) == FieldValue(feats, field, i)
      {
        assert init[i] == feats[i];
      }
      var m := FieldMax(feats, field);
      if m != 0.0 && m != FieldMax(init, field) {
        assert FieldValue(feats, field, |feats| - 1) == Some(m);
      }
    }
  }

  /** `m` is the maximum of `field` seeded at 0: at least 0, at least every
      finite value of the field, and either 0 or one of those values. */
  ghost predicate IsFieldMaximum(feats: seq<Props>, field: string, m: real) {
    && m >= 0.0
    && (forall i :: 0 <= i < |feats| && FieldValue(feats, field, i).Some? ==> FieldValue(feats, field, i).value <= m)
    && (m == 0.0 || exists i :: 0 <= i < |feats| && FieldValue(feats, field, i) == Some(m))
  }

  /** The four maxima of a feature list are each such a maximum. */
  lemma MaximumsAreMaxima(feats: seq<Props>)
    ensures IsFieldMaximum(feats, PRICE_FIELD, MaximumsOf(feats).price2025)
    ensures IsFieldMaximum(feats, CHANGE_FIELD, MaximumsOf(feats).changePct)
    ensures IsFieldMaximum(feats, TRANSACTIONS_FIELD, MaximumsOf(feats).transactions)
    ensures IsFieldMaximum(feats, SURCHARGE_FIELD, MaximumsOf(feats).surchargeProperties)
  {
    FieldMaxIsMaximum(feats, PRICE_FIELD);
    FieldMaxIsMaximum(feats, CHANGE_FIELD);
    FieldMaxIsMaximum(feats, TRANSACTIONS_FIELD);
    FieldMaxIsMaximum(feats, SURCHARGE_FIELD);
  }

  /** Features without a finite value (missing, null or text that is not a
      number) leave a maximum where it was. */
  lemma FieldMaxSkipsMissing(feats: seq<Props>, p: Props, field: string)
    requires ToNumberOrNull(Get(p, field)).None?
    ensures FieldMax(feats + [p], field) == FieldMax(feats, field)
  {
    assert (feats + [p])[..|feats|] == feats;
  }

  /** Only positive values can raise a maximum: with all values at most 0 it
      stays 0. */
  lemma {:induction false} FieldMaxNonPositive(feats: seq<Props>, field: string)
    requires forall i :: 0 <= i < |feats| && FieldValue(feats, field, i).Some? ==> FieldValue(feats, field, i).value <= 0.0
    ensures FieldMax(feats, field) == 0.0
  {
    if feats != [] {
      var init := feats[..|feats| - 1];
      forall i | 0 <= i < |init| && FieldValue(init, field, i).Some?
        ensures FieldValue(init, field, i).value <= 0.0
      {
        assert init[i] == feats[i];
        assert FieldValue(init, field, i) == FieldValue(feats, field, i);
      }
      FieldMaxNonPositive(init, field);
      assert FieldValue(feats, field, |feats| - 1) == ToNumberOrNull(Get(feats[|feats| - 1], field));
    }
  }

  /** Prices 500000, 750000 and a null give the maximum 750000. */
  lemma PriceMaximumExample(a: Props, b: Props, c: Props)
    requires Get(a, PRICE_FIELD) == VNum(Finite(500000.0))
    requires Get(b, PRICE_FIELD) == VNum(Finite(750000.0))
    requires Get(c, PRICE_FIELD) == VNull
    ensures FieldMax([a, b, c], PRICE_FIELD) == 750000.0
  {
    assert [a][..0] == [];
    assert FieldMax([a], PRICE_FIELD) == 500000.0;
    assert [a, b][..1] == [a];
    assert FieldMax([a, b], PRICE_FIELD) == 750000.0;
    assert [a, b, c][..2] == [a, b];
  }
}
