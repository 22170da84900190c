/** The selection the map is drawn for (selectedDataset, selectedBand,
    selectedTransactionMetric, selectedPostcodeProps) and the two selector
    handlers that change it. */
module Selection {
  import opened JsValues
  import opened Extractors
  import opened Resolver

  /** The metric every dataset switch falls back to:
      `TRANSACTION_METRICS[0]?.value`. */
  const DEFAULT_TX_METRIC: string := "tx_estimated_revenue"

  class SelectionState {
    var dataset: Dataset
    var band: string
    var txMetric: string
    /** The postcode whose details are shown; None for null. */
    var postcodeProps: Option<Props>

    /** The handlers only ever store a listed band and a listed metric. */
    ghost predicate Valid()
      reads this
    {
      band in BAND_COLUMNS && LookupTxMetric(txMetric).Some?
    }

    /** The selection as the resolver reads it. */
    function View(): (vs: ViewState)
      reads this
      ensures Valid() ==> ValidView(vs)
    {
      ViewState(dataset, band, txMetric)
    }

    /** The initial selection: the postcode dataset, band H, estimated revenue. */
    constructor ()
      ensures Valid()
      ensures dataset == MansionTaxPostcodes && band == "band_H" && txMetric == DEFAULT_TX_METRIC
      ensures postcodeProps == None
    {
      dataset := MansionTaxPostcodes;
      band := "band_H";
      txMetric := DEFAULT_TX_METRIC;
      postcodeProps := None;
      assert BAND_COLUMNS[7] == "band_H";
    }

    /** The metric selector's change handler.  Council tax takes a listed
        band, mansion tax a listed metric; anything else is ignored.
        `refreshed` says whether the display was refreshed. */
    method OnMetricChange(value: string) returns (refreshed: bool)
      modifies this
      ensures refreshed <==>
        (old(dataset) == CouncilTax && value in BAND_COLUMNS) ||
        (old(dataset) == MansionTax && LookupTxMetric(value).Some?)
      ensures band == (if old(dataset) == CouncilTax && value in BAND_COLUMNS then value else old(band))
      ensures txMetric == (if old(dataset) == MansionTax && LookupTxMetric(value).Some? then value else old(txMetric))
      ensures dataset == old(dataset) && postcodeProps == old(postcodeProps)
      ensures old(Valid()) ==> Valid()
    {
      if dataset == CouncilTax {
        if value !in BAND_COLUMNS {
          return false;
        }
        band := value;
      } else if dataset == MansionTax {
        if LookupTxMetric(value).None? {
          return false;
        }
        txMetric := value;
      } else {
        return false;
      }
      refreshed := true;
    }

    /** The dataset selector's change handler.  An unknown choice is ignored;
        otherwise the dataset switches, mansion tax restarts from the revenue
        metric, an unlisted metric is replaced by the default, and leaving
        the postcode dataset clears the selected postcode. */
    method OnDatasetChange(choice: string) returns (accepted: bool)
      modifies this
      ensures accepted <==> ParseDataset(choice).Some?
      ensures !accepted ==>
        dataset == old(dataset) && txMetric == old(txMetric) && postcodeProps == old(postcodeProps)
      ensures accepted ==> dataset == ParseDataset(choice).value && DatasetKey(dataset) == choice
      ensures accepted && (dataset == MansionTax || LookupTxMetric(old(txMetric)).None?) ==> txMetric == DEFAULT_TX_METRIC
      ensures accepted && dataset != MansionTax && LookupTxMetric(old(txMetric)).Some? ==> txMetric == old(txMetric)
      ensures accepted ==> postcodeProps == (if dataset == MansionTaxPostcodes then old(postcodeProps) else None)
      ensures band == old(band)
      ensures accepted ==> LookupTxMetric(txMetric).Some?
      ensures old(Valid()) ==> Valid()
    {
      var parsed := ParseDataset(choice);
      if parsed.None? {
        return false;
      }
      dataset := parsed.value;
      if dataset == MansionTax {
        txMetric := DEFAULT_TX_METRIC;
      } else if LookupTxMetric(txMetric).None? {
        txMetric := TRANSACTION_METRICS[0].value;
      }
      if dataset != MansionTaxPostcodes {
        postcodeProps := None;
      }
      accepted := true;
    }
  }

  /** Under any selection the handlers can reach, a feature with data has a
      value to colour it by. */
  lemma ReachableSelectionsResolve(s: SelectionState, p: Props)
    requires s.Valid()
    ensures HasDataForProps(s.View(), p) ==> GetMetricValue(s.View(), p).Some?
  {
    HasDataHasValue(s.View(), p);
  }
}
