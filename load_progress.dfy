/** The loading bar's accounting.  Once the data manifest gives the dataset
    sizes, the bar follows bytes: bytes read from the streams plus
    "synthetic" bytes that keep it moving while a response is parsed.
    Without a manifest it moves in two equal steps, one per dataset. */
module LoadProgress {
  import opened JsValues
  import opened Extractors

  const LOAD_PROGRESS_BASE: real := 5.0
  const LOAD_PROGRESS_RANGE: real := 85.0
  const TOTAL_DATASET_STEPS: nat := 2

  const CONSTITUENCY_GEOJSON_URL: string := "constituency_council_tax_bands.geojson"
  const POSTCODE_GEOJSON_URL: string := "postcode_sales_by_bracket.geojson"

  /** A manifest key and the dataset URL whose size hint it sets. */
  datatype ManifestEntry = ManifestEntry(key: string, url: string)

  /** The manifest keys applyDataManifest reads, in order. */
  const MANIFEST_MAP: seq<ManifestEntry> := [
    ManifestEntry("constituency", CONSTITUENCY_GEOJSON_URL),
    ManifestEntry("postcode", POSTCODE_GEOJSON_URL)
  ]

  /** setLoadingProgress: the width the bar is drawn at, clamped to [0, 100]. */
  function Displayed(percent: real): (r: real)
    ensures 0.0 <= r <= 100.0
    ensures 0.0 <= percent <= 100.0 ==> r == percent
    ensures percent < 0.0 ==> r == 0.0
    ensures percent > 100.0 ==> r == 100.0
  {
    Max(0.0, Min(100.0, percent))
  }

  /** updateByteProgress: the percent shown for the bytes counted so far
      (loaded plus synthetic), capped at the expected total. */
  function BytePercent(expected: real, counted: real): real {
    var total := Max(expected, 1.0);
    var displayBytes := Min(counted, expected);
    var ratio := Min(displayBytes / total, 1.0);
    LOAD_PROGRESS_BASE + ratio * LOAD_PROGRESS_RANGE
  }

  /** markDatasetStepComplete: the percent shown after `steps` datasets. */
  function StepPercent(steps: nat): real {
    LOAD_PROGRESS_BASE + (steps as real / TOTAL_DATASET_STEPS as real) * LOAD_PROGRESS_RANGE
  }

  /** The byte-driven percent stays within [5, 90]. */
  lemma BytePercentBounds(expected: real, counted: real)
    requires expected >= 0.0 && counted >= 0.0
    ensures LOAD_PROGRESS_BASE <= BytePercent(expected, counted) <= LOAD_PROGRESS_BASE + LOAD_PROGRESS_RANGE
  {
    DivNonNegative(Min(counted, expected), Max(expected, 1.0));
  }

  /** More counted bytes never move the bar back. */
  lemma BytePercentMonotone(expected: real, before: real, after: real)
    requires before <= after
    ensures BytePercent(expected, before) <= BytePercent(expected, after)
  {
    DivMonotone(Min(before, expected), Min(after, expected), Max(expected, 1.0));
  }

  /** Once the counted bytes reach an expected total of at least one byte,
      the bar stands at 90. */
  lemma BytePercentFull(expected: real, counted: real)
    requires expected >= 1.0 && counted >= expected
    ensures BytePercent(expected, counted) == LOAD_PROGRESS_BASE + LOAD_PROGRESS_RANGE
  {
    assert Min(counted, expected) / Max(expected, 1.0) == 1.0;
  }

  /** No dataset done shows 5, one 47.5, both 90, and the steps only go up. */
  lemma StepPercentValues(a: nat, b: nat)
    requires a <= b <= TOTAL_DATASET_STEPS
    ensures StepPercent(0) == 5.0 && StepPercent(1) == 47.5 && StepPercent(2) == 90.0
    ensures LOAD_PROGRESS_BASE <= StepPercent(a) <= StepPercent(b) <= LOAD_PROGRESS_BASE + LOAD_PROGRESS_RANGE
  {
    DivMonotone(a as real, b as real, 2.0);
    DivMonotone(b as real, 2.0, 2.0);
    DivNonNegative(a as real, 2.0);
  }

  /** `Number(v)` when it is finite and positive, the only amounts the
      counters accept; None otherwise. */
  function PositiveAmount(v: Value): (r: Option<real>)
    ensures r.Some? <==> ToNumber(v).Finite? && ToNumber(v).x > 0.0
    ensures r.Some? ==> r.value == ToNumber(v).x
  {
    var n := ToNumber(v);
    if n.Finite? && n.x > 0.0 then Some(n.x) else None
  }

  /** The size the manifest gives for `key`: a finite positive `bytes`
      field, or None when the entry is missing or its size unusable. */
  function ManifestBytes(datasets: map<string, Props>, key: string): (r: Option<real>)
    ensures r.Some? ==> r.value > 0.0
  {
    if key !in datasets then None else PositiveAmount(Get(datasets[key], "bytes"))
  }

  function BytesOrZero(o: Option<real>): real {
    if o.Some? then o.value else 0.0
  }

  /** The sum of the usable sizes of the manifest entries. */
  function ManifestTotal(datasets: map<string, Props>, entries: seq<ManifestEntry>): real {
    if entries == [] then 0.0
    else ManifestTotal(datasets, entries[..|entries| - 1]) + BytesOrZero(ManifestBytes(datasets, entries[|entries| - 1].key))
  }

  /** The size hints after recording each usable manifest size. */
  function HintsAfter(hints: map<string, real>, datasets: map<string, Props>, entries: seq<ManifestEntry>): map<string, real> {
    if entries == [] then hints
    else
      var h := HintsAfter(hints, datasets, entries[..|entries| - 1]);
      var e := entries[|entries| - 1];
      var b := ManifestBytes(datasets, e.key);
      if b.Some? then h[e.url := b.value] else h
  }

  /** The manifest switches the bar to bytes exactly when one of its entries
      has a usable size; the total is never negative. */
  lemma {:induction false} ManifestTotalPositive(datasets: map<string, Props>, entries: seq<ManifestEntry>)
    ensures ManifestTotal(datasets, entries) >= 0.0
    ensures ManifestTotal(datasets, entries) > 0.0 <==>
      exists i :: 0 <= i < |entries| && ManifestBytes(datasets, entries[i].key).Some?
  {
    if entries != [] {
      var init := entries[..|entries| - 1];
      ManifestTotalPositive(datasets, init);
      forall i | 0 <= i < |init|
        ensures init[i] == entries[i]
      {
      }
      if ManifestBytes(datasets, entries[|entries| - 1].key).Some? {
        assert ManifestTotal(datasets, entries) > 0.0;
      }
    }
  }

  /** Every usable manifest size lands in the size hint of its URL (the URLs
      being distinct); other URLs keep their hints. */
  lemma {:induction false} HintsAfterSet(hints: map<string, real>, datasets: map<string, Props>, entries: seq<ManifestEntry>, k: nat)
    requires k < |entries|
    requires forall i, j :: 0 <= i < j < |entries| ==> entries[i].url != entries[j].url
    ensures var b := ManifestBytes(datasets, entries[k].key);
      var h := HintsAfter(hints, datasets, entries);
      b.Some? ==> entries[k].url in h && h[entries[k].url] == b.value
  {
    var init := entries[..|entries| - 1];
    if k < |entries| - 1 {
      HintsAfterSet(hints, datasets, init, k);
      assert init[k] == entries[k];
    }
  }

  /** Hints are only ever written for the manifest's URLs. */
  lemma {:induction false} HintsAfterOthers(hints: map<string, real>, datasets: map<string, Props>, entries: seq<ManifestEntry>, url: string)
    requires forall i :: 0 <= i < |entries| ==> entries[i].url != url
    ensures var h := HintsAfter(hints, datasets, entries);
      (url in h <==> url in hints) && (url in hints ==> h[url] == hints[url])
  {
    if entries != [] {
      HintsAfterOthers(hints, datasets, entries[..|entries| - 1], url);
      assert entries[|entries| - 1].url != url;
    }
  }

  predicate NonNegativeHints(hints: map<string, real>) {
    forall u :: u in hints ==> hints[u] >= 0.0
  }

  /** The hints keep non-negative values. */
  lemma {:induction false} HintsAfterNonNegative(hints: map<string, real>, datasets: map<string, Props>, entries: seq<ManifestEntry>)
    requires NonNegativeHints(hints)
    ensures NonNegativeHints(HintsAfter(hints, datasets, entries))
  {
    if entries != [] {
      var init := entries[..|entries| - 1];
      HintsAfterNonNegative(hints, datasets, init);
      var h := HintsAfter(hints, datasets, init);
      var e := entries[|entries| - 1];
      var b := ManifestBytes(datasets, e.key);
      if b.Some? {
        var h2 := h[e.url := b.value];
        forall u | u in h2
          ensures h2[u] >= 0.0
        {
          if u != e.url {
            assert u in h;
          }
        }
        assert HintsAfter(hints, datasets, entries) == h2;
      }
    }
  }

  /** The forEach over the manifest map in applyDataManifest: every usable
      size is recorded as the hint of its URL and added to the total. */
  method ReadManifestSizes(datasets: map<string, Props>, hints0: map<string, real>) returns (total: real, hints: map<string, real>)
    ensures total == ManifestTotal(datasets, MANIFEST_MAP)
    ensures hints == HintsAfter(hints0, datasets, MANIFEST_MAP)
  {
    total := 0.0;
    hints := hints0;
    for i := 0 to |MANIFEST_MAP|
      invariant total == ManifestTotal(datasets, MANIFEST_MAP[..i])
      invariant hints == HintsAfter(hints0, datasets, MANIFEST_MAP[..i])
    {
      assert MANIFEST_MAP[..i + 1][..i] == MANIFEST_MAP[..i];
      var entry := MANIFEST_MAP[i];
      var bytes := ManifestBytes(datasets, entry.key);
      if bytes.Some? {
        hints := hints[entry.url := bytes.value];
        total := total + bytes.value;
      }
    }
    assert MANIFEST_MAP[..|MANIFEST_MAP|] == MANIFEST_MAP;
  }

  /** The loading state: byteProgressEnabled, expectedTotalBytes,
      totalBytesLoaded, syntheticBytes, completedDatasetSteps,
      datasetSizeHints and the percent the bar was last drawn at. */
  class ProgressState {
    var byteProgressEnabled: bool
    var expectedTotalBytes: real
    var totalBytesLoaded: real
    var syntheticBytes: real
    var completedDatasetSteps: nat
    var datasetSizeHints: map<string, real>
    var progressPercent: real

    /** Before a manifest the bar moves by dataset steps and counts no bytes;
        after it, the bar shows the byte percent.  Loaded bytes never pass
        max(expectedTotalBytes, 1), synthetic bytes are never negative, and
        steps never pass 2. */
    ghost predicate Valid()
      reads this
    {
      && expectedTotalBytes >= 0.0
      && 0.0 <= totalBytesLoaded <= Max(expectedTotalBytes, 1.0)
      && syntheticBytes >= 0.0
      && completedDatasetSteps <= TOTAL_DATASET_STEPS
      && NonNegativeHints(datasetSizeHints)
      && (byteProgressEnabled ==>
            expectedTotalBytes > 0.0 &&
            progressPercent == BytePercent(expectedTotalBytes, totalBytesLoaded + syntheticBytes))
      && (!byteProgressEnabled ==>
            totalBytesLoaded == 0.0 && syntheticBytes == 0.0 &&
            progressPercent == StepPercent(completedDatasetSteps))
    }

    /** The bar as the page starts: 5%, no manifest, both hints 0. */
    constructor ()
      ensures Valid() && !byteProgressEnabled && progressPercent == LOAD_PROGRESS_BASE
      ensures expectedTotalBytes == 0.0 && completedDatasetSteps == 0
      ensures datasetSizeHints == map[CONSTITUENCY_GEOJSON_URL := 0.0, POSTCODE_GEOJSON_URL := 0.0]
    {
      byteProgressEnabled := false;
      expectedTotalBytes := 0.0;
      totalBytesLoaded := 0.0;
      syntheticBytes := 0.0;
      completedDatasetSteps := 0;
      datasetSizeHints := map[CONSTITUENCY_GEOJSON_URL := 0.0, POSTCODE_GEOJSON_URL := 0.0];
      progressPercent := Displayed(LOAD_PROGRESS_BASE);
    }

    /** updateByteProgress: in byte mode, redraw the bar for the current counts. */
    method UpdateByteProgress()
      requires byteProgressEnabled ==> expectedTotalBytes >= 0.0 && totalBytesLoaded + syntheticBytes >= 0.0
      modifies this`progressPercent
      ensures progressPercent ==
        if byteProgressEnabled then BytePercent(expectedTotalBytes, totalBytesLoaded + syntheticBytes)
        else old(progressPercent)
    {
      if !byteProgressEnabled {
        return;
      }
      BytePercentBounds(expectedTotalBytes, totalBytesLoaded + syntheticBytes);
      var total := Max(expectedTotalBytes, 1.0);
      var displayBytes := Min(totalBytesLoaded + syntheticBytes, expectedTotalBytes);
      var ratio := Min(displayBytes / total, 1.0);
      progressPercent := Displayed(LOAD_PROGRESS_BASE + ratio * LOAD_PROGRESS_RANGE);
    }

    /** recordBytesLoaded: in byte mode, count a finite positive number of
        bytes, capping the count at max(expectedTotalBytes, 1); anything
        else is ignored. */
    method RecordBytesLoaded(bytes: JsNumber)
      requires Valid()
      modifies this
      ensures Valid()
      ensures byteProgressEnabled == old(byteProgressEnabled) && expectedTotalBytes == old(expectedTotalBytes)
      ensures syntheticBytes == old(syntheticBytes) && completedDatasetSteps == old(completedDatasetSteps)
      ensures datasetSizeHints == old(datasetSizeHints)
      ensures totalBytesLoaded ==
        if byteProgressEnabled && bytes.Finite? && bytes.x > 0.0
        then Min(old(totalBytesLoaded) + bytes.x, Max(expectedTotalBytes, 1.0))
        else old(totalBytesLoaded)
      ensures old(totalBytesLoaded) <= totalBytesLoaded
      ensures old(progressPercent) <= progressPercent
    {
      if !byteProgressEnabled {
        return;
      }
      if bytes.NonFinite? || bytes.x <= 0.0 {
        return;
      }
      var total := Max(expectedTotalBytes, 1.0);
      totalBytesLoaded := Min(totalBytesLoaded + bytes.x, total);
      UpdateByteProgress();
      BytePercentMonotone(expectedTotalBytes, old(totalBytesLoaded) + syntheticBytes, totalBytesLoaded + syntheticBytes);
    }

    /** markDatasetStepComplete: without a manifest, one more dataset is
        done (at most two) and the bar moves to that step. */
    method MarkDatasetStepComplete()
      requires Valid()
      modifies this
      ensures Valid()
      ensures byteProgressEnabled ==> unchanged(this)
      ensures !byteProgressEnabled ==>
        completedDatasetSteps == (if old(completedDatasetSteps) < TOTAL_DATASET_STEPS then old(completedDatasetSteps) + 1 else TOTAL_DATASET_STEPS)
      ensures !byteProgressEnabled ==> progressPercent == StepPercent(completedDatasetSteps)
      ensures byteProgressEnabled == old(byteProgressEnabled) && expectedTotalBytes == old(expectedTotalBytes)
      ensures totalBytesLoaded == old(totalBytesLoaded) && syntheticBytes == old(syntheticBytes)
      ensures datasetSizeHints == old(datasetSizeHints)
      ensures old(progressPercent) <= progressPercent
    {
      if byteProgressEnabled {
        return;
      }
      completedDatasetSteps := if TOTAL_DATASET_STEPS <= completedDatasetSteps + 1 then TOTAL_DATASET_STEPS else completedDatasetSteps + 1;
      var ratio := completedDatasetSteps as real / TOTAL_DATASET_STEPS as real;
      StepPercentValues(old(completedDatasetSteps), completedDatasetSteps);
      progressPercent := Displayed(LOAD_PROGRESS_BASE + ratio * LOAD_PROGRESS_RANGE);
    }

    /** finalizeDatasetProgress: once a dataset has been read, in byte mode
        the bytes its size hint promised beyond those read are counted; in
        step mode the dataset counts as one step. */
    method FinalizeDatasetProgress(loadedBytes: real, sizeHint: Value)
      requires Valid()
      modifies this
      ensures Valid()
      ensures byteProgressEnabled == old(byteProgressEnabled) && expectedTotalBytes == old(expectedTotalBytes)
      ensures syntheticBytes == old(syntheticBytes) && datasetSizeHints == old(datasetSizeHints)
      ensures byteProgressEnabled ==> completedDatasetSteps == old(completedDatasetSteps)
      ensures byteProgressEnabled && ToNumber(sizeHint).Finite? && ToNumber(sizeHint).x > loadedBytes ==>
        totalBytesLoaded == Min(old(totalBytesLoaded) + (ToNumber(sizeHint).x - loadedBytes), Max(expectedTotalBytes, 1.0))
      ensures byteProgressEnabled && !(ToNumber(sizeHint).Finite? && ToNumber(sizeHint).x > loadedBytes) ==>
        totalBytesLoaded == old(totalBytesLoaded)
      ensures !byteProgressEnabled ==>
        completedDatasetSteps == (if old(completedDatasetSteps) < TOTAL_DATASET_STEPS then old(completedDatasetSteps) + 1 else TOTAL_DATASET_STEPS)
      ensures old(progressPercent) <= progressPercent
    {
      if byteProgressEnabled {
        var expected := ToNumber(sizeHint);
        if expected.Finite? && expected.x > loadedBytes {
          RecordBytesLoaded(Finite(expected.x - loadedBytes));
        }
        return;
      }
      MarkDatasetStepComplete();
    }

    /** applyDataManifest: record the usable dataset sizes as size hints and,
        when they add up to more than zero, switch the bar to bytes with that
        total and no bytes counted yet.  A manifest that is missing, not an
        object or without `datasets` reads here as an empty map, since the
        source then changes nothing either. */
    method ApplyDataManifest(datasets: map<string, Props>)
      requires Valid()
      modifies this
      ensures Valid()
      ensures datasetSizeHints == HintsAfter(old(datasetSizeHints), datasets, MANIFEST_MAP)
      ensures completedDatasetSteps == old(completedDatasetSteps) && syntheticBytes == old(syntheticBytes)
      ensures ManifestTotal(datasets, MANIFEST_MAP) > 0.0 ==>
        byteProgressEnabled && expectedTotalBytes == ManifestTotal(datasets, MANIFEST_MAP) && totalBytesLoaded == 0.0
      ensures ManifestTotal(datasets, MANIFEST_MAP) <= 0.0 ==>
        byteProgressEnabled == old(byteProgressEnabled) && expectedTotalBytes == old(expectedTotalBytes)
      ensures ManifestTotal(datasets, MANIFEST_MAP) <= 0.0 ==>
        totalBytesLoaded == old(totalBytesLoaded) && progressPercent == old(progressPercent)
    {
      var total, hints := ReadManifestSizes(datasets, datasetSizeHints);
      HintsAfterNonNegative(datasetSizeHints, datasets, MANIFEST_MAP);
      datasetSizeHints := hints;
      if total > 0.0 {
        byteProgressEnabled := true;
        expectedTotalBytes := total;
        totalBytesLoaded := 0.0;
        UpdateByteProgress();
      }
    }

    /** addSyntheticBytes: in byte mode, count up to `amount` synthetic
        bytes, never more than the expected total leaves room for, and
        return how many were counted. */
    method AddSyntheticBytes(amount: Value) returns (increment: real)
      requires Valid()
      modifies this
      ensures Valid()
      ensures byteProgressEnabled == old(byteProgressEnabled) && expectedTotalBytes == old(expectedTotalBytes)
      ensures totalBytesLoaded == old(totalBytesLoaded) && completedDatasetSteps == old(completedDatasetSteps)
      ensures datasetSizeHints == old(datasetSizeHints)
      ensures increment >= 0.0 && syntheticBytes == old(syntheticBytes) + increment
      ensures increment > 0.0 ==> byteProgressEnabled && PositiveAmount(amount).Some? && increment <= PositiveAmount(amount).value
      ensures increment > 0.0 ==> totalBytesLoaded + syntheticBytes <= expectedTotalBytes
      ensures byteProgressEnabled && PositiveAmount(amount).Some? ==>
        increment == Min(PositiveAmount(amount).value, Max(expectedTotalBytes - totalBytesLoaded - old(syntheticBytes), 0.0))
      ensures old(progressPercent) <= progressPercent
    {
      if !byteProgressEnabled {
        return 0.0;
      }
      var candidate := PositiveAmount(amount);
      if candidate.None? {
        return 0.0;
      }
      var available := Max(expectedTotalBytes - totalBytesLoaded - syntheticBytes, 0.0);
      increment := Min(candidate.value, available);
      if increment <= 0.0 {
        return 0.0;
      }
      syntheticBytes := syntheticBytes + increment;
      UpdateByteProgress();
      BytePercentMonotone(expectedTotalBytes, totalBytesLoaded + old(syntheticBytes), totalBytesLoaded + syntheticBytes);
    }

    /** removeSyntheticBytes: in byte mode, take back up to `amount`
        synthetic bytes, never more than are counted, and return how many. */
    method RemoveSyntheticBytes(amount: Value) returns (decrement: real)
      requires Valid()
      modifies this
      ensures Valid()
      ensures byteProgressEnabled == old(byteProgressEnabled) && expectedTotalBytes == old(expectedTotalBytes)
      ensures totalBytesLoaded == old(totalBytesLoaded) && completedDatasetSteps == old(completedDatasetSteps)
      ensures datasetSizeHints == old(datasetSizeHints)
      ensures 0.0 <= decrement <= old(syntheticBytes) && syntheticBytes == old(syntheticBytes) - decrement
      ensures decrement > 0.0 ==> byteProgressEnabled && PositiveAmount(amount).Some? && decrement <= PositiveAmount(amount).value
      ensures byteProgressEnabled && PositiveAmount(amount).Some? ==>
        decrement == Min(PositiveAmount(amount).value, old(syntheticBytes))
      ensures progressPercent <= old(progressPercent)
    {
      if !byteProgressEnabled {
        return 0.0;
      }
      var candidate := PositiveAmount(amount);
      if candidate.None? {
        return 0.0;
      }
      decrement := Min(candidate.value, syntheticBytes);
      if decrement <= 0.0 {
        return 0.0;
      }
      syntheticBytes := syntheticBytes - decrement;
      UpdateByteProgress();
      BytePercentMonotone(expectedTotalBytes, totalBytesLoaded + syntheticBytes, totalBytesLoaded + old(syntheticBytes));
    }
  }
}
