# Mansion tax map: verified model of the web app's core

This project models, in Dafny, the data logic of `app.js`. That file is the browser front end of a map of the proposed UK "mansion tax" (a high-value council tax surcharge). The map also shows council tax bands, median house prices and price change by parliamentary constituency. The model covers:

- **Numeric sanitiser** (`JsValues`). `toNumberOrNull` and `safeNumber` read the loosely typed GeoJSON properties: numbers, numeric strings with thousands separators and padding, null and missing values. JavaScript's `Number()` is modelled for decimal literals.
- **Metric extractors** (`Extractors`). These are the per-band council tax counts and their total, the band percentage, and the estimated surcharge revenue. The revenue is the sum of count × rate over the four price tiers. The house-price and transaction read-outs are modelled too.
- **Dataset resolver** (`Resolver`). `getMetricValue` and `hasDataForProps` take the selected dataset, band and transaction metric as an explicit view-state value instead of globals.
- **Classifier** (`Classifier`). `computeBreaks` gives either the fixed mansion-tax breaks or quantile breaks over the sorted finite metric values. `getColor` maps a value to one of six ramp colours, and `style` uses the no-data style exactly when there is no value.
- **Global maxima** (`GlobalMaxima`). `computeGlobalStatMaximums` keeps four running maxima seeded at 0.
- **Place zoom** (`PlaceZoom`). `getPlaceBounds` and `getSuggestedZoomForPlace` apply this precedence: bounding box, type table, class table, the `place_rank` ladder, then the fallback 15. The caller's clamp to the map's zoom limits is included.
- **Selection** (`Selection.SelectionState`). The metric and dataset selector handlers.
- **Search** (`Search`). Local constituency search: a lower-cased substring match, at most eight results, in index order. `Search.SearchCursor` is the keyboard cursor over the results.
- **Load progress** (`LoadProgress.ProgressState`). The loading bar's step-based and byte-based accounting: manifest sizes, recorded bytes and synthetic bytes.
- **Display scales** (`DisplayScales`). Postcode and cluster marker sizes, and the comparison-bar ratio.

JavaScript numbers are `real`. `JsNumber` is `Finite(x) | NonFinite`, where `NonFinite` stands for NaN and ±Infinity. A property bag is a `map<string, Value>`, and an absent key reads as `undefined`. Code that mutates module-level state becomes a class with those fields. Pure code becomes functions and lemmas.

## Model

| member | source | states |
|---|---|---|
| JsValues.ToLowerAscii | app.js:1710 | the result has the same length, and maps each ASCII capital to its lower case while keeping every other character |
| JsValues.LowerCaseUnchanged | app.js:1710 | a string without ASCII capitals is unchanged by lower-casing |
| JsValues.RemoveCommasSpec | app.js:890 | `replace(/,/g, "")` never lengthens the string and leaves no comma |
| JsValues.RemoveCommasNone | app.js:890 | a string without commas is unchanged |
| JsValues.RemoveCommasAppend | app.js:890 | removing commas distributes over concatenation |
| JsValues.TrimStartSpec | app.js:890 | `trimStart` drops exactly a leading run of white space: the result is a suffix of the input, and it is empty or starts with a non-space |
| JsValues.TrimEndSpec | app.js:890 | `trimEnd` drops exactly a trailing run of white space: the result is a prefix of the input, and it is empty or ends with a non-space |
| JsValues.TrimSpec | app.js:890 | `trim` gives a slice of the input with no white space at either end |
| JsValues.TrimOfWhitespace | app.js:890-891 | an all-white-space string trims to the empty string |
| JsValues.TrimPadding | app.js:890 | white-space padding on either side does not change the trimmed text |
| JsValues.ToNumberOrNull | app.js:880-897 | `toNumberOrNull` itself; its properties are stated by SanitiseCases, SafeNumber, SanitiseIdempotent, CommaInsensitive, WhitespaceInsensitive, SanitiseCleaned and DecimalTextRoundTrip |
| JsValues.SanitiseCases | app.js:880-897 | null, undefined, non-finite numbers and other types give null; a finite number gives itself; a string that is blank once commas are removed gives null |
| JsValues.SafeNumber | app.js:899-902 | the sanitised number, with null read as 0 |
| JsValues.SanitiseIdempotent | app.js:880-897 | sanitising the sanitised value again changes nothing |
| JsValues.CommaInsensitive | app.js:890 | a comma anywhere in a string does not change the number it reads as |
| JsValues.WhitespaceInsensitive | app.js:890 | surrounding white space does not change the number a string reads as |
| JsValues.SanitiseCleaned | app.js:889-894 | a string whose cleaned text is non-empty reads as `Number(cleaned)` when that is finite, otherwise null |
| JsValues.StringToNumber | app.js:892 | `Number()` on a string; its properties are stated by DecimalParse, DigitsToNumber, LetterRejected and SanitiseGroupedExample |
| JsValues.ToNumber | app.js:1972 | `Number()` on a property value: null is 0, undefined and other types are NaN, strings go through StringToNumber; LoadProgress.PositiveAmount states which values it accepts |
| JsValues.DecimalParse | app.js:892 | `digits.digits` parses to the integer part plus the fraction |
| JsValues.DigitsToNumber | app.js:892 | a string of digits converts to its integer value |
| JsValues.DecimalTextRoundTrip | app.js:880-897 | every natural number written in decimal sanitises back to itself |
| JsValues.SanitiseGroupedExample | app.js:890-893 | "1,234.5" sanitises to 1234.5 |
| JsValues.LetterRejected | app.js:892-893 | a string starting with a letter (other than the I of "Infinity") sanitises to null |
| JsValues.SanitiseRejectsExamples | app.js:891-893 | "" and "abc" sanitise to null |
| Extractors.CalculateBandStats | app.js:904-913 | each of the nine band values is the sanitised property with null read as 0, and the total is their sum |
| Extractors.BandStatsOf | app.js:904-913 | the band statistics as a value; CalculateBandStats proves the loop equal to it, and BandPercentsSumTo100 and BandStatsIgnoreOtherKeys state its properties |
| Extractors.GetBandPercent | app.js:926-928 | 0 when the total is ≤ 0, otherwise the value's share of the total times 100 |
| Extractors.BandPercentBounds | app.js:926-928 | a value between 0 and a positive total gives a percentage between 0 and 100 |
| Extractors.SumOfPercents | app.js:926-928 | the percentages of a list, times the total, sum to 100 times the list's sum |
| Extractors.BandPercentsSumTo100 | app.js:904-928 | with a positive total, the nine band percentages sum to exactly 100 |
| Extractors.BandStatsIgnoreOtherKeys | app.js:904-913 | properties outside the nine band keys do not affect the band statistics |
| Extractors.CalculateEstimatedRevenue | app.js:915-924 | the loop's total equals the specified revenue and is never negative |
| Extractors.EstimatedRevenue | app.js:915-924 | the revenue as a value; its properties are stated by RevenueClosedForm, RevenueNonNegative, RevenueMonotone, RevenueMonotoneInTier and RevenueZeroWithoutPositiveCounts |
| Extractors.RevenueClosedForm | app.js:915-924 | the revenue is 2500·c1 + 3500·c2 + 5000·c3 + 7500·c4, where each count's non-positive or missing value reads as 0 |
| Extractors.RevenueNonNegative | app.js:915-924 | the revenue is ≥ 0 |
| Extractors.RevenueMonotone | app.js:915-924 | larger positive counts in every tier never give less revenue |
| Extractors.RevenueMonotoneInTier | app.js:915-924 | raising one tier's count never lowers the revenue |
| Extractors.RevenueZeroWithoutPositiveCounts | app.js:915-924 | with no positive count in any tier the revenue is 0 |
| Extractors.GetHousePriceInfo | app.js:996-1002 | the three sanitised price fields; Resolver.HousePriceAgreement states how the resolver reads them |
| Extractors.GetTransactionInfo | app.js:1004-1021 | the sanitised counts and the revenue; TransactionInfoFaithful states both |
| Extractors.TransactionInfoFaithful | app.js:1004-1021 | the transaction read-out's revenue equals the revenue of the raw properties, and each count field is the sanitised property |
| Resolver.ParseDataset | app.js:85-91 | only the five dataset keys are accepted, and an accepted key names its dataset |
| Resolver.DatasetKeyRoundTrip | app.js:85-91 | each dataset's key parses back to it |
| Resolver.FindMetric | app.js:57-69 | the lookup returns the listed metric with that key, or none when no metric has it |
| Resolver.CountFieldsTracked | app.js:57-64 | every count metric reads a field the transaction read-out sanitises |
| Resolver.IndexOf | app.js:1244 | an index of the key, or none exactly when the key is absent |
| Resolver.GetMetricValue | app.js:1239-1270 | `getMetricValue` under an explicit selection; its value per dataset is stated by HousePriceAgreement, CouncilTaxResolution and TransactionValue |
| Resolver.HasDataForProps | app.js:1023-1049 | `hasDataForProps` under an explicit selection; its agreement with the metric value is stated by HousePriceAgreement, CouncilTaxResolution, TransactionAgreement and HasDataHasValue |
| Resolver.HousePriceAgreement | app.js:1247-1255 | for the two house-price datasets the metric value is the sanitised price field, and there is data exactly when there is a value |
| Resolver.CouncilTaxResolution | app.js:1241-1245 | for a listed band there is no value exactly when the band total is 0; otherwise the value is the band's percentage; there is data exactly when the total is > 0 |
| Resolver.TransactionAgreement | app.js:1036-1046 | for the transaction datasets there is data exactly when the metric value is present and positive |
| Resolver.TransactionValue | app.js:1257-1267 | an amount metric's value is the estimated revenue; a count metric's value is its sanitised count field |
| Resolver.HasDataHasValue | app.js:1023-1049 | for a listed band and metric, a feature with data always has a metric value |
| Resolver.CouncilTaxExample | app.js:1241-1245 | bands A = 10 and D = 40 give band D a value of 80% |
| Classifier.Insert | app.js:1290 | inserting into a sorted list keeps it sorted and adds exactly that element |
| Classifier.Sort | app.js:1290 | the result is sorted ascending and is a permutation of the input |
| Classifier.SortMembers | app.js:1290 | sorting keeps the length and the members |
| Classifier.Dedupe | app.js:1304 | the result has the same members as the input, with no repeats; DedupeOrder states that they keep the order of first occurrence |
| Classifier.DedupeOrder | app.js:1304 | `[...new Set(s)]` lists each element in the order of its first occurrence in s |
| Classifier.DedupeSorted | app.js:1304 | deduplicating a sorted list gives a strictly increasing one with the same first and last element |
| Classifier.QuantileIndex | app.js:1297-1301 | each quantile index lies inside the values |
| Classifier.QuantileIndexMonotone | app.js:1297-1301 | later quantiles pick later indices |
| Classifier.MetricValues | app.js:1287-1289 | the collected values are exactly the finite metric values of the features |
| Classifier.MetricValuesAppend | app.js:1287-1289 | collecting over two lists of features is collecting over each, so the values keep the features' order and multiplicity |
| Classifier.MetricValuesSingle | app.js:1287-1289 | one feature contributes its value when it has one, and nothing otherwise |
| Classifier.QuantilePicks | app.js:1294-1302 | six picks: five quantiles and the maximum |
| Classifier.QuantilePicksSorted | app.js:1294-1302 | on sorted values the picks are sorted, start at the minimum, end at the maximum and are all values |
| Classifier.PushQuantilePicks | app.js:1294-1302 | the loop pushes exactly the specified picks |
| Classifier.ComputeBreaks | app.js:1272-1305 | the method returns the specified breaks |
| Classifier.Breaks | app.js:1272-1305 | `computeBreaks` as a value; its properties are stated by MansionTaxBreaks, NoValuesNoBreaks and BreaksShape |
| Classifier.BreaksOfValues | app.js:1287-1304 | the quantile breaks of a list of values; BreaksOfValuesShape states their shape |
| Classifier.MansionTaxBreaks | app.js:1273-1283 | the mansion-tax dataset gets [0, 50, 100, 300, 1000, 5000] for count metrics and [0, 100000, 300000, 500000, 1000000, 10000000] for the amount metric, whatever the features |
| Classifier.NoValuesNoBreaks | app.js:1285-1292 | no data, or no feature with a finite value, gives no breaks |
| Classifier.BreaksOfValuesShape | app.js:1287-1304 | breaks are strictly increasing, one to six of them, each a value, spanning from the smallest value to the largest |
| Classifier.BreaksShape | app.js:1272-1305 | with at least one finite metric value, the breaks are strictly increasing, there are one to six of them, each is a metric value, and they span all values |
| Classifier.ScanDown | app.js:1416-1420 | the downward scan stops at the highest break the value reaches, or finds none when the value is below them all |
| Classifier.RampIndex | app.js:1416-1421 | the colour index is always inside the six-colour ramp |
| Classifier.RampIndexSpec | app.js:1416-1421 | below every break gives colour 0; otherwise the index is the highest break reached, capped at 5 |
| Classifier.RampIndexMonotone | app.js:1413-1422 | a larger value never gets a lower colour class |
| Classifier.BreakGetsItsClass | app.js:1413-1422 | with strictly increasing breaks, a break's own value gets its own class, capped at 5 |
| Classifier.GetColor | app.js:1413-1422 | the neutral grey exactly when there are fewer than two breaks; otherwise a ramp colour |
| Classifier.Style | app.js:1424-1449 | a feature is non-interactive and unfilled exactly when it has no metric value; otherwise it is filled with its class colour |
| GlobalMaxima.Raise | app.js:1320-1322 | the running maximum never decreases, covers the new value, and is the old maximum or the new value |
| GlobalMaxima.ComputeGlobalStatMaximums | app.js:1307-1341 | without data nothing changes; otherwise the four maxima of the features' fields |
| GlobalMaxima.FieldMaxIsMaximum | app.js:1310-1338 | a field's maximum is ≥ 0, ≥ every finite value of the field, and either 0 or one of those values |
| GlobalMaxima.MaximumsAreMaxima | app.js:1307-1341 | each of the four maxima (price, change, transactions, surcharge properties) is ≥ 0, ≥ every finite value of its field, and either 0 or one of those values |
| GlobalMaxima.FieldMaxSkipsMissing | app.js:1319-1337 | a feature without a finite value for the field leaves its maximum unchanged |
| GlobalMaxima.FieldMaxNonPositive | app.js:1310-1338 | when no value is positive the maximum stays at its seed 0 |
| GlobalMaxima.PriceMaximumExample | app.js:1319-1322 | prices 500000, 750000 and null give the maximum 750000 |
| PlaceZoom.Pow2Step | app.js:1997 | successive powers of two double |
| PlaceZoom.FloorLog2 | app.js:1997 | `Math.floor(Math.log2(r))` is the z with 2^z ≤ r < 2^(z+1) |
| PlaceZoom.FloorLog2Unique | app.js:1997 | there is only one such z |
| PlaceZoom.Pow2Increasing | app.js:1997 | powers of two increase strictly |
| PlaceZoom.FirstNonEmpty | app.js:2004-2008 | the first text that is present and non-empty, else "", as JavaScript's short-circuit "or" picks it |
| PlaceZoom.LookupZoom | app.js:100-173 | a listed key gets its table entry's zoom; an unlisted key gets none |
| PlaceZoom.TableZoom | app.js:2005-2011 | the empty key never matches; otherwise as the lookup |
| PlaceZoom.GetPlaceBounds | app.js:1968-1982 | a box exactly when there are four finite coordinates, normalised so south ≤ north and west ≤ east |
| PlaceZoom.BoundsSpan | app.js:1974-1981 | the normalised box has the given coordinates as its edges, in either order |
| PlaceZoom.SpanZoomFits | app.js:1992-2000 | the box zoom z satisfies 2^z · span ≤ 360 < 2^(z+1) · span |
| PlaceZoom.BoxFirst | app.js:1990-2002 | a usable box with a positive span decides the zoom, at the level where the span fits |
| PlaceZoom.TablePrecedence | app.js:2004-2030 | without a box: the type table first, then the class table, then the rank ladder, then 15 |
| PlaceZoom.SuggestedZoom | app.js:1984-2031 | `getSuggestedZoomForPlace`; its precedence is stated by BoxFirst, TablePrecedence and UnlistedTypeSkipsAddressType, with BoxExample and RankAndFallbackExample as instances |
| PlaceZoom.RankZoomMonotone | app.js:2013-2028 | the rank ladder stays within 4..17 and is non-decreasing in rank |
| PlaceZoom.RankZoom | app.js:2013-2028 | the `place_rank` ladder; RankZoomMonotone states its range and order |
| PlaceZoom.UnlistedTypeSkipsAddressType | app.js:2004-2007 | a present type that is not in the table shadows the address type, and the class table is consulted next |
| PlaceZoom.SafeZoom | app.js:1956 | the clamped zoom lies within the map's limits and is the suggestion when that already lies within them |
| PlaceZoom.BoxExample | app.js:1990-2000 | a 1.40625° × 1° box gives zoom 8 |
| PlaceZoom.RankAndFallbackExample | app.js:2013-2030 | rank 16 gives zoom 10; no box, type, class or rank gives 15 |
| Selection.SelectionState.View | app.js:204-206 | a valid selection resolves with a listed band and metric |
| Selection.SelectionState.constructor | app.js:204-207 | starts on the postcode dataset, band H and estimated revenue, with no postcode selected |
| Selection.SelectionState.OnMetricChange | app.js:2246-2258 | council tax accepts only listed bands and the mansion-tax dataset only listed metrics; every other case changes nothing; the display refreshes exactly when a value was stored |
| Selection.SelectionState.OnDatasetChange | app.js:2266-2282 | an unknown dataset changes nothing; mansion tax resets the metric to estimated revenue, other datasets keep a listed metric; leaving the postcode dataset clears the selected postcode |
| Selection.ReachableSelectionsResolve | app.js:2246-2282 | for every selection the handlers can produce, a feature with data has a metric value |
| Search.FilterMatches | app.js:1718-1719 | exactly the entries whose search key includes the query, and nothing else |
| Search.FilterAppend | app.js:1718-1719 | filtering keeps index order |
| Search.LocalMatches | app.js:1718-1720 | at most eight results, all matching, forming a prefix of all matches in index order; all matches when there are at most eight |
| Search.LocalMatchesPrefix | app.js:1718-1720 | extending the index never drops or reorders earlier results |
| Search.Query | app.js:1710 | `term.trim().toLowerCase()`; its parts are stated by JsValues.TrimSpec and JsValues.ToLowerAscii |
| Search.SearchCursor.constructor | app.js:200-202 | no results and no highlight |
| Search.SearchCursor.UpdateSearchResults | app.js:1710-1728 | the highlight resets; a blank query gives no results, otherwise the local matches of the trimmed, lower-cased query |
| Search.SearchCursor.ClearSearchResults | app.js:2049-2051 | no results and no highlight |
| Search.SearchCursor.MoveActiveResult | app.js:1906-1915 | nothing happens without results; from no highlight a step forward goes to the first result and a step back to the last; otherwise the highlight moves cyclically, staying on a result |
| Search.SearchCursor.ActiveResult | app.js:1918-1923 | the highlighted result, else the first one, and a result exactly when there are results |
| Search.JsRemainder | app.js:1912 | JavaScript's `%`: the result differs from the dividend by a multiple of the divisor, has the dividend's sign (non-negative for a ≥ 0, non-positive for a < 0) and is smaller in magnitude than the divisor |
| Search.NextIndex | app.js:1906-1913 | the cursor position after a move; its behaviour is stated by StepDown, StepUp, DownThenUp, UpThenDown, StepsDown and FullCycle |
| Search.StepDown | app.js:1906-1915 | a step down moves to the next result, and from the last back to the first |
| Search.StepUp | app.js:1906-1915 | a step up moves to the previous result, and from the first round to the last |
| Search.DownThenUp | app.js:1906-1915 | down then up returns to the same result |
| Search.UpThenDown | app.js:1906-1915 | up then down returns to the same result |
| Search.StepsDown | app.js:1906-1915 | k ≤ n steps down from result i land on i + k, wrapping once |
| Search.FullCycle | app.js:1906-1915 | n steps down over n results return to the start |
| LoadProgress.Displayed | app.js:317-324 | the displayed percentage is clamped to [0, 100] and left alone inside it |
| LoadProgress.BytePercent | app.js:326-333 | the byte-mode percentage; BytePercentBounds, BytePercentMonotone and BytePercentFull state its properties |
| LoadProgress.StepPercent | app.js:343-349 | the step-mode percentage; StepPercentValues states its values |
| LoadProgress.BytePercentBounds | app.js:326-333 | the byte-based percentage stays within [5, 90] |
| LoadProgress.BytePercentMonotone | app.js:326-333 | more counted bytes never lower the percentage |
| LoadProgress.BytePercentFull | app.js:326-333 | with at least one expected byte, the expected count fills the bar to 90 |
| LoadProgress.StepPercentValues | app.js:343-349 | zero, one and two completed steps show 5, 47.5 and 90, non-decreasing |
| LoadProgress.PositiveAmount | app.js:374-375 | an amount is accepted exactly when `Number(x)` is finite and positive, and then it is that number |
| LoadProgress.ManifestBytes | app.js:372-375 | a manifest entry's size, when accepted, is positive |
| LoadProgress.ManifestTotal | app.js:365-381 | the summed manifest sizes; ManifestTotalPositive states its sign |
| LoadProgress.HintsAfter | app.js:371-379 | the size hints after the manifest; HintsAfterSet, HintsAfterOthers and HintsAfterNonNegative state them |
| LoadProgress.ManifestTotalPositive | app.js:365-381 | the manifest total is ≥ 0, and > 0 exactly when some listed dataset has a valid size |
| LoadProgress.HintsAfterSet | app.js:371-379 | each listed dataset's hint becomes its manifest size when it has one, otherwise it is left as it was |
| LoadProgress.HintsAfterOthers | app.js:371-379 | hints of other URLs are untouched |
| LoadProgress.HintsAfterNonNegative | app.js:371-379 | size hints stay non-negative |
| LoadProgress.ReadManifestSizes | app.js:365-379 | the loop computes the specified total and hints |
| LoadProgress.ProgressState.constructor | app.js:239-248 | step mode, nothing counted, both hints 0, bar at 5 |
| LoadProgress.ProgressState.UpdateByteProgress | app.js:326-333 | in byte mode the bar shows the byte percentage; otherwise it is untouched |
| LoadProgress.ProgressState.RecordBytesLoaded | app.js:335-341 | in byte mode a finite positive amount is added, capped at max(expected, 1); the loaded count and the bar never go down |
| LoadProgress.ProgressState.MarkDatasetStepComplete | app.js:343-349 | in step mode the step count rises, capped at 2, and the bar shows its step percentage; byte mode changes nothing |
| LoadProgress.ProgressState.FinalizeDatasetProgress | app.js:351-360 | in byte mode, when the size hint is finite and exceeds the bytes this dataset read, the shortfall is recorded as loaded bytes (added to the running total, capped at max(expected, 1)), and otherwise nothing changes; in step mode a step completes; the bar never goes down |
| LoadProgress.ProgressState.ApplyDataManifest | app.js:362-387 | hints take the manifest sizes; a positive total switches to byte mode with that expected total and nothing loaded; otherwise the mode and counts stay |
| LoadProgress.ProgressState.AddSyntheticBytes | app.js:419-429 | adds at most the requested amount and never past the expected total; returns the increment; the bar never goes down |
| LoadProgress.ProgressState.RemoveSyntheticBytes | app.js:431-440 | removes at most the requested amount and never more than was added; returns the decrement; the bar never goes up |
| DisplayScales.PostcodeMarkerSize | app.js:1394-1396 | 50 exactly above 25 sales, 36 exactly at or below 10, otherwise 42 |
| DisplayScales.ClusterMarkerSize | app.js:1406-1411 | 80 exactly above 200, 68 above 100, 58 above 50, and 48 exactly at or below 50 |
| DisplayScales.MarkerSizesMonotone | app.js:1394-1411 | both marker sizes are non-decreasing in the count |
| DisplayScales.BarRatio | app.js:648-663 | a bar exactly when the value is finite and the maximum finite and positive |
| DisplayScales.BarRatioBounds | app.js:662-663 | the ratio lies within [0, 100]; non-positive values give 0, values at or above the maximum give 100 |
| DisplayScales.BarRatioMonotone | app.js:662-663 | a larger value never gives a shorter bar |
| DisplayScales.BarRatioProportional | app.js:662-663 | between 0 and the maximum the bar is proportional to the value |

## Left out

- Floating point: numbers are exact reals. Rounding is not modelled, and neither is overflow to Infinity. In JavaScript, `360 / span` can overflow for a subnormal span; the code then falls through to the tables, while the model always takes the box zoom.
- Classifier.QuantileIndex: the index is the exact integer `(i·(n−1)) div 5`. The source computes `Math.floor(i/5·(n−1))` in floating point, which can differ only through rounding.
- JsValues.ToNumber: `Number()` is modelled for decimal literals with an optional sign, the empty string and "Infinity". Hexadecimal, binary, octal and exponent literals ("0x1F", "1e3") read as NaN. Booleans are grouped with other non-numeric types and read as NaN.
- JsValues.ToLowerAscii: `toLowerCase` is modelled for ASCII letters only.
- The `percents` branches of `hasDataForProps` and `getMetricValue` (app.js:1047-1048, 1268-1269) are unreachable: every transaction metric has type count or amount.
- Table lookups ignore keys inherited from `Object.prototype` ("constructor" and the like), which JavaScript would find on the plain-object tables.
- Non-string `type` or `class` fields of a place, on which `toLowerCase` throws, are not modelled. A place's text fields are strings or absent.
- `feature.properties || {}` and the default `props = {}` are modelled by passing a property map directly.
- Resolver.GetMetricValue: a band key outside the nine gives NaN in JavaScript. The model gives no value, which every caller treats in the same way as NaN.
- A manifest that is not an object, or has no `datasets` object, is modelled as an empty `datasets` map. `applyDataManifest` then changes nothing.
- The postcode-dataset search (`updatePostcodeSearchResults`, app.js:1752-1790) is left out. It covers geocoding requests, debounce timers and postcode index lookups, which are asynchronous and network-bound. `buildSearchIndex` and `buildPostcodeIndex` are also left out; the model takes the index as given.
- `startSyntheticProgress` and `stopSyntheticProgress` (app.js:442-493) are driven by timers and `Math.random`. Only the synthetic byte counters they call are modelled.
- Selection.SelectionState.OnDatasetChange: the search results are cleared by Search.SearchCursor.ClearSearchResults, a separate object; the model does not chain the two calls.
- `finishInitialLoading`, which sets the bar to 100 and dismisses the overlay, is DOM work and is not modelled.
- `setLoadingProgress` treats NaN as 0. Every percentage the model passes it is finite, so that case never arises.
- DOM updates, Leaflet layers and controls, `fetch` and streamed reads, the formatters, the tooltip and info-panel HTML, the legend's `1e-9` epsilon and the Python data-preparation scripts are outside the core.
- LoadProgress.ProgressState.ApplyDataManifest: it does not reset the synthetic bytes, as in the source. The loaded plus synthetic bytes are therefore guaranteed to stay within the expected total only right after an addition, not as a standing invariant.
