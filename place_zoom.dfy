/** Zoom level for a geocoded place: its bounding box (getPlaceBounds), the
    suggested zoom (getSuggestedZoomForPlace) and the clamp to the map's zoom
    limits applied by focusOnExternalLocation. */
module PlaceZoom {
  import opened JsValues

  // ---------------------------------------------------------------------
  // Powers of two and floor(log2 r) over the reals
  // ---------------------------------------------------------------------

  function Pow2Nat(n: nat): (r: real)
    ensures r >= 1.0
  {
    if n == 0 then 1.0 else 2.0 * Pow2Nat(n - 1)
  }

  /** 2^z for any integer z. */
  function Pow2(z: int): (r: real)
    ensures r > 0.0
  {
    if z >= 0 then Pow2Nat(z) else 1.0 / Pow2Nat(-z)
  }

  lemma Pow2Step(z: int)
    ensures Pow2(z + 1) == 2.0 * Pow2(z)
  {
    if z < -1 {
      var p := Pow2Nat(-z - 1);
      assert Pow2Nat(-z) == 2.0 * p;
      assert Pow2(z) == 1.0 / (2.0 * p);
      assert 2.0 * (1.0 / (2.0 * p)) == 1.0 / p;
    }
  }

  /** z is floor(log2 r): 2^z <= r < 2^(z+1). */
  predicate IsFloorLog2(z: int, r: real) {
    Pow2(z) <= r < Pow2(z + 1)
  }

  lemma HalfFloorSmaller(r: real)
    requires r >= 2.0
    ensures (r / 2.0).Floor < r.Floor
  {
    assert (r / 2.0).Floor as real <= r / 2.0;
    assert r < r.Floor as real + 1.0;
  }

  lemma DoubleReciprocalSmaller(r: real)
    requires 0.0 < r && 2.0 * r < 1.0
    ensures (1.0 / (2.0 * r)).Floor < (1.0 / r).Floor
  {
    var a := 1.0 / r;
    assert a > 2.0;
    assert 1.0 / (2.0 * r) == a / 2.0;
    HalfFloorSmaller(a);
  }

  /** floor(log2 r) for r >= 1, halving until below 2. */
  function FloorLog2Up(r: real): (z: nat)
    requires r >= 1.0
    ensures IsFloorLog2(z, r)
    decreases r.Floor
  {
    if r < 2.0 then 0
    else
      HalfFloorSmaller(r);
      var z := FloorLog2Up(r / 2.0);
      Pow2Step(z);
      Pow2Step(z + 1);
      z + 1
  }

  /** floor(log2 r) for 0 < r < 1, doubling until at least 1/2. */
  function FloorLog2Down(r: real): (z: int)
    requires 0.0 < r < 1.0
    ensures z < 0 && IsFloorLog2(z, r)
    decreases (1.0 / r).Floor
  {
    Pow2Step(-1);
    if 2.0 * r >= 1.0 then -1
    else
      DoubleReciprocalSmaller(r);
      var z := FloorLog2Down(2.0 * r);
      Pow2Step(z - 1);
      Pow2Step(z);
      z - 1
  }

  /** Math.floor(Math.log2(r)) for r > 0. */
  function FloorLog2(r: real): (z: int)
    requires r > 0.0
    ensures IsFloorLog2(z, r)
  {
    if r >= 1.0 then FloorLog2Up(r) else FloorLog2Down(r)
  }

  // ---------------------------------------------------------------------
  // Place records and lookup tables
  // ---------------------------------------------------------------------

  /** The fields of a geocoder result that the zoom heuristic reads.
      `boundingbox` is None when the field is not an array; the text fields
      are None when absent or null. */
  datatype Place = Place(
    boundingbox: Option<seq<Value>>,
    placeType: Option<string>,
    addresstype: Option<string>,
    placeClass: Option<string>,
    category: Option<string>,
    placeRank: Value)

  /** An entry of a zoom lookup table. */
  datatype ZoomEntry = ZoomEntry(key: string, zoom: int)

  /** PLACE_TYPE_ZOOMS. */
  const PLACE_TYPE_ZOOMS: seq<ZoomEntry> := [
    ZoomEntry("continent", 4), ZoomEntry("ocean", 4), ZoomEntry("sea", 5), ZoomEntry("archipelago", 7), ZoomEntry("country", 6),
    ZoomEntry("state", 8), ZoomEntry("province", 8), ZoomEntry("region", 8), ZoomEntry("state_district", 9), ZoomEntry("district", 10),
    ZoomEntry("county", 10), ZoomEntry("municipality", 11), ZoomEntry("borough", 12), ZoomEntry("city", 12), ZoomEntry("city_district", 13),
    ZoomEntry("town", 13), ZoomEntry("village", 14), ZoomEntry("hamlet", 15), ZoomEntry("suburb", 15), ZoomEntry("neighbourhood", 16),
    ZoomEntry("neighborhood", 16), ZoomEntry("locality", 16), ZoomEntry("quarter", 15), ZoomEntry("postcode", 16), ZoomEntry("postal_code", 16),
    ZoomEntry("road", 17), ZoomEntry("street", 17), ZoomEntry("residential", 17), ZoomEntry("track", 17), ZoomEntry("footway", 17),
    ZoomEntry("path", 17), ZoomEntry("service", 17), ZoomEntry("motorway", 15), ZoomEntry("trunk", 15), ZoomEntry("primary", 15),
    ZoomEntry("secondary", 16), ZoomEntry("tertiary", 16), ZoomEntry("airport", 13), ZoomEntry("aerodrome", 13), ZoomEntry("railway", 16),
    ZoomEntry("station", 16), ZoomEntry("platform", 17), ZoomEntry("bus_stop", 17), ZoomEntry("tram_stop", 17), ZoomEntry("industrial", 17),
    ZoomEntry("commercial", 17), ZoomEntry("retail", 17), ZoomEntry("park", 14), ZoomEntry("forest", 12), ZoomEntry("island", 10),
    ZoomEntry("lake", 10), ZoomEntry("harbour", 14), ZoomEntry("address", 18), ZoomEntry("building", 18), ZoomEntry("house", 18),
    ZoomEntry("apartments", 18)
  ]

  /** PLACE_CLASS_ZOOMS. */
  const PLACE_CLASS_ZOOMS: seq<ZoomEntry> := [
    ZoomEntry("boundary", 9), ZoomEntry("place", 12), ZoomEntry("natural", 10), ZoomEntry("landuse", 13), ZoomEntry("leisure", 14),
    ZoomEntry("waterway", 12), ZoomEntry("aeroway", 13), ZoomEntry("highway", 17), ZoomEntry("railway", 16), ZoomEntry("amenity", 17),
    ZoomEntry("tourism", 16), ZoomEntry("shop", 17), ZoomEntry("office", 17)
  ]

  /** The zoom used when nothing else applies. */
  const FALLBACK_ZOOM: int := 15

  /** `a || b || ""` over optional strings: the empty string is falsy. */
  function FirstNonEmpty(a: Option<string>, b: Option<string>): (r: string)
    ensures a.Some? && a.value != "" ==> r == a.value
    ensures (a.None? || a.value == "") ==> r == (if b.Some? then b.value else "")
  {
    if a.Some? && a.value != "" then a.value
    else if b.Some? then b.value
    else ""
  }

  /** The zoom a table lists for `key`. */
  function LookupZoom(table: seq<ZoomEntry>, key: string): (r: Option<int>)
    ensures r.Some? ==> exists i :: 0 <= i < |table| && table[i] == ZoomEntry(key, r.value)
    ensures r.None? ==> forall i :: 0 <= i < |table| ==> table[i].key != key
  {
    if table == [] then None
    else if table[0].key == key then Some(table[0].zoom)
    else
      var r := LookupZoom(table[1..], key);
      assert forall i :: 0 <= i < |table| - 1 ==> table[1..][i] == table[i + 1];
      r
  }

  /** `key && TABLE[key]`: None when the key is empty or not listed (every
      listed zoom is non-zero, so a listed key is always truthy). */
  function TableZoom(table: seq<ZoomEntry>, key: string): (r: Option<int>)
    ensures r.Some? ==> key != "" && exists i :: 0 <= i < |table| && table[i] == ZoomEntry(key, r.value)
    ensures r.None? ==> key == "" || forall i :: 0 <= i < |table| ==> table[i].key != key
  {
    if key == "" then None else LookupZoom(table, key)
  }

  // ---------------------------------------------------------------------
  // getPlaceBounds
  // ---------------------------------------------------------------------

  /** A normalised bounding box: south <= north and west <= east. */
  datatype Bounds = Bounds(south: real, west: real, north: real, east: real)

  /** Whether a bounding box is four entries that all convert to finite numbers. */
  predicate UsableBox(bb: seq<Value>) {
    |bb| == 4 && ToNumber(bb[0]).Finite? && ToNumber(bb[1]).Finite? && ToNumber(bb[2]).Finite? && ToNumber(bb[3]).Finite?
  }

  /** getPlaceBounds: the box `[south, north, west, east]` as given by the
      geocoder, normalised with min/max; None when the box is missing, of
      the wrong length or has an entry that is not a finite number.  `place`
      is None for a missing place. */
  function GetPlaceBounds(place: Option<Place>): (r: Option<Bounds>)
    ensures r.Some? <==> place.Some? && place.value.boundingbox.Some? && UsableBox(place.value.boundingbox.value)
    ensures r.Some? ==> r.value.south <= r.value.north && r.value.west <= r.value.east
  {
    if place.None? || place.value.boundingbox.None? then None
    else
      var bb := place.value.boundingbox.value;
      if !UsableBox(bb) then None
      else
        var south := ToNumber(bb[0]).x;
        var north := ToNumber(bb[1]).x;
        var west := ToNumber(bb[2]).x;
        var east := ToNumber(bb[3]).x;
        Some(Bounds(Min(south, north), Min(west, east), Max(south, north), Max(west, east)))
  }

  /** The normalised box spans exactly the distances between the given
      coordinates, whichever order they came in. */
  lemma BoundsSpan(place: Option<Place>)
    requires GetPlaceBounds(place).Some?
    ensures var b := GetPlaceBounds(place).value;
      var bb := place.value.boundingbox.value;
      && b.north - b.south == Max(ToNumber(bb[0]).x, ToNumber(bb[1]).x) - Min(ToNumber(bb[0]).x, ToNumber(bb[1]).x)
      && {b.south, b.north} == {ToNumber(bb[0]).x, ToNumber(bb[1]).x}
      && {b.west, b.east} == {ToNumber(bb[2]).x, ToNumber(bb[3]).x}
  {
  }

  /** The larger side of a box: max(|north - south|, |east - west|). */
  function Span(b: Bounds): real {
    Max(b.north - b.south, b.east - b.west)
  }

  /** Math.floor(Math.log2(360 / span)). */
  function SpanZoom(span: real): (z: int)
    requires span > 0.0
  {
    FloorLog2(360.0 / span)
  }

  /** At zoom z a span fits: 2^z * span <= 360 < 2^(z+1) * span, so z is the
      deepest zoom at which the whole span fits in 360 degrees. */
  predicate FitsAtZoom(z: int, span: real) {
    Pow2(z) * span <= 360.0 < Pow2(z + 1) * span
  }

  /** The box zoom is the integer z at which the span fits. */
  lemma SpanZoomFits(span: real)
    requires span > 0.0
    ensures FitsAtZoom(SpanZoom(span), span)
  {
    var r := 360.0 / span;
    QuotientTimesDivisor(360.0, span);
    FitsByRatio(span, r, FloorLog2(r));
  }

  lemma FitsByRatio(span: real, r: real, z: int)
    requires span > 0.0 && r * span == 360.0 && IsFloorLog2(z, r)
    ensures FitsAtZoom(z, span)
  {
    ScaleBetween(Pow2(z), r, Pow2(z + 1), span, 360.0);
  }

  /** 2^z grows strictly with z. */
  lemma {:induction false} Pow2Increasing(a: int, b: int)
    requires a < b
    ensures Pow2(a) < Pow2(b)
    decreases b - a
  {
    Pow2Step(a);
    if a + 1 < b {
      Pow2Increasing(a + 1, b);
    }
  }

  /** floor(log2 r) is unique: no two integers both satisfy its bounds. */
  lemma FloorLog2Unique(z: int, w: int, r: real)
    requires IsFloorLog2(z, r) && IsFloorLog2(w, r)
    ensures z == w
  {
    if z + 1 < w {
      Pow2Increasing(z + 1, w);
    } else if w + 1 < z {
      Pow2Increasing(w + 1, z);
    }
  }

  lemma QuotientTimesDivisor(a: real, b: real)
    requires b > 0.0
    ensures (a / b) * b == a
  {
  }

  lemma ScaleBetween(lo: real, r: real, hi: real, c: real, rc: real)
    requires lo <= r < hi && c > 0.0 && r * c == rc
    ensures lo * c <= rc < hi * c
  {
  }

  // ---------------------------------------------------------------------
  // The place_rank ladder
  // ---------------------------------------------------------------------

  /** Zoom from a Nominatim place_rank: coarser places (low rank) zoom out. */
  function RankZoom(rank: real): int {
    if rank >= 28.0 then 17
    else if rank >= 26.0 then 16
    else if rank >= 24.0 then 15
    else if rank >= 22.0 then 13
    else if rank >= 20.0 then 12
    else if rank >= 18.0 then 11
    else if rank >= 16.0 then 10
    else if rank >= 14.0 then 9
    else if rank >= 12.0 then 8
    else if rank >= 10.0 then 7
    else if rank >= 8.0 then 6
    else if rank >= 6.0 then 5
    else 4
  }

  /** The ladder stays within 4..17 and never zooms out as the rank grows. */
  lemma RankZoomMonotone(a: real, b: real)
    requires a <= b
    ensures 4 <= RankZoom(a) <= RankZoom(b) <= 17
  {
  }

  // ---------------------------------------------------------------------
  // getSuggestedZoomForPlace
  // ---------------------------------------------------------------------

  /** The lower-cased type the type table is consulted with. */
  function TypeKey(p: Place): string {
    ToLowerAscii(FirstNonEmpty(p.placeType, p.addresstype))
  }

  /** The lower-cased class the class table is consulted with. */
  function ClassKey(p: Place): string {
    ToLowerAscii(FirstNonEmpty(p.placeClass, p.category))
  }

  /** Whether the bounding box decides the zoom: it is usable and has a
      positive span. */
  predicate BoxDecides(place: Option<Place>) {
    GetPlaceBounds(place).Some? && Span(GetPlaceBounds(place).value) > 0.0
  }

  /** getSuggestedZoomForPlace. */
  function SuggestedZoom(place: Option<Place>): int {
    if place.None? then FALLBACK_ZOOM
    else if BoxDecides(place) then SpanZoom(Span(GetPlaceBounds(place).value))
    else
      var p := place.value;
      var byType := TableZoom(PLACE_TYPE_ZOOMS, TypeKey(p));
      if byType.Some? then byType.value
      else
        var byClass := TableZoom(PLACE_CLASS_ZOOMS, ClassKey(p));
        if byClass.Some? then byClass.value
        else
          var rank := ToNumber(p.placeRank);
          if rank.Finite? then RankZoom(rank.x) else FALLBACK_ZOOM
  }

  /** First precedence: a usable box with a positive span gives the zoom at
      which the span fits. */
  lemma BoxFirst(place: Option<Place>)
    requires BoxDecides(place)
    ensures FitsAtZoom(SuggestedZoom(place), Span(GetPlaceBounds(place).value))
  {
    var span := Span(GetPlaceBounds(place).value);
    assert SuggestedZoom(place) == SpanZoom(span);
    SpanZoomFits(span);
  }

  /** Then the type table, then the class table, then the rank ladder, then
      the fallback 15. */
  lemma TablePrecedence(p: Place)
    requires !BoxDecides(Some(p))
    ensures TableZoom(PLACE_TYPE_ZOOMS, TypeKey(p)).Some? ==>
      SuggestedZoom(Some(p)) == TableZoom(PLACE_TYPE_ZOOMS, TypeKey(p)).value
    ensures TableZoom(PLACE_TYPE_ZOOMS, TypeKey(p)).None? && TableZoom(PLACE_CLASS_ZOOMS, ClassKey(p)).Some? ==>
      SuggestedZoom(Some(p)) == TableZoom(PLACE_CLASS_ZOOMS, ClassKey(p)).value
    ensures TableZoom(PLACE_TYPE_ZOOMS, TypeKey(p)).None? && TableZoom(PLACE_CLASS_ZOOMS, ClassKey(p)).None? ==>
      SuggestedZoom(Some(p)) == (if ToNumber(p.placeRank).Finite? then RankZoom(ToNumber(p.placeRank).x) else FALLBACK_ZOOM)
  {
  }

  /** A type that is present but unlisted does not fall back to the address
      type: whatever the address type, the class table decides next. */
  lemma UnlistedTypeSkipsAddressType(p: Place, other: Option<string>)
    requires !BoxDecides(Some(p))
    requires p.placeType.Some? && p.placeType.value != ""
    ensures SuggestedZoom(Some(p.(addresstype := other))) == SuggestedZoom(Some(p))
  {
    var q := p.(addresstype := other);
    assert TypeKey(q) == TypeKey(p);
    assert GetPlaceBounds(Some(q)) == GetPlaceBounds(Some(p));
  }

  // ---------------------------------------------------------------------
  // The clamp in focusOnExternalLocation
  // ---------------------------------------------------------------------

  /** `Math.max(minZoom, Math.min(suggested, maxZoom))`. */
  function SafeZoom(suggested: int, minZoom: int, maxZoom: int): (z: int)
    ensures minZoom <= maxZoom ==> minZoom <= z <= maxZoom
    ensures minZoom <= suggested <= maxZoom ==> z == suggested
  {
    var capped := if suggested <= maxZoom then suggested else maxZoom;
    if minZoom >= capped then minZoom else capped
  }

  // ---------------------------------------------------------------------
  // Worked examples
  // ---------------------------------------------------------------------

  /** A box 1.40625 degrees tall (360 / 256) suggests zoom 8. */
  lemma BoxExample(p: Place)
    requires p == Place(Some([VNum(Finite(51.0)), VNum(Finite(52.40625)), VNum(Finite(-1.0)), VNum(Finite(0.0))]),
                        None, None, None, None, VUndefined)
    ensures SuggestedZoom(Some(p)) == 8
  {
    var b := GetPlaceBounds(Some(p));
    assert b == Some(Bounds(51.0, -1.0, 52.40625, 0.0));
    assert Span(b.value) == 1.40625;
    assert SuggestedZoom(Some(p)) == FloorLog2(360.0 / 1.40625);
    assert 360.0 / 1.40625 == 256.0;
    assert IsFloorLog2(8, 256.0);
    FloorLog2Unique(SuggestedZoom(Some(p)), 8, 256.0);
  }

  /** With neither box, type nor class, place_rank 16 suggests zoom 10, and
      without a rank the fallback is 15. */
  lemma RankAndFallbackExample(ranked: Place, bare: Place)
    requires ranked == Place(None, None, None, None, None, VNum(Finite(16.0)))
    requires bare == Place(None, None, None, None, None, VUndefined)
    ensures SuggestedZoom(Some(ranked)) == 10
    ensures SuggestedZoom(Some(bare)) == 15
  {
    assert ToLowerAscii("") == "";
  }
}
