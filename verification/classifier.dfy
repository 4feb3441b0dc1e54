/**
  One entry of a response: `extract_mac_address`, `process_map_info`,
  `process_geo_coordinate` and `process_mse_entry`.

  An entry is indexed when it has a `macAddress` member and at least one of
  `MapInfo` and `GeoCoordinate`. Its key is the `mac_from_str` of the address
  when that is a string, and 0 otherwise (the result of
  `extract_mac_address` is ignored and the node was zero-filled). It lands in
  exactly one of four localisation buckets, and a boolean `currentlyTracked`
  member bumps one of the two tracking counters.
 */
module Classifier {
  import opened Wrappers
  import opened Json
  import opened MacAddress
  import opened Hierarchy

  /** `struct rb_mse_api_pos`, without the latitude and longitude. */
  datatype Position = Position(
    levels: Levels,
    geoValid: bool,
    geoUnit: Option<string>,
    currentlyTracked: bool)

  /** `struct rb_mse_stats`: four localisation buckets and two tracking counters. */
  datatype Stats = Stats(
    mapLocalized: nat,
    geoLocalized: nat,
    mapAndGeoLocalized: nat,
    unlocalizable: nat,
    currentlyTracked: nat,
    notCurrentlyTracked: nat)

  /** The `memset(&stats, 0, ...)` a refresh cycle starts from. */
  const ZeroStats := Stats(0, 0, 0, 0, 0, 0)

  /** Where an indexed entry is counted. */
  datatype Bucket = Unlocalizable | GeoOnly | MapOnly | MapAndGeo

  predicate HasMap(b: Bucket) {
    b.MapOnly? || b.MapAndGeo?
  }

  predicate HasGeo(b: Bucket) {
    b.GeoOnly? || b.MapAndGeo?
  }

  /** The bucket the two outcomes select; every pair of outcomes selects a
      different bucket, and every bucket is selected by one pair. */
  function BucketOf(mapFound: bool, geoFound: bool): (b: Bucket)
    ensures HasMap(b) == mapFound && HasGeo(b) == geoFound
  {
    if mapFound && geoFound then MapAndGeo
    else if mapFound then MapOnly
    else if geoFound then GeoOnly
    else Unlocalizable
  }

  function BucketCount(s: Stats, b: Bucket): nat {
    match b
    case Unlocalizable => s.unlocalizable
    case GeoOnly => s.geoLocalized
    case MapOnly => s.mapLocalized
    case MapAndGeo => s.mapAndGeoLocalized
  }

  /** Entries counted in some localisation bucket. */
  function Localized(s: Stats): nat {
    s.mapLocalized + s.geoLocalized + s.mapAndGeoLocalized + s.unlocalizable
  }

  /** Entries that carried a boolean `currentlyTracked`. */
  function TrackedTotal(s: Stats): nat {
    s.currentlyTracked + s.notCurrentlyTracked
  }

  // ---------------------------------------------------------------------
  // MapInfo and GeoCoordinate
  // ---------------------------------------------------------------------

  /** The hierarchy string of a `MapInfo` member, when it is an object
      holding a string `mapHierarchyString`. */
  function HierarchyString(mapInfo: Option<Value>): Option<string> {
    StringOf(Member(mapInfo, "mapHierarchyString"))
  }

  datatype MapOutcome = MapOutcome(found: bool, levels: Levels)

  /** `process_map_info`. It reports success as soon as the hierarchy string
      is there, even when copying it fails (`copied` false), in which case
      the three levels stay `NULL`. */
  function ProcessMapInfo(mapInfo: Option<Value>, copied: bool): (r: MapOutcome)
    ensures r.found <==> mapInfo.Some? && mapInfo.value.Object? && "mapHierarchyString" in mapInfo.value.members
                         && mapInfo.value.members["mapHierarchyString"].Str?
    ensures !(r.found && copied) ==> r.levels == NoLevels
    ensures r.found && copied ==>
      var ts := Tokens(mapInfo.value.members["mapHierarchyString"].s);
      r.levels == Levels(TokenAt(ts, 0), TokenAt(ts, 1), TokenAt(ts, 2))
  {
    match HierarchyString(mapInfo)
    case None => MapOutcome(false, NoLevels)
    case Some(h) =>
      SplitHierarchyTokens(h);
      MapOutcome(true, if copied then SplitHierarchy(h) else NoLevels)
  }

  datatype Geo = Geo(valid: bool, unit: Option<string>)

  /** `process_geo_coordinate`: valid whenever the member is present, of
      whatever type; the unit is kept only when it is a string. */
  function ProcessGeoCoordinate(geo: Option<Value>): (g: Geo)
    ensures g.valid <==> geo.Some?
    ensures g.unit.Some? <==> geo.Some? && geo.value.Object? && "unit" in geo.value.members
                              && geo.value.members["unit"].Str?
    ensures g.unit.Some? ==> g.unit.value == geo.value.members["unit"].s
  {
    match geo
    case None => Geo(false, None)
    case Some(_) => Geo(true, StringOf(Member(geo, "unit")))
  }

  // ---------------------------------------------------------------------
  // One entry
  // ---------------------------------------------------------------------

  /** The value of a boolean `currentlyTracked`, or `None` when it is
      missing or not a boolean. */
  function TrackedFlag(v: Option<Value>): Option<bool> {
    match v
    case Some(Bool(b)) => Some(b)
    case _ => None
  }

  /** What `process_mse_entry` inserts and counts for an indexed entry. */
  datatype Classified = Classified(key: Key, position: Position, bucket: Bucket, flag: Option<bool>)

  /** The key `extract_mac_address` leaves in the zero-filled node. */
  function KeyOf(macAddress: Value): Key {
    match macAddress
    case Str(s) => MacFromStr(s)
    case _ => 0
  }

  /** `process_mse_entry` as a decision: `None` when the entry is skipped. */
  function Classify(entry: Value): (r: Option<Classified>)
    ensures r.None? <==> Member(Some(entry), "macAddress").None?
                         || (Member(Some(entry), "MapInfo").None? && Member(Some(entry), "GeoCoordinate").None?)
    ensures r.Some? ==> r.value.key == (if entry.members["macAddress"].Str? then MacFromStr(entry.members["macAddress"].s) else 0)
    ensures r.Some? ==> HasMap(r.value.bucket) == HierarchyString(Member(Some(entry), "MapInfo")).Some?
    ensures r.Some? ==> HasGeo(r.value.bucket) == r.value.position.geoValid == Member(Some(entry), "GeoCoordinate").Some?
    ensures r.Some? ==> r.value.flag == TrackedFlag(Member(Some(entry), "currentlyTracked"))
    ensures r.Some? ==> (r.value.position.currentlyTracked <==> r.value.flag == Some(true))
    ensures r.Some? ==> r.value.position.levels == ProcessMapInfo(Member(Some(entry), "MapInfo"), true).levels
    ensures r.Some? ==> r.value.position.geoUnit == ProcessGeoCoordinate(Member(Some(entry), "GeoCoordinate")).unit
  {
    match Member(Some(entry), "macAddress")
    case None => None
    case Some(mac) =>
      var mapInfo := Member(Some(entry), "MapInfo");
      var geoCoordinate := Member(Some(entry), "GeoCoordinate");
      if mapInfo.None? && geoCoordinate.None? then None
      else
        var m := ProcessMapInfo(mapInfo, true);
        var g := ProcessGeoCoordinate(geoCoordinate);
        var flag := TrackedFlag(Member(Some(entry), "currentlyTracked"));
        var position := Position(m.levels, g.valid, g.unit, flag == Some(true));
        Some(Classified(KeyOf(mac), position, BucketOf(m.found, g.valid), flag))
  }

  /** The tree and the counters a refresh cycle is building. */
  datatype Generation = Generation(index: map<Key, Position>, stats: Stats)

  const EmptyGeneration := Generation(map[], ZeroStats)

  /** The counter updates of `process_mse_entry`: one more in the entry's
      bucket and none in the others, and one more in the tracking counter
      its flag names, if any. */
  function Tally(s: Stats, c: Classified): (t: Stats)
    ensures forall b :: BucketCount(t, b) == BucketCount(s, b) + (if b == c.bucket then 1 else 0)
    ensures t.currentlyTracked == s.currentlyTracked + (if c.flag == Some(true) then 1 else 0)
    ensures t.notCurrentlyTracked == s.notCurrentlyTracked + (if c.flag == Some(false) then 1 else 0)
    ensures Localized(t) == Localized(s) + 1
    ensures TrackedTotal(t) <= TrackedTotal(s) + 1
  {
    var s1 := match c.bucket
      case Unlocalizable => s.(unlocalizable := s.unlocalizable + 1)
      case GeoOnly => s.(geoLocalized := s.geoLocalized + 1)
      case MapOnly => s.(mapLocalized := s.mapLocalized + 1)
      case MapAndGeo => s.(mapAndGeoLocalized := s.mapAndGeoLocalized + 1);
    match c.flag
    case Some(true) => s1.(currentlyTracked := s1.currentlyTracked + 1)
    case Some(false) => s1.(notCurrentlyTracked := s1.notCurrentlyTracked + 1)
    case None => s1
  }

  /** `process_mse_entry` on an object entry: a skipped entry changes
      nothing; otherwise the entry's key now maps to its position, exactly
      one localisation counter grows by one, and the tracking counters
      follow the `currentlyTracked` flag. */
  function ProcessEntry(g: Generation, entry: Value): (r: Generation)
    ensures Classify(entry).None? ==> r == g
    ensures Classify(entry).Some? ==>
      var c := Classify(entry).value;
      r.index == g.index[c.key := c.position] &&
      (forall b :: BucketCount(r.stats, b) == BucketCount(g.stats, b) + (if b == c.bucket then 1 else 0)) &&
      r.stats.currentlyTracked == g.stats.currentlyTracked + (if c.flag == Some(true) then 1 else 0) &&
      r.stats.notCurrentlyTracked == g.stats.notCurrentlyTracked + (if c.flag == Some(false) then 1 else 0)
    ensures Localized(r.stats) == Localized(g.stats) + (if Classify(entry).Some? then 1 else 0)
    ensures TrackedTotal(g.stats) <= Localized(g.stats) ==> TrackedTotal(r.stats) <= Localized(r.stats)
  {
    match Classify(entry)
    case None => g
    case Some(c) => Generation(g.index[c.key := c.position], Tally(g.stats, c))
  }
}
