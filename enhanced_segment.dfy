/**
 * The stored form of a segment: built from a raw payload by
 * `from_raw_segment` and turned into the snapshot document by `to_dict`.
 */
module EnhancedSegments {
  import opened Wrappers
  import opened Documents
  import opened RawSegments

  /** Declared defaults of the `difficulty` and `popularity` fields. */
  const DefaultDifficulty: Option<string> := Some("")
  const DefaultPopularity: Option<int> := Some(0)

  /** Field names of `EnhancedSegment.to_dict()`. */
  const SnapshotKeys: set<string> := {
    "id", "name", "alt_name", "trail_area", "average_grade", "distance", "difficulty", "popularity",
    "start_lat", "start_lng", "end_lat", "end_lng", "local_legend", "star_count", "effort_count",
    "athlete_count", "kom", "map", "polyline", "timestamp"}

  /** `segmentMap` is the `map` field. */
  datatype EnhancedSegment = EnhancedSegment(
    id: int,
    name: string,
    altName: string,
    trailArea: string,
    averageGrade: real,
    distance: real,
    difficulty: Option<string>,
    popularity: Option<int>,
    startLat: Option<real>,
    startLng: Option<real>,
    endLat: Option<real>,
    endLng: Option<real>,
    localLegend: Option<LocalLegend>,
    starCount: int,
    effortCount: int,
    athleteCount: int,
    kom: Option<string>,
    segmentMap: Map,
    polyline: Option<string>,
    timestamp: real)

  function OptStr(v: Option<string>): Value
  {
    match v case None => VNull case Some(s) => VStr(s)
  }

  function OptInt(v: Option<int>): Value
  {
    match v case None => VNull case Some(i) => VInt(i)
  }

  function OptFloat(v: Option<real>): Value
  {
    match v case None => VNull case Some(f) => VFloat(f)
  }

  /** The `local_legend` entry: null when absent, else the legend's own dictionary. */
  function LocalLegendValue(legend: Option<LocalLegend>): Value
  {
    match legend case None => VNull case Some(l) => VDoc(l.ToDict())
  }

  /** `EnhancedSegment.to_dict()`: the snapshot document. */
  function ToDict(s: EnhancedSegment): (d: Doc)
    ensures "id" in d && d["id"] == VInt(s.id)
  {
    map[
      "id" := VInt(s.id),
      "name" := VStr(s.name),
      "alt_name" := VStr(s.altName),
      "trail_area" := VStr(s.trailArea),
      "average_grade" := VFloat(s.averageGrade),
      "distance" := VFloat(s.distance),
      "difficulty" := OptStr(s.difficulty),
      "popularity" := OptInt(s.popularity),
      "start_lat" := OptFloat(s.startLat),
      "start_lng" := OptFloat(s.startLng),
      "end_lat" := OptFloat(s.endLat),
      "end_lng" := OptFloat(s.endLng),
      "local_legend" := LocalLegendValue(s.localLegend),
      "star_count" := VInt(s.starCount),
      "effort_count" := VInt(s.effortCount),
      "athlete_count" := VInt(s.athleteCount),
      "kom" := OptStr(s.kom),
      "map" := VDoc(s.segmentMap.ToDict()),
      "polyline" := OptStr(s.polyline),
      "timestamp" := VFloat(s.timestamp)]
  }

  /**
   * `EnhancedSegment.from_raw_segment(segment, trail_area, timestamp)`: the
   * name doubles as the alternative name, coordinates come from the two
   * `LatLng`s, `kom` from `xoms`, the polyline from the map, and
   * `difficulty` and `popularity` keep their declared defaults.
   */
  function FromRawSegment(segment: RawSegment, trailArea: string, timestamp: real): (r: EnhancedSegment)
    ensures r.altName == r.name == segment.name
    ensures r.difficulty == DefaultDifficulty && r.popularity == DefaultPopularity
    ensures r.segmentMap == segment.segmentMap && r.polyline == Some(r.segmentMap.polyline)
  {
    EnhancedSegment(
      id := segment.id,
      name := segment.name,
      altName := segment.name,
      trailArea := trailArea,
      averageGrade := segment.averageGrade,
      distance := segment.distance,
      difficulty := DefaultDifficulty,
      popularity := DefaultPopularity,
      startLat := Some(segment.startLatlng.lat),
      startLng := Some(segment.startLatlng.lng),
      endLat := Some(segment.endLatlng.lat),
      endLng := Some(segment.endLatlng.lng),
      localLegend := segment.localLegend,
      starCount := segment.starCount,
      effortCount := segment.effortCount,
      athleteCount := segment.athleteCount,
      kom := Some(segment.xoms.kom),
      segmentMap := segment.segmentMap,
      polyline := Some(segment.segmentMap.polyline),
      timestamp := timestamp)
  }

  /** `to_dict` yields exactly the twenty listed keys. */
  lemma ToDictKeys(s: EnhancedSegment)
    ensures ToDict(s).Keys == SnapshotKeys
  {
  }

  /** The identity entries of `to_dict` determine those fields. */
  lemma ToDictDeterminesIdentity(a: EnhancedSegment, b: EnhancedSegment)
    requires ToDict(a) == ToDict(b)
    ensures a.id == b.id && a.trailArea == b.trailArea
  {
    var da, db := ToDict(a), ToDict(b);
    assert da["id"] == db["id"] && da["trail_area"] == db["trail_area"];
  }

  /** The two name entries of `to_dict` determine those fields. */
  lemma ToDictDeterminesNames(a: EnhancedSegment, b: EnhancedSegment)
    requires ToDict(a) == ToDict(b)
    ensures a.name == b.name && a.altName == b.altName
  {
    var da, db := ToDict(a), ToDict(b);
    assert da["name"] == db["name"] && da["alt_name"] == db["alt_name"];
  }

  /** The user-curated entries and `kom` of `to_dict` determine those fields. */
  lemma ToDictDeterminesCurated(a: EnhancedSegment, b: EnhancedSegment)
    requires ToDict(a) == ToDict(b)
    ensures a.difficulty == b.difficulty && a.popularity == b.popularity && a.kom == b.kom
  {
    var da, db := ToDict(a), ToDict(b);
    assert da["difficulty"] == db["difficulty"] && da["popularity"] == db["popularity"] && da["kom"] == db["kom"];
  }

  /** The measure entries of `to_dict` determine those fields. */
  lemma ToDictDeterminesMeasures(a: EnhancedSegment, b: EnhancedSegment)
    requires ToDict(a) == ToDict(b)
    ensures a.averageGrade == b.averageGrade && a.distance == b.distance && a.timestamp == b.timestamp
  {
    var da, db := ToDict(a), ToDict(b);
    assert da["average_grade"] == db["average_grade"] && da["distance"] == db["distance"] && da["timestamp"] == db["timestamp"];
  }

  /** The coordinate entries of `to_dict` determine those fields. */
  lemma ToDictDeterminesCoordinates(a: EnhancedSegment, b: EnhancedSegment)
    requires ToDict(a) == ToDict(b)
    ensures a.startLat == b.startLat && a.startLng == b.startLng && a.endLat == b.endLat && a.endLng == b.endLng
  {
    var da, db := ToDict(a), ToDict(b);
    assert da["start_lat"] == db["start_lat"] && da["start_lng"] == db["start_lng"];
    assert da["end_lat"] == db["end_lat"] && da["end_lng"] == db["end_lng"];
  }

  /** The counter entries of `to_dict` determine those fields. */
  lemma ToDictDeterminesCounters(a: EnhancedSegment, b: EnhancedSegment)
    requires ToDict(a) == ToDict(b)
    ensures a.starCount == b.starCount && a.effortCount == b.effortCount && a.athleteCount == b.athleteCount
  {
    var da, db := ToDict(a), ToDict(b);
    assert da["star_count"] == db["star_count"] && da["effort_count"] == db["effort_count"];
    assert da["athlete_count"] == db["athlete_count"];
  }

  /** The nested entries of `to_dict` determine the local legend, the map and the polyline. */
  lemma ToDictDeterminesNested(a: EnhancedSegment, b: EnhancedSegment)
    requires ToDict(a) == ToDict(b)
    ensures a.localLegend == b.localLegend && a.segmentMap == b.segmentMap && a.polyline == b.polyline
  {
    var da, db := ToDict(a), ToDict(b);
    assert da["polyline"] == db["polyline"];
    assert da["local_legend"] == db["local_legend"];
    if a.localLegend.Some? && b.localLegend.Some? {
      LocalLegendToDictInjective(a.localLegend.value, b.localLegend.value);
    }
    assert da["map"] == db["map"];
    MapToDictInjective(a.segmentMap, b.segmentMap);
  }

  /** `to_dict` loses nothing: two segments with the same document are the same segment. */
  lemma ToDictInjective(a: EnhancedSegment, b: EnhancedSegment)
    requires ToDict(a) == ToDict(b)
    ensures a == b
  {
    ToDictDeterminesIdentity(a, b);
    ToDictDeterminesNames(a, b);
    ToDictDeterminesCurated(a, b);
    ToDictDeterminesMeasures(a, b);
    ToDictDeterminesCoordinates(a, b);
    ToDictDeterminesCounters(a, b);
    ToDictDeterminesNested(a, b);
  }

  /** The `id` and `trail_area` of a freshly fetched segment's snapshot are the raw payload's id and the trail area argument. */
  lemma SnapshotIdentityOfRawSegment(segment: RawSegment, trailArea: string, timestamp: real)
    ensures var d := ToDict(FromRawSegment(segment, trailArea, timestamp));
      d["id"] == VInt(segment.id) && d["trail_area"] == VStr(trailArea)
  {
  }

  /** Both `name` and `alt_name` of a freshly fetched segment's snapshot are the raw payload's name. */
  lemma SnapshotNamesOfRawSegment(segment: RawSegment, trailArea: string, timestamp: real)
    ensures var d := ToDict(FromRawSegment(segment, trailArea, timestamp));
      d["name"] == VStr(segment.name) && d["alt_name"] == VStr(segment.name)
  {
  }

  /** A freshly fetched segment's snapshot carries the declared defaults: an empty difficulty and zero popularity. */
  lemma SnapshotDefaultsOfRawSegment(segment: RawSegment, trailArea: string, timestamp: real)
    ensures var d := ToDict(FromRawSegment(segment, trailArea, timestamp));
      d["difficulty"] == VStr("") && d["popularity"] == VInt(0)
  {
  }

  /** The measures of a freshly fetched segment's snapshot are the raw payload's, and the timestamp is the argument. */
  lemma SnapshotMeasuresOfRawSegment(segment: RawSegment, trailArea: string, timestamp: real)
    ensures var d := ToDict(FromRawSegment(segment, trailArea, timestamp));
      && d["average_grade"] == VFloat(segment.averageGrade)
      && d["distance"] == VFloat(segment.distance)
      && d["timestamp"] == VFloat(timestamp)
  {
  }

  /** The counters of a freshly fetched segment's snapshot are the raw payload's. */
  lemma SnapshotCountersOfRawSegment(segment: RawSegment, trailArea: string, timestamp: real)
    ensures var d := ToDict(FromRawSegment(segment, trailArea, timestamp));
      && d["star_count"] == VInt(segment.starCount)
      && d["effort_count"] == VInt(segment.effortCount)
      && d["athlete_count"] == VInt(segment.athleteCount)
  {
  }

  /**
   * The nested entries of a freshly fetched segment's snapshot: the local
   * legend's and the map's own dictionaries, `kom` from `xoms`, and a
   * polyline equal to the map's.
   */
  lemma SnapshotNestedOfRawSegment(segment: RawSegment, trailArea: string, timestamp: real)
    ensures var d := ToDict(FromRawSegment(segment, trailArea, timestamp));
      && d["local_legend"] == (if segment.localLegend.Some? then VDoc(segment.localLegend.value.ToDict()) else VNull)
      && d["kom"] == VStr(segment.xoms.kom)
      && d["map"] == VDoc(segment.segmentMap.ToDict())
      && d["polyline"] == VStr(segment.segmentMap.polyline)
      && d["map"].fields["polyline"] == d["polyline"]
  {
  }

  /** The coordinates of a freshly fetched segment's snapshot come from its two `LatLng`s. */
  lemma SnapshotCoordinatesOfRawSegment(segment: RawSegment, trailArea: string, timestamp: real)
    ensures var d := ToDict(FromRawSegment(segment, trailArea, timestamp));
      && d["start_lat"] == VFloat(segment.startLatlng.lat) && d["start_lng"] == VFloat(segment.startLatlng.lng)
      && d["end_lat"] == VFloat(segment.endLatlng.lat) && d["end_lng"] == VFloat(segment.endLatlng.lng)
  {
  }
}
