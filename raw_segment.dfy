/**
 * The provider's segment payload: its nested records, the two `to_dict`
 * helpers, and the two "before" validators that rewrite the incoming
 * dictionary in place before the payload is parsed.
 */
module RawSegments {
  import opened Wrappers
  import opened Documents

  datatype LatLng = LatLng(lat: real, lng: real)

  /** `kind` is the payload's `type` field. */
  datatype Destination = Destination(href: string, kind: string, name: string)

  datatype Xoms = Xoms(kom: string, qom: Option<string>, overall: string, destination: Destination)

  /** Field names of `LocalLegend.to_dict()`. */
  const LocalLegendKeys: set<string> :=
    {"athlete_id", "title", "profile", "effort_description", "effort_count", "effort_counts", "destination"}

  /** A dictionary of optional strings, as stored: None becomes null. */
  function CountsToDoc(counts: map<string, Option<string>>): (d: Doc)
    ensures d.Keys == counts.Keys
  {
    map k | k in counts :: match counts[k] case None => VNull case Some(s) => VStr(s)
  }

  datatype LocalLegend = LocalLegend(
    athleteId: int,
    title: string,
    profile: string,
    effortDescription: string,
    effortCount: string,
    effortCounts: Option<map<string, Option<string>>>,
    destination: string)
  {
    /** `LocalLegend.to_dict()`: the seven declared fields. */
    function ToDict(): (d: Doc)
      ensures d.Keys == LocalLegendKeys
    {
      map[
        "athlete_id" := VInt(athleteId),
        "title" := VStr(title),
        "profile" := VStr(profile),
        "effort_description" := VStr(effortDescription),
        "effort_count" := VStr(effortCount),
        "effort_counts" := (match effortCounts case None => VNull case Some(c) => VDoc(CountsToDoc(c))),
        "destination" := VStr(destination)]
    }
  }

  datatype AthleteSegmentStats = AthleteSegmentStats(
    prElapsedTime: Option<real>,
    prDate: Option<string>,
    prVisibility: Option<string>,
    prActivityId: Option<int>,
    prActivityVisibility: Option<string>,
    effortCount: int)

  /** Field names of `Map.to_dict()`. */
  const MapKeys: set<string> := {"id", "polyline", "resource_state"}

  datatype Map = Map(id: string, polyline: string, resourceState: int)
  {
    /** `Map.to_dict()`: exactly `id`, `polyline` and `resource_state`. */
    function ToDict(): (d: Doc)
      ensures d.Keys == MapKeys
    {
      map["id" := VStr(id), "polyline" := VStr(polyline), "resource_state" := VInt(resourceState)]
    }
  }

  /** The validated payload; `segmentMap` is the `map` field and `isPrivate` the `private` field. */
  datatype RawSegment = RawSegment(
    id: int,
    resourceState: int,
    name: string,
    activityType: string,
    distance: real,
    averageGrade: real,
    maximumGrade: real,
    elevationHigh: real,
    elevationLow: real,
    startLatlng: LatLng,
    endLatlng: LatLng,
    elevationProfile: string,
    climbCategory: int,
    city: Option<string>,
    state: Option<string>,
    country: Option<string>,
    isPrivate: bool,
    hazardous: bool,
    starred: bool,
    createdAt: string,
    updatedAt: string,
    totalElevationGain: real,
    segmentMap: Map,
    effortCount: int,
    athleteCount: int,
    starCount: int,
    athleteSegmentStats: AthleteSegmentStats,
    xoms: Xoms,
    localLegend: Option<LocalLegend>)

  /** Two different local legends never give the same dictionary. */
  lemma LocalLegendToDictInjective(a: LocalLegend, b: LocalLegend)
    requires a.ToDict() == b.ToDict()
    ensures a == b
  {
    var da, db := a.ToDict(), b.ToDict();
    assert da["athlete_id"] == db["athlete_id"] && da["title"] == db["title"] && da["profile"] == db["profile"];
    assert da["effort_description"] == db["effort_description"] && da["effort_count"] == db["effort_count"];
    assert da["destination"] == db["destination"];
    assert da["effort_counts"] == db["effort_counts"];
    if a.effortCounts.Some? {
      var ca, cb := a.effortCounts.value, b.effortCounts.value;
      assert CountsToDoc(ca) == CountsToDoc(cb);
      forall k | k in ca ensures k in cb && cb[k] == ca[k] {
        assert CountsToDoc(ca)[k] == CountsToDoc(cb)[k];
      }
      assert ca == cb;
    }
  }

  /** Two different maps never give the same dictionary. */
  lemma MapToDictInjective(a: Map, b: Map)
    requires a.ToDict() == b.ToDict()
    ensures a == b
  {
    assert a.ToDict()["id"] == b.ToDict()["id"];
    assert a.ToDict()["polyline"] == b.ToDict()["polyline"];
    assert a.ToDict()["resource_state"] == b.ToDict()["resource_state"];
  }

  // ---------------------------------------------------------------- before-validators

  /** What a validator raises. */
  datatype ValidatorError =
      /** `values[key][i]` on a list that is too short */
    | IndexError(key: string)
      /** `.get` on a value that is not a dictionary */
    | AttributeError(key: string)

  /** The incoming dictionary, which the validators rewrite in place. */
  class Payload {
    var values: Doc

    constructor (values: Doc)
      ensures this.values == values
    {
      this.values := values;
    }
  }

  /**
   * One step of `convert_latlng`: a list under `key` becomes
   * `LatLng(lat=v[0], lng=v[1])`; a missing or non-list value is left alone.
   */
  function ConvertPoint(values: Doc, key: string): Result<Doc, ValidatorError>
  {
    if key in values && values[key].VList? then
      var v := values[key].items;
      if |v| < 2 then Failure(IndexError(key)) else Success(values[key := VLatLng(v[0], v[1])])
    else Success(values)
  }

  /**
   * `convert_latlng` on `values`: the dictionary it leaves behind and what it
   * raises. `start_latlng` is rewritten before `end_latlng` is read, so a
   * short `end_latlng` list leaves `start_latlng` already converted.
   */
  function LatLngConverted(values: Doc): (r: (Doc, Outcome<ValidatorError>))
    ensures r.0.Keys == values.Keys
    ensures forall k :: k in values && k != "start_latlng" && k != "end_latlng" ==> r.0[k] == values[k]
    ensures r.1.Fail? ==> r.1.error.IndexError?
  {
    match ConvertPoint(values, "start_latlng")
    case Failure(e) => (values, Fail(e))
    case Success(v1) =>
      match ConvertPoint(v1, "end_latlng")
      case Failure(e) => (v1, Fail(e))
      case Success(v2) => (v2, Pass)
  }

  /** `convert_latlng(values)` */
  method ConvertLatLng(p: Payload) returns (o: Outcome<ValidatorError>)
    modifies p
    ensures (p.values, o) == LatLngConverted(old(p.values))
  {
    o := Pass;
    if "start_latlng" in p.values && p.values["start_latlng"].VList? {
      var v := p.values["start_latlng"].items;
      if |v| < 2 {
        return Fail(IndexError("start_latlng"));
      }
      p.values := p.values["start_latlng" := VLatLng(v[0], v[1])];
    }
    if "end_latlng" in p.values && p.values["end_latlng"].VList? {
      var v := p.values["end_latlng"].items;
      if |v| < 2 {
        return Fail(IndexError("end_latlng"));
      }
      p.values := p.values["end_latlng" := VLatLng(v[0], v[1])];
    }
  }

  /** A coordinate field as `convert_latlng` is meant to leave it. */
  predicate PointConverted(before: Doc, after: Doc, key: string)
  {
    if key in before && before[key].VList? then
      var v := before[key].items;
      |v| >= 2 && key in after && after[key] == VLatLng(v[0], v[1])
    else (key in after <==> key in before) && (key in before ==> after[key] == before[key])
  }

  /**
   * `convert_latlng` raises exactly when a coordinate is a list of fewer than
   * two elements; otherwise both coordinates are converted, no key is added
   * or removed, and every other field is untouched.
   */
  lemma LatLngConvertedSpec(values: Doc)
    ensures var (after, o) := LatLngConverted(values);
      && (o.Fail? <==> exists key :: key in {"start_latlng", "end_latlng"} && key in values
                                        && values[key].VList? && |values[key].items| < 2)
      && after.Keys == values.Keys
      && (forall key :: key in values && key != "start_latlng" && key != "end_latlng" ==> after[key] == values[key])
      && (o.Pass? ==> PointConverted(values, after, "start_latlng") && PointConverted(values, after, "end_latlng"))
  {
    var s, e := "start_latlng", "end_latlng";
    assert s != e;
    match ConvertPoint(values, s)
    case Failure(_) =>
      assert s in {s, e};
    case Success(v1) =>
      assert forall key :: key in values && key != s ==> v1[key] == values[key];
      match ConvertPoint(v1, e)
      case Failure(_) =>
        assert e in {s, e};
      case Success(v2) =>
  }

  /** Running `convert_latlng` on its own output changes nothing more. */
  lemma LatLngConvertedIdempotent(values: Doc)
    requires LatLngConverted(values).1.Pass?
    ensures LatLngConverted(LatLngConverted(values).0) == (LatLngConverted(values).0, Pass)
  {
    var v1 := ConvertPoint(values, "start_latlng").value;
    var v2 := ConvertPoint(v1, "end_latlng").value;
    assert ConvertPoint(v2, "start_latlng") == Success(v2);
  }

  /**
   * `convert_local_legend` on `values`. It looks at a top-level
   * `effort_counts` (not the one nested in `local_legend`): when that is
   * truthy and has no `female` entry, or a null one, `female: None` is put
   * into it. A truthy `effort_counts` that is not a dictionary has no `.get`.
   */
  function LocalLegendConverted(values: Doc): (r: Result<Doc, ValidatorError>)
    ensures r.Success? ==> r.value.Keys == values.Keys
    ensures r.Success? ==> forall k :: k in values && k != "effort_counts" ==> r.value[k] == values[k]
    ensures r.Failure? ==> r.error == AttributeError("effort_counts")
  {
    if values != map[] && "effort_counts" in values && Truthy(values["effort_counts"]) then
      match values["effort_counts"]
      case VDoc(counts) =>
        if "female" !in counts || counts["female"] == VNull
        then Success(values["effort_counts" := VDoc(counts["female" := VNull])])
        else Success(values)
      case _ => Failure(AttributeError("effort_counts"))
    else Success(values)
  }

  /** `convert_local_legend(values)` */
  method ConvertLocalLegend(p: Payload) returns (o: Outcome<ValidatorError>)
    modifies p
    ensures (match LocalLegendConverted(old(p.values))
             case Success(v) => o == Pass && p.values == v
             case Failure(e) => o == Fail(e) && p.values == old(p.values))
  {
    o := Pass;
    if p.values != map[] && "effort_counts" in p.values && Truthy(p.values["effort_counts"]) {
      var counts := p.values["effort_counts"];
      if !counts.VDoc? {
        return Fail(AttributeError("effort_counts"));
      }
      if "female" !in counts.fields || counts.fields["female"] == VNull {
        p.values := p.values["effort_counts" := VDoc(counts.fields["female" := VNull])];
      }
    }
  }

  /**
   * `convert_local_legend` raises exactly when `effort_counts` is truthy and
   * not a dictionary. Otherwise only `effort_counts` can change: when it
   * is a non-empty dictionary it ends up with a `female` entry, null
   * unless it already held a non-null one, and every other entry it had
   * keeps its value. A falsy `effort_counts`, or none, leaves the payload
   * as it was.
   */
  lemma LocalLegendConvertedSpec(values: Doc)
    ensures var r := LocalLegendConverted(values);
      && (r.Failure? <==> "effort_counts" in values && Truthy(values["effort_counts"]) && !values["effort_counts"].VDoc?)
      && (r.Success? ==>
            && r.value.Keys == values.Keys
            && (forall key :: key in values && key != "effort_counts" ==> r.value[key] == values[key]))
      && (r.Success? && "effort_counts" in values && values["effort_counts"].VDoc? && values["effort_counts"].fields != map[] ==>
            var before, after := values["effort_counts"].fields, r.value["effort_counts"];
            && after.VDoc? && "female" in after.fields
            && (forall k :: k in before ==> k in after.fields && (k != "female" ==> after.fields[k] == before[k]))
            && ("female" in before && before["female"] != VNull ==> after.fields["female"] == before["female"])
            && ("female" !in before || before["female"] == VNull ==> after.fields["female"] == VNull))
      && (!("effort_counts" in values && Truthy(values["effort_counts"])) ==> r == Success(values))
      && ("effort_counts" in values && values["effort_counts"].VDoc? && Truthy(values["effort_counts"]) ==>
            var c := values["effort_counts"].fields;
            r == Success(values["effort_counts" := VDoc(if "female" !in c || c["female"] == VNull then c["female" := VNull] else c)]))
  {
    if "effort_counts" in values {
      assert values["effort_counts" := values["effort_counts"]] == values;
    }
  }

  /** Running `convert_local_legend` on its own output changes nothing more. */
  lemma LocalLegendConvertedIdempotent(values: Doc)
    requires LocalLegendConverted(values).Success?
    ensures LocalLegendConverted(LocalLegendConverted(values).value) == LocalLegendConverted(values)
  {
    var once := LocalLegendConverted(values).value;
    if once != values {
      var counts := values["effort_counts"].fields;
      var fixed := counts["female" := VNull];
      assert once == values["effort_counts" := VDoc(fixed)];
      assert fixed["female" := VNull] == fixed;
      assert once["effort_counts" := VDoc(fixed["female" := VNull])] == once;
    }
  }
}
