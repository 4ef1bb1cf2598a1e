/**
 * The synchronisation engine: for one segment, record today's effort count
 * in the ledger (create, overwrite today's sample, or append one), then
 * insert or refresh the segment's snapshot document.
 */
module SegmentsRepository {
  import opened Wrappers
  import opened Documents
  import opened DateFormat
  import opened EffortLedger
  import opened DocumentStore
  import opened EnhancedSegments

  // ---------------------------------------------------------------- the ledger

  /** `map_segment_effort_data`, with the current date passed in: one sample dated today. */
  function MapSegmentEffortData(segment: EnhancedSegment, now: CalendarDate): (r: EffortRecord<int>)
    ensures r.segmentId == segment.id && r.name == segment.name
    ensures |r.efforts| == 1 && r.efforts[0].fetchDate == Format(now)
    ensures CountOn(r.efforts, Format(now)) == Some(segment.effortCount)
  {
    EffortRecord(segment.id, segment.name, [Effort(segment.effortCount, Format(now))])
  }

  /**
   * The one write `update_effort_data` issues, given what `find_one` by
   * `segment_id` returned: an insert of the mapped record when there is no
   * record, the positional set when a sample is dated today, the push
   * otherwise.
   */
  function LedgerWrite(existing: Option<EffortRecord<int>>, data: EffortRecord<int>, today: string): (w: EffortWrite<int>)
    requires |data.efforts| > 0
    ensures w.InsertRecord? <==> existing.None?
    ensures w.InsertRecord? ==> w.record == EffortRecord(data.segmentId, data.name, [data.efforts[0]])
    ensures w.UpdateRecord? ==> w.update.segmentId == data.segmentId
    ensures existing.Some? ==> (w.update.SetMatchedCount? <==> HasDate(existing.value.efforts, today))
    ensures w.UpdateRecord? && w.update.SetMatchedCount? ==> w.update == SetMatchedCount(data.segmentId, today, data.efforts[0].effortCount)
    ensures w.UpdateRecord? && !w.update.SetMatchedCount? ==> w.update == PushEffort(data.segmentId, Effort(data.efforts[0].effortCount, today))
  {
    match existing
    case None => InsertRecord(EffortRecord(data.segmentId, data.name, [Effort(data.efforts[0].effortCount, data.efforts[0].fetchDate)]))
    case Some(record) =>
      if FindByDate(record.efforts, today).Some? then UpdateRecord(SetMatchedCount(data.segmentId, today, data.efforts[0].effortCount))
      else UpdateRecord(PushEffort(data.segmentId, Effort(data.efforts[0].effortCount, today)))
  }

  /** At most one record per `segment_id`. */
  predicate UniqueSegments<Id(==)>(docs: map<ObjectId, EffortRecord<Id>>)
  {
    forall k1, k2 :: k1 in docs && k2 in docs && docs[k1].segmentId == docs[k2].segmentId ==> k1 == k2
  }

  /** What the ledger keeps true of the effort collection. */
  predicate LedgerInvariant<Id(==)>(s: EffortState<Id>)
  {
    && s.Valid()
    && UniqueSegments(s.docs)
    && forall k :: k in s.docs ==> DatesUnique(s.docs[k].efforts)
  }

  /**
   * The intended effect of one ledger call on the collection: a new record
   * holding the one sample when the segment has none, else the segment's
   * record with `RecordSample` applied to its samples.
   */
  function Recorded<Id(==)>(s: EffortState<Id>, id: Id, name: string, count: int, today: string): (r: EffortState<Id>)
    requires s.Valid()
    ensures r.Valid() && s.docs.Keys <= r.docs.Keys
    ensures forall k :: k in s.docs && s.docs[k].segmentId != id ==> r.docs[k] == s.docs[k]
  {
    match s.First(BySegment(id))
    case None => EffortState(s.docs[s.nextId := EffortRecord(id, name, [Effort(count, today)])], s.nextId + 1)
    case Some(k) => s.(docs := s.docs[k := s.docs[k].(efforts := RecordSample(s.docs[k].efforts, count, today))])
  }

  /** When the first match of `f` also matches the narrower `g`, it is the first match of `g` too. */
  lemma FirstOfNarrower<Id>(s: EffortState<Id>, f: Filter<Id>, g: Filter<Id>, k: ObjectId)
    requires s.Valid() && s.First(f) == Some(k) && g.Matches(s.docs[k])
    requires forall j :: j in s.docs && g.Matches(s.docs[j]) ==> f.Matches(s.docs[j])
    ensures s.First(g) == Some(k)
  {
    var r := FirstRecord(s.docs, g, 0, s.nextId);
    assert 0 <= k < s.nextId && k in s.docs;
    assert r.Some?;
    var j := r.value;
    assert j <= k;
    assert f.Matches(s.docs[j]);
    assert k <= j;
  }

  /**
   * The write `update_effort_data` issues has exactly the intended effect:
   * the positional set and the push land on the segment's record, and
   * the insert creates the record with its single sample.
   */
  lemma LedgerWriteRecords(s: EffortState<int>, segment: EnhancedSegment, now: CalendarDate)
    requires s.Valid()
    ensures var data := MapSegmentEffortData(segment, now);
      s.Apply(LedgerWrite(s.Find(BySegment(segment.id)), data, Format(now)))
        == Recorded(s, segment.id, segment.name, segment.effortCount, Format(now))
  {
    var today := Format(now);
    match s.First(BySegment(segment.id))
    case None =>
    case Some(k) =>
      if HasDate(s.docs[k].efforts, today) {
        FirstOfNarrower(s, BySegment(segment.id), BySegmentAndDate(segment.id, today), k);
      }
  }

  /**
   * A ledger call keeps one record per segment and one sample per date, and
   * touches no other segment's record.
   */
  lemma RecordedPreservesInvariant<Id>(s: EffortState<Id>, id: Id, name: string, count: int, today: string)
    requires LedgerInvariant(s)
    ensures var t := Recorded(s, id, name, count, today);
      && LedgerInvariant(t)
      && (forall k :: k in s.docs && s.docs[k].segmentId != id ==> k in t.docs && t.docs[k] == s.docs[k])
  {
    match s.First(BySegment(id))
    case None =>
      assert forall k :: k in s.docs ==> s.docs[k].segmentId != id;
    case Some(k) =>
      RecordSamplePreservesUnique(s.docs[k].efforts, count, today);
  }

  /**
   * After a ledger call the segment has exactly one record; read as a map
   * from date to count, its samples are the old ones updated at `today`
   * (no old samples when the record is new), and the record's name is the
   * one it was created with.
   */
  lemma RecordedSegmentRecord<Id>(s: EffortState<Id>, id: Id, name: string, count: int, today: string, date: string)
    requires LedgerInvariant(s)
    ensures var t := Recorded(s, id, name, count, today);
      && t.Find(BySegment(id)).Some?
      && (forall k1, k2 :: k1 in t.docs && k2 in t.docs && t.docs[k1].segmentId == id && t.docs[k2].segmentId == id ==> k1 == k2)
      && var after := t.Find(BySegment(id)).value;
         && after.name == (if s.Find(BySegment(id)).Some? then s.Find(BySegment(id)).value.name else name)
         && CountOn(after.efforts, date)
            == if date == today then Some(count)
               else if s.Find(BySegment(id)).Some? then CountOn(s.Find(BySegment(id)).value.efforts, date)
               else None
  {
    var t := Recorded(s, id, name, count, today);
    RecordedPreservesInvariant(s, id, name, count, today);
    match s.First(BySegment(id))
    case None =>
      assert t.docs[s.nextId].segmentId == id;
      assert t.First(BySegment(id)) == Some(s.nextId);
    case Some(k) =>
      RecordSampleAsMap(s.docs[k].efforts, count, today, date);
      assert t.docs[k].segmentId == id;
      assert t.First(BySegment(id)) == Some(k);
  }

  /** After a ledger call the segment's record is still, or is now, the first one found for it. */
  lemma RecordedFirst<Id>(s: EffortState<Id>, id: Id, name: string, count: int, today: string)
    requires s.Valid()
    ensures Recorded(s, id, name, count, today).First(BySegment(id))
         == if s.First(BySegment(id)).Some? then s.First(BySegment(id)) else Some(s.nextId)
  {
    var t := Recorded(s, id, name, count, today);
    match s.First(BySegment(id))
    case None =>
      assert t.docs[s.nextId].segmentId == id;
    case Some(k) =>
      assert t.docs[k].segmentId == id;
  }

  /** Two ledger calls for a segment on the same day leave what the second alone would: the later count wins. */
  lemma RecordedLatestWins<Id>(s: EffortState<Id>, id: Id, name: string, first: int, second: int, today: string)
    requires s.Valid()
    ensures Recorded(Recorded(s, id, name, first, today), id, name, second, today)
         == Recorded(s, id, name, second, today)
  {
    RecordedFirst(s, id, name, first, today);
    if s.First(BySegment(id)).None? {
      RecordedTwiceNew(s, id, name, first, second, today);
    } else {
      RecordedTwiceExisting(s, id, name, first, second, today);
    }
  }

  /** `RecordedLatestWins` for a segment with no record yet: the second call overwrites the new record's one sample. */
  lemma RecordedTwiceNew<Id>(s: EffortState<Id>, id: Id, name: string, first: int, second: int, today: string)
    requires s.Valid() && s.First(BySegment(id)).None?
    requires Recorded(s, id, name, first, today).First(BySegment(id)) == Some(s.nextId)
    ensures Recorded(Recorded(s, id, name, first, today), id, name, second, today)
         == Recorded(s, id, name, second, today)
  {
    var t := Recorded(s, id, name, first, today);
    var once := EffortRecord(id, name, [Effort(first, today)]);
    assert t == EffortState(s.docs[s.nextId := once], s.nextId + 1);
    LatestWins([], first, second, today);
    var twice := EffortRecord(id, name, RecordSample(once.efforts, second, today));
    assert twice == EffortRecord(id, name, [Effort(second, today)]);
    assert Recorded(t, id, name, second, today) == EffortState(s.docs[s.nextId := once][s.nextId := twice], s.nextId + 1);
    assert s.docs[s.nextId := once][s.nextId := twice] == s.docs[s.nextId := twice];
  }

  /** `RecordedLatestWins` for a segment with a record: `LatestWins` on that record's samples. */
  lemma RecordedTwiceExisting<Id>(s: EffortState<Id>, id: Id, name: string, first: int, second: int, today: string)
    requires s.Valid() && s.First(BySegment(id)).Some?
    requires Recorded(s, id, name, first, today).First(BySegment(id)) == s.First(BySegment(id))
    ensures Recorded(Recorded(s, id, name, first, today), id, name, second, today)
         == Recorded(s, id, name, second, today)
  {
    var t := Recorded(s, id, name, first, today);
    var k := s.First(BySegment(id)).value;
    var once := s.docs[k].(efforts := RecordSample(s.docs[k].efforts, first, today));
    assert t == s.(docs := s.docs[k := once]);
    LatestWins(s.docs[k].efforts, first, second, today);
    var twice := once.(efforts := RecordSample(once.efforts, second, today));
    assert twice == s.docs[k].(efforts := RecordSample(s.docs[k].efforts, second, today));
    assert Recorded(t, id, name, second, today) == s.(docs := s.docs[k := once][k := twice]);
    assert s.docs[k := once][k := twice] == s.docs[k := twice];
  }

  // ---------------------------------------------------------------- the snapshot

  /** The fifteen fields the refresh of an existing snapshot sets. */
  const SetFieldNames: set<string> := {
    "name", "average_grade", "distance", "start_lat", "start_lng", "end_lat", "end_lng", "local_legend",
    "star_count", "effort_count", "athlete_count", "kom", "map", "polyline", "timestamp"}

  /** The snapshot fields the refresh leaves as they were. */
  const KeptFieldNames: set<string> := {"id", "alt_name", "trail_area", "difficulty", "popularity"}

  /** The `$set` document of `update_segment_data`. */
  function SnapshotFields(segment: EnhancedSegment): (f: Doc)
    ensures "id" !in f
  {
    map[
      "name" := VStr(segment.name),
      "average_grade" := VFloat(segment.averageGrade),
      "distance" := VFloat(segment.distance),
      "start_lat" := OptFloat(segment.startLat),
      "start_lng" := OptFloat(segment.startLng),
      "end_lat" := OptFloat(segment.endLat),
      "end_lng" := OptFloat(segment.endLng),
      "local_legend" := LocalLegendValue(segment.localLegend),
      "star_count" := VInt(segment.starCount),
      "effort_count" := VInt(segment.effortCount),
      "athlete_count" := VInt(segment.athleteCount),
      "kom" := OptStr(segment.kom),
      "map" := VDoc(segment.segmentMap.ToDict()),
      "polyline" := OptStr(segment.polyline),
      "timestamp" := VFloat(segment.timestamp)]
  }

  /** The set fields plus the kept ones are exactly the snapshot's fields, and they do not overlap. */
  lemma FieldListsPartitionSnapshot()
    ensures SetFieldNames + KeptFieldNames == SnapshotKeys
    ensures SetFieldNames !! KeptFieldNames
  {
  }

  /** The `$set` entries for the name and the measures carry the values `to_dict` gives them. */
  lemma SnapshotFieldsAgreeOnMeasures(segment: EnhancedSegment)
    ensures var f, d := SnapshotFields(segment), ToDict(segment);
      "name" in d && f["name"] == d["name"]
      && "average_grade" in d && f["average_grade"] == d["average_grade"]
      && "distance" in d && f["distance"] == d["distance"]
      && "timestamp" in d && f["timestamp"] == d["timestamp"]
  {
  }

  /** The `$set` entries for the coordinates carry the values `to_dict` gives them. */
  lemma SnapshotFieldsAgreeOnCoordinates(segment: EnhancedSegment)
    ensures var f, d := SnapshotFields(segment), ToDict(segment);
      "start_lat" in d && f["start_lat"] == d["start_lat"]
      && "start_lng" in d && f["start_lng"] == d["start_lng"]
      && "end_lat" in d && f["end_lat"] == d["end_lat"]
      && "end_lng" in d && f["end_lng"] == d["end_lng"]
  {
  }

  /** The `$set` entries for the counters carry the values `to_dict` gives them. */
  lemma SnapshotFieldsAgreeOnCounters(segment: EnhancedSegment)
    ensures var f, d := SnapshotFields(segment), ToDict(segment);
      "star_count" in d && f["star_count"] == d["star_count"]
      && "effort_count" in d && f["effort_count"] == d["effort_count"]
      && "athlete_count" in d && f["athlete_count"] == d["athlete_count"]
  {
  }

  /** The `$set` entries for the nested objects carry the values `to_dict` gives them. */
  lemma SnapshotFieldsAgreeOnNested(segment: EnhancedSegment)
    ensures var f, d := SnapshotFields(segment), ToDict(segment);
      "local_legend" in d && f["local_legend"] == d["local_legend"]
      && "kom" in d && f["kom"] == d["kom"]
      && "map" in d && f["map"] == d["map"]
      && "polyline" in d && f["polyline"] == d["polyline"]
  {
  }

  /** Every `$set` entry carries the value `to_dict` gives that field. */
  lemma SnapshotFieldsAgreeWithToDict(segment: EnhancedSegment)
    ensures forall key :: key in SnapshotFields(segment) ==> key in ToDict(segment) && SnapshotFields(segment)[key] == ToDict(segment)[key]
  {
    var f, d := SnapshotFields(segment), ToDict(segment);
    forall key | key in f
      ensures key in d && f[key] == d[key]
    {
      if key in {"name", "average_grade", "distance", "timestamp"} {
        SnapshotFieldsAgreeOnMeasures(segment);
      } else if key in {"start_lat", "start_lng", "end_lat", "end_lng"} {
        SnapshotFieldsAgreeOnCoordinates(segment);
      } else if key in {"star_count", "effort_count", "athlete_count"} {
        SnapshotFieldsAgreeOnCounters(segment);
      } else {
        SnapshotFieldsAgreeOnNested(segment);
      }
    }
  }

  /**
   * The one write `update_segment_data` issues, given what `find_one` by
   * `id` returned: the `$set` keyed by the found document's `_id`, or an
   * insert of the whole document.
   */
  function SnapshotWriteFor(existing: Option<(ObjectId, Doc)>, segment: EnhancedSegment): (w: SnapshotWrite)
    ensures w.InsertDoc? <==> existing.None?
    ensures w.InsertDoc? ==> w.doc == ToDict(segment)
    ensures w.SetFields? ==> w.oid == existing.value.0 && w.fields == SnapshotFields(segment)
  {
    match existing
    case None => InsertDoc(ToDict(segment))
    case Some((oid, _)) => SetFields(oid, SnapshotFields(segment))
  }

  /** At most one snapshot document per `id` value. */
  predicate UniqueIds(docs: map<ObjectId, Doc>)
  {
    forall k1, k2 :: k1 in docs && k2 in docs && "id" in docs[k1] && "id" in docs[k2] && docs[k1]["id"] == docs[k2]["id"] ==> k1 == k2
  }

  /** The `$set` document names exactly the fifteen fields. */
  lemma SnapshotFieldsKeys(segment: EnhancedSegment)
    ensures SnapshotFields(segment).Keys == SetFieldNames
  {
  }

  /**
   * Refreshing an existing snapshot: the fifteen set fields take the values
   * of `to_dict`, every other field (among them `id`, `alt_name`,
   * `trail_area`, `difficulty`, `popularity`) keeps its old value, and no
   * field is removed.
   */
  lemma RefreshKeepsOtherFields(d: Doc, segment: EnhancedSegment)
    ensures var r := d + SnapshotFields(segment);
      && r.Keys == d.Keys + SetFieldNames
      && (forall key :: key in SetFieldNames ==> r[key] == ToDict(segment)[key])
      && (forall key :: key in d && key !in SetFieldNames ==> r[key] == d[key])
  {
    SnapshotFieldsKeys(segment);
    SnapshotFieldsAgreeWithToDict(segment);
  }

  /** Inserting the snapshot of an `id` that has none keeps "one document per `id`" and makes it the one found. */
  lemma InsertKeepsOnePerId(st: SnapshotState, d: Doc, id: int)
    requires st.Valid() && UniqueIds(st.docs) && st.Find(id).None? && IsSnapshotOf(d, id)
    ensures var t := st.Apply(InsertDoc(d));
      && UniqueIds(t.docs)
      && t.Find(id) == Some((st.nextId, d))
      && (forall k :: k in st.docs ==> k in t.docs && t.docs[k] == st.docs[k])
  {
    var t := st.Apply(InsertDoc(d));
    assert forall k :: k in t.docs && k != st.nextId ==> k in st.docs && t.docs[k] == st.docs[k];
    var r := FirstSnapshot(t.docs, id, 0, t.nextId);
    assert r.Some? by {
      assert st.nextId in t.docs && IsSnapshotOf(t.docs[st.nextId], id);
    }
    assert r.value == st.nextId;
  }

  /** A `$set` that leaves `id` alone keeps "one document per `id`" and keeps the `_id` found. */
  lemma RefreshKeepsOnePerId(st: SnapshotState, id: int, fields: Doc)
    requires st.Valid() && UniqueIds(st.docs) && st.Find(id).Some? && "id" !in fields
    ensures var (oid, d) := st.Find(id).value;
      var t := st.Apply(SetFields(oid, fields));
      && UniqueIds(t.docs)
      && t.Find(id) == Some((oid, d + fields))
      && (forall k :: k in st.docs && k != oid ==> k in t.docs && t.docs[k] == st.docs[k])
  {
    var (oid, d) := st.Find(id).value;
    var t := st.Apply(SetFields(oid, fields));
    assert forall k :: k in t.docs ==> ("id" in t.docs[k] <==> "id" in st.docs[k]);
    assert forall k :: k in t.docs && "id" in t.docs[k] ==> t.docs[k]["id"] == st.docs[k]["id"];
    assert FirstSnapshot(t.docs, id, 0, t.nextId) == Some(oid);
  }

  /** Either snapshot write for `id` keeps "one document per `id`" and leaves exactly one snapshot of `id`. */
  lemma WriteKeepsOnePerId(st: SnapshotState, id: int, w: SnapshotWrite, d: Doc, fields: Doc)
    requires st.Valid() && UniqueIds(st.docs) && IsSnapshotOf(d, id) && "id" !in fields
    requires st.Find(id).None? ==> w == InsertDoc(d)
    requires st.Find(id).Some? ==> w == SetFields(st.Find(id).value.0, fields)
    ensures var t := st.Apply(w);
      && UniqueIds(t.docs)
      && (st.Find(id).None? ==> t.Find(id) == Some((st.nextId, d)))
      && (st.Find(id).Some? ==> t.Find(id) == Some((st.Find(id).value.0, st.Find(id).value.1 + fields)))
      && (forall k :: k in st.docs && !IsSnapshotOf(st.docs[k], id) ==> k in t.docs && t.docs[k] == st.docs[k])
  {
    if st.Find(id).None? {
      InsertKeepsOnePerId(st, d, id);
    } else {
      RefreshKeepsOnePerId(st, id, fields);
    }
  }

  /**
   * A snapshot write keeps "one document per `id`", and afterwards the
   * segment has exactly one snapshot: the inserted `to_dict()` when it had
   * none, else its old document with the `$set` fields applied under the
   * same `_id`; other segments' snapshots are untouched.
   */
  lemma SnapshotWriteKeepsOnePerId(st: SnapshotState, segment: EnhancedSegment)
    requires st.Valid() && UniqueIds(st.docs)
    ensures var t := st.Apply(SnapshotWriteFor(st.Find(segment.id), segment));
      && UniqueIds(t.docs)
      && (st.Find(segment.id).None? ==> t.Find(segment.id) == Some((st.nextId, ToDict(segment))))
      && (st.Find(segment.id).Some? ==>
            t.Find(segment.id) == Some((st.Find(segment.id).value.0, st.Find(segment.id).value.1 + SnapshotFields(segment))))
      && (forall k :: k in st.docs && !IsSnapshotOf(st.docs[k], segment.id) ==> k in t.docs && t.docs[k] == st.docs[k])
  {
    WriteKeepsOnePerId(st, segment.id, SnapshotWriteFor(st.Find(segment.id), segment), ToDict(segment), SnapshotFields(segment));
  }

  // ---------------------------------------------------------------- the repository

  /** `SegmentsRepository`: writes through the `effort_stats` and `segments` collections it is given. */
  class Repository {
    const effortStats: EffortCollection<int>
    const segments: SnapshotCollection

    constructor (effortStats: EffortCollection<int>, segments: SnapshotCollection)
      ensures this.effortStats == effortStats && this.segments == segments
    {
      this.effortStats := effortStats;
      this.segments := segments;
    }

    /** `update_existing_effort`: the positional set of today's sample. */
    method UpdateExistingEffort(data: EffortRecord<int>, fetchDate: string) returns (o: Outcome<StoreError>)
      requires effortStats.Valid() && |data.efforts| > 0
      modifies effortStats
      ensures effortStats.Valid() && effortStats.fault == old(effortStats.fault)
      ensures var w := UpdateRecord(SetMatchedCount(data.segmentId, fetchDate, data.efforts[0].effortCount));
        && effortStats.journal == old(effortStats.journal) + [w]
        && o == Raised(effortStats.fault)
        && effortStats.state == if o.Pass? then old(effortStats.state).Apply(w) else old(effortStats.state)
    {
      o := effortStats.UpdateOne(SetMatchedCount(data.segmentId, fetchDate, data.efforts[0].effortCount));
    }

    /** `add_new_effort`: the push of a sample dated `fetchDate`, without upsert. */
    method AddNewEffort(data: EffortRecord<int>, fetchDate: string) returns (o: Outcome<StoreError>)
      requires effortStats.Valid() && |data.efforts| > 0
      modifies effortStats
      ensures effortStats.Valid() && effortStats.fault == old(effortStats.fault)
      ensures var w := UpdateRecord(PushEffort(data.segmentId, Effort(data.efforts[0].effortCount, fetchDate)));
        && effortStats.journal == old(effortStats.journal) + [w]
        && o == Raised(effortStats.fault)
        && effortStats.state == if o.Pass? then old(effortStats.state).Apply(w) else old(effortStats.state)
    {
      o := effortStats.UpdateOne(PushEffort(data.segmentId, Effort(data.efforts[0].effortCount, fetchDate)));
    }

    /** `create_new_effort_data`: the insert of a record holding the first sample only. */
    method CreateNewEffortData(data: EffortRecord<int>) returns (o: Outcome<StoreError>)
      requires effortStats.Valid() && |data.efforts| > 0
      modifies effortStats
      ensures effortStats.Valid() && effortStats.fault == old(effortStats.fault)
      ensures var w := InsertRecord(EffortRecord(data.segmentId, data.name, [data.efforts[0]]));
        && effortStats.journal == old(effortStats.journal) + [w]
        && o == Raised(effortStats.fault)
        && effortStats.state == if o.Pass? then old(effortStats.state).Apply(w) else old(effortStats.state)
    {
      var first := Effort(data.efforts[0].effortCount, data.efforts[0].fetchDate);
      o := effortStats.InsertOne(EffortRecord(data.segmentId, data.name, [first]));
    }

    /**
     * `update_effort_data`: exactly one write to `effort_stats`, the one
     * `LedgerWrite` picks; a store error is returned unchanged and then no
     * document has changed.
     */
    method UpdateEffortData(segment: EnhancedSegment, now: CalendarDate) returns (o: Outcome<StoreError>)
      requires effortStats.Valid()
      modifies effortStats
      ensures effortStats.Valid() && effortStats.fault == old(effortStats.fault)
      ensures var w := LedgerWrite(old(effortStats.state).Find(BySegment(segment.id)),
                                   MapSegmentEffortData(segment, now), Format(now));
        && effortStats.journal == old(effortStats.journal) + [w]
        && o == Raised(effortStats.fault)
        && effortStats.state == if o.Pass? then old(effortStats.state).Apply(w) else old(effortStats.state)
    ensures o.Pass? ==> effortStats.state == Recorded(old(effortStats.state), segment.id, segment.name, segment.effortCount, Format(now))
    ensures LedgerInvariant(old(effortStats.state)) ==> LedgerInvariant(effortStats.state)
    {
      LedgerWriteRecords(effortStats.state, segment, now);
      if LedgerInvariant(effortStats.state) {
        RecordedPreservesInvariant(effortStats.state, segment.id, segment.name, segment.effortCount, Format(now));
      }
      var data := MapSegmentEffortData(segment, now);
      var fetchDate := data.efforts[0].fetchDate;
      var existing := effortStats.FindOne(BySegment(data.segmentId));
      if existing.Some? {
        var sameDate := FindByDate(existing.value.efforts, fetchDate);
        if sameDate.Some? {
          o := UpdateExistingEffort(data, fetchDate);
        } else {
          o := AddNewEffort(data, fetchDate);
        }
      } else {
        o := CreateNewEffortData(data);
      }
    }

    /**
     * `update_segment_data`: exactly one write to `segments`, the `$set`
     * keyed by the existing `_id` or the insert of `to_dict()`.
     */
    method UpdateSegmentData(segment: EnhancedSegment) returns (o: Outcome<StoreError>)
      requires segments.Valid()
      modifies segments
      ensures segments.Valid() && segments.fault == old(segments.fault)
      ensures var w := SnapshotWriteFor(old(segments.state).Find(segment.id), segment);
        && segments.journal == old(segments.journal) + [w]
        && o == Raised(segments.fault)
        && segments.state == if o.Pass? then old(segments.state).Apply(w) else old(segments.state)
    ensures UniqueIds(old(segments.state).docs) ==> UniqueIds(segments.state.docs) && (o.Pass? ==> segments.state.Find(segment.id).Some?)
    {
      if UniqueIds(segments.state.docs) {
        SnapshotWriteKeepsOnePerId(segments.state, segment);
      }
      var existing := segments.FindOne(segment.id);
      if existing.Some? {
        o := segments.UpdateOne(existing.value.0, SnapshotFields(segment));
      } else {
        o := segments.InsertOne(ToDict(segment));
      }
    }

    /**
     * `write_segment_data`: the ledger write, then the snapshot write. A
     * store error from the ledger is returned unchanged and `segments` is
     * not called at all; an error from the snapshot write leaves the
     * ledger's write in place.
     */
    method WriteSegmentData(segment: EnhancedSegment, now: CalendarDate) returns (o: Outcome<StoreError>)
      requires effortStats.Valid() && segments.Valid()
      modifies effortStats, segments
      ensures effortStats.Valid() && segments.Valid()
      ensures effortStats.fault == old(effortStats.fault) && segments.fault == old(segments.fault)
      ensures var w := LedgerWrite(old(effortStats.state).Find(BySegment(segment.id)),
                                   MapSegmentEffortData(segment, now), Format(now));
        && effortStats.journal == old(effortStats.journal) + [w]
        && effortStats.state == if effortStats.fault.None? then old(effortStats.state).Apply(w) else old(effortStats.state)
      ensures effortStats.fault.Some? ==> o == Fail(effortStats.fault.value) && unchanged(segments)
      ensures effortStats.fault.None? ==>
        var w := SnapshotWriteFor(old(segments.state).Find(segment.id), segment);
        && segments.journal == old(segments.journal) + [w]
        && o == Raised(segments.fault)
        && segments.state == if o.Pass? then old(segments.state).Apply(w) else old(segments.state)
    ensures LedgerInvariant(old(effortStats.state)) ==> LedgerInvariant(effortStats.state)
    ensures UniqueIds(old(segments.state).docs) ==> UniqueIds(segments.state.docs)
    {
      o := UpdateEffortData(segment, now);
      if o.Fail? {
        return;
      }
      o := UpdateSegmentData(segment);
    }
  }
}
