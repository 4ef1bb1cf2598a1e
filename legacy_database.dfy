/**
 * The older database layer: the same daily effort ledger, kept in the
 * `segment_stats` collection, written with one `update_one` per call that
 * either sets today's sample in place or pushes a sample with an upsert on
 * `{segment_id, name}`.
 */
module LegacyDatabase {
  import opened Wrappers
  import opened DateFormat
  import opened EffortLedger
  import opened DocumentStore
  import opened SegmentsRepository

  /** `SegmentEffortData`: the payload the older layer is handed. */
  datatype SegmentEffortData = SegmentEffortData(id: string, name: string, effortCount: int, fetchDate: string)

  /**
   * The one `update_one` of `update_segment_effort_data`, given what the
   * `find_one` on `{segment_id, efforts.fetch_date}` returned: never an
   * `insert_one`; the positional set when a record has a sample dated
   * today, the upserting push on `{segment_id, name}` otherwise. The
   * payload's own `fetchDate` plays no part.
   */
  function LegacyWrite(existing: Option<EffortRecord<string>>, segment: SegmentEffortData, today: string): (w: EffortWrite<string>)
    ensures w.UpdateRecord? && w.update.segmentId == segment.id
    ensures w.update.SetMatchedCount? <==> existing.Some?
    ensures w.update.SetMatchedCount? ==> w.update.date == today && w.update.count == segment.effortCount
    ensures !w.update.SetMatchedCount? ==>
      w.update.UpsertPushEffort? && w.update.name == segment.name && w.update.effort == Effort(segment.effortCount, today)
  {
    if existing.Some? then UpdateRecord(SetMatchedCount(segment.id, today, segment.effortCount))
    else UpdateRecord(UpsertPushEffort(segment.id, segment.name, Effort(segment.effortCount, today)))
  }

  /**
   * As long as a segment's record carries the name the segment is written
   * with, the older layer does exactly what the ledger is meant to do: the
   * same collection as `Recorded`, one record per segment.
   */
  lemma LegacyAgreesWithLedger(s: EffortState<string>, segment: SegmentEffortData, today: string)
    requires LedgerInvariant(s)
    requires forall k :: k in s.docs && s.docs[k].segmentId == segment.id ==> s.docs[k].name == segment.name
    ensures s.Apply(LegacyWrite(s.Find(BySegmentAndDate(segment.id, today)), segment, today))
      == Recorded(s, segment.id, segment.name, segment.effortCount, today)
  {
    var id := segment.id;
    match s.First(BySegment(id))
    case None =>
      assert s.First(BySegmentAndDate(id, today)).None?;
      assert s.First(BySegmentAndName(id, segment.name)).None?;
    case Some(k) =>
      if HasDate(s.docs[k].efforts, today) {
        FirstOfNarrower(s, BySegment(id), BySegmentAndDate(id, today), k);
      } else {
        assert s.First(BySegmentAndDate(id, today)).None? by {
          forall j | j in s.docs && BySegmentAndDate(id, today).Matches(s.docs[j])
            ensures j == k
          {
          }
        }
        FirstOfNarrower(s, BySegment(id), BySegmentAndName(id, segment.name), k);
      }
  }

  /**
   * The older layer's upsert filter includes the name: a segment renamed
   * since its record was created, written on a day its record has no sample
   * for, gets a second record, and the lookup by `segment_id` still
   * returns the first record, which lacks today's sample.
   */
  lemma LegacyRenameDuplicatesRecord()
    ensures var s := EffortState(map[0 := EffortRecord("7", "Old Climb", [Effort(3, "01-01-2030")])], 1);
      var segment := SegmentEffortData("7", "New Climb", 5, "02-01-2030");
      var t := s.Apply(LegacyWrite(s.Find(BySegmentAndDate("7", "02-01-2030")), segment, "02-01-2030"));
      && LedgerInvariant(s)
      && t.docs == map[0 := s.docs[0], 1 := EffortRecord("7", "New Climb", [Effort(5, "02-01-2030")])]
      && !UniqueSegments(t.docs)
      && t.Find(BySegment("7")) == Some(s.docs[0])
      && CountOn(t.Find(BySegment("7")).value.efforts, "02-01-2030") == None
  {
    var today := "02-01-2030";
    var s := EffortState(map[0 := EffortRecord("7", "Old Climb", [Effort(3, "01-01-2030")])], 1);
    var segment := SegmentEffortData("7", "New Climb", 5, today);
    assert "01-01-2030" != today;
    assert FindByDate(s.docs[0].efforts, today) == None by {
      assert FindByDate(s.docs[0].efforts[1..], today) == None;
    }
    assert s.Find(BySegmentAndDate("7", today)) == None by {
      assert !BySegmentAndDate("7", today).Matches(s.docs[0]);
    }
    var w := LegacyWrite(None, segment, today);
    assert s.First(BySegmentAndName("7", "New Climb")) == None by {
      assert s.docs[0].name != "New Climb";
    }
    var t := s.Apply(w);
    assert t == EffortState(map[0 := s.docs[0], 1 := EffortRecord("7", "New Climb", [Effort(5, today)])], 2);
    assert t.docs[0].segmentId == t.docs[1].segmentId;
    assert t.First(BySegment("7")) == Some(0);
  }

  /** `Database`: only the `segment_stats` collection it writes through. */
  class Database {
    const segmentStats: EffortCollection<string>

    constructor (segmentStats: EffortCollection<string>)
      ensures this.segmentStats == segmentStats
    {
      this.segmentStats := segmentStats;
    }

    /**
     * `update_segment_effort_data`: exactly one `update_one`, the one
     * `LegacyWrite` picks for today's `DD-MM-YYYY` key; a store error
     * propagates and then no document has changed.
     */
    method UpdateSegmentEffortData(segment: SegmentEffortData, now: CalendarDate) returns (o: Outcome<StoreError>)
      requires segmentStats.Valid()
      modifies segmentStats
      ensures segmentStats.Valid() && segmentStats.fault == old(segmentStats.fault)
      ensures var w := LegacyWrite(old(segmentStats.state).Find(BySegmentAndDate(segment.id, Format(now))), segment, Format(now));
        && segmentStats.journal == old(segmentStats.journal) + [w]
        && o == Raised(segmentStats.fault)
        && segmentStats.state == if o.Pass? then old(segmentStats.state).Apply(w) else old(segmentStats.state)
    ensures o.Pass? && LedgerInvariant(old(segmentStats.state))
      && (forall k :: k in old(segmentStats.state).docs && old(segmentStats.state).docs[k].segmentId == segment.id ==> old(segmentStats.state).docs[k].name == segment.name)
      ==> segmentStats.state == Recorded(old(segmentStats.state), segment.id, segment.name, segment.effortCount, Format(now))
    {
      if LedgerInvariant(segmentStats.state)
        && (forall k :: k in segmentStats.state.docs && segmentStats.state.docs[k].segmentId == segment.id ==> segmentStats.state.docs[k].name == segment.name)
      {
        LegacyAgreesWithLedger(segmentStats.state, segment, Format(now));
      }
      var fetchDate := Format(now);
      var existing := segmentStats.FindOne(BySegmentAndDate(segment.id, fetchDate));
      if existing.Some? {
        o := segmentStats.UpdateOne(SetMatchedCount(segment.id, fetchDate, segment.effortCount));
      } else {
        o := segmentStats.UpdateOne(UpsertPushEffort(segment.id, segment.name, Effort(segment.effortCount, fetchDate)));
      }
    }

    /** `get_segment_effort_data`: the first record of the segment, or nothing when it has none. */
    method GetSegmentEffortData(segmentId: string) returns (r: Option<EffortRecord<string>>)
      requires segmentStats.Valid()
      ensures r == segmentStats.state.Find(BySegment(segmentId))
      ensures r.None? <==> forall k :: k in segmentStats.state.docs ==> segmentStats.state.docs[k].segmentId != segmentId
      ensures r.Some? ==> r.value.segmentId == segmentId && r.value in segmentStats.state.docs.Values
    {
      r := segmentStats.FindOne(BySegment(segmentId));
    }
  }
}
