/**
 * The daily effort time series of one segment: the `Effort` and
 * `SegmentEffortData` shapes, the positional update and the append, and
 * the ledger rule "overwrite today's sample, else append one".
 */
module EffortLedger {
  import opened Wrappers

  /** One daily sample: `{effort_count, fetch_date}`. */
  datatype Effort = Effort(effortCount: int, fetchDate: string)

  /** The record stored per segment: `{segment_id, name, efforts}`. */
  datatype EffortRecord<Id> = EffortRecord(segmentId: Id, name: string, efforts: seq<Effort>)

  /** The index of the first sample dated `date`, or None when there is none. */
  function FindByDate(efforts: seq<Effort>, date: string): (r: Option<nat>)
    ensures r.Some? ==> r.value < |efforts| && efforts[r.value].fetchDate == date
    ensures r.Some? ==> forall j :: 0 <= j < r.value ==> efforts[j].fetchDate != date
    ensures r.None? <==> forall j :: 0 <= j < |efforts| ==> efforts[j].fetchDate != date
  {
    if efforts == [] then None
    else if efforts[0].fetchDate == date then Some(0)
    else match FindByDate(efforts[1..], date)
      case None => None
      case Some(i) => Some(i + 1)
  }

  predicate HasDate(efforts: seq<Effort>, date: string)
  {
    FindByDate(efforts, date).Some?
  }

  /** The count recorded for `date`, read from the first sample with that date. */
  function CountOn(efforts: seq<Effort>, date: string): Option<int>
  {
    match FindByDate(efforts, date)
    case None => None
    case Some(i) => Some(efforts[i].effortCount)
  }

  /** The positional update `efforts.$.effort_count`: the first sample dated `date` gets `count`. */
  function SetFirstCount(efforts: seq<Effort>, date: string, count: int): (r: seq<Effort>)
    ensures |r| == |efforts|
    ensures forall j :: 0 <= j < |r| ==> r[j].fetchDate == efforts[j].fetchDate
    ensures FindByDate(efforts, date).None? ==> r == efforts
    ensures FindByDate(efforts, date).Some? ==> r[FindByDate(efforts, date).value].effortCount == count
  {
    match FindByDate(efforts, date)
    case None => efforts
    case Some(i) => efforts[i := efforts[i].(effortCount := count)]
  }

  /** The `$push` of one sample onto the end of `efforts`. */
  function Push(efforts: seq<Effort>, e: Effort): (r: seq<Effort>)
    ensures |r| == |efforts| + 1 && r[..|efforts|] == efforts && r[|efforts|] == e
  {
    efforts + [e]
  }

  /** What one ledger call does to an existing record's samples. */
  function RecordSample(efforts: seq<Effort>, count: int, today: string): (r: seq<Effort>)
    ensures |r| == if HasDate(efforts, today) then |efforts| else |efforts| + 1
    ensures HasDate(r, today)
  {
    if HasDate(efforts, today) then SetFirstCount(efforts, today, count)
    else Push(efforts, Effort(count, today))
  }

  /** At most one sample per fetch date. */
  predicate DatesUnique(efforts: seq<Effort>)
  {
    forall i, j :: 0 <= i < j < |efforts| ==> efforts[i].fetchDate != efforts[j].fetchDate
  }

  /** A sample for today exists: exactly that sample's count changes, in place. */
  lemma RecordSampleOverwrites(efforts: seq<Effort>, count: int, today: string)
    requires HasDate(efforts, today)
    ensures var r := RecordSample(efforts, count, today);
      var i := FindByDate(efforts, today).value;
      && |r| == |efforts|
      && r[i] == Effort(count, today)
      && forall j :: 0 <= j < |efforts| && j != i ==> r[j] == efforts[j]
  {
  }

  /** No sample for today: one sample is added at the end, the earlier ones stay in order. */
  lemma RecordSampleAppends(efforts: seq<Effort>, count: int, today: string)
    requires !HasDate(efforts, today)
    ensures var r := RecordSample(efforts, count, today);
      && |r| == |efforts| + 1
      && r[..|efforts|] == efforts
      && r[|efforts|] == Effort(count, today)
  {
  }

  /**
   * Read as a partial map from date to count, the ledger call is an update at
   * `today` and nothing else.
   */
  lemma RecordSampleAsMap(efforts: seq<Effort>, count: int, today: string, date: string)
    ensures CountOn(RecordSample(efforts, count, today), date)
         == if date == today then Some(count) else CountOn(efforts, date)
  {
    var r := RecordSample(efforts, count, today);
    if HasDate(efforts, today) {
      var i := FindByDate(efforts, today).value;
      assert forall j :: 0 <= j < |r| ==> r[j].fetchDate == efforts[j].fetchDate;
      assert FindByDate(r, date) == FindByDate(efforts, date);
    } else {
      assert forall j :: 0 <= j < |efforts| ==> r[j] == efforts[j];
      if date == today {
        assert r[|efforts|].fetchDate == today;
        assert FindByDate(r, date) == Some(|efforts|);
      } else {
        assert FindByDate(r, date) == FindByDate(efforts, date);
      }
    }
  }

  /** The ledger call keeps "at most one sample per fetch date". */
  lemma RecordSamplePreservesUnique(efforts: seq<Effort>, count: int, today: string)
    requires DatesUnique(efforts)
    ensures DatesUnique(RecordSample(efforts, count, today))
  {
    var r := RecordSample(efforts, count, today);
    if HasDate(efforts, today) {
      assert forall j :: 0 <= j < |r| ==> r[j].fetchDate == efforts[j].fetchDate;
    } else {
      assert forall j :: 0 <= j < |efforts| ==> r[j] == efforts[j];
    }
  }

  /** Two calls on the same day leave what the second call alone would: the later count wins. */
  lemma LatestWins(efforts: seq<Effort>, first: int, second: int, today: string)
    ensures RecordSample(RecordSample(efforts, first, today), second, today)
         == RecordSample(efforts, second, today)
  {
    var once := RecordSample(efforts, first, today);
    if HasDate(efforts, today) {
      assert forall j :: 0 <= j < |once| ==> once[j].fetchDate == efforts[j].fetchDate;
      assert FindByDate(once, today) == FindByDate(efforts, today);
    } else {
      assert forall j :: 0 <= j < |efforts| ==> once[j] == efforts[j];
      assert once[|efforts|].fetchDate == today;
      assert FindByDate(once, today) == Some(|efforts|);
      var twice := RecordSample(once, second, today);
      assert twice == efforts + [Effort(second, today)];
    }
  }

  /** Repeating the same call on the same day changes nothing. */
  lemma SameDayIdempotent(efforts: seq<Effort>, count: int, today: string)
    ensures var once := RecordSample(efforts, count, today);
      RecordSample(once, count, today) == once
  {
    LatestWins(efforts, count, count, today);
  }

  /** Calls on two new days add two samples, in call order, neither overwriting the other. */
  lemma AppendAcrossDays(efforts: seq<Effort>, c1: int, d1: string, c2: int, d2: string)
    requires d1 != d2 && !HasDate(efforts, d1) && !HasDate(efforts, d2)
    ensures RecordSample(RecordSample(efforts, c1, d1), c2, d2)
         == efforts + [Effort(c1, d1), Effort(c2, d2)]
  {
    var once := RecordSample(efforts, c1, d1);
    assert forall j :: 0 <= j < |efforts| ==> once[j] == efforts[j];
    assert !HasDate(once, d2);
  }

  /** One ledger call per element of `calls`, in order: `(effort_count, fetch_date)`. */
  function Replay(efforts: seq<Effort>, calls: seq<(int, string)>): seq<Effort>
    decreases |calls|
  {
    if calls == [] then efforts
    else Replay(RecordSample(efforts, calls[0].0, calls[0].1), calls[1..])
  }

  /**
   * Append-only across days: after any sequence of calls the samples present
   * before keep their positions and dates, and only their counts can change.
   */
  lemma {:induction false} ReplayKeepsDates(efforts: seq<Effort>, calls: seq<(int, string)>)
    ensures var r := Replay(efforts, calls);
      |efforts| <= |r| && forall j :: 0 <= j < |efforts| ==> r[j].fetchDate == efforts[j].fetchDate
    decreases |calls|
  {
    if calls != [] {
      var next := RecordSample(efforts, calls[0].0, calls[0].1);
      if HasDate(efforts, calls[0].1) {
        assert forall j :: 0 <= j < |next| ==> next[j].fetchDate == efforts[j].fetchDate;
      } else {
        assert forall j :: 0 <= j < |efforts| ==> next[j] == efforts[j];
      }
      ReplayKeepsDates(next, calls[1..]);
    }
  }

  /** Any sequence of calls keeps "at most one sample per fetch date". */
  lemma {:induction false} ReplayPreservesUnique(efforts: seq<Effort>, calls: seq<(int, string)>)
    requires DatesUnique(efforts)
    ensures DatesUnique(Replay(efforts, calls))
    decreases |calls|
  {
    if calls != [] {
      RecordSamplePreservesUnique(efforts, calls[0].0, calls[0].1);
      ReplayPreservesUnique(RecordSample(efforts, calls[0].0, calls[0].1), calls[1..]);
    }
  }
}
