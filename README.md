# Segment effort ledger and snapshot store

This project models the Strava segment synchroniser's write path and proves properties of it. For each trail segment the service fetches, it writes two things:

- **The effort ledger.** One record per segment in the `effort_stats` collection, holding a time series of `(effort_count, fetch_date)` samples. The date key is the current day written as `DD-MM-YYYY`. A ledger call inserts a new record when the segment has none. If the record already has a sample for today, the call overwrites that sample's count in place. Otherwise it appends a sample.
- **The snapshot.** One document per segment in the `segments` collection: the segment's latest state as produced by `EnhancedSegment.to_dict()`. When the document already exists, it is refreshed with a `$set` of fifteen fields.

The model also covers the pieces these writes depend on:

- how an `EnhancedSegment` is built from a raw Strava payload (`from_raw_segment`) and serialised (`to_dict`, `Map.to_dict`, `LocalLegend.to_dict`);
- the two raw-payload validators (`convert_latlng`, `convert_local_legend`);
- the older database layer, `database.py`, which keeps the same ledger in `segment_stats` using an upserting push.

Modules, one file each:

- `Wrappers`: `Option`, `Result`, and `Outcome` (success, or the error a call raises).
- `Documents`: the dynamic values of a document (`Value`, `Doc`) and Python truthiness.
- `DateFormat`: `strftime("%d-%m-%Y")` for a calendar date, with its inverse.
- `EffortLedger`: samples, the first-match lookup by date, and the effect of one ledger call on a record's samples (`RecordSample`).
- `DocumentStore`: the two collections the core writes to.
  - Each is a class holding the documents, the error its writes raise (if any), and a journal of every write call made.
  - `find_one` returns the first match in natural order; `_id`s are handed out in increasing order.
- `RawSegments`: the raw payload types, their `to_dict`s, and the two `before` validators. The validators work on a mutable `Payload` dictionary.
- `EnhancedSegments`: the stored segment, `from_raw_segment` and `to_dict`.
- `SegmentsRepository`: `map_segment_effort_data` and the `SegmentsRepository` class. The intended ledger effect (`Recorded`) and the store invariants are stated next to it.
- `LegacyDatabase`: `update_segment_effort_data` and `get_segment_effort_data` of the older layer.

The current date is a parameter (`now: CalendarDate`): the clock is not modelled. Store errors are modelled as follows:

- Each collection has a `fault` field. While it is set, every write raises that error and leaves the documents unchanged.
- The write is still recorded in the journal.
- The repository's `_update_one` / `_insert_one` re-raise such an error unchanged. This is modelled by returning the collection's `Outcome` as it is.

Where the code and its documented intent differ, the model follows the code:

- **The snapshot refresh is a merge, not a full overwrite.** `update_segment_data` `$set`s fifteen fields. `id`, `alt_name`, `trail_area`, `difficulty`, `popularity` and any field a previous payload left behind keep their stored values (`RefreshKeepsOtherFields`).
- **The positional update changes the first sample with today's date.** That is also the sample `update_effort_data`'s own lookup finds. It is the only one once dates are unique, which the ledger maintains.
- **`convert_local_legend` reads a top-level `effort_counts`.** It runs on the whole raw payload and fills in `female`. The dictionary nested under `local_legend` is not touched.

## Model

| member | source | states |
|---|---|---|
| DateFormat.Format | utils/config.py:9 | The ledger's date key is ten characters long: two digits for the day, a dash, two for the month, a dash, four for the year. |
| DateFormat.NumberOfDigits | utils/config.py:9 | Reading back a zero-padded number of any width gives the number, when it fits in that width. |
| DateFormat.FormatRoundTrip | utils/config.py:9 | Parsing a formatted date key gives back the calendar date. |
| DateFormat.FormatInjective | utils/config.py:9 | Two dates have the same key exactly when they are the same day, so "one sample per key" means "one sample per day". |
| EffortLedger.FindByDate | services/segments_repository.py:87-88 | The result is the first sample with the given date and no earlier one has it; there is no result exactly when no sample has that date. |
| EffortLedger.RecordSampleOverwrites | services/segments_repository.py:86-91 | When today is present, the call keeps the length, replaces that one sample with `(count, today)` and leaves every other sample unchanged. |
| EffortLedger.RecordSampleAppends | services/segments_repository.py:92-94 | When today is absent, the call appends `(count, today)` and keeps the earlier samples as a prefix, in order. |
| EffortLedger.RecordSampleAsMap | services/segments_repository.py:72-97 | Read as a map from date to count, a ledger call updates `today` to the new count and no other date. |
| EffortLedger.RecordSamplePreservesUnique | services/segments_repository.py:72-97 | A ledger call keeps "at most one sample per date". |
| EffortLedger.LatestWins | services/segments_repository.py:86-91 | Two calls on one day leave what the second call alone would leave: the later count wins. |
| EffortLedger.SetFirstCount | services/segments_repository.py:41-44 | The positional update keeps the length and every date. Without a sample for the date it changes nothing; otherwise the first sample for the date gets the new count. |
| EffortLedger.Push | services/segments_repository.py:53-58 | The push adds the sample at the end and keeps the earlier samples as a prefix. |
| EffortLedger.RecordSample | services/segments_repository.py:86-94 | A ledger call adds a sample exactly when today has none, keeps the length otherwise, and always leaves a sample dated today. |
| EffortLedger.SameDayIdempotent | services/segments_repository.py:86-91 | Repeating the same call on the same day changes nothing. |
| EffortLedger.AppendAcrossDays | services/segments_repository.py:92-94 | Calls on two new days append two samples in call order, and neither overwrites the other. |
| EffortLedger.ReplayKeepsDates | services/segments_repository.py:72-97 | After any sequence of calls, earlier samples keep their position and date; only counts change and the series never shrinks. |
| EffortLedger.ReplayPreservesUnique | services/segments_repository.py:72-97 | Any sequence of calls keeps "at most one sample per date". |
| DocumentStore.Raised | services/segments_repository.py:23-37 | A write succeeds exactly when the store raises nothing; otherwise the store's error is the one raised. |
| DocumentStore.FirstRecord | services/segments_repository.py:77-80 | The result is the least `_id` in range whose record matches the filter, and no smaller one matches; there is none exactly when nothing in range matches. |
| DocumentStore.EffortState.Find | services/segments_repository.py:77-80 | `find_one` returns nothing exactly when no record matches; otherwise it returns a stored record that matches. |
| DocumentStore.EffortState.Apply | services/segments_repository.py:39-70 | A write keeps every stored `_id` below the next one to hand out and removes no document. |
| DocumentStore.EffortCollection.constructor | db/database.py:46-56 | The collection `db[collection_name]` that the database wrapper writes through starts empty and error-free, with no writes recorded. |
| DocumentStore.EffortCollection.FindOne | services/segments_repository.py:77-80 | Returns the first matching record and changes nothing. |
| DocumentStore.EffortCollection.InsertOne | services/segments_repository.py:31-37 | Exactly one write is recorded. It raises the store's error and changes nothing, or it adds the record under a fresh `_id`. |
| DocumentStore.EffortCollection.UpdateOne | services/segments_repository.py:23-29 | Exactly one write is recorded. It raises the store's error and changes nothing, or it applies the update. |
| DocumentStore.FirstSnapshot | services/segments_repository.py:105 | The result is the least `_id` in range holding the snapshot of `id`, and no smaller one holds it; there is none exactly when no document in range does. |
| DocumentStore.SnapshotState.Find | services/segments_repository.py:105 | Returns nothing exactly when no document has that `id`; otherwise it returns a stored document with that `id`, together with its `_id`. |
| DocumentStore.SnapshotState.Apply | services/segments_repository.py:107-133 | A write keeps every stored `_id` below the next one to hand out and removes no document. |
| DocumentStore.SnapshotCollection.constructor | db/database.py:46-56 | The collection `db[collection_name]` that the database wrapper writes through starts empty and error-free, with no writes recorded. |
| DocumentStore.SnapshotCollection.FindOne | services/segments_repository.py:105 | Returns the first snapshot of `id` with its `_id` and changes nothing. |
| DocumentStore.SnapshotCollection.InsertOne | services/segments_repository.py:133 | Exactly one write is recorded. It raises the store's error and changes nothing, or it adds the document under a fresh `_id`. |
| DocumentStore.SnapshotCollection.UpdateOne | services/segments_repository.py:107-130 | Exactly one write is recorded. It raises the store's error and changes nothing, or it merges the fields into the document with that `_id`. |
| RawSegments.CountsToDoc | models/RawSegment.py:39 | The `effort_counts` dictionary keeps exactly the legend's keys. |
| RawSegments.LocalLegend.ToDict | models/RawSegment.py:32-41 | `LocalLegend.to_dict` has exactly its seven keys. |
| RawSegments.Map.ToDict | models/RawSegment.py:58-63 | `Map.to_dict` has exactly its three keys. |
| RawSegments.LocalLegendToDictInjective | models/RawSegment.py:32-41 | `LocalLegend.to_dict` loses nothing: equal dictionaries come from equal legends. |
| RawSegments.MapToDictInjective | models/RawSegment.py:58-63 | `Map.to_dict` loses nothing: equal dictionaries come from equal maps. |
| RawSegments.Payload.constructor | models/RawSegment.py:97-98 | The validator's input dictionary is held as given. |
| RawSegments.ConvertLatLng | models/RawSegment.py:97-103 | The payload and outcome after the in-place conversion are those of `LatLngConverted`, including the partly converted payload left when `end_latlng` is short. |
| RawSegments.LatLngConverted | models/RawSegment.py:97-103 | The validator keeps the dictionary's keys and every field other than the two coordinates. Whatever it raises is an index error. |
| RawSegments.LatLngConvertedSpec | models/RawSegment.py:97-103 | Raises exactly when a coordinate is a list of fewer than two elements. Keys and non-coordinate fields are unchanged. On success both list coordinates become `LatLng(first, second)`, and others are kept. |
| RawSegments.LatLngConvertedIdempotent | models/RawSegment.py:97-103 | Converting an already converted payload succeeds and changes nothing. |
| RawSegments.ConvertLocalLegend | models/RawSegment.py:105-109 | The outcome is that of `LocalLegendConverted`. On success the payload becomes the converted one; on error it is unchanged. |
| RawSegments.LocalLegendConverted | models/RawSegment.py:105-109 | On success the validator keeps the dictionary's keys and every field other than `effort_counts`. It fails only with the attribute error on `effort_counts`. |
| RawSegments.LocalLegendConvertedSpec | models/RawSegment.py:105-109 | Raises exactly when `effort_counts` is truthy and not a dictionary. A missing or falsy `effort_counts` leaves the dictionary unchanged. A truthy dictionary gets `female` set to None when that entry is missing or None, and is otherwise unchanged. Every other entry keeps its value. |
| RawSegments.LocalLegendConvertedIdempotent | models/RawSegment.py:105-109 | A second run on the converted payload changes nothing. |
| EnhancedSegments.FromRawSegment | models/EnhancedSegment.py:52-75 | The name doubles as `alt_name`. `difficulty` and `popularity` take their declared defaults. The map is the payload's map, and the polyline is the map's polyline. |
| EnhancedSegments.ToDict | models/EnhancedSegment.py:28-50 | The snapshot has an `id` entry, and it holds the segment id the snapshot is looked up by. |
| EnhancedSegments.ToDictKeys | models/EnhancedSegment.py:28-50 | `to_dict` has exactly the twenty listed keys. |
| EnhancedSegments.ToDictDeterminesIdentity | models/EnhancedSegment.py:30-33 | Equal documents have equal `id` and `trail_area`. |
| EnhancedSegments.ToDictDeterminesNames | models/EnhancedSegment.py:31-32 | Equal documents have equal `name` and `alt_name`. |
| EnhancedSegments.ToDictDeterminesCurated | models/EnhancedSegment.py:36-46 | Equal documents have equal `difficulty`, `popularity` and `kom`. |
| EnhancedSegments.ToDictDeterminesMeasures | models/EnhancedSegment.py:34-49 | Equal documents have equal grade, distance and timestamp. |
| EnhancedSegments.ToDictDeterminesCoordinates | models/EnhancedSegment.py:38-41 | Equal documents have equal start and end coordinates. |
| EnhancedSegments.ToDictDeterminesCounters | models/EnhancedSegment.py:43-45 | Equal documents have equal star, effort and athlete counts. |
| EnhancedSegments.ToDictDeterminesNested | models/EnhancedSegment.py:42-48 | Equal documents have equal local legend (absent or present), map and polyline. |
| EnhancedSegments.ToDictInjective | models/EnhancedSegment.py:28-50 | `to_dict` loses nothing: two segments with the same document are the same segment. |
| EnhancedSegments.SnapshotIdentityOfRawSegment | models/EnhancedSegment.py:52-75 | A fresh segment's snapshot has the payload's id and the given trail area. |
| EnhancedSegments.SnapshotNamesOfRawSegment | models/EnhancedSegment.py:52-75 | A fresh segment's snapshot has the payload's name as both `name` and `alt_name`. |
| EnhancedSegments.SnapshotDefaultsOfRawSegment | models/EnhancedSegment.py:13-14 | A fresh segment's snapshot has difficulty `""` and popularity `0`. |
| EnhancedSegments.SnapshotMeasuresOfRawSegment | models/EnhancedSegment.py:52-75 | A fresh segment's snapshot has the payload's grade and distance, and the given timestamp. |
| EnhancedSegments.SnapshotCountersOfRawSegment | models/EnhancedSegment.py:52-75 | A fresh segment's snapshot has the payload's star, effort and athlete counts. |
| EnhancedSegments.SnapshotNestedOfRawSegment | models/EnhancedSegment.py:42-73 | A fresh segment's snapshot has `local_legend` as null or the legend's own dictionary, `kom` from `xoms`, `map` as the map's dictionary, and a polyline equal to the map's. |
| EnhancedSegments.SnapshotCoordinatesOfRawSegment | models/EnhancedSegment.py:63-66 | A fresh segment's snapshot has coordinates taken from the payload's two `LatLng`s. |
| SegmentsRepository.MapSegmentEffortData | services/segments_repository.py:9-15 | A new ledger record carries the segment's id and name and exactly one sample, today's, holding the segment's effort count. |
| SegmentsRepository.LedgerWrite | services/segments_repository.py:72-97 | The write is an insert exactly when no record exists. Otherwise it is the positional set exactly when today has a sample, and the push of `(count, today)` when it does not. |
| SegmentsRepository.FirstOfNarrower | services/segments_repository.py:39-45 | The positional set finds the same record as the lookup by `segment_id` whenever that record has today's sample. |
| SegmentsRepository.Recorded | services/segments_repository.py:72-97 | The intended effect of one ledger call keeps every `_id` below the next one, removes no record, and leaves other segments' records unchanged. |
| SegmentsRepository.RecordedLatestWins | services/segments_repository.py:86-91 | Two ledger calls for one segment on one day leave the collection as the second call alone would: the later count wins. |
| SegmentsRepository.LedgerWriteRecords | services/segments_repository.py:72-97 | The write `update_effort_data` issues has exactly the intended effect `Recorded`: a new record with one sample, or `RecordSample` on the segment's record. |
| SegmentsRepository.RecordedPreservesInvariant | services/segments_repository.py:72-97 | A ledger call keeps one record per segment and one sample per date in every record, and leaves other segments' records untouched. |
| SegmentsRepository.RecordedSegmentRecord | services/segments_repository.py:72-97 | Afterwards the segment has exactly one record and keeps its stored name. Read as a map from date to count, it holds the new count today and the old counts on every other day. |
| SegmentsRepository.FieldListsPartitionSnapshot | services/segments_repository.py:111-128 | The fifteen refreshed fields and the five kept fields (`id`, `alt_name`, `trail_area`, `difficulty`, `popularity`) split the snapshot's twenty fields. |
| SegmentsRepository.SnapshotFields | services/segments_repository.py:111-128 | The `$set` document has no `id` entry, so the refresh never rewrites the `id` a snapshot is found by. |
| SegmentsRepository.SnapshotFieldsKeys | services/segments_repository.py:111-128 | The `$set` names exactly the fifteen fields. |
| SegmentsRepository.SnapshotFieldsAgreeOnMeasures | services/segments_repository.py:113-127 | The `$set` name, grade, distance and timestamp equal those of `to_dict`. |
| SegmentsRepository.SnapshotFieldsAgreeOnCoordinates | services/segments_repository.py:116-119 | The `$set` coordinates equal those of `to_dict`. |
| SegmentsRepository.SnapshotFieldsAgreeOnCounters | services/segments_repository.py:121-123 | The `$set` counters equal those of `to_dict`. |
| SegmentsRepository.SnapshotFieldsAgreeOnNested | services/segments_repository.py:103-126 | The `$set` local legend, `kom`, map and polyline equal those of `to_dict`. |
| SegmentsRepository.SnapshotFieldsAgreeWithToDict | services/segments_repository.py:111-128 | Every `$set` entry holds the value `to_dict` gives that field. |
| SegmentsRepository.SnapshotWriteFor | services/segments_repository.py:100-134 | The write is an insert of `to_dict()` exactly when no snapshot exists; otherwise it is the `$set` keyed by the found document's `_id`. |
| SegmentsRepository.RefreshKeepsOtherFields | services/segments_repository.py:107-130 | After the refresh the fifteen fields hold `to_dict`'s values and every other stored field keeps its old value; no field is removed. |
| SegmentsRepository.InsertKeepsOnePerId | services/segments_repository.py:132-133 | Inserting the snapshot of an id that has none keeps one document per id; the new document is the one found, and nothing else changes. |
| SegmentsRepository.RefreshKeepsOnePerId | services/segments_repository.py:105-130 | A `$set` that leaves `id` alone keeps one document per id and the same `_id` for the segment, and changes no other document. |
| SegmentsRepository.WriteKeepsOnePerId | services/segments_repository.py:100-134 | Whichever write the lookup selects keeps one document per id, and the segment's snapshot is then the one found. |
| SegmentsRepository.SnapshotWriteKeepsOnePerId | services/segments_repository.py:100-134 | `update_segment_data` never duplicates a snapshot. Afterwards the segment is found at its old `_id` with the refresh merged in, or at the new `_id` holding `to_dict()`, and other segments are untouched. |
| SegmentsRepository.Repository.constructor | services/segments_repository.py:18-21 | The repository writes through the collections it is given. |
| SegmentsRepository.Repository.UpdateExistingEffort | services/segments_repository.py:39-45 | One `update_one` setting the count of the record's sample dated `fetch_date`; a store error is returned unchanged. |
| SegmentsRepository.Repository.AddNewEffort | services/segments_repository.py:47-61 | One non-upserting `update_one` pushing `(count, fetch_date)`; a store error is returned unchanged. |
| SegmentsRepository.Repository.CreateNewEffortData | services/segments_repository.py:63-70 | One `insert_one` of a record with only the first sample; a store error is returned unchanged. |
| SegmentsRepository.Repository.UpdateEffortData | services/segments_repository.py:72-98 | Exactly one write to `effort_stats`, the one `LedgerWrite` selects. On success the collection is `Recorded`; on error it is unchanged. The ledger invariant is kept. |
| SegmentsRepository.Repository.UpdateSegmentData | services/segments_repository.py:100-134 | Exactly one write to `segments`, the one `SnapshotWriteFor` selects; on error the collection is unchanged. One document per id is kept, and after a success the segment has a snapshot. |
| SegmentsRepository.Repository.WriteSegmentData | services/segments_repository.py:136-139 | The ledger write comes first. If it raises, the error is returned and `segments` is untouched; otherwise the snapshot write follows and its outcome is returned. Both invariants are kept. |
| LegacyDatabase.LegacyWrite | database.py:56-80 | Always one `update_one` on the segment. It is the positional set exactly when the lookup by `{segment_id, fetch_date}` found a record; otherwise it is the upserting push of `(count, today)` filtered on `{segment_id, name}`. |
| LegacyDatabase.LegacyAgreesWithLedger | database.py:56-80 | When the segment's records carry the name it is written with, the older layer has exactly the intended ledger effect `Recorded`. |
| LegacyDatabase.LegacyRenameDuplicatesRecord | database.py:69-80 | A renamed segment written on a new day gets a second record. The lookup by `segment_id` then returns the old record, which lacks today's sample. |
| LegacyDatabase.Database.constructor | database.py:31-40 | The database writes through the `segment_stats` collection it is given. |
| LegacyDatabase.Database.UpdateSegmentEffortData | database.py:52-82 | Exactly one `update_one` with today's `DD-MM-YYYY` key, the one `LegacyWrite` selects; on error nothing changes. When names agree and the ledger invariant holds, the result is `Recorded`. |
| LegacyDatabase.Database.GetSegmentEffortData | database.py:84-90 | Returns nothing exactly when no record has that segment id; otherwise it returns a stored record of that segment. |

## Left out

- Connection setup, environment lookup and the `Database` singleton (database.py:26-50, db/database.py) are not modelled. They are pymongo I/O, so each store is an abstract collection object instead.
- Logging (`Logger` calls) is dropped because it has no effect on state. So is the `close_connection` call.
- The clock is not modelled. `datetime.now()` becomes the `now: CalendarDate` parameter.
- Dates are limited to years 1000 to 9999. `%Y` is four digits only in that range.
- `find_one` errors are not modelled: only writes can raise. A failed lookup would propagate exactly as a failed write does.
- Mongo matching is not modelled beyond equality of `segment_id`, `name`, `efforts.fetch_date` and `id`. Numeric cross-type equality is not modelled.
- Field-level pydantic validation and coercion of the raw payload are not modelled. This includes building `LatLng` from non-numbers and other type errors. The two `before` validators are modelled on the raw dictionary.
- Floating-point arithmetic is not modelled: coordinates, grade, distance and timestamp are `real`, and the model computes nothing with them.
- The order of keys in a stored document is not modelled: documents are maps.
- Nothing undoes the ledger write when the snapshot write fails after it; the source has no such step, and `WriteSegmentData` states that the ledger write stays and the error is returned.
- `StravaAPI`, `main.py`, `areas_repository.py`, the DAOs, `segment_effort_data_fetcher.py`, `TrailArea`, and the test files are not part of this model. They sit outside the write path modelled here.
- tests/test_update_effort_data.py:109-130 expect behaviour the code does not have, so the model follows the code.

## Findings

| source | as written | input that shows it | evidently intended | confidence | as-written member | corrected member |
|---|---|---|---|---|---|---|
| database.py:69-80 | Pushes today's sample with an upsert filtered on `{segment_id, name}` | A record for segment `"7"` named `"Old Climb"` with a sample for `01-01-2030`; the segment is then written as `"New Climb"` on `02-01-2030` | One record per segment id, holding today's sample; the newer repository filters only on `segment_id` | medium (not executed) | LegacyDatabase.LegacyRenameDuplicatesRecord | SegmentsRepository.RecordedPreservesInvariant |
