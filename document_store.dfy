/**
 * The document store the repositories write to, held in memory: one
 * collection of effort records and one of snapshot documents. Every document
 * is keyed by its internal `_id`; `_id`s are handed out in increasing order,
 * so "the first matching document" (what `find_one` and `update_one` pick)
 * is the matching one with the least `_id`. Every write call is journaled,
 * whether it succeeds or not; while a collection's `fault` is set, its writes
 * raise that error and change no document.
 */
module DocumentStore {
  import opened Wrappers
  import opened Documents
  import opened EffortLedger

  /** The internal `_id` of a stored document. */
  type ObjectId = nat

  /** A write that the store refused, raised to the caller unchanged. */
  datatype StoreError = StoreError(message: string)

  /** What a write call returns while the collection's fault is `fault`. */
  function Raised(fault: Option<StoreError>): (o: Outcome<StoreError>)
    ensures o.Pass? <==> fault.None?
    ensures fault.Some? ==> o.error == fault.value
  {
    match fault
    case None => Pass
    case Some(e) => Fail(e)
  }

  // ---------------------------------------------------------------- effort records

  /** The query filters the ledgers pass for effort records. */
  datatype Filter<Id(==)> =
      /** `{"segment_id": id}` */
    | BySegment(segmentId: Id)
      /** `{"segment_id": id, "efforts.fetch_date": date}` */
    | BySegmentAndDate(segmentId: Id, date: string)
      /** `{"segment_id": id, "name": name}` */
    | BySegmentAndName(segmentId: Id, name: string)
  {
    predicate Matches(r: EffortRecord<Id>)
    {
      && r.segmentId == segmentId
      && (BySegmentAndDate? ==> HasDate(r.efforts, date))
      && (BySegmentAndName? ==> r.name == name)
    }
  }

  /** The `update_one` update documents the ledgers issue. */
  datatype EffortUpdate<Id(==)> =
      /** filter `{segment_id, efforts.fetch_date}`, `{"$set": {"efforts.$.effort_count": count}}` */
    | SetMatchedCount(segmentId: Id, date: string, count: int)
      /** filter `{segment_id}`, `{"$push": {"efforts": effort}}`, `upsert=False` */
    | PushEffort(segmentId: Id, effort: Effort)
      /** filter `{segment_id, name}`, `{"$push": {"efforts": effort}}`, `upsert=True` */
    | UpsertPushEffort(segmentId: Id, name: string, effort: Effort)

  /** One call to the effort collection: `insert_one` or `update_one`. */
  datatype EffortWrite<Id(==)> = InsertRecord(record: EffortRecord<Id>) | UpdateRecord(update: EffortUpdate<Id>)

  /** The least `_id` in `[from, bound)` whose document matches `f`. */
  function FirstRecord<Id(==)>(docs: map<ObjectId, EffortRecord<Id>>, f: Filter<Id>, from: nat, bound: nat): (r: Option<ObjectId>)
    ensures r.Some? ==> from <= r.value < bound && r.value in docs && f.Matches(docs[r.value])
    ensures r.Some? ==> forall k :: from <= k < r.value && k in docs ==> !f.Matches(docs[k])
    ensures r.None? <==> forall k :: from <= k < bound && k in docs ==> !f.Matches(docs[k])
    decreases bound - from
  {
    if bound <= from then None
    else if from in docs && f.Matches(docs[from]) then Some(from)
    else FirstRecord(docs, f, from + 1, bound)
  }

  /** The contents of an effort collection. */
  datatype EffortState<Id(==)> = EffortState(docs: map<ObjectId, EffortRecord<Id>>, nextId: ObjectId)
  {
    /** Every stored `_id` was handed out before `nextId`. */
    predicate Valid()
    {
      forall k :: k in docs ==> k < nextId
    }

    /** The `_id` of the first document matching `f`. */
    function First(f: Filter<Id>): Option<ObjectId>
    {
      FirstRecord(docs, f, 0, nextId)
    }

    /** `find_one(filter)`: the first document matching `f`. */
    function Find(f: Filter<Id>): (r: Option<EffortRecord<Id>>)
      requires Valid()
      ensures r.None? <==> forall k :: k in docs ==> !f.Matches(docs[k])
      ensures r.Some? ==> f.Matches(r.value) && exists k :: k in docs && docs[k] == r.value
    {
      match First(f)
      case None => None
      case Some(k) => Some(docs[k])
    }

    /** This collection after `w` succeeds. */
    function Apply(w: EffortWrite<Id>): (s: EffortState<Id>)
      requires Valid()
      ensures s.Valid() && nextId <= s.nextId && docs.Keys <= s.docs.Keys
    {
      match w
      case InsertRecord(r) => EffortState(docs[nextId := r], nextId + 1)
      case UpdateRecord(SetMatchedCount(id, date, count)) =>
        (match First(BySegmentAndDate(id, date))
         case None => this
         case Some(k) => this.(docs := docs[k := docs[k].(efforts := SetFirstCount(docs[k].efforts, date, count))]))
      case UpdateRecord(PushEffort(id, e)) =>
        (match First(BySegment(id))
         case None => this
         case Some(k) => this.(docs := docs[k := docs[k].(efforts := Push(docs[k].efforts, e))]))
      case UpdateRecord(UpsertPushEffort(id, name, e)) =>
        (match First(BySegmentAndName(id, name))
         case None => EffortState(docs[nextId := EffortRecord(id, name, [e])], nextId + 1)
         case Some(k) => this.(docs := docs[k := docs[k].(efforts := Push(docs[k].efforts, e))]))
    }
  }

  /** An effort collection (`effort_stats`, or `segment_stats` for the older database layer). */
  class EffortCollection<Id(==)> {
    const name: string
    var state: EffortState<Id>
    var fault: Option<StoreError>
    var journal: seq<EffortWrite<Id>>

    ghost predicate Valid()
      reads this
    {
      state.Valid()
    }

    constructor (name: string)
      ensures this.name == name && Valid()
      ensures state == EffortState(map[], 0) && fault == None && journal == []
    {
      this.name := name;
      state := EffortState(map[], 0);
      fault := None;
      journal := [];
    }

    /** `find_one(filter)` */
    method FindOne(f: Filter<Id>) returns (r: Option<EffortRecord<Id>>)
      requires Valid()
      ensures r == state.Find(f)
      ensures r.None? <==> forall k :: k in state.docs ==> !f.Matches(state.docs[k])
    {
      r := state.Find(f);
    }

    /** `insert_one(record)` */
    method InsertOne(record: EffortRecord<Id>) returns (o: Outcome<StoreError>)
      requires Valid()
      modifies this
      ensures Valid() && fault == old(fault)
      ensures journal == old(journal) + [InsertRecord(record)]
      ensures o == Raised(fault)
      ensures state == if fault.None? then old(state).Apply(InsertRecord(record)) else old(state)
    {
      journal := journal + [InsertRecord(record)];
      if fault.Some? {
        return Fail(fault.value);
      }
      state := state.Apply(InsertRecord(record));
      o := Pass;
    }

    /** `update_one(filter, update, upsert)` */
    method UpdateOne(u: EffortUpdate<Id>) returns (o: Outcome<StoreError>)
      requires Valid()
      modifies this
      ensures Valid() && fault == old(fault)
      ensures journal == old(journal) + [UpdateRecord(u)]
      ensures o == Raised(fault)
      ensures state == if fault.None? then old(state).Apply(UpdateRecord(u)) else old(state)
    {
      journal := journal + [UpdateRecord(u)];
      if fault.Some? {
        return Fail(fault.value);
      }
      state := state.Apply(UpdateRecord(u));
      o := Pass;
    }
  }

  // ---------------------------------------------------------------- snapshot documents

  /** Whether `d` is the snapshot of segment `id` (filter `{"id": id}`). */
  predicate IsSnapshotOf(d: Doc, id: int)
  {
    "id" in d && d["id"] == VInt(id)
  }

  /** The least `_id` in `[from, bound)` holding the snapshot of `id`. */
  function FirstSnapshot(docs: map<ObjectId, Doc>, id: int, from: nat, bound: nat): (r: Option<ObjectId>)
    ensures r.Some? ==> from <= r.value < bound && r.value in docs && IsSnapshotOf(docs[r.value], id)
    ensures r.Some? ==> forall k :: from <= k < r.value && k in docs ==> !IsSnapshotOf(docs[k], id)
    ensures r.None? <==> forall k :: from <= k < bound && k in docs ==> !IsSnapshotOf(docs[k], id)
    decreases bound - from
  {
    if bound <= from then None
    else if from in docs && IsSnapshotOf(docs[from], id) then Some(from)
    else FirstSnapshot(docs, id, from + 1, bound)
  }

  /** One call to the snapshot collection: `insert_one(doc)` or `update_one({"_id": oid}, {"$set": fields})`. */
  datatype SnapshotWrite = InsertDoc(doc: Doc) | SetFields(oid: ObjectId, fields: Doc)

  /** The contents of the snapshot collection. */
  datatype SnapshotState = SnapshotState(docs: map<ObjectId, Doc>, nextId: ObjectId)
  {
    predicate Valid()
    {
      forall k :: k in docs ==> k < nextId
    }

    /** `find_one({"id": id})`: the first snapshot of `id`, with its `_id`. */
    function Find(id: int): (r: Option<(ObjectId, Doc)>)
      requires Valid()
      ensures r.None? <==> forall k :: k in docs ==> !IsSnapshotOf(docs[k], id)
      ensures r.Some? ==> r.value.0 in docs && docs[r.value.0] == r.value.1 && IsSnapshotOf(r.value.1, id)
    {
      match FirstSnapshot(docs, id, 0, nextId)
      case None => None
      case Some(k) => Some((k, docs[k]))
    }

    /** This collection after `w` succeeds; `$set` overwrites the named top-level fields only. */
    function Apply(w: SnapshotWrite): (s: SnapshotState)
      requires Valid()
      ensures s.Valid() && nextId <= s.nextId && docs.Keys <= s.docs.Keys
    {
      match w
      case InsertDoc(d) => SnapshotState(docs[nextId := d], nextId + 1)
      case SetFields(oid, fields) =>
        if oid in docs then this.(docs := docs[oid := docs[oid] + fields]) else this
    }
  }

  /** The `segments` collection. */
  class SnapshotCollection {
    const name: string
    var state: SnapshotState
    var fault: Option<StoreError>
    var journal: seq<SnapshotWrite>

    ghost predicate Valid()
      reads this
    {
      state.Valid()
    }

    constructor (name: string)
      ensures this.name == name && Valid()
      ensures state == SnapshotState(map[], 0) && fault == None && journal == []
    {
      this.name := name;
      state := SnapshotState(map[], 0);
      fault := None;
      journal := [];
    }

    /** `find_one({"id": id})` */
    method FindOne(id: int) returns (r: Option<(ObjectId, Doc)>)
      requires Valid()
      ensures r == state.Find(id)
      ensures r.Some? ==> r.value.0 in state.docs && state.docs[r.value.0] == r.value.1 && IsSnapshotOf(r.value.1, id)
    {
      r := state.Find(id);
    }

    /** `insert_one(doc)` */
    method InsertOne(doc: Doc) returns (o: Outcome<StoreError>)
      requires Valid()
      modifies this
      ensures Valid() && fault == old(fault)
      ensures journal == old(journal) + [InsertDoc(doc)]
      ensures o == Raised(fault)
      ensures state == if fault.None? then old(state).Apply(InsertDoc(doc)) else old(state)
    {
      journal := journal + [InsertDoc(doc)];
      if fault.Some? {
        return Fail(fault.value);
      }
      state := state.Apply(InsertDoc(doc));
      o := Pass;
    }

    /** `update_one({"_id": oid}, {"$set": fields})` */
    method UpdateOne(oid: ObjectId, fields: Doc) returns (o: Outcome<StoreError>)
      requires Valid()
      modifies this
      ensures Valid() && fault == old(fault)
      ensures journal == old(journal) + [SetFields(oid, fields)]
      ensures o == Raised(fault)
      ensures state == if fault.None? then old(state).Apply(SetFields(oid, fields)) else old(state)
    {
      journal := journal + [SetFields(oid, fields)];
      if fault.Some? {
        return Fail(fault.value);
      }
      state := state.Apply(SetFields(oid, fields));
      o := Pass;
    }
  }
}
