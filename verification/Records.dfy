/** Application records on top of the key/value state: each is one entry under an escaped key, with a clock
    for every field. */
module Records {
  import opened Clocks
  import opened Values
  import opened SyncState
  import opened RecordKeys

  datatype RecordId = RecordId(schema: Text, entity: Text, id: Text)

  datatype SyncRecord = SyncRecord(
    rid: RecordId,
    fields: map<string, FieldValue>,
    tombstone: bool,
    clock: LamportClock,
    updatedAt: Option<nat>,
    fieldClocks: map<string, LamportClock>)
  {
    /** The clock a field counts as changed at: its own, or failing that the record's. */
    function FieldClock(f: string): LamportClock {
      if f in fieldClocks then fieldClocks[f] else clock
    }

    /** Every field has its clock, and nothing else does. */
    predicate Stamped() {
      fieldClocks.Keys == fields.Keys
    }
  }

  // ----- Field clocks

  /** The clock a field gets when the writer left it open: the stored one if the value did not change. */
  function InheritedClock(r: SyncRecord, existing: Option<SyncRecord>, f: string): LamportClock
    requires f in r.fields
  {
    if f in r.fieldClocks then r.fieldClocks[f]
    else if existing.Some? && !existing.value.tombstone
            && f in existing.value.fields && existing.value.fields[f] == r.fields[f]
    then existing.value.FieldClock(f)
    else r.clock
  }

  function StampedClocks(r: SyncRecord, existing: Option<SyncRecord>): (clocks: map<string, LamportClock>)
    ensures clocks.Keys == r.fields.Keys
    ensures forall f | f in r.fields :: clocks[f] == InheritedClock(r, existing, f)
  {
    map f | f in r.fields :: InheritedClock(r, existing, f)
  }

  function Stamp(r: SyncRecord, existing: Option<SyncRecord>): SyncRecord {
    r.(fieldClocks := StampedClocks(r, existing))
  }

  method StampFieldClocks(r: SyncRecord, existing: Option<SyncRecord>) returns (clocks: map<string, LamportClock>)
    ensures clocks == StampedClocks(r, existing)
  {
    clocks := r.fieldClocks;
    var todo := r.fields.Keys;
    while todo != {}
      invariant todo <= r.fields.Keys
      invariant forall f | f in r.fields && f !in todo :: f in clocks && clocks[f] == InheritedClock(r, existing, f)
      invariant forall f | f in todo || f !in r.fields ::
                  (f in clocks <==> f in r.fieldClocks) && (f in clocks ==> clocks[f] == r.fieldClocks[f])
      decreases |todo|
    {
      var f := FirstKey(todo);
      todo := todo - {f};
      if f !in clocks {
        var inherit := existing.Some? && !existing.value.tombstone
                       && f in existing.value.fields && existing.value.fields[f] == r.fields[f];
        clocks := clocks[f := if inherit then existing.value.FieldClock(f) else r.clock];
      }
    }
    clocks := Restricted(clocks, r.fields.Keys);
  }

  // ----- Records as entries

  function KeyOf(ns: Text, rid: RecordId): string {
    EntryKey(ns, rid.schema, rid.entity, rid.id)
  }

  lemma KeyOfInjective(ns: Text, a: RecordId, b: RecordId)
    requires KeyOf(ns, a) == KeyOf(ns, b)
    ensures a == b
  {
    KeysInjective(KeyParts(ns, a.schema, a.entity, a.id), KeyParts(ns, b.schema, b.entity, b.id));
  }

  function PayloadOf(r: SyncRecord): Payload {
    Payload(r.fields, r.tombstone, r.updatedAt, r.fieldClocks)
  }

  function ToEntry(ns: Text, r: SyncRecord): Entry {
    Entry(KeyOf(ns, r.rid), Record(PayloadOf(r)), r.clock)
  }

  /** Entries of other namespaces are no records of this one; bytes that are no payload are an error. */
  function FromEntry(e: Entry, ns: Text): Result<Option<SyncRecord>> {
    match ParseRecordKey(e.key)
    case Err => Err
    case Ok(None) => Ok(None)
    case Ok(Some(p)) =>
      if p.ns != ns then Ok(None)
      else match e.value
           case Raw(_) => Err
           case Record(v) =>
             Ok(Some(SyncRecord(RecordId(p.schema, p.entity, p.id), v.fields, v.tombstone, e.clock, v.updatedAt,
               v.fieldClocks)))
  }

  /** A stored record reads back as itself in its own namespace and is invisible in every other. */
  lemma EntryRoundTrip(ns: Text, r: SyncRecord, other: Text)
    ensures FromEntry(ToEntry(ns, r), ns) == Ok(Some(r))
    ensures other != ns ==> FromEntry(ToEntry(ns, r), other) == Ok(None)
  {
    KeyRoundTrip(ns, r.rid.schema, r.rid.entity, r.rid.id);
  }

  function Get(m: Entries, ns: Text, rid: RecordId): Result<Option<SyncRecord>> {
    if KeyOf(ns, rid) in m then FromEntry(m[KeyOf(ns, rid)], ns) else Ok(None)
  }

  /** What a well-keyed map holds under a record's key: the record with the asked id exactly as it is stored, nothing
      if and only if nothing is stored there, and an error if and only if the bytes there are no payload. */
  ghost predicate Found(m: Entries, ns: Text, rid: RecordId, r: Result<Option<SyncRecord>>) {
    match r
    case Ok(Some(x)) => x.rid == rid && KeyOf(ns, rid) in m && m[KeyOf(ns, rid)] == ToEntry(ns, x)
    case Ok(None) => KeyOf(ns, rid) !in m
    case Err => KeyOf(ns, rid) in m && m[KeyOf(ns, rid)].value.Raw?
  }

  lemma GetFinds(m: Entries, ns: Text, rid: RecordId)
    requires Keyed(m)
    ensures Found(m, ns, rid, Get(m, ns, rid))
  {
    hide EntryKey, ParseRecordKey, ValidUtf8;
    KeyRoundTrip(ns, rid.schema, rid.entity, rid.id);
  }

  lemma GetStored(m: Entries, ns: Text, r: SyncRecord)
    requires KeyOf(ns, r.rid) in m && m[KeyOf(ns, r.rid)] == ToEntry(ns, r)
    ensures Get(m, ns, r.rid) == Ok(Some(r))
  {
    EntryRoundTrip(ns, r, ns);
  }

  // ----- Writing records

  /** A fresh local write: the record and every changed field carry the new clock. */
  function SetRecord(s: Replica, ns: Text, r: SyncRecord): Result<Replica> {
    match Get(s.entries, ns, r.rid)
    case Err => Err
    case Ok(existing) =>
      var stamped := Stamp(r.(clock := LamportClock(SaturatingInc(s.counter), s.deviceId)), existing);
      Ok(s.Set(KeyOf(ns, r.rid), Record(PayloadOf(stamped))))
  }

  function ApplyRecord(s: Replica, ns: Text, r: SyncRecord, origin: Option<string>): Result<Replica> {
    match Get(s.entries, ns, r.rid)
    case Err => Err
    case Ok(existing) =>
      if existing.Some? && r.clock.Le(existing.value.clock) then Ok(s)
      else Ok(s.Apply(ToEntry(ns, Stamp(r, existing)), origin))
  }

  predicate AcceptsRecord(s: Replica, ns: Text, r: SyncRecord)
    requires Get(s.entries, ns, r.rid).Ok?
  {
    var existing := Get(s.entries, ns, r.rid).value;
    !(existing.Some? && r.clock.Le(existing.value.clock)) && s.Accepts(ToEntry(ns, Stamp(r, existing)))
  }

  function UpsertRecord(s: Replica, ns: Text, r: SyncRecord, origin: Option<string>): Result<Replica> {
    match Get(s.entries, ns, r.rid)
    case Err => Err
    case Ok(existing) => Ok(s.Upsert(ToEntry(ns, Stamp(r, existing)), origin))
  }

  /** After a local write the record reads back with the caller's content; a field left alone keeps its clock,
      and a field that changed carries one strictly above everything the state has seen. */
  lemma SetReadsBack(s: Replica, ns: Text, r: SyncRecord)
    requires s.Valid() && s.counter < U64_MAX && SetRecord(s, ns, r).Ok?
    ensures var after := Get(SetRecord(s, ns, r).value.entries, ns, r.rid);
            && after.Ok? && after.value.Some?
            && var w := after.value.value;
               && w.fields == r.fields && w.tombstone == r.tombstone && w.updatedAt == r.updatedAt && w.Stamped()
               && (forall k | k in s.entries :: s.entries[k].clock.counter < w.clock.counter)
               && forall f | f in w.fields ::
                    var prior := Get(s.entries, ns, r.rid).value;
                    w.fieldClocks[f] ==
                      if f in r.fieldClocks then r.fieldClocks[f]
                      else if prior.Some? && !prior.value.tombstone && f in prior.value.fields
                        && prior.value.fields[f] == r.fields[f]
                      then prior.value.FieldClock(f) else w.clock
  {
    var existing := Get(s.entries, ns, r.rid).value;
    var stamped := Stamp(r.(clock := LamportClock(SaturatingInc(s.counter), s.deviceId)), existing);
    GetStored(SetRecord(s, ns, r).value.entries, ns, stamped);
  }

  class RecordState {
    const state: State
    const ns: Text

    constructor (state: State, ns: Text)
      ensures this.state == state && this.ns == ns
    {
      this.state, this.ns := state, ns;
    }

    method GetRecord(rid: RecordId) returns (r: Result<Option<SyncRecord>>)
      ensures r == Get(state.entries, ns, rid)
      ensures Keyed(state.entries) ==> Found(state.entries, ns, rid, r)
    {
      if Keyed(state.entries) { GetFinds(state.entries, ns, rid); }
      hide Found, Keyed;
      var key := KeyOf(ns, rid);
      if key !in state.entries {
        return Ok(None);
      }
      return FromEntry(state.entries[key], ns);
    }

    method Set(record: SyncRecord) returns (ok: bool)
      modifies state
      ensures state.inboundOrigin == old(state.inboundOrigin)
      ensures match SetRecord(old(state.Value()), ns, record)
              case Ok(after) => ok && state.Value() == after
              case Err => !ok && state.Value() == old(state.Value())
    {
      var existing := GetRecord(record.rid);
      if existing.Err? {
        return false;
      }
      var timed := record.(clock := LamportClock(SaturatingInc(state.counter), state.deviceId));
      var clocks := StampFieldClocks(timed, existing.value);
      var entry := state.Set(KeyOf(ns, record.rid), Record(PayloadOf(timed.(fieldClocks := clocks))));
      return true;
    }

    method Apply(record: SyncRecord) returns (r: Result<bool>)
      modifies state
      ensures state.inboundOrigin == old(state.inboundOrigin)
      ensures match ApplyRecord(old(state.Value()), ns, record, state.inboundOrigin)
              case Ok(after) =>
                state.Value() == after && r == Ok(AcceptsRecord(old(state.Value()), ns, record))
              case Err => r.Err? && state.Value() == old(state.Value())
    {
      hide EntryKey, ParseRecordKey, ValidUtf8;
      var existing := GetRecord(record.rid);
      if existing.Err? {
        return Err;
      }
      if existing.value.Some? && record.clock.Le(existing.value.value.clock) {
        return Ok(false);
      }
      var clocks := StampFieldClocks(record, existing.value);
      var accepted := state.ApplyEntry(ToEntry(ns, record.(fieldClocks := clocks)));
      return Ok(accepted);
    }

    method Upsert(record: SyncRecord) returns (r: Result<bool>)
      modifies state
      ensures state.inboundOrigin == old(state.inboundOrigin)
      ensures match UpsertRecord(old(state.Value()), ns, record, state.inboundOrigin)
              case Ok(after) =>
                && state.Value() == after
                && r == Ok(old(state.Value()).Differs(ToEntry(ns,
                     Stamp(record, Get(old(state.entries), ns, record.rid).value))))
              case Err => r.Err? && state.Value() == old(state.Value())
    {
      var existing := GetRecord(record.rid);
      if existing.Err? {
        return Err;
      }
      var clocks := StampFieldClocks(record, existing.value);
      var written := state.UpsertEntry(ToEntry(ns, record.(fieldClocks := clocks)));
      return Ok(written);
    }
  }
}
