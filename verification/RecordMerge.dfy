/** Field-by-field merging of two versions of a record. */
module RecordMerge {
  import opened Clocks
  import opened KeyLoops
  import opened Records
  import opened Values

  datatype MergePolicy = LastWriterWins | SetUnion | Counter | ListAppend | AppendOnly | Custom(name: string)

  type Handler = (string, string, Option<FieldValue>, FieldValue, bool) -> Option<FieldValue>

  datatype Rules = Rules(policy: string -> MergePolicy, custom: Handler)

  // ----- One field

  /** The left list, then every item of the right one not yet there. */
  function ListUnion(left: seq<FieldValue>, right: seq<FieldValue>): seq<FieldValue>
    decreases |right|
  {
    if right == [] then left
    else ListUnion(if right[0] in left then left else left + [right[0]], right[1..])
  }

  function MapUnion(left: map<string, FieldValue>, right: map<string, FieldValue>): (u: map<string, FieldValue>)
    ensures u.Keys == left.Keys + right.Keys
    ensures forall k | k in u :: u[k] == if k in left then left[k] else right[k]
  {
    map k | k in left.Keys + right.Keys :: if k in left then left[k] else right[k]
  }

  function CounterCell(mine: FieldValue, theirs: FieldValue, newer: bool): FieldValue {
    if mine.I64? && theirs.I64? then I64(if mine.n <= theirs.n then theirs.n else mine.n)
    else if newer then theirs else mine
  }

  function CounterUnion(left: map<string, FieldValue>, right: map<string, FieldValue>, newer: bool)
    : (u: map<string, FieldValue>)
    ensures u.Keys == left.Keys + right.Keys
    ensures forall d | d in u :: u[d] == if d !in right then left[d] else if d !in left then right[d]
                                         else CounterCell(left[d], right[d], newer)
  {
    map d | d in left.Keys + right.Keys ::
      if d !in right then left[d] else if d !in left then right[d] else CounterCell(left[d], right[d], newer)
  }

  function AsItems(v: FieldValue): seq<FieldValue> {
    match v
    case List(items) => items
    case Null => []
    case _ => [v]
  }

  function MergedValue(rules: Rules, field: string, existing: Option<FieldValue>, incoming: FieldValue, newer: bool)
    : FieldValue
  {
    var latest := if newer || existing.None? then incoming else existing.value;
    match rules.policy(field)
    case LastWriterWins => latest
    case SetUnion =>
      if existing.Some? && existing.value.List? && incoming.List?
      then List(ListUnion(existing.value.items, incoming.items))
      else if existing.Some? && existing.value.Map? && incoming.Map?
      then Map(MapUnion(existing.value.pairs, incoming.pairs))
      else latest
    case Counter =>
      if existing.Some? && existing.value.Map? && incoming.Map?
      then Map(CounterUnion(existing.value.pairs, incoming.pairs, newer))
      else latest
    case ListAppend =>
      if existing.Some? && existing.value.List? && incoming.List?
      then List(ListUnion(existing.value.items, incoming.items))
      else latest
    case AppendOnly => List(ListUnion(if existing.Some? then AsItems(existing.value) else [], AsItems(incoming)))
    case Custom(name) =>
      var merged := rules.custom(name, field, existing, incoming, newer);
      if merged.Some? then merged.value else latest
  }

  method UnionLists(left: seq<FieldValue>, right: seq<FieldValue>) returns (u: seq<FieldValue>)
    ensures u == ListUnion(left, right)
  {
    u := left;
    assert right[0..] == right;
    for i := 0 to |right|
      invariant ListUnion(u, right[i..]) == ListUnion(left, right)
    {
      assert right[i..][0] == right[i] && right[i..][1..] == right[i + 1..];
      if right[i] !in u {
        u := u + [right[i]];
      }
    }
  }

  method UnionMaps(left: map<string, FieldValue>, right: map<string, FieldValue>) returns (u: map<string, FieldValue>)
    ensures u == MapUnion(left, right)
  {
    u := left;
    var todo := right.Keys;
    ghost var target := MapUnion(left, right);
    FillStart(left, target, todo);
    hide IsLeast, Filled;
    while todo != {}
      invariant todo <= right.Keys && Filled(u, left, target, todo)
      decreases |todo|
    {
      var k := FirstKey(todo);
      FillStep(u, left, target, todo, k);
      FillUntouched(u, left, target, todo, k);
      todo := todo - {k};
      if k !in u {
        u := u[k := right[k]];
      } else {
        assert u[k := left[k]] == u;
      }
    }
    FillDone(u, left, target);
  }

  method JoinCounters(left: map<string, FieldValue>, right: map<string, FieldValue>, newer: bool)
    returns (u: map<string, FieldValue>)
    ensures u == CounterUnion(left, right, newer)
  {
    u := left;
    var todo := right.Keys;
    ghost var target := CounterUnion(left, right, newer);
    FillStart(left, target, todo);
    hide IsLeast, Filled, CounterCell;
    while todo != {}
      invariant todo <= right.Keys && Filled(u, left, target, todo)
      decreases |todo|
    {
      var device := FirstKey(todo);
      FillStep(u, left, target, todo, device);
      FillUntouched(u, left, target, todo, device);
      todo := todo - {device};
      u := u[device := if device in u then CounterCell(u[device], right[device], newer) else right[device]];
    }
    FillDone(u, left, target);
  }

  method MergeField(rules: Rules, field: string, existing: Option<FieldValue>, incoming: FieldValue, newer: bool)
    returns (merged: FieldValue)
    ensures merged == MergedValue(rules, field, existing, incoming, newer)
  {
    merged := if newer || existing.None? then incoming else existing.value;
    var policy := rules.policy(field);
    match policy {
      case LastWriterWins =>
      case SetUnion =>
        if existing.Some? && existing.value.List? && incoming.List? {
          var items := UnionLists(existing.value.items, incoming.items);
          merged := List(items);
        } else if existing.Some? && existing.value.Map? && incoming.Map? {
          var pairs := UnionMaps(existing.value.pairs, incoming.pairs);
          merged := Map(pairs);
        }
      case Counter =>
        if existing.Some? && existing.value.Map? && incoming.Map? {
          var pairs := JoinCounters(existing.value.pairs, incoming.pairs, newer);
          merged := Map(pairs);
        }
      case ListAppend =>
        if existing.Some? && existing.value.List? && incoming.List? {
          var items := UnionLists(existing.value.items, incoming.items);
          merged := List(items);
        }
      case AppendOnly =>
        var items := UnionLists(if existing.Some? then AsItems(existing.value) else [], AsItems(incoming));
        merged := List(items);
      case Custom(name) =>
        var handled := rules.custom(name, field, existing, incoming, newer);
        if handled.Some? {
          merged := handled.value;
        }
    }
  }

  // ----- One record

  /** The merged content and clock of one field present on either side. */
  function FieldResult(rules: Rules, a: SyncRecord, b: SyncRecord, f: string): FieldValue
    requires f in a.fields || f in b.fields
  {
    if f !in b.fields then a.fields[f]
    else if f !in a.fields then MergedValue(rules, f, None, b.fields[f], true)
    else MergedValue(rules, f, Some(a.fields[f]), b.fields[f], a.FieldClock(f).Le(b.FieldClock(f)))
  }

  function ClockResult(a: SyncRecord, b: SyncRecord, f: string): LamportClock {
    if f !in b.fields then a.FieldClock(f)
    else if f !in a.fields then b.FieldClock(f)
    else a.FieldClock(f).Max(b.FieldClock(f))
  }

  function MergedFields(rules: Rules, a: SyncRecord, b: SyncRecord): (m: map<string, FieldValue>)
    ensures m.Keys == a.fields.Keys + b.fields.Keys
    ensures forall f | f in m :: m[f] == FieldResult(rules, a, b, f)
  {
    map f | f in a.fields.Keys + b.fields.Keys :: FieldResult(rules, a, b, f)
  }

  function MergedClocks(a: SyncRecord, b: SyncRecord): (m: map<string, LamportClock>)
    ensures m.Keys == a.fieldClocks.Keys + a.fields.Keys + b.fields.Keys
    ensures forall f | f in m :: m[f] == ClockResult(a, b, f)
  {
    map f | f in a.fieldClocks.Keys + a.fields.Keys + b.fields.Keys :: ClockResult(a, b, f)
  }

  function MaxTime(a: Option<nat>, b: Option<nat>): Option<nat> {
    if a.None? then b else if b.None? then a else Some(Max(a.value, b.value))
  }

  /** The stored version `a` meets the incoming version `b`. */
  function Merged(rules: Rules, a: SyncRecord, b: SyncRecord): SyncRecord {
    if a.tombstone || b.tombstone then (if a.clock.Le(b.clock) then b else a)
    else SyncRecord(a.rid, MergedFields(rules, a, b), false, a.clock.Max(b.clock),
                    MaxTime(a.updatedAt, b.updatedAt), MergedClocks(a, b))
  }

  method MergeRecords(rules: Rules, existing: SyncRecord, incoming: SyncRecord) returns (merged: SyncRecord)
    ensures merged == Merged(rules, existing, incoming)
  {
    var newer := existing.clock.Le(incoming.clock);
    if existing.tombstone != incoming.tombstone {
      return if newer then incoming else existing;
    }
    if existing.tombstone && incoming.tombstone {
      return if newer then incoming else existing;
    }
    var clocks := FillClocks(existing);
    var fields;
    fields, clocks := MergeFields(rules, existing, incoming, clocks);
    return SyncRecord(existing.rid, fields, false, existing.clock.Max(incoming.clock),
                      MaxTime(existing.updatedAt, incoming.updatedAt), clocks);
  }

  /** Gives every stored field without a clock the record's. */
  method FillClocks(r: SyncRecord) returns (clocks: map<string, LamportClock>)
    ensures clocks.Keys == r.fieldClocks.Keys + r.fields.Keys
    ensures forall f | f in clocks :: clocks[f] == r.FieldClock(f)
  {
    hide IsLeast;
    clocks := r.fieldClocks;
    var todo := r.fields.Keys;
    while todo != {}
      invariant todo <= r.fields.Keys
      invariant forall f :: f in clocks <==> f in r.fieldClocks || (f in r.fields && f !in todo)
      invariant forall f | f in clocks :: clocks[f] == r.FieldClock(f)
      decreases |todo|
    {
      var f := FirstKey(todo);
      todo := todo - {f};
      if f !in clocks {
        clocks := clocks[f := r.clock];
      }
    }
  }

  method MergeFields(rules: Rules, existing: SyncRecord, incoming: SyncRecord, filled: map<string, LamportClock>)
    returns (fields: map<string, FieldValue>, clocks: map<string, LamportClock>)
    requires filled.Keys == existing.fieldClocks.Keys + existing.fields.Keys
    requires forall f | f in filled :: filled[f] == existing.FieldClock(f)
    ensures fields == MergedFields(rules, existing, incoming)
    ensures clocks == MergedClocks(existing, incoming)
  {
    fields, clocks := existing.fields, filled;
    var todo := incoming.fields.Keys;
    ghost var values, times := MergedFields(rules, existing, incoming), MergedClocks(existing, incoming);
    FillStart(fields, values, todo);
    FillStart(clocks, times, todo);
    hide IsLeast, Filled, MergedValue;
    while todo != {}
      invariant todo <= incoming.fields.Keys
      invariant Filled(fields, existing.fields, values, todo) && Filled(clocks, filled, times, todo)
      decreases |todo|
    {
      var f := FirstKey(todo);
      FillStep(fields, existing.fields, values, todo, f);
      FillUntouched(fields, existing.fields, values, todo, f);
      FillStep(clocks, filled, times, todo, f);
      todo := todo - {f};
      var existingClock, incomingClock := existing.FieldClock(f), incoming.FieldClock(f);
      var newer := if f in existing.fields then existingClock.Le(incomingClock) else true;
      var value := MergeField(rules, f, if f in fields then Some(fields[f]) else None, incoming.fields[f], newer);
      var clock := if f in existing.fields then existingClock.Max(incomingClock) else incomingClock;
      fields, clocks := fields[f := value], clocks[f := clock];
    }
    FillDone(fields, existing.fields, values);
    FillDone(clocks, filled, times);
  }
}
