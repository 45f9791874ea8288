/** Merging an operation log: operations are immutable, deletions are final, snapshots are last-writer-wins. */
module Momentum {
  import opened Clocks
  import opened RecordKeys
  import opened Records
  import opened Values

  datatype ManagedRecord = ManagedRecord(
    adapter: string, id: string, value: seq<byte>, deleted: bool, clock: LamportClock)

  /** The application's namespace; reading the JSON value and checking its payload happen elsewhere. */
  datatype Reader = Reader(appId: Text, parse: seq<byte> -> Option<SyncRecord>, acceptable: SyncRecord -> bool)

  function Decode(reader: Reader, wire: ManagedRecord): Option<SyncRecord> {
    var parsed := reader.parse(wire.value);
    if parsed.None? then None
    else
      var r := parsed.value;
      if wire.adapter != "ops" || r.rid.schema != "momentum" || r.rid.id == "" || r.rid.entity !in {"Op", "Snapshot"}
         || (r.rid.entity == "Snapshot" && r.rid.id != "latest") || wire.id != KeyOf(reader.appId, r.rid)
         || wire.deleted != r.tombstone || wire.clock != r.clock || (!r.tombstone && !reader.acceptable(r))
      then None
      else parsed
  }

  type Log = map<string, ManagedRecord>

  function IsOp(r: SyncRecord): bool {
    r.rid.entity == "Op"
  }

  /** The accepted version of one id meets another. */
  function Meet(reader: Reader, held: ManagedRecord, next: ManagedRecord): Option<ManagedRecord> {
    var decoded, previous := Decode(reader, next), Decode(reader, held);
    if decoded.None? || previous.None? then None
    else if IsOp(decoded.value) && !decoded.value.tombstone && !previous.value.tombstone
            && decoded.value.fields != previous.value.fields then None
    else if held.clock == next.clock && held != next then None
    else if IsOp(previous.value) && previous.value.tombstone && !decoded.value.tombstone then Some(held)
    else if next.clock.Le(held.clock) then Some(held)
    else Some(next)
  }

  function MergeOne(reader: Reader, m: Log, next: ManagedRecord): Option<Log> {
    if Decode(reader, next).None? then None
    else if next.id !in m then Some(m[next.id := next])
    else
      var met := Meet(reader, m[next.id], next);
      if met.None? then None else Some(m[next.id := met.value])
  }

  function MergeAll(reader: Reader, m: Log, incoming: seq<ManagedRecord>): Option<Log>
    decreases |incoming|
  {
    if incoming == [] then Some(m)
    else
      var first := MergeOne(reader, m, incoming[0]);
      if first.None? then None else MergeAll(reader, first.value, incoming[1..])
  }

  function Load(reader: Reader, m: Log, local: seq<ManagedRecord>): Option<Log>
    decreases |local|
  {
    if local == [] then Some(m)
    else if Decode(reader, local[0]).None? then None
    else Load(reader, m[local[0].id := local[0]], local[1..])
  }

  function Prepared(reader: Reader, local: seq<ManagedRecord>, incoming: seq<ManagedRecord>): Option<Log> {
    var loaded := Load(reader, map[], local);
    if loaded.None? then None else MergeAll(reader, loaded.value, incoming)
  }

  datatype PreparedChange = PreparedChange(
    id: string, adapter: string, expectedRevision: nat, staged: seq<ManagedRecord>, recovery: seq<ManagedRecord>)

  /** `staged` lists the log in id order. */
  ghost predicate Lists(staged: seq<ManagedRecord>, m: Log) {
    && (forall r | r in staged :: r.id in m && m[r.id] == r)
    && (forall id | id in m :: m[id] in staged)
    && (forall i, j | 0 <= i < j < |staged| :: LexLe(staged[i].id, staged[j].id) && staged[i].id != staged[j].id)
  }

  ghost predicate Keyed(m: Log) {
    forall id | id in m :: m[id].id == id
  }

  method Prepare(reader: Reader, local: seq<ManagedRecord>, incoming: seq<ManagedRecord>, revision: nat, token: string)
    returns (change: Option<PreparedChange>)
    ensures match Prepared(reader, local, incoming)
            case None => change == None
            case Some(m) =>
              && change.Some? && Lists(change.value.staged, m)
              && change.value == PreparedChange(token, "ops", revision, change.value.staged, local)
  {
    var merged: Log := map[];
    assert local[0..] == local;
    for i := 0 to |local|
      invariant Keyed(merged) && Load(reader, merged, local[i..]) == Load(reader, map[], local)
    {
      hide Decode;
      assert local[i..][0] == local[i] && local[i..][1..] == local[i + 1..];
      var decoded := Decode(reader, local[i]);
      if decoded.None? {
        return None;
      }
      merged := merged[local[i].id := local[i]];
    }
    ghost var loaded := merged;
    assert incoming[0..] == incoming;
    for i := 0 to |incoming|
      invariant Keyed(merged) && MergeAll(reader, merged, incoming[i..]) == MergeAll(reader, loaded, incoming)
    {
      hide MergeOne, Decode;
      assert incoming[i..][0] == incoming[i] && incoming[i..][1..] == incoming[i + 1..];
      var kept := MergeNext(reader, merged, incoming[i]);
      if kept.None? {
        return None;
      }
      merged := kept.value;
    }
    var staged := ListLog(merged);
    change := Some(PreparedChange(token, "ops", revision, staged, local));
  }

  method MergeNext(reader: Reader, m: Log, next: ManagedRecord) returns (r: Option<Log>)
    requires Keyed(m)
    ensures r == MergeOne(reader, m, next) && (r.Some? ==> Keyed(r.value))
  {
    hide KeyOf;
    var decoded := Decode(reader, next);
    if decoded.None? {
      return None;
    }
    if next.id in m {
      var held := m[next.id];
      var previous := Decode(reader, held);
      assert m[next.id := held] == m;
      if previous.None? {
        return None;
      }
      if IsOp(decoded.value) && !decoded.value.tombstone && !previous.value.tombstone
         && decoded.value.fields != previous.value.fields {
        return None;
      }
      if held.clock == next.clock && held != next {
        return None;
      }
      if IsOp(previous.value) && previous.value.tombstone && !decoded.value.tombstone {
        return Some(m);
      }
      if next.clock.Le(held.clock) {
        return Some(m);
      }
    }
    return Some(m[next.id := next]);
  }

  method ListLog(m: Log) returns (staged: seq<ManagedRecord>)
    requires Keyed(m)
    ensures Lists(staged, m)
  {
    staged := [];
    var todo := m.Keys;
    while todo != {}
      invariant todo <= m.Keys
      invariant forall r | r in staged :: r.id in m && m[r.id] == r && r.id !in todo
      invariant forall id | id in m && id !in todo :: m[id] in staged
      invariant forall i, j | 0 <= i < j < |staged| :: LexLe(staged[i].id, staged[j].id) && staged[i].id != staged[j].id
      invariant forall r, id | r in staged && id in todo :: LexLe(r.id, id)
      decreases |todo|
    {
      var id := FirstKey(todo);
      staged := staged + [m[id]];
      todo := todo - {id};
    }
  }

  // ----- Safety on every accepted input

  ghost predicate Sound(reader: Reader, m: Log) {
    forall id | id in m :: m[id].id == id && Decode(reader, m[id]).Some?
  }

  /** What a later log keeps of an earlier version of one id. */
  ghost predicate Keeps(reader: Reader, held: ManagedRecord, now: ManagedRecord)
    requires Decode(reader, held).Some? && Decode(reader, now).Some?
  {
    var a, b := Decode(reader, held).value, Decode(reader, now).value;
    && a.rid == b.rid && held.clock.Le(now.clock)
    && (IsOp(a) && a.tombstone ==> b.tombstone)
    && (IsOp(a) && !a.tombstone && !b.tombstone ==> b.fields == a.fields)
  }

  lemma DecodedId(reader: Reader, a: ManagedRecord, b: ManagedRecord)
    requires Decode(reader, a).Some? && Decode(reader, b).Some? && a.id == b.id
    ensures Decode(reader, a).value.rid == Decode(reader, b).value.rid
  {
    KeyOfInjective(reader.appId, Decode(reader, a).value.rid, Decode(reader, b).value.rid);
  }

  lemma MeetKeeps(reader: Reader, held: ManagedRecord, next: ManagedRecord)
    requires Meet(reader, held, next).Some? && held.id == next.id
    ensures var now := Meet(reader, held, next).value;
            now.id == held.id && Decode(reader, now).Some? && Keeps(reader, held, now)
  {
    DecodedId(reader, held, next);
    ClockTotal(held.clock, next.clock);
    hide Decode, LamportClock.Le;
  }

  /** From one log to a later one: no id is lost, no clock lowered, no deletion undone, no live operation altered. */
  ghost predicate Extends(reader: Reader, m: Log, n: Log) {
    && Sound(reader, m) && Sound(reader, n)
    && forall id | id in m :: id in n && Keeps(reader, m[id], n[id])
  }

  lemma KeepsSelf(reader: Reader, held: ManagedRecord)
    requires Decode(reader, held).Some?
    ensures Keeps(reader, held, held)
  {
    ClockTotal(held.clock, held.clock);
  }

  lemma KeepsTrans(reader: Reader, a: ManagedRecord, b: ManagedRecord, c: ManagedRecord)
    requires Decode(reader, a).Some? && Decode(reader, b).Some? && Decode(reader, c).Some?
    requires Keeps(reader, a, b) && Keeps(reader, b, c)
    ensures Keeps(reader, a, c)
  {
    hide Decode;
    ClockTrans(a.clock, b.clock, c.clock);
  }

  lemma MergeOneExtends(reader: Reader, m: Log, next: ManagedRecord)
    requires Sound(reader, m) && MergeOne(reader, m, next).Some?
    ensures Extends(reader, m, MergeOne(reader, m, next).value)
  {
    hide Decode, Keeps, Meet;
    var n := MergeOne(reader, m, next).value;
    if next.id in m { MeetKeeps(reader, m[next.id], next); }
    forall id | id in m ensures id in n && Decode(reader, n[id]).Some? && Keeps(reader, m[id], n[id]) {
      if id != next.id { KeepsSelf(reader, m[id]); }
    }
  }

  /** Whatever comes in, an accepted merge only extends the log. */
  lemma {:induction false} MergeAllExtends(reader: Reader, m: Log, incoming: seq<ManagedRecord>)
    requires Sound(reader, m) && MergeAll(reader, m, incoming).Some?
    ensures Extends(reader, m, MergeAll(reader, m, incoming).value)
    decreases |incoming|
  {
    hide Decode, Keeps, MergeOne;
    if incoming == [] {
      forall id | id in m ensures Keeps(reader, m[id], m[id]) { KeepsSelf(reader, m[id]); }
    } else {
      var n := MergeOne(reader, m, incoming[0]).value;
      MergeOneExtends(reader, m, incoming[0]);
      MergeAllExtends(reader, n, incoming[1..]);
      var z := MergeAll(reader, m, incoming).value;
      forall id | id in m ensures Keeps(reader, m[id], z[id]) { KeepsTrans(reader, m[id], n[id], z[id]); }
    }
  }

  /** An accepted local list loads into a sound log that holds, for every id in it, the last version listed, and
      nothing else. */
  ghost predicate Loaded(reader: Reader, m: Log, local: seq<ManagedRecord>) {
    && Sound(reader, m)
    && (forall i | 0 <= i < |local| && LastOfId(local, i) :: local[i].id in m && m[local[i].id] == local[i])
    && (forall id | id in m :: m[id] in local)
    && (forall r | r in local :: r.id in m)
  }

  predicate LastOfId(local: seq<ManagedRecord>, i: nat)
    requires i < |local|
  {
    forall j | i < j < |local| :: local[j].id != local[i].id
  }

  lemma LoadedMore(reader: Reader, m: Log, local: seq<ManagedRecord>, r: ManagedRecord)
    requires Loaded(reader, m, local) && Decode(reader, r).Some?
    ensures Loaded(reader, m[r.id := r], local + [r])
  {
    hide Decode;
    var all := local + [r];
    assert all[|local|] == r && r in all;
    forall i | 0 <= i < |all| && LastOfId(all, i)
      ensures all[i].id in m[r.id := r] && m[r.id := r][all[i].id] == all[i]
    {
      if i < |local| {
        assert all[|local|].id != all[i].id;
        assert forall j | i < j < |local| :: all[j] == local[j];
        assert LastOfId(local, i);
      }
    }
  }

  lemma {:induction false} LoadHolds(reader: Reader, m: Log, done: seq<ManagedRecord>, local: seq<ManagedRecord>)
    requires Loaded(reader, m, done) && Load(reader, m, local).Some?
    ensures Loaded(reader, Load(reader, m, local).value, done + local)
    decreases |local|
  {
    hide Decode, Loaded;
    if local == [] {
      assert done + local == done;
    } else {
      LoadedMore(reader, m, done, local[0]);
      LoadHolds(reader, m[local[0].id := local[0]], done + [local[0]], local[1..]);
      assert done + [local[0]] + local[1..] == done + local;
    }
  }

  /** From the stored list to the staged one: whatever comes in, an accepted preparation extends the log of the last
      versions stored, so that no stored id is lost, no deletion undone and no live operation altered. */
  lemma PreparedExtends(reader: Reader, local: seq<ManagedRecord>, incoming: seq<ManagedRecord>)
    requires Prepared(reader, local, incoming).Some?
    ensures Load(reader, map[], local).Some?
    ensures var stored := Load(reader, map[], local).value;
            Loaded(reader, stored, local) && Extends(reader, stored, Prepared(reader, local, incoming).value)
  {
    assert Loaded(reader, map[], []);
    hide Decode, Loaded, Extends;
    assert [] + local == local;
    LoadHolds(reader, map[], [], local);
    SoundLoaded(reader, Load(reader, map[], local).value, local);
    MergeAllExtends(reader, Load(reader, map[], local).value, incoming);
  }

  lemma SoundLoaded(reader: Reader, m: Log, local: seq<ManagedRecord>)
    requires Loaded(reader, m, local)
    ensures Sound(reader, m)
  {
  }

  // ----- Order independence

  /** Versions that cannot collide: equal clocks mean equal versions, live versions of an operation agree, and its
      deletion is later than every live version. */
  ghost predicate Compatible(reader: Reader, a: ManagedRecord, b: ManagedRecord)
    requires Decode(reader, a).Some? && Decode(reader, b).Some?
  {
    var x, y := Decode(reader, a).value, Decode(reader, b).value;
    a.id == b.id ==>
      && (a.clock == b.clock ==> a == b)
      && (IsOp(x) && !x.tombstone && !y.tombstone ==> x.fields == y.fields)
      && (IsOp(x) && x.tombstone && !y.tombstone ==> b.clock.Lt(a.clock))
  }

  ghost predicate CollisionFree(reader: Reader, all: set<ManagedRecord>) {
    && (forall r | r in all :: Decode(reader, r).Some?)
    && (forall a, b | a in all && b in all :: Compatible(reader, a, b))
  }

  lemma MeetIsMax(reader: Reader, held: ManagedRecord, next: ManagedRecord)
    requires Decode(reader, held).Some? && Decode(reader, next).Some? && held.id == next.id
    requires Compatible(reader, held, next) && Compatible(reader, next, held)
    ensures Meet(reader, held, next) == Some(if next.clock.Le(held.clock) then held else next)
  {
    DecodedId(reader, held, next);
    ClockTotal(held.clock, next.clock);
    hide Decode, LamportClock.Le;
  }

  /** The log holds, for each id among the records seen, one of them with the greatest clock. */
  ghost predicate Newest(m: Log, seen: set<ManagedRecord>) {
    && (forall id | id in m :: m[id] in seen && m[id].id == id)
    && (forall r | r in seen :: r.id in m && r.clock.Le(m[r.id].clock))
  }

  lemma NewestWith(m: Log, seen: set<ManagedRecord>, next: ManagedRecord, kept: ManagedRecord)
    requires Newest(m, seen) && kept in seen + {next} && kept.id == next.id && next.clock.Le(kept.clock)
    requires next.id in m ==> m[next.id].clock.Le(kept.clock)
    ensures Newest(m[next.id := kept], seen + {next})
  {
    hide LamportClock.Le;
    forall r | r in seen && r.id == next.id ensures r.clock.Le(kept.clock) {
      ClockTrans(r.clock, m[next.id].clock, kept.clock);
    }
  }

  lemma MergeOneNewest(reader: Reader, m: Log, seen: set<ManagedRecord>, next: ManagedRecord)
    requires CollisionFree(reader, seen + {next}) && Newest(m, seen)
    ensures MergeOne(reader, m, next).Some? && Newest(MergeOne(reader, m, next).value, seen + {next})
  {
    assert next in seen + {next};
    hide Decode, Compatible, Meet, LamportClock.Le;
    ClockTotal(next.clock, next.clock);
    if next.id in m {
      var held := m[next.id];
      assert held in seen + {next};
      MeetIsMax(reader, held, next);
      ClockTotal(held.clock, next.clock);
      hide CollisionFree, Newest;
      NewestWith(m, seen, next, if next.clock.Le(held.clock) then held else next);
    } else {
      hide CollisionFree, Newest;
      NewestWith(m, seen, next, next);
    }
  }

  lemma CollisionFreeLess(reader: Reader, some: set<ManagedRecord>, all: set<ManagedRecord>)
    requires CollisionFree(reader, all) && some <= all
    ensures CollisionFree(reader, some)
  {
  }

  lemma {:induction false} MergeAllNewest(
    reader: Reader, m: Log, seen: set<ManagedRecord>, incoming: seq<ManagedRecord>)
    requires CollisionFree(reader, seen + Elements(incoming)) && Newest(m, seen)
    ensures MergeAll(reader, m, incoming).Some?
      && Newest(MergeAll(reader, m, incoming).value, seen + Elements(incoming))
    decreases |incoming|
  {
    hide CollisionFree, Newest, MergeOne;
    if incoming == [] {
      assert seen + Elements(incoming) == seen;
    } else {
      var next, rest := incoming[0], incoming[1..];
      ElementsCons(seen, incoming);
      CollisionFreeLess(reader, seen + {next}, seen + Elements(incoming));
      MergeOneNewest(reader, m, seen, next);
      MergeAllNewest(reader, MergeOne(reader, m, next).value, seen + {next}, rest);
    }
  }

  lemma ElementsCons(seen: set<ManagedRecord>, rs: seq<ManagedRecord>)
    requires rs != []
    ensures seen + {rs[0]} + Elements(rs[1..]) == seen + Elements(rs)
    ensures seen + {rs[0]} <= seen + Elements(rs)
  {
    assert rs == [rs[0]] + rs[1..];
  }

  ghost function Elements(rs: seq<ManagedRecord>): set<ManagedRecord> {
    set r | r in rs
  }

  ghost predicate DistinctIds(rs: seq<ManagedRecord>) {
    forall i, j | 0 <= i < j < |rs| :: rs[i].id != rs[j].id
  }

  lemma {:induction false} LoadNewest(reader: Reader, m: Log, seen: set<ManagedRecord>, local: seq<ManagedRecord>)
    requires CollisionFree(reader, seen + Elements(local)) && Newest(m, seen) && DistinctIds(local)
    requires forall r | r in local :: r.id !in m
    ensures Load(reader, m, local).Some? && Newest(Load(reader, m, local).value, seen + Elements(local))
    decreases |local|
  {
    hide Decode, Compatible;
    if local == [] {
      assert seen + Elements(local) == seen;
    } else {
      var next, rest := local[0], local[1..];
      assert local == [next] + rest && next in seen + Elements(local);
      assert seen + {next} + Elements(rest) == seen + Elements(local);
      LexRefl(next.clock.device);
      forall r | r in rest ensures r.id != next.id {
        var j :| 0 <= j < |rest| && rest[j] == r;
        assert local[j + 1] == r;
      }
      assert DistinctIds(rest) by { assert forall i | 0 <= i < |rest| :: rest[i] == local[i + 1]; }
      LoadNewest(reader, m[next.id := next], seen + {next}, rest);
    }
  }

  /** On collision-free records the staged log is the newest version of every id, so it depends only on which
      records there are: not on their order or repetition, nor on what was local and what came in. */
  lemma StagesNewest(reader: Reader, local: seq<ManagedRecord>, incoming: seq<ManagedRecord>)
    requires CollisionFree(reader, Elements(local) + Elements(incoming)) && DistinctIds(local)
    ensures Prepared(reader, local, incoming).Some?
    ensures Newest(Prepared(reader, local, incoming).value, Elements(local) + Elements(incoming))
  {
    assert {} + Elements(local) == Elements(local);
    assert Newest(map[], {});
    hide CollisionFree, Newest, MergeAll, Load, Elements;
    CollisionFreeLess(reader, Elements(local), Elements(local) + Elements(incoming));
    LoadNewest(reader, map[], {}, local);
    MergeAllNewest(reader, Load(reader, map[], local).value, Elements(local), incoming);
  }

  lemma OrderIrrelevant(reader: Reader, local: seq<ManagedRecord>, incoming: seq<ManagedRecord>,
                        local': seq<ManagedRecord>, incoming': seq<ManagedRecord>)
    requires CollisionFree(reader, Elements(local) + Elements(incoming)) && DistinctIds(local) && DistinctIds(local')
    requires Elements(local) + Elements(incoming) == Elements(local') + Elements(incoming')
    ensures Prepared(reader, local, incoming).Some?
      && Prepared(reader, local', incoming') == Prepared(reader, local, incoming)
  {
    StagesNewest(reader, local, incoming);
    StagesNewest(reader, local', incoming');
    hide Prepared;
    NewestUnique(reader, Prepared(reader, local, incoming).value, Prepared(reader, local', incoming').value,
                 Elements(local) + Elements(incoming));
  }

  lemma NewestUnique(reader: Reader, m: Log, n: Log, all: set<ManagedRecord>)
    requires CollisionFree(reader, all) && Newest(m, all) && Newest(n, all)
    ensures m == n
  {
    hide Decode;
    forall id | id in m ensures id in n && m[id] == n[id] {
      assert m[id] in all && n[id] in all;
      ClockTotal(m[id].clock, n[id].clock);
      assert Compatible(reader, m[id], n[id]);
    }
    assert m.Keys == n.Keys;
  }

  /** Any way of cutting the incoming records into batches gives the same log. */
  lemma {:induction false} Batches(reader: Reader, m: Log, a: seq<ManagedRecord>, b: seq<ManagedRecord>)
    requires MergeAll(reader, m, a).Some?
    ensures MergeAll(reader, m, a + b) == MergeAll(reader, MergeAll(reader, m, a).value, b)
    decreases |a|
  {
    hide MergeOne;
    if a == [] {
      assert a + b == b;
    } else {
      assert (a + b)[0] == a[0] && (a + b)[1..] == a[1..] + b;
      Batches(reader, MergeOne(reader, m, a[0]).value, a[1..], b);
    }
  }

  /** A deletion and a live version of one operation end the same in either order exactly when the deletion is later. */
  lemma DeletionMustBeLater(reader: Reader, gone: ManagedRecord, live: ManagedRecord)
    requires Decode(reader, gone).Some? && Decode(reader, live).Some? && gone.id == live.id
    requires gone.deleted && !live.deleted && IsOp(Decode(reader, gone).value) && gone.clock != live.clock
    ensures Prepared(reader, [], [gone, live]) == Prepared(reader, [], [live, gone]) <==> live.clock.Lt(gone.clock)
    ensures Prepared(reader, [], [gone, live]) == Some(map[gone.id := gone])
  {
    DecodedId(reader, gone, live);
    ClockTotal(gone.clock, live.clock);
    Flags(reader, gone);
    Flags(reader, live);
    hide Decode, LamportClock.Le, Prepared;
    MergeTwo(reader, gone, live);
    MergeTwo(reader, live, gone);
    assert map[gone.id := gone][gone.id] == gone && map[gone.id := live][gone.id] == live;
  }

  lemma Flags(reader: Reader, r: ManagedRecord)
    requires Decode(reader, r).Some?
    ensures Decode(reader, r).value.tombstone == r.deleted
  {
  }

  lemma MergeTwo(reader: Reader, a: ManagedRecord, b: ManagedRecord)
    requires Decode(reader, a).Some? && Decode(reader, b).Some? && a.id == b.id
    ensures Prepared(reader, [], [a, b]) ==
            if Meet(reader, a, b).None? then None else Some(map[a.id := Meet(reader, a, b).value])
  {
    hide Decode, Meet;
    assert [a, b][1..] == [b] && [b][1..] == [];
    var m := map[a.id := a];
    assert MergeOne(reader, map[], a) == Some(m);
    assert MergeAll(reader, map[], [a, b]) == MergeAll(reader, m, [b]);
    if Meet(reader, a, b).Some? {
      var met := Meet(reader, a, b).value;
      assert m[b.id := met] == map[a.id := met];
      assert MergeAll(reader, m[b.id := met], []) == Some(m[b.id := met]);
    }
  }
}
