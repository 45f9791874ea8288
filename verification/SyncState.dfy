/** One replica's key/value state: Lamport-clocked entries plus the bookkeeping that lets a peer ask
    for "everything applied after sequence N, except what came from me". */
module SyncState {
  import opened Clocks
  import opened KeyLoops
  import opened Values

  datatype Entry = Entry(key: string, value: Value, clock: LamportClock)

  datatype PeerCursor = PeerCursor(epoch: string, clock: u64)

  const NO_CURSOR := PeerCursor("", 0)

  type Entries = map<string, Entry>

  // ----- The state as a value

  datatype Replica = Replica(
    deviceId: string,
    counter: u64,
    entries: Entries,
    sequence: u64,
    sequences: map<string, u64>,
    origins: map<string, string>,
    cursors: map<string, PeerCursor>,
    epoch: string)
  {
    /** What every operation keeps: each entry sits under its own key with a sequence in range,
        and the counter bounds every clock held. */
    ghost predicate Valid() {
      && 1 <= sequence
      && sequences.Keys == entries.Keys
      && origins.Keys <= entries.Keys
      && (forall k | k in entries :: entries[k].key == k && entries[k].clock.counter <= counter)
      && (forall k | k in sequences :: 1 < sequences[k] <= sequence)
    }

    function OriginOf(k: string): Option<string> {
      if k in origins then Some(origins[k]) else None
    }

    function RecordWrite(e: Entry, origin: Option<string>): Replica {
      var seqNo := SaturatingInc(sequence);
      this.(entries := entries[e.key := e],
            sequence := seqNo,
            sequences := sequences[e.key := seqNo],
            origins := if origin.Some? then origins[e.key := origin.value] else origins - {e.key})
    }

    function Observe(clock: LamportClock): Replica {
      this.(counter := if clock.counter > counter then clock.counter else counter)
    }

    function NextEntry(k: string, v: Value): Entry {
      Entry(k, v, LamportClock(SaturatingInc(counter), deviceId))
    }

    function Set(k: string, v: Value): Replica {
      this.(counter := SaturatingInc(counter)).RecordWrite(NextEntry(k, v), None)
    }

    predicate Accepts(e: Entry) {
      e.key in entries ==> !e.clock.Le(entries[e.key].clock)
    }

    function Apply(e: Entry, origin: Option<string>): Replica {
      if Accepts(e) then Observe(e.clock).RecordWrite(e, origin) else Observe(e.clock)
    }

    predicate Differs(e: Entry) {
      !(e.key in entries && entries[e.key] == e)
    }

    function Upsert(e: Entry, origin: Option<string>): Replica {
      if Differs(e) then Observe(e.clock).RecordWrite(e, origin) else Observe(e.clock)
    }

    function Merge(es: seq<Entry>, origin: Option<string>): Replica
      decreases |es|
    {
      if es == [] then this else Apply(es[0], origin).Merge(es[1..], origin)
    }

    function Applied(es: seq<Entry>): nat
      decreases |es|
    {
      if es == [] then 0
      else (if Accepts(es[0]) then 1 else 0) + Apply(es[0], None).Applied(es[1..])
    }

    predicate IsFullRequest(since: u64) {
      since == 0 || since > sequence
    }

    predicate InDelta(k: string, since: u64, exclude: Option<string>)
      requires k in entries
    {
      && (if k in sequences then sequences[k] else U64_MAX) > since
      && (exclude.Some? ==> OriginOf(k) != exclude)
    }

    /** What a peer whose cursor stands at `since` may still lack, leaving out what `exclude` itself sent; the whole
        map for a cursor that does not fit this history. */
    function DeltaSince(since: u64, exclude: Option<string>): Entries {
      if IsFullRequest(since) then entries
      else map k | k in entries && InDelta(k, since, exclude) :: entries[k]
    }

    function CursorFor(peer: string): PeerCursor {
      if peer in cursors then cursors[peer] else NO_CURSOR
    }

    function Resolve(c: PeerCursor): u64 {
      if c.epoch == epoch then c.clock else 0
    }

    function CurrentCursor(): PeerCursor {
      PeerCursor(epoch, sequence)
    }

    function WithCursor(peer: string, c: PeerCursor): Replica {
      this.(cursors := cursors[peer := c])
    }

    function Remove(k: string): Replica {
      this.(entries := entries - {k}, sequences := sequences - {k}, origins := origins - {k})
    }
  }

  function Fresh(deviceId: string, epoch: string): Replica {
    Replica(deviceId, 0, map[], 1, map[], map[], map[], epoch)
  }

  // ----- Last-writer-wins on entries maps

  /** The pointwise join: on a key held twice the greater clock wins, a tie keeps the left version. */
  ghost function Join(a: Entries, b: Entries): Entries {
    map k | k in a.Keys + b.Keys ::
      if k !in a then b[k] else if k !in b then a[k]
      else if b[k].clock.Le(a[k].clock) then a[k] else b[k]
  }

  ghost predicate Keyed(m: Entries) {
    forall k | k in m :: m[k].key == k
  }

  /** `es` lists exactly the entries of `m`, each key once. */
  ghost predicate Lists(es: seq<Entry>, m: Entries) {
    && (forall e | e in es :: e.key in m && m[e.key] == e)
    && (forall k | k in m :: m[k] in es)
    && (forall i, j | 0 <= i < j < |es| :: es[i].key != es[j].key)
  }

  ghost predicate Ordered(es: seq<Entry>) {
    forall i, j | 0 <= i < j < |es| :: LexLe(es[i].key, es[j].key)
  }

  /** The same entries in some order, each key once. */
  ghost predicate Rearranged(es: seq<Entry>, arranged: seq<Entry>) {
    && (forall e :: e in arranged <==> e in es)
    && (forall i, j | 0 <= i < j < |arranged| :: arranged[i].key != arranged[j].key)
  }

  // ----- What the operations keep

  /** One inbound entry keeps the state well formed and never lowers the counter or an entry. */
  lemma ApplyKeeps(r: Replica, e: Entry, origin: Option<string>)
    requires r.Valid()
    ensures r.Apply(e, origin).Valid()
    ensures r.Apply(e, origin).counter >= r.counter && r.Apply(e, origin).counter >= e.clock.counter
    ensures forall k | k in r.entries ::
              k in r.Apply(e, origin).entries && r.entries[k].clock.Le(r.Apply(e, origin).entries[k].clock)
  {
    ClockOrder();
  }

  /** Merging keeps the state well formed, never lowers the counter, never loses or lowers an entry. */
  lemma {:induction false} MergeKeeps(r: Replica, es: seq<Entry>, origin: Option<string>)
    requires r.Valid()
    ensures r.Merge(es, origin).Valid()
    ensures r.Merge(es, origin).counter >= r.counter
    ensures forall e | e in es :: r.Merge(es, origin).counter >= e.clock.counter
    ensures forall k | k in r.entries ::
              k in r.Merge(es, origin).entries && r.entries[k].clock.Le(r.Merge(es, origin).entries[k].clock)
    decreases |es|
  {
    if es == [] {
      ClockOrder();
    } else {
      var r1 := r.Apply(es[0], origin);
      ApplyKeeps(r, es[0], origin);
      MergeKeeps(r1, es[1..], origin);
      var r2 := r1.Merge(es[1..], origin);
      forall k | k in r.entries ensures k in r2.entries && r.entries[k].clock.Le(r2.entries[k].clock) {
        ClockTrans(r.entries[k].clock, r1.entries[k].clock, r2.entries[k].clock);
      }
    }
  }

  /** Merging a listing of `m` in any order yields the pointwise join with `m`. */
  lemma {:induction false} MergeIsJoin(r: Replica, es: seq<Entry>, m: Entries, origin: Option<string>)
    requires Lists(es, m) && Keyed(m)
    ensures r.Merge(es, origin).entries == Join(r.entries, m)
    decreases |es|
  {
    if es == [] {
      assert forall k | k in m :: m[k] in es;
      assert m == map[];
    } else {
      var e, rest := es[0], es[1..];
      var r1 := r.Apply(e, origin);
      var m1 := m - {e.key};
      assert es == [e] + rest;
      ListsTail(es, m);
      MergeIsJoin(r1, rest, m1, origin);
      JoinStep(r, e, m, origin);
    }
  }

  lemma JoinStep(r: Replica, e: Entry, m: Entries, origin: Option<string>)
    requires e.key in m && m[e.key] == e
    ensures Join(r.Apply(e, origin).entries, m - {e.key}) == Join(r.entries, m)
  {
    var a, b := r.entries, r.Apply(e, origin).entries;
    assert b == if r.Accepts(e) then a[e.key := e] else a;
    var left, right := Join(b, m - {e.key}), Join(a, m);
    assert left.Keys == right.Keys;
    forall k | k in right ensures left[k] == right[k] {
      if k != e.key { assert k in m ==> (m - {e.key})[k] == m[k]; }
    }
  }

  lemma ListsTail(es: seq<Entry>, m: Entries)
    requires es != [] && Lists(es, m) && Keyed(m)
    ensures es[0].key in m && m[es[0].key] == es[0]
    ensures Lists(es[1..], m - {es[0].key})
  {
    var rest := es[1..];
    forall e | e in rest ensures e.key != es[0].key {
      var i :| 0 <= i < |rest| && rest[i] == e;
      assert es[i + 1] == e;
    }
    forall k | k in m && k != es[0].key ensures m[k] in rest {
      assert m[k] in [es[0]] + rest && m[k].key == k;
    }
    forall i, j | 0 <= i < j < |rest| ensures rest[i].key != rest[j].key {
      assert rest[i] == es[i + 1] && rest[j] == es[j + 1];
    }
  }

  // ----- The state as the program keeps it

  /** Walks a BTreeMap in key order. */
  method ListEntries(m: Entries) returns (listed: seq<Entry>)
    requires Keyed(m)
    ensures Lists(listed, m) && Ordered(listed)
  {
    listed := [];
    var todo := m.Keys;
    while todo != {}
      invariant todo <= m.Keys
      invariant forall e | e in listed :: e.key in m && m[e.key] == e && e.key !in todo
      invariant forall k | k in m && k !in todo :: m[k] in listed
      invariant forall i, j | 0 <= i < j < |listed| :: listed[i].key != listed[j].key
      invariant Ordered(listed) && forall e, k | e in listed && k in todo :: LexLe(e.key, k)
      decreases |todo|
    {
      var k := FirstKey(todo);
      listed := listed + [m[k]];
      todo := todo - {k};
    }
  }

  class State {
    var deviceId: string
    var counter: u64
    var entries: Entries
    var sequence: u64
    var sequences: map<string, u64>
    var origins: map<string, string>
    var peerCursors: map<string, PeerCursor>
    var epoch: string
    var inboundOrigin: Option<string>

    ghost function Value(): Replica
      reads this
    {
      Replica(deviceId, counter, entries, sequence, sequences, origins, peerCursors, epoch)
    }

    constructor (deviceId: string, randomEpoch: string)
      ensures Value() == Fresh(deviceId, randomEpoch) && inboundOrigin == None
      ensures Value().Valid()
    {
      this.deviceId, counter, entries := deviceId, 0, map[];
      // No write ever gets sequence 0 or 1: a cursor at 0 belongs to a peer that holds nothing yet.
      sequence, sequences, origins, peerCursors := 1, map[], map[], map[];
      epoch, inboundOrigin := randomEpoch, None;
    }

    method RecordWrite(e: Entry, origin: Option<string>)
      requires e.key in entries && entries[e.key] == e
      modifies this
      ensures Value() == old(Value()).RecordWrite(e, origin) && inboundOrigin == old(inboundOrigin)
    {
      ghost var before := entries;
      sequence := SaturatingInc(sequence);
      sequences := sequences[e.key := sequence];
      match origin {
        case Some(device) => origins := origins[e.key := device];
        case None => origins := origins - {e.key};
      }
      assert before[e.key := e] == before;
    }

    method Set(key: string, value: Value) returns (entry: Entry)
      modifies this
      ensures Value() == old(Value()).Set(key, value) && inboundOrigin == old(inboundOrigin)
      ensures entry == entries[key] && entry == old(Value()).NextEntry(key, value)
      ensures old(Value()).Valid() ==> Value().Valid()
    {
      counter := SaturatingInc(counter);
      entry := Entry(key, value, LamportClock(counter, deviceId));
      entries := entries[key := entry];
      RecordWrite(entry, None);
    }

    /** The greater clock stays, a tie keeps what is there. */
    method ApplyEntry(entry: Entry) returns (accepted: bool)
      modifies this
      ensures Value() == old(Value()).Apply(entry, inboundOrigin) && inboundOrigin == old(inboundOrigin)
      ensures accepted == old(Value()).Accepts(entry)
    {
      if entry.clock.counter > counter {
        counter := entry.clock.counter;
      }
      if entry.key in entries && entry.clock.Le(entries[entry.key].clock) {
        return false;
      }
      entries := entries[entry.key := entry];
      RecordWrite(entry, inboundOrigin);
      return true;
    }

    /** Takes the entry over regardless of clocks, unless it is there already. */
    method UpsertEntry(entry: Entry) returns (written: bool)
      modifies this
      ensures Value() == old(Value()).Upsert(entry, inboundOrigin) && inboundOrigin == old(inboundOrigin)
      ensures written == old(Value()).Differs(entry)
    {
      if entry.clock.counter > counter {
        counter := entry.clock.counter;
      }
      if entry.key in entries && entries[entry.key] == entry {
        return false;
      }
      entries := entries[entry.key := entry];
      RecordWrite(entry, inboundOrigin);
      return true;
    }

    method MergeSnapshot(incoming: seq<Entry>) returns (applied: nat)
      modifies this
      ensures Value() == old(Value()).Merge(incoming, inboundOrigin) && inboundOrigin == old(inboundOrigin)
      ensures applied == old(Value()).Applied(incoming)
    {
      applied := 0;
      assert incoming[0..] == incoming;
      for i := 0 to |incoming|
        invariant inboundOrigin == old(inboundOrigin)
        invariant Value().Merge(incoming[i..], inboundOrigin) == old(Value()).Merge(incoming, inboundOrigin)
        invariant applied + Value().Applied(incoming[i..]) == old(Value()).Applied(incoming)
      {
        ghost var rest := incoming[i..];
        assert rest[0] == incoming[i] && rest[1..] == incoming[i + 1..];
        AppliedIgnoresOrigin(Value().Apply(rest[0], None), Value().Apply(rest[0], inboundOrigin), rest[1..]);
        var accepted := ApplyEntry(incoming[i]);
        if accepted {
          applied := applied + 1;
        }
      }
    }

    /** `with_inbound_origin` around a merge: the writes are attributed to the peer, and the previous
        attribution is put back. */
    method MergeFrom(origin: string, incoming: seq<Entry>) returns (applied: nat)
      modifies this
      ensures Value() == old(Value()).Merge(incoming, Some(origin)) && inboundOrigin == old(inboundOrigin)
      ensures applied == old(Value()).Applied(incoming)
    {
      var previous := inboundOrigin;
      inboundOrigin := Some(origin);
      applied := MergeSnapshot(incoming);
      inboundOrigin := previous;
    }

    method Snapshot() returns (listed: seq<Entry>)
      requires Keyed(entries)
      ensures Lists(listed, entries) && Ordered(listed)
    {
      listed := ListEntries(entries);
    }

    method DeltaSince(since: u64, exclude: Option<string>) returns (delta: seq<Entry>)
      requires Keyed(entries)
      ensures Lists(delta, Value().DeltaSince(since, exclude)) && Ordered(delta)
    {
      if since == 0 || since > sequence {
        delta := Snapshot();
        return;
      }
      var chosen := map k | k in entries
        && (if k in sequences then sequences[k] else U64_MAX) > since
        && (exclude.Some? ==> (if k in origins then Some(origins[k]) else None) != exclude) :: entries[k];
      assert chosen == Value().DeltaSince(since, exclude);
      delta := ListEntries(chosen);
    }

    method SetPeerCursor(device: string, cursor: PeerCursor)
      modifies this
      ensures Value() == old(Value()).WithCursor(device, cursor) && inboundOrigin == old(inboundOrigin)
    {
      peerCursors := peerCursors[device := cursor];
    }

    method Remove(key: string) returns (removed: Option<Entry>)
      modifies this
      ensures Value() == old(Value()).Remove(key) && inboundOrigin == old(inboundOrigin)
      ensures removed == if key in old(entries) then Some(old(entries)[key]) else None
      ensures old(Value()).Valid() ==> Value().Valid()
    {
      removed := if key in entries then Some(entries[key]) else None;
      entries, sequences, origins := entries - {key}, sequences - {key}, origins - {key};
    }

    /** Completes whatever a file holds: an entry without a sequence gets one after all the old ones, so no cursor
        taken before the load hides it. */
    method Normalize(randomEpoch: string)
      modifies this`epoch, this`sequence, this`sequences, this`origins
      ensures epoch == if old(epoch) == "" then randomEpoch else old(epoch)
      ensures sequences.Keys == entries.Keys && origins == Restricted(old(origins), entries.Keys)
      ensures forall k | k in entries && k in old(sequences) :: sequences[k] == old(sequences)[k]
      ensures var start := if old(sequence) == 0 then 1 else old(sequence);
              Numbered(sequences, Restricted(old(sequences), entries.Keys), entries.Keys - old(sequences).Keys, start,
                sequence)
      ensures forall k | k in entries && k !in old(sequences) :: sequences[k] > old(sequence) || sequences[k] == U64_MAX
      ensures Value().Valid() <==>
                && (forall k | k in entries :: entries[k].key == k && entries[k].clock.counter <= counter)
                && (forall k | k in entries && k in old(sequences) :: 1 < old(sequences)[k] <= sequence)
    {
      epoch := if epoch == "" then randomEpoch else epoch;
      sequence := if sequence == 0 then 1 else sequence;
      ghost var start, was, missing := sequence, sequences, entries.Keys - sequences.Keys;
      sequences, sequence := NumberMissing(entries.Keys, sequences, sequence);
      hide Numbered, Replica.Valid;
      NumberedRange(sequences, was, missing, start, sequence);
      NumberedWithin(sequences, was, entries.Keys, missing, start, sequence);
      sequences := Restricted(sequences, entries.Keys);
      origins := Restricted(origins, entries.Keys);
      NormalizedValid(Value(), was);
    }
  }

  function Restricted<T>(m: map<string, T>, keys: set<string>): (r: map<string, T>)
    ensures r.Keys == m.Keys * keys
    ensures forall k | k in r :: r[k] == m[k]
  {
    map k | k in m && k in keys :: m[k]
  }

  function Capped(n: nat): u64 {
    if n > U64_MAX then U64_MAX else n
  }

  ghost function UpTo(keys: set<string>, k: string): set<string> {
    set j | j in keys && LexLe(j, k)
  }

  lemma UpToSize(keys: set<string>, k: string)
    requires k in keys
    ensures 1 <= |UpTo(keys, k)| <= |keys|
  {
    LexRefl(k);
    SubsetSize({k}, UpTo(keys, k));
    SubsetSize(UpTo(keys, k), keys);
  }

  /** The least key still to do comes right behind those done. */
  lemma UpToLeast(keys: set<string>, done: set<string>, todo: set<string>, k: string)
    requires keys == done + todo && done !! todo && IsLeast(k, todo) && InFront(done, todo)
    ensures |UpTo(keys, k)| == |done| + 1 && InFront(done + {k}, todo - {k})
  {
    LexRefl(k);
    forall j | j in todo && LexLe(j, k) ensures j == k {
      LexAntisym(j, k);
    }
    assert UpTo(keys, k) == done + {k};
  }

  ghost predicate InFront(done: set<string>, todo: set<string>) {
    forall a, b | a in done && b in todo :: LexLe(a, b)
  }

  /** The keys in `done`, of those in `missing`, have got, in key order, the sequences after `start`. */
  ghost predicate NumberedSoFar(
    m: map<string, u64>, before: map<string, u64>, missing: set<string>, done: set<string>, start: u64, last: u64)
  {
    && last == Capped(start + |done|) && (forall k :: k in m <==> k in before || k in done)
    && (forall k | k in before && k !in missing :: m[k] == before[k])
    && (forall k | k in done :: m[k] == Capped(start + |UpTo(missing, k)|))
  }

  ghost predicate Numbered(m: map<string, u64>, before: map<string, u64>, missing: set<string>, start: u64, last: u64) {
    NumberedSoFar(m, before, missing, missing, start, last)
  }

  lemma NumberOne(
    m: map<string, u64>, before: map<string, u64>, missing: set<string>, done: set<string>, start: u64, last: u64,
      k: string)
    requires NumberedSoFar(m, before, missing, done, start, last)
    requires k in missing && k !in done && |UpTo(missing, k)| == |done| + 1
    ensures NumberedSoFar(m[k := SaturatingInc(last)], before, missing, done + {k}, start, SaturatingInc(last))
  {
    hide UpTo;
    assert |done + {k}| == |done| + 1;
  }

  lemma NumberedRange(m: map<string, u64>, before: map<string, u64>, missing: set<string>, start: u64, last: u64)
    requires Numbered(m, before, missing, start, last)
    ensures start <= last
    ensures forall k | k in missing :: k in m && m[k] <= last && (start < m[k] || m[k] == U64_MAX)
  {
    forall k | k in missing ensures k in m && m[k] <= last && (start < m[k] || m[k] == U64_MAX) {
      UpToSize(missing, k);
    }
  }

  /** Dropping what no entry stands for changes nothing else. */
  lemma NumberedWithin(
    m: map<string, u64>, before: map<string, u64>, keys: set<string>, missing: set<string>, start: u64, last: u64)
    requires Numbered(m, before, missing, start, last) && forall k :: k in missing <==> k in keys && k !in before
    ensures Numbered(Restricted(m, keys), Restricted(before, keys), missing, start, last)
    ensures keys <= m.Keys && forall k | k in keys && k in before :: m[k] == before[k]
  {
    hide UpTo;
    var n, b := Restricted(m, keys), Restricted(before, keys);
    forall k ensures k in n <==> k in b || k in missing {
    }
    forall k | k in b && k !in missing ensures n[k] == b[k] {
    }
    forall k | k in missing ensures n[k] == m[k] {
    }
  }

  lemma NormalizedValid(r: Replica, before: map<string, u64>)
    requires 1 <= r.sequence && r.sequences.Keys == r.entries.Keys && r.origins.Keys <= r.entries.Keys
    requires forall k | k in r.entries && k in before :: r.sequences[k] == before[k]
    requires forall k | k in r.entries && k !in before :: 1 < r.sequences[k] <= r.sequence
    ensures r.Valid() <==>
              && (forall k | k in r.entries :: r.entries[k].key == k && r.entries[k].clock.counter <= r.counter)
              && (forall k | k in r.entries && k in before :: 1 < before[k] <= r.sequence)
  {
    if r.Valid() {
      forall k | k in r.entries && k in before ensures 1 < before[k] <= r.sequence {
        assert k in r.sequences;
      }
    }
  }

  /** Gives each of `keys` that has none, in key order, the next sequence after `start`. */
  method NumberMissing(keys: set<string>, before: map<string, u64>, start: u64)
    returns (numbered: map<string, u64>, last: u64)
    ensures Numbered(numbered, before, keys - before.Keys, start, last)
  {
    numbered, last := before, start;
    var todo := keys - before.Keys;
    ghost var missing, done := todo, {};
    assert Numbering(numbered, before, missing, done, todo, start, last);
    hide Numbering, Numbered, IsLeast;
    while todo != {}
      invariant Numbering(numbered, before, missing, done, todo, start, last)
      decreases |todo|
    {
      var k := FirstKey(todo);
      NumberNext(numbered, before, missing, done, todo, start, last, k);
      last := SaturatingInc(last);
      numbered := numbered[k := last];
      todo, done := todo - {k}, done + {k};
    }
    AllNumbered(numbered, before, missing, done, start, last);
  }

  ghost predicate Numbering(
    m: map<string, u64>, before: map<string, u64>, missing: set<string>, done: set<string>, todo: set<string>,
    start: u64, last: u64)
  {
    missing == done + todo && done !! todo && InFront(done, todo)
      && NumberedSoFar(m, before, missing, done, start, last)
  }

  lemma NumberNext(
    m: map<string, u64>, before: map<string, u64>, missing: set<string>, done: set<string>, todo: set<string>,
    start: u64, last: u64, k: string)
    requires Numbering(m, before, missing, done, todo, start, last) && IsLeast(k, todo)
    ensures Numbering(m[k := SaturatingInc(last)], before, missing, done + {k}, todo - {k}, start, SaturatingInc(last))
  {
    UpToLeast(missing, done, todo, k);
    hide InFront, NumberedSoFar, UpTo;
    assert missing == done + {k} + (todo - {k}) && done + {k} !! todo - {k};
    NumberOne(m, before, missing, done, start, last, k);
  }

  lemma AllNumbered(
    m: map<string, u64>, before: map<string, u64>, missing: set<string>, done: set<string>, start: u64, last: u64)
    requires Numbering(m, before, missing, done, {}, start, last)
    ensures Numbered(m, before, missing, start, last)
  {
    assert done == missing;
  }

  lemma {:induction false} AppliedIgnoresOrigin(r: Replica, q: Replica, es: seq<Entry>)
    requires r.entries == q.entries
    ensures r.Applied(es) == q.Applied(es)
    decreases |es|
  {
    if es != [] {
      AppliedIgnoresOrigin(r.Apply(es[0], None), q.Apply(es[0], None), es[1..]);
    }
  }

  lemma {:induction false} MergeCons(r: Replica, e: Entry, rest: seq<Entry>, o: Option<string>)
    ensures r.Merge([e] + rest, o) == r.Apply(e, o).Merge(rest, o)
    ensures r.Applied([e] + rest) == (if r.Accepts(e) then 1 else 0) + r.Apply(e, o).Applied(rest)
  {
    assert ([e] + rest)[1..] == rest;
    AppliedIgnoresOrigin(r.Apply(e, o), r.Apply(e, None), rest);
  }

  // ----- The entries map alone

  function Put(m: Entries, e: Entry): Entries {
    if e.key in m && e.clock.Le(m[e.key].clock) then m else m[e.key := e]
  }

  function PutAll(m: Entries, es: seq<Entry>): Entries
    decreases |es|
  {
    if es == [] then m else PutAll(Put(m, es[0]), es[1..])
  }

  lemma {:induction false} MergeEntries(r: Replica, es: seq<Entry>, o: Option<string>)
    ensures r.Merge(es, o).entries == PutAll(r.entries, es)
    decreases |es|
  {
    if es != [] {
      MergeEntries(r.Apply(es[0], o), es[1..], o);
    }
  }
}
