/** Folding batches of incoming records into the stored ones. */
module RecordFold {
  import opened Clocks
  import opened RecordKeys
  import opened RecordLattice
  import opened RecordMerge
  import opened Records
  import opened SyncState
  import opened Values

  // ----- The fold

  /** A failed fold stops where it is and keeps what it already wrote. */
  datatype Folded = Folded(state: Replica, applied: nat, failed: bool)

  function FoldOne(s: Replica, ns: Text, rules: Rules, r: SyncRecord, origin: Option<string>): Folded {
    match Get(s.entries, ns, r.rid)
    case Err => Folded(s, 0, true)
    case Ok(existing) =>
      var merged := if existing.Some? then Merged(rules, existing.value, r) else r;
      match Get(s.entries, ns, merged.rid)
      case Err => Folded(s, 0, true)
      case Ok(stored) =>
        var e := ToEntry(ns, Stamp(merged, stored));
        Folded(s.Upsert(e, origin), if s.Differs(e) then 1 else 0, false)
  }

  function Fold(s: Replica, ns: Text, rules: Rules, rs: seq<SyncRecord>, origin: Option<string>): Folded
    decreases |rs|
  {
    if rs == [] then Folded(s, 0, false)
    else
      var first := FoldOne(s, ns, rules, rs[0], origin);
      if first.failed then first
      else
        var rest := Fold(first.state, ns, rules, rs[1..], origin);
        Folded(rest.state, first.applied + rest.applied, rest.failed)
  }

  method MergeIntoState(records: RecordState, record: SyncRecord, rules: Rules) returns (r: Result<bool>)
    modifies records.state
    ensures records.state.inboundOrigin == old(records.state.inboundOrigin)
    ensures var f := FoldOne(old(records.state.Value()), records.ns, rules, record, records.state.inboundOrigin);
            records.state.Value() == f.state && r == if f.failed then Err else Ok(f.applied == 1)
  {
    hide Get, Merged, Stamp, ToEntry;
    var existing := records.GetRecord(record.rid);
    if existing.Err? {
      return Err;
    }
    var merged := record;
    if existing.value.Some? {
      merged := MergeRecords(rules, existing.value.value, record);
    }
    r := records.Upsert(merged);
  }

  method ApplySnapshotWithPolicy(records: RecordState, incoming: seq<SyncRecord>, rules: Rules) returns (r: Result<nat>)
    modifies records.state
    ensures records.state.inboundOrigin == old(records.state.inboundOrigin)
    ensures var f := Fold(old(records.state.Value()), records.ns, rules, incoming, records.state.inboundOrigin);
            records.state.Value() == f.state && r == if f.failed then Err else Ok(f.applied)
  {
    var applied := 0;
    ghost var before, origin := records.state.Value(), records.state.inboundOrigin;
    ghost var whole := Fold(before, records.ns, rules, incoming, origin);
    assert incoming[0..] == incoming;
    for i := 0 to |incoming|
      invariant records.state.inboundOrigin == origin
      invariant var rest := Fold(records.state.Value(), records.ns, rules, incoming[i..], origin);
                whole == Folded(rest.state, applied + rest.applied, rest.failed)
    {
      assert incoming[i..][0] == incoming[i] && incoming[i..][1..] == incoming[i + 1..];
      FoldOneCounts(records.state.Value(), records.ns, rules, incoming[i], origin);
      hide FoldOne;
      var written := MergeIntoState(records, incoming[i], rules);
      if written.Err? {
        return Err;
      }
      if written.value {
        applied := applied + 1;
      }
    }
    return Ok(applied);
  }

  lemma FoldOneCounts(s: Replica, ns: Text, rules: Rules, r: SyncRecord, origin: Option<string>)
    ensures FoldOne(s, ns, rules, r, origin).applied <= 1
  {
  }

  // ----- Versions

  /** A version with every field clock written out. */
  function Normal(r: SyncRecord): SyncRecord {
    Stamp(r, None)
  }

  lemma NormalFields(r: SyncRecord)
    ensures Normal(r).Stamped() && Normal(r).fields == r.fields && Normal(r).rid == r.rid
    ensures Normal(r).clock == r.clock && Normal(r).updatedAt == r.updatedAt && Normal(r).tombstone == r.tombstone
    ensures forall f | f in r.fields :: Normal(r).FieldClock(f) == r.FieldClock(f)
  {
  }

  lemma MergedNormal(rules: Rules, a: SyncRecord, r: SyncRecord)
    requires !a.tombstone && !r.tombstone
    ensures Merged(rules, a, r) == Merged(rules, a, Normal(r))
  {
    NormalFields(r);
    var n := Normal(r);
    hide Normal, MergedValue;
    assert forall f | f in a.fields.Keys + r.fields.Keys :: FieldResult(rules, a, r, f) == FieldResult(rules, a, n, f);
    assert forall f :: ClockResult(a, r, f) == ClockResult(a, n, f);
    assert MergedFields(rules, a, r) == MergedFields(rules, a, n);
    assert MergedClocks(a, r) == MergedClocks(a, n);
  }

  lemma StampStamped(r: SyncRecord, existing: Option<SyncRecord>)
    requires r.Stamped()
    ensures Stamp(r, existing) == r
  {
    assert StampedClocks(r, existing) == r.fieldClocks;
  }

  /** Versions that may be mixed: all good, and agreeing wherever they are of the same record. */
  ghost predicate Family(rules: Rules, vs: set<SyncRecord>) {
    && (forall v | v in vs :: Good(rules, v))
    && (forall v, w | v in vs && w in vs && v.rid == w.rid :: Agree(rules, v, w))
  }

  lemma FamilyGrows(rules: Rules, vs: set<SyncRecord>, a: SyncRecord, b: SyncRecord)
    requires Family(rules, vs) && a in vs && b in vs && a.rid == b.rid
    ensures Family(rules, vs + {Merged(rules, a, b)}) && Merged(rules, a, b).rid == a.rid
  {
    var m := Merged(rules, a, b);
    assert Agree(rules, a, b);
    MergedGood(rules, a, b);
    MergedShape(rules, a, b);
    hide Merged, Good, Agree;
    forall w | w in vs && w.rid == m.rid ensures Agree(rules, m, w) && Agree(rules, w, m) {
      assert Agree(rules, a, w) && Agree(rules, b, w);
      MergedAgrees(rules, a, b, w);
      AgreeSym(rules, m, w);
    }
    AgreeSelf(rules, m);
  }

  lemma AgreeSelf(rules: Rules, v: SyncRecord)
    ensures Agree(rules, v, v)
  {
  }

  // ----- One record's share of the fold

  /** What folding `rs` makes of the version `cur` stored for `rid`. */
  function Share(rules: Rules, cur: Option<SyncRecord>, rs: seq<SyncRecord>, rid: RecordId): Option<SyncRecord>
    decreases |rs|
  {
    if rs == [] then cur
    else if rs[0].rid != rid then Share(rules, cur, rs[1..], rid)
    else Share(rules, Some(if cur.Some? then Merged(rules, cur.value, Normal(rs[0])) else Normal(rs[0])), rs[1..], rid)
  }

  ghost predicate In(vs: set<SyncRecord>, cur: Option<SyncRecord>, rs: seq<SyncRecord>, rid: RecordId) {
    && (cur.Some? ==> cur.value in vs && cur.value.rid == rid)
    && (forall r | r in rs && r.rid == rid :: Normal(r) in vs)
  }

  ghost predicate Bounds(rules: Rules, x: SyncRecord, cur: Option<SyncRecord>, rs: seq<SyncRecord>, rid: RecordId) {
    && (cur.Some? ==> Below(rules, cur.value, x))
    && (forall r | r in rs && r.rid == rid :: Below(rules, Normal(r), x))
  }

  /** The share of a record is the least version above the stored and all incoming ones. */
  lemma {:induction false} ShareIsJoin(
    rules: Rules, vs: set<SyncRecord>, cur: Option<SyncRecord>, rs: seq<SyncRecord>, rid: RecordId)
    requires Family(rules, vs) && In(vs, cur, rs, rid)
    ensures var j := Share(rules, cur, rs, rid);
            && (j.Some? <==> cur.Some? || exists r :: r in rs && r.rid == rid)
            && (j.Some? ==> Good(rules, j.value) && j.value.rid == rid && Bounds(rules, j.value, cur, rs, rid)
                            && forall x | Good(rules, x) && Bounds(rules, x, cur, rs, rid) :: Below(rules, j.value, x))
    decreases |rs|
  {
    hide Merged, Good, Agree, Below;
    if rs == [] {
      if cur.Some? { BelowRefl(rules, cur.value); }
    } else {
      var r, rest := rs[0], rs[1..];
      assert rs == [r] + rest;
      if r.rid != rid {
        ShareIsJoin(rules, vs, cur, rest, rid);
        assert forall x :: Bounds(rules, x, cur, rs, rid) <==> Bounds(rules, x, cur, rest, rid);
      } else if cur.None? {
        var n := Normal(r);
        NormalFields(r);
        ShareIsJoin(rules, vs, Some(n), rest, rid);
        assert forall x :: Bounds(rules, x, cur, rs, rid) <==> Bounds(rules, x, Some(n), rest, rid);
      } else {
        ShareStep(rules, vs, cur.value, r, rest, rid);
      }
    }
  }

  lemma {:induction false} ShareStep(
    rules: Rules, vs: set<SyncRecord>, v: SyncRecord, r: SyncRecord, rest: seq<SyncRecord>, rid: RecordId)
    requires Family(rules, vs) && In(vs, Some(v), [r] + rest, rid) && r.rid == rid
    ensures var j := Share(rules, Some(v), [r] + rest, rid);
            && j.Some? && Good(rules, j.value) && j.value.rid == rid && Bounds(rules, j.value, Some(v), [r] + rest, rid)
            && forall x | Good(rules, x) && Bounds(rules, x, Some(v), [r] + rest, rid) :: Below(rules, j.value, x)
    decreases |rest| + 1, 0
  {
    hide Merged, Good, Agree, Below;
    var rs := [r] + rest;
    assert rs[1..] == rest && r in rs;
    var n := Normal(r);
    var m := Merged(rules, v, n);
    NormalFields(r);
    FamilyGrows(rules, vs, v, n);
    ShareIsJoin(rules, vs + {m}, Some(m), rest, rid);
    assert Agree(rules, v, n);
    MergedAbove(rules, v, n);
    var j := Share(rules, Some(m), rest, rid).value;
    BelowTrans(rules, v, m, j);
    BelowTrans(rules, n, m, j);
    forall x | Good(rules, x) && Bounds(rules, x, Some(v), rs, rid) ensures Below(rules, j, x) {
      MergedLeast(rules, v, n, x);
      assert Bounds(rules, x, Some(m), rest, rid);
    }
  }

  /** So only the set of incoming versions matters. */
  lemma ShareIgnoresOrder(rules: Rules, vs: set<SyncRecord>, cur: Option<SyncRecord>, rs: seq<SyncRecord>,
                          qs: seq<SyncRecord>, rid: RecordId)
    requires Family(rules, vs) && In(vs, cur, rs, rid) && forall r :: r in rs <==> r in qs
    ensures Share(rules, cur, rs, rid) == Share(rules, cur, qs, rid)
  {
    hide Good, Below, Share;
    ShareIsJoin(rules, vs, cur, rs, rid);
    ShareIsJoin(rules, vs, cur, qs, rid);
    var i, j := Share(rules, cur, rs, rid), Share(rules, cur, qs, rid);
    if i.Some? {
      assert Bounds(rules, i.value, cur, qs, rid) && Bounds(rules, j.value, cur, rs, rid);
      BelowAntisym(rules, i.value, j.value);
    }
  }

  // ----- The whole state

  function Stored(m: Entries, ns: Text, rid: RecordId): Option<SyncRecord> {
    var found := Get(m, ns, rid);
    if found.Ok? then found.value else None
  }

  /** The incoming versions and the stored versions of the same records all belong to `vs`. */
  ghost predicate Ready(m: Entries, ns: Text, rules: Rules, vs: set<SyncRecord>, rs: seq<SyncRecord>) {
    && Keyed(m) && Family(rules, vs)
    && (forall r | r in rs :: Normal(r) in vs)
    && (forall v | v in vs && KeyOf(ns, v.rid) in m :: Stored(m, ns, v.rid).Some? && Stored(m, ns, v.rid).value in vs)
  }

  function Next(rules: Rules, cur: Option<SyncRecord>, r: SyncRecord): SyncRecord {
    if cur.Some? then Merged(rules, cur.value, Normal(r)) else Normal(r)
  }

  lemma NextInFamily(m: Entries, ns: Text, rules: Rules, vs: set<SyncRecord>, r: SyncRecord)
    requires Ready(m, ns, rules, vs, [r])
    ensures var j := Next(rules, Stored(m, ns, r.rid), r);
            Family(rules, vs + {j}) && j.rid == r.rid && j.Stamped() && Good(rules, j)
    ensures Get(m, ns, r.rid) == Ok(Stored(m, ns, r.rid))
  {
    hide Merged, Agree, KeyOf, Get;
    var n := Normal(r);
    assert r in [r];
    NormalFields(r);
    GetFinds(m, ns, r.rid);
    var cur := Stored(m, ns, r.rid);
    if cur.Some? {
      FamilyGrows(rules, vs, cur.value, n);
      assert Merged(rules, cur.value, n) in vs + {Merged(rules, cur.value, n)};
    } else {
      assert vs + {n} == vs;
    }
  }

  /** One record: its entry becomes the join, and the state is ready for the rest. */
  lemma FoldOneJoins(s: Replica, ns: Text, rules: Rules, vs: set<SyncRecord>, r: SyncRecord, origin: Option<string>)
    requires Ready(s.entries, ns, rules, vs, [r])
    ensures var e := ToEntry(ns, Next(rules, Stored(s.entries, ns, r.rid), r));
            && FoldOne(s, ns, rules, r, origin) == Folded(s.Upsert(e, origin), if s.Differs(e) then 1 else 0, false)
            && s.Upsert(e, origin).entries == s.entries[e.key := e]
  {
    hide Merged, Agree, KeyOf, Get, Family, Good;
    NextInFamily(s.entries, ns, rules, vs, r);
    var cur := Stored(s.entries, ns, r.rid);
    var j := Next(rules, cur, r);
    NormalFields(r);
    if cur.Some? {
      assert r in [r];
      LiveVersions(s.entries, ns, rules, vs, r);
      MergedNormal(rules, cur.value, r);
      StampStamped(j, cur);
    }
    var e := ToEntry(ns, j);
    if !s.Differs(e) { assert s.entries[e.key := e] == s.entries; }
  }

  lemma LiveVersions(m: Entries, ns: Text, rules: Rules, vs: set<SyncRecord>, r: SyncRecord)
    requires Ready(m, ns, rules, vs, [r]) && Stored(m, ns, r.rid).Some?
    ensures !r.tombstone && !Stored(m, ns, r.rid).value.tombstone
  {
    hide KeyOf, Get;
    assert r in [r];
    NormalFields(r);
    GetFinds(m, ns, r.rid);
    assert Good(rules, Normal(r)) && Good(rules, Stored(m, ns, r.rid).value);
  }

  lemma ReadyHead(m: Entries, ns: Text, rules: Rules, vs: set<SyncRecord>, r: SyncRecord, rest: seq<SyncRecord>)
    requires Ready(m, ns, rules, vs, [r] + rest)
    ensures Ready(m, ns, rules, vs, [r])
  {
    hide Family, Stored, Normal;
    assert r in [r] + rest;
  }

  lemma StillReady(m: Entries, ns: Text, rules: Rules, vs: set<SyncRecord>, r: SyncRecord, rest: seq<SyncRecord>)
    requires Ready(m, ns, rules, vs, [r] + rest)
    ensures var j := Next(rules, Stored(m, ns, r.rid), r);
            && Ready(m[KeyOf(ns, r.rid) := ToEntry(ns, j)], ns, rules, vs + {j}, rest)
            && j.rid == r.rid && Stored(m[KeyOf(ns, r.rid) := ToEntry(ns, j)], ns, r.rid) == Some(j)
  {
    hide Family, Good, Merged, Next, Get, KeyOf, Normal;
    ReadyHead(m, ns, rules, vs, r, rest);
    NextInFamily(m, ns, rules, vs, r);
    var j := Next(rules, Stored(m, ns, r.rid), r);
    var after := m[KeyOf(ns, r.rid) := ToEntry(ns, j)];
    GetStored(after, ns, j);
    KeyOfToEntry(ns, j);
    hide ToEntry;
    assert Keyed(after);
    forall v | v in vs + {j} && KeyOf(ns, v.rid) in after
      ensures Stored(after, ns, v.rid).Some? && Stored(after, ns, v.rid).value in vs + {j} {
      if v.rid != r.rid {
        Elsewhere(m, ns, r.rid, ToEntry(ns, j), v.rid);
        assert v in vs;
      }
    }
    forall q | q in rest ensures Normal(q) in vs + {j} { assert q in [r] + rest; }
  }

  lemma Elsewhere(m: Entries, ns: Text, rid: RecordId, e: Entry, other: RecordId)
    requires other != rid
    ensures KeyOf(ns, other) in m[KeyOf(ns, rid) := e] <==> KeyOf(ns, other) in m
    ensures Stored(m[KeyOf(ns, rid) := e], ns, other) == Stored(m, ns, other)
  {
    if KeyOf(ns, other) == KeyOf(ns, rid) { KeyOfInjective(ns, other, rid); }
    hide KeyOf, FromEntry;
  }

  /** The fold never fails, stores for every record its share, and leaves every other entry alone. */
  lemma {:induction false} FoldShares(s: Replica, ns: Text, rules: Rules, vs: set<SyncRecord>, rs: seq<SyncRecord>,
                                      origin: Option<string>, rid: RecordId, k: string)
    requires Ready(s.entries, ns, rules, vs, rs)
    ensures var f := Fold(s, ns, rules, rs, origin);
            && !f.failed && Keyed(f.state.entries)
            && Stored(f.state.entries, ns, rid) == Share(rules, Stored(s.entries, ns, rid), rs, rid)
            && ((forall r | r in rs :: KeyOf(ns, r.rid) != k) ==>
                  (k in f.state.entries <==> k in s.entries) && (k in s.entries ==> f.state.entries[k] == s.entries[k]))
    decreases |rs|
  {
    if rs != [] {
      var r, rest := rs[0], rs[1..];
      assert rs == [r] + rest;
      hide Family, Good, Merged, KeyOf, Get, Normal, ToEntry;
      StillReady(s.entries, ns, rules, vs, r, rest);
      ReadyHead(s.entries, ns, rules, vs, r, rest);
      FoldOneJoins(s, ns, rules, vs, r, origin);
      var j := Next(rules, Stored(s.entries, ns, r.rid), r);
      var first := FoldOne(s, ns, rules, r, origin);
      KeyOfToEntry(ns, j);
      hide Ready, FoldOne, Next;
      FoldShares(first.state, ns, rules, vs + {j}, rest, origin, rid, k);
      if rid != r.rid { Elsewhere(s.entries, ns, r.rid, ToEntry(ns, j), rid); }
      assert Next(rules, Stored(s.entries, ns, r.rid), r) == j;
    }
  }

  lemma KeyOfToEntry(ns: Text, r: SyncRecord)
    ensures ToEntry(ns, r).key == KeyOf(ns, r.rid)
  {
  }

  // ----- Order, batching and replay

  lemma ShareSetting(m: Entries, ns: Text, rules: Rules, vs: set<SyncRecord>, rs: seq<SyncRecord>, r: SyncRecord)
    requires Ready(m, ns, rules, vs, rs) && r in rs
    ensures In(vs, Stored(m, ns, r.rid), rs, r.rid)
  {
    hide Family, KeyOf, Get;
    NormalFields(r);
    GetFinds(m, ns, r.rid);
  }

  /** What the fold stores under a record's key. */
  lemma FoldedEntry(
    s: Replica, ns: Text, rules: Rules, vs: set<SyncRecord>, rs: seq<SyncRecord>, origin: Option<string>,
                    r: SyncRecord)
    requires Ready(s.entries, ns, rules, vs, rs) && r in rs
    ensures var f, j := Fold(s, ns, rules, rs, origin), Share(rules, Stored(s.entries, ns, r.rid), rs, r.rid);
            && j.Some? && KeyOf(ns, r.rid) in f.state.entries
                 && f.state.entries[KeyOf(ns, r.rid)] == ToEntry(ns, j.value)
            && Stored(f.state.entries, ns, r.rid) == j
  {
    ShareSetting(s.entries, ns, rules, vs, rs, r);
    FoldShares(s, ns, rules, vs, rs, origin, r.rid, "");
    ReadyFamily(s.entries, ns, rules, vs, rs);
    hide Ready, Family, KeyOf, Get, Good, Share, Fold;
    ShareIsJoin(rules, vs, Stored(s.entries, ns, r.rid), rs, r.rid);
    GetFinds(Fold(s, ns, rules, rs, origin).state.entries, ns, r.rid);
  }

  lemma ReadyFamily(m: Entries, ns: Text, rules: Rules, vs: set<SyncRecord>, rs: seq<SyncRecord>)
    requires Ready(m, ns, rules, vs, rs)
    ensures Family(rules, vs)
  {
  }

  /** After the fold each incoming record is stored as the least version above what was stored and everything
      that came in for it. */
  lemma FoldStoresJoin(s: Replica, ns: Text, rules: Rules, vs: set<SyncRecord>, rs: seq<SyncRecord>,
                       origin: Option<string>, r: SyncRecord)
    requires Ready(s.entries, ns, rules, vs, rs) && r in rs
    ensures var before := Stored(s.entries, ns, r.rid);
            var after := Stored(Fold(s, ns, rules, rs, origin).state.entries, ns, r.rid);
            && after.Some? && Good(rules, after.value) && Bounds(rules, after.value, before, rs, r.rid)
            && forall x | Good(rules, x) && Bounds(rules, x, before, rs, r.rid) :: Below(rules, after.value, x)
  {
    FoldedEntry(s, ns, rules, vs, rs, origin, r);
    ShareSetting(s.entries, ns, rules, vs, rs, r);
    ReadyFamily(s.entries, ns, rules, vs, rs);
    hide Ready, Family, KeyOf, Get, Good, Share, Fold, Below;
    ShareIsJoin(rules, vs, Stored(s.entries, ns, r.rid), rs, r.rid);
  }

  lemma SameShare(s: Replica, ns: Text, rules: Rules, vs: set<SyncRecord>, rs: seq<SyncRecord>, qs: seq<SyncRecord>,
                  origin: Option<string>, r: SyncRecord)
    requires Ready(s.entries, ns, rules, vs, rs) && Ready(s.entries, ns, rules, vs, qs)
    requires (forall q :: q in rs <==> q in qs) && r in rs
    ensures var f, g, k := Fold(s, ns, rules, rs, origin), Fold(s, ns, rules, qs, origin), KeyOf(ns, r.rid);
            k in f.state.entries && k in g.state.entries && f.state.entries[k] == g.state.entries[k]
  {
    hide Ready, Family, KeyOf, Share, Fold, Stored;
    FoldedEntry(s, ns, rules, vs, rs, origin, r);
    FoldedEntry(s, ns, rules, vs, qs, origin, r);
    ShareSetting(s.entries, ns, rules, vs, rs, r);
    ReadyFamily(s.entries, ns, rules, vs, rs);
    ShareIgnoresOrder(rules, vs, Stored(s.entries, ns, r.rid), rs, qs, r.rid);
  }

  /** Any permutation of the incoming records, with any repetition, leaves the same entries. */
  lemma FoldIgnoresOrder(
    s: Replica, ns: Text, rules: Rules, vs: set<SyncRecord>, rs: seq<SyncRecord>, qs: seq<SyncRecord>,
                         origin: Option<string>)
    requires Ready(s.entries, ns, rules, vs, rs) && forall r :: r in rs <==> r in qs
    ensures !Fold(s, ns, rules, rs, origin).failed && !Fold(s, ns, rules, qs, origin).failed
    ensures Fold(s, ns, rules, rs, origin).state.entries == Fold(s, ns, rules, qs, origin).state.entries
  {
    assert Ready(s.entries, ns, rules, vs, qs);
    var f, g := Fold(s, ns, rules, rs, origin), Fold(s, ns, rules, qs, origin);
    hide Ready, KeyOf, Fold, Share;
    forall k: string ensures (k in f.state.entries <==> k in g.state.entries)
                     && (k in f.state.entries ==> f.state.entries[k] == g.state.entries[k])
                     && !f.failed && !g.failed {
      var any := RecordId("", "", "");
      FoldShares(s, ns, rules, vs, rs, origin, any, k);
      FoldShares(s, ns, rules, vs, qs, origin, any, k);
      if r :| r in rs && KeyOf(ns, r.rid) == k {
        SameShare(s, ns, rules, vs, rs, qs, origin, r);
      }
    }
  }

  /** Two batches in turn are their concatenation in one. */
  lemma {:induction false} FoldBatches(s: Replica, ns: Text, rules: Rules, rs: seq<SyncRecord>, qs: seq<SyncRecord>,
                                       origin: Option<string>)
    requires !Fold(s, ns, rules, rs, origin).failed
    ensures var f := Fold(s, ns, rules, rs, origin);
            var g := Fold(f.state, ns, rules, qs, origin);
            Fold(s, ns, rules, rs + qs, origin) == Folded(g.state, f.applied + g.applied, g.failed)
    decreases |rs|
  {
    hide FoldOne;
    if rs == [] {
      assert rs + qs == qs;
    } else {
      assert (rs + qs)[1..] == rs[1..] + qs && (rs + qs)[0] == rs[0];
      FoldBatches(FoldOne(s, ns, rules, rs[0], origin).state, ns, rules, rs[1..], qs, origin);
    }
  }

  lemma UpsertKeeps(s: Replica, e: Entry, origin: Option<string>)
    requires s.Valid()
    ensures s.Upsert(e, origin).Valid()
  {
  }

  lemma {:induction false} FoldKeeps(s: Replica, ns: Text, rules: Rules, rs: seq<SyncRecord>, origin: Option<string>)
    requires s.Valid()
    ensures Fold(s, ns, rules, rs, origin).state.Valid()
    decreases |rs|
  {
    if rs != [] {
      FoldOneKeeps(s, ns, rules, rs[0], origin);
      hide FoldOne;
      FoldKeeps(FoldOne(s, ns, rules, rs[0], origin).state, ns, rules, rs[1..], origin);
    }
  }

  lemma FoldOneKeeps(s: Replica, ns: Text, rules: Rules, r: SyncRecord, origin: Option<string>)
    requires s.Valid()
    ensures FoldOne(s, ns, rules, r, origin).state.Valid()
  {
    hide Get, Merged, Stamp;
    forall e: Entry ensures s.Upsert(e, origin).Valid() { UpsertKeeps(s, e, origin); }
  }

  /** A version below the stored one agrees with it. */
  lemma BelowAgrees(rules: Rules, v: SyncRecord, n: SyncRecord)
    requires Below(rules, n, v)
    ensures Agree(rules, v, n)
  {
  }

  ghost predicate Covered(s: Replica, ns: Text, rules: Rules, q: SyncRecord) {
    && KeyOf(ns, q.rid) in s.entries && Stored(s.entries, ns, q.rid).Some? && Good(rules, Normal(q))
    && var v := Stored(s.entries, ns, q.rid).value;
       Good(rules, v) && Below(rules, Normal(q), v)
  }

  lemma CoveredChangesNothing(s: Replica, ns: Text, rules: Rules, q: SyncRecord, origin: Option<string>)
    requires s.Valid() && Covered(s, ns, rules, q)
    ensures FoldOne(s, ns, rules, q, origin) == Folded(s, 0, false)
  {
    hide Merged, Agree, KeyOf, Get, Below;
    var v, n := Stored(s.entries, ns, q.rid).value, Normal(q);
    NormalFields(q);
    GetFinds(s.entries, ns, q.rid);
    BelowAgrees(rules, v, n);
    Absorbs(rules, v, n);
    MergedNormal(rules, v, q);
    StampStamped(v, Some(v));
  }

  lemma {:induction false} CoveredBatch(s: Replica, ns: Text, rules: Rules, qs: seq<SyncRecord>, origin: Option<string>)
    requires s.Valid() && forall q | q in qs :: Covered(s, ns, rules, q)
    ensures Fold(s, ns, rules, qs, origin) == Folded(s, 0, false)
    decreases |qs|
  {
    if qs != [] {
      hide Covered, FoldOne;
      CoveredChangesNothing(s, ns, rules, qs[0], origin);
      CoveredBatch(s, ns, rules, qs[1..], origin);
    }
  }

  lemma FoldCovers(s: Replica, ns: Text, rules: Rules, vs: set<SyncRecord>, rs: seq<SyncRecord>, origin: Option<string>,
                   q: SyncRecord)
    requires Ready(s.entries, ns, rules, vs, rs) && q in rs
    ensures Covered(Fold(s, ns, rules, rs, origin).state, ns, rules, q)
  {
    FoldedEntry(s, ns, rules, vs, rs, origin, q);
    ShareSetting(s.entries, ns, rules, vs, rs, q);
    assert Good(rules, Normal(q));
    ReadyFamily(s.entries, ns, rules, vs, rs);
    hide Ready, Family, KeyOf, Get, Good, Share, Fold, Below;
    ShareIsJoin(rules, vs, Stored(s.entries, ns, q.rid), rs, q.rid);
  }

  /** Replaying records already folded in reports nothing applied and changes nothing at all: entries, counter,
      apply sequence and origins stay as they were. */
  lemma FoldReplay(s: Replica, ns: Text, rules: Rules, vs: set<SyncRecord>, rs: seq<SyncRecord>, qs: seq<SyncRecord>,
                   origin: Option<string>, later: Option<string>)
    requires s.Valid() && Ready(s.entries, ns, rules, vs, rs) && forall q | q in qs :: q in rs
    ensures var after := Fold(s, ns, rules, rs, origin).state;
            Fold(after, ns, rules, qs, later) == Folded(after, 0, false)
  {
    FoldKeeps(s, ns, rules, rs, origin);
    hide Ready, Covered, Fold;
    forall q | q in qs ensures Covered(Fold(s, ns, rules, rs, origin).state, ns, rules, q) {
      FoldCovers(s, ns, rules, vs, rs, origin, q);
    }
    CoveredBatch(Fold(s, ns, rules, rs, origin).state, ns, rules, qs, later);
  }
}
