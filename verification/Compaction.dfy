/** Forgetting old deletions: which tombstones of a namespace a compaction removes. */
module Compaction {
  import opened Clocks
  import opened KeyLoops
  import opened RecordKeys
  import opened Records
  import opened SyncState
  import opened Values
  import Retention

  datatype Policy = Policy(maxAgeSecs: Option<nat>, maxTombstones: Option<nat>)

  datatype Summary = Summary(total: nat, removed: nat, retained: nat)

  /** A tombstone's key and the time it was written. */
  type Timed = Retention.Snapshot

  predicate Expired(t: nat, policy: Policy, now: nat) {
    policy.maxAgeSecs.Some? && Retention.Monus(now, t) >= policy.maxAgeSecs.value
  }

  // ----- The tombstones of a namespace

  /** Every entry of the namespace can be read and sits under its record's own key. */
  ghost predicate Canonical(m: Entries, ns: Text) {
    forall k | k in m && FromEntry(m[k], ns).Ok? && FromEntry(m[k], ns).value.Some? ::
      k == KeyOf(ns, FromEntry(m[k], ns).value.value.rid)
  }

  ghost predicate Readable(m: Entries, ns: Text) {
    forall k | k in m :: FromEntry(m[k], ns).Ok?
  }

  predicate IsGone(e: Entry, ns: Text) {
    FromEntry(e, ns).Ok? && FromEntry(e, ns).value.Some? && FromEntry(e, ns).value.value.tombstone
  }

  /** When a tombstone was written, if it says so. */
  function WrittenAt(e: Entry, ns: Text): Option<nat>
    requires IsGone(e, ns)
  {
    FromEntry(e, ns).value.value.updatedAt
  }

  ghost function Gone(m: Entries, ns: Text): set<string> {
    set k | k in m && IsGone(m[k], ns)
  }

  /** `timed` lists the dated tombstones of `m`, each once, with their times. */
  ghost predicate ListsTimed(timed: seq<Timed>, m: Entries, ns: Text) {
    && Retention.DistinctIds(timed)
    && (forall s | s in timed :: s.id in m && IsGone(m[s.id], ns) && WrittenAt(m[s.id], ns) == Some(s.createdAt))
    && (forall k | k in m && IsGone(m[k], ns) && WrittenAt(m[k], ns).Some? ::
          Retention.Snapshot(k, WrittenAt(m[k], ns).value) in timed)
  }

  // ----- Which ones go

  ghost function ExpiredIds(timed: seq<Timed>, policy: Policy, now: nat): set<string> {
    set s | s in timed && Expired(s.createdAt, policy, now) :: s.id
  }

  /** How many must go: the expired ones, or as many as exceed the limit, whichever is more. */
  ghost function Quota(timed: seq<Timed>, policy: Policy, now: nat): nat {
    Max(|ExpiredIds(timed, policy, now)|,
        if policy.maxTombstones.Some? then Retention.Monus(|timed|, policy.maxTombstones.value) else 0)
  }

  /** The tombstones still to be counted against the limit. */
  function Candidates(timed: seq<Timed>, gone: set<string>): (c: seq<Timed>)
    ensures forall s :: s in c <==> s in timed && s.id !in gone
  {
    if timed == [] then []
    else (if timed[0].id in gone then [] else [timed[0]]) + Candidates(timed[1..], gone)
  }

  lemma DistinctTail(ss: seq<Timed>)
    requires ss != [] && Retention.DistinctIds(ss)
    ensures Retention.DistinctIds(ss[1..]) && forall t | t in ss[1..] :: t.id != ss[0].id
  {
    forall i, j | 0 <= i < j < |ss[1..]| ensures ss[1..][i].id != ss[1..][j].id {
      assert ss[1..][i] == ss[i + 1] && ss[1..][j] == ss[j + 1];
    }
    forall t | t in ss[1..] ensures t.id != ss[0].id {
      var j :| 0 <= j < |ss[1..]| && ss[1..][j] == t;
      assert ss[j + 1] == t;
    }
  }

  lemma DistinctCons(s: Timed, ss: seq<Timed>)
    requires Retention.DistinctIds(ss) && forall t | t in ss :: t.id != s.id
    ensures Retention.DistinctIds([s] + ss)
  {
    forall i, j | 0 <= i < j < |[s] + ss| ensures ([s] + ss)[i].id != ([s] + ss)[j].id {
      assert ([s] + ss)[j] == ss[j - 1] && ss[j - 1] in ss;
      if i > 0 { assert ([s] + ss)[i] == ss[i - 1]; }
    }
  }

  lemma {:induction false} CandidatesDistinct(timed: seq<Timed>, gone: set<string>)
    requires Retention.DistinctIds(timed)
    ensures Retention.DistinctIds(Candidates(timed, gone))
  {
    if timed != [] {
      DistinctTail(timed);
      CandidatesDistinct(timed[1..], gone);
      var c := Candidates(timed[1..], gone);
      DistinctCons(timed[0], c);
      hide Retention.DistinctIds;
      assert [] + c == c;
    }
  }

  lemma IdsCons(ss: seq<Timed>)
    requires ss != []
    ensures Retention.Ids(ss) == {ss[0].id} + Retention.Ids(ss[1..])
  {
    assert ss == [ss[0]] + ss[1..];
  }

  lemma MeetStep(id: string, others: set<string>, gone: set<string>)
    requires id !in others
    ensures |({id} + others) * gone| == |others * gone| + if id in gone then 1 else 0
  {
    assert ({id} + others) * gone == if id in gone then others * gone + {id} else others * gone;
  }

  lemma {:induction false} CandidatesCount(timed: seq<Timed>, gone: set<string>)
    requires Retention.DistinctIds(timed)
    ensures |Candidates(timed, gone)| + |Retention.Ids(timed) * gone| == |timed|
  {
    if timed == [] {
      assert Retention.Ids(timed) * gone == {};
    } else {
      DistinctTail(timed);
      IdsCons(timed);
      CandidatesCount(timed[1..], gone);
      MeetStep(timed[0].id, Retention.Ids(timed[1..]), gone);
      hide Retention.Ids, Retention.DistinctIds;
      assert |Candidates(timed, gone)| == |Candidates(timed[1..], gone)| + if timed[0].id in gone then 0 else 1;
    }
  }

  /** The expired ones together with the oldest of the others are the oldest of all. */
  lemma TogetherOldest(timed: seq<Timed>, policy: Policy, now: nat, more: set<string>, n: nat)
    requires Retention.DistinctIds(timed)
    requires Retention.DeletesOldest(Candidates(timed, ExpiredIds(timed, policy, now)), more, n)
    ensures Retention.DeletesOldest(timed, ExpiredIds(timed, policy, now) + more, |ExpiredIds(timed, policy, now)| + n)
  {
    var e := ExpiredIds(timed, policy, now);
    var c := Candidates(timed, e);
    forall id | id in more ensures id !in e && id in Retention.Ids(timed) {
      var s :| s in c && s.id == id;
    }
    assert e !! more;
    assert |e + more| == |e| + |more|;
    forall s, t | s in timed && t in timed && s.id in e + more && t.id !in e + more ensures s.createdAt <= t.createdAt {
      assert !Expired(t.createdAt, policy, now);
      if s.id in e {
        var u :| u in timed && Expired(u.createdAt, policy, now) && u.id == s.id;
        SameId(timed, s, u);
      } else {
        assert s in c && t in c;
      }
    }
  }

  lemma SameId(timed: seq<Timed>, s: Timed, t: Timed)
    requires Retention.DistinctIds(timed) && s in timed && t in timed && s.id == t.id
    ensures s == t
  {
    var i :| 0 <= i < |timed| && timed[i] == s;
    var j :| 0 <= j < |timed| && timed[j] == t;
  }

  /** The keys picked: the expired ones, and if the rest exceeds the limit the oldest of it, the earlier of equals
      first. */
  ghost predicate Chooses(timed: seq<Timed>, policy: Policy, now: nat, chosen: set<string>) {
    var expired := ExpiredIds(timed, policy, now);
    var c := Candidates(timed, expired);
    if policy.maxTombstones.Some? && |c| > policy.maxTombstones.value
    then expired <= chosen && PicksFirst(c, |c| - policy.maxTombstones.value, chosen - expired)
    else chosen == expired
  }

  ghost predicate PicksFirst(c: seq<Timed>, n: nat, more: set<string>) {
    exists sorted :: PicksOldest(c, sorted, n, more)
  }

  ghost predicate PicksOldest(c: seq<Timed>, sorted: seq<Timed>, n: nat, more: set<string>) {
    Retention.Stable(c, sorted) && n <= |sorted| && more == Retention.Ids(sorted[..n])
  }

  method Choose(timed: seq<Timed>, policy: Policy, now: nat) returns (chosen: set<string>)
    ensures Chooses(timed, policy, now, chosen)
  {
    chosen := PickExpired(timed, policy, now);
    var candidates := Candidates(timed, chosen);
    if policy.maxTombstones.Some? && |candidates| > policy.maxTombstones.value {
      ghost var expired := chosen;
      var sorted := Retention.SortByCreation(candidates);
      var overflow := |candidates| - policy.maxTombstones.value;
      var more := Retention.Ids(sorted[..overflow]);
      NoneTwice(candidates, sorted, timed, expired, overflow);
      chosen := chosen + more;
      assert PicksOldest(candidates, sorted, overflow, chosen - expired) by {
        assert chosen - expired == more;
      }
    }
  }

  lemma NoneTwice(c: seq<Timed>, sorted: seq<Timed>, timed: seq<Timed>, expired: set<string>, n: nat)
    requires c == Candidates(timed, expired) && Retention.Stable(c, sorted) && n <= |sorted|
    ensures Retention.Ids(sorted[..n]) !! expired && Retention.Ids(sorted[..n]) <= Retention.Ids(timed)
  {
    Retention.StableMembers(c, sorted);
    hide Retention.Stable;
    forall id | id in Retention.Ids(sorted[..n]) ensures id !in expired && id in Retention.Ids(timed) {
      var s :| s in sorted[..n] && s.id == id;
      assert s in c;
    }
  }

  /** Of tombstones under different keys, exactly the oldest up to the quota are picked. */
  lemma ChoosesOldest(timed: seq<Timed>, policy: Policy, now: nat, chosen: set<string>)
    requires Retention.DistinctIds(timed) && Chooses(timed, policy, now, chosen)
    ensures Retention.DeletesOldest(timed, chosen, Quota(timed, policy, now))
  {
    hide Retention.DistinctIds, Retention.DeletesOldest, PicksFirst, ExpiredIds, Candidates;
    var expired := ExpiredIds(timed, policy, now);
    var c := Candidates(timed, expired);
    var n := if policy.maxTombstones.Some? then Retention.Monus(|c|, policy.maxTombstones.value) else 0;
    CandidatesDistinct(timed, expired);
    if n > 0 {
      FirstAreOldest(c, n, chosen - expired);
    }
    assert expired + (chosen - expired) == chosen;
    QuotaMet(timed, policy, now, chosen - expired, n);
  }

  lemma FirstAreOldest(c: seq<Timed>, n: nat, more: set<string>)
    requires Retention.DistinctIds(c) && PicksFirst(c, n, more)
    ensures Retention.DeletesOldest(c, more, n)
  {
    hide Retention.DistinctIds, Retention.Stable, Retention.Arranged, Retention.DeletesOldest;
    var sorted :| PicksOldest(c, sorted, n, more);
    StableArranged(c, sorted);
    Retention.PrefixIsOldest(c, sorted, n);
  }

  lemma StableArranged(c: seq<Timed>, sorted: seq<Timed>)
    requires Retention.Stable(c, sorted) && Retention.DistinctIds(c)
    ensures Retention.Arranged(c, sorted)
  {
    Retention.StableMembers(c, sorted);
    Retention.IdsSize(c);
    assert Retention.Ids(sorted) == Retention.Ids(c);
    FullIdsDistinct(sorted);
  }

  lemma {:induction false} FullIdsDistinct(ss: seq<Timed>)
    requires |Retention.Ids(ss)| == |ss|
    ensures Retention.DistinctIds(ss)
  {
    if ss != [] {
      IdsCons(ss);
      IdsAtMost(ss[1..]);
      FullIdsDistinct(ss[1..]);
      assert ss == [ss[0]] + ss[1..];
      assert ss[0].id !in Retention.Ids(ss[1..]);
      DistinctCons(ss[0], ss[1..]);
    }
  }

  lemma {:induction false} IdsAtMost(ss: seq<Timed>)
    ensures |Retention.Ids(ss)| <= |ss|
  {
    if ss == [] {
      assert Retention.Ids(ss) == {};
    } else {
      IdsCons(ss);
      IdsAtMost(ss[1..]);
    }
  }

  /** Nothing is picked that was not listed. */
  lemma ChoosesListed(timed: seq<Timed>, policy: Policy, now: nat, chosen: set<string>)
    requires Chooses(timed, policy, now, chosen)
    ensures chosen <= Retention.Ids(timed)
  {
    var expired := ExpiredIds(timed, policy, now);
    var c := Candidates(timed, expired);
    if policy.maxTombstones.Some? && |c| > policy.maxTombstones.value {
      var n := |c| - policy.maxTombstones.value;
      assert PicksFirst(c, n, chosen - expired);
      var sorted :| PicksOldest(c, sorted, n, chosen - expired);
      NoneTwice(c, sorted, timed, expired, n);
    }
  }

  lemma PicksAll(c: seq<Timed>, more: set<string>)
    requires PicksFirst(c, |c|, more)
    ensures more == Retention.Ids(c)
  {
    var sorted :| PicksOldest(c, sorted, |c|, more);
    Retention.StableMembers(c, sorted);
    hide Retention.Stable;
    assert sorted[..|c|] == sorted;
  }

  /** A limit of zero picks everything that was listed. */
  lemma NoneKeptPicksAll(timed: seq<Timed>, age: Option<nat>, now: nat, chosen: set<string>)
    requires Chooses(timed, Policy(age, Some(0)), now, chosen)
    ensures chosen == Retention.Ids(timed)
  {
    ChoosesListed(timed, Policy(age, Some(0)), now, chosen);
    var expired := ExpiredIds(timed, Policy(age, Some(0)), now);
    var c := Candidates(timed, expired);
    if c != [] {
      PicksAll(c, chosen - expired);
    }
    hide PicksFirst;
    forall id | id in Retention.Ids(timed) ensures id in chosen {
      var s :| s in timed && s.id == id;
      if id !in expired {
        assert s in c && id in Retention.Ids(c);
      }
    }
  }

  /** So does an age of zero. */
  lemma NoAgePicksAll(timed: seq<Timed>, now: nat)
    ensures Chooses(timed, Policy(Some(0), None), now, Retention.Ids(timed))
  {
  }

  lemma QuotaMet(timed: seq<Timed>, policy: Policy, now: nat, more: set<string>, n: nat)
    requires Retention.DistinctIds(timed)
    requires var c := Candidates(timed, ExpiredIds(timed, policy, now));
             && n == (if policy.maxTombstones.Some? then Retention.Monus(|c|, policy.maxTombstones.value) else 0)
             && if n == 0 then more == {} else Retention.DeletesOldest(c, more, n)
    ensures Retention.DeletesOldest(timed, ExpiredIds(timed, policy, now) + more, Quota(timed, policy, now))
  {
    var e := ExpiredIds(timed, policy, now);
    CandidatesDistinct(timed, e);
    CandidatesCount(timed, e);
    assert Retention.Ids(timed) * e == e;
    if n == 0 { NoneIsOldest(Candidates(timed, e)); }
    TogetherOldest(timed, policy, now, more, n);
  }

  lemma NoneIsOldest(c: seq<Timed>)
    ensures Retention.DeletesOldest(c, {}, 0)
  {
  }

  method PickExpired(timed: seq<Timed>, policy: Policy, now: nat) returns (picked: set<string>)
    ensures picked == ExpiredIds(timed, policy, now)
  {
    picked := {};
    for i := 0 to |timed|
      invariant picked == ExpiredIds(timed[..i], policy, now)
    {
      assert timed[..i + 1] == timed[..i] + [timed[i]];
      if Expired(timed[i].createdAt, policy, now) {
        picked := picked + {timed[i].id};
      }
    }
    assert timed[..|timed|] == timed;
  }

  // ----- Reading the tombstones off a listing

  function GoneCount(es: seq<Entry>, ns: Text): nat {
    if es == [] then 0 else (if IsGone(es[0], ns) then 1 else 0) + GoneCount(es[1..], ns)
  }

  /** The tombstones with a time, under the key made from the record they hold. */
  function Dated(es: seq<Entry>, ns: Text): seq<Timed> {
    if es == [] then [] else DatedOne(es[0], ns) + Dated(es[1..], ns)
  }

  function DatedOne(e: Entry, ns: Text): seq<Timed> {
    if IsGone(e, ns) && WrittenAt(e, ns).Some?
    then [Retention.Snapshot(KeyOf(ns, FromEntry(e, ns).value.value.rid), WrittenAt(e, ns).value)] else []
  }

  lemma {:induction false} DatedAppend(es: seq<Entry>, e: Entry, ns: Text)
    ensures Dated(es + [e], ns) == Dated(es, ns) + DatedOne(e, ns)
    ensures GoneCount(es + [e], ns) == GoneCount(es, ns) + if IsGone(e, ns) then 1 else 0
  {
    hide IsGone, DatedOne;
    if es == [] {
      assert [e][1..] == [] && [] + DatedOne(e, ns) == DatedOne(e, ns) == DatedOne(e, ns) + [];
      assert [] + [e] == [e];
    } else {
      assert (es + [e])[0] == es[0] && (es + [e])[1..] == es[1..] + [e];
      DatedAppend(es[1..], e, ns);
    }
  }

  /** In a canonical state the listing yields every dated tombstone once, under the key it is stored at. */
  lemma {:induction false} DatedListed(es: seq<Entry>, m: Entries, ns: Text)
    requires Lists(es, m) && Keyed(m) && Canonical(m, ns)
    ensures ListsTimed(Dated(es, ns), m, ns) && GoneCount(es, ns) == |Gone(m, ns)|
    decreases |es|
  {
    hide FromEntry, KeyOf, IsGone, ListsTimed, Gone;
    if es == [] {
      NothingListed(es, m, ns);
    } else {
      var e, rest := es[0], m - {es[0].key};
      ListsTail(es, m);
      CanonicalRest(m, ns, e.key);
      DatedListed(es[1..], rest, ns);
      GoneStep(m, e, ns);
      hide Canonical, Lists, Keyed, DatedOne;
      DatedStep(e, es[1..], m, ns);
    }
  }

  lemma NothingListed(es: seq<Entry>, m: Entries, ns: Text)
    requires es == [] && Lists(es, m)
    ensures ListsTimed([], m, ns) && Gone(m, ns) == {}
  {
  }

  lemma CanonicalRest(m: Entries, ns: Text, k: string)
    requires Canonical(m, ns) && Keyed(m)
    ensures Canonical(m - {k}, ns) && Keyed(m - {k})
  {
    hide FromEntry, KeyOf;
  }

  lemma GoneStep(m: Entries, e: Entry, ns: Text)
    requires e.key in m && m[e.key] == e
    ensures |Gone(m, ns)| == |Gone(m - {e.key}, ns)| + if IsGone(e, ns) then 1 else 0
  {
    hide IsGone;
    var rest := m - {e.key};
    assert Gone(m, ns) == if IsGone(e, ns) then Gone(rest, ns) + {e.key} else Gone(rest, ns);
  }

  lemma DatedStep(e: Entry, others: seq<Entry>, m: Entries, ns: Text)
    requires e.key in m && m[e.key] == e && Canonical(m, ns) && ListsTimed(Dated(others, ns), m - {e.key}, ns)
    ensures ListsTimed(DatedOne(e, ns) + Dated(others, ns), m, ns)
  {
    hide FromEntry, KeyOf, Dated;
    var one, more, rest := DatedOne(e, ns), Dated(others, ns), m - {e.key};
    assert one != [] ==> one[0].id == e.key;
    forall i, j | 0 <= i < j < |one + more| ensures (one + more)[i].id != (one + more)[j].id {
      if i < |one| {
        assert (one + more)[j] == more[j - |one|] && more[j - |one|] in more;
      } else {
        assert (one + more)[i] == more[i - |one|] && (one + more)[j] == more[j - |one|];
      }
    }
    forall s | s in one + more ensures s.id in m && IsGone(m[s.id], ns) && WrittenAt(m[s.id], ns) == Some(s.createdAt) {
      if s !in one { assert s in more && rest[s.id] == m[s.id]; }
    }
    forall k | k in m && IsGone(m[k], ns) && WrittenAt(m[k], ns).Some?
      ensures Retention.Snapshot(k, WrittenAt(m[k], ns).value) in one + more {
      if k != e.key {
        assert rest[k] == m[k];
      } else {
        assert one[0] == Retention.Snapshot(k, WrittenAt(m[k], ns).value);
      }
    }
  }

  ghost predicate AllRead(es: seq<Entry>, ns: Text) {
    forall e | e in es :: FromEntry(e, ns).Ok?
  }

  lemma ReadableListing(listed: seq<Entry>, m: Entries, ns: Text)
    requires Lists(listed, m) && Keyed(m)
    ensures Readable(m, ns) <==> AllRead(listed, ns)
  {
    hide FromEntry;
  }

  lemma ChosenAreThere(timed: seq<Timed>, m: Entries, ns: Text, chosen: set<string>, n: nat)
    requires ListsTimed(timed, m, ns) && Retention.DeletesOldest(timed, chosen, n)
    ensures chosen <= m.Keys && m.Keys - (m - chosen).Keys == chosen
  {
    hide FromEntry;
    forall id | id in chosen ensures id in m {
      var s :| s in timed && s.id == id;
    }
  }

  // ----- The compaction

  ghost predicate Counting(es: seq<Entry>, ns: Text, total: nat, timed: seq<Timed>) {
    AllRead(es, ns) && total == GoneCount(es, ns) && timed == Dated(es, ns)
  }

  method CollectTombstones(ns: Text, listed: seq<Entry>) returns (ok: bool, total: nat, timed: seq<Timed>)
    ensures if ok then Counting(listed, ns, total, timed) else !AllRead(listed, ns)
  {
    ok, total, timed := true, 0, [];
    assert Counting([], ns, 0, []);
    hide Counting, AllRead;
    assert listed[..0] == [];
    for i := 0 to |listed|
      invariant Counting(listed[..i], ns, total, timed)
    {
      ok, total, timed := CountOne(listed, i, ns, total, timed);
      if !ok {
        return;
      }
    }
    ok := true;
    assert listed[..|listed|] == listed;
  }

  method CountOne(listed: seq<Entry>, i: nat, ns: Text, total: nat, timed: seq<Timed>)
    returns (ok: bool, total': nat, timed': seq<Timed>)
    requires i < |listed| && Counting(listed[..i], ns, total, timed)
    ensures if ok then Counting(listed[..i + 1], ns, total', timed') else !AllRead(listed, ns)
  {
    ok, total', timed' := true, total, timed;
    hide FromEntry, KeyOf;
    var r := FromEntry(listed[i], ns);
    if r.Err? {
      assert listed[i] in listed;
      return false, total, timed;
    }
    CountingStep(listed, i, ns, total, timed);
    hide Counting, IsGone, DatedOne;
    total', timed' := CountTombstone(listed[i], ns, r.value, total, timed);
  }

  lemma CountingStep(listed: seq<Entry>, i: nat, ns: Text, total: nat, timed: seq<Timed>)
    requires i < |listed| && Counting(listed[..i], ns, total, timed) && FromEntry(listed[i], ns).Ok?
    ensures Counting(listed[..i + 1], ns, total + (if IsGone(listed[i], ns) then 1 else 0),
                     timed + DatedOne(listed[i], ns))
  {
    hide FromEntry, KeyOf, GoneCount, Dated, IsGone, DatedOne;
    assert listed[..i + 1] == listed[..i] + [listed[i]];
    DatedAppend(listed[..i], listed[i], ns);
  }

  method CountTombstone(e: Entry, ns: Text, r: Option<SyncRecord>, total: nat, timed: seq<Timed>)
    returns (total': nat, timed': seq<Timed>)
    requires FromEntry(e, ns) == Ok(r)
    ensures total' == total + (if IsGone(e, ns) then 1 else 0) && timed' == timed + DatedOne(e, ns)
  {
    hide FromEntry, KeyOf;
    total', timed' := total, timed;
    if r.Some? && r.value.tombstone {
      total' := total + 1;
      if r.value.updatedAt.Some? {
        timed' := timed + [Retention.Snapshot(KeyOf(ns, r.value.rid), r.value.updatedAt.value)];
      }
    }
  }

  lemma RemoveStep(start: Entries, done: set<string>, k: string)
    requires k !in done
    ensures start - done - {k} == start - (done + {k})
    ensures |start.Keys * (done + {k})| == |start.Keys * done| + if k in start then 1 else 0
  {
    assert start.Keys * (done + {k}) == if k in start then start.Keys * done + {k} else start.Keys * done;
  }

  ghost predicate Cleared(r: Replica, start: Entries, done: set<string>, removed: nat) {
    r.Valid() && r.entries == start - done && removed == |start.Keys * done|
  }

  lemma ClearedStart(r: Replica)
    requires r.Valid()
    ensures Cleared(r, r.entries, {}, 0)
  {
    hide Replica.Valid;
    assert r.entries - {} == r.entries && r.entries.Keys * {} == {};
  }

  method RemoveOne(state: State, k: string, removed: nat, ghost start: Entries, ghost done: set<string>)
    returns (removed': nat)
    requires Cleared(state.Value(), start, done, removed) && k !in done
    modifies state
    ensures Cleared(state.Value(), start, done + {k}, removed')
  {
    RemoveStep(start, done, k);
    var was := state.Remove(k);
    removed' := if was.Some? then removed + 1 else removed;
  }

  lemma DoneStep(keys: set<string>, todo: set<string>, k: string)
    requires todo <= keys && k in todo
    ensures keys - (todo - {k}) == (keys - todo) + {k} && todo - {k} <= keys
  {
  }

  /** Removes the keys in order, counting those that were there. */
  method RemoveAll(state: State, keys: set<string>) returns (removed: nat)
    requires state.Value().Valid()
    modifies state
    ensures Cleared(state.Value(), old(state.entries), keys, removed)
  {
    removed := 0;
    var todo := keys;
    ClearedStart(state.Value());
    assert keys - todo == {};
    hide IsLeast, Replica.Valid, Cleared;
    while todo != {}
      invariant todo <= keys && Cleared(state.Value(), old(state.entries), keys - todo, removed)
      decreases |todo|
    {
      var k := FirstKey(todo);
      DoneStep(keys, todo, k);
      removed := RemoveOne(state, k, removed, old(state.entries), keys - todo);
      todo := todo - {k};
    }
    assert keys - todo == keys;
  }

  lemma {:induction false} GoneListed(es: seq<Entry>, m: Entries, ns: Text)
    requires Lists(es, m) && Keyed(m)
    ensures GoneCount(es, ns) == |Gone(m, ns)|
    decreases |es|
  {
    hide FromEntry, KeyOf, IsGone, Gone;
    if es == [] {
      NothingListed(es, m, ns);
    } else {
      ListsTail(es, m);
      GoneListed(es[1..], m - {es[0].key}, ns);
      GoneStep(m, es[0], ns);
    }
  }

  /** What a compaction of a readable state does, whatever the keys: it picks from the listing in key order under the
      keys made from the records, and removes what is stored under them. */
  ghost predicate Compacts(
    before: Entries, after: Entries, ns: Text, policy: Policy, now: nat, listed: seq<Entry>, chosen: set<string>,
    r: Summary)
  {
    && Readable(before, ns) && Lists(listed, before) && Ordered(listed)
    && Chooses(Dated(listed, ns), policy, now, chosen) && after == before - chosen
    && var removed := |before.Keys * chosen|;
       r == Summary(|Gone(before, ns)|, removed, Retention.Monus(|Gone(before, ns)|, removed))
  }

  /** State, policy and time leave no choice of what goes, ties between equally old tombstones included. */
  lemma CompactionDetermined(
    m: Entries, ns: Text, policy: Policy, now: nat,
    after: Entries, listed: seq<Entry>, chosen: set<string>, r: Summary,
    after': Entries, listed': seq<Entry>, chosen': set<string>, r': Summary)
    requires Keyed(m)
    requires Compacts(m, after, ns, policy, now, listed, chosen, r)
    requires Compacts(m, after', ns, policy, now, listed', chosen', r')
    ensures after == after' && chosen == chosen' && r == r'
  {
    hide FromEntry, Readable, Lists, Ordered, Chooses, Gone, Keyed, Dated;
    OneListing(m, listed, listed');
    ChoosesOnce(Dated(listed, ns), policy, now, chosen, chosen');
  }

  lemma ChoosesOnce(timed: seq<Timed>, policy: Policy, now: nat, chosen: set<string>, chosen': set<string>)
    requires Chooses(timed, policy, now, chosen) && Chooses(timed, policy, now, chosen')
    ensures chosen == chosen'
  {
    var expired := ExpiredIds(timed, policy, now);
    var c := Candidates(timed, expired);
    if policy.maxTombstones.Some? && |c| > policy.maxTombstones.value {
      var n := |c| - policy.maxTombstones.value;
      hide Candidates, ExpiredIds, Retention.Stable;
      assert PicksFirst(c, n, chosen - expired) && PicksFirst(c, n, chosen' - expired);
      var sorted :| PicksOldest(c, sorted, n, chosen - expired);
      var sorted' :| PicksOldest(c, sorted', n, chosen' - expired);
      Retention.StableUnique(c, sorted, sorted');
      assert chosen == expired + (chosen - expired) && chosen' == expired + (chosen' - expired);
    }
  }

  lemma {:induction false} OneListing(m: Entries, es: seq<Entry>, fs: seq<Entry>)
    requires Keyed(m) && Lists(es, m) && Ordered(es) && Lists(fs, m) && Ordered(fs)
    ensures es == fs
    decreases |es|
  {
    if es == [] || fs == [] {
      ListsNothing(m, es);
      ListsNothing(m, fs);
    } else {
      SameFirst(m, es, fs);
      ListsTail(es, m);
      ListsTail(fs, m);
      OrderedTail(es);
      OrderedTail(fs);
      OneListing(m - {es[0].key}, es[1..], fs[1..]);
      hide Lists, Ordered, Keyed;
      assert es == [es[0]] + es[1..] && fs == [fs[0]] + fs[1..];
    }
  }

  lemma ListsNothing(m: Entries, es: seq<Entry>)
    requires Lists(es, m)
    ensures es == [] <==> m == map[]
  {
    if k :| k in m {
      assert m[k] in es;
    }
    if |es| > 0 {
      assert es[0] in es;
    }
  }

  lemma OrderedTail(es: seq<Entry>)
    requires es != [] && Ordered(es)
    ensures Ordered(es[1..])
  {
  }

  lemma SameFirst(m: Entries, es: seq<Entry>, fs: seq<Entry>)
    requires Keyed(m) && Lists(es, m) && Ordered(es) && Lists(fs, m) && Ordered(fs) && es != [] && fs != []
    ensures es[0] == fs[0]
  {
    assert es[0] in es && fs[0] in fs;
    assert m[fs[0].key] in es && m[es[0].key] in fs;
    LeastFirst(es, fs[0]);
    LeastFirst(fs, es[0]);
    LexAntisym(es[0].key, fs[0].key);
  }

  lemma LeastFirst(es: seq<Entry>, e: Entry)
    requires Ordered(es) && e in es
    ensures LexLe(es[0].key, e.key)
  {
    LexRefl(e.key);
  }

  /** With every record under its own key it removed exactly the oldest tombstones up to the quota, left everything
      else as it was, and reports the numbers. */
  ghost predicate Compacted(
    before: Entries, after: Entries, ns: Text, policy: Policy, now: nat, timed: seq<Timed>, r: Summary)
  {
    var removed := before.Keys - after.Keys;
    && ListsTimed(timed, before, ns) && Retention.DeletesOldest(timed, removed, Quota(timed, policy, now))
    && after == before - removed
    && r == Summary(|Gone(before, ns)|, |removed|, Retention.Monus(|Gone(before, ns)|, |removed|))
  }

  lemma CanonicalCompacted(
    before: Entries, after: Entries, ns: Text, policy: Policy, now: nat, listed: seq<Entry>, chosen: set<string>,
    r: Summary)
    requires Keyed(before) && Canonical(before, ns) && Compacts(before, after, ns, policy, now, listed, chosen, r)
    ensures Compacted(before, after, ns, policy, now, Dated(listed, ns), r)
  {
    var timed := Dated(listed, ns);
    hide FromEntry, KeyOf, ListsTimed, Retention.DeletesOldest, Retention.DistinctIds, Quota, Gone, Canonical, Lists,
         Keyed,
         Dated, GoneCount, Chooses;
    DatedListed(listed, before, ns);
    TimedDistinct(timed, before, ns);
    ChoosesOldest(timed, policy, now, chosen);
    ChosenAreThere(timed, before, ns, chosen, Quota(timed, policy, now));
    assert before.Keys * chosen == chosen;
  }

  lemma TimedDistinct(timed: seq<Timed>, m: Entries, ns: Text)
    requires ListsTimed(timed, m, ns)
    ensures Retention.DistinctIds(timed)
  {
  }

  /** `compact`. An unreadable entry stops it before anything is removed. */
  method Compact(records: RecordState, policy: Policy, now: nat)
    returns (r: Result<Summary>, ghost listed: seq<Entry>, ghost chosen: set<string>)
    requires records.state.Value().Valid()
    modifies records.state
    ensures records.state.Value().Valid()
    ensures r.Ok? <==> Readable(old(records.state.entries), records.ns)
    ensures r.Err? ==> records.state.entries == old(records.state.entries)
    ensures r.Ok? ==>
              Compacts(old(records.state.entries), records.state.entries, records.ns, policy, now, listed, chosen,
                r.value)
  {
    var all := records.state.Snapshot();
    listed, chosen := all, {};
    ghost var m, ns := records.state.entries, records.ns;
    ReadableListing(all, m, ns);
    var ok, total, found := CollectTombstones(records.ns, all);
    hide FromEntry, KeyOf, Readable, Ordered;
    if !ok {
      return Err, listed, chosen;
    }
    var picked := Choose(found, policy, now);
    chosen := picked;
    GoneListed(all, m, ns);
    hide Replica.Valid, Keyed, Chooses, Lists, Gone, GoneCount, Dated;
    var removed := RemoveAll(records.state, picked);
    return Ok(Summary(total, removed, Retention.Monus(total, removed))), listed, chosen;
  }

  // ----- What it guarantees

  lemma ExpiredGo(timed: seq<Timed>, removed: set<string>, policy: Policy, now: nat)
    requires Retention.DistinctIds(timed) && Retention.DeletesOldest(timed, removed, Quota(timed, policy, now))
    ensures ExpiredIds(timed, policy, now) <= removed
  {
    var expired := ExpiredIds(timed, policy, now);
    if !(expired <= removed) {
      var t :| t in timed && Expired(t.createdAt, policy, now) && t.id !in removed;
      assert removed <= expired - {t.id};
      SubsetSize(removed, expired - {t.id});
      assert false;
    }
  }

  /** Live records and undated tombstones are never touched; every expired tombstone goes; what stays respects the
      limit. */
  lemma CompactionSpares(
    before: Entries, after: Entries, ns: Text, policy: Policy, now: nat, timed: seq<Timed>, r: Summary)
    requires Compacted(before, after, ns, policy, now, timed, r)
    ensures forall k | k in before && (!IsGone(before[k], ns) || WrittenAt(before[k], ns).None?) ::
              k in after && after[k] == before[k]
    ensures policy.maxTombstones.Some? ==> |timed| - r.removed <= policy.maxTombstones.value
    ensures forall k | k in before && IsGone(before[k], ns) && WrittenAt(before[k], ns).Some?
                       && Expired(WrittenAt(before[k], ns).value, policy, now) :: k !in after
  {
    hide FromEntry;
    var removed := before.Keys - after.Keys;
    ExpiredGo(timed, removed, policy, now);
    forall k | k in before && k in removed ensures IsGone(before[k], ns) && WrittenAt(before[k], ns).Some? {
      var s :| s in timed && s.id == k;
    }
    forall k | k in before && IsGone(before[k], ns) && WrittenAt(before[k], ns).Some?
               && Expired(WrittenAt(before[k], ns).value, policy, now) ensures k !in after {
      var s := Retention.Snapshot(k, WrittenAt(before[k], ns).value);
      assert s in timed && s.id in ExpiredIds(timed, policy, now);
    }
  }

  // ----- Exactly when it is harmless

  predicate IsDated(e: Entry, ns: Text) {
    IsGone(e, ns) && WrittenAt(e, ns).Some?
  }

  /** The key a compaction takes an entry for. */
  function OwnKey(e: Entry, ns: Text): string
    requires IsGone(e, ns)
  {
    KeyOf(ns, FromEntry(e, ns).value.value.rid)
  }

  ghost function OwnKeys(m: Entries, ns: Text): set<string> {
    set k | k in m && IsDated(m[k], ns) :: OwnKey(m[k], ns)
  }

  lemma OwnKeysStep(m: Entries, e: Entry, ns: Text)
    requires e.key in m && m[e.key] == e
    ensures OwnKeys(m, ns) == OwnKeys(m - {e.key}, ns) + if IsDated(e, ns) then {OwnKey(e, ns)} else {}
  {
    hide IsDated, IsGone, OwnKey;
    var rest := m - {e.key};
    assert forall k | k in m && k != e.key :: k in rest && rest[k] == m[k];
  }

  /** However the state is listed, the keys listed are those the dated tombstones are taken for. */
  lemma {:induction false} DatedIds(es: seq<Entry>, m: Entries, ns: Text)
    requires Lists(es, m) && Keyed(m)
    ensures Retention.Ids(Dated(es, ns)) == OwnKeys(m, ns)
    decreases |es|
  {
    hide FromEntry, KeyOf;
    if es == [] {
      assert OwnKeys(m, ns) == {};
    } else {
      var e, rest := es[0], es[1..];
      ListsTail(es, m);
      DatedIds(rest, m - {e.key}, ns);
      OwnKeysStep(m, e, ns);
      assert Retention.Ids(DatedOne(e, ns)) == if IsDated(e, ns) then {OwnKey(e, ns)} else {};
      hide DatedOne, IsDated, OwnKeys, Lists, Keyed;
      assert Retention.Ids(DatedOne(e, ns) + Dated(rest, ns)) ==
        Retention.Ids(DatedOne(e, ns)) + Retention.Ids(Dated(rest, ns));
    }
  }

  /** Whatever is stored under the key a dated tombstone is taken for is a dated tombstone too. */
  ghost predicate Harmless(m: Entries, ns: Text) {
    forall k | k in m && IsDated(m[k], ns) && OwnKey(m[k], ns) in m :: IsDated(m[OwnKey(m[k], ns)], ns)
  }

  /** No compaction, whatever its policy and time, removes a live record or an undated tombstone. */
  ghost predicate NeverHarms(m: Entries, ns: Text) {
    forall after, policy, now, listed, chosen, r, k |
      Compacts(m, after, ns, policy, now, listed, chosen, r) && k in m && k !in after :: IsDated(m[k], ns)
  }

  /** A state that cannot be read is never compacted; of those that can be, exactly the harmless ones lose nothing. */
  lemma HarmlessIff(m: Entries, ns: Text)
    requires Keyed(m)
    ensures NeverHarms(m, ns) <==> (Readable(m, ns) ==> Harmless(m, ns))
  {
    hide FromEntry, KeyOf, IsGone, Chooses, Gone, Lists, Ordered, Keyed, Dated, Readable;
    forall after, policy, now, listed, chosen, r, k |
      (Readable(m, ns) ==> Harmless(m, ns)) && Compacts(m, after, ns, policy, now, listed, chosen, r) && k in m
        && k !in after
      ensures IsDated(m[k], ns)
    {
      ChoosesListed(Dated(listed, ns), policy, now, chosen);
      DatedIds(listed, m, ns);
      assert k in OwnKeys(m, ns);
    }
    forall k | NeverHarms(m, ns) && Readable(m, ns) && k in m && IsDated(m[k], ns) && OwnKey(m[k], ns) in m
      ensures IsDated(m[OwnKey(m[k], ns)], ns)
    {
      var after, listed, r := WorstCompaction(m, ns);
      assert OwnKey(m[k], ns) in OwnKeys(m, ns);
    }
  }

  /** A compaction by an age of zero removes whatever any dated tombstone is taken for. */
  lemma WorstCompaction(m: Entries, ns: Text) returns (after: Entries, listed: seq<Entry>, r: Summary)
    requires Keyed(m) && Readable(m, ns)
    ensures Compacts(m, after, ns, Policy(Some(0), None), 0, listed, OwnKeys(m, ns), r)
    ensures forall k :: k in after <==> k in m && k !in OwnKeys(m, ns)
  {
    hide FromEntry, KeyOf, OwnKeys, Readable, Ordered;
    listed := SomeListing(m);
    DatedIds(listed, m, ns);
    NoAgePicksAll(Dated(listed, ns), 0);
    hide Chooses;
    after := m - OwnKeys(m, ns);
    var removed := |m.Keys * OwnKeys(m, ns)|;
    r := Summary(|Gone(m, ns)|, removed, Retention.Monus(|Gone(m, ns)|, removed));
  }

  lemma {:induction false} SomeListing(m: Entries) returns (listed: seq<Entry>)
    requires Keyed(m)
    ensures Lists(listed, m) && Ordered(listed)
    decreases |m|
  {
    if m == map[] {
      listed := [];
    } else {
      var k := LeastString(m.Keys);
      var rest := SomeListing(m - {k});
      hide Lists, Ordered;
      listed := [m[k]] + rest;
      ListsCons(m, k, rest);
      OrderedCons(m, k, rest);
    }
  }

  lemma OrderedCons(m: Entries, k: string, rest: seq<Entry>)
    requires Keyed(m) && IsLeast(k, m.Keys) && Lists(rest, m - {k}) && Ordered(rest)
    ensures Ordered([m[k]] + rest)
  {
    var listed := [m[k]] + rest;
    forall i, j | 0 <= i < j < |listed| ensures LexLe(listed[i].key, listed[j].key) {
      assert listed[j] == rest[j - 1] && rest[j - 1] in rest;
      if i > 0 { assert listed[i] == rest[i - 1]; }
    }
  }

  lemma ListsCons(m: Entries, k: string, rest: seq<Entry>)
    requires Keyed(m) && k in m && Lists(rest, m - {k})
    ensures Lists([m[k]] + rest, m)
  {
    var listed := [m[k]] + rest;
    forall e | e in listed ensures e.key in m && m[e.key] == e {
      assert e == m[k] || e in rest;
    }
    forall i | i in m ensures m[i] in listed {
      if i != k { assert (m - {k})[i] in rest; }
    }
    forall i, j | 0 <= i < j < |listed| ensures listed[i].key != listed[j].key {
      assert listed[j] == rest[j - 1] && rest[j - 1] in rest;
      if i > 0 { assert listed[i] == rest[i - 1]; }
    }
  }

  /** Which states those are can be read off the keys: every record's key is spelled in the usual way. */
  lemma CanonicalIffUsual(m: Entries, ns: Text)
    requires Keyed(m)
    ensures Canonical(m, ns) <==>
              forall k | k in m && FromEntry(m[k], ns).Ok? && FromEntry(m[k], ns).value.Some? :: UsualKey(k)
  {
    forall k | k in m && FromEntry(m[k], ns).Ok? && FromEntry(m[k], ns).value.Some?
      ensures k == KeyOf(ns, FromEntry(m[k], ns).value.value.rid) <==> UsualKey(k)
    {
      OwnIffUsual(k, ParseRecordKey(k).value.value);
    }
  }

  ghost predicate CanonicalIfDone(r: Result<Replica>, ns: Text) {
    r.Ok? ==> Canonical(r.value.entries, ns)
  }

  /** Writing a record puts it under its own key, so states written through records alone stay safe. */
  lemma RecordWritesStayCanonical(s: Replica, ns: Text, r: SyncRecord, origin: Option<string>, other: Text)
    requires Canonical(s.entries, other)
    ensures CanonicalIfDone(SetRecord(s, ns, r), other)
    ensures CanonicalIfDone(ApplyRecord(s, ns, r, origin), other)
    ensures CanonicalIfDone(UpsertRecord(s, ns, r, origin), other)
  {
    hide CanonicalIfDone;
    SetStaysCanonical(s, ns, r, other);
    ApplyStaysCanonical(s, ns, r, origin, other);
    UpsertStaysCanonical(s, ns, r, origin, other);
  }

  lemma SetStaysCanonical(s: Replica, ns: Text, r: SyncRecord, other: Text)
    requires Canonical(s.entries, other)
    ensures CanonicalIfDone(SetRecord(s, ns, r), other)
  {
    hide FromEntry, KeyOf, Canonical, StampedClocks;
    if SetRecord(s, ns, r).Ok? {
      var existing := Get(s.entries, ns, r.rid).value;
      CanonicalWrite(s.entries, ns, Stamp(r.(clock := LamportClock(SaturatingInc(s.counter), s.deviceId)), existing),
        other);
    }
  }

  lemma ApplyStaysCanonical(s: Replica, ns: Text, r: SyncRecord, origin: Option<string>, other: Text)
    requires Canonical(s.entries, other)
    ensures CanonicalIfDone(ApplyRecord(s, ns, r, origin), other)
  {
    hide FromEntry, KeyOf, Canonical, StampedClocks;
    if ApplyRecord(s, ns, r, origin).Ok? {
      CanonicalWrite(s.entries, ns, Stamp(r, Get(s.entries, ns, r.rid).value), other);
    }
  }

  lemma UpsertStaysCanonical(s: Replica, ns: Text, r: SyncRecord, origin: Option<string>, other: Text)
    requires Canonical(s.entries, other)
    ensures CanonicalIfDone(UpsertRecord(s, ns, r, origin), other)
  {
    hide FromEntry, KeyOf, Canonical, StampedClocks;
    if UpsertRecord(s, ns, r, origin).Ok? {
      CanonicalWrite(s.entries, ns, Stamp(r, Get(s.entries, ns, r.rid).value), other);
    }
  }

  lemma CanonicalWrite(m: Entries, ns: Text, w: SyncRecord, other: Text)
    requires Canonical(m, other)
    ensures Canonical(m[KeyOf(ns, w.rid) := ToEntry(ns, w)], other)
  {
    EntryRoundTrip(ns, w, other);
    hide FromEntry, KeyOf;
  }

  /** Where the state is not harmless: a tombstone under another spelling of a live record's key. A compaction that
      keeps no tombstones removes the live record, keeps the tombstone and reports one tombstone removed. */
  lemma AliasTakesLive(
    ns: Text, schema: Text, entity: Text, live: SyncRecord, gone: Entry, time: nat,
    now: nat, after: Entries, listed: seq<Entry>, chosen: set<string>, r: Summary)
    requires live.rid == RecordId(schema, entity, "a") && !live.tombstone
    requires gone.key == AliasKey(ns, schema, entity) && gone.value == Record(Payload(map[], true, Some(time), map[]))
    requires Compacts(map[gone.key := gone, KeyOf(ns, live.rid) := ToEntry(ns, live)], after, ns,
      Policy(None, Some(0)), now,
                      listed, chosen, r)
    ensures gone.key != KeyOf(ns, live.rid) && after == map[gone.key := gone] && r == Summary(1, 1, 0)
  {
    hide Compacts;
    AliasTaken(ns, schema, entity, live, gone, time);
    hide AliasKey, KeyOf, ToEntry, IsDated, IsGone, OwnKey;
    OneAlias(ns, gone, ToEntry(ns, live), now, after, listed, chosen, r);
  }

  lemma AliasTaken(ns: Text, schema: Text, entity: Text, live: SyncRecord, gone: Entry, time: nat)
    requires live.rid == RecordId(schema, entity, "a") && !live.tombstone
    requires gone.key == AliasKey(ns, schema, entity) && gone.value == Record(Payload(map[], true, Some(time), map[]))
    ensures gone.key != KeyOf(ns, live.rid) && ToEntry(ns, live).key == KeyOf(ns, live.rid)
    ensures IsDated(gone, ns) && OwnKey(gone, ns) == KeyOf(ns, live.rid) && !IsGone(ToEntry(ns, live), ns)
  {
    AliasParses(ns, schema, entity);
    EntryRoundTrip(ns, live, ns);
    hide EntryKey, ParseRecordKey, AliasKey;
  }

  lemma OneAlias(
    ns: Text, gone: Entry, live: Entry, now: nat, after: Entries, listed: seq<Entry>, chosen: set<string>, r: Summary)
    requires gone.key != live.key && IsDated(gone, ns) && OwnKey(gone, ns) == live.key && !IsGone(live, ns)
    requires Compacts(map[gone.key := gone, live.key := live], after, ns, Policy(None, Some(0)), now, listed, chosen, r)
    ensures after == map[gone.key := gone] && r == Summary(1, 1, 0)
  {
    var m := map[gone.key := gone, live.key := live];
    hide FromEntry, KeyOf, Chooses, Dated, Lists, IsGone, WrittenAt, OwnKeys, Gone;
    DatedIds(listed, m, ns);
    NoneKeptPicksAll(Dated(listed, ns), None, now, chosen);
    OneOfTwo(ns, gone, live);
    assert m.Keys * chosen == {live.key};
  }

  lemma OneOfTwo(ns: Text, gone: Entry, live: Entry)
    requires gone.key != live.key && IsDated(gone, ns) && OwnKey(gone, ns) == live.key && !IsGone(live, ns)
    ensures var m := map[gone.key := gone, live.key := live];
            OwnKeys(m, ns) == {live.key} && Gone(m, ns) == {gone.key} && m.Keys == {gone.key, live.key} && Keyed(m)
  {
    hide FromEntry, KeyOf, IsGone, OwnKey, WrittenAt;
    var m := map[gone.key := gone, live.key := live];
    assert m[gone.key] == gone && m[live.key] == live;
  }
}
