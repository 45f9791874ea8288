/** Which snapshots a retention policy deletes. */
module Retention {
  import opened Clocks
  import opened KeyLoops

  datatype Snapshot = Snapshot(id: string, createdAt: nat)

  datatype Policy = Policy(maxSnapshots: Option<nat>, maxAgeSecs: Option<nat>)

  ghost predicate DistinctIds(ss: seq<Snapshot>) {
    forall i, j | 0 <= i < j < |ss| :: ss[i].id != ss[j].id
  }

  ghost predicate OldestFirst(ss: seq<Snapshot>) {
    forall i, j | 0 <= i < j < |ss| :: ss[i].createdAt <= ss[j].createdAt
  }

  function Monus(a: nat, b: nat): nat {
    if a <= b then 0 else a - b
  }

  function Ids(ss: seq<Snapshot>): set<string> {
    set s | s in ss :: s.id
  }

  ghost function ExpiredIds(ss: seq<Snapshot>, cutoff: nat): set<string> {
    set s | s in ss && s.createdAt < cutoff :: s.id
  }

  /** How many must go: those past the age cutoff, or as many as exceed the count, whichever is more. */
  ghost function Quota(ss: seq<Snapshot>, policy: Policy, now: nat): nat {
    var byAge := if policy.maxAgeSecs.Some? then |ExpiredIds(ss, Monus(now, policy.maxAgeSecs.value))| else 0;
    var byCount := if policy.maxSnapshots.Some? then Monus(|ss|, policy.maxSnapshots.value) else 0;
    Max(byAge, byCount)
  }

  /** Exactly the oldest `n` go: that many, and nothing kept is older than anything deleted. */
  ghost predicate DeletesOldest(ss: seq<Snapshot>, deleted: set<string>, n: nat) {
    && deleted <= Ids(ss) && |deleted| == n
    && forall s, t | s in ss && t in ss && s.id in deleted && t.id !in deleted :: s.createdAt <= t.createdAt
  }

  /** With the quota met, every expired snapshot is gone and the count bound holds. */
  lemma QuotaSuffices(ss: seq<Snapshot>, deleted: set<string>, policy: Policy, now: nat)
    requires DistinctIds(ss) && DeletesOldest(ss, deleted, Quota(ss, policy, now))
    ensures policy.maxSnapshots.Some? ==> |ss| - |deleted| <= policy.maxSnapshots.value
    ensures policy.maxAgeSecs.Some? ==> ExpiredIds(ss, Monus(now, policy.maxAgeSecs.value)) <= deleted
  {
    if policy.maxAgeSecs.Some? {
      var cutoff := Monus(now, policy.maxAgeSecs.value);
      var expired := ExpiredIds(ss, cutoff);
      if !(expired <= deleted) {
        var t :| t in ss && t.createdAt < cutoff && t.id !in deleted;
        assert deleted <= expired - {t.id};
        SubsetSize(deleted, expired - {t.id});
        assert false;
      }
    }
  }

  lemma {:induction false} IdsSize(ss: seq<Snapshot>)
    requires DistinctIds(ss)
    ensures |Ids(ss)| == |ss|
    decreases |ss|
  {
    if ss != [] {
      var n := |ss| - 1;
      IdsSize(ss[..n]);
      IdsGrow(ss, n);
      assert ss[..n + 1] == ss;
    }
  }

  lemma IdsGrow(ss: seq<Snapshot>, i: nat)
    requires i < |ss| && DistinctIds(ss)
    ensures Ids(ss[..i + 1]) == Ids(ss[..i]) + {ss[i].id} && ss[i].id !in Ids(ss[..i])
  {
    assert ss[..i + 1] == ss[..i] + [ss[i]];
  }

  ghost function FirstIds(ss: seq<Snapshot>, n: nat): set<string>
    requires n <= |ss|
  {
    Ids(ss[..n])
  }

  lemma FirstIdsStep(ss: seq<Snapshot>, i: nat, n: nat)
    requires i < |ss| && n <= |ss| && DistinctIds(ss)
    ensures ss[i].id in FirstIds(ss, n) <==> i < n
    ensures FirstIds(ss, i + 1) == FirstIds(ss, i) + {ss[i].id}
    ensures |FirstIds(ss, n)| == n
  {
    IdsGrow(ss, i);
    IdsSize(ss[..n]);
    if i < n { assert ss[..n][i] == ss[i]; }
  }

  /** The ids of a prefix of an oldest-first arrangement are the oldest ones. */
  lemma PrefixIsOldest(ss: seq<Snapshot>, sorted: seq<Snapshot>, n: nat)
    requires Arranged(ss, sorted) && n <= |sorted|
    ensures DeletesOldest(ss, Ids(sorted[..n]), n)
  {
    IdsSize(sorted[..n]);
    forall s, t | s in ss && t in ss && s.id in Ids(sorted[..n]) && t.id !in Ids(sorted[..n])
      ensures s.createdAt <= t.createdAt
    {
      var i :| 0 <= i < n && sorted[..n][i].id == s.id;
      var j :| 0 <= j < |sorted| && sorted[j] == t;
      assert sorted[..n][i] == sorted[i];
      assert forall x | 0 <= x < n :: sorted[..n][x] == sorted[x] && sorted[x].id in Ids(sorted[..n]);
      assert sorted[i] == s by {
        var k :| 0 <= k < |sorted| && sorted[k] == s;
      }
    }
  }

  ghost predicate Arranged(ss: seq<Snapshot>, sorted: seq<Snapshot>) {
    && |sorted| == |ss| && DistinctIds(sorted) && OldestFirst(sorted)
    && forall s :: s in sorted <==> s in ss
  }

  /** Those created at one time, in order. */
  function CreatedAt(ss: seq<Snapshot>, t: nat): seq<Snapshot> {
    if ss == [] then [] else (if ss[0].createdAt == t then [ss[0]] else []) + CreatedAt(ss[1..], t)
  }

  /** `sorted` is `ss` oldest first, with those of one time in the order they came: there is exactly one such list. */
  ghost predicate Stable(ss: seq<Snapshot>, sorted: seq<Snapshot>) {
    |sorted| == |ss| && OldestFirst(sorted) && forall t :: CreatedAt(sorted, t) == CreatedAt(ss, t)
  }

  lemma {:induction false} CreatedAtAppend(a: seq<Snapshot>, b: seq<Snapshot>, t: nat)
    ensures CreatedAt(a + b, t) == CreatedAt(a, t) + CreatedAt(b, t)
  {
    if a == [] {
      assert a + b == b;
    } else {
      assert (a + b)[0] == a[0] && (a + b)[1..] == a[1..] + b;
      CreatedAtAppend(a[1..], b, t);
    }
  }

  lemma {:induction false} CreatedAtMember(ss: seq<Snapshot>, s: Snapshot)
    ensures s in CreatedAt(ss, s.createdAt) <==> s in ss
  {
    if ss != [] {
      assert ss == [ss[0]] + ss[1..];
      CreatedAtMember(ss[1..], s);
    }
  }

  lemma {:induction false} NoneCreatedAt(ss: seq<Snapshot>, t: nat)
    requires forall s | s in ss :: s.createdAt != t
    ensures CreatedAt(ss, t) == []
  {
    if ss != [] {
      NoneCreatedAt(ss[1..], t);
    }
  }

  lemma StableInsert(ss: seq<Snapshot>, sorted: seq<Snapshot>, s: Snapshot, i: nat)
    requires Stable(ss, sorted) && i <= |sorted| && (i > 0 ==> sorted[i - 1].createdAt <= s.createdAt)
    requires forall j | i <= j < |sorted| :: sorted[j].createdAt > s.createdAt
    ensures Stable(ss + [s], sorted[..i] + [s] + sorted[i..])
  {
    OrderedInsert(sorted, s, i);
    hide OldestFirst;
    forall t ensures CreatedAt(sorted[..i] + [s] + sorted[i..], t) == CreatedAt(ss + [s], t) {
      InsertAt(ss, sorted, s, i, t);
    }
  }

  lemma OrderedInsert(sorted: seq<Snapshot>, s: Snapshot, i: nat)
    requires OldestFirst(sorted) && i <= |sorted| && (i > 0 ==> sorted[i - 1].createdAt <= s.createdAt)
    requires forall j | i <= j < |sorted| :: sorted[j].createdAt > s.createdAt
    ensures OldestFirst(sorted[..i] + [s] + sorted[i..])
  {
  }

  lemma InsertAt(ss: seq<Snapshot>, sorted: seq<Snapshot>, s: Snapshot, i: nat, t: nat)
    requires i <= |sorted| && CreatedAt(sorted, t) == CreatedAt(ss, t)
    requires forall j | i <= j < |sorted| :: sorted[j].createdAt > s.createdAt
    ensures CreatedAt(sorted[..i] + [s] + sorted[i..], t) == CreatedAt(ss + [s], t)
  {
    var front, back := sorted[..i], sorted[i..];
    assert sorted == front + back;
    assert forall b | b in back :: b.createdAt > s.createdAt;
    hide CreatedAt;
    CreatedAtAppend(ss, [s], t);
    CreatedAtAppend(front, back, t);
    if t == s.createdAt {
      NoneCreatedAt(back, t);
    }
    CreatedAtMiddle(front, s, back, t);
  }

  lemma CreatedAtMiddle(front: seq<Snapshot>, s: Snapshot, back: seq<Snapshot>, t: nat)
    requires t == s.createdAt ==> CreatedAt(back, t) == []
    ensures CreatedAt(front + [s] + back, t) == CreatedAt(front, t) + CreatedAt(back, t) + CreatedAt([s], t)
  {
    hide CreatedAt;
    CreatedAtAppend(front, [s], t);
    CreatedAtAppend(front + [s], back, t);
    OneCreatedAt(s, t);
  }

  lemma OneCreatedAt(s: Snapshot, t: nat)
    ensures CreatedAt([s], t) == if s.createdAt == t then [s] else []
  {
    assert [s][1..] == [];
  }

  lemma StableMembers(ss: seq<Snapshot>, sorted: seq<Snapshot>)
    requires Stable(ss, sorted)
    ensures forall s :: s in sorted <==> s in ss
  {
    forall s ensures s in sorted <==> s in ss {
      CreatedAtMember(ss, s);
      CreatedAtMember(sorted, s);
    }
  }

  /** There is only one such arrangement. */
  lemma StableUnique(ss: seq<Snapshot>, a: seq<Snapshot>, b: seq<Snapshot>)
    requires Stable(ss, a) && Stable(ss, b)
    ensures a == b
  {
    SameByTime(a, b);
  }

  lemma {:induction false} SameByTime(a: seq<Snapshot>, b: seq<Snapshot>)
    requires |a| == |b| && OldestFirst(a) && OldestFirst(b) && forall t :: CreatedAt(a, t) == CreatedAt(b, t)
    ensures a == b
    decreases |a|
  {
    if a != [] {
      CreatedAtMember(a, a[0]);
      CreatedAtMember(b, a[0]);
      CreatedAtMember(b, b[0]);
      CreatedAtMember(a, b[0]);
      assert a[0].createdAt == b[0].createdAt by { FirstIsOldest(a, b[0]); FirstIsOldest(b, a[0]); }
      assert CreatedAt(a, a[0].createdAt)[0] == a[0] && CreatedAt(b, b[0].createdAt)[0] == b[0];
      assert a == [a[0]] + a[1..] && b == [b[0]] + b[1..];
      forall t ensures CreatedAt(a[1..], t) == CreatedAt(b[1..], t) {
        TailAt(a, t);
        TailAt(b, t);
      }
      hide CreatedAt;
      SameByTime(a[1..], b[1..]);
    }
  }

  lemma FirstIsOldest(ss: seq<Snapshot>, s: Snapshot)
    requires OldestFirst(ss) && s in ss
    ensures ss[0].createdAt <= s.createdAt
  {
  }

  lemma TailAt(ss: seq<Snapshot>, t: nat)
    requires ss != []
    ensures CreatedAt(ss[1..], t) == if ss[0].createdAt == t then CreatedAt(ss, t)[1..] else CreatedAt(ss, t)
  {
  }

  /** A stable sort by creation time. */
  method SortByCreation(ss: seq<Snapshot>) returns (sorted: seq<Snapshot>)
    ensures Stable(ss, sorted)
    ensures DistinctIds(ss) ==> Arranged(ss, sorted)
  {
    sorted := [];
    for n := 0 to |ss|
      invariant Stable(ss[..n], sorted)
      invariant DistinctIds(ss) ==> Arranged(ss[..n], sorted)
    {
      var i := |sorted|;
      while i > 0 && sorted[i - 1].createdAt > ss[n].createdAt
        invariant 0 <= i <= |sorted|
        invariant forall j | i <= j < |sorted| :: sorted[j].createdAt > ss[n].createdAt
      {
        i := i - 1;
      }
      assert ss[..n + 1] == ss[..n] + [ss[n]];
      StableInsert(ss[..n], sorted, ss[n], i);
      hide Stable;
      if DistinctIds(ss) {
        forall s | s in sorted ensures s.id != ss[n].id {
          var j :| 0 <= j < n && ss[..n][j] == s;
        }
        Insert(ss[..n], sorted, ss[n], i);
      }
      sorted := sorted[..i] + [ss[n]] + sorted[i..];
    }
    assert ss[..|ss|] == ss;
  }

  lemma Insert(ss: seq<Snapshot>, sorted: seq<Snapshot>, s: Snapshot, i: nat)
    requires Arranged(ss, sorted) && i <= |sorted| && forall t | t in sorted :: t.id != s.id
    requires (i > 0 ==> sorted[i - 1].createdAt <= s.createdAt)
    requires forall j | i <= j < |sorted| :: sorted[j].createdAt > s.createdAt
    ensures Arranged(ss + [s], sorted[..i] + [s] + sorted[i..])
  {
  }

  /** The ids to delete, in id order. */
  method PlanPrune(listed: seq<Snapshot>, policy: Policy, now: nat) returns (toDelete: seq<string>)
    requires DistinctIds(listed)
    ensures forall i, j | 0 <= i < j < |toDelete| :: toDelete[i] != toDelete[j] && LexLe(toDelete[i], toDelete[j])
    ensures DeletesOldest(listed, (set id | id in toDelete), Quota(listed, policy, now))
  {
    var sorted := SortByCreation(listed);
    hide Stable;
    PrefixIsOldest(listed, sorted, 0);
    var total := |sorted|;
    if total == 0 || (policy.maxSnapshots.None? && policy.maxAgeSecs.None?) {
      return [];
    }
    var deleted: set<string> := {};
    ghost var expired := 0;
    if policy.maxAgeSecs.Some? {
      var cutoff := Monus(now, policy.maxAgeSecs.value);
      expired, deleted := DeleteExpired(listed, sorted, cutoff);
    }
    ghost var n := expired;
    if policy.maxSnapshots.Some? && total > policy.maxSnapshots.value {
      n := Max(expired, total - policy.maxSnapshots.value);
      deleted := DeleteOverflow(sorted, expired, deleted, policy.maxSnapshots.value);
    }
    PrefixIsOldest(listed, sorted, n);
    assert DeletesOldest(listed, deleted, n) && n == Quota(listed, policy, now);
    hide DeletesOldest, Quota, FirstIds, ExpiredIds, DistinctIds;
    toDelete := InIdOrder(deleted);
    assert deleted == set id | id in toDelete;
  }

  method DeleteExpired(ghost listed: seq<Snapshot>, sorted: seq<Snapshot>, cutoff: nat)
    returns (ghost n: nat, deleted: set<string>)
    requires Arranged(listed, sorted)
    ensures deleted == ExpiredIds(listed, cutoff)
    ensures n <= |sorted| && deleted == FirstIds(sorted, n) && |deleted| == n
  {
    deleted, n := {}, 0;
    for i := 0 to |sorted|
      invariant n <= i && deleted == Ids(sorted[..n])
      invariant forall j | 0 <= j < i :: sorted[j].createdAt < cutoff <==> j < n
    {
      if sorted[i].createdAt < cutoff {
        IdsGrow(sorted, i);
        deleted := deleted + {sorted[i].id};
        n := i + 1;
      }
    }
    IdsSize(sorted[..n]);
  }

  /** Deletes from the oldest on until no more than `keep` remain; the already deleted ones count. */
  method DeleteOverflow(sorted: seq<Snapshot>, ghost expired: nat, already: set<string>, keep: nat)
    returns (deleted: set<string>)
    requires DistinctIds(sorted) && expired <= |sorted| && already == FirstIds(sorted, expired) && keep < |sorted|
    ensures deleted == FirstIds(sorted, Max(expired, |sorted| - keep))
  {
    deleted := already;
    FirstIdsStep(sorted, 0, expired);
    hide FirstIds, DistinctIds;
    ghost var n := expired;
    var remaining := |sorted| - |deleted|;
    hide Max;
    for i := 0 to |sorted|
      invariant expired <= n <= |sorted| && deleted == FirstIds(sorted, n) && remaining == |sorted| - n
      invariant i <= n && (n > expired ==> n == i && remaining >= keep)
    {
      if remaining <= keep {
        break;
      }
      FirstIdsStep(sorted, i, n);
      if sorted[i].id !in deleted {
        deleted := deleted + {sorted[i].id};
        remaining := remaining - 1;
        n := n + 1;
      }
    }
    IsMax(expired, |sorted| - keep, n);
  }

  lemma IsMax(a: nat, b: nat, n: nat)
    requires a <= n && b <= n && (n == a || n == b)
    ensures n == Max(a, b)
  {
  }

  method InIdOrder(ids: set<string>) returns (listed: seq<string>)
    ensures forall id :: id in listed <==> id in ids
    ensures forall i, j | 0 <= i < j < |listed| :: listed[i] != listed[j] && LexLe(listed[i], listed[j])
  {
    listed := [];
    var todo := ids;
    while todo != {}
      invariant todo <= ids && forall id :: id in listed <==> id in ids && id !in todo
      invariant forall i, j | 0 <= i < j < |listed| :: listed[i] != listed[j] && LexLe(listed[i], listed[j])
      invariant forall a, b | a in listed && b in todo :: LexLe(a, b)
      decreases |todo|
    {
      var k := FirstKey(todo);
      listed := listed + [k];
      todo := todo - {k};
    }
  }
}
