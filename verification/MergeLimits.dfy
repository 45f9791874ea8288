/** Where merging is not a join, and exactly when it still behaves like one. */
module MergeLimits {
  import opened Clocks
  import opened Values
  import opened Records
  import opened RecordMerge
  import opened RecordLattice

  // ----- Deletions

  /** A version meeting a deletion commutes exactly when the clocks differ (or the two are the same version). */
  lemma TombstoneCommutes(rules: Rules, a: SyncRecord, b: SyncRecord)
    requires a.tombstone || b.tombstone
    ensures Merged(rules, a, b) == Merged(rules, b, a) <==> a.clock != b.clock || a == b
  {
    LexTotal(a.clock.device, b.clock.device);
    if a.clock.Le(b.clock) && b.clock.Le(a.clock) { ClockAntisym(a.clock, b.clock); }
  }

  /** One grouping lets the deletion swallow the older live version before the newer one can absorb it. */
  ghost predicate Buried(rules: Rules, a: SyncRecord, b: SyncRecord, c: SyncRecord) {
    || (a.tombstone && !b.tombstone && !c.tombstone
        && b.clock.Lt(a.clock) && a.clock.Le(c.clock) && !Below(rules, b, c))
    || (b.tombstone && !a.tombstone && !c.tombstone
        && a.clock.Le(b.clock) && b.clock.Le(c.clock) && !Below(rules, a, c))
    || (b.tombstone && !a.tombstone && !c.tombstone
        && c.clock.Lt(b.clock) && b.clock.Lt(a.clock) && !Below(rules, c, a))
    || (c.tombstone && !a.tombstone && !b.tombstone
        && b.clock.Le(c.clock) && c.clock.Lt(a.clock) && !Below(rules, b, a))
  }

  ghost predicate Comparable(rules: Rules, a: SyncRecord, b: SyncRecord) {
    !a.tombstone && !b.tombstone ==> Agree(rules, a, b)
  }

  ghost predicate Usable(rules: Rules, a: SyncRecord) {
    a.tombstone || Good(rules, a)
  }

  lemma AbsorbsLeft(rules: Rules, a: SyncRecord, b: SyncRecord)
    requires Good(rules, a) && Good(rules, b) && Agree(rules, a, b)
    ensures Merged(rules, a, b) == b <==> Below(rules, a, b)
  {
    hide Merged, Good, Below, Agree;
    AgreeSym(rules, a, b);
    Absorbs(rules, b, a);
    MergeCommutes(rules, a, b);
  }

  lemma Ordered3(a: LamportClock, b: LamportClock, c: LamportClock)
    ensures (a.Le(b) || b.Le(a)) && (b.Le(c) || c.Le(b)) && (a.Le(c) || c.Le(a))
    ensures (a.Le(b) && b.Le(a) ==> a == b) && (b.Le(c) && c.Le(b) ==> b == c) && (a.Le(c) && c.Le(a) ==> a == c)
    ensures (a.Le(b) && b.Le(c) ==> a.Le(c)) && (c.Le(b) && b.Le(a) ==> c.Le(a))
    ensures (a.Le(c) && c.Le(b) ==> a.Le(b)) && (b.Le(c) && c.Le(a) ==> b.Le(a))
    ensures (b.Le(a) && a.Le(c) ==> b.Le(c)) && (c.Le(a) && a.Le(b) ==> c.Le(b))
  {
    ClockOrder();
  }

  lemma OneGone(rules: Rules, a: SyncRecord, b: SyncRecord)
    requires a.tombstone || b.tombstone
    ensures Merged(rules, a, b) == if a.clock.Le(b.clock) then b else a
  {
  }

  lemma LiveMerge(rules: Rules, a: SyncRecord, b: SyncRecord)
    requires !a.tombstone && !b.tombstone
    ensures var m := Merged(rules, a, b); !m.tombstone && m.clock == if a.clock.Le(b.clock) then b.clock else a.clock
  {
  }

  /** Among any mix of live versions and deletions, grouping matters exactly when a deletion between two live
      versions swallows content that the newer one lacks. */
  lemma AssociatesUnlessBuried(rules: Rules, a: SyncRecord, b: SyncRecord, c: SyncRecord)
    requires Usable(rules, a) && Usable(rules, b) && Usable(rules, c)
    requires Comparable(rules, a, b) && Comparable(rules, a, c) && Comparable(rules, b, c)
    ensures Merged(rules, Merged(rules, a, b), c) == Merged(rules, a, Merged(rules, b, c)) <==> !Buried(rules, a, b, c)
  {
    hide Merged, Good, Below, Agree, LamportClock.Le;
    if !a.tombstone && !b.tombstone && !c.tombstone {
      MergeAssociates(rules, a, b, c);
    } else if a.tombstone && !b.tombstone && !c.tombstone {
      FirstGone(rules, a, b, c);
    } else if b.tombstone && !a.tombstone && !c.tombstone {
      MiddleGone(rules, a, b, c);
    } else if c.tombstone && !a.tombstone && !b.tombstone {
      LastGone(rules, a, b, c);
    } else {
      MostGone(rules, a, b, c);
    }
  }

  /** A concrete run: the deletion swallows the first edit, unless the two edits meet first. */
  lemma GroupingMatters(rules: Rules, rid: RecordId)
    ensures var x := SyncRecord(rid, map["p" := I64(1)], false, LamportClock(1, ""), None,
      map["p" := LamportClock(1, "")]);
            var t := SyncRecord(rid, map[], true, LamportClock(2, ""), None, map[]);
            var y := SyncRecord(rid, map["q" := I64(2)], false, LamportClock(3, ""), None,
              map["q" := LamportClock(3, "")]);
            Merged(rules, Merged(rules, t, x), y) != Merged(rules, t, Merged(rules, x, y))
  {
    var x := SyncRecord(rid, map["p" := I64(1)], false, LamportClock(1, ""), None, map["p" := LamportClock(1, "")]);
    var t := SyncRecord(rid, map[], true, LamportClock(2, ""), None, map[]);
    var y := SyncRecord(rid, map["q" := I64(2)], false, LamportClock(3, ""), None, map["q" := LamportClock(3, "")]);
    assert "p" in Merged(rules, x, y).fields && "p" !in y.fields;
  }

  lemma FirstGone(rules: Rules, t: SyncRecord, x: SyncRecord, y: SyncRecord)
    requires t.tombstone && Good(rules, x) && Good(rules, y) && Agree(rules, x, y) && !x.tombstone && !y.tombstone
    ensures Merged(rules, Merged(rules, t, x), y) == Merged(rules, t, Merged(rules, x, y)) <==>
            !(x.clock.Lt(t.clock) && t.clock.Le(y.clock) && !Below(rules, x, y))
  {
    hide Merged, Good, Below, Agree, LamportClock.Le;
    Ordered3(t.clock, x.clock, y.clock);
    OneGone(rules, t, x);
    OneGone(rules, t, y);
    LiveMerge(rules, x, y);
    OneGone(rules, t, Merged(rules, x, y));
    AbsorbsLeft(rules, x, y);
  }

  lemma MiddleGone(rules: Rules, x: SyncRecord, t: SyncRecord, y: SyncRecord)
    requires t.tombstone && Good(rules, x) && Good(rules, y) && Agree(rules, x, y) && !x.tombstone && !y.tombstone
    ensures Merged(rules, Merged(rules, x, t), y) == Merged(rules, x, Merged(rules, t, y)) <==>
            && !(x.clock.Le(t.clock) && t.clock.Le(y.clock) && !Below(rules, x, y))
            && !(y.clock.Lt(t.clock) && t.clock.Lt(x.clock) && !Below(rules, y, x))
  {
    hide Merged, Good, Below, Agree, LamportClock.Le;
    Ordered3(x.clock, t.clock, y.clock);
    OneGone(rules, x, t);
    OneGone(rules, t, y);
    AbsorbsLeft(rules, x, y);
    Absorbs(rules, x, y);
  }

  lemma LastGone(rules: Rules, x: SyncRecord, y: SyncRecord, t: SyncRecord)
    requires t.tombstone && Good(rules, x) && Good(rules, y) && Agree(rules, x, y) && !x.tombstone && !y.tombstone
    ensures Merged(rules, Merged(rules, x, y), t) == Merged(rules, x, Merged(rules, y, t)) <==>
            !(y.clock.Le(t.clock) && t.clock.Lt(x.clock) && !Below(rules, y, x))
  {
    hide Merged, Good, Below, Agree, LamportClock.Le;
    Ordered3(x.clock, y.clock, t.clock);
    OneGone(rules, x, t);
    OneGone(rules, y, t);
    LiveMerge(rules, x, y);
    OneGone(rules, Merged(rules, x, y), t);
    Absorbs(rules, x, y);
  }

  lemma MostGone(rules: Rules, a: SyncRecord, b: SyncRecord, c: SyncRecord)
    requires (a.tombstone && b.tombstone) || (a.tombstone && c.tombstone) || (b.tombstone && c.tombstone)
    ensures Merged(rules, Merged(rules, a, b), c) == Merged(rules, a, Merged(rules, b, c))
  {
    hide Merged, LamportClock.Le;
    Ordered3(a.clock, b.clock, c.clock);
    OneGone(rules, a, b);
    OneGone(rules, b, c);
    OneGone(rules, Merged(rules, a, b), c);
    OneGone(rules, a, Merged(rules, b, c));
  }

  // ----- Restored snapshots

  /** A restore gives a record a new clock but leaves its field clocks: through a merging adapter a restored field
      prevails exactly when the stored one is not newer (or holds the same value anyway). */
  lemma RestoreMeetsFieldClocks(
    rules: Rules, stored: SyncRecord, saved: SyncRecord, restoredAt: LamportClock, f: string)
    requires !stored.tombstone && !saved.tombstone && f in stored.fields && f in saved.fields && f in saved.fieldClocks
    requires rules.policy(f).LastWriterWins?
    ensures Merged(rules, stored, saved.(clock := restoredAt)).fields[f] == saved.fields[f] <==>
            stored.FieldClock(f).Le(saved.fieldClocks[f]) || stored.fields[f] == saved.fields[f]
  {
    assert saved.(clock := restoredAt).FieldClock(f) == saved.fieldClocks[f];
  }

  // ----- Other policies

  /** Under `SetUnion` two maps commute exactly when they agree wherever both have the key. */
  lemma MapUnionCommutes(left: map<string, FieldValue>, right: map<string, FieldValue>)
    ensures MapUnion(left, right) == MapUnion(right, left) <==>
      forall k | k in left && k in right :: left[k] == right[k]
  {
    var u, w := MapUnion(left, right), MapUnion(right, left);
    if forall k | k in left && k in right :: left[k] == right[k] {
      assert u.Keys == w.Keys;
      assert forall k | k in u :: u[k] == w[k];
      assert u == w;
    }
    forall k | u == w && k in left && k in right ensures left[k] == right[k] {
      assert u[k] == left[k] && w[k] == right[k];
    }
  }

  /** Appending keeps the stored list as it was, in front, and adds exactly the unseen items. */
  lemma {:induction false} ListUnionItems(left: seq<FieldValue>, right: seq<FieldValue>)
    ensures left <= ListUnion(left, right)
    ensures forall x :: x in ListUnion(left, right) <==> x in left || x in right
    decreases |right|
  {
    if right != [] {
      var next := if right[0] in left then left else left + [right[0]];
      ListUnionItems(next, right[1..]);
      assert right == [right[0]] + right[1..];
    }
  }

  lemma {:induction false} ListUnionFixed(left: seq<FieldValue>, right: seq<FieldValue>)
    ensures ListUnion(left, right) == left <==> forall x | x in right :: x in left
    decreases |right|
  {
    ListUnionItems(left, right);
    if right != [] {
      ListUnionFixed(left, right[1..]);
    }
  }

  /** An append-only field holds every item of both sides and nothing else, whichever version is newer, and
      the same version again changes nothing. */
  lemma AppendOnlyKeepsAll(
    rules: Rules, f: string, existing: FieldValue, incoming: FieldValue, newer: bool, again: bool)
    requires rules.policy(f).AppendOnly?
    ensures var m := MergedValue(rules, f, Some(existing), incoming, newer);
            && m.List? && (forall x :: x in m.items <==> x in AsItems(existing) || x in AsItems(incoming))
            && AsItems(existing) <= m.items
            && MergedValue(rules, f, Some(m), incoming, again) == m
  {
    var m := MergedValue(rules, f, Some(existing), incoming, newer);
    ListUnionItems(AsItems(existing), AsItems(incoming));
    ListUnionFixed(m.items, AsItems(incoming));
  }

  /** A first insert stores the value as it came, so replaying it is stable exactly when it is a list. */
  lemma AppendOnlyReplay(rules: Rules, f: string, v: FieldValue, newer: bool)
    requires rules.policy(f).AppendOnly?
    ensures MergedValue(rules, f, Some(v), v, newer) == v <==> v.List?
  {
    ListUnionFixed(AsItems(v), AsItems(v));
  }
}
