/** Live versions of a record form a join semilattice under merging, when every field is last-writer-wins or a
    counter kept as one integer per device. */
module RecordLattice {
  import opened Clocks
  import opened Values
  import opened Records
  import opened RecordMerge

  /** One integer per device. */
  predicate Counts(v: FieldValue) {
    v.Map? && forall d | d in v.pairs :: v.pairs[d].I64?
  }

  ghost predicate FieldOk(rules: Rules, r: SyncRecord, f: string)
    requires f in r.fields && f in r.fieldClocks
  {
    && r.fieldClocks[f].Le(r.clock)
    && (rules.policy(f).LastWriterWins? || (rules.policy(f).Counter? && Counts(r.fields[f])))
  }

  /** A live, stamped version whose fields are all of the two kinds, none newer than the record. */
  ghost predicate Good(rules: Rules, r: SyncRecord) {
    !r.tombstone && r.Stamped() && forall f | f in r.fields :: FieldOk(rules, r, f)
  }

  /** Versions of one record in which an equal field clock means an equal value. */
  ghost predicate Agree(rules: Rules, a: SyncRecord, b: SyncRecord) {
    && a.rid == b.rid
    && forall f | f in a.fields && f in b.fields && rules.policy(f).LastWriterWins?
         && a.FieldClock(f) == b.FieldClock(f) ::
         a.fields[f] == b.fields[f]
  }

  predicate CountsLe(v: FieldValue, w: FieldValue) {
    && v.Map? && w.Map?
    && forall d | d in v.pairs ::
         d in w.pairs && v.pairs[d].I64? && w.pairs[d].I64? && v.pairs[d].n <= w.pairs[d].n
  }

  /** The order on one field: by clock, and for counters also device by device. */
  predicate CellLe(p: MergePolicy, v: FieldValue, c: LamportClock, w: FieldValue, d: LamportClock) {
    c.Le(d) && if p.Counter? then CountsLe(v, w) else (c == d ==> v == w)
  }

  predicate TimeLe(a: Option<nat>, b: Option<nat>) {
    a.Some? ==> b.Some? && a.value <= b.value
  }

  /** `b` is at least as recent as `a` in every respect. */
  ghost predicate Below(rules: Rules, a: SyncRecord, b: SyncRecord) {
    && a.rid == b.rid && a.clock.Le(b.clock) && TimeLe(a.updatedAt, b.updatedAt)
    && forall f | f in a.fields ::
         f in b.fields && CellLe(rules.policy(f), a.fields[f], a.FieldClock(f), b.fields[f], b.FieldClock(f))
  }

  // ----- One field

  lemma CellRefl(p: MergePolicy, v: FieldValue, c: LamportClock)
    requires p.Counter? ==> Counts(v)
    ensures CellLe(p, v, c, v, c)
  {
    LexRefl(c.device);
  }

  lemma ClockMax(a: LamportClock, b: LamportClock)
    ensures a.Le(a.Max(b)) && b.Le(a.Max(b))
    ensures a.Max(b) == a || a.Max(b) == b
    ensures !a.Le(b) ==> b.Le(a)
  {
    LexRefl(a.device);
    LexRefl(b.device);
    LexTotal(a.device, b.device);
  }

  lemma ClockAntisym(a: LamportClock, b: LamportClock)
    requires a.Le(b) && b.Le(a)
    ensures a == b
  {
    LexAntisym(a.device, b.device);
  }

  lemma CellTrans(p: MergePolicy, v1: FieldValue, c1: LamportClock, v2: FieldValue, c2: LamportClock,
                  v3: FieldValue, c3: LamportClock)
    requires CellLe(p, v1, c1, v2, c2) && CellLe(p, v2, c2, v3, c3)
    ensures CellLe(p, v1, c1, v3, c3)
  {
    ClockTrans(c1, c2, c3);
    if c1 == c3 { ClockAntisym(c1, c2); }
  }

  lemma CellAntisym(p: MergePolicy, v: FieldValue, c: LamportClock, w: FieldValue, d: LamportClock)
    requires CellLe(p, v, c, w, d) && CellLe(p, w, d, v, c)
    ensures v == w && c == d
  {
    ClockAntisym(c, d);
    if p.Counter? {
      assert v.pairs.Keys == w.pairs.Keys;
      assert forall k | k in v.pairs :: v.pairs[k] == I64(v.pairs[k].n) == w.pairs[k];
      assert v.pairs == w.pairs;
    }
  }

  /** Where both sides hold the field, the merged cell is above both and below everything above both. */
  lemma CellJoin(rules: Rules, a: SyncRecord, b: SyncRecord, f: string)
    requires Good(rules, a) && Good(rules, b) && Agree(rules, a, b) && f in a.fields && f in b.fields
    ensures CellLe(rules.policy(f), a.fields[f], a.FieldClock(f), FieldResult(rules, a, b, f), ClockResult(a, b, f))
    ensures CellLe(rules.policy(f), b.fields[f], b.FieldClock(f), FieldResult(rules, a, b, f), ClockResult(a, b, f))
    ensures rules.policy(f).Counter? ==> Counts(FieldResult(rules, a, b, f))
  {
    var c, d := a.FieldClock(f), b.FieldClock(f);
    assert FieldOk(rules, a, f) && FieldOk(rules, b, f);
    ClockMax(c, d);
    if rules.policy(f).LastWriterWins? {
      if c.Le(d) && d == c { } else if c.Le(d) { } else { }
    }
  }

  lemma CellLeast(rules: Rules, a: SyncRecord, b: SyncRecord, f: string, w: FieldValue, d: LamportClock)
    requires Good(rules, a) && Good(rules, b) && f in a.fields && f in b.fields
    requires CellLe(rules.policy(f), a.fields[f], a.FieldClock(f), w, d)
    requires CellLe(rules.policy(f), b.fields[f], b.FieldClock(f), w, d)
    ensures CellLe(rules.policy(f), FieldResult(rules, a, b, f), ClockResult(a, b, f), w, d)
  {
    assert FieldOk(rules, a, f) && FieldOk(rules, b, f);
  }

  // ----- The order on versions

  lemma BelowRefl(rules: Rules, a: SyncRecord)
    requires Good(rules, a)
    ensures Below(rules, a, a)
  {
    LexRefl(a.clock.device);
    forall f | f in a.fields
      ensures CellLe(rules.policy(f), a.fields[f], a.FieldClock(f), a.fields[f], a.FieldClock(f))
    {
      assert FieldOk(rules, a, f);
      CellRefl(rules.policy(f), a.fields[f], a.FieldClock(f));
    }
  }

  lemma BelowTrans(rules: Rules, a: SyncRecord, b: SyncRecord, c: SyncRecord)
    requires Below(rules, a, b) && Below(rules, b, c)
    ensures Below(rules, a, c)
  {
    hide CellLe, LamportClock.Le;
    ClockTrans(a.clock, b.clock, c.clock);
    forall f | f in a.fields
      ensures f in c.fields && CellLe(rules.policy(f), a.fields[f], a.FieldClock(f), c.fields[f], c.FieldClock(f))
    {
      CellTrans(rules.policy(f), a.fields[f], a.FieldClock(f), b.fields[f], b.FieldClock(f), c.fields[f],
        c.FieldClock(f));
    }
  }

  lemma BelowAntisym(rules: Rules, a: SyncRecord, b: SyncRecord)
    requires Good(rules, a) && Good(rules, b) && Below(rules, a, b) && Below(rules, b, a)
    ensures a == b
  {
    hide CellLe, LamportClock.Le, FieldOk;
    ClockAntisym(a.clock, b.clock);
    forall f | f in a.fields
      ensures f in b.fields && a.fields[f] == b.fields[f] && a.fieldClocks[f] == b.fieldClocks[f]
    {
      CellAntisym(rules.policy(f), a.fields[f], a.FieldClock(f), b.fields[f], b.FieldClock(f));
    }
    assert a.fields == b.fields;
    assert a.fieldClocks == b.fieldClocks;
  }

  // ----- Merging is the join

  lemma MergedField(rules: Rules, a: SyncRecord, b: SyncRecord, f: string)
    requires Good(rules, a) && Good(rules, b) && (f in a.fields || f in b.fields)
    ensures var m := Merged(rules, a, b);
            f in m.fields && m.fields[f] == FieldResult(rules, a, b, f) && m.FieldClock(f) == ClockResult(a, b, f)
    ensures f !in a.fields ==> FieldResult(rules, a, b, f) == b.fields[f]
  {
    if f in b.fields { assert FieldOk(rules, b, f); }
  }

  lemma MergedShape(rules: Rules, a: SyncRecord, b: SyncRecord)
    requires Good(rules, a) && Good(rules, b)
    ensures var m := Merged(rules, a, b);
            && m.rid == a.rid && !m.tombstone && m.Stamped() && m.fields.Keys == a.fields.Keys + b.fields.Keys
            && m.clock == a.clock.Max(b.clock) && m.updatedAt == MaxTime(a.updatedAt, b.updatedAt)
  {
    hide FieldOk, FieldResult, ClockResult;
  }

  lemma MergedGood(rules: Rules, a: SyncRecord, b: SyncRecord)
    requires Good(rules, a) && Good(rules, b) && Agree(rules, a, b)
    ensures Good(rules, Merged(rules, a, b))
  {
    var m := Merged(rules, a, b);
    MergedShape(rules, a, b);
    hide Merged;
    forall f | f in m.fields ensures FieldOk(rules, m, f) {
      MergedField(rules, a, b, f);
      FieldStaysOk(rules, a, b, f, m);
    }
  }

  lemma FieldStaysOk(rules: Rules, a: SyncRecord, b: SyncRecord, f: string, m: SyncRecord)
    requires Good(rules, a) && Good(rules, b) && Agree(rules, a, b) && (f in a.fields || f in b.fields)
    requires f in m.fields && f in m.fieldClocks && m.clock == a.clock.Max(b.clock)
    requires m.fields[f] == FieldResult(rules, a, b, f) && m.fieldClocks[f] == ClockResult(a, b, f)
    requires f !in a.fields ==> FieldResult(rules, a, b, f) == b.fields[f]
    ensures FieldOk(rules, m, f)
  {
    ClockMax(a.clock, b.clock);
    ClockMax(a.FieldClock(f), b.FieldClock(f));
    if f in a.fields {
      assert FieldOk(rules, a, f);
      ClockTrans(a.FieldClock(f), a.clock, m.clock);
    }
    if f in b.fields {
      assert FieldOk(rules, b, f);
      ClockTrans(b.FieldClock(f), b.clock, m.clock);
    }
    if f in a.fields && f in b.fields { CellJoin(rules, a, b, f); }
  }

  /** The merge is above both versions: no field is lost, no field clock and no device's count is lowered. */
  lemma MergedAbove(rules: Rules, a: SyncRecord, b: SyncRecord)
    requires Good(rules, a) && Good(rules, b) && Agree(rules, a, b)
    ensures Below(rules, a, Merged(rules, a, b)) && Below(rules, b, Merged(rules, a, b))
  {
    var m := Merged(rules, a, b);
    MergedShape(rules, a, b);
    ClockMax(a.clock, b.clock);
    hide Merged, LamportClock.Max, LamportClock.Le, CellLe;
    forall f | f in a.fields
      ensures CellLe(rules.policy(f), a.fields[f], a.FieldClock(f), m.fields[f], m.FieldClock(f))
    {
      MergedField(rules, a, b, f);
      LeftBelow(rules, a, b, f);
    }
    forall f | f in b.fields
      ensures CellLe(rules.policy(f), b.fields[f], b.FieldClock(f), m.fields[f], m.FieldClock(f))
    {
      MergedField(rules, a, b, f);
      RightBelow(rules, a, b, f);
    }
  }

  lemma LeftBelow(rules: Rules, a: SyncRecord, b: SyncRecord, f: string)
    requires Good(rules, a) && Good(rules, b) && Agree(rules, a, b) && f in a.fields
    ensures CellLe(rules.policy(f), a.fields[f], a.FieldClock(f), FieldResult(rules, a, b, f), ClockResult(a, b, f))
  {
    assert FieldOk(rules, a, f);
    if f in b.fields { CellJoin(rules, a, b, f); } else { CellRefl(rules.policy(f), a.fields[f], a.FieldClock(f)); }
  }

  lemma RightBelow(rules: Rules, a: SyncRecord, b: SyncRecord, f: string)
    requires Good(rules, a) && Good(rules, b) && Agree(rules, a, b) && f in b.fields
    ensures CellLe(rules.policy(f), b.fields[f], b.FieldClock(f), FieldResult(rules, a, b, f), ClockResult(a, b, f))
  {
    assert FieldOk(rules, b, f);
    if f in a.fields { CellJoin(rules, a, b, f); } else { CellRefl(rules.policy(f), b.fields[f], b.FieldClock(f)); }
  }

  /** Anything above both versions is above their merge. */
  lemma MergedLeast(rules: Rules, a: SyncRecord, b: SyncRecord, x: SyncRecord)
    requires Good(rules, a) && Good(rules, b) && Below(rules, a, x) && Below(rules, b, x)
    ensures Below(rules, Merged(rules, a, b), x)
  {
    var m := Merged(rules, a, b);
    MergedShape(rules, a, b);
    ClockMax(a.clock, b.clock);
    hide Merged, LamportClock.Max, LamportClock.Le, CellLe, FieldOk;
    forall f | f in m.fields
      ensures f in x.fields && CellLe(rules.policy(f), m.fields[f], m.FieldClock(f), x.fields[f], x.FieldClock(f))
    {
      MergedField(rules, a, b, f);
      if f in a.fields && f in b.fields {
        CellLeast(rules, a, b, f, x.fields[f], x.FieldClock(f));
      }
    }
  }

  /** Versions that agree with both sides agree with the merge. */
  lemma MergedAgrees(rules: Rules, a: SyncRecord, b: SyncRecord, x: SyncRecord)
    requires Good(rules, a) && Good(rules, b) && Agree(rules, a, x) && Agree(rules, b, x)
    ensures Agree(rules, Merged(rules, a, b), x)
  {
    var m := Merged(rules, a, b);
    MergedShape(rules, a, b);
    hide Merged, FieldOk;
    forall f | f in m.fields && f in x.fields && rules.policy(f).LastWriterWins? && m.FieldClock(f) == x.FieldClock(f)
      ensures m.fields[f] == x.fields[f] {
      MergedField(rules, a, b, f);
    }
  }

  // ----- The semilattice laws

  lemma MergeCommutes(rules: Rules, a: SyncRecord, b: SyncRecord)
    requires Good(rules, a) && Good(rules, b) && Agree(rules, a, b)
    ensures Merged(rules, a, b) == Merged(rules, b, a)
  {
    var m, n := Merged(rules, a, b), Merged(rules, b, a);
    hide Merged, Good, Below;
    AgreeSym(rules, a, b);
    MergedGood(rules, a, b);
    MergedGood(rules, b, a);
    MergedAbove(rules, a, b);
    MergedAbove(rules, b, a);
    MergedLeast(rules, a, b, n);
    MergedLeast(rules, b, a, m);
    BelowAntisym(rules, m, n);
  }

  lemma AgreeSym(rules: Rules, a: SyncRecord, b: SyncRecord)
    requires Agree(rules, a, b)
    ensures Agree(rules, b, a)
  {
  }

  lemma MergeIdempotent(rules: Rules, a: SyncRecord)
    requires Good(rules, a)
    ensures Merged(rules, a, a) == a
  {
    BelowRefl(rules, a);
    Absorbs(rules, a, a);
  }

  /** Merging brings nothing new exactly when the incoming version is below the stored one. */
  lemma Absorbs(rules: Rules, a: SyncRecord, b: SyncRecord)
    requires Good(rules, a) && Good(rules, b) && Agree(rules, a, b)
    ensures Merged(rules, a, b) == a <==> Below(rules, b, a)
  {
    hide Merged, Good, Below;
    MergedGood(rules, a, b);
    MergedAbove(rules, a, b);
    if Below(rules, b, a) {
      BelowRefl(rules, a);
      MergedLeast(rules, a, b, a);
      BelowAntisym(rules, Merged(rules, a, b), a);
    }
  }

  lemma MergeAssociates(rules: Rules, a: SyncRecord, b: SyncRecord, c: SyncRecord)
    requires Good(rules, a) && Good(rules, b) && Good(rules, c)
    requires Agree(rules, a, b) && Agree(rules, a, c) && Agree(rules, b, c)
    ensures Merged(rules, Merged(rules, a, b), c) == Merged(rules, a, Merged(rules, b, c))
  {
    hide Merged, Good, Below, Agree;
    var ab, bc := Merged(rules, a, b), Merged(rules, b, c);
    MergedGood(rules, a, b);
    MergedGood(rules, b, c);
    MergedAgrees(rules, a, b, c);
    AgreeSym(rules, a, b);
    AgreeSym(rules, a, c);
    MergedAgrees(rules, b, c, a);
    AgreeSym(rules, bc, a);
    MergedGood(rules, ab, c);
    MergedGood(rules, a, bc);
    AllBelow(rules, a, b, c);
    var m, n := Merged(rules, ab, c), Merged(rules, a, bc);
    MergedLeast(rules, a, b, n);
    MergedLeast(rules, ab, c, n);
    MergedLeast(rules, b, c, m);
    MergedLeast(rules, a, bc, m);
    BelowAntisym(rules, m, n);
  }

  lemma AllBelow(rules: Rules, a: SyncRecord, b: SyncRecord, c: SyncRecord)
    requires Good(rules, a) && Good(rules, b) && Good(rules, c)
    requires Agree(rules, a, b) && Agree(rules, b, c)
    requires Agree(rules, Merged(rules, a, b), c) && Agree(rules, a, Merged(rules, b, c))
    ensures var m := Merged(rules, Merged(rules, a, b), c);
            Below(rules, a, m) && Below(rules, b, m) && Below(rules, c, m)
    ensures var n := Merged(rules, a, Merged(rules, b, c));
            Below(rules, a, n) && Below(rules, b, n) && Below(rules, c, n)
  {
    hide Merged, Good, Below, Agree;
    var ab, bc := Merged(rules, a, b), Merged(rules, b, c);
    var m, n := Merged(rules, ab, c), Merged(rules, a, bc);
    MergedGood(rules, a, b);
    MergedGood(rules, b, c);
    MergedAbove(rules, a, b);
    MergedAbove(rules, ab, c);
    MergedAbove(rules, b, c);
    MergedAbove(rules, a, bc);
    BelowTrans(rules, a, ab, m);
    BelowTrans(rules, b, ab, m);
    BelowTrans(rules, b, bc, n);
    BelowTrans(rules, c, bc, n);
  }
}
