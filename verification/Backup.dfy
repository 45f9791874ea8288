/** Snapshot restore and retention. */
module Backup {
  import opened Clocks
  import opened Values
  import opened SyncState

  // ----- Restore

  /** The snapshot's entries under fresh local clocks, counting up from `counter`. */
  function Reclocked(es: seq<Entry>, counter: u64, device: string): (r: seq<Entry>)
    ensures |r| == |es|
    decreases |es|
  {
    if es == [] then []
    else
      var next := SaturatingInc(counter);
      [Entry(es[0].key, es[0].value, LamportClock(next, device))] + Reclocked(es[1..], next, device)
  }

  /** What the snapshot holds: for a key listed twice the later value. */
  function Contents(es: seq<Entry>): map<string, Value>
    decreases |es|
  {
    if es == [] then map[] else map[es[0].key := es[0].value] + Contents(es[1..])
  }

  ghost predicate Below(m: Entries, c: nat) {
    forall k | k in m :: m[k].clock.counter <= c
  }

  /** `m` is `before` with the snapshot's contents laid over it, at clocks above `c` while there are any. */
  ghost predicate Overlaid(before: Entries, m: Entries, es: seq<Entry>, c: u64) {
    && m.Keys == before.Keys + Contents(es).Keys
    && (forall k | k in Contents(es) :: m[k].value == Contents(es)[k] && m[k].clock.counter >= SaturatingInc(c))
    && (forall k | k in before && k !in Contents(es) :: m[k] == before[k])
  }

  /** A clock at the counter's maximum would not prevail over what is held under this key. */
  predicate Blocked(m: Entries, key: string, device: string) {
    key in m && LamportClock(U64_MAX, device).Le(m[key].clock)
  }

  /** What the entries re-clocked at the counter's maximum meet: nothing held at or above that clock, and no earlier
      entry of the snapshot for the same key that got the very same clock. */
  ghost predicate Unblocked(m: Entries, c: u64, es: seq<Entry>, device: string) {
    forall i | 0 <= i < |es| && c + i >= U64_MAX ::
      && !Blocked(m, es[i].key, device)
      && forall j | 0 <= j < i && c + 1 + j >= U64_MAX :: es[j].key != es[i].key
  }

  lemma BelowTheMaximum(m: Entries, c: u64, es: seq<Entry>, device: string)
    requires c + |es| <= U64_MAX
    ensures Unblocked(m, c, es, device)
  {
  }

  /** One entry: accepted unless the counter is spent and the key is held at or above the clock that it gets. */
  lemma FirstAccepted(m: Entries, c: u64, e: Entry, device: string)
    requires Below(m, c)
    ensures var clock := LamportClock(SaturatingInc(c), device);
            (e.key in m && clock.Le(m[e.key].clock)) <==> c == U64_MAX && Blocked(m, e.key, device)
  {
  }

  lemma UnblockedStep(m: Entries, c: u64, es: seq<Entry>, device: string)
    requires es != [] && Below(m, c)
    ensures var next := SaturatingInc(c);
            var m' := m[es[0].key := Entry(es[0].key, es[0].value, LamportClock(next, device))];
            Unblocked(m, c, es, device) <==>
              !(c == U64_MAX && Blocked(m, es[0].key, device)) && Unblocked(m', next, es[1..], device)
  {
    var next := SaturatingInc(c);
    var m' := m[es[0].key := Entry(es[0].key, es[0].value, LamportClock(next, device))];
    LexRefl(device);
    if Unblocked(m, c, es, device) {
      if c == U64_MAX { assert c + 0 >= U64_MAX; }
      forall i | 0 <= i < |es[1..]| && next + i >= U64_MAX
        ensures !Blocked(m', es[1..][i].key, device)
        ensures forall j | 0 <= j < i && next + 1 + j >= U64_MAX :: es[1..][j].key != es[1..][i].key
      {
        assert es[1..][i] == es[i + 1];
        assert forall j | 0 <= j < i :: es[1..][j] == es[j + 1];
      }
    }
    if !(c == U64_MAX && Blocked(m, es[0].key, device)) && Unblocked(m', next, es[1..], device) {
      forall i | 0 <= i < |es| && c + i >= U64_MAX
        ensures !Blocked(m, es[i].key, device)
        ensures forall j | 0 <= j < i && c + 1 + j >= U64_MAX :: es[j].key != es[i].key
      {
        if i > 0 {
          assert es[1..][i - 1] == es[i];
          assert forall j | 0 < j < i :: es[1..][j - 1] == es[j];
        }
      }
    }
  }

  /** Where nothing is in the way, the snapshot's contents prevail. */
  lemma {:induction false} RestoreWins(m: Entries, c: u64, es: seq<Entry>, device: string)
    requires Below(m, c) && Unblocked(m, c, es, device)
    ensures Overlaid(m, PutAll(m, Reclocked(es, c, device)), es, c)
    decreases |es|
  {
    if es != [] {
      var next := SaturatingInc(c);
      var e := Entry(es[0].key, es[0].value, LamportClock(next, device));
      var rest := Reclocked(es[1..], next, device);
      UnblockedStep(m, c, es, device);
      FirstAccepted(m, c, e, device);
      RestoreWins(m[e.key := e], next, es[1..], device);
      assert ([e] + rest)[1..] == rest;
      hide Unblocked, Blocked;
      OverlaidStep(m, e, PutAll(m[e.key := e], rest), es, c);
    }
  }

  lemma {:induction false} AppliedAtMost(r: Replica, es: seq<Entry>)
    ensures r.Applied(es) <= |es|
    decreases |es|
  {
    if es != [] { AppliedAtMost(r.Apply(es[0], None), es[1..]); }
  }

  /** Every entry is accepted if and only if nothing is in the way. */
  lemma {:induction false} RestoreAcceptsIff(r: Replica, c: u64, es: seq<Entry>)
    requires Below(r.entries, c)
    ensures r.Applied(Reclocked(es, c, r.deviceId)) == |es| <==> Unblocked(r.entries, c, es, r.deviceId)
    decreases |es|
  {
    if es != [] {
      var next := SaturatingInc(c);
      var e := Entry(es[0].key, es[0].value, LamportClock(next, r.deviceId));
      var rest := Reclocked(es[1..], next, r.deviceId);
      UnblockedStep(r.entries, c, es, r.deviceId);
      FirstAccepted(r.entries, c, e, r.deviceId);
      MergeCons(r, e, rest, None);
      AppliedAtMost(r.Apply(e, None), rest);
      hide Unblocked, Blocked;
      if r.Accepts(e) {
        RestoreAcceptsIff(r.Apply(e, None), next, es[1..]);
      }
    }
  }

  /** Keys the snapshot does not hold are never touched. */
  lemma {:induction false} OthersStay(m: Entries, c: u64, es: seq<Entry>, device: string)
    ensures var after := PutAll(m, Reclocked(es, c, device));
            forall k | k in m && k !in Contents(es) :: k in after && after[k] == m[k]
    decreases |es|
  {
    if es != [] {
      var next := SaturatingInc(c);
      var e := Entry(es[0].key, es[0].value, LamportClock(next, device));
      var rest := Reclocked(es[1..], next, device);
      assert ([e] + rest)[1..] == rest;
      ContentsStep(es);
      OthersStay(Put(m, e), next, es[1..], device);
    }
  }

  lemma OverlaidStep(before: Entries, e: Entry, m: Entries, es: seq<Entry>, c: u64)
    requires es != [] && e.key == es[0].key && e.value == es[0].value && e.clock.counter == SaturatingInc(c)
    requires Overlaid(before[e.key := e], m, es[1..], SaturatingInc(c))
    ensures Overlaid(before, m, es, c)
  {
    ContentsStep(es);
  }

  lemma ContentsStep(es: seq<Entry>)
    requires es != []
    ensures Contents(es).Keys == {es[0].key} + Contents(es[1..]).Keys
    ensures forall k | k in Contents(es[1..]) :: Contents(es)[k] == Contents(es[1..])[k]
    ensures es[0].key !in Contents(es[1..]) ==> Contents(es)[es[0].key] == es[0].value
  {
  }

  method ReclockEntriesForRestore(state: State, es: seq<Entry>) returns (reclocked: seq<Entry>)
    modifies state`counter
    ensures reclocked == Reclocked(es, old(state.counter), state.deviceId)
    ensures state.counter >= old(state.counter)
    ensures old(state.counter) + |es| <= U64_MAX ==> state.counter == old(state.counter) + |es|
  {
    reclocked := [];
    assert es[0..] == es;
    for i := 0 to |es|
      invariant reclocked + Reclocked(es[i..], state.counter, state.deviceId)
             == Reclocked(es, old(state.counter), state.deviceId)
      invariant state.counter >= old(state.counter)
      invariant old(state.counter) + |es| <= U64_MAX ==> state.counter == old(state.counter) + i
    {
      assert es[i..][1..] == es[i + 1..];
      ghost var rest := Reclocked(es[i..], state.counter, state.deviceId);
      state.counter := SaturatingInc(state.counter);
      var e := Entry(es[i].key, es[i].value, LamportClock(state.counter, state.deviceId));
      assert rest == [e] + Reclocked(es[i + 1..], state.counter, state.deviceId);
      reclocked := reclocked + [e];
    }
  }

  datatype Outcome = Restored(applied: nat) | Refused

  /** Restoring through an adapter with the default `apply_entries`. Below the counter's maximum nothing is ever in
      the way. */
  method RestoreSnapshot(state: State, es: seq<Entry>, confirm: bool) returns (outcome: Outcome)
    requires state.Value().Valid()
    modifies state
    ensures !confirm ==> outcome == Refused && state.Value() == old(state.Value())
    ensures confirm ==> outcome.Restored? && state.Value().Valid()
    ensures confirm ==> (outcome.applied == |es| <==>
      Unblocked(old(state.entries), old(state.counter), es, old(state.deviceId)))
    ensures confirm && Unblocked(old(state.entries), old(state.counter), es, old(state.deviceId)) ==>
              Overlaid(old(state.entries), state.entries, es, old(state.counter))
    ensures confirm ==> forall k | k in old(state.entries) && k !in Contents(es) ::
              k in state.entries && state.entries[k] == old(state.entries)[k]
    ensures old(state.counter) + |es| <= U64_MAX ==>
      Unblocked(old(state.entries), old(state.counter), es, old(state.deviceId))
  {
    ghost var before := state.Value();
    RestoredAt(before, es);
    hide Replica.Valid, Below, Unblocked, Overlaid, Reclocked;
    if !confirm {
      return Refused;
    }
    var reclocked := ReclockEntriesForRestore(state, es);
    RestoreEffects(before, state.counter, es, state.inboundOrigin);
    var applied := state.MergeSnapshot(reclocked);
    outcome := Restored(applied);
  }

  lemma RestoredAt(before: Replica, es: seq<Entry>)
    requires before.Valid()
    ensures Below(before.entries, before.counter)
    ensures before.counter + |es| <= U64_MAX ==> Unblocked(before.entries, before.counter, es, before.deviceId)
  {
    if before.counter + |es| <= U64_MAX { BelowTheMaximum(before.entries, before.counter, es, before.deviceId); }
  }

  /** What merging the re-clocked snapshot does to the state, whose counter has moved on by then. */
  lemma RestoreEffects(before: Replica, counter: u64, es: seq<Entry>, origin: Option<string>)
    requires before.Valid() && counter >= before.counter
    ensures var r, incoming := before.(counter := counter), Reclocked(es, before.counter, before.deviceId);
            var after := r.Merge(incoming, origin);
            && after.Valid()
            && (r.Applied(incoming) == |es| <==> Unblocked(before.entries, before.counter, es, before.deviceId))
            && (Unblocked(before.entries, before.counter, es, before.deviceId) ==>
                  Overlaid(before.entries, after.entries, es, before.counter))
            && forall k | k in before.entries && k !in Contents(es) ::
                 k in after.entries && after.entries[k] == before.entries[k]
  {
    var r, incoming := before.(counter := counter), Reclocked(es, before.counter, before.deviceId);
    assert r.Valid() && Below(before.entries, before.counter);
    hide Replica.Valid, Below, Unblocked, Overlaid, Reclocked;
    if Unblocked(before.entries, before.counter, es, before.deviceId) {
      RestoreWins(before.entries, before.counter, es, before.deviceId);
    }
    OthersStay(before.entries, before.counter, es, before.deviceId);
    MergeEntries(r, incoming, origin);
    RestoreAcceptsIff(r, before.counter, es);
    MergeKeeps(r, incoming, origin);
  }
}
