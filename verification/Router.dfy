/** Splitting what comes in among the adapters by who claims the key; each adapter here merges its share by the
    default rule. */
module Router {
  import opened Clocks
  import opened SyncState

  /** The registered adapters in id order, each by the keys it owns. */
  type Adapters = seq<string -> bool>

  /** Index of the first adapter that owns `key`; one past the end when nobody does. */
  function Owner(adapters: Adapters, key: string): (i: nat)
    ensures i <= |adapters|
    ensures i < |adapters| ==> adapters[i](key)
    ensures forall j | 0 <= j < i :: !adapters[j](key)
    decreases |adapters|
  {
    if adapters == [] then 0 else if adapters[0](key) then 0 else 1 + Owner(adapters[1..], key)
  }

  /** The entries whose owner index lies in `lo..hi`, in arrival order. */
  function Bucket(adapters: Adapters, es: seq<Entry>, lo: nat, hi: nat): (b: seq<Entry>)
    ensures forall e | e in b :: lo <= Owner(adapters, e.key) < hi
    decreases |es|
  {
    if es == [] then []
    else (if lo <= Owner(adapters, es[0].key) < hi then [es[0]] else []) + Bucket(adapters, es[1..], lo, hi)
  }

  // ----- What a merge leaves behind, but for which key got which sequence number

  datatype Outcome = Outcome(entries: Entries, counter: u64, sequence: u64, applied: nat) {
    predicate Accepts(e: Entry) {
      e.key in entries ==> !e.clock.Le(entries[e.key].clock)
    }

    function Step(e: Entry): Outcome {
      var top := if e.clock.counter > counter then e.clock.counter else counter;
      if Accepts(e) then Outcome(entries[e.key := e], top, SaturatingInc(sequence), applied + 1)
      else this.(counter := top)
    }

    function Steps(es: seq<Entry>): Outcome
      decreases |es|
    {
      if es == [] then this else Step(es[0]).Steps(es[1..])
    }
  }

  function OutcomeOf(r: Replica, applied: nat): Outcome {
    Outcome(r.entries, r.counter, r.sequence, applied)
  }

  lemma ApplyOutcome(r: Replica, e: Entry, o: Option<string>, n: nat)
    ensures OutcomeOf(r, n).Step(e) == OutcomeOf(r.Apply(e, o), if r.Accepts(e) then n + 1 else n)
  {
  }

  lemma SameEntries(r: Replica, e: Entry, o: Option<string>)
    ensures r.Apply(e, o).entries == r.Apply(e, None).entries
  {
  }

  lemma {:induction false} MergeOutcome(r: Replica, es: seq<Entry>, o: Option<string>, n: nat)
    ensures OutcomeOf(r, n).Steps(es) == OutcomeOf(r.Merge(es, o), n + r.Applied(es))
    decreases |es|
  {
    if es != [] {
      var r1 := r.Apply(es[0], o);
      ApplyOutcome(r, es[0], o, n);
      hide Replica.Apply, Replica.Accepts, Outcome.Step, OutcomeOf;
      MergeOutcome(r1, es[1..], o, if r.Accepts(es[0]) then n + 1 else n);
      SameEntries(r, es[0], o);
      AppliedIgnoresOrigin(r1, r.Apply(es[0], None), es[1..]);
    }
  }

  lemma Swap(c: Outcome, a: Entry, b: Entry)
    requires a.key != b.key
    ensures c.Step(a).Step(b) == c.Step(b).Step(a)
  {
    if c.Accepts(a) && c.Accepts(b) {
      assert c.entries[a.key := a][b.key := b] == c.entries[b.key := b][a.key := a];
    }
  }

  /** An entry may be merged after any entries for other keys instead of before them. */
  lemma {:induction false} MovePast(c: Outcome, a: Entry, xs: seq<Entry>)
    requires forall e | e in xs :: e.key != a.key
    ensures c.Step(a).Steps(xs) == c.Steps(xs).Step(a)
    decreases |xs|
  {
    if xs != [] {
      Swap(c, a, xs[0]);
      MovePast(c.Step(xs[0]), a, xs[1..]);
    }
  }

  /** Splitting off one range of owners, in order, does not change the outcome. */
  lemma {:induction false} SplitSame(c: Outcome, adapters: Adapters, es: seq<Entry>, lo: nat, mid: nat, hi: nat)
    requires lo <= mid <= hi
    ensures c.Steps(Bucket(adapters, es, lo, hi))
         == c.Steps(Bucket(adapters, es, lo, mid)).Steps(Bucket(adapters, es, mid, hi))
    decreases |es|
  {
    if es != [] {
      var x, i := es[0], Owner(adapters, es[0].key);
      var front, back := Bucket(adapters, es[1..], lo, mid), Bucket(adapters, es[1..], mid, hi);
      var all := Bucket(adapters, es[1..], lo, hi);
      BucketStep(adapters, es, lo, hi);
      BucketStep(adapters, es, lo, mid);
      BucketStep(adapters, es, mid, hi);
      if i < lo || hi <= i {
        SplitSame(c, adapters, es[1..], lo, mid, hi);
      } else {
        SplitSame(c.Step(x), adapters, es[1..], lo, mid, hi);
        if i < mid { SplitFront(c, x, all, front, back); } else { SplitBack(c, x, all, front, back); }
      }
    }
  }

  lemma BucketStep(adapters: Adapters, es: seq<Entry>, lo: nat, hi: nat)
    requires es != []
    ensures var rest := Bucket(adapters, es[1..], lo, hi);
            Bucket(adapters, es, lo, hi) == if lo <= Owner(adapters, es[0].key) < hi then [es[0]] + rest else rest
  {
  }

  lemma SplitFront(c: Outcome, x: Entry, all: seq<Entry>, front: seq<Entry>, back: seq<Entry>)
    requires c.Step(x).Steps(all) == c.Step(x).Steps(front).Steps(back)
    ensures c.Steps([x] + all) == c.Steps([x] + front).Steps(back)
  {
    StepsFront(c, x, all);
    StepsFront(c, x, front);
  }

  lemma SplitBack(c: Outcome, x: Entry, all: seq<Entry>, front: seq<Entry>, back: seq<Entry>)
    requires c.Step(x).Steps(all) == c.Step(x).Steps(front).Steps(back)
    requires forall e | e in front :: e.key != x.key
    ensures c.Steps([x] + all) == c.Steps(front).Steps([x] + back)
  {
    StepsFront(c, x, all);
    MovePast(c, x, front);
    StepsFront(c.Steps(front), x, back);
  }

  lemma StepsFront(c: Outcome, x: Entry, xs: seq<Entry>)
    ensures c.Steps([x] + xs) == c.Step(x).Steps(xs)
  {
    assert ([x] + xs)[1..] == xs;
  }

  lemma {:induction false} BucketAll(adapters: Adapters, es: seq<Entry>)
    ensures Bucket(adapters, es, 0, |adapters| + 1) == es
    decreases |es|
  {
    if es != [] { BucketAll(adapters, es[1..]); }
  }

  lemma {:induction false} BucketAppend(adapters: Adapters, es: seq<Entry>, e: Entry, lo: nat, hi: nat)
    ensures Bucket(adapters, es + [e], lo, hi)
         == Bucket(adapters, es, lo, hi) + (if lo <= Owner(adapters, e.key) < hi then [e] else [])
    decreases |es|
  {
    hide Owner;
    if es == [] {
      assert [] + [e] == [e] && [e][1..] == [];
    } else {
      assert (es + [e])[0] == es[0] && (es + [e])[1..] == es[1..] + [e];
      BucketAppend(adapters, es[1..], e, lo, hi);
    }
  }

  /** The state is that of merging the same entries in another order; and entries, counter, sequence and applied
      count come out as if the list had been merged unrouted, ties between clocks included. */
  method ApplyInbound(adapters: Adapters, state: State, incoming: seq<Entry>)
    returns (applied: nat, ghost arranged: seq<Entry>)
    modifies state
    ensures state.Value() == old(state.Value()).Merge(arranged, state.inboundOrigin)
    ensures forall e :: e in arranged <==> e in incoming
    ensures EachKeyOnce(incoming) ==> Rearranged(incoming, arranged)
    ensures var unrouted := old(state.Value()).Merge(incoming, state.inboundOrigin);
            && state.entries == unrouted.entries && state.counter == unrouted.counter
            && state.sequence == unrouted.sequence
    ensures applied == old(state.Value()).Applied(incoming)
    ensures state.inboundOrigin == old(state.inboundOrigin)
  {
    var buckets := FillBuckets(adapters, incoming);
    arranged := Flat(buckets, 0);
    hide Filled, Bucket, Rearranged, EachKeyOnce, Flat, Replica.Merge, Replica.Applied;
    FlatArranged(adapters, incoming, buckets);
    RoutedMerge(state.Value(), adapters, incoming, buckets, state.inboundOrigin);
    applied := MergeBuckets(state, buckets);
  }

  lemma RoutedMerge(r: Replica, adapters: Adapters, es: seq<Entry>, buckets: seq<seq<Entry>>, o: Option<string>)
    requires Filled(adapters, es, buckets)
    ensures var routed, unrouted := r.Merge(Flat(buckets, 0), o), r.Merge(es, o);
            && routed.entries == unrouted.entries && routed.counter == unrouted.counter
            && routed.sequence == unrouted.sequence && r.Applied(Flat(buckets, 0)) == r.Applied(es)
  {
    hide Filled, Flat, Replica.Merge, Replica.Applied, Outcome.Steps;
    FlatSame(OutcomeOf(r, 0), adapters, es, buckets);
    MergeOutcome(r, es, o, 0);
    MergeOutcome(r, Flat(buckets, 0), o, 0);
  }

  ghost predicate EachKeyOnce(es: seq<Entry>) {
    forall i, j | 0 <= i < j < |es| :: es[i].key != es[j].key
  }

  ghost predicate Filled(adapters: Adapters, es: seq<Entry>, buckets: seq<seq<Entry>>) {
    |buckets| == |adapters| + 1 && forall j | 0 <= j <= |adapters| :: buckets[j] == Bucket(adapters, es, j, j + 1)
  }

  /** The buckets end to end, from the `i`-th on. */
  function Flat(buckets: seq<seq<Entry>>, i: nat): seq<Entry>
    decreases |buckets| - i
  {
    if i >= |buckets| then [] else buckets[i] + Flat(buckets, i + 1)
  }

  lemma {:induction false} StepsAppend(c: Outcome, a: seq<Entry>, b: seq<Entry>)
    ensures c.Steps(a + b) == c.Steps(a).Steps(b)
    decreases |a|
  {
    if a == [] {
      assert a + b == b;
    } else {
      assert (a + b)[0] == a[0] && (a + b)[1..] == a[1..] + b;
      StepsAppend(c.Step(a[0]), a[1..], b);
    }
  }

  lemma {:induction false} FlatSteps(c: Outcome, buckets: seq<seq<Entry>>, i: nat)
    requires i <= |buckets|
    ensures c.Steps(Flat(buckets, i)) == BucketSteps(c, buckets, i)
    decreases |buckets| - i
  {
    hide Outcome.Step;
    if i < |buckets| {
      StepsAppend(c, buckets[i], Flat(buckets, i + 1));
      FlatSteps(c.Steps(buckets[i]), buckets, i + 1);
    }
  }

  lemma FlatSame(c: Outcome, adapters: Adapters, es: seq<Entry>, buckets: seq<seq<Entry>>)
    requires Filled(adapters, es, buckets)
    ensures c.Steps(Flat(buckets, 0)) == c.Steps(es)
  {
    hide Outcome.Steps, Outcome.Step, Bucket;
    FlatSteps(c, buckets, 0);
    AllBuckets(c, adapters, es, buckets, 0);
    BucketAll(adapters, es);
  }

  lemma {:induction false} BucketMembers(adapters: Adapters, es: seq<Entry>, lo: nat, hi: nat)
    ensures forall e :: e in Bucket(adapters, es, lo, hi) <==> e in es && lo <= Owner(adapters, e.key) < hi
    decreases |es|
  {
    hide Owner;
    if es != [] {
      BucketMembers(adapters, es[1..], lo, hi);
      assert es == [es[0]] + es[1..];
    }
  }

  lemma {:induction false} BucketKeys(adapters: Adapters, es: seq<Entry>, lo: nat, hi: nat)
    requires EachKeyOnce(es)
    ensures EachKeyOnce(Bucket(adapters, es, lo, hi))
    decreases |es|
  {
    if es != [] {
      var rest := es[1..];
      assert forall i | 0 <= i < |rest| :: rest[i] == es[i + 1];
      BucketKeys(adapters, rest, lo, hi);
      BucketMembers(adapters, rest, lo, hi);
      BucketStep(adapters, es, lo, hi);
      hide Bucket, Owner;
      KeysApart([es[0]], Bucket(adapters, rest, lo, hi));
    }
  }

  lemma KeysApart(a: seq<Entry>, b: seq<Entry>)
    requires EachKeyOnce(a) && EachKeyOnce(b) && forall x, y | x in a && y in b :: x.key != y.key
    ensures EachKeyOnce(a + b)
  {
  }

  lemma {:induction false} FlatFrom(adapters: Adapters, es: seq<Entry>, buckets: seq<seq<Entry>>, i: nat)
    requires Filled(adapters, es, buckets) && i <= |buckets|
    ensures forall e :: e in Flat(buckets, i) <==> e in es && i <= Owner(adapters, e.key)
    ensures EachKeyOnce(es) ==> EachKeyOnce(Flat(buckets, i))
    decreases |buckets| - i
  {
    hide Owner, Bucket;
    if i < |buckets| {
      BucketMembers(adapters, es, i, i + 1);
      FlatFrom(adapters, es, buckets, i + 1);
      if EachKeyOnce(es) {
        BucketKeys(adapters, es, i, i + 1);
        KeysApart(buckets[i], Flat(buckets, i + 1));
      }
    }
  }

  lemma FlatArranged(adapters: Adapters, es: seq<Entry>, buckets: seq<seq<Entry>>)
    requires Filled(adapters, es, buckets)
    ensures forall e :: e in Flat(buckets, 0) <==> e in es
    ensures EachKeyOnce(es) ==> Rearranged(es, Flat(buckets, 0))
  {
    hide Owner, Bucket, Flat;
    FlatFrom(adapters, es, buckets, 0);
  }

  /** Buckets merged one after another, from the `i`-th on. */
  function BucketSteps(c: Outcome, buckets: seq<seq<Entry>>, i: nat): Outcome
    decreases |buckets| - i
  {
    if i >= |buckets| then c else BucketSteps(c.Steps(buckets[i]), buckets, i + 1)
  }

  lemma NoSteps(c: Outcome)
    ensures c.Steps([]) == c
  {
  }

  lemma {:induction false} AllBuckets(c: Outcome, adapters: Adapters, es: seq<Entry>, buckets: seq<seq<Entry>>, i: nat)
    requires i <= |buckets| == |adapters| + 1
    requires forall j | 0 <= j <= |adapters| :: buckets[j] == Bucket(adapters, es, j, j + 1)
    ensures BucketSteps(c, buckets, i) == c.Steps(Bucket(adapters, es, i, |adapters| + 1))
    decreases |buckets| - i
  {
    hide Outcome.Steps, Bucket;
    if i == |buckets| {
      EmptyBucket(adapters, es, i);
      NoSteps(c);
    } else {
      NextBucket(c, adapters, es, i, |adapters| + 1);
      AllBuckets(c.Steps(buckets[i]), adapters, es, buckets, i + 1);
    }
  }

  lemma {:induction false} MergeAppend(r: Replica, a: seq<Entry>, b: seq<Entry>, o: Option<string>)
    ensures r.Merge(a + b, o) == r.Merge(a, o).Merge(b, o)
    ensures r.Applied(a + b) == r.Applied(a) + r.Merge(a, o).Applied(b)
    decreases |a|
  {
    if a == [] {
      assert a + b == b;
    } else {
      assert (a + b)[0] == a[0] && (a + b)[1..] == a[1..] + b;
      MergeAppend(r.Apply(a[0], o), a[1..], b, o);
      SameEntries(r, a[0], o);
      AppliedIgnoresOrigin(r.Apply(a[0], o), r.Apply(a[0], None), a[1..] + b);
      AppliedIgnoresOrigin(r.Apply(a[0], o), r.Apply(a[0], None), a[1..]);
    }
  }

  method MergeBuckets(state: State, buckets: seq<seq<Entry>>) returns (applied: nat)
    modifies state
    ensures state.inboundOrigin == old(state.inboundOrigin)
    ensures state.Value() == old(state.Value()).Merge(Flat(buckets, 0), state.inboundOrigin)
    ensures applied == old(state.Value()).Applied(Flat(buckets, 0))
  {
    applied := 0;
    for i := 0 to |buckets|
      invariant state.inboundOrigin == old(state.inboundOrigin)
      invariant state.Value().Merge(Flat(buckets, i), state.inboundOrigin)
             == old(state.Value()).Merge(Flat(buckets, 0), state.inboundOrigin)
      invariant applied + state.Value().Applied(Flat(buckets, i)) == old(state.Value()).Applied(Flat(buckets, 0))
    {
      MergeAppend(state.Value(), buckets[i], Flat(buckets, i + 1), state.inboundOrigin);
      hide Replica.Merge, Replica.Applied;
      var count := ApplyEntries(state, buckets[i]);
      applied := applied + count;
    }
  }

  lemma NextBucket(c: Outcome, adapters: Adapters, es: seq<Entry>, i: nat, n: nat)
    requires i < n
    ensures c.Steps(Bucket(adapters, es, i, i + 1)).Steps(Bucket(adapters, es, i + 1, n))
         == c.Steps(Bucket(adapters, es, i, n))
  {
    SplitSame(c, adapters, es, i, i + 1, n);
  }

  /** The default `apply_entries`, skipped for an empty bucket. */
  method ApplyEntries(state: State, bucket: seq<Entry>) returns (applied: nat)
    modifies state
    ensures state.inboundOrigin == old(state.inboundOrigin)
    ensures state.Value() == old(state.Value()).Merge(bucket, state.inboundOrigin)
    ensures applied == old(state.Value()).Applied(bucket)
  {
    applied := 0;
    if bucket != [] {
      applied := state.MergeSnapshot(bucket);
    }
  }

  lemma {:induction false} EmptyBucket(adapters: Adapters, es: seq<Entry>, i: nat)
    ensures Bucket(adapters, es, i, i) == []
    decreases |es|
  {
    if es != [] { EmptyBucket(adapters, es[1..], i); }
  }

  /** One bucket per adapter, and last the entries nobody owns. */
  method FillBuckets(adapters: Adapters, incoming: seq<Entry>) returns (buckets: seq<seq<Entry>>)
    ensures Filled(adapters, incoming, buckets)
  {
    buckets := seq(|adapters| + 1, _ => []);
    for n := 0 to |incoming|
      invariant |buckets| == |adapters| + 1
      invariant forall i | 0 <= i <= |adapters| :: buckets[i] == Bucket(adapters, incoming[..n], i, i + 1)
    {
      var owner := 0;
      while owner < |adapters| && !adapters[owner](incoming[n].key)
        invariant 0 <= owner <= |adapters|
        invariant forall j | 0 <= j < owner :: !adapters[j](incoming[n].key)
      {
        owner := owner + 1;
      }
      OwnerIsFirst(adapters, incoming[n].key, owner);
      ghost var before := buckets;
      buckets := buckets[owner := buckets[owner] + [incoming[n]]];
      forall i | 0 <= i <= |adapters|
        ensures buckets[i] == Bucket(adapters, incoming[..n + 1], i, i + 1)
      {
        assert incoming[..n + 1] == incoming[..n] + [incoming[n]];
        BucketAppend(adapters, incoming[..n], incoming[n], i, i + 1);
        assert before[i] == Bucket(adapters, incoming[..n], i, i + 1);
      }
    }
    assert incoming[..|incoming|] == incoming;
  }

  lemma OwnerIsFirst(adapters: Adapters, key: string, i: nat)
    requires i <= |adapters| && (i < |adapters| ==> adapters[i](key)) && forall j | 0 <= j < i :: !adapters[j](key)
    ensures Owner(adapters, key) == i
  {
  }
}
