/** Theorems about every run of the replication protocol. */
module Convergence {
  import opened Clocks
  import opened Values
  import opened SyncState
  import opened Replication

  ghost predicate Run(ss: seq<System>, steps: seq<Step>) {
    && |ss| == |steps| + 1
    && Init(ss[0])
    && forall i | 0 <= i < |steps| :: Next(ss[i], steps[i], ss[i + 1])
  }

  /** Nothing that device `d` ever stamped is held or on its way anywhere. */
  ghost predicate Forgotten(s: System, d: string) {
    forall e | Present(s, e) :: e.clock.device != d
  }

  /** A replica is only ever recreated once everything its device stamped is gone. */
  ghost predicate NoClockReused(ss: seq<System>, steps: seq<Step>)
    requires |ss| == |steps| + 1
  {
    forall i | 0 <= i < |steps| && steps[i].Recreate? :: Forgotten(ss[i + 1], steps[i].device)
  }

  ghost predicate Ends(s: System, ss: seq<System>, steps: seq<Step>) {
    Run(ss, steps) && ss[|steps|] == s
  }

  /** Some run ends in `s`; the stricter form allows a replica to be recreated on the way only where that reuses no
      clock still in use. */
  ghost predicate Reachable(s: System) {
    exists ss, steps :: Ends(s, ss, steps)
  }

  ghost predicate ReachableIntact(s: System) {
    exists ss, steps :: Ends(s, ss, steps) && NoClockReused(ss, steps)
  }

  lemma Extend(s: System, step: Step, s': System)
    requires Reachable(s) && Next(s, step, s')
    ensures Reachable(s')
    ensures ReachableIntact(s) && (step.Recreate? ==> Forgotten(s', step.device)) ==> ReachableIntact(s')
  {
    hide Next, Init, Forgotten;
    forall ss, steps | Ends(s, ss, steps) ensures Ends(s', ss + [s'], steps + [step]) {}
    var ss, steps :| Ends(s, ss, steps);
    assert Ends(s', ss + [s'], steps + [step]);
    if ReachableIntact(s) && (step.Recreate? ==> Forgotten(s', step.device)) {
      var ss, steps :| Ends(s, ss, steps) && NoClockReused(ss, steps);
      assert Ends(s', ss + [s'], steps + [step]) && NoClockReused(ss + [s'], steps + [step]);
    }
  }

  lemma {:induction false} RunInv(ss: seq<System>, steps: seq<Step>)
    requires Run(ss, steps)
    ensures Inv(ss[|steps|])
    decreases |steps|
  {
    if steps == [] {
      assert forall d, p | d in ss[0].replicas && p in ss[0].replicas :: ss[0].replicas[d].CursorFor(p) == NO_CURSOR;
    } else {
      var n := |steps| - 1;
      RunInv(ss[..n + 1], steps[..n]);
      NextKeeps(ss[n], steps[n], ss[n + 1]);
    }
  }

  /** In every reachable state, whenever a delta arrives, however late, merging it leaves the same
      entries as merging all the sender held when it produced the delta. */
  lemma DeltaIsAsGoodAsSnapshot(s: System, m: Delta, full: seq<Entry>, origin: Option<string>)
    requires Reachable(s) && m in s.deltas && Connected(s, m) && Lists(full, m.snapshot)
    ensures var r := s.replicas[m.to];
            && r.Merge(m.entries, origin).entries == r.Merge(full, origin).entries
            && r.Merge(full, origin).entries == Join(r.entries, m.snapshot)
  {
    ReachableInv(s);
    DeliveredJoin(s, m, origin);
    MergeIsJoin(s.replicas[m.to], full, m.snapshot, origin);
  }

  lemma ReachableInv(s: System)
    requires Reachable(s)
    ensures Inv(s)
  {
    var ss, steps :| Ends(s, ss, steps);
    RunInv(ss, steps);
  }

  lemma DeliveredJoin(s: System, m: Delta, origin: Option<string>)
    requires Inv(s) && m in s.deltas && Connected(s, m)
    ensures s.replicas[m.to].Merge(m.entries, origin).entries == Join(s.replicas[m.to].entries, m.snapshot)
  {
    var r := s.replicas[m.to];
    OmissionsAreHeld(r.entries, m.entries, m);
    MergeIsJoin(r, m.entries, map k | k in m.snapshot && m.snapshot[k] in m.entries :: m.snapshot[k], origin);
  }

  // ----- One clock, one entry

  ghost predicate Present(s: System, e: Entry) {
    || (exists d :: d in s.replicas && e.key in s.replicas[d].entries && s.replicas[d].entries[e.key] == e)
    || (exists m :: m in s.deltas && e.key in m.snapshot && m.snapshot[e.key] == e)
  }

  ghost predicate ClocksOk(s: System) {
    && (forall e | Present(s, e) ::
          e.clock.device in s.replicas && e.clock.counter <= s.replicas[e.clock.device].counter)
    && (forall e, f | Present(s, e) && Present(s, f) && e.clock == f.clock :: e == f)
  }

  lemma {:induction false} MergeOnlyFromInputs(r: Replica, es: seq<Entry>, origin: Option<string>)
    ensures forall k | k in r.Merge(es, origin).entries ::
              r.Merge(es, origin).entries[k] in es
              || (k in r.entries && r.Merge(es, origin).entries[k] == r.entries[k])
    decreases |es|
  {
    if es != [] {
      MergeOnlyFromInputs(r.Apply(es[0], origin), es[1..], origin);
    }
  }

  /** A step other than a local write puts no new entry anywhere. */
  lemma NoNewEntries(s: System, step: Step, s': System, e: Entry)
    requires Inv(s) && Next(s, step, s') && !step.Write? && Present(s', e)
    ensures Present(s, e)
  {
    if d :| d in s'.replicas && e.key in s'.replicas[d].entries && s'.replicas[d].entries[e.key] == e {
      if step.Deliver? && d == step.delta.to {
        MergeOnlyFromInputs(s.replicas[d], step.arranged, Some(step.delta.from));
        assert WellFormed(step.delta);
      }
    }
  }

  lemma CountersGrow(s: System, step: Step, s': System)
    requires Inv(s) && Next(s, step, s') && !step.Recreate?
    ensures s'.replicas.Keys == s.replicas.Keys
    ensures forall d | d in s.replicas :: s.replicas[d].counter <= s'.replicas[d].counter
  {
    if step.Deliver? {
      MergeKeeps(s.replicas[step.delta.to], step.arranged, Some(step.delta.from));
    }
  }

  lemma ClocksStayForgotten(s: System, d: string, epoch: string, s': System)
    requires Inv(s) && ClocksOk(s) && Next(s, Recreate(d, epoch), s') && Forgotten(s', d)
    ensures ClocksOk(s')
  {
    forall e | Present(s', e) ensures Present(s, e) {
      NoNewEntries(s, Recreate(d, epoch), s', e);
    }
  }

  lemma ClocksStay(s: System, step: Step, s': System)
    requires Inv(s) && ClocksOk(s) && Next(s, step, s') && (step.Recreate? ==> Forgotten(s', step.device))
    ensures ClocksOk(s')
  {
    if step.Recreate? {
      hide Inv;
      ClocksStayForgotten(s, step.device, step.freshEpoch, s');
      hide ClocksOk;
      return;
    }
    CountersGrow(s, step, s');
    if step.Write? {
      var made := s.replicas[step.device].NextEntry(step.key, step.value);
      forall e | Present(s', e) ensures Present(s, e) || e == made {}
    } else {
      forall e | Present(s', e) ensures Present(s, e) { NoNewEntries(s, step, s', e); }
    }
  }

  /** In every such run one clock names one entry wherever it turns up. */
  lemma OneClockOneEntry(s: System)
    requires ReachableIntact(s)
    ensures Inv(s) && ClocksOk(s)
  {
    var ss, steps :| Ends(s, ss, steps) && NoClockReused(ss, steps);
    hide Inv, ClocksOk, Next, Forgotten;
    RunInv(ss, steps);
    RunClocks(ss, steps);
  }

  lemma {:induction false} RunClocks(ss: seq<System>, steps: seq<Step>)
    requires Run(ss, steps) && NoClockReused(ss, steps)
    ensures ClocksOk(ss[|steps|])
    decreases |steps|
  {
    hide Inv, Next, Forgotten;
    if steps != [] {
      hide ClocksOk;
      var n := |steps| - 1;
      RunClocks(ss[..n + 1], steps[..n]);
      RunInv(ss[..n + 1], steps[..n]);
      ClocksStay(ss[n], steps[n], ss[n + 1]);
    }
  }

  // ----- A whole exchange

  ghost predicate CanPull(s: System, d: string, p: string, es: seq<Entry>) {
    && d in s.replicas && p in s.replicas && d != p
    && var r, q := s.replicas[d], s.replicas[p];
       && Lists(es, q.DeltaSince(q.Resolve(r.CursorFor(p)), Some(d)))
       && r.sequence + |es| <= U64_MAX
  }

  ghost function Asked(s: System, d: string, p: string): System
    requires d in s.replicas
  {
    s.(requests := s.requests + {Request(d, s.replicas[d].epoch, p, s.replicas[d].CursorFor(p))})
  }

  ghost function Sent(s: System, d: string, p: string, es: seq<Entry>): Delta
    requires d in s.replicas && p in s.replicas
  {
    Delta(d, s.replicas[d].epoch, p, s.replicas[p].CurrentCursor(), es, s.replicas[p].entries)
  }

  ghost function Delivered(s: System, m: Delta): System
    requires m.to in s.replicas
  {
    s.(replicas := s.replicas[m.to := s.replicas[m.to].Merge(m.entries, Some(m.from)).WithCursor(m.from, m.cursor)])
  }

  /** `d` pulls from `p`: request, answer and delivery with nothing in between. */
  ghost function Pulled(s: System, d: string, p: string, es: seq<Entry>): System
    requires d in s.replicas && p in s.replicas
  {
    var asked := Asked(s, d, p);
    Delivered(asked.(deltas := asked.deltas + {Sent(s, d, p, es)}), Sent(s, d, p, es))
  }

  lemma AskAnswer(s: System, d: string, p: string, es: seq<Entry>)
    requires Reachable(s) && CanPull(s, d, p, es)
    ensures var asked := Asked(s, d, p);
            var answered := asked.(deltas := asked.deltas + {Sent(s, d, p, es)});
            && Reachable(answered) && Connected(answered, Sent(s, d, p, es))
            && (ReachableIntact(s) ==> ReachableIntact(answered))
  {
    var q := Request(d, s.replicas[d].epoch, p, s.replicas[d].CursorFor(p));
    var asked := Asked(s, d, p);
    Extend(s, Ask(d, p), asked);
    var answered := asked.(deltas := asked.deltas + {Sent(s, d, p, es)});
    assert Next(asked, Answer(q, es), answered);
    Extend(asked, Answer(q, es), answered);
  }

  /** One pull gives the puller the join of both entries maps and touches nobody else. */
  lemma PullJoins(s: System, d: string, p: string, es: seq<Entry>)
    requires Reachable(s) && CanPull(s, d, p, es)
    ensures var u := Pulled(s, d, p, es);
            && Reachable(u) && (ReachableIntact(s) ==> ReachableIntact(u))
            && u.replicas[d].entries == Join(s.replicas[d].entries, s.replicas[p].entries)
            && u.replicas.Keys == s.replicas.Keys
            && forall x | x in s.replicas && x != d :: u.replicas[x] == s.replicas[x]
  {
    hide Reachable, ReachableIntact, Forgotten, Inv;
    AskAnswer(s, d, p, es);
    var asked, m := Asked(s, d, p), Sent(s, d, p, es);
    var answered := asked.(deltas := asked.deltas + {m});
    ReachableInv(answered);
    DeliveredJoin(answered, m, Some(m.from));
    assert Rearranged(es, es);
    Extend(answered, Deliver(m, es), Pulled(s, d, p, es));
  }

  ghost predicate Agree(a: Entries, b: Entries) {
    && Keyed(a) && Keyed(b)
    && forall k | k in a && k in b && a[k].clock == b[k].clock :: a[k] == b[k]
  }

  lemma ReplicasAgree(s: System, d: string, p: string)
    requires ReachableIntact(s) && d in s.replicas && p in s.replicas
    ensures Agree(s.replicas[d].entries, s.replicas[p].entries)
  {
    OneClockOneEntry(s);
    var a, b := s.replicas[d].entries, s.replicas[p].entries;
    forall k | k in a && k in b && a[k].clock == b[k].clock ensures a[k] == b[k] {
      assert Present(s, a[k]) && Present(s, b[k]);
    }
  }

  lemma JoinLaws(a: Entries, b: Entries)
    requires Agree(a, b)
    ensures Join(a, b) == Join(b, a)
    ensures Join(b, Join(a, b)) == Join(a, b)
  {
    ClockOrder();
  }

  /** If `a` pulls from `b` and then `b` pulls from `a`, they end with the same entries, values included. */
  lemma PullBothWaysAgrees(s: System, a: string, b: string, es: seq<Entry>, fs: seq<Entry>)
    requires ReachableIntact(s) && CanPull(s, a, b, es) && CanPull(Pulled(s, a, b, es), b, a, fs)
    ensures var u := Pulled(Pulled(s, a, b, es), b, a, fs);
            u.replicas[a].entries == u.replicas[b].entries
  {
    IntactIsReachable(s);
    PullJoins(s, a, b, es);
    PullJoins(Pulled(s, a, b, es), b, a, fs);
    ReplicasAgree(s, a, b);
    JoinLaws(s.replicas[a].entries, s.replicas[b].entries);
  }

  /** The two-way exchange of protocol version 2: the client computes its own delta before it merges the
      listener's, each side omits what came from the other, and still both end with the same entries. */
  lemma ExchangeAgrees(s: System, c: string, l: string, es: seq<Entry>, fs: seq<Entry>)
    requires ReachableIntact(s) && CanPull(s, c, l, es) && CanPull(s, l, c, fs)
    ensures var u := Delivered(Delivered(s, Sent(s, c, l, es)), Sent(s, l, c, fs));
            u.replicas[c].entries == u.replicas[l].entries
  {
    IntactIsReachable(s);
    PullJoins(s, c, l, es);
    PullJoins(s, l, c, fs);
    ReplicasAgree(s, c, l);
    JoinLaws(s.replicas[c].entries, s.replicas[l].entries);
  }

  // ----- A round of gossip through one hub

  predicate Listed(pulls: seq<(string, seq<Entry>)>, x: string) {
    exists i :: 0 <= i < |pulls| && pulls[i].0 == x
  }

  lemma ListedTail(pulls: seq<(string, seq<Entry>)>, x: string)
    requires pulls != []
    ensures Listed(pulls, x) <==> pulls[0].0 == x || Listed(pulls[1..], x)
  {
    if i :| 0 < i < |pulls| && pulls[i].0 == x {
      assert pulls[1..][i - 1].0 == x;
    }
    if Listed(pulls[1..], x) {
      var i :| 0 <= i < |pulls[1..]| && pulls[1..][i].0 == x;
      assert pulls[i + 1].0 == x;
    }
  }

  /** The hub pulls from the listed peers, one after another. */
  ghost predicate CanCollect(s: System, hub: string, pulls: seq<(string, seq<Entry>)>)
    decreases |pulls|
  {
    pulls == [] || (CanPull(s, hub, pulls[0].0, pulls[0].1)
                    && CanCollect(Pulled(s, hub, pulls[0].0, pulls[0].1), hub, pulls[1..]))
  }

  ghost function Collected(s: System, hub: string, pulls: seq<(string, seq<Entry>)>): System
    requires CanCollect(s, hub, pulls)
    decreases |pulls|
  {
    if pulls == [] then s else Collected(Pulled(s, hub, pulls[0].0, pulls[0].1), hub, pulls[1..])
  }

  /** The listed peers pull from the hub, one after another. */
  ghost predicate CanSpread(s: System, hub: string, pulls: seq<(string, seq<Entry>)>)
    decreases |pulls|
  {
    pulls == [] || (CanPull(s, pulls[0].0, hub, pulls[0].1)
                    && CanSpread(Pulled(s, pulls[0].0, hub, pulls[0].1), hub, pulls[1..]))
  }

  ghost function Spread(s: System, hub: string, pulls: seq<(string, seq<Entry>)>): System
    requires CanSpread(s, hub, pulls)
    decreases |pulls|
  {
    if pulls == [] then s else Spread(Pulled(s, pulls[0].0, hub, pulls[0].1), hub, pulls[1..])
  }

  ghost predicate Above(h: Entries, m: Entries) {
    forall k | k in m :: Holds(h, m[k])
  }

  /** The puller ends above its old self and above the peer; anyone it was above, it still is. */
  lemma PullAbove(s: System, d: string, p: string, es: seq<Entry>)
    requires Reachable(s) && CanPull(s, d, p, es)
    ensures var h := Pulled(s, d, p, es).replicas[d].entries;
            && Above(h, s.replicas[p].entries)
            && forall x | x in s.replicas && Above(s.replicas[d].entries, s.replicas[x].entries) ::
                 Above(h, s.replicas[x].entries)
  {
    ReachableInv(s);
    PullJoins(s, d, p, es);
    var a, b, h := s.replicas[d].entries, s.replicas[p].entries, Pulled(s, d, p, es).replicas[d].entries;
    JoinAbove(a, b);
    forall x | x in s.replicas && Above(a, s.replicas[x].entries) ensures Above(h, s.replicas[x].entries) {
      forall k | k in s.replicas[x].entries ensures Holds(h, s.replicas[x].entries[k]) {
        HoldsGrows(a, h, s.replicas[x].entries[k]);
      }
    }
  }

  lemma JoinAbove(a: Entries, b: Entries)
    requires Keyed(a) && Keyed(b)
    ensures Above(Join(a, b), a) && Above(Join(a, b), b)
  {
    ClockOrder();
  }

  lemma JoinBelow(a: Entries, h: Entries)
    requires Agree(a, h) && Above(h, a)
    ensures Join(a, h) == h
  {
    ClockOrder();
  }

  lemma HubIsAboveItself(s: System, hub: string)
    requires Reachable(s) && hub in s.replicas
    ensures Above(s.replicas[hub].entries, s.replicas[hub].entries)
  {
    ReachableInv(s);
    ClockOrder();
  }

  /** Everyone the hub was above, and everyone it pulled from, it ends above. */
  lemma {:induction false} HubCollects(s: System, hub: string, pulls: seq<(string, seq<Entry>)>)
    requires ReachableIntact(s) && Reachable(s) && hub in s.replicas && CanCollect(s, hub, pulls)
    ensures var u := Collected(s, hub, pulls);
            && ReachableIntact(u) && Reachable(u) && u.replicas.Keys == s.replicas.Keys
            && (forall x | x in s.replicas && x != hub :: u.replicas[x] == s.replicas[x])
            && (forall x | x in s.replicas && x != hub
                  && (Above(s.replicas[hub].entries, s.replicas[x].entries)
                      || Listed(pulls, x)) ::
                  Above(u.replicas[hub].entries, s.replicas[x].entries))
    decreases |pulls|
  {
    hide Reachable, ReachableIntact;
    if pulls != [] {
      var p, es := pulls[0].0, pulls[0].1;
      var t := Pulled(s, hub, p, es);
      PullJoins(s, hub, p, es);
      PullAbove(s, hub, p, es);
      hide Above, Pulled, CanPull, Listed;
      HubCollects(t, hub, pulls[1..]);
      forall x | x in s.replicas && x != hub
        && (Above(s.replicas[hub].entries, s.replicas[x].entries) || Listed(pulls, x))
        ensures Above(Collected(s, hub, pulls).replicas[hub].entries, s.replicas[x].entries)
      {
        ListedTail(pulls, x);
      }
    }
  }

  /** A peer below the hub that pulls from it ends equal to it. */
  lemma PullEquals(s: System, p: string, hub: string, es: seq<Entry>)
    requires ReachableIntact(s) && Reachable(s) && CanPull(s, p, hub, es)
    requires Above(s.replicas[hub].entries, s.replicas[p].entries)
    ensures Pulled(s, p, hub, es).replicas[p].entries == s.replicas[hub].entries
  {
    PullJoins(s, p, hub, es);
    ReplicasAgree(s, p, hub);
    JoinBelow(s.replicas[p].entries, s.replicas[hub].entries);
  }

  lemma {:induction false} HubSpreads(s: System, hub: string, pulls: seq<(string, seq<Entry>)>)
    requires ReachableIntact(s) && Reachable(s) && hub in s.replicas && CanSpread(s, hub, pulls)
    requires forall x | x in s.replicas && x != hub :: Above(s.replicas[hub].entries, s.replicas[x].entries)
    ensures var u := Spread(s, hub, pulls);
            && u.replicas.Keys == s.replicas.Keys
            && (forall x | x in s.replicas
                  && (s.replicas[x].entries == s.replicas[hub].entries
                      || Listed(pulls, x)) ::
                  u.replicas[x].entries == s.replicas[hub].entries)
    decreases |pulls|
  {
    hide Reachable, ReachableIntact;
    if pulls != [] {
      var p, es := pulls[0].0, pulls[0].1;
      var t := Pulled(s, p, hub, es);
      PullJoins(s, p, hub, es);
      PullEquals(s, p, hub, es);
      HubIsAboveItself(s, hub);
      hide Above, Pulled, CanPull, Listed;
      HubSpreads(t, hub, pulls[1..]);
      forall x | x in s.replicas
        && (s.replicas[x].entries == s.replicas[hub].entries || Listed(pulls, x))
        ensures Spread(s, hub, pulls).replicas[x].entries == s.replicas[hub].entries
      {
        ListedTail(pulls, x);
      }
    }
  }

  /** From any such state, once a hub has pulled from everyone and everyone has pulled from the hub,
      all replicas hold the same entries. */
  lemma {:induction false} GossipConverges(
    s: System, hub: string, collect: seq<(string, seq<Entry>)>, spread: seq<(string, seq<Entry>)>)
    requires ReachableIntact(s) && hub in s.replicas
    requires CanCollect(s, hub, collect) && CanSpread(Collected(s, hub, collect), hub, spread)
    requires forall x | x in s.replicas && x != hub :: Listed(collect, x)
    requires forall x | x in s.replicas && x != hub :: Listed(spread, x)
    ensures var u := Spread(Collected(s, hub, collect), hub, spread);
            forall x, y | x in u.replicas && y in u.replicas :: u.replicas[x].entries == u.replicas[y].entries
  {
    IntactIsReachable(s);
    hide Above, Listed, Reachable, ReachableIntact;
    HubCollects(s, hub, collect);
    HubSpreads(Collected(s, hub, collect), hub, spread);
  }

  lemma IntactIsReachable(s: System)
    requires ReachableIntact(s)
    ensures Reachable(s)
  {
    var ss, steps :| Ends(s, ss, steps) && NoClockReused(ss, steps);
  }

  // ----- What the guards of a step are for

  /** A write shows up in the delta from the position before it exactly when the sequence did not saturate. */
  lemma WriteIsInDelta(r: Replica, k: string, v: Value)
    requires r.Valid()
    ensures k in r.Set(k, v).DeltaSince(r.sequence, None) <==> r.sequence < U64_MAX
  {
  }

  /** Two writes in a row carry different clocks exactly when the counter did not saturate. */
  lemma WritesAreTold(r: Replica, k: string, v: Value, w: Value)
    ensures r.NextEntry(k, v).clock != r.Set(k, v).NextEntry(k, w).clock <==> r.counter < U64_MAX - 1
  {
  }

  /** A recreated replica counts from zero again. Until it has passed the counter under which a peer holds one of its
      device's earlier entries, the peer refuses what it writes for that key; the write just before reuses that very
      clock. That is what recreation must wait for. */
  lemma RecreationReusesClocks(peer: Replica, r: Replica, k: string, v: Value)
    requires k in peer.entries && peer.entries[k].clock.device == r.deviceId && r.counter < U64_MAX
    ensures peer.Accepts(r.NextEntry(k, v)) <==> peer.entries[k].clock.counter <= r.counter
    ensures r.NextEntry(k, v).clock == peer.entries[k].clock <==> peer.entries[k].clock.counter == r.counter + 1
  {
    LexRefl(r.deviceId);
  }

  /** Why a delta dies with its sender: `a` answers with its entry and is then recreated; the new `a` pulls
      from `p` before the old answer reaches `p`. From then on `p` withholds the entry as `a`'s own, and `a`
      does not have it. */
  lemma LateDeltaFromDeadSenderIsLost(v: Value)
    ensures var e := Fresh("a", "e1").NextEntry("k", v);
            var p := Fresh("p", "ep");
            var a := Fresh("a", "e2").WithCursor("p", p.CurrentCursor());
            var late := p.Merge([e], Some("a"));
            && late.entries == map["k" := e] && a.entries == map[]
            && late.DeltaSince(late.Resolve(a.CursorFor("p")), Some("a")) == map[]
  {
    var e := Fresh("a", "e1").NextEntry("k", v);
    var p := Fresh("p", "ep");
    assert p.Merge([e], Some("a")) == p.Apply(e, Some("a")).Merge([], Some("a"));
  }
}
