/** Delta exchange between any number of replicas, over every interleaving of local writes, requests,
    answers, deliveries (late, repeated or never) and replicas recreated with a fresh epoch. */
module Replication {
  import opened Clocks
  import opened Values
  import opened SyncState

  /** A cursor on its way to the peer it points into: a client's request, or a listener's
      acknowledgement that the client sizes its own delta by. */
  datatype Request = Request(from: string, fromEpoch: string, to: string, cursor: PeerCursor)

  /** A delta on its way. `snapshot` is what the sender held when it produced `entries`; it is not sent. */
  datatype Delta = Delta(
    to: string, toEpoch: string, from: string, cursor: PeerCursor, entries: seq<Entry>, snapshot: Entries)

  datatype System = System(
    replicas: map<string, Replica>,
    requests: set<Request>,
    deltas: set<Delta>,
    epochs: set<string>)

  datatype Step =
    | Write(device: string, key: string, value: Value)
    | Ask(device: string, peer: string)
    | Answer(request: Request, listing: seq<Entry>)
    | Deliver(delta: Delta, arranged: seq<Entry>)
    | Recreate(device: string, freshEpoch: string)

  ghost predicate Init(s: System) {
    && s.requests == {} && s.deltas == {}
    && "" in s.epochs
    && forall d | d in s.replicas :: s.replicas[d].epoch in s.epochs && s.replicas[d] == Fresh(d, s.replicas[d].epoch)
  }

  function Answered(p: Replica, q: Request): Entries {
    p.DeltaSince(p.Resolve(q.cursor), Some(q.from))
  }

  /** A connection lives as long as both of its ends keep their state. */
  ghost predicate Connected(s: System, m: Delta) {
    && m.to in s.replicas && m.from in s.replicas
    && s.replicas[m.to].epoch == m.toEpoch
    && s.replicas[m.from].epoch == m.cursor.epoch
  }

  /** One step. Additions on counters and sequences are taken below the point where they saturate. */
  ghost predicate Next(s: System, step: Step, s': System) {
    match step
    case Write(d, k, v) =>
      && d in s.replicas
      && s.replicas[d].counter < U64_MAX && s.replicas[d].sequence < U64_MAX
      && s' == s.(replicas := s.replicas[d := s.replicas[d].Set(k, v)])
    case Ask(d, p) =>
      && d in s.replicas && p in s.replicas && d != p
      && s' == s.(requests := s.requests + {Request(d, s.replicas[d].epoch, p, s.replicas[d].CursorFor(p))})
    case Answer(q, es) =>
      && q in s.requests && q.to in s.replicas
      && var p := s.replicas[q.to];
         && Lists(es, Answered(p, q))
         && s' == s.(deltas := s.deltas + {Delta(q.from, q.fromEpoch, q.to, p.CurrentCursor(), es, p.entries)})
    case Deliver(m, arranged) =>
      // routing by adapter merges the entries in another order than they were listed in
      && m in s.deltas && Connected(s, m) && Rearranged(m.entries, arranged)
      && var r := s.replicas[m.to];
         && r.sequence + |arranged| <= U64_MAX
         && s' == s.(replicas := s.replicas[m.to := r.Merge(arranged, Some(m.from)).WithCursor(m.from, m.cursor)])
    case Recreate(d, e) =>
      && d in s.replicas && e !in s.epochs
      && s' == s.(replicas := s.replicas[d := Fresh(d, e)], epochs := s.epochs + {e})
  }

  // ----- The invariant

  ghost predicate Holds(m: Entries, e: Entry) {
    e.key in m && e.clock.Le(m[e.key].clock)
  }

  /** `r` holds, at an equal or greater clock, what `p` wrote up to `clock` and what `p` had from `r`. */
  ghost predicate Covers(r: Replica, p: Replica, clock: u64)
    requires p.Valid()
  {
    forall k | k in p.entries && (p.sequences[k] <= clock || p.OriginOf(k) == Some(r.deviceId)) ::
      Holds(r.entries, p.entries[k])
  }

  ghost predicate CursorOk(r: Replica, p: Replica, c: PeerCursor)
    requires p.Valid()
  {
    c.epoch == p.epoch && c.clock > 0 ==> c.clock <= p.sequence && Covers(r, p, c.clock)
  }

  ghost predicate DeltaOk(r: Replica, p: Replica, m: Delta)
    requires p.Valid()
  {
    && 0 < m.cursor.clock <= p.sequence
    && (forall k | k in p.entries && p.sequences[k] <= m.cursor.clock ::
          k in m.snapshot && m.snapshot[k] == p.entries[k])
    && (forall k | k in p.entries && p.sequences[k] > m.cursor.clock && p.OriginOf(k) == Some(r.deviceId) ::
          Holds(r.entries, p.entries[k]))
    && (forall k | k in m.snapshot :: Holds(p.entries, m.snapshot[k]))
    && (forall k | k in m.snapshot :: m.snapshot[k] in m.entries || Holds(r.entries, m.snapshot[k]))
  }

  /** Independent of who is alive: the listing is a part of the snapshot, each key once. */
  ghost predicate WellFormed(m: Delta) {
    && Keyed(m.snapshot)
    && (forall e | e in m.entries :: e.key in m.snapshot && m.snapshot[e.key] == e)
    && (forall i, j | 0 <= i < j < |m.entries| :: m.entries[i].key != m.entries[j].key)
  }

  ghost predicate ReplicasOk(s: System) {
    && "" in s.epochs
    && forall d | d in s.replicas ::
         && s.replicas[d].Valid() && s.replicas[d].deviceId == d && s.replicas[d].epoch in s.epochs
         && forall p | p in s.replicas[d].cursors :: s.replicas[d].cursors[p].epoch in s.epochs
  }

  ghost predicate CursorsOk(s: System)
    requires ReplicasOk(s)
  {
    forall d, p | d in s.replicas && p in s.replicas && d != p ::
      CursorOk(s.replicas[d], s.replicas[p], s.replicas[d].CursorFor(p))
  }

  ghost predicate RequestsOk(s: System)
    requires ReplicasOk(s)
  {
    forall q | q in s.requests ::
      && q.from in s.replicas && q.to in s.replicas && q.from != q.to
      && q.fromEpoch in s.epochs && q.cursor.epoch in s.epochs
      && (s.replicas[q.from].epoch == q.fromEpoch ==> CursorOk(s.replicas[q.from], s.replicas[q.to], q.cursor))
  }

  ghost predicate DeltasOk(s: System)
    requires ReplicasOk(s)
  {
    forall m | m in s.deltas ::
      && WellFormed(m) && m.from != m.to && m.toEpoch in s.epochs && m.cursor.epoch in s.epochs
      && (Connected(s, m) ==> DeltaOk(s.replicas[m.to], s.replicas[m.from], m))
  }

  ghost predicate Inv(s: System) {
    ReplicasOk(s) && CursorsOk(s) && RequestsOk(s) && DeltasOk(s)
  }

  // ----- Steps that only add to replicas

  /** `r'` is `r` after more writes: nothing lost or lowered, and whatever changed has a later sequence. */
  ghost predicate Grows(r: Replica, r': Replica)
    requires r.Valid() && r'.Valid()
  {
    && r'.deviceId == r.deviceId && r'.epoch == r.epoch && r.sequence <= r'.sequence
    && (forall k | k in r.entries :: Holds(r'.entries, r.entries[k]))
    && (forall k | k in r'.entries && r'.sequences[k] <= r.sequence ::
          && k in r.entries && r'.entries[k] == r.entries[k]
          && r'.sequences[k] == r.sequences[k] && r'.OriginOf(k) == r.OriginOf(k))
  }

  /** Whatever `p` newly wrote on behalf of `r` is something `r` holds. */
  ghost predicate NewFrom(p: Replica, p': Replica, r: Replica)
    requires p'.Valid()
  {
    forall k | k in p'.entries && p'.sequences[k] > p.sequence && p'.OriginOf(k) == Some(r.deviceId) ::
      Holds(r.entries, p'.entries[k])
  }

  lemma HoldsGrows(m: Entries, m': Entries, e: Entry)
    requires Holds(m, e) && Holds(m', m[e.key])
    requires m[e.key].key == e.key
    ensures Holds(m', e)
  {
    ClockTrans(e.clock, m[e.key].clock, m'[e.key].clock);
  }

  lemma CursorGrows(r: Replica, r': Replica, p: Replica, p': Replica, c: PeerCursor)
    requires r.Valid() && r'.Valid() && p.Valid() && p'.Valid()
    requires Grows(r, r') && Grows(p, p') && NewFrom(p, p', r')
    requires CursorOk(r, p, c)
    ensures CursorOk(r', p', c)
  {
    if c.epoch == p'.epoch && c.clock > 0 {
      forall k | k in p'.entries && (p'.sequences[k] <= c.clock || p'.OriginOf(k) == Some(r.deviceId))
        ensures Holds(r'.entries, p'.entries[k])
      {
        if p'.sequences[k] <= p.sequence {
          HoldsGrows(r.entries, r'.entries, p.entries[k]);
        }
      }
    }
  }

  lemma DeltaGrows(r: Replica, r': Replica, p: Replica, p': Replica, m: Delta)
    requires r.Valid() && r'.Valid() && p.Valid() && p'.Valid() && WellFormed(m)
    requires Grows(r, r') && Grows(p, p') && NewFrom(p, p', r')
    requires DeltaOk(r, p, m)
    ensures DeltaOk(r', p', m)
  {
    forall k | k in m.snapshot
      ensures Holds(p'.entries, m.snapshot[k])
      ensures m.snapshot[k] in m.entries || Holds(r'.entries, m.snapshot[k])
    {
      HoldsGrows(p.entries, p'.entries, m.snapshot[k]);
      if m.snapshot[k] !in m.entries { HoldsGrows(r.entries, r'.entries, m.snapshot[k]); }
    }
    forall k | k in p'.entries && p'.sequences[k] > m.cursor.clock && p'.OriginOf(k) == Some(r.deviceId)
      ensures Holds(r'.entries, p'.entries[k])
    {
      if p'.sequences[k] <= p.sequence {
        HoldsGrows(r.entries, r'.entries, p.entries[k]);
      }
    }
  }

  lemma SetGrows(r: Replica, k: string, v: Value)
    requires r.Valid() && r.counter < U64_MAX && r.sequence < U64_MAX
    ensures r.Set(k, v).Valid() && Grows(r, r.Set(k, v))
    ensures forall j | j in r.Set(k, v).entries && r.Set(k, v).sequences[j] > r.sequence ::
              j == k && r.Set(k, v).OriginOf(j) == None
  {
    ClockOrder();
  }

  lemma ApplyGrows(r: Replica, e: Entry, from: string)
    requires r.Valid() && r.sequence < U64_MAX
    ensures r.Apply(e, Some(from)).Valid() && Grows(r, r.Apply(e, Some(from)))
    ensures r.Apply(e, Some(from)).sequence <= r.sequence + 1
    ensures forall k | k in r.Apply(e, Some(from)).entries && r.Apply(e, Some(from)).sequences[k] > r.sequence ::
              r.Apply(e, Some(from)).OriginOf(k) == Some(from) && r.Apply(e, Some(from)).entries[k] == e
  {
    ApplyKeeps(r, e, Some(from));
  }

  lemma GrowsTrans(a: Replica, b: Replica, c: Replica)
    requires a.Valid() && b.Valid() && c.Valid() && Grows(a, b) && Grows(b, c)
    ensures Grows(a, c)
  {
    forall k | k in a.entries ensures Holds(c.entries, a.entries[k]) {
      HoldsGrows(b.entries, c.entries, a.entries[k]);
    }
  }

  lemma GrowsRefl(a: Replica)
    requires a.Valid()
    ensures Grows(a, a)
  {
    ClockOrder();
  }

  lemma {:induction false} MergeGrows(r: Replica, es: seq<Entry>, from: string)
    requires r.Valid() && r.sequence + |es| <= U64_MAX
    ensures var r' := r.Merge(es, Some(from));
            && r'.Valid() && Grows(r, r') && r'.cursors == r.cursors
            && forall k | k in r'.entries && r'.sequences[k] > r.sequence ::
                 r'.OriginOf(k) == Some(from) && r'.entries[k] in es
    decreases |es|
  {
    if es == [] {
      GrowsRefl(r);
    } else {
      var r1 := r.Apply(es[0], Some(from));
      ApplyGrows(r, es[0], from);
      MergeGrows(r1, es[1..], from);
      var r2 := r1.Merge(es[1..], Some(from));
      GrowsTrans(r, r1, r2);
      forall k | k in r2.entries && r2.sequences[k] > r.sequence
        ensures r2.OriginOf(k) == Some(from) && r2.entries[k] in es
      {
        if r2.sequences[k] <= r1.sequence { assert r2.entries[k] == es[0]; }
      }
    }
  }

  /** A delta together with what the requester already holds amounts to the whole snapshot. */
  lemma OmissionsAreHeld(a: Entries, es: seq<Entry>, m: Delta)
    requires WellFormed(m) && es == m.entries && Keyed(a)
    requires forall k | k in m.snapshot :: m.snapshot[k] in es || Holds(a, m.snapshot[k])
    ensures Join(a, map k | k in m.snapshot && m.snapshot[k] in es :: m.snapshot[k]) == Join(a, m.snapshot)
    ensures Lists(es, map k | k in m.snapshot && m.snapshot[k] in es :: m.snapshot[k])
  {
    var part := map k | k in m.snapshot && m.snapshot[k] in es :: m.snapshot[k];
    var left, right := Join(a, part), Join(a, m.snapshot);
    assert left.Keys == right.Keys;
    forall k | k in right ensures left[k] == right[k] {}
  }

  // ----- Each step keeps the invariant

  /** A change that only adds writes, none of them on behalf of a device that does not hold them. */
  ghost predicate OnlyAdds(s: System, s': System)
    requires ReplicasOk(s) && ReplicasOk(s')
  {
    && s'.replicas.Keys == s.replicas.Keys && s'.epochs == s.epochs
    && (forall d | d in s.replicas :: Grows(s.replicas[d], s'.replicas[d]))
    && (forall d, p | d in s.replicas && p in s.replicas && d != p ::
          NewFrom(s.replicas[p], s'.replicas[p], s'.replicas[d]))
  }

  lemma AddingKeepsMessages(s: System, s': System)
    requires Inv(s) && ReplicasOk(s') && OnlyAdds(s, s')
    requires s'.requests == s.requests && s'.deltas == s.deltas
    ensures RequestsOk(s') && DeltasOk(s')
    ensures forall d, p | d in s.replicas && p in s.replicas && d != p ::
              CursorOk(s'.replicas[d], s'.replicas[p], s.replicas[d].CursorFor(p))
  {
    forall d, p | d in s.replicas && p in s.replicas && d != p
      ensures CursorOk(s'.replicas[d], s'.replicas[p], s.replicas[d].CursorFor(p))
    {
      CursorGrows(s.replicas[d], s'.replicas[d], s.replicas[p], s'.replicas[p], s.replicas[d].CursorFor(p));
    }
    forall q | q in s.requests && s'.replicas[q.from].epoch == q.fromEpoch
      ensures CursorOk(s'.replicas[q.from], s'.replicas[q.to], q.cursor)
    {
      CursorGrows(s.replicas[q.from], s'.replicas[q.from], s.replicas[q.to], s'.replicas[q.to], q.cursor);
    }
    forall m | m in s.deltas && Connected(s', m)
      ensures DeltaOk(s'.replicas[m.to], s'.replicas[m.from], m)
    {
      assert Connected(s, m);
      DeltaGrows(s.replicas[m.to], s'.replicas[m.to], s.replicas[m.from], s'.replicas[m.from], m);
    }
  }

  /** Replacing one replica by a grown version of itself keeps the invariant. */
  lemma ReplaceKeeps(s: System, d: string, r': Replica)
    requires Inv(s) && d in s.replicas && r'.Valid() && Grows(s.replicas[d], r')
    requires forall p | p in r'.cursors :: r'.cursors[p].epoch in s.epochs
    requires forall x | x in s.replicas && x != d :: NewFrom(s.replicas[d], r', s.replicas[x])
    requires forall x | x in s.replicas && x != d ::
               r'.CursorFor(x) == s.replicas[d].CursorFor(x) || CursorOk(r', s.replicas[x], r'.CursorFor(x))
    ensures Inv(s.(replicas := s.replicas[d := r']))
  {
    var s' := s.(replicas := s.replicas[d := r']);
    assert ReplicasOk(s') by { hide CursorsOk, RequestsOk, DeltasOk, NewFrom, CursorOk; }
    hide CursorOk, Grows, NewFrom, OnlyAdds, RequestsOk, DeltasOk;
    OneGrows(s, d, r', s');
    AddingKeepsMessages(s, s');
    ReplacedCursors(s, d, r', s');
  }

  lemma ReplacedCursors(s: System, d: string, r': Replica, s': System)
    requires ReplicasOk(s) && ReplicasOk(s') && d in s.replicas && s' == s.(replicas := s.replicas[d := r'])
    requires forall x, p | x in s.replicas && p in s.replicas && x != p ::
               CursorOk(s'.replicas[x], s'.replicas[p], s.replicas[x].CursorFor(p))
    requires forall x | x in s.replicas && x != d ::
               r'.CursorFor(x) == s.replicas[d].CursorFor(x) || CursorOk(r', s.replicas[x], r'.CursorFor(x))
    ensures CursorsOk(s')
  {
    hide CursorOk;
    forall x, p | x in s'.replicas && p in s'.replicas && x != p
      ensures CursorOk(s'.replicas[x], s'.replicas[p], s'.replicas[x].CursorFor(p))
    {
      assert CursorOk(s'.replicas[x], s'.replicas[p], s.replicas[x].CursorFor(p));
    }
  }

  lemma NothingNew(p: Replica, r: Replica)
    requires p.Valid()
    ensures NewFrom(p, p, r)
  {
  }

  lemma OneGrows(s: System, d: string, r': Replica, s': System)
    requires ReplicasOk(s) && ReplicasOk(s') && d in s.replicas && s' == s.(replicas := s.replicas[d := r'])
    requires r'.Valid() && Grows(s.replicas[d], r')
    requires forall x | x in s.replicas && x != d :: NewFrom(s.replicas[d], r', s.replicas[x])
    ensures OnlyAdds(s, s')
  {
    forall x | x in s.replicas ensures Grows(s.replicas[x], s'.replicas[x]) {
      GrowsRefl(s.replicas[x]);
    }
    forall x, p | x in s.replicas && p in s.replicas && x != p
      ensures NewFrom(s.replicas[p], s'.replicas[p], s'.replicas[x]) {
      if p != d { NothingNew(s.replicas[p], s'.replicas[x]); }
    }
    hide Grows, NewFrom, ReplicasOk;
  }

  lemma WriteKeeps(s: System, d: string, k: string, v: Value, s': System)
    requires Inv(s) && Next(s, Write(d, k, v), s')
    ensures Inv(s')
  {
    SetGrows(s.replicas[d], k, v);
    ReplaceKeeps(s, d, s.replicas[d].Set(k, v));
  }

  lemma DeliverKeeps(s: System, m: Delta, arranged: seq<Entry>, s': System)
    requires Inv(s) && Next(s, Deliver(m, arranged), s')
    ensures Inv(s')
  {
    var r, p := s.replicas[m.to], s.replicas[m.from];
    ArrangedOk(r, p, m, arranged);
    DeliveredGrows(r, p, m.(entries := arranged));
    hide WellFormed, DeltaOk, Rearranged;
    ReplaceKeeps(s, m.to, r.Merge(arranged, Some(m.from)).WithCursor(m.from, m.cursor));
  }

  lemma ArrangedOk(r: Replica, p: Replica, m: Delta, arranged: seq<Entry>)
    requires p.Valid() && WellFormed(m) && DeltaOk(r, p, m) && Rearranged(m.entries, arranged)
    ensures WellFormed(m.(entries := arranged)) && DeltaOk(r, p, m.(entries := arranged))
  {
  }

  lemma DeliveredGrows(r: Replica, p: Replica, m: Delta)
    requires r.Valid() && p.Valid() && WellFormed(m) && DeltaOk(r, p, m) && p.deviceId == m.from
    requires r.sequence + |m.entries| <= U64_MAX
    ensures var r' := r.Merge(m.entries, Some(m.from)).WithCursor(m.from, m.cursor);
            && r'.Valid() && Grows(r, r') && NewFrom(r, r', p) && CursorOk(r', p, m.cursor)
            && r'.cursors == r.cursors[m.from := m.cursor]
            && forall x: Replica | x.deviceId != m.from :: NewFrom(r, r', x)
  {
    MergeGrows(r, m.entries, m.from);
    DeliveredCovers(r, p, m);
    DeliveredFromSender(r, p, m);
  }

  lemma DeliveredFromSender(r: Replica, p: Replica, m: Delta)
    requires r.Valid() && p.Valid() && WellFormed(m) && DeltaOk(r, p, m)
    requires r.sequence + |m.entries| <= U64_MAX
    requires r.Merge(m.entries, Some(m.from)).Valid()
    ensures var r1 := r.Merge(m.entries, Some(m.from));
            forall k | k in r1.entries && r1.sequences[k] > r.sequence ::
              r1.OriginOf(k) == Some(m.from) && Holds(p.entries, r1.entries[k])
  {
    MergeGrows(r, m.entries, m.from);
  }

  /** After the delta is applied, the sender's position is a cursor the receiver may keep. */
  lemma DeliveredCovers(r: Replica, p: Replica, m: Delta)
    requires r.Valid() && p.Valid() && WellFormed(m) && DeltaOk(r, p, m)
    requires r.sequence + |m.entries| <= U64_MAX
    ensures Covers(r.Merge(m.entries, Some(m.from)), p, m.cursor.clock)
  {
    var r1 := r.Merge(m.entries, Some(m.from));
    MergeGrows(r, m.entries, m.from);
    OmissionsAreHeld(r.entries, m.entries, m);
    var part := map k | k in m.snapshot && m.snapshot[k] in m.entries :: m.snapshot[k];
    MergeIsJoin(r, m.entries, part, Some(m.from));
    ClockOrder();
    forall k | k in p.entries && (p.sequences[k] <= m.cursor.clock || p.OriginOf(k) == Some(r.deviceId))
      ensures Holds(r1.entries, p.entries[k])
    {
      if p.sequences[k] > m.cursor.clock {
        HoldsGrows(r.entries, r1.entries, p.entries[k]);
      }
    }
  }

  lemma AskKeeps(s: System, d: string, p: string, s': System)
    requires Inv(s) && Next(s, Ask(d, p), s')
    ensures Inv(s')
  {
    assert forall m | m in s'.deltas :: Connected(s', m) <==> Connected(s, m);
  }

  lemma AnswerKeeps(s: System, q: Request, es: seq<Entry>, s': System)
    requires Inv(s) && Next(s, Answer(q, es), s')
    ensures Inv(s')
  {
    var p := s.replicas[q.to];
    var m := Delta(q.from, q.fromEpoch, q.to, p.CurrentCursor(), es, p.entries);
    if Connected(s', m) {
      AnswerOk(s.replicas[q.from], p, q, m);
    }
    forall x | x in s'.deltas && x != m && Connected(s', x)
      ensures DeltaOk(s'.replicas[x.to], s'.replicas[x.from], x)
    {
      assert Connected(s, x);
    }
  }

  /** A fresh answer lists everything the requester might lack. */
  lemma AnswerOk(r: Replica, p: Replica, q: Request, m: Delta)
    requires r.Valid() && p.Valid() && r.deviceId == q.from && CursorOk(r, p, q.cursor)
    requires m.cursor == p.CurrentCursor() && m.snapshot == p.entries && Lists(m.entries, Answered(p, q))
    ensures DeltaOk(r, p, m)
  {
    ClockOrder();
    var delta := Answered(p, q);
    forall k | k in p.entries ensures p.entries[k] in m.entries || Holds(r.entries, p.entries[k]) {
      if k in delta { assert delta[k] in m.entries; }
    }
  }

  lemma RecreateKeeps(s: System, d: string, e: string, s': System)
    requires Inv(s) && Next(s, Recreate(d, e), s')
    ensures Inv(s')
  {
    assert ReplicasOk(s');
    RecreateKeepsCursors(s, d, e, s');
    RecreateKeepsDeltas(s, d, e, s');
  }

  lemma RecreateKeepsCursors(s: System, d: string, e: string, s': System)
    requires Inv(s) && Next(s, Recreate(d, e), s') && ReplicasOk(s')
    ensures CursorsOk(s') && RequestsOk(s')
  {
    forall x, p | x in s'.replicas && p in s'.replicas && x != p
      ensures CursorOk(s'.replicas[x], s'.replicas[p], s'.replicas[x].CursorFor(p))
    {
      assert CursorOk(s.replicas[x], s.replicas[p], s.replicas[x].CursorFor(p));
    }
  }

  lemma RecreateKeepsDeltas(s: System, d: string, e: string, s': System)
    requires Inv(s) && Next(s, Recreate(d, e), s') && ReplicasOk(s')
    ensures DeltasOk(s')
  {
    forall m | m in s'.deltas && Connected(s', m)
      ensures DeltaOk(s'.replicas[m.to], s'.replicas[m.from], m)
    {
      assert m.to != d && m.from != d && Connected(s, m);
    }
  }

  lemma NextKeeps(s: System, step: Step, s': System)
    requires Inv(s) && Next(s, step, s')
    ensures Inv(s')
  {
    match step
    case Write(d, k, v) => WriteKeeps(s, d, k, v, s');
    case Ask(d, p) => AskKeeps(s, d, p, s');
    case Answer(q, es) => AnswerKeeps(s, q, es, s');
    case Deliver(m, arranged) => DeliverKeeps(s, m, arranged, s');
    case Recreate(d, e) => RecreateKeeps(s, d, e, s');
  }
}
