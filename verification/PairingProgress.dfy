/** Nothing in the guards of the handshake stands in the way of two devices that are left undisturbed. */
module PairingProgress {
  import opened Clocks
  import opened Invitations
  import opened Pairing
  import opened PairingSafety
  import opened PairingRuns
  import opened PairingHistory

  /** One attempt: who, over which invitation, with which transcript, session numbers and time of day, and whether
      the joiner asks for a repair. */
  datatype Attempt = Attempt(
    n: Node, c: Node, inv: Invitation, t: Transcript, sid: nat, cid: nat, now: nat, repair: bool)

  /** Two different devices that fit the invitation, each telling the truth about itself. */
  ghost predicate Fit(s: System, p: Attempt) {
    && p.n != p.c && p.n in s.profiles && p.c in s.profiles
    && p.n in s.stores && p.c in s.stores && p.n in s.managers && p.inv.id in s.claims && p.inv.id in s.commits
    && p.inv.inviter == p.n && p.now < p.inv.expiresAt
    && s.profiles[p.n].metadata.manifest == p.inv.metadata.manifest == s.profiles[p.c].metadata.manifest
    && ValidIdentity(s.profiles[p.n].identity, s.profiles[p.n].metadata)
    && ValidIdentity(s.profiles[p.c].identity, s.profiles[p.c].metadata)
    && s.profiles[p.n].identity.deviceId != s.profiles[p.c].identity.deviceId
    && p.t.identity == s.profiles[p.n].identity && p.t.metadata == s.profiles[p.n].metadata
    && p.t.hello.invitation == p.inv.id && p.t.hello.client == p.c && p.t.hello.server == p.n
    && p.t.hello.identity == s.profiles[p.c].identity && p.t.hello.metadata == s.profiles[p.c].metadata
  }

  function Joiner(p: Attempt): Outcome {
    Outcome(p.t.hello.identity, p.t.hello.metadata, p.c)
  }

  /** Neither durable store stands against the enrollment: the inviter does not bar the joiner, the joiner bars the
      inviter only if it asks to repair it, and it is in no group under another key. */
  ghost predicate Free(s: System, p: Attempt)
    requires p.n in s.stores && p.c in s.stores
  {
    && !Barred(s.stores[p.n], Joiner(p)) && p.inv.id !in s.stores[p.n].prepared
    && (Barred(s.stores[p.c], OutcomeOf(p.t)) ==> p.repair)
    && (p.repair ==> p.t.identity.deviceId in s.stores[p.c].peers)
    && p.inv.id !in s.stores[p.c].enrolled
    && (s.stores[p.n].key != s.stores[p.c].key ==> !HasLive(s.stores[p.c]))
  }

  ghost predicate Open(s: System, p: Attempt) {
    && Fit(s, p) && Free(s, p) && IsOpen(s.managers[p.n], p.inv.id, p.now)
    && s.managers[p.n][p.inv.id].invitation == p.inv && p.sid !in s.servers && p.cid !in s.clients
  }

  function ServerHandler(s: System, p: Attempt): Handler
    requires p.n in s.stores
  {
    Handler(s.stores[p.n].generation, None, false, false)
  }

  function ClientHandler(s: System, p: Attempt): Handler
    requires p.c in s.stores
  {
    Handler(s.stores[p.c].generation, Some(p.t.identity), false, p.repair)
  }

  /** Where both sessions stand; neither has been outdated. */
  ghost predicate Along(s: System, p: Attempt, cp: ClientPhase, sp: ServerPhase) {
    && Fit(s, p)
    && p.cid in s.clients && s.clients[p.cid] == ClientSession(p.c, p.inv, p.t.hello, cp, ClientHandler(s, p))
    && p.sid in s.servers && s.servers[p.sid] == ServerSession(p.n, p.inv, p.t, sp, ServerHandler(s, p))
  }

  ghost predicate Held(s: System, p: Attempt) {
    && p.n in s.managers && p.inv.id in s.managers[p.n]
    && s.managers[p.n][p.inv.id].claimed && s.managers[p.n][p.inv.id].invitation == p.inv
  }

  predicate Heard(s: System, p: Attempt, purpose: Purpose, key: Option<string>) {
    Tag(purpose, p.inv.secret, p.t, key) in s.tags
  }

  /** Both devices hold and trust each other under this invitation, with one key. */
  ghost predicate Paired(s: System, p: Attempt) {
    && p.n in s.stores && p.c in s.stores
    && p.inv.id in s.stores[p.n].enrolled && s.stores[p.n].enrolled[p.inv.id] == Joiner(p)
    && p.inv.id in s.stores[p.c].enrolled && s.stores[p.c].enrolled[p.inv.id] == OutcomeOf(p.t)
    && Trusts(s.stores[p.n], Joiner(p)) && Trusts(s.stores[p.c], OutcomeOf(p.t))
    && s.stores[p.n].key == s.stores[p.c].key
  }

  function Starting(p: Attempt): Step {
    StartLink(p.cid, p.c, p.inv, p.t.identity, p.repair, p.t.hello.pake, p.now)
  }

  lemma Greet(s: System, p: Attempt) returns (mid: System, s': System)
    requires Open(s, p)
    ensures Next(s, Starting(p), mid)
    ensures Next(mid, AcceptHello(p.sid, p.n, p.t.hello, p.t.pake, p.now), s')
    ensures Along(s', p, Greeted, Challenged) && Held(s', p) && Free(s', p) && Heard(s', p, ServerConfirm, None)
    ensures s'.stores == s.stores && s'.journaled == s.journaled && s'.profiles == s.profiles
  {
    hide Barred, HasLive;
    mid := s.(clients := s.clients[p.cid := ClientSession(p.c, p.inv, p.t.hello, Greeted, ClientHandler(s, p))]);
    var claimed := Claim(s.managers[p.n], p.inv.id, p.now).value;
    s' := mid.(managers := s.managers[p.n := claimed], claims := s.claims[p.inv.id := s.claims[p.inv.id] + 1],
               servers := s.servers[p.sid := ServerSession(p.n, p.inv, p.t, Challenged, ServerHandler(s, p))],
               tags := s.tags + {Tag(ServerConfirm, p.inv.secret, p.t, None)});
  }

  lemma Confirming(s: System, p: Attempt) returns (mid: System, s': System)
    requires Along(s, p, Greeted, Challenged) && Held(s, p) && Free(s, p) && Heard(s, p, ServerConfirm, None)
    ensures Next(s, Step.Confirm(p.cid, p.t), mid) && Next(mid, Step.Ready(p.sid, p.now), s')
    ensures Along(s', p, Confirmed(p.t), Readied) && Held(s', p) && Free(s', p) && Heard(s', p, ServerReady, None)
    ensures s'.stores == s.stores && s'.journaled == s.journaled && s'.profiles == s.profiles
  {
    hide Barred, HasLive;
    mid := s.(clients := s.clients[p.cid := s.clients[p.cid].(phase := Confirmed(p.t))],
              tags := s.tags + {Tag(ClientConfirm, p.inv.secret, p.t, None)});
    s' := mid.(servers := mid.servers[p.sid := mid.servers[p.sid].(phase := Readied)],
               tags := mid.tags + {Tag(ServerReady, p.inv.secret, p.t, None)});
  }

  /** The joiner's store once it has journaled. */
  function Noted(s: System, p: Attempt): Store
    requires p.c in s.stores
  {
    Journal(s.stores[p.c], p.inv.id, OutcomeOf(p.t), s.stores[p.c].generation)
  }

  lemma Journaling(s: System, p: Attempt) returns (mid: System, s': System)
    requires Along(s, p, Confirmed(p.t), Readied) && Held(s, p) && Free(s, p) && Heard(s, p, ServerReady, None)
    ensures Next(s, Step.Prepare(p.cid), mid) && Next(mid, Step.Prove(p.cid, p.now), s')
    ensures Along(s', p, Proved(p.t), Readied) && Held(s', p) && Heard(s', p, ClientPrepared, None)
    ensures s'.stores == s.stores[p.c := Noted(s, p)] && s'.profiles == s.profiles
    ensures s'.journaled == s.journaled + {Fact(p.c, p.inv.id, OutcomeOf(p.t))}
  {
    hide Barred, HasLive;
    mid := s.(clients := s.clients[p.cid := s.clients[p.cid].(phase := Journaled(p.t))],
              journaled := s.journaled + {Fact(p.c, p.inv.id, OutcomeOf(p.t))},
              stores := s.stores[p.c := Noted(s, p)]);
    s' := mid.(clients := mid.clients[p.cid := mid.clients[p.cid].(phase := Proved(p.t))],
               tags := mid.tags + {Tag(ClientPrepared, p.inv.secret, p.t, None)});
  }

  lemma Approving(s: System, p: Attempt) returns (mid: System, s': System, key: string)
    requires Along(s, p, Proved(p.t), Readied) && Held(s, p) && Heard(s, p, ClientPrepared, None)
    requires !Barred(s.stores[p.n], Joiner(p)) && p.inv.id !in s.stores[p.n].prepared
    ensures Next(s, Step.Approve(p.sid, p.now), mid) && Next(mid, Step.SendKey(p.sid), s')
    ensures Along(s', p, Proved(p.t), Accepted(key)) && Heard(s', p, AcceptedKey, Some(key))
    ensures s.stores[p.n].key == key && s'.journaled == s.journaled && s'.profiles == s.profiles
    ensures s'.stores == s.stores[p.n := Enroll(s.stores[p.n], p.inv.id, Joiner(p), key, false)]
  {
    hide Barred, HasLive, Others, Resets;
    key := s.stores[p.n].key;
    mid := s.(servers := s.servers[p.sid := s.servers[p.sid].(phase := ServerCommitted(key))],
              stores := s.stores[p.n := Enroll(s.stores[p.n], p.inv.id, Joiner(p), key, false)],
              committed := s.committed + {Fact(p.n, p.inv.id, Joiner(p))},
              managers := s.managers[p.n := s.managers[p.n] - {p.inv.id}],
              commits := s.commits[p.inv.id := s.commits[p.inv.id] + 1]);
    s' := mid.(servers := mid.servers[p.sid := mid.servers[p.sid].(phase := Accepted(key))],
               tags := mid.tags + {Tag(AcceptedKey, p.inv.secret, p.t, Some(key))});
  }

  /** The inviter holds the joiner, under its own key. */
  ghost predicate Stands(s: System, p: Attempt, key: string) {
    && p.n in s.stores && p.inv.id in s.stores[p.n].enrolled && s.stores[p.n].enrolled[p.inv.id] == Joiner(p)
    && Trusts(s.stores[p.n], Joiner(p)) && s.stores[p.n].key == key
  }

  lemma Committing(s: System, p: Attempt, key: string) returns (s': System)
    requires Along(s, p, Proved(p.t), Accepted(key)) && Heard(s, p, AcceptedKey, Some(key)) && Stands(s, p, key)
    requires MayEnroll(s.stores[p.c], s.profiles[p.c], p.inv.id, OutcomeOf(p.t), key, ClientHandler(s, p))
    requires p.inv.id !in s.stores[p.c].enrolled
    ensures Next(s, Step.CommitLink(p.cid, key, p.now), s')
    ensures Along(s', p, ClientCommitted(p.t, key), Accepted(key)) && Paired(s', p) && Stands(s', p, key)
    ensures s'.profiles == s.profiles
  {
    hide HasLive, Others;
    EnrolledHere(s.stores[p.c], p.inv.id, OutcomeOf(p.t), key, p.repair);
    hide Enroll, Barred, MayEnroll, Trusts;
    s' := s.(clients := s.clients[p.cid := s.clients[p.cid].(phase := ClientCommitted(p.t, key))],
             committed := s.committed + {Fact(p.c, p.inv.id, OutcomeOf(p.t))},
             stores := s.stores[p.c := Enroll(s.stores[p.c], p.inv.id, OutcomeOf(p.t), key, p.repair)]);
  }

  lemma Finishing(s: System, p: Attempt, key: string) returns (s': System)
    requires Along(s, p, ClientCommitted(p.t, key), Accepted(key)) && Paired(s, p) && Stands(s, p, key)
    ensures Next(s, Step.SendCommit(p.cid), s') && Paired(s', p) && s'.profiles == s.profiles
    ensures p.sid in s'.servers && Next(s', Step.Complete(p.sid, p.now), Finished(s', p.sid))
  {
    hide Barred, MayEnroll, Trusts, Release;
    s' := s.(clients := s.clients - {p.cid}, tags := s.tags + {Tag(CommitKey, p.inv.secret, p.t, Some(key))});
  }

  /** An enrollment that is not barred, or is a repair under a new invitation, ends in trust. */
  lemma EnrolledHere(store: Store, id: string, o: Outcome, key: string, repair: bool)
    requires Barred(store, o) ==> repair && (id in store.enrolled ==> store.enrolled[id] != o)
    ensures var after := Enroll(store, id, o, key, repair);
            && Trusts(after, o) && id in after.enrolled && after.enrolled[id] == o && after.key == key
            && after.generation == store.generation
  {
  }

  // ----- Whole runs

  ghost predicate Leads(s: System, steps: seq<Step>, s': System)
    decreases |steps|
  {
    if steps == [] then s == s' else exists mid :: Next(s, steps[0], mid) && Leads(mid, steps[1..], s')
  }

  lemma LeadsTwo(s: System, a: Step, mid: System, b: Step, s': System)
    requires Next(s, a, mid) && Next(mid, b, s')
    ensures Leads(s, [a, b], s')
  {
    hide Next;
    assert [a, b][1..] == [b] && [b][1..] == [];
    assert Leads(s', [], s');
    assert Leads(mid, [b], s');
  }

  lemma {:induction false} LeadsOn(s: System, a: seq<Step>, mid: System, b: seq<Step>, s': System)
    requires Leads(s, a, mid) && Leads(mid, b, s')
    ensures Leads(s, a + b, s')
    decreases |a|
  {
    hide Next;
    if a == [] {
      assert a + b == b;
    } else {
      var next :| Next(s, a[0], next) && Leads(next, a[1..], mid);
      assert (a + b)[0] == a[0] && (a + b)[1..] == a[1..] + b;
      LeadsOn(next, a[1..], mid, b, s');
    }
  }

  function UntilAccepted(p: Attempt): seq<Step> {
    [Starting(p), AcceptHello(p.sid, p.n, p.t.hello, p.t.pake, p.now)]
    + [Step.Confirm(p.cid, p.t), Step.Ready(p.sid, p.now)]
    + [Step.Prepare(p.cid), Step.Prove(p.cid, p.now)]
    + [Step.Approve(p.sid, p.now), Step.SendKey(p.sid)]
  }

  /** Up to the moment the inviter has enrolled the joiner and sent its key. */
  lemma ReachAccepted(s: System, p: Attempt) returns (s': System, key: string)
    requires Open(s, p)
    ensures Leads(s, UntilAccepted(p), s')
    ensures Along(s', p, Proved(p.t), Accepted(key)) && Heard(s', p, AcceptedKey, Some(key)) && s.stores[p.n].key == key
    ensures s'.stores == s.stores[p.c := Noted(s, p)][p.n := Enroll(s.stores[p.n], p.inv.id, Joiner(p), key, false)]
    ensures Fact(p.c, p.inv.id, OutcomeOf(p.t)) in s'.journaled && s'.profiles == s.profiles
  {
    var x := [Starting(p), AcceptHello(p.sid, p.n, p.t.hello, p.t.pake, p.now)];
    var y, z := [Step.Confirm(p.cid, p.t), Step.Ready(p.sid, p.now)], [Step.Prepare(p.cid), Step.Prove(p.cid, p.now)];
    hide Next, Along, Held, Heard, Leads, Enroll, Barred, HasLive;
    var a1, s1 := Greet(s, p);
    LeadsTwo(s, Starting(p), a1, AcceptHello(p.sid, p.n, p.t.hello, p.t.pake, p.now), s1);
    var a2, s2 := Confirming(s1, p);
    LeadsTwo(s1, Step.Confirm(p.cid, p.t), a2, Step.Ready(p.sid, p.now), s2);
    var a3, s3 := Journaling(s2, p);
    LeadsTwo(s2, Step.Prepare(p.cid), a3, Step.Prove(p.cid, p.now), s3);
    var a4, s4, k := Approving(s3, p);
    LeadsTwo(s3, Step.Approve(p.sid, p.now), a4, Step.SendKey(p.sid), s4);
    LeadsOn(s, x, s1, y, s2);
    LeadsOn(s, x + y, s2, z, s3);
    LeadsOn(s, x + y + z, s3, [Step.Approve(p.sid, p.now), Step.SendKey(p.sid)], s4);
    s', key := s4, k;
  }

  /** What the inviter's key and the joiner's own journal leave of the joiner's freedom to enroll. */
  lemma JoinerMay(s: System, p: Attempt, accepted: System, key: string)
    requires Open(s, p) && key == s.stores[p.n].key && accepted.profiles == s.profiles
    requires p.c in accepted.stores && accepted.stores[p.c] == Noted(s, p)
    ensures MayEnroll(accepted.stores[p.c], s.profiles[p.c], p.inv.id, OutcomeOf(p.t), key, ClientHandler(accepted, p))
    ensures FreeToJoin(accepted.stores[p.c], OutcomeOf(p.t), key) <==> !Barred(s.stores[p.c], OutcomeOf(p.t))
  {
    assert HasLive(accepted.stores[p.c]) == HasLive(s.stores[p.c]);
    assert Barred(accepted.stores[p.c], OutcomeOf(p.t)) == Barred(s.stores[p.c], OutcomeOf(p.t));
    hide HasLive, Barred;
  }

  /** Left undisturbed, two devices that fit an open invitation end up paired, unless one bars the other; a bar at
      the joiner gives way to a repair. */
  lemma HandshakeSucceeds(s: System, p: Attempt) returns (s': System, key: string)
    requires Open(s, p)
    ensures Leads(s, UntilAccepted(p) + [Step.CommitLink(p.cid, key, p.now), Step.SendCommit(p.cid)], s')
      && Paired(s', p)
    ensures p.sid in s'.servers && Next(s', Step.Complete(p.sid, p.now), Finished(s', p.sid))
      && s'.profiles == s.profiles
  {
    hide Next, Heard, Leads, HasLive, Enroll, Barred, MayEnroll, Trusts, FreeToJoin, UntilAccepted;
    var accepted, k := ReachAccepted(s, p);
    EnrolledHere(s.stores[p.n], p.inv.id, Joiner(p), k, false);
    JoinerMay(s, p, accepted, k);
    var mid := Committing(accepted, p, k);
    var done := Finishing(mid, p, k);
    LeadsTwo(accepted, Step.CommitLink(p.cid, k, p.now), mid, Step.SendCommit(p.cid), done);
    LeadsOn(s, UntilAccepted(p), accepted, [Step.CommitLink(p.cid, k, p.now), Step.SendCommit(p.cid)], done);
    s', key := done, k;
  }

  /** If the joiner crashes instead of committing, under whatever name it comes back, it is left half paired; recovery
      can finish the pairing exactly if the joiner did not bar the inviter to begin with. */
  lemma CrashLeavesRecoverable(s: System, p: Attempt, joiner: string) returns (s': System)
    requires Open(s, p) && IssuedBy(s, p.inv.id, p.n)
    ensures Leads(s, UntilAccepted(p) + [Crash(p.c, joiner)], s')
    ensures HalfPaired(s', p.n, p.c, p.inv.id) && p.n in s'.profiles && p.c in s'.profiles && p.n in s'.stores
    ensures p.c in s'.stores && p.inv.id in s'.stores[p.c].prepared
    ensures s'.profiles[p.n] == s.profiles[p.n] && s'.stores[p.c].prepared[p.inv.id].outcome == OutcomeOf(p.t)
    ensures CanFinish(s', p.n, p.c, p.inv.id) <==> !Barred(s.stores[p.c], OutcomeOf(p.t))
  {
    hide Next, Heard, Leads, HasLive, Barred, UntilAccepted, Trusts, FreeToJoin;
    var accepted, k := ReachAccepted(s, p);
    assert p.c in accepted.stores;
    JoinerMay(s, p, accepted, k);
    s' := Crashed(accepted, p.c, joiner);
    RenewedFree(accepted.stores[p.c], OutcomeOf(p.t), k);
    IssuedStays(s, UntilAccepted(p), accepted, p.inv.id, p.n);
    CrashStep(accepted, p.c, joiner, s');
    LeadsOn(s, UntilAccepted(p), accepted, [Crash(p.c, joiner)], s');
  }

  lemma RenewedFree(store: Store, o: Outcome, key: string)
    ensures FreeToJoin(Renewed(store), o, key) == FreeToJoin(store, o, key)
  {
    assert HasLive(Renewed(store)) == HasLive(store);
  }

  lemma AlikeFree(store: Store, o: Outcome, q: Outcome, key: string)
    requires Alike(o, q)
    ensures FreeToJoin(store, o, key) == FreeToJoin(store, q, key)
  {
  }

  /** If the inviter is opened again too, under whatever name, recovery can finish the pairing exactly if, besides,
      it has the name it had. */
  lemma ReopenedInviter(s: System, p: Attempt, joiner: string, inviter: string) returns (s': System)
    requires Open(s, p) && IssuedBy(s, p.inv.id, p.n)
    ensures Leads(s, UntilAccepted(p) + [Crash(p.c, joiner)] + [Crash(p.n, inviter)], s')
    ensures HalfPaired(s', p.n, p.c, p.inv.id) && p.n in s'.profiles && p.c in s'.profiles
    ensures CanFinish(s', p.n, p.c, p.inv.id) <==>
              !Barred(s.stores[p.c], OutcomeOf(p.t)) && inviter == s.profiles[p.n].metadata.presentation
  {
    hide Next, Leads, UntilAccepted, Barred, HalfPaired, CanFinish;
    var mid := CrashLeavesRecoverable(s, p, joiner);
    s' := Crashed(mid, p.n, inviter);
    RenamedCanFinish(mid, p, inviter);
    CrashStep(mid, p.n, inviter, s');
    LeadsOn(s, UntilAccepted(p) + [Crash(p.c, joiner)], mid, [Crash(p.n, inviter)], s');
  }
  lemma RenamedCanFinish(s: System, p: Attempt, inviter: string)
    requires HalfPaired(s, p.n, p.c, p.inv.id) && p.n != p.c && p.n in s.profiles && p.c in s.profiles
    requires s.stores[p.c].prepared[p.inv.id].outcome.metadata == s.profiles[p.n].metadata
    ensures var s' := Crashed(s, p.n, inviter);
            && HalfPaired(s', p.n, p.c, p.inv.id) && p.n in s'.profiles && p.c in s'.profiles
            && (CanFinish(s', p.n, p.c, p.inv.id) <==>
                  CanFinish(s, p.n, p.c, p.inv.id) && inviter == s.profiles[p.n].metadata.presentation)
  {
    hide FreeToJoin;
    var s' := Crashed(s, p.n, inviter);
    assert s'.stores[p.c] == s.stores[p.c] && s'.stores[p.n].key == s.stores[p.n].key;
    AlikeFree(s.stores[p.c], Card(s, p.n), Card(s', p.n), s.stores[p.n].key);
  }

  /** Whatever recovery the code attempts from here is refused. */
  ghost predicate Stuck(s: System, n: Node, c: Node, id: string)
    requires n in s.profiles && n in s.stores
  {
    forall previous, after :: !Next(Answered(s, n, c, id), Recover(c, Answer(s, n, c, id), previous), after)
  }

  lemma StuckUnlessCanFinish(s: System, n: Node, c: Node, id: string)
    requires Reachable(s) && HalfPaired(s, n, c, id)
    ensures n in s.profiles && n in s.stores && c in s.stores
    ensures Stuck(s, n, c, id) <==> !CanFinish(s, n, c, id)
  {
    hide Reachable, Next, CanFinish;
    RecoveryCompletes(s, n, c, id);
    if CanFinish(s, n, c, id) {
      assert Next(Answered(s, n, c, id), Recover(c, Answer(s, n, c, id), Ticket(s, id)), Finish(s, n, c, id));
    }
  }

  /** An inviter that is opened again under another name before the joiner finishes answers recoveries that the joiner
      refuses: the answer no longer matches its journal. */
  lemma RenamedInviterIsStuck(s: System, p: Attempt, joiner: string, inviter: string) returns (s': System)
    requires Reachable(s) && Open(s, p) && IssuedBy(s, p.inv.id, p.n)
    requires inviter != s.profiles[p.n].metadata.presentation
    ensures Leads(s, UntilAccepted(p) + [Crash(p.c, joiner)] + [Crash(p.n, inviter)], s') && Reachable(s')
    ensures HalfPaired(s', p.n, p.c, p.inv.id) && p.n in s'.profiles && Stuck(s', p.n, p.c, p.inv.id)
  {
    hide Next, Leads, Reachable, HalfPaired, CanFinish, Barred, UntilAccepted, Stuck;
    s' := ReopenedInviter(s, p, joiner, inviter);
    LeadsReach(s, UntilAccepted(p) + [Crash(p.c, joiner)] + [Crash(p.n, inviter)], s');
    StuckUnlessCanFinish(s', p.n, p.c, p.inv.id);
  }

  /** A repair that crashes between the inviter's commit and the joiner's leaves a journal that recovery refuses,
      although the inviter holds the enrollment and answers: a repair first removes the peer, and recovery never
      repairs. */
  lemma CrashedRepairIsStuck(s: System, p: Attempt, joiner: string) returns (s': System)
    requires Reachable(s) && Open(s, p) && IssuedBy(s, p.inv.id, p.n)
    requires p.repair && Barred(s.stores[p.c], OutcomeOf(p.t))
    ensures Leads(s, UntilAccepted(p) + [Crash(p.c, joiner)], s') && Reachable(s')
    ensures HalfPaired(s', p.n, p.c, p.inv.id) && p.n in s'.profiles && Stuck(s', p.n, p.c, p.inv.id)
  {
    hide Next, Leads, Reachable, HalfPaired, CanFinish, Barred, UntilAccepted, Stuck;
    s' := CrashLeavesRecoverable(s, p, joiner);
    LeadsReach(s, UntilAccepted(p) + [Crash(p.c, joiner)], s');
    StuckUnlessCanFinish(s', p.n, p.c, p.inv.id);
  }

  /** Pairing once more with a device that is known already makes the inviter forget the earlier pairing while the
      joiner still holds it, with nobody removed. */
  lemma PairingAgainForgets(s: System, p: Attempt, earlier: string) returns (s': System)
    requires Open(s, p) && Holds(s, p.n, earlier) && Holds(s, p.c, earlier) && earlier != p.inv.id
    requires s.stores[p.n].enrolled[earlier] == Joiner(p) && Trusts(s.stores[p.n], Joiner(p))
    requires p.inv.id !in s.stores[p.n].enrolled
    ensures Leads(s, UntilAccepted(p), s')
    ensures !Holds(s', p.n, earlier) && Holds(s', p.c, earlier)
    ensures p.n in s'.stores && Trusts(s'.stores[p.n], Joiner(p))
    ensures p.c in s'.stores && s'.stores[p.c].peers == s.stores[p.c].peers
  {
    hide Next, Heard, Leads, Along, HasLive, UntilAccepted, Free;
    var accepted, k := ReachAccepted(s, p);
    s' := accepted;
  }

  lemma CrashStep(s: System, c: Node, presentation: string, s': System)
    requires c in s.profiles && c in s.stores && s' == Crashed(s, c, presentation)
    ensures Leads(s, [Crash(c, presentation)], s')
  {
    OneStep(s, Crash(c, presentation), s');
  }

  lemma OneStep(s: System, step: Step, s': System)
    requires Next(s, step, s')
    ensures Leads(s, [step], s')
  {
    hide Next;
    assert [step][1..] == [];
    assert Leads(s', [], s');
  }

  lemma OneIssuedStays(s: System, step: Step, s': System, id: string, n: Node)
    requires Next(s, step, s') && IssuedBy(s, id, n)
    ensures IssuedBy(s', id, n)
  {
    if Quiet(step) {
      hide Next;
      QuietSteps(s, step, s');
    } else {
      hide MayEnroll, Enroll, Claim, Create, Release, Finished, Expiry, Recoverable, Compatible, ValidIdentity;
      if step.Complete? || step.AbortServer? { FinishedIssues(s, step.sid); }
    }
  }

  lemma FinishedIssues(s: System, sid: nat)
    requires sid in s.servers
    ensures Finished(s, sid).issued == s.issued
  {
  }

  lemma {:induction false} LeadsReach(s: System, steps: seq<Step>, s': System)
    requires Reachable(s) && Leads(s, steps, s')
    ensures Reachable(s')
    decreases |steps|
  {
    hide Next, Init;
    if steps != [] {
      var mid :| Next(s, steps[0], mid) && Leads(mid, steps[1..], s');
      var before, taken :| Run(before, taken) && s == before[|before| - 1];
      assert Run(before + [mid], taken + [steps[0]]);
      assert (before + [mid])[|before|] == mid;
      LeadsReach(mid, steps[1..], s');
    }
  }

  lemma {:induction false} IssuedStays(s: System, steps: seq<Step>, s': System, id: string, n: Node)
    requires Leads(s, steps, s') && IssuedBy(s, id, n)
    ensures IssuedBy(s', id, n)
    decreases |steps|
  {
    hide Next;
    if steps != [] {
      var mid :| Next(s, steps[0], mid) && Leads(mid, steps[1..], s');
      OneIssuedStays(s, steps[0], mid, id, n);
      IssuedStays(mid, steps[1..], s', id, n);
    }
  }

  // ----- Such situations arise

  /** Two devices that would pair if only there were an invitation. */
  ghost predicate Willing(s: System, n: Node, c: Node, repair: bool) {
    && Fits(s, n, c) && Fits(s, c, n) && n in s.stores && c in s.stores && n in s.managers
    && |s.managers[n]| < MAX_INVITATIONS
    && !Barred(s.stores[n], Card(s, c)) && (Barred(s.stores[c], Card(s, n)) ==> repair)
    && (repair ==> s.profiles[n].identity.deviceId in s.stores[c].peers)
    && (s.stores[n].key != s.stores[c].key ==> !HasLive(s.stores[c]))
  }

  /** The attempt two devices make over an invitation that `n` issues now. */
  function Invited(
    s: System, n: Node, c: Node, id: string, secret: string, sid: nat, cid: nat, now: nat, repair: bool): Attempt
    requires n in s.profiles && c in s.profiles
  {
    var inv := Invitation(id, n, s.profiles[n].metadata, Expiry(now, MAX_TTL_NANOS), secret);
    var hello := Hello(id, s.profiles[c].identity, s.profiles[c].metadata, c, n, 0);
    Attempt(n, c, inv, Transcript(hello, s.profiles[n].identity, s.profiles[n].metadata, 0), sid, cid, now, repair)
  }

  lemma FiveMinutes(now: nat)
    requires now < U64_MAX
    ensures now < Expiry(now, MAX_TTL_NANOS)
  {
  }

  lemma FreshId(s: System, x: Node, id: string)
    requires Inv(s) && x in s.stores && id !in s.issued
    ensures id !in s.stores[x].prepared && id !in s.stores[x].enrolled
  {
    hide Inv;
    if id in s.stores[x].prepared {
      JournalHeld(s, x, id);
      SeenJournal(s, Fact(x, id, s.stores[x].prepared[id].outcome));
    }
    if id in s.stores[x].enrolled {
      Enrollment(s, x, id);
    }
  }

  ghost predicate Invites(s: System, p: Attempt) {
    && Willing(s, p.n, p.c, p.repair) && p.inv.id !in s.issued && p.sid !in s.servers && p.cid !in s.clients
    && p == Invited(s, p.n, p.c, p.inv.id, p.inv.secret, p.sid, p.cid, p.now, p.repair) && p.now < U64_MAX
  }

  /** The state once the invitation is issued. */
  function Inviting(s: System, p: Attempt): System
    requires p.n in s.managers
  {
    s.(managers := s.managers[p.n := Unexpired(s.managers[p.n], p.now)[p.inv.id := Slot(p.inv, 0, false)]],
       issued := s.issued[p.inv.id := p.inv],
       claims := s.claims[p.inv.id := 0], commits := s.commits[p.inv.id := 0])
  }

  /** Whoever is willing can be invited, and then the handshake can start. */
  lemma InvitingOpens(s: System, p: Attempt)
    requires Inv(s) && Invites(s, p)
    ensures Next(s, CreateInvitation(p.n, p.inv, MAX_TTL_NANOS, p.now, p.now), Inviting(s, p))
    ensures Open(Inviting(s, p), p) && IssuedBy(Inviting(s, p), p.inv.id, p.n)
  {
    FreshId(s, p.n, p.inv.id);
    FreshId(s, p.c, p.inv.id);
    KnownValid(s, p.n, p.c);
    FiveMinutes(p.now);
    hide Inv, Expiry, HasLive, Barred, Fits, Open, CreateStep, Inviting, Willing;
    InvitedCreated(s, p);
    InvitedFits(s, p);
    InvitedIssued(s, p);
  }

  lemma InvitedIssued(s: System, p: Attempt)
    requires p.n in s.managers && p.inv.inviter == p.n
    ensures IssuedBy(Inviting(s, p), p.inv.id, p.n)
  {
  }

  lemma InvitedCreated(s: System, p: Attempt)
    requires Invites(s, p)
    ensures CreateStep(s, p.n, p.inv, MAX_TTL_NANOS, p.now, p.now, Inviting(s, p))
  {
    hide Expiry, HasLive, Barred;
    SubmapSize(Unexpired(s.managers[p.n], p.now), s.managers[p.n]);
  }

  lemma InvitedFits(s: System, p: Attempt)
    requires Invites(s, p) && p.now < p.inv.expiresAt
    requires p.inv.id !in s.stores[p.n].prepared && p.inv.id !in s.stores[p.c].enrolled
    requires ValidIdentity(s.profiles[p.n].identity, s.profiles[p.n].metadata)
    requires ValidIdentity(s.profiles[p.c].identity, s.profiles[p.c].metadata)
    ensures Open(Inviting(s, p), p)
  {
    hide Expiry, HasLive, Barred;
  }

  lemma InvitingReaches(s: System, p: Attempt)
    requires Reachable(s) && Invites(s, p)
    ensures Reachable(Inviting(s, p)) && Open(Inviting(s, p), p) && IssuedBy(Inviting(s, p), p.inv.id, p.n)
  {
    hide Inv, Next, Open, Reachable, Expiry, HasLive, Barred;
    ReachableInv(s);
    InvitingOpens(s, p);
    hide Invites, Inviting;
    Reaches(s, CreateInvitation(p.n, p.inv, MAX_TTL_NANOS, p.now, p.now), Inviting(s, p));
  }

  lemma Reaches(s: System, step: Step, s': System)
    requires Reachable(s) && Next(s, step, s')
    ensures Reachable(s')
  {
    hide Next, Reachable;
    OneStep(s, step, s');
    LeadsReach(s, [step], s');
  }

  /** At the very start any two devices that fit can open a handshake. */
  lemma FirstHandshake(s: System, p: Attempt)
    requires Init(s) && Fits(s, p.n, p.c) && p.now < U64_MAX && !p.repair
    requires p == Invited(s, p.n, p.c, p.inv.id, p.inv.secret, p.sid, p.cid, p.now, p.repair)
    ensures Reachable(Inviting(s, p)) && Open(Inviting(s, p), p) && IssuedBy(Inviting(s, p), p.inv.id, p.n)
  {
    StartReachable(s);
    assert Willing(s, p.n, p.c, false) by { hide Reachable; }
    assert Invites(s, p) by { hide Reachable, Willing, Expiry; }
    hide Init, Invites, Reachable, Open;
    InvitingReaches(s, p);
  }

  lemma StartReachable(s: System)
    requires Init(s)
    ensures Reachable(s)
  {
    assert Run([s], []);
    assert [s][|[s]| - 1] == s;
  }

  lemma {:induction false} Above(used: set<nat>) returns (n: nat)
    ensures n !in used && forall x | x in used :: x < n
    decreases |used|
  {
    if used == {} {
      n := 0;
    } else {
      var x :| x in used;
      var m := Above(used - {x});
      n := if m > x then m else x + 1;
      assert forall y | y in used :: y == x || y in used - {x};
    }
  }

  lemma {:induction false} Longer(used: set<string>) returns (t: string)
    ensures t !in used && forall u | u in used :: |u| < |t|
    decreases |used|
  {
    if used == {} {
      t := "";
    } else {
      var u :| u in used;
      var v := Longer(used - {u});
      t := if |v| > |u| then v else u + "0";
    }
  }

  lemma PairedAreWilling(s: System, p: Attempt)
    requires Paired(s, p) && p.n in s.managers && s.managers[p.n] == map[] && Fits(s, p.n, p.c) && Fits(s, p.c, p.n)
    requires Card(s, p.n) == OutcomeOf(p.t) && Card(s, p.c) == Joiner(p)
    ensures Willing(s, p.n, p.c, false)
  {
    hide HasLive;
  }

  /** Whoever has paired can be invited again, with what the first pairing left in place. */
  lemma HandshakeAgain(s: System, p: Attempt) returns (s': System, q: Attempt)
    requires Reachable(s) && Open(s, p)
    ensures Reachable(s') && Open(s', q) && IssuedBy(s', q.inv.id, q.n) && q.n == p.n && q.c == p.c && !q.repair
    ensures Holds(s', q.n, p.inv.id) && Holds(s', q.c, p.inv.id) && q.inv.id != p.inv.id
    ensures s'.stores[q.n].enrolled[p.inv.id] == Joiner(q) && Trusts(s'.stores[q.n], Joiner(q))
    ensures q.inv.id !in s'.stores[q.n].enrolled
    ensures s'.stores[q.c].enrolled[p.inv.id] == OutcomeOf(q.t) && Trusts(s'.stores[q.c], OutcomeOf(q.t))
  {
    var closed := PairAndClose(s, p);
    ReachableInv(closed);
    var id := Longer(closed.issued.Keys);
    var sid := Above(closed.servers.Keys);
    var cid := Above(closed.clients.Keys);
    q := Invited(closed, p.n, p.c, id, "", sid, cid, 0, false);
    FreshId(closed, p.n, id);
    FreshId(closed, p.c, id);
    hide Inv, Reachable, Next, Willing, Expiry;
    PairedAreWilling(closed, p);
    assert Invites(closed, q);
    s' := Inviting(closed, q);
    InvitingReaches(closed, q);
  }

  /** A whole handshake, after which the inviter closes what else was open. */
  lemma PairAndClose(s: System, p: Attempt) returns (s': System)
    requires Reachable(s) && Open(s, p)
    ensures Reachable(s') && Paired(s', p) && p.n in s'.managers && s'.managers[p.n] == map[]
    ensures s'.profiles == s.profiles && Fits(s', p.n, p.c) && Fits(s', p.c, p.n)
    ensures Card(s', p.n) == OutcomeOf(p.t) && Card(s', p.c) == Joiner(p)
  {
    var paired, key := HandshakeSucceeds(s, p);
    var steps := UntilAccepted(p) + [Step.CommitLink(p.cid, key, p.now), Step.SendCommit(p.cid)];
    var done := Finished(paired, p.sid);
    ReachesManager(s, steps, paired, p.n);
    s' := done.(managers := done.managers[p.n := map[]]);
    assert Next(done, CloseInvitations(p.n), s');
    hide Next, Reachable, Leads, Held, Free, Barred, HasLive, UntilAccepted;
    LeadsReach(s, steps, paired);
    Reaches(paired, Step.Complete(p.sid, p.now), done);
    Reaches(done, CloseInvitations(p.n), s');
  }

  lemma ReachesManager(s: System, steps: seq<Step>, s': System, n: Node)
    requires Reachable(s) && Leads(s, steps, s') && n in s'.stores
    ensures n in s'.managers
  {
    hide Reachable, Leads, Inv;
    LeadsReach(s, steps, s');
    ReachableInv(s');
    Managed(s', n);
  }

  lemma Managed(s: System, n: Node)
    requires Inv(s) && n in s.stores
    ensures n in s.managers
  {
    hide CardsOk, HistoryOk, StoresOk, MessagesOk, SessionsOk, Table;
  }

  /** And after removing the inviter the joiner can ask to repair it. */
  lemma RepairAsked(s: System, p: Attempt) returns (s': System, q: Attempt)
    requires Reachable(s) && Open(s, p)
    ensures Reachable(s') && Open(s', q) && IssuedBy(s', q.inv.id, q.n) && q.n == p.n && q.c == p.c
    ensures q.repair && Barred(s'.stores[q.c], OutcomeOf(q.t))
  {
    hide Next, Reachable, HasLive;
    var again, plain := HandshakeAgain(s, p);
    var device := plain.t.identity.deviceId;
    s' := again.(stores := again.stores[p.c := Removed(again.stores[p.c], device)]);
    q := plain.(repair := true);
    Removing(again, p.c, device, s');
    Reaches(again, RemovePeer(p.c, device), s');
    RemovedDead(again.stores[p.c], device);
    RepairOpens(again, plain, s');
  }

  lemma Removing(s: System, c: Node, device: string, s': System)
    requires c in s.stores && device in s.stores[c].peers
    requires s' == s.(stores := s.stores[c := Removed(s.stores[c], device)])
    ensures Next(s, RemovePeer(c, device), s')
  {
  }

  lemma RemovedDead(store: Store, device: string)
    requires device in store.peers
    ensures HasLive(Removed(store, device)) ==> HasLive(store)
    ensures forall o: Outcome | o.identity.deviceId == device :: Barred(Removed(store, device), o)
  {
    var after := Removed(store, device);
    if HasLive(after) {
      var d :| d in after.peers && !after.peers[d].revoked;
      assert !store.peers[d].revoked;
    }
  }

  lemma RepairOpens(s: System, p: Attempt, s': System)
    requires Open(s, p) && p.t.identity.deviceId in s.stores[p.c].peers
    requires s' == s.(stores := s.stores[p.c := Removed(s.stores[p.c], p.t.identity.deviceId)])
    requires HasLive(s'.stores[p.c]) ==> HasLive(s.stores[p.c])
    ensures Open(s', p.(repair := true))
  {
    hide HasLive, Barred;
  }
}
