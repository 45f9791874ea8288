/** Agreement on who wrote what first, single use and recoverability of pairing in every reachable state. */
module PairingRuns {
  import opened Clocks
  import opened Invitations
  import opened Pairing
  import opened PairingSafety

  // ----- Every step keeps the invariant

  lemma TrustOnFinish(s: System, sid: nat)
    requires Trust(s) && sid in s.servers
    ensures Trust(Finished(s, sid))
  {
    hide TagOk, RecoveredOk, ServerOk, ClientOk, CardsOk, StoresOk, HistoryOk, MessagesOk, SessionsOk, ConfigOk,
         Release;
    var s' := Finished(s, sid);
    assert s'.managers.Keys == s.managers.Keys;
    TrustOnFewer(s, s');
  }

  lemma TrustOnReopen(s: System, n: Node)
    requires Trust(s) && n in s.stores
    ensures Trust(Reopened(s, n))
  {
    hide Trust, Ledger, Shrunk, Renewed;
    if Ledger(s.stores[n]) { RenewedShrinks(s.stores[n]); }
    var s' := Reopened(s, n);
    ManagedNode(s, n);
    assert s'.managers.Keys == s.managers.Keys;
    TrustOnShrunk(s, s', n);
  }

  lemma TrustOnCrash(s: System, n: Node, presentation: string)
    requires Trust(s) && n in s.profiles && n in s.stores
    ensures Trust(Crashed(s, n, presentation))
  {
    hide Trust;
    TrustOnReopen(s, n);
    TrustOnRename(Reopened(s, n), n, presentation);
  }

  lemma TrustOnAbortClient(s: System, sid: nat)
    requires Trust(s)
    ensures Trust(s.(clients := s.clients - {sid}))
  {
    hide TagOk, RecoveredOk, ServerOk, ClientOk, CardsOk, StoresOk, HistoryOk, MessagesOk, SessionsOk, ConfigOk;
    var s' := s.(clients := s.clients - {sid});
    TrustOnFewer(s, s');
  }

  lemma TrustOnTable(s: System, n: Node, slots: Slots)
    requires Trust(s) && n in s.managers
    ensures Trust(s.(managers := s.managers[n := slots]))
  {
    hide TagOk, RecoveredOk, ServerOk, ClientOk, CardsOk, StoresOk, HistoryOk, MessagesOk, SessionsOk, ConfigOk;
    var s' := s.(managers := s.managers[n := slots]);
    assert s'.managers.Keys == s.managers.Keys;
    TrustOnFewer(s, s');
  }

  lemma TrustKeeps(s: System, step: Step, s': System)
    requires Trust(s) && ManagersOk(s) && Next(s, step, s')
    ensures Trust(s')
  {
    hide Trust, ManagersOk, Finished, Crashed, CreateStep, StartStep, AcceptStep, ConfirmStep, ReadyStep, PrepareStep,
         ProveStep, ApproveStep, SendKeyStep, CommitStep, SendCommitStep, RemoveStep, AnswerStep, RecoverStep;
    match step
    case CreateInvitation(n, inv, ttl, drawn, now) => TrustOnCreate(s, n, inv, ttl, drawn, now, s');
    case RevokeInvitation(n, id) => TrustOnTable(s, n, s.managers[n] - {id});
    case CloseInvitations(n) => TrustOnTable(s, n, map[]);
    case StartLink(sid, n, inv, expected, repair, pake, now) =>
      TrustOnStart(s, sid, n, inv, expected, repair, pake, now, s');
    case AcceptHello(sid, n, hello, pake, now) => TrustOnAccept(s, sid, n, hello, pake, now, s');
    case Confirm(sid, t) => TrustOnConfirm(s, sid, t, s');
    case Ready(sid, now) => TrustOnReady(s, sid, now, s');
    case Prepare(sid) => TrustOnPrepare(s, sid, s');
    case Prove(sid, now) => TrustOnProve(s, sid, now, s');
    case Approve(sid, now) => TrustOnApprove(s, sid, now, s');
    case SendKey(sid) => TrustOnSendKey(s, sid, s');
    case CommitLink(sid, key, now) => TrustOnCommit(s, sid, key, now, s');
    case SendCommit(sid) => TrustOnSendCommit(s, sid, s');
    case Complete(sid, now) => Completing(s, sid, now, s'); TrustOnFinish(s, sid);
    case AbortServer(sid) => TrustOnFinish(s, sid);
    case AbortClient(sid) => TrustOnAbortClient(s, sid);
    case Crash(n, presentation) => TrustOnCrash(s, n, presentation);
    case NewGeneration(n) => TrustOnRenew(s, n);
    case RemovePeer(n, device) => TrustOnRemove(s, n, device, s');
    case AnswerRecovery(n, c, id, identity) => TrustOnAnswer(s, n, c, id, identity, s');
    case Recover(n, a, previous) => TrustOnRecover(s, n, a, previous, s');
  }

  lemma Completing(s: System, sid: nat, now: nat, s': System)
    requires CompleteStep(s, sid, now, s')
    ensures sid in s.servers && s' == Finished(s, sid)
  {
  }

  /** The steps that move neither a table nor which sessions hold what. */
  predicate Quiet(step: Step) {
    || step.StartLink? || step.Confirm? || step.Ready? || step.Prepare? || step.Prove? || step.SendKey?
    || step.CommitLink? || step.SendCommit? || step.AbortClient? || step.NewGeneration? || step.RemovePeer?
    || step.AnswerRecovery? || step.Recover?
  }

  /** The invitation table, its counts and which session works on what stand still. */
  ghost predicate TableStill(s: System, s': System) {
    && s'.managers == s.managers && s'.issued == s.issued && s'.claims == s.claims && s'.commits == s.commits
    && s'.profiles == s.profiles
    && forall i | i in s'.servers ::
         i in s.servers && s'.servers[i].node == s.servers[i].node
           && s'.servers[i].invitation == s.servers[i].invitation
  }

  /** What devices durably hold, and the memory of it, stand still. */
  ghost predicate BooksStill(s: System, s': System) {
    && s'.profiles == s.profiles && s'.shown == s.shown && s'.stores == s.stores
    && s'.journaled == s.journaled && s'.committed == s.committed
  }

  /** The steps that write to a store. */
  predicate Durable(step: Step) {
    || step.Prepare? || step.Approve? || step.CommitLink? || step.Recover? || step.RemovePeer? || step.NewGeneration?
    || step.Crash?
  }

  lemma QuietSteps(s: System, step: Step, s': System)
    requires Next(s, step, s') && Quiet(step)
    ensures TableStill(s, s')
  {
    hide Next, TableStill, BooksStill;
    if step.Prepare? || step.CommitLink? || step.Recover? {
      QuietWrites(s, step, s');
    } else if step.NewGeneration? || step.RemovePeer? {
      QuietRemovals(s, step, s');
    } else if step.Confirm? || step.Ready? || step.Prove? || step.SendKey? {
      Talk(s, step, s');
    } else {
      ComingAndGoing(s, step, s');
    }
  }

  lemma QuietWrites(s: System, step: Step, s': System)
    requires Next(s, step, s') && (step.Prepare? || step.CommitLink? || step.Recover?)
    ensures TableStill(s, s')
  {
    hide Validate, Journal, MayEnroll, Enroll, ValidIdentity, Compatible, OutcomeOf;
  }

  lemma QuietRemovals(s: System, step: Step, s': System)
    requires Next(s, step, s') && (step.NewGeneration? || step.RemovePeer?)
    ensures TableStill(s, s')
  {
    hide Removed, Renewed;
  }

  lemma Talk(s: System, step: Step, s': System)
    requires Next(s, step, s') && (step.Confirm? || step.Ready? || step.Prove? || step.SendKey?)
    ensures TableStill(s, s') && BooksStill(s, s')
  {
    hide ValidIdentity, Compatible;
  }

  lemma ComingAndGoing(s: System, step: Step, s': System)
    requires Next(s, step, s') && (step.StartLink? || step.SendCommit? || step.AbortClient? || step.AnswerRecovery?)
    ensures TableStill(s, s') && BooksStill(s, s')
  {
    hide Recoverable, Compatible;
  }

  lemma AtTheTable(s: System, step: Step, s': System)
    requires Next(s, step, s') && !Quiet(step) && !Durable(step)
    ensures BooksStill(s, s')
  {
    hide Create, Claim, Expiry, ValidIdentity, Compatible, Recoverable, Release;
  }

  lemma IdleSteps(s: System, step: Step, s': System)
    requires Next(s, step, s') && !Durable(step)
    ensures BooksStill(s, s')
  {
    hide Next, TableStill, BooksStill;
    if !Quiet(step) {
      AtTheTable(s, step, s');
    } else if step.Confirm? || step.Ready? || step.Prove? || step.SendKey? {
      Talk(s, step, s');
    } else {
      ComingAndGoing(s, step, s');
    }
  }

  lemma TableKeeps(s: System, step: Step, s': System)
    requires Inv(s) && Next(s, step, s')
    ensures Table(s')
  {
    hide ConfigOk, CardsOk, StoresOk, HistoryOk, MessagesOk, SessionsOk, Table, Finished, Crashed, CreateStep,
         AcceptStep, ApproveStep;
    if Quiet(step) {
      hide Next, Quiet;
      QuietSteps(s, step, s');
      TableAlone(s, s');
    } else {
      LoudSteps(s, step, s');
    }
  }

  lemma LoudSteps(s: System, step: Step, s': System)
    requires Trust(s) && Table(s) && Next(s, step, s') && !Quiet(step)
    ensures Table(s')
  {
    hide ConfigOk, SessionsOk, Table, Finished, Crashed, CreateStep, StartStep, AcceptStep, ConfirmStep, ReadyStep,
         PrepareStep, ProveStep, ApproveStep, SendKeyStep, CommitStep, SendCommitStep, CompleteStep, RemoveStep,
         AnswerStep, RecoverStep;
    match step
    case CreateInvitation(n, inv, ttl, drawn, now) => TableOnCreate(s, n, inv, ttl, drawn, now, s');
    case RevokeInvitation(n, id) => TableOnRemoval(s, n, s.managers[n] - {id}, s');
    case CloseInvitations(n) => TableOnRemoval(s, n, map[], s');
    case AcceptHello(sid, n, hello, pake, now) => TableOnAccept(s, sid, n, hello, pake, now, s');
    case Approve(sid, now) => TableOnApprove(s, sid, now, s');
    case Complete(sid, now) => Completing(s, sid, now, s'); TableOnFinish(s, sid);
    case AbortServer(sid) => TableOnFinish(s, sid);
    case Crash(n, presentation) => ManagedNode(s, n); TableOnCrash(s, n, presentation);
    case _ =>
  }

  lemma ManagedNode(s: System, n: Node)
    requires Trust(s) && n in s.stores
    ensures n in s.managers && n in s.profiles
  {
  }

  lemma NextKeeps(s: System, step: Step, s': System)
    requires Inv(s) && Next(s, step, s')
    ensures Inv(s')
  {
    hide Trust, ManagersOk, CountsOk, ClaimsOk, Next;
    TrustKeeps(s, step, s');
    TableKeeps(s, step, s');
  }

  lemma InitInv(s: System)
    requires Init(s)
    ensures Inv(s)
  {
    hide Init, ConfigOk, CardsOk, HistoryOk, StoresOk, MessagesOk, SessionsOk, Table;
    InitStores(s);
    InitCards(s);
    InitTrust(s);
    InitTable(s);
  }

  lemma InitStores(s: System)
    requires Init(s)
    ensures ConfigOk(s) && HistoryOk(s) && StoresOk(s)
  {
  }

  lemma InitCards(s: System)
    requires Init(s)
    ensures CardsOk(s)
  {
  }

  lemma InitTrust(s: System)
    requires Init(s)
    ensures MessagesOk(s) && SessionsOk(s)
  {
  }

  lemma InitTable(s: System)
    requires Init(s)
    ensures Table(s)
  {
  }

  ghost predicate Run(states: seq<System>, steps: seq<Step>) {
    && |states| == |steps| + 1 && Init(states[0])
    && forall i | 0 <= i < |steps| :: Next(states[i], steps[i], states[i + 1])
  }

  ghost predicate Reachable(s: System) {
    exists states, steps :: Run(states, steps) && s == states[|states| - 1]
  }

  lemma {:induction false} RunInv(states: seq<System>, steps: seq<Step>, i: nat)
    requires Run(states, steps) && i < |states|
    ensures Inv(states[i])
  {
    hide Inv, Next, Init;
    if i == 0 {
      InitInv(states[0]);
    } else {
      RunInv(states, steps, i - 1);
      NextKeeps(states[i - 1], steps[i - 1], states[i]);
    }
  }

  lemma ReachableInv(s: System)
    requires Reachable(s)
    ensures Inv(s)
  {
    hide Inv, Next, Init;
    var states, steps :| Run(states, steps) && s == states[|states| - 1];
    RunInv(states, steps, |states| - 1);
  }

  // ----- Agreement

  lemma Enrollment(s: System, x: Node, id: string)
    requires Inv(s) && x in s.stores && id in s.stores[x].enrolled
    ensures Ledger(s.stores[x]) && EnrolledOk(s, x, id) && CommitOk(s, Fact(x, id, s.stores[x].enrolled[id]))
  {
    assert StoreOk(s, x);
    hide Ledger;
  }

  lemma SeenJournal(s: System, f: Fact)
    requires Inv(s) && f in s.journaled
    ensures JournalOk(s, f)
  {
  }

  lemma SeenCommit(s: System, f: Fact)
    requires Inv(s) && f in s.committed
    ensures CommitOk(s, f)
  {
  }

  /** An inviter only ever enrolls an honest joiner, as it once showed itself, that has journaled the same invitation;
      what it journaled is this inviter as it showed itself when it issued the invitation, and whatever else that
      joiner wrote down under it is this inviter too, if perhaps under another name. */
  lemma InviterCommitsAfterJoinerJournals(s: System, f: Fact)
    requires Reachable(s) && f in s.committed && IssuedBy(s, f.id, f.node)
    ensures f.node in s.profiles
    ensures var c := f.outcome.fingerprint;
            && c != f.node && Known(s, f.outcome) && Fact(c, f.id, Ticket(s, f.id)) in s.journaled
            && (forall g | g in s.journaled && g.node == c && g.id == f.id :: g.outcome == Ticket(s, f.id))
            && (forall g | g in s.committed && g.node == c && g.id == f.id ::
                  Known(s, g.outcome) && g.outcome.fingerprint == f.node)
  {
    hide Inv, Reachable;
    ReachableInv(s);
    SeenCommit(s, f);
    var c := f.outcome.fingerprint;
    forall g | g in s.journaled && g.node == c && g.id == f.id ensures g.outcome == Ticket(s, f.id) {
      SeenJournal(s, g);
    }
    hide Known;
    forall g | g in s.committed && g.node == c && g.id == f.id
      ensures Known(s, g.outcome) && g.outcome.fingerprint == f.node
    {
      SeenCommit(s, g);
    }
  }

  /** A joiner only ever enrolls the inviter of that invitation, as it once showed itself, once that inviter has
      enrolled this very joiner. */
  lemma JoinerCommitsAfterInviter(s: System, f: Fact)
    requires Reachable(s) && f in s.committed && !IssuedBy(s, f.id, f.node)
    ensures f.node in s.profiles && f.id in s.issued
    ensures var n := s.issued[f.id].inviter;
            n != f.node && Known(s, f.outcome) && f.outcome.fingerprint == n && Wrote(s, n, f.id, f.node)
  {
    hide Inv, Reachable, Known, Wrote;
    ReachableInv(s);
    SeenCommit(s, f);
  }

  /** While both ends of an invitation hold it, they hold the same group key. */
  lemma OneKeyPerPairing(s: System, c: Node, n: Node, id: string)
    requires Reachable(s) && c in s.stores && n in s.stores && IssuedBy(s, id, n)
    requires id in s.stores[c].enrolled && id in s.stores[n].enrolled
    ensures s.stores[c].key == s.stores[n].key
  {
    hide Inv, Reachable, CommitOk;
    ReachableInv(s);
    Enrollment(s, c, id);
  }

  /** Who a device trusts, and under which certificate, is what its enrollments say: a peer is trusted if and only
      if an enrollment names it, no peer has two, and each of them names it as it once showed itself. */
  lemma TrustedAreEnrolled(s: System, x: Node)
    requires Reachable(s) && x in s.stores
    ensures forall d :: (d in s.stores[x].peers && !s.stores[x].peers[d].revoked) <==> HoldsOne(s.stores[x], d)
    ensures forall i, j | i in s.stores[x].enrolled && j in s.stores[x].enrolled
                          && s.stores[x].enrolled[i].identity.deviceId
                             == s.stores[x].enrolled[j].identity.deviceId :: i == j
    ensures forall id | id in s.stores[x].enrolled ::
              var o := s.stores[x].enrolled[id];
              Known(s, o) && Trusts(s.stores[x], o)
  {
    hide Inv, Reachable, Trusts, Known;
    ReachableInv(s);
    Books(s, x);
    forall id | id in s.stores[x].enrolled ensures Known(s, s.stores[x].enrolled[id]) {
      Enrollment(s, x, id);
    }
    forall d | HoldsOne(s.stores[x], d) ensures d in s.stores[x].peers && !s.stores[x].peers[d].revoked {
      var id :| id in s.stores[x].enrolled && s.stores[x].enrolled[id].identity.deviceId == d;
      TrustedPeer(s.stores[x], s.stores[x].enrolled[id]);
    }
  }

  lemma TrustedPeer(store: Store, o: Outcome)
    requires Trusts(store, o)
    ensures o.identity.deviceId in store.peers && !store.peers[o.identity.deviceId].revoked
  {
  }

  lemma Books(s: System, x: Node)
    requires Inv(s) && x in s.stores
    ensures Ledger(s.stores[x])
  {
    assert StoreOk(s, x);
  }

  /** One invitation never enrolls two joiners. */
  lemma OneJoinerPerInvitation(s: System, f: Fact, g: Fact)
    requires Reachable(s) && f in s.committed && g in s.committed && f.id == g.id
    requires !IssuedBy(s, f.id, f.node) && !IssuedBy(s, g.id, g.node)
    ensures f.node == g.node
  {
    hide Reachable, Inv;
    JoinerCommitsAfterInviter(s, f);
    JoinerCommitsAfterInviter(s, g);
    var n := s.issued[f.id].inviter;
    var o :| Fact(n, f.id, o) in s.committed && o.fingerprint == f.node;
    var q :| Fact(n, f.id, q) in s.committed && q.fingerprint == g.node;
    OneOutcome(s, Fact(n, f.id, o), Fact(n, f.id, q));
  }

  /** Whatever a device writes under one invitation is one device behind one certificate with one manifest. An
      inviter writes a single outcome; two that a joiner wrote differ exactly in how the inviter presented itself. */
  lemma OneOutcome(s: System, f: Fact, g: Fact)
    requires Reachable(s) && f in s.committed && g in s.committed && f.node == g.node && f.id == g.id
    ensures Alike(f.outcome, g.outcome)
    ensures IssuedBy(s, f.id, f.node) ==> f == g
    ensures f == g <==> f.outcome.metadata.presentation == g.outcome.metadata.presentation
  {
    hide Inv, Reachable;
    ReachableInv(s);
    SeenCommit(s, f);
    SeenCommit(s, g);
    InviterWritesOnce(s, f, g);
  }

  lemma InviterWritesOnce(s: System, f: Fact, g: Fact)
    requires Inv(s) && f in s.committed && g in s.committed && f.node == g.node && f.id == g.id
    ensures IssuedBy(s, f.id, f.node) ==> f == g
  {
  }

  /** Whatever carries the group key - the acceptance tag, or an answer to a recovery - exists only once the
      sender has durably enrolled the receiving device, and carries the inviter's own key for as long as the
      inviter keeps that enrollment. */
  lemma KeyOnlyAfterCommit(s: System)
    requires Reachable(s)
    ensures forall tag | tag in s.tags && tag.purpose == AcceptedKey ::
              && var h := tag.transcript.hello;
              && Wrote(s, h.server, h.invitation, h.client) && tag.key.Some?
              && KeyOf(s, h.server, h.invitation, tag.key.value)
    ensures forall a | a in s.recovered ::
              && Wrote(s, a.server, a.invitation, a.client)
              && (IssuedBy(s, a.invitation, a.server) ==> KeyOf(s, a.server, a.invitation, a.key))
  {
    hide CardsOk, StoresOk, HistoryOk, SessionsOk, Table, ConfigOk, Reachable;
    ReachableInv(s);
    forall tag | tag in s.tags && tag.purpose == AcceptedKey
      ensures && var h := tag.transcript.hello;
              && Wrote(s, h.server, h.invitation, h.client) && tag.key.Some?
              && KeyOf(s, h.server, h.invitation, tag.key.value) {
      assert TagOk(s, tag);
    }
    forall a | a in s.recovered
      ensures Wrote(s, a.server, a.invitation, a.client)
              && (IssuedBy(s, a.invitation, a.server) ==> KeyOf(s, a.server, a.invitation, a.key)) {
      assert RecoveredOk(s, a);
    }
  }

  /** The proof of preparation that an inviter waits for exists only if that joiner has journaled this inviter. */
  lemma ProofMeansJournal(s: System, tag: Tag)
    requires Reachable(s) && tag in s.tags && tag.purpose == ClientPrepared
    ensures var h := tag.transcript.hello;
            && IssuedBy(s, h.invitation, h.server) && h.server in s.profiles
            && Fact(h.client, h.invitation, Ticket(s, h.invitation)) in s.journaled
  {
    hide CardsOk, StoresOk, HistoryOk, SessionsOk, Table, ConfigOk, Reachable;
    ReachableInv(s);
    assert TagOk(s, tag);
  }

  // ----- Single use

  /** Never two sessions on one invitation between its claim and its release, never a sixth claim, never a second
      commit, never more than sixteen open; a committed invitation is open nowhere, so nothing claims it again. */
  lemma InvitationLimits(s: System)
    requires Reachable(s)
    ensures forall i, j | i in s.servers && j in s.servers
                          && s.servers[i].invitation.id == s.servers[j].invitation.id :: i == j
    ensures forall id | id in s.claims :: s.claims[id] <= MAX_ATTEMPTS
    ensures forall id | id in s.commits :: s.commits[id] <= 1
    ensures forall n | n in s.managers :: |s.managers[n]| <= MAX_INVITATIONS
    ensures forall n, id | n in s.managers && id in s.managers[n] :: id in s.commits && s.commits[id] == 0
  {
    hide Trust;
    ReachableInv(s);
    forall n, id | n in s.managers && id in s.managers[n] ensures id in s.commits && s.commits[id] == 0 {
      assert SlotOk(s, n, id, s.managers[n][id]);
    }
    forall n | n in s.managers ensures |s.managers[n]| <= MAX_INVITATIONS {
      assert SlotsOk(s.managers[n]);
    }
  }

  /** The commit counter moves only in a step that finds the invitation claimed and unexpired, and closes it. */
  lemma CommitsOnlyWhileClaimed(s: System, step: Step, s': System, id: string)
    requires Inv(s) && Next(s, step, s') && id in s.commits && id in s'.commits && s'.commits[id] != s.commits[id]
    ensures s'.commits[id] == s.commits[id] + 1 == 1
    ensures step.Approve? && step.sid in s.servers
    ensures var v := s.servers[step.sid];
            && v.invitation.id == id && v.node in s.managers && v.node in s'.managers
            && id in s.managers[v.node] && s.managers[v.node][id].claimed
            && step.now < s.managers[v.node][id].invitation.expiresAt && id !in s'.managers[v.node]
  {
    hide CardsOk, StoresOk, HistoryOk, MessagesOk, SessionsOk, ManagersOk, CountsOk, ClaimsOk, ConfigOk;
    assert step.Approve? by {
      hide Inv;
      CommitsMove(s, step, s', id);
    }
    ApproveCommits(s, step.sid, step.now, s', id);
  }

  /** Only an approval moves a counter that already exists. */
  lemma CommitsMove(s: System, step: Step, s': System, id: string)
    requires Inv(s) && Next(s, step, s') && id in s.commits && id in s'.commits && s'.commits[id] != s.commits[id]
    ensures step.Approve?
  {
    hide Trust, Table, MayEnroll, Enroll, Claim, Release, StartStep, ConfirmStep, ReadyStep, PrepareStep, ProveStep,
         SendKeyStep, CommitStep, SendCommitStep, RemoveStep, AnswerStep, RecoverStep;
    if Quiet(step) {
      hide Next;
      QuietSteps(s, step, s');
    } else if step.CreateInvitation? {
      hide Create;
      CommitsIssued(s, id);
    } else if step.AcceptHello? || step.Complete? {
    }
  }

  lemma CommitsIssued(s: System, id: string)
    requires Inv(s) && id in s.commits
    ensures id in s.issued
  {
  }

  lemma ApproveCommits(s: System, sid: nat, now: nat, s': System, id: string)
    requires Inv(s) && ApproveStep(s, sid, now, s') && id in s.commits && id in s'.commits
      && s'.commits[id] != s.commits[id]
    ensures s'.commits[id] == s.commits[id] + 1 == 1
    ensures sid in s.servers
    ensures var v := s.servers[sid];
            && v.invitation.id == id && v.node in s.managers && v.node in s'.managers
            && id in s.managers[v.node] && s.managers[v.node][id].claimed
            && now < s.managers[v.node][id].invitation.expiresAt && id !in s'.managers[v.node]
  {
    hide Trust, MayEnroll, Enroll, CountsOk, ClaimsOk;
    var n := s.servers[sid].node;
    assert SlotOk(s, n, id, s.managers[n][id]);
  }

  // ----- Recovery

  /** Whether a joiner may take this key: the inviter is not a peer it removed or knows under another certificate,
      and it is not already in a group under another key. */
  predicate FreeToJoin(store: Store, o: Outcome, key: string) {
    !Barred(store, o) && (key != store.key ==> !HasLive(store))
  }

  /** Whether the journal, if it is still there, has the inviter as it shows itself now. */
  predicate StillNamed(store: Store, id: string, metadata: Metadata) {
    id in store.prepared ==> store.prepared[id].outcome.metadata == metadata
  }

  function Answer(s: System, n: Node, c: Node, id: string): Recovered
    requires n in s.profiles && n in s.stores
  {
    Recovered(n, c, id, s.profiles[n].identity, s.profiles[n].metadata, s.stores[n].key)
  }

  function Answered(s: System, n: Node, c: Node, id: string): System
    requires n in s.profiles && n in s.stores
  {
    s.(recovered := s.recovered + {Answer(s, n, c, id)})
  }

  function Finish(s: System, n: Node, c: Node, id: string): System
    requires n in s.profiles && n in s.stores && c in s.stores
  {
    var mid := Answered(s, n, c, id);
    mid.(committed := s.committed + {Fact(c, id, Card(s, n))},
         stores := s.stores[c := Enroll(s.stores[c], id, Card(s, n), s.stores[n].key, false)])
  }

  /** The inviter enrolled this joiner and stands by it. */
  ghost predicate StandsBy(s: System, n: Node, c: Node, id: string) {
    IssuedBy(s, id, n) && n in s.stores && id in s.stores[n].enrolled && s.stores[n].enrolled[id].fingerprint == c
  }

  /** The situation a crash can leave behind: the inviter stands by a joiner that has only its journal. */
  ghost predicate HalfPaired(s: System, n: Node, c: Node, id: string) {
    StandsBy(s, n, c, id) && c in s.stores && id in s.stores[c].prepared
  }

  /** Whether an answer lets the joiner finish. */
  predicate CanFinish(s: System, n: Node, c: Node, id: string)
    requires n in s.profiles && n in s.stores && c in s.stores
  {
    FreeToJoin(s.stores[c], Card(s, n), s.stores[n].key) && StillNamed(s.stores[c], id, s.profiles[n].metadata)
  }

  lemma StandsByKnown(s: System, n: Node, c: Node, id: string)
    requires Inv(s) && StandsBy(s, n, c, id)
    ensures n in s.profiles && n in s.stores && c in s.profiles && c in s.stores && Fits(s, n, c) && Fits(s, c, n)
    ensures Known(s, s.stores[n].enrolled[id]) && Trusts(s.stores[n], s.stores[n].enrolled[id])
    ensures id in s.issued && HasJournaled(s, c, id) && Alike(Ticket(s, id), Card(s, n))
    ensures ValidIdentity(s.profiles[n].identity, s.profiles[n].metadata)
    ensures ValidIdentity(s.profiles[c].identity, s.profiles[c].metadata)
  {
    hide Inv;
    Enrollment(s, n, id);
    KnownValid(s, n, c);
    TicketAlike(s, id);
  }

  lemma TicketAlike(s: System, id: string)
    requires Inv(s) && id in s.issued
    ensures TicketKnown(s, id)
  {
  }

  lemma JournalHeld(s: System, c: Node, id: string)
    requires Inv(s) && c in s.stores && id in s.stores[c].prepared
    ensures Fact(c, id, s.stores[c].prepared[id].outcome) in s.journaled
  {
    assert StoreOk(s, c);
  }

  lemma KnownValid(s: System, n: Node, c: Node)
    requires Inv(s) && n in s.profiles && c in s.profiles
    ensures ValidIdentity(s.profiles[n].identity, s.profiles[n].metadata)
    ensures ValidIdentity(s.profiles[c].identity, s.profiles[c].metadata)
    ensures n in s.stores && c in s.stores
  {
  }

  /** The inviter always answers a joiner it stands by. */
  lemma RecoveryIsAnswered(s: System, n: Node, c: Node, id: string)
    requires Reachable(s) && StandsBy(s, n, c, id)
    ensures n in s.profiles && c in s.profiles
    ensures Next(s, AnswerRecovery(n, c, id, s.profiles[c].identity), Answered(s, n, c, id))
  {
    hide Inv, Reachable;
    ReachableInv(s);
    StandsByKnown(s, n, c, id);
  }

  /** The joiner completes from the answer exactly when its own store lets it join and its journal, if it still has
      it, names the inviter as it shows itself now; and in exactly one way: from a copy of what it journaled. */
  lemma RecoveryCompletes(s: System, n: Node, c: Node, id: string)
    requires Reachable(s) && StandsBy(s, n, c, id)
    ensures n in s.profiles && c in s.profiles && c in s.stores && id in s.issued
    ensures forall previous, s' :: Next(Answered(s, n, c, id), Recover(c, Answer(s, n, c, id), previous), s') <==>
              previous == Ticket(s, id) && CanFinish(s, n, c, id) && s' == Finish(s, n, c, id)
  {
    hide Inv, Reachable, Enroll, MayEnroll, StandsBy, CanFinish;
    ReachableInv(s);
    StandsByKnown(s, n, c, id);
    var mid, a := Answered(s, n, c, id), Answer(s, n, c, id);
    MayFinish(s, n, c, id);
    forall previous, s' ensures RecoverStep(mid, c, a, previous, s') <==>
                                previous == Ticket(s, id) && CanFinish(s, n, c, id) && s' == Finish(s, n, c, id)
    {
      if RecoverStep(mid, c, a, previous, s') {
        SeenJournal(s, Fact(c, id, previous));
      }
    }
  }

  lemma MayFinish(s: System, n: Node, c: Node, id: string)
    requires Inv(s) && StandsBy(s, n, c, id)
    ensures n in s.profiles && c in s.profiles && c in s.stores && n in s.stores && id in s.issued
    ensures MayEnroll(s.stores[c], s.profiles[c], id, Card(s, n), s.stores[n].key,
      RecoveryHandler(s.stores[c], Ticket(s, id)))
            <==> CanFinish(s, n, c, id)
  {
    hide Inv, HasLive, Barred;
    StandsByKnown(s, n, c, id);
    if id in s.stores[c].prepared {
      JournalHeld(s, c, id);
      SeenJournal(s, Fact(c, id, s.stores[c].prepared[id].outcome));
    }
  }

  /** Then each holds the other and one key; whatever else the joiner held stays, and so do the inviter's store,
      the invitation table, the counts and the sessions. */
  lemma RecoveryLeavesTheRest(s: System, n: Node, c: Node, id: string)
    requires Reachable(s) && StandsBy(s, n, c, id)
    ensures n in s.profiles && n in s.stores && c in s.profiles && c in s.stores
    ensures CanFinish(s, n, c, id) ==>
              var s' := Finish(s, n, c, id);
              && Trusts(s'.stores[c], Card(s, n)) && s'.stores[c].enrolled[id] == Card(s, n)
              && id !in s'.stores[c].prepared && s'.stores[c].key == s'.stores[n].key && s'.stores[n] == s.stores[n]
              && (forall i | i in s.stores[c].enrolled && s.stores[c].enrolled[i].fingerprint != n ::
                    i in s'.stores[c].enrolled && s'.stores[c].enrolled[i] == s.stores[c].enrolled[i])
              && s'.managers == s.managers && s'.claims == s.claims && s'.commits == s.commits
              && s'.servers == s.servers && s'.clients == s.clients
  {
    hide Inv, Reachable, Ledger;
    ReachableInv(s);
    StandsByKnown(s, n, c, id);
    if CanFinish(s, n, c, id) {
      hide HasLive, Fits, StandsBy, HasJournaled;
      Books(s, c);
      if id in s.stores[c].enrolled {
        Enrollment(s, c, id);
      }
      EnrollTrusts(s.stores[c], id, Card(s, n), s.stores[n].key, false);
      forall i | i in s.stores[c].enrolled && s.stores[c].enrolled[i].fingerprint != n
        ensures i != id && s.stores[c].enrolled[i].identity.deviceId != s.profiles[n].identity.deviceId
      {
        OtherPeer(s, c, i, n);
      }
    }
  }

  /** Two peers with one device id cannot both be trusted. */
  lemma OtherPeer(s: System, c: Node, i: string, n: Node)
    requires Inv(s) && n in s.profiles && c in s.stores && i in s.stores[c].enrolled
    requires s.stores[c].enrolled[i].fingerprint != n && !Barred(s.stores[c], Card(s, n))
    ensures s.stores[c].enrolled[i].identity.deviceId != s.profiles[n].identity.deviceId
  {
    Books(s, c);
    hide Inv;
    assert Trusts(s.stores[c], s.stores[c].enrolled[i]);
  }
}
