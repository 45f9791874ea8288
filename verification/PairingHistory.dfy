/** What pairing forgets, and when: re-pairing a known device drops its earlier enrollments and removing one drops
    all of them, so agreement about what is still held is agreement about history plus the absence of these. */
module PairingHistory {
  import opened Clocks
  import opened Invitations
  import opened Pairing
  import opened PairingSafety
  import opened PairingRuns

  // ----- What one step does to the stores

  datatype Commit = Commit(node: Node, id: string, outcome: Outcome, key: string, repair: bool)

  /** The enrollment a step performs, if it performs one. */
  function CommitOf(s: System, step: Step): Option<Commit> {
    match step
    case Approve(sid, now) =>
      if sid in s.servers && s.servers[sid].node in s.stores then
        var v := s.servers[sid];
        Some(Commit(v.node, v.invitation.id, Greeting(v.transcript.hello), s.stores[v.node].key, v.handler.repair))
      else None
    case CommitLink(sid, key, now) =>
      if sid in s.clients && s.clients[sid].phase.Proved? then
        var c := s.clients[sid];
        Some(Commit(c.node, c.invitation.id, OutcomeOf(c.phase.transcript), key, c.handler.repair))
      else None
    case Recover(n, a, previous) =>
      Some(Commit(n, a.invitation, Outcome(a.identity, a.metadata, previous.fingerprint), a.key, false))
    case _ => None
  }

  /** What a committing step does, and what it needed. */
  lemma Commits(s: System, step: Step, s': System)
    requires Next(s, step, s') && CommitOf(s, step).Some?
    ensures var m := CommitOf(s, step).value;
            && m.node in s.stores && (Barred(s.stores[m.node], m.outcome) ==> m.repair)
            && (m.key != s.stores[m.node].key ==> !HasLive(s.stores[m.node]))
            && s'.stores == s.stores[m.node := Enroll(s.stores[m.node], m.id, m.outcome, m.key, m.repair)]
            && s'.committed == s.committed + {Fact(m.node, m.id, m.outcome)} && s'.journaled == s.journaled
  {
    hide Enroll, HasLive, Barred;
  }

  /** Peers, enrollments and keys stand still. */
  ghost predicate TrustStands(s: System, s': System) {
    && s'.stores.Keys == s.stores.Keys && s'.committed == s.committed
    && forall x | x in s.stores ::
         && s'.stores[x].peers == s.stores[x].peers && s'.stores[x].enrolled == s.stores[x].enrolled
         && s'.stores[x].key == s.stores[x].key
  }

  /** Every step but an enrollment and a removal leaves them alone. */
  lemma Leaves(s: System, step: Step, s': System)
    requires Next(s, step, s') && CommitOf(s, step).None? && !step.RemovePeer?
    ensures TrustStands(s, s')
  {
    hide Next, CommitOf;
    if !Durable(step) {
      IdleSteps(s, step, s');
    } else if step.Prepare? {
      hide TrustStands;
      LeavesOnPrepare(s, step.sid, s');
    } else if step.NewGeneration? || step.Crash? {
      hide TrustStands;
      LeavesOnRenewal(s, step, s');
    } else {
      hide TrustStands;
      Enrolls(s, step, s');
    }
  }

  lemma Enrolls(s: System, step: Step, s': System)
    requires Next(s, step, s') && (step.Approve? || step.CommitLink? || step.Recover?)
    ensures CommitOf(s, step).Some?
  {
    hide MayEnroll, Enroll;
  }

  lemma LeavesOnPrepare(s: System, sid: nat, s': System)
    requires Next(s, Prepare(sid), s')
    ensures TrustStands(s, s')
  {
    hide Validate;
  }

  lemma LeavesOnRenewal(s: System, step: Step, s': System)
    requires Next(s, step, s') && (step.NewGeneration? || step.Crash?)
    ensures TrustStands(s, s')
  {
    RenewedStands(s, step.node);
  }

  lemma RenewedStands(s: System, n: Node)
    requires n in s.stores
    ensures TrustStands(s, s.(stores := s.stores[n := Renewed(s.stores[n])]))
  {
  }

  // ----- Forgetting, exactly

  /** The steps that make `x` forget what it holds under `id`: removing that peer, or pairing with it again. */
  predicate Displaces(s: System, step: Step, x: Node, id: string)
    requires x in s.stores && id in s.stores[x].enrolled
  {
    var device := s.stores[x].enrolled[id].identity.deviceId;
    || step == RemovePeer(x, device)
    || (CommitOf(s, step).Some? && var m := CommitOf(s, step).value;
        m.node == x && m.id != id && m.outcome.identity.deviceId == device)
  }

  /** A commit under the invitation held already that finds the other device under another name. */
  predicate Rewrites(s: System, step: Step, x: Node, id: string)
    requires x in s.stores && id in s.stores[x].enrolled
  {
    && CommitOf(s, step).Some?
    && var m := CommitOf(s, step).value;
       && m.node == x && m.id == id
       && m.outcome.metadata.presentation != s.stores[x].enrolled[id].metadata.presentation
  }

  /** What a step makes of an enrollment. */
  ghost predicate Settles(s: System, step: Step, s': System, x: Node, id: string)
    requires x in s.stores && id in s.stores[x].enrolled
  {
    && x in s'.stores && (id in s'.stores[x].enrolled <==> !Displaces(s, step, x, id))
    && (id in s'.stores[x].enrolled ==>
          && Alike(s'.stores[x].enrolled[id], s.stores[x].enrolled[id])
          && (s'.stores[x].enrolled[id] == s.stores[x].enrolled[id] <==> !Rewrites(s, step, x, id)))
  }

  /** An enrollment is lost in exactly the displacing steps; it always names the same device, and what it says changes
      in exactly the rewriting ones. */
  lemma EnrollmentLost(s: System, step: Step, s': System, x: Node, id: string)
    requires Inv(s) && Next(s, step, s') && x in s.stores && id in s.stores[x].enrolled
    ensures Settles(s, step, s', x, id)
  {
    hide Inv, Next, Settles, CommitOf;
    if CommitOf(s, step).Some? {
      KeptByCommit(s, step, s', x, id);
    } else if step.RemovePeer? {
      KeptByRemoval(s, step.node, step.device, s', x, id);
    } else {
      KeptOtherwise(s, step, s', x, id);
    }
  }

  lemma KeptByRemoval(s: System, n: Node, device: string, s': System, x: Node, id: string)
    requires Next(s, RemovePeer(n, device), s') && x in s.stores && id in s.stores[x].enrolled
    ensures Settles(s, RemovePeer(n, device), s', x, id)
  {
  }

  lemma KeptOtherwise(s: System, step: Step, s': System, x: Node, id: string)
    requires Next(s, step, s') && x in s.stores && id in s.stores[x].enrolled
    requires CommitOf(s, step).None? && !step.RemovePeer?
    ensures Settles(s, step, s', x, id)
  {
    hide Next, CommitOf;
    Leaves(s, step, s');
  }

  lemma KeptByCommit(s: System, step: Step, s': System, x: Node, id: string)
    requires Inv(s) && Next(s, step, s') && x in s.stores && id in s.stores[x].enrolled && CommitOf(s, step).Some?
    ensures Settles(s, step, s', x, id)
  {
    hide Inv, Next, Ledger, Enroll, CommitOf, Settles;
    Commits(s, step, s');
    var m := CommitOf(s, step).value;
    if m.node == x {
      Books(s, x);
      SameOutcome(s, step, s', m);
      EnrollTrusts(s.stores[x], m.id, m.outcome, m.key, m.repair);
      hide EnrolledOver, Barred;
      OverSettles(s, step, s', x, id, m);
    } else {
      ElsewhereSettles(s, step, s', x, id, m);
    }
  }

  lemma OverSettles(s: System, step: Step, s': System, x: Node, id: string, m: Commit)
    requires x in s.stores && id in s.stores[x].enrolled && CommitOf(s, step) == Some(m) && m.node == x
      && x in s'.stores
    requires EnrolledOver(s.stores[x], s'.stores[x], m.id, m.outcome)
    requires m.id in s.stores[x].enrolled ==> Alike(s.stores[x].enrolled[m.id], m.outcome)
    ensures Settles(s, step, s', x, id)
  {
    hide Trusts;
  }

  lemma ElsewhereSettles(s: System, step: Step, s': System, x: Node, id: string, m: Commit)
    requires x in s.stores && id in s.stores[x].enrolled && CommitOf(s, step) == Some(m) && m.node != x
    requires x in s'.stores && s'.stores[x] == s.stores[x]
    ensures Settles(s, step, s', x, id)
  {
  }

  /** A commit never contradicts what the same device already holds under that invitation. */
  lemma SameOutcome(s: System, step: Step, s': System, m: Commit)
    requires Inv(s) && Next(s, step, s') && CommitOf(s, step) == Some(m)
    ensures m.node in s.stores
    ensures m.id in s.stores[m.node].enrolled ==> Alike(s.stores[m.node].enrolled[m.id], m.outcome)
  {
    hide Inv, Next, Ledger, Enroll, CommitOf, Alike;
    Commits(s, step, s');
    NextKeeps(s, step, s');
    if m.id in s.stores[m.node].enrolled {
      Enrollment(s, m.node, m.id);
      OnlyOutcome(s', Fact(m.node, m.id, s.stores[m.node].enrolled[m.id]), Fact(m.node, m.id, m.outcome));
    }
  }

  lemma OnlyOutcome(s: System, f: Fact, g: Fact)
    requires Inv(s) && f in s.committed && g in s.committed && f.node == g.node && f.id == g.id
    ensures Alike(f.outcome, g.outcome)
  {
    hide Inv;
    SeenCommit(s, f);
    SeenCommit(s, g);
    InviterWritesOnce(s, f, g);
  }

  /** A joiner writes the inviter down as it issued the invitation, except in exactly one case: a recovery from a copy
      of a journal that is gone, answered by an inviter that has been renamed since. So only a joiner's enrollment is
      ever rewritten. */
  lemma OffTicketIff(s: System, step: Step, s': System)
    requires Inv(s) && Next(s, step, s') && CommitOf(s, step).Some?
    requires !IssuedBy(s, CommitOf(s, step).value.id, CommitOf(s, step).value.node)
    ensures var m := CommitOf(s, step).value;
            && m.node in s.stores && m.id in s.issued && s.issued[m.id].inviter in s.profiles
            && (m.outcome != Ticket(s, m.id) <==> step.Recover? && step.answer.metadata != s.issued[m.id].metadata)
            && (m.outcome != Ticket(s, m.id) ==> m.id !in s.stores[m.node].prepared)
  {
    hide Inv, Next;
    if step.Approve? {
      ApprovedByInviter(s, step.sid);
    } else if step.CommitLink? {
      LinkWritesTicket(s, step.sid, step.key, step.now, s');
    } else {
      RecoveryWrites(s, step.node, step.answer, step.previous, s');
    }
  }

  lemma ApprovedByInviter(s: System, sid: nat)
    requires Inv(s) && sid in s.servers
    ensures IssuedBy(s, s.servers[sid].invitation.id, s.servers[sid].node)
  {
    hide ConfigOk, CardsOk, HistoryOk, StoresOk, MessagesOk, Table;
    assert ServerOk(s, s.servers[sid]);
  }

  lemma LinkWritesTicket(s: System, sid: nat, key: string, now: nat, s': System)
    requires Inv(s) && Next(s, CommitLink(sid, key, now), s')
    ensures sid in s.clients && s.clients[sid].phase.Proved? && s.clients[sid].node in s.stores
    ensures var c := s.clients[sid];
            && c.invitation.id in s.issued && s.issued[c.invitation.id].inviter in s.profiles
            && OutcomeOf(c.phase.transcript) == Ticket(s, c.invitation.id)
  {
    hide ConfigOk, CardsOk, HistoryOk, StoresOk, MessagesOk, Table, MayEnroll, Enroll;
    assert ClientOk(s, s.clients[sid]);
  }

  lemma RecoveryWrites(s: System, n: Node, a: Recovered, previous: Outcome, s': System)
    requires Inv(s) && Next(s, Recover(n, a, previous), s')
    ensures n in s.stores && a.invitation in s.issued && s.issued[a.invitation].inviter in s.profiles
    ensures previous == Ticket(s, a.invitation) && a.identity == previous.identity
    ensures a.metadata != previous.metadata ==> a.invitation !in s.stores[n].prepared
  {
    hide Inv, Enroll, HasLive, Barred;
    SeenJournal(s, Fact(n, a.invitation, previous));
    if a.invitation in s.stores[n].prepared {
      JournalHeld(s, n, a.invitation);
      SeenJournal(s, Fact(n, a.invitation, s.stores[n].prepared[a.invitation].outcome));
    }
  }

  // ----- Removed peers

  /** A link that was started as a repair of this peer, and brings it back under this certificate. */
  predicate Repairs(s: System, step: Step, x: Node, o: Outcome) {
    && step.CommitLink? && CommitOf(s, step).Some?
    && var m := CommitOf(s, step).value;
       m.node == x && m.repair && m.outcome.identity.deviceId == o.identity.deviceId
         && m.outcome.fingerprint == o.fingerprint
  }

  /** A peer that was removed, or is known under another certificate, is trusted again in exactly one kind of step:
      the joiner's commit of an explicit repair. */
  lemma OnlyRepairLiftsBar(s: System, step: Step, s': System, x: Node, o: Outcome)
    requires Inv(s) && Next(s, step, s') && x in s.stores && Barred(s.stores[x], o)
    ensures x in s'.stores
    ensures Trusts(s'.stores[x], o) <==> Repairs(s, step, x, o)
    ensures Trusts(s'.stores[x], o) || Barred(s'.stores[x], o)
  {
    hide Inv, Next, Ledger, Enroll;
    if CommitOf(s, step).Some? {
      hide CommitOf;
      Commits(s, step, s');
      var m := CommitOf(s, step).value;
      if m.node == x {
        Books(s, x);
        SameOutcome(s, step, s', m);
        EnrollTrusts(s.stores[x], m.id, m.outcome, m.key, m.repair);
        if m.repair { RepairIsALink(s, step, s'); }
      }
    } else if step.RemovePeer? {
      BarredAfterRemoval(s, step.node, step.device, s', x, o);
    } else {
      hide CommitOf;
      Leaves(s, step, s');
    }
  }

  lemma BarredAfterRemoval(s: System, n: Node, device: string, s': System, x: Node, o: Outcome)
    requires Next(s, RemovePeer(n, device), s') && x in s.stores && Barred(s.stores[x], o)
    ensures x in s'.stores && Barred(s'.stores[x], o)
  {
  }

  lemma RepairIsALink(s: System, step: Step, s': System)
    requires Inv(s) && Next(s, step, s') && CommitOf(s, step).Some? && CommitOf(s, step).value.repair
    ensures step.CommitLink?
  {
    hide Next, Inv;
    if step.Approve? { ServersNeverRepair(s, step.sid); }
  }

  lemma ServersNeverRepair(s: System, sid: nat)
    requires Inv(s) && sid in s.servers
    ensures !s.servers[sid].handler.repair
  {
    hide ConfigOk, CardsOk, HistoryOk, StoresOk, MessagesOk, Table;
    assert ServerOk(s, s.servers[sid]);
  }

  /** A removal bars the peer under every certificate. */
  lemma RemovalBars(s: System, n: Node, device: string, s': System, o: Outcome)
    requires Next(s, RemovePeer(n, device), s') && o.identity.deviceId == device
    ensures n in s'.stores && Barred(s'.stores[n], o) && !HoldsOne(s'.stores[n], device)
  {
  }

  /** An inviter never enrolls a peer it removed or knows under another certificate; a joiner does only on repair. */
  lemma BarredAreRefused(s: System, step: Step, s': System)
    requires Inv(s) && Next(s, step, s') && CommitOf(s, step).Some?
    ensures var m := CommitOf(s, step).value;
            m.node in s.stores && (Barred(s.stores[m.node], m.outcome) ==> step.CommitLink? && m.repair)
  {
    hide Inv, Next, Enroll, CommitOf;
    Commits(s, step, s');
    if CommitOf(s, step).value.repair { RepairIsALink(s, step, s'); }
  }

  // ----- Over runs

  predicate Holds(s: System, x: Node, id: string) {
    x in s.stores && id in s.stores[x].enrolled
  }

  /** No step from `i` up to `j` makes `x` forget what it holds under `id`. */
  predicate Undisturbed(states: seq<System>, steps: seq<Step>, i: nat, j: nat, x: Node, id: string)
    requires |states| == |steps| + 1 && i <= j <= |steps|
  {
    forall k | i <= k < j && Holds(states[k], x, id) :: !Displaces(states[k], steps[k], x, id)
  }

  /** What a device holds it keeps exactly until a step that displaces it, and it names the same device all along. */
  lemma {:induction false} HeldUntilDisplaced(
    states: seq<System>, steps: seq<Step>, i: nat, j: nat, x: Node, id: string)
    requires Run(states, steps) && i <= j <= |steps| && Holds(states[i], x, id)
    ensures HoldsThroughout(states, i, j, x, id) <==> Undisturbed(states, steps, i, j, x, id)
    ensures HoldsThroughout(states, i, j, x, id) ==>
              Alike(states[j].stores[x].enrolled[id], states[i].stores[x].enrolled[id])
  {
    hide Run, Inv, Next, Displaces, Rewrites;
    if i < j {
      HeldUntilDisplaced(states, steps, i, j - 1, x, id);
      RunStep(states, steps, j - 1);
      RunInv(states, steps, j - 1);
      if Holds(states[j - 1], x, id) {
        EnrollmentLost(states[j - 1], steps[j - 1], states[j], x, id);
      }
    }
  }

  predicate HoldsThroughout(states: seq<System>, i: nat, j: nat, x: Node, id: string)
    requires i <= j < |states|
  {
    forall k | i <= k <= j :: Holds(states[k], x, id)
  }

  lemma RunStep(states: seq<System>, steps: seq<Step>, k: nat)
    requires Run(states, steps) && k < |steps|
    ensures |states| == |steps| + 1 && Next(states[k], steps[k], states[k + 1])
  {
    hide Next, Init;
  }

  lemma RunStart(states: seq<System>, steps: seq<Step>)
    requires Run(states, steps)
    ensures |states| == |steps| + 1 && Init(states[0])
  {
    hide Next, Init;
  }

  /** A device held `f` at some moment up to `j`. */
  predicate WasHeld(states: seq<System>, j: nat, f: Fact)
    requires j < |states|
  {
    exists i: nat :: i <= j && HoldsFact(states[i], f)
  }

  predicate HoldsFact(s: System, f: Fact) {
    Holds(s, f.node, f.id) && s.stores[f.node].enrolled[f.id] == f.outcome
  }

  predicate WasJournaled(states: seq<System>, j: nat, f: Fact)
    requires j < |states|
  {
    exists i: nat :: i <= j && JournalsFact(states[i], f)
  }

  predicate JournalsFact(s: System, f: Fact) {
    f.node in s.stores && f.id in s.stores[f.node].prepared && s.stores[f.node].prepared[f.id].outcome == f.outcome
  }

  /** The remembered history is what the stores really held. */
  lemma {:induction false} HistoryIsReal(states: seq<System>, steps: seq<Step>, j: nat, f: Fact)
    requires Run(states, steps) && j < |states|
    ensures f in states[j].committed <==> WasHeld(states, j, f)
    ensures f in states[j].journaled <==> WasJournaled(states, j, f)
  {
    hide Run, Inv, Next, Init, HoldsFact, JournalsFact;
    RunInv(states, steps, j);
    RunStart(states, steps);
    HeldIsRemembered(states[j], f);
    if j == 0 {
      NothingAtFirst(states[0], f);
    } else {
      HistoryIsReal(states, steps, j - 1, f);
      RunStep(states, steps, j - 1);
      OneStepOfHistory(states[j - 1], steps[j - 1], states[j], f);
      assert WasHeld(states, j, f) <==> WasHeld(states, j - 1, f) || HoldsFact(states[j], f);
      assert WasJournaled(states, j, f) <==> WasJournaled(states, j - 1, f) || JournalsFact(states[j], f);
    }
  }

  lemma HeldIsRemembered(s: System, f: Fact)
    requires Inv(s)
    ensures HoldsFact(s, f) ==> f in s.committed
    ensures JournalsFact(s, f) ==> f in s.journaled
  {
    hide Inv;
    if f.node in s.stores {
      StoreRemembered(s, f.node);
    }
  }

  lemma StoreRemembered(s: System, x: Node)
    requires Inv(s) && x in s.stores
    ensures forall id | id in s.stores[x].enrolled :: Fact(x, id, s.stores[x].enrolled[id]) in s.committed
    ensures forall id | id in s.stores[x].prepared :: Fact(x, id, s.stores[x].prepared[id].outcome) in s.journaled
  {
    assert StoreOk(s, x);
    hide Inv, Ledger;
    forall id | id in s.stores[x].enrolled ensures Fact(x, id, s.stores[x].enrolled[id]) in s.committed {
      assert EnrolledOk(s, x, id);
    }
  }

  lemma NothingAtFirst(s: System, f: Fact)
    requires Init(s)
    ensures !HoldsFact(s, f) && !JournalsFact(s, f) && f !in s.committed && f !in s.journaled
  {
  }

  lemma EnrollStores(store: Store, m: Commit)
    ensures var after := Enroll(store, m.id, m.outcome, m.key, m.repair);
            m.id in after.enrolled && after.enrolled[m.id] == m.outcome
  {
  }

  /** History only grows, and only by what has just been stored. */
  ghost predicate Appends(s: System, s': System, f: Fact) {
    && (f in s.committed ==> f in s'.committed) && (f in s'.committed ==> f in s.committed || HoldsFact(s', f))
    && (f in s.journaled ==> f in s'.journaled) && (f in s'.journaled ==> f in s.journaled || JournalsFact(s', f))
  }

  lemma OneStepOfHistory(s: System, step: Step, s': System, f: Fact)
    requires Next(s, step, s')
    ensures Appends(s, s', f)
  {
    hide CommitOf, Next, Enroll;
    if CommitOf(s, step).Some? {
      Commits(s, step, s');
      EnrollStores(s.stores[CommitOf(s, step).value.node], CommitOf(s, step).value);
    } else if !Durable(step) {
      IdleSteps(s, step, s');
    } else if step.Prepare? {
      hide Appends;
      JournalAppends(s, step.sid, s', f);
    } else if step.Approve? || step.CommitLink? || step.Recover? {
      Enrolls(s, step, s');
    } else {
      RemovalAppends(s, step, s');
    }
  }

  lemma JournalAppends(s: System, sid: nat, s': System, f: Fact)
    requires Next(s, Prepare(sid), s')
    ensures Appends(s, s', f)
  {
    hide Validate;
  }

  lemma RemovalAppends(s: System, step: Step, s': System)
    requires Next(s, step, s') && (step.NewGeneration? || step.Crash? || step.RemovePeer?)
    ensures s'.committed == s.committed && s'.journaled == s.journaled
  {
    hide Removed, Renewed;
  }

  /** A joiner that holds a pairing got it after the inviter did; if nothing made the inviter forget it since, the
      inviter holds it still, and both hold one key. */
  lemma JoinerHoldsWhatInviterHeld(states: seq<System>, steps: seq<Step>, j: nat, c: Node, id: string)
    returns (i: nat, card: Outcome)
    requires Run(states, steps) && j < |states| && Holds(states[j], c, id) && !IssuedBy(states[j], id, c)
    ensures i <= j && id in states[j].issued
    ensures var n := states[j].issued[id].inviter;
            && Known(states[j], states[j].stores[c].enrolled[id]) && states[j].stores[c].enrolled[id].fingerprint == n
            && card.fingerprint == c && Known(states[j], card) && HoldsFact(states[i], Fact(n, id, card))
            && (Undisturbed(states, steps, i, j, n, id) ==>
                  HoldsFact(states[j], Fact(n, id, card)) && states[j].stores[c].key == states[j].stores[n].key)
  {
    var s := states[j];
    assert Reachable(s) by { ReachedAt(states, steps, j); }
    RunInv(states, steps, j);
    hide Inv, Reachable, Run, Displaces, Known, Alike;
    Enrollment(s, c, id);
    JoinerCommitsAfterInviter(s, Fact(c, id, s.stores[c].enrolled[id]));
    var n := s.issued[id].inviter;
    card :| Fact(n, id, card) in s.committed && card.fingerprint == c;
    var g := Fact(n, id, card);
    SeenCommit(s, g);
    HistoryIsReal(states, steps, j, g);
    i :| i <= j && HoldsFact(states[i], g);
    HeldUntilDisplaced(states, steps, i, j, n, id);
    if Undisturbed(states, steps, i, j, n, id) {
      Enrollment(s, n, id);
      InviterWritesOnce(s, g, Fact(n, id, s.stores[n].enrolled[id]));
      OneKeyPerPairing(s, c, n, id);
    }
  }

  lemma ReachedAt(states: seq<System>, steps: seq<Step>, j: nat)
    requires Run(states, steps) && j < |states|
    ensures Reachable(states[j])
  {
    hide Next, Init;
    assert Run(states[..j + 1], steps[..j]);
  }

  /** An inviter that holds a pairing got it after the joiner had journaled it. */
  lemma InviterHoldsWhatJoinerJournaled(states: seq<System>, steps: seq<Step>, j: nat, n: Node, id: string)
    returns (i: nat)
    requires Run(states, steps) && j < |states| && Holds(states[j], n, id) && IssuedBy(states[j], id, n)
    ensures i <= j && n in states[j].profiles
    ensures JournalsFact(states[i], Fact(states[j].stores[n].enrolled[id].fingerprint, id, Ticket(states[j], id)))
  {
    var s := states[j];
    assert Reachable(s) by { ReachedAt(states, steps, j); }
    RunInv(states, steps, j);
    hide Inv, Reachable, Run, Known;
    Enrollment(s, n, id);
    InviterCommitsAfterJoinerJournals(s, Fact(n, id, s.stores[n].enrolled[id]));
    var g := Fact(s.stores[n].enrolled[id].fingerprint, id, Ticket(s, id));
    HistoryIsReal(states, steps, j, g);
    i :| i <= j && JournalsFact(states[i], g);
  }

  // ----- What devices showed of themselves

  predicate Shows(s: System, o: Outcome) {
    o.fingerprint in s.profiles && o == Card(s, o.fingerprint)
  }

  predicate WasShown(states: seq<System>, j: nat, o: Outcome)
    requires j < |states|
  {
    exists i: nat :: i <= j && Shows(states[i], o)
  }

  /** Only opening again changes what a device shows. */
  lemma NamesStay(s: System, step: Step, s': System)
    requires Next(s, step, s') && !step.Crash?
    ensures s'.profiles == s.profiles && s'.shown == s.shown
  {
    if !Durable(step) {
      hide Next;
      IdleSteps(s, step, s');
    } else if step.Approve? || step.CommitLink? || step.Recover? {
      hide MayEnroll, Enroll, Compatible, OutcomeOf;
    } else {
      hide Validate, Removed, Renewed, Journal, OutcomeOf;
    }
  }

  lemma OneStepOfNames(s: System, step: Step, s': System, o: Outcome)
    requires Next(s, step, s')
    ensures o in s.shown ==> o in s'.shown
    ensures o in s'.shown ==> o in s.shown || Shows(s', o)
    ensures Shows(s', o) ==> o in s'.shown || Shows(s, o)
  {
    if !step.Crash? {
      hide Next;
      NamesStay(s, step, s');
    }
  }

  /** What is taken for once shown was shown by that very device at some earlier moment. */
  lemma {:induction false} ShownIsReal(states: seq<System>, steps: seq<Step>, j: nat, o: Outcome)
    requires Run(states, steps) && j < |states|
    ensures o in states[j].shown <==> WasShown(states, j, o)
  {
    hide Run, Next, Init, Shows;
    RunStart(states, steps);
    if j == 0 {
      ShownAtFirst(states[0], o);
      assert WasShown(states, 0, o) <==> Shows(states[0], o);
    } else {
      ShownIsReal(states, steps, j - 1, o);
      RunStep(states, steps, j - 1);
      OneStepOfNames(states[j - 1], steps[j - 1], states[j], o);
      assert Shows(states[j - 1], o) ==> WasShown(states, j - 1, o);
      assert WasShown(states, j, o) <==> WasShown(states, j - 1, o) || Shows(states[j], o);
    }
  }

  lemma ShownAtFirst(s: System, o: Outcome)
    requires Init(s)
    ensures o in s.shown <==> Shows(s, o)
  {
  }
}
