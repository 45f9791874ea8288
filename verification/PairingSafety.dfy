/** What every interleaving of pairing, recovery, removal, repair and crashes keeps. */
module PairingSafety {
  import opened Clocks
  import opened Invitations
  import opened Pairing

  // ----- One store

  /** Every enrollment names a peer that is trusted under that very certificate, no peer has two, and no peer is
      trusted without one. */
  ghost predicate Ledger(store: Store) {
    && (forall id | id in store.enrolled :: Trusts(store, store.enrolled[id]))
    && (forall i, j | i in store.enrolled && j in store.enrolled
                      && store.enrolled[i].identity.deviceId == store.enrolled[j].identity.deviceId :: i == j)
    && (forall d | d in store.peers && !store.peers[d].revoked :: HoldsOne(store, d))
  }

  ghost predicate HoldsOne(store: Store, device: string) {
    exists id :: id in store.enrolled && store.enrolled[id].identity.deviceId == device
  }

  /** Whoever holds an enrollment has a live peer. */
  lemma Somebody(store: Store, id: string)
    requires Ledger(store) && id in store.enrolled
    ensures HasLive(store)
  {
    assert Trusts(store, store.enrolled[id]);
  }

  /** The same device behind the same certificate with the same manifest, whatever it is called. */
  predicate Alike(a: Outcome, b: Outcome) {
    a.identity == b.identity && a.fingerprint == b.fingerprint && a.metadata.manifest == b.metadata.manifest
  }

  /** `o` is trusted and held under `id`; of the earlier enrollments exactly those of that device are gone, and no
      other device's record moves. */
  ghost predicate EnrolledOver(store: Store, after: Store, id: string, o: Outcome) {
    && Trusts(after, o) && id in after.enrolled && after.enrolled[id] == o
    && (forall d | d != o.identity.deviceId ::
          (d in after.peers <==> d in store.peers) && (d in store.peers ==> after.peers[d] == store.peers[d]))
    && (forall i | i != id ::
          i in after.enrolled <==> i in store.enrolled && store.enrolled[i].identity.deviceId != o.identity.deviceId)
    && (forall i | i in after.enrolled && i != id :: after.enrolled[i] == store.enrolled[i])
  }

  lemma EnrollTrusts(store: Store, id: string, o: Outcome, key: string, repair: bool)
    requires Ledger(store) && (Barred(store, o) ==> repair)
    requires id in store.enrolled ==> Alike(store.enrolled[id], o)
    ensures EnrolledOver(store, Enroll(store, id, o, key, repair), id, o)
  {
    var d := o.identity.deviceId;
    if id in store.enrolled {
      assert Trusts(store, store.enrolled[id]);
    }
    forall i | i in store.enrolled && i != id && store.enrolled[i].identity.deviceId == d
      ensures Resets(store, id, o, repair)
    {
      assert Trusts(store, store.enrolled[i]);
    }
  }

  lemma EnrollLedger(store: Store, id: string, o: Outcome, key: string, repair: bool)
    requires Ledger(store) && (Barred(store, o) ==> repair)
    requires id in store.enrolled ==> Alike(store.enrolled[id], o)
    ensures Ledger(Enroll(store, id, o, key, repair))
  {
    hide Enroll, Ledger, EnrolledOver, Barred;
    EnrollTrusts(store, id, o, key, repair);
    LedgerOver(store, Enroll(store, id, o, key, repair), id, o);
  }

  lemma LedgerOver(store: Store, after: Store, id: string, o: Outcome)
    requires Ledger(store) && EnrolledOver(store, after, id, o)
    requires id in store.enrolled ==> Alike(store.enrolled[id], o)
    ensures Ledger(after)
  {
    hide HoldsOne;
    forall i | i in after.enrolled ensures Trusts(after, after.enrolled[i]) {
      if i != id { assert Trusts(store, store.enrolled[i]); }
    }
    hide Trusts;
    forall d | d in after.peers && !after.peers[d].revoked ensures HoldsOne(after, d) {
      if d != o.identity.deviceId {
        StillHoldsOne(store, after, d);
      } else {
        HoldsThis(after, id);
      }
    }
  }

  lemma HoldsThis(store: Store, id: string)
    requires id in store.enrolled
    ensures HoldsOne(store, store.enrolled[id].identity.deviceId)
  {
  }

  lemma StillHoldsOne(store: Store, after: Store, device: string)
    requires HoldsOne(store, device)
    requires forall i | i in store.enrolled && store.enrolled[i].identity.deviceId == device ::
               i in after.enrolled && after.enrolled[i] == store.enrolled[i]
    ensures HoldsOne(after, device)
  {
    var i :| i in store.enrolled && store.enrolled[i].identity.deviceId == device;
    assert i in after.enrolled;
  }

  lemma RemovedLedger(store: Store, device: string)
    requires Ledger(store) && device in store.peers
    ensures Ledger(Removed(store, device))
  {
    var after := Removed(store, device);
    forall i | i in after.enrolled ensures Trusts(after, after.enrolled[i]) {
      assert Trusts(store, store.enrolled[i]);
    }
    forall d | d in after.peers && !after.peers[d].revoked ensures HoldsOne(after, d) {
      assert HoldsOne(store, d);
      var i :| i in store.enrolled && store.enrolled[i].identity.deviceId == d;
      assert i in after.enrolled;
    }
  }

  lemma SameLedger(store: Store, after: Store)
    requires Ledger(store) && after.peers == store.peers && after.enrolled == store.enrolled
    ensures Ledger(after)
  {
    forall i | i in after.enrolled ensures Trusts(after, after.enrolled[i]) {
      assert Trusts(store, store.enrolled[i]);
    }
    forall d | d in after.peers && !after.peers[d].revoked ensures HoldsOne(after, d) {
      assert HoldsOne(store, d);
    }
  }

  // ----- The invariant

  predicate IssuedBy(s: System, id: string, n: Node) {
    id in s.issued && s.issued[id].inviter == n
  }

  /** The inviter and the secret really behind an invitation id. */
  predicate Genuine(s: System, id: string, n: Node, secret: string) {
    IssuedBy(s, id, n) && s.issued[id].secret == secret && n in s.profiles
  }

  predicate Used(s: System, id: string) {
    id in s.commits && s.commits[id] >= 1
  }

  /** The inviter as it showed itself when it issued this invitation. */
  function Ticket(s: System, id: string): Outcome
    requires id in s.issued && s.issued[id].inviter in s.profiles
  {
    Outcome(s.profiles[s.issued[id].inviter].identity, s.issued[id].metadata, s.issued[id].inviter)
  }

  /** `c` has written down that it prepares to join the inviter of this invitation. */
  predicate HasJournaled(s: System, c: Node, id: string) {
    id in s.issued && s.issued[id].inviter in s.profiles && Fact(c, id, Ticket(s, id)) in s.journaled
  }

  /** `n` has written `c` down under this invitation. */
  ghost predicate Wrote(s: System, n: Node, id: string, c: Node) {
    exists o :: Fact(n, id, o) in s.committed && o.fingerprint == c
  }

  /** Inviter `n` has enrolled `c` under its own invitation. */
  ghost predicate Enrolled(s: System, n: Node, id: string, c: Node) {
    c in s.profiles && IssuedBy(s, id, n) && Used(s, id) && Wrote(s, n, id, c)
  }

  /** A key that came from `n` for `id` is `n`'s key for as long as `n` keeps that enrollment. */
  predicate KeyOf(s: System, n: Node, id: string, key: string) {
    n in s.stores && (id in s.stores[n].enrolled ==> s.stores[n].key == key)
  }

  ghost predicate ConfigOk(s: System) {
    && s.stores.Keys == s.profiles.Keys == s.managers.Keys
    && s.claims.Keys == s.issued.Keys == s.commits.Keys
    && (forall n | n in s.profiles :: ValidIdentity(s.profiles[n].identity, s.profiles[n].metadata))
    && (forall id | id in s.issued :: s.issued[id].inviter in s.profiles && s.issued[id].id == id)
  }

  /** `o` is a device as it shows or once showed itself. */
  predicate Known(s: System, o: Outcome) {
    o in s.shown && o.fingerprint in s.profiles && Alike(o, Card(s, o.fingerprint))
  }

  predicate TicketKnown(s: System, id: string)
    requires id in s.issued
  {
    s.issued[id].inviter in s.profiles && Known(s, Ticket(s, id))
  }

  ghost predicate CardsOk(s: System) {
    && (forall o | o in s.shown :: Known(s, o))
    && (forall n | n in s.profiles :: Card(s, n) in s.shown)
    && (forall id | id in s.issued :: TicketKnown(s, id))
  }

  /** Two different devices that may pair. */
  predicate Fits(s: System, x: Node, y: Node) {
    && x in s.profiles && y in s.profiles && x != y && Compatible(s.profiles[x].metadata, s.profiles[y].metadata)
    && s.profiles[x].identity.deviceId != s.profiles[y].identity.deviceId
  }

  /** A journal names the inviter of that very invitation, as it showed itself when it issued it. */
  ghost predicate JournalOk(s: System, f: Fact) {
    && f.id in s.issued && Fits(s, f.node, s.issued[f.id].inviter) && f.outcome == Ticket(s, f.id)
  }

  /** Enrollments name a device as it once showed itself and come in the right order: the inviter's only once the
      joiner has journaled, the joiner's only once the inviter has enrolled it. */
  ghost predicate CommitOk(s: System, f: Fact) {
    var y := f.outcome.fingerprint;
    && f.id in s.issued && Fits(s, f.node, y) && Known(s, f.outcome)
    && if IssuedBy(s, f.id, f.node) then Used(s, f.id) && HasJournaled(s, y, f.id)
       else IssuedBy(s, f.id, y) && Enrolled(s, y, f.id, f.node)
  }

  /** An inviter writes only once under an invitation. */
  ghost predicate HistoryOk(s: System) {
    && (forall f | f in s.journaled :: JournalOk(s, f))
    && (forall f | f in s.committed :: CommitOk(s, f))
    && (forall f, g | f in s.committed && g in s.committed && f.node == g.node && f.id == g.id
                      && IssuedBy(s, f.id, f.node) :: f == g)
  }

  /** A joiner's enrollment holds its group to the inviter's key. */
  ghost predicate EnrolledOk(s: System, x: Node, id: string)
    requires x in s.stores && id in s.stores[x].enrolled
  {
    && Fact(x, id, s.stores[x].enrolled[id]) in s.committed
    && id in s.issued && (s.issued[id].inviter == x || KeyOf(s, s.issued[id].inviter, id, s.stores[x].key))
  }

  /** The store of `x` holds only what was written down, and keeps its own books. */
  ghost predicate StoreOk(s: System, x: Node)
    requires x in s.stores
  {
    && Ledger(s.stores[x])
    && (forall id | id in s.stores[x].prepared :: Fact(x, id, s.stores[x].prepared[id].outcome) in s.journaled)
    && (forall id | id in s.stores[x].enrolled :: EnrolledOk(s, x, id))
  }

  ghost predicate StoresOk(s: System) {
    forall x | x in s.stores :: StoreOk(s, x)
  }

  ghost predicate FromServer(s: System, secret: string, t: Transcript) {
    && t.hello.server in s.profiles
    && Genuine(s, t.hello.invitation, t.hello.server, secret)
    && t.identity == s.profiles[t.hello.server].identity
    && t.metadata == s.issued[t.hello.invitation].metadata
  }

  /** The joiner as a hello shows it. */
  function Greeting(h: Hello): Outcome {
    Outcome(h.identity, h.metadata, h.client)
  }

  ghost predicate FromClient(s: System, t: Transcript) {
    Known(s, Greeting(t.hello)) && t.hello.client != t.hello.server
  }

  /** What each kind of tag vouches for. */
  ghost predicate TagOk(s: System, tag: Tag) {
    var t := tag.transcript;
    var h := t.hello;
    match tag.purpose
    case ServerConfirm => FromServer(s, tag.secret, t)
    case ServerReady => FromServer(s, tag.secret, t)
    case ClientConfirm => true
    case ClientPrepared =>
      FromClient(s, t) && FromServer(s, tag.secret, t) && HasJournaled(s, h.client, h.invitation)
    case AcceptedKey =>
      && FromServer(s, tag.secret, t) && Enrolled(s, h.server, h.invitation, h.client)
      && tag.key.Some? && KeyOf(s, h.server, h.invitation, tag.key.value)
    case CommitKey => true
  }

  ghost predicate RecoveredOk(s: System, a: Recovered) {
    && Known(s, Outcome(a.identity, a.metadata, a.server))
    && Answerable(s, a.server, a.invitation, a.client)
    && (IssuedBy(s, a.invitation, a.server) ==> KeyOf(s, a.server, a.invitation, a.key))
  }

  /** `n` once held an enrollment of `c` under this invitation, whichever of the two issued it. */
  ghost predicate Answerable(s: System, n: Node, id: string, c: Node) {
    && c in s.profiles && id in s.issued && Wrote(s, n, id, c)
    && (IssuedBy(s, id, n) ==> Enrolled(s, n, id, c))
  }

  ghost predicate ServerOk(s: System, v: ServerSession) {
    && v.node in s.profiles && v.node == v.transcript.hello.server
    && v.invitation.id in s.issued && s.issued[v.invitation.id] == v.invitation
    && v.transcript.hello.invitation == v.invitation.id
    && FromServer(s, v.invitation.secret, v.transcript)
    && Compatible(s.profiles[v.node].metadata, v.transcript.hello.metadata)
    && !v.handler.repair
    && match v.phase
       case ServerCommitted(key) =>
         Enrolled(s, v.node, v.invitation.id, v.transcript.hello.client) && KeyOf(s, v.node, v.invitation.id, key)
       case Accepted(key) =>
         Enrolled(s, v.node, v.invitation.id, v.transcript.hello.client) && KeyOf(s, v.node, v.invitation.id, key)
       case _ => true
  }

  /** The transcript a client session has settled on. */
  ghost predicate ClientTranscriptOk(s: System, c: ClientSession, t: Transcript) {
    && t.hello == c.hello && FromServer(s, c.invitation.secret, t)
    && c.node in s.profiles && Compatible(s.profiles[c.node].metadata, t.metadata)
  }

  ghost predicate ClientOk(s: System, c: ClientSession) {
    && c.node in s.profiles
    && c.hello.invitation == c.invitation.id && c.hello.server == c.invitation.inviter && c.hello.client == c.node
    && Known(s, Greeting(c.hello))
    && match c.phase
       case Greeted => true
       case Confirmed(t) => ClientTranscriptOk(s, c, t)
       case Journaled(t) =>
         ClientTranscriptOk(s, c, t) && c.node != c.hello.server && HasJournaled(s, c.node, c.invitation.id)
       case Proved(t) =>
         ClientTranscriptOk(s, c, t) && c.node != c.hello.server && HasJournaled(s, c.node, c.invitation.id)
       case ClientCommitted(t, key) => ClientTranscriptOk(s, c, t)
  }

  ghost predicate MessagesOk(s: System) {
    && (forall tag | tag in s.tags :: TagOk(s, tag))
    && (forall a | a in s.recovered :: RecoveredOk(s, a))
  }

  ghost predicate SessionsOk(s: System) {
    && (forall i | i in s.servers :: ServerOk(s, s.servers[i]))
    && (forall i | i in s.clients :: ClientOk(s, s.clients[i]))
  }

  /** A slot holds an issued, uncommitted invitation of its own node, issued under the name it still has, and its
      attempts are the claims made. */
  ghost predicate SlotOk(s: System, n: Node, id: string, slot: Slot) {
    && id in s.issued && id in s.claims && id in s.commits
    && slot.invitation == s.issued[id] && s.issued[id].inviter == n
    && n in s.profiles && s.issued[id].metadata == s.profiles[n].metadata
    && s.claims[id] == slot.attempts && s.commits[id] == 0
  }

  ghost predicate ManagersOk(s: System) {
    && (forall n | n in s.managers :: SlotsOk(s.managers[n]))
    && (forall n, id | n in s.managers && id in s.managers[n] :: SlotOk(s, n, id, s.managers[n][id]))
  }

  ghost predicate CountsOk(s: System) {
    && (forall id | id in s.claims :: s.claims[id] <= MAX_ATTEMPTS)
    && (forall id | id in s.commits :: s.commits[id] <= 1)
  }

  /** The slot a session works on, if still open, is claimed. */
  ghost predicate Holding(s: System, v: ServerSession) {
    v.node in s.managers && v.invitation.id in s.managers[v.node] ==> s.managers[v.node][v.invitation.id].claimed
  }

  ghost predicate ClaimsOk(s: System) {
    && (forall i | i in s.servers :: Holding(s, s.servers[i]))
    && (forall i, j | i in s.servers && j in s.servers
                      && s.servers[i].invitation.id == s.servers[j].invitation.id :: i == j)
  }

  ghost predicate Trust(s: System) {
    ConfigOk(s) && CardsOk(s) && HistoryOk(s) && StoresOk(s) && MessagesOk(s) && SessionsOk(s)
  }

  ghost predicate Table(s: System) {
    ManagersOk(s) && CountsOk(s) && ClaimsOk(s)
  }

  ghost predicate Inv(s: System) {
    Trust(s) && Table(s)
  }

  // ----- Facts that last

  /** Devices may be called something else, but are the same. */
  ghost predicate SameDevices(s: System, s': System) {
    && s'.profiles.Keys == s.profiles.Keys && s.shown <= s'.shown
    && (forall n | n in s.profiles :: s'.profiles[n].identity == s.profiles[n].identity
                                      && s'.profiles[n].metadata.manifest == s.profiles[n].metadata.manifest)
  }

  ghost predicate Grow(s: System, s': System) {
    && SameDevices(s, s') && s'.stores.Keys == s.stores.Keys && s'.managers.Keys == s.managers.Keys
    && (forall id | id in s.issued :: id in s'.issued && s'.issued[id] == s.issued[id])
    && s.journaled <= s'.journaled && s.committed <= s'.committed
    && (forall id | Used(s, id) :: Used(s', id))
    && (forall n, id, c, key | Enrolled(s, n, id, c) && KeyOf(s, n, id, key) :: KeyOf(s', n, id, key))
  }

  lemma MessagesGrow(s: System, s': System)
    requires Grow(s, s') && MessagesOk(s)
    ensures forall tag | tag in s.tags :: TagOk(s', tag)
    ensures forall a | a in s.recovered :: RecoveredOk(s', a)
  {
    forall tag | tag in s.tags ensures TagOk(s', tag) {
      TagGrows(s, s', tag);
    }
    forall a | a in s.recovered ensures RecoveredOk(s', a) {
      AnswerGrows(s, s', a);
    }
  }

  lemma TagGrows(s: System, s': System, tag: Tag)
    requires Grow(s, s') && TagOk(s, tag)
    ensures TagOk(s', tag)
  {
  }

  lemma AnswerGrows(s: System, s': System, a: Recovered)
    requires Grow(s, s') && RecoveredOk(s, a)
    ensures RecoveredOk(s', a)
  {
  }

  lemma SessionsGrow(s: System, s': System)
    requires Grow(s, s') && SessionsOk(s)
    ensures forall i | i in s.servers :: ServerOk(s', s.servers[i])
    ensures forall i | i in s.clients :: ClientOk(s', s.clients[i])
  {
    forall i | i in s.servers ensures ServerOk(s', s.servers[i]) {
      ServerGrows(s, s', s.servers[i]);
    }
    forall i | i in s.clients ensures ClientOk(s', s.clients[i]) {
      ClientGrows(s, s', s.clients[i]);
    }
  }

  lemma ServerGrows(s: System, s': System, v: ServerSession)
    requires Grow(s, s') && ServerOk(s, v)
    ensures ServerOk(s', v)
  {
  }

  lemma ClientGrows(s: System, s': System, c: ClientSession)
    requires Grow(s, s') && ClientOk(s, c)
    ensures ClientOk(s', c)
  {
  }

  lemma FactsGrow(s: System, s': System)
    requires Grow(s, s') && HistoryOk(s)
    ensures forall f | f in s.journaled :: JournalOk(s', f)
    ensures forall f | f in s.committed :: CommitOk(s', f)
  {
    hide KeyOf;
    forall f | f in s.journaled ensures JournalOk(s', f) {
      assert JournalOk(s, f);
    }
    forall f | f in s.committed ensures CommitOk(s', f) {
      assert CommitOk(s, f);
    }
  }

  lemma StoreGrows(s: System, s': System, x: Node)
    requires Grow(s, s') && HistoryOk(s) && x in s.stores && StoreOk(s, x) && s'.stores[x] == s.stores[x]
    ensures StoreOk(s', x)
  {
    forall id | id in s.stores[x].enrolled ensures EnrolledOk(s', x, id) {
      assert EnrolledOk(s, x, id);
      assert CommitOk(s, Fact(x, id, s.stores[x].enrolled[id]));
    }
  }

  /** Every untouched store is still in order; only the touched one remains to be checked. */
  lemma StoresGrow(s: System, s': System, x: Node)
    requires Grow(s, s') && HistoryOk(s) && StoresOk(s) && x in s.stores && x in s'.stores
    requires s'.stores == s.stores[x := s'.stores[x]] && StoreOk(s', x)
    ensures StoresOk(s')
  {
    hide StoreOk, HistoryOk;
    forall y | y in s'.stores ensures StoreOk(s', y) {
      if y != x {
        StoreGrows(s, s', y);
      }
    }
  }

  /** The durable stores and their history stand still; invitations may be added and devices renamed. */
  ghost predicate Alone(s: System, s': System) {
    && s'.stores == s.stores && SameDevices(s, s') && s'.managers.Keys == s.managers.Keys
    && s'.journaled == s.journaled && s'.committed == s.committed
    && (forall id | id in s.issued :: id in s'.issued && s'.issued[id] == s.issued[id])
    && (forall id | id in s.commits && id in s.issued :: id in s'.commits && s'.commits[id] == s.commits[id])
  }

  lemma AloneGrows(s: System, s': System)
    requires ConfigOk(s) && Alone(s, s')
    ensures Grow(s, s')
  {
    hide SameDevices;
  }

  lemma AloneHistory(s: System, s': System)
    requires Alone(s, s') && Grow(s, s') && HistoryOk(s)
    ensures HistoryOk(s')
  {
    hide SameDevices, CommitOk, JournalOk;
    IssuersStay(s, s');
    FactsGrow(s, s');
    IssuedFacts(s);
    hide Grow;
  }

  lemma IssuedFacts(s: System)
    requires HistoryOk(s)
    ensures forall f | f in s.committed :: f.id in s.issued
  {
    forall f | f in s.committed ensures f.id in s.issued {
      assert CommitOk(s, f);
    }
  }

  lemma IssuersStay(s: System, s': System)
    requires Grow(s, s')
    ensures forall id, n | id in s.issued :: IssuedBy(s', id, n) <==> IssuedBy(s, id, n)
  {
  }

  lemma StoresAlone(s: System, s': System)
    requires ConfigOk(s) && HistoryOk(s) && StoresOk(s) && Alone(s, s')
    ensures Grow(s, s') && HistoryOk(s') && StoresOk(s')
  {
    hide StoreOk, HistoryOk, ConfigOk, Grow, SameDevices;
    AloneGrows(s, s');
    AloneHistory(s, s');
    forall x | x in s'.stores ensures StoreOk(s', x) {
      StoreGrows(s, s', x);
    }
  }

  /** Only the stores, their history and the sessions move. */
  ghost predicate Same(s: System, s': System) {
    s'.profiles == s.profiles && s'.shown == s.shown && s'.issued == s.issued && s'.managers.Keys == s.managers.Keys
  }

  /** The step that journals an invitation at `c`. */
  ghost predicate Journaling(s: System, s': System, c: Node, id: string, generation: nat) {
    && Same(s, s') && s'.commits == s.commits && c in s.stores && id in s.issued && Fits(s, c, s.issued[id].inviter)
    && s'.journaled == s.journaled + {Fact(c, id, Ticket(s, id))} && s'.committed == s.committed
    && s'.stores == s.stores[c := Journal(s.stores[c], id, Ticket(s, id), generation)]
  }

  lemma JournalKeepsKeys(s: System, s': System, c: Node, id: string, generation: nat)
    requires Journaling(s, s', c, id, generation)
    ensures Grow(s, s')
  {
  }

  lemma JournalHistory(s: System, s': System, c: Node, id: string, generation: nat)
    requires Journaling(s, s', c, id, generation) && Grow(s, s') && HistoryOk(s)
    ensures HistoryOk(s')
  {
    hide Grow, KeyOf, CommitOk;
    FactsGrow(s, s');
  }

  lemma JournalGrows(s: System, s': System, c: Node, id: string, generation: nat)
    requires HistoryOk(s) && StoresOk(s) && Journaling(s, s', c, id, generation)
    ensures Grow(s, s') && HistoryOk(s') && StoresOk(s')
  {
    assert StoreOk(s, c);
    hide Grow, HistoryOk, StoreOk, StoresOk, Journal, Same;
    JournalKeepsKeys(s, s', c, id, generation);
    JournalHistory(s, s', c, id, generation);
    JournaledStore(s, s', c, id, generation);
    StoresGrow(s, s', c);
  }

  lemma JournaledStore(s: System, s': System, c: Node, id: string, generation: nat)
    requires Grow(s, s') && HistoryOk(s) && c in s.stores && StoreOk(s, c)
    requires id in s.issued && s.issued[id].inviter in s.profiles && Fact(c, id, Ticket(s, id)) in s'.journaled
    requires s'.stores[c] == Journal(s.stores[c], id, Ticket(s, id), generation)
    ensures StoreOk(s', c)
  {
    SameLedger(s.stores[c], s'.stores[c]);
    forall i | i in s'.stores[c].enrolled ensures EnrolledOk(s', c, i) {
      assert EnrolledOk(s, c, i);
      assert CommitOk(s, Fact(c, i, s.stores[c].enrolled[i]));
    }
  }

  /** A store that only forgets enrollments and journals. */
  ghost predicate Shrunk(store: Store, after: Store) {
    && after.key == store.key
    && (forall i | i in after.enrolled :: i in store.enrolled && after.enrolled[i] == store.enrolled[i])
    && (forall i | i in after.prepared :: i in store.prepared && after.prepared[i] == store.prepared[i])
  }

  lemma ShrunkGrows(s: System, s': System, x: Node)
    requires HistoryOk(s) && StoresOk(s) && Same(s, s') && s'.commits == s.commits && x in s.stores && x in s'.stores
    requires s'.stores == s.stores[x := s'.stores[x]] && Shrunk(s.stores[x], s'.stores[x]) && Ledger(s'.stores[x])
    requires s'.journaled == s.journaled && s'.committed == s.committed
    ensures Grow(s, s') && HistoryOk(s') && StoresOk(s')
  {
    assert Grow(s, s') by { hide HistoryOk, StoresOk, Ledger; }
    assert HistoryOk(s') by {
      hide StoresOk, KeyOf, Grow, Ledger, Shrunk;
      FactsGrow(s, s');
    }
    assert StoreOk(s', x) by {
      hide HistoryOk, Ledger;
      ShrunkStore(s, s', x);
    }
    hide Grow, StoreOk, HistoryOk, Ledger, Shrunk;
    StoresGrow(s, s', x);
  }

  lemma ShrunkStore(s: System, s': System, x: Node)
    requires Grow(s, s') && HistoryOk(s) && x in s.stores && x in s'.stores && StoreOk(s, x)
    requires Shrunk(s.stores[x], s'.stores[x]) && Ledger(s'.stores[x])
    ensures StoreOk(s', x)
  {
    hide Ledger;
    forall i | i in s'.stores[x].enrolled ensures EnrolledOk(s', x, i) {
      assert EnrolledOk(s, x, i);
      assert CommitOk(s, Fact(x, i, s.stores[x].enrolled[i]));
    }
  }

  lemma RemovedShrinks(store: Store, device: string)
    requires Ledger(store) && device in store.peers
    ensures Shrunk(store, Removed(store, device)) && Ledger(Removed(store, device))
  {
    assert Ledger(Removed(store, device)) by { RemovedLedger(store, device); }
    hide Ledger;
  }

  lemma RenewedShrinks(store: Store)
    requires Ledger(store)
    ensures Shrunk(store, Renewed(store)) && Ledger(Renewed(store))
  {
    SameLedger(store, Renewed(store));
  }

  /** What writing `o` down at `x` finds: a device as it once showed itself, in order, and under the group's key. */
  ghost predicate InOrder(s: System, x: Node, id: string, o: Outcome, key: string) {
    var y := o.fingerprint;
    && x in s.stores && Fits(s, x, y) && Known(s, o) && id in s.issued
    && if IssuedBy(s, id, x) then !Used(s, id) && HasJournaled(s, y, id) && key == s.stores[x].key
       else IssuedBy(s, id, y) && Enrolled(s, y, id, x) && KeyOf(s, y, id, key)
  }

  /** The step that enrolls `o` at `x`. */
  ghost predicate Enrolling(s: System, s': System, x: Node, id: string, o: Outcome, key: string, repair: bool) {
    && Same(s, s') && x in s.stores && s'.journaled == s.journaled
    && s'.committed == s.committed + {Fact(x, id, o)}
    && s'.stores == s.stores[x := Enroll(s.stores[x], id, o, key, repair)]
    && (forall i | Used(s, i) :: Used(s', i)) && (IssuedBy(s, id, x) ==> Used(s', id))
    && (key != s.stores[x].key ==> !HasLive(s.stores[x]))
    && (Barred(s.stores[x], o) ==> repair)
  }

  /** Whoever is enrolled under this invitation already is the one being enrolled, and at the inviter nobody is. */
  lemma NoOther(s: System, x: Node, id: string, o: Outcome, key: string, f: Fact)
    requires HistoryOk(s) && InOrder(s, x, id, o, key) && f in s.committed && f.node == x && f.id == id
    ensures Alike(f.outcome, o) && !IssuedBy(s, id, x)
  {
    assert CommitOk(s, f);
    hide HistoryOk, Fits, HasJournaled, KeyOf, Enrolled;
  }

  lemma NoOtherStored(s: System, x: Node, id: string, o: Outcome, key: string)
    requires HistoryOk(s) && StoresOk(s) && InOrder(s, x, id, o, key)
    ensures Ledger(s.stores[x])
    ensures id in s.stores[x].enrolled ==> Alike(s.stores[x].enrolled[id], o)
  {
    assert StoreOk(s, x);
    hide Ledger, HistoryOk, StoresOk, Alike, Fits, Known, HasJournaled, KeyOf, Enrolled;
    if id in s.stores[x].enrolled {
      NoOther(s, x, id, o, key, Fact(x, id, s.stores[x].enrolled[id]));
    }
  }

  lemma EnrollKeepsKeys(s: System, s': System, x: Node, id: string, o: Outcome, key: string, repair: bool)
    requires Enrolling(s, s', x, id, o, key, repair) && InOrder(s, x, id, o, key) && Ledger(s.stores[x])
    ensures Grow(s, s')
  {
    hide Ledger, Wrote;
    forall n, i, c, k | Enrolled(s, n, i, c) && KeyOf(s, n, i, k) ensures KeyOf(s', n, i, k) {
      if n == x && i in s'.stores[x].enrolled {
        assert i != id && i in s.stores[x].enrolled;
        Somebody(s.stores[x], i);
      }
    }
  }

  lemma EnrolledStore(s: System, s': System, x: Node, id: string, o: Outcome, key: string, repair: bool)
    requires Enrolling(s, s', x, id, o, key, repair) && InOrder(s, x, id, o, key) && Grow(s, s')
    requires HistoryOk(s) && StoreOk(s, x)
    requires id in s.stores[x].enrolled ==> Alike(s.stores[x].enrolled[id], o)
    ensures StoreOk(s', x)
  {
    EnrollLedger(s.stores[x], id, o, key, repair);
    hide Ledger;
    forall i | i in s'.stores[x].enrolled ensures EnrolledOk(s', x, i) {
      if i != id {
        assert EnrolledOk(s, x, i);
        assert CommitOk(s, Fact(x, i, s.stores[x].enrolled[i]));
        Somebody(s.stores[x], i);
      }
    }
  }

  lemma EnrolledHistory(s: System, s': System, x: Node, id: string, o: Outcome, key: string, repair: bool)
    requires Enrolling(s, s', x, id, o, key, repair) && InOrder(s, x, id, o, key) && Grow(s, s') && HistoryOk(s)
    ensures HistoryOk(s')
  {
    var made := Fact(x, id, o);
    CommitInOrder(s, s', x, id, o, key, repair);
    IssuersStay(s, s');
    forall f | f in s.committed && f.node == x && f.id == id ensures !IssuedBy(s, id, x) {
      NoOther(s, x, id, o, key, f);
    }
    hide Enroll, KeyOf, InOrder, CommitOk, JournalOk, Grow, HasLive, Barred, Used;
    FactsGrow(s, s');
  }

  lemma CommitInOrder(s: System, s': System, x: Node, id: string, o: Outcome, key: string, repair: bool)
    requires Enrolling(s, s', x, id, o, key, repair) && InOrder(s, x, id, o, key) && Grow(s, s')
    ensures CommitOk(s', Fact(x, id, o))
  {
    hide Enroll, HasLive, Barred;
  }

  lemma EnrollGrows(s: System, s': System, x: Node, id: string, o: Outcome, key: string, repair: bool)
    requires HistoryOk(s) && StoresOk(s)
    requires InOrder(s, x, id, o, key) && Enrolling(s, s', x, id, o, key, repair)
    ensures Grow(s, s') && HistoryOk(s') && StoresOk(s')
  {
    assert StoreOk(s, x);
    hide Ledger, HistoryOk, StoreOk, Grow, StoresOk, Alike, InOrder;
    NoOtherStored(s, x, id, o, key);
    EnrollKeepsKeys(s, s', x, id, o, key, repair);
    EnrolledHistory(s, s', x, id, o, key, repair);
    EnrolledStore(s, s', x, id, o, key, repair);
    StoresGrow(s, s', x);
  }

  // ----- Trust survives each step

  /** Messages and sessions are as before but for these new tags and answers and for sessions that are in order. */
  ghost predicate Touched(s: System, s': System, made: set<Tag>, answers: set<Recovered>) {
    && s'.tags == s.tags + made && s'.recovered == s.recovered + answers
    && (forall tag | tag in made :: TagOk(s', tag))
    && (forall a | a in answers :: RecoveredOk(s', a))
    && (forall i | i in s'.servers :: (i in s.servers && s'.servers[i] == s.servers[i]) || ServerOk(s', s'.servers[i]))
    && (forall i | i in s'.clients :: (i in s.clients && s'.clients[i] == s.clients[i]) || ClientOk(s', s'.clients[i]))
  }

  lemma TrustGrows(s: System, s': System, made: set<Tag>, answers: set<Recovered>)
    requires Trust(s) && Grow(s, s') && ConfigOk(s') && CardsOk(s') && HistoryOk(s') && StoresOk(s')
    requires Touched(s, s', made, answers)
    ensures Trust(s')
  {
    hide TagOk, RecoveredOk, ServerOk, ClientOk, StoresOk, HistoryOk, Grow, ConfigOk, CardsOk;
    MessagesGrow(s, s');
    SessionsGrow(s, s');
  }

  /** The stores, their history and the invitations issued stand still. */
  ghost predicate Still(s: System, s': System) {
    && SameShape(s, s') && s'.stores == s.stores && s'.commits == s.commits
    && s'.journaled == s.journaled && s'.committed == s.committed
  }

  lemma StillGrows(s: System, s': System)
    requires Trust(s) && Still(s, s')
    ensures Grow(s, s')
  {
    hide CardsOk, StoresOk, HistoryOk, MessagesOk, SessionsOk, Grow;
    AloneGrows(s, s');
  }

  lemma TrustStill(s: System, s': System, made: set<Tag>, answers: set<Recovered>)
    requires Trust(s) && Still(s, s') && Touched(s, s', made, answers)
    ensures Trust(s')
  {
    hide StoresOk, HistoryOk, MessagesOk, SessionsOk, Touched, Grow, ConfigOk, CardsOk;
    ConfigSame(s, s');
    CardsSame(s, s');
    StoresAlone(s, s');
    TrustGrows(s, s', made, answers);
  }

  lemma SeenTag(s: System, tag: Tag)
    requires Trust(s) && tag in s.tags
    ensures TagOk(s, tag)
  {
  }

  lemma SeenAnswer(s: System, a: Recovered)
    requires Trust(s) && a in s.recovered
    ensures RecoveredOk(s, a)
  {
  }

  lemma SeenServer(s: System, sid: nat)
    requires Trust(s) && sid in s.servers
    ensures ServerOk(s, s.servers[sid])
  {
  }

  lemma SeenClient(s: System, sid: nat)
    requires Trust(s) && sid in s.clients
    ensures ClientOk(s, s.clients[sid])
  {
  }

  ghost predicate SameShape(s: System, s': System) {
    && s'.profiles == s.profiles && s'.shown == s.shown && s'.issued == s.issued
    && s'.stores.Keys == s.stores.Keys && s'.managers.Keys == s.managers.Keys
    && s'.claims.Keys == s.claims.Keys && s'.commits.Keys == s.commits.Keys
  }

  lemma ConfigSame(s: System, s': System)
    requires ConfigOk(s) && SameShape(s, s')
    ensures ConfigOk(s')
  {
  }

  lemma CardsSame(s: System, s': System)
    requires CardsOk(s) && s'.profiles == s.profiles && s'.shown == s.shown && s'.issued == s.issued
    ensures CardsOk(s')
  {
    hide Alike;
    forall o | o in s'.shown ensures Known(s', o) {
      assert Known(s, o);
    }
    forall id | id in s'.issued ensures TicketKnown(s', id) {
      assert TicketKnown(s, id);
    }
  }

  lemma ConfigOnCreate(s: System, n: Node, inv: Invitation, ttl: nat, drawn: nat, now: nat, s': System)
    requires ConfigOk(s) && CardsOk(s) && CreateStep(s, n, inv, ttl, drawn, now, s')
    ensures ConfigOk(s') && CardsOk(s')
  {
    hide Create, Expiry, ConfigOk, CardsOk;
    ConfigIssued(s, s', n, inv);
    CardsIssued(s, s', n, inv);
  }

  lemma CardsIssued(s: System, s': System, n: Node, inv: Invitation)
    requires CardsOk(s) && s'.profiles == s.profiles && s'.shown == s.shown && n in s.profiles
    requires inv.inviter == n && inv.metadata == s.profiles[n].metadata && s'.issued == s.issued[inv.id := inv]
    ensures CardsOk(s')
  {
    hide Alike;
    forall o | o in s'.shown ensures Known(s', o) {
      assert Known(s, o);
    }
    forall id | id in s'.issued ensures TicketKnown(s', id) {
      if id == inv.id {
        assert Ticket(s', id) == Card(s, n) && Known(s, Card(s, n));
      } else {
        assert TicketKnown(s, id);
      }
    }
  }

  lemma ConfigIssued(s: System, s': System, n: Node, inv: Invitation)
    requires ConfigOk(s) && s'.profiles == s.profiles && s'.stores == s.stores && n in s.managers && n in s'.managers
    requires s'.managers == s.managers[n := s'.managers[n]] && inv.inviter == n && s'.issued == s.issued[inv.id := inv]
    requires s'.claims == s.claims[inv.id := 0] && s'.commits == s.commits[inv.id := 0]
    ensures ConfigOk(s')
  {
    assert s'.managers.Keys == s.managers.Keys;
    KeysIssued(s.issued, s.claims, s.commits, inv);
  }

  lemma KeysIssued(
    issued: map<string, Invitation>, claims: map<string, nat>, commits: map<string, nat>, inv: Invitation)
    requires claims.Keys == issued.Keys == commits.Keys
    ensures claims[inv.id := 0].Keys == issued[inv.id := inv].Keys == commits[inv.id := 0].Keys
  {
  }

  lemma TrustOnCreate(s: System, n: Node, inv: Invitation, ttl: nat, drawn: nat, now: nat, s': System)
    requires Trust(s) && CreateStep(s, n, inv, ttl, drawn, now, s')
    ensures Trust(s')
  {
    hide TagOk, RecoveredOk, ServerOk, ClientOk, StoresOk, HistoryOk, MessagesOk, SessionsOk, Grow, ConfigOk, CardsOk,
         Create;
    ConfigOnCreate(s, n, inv, ttl, drawn, now, s');
    StoresAlone(s, s');
    TrustGrows(s, s', {}, {});
  }

  /** Steps on the tables or that only end sessions. */
  lemma TrustOnFewer(s: System, s': System)
    requires Trust(s) && Still(s, s') && s'.tags == s.tags && s'.recovered == s.recovered
    requires forall i | i in s'.servers :: i in s.servers && s'.servers[i] == s.servers[i]
    requires forall i | i in s'.clients :: i in s.clients && s'.clients[i] == s.clients[i]
    ensures Trust(s')
  {
    hide Trust, Still;
    TrustStill(s, s', {}, {});
  }

  lemma CardKnown(s: System, n: Node)
    requires Trust(s) && n in s.profiles
    ensures Known(s, Card(s, n))
  {
    hide StoresOk, HistoryOk, MessagesOk, SessionsOk, ConfigOk;
  }

  lemma TrustOnStart(
    s: System, sid: nat, n: Node, inv: Invitation, expected: Identity, repair: bool, pake: nat, now: nat, s': System)
    requires Trust(s) && StartStep(s, sid, n, inv, expected, repair, pake, now, s')
    ensures Trust(s')
  {
    hide Trust, TagOk, RecoveredOk, ServerOk, ClientOk, Alike;
    CardKnown(s, n);
    Starting(s', s'.clients[sid]);
    TrustStill(s, s', {}, {});
  }

  lemma Starting(s: System, c: ClientSession)
    requires c.node in s.profiles && Known(s, Card(s, c.node)) && c.phase.Greeted?
    requires c.hello.invitation == c.invitation.id && c.hello.server == c.invitation.inviter
    requires Greeting(c.hello) == Card(s, c.node)
    ensures ClientOk(s, c)
  {
    hide Alike;
  }

  lemma TrustOnAccept(s: System, sid: nat, n: Node, hello: Hello, pake: nat, now: nat, s': System)
    requires Trust(s) && ManagersOk(s) && AcceptStep(s, sid, n, hello, pake, now, s')
    ensures Trust(s')
  {
    hide TagOk, RecoveredOk, ServerOk, ClientOk, StoresOk, HistoryOk, MessagesOk, SessionsOk, Grow, ConfigOk, CardsOk;
    hide Claim, ManagersOk;
    SlotIssued(s, n, hello.invitation, now);
    var v := s'.servers[sid];
    var tag := Tag(ServerConfirm, v.invitation.secret, v.transcript, None);
    AcceptedHello(s', v, tag);
    TrustStill(s, s', {tag}, {});
  }

  lemma SlotIssued(s: System, n: Node, id: string, now: nat)
    requires ConfigOk(s) && ManagersOk(s) && n in s.managers && Claim(s.managers[n], id, now).Ok?
    ensures id in s.managers[n] && id in s.issued && s.managers[n][id].invitation == s.issued[id]
    ensures s.issued[id].inviter == n && s.issued[id].id == id
    ensures n in s.profiles && s.issued[id].metadata == s.profiles[n].metadata
  {
    hide SlotsOk;
    assert SlotOk(s, n, id, s.managers[n][id]);
  }

  lemma AcceptedHello(s: System, v: ServerSession, tag: Tag)
    requires v.node in s.profiles && v.invitation.id in s.issued && s.issued[v.invitation.id] == v.invitation
    requires v.invitation.inviter == v.node == v.transcript.hello.server
    requires v.transcript.hello.invitation == v.invitation.id && v.phase == Challenged && !v.handler.repair
    requires v.transcript.identity == s.profiles[v.node].identity && v.transcript.metadata == v.invitation.metadata
    requires Compatible(s.profiles[v.node].metadata, v.transcript.hello.metadata)
    requires tag == Tag(ServerConfirm, v.invitation.secret, v.transcript, None)
    ensures ServerOk(s, v) && TagOk(s, tag)
  {
  }

  lemma TrustOnConfirm(s: System, sid: nat, t: Transcript, s': System)
    requires Trust(s) && ConfirmStep(s, sid, t, s')
    ensures Trust(s')
  {
    hide TagOk, RecoveredOk, ServerOk, ClientOk, StoresOk, HistoryOk, MessagesOk, SessionsOk, Grow, ConfigOk, CardsOk;
    var c := s.clients[sid];
    StillGrows(s, s');
    var seen := Tag(ServerConfirm, c.invitation.secret, t, None);
    var made := Tag(ClientConfirm, c.invitation.secret, t, None);
    SeenTag(s, seen);
    SeenClient(s, sid);
    Confirming(s, c, t, seen, s', made);
    TrustStill(s, s', {made}, {});
  }

  lemma Confirming(s: System, c: ClientSession, t: Transcript, seen: Tag, s': System, made: Tag)
    requires ClientOk(s, c) && TagOk(s, seen) && Grow(s, s') && t.hello == c.hello
    requires seen == Tag(ServerConfirm, c.invitation.secret, t, None) && made == seen.(purpose := ClientConfirm)
    requires Compatible(s.profiles[c.node].metadata, t.metadata)
    ensures ClientOk(s', c.(phase := Confirmed(t))) && TagOk(s', made)
  {
  }

  lemma TrustOnReady(s: System, sid: nat, now: nat, s': System)
    requires Trust(s) && ReadyStep(s, sid, now, s')
    ensures Trust(s')
  {
    hide TagOk, RecoveredOk, ServerOk, ClientOk, StoresOk, HistoryOk, MessagesOk, SessionsOk, Grow, ConfigOk, CardsOk;
    var v := s.servers[sid];
    StillGrows(s, s');
    var made := Tag(ServerReady, v.invitation.secret, v.transcript, None);
    SeenServer(s, sid);
    GettingReady(s, v, s', made);
    TrustStill(s, s', {made}, {});
  }

  lemma GettingReady(s: System, v: ServerSession, s': System, made: Tag)
    requires ServerOk(s, v) && Grow(s, s') && made == Tag(ServerReady, v.invitation.secret, v.transcript, None)
    ensures ServerOk(s', v.(phase := Readied)) && TagOk(s', made)
  {
  }

  lemma TrustOnPrepare(s: System, sid: nat, s': System)
    requires Trust(s) && PrepareStep(s, sid, s')
    ensures Trust(s')
  {
    hide TagOk, RecoveredOk, ServerOk, ClientOk, StoresOk, HistoryOk, MessagesOk, SessionsOk, Grow, ConfigOk, CardsOk;
    ConfigSame(s, s');
    CardsSame(s, s');
    var c := s.clients[sid];
    SeenClient(s, sid);
    TicketShown(s, c.invitation.id);
    hide TicketKnown;
    Preparing(s, c, s');
    assert s'.clients[sid] == c.(phase := Journaled(c.phase.transcript));
    TrustGrows(s, s', {}, {});
  }

  lemma Preparing(s: System, c: ClientSession, s': System)
    requires HistoryOk(s) && StoresOk(s) && ClientOk(s, c) && c.phase.Confirmed? && c.node in s.stores && Same(s, s')
    requires c.invitation.id in s.issued ==> TicketKnown(s, c.invitation.id)
    requires s'.commits == s.commits && s'.committed == s.committed
    requires var o := OutcomeOf(c.phase.transcript);
             && Validate(s.stores[c.node], s.profiles[c.node], o, c.handler)
             && s'.journaled == s.journaled + {Fact(c.node, c.invitation.id, o)}
             && s'.stores == s.stores[c.node := Journal(s.stores[c.node], c.invitation.id, o, c.handler.generation)]
    ensures Grow(s, s') && HistoryOk(s') && StoresOk(s') && ClientOk(s', c.(phase := Journaled(c.phase.transcript)))
  {
    hide HistoryOk, StoresOk, Grow, Barred;
    assert OutcomeOf(c.phase.transcript) == Ticket(s, c.invitation.id);
    assert Fits(s, c.node, c.hello.server);
    JournalGrows(s, s', c.node, c.invitation.id, c.handler.generation);
    hide Journal, Validate, Fits, Alike;
    ClientGrows(s, s', c);
  }

  lemma TrustOnProve(s: System, sid: nat, now: nat, s': System)
    requires Trust(s) && ProveStep(s, sid, now, s')
    ensures Trust(s')
  {
    hide TagOk, RecoveredOk, ServerOk, ClientOk, StoresOk, HistoryOk, MessagesOk, SessionsOk, Grow, ConfigOk, CardsOk;
    var c := s.clients[sid];
    StillGrows(s, s');
    var made := Tag(ClientPrepared, c.invitation.secret, c.phase.transcript, None);
    SeenClient(s, sid);
    Proving(s, c, s', made);
    TrustStill(s, s', {made}, {});
  }

  lemma Proving(s: System, c: ClientSession, s': System, made: Tag)
    requires ClientOk(s, c) && Grow(s, s') && c.phase.Journaled?
    requires made == Tag(ClientPrepared, c.invitation.secret, c.phase.transcript, None)
    ensures ClientOk(s', c.(phase := Proved(c.phase.transcript))) && TagOk(s', made)
  {
  }

  lemma TrustOnApprove(s: System, sid: nat, now: nat, s': System)
    requires Trust(s) && ManagersOk(s) && ApproveStep(s, sid, now, s')
    ensures Trust(s')
  {
    hide TagOk, RecoveredOk, ServerOk, ClientOk, StoresOk, HistoryOk, MessagesOk, SessionsOk, Grow, ConfigOk, CardsOk,
         MayEnroll, Enroll, ManagersOk;
    ConfigSame(s, s');
    CardsSame(s, s');
    var v := s.servers[sid];
    var seen := Tag(ClientPrepared, v.invitation.secret, v.transcript, None);
    SeenTag(s, seen);
    SeenServer(s, sid);
    UnusedWhileOpen(s, v.node, v.invitation.id);
    Approving(s, v, seen, s');
    TrustGrows(s, s', {}, {});
  }

  lemma UnusedWhileOpen(s: System, n: Node, id: string)
    requires ManagersOk(s) && n in s.managers && id in s.managers[n]
    ensures !Used(s, id)
  {
    assert SlotOk(s, n, id, s.managers[n][id]);
  }

  /** What an approval does to the stores and their history. */
  ghost predicate Approves(s: System, s': System, v: ServerSession) {
    && Same(s, s') && v.node in s.stores && v.node in s.profiles && s'.journaled == s.journaled
    && v.invitation.id in s.commits && !Used(s, v.invitation.id)
    && s'.commits == s.commits[v.invitation.id := s.commits[v.invitation.id] + 1]
    && var store, o := s.stores[v.node], Greeting(v.transcript.hello);
       && MayEnroll(store, s.profiles[v.node], v.invitation.id, o, store.key, v.handler)
       && s'.committed == s.committed + {Fact(v.node, v.invitation.id, o)}
       && s'.stores == s.stores[v.node := Enroll(store, v.invitation.id, o, store.key, v.handler.repair)]
  }

  lemma Approving(s: System, v: ServerSession, seen: Tag, s': System)
    requires HistoryOk(s) && StoresOk(s) && ServerOk(s, v) && TagOk(s, seen) && Approves(s, s', v)
    requires seen == Tag(ClientPrepared, v.invitation.secret, v.transcript, None)
    ensures Grow(s, s') && HistoryOk(s') && StoresOk(s')
    ensures ServerOk(s', v.(phase := ServerCommitted(s.stores[v.node].key)))
  {
    hide HistoryOk, StoresOk, HasLive, Grow, Known, Alike;
    var n, id, o, key := v.node, v.invitation.id, Greeting(v.transcript.hello), s.stores[v.node].key;
    ApprovingInOrder(s, v, seen, s');
    EnrollGrows(s, s', n, id, o, key, v.handler.repair);
    hide InOrder, TagOk, MayEnroll;
    ServerGrows(s, s', v);
    assert Fact(n, id, o) in s'.committed;
  }

  lemma ApprovingInOrder(s: System, v: ServerSession, seen: Tag, s': System)
    requires ServerOk(s, v) && TagOk(s, seen) && Approves(s, s', v)
    requires seen == Tag(ClientPrepared, v.invitation.secret, v.transcript, None)
    ensures InOrder(s, v.node, v.invitation.id, Greeting(v.transcript.hello), s.stores[v.node].key)
    ensures Enrolling(s, s', v.node, v.invitation.id, Greeting(v.transcript.hello), s.stores[v.node].key,
      v.handler.repair)
  {
    hide Enroll, HasLive, Barred, KeyOf, Wrote, HasJournaled;
  }

  lemma TrustOnSendKey(s: System, sid: nat, s': System)
    requires Trust(s) && SendKeyStep(s, sid, s')
    ensures Trust(s')
  {
    hide TagOk, RecoveredOk, ServerOk, ClientOk, StoresOk, HistoryOk, MessagesOk, SessionsOk, Grow, ConfigOk, CardsOk;
    var v := s.servers[sid];
    StillGrows(s, s');
    var made := Tag(AcceptedKey, v.invitation.secret, v.transcript, Some(v.phase.key));
    SeenServer(s, sid);
    SendingKey(s, v, s', made);
    TrustStill(s, s', {made}, {});
  }

  lemma SendingKey(s: System, v: ServerSession, s': System, made: Tag)
    requires ServerOk(s, v) && Grow(s, s') && v.phase.ServerCommitted?
    requires made == Tag(AcceptedKey, v.invitation.secret, v.transcript, Some(v.phase.key))
    ensures ServerOk(s', v.(phase := Accepted(v.phase.key))) && TagOk(s', made)
  {
  }

  lemma TrustOnCommit(s: System, sid: nat, key: string, now: nat, s': System)
    requires Trust(s) && CommitStep(s, sid, key, now, s')
    ensures Trust(s')
  {
    hide TagOk, RecoveredOk, ServerOk, ClientOk, StoresOk, HistoryOk, MessagesOk, SessionsOk, Grow, ConfigOk, CardsOk,
         MayEnroll, Enroll;
    ConfigSame(s, s');
    CardsSame(s, s');
    var c := s.clients[sid];
    var seen := Tag(AcceptedKey, c.invitation.secret, c.phase.transcript, Some(key));
    SeenTag(s, seen);
    SeenClient(s, sid);
    Committing(s, c, key, seen, s');
    TrustGrows(s, s', {}, {});
  }

  lemma Committing(s: System, c: ClientSession, key: string, seen: Tag, s': System)
    requires CardsOk(s) && HistoryOk(s) && StoresOk(s) && ClientOk(s, c) && TagOk(s, seen) && Same(s, s')
    requires c.node in s.stores && c.phase.Proved? && s'.commits == s.commits && s'.journaled == s.journaled
    requires seen == Tag(AcceptedKey, c.invitation.secret, c.phase.transcript, Some(key))
    requires var id, outcome := c.invitation.id, OutcomeOf(c.phase.transcript);
             && MayEnroll(s.stores[c.node], s.profiles[c.node], id, outcome, key, c.handler)
             && s'.committed == s.committed + {Fact(c.node, id, outcome)}
             && s'.stores == s.stores[c.node := Enroll(s.stores[c.node], id, outcome, key, c.handler.repair)]
    ensures Grow(s, s') && HistoryOk(s') && StoresOk(s')
    ensures ClientOk(s', c.(phase := ClientCommitted(c.phase.transcript, key)))
  {
    hide HistoryOk, StoresOk, Enroll, HasLive, CardsOk, Grow;
    var o := OutcomeOf(c.phase.transcript);
    TicketShown(s, c.invitation.id);
    CommittingInOrder(s, c, key, seen);
    assert Enrolling(s, s', c.node, c.invitation.id, o, key, c.handler.repair) by { hide TagOk, ClientOk, Alike; }
    hide MayEnroll, TagOk, Enrolling, InOrder, Alike, Known;
    EnrollGrows(s, s', c.node, c.invitation.id, o, key, c.handler.repair);
    ClientGrows(s, s', c);
  }

  lemma CommittingInOrder(s: System, c: ClientSession, key: string, seen: Tag)
    requires ClientOk(s, c) && TagOk(s, seen) && c.node in s.stores && c.phase.Proved? && c.node in s.profiles
    requires seen == Tag(AcceptedKey, c.invitation.secret, c.phase.transcript, Some(key))
    requires c.invitation.id in s.issued ==> TicketKnown(s, c.invitation.id)
    requires MayEnroll(s.stores[c.node], s.profiles[c.node], c.invitation.id, OutcomeOf(c.phase.transcript), key,
      c.handler)
    ensures InOrder(s, c.node, c.invitation.id, OutcomeOf(c.phase.transcript), key)
  {
    hide Enroll, HasLive, Barred, KeyOf, Wrote, HasJournaled;
    assert OutcomeOf(c.phase.transcript) == Ticket(s, c.invitation.id);
  }

  lemma TicketShown(s: System, id: string)
    requires CardsOk(s)
    ensures id in s.issued ==> TicketKnown(s, id)
  {
  }

  lemma SentCommit(s: System, tag: Tag)
    requires tag.purpose == CommitKey
    ensures TagOk(s, tag)
  {
  }

  lemma TrustOnSendCommit(s: System, sid: nat, s': System)
    requires Trust(s) && SendCommitStep(s, sid, s')
    ensures Trust(s')
  {
    hide TagOk, RecoveredOk, ServerOk, ClientOk, StoresOk, HistoryOk, MessagesOk, SessionsOk, Grow, ConfigOk, CardsOk;
    var c := s.clients[sid];
    var made := Tag(CommitKey, c.invitation.secret, c.phase.transcript, Some(c.phase.key));
    SentCommit(s', made);
    TrustStill(s, s', {made}, {});
  }

  lemma SeenStore(s: System, n: Node)
    requires Trust(s) && n in s.stores
    ensures Ledger(s.stores[n])
  {
    assert StoreOk(s, n);
  }

  /** Steps that touch one store, and only make it forget or outdate sessions. */
  lemma TrustOnShrunk(s: System, s': System, n: Node)
    requires Trust(s) && n in s.stores && n in s'.stores && s'.stores == s.stores[n := s'.stores[n]]
    requires Ledger(s.stores[n]) ==> Shrunk(s.stores[n], s'.stores[n]) && Ledger(s'.stores[n])
    requires s'.profiles == s.profiles && s'.shown == s.shown && s'.managers.Keys == s.managers.Keys
    requires s'.issued == s.issued && s'.claims == s.claims && s'.commits == s.commits
    requires s'.journaled == s.journaled && s'.committed == s.committed
    requires s'.tags == s.tags && s'.recovered == s.recovered
    requires forall i | i in s'.servers :: i in s.servers && s'.servers[i] == s.servers[i]
    requires forall i | i in s'.clients :: i in s.clients && s'.clients[i] == s.clients[i]
    ensures Trust(s')
  {
    hide StoreOk, TagOk, RecoveredOk, ServerOk, ClientOk, StoresOk, HistoryOk, MessagesOk, SessionsOk, Grow, ConfigOk,
         CardsOk, Ledger,
         Shrunk;
    SeenStore(s, n);
    ConfigSame(s, s');
    CardsSame(s, s');
    ShrunkGrows(s, s', n);
    TrustGrows(s, s', {}, {});
  }

  lemma TrustOnRemove(s: System, n: Node, device: string, s': System)
    requires Trust(s) && RemoveStep(s, n, device, s')
    ensures Trust(s')
  {
    hide Trust, Ledger, Shrunk, Removed;
    if Ledger(s.stores[n]) { RemovedShrinks(s.stores[n], device); }
    TrustOnShrunk(s, s', n);
  }

  lemma TrustOnRenew(s: System, n: Node)
    requires Trust(s) && n in s.stores
    ensures Trust(s.(stores := s.stores[n := Renewed(s.stores[n])]))
  {
    hide Trust, Ledger, Shrunk, Renewed;
    if Ledger(s.stores[n]) { RenewedShrinks(s.stores[n]); }
    TrustOnShrunk(s, s.(stores := s.stores[n := Renewed(s.stores[n])]), n);
  }

  /** A device that presents itself anew is still the same. */
  lemma TrustOnRename(s: System, n: Node, presentation: string)
    requires Trust(s) && n in s.profiles
    ensures Trust(Renamed(s, n, presentation))
  {
    var s' := Renamed(s, n, presentation);
    hide TagOk, RecoveredOk, ServerOk, ClientOk, StoresOk, HistoryOk, MessagesOk, SessionsOk, Grow, ConfigOk, CardsOk,
         SameDevices, Renamed, Touched;
    ConfigRenamed(s, n, presentation);
    CardsRenamed(s, n, presentation);
    RenamedAlone(s, n, presentation);
    hide Alone;
    StoresAlone(s, s');
    NothingTouched(s, n, presentation);
    TrustGrows(s, s', {}, {});
  }

  lemma RenamedAlone(s: System, n: Node, presentation: string)
    requires n in s.profiles
    ensures Alone(s, Renamed(s, n, presentation))
  {
  }

  lemma NothingTouched(s: System, n: Node, presentation: string)
    requires n in s.profiles
    ensures Touched(s, Renamed(s, n, presentation), {}, {})
  {
    hide TagOk, RecoveredOk, ServerOk, ClientOk;
  }

  lemma ConfigRenamed(s: System, n: Node, presentation: string)
    requires ConfigOk(s) && n in s.profiles
    ensures ConfigOk(Renamed(s, n, presentation))
  {
    assert Renamed(s, n, presentation).profiles.Keys == s.profiles.Keys;
  }

  lemma CardsRenamed(s: System, n: Node, presentation: string)
    requires CardsOk(s) && n in s.profiles
    ensures CardsOk(Renamed(s, n, presentation))
  {
    var s' := Renamed(s, n, presentation);
    forall o | o in s'.shown ensures Known(s', o) {
      assert o in s.shown ==> Known(s, o);
    }
    forall id | id in s'.issued ensures TicketKnown(s', id) {
      assert TicketKnown(s, id);
      assert Ticket(s', id) == Ticket(s, id);
    }
  }

  lemma TrustOnAnswer(s: System, n: Node, c: Node, id: string, identity: Identity, s': System)
    requires Trust(s) && AnswerStep(s, n, c, id, identity, s')
    ensures Trust(s')
  {
    hide TagOk, RecoveredOk, ServerOk, ClientOk, StoresOk, HistoryOk, MessagesOk, SessionsOk, Grow, ConfigOk, CardsOk;
    CardKnown(s, n);
    Answering(s, n, c, id, identity, s');
    var a := Recovered(n, c, id, s.profiles[n].identity, s.profiles[n].metadata, s.stores[n].key);
    TrustStill(s, s', {}, {a});
  }

  lemma Answering(s: System, n: Node, c: Node, id: string, identity: Identity, s': System)
    requires n in s.profiles && Known(s, Card(s, n))
    requires HistoryOk(s) && StoresOk(s) && AnswerStep(s, n, c, id, identity, s')
    ensures RecoveredOk(s', Recovered(n, c, id, s.profiles[n].identity, s.profiles[n].metadata, s.stores[n].key))
  {
    assert StoreOk(s, n);
    hide Ledger, StoresOk;
    assert EnrolledOk(s, n, id);
    assert CommitOk(s, Fact(n, id, s.stores[n].enrolled[id]));
    hide HistoryOk, StoreOk, Alike, HasJournaled, Fits, Recoverable, Compatible;
  }

  lemma TrustOnRecover(s: System, c: Node, a: Recovered, previous: Outcome, s': System)
    requires Trust(s) && RecoverStep(s, c, a, previous, s')
    ensures Trust(s')
  {
    hide TagOk, RecoveredOk, ServerOk, ClientOk, StoresOk, HistoryOk, MessagesOk, SessionsOk, Grow, ConfigOk, CardsOk,
         MayEnroll, Enroll;
    ConfigSame(s, s');
    CardsSame(s, s');
    SeenAnswer(s, a);
    Recovering(s, c, a, previous, s');
    TrustGrows(s, s', {}, {});
  }

  lemma Recovering(s: System, c: Node, a: Recovered, previous: Outcome, s': System)
    requires HistoryOk(s) && StoresOk(s) && RecoveredOk(s, a) && RecoverStep(s, c, a, previous, s')
    ensures Grow(s, s') && HistoryOk(s') && StoresOk(s')
  {
    var o := Outcome(a.identity, a.metadata, a.server);
    assert JournalOk(s, Fact(c, a.invitation, previous));
    hide HistoryOk, StoresOk, Grow, JournalOk, RecoveredOk, InOrder, Enroll, MayEnroll, Enrolling;
    RecoveringInOrder(s, c, a, previous);
    RecoveringEnrolls(s, c, a, previous, s');
    EnrollGrows(s, s', c, a.invitation, o, a.key, false);
  }

  lemma RecoveringEnrolls(s: System, c: Node, a: Recovered, previous: Outcome, s': System)
    requires RecoverStep(s, c, a, previous, s') && !IssuedBy(s, a.invitation, c)
    ensures Enrolling(s, s', c, a.invitation, Outcome(a.identity, a.metadata, a.server), a.key, false)
  {
    hide Enroll, HasLive, Barred;
  }

  lemma RecoveringInOrder(s: System, c: Node, a: Recovered, previous: Outcome)
    requires JournalOk(s, Fact(c, a.invitation, previous)) && RecoveredOk(s, a) && a.client == c && c in s.stores
    requires a.server == previous.fingerprint
    ensures InOrder(s, c, a.invitation, Outcome(a.identity, a.metadata, a.server), a.key)
    ensures !IssuedBy(s, a.invitation, c)
  {
    hide Alike, KeyOf, Wrote, Used;
  }

  // ----- The tables survive each step

  /** Nothing in the tables moves, and no session begins or changes its invitation. */
  lemma TableAlone(s: System, s': System)
    requires Table(s) && s'.managers == s.managers && s'.issued == s.issued && s'.profiles == s.profiles
    requires s'.claims == s.claims && s'.commits == s.commits
    requires forall i | i in s'.servers ::
               i in s.servers && s'.servers[i].node == s.servers[i].node
                 && s'.servers[i].invitation == s.servers[i].invitation
    ensures Table(s')
  {
    hide SlotsOk;
    forall i | i in s'.servers ensures Holding(s', s'.servers[i]) {
      assert Holding(s, s.servers[i]);
    }
  }

  /** One node's table is replaced; only the slot and the counts of one of its invitations change. */
  lemma ManagersReplaced(
    s: System, s': System, n: Node, slots: Slots, id: string, inv: Invitation, claims: nat, commits: nat)
    requires ManagersOk(s) && CountsOk(s) && n in s.managers && SlotsOk(slots)
    requires s'.managers == s.managers[n := slots] && s'.profiles == s.profiles
    requires n in s.profiles && inv.metadata == s.profiles[n].metadata
    requires inv.inviter == n && s'.issued == s.issued[id := inv] && (id in s.issued ==> s.issued[id] == inv)
    requires s'.claims == s.claims[id := claims] && claims <= MAX_ATTEMPTS
    requires s'.commits == s.commits[id := commits] && commits <= 1
    requires forall i | i in slots && i != id :: i in s.managers[n] && slots[i] == s.managers[n][i]
    requires id in slots ==> slots[id].invitation == inv && slots[id].attempts == claims && commits == 0
    ensures ManagersOk(s') && CountsOk(s')
  {
    hide SlotsOk;
    forall m, i | m in s'.managers && i in s'.managers[m] ensures SlotOk(s', m, i, s'.managers[m][i]) {
      if m != n || i != id {
        assert SlotOk(s, m, i, s.managers[m][i]);
      }
    }
  }

  /** Dropping slots of one node only makes the tables emptier. */
  lemma ManagersShrunk(s: System, s': System, n: Node, slots: Slots)
    requires ManagersOk(s) && CountsOk(s) && n in s.managers && s'.managers == s.managers[n := slots]
    requires s'.issued == s.issued && s'.claims == s.claims && s'.commits == s.commits && s'.profiles == s.profiles
    requires slots.Keys <= s.managers[n].Keys && forall i | i in slots :: slots[i] == s.managers[n][i]
    ensures ManagersOk(s') && CountsOk(s')
  {
    SubmapSize(slots, s.managers[n]);
    forall m, i | m in s'.managers && i in s'.managers[m] ensures SlotOk(s', m, i, s'.managers[m][i]) {
      assert SlotOk(s, m, i, s.managers[m][i]);
    }
  }

  /** No session begins; a slot still open is claimed if it was. */
  lemma ClaimsStay(s: System, s': System)
    requires ClaimsOk(s)
    requires forall i | i in s'.servers ::
               i in s.servers && s'.servers[i].node == s.servers[i].node
                 && s'.servers[i].invitation == s.servers[i].invitation
    requires forall i | i in s'.servers && Holding(s, s.servers[i]) :: Holding(s', s'.servers[i])
    ensures ClaimsOk(s')
  {
  }

  lemma TableOnRemoval(s: System, n: Node, slots: Slots, s': System)
    requires Table(s) && n in s.managers && s' == s.(managers := s.managers[n := slots])
    requires slots.Keys <= s.managers[n].Keys && forall id | id in slots :: slots[id] == s.managers[n][id]
    ensures Table(s')
  {
    hide SlotsOk, SlotOk;
    ManagersShrunk(s, s', n, slots);
    ClaimsStay(s, s');
  }

  lemma TableOnCreate(s: System, n: Node, inv: Invitation, ttl: nat, drawn: nat, now: nat, s': System)
    requires ConfigOk(s) && SessionsOk(s) && Table(s) && CreateStep(s, n, inv, ttl, drawn, now, s')
    ensures Table(s')
  {
    hide ServerOk, ClientOk, SlotsOk, SlotOk, CountsOk, ConfigOk;
    CreatedSlots(s.managers[n], inv, ttl, now);
    SlotsBounded(s, n);
    CreateOk(s.managers[n], inv, ttl, now);
    ManagersReplaced(s, s', n, s'.managers[n], inv.id, inv, 0, 0);
    SessionsIssued(s);
    forall i | i in s.servers ensures Holding(s', s.servers[i]) {
      assert Holding(s, s.servers[i]);
    }
  }

  lemma CreatedSlots(slots: Slots, inv: Invitation, ttl: nat, now: nat)
    requires Create(slots, inv, ttl, now).Ok?
    ensures var after := Create(slots, inv, ttl, now).value;
            && inv.id in after && after[inv.id] == Slot(inv, 0, false)
            && forall i | i in after && i != inv.id :: i in slots && after[i] == slots[i]
  {
  }

  lemma SlotsBounded(s: System, n: Node)
    requires ManagersOk(s) && n in s.managers
    ensures SlotsOk(s.managers[n])
  {
  }

  lemma SessionsIssued(s: System)
    requires SessionsOk(s)
    ensures forall i | i in s.servers ::
              && s.servers[i].invitation.id in s.issued && s.servers[i].node in s.profiles
              && s.issued[s.servers[i].invitation.id] == s.servers[i].invitation
              && s.servers[i].invitation.inviter == s.servers[i].node
  {
    forall i | i in s.servers ensures s.servers[i].invitation.id in s.issued && s.servers[i].node in s.profiles
              && s.issued[s.servers[i].invitation.id] == s.servers[i].invitation
              && s.servers[i].invitation.inviter == s.servers[i].node {
      assert ServerOk(s, s.servers[i]);
    }
  }

  /** An open slot's counts are those of its invitation. */
  lemma OpenSlot(s: System, n: Node, id: string)
    requires ConfigOk(s) && ManagersOk(s) && CountsOk(s) && n in s.managers && id in s.managers[n]
    ensures id in s.issued && id in s.claims && id in s.commits && s.issued[id].inviter == n && s.issued[id].id == id
    ensures s.managers[n][id].invitation == s.issued[id] && s.claims[id] == s.managers[n][id].attempts
    ensures s.commits[id] == 0 && s.claims[id] <= MAX_ATTEMPTS
    ensures n in s.profiles && s.issued[id].metadata == s.profiles[n].metadata
    ensures SlotsOk(s.managers[n])
  {
    assert SlotOk(s, n, id, s.managers[n][id]);
  }

  /** The slot of one open invitation moves along with its counts, or closes. */
  ghost predicate Moved(s: System, s': System, n: Node, id: string) {
    && n in s.managers && n in s'.managers && SlotsOk(s'.managers[n])
    && s'.managers == s.managers[n := s'.managers[n]] && s'.issued == s.issued && s'.profiles == s.profiles
    && id in s'.claims && s'.claims == s.claims[id := s'.claims[id]] && s'.claims[id] <= MAX_ATTEMPTS
    && id in s'.commits && s'.commits == s.commits[id := s'.commits[id]] && s'.commits[id] <= 1
    && id in s.managers[n]
    && (forall i | i in s'.managers[n] && i != id :: i in s.managers[n] && s'.managers[n][i] == s.managers[n][i])
    && (id in s'.managers[n] ==>
          && s'.managers[n][id].invitation == s.managers[n][id].invitation
          && s'.managers[n][id].attempts == s'.claims[id] && s'.commits[id] == 0)
  }

  lemma ManagersMoved(s: System, s': System, n: Node, id: string)
    requires ConfigOk(s) && ManagersOk(s) && CountsOk(s) && Moved(s, s', n, id)
    ensures ManagersOk(s') && CountsOk(s')
  {
    hide SlotsOk, SlotOk, CountsOk, ConfigOk, ManagersOk;
    OpenSlot(s, n, id);
    assert s'.issued == s.issued[id := s.issued[id]];
    ManagersReplaced(s, s', n, s'.managers[n], id, s.issued[id], s'.claims[id], s'.commits[id]);
  }

  lemma AcceptMoves(s: System, sid: nat, n: Node, hello: Hello, pake: nat, now: nat, s': System)
    requires ConfigOk(s) && ManagersOk(s) && CountsOk(s) && AcceptStep(s, sid, n, hello, pake, now, s')
    ensures Moved(s, s', n, hello.invitation)
  {
    var id := hello.invitation;
    hide SlotOk, SlotsOk, CountsOk, ConfigOk, ManagersOk;
    OpenSlot(s, n, id);
    ClaimOk(s.managers[n], id, now);
    ClaimBound(s'.managers[n], id);
    hide Claim;
    assert s'.commits == s.commits[id := 0];
  }

  lemma ManagersOnAccept(s: System, sid: nat, n: Node, hello: Hello, pake: nat, now: nat, s': System)
    requires ConfigOk(s) && ManagersOk(s) && CountsOk(s) && AcceptStep(s, sid, n, hello, pake, now, s')
    ensures ManagersOk(s') && CountsOk(s')
  {
    hide *;
    AcceptMoves(s, sid, n, hello, pake, now, s');
    ManagersMoved(s, s', n, hello.invitation);
  }

  lemma SessionsOnAccept(s: System, sid: nat, n: Node, hello: Hello, pake: nat, now: nat, s': System)
    requires ConfigOk(s) && SessionsOk(s) && Table(s) && AcceptStep(s, sid, n, hello, pake, now, s')
    ensures ClaimsOk(s')
  {
    var id := hello.invitation;
    hide ServerOk, ClientOk, CountsOk, SessionsOk, ClaimsOk, SlotsOk, SlotOk, ConfigOk, ManagersOk;
    OpenSlot(s, n, id);
    ClaimOk(s.managers[n], id, now);
    hide Claim;
    ClaimsOnAccept(s, s', sid, n, id);
  }

  lemma TableOnAccept(s: System, sid: nat, n: Node, hello: Hello, pake: nat, now: nat, s': System)
    requires ConfigOk(s) && SessionsOk(s) && Table(s) && AcceptStep(s, sid, n, hello, pake, now, s')
    ensures Table(s')
  {
    hide AcceptStep, ConfigOk, SessionsOk, ManagersOk, CountsOk, ClaimsOk;
    ManagersOnAccept(s, sid, n, hello, pake, now, s');
    SessionsOnAccept(s, sid, n, hello, pake, now, s');
  }

  lemma ClaimBound(slots: Slots, id: string)
    requires SlotsOk(slots) && id in slots
    ensures slots[id].attempts <= MAX_ATTEMPTS
  {
  }

  /** A new session holds the slot nobody was holding. */
  lemma ClaimsOnAccept(s: System, s': System, sid: nat, n: Node, id: string)
    requires SessionsOk(s) && ClaimsOk(s) && n in s.managers && id in s.managers[n] && !s.managers[n][id].claimed
    requires sid !in s.servers && sid in s'.servers && s'.servers - {sid} == s.servers
    requires s'.servers[sid].node == n && s'.servers[sid].invitation.id == id
    requires id in s.issued && s.issued[id].inviter == n
    requires s'.managers.Keys == s.managers.Keys && id in s'.managers[n] && s'.managers[n][id].claimed
    requires forall m | m in s.managers && m != n :: s'.managers[m] == s.managers[m]
    requires s'.managers[n].Keys == s.managers[n].Keys
    requires forall i | i in s.managers[n] && i != id :: s'.managers[n][i] == s.managers[n][i]
    ensures ClaimsOk(s')
  {
    hide ServerOk, ClientOk;
    SessionsIssued(s);
    forall i | i in s'.servers && i != sid
      ensures i in s.servers && s'.servers[i] == s.servers[i]
      ensures s.servers[i].invitation.id != id && Holding(s', s.servers[i])
    {
      assert i in s'.servers - {sid};
      assert Holding(s, s.servers[i]);
    }
  }

  lemma ApproveMoves(s: System, sid: nat, now: nat, s': System, n: Node, id: string)
    requires ConfigOk(s) && ManagersOk(s) && CountsOk(s) && ApproveStep(s, sid, now, s')
    requires n == s.servers[sid].node && id == s.servers[sid].invitation.id
    ensures Moved(s, s', n, id)
  {
    hide SlotsOk, SlotOk, CountsOk, ConfigOk, ManagersOk, MayEnroll, Enroll;
    OpenSlot(s, n, id);
    RemoveOk(s.managers[n], id);
    assert s'.claims == s.claims[id := s.claims[id]];
  }

  lemma ManagersOnApprove(s: System, sid: nat, now: nat, s': System)
    requires ConfigOk(s) && ManagersOk(s) && CountsOk(s) && ApproveStep(s, sid, now, s')
    ensures ManagersOk(s') && CountsOk(s')
  {
    hide ConfigOk, ManagersOk, CountsOk, Moved, MayEnroll, Enroll;
    var v := s.servers[sid];
    ApproveMoves(s, sid, now, s', v.node, v.invitation.id);
    ManagersMoved(s, s', v.node, v.invitation.id);
  }

  lemma TableOnApprove(s: System, sid: nat, now: nat, s': System)
    requires ConfigOk(s) && Table(s) && ApproveStep(s, sid, now, s')
    ensures Table(s')
  {
    hide ConfigOk, ManagersOk, CountsOk, MayEnroll, Enroll, ClaimsOk;
    assert ManagersOk(s') && CountsOk(s') by {
      hide ApproveStep;
      ManagersOnApprove(s, sid, now, s');
    }
    ClaimsStay(s, s');
  }

  lemma RemoveOk(slots: Slots, id: string)
    requires SlotsOk(slots)
    ensures SlotsOk(slots - {id})
  {
    SubmapSize(slots - {id}, slots);
  }

  lemma ReleaseMoves(s: System, s': System, n: Node, id: string)
    requires ConfigOk(s) && ManagersOk(s) && CountsOk(s) && n in s.managers && id in s.managers[n]
    requires s'.managers == s.managers[n := Release(s.managers[n], id)] && s'.profiles == s.profiles
    requires s'.issued == s.issued && s'.claims == s.claims && s'.commits == s.commits
    ensures Moved(s, s', n, id)
  {
    hide SlotsOk, SlotOk, CountsOk, ConfigOk, ManagersOk;
    OpenSlot(s, n, id);
    ReleaseOk(s.managers[n], id);
    assert s.claims == s.claims[id := s.claims[id]];
    assert s.commits == s.commits[id := 0];
  }

  lemma NothingReleased(s: System, sid: nat)
    requires sid in s.servers
    requires var v := s.servers[sid]; !(v.node in s.managers && v.invitation.id in s.managers[v.node])
    ensures var s' := Finished(s, sid);
            && s'.managers == s.managers && s'.issued == s.issued && s'.claims == s.claims && s'.commits == s.commits
            && s'.profiles == s.profiles
  {
  }

  lemma ManagersOnFinish(s: System, sid: nat)
    requires ConfigOk(s) && ManagersOk(s) && CountsOk(s) && sid in s.servers
    ensures ManagersOk(Finished(s, sid)) && CountsOk(Finished(s, sid))
  {
    var v, s' := s.servers[sid], Finished(s, sid);
    var n, id := v.node, v.invitation.id;
    if n in s.managers && id in s.managers[n] {
      hide ConfigOk, ManagersOk, CountsOk, Moved, Release;
      ReleaseMoves(s, s', n, id);
      ManagersMoved(s, s', n, id);
    } else {
      NothingReleased(s, sid);
      hide ManagersOk, CountsOk, Finished, ConfigOk;
      ManagersUntouched(s, s');
    }
  }

  lemma TableOnFinish(s: System, sid: nat)
    requires ConfigOk(s) && Table(s) && sid in s.servers
    ensures Table(Finished(s, sid))
  {
    hide ConfigOk, ManagersOk, CountsOk, ClaimsOk, Finished;
    ManagersOnFinish(s, sid);
    ClaimsOnFinish(s, sid);
  }

  lemma ManagersUntouched(s: System, s': System)
    requires ManagersOk(s) && CountsOk(s) && s'.managers == s.managers && s'.issued == s.issued
    requires s'.claims == s.claims && s'.commits == s.commits && s'.profiles == s.profiles
    ensures ManagersOk(s') && CountsOk(s')
  {
  }

  lemma ClaimsOnFinish(s: System, sid: nat)
    requires ClaimsOk(s) && sid in s.servers
    ensures ClaimsOk(Finished(s, sid))
  {
    var s' := Finished(s, sid);
    forall i | i in s'.servers ensures Holding(s', s'.servers[i]) {
      assert Holding(s, s.servers[i]);
    }
  }

  lemma TableOnReopen(s: System, n: Node)
    requires Table(s) && n in s.managers && n in s.stores
    ensures Table(Reopened(s, n))
  {
    hide SlotsOk, SlotOk, CountsOk;
    var s' := Reopened(s, n);
    ManagersShrunk(s, s', n, map[]);
    forall i | i in s'.servers ensures Holding(s', s'.servers[i]) {
      assert Holding(s, s.servers[i]);
    }
  }

  /** With no invitation open under the old name. */
  lemma TableOnRename(s: System, n: Node, presentation: string)
    requires Table(s) && n in s.profiles && n in s.managers && s.managers[n] == map[]
    ensures Table(Renamed(s, n, presentation))
  {
    hide SlotsOk;
    var s' := Renamed(s, n, presentation);
    forall m, i | m in s'.managers && i in s'.managers[m] ensures SlotOk(s', m, i, s'.managers[m][i]) {
      assert SlotOk(s, m, i, s.managers[m][i]);
    }
    forall i | i in s'.servers ensures Holding(s', s'.servers[i]) {
      assert Holding(s, s.servers[i]);
    }
  }

  lemma TableOnCrash(s: System, n: Node, presentation: string)
    requires Table(s) && n in s.profiles && n in s.managers && n in s.stores
    ensures Table(Crashed(s, n, presentation))
  {
    hide Table;
    TableOnReopen(s, n);
    TableOnRename(Reopened(s, n), n, presentation);
  }
}
