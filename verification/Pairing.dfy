/** The secure pairing handshake, its recovery and the removal and repair of peers, run by any number of honest
    devices over a network that may drop, replay and invent everything except what the cryptography protects: a
    confirmation tag exists only if the holder of that very secret made it over that very transcript, and a TLS
    peer is the device whose certificate it shows. Clocks are read anew at every check and promise nothing. */
module Pairing {
  import opened Clocks
  import opened Invitations

  /** Devices are named by their certificate fingerprint. */
  type Node = string

  datatype Identity = Identity(deviceId: string, appId: string, userId: string)

  datatype Profile = Profile(identity: Identity, metadata: Metadata)

  /** What one side journals about the other. */
  datatype Outcome = Outcome(identity: Identity, metadata: Metadata, fingerprint: Node)

  /** What a device durably holds about another one; it is looked up by device id and pinned to a certificate. */
  datatype Peer = Peer(identity: Identity, metadata: Metadata, fingerprint: Node, revoked: bool)

  datatype Preparation = Preparation(outcome: Outcome, generation: nat)

  /** What survives a crash: the group key, the peers by device id, the finished and the unfinished pairings by
      invitation id, and the number that every stop, removal and reopening raises. */
  datatype Store = Store(
    key: string,
    peers: map<string, Peer>,
    enrolled: map<string, Outcome>,
    prepared: map<string, Preparation>,
    generation: nat)

  /** On whose behalf a durable operation runs. */
  datatype Handler = Handler(generation: nat, expected: Option<Identity>, recovering: bool, repair: bool)

  /** `node` once wrote `outcome` down under invitation `id`. */
  datatype Fact = Fact(node: Node, id: string, outcome: Outcome)

  datatype Hello = Hello(
    invitation: string, identity: Identity, metadata: Metadata, client: Node, server: Node, pake: nat)

  datatype Transcript = Transcript(hello: Hello, identity: Identity, metadata: Metadata, pake: nat)

  datatype Purpose = ClientConfirm | ServerConfirm | ServerReady | ClientPrepared | AcceptedKey | CommitKey

  datatype Tag = Tag(purpose: Purpose, secret: string, transcript: Transcript, key: Option<string>)

  datatype ServerPhase = Challenged | Readied | ServerCommitted(key: string) | Accepted(key: string)

  datatype ServerSession = ServerSession(
    node: Node, invitation: Invitation, transcript: Transcript, phase: ServerPhase, handler: Handler)

  datatype ClientPhase =
    | Greeted
    | Confirmed(transcript: Transcript)
    | Journaled(transcript: Transcript)
    | Proved(transcript: Transcript)
    | ClientCommitted(transcript: Transcript, key: string)

  datatype ClientSession = ClientSession(
    node: Node, invitation: Invitation, hello: Hello, phase: ClientPhase, handler: Handler)

  /** `PairRecovered`, over TLS from `server` to `client`. */
  datatype Recovered = Recovered(
    server: Node, client: Node, invitation: string, identity: Identity, metadata: Metadata, key: string)

  /** `journaled` and `committed` remember what was ever written down, `shown` what any device ever showed of itself;
      no step reads them but for `Recover`, which works on a copy of a journal. */
  datatype System = System(
    profiles: map<Node, Profile>,
    stores: map<Node, Store>,
    managers: map<Node, Slots>,
    servers: map<nat, ServerSession>,
    clients: map<nat, ClientSession>,
    tags: set<Tag>,
    recovered: set<Recovered>,
    issued: map<string, Invitation>,
    claims: map<string, nat>,
    commits: map<string, nat>,
    journaled: set<Fact>,
    committed: set<Fact>,
    shown: set<Outcome>)

  datatype Step =
    | CreateInvitation(node: Node, invitation: Invitation, ttl: nat, drawn: nat, now: nat)
    | RevokeInvitation(node: Node, id: string)
    | CloseInvitations(node: Node)
    | StartLink(sid: nat, node: Node, invitation: Invitation, expected: Identity, repair: bool, pake: nat, now: nat)
    | AcceptHello(sid: nat, node: Node, hello: Hello, pake: nat, now: nat)
    | Confirm(sid: nat, transcript: Transcript)
    | Ready(sid: nat, now: nat)
    | Prepare(sid: nat)
    | Prove(sid: nat, now: nat)
    | Approve(sid: nat, now: nat)
    | SendKey(sid: nat)
    | CommitLink(sid: nat, key: string, now: nat)
    | SendCommit(sid: nat)
    | Complete(sid: nat, now: nat)
    | AbortServer(sid: nat)
    | AbortClient(sid: nat)
    | Crash(node: Node, presentation: string)
    | NewGeneration(node: Node)
    | RemovePeer(node: Node, device: string)
    | AnswerRecovery(node: Node, client: Node, id: string, identity: Identity)
    | Recover(node: Node, answer: Recovered, previous: Outcome)

  ghost predicate Init(s: System) {
    && s.stores.Keys == s.profiles.Keys == s.managers.Keys
    && (forall n | n in s.profiles :: ValidIdentity(s.profiles[n].identity, s.profiles[n].metadata))
    && (forall n | n in s.stores ::
          s.stores[n].prepared == map[] && s.stores[n].enrolled == map[] && s.stores[n].peers == map[])
    && (forall n | n in s.managers :: s.managers[n] == map[])
    && s.servers == map[] && s.clients == map[] && s.tags == {} && s.recovered == {}
    && s.issued == map[] && s.claims == map[] && s.commits == map[]
    && s.journaled == {} && s.committed == {}
    && s.shown == set n | n in s.profiles :: Card(s, n)
  }

  /** What `n` shows of itself now. */
  function Card(s: System, n: Node): Outcome
    requires n in s.profiles
  {
    Outcome(s.profiles[n].identity, s.profiles[n].metadata, n)
  }

  predicate ValidIdentity(identity: Identity, metadata: Metadata) {
    identity.appId == metadata.manifest.appId
  }

  predicate Compatible(a: Metadata, b: Metadata) {
    a.manifest == b.manifest
  }

  // ----- The durable store

  predicate HasLive(store: Store) {
    exists d :: d in store.peers && !store.peers[d].revoked
  }

  /** The peer of that device is known, was not removed and shows the certificate it was pinned to. */
  predicate Trusts(store: Store, o: Outcome) {
    && o.identity.deviceId in store.peers
    && !store.peers[o.identity.deviceId].revoked && store.peers[o.identity.deviceId].fingerprint == o.fingerprint
  }

  /** Only an explicit repair may go past such a peer. */
  predicate Barred(store: Store, o: Outcome) {
    o.identity.deviceId in store.peers && !Trusts(store, o)
  }

  predicate Validate(store: Store, own: Profile, o: Outcome, h: Handler) {
    && h.generation == store.generation
    && (h.expected.Some? ==> h.expected.value == o.identity)
    && Compatible(own.metadata, o.metadata) && o.identity.appId == own.identity.appId
    && o.identity.deviceId != own.identity.deviceId
    && (Barred(store, o) ==> h.repair)
  }

  /** When the handler agrees to enroll: never past a removed or re-certified peer without repair, never
      replacing the key of a group that has members, and never under a changed preparation. */
  predicate MayEnroll(store: Store, own: Profile, id: string, o: Outcome, key: string, h: Handler) {
    && Validate(store, own, o, h)
    && (key != store.key ==> !HasLive(store))
    && (id in store.prepared ==>
          store.prepared[id].outcome == o && (h.recovering || store.prepared[id].generation == h.generation))
  }

  /** The enrollments of other devices. */
  function Others(enrolled: map<string, Outcome>, device: string): (r: map<string, Outcome>)
    ensures forall id :: id in r <==> id in enrolled && enrolled[id].identity.deviceId != device
    ensures forall id | id in r :: r[id] == enrolled[id]
  {
    map id | id in enrolled && enrolled[id].identity.deviceId != device :: enrolled[id]
  }

  /** Whether an enrollment starts the peer's record afresh. */
  predicate Resets(store: Store, id: string, o: Outcome, repair: bool) {
    !(id in store.enrolled && store.enrolled[id] == o) && (repair || o.identity.deviceId in store.peers)
  }

  function Enroll(store: Store, id: string, o: Outcome, key: string, repair: bool): Store {
    var device, reset := o.identity.deviceId, Resets(store, id, o, repair);
    Store(key,
          if reset || device !in store.peers
          then store.peers[device := Peer(o.identity, o.metadata, o.fingerprint, false)] else store.peers,
          (if reset then Others(store.enrolled, device) else store.enrolled)[id := o],
          store.prepared - {id},
          store.generation)
  }

  function Journal(store: Store, id: string, o: Outcome, generation: nat): Store {
    store.(prepared := store.prepared[id := Preparation(o, generation)])
  }

  function OthersPrepared(prepared: map<string, Preparation>, device: string): (r: map<string, Preparation>)
    ensures forall id :: id in r <==> id in prepared && prepared[id].outcome.identity.deviceId != device
    ensures forall id | id in r :: r[id] == prepared[id]
  {
    map id | id in prepared && prepared[id].outcome.identity.deviceId != device :: prepared[id]
  }

  /** Removing a peer forgets every pairing with it, finished or not, and outdates every session under way. */
  function Removed(store: Store, device: string): Store
    requires device in store.peers
  {
    Store(store.key, store.peers[device := store.peers[device].(revoked := true)],
          Others(store.enrolled, device), OthersPrepared(store.prepared, device), store.generation + 1)
  }

  function Renewed(store: Store): Store {
    store.(generation := store.generation + 1)
  }

  // ----- Steps

  ghost predicate Next(s: System, step: Step, s': System) {
    match step
    case CreateInvitation(n, inv, ttl, drawn, now) => CreateStep(s, n, inv, ttl, drawn, now, s')
    case RevokeInvitation(n, id) =>
      n in s.managers && s' == s.(managers := s.managers[n := s.managers[n] - {id}])
    case CloseInvitations(n) =>
      n in s.managers && s' == s.(managers := s.managers[n := map[]])
    case StartLink(sid, n, inv, expected, repair, pake, now) =>
      StartStep(s, sid, n, inv, expected, repair, pake, now, s')
    case AcceptHello(sid, n, hello, pake, now) => AcceptStep(s, sid, n, hello, pake, now, s')
    case Confirm(sid, t) => ConfirmStep(s, sid, t, s')
    case Ready(sid, now) => ReadyStep(s, sid, now, s')
    case Prepare(sid) => PrepareStep(s, sid, s')
    case Prove(sid, now) => ProveStep(s, sid, now, s')
    case Approve(sid, now) => ApproveStep(s, sid, now, s')
    case SendKey(sid) => SendKeyStep(s, sid, s')
    case CommitLink(sid, key, now) => CommitStep(s, sid, key, now, s')
    case SendCommit(sid) => SendCommitStep(s, sid, s')
    case Complete(sid, now) => CompleteStep(s, sid, now, s')
    case AbortServer(sid) => sid in s.servers && s' == Finished(s, sid)
    case AbortClient(sid) => sid in s.clients && s' == s.(clients := s.clients - {sid})
    case Crash(n, presentation) => n in s.profiles && n in s.stores && s' == Crashed(s, n, presentation)
    case NewGeneration(n) => n in s.stores && s' == s.(stores := s.stores[n := Renewed(s.stores[n])])
    case RemovePeer(n, device) => RemoveStep(s, n, device, s')
    case AnswerRecovery(n, c, id, identity) => AnswerStep(s, n, c, id, identity, s')
    case Recover(n, answer, previous) => RecoverStep(s, n, answer, previous, s')
  }

  /** The time is read twice: for the expiry, and again under the lock. */
  ghost predicate CreateStep(s: System, n: Node, inv: Invitation, ttl: nat, drawn: nat, now: nat, s': System) {
    && n in s.profiles && n in s.managers
    && inv.id !in s.issued && inv.inviter == n && inv.metadata == s.profiles[n].metadata
    && inv.expiresAt == Expiry(drawn, ttl)
    && var made := Create(s.managers[n], inv, ttl, now);
       && made.Ok?
       && s' == s.(managers := s.managers[n := made.value], issued := s.issued[inv.id := inv],
                   claims := s.claims[inv.id := 0], commits := s.commits[inv.id := 0])
  }

  /** The joiner starts from any invitation it was handed, genuine or not; TLS pins the inviter's certificate. A
      repair is only ever asked for by name of a known peer. */
  ghost predicate StartStep(
    s: System, sid: nat, n: Node, inv: Invitation, expected: Identity, repair: bool, pake: nat, now: nat, s': System)
  {
    && n in s.profiles && n in s.stores && sid !in s.clients
    && now < inv.expiresAt && Compatible(s.profiles[n].metadata, inv.metadata)
    && (repair ==> expected.deviceId in s.stores[n].peers)
    && var hello := Hello(inv.id, s.profiles[n].identity, s.profiles[n].metadata, n, inv.inviter, pake);
       var handler := Handler(s.stores[n].generation, Some(expected), false, repair);
       s' == s.(clients := s.clients[sid := ClientSession(n, inv, hello, Greeted, handler)])
  }

  /** The inviter takes any hello whose fingerprints fit the connection, claims the invitation and confirms. */
  ghost predicate AcceptStep(s: System, sid: nat, n: Node, hello: Hello, pake: nat, now: nat, s': System) {
    && n in s.profiles && n in s.managers && n in s.stores && sid !in s.servers
    && ValidIdentity(hello.identity, hello.metadata) && hello.server == n
    && Compatible(s.profiles[n].metadata, hello.metadata)
    && hello.invitation in s.claims
    && var claimed := Claim(s.managers[n], hello.invitation, now);
       && claimed.Ok?
       && var inv := s.managers[n][hello.invitation].invitation;
          var t := Transcript(hello, s.profiles[n].identity, s.profiles[n].metadata, pake);
          && inv.inviter == n && Compatible(s.profiles[n].metadata, inv.metadata)
          && s' == s.(managers := s.managers[n := claimed.value],
                      claims := s.claims[hello.invitation := s.claims[hello.invitation] + 1],
                      servers := s.servers[sid :=
                        ServerSession(n, inv, t, Challenged, Handler(s.stores[n].generation, None, false, false))],
                      tags := s.tags + {Tag(ServerConfirm, inv.secret, t, None)})
  }

  ghost predicate ConfirmStep(s: System, sid: nat, t: Transcript, s': System) {
    && sid in s.clients && s.clients[sid].phase.Greeted?
    && var c := s.clients[sid];
       && c.node in s.profiles && t.hello == c.hello
       && ValidIdentity(t.identity, t.metadata)
       && Compatible(s.profiles[c.node].metadata, t.metadata) && Compatible(c.invitation.metadata, t.metadata)
       && Tag(ServerConfirm, c.invitation.secret, t, None) in s.tags
       && s' == s.(clients := s.clients[sid := c.(phase := Confirmed(t))],
                   tags := s.tags + {Tag(ClientConfirm, c.invitation.secret, t, None)})
  }

  ghost predicate ReadyStep(s: System, sid: nat, now: nat, s': System) {
    && sid in s.servers && s.servers[sid].phase.Challenged?
    && var v := s.servers[sid];
       && Tag(ClientConfirm, v.invitation.secret, v.transcript, None) in s.tags
       && now < v.invitation.expiresAt
       && s' == s.(servers := s.servers[sid := v.(phase := Readied)],
                   tags := s.tags + {Tag(ServerReady, v.invitation.secret, v.transcript, None)})
  }

  function OutcomeOf(t: Transcript): Outcome {
    Outcome(t.identity, t.metadata, t.hello.server)
  }

  /** The joiner durably journals the inviter before proving that it did. */
  ghost predicate PrepareStep(s: System, sid: nat, s': System) {
    && sid in s.clients && s.clients[sid].phase.Confirmed?
    && var c := s.clients[sid];
       && c.node in s.stores && c.node in s.profiles
       && var t := c.phase.transcript;
          && Tag(ServerReady, c.invitation.secret, t, None) in s.tags
          && Validate(s.stores[c.node], s.profiles[c.node], OutcomeOf(t), c.handler)
          && s' == s.(clients := s.clients[sid := c.(phase := Journaled(t))],
                      journaled := s.journaled + {Fact(c.node, c.invitation.id, OutcomeOf(t))},
                      stores := s.stores[c.node :=
                        Journal(s.stores[c.node], c.invitation.id, OutcomeOf(t), c.handler.generation)])
  }

  ghost predicate ProveStep(s: System, sid: nat, now: nat, s': System) {
    && sid in s.clients && s.clients[sid].phase.Journaled?
    && var c := s.clients[sid];
       && now < c.invitation.expiresAt
       && s' == s.(clients := s.clients[sid := c.(phase := Proved(c.phase.transcript))],
                   tags := s.tags + {Tag(ClientPrepared, c.invitation.secret, c.phase.transcript, None)})
  }

  /** The inviter enrolls under the invitation lock, with its own key; the invitation is consumed. */
  ghost predicate ApproveStep(s: System, sid: nat, now: nat, s': System) {
    && sid in s.servers && s.servers[sid].phase.Readied?
    && var v := s.servers[sid];
       && v.node in s.managers && v.node in s.stores && v.node in s.profiles && v.invitation.id in s.commits
       && Tag(ClientPrepared, v.invitation.secret, v.transcript, None) in s.tags
       && MayCommit(s.managers[v.node], v.invitation.id, now)
       && var store, h := s.stores[v.node], v.transcript.hello;
          var outcome := Outcome(h.identity, h.metadata, h.client);
          && MayEnroll(store, s.profiles[v.node], v.invitation.id, outcome, store.key, v.handler)
          && s' == s.(servers := s.servers[sid := v.(phase := ServerCommitted(store.key))],
                      stores := s.stores[v.node :=
                        Enroll(store, v.invitation.id, outcome, store.key, v.handler.repair)],
                      committed := s.committed + {Fact(v.node, v.invitation.id, outcome)},
                      managers := s.managers[v.node := s.managers[v.node] - {v.invitation.id}],
                      commits := s.commits[v.invitation.id := s.commits[v.invitation.id] + 1])
  }

  ghost predicate SendKeyStep(s: System, sid: nat, s': System) {
    && sid in s.servers && s.servers[sid].phase.ServerCommitted?
    && var v := s.servers[sid];
       s' == s.(servers := s.servers[sid := v.(phase := Accepted(v.phase.key))],
                tags := s.tags + {Tag(AcceptedKey, v.invitation.secret, v.transcript, Some(v.phase.key))})
  }

  ghost predicate CommitStep(s: System, sid: nat, key: string, now: nat, s': System) {
    && sid in s.clients && s.clients[sid].phase.Proved?
    && var c := s.clients[sid];
       && c.node in s.stores && c.node in s.profiles
       && var t := c.phase.transcript;
          && Tag(AcceptedKey, c.invitation.secret, t, Some(key)) in s.tags
          && now < c.invitation.expiresAt
          && MayEnroll(s.stores[c.node], s.profiles[c.node], c.invitation.id, OutcomeOf(t), key, c.handler)
          && s' == s.(clients := s.clients[sid := c.(phase := ClientCommitted(t, key))],
                      committed := s.committed + {Fact(c.node, c.invitation.id, OutcomeOf(t))},
                      stores := s.stores[c.node :=
                        Enroll(s.stores[c.node], c.invitation.id, OutcomeOf(t), key, c.handler.repair)])
  }

  ghost predicate SendCommitStep(s: System, sid: nat, s': System) {
    && sid in s.clients && s.clients[sid].phase.ClientCommitted?
    && var c := s.clients[sid];
       s' == s.(clients := s.clients - {sid},
                tags := s.tags + {Tag(CommitKey, c.invitation.secret, c.phase.transcript, Some(c.phase.key))})
  }

  ghost predicate CompleteStep(s: System, sid: nat, now: nat, s': System) {
    && sid in s.servers && s.servers[sid].phase.Accepted?
    && var v := s.servers[sid];
       && v.node in s.stores
       && Tag(CommitKey, v.invitation.secret, v.transcript, Some(v.phase.key)) in s.tags
       && now < v.invitation.expiresAt && v.handler.generation == s.stores[v.node].generation
       && Recoverable(s.stores[v.node], v.invitation.id, v.transcript.hello.identity, v.transcript.hello.client)
       && s' == Finished(s, sid)
  }

  /** A session ends, however it ends, by releasing its claim. */
  function Finished(s: System, sid: nat): System
    requires sid in s.servers
  {
    var v := s.servers[sid];
    s.(servers := s.servers - {sid},
       managers := if v.node in s.managers
                   then s.managers[v.node := Release(s.managers[v.node], v.invitation.id)] else s.managers)
  }

  /** Sessions and invitations are lost; opening the store again raises its generation, keeps identity and manifest,
      and may change how the device presents itself. */
  function Crashed(s: System, n: Node, presentation: string): System
    requires n in s.profiles && n in s.stores
  {
    Renamed(Reopened(s, n), n, presentation)
  }

  function Renamed(s: System, n: Node, presentation: string): System
    requires n in s.profiles
  {
    var profile := s.profiles[n].(metadata := s.profiles[n].metadata.(presentation := presentation));
    s.(profiles := s.profiles[n := profile],
       shown := s.shown + {Outcome(profile.identity, profile.metadata, n)})
  }

  function Reopened(s: System, n: Node): System
    requires n in s.stores
  {
    s.(servers := map sid | sid in s.servers && s.servers[sid].node != n :: s.servers[sid],
       clients := map sid | sid in s.clients && s.clients[sid].node != n :: s.clients[sid],
       managers := s.managers[n := map[]],
       stores := s.stores[n := Renewed(s.stores[n])])
  }

  ghost predicate RemoveStep(s: System, n: Node, device: string, s': System) {
    && n in s.stores && device in s.stores[n].peers
    && s' == s.(stores := s.stores[n := Removed(s.stores[n], device)])
  }

  /** An enrollment of exactly this invitation, identity and certificate, of a peer that is still trusted. */
  predicate Recoverable(store: Store, id: string, identity: Identity, fingerprint: Node) {
    && id in store.enrolled
    && store.enrolled[id].identity == identity && store.enrolled[id].fingerprint == fingerprint
    && Trusts(store, store.enrolled[id])
  }

  /** The inviter answers a recovery request that arrives over TLS from `c`. */
  ghost predicate AnswerStep(s: System, n: Node, c: Node, id: string, identity: Identity, s': System) {
    && n in s.stores && n in s.profiles
    && Recoverable(s.stores[n], id, identity, c)
    && identity.appId == s.profiles[n].identity.appId
    && Compatible(s.profiles[n].metadata, s.stores[n].enrolled[id].metadata)
    && s' == s.(recovered := s.recovered + {
                  Recovered(n, c, id, s.profiles[n].identity, s.profiles[n].metadata, s.stores[n].key)})
  }

  /** The handler of a recovery never repairs. */
  function RecoveryHandler(store: Store, previous: Outcome): Handler {
    Handler(store.generation, Some(previous.identity), true, false)
  }

  /** The joiner finishes from a copy of its journal, which may have moved on since. */
  ghost predicate RecoverStep(s: System, c: Node, a: Recovered, previous: Outcome, s': System) {
    && c in s.stores && c in s.profiles && a in s.recovered && a.client == c
    && Fact(c, a.invitation, previous) in s.journaled
    && a.server == previous.fingerprint && a.identity == previous.identity
    && Compatible(s.profiles[c].metadata, a.metadata)
    && var outcome := Outcome(a.identity, a.metadata, previous.fingerprint);
       && MayEnroll(s.stores[c], s.profiles[c], a.invitation, outcome, a.key, RecoveryHandler(s.stores[c], previous))
       && s' == s.(committed := s.committed + {Fact(c, a.invitation, outcome)},
                   stores := s.stores[c := Enroll(s.stores[c], a.invitation, outcome, a.key, false)])
  }
}
