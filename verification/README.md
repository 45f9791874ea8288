# LibreSync, verified

A Dafny model of the algorithmic parts of LibreSync, with proofs of what they promise. LibreSync keeps the same
key/value data on several devices: each device stamps its writes with a Lamport clock, hands its peers deltas instead
of snapshots, pairs with new devices through one-time invitations, merges application records field by field, and
mirrors files into its state. `dafny verify dfyconfig.toml` checks the whole project.

| files | what they cover |
|---|---|
| `Clocks`, `Values`, `KeyLoops` | clocks and their order, entry values, loops over sorted maps |
| `SyncState`, `Replication`, `Convergence` | one replica; N replicas exchanging deltas; what every run guarantees |
| `Router`, `Backup`, `Retention`, `Compaction` | routing inbound entries to adapters, restoring and pruning snapshots, forgetting old tombstones |
| `RecordKeys`, `Records`, `RecordMerge`, `RecordLattice`, `MergeLimits`, `RecordFold` | record keys and field clocks, merging two versions, when merging is a join, folding batches |
| `Invitations`, `Pairing`, `PairingSafety`, `PairingRuns`, `PairingHistory`, `PairingProgress` | the invitation table; the handshake with crashes, recovery, removal and repair; agreement and single use; what is forgotten when; progress |
| `Notifier` | the wake-up byte shared by emitting and receiving threads |
| `DeltaCodec`, `PageDeltas`, `SqliteAdapter` | page deltas: binary form, diff and patch, what a stored file reads back as |
| `Momentum` | merging an operation log with final deletions |
| `Base64` | the key store's text form |
| `DashboardTrees`, `Dashboard`, `DashboardPage` | reconciling a rendered view into the page, as trees and in place |

Code that changes things in place is modelled as classes and methods with loops (`State`, `RecordState`,
`PairingManager`, `EventStream`, `SqliteFileAdapter`, `Document`, and free-standing methods), each tied by its
postconditions to a function on values; the properties are proved about those functions. Protocols with several parties
are state machines over their atomic steps, and their theorems speak of every reachable state.

## What the theorems take for granted

- Confirmation tags and TLS certificates are ideal: a tag exists only if a holder of that secret made it over that
  transcript, and a TLS peer is the device whose certificate it shows. Everything else on the network may be dropped,
  repeated, delayed or invented. Devices follow the protocol and may crash, start over, remove and repair peers at any
  step; durable stores survive crashes, but re-pairing and removal make them forget, which is why agreement is stated
  over what was ever written down. A device keeps its identity, certificate and manifest; the rest of what it shows of
  itself may change whenever it is opened again. Clocks are read anew at each check and need not agree or advance. A
  recovery's check and the key it answers with are one step, and so is an approval.
- Epochs and invitation ids are fresh when drawn. A connection dies with the state of either end.
- The JSON form of a value is injective, so a payload stands for its bytes; strings are sequences of UTF-8 bytes.
- 64-bit counters are modelled with their saturation; steps of the replication runs are taken below it, and lemmas say
  exactly what goes wrong at it. Page numbers and sizes carry their 32-bit truncation.
- Field values hold no NaN.

## Where the code and its comments part

- `engine.rs:306-315` says the re-arming after each take keeps consumers that take one event per wake-up from being
  starved. They can be: `Notifier.StrandedIffHolding` says when, for any number of threads at rest. Draining until
  `None`, as `engine.rs:145` asks, is exactly what rules it out.
- `adapter.rs:496-514` treats an empty page difference as an unchanged file. It is also what a cut at a page boundary
  gives, and then the old file is kept (`SqliteAdapter.ReadsBackUnlessCut`).
- `record.rs:217-225` makes a tombstone's key from the record it holds. Parsing accepts several spellings of a key
  (`RecordKeys.AliasParses`), so a tombstone under another spelling is taken for the record stored under the usual one
  (`Compaction.AliasTakesLive` shows it removed); `Compaction.HarmlessIff` says in which states this can happen.
- `keystore.rs:472-503` accepts padding anywhere a group ends, up to four characters of it, and ignores unused bits;
  `Base64.StrictDecoding` says which accepted texts an encoding produces.
- `session/pairing.rs:369-427` retries every journaled pairing, yet never as a repair. A repair removes the peer first, so
  one that crashes between the two commits is refused at every retry (`PairingProgress.CrashedRepairIsStuck`); it takes
  another repair.
- `session/pairing.rs:158-162` compares the whole outcome with the journal, names included, while `pairing.rs:879-891`
  answers a recovery with the names of today and `session/network.rs:547-552` expects peers to change them. An inviter
  opened again under another name between the two commits is refused at every retry
  (`PairingProgress.RenamedInviterIsStuck`) until it has its old name again; `PairingRuns.RecoveryCompletes` is exact.

## Steps of the pairing protocol

| step | source |
|---|---|
| CreateInvitation, RevokeInvitation, CloseInvitations | crates/libresync/src/pairing.rs:230-281 |
| StartLink | crates/libresync/src/pairing.rs:503-539, crates/libresync/src/session/pairing.rs:294-345 and, as a repair, crates/libresync/src/session/network.rs:1030-1041 |
| AcceptHello | crates/libresync/src/pairing.rs:662-706 and crates/libresync/src/session/network.rs:438-451 |
| Confirm | crates/libresync/src/pairing.rs:540-568 |
| Ready | crates/libresync/src/pairing.rs:707-722 |
| Prepare, Prove | crates/libresync/src/pairing.rs:569-606 and crates/libresync/src/session/pairing.rs:122-135 |
| Approve, SendKey | crates/libresync/src/pairing.rs:723-746 and crates/libresync/src/session/pairing.rs:136-219 |
| CommitLink, SendCommit | crates/libresync/src/pairing.rs:607-634 and crates/libresync/src/session/pairing.rs:136-219 |
| Complete | crates/libresync/src/pairing.rs:747-762 |
| RemovePeer | crates/libresync/src/session/network.rs:973-990 |
| NewGeneration, Crash | crates/libresync/src/session/network.rs:32-44, 322-344 and crates/libresync/src/session/mod.rs:193-256 |
| AnswerRecovery | crates/libresync/src/pairing.rs:863-897 and crates/libresync/src/session/pairing.rs:220-241 |
| Recover | crates/libresync/src/pairing.rs:797-862 and crates/libresync/src/session/pairing.rs:369-427 |

## Model

| member | source | states |
|---|---|---|
| Clocks.ClockOrder | crates/libresync/src/entry.rs:11-24 | the clock order, by counter and then byte-wise by device, is a total order |
| SyncState.State.constructor | crates/libresync/src/state.rs:59-72 | a fresh state is empty and well formed, with sequence 1 so that a zero cursor means never synced |
| SyncState.State.Set | crates/libresync/src/state.rs:74-88 | the whole new state; the entry returned is the one stored; well-formedness is kept |
| SyncState.State.ApplyEntry | crates/libresync/src/state.rs:101-118 | last-writer-wins: written exactly when the stored clock is not at least as great; the counter rises even when refused |
| SyncState.State.UpsertEntry | crates/libresync/src/state.rs:120-132 | written exactly when it differs from the stored version, whatever the clocks say |
| SyncState.State.RecordWrite | crates/libresync/src/state.rs:225-238 | the next apply sequence and the origin of the write, nothing else |
| SyncState.State.MergeSnapshot | crates/libresync/src/state.rs:134-142 | the loop leaves the state of the recursive merge and counts the accepted entries |
| SyncState.State.MergeFrom | crates/libresync/src/state.rs:155-164 | a merge attributed to the peer; the previous attribution is put back |
| SyncState.State.Snapshot | crates/libresync/src/state.rs:144-147 | every entry once, in key order |
| SyncState.ListEntries | crates/libresync/src/state.rs:144-147 | walking the map lists every entry exactly once and in order |
| SyncState.State.DeltaSince | crates/libresync/src/state.rs:166-187 | exactly the entries after the position and not from the excluded device, or everything for a zero or future position |
| SyncState.State.SetPeerCursor | crates/libresync/src/state.rs:196-201 | stores one cursor and changes nothing else |
| SyncState.State.Remove | crates/libresync/src/state.rs:94-99 | drops the entry together with its sequence and origin and stays well formed |
| SyncState.State.Normalize | crates/libresync/src/state.rs:240-261 | any loaded state: old sequences stay, missing ones are dealt in key order behind them, what no entry stands for is dropped; the result is well formed if and only if the entries sit under their own keys, the counter bounds their clocks and their old sequences lie in range |
| SyncState.NumberMissing | crates/libresync/src/state.rs:240-261 | the n-th missing key in order gets the n-th sequence after the start, capped at the 64-bit maximum; all others stay |
| SyncState.ApplyKeeps | crates/libresync/src/state.rs:101-118 | one inbound entry keeps the state well formed and lowers neither the counter nor any entry |
| SyncState.MergeKeeps | crates/libresync/src/state.rs:134-142 | nor does any list of inbound entries, in any order; the counter ends above all of their clocks |
| SyncState.MergeIsJoin | crates/libresync/src/state.rs:134-142 | merging any listing of a map gives the pointwise join with that map, whatever the order of the listing |
| Replication.SetGrows | crates/libresync/src/state.rs:74-88 | a local write only adds: no entry is lost or lowered and no sequence is reused |
| Replication.MergeGrows | crates/libresync/src/state.rs:134-142 | neither does an inbound merge, and what it numbers is attributed to the peer |
| Replication.OmissionsAreHeld | crates/libresync/src/state.rs:155-181 | what a delta leaves out the requester already holds at an equal or greater clock, so delta and snapshot join to the same map |
| Replication.AnswerOk | crates/libresync/src/state.rs:166-219 | a delta computed from a resolved cursor omits only what the requester holds |
| Replication.DeliveredGrows | crates/libresync/src/state.rs:134-201 | applying it and storing the sender's position keeps every promise about cursors |
| Replication.WriteKeeps | crates/libresync/src/state.rs:74-88 | the delta invariant survives a local write |
| Replication.AskKeeps | crates/libresync/src/state.rs:203-219 | it survives a request |
| Replication.AnswerKeeps | crates/libresync/src/state.rs:166-219 | it survives an answer |
| Replication.DeliverKeeps | crates/libresync/src/state.rs:134-201 | it survives a delivery, however late and in whatever order the entries are merged |
| Replication.RecreateKeeps | crates/libresync/src/state.rs:51-72 | it survives a replica recreated under a fresh epoch |
| Replication.NextKeeps | crates/libresync/src/state.rs:58-238 | so every step of N replicas keeps: a cursor in the sender's current epoch means every key up to it is held at an equal or greater clock |
| Convergence.DeltaIsAsGoodAsSnapshot | crates/libresync/src/protocol.rs:91-112 | in every reachable state, merging a delta leaves exactly the entries that merging the sender's full snapshot would |
| Convergence.OneClockOneEntry | crates/libresync/src/state.rs:74-142 | as long as no replica is recreated while anything its device stamped is around, one clock never stands for two entries anywhere, in replicas or in flight, and each counter bounds the clocks of its device |
| Convergence.PullJoins | crates/libresync/src/sync.rs:547-594 | one pull gives the puller the join of both maps and touches nobody else |
| Convergence.PullBothWaysAgrees | crates/libresync/src/sync.rs:547-594 | in such runs: A pulls from B, then B from A, and both maps are identical, values included |
| Convergence.ExchangeAgrees | crates/libresync/src/sync.rs:895-938 | in such runs the two-way exchange, in which each side computes its delta before merging the other's, also ends in identical maps |
| Convergence.HubCollects | crates/libresync/src/state.rs:134-142 | a hub that pulls from others ends above each of them and everything it was above |
| Convergence.HubSpreads | crates/libresync/src/state.rs:134-142 | whoever then pulls from it ends equal to it |
| Convergence.GossipConverges | crates/libresync/src/state.rs:134-142 | one round through a hub makes all replicas equal, from any state reached without reusing a clock still in use |
| Convergence.WriteIsInDelta | crates/libresync/src/state.rs:225-238 | a write shows in the next delta if and only if the sequence did not saturate |
| Convergence.WritesAreTold | crates/libresync/src/state.rs:74-88 | two writes get different clocks if and only if the counter did not saturate |
| Convergence.RecreationReusesClocks | crates/libresync/src/state.rs:59-88 | until a recreated replica has passed the counter under which a peer holds an earlier entry of its device, that peer refuses its writes for the key, and only until then; the write before that reuses the very clock |
| Convergence.LateDeltaFromDeadSenderIsLost | crates/libresync/src/state.rs:155-181 | an answer delivered after its sender was recreated would lose an entry for good: connections must die with either end's state |
| Router.OwnerIsFirst | crates/libresync/src/adapter.rs:171-193 | an entry belongs to the first adapter that owns its key, or to none |
| Router.FillBuckets | crates/libresync/src/adapter.rs:171-182 | every entry lands in exactly one bucket, its owner's, in arrival order |
| Router.ApplyEntries | crates/libresync/src/adapter.rs:80-88 | the default adapter merge of one bucket, which may be empty |
| Router.MergeBuckets | crates/libresync/src/adapter.rs:183-191 | buckets merged one after another, counting what was applied |
| Router.MovePast | crates/libresync/src/adapter.rs:171-193 | an entry may be merged after any entries for other keys instead of before them |
| Router.SplitSame | crates/libresync/src/adapter.rs:171-193 | merging the entries of two owner ranges in turn is merging them in arrival order |
| Router.ApplyInbound | crates/libresync/src/adapter.rs:171-193 | routing is merging the same entries in another order, so what deliveries keep carries over; entries, counter, sequence and applied count come out as if unrouted, ties included |
| RecordKeys.EscapeComponent | crates/libresync/src/record.rs:374-385 | the loop produces the escaped form |
| RecordKeys.UnescapeComponent | crates/libresync/src/record.rs:387-411 | the loop accepts exactly well-escaped UTF-8 and returns the string |
| RecordKeys.EscapeRoundTrip | crates/libresync/src/record.rs:374-411 | every byte string unescapes to itself, and what escaping leaves is unreserved characters and percent triples, never a colon |
| RecordKeys.SplitKey | crates/libresync/src/record.rs:295-324 | splitting a key at its colons gives back the five escaped parts |
| RecordKeys.KeyRoundTrip | crates/libresync/src/record.rs:295-336 | a key parses to exactly the four strings it was made from |
| RecordKeys.KeysInjective | crates/libresync/src/record.rs:295-304 | equal keys mean equal namespace, schema, entity and id |
| RecordKeys.KeysHaveAliases | crates/libresync/src/record.rs:387-411 | parsing is not injective: lower case hex and a leading plus sign are accepted |
| RecordKeys.OwnIffUsual | crates/libresync/src/record.rs:295-336 | a parsed key is the one its parts are stored under if and only if each component is unreserved characters as themselves and every other byte as a percent sign with two upper-case digits |
| Records.StampFieldClocks | crates/libresync/src/record.rs:55-73 | the loop gives every field its own, the inherited or the record clock, and drops clocks of absent fields |
| Records.EntryRoundTrip | crates/libresync/src/record.rs:338-372 | a record reads back from its entry in its own namespace and is invisible in every other |
| Records.GetFinds | crates/libresync/src/record.rs:139-145 | what a well-keyed state holds under a record's key is that record or an error, never another record |
| Records.SetReadsBack | crates/libresync/src/record.rs:150-168 | after a local write the content reads back; an unchanged field keeps its clock, a changed one gets one above everything seen |
| Records.RecordState.GetRecord | crates/libresync/src/record.rs:139-145 | a record found has the asked id and is exactly what is stored; nothing is found if and only if nothing is stored under its key; an error means bytes that are no payload |
| Records.RecordState.Set | crates/libresync/src/record.rs:150-168 | the whole new state, or an unchanged state on a stored entry that cannot be read |
| Records.RecordState.Apply | crates/libresync/src/record.rs:173-183 | the whole new state and whether the record was newer; a refused record does not even raise the counter |
| Records.RecordState.Upsert | crates/libresync/src/record.rs:187-192 | the whole new state and whether anything differed |
| RecordKeys.AliasParses | crates/libresync/src/record.rs:306-336 | a key that spells a byte as an escape parses like the record's own key although it differs from it |
| Compaction.CollectTombstones | crates/libresync/src/record.rs:217-225 | the loop counts the tombstones of the namespace and lists the dated ones, or stops at an unreadable entry |
| Compaction.Choose | crates/libresync/src/record.rs:227-256 | the expired tombstones and, if the rest exceeds the limit, the oldest of it, earlier of equals first; repeated keys included |
| Compaction.ChoosesOldest | crates/libresync/src/record.rs:227-256 | of tombstones under different keys these are exactly the oldest max(expired, dated - limit) |
| Compaction.TogetherOldest | crates/libresync/src/record.rs:227-256 | expired ones plus the oldest of the others are the oldest of all |
| Compaction.RemoveAll | crates/libresync/src/record.rs:258-263 | the loop removes the keys, counts those that were there and keeps the state well formed |
| Compaction.Compact | crates/libresync/src/record.rs:212-270 | for every state: exactly what is stored under the keys picked from the listing in key order goes, all else stays, and the summary counts it; an unreadable entry leaves the state alone |
| Compaction.CompactionDetermined | crates/libresync/src/record.rs:217-263 | so state, policy and time leave no choice of what goes, ties between equally old tombstones included |
| Compaction.CanonicalCompacted | crates/libresync/src/record.rs:212-270 | with every record under its own key exactly the oldest dated tombstones up to the quota go |
| Compaction.CompactionSpares | crates/libresync/src/record.rs:212-270 | no live record and no undated tombstone is touched, every expired one goes, the rest respects the limit |
| Compaction.HarmlessIff | crates/libresync/src/record.rs:212-270 | no policy and time make a compaction remove a live record or an undated tombstone if and only if the state cannot be read, or whatever is stored under the key made from a dated tombstone's record is a dated tombstone too |
| Compaction.CanonicalIffUsual | crates/libresync/src/record.rs:212-225 | every record sits under its own key if and only if every record's key is spelled in the usual way |
| Compaction.RecordWritesStayCanonical | crates/libresync/src/record.rs:150-192 | setting, applying and upserting records keeps every record under its own key |
| Compaction.AliasTakesLive | crates/libresync/src/record.rs:212-270 | a tombstone under another spelling of a live record's key: keeping no tombstones removes the live record, keeps the tombstone and reports one tombstone removed |
| RecordMerge.UnionLists | crates/libresync/src/logical.rs:387-395 | the loop keeps the left list and adds the unseen items |
| RecordMerge.UnionMaps | crates/libresync/src/logical.rs:396-401 | the loop keeps the left value wherever both maps have the key, whatever the order of the walk |
| RecordMerge.JoinCounters | crates/libresync/src/logical.rs:411-430 | the loop merges per device: the larger count, else the newer side |
| RecordMerge.MergeField | crates/libresync/src/logical.rs:371-499 | one field under every policy, custom handlers included |
| RecordMerge.FillClocks | crates/libresync/src/logical.rs:318-324 | every stored field gets a clock |
| RecordMerge.MergeFields | crates/libresync/src/logical.rs:325-349 | the loop treats every incoming field once and leaves all others |
| RecordMerge.MergeRecords | crates/libresync/src/logical.rs:302-369 | the method meets the value specification of a merge on every pair of versions |
| RecordLattice.MergedGood | crates/libresync/src/logical.rs:302-369 | a merge is live and stamped again, and no field clock exceeds the record clock |
| RecordLattice.MergedAbove | crates/libresync/src/logical.rs:302-446 | a merge is above both versions: no field, field clock or per-device count is lost or lowered |
| RecordLattice.MergedLeast | crates/libresync/src/logical.rs:302-446 | anything above both versions is above their merge |
| RecordLattice.MergedAgrees | crates/libresync/src/logical.rs:302-446 | agreement of values at equal clocks is inherited by the merge |
| RecordLattice.BelowTrans | crates/libresync/src/logical.rs:302-446 | being at least as recent in every respect is transitive |
| RecordLattice.BelowAntisym | crates/libresync/src/logical.rs:302-446 | two versions at least as recent as each other are identical |
| RecordLattice.MergeCommutes | crates/libresync/src/logical.rs:302-446 | merging commutes |
| RecordLattice.MergeAssociates | crates/libresync/src/logical.rs:302-446 | merging associates |
| RecordLattice.MergeIdempotent | crates/libresync/src/logical.rs:302-446 | merging is idempotent |
| RecordLattice.Absorbs | crates/libresync/src/logical.rs:302-446 | a merge changes nothing if and only if the incoming version is below the stored one |
| MergeLimits.TombstoneCommutes | crates/libresync/src/logical.rs:310-316 | a deletion and another version commute if and only if their clocks differ or they are the same version |
| MergeLimits.AssociatesUnlessBuried | crates/libresync/src/logical.rs:310-316 | any mix of three live versions and deletions associates if and only if no deletion between two live versions swallows content the newer one lacks |
| MergeLimits.GroupingMatters | crates/libresync/src/logical.rs:310-316 | three concrete versions whose grouping changes the result |
| MergeLimits.RestoreMeetsFieldClocks | crates/libresync/src/backup.rs:222-240 | a restored field prevails in a merge if and only if the stored field clock is not newer or the values agree |
| MergeLimits.MapUnionCommutes | crates/libresync/src/logical.rs:396-401 | set union on maps commutes if and only if the maps agree on common keys |
| MergeLimits.ListUnionItems | crates/libresync/src/logical.rs:387-395 | a list union keeps the stored list in front and holds exactly the items of both |
| MergeLimits.AppendOnlyKeepsAll | crates/libresync/src/logical.rs:465-482 | an append-only field loses no item of either side whichever is newer, and a replay changes nothing |
| MergeLimits.AppendOnlyReplay | crates/libresync/src/logical.rs:465-482 | a value stored by a first insert survives its own replay if and only if it is a list |
| RecordFold.MergeIntoState | crates/libresync/src/logical.rs:283-297 | one incoming record: merged with the stored one or stored as it came, then written if different |
| RecordFold.ApplySnapshotWithPolicy | crates/libresync/src/logical.rs:276-300 | the loop folds the batch, stopping at the first unreadable entry, and counts the writes |
| RecordFold.ShareIsJoin | crates/libresync/src/logical.rs:276-369 | for each record the fold computes the least version above the stored and all incoming ones |
| RecordFold.FoldShares | crates/libresync/src/logical.rs:276-300 | the fold never fails on readable records, stores each record's join and leaves every other entry alone |
| RecordFold.FoldStoresJoin | crates/libresync/src/logical.rs:276-300 | the stored version is the least one above what was stored and everything that came in |
| RecordFold.FoldIgnoresOrder | crates/libresync/src/logical.rs:276-300 | any permutation with any repetition leaves the same entries |
| RecordFold.FoldBatches | crates/libresync/src/logical.rs:276-300 | batches in turn equal their concatenation, counts included |
| RecordFold.FoldReplay | crates/libresync/src/logical.rs:276-300 | replaying records already folded returns 0 and changes nothing: entries, counter, apply sequence, origins |
| Backup.ReclockEntriesForRestore | crates/libresync/src/backup.rs:325-340 | each entry gets the next local clock |
| Backup.RestoreWins | crates/libresync/src/backup.rs:325-340 | where nothing is in the way the snapshot's contents prevail, the later of two values for one key, and all other keys stay |
| Backup.RestoreAcceptsIff | crates/libresync/src/backup.rs:325-340 | every entry is accepted if and only if no entry re-clocked at the counter's maximum meets a clock at or above its own, held or given to an earlier entry for its key |
| Backup.RestoreSnapshot | crates/libresync/src/backup.rs:222-240 | unconfirmed: refused and unchanged; confirmed: all accepted exactly under that condition, which always holds below the maximum, contents then in place at clocks above the counter; other keys untouched in every case |
| Retention.SortByCreation | crates/libresync/src/backup.rs:243-244 | oldest first, equals in the order they came |
| Retention.StableUnique | crates/libresync/src/backup.rs:243-244 | there is only one such arrangement |
| Retention.DeleteExpired | crates/libresync/src/backup.rs:257-264 | exactly the snapshots past the age cutoff, which are the oldest ones |
| Retention.DeleteOverflow | crates/libresync/src/backup.rs:266-278 | goes on from the oldest until no more than the limit remain, counting those already deleted |
| Retention.PlanPrune | crates/libresync/src/backup.rs:242-288 | deletes exactly the oldest max(expired, overflow) snapshots; nothing kept is older than anything deleted |
| Retention.QuotaSuffices | crates/libresync/src/backup.rs:242-288 | then every expired snapshot is gone and the count bound holds |
| Notifier.AccountedKeeps | crates/libresync/src/engine.rs:274-315 | every atomic step of any thread keeps the byte count balanced |
| Notifier.AttendedKeeps | crates/libresync/src/engine.rs:181-201 | every step keeps queued events attended to: flag on, or some thread still to look or to signal |
| Notifier.NextKeeps | crates/libresync/src/engine.rs:181-328 | so both hold over every interleaving of any number of emitters and receivers |
| Notifier.TokensAccounted | crates/libresync/src/engine.rs:274-315 | unread bytes plus owed bytes minus bytes about to be read is 1 while the flag is on and 0 otherwise, at every point |
| Notifier.NoReaderStuck | crates/libresync/src/engine.rs:292-304 | a receiver waiting on the pipe always has a writer that can go ahead |
| Notifier.NoLostWakeup | crates/libresync/src/engine.rs:181-201 | after every receiver drained to `None`, queued events mean the flag is on or an emitter is about to set it |
| Notifier.QuietMeansReadable | crates/libresync/src/engine.rs:218-226 | with all calls returned and all receivers drained, queued events show as exactly one unread byte |
| Notifier.StrandedIffHolding | crates/libresync/src/engine.rs:308-315 | for any number of threads at rest: an event can be queued with nothing readable if and only if somebody emits and some receiver's last call returned an event rather than `None` |
| Notifier.EventStream.TryRecv | crates/libresync/src/engine.rs:181-201 | for one thread at a time: the oldest event or `None`, and readable exactly when events remain |
| Notifier.EventStream.AfterTake | crates/libresync/src/engine.rs:308-315 | for one thread: readiness matches the queue again |
| Notifier.EventStream.Signal | crates/libresync/src/engine.rs:276-289 | one unread byte while the flag is on |
| Notifier.EventStream.ConsumeSignal | crates/libresync/src/engine.rs:292-304 | no unread byte once the flag is off |
| Notifier.EventStream.Emit | crates/libresync/src/engine.rs:322-328 | queued last, and readable |
| DeltaCodec.EncodeSqliteDelta | crates/libresync/src/adapter.rs:551-567 | the loop writes header and pages, or refuses more than 32 bits can count |
| DeltaCodec.DecodeSqliteDelta | crates/libresync/src/adapter.rs:569-631 | accepts exactly the encodings of valid deltas and returns the delta encoded |
| DeltaCodec.ReadPage | crates/libresync/src/adapter.rs:597-621 | one page with every bound the code checks |
| DeltaCodec.DecodeEncode | crates/libresync/src/adapter.rs:551-631 | decoding undoes encoding on every valid delta |
| DeltaCodec.EncodeDecode | crates/libresync/src/adapter.rs:551-631 | encoding undoes decoding on every accepted byte string |
| DeltaCodec.OffsetsNeverOverflow | crates/libresync/src/adapter.rs:605-608 | the checked page offset addition cannot overflow 64 bits |
| DeltaCodec.ShortTail | crates/libresync/src/adapter.rs:589-594 | rejecting a page count the remaining bytes cannot hold loses nothing |
| PageDeltas.ComputePageDelta | crates/libresync/src/adapter.rs:657-685 | the loop collects the changed pages in order, with 32-bit truncation written out |
| PageDeltas.ApplyPageDelta | crates/libresync/src/adapter.rs:687-702 | the loop patches in place; a valid delta yields exactly its file size |
| PageDeltas.PatchKeepsSize | crates/libresync/src/adapter.rs:687-702 | patching fitting pages never takes the resize branch |
| PageDeltas.DecodedSize | crates/libresync/src/adapter.rs:569-702 | any accepted encoding, on any base, yields exactly `file_size` bytes without resizing |
| PageDeltas.ApplyComputed | crates/libresync/src/adapter.rs:657-702 | applying a computed difference to its base gives back the new file |
| PageDeltas.ComputedValid | crates/libresync/src/adapter.rs:657-685 | a computed difference is valid, so it survives the binary form |
| PageDeltas.EmptyDelta | crates/libresync/src/adapter.rs:657-685 | the difference is empty if and only if the file is unchanged or is the base cut at a page boundary |
| SqliteAdapter.SqliteFileAdapter.UpdateState | crates/libresync/src/adapter.rs:491-520 | the whole new state, or an unchanged one when the delta cannot be encoded |
| SqliteAdapter.SqliteFileAdapter.BytesFromState | crates/libresync/src/adapter.rs:522-533 | base, or base patched by a stored delta that decodes |
| SqliteAdapter.SqliteFileAdapter.WithPageDelta | crates/libresync/src/adapter.rs:441-444 | page sizes are raised to at least 512 |
| SqliteAdapter.ReadsBackUnlessCut | crates/libresync/src/adapter.rs:491-533 | with page deltas on and a base stored, the file reads back if and only if it is not the base cut at a page boundary; then the base is read |
| SqliteAdapter.ReadsBackWithoutDelta | crates/libresync/src/adapter.rs:491-533 | otherwise it reads back if and only if a delta left from earlier does not change it |
| SqliteAdapter.UpdateSettles | crates/libresync/src/adapter.rs:491-520 | mirroring the same file again writes nothing |
| Momentum.Prepare | crates/libresync/src/companion.rs:128-169 | the loops load the local log and merge the incoming records, or refuse; the staged list is in id order |
| Momentum.MeetKeeps | crates/libresync/src/companion.rs:141-157 | one accepted meeting never undoes a deletion, changes a live operation or lowers a clock |
| Momentum.MergeAllExtends | crates/libresync/src/companion.rs:138-159 | whatever comes in, an accepted merge of a sound log loses no id, lowers no clock, revives no deleted operation and alters no live one |
| Momentum.PreparedExtends | crates/libresync/src/companion.rs:128-169 | so for every accepted input from end to end: the stored list loads into a sound log of its last versions, and what is staged extends it |
| Momentum.MeetIsMax | crates/libresync/src/companion.rs:141-157 | on versions that cannot collide the later clock is kept |
| Momentum.StagesNewest | crates/libresync/src/companion.rs:128-169 | on collision-free records the staged log is the newest version of every id |
| Momentum.OrderIrrelevant | crates/libresync/src/companion.rs:128-169 | so it depends only on which records there are, not on order, repetition or what was local |
| Momentum.Batches | crates/libresync/src/companion.rs:140-159 | nor on how the incoming records are batched |
| Momentum.DeletionMustBeLater | crates/libresync/src/companion.rs:151-156 | a deletion and a live version end the same in either order if and only if the deletion is later |
| Base64.Encode | crates/libresync/src/keystore.rs:449-470 | the loop writes four characters for every three bytes begun, 4 times the number of bytes over 3 rounded up in all |
| Base64.Decode | crates/libresync/src/keystore.rs:472-506 | the loops strip whitespace, gather groups and cut padding |
| Base64.QuadRoundTrip | crates/libresync/src/keystore.rs:449-503 | a group of one, two or three bytes decodes to itself |
| Base64.RoundTrip | crates/libresync/src/keystore.rs:449-503 | every byte string decodes back from its encoding |
| Base64.WhitespaceIgnored | crates/libresync/src/keystore.rs:472-477 | ASCII whitespace inserted anywhere changes nothing, accepted or not |
| Base64.StrictDecoding | crates/libresync/src/keystore.rs:472-506 | what is decoded encodes back to the text, whitespace aside, if and only if the text is strict: letters only, but for at most two characters of padding at the end with the bits they leave unused zero; every strict text is accepted |
| Base64.PaddingAlone | crates/libresync/src/keystore.rs:478-503 | not strict but accepted: a group of padding alone |
| Base64.PaddingInside | crates/libresync/src/keystore.rs:478-503 | and a padded group in front of any others |
| Base64.PaddedZeros | crates/libresync/src/keystore.rs:478-503 | two such groups of one zero byte each, for one |
| DashboardTrees.PatchedLike | alwaysOn/libresync-always-on/src/dashboard.js:14-32 | a patched node shows the new view all the way down and keeps its identity |
| DashboardTrees.ReconciledLike | alwaysOn/libresync-always-on/src/dashboard.js:33-54 | for all old and new children, duplicates and reorderings included, the outcome shows the new ones in order; only `open` on a DETAILS may be extra |
| DashboardTrees.StableIffLike | alwaysOn/libresync-always-on/src/dashboard.js:14-32 | patching changes nothing if and only if the node already shows the new view |
| DashboardTrees.StableChildren | alwaysOn/libresync-always-on/src/dashboard.js:33-54 | rendering an unchanged view again leaves every child as it is, in place |
| DashboardTrees.MatchedByRank | alwaysOn/libresync-always-on/src/dashboard.js:33-54 | the n-th new child of a kind takes over the n-th old child of that kind, wherever either stands |
| Dashboard.ReconciledApart | alwaysOn/libresync-always-on/src/dashboard.js:33-54 | no node ends up in two places and none is invented |
| Dashboard.InsertedAt | alwaysOn/libresync-always-on/src/dashboard.js:50-51 | inserting before the first unmatched child puts a node right behind those in place |
| Dashboard.FirstMatchIsFind | alwaysOn/libresync-always-on/src/dashboard.js:37-46 | searching the old children for an unused one of the kind finds the first of those left |
| DashboardPage.Document.InsertBefore | alwaysOn/libresync-always-on/src/dashboard.js:50-51 | the node leaves its old parent and goes before the reference, or last |
| DashboardPage.Document.RemoveChild | alwaysOn/libresync-always-on/src/dashboard.js:53 | the node leaves its parent, nothing else moves |
| DashboardPage.Document.FindCurrent | alwaysOn/libresync-always-on/src/dashboard.js:37-46 | the loop finds the first unused old child of the same kind |
| DashboardPage.Document.PatchAttributes | alwaysOn/libresync-always-on/src/dashboard.js:20-28 | the two loops leave exactly the new attributes, and `open` on a DETAILS |
| DashboardPage.Document.PatchNode | alwaysOn/libresync-always-on/src/dashboard.js:14-32 | in place: the document shows the patched tree, and only nodes of the two trees changed |
| DashboardPage.Document.Advance | alwaysOn/libresync-always-on/src/dashboard.js:36-52 | one turn of the loop puts the right node in place and keeps what is placed, unmatched and to come apart |
| DashboardPage.Document.RemoveUnused | alwaysOn/libresync-always-on/src/dashboard.js:53 | the leftovers go, the placed children stay |
| DashboardPage.Document.ReconcileChildren | alwaysOn/libresync-always-on/src/dashboard.js:33-54 | in place: the parent's children are exactly the reconciled ones, each shown with its identity, and only nodes of the trees involved changed |
| Invitations.PairingManager.CreateInvitation | crates/libresync/src/pairing.rs:230-266 | what is stored, dropped and returned in every case, with the time read once for the expiry and once under the lock; a created invitation is open exactly until it expires |
| Invitations.PairingManager.Revoke | crates/libresync/src/pairing.rs:268-274 | the invitation is gone, nothing else |
| Invitations.PairingManager.Close | crates/libresync/src/pairing.rs:275-281 | no invitation is left |
| Invitations.PairingManager.ClaimInvitation | crates/libresync/src/pairing.rs:293-307 | succeeds exactly on an unclaimed, unexpired invitation with attempts left, and counts the attempt |
| Invitations.PairingManager.ReleaseInvitation | crates/libresync/src/pairing.rs:308-316 | the claim is given back, the attempt stays counted |
| Invitations.PairingManager.Commit | crates/libresync/src/pairing.rs:317-331 | the callback decides only on a claimed, unexpired invitation; success consumes it |
| Invitations.CreateOk | crates/libresync/src/pairing.rs:230-266 | never more than sixteen open invitations |
| Invitations.ClaimOk | crates/libresync/src/pairing.rs:293-307 | never more than five attempts, and only the claimed slot moves |
| Invitations.ReleaseOk | crates/libresync/src/pairing.rs:308-316 | a release moves only its slot |
| PairingSafety.EnrollTrusts | crates/libresync/src/session/pairing.rs:174-216 | an enrollment drops exactly the device's earlier ones, ends in trust under the certificate shown and touches no other device's record |
| PairingSafety.EnrollLedger | crates/libresync/src/session/pairing.rs:174-216 | so it keeps the books: every enrollment names a trusted peer, no peer has two, none is trusted without one |
| PairingSafety.RemovedLedger | crates/libresync/src/session/network.rs:973-998 | and so does a removal |
| PairingSafety.TrustOnPrepare | crates/libresync/src/session/pairing.rs:122-135 | journaling before proof keeps the chain of trust |
| PairingSafety.TrustOnApprove | crates/libresync/src/pairing.rs:723-739 | the inviter's durable enrollment, which may displace earlier ones, keeps it: the proof it saw means the joiner has journaled |
| PairingSafety.TrustOnCommit | crates/libresync/src/pairing.rs:607-634 | the joiner's enrollment keeps it, repairs included: the key it took means the inviter has enrolled |
| PairingSafety.TrustOnRecover | crates/libresync/src/pairing.rs:824-857 | so does an enrollment finished from a copy of the journal |
| PairingSafety.TrustOnRemove | crates/libresync/src/session/network.rs:973-998 | and a removal, which forgets enrollments and journals of that peer |
| PairingSafety.TrustOnRename | crates/libresync/src/session/mod.rs:193-247 | and opening again under another name, with the identity and the manifest as before |
| PairingSafety.TableOnAccept | crates/libresync/src/pairing.rs:653-706 | claiming keeps at most one session per invitation |
| PairingSafety.TableOnApprove | crates/libresync/src/pairing.rs:723-739 | a commit happens at most once and closes the invitation |
| PairingSafety.TableOnFinish | crates/libresync/src/pairing.rs:763-766 | releasing keeps the counts |
| PairingRuns.TrustKeeps | crates/libresync/src/pairing.rs:494-897 | every step of every interleaving, crashes, renamings, removals and repairs included, keeps the chain of trust |
| PairingRuns.TableKeeps | crates/libresync/src/pairing.rs:230-331 | and the counts of claims and commits |
| PairingRuns.InviterCommitsAfterJoinerJournals | crates/libresync/src/pairing.rs:723-739 | an inviter only ever enrolled a joiner, as it once showed itself, that had journaled the same invitation; that journal is the inviter as it issued the invitation |
| PairingRuns.JoinerCommitsAfterInviter | crates/libresync/src/pairing.rs:607-634 | a joiner only ever enrolled the inviter of that invitation, as it once showed itself, after that one had enrolled this joiner |
| PairingRuns.OneKeyPerPairing | crates/libresync/src/session/pairing.rs:151-157 | while both ends of an invitation hold it they hold one group key |
| PairingRuns.TrustedAreEnrolled | crates/libresync/src/session/pairing.rs:174-216 | a peer is trusted if and only if an enrollment names it; no peer has two, and each names it as it once showed itself |
| PairingRuns.OneJoinerPerInvitation | crates/libresync/src/pairing.rs:317-331 | one invitation never enrolls two joiners |
| PairingRuns.OneOutcome | crates/libresync/src/session/pairing.rs:136-219 | what a device writes under one invitation is always one device, certificate and manifest; an inviter writes one outcome, and two that a joiner wrote differ exactly in how the inviter presents itself |
| PairingRuns.KeyOnlyAfterCommit | crates/libresync/src/pairing.rs:728-746 | whatever carries the key exists only after the sender durably enrolled the receiver, and is the inviter's key for as long as the inviter keeps that enrollment |
| PairingRuns.ProofMeansJournal | crates/libresync/src/pairing.rs:576-606 | the proof of preparation exists only if that joiner has journaled this inviter |
| PairingRuns.InvitationLimits | crates/libresync/src/pairing.rs:230-331 | one session between claim and release, five claims, one commit, sixteen invitations; a committed invitation is open nowhere |
| PairingRuns.CommitsOnlyWhileClaimed | crates/libresync/src/pairing.rs:317-331 | a commit is counted only in a step that finds the invitation claimed and unexpired, and that step closes it |
| PairingHistory.EnrollmentLost | crates/libresync/src/session/pairing.rs:136-219 | an enrollment is lost in a step if and only if that step removes the peer or pairs with the same device under another invitation; what it says changes if and only if the step commits the same invitation under another name, and it always names the same device |
| PairingHistory.OffTicketIff | crates/libresync/src/session/pairing.rs:154-162 | a joiner writes the inviter as it issued the invitation, except if and only if it recovers from a copy of a journal that is gone and the answering inviter has been renamed |
| PairingHistory.HeldUntilDisplaced | crates/libresync/src/session/pairing.rs:136-219 | over runs: it is held throughout, always naming the same device, if and only if no displacing step happens |
| PairingHistory.HistoryIsReal | crates/libresync/src/session/pairing.rs:122-219 | what the theorems remember as written down is exactly what some store held at some earlier moment of the run |
| PairingHistory.ShownIsReal | crates/libresync/src/session/mod.rs:193-247 | and what they take for once shown is what that very device showed at some earlier moment |
| PairingHistory.JoinerHoldsWhatInviterHeld | crates/libresync/src/pairing.rs:607-634 | a joiner that holds a pairing got it after the inviter did; if no such step hit the inviter since, it holds it still and both hold one key |
| PairingHistory.InviterHoldsWhatJoinerJournaled | crates/libresync/src/pairing.rs:723-739 | an inviter that holds a pairing got it after the joiner had journaled it |
| PairingHistory.OnlyRepairLiftsBar | crates/libresync/src/session/pairing.rs:73-77 | a peer that was removed or shows another certificate is trusted again in a step if and only if that step is the joiner's commit of an explicit repair of it under that certificate |
| PairingHistory.RemovalBars | crates/libresync/src/session/network.rs:973-998 | a removal bars the peer under every certificate and leaves it no enrollment |
| PairingHistory.BarredAreRefused | crates/libresync/src/session/pairing.rs:53-79 | an inviter never enrolls such a peer, a joiner only on repair |
| PairingRuns.RecoveryIsAnswered | crates/libresync/src/pairing.rs:863-897 | the inviter always answers a joiner whose enrollment it holds, whatever either is called by now |
| PairingRuns.RecoveryCompletes | crates/libresync/src/pairing.rs:797-862 | the joiner finishes from the answer if and only if it does not bar the inviter, is in no group under another key, and its journal, if still there, shows the inviter as it shows itself now; and in exactly one way |
| PairingRuns.RecoveryLeavesTheRest | crates/libresync/src/pairing.rs:797-897 | then both hold each other and one key; other enrollments, the inviter's store, invitations, counts and sessions are as before |
| PairingProgress.HandshakeSucceeds | crates/libresync/src/pairing.rs:494-766 | two devices that fit an open invitation and are left undisturbed end up paired, unless one bars the other; a bar at the joiner gives way to a repair |
| PairingProgress.CrashLeavesRecoverable | crates/libresync/src/pairing.rs:494-766 | a joiner that crashes after the inviter's approval and comes back under any name is left half paired, and recovery can finish if and only if it did not bar the inviter to begin with |
| PairingProgress.ReopenedInviter | crates/libresync/src/session/mod.rs:243-247 | if the inviter is opened again too, recovery can finish if and only if, besides, it has the name it had |
| PairingProgress.RenamedInviterIsStuck | crates/libresync/src/session/pairing.rs:158-162 | so an inviter renamed meanwhile answers recoveries that the joiner refuses, all of them |
| PairingProgress.CrashedRepairIsStuck | crates/libresync/src/session/pairing.rs:369-427 | so a repair that crashes there leaves a journal that recovery refuses although the inviter answers |
| PairingProgress.PairingAgainForgets | crates/libresync/src/session/pairing.rs:189-192 | pairing once more with a known device makes the inviter forget the earlier pairing that the joiner still holds |
| PairingProgress.FirstHandshake | crates/libresync/src/pairing.rs:494-766 | any two devices that fit can open a first handshake |
| PairingProgress.HandshakeAgain | crates/libresync/src/pairing.rs:494-766 | whoever has paired can open another one, in the situation that makes the inviter forget |
| PairingProgress.RepairAsked | crates/libresync/src/session/network.rs:1030-1041 | and after a removal one that asks for a repair, in the situation that a crash leaves stuck |

## Left out

- DeltaIsAsGoodAsSnapshot: steps at which a counter or sequence would saturate are not taken; `Convergence.WriteIsInDelta` and `Convergence.WritesAreTold` give the exact limits. A delta is delivered only while both ends still have the state they had when the request was made; `Convergence.LateDeltaFromDeadSenderIsLost` shows why.
- PullBothWaysAgrees: over runs in which a replica is recreated only once nothing its device stamped is around; one recreated earlier reuses clocks (`Convergence.RecreationReusesClocks`).
- RestoreSnapshot: for adapters with the default last-writer-wins merge; `MergeLimits.RestoreMeetsFieldClocks` says what happens to record fields.
- MergeCommutes: fields under last-writer-wins, or under the counter policy as one integer per device. For other policies and for deletions `MergeLimits` gives the exact conditions; custom handlers are called but not constrained.
- FoldIgnoresOrder: live records of those two policies whose equal field clocks carry equal values.
- ReadsBackUnlessCut: page size below 2^32 and at most 2^32 - 1 pages. A record stored under a file adapter's key counts as absent; the code would take its JSON for the file.
- OrderIrrelevant: local records with distinct ids, as a store holds them.
- Document: nodes are numbers in a table of the document rather than objects; elements and text nodes only.
- State::remove and tombstone compaction inside replication runs, and rolling a replica back to an older file: they drop data that cursors assume is kept.
- HandshakeSucceeds: between two running devices; while a device is stopped it takes no step. Generation numbers are unbounded.
- Receipts, bootstrap state, addresses and incarnations of a peer, and the names that syncing refreshes: pairing never reads them.
- The snapshot difference summary: it only counts.
- How merged versions written by upsert travel back to their origin: this depends on who syncs with whom and when.
- The pipe's absence on some platforms, wakers and the poisoned-lock paths of the notifier.
- Legacy linking, approval by the user, rate of attempts across processes, and the session store's file format.
- Focus handling after a dashboard reconciliation, rendering, labels and styling.
- TLS, sockets, discovery, Tailscale, file watching, leases, permissions and atomic renames; real cryptography; JSON; the FFI, the CLI, the daemon and packaging.
