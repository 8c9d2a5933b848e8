# Subspace Transceiver in Dafny

A replicated agent memory, modelled and proved. Chunks are written to a store that is split into time epochs, replicated by
delta gossip, read through head-of-chain resolution, and surrounded by indexes, limits and canonical forms. The model follows
the code in `packages/core` and `packages/daemon`; where the code and its comments differ, it follows the code.

Code that updates state is a class or a method with loops, proved against a specification function or relation; what the
system promises is then proved about that specification, mostly over all runs.

| file | subject |
|---|---|
| `Chunks.dfy`, `Sorting.dfy`, `Arith.dfy` | the shared data, a stable sort, products and quotients |
| `Query.dfy`, `QueryApply.dfy` | head resolution, and the query around it |
| `Loro.dfy`, `LoroStore.dfy` | the CRDT document as far as it is relied on, and the store over it |
| `Replication.dfy` | the replication manager as a class; each method is one step of the protocol |
| `ReplicationProtocol.dfy`, `Convergence.dfy` | the protocol as a step relation over peers: safety, convergence, late joiners; agreement is always in reach |
| `EpochTime.dfy`, `EpochOrder.dfy` | epoch ids and starts, with ISO 8601 weeks; when ids come back |
| `Epochs.dfy`, `EpochManager.dfy` | epochs on values, and the manager as a class |
| `EpochQuery.dfy`, `FlatQuery.dfy`, `AnswerOrder.dfy` | queries across epochs against one flat store, their limit and their order |
| `EpochSteps.dfy`, `EpochFates.dfy`, `EpochAtomic.dfy`, `Schedule.dfy` | rotation and drop interleaved with puts and forgets: safety, undone forgets, lost puts; the scheduler over them |
| `Gc.dfy`, `Lifetime.dfy` | collection of expired chunks, the tick that pairs it with rotation, and a manager at work from its opening on |
| `Graph.dfy`, `Backlinks.dfy` | breadth-first search over links, and the reverse index |
| `Json.dfy`, `Signing.dfy`, `Lexicon.dfy` | JSON values and their text, canonical form for signing, record validation |
| `RateLimiter.dfy`, `Pow.dfy` | sliding windows and bans, hashcash stamps and their cache |
| `RelayStore.dfy` | the relay mailbox |
| `Bloom.dfy`, `Discovery.dfy` | Bloom filters, and the manifests built and indexed with them |

`dafny verify dfyconfig.toml` checks everything.

## Assumptions

- Loro: a document is a growing set of writes, each identified by Lamport clock and peer; importing is union; a key reads its
  latest write by (clock, peer); an export since a version is what the version lacks.
- SHA-256, base64, Ed25519 and lower-casing are function parameters with the laws that are used: digests are 64 hex digits,
  decoding undoes encoding. What a signature or a digest must not collide with is assumed for the very texts or challenges
  compared, not for all.
- An id is never written twice with different content, as `packages/core/src/store.ts:7-11` demands; the predicates
  `OneContent`, `AppendOnly` and `FixedContent` say so where it is needed.
- Clocks are parameters. They do not go back, and integers are unbounded: timestamps stay below 2^53.

## Where the code falls short

Each of these is proved, and so is the exact condition, checkable beforehand, under which the code is right. Where that
condition is for chunks without forks or ties, its row below says so.

- A reset of the synced version is overwritten by a broadcast that straddles it (`StraddlingBroadcastSpoils`, `ResetHoldsIff`).
- A chunk live in two epochs survives a forget (`ForgetHidesIff`); a forget during migration can be undone
  (`ForgetIsUndone`, `ForgetUndoneIff`); a put during a rotation that starts too late is lost (`LatePutIsLost`, `RotationSafeIff`),
  which ticks close enough to each other rule out (`TicksAreTimely`, `InsideForIff`).
- A query across epochs may return a stale version beside its successor, miss a current one, and return more than its limit
  (`StaleVersionReturned`, `ForkLoserMissed`, `LimitPerEpochOnly`; `QueryMatchesFlatStoreIff`,
  `QueryMatchesFlatStoreWithForksIff`, `LimitKeptIff`). It need not be newest first once a rotation has copied an old chunk into
  the newest epoch (`OldestFirst`, `NewestFirstIff`, `DescendingIff`).
- Weekly epoch numbers are one too high after midnight in years that begin on a Friday (`WeekOffByOne`,
  `WeeklyEpochContainsIff`). So ids come back while the clock goes forward (`WeekTwoReturns`, `NeverReturnsIff`), and a rotation
  then replaces an open store by its snapshot (`ReopenedReadsIff`).
- Timestamp ties make head resolution depend on input order (`OrderIrrelevantIffNoTies`); a superseded chunk is returned when
  no superseder of it matches (`StaleAnswer`, `StaleAnswerIff`, `StaleAnswerWithForksIff`).
- One collection run may not be enough (`OneRunIsNotEnough`; `OneRunOnChainsIff`, `OneRunIsEnoughIff`, `SeriesEnds`).
- A colon in a scope lets two pairs of peer and scope share a challenge (`ScopesRunTogether`; `AcceptedInScopeIff`, `PeerAndScopeIff`).
- A stamp whose mining crossed two window boundaries is useless on return (`GetOrMine`), a stamp cache shared by two peers
  serves one the other's stamp (`TwoPeers`), and a manifest stamped with another window length is refused
  (`StampedManifestAdmissibleIff`).
- Depositing a held envelope id for another recipient leaves it in the old recipient's set (`DepositExactIff`).

## Model

| member | source | states |
|---|---|---|
| ReplicationProtocol.StepInv | packages/core/src/replication.ts:140-218 | Every single step (a local write, the export, hand-over, success or failure of a broadcast, a neighbour-up reset, a delivery, a stop) keeps the whole protocol invariant: shape of logs and in-flight broadcasts, coverage of every synced version, ownership of writes. |
| ReplicationProtocol.StepCovers | packages/core/src/replication.ts:150-177 | Coverage counted from any position of a node's log survives every step of every node, commits of overlapping broadcasts included. |
| ReplicationProtocol.SyncedVersionIsGossiped | packages/core/src/replication.ts:150-177 | In every reachable state the version a node counts as sent consists of writes that its own successful payloads carried and that it still holds, whatever failed, overlapped or arrived out of order. |
| ReplicationProtocol.NextDeltaHasNoGap | packages/core/src/replication.ts:150-166 | In every reachable state the next delta, together with the payloads that succeeded before, is exactly the whole document. |
| ReplicationProtocol.WritesAreIdentified | packages/core/src/loro-store.ts:115-130 | In every reachable state no two nodes hold different writes with the same clock and peer, which is what importing presupposes. |
| ReplicationProtocol.Convergence | packages/core/src/replication.ts:183-218 | Once everything that succeeded is delivered and every node counts its document as sent, all nodes hold the same writes and answer every read alike. |
| ReplicationProtocol.ForgetReachesEveryone | packages/core/src/loro-store.ts:178-205 | If a node forgets an id after seeing every live write of it, then in every converged end of every later run the id reads as absent on every node. |
| ReplicationProtocol.ResetHoldsIff | packages/core/src/replication.ts:106-115 | A neighbour-up reset serves late joiners in all continuations if and only if no broadcast of the namespace that straddles it carries less than its version; a check on the in-flight broadcasts at the reset. |
| ReplicationProtocol.StraddlingBroadcastSpoils | packages/core/src/replication.ts:166-173 | The failing direction, with the run that shows it: the commit of a straddling broadcast overwrites the reset with a version that nothing sent since then carries. |
| ReplicationProtocol.FirstPayloadIsWhole | packages/core/src/replication.ts:85-115 | After a reset with no broadcast of the namespace in flight, the first payload that succeeds is a whole document, at least the one held at the reset. |
| ReplicationProtocol.LateJoinerCatchesUp | packages/core/src/replication.ts:85-115 | A peer that received only the successful payloads since such a reset holds the full document as soon as the sender counts its document as sent. |
| Convergence.Transfer | packages/core/src/replication.ts:85-218 | From any state of running nodes a schedule exists after which one node has added all of another's writes in a namespace and no other document has changed. |
| Convergence.AgreementInReach | packages/core/src/replication.ts:97-177 | From every reachable state of running nodes some schedule leads to a reachable state where all payloads are delivered, every node counts its document as sent, and every document is the union of all writes held before: the premise of Convergence can always be met, and no write is lost. |
| Replication.ReplicationManager.BroadcastDelta | packages/core/src/replication.ts:150-166 | Up to the await: nothing happens on a stopped manager, else one new in-flight broadcast of the namespace's own document, with the delta since the synced version and the version exported beside it; the abstract node takes exactly that step. |
| Replication.ReplicationManager.HandedToGossip | packages/core/src/replication.ts:166-172 | The payload enters the log; the synced version does not move yet. The message carries the delta, the topic, this node's id, and the name of the namespace the broadcast is of. |
| Replication.ReplicationManager.BroadcastSucceeded | packages/core/src/replication.ts:172-173 | Only the resumption after a success advances the synced version, to the version exported at the start of that very broadcast. |
| Replication.ReplicationManager.BroadcastFailed | packages/core/src/replication.ts:174-177 | A failure drops the broadcast and leaves the synced version where it was. |
| Replication.ReplicationManager.OnGossipMessage | packages/core/src/replication.ts:183-218 | A message is imported exactly when the manager is listening and it is well-formed, for this topic, from another node and of a known namespace: the skill document becomes the union for namespace skill, the project document for namespace project, the other stays as it is; any other message changes nothing. |
| Replication.Deliver | packages/core/src/replication.ts:150-218 | From one manager to another: the broadcast of a namespace arrives in the receiver's document of that namespace as a union, and leaves the other document alone. |
| Replication.ReplicationManager.OnNeighborUp | packages/core/src/replication.ts:85-94 | Only a neighbour on this topic resets the synced versions, of both namespaces. |
| Replication.ReplicationManager.ResetSyncVersion | packages/core/src/replication.ts:111-115 | Both synced versions become undefined; in-flight broadcasts are not touched. |
| Replication.ReplicationManager.ScheduleBroadcast | packages/core/src/replication.ts:140-148 | One pending timer per namespace however often the store changes, none on a stopped manager. |
| Replication.ReplicationManager.DebounceElapsed | packages/core/src/replication.ts:140-148 | The timer clears its own mark and starts the broadcast; a stop in between is caught by the broadcast itself. |
| Replication.ReplicationManager.Start | packages/core/src/replication.ts:70-104 | Subscribing changes neither documents nor versions. |
| Replication.ReplicationManager.Stop | packages/core/src/replication.ts:120-134 | Marks the node stopped and ends the subscriptions; broadcasts waiting at the await stay in flight. |
| Loro.WriteUpdatesView | packages/core/src/loro-store.ts:115-130 | Under Lamport clocks a local write overrides every earlier write of the key: the document reads as a plain map update. |
| Loro.MergeLaws | packages/core/src/loro-store.ts:264-276 | Importing is commutative, associative and idempotent. |
| Loro.DeltaCompletes | packages/core/src/loro-store.ts:228-247 | A delta since a version the receiver covers brings it up to the sender's whole document. |
| Loro.TombstoneWins | packages/core/src/loro-store.ts:178-205 | A tombstone later than every live write of its id makes the id read as absent. |
| Loro.HigherPeerWins | packages/core/src/loro-store.ts:132-148 | Of two concurrent writes with one clock the one of the higher peer is read. |
| LoroStore.LoroMemoryStore.Put | packages/core/src/loro-store.ts:115-130 | The store as a map: exactly the chunk's own key changes; persistent stores note that a save is due. |
| LoroStore.LoroMemoryStore.Get | packages/core/src/loro-store.ts:132-148 | Reads the latest write of the key by clock and peer; a tombstone reads as absent. |
| LoroStore.LoroMemoryStore.List | packages/core/src/loro-store.ts:165-176 | All live entries and no others, each id once, in an order that is the same as long as the document is unchanged. |
| LoroStore.LoroMemoryStore.Query | packages/core/src/loro-store.ts:150-163 | The query of what list would answer; so only live entries that match. |
| LoroStore.LoroMemoryStore.Forget | packages/core/src/loro-store.ts:178-205 | Writes a tombstone under the id, also when the id was never there. |
| LoroStore.LoroMemoryStore.ExportDelta | packages/core/src/loro-store.ts:228-247 | Importing the delta gives whoever holds the given version the union with this document, and the delta repeats no write of that version; without a version that holds for everyone. |
| Loro.DeltaUnique | packages/core/src/loro-store.ts:228-247 | These promises leave one delta only: what the version lacks. |
| LoroStore.LoroMemoryStore.ImportDelta | packages/core/src/loro-store.ts:264-276 | Malformed bytes change nothing; others are merged in. The store stays sound if no write in them clashes in clock and peer with one it has. |
| LoroStore.LoroMemoryStore.constructor | packages/core/src/loro-store.ts:88-113 | A store starts from what its snapshot holds, from nothing without one. |
| Query.ResolveHeads | packages/core/src/query.ts:71-112 | The three loops compute the specified heads of the list, ties and order included. |
| Query.HeadsResolve | packages/core/src/query.ts:71-112 | What head resolution means, order apart: one newest chunk for every fork among the chunks that nothing in the input supersedes, no fork twice, none missing. |
| Query.ResolutionUnique | packages/core/src/query.ts:98-107 | With distinct sibling timestamps that meaning admits one result set. |
| Query.Coverage | packages/core/src/query.ts:71-112 | For tombstone-free input with distinct ids and acyclic supersedes, every chunk is answered by itself, by a descendant along supersedes, or by the winning sibling of the end of its chain. |
| Query.AnswerIsCurrent | packages/core/src/query.ts:71-112 | No result is superseded by an input chunk, and no two results supersede the same id. |
| Query.Idempotent | packages/core/src/query.ts:71-112 | Resolving a resolved list returns it unchanged, for every list. |
| Query.OrderIrrelevantIffNoTies | packages/core/src/query.ts:104-106 | The result set is independent of input order if and only if no two newest siblings of a fork tie. |
| Query.CycleHidesBoth | packages/core/src/query.ts:74-83 | Two chunks that supersede each other both vanish from the answer, which is why acyclicity is needed. |
| Query.FreshVersionKeepsAcyclic | packages/daemon/src/api.ts:918-932 | A chunk with an id that nothing names yet keeps supersedes acyclic: versions made by PATCH never form a cycle. |
| QueryApply.QueryAnswer | packages/core/src/query.ts:125-134 | Results are matching newest heads of the matches, newest first, at most the limit; without an effective limit every fork is answered, and a limit cuts only what is no newer than what is kept. What supersedes a result does not itself match. |
| QueryApply.AnswerMeetsQuery | packages/core/src/query.ts:25-57 | Every result meets every field of the query: within since and until, of the type, namespace, project, peer, collection and format asked for, confident enough, with all topics up to lower-casing, no tombstone, and without a ttl that has passed. |
| QueryApply.MeetingQueryIsAnswered | packages/core/src/query.ts:25-57 | And every chunk that does is answered, the limit permitting, unless some chunk supersedes it or what it supersedes. |
| QueryApply.UnlimitedResolves | packages/core/src/query.ts:125-134 | Without a limit the query is a complete head resolution of the matching chunks. |
| QueryApply.StaleAnswerIff | packages/core/src/query.ts:125-134 | Where matches do not fork, an unlimited answer is exactly the matches that no match supersedes; so it holds an outdated chunk if and only if some match has superseders and none of them matches. |
| QueryApply.StaleAnswerWithForksIff | packages/core/src/query.ts:125-134 | With forks whose matches have distinct timestamps, an unlimited answer is the newest in every fork of the matches that no match supersedes; it holds an outdated chunk if and only if one of those newest has a superseder. |
| QueryApply.StaleAnswer | packages/core/src/query.ts:126-128 | The two-chunk case: a superseded chunk is returned when its superseder fails the filter. |
| Sorting.SortAscending | packages/core/src/query.ts:129-129 | The sort orders by key. |
| Sorting.SortContents | packages/core/src/query.ts:129-129 | The sort keeps every element with its multiplicity. |
| Sorting.SortStable | packages/core/src/query.ts:129-129 | Elements with equal keys keep their order. |
| EpochTime.WeeklyEpochContainsIff | packages/core/src/epoch-manager.ts:67-105 | For every timestamp in week-years 1000 to 9999: the epoch computed for it contains it, and has its ISO 8601 week number, if and only if the time is midnight or the year of its week's Thursday does not begin on a Friday; otherwise the epoch starts exactly a week late. |
| EpochTime.CodeWeekIs | packages/core/src/epoch-manager.ts:70-78 | The week number computed is the ISO one, or one too high precisely in those cases. |
| EpochTime.WeekOffByOne | packages/core/src/epoch-manager.ts:76-76 | A concrete noon in January 2021 that lands in week 3 instead of 2. |
| EpochTime.WeekIdRoundTrip | packages/core/src/epoch-manager.ts:67-105 | For every valid week of every year from 1000 to 9999, the id of the start of the week with that id is the id itself. |
| EpochTime.StartOfWeekId | packages/core/src/epoch-manager.ts:87-105 | Parsing a week id and stepping back to Monday gives the ISO start of that week. |
| EpochTime.EarlyYears | packages/core/src/epoch-manager.ts:87-98 | Ids of years below 1000 are read too: 0000 to 0099 as 1900 to 1999, the others as they stand. |
| EpochTime.ThursdayOfYear | packages/core/src/epoch-manager.ts:70-78 | The ISO week of a day, by its Thursday, is a whole number of weeks after the first Thursday and lies within the weeks of the year. |
| EpochTime.YearUnique | packages/core/src/epoch-manager.ts:70-78 | The proleptic Gregorian year of a day is determined by the day count. |
| EpochTime.YearLength | packages/core/src/epoch-manager.ts:70-78 | A year has 366 days if it is divisible by 4 and not by 100, or by 400, and 365 otherwise. |
| EpochTime.DayZero | packages/core/src/epoch-manager.ts:70-78 | Day zero is 1 January 1970, a Thursday, and the days of the week follow one another. |
| EpochTime.FixedEpochContains | packages/core/src/epoch-manager.ts:79-105 | For every other epoch length the epoch contains its timestamp and its start lies in the same epoch. |
| EpochOrder.ForwardIff | packages/core/src/epoch-manager.ts:67-82 | With the clock going forward, weekly ids go forward by year and number if and only if the clock does not pass from after midnight to a later midnight of one week of a year that begins on a Friday. |
| EpochOrder.NeverReturnsIff | packages/core/src/epoch-manager.ts:67-82 | In a stretch of time no weekly id comes back after another if and only if no midnight other than a Monday's, in such a year, lies in it, except as its very end with less than a day before. |
| EpochOrder.WeekTwoReturns | packages/core/src/epoch-manager.ts:76-76 | The id of Tuesday 12 January 2021, 00:00, is left a millisecond later and is back at the next midnight. |
| EpochOrder.FixedNeverReturns | packages/core/src/epoch-manager.ts:79-82 | Ids of any other epoch length never come back. |
| EpochOrder.TickIsFresh | packages/core/src/loro-epoch-manager.ts:196-204 | At each tick of a sequence without such slips the id is that of the tick before or entirely new. |
| Epochs.ForgetHidesIff | packages/core/src/loro-epoch-manager.ts:152-165 | After a forget the id reads as absent if and only if it was live in at most one epoch. |
| Epochs.ForgetKeepsOthers | packages/core/src/loro-epoch-manager.ts:152-165 | A forget leaves the reads of all other ids alone. |
| Epochs.RotateThenDrop | packages/core/src/loro-epoch-manager.ts:206-289 | Rotating and dropping at one time keeps every read of an unexpired live chunk and every null read, and removes exactly the epochs whose live chunks were migrated. |
| Epochs.LiveAfterDrop | packages/core/src/loro-epoch-manager.ts:206-289 | Afterwards a chunk is live exactly where it was, or in the new epoch as a copy out of a dropped one. |
| Epochs.FixedRetention | packages/core/src/loro-epoch-manager.ts:215-222 | For epochs of fixed length the current epoch and the configured number before it are never outside the window, and the first that is outside is determined exactly. |
| Epochs.WeeklyRetention | packages/core/src/loro-epoch-manager.ts:215-222 | A weekly epoch is outside the window if and only if the retained number of weeks and one more have passed since the Monday of the time it was computed for, one week later when its id is one too high. |
| Epochs.RecentStaysInside | packages/core/src/loro-epoch-manager.ts:215-222 | For as many epoch lengths as are retained, the epoch computed for a time stays inside the window, weeks with an id one too high included. |
| Epochs.InsideForIff | packages/core/src/loro-epoch-manager.ts:215-222 | Every epoch is inside the window a given time after the instant it was computed for if and only if that is at most the retained lengths plus one millisecond. |
| Epochs.ListIgnoresPlacement | packages/core/src/loro-epoch-manager.ts:142-150 | With distinct sibling timestamps, what list returns does not depend on which epochs hold the live chunks. |
| Epochs.RotationKeepsLiveSet | packages/core/src/loro-epoch-manager.ts:206-289 | Rotation and drop keep the set of live chunks when none is expired, so list is unchanged. |
| EpochManager.LoroEpochManager.OrderedEpochIds | packages/core/src/loro-epoch-manager.ts:318-322 | Every open epoch once, newest first, equal starts in the order of opening. |
| EpochManager.LoroEpochManager.Get | packages/core/src/loro-epoch-manager.ts:123-130 | The chunk of a newest epoch in which the id is live, tombstones passed over; null only if it is live nowhere. |
| EpochManager.LoroEpochManager.List | packages/core/src/loro-epoch-manager.ts:142-150 | Heads resolved over the flat union of all live chunks of all epochs; a function of what the stores list and of the order in which epochs were opened. |
| EpochManager.LoroEpochManager.Query | packages/core/src/loro-epoch-manager.ts:132-140 | Only live chunks that match; in detail the heads of the concatenated answers of the epochs, newest epoch first. |
| FlatQuery.QueryMatchesFlatStoreIff | packages/core/src/loro-epoch-manager.ts:132-140 | For matches without forks the unlimited answer is, as a set, what one flat store would answer, if and only if no match hidden inside its own epoch supersedes one that some epoch shows; it always contains that answer. |
| FlatQuery.QueryMatchesFlatStoreWithForksIff | packages/core/src/loro-epoch-manager.ts:132-140 | With forks, but no two matches of a fork at one time, it is that if and only if every winner over everything wins in some epoch, and every superseded winner of an epoch is superseded or outdone by another winner. |
| FlatQuery.LimitKeptIff | packages/core/src/loro-epoch-manager.ts:132-140 | For matches that neither fork nor supersede across epochs, a limited query returns the sum over the epochs of their heads capped at the limit; so it keeps the limit if and only if all heads together are within it or all are in one epoch. |
| FlatQuery.LimitBound | packages/core/src/loro-epoch-manager.ts:132-140 | In any case it returns at most the limit for every epoch that answers anything. |
| FlatQuery.LimitPerEpochOnly | packages/core/src/loro-epoch-manager.ts:132-140 | With limit 1, two unrelated matches in two epochs are both returned. |
| AnswerOrder.NewestFirstIff | packages/core/src/loro-epoch-manager.ts:132-140 | As long as no epoch holds a newer sibling of a fork that an earlier one answers, the answer is one block an epoch, each newest first; so the whole is newest first, which `store.ts:52` promises, if and only if nothing a later epoch is first to show is newer than what an earlier one is first to show. Any limit. |
| AnswerOrder.DescendingIff | packages/core/src/loro-epoch-manager.ts:132-140 | For matches that neither fork nor supersede across epochs: if and only if no chunk of a later epoch's answer is newer than one of an earlier. |
| AnswerOrder.DescendingSuffices | packages/core/src/loro-epoch-manager.ts:132-140 | Whatever forks or is superseded, that is enough. |
| AnswerOrder.ForkFreeFirstWins | packages/core/src/loro-epoch-manager.ts:132-140 | Matches without forks meet the premise of NewestFirstIff, copies of one chunk in several epochs included. |
| AnswerOrder.OldestFirst | packages/core/src/loro-epoch-manager.ts:132-140 | The failing case: of two unrelated matches the older one sits in the newer epoch, where a rotation copies old unexpired chunks, and is answered first. |
| EpochQuery.QueryIsFlatIff | packages/core/src/loro-epoch-manager.ts:132-140 | Without forks, resolving per part and again over the pooled answers equals resolving once, if and only if no chunk hidden in all its parts supersedes one that a part shows. |
| EpochQuery.QueryWithForksIsFlatIff | packages/core/src/loro-epoch-manager.ts:132-140 | With forks there are exactly two ways to differ: a current winner loses in its parts to siblings that other parts supersede, or a superseded chunk wins twice. |
| EpochQuery.ForkLoserMissed | packages/core/src/loro-epoch-manager.ts:132-140 | The first way: the newer of two siblings is superseded from another epoch, and the query misses the other, which is current. |
| EpochQuery.StaleVersionReturned | packages/core/src/loro-epoch-manager.ts:132-140 | The failing case: with a in an old epoch and the chain b, c over it in the new one, the query returns a beside c. |
| EpochManager.LoroEpochManager.Put | packages/core/src/loro-epoch-manager.ts:118-121 | Writes to the current epoch only; fails exactly when the manager has been closed. |
| EpochManager.LoroEpochManager.Forget | packages/core/src/loro-epoch-manager.ts:152-165 | Tombstones the id in a newest epoch where it is live, else in the current one; fails only when closed and not found. |
| EpochManager.LoroEpochManager.MaybeRotateEpoch | packages/core/src/loro-epoch-manager.ts:196-204 | Rotates exactly when the clock is in another epoch and no migration is running, into the epoch of the clock, open before or not. |
| EpochManager.LoroEpochManager.RotateEpoch | packages/core/src/loro-epoch-manager.ts:206-227 | The epoch rotated into is current and holds what its snapshot held, overwritten by exactly the unexpired live chunks of the epochs outside the window; all other epochs are untouched. An open epoch of that id is replaced. |
| Epochs.ReopenedReadsIff | packages/core/src/loro-epoch-manager.ts:209-211 | When that epoch was open already, what was live only there can be read afterwards if and only if the snapshot holds it. |
| EpochManager.LoroEpochManager.MigrateExpiring | packages/core/src/loro-epoch-manager.ts:213-222 | The loop over all epochs copies exactly those outside the window. |
| EpochManager.LoroEpochManager.MigrateChunks | packages/core/src/loro-epoch-manager.ts:229-258 | The target store is overwritten by exactly the unexpired live chunks of the source epoch; their number and that of the expired ones are reported. |
| EpochManager.CarriedByTtl | packages/core/src/loro-epoch-manager.ts:241-251 | Carried over is every live entry without a ttl or with one that is not before the clock; every other entry of the target stays as it was, and the two counts are of those carried and of the other live entries. |
| EpochManager.LoroEpochManager.DropExpiredEpochs | packages/core/src/loro-epoch-manager.ts:260-289 | Removes exactly the epochs outside the window, never the current one. |
| EpochManager.LoroEpochManager.Close | packages/core/src/loro-epoch-manager.ts:167-170 | No epoch stays open, so later writes fail. |
| EpochManager.LoroEpochManager.constructor | packages/core/src/loro-epoch-manager.ts:68-103 | Opens exactly the epoch of the clock and the retained ones before it, each with what its snapshot held. |
| EpochSteps.StepInv | packages/core/src/loro-epoch-manager.ts:206-289 | Every step between two awaits of rotation and drop, and every put and forget in between, keeps the invariant about copied, pending and closed epochs. |
| EpochSteps.NothingUnreadable | packages/core/src/loro-epoch-manager.ts:118-130 | At every point of every run of rotations and drops with puts and forgets interleaved, each rotation starting while the current epoch is inside the window, a current store exists and every unexpired chunk, live at the start or put since and not forgotten since, is found by a get. |
| EpochAtomic.UndisturbedIsAtomic | packages/core/src/loro-epoch-manager.ts:206-289 | Left alone, the steps of a rotation come to what the manager's rotation does in one go, whatever order epochs and chunks are listed in, and those of the drop after it to what its drop removes. |
| EpochAtomic.ForgetIsAtomic | packages/core/src/loro-epoch-manager.ts:152-165 | With no store closed a forget step is the manager's forget. |
| EpochFates.RotationSafeIff | packages/core/src/loro-epoch-manager.ts:206-289 | A rotation begun at rest loses no unexpired chunk in any continuation if and only if it starts while the epoch it leaves is inside the window. |
| EpochFates.LatePutIsLost | packages/core/src/loro-epoch-manager.ts:206-289 | The losing run for every late rotation from every state at rest: a chunk put before the new epoch becomes current is gone after the drop. |
| Schedule.TicksAreTimely | packages/daemon/src/gc-scheduler.ts:80-86 | Ticks no further apart than the retained epoch lengths, skipped while a rotation is under way and rotating into the epoch of their clock otherwise, make every rotation begin while the epoch it leaves is inside the window, fixed and weekly epochs alike. |
| Schedule.NothingLostOnSchedule | packages/daemon/src/gc-scheduler.ts:80-86 | So on such a schedule, with puts, forgets and lifecycle steps in any order in between, every unexpired chunk that is not forgotten is found by a get. |
| EpochFates.ForgetUndoneIff | packages/core/src/loro-epoch-manager.ts:229-258 | In every run from rest through a forget during migration to the end of the drop, with anything but a put, forget or rotation touching the id, the id is visible again if and only if at the forget an unexpired copy of it was pending, or it was live in another epoch that is the new one, is kept, or was still to be visited. |
| EpochFates.ForgetIsUndone | packages/core/src/loro-epoch-manager.ts:241-247 | In every rotation from rest, for every unexpired chunk live in one expiring epoch only, there is a run in which forgetting it between listing and copying is undone. |
| EpochFates.StepDestined | packages/core/src/loro-epoch-manager.ts:206-289 | Whether an id will be live after the drop changes only by a put or forget of that id or a new rotation. |
| EpochFates.RunsItsCourse | packages/core/src/loro-epoch-manager.ts:206-289 | From every reachable point the lifecycle can run to its end undisturbed. |
| Gc.RunGC | packages/core/src/gc.ts:25-46 | Tombstones exactly the expired chunks of the listing, each in one newest epoch where it is live, and changes nothing else; the count is the number of expired chunks listed. A run that prunes none leaves store and listing as they were, and the listing holds no expired chunk. |
| Gc.CollectsByTtl | packages/core/src/gc.ts:30-41 | Chunks listed without a ttl or with one that is not before the clock read afterwards as before, as do ids not listed; every chunk listed with a ttl before the clock has a tombstone in a newest epoch it was live in, and the count is theirs. |
| Gc.SeriesEnds | packages/core/src/gc.ts:25-46 | Runs at a fixed clock that prune something strictly shrink the live set, so a series of them has at most as many members as there are live entries. |
| Gc.NothingPrunedMeansClean | packages/core/src/gc.ts:25-46 | A run that prunes nothing changed nothing and its listing, ties or not, holds no expired chunk. |
| Gc.CollectionKeepsReads | packages/core/src/gc.ts:25-46 | Collection keeps every read of an unexpired chunk and every null read. |
| Gc.OneRunIsEnoughIff | packages/core/src/gc.ts:25-46 | One run leaves a clean listing if and only if it exposes no expired chunk, which it can by forgetting all that supersede it, its newer siblings, or only one of its copies. |
| Gc.OneRunOnChainsIff | packages/core/src/gc.ts:25-46 | On chains without forks and with one copy per id: if and only if no expired head supersedes an expired live chunk. |
| Gc.PredecessorReappears | packages/core/src/gc.ts:25-46 | Whenever one does, the superseded chunk is listed after the run. |
| Gc.OneRunIsNotEnough | packages/core/src/gc.ts:25-46 | On a manager with an expired chunk and its expired successor, one run leaves the former listed. |
| Gc.RunAll | packages/daemon/src/gc-scheduler.ts:32-78 | Collection, then rotation, then the drop at the time of the rotation: exactly the epochs outside the window are dropped, only after a rotation; and if the epoch rotated into is new, every read of an unexpired chunk and every null read survives. |
| Lifetime.Perform | packages/daemon/src/gc-scheduler.ts:80-86 | One put, forget or tick: reads of other ids that are unexpired or null stay as they were, nothing becomes visible but what is put, and what is put can be read. |
| Lifetime.RunWork | packages/daemon/src/gc-scheduler.ts:80-86 | Over any sequence of puts, forgets and ticks, clocks not going back and weekly ids not slipping, every rotation is into a new epoch; every unexpired chunk that was readable or put meanwhile, and is not forgotten afterwards, can be read at the end, null reads stay null, and nothing is visible that was neither there nor put. |
| Lifetime.Live | packages/core/src/loro-epoch-manager.ts:68-103 | The same from the opening of the manager on: what its constructor opens from the snapshot files is where such a run can start. |
| Graph.Search | packages/daemon/src/api.ts:762-801 | The search ends and returns exactly the stored chunks within the hop limit along allowed non-URI links through stored chunks, each once; the recorded depths are shortest distances from the start, at most the given depth; every result but the start is the target of a returned edge from a returned chunk that is nearer; every edge is a wanted link, not to an agent URI, of a chunk less deep than the limit; every such link leads to a target at most one deeper; and for a depth of zero or less there is the start alone and no edge. |
| Graph.Traverse | packages/daemon/src/api.ts:762-801 | The depth asked for is three if none is given and five at most. |
| Graph.SearchByDepth | packages/daemon/src/api.ts:776-799 | Distances within a limit follow wanted links, one by one, and nothing lies beyond it. |
| Graph.FollowLinks | packages/daemon/src/api.ts:783-797 | The inner loop follows exactly the allowed links to targets not visited yet, in order. |
| Graph.Expand | packages/daemon/src/api.ts:776-799 | A visited id adds nothing when it is not stored or sits at the limit. |
| Graph.Complete | packages/daemon/src/api.ts:776-799 | With an empty queue nothing within the limit has been missed. |
| Graph.LinksMatchBacklinks | packages/core/src/backlink-index.ts:97-122 | Unfiltered forward hops and the reverse index are inverse relations. |
| Backlinks.BacklinkIndex.IndexChunk | packages/core/src/backlink-index.ts:54-68 | From any index: the chunk becomes a source of exactly the targets of its links and supersedes field; a tombstone changes nothing. |
| Backlinks.BacklinkIndex.RemoveChunk | packages/core/src/backlink-index.ts:74-91 | From any index: the chunk stops being a source of those targets, and a target left without sources is deleted. |
| Backlinks.BacklinkIndex.GetBacklinks | packages/core/src/backlink-index.ts:97-99 | When the index is the reverse of some chunks, exactly those of them whose links name the target. |
| Backlinks.BacklinkIndex.Build | packages/core/src/backlink-index.ts:43-48 | Building is indexing the chunks one after the other. |
| Backlinks.TargetsAre | packages/core/src/backlink-index.ts:108-122 | The targets that indexing walks through are those of getLinks, a supersedes target that is listed twice included. |
| Backlinks.AppliedIsReverse | packages/core/src/backlink-index.ts:54-91 | One change to the index is the same change to the set of indexed chunks. |
| Backlinks.ReplayIsReverse | packages/core/src/backlink-index.ts:43-91 | After any history of additions and removals with fixed content per id, the index is exactly the reverse of the surviving chunks. |
| Backlinks.BacklinksAreExact | packages/core/src/backlink-index.ts:54-134 | So the backlinks of a target are exactly the surviving chunks whose links name it, and no empty set is kept. |
| Json.PrintInjective | packages/core/src/signing.ts:43-49 | Printing JSON can be undone: equal texts come from equal trees, whatever follows. |
| Json.OrderedUnique | packages/core/src/signing.ts:54-62 | Fields in key order are determined by the set of fields. |
| Json.LexIs | packages/core/src/signing.ts:54-62 | Strings are ordered by the first code unit in which they differ, a proper prefix before what it begins. |
| Json.IndexIs | packages/core/src/signing.ts:54-62 | A numeral without leading zero is an array index exactly when it is below 2^32 - 1. |
| Json.BeforeIs | packages/core/src/signing.ts:54-62 | Index keys come first, by number; all other keys follow, by code unit. |
| Json.PrintIs | packages/core/src/signing.ts:43-49 | The tokens of every form of JSON value; lists and objects are their parts with commas between them, in brackets or braces. |
| Signing.SortObjectKeys | packages/core/src/signing.ts:54-62 | Rebuilding every object by inserting its fields in key order, recursively, gives the specified canonical value. |
| Signing.SameTree | packages/core/src/signing.ts:54-62 | Values equal up to key order and undefined fields at every depth have one canonical tree. |
| Signing.TreeSame | packages/core/src/signing.ts:54-62 | And only such values have. |
| Signing.CanonicalTextIff | packages/core/src/signing.ts:43-62 | Two chunks have the same canonical text if and only if they agree, the signature left out, up to key order and undefined fields at every depth; array order counts. |
| Signing.CanonicalTextIs | packages/core/src/signing.ts:43-62 | The signed text is an object of the defined fields of the chunk, its signature apart, in key order, each with its canonical value. |
| Signing.SigningKeepsText | packages/core/src/signing.ts:70-77 | Adding the signature leaves the canonical text as it was. |
| Signing.VerifiesIff | packages/core/src/signing.ts:85-97 | A chunk that carries the signature made for another verifies if and only if the two agree in that sense, for any scheme that is right about those two texts. |
| Signing.TextSurvivesStore | packages/core/src/signing.ts:43-49 | The store's JSON round trip keeps the canonical text. |
| Signing.SignedChunkVerifies | packages/core/src/signing.ts:70-97 | A signed chunk verifies at once and after the store's JSON round trip. |
| Signing.SchemeExists | packages/core/src/signing.ts:70-97 | For any texts to be signed there is a scheme that meets the premise for each of them against every text. |
| Lexicon.ValidateRecordData | packages/core/src/lexicon.ts:113-136 | No errors if and only if the record conforms to the schema. |
| Lexicon.ValidateField | packages/core/src/lexicon.ts:138-231 | The recursive validator reports nothing if and only if the value conforms, and every error it reports lies under the path it was given. |
| Lexicon.ValidateString | packages/core/src/lexicon.ts:148-163 | For strings each of length limits and allowed values is reported exactly when broken. |
| Lexicon.ValidateInteger | packages/core/src/lexicon.ts:165-177 | For integers each bound is reported exactly when broken; a number that is not whole has the wrong type. |
| Lexicon.ValidateArray | packages/core/src/lexicon.ts:186-200 | For arrays too many items are reported exactly when there are; items are checked at their own places. |
| Lexicon.WholeNumbers | packages/core/src/lexicon.ts:165-169 | Whole numbers are integers, and nothing between two of them is. |
| Lexicon.ValidateProperties | packages/core/src/lexicon.ts:113-136 | Nothing reported if and only if every declared property that is present conforms. |
| Lexicon.CheckRequired | packages/core/src/lexicon.ts:113-136 | Nothing reported if and only if every required key is present. |
| Lexicon.UndeclaredIgnored | packages/core/src/lexicon.ts:138-231 | Values that differ only in undeclared fields, at any depth, get the same verdict. |
| Lexicon.AddUndeclared | packages/core/src/lexicon.ts:113-136 | Adding an undeclared field never changes the verdict. |
| Lexicon.RelaxingKeepsValid | packages/core/src/lexicon.ts:138-231 | Removing constraints, at any depth, never makes a valid value invalid. |
| RateLimiter.EveryWindowLimitedIff | packages/core/src/rate-limiter.ts:45-69 | Recording only when fewer than the maximum happened in the window ending now bounds every closed interval of the window's length, and is no stricter than that bound. |
| RateLimiter.RateLimiter.Check | packages/core/src/rate-limiter.ts:45-58 | Decides on the pruned list as it would on the full history: not banned, and fewer than the maximum in the closed window ending now. Histories, other peers and later bans are as before. |
| RateLimiter.RateLimiter.Record | packages/core/src/rate-limiter.ts:64-69 | Adds one event for the peer, whatever its ban. |
| RateLimiter.RateLimiter.SoftBan | packages/core/src/rate-limiter.ts:75-79 | The peer is banned exactly until the given time from now, replacing any earlier ban. |
| RateLimiter.RateLimiter.IsBanned | packages/core/src/rate-limiter.ts:84-93 | Tells the ban at this time; lifting an expired ban changes no later answer. |
| RateLimiter.RateLimiter.GetCount | packages/core/src/rate-limiter.ts:98-103 | The number of events of the full history in the window ending now. |
| RateLimiter.RateLimiter.Reset | packages/core/src/rate-limiter.ts:108-110 | Forgets the events and the ban of that peer alone. |
| RateLimiter.RateLimiter.GetOrCreate | packages/core/src/rate-limiter.ts:112-117 | Creating an entry changes no history and no ban. |
| RateLimiter.Prune | packages/core/src/rate-limiter.ts:120-125 | What is kept is the part of the history that any later window can reach, and its length is the count of the current window. |
| RateLimiter.RateLimiter.Ingest | packages/daemon/src/api.ts:186-258 | Accepted exactly when the other checks pass and the peer is neither banned nor at its maximum in the window; recorded only then. When the rate check refuses, the peer is banned at exactly the times before the end of one window's length; on every other path its ban is as before. |
| RateLimiter.RateLimiter.IngestTwice | packages/daemon/src/api.ts:183-197 | A peer refused by the rate check is refused again at any time within a window's length. |
| RateLimiter.CountIs | packages/core/src/rate-limiter.ts:120-126 | The count of a window is the number of events in it, both ends included. |
| RateLimiter.RecordedInDiscipline | packages/daemon/src/api.ts:186-258 | Recording at the instant of a true check keeps the history in discipline. |
| Pow.HasLeadingZeroBits | packages/core/src/pow.ts:70-87 | For a digest of any length and every number of bits: true if and only if the number it writes is below two to the remaining bits; up to three bits past its length only zero passes, beyond that nothing. |
| Pow.MeetsLess | packages/core/src/pow.ts:70-87 | A digest that meets a difficulty meets every lower one. |
| Pow.MineStamp | packages/core/src/pow.ts:101-127 | The stamp found is for the window in which mining began and has the lowest nonce that meets the difficulty; giving up means that no nonce tried does. |
| Pow.VerifyStamp | packages/core/src/pow.ts:139-165 | True exactly when the claimed bits suffice, the hash is that of challenge and nonce and meets the difficulty, and the challenge is that of the current or previous window. |
| Pow.AcceptedIff | packages/core/src/pow.ts:139-165 | Absent a hash collision, an honest stamp passes at any difficulty up to its own if and only if it is shown for its own peer, in the window of its mining or the next. |
| Pow.AcceptedInScopeIff | packages/core/src/pow.ts:139-165 | Across scopes: it passes for exactly the peer and scope that joined by a colon read as its own, in the same two windows, absent a collision of the texts hashed. |
| Pow.ChallengeTextIff | packages/core/src/pow.ts:55-64 | The text hashed for a challenge determines the window, and peer and scope as joined. |
| Pow.PeerAndScopeIff | packages/core/src/pow.ts:55-64 | In one scope, or in scopes without a colon, joined peer and scope determine both. |
| Pow.ScopesRunTogether | packages/core/src/pow.ts:55-64 | With a colon in the scope they do not: a:b in c and a in b:c share their challenges. |
| Pow.HashingExists | packages/core/src/pow.ts:55-64 | What is assumed of digests and numerals can be met. |
| Pow.StampCache.Get | packages/core/src/pow.ts:206-212 | A hit exactly when the entry was stored in the current window. |
| Pow.StampCache.Set | packages/core/src/pow.ts:215-225 | One entry changes; it is labelled with the window of its storing, not of its mining. |
| Pow.StampCache.GetOrMine | packages/core/src/pow.ts:230-245 | A hit returns the stored stamp, whosever it is; a miss mines and stores one. Asked for by its own peer, the stamp passes at any difficulty up to the one asked for during all of the window it is returned in when mining crossed at most one window boundary; otherwise, absent a hash collision, at no time of that window. |
| Pow.TwoPeers | packages/core/src/pow.ts:230-245 | A second peer behind the cache is given the first peer's stamp if and only if it asks for the same scope, bits and window length in the window the entry was stored in; that stamp is then never accepted from it, absent a hash collision. |
| Pow.StampCache.Clear | packages/core/src/pow.ts:252-255 | Nothing stays cached. |
| RelayStore.EveryRun | packages/core/src/mail-store.ts:41-105 | Over all runs with fresh ids from an empty store: the id sets are exactly the inverse of the envelopes' recipients, both quotas hold, and deposited is held plus acknowledged plus evicted, as disjoint sets and as counts. |
| RelayStore.StepLawful | packages/core/src/mail-store.ts:52-100 | Every single operation keeps these. |
| RelayStore.DepositExactIff | packages/core/src/mail-store.ts:52-63 | A deposit keeps the id sets exact if and only if its id is new or held for the same recipient. |
| RelayStore.HeldUntilDone | packages/core/src/mail-store.ts:52-100 | A held envelope stays held, unchanged, through every run that does not acknowledge it, reuse its id, or evict after its expiry. |
| RelayStore.AnswerIs | packages/core/src/mail-store.ts:65-76 | A check tells a recipient its own unexpired envelopes newer than the given time, oldest first, none twice, at most the limit (one when the limit is below one), and all of them when there are fewer than the limit. |
| RelayStore.CountIs | packages/core/src/mail-store.ts:102-104 | The count is the number of envelopes held for the recipient. |
| RelayStore.RemovalKeeps | packages/core/src/mail-store.ts:78-100 | Removing any set of envelopes keeps the id sets exact and the quotas. |
| RelayStore.MemoryRelayStore.Deposit | packages/core/src/mail-store.ts:52-63 | Accepted exactly when its time plus its ttl in seconds is not before the clock and both counts are below their quotas; else nothing changes. |
| RelayStore.MemoryRelayStore.Check | packages/core/src/mail-store.ts:65-76 | The loop with its early break returns the specified answer and changes nothing. |
| RelayStore.MemoryRelayStore.Ack | packages/core/src/mail-store.ts:78-88 | Removes exactly the named envelopes that are held and counts each once, however often it is named. |
| RelayStore.MemoryRelayStore.Evict | packages/core/src/mail-store.ts:90-100 | Removes and counts exactly the envelopes whose time plus ttl in seconds is before the clock, whatever order they are visited in. |
| RelayStore.MemoryRelayStore.Count | packages/core/src/mail-store.ts:102-104 | The size of the recipient's id set. |
| Bloom.BloomHash | packages/core/src/bloom.ts:39-48 | The loop over code units computes the 32-bit hash with wrap-around. |
| Bloom.StepInjective | packages/core/src/bloom.ts:39-48 | A step of the hash is injective in the code unit and in the hash. |
| Bloom.OneUnitTells | packages/core/src/bloom.ts:39-48 | So two items that differ in one code unit have different 32-bit hashes. |
| Bloom.KnownHashes | packages/core/src/bloom.ts:39-51 | FNV-1a of the empty string and of a, cut to 2048, and the seeds. |
| Bloom.SurrogatesDecode | packages/core/src/bloom.ts:39-48 | Characters beyond the basic plane are hashed as the two surrogates that give them back. |
| Bloom.SevenPositions | packages/core/src/bloom.ts:67-72 | An item has the positions of seven seeds. |
| Bloom.BloomFilter.Add | packages/core/src/bloom.ts:67-72 | Sets exactly the item's seven positions, so far as the bytes reach, and clears none. |
| Bloom.BloomFilter.Has | packages/core/src/bloom.ts:79-85 | Yes exactly when all the item's positions are set; bits past the end count as unset. |
| Bloom.BloomFilter.Merge | packages/core/src/bloom.ts:91-95 | Every bit is the disjunction of the two, also when a filter is merged with itself or the lengths differ. |
| Bloom.BloomFilter.From | packages/core/src/bloom.ts:131-135 | The bits set are exactly the hash positions of the items. |
| Bloom.ContainsIff | packages/core/src/bloom.ts:79-85 | A filter of known items says yes if and only if their positions cover the item's: when there are false positives and when not. |
| Bloom.NoFalseNegative | packages/core/src/bloom.ts:79-85 | It never denies an item that was added. |
| Bloom.SameItemsSameBytes | packages/core/src/bloom.ts:131-135 | The bytes depend on the set of items only. |
| Bloom.MergeIsFrom | packages/core/src/bloom.ts:91-135 | Merging gives byte for byte what building from the concatenated items gives. |
| Discovery.AddChunks | packages/core/src/discovery.ts:333-345 | One store's loop adds every id, topic and collection of its live chunks to what the filters represent, and nothing of its tombstones. |
| Discovery.HeldMembers | packages/core/src/discovery.ts:332-336 | What a manifest is about: the live chunks of the stores that could be listed. |
| Discovery.CollectionsAre | packages/core/src/discovery.ts:332-345 | The collections of a manifest are the non-empty ones of those chunks, each once. |
| Discovery.DiscoveryManager.BuildManifest | packages/core/src/discovery.ts:326-371 | The manifest represents exactly the ids, topics, collections and number of those chunks and when it was built; with a stamp cache it carries an honest stamp of this peer. Manager and cache are then ready for the next manifest. |
| Discovery.DiscoveryManager.ProcessManifestLocal | packages/core/src/discovery.ts:402-425 | Indexed exactly when it is one's own, no stamp is required, or the stamp verifies; the entry holds the decoded filters, all other entries are as before. |
| Discovery.DiscoveryManager.ProcessManifest | packages/core/src/discovery.ts:392-396 | One's own manifest from the network is dropped. |
| Discovery.DiscoveryManager.PeerHasTopic | packages/core/src/discovery.ts:279-283 | Null exactly for unknown peers; over any run of honest and unknown manifests, a topic that the peer held when its indexed manifest was built is never denied. |
| Discovery.DiscoveryManager.PeerProbablyHasTopic | packages/core/src/discovery.ts:270-274 | The same with unknown peers answered by no. |
| Discovery.DiscoveryManager.PeerProbablyHasChunk | packages/core/src/discovery.ts:288-292 | No chunk id that the peer held when its indexed manifest was built is denied. |
| Discovery.NothingDenied | packages/core/src/discovery.ts:332-345 | Filters that tell of some chunks say yes to every id and topic of theirs. |
| Discovery.StampedManifestAdmissibleIff | packages/core/src/discovery.ts:359-407 | Absent a hash collision, a stamped manifest passes a verifier that requires stamps if and only if it was mined for at least 16 bits and its window number is the verifier's current or previous hour; a sender with another window length counts other numbers. |

## Left out

- Transport, HTTP, CLI, timers, processes, configuration: awaits and timers appear only as separate steps.
- Loro internals, hash and signature algorithms, base64, base58: parameters and assumptions, see above.
- Stores that fail on a single put, forget or close, and the catch clauses that swallow it; the writing of snapshot files.
- Replication.ReplicationManager.Start: the listener lists and the resync timer are one flag; a manager that is started again after it was stopped would import but not send; the protocol has no such node.
- EpochManager.LoroEpochManager.DropExpiredEpochs: reclaimed bytes, deleted files and log lines.
- EpochSteps.StepInv: one rotation and drop at a time, as one scheduler runs them; a second tick that starts while a drop is waiting, imports of replicated data into the current store, and a rotation into an epoch that is open already are not steps of that model; what such a rotation does to reads when nothing runs beside it is ReopenedReadsIff.
- Lifetime.RunWork: an epoch that is new has no snapshot file yet, chunks are not put as tombstones, and no work is interleaved with a tick; for that see Schedule.NothingLostOnSchedule.
- Loro documents whose writes clash in clock and peer: a store that imports one holds the union, and nothing more is claimed about it.
- Replication across an epoch change: delta calls go to the current epoch, and the replication model keeps the store fixed.
- ReplicationProtocol.Convergence: says what holds once synced and delivered; that it can always be reached is AgreementInReach, that a given network schedule does reach it depends on the transport.
- Gc.RunGC: the forgets that run concurrently are modelled one after the other; the ids differ, so they touch different entries.
- Gc.RunAll: one manager; the original loops over several independent ones.
- EpochTime.WeeklyEpochContainsIff: week-years 1000 to 9999, those whose ids have four digits.
- Graph.Search: one start and one store; the route's merging of several sessions' stores is a lookup, and the agent URI test is a parameter.
- Signing.CanonicalTextIff: strings and numbers are tokens, so escapes and number formats are not modelled; objects with a key named `__proto__` are left out.
- Lexicon.ValidateField: keys inherited from Object.prototype, which the `in` test would find, are left out; a string's length is its number of characters, so strings are taken to be sequences of UTF-16 code units; error texts are a path and a kind of problem.
- RateLimiter.RateLimiter.Ingest: blacklist, size, signature and stamp checks are two booleans, before and after the rate check; the await between check and record is taken as atomic; reputation is left out.
- Pow.MineStamp: tries at most `fuel` nonces, since nothing bounds the original's loop.
- Pow.StampCache.GetOrMine: bits and window length are whole numbers and the window length is positive; the cache key is a triple, which the joined string determines.
- Discovery.DiscoveryManager.ProcessManifestLocal: events for subscribed topics and peers, display names and staleness of entries are left out.
- FileRelayStore: its flush lists the recipient with the empty name, so its persistence does not round-trip; inbox and outbox stores hold no further logic.
- ReputationStore: real-valued decay, little beyond thresholds; approximateCount of the Bloom filter: a logarithm.
- NSID and agent URI parsing, message framing, browse paging, mail encryption, capability registry, credentials: they would only add easy members.
