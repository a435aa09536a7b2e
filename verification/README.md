# A model of CROWN-KV

CROWN-KV is a replicated key-value store. Its replicas stand in a ring; every key has a chain along that ring, from a
head, which accepts the writes of the key and numbers them, to a tail, which commits them. In CRAQ mode all keys share
one head, in CROWN mode a hash of the key picks it, and in CHAIN mode reads are served by the tail only. Writes travel
down the chain as dirty records, acknowledgements travel back and turn them into clean ones. Messages can be lost,
duplicated and delivered in any order. A metadata store hands out numbered memberships.

This project models the replicas, the store, the metadata store, the client's routing and the dataset generator, and
proves what the protocol promises. Code that updates objects step by step is a class here, with methods proved against
functions; the functions make up one transition system in which all servers and the network take their steps, and the
theorems are about every run of that system.

## How it is laid out

| file | content |
|---|---|
| `Types.dfy`, `Rings.dfy`, `Hashes.dfy` | requests, records, messages; hash, head, tail, neighbours, positions along a chain; what the hash is, apart from its loop |
| `Stores.dfy`, `KVStores.dfy` | the versioned store as a value, with its laws; the store class, in place |
| `Handlers.dfy`, `Replicas.dfy` | what each handler does, as a function; the replication object class with the same handlers as methods |
| `Lines.dfy`, `ChainLines.dfy` | one key along its chain, version numbers only: the invariant of CRAQ and CROWN, and the weaker one that CHAIN mode leaves |
| `Clusters.dfy`, `Views.dfy` | all servers, the network and every action; how the cluster looks along the chain of one key |
| `Simulation.dfy`, `Steps.dfy`, `Invariants.dfy`, `Members.dfy`, `AllModes.dfy` | every action of the cluster is a step of every key's chain; the invariants |
| `Switching.dfy`, `Removals.dfy` | reconfiguration and join in a settled state; loss of a member while writes are in flight |
| `Runs.dfy`, `Reads.dfy`, `Linearizability.dfy` | soundness of whole runs; reads, versions and commit notices; one legal sequence of all operations |
| `Termination.dfy`, `Convergence.dfy`, `Notices.dfy`, `Rounds.dfy` | finite runs despite retries; identical replicas at rest; which clients are told of their writes; the background loops as runs |
| `Metadata.dfy`, `Servers.dfy`, `Epochs.dfy`, `Reconfigurations.dfy` | the metadata store class, the server process class, the agreement on epochs, and the link of all three to the protocol |
| `Routing.dfy`, `Dataset.dfy` | the client's choice of a node; the generator of balanced keys |
| `ChainGaps.dfy`, `Collisions.dfy`, `Witnesses.dfy` | inputs for which the code does not do what one would hope, with the exact conditions, and runs that show what the theorems speak of |

## The main results

All of the following is about every run of the transition system, in each of the three modes, under loss, duplication and
reordering of messages, with settled reconfigurations between any memberships, orders and modes, and with members that are
taken out while writes are in flight.

- **Soundness of runs**: the invariant of the mode in force holds in every state, and nothing accepted, committed or held is
  ever lost (`Runs.RunIsSound`). In CRAQ and CROWN the clean versions never fall along a key's chain (`Runs.ChainOrder`).
- **Linearizability**: any finite collection of operations on a key, reads at any replica included, forms one sequence in
  which every write occurs once, which respects real time, and in which every read returns the value of the last write before
  it (`Linearizability.RunsAreLinearizable`); a read is several steps that anything may happen between, and VERSION_NOT_FOUND
  cannot happen (`Reads.ReadReturnsCommitted`).
- **Versions are never reused**, and all copies of a version carry the value of the one write that got it
  (`Reads.VersionsAreNew`, `Linearizability.AcceptedOnce`, `Reads.CopiesAgree`).
- **Commit notices** are earned (`Reads.NoticeIsEarned`), go to the client that wrote and to nobody else
  (`Notices.NoticeGoesToItsClient`), and are sent: once any server has a version clean, a notice of it has been on its way, in
  every run (`Notices.CommittedIsAnnounced`). In a run that loses nothing and is at rest, which clients were told is known
  exactly (`Notices.AnnouncedExactly`).
- **Reads are local**: in all modes the answer of every member is known exactly, and so is when it has to ask the tail
  (`Reads.ChainRead`, `Reads.RingRead`, `Reads.AsksExactly`); with an idle head no member asks (`Reads.IdleRead`).
- **Termination** with retries, and **convergence** as long as no message is lost, with any reconfigurations on the way: at
  rest all replicas of a ring of two or more are identical, and whether anything is still pending is decided by an exact
  condition on the state before the last reconfiguration (`Termination.WindingRunsAreFinite`,
  `Convergence.LosslessRunsConverge`).
- **Reconfiguration**, with exact conditions: when a settled switch works (`Switching.SwitchExactly`,
  `Switching.SettledSwitch`), when a member can be lost with writes in flight (`Removals.RemovalExactly`), and that what the
  metadata store decides and the server processes do is such a step (`Reconfigurations.AdditionIsAction`,
  `Reconfigurations.RemovalIsAction`, `Reconfigurations.ProcessEntersAsSwitch`).
- **Epochs**: servers agree (`Epochs.EpochAgreement`), a change takes effect and is announced, and what reaches a server is
  obeyed (`Epochs.ChangeTakesEffect`, `Epochs.ChangeIsAnnounced`, `Epochs.PacketIsObeyed`); the object of the mode in force, and
  no other, sends its pending writes on (`Reconfigurations.ProcessResendsAsSwitch`).
- **Store**: `Stores.EveryCallSequence`, the snapshot laws. **Hash**: `Hashes.HashOfOneMore`, `Hashes.OneByteMatters`,
  `Hashes.KnownHashes`. **Dataset**: `Dataset.GenerateBalancedRows`, `Dataset.DefaultModulus`, `Routing.ReadsSpread`.

## Assumptions

- Request ids are unique. The code looks up an acknowledgement by the id alone (`src/server/server.cpp:426`) while every
  client process counts from 1 (`src/client/client.cpp:795`, `src/client/client.cpp:840`), so several clients can break
  this. `Collisions.CollidingIdsBreakReads` shows what happens then: the chain order fails and a read goes back in time.
  In the transition system this is the guard `Fresh` of a client write.
- Every handler is one atomic step, and so is each local part of a read. A read as a whole is several steps: the local
  check, the tail's answer, the end.
- Node ids in a membership are distinct. The metadata store does not look at the members it is started with, but keeps
  distinct ids distinct (`Metadata.ChangesKeepDistinct`). A server that is not in the membership takes seat 0, as in the
  code; such servers take no steps in the transition system.
- Client writes carry version 0, as the client sends them (`src/client/client.cpp:203`).
- Versions and epochs are natural numbers. Time is left to chance: any pending write below the retry cap may be retried.
- A client address is an optional string: present if it has the shape host:port.
- A node id stands for the node with its address.
- A reconfiguration reaches all members in one step.

## Where the code falls short

Each of these comes with an input and with the exact condition under which all is well. What would break an invariant is
kept out by a guard of the transition system; the rest is part of the theorems.

- *Joining without a snapshot.* A server that hears of its own addition by a fetch, or that gets no answer from a peer, joins
  with the store it has (`Servers.Process.Refresh` leaves it alone). Then the newcomer can answer that a committed key does
  not exist (`Witnesses.JoinWithoutDumpForgets`). A settled switch works exactly if every server that enters without a dump has the
  newest version of every key already (`Switching.SwitchExactly`).
- *Losing a member while writes are in flight.* The committed version of a key survives exactly if the member is not the
  tail, or its predecessor has committed as much (`Removals.CommittedSurvives`). Otherwise a write that the client was told
  is committed can become invisible (`Witnesses.LostTailForgets`). The invariant of CRAQ or CHAIN mode and all committed
  versions survive exactly if the member is neither head nor tail, or is the head and its successor has every version, or is
  the tail and its predecessor has committed as much and in CHAIN mode has nothing dirty (`Removals.RemovalExactly`). After the
  loss of a head whose successor lacks a write, the next write gets the version of the missing one
  (`Witnesses.LostHeadReusesVersion`). In any mode a new head reuses a version exactly if it does not hold the newest one
  (`Switching.NewHeadNumbers`).
- *Changing the mode while writes are in flight* can move the head of a key to a replica that lacks its newest write, which
  then reuses the version (`Witnesses.ModeChangeReusesVersion`); the condition is the same (`Switching.NewHeadNumbers`).
- *A CHAIN replica that becomes the tail with a dirty record* tells the client of a commit that did not happen and answers
  reads with an old value under the new version (`ChainGaps.NewTailNotifiesTooEarly`); exactly when a tail promotes a write is
  `ChainGaps.TailPromotes`, exactly when the answer of a new tail is one record is
  `ChainGaps.NewTailReadsOneRecord`.
- *In CHAIN mode* a replica that has a newer dirty record skips an older write but passes it on, so the clean versions of
  neighbours get out of order (`ChainGaps.NeighboursOutOfOrder`); exactly when an acknowledgement promotes its version is
  `ChainGaps.AckPromotes`.
- *A write pending at a replica that a reconfiguration makes the tail of its key* is sent on again, around the ring, and its
  acknowledgements end at the head. At rest such entries are gone exactly if old acknowledgements for all of them were still
  in flight (`Convergence.ReconfigurationAnswers`, `Convergence.LosslessRunsConverge`). A replica that is left alone with such
  an entry keeps the write dirty (`Witnesses.LeftoverStays`).
- *A write accepted before a reconfiguration* is announced to its client afterwards exactly if it is pending at a member of the
  new ring, in its mode, and that ring has a second member; copies in flight are refused for their epoch
  (`Notices.AnnouncedExactly`, `Notices.ReconfigurationResumes`). Otherwise the client is never told
  (`Witnesses.LeftoverStays`).
- *The answer to a mode change* names the next epoch before the change has happened. It is the epoch of the change exactly if
  nothing else changed in between (`Epochs.AnswerExactly`, `Epochs.AnswerIsAGuess`).

## Model

| member | source | states |
|---|---|---|
| KVStores.KVStore.Put | src/kv_store/kv_store.cpp:8-45 | an unversioned write is filed one above the newest version of the key and that version is returned; a versioned one is dropped exactly if the clean record covers it |
| KVStores.KVStore.Get | src/kv_store/kv_store.cpp:47-54 | the value of the clean record, if there is one |
| KVStores.KVStore.GetLatestVersion | src/kv_store/kv_store.cpp:56-72 | the scan finds the maximum over the clean and all dirty versions |
| KVStores.KVStore.MarkCleanVersion | src/kv_store/kv_store.cpp:74-101 | erasing in place leaves exactly the dirty records above the version, and promotes the record of that version if it is newer than the clean one |
| KVStores.KVStore.SnapshotCommitted | src/kv_store/kv_store.cpp:103-111 | a dump holds exactly the clean records |
| KVStores.KVStore.ApplyCommittedSnapshot | src/kv_store/kv_store.cpp:113-141 | the loop over the entries merges every key with what the snapshot offers for it |
| Stores.EveryCallSequence | src/kv_store/kv_store.cpp:8-141 | after any sequence of calls every dirty record carries its own version, above the clean one, and no clean version was ever higher |
| Stores.NextVersionIsNew | src/kv_store/kv_store.cpp:8-27 | the version given to a new write is above everything stored for the key and is the newest afterwards |
| Stores.SnapshotRoundTrip | src/server/server.cpp:460-484 | a dump applied to an empty store reproduces the clean records and nothing else |
| Stores.SnapshotIsMaximum | src/kv_store/kv_store.cpp:113-141 | applying a dump takes over a clean record exactly if it is newer than the one held, and removes exactly the covered dirty ones |
| Stores.UnversionedIsOldest | src/kv_store/kv_store.cpp:118-123 | a value without a version is taken only where nothing is clean, as version 0, and covers no dirty record |
| Stores.SnapshotIdempotent | src/kv_store/kv_store.cpp:113-141 | applying the same dump twice is applying it once |
| Stores.SnapshotsCommute | src/kv_store/kv_store.cpp:113-141 | two dumps may be applied in either order if equal versions carry equal values |
| Stores.TailConverges | src/replication/crown/crown_replication.cpp:137-147 | whatever the order and repetition of deliveries at a tail, it ends with nothing dirty and the newest record clean |
| Handlers.CommitIsTailStep | src/replication/crown/crown_replication.cpp:137-147 | the store part of a forwarded write at a CRAQ or CROWN tail is the step whose order does not matter |
| Stores.TailOrderIrrelevant | src/replication/crown/crown_replication.cpp:137-147 | two deliveries of the same writes in different orders leave the same clean record |
| Stores.MarkingOrderIrrelevant | src/kv_store/kv_store.cpp:74-101 | marking dirty versions clean, in any order and repetition, has the effect of marking the newest |
| Rings.Fnv1a64 | src/replication/common/replication_common.h:14-21 | the loop over the bytes, with a 64-bit word that wraps around, computes the hash |
| Hashes.HashOfOneMore | src/replication/common/replication_common.h:16-19 | the whole hash of a key with one more byte: exclusive or with the hash before, then the product with 2^40 + 2^8 + 179 |
| Hashes.LowByte | src/replication/common/replication_common.h:16-19 | the lowest byte of the hash is 179 times the exclusive or of the byte with the lowest byte before, modulo 256 |
| Hashes.OneByteMatters | src/replication/common/replication_common.h:14-21 | keys of one length that differ in exactly one byte have different hashes |
| Hashes.KnownHashes | src/replication/common/replication_common.h:15-18 | the hashes of the empty key, of "a" and of "foobar" are those of FNV-1a |
| Hashes.KnownHead | src/replication/common/replication_common.h:23-36 | on a CROWN ring of three the chain of "a" starts at seat 1 and ends at seat 0 |
| Rings.RingTraversal | src/replication/common/replication_common.h:23-36 | from the head, the next seats visit every member once and reach the tail after n-1 hops and not before; the previous seats lead back |
| Routing.WritesReachTheHead | src/client/client.cpp:162-171 | in all modes exactly the member the client selects accepts the write, and every other one names it |
| Routing.ReadsAreServed | src/client/client.cpp:173-182 | the member the client selects for a read never answers WRONG_NODE; in CHAIN mode every other one does |
| Routing.ReadsSpread | src/client/client.cpp:173-182 | in CRAQ and CROWN the generated rows are read at the seats in turn, and how often each seat is read over any prefix is known exactly |
| Replicas.Replica.UpdateMembership | src/replication/crown/crown_replication.cpp:55-81 | the replica takes the first seat with its id, else seat 0, and the neighbours that belong to it |
| Replicas.Replica.HandlePutRing | src/replication/crown/crown_replication.cpp:83-160 | store, pending table, messages and answer after a write, in CRAQ and CROWN, are those of the handler that `Notices.FinishingTells` is about |
| Replicas.Replica.HandlePutChain | src/replication/chain/chain_replication.cpp:49-127 | the same in CHAIN mode, with staleness told by the newest version stored |
| Replicas.Replica.HandleWriteAck | src/replication/crown/crown_replication.cpp:242-276 | an acknowledgement marks the filed write clean, drops its entry and goes on towards the head |
| Replicas.Replica.HandleGetLocally | src/replication/crown/crown_replication.cpp:162-201 | the local part of a read, done or the tail to ask, is the one that `Reads.RingRead` and `Reads.ChainRead` determine |
| Replicas.Replica.HandleGetFinish | src/replication/crown/crown_replication.cpp:218-240 | the end of a read once the committed version is known |
| Replicas.Replica.HandleVersionQuery | src/replication/craq/craq_replication.cpp:283-308 | the tail reports its clean version, any other replica refuses |
| Replicas.Replica.AddToPendingAcks | src/replication/common/replication_common.cpp:250-267 | filing a write again keeps its retry count |
| Replicas.Replica.SnapshotPending | src/replication/common/replication_common.cpp:279-289 | every pending id once |
| Replicas.Replica.CollectExpired | src/replication/common/replication_common.cpp:291-318 | exactly the expired entries below the cap are counted up and listed, each once |
| Replicas.Replica.ForwardPutTo | src/replication/common/replication_common.cpp:320-332 | the write is stamped with the epoch, filed and sent to the given node, whichever it is; without one nothing happens |
| Replicas.Replica.SendAck | src/replication/common/replication_common.cpp:382-406 | the acknowledgement goes to the predecessor, or a notice to a client with a usable address |
| Replicas.Replica.RetryRound | src/server/server.cpp:610-642 | a round amounts to retrying the collected entries one by one |
| Replicas.Replica.ReforwardPending | src/server/server.cpp:89-97 | every pending write is sent to the new successor once, not counted as a retry |
| Handlers.RetryAllCounts | src/server/server.cpp:622-638 | counting all entries first and sending afterwards equals retrying one by one |
| Handlers.AckWithoutRing | src/replication/crown/crown_replication.cpp:242-262 | without a membership an acknowledgement is not passed on and the entry stays pending |
| Rounds.RetryRoundIsRun | src/server/server.cpp:610-642 | a round of the retry loop is a run of single retry actions of the transition system |
| Rounds.ForwardingPass | src/server/server.cpp:95-97 | one pass over the table equals sending its writes on one by one, as a switch does |
| Lines.StepKeepsInv | src/replication/crown/crown_replication.cpp:108-160 | every step on a chain keeps the chain invariant, and no replica forgets a version or lowers a clean one |
| Invariants.EveryActionIsStep | src/replication/crown/crown_replication.cpp:83-276 | every action of the cluster is, on the chain of every key, one step of that chain or a loss of messages |
| Invariants.ActionKeepsInv | src/replication/craq/craq_replication.cpp:83-276 | the invariant of CRAQ and CROWN is kept by every action on a fixed ring |
| ChainLines.ChainStepKeepsInv | src/replication/chain/chain_replication.cpp:104-127 | the weaker invariant, in which a replica may skip versions, is kept by every step of a chain |
| AllModes.ActionKeepsMode | src/replication/chain/chain_replication.cpp:49-195 | in each of the three modes every action on a fixed ring keeps the invariant of the mode |
| AllModes.TailIsAhead | src/replication/chain/chain_replication.cpp:104-120 | in all modes no member is ahead of the tail, none lacks something as new as the tail's; in CHAIN mode the tail has nothing dirty |
| Runs.RunIsSound | src/replication/crown/crown_replication.cpp:83-276 | in every run of any mode, switches and removals included, every state satisfies the invariant and nothing committed, accepted or held is lost later |
| Runs.ChainOrder | src/replication/crown/crown_replication.cpp:137-160 | in CRAQ and CROWN clean versions never fall along the chain; what is stored, pending or on its way at a replica is held by every earlier one |
| Runs.PendingIsHeld | src/kv_store/kv_store.cpp:74-101 | in CRAQ and CROWN a version about to be marked clean is dirty or already covered, so marking it never loses it |
| Reads.ReadReturnsCommitted | src/replication/crown/crown_replication.cpp:162-240 | a read at any replica in any mode returns a pair the head really assigned, between the committed versions at its start and its end; NOT_FOUND only if nothing was committed at its start; never VERSION_NOT_FOUND |
| Reads.ChainRead | src/replication/chain/chain_replication.cpp:129-159 | a read in CHAIN mode answers exactly: WRONG_NODE away from the tail, NOT_FOUND if nothing is committed, else the committed version and the value it was assigned to |
| Reads.RingRead | src/replication/craq/craq_replication.cpp:162-201 | a read in CRAQ and CROWN answers exactly: the tail, and every member with nothing newer than its clean record, answers itself with the committed version and its value; any other asks the tail |
| Reads.AsksExactly | src/replication/crown/crown_replication.cpp:179-216 | a member needs the tail exactly if the mode is CRAQ or CROWN, it is not the tail, and it holds a version newer than its clean one |
| Reads.IdleRead | src/replication/craq/craq_replication.cpp:162-201 | in CRAQ and CROWN, when the head has nothing pending for a key every member answers with the newest accepted write, without a query |
| Reads.QueryExactly | src/server/server.cpp:431-457 | a version query is refused with STALE_EPOCH, WRONG_MODE or WRONG_NODE exactly when the epoch is old, the mode is CHAIN or the member is not the tail; the tail answers its clean version |
| Reads.NoticeIsEarned | src/replication/crown/crown_replication.cpp:143-154 | a commit notice is in flight only for what the tail has committed, and every member has that version or a newer one |
| Reads.VersionsAreNew | src/replication/crown/crown_replication.cpp:119-122 | an accepted write gets a version above every record, pending write, forwarded write, acknowledgement and notice of the key in the whole system |
| Reads.CopyIsWrite | src/replication/common/replication_common.cpp:320-332 | every clean, dirty, pending or forwarded copy of a version carries the value of the write accepted with it |
| Reads.CopiesAgree | src/replication/common/replication_common.cpp:320-332 | any two copies of one version of one key carry one value |
| Reads.HeadSettledAgreement | src/replication/crown/crown_replication.cpp:242-276 | in CRAQ and CROWN, when the head has nothing pending for a key all replicas have the newest write clean and nothing dirty |
| Linearizability.AcceptedOnce | src/replication/crown/crown_replication.cpp:119-122 | no two accepted writes of a key in a run get the same version |
| Linearizability.AcceptedInEpoch | src/server/server.cpp:290-298 | every accepted write of a run carried at least the epoch in force |
| Linearizability.ReadHasItsWrite | src/replication/crown/crown_replication.cpp:108-135 | whatever a read returns was accepted as a client write before the read ended |
| Linearizability.RealTimeOrder | src/replication/craq/craq_replication.cpp:162-240 | operations that follow each other in time are ordered alike by version: no later read returns an older version, no later write gets an older one |
| Linearizability.OrderIsLegal | src/replication/chain/chain_replication.cpp:129-159 | a read with the version of a write returns its value, after the write was accepted; no two writes share a version |
| Linearizability.RunsAreLinearizable | src/replication/crown/crown_replication.cpp:83-276 | any finite collection of operations of a run with no write listed twice, completed by missing accepted writes, forms one sequence in which every write occurs once, which respects real time, and in which every read returns the value of the last write before it |
| Witnesses.RunsExist | src/replication/crown/crown_replication.cpp:195-216 | there is a run of two replicas in which a write completes and a read at the head asks the tail and returns it |
| Switching.EntryIsNewest | src/server/server.cpp:208-237 | in a settled state every member of the new ring holds exactly the newest committed records: an old member, one with a dump, or one that was up to date |
| Switching.SwitchExactly | src/server/server.cpp:168-205 | installing a ring in a settled state gives a settled state with the invariant of its mode exactly if every server that enters without a dump has the newest version of every key |
| Switching.SettledSwitch | src/server/server.cpp:73-98 | a settled switch of members, order or mode, with everything pending sent on again, re-establishes the invariant of any of the three modes with old traffic around |
| Switching.NewHeadNumbers | src/replication/crown/crown_replication.cpp:119-122 | after any switch, settled or not, the next version a head gives is unused exactly if that head holds the newest version of the key |
| Removals.CommittedSurvives | src/metadata_store/metadata_store.cpp:183-232 | the committed version of a key is the same after the loss of a member exactly if it was not the tail or its predecessor has committed as much |
| Removals.RemovalExactly | src/metadata_store/metadata_store.cpp:183-232 | with writes in flight, a ring of CRAQ or CHAIN without one of its members satisfies the invariant and keeps every committed version exactly if the member is interior, or a head whose successor is complete, or a tail whose predecessor has committed as much and, in CHAIN mode, has nothing dirty |
| Removals.RemovalKeepsMode | src/server/server.cpp:73-98 | such a removal, with everything pending sent on again, keeps the invariant and touches no store |
| Lines.RemovalExactly | src/replication/crown/crown_replication.cpp:137-160 | the chain invariant and the committed version survive the loss of a replica in exactly these cases |
| Witnesses.JoinWithoutDumpForgets | src/server/server.cpp:556-587 | a settled ring with a committed write takes in a server without a dump, which then answers NOT_FOUND as the tail |
| Witnesses.LostHeadReusesVersion | src/metadata_store/metadata_store.cpp:183-232 | a head is lost whose successor lacks its first write; the successor gives the next write the same version and commits it |
| Witnesses.LostTailForgets | src/metadata_store/metadata_store.cpp:183-232 | a tail is lost after the client was told of a commit; the remaining replica answers that the key does not exist |
| Witnesses.ModeChangeReusesVersion | src/metadata_store/metadata_store.cpp:266-285 | a change from CRAQ to CROWN with a write in flight, after which two different writes have version 1 |
| Witnesses.LeftoverStays | src/server/server.cpp:89-97 | a run without loss in which the tail of two is taken out before the first write reaches it: nothing is left to deliver, and the write stays pending and dirty |
| Termination.WindingDecreases | src/replication/common/replication_common.cpp:250-332 | every delivery, every retry and every loss lowers a weighted sum over messages and remaining retries |
| Termination.WindingRunsAreFinite | src/replication/common/replication_common.cpp:291-318 | without new writes, duplication and reconfiguration, a run in any mode has at most as many steps as that sum |
| Convergence.ActionKeepsLive | src/replication/crown/crown_replication.cpp:143-160 | as long as no message is lost, a write pending anywhere but at its tail is on its way, pending at the next replica, or its acknowledgement is on its way back, through every reconfiguration; on a fixed ring no entry at a tail is ever newly acknowledged |
| Convergence.ReconfigurationAnswers | src/server/server.cpp:73-98 | after a switch or removal every entry at a tail has an acknowledgement in flight exactly if, on the new ring, it had one before |
| Convergence.LosslessRunsConverge | src/replication/crown/crown_replication.cpp:137-160 | a run that loses no message is finite after its last write; at rest all replicas of a ring of two or more are identical, and nothing is pending exactly if, before the last reconfiguration, every entry at a new tail had an acknowledgement in flight |
| Notices.FinishingTells | src/replication/crown/crown_replication.cpp:143-151 | when any action makes a version clean somewhere or acknowledges it for the first time, the client of the write is being told right after, in all modes, lone heads included |
| Notices.CommittedIsAnnounced | src/replication/chain/chain_replication.cpp:110-120 | in every run, once any server has a version clean, a notice of it was on its way to the address its client gave, after the acceptance |
| Notices.NoticeGoesToItsClient | src/replication/common/replication_common.cpp:382-406 | whoever is sent a notice of a version is the client whose write got that version |
| Notices.TailDeliveryTells | src/replication/crown/crown_replication.cpp:143-151 | every forwarded write that reaches a tail is announced to its client, stale or not |
| Notices.ForwardIsAnswered | src/replication/crown/crown_replication.cpp:137-160 | a replica answers a forwarded write with the version its head gave it |
| Notices.ReconfigurationResumes | src/server/server.cpp:73-98 | after a switch or removal a write is on its way exactly if it is pending at a member of the new ring that has a successor; all others are pending nowhere and no copy of them is taken |
| Notices.AnnouncedExactly | src/replication/crown/crown_replication.cpp:108-160 | in a run without loss, at rest: a client was told of its write exactly if the write was accepted after the last reconfiguration, or announced before, or pending at a member of a ring of two or more |
| ChainGaps.AckPromotes | src/replication/chain/chain_replication.cpp:161-195 | an acknowledgement leaves its version clean or covered exactly if the replica held it |
| ChainGaps.NeighboursOutOfOrder | src/replication/chain/chain_replication.cpp:104-127 | a reordering on any chain of three after which the head is clean at a version and its successor is not |
| ChainGaps.TailPromotes | src/replication/chain/chain_replication.cpp:104-116 | a CHAIN tail ends clean at a forwarded version or above exactly if it did not have it, or something newer, only dirty |
| ChainGaps.LoneTailTellsTwice | src/replication/chain/chain_replication.cpp:110-120 | a lone CHAIN tail announces a forwarded write twice, any other tail once |
| ChainGaps.NewTailReadsOneRecord | src/replication/chain/chain_replication.cpp:150-158 | when a CHAIN tail is lost in any reachable state, value and version of the answer of its predecessor belong to one record exactly if the tail might go |
| ChainGaps.NewTailNotifiesTooEarly | src/replication/chain/chain_replication.cpp:104-120 | a chain of three loses its tail with a write in flight: the new tail sends the commit notice without promoting the write and answers the old value under its version |
| Collisions.CollidingIdsBreakReads | src/server/server.cpp:426 | two writes with one id on any ring of two: the head gets ahead of the tail and a later read returns an older value |
| Collisions.OrderKeptExactly | src/replication/crown/crown_replication.cpp:242-254 | an acknowledgement keeps a replica behind its successor exactly if the entry under its id is no dirty record newer than what the successor has committed |
| Metadata.MetadataStore.GetMembership | src/metadata_store/metadata_store.cpp:101-110 | the configuration in force, which is the one of its epoch in the history |
| Metadata.MetadataStore.SetMode | src/metadata_store/metadata_store.cpp:112-137 | unknown modes are refused; a change is started exactly if the mode differs; the epoch answered |
| Metadata.MetadataStore.TriggerReconfigureRemove | src/metadata_store/metadata_store.cpp:183-232 | removing a member raises the epoch by one and tells each survivor once; an unknown id changes nothing |
| Metadata.MetadataStore.TriggerReconfigureAdd | src/metadata_store/metadata_store.cpp:234-264 | a new member goes to the end and every member is told; a known id changes nothing |
| Metadata.MetadataStore.TriggerModeChange | src/metadata_store/metadata_store.cpp:266-285 | the epoch goes up by one with the new mode and the same members |
| Metadata.ChangesKeepDistinct | src/metadata_store/metadata_store.cpp:183-264 | distinct member ids stay distinct through every change |
| Metadata.ModeNames | src/metadata_store/metadata_store.cpp:112-122 | exactly three names are modes, each the name of one |
| Servers.Process.ApplyMembership | src/server/server.cpp:73-98 | all three replication objects get members, seat and epoch; the active one is that of the mode in force, as the configuration names it; only if the epoch went up does it, and no other, send its pending writes on |
| Servers.Process.SyncFromPeer | src/server/server.cpp:208-237 | the first other member that answers provides the snapshot; without an answer the store stays |
| Servers.FirstPeerIsFirst | src/server/server.cpp:208-237 | no other member that answers comes before the one the snapshot is taken from |
| Servers.Process.Reconfigure | src/server/server.cpp:168-205 | an older request changes nothing at all; after any other one exactly the requested configuration is held and installed, after a snapshot if this server is the added one |
| Servers.Process.Refresh | src/server/server.cpp:556-587 | a fetched membership is held and installed unless it is older, or not newer when only newer ones count |
| Epochs.EpochAgreement | src/server/server.cpp:168-193 | a server's epoch never falls and never exceeds the metadata store's; servers that are ever in the same epoch hold the same members and mode |
| Epochs.SameEpochSameRing | src/server/server.cpp:168-193 | servers in one epoch agree on head, tail and neighbours of every key; their members are distinct if the first ones were |
| Epochs.FetchCatchesUp | src/server/server.cpp:504-531 | a fetch answered since the last change brings the server to what is in force |
| Epochs.PacketIsObeyed | src/server/server.cpp:168-193 | after a request or a fetched membership arrived, a server holds it exactly if it was not older than what it held, is never below its epoch, and is at what is in force if it is the newest; no other server moves |
| Epochs.ChangeTakesEffect | src/metadata_store/metadata_store.cpp:183-285 | a removal, an addition and a mode change take effect with the next epoch and change what they should |
| Epochs.ChangeIsAnnounced | src/metadata_store/metadata_store.cpp:183-285 | every member of the new configuration is sent it, with the name of who was removed or added |
| Epochs.AnswerInForce | src/metadata_store/metadata_store.cpp:112-127 | a request for the mode in force is answered with its epoch, one for an unknown mode is refused |
| Epochs.AnswerExactly | src/metadata_store/metadata_store.cpp:112-137 | the epoch answered to a mode change is the epoch of that change exactly if the history did not grow in between |
| Epochs.AnswerIsAGuess | src/metadata_store/metadata_store.cpp:130-135 | a run in which a server is added between the answer and the change, so the answered epoch is the addition's |
| Reconfigurations.ProcessEntersAsSwitch | src/server/server.cpp:168-237 | the store with which a process enters a membership is the one the switch gives its server, with or without a dump |
| Reconfigurations.ProcessResendsAsSwitch | src/server/server.cpp:87-97 | what the object of the mode in force sends on after a newer membership is what the switch makes its server send: all it has pending in that mode, each once |
| Reconfigurations.RemovalShrinksRing | src/metadata_store/metadata_store.cpp:183-232 | a removal by the metadata store takes exactly the seat of the node out of the ring |
| Reconfigurations.RemovalIsAction | src/metadata_store/metadata_store.cpp:183-232 | with writes in flight such a removal is a step of the system exactly if the member may go |
| Reconfigurations.SettledRemovalIsAction | src/metadata_store/metadata_store.cpp:183-232 | in a settled state it is one in every mode |
| Reconfigurations.AdditionIsAction | src/metadata_store/metadata_store.cpp:234-264 | in a settled state an addition is a step of the system exactly if a peer answers the new server's state dump or it is up to date |
| Reconfigurations.ModeChangeIsAction | src/metadata_store/metadata_store.cpp:266-285 | in a settled state a mode change is a step of the system |
| Dataset.ToBase26 | setup/generate_kv_dataset.py:40-45 | filling letters in place from the last to the first spells the number |
| Dataset.SameLettersExactly | setup/generate_kv_dataset.py:40-49 | two numbers get the same letters exactly if they agree modulo 26 to the number of letters |
| Dataset.RowSpells | setup/generate_kv_dataset.py:40-53 | key and value of a row spell its candidate number in 10 and 64 letters |
| Dataset.GenerateBalancedRows | setup/generate_kv_dataset.py:56-80 | row i has residue i modulo the modulus; per residue, emitted and waiting rows are exactly the candidates so far, in order |
| Dataset.Conservation | setup/generate_kv_dataset.py:56-80 | every row is emitted and waiting, together, as often as it was a candidate |
| Dataset.KeysDistinct | setup/generate_kv_dataset.py:48-80 | no key is emitted twice as long as there are at most 26 to the 10 candidates |
| Dataset.LoadExact | setup/generate_kv_dataset.py:56-80 | how many of the first rows have their head at a given seat, exactly, for every ring size that divides the modulus |
| Dataset.DefaultModulus | setup/generate_kv_dataset.py:23-80 | with the default modulus and 3, 5, 7 or 9 members, row i has its head at seat i mod n, and loads over any prefix differ by at most one |

## Left out

- Reconfiguration or a mode change with writes in flight, apart from the loss of a member that may go: the code does not drain,
  and where that breaks the results is shown above.
- The removal of a CROWN member with writes in flight: the heads of almost all keys move.
- Interleavings inside one handler or inside one local part of a read: value and version can then come from different records.
- A reconfiguration that reaches the members one after the other, and the moment between the update of a server's epoch and
  the update of its replication objects. `Epochs` speaks of the servers' own fields, at any moment.
- Servers outside the membership take no steps until a switch brings them in.
- Restarts of a server or of the metadata store: both forget everything they hold.
- The epoch check before a client's read or a state dump is served (src/server/server.cpp:381-384, 464-474): it only refuses.
- SERVICE_UNAVAILABLE while a server is starting, and WRONG_MODE for unknown modes at the data handlers.
- 64-bit wrap-around of versions and epochs, and 32-bit ring sizes.
- Wall-clock time: deadlines, heartbeats and failure detection. A removal may happen at any time, and which entries have
  expired is a parameter.
- gRPC plumbing, channel and stub caches, the asynchronous acknowledgement pump, worker threads, the bounded queue, logging.
- The Freeze, Drain and Inflight messages of proto/replication.proto, which nothing uses.
- The client's completion tracking, its loops, statistics and REPL; parsing of addresses and members; CSV files; hot-key skew.
- GenerateBalancedRows: does not promise that enough rows are found, because that depends on how the hash distributes;
  the number of candidates tried is bounded by a parameter.
- HandlePutRing: leaves out the acknowledgement to a predecessor by a head that is also the tail, because such a replica is
  alone and has none (`Replicas.HeadIsTailAlone`).
