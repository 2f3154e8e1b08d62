# A verified model of a Raft-backed key-value store

The system is an etcd-style store. A Raft group replicates a log of operations; every node applies the log to a
multi-version store with deduplicated requests, transactions, compaction, prefix scans and watches; a queue lock is
built on revisions; a write-ahead log frames records on disk. Four parts are modelled, each in the form the source
has, and the properties that reach across functions are proved for every input, every run or every reachable state.

**Raft** (`raft_*.dfy`). `RaftServer.Server` is one node: its fields are updated in place by one method per
lock-held section, with the source's merge, conflict-scan and commit-count loops, and each method is proved equal to a
function of `RaftHandlers` on the node's value. `RaftSystem` puts any number of such nodes beside a network that may
lose, delay, duplicate and reorder packets; a run is any sequence of enabled actions. The invariants are layered:
`RaftElection` (votes and leaders) and `RaftMatching` (logs) hold in any delivery order; `RaftSync` (what followers
confirmed), `RaftCompleteness` and `RaftCommit` hold in sparing runs, those in which no AppendEntries that is handled
cuts into what its receiver has confirmed to that leader. `RaftFifo` proves that in-order delivery of AppendEntries is
enough for that. `RaftSafety` states the theorems over runs, `RaftProbe` the one-leader-one-follower backtracking.
`RaftSteps` says what single steps, elections and replicated entries do to a run; `RaftRuns` and `RaftHazards` put them
together into runs that get through and runs that go wrong. `RaftProgress` and `RaftAvailability` are the other side of
safety: a majority is enough, for a vote, for a commit, and for going on from any state.

The code is not textbook Raft, and the proofs are about what it does: it always ships the leader's whole suffix,
always cuts a follower's log at the end of a non-empty message, moves `commitIndex` before it merges, sets
`matchIndex` without taking a maximum, counts votes in a variable guarded by role and term, and answers a conflict with
the start of the conflicting run.

**Versioned store** (`keys.dfy`, `mvcc_*.dfy`). The specification is a plain log of writes; revision `r` is write
number `r`. `MvccStore.Mvcc` holds the flat rows keyed `key/rev` and the three indexes, and every method says what it
does to the log. Compaction is described by one number, the floor: the largest `min(c, currentRev)` compacted so far,
whatever `c` was asked for. A version is kept unless a newer one of its key lies at or below the floor.

**Apply layer and lock** (`kv_*.dfy`, `lock_*.dfy`). `KvSpec` says what one log entry means over the write log and the
dedup tables. `KvServer.KvServer` has the handlers and the batch dispatch, proved against it, with the notifications
they emit and the replies they send to waiting clients. `KvAnswers` and `KvWaiting` say the same for a client, in terms
of the writes themselves: what each kind of entry writes and answers, and that whoever waits is answered. `LockManager`
runs the waiting loops against a server that
goes on applying the log, and `LostRequests` shows what the server tells a client whose entry never made it.

**Watch index and write-ahead log** (`watch_*.dfy`, `wal.dfy`). The prefix tree of linked nodes is proved to be a filter
over the registered watchers, and the manager to keep each watcher in exactly one of four indexes. The record framing
is a printer and a parser, proved inverse for any checksum function.

## What the proofs found

- State machine safety fails without any order among a leader's messages: `RaftRuns.UnsafeWithoutOrder` is a run of
  three nodes after which two of them have applied different commands at the same index, because a late AppendEntries
  removed an entry its follower had acknowledged and the leader had committed. The theorems ask instead that no handled
  message cuts into what was confirmed; for a single message that is the exact condition for keeping it
  (`RaftProbe.KeepsConfirmed`), and in-order delivery ensures it for whole runs (`RaftFifo.FifoSpares`).
- A client that waits at a log index is answered with whatever entry of its kind is applied there, which need not be its
  own. `RaftHazards.OtherCommandHandedOver` is an in-order run in which the leader a client submitted to is deposed and
  hands over another's command at the client's index. The exact condition is `RaftSafety.OwnEntryIff`: the entry handed
  over is the client's own if and only if it has the term that `Start` returned, and every handler drops that term
  (`internal/kv/kv_lock.go:115`, `kv_txn.go:43`, `kv_put.go:24`, `kv_delete.go:20`, `kv_batch.go:22`). So a lock is
  granted although its key was never written (`LostRequests.LostLockGranted`, `LostRequests.GrantedWithoutKey`) and a
  put is confirmed that was lost (`LostRequests.LostPutConfirmed`). `LockManager.Lock` is stated for any entry at the
  index: a granted key exists at the reported revision if and only if the fresh lock request found there is the own one.
- A lock request can wait for ever for a key that is gone: its watch is registered after the search that found the key,
  and the second check still finds a key whose newest write is a deletion. `LockManager.WaitLock` has the exact condition:
  the waiter is woken if and only if the key was never written or is deleted after the registration;
  `LockManager.LostWakeUp` is the smallest case. If nothing is applied in that gap, a request under the discipline is
  granted exactly if nobody is ahead of it in the end (`LockManager.WaitUntilAcquire`, `LockManager.Lock`).
- A waiting lock request never looks at its own key again, so one whose key expired in the queue is granted all the same
  (`LockSpec.ExpiredGetsThrough`). At the grant the lock holds if and only if its key has no write after its creation
  (`LockManager.Lock`).
- `InstallSnapshot` adopts a term without clearing the vote. The branch is reachable even while nothing is compacted:
  a leader ahead of an empty follower is sent back to `nextIndex` 0 (`RaftRuns.SnapshotBranchReached`). The election
  proof includes the handler and shows it is harmless.
- `Recover` skips tombstones when it rebuilds `latest`, so a deleted key comes back with an old value when an older
  live version is still stored (`MvccRebuild.DeletedKeyReturns`). `MvccRebuild.RestartVisibleIff` is the exact condition.
- `PrefixScan` matches the prefix against `key/rev`, so a prefix of the form `key/digits` reports a key that does not
  start with it, possibly at an overwritten version (`MvccScan.StrayIsReported`). `MvccScan.ScanWrongIff` and
  `MvccScan.ScanRightIff` say exactly which stored rows cause it.
- A message that does not unmarshal takes the rest of its batch with it, so replicas that cut the log into different
  batches can differ (`KvServer.SplitVisibleIff`).
- A repeated request is answered with the result of the client's last request of the same table that took effect, so
  its own result is lost exactly if a later one overwrote it and was answered differently
  (`KvExactlyOnce.RepeatOfOlder`); for a lock request this can be a success for a key that is gone
  (`LockSpec.StaleLockAnswer`).
- In the program as wired the lock manager has no watcher manager: `InitKvserver` hands it `kv.watcherManager`
  (`internal/kv/kvserver.go:155`) before `InitWatch` creates that (`:78-80`). A lock request then panics where it should
  wait, and that is exactly if its transaction succeeds while somebody is ahead (`LockManager.Lock`,
  `LockManager.WaitUntilAcquire`, with `wired` false). With a watcher manager it waits as intended.
- The WAL round trip holds a little beyond what the 32-bit length field suggests, because writer and reader wrap alike:
  exactly for data shorter than 2^32 bytes (`Wal.ParseIff`).

## Assumptions

- Handlers that hold the lock are one step. The leadership check of the broadcast and the building of each message are
  one step (`internal/raft/raft_heartbeat.go:15` and `:64-71`), although the source unlocks in between. The theorems need
  this: `RaftHazards.LateBuildUnsafe` is an in-order run with one message built after the leadership it was checked for
  is gone, and two nodes apply different first commands.
- The majority check after the vote loop (`internal/raft/raft_vote.go:99-109`), which reads its counter without the
  lock, is modelled for the one-node cluster its comment describes.
- Where a theorem asks for `IsSparingRun`: no AppendEntries that is accepted and not empty is shorter than what its
  receiver has confirmed to the leader of that term. In-order delivery (`IsFifoRun`: AppendEntries requests of one
  leader to one follower in one term are handled in the order they were sent, possibly lost) implies it. Every other
  packet is unrestricted.
- Membership is fixed, nodes do not restart, and the Raft log is not compacted (`lastSnapIndex` is 0).
- The embedded database is a map from physical key to value and its operations succeed; JSON and protobuf encoding lose
  nothing; the checksum is an arbitrary function. Characters stand for bytes.

## Model

| member | source | states |
|---|---|---|
| RaftSafety.ElectionSafety | internal/raft/raft_vote.go:66-88 | In every run, in any delivery order, two leaders of one term, seen at any two times, are the same node. |
| RaftSafety.LogMatching | internal/raft/raft_heartbeat.go:222-270 | In every run, in any delivery order, logs of any two nodes at any two times that share a term at an index are equal up to it. |
| RaftSafety.NextIndexInBounds | internal/raft/raft_heartbeat.go:41-62 | In every run a leader's `nextIndex` never exceeds the length of its log, so the send loop's indexing is safe. |
| RaftSafety.LeaderCompleteness | internal/raft/raft_heartbeat.go:130-144 | In every sparing run, what a leader committed by the majority-and-own-term rule is in the log of every leader of a later term, at any time of the run. |
| RaftSafety.EarlyCommitSound | internal/raft/raft_heartbeat.go:236-238 | In every sparing run `commitIndex` stays within the log although it moves before the merge, and the committed prefix is a prefix of the log of every leader of the node's term or a later one. |
| RaftSafety.StateMachineSafety | internal/raft/raft_apply.go:16-38 | In every sparing run, of the command sequences any two nodes have handed to `applyCh` at any two times, one is a prefix of the other. |
| RaftSafety.AppliedIsCommitted | internal/raft/raft_apply.go:17-32 | In every sparing run what was handed over is exactly the log from 1 to `lastApply`, in order and without gaps, and `lastApply` never passes `commitIndex`. |
| RaftSafety.OwnEntryIff | internal/raft/raft.go:118-144 | In every sparing run, a node that appended an entry at an index and has handed that index over has handed over that very entry if and only if what its log holds there has the term `Start` returned; what it handed over is the command its log holds there. |
| RaftFifo.FifoSpares | internal/raft/raft_heartbeat.go:61-71 | Every run with in-order delivery is a sparing run, because each message carries the whole suffix: a later one reaches at least as far. |
| RaftFifo.InOrderSafety | internal/raft/raft_apply.go:16-38 | State machine safety for in-order delivery. |
| RaftRuns.UnsafeWithoutOrder | internal/raft/raft_heartbeat.go:265-270 | Without any order it fails: for any commands with `c2 != c3` a run of three nodes ends with `[c1, c2]` applied at one node and `[c1, c3]` at another. |
| RaftRuns.MajorityCommits | internal/raft/raft_heartbeat.go:130-144 | In-order runs of three nodes get through: any command is committed by a majority and applied. |
| RaftRuns.CommandReachesState | internal/raft/raft_vote.go:97-109 | So do runs of a one-node cluster. |
| RaftRuns.SnapshotBranchReached | internal/raft/raft_heartbeat.go:46-53 | An in-order run in which a leader's `nextIndex` for a follower becomes 0 and InstallSnapshot is sent and handled, with nothing compacted. |
| RaftHazards.OtherCommandHandedOver | internal/raft/raft_heartbeat.go:251-270 | An in-order run of three nodes, for any two commands: node 0, leader of term 1, has one command at index 1 and in the end hands over the other one, of term 2, there. |
| RaftHazards.LateBuildUnsafe | internal/raft/raft_heartbeat.go:15-71 | If one message may be built after the leadership that was checked is gone, an otherwise in-order run ends with `[c, x]` applied at one node and `[d]` at another, for any commands with `c != d`. |
| RaftElection.NoRival | internal/raft/raft_vote.go:79-82 | A candidate holding votes of a majority of its term has no elected rival in it, by quorum intersection. |
| RaftElection.StepE | internal/raft/raft_vote.go:168-214 | Every action, in any delivery order, keeps the election invariant: one recorded vote per node and term, counters that count distinct voters, one winner per term. |
| RaftElection.TallyGrows | internal/raft/raft_vote.go:66-81 | A vote that the guard lets through is by a voter not counted before, so `votes` is the size of a set of distinct voters for this term. |
| RaftMatching.Matching | internal/raft/raft_heartbeat.go:222-233 | Two logs of one history with the same term at an index agree up to it. |
| RaftMatching.MergeIsSplice | internal/raft/raft_heartbeat.go:251-270 | For logs of one history, merging a non-empty message judged by term alone and cutting the tail gives `log[..PreLogIndex+1] + Entries`, which is the leader's log up to the message's end. |
| RaftMatching.StepL | internal/raft/raft_heartbeat.go:205-270 | Every action keeps every log and message a prefix, entry by entry, of the log of the leader of the entry's term. |
| RaftSync.StepF | internal/raft/raft_heartbeat.go:118-126 | Every action that spares what is confirmed keeps `matchIndex` below what the follower confirmed, and confirmed prefixes equal to the leader's. |
| RaftCompleteness.Complete | internal/raft/raft_vote.go:177-210 | In any state that satisfies the invariants, every entry that is committed, or still could be, in its leader's term is in the log of every later election's winner. |
| RaftCompleteness.UpToDateHas | internal/raft/raft_vote.go:179-184 | A candidate that passes the up-to-date test against a voter holding a confirmed, committable entry holds that entry's whole prefix itself. |
| RaftCompleteness.StepC | internal/raft/raft_vote.go:177-210 | Every action keeps it true that votes of a later term were given to candidates that hold every entry which can still be committed and which the voter confirmed. |
| RaftCommit.StepA | internal/raft/raft_heartbeat.go:236-270 | Every action keeps each node's committed prefix equal to one that some leader committed by counting, and what it handed over equal to that log. |
| RaftCommit.CommittedInMessage | internal/raft/raft_heartbeat.go:251-270 | What a node has committed is a prefix of what any in-order message of its term or a later one makes its log, so the unconditional cut never removes a committed entry. |
| RaftProbe.RejectionLowers | internal/raft/raft_heartbeat.go:145-150 | A rejected probe strictly lowers `nextIndex` (0 goes to 1 through the snapshot branch) and leaves both logs alone. |
| RaftProbe.AcceptanceAgrees | internal/raft/raft_heartbeat.go:104-126 | After an accepted probe the leader's log is a prefix of the follower's, equal to it if the message carried entries, and `nextIndex`, `matchIndex` say so. |
| RaftProbe.ProbeEnds | internal/raft/raft_heartbeat.go:205-233 | From any two logs of one history, probing ends in an acceptance after at most `nextIndex + 1` exchanges, with the leader's log at the front of the follower's. |
| RaftProbe.KeepsConfirmed | internal/raft/raft_heartbeat.go:251-270 | An accepted message of the leader, however late, keeps a follower's first `f` agreed entries if and only if it is empty or was cut from a log at least `f` long. |
| RaftProbe.ProbeSkipsTerms | internal/raft/raft_heartbeat.go:227-231 | Probing takes at most three exchanges more than the follower's log has stretches of equal terms, because a refusal names the start of the conflicting stretch. |
| RaftProgress.EnoughHoldersCommit | internal/raft/raft_heartbeat.go:119-144 | In a cluster of any size an acknowledgement commits every entry of the leader's own term that a majority then holds, moves the commit index to nothing else, and records what the message reached. |
| RaftProgress.AloneCommitsAll | internal/raft/raft_heartbeat.go:157-172 | The same for the one-node cluster, which commits all of its own term. |
| RaftProgress.CommitKeepsUp | internal/raft/raft_heartbeat.go:130-144 | In every run of two or more nodes, in any delivery order, a leader has at all times committed every entry of its own term that a majority has acknowledged to it. |
| RaftProgress.EnoughVotesElect | internal/raft/raft_vote.go:79-88 | In every run, of any cluster size, a candidate becomes leader with the vote that gives it a majority and not before, with fresh progress arrays. |
| RaftProgress.GrantedIff | internal/raft/raft_vote.go:177-213 | A vote is granted exactly to a request that is not from the past, finds the vote free or given to the same candidate, and brings a log with a later last term, or the same and no fewer entries; the reply carries the newer term. |
| RaftProgress.NewerOrder | internal/raft/raft_vote.go:182-184 | Being as new is total and transitive, so some log is as new as all others. |
| RaftProgress.StaleLeaderStepsDown | internal/raft/raft_heartbeat.go:189-194 | A message of an old term is refused with the newer one, and the reply makes its sender a follower in it. |
| RaftProgress.StaleCandidateStepsDown | internal/raft/raft_vote.go:196-200 | So is a vote request of an old term. |
| RaftProgress.FollowsSender | internal/raft/raft_heartbeat.go:198-203 | In every run, handling a message that is not from the past makes its receiver a follower in that term that names the sender, the only node that ever leads in it. |
| RaftAvailability.MajorityMakesProgress | internal/raft/raft_vote.go:10-110 | From whatever state an in-order run of any number of nodes has reached, there are in-order steps of the nodes of one majority alone after which one of them is leader and all of them have applied its whole log, with a given new command at its end. |
| RaftAvailability.SomeFreshest | internal/raft/raft_vote.go:182-184 | In any set of nodes one has a log for which all of them would vote. |
| RaftAvailability.Fed | internal/raft/raft_heartbeat.go:104-152 | A leader brings any follower in no later term to its own log by finitely many exchanges, the detour through the snapshot branch included. |
| RaftServer.Server.constructor | internal/raft/raft.go:198-221 | A new node is a follower of term 0 with the dummy entry only, in the state every run starts from. |
| RaftServer.Server.StartElection | internal/raft/raft_vote.go:13-23 | The candidate's new state and request are those of the run model, the one-node win included. |
| RaftServer.Server.HandleVoteReply | internal/raft/raft_vote.go:66-93 | Stale replies change nothing, a higher term steps the node down, and the vote that completes a majority makes it leader with fresh progress arrays. |
| RaftServer.Server.RequestVote | internal/raft/raft_vote.go:168-214 | On every branch, new state and reply are those of the run model. |
| RaftServer.Server.Merge | internal/raft/raft_heartbeat.go:241-270 | The loop with its break and the final cut compute the longest agreeing prefix followed by the rest of the message. |
| RaftServer.Server.ConflictStart | internal/raft/raft_heartbeat.go:222-231 | The backward scan ends at the first index of the run of equal terms. |
| RaftServer.RunStartUnique | internal/raft/raft_heartbeat.go:228-231 | Only one index starts the run of equal terms that ends at a given entry. |
| RaftServer.Server.AppendEntries | internal/raft/raft_heartbeat.go:185-275 | On each of the five outcomes, new state and reply, conflict index included, are those of the run model. |
| RaftServer.Server.MakeAppend | internal/raft/raft_heartbeat.go:41-71 | The message carries the previous index and term, the whole suffix and the commit index. |
| RaftServer.Server.CountHolders | internal/raft/raft_heartbeat.go:134-139 | The count is the number of distinct peers that hold the index as far as the leader knows, itself included. |
| RaftServer.Server.AdvanceCommit | internal/raft/raft_heartbeat.go:130-144 | The scan from the end finds the commit index of the run model, which `RaftProgress.EnoughHoldersCommit` shows to be the largest index of the own term that a majority holds, or the old one. |
| RaftServer.Server.HandleAppendReply | internal/raft/raft_heartbeat.go:91-152 | Step-down, stale reply, success and conflict each have the effect of the run model. |
| RaftServer.Server.SoloCommit | internal/raft/raft_heartbeat.go:159-172 | The one-node commit equals the general majority rule with the own index as the only vote. |
| RaftServer.Server.Start | internal/raft/raft.go:118-144 | A leader appends exactly one entry of its term; anyone else changes nothing. |
| RaftServer.Server.InstallSnapshot | internal/raft/raft_snapshot.go:55-73 | Without newer snapshots the handler adopts role and term and nothing else, the vote included. |
| RaftServer.Server.HandleSnapshotReply | internal/raft/raft_snapshot.go:44-51 | The detour sets `nextIndex` to 1 and `matchIndex` to 0, or steps down. |
| RaftServer.Server.ApplyNext | internal/raft/raft_apply.go:17-32 | One call hands over the entry after `lastApply`, or nothing when all committed entries are out. |
| Keys.PhysSplit | internal/mvcc/recover.go:28-34 | Cutting `key/rev` at its last slash gives back the key and the digits, even for a key that contains slashes. |
| Keys.PhysInjective | internal/mvcc/mvcc.go:33 | No two versions share a physical key. |
| Keys.DecVal | internal/mvcc/mvcc.go:33 | The decimal digits of a revision determine it. |
| MvccLog.GetAboveFloor | internal/mvcc/mvcc.go:79-109 | At version 0, and at any version not below the floor, compaction cannot be noticed: the answer is that of a store that keeps everything. |
| MvccLog.GetBelowFloor | internal/mvcc/mvcc.go:86-95 | Below the floor the answer is the ideal one or a failure, never a wrong value, and the ideal one exactly while its version is kept. |
| MvccLog.DropIsRaise | internal/mvcc/compact.go:87-106 | Dropping the versions superseded at or before `c` is exactly raising the floor to `min(c, currentRev)`, or nothing if it is there already, for any `c`. |
| MvccIndex.CompactKept | internal/mvcc/compact.go:35-62 | Visiting only the keys that the trimmed part of the revision index names drops the same versions as visiting every key. |
| MvccIndex.CompactStore | internal/mvcc/compact.go:64-69 | Deleting the collected physical keys leaves exactly the rows of the kept versions and the rows that are not versions. |
| MvccIndex.CompactRevisions | internal/mvcc/compact.go:35-47 | The trimmed revision index still names every write above the new floor, and the cut-off part names every key written since the last floor up to `c`. |
| MvccIndex.HistoryUnique | internal/mvcc/mvcc.go:38 | The version lists are determined by the write log and the floor. |
| MvccStore.RowsMatchHistory | internal/mvcc/compact.go:98-109 | A physical key is stored if and only if `history` lists the version. |
| MvccStore.CompactExact | internal/mvcc/compact.go:83-106 | After `Compact(c)` a key keeps its newest version at or before `c`, all later ones, and nothing else. |
| MvccStore.RowsUnique | internal/mvcc/compact.go:64-69 | Two stores of the same log and floor that agree outside the versioned keys are equal. |
| MvccStore.ReadLatestIsIdeal | internal/mvcc/mvcc.go:86-108 | Reading the row that `latest` names gives the newest write of the key, tombstones as not found. |
| MvccStore.Mvcc.constructor | internal/mvcc/mvcc.go:10-18 | A new store is empty and valid for the empty log. |
| MvccStore.Mvcc.Put | internal/mvcc/mvcc.go:21-47 | The write is appended to the log at the next revision and all three indexes and the rows still describe the log. |
| MvccStore.Mvcc.Delete | internal/mvcc/mvcc.go:50-76 | A deletion is one more write, a tombstone. |
| MvccStore.Mvcc.PutWithCAS | internal/mvcc/mvcc.go:121-153 | Succeeds if and only if no version is expected or the expected one is what `latest` has, which before a restart is the key's newest revision, tombstones included; on conflict nothing changes. |
| MvccStore.Mvcc.GetLatest | internal/mvcc/mvcc.go:112-117 | Reports what `latest` has, which before a restart is the newest revision of the key in the whole log, tombstones included. |
| MvccStore.Mvcc.Get | internal/mvcc/mvcc.go:79-109 | In every reachable state the answer is that of the write log compacted to the floor, on all four outcomes. |
| MvccStore.FindLE | internal/mvcc/mvcc.go:177-193 | The binary search finds the largest element up to the target, or 0. |
| MvccStore.Mvcc.Compact | internal/mvcc/compact.go:29-73 | For any `c`, small, decreasing or past the end: the log is unchanged, the floor rises to `min(c, currentRev)`, a version's row remains if and only if it was there and is later than `c` or the newest up to `c`, and no other row is touched. |
| MvccStore.Mvcc.CompactKey | internal/mvcc/compact.go:76-112 | The two loops keep exactly the versions with no later version at or before `c`, and collect exactly the others' physical keys. |
| MvccStore.Mvcc.BatchDelete | internal/db/badger.go:166-182 | Exactly the listed keys disappear. |
| MvccRebuild.CollectedAll | internal/mvcc/recover.go:27-41 | Once every row is seen, in whatever order, the collected lists hold exactly the kept versions of exactly the written keys. |
| MvccRebuild.LastRowKept | internal/mvcc/compact.go:76-112 | Compaction never drops the row that carries the current revision. |
| MvccRebuild.HighestIsCurrent | internal/mvcc/recover.go:36-39 | The highest version found is the revision counter before the restart. |
| MvccRebuild.SortSorted | internal/mvcc/recover.go:44-46 | Sorting a list of distinct versions puts it in strictly ascending order with the same elements. |
| MvccRebuild.SortedRevisions | internal/mvcc/recover.go:63-72 | The rebuilt revision index is in order and names every kept version, which is all a later compaction needs. |
| MvccRebuild.LatestRestoredIff | internal/mvcc/recover.go:49-59 | After a restart `latest` is exact for a key if and only if its newest version is not a tombstone. |
| MvccRebuild.RestartVisibleIff | internal/mvcc/recover.go:49-59 | A restart changes the answer to a read at version 0 if and only if the key is deleted while an older live version is still kept. |
| MvccRebuild.CompactedDeletionStays | internal/mvcc/recover.go:49-59 | A key whose newest write has been compacted reads the same after a restart. |
| MvccRebuild.DeletedKeyReturns | internal/mvcc/recover.go:49-59 | A put and a deletion, then a restart: the key reads as its old value. |
| MvccStore.Mvcc.Recover | internal/mvcc/recover.go:15-75 | From the rows of any reachable state the revision counter, the version lists and a revision index that covers the log are restored, and `latest` holds the newest version of each key that is not a tombstone. |
| MvccStore.Mvcc.RestoreLatest | internal/mvcc/recover.go:49-59 | The backward loop finds the newest stored version that is not a tombstone, or enters nothing. |
| MvccStore.ReadRebuilt | internal/mvcc/mvcc.go:86-90 | What a read at version 0 answers after a restart: the newest kept live version. |
| MvccStore.RestartThenCompact | internal/mvcc/recover.go:63-72 | A restart, then any compaction, ends with the same rows, version lists and revision counter as the compaction alone. |
| MvccScan.ScanOfMatch | internal/mvcc/prefix.go:19-33 | A key that starts with the prefix is reported at its latest version and value, or left out if deleted. |
| MvccScan.ScanWrongIff | internal/mvcc/prefix.go:7-29 | The scan errs about a key if and only if the prefix is the key, a slash and digits (or none), and a live version of it is stored whose physical key starts with the prefix while no newer stored one does. |
| MvccScan.ScanRightIff | internal/mvcc/prefix.go:6-45 | The scan as a whole is right if and only if no such row is stored. |
| MvccScan.ScanRight | internal/mvcc/prefix.go:6-45 | If no stored key is of that form the scan is right about every key. |
| MvccScan.StrayIsReported | internal/mvcc/prefix.go:7-33 | The scan for "a/1" reports the key "a", at a version that has been overwritten. |
| MvccStore.Mvcc.PrefixScan | internal/mvcc/prefix.go:6-45 | Both loops, in any iteration order: a key is reported, once, exactly with its newest matching stored version, unless that is a tombstone. |
| KvExactlyOnce.ExactlyOnce | internal/kv/kv_handle.go:11-32 | Applying any log with repeats ends in the same store and the same tables as applying only the entries whose number exceeds all earlier ones of their client. |
| KvExactlyOnce.LastIsHighest | internal/kv/kv_handle.go:26-28 | After any log `lastRequest` is the highest number seen of each client; a Batch ends at its own number, whatever sub-numbers it used. |
| KvExactlyOnce.TakesEffectIff | internal/kv/kv_handle.go:13-16 | An entry passes the dedup test if and only if it is the first of its client with so high a number. |
| KvExactlyOnce.RepeatOfLatest | internal/kv/kv_handle.go:13-16 | Repeating a client's latest request of its table (transactions, or all others), after any further log, changes nothing and is answered as the first time. |
| KvExactlyOnce.RepeatOfOlder | internal/kv/kv_handle.go:190-193 | Repeating any request after any log changes nothing; it gets the answer to the last entry of its client and table that took effect since, and so its own if and only if there is none or that one was answered alike. |
| KvExactlyOnce.RepeatAfterNewer | internal/kv/kv_handle.go:13-16 | In request numbers: once a newer request of the table took effect and no still newer one followed, repeating an older one returns the newer one's answer. |
| KvReplicas.CompactionsInvisible | internal/kv/kv_apply.go:56-132 | Leaving the compactions out of a log changes no write, no table and no answer to any other entry except reads at a version. |
| KvReplicas.ReplicasAgree | internal/kv/kv_apply.go:56-132 | Replicas of the same entries, each with compactions of its own anywhere, have the same writes, latest revisions, tables and answers. |
| KvReplicas.ReplicasReadAlike | internal/kv/kv_handle.go:80-98 | They answer alike every read at version 0 or at a version not below either floor. |
| KvReplicas.CutsInvisible | internal/kv/kv_apply.go:13-53 | If every command can be read, where the log is cut into batches makes no difference to what is applied. |
| KvReplicas.NodesAgree | internal/kv/kv_apply.go:56-132 | End to end with Raft: of two nodes of a sparing run, at any two times and with any cuts into batches, the one that was handed less is in the state, and gave the answers, that the other had at that point of the log, if what was handed can be read. |
| KvServer.KvServer.PutInternal | internal/kv/kv_handle.go:34-72 | A conflict reports the newest revision and writes nothing; a write is notified once with its revision. |
| KvServer.KvServer.DeleteInternal | internal/kv/kv_handle.go:118-133 | A deletion is written and notified once. |
| KvServer.KvServer.GetInternal | internal/kv/kv_handle.go:80-98 | Any failure of the store is reported as a missing key. |
| KvServer.KvServer.HandlePut | internal/kv/kv_handle.go:11-32 | Store, tables (in memory and written through) and reply are those of the entry's meaning, repeats and conflicts included. |
| KvServer.KvServer.HandleDelete | internal/kv/kv_handle.go:100-117 | The same for a deletion. |
| KvServer.KvServer.HandleBatch | internal/kv/kv_handle.go:136-169 | The sub-requests numbered `R+1..R+n` suppress no entry and leave nothing behind: the effect is all entries in turn and one recorded answer under `R`. |
| KvServer.KvServer.HandleTxn | internal/kv/kv_handle.go:188-217 | Store, tables and reply are those of the entry's meaning, which `KvAnswers.TxnMeaning` spells out; repeats are answered from the transaction table. |
| KvServer.KvServer.CompareAll | internal/kv/kv_handle.go:220-228 | True if and only if every comparison holds. |
| KvServer.KvServer.Compare | internal/kv/kv_handle.go:231-255 | The comparison is with the newest revision, 0 for a key never written, a tombstone's for a deleted one; an unknown kind never holds. |
| KvServer.KvServer.ExecuteEntries | internal/kv/kv_handle.go:258-286 | Each read sees the writes of the entries before it; missing keys are left out of the results. |
| KvServer.KvServer.ExpireByKey | internal/kv/kv_handle.go:172-185 | An expiry is a deletion outside the dedup tables. |
| KvServer.KvServer.HandleCompact | internal/kv/kv_compact.go:53-60 | A compaction entry raises the floor, sets the watchers' compact revision and changes nothing else. |
| KvServer.KvServer.ApplyBatch | internal/kv/kv_apply.go:56-145 | The batch loop applies the entries, sends the answers and leaves waiting the clients that `KvWaiting.OpsAreReached`, `KvWaiting.AnsweredOnce` and `KvWaiting.LeftIff` describe. |
| KvWaiting.OpsAreReached | internal/kv/kv_apply.go:58-69 | What a batch applies are exactly the entries before the first unreadable message, in order. |
| KvWaiting.WaiterAnswered | internal/kv/kv_apply.go:73-127 | A client that waits in the channel map of an entry's kind for the index of an entry that is reached, and was not served before, is sent the answer to that entry in the state it met. |
| KvWaiting.AnsweredOnce | internal/kv/kv_apply.go:73-127 | If the log hands out that index once, it is answered exactly once. |
| KvWaiting.LeftIff | internal/kv/kv_apply.go:73-127 | After a batch exactly those still wait whose index no entry of their kind has had. |
| KvWaiting.EventsTellAll | internal/kv/kv_handle.go:60-66 | The last event of a key up to any revision tells what the key holds then. |
| KvAnswers.GetMeaning | internal/kv/kv_handle.go:73-98 | A Get entry at version 0, or at one from the floor up, is answered with the last live write to the key up to there, or with a missing key exactly if there is none; below the floor the same as long as that write is not superseded up to the floor. |
| KvAnswers.PutMeaning | internal/kv/kv_handle.go:34-72 | A fresh Put with an expected version other than 0 and the key's last write is refused with that write's revision and writes nothing; otherwise it is the next write and answered with its revision. |
| KvAnswers.DeleteMeaning | internal/kv/kv_handle.go:100-133 | A fresh Delete is the next write, a tombstone, and answered with its revision. |
| KvAnswers.BatchMeaning | internal/kv/kv_handle.go:136-169 | A fresh Batch adds exactly one write for each of its Put and Delete entries, in order, and is answered with the last revision. |
| KvAnswers.TxnMeaning | internal/kv/kv_handle.go:188-286 | A fresh transaction succeeds exactly if every comparison, by its kind, holds for the revision of the key's last write; it adds exactly one write for each Put and Delete of the success list, or else of the other list, in order, and one result, in order, for each Get that finds its key alive after the writes before it. |
| KvAnswers.OtherEffects | internal/kv/kv_apply.go:56-132 | Expiries delete, compactions raise the floor to no more than what is written, and repeats, reads and unknown kinds change nothing. |
| KvServer.SendsAnswer | internal/kv/kv_apply.go:75-131 | Whatever is sent goes to a client that waits for that index and is the answer to that entry, in the state all entries before it lead to. |
| KvServer.SplitVisibleIff | internal/kv/kv_apply.go:64-67 | Cutting a batch in two changes what is applied if and only if the first part has an unreadable message and the second part something to apply. |
| LockSpec.LockKeysDiffer | internal/lock/lock.go:23-30 | Lock keys are equal if and only if resource, client and request are, for names with slashes and negative numbers too. |
| LockSpec.ScanIsContenders | internal/lock/lock.go:57-59 | The predecessor scan reports exactly the live keys under the resource's prefix and possibly the one key that is the prefix without its last slash, each at its latest revision. |
| LockSpec.LockEffect | internal/lock/lock.go:33-53 | A fresh lock request succeeds if and only if its key was never written, and then its answer carries the key's revision. |
| LockSpec.UnlockEffect | internal/kv/kv_lock.go:70-87 | A fresh unlock deletes the key if and only if the version is its newest revision. |
| LockSpec.OncePutRun | internal/kv/kv_handle.go:231-241 | If only lock transactions put keys under "/lock/", then in every run a lock key is put at most once, as its first write. |
| LockSpec.MutualExclusion | internal/lock/lock.go:105-114 | Under that discipline, at any log position at most one live lock of a resource has passed the predecessor check, whatever older prefixes the checks read. |
| LockSpec.BothHoldOnlyIf | internal/lock/lock.go:65-76 | Without the discipline, two live locks of a resource have both passed only if the prefix that the later one's check read has the earlier one's key written again. |
| LockSpec.StopsIff | internal/lock/lock.go:65-76 | A lock stops the ones behind it if and only if its creation is its key's newest write. |
| LockSpec.UndisciplinedPut | internal/lock/lock.go:65-76 | That happens: two lock requests and a plain Put on the first one's key, and both locks are alive and have passed. |
| LockSpec.ExpiredGetsThrough | internal/lock/lock.go:105-114 | A log after which a request that had to wait has nobody ahead although its own key expired while it waited. |
| LockSpec.PassedStays | internal/lock/lock.go:65-80 | A check that passed would pass at every later position: grants follow revision order. |
| LockSpec.DeletedLeaves | internal/lock/lock.go:94-99 | A lock key that is deleted, or written in any way, loses its place for good and nobody enters ahead of a given revision, so the queue ahead strictly shrinks. |
| LockSpec.StaleLockAnswer | internal/kv/kv_lock.go:26-49 | A lock request repeated after the same client's unlock is answered with success and the deletion's revision while no lock key exists. |
| LockManager.FindPredecessor | internal/lock/lock.go:55-81 | Returns the live contender with the highest revision below the given one, or nothing exactly if there is none. |
| LockManager.WaitLock | internal/lock/lock.go:84-103 | With a watcher manager it returns nil if and only if the target was never written when its watch is registered or is deleted after that; it fails only when nothing more happens; without a watcher manager it panics. |
| LockManager.WaitUntilAcquire | internal/lock/lock.go:105-124 | Whatever is applied meanwhile, the number of rounds is at most the number of live locks ahead at the start, which strictly falls each round; success means nobody is ahead; failure means that the whole log was applied and some key that was ahead is not deleted after its watch was registered; if nothing is applied between search and registration, it succeeds exactly if nobody is ahead in the end (under the discipline); it panics if and only if there is no watcher manager and somebody is ahead at the first check. |
| LockManager.LostWakeUp | internal/lock/lock.go:84-91 | Two lock requests, and the first one's key expires: the second is woken if and only if the expiry is applied after its watch is registered, though nobody is ahead either way. |
| LockManager.ExecuteTxn | internal/kv/kv_lock.go:113-136 | The caller gets the answer to whatever transaction is applied at its index, if its channel is registered by then, and otherwise the time-out; the server applies the entry in any case. |
| LockManager.Lock | internal/kv/kv_lock.go:12-67 | For any entry found at the index: a granted request has nobody ahead of the revision it reports; if that entry is a fresh lock request, the key was put at that revision if and only if it is the request's own, and then the lock holds at the grant if and only if its key was not written since. A transaction that succeeds with nobody ahead is granted at once, one that fails is refused, any other entry ends in a time-out, an unknown lease submits nothing, a wait that fails had all of the log applied and is stuck at a key not deleted after its watch, and without a gap it is granted exactly if nobody is ahead in the end; there is no reply if and only if there is no watcher manager and the transaction found succeeds behind somebody. |
| LostRequests.LostLockGranted | internal/kv/kv_lock.go:112-128 | For any two lock requests with different keys there is an in-order run in which the node one client submitted to hands over the other's request at the awaited index; what is sent to the client is that one's success, nobody is ahead, and the own key has no write. |
| LostRequests.GrantedWithoutKey | internal/kv/kv_lock.go:26-66 | The lock handler then grants the request at revision 1, with its key never written. |
| LostRequests.LostPutConfirmed | internal/kv/kv_put.go:24-44 | The same for two puts: the client whose put was lost is sent the other's OK. |
| Wal.ParseIff | internal/wal/wal.go:107-163 | A file loads as a list of records if and only if it is exactly their framing and each data part is shorter than 2^32 bytes. |
| Wal.CutAnywhere | internal/wal/wal.go:125-148 | A file cut at a record boundary loads the records before the cut; cut anywhere else it fails with no records, and not as corrupt. |
| Wal.LengthReadBack | internal/wal/wal.go:85 | The length read back through the wrapping 32-bit field is the length written if and only if it is below 2^32. |
| Wal.FilesRoundTrip | internal/wal/wal.go:115-160 | Several files load as the concatenation of what was written to each. |
| Wal.Wal.Write | internal/wal/wal.go:78-104 | The file becomes the framing of one more record; a closed log refuses. |
| Wal.Wal.LoadAll | internal/wal/wal.go:107-163 | The loops compute the parse of every file in turn, discarding everything on the first failure. |
| Wal.WriteThenLoad | internal/wal/wal.go:56-163 | Appending to a file that loads as some records: it then loads as those followed by what was written. |
| WatchTree.Trie.Insert | internal/watch/tree.go:12-25 | The watcher is added at its prefix and the contents at every other prefix stay. |
| WatchTree.Trie.Match | internal/watch/tree.go:28-55 | Returns exactly the registered watchers whose key is a prefix of the given key, each once. |
| WatchTree.Trie.Remove | internal/watch/tree.go:58-79 | Exactly the watcher with that number at that prefix goes, and nothing else anywhere. |
| WatchManager.WatcherManager.constructor | internal/watch/watch.go:5-13 | A new manager has no watchers and gives out numbers from 1. |
| WatchManager.WatcherManager.Register | internal/watch/watch.go:16-45 | The new watcher gets a number never used before and stands in exactly one index, by prefix or exact, synced or not. |
| WatchManager.WatcherManager.AddWatcher | internal/watch/watch.go:48-86 | The same for an exact watcher. |
| WatchManager.WatcherManager.RemoveWatch | internal/watch/watch.go:118-140 | Removes the watcher from whichever index holds it, if the key is the one it was registered under, and no other; closes its channel exactly if it was not a prefix watcher. |
| WatchManager.WatcherManager.MoveToSynced | internal/watch/watch.go:143-156 | Moves exactly an unsynced exact watcher; it is never in two indexes. |
| WatchManager.WatcherManager.Targets | internal/watch/watch.go:92-102 | The collected list is every synced exact watcher of the key and every prefix watcher whose key is a prefix of it, each once. |
| WatchManager.WatcherManager.Notify | internal/watch/watch.go:89-115 | Every matching watcher with room is sent the event once and moves to the next revision, every matching one without room is unregistered (an exact one's channel is closed), and nobody else notices anything. |

## Left out

- Raft restart, persistence and its write-ahead log records: term, vote and log are overwritten at start
  (`internal/raft/raft.go:195-221`), so the model has no restart.
- Raft snapshots beyond the branch taken while nothing is compacted: `Snapshot` cuts at the last log index, so the usual
  safety claims would not follow.
- Membership change: peers are re-indexed on apply, outside fixed quorums. `peerGen` checks are left out with it.
- ReadIndex: its counter counts responses, not distinct peers.
- Timers, and that elections succeed in time; `RaftAvailability` proves that they always can.
- RPC transport, TLS, configuration, command-line programs and client retry loops.
- Fixed-width integers (int32 terms and indexes, int64 revisions and request numbers) outside the log framing, and the
  `Index` field of log entries, which no modelled step reads.
- RaftServer.Server.MakeAppend: the leadership check is taken as part of the same step, which the source does not do.
- RaftSafety.StateMachineSafety: asks that no handled message cuts into what was confirmed; without any such order the
  property is false (`RaftRuns.UnsafeWithoutOrder`).
- MvccStore.Mvcc.Recover: `latest` is characterised exactly instead of promised restored, because the code does not
  restore it.
- MvccStore.Mvcc.PrefixScan: exact for what the code returns instead of the intended result, which it does not always
  return; the source's scan does not hold the store's lock, the model's is one step.
- KvServer.KvServer.Apply: `Grant`, `KeepAlive` and `CONFIG_CHANGE` entries are taken to have no effect on store or tables
  and their replies are not modelled; snapshot messages are left out.
- KvServer.KvServer.PutInternal: leases attached to a put are left out, as is everything that depends on the clock at
  apply time; an expiry enters as the log's own `Expire` entry.
- KvServer.KvServer.ExpireByKey: the removal of the lease is left out with the leases.
- KvReplicas.NodesAgree: nothing is promised about a log with a command that cannot be read; `KvServer.SplitVisibleIff`
  says why.
- KvServer.KvServer.ApplyBatch: `Grant`, `KeepAlive`, `CONFIG_CHANGE` and snapshot messages are left out as under `Apply`;
  the channel of a waiting client is a list of what was sent, and blocking sends are not modelled.
- KvServer.KvServer.PersistDedup: the stored table row is the fact that it equals memory; a crash between a write and
  its table row is outside a model without restarts.
- LockManager.WaitLock: the deadline is the point where the remaining log is used up, and events are what the server
  notified, without the channel's capacity; that every deletion wakes the waiter is not promised, because one that is
  applied before the registration does not (`LockManager.LostWakeUp`).
- LockManager.Lock: the refusal when the node is not leader ends before anything modelled here; when nothing is sent the
  reply is taken to be the handler's own time-out, not the caller's deadline, which would make it INTERNAL_ERROR.
- LostRequests.LostLockGranted: that the entry is the request's own is not promised, because the code does not check it;
  `RaftSafety.OwnEntryIff` says when it is.
- WatchManager.WatcherManager.Notify: sends and removals are one step, and clients take events out between calls only.
- Watch history replay: it skips tombstones and has a hand-over window.
- Serialize and Deserialize of the store: a plain copy out and back.
- KvServer.KvServer.HandlePut: like all handlers of the apply layer, it is stated for a server that has not restarted, where
  `latest` is exact.
- Lease bookkeeping and expiry scanning: they depend on the clock.
