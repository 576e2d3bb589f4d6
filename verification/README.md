# Verified models of a replicated log, a sharded cache and its checker

A Dafny model of the parts of this repository whose correctness depends on
interleavings, crashes and clocks, with proofs about every run of them.
`dafny verify dfyconfig.toml` checks the whole project.

| files | what they model |
|---|---|
| `RaftState`, `RaftNode` | one Raft server's replication code (lab 3): what each handler computes, and the object that does it in place |
| `RaftProtocol`, `RaftSafety` | the whole cluster: leaders append and send, messages are delayed, repeated, reordered or lost, servers crash; safety of every reachable state |
| `RaftEffects` | what messages and replies must bring about: commit indices travel, later terms depose |
| `RaftBackoff` | the retry loop with conflict back-off, what a message can erase, committing by counting |
| `RaftRuns`, `RaftHazard`, `RaftErasure` | runs that end in an inherited commit, a lowered match index, a loop that never ends, an erased entry |
| `CrashRestart`, `CrashCalls` | the simulated network and the tester that kills and restarts instances: a positive reply is durable, and given exactly when it should be |
| `Checker`, `CheckerSoundness`, `CheckerDetection` | the consistency checker of the stress test (lab 4): its verdicts under every interleaving of writers and readers, and exactly which history of writes each one means |
| `Shard`, `KvServer`, `Client`, `ClientReads` | one shard with lazy expiry, the node that serves shards, the client and what it reads |
| `ShardMap`, `Replicas` | validity of a shard map; adding, dropping, moving and draining |
| `Cluster`, `ClusterSafety`, `ClusterClients`, `ClusterMoves`, `ClusterHazard` | nodes that drop and copy shards while the map changes: no key is lost, changed or revived; whole Sets and Deletes; moves from beginning to end; runs in which a live key is not found |
| `Basics` | a few notions used throughout |
| `Ranker`, `Pipeline` | the recommendation request (lab 1): batching, deduplication, ranking, fallback, counters |

A protocol is a `Step` datatype, an `Enabled` predicate and a `Next` function.
A state is reachable when some finite sequence of enabled steps leads to it from
the initial state, and a theorem that requires `Reachable` holds after every such
sequence. History variables (`Reign`, `sentLog`, `synced`, `Fact`, `sent`, `overlapped`, `Past`) record
what happened and never influence a step.

## What the code does not do

Each of these is stated by the lemma or contract named with it.

- The back-off loop does not always end, because the skip stops at the follower's
  commit index (lab3/raft/my_util.go:197). Call the least of the follower's commit
  index, its last index and the first index tried the floor. The loop ends exactly
  when the two logs agree at the floor (`RaftBackoff.BackoffEndsIff`);
  `RaftErasure.AsksForever` is a run that leads to a pair for which it never does.
- A follower can accept a message that removes entries it has committed, and its
  commit index can then lie outside its log. A delivery does so exactly when the
  message is of a current term and not out of order, starts below the last entry the
  follower has committed, at an entry both have, and conveys a log without that last
  entry (`RaftBackoff.DeliveryErasesIff`). `RaftErasure.ErasesSecond` is a run in which it happens.
  Both runs need the election of a server that lacks a committed entry, which the
  election step of this model allows because votes are not part of it.
- Match indices can go down: exactly when a success reports less than the match
  index but more than the next index, which a late refusal has lowered before
  (`RaftState.MatchLoweredIff`, `RaftHazard.LowersMatchIndex`).
- `updateCommitIndex` looks at no terms. A leader can commit an entry of an earlier
  term by counting copies, which section 5.4.2 of the extended Raft paper forbids;
  the guard on the last sent entry (lab3/raft/my_util.go:130) does not prevent it. The new
  commit index lands on an entry of the leader's own term exactly when one of its own
  entries has a majority (`RaftBackoff.CommittedTermIffMajorityInOffice`), and
  `RaftHazard.CommitsInheritedEntry` is a run of four servers where it does not.
- The scan of `updateCommitIndex` goes one index past the log, and a follower takes the
  leader's commit index without the minimum of Figure 2 of that paper. Both
  are harmless (`RaftState.ScanStaysInside`, `RaftSafety.CommitStaysInside`).
- The instructions say a shard must not be served until its copy is complete
  (lab4/lab4.md:719). The code puts it in service first (lab4/kv/server.go:202-208), so
  a replica can answer "not found" for a live key. A hosted node serves a live key
  exactly when it is not still copying the shard
  (`ClusterSafety.ServedIffNotBeingCopied`, `ClusterHazard.MissesWhileCopying`).
- The client cuts a time to live to whole milliseconds (lab4/kv/client.go:76), so a value
  is sure to be served until start plus time to live exactly if that is whole milliseconds
  (`ClusterSafety.CutLoses`, `ClusterSafety.ReadYourWrites`, `ClusterHazard.ExpiresEarly`).
- The checker can report a correct "not found": the comparison at
  lab4/checker/checker.go:199 is strict. With no failed writes it happens exactly when
  the check falls on the instant of the read and no value was due before
  (`CheckerSoundness.MissingOnlyAtTheSameInstant`, `MissingWhenClockStandsStill`).
- Draining the only node of a cluster loses its shards; otherwise draining loses
  nothing (`Replicas.DrainNode`). `IsValid` rejects every state with a negative
  number of shards (`ShardMap.IsValid`).
- A recommendation request that fails while the fallback is enabled but empty
  is not counted among the errors
  (lab1/video_rec_service/server_lib/server_lib.go:181-184, 390-396;
  `Counted` in `Pipeline.VideoRecServer.GetTopVideos`).

## Assumptions

- The Raft struct, `Start`, elections, `persist` and `Make` (lab3/raft/raft.go) are not
  part of this model; that file does not hold them. They are steps of the environment: slot
  0 of the log is a sentinel of term 0; `Start` appends one entry of the leader's term;
  `persist` saves the term and the log; a restart keeps exactly those; at most one server
  leads a term; a new leader's next indices are one past its log, its match indices of
  others are 0, its own is any index of its log, and its commit index is within its log.
  Any server may become the leader of a new term, so nothing here rests on votes.
- Timers, sleeps and goroutine scheduling are the freedom to take any enabled step.
- In the checker model every write uses a new value, as the stress test does; a
  successful write has reached every replica.
- In the cache model, remote calls to a node that hosts the shard succeed, one client
  operation runs at a time (the client holds a mutex), clients write only to shards
  whose list of nodes the map change under way leaves alone, and map changes are
  graceful: a hosted shard keeps one of its nodes and gains at most one. Reads may come
  at any moment. The values of a copy are stored at one instant.
- The hash functions are parameters. Random choices are any choice.

## Model

| member | source | states |
|---|---|---|
| RaftState.MakeAppendEntriesArgs | lab3/raft/my_util.go:35-65 | the message's previous entry is in the leader's log, and the prefix up to it followed by the entries sent is the whole log |
| RaftState.BelowRun | lab3/raft/my_util.go:192-200 | the back-off skips a run of one term and nothing else, stops at its lower end, and never goes below the commit index |
| RaftState.HoldersMonotone | lab3/raft/my_util.go:218-234 | fewer servers hold a higher index |
| RaftState.HoldersCountsHolderSet | lab3/raft/my_util.go:219-230 | the count is the size of the set of servers whose match index is high enough |
| RaftState.ScanFindsLargest | lab3/raft/my_util.go:215-239 | stopping at the first index without a majority still finds the largest index with one, and never moves the commit index back |
| RaftState.ScanStaysInside | lab3/raft/my_util.go:218-234 | although its limit is one too far, the scan never leaves a log that bounds the match indices |
| RaftState.MatchLoweredIff | lab3/raft/my_util.go:119-142 | a reply lowers a match index if and only if it is a current success that reports less than the match index but more than the next index |
| RaftNode.Persister.Copy | lab3/raft/persister.go:30-37 | a new object with the same content |
| RaftNode.Raft.MakeArgs | lab3/raft/my_util.go:35-65 | builds exactly the message described by `MakeAppendEntriesArgs` |
| RaftNode.Raft.AppendEntries | lab3/raft/my_util.go:151-213 | new state and reply are those of `HandleAppendEntries` in all branches, and what is held is saved; what those must be is stated by `RaftEffects.CommitTravels`, `RaftEffects.MessageDeposes`, `RaftBackoff.RefusalTells` and `RaftBackoff.LateIsHarmless` |
| RaftNode.Raft.HasMajority | lab3/raft/my_util.go:219-230 | leaving the count early decides a strict majority of the match indices correctly |
| RaftNode.Raft.AdvanceCommitIndex | lab3/raft/my_util.go:215-239 | the nested loops compute `ScanCommit` and change nothing but the commit index |
| RaftNode.Raft.ReceiveReply | lab3/raft/my_util.go:108-148 | new state is that of `HandleReply`, of which `RaftEffects` says what it must be; the loop goes on exactly after a refusal of a current message to a server still leading |
| RaftSafety.AcceptedIsSentLog | lab3/raft/my_util.go:170-191 | an accepted message leaves exactly the log the leader had when it sent the message, in any state of the invariant |
| RaftSafety.AcceptedExtends | lab3/raft/my_util.go:170-191 | within a term an accepted message never shortens or rewrites the follower's log |
| RaftSafety.StepKeepsInv | lab3/raft/my_util.go:35-239 | every step of the cluster keeps the invariant: entries stem from their term's leader under the same prefix, messages and replies in flight are true, match indices are backed by stored logs |
| RaftSafety.RunKeepsInv | lab3/raft/my_util.go:35-239 | every run keeps the invariant |
| RaftSafety.LogMatching | lab3/raft/my_util.go:151-213 | Log Matching: two logs present anywhere (memory, disk, in flight) with the same term at an index agree up to it, in every reachable state |
| RaftSafety.AcceptanceCopiesLeader | lab3/raft/my_util.go:170-210 | in every reachable state, an accepted message makes the follower's log and disk the log the leader sent from |
| RaftSafety.NoRegressionWithinTerm | lab3/raft/my_util.go:171-191 | once synced with a term's leader, a server's log only grows while it stays in the term, over every run including stale messages and crashes, and remains a snapshot of that leader's log |
| RaftSafety.MatchIndexSound | lab3/raft/my_util.go:125-129 | in every reachable state a leader's match indices lie in its log, and a peer in no later term has that prefix on disk |
| RaftSafety.CommitStaysInside | lab3/raft/my_util.go:204-207 | whichever step of a run raises a commit index, it stays inside the log and commits a prefix of the log of the term's leader |
| RaftSafety.HistoryExtends | lab3/raft/my_util.go:35-65 | over every run the history of a term's leader only grows |
| RaftSafety.CommitAgreement | lab3/raft/my_util.go:204-207 | over every run: whatever two of its steps commit under the leader of the same term, at any servers and with any raises, crashes or restarts between, is one a prefix of the other |
| RaftSafety.CommitNeedsMajority | lab3/raft/my_util.go:215-239 | when a leader raises its commit index, a strict majority of the servers stores its log up to there or has left the term |
| RaftEffects.CommitTravels | lab3/raft/my_util.go:204-207 | in every reachable state an accepted message, with entries or without, leaves the receiver with the larger of the two commit indices and all the sender had committed; a refused one leaves log and commit index alone |
| RaftEffects.MessageDeposes | lab3/raft/my_util.go:154-163 | a message of a current term makes the receiver a follower in it, accepted or not; a stale one changes nothing and is answered with the later term |
| RaftEffects.ReplyDeposes | lab3/raft/my_util.go:109-118 | after any reply a server is in the larger of the two terms, in memory and on disk, and a follower if the reply's was larger |
| RaftEffects.StaleReplyIgnored | lab3/raft/my_util.go:119-124 | a reply to a message of another term, or to a server no longer leading, changes nothing |
| RaftEffects.SuccessIsNoted | lab3/raft/my_util.go:125-129 | a success raises the next index to what it reports and sets the match index, unless the next index is already there |
| RaftEffects.OnlyOwnEntriesCount | lab3/raft/my_util.go:130-132 | only a current success of a message that ended with an entry of the leader's term moves its commit index, and then no higher index of the log has a majority |
| RaftBackoff.SkippingUsesOneRun | lab3/raft/my_util.go:192-200 | one skip uses up exactly one run of equal terms above the commit index |
| RaftBackoff.AcceptsIff | lab3/raft/my_util.go:165-202 | a round succeeds if and only if the logs have the same term where the leader starts, and then makes them equal |
| RaftBackoff.SuccessfulRound | lab3/raft/my_util.go:125-135 | everything a successful round leaves behind: the follower has the leader's log and the larger commit index, so all the leader had committed; the leader has noted it; nothing else changed but its commit index |
| RaftBackoff.SuccessCounts | lab3/raft/my_util.go:130-132 | the leader counts exactly when its last sent entry is of its own term, and then commits the largest index with a majority |
| RaftBackoff.RefusalTells | lab3/raft/my_util.go:165-202 | a refusal brings the leader to the end of a short log, or to the start of the conflicting run above the commit index |
| RaftBackoff.LateIsHarmless | lab3/raft/my_util.go:171-180 | a message overtaken by a longer one of its term leaves the follower's log and commit index, and its reply the leader, as they were |
| RaftBackoff.LaterTermDeposes | lab3/raft/my_util.go:109-118 | a round with a follower in a later term leaves the follower as it is and makes the leader a follower in that term |
| RaftBackoff.FloorAgreesMeans | lab3/raft/my_util.go:192-200 | the same term at the floor (the least of the follower's commit index, its last index and the first index tried) is agreement of the logs up to there |
| RaftBackoff.RoundMakesProgress | lab3/raft/my_util.go:125-147 | where the logs agree at the floor, a refusal keeps the floor, lowers the next index strictly to above it and above the commit index, and uses part of the budget; an acceptance makes the logs equal |
| RaftBackoff.StuckRound | lab3/raft/my_util.go:192-200 | where they do not, the round refuses, changes only term, role and next index, and they still do not |
| RaftBackoff.Exchange | lab3/raft/my_util.go:70-147 | one pass of the loop is one round of the specification, for an answered, a late and a lost call |
| RaftBackoff.SendAppendEntries | lab3/raft/my_util.go:67-149 | over any sequence of lost, late and answered calls: if the logs agree at the floor, the loop succeeds once more calls are answered than the follower has runs of terms above its commit index (plus one for a short log), never sees more refusals, and ends with equal logs, the larger commit index and all the leader had committed; otherwise it never succeeds |
| RaftBackoff.BudgetBounded | lab3/raft/my_util.go:166-200 | that bound in terms of the follower's log alone |
| RaftBackoff.StuckThroughout | lab3/raft/my_util.go:197-200 | a pair that does not agree at the floor refuses every round, however many |
| RaftBackoff.BackoffEndsIff | lab3/raft/my_util.go:136-147 | for every pair, given more rounds than the budget, one succeeds if and only if the logs agree at the floor |
| RaftBackoff.CommittedElsewhere | lab3/raft/my_util.go:197-200 | a concrete pair that refuses forever |
| RaftBackoff.HandlingErasesIff | lab3/raft/my_util.go:151-213 | the handler removes an entry the server has committed if and only if the message is of a current term, not out of order, starts below the last such entry at an entry the server shares, and conveys a log without that last one |
| RaftBackoff.DeliveryErasesIff | lab3/raft/my_util.go:151-213 | the same of every delivery in every reachable state, however late or often the message is delivered |
| RaftBackoff.ErasesCommittedIff | lab3/raft/my_util.go:181-191 | the same of a round between a pair, whose message is always current and in order |
| RaftBackoff.ErasesCommitted | lab3/raft/my_util.go:181-191 | a concrete pair where that happens in the first round, leaving the commit index outside the log |
| RaftBackoff.ReachablePair | lab3/raft/my_util.go:67-149 | every leader and every server in no later term, in every reachable state, is a pair as all of the above require |
| RaftBackoff.CommittedTermIffMajorityInOffice | lab3/raft/my_util.go:130-132 | in every reachable state, a count commits up to an entry of the leader's own term if and only if an entry of its own term has a majority |
| RaftHazard.CommitsInheritedEntry | lab3/raft/my_util.go:130-132 | a reachable state of four servers and a reply on which the leader commits an entry of an earlier term only |
| RaftHazard.LowersMatchIndex | lab3/raft/my_util.go:126-142 | a reachable state of four servers and a late reply that takes a match index from 2 to 1 |
| RaftErasure.AsksForever | lab3/raft/my_util.go:197-200 | a reachable state of three servers with a leader and a follower that refuses every round |
| RaftErasure.ErasesSecond | lab3/raft/my_util.go:181-191 | a reachable state of three servers and a message that removes a committed entry and leaves the commit index outside the log |
| CrashRestart.FinishKeepsInv | lab3/labrpc/labrpc.go:264-291 | a reply is given only by the registered instance, whose persister is still the node's, so the invariant survives the reply; when it is given is `CrashCalls.AnsweredIff` |
| CrashRestart.StepKeepsInv | lab3/labrpc/labrpc.go:192-291 | every step of calls, saves, crashes and restarts keeps the invariant |
| CrashRestart.RunKeepsInv | lab3/raft/config.go:104-133 | every run keeps it |
| CrashRestart.AcknowledgedIsDurable | lab3/labrpc/labrpc.go:264-270 | the effect of a positively answered call is in the node's saved state and in the birth state of every later instance, in every reachable state |
| CrashRestart.NextInstanceResumes | lab3/raft/config.go:184-229 | an instance starts from a state its predecessor had at or after its own start, including all it answered positively |
| CrashRestart.DeadInstanceCannotInterfere | lab3/raft/config.go:111-132 | once copied, a node's saved state is changed by no run in which the node gets no new instance |
| CrashRestart.CopyDetaches | lab3/raft/config.go:111-117 | the copy has the last saved content and belongs to no instance |
| CrashCalls.AnsweredIff | lab3/labrpc/labrpc.go:264-291 | a call whose handler returned, through any steps since it began, is answered positively if and only if the reply is not dropped, the end was last turned on and the server was not deleted since; otherwise it fails |
| CrashCalls.RegisteredUntilDeleted | lab3/labrpc/labrpc.go:192-216 | over every run a registered instance stays registered exactly until its server is deleted |
| CrashCalls.UndisturbedIsAnswered | lab3/labrpc/labrpc.go:218-291 | a call is answered if nothing turned its end off, deleted its server or dropped its reply, whatever else happened |
| CrashCalls.SavesItsMemory | lab3/raft/persister.go:39-43 | what an instance saves is all it has done, and while it is registered that is what its node will restart from |
| CrashCalls.CallCompletes | lab3/labrpc/labrpc.go:218-291 | wherever a call can begin, it can be carried through to a positive answer |
| CrashCalls.RestartCompletes | lab3/raft/config.go:184-229 | wherever the tester is idle at a node it can restart it, and the new instance begins with everything the node ever answered positively |
| CrashCalls.AnsweredThenRestarted | lab3/raft/config.go:104-133 | a reachable state with an answered call and a later instance that was born with it |
| Checker.ConsistencyChecker.BeginWrite | lab4/checker/checker.go:109-118 | counts the write and returns the version, for this key only |
| Checker.ConsistencyChecker.CompleteWrite | lab4/checker/checker.go:120-168 | panics exactly on a known value; otherwise the key's state becomes that of `CompleteWriteOn`, others stay |
| Checker.ConsistencyChecker.BeginRead | lab4/checker/checker.go:170-177 | returns the version and whether writes are in progress |
| Checker.ConsistencyChecker.CheckReadCorrect | lab4/checker/checker.go:179-224 | the verdict is that of `CheckReadOn`, which `CheckerSoundness` and `CheckerDetection` relate to the history of writes; only checks that were not skipped are counted |
| Checker.MoveAll | lab4/checker/checker.go:152-157 | in any iteration order, the overwritten values gain all current ones |
| Checker.AnyMaybeExpired | lab4/checker/checker.go:196-204 | the loop finds out whether there is no value or one past its earliest expiry |
| CheckerSoundness.AloneMeansEverywhere | lab4/checker/checker.go:151-158 | a successful write that was alone is on every replica, so dropping all other values is right |
| CheckerSoundness.StepKeepsInv | lab4/cmd/stress/tester.go:146-195 | every step of writers, replicas and readers keeps the invariant |
| CheckerSoundness.SkippedIffOverlapped | lab4/checker/checker.go:186-189 | version and count detect concurrency exactly: a check is skipped if and only if a write was in progress at some time since the read began |
| CheckerSoundness.NoFalseIncorrectValue | lab4/checker/checker.go:209-217 | under every interleaving, with any partial failures, a value read from a replica is never reported as overwritten or never written |
| CheckerSoundness.NoFalseExpired | lab4/checker/checker.go:218-221 | nor as expired |
| CheckerSoundness.MissingOnlyAtTheSameInstant | lab4/checker/checker.go:195-207 | with no failed writes, a correct "not found" is reported if and only if the check falls on the very instant of the read and no current value was due before it |
| CheckerSoundness.MissingWhenClockStandsStill | lab4/checker/checker.go:199 | a reachable state in which that happens |
| CheckerSoundness.CompletionNeverPanics | lab4/checker/checker.go:144-149 | with distinct values no completed write meets the duplicate panic |
| CheckerDetection.AloneIffNotOverlapped | lab4/checker/checker.go:151 | version and count tell a finishing write exactly whether another was in progress at any time since it began |
| CheckerDetection.StepKeepsHistory | lab4/checker/checker.go:120-168 | under every interleaving a finished write is filed as overwritten if and only if a successful write, alone from beginning to end, began after it had finished, and as current otherwise |
| CheckerDetection.FoundVerdictExact | lab4/checker/checker.go:208-222 | whatever value an unskipped read brings back: "never written" if and only if nobody wrote it, "overwritten" if and only if its write was superseded, "expired" if and only if it succeeded and its end plus time to live plus buffer lies before the read, else correct |
| CheckerDetection.MissingVerdictExact | lab4/checker/checker.go:195-207 | an unskipped "not found" is reported if and only if some write is current and no current one has passed its start plus time to live |
| CheckerDetection.LoneWriteSupersedes | lab4/checker/checker.go:151-158 | a successful write that nothing overlapped supersedes everything written before it |
| Shard.ExpiredIffDeadline | lab4/kv/server.go:302-307 | comparing whole milliseconds expires an entry exactly at stored time plus time to live |
| Shard.KvShard.Get | lab4/kv/server.go:79-87 | gives the answer of the lazily expiring shard that `LazyRefinesExact` speaks about; `Set` and `Delete` are its steps |
| Shard.KvShard.Cleanup | lab4/kv/server.go:54-66 | its two loops are the clean-up step of that shard: exactly the expired keys go |
| Shard.LazyRefinesExact | lab4/kv/server.go:54-103 | for every sequence of operations and clock moves, the lazily expiring shard answers as a map that removes entries at their deadline |
| Shard.CleanupUnobservable | lab4/kv/server.go:54-66 | a clean-up changes no answer to any later sequence of operations, and removes a key exactly if its deadline has passed |
| Shard.CopyDrift | lab4/kv/server.go:403-411 | one copy delays a deadline by the time it took plus less than a millisecond |
| Shard.MigrationDrift | lab4/kv/server.go:215-219 | over any number of copies the delay is between the sum of the copy times and that plus less than a millisecond each, and the value stays |
| ShardMap.CheckNodes | lab4/kv/shardmap.go:45-58 | accepts exactly lists of different, known nodes |
| ShardMap.IsValid | lab4/kv/shardmap.go:36-61 | true if and only if the number of shards is not negative and all shards are in range with different, known nodes |
| ShardMap.Pigeonhole | lab4/kv/shardmap.go:37-44 | shards in range are never more than the number of shards, so the first test is implied |
| ShardMap.ShardsForNode | lab4/kv/shardmap.go:136-147 | the shards of a node, all of them, and each once if no list names a node twice |
| ClusterSafety.StepKeepsInv | lab4/kv/server.go:172-233 | every step of updater, nodes, clean-up and client keeps the invariant |
| ClusterSafety.RunKeepsInv | lab4/kv/server.go:172-233 | every run keeps it |
| ClusterSafety.UpdateKeepsAndDrops | lab4/kv/server.go:172-233 | from the publication of a map on, in any interleaving, a kept shard is served with its data, changed only by clients and clean-up at that node; once the update has returned, a node hosts exactly the shards of the new map |
| ClusterSafety.SourceIsComplete | lab4/kv/server.go:134-150 | the replica a shard is copied from is never itself still copying it |
| ClusterSafety.NothingPromised | lab4/kv/server.go:148-149 | when no replica can be asked, there was no live key to copy |
| ClusterSafety.ReplicaAnswers | lab4/kv/server.go:309-342 | a replica that is not copying returns the last set value until its promise runs out, nothing else, and nothing once it is certainly over |
| ClusterSafety.GracefulMovesLoseNothing | lab4/kv/test/test_setup.go:101-114 | after any number of graceful map changes, with clients writing to every shard whose list does not change, every replica of a key's shard serves the last set value until its time is up, nothing else, and nothing after its latest time; in every reachable state in which no change under way concerns the shard |
| ClusterSafety.SomeReplicaAlwaysServes | lab4/kv/server.go:172-221 | even during a map change some replica in the map serves every live key |
| ClusterSafety.ReadYourWrites | lab4/kv/client.go:71-110 | unless the shard was copied since, every replica serves a set value until start plus the whole milliseconds of its time to live, and none does from end plus those on |
| ClusterClients.SetIsServed | lab4/kv/client.go:71-110 | a whole Set and any run after it in which nobody begins to set or delete the key, with map changes, copies and clean-up: every replica answers with the value until start plus the whole milliseconds of the time to live, and with no other value ever |
| ClusterClients.PromiseStands | lab4/kv/server.go:172-233 | over every run in which nobody begins to set or delete the key, what its last Set promised stands |
| ClusterClients.DeleteIsFinal | lab4/kv/client.go:121-151 | after a whole Delete, and any run in which nobody begins to set the key, no node finds it |
| ClusterClients.CleanUpLeavesLive | lab4/kv/server.go:54-66 | in every reachable state a clean-up leaves a node with exactly the live keys of the shard |
| ClusterSafety.CutLoses | lab4/kv/client.go:76 | cutting a time to live loses less than a millisecond, and nothing if and only if it is whole milliseconds |
| ClusterSafety.ClusterDrift | lab4/kv/server.go:215-220 | in every reachable state an entry on any node expires no earlier than promised, and no later than end plus time to live plus the time all copies took plus less than a millisecond each |
| ClusterSafety.StableMeansHosted | lab4/kv/server.go:172-207 | for a shard no change concerns, exactly the nodes named for it host it, and none is copying it |
| ClusterSafety.RefusedIffNotNamed | lab4/kv/server.go:323-326 | for a shard no change concerns, a node refuses its keys if and only if the map does not name the node for it |
| ClusterSafety.DeletedStaysDeleted | lab4/kv/client.go:121-151 | a deleted or never set key is found on no node, through all copies |
| ClusterSafety.ServedIffNotBeingCopied | lab4/kv/server.go:201-220 | a hosted node serves a live key if and only if it is not still copying the shard |
| ClusterSafety.UpdateWaitsForEveryNode | lab4/kv/shardmap.go:197-206 | the second notification makes an update return only when every node hosts exactly the shards of the new map and copies nothing |
| ClusterSafety.KeysArePlaced | lab4/kv/server.go:215-220 | a key stored under a shard or fetched for it hashes to that shard |
| ClusterSafety.CopiesFitHosted | lab4/kv/server.go:215-220 | in every reachable state every shard a node has fetched is hosted there and every fetched key hashes to it, so the copy loop never indexes a shard that is not hosted |
| ClusterSafety.GetShardForKey | lab4/kv/util.go:8-12 | every hash has a shard between 1 and the number of shards |
| ClusterSafety.HashesGoAround | lab4/kv/util.go:8-12 | the first hashes go to the shards in order, and from there on the shards repeat, so every shard is used |
| ClusterHazard.MissesWhileCopying | lab4/kv/server.go:201-213 | a reachable state in which a node in the map answers "not found" for a live key |
| ClusterHazard.ExpiresEarly | lab4/kv/client.go:76 | for every time to live with a fraction of a millisecond, a reachable state in which the key is gone before it is over |
| ClusterMoves.UpdateCompletes | lab4/kv/test/test_setup.go:101-114 | from every reachable state in which a map can be published, the two rounds of notifications and all copies can be carried through, and nothing promised changes |
| ClusterMoves.ChainsJoin | lab4/kv/test/test_setup.go:334-355 | the maps that consecutive moves publish form one graceful chain |
| ClusterMoves.MoveShards | lab4/kv/test/integration_test.go:279-283 | any number of moves, each from the map the last one left and whatever fails, publishes one graceful chain of valid maps |
| ClusterMoves.MovesServe | lab4/kv/test/integration_test.go:270-288 | each map of such a chain can be published in its turn and carried through, and then every replica of the last map serves every live key |
| KvServer.Server.Get | lab4/kv/server.go:309-342 | refuses exactly the shards it does not host, then exactly the empty key, and otherwise answers as the cluster model's read |
| KvServer.Server.Set | lab4/kv/server.go:344-364 | a refused write changes nothing; an accepted one is what the node answers until stored time plus time to live, and not after |
| KvServer.Server.Delete | lab4/kv/server.go:366-386 | a refused delete changes nothing; after an accepted one the key is never found |
| KvServer.Server.GetShardContents | lab4/kv/server.go:388-414 | the live keys of a hosted shard with the whole milliseconds left |
| KvServer.Server.BeginUpdate | lab4/kv/server.go:172-207 | drops and hosts as the cluster model's `Handling`, and names the nodes to fetch each new shard from |
| KvServer.Server.FetchShardContent | lab4/kv/server.go:134-150 | asks all other nodes in turn: brings back what one of them has if any answers, nothing otherwise |
| KvServer.FetchIsStep | lab4/kv/server.go:134-150 | whatever that can bring back is what a step of the cluster model lets the node receive |
| KvServer.Server.InstallResults | lab4/kv/server.go:214-220 | stores every fetched value under its key's shard, as the cluster model's `Installed`; what it requires is what `ClusterSafety.CopiesFitHosted` concludes |
| KvServer.Split | lab4/kv/server.go:180-190 | the added and the removed shards |
| Replicas.Editor.AddReplicas | lab4/kv/test/test_setup.go:188-227 | succeeds if and only if there are enough nodes and the named ones are new and different; then the old list and the named nodes come first, the number is right and the map stays valid; a failure changes nothing |
| Replicas.Editor.DropReplicas | lab4/kv/test/test_setup.go:238-286 | succeeds if and only if there are enough replicas and the named ones are among them; then the number is right and only present nodes other than the named ones remain; a failure changes nothing |
| Replicas.Partition | lab4/kv/test/test_setup.go:264-276 | splits a list into the nodes that may stay and the named nodes it lacks |
| Replicas.MoveShard | lab4/kv/test/test_setup.go:334-355 | exactly when it succeeds and what it publishes: first the shard's list with the destination added, also if the second half then fails, then the destination in place of the source; every published map is valid and a graceful change of the one before |
| Replicas.DrainNode | lab4/kv/test/test_setup.go:308-332 | the node ends with no shard, each shard keeps its number of replicas or loses one if it was everywhere, and both changes are graceful if and only if there is another node or there was no shard |
| Client.TurnsDiffer | lab4/kv/client.go:60-62 | two attempts never ask the same position |
| Client.TurnsCover | lab4/kv/client.go:60-62 | every position is asked in some attempt |
| Client.Get | lab4/kv/client.go:45-69 | asks different positions, returns the first answer in rotation order, and fails if and only if every replica fails, then with the error of the last one asked |
| Client.CollectErrors | lab4/kv/client.go:94-110 | a write succeeds if and only if every replica accepted it, in whatever order results arrive; else the last error to arrive is reported |
| ClientReads.Get | lab4/kv/client.go:45-69 | in every reachable state, for a shard no map change concerns, a client starting with any replica reads the last set value until its time is up, never another, and nothing after the latest time |
| ClientReads.GetAnytime | lab4/kv/client.go:45-69 | at any moment, also during a map change, a client gets an answer for a live key: the last set value, unless the answering node is still copying the shard |
| ClientReads.GetOwnWrite | lab4/kv/client.go:45-110 | the same in terms of the Set's own start, end and time to live |
| Ranker.AnyOrder | lab1/ranker/ranker.go:31-38 | with 64-bit wrap-around the sum does not depend on the order of iteration |
| Ranker.DotProduct | lab1/ranker/ranker.go:31-38 | the loop computes that sum over the features both sides have |
| Ranker.DotIsSumOfProducts | lab1/ranker/ranker.go:31-38 | listed in any order, it is the sum of the products of the coefficients both sides have, as whole numbers, modulo 2 to the 64th |
| Pipeline.DeduplicateIds | lab1/video_rec_service/server_lib/server_lib.go:476-486 | the same ids, each once; as long as the input exactly if it had no duplicate |
| Pipeline.GetUser | lab1/user_service/server_lib/server_lib.go:120-161 | succeeds if and only if there is no injected fault, the batch is neither empty nor too large, and all ids are known; which error otherwise |
| Pipeline.GetVideo | lab1/video_service/server_lib/server_lib.go:135-181 | succeeds if and only if there is no injected fault, the batch is neither empty nor too large, and the ids are different and known; which error otherwise |
| Pipeline.FetchCandidates | lab1/video_rec_service/server_lib/server_lib.go:217-251 | for every batch size it ends; it succeeds if and only if all users are known, the batches fit and none is made to fail, with the videos liked by all of them; otherwise the error names one of these causes |
| Pipeline.FetchVideos | lab1/video_rec_service/server_lib/server_lib.go:305-345 | for every batch size it ends; it succeeds if and only if all ids are known, the batches fit and none is made to fail, with the infos in order; the service never refused a batch for a repeated id |
| Pipeline.Rank | lab1/video_rec_service/server_lib/server_lib.go:274-281 | every video with its score |
| Pipeline.HeadIsBest | lab1/video_rec_service/server_lib/server_lib.go:284-298 | the head of any descending permutation is a best selection: distinct, in order, of the right number, nothing better left out |
| Pipeline.Recommend | lab1/video_rec_service/server_lib/server_lib.go:161-303 | exactly when a request is answered, fails at the user service or fails at the video service, for all injected faults; a ranked answer is the best selection of all liked videos |
| Pipeline.ZeroBatchAnswers | lab1/video_rec_service/server_lib/server_lib.go:219-223 | with a batch size of 0 exactly the users who subscribe to nobody can be answered |
| Pipeline.VideoRecServer.Fallback | lab1/video_rec_service/server_lib/server_lib.go:371-397 | a non-empty prefix of the cached videos within a positive limit, all of them for other limits, or a failure exactly if nothing is cached |
| Pipeline.VideoRecServer.GetTopVideos | lab1/video_rec_service/server_lib/server_lib.go:161-303 | ranked, stale or failed as above; a request that is not ranked adds one to the count of the service that failed it and of no other, and one to the errors exactly if the fallback is off |

## Left out

- Elections, votes, `Start`, applying committed entries and the Raft struct: raft.go's Raft code is not part of this model, so Leader Completeness and State Machine Safety across terms are not stated.
- RaftBackoff.SendAppendEntries: only for a follower in no later term, as one in a later term makes the leader step down in the first answered round (`RaftBackoff.LaterTermDeposes`); nobody else moves meanwhile, which is what `RaftProtocol` adds.
- RaftNode.Persister.SaveRaftState: the byte encoding is abstracted to a value, and snapshots are not modelled.
- CrashRestart.AcknowledgedIsDurable: an instance's state is the sequence of operations it reflects; message bodies, delays and the gob encoding are not modelled.
- CheckerSoundness.MissingOnlyAtTheSameInstant: only for runs in which no write has failed and times to live are whole milliseconds; after a failed write a value may be listed that no replica has.
- CheckerSoundness.StepKeepsInv: one key; the checker's state of different keys is independent, which the contracts of `ConsistencyChecker` state.
- ClusterSafety.GracefulMovesLoseNothing: failing calls between nodes, node removal without a drain, several new nodes for one shard in one change, and writes to a shard while it is being copied are not modelled.
- KvServer.Server.BeginUpdate: the shard objects inside a node are held as map values, and the goroutine of each shard is the `CleanUp` step; 32-bit shard numbers and 64-bit time arithmetic are unbounded integers.
- Client.Get: the connection pool is part of whether a replica answers.
- ClusterSafety.GetShardForKey: the FNV hash itself is a parameter.
- Ranker.DotProduct: the bcrypt and FNV hashes on top of it are an uninterpreted function.
- Pipeline.SortByScore: an insertion sort stands in for the library's sort, and only its contract is used.
- Pipeline.FetchCandidates: a negative maximum batch size, on which the source's slicing panics, is not a value of the model.
- Pipeline.VideoRecServer.GetTopVideos: the count of active requests, latencies, connection rotation, mock clients and the goroutine that refreshes the cached videos are not modelled.
- CrashRestart.StepKeepsInv: network, tester and persisters are values changed by steps, because what is proved is about their interleaving; they are not objects updated in place.
- The overlap at start-up between a node's listener and the update its constructor runs (lab4/kv/server.go:248-249): a node handles one map at a time.
- Lab 0 (stub bodies), lab1_submit and lab2_submit (copies of lab 1's service), generated protocol code, command-line tools, deployment files and test drivers: they hold no further logic.
