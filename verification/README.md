# Drummer, verified

Drummer keeps groups of replicated state machines ("shards") alive on a set of hosts, and ships a
linearizability checker with which its own tests judge what those shards answered. This project
models the four parts of it that carry the correctness arguments, and proves what they are for.

`Basics` holds what several modules need of words and finite sets.

**The linearizability checker** (`lcm/porcupine`, `lcm`). `History` says what a concurrent history
is, and defines linearizability as Herlihy and Wing do. `Bitset` and `Popcount` treat the word-array
bitset as a finite set. `LinkedEntries` is the doubly linked list of calls and returns on the heap,
with `lift` and `unlift`. `SearchTheory`, `SearchState` and `Search` are the backtracking search with
its cache: it terminates, and its verdict is exact. `Checker` renumbers and joins the verdicts on
partitions, and `Locality` shows that for partitions by key the joint verdict is the verdict on the
whole history. `Orders` is about orders of operations. `Register` is the etcd register, with the
theorem that completing unanswered operations by unknown returns decides Herlihy and Wing's definition for histories with pending operations.
`JepsenLog` parses a log, `Recorder` is the coordinator with its processes in every interleaving, and
`RecordedHistory` puts the two together: what the checker says of a recorded log is the verdict on
what was observed; `Misread` has the recorded logs on which it is not. `Turns` is about histories whose
operations take turns: the verdict on the log of one process is a replay of its answers.

**The repair protocol** (`shardimage.go`, `nodehostimage.go`, `filter.go`, `selector.go`,
`scheduler.go`, `drummer.go`, `db.go`, `client/nodehost.go`). `ShardImage`, `HostImage`,
`Placement`, `Scheduler`, `Database` and `NodeHostClient` model the objects with their methods, each
method proved against a function of the state or against a statement of what it may do. `Truth` is the
ground truth: the sequence of memberships each Raft group went through. `Reports` shows that
truthful reports, in any order, bring the image to the truth. `Protocol` is the whole as a state
machine in which reports, requests and scheduler contexts may be delayed, repeated or lost for ever:
KILL is safe, memberships stay in their size band on different hosts, no report panics. `Repair`
shows that repair of one shard goes on to its end and converges, `Ticks` that unsigned tick
differences never wrap, and `Outages` has logs of updates that lead to what repair and launch fail on.
`LeaderFlags`, `Deadline` and `HostRecords` read the leader flags, the launch deadline and the entries of
the hosts off the sequence of reports and the log.

**The leader lease** (`election.go` over `applyKVUpdate`). `Election` is the manager with its
methods; `Lease` is any number of managers over the one compare-and-set record of `KVStore`, and
`Leaders` says how many of them can lead.

**The Colfer codec** (`kv/kv.go`). `Codec` has the encoder and the decoder on bytes, and the laws of
the format.

What the environment is taken to do:

- Raft is a linear log for the database, linearizable reads, and membership changes applied only
  when their `ConfChangeId` is the shard's current index (`OrderedConfigChange` is set at
  `client/nodehost.go:420`). New replica ids are fresh in their shard.
- The region names for a launch are different; `SetRegions` does not check it, and hosts drawn twice
  for one shard would end in the panic for a duplicated address.
- A replica reports memberships its shard has had, and runs only after a CREATE for it.
- Instance ids of election managers are different and not zero. The votes of one manager take effect
  in the order sent, late or never; answers may be lost.
- A model's step function is a function, and its equality an equivalence that steps respect.

Where a promise fails, the project says exactly when it holds:

- `Unmarshal` rejects an encoding of exactly `ColferSizeMax` bytes, which `MarshalLen` accepts, and
  does not reset a field that is absent. The round trip holds exactly below that size and when a field
  that is empty was empty in the record decoded into (`Codec.RoundTripExactly`, with the record of
  `Codec.MaximalSizeReached`).
- More than one manager can lead. Of two leaders at least one is stale: another manager's vote was
  accepted since it last read the record as its own. While no leader is stale at most one manager
  leads (`Leaders.OneLeaderUnlessStale`); and next to a stale leader that takes no further step
  another can always come to lead (`Leaders.StaleMeansSecondLeader`). One route to a stale leader is
  that a follower which finds itself owner promotes itself whatever the answer to its renewal vote
  (`Election.RejectedRenewal`, `Election.WhoLeads`, `Leaders.TwoLeaders`); another is a leader that
  pauses (`Leaders.TwoLeadersByPause`).
- A launch crashes exactly when the regions give the first shard that is off more hosts than it has
  members (`Scheduler.Scheduler.GetLaunchRequests`, `Outages.MoreHostsThanMembers`).
- A round of maintenance hands out all that is called for, or nothing at all exactly when one shard
  that is not being restored is at its ADD and no host can take it
  (`Scheduler.Scheduler.MaintainShards`, `Outages.OneStuckStopsAll`).
- An ADD costs a shard its quorum until the CREATE exactly when the shard's size is odd and no live
  replica is to spare (`Repair.QuorumAfterAdd`, `Outages.QuorumLost`).
- From process number 1000 on the padded column of the log leaves no separator, and what those
  processes did is lost in the log, and nothing else (`RecordedHistory.WideIsLost`). With up to 1000
  processes a history is never rejected wrongly, and the verdict is right while the counter of written
  values is not above the parser's largest integer (`RecordedHistory.RecordedVerdict`). With more
  processes it can be wrong both ways (`Misread.WideReadAccepted`, `Misread.WideWriteRejected`), and
  with the counter one higher a read of what nobody wrote can be accepted (`Misread.LargeReadAccepted`).

## Model

| member | source | states |
|---|---|---|
| Bitset.NewBitset | lcm/porcupine/bitset.go:8-15 | a fresh bitset for n positions stands for the empty set |
| Bitset.Clone | lcm/porcupine/bitset.go:17-21 | the clone is a fresh array with the same words |
| Bitset.Set | lcm/porcupine/bitset.go:27-31 | the set gains exactly this position |
| Bitset.Clear | lcm/porcupine/bitset.go:33-37 | the set loses exactly this position |
| Bitset.Get | lcm/porcupine/bitset.go:39-42 | says whether the position is in the set |
| Bitset.Popcnt | lcm/porcupine/bitset.go:44-54 | adds up the parallel counts of the words in 64-bit arithmetic |
| Popcount.SwarCounts | lcm/porcupine/bitset.go:47-51 | the parallel count of a word is its number of bits that are on |
| Popcount.PopcntIsCardinality | lcm/porcupine/bitset.go:44-54 | popcnt is the cardinality of the set, modulo 2^64 |
| Bitset.Hash | lcm/porcupine/bitset.go:56-62 | the hash depends on the words only, so equal sets hash alike |
| Bitset.Equals | lcm/porcupine/bitset.go:64-74 | comparing words decides equality of the sets, for bitsets of one length |
| Bitset.ViewInjective | lcm/porcupine/bitset.go:64-74 | two word sequences of one length that stand for the same set are equal |
| LinkedEntries.InsertBefore | lcm/porcupine/porcupine.go:59-70 | puts one node in front of another and relinks the node before |
| LinkedEntries.Length | lcm/porcupine/porcupine.go:72-79 | the number of nodes of the list |
| LinkedEntries.MakeLinkedEntries | lcm/porcupine/porcupine.go:109-126 | the list holds the events in order with consistent links, each call pointing to its own return |
| LinkedEntries.Lift | lcm/porcupine/porcupine.go:147-155 | takes a call and its return out, also when they are neighbours; the rest stays a consistent list in order, and the two remember their places |
| LinkedEntries.Unlift | lcm/porcupine/porcupine.go:157-165 | puts the last lifted call and return back where they were, undoing Lift on the heap |
| SearchTheory.DeadEnd | lcm/porcupine/porcupine.go:176-212 | a configuration all of whose enabled operations lead nowhere cannot be finished |
| SearchTheory.EqualFinishes | lcm/porcupine/porcupine.go:133-140 | configurations with the same linearized set and model-equal states are finishable together, so a cache hit discards no route |
| SearchState.LiveLift | lcm/porcupine/porcupine.go:147-155 | after a lift the list is the events of the operations not yet linearized, in order |
| SearchState.CandidateEnabled | lcm/porcupine/porcupine.go:176-199 | a call met before any return is of an operation that nothing remaining precedes |
| SearchState.ReturnIsDeadEnd | lcm/porcupine/porcupine.go:200-211 | when the scan meets a return, every enabled operation was tried and the configuration is dead |
| SearchState.OrderIsLinearization | lcm/porcupine/porcupine.go:167-214 | the stack of calls, bottom first, keeps real-time order and is a legal run |
| Search.CacheContains | lcm/porcupine/porcupine.go:133-140 | exact membership of (set, state) up to model equality, whatever the hashes collide |
| Search.InvDone | lcm/porcupine/porcupine.go:213-213 | when nothing is left in the list the calls stack, bottom first, is a linearization |
| Search.CheckSingle | lcm/porcupine/porcupine.go:167-214 | terminates; true exactly when the history is linearizable, and then the calls stack, bottom first, is a linearization |
| Checker.Renumber | lcm/porcupine/porcupine.go:81-95 | a one-to-one renaming of the operations to 0, 1, 2, ... |
| Checker.RenumberedIds | lcm/porcupine/porcupine.go:81-95 | renumbered ids of a complete history lie inside the search's bitset |
| Checker.RelabelIff | lcm/porcupine/porcupine.go:81-95 | renaming operations changes neither completeness nor the verdict |
| Checker.ShallowEqualIsLawful | lcm/porcupine/porcupine.go:216-227 | the default equality meets what is asked of a model's equality |
| Checker.CheckPartition | lcm/porcupine/porcupine.go:288-293 | one partition, from events to verdict: true exactly when it is linearizable |
| Checker.CheckEvents | lcm/porcupine/porcupine.go:282-317 | the conjunction of the verdicts on the partitions, in whatever order they arrive |
| Checker.CheckHistory | lcm/porcupine/porcupine.go:275-277 | unpartitioned, true exactly when the history is linearizable |
| Locality.ProductRuns | lcm/porcupine/model.go:29-32 | a legal run over keys that do not touch each other's states is a legal run for every key |
| Locality.Merge | lcm/porcupine/model.go:29-32 | two orders that keep real-time order can be merged into one that does |
| Locality.Locality | lcm/porcupine/model.go:29-34 | a history is linearizable exactly when its part for every key is |
| Locality.CheckByKey | lcm/porcupine/porcupine.go:282-317 | checking a history partitioned by key decides linearizability of the whole |
| Register.CompletionIsExact | lcm/porcupine/etcd.go:140-154 | completing pending operations with unknown returns, in any order, is equivalent to Herlihy and Wing's dropping or completing of each |
| Register.Told | lcm/porcupine/etcd.go:37-57 | in a legal run every unknown answer can be replaced by a definite one |
| Register.InsertRead | lcm/porcupine/etcd.go:41-44 | an unknown read has a place in every linearization of other operations |
| Register.UnknownReadDoesNotMatter | lcm/porcupine/etcd.go:140-149 | removing or inserting an unknown read does not change the verdict |
| JepsenLog.ParseJepsenLog | lcm/porcupine/etcd.go:61-157 | the events of the lines in order, then one unknown return for each process left in the map, in any order |
| JepsenLog.BegunOk | lcm/porcupine/etcd.go:94-113 | an invocation by a process with nothing pending gets a new id and becomes what is pending |
| JepsenLog.EndedOk | lcm/porcupine/etcd.go:114-149 | an answer to a pending process closes exactly its operation |
| JepsenLog.StrayAnswer | lcm/porcupine/etcd.go:114-134 | an answer of a process with nothing pending is taken as one to the first operation |
| JepsenLog.ClosedOk | lcm/porcupine/etcd.go:152-154 | closing what is pending leaves one call and one later return for every operation |
| Recorder.Coordinator.constructor | lcm/manager.go:181-202 | no events, the counter at 1, the least wait |
| Recorder.Coordinator.RecordInvoked | lcm/manager.go:330-342 | appends the invocation; a write gets the counter's value, which no invoked write had before, and no two invoked writes have the same |
| Recorder.Coordinator.RecordFailed | lcm/manager.go:398-444 | appends the failure (of a read or a write) and doubles the wait, capped at its greatest value |
| Recorder.Coordinator.RecordCompleted | lcm/manager.go:410-465 | appends the completion; the fourth in a row brings the wait back to its least value |
| Recorder.Process.Start | lcm/process.go:122-148 | run without interference, an operation does what its steps do one after the other |
| Recorder.RunIsDisciplined | lcm/manager.go:317-344 | in every interleaving a process is invoked and answered in turn, and is never invoked again once it failed; no two writes are invoked with the same value |
| RecordedHistory.ParserFollows | lcm/porcupine/etcd.go:80-150 | the parser's map holds exactly the processes that are busy or whose write failed, each with its own operation |
| RecordedHistory.RecordedIsComplete | lcm/porcupine/etcd.go:140-157 | a recorded log parses to a complete history, in which unknown returns come last or are of reads; without them it is what was observed |
| RecordedHistory.WideIsLost | lcm/manager.go:156-156 | the events of processes numbered 1000 and above, and only those, are lost between printing and parsing |
| RecordedHistory.ClampedIsRead | lcm/porcupine/etcd.go:103-128 | values above the largest integer are read as that integer, and nothing else changes |
| RecordedHistory.RecordedVerdict | lcm/porcupine/etcd.go:61-157 | for every run of the recorder the verdict on the parsed log is Herlihy and Wing's on what is readable of the observed history, and for up to 1000 processes on the observed history itself: a rejection is always right, and an acceptance is while the counter of written values is not above the largest integer |
| RecordedHistory.CheckLog | lcm/porcupine/porcupine.go:275-277 | parsing and checking a recorded log decides whether what is readable of it is linearizable, and under these bounds whether what was observed is |
| RecordedHistory.ClampingForgives | lcm/porcupine/etcd.go:103-128 | reading values above the largest integer as that integer never makes a linearizable history look otherwise |
| RecordedHistory.ClampingIsExact | lcm/porcupine/etcd.go:103-128 | nor the other way round while every value written is below the largest integer |
| RecordedHistory.UnwrittenRead | lcm/porcupine/etcd.go:37-57 | a history in which a read was answered with more than was ever written is not linearizable |
| Turns.SequentialExact | lcm/porcupine/etcd.go:37-57 | a history without overlap is linearizable exactly if the register accepts its operations in order |
| Turns.OneProcessVerdict | lcm/porcupine/etcd.go:37-157 | the log of one process, with reads, writes and compare-and-sets, is accepted exactly if the answers are those of a register that is empty at first |
| Misread.WideReadAccepted | lcm/manager.go:156-156 | with more than 1000 processes, a run with a read of what nobody wrote whose log is accepted |
| Misread.WideWriteRejected | lcm/manager.go:156-156 | with more than 1000 processes, a run that is linearizable as observed and whose log is rejected |
| Misread.LargeReadAccepted | lcm/porcupine/etcd.go:103-128 | a run of one process, the counter one above the largest integer, with a read of what nobody wrote whose log is accepted |
| ShardImage.Shard.KillRequestRequired | shardimage.go:405-415 | true exactly when the report is older than the record and the replica is not in the record |
| ShardImage.Shard.IdListClash | shardimage.go:452-460 | true exactly when the record and the report disagree on who the replicas are |
| ShardImage.Shard.RemoveMissing | shardimage.go:469-480 | keeps exactly the reported replicas, untouched |
| ShardImage.Shard.AddReported | shardimage.go:481-498 | adds the missing replicas as not yet started, and stops exactly when an address changed |
| ShardImage.Shard.DuplicatedAddress | shardimage.go:499-507 | true exactly when two replicas share an address |
| ShardImage.Shard.SyncShard | shardimage.go:447-509 | rejects an older report, panics on the four inconsistencies, otherwise takes the membership over |
| ShardImage.SyncMeans | shardimage.go:447-509 | exactly the older report is rejected; exactly the newer or equal one with different addresses, no address changed, and no other replicas at the same index, is taken, and gives the new membership with the known replicas as they were |
| ShardImage.MultiShard.ApplyBareInfo | shardimage.go:383-394 | an entry without a membership only asks whether its replica is to be killed |
| ShardImage.MultiShard.AddShard | shardimage.go:425-445 | a shard seen for the first time gets a record with the reported replicas, none of them started |
| ShardImage.MultiShard.SyncKnownShard | shardimage.go:375-382 | the membership of a known shard is taken over, rejected or inconsistent, and a rejected replica may have to be killed |
| ShardImage.MultiShard.ApplyInfo | shardimage.go:357-397 | one entry of a report: the new image and whether the replica is to be killed |
| ShardImage.MultiShard.DoUpdate | shardimage.go:355-399 | the entries one after the other |
| ShardImage.MultiShard.UpdateNodeTick | shardimage.go:340-350 | stamps exactly the replicas that are reported |
| ShardImage.MultiShard.SyncLeaderInfo | shardimage.go:315-338 | takes the reported leaderships over, entry by entry, unless the record is newer |
| LeaderFlags.FlagsTakenOver | shardimage.go:315-338 | an entry of an imaged replica, at an index not older than the record, makes it lead exactly if it says so, and then no other does; who does not lead leaves the others' flags alone |
| LeaderFlags.LeaderAfterReport | shardimage.go:302-338 | after a report a replica named by its last entry for the shard leads exactly if that says so, and then alone |
| LeaderFlags.ReportsKeepOne | shardimage.go:315-338 | over any sequence of reports at most one replica of a shard leads |
| LeaderFlags.LogKeepsOne | shardimage.go:315-338 | and over any log |
| ShardImage.MultiShard.Update | shardimage.go:302-313 | one report: membership, then ticks, then leaders, and the kill list grows by the entries to be killed |
| ShardImage.MultiShard.GetToKillReplicas | shardimage.go:244-256 | hands the kill list out and empties it |
| HostImage.MultiNodeHost.Update | nodehostimage.go:73-79 | the reporting host's entry is replaced, its log kept when the report carries none |
| HostImage.MultiNodeHost.SyncNodeHostSpec | nodehostimage.go:126-148 | the same for a host already known |
| HostImage.MultiNodeHost.SyncShardInfo | nodehostimage.go:81-89 | every known host is listed with each shard that has an imaged replica on it |
| Placement.FilterOne | filter.go:29-74 | the subsequence of hosts that a basic, live or region filter keeps |
| Placement.FilterAll | filter.go:86-92 | a combination keeps what every one of its filters keeps |
| Placement.FindSuitableNodeHost | selector.go:50-76 | distinct hosts, all passing the filters, as many as asked; none only when too few pass |
| Scheduler.Partition | shardimage.go:148-207 | ok, failed and waiting replicas partition a shard |
| Scheduler.ClassifiedMeans | shardimage.go:69-101 | the predicates on list lengths say what they should of the sets of replicas |
| Scheduler.GetFailedReplicas | shardimage.go:199-207 | lists the failed replicas, each once |
| Scheduler.GetOkReplicas | shardimage.go:179-187 | lists the live replicas, each once |
| Scheduler.GetReplicasToStart | shardimage.go:189-197 | lists the replicas yet to start, each once |
| Scheduler.GetShardForRepair | shardimage.go:272-300 | classifies exactly the shards with a failed or waiting replica, each once |
| Scheduler.Scheduler.UpdateSchedulerContext | scheduler.go:86-98 | the scheduler works on exactly this context from here on |
| Scheduler.Scheduler.FindShard | scheduler.go:458-474 | finds the first definition with the id |
| Scheduler.Scheduler.GetReplacementNode | scheduler.go:258-279 | a live host without the shard, in the region of the failed replica's host if there is one there, or none only when there is no such host at all |
| Scheduler.Scheduler.GetRepairAddRequest | scheduler.go:232-256 | an ADD fenced by the imaged index, to a live member, for a host without the shard, in the region of a failed replica if it has such a host; none exactly when no host can take it |
| Scheduler.Scheduler.GetRepairDeleteRequest | scheduler.go:288-303 | a DELETE of a failed replica fenced by the imaged index, to a live member |
| Scheduler.Scheduler.GetCreateRequest | scheduler.go:344-371 | a CREATE for this application that lists the whole membership with matching addresses |
| Scheduler.Scheduler.GetRepairCreateRequest | scheduler.go:282-285 | such a CREATE, joining, with the application the shard is defined with, for a replica that waits to be started |
| Scheduler.Scheduler.RepairShard | scheduler.go:189-226 | DELETE before CREATE before ADD: one request if the shard needs one, an error exactly when it is at its ADD and no host can take it |
| Scheduler.Scheduler.Repair | scheduler.go:176-229 | exactly one request for every shard that needs repair and is not being restored; an error exactly when one of those is stuck at its ADD |
| Scheduler.Scheduler.CanBeRestored | shardimage.go:118-128 | lists the failed replicas whose host is up and has their log |
| Scheduler.Scheduler.RestoreReplicas | scheduler.go:398-410 | one CREATE with restore, for the application the shard is defined with, for every such replica |
| Scheduler.Scheduler.RestoreUnavailableShards | scheduler.go:386-418 | restores an unavailable shard exactly when enough replicas can come back for a quorum |
| Scheduler.Scheduler.RestoreFailed | scheduler.go:420-447 | restores every restorable replica of the other shards |
| Scheduler.Scheduler.Restore | scheduler.go:374-384 | both, with no replica twice |
| Scheduler.PassingCount | selector.go:50-56 | as many hosts pass the filters of a region as it has live hosts without the shard |
| Scheduler.Scheduler.RegionReplicas | scheduler.go:126-136 | a region's count of different live hosts without the shard, or none when fewer pass |
| Scheduler.Scheduler.LaunchShard | scheduler.go:124-168 | launched, an error or a crash exactly when the regions give as many hosts as the shard has members, fewer or more; launched is one CREATE per member, that starts it, tells all members and their addresses and names the application, on live hosts without the shard, from each region in turn as many as it gives, different ones if the regions are |
| Scheduler.Scheduler.GetLaunchRequests | scheduler.go:116-170 | such a plan for every shard, or the error or crash of the first shard that is off |
| Scheduler.Scheduler.KillZombieReplicas | scheduler.go:320-342 | a KILL for every entry of the kill list and nothing else |
| Scheduler.Scheduler.MaintainShards | drummer.go:458-490 | hands out every restore that is called for, an answer for every shard that needs repair and is not restored, every KILL, and nothing else, coherently; or nothing at all exactly when a shard that is not restored is stuck |
| Scheduler.CoherentRound | drummer.go:458-490 | restores, repairs and kills that fit together form a coherent round |
| KVStore.FinalizedStays | db.go:316-342 | a record is never removed and a finalized one never changes |
| Database.DB.ApplyTickUpdate | db.go:235-239 | moves the tick on; fails exactly when a launch deadline is passed |
| Database.DB.ApplyKVUpdate | db.go:316-342 | accepted exactly if there is no record, or one that is not finalized and is owned by the sender or by whom it names as old owner; only then the record changes |
| Database.DB.TryCreateShard | db.go:356-378 | defines a shard unless bootstrapped or defined already |
| Database.DB.ApplyRequestsUpdate | db.go:290-314 | files a batch by host, or ignores a second launch |
| Database.DB.ApplyNodeHostInfoUpdate | db.go:241-257 | takes a report in and moves what waits for the host to what it is handed |
| Database.DB.GetLaunchedShards | db.go:115-129 | the shards that count as launched, as Deadline.CountedIsUp says |
| Database.DB.OnUpdatedShardInfo | db.go:131-141 | lifts the launch deadline once all shards have been launched |
| Deadline.CountedIsUp | db.go:115-129 | those counted are as many as the definitions exactly if as many imaged shards have had every replica heard of |
| Deadline.DeadlineLaw | db.go:131-148 | after any log the deadline is 120 after the tick of the launch that was accepted, if no report since left as many shards heard of in full as are defined, and 0 otherwise |
| Deadline.TickPastDeadline | db.go:143-148 | a tick takes the database down exactly when it passes the deadline of a launch still under way |
| Database.LaunchOnce | db.go:290-314 | over any log at most one launch batch is accepted |
| Database.DefinedByLog | db.go:356-378 | a shard is defined exactly if the log defines it before the database is bootstrapped, as the first such entry says, and never without members or application |
| HostRecords.HostTracksLog | nodehostimage.go:73-150 | after any log a host is known exactly if it reported; region and tick are those of its last report, its logs on disk those it last told of, its shards those of its last report and those imaged at it since |
| HostRecords.RpcTracksLog | nodehostimage.go:108-145 | calls go to the address of the first report |
| HostRecords.RestoredFromDisk | scheduler.go:420-442 | a replica is brought back only on a host heard of lately that, when it last told of its disk, had the replica's log |
| Database.MailboxTracksLog | db.go:241-314 | what waits for a host is the in-order part for it of the last accepted batch that names it since its last report; what it is handed is what waited then |
| Ticks.LogInTime | db.go:235-257 | over any log no tick in the database is ahead of the database's own |
| Ticks.FailedMeansSilent | shardimage.go:148-157 | a replica or host counts as failed exactly when it has been silent for more than the allowed time: the unsigned difference never wraps; a replica never heard of waits, or has failed if first observed at tick 0 |
| Ticks.TickIsCount | db.go:143-148 | the database tick is five for every tick update |
| NodeHostClient.DrummerClient.AddRequests | client/nodehost.go:244-248 | appends to the queue |
| NodeHostClient.DrummerClient.GetRequests | client/nodehost.go:250-256 | hands the queue out and empties it |
| NodeHostClient.DrummerClient.BuildReport | client/nodehost.go:119-156 | lists every shard and sends every entry, without its membership exactly if it is not pending and Drummer knew one at the same index or a newer |
| Truth.NoSyncPanic | shardimage.go:447-507 | on a membership the shard has had, none of syncShard's panics is reached |
| Truth.KillMeansGone | shardimage.go:405-415 | a known replica that the image asks to kill was a member and is not any more |
| Truth.IndexUnique | shardimage.go:451-461 | the index determines the membership |
| Reports.ReportKeeps | shardimage.go:302-313 | a truthful report is taken without panic, keeps the image true and never moves it back, and only gone replicas are put on the kill list |
| Reports.HighestSeenIsMax | shardimage.go:447-451 | the highest index carried by any entry |
| Reports.ImageIsTruth | shardimage.go:355-399 | after any sequence of truthful reports the image of a shard is the truth at the highest index seen |
| Reports.ReportOrderIsIrrelevant | shardimage.go:355-399 | the order of reports, and how entries are split between them, does not matter |
| Reports.ImageGrows | shardimage.go:447-451 | further reports never move the image back |
| Reports.FirstObservedKept | shardimage.go:466-498 | over any sequence of truthful reports a replica imaged before and after keeps the tick at which it was first observed |
| Reports.NewlyImaged | shardimage.go:340-445 | a replica that a report brings into the image is first observed then, and heard of exactly if the report has an entry of it |
| Reports.KillExact | shardimage.go:355-415 | a truthful entry, with or without a membership and pending or not, asks for a kill exactly if the record is newer and does not have its replica |
| Reports.KillsExact | shardimage.go:302-399 | so a report puts exactly these replicas on the kill list, under the reporting host |
| Reports.SuppressedReportLosesNothing | client/nodehost.go:113-132 | leaving out a membership known to Drummer changes neither image, ticks, leaders nor kill list |
| Protocol.RequestStays | scheduler.go:176-229 | a request in flight stays right as truth and image grow |
| Protocol.ScheduledIsOk | scheduler.go:176-229 | what a scheduler asks for on any past state of the database is right against the truth |
| Protocol.AddGrowsHistory | client/nodehost.go:302-320 | a fenced ADD keeps a shard's history well-formed, in its size band and on different hosts |
| Protocol.DeleteGrowsHistory | client/nodehost.go:302-320 | so does a fenced DELETE |
| Protocol.StepKeepsInv | db.go:215-233 | every step of the protocol keeps its invariant |
| Protocol.RunKeepsInv | db.go:215-233 | so it holds in every state of every run |
| Protocol.KillIsSafe | scheduler.go:320-342 | a replica a KILL names is no member of its shard, whenever the KILL arrives |
| Protocol.MembershipBand | scheduler.go:189-226 | every membership a shard ever has is at least of the size it was launched with and at most one above the size defined, on different hosts; the launch has one member for each different id defined, so the two sizes are the same when no id is repeated |
| Protocol.PlanStartsAll | scheduler.go:145-165 | a launch starts every member by exactly one request, at the address its first configuration gives it, if no id is defined twice |
| Protocol.ExpectedIsSize | scheduler.go:458-474 | the size and the application a scheduler looks up are those of the definition |
| Protocol.ImageStaysTrue | shardimage.go:447-509 | no report ever sent makes the database panic, and the image shows only memberships shards have had |
| Protocol.SuppressionIsLossless | client/nodehost.go:113-132 | a report with memberships left out takes the database to the state the full report would, whenever it arrives |
| Protocol.ContextsAreReady | scheduler.go:458-474 | on every context a scheduler can get, no lookup of a shard definition fails, and every host is listed with the shards it has a replica of |
| Repair.AllHeard | shardimage.go:302-350 | a round of reports of one membership brings the record to it, with exactly the reporters heard of |
| Repair.Classes | shardimage.go:148-207 | afterwards what was failed is failed, who reported is ok and the rest has yet to start |
| Repair.WhatIsNeeded | shardimage.go:69-90 | where repair stands determines whether DELETE, CREATE or ADD is called for |
| Repair.StepTaken | scheduler.go:189-226 | a quiet round takes repair one step on, ADD, CREATE and DELETE in turn |
| Repair.RepairProgress | scheduler.go:176-229 | from f failed replicas at most 3f requests are carried out, in that cycle, and until then the shard needs repair |
| Repair.RequestHandedOut | drummer.go:458-490 | unless some shard is stuck, a round of maintenance hands out the request at which repair stands |
| Repair.RefreshedOne | nodehostimage.go:126-138 | a host that reports what it is listed with only has its tick moved |
| Repair.RoundExists | client/nodehost.go:302-320 | such a request can be carried out, with every live replica and every live host reporting |
| Repair.RepairGoesOn | scheduler.go:176-229 | with a spare host for every ADD to come, whatever a scheduler answers there is a quiet round, with the request it hands out if it does, after which repair stands one step further and has its spare hosts again |
| Repair.RepairRuns | scheduler.go:176-229 | so from any stage repair can be run to its end, following whatever a scheduler hands out, with three requests for every failed replica |
| Repair.RepairCompletes | scheduler.go:176-229 | from f failed replicas and f spare hosts there is a quiet run of exactly 3f requests, after which nothing needs repair and all replicas are live |
| Repair.RepairConverges | scheduler.go:176-229 | when nothing needs repair any more exactly f cycles were run, and the shard has its size with all replicas live |
| Repair.QuorumAfterAdd | scheduler.go:216-225 | after an ADD the shard has a quorum exactly when its size is even or a live replica was to spare |
| Repair.DeleteKeepsQuorum | shardimage.go:87-90 | a DELETE leaves a quorum of what remains |
| Repair.RestoreRegainsQuorum | scheduler.go:386-418 | once the replicas restored for an unavailable shard are back it is available |
| Outages.OneStuckStopsAll | drummer.go:478-481 | a log after which one stuck shard keeps another shard's replica from being started and a zombie from being killed |
| Outages.QuorumLost | scheduler.go:216-225 | a log after which a shard of three with one failed replica gets an ADD that leaves it without a quorum |
| Outages.MoreHostsThanMembers | scheduler.go:153-164 | a log after which, with two hosts wanted of their region, a launch crashes |
| Election.ElectionManager.constructor | election.go:59-77 | a manager starts as a follower that knows no leader |
| Election.ElectionManager.SetLeaderInfo | election.go:89-108 | counts readings of the same owner and tick, starts over on a new one, and panics exactly when the tick went back |
| Election.ElectionManager.BecomeFollower | election.go:117-125 | a follower of this leader, with no static rounds |
| Election.ElectionManager.ResetFollower | election.go:127-134 | a follower that keeps its leader and starts counting again |
| Election.ElectionManager.BecomeLeader | election.go:136-141 | a leader that knows no other |
| Election.ElectionManager.RenewLeadership | election.go:179-205 | one vote for itself; a follower again unless it counted |
| Election.ElectionManager.LeaderMain | election.go:158-177 | a leader's round is the steps one after the other |
| Election.ElectionManager.FollowerMain | election.go:207-241 | a follower's round is the steps one after the other |
| Election.ElectionManager.Campaign | election.go:243-279 | one vote against the owner last seen; leader only after it counted and a reading showed itself |
| Election.ElectionManager.Round | election.go:143-156 | so is any round |
| Election.RejectedRenewal | election.go:199-228 | after a rejected renewal a leader steps down and a follower is promoted |
| Election.LostCampaign | election.go:263-271 | a campaign that did not count leaves a follower of the same owner that starts counting again |
| Election.NotConfirmed | election.go:179-279 | a claim that is not answered leaves a follower that knows nobody, and a campaign that counted but shows somebody else changes nothing |
| Election.LostCampaignWaits | election.go:207-271 | for three rounds after a lost campaign a manager campaigns against no owner |
| Election.WhoLeads | election.go:158-279 | exactly when a round ends in the leader state |
| Lease.NoUnknownState | election.go:89-108 | a reading never shows an older tick of the same owner |
| Lease.StepKeeps | election.go:158-279 | every step of any manager keeps the invariant of the lease |
| Lease.Takeover | election.go:110-115 | the record passes to another manager only by a vote sent after five readings, the last four in a row, between which no vote of anybody was accepted |
| Lease.LeaderReadItself | election.go:158-279 | a manager that leads read the record in its latest round when it was its own |
| Lease.DeposedStepsDown | election.go:158-177 | a leader that is no longer the owner, or cannot read, is a follower after its next reading, and knows the owner it read |
| Lease.NeverCrashes | election.go:89-108 | no manager panics in any run; while there is no owner nobody knows a leader |
| Leaders.OneOfTwoIsStale | election.go:158-279 | of two managers that lead at least one is stale: somebody else's vote was accepted since it last read the record as its own |
| Leaders.OneLeaderUnlessStale | election.go:158-279 | while no leader is stale at most one manager leads |
| Leaders.DeposedIsStale | election.go:158-177 | a leader that has lost the record is stale |
| Leaders.CanLead | election.go:207-279 | from any reachable world with a record any manager can come to lead by steps of its own |
| Leaders.SecondLeader | election.go:207-279 | next to a leader that takes no further step any other manager can come to lead |
| Leaders.StaleMeansSecondLeader | election.go:207-279 | in particular next to a stale leader, without a step of it |
| Leaders.TwoLeaders | election.go:199-228 | a run after which two managers lead, one of them promoted on a rejected vote |
| Leaders.TwoLeadersByPause | election.go:243-279 | a run after which two managers lead although every vote was accepted and every answer arrived |
| Codec.KV.PutVarint | kv/kv.go:56-63 | writes the varint, or panics exactly when it does not fit |
| Codec.KV.Copy | kv/kv.go:64-64 | writes as much as fits |
| Codec.KV.PutHeader | kv/kv.go:54-63 | writes tag and length, or panics exactly when they do not fit |
| Codec.KV.PutField | kv/kv.go:53-65 | writes the field where it fits and nothing else |
| Codec.KV.MarshalTo | kv/kv.go:50-84 | writes exactly the encoding, whose bytes Codec.BytesWritten gives, or panics exactly when the buffer is too small |
| Codec.KV.AddFieldLen | kv/kv.go:91-98 | the bytes a field takes |
| Codec.KV.MarshalLen | kv/kv.go:88-113 | the length of the encoding, or an error exactly when it is above the maximum |
| Codec.KV.MarshalBinary | kv/kv.go:117-125 | the encoding, or an error exactly when it is above the maximum |
| Codec.KV.GetVarint | kv/kv.go:137-158 | reads a varint of any length, as a sum modulo 2^64 of its shifted groups |
| Codec.KV.GetField | kv/kv.go:136-174 | reads one field, or says why not |
| Codec.KV.Unmarshal | kv/kv.go:129-225 | outcome and fields are those of the decoding function, of which Codec.BytesRead tells, for any bytes and any record |
| Codec.KV.UnmarshalBinary | kv/kv.go:229-235 | the same, with an error for bytes left over |
| Codec.BytesWritten | kv/kv.go:50-84 | a key that is not empty is written under header 0, then a val under header 1, each after its length in base 128, in one byte below 128, then 0x7f and no more |
| Codec.BytesRead | kv/kv.go:129-225 | of bytes of that shape, whatever the length's form, the field under header 0 becomes the key and that under header 1 the val, and 0x7f, or another byte, after them decides the outcome |
| Codec.ContentMissing | kv/kv.go:136-170 | a length above the maximum is refused, and a field whose content is not all there, with a byte more, is the end of file, or too long if it would have reached the maximal size |
| Codec.LengthMissing | kv/kv.go:136-158 | data that ends within a length is the end of file, or too long from the maximal size on |
| Codec.GroupMultiple | kv/kv.go:150-157 | a group of seven bits, shifted in 64 bits, is a multiple of two to the shift, and nothing from a shift of 64 on |
| Codec.GroupFits | kv/kv.go:150-157 | it is below 2^64 and keeps the sum below the next group, so that it has no bit in common with what was read before and or-ing is adding |
| Codec.DecodeEncode | kv/kv.go:129-225 | an encoding followed by anything decodes to its record and stops at its end, below the maximal size, and fails from there on |
| Codec.RoundTripExactly | kv/kv.go:217-223 | whatever follows an encoding and whatever record it is decoded into, the encoded record comes back exactly when the encoding is below the maximal size and no empty field was set in that record |
| Codec.MaximalSizeReached | kv/kv.go:109-112 | a record that MarshalLen accepts and Unmarshal rejects |
| Codec.PrefixIsEof | kv/kv.go:129-225 | every proper prefix of an encoding decodes to end of file, with the key set once it and one byte more are there |
| Codec.ReadsOnlyWhatItReports | kv/kv.go:129-225 | a successful decoding depends on no byte after those it reports as read |
| Codec.VarintShortest | kv/kv.go:57-62 | no varint of the same value is shorter than the one written |
| Codec.NormalForm | kv/kv.go:129-225 | whatever decodes, encoding the result is no longer and decodes to the same record |

## Left out

- The `timeout` and `kill` paths of the checker, by which it may answer true without having decided.
- `CheckOperations` and `makeEntries`: the sort of entries by time is not stable on equal times.
- `CheckEventsTimeout` on an empty list of partitions, for which the original waits for ever.
- Search.CacheContains: a cached bitset is held by value, as nothing changes it once it is in the cache.
- JepsenLog.ParseJepsenLog: a line is taken as the fields its regular expression captures; reading files and matching expressions are not modelled, but for the column width that keeps a process number apart.
- The EDN log, connection pools and the choice of addresses in `lcm`; the four-at-a-time limit and the random choice in `scheduleProcesses` are any choice of an idle process.
- Recorder.Process.Start: runs one operation without interference; interleavings are the steps of the state machine in the same module.
- gRPC, TLS, sessions, contexts, tickers and goroutine plumbing in `server.go`, `client.go`, `nodehostapi.go`, `client/client.go` and `client/node.go`: each call is one step that may fail.
- Consensus itself, snapshots, JSON and protobuf encoding, MD5 hashes: encodings are the identity.
- `handleInstantiateRequest`, `handleAddDeleteRequest` and `handleKillRequest` appear as the steps Start, Change and Stop of the protocol; removing data, plugins and configurations do not. A join on a host that has the replica already is logged as ignored but carried out; the protocol takes it as carried out.
- Protocol.StepKeepsInv: an accepted launch batch and the first memberships it leads to are one step; an ignored launch batch is no step, as it changes nothing.
- Protocol.KillIsSafe: only safety is claimed. `getToKillReplicas` empties the copy a lookup makes, so a KILL may be handed out again and again.
- ShardImage.MultiShard.GetToKillReplicas: models the method on the object it is called on, which in the original is a decoded copy of the database's.
- ShardImage.Shard.SyncShard: replica records are values in a map and not objects; nothing in the original shares them.
- Repair.RepairConverges: one shard in a quiet environment.
- Repair.RepairCompletes: the spare hosts are known when repair begins; that a scheduler hands a request out takes that no shard is stuck and that the failed replicas are not being restored.
- Placement.FindSuitableNodeHost: termination of the random drawing is only probable; repeated draws are left out.
- The sort of shards for repair, which only fixes an order, and regions that are not set.
- `validateNodeHostRequest`, deployment ids, bootstrap from configuration files, the monkey test, `tests/` and their state machines.
- Ticks.FailedMeansSilent: the database tick stays below 2^64.
- Lease.Takeover: votes of one manager do not overtake each other; that rests on the client session of the original.
- Random instance ids and replica ids are taken to be new and not zero.
- Codec.KV.GetVarint: the bit-wise or of a value and a group shifted above it is written as their sum.
