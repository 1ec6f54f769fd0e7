# Verified model of a fault-tolerant key-value store

This project models the hard core of a C++ replicated key-value store in Dafny and proves what that
core is for:

- the Raft node of `src/raft/raft_node.cpp`, as a class with the source's fields, loops and methods,
  and a cluster of such nodes under message loss, duplication, reordering and crashes;
- the byte formats and the file replacement that make its state durable
  (`src/node/node_runtime.cpp`, `src/storage/kv_store.cpp`);
- the worker queue and its shutdown (`src/node/node_runtime.cpp`).

`dafny verify dfyconfig.toml` checks everything. Section numbers below refer to Ongaro and Ousterhout,
"In Search of an Understandable Consensus Algorithm (Extended Version)".

## How it is organised

**One node.** `NodeSpec` gives every public call as a function from node state to node state.
`RaftNode` is the imperative node; each method is proved to take the node, seen as a value through
`Abs()`, to the state `NodeSpec` gives. `Persistence`, `Lifetime` and `Replies` prove what one node
guarantees under any calls and any messages, malformed ones included. `CommitScan` and `Repair` give
independent specifications of the commit scan and of fast log repair. `Duties` says what each call has to
achieve, since safety alone also holds of nodes that do too little.

**A cluster.** `Cluster` is a transition system over any finite membership. The network is the set of
all messages ever sent; any of them may be delivered at any time, any number of times, or never. A node
may crash in the middle of any call, after any of the saves made so far, and restarts from storage.
`History` adds what a run leaves behind: for each term who won, with whose votes, the log of that
term's leader; and every vote, candidacy and acknowledgement. The invariant relates each node and each
message to that history alone, so a call by one node disturbs no other. `Elections`, `Leadership`,
`Replication`, `Acceptance` and `Calls` show that every call keeps it; `Completeness` derives Leader
Completeness from it by induction on terms; `Safety` and `Theorems` state the results over every run,
and `Witness` exhibits, for any two members, a run that elects a leader and commits.

**Durable state.** `ByteOrder`, `StateCodec` and `SnapshotFormat` are the two byte formats with their
readers and writers as loops, each proved to be the inverse of the other in both directions.
`KvStore` is the file replacement and the store with every state of the files on disk recorded;
`StoreRuns` follows the file through whole lives of completed, failed and crashed operations;
`DurableStorage` composes it all into the Raft storage, and `DurableCluster` puts such a file under every
node of a cluster, with crashes in the middle of any write, and shows that nothing new can happen.

**Shutdown.** `Shutdown` interleaves any number of workers, the ticker and the shutdown over the lock,
the condition variable and the flag, spurious wakeups included.

## What does not hold

- *A wakeup can be lost when `start` fails.* Its failure path clears the flag and notifies without
  taking the queue lock. `Shutdown.FailurePathAbandons` gives the interleaving for every number of
  workers, `AbandonedForGood` shows the worker then sleeps and the join waits, and `LostWakeupExactly`
  that this happens on that path and never under `stop`.
- *A representable Raft state may be impossible to save.* The encoder allows commands of 64 MiB, the
  store allows 64 MiB for the whole encoded state. `DurableStorage.EncodableNotSavable` gives a state,
  and `DurableRaftStorage.Save` succeeds on a working disk exactly when the size computed from the
  parts of the state fits.
- *A failed save must end the process.* Votes and entries are taken in memory before they are saved
  (`src/raft/raft_node.cpp:299-301`, `386-395`), and the server turns the exception into an error status
  and goes on (`src/grpc/grpc_server.cpp:25-32`). `Persistence.FailedSaveVotesTwice` shows that such a
  node can vote twice in a term, and `FailedSaveAcknowledges` that it acknowledges entries its storage
  does not hold; `GrantStoredExactly` and `AckStoredExactly` say when a granted vote or an acknowledged
  entry is stored. All theorems over runs therefore assume that a save completes or the node crashes.

## Model

| member | source | states |
|---|---|---|
| Safety.StateMachineSafety | src/raft/raft_node.cpp:321-495 | in every run, two nodes, or one node before and after restarts, at whatever times, hold the same entries up to the smaller of their commit indexes (section 5.4.3) |
| Theorems.CommittedRecordsAgree | src/raft/raft_node.cpp:487-495 | no two records with one index that any nodes ever publish differ |
| Safety.LeaderCompleteness | src/raft/raft_node.cpp:249-306 | what a leader has committed is in the log of every leader of every later term of the run (section 5.4) |
| Completeness.ChosenCarried | src/raft/raft_node.cpp:497-502 | an entry of term t on a majority is in the log with which every later leader was elected, by induction on terms through a voter shared by both majorities |
| Safety.ElectionSafety | src/raft/raft_node.cpp:249-319 | over a whole run at most one node is ever leader of a term, and all nodes that know a leader of that term know the same one (section 5.2) |
| Leadership.TermUndecided | src/raft/raft_node.cpp:308-319 | a candidate that reaches a quorum of votes is the first winner of its term |
| Safety.LogMatching | src/raft/raft_node.cpp:347-395 | two logs of a run with the same term at one index are identical up to it (section 5.3) |
| Theorems.LogMatchesRequest | src/raft/raft_node.cpp:451-460 | Log Matching between any log of the run and any replication request ever sent |
| Theorems.RequestsMatch | src/raft/raft_node.cpp:451-460 | Log Matching between any two replication requests ever sent: the entries they share and the previous term the later one carries |
| Theorems.DefensiveBranchesAreDead | src/raft/raft_node.cpp:333-381 | in a reachable cluster no delivery throws, finds a conflict at or below the commit index, offers an unfit entry, or reaches a leader of the same term |
| Theorems.CommitClampSafe | src/raft/raft_node.cpp:397-400 | no request commits past its own last entry, so a follower that raises its commit index raises it to what the leader sent, and its log so far is that of every leader of that term |
| Theorems.AcknowledgementsHold | src/raft/raft_node.cpp:413-418 | what a leader has recorded as matched is in the memory and storage of every follower of its term |
| Theorems.AcknowledgementsSurvive | src/raft/raft_node.cpp:364-405 | no message of the run, however late or repeated, makes a follower of the leader's term lose a matched entry |
| Theorems.RecoveryAccepts | src/raft/raft_node.cpp:41-56 | every state saved at any point of any call in any run passes the checks of the constructor |
| Theorems.CommitScanInRun | src/raft/raft_node.cpp:466-485 | any call of any run that ends on a leader leaves its commit index at the largest index of its term held by a majority of the members, which is the quorum-th largest known index, and where it was if there is none: elections, proposals and acknowledgements included |
| Theorems.IdleInRun | src/raft/raft_node.cpp:413-425 | between calls every leader of every run has committed all it can |
| CommitScan.CallScanned | src/raft/raft_node.cpp:145-160 | under any message a call scans whenever it has to, and commits only an entry of its term on a quorum |
| Theorems.RepairTerminates | src/raft/raft_node.cpp:407-443 | from every reachable state, an in-order exchange between a leader and a follower ends with equal logs, known to the leader, within next-index rounds |
| Theorems.RefusalRetreatsInRun | src/raft/raft_node.cpp:427-442 | a refusal, however delayed, leaves the next index above the matched one and at most at the refused previous index or just above the matched one |
| Safety.RunSound | src/raft/raft_node.cpp:30-160 | every run has a growing history that satisfies the invariant in each of its states |
| Safety.StepSound | src/raft/raft_node.cpp:118-143 | every call and every crash keeps the cluster invariant with an extended history |
| Calls.PerformSound | src/raft/raft_node.cpp:60-160 | every call keeps the invariant of its node and of every message it sends |
| Calls.CrashSound | src/raft/raft_node.cpp:222-228 | a restart from any save of an interrupted call keeps the invariant |
| Elections.GrantOk | src/raft/raft_node.cpp:296-305 | granting a vote records one vote per term and a ballot that still holds everything the voter acknowledged |
| Elections.CandidacyOk | src/raft/raft_node.cpp:249-261 | standing for election uses a term in which the node had neither voted nor stood |
| Elections.FollowerOk | src/raft/raft_node.cpp:230-247 | stepping down keeps the node invariant |
| Leadership.CrownOk | src/raft/raft_node.cpp:271-288 | winning records a leadership elected by a majority whose logs were no more current, extended by the no-op |
| Leadership.AppendedOk | src/raft/raft_node.cpp:154-155 | a leader's append extends its term's log and keeps every trace into it |
| Replication.ReplicatedChosen | src/raft/raft_node.cpp:473-478 | an index of the current term that the leader counts on a quorum is acknowledged by a majority |
| Replication.OverlapAgrees | src/raft/raft_node.cpp:364-384 | the comparison of request and log stops where the log leaves the leader's |
| Replication.MergedKeeps | src/raft/raft_node.cpp:376-395 | accepting a request loses nothing the follower shares with the leader |
| Acceptance.NoDamage | src/raft/raft_node.cpp:364-382 | against the log of the leader, an offered entry contradicts no stored entry of its term and no committed entry |
| Acceptance.AcceptOk | src/raft/raft_node.cpp:364-404 | accepting a request keeps the invariant: log, commit index and acknowledgement together |
| CommitScan.ScanIsOrderStatistic | src/raft/raft_node.cpp:466-485 | the scan equals an independent specification by sorting: the quorum-th largest of the peers' indexes and the leader's own |
| CommitScan.ReplicatedByRank | src/raft/raft_node.cpp:473-479 | an index is on a quorum exactly when the quorum-th largest index reaches it |
| Repair.ConflictStartBounds | src/raft/raft_node.cpp:354-360 | the conflict index begins the run of equal terms that ends at the refused index |
| Repair.LastOfTermHolds | src/raft/raft_node.cpp:431-438 | the search finds the last entry of the conflict term, and 0 only when there is none |
| Repair.RefusalRetreats | src/raft/raft_node.cpp:354-360 | the search for the conflict term never resumes past the refused previous index, because logs that share a term interlock |
| Repair.RefusedRound | src/raft/raft_node.cpp:427-442 | a refused round sends the leader strictly back and leaves both ready for the next round |
| Repair.AcceptedRound | src/raft/raft_node.cpp:364-418 | an accepted round makes the follower's log equal to the leader's, suffix included, and the leader records it |
| Repair.RepairConverges | src/raft/raft_node.cpp:407-443 | rounds end with equal logs after at most next-index many |
| Persistence.CallSaves | src/raft/raft_node.cpp:222-228 | under any message a call saves at most twice, each time the state it has reached, and never ends with a changed term, vote or log unsaved |
| Persistence.PersistBeforeSend | src/raft/raft_node.cpp:285-305 | every message a call queues is borne out by what storage holds: term, vote, log positions and the entries of the acknowledged request |
| Persistence.GrantStoredExactly | src/raft/raft_node.cpp:298-305 | a granted vote is in storage exactly when it was not already taken in memory or was stored then |
| Persistence.FailedSaveVotesTwice | src/raft/raft_node.cpp:299-301 | after a vote whose save failed, a repeated request and a restart give votes to two candidates in one term |
| Persistence.AckStoredExactly | src/raft/raft_node.cpp:364-404 | acknowledged entries are in storage exactly when the request brought something new or they were stored before |
| Persistence.FailedSaveAcknowledges | src/raft/raft_node.cpp:386-404 | after entries whose save failed, the repeated request is acknowledged with storage unchanged and not holding them |
| Lifetime.LifetimeSafety | src/raft/raft_node.cpp:169-174 | from start to end of a process, under any calls: published records are exactly the command entries up to the commit index, once and in order; the committed prefix never changes; a leader's indexes stay in range |
| Lifetime.CallFine | src/raft/raft_node.cpp:60-160 | each call keeps the representation invariant, the committed prefix and the published stream |
| Lifetime.RecoveredWellFormed | src/raft/raft_node.cpp:41-57 | a node recovered from accepted storage is well-formed |
| Replies.OneReply | src/raft/raft_node.cpp:290-405 | a request that is accepted and does not throw is answered by exactly one matching reply; any other queues nothing |
| Replies.BroadcastReaches | src/raft/raft_node.cpp:445-460 | a broadcast queues for each peer, in order, the request it was due before the broadcast, and counts one request id per peer |
| Witness.PairRun | src/raft/raft_node.cpp:249-405 | for any two members there is a run in which a vote and an acknowledgement are delivered and an entry commits on the elected leader |
| Duties.AdoptsTerm | src/raft/raft_node.cpp:118-126 | any peer's message brings the node to the later of the two terms, and a later term makes it a follower |
| Duties.StrangersIgnored | src/raft/raft_node.cpp:119-121 | a message that is misdelivered or not from a peer changes nothing |
| Duties.FollowsLeader | src/raft/raft_node.cpp:341-345 | a current request with fit entries makes any node a follower that knows its leader |
| Duties.VoteByLog | src/raft/raft_node.cpp:296-305 | a voter that is free to vote refuses exactly when its own log is strictly more current |
| Duties.VoteRefused | src/raft/raft_node.cpp:291-298 | a vote given elsewhere, an earlier term or a borrowed name is refused and changes nothing else |
| Duties.LongerLogGetsVote | src/raft/raft_node.cpp:497-502 | a candidate that holds everything the voter has gets its vote |
| Duties.ElectionStarts | src/raft/raft_node.cpp:249-269 | a node that is a majority by itself leads the next term at once; any other stands in the next term and asks every peer once, in order |
| Duties.StandsForElection | src/raft/raft_node.cpp:76-78 | an expired election timer starts such an election |
| Duties.WinsExactly | src/raft/raft_node.cpp:308-319 | a candidate becomes leader exactly when the members whose votes were delivered, repeated or reordered, are more than half of all members |
| Duties.WinnerLeads | src/raft/raft_node.cpp:271-288 | a winner tracks every peer from just before its no-op with nothing matched, and each peer is sent the no-op |
| Duties.HeartbeatReaches | src/raft/raft_node.cpp:66-69 | a leader's tick sends every peer what it is due and changes nothing else |
| Duties.ProposalAppended | src/raft/raft_node.cpp:154-159 | the proposed command itself ends log and storage, commits at once if it can, and ends a request to every peer |
| Duties.CommitIsFollowed | src/raft/raft_node.cpp:397-400 | a follower that acknowledges a request commits as far as the leader's commit index and its own log reach |
| Duties.RefusedOtherwise | src/raft/raft_node.cpp:324-362 | any other request stores and commits nothing, and is refused under its own request id or throws |
| Duties.SuccessRecorded | src/raft/raft_node.cpp:413-425 | an acknowledgement of any part of the log is recorded; if it completes a majority the commit index rises and every peer is told, otherwise a peer still behind is sent the rest |
| Duties.ReplyIgnored | src/raft/raft_node.cpp:409-429 | a reply of another term, beyond the log or to a node that does not lead, and a refusal of any but the latest request, change nothing |
| Duties.RefusalTaken | src/raft/raft_node.cpp:431-442 | a refusal of the latest request resumes just past the leader's last entry of the conflict term, or at the conflict index, and sends from there |
| Theorems.CommitsInRun | src/raft/raft_node.cpp:397-400 | in every run a delivered request that matches leaves the commit index at the larger of the node's and the leader's, with everything up to there published |
| CommitScan.QuorumIsMajority | src/raft/raft_node.cpp:512 | a set of members reaches the quorum exactly when it is more than half of all |
| CommitScan.AdvanceIsLargest | src/raft/raft_node.cpp:466-485 | the scan finds the largest index of the current term held by a majority |
| RaftTypes.PublishedAt | src/raft/raft_node.cpp:487-495 | a record is published exactly when its index holds that command and is committed |
| RaftTypes.PublishedRises | src/raft/raft_node.cpp:487-495 | published indexes strictly rise, so no record appears twice |
| Replies.VoteRequestsReach | src/raft/raft_node.cpp:264-268 | one vote request to each peer, in order, describing the candidate's log |
| RaftNode.RaftStorage.Load | src/raft/raft.cpp:10-18 | loading gives back the state of the last save |
| RaftNode.RaftNode.Start | src/raft/raft_node.cpp:13-58 | a node starts exactly from a valid timing configuration, unique members, a storage, a member's vote and a recoverable log, and is then the recovered node; each refusal is told apart |
| RaftNode.RaftNode.CheckMembers | src/raft/raft_node.cpp:20-25 | accepts exactly the lists of distinct members |
| RaftNode.RaftNode.CheckLog | src/raft/raft_node.cpp:48-55 | accepts exactly the logs with positive, never falling terms within the current term |
| RaftNode.RaftNode.BecomeFollower | src/raft/raft_node.cpp:230-247 | takes the node to the specified state, saving exactly when the term changes |
| RaftNode.RaftNode.StartElection | src/raft/raft_node.cpp:249-269 | takes the node to the specified state: leader of the next term if it is a majority by itself, otherwise a candidate that has asked every peer |
| RaftNode.RaftNode.BecomeLeader | src/raft/raft_node.cpp:271-288 | takes the node to the specified leadership with its no-op saved before it is sent |
| RaftNode.RaftNode.SendAppendEntries | src/raft/raft_node.cpp:451-460 | queues the specified request; all accesses are in range for a tracked peer |
| RaftNode.RaftNode.BroadcastAppendEntries | src/raft/raft_node.cpp:445-449 | queues one request per peer in order |
| RaftNode.RaftNode.ApplyCommittedEntries | src/raft/raft_node.cpp:487-495 | publishes the newly committed commands, skipping no-ops |
| RaftNode.RaftNode.AdvanceCommitIndex | src/raft/raft_node.cpp:466-485 | the nested loops find the largest index of the current term held by a majority |
| RaftNode.RaftNode.HandleRequestVote | src/raft/raft_node.cpp:290-306 | takes the node to the specified state, and restarts the election timer exactly for a granted vote |
| RaftNode.RaftNode.HandleRequestVoteResponse | src/raft/raft_node.cpp:308-319 | takes the node to the specified state; a granted vote makes a leader exactly when it completes a majority |
| RaftNode.RaftNode.AnyUnfit | src/raft/raft_node.cpp:333-339 | finds an entry of term 0 or beyond the request's term exactly when there is one |
| RaftNode.RaftNode.FindConflictStart | src/raft/raft_node.cpp:354-360 | the loop finds the first index of the run of equal terms |
| RaftNode.RaftNode.CompareEntries | src/raft/raft_node.cpp:364-384 | the loop finds how far log and request agree and why it stopped |
| RaftNode.RaftNode.InstallEntries | src/raft/raft_node.cpp:376-395 | truncating and appending in place gives the specified log, saved when it changed |
| RaftNode.RaftNode.HandleAppendEntries | src/raft/raft_node.cpp:321-405 | takes the node to the specified state, follows the leader's commit index whenever it acknowledges, throws exactly on an entry that differs within its term, and restarts the election timer exactly for an addressed request |
| RaftNode.RaftNode.FindLastOfTerm | src/raft/raft_node.cpp:431-438 | the loop finds the last index of a term, or 0 |
| RaftNode.RaftNode.HandleAppendEntriesResponse | src/raft/raft_node.cpp:407-443 | takes the node to the specified state; any fitting acknowledgement is recorded, committed and answered with what is due |
| RaftNode.RaftNode.Step | src/raft/raft_node.cpp:118-143 | takes the node to the specified state, keeps it valid under any message, and tells ignored, handled and thrown apart |
| RaftNode.RaftNode.HandleRequest | src/raft/raft_node.cpp:88-116 | returns the one reply, leaves every other queued message where it was, and changes nothing for a non-request |
| RaftNode.RaftNode.Tick | src/raft/raft_node.cpp:60-81 | refuses negative time; the timer of the node's role expires exactly when the time since its last restart reaches its length, and then a leader sends every peer its due and any other node starts an election; no timer is ever overdue |
| RaftNode.RaftNode.Propose | src/raft/raft_node.cpp:145-160 | only a leader appends, the returned index holds the command, every peer is sent it, and exactly a full log is refused unchanged |
| RaftNode.RaftNode.TakeMessages | src/raft/raft_node.cpp:162-167 | hands over every queued message once |
| RaftNode.RaftNode.TakeCommittedEntries | src/raft/raft_node.cpp:169-174 | hands over the pending records; handed over and pending together stay the published stream |
| ByteOrder.AppendUint64 | src/node/node_runtime.cpp:80-84 | the shift-and-mask loop appends the little-endian digits |
| ByteOrder.ReadUint64 | src/node/node_runtime.cpp:86-98 | the shift-and-or loop reads the value of eight digits, below 2^64 |
| ByteOrder.ReadAt | src/node/node_runtime.cpp:86-98 | at any offset, inside the input or past it, a read succeeds exactly when eight bytes are left |
| ByteOrder.DecodesEncoded | src/storage/kv_store.cpp:30-54 | reading the digits of a value that fits gives the value |
| ByteOrder.EncodesDecoded | src/storage/kv_store.cpp:30-54 | the digits of a value read are the bytes it was read from |
| StateCodec.EncodeState | src/node/node_runtime.cpp:142-164 | succeeds exactly on representable states, with the specified bytes, and names the limit it exceeded |
| StateCodec.DecodeState | src/node/node_runtime.cpp:100-140 | the offset loop computes the specified decoding of any bytes without reading out of range |
| StateCodec.DecodeEncode | src/node/node_runtime.cpp:100-164 | decoding inverts encoding on every representable state |
| StateCodec.DecodeAcceptsExactly | src/node/node_runtime.cpp:100-140 | bytes decode to a state exactly when they spell it, up to the non-zero byte used for a true flag, and the state is representable |
| StateCodec.ExtensionRefused | src/node/node_runtime.cpp:136-138 | accepted bytes followed by anything are refused for trailing data |
| StateCodec.PrefixRefused | src/node/node_runtime.cpp:86-89 | no proper prefix of accepted bytes is accepted |
| SnapshotFormat.ParseSnapshot | src/storage/kv_store.cpp:105-163 | a storable map written in any iteration order is read back as that map |
| SnapshotFormat.ParseAcceptsExactly | src/storage/kv_store.cpp:105-131 | a file loads to a map exactly when the map is storable and the file is its snapshot in some order |
| SnapshotFormat.ParsedIsSnapshot | src/storage/kv_store.cpp:116-131 | every accepted file lists distinct keys within the limits and nothing else |
| KvStore.FilePersistence.WriteField | src/storage/kv_store.cpp:56-63 | writes size and bytes, refuses exactly oversized fields, and never touches the snapshot file |
| KvStore.FilePersistence.WritePairs | src/storage/kv_store.cpp:160-163 | the loop writes every pair once in some order |
| KvStore.FilePersistence.Save | src/storage/kv_store.cpp:134-183 | whatever fails, the snapshot file is the old one or a complete new one, at the end and in every state on the way; failure leaves it alone; a storable map without faults is saved |
| KvStore.FilePersistence.Read | src/storage/kv_store.cpp:90-132 | the field loop computes the specified loading of any file, and a file that cannot be inspected or opened is an error, never an empty map |
| KvStore.ReadFieldAt | src/storage/kv_store.cpp:65-74 | reads one field or names what is wrong with it |
| KvStore.ReadPairsAt | src/storage/kv_store.cpp:116-126 | the loop reads the pairs and refuses a duplicate key |
| KvStore.KvStore.Open | src/storage/kv_store.cpp:185-190 | opening succeeds exactly on a readable, loadable file and then memory and file agree |
| KvStore.KvStore.Put | src/storage/kv_store.cpp:192-199 | memory and file change together or not at all, and a crash at any point leaves a file that loads to the old or the new map |
| KvStore.KvStore.Get | src/storage/kv_store.cpp:201-208 | a read from memory is what a restart would read from the file |
| KvStore.KvStore.Erase | src/storage/kv_store.cpp:210-220 | as Put; a missing key touches neither file; without faults a present key is always erased |
| StoreRuns.Effect | src/storage/kv_store.cpp:192-220 | after an operation the file loads to the map before it or the map it makes, as the outcome says |
| StoreRuns.RunReloads | src/storage/kv_store.cpp:134-220 | over any run of completed, failed and crashed operations the file loads to the effect of all completed, no failed and some crashed ones, in order |
| StoreRuns.AcknowledgedSurvives | src/storage/kv_store.cpp:192-220 | an acknowledged put or erase is found by every later start until another operation on its key may have taken effect |
| StoreRuns.UntouchedKept | src/storage/kv_store.cpp:192-220 | a key nobody managed to change keeps its value |
| DurableStorage.DurableRaftStorage.Save | src/node/node_runtime.cpp:176-178 | success means every restart recovers exactly this state, failure changes nothing, a crash leaves the old or the new state; on a working disk, while the store has a place for the key, it succeeds exactly on savable states and keeps that place; in the life of the file it is one put |
| DurableStorage.DurableRaftStorage.LoadState | src/node/node_runtime.cpp:171-174 | the state a restart recovers from the file, the initial one when the key is missing |
| DurableStorage.EncodeSize | src/node/node_runtime.cpp:147-162 | the size of an encoded state, computed from its parts |
| DurableStorage.StorableWith | src/storage/kv_store.cpp:56-59 | adding an encoded state leaves the map storable exactly when its size is within the field limit |
| DurableStorage.EncodableNotSavable | src/node/node_runtime.cpp:22 | a state the encoder accepts and the store cannot hold |
| DurableStorage.AcknowledgedStateRecovered | src/node/node_runtime.cpp:166-182 | through any run of operations on the file a node restarts with the last acknowledged state until a later save may have taken effect |
| DurableCluster.CrashFindsSave | src/node/node_runtime.cpp:171-178 | a file that receives the saves of a call and is cut off anywhere recovers one of those saves or the state before them, and the last when all complete |
| DurableCluster.StepRefines | src/raft/raft_node.cpp:222-228 | every call and every crash of a node over its file is a step of the cluster with ideal storage, and files and memory agree again |
| DurableCluster.RunRefines | src/node/node_runtime.cpp:213-216 | the clusters of every run over files form a run over ideal storage |
| DurableCluster.DurableSafety | src/raft/raft_node.cpp:321-495 | State Machine Safety with the state of every node in bytes on disk and crashes in the middle of any write |
| DurableCluster.RestartSucceeds | src/raft/raft_node.cpp:41-56 | wherever a call is cut off, the file decodes to a state the constructor accepts |
| Shutdown.NoLostWakeup | src/node/node_runtime.cpp:268-330 | in every interleaving, once stop has notified, no worker sleeps or is about to |
| Shutdown.ShutdownFinishes | src/node/node_runtime.cpp:268-343 | from the moment the flag is cleared every schedule, fair or not, ends after finitely many steps with the ticker and all workers gone and stop returned |
| Shutdown.NoDeadlock | src/node/node_runtime.cpp:268-343 | until stop has returned some thread can move without a spurious wakeup |
| Shutdown.StepsRunOut | src/node/node_runtime.cpp:289-343 | with the flag cleared every step of every thread lowers a well-founded measure, whatever the ticker's last batch |
| Shutdown.EachTakenAtMostOnce | src/node/node_runtime.cpp:316-343 | everything queued is, once and in order, taken by a worker, dropped by stop or still queued; nothing is dropped otherwise |
| Shutdown.NeverTakesFromEmpty | src/node/node_runtime.cpp:321-326 | a worker past its exit test always finds a message |
| Shutdown.NoMissedMessage | src/node/node_runtime.cpp:316-343 | in every interleaving a worker that sleeps while a message is queued has the notification still on its way |
| Shutdown.MessageDelivered | src/node/node_runtime.cpp:289-343 | a schedule exists in which a sleeping worker is woken for a message of the ticker and sends it |
| Shutdown.InvKept | src/node/node_runtime.cpp:268-343 | every step keeps mutual exclusion, the flag order, the wakeup invariant and conservation |
| Shutdown.LostWakeupExactly | src/node/node_runtime.cpp:251-265 | a wakeup can be lost exactly on the failure path of start, as soon as there is a worker |
| Shutdown.FailurePathAbandons | src/node/node_runtime.cpp:251-262 | the interleaving, for any number of workers |
| Shutdown.AbandonedForGood | src/node/node_runtime.cpp:257-261 | such a worker sleeps and the join waits in every continuation without a spurious wakeup |

## Left out

- gRPC client, server and protobuf mapping: only the effect is kept, that messages may be lost, delayed or repeated.
- Saves that fail while the process goes on: the theorems over runs assume that a save completes or the node crashes; see "What does not hold".
- The random engine: an election timeout is any value of its range.
- uint64 wrap-around in the protocol: terms, indexes and request ids are unbounded there, while the codecs keep their 64-bit limits.
- Liveness of elections: depends on timing, and in the cluster a timer may expire at any moment; only the repair exchange and the shutdown have termination results.
- Queueing between a node and the network: in the cluster a call's messages reach the network when the call ends; a delay in the outbox is a delay of the message.
- The direct hand-over of a reply to an incoming request is part of the node class; the cluster lets the reply travel as a message, which allows more.
- Durability below the file system (fsync): a completed write and a rename are taken as durable, and a rename as atomic; docs/architecture.md:22-23 promises no more.
- An empty file path, refused by the constructor of the file persistence.
- The restart of a runtime after stop, and a second concurrent call of stop, which returns at once.
- Linearizability of client reads and writes: client operations are local to a node and do not pass through Raft.
- `InMemoryKeyValueStore`, `src/main.cpp`, environment parsing, snapshots of the node state for logging: thin.
