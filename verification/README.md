# A verified model of the distributed cache

The project models, in Dafny 4.11, the five parts of the cache that carry its guarantees, and proves
what they promise over every input and every run:

- **Raft** (`Raft*.dfy`, `Quorums.dfy`). The handlers are a class whose methods are proved equal to
  pure handler functions (`RaftHandlers`, `RaftNode`). A cluster is a transition system over those
  functions (`RaftSystem`): messages may be lost, duplicated and reordered, and a handler is one step
  for each time it holds its lock. Every result is about all runs of a fixed cluster. Where one needs
  more, a cluster of safe size or an order of delivery, the row says so, and for the main ones the
  condition is proved exact. `RaftRuns` shows that a handler that sends to all peers or applies
  several entries is a run of single steps. Beside what cannot go wrong there is what can always still
  happen: from every reachable state an electing set of nodes can get a leader (`RaftVoting`) and a new
  command committed and applied by all of them (`RaftProgress`).
- **The hash ring** (`HashRing`, `Ring`, `SortedSeqs`, `Decimals`), with the hash an arbitrary
  function, so that colliding positions are covered.
- **The store** (`StoreSpec`, `StoreRuns`, `Store`): an index, a recency list and a byte count,
  against a list ordered by last touch and against a plain map with expiry times.
- **Quorum replication** (`ReplicationConfig`, `QuorumReads`, `Replication`), with every failure of
  the network a parameter, and **routing** over the ring (`Routing`).
- **The wire format** (`Text`, `Wire`, `RequestCodec`, `ResponseCodec`, `Codec`): whole streams of
  frames, with bytes as characters; command by command (`Commands`) and kind by kind (`Replies`) the
  very bytes, and what the decoders accept at all.

Some promises do not hold of the code as it stands. For each the exact condition is proved, over all
inputs, together with a failing case for every configuration outside it:

- A node's peer list leaves the node itself out (`cmd/node/main.go:129-132`), and the majority is
  taken of that list. Two leaders of one term are reachable exactly for even sizes from four up
  (`ElectionSafetyIff`), and with them Log Matching fails (`LogMatchingIff`) and both halves of the
  cluster can apply an entry of their own (`SafeInSendOrderIff`), even when requests arrive in the
  order they were sent. When the list holds the node too, every size is safe.
- A node that steps down forgets its vote even when its term stays the same
  (`internal/raft/node.go:419-425`). It can then vote for a second candidate of that term, exactly in
  clusters of three members or more (`VotesOnceIff`). Election Safety holds all the same.
- A follower cuts its log after `prevIndex` before it appends, so an old heartbeat that arrives late
  drops acknowledged entries. If requests may arrive in any order, two nodes can apply different
  entries at one index exactly in clusters of three members or more (`SafeUnderReorderingIff`). In
  clusters of any safe size it cannot happen in a run in which no follower accepts a request shorter
  than one it accepted before in the same term, in particular when the requests of a term reach a
  follower in the order they were sent.
- The apply loop gives up its lock between two entries (`internal/raft/node.go:523-525`). If the log is
  cut in between, the loop reads outside it and the node goes down. Under arbitrary delivery this can
  happen in every cluster but that of a single node (`ReadsInLogUnderReorderingIff`), so also in a
  cluster of two, which otherwise stays consistent. In send order it can happen exactly where two
  leaders can (`ReadsInLogInSendOrderIff`).
- A quorum read falls back to the first value reported when no value has enough reports. Overlapping
  quorums therefore do not rule out stale reads; they are ruled out exactly when a write waits for
  all replicas (`NeverStaleIffWriteAll`).
- A join or a leave with colliding positions can move keys and change replica lists beyond the node
  concerned. The other nodes are left alone exactly when each of their positions that is taken over
  or given up is followed by another of the same owner (`JoinKeepsReplicasIff`,
  `LeaveKeepsReplicasIff`, `LeaveMovesOnlyItsOwnIff`). A leave can even empty a ring that still has
  members (`CollisionEmptiesRing`).
- A background cleanup can decide which entry is evicted next. Over all runs of the store whose clock
  never goes back it is unobservable exactly when there is no byte limit (`CleanupInvisibleIff`).
- The comment on `Len` in `internal/cache/store.go:148` speaks of live keys, but the code counts expired
  entries that nothing has removed yet. The two agree exactly when no entry has expired
  (`LenCountsLiveIff`).
- The encoders accept keys, messages, ids and addresses that do not fit their lines. What is decoded is
  what was encoded exactly when a key is one line and not white space alone (`RequestRoundTrip`), a
  message is one line, a node's id and address are words, and a member's fit a line cut at its first
  space (`ResponseRoundTrip`).

## Model

| member | source | states |
|---|---|---|
| `RaftNode.Node.constructor` | internal/raft/node.go:56-84 | a new node is a follower of term 0 with the sentinel alone in its log |
| `RaftNode.Node.StepDown` | internal/raft/node.go:419-425 | the fields after stepping down: new term, no vote, the leader given |
| `RaftNode.Node.StartElection` | internal/raft/node.go:328-366 | the candidate's state and the request that goes to every peer, with the last index and term of its log |
| `RaftNode.Node.HandleRequestVote` | internal/raft/node.go:162-190 | state and answer: a stale term is refused, a later one adopted, a vote given only if the node remembers none for another candidate, and only to a log at least as up to date |
| `RaftNode.Node.HandleVoteReply` | internal/raft/node.go:371-397 | a vote counts only for a candidate of the term it was asked in; a later term ends the candidacy |
| `RaftNode.Node.TakeOffice` | internal/raft/node.go:402-417 | a winner becomes leader with next index at the end of its log and match index zero for every peer, and sends each a request without entries that starts at the end of its log |
| `RaftNode.Node.ClampNext` | internal/raft/node.go:435-447 | the next index used for a peer, brought into the bounds of the log |
| `RaftNode.Node.Replicate` | internal/raft/node.go:431-461 | a leader, and no one else, makes one request to each peer, with the whole suffix of the log from that peer's next index |
| `RaftNode.Node.HandleAppendEntries` | internal/raft/node.go:193-231 | state and answer of a follower: refusal, truncation, renumbered append; after success the commit index has reached the leader's as far as the log goes, and if that raised it everything up to it is applied, in order |
| `RaftNode.Node.TakeEntries` | internal/raft/node.go:215-228 | the same for the part of the handler that appends and commits |
| `RaftNode.Node.CountHolders` | internal/raft/node.go:497-504 | the loop counts this node and the peers whose match index reaches the index |
| `RaftNode.Node.AdvanceCommit` | internal/raft/node.go:493-509 | the commit index moves to the highest index of the current term held by a majority |
| `RaftNode.Node.HandleAppendReply` | internal/raft/node.go:463-512 | state of a leader after an answer and the requests it makes: step down, back off by one, or record the match, commit and apply; a new round unless the answer is stale or the apply loop takes the node down |
| `RaftNode.Node.ApplyOne` | internal/raft/node.go:518-525 | one turn of the apply loop is the system's step: the next entry is taken, or the node goes down when it is outside the log |
| `RaftNode.Node.ApplyCommitted` | internal/raft/node.go:517-535 | the loop without interruption: entries up to the commit index are handed over once and in order, as far as the log goes, and the node goes down exactly when it does not go that far |
| `RaftNode.Node.Submit` | internal/raft/node.go:125-149 | only a leader accepts a command; it appends and sends it, and alone in its cluster commits it and has applied it last when it is done |
| `RaftCrashes.AloneCommitsAll` | internal/raft/node.go:142-144 | in every run of a cluster of one, every entry in the log is committed |
| `RaftMessages.HearsTerms` | internal/raft/node.go:162-474 | in every cluster and state, a node that hears a message is not behind its term, and is a follower if the term was later |
| `RaftMessages.HearsLeader` | internal/raft/node.go:200-204 | a request that is not stale makes its receiver a follower of the sender, accepted or not |
| `RaftMessages.TermsGrow` | internal/raft/node.go:162-474 | no step lowers a term |
| `RaftMessages.VoteIsKept` | internal/raft/node.go:174-180 | a vote is given again to the same request and to no other candidate of the term |
| `RaftMessages.AnswerRecords` | internal/raft/node.go:487-491 | only the entries sent are recorded: an answer to an empty request changes no next or match index |
| `RaftMessages.AcceptNumbers` | internal/raft/node.go:215-222 | whatever numbers the entries of an accepted request carry, in the log they are numbered by position, with term and command kept and the log before them unchanged |
| `RaftRuns.ApplyAllReaches` | internal/raft/node.go:517-535 | the apply loop, as far as the log goes, is a run of single applications, so the handlers that apply reach only reachable states |
| `RaftRuns.RoundReaches` | internal/raft/node.go:431-461 | a round of requests is a run of single sends, after which each request is under way |
| `Quorums.ElectionsOverlapIff` | internal/raft/node.go:337-397 | any two sets of votes that elect share a voter exactly for safe sizes: always when the peer list holds the node itself, else for odd sizes and for two nodes |
| `Quorums.ElectionMeetsCommit` | internal/raft/node.go:493-509 | for safe sizes an electing set of votes and a committing set of holders share a node |
| `RaftVoting.VotesAreTotal` | internal/raft/node.go:174-176 | whatever the logs, of any two nodes one would vote for the other in a term that is new to it |
| `RaftVoting.FavouriteReached` | internal/raft/node.go:174-176 | in every reachable state every set of members has one that all its others would vote for |
| `RaftVoting.CanElect` | internal/raft/node.go:328-417 | from every reachable state of every cluster, any electing set of nodes can get a leader among them without any log being touched |
| `RaftElection.StepElectionInv` | internal/raft/node.go:162-425 | for safe sizes every step keeps the election invariant, though a candidate that steps down within its term forgets its vote |
| `RaftElection.WinnerIsFirst` | internal/raft/node.go:383-397 | for safe sizes a candidate that wins is the first to win its term |
| `RaftTheorems.ElectionSafety` | internal/raft/node.go:162-425 | in every run of a cluster of safe size at most one node ever leads in a term |
| `RaftTheorems.NamedLeaderIsElected` | internal/raft/node.go:200-204 | in clusters of safe size a node that names a leader names the one that leads in its term |
| `RaftCounterexamples.TwoLeaders` | internal/raft/node.go:337-397 | every other size has a run with two leaders in term 1, under either delivery |
| `RaftCounterexamples.ElectionSafetyIff` | internal/raft/node.go:337-397 | one leader per term in all reachable states if and only if the size is safe, under either delivery |
| `RaftCounterexamples.VotesTwice` | internal/raft/node.go:419-425 | for any two members of a cluster of three or more: the first votes for itself and then, in the same term, for the second |
| `RaftCounterexamples.VotesOnceIff` | internal/raft/node.go:419-425 | no node votes for two candidates of one term in any reachable state if and only if there are at most two members |
| `RaftCounterexamples.SplitCommits` | internal/raft/node.go:337-509 | every other size has a run, even one in send order, in which both leaders commit and apply an entry of their own at index 1 |
| `RaftCounterexamples.SafeInSendOrderIff` | internal/raft/node.go:337-535 | when requests arrive in send order, a cluster applies consistently in all reachable states if and only if its size is safe |
| `RaftCounterexamples.LogMatchingIff` | internal/raft/node.go:125-417 | Log Matching in all reachable states if and only if the size is safe, under either delivery |
| `RaftLog.StepLogInv` | internal/raft/node.go:125-231 | for safe sizes every step keeps each log consistent with the logs of the leaders that made its entries |
| `RaftLog.AcceptedIsSnapshot` | internal/raft/node.go:208-222 | splicing an accepted request gives a prefix of the log of that term's leader |
| `RaftTheorems.LogMatching` | internal/raft/node.go:132-138 | in clusters of safe size, under any reordering: same term at an index means same log up to it |
| `RaftTheorems.RequestWasSent` | internal/raft/node.go:445-461 | every request under way was sent in an earlier step by the leader of its term |
| `RaftTheorems.AcceptEqualsSnapshot` | internal/raft/node.go:208-222 | in clusters of safe size a follower that answers with success holds exactly the log its leader had when sending |
| `RaftTheorems.AcceptTakesCommit` | internal/raft/node.go:224-228 | in every run of every cluster a follower that accepts has committed at least what the leader had when sending, as far as that was in the leader's log |
| `RaftRetention.UpToDateRetains` | internal/raft/node.go:174-176 | a voter's up-to-date test passes on every entry that may have been chosen |
| `RaftRetention.WinnerHas` | internal/raft/node.go:383-397 | for safe sizes a winner holds every entry that may have been chosen in an earlier term |
| `RaftRetention.StepRetentionInv` | internal/raft/node.go:125-535 | for safe sizes every step that shortens no acknowledged log keeps: what may be chosen is retained by its holders and had by later leaders |
| `RaftCommit.CommitScanSpec` | internal/raft/node.go:493-509 | the downward scan finds the highest index that may be committed, and none above it may |
| `RaftCommit.CommittableIsCommitted` | internal/raft/node.go:493-509 | an entry counted on a majority in the leader's own term is committed for good |
| `RaftCommit.SnapshotKeepsCommitted` | internal/raft/node.go:215-222 | accepting a request never replaces a committed entry |
| `RaftCommit.StepCommitInv` | internal/raft/node.go:125-535 | for safe sizes every step that shortens no acknowledged log keeps: each commit index is justified by a committed entry |
| `RaftSafety.LeaderCompleteness` | internal/raft/node.go:162-231 | in clusters of safe size, when no accepted request is shorter than one accepted before in its term: what any node ever commits is in the log of every leader of a later term, even one that led before the commit, and of every leader of its own term from then on |
| `RaftSafety.StateMachineSafety` | internal/raft/node.go:431-535 | in clusters of safe size, over whole runs in which no accepted request is shorter than one accepted before in its term: no two nodes apply different entries at one index |
| `RaftSafety.StateMachineSafetyInSendOrder` | internal/raft/node.go:431-535 | the same, in clusters of safe size, whenever the requests of a term reach a follower in the order they were sent |
| `RaftSafety.SendOrderNeverShrinks` | internal/raft/node.go:445-461 | in clusters of safe size delivery in send order means no accepted request is shorter than an earlier one of its term |
| `RaftSafety.AppliedGrows` | internal/raft/node.go:517-535 | what was applied stays applied |
| `RaftSafety.AcceptCatchesUp` | internal/raft/node.go:224-228 | in clusters of safe size, when no accepted request is shorter than one accepted before in its term: after accepting, a follower's commit index is the greater of its own and the leader's at sending |
| `RaftSafety.StepCommitGrows` | internal/raft/node.go:224-228 | in such runs no commit index ever falls |
| `RaftSafety.AppliedIsLog` | internal/raft/node.go:517-535 | in clusters of safe size, when no accepted request is shorter than one accepted before in its term: the apply loop stays within the log and hands over exactly the committed log |
| `RaftSafety.AcknowledgedKeptIff` | internal/raft/node.go:215-222 | in clusters of safe size accepting keeps all a follower acknowledged in the term if and only if the request is no shorter than those before |
| `RaftReordering.ReorderingBreaksSafety` | internal/raft/node.go:215-222 | in every cluster of three members or more, for any two of them, late heartbeats end with two entries applied at one index |
| `RaftPairs.StepPairInv` | internal/raft/node.go:162-231 | with at most two members every step keeps all leaders' logs on one chain, each kept by its leader and vouched for by every vote |
| `RaftPairs.SmallClusterSafety` | internal/raft/node.go:162-231 | with at most two members State Machine Safety holds in every run, however messages are reordered |
| `RaftReordering.SafeUnderReorderingIff` | internal/raft/node.go:215-222 | under arbitrary delivery a cluster applies consistently in all reachable states if and only if it has at most two members |
| `RaftCrashes.LateHeartbeat` | internal/raft/node.go:215-222 | for any two members of any cluster: a heartbeat sent before two proposals reaches a follower that has applied one of the two, and cuts its log below what it reads next |
| `RaftCrashes.RivalHeartbeat` | internal/raft/node.go:200-222 | for every size that is not safe, even in send order: the first heartbeat of the other leader does the same |
| `RaftCrashes.ReadsInLogUnderReorderingIff` | internal/raft/node.go:517-525 | under arbitrary delivery the apply loop stays within the log in all reachable states if and only if the cluster has one member |
| `RaftCrashes.ReadsInLogInSendOrderIff` | internal/raft/node.go:517-525 | in send order it does if and only if the size is safe |
| `RaftBounds.StepBounds` | internal/raft/node.go:125-512 | in every cluster, even one with two leaders in a term, every step keeps: logs numbered and sorted, requests fit for the log they extend, next indexes within the leader's log |
| `RaftBounds.LogShape` | internal/raft/node.go:132-138 | in every run of every cluster a log starts with the sentinel, numbers its entries by position and never falls in term |
| `RaftBounds.NextIndexInBounds` | internal/raft/node.go:435-447 | in every run of every cluster a leader's next indexes lie within 1 and the log length whenever used |
| `RaftBacktracking.RejectionCount` | internal/raft/node.go:478-485 | in lockstep the rejections number exactly the steps from the next index down to the meeting point of the logs |
| `RaftBacktracking.SearchConverges` | internal/raft/node.go:208-222 | and end with the follower holding the leader's log |
| `RaftProgress.CatchUp` | internal/raft/node.go:431-491 | in clusters of safe size, from any reachable state, a leader whose term is not behind brings a follower to its whole log and records it, whatever the two logs were |
| `RaftProgress.CanCommit` | internal/raft/node.go:125-535 | from every reachable state of a cluster of safe size, under any delivery, an electing set of nodes can go on to hold a new command at the end of one log, committed by all of them |
| `RaftProgress.CommandGoesThrough` | internal/raft/node.go:125-535 | and in send order to have it applied by all of them, after everything they had applied |
| `Ring.Ring.constructor` | internal/cluster/ring.go:40-53 | an empty ring; a count of virtual nodes that is not positive becomes 128 |
| `Ring.Ring.AddNode` | internal/cluster/ring.go:56-79 | refusals, or the ring with the node's positions claimed and all positions sorted |
| `Ring.Ring.RemoveNode` | internal/cluster/ring.go:82-96 | refusal, or the ring with the node's positions released |
| `Ring.PositionsOf` | internal/cluster/ring.go:203-205 | a node's positions are the hashes of its id, `#` and each number below the count |
| `Ring.Ring.RebuildHashes` | internal/cluster/ring.go:195-201 | whatever the order of the walk, the array is the ascending list of the positions in the table |
| `Ring.Ring.Search` | internal/cluster/ring.go:175-193 | the binary search finds the first position at or after the hash |
| `Ring.Ring.Lookup` | internal/cluster/ring.go:99-101 | the owner is the member at the clockwise successor, with wrap-around, and heads the owner list |
| `Ring.Ring.LookupN` | internal/cluster/ring.go:104-143 | errors, or the first `n` distinct owners in clockwise order, each a current member |
| `HashRing.WalkOwners` | internal/cluster/ring.go:121-141 | walking the array, even one with repeated positions, meets the owners the table gives |
| `HashRing.OwnersCount` | internal/cluster/ring.go:104-143 | an owner list holds every owning node once and no other |
| `HashRing.OwnersStart` | internal/cluster/ring.go:175-193 | an owner list starts with the node at the clockwise successor |
| `HashRing.JoinMovesOnlyToJoiner` | internal/cluster/ring.go:71-77 | for any hash, after a join a key keeps its owner or moves to the joining node |
| `HashRing.LeaveMovesOnlyItsOwnIff` | internal/cluster/ring.go:90-94 | after a leave all keys of other nodes keep their owner if and only if each of its positions that another node had taken over is followed, outside its positions, by one of that node |
| `HashRing.ReleaseKeepsOrderIff` | internal/cluster/ring.go:90-94 | giving up positions leaves a prefix of every owner list if and only if each is followed by one of the same owner, if by any |
| `HashRing.JoinKeepsReplicasIff` | internal/cluster/ring.go:56-79 | deleting the joining node from every new replica list leaves a prefix of the old one if and only if each position it takes over is followed by one of the loser; without collisions there is none |
| `HashRing.LeaveKeepsReplicasIff` | internal/cluster/ring.go:82-96 | deleting the leaving node from every old replica list leaves a prefix of the new one if and only if each position taken over from it is followed by one of its new owner |
| `Ring.CollisionBreaksReplicas` | internal/cluster/ring.go:71-94 | for any three nodes, any number of virtual nodes and any hash by which two of them share their positions: a ring built by joins on which a join and a leave break both laws |
| `Ring.CollisionsExist` | internal/cluster/ring.go:203-205 | for any three nodes and any number of virtual nodes there is such a hash |
| `Ring.JoinKeepsReplicas` | internal/cluster/ring.go:56-79 | without collisions, after any history: deleting a joining node from every new replica list leaves a prefix of the old one |
| `Ring.LeaveKeepsReplicas` | internal/cluster/ring.go:82-96 | without collisions, after any history: deleting a leaving node from every old replica list leaves a prefix of the new one |
| `Ring.CollisionEmptiesRing` | internal/cluster/ring.go:90-94 | a leave can empty the ring while another member is still in it |
| `Ring.ReplayCanonical` | internal/cluster/ring.go:56-96 | without collisions, after any history the table is the union of the members' positions |
| `Ring.ReplayTight` | internal/cluster/ring.go:195-201 | and the array lists each position once |
| `Ring.RingDependsOnMembers` | internal/cluster/ring.go:56-96 | two histories with the same members give the same ring |
| `Ring.LeaveUndoesJoin` | internal/cluster/ring.go:56-96 | leaving right after joining restores the ring |
| `Ring.EveryMemberOwns` | internal/cluster/ring.go:104-143 | a list that is long enough names every member |
| `Store.Store.constructor` | internal/cache/store.go:54-67 | an empty store with its limit |
| `Store.Store.Set` | internal/cache/store.go:70-103 | index, list and byte count stay in step and hold what the history replays to; the refusal reported is the specified one |
| `Store.Store.Get` | internal/cache/store.go:106-126 | the same for a read: an expired entry goes, a live one moves to the front and its value is returned |
| `Store.Store.Delete` | internal/cache/store.go:129-146 | the same for a delete, which reports whether a live entry was there |
| `Store.Store.CleanupExpired` | internal/cache/store.go:177-193 | the two loops leave exactly the live entries, in order |
| `Store.Store.EnsureCapacity` | internal/cache/store.go:195-203 | evicts from the least recent end until the new size fits |
| `Store.Store.RemoveElement` | internal/cache/store.go:205-210 | unlinks one element from list and index and subtracts its size |
| `Store.Store.Len` | internal/cache/store.go:149-153 | the index has as many keys as the list has entries, expired ones included |
| `Store.Store.MemoryBytes` | internal/cache/store.go:156-160 | the count is the sum of key and value sizes and within the limit |
| `StoreSpec.EvictShortest` | internal/cache/store.go:195-203 | eviction keeps the longest prefix that leaves room, so drops the shortest sufficient tail |
| `StoreSpec.NeverMemoryLimit` | internal/cache/store.go:81-89 | a `Set` never fails for want of memory, and is refused if and only if the entry alone exceeds the limit |
| `StoreSpec.ReplayInv` | internal/cache/store.go:70-146 | after any operations: no key twice, order strictly by last touch, total within the limit |
| `StoreSpec.SumIsBytes` | internal/cache/store.go:205-210 | what is counted is every byte of every key and value |
| `StoreRuns.LivesForItsLifetime` | internal/cache/store.go:106-146 | without a limit and with a clock that never goes back, `Get` and `Delete` find a key just while the lifetime of its last `Set` lasts, and for good if that is not positive |
| `StoreRuns.FoundIsLastSet` | internal/cache/store.go:106-126 | under any limit and clock a key is found only with the value of its last write and within the lifetime given there |
| `StoreRuns.CleanupKeepsIff` | internal/cache/store.go:177-193 | a cleanup keeps an entry if and only if its lifetime is not over |
| `StoreRuns.SetKeepsLongest` | internal/cache/store.go:70-103 | a `Set` that fits puts its entry first and keeps the longest prefix of the others, in order of last touch, that leaves room |
| `StoreRuns.GetLeaves` | internal/cache/store.go:106-126 | a `Get` that misses leaves nothing under its key, one that hits leaves the entry first, and the others stay |
| `StoreRuns.StampIsLastTouch` | internal/cache/store.go:99-121 | the stamp an entry is ordered by is the last operation that stored or returned it |
| `StoreRuns.EvictsLeastRecent` | internal/cache/store.go:195-203 | in every run, what is evicted was last touched before everything kept |
| `StoreRuns.HitsAreCurrent` | internal/cache/store.go:70-146 | for any limit and clock, a hit gives what a map with expiry would give |
| `StoreRuns.RefinesMap` | internal/cache/store.go:70-146 | without a limit and with a clock that never goes back, every answer is the map's |
| `StoreRuns.CleanupInvisible` | internal/cache/store.go:177-193 | then a cleanup anywhere in any run changes no later answer |
| `StoreRuns.CleanupInvisibleIff` | internal/cache/store.go:177-203 | over all runs with such a clock, no cleanup changes an answer if and only if there is no limit |
| `StoreRuns.LenCountsLiveIff` | internal/cache/store.go:148-153 | after any run the length is the number of live entries if and only if none has expired |
| `StoreRuns.ExpiredIsCounted` | internal/cache/store.go:148-153 | a store of one expired entry has length one and nothing live |
| `StoreRuns.CleanupShowsUnderLimit` | internal/cache/store.go:177-203 | under every limit some run shows the cleanup: it saves a live entry from eviction |
| `ReplicationConfig.NormalizedIsValidIff` | internal/replication/config.go:47-98 | normalized settings are valid if and only if given quorums do not exceed the factor and level names are known or empty |
| `ReplicationConfig.NormalizedDefaults` | internal/replication/config.go:79-98 | a quorum that is not given becomes the smallest majority, a level that is not named becomes quorum, what is given stays |
| `ReplicationConfig.NormalizedError` | internal/replication/config.go:47-71 | which of several faults is reported |
| `ReplicationConfig.DefaultsOverlapIff` | internal/replication/config.go:79-110 | default quorums exceed the factor together; acknowledged writes meet reads if and only if writes wait for more than the primary or there are two replicas |
| `QuorumReads.MatchSpec` | internal/replication/manager.go:362-375 | in any order of arrival a value is matched if and only if some value has enough reports |
| `QuorumReads.MatchIsFirst` | internal/replication/manager.go:362-371 | and the value matched is the one that reaches the quorum first |
| `QuorumReads.UnanimousRead` | internal/replication/manager.go:358-383 | when all that answer hold one value, it is returned if they are enough, and otherwise none |
| `QuorumReads.MatchedIsAcknowledged` | internal/replication/manager.go:362-371 | no value but the acknowledged one is ever matched |
| `QuorumReads.AcknowledgedIsReadBack` | internal/replication/manager.go:308-384 | if as many holders answer as the read quorum, every order returns the acknowledged value |
| `QuorumReads.StaleReadIff` | internal/replication/manager.go:358-383 | another value is returned if and only if too few holders answer, enough nodes report some value and the first report is not a holder's |
| `QuorumReads.DeletedStaysDeleted` | internal/replication/manager.go:358-383 | after an acknowledged delete a read is never a value: not found if no responder holds one, else quorum not met |
| `QuorumReads.LateReplicasAnswerFirst` | internal/replication/manager.go:377-378 | for all counts with fewer writes than replicas, a stale read |
| `QuorumReads.NeverStaleIffWriteAll` | internal/replication/manager.go:377-378 | for all read and write counts, over all contents, responders and orders: no stale read if and only if writes wait for all replicas |
| `QuorumReads.NilIff` | internal/replication/manager.go:377-382 | a missing key is reported as found if and only if the read quorum is not positive |
| `Replication.NewManager` | internal/replication/manager.go:32-57 | invalid settings, a missing cluster view and a missing store are refused, in this order; otherwise the manager runs with the normalized settings and takes every node for healthy |
| `Replication.Manager.Broadcast` | internal/replication/manager.go:133-174 | each healthy peer, and no one else, is sent the write once; what each node holds, how each is marked and who acknowledged |
| `Replication.Manager.WriteSet` | internal/replication/manager.go:103-185 | result and contents in every case; level by level when the write succeeds, and who holds the value then: one owner, a write quorum, or every owner of a full replica set |
| `Replication.Manager.WriteDelete` | internal/replication/manager.go:188-233 | the same for a delete of a key the primary holds |
| `Replication.Manager.ReadQuorum` | internal/replication/manager.go:308-384 | for any answers in any order, any quorum and a caller that may give up: the specified result, and each peer asked marked by whether it answered; while every owner holds one value no other is returned, so none after a write at level all |
| `Replication.Manager.CountReports` | internal/replication/manager.go:358-383 | the counting loop gives the specified result |
| `Replication.DefaultsReadBack` | internal/replication/config.go:79-110 | with default quorums: enough holders answering read a write back, and no read undoes a delete |
| `Routing.OneHop` | internal/server/server.go:353-408 | a redirect names a current member that serves the request itself |
| `Routing.WriterOfKey` | internal/server/server.go:353-361 | exactly one node serves the writes of a key, and it serves its reads |
| `Routing.WriteRedirect` | internal/server/server.go:353-395 | any other server of the cluster redirects a write to it |
| `Routing.PrimaryReads` | internal/server/server.go:363-408 | without replication, or with reads for the primary alone, a server serves a read if and only if it is the first owner, and otherwise redirects there |
| `Routing.AloneServes` | internal/server/server.go:389-392 | a server without a cluster and without replication serves everything |
| `Routing.ReadersOfKey` | internal/server/server.go:363-371 | the nodes serving its reads are its replica set |
| `Decimals.ParseDecimal` | internal/protocol/protocol.go:232-235 | reading a printed length gives it back |
| `Decimals.ParseSpec` | internal/protocol/protocol.go:190-194 | a printed number with or without a sign is read back within 64 bits and refused beyond |
| `Decimals.ParsedIsNumber` | internal/protocol/protocol.go:190-194 | nothing else is read as a number |
| `Text.TrimSpec` | internal/protocol/protocol.go:131-135 | trimming takes the six white space characters off both ends, all of them and nothing else |
| `Text.ChompSpec` | internal/protocol/protocol.go:364-372 | a line loses one carriage return at its end |
| `Wire.ReadLineOf` | internal/protocol/protocol.go:364-372 | a line without a newline is read back up to one carriage return, and reading stops after it |
| `Wire.ReadBlockOf` | internal/protocol/protocol.go:236-245 | any bytes, newlines included, are read back by their announced length |
| `Wire.StreamRoundTrip` | internal/protocol/protocol.go:124-179 | a decoder reads a concatenation of frames and consumes every byte if and only if it reads each frame alone |
| `RequestCodec.RequestRoundTrip` | internal/protocol/protocol.go:85-245 | decoding an encoded request gives its canonical form and leaves what follows if and only if its key is one line and not white space alone |
| `RequestCodec.UnknownIsRefused` | internal/protocol/protocol.go:150-178 | any other command is encoded and then refused by the decoder |
| `RequestCodec.RequestStreamRoundTrip` | internal/protocol/protocol.go:85-245 | a list of requests comes out whole, in order, with every byte consumed, if and only if every key is such |
| `RequestCodec.CanonicalIsStable` | internal/protocol/protocol.go:111-117 | what came off the wire goes through it unchanged, its lifetime included |
| `Commands.StoredBytes` | internal/protocol/protocol.go:85-121 | the bytes of SET and REPL_SET, and their refusals |
| `Commands.StoredComesBack` | internal/protocol/protocol.go:181-206 | SET and REPL_SET come back with trimmed key, same value and a positive lifetime in whole seconds, at least one |
| `Commands.ValuedBytes` | internal/protocol/protocol.go:85-121 | the bytes of CLUSTER_JOIN, RAFT_REQUEST_VOTE and RAFT_APPEND_ENTRIES, and their refusals |
| `Commands.ValuedComesBack` | internal/protocol/protocol.go:208-224 | they come back with key and value |
| `Commands.KeyBytes` | internal/protocol/protocol.go:85-121 | the bytes of GET, DEL, OWNER, CLUSTER_LEAVE, REPL_DEL and REPL_GET |
| `Commands.KeyComesBack` | internal/protocol/protocol.go:161-176 | they come back with the key alone |
| `Commands.BareBytes` | internal/protocol/protocol.go:85-121 | the bytes of CLUSTER_MEMBERS, PING, METRICS and RAFT_STATUS |
| `Commands.BareComesBack` | internal/protocol/protocol.go:139-148 | they come back as they are |
| `Commands.EmptyCommandRefused` | internal/protocol/protocol.go:86-88 | nothing is encoded without a command |
| `Commands.AcceptsOnlyFrames` | internal/protocol/protocol.go:124-245 | what is decoded at all starts with the command line, ends with the line END right before what is left, and has just the fields of its command |
| `Commands.BadLifetimeRefused` | internal/protocol/protocol.go:190-194 | a lifetime that is no positive number is refused |
| `Commands.BadLengthRefused` | internal/protocol/protocol.go:232-235 | a length that is no number or below zero is refused |
| `Commands.LifetimeWraps` | internal/protocol/protocol.go:190-197 | a positive lifetime becomes its 64-bit product with a second, which may be negative |
| `Commands.RestOfLineIgnored` | internal/protocol/protocol.go:236-245 | what stands after a value on its line is passed over |
| `Commands.PaddedCommand` | internal/protocol/protocol.go:131-137 | white space around a command does not matter |
| `ResponseCodec.ResponseRoundTrip` | internal/protocol/protocol.go:248-382 | decoding an encoded response of any of the eight kinds gives its canonical form and leaves what follows if and only if its message, node or members fit their lines |
| `ResponseCodec.DecodeMembersOf` | internal/protocol/protocol.go:318-329 | the counted member lines are read back one by one |
| `Replies.ReplyBytes` | internal/protocol/protocol.go:248-284 | the bytes of each of the eight kinds |
| `Replies.AcceptsOnlyReplies` | internal/protocol/protocol.go:287-382 | what is decoded at all starts as its kind does, ends with the line END right before what is left, and has the fields of its kind |
| `Replies.BadCountRefused` | internal/protocol/protocol.go:310-317 | a count of members that is no number or below zero is refused |
| `ResponseCodec.ResponseStreamRoundTrip` | internal/protocol/protocol.go:248-382 | a list of responses comes out whole, in order, with every byte consumed, if and only if each of them fits |
| `Codec.EncodeRequest` | internal/protocol/protocol.go:85-121 | a refusal, or exactly the frame the round trip is about |
| `Codec.EncodeResponse` | internal/protocol/protocol.go:248-284 | the same for responses |
| `Codec.Reader.DecodeRequest` | internal/protocol/protocol.go:124-179 | result or error, and where the reader stands, as parsing specifies |
| `Codec.Reader.DecodeSetRequest` | internal/protocol/protocol.go:181-206 | the same for the value and optional lifetime of a stored entry |
| `Codec.Reader.DecodeResponse` | internal/protocol/protocol.go:287-362 | the same for responses |
| `Codec.Reader.DecodeMembers` | internal/protocol/protocol.go:319-329 | the loop reads exactly the counted members or fails at the first bad line |
| `Codec.Reader.ReadLine` | internal/protocol/protocol.go:364-372 | one line, without its newline and one carriage return |

## Left out

- RaftSafety.StateMachineSafety: assumes that no follower accepts a request shorter than one it accepted before in the same term. For whole clusters the exact condition is RaftReordering.SafeUnderReorderingIff; that every single run with a shorter request is unsafe is not true.
- RaftSafety.LeaderCompleteness: has the same assumption.
- RaftSafety.AppliedIsLog: has the same assumption, and that of a safe size. For whole clusters the exact conditions are RaftCrashes.ReadsInLogUnderReorderingIff and RaftCrashes.ReadsInLogInSendOrderIff.
- RaftNode.Node.HandleAppendEntries: applies the committed entries in one go; the system model applies them one step at a time and lets an answer carry a later term, since the source releases its lock while applying.
- RaftNode.Node.ApplyCommitted: runs the loop without interruption. The source unlocks after each turn (`internal/raft/node.go:523-525`); there the system model lets other steps in, a cut of the log included.
- RaftNode.Node.ApplyOne: takes an entry and hands it over in one step. The source hands it over after unlocking, so two handlers may call the state machine out of index order; the model orders entries by when they are taken.
- RaftNode.Node.Submit: does not wait for the command to be applied.
- Replication.Manager.WriteSet: handles one key without lifetimes; an entry that expires or is evicted after it was acknowledged is outside the statement.
- Replication.Manager.WriteDelete: the same.
- Routing.OneHop: takes the target to have the sender's ring and settings; rings that differ while a change of members spreads are not compared.
- Raft membership changes (`AddPeer`, `RemovePeer`, `SetPeerAddr`): the cluster is fixed.
- Node restarts: term, vote and log are not persisted by the source. A node that went down is not taken out of the system model either: its remaining steps are extra runs.
- That a proposal reported as committed is the caller's own command: waiters are keyed by index alone.
- Timers, deadlines, jitter, goroutines and mutexes: a timeout is a step that may happen at any time, and a critical section is a step. That something happens is never claimed, only that it can: RaftVoting.CanElect and RaftProgress.CommandGoesThrough give a run, not a deadline.
- Test hooks (`AppendLocalEntry`, `Inject*`, `ForceElectionTimeout`).
- Reads in the primary and any modes: one local lookup, or a scan for the first peer with a value.
- Restoring the old value after a failed write, or its lifetime after a failed delete: the source does neither.
- Health checks that ping members in the background.
- White space beyond ASCII in trimming and splitting, and the memory a huge announced length would take.
- The arithmetic of the FNV-1a hash and the estimator of key movement.
- The 64-bit width of terms, indexes and byte counts; lengths, counts and lifetimes on the wire are bounded.
- Transports, JSON messages, connection handling, the HTTP debug server, metrics, discovery and flags.
