# NebulaKV, modelled and proved in Dafny

NebulaKV is a replicated key/value store. A Raft group agrees on a log of commands; each node
applies it to a log-structured storage engine. This project models both halves and proves what they
are for: that the group never disagrees about what it applied, and that the engine is a plain map
across every crash. `dafny verify dfyconfig.toml` (Dafny 4.11) checks the whole project.

## The replication half

| file | holds |
|---|---|
| `RaftTypes`, `RaftNode` | values, and one function per locked region of `src/raft/node.cpp` |
| `RaftServer` | the node as a class: the same regions with fields, loops and a disk, each proved equal to its function |
| `RaftCore`, `RaftCommit` | the history of a run (votes, leaders, each leader's log, acknowledgements, commits) and the invariants its small steps keep |
| `RaftView`, `RaftPhases` | a snapshot plus a suffix stands for a complete log; each region is a few small steps, and every durable image it writes can be restarted from |
| `RaftCluster` | nodes, a network that loses, repeats, delays and reorders, crashes anywhere inside a region, restarts |
| `RaftSafety` | what holds of every run |
| `RaftRegions` | what each region does, said of complete logs and majorities, and what several regions do together |
| `RaftRepair` | log repair, re-delivery, pruning, installing a snapshot |
| `RaftCounterexample` | three runs that show which premises are needed |
| `RaftCodec`, `RaftFiles` | the bytes of hard state, log, snapshot and state machine image, and recovery from them |

A run is a sequence of steps from fresh nodes; a step is any region of any node, a crash in the middle
of a region, or a restart. A crash is known by the last durable image it leaves, which may be the one
the region began with, and by how many entries the node had handed to its state machine by then; the
record of handed entries survives it. A start that refuses the image leaves the node down for good.
Messages stay in flight for ever, so delivery may happen never, late, or many times. Elections, heartbeats and retries happen whenever
they like: timing is a free choice of steps.

Three lines of the source do less than the algorithm they follow, and than `README.md` and
`docs/architecture.md` of the repository promise. They are modelled as written, and each claim that
needs more carries its premise:

* `src/raft/node.cpp:289` bounds a follower's commit by its own last index. Figure 2 of the Raft paper
  bounds it by the last index the request verified. Claims at tier 1 assume that bound of each
  delivered request (`CommitWithin`, a guard on the node and the request).
  `RaftCounterexample.UnverifiedCommit` is a run without it in which two nodes apply different commands
  at one index, and `RaftSafety.FollowerCommitExact` says exactly when the index the handler takes is
  right.
* `src/raft/node.cpp:181-183` reports success once the commit index has passed the entry's index.
  `RaftCounterexample.EarlyReport` is a run, with every commit verified, in which the client of a lost
  command is told it was committed; `RaftSafety.ReportIsRight` says exactly when the report is right.
* `src/raft/node.cpp:314-330` installs an older snapshot over newer applied state. Claims about images
  (tier 2) assume it does not happen (`InstallForward`); `RaftCounterexample.InstallGoesBack` is a run
  in which a new leader, sent below its snapshot by a conflict, takes back the image of a node that still
  claims to have applied as far as before, and `RaftRepair.InstallExact` says exactly when the image still fits.

Election safety and log matching need no premise.

## The storage half

| file | holds |
|---|---|
| `Basics`, `Records`, `Tables` | byte strings, sorted records, the newest entry among tables, merging, dropping tombstones |
| `Selection`, `Manager` | choosing compaction inputs, publishing, flushing, compacting, reloading |
| `Directory` | the durable state: log, table files, manifests, CURRENT, and the trail of states it went through |
| `MemTables`, `Store` | memtables, and the store as a class that refines a map |
| `Checksum`, `Encoding`, `Wal` | CRC-32 and the polynomial division it is, little-endian fields, the write-ahead log as bytes |
| `SSTableFormat`, `SSTableFile`, `SSTableReader` | the parts of a table file, writing it, and looking keys up in it |
| `Bloom`, `BlockCache` | the filter and the cache a lookup goes through |
| `Manifest`, `StorageBytes` | manifests and CURRENT as bytes; the whole durable state as bytes, and sessions that restart from them |

Every write, fsync and rename is one atomic durable step, and `Directory.trail` records the disk after
each. `PersistentStore.Represents(d, m)` says that opening the store on disk `d` yields map `m`; each
operation proves it of every durable state it passes through. `WalFile.AppendIsAtomic` is why an
append may be taken as atomic: any byte prefix of it scans as the log with or without the record.

## Model

| member | source | states |
|---|---|---|
| RaftSafety.ElectionSafety | src/raft/node.cpp:204-226 | over every run, with crashes and restarts, two nodes that lead one term at any two moments are the same node |
| RaftSafety.LogMatching | src/raft/node.cpp:228-297 | two nodes, at any two moments, that know the same term at an index agree on every entry up to it that both retain |
| RaftSafety.StateMachineSafety | src/raft/node.cpp:261-296 | in every run whose followers commit only verified indices, no two nodes ever apply different entries at one index, entries applied by a region that a crash cuts off included |
| RaftSafety.LeaderCompleteness | src/raft/node.cpp:754-773 | every index a node had committed lies in the log of every leader of a later term, even one seen before the commit was counted, and of every later leader of the same term, with the same entry wherever both retain it |
| RaftSafety.AcknowledgedIsFinal | src/raft/node.cpp:177-190 | an entry reported committed by a node that holds it is what every node ever applies at its index |
| RaftSafety.AcknowledgedWhileLeading | src/raft/node.cpp:147-195 | an entry appended while leading its term and reported while still leading that term is what every node ever applies there, even after pruning |
| RaftSafety.ReportIsRight | src/raft/node.cpp:177-190 | over every run: once reported, one entry f is all that any node ever applies at the index; the report is right if and only if f has the submitted entry's term, which is the term the node's log has there unless it has pruned it |
| RaftSafety.FollowerCommitExact | src/raft/node.cpp:288-292 | a delivered request makes the handler hand over only chosen entries if and only if, at the index it takes after the merge, the follower's entry has the term of the leader's |
| RaftSafety.FollowerCommitInRun | src/raft/node.cpp:288-292 | over every run: the last entry the handler hands over is the one every node ever applies there, and every leader of that term has there, if and only if their terms are equal |
| RaftSafety.ImagesAgree | src/raft/state_machine.cpp:33-61 | nodes that have applied equally far hold equal images, whatever mix of entries, snapshots and restarts brought them there |
| RaftSafety.ReadBarrier | src/raft/node.cpp:357-373 | when confirm_leadership returns true, the node has applied all that any node had committed or handed to its state machine when the call began, crashes notwithstanding, and the same entries |
| RaftSafety.ReadBarrierImage | src/raft/node.cpp:357-373 | its image is then the other node's image at the start with further committed entries replayed over it |
| RaftSafety.ConfirmedQuorum | src/raft/node.cpp:623-661 | the nodes that accepted a round, with the leader, are a quorum none of which was past the leader's term when the call began |
| RaftSafety.History | src/raft/node.cpp:82-122 | every run has a history that satisfies the invariants at each state and only grows |
| RaftCounterexample.UnverifiedCommit | src/raft/node.cpp:288-292 | a run of three nodes in which two apply different entries at index 2, through a heartbeat that verifies nothing |
| RaftCounterexample.EarlyReport | src/raft/node.cpp:181-183 | a run with every commit verified in which a node reports a lost entry as committed |
| RaftCounterexample.InstallGoesBack | src/raft/node.cpp:314-330 | a run with every commit verified, and each leader's calls one after the other, in which a conflict sends a leader below its snapshot and the install changes a node's image while what it has applied stays the same |
| RaftCluster.NextKeeps | src/raft/node.cpp:147-335 | every step of the cluster, crashes and restarts included, keeps the invariant and extends the history |
| RaftCluster.CrashKeeps | src/raft/node.cpp:775-798 | so does a crash at any point of any region, with what was handed over by then: it was chosen in the history the restart continues |
| RaftCluster.EventReacts | src/raft/node.cpp:437-500 | every region of a node keeps its node and its outgoing messages in step with an extended history |
| RaftCluster.AppendReacts | src/raft/node.cpp:228-297 | an AppendEntries request keeps the history's invariants and answers with an index the follower really holds |
| RaftCluster.InstallReacts | src/raft/node.cpp:299-335 | an InstallSnapshot request keeps them too, and acknowledges only what the snapshot covers |
| RaftCluster.AdvanceReacts | src/raft/node.cpp:754-773 | advancing the commit index counts only entries of the current term that a quorum acknowledged |
| RaftCluster.FinishReacts | src/raft/node.cpp:481-496 | a candidate that counted a quorum of grants becomes the only leader of its term |
| RaftCluster.SendReacts | src/raft/node.cpp:663-700 | a prepared request carries a piece of the leader's log, or its snapshot, and a committed index |
| RaftPhases.TornSnapshotRefused | src/raft/node.cpp:93-97 | a disk with a new snapshot and the old log is refused at start |
| RaftPhases.SnapshotImages | src/raft/node.cpp:800-823 | of the two writes of a snapshot, the first leaves a refused disk and the second one that continues the history |
| RaftPhases.RestartNode | src/raft/node.cpp:82-122 | the constructor on a durable image of the history gives a node in step with the history |
| RaftPhases.InstallPhase | src/raft/node.cpp:314-334 | installing keeps the node in step, and each of its three writes is refused or restartable |
| RaftPhases.CommitPhase | src/raft/node.cpp:775-798 | committing and applying keeps the node in step, throws nothing when commits are verified, and each write is refused or restartable |
| RaftPhases.MergePhase | src/raft/node.cpp:261-286 | the conflict loop is the takeover of the leader's prefix |
| RaftView.MergeTakesOver | src/raft/node.cpp:261-283 | cutting and appending in place gives the longer of the log and the leader's prefix when they agree, and the prefix when they do not |
| RaftView.ViewTerm | src/raft/node.cpp:560-576 | term_at on snapshot and suffix is the term of the complete log, and unknown exactly below the snapshot and past the end |
| RaftView.ViewEntries | src/raft/node.cpp:578-590 | entries_from is the batch of the complete log at that index |
| RaftRegions.VoteExact | src/raft/node.cpp:204-226 | a vote is granted if and only if the request is of no earlier term, the vote of that term is free or the candidate's already, and the candidate's log ends lexicographically at or past the voter's; a grant is on disk, the answer carries the later term, and the same request is answered the same again |
| RaftRegions.SomeoneElectable | src/raft/node.cpp:214-219 | in every group there is a member whose request in a new term every member grants |
| RaftRegions.StandExact | src/raft/node.cpp:437-456 | exactly a node that does not lead stands: next term, own vote on disk, asking with the end of its complete log |
| RaftRegions.FinishExact | src/raft/node.cpp:481-496 | a round is won if and only if the candidate is still in its term and more than half of the group voted for it; the winner has one empty entry more, on disk, and has committed it if and only if it is alone |
| RaftRegions.ElectedByMajority | src/raft/node.cpp:437-500 | a node whose log is at least as new as those of a majority not past its term is granted each vote, counts each, and leads the next term |
| RaftRegions.SubmitExact | src/raft/node.cpp:158-175 | exactly leaders take a command; Done means the entry ends the log, is committed, applied and on disk, and the image is the replay of the whole log; Appended means exactly this entry was added, on disk, with nothing committed |
| RaftSafety.DoneIsFinal | src/raft/node.cpp:169-174 | over every run: a submit answered Done has its entry in the state machine then, and that entry is all any node ever applies at its index |
| RaftRegions.AdvanceExact | src/raft/node.cpp:641-653 | after a round of its own term a leader has committed the greatest index that more than half of the group is known to hold, if that is new and of its term, with exactly the entries up to it applied; otherwise nothing changes |
| RaftRegions.ConfirmedIsCommitted | src/raft/node.cpp:754-773 | once a majority has confirmed a leader's log that ends in its term, the next round commits and applies all of it, and submits that were pending are told so |
| RaftRegions.QuorumIsMajority | src/raft/node.cpp:825-828 | a count reaches the quorum size if and only if it is more than half of the group |
| RaftRegions.CommitExact | src/raft/node.cpp:775-798 | raising the commit index hands over exactly the entries up to it, takes a snapshot if and only if that is due, and ends with memory, disk and image in step |
| RaftRegions.SnapshotExact | src/raft/node.cpp:800-823 | a snapshot is taken exactly when due, covers what is applied with its image and term, and changes nothing the node stands for |
| RaftRegions.ForcedSnapshot | src/raft/node.cpp:401-410 | a forced snapshot covers everything applied, whatever the threshold |
| RaftRegions.SendExact | src/raft/node.cpp:669-700 | a leader sends its snapshot if and only if it has pruned the next entry, otherwise the next batch of its complete log, nothing in a heartbeat, with the term before it and its commit index |
| RaftRegions.AppendExact | src/raft/node.cpp:228-297 | a request is taken if and only if it is of no earlier term and the logs agree up to where it begins, at or past the snapshot; then the node stands for the leader's log up to its end or for its own longer one, answers that end, and has committed and applied what the leader has; a refusal changes nothing and names the start of the run of terms or the end of the log |
| RaftRegions.ConflictIsRunStart | src/raft/node.cpp:250-258 | the conflict index is the first index past the snapshot of the run of equal terms |
| RaftRegions.InstallForwards | src/raft/node.cpp:299-335 | a newer snapshot that covers what is applied becomes the node's, which then stands for its own log or exactly for what the snapshot covers; an older one is acknowledged and a stale one refused |
| RaftRegions.ExchangeExact | src/raft/node.cpp:663-752 | one exchange of leader and follower: on agreement the leader records exactly what the follower now holds, and otherwise goes back exactly to the hinted index |
| RaftRegions.InstallExchange | src/raft/node.cpp:702-724 | the exchange behind a pruned log: the follower ends with the leader's snapshot applied and the leader records its index |
| RaftRegions.RefusalGoesBack | src/raft/node.cpp:744-749 | a refusal never raises the next index nor brings it below one, and goes back by one without a hint |
| RaftRegions.LateAnswers | src/raft/node.cpp:502-517 | an answer of a later term makes a follower of that term with a free vote, on disk, and pending submits are lost; an answer for another term or role changes nothing |
| RaftSafety.RestsInRun | src/raft/node.cpp:82-122 | in every run that installs nothing older and commits what was verified, every node between its steps has memory, disk and image in step, so the region theorems hold of every step |
| RaftSafety.RequestsInRun | src/raft/node.cpp:691-697 | every request in such a run carries a piece of a log that matches the receiver's and has what the receiver committed |
| RaftSafety.ConfirmedExact | src/raft/node.cpp:357-373 | leadership is confirmed if and only if the node leads at both moments, more than half of the group accepted the round, and the entry at its commit index is of its term |
| RaftView.QuorumIndexIsGreatest | src/raft/node.cpp:754-763 | an index is at most the sorted pick if and only if a quorum has reached it |
| RaftView.ReplaySplit | src/raft/state_machine.cpp:165-182 | replaying a concatenation is replaying its parts in turn |
| RaftCommit.CommittedInLeader | src/raft/node.cpp:754-773 | a committed prefix is in the log of every leader of a later term |
| RaftCommit.CommittedInEarlierView | src/raft/node.cpp:754-773 | a leader of a later term that exists already holds what an earlier term's leader only comes to count later |
| RaftCommit.CommittedComparable | src/raft/node.cpp:754-773 | of two committed prefixes one extends the other |
| RaftCommit.WinSafe | src/raft/node.cpp:484-494 | winning an election keeps every choosable prefix in the winner's log |
| RaftCommit.VoteSafe | src/raft/node.cpp:214-224 | granting a vote keeps the promises behind earlier acknowledgements |
| RaftCommit.ReplaceSafe | src/raft/node.cpp:261-286 | taking over a leader's prefix loses nothing the follower had acknowledged to it |
| RaftCommit.LeaderCommitSafe | src/raft/node.cpp:754-773 | counting a quorum for an entry of the leader's own term keeps all commit invariants |
| RaftCore.OneWinner | src/raft/node.cpp:481-486 | two quorums of votes in one term elect one node |
| RaftCore.SameTermSamePrefix | src/raft/node.cpp:592-621 | equal terms at an index of two logs mean equal prefixes |
| RaftRepair.RepairConverges | src/raft/node.cpp:663-752 | repair takes at most one refusal more than the follower's retained log has runs of equal terms, wherever the leader's snapshot is |
| RaftRepair.RepairEnds | src/raft/node.cpp:663-752 | it ends with an accepted request, an exception, or the leader's snapshot, and behind that snapshot the next request is not refused |
| RaftRepair.RefusalLowers | src/raft/node.cpp:744-749 | each missing-previous or term-mismatch reply strictly lowers next_index, and repair can go on |
| RaftRepair.ConflictDropsRun | src/raft/node.cpp:249-258 | walking back to the conflict index leaves out exactly one run of equal terms |
| RaftRepair.StuckBelowSnapshot | src/raft/node.cpp:240-243 | below the follower's snapshot a refusal does not move next_index |
| RaftRepair.AcceptedAgrees | src/raft/node.cpp:294-296 | when the follower accepts, the logs agree up to the index it reports |
| RaftRepair.RedeliveryIsIdle | src/raft/node.cpp:228-297 | delivering an answered request again changes nothing, at most rewriting the same hard state, and a success is answered alike |
| RaftRepair.CommitSettles | src/raft/node.cpp:775-798 | a commit that went through has nothing left to do when repeated |
| RaftRepair.PruningUnobservable | src/raft/node.cpp:800-823 | a snapshot leaves last index, last term, every term at or above it and every batch above it as they were |
| RaftRepair.RecoveryIsReplay | src/raft/node.cpp:104-118 | a start succeeds exactly when the commit index is within the log, and then the image is the replay of the whole committed log |
| RaftFiles.RecoveryFromFiles | src/raft/node.cpp:82-122 | the same from the bytes of the hard state, log and snapshot files, with the encoded map inside |
| RaftFiles.LoadSaved | src/raft/storage.cpp:209-222 | the three files a node saved load as what was saved |
| RaftRepair.InstallExact | src/raft/node.cpp:314-330 | an installed snapshot of the leader's log leaves the image fitting last_applied if and only if it is not older than what was applied, or each key touched by the node's entries past it already has what the last of them wrote |
| RaftRepair.ReplayUnmoved | src/raft/state_machine.cpp:165-182 | entries leave an image as it is exactly when the last writer of every key puts what is there |
| RaftServer.Server.Start | src/raft/node.cpp:82-122 | the constructor's loops accept exactly the images the recovery function accepts and recover the same node |
| RaftServer.Server.RecoverImage | src/raft/state_machine.cpp:33-50 | recovery is the snapshot's image with the committed entries replayed over it |
| RaftServer.Server.BecomeFollower | src/raft/node.cpp:502-517 | the fields and the disk after stepping down are those of the step-down function |
| RaftServer.Server.HandleRequestVote | src/raft/node.cpp:204-226 | the in-place handler ends in the state, disk and answer that RaftRegions.VoteExact characterises |
| RaftServer.Server.BeginElection | src/raft/node.cpp:441-456 | state, disk and request are those of the election function |
| RaftServer.Server.TallyVote | src/raft/node.cpp:468-478 | a vote answer is counted, ends the round, or makes the node step down, as the function says |
| RaftServer.Server.PromoteToLeader | src/raft/node.cpp:519-532 | the loop gives every peer the next index past the log and match index zero |
| RaftServer.Server.AppendLocalEntry | src/raft/node.cpp:614-621 | only a leader of a positive term appends, and it appends one entry at the end |
| RaftServer.Server.EndElection | src/raft/node.cpp:481-496 | a counted majority makes the candidate leader with a no-op, as the function says |
| RaftServer.Server.MaybeCreateSnapshot | src/raft/node.cpp:800-823 | snapshot first, then the pruned log, are written exactly when the threshold is reached |
| RaftServer.Server.PruneThrough | src/raft/node.cpp:815-820 | the search by index keeps exactly the entries past it |
| RaftServer.Server.DrainCommitted | src/raft/node.cpp:775-795 | the apply loop hands over each committed entry once and in order, or stops where one is missing |
| RaftServer.Server.ApplyCommittedEntries | src/raft/node.cpp:775-798 | applying ends in the snapshot check unless an entry is missing |
| RaftServer.Server.CommitAndApply | src/raft/node.cpp:288-292 | commit, apply and persist are those of the commit function |
| RaftServer.Server.ForceSnapshot | src/raft/node.cpp:401-410 | a forced snapshot is one with threshold one |
| RaftServer.Server.TruncateFrom | src/raft/node.cpp:592-603 | the log keeps exactly the entries before the index |
| RaftServer.Server.AppendRest | src/raft/node.cpp:605-612 | entries are appended up to the first that does not follow, which is reported |
| RaftServer.Server.FindConflict | src/raft/node.cpp:250-258 | the loop finds the first index of the run of equal terms |
| RaftServer.Server.TakeEntry | src/raft/node.cpp:271-282 | one incoming entry is kept, or the log is cut there and the rest appended |
| RaftServer.Server.MergeInPlace | src/raft/node.cpp:261-283 | the in-place loop ends unchanged, refused, changed or broken exactly as the merge function says |
| RaftServer.Server.HandleAppendEntries | src/raft/node.cpp:228-297 | state, disk and answer are those of the append function, refusals and exceptions included |
| RaftServer.Server.FollowLeaderCommit | src/raft/node.cpp:288-296 | the follower's commit and answer are those of the function |
| RaftServer.Server.HandleInstallSnapshot | src/raft/node.cpp:299-335 | state, disk and answer are those of the install function |
| RaftServer.Server.SubmitCommand | src/raft/node.cpp:158-175 | the in-place region ends in the state, disk and answer that RaftRegions.SubmitExact characterises |
| RaftServer.Server.PrepareRequest | src/raft/node.cpp:668-700 | the next request for a peer, or the lowered next index, is that of the function |
| RaftServer.Server.HandleAppendReply | src/raft/node.cpp:727-750 | match and next index after an answer are those of the function |
| RaftServer.Server.HandleInstallReply | src/raft/node.cpp:705-724 | match and next index after a snapshot answer are those of the function |
| RaftServer.Server.CollectReplicated | src/raft/node.cpp:755-761 | the loop collects the leader's last index and every peer's match index |
| RaftServer.Server.AdvanceAndApply | src/raft/node.cpp:641-653 | the in-place region sorts the confirmed indexes and ends in the state that RaftRegions.AdvanceExact characterises |
| RaftCodec.LogRoundTrip | src/raft/storage.cpp:167-184 | an encoded log decodes to itself exactly when its indices follow one another, and is refused otherwise |
| RaftCodec.HardRoundTrip | src/raft/storage.cpp:154-165 | an encoded hard state decodes to itself |
| RaftCodec.SnapshotRoundTrip | src/raft/storage.cpp:186-196 | an encoded snapshot decodes to itself |
| RaftCodec.WrapRoundTrip | src/raft/storage.cpp:120-152 | the envelope of a file opens to its payload |
| RaftCodec.AlteredFileRefused | src/raft/storage.cpp:131-152 | a file with any one byte altered is refused, be it magic, version, payload or checksum |
| RaftCodec.TakeEntryOf | src/raft/serialization.hpp:104-116 | an encoded entry followed by anything reads back, leaving what followed |
| RaftCodec.TakeCommandOf | src/raft/serialization.hpp:86-102 | an encoded command followed by anything reads back, leaving what followed |
| RaftCodec.SaveLog | src/raft/storage.cpp:234-242 | the loop writes the wrapped encoding of the log |
| RaftCodec.LoadLog | src/raft/storage.cpp:215-217 | loading through the decoder is unwrapping and decoding |
| RaftCodec.MapRoundTrip | src/raft/state_machine.cpp:184-215 | the encoded map restores to the map |
| RaftCodec.Walk | src/raft/state_machine.cpp:206-215 | every map has a walk in key order that rebuilds it, so every image can be encoded |
| Encoding.LeRoundTrip | src/raft/serialization.hpp:18-28 | the low bytes of a number that fits give the number back |
| Encoding.FromLeRoundTrip | src/raft/serialization.hpp:47-63 | the bytes of the number read are the bytes read, so different bytes read differently |
| Encoding.AppendNumber | src/raft/serialization.hpp:18-28 | pushing byte by byte appends the little-endian bytes |
| Encoding.TakeText | src/raft/serialization.hpp:30-36 | a length-prefixed string followed by anything reads back, leaving what followed |
| Encoding.Decoder.Number | src/raft/serialization.hpp:47-63 | a number is read and the position advanced, or the end of input is reported |
| Encoding.Decoder.Text | src/raft/serialization.hpp:65-71 | a string is read and the position advanced, or the end of input is reported |
| Checksum.OneByteChangesCrc | src/checksum_calculator.cpp:8-21 | texts of any length that differ in exactly one byte have different checksums |
| Checksum.StepInjective | src/checksum_calculator.cpp:12-17 | each byte step is injective in the state and in the byte |
| Checksum.ShiftInjective | src/checksum_calculator.cpp:15-16 | each bit step can be undone |
| Checksum.Crc32 | src/checksum_calculator.cpp:8-21 | the nested loops with the mask compute the complemented remainder, over GF(2), of the message bits with the leading ones, and so the checksum of the steps |
| Checksum.CrcIsRemainder | src/checksum_calculator.cpp:8-21 | the checksum is the complement of the bit-reversed remainder of the message on division by the polynomial with exponents 32, 26, 23, 22, 16, 12, 11, 10, 8, 7, 5, 4, 2, 1, 0 |
| Checksum.RemainderExact | src/checksum_calculator.cpp:14-17 | a remainder of lower degree is unique, and long division finds it |
| Checksum.Divide | src/checksum_calculator.cpp:14-17 | every polynomial is a multiple of the generator and its remainder |
| Checksum.CheckValue | src/checksum_calculator.cpp:8-21 | the digits 1 to 9 have checksum 0xCBF43926 |
| WalFile.TornTail | src/wal_reader.cpp:109-214 | cut at any byte, a log scans to exactly the records wholly inside, valid bytes end the last, and an incomplete record is reported exactly off a boundary |
| WalFile.WholeIsGreatest | src/wal_reader.cpp:210-212 | the records wholly inside are the most that fit |
| WalFile.ScanAll | src/wal_reader.cpp:109-214 | a complete log scans as itself without an issue |
| WalFile.TruncateThenAppend | src/recovery_manager.cpp:39-43 | truncating at the valid bytes and appending scans as the kept records followed by the new ones |
| WalFile.AppendIsAtomic | src/wal_format.cpp:59-93 | after any byte prefix of an append the log scans with the record exactly when all of it is there |
| WalFile.AlteredRecord | src/wal_reader.cpp:130-201 | one altered byte of a record outside its two length fields is reported, in payload or checksum as a mismatch, whatever follows the record |
| WalFile.AlteredLog | src/wal_reader.cpp:109-214 | a log with such a byte altered in record j scans to the records before it, valid bytes end there, and the issue is reported |
| WalFile.ReadWhole | src/wal_reader.cpp:120-212 | a whole record followed by anything is read back with its size |
| WalFile.ReadTorn | src/wal_reader.cpp:130-189 | a record cut anywhere inside is incomplete |
| WalFile.Serialize | src/wal_format.cpp:59-93 | the record's bytes are built, and invalid records refused |
| WalFile.ScanFile | src/wal_reader.cpp:109-214 | the loop visits what the scan function says, in order, and stops at its issue |
| Tables.CompactionPreserves | src/sstable_manager.cpp:257-301 | whichever tables are selected and tombstones dropped, every live key keeps its newest entry and no other key becomes live |
| Tables.MergedFinds | src/sstable_manager.cpp:272-284 | the merged map holds for every key the newest entry of the merged tables |
| Tables.CompactedHeld | src/sstable_manager.cpp:286-324 | after a compaction an entry is held exactly by an unselected table, or by the output as the newest selected entry of its key, a tombstone only over a live entry it hides |
| Tables.OutputExact | src/sstable_manager.cpp:286-294 | the output holds the newest selected entry of each key, and a tombstone if and only if an unselected table holds an older or equally old live entry |
| Tables.CompactedDistinct | src/sstable_manager.cpp:326-360 | sequence numbers per key stay distinct |
| Tables.NewestUnique | src/sstable_manager.cpp:119-132 | the newest entry is the held one with the greatest number, whatever the order of tables |
| Tables.FoundInRange | src/sstable_manager.cpp:122-125 | a table finds nothing outside its key range, so skipping it is sound |
| Tables.OutputInRange | src/sstable_manager.cpp:618-652 | the output stays inside the key range of its inputs |
| Selection.Expand | src/sstable_manager.cpp:633-654 | the expansion loop ends at a range that no unselected level-1 table touches, and no closed range is smaller |
| Selection.SelectInputs | src/sstable_manager.cpp:594-663 | the inputs are the oldest level-0 tables and exactly the level-1 tables that touch the least closed range over them |
| Selection.BaseExact | src/sstable_manager.cpp:594-619 | a compaction starts from nothing below the trigger, from all of level 0 when forced, and otherwise from as many of its oldest tables as the limit lets |
| Selection.RangeOf | src/sstable_manager.cpp:620-626 | the starting range contains the base tables and is within every closed range |
| Selection.ValidateLevel1 | src/sstable_manager.cpp:68-86 | the sorted neighbour check accepts exactly the pairwise disjoint level-1 sets |
| Selection.SortIsSame | src/sstable_manager.cpp:54-66 | sorting neither adds nor drops a table |
| Selection.SortAgain | src/sstable_manager.cpp:487-490 | sorting a published list on reload leaves it as it was |
| Selection.SameNewest | src/sstable_manager.cpp:117-132 | the newest entry does not depend on the order of tables |
| Manager.CompactedIsTableSet | src/sstable_manager.cpp:540-544 | after a compaction level 1 is still disjoint, so publication is never refused |
| Manager.FewerLevel0 | src/sstable_manager.cpp:594-663 | a compaction leaves fewer level-0 tables by exactly its base |
| Manager.CompactedReflects | src/sstable_manager.cpp:257-381 | the map that readers see is the same before and after |
| Manager.HighSeqBounds | src/sstable_manager.cpp:546-554 | no entry in the tables is numbered above the reported maximum |
| Manager.LoadsOtherManifest | src/manifest.cpp:497-500 | a manifest of the next generation changes nothing until CURRENT names it |
| Manager.LiveAfterFlush | src/sstable_manager.cpp:134-152 | the incremental count is the size of the map after laying the flushed records over the tables |
| Manager.CountLive | src/sstable_manager.cpp:154-167 | the count on load is the size of whichever map readers see |
| Manager.NewestIn | src/sstable_manager.cpp:117-132 | the loop with the range test finds the newest entry |
| Manager.MergeTables | src/sstable_manager.cpp:272-284 | the merge loops compute the merged map |
| Manager.CanDropTombstone | src/sstable_manager.cpp:665-678 | a tombstone may go exactly when no unselected table has an older or equally old live entry |
| Manager.DropTombstones | src/sstable_manager.cpp:286-294 | the loop keeps all but the droppable tombstones |
| Manager.SSTableManager.Publish | src/sstable_manager.cpp:540-572 | publication is refused exactly when level 1 would overlap; otherwise each durable step loads the old list or the new one |
| Manager.SSTableManager.CommitManifest | src/manifest.cpp:486-505 | writing the manifest and switching CURRENT loads the old list, then the new one |
| Manager.SSTableManager.Flush | src/sstable_manager.cpp:200-255 | flushed records join the tables, and every durable step loads the tables before or after |
| Manager.SSTableManager.CompactLevel0 | src/sstable_manager.cpp:257-381 | performed exactly when forced with a level-0 table or at the trigger; same visible map; exactly the base is gone from level 0, the unselected tables stay, and what is held afterwards is said entry by entry; input files are removed; every durable step loads the tables before or after |
| Manager.SSTableManager.ReadManifest | src/manifest.cpp:451-484 | a directory is fresh, lists tables, or is refused: exactly when manifests lie there without CURRENT, or no table list fits CURRENT |
| Manager.SSTableManager.CleanUp | src/sstable_manager.cpp:514-538 | exactly the unlisted table files go, and every step still loads the same list |
| Manager.SSTableManager.Start | src/sstable_manager.cpp:467-491 | a published list is loaded, its live keys counted and file ids handed out past it, or refused without a durable step exactly when level 1 overlaps |
| Manager.SSTableManager.LoadExisting | src/sstable_manager.cpp:451-472 | a directory is begun when blank, loaded when it lists a sound table set, and otherwise refused without a durable step |
| Manager.SSTableManager.Create | src/sstable_manager.cpp:493-512 | a start on a blank directory publishes the empty list; the state between the manifest and CURRENT is refused by any start |
| Directories.ListsOnce | src/manifest.cpp:451-484 | a disk state lists at most one table list |
| MemTables.FirstHitIsNewest | src/memtable_set.cpp:136-155 | the first table that knows a key holds its greatest number |
| MemTables.UpsertFootprint | src/memtable.cpp:106-127 | replacing an entry moves the memory estimate by the difference of the charges |
| MemTables.MemTable.InsertOrAssign | src/memtable.cpp:106-127 | a frozen table or an older number is refused; otherwise the entry is in place and the estimate exact |
| MemTables.MemTable.Put | src/memtable.cpp:14-22 | a put is accepted exactly for a valid key, value and number, and newer than what is there |
| MemTables.MemTable.AddTombstone | src/memtable.cpp:24-31 | a tombstone likewise |
| MemTables.MemTableSet.Write | src/memtable_set.cpp:22-38 | a numbered write becomes the first hit of its key and leaves every other key alone; the table is frozen exactly when the write fills it |
| MemTables.MemTableSet.LatestEntry | src/memtable_set.cpp:136-155 | the loop returns the first hit |
| MemTables.MemTableSet.RotateActive | src/memtable_set.cpp:198-209 | a rotation freezes the active table in front and changes no lookup |
| MemTables.MemTableSet.RotateIfRequired | src/memtable_set.cpp:183-196 | exactly a full table is rotated and no lookup changes |
| MemTables.MemTableSet.DiscardImmutable | src/memtable_set.cpp:124-134 | exactly the table of that generation is forgotten |
| PersistentStore.FirstHitOverAll | src/persistent_key_value_store.cpp:31-38 | the tiered read returns the entry with the greatest number held anywhere |
| PersistentStore.RepresentsOnce | src/persistent_key_value_store.cpp:84-118 | a disk state stands for one map |
| PersistentStore.CoherentRepresents | src/persistent_key_value_store.cpp:84-118 | the disk stands for the store's map, whatever is still only in memory and in the log |
| PersistentStore.CoherentFlush | src/persistent_key_value_store.cpp:267-276 | moving the oldest memtable into the tables changes nothing that is read |
| PersistentStore.CoherentCompact | src/persistent_key_value_store.cpp:284-294 | tables that show the same map may replace the old ones |
| PersistentStore.CoherentReset | src/persistent_key_value_store.cpp:278-282 | with nothing left in memory the log may be emptied |
| PersistentStore.AppendRepresents | src/persistent_key_value_store.cpp:126 | one more log record is one more operation on the map the disk stands for |
| PersistentStore.KeyValueStore.Get | src/persistent_key_value_store.cpp:136-143 | a read is a lookup in the map |
| PersistentStore.KeyValueStore.Size | src/persistent_key_value_store.cpp:191-193 | the running count is the size of the map |
| PersistentStore.KeyValueStore.Put | src/persistent_key_value_store.cpp:120-134 | the map gains the value, and every durable step from the log record on stands for the new map; nothing stays frozen, level 0 is below the trigger when compaction is automatic, and the log has one more record unless memory is empty |
| PersistentStore.KeyValueStore.Remove | src/persistent_key_value_store.cpp:145-160 | the map loses the key, the answer says whether it was there, and an absent key writes nothing; what Put leaves tidy this does too |
| PersistentStore.KeyValueStore.Checkpoint | src/persistent_key_value_store.cpp:172-179 | log and memory end empty, the tables hold nothing that was not there, the map is the same, and every durable step stands for it |
| PersistentStore.KeyValueStore.Compact | src/persistent_key_value_store.cpp:181-189 | log, memory and level 0 end empty, performed if and only if there was something in memory or on level 0, nothing is held that was not there, and every durable step stands for the same map |
| PersistentStore.KeyValueStore.FlushImmutables | src/persistent_key_value_store.cpp:267-276 | frozen memtables are flushed oldest first, the tables then hold exactly their entries too, and every durable step stands for the same map |
| PersistentStore.KeyValueStore.CompactIfRequired | src/persistent_key_value_store.cpp:284-294 | the automatic loop ends with exactly the level-0 tables that its runs leave, does nothing below the trigger, and every durable step stands for the same map |
| PersistentStore.KeyValueStore.ResetIfPersisted | src/persistent_key_value_store.cpp:278-282 | the log is emptied exactly when memory is empty |
| PersistentStore.KeyValueStore.ReplayLog | src/recovery_manager.cpp:19-28 | replaying the log over the tables, flushed records included, gives for each key its last record or what the tables show |
| PersistentStore.KeyValueStore.ReplayOne | src/persistent_key_value_store.cpp:46-69 | one replayed record is one operation on the map, with its live count |
| PersistentStore.KeyValueStore.Open | src/persistent_key_value_store.cpp:84-118 | the store opens exactly when the directory stands for some map, and is that map; every durable step of the start stands for it too, but for the first one on a blank directory, which no start accepts |
| PersistentStore.Reopen | src/persistent_key_value_store.cpp:84-118 | the same from a bare disk state, blank or left by a crash |
| PersistentStore.ReopenAfter | src/persistent_key_value_store.cpp:84-118 | starts that are themselves cut off after any durable step change nothing |
| PersistentStore.Session | src/persistent_key_value_store.cpp:120-189 | over every sequence of operations, crashes after any durable step, and crashes inside the restarts that follow, the store is the map of the completed operations, with at most the one in flight in doubt |
| StorageBytes.OpenBytes | src/persistent_key_value_store.cpp:84-118 | the bytes of any durable state the store leaves, with or without a torn last append, open as the map that state stands for |
| StorageBytes.Decode | src/recovery_manager.cpp:19-43 | scanning the log and reading every table, the manifests and CURRENT gives back the durable state the bytes depict |
| StorageBytes.Session | src/persistent_key_value_store.cpp:84-189 | over every sequence of operations and crashes whose restarts read bytes that depict what was left, torn appends included, the store is the map of the completed operations, with at most the one in flight in doubt |
| ManifestFile.ManifestRoundTrip | src/manifest.cpp:312-439 | a manifest within the bounds of the format parses back to what it lists |
| ManifestFile.CurrentRoundTrip | src/manifest.cpp:274-310 | CURRENT parses back to the manifest name it holds |
| ManifestFile.AlteredMetadata | src/manifest.cpp:171-184 | either file with any one byte altered is refused |
| StorageBytes.WriteTable | src/sstable_writer.cpp:98-192 | a frozen memtable or a compaction's output becomes a file that reads back as the table that is published |
| StorageBytes.WriteFits | src/memtable.cpp:14-31 | writes the store lets through keep a memtable within the bounds of the file format |
| StorageBytes.OutputFits | src/sstable_manager.cpp:272-294 | a compaction of tables within those bounds writes a sorted list within them |
| SSTableFormat.BlockRoundTrip | src/sstable_format.cpp:166-264 | a data block parses back to its records |
| SSTableFormat.IndexRoundTrip | src/sstable_format.cpp:266-351 | an index parses back to its entries |
| SSTableFormat.HeaderRoundTrip | src/sstable_format.cpp:123-164 | a header parses back |
| SSTableFormat.FooterRoundTrip | src/sstable_format.cpp:353-396 | a footer parses back |
| SSTableFormat.AlteredChecked | src/sstable_format.cpp:31-45 | one altered byte of a checksummed part, payload or checksum, fails validation |
| SSTableFormat.BlockSizeIs | src/sstable_format.cpp:398-400 | the writer's running size is the encoded size |
| SSTableFormat.SerializeBlock | src/sstable_format.cpp:166-201 | a block is built, and refused exactly when a record is out of bounds or out of order |
| SSTableFormat.ParseDataBlock | src/sstable_format.cpp:203-264 | the cursor loop parses what the parse function says |
| SSTableFile.Partition | src/sstable_writer.cpp:123-138 | blocks concatenate to the input, none is empty, any of two or more records encodes within the target, and each cut is where the next record would not fit |
| SSTableFile.CheckEntries | src/sstable_writer.cpp:108-121 | the first loop accepts sorted, numbered lists and computes the range of sequence numbers |
| SSTableFile.Write | src/sstable_writer.cpp:98-192 | the file is header, blocks, index and footer; it is refused exactly for an empty, unsorted or ill-formed list or target, or 2^32 blocks; under 2^64 bytes, as for any list of fewer than 2^32 records, it reads back |
| SSTableFile.BlockRegion | src/sstable_writer.cpp:167-176 | each block lies where its index entry says |
| SSTableFile.WrittenOpens | src/sstable_reader.cpp:97-161 | a written file passes every layout check and opens with the layout it was written with |
| SSTableFile.ReadAllWritten | src/sstable_reader.cpp:204-218 | writing a list and reading everything back gives the list |
| SSTableFile.LookupIsFind | src/sstable_reader.cpp:169-202 | lookup through range check, index, filter and block search is linear search of the written list |
| SSTableFile.IndexedFind | src/sstable_reader.cpp:175-182 | the block the index search finds is the only place the key can be |
| SSTableFile.SearchIsFind | src/sstable_reader.cpp:193-201 | searching a sorted block finds what scanning it finds |
| SSTableFile.AlteredTable | src/sstable_reader.cpp:97-218 | a written table file with any one byte altered does not open or cannot be read through |
| SSTableReaders.SSTableReader.ReadDataBlock | src/sstable_reader.cpp:245-268 | through the cache or from the file, the block is the one the file holds, and it is then first in the cache if it fits |
| SSTableReaders.SSTableReader.Get | src/sstable_reader.cpp:169-202 | a lookup with cache and filter is the lookup function |
| SSTableReaders.SSTableReader.ReadEverything | src/sstable_reader.cpp:204-218 | the loop reads what read_all says |
| SSTableReaders.GetWritten | src/sstable_reader.cpp:169-202 | a reader of a written file whose filter saw every key answers as linear search does |
| SSTableReaders.WriteOpenGet | src/sstable_manager.cpp:215-226 | write a list, open the file with a filter over its keys, look a key up: linear search of the list |
| SSTableReaders.TilesDistinct | src/sstable_reader.cpp:137-150 | blocks that pass the layout check start at different offsets, so the cache cannot confuse them |
| Bloom.BloomFilter.Add | src/bloom_filter.cpp:67-75 | the set bits stay exactly the positions of the added keys |
| Bloom.BloomFilter.MayContain | src/bloom_filter.cpp:77-87 | the answer is whether every position of the key is a position of some added key, so an added key is never denied |
| Bloom.SetBitKeeps | src/bloom_filter.cpp:71-72 | setting a bit sets it and clears no other |
| Bloom.SetBitExact | src/bloom_filter.cpp:71-72 | and sets no other |
| Bloom.PrimaryHash | src/bloom_filter.cpp:94-102 | the loop computes the primary hash |
| Bloom.FnvCheck | src/bloom_filter.cpp:94-101 | the hash loop has the published FNV-1a value of the text "a" |
| Bloom.SecondaryHash | src/bloom_filter.cpp:104-112 | the loop computes the secondary hash, never zero |
| BlockCaches.FittingIsLongest | src/block_cache.cpp:106-114 | no longer prefix of the list would fit, so eviction removes the fewest least recent blocks |
| BlockCaches.FittingIsPrefix | src/block_cache.cpp:106-114 | what is left after eviction is a prefix that fits |
| BlockCaches.InsertedExact | src/block_cache.cpp:43-66 | after a put the other blocks kept are, in order, the longest prefix of the list without the slot that fits beside the new block; an oversized block is dropped and the others stay |
| BlockCaches.BlockCache.Get | src/block_cache.cpp:28-41 | a hit moves to the front and returns the block last put there; a miss changes nothing |
| BlockCaches.BlockCache.Put | src/block_cache.cpp:43-66 | the list becomes what the abstract policy says: replace, skip the oversized, evict, push to the front, with evictions counted |
| BlockCaches.BlockCache.EvictUntilFits | src/block_cache.cpp:106-114 | eviction leaves exactly the longest prefix that fits, and counts what went |
| BlockCaches.BlockCache.Clear | src/block_cache.cpp:68-73 | list, index and bytes are emptied |

## Left out

- Unsigned 64-bit wrap-around of terms, indices, sequence numbers, generations and file ids, and the overflow exceptions that guard some of them: numbers are unbounded.
- Real time: election and heartbeat deadlines, RPC timeouts, the 256-attempt limit of one replication call and the submit deadline are choices of steps; no liveness under timing is claimed.
- gRPC services, clients, transports, metrics, logging, the executor: thin wrappers or counters.
- Node identifiers are numbers in the protocol model and byte strings in the codec, and a snapshot's payload is a map in one and bytes in the other; RaftFiles joins the two for a node's disk, not for messages.
- Exceptions from I/O: a durable step happens or the process stops.
- The state machine's own store is modelled by its map; that the store refines a map is the storage half.
- Raft messages with entries no leader sends are handled by the node functions and the server class; the cluster only contains messages its nodes sent.
- Flush and compaction racing each other (the state-version retry and the still-active check): the store's write mutex serialises them.
- WAL modes other than Sync and the batching writer thread; POSIX read and write loops, partial writes and descriptors.
- The migration of legacy tables, which are table files in a directory without any manifest.
- PersistentStore.Session: begins with a start that is not cut off; a crash inside the first start of a blank directory can leave a manifest without CURRENT, which is refused from then on, as the contract of KeyValueStore.Open says.
- ManifestFile.ManifestRoundTrip: manifests and CURRENT are written and parsed by functions on the bytes, without the cursor loop of the source; that a file name holds no slash stands for the path checks.
- File names: tables are named by their file id, and ties in the table order fall to it; StorageBytes takes which id and which manifest a name stands for, and a table's block count, which only the bytes hold, is not compared on load.
- The size of the Bloom filter and its false-positive rate: word count and hash count are parameters.
- MemTableSet's private live-key counter, which the store does not use.
- PersistentStore.KeyValueStore.Open: requires that any table list found was left by the store (records sorted and numbered, file names distinct, list in order, file ids below the next one); the source checks the first two again when it opens the files and re-sorts, and the model does not.
- Manager.SSTableManager.Start: requires the listed tables in order and well formed, as the store leaves them; the source sorts and validates the list again.
- Manager.SSTableManager.LoadExisting: requires the same of any table list found, as PersistentStore.KeyValueStore.Open does.
- SSTableFile.Write: requires a generation below 2^64, as its type does; what a file of 2^64 bytes or more would read back as is not said.
- RaftFiles.LoadSaved: takes the names of the nodes of the group, since the protocol model numbers them; a vote stored for a name outside the group, which the source would keep, is refused.
- SSTableFormat.IndexRoundTrip: the index and the fixed-size header and footer are parsed by functions on the bytes, without the cursor loop of the source.
- InMemoryKeyValueStore, command-line programs, benchmarks and scripts.
