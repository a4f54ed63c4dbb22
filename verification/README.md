# FleetFS, modelled and proved in Dafny

FleetFS is a replicated, sharded filesystem. Inodes are sharded over replication groups by number;
each group applies a decided log of commands to its metadata tables and to its share of the file
data; operations that span groups are run by transaction coordinators under inode locks. This
project models those mechanisms and proves what they keep over all inputs, all interleavings and
all runs.

`dafny verify dfyconfig.toml` checks everything.

## How the files fit together

- **Striping**: `Striping` (index arithmetic against byte-by-byte dealing, stripes of a flat file),
  `DataStorage` (the write and gather loops, the storage object), `Sorting`, `Sequences`.
- **One replica's storage**: `Types`, `Access`, `Metadata` (the effect of every write request on the
  tables, and its frame), `AttributeRules` (who may change what), `MetadataStorage` (the object, key-range scans, the first inode),
  `MetadataRuns` (any sequence of requests), `FileStore` and `FileStorage` (metadata and data
  together; all ranks of a group against flat files), `Determinism`.
- **Locks and the apply loop**: `LockTable`, `LockRuns`, `Replica`, `ReplicaAnswers`,
  `ReplicaDeterminism`, `SyncWaiters`, `GroupRuns`, `Visibility`, `VisibleReads`.
- **Transactions**: `Coordinator` (create, hardlink, unlink, rmdir and rename as step programs),
  `Cluster` (all coordinators, clients and groups as one transition system), `Invariant`,
  `LinkLedger`, `TransactionSteps`, `RenameSteps`, `LockSteps`, `Safety` (every step keeps the
  invariant), `LinkLoss` (which runs lose links), `LockSafety`, `RenameTheorems`, `RenameFrame`,
  `TransactionTheorems` (all or nothing), `Refusals` (when transactions fail, and with which error),
  `Progress` (each step brings a transaction nearer to its end), `Guarantees`, `ClusterRuns` (building runs), `RmdirTargets`, `RmdirRace` and
  `RmdirRuns` (where rmdir goes wrong).
- **Deployment**: `Deployment`, `Refinement` and `DeployedRuns` (groups with their own tables, logs
  and lock tables do what the transition system does).
- **Placement**: `Placement`.

Pure code is modelled by functions. Objects that change state (`DataStorage`, `MetadataStorage`,
`FileStorage`, `LockTable`, `ConsensusNode`) are classes whose methods are proved equal to
specification functions, and the theorems are about those functions. Assertions, unsigned
subtractions and unwraps on what a request finds in the tables and the lock table, or on what a
coordinator is answered, are modelled as outcomes that stop the run, and are proved unreachable or
characterised exactly.

## What is assumed

- The consensus library delivers the same slots in the same order to all replicas of a group, and a
  slot decided before a command was submitted does not hold that command.
- Local input and output and proposals do not fail. A file extended by seeking or by setting its
  length reads as zeros. A database transaction commits all its changes or none.
- A barrier makes a read one atomic step (src/storage/raft_node.rs:181-192); a command takes one
  reading of the clock.
- The internal requests of transactions are sent by coordinators only; clients send the others.
- Whoever waits for an answer is still there when it is sent: the program unwraps the result of
  handing an answer to its client (src/storage/raft_node.rs:260, 266, 274-276, 314 and 333) or to a
  waiter (372), and stops if the client is gone. Unwraps of local input and output, of the database
  and of decoding are taken to succeed as well.
- Ids of commands are unique.
- The kernel has checked that what is hardlinked is no directory (`Cluster.KernelValidated`). Nothing
  is assumed about what rmdir removes. Nothing is assumed about the inodes of a rename: if two that it
  locks coincide, the second Lock waits forever, and the theorems hold of that run too.
- Names are sequences of characters, each one byte long; integers do not overflow; modes are 16 bits.

The tables and locks of all groups are held together in the transition system, and a request that must
wait is simply not enabled. `DeployedRuns.DeployedIsCluster` justifies both: groups that hold their own
rows and their own lock tables, with requests parked, drained and handed the lock, do what some run of
the transition system does.

The state carries a history that no step looks at (`LinkLoss.HistoryUnread`): the files of which an
rmdir has given back two links, called *spoiled* here. The next section says where they come from. The
invariant `Invariant.Inv` says nothing about the counts of spoiled files, and everything else about
everything else; it holds in every state of every run (`Safety.ReachableInv`), so theorems that start
from a state with `Inv` are about every reachable state.

## Where comments and code differ

- A comment says that rename's removal of the old link should not be able to fail
  (src/storage/message_handlers/transaction_coordinator.rs:477). That is true, and so it is for every
  request of a rename after its access checks, but for the decrement of a spoiled file that has no link
  left: `RenameTheorems.RenameCannotFail`.
- rmdir checks for emptiness under the lock and deletes after releasing it. The assertion that the
  deleted directory is empty can fail: `RmdirRuns.NonEmptyStopIsReachable` gives a run from a new
  filesystem, `RmdirRace.CreateCanStopRmdir` one from every state at that point, and
  `Guarantees.RmdirStopsIff` says exactly when.
- rmdir starts again on whatever its name points at by the time the entry is removed
  (src/storage/local/metadata_storage.rs:775-784 and
  src/storage/message_handlers/transaction_coordinator.rs:508-533), and asserts two links there (549).
  If that is a file with two links, the assertion passes, two links are given back for one entry
  (551-557), and the file is deleted although its other name is left: `RmdirRuns.LinkLossIsReachable`
  gives the run, from a new filesystem and with every rmdir called on a directory. With any other
  number of links the assertion fails: `RmdirRuns.FileStopIsReachable`, and in general
  `RmdirTargets.TakenFileIsLostOrStops`. So conservation of links is not true of all inodes in all runs.
  It is true of all inodes that are not spoiled, and of all inodes throughout a run if and only if no
  step takes two links of a file (`LinkLoss.ExactIffCareful`); `RmdirTargets.KeptIffNoFileTaken` says
  which removal of an entry leads there.
- An unlink or rmdir that has removed the entry of a file lost in that way finds the file gone, and
  reports an error although it has made its change: `RmdirRuns.ChangedYetFailedIsReachable`.
  `TransactionTheorems.AllOrNothing` shows that this is the only exception to all or nothing, and
  `TransactionTheorems.FailsIffGone` says at which step it happens.
- Waiters for a slot are not woken as soon as their slot is applied: `SyncWaiters.NotAlwaysPrompt`
  gives the queue, and `SyncWaiters.PromptIffNobodyAheadWaitsLonger` says exactly when they are.
- A barrier is answered before its slot is recorded as applied, so a read may ask the other ranks for
  an earlier slot than the barrier's. `Visibility.BarrierIsBeyond` shows that this is enough.

## Model

| member | source | states |
|---|---|---|
| Striping.LocalIndexCountsOwned | src/storage/local/data_storage.rs:34-47 | the local index of g at a rank is the number of indices below g that dealing out blocks one byte at a time gives to that rank, for every g, rank and number of nodes |
| Striping.StoresIndexIsOwnership | src/storage/local/data_storage.rs:50-55 | a rank stores an index exactly if dealing gives the index to it, so each index has one owner |
| Striping.CountOwnedMonotone | src/storage/local/data_storage.rs:34-47 | local indices are monotone in the global index |
| Striping.LocalLengthsSum | src/storage/local/data_storage.rs:34-47 | the local indices of g over all ranks add up to g |
| Striping.GlobalIndexIsOwned | src/storage/local/data_storage.rs:57-62 | the global index of l is an index of the rank with exactly l of its indices before it |
| Striping.GlobalIsNextOwned | src/storage/local/data_storage.rs:57-62 | going to the local index and back gives the index itself if the rank owns it, else the next one that it owns |
| Striping.LocalWriteRefinesPatch | src/storage/local/data_storage.rs:108-165 | writing a rank's part of the data into its stripe gives the stripe of the patched flat file, also past the end and over holes |
| Striping.LocalTruncateRefinesSetLength | src/storage/local/data_storage.rs:267-280 | setting each rank's length to its share gives the stripes of the flat file cut or zero-extended |
| DataStorage.Gather | src/storage/local/data_storage.rs:231-260 | the round-robin gather loop ends with the merge of the specification, and if each block is the raw read of a rank's stripe that is exactly the flat bytes from the offset up to the end of the read or of the file |
| DataStorage.DataStorage.constructor | src/storage/local/data_storage.rs:67-80 | the rank is the position of the node's id among the sorted distinct ids of the group |
| DataStorage.DataStorage.CutLocalBlocks | src/storage/local/data_storage.rs:114-132 | the block-wise loop collects exactly the bytes of the data that this rank owns, in order |
| DataStorage.DataStorage.WriteLocalBlocks | src/storage/local/data_storage.rs:108-165 | the file becomes the local write of the data, zero-extended even if no byte of it is local |
| DataStorage.DataStorage.ReadRaw | src/storage/local/data_storage.rs:171-201 | returns this rank's bytes of the range as far as its file goes, or an error if there is no file |
| DataStorage.DataStorage.Read | src/storage/local/data_storage.rs:203-265 | with the raw reads of all other ranks in rank order, returns the flat bytes; fails exactly if its own or another rank's read fails |
| DataStorage.DataStorage.Truncate | src/storage/local/data_storage.rs:267-280 | the local file gets the length of this rank's share |
| DataStorage.DataStorage.Delete | src/storage/local/data_storage.rs:292-298 | removes the file and reports whether there was one |
| DataStorage.RanksAgree | src/storage/local/data_storage.rs:67-80 | nodes that know the same ids agree on all ranks, and equal ranks are equal nodes |
| Access.CheckAccessStepwise | src/base/utils.rs:37-70 | taking granted bits off the mask step by step decides access as the permission triples say, with the exception for the superuser |
| Metadata.CommitChangesOnlyItsInode | src/storage/message_handlers/write_handler.rs:4-128 | a request changes no row of any inode but the one that meta_info names, or the one it creates |
| Metadata.CommitReadsOnlyItsInode | src/storage/message_handlers/write_handler.rs:4-128 | a request's answer and its effect on its inode depend only on that inode's rows and the inode counter |
| AttributeRules.AttributeChangesAreAllowed | src/storage/message_handlers/write_handler.rs:4-128 | whatever request is executed: a mode changes only for the superuser or the owner and without set-id bits, an owner only for the superuser, a group or an access time only for those who may, a size only by writing past the end or by truncating with write access, a link count only by the requests that count links, a kind never |
| AttributeRules.PermittedChangesAreMade | src/storage/message_handlers/write_handler.rs:4-128 | a client's request to change an inode is refused exactly if the permission rules, stated by owner, mode and key, forbid it, and then changes nothing; else the mode, owner, group, times, size or extended attribute is what was asked for, and a write is answered with the number of bytes |
| AttributeRules.XattrDeniedIff | src/storage/local/metadata_storage.rs:68-123 | extended attributes of users are set by who may write, all others but one by the superuser, by the namespace that the key begins with |
| MetadataStorage.RangeIsInode | src/storage/local/metadata_storage.rs:928-932 | the key range from (inode, "") to (inode + 1, "") holds exactly the keys of that inode |
| MetadataStorage.RetainNone | src/storage/local/metadata_storage.rs:928-932 | clearing the range drops exactly that inode's keys |
| MetadataStorage.CountRange | src/storage/local/metadata_storage.rs:979-983 | counting the range counts exactly that inode's keys |
| MetadataStorage.MetadataStorage.constructor | src/storage/local/metadata_storage.rs:148-188 | the search for the first inode ends within as many steps as there are groups, at the least number above the root in the group's residue class; the tables hold the root directory only |
| MetadataStorage.MetadataStorage.AllocateInode | src/storage/local/metadata_storage.rs:988-991 | hands out the counter and moves it by the number of groups |
| MetadataStorage.MetadataStorage.CreateInode | src/storage/local/metadata_storage.rs:859-906 | the new tables and answer are those of the specification |
| MetadataStorage.MetadataStorage.DecrementInodeLinkCount | src/storage/local/metadata_storage.rs:909-964 | lowers the count or deletes all rows of the inode, stops on underflow or a non-empty directory, and names the inode whose data must go |
| MetadataStorage.MetadataStorage.Lookup | src/storage/local/metadata_storage.rs:210-242 | the lookup of the specification, with its three errors |
| MetadataStorage.MetadataStorage.CreateLink | src/storage/local/metadata_storage.rs:539-583 | the new tables and answer are those of the specification |
| MetadataStorage.MetadataStorage.ReplaceLink | src/storage/local/metadata_storage.rs:585-631 | the new tables and answer are those of the specification, which names the inode replaced |
| MetadataStorage.MetadataStorage.RemoveLink | src/storage/local/metadata_storage.rs:749-833 | the new tables and answer are those of the specification, with the sticky-bit cases; `Refusals.RemoveAnswer` says when it is refused |
| MetadataStorage.MetadataStorage.NonDirectoryInodes | src/storage/local/metadata_storage.rs:195-208 | exactly the inodes that are no directories |
| MetadataRuns.CommitKeepsKeys | src/storage/local/metadata_storage.rs:909-964 | every request keeps extended attributes and parent pointers to live inodes |
| MetadataRuns.DeletionLeavesNothing | src/storage/local/metadata_storage.rs:928-941 | after any requests, a deleted inode has neither extended attributes nor a parent pointer, and every live directory has its parent pointer |
| MetadataRuns.AllocatedAt | src/storage/local/metadata_storage.rs:988-991 | the k-th inode that any run creates is the first plus k times the number of groups |
| MetadataRuns.AllocationIsUnique | src/storage/local/metadata_storage.rs:176-180 | over all groups and all runs, inodes created are distinct, never the root, and lead back to their group modulo the number of groups |
| FileStore.CommitMirrors | src/storage/local/file_storage.rs:110-214 | every request keeps a rank's files the stripes of the flat files, flat lengths equal to the sizes in the metadata, and deleting always finds its data file |
| FileStorage.FileStorage.constructor | src/storage/local/file_storage.rs:51-72 | a new replica has the initial tables and no files |
| FileStorage.FileStorage.Truncate | src/storage/local/file_storage.rs:110-120 | metadata first, then this rank's share of the data |
| FileStorage.FileStorage.Write | src/storage/local/file_storage.rs:203-214 | metadata first, then this rank's part of the data |
| FileStorage.FileStorage.CreateInode | src/storage/local/file_storage.rs:346-369 | the new inode, with an empty data file unless it is a directory |
| FileStorage.FileStorage.DecrementInodeLinkCount | src/storage/local/file_storage.rs:330-343 | deletes the data file together with the last link, and stops if it is missing |
| FileStorage.FileStorage.Fsync | src/storage/local/data_storage.rs:282-290 | asserts that the inode is not the root, and fails if there is no file |
| FileStorage.FileStorage.UpdateMetadata | src/storage/local/file_storage.rs:216-328 | requests that touch no data change the metadata only |
| FileStorage.FileStorage.CommitWrite | src/storage/message_handlers/write_handler.rs:4-128 | the store and answer after any request are those of the specification |
| FileStorage.FileStorage.LocalDataPresent | src/storage/local/file_storage.rs:74-81 | the check passes exactly if every inode that is no directory has a data file |
| FileStorage.GroupRunMirrors | src/storage/local/file_storage.rs:110-214 | after any log, executed on all ranks with arbitrary clocks, all ranks hold the stripes of the same flat files, computed without ranks, and agree on the metadata up to times |
| FileStorage.DataMatchesMetadata | src/storage/local/file_storage.rs:74-120 | from empty disks, after any log: every file inode has a data file at every rank, as long as the rank's share of its size, and the shares add up to the size |
| FileStorage.NeverCorrupted | src/storage/local/file_storage.rs:74-86 | from empty disks, after any log, the existence check passes and no request fails to find a data file |
| Determinism.CommitDeterministic | src/storage/message_handlers/write_handler.rs:4-128 | on tables equal up to times, a request executed at different times answers alike and leaves tables equal up to times |
| LockTable.BatchSize | src/storage/lock_table.rs:102-111 | the number of requests let go: none before the last of them is a Lock, and if the last is not then nobody waiting is |
| LockTable.LockTable.constructor | src/storage/lock_table.rs:26-32 | no lock, nobody waiting |
| LockTable.LockTable.IsLocked | src/storage/lock_table.rs:39-67 | says whether the request must wait, given that the assertions on it hold |
| LockTable.LockTable.WaitForLock | src/storage/lock_table.rs:69-75 | the request goes to the end of the inode's queue |
| LockTable.LockTable.Lock | src/storage/lock_table.rs:78-90 | grants the next lock id |
| LockTable.LockTable.Unlock | src/storage/lock_table.rs:95-120 | lets go the waiting requests up to the next Lock, which gets a new id at once: an id is returned exactly if the last request let go is a Lock |
| LockRuns.ProcessAllKeepsWellFormed | src/storage/lock_table.rs:69-120 | over any log, requests wait only for locked inodes, each in the queue of its own inode |
| LockRuns.FirstComeFirstServed | src/storage/lock_table.rs:69-120 | over any log: of the requests that take access to an inode without its lock, the served ones followed by the queue are the delivered ones in order of delivery, lock grants included; all others are served as they are delivered |
| LockRuns.RequestsConserved | src/storage/lock_table.rs:69-120 | over any log, each command is served or waits exactly as often as it was delivered |
| LockRuns.HistoryIsLegal | src/storage/raft_node.rs:241-293 | over any log, what is executed, granted and freed is a legal lock history: one holder at a time, and access to a locked inode only with its lock id; requests drained by an unlock run between the release and the next grant |
| LockRuns.OnlyHolderChangesRows | src/storage/raft_node.rs:241-293 | in a legal history every row of a locked inode changes only through a request that carries its lock id |
| LockRuns.LockIdsAreFresh | src/storage/lock_table.rs:78-90 | over any log, the lock ids granted are consecutive and none is used twice |
| Replica.ConsensusNode.constructor | src/storage/raft_node.rs:51-123 | a new member has an empty lock table and nothing pending |
| Replica.ConsensusNode.ProcessLockTable | src/storage/raft_node.rs:241-293 | parks, grants, frees or passes on a request as the specification says, and answers locks and unlocks |
| Replica.ConsensusNode.ProcessUnlock | src/storage/raft_node.rs:263-280 | answers the unlock, grants the last request let go if it is a Lock, and passes on the rest |
| Replica.ConsensusNode.ExecuteOne | src/storage/raft_node.rs:311-359 | executes one request and answers it if it was submitted here |
| Replica.ConsensusNode.ExecuteRequests | src/storage/raft_node.rs:310-362 | executes requests in order, answering those submitted here, and stops at a failed assertion |
| Replica.ConsensusNode.ApplyOne | src/storage/raft_node.rs:299-308 | one command: a barrier is answered at once, a request goes through the lock table |
| Replica.ConsensusNode.ApplyDelivery | src/storage/raft_node.rs:298-377 | one slot: all its commands, then the applied index, then the waiters |
| Replica.ConsensusNode.WakeUp | src/storage/raft_node.rs:367-376 | wakes the waiters at the head of the queue up to the first that waits for a later slot |
| Replica.ConsensusNode.Sync | src/storage/raft_node.rs:202-214 | answers at once if the slot is applied, else queues the waiter |
| ReplicaAnswers.ResultsAreServed | src/storage/raft_node.rs:298-363 | a replica has results for exactly its barriers and the requests that its lock table has served: for each execution the outcome of the request on the tables left by those before it, in the order of the lock table's events, for each grant its lock id; its clients have been told exactly those that were asked for here |
| ReplicaAnswers.EachCommandOnce | src/storage/raft_node.rs:298-363 | with distinct commands, each request has one result or waits for a locked inode; clients have been told the results of exactly the commands that they wait for |
| ReplicaAnswers.OutcomeIsCommitted | src/storage/message_handlers/write_handler.rs:4-128 | what a replica answers to a request is the outcome of its metadata transaction, and for a sync whether there is a file; the tables follow the metadata transactions |
| ReplicaDeterminism.StripProcess | src/storage/raft_node.rs:241-293 | the lock table does not depend on which clients wait for an answer |
| ReplicaDeterminism.ApplyCommandsAgree | src/storage/raft_node.rs:298-363 | agreeing replicas still agree after the same commands, and hold the stripes of the same flat files |
| ReplicaDeterminism.ReplicasAgree | src/storage/raft_node.rs:298-363 | two replicas that apply the same slots, with different clocks, clients and starting times, agree on locks, queues, all tables up to times, the inode counter and every result, and stop alike |
| SyncWaiters.WokenBySlot | src/storage/raft_node.rs:367-376 | a slot wakes exactly the waiters that, together with all ahead of them, it satisfies |
| SyncWaiters.WaitersAreWoken | src/storage/raft_node.rs:365-376 | over any run, a waiter has left the queue exactly if the last applied slot has reached the largest index at or ahead of it; nobody is woken before its slot is applied |
| SyncWaiters.NotAlwaysPrompt | src/storage/raft_node.rs:369-375 | a queue in which a waiter whose slot is applied is not woken |
| SyncWaiters.PromptIffNobodyAheadWaitsLonger | src/storage/raft_node.rs:369-375 | a waiter is always woken promptly exactly if nobody ahead of it waits for a later slot |
| GroupRuns.AnswersStay | src/storage/raft_node.rs:298-363 | a result that a replica has at some position of the log it has at every later one |
| GroupRuns.AnswersAgree | src/storage/raft_node.rs:298-363 | what one replica has answered at a position of the log, every replica has |
| GroupRuns.AnsweredIsInLog | src/storage/raft_node.rs:298-363 | whatever a replica has answered at a position is a command of the log before it, parked requests included |
| Visibility.BarrierIsBeyond | src/storage/raft_node.rs:181-192 | a replica that has answered a barrier has recorded every slot decided before the barrier was submitted |
| Visibility.StepKeepsInv | src/storage/raft_node.rs:181-214 | submitting, deciding, applying, recording, and each step of a read keep the invariant: what has been acknowledged to a client is a result that every replica has at that position of the log |
| Visibility.AcknowledgedIsVisible | src/storage/message_handlers/router.rs:126-151 | in every run, a command acknowledged anywhere before a read began is one of the commands decided by then; each replica that answers the read has its result by the time it answers, and has it already at the position the log had reached when the read began |
| GroupRuns.MirrorsAt | src/storage/raft_node.rs:298-363 | at every position of the log each replica holds its stripes of the flat files at that position |
| VisibleReads.FileUnchanged | src/storage/raft_node.rs:298-363 | a file that no command in between concerns is the same at two positions of the log, parked requests included |
| VisibleReads.SharesOfFlat | src/storage/message_handlers/router.rs:126-151 | replicas that read at different positions of the log return the shares of the same flat contents, if no command in between concerns the file |
| VisibleReads.ReadReturnsAcknowledged | src/storage/message_handlers/router.rs:126-151 | every command acknowledged before a read began is in the log, and has been executed by every replica, up to the position the log had reached; if no later command concerns the file, what the read gathers are exactly the bytes of the contents at that position, at whatever positions the replicas were |
| LinkLedger.LastReference | src/storage/local/metadata_storage.rs:909-964 | whoever owes an inode that is not spoiled a decrement finds a count that allows it, and if the decrement deletes it then no entry and no other transaction refers to it |
| TransactionSteps.CreateInodeFine | src/storage/message_handlers/transaction_coordinator.rs:640-674 | the first step of create keeps the ledger and creates an inode that did not exist |
| TransactionSteps.LinkFine | src/storage/message_handlers/transaction_coordinator.rs:678-748 | the link step of create and hardlink succeeds or fails cleanly, keeping the ledger |
| TransactionSteps.HardlinkIncrementFine | src/storage/message_handlers/transaction_coordinator.rs:720-730 | the first step of hardlink raises the count by exactly the link it then owes, or fails cleanly |
| TransactionSteps.HardlinkRollbackFine | src/storage/message_handlers/transaction_coordinator.rs:742-767 | undoing a hardlink never underflows, except on a spoiled file |
| TransactionSteps.DropFine | src/storage/message_handlers/transaction_coordinator.rs:551-558 | a decrement that is owed, unless it is rmdir's and of a file, underflows only on a spoiled file; it stops the run otherwise only on a directory with entries |
| TransactionSteps.UnlinkFine | src/storage/message_handlers/transaction_coordinator.rs:565-635 | removing an entry turns it into exactly one owed decrement |
| RenameSteps.ReplaceFine | src/storage/message_handlers/transaction_coordinator.rs:444-456 | replacing the destination keeps the ledger, with the moved inode linked twice and the replaced one owed a decrement |
| RenameSteps.AddFine | src/storage/message_handlers/transaction_coordinator.rs:463-475 | adding the new entry where there was none never fails and leaves the moved inode linked twice |
| RenameSteps.DropTargetFine | src/storage/message_handlers/transaction_coordinator.rs:457-462 | dropping the replaced inode, whether file or empty directory, stops the run only by underflow on a spoiled file |
| RenameSteps.RemoveOldFine | src/storage/message_handlers/transaction_coordinator.rs:477-487 | removing the old entry settles the second link |
| RenameSteps.ReparentFine | src/storage/message_handlers/transaction_coordinator.rs:489-491 | updating the parent of a moved directory never fails and keeps the ledger |
| RenameSteps.TouchFine | src/storage/message_handlers/transaction_coordinator.rs:492 | the last request never fails and keeps the ledger |
| LockSteps.RemovalReadFine | src/storage/message_handlers/transaction_coordinator.rs:512-549 | the reads of a removal abort it exactly if rmdir has ended up with a file that has not two links; else the owner read under the lock is the inode's owner, what rmdir goes on with is no directory with entries, and the assertion on the link count passes |
| LockSteps.RenameReadFine | src/storage/message_handlers/transaction_coordinator.rs:428-442 | what a rename reads under its locks, and what its access checks conclude from it, holds of the tables |
| LockSteps.LockFine | src/storage/message_handlers/transaction_coordinator.rs:84-96 | a granted lock is added to those held, and was not held before |
| LockSteps.UnlockFine | src/storage/message_handlers/transaction_coordinator.rs:135-153 | an unlock releases exactly that lock |
| LockSteps.ShowsItsLock | src/storage/lock_table.rs:45-48 | no coordinator ever shows a lock id that it does not hold, so the assertion never fails |
| LockSteps.NotHeldByOthers | src/storage/raft_node.rs:252-255 | a request that is let through works on no inode that another transaction has locked |
| Safety.TxnStepKeepsInv | src/storage/message_handlers/transaction_coordinator.rs:348-769 | every step of every coordinator keeps the invariant, and fails no assertion, unwrap or subtraction but those on a non-empty directory, on an rmdir that has ended up with a file, and on a spoiled file |
| Safety.EnvKeepsInv | src/storage/message_handlers/router.rs:109-120 | every client request keeps the invariant; it stops the run only on the root directory |
| Safety.BeginKeepsInv | src/storage/message_handlers/router.rs:121-249 | a client may start a transaction at any time |
| Safety.StepKeepsInv | src/storage/message_handlers/transaction_coordinator.rs:348-769 | every step of the cluster keeps the invariant, and stops the run only for one of four reasons |
| Safety.ReachableInv | src/storage/message_handlers/transaction_coordinator.rs:348-769 | the invariant holds in every state of every run, by any interleaving of coordinators and clients, from a new filesystem |
| Guarantees.LinkCountsConserved | src/storage/message_handlers/transaction_coordinator.rs:380-769 | in every state of every run, the link count of each inode that is not spoiled is its number of entries, plus one for a directory, plus links in flight, minus the second link of a rename in progress |
| Guarantees.NoDanglingEntry | src/storage/local/metadata_storage.rs:909-964 | in every state of every run each entry whose target is not spoiled points at a live inode with a positive count and records its kind |
| Guarantees.QuietStateIsClean | src/storage/message_handlers/transaction_coordinator.rs:348-769 | in every run, when all transactions are done, no lock is left and the link counts of all inodes that are not spoiled are exact |
| Guarantees.OnlyKnownStops | src/storage/local/metadata_storage.rs:909-964 | every run stops only on a client's request to the root directory, on the deletion of a non-empty directory by rmdir or an undone create, on an rmdir that has ended up with a file, or on a spoiled file with fewer links than are given back |
| Guarantees.RmdirStopsIff | src/storage/message_handlers/transaction_coordinator.rs:529-557 | rmdir's decrement stops the run exactly if its inode is a directory with an entry at that step, or a live file with fewer than two links |
| LinkLoss.FileLosesLink | src/storage/message_handlers/transaction_coordinator.rs:549-557 | what a step does that takes two links of a file: the run goes on, and the file is gone, or its count is one short, although the references to it are one more than its count says |
| LinkLoss.KeptIffNoLinkBroken | src/storage/message_handlers/transaction_coordinator.rs:499-562 | a step keeps the invariant with nothing excepted if and only if it does not take two links of a file |
| LinkLoss.ExactIffCareful | src/storage/message_handlers/transaction_coordinator.rs:499-562 | the invariant holds with nothing excepted at every state of a run if and only if no step of the run takes two links of a file |
| LinkLoss.SpoiledIff | src/storage/message_handlers/transaction_coordinator.rs:549-557 | the files spoiled at the end of a run are exactly those of which a step of the run took two links |
| LinkLoss.HistoryUnread | src/storage/message_handlers/transaction_coordinator.rs:499-562 | no step depends on the history of spoiled files |
| RmdirTargets.StepKeepsKinds | src/storage/message_handlers/write_handler.rs:4-128 | no step changes the kind of an inode that stays |
| RmdirTargets.KeptIffNoFileTaken | src/storage/message_handlers/transaction_coordinator.rs:508-557 | where all that rmdirs have removed are directories, a step keeps that, and the invariant with nothing excepted, if and only if it does not remove the entry of something else for an rmdir; the condition is that of the removing branch |
| RmdirTargets.RemovingDirectoriesKeepsInv | src/storage/message_handlers/transaction_coordinator.rs:499-562 | in a run in which rmdir removes only entries of directories, nothing is ever spoiled |
| RmdirTargets.TakenFileIsLostOrStops | src/storage/message_handlers/transaction_coordinator.rs:529-557 | from every state in which rmdir is about to remove the entry of a file, its next steps fail the assertion, or delete a file with two links although, if it was not spoiled before, one reference is left |
| RmdirRuns.LinkLossIsReachable | src/storage/message_handlers/transaction_coordinator.rs:499-562 | a complete run from a new filesystem, every rmdir called on a directory, in which rmdir deletes a file and leaves its other name dangling |
| RmdirRuns.FileStopIsReachable | src/storage/message_handlers/transaction_coordinator.rs:549 | a complete run from a new filesystem in which rmdir ends up with a file and fails its assertion |
| RmdirRuns.ChangedYetFailedIsReachable | src/storage/message_handlers/transaction_coordinator.rs:565-635 | a complete run from a new filesystem in which an unlink removes an entry and then reports failure |
| RmdirRuns.NonEmptyStopIsReachable | src/storage/message_handlers/transaction_coordinator.rs:529-557 | a complete run from a new filesystem that stops on the deletion of a directory that is not empty |
| RmdirRace.CreateCanStopRmdir | src/storage/message_handlers/transaction_coordinator.rs:529-557 | from every state in which rmdir has released its lock and someone may create an entry there, a run that stops |
| Guarantees.EntryChangesAreAllowed | src/storage/local/metadata_storage.rs:775-818 | an entry changes only for a caller who may write to the directory at that step, is added only for one who may search it, and leaves a sticky directory only for the superuser, the directory's owner or a caller who owns its live target at that step |
| Guarantees.EntriesAreProtected | src/storage/local/metadata_storage.rs:775-818 | in every run from a new filesystem, no step adds, removes or replaces an entry but as those permission and sticky-bit rules allow in the state it is taken in |
| Refusals.DeniedOnlyIfForbidden | src/storage/local/metadata_storage.rs:539-583 | the converse, in every run: who may change an entry is never given an error for removing one that is there or adding one that is not; and access is denied only to who may not change the entry or, when adding, may not search the directory |
| Refusals.SearchComesFirst | src/storage/local/metadata_storage.rs:539-553 | tables in which a caller who may change an entry, but not search the directory, is denied to create it over again |
| Refusals.AddAnswer | src/storage/local/metadata_storage.rs:539-583 | the error given for adding an entry is told by name, directory, permissions and the entry that is there |
| Refusals.RemoveAnswer | src/storage/local/metadata_storage.rs:749-833 | a removal is refused exactly if the directory or the entry is missing, or the caller may not write there or, once the owner has been found, may not change the entry; it is complete if the owner has been found, and only if the caller may change the entry; otherwise it changes nothing and names the target |
| Refusals.LookupAnswer | src/storage/local/metadata_storage.rs:210-242 | a lookup finds what the entry points at, or fails for a long name, a missing directory, a caller who may not search it, or a missing entry, in this order |
| TransactionTheorems.OwnLinksFollowEntries | src/storage/message_handlers/transaction_coordinator.rs:494-769 | over any run, the steps of one transaction change the link count of an inode that is not spoiled by what they change in its entries, plus what the transaction then has still to add or give back |
| TransactionTheorems.AllOrNothing | src/storage/message_handlers/transaction_coordinator.rs:494-769 | over any run, of all steps of a create, hardlink, unlink or rmdir: if it reports success exactly one changes the directories, and makes just the change asked for; if it reports failure none does, unless it is an unlink or rmdir and has removed the entry of a spoiled file that is gone; create and hardlink report success if and only if they have made their entry; link counts of inodes that are not spoiled change by just what that change calls for, and what rmdir removes, if not spoiled, is a directory |
| TransactionTheorems.AllOrNothingInEveryRun | src/storage/message_handlers/transaction_coordinator.rs:494-769 | all or nothing for every create, hardlink, unlink and rmdir of every run from a new filesystem, with its one exception, which create and hardlink have not |
| TransactionTheorems.FailsIffGone | src/storage/message_handlers/transaction_coordinator.rs:546-635 | an unlink or rmdir that has removed its entry fails after all if and only if the inode is gone when its links are counted or given back |
| Refusals.StepRefused | src/storage/message_handlers/transaction_coordinator.rs:348-769 | each step of a transaction makes it fail with error e exactly if the tables it finds refuse it with e; else it stays as it was, failing or not |
| Refusals.ErrorsAreTrue | src/storage/message_handlers/transaction_coordinator.rs:348-769 | in every run, a create, hardlink, unlink, rmdir or rename that is done has succeeded if none of its steps was refused, and otherwise has reported the last refusal |
| Refusals.CreateMakesInode | src/storage/message_handlers/transaction_coordinator.rs:640-676 | the inode that a create makes is new, with the owner, group, kind and mode asked for; a directory points at the parent asked for |
| Refusals.RemovedDirectoryIsEmpty | src/storage/message_handlers/transaction_coordinator.rs:512-533 | in every run, a directory whose entry an rmdir removes has no entries at that step |
| Refusals.FullDirectoryIsRefused | src/storage/message_handlers/transaction_coordinator.rs:514-517 | an rmdir that reads a directory with entries ends with NotEmpty |
| Refusals.NonEmptyStopComesLate | src/storage/message_handlers/transaction_coordinator.rs:529-557 | in every run, the directory that an rmdir is about to delete has entries only if one was added after the rmdir released the directory's lock |
| Progress.StepAdvances | src/storage/message_handlers/transaction_coordinator.rs:348-769 | each step of a transaction brings it nearer to its end; a removal that has locked the wrong inode goes on with the one that its name points at |
| Progress.AloneItFinishes | src/storage/message_handlers/transaction_coordinator.rs:348-769 | a transaction that nobody gets in the way of is done after at most twenty steps |
| Progress.NeverStuck | src/storage/message_handlers/transaction_coordinator.rs:348-769 | a transaction that is not done has an enabled step, or waits for a lock |
| LockSafety.LocksAreExclusive | src/storage/lock_table.rs:39-90 | in every reachable state no inode is locked by two transactions, the table holds exactly the locks that transactions hold, and no coordinator is about to fail the assertion on lock ids |
| LockSafety.NoLockLeft | src/storage/message_handlers/transaction_coordinator.rs:357-376 | in every run, when all transactions are done no lock is left |
| LockSafety.LockedRowsAreFrozen | src/storage/raft_node.rs:241-293 | in every reachable state the rows of a locked inode change only through requests with its lock id |
| LockSafety.LocksBalance | src/storage/message_handlers/transaction_coordinator.rs:357-376 | in every run a transaction has taken each inode's lock as often as it has released it, and once more while it holds it |
| LockSafety.FinishedHasReleasedAll | src/storage/message_handlers/transaction_coordinator.rs:357-376 | a transaction that is done, on whatever path, has released every lock it took exactly once |
| RenameTheorems.RenameCannotFail | src/storage/message_handlers/transaction_coordinator.rs:444-492 | in every reachable state, once the access checks have passed, every request of a rename is let through; it stops the run exactly if the replaced file has no link left, which then is a spoiled one, and succeeds otherwise |
| Refusals.ChecksDecide | src/storage/message_handlers/transaction_coordinator.rs:269-343 | what a rename has read under its locks leads on to its first write if and only if the caller may write to both directories, neither sticky bit forbids it, no directory with entries is replaced, and a directory that changes its parent is writable for the caller; otherwise it reports NotEmpty if only those entries forbid it, and else AccessDenied |
| Refusals.RenameGoesAheadIff | src/storage/message_handlers/transaction_coordinator.rs:428-456 | so it is at the last read of every rename of every run, by the rows that the tables then hold |
| Progress.CommittedFinishes | src/storage/message_handlers/transaction_coordinator.rs:348-376 | a rename past its checks, unless it is about to drop a file with no link left, always has an enabled step, and each brings it closer to success and the release of its locks |
| RenameTheorems.UncommittedChangesNothing | src/storage/message_handlers/transaction_coordinator.rs:380-475 | in every run, a rename that has not added the new link has changed nothing, and one that has never goes back |
| RenameTheorems.FailedRenameChangesNothing | src/storage/message_handlers/transaction_coordinator.rs:348-495 | in every run, a rename that fails has changed no table |
| RenameTheorems.RenameMoves | src/storage/message_handlers/transaction_coordinator.rs:444-494 | in every run, a rename has its effect: old name gone, new name in place, the moved inode's attributes and link count unchanged, the replaced inode one link short or deleted for good, a moved directory's parent updated, all under its locks |
| RenameFrame.RenameTouchesNothingElse | src/storage/message_handlers/transaction_coordinator.rs:444-494 | in every run, from its first write on, a rename's own steps leave alone every entry but the two names, every link count but the replaced inode's, every parent pointer but the moved and the replaced inode's, all extended attributes but the replaced inode's, and all other attributes but times |
| RenameFrame.RenameInEveryRun | src/storage/message_handlers/transaction_coordinator.rs:444-494 | in every run from a new filesystem, a rename that has passed its checks changes nothing by its own steps but what it is about, and has its whole effect when it has made its changes |
| RenameFrame.FailureInEveryRun | src/storage/message_handlers/transaction_coordinator.rs:348-495 | in every run from a new filesystem a rename that fails has changed no table |
| RenameTheorems.DropSucceedsIff | src/storage/message_handlers/transaction_coordinator.rs:457-462 | dropping the replaced inode succeeds unless it is a file without a link left, which then is a spoiled one |
| RenameTheorems.DropDeletes | src/storage/message_handlers/transaction_coordinator.rs:457-462 | the replaced directory, or file with a single link, is deleted while it is still locked |
| RenameTheorems.TouchOnlyStamps | src/storage/message_handlers/transaction_coordinator.rs:492-494 | the last request of a rename only sets the time of change |
| RenameTheorems.RetiredStays | src/storage/local/metadata_storage.rs:988-991 | the number of a deleted inode is never used again |
| Deployment.CommitMatches | src/storage/message_handlers/write_handler.rs:4-128 | a request executed by its group on the group's own rows answers as it does on the tables of all groups together, and leaves them matching |
| Deployment.EventMatches | src/storage/raft_node.rs:241-362 | everything that a group's lock table lets happen, an execution, a grant or a release, is an enabled step of the transition system, with the same answer and effect |
| Refinement.DeliveryMatches | src/storage/raft_node.rs:241-362 | a command delivered to its group, with all that it lets go, is a run of the transition system; what stays parked is still awaited, at home and once |
| DeployedRuns.DeployedIsCluster | src/storage/raft_node.rs:241-362 | every run of groups with their own tables, counters and lock tables, whatever their logs hold, is a run of the transition system from a new filesystem, with the same rows, counters, locks, transactions and stops |
| DeployedRuns.DeployedLocksAreExclusive | src/storage/lock_table.rs:39-120 | so no two transactions ever hold the lock of one inode, and its group's table has it under the holder's id |
| Placement.NodeIdInjective | src/base/utils.rs:72-84 | different IPv4 addresses and ports have different node ids |
| Placement.NodeIndex | src/base/local_context.rs:35-43 | the index is the position of the node's id among all ids sorted |
| Placement.PeersWithNodeIndices | src/base/local_context.rs:45-60 | each peer with its index |
| Placement.IndicesAgree | src/base/local_context.rs:35-60 | all nodes give each node the same index, and different nodes different ones |
| Placement.IndexIsTaken | src/base/local_context.rs:34-43 | every index below the number of nodes is some node's |
| Placement.GroupHasReplicas | src/base/utils.rs:16-35 | each group lives on exactly as many nodes as it has replicas |
| Placement.NodeHoldsGroups | src/base/utils.rs:16-35 | with as many groups as nodes, each node holds exactly that many groups |
| Placement.LocalGroups | src/storage/raft_group_manager.rs:15-34 | the groups a node starts are those it holds |
| Placement.RemoteGroups | src/client/cluster_client.rs:16-54 | the table names for every group a node that holds it, this one if possible; the search never comes up empty |
| Placement.HandlesWhatItStarted | src/storage/message_handlers/router.rs:18-34 | a node handles a request for an inode or a group itself if and only if it has started the group, so the group is there when it is looked up |
| Placement.ForwardedOnce | src/client/cluster_client.rs:108-118 | a node that gets a request for an inode forwards it exactly if it does not hold the inode's group; the node it is forwarded to holds the group, has started it, and handles the request |
| Placement.GroupRequestArrives | src/client/cluster_client.rs:88-94 | a request for a group, sent by the table, reaches a node that has started the group |
| Placement.MembersAgree | src/storage/raft_node.rs:55-75 | all members of a group agree on its members |

## Left out

- The consensus protocol, the database, message encoding, the network and the runtime: replaced by a decided log, maps with atomic commits, and datatypes.
- The FUSE adapter, the client, the command line and the benchmarks: wrappers and input or output.
- Deadlock freedom and recovery of a coordinator that dies: the program leaves both open.
- That no inode with link count zero survives: undoing a hardlink lowers the count without deleting, so it does not hold.
- That directories form a tree under concurrent renames: nothing in the program checks it.
- Reads that overlap writes to the same file: only the visibility of acknowledged writes is claimed.
- Which times are recorded, durability of commits, the inode counter across restarts, checksums, and node ids of IPv6 addresses: they depend on clocks or libraries.
- Listing directories and extended attributes, and reading extended attributes: they would only add easy members.
- The two fields of a commit id: the term is always zero, so the model has the index only.
- Guarantees.LinkCountsConserved: says nothing of spoiled files, because it is false of them (`RmdirRuns.LinkLossIsReachable`).
- Guarantees.NoDanglingEntry: says nothing of entries of spoiled files, for the same reason.
- TransactionTheorems.AllOrNothing: does not say that failure means no change for unlink and rmdir, because that is false (`RmdirRuns.ChangedYetFailedIsReachable`).
- MetadataStorage.MetadataStorage.Update: the attribute and extended-attribute setters are one assignment of the specification's tables, because each rewrites one row and step-by-step versions would only add easy members.
- LockTable.LockTable.IsLocked: requires what the program asserts; Admit gives the failing cases, and LockSteps.ShowsItsLock shows that coordinators never reach them.
