# NeuChain: a verified model of the block server's core

NeuChain is a blockchain whose servers agree on the order of transactions before they execute them.
An epoch server numbers batches of user transactions; every block server receives all batches,
executes each epoch in parallel against the database of the epoch before (the Aria protocol), lets a
deterministic rule decide which transactions commit, and packs the result into a block with a Merkle
root. All replicas must end with the same database and the same block, whatever their threads do.

The project proves that they do, for servers that deploy the same transactions in the same epochs, with
ids other than 0 and chaincodes that are functions of the database; the last two sections say what else
is assumed. `dafny verify dfyconfig.toml` checks it.

## What is proved

**One epoch.** `Aria` is the commit rule itself, and `Serializability` what it is for: the epoch result
is the outcome of running the committed transactions one after another in an order that the rule
determines (`Serializable`), so what every transaction keeps when run alone an epoch keeps
(`EpochKeepsInvariant`); which transactions commit is stated in terms of reads and writes, both ways
(`CommitsExactly`), and the smallest transaction always commits. `Reservation` and `AriaExecutor` show
that the reservation registers, execution, write-back and commit code of one worker implement the rule
(`ZeroId` says exactly when they cannot). `EpochSchedule` does so for any number of workers interleaved
at every register swap and every write-back: neither the split of the transactions nor the schedule
changes database, verdicts or registers; `ScheduleProgress` adds that no schedule leads into a dead end.

**Whole runs.** `Phases` is the coordinator and its worker threads, in the plain and in the aggregating
form: no commit of an epoch happens before a read of it, nothing of a later epoch is read before a commit
of an earlier one, every deployed transaction is executed once and committed once, and the threads cannot
deadlock; every run can be brought to an end in which all that was deployed is done (`PhaseProgress`).
`Deployment` says what that means for the transactions of an epoch at any moment. `Cluster` puts all of
it together: servers with their own threads, registers and databases, which may be in different epochs
and share nothing but messages. A server that shares its epochs executes only its own transactions, on
its own database, and takes the outcomes of the others from their messages. By induction over whole runs,
every database of every server is one of a single chain (`EpochChain`), so any two servers that have
finished an epoch have the same database and verdicts, however many workers they have, however the
transactions are shared out, wherever they are executed, and however threads and servers interleave
(`Replicas.ServersAgree`); every run is serializable; the cluster cannot deadlock (`Progress`). `Grain`
carries the agreement down to workers that interleave at every register swap, and `Reuse` to servers that
try again what they have aborted themselves, without being told what the others try again. `Blocks` adds
that they make the same block with the same Merkle root.

**Getting the transactions in.** `EpochServer` (all epoch servers hand out epochs of one sequence,
propose the next one when their timer is out, and number requests by the sum of their sizes),
`EpochBuffer` (the queue that the client proxies fill is ordered by epoch), `Segmentation` (the epoch
loops cut that queue exactly at the epoch boundaries; `Pipeline` joins the two), `Ranks`,
`SharedWorkloads`, `Assignment` and `Aggregation` (every transaction is executed on exactly one server,
the workloads are what the cluster needs, and the exchange code makes every server's epoch result that of
executing everything locally), `Exchange` and `ExchangeProgress` (received messages are of the right
epoch, and all of them come), `Retry` (every transaction finishes after at most as many epochs as there
are transactions), `ViewChange` (which votes count, which proxies are invalid and which are approved in
which epoch, each if and only if the messages received say so), `UpdateBuffer`, `CommitReads` and
`BufferEpochs` (over any number of epochs a commit finds the write set that was buffered for it in the
same epoch, and nothing older stays in the buffer).

**Below.** `MpmcRing` with `RingRuns` and `RingCalls`, `Semaphore` with `SemaphoreCalls`, `BlockingQueue`
with `QueueCalls` (the concurrent queue under every hand-over) and `QueueProgress` (a consumer with a
permit never waits in vain), `BlockOrder`, `MerkleSpec` and `MerkleTree` (the block body and its Merkle
root against the recursive definition), `ShaTree` (the tree over SHA-256), `Sha256Spec` and `Sha256` (the
streaming hash against the definition of FIPS 180-4 with the padding of RFC 6234), `Sha256Parts`,
`Sha256Constants` and `Sha256Example` (that this definition is the right one: what its functions do to
each bit, which roots its constants are, and the digest of "abc"), `BankEffects`, `SmallBank` and
`BankRuns` (the bank chaincode: what each operation does to every balance, solvency and conservation of
money, for an epoch and for whole runs of a cluster).

## Where the code does not do what it is meant to do

Each of these is proved, as an exact condition where there is one.

- A register that holds 0 counts as empty, while ids are the first eight bytes of a digest. A
  transaction with id 0 is invisible to the conflict tests (`ZeroId.SeenExactly`); the registers can
  represent an epoch if and only if no successful transaction with id 0 touches a key
  (`ReservableExactly`), and if one does, two transactions can commit that no serial order explains
  (`SkewPasses`, `SkewNotSerial`). All other results are about epochs with distinct ids other than 0.
- The Merkle root covers the first 2^18 leaves only: it is the root of all leaves for every hash
  function if and only if there are at most 2^18 (`MerkleTree.RootExact`). For trees of more than 2^18
  and at most 2^18 + 2^17 leaves, verifying or updating a leaf from position 2^18 on reads through a
  null pointer (`Tree.Verify`, `Tree.Update`); so does asking an empty tree for its root. An update
  does not reach the last level, which then holds the root of before (`Tree.Update`).
- The string hash helper passes sizes on as 32-bit numbers: it hashes the whole string if and only if
  the string is shorter than 2^32 bytes (`Sha256.WholeString`, `Helper.Hash`).
- A message that is too long makes the hash context fail with the code of a null argument, and the
  input call in which it happens reports success (`Context.Input`).
- The test for a finished epoch compares with equality, so one more approval, by an id that is not
  one of the servers, undoes it (`ViewChange.FinishedUndone`). A message undoes a finished epoch if and
  only if it is a confirmation of that epoch by a valid server that is not in the approve set, or the
  vote that makes such a server invalid (`FinishedStep`); over a history, an epoch stays finished if and
  only if there is no such message (`FinishedExactly`), as when all messages name servers
  (`FinishedForever`).
- The cyclic barrier waits without a condition. If a waiting proxy wakes up spuriously, transactions
  of a later epoch can overtake those of an earlier one (`SpuriousWakes.SpuriousWakeBreaksOrder`); without
  spurious wake-ups they never do (`EpochBuffer.QueueOrdered`). With them, order is kept as long as no worker
  pushes while another is behind (`OrderedUnlessOvertaken`), and lost when the one behind has a transaction
  of an earlier epoch (`OvertakenIsLate`).
- The minimum number of transactions per workload never matters: `Segmentation.CreateWorkload` is the
  same function of the queue for every minimum.
- Bank balances are 32-bit numbers and nothing checks for overflow. An epoch keeps all balances
  non-negative if and only if no committed operation overflows (`SmallBank.SolventExactly`). An epoch of
  transfers loses exactly 2^32 for every committed transfer that overflows (`EpochMoney`), and keeps the
  total if and only if none does (`EpochKeepsBooks`); so do runs of any number of epochs
  (`BankRuns.SolventRun`, `SolventRunMoney`, `BooksRun`). A withdrawal of the smallest int passes the check
  of the balance and leaves the account below zero (`SmallestAmount`); a payment out of an account with
  the smallest int makes 2^32 (`DebtMakesMoney`).
- A transaction that is aborted because an earlier one writes the same key does not end the buffering
  phase, and every other verdict does (`AriaExecutor.CommitOne`), but every epoch that is not empty has
  a transaction with another verdict (`Retry.RunAndFinish`).

## Model

| member | source | states |
|---|---|---|
| `Aria.ApplyLookup` | src/block_server/database/impl/database_impl.cpp:39-60 | writing back a write set leaves at each key the value of the last write to it, and other keys as they were |
| `Aria.CommittedWritesDisjoint` | src/block_server/worker/transaction_executor.cpp:17-43 | two different committed transactions never write the same key |
| `Aria.OverlayStep` | src/block_server/database/impl/database_impl.cpp:39-60 | writing back one more transaction that shares no key with the others extends the overlay of the committed writes over the snapshot |
| `Aria.OverlayUnique` | src/block_server/worker/transaction_executor.cpp:17-43 | the epoch result is unique: any two databases that overlay the same committed writes on the same snapshot are equal |
| `Serializability.NoReadAfterSerialWrite` | src/block_server/reserve_table/mock/mock_reserve_table.cpp:34-64 | in the serial order no committed transaction reads a key that a predecessor writes |
| `Serializability.ReadsSnapshot` | src/block_server/worker/transaction_executor.cpp:17-43 | a committed transaction, run at its place in the serial order, sees the snapshot on all keys it reads and does what it did in the read phase |
| `Serializability.SerialPrefix` | src/block_server/worker/transaction_executor.cpp:17-43 | every prefix of the serial order, run one after another, leaves the overlay of the recorded writes of that prefix |
| `Serializability.Serializable` | src/block_server/worker/transaction_executor.cpp:17-43 | the epoch result equals the serial execution of the committed transactions in the order of the key -tid for those with a read-after-write and tid for the others; every one of them sees its snapshot reads |
| `Serializability.WitnessExists` | src/block_server/worker/transaction_executor.cpp:17-43 | every set of transactions with distinct ids can be listed in strictly increasing serial key |
| `Serializability.EpochHasSerialOrder` | src/block_server/worker/transaction_executor.cpp:17-43 | every epoch result has such a serial order, containing exactly the committed transactions |
| `Serializability.EpochKeepsInvariant` | src/block_server/worker/transaction_executor.cpp:17-43 | any property of the database that each successful transaction keeps when run alone is kept by every epoch |
| `Serializability.SmallestCommits` | src/block_server/reserve_table/mock/mock_reserve_table.cpp:34-64 | the successful transaction with the smallest id commits |
| `Serializability.CommitsExactly` | src/block_server/worker/transaction_executor.cpp:17-43 | for every epoch: a successful transaction commits if and only if it shares no written key with an earlier one and either none of them reads what it writes or it reads what none of them writes, in terms of the recorded reads and writes |
| `Serializability.OneWayCommits` | src/block_server/worker/transaction_executor.cpp:17-43 | a transaction whose conflicts with the earlier ones all go in one direction commits |
| `Serializability.PairExactly` | src/block_server/worker/transaction_executor.cpp:17-43 | of two transactions the smaller commits, and the other if and only if they write no common key and some order of the two lets the later one read nothing that the earlier one writes |
| `Reservation.FlagsAreConflicts` | src/block_server/reserve_table/mock/mock_reserve_table.cpp:34-64 | the three register tests hold exactly when an earlier successful transaction conflicts: write-write, read-before-write, write-before-read |
| `Reservation.RegisterDetects` | src/block_server/reserve_table/mock/mock_reserve_table.cpp:34-64 | a register that holds the least reserving id tells whether any smaller id reserved the key, in both directions; 0 is the empty register |
| `AriaExecutor.ReserveTable.ReserveRWSet` | src/block_server/reserve_table/mock/mock_reserve_table.cpp:9-32 | every register of a read or written key is lowered to the id if it was empty or larger, and no other register changes |
| `AriaExecutor.ReserveTable.DependencyAnalysis` | src/block_server/reserve_table/mock/mock_reserve_table.cpp:34-64 | the three flags are the three conflict relations on the set of all transactions reserved so far |
| `AriaExecutor.Database.BufferUpdates` | src/block_server/database/impl/database_impl.cpp:25-36 | the first call after a commit phase empties the buffer; then the transaction is filed under its id |
| `AriaExecutor.Database.CommitUpdate` | src/block_server/database/impl/database_impl.cpp:39-60 | the whole write set of the buffered transaction is applied, in order, and the commit phase is on |
| `AriaExecutor.Database.AbortUpdate` | src/block_server/database/impl/database_impl.cpp:62-64 | an abort turns the commit phase on |
| `AriaExecutor.ReserveExtends` | src/block_server/reserve_table/mock/mock_reserve_table.cpp:9-32 | reserving a successful transaction keeps every register the least reserving id, now with that transaction |
| `AriaExecutor.FailedReservesNothing` | src/block_server/worker/impl/transaction_executor_impl.cpp:14-33 | a failed transaction, which reserves nothing, keeps every register right |
| `AriaExecutor.ExecuteOne` | src/block_server/worker/impl/transaction_executor_impl.cpp:14-33 | one transaction of the read phase: its outcome is that of its chaincode on the unchanged database, the registers account for it, it is buffered, and it is marked if it failed |
| `AriaExecutor.ExecuteList` | src/block_server/worker/impl/transaction_executor_impl.cpp:14-33 | the read phase of a workload: all outcomes are taken on the same database and all registers are the least reserving ids |
| `AriaExecutor.CommitOne` | src/block_server/worker/transaction_executor.cpp:17-43 | the verdict is exactly the commit rule, the database is the overlay of the writes committed so far, and the commit phase is on afterwards exactly if it was before or the verdict is not a write-write abort |
| `AriaExecutor.CommitList` | src/block_server/worker/transaction_executor.cpp:17-43 | the commit phase of a workload: all verdicts by the rule, and exactly the committed writes on the snapshot |
| `AriaExecutor.RunEpoch` | src/block_server/reserve_table/reserve_table.cpp:25-33 | an epoch on a fresh reservation table: the database becomes the epoch result of its transactions and every transaction gets the verdict of the rule |
| `ZeroId.SeenExactly` | src/block_server/reserve_table/mock/mock_reserve_table.cpp:34-64 | a transaction that reserved alone is seen by the three tests of a later one exactly when they conflict and its id is not 0 |
| `ZeroId.ReservableExactly` | src/block_server/reserve_table/mock/mock_reserve_table.cpp:9-32 | registers that hold the least reserving ids exist if and only if no successful transaction with id 0 touches a key |
| `ZeroId.SkewPasses` | src/block_server/reserve_table/mock/mock_reserve_table.cpp:34-64 | two transactions that each read what the other writes both pass the tests if and only if the smaller id is 0 |
| `ZeroId.SkewNotSerial` | src/block_server/worker/transaction_executor.cpp:17-43 | what these two leave together is the result of no serial order |
| `EpochSchedule.RunInv` | src/block_server/reserve_table/mock/mock_reserve_table.cpp:9-32 | in every run, after any number of steps of any number of workers, every register holds the least id among the reservations made, and every committed write made so far is in the database |
| `EpochSchedule.RegsAtEnd` | src/block_server/reserve_table/mock/mock_reserve_table.cpp:9-32 | when no worker reserves any more, the registers are those of the whole epoch |
| `EpochSchedule.PassesIsCommitted` | src/block_server/worker/transaction_executor.cpp:17-43 | once reserving is over, the register tests of any worker on any transaction give the commit rule |
| `EpochSchedule.DecidedAtEnd` | src/block_server/worker/transaction_executor.cpp:17-43 | a finished run has decided every transaction by the rule and written the committed ones back completely |
| `EpochSchedule.FinishedRun` | src/block_server/worker/transaction_executor.cpp:17-43 | whatever the split and the interleaving, a finished run leaves the epoch result, the verdicts of the rule and the least ids in the registers |
| `EpochSchedule.ScheduleIndependent` | src/block_server/worker/transaction_executor.cpp:17-43 | two finished runs of the same transactions with any splits and any schedules agree on database, verdicts and registers |
| `EpochSchedule.ReadsTheSnapshot` | src/block_server/worker/impl/transaction_executor_impl.cpp:14-33 | in every run, as long as any worker executes and reserves, the database is the snapshot, so the outcome of a chaincode called then is the recorded one |
| `ScheduleProgress.Onward` | src/block_server/reserve_table/mock/mock_reserve_table.cpp:9-32 | as long as an epoch is not finished, some worker has a step after which less is left to do, whatever the others have done |
| `ScheduleProgress.CanFinish` | src/block_server/worker/transaction_executor.cpp:17-43 | every run of every schedule can be continued to one that finishes the epoch |
| `Phases.RunInv` | include/block_server/worker/worker_instance.h:61-92 | what the position of the coordinator says about state, signal, position and workload of every worker holds in every run |
| `Phases.RunConserved` | src/block_server/coordinator/aria_coordinator.cpp:163-176 | in every run the events done and the work still to do are together what was deployed |
| `Phases.PhaseSeparation` | src/block_server/coordinator/aria_coordinator.cpp:24-89 | in every run of any number of workers: epochs in order and, within an epoch, all reads before all aggregations before all commits |
| `Phases.CommitAlone` | src/block_server/coordinator/aria_coordinator.cpp:112-126 | the barrier: while one worker is past its commit signal no worker executes or reserves, nor has anything but commits left to do |
| `Phases.ReplacedWorkloadUntouched` | src/block_server/coordinator/aria_coordinator.cpp:163-176 | while a ready worker gets a new workload it cannot take any step |
| `Phases.EpochComplete` | src/block_server/coordinator/aria_coordinator.cpp:112-126 | when the commit phase ends, every deployed transaction has been executed once and committed once and every worker is idle |
| `Phases.NoDeadlock` | src/block_server/worker/aria_worker.cpp:19-52 | until the coordinator has stopped some thread can move, in every reachable state |
| `Phases.Resume` | src/block_server/worker/aggregation_worker.cpp:25-72 | a worker that the coordinator waits for can always move |
| `PhaseProgress.WorkersLess` | src/block_server/worker/aggregation_worker.cpp:25-72 | every step of a worker leaves it less to do |
| `PhaseProgress.CanStop` | src/block_server/coordinator/aria_coordinator.cpp:24-89 | every run can be continued until the coordinator has stopped |
| `PhaseProgress.StoppedMeans` | src/block_server/coordinator/aria_coordinator.cpp:24-89 | in every run: when the coordinator has stopped, all workers have exited and every deployed transaction has been executed once and committed once |
| `PhaseProgress.ExitsIdle` | src/block_server/worker/aggregation_worker.cpp:25-72 | in every run: a worker is told to exit only when it has nothing to do |
| `PhaseProgress.ReadyIsReused` | src/block_server/coordinator/aria_coordinator.cpp:163-176 | a ready worker can be given any workload of the current epoch, which is then deployed to it and signalled |
| `Deployment.Done` | include/block_server/worker/worker_instance.h:61-92 | at every moment what is deployed and not pending with a worker has been done, and nothing else has |
| `Deployment.PendingPhase` | include/block_server/worker/worker_instance.h:61-92 | what can be pending, by the position of the coordinator: only the current epoch; only commits in the commit phase; nothing to execute when the read phase has ended; nothing at all at the end |
| `Deployment.WorkDone` | src/block_server/coordinator/aria_coordinator.cpp:112-126 | when transactions commit, all of the epoch have been executed or reserved |
| `Deployment.ReadsDone` | src/block_server/coordinator/aria_coordinator.cpp:112-126 | when the read phase ends, all transactions to be executed here have been |
| `Deployment.CommitsDone` | src/block_server/coordinator/aria_coordinator.cpp:112-126 | when the commit phase ends, all deployed transactions have been decided |
| `EpochChain.ReadOk` | src/block_server/worker/impl/transaction_executor_impl.cpp:14-33 | executing a transaction on the current database and reserving it keeps outcomes, registers and database those of the snapshot |
| `EpochChain.AggregateOk` | src/block_server/worker/impl/aggregation_transaction_executor.cpp:11-26 | reserving a transaction whose outcome was received does too |
| `EpochChain.DecideOk` | src/block_server/reserve_table/mock/mock_reserve_table.cpp:34-64 | once all are reserved, the register tests make the decision of the commit rule |
| `EpochChain.CommitOk` | src/block_server/worker/transaction_executor.cpp:17-43 | deciding by the registers and writing back, in any order and even repeatedly, keeps the database the snapshot overlaid with the committed writes so far |
| `EpochChain.FinishOk` | src/block_server/worker/transaction_executor.cpp:17-43 | when all are decided the database is that of the next epoch |
| `EpochChain.ChainSerializable` | src/block_server/worker/transaction_executor.cpp:17-43 | every database of the chain is what the committed transactions leave on the one before when run one after another in the serial order |
| `Cluster.OwnDone` | src/block_server/coordinator/aggregation_coordinator.cpp:20-53 | when the read phase of a server ends, it has executed exactly the transactions of the epoch that fall on its rank |
| `Cluster.ToldRight` | src/block_server/coordinator/aggregation_broadcaster.cpp:54-101 | what a server is told about a transaction is its outcome on the database of the epoch, although the sender executed it on its own database |
| `Cluster.AllTold` | src/block_server/coordinator/aggregation_broadcaster.cpp:54-101 | the messages of all servers for an epoch cover it |
| `Cluster.RunInv` | src/block_server/coordinator/aggregation_coordinator.cpp:20-53 | the invariant over threads, outcomes, registers, databases and messages of all servers holds in every run of a cluster of any size |
| `Replicas.DatabasesFollow` | src/block_server/coordinator/aggregation_coordinator.cpp:20-53 | at every moment of every run the database of every server is that of its epoch in one chain, or of the next when it is done, and then its verdicts are those of the commit rule; servers may be in different epochs |
| `Replicas.ServersAgree` | src/block_server/coordinator/aria_coordinator.cpp:24-89 | two servers of any clusters, with shared execution or without, that have finished the same epoch have the same database and the same verdicts, whatever their workers, workloads, schedules and moments |
| `Replicas.RunSerializable` | src/block_server/coordinator/aria_coordinator.cpp:24-89 | every run of every server is serializable epoch by epoch, the commits being decided by the registers |
| `Replicas.MessagesFit` | src/block_server/coordinator/aggregation_broadcaster.cpp:54-101 | the check on the transactions in a received message never fails: they are scheduled for the epoch and not executed here |
| `Grain.ReadGrain` | src/block_server/reserve_table/mock/mock_reserve_table.cpp:9-32 | when workers have reserved an epoch, interleaved at every register swap, the registers are those of executing the transactions one after another in any order |
| `Grain.SameGrain` | src/block_server/worker/transaction_executor.cpp:17-43 | a finished run of interleaved workers has the effect on database and verdicts of executing all transactions and then deciding all, one after another, in any orders |
| `Grain.FineFollows` | src/block_server/coordinator/aria_coordinator.cpp:24-89 | a server that runs epoch after epoch with any workers, splits and interleavings follows the chain of databases |
| `Grain.GrainsAgree` | src/block_server/coordinator/aria_coordinator.cpp:24-89 | such a server and any server of any cluster that have finished the same epoch have the same database and the same verdicts |
| `Reuse.RetriesExist` | src/block_server/transaction/impl/transaction_manager_impl.cpp:77-121 | there is a schedule in which every epoch has its new transactions and exactly those that the commit rule aborts in the epoch before |
| `Reuse.FilesRight` | src/block_server/transaction/impl/transaction_manager_impl.cpp:77-121 | what a server files for the next epoch by its own verdicts is what the commit rule aborts on the common database |
| `Reuse.LocalIsCluster` | src/block_server/transaction/impl/transaction_manager_impl.cpp:31-50 | every run of servers that each deploy the new transactions and what they have filed themselves is a run of the cluster that is given that schedule beforehand |
| `Reuse.SameRetries` | src/block_server/transaction/impl/transaction_manager_impl.cpp:77-121 | in every run all servers that have come to an epoch try the same transactions again in it |
| `Reuse.RetryingServersAgree` | src/block_server/transaction/impl/transaction_manager_impl.cpp:31-50 | servers that are given the same new transactions and try aborted ones again agree on database and verdicts after every epoch |
| `Progress.ClusterProgress` | src/block_server/coordinator/aggregation_broadcaster.cpp:54-101 | no deadlock in the cluster: as long as no server is told to stop some server can take a step, so servers never wait for messages in a circle |
| `Assignment.SharedDeploys` | src/block_server/coordinator/aggregation_coordinator.cpp:55-109 | the workloads a sharing server makes of an epoch are what the cluster model asks it to deploy: its own transactions to execute, the others to reserve, all of them |
| `Assignment.PlainDeploys` | src/block_server/coordinator/aria_coordinator.cpp:178-203 | so are the workloads of a server that executes everything |
| `Exchange.RunInv` | src/block_server/coordinator/aggregation_broadcaster.cpp:103-117 | the invariant over receiving threads, their barrier and the buffer holds in every run |
| `Exchange.EpochChecked` | src/block_server/coordinator/aggregation_broadcaster.cpp:54-101 | in every run the message that a task of the coordinator has taken, and the next one to take, is of the epoch being aggregated, however far ahead other servers are; so the check on it never fails |
| `Exchange.AllTaken` | src/block_server/coordinator/aggregation_broadcaster.cpp:54-101 | when the coordinator goes on, it has taken one message of every other server for each epoch so far and none of a later one |
| `Exchange.OneEach` | src/block_server/coordinator/aggregation_broadcaster.cpp:103-117 | no receiving thread is more than one message ahead of another, and a complete round has a message of each |
| `ExchangeProgress.MessageComes` | src/block_server/coordinator/aggregation_broadcaster.cpp:103-117 | while the coordinator lacks a message, a receiving thread can take a step that brings one nearer |
| `ExchangeProgress.CanGoOn` | src/block_server/coordinator/aggregation_broadcaster.cpp:54-101 | every run can be continued to the end of the exchange and into that of the next epoch |
| `MpmcRing.RingSound` | include/common/concurrent_queue/mpmc_queue.h:257-259 | two tickets with the same slot and the same turn are the same ticket, for every capacity |
| `MpmcRing.Draw` | include/common/concurrent_queue/mpmc_queue.h:166-175 | taking a ticket to push keeps the invariant |
| `MpmcRing.Construct` | include/common/concurrent_queue/mpmc_queue.h:166-175 | a producer constructs its value in an empty slot only |
| `MpmcRing.Publish` | include/common/concurrent_queue/mpmc_queue.h:166-175 | storing the odd turn publishes the value to the holder of the matching ticket and to nobody else |
| `MpmcRing.DrawPop` | include/common/concurrent_queue/mpmc_queue.h:225-233 | taking a ticket to pop keeps the invariant |
| `MpmcRing.Take` | include/common/concurrent_queue/mpmc_queue.h:225-233 | a consumer moves out exactly the value pushed with its own ticket, which nobody has taken before |
| `MpmcRing.Release` | include/common/concurrent_queue/mpmc_queue.h:225-233 | storing the even turn hands the empty slot to the producer one round later |
| `MpmcRing.PushKeeps` | include/common/concurrent_queue/mpmc_queue.h:177-197 | every step of a push or of a try_push keeps the invariant |
| `MpmcRing.PopKeeps` | include/common/concurrent_queue/mpmc_queue.h:235-254 | every step of a pop or of a try_pop keeps the invariant |
| `MpmcRing.RunInv` | include/common/concurrent_queue/mpmc_queue.h:166-254 | the invariant holds in every run of any number of producers and consumers |
| `RingRuns.RingCorrect` | include/common/concurrent_queue/mpmc_queue.h:166-254 | in every run: what was popped under a ticket is what was pushed under it, no value is overwritten or taken twice, and at most capacity values are in the ring |
| `RingRuns.LiveBound` | include/common/concurrent_queue/mpmc_queue.h:257-259 | tickets whose values are published and not consumed occupy different slots, so there are at most as many as slots |
| `RingRuns.TryPushSeesFull` | include/common/concurrent_queue/mpmc_queue.h:177-197 | a try_push that finds the turn wrong at the current head sees a ring whose ticket one round earlier is not consumed |
| `RingRuns.TryPopSeesEmpty` | include/common/concurrent_queue/mpmc_queue.h:235-254 | a try_pop that finds the turn wrong at the current tail sees a ticket that is not published |
| `RingRuns.TryPushFails` | include/common/concurrent_queue/mpmc_queue.h:177-197 | in every run: when a try_push returns false, there was a moment during the call at which the head was the present one and the ring was full |
| `RingRuns.TryPopFails` | include/common/concurrent_queue/mpmc_queue.h:235-254 | in every run: when a try_pop returns false, there was a moment during the call at which the tail was the present one and its element was not there |
| `RingCalls.PushAlone` | include/common/concurrent_queue/mpmc_queue.h:166-175 | a push that nobody interferes with puts its value at the head of a ring with room, and changes nothing else |
| `RingCalls.TryPushAlone` | include/common/concurrent_queue/mpmc_queue.h:177-197 | a try_push that nobody interferes with does the same if there is room, and otherwise leaves the ring as it was |
| `RingCalls.PopAlone` | include/common/concurrent_queue/mpmc_queue.h:225-233 | a pop that nobody interferes with takes the element at the tail, and changes nothing else |
| `RingCalls.TryPopAlone` | include/common/concurrent_queue/mpmc_queue.h:235-254 | a try_pop that nobody interferes with does the same if there is an element, and otherwise leaves the ring as it was |
| `RingCalls.FirstInFirstOut` | include/common/concurrent_queue/mpmc_queue.h:166-254 | any values that fit into a quiet and empty ring can be pushed into it and popped, and come out in the same order |
| `RingCalls.FirstIsQuiet` | include/common/concurrent_queue/mpmc_queue.h:122-140 | a ring as it is constructed is quiet and empty |
| `Semaphore.StepAccounted` | include/common/concurrent_queue/light_weight_semaphore.hpp:264-404 | every step of a wait, try-wait or signal keeps the books of count, tokens, waiters and debts |
| `Semaphore.RunAccounted` | include/common/concurrent_queue/light_weight_semaphore.hpp:264-404 | the books balance in every run, with time-outs at any point |
| `Semaphore.NeverOverAcquired` | include/common/concurrent_queue/light_weight_semaphore.hpp:264-404 | never more successful waits than initial count plus signals |
| `Semaphore.NoLostWakeup` | include/common/concurrent_queue/light_weight_semaphore.hpp:264-404 | if a waiter has no token coming, then every signal has been consumed or is on its way |
| `Semaphore.EveryWaiterServed` | include/common/concurrent_queue/light_weight_semaphore.hpp:264-404 | when the count is not negative, every registered waiter has a token waiting or about to be released |
| `SemaphoreCalls.CallTakes` | include/common/concurrent_queue/light_weight_semaphore.hpp:264-389 | in every run: a wait takes between 0 and as many permits as it asked for; one that ends with none has found the count at zero or below, and a blocking one only by undoing its own decrement while the count is negative |
| `SemaphoreCalls.NeverStuck` | include/common/concurrent_queue/light_weight_semaphore.hpp:264-404 | in every run: a thread inside an operation always has a next step |
| `SemaphoreCalls.PermitTaken` | include/common/concurrent_queue/light_weight_semaphore.hpp:264-378 | a waiting thread for which there is a permit, in the count or in the kernel, can take it |
| `BlockingQueue.RunInv` | include/common/concurrent_queue/blocking_mpmc_queue.h:16-35 | ring, semaphore and the operations that use both stay consistent in every run |
| `BlockingQueue.ConsumersNeverOvertake` | include/common/concurrent_queue/blocking_mpmc_queue.h:16-35 | pop tickets never exceed acquired permits, permits never signals, signals never finished pushes, finished pushes never push tickets |
| `BlockingQueue.DeliversPushed` | include/common/concurrent_queue/blocking_mpmc_queue.h:16-35 | whatever a consumer gets was pushed under the same ticket |
| `QueueCalls.PopReturnsElement` | include/common/concurrent_queue/blocking_mpmc_queue.h:16-29 | in every run: a pop, and a try_pop that has got a permit, return only with an element, the one pushed under their ticket |
| `QueueCalls.CanBegin` | include/common/concurrent_queue/blocking_mpmc_queue.h:16-35 | a thread outside the queue can begin to push any value, to pop, and to try to pop |
| `QueueCalls.NeverStuck` | include/common/concurrent_queue/blocking_mpmc_queue.h:16-35 | in every run: a thread inside a call can take a step, unless it waits for the turn of its slot |
| `QueueProgress.QueueHeld` | include/common/concurrent_queue/mpmc_queue.h:166-254 | in every run a ticket that was drawn and is not done is held by a thread inside push or pop |
| `QueueProgress.SomeoneMoves` | include/common/concurrent_queue/mpmc_queue.h:166-254 | as long as the element of a pop ticket has not been taken out, some thread with a ticket that is not later can take a step |
| `QueueProgress.WorkStep` | include/common/concurrent_queue/mpmc_queue.h:166-254 | every step of a thread with a ticket up to a drawn one leaves exactly one step less to do for those, and no other step adds any |
| `QueueProgress.RingStepIsQueueStep` | include/common/concurrent_queue/blocking_mpmc_queue.h:16-35 | what a thread inside push or pop can do in the ring it can do in the queue |
| `QueueProgress.PermitCovered` | include/common/concurrent_queue/blocking_mpmc_queue.h:16-35 | in every run, when a consumer holds a permit and no ticket, the next element is published or in the hands of a thread inside push |
| `QueueProgress.ConsumerServed` | include/common/concurrent_queue/blocking_mpmc_queue.h:16-35 | in every run, the element of a waiting consumer is published or in the hands of a thread inside push, and a thread can take a step that brings it nearer, of which at most three per thread are left |
| `MerkleSpec.MthPairUp` | src/common/merkle_tree/merkle_tree.c:114-144 | hashing neighbours pairwise and promoting a lone last node does not change the recursive Merkle tree hash |
| `MerkleSpec.LevelMth` | src/common/merkle_tree/merkle_tree.c:266-277 | every level of the tree has the Merkle tree hash of the leaves |
| `MerkleSpec.FirstNode` | src/common/merkle_tree/merkle_tree.c:266-277 | the first node of level l is the Merkle tree hash of the first 2^l leaves |
| `MerkleSpec.PrefixLevels` | src/common/merkle_tree/merkle_tree.c:165-190 | the first c nodes of level l depend on the first c * 2^l leaves only |
| `MerkleSpec.SuffixLevels` | src/common/merkle_tree/merkle_tree.c:165-190 | the nodes of level l from c on depend on the leaves from c * 2^l on only |
| `MerkleSpec.WidthBound` | src/common/merkle_tree/merkle_tree.c:165-172 | level l has at most m nodes if and only if there are at most m * 2^l leaves |
| `MerkleSpec.SplitIsPower` | src/common/merkle_tree/merkle_tree.c:165-172 | the leaves of a tree split at a power of two |
| `MerkleSpec.SmallTrees` | src/common/merkle_tree/merkle_tree.c:114-144 | the hashes over two, three and five leaves, written out |
| `MerkleSpec.TowerLevel` | src/common/merkle_tree/merkle_tree.c:114-144 | linking levels pairwise gives the levels of the recursive tree |
| `MerkleSpec.LinkCarries` | src/common/merkle_tree/merkle_tree.c:114-144 | appending a leaf changes a stored level by appending or replacing its last node |
| `MerkleSpec.AppendLevel` | src/common/merkle_tree/merkle_tree.c:114-144 | appending a leaf grows or rewrites exactly the last node of every level |
| `MerkleSpec.AppendAbove` | src/common/merkle_tree/merkle_tree.c:114-144 | above the first level with one node, appending changes nothing that is stored |
| `MerkleSpec.LinkReplaced` | src/common/merkle_tree/merkle_tree.c:229-263 | replacing a node replaces exactly its parent in the next level |
| `MerkleSpec.ReplaceLevel` | src/common/merkle_tree/merkle_tree.c:229-263 | replacing a leaf rewrites exactly its ancestors, each from the one below and its sibling |
| `MerkleSpec.AncestorBinds` | src/common/merkle_tree/merkle_tree.c:193-226 | if two trees that differ in one leaf share a level, then on some level of the way up from that leaf two different pairs of their nodes hash to the same value |
| `MerkleSpec.RootBindsLeaf` | src/common/merkle_tree/merkle_tree.c:193-226 | another leaf with the same root makes two pairs of nodes on the way up from that leaf collide |
| `MerkleTree.ArrList.Add` | src/common/merkle_tree/mt_arr_list.c:76-108 | the hash is appended; the block grows to a power of two and neither the size check nor the store ever fails below the maximum |
| `MerkleTree.ArrList.Update` | src/common/merkle_tree/mt_arr_list.c:111-121 | the element is replaced, or the offset is refused and nothing changes |
| `MerkleTree.ArrList.UpdateIfExists` | src/common/merkle_tree/mt_arr_list.c:124-136 | the element is replaced if there is one; success in both cases |
| `MerkleTree.ArrList.AddOrUpdate` | src/common/merkle_tree/mt_arr_list.c:139-152 | replaces, appends just behind the end, refuses beyond |
| `MerkleTree.ArrList.Get` | src/common/merkle_tree/mt_arr_list.c:179-187 | the element, or nothing beyond the end |
| `MerkleTree.BlockFull` | src/common/merkle_tree/mt_arr_list.c:76-108 | an element count that is a power of two means the block is exactly full and can be doubled within the maximum |
| `MerkleTree.InitHash` | src/common/merkle_tree/merkle_tree.c:106-111 | a leaf hash is the tag filled up with zeros |
| `MerkleTree.Tree.constructor` | src/common/merkle_tree/merkle_tree.c:44-62 | an empty tree of twenty levels |
| `MerkleTree.Tree.Carry` | src/common/merkle_tree/merkle_tree.c:114-144 | one level of the climb of an append leaves the next level and the digest as the recursive tree has them |
| `MerkleTree.Tree.CarryUp` | src/common/merkle_tree/merkle_tree.c:114-144 | the climb of an append makes all levels up to the top those of the longer tree |
| `MerkleTree.Tree.Add` | src/common/merkle_tree/merkle_tree.c:114-144 | appends the padded leaf and makes all levels those of the recursive tree, the last one included; a tag that is too long is refused and changes nothing |
| `MerkleTree.Tree.HasNextLevelExceptRoot` | src/common/merkle_tree/merkle_tree.c:165-172 | true exactly when the level is below 18 and has at least two nodes |
| `MerkleTree.Tree.FindRightNeighbor` | src/common/merkle_tree/merkle_tree.c:175-190 | the node of the recursive tree at that level and offset, although promoted nodes are not stored, or nothing if there is none |
| `MerkleTree.Tree.ClimbOne` | src/common/merkle_tree/merkle_tree.c:193-226 | the parent of a node that holds the given digest |
| `MerkleTree.Tree.Verify` | src/common/merkle_tree/merkle_tree.c:193-226 | the exact result for all tags, offsets and sizes: success if and only if replacing the leaf keeps the hash of its block; and success means the leaf is there or nodes on the way up from it collide |
| `MerkleTree.Tree.Overwrite` | src/common/merkle_tree/merkle_tree.c:229-263 | one level of the climb of an update rewrites the stored parent, if it is stored |
| `MerkleTree.Tree.UpdatePath` | src/common/merkle_tree/merkle_tree.c:229-263 | the climb of an update makes all levels it passes those of the changed tree |
| `MerkleTree.Tree.CheckStored` | src/common/merkle_tree/merkle_tree.c:229-263 | the final comparison succeeds exactly when the node is stored |
| `MerkleTree.Tree.Update` | src/common/merkle_tree/merkle_tree.c:229-263 | replaces the leaf and makes all levels but the last those of the recursive tree, with the exact result for all tags, offsets and sizes; the last level keeps the root of before |
| `MerkleTree.Tree.GetRoot` | src/common/merkle_tree/merkle_tree.c:266-277 | the Merkle tree hash of the first 2^18 leaves; an empty tree is a null read |
| `MerkleTree.StopsAtBlock` | src/common/merkle_tree/merkle_tree.c:165-226 | where the climb from a leaf stops: at the root of the block of 2^18 leaves it belongs to, stored except in one range of sizes and offsets |
| `MerkleTree.RootExact` | src/common/merkle_tree/merkle_tree.c:266-277 | the root is that of all leaves for every hash function if and only if there are at most 2^18 leaves |
| `MerkleTree.RootOf` | src/block_server/database/impl/block_generator_impl.cpp:142-149 | the root of a block body is the Merkle tree hash of the transaction digests in block order (first 2^18) |
| `MerkleTree.TopAfter` | src/common/merkle_tree/merkle_tree.c:114-144 | what an append leaves on the last level: the root of all leaves if there are more than 2^18, and nothing otherwise |
| `ShaTree.CollisionIsReal` | src/common/merkle_tree/mt_crypto.c:35-54 | a collision of nodes is one of SHA-256, on two messages of 64 bytes that are pairs of nodes of the two trees |
| `ShaTree.VerifyLeaf` | src/common/merkle_tree/merkle_tree.c:193-226 | over SHA-256: a leaf is accepted only if it is there, or two different messages of 64 bytes hashed on the way up have the same SHA-256 |
| `ShaTree.BlockRoot` | src/block_server/database/impl/block_generator_impl.cpp:133-149 | the stored root is the Merkle tree hash over the SHA-256 digests of the data of the block, in order |
| `Sha256Spec.FoldAppend` | src/common/sha224_256.c:443-511 | compressing a concatenation is compressing its parts in turn, when the first is a whole number of blocks |
| `Sha256Spec.PadSuffix` | src/common/sha224_256.c:389-422 | padding leaves whole blocks at the front alone |
| `Sha256Spec.PadZeros` | src/common/sha224_256.c:389-422 | the number of zeros that makes the padded message a whole number of blocks, less than one block of them |
| `Sha256Spec.LastByteBits` | src/common/sha224_256.c:272-309 | the last byte of a bit message keeps its n bits and is followed by a one bit and zeros |
| `Sha256Parts.ChSelects` | include/common/sha224_256.h:18 | wherever the first word has a one the choice is the second word, elsewhere the third |
| `Sha256Parts.MajAgrees` | include/common/sha224_256.h:19 | wherever two of three words agree, the majority agrees with them |
| `Sha256Parts.Rotr2` | src/common/sha224_256.c:44-45 | rotating by 2 moves the upper bits down by 2 places and puts the lowest 2 on top |
| `Sha256Parts.Rotr6` | src/common/sha224_256.c:44-45 | rotating by 6 moves the upper bits down by 6 places and puts the lowest 6 on top |
| `Sha256Parts.Rotr7` | src/common/sha224_256.c:44-45 | rotating by 7 moves the upper bits down by 7 places and puts the lowest 7 on top |
| `Sha256Parts.Rotr11` | src/common/sha224_256.c:44-45 | rotating by 11 moves the upper bits down by 11 places and puts the lowest 11 on top |
| `Sha256Parts.Rotr13` | src/common/sha224_256.c:44-45 | rotating by 13 moves the upper bits down by 13 places and puts the lowest 13 on top |
| `Sha256Parts.Rotr17` | src/common/sha224_256.c:44-45 | rotating by 17 moves the upper bits down by 17 places and puts the lowest 17 on top |
| `Sha256Parts.Rotr18` | src/common/sha224_256.c:44-45 | rotating by 18 moves the upper bits down by 18 places and puts the lowest 18 on top |
| `Sha256Parts.Rotr19` | src/common/sha224_256.c:44-45 | rotating by 19 moves the upper bits down by 19 places and puts the lowest 19 on top |
| `Sha256Parts.Rotr22` | src/common/sha224_256.c:44-45 | rotating by 22 moves the upper bits down by 22 places and puts the lowest 22 on top |
| `Sha256Parts.Rotr25` | src/common/sha224_256.c:44-45 | rotating by 25 moves the upper bits down by 25 places and puts the lowest 25 on top |
| `Sha256Parts.SingleBits` | src/common/sha224_256.c:48-55 | where the four sigma functions send each of the 32 bits |
| `Sha256Parts.WordBytesRoundTrip` | src/common/sha224_256.c:469-473 | words and their big-endian bytes determine each other |
| `Sha256Parts.LengthValue` | src/common/sha224_256.c:389-422 | the eight length bytes, read as a big-endian number, are the length in bits |
| `Sha256Constants.HashConstants` | src/common/sha224_256.c:83-86 | the first hash value are the fractions of the square roots of the first eight primes |
| `Sha256Constants.Row0` | src/common/sha224_256.c:446-460 | round constants 0 to 7 are the fractions of the cube roots of the primes 2 to 19 |
| `Sha256Constants.Row1` | src/common/sha224_256.c:446-460 | round constants 8 to 15 are the fractions of the cube roots of the primes 23 to 53 |
| `Sha256Constants.Row2` | src/common/sha224_256.c:446-460 | round constants 16 to 23 are the fractions of the cube roots of the primes 59 to 89 |
| `Sha256Constants.Row3` | src/common/sha224_256.c:446-460 | round constants 24 to 31 are the fractions of the cube roots of the primes 97 to 131 |
| `Sha256Constants.Row4` | src/common/sha224_256.c:446-460 | round constants 32 to 39 are the fractions of the cube roots of the primes 137 to 173 |
| `Sha256Constants.Row5` | src/common/sha224_256.c:446-460 | round constants 40 to 47 are the fractions of the cube roots of the primes 179 to 223 |
| `Sha256Constants.Row6` | src/common/sha224_256.c:446-460 | round constants 48 to 55 are the fractions of the cube roots of the primes 227 to 263 |
| `Sha256Constants.Row7` | src/common/sha224_256.c:446-460 | round constants 56 to 63 are the fractions of the cube roots of the primes 269 to 311 |
| `Sha256Example.AbcDigest` | src/common/sha224_256.c:443-511 | the digest of the three bytes of "abc" is the one in the examples of FIPS 180 |
| `Sha256.ExpandWords` | src/common/sha224_256.c:443-511 | the loop computes the message schedule |
| `Sha256.ScheduleWords` | src/common/sha224_256.c:443-511 | the sixty-four words of the message schedule from the sixteen words of the block |
| `Sha256.OneRound` | src/common/sha224_256.c:443-511 | the eight assignments of a round make the round function |
| `Sha256.ProcessBlock` | src/common/sha224_256.c:443-511 | the sixty-four rounds and the final additions are the compression function |
| `Sha256.LengthFromWords` | src/common/sha224_256.c:389-422 | the eight stored bytes are the 64-bit length in big-endian order |
| `Sha256.PadHashFolds` | src/common/sha224_256.c:389-422 | padding in one or two blocks, after 55 bytes or more, is compressing the padded rest |
| `Sha256.AbsorbByte` | src/common/sha224_256.c:220-251 | the context represents the message read so far, byte by byte and across block boundaries |
| `Sha256.AbsorbPadding` | src/common/sha224_256.c:389-422 | padding a context gives the hash of the whole message, however it was fed |
| `Sha256.FinishIsSha256` | src/common/sha224_256.c:352-363 | for byte messages that is SHA-256 |
| `Sha256.FinishIsSha256Bits` | src/common/sha224_256.c:272-309 | and for bit messages SHA-256 of the bits |
| `Sha256.PadByte` | src/common/sha224_256.c:272-309 | mask and mark tables give the last byte of a bit message |
| `Sha256.Context.Reset` | src/common/sha224_256.c:529-551 | an empty message, whatever the context held |
| `Sha256.Context.AddLength` | src/common/sha224_256.c:61-64 | 64-bit addition in two words, with the overflow noted |
| `Sha256.Context.ProcessMessageBlock` | src/common/sha224_256.c:443-511 | the block is folded into the hash value and the block is empty again |
| `Sha256.Context.InputByte` | src/common/sha224_256.c:220-251 | one byte is appended to the message, or the length overflows |
| `Sha256.Context.Absorb` | src/common/sha224_256.c:220-251 | the loop appends all bytes, or stops at the overflow |
| `Sha256.Context.Input` | src/common/sha224_256.c:220-251 | appends the data to the message; every error case with code and new state |
| `Sha256.Context.FinalBits` | src/common/sha224_256.c:272-309 | finishes with up to seven more bits; every error case with code and new state |
| `Sha256.Context.StoreLength` | src/common/sha224_256.c:389-422 | the last eight bytes of the block become the length |
| `Sha256.Context.PadFirstBlock` | src/common/sha224_256.c:389-422 | the case in which the length does not fit any more: one padded block is folded in and the next one starts with zeros |
| `Sha256.Context.PadMessage` | src/common/sha224_256.c:389-422 | both cases of the padding |
| `Sha256.Context.Finalize` | src/common/sha224_256.c:352-363 | the hash value is that of the padded message, and the block is wiped |
| `Sha256.Context.Result` | src/common/sha224_256.c:573-592 | the digest is SHA-256 of everything put in, again on a second call; a corrupted context returns its code |
| `Sha256.HashPieces` | src/common/sha224_256.c:220-251 | the digest does not depend on how the message is cut into pieces |
| `Sha256.HashPair` | src/common/merkle_tree/mt_crypto.c:35-54 | the hash of an inner node is SHA-256 of left followed by right |
| `Sha256.Helper.Reset` | include/common/sha256_hepler.h:22-26 | an empty message |
| `Sha256.Helper.Append` | include/common/sha256_hepler.h:48-52 | appends the data cut to its size modulo 2^32, with the error cases |
| `Sha256.Helper.Execute` | include/common/sha256_hepler.h:56-63 | SHA-256 of everything appended since the last digest, then empty; a corrupted context stays so |
| `Sha256.Helper.Hash` | include/common/sha256_hepler.h:29-35 | SHA-256 of the data cut to its size modulo 2^32, whatever happened before |
| `Sha256.WholeString` | include/common/sha256_hepler.h:48-52 | the cut leaves the string whole if and only if it is shorter than 2^32 bytes |
| `ViewChange.InvalidForever` | include/block_server/comm/client_proxy/consensus_control_block.h:87-128 | no message changes anything about a proxy that has been found malicious |
| `ViewChange.BecomesInvalid` | include/block_server/comm/client_proxy/consensus_control_block.h:268-281 | a proxy becomes invalid only by a vote of a valid observer that makes f+1 votes for one and the same epoch, which is then its first invalid epoch |
| `ViewChange.ApproveStep` | include/block_server/comm/client_proxy/consensus_control_block.h:284-310 | one message adds to an approve set exactly its sender if valid, or a proxy that it makes invalid in that epoch or before |
| `ViewChange.ApprovedStep` | include/block_server/comm/client_proxy/consensus_control_block.h:87-128 | the same for the history-based definition of approval |
| `ViewChange.ApproveSet` | include/block_server/comm/client_proxy/consensus_control_block.h:87-128 | for every history: an id is in the approve set of an epoch if and only if it confirmed it while valid or was found malicious from that epoch or earlier on |
| `ViewChange.VotesWereCast` | include/block_server/comm/client_proxy/consensus_control_block.h:268-281 | every recorded vote is a message in the history, accepted while its sender was valid |
| `ViewChange.InvalidHasVotes` | include/block_server/comm/client_proxy/consensus_control_block.h:268-281 | an invalid proxy has f+1 different votes for its first invalid epoch |
| `ViewChange.Faulty` | include/block_server/comm/client_proxy/consensus_control_block.h:268-281 | f is the largest number with 3f + 1 servers or fewer |
| `ViewChange.VoteRecorded` | include/block_server/comm/client_proxy/consensus_control_block.h:268-281 | a vote by a valid observer against a valid proxy is recorded for its epoch, and recorded votes stay |
| `ViewChange.VotesExactly` | include/block_server/comm/client_proxy/consensus_control_block.h:268-281 | for every history: a vote is recorded if and only if it was received from a valid observer while its target was valid |
| `ViewChange.ValidHasFew` | include/block_server/comm/client_proxy/consensus_control_block.h:268-281 | for every history: a valid proxy has at most f votes for each epoch |
| `ViewChange.InvalidExactly` | include/block_server/comm/client_proxy/consensus_control_block.h:268-281 | for every history: a proxy is invalid if and only if for some epoch more than f observers have cast votes against it that counted |
| `ViewChange.HonestVoter` | include/block_server/comm/client_proxy/consensus_control_block.h:268-281 | if at most f observers are faulty, every invalid proxy was accused by an honest one, for that epoch |
| `ViewChange.CallsStep` | include/block_server/comm/client_proxy/consensus_control_block.h:295-310 | a message makes the callback for exactly the proxies it makes invalid |
| `ViewChange.CalledOnce` | include/block_server/comm/client_proxy/consensus_control_block.h:295-310 | for every history: the callback is made once for every invalid proxy, with its first invalid epoch, and for no other |
| `ViewChange.StaleExactly` | include/block_server/comm/client_proxy/consensus_control_block.h:295-310 | for every history: the stale bit of an epoch is set if and only if a proxy became invalid from that epoch on |
| `ViewChange.LatestExactly` | include/block_server/comm/client_proxy/consensus_control_block.h:87-128 | for every history: the latest epoch of a proxy is that of its last accepted confirmation |
| `ViewChange.ApprovalsGrow` | include/block_server/comm/client_proxy/consensus_control_block.h:284-292 | approve sets never lose an id |
| `ViewChange.FinishedStep` | include/block_server/comm/client_proxy/consensus_control_block.h:136-146 | a message undoes a finished epoch if and only if it is a confirmation of that epoch by a valid server not in the approve set, or the vote that makes such a server invalid from that epoch or before on |
| `ViewChange.ApprovesExactly` | include/block_server/comm/client_proxy/consensus_control_block.h:268-310 | the same guard says exactly when a message adds to the approve set |
| `ViewChange.FinishedExactly` | include/block_server/comm/client_proxy/consensus_control_block.h:136-146 | for every history: an epoch that is finished after k messages is finished at the end if and only if no later message meets the guard |
| `ViewChange.ApproversAmong` | include/block_server/comm/client_proxy/consensus_control_block.h:284-310 | if all messages name servers, so do all approve sets |
| `ViewChange.FinishedForever` | include/block_server/comm/client_proxy/consensus_control_block.h:136-146 | if all messages name servers, a finished epoch stays finished |
| `ViewChange.FinishedUndone` | include/block_server/comm/client_proxy/consensus_control_block.h:136-146 | a history of two messages after which a finished epoch is unfinished again |
| `ViewChange.ControlBlock.constructor` | include/block_server/comm/client_proxy/consensus_control_block.h:186-232 | the state of the empty history |
| `ViewChange.ControlBlock.Lookup` | include/block_server/comm/client_proxy/consensus_control_block.h:268-281 | looking up an unknown proxy inserts a valid one without votes |
| `ViewChange.ControlBlock.ApproveAllFrom` | include/block_server/comm/client_proxy/consensus_control_block.h:295-310 | the proxy is added to the approve set of every epoch from the given one on and to no other |
| `ViewChange.ControlBlock.MaliciousTarget` | include/block_server/comm/client_proxy/consensus_control_block.h:295-310 | the whole new state of finding a proxy malicious |
| `ViewChange.ControlBlock.ObtainMalicious` | include/block_server/comm/client_proxy/consensus_control_block.h:268-281 | the whole new state of counting a vote |
| `ViewChange.ControlBlock.ConfirmedClientProxy` | include/block_server/comm/client_proxy/consensus_control_block.h:284-292 | the observer is added to the approve set of that epoch only |
| `ViewChange.ControlBlock.RecvProofSet` | include/block_server/comm/client_proxy/consensus_control_block.h:87-128 | the object does what the history-based state machine does, for every message |
| `ViewChange.ControlBlock.EpochFinished` | include/block_server/comm/client_proxy/consensus_control_block.h:136-146 | the waiting condition is that the approve set has as many ids as there are servers |
| `EpochServer.ApplyKeeps` | src/epoch_server/ev_consensus_manager.cpp:19-37 | applying the next committed entry keeps the epoch the maximum of the applied prefix |
| `EpochServer.AnswerProposals` | src/epoch_server/ev_consensus_manager.cpp:39-71 | a server proposes only the successor of an epoch it has, each at most once and in increasing order; a request that finds the timer out leaves the next epoch proposed |
| `EpochServer.AnswerResponses` | src/epoch_server/ev_consensus_manager.cpp:39-97 | the epochs and the nonces of successive answers of a server never go back |
| `EpochServer.AnswerNonces` | src/epoch_server/ev_consensus_manager.cpp:39-97 | the nonce of an answer is the sum of the sizes of all requests up to it, its epoch is that of its request, and the size table has for each epoch the sum of the sizes of its requests |
| `EpochServer.AnswerKeeps` | src/epoch_server/ev_consensus_manager.cpp:39-71 | answering a user request keeps the invariant of the server |
| `EpochServer.RunInv` | src/epoch_server/ev_consensus_manager.cpp:19-71 | the invariant over log, proposals and responses holds in every run of any number of servers |
| `EpochServer.EpochAgreement` | src/epoch_server/ev_consensus_manager.cpp:19-97 | in every run: the committed log has no gaps, every server has the maximum of the prefix it has applied, and all its answers have the right nonces |
| `EpochServer.EpochMonotone` | src/epoch_server/ev_consensus_manager.cpp:19-37 | log, applied prefix and epoch of every server only grow |
| `EpochServer.AllEpochsLogged` | src/epoch_server/ev_consensus_manager.cpp:19-37 | every epoch from 2 to the latest is in the log |
| `EpochServer.SamePrefixSameEpoch` | src/epoch_server/ev_consensus_manager.cpp:19-37 | servers that have applied equally many entries, at any two moments, have the same epoch |
| `EpochServer.RunHanded` | src/epoch_server/ev_consensus_manager.cpp:58-71 | in every run: every proposal that a server has made is in the log or on its way to it |
| `EpochServer.RunAccounted` | src/epoch_server/ev_consensus_manager.cpp:19-71 | in every run: an epoch is in the log and on its way to it exactly as often as servers have proposed it |
| `EpochServer.TimeoutProposes` | src/epoch_server/ev_consensus_manager.cpp:58-71 | in every run: after a request that finds the timer out the next epoch has been proposed, and is in the log or on its way to it |
| `EpochServer.LoadedWhen` | src/epoch_server/ev_consensus_manager.cpp:47-53 | in every run: the epoch of an answer is the one the server was in when it took the request |
| `EpochBuffer.LastComes` | src/common/cyclic_barrier.cpp:7-26 | a proxy that opens the barrier is the last: all others are blocked in it |
| `EpochBuffer.RunInv` | include/block_server/comm/client_proxy/epoch_transaction_buffer.h:61-95 | the invariant over buffers, barrier, progress and queue holds in every run of any number of proxies |
| `EpochBuffer.QueueOrdered` | include/block_server/comm/client_proxy/epoch_transaction_buffer.h:61-95 | in every run the shared queue is ordered by epoch |
| `EpochBuffer.DeliveredOnce` | src/block_server/comm/client_proxy/client_proxy.cpp:106-149 | what a proxy has pushed of an epoch is a prefix of what it received, in order, and all of it once the epoch is done |
| `EpochBuffer.PushAfterAllFinished` | include/block_server/comm/client_proxy/epoch_txn_queue_manager.h:24-32 | nothing of an epoch is pushed before every proxy has received all of that epoch |
| `EpochBuffer.QueueFrom` | include/block_server/comm/client_proxy/epoch_transaction_buffer.h:61-95 | nothing in the queue is of an epoch before the first |
| `SpuriousWakes.SpuriousWakeBreaksOrder` | src/common/cyclic_barrier.cpp:7-26 | with a spurious wake-up in the barrier there is a run that breaks the order |
| `SpuriousWakes.OrderedUnlessOvertaken` | src/common/cyclic_barrier.cpp:7-26 | with any number of spurious wake-ups the queue is ordered as long as no worker pushes while another is not through with an earlier epoch |
| `SpuriousWakes.OvertakenIsLate` | src/common/cyclic_barrier.cpp:7-26 | if something of a later epoch is pushed while a worker has a transaction of an earlier one in its buffer, the queue is not ordered once that worker is through with the earlier epoch |
| `Segmentation.RisingPairs` | src/block_server/comm/client_proxy/comm_controller.cpp:69-87 | checking each transaction against the one before is the same as order of all pairs |
| `Segmentation.OrderedRises` | src/block_server/comm/client_proxy/comm_controller.cpp:69-87 | an ordered queue passes the check everywhere |
| `Segmentation.SegmentIsEpoch` | src/block_server/transaction/impl/transaction_manager_impl.cpp:31-37 | on an ordered stream the segment is exactly the transactions of the epoch |
| `Segmentation.SegmentDrop` | src/block_server/transaction/impl/transaction_manager_impl.cpp:31-37 | taking part of a segment leaves the rest of it |
| `Segmentation.CommController.TakeOne` | src/block_server/comm/client_proxy/comm_controller.cpp:69-87 | moves one transaction on, or detects that the stream goes back |
| `Segmentation.CommController.TransferTransaction` | src/block_server/comm/client_proxy/comm_controller.cpp:69-87 | waits only if there is nothing at all; never loses or reorders; no failed check on an ordered stream |
| `Segmentation.CommController.GetTransaction` | src/block_server/comm/client_proxy/comm_controller.cpp:20-67 | a batch is a prefix of the stream within the epoch and the maximum; none exactly at the next epoch; never short except at the boundary or beyond the minimum |
| `Segmentation.CollectEpoch` | src/block_server/transaction/impl/transaction_manager_impl.cpp:31-37 | the batches of the epoch loop together are exactly the segment of the epoch, in order, each non-empty and within the maximum, and the rest stays |
| `Pipeline.QueueRises` | src/block_server/comm/client_proxy/comm_controller.cpp:69-87 | in every run of the proxies the queue rises, so the checks of the transfer never fail |
| `Pipeline.Serve` | src/block_server/transaction/impl/transaction_manager_impl.cpp:31-37 | handing out epochs from the queue of any run of the proxies: each is exactly the transactions of its number, in batches, and no check on the way fails |
| `Segmentation.QueueWrapper.Front` | include/block_server/coordinator/aria_coordinator.h:33-66 | the first transaction, without removing it |
| `Segmentation.QueueWrapper.Pop` | include/block_server/coordinator/aria_coordinator.h:33-66 | removes the first transaction, held back or not |
| `Segmentation.QueueWrapper.Empty` | include/block_server/coordinator/aria_coordinator.h:33-66 | says non-empty only if there is one, and always if one is held back |
| `Segmentation.CreateWorkload` | src/block_server/coordinator/aria_coordinator.cpp:178-203 | a workload is the first part of the epoch segment, as long as the maximum allows; none exactly at the boundary; for every minimum |
| `Segmentation.AssignWorkloads` | src/block_server/coordinator/aria_coordinator.cpp:53-67 | the workloads of an epoch together are exactly its segment, in order |
| `Ranks.LocalId` | src/block_server/coordinator/aggregation_broadcaster.cpp:29-37 | the local id is the number of servers with a smaller address |
| `Ranks.RankBound` | src/block_server/coordinator/aggregation_broadcaster.cpp:29-37 | local ids are below the number of servers |
| `Ranks.RankInjective` | src/block_server/coordinator/aggregation_broadcaster.cpp:29-37 | different servers have different local ids |
| `Ranks.RankOnto` | src/block_server/coordinator/aggregation_broadcaster.cpp:29-37 | every number below the number of servers is a local id |
| `Ranks.RankOrder` | src/block_server/coordinator/aggregation_broadcaster.cpp:29-37 | local ids follow the order of addresses |
| `Ranks.OneExecutor` | include/block_server/coordinator/aggregation_broadcaster.h:43-45 | every transaction is local on exactly one server |
| `Aggregation.ShareOut` | src/block_server/coordinator/aggregation_coordinator.cpp:55-88 | splits the list into local and remote transactions, keeping the order |
| `Aggregation.MakeExchange` | src/block_server/coordinator/aggregation_broadcaster.cpp:54-101 | one node per executed transaction with its id, success and read and write sets |
| `Aggregation.TakeNode` | src/block_server/coordinator/aggregation_broadcaster.cpp:54-101 | a received node makes the transaction what its execution elsewhere made it, and buffers it |
| `Aggregation.ListenFor` | src/block_server/coordinator/aggregation_broadcaster.cpp:47-52 | every remote transaction can be found under its id, and no other |
| `Aggregation.ReceiveExchange` | src/block_server/coordinator/aggregation_broadcaster.cpp:54-101 | all listened-for transactions get their outcomes, others keep theirs; fails exactly on an unknown id |
| `Aggregation.ReserveOnly` | src/block_server/worker/impl/aggregation_transaction_executor.cpp:11-26 | reserving received outcomes keeps every register the least reserving id |
| `Aggregation.ShareBatch` | include/block_server/coordinator/aggregation_broadcaster.h:43-45 | local and remote transactions together are the whole epoch |
| `Aggregation.ReadAll` | src/block_server/coordinator/aggregation_coordinator.cpp:20-53 | after execution and exchange all transactions of the epoch stand as if executed here, and all are reserved |
| `Aggregation.CommitAll` | src/block_server/coordinator/aggregation_coordinator.cpp:20-53 | the commit phase over both kinds of workloads gives the epoch result |
| `Aggregation.AggregateEpoch` | src/block_server/coordinator/aggregation_coordinator.cpp:20-53 | an epoch shared among servers ends with the database and the verdicts of executing it alone |
| `Aggregation.ExchangeComplete` | src/block_server/coordinator/aggregation_broadcaster.cpp:54-101 | an exchange that covers the remote transactions makes each of them stand as executed |
| `Aggregation.ClusterExchange` | src/block_server/coordinator/aggregation_broadcaster.cpp:54-101 | what the servers of the cluster send each other is such an exchange, for every server |
| `SharedWorkloads.Coordinator.CreateAggregationWorkload` | src/block_server/coordinator/aggregation_coordinator.cpp:90-109 | takes up to the maximum of the waiting remote transactions from the front; none exactly when none wait |
| `SharedWorkloads.Coordinator.File` | src/block_server/coordinator/aggregation_coordinator.cpp:55-88 | a local transaction joins the workload, a remote one waits; order kept |
| `SharedWorkloads.Coordinator.Gather` | src/block_server/coordinator/aggregation_coordinator.cpp:55-88 | the loop over the queue: what it takes is split into local and remote parts |
| `SharedWorkloads.Coordinator.CreateWorkload` | src/block_server/coordinator/aggregation_coordinator.cpp:55-88 | all four outcomes, with what was taken, what waits and what stays |
| `SharedWorkloads.AssignShared` | src/block_server/coordinator/aggregation_coordinator.cpp:55-109 | the local workloads together are the local part of the epoch and the aggregation workloads the remote part, in order, nothing lost or doubled |
| `SharedWorkloads.ShareConcat` | include/block_server/coordinator/aggregation_broadcaster.h:43-45 | sharing out a concatenation is sharing out its parts |
| `Retry.CategorizeEpoch` | src/block_server/transaction/impl/transaction_manager_impl.cpp:77-121 | both modes: all transactions go to the block; or aborted ones are reset and enter the next epoch while the others go to the block; in order, others unchanged |
| `Retry.SortedSplits` | src/block_server/transaction/impl/transaction_manager_impl.cpp:77-121 | block and retry list together are the epoch, as multisets |
| `Retry.BlockExactly` | src/block_server/transaction/impl/transaction_manager_impl.cpp:77-121 | a transaction goes to the block if and only if it is not both aborted and to be tried again, and to the next epoch if and only if it is |
| `Retry.SomeoneFinishes` | src/block_server/worker/transaction_executor.cpp:17-43 | in every non-empty epoch some transaction commits or fails for good |
| `Retry.RunAndFinish` | src/block_server/worker/transaction_executor.cpp:17-43 | an epoch leaves a transaction that need not be retried, no pending one, and the database in its commit phase |
| `Retry.EpochAndFile` | src/block_server/transaction/impl/transaction_manager_impl.cpp:77-121 | an epoch followed by filing makes the list of open transactions strictly shorter and loses nothing |
| `Retry.DrainAll` | src/block_server/transaction/impl/transaction_manager_impl.cpp:77-121 | repeating epochs until nothing is open takes at most as many epochs as transactions; the blocks contain every transaction exactly once, finally decided |
| `BlockOrder.BlockGenerator.AddCommittedTransaction` | include/block_server/database/block_generator.h:20 | the transaction joins the pending set |
| `BlockOrder.BlockGenerator.Top` | src/block_server/database/impl/block_generator_impl.cpp:101-131 | the pending transaction with the largest id |
| `BlockOrder.BlockGenerator.TakeBlock` | src/block_server/database/impl/block_generator_impl.cpp:101-131 | the block body is exactly the pending set in descending order of ids |
| `BlockOrder.NextTop` | src/block_server/database/impl/block_generator_impl.cpp:101-131 | taking the largest keeps the body descending and above what is pending |
| `BlockOrder.OneBlock` | src/block_server/database/impl/block_generator_impl.cpp:101-131 | two block bodies of the same transactions are equal: the order of arrival does not matter |
| `Blocks.SameHanded` | src/block_server/transaction/impl/transaction_manager_impl.cpp:77-121 | servers that have finished the same epoch hand the same transactions with the same bytes and results to their block generators |
| `Blocks.HandedIsFiled` | src/block_server/transaction/impl/transaction_manager_impl.cpp:77-121 | what is handed to the block generator is what filing the transactions of the epoch puts into the block |
| `Blocks.CodesDiffer` | include/block_server/transaction/transaction.h:16 | different verdicts have different codes |
| `Blocks.MakeBlock` | src/block_server/database/impl/block_generator_impl.cpp:101-149 | a block is what was handed over, in descending order, with the root over its data |
| `Blocks.SameBlock` | src/block_server/database/impl/block_generator_impl.cpp:101-149 | two servers that have finished the same epoch, of any clusters and at any moments, make the same block with the same root |
| `SmallBank.OperationsAreReadDriven` | src/block_server/worker/chaincode/small_bank_chaincode.cpp:71-158 | every operation depends only on the keys it reads, as serializability needs |
| `SmallBank.BankSerial` | src/block_server/worker/chaincode/small_bank_chaincode.cpp:71-158 | every epoch of bank operations leaves what its committed operations leave when they run one after another in the serial order |
| `BankEffects.QueryEffect` | src/block_server/worker/chaincode/small_bank_chaincode.cpp:71-81 | a query succeeds, reads the two balances of its account and changes nothing |
| `BankEffects.AmalgamateEffect` | src/block_server/worker/chaincode/small_bank_chaincode.cpp:84-98 | amalgamating succeeds if and only if the accounts differ; then the first has no savings, the second has them on top of its checking balance, and every other balance is as before |
| `BankEffects.DepositEffect` | src/block_server/worker/chaincode/small_bank_chaincode.cpp:100-124 | deposits to either table: exactly when they succeed, the new balance modulo 2^32, every other balance as before, and which balance is read |
| `BankEffects.PaymentEffect` | src/block_server/worker/chaincode/small_bank_chaincode.cpp:126-146 | payments: exactly when they succeed, both new balances modulo 2^32, every other balance as before, and which balances are read |
| `BankEffects.CheckEffect` | src/block_server/worker/chaincode/small_bank_chaincode.cpp:148-158 | checks: exactly when they succeed, the new checking balance modulo 2^32, every other balance as before, and which balance is read |
| `BankEffects.CoveredCheck` | src/block_server/worker/chaincode/small_bank_chaincode.cpp:148-158 | a check that the checking balance covers is paid in full from it, and the savings are not touched |
| `BankEffects.FittingDeposit` | src/block_server/worker/chaincode/small_bank_chaincode.cpp:100-124 | a deposit or withdrawal whose result is not negative and fits adds the amount exactly |
| `BankEffects.CoveredPayment` | src/block_server/worker/chaincode/small_bank_chaincode.cpp:126-146 | a payment that is covered and fits moves the amount exactly |
| `BankEffects.FailureChangesNothing` | src/block_server/worker/chaincode/small_bank_chaincode.cpp:71-158 | a failed operation changes no balance |
| `BankEffects.AmountsWrap` | src/block_server/worker/chaincode/small_bank_chaincode.cpp:100-158 | amounts that are equal modulo 2^32 have the same effect |
| `BankEffects.FirstCheck` | src/block_server/worker/chaincode/small_bank_chaincode.cpp:18-29 | on an empty database balances start at 1000, under the keys of the two tables |
| `SmallBank.StoresSolvent` | src/block_server/worker/chaincode/small_bank_chaincode.cpp:84-158 | on a solvent database an operation stores only non-negative balances if and only if it does not overflow |
| `SmallBank.EpochStaysSolvent` | src/block_server/worker/chaincode/small_bank_chaincode.cpp:84-158 | an epoch without overflow keeps all balances non-negative, for any set of concurrent operations |
| `SmallBank.OverflowShows` | src/block_server/worker/chaincode/small_bank_chaincode.cpp:84-158 | a committed overflow makes the database insolvent |
| `SmallBank.SolventExactly` | src/block_server/worker/chaincode/small_bank_chaincode.cpp:84-158 | an epoch keeps the database solvent if and only if no committed operation overflows |
| `SmallBank.TransferExactly` | src/block_server/worker/chaincode/small_bank_chaincode.cpp:84-146 | a transfer executed on any database and written back to another with the same balances at its keys changes the total by exactly 2^32 for every time that a balance it stores wraps around |
| `SmallBank.TurnsBound` | src/block_server/worker/chaincode/small_bank_chaincode.cpp:84-146 | a successful transfer loses or makes 2^32 once at most, and on a solvent database loses it if and only if it overflows |
| `SmallBank.NoOverflowInBooks` | src/block_server/worker/chaincode/small_bank_chaincode.cpp:84-146 | no transfer overflows while the total fits an int |
| `SmallBank.TransferKeepsBooks` | src/block_server/worker/chaincode/small_bank_chaincode.cpp:84-146 | a transfer run alone keeps solvency and the total if and only if it does not overflow |
| `SmallBank.EpochMoney` | src/block_server/worker/chaincode/small_bank_chaincode.cpp:84-146 | conservation of money: an epoch of transfers on a solvent bank of any size changes the total by exactly -2^32 for every committed transfer that overflows |
| `SmallBank.EpochLosses` | src/block_server/worker/chaincode/small_bank_chaincode.cpp:84-146 | the same on any database: committed transfers that wrap upwards each lose 2^32, those that wrap downwards each make it |
| `SmallBank.EpochKeepsBooks` | src/block_server/worker/chaincode/small_bank_chaincode.cpp:84-146 | an epoch of transfers keeps the total, and solvency with it, if and only if no committed transfer overflows |
| `SmallBank.BooksThatFit` | src/block_server/worker/chaincode/small_bank_chaincode.cpp:84-146 | in particular every epoch of transfers keeps the books if the total fits an int |
| `SmallBank.FullAccount` | src/block_server/worker/chaincode/small_bank_chaincode.cpp:126-146 | a concrete payment that succeeds and overflows; payments and amalgamations are transfers |
| `SmallBank.SmallestAmount` | src/block_server/worker/chaincode/small_bank_chaincode.cpp:100-111 | a withdrawal of the smallest int succeeds whatever the balance and leaves the account below zero |
| `SmallBank.DebtMakesMoney` | src/block_server/worker/chaincode/small_bank_chaincode.cpp:126-146 | a payment out of an account that holds the smallest int succeeds and makes 2^32 |
| `BankRuns.RunMoney` | src/block_server/worker/chaincode/small_bank_chaincode.cpp:84-146 | after any number of epochs of transfers, with accounts below zero or not, the total is the first one less 2^32 for everything lost, net of what was made, in every epoch |
| `BankRuns.SolventRunMoney` | src/block_server/worker/chaincode/small_bank_chaincode.cpp:84-146 | as long as the bank is solvent the total is the first one less 2^32 for every overflowing commit of every epoch |
| `BankRuns.SolventRun` | src/block_server/worker/chaincode/small_bank_chaincode.cpp:84-158 | a solvent bank, whatever its operations, is solvent after each of any number of epochs if and only if no commit of any of them overflows |
| `BankRuns.BooksRun` | src/block_server/worker/chaincode/small_bank_chaincode.cpp:84-146 | transfers keep the total and solvency over any number of epochs if and only if no commit of any of them overflows |
| `BankRuns.FittingBooksRun` | src/block_server/worker/chaincode/small_bank_chaincode.cpp:84-146 | if the total fits an int, transfers keep the books over any number of epochs |
| `BankRuns.HistoryExists` | src/block_server/worker/chaincode/small_bank_chaincode.cpp:71-158 | any number of epochs of a cluster that runs the bank are such a run |
| `BankRuns.ServerMoney` | src/block_server/worker/chaincode/small_bank_chaincode.cpp:84-146 | at any moment of any run of a cluster that runs the bank, a server that has finished an epoch holds the first total less 2^32 for everything lost so far |
| `BankRuns.ServerBooks` | src/block_server/worker/chaincode/small_bank_chaincode.cpp:84-146 | if the total fits an int, the books of every such server are right |
| `UpdateBuffer.StoreKeeps` | src/block_server/database/impl/database_impl.cpp:25-36 | storing a write set under its shard lock keeps the invariant |
| `UpdateBuffer.MoveKeeps` | src/block_server/database/impl/database_impl.cpp:66-77 | every other step, including the double-checked clearing, keeps it |
| `UpdateBuffer.RunInv` | src/block_server/database/impl/database_impl.cpp:25-77 | the invariant holds in every run of any number of threads over any number of epochs |
| `CommitReads.NeverErased` | src/block_server/database/impl/database_impl.cpp:66-77 | a write set that has been buffered stays in the buffer until the next epoch begins, whatever the other threads clear |
| `CommitReads.CallsKept` | src/block_server/database/impl/database_impl.cpp:25-36 | every call of the epoch is still to be made or has been made with its write set |
| `CommitReads.AllBuffered` | include/common/hash_map.h:42-77 | throughout a commit phase the buffer holds the write set of every transaction of the epoch, each in its shard |
| `CommitReads.CommitsFindTheirOwn` | src/block_server/database/impl/database_impl.cpp:39-60 | over whole runs: what a commit finds is the write set buffered for its transaction in the same epoch, also if the id was there in earlier epochs |
| `BufferEpochs.StepLess` | src/block_server/database/impl/database_impl.cpp:25-36 | every step of a read phase leaves less to do |
| `BufferEpochs.CanCommit` | src/block_server/database/impl/database_impl.cpp:25-77 | every run can be continued until the read phase of its epoch is through |
| `BufferEpochs.CanBegin` | src/block_server/database/impl/database_impl.cpp:25-36 | after a commit phase the next epoch can begin, with any calls to make |
| `BufferEpochs.EpochReplaces` | src/block_server/database/impl/database_impl.cpp:25-77 | over whole runs: if a commit phase has raised the flag, then from the end of the next read phase until the epoch after it the buffer has the ids of that epoch and no older ones |

## Left out

What the model does not capture of the members it has:

- Serializability.Serializable: chaincodes are functions of the database that depend on the keys they read only; that is proved for the bank chaincode and assumed of the others. Ids are distinct and not 0; two ids that collide, being prefixes of digests, are left out.
- AriaExecutor.ReserveTable.DependencyAnalysis: looking up a missing register in the source inserts a zero; the model reads a missing register as zero.
- AriaExecutor.Database.CommitUpdate: the storage engine behind the database is a map; the creation of tables that a chaincode asked for is left out.
- EpochSchedule.FinishedRun: threads are interleaved at register swaps and single write-backs, sequentially consistent; that nobody reserves while others commit is a guard here and Phases.CommitAlone in the threads; outcomes are recorded beforehand, and EpochSchedule.ReadsTheSnapshot says that a call at its own moment leaves the same.
- Phases.NoDeadlock: says that some thread can move, not that the scheduler lets it; the race of stopping the coordinator from outside with its main loop is left out.
- Replicas.ServersAgree: the transactions of each epoch are given as a schedule that all servers deploy, which is what EpochServer, EpochBuffer and Segmentation are about for new transactions and Reuse for those that are tried again; executing or deciding one transaction is one step, and Grain joins it with the finer steps; a message is one value and Exchange has its way to the coordinator.
- Grain.GrainsAgree: a server at the fine grain executes everything itself and takes one epoch after the other.
- Progress.ClusterProgress: says that some server can move, not that it will.
- Exchange.EpochChecked: without spurious wake-ups of the barrier; each server sends one message per epoch, in order, from the first epoch of the coordinator on.
- Blocks.SameBlock: the encoding of a transaction is a function of its id, epoch, outcome and verdict; a block without transactions has no root.
- RingRuns.RingCorrect: counters are unbounded, and memory orderings are taken as sequentially consistent.
- Semaphore.NoLostWakeup: spin counts and time-outs are nondeterministic choices; the operating-system semaphore is a counter.
- BlockingQueue.DeliversPushed: the timed bulk operation is left out.
- QueueProgress.ConsumerServed: says that a thread can take the step, not that the scheduler lets it.
- ScheduleProgress.CanFinish: like PhaseProgress.CanStop, ExchangeProgress.CanGoOn and BufferEpochs.CanCommit, says that every run can be continued to its end, not that a scheduler does so.
- MerkleTree.Tree.Add: null arguments, failed allocations and truncation of the tree are left out; the bit tricks for powers of two are modelled arithmetically.
- MerkleTree.ArrList.Get: like the other list operations, requires fewer than 2^19 elements, as the assertions of the source do.
- Sha256.Context.Input: null arguments and SHA-224 are left out.
- ViewChange.ControlBlock.RecvProofSet: requires the epoch of a message to be below the constant that sizes the tables, which the source uses as an index unchecked; locks are left out, each message is one step.
- EpochServer.AnswerResponses: the raft layer is a log of committed proposals that every server applies in order; signatures are left out.
- EpochBuffer.QueueOrdered: holds for the buffered mode without spurious wake-ups of the barrier, and SpuriousWakes says what holds with them; the eager mode is left out.
- SpuriousWakes.OrderedUnlessOvertaken: one way; the other, SpuriousWakes.OvertakenIsLate, needs the worker behind to have a transaction, because a worker that is behind with nothing to push does no harm.
- Segmentation.CommController.GetTransaction: waiting for more transactions is a result of its own, because there is no other thread in this part of the model.
- Aggregation.AggregateEpoch: requires the exchange to be of outcomes on the local database; that it is in a running cluster is Cluster.ToldRight. The exchange arrives as a whole, in any order of nodes.
- Aggregation.ClusterExchange: is about servers with equal databases; that they are equal is Replicas.DatabasesFollow.
- Retry.DrainAll: no new transactions arrive in the meantime.
- BlockOrder.BlockGenerator.Top: the priority queue is a set whose largest element is taken.
- SmallBank.TransferExactly: balances are numbers, not decimal text; signed overflow wraps around.
- CommitReads.CommitsFindTheirOwn: that read and commit phases do not overlap is taken from Phases.CommitAlone; the table list buffer beside the buffer is left out.

What the repository does that is not modelled:

- Network transport, raft, storage engines, serialization, signatures, configuration: input and output.
- The multi-version reservation table, and re-reserving after a failed exchange.
- Signing and checking of blocks, and reading stored blocks back.
- Heartbeats and time-outs of the view change, and its agreement across replicas on the first invalid epoch.
- The other chaincodes (YCSB and the relational mapping), and initialization of the bank accounts.
- The third-party concurrent queue, the LRU cache, base64 and the adaptive workload size: only easy members.
