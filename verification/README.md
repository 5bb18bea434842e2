# BankDB: a verified model of the concurrent transaction engine

BankDB runs one thread per transaction. Each thread waits for its start tick, loads every account it touches into a
five-slot pinned buffer pool, performs deposits, withdrawals, transfers and balance queries under per-account
reader-writer locks, and unloads everything when it commits or aborts. `main` joins all threads, stops the clock and
audits the total balance. This project models that engine and its trace parser in Dafny and proves what every
schedule of every program keeps.

Verify it with `dafny verify dfyconfig.toml`.

## How the model is laid out

- `Engine` is the concurrent system: any number of threads with a program counter, the pool, its two semaphores, the
  account locks, the balances and the clock. One action is one shared access of one thread (a mutex section, one
  semaphore wait or post, one lock or unlock, one balance read or write, one clock read), or one timer tick, or `main`
  stopping the timer. A schedule is a sequence of actions; `Legal` says it can be taken, `Exec` gives the state after
  it. The capacity is symbolic. `Ready` says when a thread is not made to wait.
- `Ledger` gives the meaning of one whole bank operation, `AccountRules` the same again account by account, without
  looking anything up; `Pool` the mutex sections of the buffer pool.
- `Weights` sums per-thread quantities (permits in flight, unposted inserters, pins, money in transit, work left).
- `Locals`, `PoolSafety`, `LockSafety`, `Money` are the four parts of the invariant; `Safety` puts them together.
- `Linearizability`, `Statements`, `Conservation`, `Times`, `Audit`, `Progress`, `Jams`, `Termination`, `DemandBound` and
  `LoadedLists` hold the main results.
- `BankStore`, `PoolStore`, `LockStore`, `TraceTable` and `Executor` are the program's own objects, with arrays, loops
  and in-place updates, each method proved equal to the function the step system uses.
- `Scanning` and `Trace` are the trace parser; `Grammar`, `Grouping` and `RoundTrip` say what it reads; `Common` holds
  shared sequence lemmas.

Proofs use `hide` to keep definitions that a step does not need away from the solver; nothing is assumed.

## What turned out false, and exactly when it holds

- "No deadlocks" (bankdb/docs/design.md:198) holds for account locks but not for the pool, where transactions hold
  pins while they wait. What decides it is whether the accounts that the transactions need allow a *jam* (`Jams.Jam`):
  as many pinned accounts as there are slots, each owned by a transaction that needs it, such that every transaction
  misses an account, one that nobody owns or one whose owner comes in a later turn. Turns matter because a load looks
  for its account before it waits for a permit: an insertion in between goes unnoticed (`ChainJamsByTurns`). Knowing which accounts each
  transaction needs, every schedule of every such program is free of stuck states if and only if there is no jam of
  the pool's capacity (`ProgressExactlyWithoutJam`). Knowing only how many, the exact condition is that the sum of
  (accounts - 1) is below the capacity or the trace names no more accounts than slots (`ProgressExactlyBelowDemand`).
  Without a jam every run also ends (`RunsEnd`). One transaction that reads six accounts hangs five slots
  (`SixAccountsHang`).
- `final_total == initial_total + net_external_flow` (bankdb/docs/design.md:199-201) fails when an aborted transaction
  had already moved money in or out, because nothing is rolled back, and when a committed transaction contains a
  negative deposit, which `deposit` ignores and the audit counts. The gap is exactly the difference of the two
  (`AuditGap`), so the audit passes if and only if they are equal; with no abort in the status array, if and only if
  no transaction deposits a negative amount (`AuditWithoutAborts`). `AuditRejectsOverdraw` and `AuditCanFail` give a
  trace on which it fails under every schedule.
- bankdb/include/buffer_pool.h:94-104 says that unloading waits for a full slot; the code frees the slot first and
  waits afterwards, and that wait never blocks (`FullWaitNeverBlocks`).

## Model

| member | source | states |
|---|---|---|
| Safety.ReachableSound | bankdb/src/core/transaction.c:257-372 | the whole invariant (thread-local facts, pool protocol, lock ownership, money) holds in every state of every schedule of any number of transactions, and capacity, account table and transactions never change |
| Safety.PoolAccounting | bankdb/src/concurrency/buffer_pool.c:58-111 | in every reachable state each semaphore differs from the slots by exactly the threads in flight; one slot per account; each pin count is the number of holders; the usage counters agree with the slots |
| Safety.PermitAlwaysServed | bankdb/src/concurrency/buffer_pool.c:77-117 | a loader past its permit always finds a duplicate or a free slot, so the not-inserted fallback is dead code |
| Safety.FullWaitNeverBlocks | bankdb/src/concurrency/buffer_pool.c:130-145 | full_slots covers all unloaders still to wait on it, so that wait never blocks |
| PoolSafety.PostersWithinUse | bankdb/src/concurrency/buffer_pool.c:89-111 | unposted inserters never outnumber the used slots, because each pins a slot of its own |
| Safety.TouchedAccountsResident | bankdb/src/core/transaction.c:276-366 | inside a bank call every touched account is in a used slot that points at its bank account |
| Safety.HeldSlotStays | bankdb/src/concurrency/buffer_pool.c:125-154 | through any single step, an account held before and after keeps its slot and the slot its pointer |
| Safety.HeldSlotStaysInRun | bankdb/src/concurrency/buffer_pool.c:125-154 | whatever all threads and the timer do, the holder included, an account held all along a run stays in its slot, which keeps its pointer |
| LoadedLists.ResidentUntilUnloaded | bankdb/src/core/transaction.c:276-366 | from the action that pins an account until the transaction unloads it, the account stays in the slot it was pinned in, and the slot points at its bank account, whatever all threads do |
| Safety.PeakIsLargestUse | bankdb/src/concurrency/buffer_pool.c:95-102 | peak_usage is the largest number of used slots over the run |
| Safety.CountersCountSlots | bankdb/src/concurrency/buffer_pool.c:95-144 | load_count counts how often a slot was taken, unload_count how often one was freed |
| Safety.CleanDrain | bankdb/src/concurrency/buffer_pool.c:135-144 | once all transactions ended, all slots are blank, empty_slots is the capacity, full_slots is 0, loads equal unloads |
| LoadedLists.ListWithinBounds | bankdb/src/core/transaction.c:178-226 | the loaded list has no duplicates and at most two entries per operation so far; the capacity check never rejects |
| LoadedLists.PinnedIsHeldOrUnloaded | bankdb/src/core/transaction.c:232-255 | at every moment the accounts a thread pinned, in order, are those it holds followed by those it unloaded, last first |
| LoadedLists.EveryPinUnloadedOnce | bankdb/src/core/transaction.c:232-255 | on every exit path each pinned account has been unloaded exactly once |
| LockSafety.WriterExcludes | bankdb/src/concurrency/lock_mgr.c:46-51 | two threads never hold the write lock of one account, and a writer excludes readers |
| LockSafety.NoWaitCycle | bankdb/src/concurrency/lock_mgr.c:12-27 | threads waiting for each other's account locks never form a ring |
| Progress.NoReachableWaitCycle | bankdb/src/concurrency/lock_mgr.c:12-27 | the same for every reachable state |
| Progress.LocksGrantedExactly | bankdb/src/concurrency/lock_mgr.c:46-82 | a query is granted its lock exactly when nobody writes the account, so alongside other queries; a writer exactly when nobody holds the account; a transfer asks for the smaller id first |
| Progress.LocksNeverDeadlock | bankdb/src/concurrency/lock_mgr.c:12-40 | whenever a thread stands at an account lock, some thread inside a bank call can step |
| Progress.StuckMeansFull | bankdb/src/concurrency/buffer_pool.c:69-76 | in a stuck state every unfinished transaction waits for a permit and every slot is used |
| Jams.RunsInTurn | bankdb/src/concurrency/buffer_pool.c:58-76 | in every reachable state the threads can be given turns such that whoever waits for a permit comes before every holder of the account it waits for |
| Jams.NeverStuckWithoutJam | bankdb/src/concurrency/buffer_pool.c:50-118 | where the accounts that the transactions need allow no jam of the pool's capacity, no schedule reaches a stuck state |
| Jams.NeverStuckLowDemand | bankdb/src/concurrency/buffer_pool.c:50-118 | with capacity above the sum of (distinct accounts - 1), there is no jam and no reachable state is stuck |
| Jams.NeverStuckFewAccounts | bankdb/src/concurrency/buffer_pool.c:50-118 | with no more distinct accounts in the whole trace than slots, there is no jam and no reachable state is stuck, whatever the transactions do |
| Termination.StepUsesWork | bankdb/src/core/transaction.c:257-372 | every thread step decreases a natural measure of the thread's remaining work |
| Termination.RunsEnd | bankdb/src/core/transaction.c:257-372 | without a jam a run has at most 26 steps per operation and 5 per transaction, and where nobody can step after all start ticks, all transactions have ended |
| Termination.CanFinish | bankdb/src/main.c:204-227 | without a jam every reachable state has a continuation in which all transactions end |
| Jams.ChainJamsByTurns | bankdb/src/concurrency/buffer_pool.c:58-87 | for three or more slots, as many transactions in a chain, each sharing an account with the next, jam them, although whichever of these accounts are resident, one of the transactions has both of its accounts there: the wait for a permit ignores insertions made since the first scan |
| DemandBound.ProgressExactlyWithoutJam | bankdb/src/concurrency/buffer_pool.c:50-118 | all programs whose transactions need given accounts are free of stuck states, if and only if these needs allow no jam of the pool's capacity |
| DemandBound.ProgressExactlyBelowDemand | bankdb/src/concurrency/buffer_pool.c:50-118 | all programs of given account demands that name at most a given number of accounts are free of stuck states, if and only if the sum of (demand - 1) is below the capacity or that number is at most the capacity |
| DemandBound.StuckReachable | bankdb/src/concurrency/buffer_pool.c:69-76 | from any jam, a program of exactly these needs and a schedule that gets it stuck |
| DemandBound.SixAccountsHang | bankdb/include/buffer_pool.h:13 | five slots, one transaction reading six accounts: a stuck state is reached |
| Linearizability.Linearizable | bankdb/src/core/bank.c:89-178 | every reachable state's balances, half-done transfers completed, are those of whole operations run one at a time; each outcome is the sequential one; each thread's operations appear in program order with the outcomes it saw |
| Linearizability.FinalBalancesSequential | bankdb/src/core/bank.c:89-178 | when all have ended, final balances and all outcomes are exactly those of the sequential history |
| Linearizability.RealTimeOrder | bankdb/src/core/bank.c:89-178 | an operation that returned before another one took effect, so in particular before it was called, stands before it in the sequential history |
| Money.StepRefines | bankdb/src/core/bank.c:152-178 | each step is invisible on the virtual balances or performs one whole operation with its outcome |
| Money.StepBalances | bankdb/src/core/bank.c:106-178 | a step changes the total by exactly its change of external flow less its change of money in transit |
| AccountRules.PerformFollowsRules | bankdb/src/core/bank.c:89-178 | a whole operation has a given result if and only if its outcome is the one the balances call for (a withdrawal accepted exactly when the account exists and 0 <= amount <= balance, and so on) and every account moves by its own delta |
| AccountRules.DepositThenWithdraw | bankdb/src/core/bank.c:106-146 | depositing an amount and withdrawing it is accepted and restores the balances |
| AccountRules.WithdrawThenDeposit | bankdb/src/core/bank.c:106-146 | a covered withdrawal is accepted, and depositing the amount again restores the balances |
| AccountRules.TransferIsWithdrawAndDeposit | bankdb/src/core/bank.c:152-178 | between different existing accounts a transfer is a withdrawal from the source and, if accepted, a deposit to the target; otherwise it is refused and changes nothing |
| AccountRules.TransferBack | bankdb/src/core/bank.c:152-178 | an accepted transfer followed by the reverse one is accepted and restores the balances |
| AccountRules.TransferChangesTwo | bankdb/src/core/bank.c:168-174 | an accepted transfer of a positive amount changes exactly two balances |
| AccountRules.DepositRaisesRead | bankdb/src/core/bank.c:89-119 | a deposit raises the next query of its account by the amount, and no other query |
| AccountRules.ReadsAddUp | bankdb/src/system/metrics.c:143-157 | querying every account in turn adds up to the total balance |
| Ledger.PerformKeepsTotal | bankdb/src/core/bank.c:106-178 | a whole operation keeps balances non-negative and changes the total by its effect if it succeeds, by nothing otherwise |
| Statements.StatementsBalance | bankdb/src/core/bank.c:89-178 | in every reachable state each balance, half-done transfers completed, is its initial value plus the deltas of the history; each outcome in the history is the one that the balances so computed call for |
| Statements.EventOutcomes | bankdb/src/core/bank.c:89-178 | in the history, a query answers initial balance plus accepted deposits and incoming less accepted withdrawals and outgoing transfers; a withdrawal is refused exactly when the amount is negative or above that; likewise a transfer; a deposit never |
| Statements.FinalStatement | bankdb/src/core/bank.c:106-178 | once all have ended, every stored balance is its initial value plus all its deltas |
| Conservation.RunningTotal | bankdb/src/core/bank.c:106-178 | in every reachable state balances plus money in transit equal the initial total plus the flow applied so far |
| Conservation.BalancesInRange | bankdb/src/core/bank.c:116-118 | if initial total plus all non-negative deposits fit an int, all balances and every stored value stay in [0, INT_MAX] |
| Conservation.BalanceQueryNeverAborts | bankdb/src/core/transaction.c:341-347 | a balance query on a loaded account never reads a negative value, so its abort is unreachable |
| Conservation.ClockOrder | bankdb/src/core/timer.c:30-64 | start_tick <= actual_start <= actual_end <= now and wait_ticks is actual_start - start_tick for ended transactions; the clock can tick while any is unfinished |
| Times.RecordedTicksExact | bankdb/src/core/transaction.c:164-172 | the recorded start and end tick are the clock at the moment: at every earlier moment the clock is at most that tick, at every later one at least |
| Times.ClockCountsTicks | bankdb/src/core/timer.c:35-53 | the clock shows the number of ticks of the timer |
| Times.StopIsFinal | bankdb/src/main.c:221-233 | the timer can be stopped exactly when all transactions have ended, and nothing moves afterwards |
| Audit.AuditGap | bankdb/src/system/metrics.c:115-137 | expected minus final total is the negative deposits of committed minus the applied flow of aborted transactions; the audit passes exactly when these are equal |
| Audit.AuditExact | bankdb/src/system/metrics.c:115-137 | without negative deposits the audit passes exactly when the aborted prefixes net to zero |
| Audit.AuditWithoutAborts | bankdb/src/system/metrics.c:115-137 | when the status array shows no abort, the audit passes exactly when no transaction deposits a negative amount |
| Audit.AuditRejectsOverdraw | bankdb/src/core/transaction.c:242-255 | deposit then overdraw: under every schedule the transaction aborts with its deposit kept and the audit fails |
| Audit.AuditCanFail | bankdb/src/system/metrics.c:132-136 | such a finished run exists |
| Audit.CommittedExternalFlow | bankdb/src/main.c:129-156 | the nested loops compute the declared flow of the committed transactions |
| Audit.VerifyConservation | bankdb/src/system/metrics.c:115-137 | PASS exactly when initial total plus committed flow is the final total |
| Executor.SingleTransactionExact | bankdb/src/core/transaction.c:257-372 | one transaction, under every schedule that ends it, gives the balances, outcomes and status of its operations run in order up to the first failure, without rollback |
| Executor.Transaction.HasLoaded | bankdb/src/core/transaction.c:178-190 | true exactly for accounts on the loaded list |
| Executor.Transaction.LoadFor | bankdb/src/core/transaction.c:197-226 | for an account not yet loaded: fails exactly when the list is full or the account unknown, waits exactly when the pool is full of its own pins, else appends it |
| Executor.Transaction.UnloadAll | bankdb/src/core/transaction.c:232-236 | the pool holds nothing afterwards |
| Executor.Transaction.RunOps | bankdb/src/core/transaction.c:276-366 | the loop computes the run alone, stopping at the first failed load or call; it hangs exactly if the run alone gets to an operation with a known account too many for the pool, with the operations before it done |
| Executor.HangNeedsAccounts | bankdb/src/core/transaction.c:276-366 | such a hang needs more distinct existing accounts than slots |
| Executor.Transaction.Execute | bankdb/src/core/transaction.c:257-372 | alone, hangs exactly as the operation loop does; otherwise run-alone balances, outcomes, status, a pool that holds nothing; start and end tick are exactly the two clock readings taken, the second at the end |
| Executor.RunInNewPool | bankdb/src/core/transaction.c:257-372 | a transaction of at most five accounts in a new pool runs to its end; every slot is blank again, both semaphores are as initialised, and the balances are those of the run alone |
| Executor.Clock.WaitUntil | bankdb/src/core/timer.c:56-64 | returns at or after the target tick, at once if it has passed |
| Executor.LoadAloneIsSteps | bankdb/src/concurrency/buffer_pool.c:50-118 | the steps of one load taken in a row are the whole load, and stop where it would wait |
| Executor.UnloadAloneIsSteps | bankdb/src/concurrency/buffer_pool.c:125-154 | the steps of one unload taken in a row are the whole unload |
| BankStore.Bank.AddAccount | bankdb/src/core/bank.c:29-55 | accepts exactly non-negative new ids with non-negative balances while there is room, and appends them |
| BankStore.Bank.GetAccount | bankdb/src/core/bank.c:61-83 | fast path and scan together find exactly the account the plain scan finds |
| BankStore.FastFindAgrees | bankdb/src/core/bank.c:66-83 | the fast path agrees with the scan on all ids exactly when no account in its own direct slot repeats an earlier id |
| BankStore.Bank.GetBalance | bankdb/src/core/bank.c:89-100 | exactly the stored balance of a known account; -1, and negative only, for unknown ids |
| BankStore.Bank.Deposit | bankdb/src/core/bank.c:106-119 | the account with this id grows by a non-negative amount, every other balance stays; a negative amount is ignored |
| BankStore.Bank.Withdraw | bankdb/src/core/bank.c:125-146 | accepted exactly when the account exists and 0 <= amount <= its balance; then that balance alone falls by the amount |
| BankStore.Bank.Transfer | bankdb/src/core/bank.c:152-178 | accepted exactly for different existing accounts with 0 <= amount <= the source balance; then the source falls and the target rises by the amount, and nothing else changes |
| BankStore.Bank.TotalBalance | bankdb/src/system/metrics.c:143-157 | the sum of all balances |
| PoolStore.BufferPool.FirstScan | bankdb/src/concurrency/buffer_pool.c:58-67 | the first mutex section of a load |
| PoolStore.BufferPool.ClaimSlot | bankdb/src/concurrency/buffer_pool.c:77-108 | the second mutex section of a load: duplicate, insertion with statistics, or neither |
| PoolStore.BufferPool.ReleaseSlot | bankdb/src/concurrency/buffer_pool.c:130-153 | the mutex section of an unload |
| PoolStore.BufferPool.IsLoaded | bankdb/src/concurrency/buffer_pool.c:160-178 | true exactly for resident accounts |
| PoolStore.BufferPool.LoadAccount | bankdb/src/concurrency/buffer_pool.c:50-118 | a whole load with nobody else at the pool |
| PoolStore.BufferPool.UnloadAccount | bankdb/src/concurrency/buffer_pool.c:125-154 | a whole unload with nobody else at the pool |
| PoolStore.BufferPool.InitSlots | bankdb/src/concurrency/buffer_pool.c:11-22 | all slots blank |
| PoolStore.BufferPool.constructor | bankdb/src/concurrency/buffer_pool.c:28-43 | the initial pool with five slots |
| LockStore.AccountLocks.LockInOrder | bankdb/src/concurrency/lock_mgr.c:12-27 | smaller id first whatever the argument order: a waiting call holds nothing, or only the smaller id |
| LockStore.AccountLocks.UnlockBoth | bankdb/src/concurrency/lock_mgr.c:33-40 | drops both write locks and nothing else |
| Grammar.LineIsRead | bankdb/src/system/parser.c:189-309 | a line is skipped exactly when it is blank or its first other character is #; it is read as an entry exactly when it states it in the grammar (T and an integer, a tick >= 0, one of four words, that word's integers); it is malformed exactly when neither |
| Grammar.TrailingSpaceIgnored | bankdb/src/utils/utils.c:54-70 | any blank end of a line, such as its newline, changes nothing |
| Grammar.IntReads | bankdb/src/system/parser.c:212-217 | the integer scan succeeds exactly on spaces, an optional sign and digits, with that value and rest |
| Grammar.WordReads | bankdb/src/system/parser.c:212 | the word scan succeeds exactly on spaces and one to 31 other characters, with that word and rest |
| Grammar.NumeralFromLeft | bankdb/src/system/parser.c:212 | a digit string is worth its first digit times the power of ten of its place plus the rest |
| Grammar.TraceIsRead | bankdb/src/system/parser.c:323-408 | the parser accepts exactly the traces whose lines state acceptable entries between ignorable lines, and returns their groups |
| Grammar.DecorationIgnored | bankdb/src/system/parser.c:338-345 | line ends, comments and blank lines anywhere change nothing |
| Grouping.ParserGroups | bankdb/src/system/parser.c:323-408 | parsing succeeds exactly when all lines are well formed, each id keeps one start tick and no limit is exceeded, and returns ids by first appearance with each id's operations in line order |
| Grouping.NothingLost | bankdb/src/system/parser.c:341-407 | operation counts add up to the non-skipped lines |
| Grouping.InterleavingPermutes | bankdb/src/system/parser.c:311-322 | interleaving the lines differently, each id's own order kept, changes neither acceptance nor any transaction, only array order |
| RoundTrip.TraceRoundTrip | bankdb/src/system/parser.c:189-309 | rendering any table (at most 256 distinct int ids, 1 to 256 normal-form operations each, int ticks >= 0) and parsing it gives it back, with any line ends and with comments and blank lines anywhere between; every rendered line fits the line buffer |
| RoundTrip.LineRoundTrip | bankdb/src/system/parser.c:207-309 | one rendered line scans back to its entry |
| Scanning.ScanPrintedInt | bankdb/src/system/parser.c:212 | a printed integer followed by a space or the end scans back to itself |
| TraceTable.TransactionTable.FindOrCreate | bankdb/src/system/parser.c:18-39 | the position of a known id; a new id appended unless 256 are stored |
| TraceTable.TransactionTable.AddOperation | bankdb/src/core/transaction.c:121-146 | appends to that transaction only, exactly when it has room |
| TraceTable.TransactionTable.EnterLine | bankdb/src/system/parser.c:382-403 | one parsed line: accepted exactly when the table can take it at the stored tick |
| TraceTable.TransactionTable.ParseLines | bankdb/src/system/parser.c:323-408 | the in-place parser returns -1 exactly when the lines describe no transactions, else the count, with the array holding the transactions they describe |

## Left out

- Transaction-level serializability and rollback: locks are held per operation and aborts undo nothing, so neither holds.
- Opening and reading files, over-long lines, error and summary printing, command-line handling: the parser is given the lines of the file; the accounts file parser, which only feeds `add_account`, is not part of this model.
- `%d` outside the range of int: undefined in section 7.21.6.2 of ISO/IEC 9899:2011; the model reads the mathematical integer.
- Arithmetic overflow of balances: undefined in C; the model is unbounded and `BalancesInRange` says when the bounds are never left.
- The pthread and semaphore implementations: a mutex section is one action, a semaphore is a natural number with a guarded decrement (`sem_trywait` followed by `sem_wait` is one such decrement), a reader-writer lock is a reader set or one writer; a reader is granted whenever there is no writer, as with the default reader preference. Failed `pthread_create`, `EINTR` and fairness of the scheduler are not modelled.
- `blocked_count`, average wait and throughput: they depend on the scheduling of one call or are floating-point reports.
- Null pointer checks and the `default` branch for an unknown operation type: the types exclude them.
- Adding accounts while transactions run: accounts are loaded before any thread starts.
- Executor.Transaction.Execute: runs with nobody but the timer around, so the interleaving is not in this object; `Engine` has it, and `SingleTransactionExact` connects the two.
- Executor.Clock.WaitUntil: the timer is a number of ticks that pass in each wait, before each operation and at each clock reading; being woken and taking the mutex again is not modelled.
- PoolStore.BufferPool.UnloadAccount: run alone, so nobody acts between the section and the semaphore calls; the interleaved form is in `Engine`, where `FullWaitNeverBlocks` covers the wait.
- PoolStore.BufferPool.LoadAccount: run alone, reports with its flag where the program would block; the interleaved form is in `Engine`.
- LockStore.AccountLocks.LockInOrder: one call with nobody else stepping in between, reporting where it would wait; the interleaved form is in `Engine`.
- DemandBound.ProgressExactlyWithoutJam: stated within the program's array limits (100 accounts, 256 transactions); `NeverStuckWithoutJam` has no such limits. It fixes the accounts each transaction needs, not the order in which it names them; which orders of a given trace get stuck is not decided.
- DemandBound.ProgressExactlyBelowDemand: stated within the same limits and for a positive capacity; the program's is 5.
- The order of checks inside one malformed trace line: a line with several defects is rejected as a whole either way.
