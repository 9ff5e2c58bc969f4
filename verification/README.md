# Verified models of the CS-453 transactional memory project

Dafny models of the transactional memory in `358982/`, of the bank and counter workloads that grade it, of the
synchronisation protocols of the grading program, and of three smaller stateful components, with proofs of what
they promise.  `dafny verify dfyconfig.toml` checks everything.

## What is modelled

**The transactional memory** (`358982/Transaction.cpp`, `358982/versioned_lock.cpp`).  `Stm` is a step machine for
any number of transactions, words and interleavings.  Loading the clock, loading a lock word, the
compare-and-swap, copying a word, storing a version and releasing a lock are each one step; `unlock` and
`set_version` are two, a load and a store.  The state carries history variables that no step reads: the owner of a
set lock bit, the operations each client has seen, the writer that held a word when a read-only transaction copied
it, and the log of decided commits by write version.  `StmInvariant` and `StmSteps` give the invariant that ties
lock bits, versions, memory, redo logs and the commit log together, and show that every step keeps it.
`TransactionCode` holds the code itself, with its loops and fields, running on a region whose other transactions
may take any number of steps between two accesses; each method is proved to perform a run of the machine, so that
what holds of runs holds of the code, and to fail only for a reason that its contract names by the states of that run.

Serial execution is defined as a client would define it: `RunOps` executes operations one by one on a memory,
`Legal` says that all reads return what the memory holds at that point, and `SerialMem(log, v)` is the zeroed
memory after executing all commits with version at most `v`, one whole transaction after another.
`StmTheorems` proves what every run promises in these terms, and `StmSerial` puts it into one statement: a single
sequence of all committed transactions, legal step by step, that respects real time.  `StmLive` bounds what a
transaction that is still running may have seen.  `StmAlone` says when operations must succeed: a transaction that
nobody disturbs does not fail.  `StmTraces` holds the facts about failed transactions and the runs in which the memory
does less than one might expect, `StmRuns` runs in which what must succeed does; `StmScripts` has the pieces such runs
are made of.

**The bank** (`grading/workload.hpp`).  `Bank` defines the accounts, the conservation law (balances plus parities
equal the initial balance times the number of accounts), the shape of the list of segments, and its layout in
shared memory.  `BankProgram` gives the transaction bodies as programs that know memory only through the values
their reads return; `BankSteps` shows what a whole body does when run alone; `BankCode` holds the bodies as code
with loops and proves that it performs those programs, whatever the reads return and wherever it is cut off;
`BankChecker` says what the two checkers report, for any values at all.
`BankEndToEnd` combines this with serializability: in any run, in which transactions may interleave in any way and
retry any number of times, the long transaction never reports a violation.  `BankAttempts` and `BankBounds` are about
attempts that are still running and may be doomed: none is ever about to crash, and none goes on for ever.
`BankRetry` is about what a retry of `short_tx` starts with, and `BankRuns` holds runs of the bank.  `CounterCheck`
does the same for the `check` round: a decrease never finds a value larger than the one fetched before, and when the
workers' loops are done the last read finds zero.

**Synchronisation** (`grading/common.hpp`, `grading/grading.cpp`).  `SpinBarrier` is the reusable barrier and
`RoundSync` the master/worker protocol with its latch and the rounds that drive it, for any number of threads and
rounds; both as a machine with its invariant, and as code whose spin loops are followed for as many turns as a
`patience` parameter allows (`Patience`: giving up means having found that many states in which to wait).  Both are shown to make progress: some thread can always move, and the number of moves
of a run is bounded, so no thread waits for ever.

**Smaller cores.**  `Reclamation` is the freeing of marked segments under a lock that all live transactions share,
with the runs of `ReclamationRuns`.  `BoundedBuffer` is the producer/consumer with a condition variable, with
spurious wake-ups.  `AllocList` is the doubly linked list of the reference implementation, on the heap.  `Addressing`
is pointer tagging and lock lookup.  `PackedLock` ties the packed 32-bit lock word to the machine's version and lock bit.

## Where the code does less than one might expect

* A read-only read copies first and checks the lock word afterwards.  A writer within the snapshot may hold the word
  during the copy and release it before the check.  `StaleReadOnlyRun` is such a run, and `TornReadOnlyRun` one in
  which a committed read-only transaction sees a memory that no serial execution produces.  A read-only transaction
  is serializable at its read version exactly when each of its copies is faithful
  (`SnapshotExactlyWhenFaithful`); it is enough that no writer within the snapshot held the word when it was last
  copied (`ReadOnlySnapshot`), in particular that the word was unlocked (`UnlockedCopyIsClean`).  The end-to-end
  theorems suppose faithful copies, and without them they are false: in `LongReportsViolationRun` everything else
  holds and the checker's long transaction returns false.
* `short_tx` captures its indices by reference and subtracts from them.  When an attempt fails after it has found an
  account, the index left behind is the account's place in its segment: a retry looks for the same account if and only
  if it lies in the first segment (`RetryAsksTheSame`), which a caller can check beforehand.
  `RetryPaysFromWrongAccountRun` is a run in which a transfer is asked for, has its first attempt fail, and is
  committed by its retry with another account as the sender.  The end-to-end theorems allow any indices in every attempt.
* The packed lock word holds a version faithfully exactly when it has 31 bits (`UnpackPacked`).
* The cleaner frees a segment once more for each time a client marks it after it was deleted
  (`FreedOncePerDeletion`); `FreedTwiceRun` is such a run.  Marks are not undone when their transaction fails, so in
  `FreedThoughFailedRun` a segment is freed although the transaction that marked it failed.

## Model

| member | source | states |
|---|---|---|
| SharedMemory.ScanIsWriteBack | 358982/Transaction.cpp:165-176 | the newest-first scan of the redo log returns, word by word, what in-order write-back of the log would leave in memory |
| SharedMemory.ScanFindsLast | 358982/Transaction.cpp:166-172 | the scan returns the entry after which no other names the word: last write wins |
| StmSteps.RunInv | 358982/Transaction.cpp:65-201 | every state of every run satisfies the invariant that ties locks, versions, memory, redo logs and history |
| StmTheorems.CommitsAreSerial | 358982/Transaction.cpp:152-201 | a committed read-write transaction, executed alone after all commits with smaller write versions, reads what it read, and then leaves the next serial memory; write versions are unique |
| StmTheorems.HistoryIsSerial | 358982/Transaction.cpp:186-201 | the same for every decided commit, also while it is still writing back |
| StmTheorems.UnlockedIsSerial | 358982/Transaction.cpp:122-129 | an unlocked word holds its value in the serial memory of all commits |
| StmTheorems.FrozenForever | 358982/Transaction.cpp:98-109 | once no undecided commit with version up to v can write a word, none ever will, and the history never loses a commit |
| StmTheorems.NoLateWriter | 358982/Transaction.cpp:89-110 | no transaction that decides later with a smaller version writes a word that a commit took from memory |
| StmTheorems.SnapshotExactlyWhenFaithful | 358982/Transaction.cpp:131-150 | a read-only transaction saw the serial memory at its read version if and only if each copy was made free of writers within the snapshot, or under one that failed or wrote the same value |
| StmTheorems.UnlockedCopyIsClean | 358982/Transaction.cpp:136-139 | a copy made while the word is unlocked meets the copy condition |
| StmTheorems.FaithfulSnapshot | 358982/Transaction.cpp:131-150 | a read-only transaction whose copies are faithful saw the memory of all commits up to its read version, which its clock has reached |
| StmTheorems.ReadOnlySnapshot | 358982/Transaction.cpp:131-150 | under the copy condition a read-only transaction saw exactly the memory of all commits up to its read version, however often it extended it |
| StmTheorems.ExtensionSound | 358982/Transaction.cpp:139-146 | when the rescan after the clock load has passed, no commit with a version in (old, new] writes any word read so far, at any later time |
| StmTheorems.EndedIsFinal | 358982/Transaction.cpp:182-201 | a transaction that has ended never changes again |
| StmTheorems.BegunLater | 358982/Transaction.cpp:16-23 | a transaction begun after some moment has a read version no smaller than the clock then |
| StmTheorems.RealTimeOrder | 358982/Transaction.cpp:89-91 | if one transaction ends before another begins it comes first in the serial order, for all four kinds of pairs; two read-only ones may be level |
| StmSerial.StrictlySerializable | 358982/Transaction.cpp:131-201 | at every moment all transactions that have taken effect (decided read-write ones, and committed read-only ones with faithful copies) form one sequence without repetition in which each, executed after the others before it, reads what it did read, which leaves the serial memory, and in which a transaction that ended before another began comes first |
| StmLive.RunLive | 358982/Transaction.cpp:158-176 | every memory read of a running read-write transaction returned the value at its read version, or one of a newer commit none of whose words it reads afterwards |
| StmTheorems.SkipIsSafe | 358982/Transaction.cpp:94-96 | when the write version is the next after the read version, every value taken from memory is the serial value at the read version, whoever holds locks |
| StmTheorems.LockOwnership | 358982/Transaction.cpp:73-87 | a lock bit is set if and only if some transaction owns it, at most one does, and versions stay within the clock |
| StmTheorems.OnlyOwnerWrites | 358982/Transaction.cpp:112-129 | only the owner changes a word, its version or its lock bit, and versions only grow |
| StmTheorems.NoLostUpdate | 358982/versioned_lock.cpp:20-28 | what unlock and set_version write back is still what the word holds, so they lose no update |
| StmTraces.FailedWasNeverDecided | 358982/Transaction.cpp:193-196 | a transaction that fails was never decided before |
| StmTraces.FailedLeavesNoTrace | 358982/Transaction.cpp:186-196 | no step of a transaction that fails changes a word or a version, and when it has ended it holds no lock |
| StmTraces.LockBalance | 358982/Transaction.cpp:112-120 | a transaction takes each lock at most once, however often its write set names the word, and has given each back exactly once when it ends |
| StmTraces.StaleReadOnlyRun | 358982/Transaction.cpp:136-139 | a run in which a read-only transaction without the copy condition commits with a stale value |
| StmTraces.TornReadOnlyRun | 358982/Transaction.cpp:131-150 | a run in which it commits having seen a memory that no serial execution produces |
| StmTraces.SkipBeatsScanRun | 358982/Transaction.cpp:93-110 | a run in which skipped validation commits where a full scan would have failed |
| TransactionCode.Region.Interfere | 358982/Transaction.cpp:65-201 | any number of steps of other transactions keep the run a run and leave this transaction alone |
| TransactionCode.Transaction.constructor | 358982/Transaction.cpp:16-23 | begins a transaction at the clock it loads |
| TransactionCode.Transaction.WriteWords | 358982/Transaction.cpp:38-55 | appends one redo-log entry per word, in order, and nothing else |
| TransactionCode.Transaction.ReadWriteRead | 358982/Transaction.cpp:152-180 | on success every word in the redo log yields its newest entry, and the history records exactly the values returned; it fails only if one of the words was locked or newer than the read version in some state since the call |
| TransactionCode.Transaction.ReadWriteWord | 358982/Transaction.cpp:158-176 | one word: it succeeds if and only if the word was free and old enough in the state of its check, also when the redo log answers, and is then added to the read set |
| TransactionCode.Transaction.ScanNewestFirst | 358982/Transaction.cpp:165-172 | the loop returns the newest entry for the word |
| TransactionCode.Transaction.ReadOnlyRead | 358982/Transaction.cpp:131-150 | on success the history gains one read per word, in order, with the values returned; it fails only for the reasons ReadOnlyWord names, at one of the words |
| TransactionCode.Transaction.ReadOnlyWord | 358982/Transaction.cpp:133-148 | on success the value was in memory in some state, and the word free and no newer than the read version in a later one; it fails only if a word read before was locked or overwritten, or after exactly RO_RETRIES refusals, each at a read version no older than the clock of the refusal before |
| TransactionCode.Transaction.CheckReadOnly | 358982/Transaction.cpp:139 | passes, recording the read, if and only if the word is free and no newer than the read version in the state of the check |
| TransactionCode.Transaction.ExtendReadVersion | 358982/Transaction.cpp:140-142 | on success the read version is the clock of a state since the call, so at least the clock at the call; it fails, changing nothing, only if a word of the read set was locked or newer than the old read version |
| TransactionCode.Transaction.EndTx | 358982/Transaction.cpp:65-71 | ends with no lock held; true means the trace is legal on the serial memory before the write version, or for a read-only transaction with faithful copies at the read version; false only if another transaction held a word of either set, a word read was overwritten, or the version of a word to write changed, since the call |
| TransactionCode.Transaction.EndReadWrite | 358982/Transaction.cpp:186-201 | lock, draw a version, validate, write back, unlock: a run of the machine that ends as it returns, and fails only for such a conflict |
| TransactionCode.Transaction.LockWriteSet | 358982/Transaction.cpp:73-87 | takes every lock once or gives all back; the latter only if another transaction held a word of the write set, or changed its version between the load and the swap |
| TransactionCode.Transaction.CompareAndSwap | 358982/versioned_lock.cpp:13-18 | wins if and only if, in the state of the swap, the version is the one loaded and no other transaction holds the word |
| TransactionCode.Transaction.IncrementAndFetchClock | 358982/Transaction.cpp:89-96 | draws the write version, and skips validation exactly when it is the next after the read version |
| TransactionCode.Transaction.ValidateReadSet | 358982/Transaction.cpp:98-109 | true means the commit is decided; false only if a word of the read set was newer than the read version or held by another transaction, so never because of its own locks |
| TransactionCode.Transaction.WriteWriteSetAndUnlock | 358982/Transaction.cpp:122-129 | publishes every entry with its version and releases every lock |
| TransactionCode.Transaction.SetVersion | 358982/versioned_lock.cpp:25-28 | load and store of set_version as two steps |
| TransactionCode.Transaction.UnlockWriteSet | 358982/Transaction.cpp:112-120 | releases every lock held and erases it from the locked set |
| TransactionCode.Transaction.Unlock | 358982/versioned_lock.cpp:20-23 | load and store of unlock as two steps |
| StmAlone.AloneNeverFails | 358982/Transaction.cpp:131-201 | a transaction that runs alone, from a moment when no word is locked and nothing it has read is overwritten, never fails if it is read-only or its read version is the clock of that moment |
| StmAlone.AloneFailsOnNewer | 358982/Transaction.cpp:158-161 | a read-write transaction with an older read version then fails only at a read of a word overwritten after its begin |
| StmRuns.ScannedCommitRun | 358982/Transaction.cpp:98-109 | a run in which a transaction that reads and writes a word validates by a full scan, while it holds that word, and commits |
| StmRuns.ExtensionRun | 358982/Transaction.cpp:139-146 | a run in which a read-only transaction extends its read version, returns the newer value and commits |
| StmRuns.OwnWriteRun | 358982/Transaction.cpp:165-172 | a run in which a transaction reads the value it has written before, and commits |
| PackedLock.UnpackPacked | 358982/versioned_lock.cpp:9-11 | packing version and lock loses nothing if and only if the version lies in [-2^30, 2^30) |
| PackedLock.PackUnpacked | 358982/versioned_lock.cpp:30-34 | every word is the packing of its two halves |
| PackedLock.PackedEqual | 358982/versioned_lock.cpp:13-18 | words are equal exactly when version and lock are |
| PackedLock.PackedTests | 358982/versioned_lock.cpp:41-48 | over every run with clock below 2^30 the tests on the packed word are those of the machine |
| PackedLock.PackedTryLock | 358982/versioned_lock.cpp:13-18 | the machine's compare-and-swap succeeds exactly when the packed word is the expected one, and stores the desired one |
| PackedLock.PackedUnlock | 358982/versioned_lock.cpp:20-23 | the store of unlock leaves the packed word the machine says, with the version it had |
| PackedLock.PackedSetVersion | 358982/versioned_lock.cpp:25-28 | the store of set_version leaves the packed word the machine says, with the lock bit it had |
| PackedLock.VersionedLock.TryLock | 358982/versioned_lock.cpp:13-18 | with other threads storing in between, wins exactly when the word is unlocked with the version loaded, and then only sets the bit |
| PackedLock.VersionedLock.Unlock | 358982/versioned_lock.cpp:20-23 | the version stored is the one loaded, the bit is clear |
| PackedLock.VersionedLock.SetVersion | 358982/versioned_lock.cpp:25-28 | the bit stored is the one loaded, the version is the one given |
| PackedLock.VersionedLock.GetVersionLocked | 358982/versioned_lock.cpp:30-34 | the two halves determine the word |
| PackedLock.VersionedLock.UnlockedAndOldWord | 358982/versioned_lock.cpp:45-48 | passes if and only if the word loaded is the packing of an unlocked version that is old enough, whatever others store afterwards |
| Bank.StakeIsProduct | grading/workload.hpp:180 | what n accounts start with is the initial balance times n, the product the checker computes |
| Bank.CloseLeavesOne | grading/workload.hpp:197-206 | with more than two accounts the last segment has one to remove, and a segment dropped has a previous one |
| Bank.AllocKeepsSound | grading/workload.hpp:186-226 | opening or closing an account keeps conservation, no debt and the shape; there is one account less if there were more than the trigger and more than two, and one more otherwise |
| Bank.AllocFlat | grading/workload.hpp:196-219 | with more accounts than the trigger, and more than two, the last balance is gone; otherwise the initial balance is appended; no other balance changes |
| Bank.TransferKeepsSound | grading/workload.hpp:265-272 | a transfer keeps conservation, no debt and the shape, also from an account to itself |
| Bank.TransferFlat | grading/workload.hpp:237-272 | a transfer between the accounts at two flattened indices moves one unit between exactly these balances |
| Bank.CloseStored | grading/workload.hpp:200-202 | the two writes that close an account leave the new bank stored |
| Bank.UnlinkStored | grading/workload.hpp:206-208 | the writes that drop the last segment leave the new bank stored |
| Bank.OpenStored | grading/workload.hpp:211-213 | the two writes that open an account in place leave the new bank stored |
| Bank.AppendStored | grading/workload.hpp:215-217 | linking a zeroed new segment and opening its first account leaves the new bank stored |
| BankSteps.BodyProgress | grading/workload.hpp:161-275 | after any prefix of its operations a body run alone stands where its walk of the list says, and memory has changed only as far as that |
| BankSteps.BodyOutcome | grading/workload.hpp:161-275 | a whole body run alone on a stored sound bank leaves a stored sound bank: long_tx returns true and changes nothing, alloc_tx removes the last balance or appends the initial one as its trigger says, short_tx moves one unit between the two accounts, or returns false exactly when one does not exist |
| BankSteps.BodyNeverCrashes | grading/workload.hpp:198-206 | no body whose reads are those of one stored bank removes from an empty segment or follows a null previous segment |
| BankAttempts.CommitWritesFine | grading/workload.hpp:186-275 | a whole body, whatever it reads, sets no account count below one and links a segment only together with its account count |
| BankAttempts.AttemptNeverCrashes | grading/workload.hpp:198-206 | at every moment of every run, no running attempt of any body, also one that is going to fail, is about to remove from an empty segment or to follow a null previous segment |
| BankBounds.OldTraces | 358982/Transaction.cpp:89-91 | a transaction with a write version up to the clock of some moment had its whole trace by then |
| BankBounds.AttemptIsBounded | grading/workload.hpp:186-260 | at every moment of every run, a running attempt of alloc_tx or short_tx has asked for at most 7 operations more than twice the number of segments allocated before it began: no mixture of versions keeps it walking |
| BankRetry.LeftIsRemainder | grading/workload.hpp:242-259 | whatever the reads return and however far the attempt gets, an index whose account is not found is left less all counts read, and one whose account is found is left as the account's place in its segment |
| BankRetry.FoundIsAsked | grading/workload.hpp:242-259 | on a stored bank the account found is the one of the number asked for |
| BankRetry.RetryAsksTheSame | grading/workload.hpp:232-263 | the captured index of an account that was found is unchanged if and only if the account lies in the first segment; that of one not found, if and only if all counts read were zero |
| BankRuns.RetryPaysFromWrongAccountRun | grading/transactional.hpp:612-618 | a run in which a transfer from account 2 to account 1 finds both, fails, and its retry takes the unit from account 0 and commits with result true |
| BankRuns.LongReportsViolationRun | grading/workload.hpp:161-182 | a run that satisfies everything LongNeverFails supposes but faithful copies, in which long_tx commits and returns false |
| BankCode.LongTx | grading/workload.hpp:161-182 | whatever its reads return, true if and only if no balance read is negative and the parities and balances read add up to the initial balance times the counts read; alone on any stored bank, sound or not, it ends, changes no word, and returns true if and only if there is no debt and no money is missing or created; it stops early only after a failed read or the given number of segments |
| BankCode.LongSegment | grading/workload.hpp:167-176 | one segment of the walk, whatever its reads return; alone it reports exactly a negative balance, else adds its accounts, parity and balances |
| BankCode.AllocTx | grading/workload.hpp:186-226 | whatever its reads return the loop performs the program of alloc_tx; alone on a sound bank it ends and keeps it sound, and the balances lose their last entry if there are more than the trigger and more than two, and gain the initial balance at the end otherwise |
| BankChecker.LongVerdict | grading/workload.hpp:161-182 | every complete trace of long_tx, whatever its answers, returns true if and only if no balance read is negative and the parities and balances read add up to the initial balance times the counts read; then it has read one balance per account counted |
| BankChecker.CheckVerdict | grading/workload.hpp:287-291 | init's check is one read of the first account, and true if and only if it returns the initial balance |
| BankCode.CloseAccountOf | grading/workload.hpp:198-209 | whatever its reads return closing performs its program, and stops before an index that would wrap or a null segment; alone on a sound bank it never stops there |
| BankCode.Look | grading/workload.hpp:242-259 | the code that looks for both accounts in a segment finds what its program finds, and leaves the indices so |
| BankCode.ShortTx | grading/workload.hpp:232-275 | whatever its reads return the loop performs the program of short_tx and leaves in the indices what a retry starts with; alone on a sound bank it ends, and the bank and the result are those of short_tx |
| BankCode.InitTx | grading/workload.hpp:281-286 | the loop performs init's program; on zeroed memory it leaves the first bank stored |
| BankEndToEnd.RunIds | 358982/tm.cpp:167-178 | over every run no segment index is handed out twice |
| BankEndToEnd.CommitAllocsFresh | 358982/tm.cpp:167-178 | segments a commit allocated are new with respect to all commits serialized before it |
| BankEndToEnd.InitRound | grading/workload.hpp:280-286 | any number of init transactions, in any order, leave the memory that one leaves |
| BankEndToEnd.SerialBank | grading/workload.hpp:186-275 | every serial memory after the init round stores a sound bank |
| BankEndToEnd.CommitKeepsBank | grading/workload.hpp:186-275 | in any run, every bank transaction that commits takes one stored sound bank to the next, as its body would alone |
| BankEndToEnd.LongNeverFails | grading/workload.hpp:306-320 | in any run of bank transactions a committed long transaction with faithful copies returns true: the checker never reports a violation |
| BankEndToEnd.InitCheckPasses | grading/workload.hpp:287-293 | while only init transactions have committed, a check with faithful copies that begins after one of them ended finds the balance it looks for |
| CounterCheck.CounterAt | grading/workload.hpp:363-370 | the counter is its initial value less the number of decreases committed so far |
| CounterCheck.DecreaseIsCorrect | grading/workload.hpp:356-374 | in any run a decrease that begins after its worker's clean fetch ended reads a value no larger than the one fetched, and writes one less |
| CounterCheck.DecreaseReports | grading/workload.hpp:363-370 | whatever it reads, a decrease reports a violation if and only if the value exceeds the one fetched, and otherwise writes one less |
| CounterCheck.WinnersCount | grading/workload.hpp:363-375 | decreases in the history and transactions that decreased correspond one to one |
| CounterCheck.InitSetsCounter | grading/workload.hpp:334-338 | the counter starts at what the last commit that wrote it has stored |
| CounterCheck.EndsAtDifference | grading/workload.hpp:377-386 | a read that begins when every decrease has ended finds the initial value less the number of correct decreases |
| CounterCheck.WinnersAreJobs | grading/workload.hpp:354-375 | when each iteration of each worker has committed one decrease, begun after that iteration's fetch had ended, exactly workers times iterations correct decreases have committed |
| CounterCheck.EndsAtZero | grading/workload.hpp:354-386 | when the counter starts at workers times iterations and the workers' loops are done, a read that begins afterwards finds zero |
| SpinBarrier.NoEarlyReturn | grading/common.hpp:317-332 | no thread returns from its k-th sync before all have entered their k-th; any two threads are at most one round apart |
| SpinBarrier.StepInRange | grading/common.hpp:319-326 | the step counter stays between 0 and the number of threads, so the unsigned counter never wraps |
| SpinBarrier.SomeoneMoves | grading/common.hpp:317-332 | until all threads have made all their calls, some thread can make a step that is not a turn of a spin loop |
| SpinBarrier.RunFinishes | grading/common.hpp:317-332 | a run makes at most four such steps per thread and call, and exactly that many if and only if all calls have returned |
| SpinBarrier.Barrier.Sync | grading/common.hpp:317-332 | the code of sync: when it returns, every thread has entered its call of the same number; it is given up only after as many states as asked for in which the awaited mode was not set |
| SpinBarrier.Barrier.SpinLeave | grading/common.hpp:322-323 | leaves the loop only in leave mode, and is given up only after that many states without it |
| SpinBarrier.Barrier.SpinEnter | grading/common.hpp:329-330 | leaves the loop only in enter mode, and is given up only after that many states without it |
| RoundSync.MasterWakesInDoneOrFail | grading/grading.cpp:85-98 | the master wakes only in Done or Fail, in Fail exactly when a worker reported an error this round, with the message of such a worker; every worker has run each round so far exactly once |
| RoundSync.NothingUnexpected | grading/grading.cpp:95-97 | neither branch marked unreachable is ever reached |
| RoundSync.NoRoundMissedOrRepeated | grading/grading.cpp:102-122 | a worker runs its workload once in each round, in order, and only while the master waits for that round |
| RoundSync.FinishedMeansReturned | grading/grading.cpp:237-241 | when the master is done every worker has returned, having run exactly the rounds the master has made, all of them unless a round failed |
| RoundSync.SomeoneMoves | grading/grading.cpp:72-138 | until the master has joined all workers someone can make a step that is not a turn of a waiting loop |
| RoundSync.RunFinishes | grading/grading.cpp:157-241 | the number of such steps of a run is bounded |
| RoundSync.Sync.WorkerWait | grading/grading.cpp:102-122 | a worker goes on to run or returns |
| RoundSync.Sync.RunWorkload | grading/grading.cpp:166-176 | the workload is run in a round the master waits for, once per round, and its error is recorded in that round exactly when it reports one |
| RoundSync.Sync.WorkerNotify | grading/grading.cpp:126-138 | a worker reports its error and goes back to poll; the last one closes the round |
| RoundSync.Sync.WorkerThread | grading/grading.cpp:163-180 | a worker that returns has run every round so far once and reported in each exactly the error of its workload; it is given up only after as many states as asked for in which it had to wait |
| RoundSync.Sync.LatchWait | grading/common.hpp:233-250 | wakes only when the latch was raised, and resets it |
| RoundSync.Sync.RunRound | grading/grading.cpp:208-215 | one round: an error is returned exactly when some worker failed, and every worker has run this round |
| RoundSync.Sync.MasterThread | grading/grading.cpp:201-241 | all rounds until one fails, then quit and join: all workers have returned, and the error is that of a worker that failed if any did; it is given up only after as many states as asked for in which the latch was down or a worker had not returned |
| Reclamation.HoldersAreLive | 358982/tm.cpp:99-120 | the shared count is the number of live transactions, and while a cleaner holds the lock there are none |
| Reclamation.NothingFreedWhileLive | 358982/TransactionalMemory.cpp:61-75 | while a transaction lives no segment is freed |
| Reclamation.FreedAfterItsReaders | 358982/TransactionalMemory.cpp:64-72 | whenever something is freed, every transaction that was live at any earlier moment, such as the marking, has ended |
| Reclamation.FreedOncePerDeletion | 358982/TransactionalMemory.cpp:66-72 | a segment has been freed once if deleted, plus once per mark that came after a deletion: at most once if clients never free a deleted segment |
| Reclamation.WaitsForSomebody | 358982/TransactionalMemory.cpp:64 | who waits for the lock waits for a transaction that is cleaning, or, to take it alone, for one that is live |
| ReclamationRuns.FreedTwiceRun | 358982/tm.cpp:186-191 | a run in which a segment is marked, freed, marked again and freed again |
| ReclamationRuns.FreedThoughFailedRun | 358982/tm.cpp:186-191 | a run in which the transaction that marked a segment fails in the next step and the segment is freed all the same |
| Reclamation.TransactionalMemory.TmBegin | 358982/tm.cpp:99-105 | cleans if it is time, then takes the lock shared: the new transaction is live and counted; it is given up only after as many states as asked for in which the lock could not be taken |
| Reclamation.TransactionalMemory.FreeMarkedSegmentsIfTime | 358982/TransactionalMemory.cpp:61-75 | loads the counter and returns at once, with nothing freed, below the period; else every marked segment is freed once and set to deleted and no other is touched, the counter is set to zero while the lock is still held alone, and the lock is given back |
| Reclamation.TransactionalMemory.SweepAll | 358982/TransactionalMemory.cpp:66-72 | the loop frees each marked segment once and sets it to deleted, and touches no other, whatever other threads do meanwhile |
| Reclamation.TransactionalMemory.TmEnd | 358982/tm.cpp:112-120 | at one step gives back its share of the lock, at its last step counts one more ended transaction, and is gone |
| Reclamation.TransactionalMemory.TmAlloc | 358982/tm.cpp:167-178 | the index was absent before and is in use afterwards |
| Reclamation.TransactionalMemory.TmFree | 358982/tm.cpp:180-191 | marks a segment that was allocated before, as the interface asks, and changes nothing else |
| BoundedBuffer.SameSlot | sync-examples/procon4.c:52 | rounds that use the same slot are a whole buffer apart |
| BoundedBuffer.ConsumedIsPrefix | sync-examples/procon4.c:36-74 | consumed is a prefix of produced, never more than a buffer behind, and no unconsumed slot is overwritten |
| BoundedBuffer.AllConsumed | sync-examples/procon4.c:93-99 | when both threads have finished everything produced has been consumed in order |
| BoundedBuffer.SomeoneMoves | sync-examples/procon4.c:54-55 | no wake-up is lost: until both have finished one thread can go on without a spurious wake-up |
| BoundedBuffer.RunEnds | sync-examples/procon4.c:36-74 | a run makes at most 20 moves per round, and two more per spurious wake-up |
| BoundedBuffer.Exchange.Produce | sync-examples/procon4.c:36-59 | when it finishes, produced is exactly the given items; it is given up only after as many states as asked for in which the lock was taken, it slept, or the buffer was full |
| BoundedBuffer.WaitsOnlyWhenBlocked | sync-examples/procon4.c:40-65 | the producer waits only when every slot holds an unconsumed item, the consumer only when none does |
| BoundedBuffer.Exchange.Consume | sync-examples/procon4.c:61-74 | when it finishes, it has consumed exactly the first items produced; it is given up only after as many states as asked for in which the lock was taken, it slept, or the buffer was empty |
| AllocList.BothChainsSpell | reference/tm.c:45-50 | the next chain from the head and the prev chain from the tail spell the list and no other sequence |
| AllocList.Region.Alloc | reference/tm.c:165-186 | the new segment is in front, the others keep their order, both chains stay right |
| AllocList.Region.Free | reference/tm.c:188-198 | a live segment at the head, in the middle or at the tail is taken out, the others keep their order, both chains stay right |
| AllocList.Region.Destroy | reference/tm.c:86-99 | ends, and has freed every remaining segment exactly once |
| Addressing.UntagTagged | 358982/TransactionalMemory.cpp:43-59 | the tag can be read off; untagging gives the pointer back if and only if it lies under the prefix put back |
| Addressing.ClientArithmetic | 358982/TransactionalMemory.cpp:43-59 | client arithmetic inside a segment keeps the tag, and untags to the same arithmetic on the real address, which the segment contains |
| Addressing.LockInRange | 358982/TransactionalMemory.cpp:36-41 | the lock index of an address in the segment is that of its word and in range |
| Addressing.SameLockSameWord | 358982/TransactionalMemory.cpp:36-41 | two client addresses share a lock exactly when they lie in the same word of the same segment |

## Left out

- Weak memory orders: all atomics, and copies of single words, are sequentially consistent steps.
- Byte-level copies: a word is one value; `Addressing` relates words to addresses.
- Live and aborted read-write transactions may see mixed views (`StmLive` says how mixed); long_tx run as a read-only transaction may be extended for as long as the bank grows, so its walk has no bound.
- Undoing tm_alloc and tm_free: both act at once and are not rolled back, and the model does not roll them back either; the words of a freed segment stay where they are in `Stm`, since an aborted transaction may have marked it.
- Writes, allocations and frees in read-only transactions: the interface forbids them to clients.
- Growth of the segment table (`realloc_segments`): fewer segments than MAX_SEGMENTS are assumed.
- tm_destroy of `358982/tm.cpp`, which frees only segments in use.
- Failing allocations, the timing of rounds, timeouts, worker exceptions and the exception branches of the grading program; `assert_mode` is off.
- The clock beyond 2^30 (`PackedLock` states the bound) and 64-bit overflow of balances and counts.
- The random choices of `WorkloadBank::run`: any bodies with any parameters in any order are allowed instead.
- Fairness: loops that wait are followed for as many turns as a parameter allows; progress is proved of the machines.
- BankEndToEnd.LongNeverFails: supposes faithful copies, because without them it is false (`LongReportsViolationRun`), and that the init round is over, as the barrier between rounds ensures.
- BankEndToEnd.InitCheckPasses: supposes faithful copies, that only init transactions have committed so far and that the checking transaction begins after one of them ended, as init's own order ensures.
- CounterCheck.EndsAtZero: the workers' loops appear as what they leave in the run (`LoopsDone`), not as code; faithful copies are supposed as above.
- BankCode.LongTx: when others run, reads may return anything, and the loops are followed for as many segments as a parameter allows; `BankAttempts` and `BankBounds` say which answers the memory gives.
- BankSteps.BodyNeverCrashes: only for reads of one stored bank; `AttemptNeverCrashes` is the statement for attempts on the machine.
- StmTheorems.ReadOnlySnapshot: the copy condition is sufficient, not necessary; `SnapshotExactlyWhenFaithful` gives the exact one.
- BankAttempts.AttemptNeverCrashes: `short_tx` and `long_tx` cannot crash in this sense at all; a read-only attempt of `alloc_tx` does not exist.
- TransactionCode.Region.Interfere: the other transactions of the region are steps of the machine, not further objects.
- Reclamation.TransactionalMemory.TmFree: clients mark only segments that were once allocated.
- The other examples in `sync-examples/`, the spinlock, the playground, the template, logging and the submission script.
