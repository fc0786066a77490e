# fastvm in Dafny

A model of the fastvm Ethereum virtual machine and proofs about it: the journalled state and
the calls that snapshot and revert it, the interpreter loop with the frames it starts, fee
settlement, the lazy fork database, and the self-contained algorithms around them.

## How the parts fit

- `Types.dfy`: 64-bit and 256-bit words, addresses and bytes, with wrap-around written out.
- `State.dfy`: `StateDB` as a class over maps, a journal and a stack of marks; the functions
  over `Db` beside it are its specification.
- `Journal.dfy`: undo by journal refines a reference that keeps total functions and a stack of
  copied states. The reference has no journal, no account records and no marks.
- `Evm.dfy`, `Execution.dfy`: `Call`, `execCall` and `create`. What one run of the interpreter
  does to the state is a `Script`; the refinement holds for every script. `Execution.EVM` is the
  code's own form, proved equal to the functions.
- `Locality.dfy`: a run neither sees nor touches older history; hence the refinement under the
  weaker condition that only creations that are undone must have nothing to lose.
- `Wei.dfy`, `Settlement.dfy`: the sum of all balances, `Execute`, and the conservation law.
- `Machine.dfy`, `Interpreter.dfy`: one instruction as a step with a contract, and whole runs
  with nested calls and creations. `RunFrame` is a total function, so its acceptance is the
  proof that the machine halts, and it yields the script of the run. `LiveFrame` is the loop.
- `Protection.dfy`: how far the protection of a static frame reaches.
- `TracedRun.dfy`, `Residue.dfy`: which calls of a run reach the tracer, and the logs and refunds
  that no revert takes back.
- `Transaction.dfy`: settlement and refinement for scripts that come out of the interpreter.
- `Committed.dfy`, `Gas.dfy`: committed storage values, and SSTORE metering over them.
- `ForkDb.dfy`, `ForkRun.dfy`, `ForkChain.dfy`, `FetchProtocol.dfy`: the lazy database against a
  preloaded one, operation by operation, for a whole transaction and for any number of them, and
  its double-checked lock as steps of any number of callers.
- `Memory.dfy`, `Stack.dfy`, `Jumpdests.dfy`, `Tracer.dfy`, `CreateAddress.dfy`, `Blake2b.dfy`.

## Where the code differs from what one might expect

The model follows the code in each of these places.

- A write to a missing account leaves a blank record that no revert removes
  (`UndoneWriteLeavesRecord`), so states are compared by what reads return; `ExistsIsUndoneIff`
  says exactly when the same accounts exist after one write is taken back.
- `CreateAccount` keeps nothing of an earlier account in its undo record. Taking it back can lose
  what the account held (`UndoneCreateLosesBalance`) and what an older snapshot would have given
  back (`UndoneCreateSpoilsOlderSnapshot`). `CreateIsUndoneIffBlank` says exactly when it does
  neither: the address reads as blank now and in every state an open snapshot stands for.
  `Creatable` is the sufficient condition the run theorems use: an address without a record has it
  (`RecordlessIsCreatable`), and so has the blank record an undone write leaves behind. `Locality`
  and `Wei` ask it only of creations that are undone.
- A STATICCALL that ends in REVERT is not rolled back. `StaticRevertKeepsWrites` gives the input
  and `RestoresIffNotStatic` the condition: a kind of call restores on every failure if and only
  if it is not STATICCALL. The reference that always restores (`Always`) is met by every script
  without such a STATICCALL, and by all scripts once it follows the code there (`AsCoded`).
- Only STATICCALL starts a static frame: a kind of call hands protection on if and only if it is
  STATICCALL (`KeepsProtectionIff`). `PlainCallEscapesStatic` is a write below a static frame, and
  `StaticTreeChangesNothing` says that there is none as long as all calls are STATICCALLs. A static
  frame's own CALL may also move wei (`StaticCallMovesWei`); `CodelessCallChangesIff` says exactly
  when a call that runs no code changes anything.
- The callee of a plain CALL, and a created contract, get their depth from the frame pool: depth is
  counted along a kind of call if and only if it is not the plain one (`CountsDepthIff`).
- Finalise keeps the committed values, so from the second transaction on they need not be what
  the transaction started from. `SecondTransactionIsStale` gives the input, `FreshStartIff` and
  `RevertedSlotReadsTxStart` say exactly when current and committed value agree, and
  `BilledFromTxStartIff` exactly when SSTORE is metered as EIP-2200 asks.
- `Memory.Reset` keeps the old bytes, and frames come out of a pool, so memory need not read as
  zero: `ReuseShowsOldByte` is an input, and the contract of `Expand` says exactly when growth
  keeps the zero-initialised byte map.
- Finalise over the lazy fork database leaves behind the unfetched slots of the accounts it
  deletes: `DestroyedSlotComesBack` is an input, and `FinaliseAgreesIff` says exactly when it shows.
- A slot written before it was read over the fork is not what it is over the preloaded database
  (`RemoteValueWrittenUnfetched`); `WrittenSlotAgreesIffFetched` gives the exact condition. The
  adapter drops the error of a failed fetch: `FailedReadAgreesIff` and `FailedWriteIsLost`.
- Logs and the refund counter are outside the journal, and Finalise keeps them:
  `RevertedCalleeStillCounts` is an input, `CallLeavesNothingIff` says exactly when a call leaves
  both as they were, and `OldRefundIsPaidIff` when a transaction is paid for earlier refunds again.
- A CALLCODE that lacks funds leaves its snapshot mark behind (`BorrowedCallMarksIff`); CALLCODE
  moves no value.
- STATICCALLs and creations are not announced to the tracer, the calls below them are: a creation
  may announce two outermost calls, of which the tracer keeps the last (`CreationForgetsCalls`);
  a trace is one balanced call if and only if its forest is one tree (`MessageIsTraced`).
- A CREATE runs on the gas its parent keeps after the 63/64 deduction, and what it returns is
  added unclamped.
- A call or creation refused at depth 1024 leaves its operands on the stack and costs nothing.
- `Stack.Back` is unchecked: an operand read below the bottom of the stack is the outcome
  `Panic`, which ends the whole run (`UncheckedOperandCrashes`). So is data moved out of reach of
  the memory: by a request that was too far to grow for (`TopLoadPanics`), or by a copy, which is
  charged for other operands than it uses (`UnchargedCopyPanics`). A step panics if and only if
  `Machine.Underflows` or `Machine.Strays`, as long as the runtime finds the memory asked for.
- The word count and the memory charge wrap in 64 bits. A request is charged as the Yellow Paper
  asks if and only if it ends at or below 2^37 - 32 (`RequestChargeIsExactIff`), and a granted
  request is covered by the memory if and only if it was not too far (`GrantedIsCoveredIff`); one
  that ends at the top of the address space is granted for nothing (`TopRequestIsFree`).
- SSTORE metering is path-independent exactly for slots whose original value is zero.
- The BLAKE2b table has twelve rows where RFC 7693 takes ten, so the schedules agree for
  exactly the first twelve rounds; with thirteen the results differ for every chain value
  (`Blake2b.ThirteenRoundsDiffer`).

## Parameters

Hashes, hence new addresses and code hashes, are arbitrary values. The remote chain is a total
function that may also fail to answer. Words computed by arithmetic, environment and state reads
of the interpreter, warm and cold access, and what a callee turns out to be, are an `Answer` to
each step, and every result is for all answers. The price a precompile computes from its input and
the intrinsic gas of a message are parameters. The lengths of return data and of the memory's
buffer, and whether an allocation succeeds, are part of the answers.

## Model

| member | source | states |
|---|---|---|
| Journal.JournalRefinesCopies | state/state.go:133-342 | every sequence of writes, snapshots, reverts and Finalise, with any ids and over any number of transactions, keeps the database indistinguishable from a current state plus a stack of saved copies |
| Journal.WriteSimulates | state/state.go:133-203 | one journalled write keeps that relation: the current state changes as the reference says and every older snapshot still rolls back to its copy |
| Journal.RevertSimulates | state/state.go:297-336 | reverting to an id puts back the copy taken when the id was handed out, for it and every older id |
| Journal.UndoAllRespectsReads | state/state.go:302-333 | undoing a well-formed journal depends on a state only through its reads, not on leftover blank records |
| Journal.UndoAllConcat | state/state.go:301-335 | undoing a journal is undoing its end and then its beginning, so inner reverts compose with outer ones |
| Journal.CreateIsUndoneIffBlank | state/state.go:191-203 | a CreateAccount taken back leaves all reads as they were, now and after a revert to any older snapshot, if and only if the address reads as blank and unmarked now and in the state of every open snapshot |
| Journal.UndoneCreateSpoilsOlderSnapshot | state/state.go:305-307 | an emptied account created again and taken back reads 0 after a revert that gives 5 without the creation |
| Journal.UndoAllWithout | state/state.go:301-335 | older undo records give the same for every other address when an undone creation has taken a record away |
| Journal.ExistsIsUndoneIff | state/state.go:101-108 | one write taken back leaves the same accounts existing if and only if it was to storage, created a missing account, or changed an existing one |
| Journal.UndoneWriteLeavesRecord | state/state.go:101-108 | a write to a missing account leaves it existing after the revert |
| Journal.FinaliseSimulates | state/state.go:349-361 | Finalise reads as the reference that deletes the self-destructed accounts with their storage and drops all copies |
| Journal.RecordlessIsCreatable | state/state.go:191-203 | an address without a record has nothing to lose by being created |
| Journal.UndoneCreateLosesBalance | state/state.go:325-327 | the balance of a pre-funded address is lost when its creation is undone |
| State.StateDB.SetBalance | state/state.go:133-137 | the whole new state: record created if missing, balance set, old balance journalled |
| State.StateDB.AddBalance | state/state.go:139-143 | the whole new state, with addition modulo 2^256 |
| State.StateDB.SubBalance | state/state.go:145-149 | the whole new state, with subtraction modulo 2^256 |
| State.StateDB.SetNonce | state/state.go:159-163 | the whole new state |
| State.StateDB.SetCode | state/state.go:181-189 | the whole new state |
| State.StateDB.CreateAccount | state/state.go:191-203 | the whole new state: only the balance survives, and the undo record keeps nothing |
| State.StateDB.SetStorage | state/state.go:240-253 | the whole new state: zero deletes, and the first write commits the value it replaces |
| State.StateDB.Suicide | state/state.go:338-342 | the whole new state |
| State.StateDB.SetStorageDirect | state/state.go:255-262 | the whole new state: value stored without a journal entry, committed if the slot had no committed value |
| State.StateDB.Snapshot | state/state.go:291-295 | the id is the number of marks and names the journal's current end |
| State.StateDB.RevertToSnapshot | state/state.go:297-336 | the backwards loop undoes exactly the entries above the mark, last first, and truncates journal and marks; a stale id changes nothing |
| State.StateDB.Finalise | state/state.go:349-361 | exactly the self-destructed accounts and their storage disappear; committed values stay |
| Evm.ScriptRefines | evm/evm.go:208-308 | the journalled run ends with the same reads, exit, gas and output, and the same older snapshots, as the run that copies the state on entry and restores it on every failure, for every script in which no STATICCALL's callee reverts; and for every script at all as the run that follows the code in that case |
| Evm.CallRefines | evm/evm.go:330-400 | the same for each call kind, the CALLCODE without funds included; the STATICCALL that reverts is rolled back by one reference and, like the code, not by the other |
| Evm.ExecCallRefines | evm/evm.go:208-259 | the same for a plain call with its transfer |
| Evm.CreateRefines | evm/evm.go:261-308 | the same for a creation, whose new account vanishes on failure |
| Evm.FailedCallRestores | evm/evm.go:330-400 | a call that fails, or reverts and is not a STATICCALL, gives back every read its caller had |
| Evm.FailedCreateRestores | evm/evm.go:295-302 | a creation that does not halt gives back every read, the sender's nonce included |
| Evm.RestoresIffNotStatic | evm/evm.go:355-366 | a kind of call restores on every failure if and only if it is not STATICCALL |
| Evm.CodelessCallChangesIff | evm/evm.go:217-235 | a call to an account without code changes a read if and only if it is a CALL with funded value to another account that is not a precompile |
| Evm.StaticRevertKeepsWrites | evm/evm.go:363-365 | a STATICCALL that reverts and leaves behind a storage write made below it |
| Locality.ScriptExtended | state/state.go:291-336 | a run with more journal and more marks before it does the same and leaves them as they are |
| Locality.RunRefinesCopies | evm/evm.go:208-308 | the refinement of copies for every script in which no creation that is undone met an account with something to lose; creations that succeed may meet any account |
| Evm.FrameUndone | evm/evm.go:250-252 | reverting to the snapshot a frame took on entry gives back journal and marks exactly as they were |
| Evm.RunScript | evm/evm.go:217-308 | marks stay sorted and bounded and nothing older than the run is disturbed, so outer snapshot ids stay valid |
| Evm.RunReportsExitGas | evm/evm.go:253-258 | a frame reports no more gas than its script ends with |
| Execution.EVM.Run | interpreter/interpreter.go:189-272 | the state requests of a frame, carried out step by step, have the effect the functions say |
| Execution.EVM.Call | evm/evm.go:330-400 | the method does what the specification of a call says |
| Execution.EVM.ExecCall | evm/evm.go:208-259 | the method does what the specification of a plain call says |
| Execution.EVM.Create | evm/evm.go:261-308 | the method does what the specification of a creation says |
| Execution.EVM.Execute | evm/evm.go:115-194 | the method computes the receipt and state of the settlement specification |
| Execution.EVM.SelfDestruct | interpreter/interpreter.go:257-263 | credit, debit, then mark if created in this transaction |
| Wei.ScriptConserves | evm/evm.go:208-308 | no run of any script changes the sum of all balances, as long as no creation that is undone met an account with something to lose |
| Wei.TransferConserves | evm/evm.go:229-230 | a funded transfer conserves wei, also to oneself |
| Wei.DestroyConserves | interpreter/interpreter.go:257-263 | SELFDESTRUCT conserves wei, also to oneself, where the intermediate sum may wrap |
| Wei.CreateConserves | evm/evm.go:261-308 | a creation conserves wei when it succeeds, at any address, and when it is rolled back from one with nothing to lose |
| Wei.TotalChange | state/state.go:123-149 | a change of one balance changes the total by the same amount |
| Settlement.ExecuteConservesWei | evm/evm.go:115-194 | wei after = wei before - used * min(gasPrice, baseFee) + bonus - balances deleted by Finalise, with refund at most used / 5 |
| Settlement.EarlyExitsKeepBalances | evm/evm.go:119-150 | the two early exits leave every balance as it was |
| Settlement.ExecuteKeepsWellFormed | evm/evm.go:115-194 | after a transaction, also one turned away, the database is well formed, so the law applies to the next one; after one that ran there are no marks and no created marks |
| Settlement.FinaliseRemoves | state/state.go:349-361 | Finalise takes exactly the balances of the deleted accounts out of the total |
| Transaction.CodeConservesWei | evm/evm.go:115-194 | the conservation law for messages run by the interpreter, with no assumption about gas left, precompiles included |
| Transaction.CodeRefinesCopies | evm/evm.go:208-308 | journal and copies agree on all reads after any interpreter run that undoes no loss |
| Committed.CommittedIsWriteOnce | state/state.go:236-253 | through all writes, snapshots, reverts and transactions a committed value never changes once there, no slot is written without getting one, and within a transaction its starting value is fixed |
| Committed.FirstWriteCommits | state/state.go:244-246 | the first write commits the value read just before it |
| Committed.RevertedSlotReadsTxStart | state/state.go:297-336 | reverting past every surviving write of a slot gives back what the transaction began with, which is the committed value if and only if the two were the same before |
| Committed.RevertedSlotReadsCommitted | state/state.go:297-336 | in the first transaction such a revert makes current equal committed |
| Committed.FreshStartIff | state/state.go:349-361 | after Finalise a slot starts from its committed value if and only if a deleted account's slot had committed zero, or any other held its committed value |
| Committed.SecondTransactionIsStale | state/state.go:349-361 | a slot at 5 that was written and reverted in the second transaction has committed value 0 |
| Committed.UndoneSlot | state/state.go:318-324 | undoing a stretch of journal gives a slot the value its oldest record remembers and leaves committed values alone |
| Committed.MeteringFollowsCommitted | interpreter/interpreter.go:192-201 | SSTORE charges over the real state are those of the metering model with the slot's committed value, in every transaction |
| Committed.ZeroCommittedBill | interpreter/interpreter.go:192-201 | in any state reached from an empty database, over any number of transactions, a slot committed as zero pays 100 a write plus 19900 for ending non-zero from zero |
| Committed.BilledFromTxStartIff | interpreter/interpreter.go:192-201 | a transaction is metered as EIP-2200 asks, for all writes to a slot, if and only if the slot starts at its committed value |
| Gas.ZeroOriginalNetCost | gas/gas.go:74-105 | cost less refund for original value zero depends only on the number of writes, the two end values and one cold access |
| Gas.PathIndependentIffZero | gas/gas.go:74-105 | metering is path-independent if and only if the original value is zero |
| Gas.ClearAndRestore | gas/gas.go:90-103 | for a non-zero original, clearing and restoring is cheaper than leaving it alone |
| Machine.Step | interpreter/interpreter.go:40-284 | gas never grows, the counter moves to the next instruction or pays 8 for a valid jump, the stack moves by the Yellow Paper's delta and alpha within 1024, a static frame writes nothing, and while allocations succeed a step panics if and only if it reads an operand below the stack or moves data out of reach |
| Machine.UnderflowIsShort | stack/stack.go:91-94 | a step that panics for its operands has fewer than the instruction takes |
| Machine.ChargedIsInReachIff | memory/memory.go:43-75 | a region that was charged for is out of reach if and only if the request ends beyond 2^63 - 32 and beyond the memory |
| Machine.TopLoadPanics | interpreter/op_memory.go:12-18 | an MLOAD at 2^64 - 33 is granted for nothing and panics |
| Machine.UnchargedCopyPanics | interpreter/interpreter.go:301-317 | a CALLDATACOPY of 5000 bytes to 0 is charged nothing and panics in a short memory |
| Machine.CallStep | interpreter/op_call.go:8-143 | a call costs its parent at least 100 gas, 9100 with value, starts the child at least 100 below the parent with at most 63/64 of the rest, and adds the stipend without overflow |
| Machine.CreateStep | interpreter/op_call.go:164-222 | a creation leaves the parent, and lends the child, at most a 64th of the gas |
| Machine.JumpStep | interpreter/op_memory.go:73-103 | a jump that is taken lands on the low 64 bits of its operand, a marked JUMPDEST, or fails; one not taken goes on to the next instruction |
| Machine.SstoreStep | interpreter/interpreter.go:189-201 | a static SSTORE, or one at 2300 gas or less, fails without effect; one that goes on has paid at least 100 gas and stores its second operand under its first |
| Interpreter.RunFrame | interpreter/interpreter.go:40-284 | every run halts; gas left, instruction count, nesting and program counters are bounded, for all nested runs |
| Interpreter.EveryRunHalts | interpreter/interpreter.go:40-284 | at most (gas / 8 + 1) * len(code) instructions execute in a frame, no gas is created, and k nested calls need 100 * k gas |
| Interpreter.TruncatedPushIsLast | interpreter/op_memory.go:119-128 | a push cut off by the end of the code is the last instruction of its frame |
| Interpreter.CallReturns | interpreter/op_call.go:139-159 | for any reply of the handler a call leaves the parent at least 100 gas poorer |
| Interpreter.CreateReturns | interpreter/op_call.go:207-219 | after a creation that reports no more than it was lent, at most 2 * (gas / 64) is left |
| Interpreter.StepProgress | interpreter/interpreter.go:41-46 | after every step the counter is on an instruction boundary or past the end and the instruction budget has dropped |
| Interpreter.StaticRunIsQuiet | interpreter/interpreter.go:190-319 | a static frame that executes no CALL-family instruction asks nothing of the state, however it ends |
| Interpreter.StaticRunChangesNothing | interpreter/interpreter.go:190-319 | so balances, nonces, code, storage, logs and refund are unchanged |
| Protection.KeepsProtectionIff | interpreter/op_call.go:123-139 | a kind of call starts only frames that store, log, create and destroy nothing if and only if it is STATICCALL |
| Protection.StaticFrameIsOwnQuiet | interpreter/interpreter.go:190-319 | a static frame does nothing itself but place calls, whatever calls it places |
| Protection.CountsDepthIff | evm/evm.go:310-381 | a kind of call counts depth if and only if it is not the plain one |
| Protection.StaticTreeChangesNothing | interpreter/op_call.go:72-143 | the same for a static frame with everything below it, as long as all calls at any depth are STATICCALLs: nothing but the stack of marks changes |
| Protection.StaticCallMovesWei | interpreter/op_call.go:97-119 | a static frame whose own CALL moves 5 wei to an account without code |
| Interpreter.UncheckedOperandCrashes | stack/stack.go:91-94 | ISZERO on an empty stack takes every run down |
| Protection.PlainCallEscapesStatic | evm/evm.go:241-243 | a static frame whose plain CALL starts a callee that stores a word |
| Interpreter.LiveFrame.Run | interpreter/interpreter.go:25-285 | the loop, with the runs it starts, terminates and reports what the run function says |
| Jumpdests.BuildJumpdests | interpreter/frame.go:120-134 | bit i is set exactly when code[i] is JUMPDEST and i is an instruction boundary |
| Jumpdests.Set | interpreter/frame.go:109-111 | setting bit i changes the answer for i and nothing else |
| Jumpdests.NoBoundaryInside | interpreter/frame.go:122-131 | nothing strictly inside an instruction is a boundary |
| ForkDb.LazyAgreesWithEager | evm/forkdb_adapter.go:23-77 | over every disciplined sequence of operations the lazy database reads what a preloaded one reads and stays its unfetched remainder |
| ForkDb.FreshForkAgrees | evm/forkdb_adapter.go:16-19 | in particular a new fork database against an empty one preloaded with the remote data |
| ForkDb.FetchIsInvisible | forkdb/forkdb.go:62-125 | fetching an account changes nothing a read could see |
| ForkDb.FetchSlotIsInvisible | forkdb/forkdb.go:142-196 | fetching a slot changes neither its current nor its committed value as seen by reads |
| ForkDb.RevertCommutes | state/state.go:297-336 | reverting with and without the unfetched data preloaded agrees |
| ForkDb.WrittenSlotAgreesIffFetched | evm/forkdb_adapter.go:47-55 | after a write the current value agrees if and only if the slot was fetched before or the remote value was written, and both it and the committed value if and only if the slot was fetched before or zero was written over a remote zero |
| ForkDb.RemoteValueWrittenUnfetched | evm/forkdb_adapter.go:47-55 | writing the remote value 5 unfetched leaves committed value 0 over the fork, 5 over the preloaded database |
| ForkDb.FailedReadAgreesIff | evm/forkdb_adapter.go:23-29 | a read whose fetch fails agrees if and only if nothing had to be fetched or it would have read as nothing |
| ForkDb.FailedWriteIsLost | evm/forkdb_adapter.go:23-29 | an account write whose fetch fails is overwritten by the next fetch, which shows if and only if it would have changed the remote account |
| ForkDb.SuicideAgreesIffFetched | evm/forkdb_adapter.go:64 | a self-destruct mark survives a later read if and only if the account was fetched before |
| ForkRun.ScriptOverForkAgrees | evm/evm.go:208-308 | every run of every script over the lazy database, whatever is read in between, ends as over the preloaded one; that slots and accounts are loaded in time follows from what SSTORE and SELFDESTRUCT do |
| ForkRun.ExecuteOverForkAgrees | evm/evm.go:115-194 | a transaction over the fork has the same outcome, gas, refund, accounts, logs and committed values as over the preloaded database, and the same storage reads if and only if no deleted account left a non-zero slot unfetched |
| ForkRun.FinaliseAgreesIff | evm/forkdb_adapter.go:76 | Finalise agrees on accounts always, and on storage if and only if no doomed account has an unfetched slot that is non-zero on the remote chain |
| ForkRun.DestroyedSlotComesBack | evm/forkdb_adapter.go:76 | a slot of a created and destroyed account reads 5 over the fork and 0 over the preloaded database |
| ForkChain.TransactionsOverForkAgree | evm/evm.go:115-194 | any number of transactions over the fork have the outcomes, reads, committed values and logs they have over the preloaded database, as long as no deleted account leaves a non-zero slot unfetched |
| ForkChain.ExecuteEquivalent | evm/evm.go:115-194 | no transaction can tell a stored zero from a missing slot |
| ForkDb.ForkDB.EnsureAccount | forkdb/forkdb.go:52-125 | nil exactly when already fetched or the RPC answers; on failure nothing changes |
| ForkDb.ForkDB.EnsureSlot | forkdb/forkdb.go:127-196 | the same for a slot |
| ForkDb.ForkDB.Perform | evm/forkdb_adapter.go:31-77 | each adapter method tries to load first, drops a failure, and then does what the inner database does |
| FetchProtocol.InstalledAtMostOnce | forkdb/forkdb.go:52-67 | under every interleaving each key is installed at most once, a caller that returned nil leaves it installed and marked, and the write lock excludes everyone |
| FetchProtocol.RunKeepsInv | forkdb/forkdb.go:122-153 | the invariant holds throughout, with failed calls and retries, and nothing installed is ever changed |
| FetchProtocol.ActLasts | forkdb/forkdb.go:193-195 | a step never removes a mark or changes installed data |
| FetchProtocol.SomeoneCanMove | forkdb/forkdb.go:52-67 | no deadlock: while a caller is busy some busy caller is not blocked |
| FetchProtocol.UnblockedMoves | forkdb/forkdb.go:127-140 | a busy caller steps exactly when the lock lets it, gets closer to returning and disturbs no other |
| Memory.ChargesCoverMemory | memory/memory.go:27-75 | gas taken by any granted requests is at least 3w + w*w/512 for the memory held, and exactly that when request ends never shrink |
| Memory.RequestChargeIsExactIff | memory/memory.go:27-41 | a request is charged for the words it covers, as in Appendix H of the Yellow Paper, if and only if it ends at or below 2^37 - 32 |
| Memory.ChargeIsExactIff | memory/memory.go:112-114 | the 64-bit charge for a word count is the Yellow Paper's if and only if the count is below 2^32 |
| Memory.GrantedIsCoveredIff | memory/memory.go:56-73 | a granted request is covered by the memory afterwards if and only if it ends at or below 2^63 - 32 or within the memory |
| Memory.TopRequestIsFree | memory/memory.go:31-36 | a request ending at the top of the address space is granted for nothing and grows nothing |
| Memory.Memory.Expand | memory/memory.go:43-75 | growth keeps every byte the memory had, covers the request if and only if it is not too far, and adds zeros with a new buffer or what the old buffer held in place; the zero-initialised byte map is kept if and only if the buffer was replaced or held zeros there, as it does until the first Reset |
| Memory.Memory.Reset | memory/memory.go:18-21 | the buffer stays as it is, and its tail is clean afterwards if and only if it was all zero |
| Memory.ReuseShowsOldByte | memory/memory.go:18-21 | a reused memory reads 1 where nothing was written since Reset |
| Memory.Memory.Set32 | memory/memory.go:77-79 | exactly 32 bytes change, in the memory and in its buffer |
| Memory.Memory.SetByte | memory/memory.go:85-87 | exactly one byte changes, in the memory and in its buffer |
| Memory.Memory.GetCopy | memory/memory.go:96-103 | returns the bytes of the range |
| Stack.SwapTwice | stack/stack.go:70-77 | SwapN undoes itself and permutes |
| Stack.Stack.Push | stack/stack.go:29-36 | push on the sequence or overflow at 1024, touching one array cell |
| Stack.Stack.Pop | stack/stack.go:47-53 | pop or underflow; the word stays in its cell |
| Stack.Stack.SwapN | stack/stack.go:70-77 | swaps top and the n-th below it, or underflow |
| Stack.Stack.DupN | stack/stack.go:79-89 | copies the n-th word to the top, or underflow, or overflow |
| Stack.Stack.PopOperands | interpreter/op_call.go:25-57 | operands popped in a row keep their values |
| Stack.Stack.PushAfterPops | interpreter/op_call.go:155-159 | the next push overwrites the operand popped last and no other |
| Tracer.TreeOfEvents | tracer/tracer.go:47-78 | for every balanced sequence with one outermost call the tree flattens back to the sequence and no call is left open |
| Tracer.EventsOfTree | tracer/tracer.go:47-78 | tracing the events of a tree adds exactly that tree |
| Tracer.OpenChainIsCallStack | tracer/tracer.go:62-77 | at each moment the chain from current is the stack of unmatched enters |
| Tracer.PrefixIsKept | tracer/tracer.go:47-78 | while the outermost call is open the tracer holds exactly the events seen |
| Tracer.CallTracer.OnEnter | tracer/tracer.go:47-68 | the pointer tree with parent links becomes the one with a new open call |
| Tracer.CallTracer.OnExit | tracer/tracer.go:70-78 | the pointer tree becomes the one with the innermost call finished |
| TracedRun.MessageIsTraced | evm/evm.go:237-248 | the events of a message are its forest of announced calls, the tracer ends with the last tree and nothing open, and they are one balanced call if and only if the forest is one tree |
| TracedRun.ForestIsOneCallIff | tracer/tracer.go:47-78 | the events of a forest are balanced with one outermost call if and only if it is one tree |
| TracedRun.CreationForgetsCalls | evm/evm.go:261-308 | a creation whose init code calls twice announces two outermost calls |
| Residue.ScriptGains | state/state.go:363-369 | a run adds exactly the logs and refunds it meets, those of undone frames included |
| Residue.CallLeavesNothingIff | evm/evm.go:330-400 | a call leaves logs and refund counter as they were if and only if nothing in it logged and its refunds add up to a multiple of 2^64 |
| Residue.RevertedCalleeStillCounts | state/state.go:297-336 | a reverted callee's log and refund stay |
| Residue.TransactionRefund | evm/evm.go:166-178 | a transaction settles with the counter it started with plus all refunds it met, and Finalise keeps it |
| Residue.OldRefundIsPaidIff | evm/evm.go:167-177 | earlier refunds change what a transaction is granted if and only if it does not fail, there were some, and the counter is below a fifth of the gas used without them or, wrapped, with them |
| Residue.BorrowedCallMarksIff | evm/evm.go:367-396 | CALLCODE and DELEGATECALL give the stack of marks back if and only if they ran code that did not halt |
| CreateAddress.PreimageDecodes | evm/evm.go:416-439 | the hashed bytes decode to the deployer and nonce, for every 20-byte address and 64-bit nonce |
| CreateAddress.PreimageIsCanonical | evm/evm.go:416-439 | they are the only bytes a strict decoder reads as that pair |
| CreateAddress.PreimageIsInjective | evm/evm.go:416-439 | equal bytes mean equal deployer and nonce |
| CreateAddress.BuildPreimage | evm/evm.go:416-439 | the code's three nonce cases build the RLP of Appendix B |
| CreateAddress.NonceBytes | evm/evm.go:426-435 | the loop yields the shortest big-endian form |
| Blake2b.RoundsUndone | precompile/precompile.go:445-455 | any number of rounds can be undone, for every message |
| Blake2b.RoundsAreInjective | precompile/precompile.go:445-455 | working vectors that end alike began alike |
| Blake2b.HalfUndone | precompile/precompile.go:434-443 | half of the mixing function is undone by subtraction, xor and left rotation |
| Blake2b.CompressionIsRfcF | precompile/precompile.go:403-460 | for at most 12 rounds the function is F of section 3.2 of RFC 7693 with its schedule row taken mod 10 |
| Blake2b.SchedulesAgreeIff | precompile/precompile.go:410-423 | the rows used agree with the RFC for all rounds if and only if there are at most 12 |
| Blake2b.ThirteenRoundsDiffer | precompile/precompile.go:403-460 | with thirteen rounds and one fixed message the function differs from F for every chain value, offset and flag |
| Blake2b.Blake2bF | precompile/precompile.go:403-460 | the in-place round loop computes the specified function |

## Left out

- Blake2b.ThirteenRoundsDiffer: for more than thirteen rounds only the schedule rows are shown to differ (`Blake2b.SchedulesAgreeIff`), not the results.
- Interpreter.LiveFrame.Run: the frame's fields are updated in place, but the stack and memory of a frame are values there; their array forms are in `Stack.dfy` and `Memory.dfy`.
- State.StateDB.Finalise: the storage of an address is one flat map of slots instead of a map per address.
- Evm.RunScript: gas inside nested calls is whatever the script says; that real runs obey the gas rules is the interpreter's part.
- Machine.Answer: the values SSTORE compares and whether an account exists are not tied to the database the script runs on; `Committed.MeteringFollowsCommitted` meters against the database instead.
- TracedRun.MessageIsTraced: the call data of an announced call is not part of the trace.
- Machine.Step: computed words are arbitrary, so arithmetic, hashing, environment reads and the data moved by copies are not modelled.
- Warm address and slot sets, `SubRefund`, `Reset` and `Empty` of the state database.
- The frame pool and the jump destination cache, beyond the depth a pooled frame may carry.
- Access lists and the intrinsic gas computation.
- HTTP, JSON and hex decoding of the fork database; all precompiles but the BLAKE2b rounds.
- The tracer's `enabled` flag, its rendering, and the step tracer.
- Rollback of warm sets, which the code does not do.
