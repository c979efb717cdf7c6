# Thread lifecycle of a small teaching kernel, in Dafny

This project models the thread-record lifecycle of `kernel_threads.c`: the
tid counter `idgen`, and the calls `sys_CreateThread`, `sys_ThreadSelf`,
`sys_ThreadJoin`, `sys_ThreadDetach` and `sys_ThreadExit` as they act on one
process's bookkeeping. That bookkeeping is the list of thread records
(PTCBs) in insertion order, each with its `tid`, `joinable`, `exited`,
`exitval`, `wt_counter` and its link to a TCB, and the process's
`active_threads` counter.

Every call runs under the kernel lock, so each one is a single atomic step.
`sys_ThreadJoin` blocks in its wait loop (lines 138-142), and it is split there:

- `JoinBegin` does the checks and registers the caller as a waiter.
- `JoinFinish` runs once the target has exited. It reads the exit value, unregisters the caller and releases the record when no waiter is left.

Files:

- `records.dfy` (module `Records`) holds the following:
  - the record datatype `Ptcb`;
  - the lookup by tid that the kernel performs by walking the list (`IndexOf`);
  - `rlist_remove` (`Remove`);
  - the count of records whose thread still runs (`Running`);
  - the state `Kernel`, which is the global tid counter, the record list, `active_threads`, and `joining`. `joining` holds the target tid of every joiner that has registered in `sys_ThreadJoin` and not yet left it, once per joiner;
  - the invariant `WellFormed`. It says that tids were issued by the counter and are unique, that `wt_counter` is never negative, that a record is linked to a TCB exactly while it has not exited, and that `active_threads` equals the number of records that have not exited. It also says that, for every tid, the number of registered joiners equals the `wt_counter` of the records carrying that tid (`Waiters`). So no joiner's target can be missing from the list.
- `lifecycle.dfy` (module `Lifecycle`) gives each call as a step function from a `Kernel` state to a new state and a result. It also holds the lemmas about those steps:
  - Each call keeps `WellFormed`.
  - `Later` holds between successive states: the counter only grows, `exited` and the stored `exitval` never change back, `joinable` never becomes true again, and new records carry tids never issued before.
  - The specific promises of each call, and what they promise together.
- `process.dfy` (module `KernelThreads`) is the kernel's imperative form. `TidAllocator` is the static counter of `idgen`. `Process` holds the record list and `active_threads` as fields, and the registered joiners as a ghost field. Its methods walk the list with `while` loops, as the kernel does, and each method is proved to produce exactly the state and result of the matching `Lifecycle` step while keeping `WellFormed`.
- `findings.dfy` (module `DetachFinding`) models the self-detach branch as written, next to the corrected behaviour (see Findings).
- `scenarios.dfy` (module `Scenarios`) is a trace of the calls, evaluated on concrete states by the verifier. A process has threads A and B that exit with 7 and 9. One thread joins A, and two threads join B.

Modelling choices:

- The calling thread's record (`CURTHREAD->owner_ptcb`) is, in `Process`, the position `caller` of that record in the list. The methods that use the caller require a record at that position whose thread has not exited. In the kernel, that is the running thread. The step functions of `Lifecycle` name the caller by that record's tid `me`, which `ThreadSelf` returns.
- Allocation of a record is a boolean parameter, `gotMemory`, which stands for whether `xmalloc` succeeded.
- `free` is removal from the list.
- Process termination (`sys_Exit`) is the result `ProcessExit(status)`. Parking (`kernel_sleep`) is the result `Parked`.
- A process starts with no records and `active_threads` = 0. Its first thread comes from `CreateThread`. Process creation is in kernel_proc.c, which is not part of this model.
- `NOTHREAD` is 0. Its definition is in tinyos.h, which is not part of this model. It only has to differ from every issued tid, and issued tids start at 2.
- The kernel leaves a new record's `exitval` uninitialised. The model sets it to 0. No call reads it before the thread has exited.
- `JoinFinish` requires that the caller is one of the joiners registered on the target, and that the target has exited. That is the condition under which the wait loop ends. `RegisteredJoinerKeepsRecord` proves from the invariant that the record is still in the list and that its `wt_counter` counts the caller. A successful `JoinBegin` adds the registration. Only `JoinFinish` on that tid removes one, and every other call leaves the registrations as they were.

## Model

| member | source | states |
|---|---|---|
| `Records.IndexOf` | kernel_threads.c:120-160 | The list walk finds the first record with the tid. It returns None exactly when no record carries the tid. |
| `Records.Remove` | kernel_threads.c:13-17 | Releasing a record takes exactly that one record out of the list: the list is one shorter and holds the same records less that one. |
| `Records.RemoveLookup` | kernel_threads.c:13-17 | In a list with unique tids, after the removal the removed tid is no longer found. Every other tid still finds the same record, and tids stay unique. |
| `Records.IndexOfAppend` | kernel_threads.c:84-87 | Pushing a record with a new tid at the back keeps every earlier lookup. The new tid is found at the last position. |
| `Records.RunningRemove` | kernel_threads.c:150-153 | Releasing a record lowers the count of running records only if that record had not exited. |
| `Lifecycle.CreateThreadSound` | kernel_threads.c:44-96 | A failed allocation returns NOTHREAD and changes nothing. A success appends exactly one record at the end. The new record has a tid no record had, with `joinable`=1, `exited`=0, `wt_counter`=0 and a TCB link. `active_threads` grows by exactly one, the counter advances, and no other record changes. The invariant is kept. |
| `Lifecycle.JoinBeginSound` | kernel_threads.c:111-137 | Join fails with -1 exactly when the target is the caller, is not in the list, or is not joinable. A failure changes nothing. A success adds one to the target's `wt_counter`, registers the caller as one more joiner of the target, and changes nothing else. The invariant is kept. |
| `Lifecycle.JoinFinishSound` | kernel_threads.c:145-155 | The joiner receives the target's stored `exitval`. `wt_counter` drops by one and the joiner's registration is removed. The record is released exactly when no waiter is left (`wt_counter` was 1). Otherwise it stays with one waiter less. Nothing else changes, and the invariant is kept. |
| `Lifecycle.RegisteredJoinerKeepsRecord` | kernel_threads.c:137-153 | While a joiner is registered on a tid, the record with that tid is still in the list, and its `wt_counter` equals the number of registered joiners, so it is at least 1. No call releases a record that a waiting joiner still holds. |
| `Lifecycle.RemoveSound` | kernel_threads.c:150-153 | Releasing an exited record keeps the invariant and leaves every other record's lookup as it was. |
| `Lifecycle.DetachSound` | kernel_threads.c:167-209 | Self-detach returns 0. Otherwise Detach returns -1 while fewer than two threads are active. Otherwise it returns 0 exactly for a listed record that has not exited, and -1 for anything else. A success clears only the target's `joinable`. A failure changes nothing. Detach never changes `exited`, `exitval` or `wt_counter`. |
| `Lifecycle.ExitSound` | kernel_threads.c:214-239 | Exit stores `exitval`, clears the TCB link and sets `exited` in the caller's own record. `active_threads` drops by exactly one. The process terminates with that `exitval` exactly when no active thread is left, which is exactly when the caller was the last thread still running. Otherwise the thread parks. No other record changes. |
| `Lifecycle.LaterTransitive` | kernel_threads.c:219-221 | The monotonicity relation composes across any number of calls: `exited` and `exitval` never change back, `joinable` never becomes true again, and tids are never reissued. |
| `Lifecycle.JoinDeliversExitValue` | kernel_threads.c:138-145 | Whatever calls follow a thread's Exit with value v, a joiner that finishes on it receives v. |
| `Lifecycle.ReapedStaysGone` | kernel_threads.c:150-153 | Once Join has released a record, its tid is never found again, whatever calls follow. |
| `Lifecycle.IssuedTidsNeverReturn` | kernel_threads.c:23-28 | CreateThread never returns a tid that was issued before, including the tid of a released record. |
| `Lifecycle.JoinUnknownFails` | kernel_threads.c:161 | Join on a tid that is not in the list returns -1 and changes nothing. |
| `Lifecycle.JoinSelfFails` | kernel_threads.c:115-118 | Join on the caller's own tid returns -1 and changes nothing. |
| `Lifecycle.DetachThenJoinFails` | kernel_threads.c:128-132 | After a successful Detach of a tid, whatever calls follow, every Join on that tid returns -1 and changes nothing. |
| `Lifecycle.CreateExitJoin` | kernel_threads.c:111-155 | Another thread creates a thread, the new thread exits with v, and a running thread joins it. The join succeeds and receives v, and it releases the record, so a second Join on that tid fails. |
| `KernelThreads.TidAllocator.constructor` | kernel_threads.c:25 | The counter starts at 2. |
| `KernelThreads.TidAllocator.Generate` | kernel_threads.c:23-28 | `idgen` returns the counter's value and advances it by one, so each tid is larger than every tid before it. |
| `KernelThreads.Process.Find` | kernel_threads.c:120-160 | The loop over the list returns exactly the position `IndexOf` specifies: the first record with the tid, or none. |
| `KernelThreads.Process.ThreadSelf` | kernel_threads.c:101-106 | Returns the tid stored in the caller's own record. Looking that tid up in the list finds exactly the caller's record, at the caller's position, and no other. That is what Join's self-check at line 115 relies on. |
| `KernelThreads.Process.CreateThread` | kernel_threads.c:44-96 | Produces exactly the state and tid of `Lifecycle.CreateThread` and keeps the invariant. |
| `KernelThreads.Process.ReleasePtcb` | kernel_threads.c:13-17 | Removes exactly the record at the given position and leaves `active_threads` alone. |
| `KernelThreads.Process.JoinBegin` | kernel_threads.c:111-137 | Called by the thread whose record is at the given position, it produces exactly the state and result of `Lifecycle.JoinBegin` for that record's tid, and keeps the invariant. |
| `KernelThreads.Process.JoinFinish` | kernel_threads.c:145-155 | Returns 0 and the exit value, produces exactly the state of `Lifecycle.JoinFinish`, and keeps the invariant. |
| `KernelThreads.Process.Detach` | kernel_threads.c:167-209 | Called by the thread whose record is at the given position, it produces exactly the state and result of `Lifecycle.Detach` for that record's tid, and keeps the invariant. The second self-check inside the loop (lines 198-203) is proved unreachable: its branch holds `assert false`, because the self case already returned at line 173. |
| `KernelThreads.Process.Exit` | kernel_threads.c:214-239 | Writes through the caller's own record, not through a lookup. It produces exactly the state and outcome of `Lifecycle.Exit` for that record's tid, and keeps the invariant. |
| `DetachFinding.AsWrittenSelfDetachStaysJoinable` | kernel_threads.c:173-178 | As written, thread 3 detaches itself (0) and exits with 5. Thread 2 then joins it successfully and receives 5. |
| `DetachFinding.SelfDetachedNeverJoined` | kernel_threads.c:173-178 | With the correction, once a thread has detached itself, every later Join on it fails, whatever calls come in between (its own Exit included). |
| `Scenarios.FourCreates` | kernel_threads.c:23-28 | From a process with no threads, four successful CreateThread calls issue tids 2, 3, 4 and 5 in order. |
| `Scenarios.AExits` | kernel_threads.c:219-236 | Thread A exits with 7 while others still run, so it parks. |
| `Scenarios.MainJoinsA` | kernel_threads.c:115-137 | Main's Join on the exited A passes its checks and registers main as A's one waiter. |
| `Scenarios.MainReapsA` | kernel_threads.c:145-155 | Main receives 7, and as the only waiter it releases A's record, whose tid is then no longer found. |
| `Scenarios.TwoWaitOnB` | kernel_threads.c:128-142 | Two threads register on B, and B exits with 9 while both wait. |
| `Scenarios.BothJoinersOfBReceiveNine` | kernel_threads.c:145-155 | Both joiners receive 9. The first leaves the record in place, the second releases it, and a third Join on B fails. |

## Left out

- Scheduler and blocking primitives (`spawn_thread`, `wakeup`, `kernel_wait`, `kernel_broadcast`, `kernel_sleep`): these are foreign calls whose point is concurrency. Blocking appears only as the `JoinBegin`/`JoinFinish` split. Parking and termination appear as the outcome of Exit.
- `start_thread` (lines 31-39) calls the thread's task through a function pointer and passes its return value to Exit. The task is opaque, so that call is simply `Exit` with the task's result.
- A record's task, `argl`, `args`, owning PCB and condition variable are not modelled. No call of the core reads them back.
- The TCB link is a boolean (`running`), not a pointer. The TCB's back-pointer `owner_ptcb` is the position of the caller's record, passed to each call.
- `JoinFinish` finds the target's record again by its tid. The kernel keeps the list node it found before the wait. With unique tids, and the record kept in the list while a joiner is registered, both name the same record.
- `xmalloc` is a success flag, and `free` is removal from the list. Memory itself is not modelled.
- `sys_Exit` is the outcome `ProcessExit(status)`. The teardown of the process is not modelled.
- Logging (`printf`) is not modelled.
- The list is a sequence of records in insertion order. These pointer-level details are not modelled:
  - the circular `rlist` walked with a `!= NULL` test (lines 122 and 185), which in the kernel also visits the sentinel head. On a circular list that test never fails, so as written line 161 and line 208 are never reached. A Join or Detach on a tid that is not in the list does not return -1 in the kernel; it keeps walking the list. The -1 that `Lifecycle.JoinUnknownFails` and `Lifecycle.DetachSound` give for a missing tid is the behaviour those lines evidently intend, and it is the model's choice;
  - the sentinel's `ptcb` field;
  - the `->node->next` step (line 158).
- The counter is an unsigned int cast to `Tid_t`. Its wrap-around is not modelled, and tids are unbounded.
- Interleavings and memory ordering are not modelled. Every call is atomic under the kernel lock.
- Aliasing between records is not modelled. A record is a value in the list, and an update in place is the replacement of that list element.
- `Lifecycle.Detach`: follows the corrected self-detach, which marks the caller's record, not the record reached through the list head (see Findings).

## Findings

| source | as written | input that shows it | evidently intended | confidence | as-written member | corrected member |
|---|---|---|---|---|---|---|
| kernel_threads.c:176 | A self-detach clears `joinable` through `ptcb_list_node`, which at that point is the list's sentinel head (line 171), not the caller's record. The caller stays joinable. | Threads 2 and 3 run. Thread 3 calls ThreadDetach(3), which returns 0, then ThreadExit(5). Thread 2's ThreadJoin(3) succeeds and receives 5. | Clear `joinable` in the caller's own record (`tcb->owner_ptcb`), so that every later Join on it fails. | medium: the sentinel's `ptcb` is set in kernel_proc.c, which is not part of this model, and the model takes it to be none of the process's records; not executed | `DetachFinding.AsWrittenSelfDetachStaysJoinable` | `DetachFinding.SelfDetachedNeverJoined` |
