# boxer: a verified model of the VM pool, controllers, mutexes, configuration and client facade

boxer hands out virtual machines from named groups. A caller allocates a VM
from a group, starts, stops or restores it with shell commands built from
templates, and frees it again. This project models the core of that system in
Dafny and proves properties of the model. The core has six parts:

- **The resource pool** (`vmcompose.dfy`, with `vmcontext.dfy` and
  `vmstate.dfy`). A `VMCompose` owns named groups. Each group keeps a FIFO free
  list of VM contexts and a map of the contexts handed out, keyed by machine
  name. A `uint32` counter caps how many contexts are out across all groups.
  The model proves that the size check the Go code repeats after every
  mutation never fails. It also proves that the counter always equals the
  number of contexts handed out and stays at or below the maximum. Allocation
  takes the head of the free list. Free appends to the back. Construction
  succeeds exactly when every description names a group and no group has two
  descriptions with the same machine name.
- **Two iterations of the VM controller.** `boxer_controller.dfy` is the later
  one (boxer/internal) and `boxerd_controller.dfy` the earlier one
  (boxerd/internal). Each operation checks the VM's state, builds an argv,
  takes the padded mutex, runs the command and maps the result onto the VM's
  state. Pure functions `Start`, `Stop` and `Restore` state what each
  operation returns, which state it leaves, and whether it took the mutex. The
  methods are proved to follow them. The two iterations build the argv
  differently. Joined back with spaces they always give the same command
  line, and they agree outright when no name holds a space. A lemma shows a snapshot
  name with a space on which they disagree.
- **The padded mutex and the cushion** (`padded_mutex.dfy`, `cushion.dfy`).
  Release does not unlock. It arms a timer that unlocks `period` seconds
  later, so no Lock completes sooner than that after a Release. The cushion's
  initialiser never stores its period, so the period is always zero.
- **The configuration validators** (`config.dfy`). These check the reserved
  keywords, the policy fields and the VM descriptions, and report the first
  failure in the Go code's order.
- **The client facade** (`boxer_behavior.dfy`, `boxer_client.dfy`). It keeps
  the contexts it has handed out in a pool keyed by `group:machine`, in front
  of the resource pool and the later controller. The invariant `Tracked` says
  that every context the client tracks is allocated in the resource pool. As
  a result, the client's free is never refused by the pool.
- **Shared vocabulary** (`errors.dfy`, `strings.dfy`, `commands.dfy`). This is
  the error codes, the Go `strings` functions the code relies on (`Contains`,
  `ReplaceAll`, `Split`, `Join`), and how a command run went.

Where the code and its comments or tests disagree, the model follows the code:

- The later `RestoreSnapshot` ends in RUNNING, although its comment and its
  test expect STOPPED.
- The pool's Free reports a name that is not allocated (a double free) as
  InvalidOperation, not InvalidArgument.
- The earlier `StopVM` admits every state from OFFLINE up, ERROR included.

## Model

| member | source | states |
|---|---|---|
| VMStates.String | boxerd/vmstate/state.go:14-31 | A named state gets a name other than "UNKNOWN", and every other value gets "UNKNOWN". |
| VMStates.StringInjective | boxerd/vmstate/state.go:14-31 | No two named states share a name. |
| VMStates.StatesOrdered | boxerd/vmstate/state.go:5-12 | STOPPED < OFFLINE < ONLINE < RUNNING < RESTORING < ERROR. |
| VMStates.BelowOfflineIsStopped | boxerd/vmstate/state.go:5-12 | Among the named states, `s < OFFLINE` holds exactly for STOPPED. |
| VMContexts.VMContext.constructor | boxerd/vmcontroller/vmcontext.go:49-54 | A new context keeps the description, its accessors return the description's fields, and it starts STOPPED. |
| VMContexts.VMContext.SetState | boxerd/vmcontroller/vmcontext.go:44-46 | Afterwards State() is the state just set, and the ghost trace of states set so far gains that state. The description is a `const` field and cannot change. |
| Config.CheckReservedKeyword | boxerd/config/config.go:25-40 | True exactly when the start and stop commands contain `$machine` and the restore command contains both `$machine` and `$snapshot`. |
| Config.SnapshotOnlyNeededForRestore | boxerd/config/config.go:25-40 | For all strings around the keywords: start and stop commands that embed `$machine`, with a restore command that embeds `$machine` and then `$snapshot`, pass the keyword check. The start and stop commands need no `$snapshot`. |
| Config.CommandWithoutDollarFails | boxerd/config/config.go:25-40 | Any configuration in which one of the three commands holds no `$` fails the keyword check. This covers `machine` spelled without the `$`. |
| Config.ValidatePolicy | boxerd/config/config.go:49-72 | Accepted exactly when the interval, timeout and maximum are all nonzero. Otherwise the first zero in that order is reported, always as InvalidConfig. |
| Config.ValidateVMInfo | boxerd/config/config.go:87-131 | An empty name, snapshot, OS, group or IP is reported, in that order. With all fields present, the description is rejected exactly when the IP does not parse. |
| Config.ValidateBoxerConfig | boxerd/config/config.go:142-161 | A keyword failure is reported first. Otherwise a failing VM description is reported with its own cause. The policy's verdict is returned only when every description passes. |
| VMComposition.AddUint32 | boxerd/vmcontroller/vmcompose.go:104 | The sum wraps around at 2^32 and stays a uint32. |
| VMComposition.GroupAllocate | boxerd/vmcontroller/vmcompose.go:189-212 | "nil, no error", with the group untouched, exactly when the free list is empty. Otherwise the head leaves the free list and is recorded as allocated under its machine name. It is the context returned unless the size check fails with InvalidOperation. Name and size never change. |
| VMComposition.GroupFree | boxerd/vmcontroller/vmcompose.go:215-237 | InvalidArgument, with the group untouched, exactly when the name is not allocated. Otherwise the name leaves the allocated map, the context joins the back of the free list, and the answer is Pass or the size-check InvalidOperation. Name and size never change. |
| VMComposition.AllocateKeepsGroup | boxerd/vmcontroller/vmcompose.go:189-212 | An empty free list gives nil without error and changes nothing. Otherwise the head of the free list is handed out and recorded under its name, and the rest keeps its order. The size-mismatch error at line 202 is never returned, and the group's bookkeeping still holds. |
| VMComposition.FreeKeepsGroup | boxerd/vmcontroller/vmcompose.go:215-237 | A name that is not allocated is refused with InvalidArgument and changes nothing. Otherwise the name leaves the allocated map and the context joins the back of the free list. The size-mismatch error at line 229 is never returned. |
| VMComposition.AllocateThenFreeRotates | boxerd/vmcontroller/vmcompose.go:189-237 | Freeing the context just allocated restores the allocated map and moves that context from the front of the free list to its back (FIFO reuse). |
| VMComposition.GroupAppend | boxerd/vmcontroller/vmcompose.go:240-273 | A name already allocated or already in the free list is refused with InvalidArgument and leaves the group as it was. Otherwise a fresh STOPPED context joins the back of the free list and the size grows by one. On a group that keeps its bookkeeping, the size-mismatch error at line 265 is never returned and the bookkeeping still holds. |
| VMComposition.NewVMGroup | boxerd/vmcontroller/vmcompose.go:151-185 | An empty group name, or a description of another group, gives InvalidArgument. An empty list gives InvalidOperation. Otherwise there is one fresh STOPPED context per description, in order, with nothing allocated. The group's bookkeeping holds exactly when the names are distinct. |
| VMComposition.ComposeAllocateStep | boxerd/vmcontroller/vmcompose.go:75-106 | Allocating from a group below the maximum keeps the pool invariant with the counter one higher (the increment never wraps). |
| VMComposition.ComposeFreeStep | boxerd/vmcontroller/vmcompose.go:112-134 | Freeing an allocated context keeps the pool invariant with the counter one lower (the decrement never wraps). A name that is not allocated is refused. |
| VMComposition.VMCompose.constructor | boxerd/vmcontroller/vmcompose.go:37-39 | The maximum is the policy's value truncated to uint32, and the counter starts at zero. |
| VMComposition.VMCompose.AllocateVMContext | boxerd/vmcontroller/vmcompose.go:75-106 | An unknown group gives InvalidArgument. A counter at the maximum, checked before the free list, gives nil without error. So does an empty free list. Otherwise the head of the group's free list is returned and the counter goes up by one. Nothing changes on the other paths, and the invariant is kept. |
| VMComposition.VMCompose.FreeVMContext | boxerd/vmcontroller/vmcompose.go:112-134 | An unknown group gives InvalidArgument. A name that is not allocated (a double free) gives InvalidOperation and nothing changes. Otherwise the group frees the context and the counter goes down by one. |
| VMComposition.DuplicateBreaksWellFormed | boxerd/vmcontroller/vmcompose.go:240-258 | A description whose machine name is already in its group's free list means the descriptions are not well formed. |
| VMComposition.PlaceDescription | boxerd/vmcontroller/vmcompose.go:43-66 | One loop step: the description joins its existing group or starts a new one. It fails, with InvalidOperation, only when the descriptions are not well formed. |
| VMComposition.NewVMCompose | boxerd/vmcontroller/vmcompose.go:28-69 | A missing policy gives InvalidArgument. With a policy, the result is a pool exactly when every description names a group and no group has a repeated machine name, whatever the map order. Otherwise the error is InvalidOperation. The pool has one group per group name, each holding exactly its descriptions in the free list with nothing allocated. The counter is zero and the maximum is the policy's value truncated to uint32. |
| PaddedMutexes.PaddedMutex.constructor | boxer/internal/vmcontroller/exec/mutex.go:20-27 | Stores the period and clears both flags. The underlying mutex is free. |
| PaddedMutexes.PaddedMutex.Lock | boxer/internal/vmcontroller/exec/mutex.go:29-33 | Enabled only when the underlying mutex is free. It then holds it and sets IsLocked. It completes at least `period` after the previous Release. |
| PaddedMutexes.PaddedMutex.Release | boxer/internal/vmcontroller/exec/mutex.go:35-52 | Refused with InvalidOperation, and changes nothing, when not locked or when a release is already pending. Otherwise it only sets IsWaiting and arms the timer `period` from now. The mutex stays held. |
| PaddedMutexes.PaddedMutex.TimerFire | boxer/internal/vmcontroller/exec/mutex.go:54-63 | Once the period has passed, it unlocks the underlying mutex and clears both flags. |
| PaddedMutexes.PaddedMutex.AwaitLock | boxer/internal/vmcontroller/exec/mutex.go:29-63 | A Lock issued while a release is pending waits for the timer. It acquires the mutex no sooner than `period` after the previous Release. |
| PaddedMutexes.PaddedMutex.Tick | boxer/internal/vmcontroller/exec/mutex.go:56 | Time passes and nothing else changes. |
| Cushions.Cushion.constructor | boxerd/exec/mutex.go:19-25 | The period is zero whatever is passed, and both flags are clear. |
| Cushions.Cushion.Lock | boxerd/exec/mutex.go:27-31 | Enabled only when the underlying mutex is free. It then holds it and sets IsLocked. |
| Cushions.Cushion.Release | boxerd/exec/mutex.go:33-50 | Refused with InvalidOperation, and changes nothing, before a Lock or while a release is pending. Otherwise it sets IsWaiting with the timer due immediately. The mutex stays held. |
| Cushions.Cushion.TimerFire | boxerd/exec/mutex.go:52-61 | Unlocks the underlying mutex and clears both flags. |
| Cushions.Cushion.ReleaseThenLock | boxerd/exec/mutex.go:19-61 | A Release followed by a Lock, as in the cushion's tests, succeeds with the Lock completing at the same instant as the Release. |
| Cushions.Cushion.Tick | boxerd/exec/mutex.go:54 | Time passes and nothing else changes. |
| BoxerVMController.ReplaceReservedKeyword | boxer/internal/vmcontroller/vmcontroller.go:57-73 | The argv is empty exactly for a nil context or an empty command. Otherwise it has one element per space of the command plus one. |
| BoxerVMController.Start | boxer/internal/vmcontroller/vmcontroller.go:78-134 | Takes the mutex exactly when the VM is STOPPED and the argv is non-empty. Otherwise it leaves the state with InvalidState or InvalidArgument. Once locked, it passes exactly when the command exits with 0, ending RUNNING. A failure is a SystemError that sets ERROR, except a launch failure, which keeps the state. |
| BoxerVMController.Stop | boxer/internal/vmcontroller/vmcontroller.go:139-196 | Takes the mutex exactly when the VM is RUNNING and the argv is non-empty. Otherwise it leaves the state with InvalidState or InvalidArgument. Once locked, it passes exactly when the command exits with 0, ending STOPPED. Every failure is a SystemError that sets ERROR. |
| BoxerVMController.Restore | boxer/internal/vmcontroller/vmcontroller.go:201-260 | Takes the mutex exactly when the VM is STOPPED and the argv is non-empty. Otherwise it leaves the state with InvalidState or InvalidArgument. Once locked, it passes exactly when the command exits with 0, ending RUNNING. Every failure is a SystemError that sets ERROR. |
| BoxerVMController.ArgvRejoined | boxer/internal/vmcontroller/vmcontroller.go:57-73 | Joined back with single spaces, the argv is the whole command with `$machine` and then `$snapshot` substituted, whatever the names hold. Substituting piece by piece therefore loses nothing. |
| BoxerVMController.ErrorIsAbsorbing | boxer/internal/vmcontroller/vmcontroller.go:79-85 | Every operation refuses a VM in ERROR with InvalidState and leaves it in ERROR. |
| BoxerVMController.OperationsKeepSettled | boxer/internal/vmcontroller/vmcontroller.go:78-260 | Between operations a VM is only ever STOPPED, RUNNING or ERROR. |
| BoxerVMController.VMController.constructor | boxer/internal/vmcontroller/vmcontroller.go:40-53 | Keeps the command templates and creates a free padded mutex whose period is the policy's interval. |
| BoxerVMController.VMController.Acquire | boxer/internal/vmcontroller/vmcontroller.go:98 | Takes the mutex at least `period` after the previous release. |
| BoxerVMController.VMController.Relinquish | boxer/internal/vmcontroller/vmcontroller.go:99 | The deferred Release after a Lock is always accepted. |
| BoxerVMController.VMController.StartVM | boxer/internal/vmcontroller/vmcontroller.go:78-134 | Result and new state are `Start`'s. The mutex is locked and released exactly once when the guards pass. On a refusal, neither the mutex nor the context changes. The command runs at least `period` after the previous release. Once locked, the only state set is the final one, and a launch failure sets none. |
| BoxerVMController.VMController.StopVM | boxer/internal/vmcontroller/vmcontroller.go:139-196 | Result and new state are `Stop`'s, with the same mutex discipline, and the context is untouched on a refusal. Once locked, exactly one state is set, the final one. |
| BoxerVMController.VMController.RestoreSnapshot | boxer/internal/vmcontroller/vmcontroller.go:201-260 | Result and new state are `Restore`'s, with the same mutex discipline, and the context is untouched on a refusal. A launch failure sets only ERROR. Once the command is launched, the states set are exactly RESTORING and then the final state. |
| BoxerdVMController.ReplaceReservedKeyword | boxerd/internal/vmcontroller/vmcontroller.go:56-62 | The argv always has at least one element, so the empty-argv InvalidArgument branches are unreachable. No argument holds a space, even where a substituted name did. |
| BoxerdVMController.Start | boxerd/internal/vmcontroller/vmcontroller.go:67-123 | Takes the mutex exactly when the VM is STOPPED and the argv is non-empty. Otherwise it leaves the state with InvalidState or InvalidArgument. Once locked, it passes exactly when the command exits with 0, ending OFFLINE. A failure is a SystemError that sets ERROR, except a launch failure, which keeps the state. |
| BoxerdVMController.Stop | boxerd/internal/vmcontroller/vmcontroller.go:128-176 | Takes the mutex exactly when the state is OFFLINE or above and the argv is non-empty. Otherwise it leaves the state with InvalidState or InvalidArgument. Once locked, it passes exactly when the command exits with 0, ending STOPPED. Every failure is a SystemError that keeps the state. |
| BoxerdVMController.Restore | boxerd/internal/vmcontroller/vmcontroller.go:181-231 | Takes the mutex exactly when the VM is STOPPED and the argv is non-empty. Otherwise it leaves the state with InvalidState or InvalidArgument. Once locked, it passes exactly when the command exits with 0, ending STOPPED. A failure is a SystemError that leaves RESTORING, except a launch failure, which keeps the state. |
| BoxerdVMController.IterationsAgreeWithoutSpaces | boxerd/internal/vmcontroller/vmcontroller.go:56-62 | For a non-empty command and names without spaces, the earlier and the later iteration build the same argv. |
| BoxerdVMController.IterationsJoinAlike | boxerd/internal/vmcontroller/vmcontroller.go:56-62 | For every command and whatever the names hold, the argvs of the two iterations join back with spaces to the same command line. They differ only in where the line is cut into arguments. |
| BoxerdVMController.IterationsDifferOnSpacedSnapshot | boxerd/internal/vmcontroller/vmcontroller.go:56-62 | For the command `$snapshot` and a snapshot name with one space, the earlier iteration gives two arguments and the later one a single argument. |
| BoxerdVMController.KeywordAlone | boxerd/internal/vmcontroller/vmcontroller.go:58-61 | In the command `$snapshot`, `$machine` does not occur, splitting leaves it whole, and substitution replaces it whole. |
| BoxerdVMController.StopGuard | boxerd/internal/vmcontroller/vmcontroller.go:129-135 | Among the named states, Stop refuses only STOPPED. |
| BoxerdVMController.LockedIffStateGuardPasses | boxerd/internal/vmcontroller/vmcontroller.go:67-88 | An operation takes the mutex exactly when its state guard passes, because the argv guard never refuses. A refused operation returns InvalidState and leaves the state alone. |
| BoxerdVMController.StopRecoversFromError | boxerd/internal/vmcontroller/vmcontroller.go:128-176 | A VM in ERROR is refused by Start and Restore, brought back to STOPPED by a Stop whose command succeeds, and left in ERROR otherwise. |
| BoxerdVMController.OperationsKeepReachable | boxerd/internal/vmcontroller/vmcontroller.go:67-231 | Between operations a VM is only ever STOPPED, OFFLINE, RESTORING or ERROR. |
| BoxerdVMController.VMController.constructor | boxerd/internal/vmcontroller/vmcontroller.go:39-52 | Keeps the command templates and creates a free padded mutex whose period is the policy's interval. |
| BoxerdVMController.VMController.Acquire | boxerd/internal/vmcontroller/vmcontroller.go:87 | Takes the mutex at least `period` after the previous release. |
| BoxerdVMController.VMController.Relinquish | boxerd/internal/vmcontroller/vmcontroller.go:88 | The deferred Release after a Lock is always accepted. |
| BoxerdVMController.VMController.StartVM | boxerd/internal/vmcontroller/vmcontroller.go:67-123 | Result and new state are `Start`'s: success ends OFFLINE and a launch failure keeps the state. The mutex is taken and released once exactly when the guard passes, and the context is untouched on a refusal. Once locked, the only state set is the final one, and a launch failure sets none. |
| BoxerdVMController.VMController.StopVM | boxerd/internal/vmcontroller/vmcontroller.go:128-176 | Result and new state are `Stop`'s: every failure keeps the state and success ends STOPPED. Same mutex discipline. The only state ever set is STOPPED, on success. |
| BoxerdVMController.VMController.RestoreSnapshot | boxerd/internal/vmcontroller/vmcontroller.go:181-231 | Result and new state are `Restore`'s: a failure after launch leaves RESTORING and success ends STOPPED. A launch failure sets no state. Once the command is launched, the states set are RESTORING and, after a success only, STOPPED. Same mutex discipline, and the context is untouched on a refusal. |
| BoxerBehavior.OpString | boxer/boxerclient/boxerbehavior.go:21-32 | A named operation gets a name other than "UNKNOWN", and every other value gets "UNKNOWN". |
| BoxerBehavior.OpStringInjective | boxer/boxerclient/boxerbehavior.go:11-32 | No two named operations share a name. |
| BoxerBehavior.CodeString | boxer/boxerclient/boxerbehavior.go:47-64 | A named return code gets a name other than "UNKNOWN", and every other value gets "UNKNOWN". |
| BoxerBehavior.NewBox | boxer/boxerclient/boxerbehavior.go:113-121 | The box carries the context's group, machine name, IP, OS and current state. |
| BoxerBehavior.CodeStringInjective | boxer/boxerclient/boxerbehavior.go:37-64 | No two named return codes share a name. |
| BoxerClients.GenerateContextPoolKey | boxer/boxerclient/boxerclient.go:66-69 | The key is the group name, then one ':', then the machine name. |
| BoxerClients.KeyParts | boxer/boxerclient/boxerclient.go:66-69 | With a group name free of ':', the key's first ':'-piece is the group and the rest after it is the machine name. |
| BoxerClients.KeyInjective | boxer/boxerclient/boxerclient.go:66-69 | For group names free of ':', two pairs share a key exactly when they are equal. |
| BoxerClients.KeyCollision | boxer/boxerclient/boxerclient.go:66-69 | A ':' can move between the group and the machine name without changing the key. |
| BoxerClients.Dispatch | boxer/boxerclient/boxerclient.go:182-192 | An operation other than STOP, START or RESTORE calls nothing and succeeds with the state unchanged. The state changes only through a controller call that took the mutex. |
| BoxerClients.TrackedAllocate | boxer/boxerclient/boxerclient.go:83-112 | Allocating keeps every tracked context allocated. The context handed out belongs to the requested group and can be tracked under its key. |
| BoxerClients.TrackedFree | boxer/boxerclient/boxerclient.go:128-145 | A tracked context is allocated in its group, so the pool accepts its free. Dropping its key keeps every other tracked context allocated. |
| BoxerClients.NoDuplicateWithoutColons | boxer/boxerclient/boxerclient.go:103-110 | When no group name holds a ':', the context a group hands out is never already tracked. |
| BoxerClients.BoxerClient.constructor | boxer/boxerclient/boxerclient.go:47-51 | The client starts with an empty context pool. |
| BoxerClients.BoxerClient.Balloc | boxer/boxerclient/boxerclient.go:74-115 | An empty group gives InvalidArgument and nothing is asked of the pool. A pool error gives InternalError and a nil context gives Full. An already tracked key gives InternalError with the pool's allocation left in place. Otherwise exactly the key `group:machine` is added and the box mirrors the context. |
| BoxerClients.BoxerClient.Bfree | boxer/boxerclient/boxerclient.go:119-147 | A nil box gives InvalidArgument. An untracked key gives InternalError without asking the pool. Otherwise the pool frees the context and the key is removed. |
| BoxerClients.BoxerClient.Operate | boxer/boxerclient/boxerclient.go:182-192 | The controller call for the operation, following `Dispatch`. |
| BoxerClients.BoxerClient.Do | boxer/boxerclient/boxerclient.go:152-208 | A nil box gives INVALID_REQUEST with InvalidArgument. An untracked box gives NOT_FOUND with InvalidState. Otherwise the operation is dispatched. A controller error gives INTERNAL_ERROR with InternalError, and success gives SUCCESS. The returned box is made after the operation. |

## Left out

- Running commands (`exec.Run`, `Promise.Wait`, cancellation) is not part of this model. How a run went is an input, `CommandRun`, and stdin/stdout file descriptors are not modelled.
- Goroutines, `time.Sleep` and blocking are modelled as a sequential logical clock. `Lock` is enabled only when the underlying mutex is free, and the timer is one atomic `TimerFire` step. The window inside `timerThread` between the unlock and the clearing of `IsLocked` is not modelled. Neither is the time a command takes: the clock advances only while a Lock waits for the timer.
- The atomics of the pool's counter, and the non-atomic check-then-increment in `AllocateVMContext`, are modelled as a plain field with sequential operations. The 32-bit wrap-around is written out.
- The groups of the pool are values owned by the `VMCompose` and not separate objects. No pointer to a group leaves the pool, so the only thing this loses is the identity of the group object.
- Go map iteration order in `NewVMCompose` and `BoxerConfig.Validate` is left unspecified. The results are proved for every order.
- `net.ParseIP` is a predicate passed to the validator.
- Error messages and the wrapped error chain are left out. Only error codes are modelled. `Full` belongs to the client's copy of the error package, which is not part of this model.
- A nil context passed to `StartVM`, `StopVM` or `RestoreSnapshot` would panic. Contexts here are never nil.
- boxerd/internal/vmcontroller/exec/mutex.go is not part of this model. The earlier controller uses the padded mutex of the later one.
- The boxer copies of the pool, the configuration and the states are not part of this model. The client uses the boxerd pool and the later controller.
- `NewVMController` and `NewBoxerClient` wiring with `*os.File`, the nil-configuration check of `NewBoxerClient` and the `NewVMCompose` call inside it are left out. The client is built from an existing pool and controller. `TimeoutSec` is never enforced by the code and is not modelled.
- boxerd/compose/compose.go holds a struct with no behaviour and is not modelled.
- The `int32` flags `IsLocked` and `IsWaiting` are booleans.
- A Go panic with a BoxerError in `PaddedMutex.Release` and `Cushion.Release` (a release without a lock, or a second release) is modelled as a returned `Fail(InvalidOperation)` that changes nothing. Unwinding is not modelled. The controllers never reach that path, because their deferred Release always follows their own Lock (`Relinquish`).
- BoxerClients.BoxerClient.Bfree: the branch where the pool refuses the free, which keeps the key, is present but proved unreachable under `Valid()`, so the contract states no outcome for it.

## Findings

| source | as written | input that shows it | evidently intended | confidence | as-written member | corrected member |
|---|---|---|---|---|---|---|
| boxerd/exec/mutex.go:19-25 | `InitCushion` never stores its period argument, so the timer fires at once and a Lock after a Release does not wait. | `InitCushion(5)`, then Lock, Release, Lock: the second Lock completes at the instant of the Release, while boxerd/exec/mutex_test.go:12-25 expects at least 5 seconds. | Store the period, as `InitPaddedMutex` does, so that no Lock completes sooner than `period` after a Release. | not executed; high | Cushions.Cushion.ReleaseThenLock | PaddedMutexes.PaddedMutex.AwaitLock |
