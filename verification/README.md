# A verified model of the uprobes test suite

The repository tests user-space probes (uprobes) of Linux. Each test pairs a kernel module with a
user program, and the two of them follow small protocols: they count hits against each other, they
register and remove probes while handlers run, and they compare logs. This project models those
protocols in Dafny and proves what the tests rely on. The kernel is an environment that may choose
freely within the assumptions listed below.

Check everything with `dafny verify dfyconfig.toml`.

## Files

| file | models |
|---|---|
| `Words.dfy`, `Sums.dfy` | 32-bit words with wrap-around; sums over sequences |
| `Handshake.dfy` | the two counters of a slot: `probe_handler` (include/u_mod_common.h) and `probe_N` (include/u_test_common.h) |
| `Workers.dfy`, `Uthread.dfy`, `LostUpdate.dfy` | threads over private tables and one shared counter (uprobes.w/uthread.c), with an atomic or a split `num_probes++` |
| `Unreg.dfy` | the thread functions as written, and the alternating rounds of uprobes.w/unreg.c |
| `ForkThread.dfy`, `ForkThreadRuns.dfy` | fork, process-wide `wait` and join of uprobes.w/fork_thread.c |
| `PongWa7*.dfy` | deferred registrations and teardown of uprobes.existing/pong_wa7.c: the transition system, safety, termination, alternation, and the code as written |
| `Pong.dfy`, `Blink.dfy` | uprobes.existing/pong.c, blink.c and blink2.c |
| `Symbols.dfy`, `Kunreg.dfy`, `Ksuicide.dfy` | the symbol cursor, the registration table and the second consumer |
| `Suicide.dfy` | the run of uprobes.w/suicide.c over that second consumer |
| `SharedLog.dfy` | the shared print buffer of include/udbgfs.c with concurrent readers |
| `LogDiff.dfy` | the log comparison of lib/uprobes.exp |

Code that updates state is modelled by classes and methods with loops, and each method is tied to a
function or a transition system about which the lemmas speak. Concurrent code is a transition
system whose steps make at most one shared access, under sequential consistency.

## Environment assumptions

- Words: `ulong` and `pid_t` have the same 32 bits, as on i386. `probe_handler` stores the thread
  id through a `ulong` pointer (include/u_mod_common.h:132-133), which on other layouts would
  overlap the next field.
- Handlers of a hit run in the thread that hit the probe, before the probed function's first
  instruction. User accesses by `get_user` and `put_user` succeed.
- pong_wa7.c: the probee is single-threaded. An operation that a handler requested completes after
  that handler has returned and before the next hit, in any order; its callback then runs exactly
  once and concurrently with everything else. A refused registration has no callback; an
  unregistration is always accepted; a synchronous operation has no callback. `wait_event` is
  enqueue, test, sleep, and again after a wake-up. An unregistration called by `cleanup_module`
  does not wait for a handler that is still running.
- pong.c, blink.c, blink2.c: operations requested by handlers take effect before the next hit. The
  consumers of one hit run in the order of registration, in blink.c and in ksuicide.c.
- ksuicide.c: `do_exit` ends the thread that runs it, inside the handlers, and no other thread.
- fork_thread.c: each `fork` succeeds, children exit normally, and a slot is private to its thread
  or child process.
- The kernel's registry: an accepted registration adds a consumer to a probe point, and removing an
  absent entry changes nothing.
- udbgfs.c: the spinlock excludes other writers; readers take no lock.

## Findings

- pong_wa7.c as written tests `cleaning_up` (line 109) and increments `pending_regs` (line 111) in
  two steps. `CleanRemovalExactly` gives the exact condition under which the module still removes
  itself cleanly, and `LeakedProbe` is a run that unloads it and leaves the return probe registered.
  With the two steps made one, `TeardownExact` holds without condition.
- fork_thread.c can only pass up to 2^30 iterations (`TooManyIterationsNeverPass`): afterwards the
  counter of a slot no longer fits the `int` verdict.
- kunreg.c has no check of its table's size. `unregister_all` reads one entry past the count, which
  leaves the table exactly when all 100 entries are in use, and `register_all` stores behind it
  exactly when more than 100 visits are accepted (`Table.UnregisterAll`, `Table.RegisterAll`,
  `OutsideExactly`); `FullTable` is such a table.
- ksuicide.c: the thread that hits `_probe_9` dies before its user function counts the call. The
  counting consumer, registered first, has counted it, so the slot's counters stay apart
  (`VictimDiesOnce`); in the other order they would agree (`VictimInAnyOrder`).
- udbgfs.c: a message that does not leave room for its terminating NUL is cut, while the byte count
  advances by its full length (`PrintExact`; `CutMessage` is such a message).
- lib/uprobes.exp: the scan does not stop when the actual lines run out. If expected lines remain,
  it reads an element of `results` that was never set, which is an error of the script. The model
  follows the code: `VerdictExact` has three outcomes, and `ExpectedLineTooMany` is a pair of logs
  with the third one.
- blink.c and blink2.c agree while no registration is refused. `AgreeExactly` says when they part.
- The checked-in log uprobes.w/kunreg ends with 11 handler runs (line 31), which is the value that
  `UniformRuns` gives for one thread and one round in which probes remained in the second phase.
  The 145 of uprobes.w/ksuicide (line 12) is `CheckedInTotal`: five threads and four iterations.

## Model

| member | source | states |
|---|---|---|
| Handshake.KernelModule.ProbeHandler | include/u_mod_common.h:112-172 | one handler run changes only the slot of the hit: thread id, counter plus one, and on the first hit the user's counter back to -1; `num_probes` grows by one modulo the word; the id check fires exactly on a foreign slot |
| Handshake.KernelModule.Trap | include/u_mod_common.h:112-172 | any number of counting consumers on one hit: the slot has been handled that many times, `num_probes` has grown by that many, and the id check has not fired |
| Handshake.KernelModule.Probe | include/u_test_common.h:30-64 | the wrapper reports a wrong thread exactly for a slot claimed by another one and then changes nothing; otherwise one call has been counted on that slot alone and its verdict is returned |
| Handshake.BuildProbeTable | include/u_test_common.h:79-87 | every slot starts unclaimed with both counters at -1 |
| Handshake.AfterCallForm | include/u_test_common.h:30-64 | one call below the wrap: a first hit restarts the user's counter at 0, later calls advance the two counters independently |
| Handshake.CallsForm | include/u_mod_common.h:149-168 | both counters after any schedule of calls and consumers: handler runs minus one, and calls since the first hit minus one |
| Handshake.VerdictExact | include/u_test_common.h:35-53 | the exact verdict of the last call for every schedule below the counter wrap, over any number of consumers per call |
| Handshake.HitMissVerdict | include/u_test_common.h:22-53 | with at most one consumer and up to 2^31 calls: -1 before any hit, -2 when a call missed after a hit, hits minus one otherwise |
| Handshake.ConsumerMultiplicity | include/u_test_common.h:35-53 | with the same number of counting consumers on every call the verdict is non-negative exactly when that number is one |
| Handshake.AllHit | include/u_test_common.h:26-53 | an all-hit run keeps the two counters equal for ever, across wraps of the word |
| Handshake.AllMiss | include/u_test_common.h:23-53 | a run without hits reports -1 for ever |
| Workers.RunKeeps | uprobes.w/uthread.c:21-44 | in every interleaving each thread's private state is that of a lone thread at the same point, no id mismatch occurs, and with atomic increments `num_probes` is exactly the completed handler runs modulo the word |
| Workers.NextKeepsCounter | include/u_mod_common.h:170 | with an atomic increment every step keeps `num_probes` equal to the completed handler runs modulo the word |
| Uthread.VerdictForm | uprobes.w/uthread.c:30-41 | call n of a thread reports its slot's n/10+1 identical calls |
| Uthread.FirstPass | uprobes.w/uthread.c:30-41 | the first pass returns -1, 0 or -2 for a point with no, one or several counting consumers |
| Uthread.FinishedForm | uprobes.w/uthread.c:30-43 | a finished thread's result and its handler runs, decided by the first unexpected probe point |
| Uthread.SchedulesEnd | uprobes.w/uthread.c:21-44 | no interleaving is longer than the work there is |
| Uthread.CanComplete | uprobes.w/uthread.c:21-44 | from every reachable state all threads can finish; no thread blocks another |
| Uthread.WholeRun | uprobes.w/uthread.c:59-75 | any consumers, any number of threads, any interleaving: no thread aborts, all results agree with the closed form, and the counter grew by everyone's handler runs modulo the word |
| Uthread.IdsAlwaysAgree | include/u_mod_common.h:136-145 | in every interleaving, with split increments too, every handler finds the id of the thread that hit the probe in the slot |
| Uthread.Join | uprobes.w/uthread.c:71 | one join: threads run on in any way until the awaited one has returned, and those already joined stay as they were |
| Uthread.CreateAndJoin | uprobes.w/uthread.c:59-76 | the loop passes exactly when every thread returned 0, and leaves at the first one that did not, while later ones may still run |
| Uthread.CompletedBound | uprobes.w/uthread.c:21-44 | a thread at any point of its run has run at most as many handlers as it will have run in the end |
| Uthread.RunsWhenFailed | uprobes.w/uthread.c:69-76 | when the join loop gives up, the handler runs made so far lie between one thread's share and T times that, so they are exact for one thread |
| Uthread.RunPhase | uprobes.w/uthread.c:59-77 | create, run in any interleaving, join: passes exactly when the closed-form result is 0; the counter has grown by all threads' handler runs on a pass, and otherwise by at least one thread's and at most all threads' runs |
| Uthread.UthreadMain | uprobes.w/uthread.c:47-78 | `main` passes exactly with one counting consumer on each point, and has then counted 10*niter*T runs modulo the word; on a FAIL it has counted at least the runs of the joined thread and at most T times as many |
| Uthread.UthreadPasses | uprobes.w/uthread.c:59-77 | one counting handler per point: all threads return 0, the wrong-thread branch is never taken, and `num_probes` is 10*T*niter modulo 2^32 |
| Uthread.UthreadPassesOnlyIf | uprobes.w/uthread.c:59-77 | `main` passes exactly when every point has exactly one counting consumer |
| LostUpdate.NeverTooHigh | include/u_mod_common.h:110-170 | with a split increment the counter never exceeds the completed handler runs |
| LostUpdate.AtLeastTwo | include/u_mod_common.h:110-170 | without wrap the counter is at least 2 once every thread has completed two increments |
| LostUpdate.CanEndAtTwo | include/u_mod_common.h:110-170 | any number of threads from two up and any iteration count have an interleaving that ends with the counter at exactly 2, so the bound is sharp |
| Unreg.Iteration | uprobes.w/uthread.c:31-40 | the ten calls of one iteration are the next ten calls of a lone thread, or the thread has its final result |
| Unreg.Thread1 | uprobes.w/uthread.c:21-44 | the thread function as written returns the closed-form result and runs the closed-form number of handlers |
| Unreg.Thread2 | uprobes.w/unreg.c:41-60 | likewise for the silent thread, which returns any verdict but -1 |
| Unreg.RegisteredOutcome | uprobes.w/unreg.c:21-39 | the first phase's threads pass exactly when one counting handler sits on every point, and then run ten handlers each |
| Unreg.UnregisteredOutcome | uprobes.w/unreg.c:41-60 | the second phase's threads pass exactly when the lowest remaining point has one consumer or none remains, and then run one handler or none |
| Unreg.RunRound | uprobes.w/unreg.c:93-136 | a round passes exactly when both phases look as they should, each with its own new threads; a failed round has counted what the failing phase ran, after all of the first phase if that passed |
| Unreg.UnregMain | uprobes.w/unreg.c:92-138 | `main` fails at the first round that does not pass; the counter is the handler runs of all passed rounds plus what the failed one ran; every phase has its own thread ids |
| Unreg.UniformRuns | uprobes.w/unreg.c:92-138 | per thread and round 10 handler runs when unregistration left nothing, 11 when it left any point |
| ForkThread.CallAfterHits | uprobes.w/fork_thread.c:48-50 | a parent's next call after n hits: a hit returns n, a miss a negative verdict |
| ForkThread.CallAfterMisses | uprobes.w/fork_thread.c:79-81 | a child's next call after n misses: -1, or 0 at the first hit |
| ForkThread.WaiterHasChild | uprobes.w/fork_thread.c:52-53 | a thread in `wait` always has an unreaped child of the process, whoever forked it |
| ForkThread.StepKeepsInv | uprobes.w/fork_thread.c:25-119 | every step keeps the matching of waits and reaped children, the recorded misses and hits, the join position and the counter |
| ForkThreadRuns.WaitsNeverFail | uprobes.w/fork_thread.c:36-64 | no `wait` of any run fails for lack of a child, none can fail next, and no call of the run finds its slot claimed by another thread |
| ForkThreadRuns.WaitsReapDistinctChildren | uprobes.w/fork_thread.c:52-64 | different threads reap different children and get that child's own status |
| ForkThreadRuns.FlagsRecordCalls | uprobes.w/fork_thread.c:48-81 | the recorded misses and child hits are exactly those of the calls that the run makes |
| ForkThreadRuns.CounterCountsHits | include/u_mod_common.h:170 | so from any state, added to what was there before |
| ForkThreadRuns.NumProbesIsHits | include/u_mod_common.h:170 | in every run from the launch, whatever went wrong, `num_probes` is the number of the run's calls that hit, of threads and of children, modulo 2^32 |
| ForkThreadRuns.MissedCallReturns | uprobes.w/fork_thread.c:48-59 | in every run a thread whose call misses returns -1 from its first call and -2 from a later one |
| ForkThreadRuns.VerdictUnderReaping | uprobes.w/fork_thread.c:102-119 | `main` reports PASS exactly when every call of a thread in the run was a hit and no call of a child was; then every child exited 0 and the counter is 2*niter*T modulo the word |
| ForkThreadRuns.StepDecreases | uprobes.w/fork_thread.c:25-119 | every step takes from the remaining work |
| ForkThreadRuns.NeverStuck | uprobes.w/fork_thread.c:25-119 | until `main` has reported some step other than a failing `wait` is possible |
| ForkThreadRuns.RunsEndWithVerdict | uprobes.w/fork_thread.c:87-120 | runs are bounded, and a run that cannot go on has reported a verdict |
| ForkThreadRuns.TooManyIterationsNeverPass | uprobes.w/fork_thread.c:48-59 | beyond 2^30 iterations no run passes |
| ForkThreadRuns.CountingCall | uprobes.w/fork_thread.c:49 | one call of the parent after n hits: a hit returns n and is counted, a miss returns -1 for the first call and -2 later |
| ForkThreadRuns.CountingLoop | uprobes.w/fork_thread.c:48-50 | the parent's loop as written: all hits leave equal counters, the first miss is returned as -1 or -2 |
| ForkThreadRuns.ParentProcess | uprobes.w/fork_thread.c:38-67 | the parent returns its own first bad verdict, otherwise the status that its `wait` delivered |
| ForkThreadRuns.ChildProcess | uprobes.w/fork_thread.c:78-82 | the child exits with 1 exactly when a call was a hit, and then at the first one |
| PongWa7.StepKeepsInv | uprobes.existing/pong_wa7.c:66-219 | every step of every actor keeps the accounting of `pending_regs`, the deferred list's shape, the flags' meaning and the wake-up condition |
| PongWa7.RunKeepsInv | uprobes.existing/pong_wa7.c:66-219 | so does every run |
| PongWa7Safety.NoLostWakeUp | uprobes.existing/pong_wa7.c:66-70 | a sleeping cleanup with nothing pending always has a context that will read `cleaning_up` as set and wake it |
| PongWa7Safety.PendingAccounting | uprobes.existing/pong_wa7.c:109-128 | `pending_regs` equals outstanding operations plus increments not yet issued or taken back plus callbacks not yet counted down; it is never negative, and at 0 nothing is deferred |
| PongWa7Safety.IssuedIsRequests | uprobes.existing/pong_wa7.c:115-155 | every call of the registration interface in a run is counted once, a refused one included |
| PongWa7Safety.IssuedOnce | uprobes.existing/pong_wa7.c:109-156 | no operation is issued while the same one is still deferred |
| PongWa7Safety.DrainBound | uprobes.existing/pong_wa7.c:109-124 | once `cleaning_up` is set only an activation already past a check issues an operation, and only one |
| PongWa7Safety.LateOperationsExactly | uprobes.existing/pong_wa7.c:109-124 | operations can still follow exactly when an activation stands between a check and its operation |
| PongWa7Safety.TeardownExact | uprobes.existing/pong_wa7.c:207-219 | check and increment as one step: when the wait ends nothing is outstanding, the flags tell the registration state, and in the end neither probe is registered, in every continuation |
| PongWa7Safety.NothingIssuedAfterWait | uprobes.existing/pong_wa7.c:109-124 | check and increment as one step: after the wait has ended no operation is issued in any continuation |
| PongWa7Safety.FlagsAreTruth | uprobes.existing/pong_wa7.c:216-219 | when accepted operations succeed the two flags are the true registration state at the end of the wait, whatever was refused |
| PongWa7Safety.FlagsNeverMiss | uprobes.existing/pong_wa7.c:216-219 | check and increment as one step: whatever failed, at the end of the wait a registered probe is flagged, and a flag is wrong only after an accepted registration failed |
| PongWa7Safety.FusionIrrelevant | uprobes.existing/pong_wa7.c:109-111 | after `cleaning_up` was set the one-step and the two-step protocol have the same runs, in both directions, with the same ends |
| PongWa7Safety.WindowLeaks | uprobes.existing/pong_wa7.c:109-115 | an activation between check and increment can leave an operation that outlives the module |
| PongWa7Safety.CleanRemovalExactly | uprobes.existing/pong_wa7.c:109-219 | the code as written removes itself cleanly in every continuation exactly when no activation stands between a check and its increment as the wait's test succeeds |
| PongWa7Safety.LeakedProbe | uprobes.existing/pong_wa7.c:109-219 | a run of the code as written that unloads the module and leaves a probe registered |
| PongWa7Liveness.StepWorks | uprobes.existing/pong_wa7.c:66-219 | after `cleaning_up` was set every step takes from a natural-number measure, idle activations and hits excepted |
| PongWa7Liveness.NextWork | uprobes.existing/pong_wa7.c:213-219 | fairness brings about a step that lowers the measure |
| PongWa7Liveness.TeardownTerminates | uprobes.existing/pong_wa7.c:207-219 | under weak fairness every infinite run that set `cleaning_up` ends the wait and the teardown |
| PongWa7Liveness.TeardownPossible | uprobes.existing/pong_wa7.c:207-219 | from every reachable state with `cleaning_up` set some run completes the teardown |
| PongWa7Liveness.ReadyExactly | uprobes.existing/pong_wa7.c:66-219 | an actor of the fairness assumption is ready exactly when one of its steps is possible |
| PongWa7Alternation.AlternationUntilFailure | uprobes.existing/pong_wa7.c:72-158 | in every run before the teardown: ceil(p/2) calls and floor(p/2) returns after p passes; once settled, the next handler's probe is registered unless its registration was refused or failed, and then no probe is and no handler runs again; a refusal leaves the flag cleared, a failed completion does not clear it |
| PongWa7Alternation.Alternation | uprobes.existing/pong_wa7.c:103-158 | without refusals and failures p passes give ceil(p/2) calls and floor(p/2) returns, and once settled exactly the next handler's probe is registered and flagged |
| PongWa7Module.FinishIsRun | uprobes.existing/pong_wa7.c:103-158 | an uninterrupted handler is a run of the transition system |
| PongWa7Module.PongModule.PendingRegDone | uprobes.existing/pong_wa7.c:66-70 | decrements, and wakes the sleeper exactly when it reached 0 during cleanup |
| PongWa7Module.PongModule.RegCallback | uprobes.existing/pong_wa7.c:72-87 | the callback as written takes exactly the callback steps of the transition system |
| PongWa7Module.PongModule.RegisterReturn | uprobes.existing/pong_wa7.c:109-120 | the entry handler's first request takes the transition system's steps |
| PongWa7Module.PongModule.UnregisterEntry | uprobes.existing/pong_wa7.c:122-129 | the entry handler's second request takes the transition system's steps |
| PongWa7Module.PongModule.UnregisterReturn | uprobes.existing/pong_wa7.c:137-144 | the return handler's first request takes the transition system's steps |
| PongWa7Module.PongModule.RegisterEntry | uprobes.existing/pong_wa7.c:146-156 | the return handler's second request takes the transition system's steps |
| PongWa7Module.PongModule.EntryHandler | uprobes.existing/pong_wa7.c:103-130 | the entry handler as written ends in the state that the transition system's uninterrupted activation reaches |
| PongWa7Module.PongModule.ReturnHandler | uprobes.existing/pong_wa7.c:132-158 | likewise for the return handler |
| PongWa7Module.PongModule.StartCleanup | uprobes.existing/pong_wa7.c:213-214 | setting `cleaning_up` is the first step of the teardown |
| PongWa7Module.PongModule.FinishCleanup | uprobes.existing/pong_wa7.c:216-219 | the two guarded removals are the teardown steps after the wait |
| PongWa7Module.TornDownClean | uprobes.existing/pong_wa7.c:216-219 | with check and increment as one step they leave no probe registered and nothing deferred |
| PongWa7Module.ActivationKeepsInv | uprobes.existing/pong_wa7.c:103-158 | an uninterrupted activation keeps the protocol's invariant |
| Pong.PongModule.EntryHandler | uprobes.existing/pong.c:89-106 | counts a call, requests the other probe and its own removal, and sets the flags by what was accepted |
| Pong.PongModule.ReturnHandler | uprobes.existing/pong.c:108-125 | counts a return, requests its own removal and the other probe |
| Pong.PongModule.Pass | uprobes.existing/pong.c:89-125 | one pass with its deferred operations settled |
| Pong.RunPasses | uprobes.existing/pong.c:89-125 | any number of passes from the loaded module |
| Pong.Alternation | uprobes.existing/pong.c:89-125 | for any refusals: the handlers alternate until the first refused registration, flags are the truth, and afterwards no probe is registered for ever |
| Pong.PingPong | uprobes.existing/pong.c:89-125 | without failures p passes give ceil(p/2) calls, floor(p/2) returns and exactly one registered probe |
| Blink.BlinkModule.Steady | uprobes.existing/blink.c:85-105 | counts, and registers blink on a multiple of 3 when it is not registered and the request is accepted |
| Blink.BlinkModule.BlinkHandler | uprobes.existing/blink.c:66-76 | removes blink on a multiple of 5 |
| Blink.BlinkModule.SharedHit | uprobes.existing/blink.c:66-105 | one hit of the shared probe point with both handlers |
| Blink.BlinkModule.TwoHits | uprobes.existing/blink2.c:55-97 | one iteration over the two probe points |
| Blink.RunBlink | uprobes.existing/blink.c:66-105 | any number of hits of the shared point |
| Blink.RunBlink2 | uprobes.existing/blink2.c:55-97 | any number of iterations over two points |
| Blink.ClosedForm | uprobes.existing/blink.c:66-105 | without refusals both versions agree after n iterations, and blink is registered exactly when 3*floor(n/3) > 5*floor(n/5) |
| Blink.DueUpToExactly | uprobes.existing/blink.c:92-98 | the registrations listed by the closed form are exactly those at n = 3, 6, 12 modulo 15 |
| Blink.FlagIsTruth | uprobes.existing/blink.c:66-105 | in both versions the flag is the registration state after every iteration, whatever was refused |
| Blink.AgreeExactly | uprobes.existing/blink2.c:55-97 | for any refusals the two versions agree after every iteration exactly when no multiple of 15 is a successful registration |
| Blink.PartedAtFifteen | uprobes.existing/blink2.c:55-97 | refusals that make the two versions differ |
| Symbols.StrncmpExact | uprobes.w/symbols.h:51 | the bounded comparison is 0 exactly when the strings do not differ in their first `size` characters |
| Symbols.CutIsPrefix | uprobes.w/symbols.h:51 | up to the pattern's length that is a test for a prefix |
| Symbols.StrcmpIsEquality | uprobes.w/symbols.h:39 | the comparison is 0 exactly for equal names |
| Symbols.Cursor.GlobNames | uprobes.w/symbols.h:45-57 | moves the cursor to the next match at or after it and returns that name; at the end of the list it leaves the cursor alone |
| Symbols.Cursor.Advance | uprobes.w/symbols.h:62-63 | the loop's condition passes over no match |
| Symbols.ForEachGlob | uprobes.w/symbols.h:62-63 | the loop ends and visits the matches in order |
| Symbols.VisitsExactly | uprobes.w/symbols.h:59-63 | each once and increasing; for a pattern of at most 20 characters exactly the names it is a prefix of |
| Symbols.LongGlobOvermatches | uprobes.w/symbols.h:63 | a longer pattern also visits names it is not a prefix of |
| Symbols.FindOffset | uprobes.w/symbols.h:35-43 | the offset of the first symbol of that name, or 0 if there is none |
| Symbols.FindInode | uprobes.w/symbols.h:18-33 | for the first symbol of that name the inode that its path resolves to; the null inode if the path does not resolve or no symbol has the name |
| Symbols.LookupExact | uprobes.w/symbols.h:18-43 | both lookups in one: offset and inode of the first symbol of the name, and 0 for both without one |
| Symbols.LookupIsOwn | uprobes.w/symbols.h:38-41 | the lookup of a name finds a given symbol exactly when no earlier one has that name |
| Symbols.VisitsOwnPoint | uprobes.w/symbols.h:35-43 | with unique names the lookup of a visited name gives the visited symbol's own offset and the inode of its own path |
| Kunreg.Table.Request | uprobes.w/kunreg.c:55-79 | a new consumer is registered on the looked-up point exactly when memory was left and the kernel answered 0 or -EINPROGRESS |
| Kunreg.Table.RegisterOne | uprobes.w/kunreg.c:54-82 | a visit is registered exactly when memory was left and the kernel accepted, and recorded exactly when the table has an entry left as well |
| Kunreg.Table.RegisterAll | uprobes.w/kunreg.c:42-85 | exactly the visits before the first failure are registered and recorded, and the rest of the table and of the registry is unchanged; the record leaves the table exactly when more than 100 visits are accepted |
| Kunreg.Table.UnregisterAll | uprobes.w/kunreg.c:32-39 | takes out every recorded entry and the one after the last, and nothing else; the loop's index leaves the table exactly when it is full |
| Kunreg.Conserved | uprobes.w/kunreg.c:32-85 | taking out the recorded entries and the next one gives back the registry from before they were added |
| Kunreg.OutsideExactly | uprobes.w/kunreg.c:16-38 | a round leaves the table exactly when there are at least 100 matches and the first 100 are all accepted |
| Kunreg.ProbesMatch | uprobes.w/kunreg.c:54 | the visited symbols are exactly those whose names start with `_probe` |
| Kunreg.FullTable | uprobes.w/kunreg.c:36-38 | a symbol table of 100 matches, all accepted, on which the removal reads behind the table |
| Kunreg.Table.Round | uprobes.w/kunreg.c:32-85 | registering, with a failure at any symbol, and removing leaves the registry as it was, also with a full table; the round leaves the table exactly when the kernel accepts 100 visits or more |
| Kunreg.Table.RoundsAndCleanup | uprobes.w/kunreg.c:32-175 | any number of such rounds and the removal at unload leave the registry as it was, or the first round with 100 accepted visits leaves the table |
| Kunreg.RecordedPoint | uprobes.w/kunreg.c:62-80 | with unique names entry k is the k-th matching symbol's own offset and inode with its own consumer |
| Ksuicide.Module.RegisterOne | uprobes.w/ksuicide.c:63-85 | the result of a visit, and its consumer is registered exactly when the kernel accepted it, at once or in progress |
| Ksuicide.Module.RegisterProbes | uprobes.w/ksuicide.c:61-86 | the loop leaves at the first visit that did not succeed at once, with the earlier visits registered, and that one too if it was in progress |
| Ksuicide.Module.RegisterVictim | uprobes.w/ksuicide.c:88-110 | adds the second consumer on `_probe_9`, or returns the error |
| Ksuicide.Module.InitModule | uprobes.w/ksuicide.c:35-113 | 0, -1 or -12 by the first service that did not succeed at once, and exactly what is left registered, for every point of failure and for a registration in progress, which the source takes for a failure |
| Ksuicide.HandlersAtPoint | uprobes.w/ksuicide.c:61-110 | every unshared probe point has exactly one counting handler, and `_probe_9` the suicide handler after it |
| Ksuicide.VictimIsProbe9 | uprobes.w/ksuicide.c:88-110 | with unique names the second consumer sits on the own probe point of the symbol called `_probe_9` |
| Ksuicide.Hit | uprobes.w/ksuicide.c:24-27 | the handlers of a hit run one after the other and count; a suicide handler ends the thread there |
| Ksuicide.StopsAtSuicide | uprobes.w/ksuicide.c:24-27 | a hit is survived exactly without a suicide handler, and otherwise only the handlers before the first one count |
| Ksuicide.OtherPointsKeepHandshake | uprobes.w/ksuicide.c:61-86 | on every unshared point other than `_probe_9` each call is counted once on either side, so h calls report h-1 |
| Ksuicide.VictimDiesOnce | uprobes.w/ksuicide.c:88-110 | the first hit of `_probe_9` is counted once by the kernel, ends the thread without a verdict, and leaves the counters apart |
| Ksuicide.VictimInAnyOrder | uprobes.w/ksuicide.c:88-110 | in either order of the two handlers the thread ends; the counters differ exactly when the counting one ran first |
| Suicide.StepKeepsInv | uprobes.w/suicide.c:21-57 | every call of every thread keeps each slot at its number of uses and `num_probes` at the calls made, modulo the word |
| Suicide.RunsEnd | uprobes.w/suicide.c:21-57 | runs are bounded, and can go on until every thread is over |
| Suicide.RunTotals | uprobes.w/suicide.c:21-57 | in every interleaving and for any handlers on `_probe_9` the looping threads return 0, and the counter ends at nine runs per thread and iteration plus the handlers before the first suicide |
| Suicide.KsuicideTotals | uprobes.w/suicide.c:74-97 | with the consumers that `init_module` registered: 9*niter*(T-1) + 1 modulo the word, and a dead thread whose counters differ |
| Suicide.CheckedInTotal | uprobes.w/ksuicide:12 | five threads and four iterations end at 145 |
| SharedLog.WriteKeepsInv | include/udbgfs.c:37-43 | every single store of a writer keeps the buffer, the log and what every reader has in agreement |
| SharedLog.StepKeepsInv | include/udbgfs.c:37-65 | so does every step of a reader, and a new message that fits |
| SharedLog.RunKeepsInv | include/udbgfs.c:27-66 | over any interleaving of one writer at a time and any number of readers, while the messages fit |
| SharedLog.LogInLockOrder | include/udbgfs.c:27-51 | at every moment the published bytes are the messages in lock order; between messages `cur`, `bytes_in_buf` and `bytes_left` agree and sum to 1024 |
| SharedLog.ReadersHoldThePrefix | include/udbgfs.c:54-66 | a reader with any chunk sizes, copying byte by byte while others print, holds exactly the log's first `*ppos` bytes |
| SharedLog.EndOfFileExact | include/udbgfs.c:61-65 | a read that asks for bytes finds the end of the file exactly when the reader already has all that is published |
| SharedLog.ReadIsClipped | include/udbgfs.c:64-65 | in every run a read sets out to copy exactly what it asked for or what is left, whichever is less, and ends at once when that is nothing |
| SharedLog.WholeReadDelivers | include/udbgfs.c:54-66 | an undisturbed read moves `*ppos` by what it asked for or what is left, whichever is less, and delivers exactly those bytes of the log |
| SharedLog.EmptyRead | include/udbgfs.c:61-62 | a read of an empty log returns at once and changes nothing |
| SharedLog.WriterFinishes | include/udbgfs.c:27-51 | a writer whose message fits can always go on to leave the lock, and then its message is published |
| SharedLog.PrintedIsReadable | include/udbgfs.c:27-66 | from any state between two messages a further message that fits can be printed, and who opens the file after that can read the whole log up to it in one go |
| SharedLog.PrintBuffer.constructor | include/udbgfs.c:100-125 | an empty log over a buffer with arbitrary contents |
| SharedLog.PrintBuffer.Vsnprintf | include/udbgfs.c:38 | the bounded formatting stores byte by byte what the writer's steps store and returns the whole length |
| SharedLog.PrintBuffer.TestPrintk | include/udbgfs.c:27-51 | one call leaves the buffer as the writer's steps leave it |
| SharedLog.PrintBuffer.ReadData | include/udbgfs.c:54-66 | the chunk and the new position of one read, and whether a log that outgrew the buffer makes it read behind the buffer |
| SharedLog.PrintExact | include/udbgfs.c:38-42 | the buffer shows the longer log exactly when it stays below 1024 bytes; otherwise the terminating NUL has replaced a character that is counted as readable |
| SharedLog.CutMessage | include/udbgfs.c:38-42 | a message of 1024 characters into an empty log, whose last character is lost |
| LogDiff.NumberReplaced | lib/uprobes.exp:46 | a blank, a digit from 1 to 9 and a longest non-empty run of digits and commas become ` 1234` |
| LogDiff.AddressReplaced | lib/uprobes.exp:47 | `0x` and a longest non-empty run of hexadecimal digits of either case become `0xC0123456` |
| LogDiff.MatchStarts | lib/uprobes.exp:46-47 | nothing else starts a match of either expression, and a character that starts none is kept |
| LogDiff.NumbersFirst | lib/uprobes.exp:46-47 | numbers are rewritten before addresses: a number whose last 0 stands before an `x` becomes ` 1234` and leaves no address |
| LogDiff.MatchIsLongest | lib/uprobes.exp:46-47 | a match of either expression is as long as possible, and 0 characters exactly when there is none |
| LogDiff.LeftmostMatchReplaced | lib/uprobes.exp:46-47 | each substitution keeps the text before the leftmost match, replaces the match and goes on behind it |
| LogDiff.PassIdempotent | lib/uprobes.exp:46-47 | each of the two substitutions is idempotent |
| LogDiff.AddressesKeepNumbers | lib/uprobes.exp:46-47 | the second substitution makes no work for the first |
| LogDiff.NormalLineIdempotent | lib/uprobes.exp:46-47 | a normalised line is not changed by normalising it again |
| LogDiff.NormaliseLog | lib/uprobes.exp:44-52 | the array holds exactly the normalised lines |
| LogDiff.ScanIsLongest | lib/uprobes.exp:57-65 | the scan's count is the length of the longest prefix of the actual log that is a subsequence of the expected one |
| LogDiff.UprobesDiff | lib/uprobes.exp:44-71 | the code as written gives the outcome and the final `i` of the scan |
| LogDiff.VerdictExact | lib/uprobes.exp:58-71 | passes exactly when the log is a subsequence that needs the last expected line, fails exactly when it is none, and is a script error otherwise |
| LogDiff.ExpectedLineTooMany | lib/uprobes.exp:58-60 | a log of one line against that line and one more: the unset element is read |
| LogDiff.EqualLengths | lib/uprobes.exp:57-71 | for logs of equal length: passes exactly when they are equal after normalising, and fails otherwise |
| LogDiff.OwnExpectation | lib/uprobes.exp:44-71 | a normalised log is accepted as its own expectation |

## Left out

- Kernel internals: breakpoint insertion, single-stepping, quiescing and the registration functions themselves are abstract operations.
- The blocking call of `cleanup_module` in pong_wa7.c: its wait is only a sequence of steps of the transition system; the class has the parts before and after it.
- The builds of pong and blink without UPROBES_REG_CALLBACK, in which most of the protocol is compiled out; the checked-in logs uprobes.existing/blink_probeme4 and pong_wa7_probeme4 belong to them.
- `cleanup_module` of pong.c, blink.c and blink2.c: plain guarded removals.
- Failing `put_user` and `get_user`, and layouts on which `ulong` and `pid_t` differ.
- Failing `fork` and `pthread_create`, children that do not exit normally, and thread counts beyond MAX_THREADS, for which the programs have no check.
- Several threads in one process that share one slot: the programs never do this.
- The deliberate crashes of ksuicide2.c, tdie.c and texec.c, and what `pthread_join` yields for the thread that dies in suicide.c: the kernel and the C library decide that.
- What happens after a store or a read outside the table of kunreg.c: the methods stop there and say so.
- probe5.c, probe5lim.c, probe5ag.c, probe6.c, rprobe6.c and uprobes.existing/suicide.c: single counters and rollback loops.
- Register access (include/u_mod_common.h:18-101) and symbol resolution (include/uprobes-inode.c).
- Debugfs files, allocation failures of the print buffer, `printk`, module parameters, command lines and `printf`.
- A message longer than what the kernel's formatting function accepts as a size, and stores past the end of the print buffer: the model drops such stores.
- Splitting the files into lines, loading and unloading modules, and running programs in lib/uprobes.exp.
