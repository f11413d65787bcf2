# Verified models of the shared-memory homework programs

The repository's hard code is a handful of small shared-memory protocols and a few
sequential programs with a real bound. This project models them in Dafny and proves what
they promise, with every numeric constant (thresholds, thread and round counts, `MAXLEN`,
image size) replaced by a parameter.

Concurrent programs are modelled as interleaved atomic steps: one program counter a thread,
every shared load, store and lock operation a step of its own, memory sequentially
consistent. A run is given by a schedule, so a lemma about every schedule is about every
interleaving. Each program appears twice: as a step function on values, about which the
lemmas speak, and as a class whose methods act on the shared variables in place and are
proved to be that function (`...Program` modules).

- **HandOff, HandOffProgram** - `mutex3.c`. Two threads increment one counter, test it outside
  its mutex, and sleep and wake through a second mutex. Without spurious wakeups the division
  of labour of the homework comment holds, the counter ends at exactly DONE, no wakeup is lost
  and thread 1's steps are bounded. With spurious wakeups the printed values are still 1, 2, 3,
  ... but the count may reach DONE + 1 (the "10, 11" of the comment), and `SpuriousWakeups`
  says exactly which wakeups endanger the division of labour. The limits are any
  1 <= HALT1 <= HALT2 < DONE.
- **Dialogue, Exchange** - the conversation of `shmemserv.c`/`shmemcli.c` and
  `semserv.c`/`semcli.c`: first as an alternation of whole lines, then byte by byte over one
  buffer that both processes also read outside their turn.
- **Keyboard** - the stream of characters that getchar returned and the lines it consists of, split
  by a definition that knows nothing of the processes. Both conversations deliver exactly these
  lines, in every interleaving.
- **Peterson, Semaphores** (and `ExchangeProgram`, `PetersonProgram`, `SemaphoreProgram`) - the
  two ways of granting turns. Both refine the same dialogue step by step. The Peterson version
  makes progress in every weakly fair run; the semaphore version needs no fairness.
- **Rotation, Monitor, MonitorProgram, SpinTurn, SpinTurnProgram** - `1_2_3.c` and both
  `tic_tac.c` programs, for any number of threads and rounds, as implementations of one
  rotating token. Threads are numbered from 0. `RunToEnd` lets the scheduler choose at every
  step and terminates with the exact output. `SignalSuffices` shows that `pthread_cond_signal`
  is enough for exactly the two threads of the user-space `tic_tac.c`.
- **Permutations, SelectionSort** - `sort.c`: sorted permutation, and the number of exchanges is
  n minus the number of cycles, the least that any sequence of exchanges can do with.
- **RandomDraw, ArraySum, ArraySumProgram** - `rand_num.c` and `array_sum_rand.c` in wrapping
  32-bit arithmetic. The multipliers of a whole run are given by a definition of their own
  (`History`): a draw from 0 to 100 at load, then one draw an element for each accepted write,
  between the limits in force.
- **Raster** - `draw.c`: a linear file that shows exactly the covered pixels.

The condition variable's wakeup order, the scheduler, the characters typed, the random words
and the texts written to module parameters are parameters of the model.

## Model

| member | source | states |
|---|---|---|
| HandOff.CounterStep | linux_c_development/homework11/mutex/mutex3.c:39-77 | each atomic step of either thread, or a spurious wakeup, keeps the mutexes exclusive and the printed values equal to 1, 2, ..., count |
| HandOff.CounterIsExact | linux_c_development/homework11/mutex/mutex3.c:39-77 | in every run, spurious wakeups included, the values printed are 1, 2, 3, ... without gap or repetition and the count never exceeds DONE + 1 |
| HandOff.OvershootHappens | linux_c_development/homework11/mutex/mutex3.c:33-77 | for all thresholds some run with spurious wakeups does count to DONE + 1, so the bound is tight |
| HandOff.HandOffStep | linux_c_development/homework11/mutex/mutex3.c:43-76 | every step but a harmful spurious wakeup keeps the invariant behind the division of labour, although every range test is unlocked |
| HandOff.HandOffHolds | linux_c_development/homework11/mutex/mutex3.c:33-77 | without spurious wakeups, or with harmless ones only, thread 1 prints 1..HALT1 and HALT2+2..DONE, thread 2 prints HALT1+1..HALT2+1, in order, and both exit at exactly DONE |
| HandOff.SpuriousWakeups | linux_c_development/homework11/mutex/mutex3.c:48-52 | after any run whose spurious wakeups were harmless, a further one leaves every continuation divided as intended if and only if it is not harmful, a test on the counter and thread 2's place at that moment |
| HandOff.HarmfulBreaks | linux_c_development/homework11/mutex/mutex3.c:48-54 | after a harmful wakeup a schedule without further spurious wakeups breaks the division of labour |
| HandOff.NoLostWakeup | linux_c_development/homework11/mutex/mutex3.c:48-75 | in every such run a blocked or sleeping thread 1 can go on after at most 20 HALT2 + 34 steps of thread 2 alone |
| HandOff.SleepsAtMostOnce | linux_c_development/homework11/mutex/mutex3.c:48-52 | without spurious wakeups thread 1 goes to sleep at most once in a run |
| HandOff.Thread1SkipsNothing | linux_c_development/homework11/mutex/mutex3.c:43-55 | in every run thread 1 has tested the range once for each increment and its exit once for each of these tests, up to the round it is in |
| HandOff.Thread2SkipsNothing | linux_c_development/homework11/mutex/mutex3.c:60-76 | in every run thread 2 has tested the range under the condition mutex once for each round and its exit once for each of these tests, and has signalled exactly as often as a test found the counter outside the range |
| HandOff.Thread1IsBounded | linux_c_development/homework11/mutex/mutex3.c:43-55 | thread 1 takes at most 20 (DONE + 1) + 11 steps in any run |
| HandOff.EveryRunCanFinish | linux_c_development/homework11/mutex/mutex3.c:39-77 | every such run can be continued, without a spurious wakeup, until both threads have exited with everything printed |
| HandOffProgram.Program.constructor | linux_c_development/homework11/mutex/mutex3.c:10-26 | the globals and threads as they start |
| HandOffProgram.Program.FunctionCount1 | linux_c_development/homework11/mutex/mutex3.c:39-56 | the statements of thread 1, in place, are the step function |
| HandOffProgram.Program.FunctionCount2 | linux_c_development/homework11/mutex/mutex3.c:58-77 | the statements of thread 2, in place, are the step function |
| HandOffProgram.Program.Run | linux_c_development/homework11/mutex/mutex3.c:19-77 | any interleaving leaves the divided log, and a complete one ends at exactly DONE |
| Exchange.CutAt | linux_c_development/homework6/example3/shmemserv.c:37 | printing byte by byte stops exactly at the first NUL of the line |
| Exchange.QuitLine | linux_c_development/homework6/example3/shmemcli.c:39-40 | a line that begins with the two bytes of "q\n" is "q\n" |
| Exchange.ClientSees | linux_c_development/homework6/example3/shmemcli.c:29 | whatever the server is writing, a byte of "q\n" seen by the client's unlocked test is a byte of its own last line |
| Exchange.ServerSees | linux_c_development/homework6/example3/shmemserv.c:29 | whatever the client is writing, a byte of "q\n" seen by the server's unlocked test belongs to the client's present or last line, and all three only to a completed "q\n" |
| Exchange.ClientStepInv | linux_c_development/homework6/example3/shmemcli.c:29-40 | each byte the client tests, prints or stores keeps the exchange invariant: no access outside the buffer, no torn print, lines ended by a newline or the length limit, no exit before "q\n"; what is stored is the subject of `ClientStores` |
| Exchange.ServerStepInv | linux_c_development/homework6/example3/shmemserv.c:29-39 | the same for each byte the server tests, prints, compares or stores |
| Exchange.BeginClientInv | linux_c_development/homework6/example3/shmemcli.c:35-37 | a turn of the client may begin whenever the token is the client's and the server is out |
| Exchange.BeginServerInv | linux_c_development/homework6/example3/shmemserv.c:34-36 | a turn of the server may begin whenever the token is the server's and the client is out |
| Keyboard.LinesOfConcat | linux_c_development/homework6/example3/shmemcli.c:39-40 | splitting a stream at newlines and at the length limit gives back the lines it was put together from: the splitter and concatenation are inverse on well-formed lines |
| Keyboard.ClientStores | linux_c_development/homework6/example3/shmemcli.c:39-40 | a step of the client appends to what it has stored exactly the character getchar returned, if it calls getchar in this step, and otherwise nothing |
| Keyboard.StoredGivesLines | linux_c_development/homework6/example3/shmemserv.c:37 | the lines sent are the first lines of what was stored, and what the server displayed is these lines, each cut at its first NUL |
| ExchangeProgram.Conversation.constructor | linux_c_development/homework6/example3/shmemserv.c:24-28 | the shared string holds "Hello!" and both processes are at their loop test |
| ExchangeProgram.Conversation.RunClient | linux_c_development/homework6/example3/shmemcli.c:29-40 | the client's accesses to the string, in place and within bounds, are the step function that stores the character typed (`ClientStores`) and keeps the invariant (`ClientStepInv`) |
| ExchangeProgram.Conversation.RunServer | linux_c_development/homework6/example3/shmemserv.c:29-39 | the server's accesses to the string, in place and within bounds, are the step function |
| Dialogue.BehavioursAreFaithful | linux_c_development/homework6/example3/shmemserv.c:28-43 | in every behaviour of the alternating dialogue each line is heard once, in order, at most one behind; the client is shown "Hello!" and then "Ok!"; nobody leaves before "q\n" and no line follows it |
| Dialogue.NextIsFaithful | linux_c_development/homework6/example3/shmemcli.c:29-44 | each step of the dialogue keeps that |
| Dialogue.ClientRefines | linux_c_development/homework6/example3/shmemcli.c:29-40 | each byte-level step of the client is a step of the dialogue or none |
| Dialogue.ServerRefines | linux_c_development/homework6/example3/shmemserv.c:29-39 | each byte-level step of the server is a step of the dialogue or none |
| Peterson.TurnsAreGranted | linux_c_development/homework6/example3/shmemserv.c:31-36 | a process that passes the spin and the readlast test begins a turn only when the token allows it |
| Peterson.LockStep | linux_c_development/homework6/example3/shmemserv.c:29-41 | every step keeps the lock invariant that gives exclusion, the re-entry with the flag still BUSY included; that the flag does stay BUSY is `FlagsAreKept` |
| Peterson.FlagsAreKept | linux_c_development/homework6/example3/shmemserv.c:31-42 | a step that turns a process's flag from BUSY to FREE ends a turn of that process: the readlast branch not taken keeps the flag |
| Peterson.RefusalKeepsFlag | linux_c_development/homework6/example3/shmemserv.c:31-42 | in every run a process refused by the readlast test goes back to the first byte of its loop test with its flag BUSY, and keeps it BUSY, whatever happens, until it has ended a turn |
| Peterson.CompetesAfterTest | linux_c_development/homework6/example3/shmemserv.c:29-31 | a process sets its flag only right after a byte of its loop test differed from "q\n", after a refusal too |
| Peterson.MutualExclusion | linux_c_development/homework6/example3/shmemcli.c:32-42 | at most one process is between its spin and the release of its flag, in every interleaving |
| Peterson.RefinesDialogue | linux_c_development/homework6/example3/shmemserv.c:24-43 | every run of the two programs is a behaviour of the dialogue |
| Peterson.ConversationIsFaithful | linux_c_development/homework6/example3/shmemcli.c:29-44 | in every run each line sent is heard exactly once, in order, untorn and at most one behind, the client is shown "Hello!" and then "Ok!", and both agree on the quit; that the lines are those typed is `LinesAreTyped` |
| Peterson.LinesAreTyped | linux_c_development/homework6/example3/shmemcli.c:29-40 | in every interleaving what the client has stored, the unfinished line included, is the stream of characters typed; the lines sent are the first lines of that stream, and the i-th line displayed is its i-th line up to the first NUL |
| Peterson.Farewell | linux_c_development/homework6/example3/shmemserv.c:29-43 | the client leaves with its flag FREE, a server that left with its flag BUSY leaves nobody spinning, and the two are never blocked together |
| Peterson.RankStep | linux_c_development/homework6/example3/shmemserv.c:31-41 | no step takes the exchange back, and a step of the helping process brings it forward or begins a turn |
| Peterson.NextTurn | linux_c_development/homework6/example3/shmemcli.c:29-43 | after boundedly many fair rounds a new turn has begun or both have left |
| Peterson.FairRunsGoOn | linux_c_development/homework6/example3/shmemcli.c:29-43 | in a weakly fair run turns keep coming, at a bounded number of rounds each, until both have left |
| Peterson.LinesAreDelivered | linux_c_development/homework6/example3/shmemserv.c:29-43 | in a weakly fair run the server has displayed m lines after a bounded number of rounds, or both have left on "q\n" |
| PetersonProgram.SharedMemory.constructor | linux_c_development/homework6/example3/shmemserv.c:24-28 | the lock variables as the server initialises them |
| PetersonProgram.SharedMemory.ClientProcess | linux_c_development/homework6/example3/shmemcli.c:29-43 | the client's loop, in place, is the step function: flag, turn, spin, readlast and the flag kept or given back as `FlagsAreKept` says |
| PetersonProgram.SharedMemory.ServerProcess | linux_c_development/homework6/example3/shmemserv.c:29-42 | the server's loop, in place, is the step function, with the flag kept or given back as `FlagsAreKept` says |
| PetersonProgram.SharedMemory.Run | linux_c_development/homework6/example3/shmemserv.c:24-43 | any interleaving, in place, sends the first lines of what was typed in a faithful conversation whose turns exclude each other |
| Semaphores.TokenStep | linux_c_development/homework6/example3/semserv.c:34-44 | every semop keeps the one token |
| Semaphores.TokenIsConserved | linux_c_development/homework6/example3/semcli.c:35-46 | sem0 + sem1 + (client in its turn) + (server in its turn) = 1 in every run, neither semaphore negative |
| Semaphores.RefinesDialogue | linux_c_development/homework6/example3/semserv.c:28-45 | every run of the semaphore programs is a behaviour of the same dialogue |
| Semaphores.ConversationIsFaithful | linux_c_development/homework6/example3/semcli.c:35-47 | in every run each line sent is heard exactly once, in order, untorn and at most one behind, the client is shown "Hello!" and then "Ok!", and both agree on the quit; that the lines are those typed is `LinesAreTyped` |
| Semaphores.LinesAreTyped | linux_c_development/homework6/example3/semcli.c:36-42 | the same delivery of the typed stream as with the Peterson lock: stored is what was typed, sent are its first lines, displayed is its i-th line up to the first NUL |
| Semaphores.WaitsAfterTest | linux_c_development/homework6/example3/semserv.c:35-37 | a process comes to wait for its semaphore only right after a byte of its loop test differed from "q\n" |
| Semaphores.NoDeadlock | linux_c_development/homework6/example3/semserv.c:35-44 | nobody can move if and only if both have left |
| Semaphores.RestStep | linux_c_development/homework6/example3/semcli.c:36-46 | every real step brings the present turn nearer its end, or begins a new one |
| Semaphores.TurnsKeepComing | linux_c_development/homework6/example3/semcli.c:36-46 | the steps taken in any run are bounded by the turns begun: no busy waiting, no fairness needed |
| SemaphoreProgram.SemaphoreSet.constructor | linux_c_development/homework6/example3/semserv.c:28-34 | the semaphores as the server sets them before its loop |
| SemaphoreProgram.SemaphoreSet.ClientProcess | linux_c_development/homework6/example3/semcli.c:36-46 | the client's loop, in place, is the step function |
| SemaphoreProgram.SemaphoreSet.ServerProcess | linux_c_development/homework6/example3/semserv.c:35-44 | the server's loop, in place, is the step function |
| SemaphoreProgram.SemaphoreSet.Run | linux_c_development/homework6/example3/semserv.c:28-45 | any interleaving, in place, sends the first lines of what was typed in a faithful conversation and conserves the token |
| Rotation.TokenStepInv | linux_c_development/homework11/1_2_3/1_2_3.c:36-50 | the rotating token prints a prefix of 1 2 ... N 1 2 ..., of at most N K numbers |
| Rotation.CompleteCycle | linux_c_development/homework11/1_2_3/1_2_3.c:36-94 | a complete output is the round 1 2 ... N, repeated K times |
| Monitor.TurnStep | linux_c_development/homework11/1_2_3/1_2_3.c:36-50 | every statement, wakeup and spurious wakeup keeps the invariant that ties turn, mutex, counters and output |
| Monitor.RefinesToken | linux_c_development/homework11/1_2_3/1_2_3.c:43-44 | each step prints nothing or is the token's step, for both wakeup disciplines |
| Monitor.OutputIsCyclic | linux_c_development/homework11/1_2_3/1_2_3.c:32-97 | in every run, spurious wakeups included, the output is a prefix of (1 2 ... N)^K, and all of it once every thread has exited |
| Monitor.AwakeStep | linux_c_development/homework11/1_2_3/1_2_3.c:39-46 | no lost wakeup: the thread whose turn it is is awake, or the mutex holder is about to wake it |
| Monitor.SignalIsBroadcast | linux_c_development/homework11/tic_tac/tic_tac.c:43 | with two threads a signal step is a broadcast step |
| Monitor.MeasureStep | linux_c_development/homework11/1_2_3/1_2_3.c:36-50 | every step of a thread lowers the measure, although each wakeup raises the ranks of the woken |
| Monitor.RunsAreFinite | linux_c_development/homework11/1_2_3/1_2_3.c:36-50 | without spurious wakeups every run is bounded, with no fairness assumption |
| Monitor.StuckMeansComplete | linux_c_development/homework11/1_2_3/1_2_3.c:36-97 | a run that cannot go on has ended, with exactly (1 2 ... N)^K printed |
| Monitor.SignalDeadlocks | linux_c_development/homework11/tic_tac/tic_tac.c:33-47 | with a signal and three threads or more some run deadlocks |
| Monitor.SignalSuffices | linux_c_development/homework11/tic_tac/tic_tac.c:33-69 | with a signal no run deadlocks if and only if there are at most two threads |
| MonitorProgram.Program.constructor | linux_c_development/homework11/1_2_3/1_2_3.c:8-23 | the globals and threads as they start |
| MonitorProgram.Program.FnThread | linux_c_development/homework11/1_2_3/1_2_3.c:32-53 | the statements of a thread, in place, are the step function |
| MonitorProgram.Program.WakeEveryone | linux_c_development/homework11/1_2_3/1_2_3.c:46 | the broadcast moves every sleeper to the mutex queue and touches nobody else |
| MonitorProgram.Program.RunOne | linux_c_development/homework11/tic_tac/tic_tac.c:33-47 | some thread can run, and whichever does lowers the measure |
| MonitorProgram.Program.RunToEnd | linux_c_development/homework11/1_2_3/1_2_3.c:17-97 | whatever the scheduler picks, the program terminates and has printed (1 2 ... N)^K |
| SpinTurn.TurnStep | linux_kernel_development/homework10/tic_tac.c:27-38 | every step keeps the invariant, the stability of the unlocked test included |
| SpinTurn.TestIsStable | linux_kernel_development/homework10/tic_tac.c:28-34 | a thread that has seen its turn outside the mutex finds it unchanged, and nothing printed, whatever the others do |
| SpinTurn.RefinesToken | linux_kernel_development/homework10/tic_tac.c:32-35 | each step prints nothing or is the token's step |
| SpinTurn.OutputIsCyclic | linux_kernel_development/homework10/tic_tac.c:24-60 | in every run the log is a prefix of (TIC TAC)^K, all of it once both threads have returned, and no two threads are ever past their unlocked test together |
| SpinTurn.SomeoneMoves | linux_kernel_development/homework10/tic_tac.c:46-57 | no deadlock, on the mutex still held after the turn was written either |
| SpinTurn.MeasureStep | linux_kernel_development/homework10/tic_tac.c:27-38 | every step but a failed spin or lock lowers the measure |
| SpinTurnProgram.Program.constructor | linux_kernel_development/homework10/tic_tac.c:15-17 | the module's variables as they start |
| SpinTurnProgram.Program.ThreadFunc | linux_kernel_development/homework10/tic_tac.c:24-41 | the statements of a thread, in place, are the step function |
| SpinTurnProgram.Program.RunToEnd | linux_kernel_development/homework10/tic_tac.c:24-60 | whichever thread moves next, the module ends with (TIC TAC)^K in its log |
| SelectionSort.SortArray | linux_c_development/homework1/sort.c:4-34 | -1 for a null or empty array, otherwise a sorted permutation; for distinct elements the exchanges are n minus the cycles, between M/2 and max(0, M - 1) for M misplaced elements, and the fewest possible |
| SelectionSort.ExchangeElements | linux_c_development/homework1/sort.c:25-27 | the three assignments exchange two places and no others |
| SelectionSort.SwapDistance | linux_c_development/homework1/sort.c:24-28 | no exchange brings the array more than one step nearer to sorted, and the one that brings a minimum home does |
| SelectionSort.NoFewerExchanges | linux_c_development/homework1/sort.c:15-29 | no sequence of exchanges sorts distinct elements in fewer steps |
| SelectionSort.HomecomingSettles | linux_c_development/homework1/sort.c:24-28 | each exchange settles one place or two and unsettles none |
| SelectionSort.MinBelongs | linux_c_development/homework1/sort.c:16-22 | the minimum of the rest belongs at the place it is exchanged to |
| Permutations.SwapAddsAtMostOne | linux_c_development/homework1/sort.c:25-27 | exchanging two places makes at most one new cycle |
| Permutations.HomecomingAddsOne | linux_c_development/homework1/sort.c:25-27 | exchanging an element to its place makes exactly one |
| RandomDraw.DrawIsDefined | linux_kernel_development/homework3/array_sum_changeable/rand_num/rand_num.c:11-23 | the draw fails exactly for a null output or low >= upper, and divides by zero exactly for the pair INT_MIN, INT_MAX |
| RandomDraw.DrawIsInRange | linux_kernel_development/homework3/array_sum_changeable/rand_num/rand_num.c:19-25 | otherwise the output, read as an int, lies between the limits |
| RandomDraw.EveryValueIsDrawn | linux_kernel_development/homework3/array_sum_changeable/rand_num/rand_num.c:22-23 | every value between the limits is drawn for some word |
| RandomDraw.DrawIsEven | linux_kernel_development/homework3/array_sum_changeable/rand_num/rand_num.c:22-23 | the numbers of words behind any two outputs differ by at most one, and are given exactly |
| ArraySum.WritesKeepInv | linux_kernel_development/homework3/array_sum_changeable/array_sum_rand.c:49-103 | over any sequence of limit writes each element is congruent to its initial value times its recorded multipliers, the total to the sum of the elements, and the limits stay non-negative; what the multipliers are is `WritesAreDraws` |
| ArraySum.FactorsAreDraws | linux_kernel_development/homework3/array_sum_changeable/array_sum_rand.c:92-99 | one recalculation multiplies element i, wrapping, by low + words[i] % (high - low + 1), which lies between the limits, or by 0 when they are crossed |
| ArraySum.WritesAreDraws | linux_kernel_development/homework3/array_sum_changeable/array_sum_rand.c:49-103 | over any sequence of writes the multipliers are one draw an element for each accepted write, between the limits in force after it, and none for a rejected one |
| ArraySum.ElementsAreProducts | linux_kernel_development/homework3/array_sum_changeable/array_sum_rand.c:25-118 | over the whole life of the module each element is its initial value times a draw from 0 to 100 and one draw for each accepted write, modulo 2^32, and the total is the sum modulo 2^32 |
| ArraySum.RejectedWritesAreIdle | linux_kernel_development/homework3/array_sum_changeable/array_sum_rand.c:53-56 | a run of writes ends in the state in which the accepted ones alone end |
| ArraySum.LimitsAreLastStored | linux_kernel_development/homework3/array_sum_changeable/array_sum_rand.c:58-63 | each limit is the value last stored by an accepted write of it, or what it was before |
| ArraySum.EmptyStaysIdle | linux_kernel_development/homework3/array_sum_changeable/array_sum_rand.c:84-87 | an empty array is never recalculated and reports no total |
| ArraySum.NoFault | linux_kernel_development/homework3/array_sum_changeable/array_sum_rand.c:94 | in no run is the remainder taken by a range that wrapped to zero |
| ArraySum.CrossedLimitsAreFinal | linux_kernel_development/homework3/array_sum_changeable/array_sum_rand.c:92-99 | one recalculation of a non-empty array with low >= high leaves all elements and totals zero for ever |
| ArraySumProgram.Module.constructor | linux_kernel_development/homework3/array_sum_changeable/array_sum_rand.c:25-28 | the module's variables as loaded: limits 0 and 100, the array untouched |
| ArraySumProgram.Module.Init | linux_kernel_development/homework3/array_sum_changeable/array_sum_rand.c:105-121 | loading recalculates once, or fails on an empty array |
| ArraySumProgram.Module.CalculateArraySum | linux_kernel_development/homework3/array_sum_changeable/array_sum_rand.c:83-103 | the loop in place is the recalculation of `FactorsAreDraws` on the whole array |
| ArraySumProgram.Module.SetLowLimit | linux_kernel_development/homework3/array_sum_changeable/array_sum_rand.c:49-64 | -EINVAL and no effect for a number that is missing or negative, otherwise 0, and if the text can be stored the limit is set and the array recalculated in place as `WritesAreDraws` says |
| ArraySumProgram.Module.SetHighLimit | linux_kernel_development/homework3/array_sum_changeable/array_sum_rand.c:66-81 | the same for a write to m_high |
| ArraySumProgram.Load | linux_kernel_development/homework3/array_sum_changeable/array_sum_rand.c:105-121 | loading multiplies each element by its word % 101 and reports the wrapped sum, or refuses an empty array with -EINVAL |
| Raster.Drawing.InitDraw | linux_c_development/homework3/img/draw.c:20-27 | the fresh file is the blank image: spaces in every row, every row ended by a newline byte |
| Raster.Drawing.DrawPoint | linux_c_development/homework3/img/draw.c:29-34 | a seek, which fails for a negative offset, and one byte written |
| Raster.Drawing.DrawHline | linux_c_development/homework3/img/draw.c:36-42 | one write draws exactly the covered pixels of a row |
| Raster.Drawing.DrawVline | linux_c_development/homework3/img/draw.c:44-48 | the loop draws exactly the covered pixels of a column |
| Raster.Drawing.Render | linux_c_development/homework3/img/draw.c:60-76 | for any list of commands on the image the file is 'O' exactly at the covered pixels, a space at the others and a newline after each row |
| Raster.WriteDraws | linux_c_development/homework3/img/draw.c:40-41 | bytes overwritten in the file are a run of pixels within one row, and no others |
| Raster.PictureIsUnique | linux_c_development/homework3/img/draw.c:18-34 | the set of pixels determines every byte of the file |
| Raster.OrderDoesNotMatter | linux_c_development/homework3/img/draw.c:60-76 | the order of the commands and of their end points does not change the file |
| Raster.PointIsRightOnImage | linux_c_development/homework3/img/draw.c:29-34 | on a fresh image a point anywhere is drawn rightly if and only if it is on the image |

## Left out

- Weak memory, compiler reordering and the undefined behaviour of data races: each shared access is one atomic, sequentially consistent step.
- Start-up and shut-down of processes and modules: ftok, shmget, semget and open errors, SEM_UNDO, and the removal of shared memory and semaphores by the exiting server (a semop of the client that fails because of it is ignored by the client).
- End of input: getchar returns an arbitrary character at every call, so a stream that has ended is one that goes on delivering the same byte.
- The parsing of command texts and module parameters: the kernel's number parser is not part of this model; a write carries what it yields in base 10 (checked) and in base 0 (stored), and the lemmas take from it only that text accepted as non-negative is not stored as negative.
- The order in which the kernel hands parameters to the module at load: the array is there from the start, and `ElementsAreProducts` and `Load` speak of a load with the default limits 0 and 100; `FactorsAreDraws` and `WritesAreDraws` hold from any non-negative limits.
- Integer overflow of the counters in mutex3.c and the monitors: mutex3.c's count stays at or below DONE + 1, the others at or below their round count.
- Raster.Drawing.DrawHline: stated for lines on the image only, as the source's own commands are; outside, memset would leave the row buffer.
- Raster.Drawing.DrawVline: stated for lines on the image only, for the same reason as the points of `PointIsRightOnImage`.
- Progress of the Peterson programs under a scheduler that starves one process: the spin loops need both to run, so progress is proved for weakly fair runs.
- Fairness for mutex3.c: thread 2 spins, so its own steps are not bounded while thread 1 is not scheduled; what is proved is that thread 1's are and that every run can be finished.
- philosophers.c, the homework9 modules, array_sum.c of homework10, async_server.c, random_numbers and homework4: unsynchronised or wrongly synchronised code whose intended invariants fail, or behaviour that is the kernel's.
- Duplicate copies of sort.c and rand_num.c, printing, pipes, signals, sockets, message queues and device registration: they would add only easy members.
