# CPU scheduling engine

A Dafny model of the tick-driven CPU scheduling simulator in `resources/ref_py`.
The simulator loads a workload of processes. Each process has an id, an arrival
time, a service time and a list of I/O bursts. The simulator then runs it under
five policies:

- First-Come-First-Served (FCFS), Shortest Process Next (SPN) and Highest
  Response Ratio Next (HRRN), all on the non-preemptive base scheduler;
- Shortest Remaining Time (SRT), which preempts when a process arrives;
- Round Robin (RR) with quanta 1 and 4.

Each tick of the clock does these steps in order:

1. admit the processes that have arrived;
2. move the process on the CPU out if it has finished, needs I/O or (RR) has
   used its quantum, and select the next one;
3. stop when every process has finished;
4. otherwise run one unit of work, age the ready and I/O-wait queues, move the
   processes whose I/O completed back to the ready queue, and advance the clock.

The model has two layers:

- **Functions of the state.** `Scheduling`, `RoundRobin`, `ShortestRemaining`
  and `Engines` define one tick of each scheduler as a function from a `State`
  value to a `Step` (still running, done, or crashed where the Python raises).
  The lemmas about these functions are the properties below.
- **Imperative code.** `Queues.Queue` is the deque subclass. Its methods update
  its contents in place, and `DequeAt` is the literal rotate / pop / rotate.
  `Schedulers.Scheduler` holds four `Queue` objects, the process on the CPU,
  the clock, `done` and `total_procs`. Its admission, selection, aging and
  drain loops work the way the Python methods do. Every method is proved to
  leave the object in the state that the tick function computes from the state
  before the call.

Modules, one per source file:

| file | module | models |
|---|---|---|
| queue.dfy | `Queues` | queue.py, Python's `deque.rotate` and `%` |
| proc.dfy | `Procs` | proc.py |
| policy.dfy | `Policies` | the policy table of main.py and the scan of `select` |
| scheduler.dfy | `Scheduling` | scheduler.py: `__init__` (without the CSV), `tick` and `select` as functions |
| rr_scheduler.dfy | `RoundRobin` | rr_scheduler.py |
| srt_scheduler.dfy | `ShortestRemaining` | srt_scheduler.py |
| engine.dfy | `Engines` | dispatch of `tick` by class, and `run` bounded by a tick budget |
| schedulers.dfy | `Schedulers` | the scheduler object with its queues and loops |

Where the Python raises instead of completing a tick, the model returns a
`Fault`:

- `IdleWork`: the work step runs with no process on the CPU.
- `MissingBurst`: a process in I/O wait has no burst left.
- `ZeroService`: HRRN's ratio divides by a service time of 0.

Conservation is counted on process ids, because a record's other fields change
as it moves. `Population` is the multiset of ids over arrival, ready, the CPU,
I/O wait and finished.

## Model

| member | source | states |
|---|---|---|
| Queues.Queue.constructor | resources/ref_py/queue.py:4 | a new queue is empty |
| Queues.Queue.Peek | resources/ref_py/queue.py:5-6 | returns the front element, or None on an empty queue; it changes nothing |
| Queues.Queue.Enque | resources/ref_py/queue.py:8-9 | the contents become the old contents with the element appended at the tail |
| Queues.Queue.Deque | resources/ref_py/queue.py:11-12 | on a non-empty queue it returns the front and leaves the rest; on an empty one it returns None and changes nothing |
| Queues.Queue.Rotate | resources/ref_py/queue.py:16-18 | the contents become the rotation by n, with the step taken modulo the length; a queue of length 0 or 1 is unchanged |
| Queues.Queue.DequeAt | resources/ref_py/queue.py:14-19 | the result and contents are those of rotate, pop, rotate back; on any non-empty queue it returns element index mod n and the multiset loses exactly that element; for 0 <= index < n it returns `q[index]` and leaves `q[..index] + q[index+1..]` |
| Queues.PyMod | resources/ref_py/queue.py:16-18 | Python's `n % L` for a positive length, computed by adding or subtracting L, lies in [0, L) |
| Queues.PyModIsRemainder | resources/ref_py/queue.py:16-18 | for a positive length Python's floor `%` is the Euclidean remainder `n % L`, so the step that rotate takes is fixed outright |
| Queues.Removed | resources/ref_py/queue.py:14-19 | the reference removal `q[..k] + q[k+1..]` that deque_at is compared with: one element shorter, the elements before and after k keep their order, and the multiset loses exactly `q[k]` |
| Queues.RotatedRightBy | resources/ref_py/queue.py:16 | the last k elements moved, in order, in front of the others; the length is kept |
| Queues.Rotated | resources/ref_py/queue.py:16-18 | `deque.rotate(n)`: a deque of length 0 or 1 is left alone, any other is rotated right by n mod len; the length is kept |
| Queues.RotatedPermutes | resources/ref_py/queue.py:16 | a rotation neither adds nor drops an element |
| Queues.RotatedMoves | resources/ref_py/queue.py:16 | rotate(n) moves the element at i to position (i + n) mod len |
| Queues.RotatedLeft | resources/ref_py/queue.py:16 | rotate(-x) brings element x mod len to the front, the elements before it moved behind |
| Queues.RotatedSwapsBack | resources/ref_py/queue.py:18 | the second rotation of deque_at puts the part that was wrapped behind back in front |
| Queues.AfterDequeAt | resources/ref_py/queue.py:14-19 | deque_at shortens a non-empty queue by one and leaves an empty one unchanged |
| Queues.DequeAtResult | resources/ref_py/queue.py:14-19 | deque_at returns None exactly on an empty queue |
| Queues.DequeAtRemovesReturned | resources/ref_py/queue.py:14-19 | for every index, including one past the end where rotate wraps, deque_at returns element index mod n and removes exactly that element |
| Queues.DequeAtInRange | resources/ref_py/queue.py:14-19 | for an index inside the queue, deque_at returns `q[index]` and leaves the others in their order |
| Queues.DequeAtZeroIsDeque | resources/ref_py/queue.py:11-19 | deque_at(0) on a non-empty queue is deque |
| Procs.Elapsed | resources/ref_py/scheduler.py:55 | computes `service_time - remaining_time`, the CPU time consumed, which the I/O test compares with the head burst's offset |
| Procs.TotalWait | resources/ref_py/proc.py:24-25 | computes `time_in_ready + time_in_io_wait` |
| Procs.TurnaroundTime | resources/ref_py/proc.py:18-19 | computes `finish_time - arrival_time` |
| Procs.NormTurnaround | resources/ref_py/proc.py:21-22 | computes turnaround divided by service time as a real; a zero service time is excluded, where Python raises ZeroDivisionError |
| Procs.NewProc | resources/ref_py/proc.py:5-16 | a new record has remaining time equal to service time, is not started, has start and finish time 0, all counters 0 and no bursts |
| Procs.NormTurnaroundScales | resources/ref_py/proc.py:18-22 | the normalised turnaround times the service time is the turnaround, and it is at least 1 exactly when the turnaround is at least the service time |
| Policies.Init | resources/ref_py/main.py:9-38 | computes `selection_init`: 0 for FCFS and HRRN, `sys.maxsize` for SPN and SRT |
| Policies.Comparator | resources/ref_py/main.py:11-29 | computes the direction of `selection_func`: greater-than for FCFS and HRRN, less-than for SPN and SRT |
| Policies.ResponseRatio | resources/ref_py/main.py:22-23 | computes `(total_wait + service_time) / service_time` for a non-zero service time |
| Policies.Key | resources/ref_py/main.py:11-29 | computes `selection_field`: total wait for FCFS, service time for SPN, response ratio for HRRN, remaining time for SRT |
| Policies.Beats | resources/ref_py/main.py:11-29 | computes `selection_func(e, acc)`: the key of e is strictly better than acc in the comparator's direction |
| Policies.ResponseRatioAtLeastOne | resources/ref_py/main.py:21-24 | with a positive service time and non-negative waits the response ratio is at least 1, so it beats HRRN's initial 0 |
| Policies.ResponseRatioCrossMultiplied | resources/ref_py/main.py:21-24 | comparing two response ratios is comparing the cross products `(w1+s1)*s2` and `(w2+s2)*s1` |
| Policies.Scan | resources/ref_py/scheduler.py:94-99 | after n entries the scan holds the first entry whose key is strictly better than every earlier key, with no later key strictly better; if no entry beats the seed it holds the seed and index 0 |
| Policies.ScanStep | resources/ref_py/scheduler.py:96-99 | one more entry replaces (acc, index) exactly when the comparator says it beats acc |
| Policies.BestIndex | resources/ref_py/scheduler.py:94-100 | the index `select` passes to deque_at, the scan's index after the whole ready queue, lies inside the queue |
| Policies.FcfsPicksLongestWait | resources/ref_py/main.py:11-14 | FCFS picks the largest total wait, ties go to the earliest entry, and the head is picked when nobody has waited |
| Policies.SpnPicksShortestService | resources/ref_py/main.py:16-19 | SPN picks the smallest service time, ties go to the earliest entry; if no service time is below sys.maxsize the head is picked |
| Policies.HrrnPicksHighestRatio | resources/ref_py/main.py:21-24 | HRRN picks the highest response ratio, ties go to the earliest entry |
| Policies.SrtPicksShortestRemaining | resources/ref_py/main.py:26-29 | SRT picks the smallest remaining time, ties go to the earliest entry |
| Policies.SrtPicksLastOnlyIfStrictlyShortest | resources/ref_py/srt_scheduler.py:29-31 | the tail entry is picked exactly when its remaining time is below sys.maxsize and strictly below every entry ahead of it |
| Scheduling.Load | resources/ref_py/scheduler.py:8-31 | a loaded scheduler has clock 0, `done` set, `total_procs` equal to the workload size, and every process new and in the arrival queue in workload order |
| Scheduling.AdmitCount | resources/ref_py/scheduler.py:40-44 | admission moves a prefix of heads that have all arrived and stops at the first later arrival |
| Scheduling.Admit | resources/ref_py/scheduler.py:40-44 | admission only moves records from the arrival queue to the ready queue: arrival does not grow, the two together keep their length, and every other field is unchanged |
| Scheduling.AdmitMovesArrivedPrefix | resources/ref_py/scheduler.py:40-44 | admission moves the arrived heads in order to the ready tail, keeps the rest of the arrival queue, changes nothing else and keeps the population |
| Scheduling.Dispatched | resources/ref_py/scheduler.py:100-104 | dispatch sets `started` and records the clock as start time only on the first dispatch |
| Scheduling.RankSelect | resources/ref_py/scheduler.py:90-104 | select fails exactly when the ready queue holds a process whose key is undefined, and then only under HRRN with a zero service time |
| Scheduling.RankSelectPicksBest | resources/ref_py/scheduler.py:90-104 | select returns nothing on an empty ready queue; otherwise it dispatches the scan's winner and leaves the other ready processes in order |
| Scheduling.RankSelectConserves | resources/ref_py/scheduler.py:90-104 | select moves exactly the id it dispatches out of the ready queue |
| Scheduling.Install | resources/ref_py/scheduler.py:48 | computes `in_context = select()`: a failing select passes its fault on, otherwise the selection is installed |
| Scheduling.Installed | resources/ref_py/scheduler.py:48 | computes the state with the chosen process on the CPU and the ready queue select leaves |
| Scheduling.Retire | resources/ref_py/scheduler.py:50-52 | finishing adds exactly the process's id to `finished`, stamped with the clock |
| Scheduling.Block | resources/ref_py/scheduler.py:54-56 | blocking adds exactly the process's id to `io_wait` |
| Scheduling.IoDue | resources/ref_py/scheduler.py:54-55 | computes whether bursts remain and the CPU time consumed equals the head burst's offset |
| Scheduling.Requeue | resources/ref_py/srt_scheduler.py:29-30 | putting the process back adds exactly its id to the ready tail |
| Scheduling.BaseTransition | resources/ref_py/scheduler.py:46-57 | the base transition fails only under HRRN, with a zero service time, and never changes the clock, `done`, `total_procs` or the arrival queue |
| Scheduling.BaseTransitionNonPreemptive | resources/ref_py/scheduler.py:47-57 | a running process with time left and no due burst keeps the CPU and nothing changes |
| Scheduling.BaseTransitionMoves | resources/ref_py/scheduler.py:47-57 | a finished process enters `finished` stamped with the clock; a process whose head burst is due enters the I/O-wait tail unchanged; either way select runs next |
| Scheduling.BaseTransitionConserves | resources/ref_py/scheduler.py:46-57 | the base transition neither creates nor loses a process |
| Scheduling.Worked | resources/ref_py/scheduler.py:64 | the work step lowers the remaining time by exactly 1 and changes nothing else except, for RR, `time_in_cpu` |
| Scheduling.AgedReady | resources/ref_py/scheduler.py:70-71 | every ready process gains exactly one tick of ready time, order kept |
| Scheduling.IoTick | resources/ref_py/scheduler.py:74-81 | an I/O-wait process gains one tick of I/O wait and its head burst loses one tick, dropped at 0 or less; with no burst it fails |
| Scheduling.AgedIo | resources/ref_py/scheduler.py:73-81 | the I/O loop fails exactly when some process has no burst; otherwise it ticks every process and records, in increasing order, exactly the positions whose burst completed |
| Scheduling.Drained | resources/ref_py/scheduler.py:84-85 | the drain moves one record per recorded index and keeps the old ready queue as a prefix |
| Scheduling.DrainedKeepsRecords | resources/ref_py/scheduler.py:84-85 | whatever the indices, the drain only moves records between I/O wait and ready |
| Scheduling.DrainedKeepsIds | resources/ref_py/scheduler.py:84-85 | the drain keeps the combined ids of I/O wait and ready |
| Scheduling.DrainSingle | resources/ref_py/scheduler.py:84-85 | with one completion, that process goes to the ready tail and I/O wait keeps the others in order |
| Scheduling.DrainStaleIndices | resources/ref_py/scheduler.py:84-85 | with I/O wait A, B, C and positions 0 and 2 completing, B is moved instead of C |
| Scheduling.DrainedMovesRecords | resources/ref_py/scheduler.py:84-85 | the records the drain leaves in I/O wait together with those it appends to ready are exactly the records I/O wait held |
| Scheduling.Finish | resources/ref_py/scheduler.py:59-88 | the rest of the tick returns at the completion check exactly when every process has finished, can raise only for an idle CPU or a missing burst, and never changes `finished`, arrival or `total_procs` |
| Scheduling.AgeStep | resources/ref_py/scheduler.py:70-85 | aging fails, with a missing burst, exactly when some I/O-wait process has no burst; otherwise it changes only ready and I/O wait, keeps their combined length, and leaves the aged old ready queue in front |
| Scheduling.FinishCompletion | resources/ref_py/scheduler.py:59-64 | with every process finished the tick sets `done` and returns unchanged; otherwise an idle CPU at the work step fails |
| Scheduling.FinishNonFinal | resources/ref_py/scheduler.py:64-88 | a non-final tick works one unit on the process on the CPU, ages every ready process by one, advances the clock by one, and leaves `finished`, arrival and `done` alone |
| Scheduling.FinishAgesIoWait | resources/ref_py/scheduler.py:73-85 | past the completion check, with a process on the CPU and a burst for every I/O-wait process, the tick runs to the clock update and ages every I/O-wait process: the records left in I/O wait plus those moved to the ready tail are exactly the I/O ticks of the old I/O-wait records |
| Scheduling.FinishSingleCompletion | resources/ref_py/scheduler.py:73-85 | when exactly one I/O-wait process completes, it is moved behind the aged ready queue and I/O wait keeps the others in order |
| Scheduling.FinishConserves | resources/ref_py/scheduler.py:59-88 | the steps after the transition neither create nor lose a process |
| Scheduling.AgeStepConserves | resources/ref_py/scheduler.py:70-85 | aging and the drain change only ready and I/O wait, and keep their combined ids |
| Scheduling.BaseTickConserves | resources/ref_py/scheduler.py:38-88 | no base tick creates, loses or duplicates a process |
| Scheduling.BaseTick | resources/ref_py/scheduler.py:38-88 | a base tick can raise ZeroDivisionError only under HRRN |
| Scheduling.BaseTickSkipsPassedOffset | resources/ref_py/scheduler.py:54-57 | a running process whose elapsed time has passed its head burst's offset keeps the CPU and stays past the offset |
| Scheduling.EmptyWorkloadDoneAtOnce | resources/ref_py/scheduler.py:59-61 | an empty workload is done on the first tick with the clock still 0 |
| RoundRobin.FifoSelect | resources/ref_py/rr_scheduler.py:69-77 | RR select returns nothing on an empty ready queue, otherwise the dispatched head, and the rest of the queue |
| RoundRobin.FifoSelectConserves | resources/ref_py/rr_scheduler.py:69-77 | RR select moves exactly the head's id from ready to the CPU |
| RoundRobin.Requeued | resources/ref_py/rr_scheduler.py:32-34 | the quantum branch adds exactly the process's id to the ready tail, with `time_in_cpu` reset to 0 |
| RoundRobin.RrTransition | resources/ref_py/rr_scheduler.py:18-35 | the RR transition never changes the clock, `done`, `total_procs` or the arrival queue |
| RoundRobin.RrTick | resources/ref_py/rr_scheduler.py:10-67 | an RR tick never raises ZeroDivisionError |
| RoundRobin.RrCheckOrder | resources/ref_py/rr_scheduler.py:19-35 | finish, I/O and quantum are tested in that order and exactly the first that holds fires |
| RoundRobin.RrPendingBurstReachesQuantum | resources/ref_py/rr_scheduler.py:27-32 | a pending burst that is not due does not stop the quantum test |
| RoundRobin.RrQuantumHandsOver | resources/ref_py/rr_scheduler.py:32-35 | at the quantum the process goes to the ready tail with `time_in_cpu` 0 and the old ready head takes the CPU; alone, it continues |
| RoundRobin.RrResetOnlyAtQuantum | resources/ref_py/rr_scheduler.py:22-30 | finishing or blocking for I/O keeps `time_in_cpu` |
| RoundRobin.RrPastQuantumNeverPreempted | resources/ref_py/rr_scheduler.py:27-43 | a process past its quantum with time left and no due burst is not preempted, and the work step takes it further past |
| RoundRobin.RrTransitionConserves | resources/ref_py/rr_scheduler.py:19-35 | the RR transition neither creates nor loses a process |
| RoundRobin.RrTickConserves | resources/ref_py/rr_scheduler.py:10-67 | no RR tick creates, loses or duplicates a process |
| ShortestRemaining.NewArrivalsExactlyWhenAdmitted | resources/ref_py/srt_scheduler.py:7-13 | `new_arrivals` is set exactly when admission moves at least one process |
| ShortestRemaining.SrtTransition | resources/ref_py/srt_scheduler.py:15-31 | the SRT transition never changes the clock, `done`, `total_procs` or the arrival queue |
| ShortestRemaining.SrtTick | resources/ref_py/srt_scheduler.py:5-62 | an SRT tick never raises ZeroDivisionError |
| ShortestRemaining.SrtTransitionTotal | resources/ref_py/srt_scheduler.py:15-31 | SRT selection never fails |
| ShortestRemaining.SrtPreemptsOnlyWithoutBursts | resources/ref_py/srt_scheduler.py:16-31 | arrival preemption fires only for a busy CPU whose process has time left and no bursts, and then requeues it and selects again whatever the remaining times; with bursts pending but not due, arrivals are ignored |
| ShortestRemaining.SrtPreemptedWinsOnlyIfStrictlyShorter | resources/ref_py/srt_scheduler.py:29-31 | the preempted process wins back the CPU exactly when its remaining time is below sys.maxsize and strictly below every other ready process's |
| ShortestRemaining.SrtTransitionConserves | resources/ref_py/srt_scheduler.py:15-31 | the SRT transition neither creates nor loses a process |
| ShortestRemaining.SrtTickConserves | resources/ref_py/srt_scheduler.py:5-62 | no SRT tick creates, loses or duplicates a process |
| ShortestRemaining.LoadHasNoCpuCounts | resources/ref_py/proc.py:15 | every loaded record has `time_in_cpu` 0 |
| ShortestRemaining.SrtTickKeepsCpuCountsZero | resources/ref_py/srt_scheduler.py:38 | the SRT work step never touches `time_in_cpu`, so it stays 0 on every record |
| Engines.Tick | resources/ref_py/main.py:9-38 | `tick` of the class each configured run uses (RR for Round Robin, SRT for SRT, the base class otherwise); only HRRN can raise ZeroDivisionError |
| Engines.TickConserves | resources/ref_py/main.py:9-38 | no tick of any configured scheduler creates, loses or duplicates a process |
| Engines.TickClock | resources/ref_py/scheduler.py:59-88 | a tick that runs to the end advances the clock by exactly one; one that stops at the completion check keeps the clock, with `done` set and every process finished |
| Engines.FinishTimeIsNextClock | resources/ref_py/scheduler.py:50-88 | a process whose last unit ran at clock c is retired by the next tick with finish time c + 1 |
| Engines.LoopUnfolds | resources/ref_py/scheduler.py:35-36 | with budget left, one turn of the run loop is decided by the tick: raise, stop or continue |
| Engines.TickOf | resources/ref_py/scheduler.py:36 | computes `self.tick`, bound dynamically to the class of the policy |
| Engines.Loop | resources/ref_py/scheduler.py:35-36 | computes `while not self.done: self.tick()` with a tick budget: it stops at a raise, at `done`, or when the budget is spent |
| Engines.Run | resources/ref_py/scheduler.py:33-36 | computes `run`: `done` cleared, then the loop |
| Engines.TickOfKeeps | resources/ref_py/scheduler.py:38-88 | every tick keeps the population and `total_procs`, and stops only when every process has finished |
| Engines.LoopKeeps | resources/ref_py/scheduler.py:35-36 | a run that does not fail keeps every quantity each tick keeps |
| Engines.LoopStopsOnlyWhenComplete | resources/ref_py/scheduler.py:35-36 | a run stops by completion only with `done` set and every process finished |
| Engines.RunCompletesWorkload | resources/ref_py/scheduler.py:33-36 | when a run completes, `finished` holds exactly the workload's processes once each, and every queue and the CPU are empty |
| Engines.EmptyRunCompletesAtOnce | resources/ref_py/scheduler.py:33-36 | an empty workload's run completes on its first tick |
| Schedulers.ScanLoop | resources/ref_py/scheduler.py:94-99 | the scan loop returns the winner's index, or fails exactly when HRRN meets a zero service time |
| Schedulers.IoWaitTick | resources/ref_py/scheduler.py:75-81 | the field-by-field update of one I/O-wait process yields exactly `IoTick` of the record: one more tick of I/O wait, the head burst one tick shorter and dropped at 0 or less, or the raise when no burst is left |
| Schedulers.RunTurn | resources/ref_py/scheduler.py:35-36 | the outcome of one tick tells how the bounded run from that state ends |
| Schedulers.Scheduler.constructor | resources/ref_py/scheduler.py:8-31 | the new scheduler's state is the loaded workload, with four distinct fresh queues |
| Schedulers.Scheduler.Admit | resources/ref_py/scheduler.py:40-44 | the admission loop leaves the state that admission computes, and reports whether it moved anybody |
| Schedulers.Scheduler.Select | resources/ref_py/scheduler.py:90-104 | select returns the chosen process and leaves the ready queue as the selection function does, or fails on HRRN's zero service time |
| Schedulers.Scheduler.SelectHead | resources/ref_py/rr_scheduler.py:69-77 | RR select returns and removes what FIFO selection does |
| Schedulers.Scheduler.AgeReady | resources/ref_py/scheduler.py:70-71 | the ready queue becomes the aged ready queue |
| Schedulers.Scheduler.AgeIoWait | resources/ref_py/scheduler.py:73-81 | the I/O loop leaves the aged I/O-wait queue and returns `to_remove`, or fails exactly when some process has no burst |
| Schedulers.Scheduler.DrainIo | resources/ref_py/scheduler.py:84-85 | the drain loop leaves I/O wait and ready as the drain function does |
| Schedulers.Scheduler.AgeAndDrain | resources/ref_py/scheduler.py:70-85 | aging, the I/O loop and the drain leave the state of the aging step, or fail where it fails |
| Schedulers.Scheduler.FinishTick | resources/ref_py/scheduler.py:59-88 | the steps after the transition leave the state and outcome of the function for them |
| Schedulers.Scheduler.BaseTick | resources/ref_py/scheduler.py:38-88 | the base tick leaves the state and outcome of the base tick function |
| Schedulers.Scheduler.RrTick | resources/ref_py/rr_scheduler.py:10-67 | the RR tick leaves the state and outcome of the RR tick function |
| Schedulers.Scheduler.SrtTick | resources/ref_py/srt_scheduler.py:5-62 | the SRT tick leaves the state and outcome of the SRT tick function |
| Schedulers.Scheduler.Tick | resources/ref_py/main.py:9-38 | `tick`, dispatched on the scheduler's class, leaves the state and outcome of that class's tick |
| Schedulers.Scheduler.Turn | resources/ref_py/scheduler.py:35-36 | one turn of the run loop moves the bounded run one tick forward |
| Schedulers.Scheduler.Run | resources/ref_py/scheduler.py:33-36 | `run` clears `done` and ends as the bounded run does: all finished, a raise, or the budget spent, in the state the run reaches |
| Schedulers.Scheduler.RunLoop | resources/ref_py/scheduler.py:35-36 | the tick loop ends as the bounded run from its start state does |

## Left out

- The CSV loading of the constructor (resources/ref_py/scheduler.py:22-31) is file I/O. The workload is given as a list of descriptors (id, arrival time, service time, bursts) in file order.
- `dump`, `Scheduler.__str__` and `Proc.__str__` are file writing and string formatting. The means they compute are not modelled.
- main.py:40-43 (command-line arguments and the run, dump and print loop) is I/O.
- Schedulers.Scheduler.Run: termination of `run` is neither guaranteed nor checked by the program, so the loop is bounded by a tick budget. A run that needs more ticks ends as `BudgetSpent`.
- Schedulers.Scheduler.Tick: after a raise, the contract says nothing about the object's state. The Python leaves it partly updated, and the simulation stops there.
- `norm_turnaround` and the HRRN ratio are reals, not doubles. The model can differ from Python only when two ratios round to the same double.
- Process records are values. The Python shares `Proc` objects between its queues, but each record is in exactly one place at a time, so no aliasing is lost.
- `name`, `selection_func`, `selection_field` and `selection_init` are not fields. The policy datatype fixes the comparator, field and initial value from main.py:9-38. The display names of main.py:9-38 only label the output and are not modelled.
- The defects of the program are modelled literally, not corrected:
  - the drain removes by indices recorded before any removal (`DrainStaleIndices`);
  - the RR quantum test is an equality (`RrPastQuantumNeverPreempted`);
  - an idle CPU at the work step raises (`FinishCompletion`);
  - a head burst whose offset has passed is never triggered (`BaseTickSkipsPassedOffset`).
