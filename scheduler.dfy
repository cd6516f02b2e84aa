/** One tick of the base scheduler (resources/ref_py/scheduler.py), used for
    FCFS, SPN and HRRN, as a function from state to state. The steps shared
    with the Round Robin and SRT ticks (admission, selection, the completion
    check, work, aging and the I/O drain) are defined here once. */
module Scheduling {
  import opened Queues
  import opened Procs
  import opened Policies

  /** The scheduler's state: the clock, the done flag, the number of loaded
      processes, the process on the CPU and the four queues, front first. */
  datatype State = State(
    clock: int,
    done: bool,
    totalProcs: int,
    inContext: Option<Proc>,
    arrival: seq<Proc>,
    ready: seq<Proc>,
    ioWait: seq<Proc>,
    finished: seq<Proc>)

  /** Where the Python raises instead of completing the tick:
      IdleWork — the work step dereferences an empty CPU (`None.remaining_time`);
      MissingBurst — an io_wait process has no burst left (`None[1]`);
      ZeroService — HRRN's ratio divides by a zero service time. */
  datatype Fault = IdleWork | MissingBurst | ZeroService

  datatype Result<T> = Ok(value: T) | Err(fault: Fault)

  /** The outcome of a tick: it ran to the clock update, it returned at the
      completion check with `done` set, or it raised. */
  datatype Step = Running(st: State) | Done(st: State) | Crashed(fault: Fault)

  // ---------------------------------------------------------------------
  // Conservation is counted on process ids: records change field by field
  // as they move, their ids never do.

  function ContextBag(c: Option<Proc>): multiset<string>
  {
    if c.Some? then multiset{c.value.id} else multiset{}
  }

  /** The ids of every process the scheduler holds, wherever it sits. */
  function Population(st: State): multiset<string>
  {
    IdBag(st.arrival) + IdBag(st.ready) + IdBag(st.ioWait) + IdBag(st.finished) + ContextBag(st.inContext)
  }

  /** Two sequences holding the same records hold the same ids. */
  lemma {:induction false} IdBagOfPermutation(a: seq<Proc>, b: seq<Proc>)
    requires multiset(a) == multiset(b)
    ensures IdBag(a) == IdBag(b)
    decreases |a|
  {
    if |a| == 0 {
      assert |b| == |multiset(b)|;
    } else {
      var x := a[0];
      assert x in multiset(b);
      var j :| 0 <= j < |b| && b[j] == x;
      var rest := Removed(b, j);
      HeadMultiset(a);
      assert multiset(a[1..]) == multiset(a) - multiset{x};
      assert multiset(rest) == multiset(b) - multiset{x};
      IdBagOfPermutation(a[1..], rest);
      IdBagRemoved(b, j);
      IdBagHead(a);
    }
  }

  lemma IdBagHead(a: seq<Proc>)
    requires |a| > 0
    ensures IdBag(a) == IdBag(a[1..]) + multiset{a[0].id}
  {
    assert a == [a[0]] + a[1..];
    IdBagAppend([a[0]], a[1..]);
    assert Ids([a[0]]) == [a[0].id];
  }

  /** deque_at on a queue of records removes the id of the record it returns. */
  lemma IdBagAfterDequeAt(s: seq<Proc>, index: int)
    requires |s| > 0
    ensures DequeAtResult(s, index).Some?
    ensures IdBag(AfterDequeAt(s, index)) + multiset{DequeAtResult(s, index).value.id} == IdBag(s)
  {
    var rest := AfterDequeAt(s, index);
    var v := s[PyMod(index, |s|)];
    DequeAtRemovesReturned(s, index);
    assert multiset(rest + [v]) == multiset(s);
    IdBagOfPermutation(rest + [v], s);
    IdBagPushed(rest, v);
  }

  lemma IdBagPushed(s: seq<Proc>, p: Proc)
    ensures IdBag(s + [p]) == IdBag(s) + multiset{p.id}
  {
    IdBagAppend(s, [p]);
    assert Ids([p]) == [p.id];
  }

  lemma IdBagRemoved(s: seq<Proc>, k: nat)
    requires k < |s|
    ensures IdBag(Removed(s, k)) + multiset{s[k].id} == IdBag(s)
  {
    assert Ids(Removed(s, k)) == Removed(Ids(s), k);
  }

  // ---------------------------------------------------------------------
  // Loading (the in-memory counterpart of the constructor).

  /** One process of a workload together with its I/O bursts. */
  datatype Descriptor = Descriptor(id: string, arrivalTime: int, serviceTime: int, ioBursts: seq<Burst>)

  function Loaded(d: Descriptor): Proc
  {
    NewProc(d.id, d.arrivalTime, d.serviceTime).(ioBursts := d.ioBursts)
  }

  /** A scheduler holding the workload in its arrival queue, in the given
      order: clock 0, `done` set, `total_procs` the number of processes. */
  function Load(workload: seq<Descriptor>): (st: State)
    ensures st.clock == 0 && st.done && st.inContext == None
    ensures st.totalProcs == |workload| == |st.arrival|
    ensures st.ready == [] && st.ioWait == [] && st.finished == []
    ensures forall i :: 0 <= i < |workload| ==>
              var p := st.arrival[i];
              p.id == workload[i].id && p.arrivalTime == workload[i].arrivalTime &&
              p.serviceTime == workload[i].serviceTime && p.ioBursts == workload[i].ioBursts &&
              p.remainingTime == p.serviceTime && TotalWait(p) == 0 && p.timeInCpu == 0 && !p.started
  {
    var arrival := seq(|workload|, i requires 0 <= i < |workload| => Loaded(workload[i]));
    State(0, true, |workload|, None, arrival, [], [], [])
  }

  // ---------------------------------------------------------------------
  // Admission.

  /** How many arrival-queue heads the admission loop moves: it stops at the
      first process that has not arrived yet. */
  function AdmitCount(arrival: seq<Proc>, clock: int): (m: nat)
    ensures m <= |arrival|
    ensures forall j :: 0 <= j < m ==> arrival[j].arrivalTime <= clock
    ensures m < |arrival| ==> arrival[m].arrivalTime > clock
  {
    if |arrival| > 0 && arrival[0].arrivalTime <= clock then 1 + AdmitCount(arrival[1..], clock)
    else 0
  }

  /** The admission loop: processes only move from the arrival queue to the
      ready queue, and nothing else changes (which ones move, and in what
      order, is `AdmitMovesArrivedPrefix`). */
  function Admit(st: State): (r: State)
    ensures r == st.(arrival := r.arrival, ready := r.ready)
    ensures |r.arrival| <= |st.arrival| && |r.arrival| + |r.ready| == |st.arrival| + |st.ready|
  {
    var m := AdmitCount(st.arrival, st.clock);
    st.(arrival := st.arrival[m..], ready := st.ready + st.arrival[..m])
  }

  /** Admission moves the arrived heads of the arrival queue, in order, to the
      ready tail, stops at the first later arrival and changes nothing else. */
  lemma AdmitMovesArrivedPrefix(st: State)
    ensures var r := Admit(st);
      var moved := st.arrival[..|st.arrival| - |r.arrival|];
      st.arrival == moved + r.arrival &&
      r.ready == st.ready + moved &&
      (forall j :: 0 <= j < |moved| ==> moved[j].arrivalTime <= st.clock) &&
      (|r.arrival| > 0 ==> r.arrival[0].arrivalTime > st.clock) &&
      r == st.(arrival := r.arrival, ready := r.ready) &&
      Population(r) == Population(st)
  {
    var m := AdmitCount(st.arrival, st.clock);
    assert st.arrival == st.arrival[..m] + st.arrival[m..];
    IdBagAppend(st.arrival[..m], st.arrival[m..]);
    IdBagAppend(st.ready, st.arrival[..m]);
  }

  // ---------------------------------------------------------------------
  // Selection.

  /** A choice made by `select`: the process dispatched, if any, and what is
      left of the ready queue. */
  datatype Selection = Selection(chosen: Option<Proc>, ready: seq<Proc>)

  /** The first dispatch latches `started` and records the start time; a
      later dispatch keeps both. */
  function Dispatched(p: Proc, clock: int): (r: Proc)
    ensures r.started && r.id == p.id
    ensures r.startTime == if p.started then p.startTime else clock
    ensures r == p.(started := true, startTime := r.startTime)
  {
    if p.started then p else p.(startTime := clock, started := true)
  }

  /** The base `select`: on an empty ready queue nothing; otherwise the scan's
      winner removed by deque_at and dispatched. HRRN fails on a zero service
      time. */
  function RankSelect(policy: Policy, clock: int, ready: seq<Proc>): (r: Result<Selection>)
    requires Ranked(policy)
    ensures r.Err? <==> |ready| > 0 && !AllKeysDefined(policy, ready)
    ensures r.Err? ==> r.fault == ZeroService && policy == HRRN
  {
    if |ready| <= 0 then Ok(Selection(None, ready))
    else if !AllKeysDefined(policy, ready) then Err(ZeroService)
    else
      var k := BestIndex(policy, ready);
      Ok(Selection(Some(Dispatched(DequeAtResult(ready, k).value, clock)), AfterDequeAt(ready, k)))
  }

  /** `select` dispatches the scan's winner and leaves the other ready
      processes in their order; on an empty ready queue it returns nothing. */
  lemma RankSelectPicksBest(policy: Policy, clock: int, ready: seq<Proc>)
    requires Ranked(policy)
    ensures var r := RankSelect(policy, clock, ready);
      (|ready| == 0 ==> r == Ok(Selection(None, []))) &&
      (r.Ok? && |ready| > 0 ==>
         var k := BestIndex(policy, ready);
         r.value == Selection(Some(Dispatched(ready[k], clock)), Removed(ready, k)))
  {
    if |ready| > 0 && AllKeysDefined(policy, ready) {
      DequeAtInRange(ready, BestIndex(policy, ready));
    }
  }

  /** `select` moves one process from the ready queue to the CPU, or none. */
  lemma RankSelectConserves(policy: Policy, clock: int, ready: seq<Proc>)
    requires Ranked(policy)
    ensures var r := RankSelect(policy, clock, ready);
      r.Ok? ==> IdBag(r.value.ready) + ContextBag(r.value.chosen) == IdBag(ready)
  {
    var r := RankSelect(policy, clock, ready);
    RankSelectPicksBest(policy, clock, ready);
    if r.Ok? && |ready| > 0 {
      IdBagRemoved(ready, BestIndex(policy, ready));
    }
  }

  /** `in_context = select()`: the selection takes the CPU and the ready queue
      shrinks accordingly. */
  function Install(st: State, sel: Result<Selection>): Result<State>
  {
    match sel
    case Err(f) => Err(f)
    case Ok(s) => Ok(Installed(st, s))
  }

  function Installed(st: State, s: Selection): State
  {
    st.(inContext := s.chosen, ready := s.ready)
  }

  // ---------------------------------------------------------------------
  // The transition at the start of a tick.

  /** The finish branch: the record enters `finished` stamped with the clock. */
  function Retire(st: State, p: Proc): (r: State)
    ensures IdBag(r.finished) == IdBag(st.finished) + multiset{p.id}
  {
    IdBagPushed(st.finished, p.(finishTime := st.clock));
    st.(finished := st.finished + [p.(finishTime := st.clock)])
  }

  /** The I/O branch: the record enters the io_wait tail. */
  function Block(st: State, p: Proc): (r: State)
    ensures IdBag(r.ioWait) == IdBag(st.ioWait) + multiset{p.id}
  {
    IdBagPushed(st.ioWait, p);
    st.(ioWait := st.ioWait + [p])
  }

  /** The head burst is due: the CPU time consumed equals its offset. Only the
      head is tested, and only by equality. */
  predicate IoDue(p: Proc)
  {
    |p.ioBursts| > 0 && Elapsed(p) == p.ioBursts[0].offset
  }

  /** The base transition: an idle CPU selects; a process with no time left
      finishes; a process whose head burst is due blocks for I/O; otherwise
      the running process keeps the CPU. */
  function BaseTransition(policy: Policy, st: State): (r: Result<State>)
    requires Ranked(policy)
    ensures r.Err? ==> r.fault == ZeroService && policy == HRRN
    ensures r.Ok? ==> r.value.clock == st.clock && r.value.totalProcs == st.totalProcs &&
                      r.value.done == st.done && r.value.arrival == st.arrival
  {
    match st.inContext
    case None => Install(st, RankSelect(policy, st.clock, st.ready))
    case Some(p) =>
      if p.remainingTime <= 0 then
        Install(Retire(st, p), RankSelect(policy, st.clock, st.ready))
      else if |p.ioBursts| > 0 then
        if Elapsed(p) == p.ioBursts[0].offset then
          Install(Block(st, p), RankSelect(policy, st.clock, st.ready))
        else Ok(st)
      else Ok(st)
  }

  /** The base scheduler never preempts: a running process with time left and
      no due burst keeps the CPU, and nothing else changes. */
  lemma BaseTransitionNonPreemptive(policy: Policy, st: State)
    requires Ranked(policy)
    requires st.inContext.Some? && st.inContext.value.remainingTime > 0 && !IoDue(st.inContext.value)
    ensures BaseTransition(policy, st) == Ok(st)
  {
  }

  /** Finishing stamps the clock as the finish time and appends to `finished`;
      blocking appends the unchanged record to io_wait. Either way the next
      process comes from `select`. */
  lemma BaseTransitionMoves(policy: Policy, st: State)
    requires Ranked(policy) && st.inContext.Some?
    ensures var p := st.inContext.value;
      (p.remainingTime <= 0 ==>
        BaseTransition(policy, st) == Install(Retire(st, p), RankSelect(policy, st.clock, st.ready)) &&
        Retire(st, p).finished == st.finished + [p.(finishTime := st.clock)]) &&
      (p.remainingTime > 0 && IoDue(p) ==>
        BaseTransition(policy, st) == Install(Block(st, p), RankSelect(policy, st.clock, st.ready)) &&
        Block(st, p).ioWait == st.ioWait + [p])
  {
  }

  /** The ready-queue arrangement of the Round Robin quantum branch and the
      SRT preemption branch: a record for the CPU's process at the ready tail. */
  function Requeue(st: State, q: Proc): (r: State)
    ensures IdBag(r.ready) == IdBag(st.ready) + multiset{q.id}
  {
    IdBagPushed(st.ready, q);
    st.(ready := st.ready + [q])
  }

  // Each way of emptying the CPU before `select` runs keeps the population,
  // provided the selection takes from the ready queue exactly what it puts
  // on the CPU.

  lemma IdleInstallConserves(st: State, s: Selection)
    requires st.inContext == None
    requires IdBag(s.ready) + ContextBag(s.chosen) == IdBag(st.ready)
    ensures Population(Installed(st, s)) == Population(st)
  {
    forall x ensures Population(Installed(st, s))[x] == Population(st)[x] {
      assert (IdBag(s.ready) + ContextBag(s.chosen))[x] == IdBag(st.ready)[x];
    }
  }

  lemma RetireInstallConserves(st: State, p: Proc, s: Selection)
    requires st.inContext == Some(p)
    requires IdBag(s.ready) + ContextBag(s.chosen) == IdBag(st.ready)
    ensures Population(Installed(Retire(st, p), s)) == Population(st)
  {
    IdBagPushed(st.finished, p.(finishTime := st.clock));
    forall x ensures Population(Installed(Retire(st, p), s))[x] == Population(st)[x] {
      assert (IdBag(s.ready) + ContextBag(s.chosen))[x] == IdBag(st.ready)[x];
    }
  }

  lemma BlockInstallConserves(st: State, p: Proc, s: Selection)
    requires st.inContext == Some(p)
    requires IdBag(s.ready) + ContextBag(s.chosen) == IdBag(st.ready)
    ensures Population(Installed(Block(st, p), s)) == Population(st)
  {
    IdBagPushed(st.ioWait, p);
    forall x ensures Population(Installed(Block(st, p), s))[x] == Population(st)[x] {
      assert (IdBag(s.ready) + ContextBag(s.chosen))[x] == IdBag(st.ready)[x];
    }
  }

  lemma RequeueInstallConserves(st: State, p: Proc, q: Proc, s: Selection)
    requires st.inContext == Some(p) && q.id == p.id
    requires IdBag(s.ready) + ContextBag(s.chosen) == IdBag(st.ready + [q])
    ensures Population(Installed(Requeue(st, q), s)) == Population(st)
  {
    IdBagPushed(st.ready, q);
    forall x ensures Population(Installed(Requeue(st, q), s))[x] == Population(st)[x] {
      assert (IdBag(s.ready) + ContextBag(s.chosen))[x] == IdBag(st.ready + [q])[x];
    }
  }

  lemma SumSwapped<T>(p: multiset<T>, q: multiset<T>, u: multiset<T>, v: multiset<T>)
    requires p + q == u + v
    ensures q + p == v + u
  {
    forall x ensures (q + p)[x] == (v + u)[x] {
      assert (p + q)[x] == (u + v)[x];
    }
  }

  /** Moving records between ready and io_wait, with the other places holding
      the same ids, keeps the population. */
  lemma PopulationRegroup(st: State, r: State)
    requires IdBag(r.arrival) == IdBag(st.arrival) && IdBag(r.finished) == IdBag(st.finished)
    requires ContextBag(r.inContext) == ContextBag(st.inContext)
    requires IdBag(r.ready) + IdBag(r.ioWait) == IdBag(st.ready) + IdBag(st.ioWait)
    ensures Population(r) == Population(st)
  {
    forall x ensures Population(r)[x] == Population(st)[x] {
      assert (IdBag(r.ready) + IdBag(r.ioWait))[x] == (IdBag(st.ready) + IdBag(st.ioWait))[x];
    }
  }

  /** The base transition neither creates nor loses a process. */
  lemma BaseTransitionConserves(policy: Policy, st: State)
    requires Ranked(policy)
    ensures var r := BaseTransition(policy, st);
      r.Ok? ==> Population(r.value) == Population(st)
  {
    match st.inContext
    case None =>
      IdleSelectConserves(policy, st);
    case Some(p) =>
      if p.remainingTime <= 0 || IoDue(p) {
        BaseMoveOutConserves(policy, st, p);
      }
  }

  /** `select` on an idle CPU keeps the population. */
  lemma IdleSelectConserves(policy: Policy, st: State)
    requires Ranked(policy) && st.inContext == None
    ensures var r := Install(st, RankSelect(policy, st.clock, st.ready));
      r.Ok? ==> Population(r.value) == Population(st)
  {
    var sel := RankSelect(policy, st.clock, st.ready);
    RankSelectConserves(policy, st.clock, st.ready);
    if sel.Ok? {
      IdleInstallConserves(st, sel.value);
    }
  }

  lemma BaseMoveOutConserves(policy: Policy, st: State, p: Proc)
    requires Ranked(policy) && st.inContext == Some(p) && (p.remainingTime <= 0 || IoDue(p))
    ensures var r := BaseTransition(policy, st);
      r.Ok? ==> Population(r.value) == Population(st)
  {
    var sel := RankSelect(policy, st.clock, st.ready);
    RankSelectConserves(policy, st.clock, st.ready);
    if sel.Ok? {
      if p.remainingTime <= 0 {
        RetireInstallConserves(st, p, sel.value);
      } else {
        BlockInstallConserves(st, p, sel.value);
      }
    }
  }

  // ---------------------------------------------------------------------
  // The rest of the tick: completion check, work, aging, drain, clock.

  /** The work step: one unit of CPU time; Round Robin also counts it in
      `time_in_cpu`. */
  function Worked(p: Proc, countCpu: bool): (r: Proc)
    ensures r.remainingTime == p.remainingTime - 1 && Elapsed(r) == Elapsed(p) + 1
    ensures r.timeInCpu == if countCpu then p.timeInCpu + 1 else p.timeInCpu
    ensures r == p.(remainingTime := r.remainingTime, timeInCpu := r.timeInCpu)
  {
    p.(remainingTime := p.remainingTime - 1, timeInCpu := if countCpu then p.timeInCpu + 1 else p.timeInCpu)
  }

  /** Every ready process waits one more tick in the ready queue. */
  function AgedReady(ready: seq<Proc>): (r: seq<Proc>)
    ensures |r| == |ready|
    ensures forall i :: 0 <= i < |ready| ==>
              r[i] == ready[i].(timeInReady := ready[i].timeInReady + 1) &&
              TotalWait(r[i]) == TotalWait(ready[i]) + 1
  {
    seq(|ready|, i requires 0 <= i < |ready| => ready[i].(timeInReady := ready[i].timeInReady + 1))
  }

  /** One process of the I/O loop: one more tick of I/O wait and one tick off
      the head burst, which is dropped once it reaches 0 or less; the flag
      says it was dropped. A process with no burst fails. */
  function IoTick(p: Proc): (r: Result<(Proc, bool)>)
    ensures r.Err? <==> p.ioBursts == []
    ensures r.Ok? ==> var q := r.value.0;
              q.id == p.id && q.timeInIoWait == p.timeInIoWait + 1 && TotalWait(q) == TotalWait(p) + 1 &&
              q.remainingTime == p.remainingTime && q.timeInCpu == p.timeInCpu
    ensures r.Ok? ==> (r.value.1 <==> p.ioBursts[0].duration - 1 <= 0)
    ensures r.Ok? && r.value.1 ==> r.value.0.ioBursts == p.ioBursts[1..]
    ensures r.Ok? && !r.value.1 ==>
              |r.value.0.ioBursts| == |p.ioBursts| &&
              r.value.0.ioBursts[1..] == p.ioBursts[1..] &&
              r.value.0.ioBursts[0] == p.ioBursts[0].(duration := p.ioBursts[0].duration - 1)
  {
    if p.ioBursts == [] then Err(MissingBurst)
    else
      var head := p.ioBursts[0];
      var left := head.duration - 1;
      var q := p.(timeInIoWait := p.timeInIoWait + 1);
      if left <= 0 then Ok((q.(ioBursts := p.ioBursts[1..]), true))
      else Ok((q.(ioBursts := [head.(duration := left)] + p.ioBursts[1..]), false))
  }

  /** The I/O loop over the first n io_wait processes: the updated records and
      the positions whose burst completed (`to_remove`), in increasing order.
      It fails at the first process without a burst. */
  function AgedIo(io: seq<Proc>, n: nat): (r: Result<(seq<Proc>, seq<int>)>)
    requires n <= |io|
    ensures r.Err? <==> exists j :: 0 <= j < n && io[j].ioBursts == []
    ensures r.Err? ==> r.fault == MissingBurst
    ensures r.Ok? ==> |r.value.0| == n && |r.value.1| <= n
    ensures r.Ok? ==> forall j :: 0 <= j < n ==> IoTick(io[j]) == Ok((r.value.0[j], j in r.value.1))
    ensures r.Ok? ==> forall a :: 0 <= a < |r.value.1| ==> 0 <= r.value.1[a] < n
    ensures r.Ok? ==> forall a, b :: 0 <= a < b < |r.value.1| ==> r.value.1[a] < r.value.1[b]
  {
    if n == 0 then Ok(([], []))
    else
      match AgedIo(io, n - 1)
      case Err(f) => Err(f)
      case Ok(prev) =>
        match IoTick(io[n - 1])
        case Err(f) => Err(f)
        case Ok(t) =>
          var toRemove := if t.1 then prev.1 + [n - 1] else prev.1;
          assert forall j :: 0 <= j < n - 1 ==> (j in prev.1 <==> j in toRemove);
          Ok((prev.0 + [t.0], toRemove))
  }

  /** The I/O loop over one more process: its record is appended, and its
      position when its burst completed. */
  lemma AgedIoExtends(io: seq<Proc>, n: nat)
    requires n < |io| && AgedIo(io, n).Ok? && IoTick(io[n]).Ok?
    ensures var prev := AgedIo(io, n).value;
      var t := IoTick(io[n]).value;
      AgedIo(io, n + 1) == Ok((prev.0 + [t.0], if t.1 then prev.1 + [n] else prev.1))
  {
  }

  /** One turn of the I/O loop: writing the aged record back at `i` extends
      the aged prefix by one and leaves the rest of the queue as it was. */
  lemma AgedIoStep(io: seq<Proc>, i: nat, items: seq<Proc>, toRemove: seq<int>, p: Proc, drop: bool)
    requires i < |io| == |items|
    requires AgedIo(io, i) == Ok((items[..i], toRemove)) && items[i..] == io[i..]
    requires IoTick(io[i]) == Ok((p, drop))
    ensures AgedIo(io, i + 1) == Ok((items[i := p][..i + 1], if drop then toRemove + [i] else toRemove))
    ensures items[i := p][i + 1..] == io[i + 1..]
  {
    AgedIoExtends(io, i);
    assert items[i := p][..i + 1] == items[..i] + [p];
    assert items[i := p][i + 1..] == items[i + 1..];
  }

  /** The drain loop `for i in to_remove: ready.enque(io_wait.deque_at(i))`,
      with every index taken as recorded before the first removal. */
  function Drained(io: seq<Proc>, ready: seq<Proc>, toRemove: seq<int>): (r: (seq<Proc>, seq<Proc>))
    requires |toRemove| <= |io|
    ensures |r.0| == |io| - |toRemove| && |r.1| == |ready| + |toRemove|
    ensures r.1[..|ready|] == ready
    decreases |toRemove|
  {
    if toRemove == [] then (io, ready)
    else
      var e := DequeAtResult(io, toRemove[0]).value;
      var io' := AfterDequeAt(io, toRemove[0]);
      var r := Drained(io', ready + [e], toRemove[1..]);
      assert r.1[..|ready|] == (r.1[..|ready| + 1])[..|ready|];
      r
  }

  /** Whatever the indices, the drain only moves records: every record it
      leaves in either queue was in one of them before, and none is lost. */
  lemma {:induction false} DrainedKeepsRecords(io: seq<Proc>, ready: seq<Proc>, toRemove: seq<int>)
    requires |toRemove| <= |io|
    ensures var r := Drained(io, ready, toRemove);
      multiset(r.0) + multiset(r.1) == multiset(io) + multiset(ready)
    decreases |toRemove|
  {
    if toRemove != [] {
      var e := DequeAtResult(io, toRemove[0]).value;
      var io' := AfterDequeAt(io, toRemove[0]);
      DequeAtRemovesReturned(io, toRemove[0]);
      DrainedKeepsRecords(io', ready + [e], toRemove[1..]);
      assert Drained(io, ready, toRemove) == Drained(io', ready + [e], toRemove[1..]);
      assert multiset(io') + multiset(ready + [e]) == multiset(io) + multiset(ready);
    }
  }

  /** The drain only moves ids from io_wait to ready. */
  lemma {:induction false} DrainedKeepsIds(io: seq<Proc>, ready: seq<Proc>, toRemove: seq<int>)
    requires |toRemove| <= |io|
    ensures var r := Drained(io, ready, toRemove);
      IdBag(r.0) + IdBag(r.1) == IdBag(io) + IdBag(ready)
    decreases |toRemove|
  {
    if toRemove != [] {
      var e := DequeAtResult(io, toRemove[0]).value;
      var io' := AfterDequeAt(io, toRemove[0]);
      IdBagAfterDequeAt(io, toRemove[0]);
      IdBagPushed(ready, e);
      DrainedKeepsIds(io', ready + [e], toRemove[1..]);
      var r := Drained(io', ready + [e], toRemove[1..]);
      assert Drained(io, ready, toRemove) == r;
      forall x ensures (IdBag(r.0) + IdBag(r.1))[x] == (IdBag(io) + IdBag(ready))[x] {
        assert (IdBag(r.0) + IdBag(r.1))[x] == (IdBag(io') + IdBag(ready + [e]))[x];
        assert (IdBag(io') + multiset{e.id})[x] == IdBag(io)[x];
      }
    }
  }

  /** With one completion the drain is exact: the completed process goes to
      the ready tail and io_wait keeps the others in order. */
  lemma DrainSingle(io: seq<Proc>, ready: seq<Proc>, i: int)
    requires 0 <= i < |io|
    ensures Drained(io, ready, [i]) == (Removed(io, i), ready + [io[i]])
  {
    DequeAtInRange(io, i);
    assert [i][1..] == [];
  }

  /** Stale indices: with io_wait A, B, C and positions 0 and 2 completing,
      the second removal runs on the already shortened queue, wraps around,
      and moves B instead of C, which stays in io_wait. */
  lemma DrainStaleIndices(a: Proc, b: Proc, c: Proc, ready: seq<Proc>)
    ensures Drained([a, b, c], ready, [0, 2]) == ([c], ready + [a, b])
  {
    var io := [a, b, c];
    DequeAtZeroIsDeque(io);
    assert AfterDequeAt(io, 0) == [b, c];
    var bc := [b, c];
    assert PyMod(-2, 2) == 0;
    assert Rotated(bc, -2) == bc;
    assert DequeAtResult(bc, 2) == Some(b);
    assert AfterDequeAt(bc, 2) == [c];
    assert Drained(io, ready, [0, 2]) == Drained(bc, ready + [a], [2]);
    assert Drained(bc, ready + [a], [2]) == Drained([c], ready + [a] + [b], []);
    assert ready + [a] + [b] == ready + [a, b];
  }

  /** The steps after the transition: the completion check, then work on the
      process in context, ready aging, the I/O loop, the drain and the clock. */
  function Finish(st: State, countCpu: bool): (r: Step)
    ensures r.Done? <==> |st.finished| == st.totalProcs
    ensures r.Crashed? ==> r.fault == IdleWork || r.fault == MissingBurst
    ensures !r.Crashed? ==> r.st.finished == st.finished && r.st.arrival == st.arrival &&
                            r.st.totalProcs == st.totalProcs
  {
    if |st.finished| == st.totalProcs then Done(st.(done := true))
    else
      match st.inContext
      case None => Crashed(IdleWork)
      case Some(p) =>
        match AgeStep(st.(inContext := Some(Worked(p, countCpu))))
        case Err(f) => Crashed(f)
        case Ok(aged) => Running(aged.(clock := aged.clock + 1))
  }

  /** Ready aging, the I/O loop and the drain of `to_remove`, in that order;
      only `ready` and `io_wait` change. */
  function AgeStep(st: State): (r: Result<State>)
    ensures r.Err? <==> exists j :: 0 <= j < |st.ioWait| && st.ioWait[j].ioBursts == []
    ensures r.Err? ==> r.fault == MissingBurst
    ensures r.Ok? ==> r.value == st.(ready := r.value.ready, ioWait := r.value.ioWait)
    ensures r.Ok? ==> |r.value.ready| + |r.value.ioWait| == |st.ready| + |st.ioWait| &&
                      |r.value.ready| >= |st.ready| && r.value.ready[..|st.ready|] == AgedReady(st.ready)
  {
    match AgedIo(st.ioWait, |st.ioWait|)
    case Err(f) => Err(f)
    case Ok(aged) =>
      var drained := Drained(aged.0, AgedReady(st.ready), aged.1);
      Ok(st.(ready := drained.1, ioWait := drained.0))
  }

  /** Past the completion check with a process in context, the rest of the
      tick is the aging step on the worked state, then the clock. */
  lemma FinishAfterWork(st: State, countCpu: bool, worked: State)
    requires |st.finished| != st.totalProcs && st.inContext.Some?
    requires worked == st.(inContext := Some(Worked(st.inContext.value, countCpu)))
    ensures Finish(st, countCpu) ==
      match AgeStep(worked)
      case Err(f) => Crashed(f)
      case Ok(aged) => Running(aged.(clock := aged.clock + 1))
  {
  }

  /** When every process has finished, the tick sets `done` and returns with
      no work, aging or clock change; otherwise an idle CPU at the work step
      is a failure. */
  lemma FinishCompletion(st: State, countCpu: bool)
    ensures |st.finished| == st.totalProcs ==> Finish(st, countCpu) == Done(st.(done := true))
    ensures |st.finished| != st.totalProcs && st.inContext.None? ==> Finish(st, countCpu) == Crashed(IdleWork)
    ensures Finish(st, countCpu).Done? ==> |st.finished| == st.totalProcs
  {
  }

  /** A non-final tick works one unit on the process in context, ages every
      ready process by one tick and advances the clock by one; `finished`,
      `arrival` and `done` are untouched. (The I/O side is `FinishAgesIoWait`.) */
  lemma FinishNonFinal(st: State, countCpu: bool)
    requires Finish(st, countCpu).Running?
    ensures var r := Finish(st, countCpu).st;
      st.inContext.Some? && |st.finished| != st.totalProcs &&
      r.inContext == Some(Worked(st.inContext.value, countCpu)) &&
      r.clock == st.clock + 1 &&
      r.finished == st.finished && r.arrival == st.arrival && r.done == st.done &&
      r.totalProcs == st.totalProcs &&
      |r.ready| >= |st.ready| &&
      (forall i :: 0 <= i < |st.ready| ==> r.ready[i] == st.ready[i].(timeInReady := st.ready[i].timeInReady + 1)) &&
      |r.ready| + |r.ioWait| == |st.ready| + |st.ioWait|
  {
    var aged := AgedIo(st.ioWait, |st.ioWait|).value;
    var drained := Drained(aged.0, AgedReady(st.ready), aged.1);
    assert drained.1[..|st.ready|] == AgedReady(st.ready);
    forall i | 0 <= i < |st.ready|
      ensures drained.1[i] == st.ready[i].(timeInReady := st.ready[i].timeInReady + 1)
    {
      assert drained.1[i] == drained.1[..|st.ready|][i];
    }
  }

  /** Past the completion check, with a process on the CPU and a burst for
      every io_wait process, the tick runs to the end and ages every io_wait
      process by one tick: the records left in io_wait together with those
      the drain appended to the ready queue are exactly the I/O ticks of the
      old io_wait records. */
  lemma FinishAgesIoWait(st: State, countCpu: bool)
    requires |st.finished| != st.totalProcs && st.inContext.Some?
    requires forall j :: 0 <= j < |st.ioWait| ==> st.ioWait[j].ioBursts != []
    ensures Finish(st, countCpu).Running?
    ensures AgedIo(st.ioWait, |st.ioWait|).Ok?
    ensures var aged := AgedIo(st.ioWait, |st.ioWait|).value.0;
      forall j :: 0 <= j < |st.ioWait| ==> IoTick(st.ioWait[j]).Ok? && IoTick(st.ioWait[j]).value.0 == aged[j]
    ensures var r := Finish(st, countCpu).st;
      var aged := AgedIo(st.ioWait, |st.ioWait|).value.0;
      |r.ready| >= |st.ready| &&
      multiset(r.ioWait) + multiset(r.ready[|st.ready|..]) == multiset(aged)
  {
    var io := AgedIo(st.ioWait, |st.ioWait|).value;
    var w := st.(inContext := Some(Worked(st.inContext.value, countCpu)));
    FinishAfterWork(st, countCpu, w);
    DrainedMovesRecords(io.0, AgedReady(st.ready), io.1);
  }

  /** The records the drain leaves in io_wait together with those it appends
      to the ready queue are the records io_wait held. */
  lemma DrainedMovesRecords(io: seq<Proc>, ready: seq<Proc>, toRemove: seq<int>)
    requires |toRemove| <= |io|
    ensures var r := Drained(io, ready, toRemove);
      multiset(r.0) + multiset(r.1[|ready|..]) == multiset(io)
  {
    var r := Drained(io, ready, toRemove);
    DrainedKeepsRecords(io, ready, toRemove);
    PrefixMultiset(ready, r.1);
    CancelRight(multiset(r.0), multiset(r.1[|ready|..]), multiset(io), multiset(ready));
  }

  lemma PrefixMultiset<T>(a: seq<T>, b: seq<T>)
    requires |a| <= |b| && b[..|a|] == a
    ensures multiset(b) == multiset(a) + multiset(b[|a|..])
  {
    assert b == a + b[|a|..];
  }

  lemma CancelRight<T>(x: multiset<T>, y: multiset<T>, z: multiset<T>, a: multiset<T>)
    requires x + (a + y) == z + a
    ensures x + y == z
  {
    forall e ensures (x + y)[e] == z[e] {
      assert (x + (a + y))[e] == (z + a)[e];
    }
  }

  /** When exactly one io_wait process completes its burst, the tick moves it
      to the ready tail behind the aged ready queue and keeps the rest of
      io_wait in order. */
  lemma FinishSingleCompletion(st: State, countCpu: bool, i: int)
    requires |st.finished| != st.totalProcs && st.inContext.Some?
    requires 0 <= i < |st.ioWait|
    requires forall j :: 0 <= j < |st.ioWait| ==> |st.ioWait[j].ioBursts| > 0
    requires forall j :: 0 <= j < |st.ioWait| ==> (st.ioWait[j].ioBursts[0].duration <= 1 <==> j == i)
    ensures Finish(st, countCpu).Running?
    ensures var aged := AgedIo(st.ioWait, |st.ioWait|).value;
      aged.1 == [i] &&
      Finish(st, countCpu).st.ioWait == Removed(aged.0, i) &&
      Finish(st, countCpu).st.ready == AgedReady(st.ready) + [aged.0[i]]
  {
    var r := AgedIo(st.ioWait, |st.ioWait|);
    assert r.Ok?;
    var t := r.value.1;
    assert IoTick(st.ioWait[i]).value.1;
    assert i in t;
    assert |t| >= 2 ==> t[0] < t[|t| - 1];
    forall b | 0 <= b < |t| ensures t[b] == i {
      var j := t[b];
      assert j in t;
      assert IoTick(st.ioWait[j]).value.1;
    }
    assert |t| <= 1;
    assert t == [i];
    DrainSingle(r.value.0, AgedReady(st.ready), i);
  }

  /** The steps after the transition neither create nor lose a process. */
  lemma FinishConserves(st: State, countCpu: bool)
    ensures var s := Finish(st, countCpu);
      !s.Crashed? ==> Population(s.st) == Population(st)
  {
    var s := Finish(st, countCpu);
    if s.Running? {
      var w := st.(inContext := Some(Worked(st.inContext.value, countCpu)));
      AgeStepConserves(w);
      PopulationRegroup(st, w);
      PopulationRegroup(w, s.st);
    }
  }

  /** Aging and the drain only move records between ready and io_wait. */
  lemma AgeStepConserves(st: State)
    requires AgeStep(st).Ok?
    ensures var r := AgeStep(st).value;
      r.arrival == st.arrival && r.finished == st.finished && r.inContext == st.inContext &&
      IdBag(r.ready) + IdBag(r.ioWait) == IdBag(st.ready) + IdBag(st.ioWait)
  {
    var aged := AgedIo(st.ioWait, |st.ioWait|).value;
    var ar := AgedReady(st.ready);
    var drained := Drained(aged.0, ar, aged.1);
    forall j | 0 <= j < |st.ioWait| ensures aged.0[j].id == st.ioWait[j].id {
      assert IoTick(st.ioWait[j]).Ok?;
    }
    IdBagSameIds(aged.0, st.ioWait);
    IdBagSameIds(ar, st.ready);
    DrainedKeepsIds(aged.0, ar, aged.1);
    SumSwapped(IdBag(drained.0), IdBag(drained.1), IdBag(st.ioWait), IdBag(st.ready));
  }

  /** A whole base tick: admission, the transition, then the rest. */
  function BaseTick(policy: Policy, st: State): (r: Step)
    requires Ranked(policy)
    ensures r.Crashed? && r.fault == ZeroService ==> policy == HRRN
  {
    match BaseTransition(policy, Admit(st))
    case Err(f) => Crashed(f)
    case Ok(st') => Finish(st', false)
  }

  /** No base tick creates, loses or duplicates a process. */
  lemma BaseTickConserves(policy: Policy, st: State)
    requires Ranked(policy)
    ensures var s := BaseTick(policy, st);
      !s.Crashed? ==> Population(s.st) == Population(st)
  {
    AdmitMovesArrivedPrefix(st);
    BaseTransitionConserves(policy, Admit(st));
    var t := BaseTransition(policy, Admit(st));
    if t.Ok? {
      FinishConserves(t.value, false);
    }
  }

  /** Unreachable burst offsets: only the head burst is tested, and only for
      equality, so once the CPU time consumed has passed the head's offset the
      process keeps the CPU through every tick in which it has time left, and
      the work step takes it further past. */
  lemma BaseTickSkipsPassedOffset(policy: Policy, st: State)
    requires Ranked(policy) && st.inContext.Some?
    requires var p := st.inContext.value;
      p.remainingTime > 0 && |p.ioBursts| > 0 && Elapsed(p) > p.ioBursts[0].offset
    ensures var p := st.inContext.value;
      var s := BaseTick(policy, st);
      s.Running? ==>
        s.st.inContext == Some(Worked(p, false)) &&
        Elapsed(Worked(p, false)) > Worked(p, false).ioBursts[0].offset
  {
    var a := Admit(st);
    AdmitMovesArrivedPrefix(st);
    BaseTransitionNonPreemptive(policy, a);
    if BaseTick(policy, st).Running? {
      FinishNonFinal(a, false);
    }
  }

  /** An empty workload is done on its first tick, with the clock still 0. */
  lemma EmptyWorkloadDoneAtOnce(policy: Policy)
    requires Ranked(policy)
    ensures BaseTick(policy, Load([])) == Done(Load([]))
  {
  }
}
