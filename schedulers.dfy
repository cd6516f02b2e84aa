/** The scheduler object as the Python classes keep it
    (resources/ref_py/scheduler.py, rr_scheduler.py, srt_scheduler.py): four
    `Queue` objects, the process on the CPU, the clock, `done` and
    `total_procs`, updated in place by `tick`. One class covers the three
    Python classes; its `policy` says which `select` and `tick` apply. Every
    method is proved to leave the scheduler in the state the corresponding
    function of Scheduling, RoundRobin, ShortestRemaining or Engines
    computes from the state before the call. */
module Schedulers {
  import opened Queues
  import opened Procs
  import opened Policies
  import opened Scheduling
  import opened RoundRobin
  import opened ShortestRemaining
  import opened Engines

  /** How a call of `tick` ends: it reached the clock update, it returned at
      the completion check, or it raised. */
  datatype TickOutcome = Advanced | Stopped | Raised(fault: Fault)

  function OutcomeOf(s: Step): TickOutcome
  {
    match s
    case Running(_) => Advanced
    case Done(_) => Stopped
    case Crashed(f) => Raised(f)
  }

  /** How a call of `run` with a tick budget ends. */
  datatype RunEnd = AllFinished | BudgetSpent | Aborted(reason: Fault)

  function RunEndOf(r: RunResult): RunEnd
  {
    match r
    case Completed(_) => AllFinished
    case OutOfFuel(_) => BudgetSpent
    case Failed(f) => Aborted(f)
  }

  /** The scan loop of `select`: `acc` starts at the policy's seed and
      `index` at 0, and every ready entry whose key beats `acc` replaces
      both. Computing HRRN's key raises on a zero service time. */
  method ScanLoop(policy: Policy, items: seq<Proc>) returns (r: Result<nat>)
    requires Ranked(policy)
    ensures r.Err? <==> !AllKeysDefined(policy, items)
    ensures r.Err? ==> r.fault == ZeroService && policy.HRRN?
    ensures r.Ok? && |items| > 0 ==> AllKeysDefined(policy, items) && r.value == BestIndex(policy, items)
  {
    var acc := Init(policy);
    var index := 0;
    var i := 0;
    while i < |items|
      invariant 0 <= i <= |items|
      invariant AllKeysDefined(policy, items[..i])
      invariant (acc, index) == Scan(policy, items[..i], i)
    {
      var e := items[i];
      if !KeyDefined(policy, e) {
        return Err(ZeroService);
      }
      ScanStep(policy, items, i);
      if Beats(policy, e, acc) {
        acc := Key(policy, e);
        index := i;
      }
      i := i + 1;
    }
    assert items[..i] == items;
    r := Ok(index);
  }

  /** `tick` is the policy's tick, seen only where a `Tick` term occurs. */
  ghost predicate Drives(tick: State -> Step, policy: Policy)
  {
    forall s {:trigger Tick(policy, s)} :: tick(s) == Tick(policy, s)
  }

  lemma TickOfDrives(policy: Policy)
    ensures Drives(TickOf(policy), policy)
  {
  }

  /** One turn of the `run` loop, from the outcome of `tick` and the state
      it left. */
  lemma RunTurn(policy: Policy, tick: State -> Step, before: State, after: State, o: TickOutcome,
                fuel: nat, target: RunResult)
    requires Drives(tick, policy)
    requires fuel > 0 && !before.done && Loop(tick, before, fuel) == target
    requires var s := Tick(policy, before); o == OutcomeOf(s) && (!s.Crashed? ==> after == s.st)
    ensures o.Raised? ==> target == Failed(o.fault)
    ensures o.Stopped? ==> after.done && target == Completed(after)
    ensures o.Advanced? ==> !after.done && Loop(tick, after, fuel - 1) == target
  {
    TickClock(policy, before);
    assert tick(before) == Tick(policy, before);
  }

  /** One process of the I/O loop, updated field by field:
      `time_in_io_wait += 1`, `io_bursts.peek()[1] -= 1`, and the head burst
      dropped at 0 or less, which the flag reports. With no burst, `peek()`
      is None and the subscript raises. */
  method IoWaitTick(p0: Proc) returns (r: Result<(Proc, bool)>)
    ensures r == IoTick(p0)
  {
    var p := p0.(timeInIoWait := p0.timeInIoWait + 1);
    if p.ioBursts == [] {
      return Err(MissingBurst);
    }
    var head := p.ioBursts[0];
    head := head.(duration := head.duration - 1);
    if head.duration <= 0 {
      p := p.(ioBursts := p.ioBursts[1..]);
    } else {
      p := p.(ioBursts := [head] + p.ioBursts[1..]);
    }
    r := Ok((p, head.duration <= 0));
  }

  class Scheduler {
    const policy: Policy
    const arrival: Queue<Proc>
    const ready: Queue<Proc>
    const ioWait: Queue<Proc>
    const finished: Queue<Proc>
    var inContext: Option<Proc>
    var clock: int
    var done: bool
    var totalProcs: int

    /** The four queues are four distinct objects. */
    ghost predicate Valid()
    {
      arrival != ready && arrival != ioWait && arrival != finished &&
      ready != ioWait && ready != finished && ioWait != finished
    }

    /** The scheduler's state as a value. */
    function Snapshot(): State
      reads this, arrival, ready, ioWait, finished
    {
      State(clock, done, totalProcs, inContext, arrival.items, ready.items, ioWait.items, finished.items)
    }

    /** The constructor: empty queues, clock 0, `done` set, then every
        process of the workload appended to `arrival` in order, and
        `total_procs` its length. */
    constructor (policy: Policy, workload: seq<Descriptor>)
      ensures Valid() && this.policy == policy
      ensures fresh(arrival) && fresh(ready) && fresh(ioWait) && fresh(finished)
      ensures Snapshot() == Load(workload)
    {
      this.policy := policy;
      arrival := new Queue<Proc>();
      ready := new Queue<Proc>();
      ioWait := new Queue<Proc>();
      finished := new Queue<Proc>();
      inContext := None;
      clock := 0;
      done := true;
      totalProcs := 0;
      new;
      var i := 0;
      while i < |workload|
        invariant 0 <= i <= |workload|
        invariant arrival.items == seq(i, j requires 0 <= j < i => Loaded(workload[j]))
        invariant ready.items == [] && ioWait.items == [] && finished.items == []
        invariant inContext == None && clock == 0 && done
      {
        arrival.Enque(Loaded(workload[i]));
        i := i + 1;
      }
      totalProcs := |arrival.items|;
      assert arrival.items == Load(workload).arrival;
    }

    /** The admission loop: every arrived head of `arrival` moves to the
        ready tail; the result says whether any did (SRT's `new_arrivals`). */
    method Admit() returns (newArrivals: bool)
      requires Valid()
      modifies arrival, ready
      ensures Snapshot() == Scheduling.Admit(old(Snapshot()))
      ensures newArrivals <==> AdmitCount(old(arrival.items), clock) > 0
    {
      ghost var a0 := arrival.items;
      ghost var r0 := ready.items;
      ghost var m := 0;
      newArrivals := false;
      while true
        invariant 0 <= m <= |a0| && arrival.items == a0[m..] && ready.items == r0 + a0[..m]
        invariant forall j :: 0 <= j < m ==> a0[j].arrivalTime <= clock
        invariant newArrivals <==> m > 0
        decreases |arrival.items|
      {
        var head := arrival.Peek();
        if head.None? {
          break;
        }
        if head.value.arrivalTime <= clock {
          var p := arrival.Deque();
          ready.Enque(p.value);
          newArrivals := true;
          assert a0[..m + 1] == a0[..m] + [a0[m]];
          m := m + 1;
        } else {
          break;
        }
      }
      assert m == AdmitCount(a0, clock);
    }

    /** The base `select`: nothing on an empty ready queue; otherwise the
        strict scan over the ready queue, the winner removed by deque_at and
        dispatched. HRRN raises on a zero service time. */
    method Select() returns (r: Result<Option<Proc>>)
      requires Valid() && Ranked(policy)
      modifies ready
      ensures var sel := RankSelect(policy, clock, old(ready.items));
        (sel.Err? ==> r == Err(sel.fault)) &&
        (sel.Ok? ==> r == Ok(sel.value.chosen) && ready.items == sel.value.ready)
      ensures r.Err? ==> policy.HRRN?
    {
      if |ready.items| <= 0 {
        return Ok(None);
      }
      var index := ScanLoop(policy, ready.items);
      if index.Err? {
        return Err(index.fault);
      }
      var p := ready.DequeAt(index.value);
      var q := p.value;
      if !q.started {
        q := q.(startTime := clock, started := true);
      }
      r := Ok(Some(q));
    }

    /** The Round Robin `select`: the ready head, dispatched, or nothing. */
    method SelectHead() returns (c: Option<Proc>)
      requires Valid()
      modifies ready
      ensures var sel := FifoSelect(clock, old(ready.items));
        c == sel.chosen && ready.items == sel.ready
    {
      if |ready.items| <= 0 {
        return None;
      }
      var p := ready.Deque();
      var q := p.value;
      if !q.started {
        q := q.(startTime := clock, started := true);
      }
      c := Some(q);
    }

    /** `for p in self.ready: p.time_in_ready += 1`. */
    method AgeReady()
      modifies ready
      ensures ready.items == AgedReady(old(ready.items))
    {
      ghost var r0 := ready.items;
      var i := 0;
      while i < |ready.items|
        invariant 0 <= i <= |ready.items| == |r0|
        invariant forall j :: 0 <= j < i ==> ready.items[j] == r0[j].(timeInReady := r0[j].timeInReady + 1)
        invariant forall j :: i <= j < |ready.items| ==> ready.items[j] == r0[j]
      {
        var p := ready.items[i];
        ready.items := ready.items[i := p.(timeInReady := p.timeInReady + 1)];
        i := i + 1;
      }
    }

    /** The I/O loop: every io_wait process waits one more tick and its head
        burst loses one tick, and is dropped once at 0 or less; the result
        is `to_remove`. A process with no burst raises. */
    method AgeIoWait() returns (r: Result<seq<int>>)
      modifies ioWait
      ensures var aged := AgedIo(old(ioWait.items), |old(ioWait.items)|);
        (r.Err? <==> aged.Err?) && (r.Err? ==> r.fault == MissingBurst) &&
        (aged.Ok? ==> r == Ok(aged.value.1) && ioWait.items == aged.value.0)
    {
      ghost var io0 := ioWait.items;
      var items := ioWait.items;
      var toRemove := [];
      var i := 0;
      while i < |items|
        invariant 0 <= i <= |items| == |io0|
        invariant AgedIo(io0, i) == Ok((items[..i], toRemove))
        invariant items[i..] == io0[i..]
      {
        assert items[i] == io0[i];
        var t := IoWaitTick(items[i]);
        if t.Err? {
          assert io0[i].ioBursts == [];
          return Err(MissingBurst);
        }
        var (p, drop) := t.value;
        AgedIoStep(io0, i, items, toRemove, p, drop);
        items := items[i := p];
        if drop {
          toRemove := toRemove + [i];
        }
        i := i + 1;
      }
      assert items[..i] == items;
      ioWait.items := items;
      r := Ok(toRemove);
    }

    /** `for i in to_remove: self.ready.enque(self.io_wait.deque_at(i))`. */
    method DrainIo(toRemove: seq<int>)
      requires Valid() && |toRemove| <= |ioWait.items|
      modifies ready, ioWait
      ensures (ioWait.items, ready.items) == Drained(old(ioWait.items), old(ready.items), toRemove)
    {
      var k := 0;
      while k < |toRemove|
        invariant 0 <= k <= |toRemove|
        invariant |toRemove| - k <= |ioWait.items|
        invariant Drained(ioWait.items, ready.items, toRemove[k..]) ==
                  Drained(old(ioWait.items), old(ready.items), toRemove)
      {
        assert toRemove[k..][0] == toRemove[k] && toRemove[k..][1..] == toRemove[k + 1..];
        var e := ioWait.DequeAt(toRemove[k]);
        ready.Enque(e.value);
        k := k + 1;
      }
    }

    /** Ready aging, the I/O loop and the drain, in that order. */
    method AgeAndDrain() returns (r: Result<()>)
      requires Valid()
      modifies ready, ioWait
      ensures var a := AgeStep(old(Snapshot()));
        (r.Err? <==> a.Err?) && (r.Err? ==> r == Err(a.fault)) && (a.Ok? ==> Snapshot() == a.value)
    {
      AgeReady();
      var toRemove := AgeIoWait();
      if toRemove.Err? {
        return Err(toRemove.fault);
      }
      DrainIo(toRemove.value);
      r := Ok(());
    }

    /** Everything after the transition: the completion check, work on the
        process in context (Round Robin also counts `time_in_cpu`), ready
        aging, the I/O loop, the drain and the clock. */
    method FinishTick(countCpu: bool) returns (o: TickOutcome)
      requires Valid()
      modifies this, ready, ioWait
      ensures var s := Finish(old(Snapshot()), countCpu);
        o == OutcomeOf(s) && (!s.Crashed? ==> Snapshot() == s.st)
    {
      ghost var st0 := Snapshot();
      if |finished.items| == totalProcs {
        done := true;
        return Stopped;
      }
      if inContext.None? {
        return Raised(IdleWork);
      }
      var p := inContext.value;
      p := p.(remainingTime := p.remainingTime - 1);
      if countCpu {
        p := p.(timeInCpu := p.timeInCpu + 1);
      }
      inContext := Some(p);
      ghost var worked := Snapshot();
      assert worked == st0.(inContext := Some(Worked(st0.inContext.value, countCpu)));
      FinishAfterWork(st0, countCpu, worked);
      var aged := AgeAndDrain();
      if aged.Err? {
        return Raised(aged.fault);
      }
      clock := clock + 1;
      o := Advanced;
    }

    /** The base `tick` (FCFS, SPN, HRRN). */
    method BaseTick() returns (o: TickOutcome)
      requires Valid() && Ranked(policy)
      modifies this, arrival, ready, ioWait, finished
      ensures var s := Scheduling.BaseTick(policy, old(Snapshot()));
        o == OutcomeOf(s) && (!s.Crashed? ==> Snapshot() == s.st)
    {
      var _ := Admit();
      ghost var a := Snapshot();
      if inContext.None? {
        var sel := Select();
        if sel.Err? {
          return Raised(sel.fault);
        }
        inContext := sel.value;
      } else if inContext.value.remainingTime <= 0 {
        var p := inContext.value.(finishTime := clock);
        finished.Enque(p);
        var sel := Select();
        if sel.Err? {
          return Raised(sel.fault);
        }
        inContext := sel.value;
      } else if |inContext.value.ioBursts| > 0 {
        var p := inContext.value;
        if Elapsed(p) == p.ioBursts[0].offset {
          ioWait.Enque(p);
          var sel := Select();
          if sel.Err? {
            return Raised(sel.fault);
          }
          inContext := sel.value;
        }
      }
      assert BaseTransition(policy, a) == Ok(Snapshot());
      o := FinishTick(false);
    }

    /** The Round Robin `tick`. */
    method RrTick() returns (o: TickOutcome)
      requires Valid() && policy.RR?
      modifies this, arrival, ready, ioWait, finished
      ensures var s := RoundRobin.RrTick(policy.quantum, old(Snapshot()));
        o == OutcomeOf(s) && (!s.Crashed? ==> Snapshot() == s.st)
    {
      var _ := Admit();
      ghost var a := Snapshot();
      if inContext.None? {
        inContext := SelectHead();
      } else if inContext.value.remainingTime <= 0 {
        var p := inContext.value.(finishTime := clock);
        finished.Enque(p);
        inContext := SelectHead();
      } else if |inContext.value.ioBursts| > 0 &&
                Elapsed(inContext.value) == inContext.value.ioBursts[0].offset {
        ioWait.Enque(inContext.value);
        inContext := SelectHead();
      } else if inContext.value.timeInCpu == policy.quantum {
        var p := inContext.value.(timeInCpu := 0);
        ready.Enque(p);
        inContext := SelectHead();
      }
      assert RrTransition(policy.quantum, a) == Snapshot();
      o := FinishTick(true);
    }

    /** The SRT `tick`: the base tick plus preemption on new arrivals. */
    method SrtTick() returns (o: TickOutcome)
      requires Valid() && policy.SRT?
      modifies this, arrival, ready, ioWait, finished
      ensures var s := ShortestRemaining.SrtTick(old(Snapshot()));
        o == OutcomeOf(s) && (!s.Crashed? ==> Snapshot() == s.st)
    {
      var newArrivals := Admit();
      ghost var a := Snapshot();
      if inContext.None? {
        var sel := Select();
        inContext := sel.value;
      } else if inContext.value.remainingTime <= 0 {
        var p := inContext.value.(finishTime := clock);
        finished.Enque(p);
        var sel := Select();
        inContext := sel.value;
      } else if |inContext.value.ioBursts| > 0 {
        var p := inContext.value;
        if Elapsed(p) == p.ioBursts[0].offset {
          ioWait.Enque(p);
          var sel := Select();
          inContext := sel.value;
        }
      } else if newArrivals {
        ready.Enque(inContext.value);
        var sel := Select();
        inContext := sel.value;
      }
      assert SrtTransition(a, newArrivals) == Ok(Snapshot());
      SrtTickAfterTransition(old(Snapshot()), newArrivals, Snapshot());
      o := FinishTick(false);
    }

    /** `tick`, dispatched on the scheduler's class. */
    method Tick() returns (o: TickOutcome)
      requires Valid()
      modifies this, arrival, ready, ioWait, finished
      ensures var s := Engines.Tick(policy, old(Snapshot()));
        o == OutcomeOf(s) && (!s.Crashed? ==> Snapshot() == s.st)
    {
      match policy
      case RR(_) =>
        o := RrTick();
      case SRT =>
        o := SrtTick();
      case _ =>
        o := BaseTick();
    }

    /** One turn of the `run` loop with budget left, as the bounded run sees
        it; `cur` is the state before the tick and `next` the state after. */
    method Turn(fuel: nat, ghost tick: State -> Step, ghost target: RunResult, ghost cur: State)
      returns (o: TickOutcome, ghost next: State)
      requires Valid() && Drives(tick, policy) && cur == Snapshot() && fuel > 0 && !done
      requires Loop(tick, cur, fuel) == target
      modifies this, arrival, ready, ioWait, finished
      ensures next == Snapshot()
      ensures o.Raised? ==> target == Failed(o.fault)
      ensures o.Stopped? ==> done && target == Completed(next)
      ensures o.Advanced? ==> !done && Loop(tick, next, fuel - 1) == target
    {
      o := Tick();
      next := Snapshot();
      RunTurn(policy, tick, cur, next, o, fuel, target);
    }

    /** `run`: clear `done`, then tick until it is set, a tick raises, or
        `fuel` ticks have been spent. */
    method Run(fuel: nat) returns (o: RunEnd)
      requires Valid()
      modifies this, arrival, ready, ioWait, finished
      ensures var r := Engines.Run(policy, old(Snapshot()), fuel);
        o == RunEndOf(r) && (!r.Failed? ==> Snapshot() == r.st)
    {
      done := false;
      TickOfDrives(policy);
      o := RunLoop(fuel, TickOf(policy), Snapshot(), Engines.Run(policy, old(Snapshot()), fuel));
    }

    /** The `while not self.done: self.tick()` loop of `run`, entered with
        `done` clear in the state `start`, with at most `fuel` ticks;
        `target` is where the bounded run from `start` ends. */
    method RunLoop(fuel: nat, ghost tick: State -> Step, ghost start: State, ghost target: RunResult)
      returns (o: RunEnd)
      requires Valid() && Drives(tick, policy) && start == Snapshot() && !done
      requires Loop(tick, start, fuel) == target
      modifies this, arrival, ready, ioWait, finished
      ensures o == RunEndOf(target) && (!target.Failed? ==> Snapshot() == target.st)
    {
      ghost var cur := start;
      var remaining := fuel;
      while !done
        invariant Valid() && Drives(tick, policy) && cur == Snapshot()
        invariant !done ==> Loop(tick, cur, remaining) == target
        invariant done ==> target == Completed(cur)
        decreases remaining + (if done then 0 else 1)
      {
        if remaining == 0 {
          return BudgetSpent;
        }
        var t;
        t, cur := Turn(remaining, tick, target, cur);
        if t.Raised? {
          return Aborted(t.fault);
        }
        remaining := remaining - 1;
      }
      o := AllFinished;
    }
  }
}
