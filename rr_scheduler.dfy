/** The Round Robin tick (resources/ref_py/rr_scheduler.py): FIFO selection,
    preemption when `time_in_cpu` equals the quantum, and `time_in_cpu`
    counted by the work step. Admission, the completion check, aging, the
    drain and the clock are the base scheduler's. */
module RoundRobin {
  import opened Queues
  import opened Procs
  import opened Scheduling

  /** The Round Robin `select`: nothing on an empty ready queue, otherwise the
      head, dispatched. */
  function FifoSelect(clock: int, ready: seq<Proc>): (r: Selection)
    ensures |ready| == 0 ==> r.chosen == None && r.ready == ready
    ensures |ready| > 0 ==> r.chosen == Some(Dispatched(ready[0], clock)) && r.ready == ready[1..]
  {
    if |ready| <= 0 then Selection(None, ready)
    else Selection(Some(Dispatched(ready[0], clock)), ready[1..])
  }

  /** FIFO selection moves exactly the head's id from the ready queue to the CPU. */
  lemma FifoSelectConserves(clock: int, ready: seq<Proc>)
    ensures var r := FifoSelect(clock, ready);
      IdBag(r.ready) + ContextBag(r.chosen) == IdBag(ready)
  {
    if |ready| > 0 {
      assert ready == [ready[0]] + ready[1..];
      IdBagAppend([ready[0]], ready[1..]);
      assert Ids([ready[0]]) == [ready[0].id];
    }
  }

  /** The quantum branch: `time_in_cpu` back to 0 and the record to the ready tail. */
  function Requeued(st: State, p: Proc): (r: State)
    ensures IdBag(r.ready) == IdBag(st.ready) + multiset{p.id}
    ensures |r.ready| == |st.ready| + 1 && r.ready[|st.ready|].timeInCpu == 0
  {
    Requeue(st, p.(timeInCpu := 0))
  }

  /** The Round Robin transition: finish, then a due I/O burst, then the
      quantum, each tested only when the ones before it did not fire. */
  function RrTransition(quantum: int, st: State): (r: State)
    ensures r.clock == st.clock && r.totalProcs == st.totalProcs && r.done == st.done && r.arrival == st.arrival
  {
    match st.inContext
    case None => Installed(st, FifoSelect(st.clock, st.ready))
    case Some(p) =>
      if p.remainingTime <= 0 then
        Installed(Retire(st, p), FifoSelect(st.clock, st.ready))
      else if |p.ioBursts| > 0 && Elapsed(p) == p.ioBursts[0].offset then
        Installed(Block(st, p), FifoSelect(st.clock, st.ready))
      else if p.timeInCpu == quantum then
        var moved := Requeued(st, p);
        Installed(moved, FifoSelect(st.clock, moved.ready))
      else st
  }

  /** A whole Round Robin tick. */
  function RrTick(quantum: int, st: State): (r: Step)
    ensures r.Crashed? ==> r.fault != ZeroService
  {
    Finish(RrTransition(quantum, Admit(st)), true)
  }

  /** The checks run in the order finish, I/O, quantum, and exactly the first
      one that holds fires: a finished process retires even when a burst or
      the quantum is due, and a due burst blocks even at the quantum. */
  lemma RrCheckOrder(quantum: int, st: State)
    requires st.inContext.Some?
    ensures var p := st.inContext.value;
      var r := RrTransition(quantum, st);
      (p.remainingTime <= 0 ==>
         r.finished == st.finished + [p.(finishTime := st.clock)] && r.ioWait == st.ioWait) &&
      (p.remainingTime > 0 && IoDue(p) ==>
         r.ioWait == st.ioWait + [p] && r.finished == st.finished) &&
      (p.remainingTime > 0 && !IoDue(p) && p.timeInCpu == quantum ==>
         r.ioWait == st.ioWait && r.finished == st.finished &&
         r == Installed(Requeued(st, p), FifoSelect(st.clock, st.ready + [p.(timeInCpu := 0)]))) &&
      (p.remainingTime > 0 && !IoDue(p) && p.timeInCpu != quantum ==> r == st)
  {
  }

  /** The I/O test is one conjunction: a process whose head burst is pending
      but not yet due falls through to the quantum test and is preempted. */
  lemma RrPendingBurstReachesQuantum(quantum: int, st: State)
    requires st.inContext.Some?
    requires var p := st.inContext.value;
      p.remainingTime > 0 && |p.ioBursts| > 0 && Elapsed(p) != p.ioBursts[0].offset && p.timeInCpu == quantum
    ensures var p := st.inContext.value;
      var r := RrTransition(quantum, st);
      r == Installed(Requeued(st, p), FifoSelect(st.clock, st.ready + [p.(timeInCpu := 0)])) &&
      r.ioWait == st.ioWait
  {
  }

  /** At the quantum the process goes to the ready tail with `time_in_cpu`
      reset, and the old ready head takes the CPU; with nobody else ready the
      same process continues. */
  lemma RrQuantumHandsOver(quantum: int, st: State)
    requires st.inContext.Some?
    requires var p := st.inContext.value; p.remainingTime > 0 && !IoDue(p) && p.timeInCpu == quantum
    ensures var p := st.inContext.value;
      var r := RrTransition(quantum, st);
      (|st.ready| > 0 ==>
         r.inContext == Some(Dispatched(st.ready[0], st.clock)) &&
         r.ready == st.ready[1..] + [p.(timeInCpu := 0)]) &&
      (|st.ready| == 0 ==>
         r.inContext == Some(Dispatched(p.(timeInCpu := 0), st.clock)) && r.ready == [])
  {
    var p := st.inContext.value;
    var q := p.(timeInCpu := 0);
    if |st.ready| > 0 {
      assert (st.ready + [q])[1..] == st.ready[1..] + [q];
    } else {
      assert st.ready + [q] == [q];
    }
  }

  /** `time_in_cpu` is reset only at the quantum: a record that finishes or
      blocks for I/O keeps its count. */
  lemma RrResetOnlyAtQuantum(quantum: int, st: State)
    requires st.inContext.Some?
    ensures var p := st.inContext.value;
      var r := RrTransition(quantum, st);
      (p.remainingTime <= 0 ==> r.finished[|r.finished| - 1].timeInCpu == p.timeInCpu) &&
      (p.remainingTime > 0 && IoDue(p) ==> r.ioWait[|r.ioWait| - 1].timeInCpu == p.timeInCpu)
  {
  }

  /** Quantum escape: the quantum test is an equality, so a process already
      past its quantum (for instance one that blocked exactly at the quantum
      and came back) is never preempted while it has time left and no burst
      due, and the work step takes it further past. */
  lemma RrPastQuantumNeverPreempted(quantum: int, st: State)
    requires st.inContext.Some?
    requires var p := st.inContext.value;
      p.remainingTime > 0 && !IoDue(p) && p.timeInCpu > quantum
    requires |st.finished| != st.totalProcs
    ensures var p := st.inContext.value;
      RrTick(quantum, st).Running? ==>
        RrTick(quantum, st).st.inContext == Some(Worked(p, true)) &&
        Worked(p, true).timeInCpu > quantum + 1
  {
    var p := st.inContext.value;
    var a := Admit(st);
    AdmitMovesArrivedPrefix(st);
    assert RrTransition(quantum, a) == a;
    if RrTick(quantum, st).Running? {
      FinishNonFinal(a, true);
    }
  }

  /** The Round Robin transition neither creates nor loses a process. */
  lemma RrTransitionConserves(quantum: int, st: State)
    ensures Population(RrTransition(quantum, st)) == Population(st)
  {
    match st.inContext
    case None =>
      FifoSelectConserves(st.clock, st.ready);
      IdleInstallConserves(st, FifoSelect(st.clock, st.ready));
    case Some(p) =>
      if p.remainingTime <= 0 || IoDue(p) {
        RrMoveOutConserves(quantum, st, p);
      } else if p.timeInCpu == quantum {
        RrQuantumConserves(quantum, st, p);
      }
  }

  lemma RrMoveOutConserves(quantum: int, st: State, p: Proc)
    requires st.inContext == Some(p) && (p.remainingTime <= 0 || IoDue(p))
    ensures Population(RrTransition(quantum, st)) == Population(st)
  {
    FifoSelectConserves(st.clock, st.ready);
    if p.remainingTime <= 0 {
      RetireInstallConserves(st, p, FifoSelect(st.clock, st.ready));
    } else {
      BlockInstallConserves(st, p, FifoSelect(st.clock, st.ready));
    }
  }

  lemma RrQuantumConserves(quantum: int, st: State, p: Proc)
    requires st.inContext == Some(p) && p.remainingTime > 0 && !IoDue(p) && p.timeInCpu == quantum
    ensures Population(RrTransition(quantum, st)) == Population(st)
  {
    var q := p.(timeInCpu := 0);
    FifoSelectConserves(st.clock, st.ready + [q]);
    RequeueInstallConserves(st, p, q, FifoSelect(st.clock, st.ready + [q]));
  }

  /** No Round Robin tick creates, loses or duplicates a process. */
  lemma RrTickConserves(quantum: int, st: State)
    ensures var s := RrTick(quantum, st);
      !s.Crashed? ==> Population(s.st) == Population(st)
  {
    AdmitMovesArrivedPrefix(st);
    RrTransitionConserves(quantum, Admit(st));
    FinishConserves(RrTransition(quantum, Admit(st)), true);
  }
}
