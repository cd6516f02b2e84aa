/** The Shortest Remaining Time tick (resources/ref_py/srt_scheduler.py): the
    base tick plus preemption whenever the admission loop admitted somebody,
    tested after the finish and I/O checks. Selection is the base `select`
    with the SRT ranking. */
module ShortestRemaining {
  import opened Queues
  import opened Procs
  import opened Policies
  import opened Scheduling

  /** The SRT transition. The I/O branch is entered whenever bursts remain,
      and its inner test decides whether to block, so arrival preemption is
      reached only by a process with no bursts left. */
  function SrtTransition(st: State, newArrivals: bool): (r: Result<State>)
    ensures r.Ok? ==> r.value.clock == st.clock && r.value.totalProcs == st.totalProcs &&
                      r.value.done == st.done && r.value.arrival == st.arrival
  {
    match st.inContext
    case None => Install(st, RankSelect(SRT, st.clock, st.ready))
    case Some(p) =>
      if p.remainingTime <= 0 then
        Install(Retire(st, p), RankSelect(SRT, st.clock, st.ready))
      else if |p.ioBursts| > 0 then
        if Elapsed(p) == p.ioBursts[0].offset then
          Install(Block(st, p), RankSelect(SRT, st.clock, st.ready))
        else Ok(st)
      else if newArrivals then
        var moved := Requeue(st, p);
        Install(moved, RankSelect(SRT, st.clock, moved.ready))
      else Ok(st)
  }

  /** A whole SRT tick: `new_arrivals` is whether admission moved anybody. */
  function SrtTick(st: State): (r: Step)
    ensures r.Crashed? ==> r.fault != ZeroService
  {
    var newArrivals := AdmitCount(st.arrival, st.clock) > 0;
    match SrtTransition(Admit(st), newArrivals)
    case Err(f) => Crashed(f)
    case Ok(st') => Finish(st', false)
  }

  /** An SRT tick whose transition succeeds continues with the rest of the
      base tick from the transition's state. */
  lemma SrtTickAfterTransition(st: State, newArrivals: bool, t: State)
    requires newArrivals == (AdmitCount(st.arrival, st.clock) > 0)
    requires SrtTransition(Admit(st), newArrivals) == Ok(t)
    ensures SrtTick(st) == Finish(t, false)
  {
  }

  /** `new_arrivals` is set exactly when the head of the arrival queue has
      arrived, that is, when admission moves at least one process. */
  lemma NewArrivalsExactlyWhenAdmitted(st: State)
    ensures AdmitCount(st.arrival, st.clock) > 0 <==>
              |Admit(st).ready| > |st.ready| && |Admit(st).arrival| < |st.arrival|
    ensures AdmitCount(st.arrival, st.clock) > 0 <==>
              |st.arrival| > 0 && st.arrival[0].arrivalTime <= st.clock
  {
  }

  /** SRT's ranking is always defined, so its selection never fails. */
  lemma SrtTransitionTotal(st: State, newArrivals: bool)
    ensures SrtTransition(st, newArrivals).Ok?
  {
    assert forall q: Proc :: KeyDefined(SRT, q);
  }

  /** Arrival preemption fires only on a busy CPU whose process has time
      left and no bursts at all; it then requeues the record unchanged at
      the ready tail and selects again, whatever the remaining times. With
      bursts pending but not due, arrivals are ignored. */
  lemma SrtPreemptsOnlyWithoutBursts(st: State, newArrivals: bool)
    requires st.inContext.Some?
    ensures var p := st.inContext.value;
      (p.remainingTime > 0 && p.ioBursts == [] && newArrivals ==>
         SrtTransition(st, newArrivals) ==
           Install(Requeue(st, p), RankSelect(SRT, st.clock, st.ready + [p]))) &&
      (p.remainingTime > 0 && |p.ioBursts| > 0 && !IoDue(p) ==>
         SrtTransition(st, newArrivals) == Ok(st)) &&
      (p.remainingTime > 0 && !newArrivals && !IoDue(p) ==>
         SrtTransition(st, newArrivals) == Ok(st))
  {
  }

  /** After an arrival preemption the preempted process, sitting at the ready
      tail, wins the strict scan back only if its remaining time is below
      sys.maxsize and strictly below every other ready process's; on a tie an
      earlier entry takes the CPU. */
  lemma SrtPreemptedWinsOnlyIfStrictlyShorter(st: State)
    requires st.inContext.Some? && |st.ready| > 0
    requires var p := st.inContext.value; p.remainingTime > 0 && p.ioBursts == []
    ensures var p := st.inContext.value;
      var items := st.ready + [p];
      var k := BestIndex(SRT, items);
      var r := SrtTransition(st, true).value;
      r.inContext == Some(Dispatched(items[k], st.clock)) && r.ready == Removed(items, k) &&
      (k == |st.ready| <==>
         p.remainingTime < MaxSize &&
         forall j :: 0 <= j < |st.ready| ==> p.remainingTime < st.ready[j].remainingTime)
  {
    var p := st.inContext.value;
    var items := st.ready + [p];
    assert SrtTransition(st, true) == Install(Requeue(st, p), RankSelect(SRT, st.clock, items));
    RankSelectPicksBest(SRT, st.clock, items);
    SrtPicksLastOnlyIfStrictlyShortest(items);
    assert items[|items| - 1] == p;
    assert (forall j :: 0 <= j < |items| - 1 ==> p.remainingTime < items[j].remainingTime) <==>
           (forall j :: 0 <= j < |st.ready| ==> p.remainingTime < st.ready[j].remainingTime) by {
      assert forall j :: 0 <= j < |st.ready| ==> items[j] == st.ready[j];
    }
  }

  /** The SRT transition neither creates nor loses a process. */
  lemma SrtTransitionConserves(st: State, newArrivals: bool)
    ensures var r := SrtTransition(st, newArrivals);
      r.Ok? ==> Population(r.value) == Population(st)
  {
    match st.inContext
    case None =>
      IdleSelectConserves(SRT, st);
    case Some(p) =>
      if p.remainingTime <= 0 || IoDue(p) {
        SrtMoveOutConserves(st, newArrivals, p);
      } else if p.ioBursts == [] && newArrivals {
        SrtPreemptionConserves(st, p);
      }
  }

  lemma SrtMoveOutConserves(st: State, newArrivals: bool, p: Proc)
    requires st.inContext == Some(p) && (p.remainingTime <= 0 || IoDue(p))
    ensures var r := SrtTransition(st, newArrivals);
      r.Ok? ==> Population(r.value) == Population(st)
  {
    var sel := RankSelect(SRT, st.clock, st.ready);
    RankSelectConserves(SRT, st.clock, st.ready);
    if sel.Ok? {
      if p.remainingTime <= 0 {
        RetireInstallConserves(st, p, sel.value);
      } else {
        BlockInstallConserves(st, p, sel.value);
      }
    }
  }

  lemma SrtPreemptionConserves(st: State, p: Proc)
    requires st.inContext == Some(p) && p.remainingTime > 0 && p.ioBursts == []
    ensures var r := SrtTransition(st, true);
      r.Ok? ==> Population(r.value) == Population(st)
  {
    var sel := RankSelect(SRT, st.clock, st.ready + [p]);
    RankSelectConserves(SRT, st.clock, st.ready + [p]);
    if sel.Ok? {
      RequeueInstallConserves(st, p, p, sel.value);
    }
  }

  /** No SRT tick creates, loses or duplicates a process. */
  lemma SrtTickConserves(st: State)
    ensures var s := SrtTick(st);
      !s.Crashed? ==> Population(s.st) == Population(st)
  {
    var newArrivals := AdmitCount(st.arrival, st.clock) > 0;
    AdmitMovesArrivedPrefix(st);
    SrtTransitionConserves(Admit(st), newArrivals);
    var t := SrtTransition(Admit(st), newArrivals);
    if t.Ok? {
      FinishConserves(t.value, false);
    }
  }

  // ---------------------------------------------------------------------
  // `time_in_cpu` under SRT.

  predicate CpuIdle(p: Proc)
  {
    p.timeInCpu == 0
  }

  /** No record anywhere in the scheduler has a CPU-time count. */
  ghost predicate CpuCountsZero(st: State)
  {
    (forall p :: p in st.arrival ==> CpuIdle(p)) &&
    (forall p :: p in st.ready ==> CpuIdle(p)) &&
    (forall p :: p in st.ioWait ==> CpuIdle(p)) &&
    (forall p :: p in st.finished ==> CpuIdle(p)) &&
    (st.inContext.Some? ==> CpuIdle(st.inContext.value))
  }

  /** A freshly loaded scheduler has no CPU-time counts. */
  lemma LoadHasNoCpuCounts(workload: seq<Descriptor>)
    ensures CpuCountsZero(Load(workload))
  {
  }

  /** The SRT work step decrements only `remaining_time`: `time_in_cpu`,
      zero at load, stays zero on every record through every tick. */
  lemma SrtTickKeepsCpuCountsZero(st: State)
    requires CpuCountsZero(st)
    ensures var s := SrtTick(st);
      !s.Crashed? ==> CpuCountsZero(s.st)
  {
    var newArrivals := AdmitCount(st.arrival, st.clock) > 0;
    var a := Admit(st);
    AdmitMovesArrivedPrefix(st);
    assert CpuCountsZero(a);
    var t := SrtTransition(a, newArrivals);
    if t.Ok? {
      SrtTransitionKeepsCpuCountsZero(a, newArrivals);
      FinishKeepsCpuCountsZero(t.value);
    }
  }

  lemma SelectionKeepsCpuCountsZero(st: State, moved: State, ready: seq<Proc>)
    requires CpuCountsZero(moved) && forall p :: p in ready ==> CpuIdle(p)
    ensures var r := Install(moved, RankSelect(SRT, st.clock, ready));
      r.Ok? ==> CpuCountsZero(r.value)
  {
    var r := RankSelect(SRT, st.clock, ready);
    RankSelectPicksBest(SRT, st.clock, ready);
    if r.Ok? && |ready| > 0 {
      var k := BestIndex(SRT, ready);
      assert ready[k] in ready;
      forall q | q in r.value.ready ensures CpuIdle(q) {
        var i :| 0 <= i < |r.value.ready| && r.value.ready[i] == q;
        if i < k { assert q == ready[i]; } else { assert q == ready[i + 1]; }
      }
    }
  }

  lemma SrtTransitionKeepsCpuCountsZero(st: State, newArrivals: bool)
    requires CpuCountsZero(st)
    ensures var r := SrtTransition(st, newArrivals);
      r.Ok? ==> CpuCountsZero(r.value)
  {
    match st.inContext
    case None =>
      SelectionKeepsCpuCountsZero(st, st, st.ready);
    case Some(p) =>
      if p.remainingTime <= 0 {
        var m := Retire(st, p);
        assert CpuCountsZero(m);
        SelectionKeepsCpuCountsZero(st, m, st.ready);
      } else if IoDue(p) {
        var m := Block(st, p);
        assert CpuCountsZero(m);
        SelectionKeepsCpuCountsZero(st, m, st.ready);
      } else if p.ioBursts == [] && newArrivals {
        var m := Requeue(st, p);
        assert CpuCountsZero(m);
        SelectionKeepsCpuCountsZero(st, m, m.ready);
      }
  }

  lemma FinishKeepsCpuCountsZero(st: State)
    requires CpuCountsZero(st)
    ensures var s := Finish(st, false);
      !s.Crashed? ==> CpuCountsZero(s.st)
  {
    var s := Finish(st, false);
    if s.Running? {
      var aged := AgedIo(st.ioWait, |st.ioWait|).value;
      var ar := AgedReady(st.ready);
      forall q | q in aged.0 ensures CpuIdle(q) {
        var j :| 0 <= j < |aged.0| && aged.0[j] == q;
        assert st.ioWait[j] in st.ioWait;
        assert IoTick(st.ioWait[j]).Ok?;
      }
      forall q | q in ar ensures CpuIdle(q) {
        var j :| 0 <= j < |ar| && ar[j] == q;
        assert st.ready[j] in st.ready;
      }
      var drained := Drained(aged.0, ar, aged.1);
      DrainedKeepsRecords(aged.0, ar, aged.1);
      forall q | q in drained.0 || q in drained.1 ensures CpuIdle(q) {
        assert q in multiset(drained.0) + multiset(drained.1);
        assert q in multiset(aged.0) + multiset(ar);
      }
    }
  }
}
