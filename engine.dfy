/** The scheduler as the program drives it: the tick of the configured
    policy, a run bounded by a tick budget, and the `Engine` class that
    performs a tick in place on its four queues the way the Python classes
    do (resources/ref_py/scheduler.py, rr_scheduler.py, srt_scheduler.py). */
module Engines {
  import opened Queues
  import opened Procs
  import opened Policies
  import opened Scheduling
  import opened RoundRobin
  import opened ShortestRemaining

  /** One tick of the scheduler class the policy is run with in main.py. */
  function Tick(policy: Policy, st: State): (r: Step)
    ensures r.Crashed? && r.fault == ZeroService ==> policy == HRRN
  {
    match policy
    case RR(q) => RrTick(q, st)
    case SRT => SrtTick(st)
    case _ => BaseTick(policy, st)
  }

  /** No tick of any policy creates, loses or duplicates a process. */
  lemma TickConserves(policy: Policy, st: State)
    ensures var s := Tick(policy, st);
      !s.Crashed? ==> Population(s.st) == Population(st)
  {
    match policy
    case RR(q) => RrTickConserves(q, st);
    case SRT => SrtTickConserves(st);
    case _ => BaseTickConserves(policy, st);
  }

  /** A tick that does not return early advances the clock by exactly one;
      one that returns at the completion check leaves it, with every process
      finished and `done` set. */
  lemma TickClock(policy: Policy, st: State)
    ensures var s := Tick(policy, st);
      (s.Running? ==> s.st.clock == st.clock + 1 && s.st.totalProcs == st.totalProcs && s.st.done == st.done) &&
      (s.Done? ==> s.st.clock == st.clock && s.st.totalProcs == st.totalProcs &&
                   s.st.done && |s.st.finished| == s.st.totalProcs)
  {
    var s := Tick(policy, st);
    var a := Admit(st);
    match policy
    case RR(q) =>
      FinishCompletion(RrTransition(q, a), true);
      if s.Running? { FinishNonFinal(RrTransition(q, a), true); }
    case SRT =>
      var t := SrtTransition(a, AdmitCount(st.arrival, st.clock) > 0);
      if t.Ok? {
        FinishCompletion(t.value, false);
        if s.Running? { FinishNonFinal(t.value, false); }
      }
    case _ =>
      var t := BaseTransition(policy, a);
      if t.Ok? {
        FinishCompletion(t.value, false);
        if s.Running? { FinishNonFinal(t.value, false); }
      }
  }

  /** A process whose last unit of work ran in the tick at clock c is retired
      by the next tick with finish time c + 1: the clock at the start of that
      tick. */
  lemma FinishTimeIsNextClock(policy: Policy, st: State)
    requires Tick(policy, st).Running?
    requires var s := Tick(policy, st).st; s.inContext.Some? && s.inContext.value.remainingTime <= 0
    ensures var s := Tick(policy, st).st;
      var p := s.inContext.value;
      !Tick(policy, s).Crashed? ==>
        Tick(policy, s).st.finished == s.finished + [p.(finishTime := st.clock + 1)]
  {
    var s := Tick(policy, st).st;
    var p := s.inContext.value;
    TickClock(policy, st);
    var a := Admit(s);
    assert a.inContext == Some(p) && a.finished == s.finished && a.clock == s.clock;
    match policy
    case RR(q) =>
      var t := RrTransition(q, a);
      assert t.finished == s.finished + [p.(finishTime := s.clock)];
    case SRT =>
      var t := SrtTransition(a, AdmitCount(s.arrival, s.clock) > 0);
      if t.Ok? {
        assert t.value.finished == s.finished + [p.(finishTime := s.clock)];
      }
    case _ =>
      var t := BaseTransition(policy, a);
      if t.Ok? {
        assert t.value.finished == s.finished + [p.(finishTime := s.clock)];
      }
  }

  // ---------------------------------------------------------------------
  // `run`, bounded by a tick budget.

  /** How a bounded run ends: the completion check returned, a tick raised,
      or the budget ran out first. */
  datatype RunResult = Completed(st: State) | Failed(fault: Fault) | OutOfFuel(st: State)

  /** The `run` loop of the base class for a given `tick`: the class's own
      tick, dispatched dynamically. It stops when a tick raises or sets
      `done`, or after `fuel` ticks. */
  function Loop(tick: State -> Step, st: State, fuel: nat): RunResult
    decreases fuel
  {
    if fuel == 0 then OutOfFuel(st)
    else
      match tick(st)
      case Crashed(f) => Failed(f)
      case Done(s) => Completed(s)
      case Running(s) => Loop(tick, s, fuel - 1)
  }

  /** The tick of the scheduler class the policy is run with. */
  function TickOf(policy: Policy): State -> Step
  {
    s => Tick(policy, s)
  }

  /** One turn of the `run` loop with budget left: the tick decides. */
  lemma LoopUnfolds(policy: Policy, st: State, fuel: nat)
    requires fuel > 0
    ensures var s := Tick(policy, st);
      (s.Crashed? ==> Loop(TickOf(policy), st, fuel) == Failed(s.fault)) &&
      (s.Done? ==> Loop(TickOf(policy), st, fuel) == Completed(s.st)) &&
      (s.Running? ==> Loop(TickOf(policy), st, fuel) == Loop(TickOf(policy), s.st, fuel - 1))
  {
    assert TickOf(policy)(st) == Tick(policy, st);
  }

  /** `run`: clear `done`, then tick while it is not set. */
  function Run(policy: Policy, st: State, fuel: nat): RunResult
  {
    Loop(TickOf(policy), st.(done := false), fuel)
  }

  /** Every tick that does not raise keeps the quantity `f` of the state. */
  ghost predicate Keeps<T>(tick: State -> Step, f: State -> T)
  {
    forall s :: !tick(s).Crashed? ==> f(tick(s).st) == f(s)
  }

  /** Every tick that returns at the completion check has set `done` with
      every loaded process finished. */
  ghost predicate StopsOnlyWhenComplete(tick: State -> Step)
  {
    forall s :: tick(s).Done? ==> tick(s).st.done && |tick(s).st.finished| == tick(s).st.totalProcs
  }

  /** The number of loaded processes. */
  function TotalProcs(st: State): int
  {
    st.totalProcs
  }

  /** The tick of every policy keeps the population and the number of loaded
      processes, and returns at the completion check only when all are
      finished. */
  lemma TickOfKeeps(policy: Policy)
    ensures Keeps(TickOf(policy), Population)
    ensures Keeps(TickOf(policy), TotalProcs)
    ensures StopsOnlyWhenComplete(TickOf(policy))
  {
    forall s ensures !Tick(policy, s).Crashed? ==> Population(Tick(policy, s).st) == Population(s) {
      TickConserves(policy, s);
    }
    forall s ensures !Tick(policy, s).Crashed? ==> Tick(policy, s).st.totalProcs == s.totalProcs {
      TickClock(policy, s);
    }
    forall s ensures Tick(policy, s).Done? ==>
       Tick(policy, s).st.done && |Tick(policy, s).st.finished| == Tick(policy, s).st.totalProcs
    {
      TickClock(policy, s);
    }
  }

  /** A quantity every tick keeps is kept by a run that does not fail. */
  lemma {:induction false} LoopKeeps<T>(tick: State -> Step, f: State -> T, st: State, fuel: nat)
    requires Keeps(tick, f)
    ensures var r := Loop(tick, st, fuel); !r.Failed? ==> f(r.st) == f(st)
    decreases fuel
  {
    if fuel > 0 {
      var t := tick(st);
      if t.Running? {
        LoopKeeps(tick, f, t.st, fuel - 1);
      }
    }
  }

  /** A run stops by completion only with `done` set and every loaded
      process finished. */
  lemma {:induction false} LoopStopsOnlyWhenComplete(tick: State -> Step, st: State, fuel: nat)
    requires StopsOnlyWhenComplete(tick)
    ensures var r := Loop(tick, st, fuel);
      r.Completed? ==> r.st.done && |r.st.finished| == r.st.totalProcs
    decreases fuel
  {
    if fuel > 0 {
      var t := tick(st);
      if t.Running? {
        LoopStopsOnlyWhenComplete(tick, t.st, fuel - 1);
      }
    }
  }

  /** The ids of a workload. */
  function WorkloadIds(workload: seq<Descriptor>): (r: seq<string>)
    ensures |r| == |workload|
  {
    seq(|workload|, i requires 0 <= i < |workload| => workload[i].id)
  }

  /** When a run of a loaded workload completes, `finished` holds exactly the
      workload's processes, each once, and no queue or the CPU holds anything. */
  lemma RunCompletesWorkload(policy: Policy, workload: seq<Descriptor>, fuel: nat)
    ensures var r := Run(policy, Load(workload), fuel);
      r.Completed? ==>
        IdBag(r.st.finished) == multiset(WorkloadIds(workload)) &&
        r.st.arrival == [] && r.st.ready == [] && r.st.ioWait == [] && r.st.inContext == None
  {
    var st0 := Load(workload).(done := false);
    var r := Run(policy, Load(workload), fuel);
    TickOfKeeps(policy);
    LoopKeeps(TickOf(policy), Population, st0, fuel);
    LoopKeeps(TickOf(policy), TotalProcs, st0, fuel);
    LoopStopsOnlyWhenComplete(TickOf(policy), st0, fuel);
    assert Ids(st0.arrival) == WorkloadIds(workload);
    if r.Completed? {
      assert Population(st0) == multiset(WorkloadIds(workload));
      OnlyFinishedRemain(r.st);
    }
  }

  /** A state holding as many processes as `finished` has records holds them
      all in `finished`. */
  lemma OnlyFinishedRemain(s: State)
    requires |Population(s)| == |s.finished|
    ensures s.arrival == [] && s.ready == [] && s.ioWait == [] && s.inContext == None
    ensures Population(s) == IdBag(s.finished)
  {
    assert |Population(s)| == |s.arrival| + |s.ready| + |s.ioWait| + |s.finished| + |ContextBag(s.inContext)|;
  }

  /** An empty workload's run completes on its first tick with the clock at 0. */
  lemma EmptyRunCompletesAtOnce(policy: Policy)
    ensures Run(policy, Load([]), 1) == Completed(Load([]))
  {
    var st0 := Load([]).(done := false);
    assert Admit(st0) == st0;
    match policy
    case RR(q) =>
      assert RrTransition(q, Admit(st0)) == st0;
    case SRT =>
      assert SrtTransition(Admit(st0), false) == Ok(st0);
    case _ =>
      assert BaseTransition(policy, Admit(st0)) == Ok(st0);
  }
}
