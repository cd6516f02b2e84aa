/** The process record (resources/ref_py/proc.py): static demand, the
    simulation state the schedulers update, and the derived statistics. */
module Procs {

  /** One I/O burst: it is triggered when the CPU time already consumed
      (service - remaining) equals `offset`, and keeps the process in I/O
      wait for `duration` ticks. */
  datatype Burst = Burst(offset: int, duration: int)

  datatype Proc = Proc(
    id: string,
    arrivalTime: int,
    serviceTime: int,
    startTime: int,
    started: bool,
    remainingTime: int,
    finishTime: int,
    timeInReady: int,
    timeInIoWait: int,
    timeInCpu: int,
    ioBursts: seq<Burst>)

  /** CPU ticks the process has executed so far. */
  function Elapsed(p: Proc): int
  {
    p.serviceTime - p.remainingTime
  }

  /** A freshly constructed record: nothing executed, nothing waited, not
      started, no bursts (the loader appends them afterwards). */
  function NewProc(id: string, arrivalTime: int, serviceTime: int): (p: Proc)
    ensures p.id == id && p.arrivalTime == arrivalTime && p.serviceTime == serviceTime
    ensures p.remainingTime == serviceTime && Elapsed(p) == 0
    ensures !p.started && p.startTime == 0 && p.finishTime == 0
    ensures TotalWait(p) == 0 && p.timeInReady == 0 && p.timeInIoWait == 0
    ensures p.timeInCpu == 0 && p.ioBursts == []
  {
    Proc(id, arrivalTime, serviceTime, 0, false, serviceTime, 0, 0, 0, 0, [])
  }

  /** total_wait: ticks spent in the ready queue plus ticks spent in I/O wait. */
  function TotalWait(p: Proc): int
  {
    p.timeInReady + p.timeInIoWait
  }

  /** turnaround_time: finish time minus arrival time. */
  function TurnaroundTime(p: Proc): int
  {
    p.finishTime - p.arrivalTime
  }

  /** norm_turnaround: turnaround divided by service time (defined only for a
      non-zero service time; Python would raise ZeroDivisionError). */
  function NormTurnaround(p: Proc): real
    requires p.serviceTime != 0
  {
    TurnaroundTime(p) as real / p.serviceTime as real
  }

  /** The normalised turnaround scaled back by the service time is the
      turnaround, and it is at least 1 exactly when the turnaround is at
      least the service time. */
  lemma NormTurnaroundScales(p: Proc)
    requires p.serviceTime > 0
    ensures NormTurnaround(p) * p.serviceTime as real == TurnaroundTime(p) as real
    ensures NormTurnaround(p) >= 1.0 <==> TurnaroundTime(p) >= p.serviceTime
  {
    var t, s := TurnaroundTime(p) as real, p.serviceTime as real;
    var n := NormTurnaround(p);
    assert n * s == t;
    assert (n - 1.0) * s == t - s;
    PositiveFactor(n - 1.0, s);
  }

  lemma PositiveFactor(x: real, s: real)
    requires s > 0.0
    ensures x * s >= 0.0 <==> x >= 0.0
  {
    if x < 0.0 {
      assert x * s < 0.0;
    }
  }

  /** The ids of a sequence of records, in order. */
  function Ids(s: seq<Proc>): (r: seq<string>)
    ensures |r| == |s|
    ensures forall i {:trigger r[i]} :: 0 <= i < |s| ==> r[i] == s[i].id
  {
    seq(|s|, i requires 0 <= i < |s| => s[i].id)
  }

  /** The multiset of ids held by a sequence of records. */
  function IdBag(s: seq<Proc>): multiset<string>
  {
    multiset(Ids(s))
  }

  lemma IdBagAppend(a: seq<Proc>, b: seq<Proc>)
    ensures IdBag(a + b) == IdBag(a) + IdBag(b)
  {
    assert Ids(a + b) == Ids(a) + Ids(b);
  }

  /** Records updated field by field without touching `id` keep the ids. */
  lemma IdBagSameIds(a: seq<Proc>, b: seq<Proc>)
    requires |a| == |b|
    requires forall i :: 0 <= i < |a| ==> a[i].id == b[i].id
    ensures IdBag(a) == IdBag(b)
  {
    assert Ids(a) == Ids(b);
  }
}
