/** The five scheduling policies of resources/ref_py/main.py and the
    rank-based choice that `Scheduler.select` makes with a policy's
    comparator, ranking field and initial accumulator. */
module Policies {
  import opened Procs

  /** Python's `sys.maxsize` on a 64-bit build. */
  const MaxSize: int := 0x7FFF_FFFF_FFFF_FFFF

  /** A policy; Round Robin carries its quantum in ticks. */
  datatype Policy = FCFS | SPN | HRRN | SRT | RR(quantum: int)

  /** The policies that select by rank; Round Robin selects first-in-first-out. */
  predicate Ranked(policy: Policy)
  {
    !policy.RR?
  }

  /** The direction of a comparator lambda: `field(e) > acc` or `field(e) < acc`. */
  datatype Cmp = Greater | Less

  function Comparator(policy: Policy): Cmp
    requires Ranked(policy)
  {
    match policy
    case FCFS => Greater
    case SPN => Less
    case HRRN => Greater
    case SRT => Less
  }

  predicate Better(c: Cmp, x: real, y: real)
  {
    match c
    case Greater => x > y
    case Less => x < y
  }

  /** The initial accumulator (`init`): 0 for the maximising policies,
      `sys.maxsize` for the others (Round Robin's is never read). */
  function Init(policy: Policy): real
  {
    match policy
    case FCFS => 0.0
    case HRRN => 0.0
    case _ => MaxSize as real
  }

  /** The ranking field can be evaluated: HRRN divides by the service time. */
  predicate KeyDefined(policy: Policy, p: Proc)
  {
    Ranked(policy) && (policy.HRRN? ==> p.serviceTime != 0)
  }

  /** (total_wait + service_time) / service_time. */
  function ResponseRatio(p: Proc): real
    requires p.serviceTime != 0
  {
    (TotalWait(p) + p.serviceTime) as real / p.serviceTime as real
  }

  /** The ranking field (`field` lambda) of each ranked policy. */
  function Key(policy: Policy, p: Proc): real
    requires KeyDefined(policy, p)
  {
    match policy
    case FCFS => TotalWait(p) as real
    case SPN => p.serviceTime as real
    case HRRN => ResponseRatio(p)
    case SRT => p.remainingTime as real
  }

  /** The comparator lambda `func(e, acc)`. */
  predicate Beats(policy: Policy, p: Proc, acc: real)
    requires KeyDefined(policy, p)
  {
    Better(Comparator(policy), Key(policy, p), acc)
  }

  /** The response ratio never falls below 1 for a record with a positive
      service time and non-negative waits, so it always beats HRRN's seed 0. */
  lemma ResponseRatioAtLeastOne(p: Proc)
    requires p.serviceTime > 0 && TotalWait(p) >= 0
    ensures ResponseRatio(p) >= 1.0
    ensures Beats(HRRN, p, Init(HRRN))
  {
    var w, s := TotalWait(p) as real, p.serviceTime as real;
    var x := ResponseRatio(p);
    assert x * s == w + s;
    assert (x - 1.0) * s == w;
    PositiveFactor(x - 1.0, s);
  }

  /** Comparing two response ratios is comparing the cross products
      (w1 + s1) * s2 and (w2 + s2) * s1: no division needed. */
  lemma ResponseRatioCrossMultiplied(p: Proc, q: Proc)
    requires p.serviceTime > 0 && q.serviceTime > 0
    ensures ResponseRatio(p) > ResponseRatio(q) <==>
            (TotalWait(p) + p.serviceTime) * q.serviceTime > (TotalWait(q) + q.serviceTime) * p.serviceTime
  {
    var a, s1 := (TotalWait(p) + p.serviceTime) as real, p.serviceTime as real;
    var b, s2 := (TotalWait(q) + q.serviceTime) as real, q.serviceTime as real;
    var x, y := a / s1, b / s2;
    assert x * s1 == a && y * s2 == b;
    assert (x - y) * (s1 * s2) == a * s2 - b * s1;
    PositiveScale(x - y, s1 * s2);
    assert ((TotalWait(p) + p.serviceTime) * q.serviceTime) as real == a * s2;
    assert ((TotalWait(q) + q.serviceTime) * p.serviceTime) as real == b * s1;
  }

  lemma PositiveScale(x: real, s: real)
    requires s > 0.0
    ensures x * s > 0.0 <==> x > 0.0
  {
    if x <= 0.0 {
      assert x * s <= 0.0;
    }
  }

  // ---------------------------------------------------------------------
  // The scan of `select`: acc starts at init, index at 0, and each ready
  // entry that beats acc replaces both.

  predicate AllKeysDefined(policy: Policy, ready: seq<Proc>)
  {
    Ranked(policy) && forall j :: 0 <= j < |ready| ==> KeyDefined(policy, ready[j])
  }

  /** Some entry among the first n beats the initial accumulator. */
  ghost predicate SomeBeatsInit(policy: Policy, ready: seq<Proc>, n: nat)
    requires n <= |ready| && AllKeysDefined(policy, ready)
  {
    exists j :: 0 <= j < n && Beats(policy, ready[j], Init(policy))
  }

  /** (acc, index) is what the scan holds after the first n entries: when an
      entry beats the seed, index is the first entry whose key is strictly
      better than every earlier key and no later key is strictly better;
      otherwise the seed and index 0 are untouched. */
  ghost predicate ScannedTo(policy: Policy, ready: seq<Proc>, n: nat, acc: real, index: nat)
    requires n <= |ready| && AllKeysDefined(policy, ready)
  {
    var c := Comparator(policy);
    if SomeBeatsInit(policy, ready, n) then
      index < n && acc == Key(policy, ready[index]) &&
      Better(c, acc, Init(policy)) &&
      (forall j :: 0 <= j < index ==> Better(c, acc, Key(policy, ready[j]))) &&
      (forall j :: index < j < n ==> !Better(c, Key(policy, ready[j]), acc))
    else
      acc == Init(policy) && index == 0
  }

  /** The running (acc, index) of the scan after the first n entries. */
  function Scan(policy: Policy, ready: seq<Proc>, n: nat): (r: (real, nat))
    requires n <= |ready| && AllKeysDefined(policy, ready)
    ensures ScannedTo(policy, ready, n, r.0, r.1)
  {
    if n == 0 then (Init(policy), 0)
    else
      var prev := Scan(policy, ready, n - 1);
      var e := ready[n - 1];
      if Beats(policy, e, prev.0) then
        assert SomeBeatsInit(policy, ready, n) by {
          if !SomeBeatsInit(policy, ready, n - 1) {
            assert Beats(policy, ready[n - 1], Init(policy));
          }
        }
        (Key(policy, e), n - 1)
      else
        assert SomeBeatsInit(policy, ready, n) == SomeBeatsInit(policy, ready, n - 1);
        prev
  }

  /** The scan after n entries depends only on those n entries. */
  lemma {:induction false} ScanPrefix(policy: Policy, s: seq<Proc>, t: seq<Proc>, n: nat)
    requires n <= |s| && n <= |t| && s[..n] == t[..n]
    requires AllKeysDefined(policy, s) && AllKeysDefined(policy, t)
    ensures Scan(policy, s, n) == Scan(policy, t, n)
  {
    if n > 0 {
      assert s[n - 1] == s[..n][n - 1] == t[..n][n - 1] == t[n - 1];
      assert s[..n - 1] == s[..n][..n - 1] == t[..n][..n - 1] == t[..n - 1];
      ScanPrefix(policy, s, t, n - 1);
    }
  }

  /** One more entry of the scan: it takes over exactly when it beats the
      running accumulator. */
  lemma ScanStep(policy: Policy, items: seq<Proc>, i: nat)
    requires i < |items| && AllKeysDefined(policy, items[..i]) && KeyDefined(policy, items[i])
    ensures AllKeysDefined(policy, items[..i + 1])
    ensures var prev := Scan(policy, items[..i], i);
      Scan(policy, items[..i + 1], i + 1) ==
        if Beats(policy, items[i], prev.0) then (Key(policy, items[i]), i) else prev
  {
    assert items[..i + 1][..i] == items[..i];
    assert items[..i + 1][i] == items[i];
    ScanPrefix(policy, items[..i + 1], items[..i], i);
  }

  /** The index `select` removes from a non-empty ready queue. */
  function BestIndex(policy: Policy, ready: seq<Proc>): (k: nat)
    requires |ready| > 0 && AllKeysDefined(policy, ready)
    ensures k < |ready|
  {
    Scan(policy, ready, |ready|).1
  }

  /** FCFS (`total_wait() > acc`, seed 0): the largest total wait wins, ties
      go to the entry queued earliest, and when nobody has waited the head is
      taken. */
  lemma FcfsPicksLongestWait(ready: seq<Proc>)
    requires |ready| > 0
    requires forall j :: 0 <= j < |ready| ==> TotalWait(ready[j]) >= 0
    ensures var k := BestIndex(FCFS, ready);
      (forall j :: 0 <= j < |ready| ==> TotalWait(ready[j]) <= TotalWait(ready[k])) &&
      (forall j :: 0 <= j < k ==> TotalWait(ready[j]) < TotalWait(ready[k])) &&
      ((forall j :: 0 <= j < |ready| ==> TotalWait(ready[j]) == 0) ==> k == 0)
  {
    var r := Scan(FCFS, ready, |ready|);
    if !SomeBeatsInit(FCFS, ready, |ready|) {
      forall j | 0 <= j < |ready| ensures TotalWait(ready[j]) == 0 {
        assert !Beats(FCFS, ready[j], Init(FCFS));
      }
    } else {
      var k := r.1;
      forall j | 0 <= j < |ready| ensures TotalWait(ready[j]) <= TotalWait(ready[k]) {
        if j > k { assert !Better(Greater, Key(FCFS, ready[j]), r.0); }
      }
    }
  }

  /** SPN (`service_time < acc`, seed sys.maxsize): the shortest service time
      wins, ties go to the earliest entry; if no service time is below
      sys.maxsize the head is taken. */
  lemma SpnPicksShortestService(ready: seq<Proc>)
    requires |ready| > 0
    ensures var k := BestIndex(SPN, ready);
      ((exists j :: 0 <= j < |ready| && ready[j].serviceTime < MaxSize) ==>
        (forall j :: 0 <= j < |ready| ==> ready[k].serviceTime <= ready[j].serviceTime) &&
        (forall j :: 0 <= j < k ==> ready[k].serviceTime < ready[j].serviceTime)) &&
      ((forall j :: 0 <= j < |ready| ==> ready[j].serviceTime >= MaxSize) ==> k == 0)
  {
    var r := Scan(SPN, ready, |ready|);
    var k := r.1;
    if exists j :: 0 <= j < |ready| && ready[j].serviceTime < MaxSize {
      var j0 :| 0 <= j0 < |ready| && ready[j0].serviceTime < MaxSize;
      assert Beats(SPN, ready[j0], Init(SPN));
      forall j | 0 <= j < |ready| ensures ready[k].serviceTime <= ready[j].serviceTime {
        if j > k { assert !Better(Less, Key(SPN, ready[j]), r.0); }
      }
    }
  }

  /** HRRN (`ratio > acc`, seed 0): with positive service times and
      non-negative waits the head already beats the seed, so the highest
      response ratio wins, ties to the earliest entry. */
  lemma HrrnPicksHighestRatio(ready: seq<Proc>)
    requires |ready| > 0
    requires forall j :: 0 <= j < |ready| ==> ready[j].serviceTime > 0 && TotalWait(ready[j]) >= 0
    ensures AllKeysDefined(HRRN, ready)
    ensures var k := BestIndex(HRRN, ready);
      (forall j :: 0 <= j < |ready| ==> ResponseRatio(ready[j]) <= ResponseRatio(ready[k])) &&
      (forall j :: 0 <= j < k ==> ResponseRatio(ready[j]) < ResponseRatio(ready[k]))
  {
    ResponseRatioAtLeastOne(ready[0]);
    var r := Scan(HRRN, ready, |ready|);
    var k := r.1;
    assert SomeBeatsInit(HRRN, ready, |ready|);
    forall j | 0 <= j < |ready| ensures ResponseRatio(ready[j]) <= ResponseRatio(ready[k]) {
      if j > k { assert !Better(Greater, Key(HRRN, ready[j]), r.0); }
    }
  }

  /** SRT (`remaining_time < acc`, seed sys.maxsize): the shortest remaining
      time wins, ties go to the earliest entry. */
  lemma SrtPicksShortestRemaining(ready: seq<Proc>)
    requires |ready| > 0
    requires exists j :: 0 <= j < |ready| && ready[j].remainingTime < MaxSize
    ensures var k := BestIndex(SRT, ready);
      (forall j :: 0 <= j < |ready| ==> ready[k].remainingTime <= ready[j].remainingTime) &&
      (forall j :: 0 <= j < k ==> ready[k].remainingTime < ready[j].remainingTime)
  {
    var r := Scan(SRT, ready, |ready|);
    var k := r.1;
    var j0 :| 0 <= j0 < |ready| && ready[j0].remainingTime < MaxSize;
    assert Beats(SRT, ready[j0], Init(SRT));
    forall j | 0 <= j < |ready| ensures ready[k].remainingTime <= ready[j].remainingTime {
      if j > k { assert !Better(Less, Key(SRT, ready[j]), r.0); }
    }
  }

  /** The last entry of a ready queue of two or more is chosen by SRT exactly
      when its remaining time is below sys.maxsize and strictly below that of
      every entry ahead of it: a tie sends the choice forward. */
  lemma SrtPicksLastOnlyIfStrictlyShortest(ready: seq<Proc>)
    requires |ready| >= 2
    ensures var last := |ready| - 1;
      BestIndex(SRT, ready) == last <==>
        ready[last].remainingTime < MaxSize &&
        forall j :: 0 <= j < last ==> ready[last].remainingTime < ready[j].remainingTime
  {
    var last := |ready| - 1;
    var r := Scan(SRT, ready, |ready|);
    if ready[last].remainingTime < MaxSize &&
       forall j :: 0 <= j < last ==> ready[last].remainingTime < ready[j].remainingTime
    {
      assert Beats(SRT, ready[last], Init(SRT));
      if r.1 != last {
        assert !Better(Less, Key(SRT, ready[last]), r.0);
      }
    }
  }
}
