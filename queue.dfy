/** The FIFO queue every process collection uses: a deque with peek,
    append-at-tail, pop-at-front, and removal at an index done by two
    rotations around a pop (resources/ref_py/queue.py). */
module Queues {

  datatype Option<T> = None | Some(value: T)

  /** `s[..k] + s[k+1..]`: the sequence without its k-th element, others in order. */
  function Removed<T>(s: seq<T>, k: nat): (r: seq<T>)
    requires k < |s|
    ensures |r| == |s| - 1
    ensures forall j :: 0 <= j < k ==> r[j] == s[j]
    ensures forall j :: k <= j < |r| ==> r[j] == s[j + 1]
    ensures multiset(r) + multiset{s[k]} == multiset(s)
  {
    assert s == s[..k] + [s[k]] + s[k + 1..];
    s[..k] + s[k + 1..]
  }

  /** A non-empty sequence is its head in front of its tail. */
  lemma HeadMultiset<T>(s: seq<T>)
    requires |s| > 0
    ensures multiset(s) == multiset(s[1..]) + multiset{s[0]}
  {
    assert s == [s[0]] + s[1..];
  }

  // ---------------------------------------------------------------------
  // Python's modulo with a positive divisor, by repeated addition or
  // subtraction of the divisor (this keeps the proofs free of non-linear
  // arithmetic).

  /** `n % L` as Python computes it for L > 0: the representative of n in [0, L). */
  function PyMod(n: int, L: int): (r: int)
    requires L > 0
    ensures 0 <= r < L
    decreases if n < 0 then 1 else 0, if n < 0 then -n else n
  {
    if n < 0 then PyMod(n + L, L)
    else if n >= L then PyMod(n - L, L)
    else n
  }

  /** For a positive divisor Python's floor modulo and Dafny's Euclidean `%`
      agree: both give the representative of n in [0, L). */
  lemma {:induction false} PyModIsRemainder(n: int, L: int)
    requires L > 0
    ensures PyMod(n, L) == n % L
    decreases if n < 0 then 1 else 0, if n < 0 then -n else n
  {
    if n < 0 {
      PyModIsRemainder(n + L, L);
      RemainderPeriodic(n, L);
    } else if n >= L {
      PyModIsRemainder(n - L, L);
      RemainderPeriodic(n - L, L);
    } else {
      RemainderUnique(n, L, 0, n);
    }
  }

  /** `%` with a positive divisor is the only r in [0, L) with n = q * L + r. */
  lemma RemainderUnique(n: int, L: int, q: int, r: int)
    requires L > 0 && 0 <= r < L && n == q * L + r
    ensures n % L == r
  {
    var q0, r0 := n / L, n % L;
    assert n == q0 * L + r0;
    MulDifference(q, q0, L);
    MulDifference(q0, q, L);
    if q > q0 {
      MulAtLeast(q - q0, L);
    } else if q < q0 {
      MulAtLeast(q0 - q, L);
    }
  }

  lemma RemainderPeriodic(n: int, L: int)
    requires L > 0
    ensures (n + L) % L == n % L
  {
    assert n == (n / L) * L + n % L;
    MulDifference(n / L + 1, 1, L);
    RemainderUnique(n + L, L, n / L + 1, n % L);
  }

  lemma MulAtLeast(a: int, L: int)
    requires a >= 1 && L > 0
    ensures a * L >= L
  {
  }

  lemma MulDifference(a: int, b: int, L: int)
    ensures a * L - b * L == (a - b) * L
  {
  }

  /** Adding the divisor does not change the remainder. */
  lemma PyModPeriodic(n: int, L: int)
    requires L > 0
    ensures PyMod(n + L, L) == PyMod(n, L)
  {
  }

  /** The remainder of n + 1 follows the remainder of n round the cycle. */
  lemma {:induction false} PyModSucc(n: int, L: int)
    requires L > 0
    ensures PyMod(n + 1, L) == if PyMod(n, L) + 1 == L then 0 else PyMod(n, L) + 1
    decreases if n < 0 then 1 else 0, if n < 0 then -n else n
  {
    if n < 0 {
      PyModSucc(n + L, L);
      PyModPeriodic(n + 1, L);
    } else if n >= L {
      PyModSucc(n - L, L);
    }
  }

  /** The remainder of -x mirrors the remainder of x. */
  lemma {:induction false} PyModNegated(x: int, L: int)
    requires L > 0
    ensures PyMod(-x, L) == if PyMod(x, L) == 0 then 0 else L - PyMod(x, L)
    decreases if x < 0 then -x else x
  {
    if x > 0 {
      PyModNegated(x - 1, L);
      PyModSucc(-x, L);
      PyModSucc(x - 1, L);
    } else if x < 0 {
      PyModNegated(x + 1, L);
      PyModSucc(x, L);
      PyModSucc(-x - 1, L);
    }
  }

  /** The remainder of a sum depends only on the remainder of one summand. */
  lemma {:induction false} PyModAdd(a: int, b: int, L: int)
    requires L > 0
    ensures PyMod(a + b, L) == PyMod(a + PyMod(b, L), L)
    decreases if b < 0 then 1 else 0, if b < 0 then -b else b
  {
    if b < 0 {
      PyModAdd(a, b + L, L);
      PyModPeriodic(a + b, L);
    } else if b >= L {
      PyModAdd(a, b - L, L);
      PyModPeriodic(a + b - L, L);
    }
  }

  // ---------------------------------------------------------------------
  // deque.rotate and deque_at as functions on the contents.

  /** The last k elements moved, in order, in front of the others. */
  function RotatedRightBy<T>(s: seq<T>, k: int): (r: seq<T>)
    requires 0 <= k <= |s|
    ensures |r| == |s|
  {
    s[|s| - k..] + s[..|s| - k]
  }

  /** The contents after Python's `deque.rotate(n)`: every element moves n
      places to the right (left for negative n), wrapping around, the step
      taken modulo the length; a deque of length 0 or 1 is left alone. */
  function Rotated<T>(s: seq<T>, n: int): (r: seq<T>)
    ensures |r| == |s|
  {
    if |s| <= 1 then s else RotatedRightBy(s, PyMod(n, |s|))
  }

  /** A rotation neither adds nor drops an element. */
  lemma RotatedPermutes<T>(s: seq<T>, n: int)
    ensures multiset(Rotated(s, n)) == multiset(s)
  {
    if |s| > 1 {
      var k := PyMod(n, |s|);
      assert s == s[..|s| - k] + s[|s| - k..];
    }
  }

  /** Rotation moves the element at i to position (i + n) mod |s|. */
  lemma RotatedMoves<T>(s: seq<T>, n: int, i: int)
    requires 0 <= i < |s|
    ensures Rotated(s, n)[PyMod(i + n, |s|)] == s[i]
  {
    var L := |s|;
    if L > 1 {
      var k := PyMod(n, L);
      PyModAdd(i, n, L);
      if i + k >= L {
        assert PyMod(i + k, L) == i + k - L;
      }
    }
  }

  /** rotate(-x) on a non-empty deque brings element x mod |s| to the front. */
  lemma RotatedLeft<T>(s: seq<T>, x: int)
    requires |s| > 0
    ensures Rotated(s, -x) == s[PyMod(x, |s|)..] + s[..PyMod(x, |s|)]
  {
    var L := |s|;
    if L > 1 {
      PyModNegated(x, L);
    }
  }

  /** Rotating a + b left by |a| puts b in front of a. */
  lemma RotatedSwapsBack<T>(a: seq<T>, b: seq<T>)
    ensures Rotated(a + b, -|a|) == b + a
  {
    var s := a + b;
    var L := |s|;
    if L <= 1 {
      assert a == [] || b == [];
    } else if a == [] {
      assert s == b + a;
    } else {
      assert PyMod(-|a|, L) == |b|;
      assert s[L - |b|..] == b;
      assert s[..L - |b|] == a;
    }
  }

  /** The contents that `deque_at(index)` leaves: with n the length before the
      call, rotate(-index), pop the front, then rotate(-(n - index - 1)). On an
      empty deque nothing changes (the pop yields None). */
  function AfterDequeAt<T>(s: seq<T>, index: int): (r: seq<T>)
    ensures |s| > 0 ==> |r| == |s| - 1
    ensures |s| == 0 ==> r == s
  {
    if |s| == 0 then s
    else Rotated(Rotated(s, -index)[1..], -(|s| - index - 1))
  }

  /** deque_at on a non-empty deque: rotate the element to the front, pop
      it, rotate the rest back. */
  lemma AfterDequeAtRotations<T>(s: seq<T>, index: int)
    requires |s| > 0
    ensures AfterDequeAt(s, index) == Rotated(Rotated(s, -index)[1..], -(|s| - index - 1))
  {
  }

  /** The element `deque_at(index)` returns: the one rotated to the front. */
  function DequeAtResult<T>(s: seq<T>, index: int): (e: Option<T>)
    ensures e.None? <==> |s| == 0
  {
    if |s| == 0 then None else Some(Rotated(s, -index)[0])
  }

  /** Whatever the index (past the end included, where the rotation wraps),
      deque_at on a non-empty deque returns element index mod n and removes
      exactly that element. */
  lemma DequeAtRemovesReturned<T>(s: seq<T>, index: int)
    requires |s| > 0
    ensures DequeAtResult(s, index) == Some(s[PyMod(index, |s|)])
    ensures multiset(AfterDequeAt(s, index)) + multiset{s[PyMod(index, |s|)]} == multiset(s)
  {
    DequeAtFront(s, index);
    DequeAtKeepsOthers(s, index);
  }

  lemma DequeAtFront<T>(s: seq<T>, index: int)
    requires |s| > 0
    ensures DequeAtResult(s, index) == Some(s[PyMod(index, |s|)])
  {
    RotatedLeft(s, index);
  }

  lemma DequeAtKeepsOthers<T>(s: seq<T>, index: int)
    requires |s| > 0
    ensures multiset(AfterDequeAt(s, index)) + multiset{s[PyMod(index, |s|)]} == multiset(s)
  {
    PoppedKeepsOthers(s, index);
    AfterDequeAtPermutesPopped(s, index);
  }

  /** Popping the front after rotate(-index) drops exactly element index mod n. */
  lemma PoppedKeepsOthers<T>(s: seq<T>, index: int)
    requires |s| > 0
    ensures multiset(Rotated(s, -index)[1..]) + multiset{s[PyMod(index, |s|)]} == multiset(s)
  {
    RotatedLeft(s, index);
    SplitTail(s, PyMod(index, |s|), Rotated(s, -index));
  }

  /** The tail of s[k..] + s[..k] is s without s[k], the wrapped part last. */
  lemma SplitTail<T>(s: seq<T>, k: int, r: seq<T>)
    requires 0 <= k < |s| && r == s[k..] + s[..k]
    ensures r[1..] == s[k + 1..] + s[..k]
    ensures multiset(r[1..]) + multiset{s[k]} == multiset(s)
  {
    assert r[1..] == s[k + 1..] + s[..k];
    assert s == s[..k] + [s[k]] + s[k + 1..];
  }

  /** The rotation back after the pop keeps the popped contents' multiset. */
  lemma AfterDequeAtPermutesPopped<T>(s: seq<T>, index: int)
    requires |s| > 0
    ensures multiset(AfterDequeAt(s, index)) == multiset(Rotated(s, -index)[1..])
  {
    var u, k := Rotated(s, -index)[1..], -(|s| - index - 1);
    AfterDequeAtRotations(s, index);
    RotationOfPermutes(AfterDequeAt(s, index), u, k);
  }

  lemma RotationOfPermutes<T>(x: seq<T>, u: seq<T>, k: int)
    requires x == Rotated(u, k)
    ensures multiset(x) == multiset(u)
  {
    RotatedPermutes(u, k);
  }

  /** For an index inside the deque, deque_at returns s[index] and leaves the
      others in their original order. */
  lemma {:induction false} DequeAtInRange<T>(s: seq<T>, index: int)
    requires 0 <= index < |s|
    ensures DequeAtResult(s, index) == Some(s[index])
    ensures AfterDequeAt(s, index) == Removed(s, index)
  {
    RotatedLeft(s, index);
    RemainderInRange(s, index);
  }

  lemma RemainderInRange<T>(s: seq<T>, index: int)
    requires 0 <= index < |s|
    requires Rotated(s, -index) == s[index..] + s[..index]
    ensures AfterDequeAt(s, index) == Removed(s, index)
  {
    var a, b := s[index + 1..], s[..index];
    SplitTail(s, index, Rotated(s, -index));
    AfterDequeAtRotations(s, index);
    RotatedSwapsBack(a, b);
  }

  /** deque_at(0) on a non-empty deque is deque(): the front leaves. */
  lemma DequeAtZeroIsDeque<T>(s: seq<T>)
    requires |s| > 0
    ensures DequeAtResult(s, 0) == Some(s[0])
    ensures AfterDequeAt(s, 0) == s[1..]
  {
    DequeAtInRange(s, 0);
  }

  // ---------------------------------------------------------------------

  /** The `Queue` class: a `collections.deque` whose contents are `items`. */
  class Queue<T> {
    var items: seq<T>

    constructor ()
      ensures items == []
    {
      items := [];
    }

    /** peek: the front element, or None when the queue is empty. */
    method Peek() returns (r: Option<T>)
      ensures |items| > 0 ==> r == Some(items[0])
      ensures |items| == 0 ==> r == None
    {
      r := if |items| > 0 then Some(items[0]) else None;
    }

    /** enque: append at the tail. */
    method Enque(e: T)
      modifies this
      ensures items == old(items) + [e]
    {
      items := items + [e];
    }

    /** deque: pop the front, or return None and change nothing when empty. */
    method Deque() returns (r: Option<T>)
      modifies this
      ensures old(items) == [] ==> r == None && items == []
      ensures old(items) != [] ==> r == Some(old(items)[0]) && items == old(items)[1..]
    {
      if |items| > 0 {
        r := Some(items[0]);
        items := items[1..];
      } else {
        r := None;
      }
    }

    /** deque.rotate(n). */
    method Rotate(n: int)
      modifies this
      ensures items == Rotated(old(items), n)
    {
      if |items| > 1 {
        var k := PyMod(n, |items|);
        items := items[|items| - k..] + items[..|items| - k];
      }
    }

    /** deque_at: remove and return the element at `index` by rotating it to
        the front, popping it and rotating back. */
    method DequeAt(index: int) returns (e: Option<T>)
      modifies this
      ensures e == DequeAtResult(old(items), index)
      ensures items == AfterDequeAt(old(items), index)
      ensures old(items) == [] ==> e == None && items == []
      ensures old(items) != [] ==>
                e == Some(old(items)[PyMod(index, |old(items)|)]) &&
                multiset(items) + multiset{e.value} == multiset(old(items))
      ensures 0 <= index < |old(items)| ==>
                e == Some(old(items)[index]) && items == Removed(old(items), index)
    {
      ghost var s := items;
      var r := |items| - index - 1;
      Rotate(-index);
      e := Deque();
      Rotate(-r);
      if |s| > 0 {
        DequeAtRemovesReturned(s, index);
      }
      if 0 <= index < |s| {
        DequeAtInRange(s, index);
      }
    }
  }
}
