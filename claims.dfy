/**
 * The claim protocols by which workers take tasks.
 *
 * Three protocols occur in the programs:
 *  - a counter that is advanced only while it is below the total
 *    (the lock-guarded TaskQueue of minimax_prime.cpp);
 *  - a counter advanced by fetch-and-add on every call, the caller
 *    comparing the old value with the total (glm5_libfork_prime.cpp,
 *    minimax_seastar_prime.cpp, test_simple.cpp, prime_bench.cpp);
 *  - a FIFO queue of pre-built tasks popped until it is empty
 *    (prime_calculator.cpp, glm5_seastar_prime.cpp, pony_alpha.cpp).
 * Each step is a function of the state before the call; the runs of k
 * successive claims are proved to hand out every valid id (or queued task)
 * exactly once, in order, and nothing after that.
 */
module Claims {
  datatype Option<T> = None | Some(value: T) {
    predicate IsFailure() {
      None?
    }

    function PropagateFailure<U>(): Option<U>
      requires None?
    {
      None
    }

    function Extract(): T
      requires Some?
    {
      value
    }
  }

  /** The outcome of one claim and the counter value after it. */
  datatype Claim = Claim(outcome: Option<int>, next: int)

  /** The lock-guarded counter: an exhausted counter is left alone. */
  function BoundedStep(next: int, total: int): Claim
  {
    if next >= total then Claim(None, next) else Claim(Some(next), next + 1)
  }

  /** The fetch-and-add counter: the counter always grows by one. */
  function FetchAddStep(next: int, total: int): Claim
  {
    if next >= total then Claim(None, next + 1) else Claim(Some(next), next + 1)
  }

  /** The outcomes of k successive bounded claims from counter value next. */
  function BoundedClaims(next: int, total: int, k: nat): seq<Option<int>>
    decreases k
  {
    if k == 0 then []
    else
      var c := BoundedStep(next, total);
      [c.outcome] + BoundedClaims(c.next, total, k - 1)
  }

  /** The outcomes of k successive fetch-and-add claims from counter value next. */
  function FetchAddClaims(next: int, total: int, k: nat): seq<Option<int>>
    decreases k
  {
    if k == 0 then []
    else
      var c := FetchAddStep(next, total);
      [c.outcome] + FetchAddClaims(c.next, total, k - 1)
  }

  /** The reference schedule: call i hands out next + i while that is below total. */
  function Schedule(next: int, total: int, k: nat): seq<Option<int>>
  {
    seq(k, i => if next + i < total then Some(next + i) else None)
  }

  /** Bounded claims follow the reference schedule. */
  lemma {:induction false} BoundedClaimsSchedule(next: int, total: int, k: nat)
    ensures BoundedClaims(next, total, k) == Schedule(next, total, k)
    decreases k
  {
    if k > 0 {
      if next >= total {
        BoundedClaimsStuck(next, total, k - 1);
        assert BoundedClaims(next, total, k) == [None] + Schedule(next, total, k - 1);
      } else {
        BoundedClaimsSchedule(next + 1, total, k - 1);
        assert BoundedClaims(next, total, k) == [Some(next)] + Schedule(next + 1, total, k - 1);
      }
    }
  }

  /** An exhausted bounded counter answers none to every call. */
  lemma {:induction false} BoundedClaimsStuck(next: int, total: int, k: nat)
    requires next >= total
    ensures BoundedClaims(next, total, k) == Schedule(next, total, k)
    decreases k
  {
    if k > 0 {
      BoundedClaimsStuck(next, total, k - 1);
      assert BoundedClaims(next, total, k) == [None] + Schedule(next, total, k - 1);
    }
  }

  /** Fetch-and-add claims follow the same schedule, although the counter keeps growing. */
  lemma {:induction false} FetchAddClaimsSchedule(next: int, total: int, k: nat)
    ensures FetchAddClaims(next, total, k) == Schedule(next, total, k)
    decreases k
  {
    if k > 0 {
      FetchAddClaimsSchedule(next + 1, total, k - 1);
      var rest := Schedule(next + 1, total, k - 1);
      assert FetchAddClaims(next, total, k) == [FetchAddStep(next, total).outcome] + rest;
    }
  }

  /** The two counters cannot be told apart by what they hand out. */
  lemma BoundedAgreesWithFetchAdd(next: int, total: int, k: nat)
    ensures BoundedClaims(next, total, k) == FetchAddClaims(next, total, k)
  {
    BoundedClaimsSchedule(next, total, k);
    FetchAddClaimsSchedule(next, total, k);
  }

  /** From a fresh counter, total + extra calls give 0, 1, ..., total - 1 and then extra nones. */
  lemma ScheduleFromZero(total: nat, extra: nat)
    ensures Schedule(0, total, total + extra) == seq(total, i => Some(i)) + seq(extra, i => None)
  {
    var s := Schedule(0, total, total + extra);
    var t := seq(total, i => Some(i)) + seq(extra, i => None);
    forall i | 0 <= i < total + extra
      ensures s[i] == t[i]
    {
    }
  }

  /**
   * In any run of claims, each valid id from next on that the run reaches is
   * handed out exactly once, ids come out in increasing order, and once a
   * call answers none every later call does.
   */
  lemma ScheduleExactlyOnce(next: int, total: int, k: nat)
    ensures forall id :: next <= id < total && id < next + k ==>
      Schedule(next, total, k)[id - next] == Some(id)
    ensures forall i, j ::
      (0 <= i < k && 0 <= j < k && Schedule(next, total, k)[i].Some? &&
       Schedule(next, total, k)[i] == Schedule(next, total, k)[j]) ==> i == j
    ensures forall i, j :: 0 <= i < j < k && Schedule(next, total, k)[j].Some? ==>
      Schedule(next, total, k)[i].Some? && Schedule(next, total, k)[i].value < Schedule(next, total, k)[j].value
    ensures forall i, j :: 0 <= i < j < k && Schedule(next, total, k)[i].None? ==>
      Schedule(next, total, k)[j].None?
    ensures forall i :: 0 <= i < k && Schedule(next, total, k)[i].Some? ==>
      next <= Schedule(next, total, k)[i].value < total
  {
    var s := Schedule(next, total, k);
    assert forall i :: 0 <= i < k ==> s[i] == if next + i < total then Some(next + i) else None;
  }

  /** One pop of a FIFO queue: the front element, or none when the queue is empty. */
  function PopStep<T>(q: seq<T>): (Option<T>, seq<T>)
  {
    if |q| == 0 then (None, q) else (Some(q[0]), q[1..])
  }

  /** The outcomes of k successive pops. */
  function Pops<T>(q: seq<T>, k: nat): seq<Option<T>>
    decreases k
  {
    if k == 0 then []
    else
      var (o, rest) := PopStep(q);
      [o] + Pops(rest, k - 1)
  }

  /** Pop i returns the i-th queued element while there is one, and none afterwards. */
  lemma {:induction false} PopsInOrder<T>(q: seq<T>, k: nat)
    ensures |Pops(q, k)| == k
    ensures forall i :: 0 <= i < k ==> Pops(q, k)[i] == if i < |q| then Some(q[i]) else None
    decreases k
  {
    if k > 0 {
      var (o, rest) := PopStep(q);
      PopsInOrder(rest, k - 1);
      var r := Pops(q, k);
      assert r == [o] + Pops(rest, k - 1);
      forall i | 0 <= i < k
        ensures r[i] == if i < |q| then Some(q[i]) else None
      {
        if i > 0 {
          assert r[i] == Pops(rest, k - 1)[i - 1];
        }
      }
    }
  }

  /** When the queued elements are distinct, no pop returns an element twice. */
  lemma PopsNoRepeat<T>(q: seq<T>, k: nat)
    requires forall i, j :: 0 <= i < j < |q| ==> q[i] != q[j]
    ensures |Pops(q, k)| == k
    ensures forall i, j :: 0 <= i < j < k && Pops(q, k)[i].Some? ==> Pops(q, k)[i] != Pops(q, k)[j]
    ensures forall i :: 0 <= i < |q| && i < k ==> Pops(q, k)[i] == Some(q[i])
  {
    PopsInOrder(q, k);
  }
}
