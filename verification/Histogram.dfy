/** The queue-wait histogram and the cumulative form that is emitted. */
module Histograms {
  import Lanes

  const QUEUE_BOUNDS_US: seq<nat> := [
    500, 1_000, 2_500, 5_000, 10_000, 25_000, 50_000, 100_000, 250_000, 500_000, 1_000_000,
    2_500_000, 5_000_000, 10_000_000]

  const BOUNDS: nat := 14

  lemma BoundsAscend()
    ensures |QUEUE_BOUNDS_US| == BOUNDS
    ensures forall i, j :: 0 <= i < j < BOUNDS ==> QUEUE_BOUNDS_US[i] < QUEUE_BOUNDS_US[j]
  {
  }

  /** How many waits are no longer than `bound`: what an `le` line promises. */
  function AtMost(waits: seq<nat>, bound: nat): nat {
    if waits == [] then 0 else (if waits[0] <= bound then 1 else 0) + AtMost(waits[1..], bound)
  }

  function Sum(s: seq<nat>): nat {
    if s == [] then 0 else s[0] + Sum(s[1..])
  }

  lemma {:induction false} AtMostAppend(waits: seq<nat>, wait: nat, bound: nat)
    ensures AtMost(waits + [wait], bound) == AtMost(waits, bound) + if wait <= bound then 1 else 0
  {
    if waits != [] {
      assert (waits + [wait])[1..] == waits[1..] + [wait];
      AtMostAppend(waits[1..], wait, bound);
    }
  }

  lemma {:induction false} SumAppend(s: seq<nat>, n: nat)
    ensures Sum(s + [n]) == Sum(s) + n
  {
    if s != [] {
      assert (s + [n])[1..] == s[1..] + [n];
      SumAppend(s[1..], n);
    }
  }

  /** The buckets up to and including the i-th hold the waits within the i-th bound, and the overflow the rest. */
  ghost predicate Tallied(buckets: seq<nat>, overflow: nat, waits: seq<nat>) {
    && |buckets| == BOUNDS == |QUEUE_BOUNDS_US|
    && (forall i :: 0 <= i < BOUNDS ==> Sum(buckets[..i + 1]) == AtMost(waits, QUEUE_BOUNDS_US[i]))
    && Sum(buckets) + overflow == |waits|
  }

  lemma {:induction false} SumBump(s: seq<nat>, k: nat)
    requires k < |s|
    ensures Sum(s[k := s[k] + 1]) == Sum(s) + 1
  {
    if k == 0 {
      assert s[k := s[k] + 1][1..] == s[1..];
    } else {
      assert s[k := s[k] + 1][1..] == s[1..][k - 1 := s[1..][k - 1] + 1];
      SumBump(s[1..], k - 1);
    }
  }

  /** The first bound no smaller than the wait decides the bucket. */
  lemma Bumped(buckets: seq<nat>, overflow: nat, waits: seq<nat>, wait: nat, k: nat)
    requires Tallied(buckets, overflow, waits) && k < BOUNDS && wait <= QUEUE_BOUNDS_US[k]
    requires forall i :: 0 <= i < k ==> QUEUE_BOUNDS_US[i] < wait
    ensures Tallied(buckets[k := buckets[k] + 1], overflow, waits + [wait])
  {
    BoundsAscend();
    var b := buckets[k := buckets[k] + 1];
    forall i | 0 <= i < BOUNDS ensures Sum(b[..i + 1]) == AtMost(waits + [wait], QUEUE_BOUNDS_US[i]) {
      AtMostAppend(waits, wait, QUEUE_BOUNDS_US[i]);
      if k <= i {
        assert b[..i + 1] == buckets[..i + 1][k := buckets[..i + 1][k] + 1];
        SumBump(buckets[..i + 1], k);
      } else {
        assert b[..i + 1] == buckets[..i + 1];
      }
    }
    SumBump(buckets, k);
  }

  lemma Overflowed(buckets: seq<nat>, overflow: nat, waits: seq<nat>, wait: nat)
    requires Tallied(buckets, overflow, waits)
    requires forall i :: 0 <= i < BOUNDS ==> QUEUE_BOUNDS_US[i] < wait
    ensures Tallied(buckets, overflow + 1, waits + [wait])
  {
    forall i | 0 <= i < BOUNDS ensures Sum(buckets[..i + 1]) == AtMost(waits + [wait], QUEUE_BOUNDS_US[i]) {
      AtMostAppend(waits, wait, QUEUE_BOUNDS_US[i]);
    }
  }

  /** The first bound that is at least the wait; `BOUNDS` when there is none. */
  method Position(wait: nat) returns (k: nat)
    ensures k <= BOUNDS == |QUEUE_BOUNDS_US| && (k < BOUNDS ==> wait <= QUEUE_BOUNDS_US[k])
    ensures forall i :: 0 <= i < k ==> QUEUE_BOUNDS_US[i] < wait
  {
    k := 0;
    while k < |QUEUE_BOUNDS_US| && wait > QUEUE_BOUNDS_US[k]
      invariant k <= |QUEUE_BOUNDS_US| && forall i :: 0 <= i < k ==> QUEUE_BOUNDS_US[i] < wait
    {
      k := k + 1;
    }
  }

  class QueueHistogram {
    const buckets: array<nat>
    var overflow: nat
    var sumUs: nat
    var count: nat
    ghost var waits: seq<nat>

    ghost predicate Valid()
      reads this, buckets
    {
      Tallied(buckets[..], overflow, waits) && count == |waits| && sumUs == Sum(waits)
    }

    constructor ()
      ensures Valid() && fresh(buckets) && waits == []
    {
      var zeros := new nat[BOUNDS](_ => 0);
      buckets := zeros;
      overflow, sumUs, count, waits := 0, 0, 0, [];
      new;
      EmptyTally(buckets[..]);
    }

    method Record(wait: nat)
      requires Valid()
      modifies this`overflow, this`sumUs, this`count, this`waits, buckets
      ensures Valid() && waits == old(waits) + [wait]
    {
      ghost var before := buckets[..];
      var k := Position(wait);
      if k < BOUNDS {
        Bumped(before, overflow, waits, wait, k);
        buckets[k] := buckets[k] + 1;
        assert buckets[..] == before[k := before[k] + 1];
      } else {
        Overflowed(before, overflow, waits, wait);
        overflow := overflow + 1;
      }
      SumAppend(waits, wait);
      sumUs := sumUs + wait;
      count := count + 1;
      waits := waits + [wait];
    }
  }

  lemma EmptyTally(buckets: seq<nat>)
    requires |buckets| == BOUNDS && forall i :: 0 <= i < |buckets| ==> buckets[i] == 0
    ensures Tallied(buckets, 0, [])
  {
    forall i | 0 <= i < BOUNDS ensures Sum(buckets[..i + 1]) == AtMost([], QUEUE_BOUNDS_US[i]) {
      Zeros(buckets[..i + 1]);
    }
    Zeros(buckets);
  }

  lemma {:induction false} Zeros(s: seq<nat>)
    requires forall i :: 0 <= i < |s| ==> s[i] == 0
    ensures Sum(s) == 0
  {
    if s != [] {
      Zeros(s[1..]);
    }
  }

  /** What one scrape emits: a line per bound, then `+Inf` and `_count`. */
  datatype Emitted = Emitted(le: seq<nat>, inf: nat, count: nat)

  /** The cumulative loop of `metrics_text`, on whatever snapshot it was given: nondecreasing lines that end
      in `_count`; and the true counts when the snapshot is the histogram of some waits. */
  method Emit(buckets: seq<nat>, overflow: nat) returns (e: Emitted)
    requires |buckets| == BOUNDS
    ensures |e.le| == BOUNDS && e.inf == e.count
    ensures forall i, j :: 0 <= i <= j < BOUNDS ==> e.le[i] <= e.le[j] <= e.inf
    ensures forall waits: seq<nat> :: Tallied(buckets, overflow, waits) ==> Honest(e, waits)
    ensures forall i :: 0 <= i < BOUNDS ==> e.le[i] == Sum(buckets[..i + 1])
    ensures e.inf == Sum(buckets) + overflow
  {
    var cumulative := 0;
    var le := [];
    for i := 0 to BOUNDS
      invariant |le| == i && cumulative == Sum(buckets[..i])
      invariant forall j :: 0 <= j < i ==> le[j] == Sum(buckets[..j + 1]) && le[j] <= cumulative
      invariant forall j, k :: 0 <= j <= k < i ==> le[j] <= le[k]
    {
      assert buckets[..i + 1] == buckets[..i] + [buckets[i]];
      SumAppend(buckets[..i], buckets[i]);
      cumulative := cumulative + buckets[i];
      le := le + [cumulative];
    }
    assert buckets[..BOUNDS] == buckets;
    var total := cumulative + overflow;
    e := Emitted(le, total, total);
  }

  /** Every `le` value is the number of waits within that bound, and the rest is counted under `+Inf`. */
  ghost predicate Honest(e: Emitted, waits: seq<nat>) {
    && |e.le| == BOUNDS == |QUEUE_BOUNDS_US| && e.inf == |waits|
    && forall i :: 0 <= i < BOUNDS ==> e.le[i] == AtMost(waits, QUEUE_BOUNDS_US[i])
  }

  lemma {:induction false} SumMonotone(s: seq<nat>, t: seq<nat>)
    requires |s| == |t| && forall i :: 0 <= i < |s| ==> s[i] <= t[i]
    ensures Sum(s) <= Sum(t)
  {
    if s != [] {
      SumMonotone(s[1..], t[1..]);
    }
  }

  /** A snapshot torn by records made while it was read, each field seen at some moment in between: every
      line it yields lies between the true count when the reading began and when it ended. */
  lemma {:induction false} TornSnapshot(first: seq<nat>, overflow0: nat, waits: seq<nat>, torn: seq<nat>, overflow: nat,
                     last: seq<nat>, overflow1: nat, more: seq<nat>)
    requires Tallied(first, overflow0, waits) && Tallied(last, overflow1, waits + more)
    requires |torn| == BOUNDS && forall i :: 0 <= i < BOUNDS ==> first[i] <= torn[i] <= last[i]
    requires overflow0 <= overflow <= overflow1
    ensures forall i :: 0 <= i < BOUNDS ==>
              AtMost(waits, QUEUE_BOUNDS_US[i]) <= Sum(torn[..i + 1]) <= AtMost(waits + more, QUEUE_BOUNDS_US[i])
    ensures |waits| <= Sum(torn) + overflow <= |waits| + |more|
  {
    forall i | 0 <= i < BOUNDS
      ensures AtMost(waits, QUEUE_BOUNDS_US[i]) <= Sum(torn[..i + 1]) <= AtMost(waits + more, QUEUE_BOUNDS_US[i])
    {
      PrefixMonotone(first, torn, i + 1);
      PrefixMonotone(torn, last, i + 1);
    }
    SumMonotone(first, torn);
    SumMonotone(torn, last);
  }

  lemma PrefixMonotone(s: seq<nat>, t: seq<nat>, n: nat)
    requires n <= |s| == |t| && forall i :: 0 <= i < |s| ==> s[i] <= t[i]
    ensures Sum(s[..n]) <= Sum(t[..n])
  {
    SumMonotone(s[..n], t[..n]);
  }

  /** In every run of the hand-off, recording its waits: count, buckets with overflow, requests served, and the
      slots' own totals with those discarded by resets are one number. */
  lemma CountsServed(s: Lanes.State, run: seq<Lanes.Action>, buckets: seq<nat>, overflow: nat)
    requires Lanes.Reached(s, run) && Tallied(buckets, overflow, s.waits)
    ensures Sum(buckets) + overflow == |s.waits| == s.served == Lanes.SlotServed(s.slots) + s.discarded
    ensures s.enqueued == |s.waits| + Lanes.Queued(s.slots) + s.drained
  {
    Lanes.EveryRun(s, run);
  }
}
