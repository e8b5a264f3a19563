/** Round-robin scans over a table of `n` places from a rotating usize cursor: lane dispatch and the
    pin slab both walk their table this way. */
module Scan {
  /** Cursors are usizes: the increment and `start + k` both wrap. */
  const WORD: nat := 0x1_0000_0000_0000_0000

  /** The `k`-th slot a scan from cursor value `start` visits. */
  function Probe(start: nat, k: nat, n: nat): nat
    requires n > 0
  {
    ((start + k) % WORD) % n
  }

  ghost predicate Reaches(start: nat, n: nat, i: nat)
    requires n > 0
  {
    exists k :: 0 <= k < n && Probe(start, k, n) == i
  }

  /** The scan from `start` over `n` slots visits every place. */
  ghost predicate Covers(start: nat, n: nat)
    requires n > 0
  {
    forall i :: 0 <= i < n ==> Reaches(start, n, i)
  }

  lemma Multiple(n: int, d: int)
    requires n >= 0
    ensures d >= 1 ==> n * d >= n
    ensures d <= -1 ==> n * d <= -n
  {
  }

  lemma ModIs(x: int, q: int, n: nat, i: nat)
    requires n > 0 && i < n && x == q * n + i
    ensures x % n == i
  {
    var d := x / n - q;
    assert x == n * (x / n) + x % n;
    assert n * d == i - x % n;
    Multiple(n, d);
  }

  /** Adding a multiple of `n`, or reducing one summand, does not change a residue. */
  lemma ModShift(x: nat, y: nat, n: nat)
    requires n > 0
    ensures (x + y) % n == (x % n + y) % n
  {
    var s := x % n + y;
    assert x == n * (x / n) + x % n;
    assert s == n * (s / n) + s % n;
    assert x + y == (x / n + s / n) * n + s % n;
    ModIs(x + y, x / n + s / n, n, s % n);
  }

  lemma ProbeIs(start: nat, k: nat, n: nat)
    requires 0 < n <= WORD && start < WORD && k < n
    ensures Probe(start, k, n) == if start + k < WORD then (start + k) % n else (start + k - WORD) % n
  {
  }

  /** Slot `i` lies `k` places after the start of the cycle. */
  lemma Distance(start: nat, n: nat, i: nat) returns (k: nat)
    requires i < n
    ensures k < n && (start + k) % n == i
  {
    var base := start % n;
    k := if i >= base then i - base else i + n - base;
    ModShift(start, k, n);
    ModIs(base + k, if i >= base then 0 else 1, n, i);
  }

  /** Without a wrap, or when `n` divides the word size, slot `i` is met after its cyclic distance. */
  lemma Visits(start: nat, n: nat, i: nat)
    requires 0 < n <= WORD && start < WORD && i < n
    requires start + n <= WORD || WORD % n == 0
    ensures Reaches(start, n, i)
  {
    var k := Distance(start, n, i);
    ProbeIs(start, k, n);
    if start + k >= WORD {
      ModShift(WORD, start + k - WORD, n);
    }
    assert Probe(start, k, n) == i;
  }

  /** The slot that no scan position reaches when the cursor wraps inside the scan and `n` does not
      divide the word size. */
  function MissedSlot(start: nat, n: nat): nat
    requires 0 < n <= WORD && WORD - n < start < WORD
  {
    var wrap := WORD - start;
    if WORD % n >= n - wrap then WORD % n else n - wrap
  }

  lemma Misses(start: nat, n: nat, k: nat)
    requires 0 < n <= WORD && WORD - n < start < WORD && WORD % n != 0 && k < n
    ensures Probe(start, k, n) != MissedSlot(start, n) && MissedSlot(start, n) < n
  {
    var wrap := WORD - start;
    ProbeIs(start, k, n);
    if k >= wrap {
      ModIs(k - wrap, 0, n, k - wrap);
    } else {
      BelowWord(wrap - k, n);
    }
  }

  /** The residue `back` places below the word size. */
  lemma BelowWord(back: nat, n: nat)
    requires 0 < back < n <= WORD
    ensures (WORD - back) % n == if WORD % n >= back then WORD % n - back else WORD % n + n - back
  {
    var w, q := WORD % n, WORD / n;
    assert WORD == q * n + w;
    if w >= back {
      ModIs(WORD - back, q, n, w - back);
    } else {
      assert (q - 1) * n == q * n - n;
      ModIs(WORD - back, q - 1, n, w + n - back);
    }
  }

  /** A scan visits every place exactly when its positions do not wrap past the word size, or the slot
      count divides it. */
  lemma CoversExactly(start: nat, n: nat)
    requires 0 < n <= WORD && start < WORD
    ensures Covers(start, n) <==> start + n <= WORD || WORD % n == 0
  {
    if start + n <= WORD || WORD % n == 0 {
      forall i: nat | i < n ensures Reaches(start, n, i) {
        Visits(start, n, i);
      }
    } else {
      var missed := MissedSlot(start, n);
      forall k | 0 <= k < n ensures Probe(start, k, n) != missed {
        Misses(start, n, k);
      }
      Misses(start, n, 0);
      assert !Reaches(start, n, missed);
    }
  }

  /** The slots in the order a scan from cursor value `c` meets them. */
  ghost function Cycle(c: nat, n: nat): (order: seq<nat>)
    requires n > 0
    ensures |order| == n
    ensures forall j :: 0 <= j < n ==> order[j] < n
  {
    seq(n, j requires 0 <= j < n => (c + j) % n)
  }

  lemma ModDistinct(c: nat, j: nat, t: nat, n: nat)
    requires j < n && t < n && (c + j) % n == (c + t) % n
    ensures j == t
  {
    var r := (c + j) % n;
    var a, b := (c + j) / n, (c + t) / n;
    assert c + j == n * a + r && c + t == n * b + r;
    assert j - t == n * (a - b);
    Multiple(n, a - b);
  }

  predicate Distinct(order: seq<nat>) {
    forall j, t :: 0 <= j < t < |order| ==> order[j] != order[t]
  }

  /** A cycle meets every slot exactly once. */
  lemma CycleIsPermutation(c: nat, n: nat)
    requires n > 0
    ensures Distinct(Cycle(c, n))
    ensures forall i :: 0 <= i < n ==> i in Cycle(c, n)
  {
    var order := Cycle(c, n);
    forall j: nat, t: nat | j < t < n ensures order[j] != order[t] {
      if (c + j) % n == (c + t) % n { ModDistinct(c, j, t, n); }
    }
    forall i: nat | i < n ensures i in order {
      var k := Distance(c, n, i);
      assert order[k] == i;
    }
  }

  /** Reducing by a multiple of the modulus first does not change a residue. */
  lemma ModOfMultiple(x: nat, word: nat, n: nat)
    requires n > 0 && word > 0 && word % n == 0
    ensures (x % word) % n == x % n
  {
    var y := x % word;
    var a, b := x / word, word / n;
    assert x == word * a + y && word == n * b;
    assert y == n * (y / n) + y % n;
    assert word * a == (b * a) * n;
    ModIs(x, b * a + y / n, n, y % n);
  }

  lemma ModOfWord(x: nat, n: nat)
    requires n > 0 && (x < WORD || WORD % n == 0)
    ensures (x % WORD) % n == x % n
  {
    if x >= WORD {
      ModOfMultiple(x, WORD, n);
    }
  }

  lemma CycleAgain(c: nat, n: nat, q: nat, t: nat)
    requires n > 0
    ensures (c + (q * n + t)) % n == (c + t) % n
  {
    ModShift(c + t, q * n, n);
    ModIs((c + t) % n + q * n, q, n, (c + t) % n);
    assert c + (q * n + t) == c + t + q * n;
  }

  lemma ProbeFirst(start: nat, n: nat)
    requires n > 0 && start < WORD
    ensures Probe(start, 0, n) == start % n
  {
  }

  /** The `q * n + t`-th dispatch after cursor value `c` starts its scan at position `t` of the cycle, unless the
      cursor has wrapped and `n` does not divide the word size. */
  lemma StartsAt(c: nat, n: nat, m: nat, q: nat, t: nat)
    requires t < n && m == q * n + t && (c + m < WORD || WORD % n == 0)
    ensures Probe((c + m) % WORD, 0, n) == Cycle(c, n)[t]
  {
    ProbeFirst((c + m) % WORD, n);
    ModOfWord(c + m, n);
    CycleAgain(c, n, q, t);
  }

  lemma LastMultiple(word: nat, n: nat, k: nat)
    requires n > 0 && k < word % n
    ensures word % n <= word && (word - word % n + k) % n == k
  {
    var w, a := word % n, word / n;
    assert word == n * a + w;
    assert n * a == a * n;
    ModIs(a * n + k, a, n, k);
  }

  /** From the last multiple of `n` on, the cursor counts the slots until it wraps. */
  lemma CountsUp(n: nat, k: nat)
    requires n > 0 && k < WORD % n
    ensures WORD - WORD % n + k < WORD && Probe(WORD - WORD % n + k, 0, n) == k
  {
    LastMultiple(WORD, n, k);
    ProbeFirst(WORD - WORD % n + k, n);
  }

  /** And then begins again. */
  lemma BeginsAgain(n: nat)
    requires n > 0
    ensures (WORD - WORD % n + WORD % n) % WORD == 0 && Probe(0, 0, n) == 0
  {
    ModIs(0, 0, n, 0);
    ProbeFirst(0, n);
  }
}
