/** Replica choice: a wrapping 64-bit counter taken modulo the number of replicas (src/pool.rs:442-446). */
module RoundRobin {

  const WRAP := 0x1_0000_0000_0000_0000

  /** The counter's value at the `i`-th pick after it stood at `start`. */
  function CounterAt(start: nat, i: nat): (x: nat)
    ensures x < WRAP
  {
    (start + i) % WRAP
  }

  class ReplicaRing {
    const replicas: seq<string>
    var next: nat

    ghost predicate Valid()
      reads this
    {
      replicas != [] && next < WRAP
    }

    /** `fetch_add(1)` on an `AtomicUsize` returns the old value and wraps. */
    method NextReplica() returns (ghost index: nat, replica: string)
      requires Valid()
      modifies this
      ensures Valid() && next == CounterAt(old(next), 1)
      ensures index == old(next) % |replicas| && replica == replicas[index]
    {
      var i := next % |replicas|;
      next := (next + 1) % WRAP;
      index, replica := i, replicas[i];
    }
  }

  /** Picks compose: one pick after `i` picks leaves the counter where `i + 1` picks do. */
  lemma CounterStep(start: nat, i: nat)
    ensures CounterAt(CounterAt(start, i), 1) == CounterAt(start, i + 1)
  {
    var q, x := (start + i) / WRAP, CounterAt(start, i);
    assert start + i == q * WRAP + x;
    assert (start + i + 1) % WRAP == (q * WRAP + (x + 1)) % WRAP;
  }

  /** How often position `p` of `n` is picked in `count` picks starting at `start`. */
  function Chosen(start: nat, count: nat, n: nat, p: nat): nat
    requires n > 0
  {
    if count == 0 then 0
    else Chosen(start, count - 1, n, p) + if CounterAt(start, count - 1) % n == p then 1 else 0
  }

  /** The same count over the plain integers `lo..hi`. */
  function Residues(lo: nat, hi: nat, n: nat, p: nat): nat
    requires n > 0 && lo <= hi
    decreases hi - lo
  {
    if lo == hi then 0 else Residues(lo, hi - 1, n, p) + if (hi - 1) % n == p then 1 else 0
  }

  lemma {:induction false} ResiduesSplit(lo: nat, mid: nat, hi: nat, n: nat, p: nat)
    requires n > 0 && lo <= mid <= hi
    ensures Residues(lo, hi, n, p) == Residues(lo, mid, n, p) + Residues(mid, hi, n, p)
    decreases hi - mid
  {
    if mid < hi {
      ResiduesSplit(lo, mid, hi - 1, n, p);
    }
  }

  lemma {:induction false} FirstCycle(k: nat, n: nat, p: nat)
    requires 0 < n && k <= n && p < n
    ensures Residues(0, k, n, p) == if p < k then 1 else 0
  {
    if k > 0 {
      FirstCycle(k - 1, n, p);
      Unique(k - 1, n, 0, k - 1);
    }
  }

  /** Any `n` consecutive integers hit every residue once. */
  lemma {:induction false} Cycle(lo: nat, n: nat, p: nat)
    requires 0 < n && p < n
    ensures Residues(lo, lo + n, n, p) == 1
    decreases lo
  {
    if lo == 0 {
      FirstCycle(n, n, p);
    } else {
      Cycle(lo - 1, n, p);
      ResiduesSplit(lo - 1, lo, lo - 1 + n, n, p);
      ResiduesSplit(lo, lo - 1 + n, lo + n, n, p);
      SameResidue(lo - 1, n);
    }
  }

  lemma SameResidue(x: nat, n: nat)
    requires n > 0
    ensures (x + n) % n == x % n
  {
    var q, r := x / n, x % n;
    assert x == q * n + r;
    assert x + n == (q + 1) * n + r;
    Unique(x + n, n, q + 1, r);
  }

  lemma MulMono(a: nat, b: nat, n: nat)
    requires a <= b
    ensures a * n <= b * n
  {
    assert b * n == a * n + (b - a) * n;
  }

  lemma Unique(x: nat, n: nat, q: nat, r: nat)
    requires n > 0 && r < n && x == q * n + r
    ensures x % n == r
  {
    var q', r' := x / n, x % n;
    assert x == q' * n + r';
    if q' > q {
      MulMono(q + 1, q', n);
      assert false;
    } else if q' < q {
      MulMono(q' + 1, q, n);
      assert false;
    }
  }

  /** Every residue is hit `(hi - lo) / n` times or once more. */
  lemma {:induction false} Even(lo: nat, hi: nat, n: nat, p: nat, q: nat)
    requires 0 < n && p < n && lo <= hi
    ensures -1 <= Residues(lo, hi, n, p) - Residues(lo, hi, n, if q < n then q else 0) <= 1
    decreases hi - lo
  {
    var q0 := if q < n then q else 0;
    if hi - lo >= n {
      Even(lo + n, hi, n, p, q);
      Cycle(lo, n, p);
      Cycle(lo, n, q0);
      ResiduesSplit(lo, lo + n, hi, n, p);
      ResiduesSplit(lo, lo + n, hi, n, q0);
    } else {
      Cycle(lo, n, p);
      Cycle(lo, n, q0);
      ResiduesSplit(lo, hi, lo + n, n, p);
      ResiduesSplit(lo, hi, lo + n, n, q0);
    }
  }

  lemma CounterBelow(start: nat, i: nat)
    requires start + i < WRAP
    ensures CounterAt(start, i) == start + i
  {
  }

  lemma CounterBeyond(start: nat, i: nat)
    requires WRAP <= start + i < 2 * WRAP
    ensures CounterAt(start, i) == start + i - WRAP
  {
  }

  lemma {:induction false} ChosenBeforeWrap(start: nat, count: nat, n: nat, p: nat)
    requires n > 0 && start + count <= WRAP
    ensures Chosen(start, count, n, p) == Residues(start, start + count, n, p)
    decreases count
  {
    if count > 0 {
      ChosenBeforeWrap(start, count - 1, n, p);
      CounterBelow(start, count - 1);
    }
  }

  lemma {:induction false} ChosenAcrossWrap(start: nat, count: nat, n: nat, p: nat)
    requires n > 0 && start < WRAP <= start + count < 2 * WRAP
    ensures Chosen(start, count, n, p) == Residues(start, WRAP, n, p) + Residues(0, start + count - WRAP, n, p)
    decreases count
  {
    if start + count == WRAP {
      ChosenBeforeWrap(start, count, n, p);
    } else {
      ChosenAcrossWrap(start, count - 1, n, p);
      CounterBeyond(start, count - 1);
    }
  }

  /** How often `p` is among some picks. */
  function Tally(picks: seq<nat>, p: nat): nat {
    if picks == [] then 0 else Tally(picks[..|picks| - 1], p) + if picks[|picks| - 1] == p then 1 else 0
  }

  lemma {:induction false} TallyIsChosen(picks: seq<nat>, start: nat, n: nat, p: nat)
    requires n > 0 && forall i :: 0 <= i < |picks| ==> picks[i] == CounterAt(start, i) % n
    ensures Tally(picks, p) == Chosen(start, |picks|, n, p)
  {
    if picks != [] {
      TallyIsChosen(picks[..|picks| - 1], start, n, p);
    }
  }

  /** `count` calls of `next_replica` in a row. The positions picked follow the counter, and any two of them differ in
      how often they were picked by at most 2, or 1 if the counter did not wrap. */
  method PickMany(ring: ReplicaRing, count: nat) returns (replicas: seq<string>, ghost picks: seq<nat>)
    requires ring.Valid() && count < WRAP
    modifies ring
    ensures ring.Valid() && ring.next == CounterAt(old(ring.next), count)
    ensures |replicas| == |picks| == count
    ensures forall i :: 0 <= i < count ==> picks[i] < |ring.replicas| && replicas[i] == ring.replicas[picks[i]]
    ensures forall p :: 0 <= p < |ring.replicas| ==> Tally(picks, p) == Chosen(old(ring.next), count, |ring.replicas|, p)
    ensures forall p, q :: 0 <= p < |ring.replicas| && 0 <= q < |ring.replicas| ==>
              Tally(picks, p) - Tally(picks, q) <= if old(ring.next) + count <= WRAP then 1 else 2
  {
    ghost var start, n := ring.next, |ring.replicas|;
    replicas, picks := [], [];
    assert CounterAt(start, 0) == start;
    for i := 0 to count
      invariant ring.Valid() && ring.next == CounterAt(start, i) && |replicas| == |picks| == i
      invariant forall j :: 0 <= j < i ==> picks[j] == CounterAt(start, j) % n && picks[j] < n
      invariant forall j :: 0 <= j < i ==> replicas[j] == ring.replicas[picks[j]]
    {
      CounterStep(start, i);
      ghost var index: nat;
      var replica: string;
      index, replica := ring.NextReplica();
      replicas, picks := replicas + [replica], picks + [index];
    }
    forall p | 0 <= p < n
      ensures Tally(picks, p) == Chosen(start, count, n, p)
    {
      TallyIsChosen(picks, start, n, p);
    }
    forall p, q | 0 <= p < n && 0 <= q < n
      ensures Tally(picks, p) - Tally(picks, q) <= if start + count <= WRAP then 1 else 2
    {
      Balance(start, count, n, p, q);
    }
  }

  /** Round-robin balance over any window of fewer than 2^64 picks: two positions differ by at most 1 if the
      counter does not wrap inside the window, or if the number of replicas divides 2^64; and by
      at most 2 in any case. */
  lemma Balance(start: nat, count: nat, n: nat, p: nat, q: nat)
    requires start < WRAP && count < WRAP && p < n && q < n
    ensures start + count <= WRAP ==> -1 <= Chosen(start, count, n, p) - Chosen(start, count, n, q) <= 1
    ensures WRAP % n == 0 ==> -1 <= Chosen(start, count, n, p) - Chosen(start, count, n, q) <= 1
    ensures -2 <= Chosen(start, count, n, p) - Chosen(start, count, n, q) <= 2
  {
    if start + count <= WRAP {
      ChosenBeforeWrap(start, count, n, p);
      ChosenBeforeWrap(start, count, n, q);
      Even(start, start + count, n, p, q);
    } else {
      var over := start + count - WRAP;
      ChosenAcrossWrap(start, count, n, p);
      ChosenAcrossWrap(start, count, n, q);
      Even(start, WRAP, n, p, q);
      Even(0, over, n, p, q);
      if WRAP % n == 0 {
        Unwrapped(start, over, n, p);
        Unwrapped(start, over, n, q);
        Even(start, WRAP + over, n, p, q);
      }
    }
  }

  /** When the number of replicas divides 2^64 the wrap is invisible. */
  lemma Unwrapped(start: nat, over: nat, n: nat, p: nat)
    requires n > 0 && start <= WRAP && WRAP % n == 0
    ensures Residues(start, WRAP, n, p) + Residues(0, over, n, p) == Residues(start, WRAP + over, n, p)
  {
    assert WRAP == (WRAP / n) * n;
    Shift(WRAP / n, WRAP, over, n, p);
    ResiduesSplit(start, WRAP, WRAP + over, n, p);
  }

  lemma ShiftMod(w: nat, n: nat, x: nat)
    requires n > 0
    ensures (w * n + x) % n == x % n
  {
    var d, r := x / n, x % n;
    assert x == d * n + r;
    Distribute(w, d, n);
    Unique(w * n + x, n, w + d, r);
  }

  lemma Distribute(a: nat, b: nat, n: nat)
    ensures (a + b) * n == a * n + b * n
  {
  }

  lemma {:induction false} Shift(w: nat, base: nat, k: nat, n: nat, p: nat)
    requires n > 0 && base == w * n
    ensures Residues(0, k, n, p) == Residues(base, base + k, n, p)
    decreases k
  {
    if k > 0 {
      Shift(w, base, k - 1, n, p);
      ShiftMod(w, n, k - 1);
    }
  }

  /** The bound of 2 is reached: three replicas, two picks across the wrap, both the first replica. */
  lemma WrapCanRepeatAReplica()
    ensures Chosen(WRAP - 1, 2, 3, 0) - Chosen(WRAP - 1, 2, 3, 1) == 2
  {
    assert CounterAt(WRAP - 1, 0) % 3 == 0 && CounterAt(WRAP - 1, 1) % 3 == 0;
    assert Chosen(WRAP - 1, 1, 3, 0) == 1 && Chosen(WRAP - 1, 1, 3, 1) == 0;
  }
}
