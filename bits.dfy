/**
 * Python's non-negative integers, as the bitboard engine uses them.
 *
 * A bitboard is an unbounded non-negative integer; it is represented here by
 * the set of positions of its 1 bits.  The Python operators used on bitboards
 * then read as follows:
 *   a & b        a * b                 (intersection)
 *   a | b        a + b                 (union)
 *   a ^ b        Xor(a, b)             (symmetric difference)
 *   a >> k       Shr(a, k)
 *   1 << k       {k}
 *   a + (1 << k) AddPow2(a, k)         (binary addition with carry)
 *   bool(a)      a != {}
 * Value maps a set back to the integer it stands for, so that the carry
 * can be checked against ordinary addition.
 */
module BitSets {

  type Bits = set<nat>

  function Pow2(k: nat): (r: nat)
    ensures r >= 1
  {
    if k == 0 then 1 else 2 * Pow2(k - 1)
  }

  /** a >> k: bit i of the result is bit i + k of a. */
  function Shr(a: Bits, k: nat): Bits
  {
    set i | i in a && i >= k :: i - k
  }

  lemma ShrMember(a: Bits, k: nat, i: nat)
    ensures i in Shr(a, k) <==> i + k in a
  {
    if i + k in a {
      var j := i + k;
      assert j in a && j >= k && j - k == i;
    }
  }

  /** a ^ b */
  function Xor(a: Bits, b: Bits): Bits
  {
    (a - b) + (b - a)
  }

  /** a + (1 << k): set bit k, or clear it and carry into bit k + 1. */
  function AddPow2(a: Bits, k: nat): Bits
    decreases |a|
  {
    if k !in a then a + {k} else AddPow2(a - {k}, k + 1)
  }

  /** The sum of 2^i over the members of a that are below n. */
  ghost function ValueBelow(a: Bits, n: nat): nat
  {
    if n == 0 then 0 else ValueBelow(a, n - 1) + (if n - 1 in a then Pow2(n - 1) else 0)
  }

  /** A number above every member of a (a is finite). */
  ghost function Bound(a: Bits): (n: nat)
    ensures forall i :: i in a ==> i < n
    decreases |a|
  {
    if a == {} then 0
    else
      var x :| x in a;
      var m := Bound(a - {x});
      assert forall i :: i in a ==> i == x || i in a - {x};
      if x + 1 > m then x + 1 else m
  }

  /** The integer whose 1 bits are exactly the members of a. */
  ghost function Value(a: Bits): nat
  {
    ValueBelow(a, Bound(a))
  }

  lemma {:induction false} ValueBelowStable(a: Bits, n: nat, m: nat)
    requires n <= m
    requires forall i :: i in a ==> i < n
    ensures ValueBelow(a, m) == ValueBelow(a, n)
    decreases m - n
  {
    if n < m {
      ValueBelowStable(a, n, m - 1);
    }
  }

  /** Any bound above the members of a gives the same value. */
  lemma ValueAt(a: Bits, n: nat)
    requires forall i :: i in a ==> i < n
    ensures Value(a) == ValueBelow(a, n)
  {
    var b := Bound(a);
    if n <= b {
      ValueBelowStable(a, n, b);
    } else {
      ValueBelowStable(a, b, n);
    }
  }

  lemma {:induction false} ValueBelowInsert(a: Bits, k: nat, n: nat)
    requires k !in a
    ensures ValueBelow(a + {k}, n) == ValueBelow(a, n) + (if k < n then Pow2(k) else 0)
  {
    if n > 0 {
      ValueBelowInsert(a, k, n - 1);
    }
  }

  /** Setting a clear bit k adds 2^k. */
  lemma ValueInsert(a: Bits, k: nat)
    requires k !in a
    ensures Value(a + {k}) == Value(a) + Pow2(k)
  {
    var n := Bound(a) + k + 1;
    ValueAt(a, n);
    ValueAt(a + {k}, n);
    ValueBelowInsert(a, k, n);
  }

  /** The carry loop AddPow2 really is addition of 2^k. */
  lemma {:induction false} AddPow2Value(a: Bits, k: nat)
    ensures Value(AddPow2(a, k)) == Value(a) + Pow2(k)
    decreases |a|
  {
    if k !in a {
      ValueInsert(a, k);
    } else {
      AddPow2Value(a - {k}, k + 1);
      ValueInsert(a - {k}, k);
      assert a - {k} + {k} == a;
    }
  }

  /** The run of positions base + j, ..., base + h - 1. */
  function Run(base: nat, j: nat, h: nat): Bits
    decreases h - j
  {
    if j >= h then {} else {base + j} + Run(base, j + 1, h)
  }

  lemma {:induction false} RunBelow(base: nat, j: nat, h: nat, x: nat)
    requires x < base + j
    ensures x !in Run(base, j, h)
    decreases h - j
  {
    if j < h {
      RunBelow(base, j + 1, h, x);
    }
  }

  lemma {:induction false} RunMember(base: nat, j: nat, h: nat, x: nat)
    ensures x in Run(base, j, h) <==> base + j <= x < base + h
    decreases h - j
  {
    if j < h {
      RunMember(base, j + 1, h, x);
    }
  }

  /**
   * Adding 2^(base + j) to a number whose bits base + j .. base + h - 1 are
   * set and whose bit base + h is clear clears the run and sets bit base + h.
   */
  lemma {:induction false} CarryRun(a: Bits, base: nat, j: nat, h: nat)
    requires j <= h
    requires Run(base, j, h) <= a
    requires base + h !in a
    ensures AddPow2(a, base + j) == (a - Run(base, j, h)) + {base + h}
    decreases h - j
  {
    if j < h {
      assert base + j !in Run(base, j + 1, h) by {
        RunBelow(base, j + 1, h, base + j);
      }
      CarryRun(a - {base + j}, base, j + 1, h);
    }
  }
}
