// The doubling back-off between retries, in Go's 64-bit nanoseconds.
module Backoff {
  import opened GoValues

  const SECOND: int := 1_000_000_000

  function Pow2(n: nat): (r: int)
    ensures r >= 1
  {
    if n == 0 then 1 else 2 * Pow2(n - 1)
  }

  // time.Duration(1<<attempt) * time.Second: the shift and the product both wrap
  // to 64 bits.
  function BackoffNs(attempt: nat): (r: int)
    ensures InRange(Int64, r)
  {
    WrapTo(Int64, WrapTo(Int64, Pow2(attempt)) * SECOND)
  }

  // time.Sleep returns at once for a negative duration.
  function Waited(ns: int): nat {
    if ns > 0 then ns else 0
  }

  lemma {:induction false} Pow2Monotone(a: nat, b: nat)
    requires a <= b
    ensures Pow2(a) <= Pow2(b)
    decreases b - a
  {
    if a < b { Pow2Monotone(a, b - 1); }
  }

  lemma Pow2At33()
    ensures Pow2(33) == 0x2_0000_0000 && Pow2(34) == 0x4_0000_0000
  {
    assert Pow2(4) == 16;
    assert Pow2(8) == 0x100;
    assert Pow2(12) == 0x1000;
    assert Pow2(16) == 0x1_0000;
    assert Pow2(20) == 0x10_0000;
    assert Pow2(24) == 0x100_0000;
    assert Pow2(28) == 0x1000_0000;
    assert Pow2(32) == 0x1_0000_0000;
  }

  // The wait is the intended 2^attempt seconds exactly while the exponent is at
  // most 33.
  lemma BackoffExact(attempt: nat)
    ensures BackoffNs(attempt) == Pow2(attempt) * SECOND <==> attempt <= 33
  {
    Pow2At33();
    if attempt <= 33 {
      Pow2Monotone(attempt, 33);
      WrapInRange(Int64, Pow2(attempt));
      WrapInRange(Int64, Pow2(attempt) * SECOND);
    } else {
      Pow2Monotone(34, attempt);
    }
  }

  // Overflow never makes a wait longer than intended.
  lemma BackoffBounded(attempt: nat)
    ensures Waited(BackoffNs(attempt)) <= Pow2(attempt) * SECOND
  {
    BackoffExact(attempt);
    if attempt > 33 {
      Pow2At33();
      Pow2Monotone(34, attempt);
    }
  }

  // The waits of n attempts in a row, the first of them number `from`.
  function BackoffSum(from: nat, n: nat): nat
    decreases n
  {
    if n == 0 then 0 else Waited(BackoffNs(from)) + BackoffSum(from + 1, n - 1)
  }

  lemma {:induction false} BackoffSumFrom(from: nat, n: nat)
    requires from + n <= 34
    ensures BackoffSum(from, n) == (Pow2(from + n) - Pow2(from)) * SECOND
    decreases n
  {
    if n > 0 {
      BackoffExact(from);
      BackoffSumFrom(from + 1, n - 1);
    }
  }

  lemma BackoffSumExact(n: nat)
    requires n <= 34
    ensures BackoffSum(0, n) == (Pow2(n) - 1) * SECOND
  {
    BackoffSumFrom(0, n);
  }
}
