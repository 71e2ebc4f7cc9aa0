/** The CPU-bound work function that the threaded benchmarks share. */
module HeavyWork {
  import opened Arithmetic

  newtype int64 = x: int | -0x8000_0000_0000_0000 <= x < 0x8000_0000_0000_0000

  const INT_MAX: int := 0x7FFF_FFFF

  /** The accumulator after the first `i` rounds. */
  function Accumulator(seed: nat, i: nat): (acc: nat)
    ensures i > 0 ==> acc < 2147483647
  {
    if i == 0 then seed + 1
    else (Accumulator(seed, i - 1) * 1103515245 + 12345 + (i - 1) + seed) % 2147483647
  }

  function Work(seed: nat, rounds: nat): (r: nat)
    ensures r < 1000003
  {
    Accumulator(seed, rounds) % 1000003
  }

  // ---------- Closed form

  const MODULUS: nat := 2147483647
  const MULTIPLIER: nat := 1103515245

  function Power(b: nat, n: nat): nat {
    if n == 0 then 1 else b * Power(b, n - 1)
  }

  /** What the first k of n rounds add, each multiplied through the rounds after it. */
  function Added(seed: nat, n: nat, k: nat): nat
    requires k <= n
  {
    if k == 0 then 0
    else Added(seed, n, k - 1) + Power(MULTIPLIER, n - k) * (12345 + (k - 1) + seed)
  }

  /** The accumulator of n rounds without reducing in between. */
  function Unreduced(seed: nat, n: nat): nat {
    (seed + 1) * Power(MULTIPLIER, n) + Added(seed, n, n)
  }

  lemma {:induction false} OneMoreRound(seed: nat, n: nat, k: nat)
    requires k <= n
    ensures Added(seed, n + 1, k) == MULTIPLIER * Added(seed, n, k)
  {
    if k > 0 {
      OneMoreRound(seed, n, k - 1);
      var p, d := Power(MULTIPLIER, n - k), 12345 + (k - 1) + seed;
      assert Power(MULTIPLIER, n + 1 - k) == MULTIPLIER * p;
      assert MULTIPLIER * p * d == MULTIPLIER * (p * d);
    }
  }

  lemma UnreducedNext(seed: nat, n: nat)
    ensures Unreduced(seed, n + 1) == Unreduced(seed, n) * MULTIPLIER + 12345 + n + seed
  {
    OneMoreRound(seed, n, n);
    assert Power(MULTIPLIER, 0) == 1;
    assert (seed + 1) * (MULTIPLIER * Power(MULTIPLIER, n)) == MULTIPLIER * ((seed + 1) * Power(MULTIPLIER, n));
  }

  lemma RemainderIsUnique(x: nat, q: nat, rest: nat, m: nat)
    requires rest < m && x == q * m + rest
    ensures x % m == rest
  {
    var k := x / m;
    assert x == k * m + x % m;
    if k < q {
      ProductGap(k, q, m);
    } else if q < k {
      ProductGap(q, k, m);
    }
  }

  lemma Regrouped(q: nat, low: nat, a: nat, b: nat, k: nat, rest: nat, m: nat)
    requires low * a + b == k * m + rest
    ensures (q * m + low) * a + b == (q * a + k) * m + rest
  {
    assert (q * m + low) * a == q * m * a + low * a;
    assert q * m * a == q * a * m;
    assert (q * a + k) * m == q * a * m + k * m;
  }

  /** Reducing before a step does not change its residue. */
  lemma ReducedStep(x: nat, a: nat, b: nat, m: nat)
    requires m > 0
    ensures (x % m * a + b) % m == (x * a + b) % m
  {
    Reduced(x, x / m, x % m, a, b, m);
  }

  lemma Reduced(x: nat, q: nat, low: nat, a: nat, b: nat, m: nat)
    requires m > 0 && x == q * m + low
    ensures (low * a + b) % m == (x * a + b) % m
  {
    var y := low * a + b;
    Regrouped(q, low, a, b, y / m, y % m, m);
    RemainderIsUnique(x * a + b, q * a + y / m, y % m, m);
  }

  lemma SameStep(x: nat, y: nat, a: nat, b: nat, m: nat)
    requires m > 0 && x % m == y % m
    ensures (x * a + b) % m == (y * a + b) % m
  {
    ReducedStep(x, a, b, m);
    ReducedStep(y, a, b, m);
  }

  /** Reducing in every round gives the residue of the unreduced sum. */
  lemma {:induction false} AccumulatorClosedForm(seed: nat, n: nat)
    ensures Accumulator(seed, n) % MODULUS == Unreduced(seed, n) % MODULUS
  {
    if n == 0 {
      assert Power(MULTIPLIER, 0) == 1;
    } else {
      AccumulatorClosedForm(seed, n - 1);
      UnreducedNext(seed, n - 1);
      var before, b := Accumulator(seed, n - 1), 12345 + (n - 1) + seed;
      SameStep(before, Unreduced(seed, n - 1), MULTIPLIER, b, MODULUS);
      assert Accumulator(seed, n) == (before * MULTIPLIER + b) % MODULUS;
      RemainderIsUnique(Accumulator(seed, n), 0, Accumulator(seed, n), MODULUS);
    }
  }

  /** The result in closed form. Without a round the seed is not reduced at all. */
  lemma WorkClosedForm(seed: nat, rounds: nat)
    ensures Work(seed, rounds) ==
              (if rounds == 0 then seed + 1 else Unreduced(seed, rounds) % MODULUS) % 1000003
  {
    AccumulatorClosedForm(seed, rounds);
  }

  // ---------- The loop

  /** The sum of the first `items` results, in order: what one thread alone would compute. */
  function SequentialSum(items: nat, rounds: nat): nat {
    if items == 0 then 0 else SequentialSum(items - 1, rounds) + Work(items - 1, rounds)
  }

  /** The loop in 64-bit arithmetic. That every intermediate product fits in an `int64`
      is an obligation of the type, for every seed and round count that fit in an `int`. */
  method Compute(seed: int64, rounds: int64) returns (r: int64)
    requires 0 <= seed as int <= INT_MAX && 0 <= rounds as int <= INT_MAX
    ensures 0 <= r < 1000003
    ensures r as int == Work(seed as int, rounds as int)
  {
    var acc := seed + 1;
    var i: int64 := 0;
    while i < rounds
      invariant 0 <= i <= rounds
      invariant 0 <= acc as int <= INT_MAX + 1
      invariant acc as int == Accumulator(seed as int, i as int)
    {
      acc := (acc * 1103515245 + 12345 + i + seed) % 2147483647;
      i := i + 1;
    }
    r := acc % 1000003;
  }
}
