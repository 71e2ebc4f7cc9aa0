/** What the fannkuch benchmarks compute, apart from how: prefix flips of a permutation, and
    the order in which the counter-driven generator visits all permutations. */
module Permutations {
  import opened Arithmetic
  import opened Sequences

  /** `p` lists 0, ..., |p| - 1, each once. */
  ghost predicate IsPermutation(p: seq<int>) {
    && (forall i, j :: 0 <= i < j < |p| ==> p[i] != p[j])
    && (forall v :: v in p <==> 0 <= v < |p|)
  }

  function Identity(n: nat): (p: seq<int>)
    ensures |p| == n
  {
    seq(n, i => i)
  }

  lemma IdentityIsPermutation(n: nat)
    ensures IsPermutation(Identity(n))
  {
    forall v | 0 <= v < n
      ensures v in Identity(n)
    {
      assert Identity(n)[v] == v;
    }
  }

  // ---------- Flips

  /** The prefix p[0..k] reversed. */
  function Flip(p: seq<int>, k: nat): (q: seq<int>)
    requires k < |p|
    ensures |q| == |p|
  {
    seq(|p|, i requires 0 <= i < |p| => if i <= k then p[k - i] else p[i])
  }

  function Reverse(s: seq<int>): seq<int> {
    if s == [] then [] else Reverse(s[1..]) + [s[0]]
  }

  /** Turning a concatenation around swaps its parts and turns each around. */
  lemma {:induction false} ReverseConcatenation(a: seq<int>, b: seq<int>)
    ensures Reverse(a + b) == Reverse(b) + Reverse(a)
  {
    if a == [] {
      assert a + b == b && Reverse(b) + [] == Reverse(b);
    } else {
      assert (a + b)[1..] == a[1..] + b;
      ReverseConcatenation(a[1..], b);
      assert Reverse(b) + Reverse(a[1..]) + [a[0]] == Reverse(b) + (Reverse(a[1..]) + [a[0]]);
    }
  }

  lemma {:induction false} ReverseAt(s: seq<int>, i: nat)
    requires i < |s|
    ensures |Reverse(s)| == |s| && Reverse(s)[i] == s[|s| - 1 - i]
  {
    if |s| > 1 {
      ReverseAt(s[1..], if i < |s| - 1 then i else 0);
    }
  }

  /** A flip turns the order of the prefix around and leaves the rest. */
  lemma FlipReverses(p: seq<int>, k: nat)
    requires k < |p|
    ensures Flip(p, k) == Reverse(p[..k + 1]) + p[k + 1..]
  {
    var turned := Reverse(p[..k + 1]);
    ReverseAt(p[..k + 1], 0);
    forall i | 0 <= i < |turned|
      ensures turned[i] == p[k - i]
    {
      ReverseAt(p[..k + 1], i);
    }
  }

  lemma FlipIsPermutation(p: seq<int>, k: nat)
    requires IsPermutation(p) && k < |p|
    ensures IsPermutation(Flip(p, k))
  {
    var q := Flip(p, k);
    forall v | 0 <= v < |p|
      ensures v in q
    {
      assert v in p;
      var i :| 0 <= i < |p| && p[i] == v;
      assert q[if i <= k then k - i else i] == v;
    }
    forall v | v in q
      ensures v in p
    {
      var i :| 0 <= i < |q| && q[i] == v;
      assert v == p[if i <= k then k - i else i];
    }
  }

  /** The binary number whose bit i, for 1 <= i < m, says that p[i] == i. */
  function FixedBits(p: seq<int>, m: nat): nat
    requires m <= |p|
  {
    if m <= 1 then 0
    else FixedBits(p, m - 1) + if p[m - 1] == m - 1 then Pow2(m - 1) else 0
  }

  lemma {:induction false} FixedBitsBound(p: seq<int>, m: nat)
    requires m <= |p|
    ensures FixedBits(p, m) < Pow2(m)
  {
    if m > 1 {
      FixedBitsBound(p, m - 1);
    }
  }

  /** A flip puts p[0] in place and disturbs only lower positions, so the number grows. */
  lemma {:induction false} FlipRaisesFixedBits(p: seq<int>, m: nat)
    requires IsPermutation(p) && p != [] && 0 < p[0] < m <= |p|
    ensures FixedBits(Flip(p, p[0]), m) > FixedBits(p, m)
  {
    var k := p[0];
    if m == k + 1 {
      FixedBitsBound(p, k);
      assert Flip(p, k)[k] == k && p[k] != k;
    } else {
      FlipRaisesFixedBits(p, m - 1);
    }
  }

  lemma HeadInRange(p: seq<int>)
    requires IsPermutation(p) && p != []
    ensures 0 <= p[0] < |p|
  {
    assert p[0] in p;
  }

  /** How many flips bring 0 to the front. That the flipping ends is what `decreases` says. */
  function Flips(p: seq<int>): nat
    requires IsPermutation(p) && p != []
    decreases Pow2(|p|) - FixedBits(p, |p|)
  {
    HeadInRange(p);
    if p[0] == 0 then 0
    else
      FlipIsPermutation(p, p[0]);
      FlipRaisesFixedBits(p, |p|);
      FixedBitsBound(Flip(p, p[0]), |p|);
      1 + Flips(Flip(p, p[0]))
  }

  /** p after k turns of the loop, each of which reverses as many as its first element says. */
  function AfterTurns(p: seq<int>, k: nat): (q: seq<int>)
    requires IsPermutation(p) && p != []
    ensures IsPermutation(q) && |q| == |p|
  {
    if k == 0 then p
    else
      var q := AfterTurns(p, k - 1);
      HeadInRange(q);
      FlipIsPermutation(q, q[0]);
      Flip(q, q[0])
  }

  lemma {:induction false} FirstTurn(p: seq<int>, k: nat)
    requires IsPermutation(p) && p != [] && 0 <= p[0] < |p| && IsPermutation(Flip(p, p[0]))
    ensures AfterTurns(Flip(p, p[0]), k) == AfterTurns(p, k + 1)
  {
    if k > 0 {
      FirstTurn(p, k - 1);
    }
  }

  /** The count is right: after so many turns 0 stands in front, and after fewer it does not. */
  lemma {:induction false} FlipsCountsTurns(p: seq<int>)
    requires IsPermutation(p) && p != []
    ensures AfterTurns(p, Flips(p))[0] == 0
    ensures forall k :: 0 <= k < Flips(p) ==> AfterTurns(p, k)[0] != 0
    decreases Flips(p)
  {
    if p[0] != 0 {
      HeadInRange(p);
      FlipIsPermutation(p, p[0]);
      var q := Flip(p, p[0]);
      FlipsCountsTurns(q);
      FirstTurn(p, Flips(q));
      forall k | 0 <= k < Flips(p)
        ensures AfterTurns(p, k)[0] != 0
      {
        if k > 0 {
          FirstTurn(p, k - 1);
        }
      }
    }
  }

  // ---------- Rotations

  /** The prefix of length m rotated left by j. */
  function Rotated(p: seq<int>, m: nat, j: nat): (q: seq<int>)
    requires j <= m <= |p|
    ensures |q| == |p|
  {
    p[j..m] + p[..j] + p[m..]
  }

  /** The prefix of length m rotated left by one. */
  function Rotate(p: seq<int>, m: nat): (q: seq<int>)
    requires 1 <= m <= |p|
    ensures |q| == |p|
  {
    Rotated(p, m, 1)
  }

  lemma RotateOnce(p: seq<int>, m: nat, j: nat)
    requires j < m <= |p|
    ensures Rotate(Rotated(p, m, j), m) == Rotated(p, m, j + 1)
  {
    var q, next := Rotated(p, m, j), Rotated(p, m, j + 1);
    var r := Rotate(q, m);
    forall k | 0 <= k < |p|
      ensures r[k] == next[k]
    {
      RotatedAt(p, m, j, if k < m - 1 then k + 1 else if k == m - 1 then 0 else k);
      RotatedAt(q, m, 1, k);
      RotatedAt(p, m, j + 1, k);
    }
  }

  lemma RotatedAt(p: seq<int>, m: nat, j: nat, k: nat)
    requires j <= m <= |p| && k < |p|
    ensures Rotated(p, m, j)[k] == if k < m - j then p[k + j] else if k < m then p[k - (m - j)] else p[k]
  {
  }

  lemma RotateKeepsPermutation(p: seq<int>, m: nat)
    requires IsPermutation(p) && 1 <= m <= |p|
    ensures IsPermutation(Rotate(p, m))
  {
    var q := Rotate(p, m);
    forall v | 0 <= v < |p|
      ensures v in q
    {
      assert v in p;
      var i :| 0 <= i < |p| && p[i] == v;
      assert q[if i == 0 then m - 1 else if i < m then i - 1 else i] == v;
    }
    forall v | v in q
      ensures v in p
    {
      var i :| 0 <= i < |q| && q[i] == v;
      assert v == p[if i == m - 1 then 0 else if i < m then i + 1 else i];
    }
  }

  // ---------- The visiting order

  /** The permutations visited while the prefix of length m runs through its arrangements. */
  function Arrangements(p: seq<int>, m: nat): seq<seq<int>>
    requires 1 <= m <= |p|
    decreases m, 0
  {
    if m == 1 then [p] else Cycle(p, m - 1, m)
  }

  /** k times: all arrangements of the first r, then one rotation of the first r + 1. */
  function Cycle(p: seq<int>, r: nat, k: nat): seq<seq<int>>
    requires 1 <= r < |p|
    decreases r, k + 1
  {
    if k == 0 then [] else Arrangements(p, r) + Cycle(Rotate(p, r + 1), r, k - 1)
  }

  function Factorial(n: nat): nat {
    if n == 0 then 1 else n * Factorial(n - 1)
  }

  lemma {:induction false} ArrangementsCount(p: seq<int>, m: nat)
    requires 1 <= m <= |p|
    ensures |Arrangements(p, m)| == Factorial(m)
    decreases m, 0
  {
    if m == 1 {
      assert Factorial(1) == 1 * Factorial(0);
    } else {
      CycleCount(p, m - 1, m);
    }
  }

  lemma {:induction false} CycleCount(p: seq<int>, r: nat, k: nat)
    requires 1 <= r < |p|
    ensures |Cycle(p, r, k)| == k * Factorial(r)
    decreases r, k + 1
  {
    if k > 0 {
      ArrangementsCount(p, r);
      CycleCount(Rotate(p, r + 1), r, k - 1);
      assert (k - 1) * Factorial(r) + Factorial(r) == k * Factorial(r);
    }
  }

  /** Soundness: only permutations that agree with p beyond the prefix are visited. */
  lemma {:induction false} ArrangementsSound(p: seq<int>, m: nat, q: seq<int>)
    requires IsPermutation(p) && 1 <= m <= |p| && q in Arrangements(p, m)
    ensures IsPermutation(q) && |q| == |p| && q[m..] == p[m..]
    decreases m, 0
  {
    if m > 1 {
      CycleSound(p, m - 1, m, q);
    }
  }

  lemma {:induction false} CycleSound(p: seq<int>, r: nat, k: nat, q: seq<int>)
    requires IsPermutation(p) && 1 <= r < |p| && k <= r + 1 && q in Cycle(p, r, k)
    ensures IsPermutation(q) && |q| == |p| && q[r + 1..] == p[r + 1..]
    ensures q[r] == p[r] || exists t :: 0 <= t < k - 1 && q[r] == p[t]
    decreases r, k + 1
  {
    if q in Arrangements(p, r) {
      ArrangementsSound(p, r, q);
      assert q[r] == q[r..][0] == p[r..][0];
      assert q[r + 1..] == q[r..][1..] && p[r + 1..] == p[r..][1..];
    } else {
      var p' := Rotate(p, r + 1);
      RotateKeepsPermutation(p, r + 1);
      CycleSound(p', r, k - 1, q);
      assert p'[r + 1..] == p[r + 1..];
      if q[r] == p'[r] {
        assert q[r] == p[0];
      } else {
        var t :| 0 <= t < k - 2 && q[r] == p'[t];
        assert q[r] == p[t + 1];
      }
    }
  }

  /** Completeness: every such permutation is visited. */
  lemma {:induction false} ArrangementsComplete(p: seq<int>, m: nat, q: seq<int>)
    requires IsPermutation(p) && IsPermutation(q) && |q| == |p| && 1 <= m <= |p|
    requires q[m..] == p[m..]
    ensures q in Arrangements(p, m)
    decreases m, 0
  {
    var v := q[m - 1];
    assert v in q && v in p;
    var t :| 0 <= t < |p| && p[t] == v;
    assert t < m by {
      forall i | m <= i < |p|
        ensures q[i] == p[i]
      {
        assert q[i] == q[m..][i - m] && p[i] == p[m..][i - m];
      }
    }
    if m == 1 {
      assert t == 0;
      assert q == [q[0]] + q[1..] == [p[0]] + p[1..] == p;
    } else {
      CycleComplete(p, m - 1, m, q, t);
    }
  }

  lemma {:induction false} CycleComplete(p: seq<int>, r: nat, k: nat, q: seq<int>, t: nat)
    requires IsPermutation(p) && IsPermutation(q) && |q| == |p| && 1 <= r < |p|
    requires q[r + 1..] == p[r + 1..]
    requires t <= r && p[t] == q[r]
    requires if t == r then k >= 1 else k >= t + 2
    ensures q in Cycle(p, r, k)
    decreases r, k + 1
  {
    if t == r {
      assert q[r..] == [q[r]] + q[r + 1..] && p[r..] == [p[r]] + p[r + 1..];
      ArrangementsComplete(p, r, q);
    } else {
      var p' := Rotate(p, r + 1);
      RotateKeepsPermutation(p, r + 1);
      assert p'[r + 1..] == p[r + 1..];
      CycleComplete(p', r, k - 1, q, if t == 0 then r else t - 1);
    }
  }

  ghost predicate NoRepeats(s: seq<seq<int>>) {
    forall i, j :: 0 <= i < j < |s| ==> s[i] != s[j]
  }

  /** No permutation is visited twice. */
  lemma {:induction false} ArrangementsDistinct(p: seq<int>, m: nat)
    requires IsPermutation(p) && 1 <= m <= |p|
    ensures NoRepeats(Arrangements(p, m))
    decreases m, 0
  {
    if m > 1 {
      CycleDistinct(p, m - 1, m);
    }
  }

  lemma RotatedPositionDiffers(p: seq<int>, r: nat, k: nat, q: seq<int>)
    requires IsPermutation(p) && 1 <= r < |p| && k <= r
    requires q in Cycle(Rotate(p, r + 1), r, k)
    ensures |q| == |p| && q[r] != p[r]
  {
    var p' := Rotate(p, r + 1);
    RotateKeepsPermutation(p, r + 1);
    CycleSound(p', r, k, q);
    if q[r] != p'[r] {
      var t :| 0 <= t < k - 1 && q[r] == p'[t];
      assert p'[t] == p[t + 1];
    }
  }

  lemma {:induction false} CycleDistinct(p: seq<int>, r: nat, k: nat)
    requires IsPermutation(p) && 1 <= r < |p| && k <= r + 1
    ensures NoRepeats(Cycle(p, r, k))
    decreases r, k + 1
  {
    if k > 0 {
      var p' := Rotate(p, r + 1);
      var first, rest := Arrangements(p, r), Cycle(p', r, k - 1);
      RotateKeepsPermutation(p, r + 1);
      ArrangementsDistinct(p, r);
      CycleDistinct(p', r, k - 1);
      forall i, j | 0 <= i < j < |first + rest|
        ensures (first + rest)[i] != (first + rest)[j]
      {
        if i < |first| <= j {
          var q, q' := (first + rest)[i], (first + rest)[j];
          ArrangementsSound(p, r, q);
          assert q[r] == q[r..][0] == p[r..][0] == p[r];
          RotatedPositionDiffers(p, r, k - 1, q');
        }
      }
    }
  }

  /** The visiting order of the benchmark: all n! permutations of 0..n-1, each exactly once. */
  lemma VisitsEveryPermutationOnce(n: nat)
    requires n >= 1
    ensures var all := Arrangements(Identity(n), n);
            && |all| == Factorial(n)
            && NoRepeats(all)
            && forall q :: q in all <==> IsPermutation(q) && |q| == n
  {
    var id := Identity(n);
    IdentityIsPermutation(n);
    ArrangementsCount(id, n);
    ArrangementsDistinct(id, n);
    forall q
      ensures q in Arrangements(id, n) <==> IsPermutation(q) && |q| == n
    {
      if q in Arrangements(id, n) {
        ArrangementsSound(id, n, q);
      }
      if IsPermutation(q) && |q| == n {
        assert q[n..] == id[n..];
        ArrangementsComplete(id, n, q);
      }
    }
  }

  // ---------- Where each permutation comes in the order

  /** The number that these digits stand for: the last counts factorials of their number, the one
      before it factorials of one less, and so on. */
  function Position(digits: seq<nat>): nat {
    if digits == [] then 0
    else Position(digits[..|digits| - 1]) + digits[|digits| - 1] * Factorial(|digits|)
  }

  /** The digit of each level is at most its number. */
  ghost predicate IsDigits(digits: seq<nat>) {
    forall i :: 0 <= i < |digits| ==> digits[i] <= i + 1
  }

  /** The prefixes of p rotated left, each as often as its digit says, the longest first. */
  function RotatedBy(p: seq<int>, digits: seq<nat>): (q: seq<int>)
    requires |digits| < |p| && IsDigits(digits)
    ensures |q| == |p|
    decreases |digits|
  {
    if digits == [] then p
    else
      var m := |digits|;
      RotatedBy(Rotated(p, m + 1, digits[m - 1]), digits[..m - 1])
  }

  /** The permutation at any position of the order, without going through those before it. */
  lemma {:induction false} ArrangementAt(p: seq<int>, digits: seq<nat>)
    requires |digits| < |p| && IsDigits(digits)
    ensures Position(digits) < |Arrangements(p, |digits| + 1)|
    ensures Arrangements(p, |digits| + 1)[Position(digits)] == RotatedBy(p, digits)
    decreases |digits|
  {
    if digits != [] {
      var m, front := |digits|, digits[..|digits| - 1];
      var q := Rotated(p, m + 1, digits[m - 1]);
      ArrangementAt(q, front);
      ArrangementsCount(q, m);
      WholeTurn(p, m + 1);
      CycleAt(p, m, 0, m + 1, digits[m - 1], Position(front));
    }
  }

  lemma {:induction false} CycleAt(p: seq<int>, r: nat, j: nat, k: nat, d: nat, i: nat)
    requires 1 <= r < |p| && d < k && j + k <= r + 1 && i < Factorial(r)
    ensures var cycle, level := Cycle(Rotated(p, r + 1, j), r, k), Arrangements(Rotated(p, r + 1, j + d), r);
            |level| == Factorial(r) && i + d * Factorial(r) < |cycle| && cycle[i + d * Factorial(r)] == level[i]
    decreases d
  {
    var q := Rotated(p, r + 1, j);
    ArrangementsCount(q, r);
    if d > 0 {
      RotateOnce(p, r + 1, j);
      CycleAt(p, r, j + 1, k - 1, d - 1, i);
      OneLess(d, Factorial(r));
      Behind(Arrangements(q, r), Cycle(Rotate(q, r + 1), r, k - 1), i + (d - 1) * Factorial(r));
    }
  }

  lemma OneLess(d: nat, f: nat)
    requires d > 0
    ensures d * f == f + (d - 1) * f
  {
  }

  lemma Behind(a: seq<seq<int>>, b: seq<seq<int>>, i: nat)
    requires i < |b|
    ensures |a| + i < |a + b| && (a + b)[|a| + i] == b[i]
  {
  }

  // ---------- What the counters still have to visit

  /** What is visited after the arrangements of the first r are complete, when the counters of
      levels r, r + 1, ... are `counts`. */
  function After(p: seq<int>, r: nat, counts: seq<int>): seq<seq<int>>
    requires 1 <= r && r + |counts| == |p|
    requires forall i :: 0 <= i < |counts| ==> counts[i] >= 1
    decreases |counts|, if counts == [] then 0 else counts[0]
  {
    if counts == [] then []
    else
      var q := Rotate(p, r + 1);
      if counts[0] > 1 then Arrangements(q, r) + After(q, r, counts[0 := counts[0] - 1])
      else After(q, r + 1, counts[1..])
  }

  /** The counters of levels 1, ..., r - 1 when they start afresh. */
  function Fresh(r: nat): (counts: seq<int>)
    requires r >= 1
    ensures |counts| == r - 1
  {
    seq(r - 1, i => i + 2)
  }

  lemma AfterOne(p: seq<int>, r: nat, k: nat, counts: seq<int>)
    requires 1 <= r && r + 1 + |counts| == |p| && 1 <= k
    requires forall i :: 0 <= i < |counts| ==> counts[i] >= 1
    ensures var q := Rotate(p, r + 1);
            After(p, r, [k] + counts) ==
              if k > 1 then Arrangements(q, r) + After(q, r, [k - 1] + counts) else After(q, r + 1, counts)
  {
    assert ([k] + counts)[1..] == counts;
    assert ([k] + counts)[0 := k - 1] == [k - 1] + counts;
  }

  /** Running down one counter rotates its prefix once per count. */
  lemma {:induction false} CounterRunsDown(p: seq<int>, r: nat, j: nat, k: nat, counts: seq<int>)
    requires 1 <= r && r + 1 + |counts| == |p|
    requires 1 <= k && j + k <= r + 1
    requires forall i :: 0 <= i < |counts| ==> counts[i] >= 1
    ensures After(Rotated(p, r + 1, j), r, [k] + counts)
         == Cycle(Rotated(p, r + 1, j + 1), r, k - 1) + After(Rotated(p, r + 1, j + k), r + 1, counts)
    decreases k
  {
    RotateOnce(p, r + 1, j);
    AfterOne(Rotated(p, r + 1, j), r, k, counts);
    if k > 1 {
      RotateOnce(p, r + 1, j + 1);
      CounterRunsDown(p, r, j + 1, k - 1, counts);
      Associative(Arrangements(Rotated(p, r + 1, j + 1), r),
                  Cycle(Rotated(p, r + 1, j + 2), r, k - 2),
                  After(Rotated(p, r + 1, j + k), r + 1, counts));
    }
  }

  /** Completing level r + 1 restores the prefix it rotated, and leaves the levels above. */
  lemma LevelCompletes(p: seq<int>, r: nat, counts: seq<int>)
    requires 1 <= r && r + 1 + |counts| == |p|
    requires forall i :: 0 <= i < |counts| ==> counts[i] >= 1
    ensures Arrangements(p, r) + After(p, r, [r + 1] + counts)
         == Arrangements(p, r + 1) + After(p, r + 1, counts)
  {
    WholeTurn(p, r + 1);
    CounterRunsDown(p, r, 0, r + 1, counts);
    var level, cycle, rest := Arrangements(p, r), Cycle(Rotate(p, r + 1), r, r), After(p, r + 1, counts);
    assert After(p, r, [r + 1] + counts) == cycle + rest;
    assert Arrangements(p, r + 1) == level + cycle;
    Associative(level, cycle, rest);
  }

  lemma WholeTurn(p: seq<int>, m: nat)
    requires m <= |p|
    ensures Rotated(p, m, 0) == p && Rotated(p, m, m) == p
  {
  }

  /** Visiting p and then letting fresh counters run completes the first r levels. */
  lemma {:induction false} FreshCountersComplete(p: seq<int>, r: nat, counts: seq<int>)
    requires 1 <= r && r + |counts| == |p|
    requires forall i :: 0 <= i < |counts| ==> counts[i] >= 1
    ensures [p] + After(p, 1, Fresh(r) + counts) == Arrangements(p, r) + After(p, r, counts)
    decreases r
  {
    if r == 1 {
      assert Fresh(1) + counts == counts;
    } else {
      FreshCountersComplete(p, r - 1, [r] + counts);
      assert Fresh(r - 1) + ([r] + counts) == Fresh(r) + counts;
      LevelCompletes(p, r - 1, counts);
    }
  }

  // ---------- Results

  ghost predicate AllPermutations(s: seq<seq<int>>) {
    forall i :: 0 <= i < |s| ==> IsPermutation(s[i]) && s[i] != []
  }

  /** The alternating sum of the flip counts, in visiting order. */
  function Checksum(visited: seq<seq<int>>): int
    requires AllPermutations(visited)
  {
    if visited == [] then 0
    else
      var k := |visited| - 1;
      var flips: int := Flips(visited[k]);
      Checksum(visited[..k]) + if k % 2 == 0 then flips else -flips
  }

  /** The flip counts at positions start, start + 2, start + 4, ... */
  function EveryOther(visited: seq<seq<int>>, start: nat): nat
    requires AllPermutations(visited)
    decreases |visited| - start
  {
    if start >= |visited| then 0 else Flips(visited[start]) + EveryOther(visited, start + 2)
  }

  lemma {:induction false} EveryOtherNext(visited: seq<seq<int>>, start: nat)
    requires visited != [] && AllPermutations(visited)
    ensures var k := |visited| - 1;
            EveryOther(visited, start) ==
              EveryOther(visited[..k], start) + if start <= k && start % 2 == k % 2 then Flips(visited[k]) else 0
    decreases |visited| - start
  {
    if start < |visited| {
      EveryOtherNext(visited, start + 2);
    }
  }

  /** The checksum is what the even positions count less what the odd ones do. */
  lemma {:induction false} ChecksumIsDifference(visited: seq<seq<int>>)
    requires AllPermutations(visited)
    ensures Checksum(visited) == EveryOther(visited, 0) - EveryOther(visited, 1)
  {
    if visited != [] {
      ChecksumIsDifference(visited[..|visited| - 1]);
      EveryOtherNext(visited, 0);
      EveryOtherNext(visited, 1);
    }
  }

  function MaxFlips(visited: seq<seq<int>>): nat
    requires AllPermutations(visited)
  {
    if visited == [] then 0
    else
      var k := |visited| - 1;
      var before := MaxFlips(visited[..k]);
      if Flips(visited[k]) > before then Flips(visited[k]) else before
  }

  lemma {:induction false} MaxFlipsIsMaximum(visited: seq<seq<int>>)
    requires AllPermutations(visited)
    ensures forall i :: 0 <= i < |visited| ==> Flips(visited[i]) <= MaxFlips(visited)
    ensures visited != [] ==> exists i :: 0 <= i < |visited| && Flips(visited[i]) == MaxFlips(visited)
  {
    if visited != [] {
      var k := |visited| - 1;
      var front := visited[..k];
      MaxFlipsIsMaximum(front);
      if Flips(visited[k]) <= MaxFlips(front) && front != [] {
        var i :| 0 <= i < |front| && Flips(front[i]) == MaxFlips(front);
        assert visited[i] == front[i];
      }
      forall i | 0 <= i < |visited|
        ensures Flips(visited[i]) <= MaxFlips(visited)
      {
        if i < k {
          assert front[i] == visited[i];
        }
      }
    }
  }
}
