/** The fannkuch programs themselves. C and Go share the generator with lazily reset counters
    and differ in how they reverse a prefix; Python resets its counters eagerly and follows
    the first element through each reversal. */
module Fannkuch {
  import opened Arithmetic
  import opened Permutations

  /** All permutations of 0..n-1 in the order the programs visit them. */
  function Order(n: nat): (all: seq<seq<int>>)
    requires n >= 1
    ensures AllPermutations(all)
    ensures forall q :: q in all <==> IsPermutation(q) && |q| == n
  {
    VisitsEveryPermutationOnce(n);
    Arrangements(Identity(n), n)
  }

  // ---------- Counting flips

  datatype Reversal = HalfSwap | TwoPointer

  /** C: swap positions i and k - i for the first (k + 1) >> 1 values of i. */
  method ReverseHalfSwap(perm: array<int>, k: nat)
    requires 0 < k < perm.Length
    modifies perm
    ensures perm[..] == Flip(old(perm[..]), k)
  {
    var k2 := (k + 1) / 2;
    for i := 0 to k2
      invariant forall j :: 0 <= j < perm.Length ==>
                  perm[j] == old(perm[if j < i || k - i < j <= k then k - j else j])
    {
      var t := perm[i];
      perm[i] := perm[k - i];
      perm[k - i] := t;
    }
  }

  /** Go and Python: two indices walk towards each other. */
  method ReverseTwoPointer(perm: array<int>, k: nat)
    requires 0 < k < perm.Length
    modifies perm
    ensures perm[..] == Flip(old(perm[..]), k)
  {
    var lo, hi := 0, k;
    while lo < hi
      invariant 0 <= lo <= hi + 1 && lo + hi == k
      invariant forall j :: 0 <= j < perm.Length ==>
                  perm[j] == old(perm[if j < lo || hi < j <= k then k - j else j])
    {
      perm[lo], perm[hi] := perm[hi], perm[lo];
      lo, hi := lo + 1, hi - 1;
    }
  }

  method CountFlips(perm: array<int>, reversal: Reversal) returns (flips: nat)
    requires perm.Length > 0 && IsPermutation(perm[..])
    modifies perm
    ensures flips == Flips(old(perm[..]))
  {
    flips := 0;
    var k := perm[0];
    while k != 0
      invariant IsPermutation(perm[..]) && k == perm[0]
      invariant flips + Flips(perm[..]) == Flips(old(perm[..]))
      decreases Pow2(perm.Length) - FixedBits(perm[..], perm.Length)
    {
      HeadInRange(perm[..]);
      FlipIsPermutation(perm[..], k);
      FlipRaisesFixedBits(perm[..], perm.Length);
      FixedBitsBound(Flip(perm[..], k), perm.Length);
      match reversal {
        case HalfSwap => ReverseHalfSwap(perm, k);
        case TwoPointer => ReverseTwoPointer(perm, k);
      }
      flips := flips + 1;
      k := perm[0];
    }
  }

  /** Count the flips of a copy. */
  method Evaluate(perm1: array<int>, perm: array<int>, reversal: Reversal) returns (flips: nat)
    requires perm != perm1 && perm.Length == perm1.Length > 0 && IsPermutation(perm1[..])
    modifies perm
    ensures flips == Flips(perm1[..])
  {
    ghost var p := perm1[..];
    forall i | 0 <= i < perm.Length {
      perm[i] := perm1[i];
    }
    assert perm[..] == p && perm1[..] == p;
    flips := CountFlips(perm, reversal);
  }

  /** Python: the next first element is read before the reversal, from the place it is in. */
  method CountFlipsFollowing(perm: array<int>) returns (flips: nat)
    requires perm.Length > 0 && IsPermutation(perm[..])
    modifies perm
    ensures flips == Flips(old(perm[..]))
  {
    flips := 0;
    var first := perm[0];
    HeadInRange(perm[..]);
    while first != 0
      invariant IsPermutation(perm[..]) && first == perm[0]
      invariant flips + Flips(perm[..]) == Flips(old(perm[..]))
      decreases Pow2(perm.Length) - FixedBits(perm[..], perm.Length)
    {
      ghost var p := perm[..];
      HeadInRange(p);
      FlipIsPermutation(p, first);
      FlipRaisesFixedBits(p, perm.Length);
      FixedBitsBound(Flip(p, first), perm.Length);
      var newFirst := perm[first];
      ReverseTwoPointer(perm, first);
      perm[first] := first;
      assert perm[..] == Flip(p, first);
      first := newFirst;
      flips := flips + 1;
    }
  }

  // ---------- Generating permutations

  method RotatePrefix(perm1: array<int>, r: nat)
    requires 1 <= r < perm1.Length
    modifies perm1
    ensures perm1[..] == Rotate(old(perm1[..]), r + 1)
  {
    var p0 := perm1[0];
    for i := 0 to r
      invariant forall j :: 0 <= j < perm1.Length ==>
                  perm1[j] == old(perm1[if j < i then j + 1 else j])
    {
      perm1[i] := perm1[i + 1];
    }
    perm1[r] := p0;
  }

  ghost predicate Positive(counts: seq<int>) {
    forall i :: 0 <= i < |counts| ==> counts[i] >= 1
  }

  /** Level i has just been rotated and its counter, the first of `counts`, lowered: what is
      left to visit is either all of the level below and more, or what the next level does. */
  ghost predicate Turned(rest: seq<seq<int>>, q: seq<int>, i: nat, counts: seq<int>) {
    && 1 <= i && i + |counts| == |q| && counts != [] && counts[0] >= 0 && Positive(counts[1..])
    && (counts[0] > 0 ==> Positive(counts) && rest == Arrangements(q, i) + After(q, i, counts))
    && (counts[0] == 0 ==> rest == After(q, i + 1, counts[1..]))
  }

  lemma TurnLevel(p: seq<int>, i: nat, counts: seq<int>)
    requires 1 <= i && i + |counts| == |p| && counts != [] && Positive(counts)
    ensures Turned(After(p, i, counts), Rotate(p, i + 1), i, counts[0 := counts[0] - 1])
  {
    assert counts[0 := counts[0] - 1][1..] == counts[1..];
  }

  /** Rotate level i and lower its counter. */
  method TurnAt(perm1: array<int>, count: array<int>, i: nat)
    requires perm1 != count && perm1.Length == count.Length && 1 <= i < count.Length && Positive(count[i..])
    modifies perm1, count
    ensures Turned(After(old(perm1[..]), i, old(count[i..])), perm1[..], i, count[i..])
    ensures forall j :: 0 <= j < count.Length && j != i ==> count[j] == old(count[j])
  {
    ghost var counts := count[i..];
    TurnLevel(perm1[..], i, counts);
    RotatePrefix(perm1, i);
    count[i] := count[i] - 1;
    assert count[i..] == counts[0 := counts[0] - 1];
  }

  /** With the counters below level i fresh, what is left starts with q itself. */
  lemma ReadyAgain(rest: seq<seq<int>>, q: seq<int>, i: nat, counts: seq<int>, all: seq<int>)
    requires Turned(rest, q, i, counts) && counts[0] > 0
    requires |all| == i - 1 + |counts| && all[i - 1..] == counts
    requires forall j :: 0 <= j < i - 1 ==> all[j] == j + 2
    ensures Positive(all) && rest == [q] + After(q, 1, all)
  {
    assert all == Fresh(i) + counts;
    FreshCountersComplete(q, i, counts);
  }

  /** C and Go: rotate and count down, level by level, until a counter is left. */
  method NextLazily(perm1: array<int>, count: array<int>) returns (r: nat, done: bool)
    requires perm1 != count && perm1.Length == count.Length >= 1
    requires Positive(count[1..])
    modifies perm1, count
    ensures 1 <= r <= count.Length && Positive(count[r..])
    ensures done ==> After(old(perm1[..]), 1, old(count[1..])) == []
    ensures !done ==>
              After(old(perm1[..]), 1, old(count[1..])) == Arrangements(perm1[..], r) + After(perm1[..], r, count[r..])
  {
    r := 1;
    while true
      invariant 1 <= r <= count.Length && Positive(count[r..])
      invariant After(old(perm1[..]), 1, old(count[1..])) == After(perm1[..], r, count[r..])
      decreases count.Length - r
    {
      if r == count.Length {
        return r, true;
      }
      TurnAt(perm1, count, r);
      if count[r] > 0 {
        return r, false;
      }
      assert count[r + 1..] == count[r..][1..];
      r := r + 1;
    }
  }

  /** The generator is about to visit p, with `counts` in the counters of levels 1, 2, ... */
  ghost predicate Pending(n: nat, visited: seq<seq<int>>, p: seq<int>, counts: seq<int>) {
    && n >= 1 && |p| == n && 1 + |counts| == n && Positive(counts)
    && visited + ([p] + After(p, 1, counts)) == Order(n)
  }

  /** `checksum` and `maxFlips` are right for the permutations visited so far. */
  ghost predicate Scored(visited: seq<seq<int>>, checksum: int, maxFlips: int) {
    && AllPermutations(visited)
    && checksum == Checksum(visited)
    && maxFlips == MaxFlips(visited)
  }

  lemma StartPending(n: nat)
    requires n >= 1
    ensures Pending(n, [], Identity(n), Fresh(n))
  {
    FreshCountersComplete(Identity(n), n, []);
    assert Fresh(n) + [] == Fresh(n);
    var all := [Identity(n)] + After(Identity(n), 1, Fresh(n));
    assert [] + all == all;
    assert Order(n) == Arrangements(Identity(n), n) + [];
  }

  lemma VisitNext(n: nat, visited: seq<seq<int>>, p: seq<int>, counts: seq<int>)
    requires Pending(n, visited, p, counts)
    ensures IsPermutation(p)
    ensures (visited + [p]) + After(p, 1, counts) == Order(n)
    ensures |visited| < |Order(n)|
  {
    var all, rest := Order(n), After(p, 1, counts);
    assert visited + ([p] + rest) == (visited + [p]) + rest;
    assert all[|visited|] == p && p in all;
  }

  lemma ScoreNext(visited: seq<seq<int>>, p: seq<int>, checksum: int, maxFlips: int)
    requires Scored(visited, checksum, maxFlips) && IsPermutation(p) && p != []
    ensures var f: int := Flips(p);
            Scored(visited + [p], checksum + (if |visited| % 2 == 0 then f else -f), if f > maxFlips then f else maxFlips)
  {
    assert (visited + [p])[..|visited|] == visited;
  }

  lemma PendingAgain(n: nat, visited: seq<seq<int>>, rest: seq<seq<int>>, q: seq<int>, r: nat, counts: seq<int>)
    requires n >= 1 && visited + rest == Order(n)
    requires 1 <= r && |q| == n == r + |counts| && Positive(counts)
    requires rest == Arrangements(q, r) + After(q, r, counts)
    ensures Pending(n, visited, q, Fresh(r) + counts)
  {
    FreshCountersComplete(q, r, counts);
  }

  /** Both numbers of the program's output, tied to the list of all permutations. */
  ghost predicate IsAnswer(n: nat, checksum: int, maxFlips: int)
    requires n >= 1
  {
    && checksum == Checksum(Order(n))
    && maxFlips == MaxFlips(Order(n))
    && (forall q :: IsPermutation(q) && |q| == n ==> Flips(q) <= maxFlips)
    && (exists q :: IsPermutation(q) && |q| == n && Flips(q) == maxFlips)
  }

  lemma AnswerFromOrder(n: nat, visited: seq<seq<int>>, rest: seq<seq<int>>, checksum: int, maxFlips: int)
    requires n >= 1 && Scored(visited, checksum, maxFlips)
    requires visited + rest == Order(n) && rest == []
    ensures IsAnswer(n, checksum, maxFlips)
  {
    var all := Order(n);
    assert visited == all;
    MaxFlipsIsMaximum(all);
    IdentityIsPermutation(n);
    assert Identity(n) in all;
    var i :| 0 <= i < |all| && Flips(all[i]) == MaxFlips(all);
    assert all[i] in all;
    forall q | IsPermutation(q) && |q| == n
      ensures Flips(q) <= MaxFlips(all)
    {
      assert q in all;
    }
  }

  /** One turn of the C and Go loops: reset the counters below level r, score the permutation
      and move to the next. */
  method TurnLazy(n: nat, reversal: Reversal, perm: array<int>, perm1: array<int>, count: array<int>, r: nat,
                  checksum: int, maxFlips: int, permCount: nat, ghost visited: seq<seq<int>>)
    returns (level: nat, done: bool, newChecksum: int, newMaxFlips: int)
    requires perm != perm1 && perm != count && perm1 != count && perm.Length == perm1.Length == count.Length == n
    requires 1 <= r <= n && Pending(n, visited, perm1[..], Fresh(r) + count[r..])
    requires permCount == |visited| && Scored(visited, checksum, maxFlips)
    modifies perm, perm1, count
    ensures 1 <= level <= n
    ensures done ==> IsAnswer(n, newChecksum, newMaxFlips)
    ensures Scored(visited + [old(perm1[..])], newChecksum, newMaxFlips) && |visited| < |Order(n)|
    ensures !done ==> Pending(n, visited + [old(perm1[..])], perm1[..], Fresh(level) + count[level..])
  {
    ResetCounters(count, r);
    ghost var p, rest := perm1[..], After(perm1[..], 1, count[1..]);
    VisitNext(n, visited, p, count[1..]);
    ScoreNext(visited, p, checksum, maxFlips);
    var flips := Evaluate(perm1, perm, reversal);
    newMaxFlips := if flips > maxFlips then flips else maxFlips;
    newChecksum := checksum + if permCount % 2 == 1 then -flips else flips;
    level, done := NextLazily(perm1, count);
    if done {
      AnswerFromOrder(n, visited + [p], rest, newChecksum, newMaxFlips);
    } else {
      PendingAgain(n, visited + [p], rest, perm1[..], level, count[level..]);
    }
  }

  /** benchmarks/c/fannkuch.c with `HalfSwap`, benchmarks/go/fannkuch.go with `TwoPointer`. */
  method FannkuchLazy(n: nat, reversal: Reversal) returns (checksum: int, maxFlips: int)
    requires n >= 1
    ensures IsAnswer(n, checksum, maxFlips)
  {
    var perm, perm1, count := new int[n], new int[n](i => i), new int[n];
    assert perm1[..] == Identity(n);
    maxFlips, checksum := 0, 0;
    var r, permCount := n, 0;
    ghost var visited: seq<seq<int>> := [];
    StartPending(n);
    assert Fresh(n) + count[n..] == Fresh(n);
    while true
      invariant 1 <= r <= n
      invariant Pending(n, visited, perm1[..], Fresh(r) + count[r..])
      invariant permCount == |visited| && Scored(visited, checksum, maxFlips)
      decreases |Order(n)| - |visited|
    {
      ghost var p := perm1[..];
      var done;
      r, done, checksum, maxFlips :=
        TurnLazy(n, reversal, perm, perm1, count, r, checksum, maxFlips, permCount, visited);
      if done {
        return;
      }
      permCount := permCount + 1;
      visited := visited + [p];
    }
  }

  method ResetCounters(count: array<int>, start: nat)
    requires 1 <= start <= count.Length
    modifies count
    ensures count[1..] == Fresh(start) + old(count[start..])
  {
    var r := start;
    while r > 1
      invariant 1 <= r <= start
      invariant forall i :: r <= i < start ==> count[i] == i + 1
      invariant forall i :: start <= i < count.Length ==> count[i] == old(count[i])
    {
      count[r - 1] := r;
      r := r - 1;
    }
  }

  /** Python: the first rotation is a swap, and a counter is reset as soon as it is used up. The
      swap fails when there is no second element. */
  method NextEagerly(perm1: array<int>, count: array<int>) returns (ok: bool, done: bool)
    requires perm1 != count && perm1.Length == count.Length >= 1
    requires Positive(count[1..])
    modifies perm1, count
    ensures ok <==> perm1.Length >= 2
    ensures ok && done ==> After(old(perm1[..]), 1, old(count[1..])) == []
    ensures ok && !done ==>
              && Positive(count[1..])
              && After(old(perm1[..]), 1, old(count[1..])) == [perm1[..]] + After(perm1[..], 1, count[1..])
  {
    var n := count.Length;
    if n <= 1 {
      return false, false;
    }
    ghost var p, counts := perm1[..], count[1..];
    ghost var rest := After(p, 1, counts);
    TurnLevel(p, 1, counts);
    var first := perm1[1];
    perm1[1] := perm1[0];
    perm1[0] := first;
    assert perm1[..] == Rotate(p, 2);
    var i := 1;
    count[i] := count[i] - 1;
    assert count[1..] == counts[0 := counts[0] - 1];
    while count[i] <= 0
      invariant 1 <= i < n && Turned(rest, perm1[..], i, count[i..])
      invariant forall j :: 1 <= j < i ==> count[j] == j + 1
      decreases n - i
    {
      counts := count[i + 1..];
      assert counts == count[i..][1..];
      count[i] := i + 1;
      i := i + 1;
      if i >= n {
        return true, true;
      }
      TurnAt(perm1, count, i);
    }
    ReadyAgain(rest, perm1[..], i, count[i..], count[1..]);
    return true, false;
  }

  /** A permutation that starts with 0 needs no flips and is not evaluated. */
  method ScoreFollowing(perm1: array<int>, perm: array<int>, permCount: nat, checksum: int, maxFlips: int)
    returns (newChecksum: int, newMaxFlips: int)
    requires perm != perm1 && perm.Length == perm1.Length > 0 && IsPermutation(perm1[..]) && maxFlips >= 0
    modifies perm
    ensures var f: int := Flips(perm1[..]);
            && newChecksum == checksum + (if permCount % 2 == 0 then f else -f)
            && newMaxFlips == if f > maxFlips then f else maxFlips
  {
    newChecksum, newMaxFlips := checksum, maxFlips;
    if perm1[0] != 0 {
      ghost var p := perm1[..];
      forall i | 0 <= i < perm.Length {
        perm[i] := perm1[i];
      }
      assert perm[..] == p && perm1[..] == p;
      var flips := CountFlipsFollowing(perm);
      if flips > newMaxFlips {
        newMaxFlips := flips;
      }
      if permCount % 2 == 0 {
        newChecksum := newChecksum + flips;
      } else {
        newChecksum := newChecksum - flips;
      }
    }
  }

  /** One turn of the Python loop: score the permutation and move to the next. */
  method TurnEager(n: nat, perm: array<int>, perm1: array<int>, count: array<int>, checksum: int, maxFlips: int,
                   permCount: nat, ghost visited: seq<seq<int>>)
    returns (ok: bool, done: bool, newChecksum: int, newMaxFlips: int)
    requires perm != perm1 && perm != count && perm1 != count && perm.Length == perm1.Length == count.Length == n >= 1
    requires Pending(n, visited, perm1[..], count[1..]) && permCount == |visited| && Scored(visited, checksum, maxFlips)
    modifies perm, perm1, count
    ensures ok <==> n >= 2
    ensures ok && done ==> IsAnswer(n, newChecksum, newMaxFlips)
    ensures Scored(visited + [old(perm1[..])], newChecksum, newMaxFlips) && |visited| < |Order(n)|
    ensures ok && !done ==> Pending(n, visited + [old(perm1[..])], perm1[..], count[1..])
  {
    ghost var p, rest := perm1[..], After(perm1[..], 1, count[1..]);
    VisitNext(n, visited, p, count[1..]);
    ScoreNext(visited, p, checksum, maxFlips);
    newChecksum, newMaxFlips := ScoreFollowing(perm1, perm, permCount, checksum, maxFlips);
    ok, done := NextEagerly(perm1, count);
    if ok && done {
      AnswerFromOrder(n, visited + [p], rest, newChecksum, newMaxFlips);
    } else if ok {
      PendingNext(n, visited + [p], rest, perm1[..], count[1..]);
    }
  }

  lemma PendingNext(n: nat, visited: seq<seq<int>>, rest: seq<seq<int>>, q: seq<int>, counts: seq<int>)
    requires n >= 1 && |q| == n == 1 + |counts| && Positive(counts)
    requires visited + rest == Order(n) && rest == [q] + After(q, 1, counts)
    ensures Pending(n, visited, q, counts)
  {
  }

  /** benchmarks/python/fannkuch.py. It fails on an index out of range exactly when n < 2. */
  method FannkuchEager(n: int) returns (ok: bool, checksum: int, maxFlips: int)
    ensures ok <==> n >= 2
    ensures ok ==> IsAnswer(n, checksum, maxFlips)
  {
    maxFlips, checksum := 0, 0;
    if n <= 0 {
      return false, checksum, maxFlips;
    }
    var perm, perm1, count := new int[n](i => i), new int[n](i => i), new int[n](i => i + 1);
    assert perm1[..] == Identity(n);
    assert count[1..] == Fresh(n);
    var permCount := 0;
    ghost var visited: seq<seq<int>> := [];
    StartPending(n);
    while true
      invariant Pending(n, visited, perm1[..], count[1..])
      invariant permCount == |visited| && Scored(visited, checksum, maxFlips)
      decreases |Order(n)| - |visited|
    {
      ghost var p := perm1[..];
      var done;
      ok, done, checksum, maxFlips := TurnEager(n, perm, perm1, count, checksum, maxFlips, permCount, visited);
      if !ok || done {
        return;
      }
      permCount := permCount + 1;
      visited := visited + [p];
    }
  }
}
