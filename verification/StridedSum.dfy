/** benchmarks/c/threaded_cpu_map.c: worker w takes the indices w, w + workers, w + 2 * workers,
    ..., and the main thread adds up what the workers found. */
module StridedSum {
  import Arithmetic
  import HeavyWork

  /** The sum of the work of worker w among the first n indices. */
  function Share(w: nat, workers: nat, n: nat, rounds: nat): nat
    requires workers >= 1
  {
    if n == 0 then 0
    else Share(w, workers, n - 1, rounds) + if (n - 1) % workers == w then HeavyWork.Work(n - 1, rounds) else 0
  }

  function SumOfShares(k: nat, workers: nat, n: nat, rounds: nat): nat
    requires workers >= 1
  {
    if k == 0 then 0 else SumOfShares(k - 1, workers, n, rounds) + Share(k - 1, workers, n, rounds)
  }

  /** One more index is taken by exactly one worker. */
  lemma {:induction false} NextIndex(k: nat, workers: nat, n: nat, rounds: nat)
    requires workers >= 1
    ensures SumOfShares(k, workers, n + 1, rounds)
         == SumOfShares(k, workers, n, rounds) + if n % workers < k then HeavyWork.Work(n, rounds) else 0
  {
    if k > 0 {
      NextIndex(k - 1, workers, n, rounds);
    }
  }

  lemma {:induction false} NoIndices(k: nat, workers: nat, rounds: nat)
    requires workers >= 1
    ensures SumOfShares(k, workers, 0, rounds) == 0
  {
    if k > 0 {
      NoIndices(k - 1, workers, rounds);
    }
  }

  /** However many workers there are, their sums add up to the sequential one. */
  lemma {:induction false} SharesAddUp(workers: nat, items: nat, rounds: nat)
    requires workers >= 1
    ensures SumOfShares(workers, workers, items, rounds) == HeavyWork.SequentialSum(items, rounds)
  {
    if items == 0 {
      NoIndices(workers, workers, rounds);
    } else {
      SharesAddUp(workers, items - 1, rounds);
      NextIndex(workers, workers, items - 1, rounds);
    }
  }

  lemma {:induction false} SkippedIndices(w: nat, workers: nat, lo: nat, hi: nat, rounds: nat)
    requires workers >= 1 && lo <= hi
    requires forall i :: lo <= i < hi ==> i % workers != w
    ensures Share(w, workers, hi, rounds) == Share(w, workers, lo, rounds)
    decreases hi
  {
    if lo < hi {
      SkippedIndices(w, workers, lo, hi - 1, rounds);
    }
  }

  lemma StrideResidues(w: nat, workers: nat, i: nat, d: nat)
    requires w < workers && i % workers == w && d < workers
    ensures (i + d) % workers == w <==> d == 0
    ensures (i + workers) % workers == w
  {
    var q := i / workers;
    assert i == q * workers + w;
    if w + d < workers {
      Residue(q, workers, w + d);
    } else {
      assert i + d == (q + 1) * workers + (w + d - workers);
      Residue(q + 1, workers, w + d - workers);
    }
    assert i + workers == (q + 1) * workers + w;
    Residue(q + 1, workers, w);
  }

  /** Division with remainder is unique. */
  lemma Residue(q: nat, workers: nat, r: nat)
    requires r < workers
    ensures (q * workers + r) % workers == r
  {
    var x := q * workers + r;
    var p, s := x / workers, x % workers;
    assert x == p * workers + s;
    if p < q {
      Arithmetic.ProductGap(p, q, workers);
      assert false;
    } else if q < p {
      Arithmetic.ProductGap(q, p, workers);
      assert false;
    }
  }

  /** One pass of a stride: nothing between two of a worker's indices is its own. */
  lemma StrideStep(w: nat, workers: nat, i: nat, hi: nat, rounds: nat)
    requires w < workers && i % workers == w && i < hi <= i + workers
    ensures Share(w, workers, hi, rounds) == Share(w, workers, i, rounds) + HeavyWork.Work(i, rounds)
  {
    forall k | i + 1 <= k < hi
      ensures k % workers != w
    {
      StrideResidues(w, workers, i, k - i);
    }
    SkippedIndices(w, workers, i + 1, hi, rounds);
  }

  lemma StartOfStride(w: nat, workers: nat, hi: nat, rounds: nat)
    requires w < workers && hi <= w
    ensures Share(w, workers, hi, rounds) == 0
  {
    SkippedIndices(w, workers, 0, hi, rounds);
  }

  const INT_MAX: nat := 2147483647

  /** The step past each of the worker's indices stays within an int. */
  ghost predicate StepsFit(w: nat, workers: nat, items: nat)
    requires workers >= 1
  {
    forall i :: 0 <= i < items && i % workers == w ==> i + workers <= INT_MAX
  }

  /** What is known when the loop stands at i: the part below it has been summed. */
  ghost predicate Summed(w: nat, workers: nat, items: nat, rounds: nat, i: nat, checksum: nat)
    requires workers >= 1
  {
    var done := if i < items then i else items;
    i % workers == w && StepsFit(w, workers, done) && checksum == Share(w, workers, done, rounds)
  }

  /** `worker_sum`, with an int for the index. It overflows exactly when the step past one of
      the worker's indices does. */
  method WorkerSum(w: nat, workers: nat, items: nat, rounds: nat) returns (ok: bool, checksum: nat)
    requires w < workers <= INT_MAX && items <= INT_MAX
    ensures ok <==> StepsFit(w, workers, items)
    ensures ok ==> checksum == Share(w, workers, items, rounds)
  {
    checksum := 0;
    var i: nat := w;
    StartSummed(w, workers, items, rounds);
    while i < items
      invariant i <= INT_MAX && Summed(w, workers, items, rounds, i, checksum)
      decreases items - i
    {
      NextSummed(w, workers, items, rounds, i, checksum);
      checksum := checksum + HeavyWork.Work(i, rounds);
      if i > INT_MAX - workers {
        return false, checksum;
      }
      i := i + workers;
    }
    return true, checksum;
  }

  lemma StartSummed(w: nat, workers: nat, items: nat, rounds: nat)
    requires w < workers
    ensures Summed(w, workers, items, rounds, w, 0)
  {
    var done := if w < items then w else items;
    SmallResidue(w, workers);
    StartFits(w, workers, done);
    StartOfStride(w, workers, done, rounds);
  }

  lemma NextSummed(w: nat, workers: nat, items: nat, rounds: nat, i: nat, checksum: nat)
    requires w < workers && i < items && Summed(w, workers, items, rounds, i, checksum)
    ensures i + workers <= INT_MAX ==>
              Summed(w, workers, items, rounds, i + workers, checksum + HeavyWork.Work(i, rounds))
    ensures i + workers > INT_MAX ==> !StepsFit(w, workers, items)
  {
    var hi := if i + workers < items then i + workers else items;
    StrideStep(w, workers, i, hi, rounds);
    StepFits(w, workers, i, hi);
    StrideResidues(w, workers, i, 0);
  }

  lemma SmallResidue(i: nat, workers: nat)
    requires i < workers
    ensures i % workers == i
  {
    Residue(0, workers, i);
  }

  lemma StartFits(w: nat, workers: nat, done: nat)
    requires done <= w < workers
    ensures StepsFit(w, workers, done)
  {
    forall i | 0 <= i < done
      ensures i % workers != w
    {
      SmallResidue(i, workers);
    }
  }

  lemma StepFits(w: nat, workers: nat, i: nat, hi: nat)
    requires w < workers && i % workers == w && i < hi <= i + workers
    ensures StepsFit(w, workers, hi) <==> StepsFit(w, workers, i) && i + workers <= INT_MAX
  {
    forall k | i + 1 <= k < hi
      ensures k % workers != w
    {
      StrideResidues(w, workers, i, k - i);
    }
  }

  /** All indices can be stepped past exactly when the last one can. */
  lemma AllStepsFitIff(workers: nat, items: nat)
    requires workers >= 1
    ensures (forall w :: 0 <= w < workers ==> StepsFit(w, workers, items)) <==>
              items == 0 || items + workers <= INT_MAX + 1
  {
    if items > 0 {
      var last := items - 1;
      assert StepsFit(last % workers, workers, items) ==> last + workers <= INT_MAX;
    }
  }

  /** The whole program: each worker leaves its sum in its own slot, and main adds them. */
  method ThreadedSum(workers: nat, items: nat, rounds: nat) returns (ok: bool, checksum: nat)
    requires 1 <= workers <= INT_MAX && items <= INT_MAX
    ensures ok <==> items == 0 || items + workers <= INT_MAX + 1
    ensures ok ==> checksum == HeavyWork.SequentialSum(items, rounds)
  {
    AllStepsFitIff(workers, items);
    var args := new nat[workers];
    for i := 0 to workers
      invariant forall w :: 0 <= w < i ==> args[w] == Share(w, workers, items, rounds)
      invariant forall w :: 0 <= w < i ==> StepsFit(w, workers, items)
    {
      var sum;
      ok, sum := WorkerSum(i, workers, items, rounds);
      if !ok {
        return false, 0;
      }
      args[i] := sum;
    }
    checksum := 0;
    for i := 0 to workers
      invariant checksum == SumOfShares(i, workers, items, rounds)
    {
      checksum := checksum + args[i];
    }
    SharesAddUp(workers, items, rounds);
    return true, checksum;
  }
}
