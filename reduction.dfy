/** The arithmetic behind ArraySum in main.cpp: range sums, std::accumulate,
    and the way parallelSum cuts the index range [0, n) into k chunks. */
module Reduction {

  /** Largest value of a 64-bit signed `long long`. */
  const MaxInt64: int := 0x7fff_ffff_ffff_ffff

  /** Every element lies in the closed interval [1, 10] that the constructor draws from. */
  predicate InRange(s: seq<int>)
  {
    forall j :: 0 <= j < |s| ==> 1 <= s[j] <= 10
  }

  /** The sum of s[lo..hi), added left to right in index order. */
  function Sum(s: seq<int>, lo: nat, hi: nat): int
    requires lo <= hi <= |s|
    decreases hi - lo
  {
    if lo == hi then 0 else Sum(s, lo, hi - 1) + s[hi - 1]
  }

  /** std::accumulate(s.begin(), s.end(), init): a left fold with `+` starting at init. */
  function Accumulate(s: seq<int>, init: int): (r: int)
    ensures r == init + Sum(s, 0, |s|)
  {
    if s == [] then init
    else
      SumDropFirst(s, |s|);
      Accumulate(s[1..], init + s[0])
  }

  lemma {:induction false} SumDropFirst(s: seq<int>, hi: nat)
    requires 1 <= hi <= |s|
    ensures Sum(s, 0, hi) == s[0] + Sum(s[1..], 0, hi - 1)
  {
    if hi > 1 {
      SumDropFirst(s, hi - 1);
    }
  }

  /** A range sum splits at any point in between. */
  lemma {:induction false} SumSplit(s: seq<int>, lo: nat, mid: nat, hi: nat)
    requires lo <= mid <= hi <= |s|
    ensures Sum(s, lo, hi) == Sum(s, lo, mid) + Sum(s, mid, hi)
  {
    if mid < hi {
      SumSplit(s, lo, mid, hi - 1);
    }
  }

  /** With every element in [1, 10], a range of length m sums to a value in [m, 10 m]. */
  lemma {:induction false} SumBounds(s: seq<int>, lo: nat, hi: nat)
    requires lo <= hi <= |s|
    requires InRange(s)
    ensures hi - lo <= Sum(s, lo, hi) <= 10 * (hi - lo)
  {
    if lo < hi {
      SumBounds(s, lo, hi - 1);
    }
  }

  /** Every range sum, hence every partial sum and the total, fits in a `long long`
      as long as ten times the length does (for the largest benchmark size,
      10,000,000 elements, that is 10^8, far below 2^63 - 1). */
  lemma SumFitsInt64(s: seq<int>, lo: nat, hi: nat)
    requires lo <= hi <= |s|
    requires InRange(s)
    requires 10 * |s| <= MaxInt64
    ensures 0 <= Sum(s, lo, hi) <= MaxInt64
  {
    SumBounds(s, lo, hi);
  }

  // ---------------------------------------------------------------------------
  // Chunk arithmetic of parallelSum: n elements, k workers.

  /** `chunkSize = array.size() / numThreads` (size_t division truncates). */
  function ChunkSize(n: nat, k: nat): nat
    requires k >= 1
  {
    n / k
  }

  lemma MulLeft(a: nat, b: nat, c: nat)
    requires a <= b
    ensures a * c <= b * c
  {
  }

  lemma DivMul(n: nat, k: nat)
    requires k >= 1
    ensures k * (n / k) + n % k == n
    ensures k * (n / k) <= n
  {
  }

  /** Worker i starts at `i * chunkSize`; this never passes n, so the size_t product cannot wrap. */
  function ChunkStart(n: nat, k: nat, i: nat): (start: nat)
    requires 1 <= k && i < k
    ensures start <= n
  {
    MulLeft(i, k, n / k);
    DivMul(n, k);
    i * ChunkSize(n, k)
  }

  /** Worker i ends at `(i + 1) * chunkSize`, except the last worker, which ends at n.
      The end lies between the start and n. */
  function ChunkEnd(n: nat, k: nat, i: nat): (end: nat)
    requires 1 <= k && i < k
    ensures ChunkStart(n, k, i) <= end <= n
  {
    if i == k - 1 then n
    else
      MulLeft(i + 1, k, n / k);
      DivMul(n, k);
      (i + 1) * ChunkSize(n, k)
  }

  /** Index j belongs to chunk i. */
  predicate InChunk(n: nat, k: nat, i: nat, j: nat)
    requires 1 <= k && i < k
  {
    ChunkStart(n, k, i) <= j < ChunkEnd(n, k, i)
  }

  /** The chunks are laid end to end: the first starts at 0, each one ends where the
      next starts, and the last ends at n. */
  lemma ChunksContiguous(n: nat, k: nat)
    requires k >= 1
    ensures ChunkStart(n, k, 0) == 0
    ensures ChunkEnd(n, k, k - 1) == n
    ensures forall i :: 0 <= i < k - 1 ==> ChunkEnd(n, k, i) == ChunkStart(n, k, i + 1)
  {
  }

  /** Every chunk but the last has length n / k; the last one also takes the
      remainder n % k, i.e. its length is n - (k - 1) * (n / k). */
  lemma ChunkLength(n: nat, k: nat, i: nat)
    requires 1 <= k && i < k
    ensures ChunkEnd(n, k, i) - ChunkStart(n, k, i)
         == if i < k - 1 then n / k else n / k + n % k
    ensures i == k - 1 ==> ChunkEnd(n, k, i) - ChunkStart(n, k, i) == n - (k - 1) * (n / k)
  {
    DivMul(n, k);
    assert (k - 1) * (n / k) + n / k == k * (n / k);
  }

  /** A chunk with a smaller index lies wholly before a chunk with a larger one. */
  lemma ChunksOrdered(n: nat, k: nat, i1: nat, i2: nat)
    requires 1 <= k && i1 < i2 < k
    ensures ChunkEnd(n, k, i1) <= ChunkStart(n, k, i2)
  {
    MulLeft(i1 + 1, i2, n / k);
  }

  /** The workers' ranges do not overlap. */
  lemma ChunksDisjoint(n: nat, k: nat, i1: nat, i2: nat, j: nat)
    requires 1 <= k && i1 < k && i2 < k
    requires InChunk(n, k, i1, j) && InChunk(n, k, i2, j)
    ensures i1 == i2
  {
    if i1 < i2 {
      ChunksOrdered(n, k, i1, i2);
    } else if i2 < i1 {
      ChunksOrdered(n, k, i2, i1);
    }
  }

  /** The worker whose range holds index j: j / chunkSize, capped at the last worker
      (which holds everything when chunkSize is 0). */
  function ChunkOf(n: nat, k: nat, j: nat): (i: nat)
    requires 1 <= k && j < n
    ensures i < k && InChunk(n, k, i, j)
  {
    var c := n / k;
    if c == 0 then k - 1
    else
      var q := j / c;
      assert q * c <= j < (q + 1) * c;
      if q < k - 1 then q
      else
        MulLeft(k - 1, q, c);
        k - 1
  }

  /** The chunks cover [0, n) exactly: an index lies in chunk i if and only if it is a
      valid index and chunk i is the one ChunkOf names. */
  lemma ChunksPartition(n: nat, k: nat, i: nat, j: nat)
    requires 1 <= k && i < k
    ensures InChunk(n, k, i, j) <==> j < n && i == ChunkOf(n, k, j)
  {
    if InChunk(n, k, i, j) {
      ChunksDisjoint(n, k, i, ChunkOf(n, k, j), j);
    }
  }

  /** With more workers than elements chunkSize is 0: every worker except the last
      gets the empty range [0, 0), and the last gets the whole array. */
  lemma MoreThreadsThanElements(n: nat, k: nat)
    requires k > n
    ensures ChunkSize(n, k) == 0
    ensures forall i :: 0 <= i < k - 1 ==> ChunkStart(n, k, i) == ChunkEnd(n, k, i) == 0
    ensures ChunkStart(n, k, k - 1) == 0 && ChunkEnd(n, k, k - 1) == n
  {
  }

  /** Ten elements over three workers: chunkSize 3, chunks [0,3), [3,6), [6,10). */
  lemma TenElementsThreeThreads()
    ensures ChunkSize(10, 3) == 3
    ensures ChunkStart(10, 3, 0) == 0 && ChunkEnd(10, 3, 0) == 3
    ensures ChunkStart(10, 3, 1) == 3 && ChunkEnd(10, 3, 1) == 6
    ensures ChunkStart(10, 3, 2) == 6 && ChunkEnd(10, 3, 2) == 10
  {
  }

  // ---------------------------------------------------------------------------
  // Per-worker sums and the final reduction.

  /** What worker i stores in `partialSums[i]`: the sum of its chunk of s. */
  function ChunkTotals(s: seq<int>, k: nat): seq<int>
    requires k >= 1
  {
    seq(k, i requires 0 <= i < k => Sum(s, ChunkStart(|s|, k, i), ChunkEnd(|s|, k, i)))
  }

  /** The first m slots together hold the sum of everything before chunk m. */
  lemma {:induction false} ChunkTotalsPrefix(s: seq<int>, k: nat, m: nat)
    requires 1 <= k && m < k
    ensures Sum(ChunkTotals(s, k), 0, m) == Sum(s, 0, ChunkStart(|s|, k, m))
  {
    if m > 0 {
      var t := ChunkTotals(s, k);
      ChunkTotalsPrefix(s, k, m - 1);
      SumSplit(s, 0, ChunkStart(|s|, k, m - 1), ChunkStart(|s|, k, m));
      assert t[m - 1] == Sum(s, ChunkStart(|s|, k, m - 1), ChunkStart(|s|, k, m));
    }
  }

  /** Adding the k slot totals in slot order gives the sum of the whole sequence,
      for every k >= 1 (including k > |s|). */
  lemma ChunkedSumEqualsSum(s: seq<int>, k: nat)
    requires k >= 1
    ensures Sum(ChunkTotals(s, k), 0, k) == Sum(s, 0, |s|)
  {
    var t := ChunkTotals(s, k);
    ChunkTotalsPrefix(s, k, k - 1);
    SumSplit(s, 0, ChunkStart(|s|, k, k - 1), |s|);
    assert t[k - 1] == Sum(s, ChunkStart(|s|, k, k - 1), |s|);
  }

  /** With more workers than elements every slot but the last holds 0, and the last
      holds the whole sum. */
  lemma ChunkTotalsMoreThreads(s: seq<int>, k: nat)
    requires k > |s|
    ensures forall i :: 0 <= i < k - 1 ==> ChunkTotals(s, k)[i] == 0
    ensures ChunkTotals(s, k)[k - 1] == Sum(s, 0, |s|)
  {
    MoreThreadsThanElements(|s|, k);
  }

  /** Each slot total lies between the chunk length and ten times it. */
  lemma ChunkTotalBounds(s: seq<int>, k: nat, i: nat)
    requires 1 <= k && i < k
    requires InRange(s)
    ensures var len := ChunkEnd(|s|, k, i) - ChunkStart(|s|, k, i);
      len <= ChunkTotals(s, k)[i] <= 10 * len
  {
    SumBounds(s, ChunkStart(|s|, k, i), ChunkEnd(|s|, k, i));
  }

  /** [1, 2, 3, 4, 5, 6] over two workers: slots 6 and 15, total 21. */
  lemma SixElementsTwoThreads()
    ensures ChunkTotals([1, 2, 3, 4, 5, 6], 2) == [6, 15]
    ensures Sum([1, 2, 3, 4, 5, 6], 0, 6) == 21
  {
    var s := [1, 2, 3, 4, 5, 6];
    assert ChunkEnd(6, 2, 0) == 3;
    assert Sum(s, 0, 3) == 6;
    assert Sum(s, 3, 6) == 15;
  }
}
