/** Class ArraySum of main.cpp and the choice, in the benchmark driver, between its
    two reductions. */
module Benchmark {
  import opened Reduction

  class ArraySum {
    /** The `std::vector<int>` the constructor fills; both reductions only read it. */
    const arr: array<int>

    /** Every element is a draw from the uniform distribution over [1, 10]. */
    ghost predicate Valid()
      reads this, arr
    {
      InRange(arr[..])
    }

    /** Resizes the array to `size` and stores the draws one after another.
        The random generator is a parameter: `draws` are the values it yields,
        each in [1, 10]. */
    constructor (size: nat, draws: seq<int>)
      requires |draws| == size && InRange(draws)
      ensures Valid() && fresh(arr)
      ensures arr[..] == draws
    {
      arr := new int[size];
      new;
      var j := 0;
      while j < size
        invariant 0 <= j <= size
        invariant arr[..j] == draws[..j]
      {
        arr[j] := draws[j];
        j := j + 1;
      }
    }

    /** One pass of std::accumulate from 0 over the whole array: the sum of all
        elements, which for n elements lies in [n, 10 n] (so it is 0 when n is 0). */
    function SequentialSum(): (r: int)
      reads this, arr
      requires Valid()
      ensures r == Sum(arr[..], 0, arr.Length)
      ensures arr.Length <= r <= 10 * arr.Length
    {
      SumBounds(arr[..], 0, arr.Length);
      Accumulate(arr[..], 0)
    }

    /** The body of one worker: sums the elements with index in [start, end). */
    method ChunkSum(start: nat, end: nat) returns (sum: int)
      requires start <= end <= arr.Length
      ensures sum == Sum(arr[..], start, end)
    {
      sum := 0;
      var j := start;
      while j < end
        invariant start <= j <= end
        invariant sum == Sum(arr[..], start, j)
      {
        sum := sum + arr[j];
        j := j + 1;
      }
    }

    /** Cuts the array into numThreads chunks, sums each chunk into its own slot of
        a fresh zero-filled `partialSums`, then adds the slots in slot order.
        The workers run one after another; each reads its own slice and writes only
        its own slot, so the order does not change any slot. `slots` is the final
        content of `partialSums`. The array itself is not modified. */
    method ParallelSum(numThreads: nat) returns (total: int, ghost slots: seq<int>)
      requires Valid()
      requires numThreads >= 1
      ensures |slots| == numThreads
      ensures forall i :: 0 <= i < numThreads ==>
        slots[i] == Sum(arr[..], ChunkStart(arr.Length, numThreads, i), ChunkEnd(arr.Length, numThreads, i))
      ensures total == Sum(slots, 0, numThreads)
      ensures total == SequentialSum()
    {
      var partialSums := new int[numThreads](_ => 0);
      var chunkSize := arr.Length / numThreads;
      var i := 0;
      while i < numThreads
        invariant 0 <= i <= numThreads
        invariant partialSums[..i] == ChunkTotals(arr[..], numThreads)[..i]
        invariant forall m :: i <= m < numThreads ==> partialSums[m] == 0
      {
        var start := i * chunkSize;
        var end := if i == numThreads - 1 then arr.Length else (i + 1) * chunkSize;
        assert start == ChunkStart(arr.Length, numThreads, i);
        assert end == ChunkEnd(arr.Length, numThreads, i);
        var sum := ChunkSum(start, end);
        partialSums[i] := sum;
        i := i + 1;
      }
      slots := partialSums[..];
      assert slots == ChunkTotals(arr[..], numThreads);
      total := Accumulate(partialSums[..], 0);
      ChunkedSumEqualsSum(arr[..], numThreads);
    }
  }

  /** The sum one benchmark trial reports: sequentialSum for one thread, parallelSum
      otherwise. Whichever branch runs, the value is the sequential sum. */
  method TrialSum(a: ArraySum, threads: nat) returns (sum: int)
    requires a.Valid()
    requires threads >= 1
    ensures sum == a.SequentialSum()
  {
    if threads == 1 {
      sum := a.SequentialSum();
    } else {
      ghost var slots;
      sum, slots := a.ParallelSum(threads);
    }
  }

  /** The array of six known elements over two workers reports 21 either way. */
  method SixElementTrial()
  {
    var a := new ArraySum(6, [1, 2, 3, 4, 5, 6]);
    ghost var slots;
    var total;
    total, slots := a.ParallelSum(2);
    SixElementsTwoThreads();
    assert slots == [6, 15];
    assert total == 21;
    var sequential := TrialSum(a, 1);
    assert sequential == 21;
  }
}
