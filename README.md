# ArraySum: sequential and chunked parallel summation

The program benchmarks two ways of summing an array of random integers in [1, 10].
Class `ArraySum` in `main.cpp` owns the array and offers two reductions:

- `sequentialSum`: one `std::accumulate` pass over the whole array.
- `parallelSum(numThreads)`: splits `[0, size)` into `numThreads` contiguous chunks of
  `size / numThreads` elements each, the last chunk taking the remainder. One worker
  per chunk sums its chunk into its own slot of `partialSums`, and the slots are then
  accumulated in slot order.

The driver calls `sequentialSum` for one thread and `parallelSum` otherwise.

The Dafny model has two modules:

- `Reduction` (`reduction.dfy`) is the pure part:
  - `Sum(s, lo, hi)`, the index-order sum of a range, used as the specification;
  - `Accumulate`, the model of `std::accumulate`;
  - the chunk arithmetic (`ChunkSize`, `ChunkStart`, `ChunkEnd`, `ChunkOf`);
  - `ChunkTotals`, the value each worker leaves in its slot;
  - lemmas proving that the chunks partition the index range and that the chunked
    total equals the plain sum.
- `Benchmark` (`array_sum.dfy`) holds:
  - class `ArraySum`, whose array is an `array<int>` filled in place by the constructor
    and only read afterwards;
  - the worker body `ChunkSum`, a loop;
  - `ParallelSum`, an outer loop over the workers that fills a fresh zero-initialised
    `partialSums` array slot by slot;
  - `TrialSum`, the one-thread/many-threads choice of the driver;
  - `SixElementTrial`, a client that runs the six-element scenario through the class.

The workers run one after another in slot order inside `ParallelSum`. This does not
change the result: every worker reads its own slice of the array and writes only its
own slot. `ParallelSum` has no `modifies` clause, so it changes nothing that existed
before the call. In particular it leaves the array alone, as `sequentialSum` (which is
`const`) does.

Partitioning is deterministic: `ChunkStart`, `ChunkEnd` and `ChunkTotals` are
functions of the array length, the thread count and the contents.

The random generator is a parameter of the constructor: `draws` are the values the
uniform distribution over [1, 10] yields, and the constructor requires them to lie in
that range. The source's `ArraySum(size_t)` accepts size 0, and so does the model.

## Model

| member | source | states |
|---|---|---|
| `Reduction.Accumulate` | main.cpp:21 | `std::accumulate` from `init` returns `init` plus the left-to-right sum of all elements |
| `Reduction.SumBounds` | main.cpp:13-21 | with every element in [1, 10], a range of length m sums to a value in [m, 10 m] |
| `Reduction.SumFitsInt64` | main.cpp:20-21 | every range sum lies in [0, 2^63 - 1] whenever 10 times the array length does, so the `long long` accumulators cannot overflow |
| `Reduction.ChunkStart` | main.cpp:31 | worker i starts at `i * chunkSize`, which never exceeds the array length |
| `Reduction.ChunkEnd` | main.cpp:32 | worker i ends at `(i + 1) * chunkSize`, or at the array length for the last worker; the end lies between the start and the length |
| `Reduction.ChunksContiguous` | main.cpp:28-32 | the first chunk starts at 0, each chunk ends where the next starts, and the last ends at the array length |
| `Reduction.ChunkLength` | main.cpp:28-32 | every chunk but the last has length `size / numThreads`; the last has length `size / numThreads + size % numThreads`, that is `size - (numThreads - 1) * (size / numThreads)` |
| `Reduction.ChunksOrdered` | main.cpp:31-32 | a chunk with a smaller index ends no later than a chunk with a larger index starts |
| `Reduction.ChunksDisjoint` | main.cpp:30-32 | no index lies in two different chunks |
| `Reduction.ChunkOf` | main.cpp:28-32 | every valid index lies in some chunk (the index divided by the chunk size, capped at the last worker) |
| `Reduction.ChunksPartition` | main.cpp:28-32 | an index lies in chunk i if and only if it is below the array length and chunk i is its `ChunkOf`: the chunks cover `[0, size)` exactly once |
| `Reduction.MoreThreadsThanElements` | main.cpp:28-32 | with more workers than elements the chunk size is 0, every worker but the last gets `[0, 0)`, and the last gets `[0, size)` |
| `Reduction.TenElementsThreeThreads` | main.cpp:28-32 | size 10 over 3 workers gives chunk size 3 and chunks [0,3), [3,6), [6,10) |
| `Reduction.ChunkTotalsPrefix` | main.cpp:35-47 | the first m slots add up to the sum of all elements before chunk m |
| `Reduction.ChunkedSumEqualsSum` | main.cpp:24-48 | for every thread count >= 1, the slot totals added in slot order equal the sum of the whole array |
| `Reduction.ChunkTotalsMoreThreads` | main.cpp:28-39 | with more workers than elements every slot but the last holds 0 and the last holds the whole sum |
| `Reduction.ChunkTotalBounds` | main.cpp:35-39 | each slot total lies between its chunk's length and ten times that length |
| `Reduction.SixElementsTwoThreads` | main.cpp:24-48 | [1, 2, 3, 4, 5, 6] over two workers leaves slots 6 and 15, and the total is 21 |
| `Benchmark.ArraySum.constructor` | main.cpp:10-18 | the array has the requested size, holds the draws in order, and every element lies in [1, 10] |
| `Benchmark.ArraySum.SequentialSum` | main.cpp:20-22 | the result is the index-order sum of all elements, lies in [size, 10 size], and so is 0 for an empty array |
| `Benchmark.ArraySum.ChunkSum` | main.cpp:34-40 | the worker's loop leaves the sum of the elements with index in [start, end) |
| `Benchmark.ArraySum.ParallelSum` | main.cpp:24-48 | for numThreads >= 1 there are numThreads slots, and slot i holds the sum of chunk i; the result is the sum of the slots in slot order and equals `SequentialSum()`, also when numThreads exceeds the size |
| `Benchmark.TrialSum` | main.cpp:67 | the reported sum equals `SequentialSum()` whichever branch of the dispatch runs |

## Left out

- Thread creation and `join` (main.cpp:25, 34, 43-45): the workers run one after another in slot order. They touch disjoint input slices and disjoint output slots, so the slot contents and the total are the same.
- `std::mt19937`, `std::random_device` and `std::uniform_int_distribution` (main.cpp:12-13, 16): nondeterministic and foreign. The constructor takes the drawn values as a parameter and keeps only their range [1, 10].
- Timing with `std::chrono` and the `double` durations (main.cpp:66-70): wall-clock time and floating point.
- Console output and `hardware_concurrency` (main.cpp:58-59, 62, 71-73): I/O and a host query.
- The fixed benchmark matrix of sizes {100,000; 1,000,000; 10,000,000} and thread counts {1, 4, 8, 10} (main.cpp:55-56, 61-65): plain driver iteration. The dispatch inside it is `TrialSum`.
- `long long` and `size_t` widths are modelled as unbounded `int` and `nat`, without wrap-around. `SumFitsInt64` shows that no sum reaches 2^63 - 1 while 10 times the size stays below it; the largest benchmark size gives at most 10^8. The bounds on `ChunkStart` and `ChunkEnd` show that `i * chunkSize` and `(i + 1) * chunkSize` never exceed the size, so the `size_t` products cannot wrap.
- `numThreads == 0` divides by zero in the source (main.cpp:28). `ParallelSum` therefore requires `numThreads >= 1`.
