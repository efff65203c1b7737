/**
 Splitting jobs into contiguous chunks, one per worker, and deciding whether the chunks are balanced enough to be worth
 the threads.
 */
module Chunks {
  import opened Json
  import opened Sequences
  import opened Wrappers

  const MAX_PARALLEL_WORKERS := 4
  const PARALLEL_MIN_DISCLOSURES := 128
  const PARALLEL_MIN_TOTAL_ENCODED_BYTES := 1024 * 1024
  const USIZE_LIMIT := 0x1_0000_0000_0000_0000
  const U128_MAX := USIZE_LIMIT * USIZE_LIMIT - 1

  /** `static_chunk_size`: the quotient, rounded up. */
  function ChunkSize(count: nat, workers: nat): nat
    requires workers > 0
  {
    count / workers + if count % workers == 0 then 0 else 1
  }

  /** `slice::chunks`, one element at a time. */
  function Chunked<T>(s: seq<T>, size: nat): (r: seq<seq<T>>)
    requires size > 0
    ensures s != [] ==> r != []
  {
    if s == [] then []
    else
      var n := |s| - 1;
      var r := Chunked(s[..n], size);
      if n % size == 0 then r + [[s[n]]] else r[..|r| - 1] + [r[|r| - 1] + [s[n]]]
  }

  function Concat<T>(chunks: seq<seq<T>>): seq<T> {
    if chunks == [] then [] else Concat(chunks[..|chunks| - 1]) + chunks[|chunks| - 1]
  }

  function Min(a: nat, b: nat): nat {
    if a < b then a else b
  }

  /** Where the i-th chunk lies. */
  function ChunkAt<T>(s: seq<T>, size: nat, i: nat): seq<T>
    requires i * size <= |s|
  {
    s[i * size..Min(i * size + size, |s|)]
  }

  lemma DivUp(n: nat, size: nat)
    requires size > 0
    ensures n % size == 0 ==> (n + 1) / size + (if (n + 1) % size == 0 then 0 else 1) == n / size + 1
    ensures n % size != 0 ==> (n + 1) / size + (if (n + 1) % size == 0 then 0 else 1) == n / size + 1
    ensures n == size * (n / size) + n % size && 0 <= n % size < size
  {
    var q, r := n / size, n % size;
    assert n == size * q + r;
    if r + 1 < size {
      DivIs(n + 1, size, q, r + 1);
    } else {
      assert n + 1 == size * (q + 1);
      DivIs(n + 1, size, q + 1, 0);
    }
  }

  lemma Multiples(size: nat, a: nat, b: nat)
    requires a < b
    ensures size * a + size <= size * b
  {
    var d: nat := b - a - 1;
    assert size * (a + 1 + d) == size * a + size + size * d;
  }

  lemma DivIs(n: nat, size: nat, q: nat, r: nat)
    requires size > 0 && n == size * q + r && r < size
    ensures n / size == q && n % size == r
  {
    var q' := n / size;
    assert n == size * q' + n % size;
    if q' < q {
      Multiples(size, q', q);
    } else if q' > q {
      Multiples(size, q, q');
    }
  }

  /** The chunks are the slices of `size` elements, the last one possibly shorter, and there are as many as it takes. */
  lemma {:induction false} ChunksAreSlices<T>(s: seq<T>, size: nat)
    requires size > 0
    ensures |Chunked(s, size)| == ChunkSize(|s|, size)
    ensures forall i :: 0 <= i < |Chunked(s, size)| ==>
      i * size < |s| && Chunked(s, size)[i] == ChunkAt(s, size, i)
  {
    if s != [] {
      var n := |s| - 1;
      ChunksAreSlices(s[..n], size);
      DivUp(n, size);
      var r, all := Chunked(s[..n], size), Chunked(s, size);
      forall i | 0 <= i < |all| ensures i * size < |s| && all[i] == ChunkAt(s, size, i) {
        OneChunk(s, size, i);
      }
    }
  }

  lemma OneChunk<T>(s: seq<T>, size: nat, i: nat)
    requires size > 0 && s != []
    requires var front := Chunked(s[..|s| - 1], size);
      && |front| == ChunkSize(|s| - 1, size)
      && (forall k :: 0 <= k < |front| ==> k * size < |s| - 1 && front[k] == ChunkAt(s[..|s| - 1], size, k))
    requires i < |Chunked(s, size)|
    ensures i * size < |s| && Chunked(s, size)[i] == ChunkAt(s, size, i)
  {
    var n := |s| - 1;
    var front, q := Chunked(s[..n], size), n / size;
    DivUp(n, size);
    assert size * q == q * size;
    if i < q {
      Multiples(size, i, q);
      assert size * i == i * size;
      EarlierSlice(s, size, i);
    } else {
      assert i == q;
      LastSlice(s, size, q);
    }
  }

  lemma EarlierSlice<T>(s: seq<T>, size: nat, i: nat)
    requires i * size + size <= |s| - 1
    ensures ChunkAt(s[..|s| - 1], size, i) == ChunkAt(s, size, i)
  {
  }

  lemma LastSlice<T>(s: seq<T>, size: nat, i: nat)
    requires i * size <= |s| - 1 < i * size + size
    ensures ChunkAt(s, size, i) == ChunkAt(s[..|s| - 1], size, i) + [s[|s| - 1]]
    ensures i * size == |s| - 1 ==> ChunkAt(s, size, i) == [s[|s| - 1]]
  {
  }

  lemma ConcatSnoc<T>(chunks: seq<seq<T>>, chunk: seq<T>)
    ensures Concat(chunks + [chunk]) == Concat(chunks) + chunk
  {
    Snoc(chunks, chunk);
  }

  lemma GrowLast<T>(chunks: seq<seq<T>>, x: T)
    requires chunks != []
    ensures var k := |chunks| - 1; Concat(chunks[..k] + [chunks[k] + [x]]) == Concat(chunks) + [x]
  {
    var k := |chunks| - 1;
    ConcatSnoc(chunks[..k], chunks[k] + [x]);
    assert Concat(chunks[..k]) + (chunks[k] + [x]) == (Concat(chunks[..k]) + chunks[k]) + [x];
  }

  /** Put together again, the chunks are the list. */
  lemma {:induction false} ChunksConcat<T>(s: seq<T>, size: nat)
    requires size > 0
    ensures Concat(Chunked(s, size)) == s
  {
    if s != [] {
      var n := |s| - 1;
      ChunksConcat(s[..n], size);
      if n % size == 0 {
        ConcatSnoc(Chunked(s[..n], size), [s[n]]);
      } else {
        GrowLast(Chunked(s[..n], size), s[n]);
      }
      assert s == s[..n] + [s[n]];
    }
  }

  /** Chunks of the rounded-up quotient: at most one per worker. */
  lemma AtMostWorkers(count: nat, workers: nat)
    requires count > 0 && workers > 0
    ensures ChunkSize(count, workers) > 0
    ensures ChunkSize(count, ChunkSize(count, workers)) <= workers
  {
    var size := ChunkSize(count, workers);
    var chunks := ChunkSize(count, size);
    assert count == workers * (count / workers) + count % workers;
    assert size * workers >= count;
    assert count == size * (count / size) + count % size;
    Overfull(count, size, workers, count / size, count % size);
  }

  lemma Overfull(count: nat, size: nat, workers: nat, q: nat, r: nat)
    requires count == size * q + r && size * workers >= count && size > 0
    ensures q + (if r == 0 then 0 else 1) <= workers
  {
    if q > workers {
      Multiples(size, workers, q);
    }
  }

  // Native execution

  datatype NativeError = SpawnFailed | WorkerPanicked

  function MapAll<T, U>(jobs: seq<T>, worker: T -> U): (r: seq<U>)
    ensures |r| == |jobs|
    ensures forall i :: 0 <= i < |r| ==> r[i] == worker(jobs[i])
  {
    seq(|jobs|, i requires 0 <= i < |jobs| => worker(jobs[i]))
  }

  /** What running the workers gives: all outcomes in job order, unless a worker cannot be spawned or one panics. */
  ghost function Native<T, U>(jobs: seq<T>, chunks: nat, worker: T -> U, spawns: nat -> bool, finishes: nat -> bool)
    : Result<seq<U>, NativeError>
  {
    if exists i :: 0 <= i < chunks && !spawns(i) then Failure(SpawnFailed)
    else if exists i :: 0 <= i < chunks && !finishes(i) then Failure(WorkerPanicked)
    else Success(MapAll(jobs, worker))
  }

  /** Spawn a worker for each chunk until one cannot be spawned; `spawns` says which the system starts. */
  method SpawnWorkers<T>(chunks: seq<seq<T>>, spawns: nat -> bool) returns (handles: seq<seq<T>>, failed: bool)
    ensures handles <= chunks && (!failed ==> handles == chunks)
    ensures failed <==> exists i :: 0 <= i < |chunks| && !spawns(i)
  {
    handles, failed := [], false;
    while |handles| < |chunks|
      invariant handles <= chunks
      invariant forall i :: 0 <= i < |handles| ==> spawns(i)
    {
      if !spawns(|handles|) {
        failed := true;
        return;
      }
      handles := handles + [chunks[|handles|]];
    }
  }

  /** Join the workers in spawn order; `finishes` says which end without panicking. */
  method JoinWorkers<T, U>(handles: seq<seq<T>>, worker: T -> U, finishes: nat -> bool) returns (outcomes: seq<U>, panicked: bool)
    ensures panicked <==> exists i :: 0 <= i < |handles| && !finishes(i)
    ensures !panicked ==> outcomes == MapAll(Concat(handles), worker)
  {
    outcomes, panicked := [], false;
    for i := 0 to |handles|
      invariant panicked <==> exists k :: 0 <= k < i && !finishes(k)
      invariant !panicked ==> outcomes == MapAll(Concat(handles[..i]), worker)
    {
      assert handles[..i + 1] == handles[..i] + [handles[i]];
      ConcatSnoc(handles[..i], handles[i]);
      if finishes(i) {
        outcomes := outcomes + MapAll(handles[i], worker);
      } else {
        panicked := true;
      }
    }
    assert handles[..|handles|] == handles;
  }

  /** `execute` of the native executors: one worker per chunk, joined in spawn order. */
  method ExecuteNative<T, U>(jobs: seq<T>, workerCount: nat, worker: T -> U, spawns: nat -> bool, finishes: nat -> bool)
    returns (r: Result<seq<U>, NativeError>, spawned: nat)
    requires jobs != [] && workerCount > 0
    ensures spawned <= Min(workerCount, |jobs|)
    ensures r == Native(jobs, ChunkCount(|jobs|, Min(workerCount, |jobs|)), worker, spawns, finishes)
  {
    var workers := Min(workerCount, |jobs|);
    var chunkSize := ChunkSize(|jobs|, workers);
    AtMostWorkers(|jobs|, workers);
    var chunks := Chunked(jobs, chunkSize);
    ChunksAreSlices(jobs, chunkSize);
    ChunksConcat(jobs, chunkSize);
    var handles, spawnFailed := SpawnWorkers(chunks, spawns);
    spawned := |handles|;
    var outcomes, panicked := JoinWorkers(handles, worker, finishes);
    if spawnFailed {
      r := Failure(SpawnFailed);
    } else if panicked {
      r := Failure(WorkerPanicked);
    } else {
      r := Success(outcomes);
    }
  }

  /** How many chunks a worker count leads to. */
  function ChunkCount(count: nat, workers: nat): nat
    requires count > 0 && workers > 0
  {
    AtMostWorkers(count, workers);
    ChunkSize(count, ChunkSize(count, workers))
  }

  // The balance scan

  function Sum(lengths: seq<nat>): nat {
    if lengths == [] then 0 else Sum(lengths[..|lengths| - 1]) + lengths[|lengths| - 1]
  }

  function LargestSum(chunks: seq<seq<nat>>): nat {
    if chunks == [] then 0 else Max(LargestSum(chunks[..|chunks| - 1]), Sum(chunks[|chunks| - 1]))
  }

  lemma {:induction false} LargestIsMaximum(chunks: seq<seq<nat>>, bound: nat)
    ensures LargestSum(chunks) <= bound <==> forall i :: 0 <= i < |chunks| ==> Sum(chunks[i]) <= bound
  {
    if chunks != [] {
      LargestIsMaximum(chunks[..|chunks| - 1], bound);
    }
  }

  function SaturatingAdd(a: nat, b: nat): nat {
    Min(a + b, U128_MAX)
  }

  /** `bounded_worker_count`. */
  function BoundedWorkers(count: nat, availableThreads: nat): (workers: Option<nat>)
    ensures workers.None? <==> availableThreads < 2 || count < 2
    ensures workers.Some? ==> 2 <= workers.value <= 4 && workers.value <= availableThreads && workers.value <= count
    ensures workers.Some? ==> workers.value == 4 || workers.value == availableThreads || workers.value == count
  {
    var workers := Min(Min(availableThreads, count), MAX_PARALLEL_WORKERS);
    if workers > 1 then Some(workers) else None
  }

  /** No chunk holds more than half of the bytes, rounded up. */
  ghost predicate Balanced(lengths: seq<nat>, total: nat, workers: nat)
    requires workers > 0 && lengths != []
  {
    AtMostWorkers(|lengths|, workers);
    var chunks := Chunked(lengths, ChunkSize(|lengths|, workers));
    forall i :: 0 <= i < |chunks| ==> Sum(chunks[i]) <= total / 2 + total % 2
  }

  /** How far the scan has got: the largest finished chunk and the bytes of the unfinished one. */
  ghost predicate Scanned(lengths: seq<nat>, size: nat, largest: nat, current: nat)
    requires size > 0
  {
    var chunks := Chunked(lengths, size);
    if |lengths| % size == 0 then largest == LargestSum(chunks) && current == 0
    else chunks != [] && largest == LargestSum(chunks[..|chunks| - 1]) && current == Sum(chunks[|chunks| - 1])
  }

  lemma ScanNext(lengths: seq<nat>, size: nat, largest: nat, current: nat, next: nat)
    requires size > 0 && Scanned(lengths, size, largest, current)
    ensures if (|lengths| + 1) % size == 0 then Scanned(lengths + [next], size, Max(largest, current + next), 0)
            else Scanned(lengths + [next], size, largest, current + next)
  {
    Snoc(lengths, next);
    NextMultiple(|lengths|, size);
    LastChunk(lengths, size, next);
  }

  /** The next length opens a chunk or joins the last one. */
  lemma LastChunk(lengths: seq<nat>, size: nat, next: nat)
    requires size > 0
    ensures var chunks, more := Chunked(lengths, size), Chunked(lengths + [next], size);
      && more != []
      && (|lengths| % size == 0 ==> more[..|more| - 1] == chunks && Sum(more[|more| - 1]) == next)
      && (|lengths| % size != 0 ==>
            chunks != [] && more[..|more| - 1] == chunks[..|chunks| - 1] && Sum(more[|more| - 1]) == Sum(chunks[|chunks| - 1]) + next)
  {
    var chunks := Chunked(lengths, size);
    Snoc(lengths, next);
    if |lengths| % size == 0 {
      Snoc(chunks, [next]);
      assert [next][..0] == [];
    } else {
      assert lengths != [];
      var last := chunks[|chunks| - 1];
      Snoc(chunks[..|chunks| - 1], last + [next]);
      Snoc(last, next);
    }
  }

  lemma NextMultiple(n: nat, size: nat)
    requires size > 0
    ensures (n + 1) % size == 0 <==> n % size == size - 1
  {
    DivUp(n, size);
    var q, r := n / size, n % size;
    if r == size - 1 {
      assert n + 1 == size * (q + 1);
      DivIs(n + 1, size, q + 1, 0);
    } else {
      DivIs(n + 1, size, q, r + 1);
    }
  }

  lemma {:induction false} SumBounded(lengths: seq<nat>)
    requires forall i :: 0 <= i < |lengths| ==> lengths[i] < USIZE_LIMIT
    ensures Sum(lengths) <= |lengths| * USIZE_LIMIT
  {
    if lengths != [] {
      SumBounded(lengths[..|lengths| - 1]);
    }
  }

  /** So many lengths cannot reach the limit of 128 bits. */
  lemma NoSaturation(lengths: seq<nat>, k: nat, current: nat)
    requires k < |lengths| < USIZE_LIMIT && (forall i :: 0 <= i < |lengths| ==> lengths[i] < USIZE_LIMIT)
    requires current <= Sum(lengths[..k])
    ensures SaturatingAdd(current, lengths[k]) == current + lengths[k] <= Sum(lengths[..k + 1])
  {
    SumBounded(lengths[..k + 1]);
    assert lengths[..k + 1][..k] == lengths[..k];
  }

  lemma ScanAt(lengths: seq<nat>, k: nat, size: nat, largest: nat, current: nat)
    requires size > 0 && k < |lengths| && Scanned(lengths[..k], size, largest, current)
    ensures if (k + 1) % size == 0 then Scanned(lengths[..k + 1], size, Max(largest, current + lengths[k]), 0)
            else Scanned(lengths[..k + 1], size, largest, current + lengths[k])
  {
    ScanNext(lengths[..k], size, largest, current, lengths[k]);
    assert lengths[..k + 1] == lengths[..k] + [lengths[k]];
  }

  lemma ScanDone(lengths: seq<nat>, size: nat, largest: nat, current: nat)
    requires size > 0 && Scanned(lengths, size, largest, current)
    ensures LargestSum(Chunked(lengths, size)) == Max(largest, current)
  {
  }

  /** The largest chunk, if there are as many lengths as announced. */
  method ScanLargest(count: nat, lengths: seq<nat>, chunkSize: nat) returns (largest: Option<nat>)
    requires chunkSize > 0
    requires |lengths| < USIZE_LIMIT && forall i :: 0 <= i < |lengths| ==> lengths[i] < USIZE_LIMIT
    ensures largest.Some? <==> |lengths| == count
    ensures largest.Some? ==> largest.value == LargestSum(Chunked(lengths, chunkSize))
  {
    var observed: nat, current: nat, most: nat := 0, 0, 0;
    while observed < |lengths|
      invariant observed <= |lengths| && observed <= count
      invariant current <= Sum(lengths[..observed])
      invariant Scanned(lengths[..observed], chunkSize, most, current)
    {
      if observed == count {
        return None;
      }
      ScanAt(lengths, observed, chunkSize, most, current);
      NoSaturation(lengths, observed, current);
      current := SaturatingAdd(current, lengths[observed]);
      observed := observed + 1;
      if observed % chunkSize == 0 {
        most, current := Max(most, current), 0;
      }
    }
    if observed != count {
      return None;
    }
    assert lengths[..observed] == lengths;
    ScanDone(lengths, chunkSize, most, current);
    return Some(Max(most, current));
  }

  /** `select_execution_mode_for_balanced_lengths`: native, with how many workers, or serial. */
  method SelectBalanced(count: nat, lengths: seq<nat>, total: nat, availableThreads: nat) returns (mode: Option<nat>)
    requires |lengths| < USIZE_LIMIT && forall i :: 0 <= i < |lengths| ==> lengths[i] < USIZE_LIMIT
    ensures mode.Some? <==>
      BoundedWorkers(count, availableThreads).Some? && |lengths| == count
      && Balanced(lengths, total, BoundedWorkers(count, availableThreads).value)
    ensures mode.Some? ==> mode == BoundedWorkers(count, availableThreads)
  {
    var workers := BoundedWorkers(count, availableThreads);
    if workers.None? {
      return None;
    }
    AtMostWorkers(count, workers.value);
    var chunkSize := ChunkSize(count, workers.value);
    var largest := ScanLargest(count, lengths, chunkSize);
    if largest.None? {
      return None;
    }
    LargestIsMaximum(Chunked(lengths, chunkSize), total / 2 + total % 2);
    if largest.value > total / 2 + total % 2 {
      return None;
    }
    return workers;
  }
}
