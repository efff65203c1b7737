/**
 The execution trace of the benchmark: what is recorded for each batch, the summary made of it, and the rules by which a
 route record is later accepted. Everything recorded is accepted, and an accepted record is what would be recorded.
 */
module Trace {
  import opened Chunks
  import opened Json
  import R = Restoration
  import opened WorkEstimate
  import opened Wrappers

  const MAX_PARALLEL_ISSUANCE_WORKERS := 4
  const MIN_JOBS := 2
  const MIN_ESTIMATED_WORK_BYTES := 1

  datatype EstimateStatus = NotEvaluated | Available | Overflow

  datatype Acquisition = NotTried | Acquired | Unavailable

  datatype Mode = SerialMode | NativeMode

  datatype Reason =
    | BelowMinJobs
    | WorkEstimateOverflow
    | BelowMinEstimatedWorkBytes
    | InsufficientAvailableParallelism
    | WorkerBudgetUnavailable
    | BoundedNative

  datatype ChunkTrace = ChunkTrace(ordinal: nat, jobCount: nat, work: nat)

  datatype ReadyBatch = ReadyBatch(
    ordinal: nat,
    jobCount: nat,
    work: Option<nat>,
    status: EstimateStatus,
    workGate: bool,
    parallelismGate: bool,
    budgetGate: bool,
    available: Option<nat>,
    selectedWorkers: Option<nat>,
    leasedWorkers: Option<nat>,
    acquisition: Acquisition,
    mode: Mode,
    reason: Reason,
    chunkSize: Option<nat>,
    chunks: Option<seq<ChunkTrace>>)

  // Selection

  /** The decision, and what of the estimate and of the parallelism was asked for on the way. */
  datatype Decision = Decision(reason: Reason, workers: Option<nat>, work: Option<Option<nat>>, available: Option<nat>)

  /** `select_execution_with_estimate`, with the thresholds of the benchmark; `granted` is the budget's answer. */
  function Select(jobs: seq<R.IssuanceJob>, host: nat, granted: bool): Decision {
    if |jobs| < MIN_JOBS then Decision(BelowMinJobs, None, None, None)
    else
      var work := Estimate(jobs);
      if work.None? then Decision(WorkEstimateOverflow, None, Some(None), None)
      else if work.value < MIN_ESTIMATED_WORK_BYTES then Decision(BelowMinEstimatedWorkBytes, None, Some(work), None)
      else
        var workers := Min(Min(host, MAX_PARALLEL_ISSUANCE_WORKERS), |jobs|);
        if workers < 2 then Decision(InsufficientAvailableParallelism, None, Some(work), Some(host))
        else if !granted then Decision(WorkerBudgetUnavailable, None, Some(work), Some(host))
        else Decision(BoundedNative, Some(workers), Some(work), Some(host))
  }

  // Recording

  function ChunkTraces(chunks: seq<seq<R.IssuanceJob>>): (r: seq<ChunkTrace>)
    ensures |r| == |chunks|
    ensures forall i :: 0 <= i < |r| ==> r[i] == ChunkTrace(i, |chunks[i]|, Cost(chunks[i]))
  {
    seq(|chunks|, i requires 0 <= i < |chunks| => ChunkTrace(i, |chunks[i]|, Cost(chunks[i])))
  }

  function ChunksFor(jobs: seq<R.IssuanceJob>, workers: Option<nat>): (Option<nat>, Option<seq<ChunkTrace>>)
    requires workers.Some? ==> workers.value > 0 && jobs != []
  {
    if workers.None? then (None, None)
    else
      var size := ChunkSize(|jobs|, workers.value);
      AtMostWorkers(|jobs|, workers.value);
      (Some(size), Some(ChunkTraces(Chunked(jobs, size))))
  }

  /** The record of one batch. */
  function Recorded(ordinal: nat, jobs: seq<R.IssuanceJob>, host: nat, granted: bool): ReadyBatch
    requires jobs != []
  {
    var d := Select(jobs, host, granted);
    var (size, chunks) := ChunksFor(jobs, d.workers);
    ReadyBatch(
      ordinal, |jobs|,
      if d.work.Some? then d.work.value else None,
      if d.work.None? then NotEvaluated else if d.work.value.Some? then Available else Overflow,
      d.work.Some?, d.available.Some?,
      d.reason == WorkerBudgetUnavailable || d.reason == BoundedNative,
      d.available,
      if d.available.Some? then Some(Min(Min(d.available.value, MAX_PARALLEL_ISSUANCE_WORKERS), |jobs|)) else None,
      d.workers,
      if d.workers.Some? then Acquired else if d.reason == WorkerBudgetUnavailable then Unavailable else NotTried,
      if d.workers.Some? then NativeMode else SerialMode,
      d.reason, size, chunks)
  }

  /** A batch handed to the executor, and whether the worker budget would grant it a lease. */
  datatype Batch = Batch(jobs: seq<R.IssuanceJob>, granted: bool)

  function RecordedAll(batches: seq<Batch>, host: nat): (r: seq<ReadyBatch>)
    requires forall i :: 0 <= i < |batches| ==> batches[i].jobs != []
    ensures |r| == |batches|
    ensures forall i :: 0 <= i < |r| ==> r[i] == Recorded(i, batches[i].jobs, host, batches[i].granted)
  {
    seq(|batches|, i requires 0 <= i < |batches| => Recorded(i, batches[i].jobs, host, batches[i].granted))
  }

  class ExecutionTrace {
    var readyBatches: seq<ReadyBatch>

    constructor ()
      ensures readyBatches == []
    {
      readyBatches := [];
    }

    /** `record_benchmark_ready_batch`, for the decision made on the batch. */
    method RecordReadyBatch(jobs: seq<R.IssuanceJob>, host: nat, granted: bool)
      requires jobs != []
      modifies this
      ensures readyBatches == old(readyBatches) + [Recorded(|old(readyBatches)|, jobs, host, granted)]
    {
      var d := Select(jobs, host, granted);
      var budgetGate := d.reason == WorkerBudgetUnavailable || d.reason == BoundedNative;
      var size: Option<nat>, chunks: Option<seq<ChunkTrace>> := None, None;
      if d.workers.Some? {
        AtMostWorkers(|jobs|, d.workers.value);
        var chunkSize := ChunkSize(|jobs|, d.workers.value);
        var traces := TraceChunks(jobs, chunkSize);
        size, chunks := Some(chunkSize), Some(traces);
      }
      var status := match d.work { case None => NotEvaluated case Some(Some(_)) => Available case Some(None) => Overflow };
      var selected := if d.available.Some? then Some(Min(Min(d.available.value, MAX_PARALLEL_ISSUANCE_WORKERS), |jobs|)) else None;
      var acquisition :=
        if d.workers.Some? then Acquired else if d.reason == WorkerBudgetUnavailable then Unavailable else NotTried;
      readyBatches := readyBatches + [
        ReadyBatch(|readyBatches|, |jobs|, if d.work.Some? then d.work.value else None, status, d.work.Some?, d.available.Some?,
                   budgetGate, d.available, selected, d.workers, acquisition, if d.workers.Some? then NativeMode else SerialMode,
                   d.reason, size, chunks)];
    }

    /** `summary`. */
    method Summary() returns (s: TraceSummary)
      ensures s == Summarize(readyBatches)
    {
      var native, fallback, most := 0, 0, 0;
      for i := 0 to |readyBatches|
        invariant native == NativeCount(readyBatches[..i]) <= i
        invariant fallback == FallbackCount(readyBatches[..i])
        invariant most == MostWorkers(readyBatches[..i])
      {
        var b := readyBatches[i];
        assert readyBatches[..i + 1][..i] == readyBatches[..i];
        if b.mode == NativeMode {
          native := native + 1;
        }
        if b.reason == WorkerBudgetUnavailable {
          fallback := fallback + 1;
        }
        if b.leasedWorkers.Some? {
          most := Max(most, b.leasedWorkers.value);
        }
      }
      assert readyBatches[..|readyBatches|] == readyBatches;
      return TraceSummary(|readyBatches|, |readyBatches| - native, native, fallback, most, readyBatches);
    }
  }

  /** The chunk estimates of a batch that was itself estimated never overflow. */
  method TraceChunks(jobs: seq<R.IssuanceJob>, size: nat) returns (traces: seq<ChunkTrace>)
    requires size > 0 && Estimate(jobs).Some?
    ensures traces == ChunkTraces(Chunked(jobs, size))
  {
    var chunks := Chunked(jobs, size);
    ChunkEstimates(jobs, size);
    traces := [];
    for i := 0 to |chunks|
      invariant |traces| == i && forall k :: 0 <= k < i ==> traces[k] == ChunkTrace(k, |chunks[k]|, Cost(chunks[k]))
    {
      traces := traces + [ChunkTrace(i, |chunks[i]|, Estimate(chunks[i]).value)];
    }
  }

  // Summary and route record

  datatype TraceSummary = TraceSummary(
    executorBatches: nat, serialBatches: nat, nativeBatches: nat, fallbackBatches: nat, maxWorkers: nat, readyBatches: seq<ReadyBatch>)

  function NativeCount(batches: seq<ReadyBatch>): (r: nat)
    ensures r <= |batches|
  {
    if batches == [] then 0
    else NativeCount(batches[..|batches| - 1]) + if batches[|batches| - 1].mode == NativeMode then 1 else 0
  }

  function FallbackCount(batches: seq<ReadyBatch>): nat {
    if batches == [] then 0
    else FallbackCount(batches[..|batches| - 1]) + if batches[|batches| - 1].reason == WorkerBudgetUnavailable then 1 else 0
  }

  function MostWorkers(batches: seq<ReadyBatch>): nat {
    if batches == [] then 0
    else
      var r, leased := MostWorkers(batches[..|batches| - 1]), batches[|batches| - 1].leasedWorkers;
      if leased.Some? then Max(r, leased.value) else r
  }

  function Summarize(batches: seq<ReadyBatch>): TraceSummary {
    var native := NativeCount(batches);
    TraceSummary(|batches|, |batches| - native, native, FallbackCount(batches), MostWorkers(batches), batches)
  }

  datatype Effective = MixedNativeAndSerial | AllNative | BudgetSerialFallback | ReadyBatchSerialFallback

  datatype RouteRecord = RouteRecord(effective: Effective, summary: TraceSummary, host: nat)

  /** `IssuanceBenchmarkRouteRecord::candidate`. */
  function Candidate(s: TraceSummary, host: nat): RouteRecord {
    RouteRecord(
      if s.nativeBatches != 0 && s.serialBatches != 0 then MixedNativeAndSerial
      else if s.nativeBatches != 0 then AllNative
      else if s.fallbackBatches != 0 then BudgetSerialFallback
      else ReadyBatchSerialFallback,
      s, host)
  }

  // Validation

  /** `checked_ceil_div`. */
  function CeilDiv(value: nat, divisor: nat): Option<nat> {
    if divisor == 0 then None else Fitted(value / divisor + if value % divisor == 0 then 0 else 1)
  }

  function JobsIn(chunks: seq<ChunkTrace>): nat {
    if chunks == [] then 0 else JobsIn(chunks[..|chunks| - 1]) + chunks[|chunks| - 1].jobCount
  }

  function WorkIn(chunks: seq<ChunkTrace>): nat {
    if chunks == [] then 0 else WorkIn(chunks[..|chunks| - 1]) + chunks[|chunks| - 1].work
  }

  /** How many jobs the last of `count` chunks has. */
  function Left(jobCount: nat, size: nat, count: nat): int {
    jobCount - size * (count - 1)
  }

  /** The i-th of `count` chunks: full, except that the last one has the jobs that are left. */
  ghost predicate ChunkFits(chunk: ChunkTrace, i: nat, count: nat, size: nat, left: int) {
    && chunk.ordinal == i && 0 < chunk.jobCount <= size
    && chunk.jobCount == if i + 1 == count then left else size
  }

  /** The chunks are those of the static partition and account for all jobs and all work. */
  ghost predicate ChunksValid(b: ReadyBatch, jobCount: nat, work: nat, workers: nat) {
    && b.chunkSize.Some? && b.chunks.Some?
    && var size, chunks := b.chunkSize.value, b.chunks.value;
    && CeilDiv(jobCount, workers) == Some(size)
    && CeilDiv(jobCount, size) == Some(|chunks|)
    && 0 < |chunks| <= workers
    && (forall i :: 0 <= i < |chunks| ==> ChunkFits(chunks[i], i, |chunks|, size, Left(jobCount, size, |chunks|)))
    && JobsIn(chunks) == jobCount && WorkIn(chunks) == work
  }

  lemma {:induction false} PartialSums(chunks: seq<ChunkTrace>, i: nat)
    requires i <= |chunks|
    ensures JobsIn(chunks[..i]) <= JobsIn(chunks) && WorkIn(chunks[..i]) <= WorkIn(chunks)
  {
    if i == |chunks| {
      assert chunks[..i] == chunks;
    } else {
      PartialSums(chunks[..|chunks| - 1], i);
      assert chunks[..|chunks| - 1][..i] == chunks[..i];
    }
  }

  /** `native_static_chunks_are_valid`. */
  method NativeStaticChunksAreValid(b: ReadyBatch, jobCount: nat, work: nat, workers: nat) returns (r: bool)
    requires jobCount < USIZE_LIMIT && work < USIZE_LIMIT
    ensures r <==> ChunksValid(b, jobCount, work, workers)
  {
    if b.chunkSize.None? {
      return false;
    }
    var size := b.chunkSize.value;
    if CeilDiv(jobCount, workers) != Some(size) {
      return false;
    }
    var count := CeilDiv(jobCount, size);
    if count.None? || b.chunks.None? || |b.chunks.value| != count.value || count.value == 0 || count.value > workers {
      return false;
    }
    r := ChunkLoop(b.chunks.value, count.value, size, Left(jobCount, size, count.value), jobCount, work);
  }

  method ChunkLoop(chunks: seq<ChunkTrace>, count: nat, size: nat, left: int, jobCount: nat, work: nat) returns (r: bool)
    requires jobCount < USIZE_LIMIT && work < USIZE_LIMIT && |chunks| == count > 0
    ensures r <==>
      (forall i :: 0 <= i < |chunks| ==> ChunkFits(chunks[i], i, count, size, left))
      && JobsIn(chunks) == jobCount && WorkIn(chunks) == work
  {
    var observedJobs, observedWork := 0, 0;
    for ordinal := 0 to |chunks|
      invariant forall i :: 0 <= i < ordinal ==> ChunkFits(chunks[i], i, count, size, left)
      invariant observedJobs == JobsIn(chunks[..ordinal]) < USIZE_LIMIT
      invariant observedWork == WorkIn(chunks[..ordinal]) < USIZE_LIMIT
    {
      var chunk := chunks[ordinal];
      PartialSums(chunks, ordinal + 1);
      assert chunks[..ordinal + 1][..ordinal] == chunks[..ordinal];
      var expected := if ordinal + 1 == count then left else size;
      if chunk.ordinal != ordinal || chunk.jobCount != expected || chunk.jobCount == 0 || chunk.jobCount > size {
        return false;
      }
      var nextJobs, nextWork := Plus(Fitted(observedJobs), Fitted(chunk.jobCount)), Plus(Fitted(observedWork), Fitted(chunk.work));
      if nextJobs.None? || nextWork.None? {
        return false;
      }
      observedJobs, observedWork := nextJobs.value, nextWork.value;
    }
    assert chunks[..|chunks|] == chunks;
    return observedJobs == jobCount && observedWork == work;
  }

  /** `ready_batch_serial_tail_is_unevaluated`. */
  predicate SerialTail(b: ReadyBatch) {
    && !b.parallelismGate && b.available.None? && b.selectedWorkers.None? && !b.budgetGate && b.acquisition == NotTried
    && b.mode == SerialMode && b.leasedWorkers.None? && b.chunkSize.None? && b.chunks.None?
  }

  predicate NoWorkers(b: ReadyBatch) {
    b.mode == SerialMode && b.leasedWorkers.None? && b.chunkSize.None? && b.chunks.None?
  }

  /** `ready_batch_semantics_are_valid`. */
  ghost predicate BatchValid(b: ReadyBatch, ordinal: nat, host: nat, workerCap: nat) {
    && b.ordinal == ordinal && b.jobCount != 0
    && b.workGate == (b.status != NotEvaluated) && b.work.Some? == (b.status == Available)
    && b.parallelismGate == (b.available.Some? && b.selectedWorkers.Some?)
    && b.budgetGate == (b.acquisition != NotTried)
    && if b.jobCount < 2 then b.reason == BelowMinJobs && b.status == NotEvaluated && SerialTail(b)
       else if b.status == Overflow then b.reason == WorkEstimateOverflow && SerialTail(b)
       else if b.work.None? then false
       else if b.work.value < 1 then b.reason == BelowMinEstimatedWorkBytes && SerialTail(b)
       else if b.available.None? || b.selectedWorkers.None? then false
       else
         && b.available.value == host && host != 0
         && b.selectedWorkers.value == Min(Min(host, workerCap), b.jobCount)
         && if b.selectedWorkers.value < 2 then
              b.reason == InsufficientAvailableParallelism && b.acquisition == NotTried && NoWorkers(b)
            else if b.acquisition == Unavailable then b.reason == WorkerBudgetUnavailable && NoWorkers(b)
            else
              && b.acquisition == Acquired && b.reason == BoundedNative && b.mode == NativeMode
              && b.leasedWorkers == b.selectedWorkers
              && ChunksValid(b, b.jobCount, b.work.value, b.selectedWorkers.value)
  }

  /** `route_record_semantics_are_valid`, for the adaptive candidate on a target with native workers. */
  ghost predicate RouteValid(r: RouteRecord) {
    var s, batches := r.summary, r.summary.readyBatches;
    var native, fallback := NativeCount(batches), FallbackCount(batches);
    && r.host != 0
    && (forall i :: 0 <= i < |batches| ==> BatchValid(batches[i], i, r.host, 4))
    && s.executorBatches == |batches| && s.serialBatches == |batches| - native
    && s.nativeBatches == native && s.fallbackBatches == fallback
    && fallback <= s.serialBatches
    && s.maxWorkers == MostWorkers(batches) && s.maxWorkers <= 4
    && r.effective ==
       if native > 0 && s.serialBatches > 0 then MixedNativeAndSerial
       else if native > 0 then AllNative
       else if fallback > 0 then BudgetSerialFallback
       else ReadyBatchSerialFallback
  }

  // Everything recorded is accepted

  lemma {:induction false} TracesAddUp(chunks: seq<seq<R.IssuanceJob>>)
    ensures JobsIn(ChunkTraces(chunks)) == |Concat(chunks)| && WorkIn(ChunkTraces(chunks)) == CostChunks(chunks)
  {
    if chunks != [] {
      var n := |chunks| - 1;
      TracesAddUp(chunks[..n]);
      assert ChunkTraces(chunks)[..n] == ChunkTraces(chunks[..n]);
    }
  }

  /** The chunks of a batch fit the static partition. */
  lemma ChunkShapes(jobs: seq<R.IssuanceJob>, size: nat, i: nat)
    requires size > 0 && i < |Chunked(jobs, size)|
    ensures var chunks := Chunked(jobs, size);
      ChunkFits(ChunkTrace(i, |chunks[i]|, Cost(chunks[i])), i, |chunks|, size, Left(|jobs|, size, |chunks|))
  {
    var chunks := Chunked(jobs, size);
    ChunksAreSlices(jobs, size);
    if i + 1 < |chunks| {
      assert (i + 1) * size < |jobs|;
    }
    SliceShape(|jobs|, size, i, |chunks|);
  }

  /** The length of the slice at `i`, among `count` of them. */
  lemma SliceShape(jobCount: nat, size: nat, i: nat, count: nat)
    requires size > 0 && i * size < jobCount && i < count == ChunkSize(jobCount, size)
    requires i + 1 < count ==> (i + 1) * size < jobCount
    ensures var length := Min(i * size + size, jobCount) - i * size;
      0 < length <= size && length == if i + 1 == count then Left(jobCount, size, count) else size
  {
    SliceLength(jobCount, size, i);
    if i + 1 == count {
      LastShape(jobCount, size, i);
    }
  }

  lemma SliceLength(jobCount: nat, size: nat, i: nat)
    requires i * size < jobCount
    ensures (i + 1) * size == i * size + size && i * size == size * i
    ensures Min(i * size + size, jobCount) - i * size == if i * size + size <= jobCount then size else jobCount - i * size
  {
  }

  lemma LastShape(jobCount: nat, size: nat, i: nat)
    requires size > 0 && i * size < jobCount && i + 1 == ChunkSize(jobCount, size)
    ensures jobCount <= i * size + size && i * size == size * i
  {
    var q, rest := jobCount / size, jobCount % size;
    assert jobCount == size * q + rest;
    if rest == 0 {
      assert q == i + 1;
      assert size * (i + 1) == size * i + size;
    } else {
      assert q == i;
    }
  }

  lemma RecordedChunksValid(b: ReadyBatch, jobs: seq<R.IssuanceJob>, workers: nat)
    requires 2 <= workers <= |jobs| < USIZE_LIMIT && Estimate(jobs).Some?
    requires (b.chunkSize, b.chunks) == ChunksFor(jobs, Some(workers))
    ensures ChunksValid(b, |jobs|, Estimate(jobs).value, workers)
  {
    var size := ChunkSize(|jobs|, workers);
    AtMostWorkers(|jobs|, workers);
    QuotientFits(|jobs|, workers);
    QuotientFits(|jobs|, size);
    PartitionTraced(jobs, size);
  }

  /** The traces of a partition account for every job and all work, chunk by chunk. */
  lemma PartitionTraced(jobs: seq<R.IssuanceJob>, size: nat)
    requires size > 0 && jobs != [] && Estimate(jobs).Some?
    ensures var traces := ChunkTraces(Chunked(jobs, size));
      var left := Left(|jobs|, size, |traces|);
      && |traces| == ChunkSize(|jobs|, size) > 0
      && (forall i :: 0 <= i < |traces| ==> ChunkFits(traces[i], i, |traces|, size, left))
      && JobsIn(traces) == |jobs| && WorkIn(traces) == Estimate(jobs).value
  {
    var chunks := Chunked(jobs, size);
    ChunksAreSlices(jobs, size);
    ChunksConcat(jobs, size);
    ChunkEstimates(jobs, size);
    TracesAddUp(chunks);
    var left := Left(|jobs|, size, |chunks|);
    forall i | 0 <= i < |chunks| ensures ChunkFits(ChunkTraces(chunks)[i], i, |chunks|, size, left) {
      ChunkShapes(jobs, size, i);
    }
  }

  lemma QuotientFits(value: nat, divisor: nat)
    requires 0 < divisor && 0 < value < USIZE_LIMIT
    ensures CeilDiv(value, divisor) == Some(ChunkSize(value, divisor))
  {
    assert value == divisor * (value / divisor) + value % divisor;
    if divisor >= 2 {
      assert divisor * (value / divisor) >= 2 * (value / divisor);
    }
  }

  lemma RecordedIsValid(ordinal: nat, jobs: seq<R.IssuanceJob>, host: nat, granted: bool)
    requires 0 < |jobs| < USIZE_LIMIT && host > 0
    ensures BatchValid(Recorded(ordinal, jobs, host, granted), ordinal, host, 4)
  {
    var d := Select(jobs, host, granted);
    if d.workers.Some? {
      RecordedChunksValid(Recorded(ordinal, jobs, host, granted), jobs, d.workers.value);
    }
  }

  /** Any batches, any answers of the budget: the record of the trace is accepted. */
  lemma TraceIsAccepted(batches: seq<Batch>, host: nat)
    requires host > 0 && forall i :: 0 <= i < |batches| ==> 0 < |batches[i].jobs| < USIZE_LIMIT
    ensures RouteValid(Candidate(Summarize(RecordedAll(batches, host)), host))
  {
    var recorded := RecordedAll(batches, host);
    forall i | 0 <= i < |recorded| ensures BatchValid(recorded[i], i, host, 4) {
      RecordedIsValid(i, batches[i].jobs, host, batches[i].granted);
    }
    CountsOfValid(recorded, host);
  }

  lemma {:induction false} CountsOfValid(batches: seq<ReadyBatch>, host: nat)
    requires forall i :: 0 <= i < |batches| ==> BatchValid(batches[i], i, host, 4)
    ensures FallbackCount(batches) + NativeCount(batches) <= |batches|
    ensures MostWorkers(batches) <= 4
  {
    if batches != [] {
      var n := |batches| - 1;
      assert forall i :: 0 <= i < n ==> batches[..n][i] == batches[i];
      CountsOfValid(batches[..n], host);
      assert BatchValid(batches[n], n, host, 4);
    }
  }

  // What is accepted is what would be recorded

  /** The work figures of a record are the estimates of these jobs. */
  ghost predicate Honest(b: ReadyBatch, jobs: seq<R.IssuanceJob>) {
    && b.jobCount == |jobs|
    && (b.status != NotEvaluated ==> b.work == Estimate(jobs))
    && (b.chunks.Some? && b.chunkSize.Some? && b.chunkSize.value > 0 ==>
          forall i :: 0 <= i < |b.chunks.value| && i < |Chunked(jobs, b.chunkSize.value)| ==>
            b.chunks.value[i].work == Cost(Chunked(jobs, b.chunkSize.value)[i]))
  }

  /** An accepted record with honest work figures is the one recorded for its jobs, for the budget's answer it shows. */
  lemma AcceptedIsRecorded(b: ReadyBatch, ordinal: nat, jobs: seq<R.IssuanceJob>, host: nat)
    requires BatchValid(b, ordinal, host, 4) && Honest(b, jobs) && 0 < |jobs| < USIZE_LIMIT
    ensures b == Recorded(ordinal, jobs, host, b.acquisition == Acquired)
  {
    if b.reason == BoundedNative {
      var size := b.chunkSize.value;
      AtMostWorkers(|jobs|, b.selectedWorkers.value);
      QuotientFits(|jobs|, b.selectedWorkers.value);
      QuotientFits(|jobs|, size);
      AcceptedChunks(b, jobs, size);
    }
  }

  lemma AcceptedChunks(b: ReadyBatch, jobs: seq<R.IssuanceJob>, size: nat)
    requires Honest(b, jobs) && size > 0 && b.chunkSize == Some(size) && jobs != []
    requires b.chunks.Some? && |b.chunks.value| == ChunkSize(|jobs|, size)
    requires forall i :: 0 <= i < |b.chunks.value| ==>
      ChunkFits(b.chunks.value[i], i, |b.chunks.value|, size, Left(|jobs|, size, |b.chunks.value|))
    ensures b.chunks.value == ChunkTraces(Chunked(jobs, size))
  {
    ChunksAreSlices(jobs, size);
    forall i | 0 <= i < |b.chunks.value| ensures b.chunks.value[i] == ChunkTraces(Chunked(jobs, size))[i] {
      ChunkShapes(jobs, size, i);
      assert ChunkFits(b.chunks.value[i], i, |b.chunks.value|, size, Left(|jobs|, size, |b.chunks.value|));
    }
  }
}
