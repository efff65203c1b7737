/**
 Choosing between serial and threaded work. Whatever the budget answers and however many threads there are, the
 mappings of disclosures, and the outcomes of issuance jobs, are the serial ones, unless the system fails a worker.
 */
module Adaptive {
  import opened Chunks
  import opened ClaimTree
  import P = Preprocessing
  import R = Restoration
  import opened Wrappers

  datatype AdaptiveError = Work(w: P.WorkError) | Thread(n: NativeError)

  /** What the surroundings answer: available threads, the worker budget, and which workers start and finish. */
  datatype Surroundings = Surroundings(threads: nat, grants: nat -> bool, spawns: nat -> bool, finishes: nat -> bool)

  function Lengths(encoded: seq<string>): (r: seq<nat>)
    ensures |r| == |encoded|
    ensures forall i :: 0 <= i < |r| ==> r[i] == |encoded[i]|
  {
    seq(|encoded|, i requires 0 <= i < |encoded| => |encoded[i]|)
  }

  /** `eligible_total_encoded_bytes`. */
  method EligibleTotal(count: nat, lengths: seq<nat>) returns (total: Option<nat>)
    requires |lengths| < USIZE_LIMIT && forall i :: 0 <= i < |lengths| ==> lengths[i] < USIZE_LIMIT
    ensures total.Some? <==>
      count >= 128 && |lengths| == count && Sum(lengths) >= 1048576
    ensures total.Some? ==> total.value == Sum(lengths)
  {
    if count < PARALLEL_MIN_DISCLOSURES {
      return None;
    }
    var observed: nat, sum: nat := 0, 0;
    while observed < |lengths|
      invariant observed <= |lengths| && observed <= count
      invariant sum == Sum(lengths[..observed]) <= observed * USIZE_LIMIT
    {
      if observed == count {
        return None;
      }
      assert lengths[..observed + 1][..observed] == lengths[..observed];
      sum := SaturatingAdd(sum, lengths[observed]);
      observed := observed + 1;
    }
    assert lengths[..observed] == lengths;
    if observed != count || sum < PARALLEL_MIN_TOTAL_ENCODED_BYTES {
      return None;
    }
    return Some(sum);
  }

  function Lift(r: Result<P.Mappings, P.WorkError>): Result<P.Mappings, AdaptiveError> {
    match r
    case Success(m) => Success(m)
    case Failure(e) => Failure(Work(e))
  }

  /** The disclosures are many, large and evenly spread, and the budget grants the workers. */
  ghost predicate GoesNative(lengths: seq<nat>, s: Surroundings) {
    && |lengths| >= 128 && Sum(lengths) >= 1048576
    && var workers := BoundedWorkers(|lengths|, s.threads);
    workers.Some? && s.grants(workers.value) && Balanced(lengths, Sum(lengths), workers.value)
  }

  /** What the native layout gives: the serial result, unless a worker is not started or panics. */
  ghost function NativeResult(encoded: seq<string>, c: Codec, workers: nat, s: Surroundings): Result<P.Mappings, AdaptiveError>
    requires encoded != [] && workers > 0
  {
    match Native(P.PlanJobs(encoded), ChunkCount(|encoded|, workers), P.Worker(c), s.spawns, s.finishes)
    case Failure(e) => Failure(Thread(e))
    case Success(_) => Lift(P.PreprocessSerial(encoded, P.Worker(c)))
  }

  /** `preprocess_disclosures_with_budget_and_thread_supplier`. */
  method PreprocessDisclosures(encoded: seq<string>, c: Codec, s: Surroundings) returns (r: Result<P.Mappings, AdaptiveError>)
    requires |encoded| < USIZE_LIMIT && forall i :: 0 <= i < |encoded| ==> |encoded[i]| < USIZE_LIMIT
    ensures r ==
      if GoesNative(Lengths(encoded), s) then NativeResult(encoded, c, BoundedWorkers(|encoded|, s.threads).value, s)
      else Lift(P.PreprocessSerial(encoded, P.Worker(c)))
  {
    var lengths := Lengths(encoded);
    var total := EligibleTotal(|encoded|, lengths);
    var workers := BoundedWorkers(|encoded|, s.threads);
    if total.None? || workers.None? || !s.grants(workers.value) {
      var serial := P.PreprocessWithWorker(encoded, P.Worker(c));
      return Lift(serial);
    }
    var mode := SelectBalanced(|encoded|, lengths, total.value, s.threads);
    if mode.None? {
      var serial := P.PreprocessWithWorker(encoded, P.Worker(c));
      return Lift(serial);
    }
    r := PreprocessParallel(encoded, c, mode.value, s);
  }

  /** `preprocess_parallel_with_lease`. */
  method PreprocessParallel(encoded: seq<string>, c: Codec, workers: nat, s: Surroundings) returns (r: Result<P.Mappings, AdaptiveError>)
    requires 0 < workers <= |encoded|
    ensures r == NativeResult(encoded, c, workers, s)
  {
    var jobs := P.PlanJobs(encoded);
    var outcomes, spawned := ExecuteNative(jobs, workers, P.Worker(c), s.spawns, s.finishes);
    if outcomes.Failure? {
      return Failure(Thread(outcomes.error));
    }
    assert outcomes.value == P.ProcessAll(encoded, c);
    P.AssembleRefinesSerial(encoded, outcomes.value, c);
    var assembled := P.AssembleDisclosures(jobs, outcomes.value);
    return Lift(assembled);
  }

  /** `NativeParallelIssuanceExecutor::execute`: all outcomes in job order, unless a worker is not started or panics. */
  method ExecuteIssuance(jobs: seq<R.IssuanceJob>, workerCount: nat, c: Codec, s: Surroundings)
    returns (r: Result<seq<R.Outcome>, NativeError>)
    ensures r ==
      if |jobs| < 2 || workerCount < 2 then Success(R.ProcessAll(jobs, c))
      else Native(jobs, ChunkCount(|jobs|, Min(workerCount, |jobs|)), IssuanceWorker(c), s.spawns, s.finishes)
    ensures r.Success? ==> r.value == R.ProcessAll(jobs, c)
  {
    if |jobs| < 2 || workerCount < 2 {
      return Success(R.ProcessAll(jobs, c));
    }
    var spawned;
    r, spawned := ExecuteNative(jobs, workerCount, IssuanceWorker(c), s.spawns, s.finishes);
    if r.Success? {
      assert r.value == R.ProcessAll(jobs, c);
    }
  }

  function IssuanceWorker(c: Codec): R.IssuanceJob -> R.Outcome {
    (job: R.IssuanceJob) => R.Process(job, c)
  }

}
