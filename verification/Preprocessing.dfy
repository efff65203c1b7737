/**
 Turning presented disclosures into digest mappings. The serial form stops at the first bad disclosure; the other
 form takes worker outcomes in any order, sorts and validates them, and folds. Both give the same answer.
 */
module Preprocessing {
  import opened ClaimTree
  import opened Json
  import opened Sequences
  import Unpacking
  import opened Wrappers

  type DigestMap = Unpacking.DigestMap

  datatype Job = Job(ordinal: nat, encoded: string)

  datatype Processed = Processed(digest: string, decoded: Value)

  datatype WorkError =
    | InvalidDisclosure(encoded: string)
    | DuplicateDigest
    | NoResult(ordinal: nat)
    | WrongOrdinal(ordinal: nat)
    | ChangedIdentity(ordinal: nat)
    | JobOrdinalMismatch(ordinal: nat)
    | OutcomeOutOfRange(ordinal: nat)
    | RepeatedOutcome(ordinal: nat)
    | MissingOutcome(ordinal: nat)

  datatype Outcome = Outcome(ordinal: nat, encoded: string, result: Option<Result<Processed, WorkError>>)

  datatype Mappings = Mappings(decoded: DigestMap, encoded: map<string, string>, digests: seq<string>)

  const NoMappings := Mappings(map[], map[], [])

  /** `process_disclosure`: decode, parse and hash one disclosure. */
  function Process(job: Job, c: Codec): Outcome {
    var decoded := c.decode(job.encoded);
    Outcome(job.ordinal, job.encoded,
            Some(if decoded.Some? then Success(Processed(c.hash(job.encoded), decoded.value)) else Failure(InvalidDisclosure(job.encoded))))
  }

  function Worker(c: Codec): Job -> Outcome {
    job => Process(job, c)
  }

  /** Publish one result, unless it is missing, failed or repeats a digest. */
  function Absorb(m: Mappings, o: Outcome): Result<Mappings, WorkError> {
    if o.result.None? then Failure(NoResult(o.ordinal))
    else
      var p :- o.result.value;
      if p.digest in m.decoded then Failure(DuplicateDigest)
      else Success(Mappings(m.decoded[p.digest := p.decoded], m.encoded[p.digest := o.encoded], m.digests + [p.digest]))
  }

  // The serial form

  function PreprocessSerial(encoded: seq<string>, worker: Job -> Outcome): Result<Mappings, WorkError> {
    if encoded == [] then Success(NoMappings)
    else
      var n := |encoded| - 1;
      var m :- PreprocessSerial(encoded[..n], worker);
      SerialStep(m, n, encoded[n], worker)
  }

  function SerialStep(m: Mappings, ordinal: nat, encoded: string, worker: Job -> Outcome): Result<Mappings, WorkError> {
    var o := worker(Job(ordinal, encoded));
    if o.ordinal != ordinal then Failure(WrongOrdinal(ordinal))
    else if o.encoded != encoded then Failure(ChangedIdentity(ordinal))
    else Absorb(m, o)
  }

  /** `preprocess_with_worker`. */
  method PreprocessWithWorker(encoded: seq<string>, worker: Job -> Outcome) returns (r: Result<Mappings, WorkError>)
    ensures r == PreprocessSerial(encoded, worker)
  {
    var decodedMap: DigestMap, encodedMap: map<string, string>, digests: seq<string> := map[], map[], [];
    for ordinal := 0 to |encoded|
      invariant PreprocessSerial(encoded[..ordinal], worker) == Success(Mappings(decodedMap, encodedMap, digests))
    {
      SerialPrefix(encoded, ordinal + 1, worker);
      assert encoded[..ordinal + 1][..ordinal] == encoded[..ordinal];
      var outcome := worker(Job(ordinal, encoded[ordinal]));
      if outcome.ordinal != ordinal {
        return Failure(WrongOrdinal(ordinal));
      }
      if outcome.encoded != encoded[ordinal] {
        return Failure(ChangedIdentity(ordinal));
      }
      if outcome.result.None? {
        return Failure(NoResult(ordinal));
      }
      if outcome.result.value.Failure? {
        return Failure(outcome.result.value.error);
      }
      var processed := outcome.result.value.value;
      if processed.digest in decodedMap {
        return Failure(DuplicateDigest);
      }
      encodedMap := encodedMap[processed.digest := encoded[ordinal]];
      digests := digests + [processed.digest];
      decodedMap := decodedMap[processed.digest := processed.decoded];
    }
    assert encoded[..|encoded|] == encoded;
    return Success(Mappings(decodedMap, encodedMap, digests));
  }

  /** The serial form is fail-fast: an error in a prefix is the error of the whole. */
  lemma {:induction false} SerialPrefix(encoded: seq<string>, i: nat, worker: Job -> Outcome)
    requires i <= |encoded|
    ensures PreprocessSerial(encoded[..i], worker).Failure? ==>
      PreprocessSerial(encoded, worker) == PreprocessSerial(encoded[..i], worker)
  {
    if i == |encoded| {
      assert encoded[..i] == encoded;
    } else {
      var n := |encoded| - 1;
      SerialPrefix(encoded[..n], i, worker);
      assert encoded[..n][..i] == encoded[..i];
    }
  }

  // The order-independent form

  function InsertOutcome(o: Outcome, os: seq<Outcome>): seq<Outcome> {
    if os == [] then [o]
    else
      var n := |os| - 1;
      if os[n].ordinal <= o.ordinal then os + [o] else InsertOutcome(o, os[..n]) + [os[n]]
  }

  /** A stable sort by ordinal. */
  function SortOutcomes(os: seq<Outcome>): seq<Outcome> {
    if os == [] then []
    else
      var n := |os| - 1;
      InsertOutcome(os[n], SortOutcomes(os[..n]))
  }

  ghost predicate SortedByOrdinal(os: seq<Outcome>) {
    forall i, j :: 0 <= i <= j < |os| ==> os[i].ordinal <= os[j].ordinal
  }

  function JobsError(jobs: seq<Job>): Option<WorkError> {
    if jobs == [] then None
    else
      var n := |jobs| - 1;
      var r := JobsError(jobs[..n]);
      if r.Some? then r else if jobs[n].ordinal != n then Some(JobOrdinalMismatch(n)) else None
  }

  function RangeError(os: seq<Outcome>, count: nat): Option<WorkError> {
    if os == [] then None
    else
      var n := |os| - 1;
      var r := RangeError(os[..n], count);
      if r.Some? then r else if os[n].ordinal >= count then Some(OutcomeOutOfRange(os[n].ordinal)) else None
  }

  function RepeatError(os: seq<Outcome>): Option<WorkError> {
    if |os| < 2 then None
    else
      var n := |os| - 1;
      var r := RepeatError(os[..n]);
      if r.Some? then r else if os[n - 1].ordinal == os[n].ordinal then Some(RepeatedOutcome(os[n].ordinal)) else None
  }

  function MatchError(os: seq<Outcome>, jobs: seq<Job>): Option<WorkError> {
    if os == [] then None
    else
      var n := |os| - 1;
      var r := MatchError(os[..n], jobs);
      if r.Some? then r
      else if os[n].ordinal != n then Some(MissingOutcome(n))
      else if n < |jobs| && os[n].encoded != jobs[n].encoded then Some(ChangedIdentity(n))
      else None
  }

  /** `validate_outcome_contract`, on sorted outcomes. */
  function ContractError(jobs: seq<Job>, os: seq<Outcome>): Option<WorkError> {
    var e1 := JobsError(jobs);
    if e1.Some? then e1
    else
      var e2 := RangeError(os, |jobs|);
      if e2.Some? then e2
      else
        var e3 := RepeatError(os);
        if e3.Some? then e3
        else
          var e4 := MatchError(os, jobs);
          if e4.Some? then e4
          else if |os| < |jobs| then Some(MissingOutcome(|os|))
          else None
  }

  function AbsorbAll(os: seq<Outcome>): Result<Mappings, WorkError> {
    if os == [] then Success(NoMappings)
    else
      var n := |os| - 1;
      var m :- AbsorbAll(os[..n]);
      Absorb(m, os[n])
  }

  /** `assemble_disclosures`. */
  function Assemble(jobs: seq<Job>, outcomes: seq<Outcome>): Result<Mappings, WorkError> {
    var os := SortOutcomes(outcomes);
    var e := ContractError(jobs, os);
    if e.Some? then Failure(e.value) else AbsorbAll(os)
  }

  /** `plan_disclosures`. */
  function PlanJobs(encoded: seq<string>): (jobs: seq<Job>)
    ensures |jobs| == |encoded|
  {
    seq(|encoded|, i requires 0 <= i < |encoded| => Job(i, encoded[i]))
  }

  method AssembleDisclosures(jobs: seq<Job>, outcomes: seq<Outcome>) returns (r: Result<Mappings, WorkError>)
    ensures r == Assemble(jobs, outcomes)
  {
    var os := SortOutcomes(outcomes);
    var e := ContractError(jobs, os);
    if e.Some? {
      return Failure(e.value);
    }
    var decodedMap: DigestMap, encodedMap: map<string, string>, digests: seq<string> := map[], map[], [];
    for i := 0 to |os|
      invariant AbsorbAll(os[..i]) == Success(Mappings(decodedMap, encodedMap, digests))
    {
      AbsorbPrefix(os, i + 1);
      assert os[..i + 1][..i] == os[..i];
      if os[i].result.None? {
        return Failure(NoResult(os[i].ordinal));
      }
      if os[i].result.value.Failure? {
        return Failure(os[i].result.value.error);
      }
      var processed := os[i].result.value.value;
      if processed.digest in decodedMap {
        return Failure(DuplicateDigest);
      }
      encodedMap := encodedMap[processed.digest := os[i].encoded];
      digests := digests + [processed.digest];
      decodedMap := decodedMap[processed.digest := processed.decoded];
    }
    assert os[..|os|] == os;
    return Success(Mappings(decodedMap, encodedMap, digests));
  }

  lemma {:induction false} AbsorbPrefix(os: seq<Outcome>, i: nat)
    requires i <= |os|
    ensures AbsorbAll(os[..i]).Failure? ==> AbsorbAll(os) == AbsorbAll(os[..i])
  {
    if i == |os| {
      assert os[..i] == os;
    } else {
      var n := |os| - 1;
      AbsorbPrefix(os[..n], i);
      assert os[..n][..i] == os[..i];
    }
  }

  // Sorting forgets the order of completion

  lemma {:induction false} InsertKeeps(o: Outcome, os: seq<Outcome>)
    ensures multiset(InsertOutcome(o, os)) == multiset(os) + multiset{o}
  {
    if os != [] {
      var n := |os| - 1;
      assert os == os[..n] + [os[n]];
      InsertKeeps(o, os[..n]);
    }
  }

  lemma {:induction false} SortKeeps(os: seq<Outcome>)
    ensures multiset(SortOutcomes(os)) == multiset(os)
  {
    if os != [] {
      var n := |os| - 1;
      assert os == os[..n] + [os[n]];
      SortKeeps(os[..n]);
      InsertKeeps(os[n], SortOutcomes(os[..n]));
    }
  }

  lemma {:induction false} InsertSorts(o: Outcome, os: seq<Outcome>)
    requires SortedByOrdinal(os)
    ensures SortedByOrdinal(InsertOutcome(o, os))
  {
    if os != [] {
      var n := |os| - 1;
      if os[n].ordinal > o.ordinal {
        InsertSorts(o, os[..n]);
        InsertKeeps(o, os[..n]);
        var r := InsertOutcome(o, os[..n]);
        forall i | 0 <= i < |r| ensures r[i].ordinal <= os[n].ordinal {
          assert r[i] in multiset(r);
          assert r[i] in os[..n] || r[i] == o;
        }
      }
    }
  }

  lemma {:induction false} SortSorts(os: seq<Outcome>)
    ensures SortedByOrdinal(SortOutcomes(os))
  {
    if os != [] {
      var n := |os| - 1;
      SortSorts(os[..n]);
      InsertSorts(os[n], SortOutcomes(os[..n]));
    }
  }

  ghost function Ordinals(os: seq<Outcome>): seq<nat> {
    seq(|os|, i requires 0 <= i < |os| => os[i].ordinal)
  }

  /** Sorted reorderings of the same outcomes carry the same ordinals in the same places. */
  lemma OrdinalsAgree(a: seq<Outcome>, b: seq<Outcome>)
    requires SortedByOrdinal(a) && SortedByOrdinal(b) && multiset(a) == multiset(b)
    ensures Ordinals(a) == Ordinals(b)
  {
    var ordinal := (o: Outcome) => o.ordinal;
    MapPermutes(a, b, ordinal);
    assert Ordinals(a) == Mapped(a, ordinal) && Ordinals(b) == Mapped(b, ordinal);
    AscendingUnique(Ordinals(a), Ordinals(b));
  }

  // Errors found before the outcomes are matched with jobs depend on the ordinals alone

  lemma {:induction false} EarlyErrorsAgree(a: seq<Outcome>, b: seq<Outcome>, count: nat)
    requires Ordinals(a) == Ordinals(b)
    ensures RangeError(a, count) == RangeError(b, count) && RepeatError(a) == RepeatError(b)
    decreases |a|
  {
    assert |a| == |Ordinals(a)| && |b| == |Ordinals(b)|;
    if a != [] {
      var n := |a| - 1;
      assert forall i :: 0 <= i < |a| ==> Ordinals(a)[i] == a[i].ordinal && Ordinals(b)[i] == b[i].ordinal;
      assert Ordinals(a[..n]) == Ordinals(a)[..n] && Ordinals(b[..n]) == Ordinals(b)[..n];
      EarlyErrorsAgree(a[..n], b[..n], count);
      assert n >= 1 ==> a[n - 1].ordinal == b[n - 1].ordinal;
    }
  }

  lemma {:induction false} NoRepeatMeansStrict(os: seq<Outcome>)
    requires SortedByOrdinal(os) && RepeatError(os).None?
    ensures forall i, j :: 0 <= i < j < |os| ==> os[i].ordinal < os[j].ordinal
  {
    if |os| >= 2 {
      var n := |os| - 1;
      NoRepeatMeansStrict(os[..n]);
      forall i, j | 0 <= i < j < |os| ensures os[i].ordinal < os[j].ordinal {
        if j < n {
          assert os[..n][i].ordinal < os[..n][j].ordinal;
        } else {
          assert os[i].ordinal <= os[n - 1].ordinal;
        }
      }
    }
  }

  /** Without repeated ordinals there is only one sorted order. */
  lemma StrictlySortedAgree(a: seq<Outcome>, b: seq<Outcome>)
    requires multiset(a) == multiset(b) && Ordinals(a) == Ordinals(b)
    requires forall i, j :: 0 <= i < j < |a| ==> a[i].ordinal < a[j].ordinal
    ensures a == b
  {
    assert |a| == |Ordinals(a)| == |Ordinals(b)| == |b|;
    forall i | 0 <= i < |a| ensures a[i] == b[i] {
      assert b[i] in multiset(a);
      var j :| 0 <= j < |a| && a[j] == b[i];
      assert Ordinals(a)[i] == a[i].ordinal && Ordinals(b)[i] == b[i].ordinal;
    }
  }

  /** The order in which workers complete does not matter, whatever they return. */
  lemma AssembleIgnoresOrder(jobs: seq<Job>, a: seq<Outcome>, b: seq<Outcome>)
    requires multiset(a) == multiset(b)
    ensures Assemble(jobs, a) == Assemble(jobs, b)
  {
    var sa, sb := SortOutcomes(a), SortOutcomes(b);
    SortSorts(a);
    SortSorts(b);
    SortKeeps(a);
    SortKeeps(b);
    OrdinalsAgree(sa, sb);
    EarlyErrorsAgree(sa, sb, |jobs|);
    if RepeatError(sa).None? {
      NoRepeatMeansStrict(sa);
      StrictlySortedAgree(sa, sb);
    }
  }

  // Refinement of the serial form

  function ProcessAll(encoded: seq<string>, c: Codec): (r: seq<Outcome>)
    ensures |r| == |encoded|
    ensures forall i :: 0 <= i < |r| ==> r[i] == Process(Job(i, encoded[i]), c)
  {
    seq(|encoded|, i requires 0 <= i < |encoded| => Process(Job(i, encoded[i]), c))
  }

  lemma {:induction false} SortFixpoint(os: seq<Outcome>)
    requires SortedByOrdinal(os)
    ensures SortOutcomes(os) == os
  {
    if os != [] {
      var n := |os| - 1;
      SortFixpoint(os[..n]);
      InsertLast(os[n], os[..n]);
      assert os == os[..n] + [os[n]];
    }
  }

  lemma InsertLast(o: Outcome, os: seq<Outcome>)
    requires os != [] ==> os[|os| - 1].ordinal <= o.ordinal
    ensures InsertOutcome(o, os) == os + [o]
  {
  }

  lemma {:induction false} PlannedJobsOk(encoded: seq<string>, k: nat)
    requires k <= |encoded|
    ensures JobsError(PlanJobs(encoded)[..k]).None?
  {
    if k > 0 {
      PlannedJobsOk(encoded, k - 1);
      assert PlanJobs(encoded)[..k][..k - 1] == PlanJobs(encoded)[..k - 1];
    }
  }

  lemma {:induction false} HonestOutcomesOk(encoded: seq<string>, k: nat, c: Codec)
    requires k <= |encoded|
    ensures var os, jobs := ProcessAll(encoded, c)[..k], PlanJobs(encoded);
      RangeError(os, |jobs|).None? && RepeatError(os).None? && MatchError(os, jobs).None?
  {
    if k > 0 {
      HonestOutcomesOk(encoded, k - 1, c);
      assert ProcessAll(encoded, c)[..k][..k - 1] == ProcessAll(encoded, c)[..k - 1];
    }
  }

  lemma {:induction false} FoldIsSerial(encoded: seq<string>, k: nat, c: Codec)
    requires k <= |encoded|
    ensures AbsorbAll(ProcessAll(encoded, c)[..k]) == PreprocessSerial(encoded[..k], Worker(c))
  {
    if k > 0 {
      FoldIsSerial(encoded, k - 1, c);
      assert ProcessAll(encoded, c)[..k][..k - 1] == ProcessAll(encoded, c)[..k - 1];
      assert encoded[..k][..k - 1] == encoded[..k - 1];
    }
  }

  /**
   Honest outcomes in any order give the serial result: the same mappings and digests, or the same error, that of
   the lowest ordinal at which a disclosure is malformed or repeats a digest.
   */
  lemma AssembleRefinesSerial(encoded: seq<string>, outcomes: seq<Outcome>, c: Codec)
    requires multiset(outcomes) == multiset(ProcessAll(encoded, c))
    ensures Assemble(PlanJobs(encoded), outcomes) == PreprocessSerial(encoded, Worker(c))
  {
    var os, jobs := ProcessAll(encoded, c), PlanJobs(encoded);
    AssembleIgnoresOrder(jobs, outcomes, os);
    SortFixpoint(os);
    PlannedJobsOk(encoded, |encoded|);
    HonestOutcomesOk(encoded, |encoded|, c);
    FoldIsSerial(encoded, |encoded|, c);
    assert os[..|encoded|] == os && jobs[..|encoded|] == jobs && encoded[..|encoded|] == encoded;
  }
}
