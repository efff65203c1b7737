/**
 Preprocessing the disclosures of many credentials at once: one plan of jobs, any executor, and an assembly that sorts,
 validates and folds. On genuine outcomes it splits into independent credentials.
 */
module Batch {
  import opened ClaimTree
  import Compact
  import P = Preprocessing
  import opened Sequences
  import opened Wrappers

  const MAX_DISCLOSURE_BATCH_CREDENTIALS := 1024

  datatype JobId = JobId(credential: nat, ordinal: nat)

  datatype BatchJob = BatchJob(planId: nat, id: JobId, encoded: string)

  datatype BatchOutcome = BatchOutcome(planId: nat, id: JobId, encoded: string, result: Option<Result<P.Processed, P.WorkError>>)

  datatype Plan = Plan(planId: nat, counts: seq<nat>, jobs: seq<BatchJob>)

  datatype CredentialMappings = CredentialMappings(credential: nat, mappings: P.Mappings)

  datatype BatchError =
    | CredentialLimit
    | DisclosureLimit
    | DisclosureSize
    | InputSize
    | ForeignPlan(id: JobId)
    | MissingOrDuplicate(id: JobId)
    | EncodedChanged(id: JobId)
    | NoOutcome(id: JobId)
    | ExtraOutcome
    | Work(e: P.WorkError)

  // The plan

  function CredentialJobs(planId: nat, credential: nat, disclosures: seq<string>): (jobs: seq<BatchJob>)
    ensures |jobs| == |disclosures|
    ensures forall i :: 0 <= i < |jobs| ==> jobs[i] == BatchJob(planId, JobId(credential, i), disclosures[i])
  {
    seq(|disclosures|, i requires 0 <= i < |disclosures| => BatchJob(planId, JobId(credential, i), disclosures[i]))
  }

  function JobsOf(planId: nat, credentials: seq<seq<string>>): seq<BatchJob> {
    if credentials == [] then []
    else
      var n := |credentials| - 1;
      JobsOf(planId, credentials[..n]) + CredentialJobs(planId, n, credentials[n])
  }

  function Counts(credentials: seq<seq<string>>): (r: seq<nat>)
    ensures |r| == |credentials|
    ensures forall i :: 0 <= i < |r| ==> r[i] == |credentials[i]|
  {
    seq(|credentials|, i requires 0 <= i < |credentials| => |credentials[i]|)
  }

  function Sum(counts: seq<nat>): nat {
    if counts == [] then 0 else Sum(counts[..|counts| - 1]) + counts[|counts| - 1]
  }

  function Bytes(disclosures: seq<string>): nat {
    if disclosures == [] then 0 else Bytes(disclosures[..|disclosures| - 1]) + |disclosures[|disclosures| - 1]|
  }

  function AllBytes(credentials: seq<seq<string>>): nat {
    if credentials == [] then 0 else AllBytes(credentials[..|credentials| - 1]) + Bytes(credentials[|credentials| - 1])
  }

  /** The limits of a batch. */
  ghost predicate Affordable(credentials: seq<seq<string>>) {
    && |credentials| <= 1024 && Sum(Counts(credentials)) <= 8192 && AllBytes(credentials) <= 2097152
    && forall i :: 0 <= i < |credentials| ==> ShortTexts(credentials[i])
  }

  predicate ShortTexts(disclosures: seq<string>) {
    forall k :: 0 <= k < |disclosures| ==> |disclosures[k]| <= 65536
  }

  /** The running totals of a batch. */
  datatype Totals = Totals(jobs: nat, bytes: nat)

  function CountText(bytes: nat, disclosure: string): Result<nat, BatchError> {
    if |disclosure| > Compact.MAX_SD_JWT_DISCLOSURE_BYTES then Failure(DisclosureSize)
    else if bytes + |disclosure| > Compact.MAX_SD_JWT_INPUT_BYTES then Failure(InputSize)
    else Success(bytes + |disclosure|)
  }

  function CountTexts(bytes: nat, disclosures: seq<string>): Result<nat, BatchError> {
    if disclosures == [] then Success(bytes)
    else
      var n := |disclosures| - 1;
      var r :- CountTexts(bytes, disclosures[..n]);
      CountText(r, disclosures[n])
  }

  function CountCredential(t: Totals, disclosures: seq<string>): Result<Totals, BatchError> {
    if t.jobs + |disclosures| > Compact.MAX_SD_JWT_DISCLOSURES then Failure(DisclosureLimit)
    else
      var bytes :- CountTexts(t.bytes, disclosures);
      Success(Totals(t.jobs + |disclosures|, bytes))
  }

  /** The totals of the credentials in caller order, up to the first limit that is passed. */
  function CountAll(credentials: seq<seq<string>>): Result<Totals, BatchError> {
    if credentials == [] then Success(Totals(0, 0))
    else
      var n := |credentials| - 1;
      var t :- CountAll(credentials[..n]);
      CountCredential(t, credentials[n])
  }

  /** The plan of a batch: the jobs of all credentials in caller order, unless a limit is passed. */
  function Planned(planId: nat, credentials: seq<seq<string>>): Result<Plan, BatchError> {
    if |credentials| > MAX_DISCLOSURE_BATCH_CREDENTIALS then Failure(CredentialLimit)
    else
      var t :- CountAll(credentials);
      Success(PlanFor(planId, credentials))
  }

  method AddBytes(disclosures: seq<string>, total: nat) returns (r: Result<nat, BatchError>)
    ensures r == CountTexts(total, disclosures)
  {
    var totalBytes := total;
    for k := 0 to |disclosures|
      invariant CountTexts(total, disclosures[..k]) == Success(totalBytes)
    {
      TextsNext(total, disclosures, k);
      if |disclosures[k]| > Compact.MAX_SD_JWT_DISCLOSURE_BYTES {
        return Failure(DisclosureSize);
      }
      if totalBytes + |disclosures[k]| > Compact.MAX_SD_JWT_INPUT_BYTES {
        return Failure(InputSize);
      }
      totalBytes := totalBytes + |disclosures[k]|;
    }
    assert disclosures[..|disclosures|] == disclosures;
    return Success(totalBytes);
  }

  method CheckLimits(credentials: seq<seq<string>>) returns (r: Result<Totals, BatchError>)
    ensures r == CountAll(credentials)
  {
    var totalJobs: nat, totalBytes: nat := 0, 0;
    for i := 0 to |credentials|
      invariant CountAll(credentials[..i]) == Success(Totals(totalJobs, totalBytes))
    {
      CredentialsNext(credentials, i);
      totalJobs := totalJobs + |credentials[i]|;
      if totalJobs > Compact.MAX_SD_JWT_DISCLOSURES {
        return Failure(DisclosureLimit);
      }
      totalBytes :- AddBytes(credentials[i], totalBytes);
    }
    assert credentials[..|credentials|] == credentials;
    return Success(Totals(totalJobs, totalBytes));
  }

  /** `DisclosureVerificationBatchPlan::new`. */
  method NewPlan(credentials: seq<seq<string>>, planId: nat) returns (r: Result<Plan, BatchError>)
    ensures r == Planned(planId, credentials)
  {
    if |credentials| > MAX_DISCLOSURE_BATCH_CREDENTIALS {
      return Failure(CredentialLimit);
    }
    var _ :- CheckLimits(credentials);
    var jobs := [];
    for i := 0 to |credentials|
      invariant jobs == JobsOf(planId, credentials[..i])
    {
      assert credentials[..i + 1][..i] == credentials[..i];
      jobs := jobs + CredentialJobs(planId, i, credentials[i]);
    }
    assert credentials[..|credentials|] == credentials;
    return Success(Plan(planId, Counts(credentials), jobs));
  }

  lemma {:induction false} TextsPrefix(total: nat, disclosures: seq<string>, i: nat)
    requires i <= |disclosures|
    ensures CountTexts(total, disclosures[..i]).Failure? ==> CountTexts(total, disclosures) == CountTexts(total, disclosures[..i])
  {
    if i == |disclosures| {
      assert disclosures[..i] == disclosures;
    } else {
      TextsPrefix(total, disclosures[..|disclosures| - 1], i);
      assert disclosures[..|disclosures| - 1][..i] == disclosures[..i];
    }
  }

  lemma TextsNext(total: nat, disclosures: seq<string>, i: nat)
    requires i < |disclosures| && CountTexts(total, disclosures[..i]).Success?
    ensures var next := CountText(CountTexts(total, disclosures[..i]).value, disclosures[i]);
      CountTexts(total, disclosures[..i + 1]) == next && (next.Failure? ==> CountTexts(total, disclosures) == next)
  {
    TextsPrefix(total, disclosures, i + 1);
    assert disclosures[..i + 1][..i] == disclosures[..i];
  }

  lemma {:induction false} CredentialsPrefix(credentials: seq<seq<string>>, i: nat)
    requires i <= |credentials|
    ensures CountAll(credentials[..i]).Failure? ==> CountAll(credentials) == CountAll(credentials[..i])
  {
    if i == |credentials| {
      assert credentials[..i] == credentials;
    } else {
      CredentialsPrefix(credentials[..|credentials| - 1], i);
      assert credentials[..|credentials| - 1][..i] == credentials[..i];
    }
  }

  lemma CredentialsNext(credentials: seq<seq<string>>, i: nat)
    requires i < |credentials| && CountAll(credentials[..i]).Success?
    ensures var next := CountCredential(CountAll(credentials[..i]).value, credentials[i]);
      CountAll(credentials[..i + 1]) == next && (next.Failure? ==> CountAll(credentials) == next)
  {
    CredentialsPrefix(credentials, i + 1);
    assert credentials[..i + 1][..i] == credentials[..i];
  }

  lemma {:induction false} TextsExact(total: nat, disclosures: seq<string>)
    requires total <= Compact.MAX_SD_JWT_INPUT_BYTES
    ensures var r := CountTexts(total, disclosures);
      && (r.Success? <==> ShortTexts(disclosures) && total + Bytes(disclosures) <= Compact.MAX_SD_JWT_INPUT_BYTES)
      && (r.Success? ==> r.value == total + Bytes(disclosures))
  {
    if disclosures != [] {
      TextsExact(total, disclosures[..|disclosures| - 1]);
    }
  }

  lemma {:induction false} TotalsExact(credentials: seq<seq<string>>)
    ensures var r, jobs, bytes := CountAll(credentials), Sum(Counts(credentials)), AllBytes(credentials);
      && (r.Success? <==>
            && jobs <= Compact.MAX_SD_JWT_DISCLOSURES && bytes <= Compact.MAX_SD_JWT_INPUT_BYTES
            && forall i :: 0 <= i < |credentials| ==> ShortTexts(credentials[i]))
      && (r.Success? ==> r.value == Totals(jobs, bytes))
  {
    if credentials != [] {
      var n := |credentials| - 1;
      TotalsExact(credentials[..n]);
      assert Counts(credentials)[..n] == Counts(credentials[..n]);
      if CountAll(credentials[..n]).Success? {
        TextsExact(AllBytes(credentials[..n]), credentials[n]);
      }
      assert (forall i :: 0 <= i < |credentials| ==> ShortTexts(credentials[i]))
        <==> (forall i :: 0 <= i < n ==> ShortTexts(credentials[..n][i])) && ShortTexts(credentials[n]);
    }
  }

  /** A batch is planned exactly when it keeps all limits. */
  lemma PlannedIffAffordable(planId: nat, credentials: seq<seq<string>>)
    ensures Planned(planId, credentials).Success? <==> Affordable(credentials)
  {
    TotalsExact(credentials);
  }

  function PlanFor(planId: nat, credentials: seq<seq<string>>): Plan {
    Plan(planId, Counts(credentials), JobsOf(planId, credentials))
  }

  // Outcomes

  /** `DisclosureVerificationJob::process`. */
  function Process(job: BatchJob, c: Codec): BatchOutcome {
    BatchOutcome(job.planId, job.id, job.encoded, P.Process(P.Job(job.id.ordinal, job.encoded), c).result)
  }

  function ProcessAll(jobs: seq<BatchJob>, c: Codec): (r: seq<BatchOutcome>)
    ensures |r| == |jobs|
    ensures forall i :: 0 <= i < |r| ==> r[i] == Process(jobs[i], c)
  {
    seq(|jobs|, i requires 0 <= i < |jobs| => Process(jobs[i], c))
  }

  /** An outcome that some job, of whatever plan, was processed to. */
  predicate Genuine(o: BatchOutcome, c: Codec) {
    o == Process(BatchJob(o.planId, o.id, o.encoded), c)
  }

  predicate Before(a: JobId, b: JobId) {
    a.credential < b.credential || (a.credential == b.credential && a.ordinal < b.ordinal)
  }

  function Insert(o: BatchOutcome, os: seq<BatchOutcome>): seq<BatchOutcome> {
    if os == [] then [o]
    else
      var n := |os| - 1;
      if Before(o.id, os[n].id) then Insert(o, os[..n]) + [os[n]] else os + [o]
  }

  /** A stable sort by credential, then ordinal. */
  function Sort(os: seq<BatchOutcome>): seq<BatchOutcome> {
    if os == [] then []
    else
      var n := |os| - 1;
      Insert(os[n], Sort(os[..n]))
  }

  function ForeignError(os: seq<BatchOutcome>, planId: nat): Option<BatchError> {
    if os == [] then None
    else
      var n := |os| - 1;
      var r := ForeignError(os[..n], planId);
      if r.Some? then r else if os[n].planId != planId then Some(ForeignPlan(os[n].id)) else None
  }

  /** Jobs and outcomes side by side, up to the shorter of the two. */
  function MatchError(jobs: seq<BatchJob>, os: seq<BatchOutcome>): Option<BatchError> {
    if os == [] then None
    else
      var n := |os| - 1;
      var r := MatchError(jobs, os[..n]);
      if r.Some? then r
      else if n >= |jobs| then None
      else if os[n].id != jobs[n].id then Some(MissingOrDuplicate(jobs[n].id))
      else if os[n].encoded != jobs[n].encoded then Some(EncodedChanged(jobs[n].id))
      else None
  }

  /** `validate_outcomes`, on sorted outcomes. */
  function ContractError(plan: Plan, os: seq<BatchOutcome>): Option<BatchError> {
    var foreign := ForeignError(os, plan.planId);
    if foreign.Some? then foreign
    else
      var mismatch := MatchError(plan.jobs, os);
      if mismatch.Some? then mismatch
      else if |os| < |plan.jobs| then Some(NoOutcome(plan.jobs[|os|].id))
      else if |os| > |plan.jobs| then Some(ExtraOutcome)
      else None
  }

  function LocalJobs(jobs: seq<BatchJob>): (r: seq<P.Job>)
    ensures |r| == |jobs|
    ensures forall i :: 0 <= i < |r| ==> r[i] == P.Job(jobs[i].id.ordinal, jobs[i].encoded)
  {
    seq(|jobs|, i requires 0 <= i < |jobs| => P.Job(jobs[i].id.ordinal, jobs[i].encoded))
  }

  function LocalOutcomes(os: seq<BatchOutcome>): (r: seq<P.Outcome>)
    ensures |r| == |os|
    ensures forall i :: 0 <= i < |r| ==> r[i] == P.Outcome(os[i].id.ordinal, os[i].encoded, os[i].result)
  {
    seq(|os|, i requires 0 <= i < |os| => P.Outcome(os[i].id.ordinal, os[i].encoded, os[i].result))
  }

  predicate Slices(plan: Plan, os: seq<BatchOutcome>, k: nat) {
    k <= |plan.counts| && Sum(plan.counts[..k]) <= |plan.jobs| == |os|
  }

  /** Assembly of the credential at `k` from its slice of the outcomes. */
  function AssembleOne(plan: Plan, os: seq<BatchOutcome>, k: nat): Result<P.Mappings, P.WorkError>
    requires k < |plan.counts| && Slices(plan, os, k + 1)
  {
    assert plan.counts[..k + 1][..k] == plan.counts[..k];
    var from, to := Sum(plan.counts[..k]), Sum(plan.counts[..k + 1]);
    P.Assemble(LocalJobs(plan.jobs[from..to]), LocalOutcomes(os[from..to]))
  }

  /** Assembly of the first `k` credentials from validated outcomes. */
  function AssembleUpTo(plan: Plan, os: seq<BatchOutcome>, k: nat): Result<seq<CredentialMappings>, BatchError>
    requires Slices(plan, os, k)
  {
    if k == 0 then Success([])
    else
      assert plan.counts[..k][..k - 1] == plan.counts[..k - 1];
      AddMappings(AssembleUpTo(plan, os, k - 1), k - 1, AssembleOne(plan, os, k - 1))
  }

  /** Add the mappings of the next credential, unless it or an earlier one failed. */
  function AddMappings(r: Result<seq<CredentialMappings>, BatchError>, credential: nat, m: Result<P.Mappings, P.WorkError>)
    : Result<seq<CredentialMappings>, BatchError>
  {
    if r.Failure? then r
    else if m.Failure? then Failure(Work(m.error))
    else Success(r.value + [CredentialMappings(credential, m.value)])
  }

  predicate ValidPlan(plan: Plan) {
    Sum(plan.counts) == |plan.jobs|
  }

  /** `assemble`. */
  function Assemble(plan: Plan, outcomes: seq<BatchOutcome>): Result<seq<CredentialMappings>, BatchError>
    requires ValidPlan(plan)
  {
    var os := Sort(outcomes);
    var e := ContractError(plan, os);
    if e.Some? then Failure(e.value)
    else
      assert plan.counts[..|plan.counts|] == plan.counts;
      AssembleUpTo(plan, os, |plan.counts|)
  }

  /** The credentials one by one, each by the serial preprocessing of its own disclosures. */
  function OneByOne(credentials: seq<seq<string>>, c: Codec): Result<seq<CredentialMappings>, BatchError> {
    if credentials == [] then Success([])
    else
      var n := |credentials| - 1;
      AddMappings(OneByOne(credentials[..n], c), n, P.PreprocessSerial(credentials[n], P.Worker(c)))
  }

  method AssembleOutcomes(plan: Plan, outcomes: seq<BatchOutcome>) returns (r: Result<seq<CredentialMappings>, BatchError>)
    requires ValidPlan(plan)
    ensures r == Assemble(plan, outcomes)
  {
    var os := Sort(outcomes);
    var e := ContractError(plan, os);
    if e.Some? {
      return Failure(e.value);
    }
    assert plan.counts[..|plan.counts|] == plan.counts;
    r := AssembleCredentials(plan, os);
  }

  method AssembleCredentials(plan: Plan, os: seq<BatchOutcome>) returns (r: Result<seq<CredentialMappings>, BatchError>)
    requires Slices(plan, os, |plan.counts|)
    ensures r == AssembleUpTo(plan, os, |plan.counts|)
  {
    var assembled, jobOffset := [], 0;
    for credential := 0 to |plan.counts|
      invariant jobOffset == Sum(plan.counts[..credential]) && Slices(plan, os, credential)
      invariant AssembleUpTo(plan, os, credential) == Success(assembled)
    {
      var end := jobOffset + plan.counts[credential];
      AssembleNext(plan, os, credential);
      var mappings := P.AssembleDisclosures(LocalJobs(plan.jobs[jobOffset..end]), LocalOutcomes(os[jobOffset..end]));
      if mappings.Failure? {
        return Failure(Work(mappings.error));
      }
      jobOffset := end;
      assembled := assembled + [CredentialMappings(credential, mappings.value)];
    }
    return Success(assembled);
  }

  /** One more credential: its mappings are added, or its error is that of the whole batch. */
  lemma AssembleNext(plan: Plan, os: seq<BatchOutcome>, k: nat)
    requires k < |plan.counts| && Slices(plan, os, |plan.counts|) && Slices(plan, os, k) && AssembleUpTo(plan, os, k).Success?
    ensures Slices(plan, os, k + 1) && Sum(plan.counts[..k + 1]) == Sum(plan.counts[..k]) + plan.counts[k]
    ensures var m := AssembleOne(plan, os, k);
      if m.Success? then
        AssembleUpTo(plan, os, k + 1) == Success(AssembleUpTo(plan, os, k).value + [CredentialMappings(k, m.value)])
      else AssembleUpTo(plan, os, |plan.counts|) == Failure(Work(m.error))
  {
    assert plan.counts[..k + 1][..k] == plan.counts[..k];
    AssembleFails(plan, os, k + 1, |plan.counts|);
  }

  lemma {:induction false} AssembleFails(plan: Plan, os: seq<BatchOutcome>, k: nat, l: nat)
    requires k <= l && Slices(plan, os, l)
    ensures Slices(plan, os, k)
    ensures AssembleUpTo(plan, os, k).Failure? ==> AssembleUpTo(plan, os, l) == AssembleUpTo(plan, os, k)
  {
    if k < l {
      assert plan.counts[..l][..l - 1] == plan.counts[..l - 1];
      AssembleFails(plan, os, k, l - 1);
    }
  }

  // Contract validation

  ghost predicate Ordered(os: seq<BatchOutcome>) {
    forall i, j :: 0 <= i < j < |os| ==> !Before(os[j].id, os[i].id)
  }

  lemma {:induction false} InsertKeeps(o: BatchOutcome, os: seq<BatchOutcome>)
    ensures multiset(Insert(o, os)) == multiset(os) + multiset{o}
  {
    if os != [] {
      var n := |os| - 1;
      assert os == os[..n] + [os[n]];
      InsertKeeps(o, os[..n]);
    }
  }

  lemma {:induction false} InsertOrders(o: BatchOutcome, os: seq<BatchOutcome>)
    requires Ordered(os)
    ensures Ordered(Insert(o, os))
  {
    if os != [] {
      var n := |os| - 1;
      if Before(o.id, os[n].id) {
        InsertOrders(o, os[..n]);
        InsertKeeps(o, os[..n]);
        var r := Insert(o, os[..n]);
        forall i | 0 <= i < |r| ensures !Before(os[n].id, r[i].id) {
          assert r[i] in multiset(r);
          assert r[i] in os[..n] || r[i] == o;
        }
      } else {
        forall i | 0 <= i < n ensures !Before(o.id, os[i].id) {
          assert !Before(os[n].id, os[i].id);
        }
      }
    }
  }

  lemma {:induction false} SortIsOrdered(os: seq<BatchOutcome>)
    ensures Ordered(Sort(os)) && multiset(Sort(os)) == multiset(os)
  {
    if os != [] {
      var n := |os| - 1;
      assert os == os[..n] + [os[n]];
      SortIsOrdered(os[..n]);
      InsertOrders(os[n], Sort(os[..n]));
      InsertKeeps(os[n], Sort(os[..n]));
    }
  }

  /** Outcomes with the same identity are the same. */
  ghost predicate Tied(os: seq<BatchOutcome>) {
    forall x, y :: x in os && y in os && x.id == y.id ==> x == y
  }

  lemma Fronts(a: seq<BatchOutcome>, b: seq<BatchOutcome>)
    requires Ordered(a) && Tied(a) && Ordered(b) && multiset(a) == multiset(b) && a != [] && |a| == |b|
    ensures var n := |a| - 1;
      && Ordered(a[..n]) && Tied(a[..n]) && Ordered(b[..n]) && multiset(a[..n]) == multiset(b[..n]) && a[n] == b[n]
  {
    SameGreatest(a, b);
    BagFront(a);
    BagFront(b);
  }

  lemma SameFrontAndLast(a: seq<BatchOutcome>, b: seq<BatchOutcome>)
    requires a != [] && |a| == |b| && a[..|a| - 1] == b[..|b| - 1] && a[|a| - 1] == b[|b| - 1]
    ensures a == b
  {
    assert a == a[..|a| - 1] + [a[|a| - 1]] && b == b[..|b| - 1] + [b[|b| - 1]];
  }

  /** Without different outcomes of one identity there is only one order. */
  lemma {:induction false} OrderIsUnique(a: seq<BatchOutcome>, b: seq<BatchOutcome>)
    requires Ordered(a) && Tied(a) && Ordered(b) && multiset(a) == multiset(b)
    ensures a == b
    decreases |a|
  {
    SameLength(a, b);
    if a != [] {
      Fronts(a, b);
      OrderIsUnique(a[..|a| - 1], b[..|b| - 1]);
      SameFrontAndLast(a, b);
    }
  }

  lemma SameGreatest(a: seq<BatchOutcome>, b: seq<BatchOutcome>)
    requires Ordered(a) && Tied(a) && Ordered(b) && multiset(a) == multiset(b) && a != [] && |a| == |b|
    ensures a[|a| - 1] == b[|b| - 1]
  {
    var n := |a| - 1;
    assert b[n] in multiset(a) && a[n] in multiset(b);
    var i :| 0 <= i < |a| && a[i] == b[n];
    var j :| 0 <= j < |b| && b[j] == a[n];
    assert a[i].id == a[n].id;
    assert a[i] in a && a[n] in a;
  }

  lemma {:induction false} ForeignNone(os: seq<BatchOutcome>, planId: nat)
    ensures ForeignError(os, planId).None? <==> forall i :: 0 <= i < |os| ==> os[i].planId == planId
  {
    if os != [] {
      ForeignNone(os[..|os| - 1], planId);
    }
  }

  lemma {:induction false} MatchNone(jobs: seq<BatchJob>, os: seq<BatchOutcome>)
    ensures MatchError(jobs, os).None? <==>
      forall i :: 0 <= i < |os| && i < |jobs| ==> os[i].id == jobs[i].id && os[i].encoded == jobs[i].encoded
  {
    if os != [] {
      MatchNone(jobs, os[..|os| - 1]);
    }
  }

  ghost predicate InOrder(jobs: seq<BatchJob>, planId: nat) {
    && (forall i :: 0 <= i < |jobs| ==> jobs[i].planId == planId)
    && forall i, j :: 0 <= i < j < |jobs| ==> Before(jobs[i].id, jobs[j].id)
  }

  lemma {:induction false} JobsInOrder(planId: nat, credentials: seq<seq<string>>)
    ensures InOrder(JobsOf(planId, credentials), planId)
    ensures forall i :: 0 <= i < |JobsOf(planId, credentials)| ==> JobsOf(planId, credentials)[i].id.credential < |credentials|
  {
    if credentials != [] {
      JobsInOrder(planId, credentials[..|credentials| - 1]);
    }
  }

  /** What a validated list of outcomes agrees on with its jobs. */
  ghost predicate Answers(os: seq<BatchOutcome>, jobs: seq<BatchJob>, planId: nat) {
    && |os| == |jobs|
    && forall i :: 0 <= i < |os| ==> os[i].planId == planId && os[i].id == jobs[i].id && os[i].encoded == jobs[i].encoded
  }

  lemma NoErrorIff(plan: Plan, os: seq<BatchOutcome>)
    ensures ContractError(plan, os).None? <==> Answers(os, plan.jobs, plan.planId)
  {
    ForeignNone(os, plan.planId);
    MatchNone(plan.jobs, os);
  }

  lemma GenuineAnswers(os: seq<BatchOutcome>, jobs: seq<BatchJob>, planId: nat, c: Codec)
    requires InOrder(jobs, planId) && forall o :: o in os ==> Genuine(o, c)
    ensures Answers(os, jobs, planId) <==> os == ProcessAll(jobs, c)
  {
    if Answers(os, jobs, planId) {
      forall i | 0 <= i < |os| ensures os[i] == ProcessAll(jobs, c)[i] {
        assert os[i] in os;
      }
    }
  }

  lemma InOrderIsTied(jobs: seq<BatchJob>, planId: nat, c: Codec)
    requires InOrder(jobs, planId)
    ensures Ordered(ProcessAll(jobs, c)) && Tied(ProcessAll(jobs, c))
  {
  }

  /** Genuine outcomes pass validation exactly when they are the plan's own, in any order. */
  lemma ValidationExact(planId: nat, credentials: seq<seq<string>>, outcomes: seq<BatchOutcome>, c: Codec)
    requires forall o :: o in outcomes ==> Genuine(o, c)
    ensures var plan := PlanFor(planId, credentials);
      && (ContractError(plan, Sort(outcomes)).None? <==> multiset(outcomes) == multiset(ProcessAll(plan.jobs, c)))
      && (ContractError(plan, Sort(outcomes)).None? ==> Sort(outcomes) == ProcessAll(plan.jobs, c))
  {
    var plan, os := PlanFor(planId, credentials), Sort(outcomes);
    var all := ProcessAll(plan.jobs, c);
    SortIsOrdered(outcomes);
    JobsInOrder(planId, credentials);
    NoErrorIff(plan, os);
    forall o | o in os ensures Genuine(o, c) {
      assert o in multiset(os);
    }
    GenuineAnswers(os, plan.jobs, planId, c);
    if multiset(outcomes) == multiset(all) {
      InOrderIsTied(plan.jobs, planId, c);
      OrderIsUnique(all, os);
    }
  }

  // Splitting into credentials

  lemma {:induction false} CountsFit(planId: nat, credentials: seq<seq<string>>)
    ensures Sum(Counts(credentials)) == |JobsOf(planId, credentials)|
  {
    if credentials != [] {
      var n := |credentials| - 1;
      CountsFit(planId, credentials[..n]);
      assert Counts(credentials)[..n] == Counts(credentials[..n]);
    }
  }

  /** The jobs of the first `k` credentials come first, then those of the next. */
  lemma {:induction false} JobsAt(planId: nat, credentials: seq<seq<string>>, k: nat)
    requires k < |credentials|
    ensures var jobs, from, to := JobsOf(planId, credentials), Sum(Counts(credentials)[..k]), Sum(Counts(credentials)[..k + 1]);
      from <= to <= |jobs| && jobs[from..to] == CredentialJobs(planId, k, credentials[k])
  {
    var n := |credentials| - 1;
    var front, counts := JobsOf(planId, credentials[..n]), Counts(credentials);
    CountsFit(planId, credentials[..n]);
    assert counts[..n] == Counts(credentials[..n]);
    if k < n {
      JobsAt(planId, credentials[..n], k);
      assert counts[..k] == counts[..n][..k] && counts[..k + 1] == counts[..n][..k + 1];
      SliceOfFront(front, CredentialJobs(planId, n, credentials[n]), Sum(counts[..k]), Sum(counts[..k + 1]));
    } else {
      assert counts[..n + 1][..n] == counts[..n];
      BackSlice(front, CredentialJobs(planId, n, credentials[n]));
    }
  }

  lemma SliceOfFront<T>(a: seq<T>, b: seq<T>, from: nat, to: nat)
    requires from <= to <= |a|
    ensures (a + b)[from..to] == a[from..to]
  {
  }

  lemma BackSlice<T>(a: seq<T>, b: seq<T>)
    ensures (a + b)[|a|..|a| + |b|] == b
  {
  }

  lemma SliceIsSerial(planId: nat, credentials: seq<seq<string>>, k: nat, c: Codec)
    requires k < |credentials|
    ensures var plan := PlanFor(planId, credentials);
      && Slices(plan, ProcessAll(plan.jobs, c), k + 1)
      && AssembleOne(plan, ProcessAll(plan.jobs, c), k) == P.PreprocessSerial(credentials[k], P.Worker(c))
  {
    var plan := PlanFor(planId, credentials);
    var from, to := Sum(plan.counts[..k]), Sum(plan.counts[..k + 1]);
    JobsAt(planId, credentials, k);
    LocalIsSerial(planId, k, credentials[k], c);
    SliceProcessed(plan.jobs, from, to, c);
  }

  lemma SliceProcessed(jobs: seq<BatchJob>, from: nat, to: nat, c: Codec)
    requires from <= to <= |jobs|
    ensures ProcessAll(jobs, c)[from..to] == ProcessAll(jobs[from..to], c)
  {
  }

  lemma OneByOneNext(credentials: seq<seq<string>>, k: nat, c: Codec)
    requires k < |credentials|
    ensures OneByOne(credentials[..k + 1], c)
      == AddMappings(OneByOne(credentials[..k], c), k, P.PreprocessSerial(credentials[k], P.Worker(c)))
  {
    assert credentials[..k + 1][..k] == credentials[..k];
  }

  lemma {:induction false} AssembleIsOneByOne(planId: nat, credentials: seq<seq<string>>, k: nat, c: Codec)
    requires k <= |credentials|
    ensures var plan := PlanFor(planId, credentials);
      && Slices(plan, ProcessAll(plan.jobs, c), k)
      && AssembleUpTo(plan, ProcessAll(plan.jobs, c), k) == OneByOne(credentials[..k], c)
  {
    if k > 0 {
      AssembleIsOneByOne(planId, credentials, k - 1, c);
      SliceIsSerial(planId, credentials, k - 1, c);
      OneByOneNext(credentials, k - 1, c);
    }
  }

  lemma LocalIsSerial(planId: nat, credential: nat, disclosures: seq<string>, c: Codec)
    ensures var jobs := CredentialJobs(planId, credential, disclosures);
      P.Assemble(LocalJobs(jobs), LocalOutcomes(ProcessAll(jobs, c))) == P.PreprocessSerial(disclosures, P.Worker(c))
  {
    var jobs := CredentialJobs(planId, credential, disclosures);
    assert LocalJobs(jobs) == P.PlanJobs(disclosures);
    assert LocalOutcomes(ProcessAll(jobs, c)) == P.ProcessAll(disclosures, c);
    P.AssembleRefinesSerial(disclosures, P.ProcessAll(disclosures, c), c);
  }

  /**
   The plan's outcomes, in whatever order they are returned, assemble to the mappings of each credential on its own,
   in caller order, or to the first error in the order of credentials and, within one, of disclosures.
   */
  lemma BatchSplits(planId: nat, credentials: seq<seq<string>>, outcomes: seq<BatchOutcome>, c: Codec)
    requires multiset(outcomes) == multiset(ProcessAll(JobsOf(planId, credentials), c))
    ensures var plan := PlanFor(planId, credentials); ValidPlan(plan) && Assemble(plan, outcomes) == OneByOne(credentials, c)
  {
    var plan := PlanFor(planId, credentials);
    CountsFit(planId, credentials);
    OwnAreGenuine(plan.jobs, outcomes, c);
    ValidationExact(planId, credentials, outcomes, c);
    ValidatedAssembles(plan, outcomes);
    AssembleIsOneByOne(planId, credentials, |credentials|, c);
    assert credentials[..|credentials|] == credentials;
  }

  lemma OwnAreGenuine(jobs: seq<BatchJob>, outcomes: seq<BatchOutcome>, c: Codec)
    requires multiset(outcomes) == multiset(ProcessAll(jobs, c))
    ensures forall o :: o in outcomes ==> Genuine(o, c)
  {
    forall o | o in outcomes ensures Genuine(o, c) {
      assert o in multiset(ProcessAll(jobs, c));
    }
  }

  lemma ValidatedAssembles(plan: Plan, outcomes: seq<BatchOutcome>)
    requires ValidPlan(plan) && ContractError(plan, Sort(outcomes)).None?
    ensures Slices(plan, Sort(outcomes), |plan.counts|)
    ensures Assemble(plan, outcomes) == AssembleUpTo(plan, Sort(outcomes), |plan.counts|)
  {
    NoErrorIff(plan, Sort(outcomes));
    assert plan.counts[..|plan.counts|] == plan.counts;
  }

  // The serial executor

  /** What the executor carries along: its outcomes, the credential it is at, and the digests seen there. */
  datatype Running = Running(outcomes: seq<BatchOutcome>, credential: Option<nat>, observed: set<string>)

  function ExecuteJob(st: Running, job: BatchJob, c: Codec): Result<Running, BatchError> {
    var observed := if st.credential != Some(job.id.credential) then {} else st.observed;
    var outcome := Process(job, c);
    var result := outcome.result.value;
    if result.Failure? then Failure(Work(result.error))
    else if result.value.digest in observed then Failure(Work(P.DuplicateDigest))
    else Success(Running(st.outcomes + [outcome], Some(job.id.credential), observed + {result.value.digest}))
  }

  function ExecuteSerially(jobs: seq<BatchJob>, c: Codec): Result<Running, BatchError> {
    if jobs == [] then Success(Running([], None, {}))
    else
      var n := |jobs| - 1;
      var st :- ExecuteSerially(jobs[..n], c);
      ExecuteJob(st, jobs[n], c)
  }

  /** `SerialDisclosureVerificationExecutor::execute`. */
  method ExecuteBatch(jobs: seq<BatchJob>, c: Codec) returns (r: Result<seq<BatchOutcome>, BatchError>)
    ensures match ExecuteSerially(jobs, c) case Success(st) => r == Success(st.outcomes) case Failure(e) => r == Failure(e)
  {
    var outcomes, credential: Option<nat>, observedDigests: set<string> := [], None, {};
    for i := 0 to |jobs|
      invariant ExecuteSerially(jobs[..i], c) == Success(Running(outcomes, credential, observedDigests))
    {
      ExecuteNext(jobs, i, c);
      var job := jobs[i];
      if credential != Some(job.id.credential) {
        credential := Some(job.id.credential);
        observedDigests := {};
      }
      var outcome := Process(job, c);
      match outcome.result.value {
        case Success(processed) =>
          if processed.digest in observedDigests {
            return Failure(Work(P.DuplicateDigest));
          }
          observedDigests := observedDigests + {processed.digest};
          outcomes := outcomes + [outcome];
        case Failure(e) => return Failure(Work(e));
      }
    }
    assert jobs[..|jobs|] == jobs;
    return Success(outcomes);
  }

  lemma {:induction false} ExecutePrefix(jobs: seq<BatchJob>, i: nat, c: Codec)
    requires i <= |jobs|
    ensures ExecuteSerially(jobs[..i], c).Failure? ==> ExecuteSerially(jobs, c) == ExecuteSerially(jobs[..i], c)
  {
    if i == |jobs| {
      assert jobs[..i] == jobs;
    } else {
      ExecutePrefix(jobs[..|jobs| - 1], i, c);
      assert jobs[..|jobs| - 1][..i] == jobs[..i];
    }
  }

  lemma ExecuteNext(jobs: seq<BatchJob>, i: nat, c: Codec)
    requires i < |jobs| && ExecuteSerially(jobs[..i], c).Success?
    ensures var next := ExecuteJob(ExecuteSerially(jobs[..i], c).value, jobs[i], c);
      ExecuteSerially(jobs[..i + 1], c) == next && (next.Failure? ==> ExecuteSerially(jobs, c) == next)
  {
    ExecutePrefix(jobs, i + 1, c);
    assert jobs[..i + 1][..i] == jobs[..i];
  }

  /** The executor has processed exactly these jobs, and its observed digests are those of the current credential. */
  ghost predicate Runs(st: Running, jobs: seq<BatchJob>, credential: nat, digests: set<string>, c: Codec) {
    && st.outcomes == ProcessAll(jobs, c)
    && (if st.credential == Some(credential) then st.observed == digests else digests == {})
  }

  lemma {:induction false} ExecuteCredential(
      before: seq<BatchJob>, planId: nat, credential: nat, disclosures: seq<string>, st: Running, c: Codec)
    requires ExecuteSerially(before, c) == Success(st) && Runs(st, before, credential, {}, c)
    ensures var r, m :=
        ExecuteSerially(before + CredentialJobs(planId, credential, disclosures), c), P.PreprocessSerial(disclosures, P.Worker(c));
      match m
      case Failure(e) => r == Failure(Work(e))
      case Success(mappings) =>
        r.Success? && Runs(r.value, before + CredentialJobs(planId, credential, disclosures), credential, mappings.decoded.Keys, c)
  {
    var jobs := CredentialJobs(planId, credential, disclosures);
    if disclosures == [] {
      assert before + jobs == before;
    } else {
      var n := |disclosures| - 1;
      var front := CredentialJobs(planId, credential, disclosures[..n]);
      ExecuteCredential(before, planId, credential, disclosures[..n], st, c);
      JobsSnoc(before, planId, credential, disclosures);
      ExecuteSnoc(before + front, jobs[n], c);
      var m := P.PreprocessSerial(disclosures[..n], P.Worker(c));
      if m.Success? {
        ExecuteOne(ExecuteSerially(before + front, c).value, before + front, jobs[n], m.value, c);
      }
    }
  }

  lemma JobsSnoc(before: seq<BatchJob>, planId: nat, credential: nat, disclosures: seq<string>)
    requires disclosures != []
    ensures var n := |disclosures| - 1;
      before + CredentialJobs(planId, credential, disclosures)
        == (before + CredentialJobs(planId, credential, disclosures[..n])) + [BatchJob(planId, JobId(credential, n), disclosures[n])]
  {
  }

  lemma ExecuteSnoc(jobs: seq<BatchJob>, job: BatchJob, c: Codec)
    ensures var r := ExecuteSerially(jobs, c);
      ExecuteSerially(jobs + [job], c) == if r.Success? then ExecuteJob(r.value, job, c) else r
  {
    Snoc(jobs, job);
  }

  lemma ExecuteOne(st: Running, jobs: seq<BatchJob>, job: BatchJob, m: P.Mappings, c: Codec)
    requires Runs(st, jobs, job.id.credential, m.decoded.Keys, c)
    ensures var r, m' := ExecuteJob(st, job, c), P.SerialStep(m, job.id.ordinal, job.encoded, P.Worker(c));
      match m'
      case Failure(e) => r == Failure(Work(e))
      case Success(mappings) => r.Success? && Runs(r.value, jobs + [job], job.id.credential, mappings.decoded.Keys, c)
  {
    assert ProcessAll(jobs + [job], c) == ProcessAll(jobs, c) + [Process(job, c)];
  }

  lemma {:induction false} ExecuteIsOneByOne(planId: nat, credentials: seq<seq<string>>, c: Codec)
    ensures var r, all := ExecuteSerially(JobsOf(planId, credentials), c), OneByOne(credentials, c);
      match all
      case Failure(e) => r == Failure(e)
      case Success(_) =>
        && r.Success? && r.value.outcomes == ProcessAll(JobsOf(planId, credentials), c)
        && (r.value.credential.Some? ==> r.value.credential.value < |credentials|)
  {
    if credentials != [] {
      var n := |credentials| - 1;
      var before, jobs := JobsOf(planId, credentials[..n]), CredentialJobs(planId, n, credentials[n]);
      ExecuteIsOneByOne(planId, credentials[..n], c);
      var r := ExecuteSerially(before, c);
      if r.Success? {
        ExecuteCredential(before, planId, n, credentials[n], r.value, c);
        LastCredential(before, planId, n, credentials[n], c);
      } else {
        assert (before + jobs)[..|before|] == before;
        ExecutePrefix(before + jobs, |before|, c);
      }
    }
  }

  lemma LastCredential(before: seq<BatchJob>, planId: nat, credential: nat, disclosures: seq<string>, c: Codec)
    requires ExecuteSerially(before, c).Success?
    requires var last := ExecuteSerially(before, c).value.credential; last.Some? ==> last.value <= credential
    ensures var r := ExecuteSerially(before + CredentialJobs(planId, credential, disclosures), c);
      r.Success? && r.value.credential.Some? ==> r.value.credential.value <= credential
  {
    var jobs := CredentialJobs(planId, credential, disclosures);
    if disclosures == [] {
      assert before + jobs == before;
    } else {
      var n := |jobs| - 1;
      Snoc(before + jobs[..n], jobs[n]);
      assert before + jobs == (before + jobs[..n]) + [jobs[n]];
    }
  }

  /** `preprocess_disclosure_verification_batch`: within the limits, the credentials one by one. */
  method PreprocessBatch(credentials: seq<seq<string>>, planId: nat, c: Codec) returns (r: Result<seq<CredentialMappings>, BatchError>)
    ensures r == match Planned(planId, credentials) case Success(_) => OneByOne(credentials, c) case Failure(e) => Failure(e)
  {
    var plan :- NewPlan(credentials, planId);
    ExecuteIsOneByOne(planId, credentials, c);
    var outcomes :- ExecuteBatch(plan.jobs, c);
    CountsFit(planId, credentials);
    BatchSplits(planId, credentials, outcomes, c);
    r := AssembleOutcomes(plan, outcomes);
  }

  // The first error

  /** A disclosure that is malformed, or has the digest of an earlier one of the same credential. */
  predicate Bad(disclosures: seq<string>, k: nat, c: Codec)
    requires k < |disclosures|
  {
    c.decode(disclosures[k]).None? || exists l :: 0 <= l < k && c.hash(disclosures[l]) == c.hash(disclosures[k])
  }

  function ErrorAt(disclosures: seq<string>, k: nat, c: Codec): P.WorkError
    requires k < |disclosures|
  {
    if c.decode(disclosures[k]).None? then P.InvalidDisclosure(disclosures[k]) else P.DuplicateDigest
  }

  ghost predicate FirstBad(disclosures: seq<string>, k: nat, c: Codec) {
    k < |disclosures| && Bad(disclosures, k, c) && forall l :: 0 <= l < k ==> !Bad(disclosures, l, c)
  }

  lemma BadInFront(disclosures: seq<string>, n: nat, k: nat, c: Codec)
    requires k < n <= |disclosures|
    ensures Bad(disclosures[..n], k, c) <==> Bad(disclosures, k, c)
    ensures ErrorAt(disclosures[..n], k, c) == ErrorAt(disclosures, k, c)
  {
    if l :| 0 <= l < k && c.hash(disclosures[l]) == c.hash(disclosures[k]) {
      assert c.hash(disclosures[..n][l]) == c.hash(disclosures[k]);
    }
  }

  /** One credential fails exactly when a disclosure is bad, with the error of the first bad one. */
  lemma {:induction false} FirstErrorOfCredential(disclosures: seq<string>, c: Codec)
    ensures var r := P.PreprocessSerial(disclosures, P.Worker(c));
      match r
      case Success(m) =>
        && (forall k :: 0 <= k < |disclosures| ==> !Bad(disclosures, k, c))
        && (forall x :: x in m.decoded <==> exists l :: 0 <= l < |disclosures| && c.hash(disclosures[l]) == x)
      case Failure(e) => exists k :: FirstBad(disclosures, k, c) && e == ErrorAt(disclosures, k, c)
  {
    if disclosures != [] {
      var n := |disclosures| - 1;
      var front := disclosures[..n];
      FirstErrorOfCredential(front, c);
      forall k | 0 <= k < n
        ensures Bad(front, k, c) <==> Bad(disclosures, k, c)
        ensures ErrorAt(front, k, c) == ErrorAt(disclosures, k, c)
      {
        BadInFront(disclosures, n, k, c);
      }
      var r := P.PreprocessSerial(front, P.Worker(c));
      if r.Failure? {
        var k :| FirstBad(front, k, c) && r.error == ErrorAt(front, k, c);
        assert FirstBad(disclosures, k, c);
      } else {
        LastDisclosure(disclosures, r.value, c);
      }
    }
  }

  lemma LastDisclosure(disclosures: seq<string>, m: P.Mappings, c: Codec)
    requires disclosures != []
    requires var front := disclosures[..|disclosures| - 1];
      && (forall x :: x in m.decoded <==> exists l :: 0 <= l < |front| && c.hash(front[l]) == x)
      && (forall k :: 0 <= k < |front| ==> !Bad(disclosures, k, c))
    ensures var n := |disclosures| - 1;
      var r := P.SerialStep(m, n, disclosures[n], P.Worker(c));
      match r
      case Success(m') =>
        && !Bad(disclosures, n, c)
        && (forall x :: x in m'.decoded <==> exists l :: 0 <= l < |disclosures| && c.hash(disclosures[l]) == x)
      case Failure(e) => FirstBad(disclosures, n, c) && e == ErrorAt(disclosures, n, c)
  {
    var n := |disclosures| - 1;
    var front, x := disclosures[..n], c.hash(disclosures[n]);
    if x in m.decoded {
      var l :| 0 <= l < |front| && c.hash(front[l]) == x;
      assert c.hash(disclosures[l]) == x;
    }
    forall l | 0 <= l < n ensures c.hash(disclosures[l]) in m.decoded {
      assert c.hash(front[l]) == c.hash(disclosures[l]);
    }
    var r := P.SerialStep(m, n, disclosures[n], P.Worker(c));
    if r.Success? {
      forall y ensures y in r.value.decoded <==> exists l :: 0 <= l < |disclosures| && c.hash(disclosures[l]) == y {
        if y in m.decoded {
          var l :| 0 <= l < |front| && c.hash(front[l]) == y;
          assert c.hash(disclosures[l]) == y;
        }
        if y == x {
          assert c.hash(disclosures[n]) == y;
        }
      }
    }
  }

  /** A batch fails exactly when some disclosure is bad within its credential, with the error least in (credential, ordinal). */
  lemma {:induction false} FirstErrorOfBatch(credentials: seq<seq<string>>, c: Codec)
    ensures var r := OneByOne(credentials, c);
      match r
      case Success(ms) =>
        && |ms| == |credentials|
        && forall i :: 0 <= i < |ms| ==>
             ms[i].credential == i && P.PreprocessSerial(credentials[i], P.Worker(c)) == Success(ms[i].mappings)
      case Failure(e) => exists i: nat, k: nat ::
        && i < |credentials| && FirstBad(credentials[i], k, c) && e == Work(ErrorAt(credentials[i], k, c))
        && forall l :: 0 <= l < i ==> P.PreprocessSerial(credentials[l], P.Worker(c)).Success?
  {
    if credentials != [] {
      var n := |credentials| - 1;
      FirstErrorOfBatch(credentials[..n], c);
      FirstErrorOfCredential(credentials[n], c);
      var r := OneByOne(credentials[..n], c);
      if r.Failure? {
        var i: nat, k: nat :|
          && i < n && FirstBad(credentials[..n][i], k, c) && r.error == Work(ErrorAt(credentials[..n][i], k, c))
          && forall l :: 0 <= l < i ==> P.PreprocessSerial(credentials[..n][l], P.Worker(c)).Success?;
        forall l | 0 <= l < i ensures P.PreprocessSerial(credentials[l], P.Worker(c)).Success? {
          assert credentials[..n][l] == credentials[l];
        }
        assert FirstBad(credentials[i], k, c);
      } else {
        forall l | 0 <= l < n ensures P.PreprocessSerial(credentials[l], P.Worker(c)).Success? {
          assert credentials[..n][l] == credentials[l];
        }
      }
    }
  }

  // Any order of completion

  /** Two outcomes of this plan with the same identity are the same outcome. */
  ghost predicate Coherent(planId: nat, os: seq<BatchOutcome>) {
    forall x, y :: x in os && y in os && x.planId == planId && y.planId == planId && x.id == y.id ==> x == y
  }

  /** The outcome of another plan that is least in the order of identities. */
  ghost predicate LeastForeign(os: seq<BatchOutcome>, planId: nat, x: BatchOutcome) {
    && x in os && x.planId != planId
    && forall y :: y in os && y.planId != planId ==> !Before(y.id, x.id)
  }

  lemma {:induction false} ForeignIsLeast(os: seq<BatchOutcome>, planId: nat)
    requires Ordered(os) && ForeignError(os, planId).Some?
    ensures exists x :: LeastForeign(os, planId, x) && ForeignError(os, planId) == Some(ForeignPlan(x.id))
  {
    var n := |os| - 1;
    var front := os[..n];
    if ForeignError(front, planId).Some? {
      ForeignIsLeast(front, planId);
      var x :| LeastForeign(front, planId, x) && ForeignError(front, planId) == Some(ForeignPlan(x.id));
      var i :| 0 <= i < n && front[i] == x;
      assert !Before(os[n].id, os[i].id);
      assert forall y :: y in os ==> y in front || y == os[n];
      assert LeastForeign(os, planId, x);
    } else {
      ForeignNone(front, planId);
      assert os[n] in os && !Before(os[n].id, os[n].id);
      assert forall y :: y in front ==> y.planId == planId;
      assert forall y :: y in os ==> y in front || y == os[n];
      assert LeastForeign(os, planId, os[n]);
    }
  }

  lemma SameForeign(a: seq<BatchOutcome>, b: seq<BatchOutcome>, planId: nat)
    requires Ordered(a) && Ordered(b) && multiset(a) == multiset(b)
    ensures ForeignError(a, planId) == ForeignError(b, planId)
  {
    assert forall x :: x in a <==> x in multiset(a);
    assert forall x :: x in b <==> x in multiset(b);
    ForeignNone(a, planId);
    ForeignNone(b, planId);
    assert (exists x :: x in a && x.planId != planId) <==> (exists x :: x in b && x.planId != planId);
    if ForeignError(a, planId).Some? && ForeignError(b, planId).Some? {
      ForeignIsLeast(a, planId);
      ForeignIsLeast(b, planId);
      var x :| LeastForeign(a, planId, x) && ForeignError(a, planId) == Some(ForeignPlan(x.id));
      var y :| LeastForeign(b, planId, y) && ForeignError(b, planId) == Some(ForeignPlan(y.id));
      assert !Before(x.id, y.id) && !Before(y.id, x.id);
    }
  }

  /**
   The order in which outcomes are returned does not matter, neither for the mappings nor for which error is reported,
   be outcomes missing, repeated or of other plans.
   */
  lemma AssembleIgnoresOrder(plan: Plan, a: seq<BatchOutcome>, b: seq<BatchOutcome>)
    requires ValidPlan(plan) && multiset(a) == multiset(b) && Coherent(plan.planId, a)
    ensures Assemble(plan, a) == Assemble(plan, b)
  {
    var sa, sb := Sort(a), Sort(b);
    SortIsOrdered(a);
    SortIsOrdered(b);
    SameForeign(sa, sb, plan.planId);
    if ForeignError(sa, plan.planId).None? {
      ForeignNone(sa, plan.planId);
      forall x | x in sa ensures x in a && x.planId == plan.planId {
        assert x in multiset(a);
        var i :| 0 <= i < |sa| && sa[i] == x;
      }
      OrderIsUnique(sa, sb);
    }
  }

  /** Whatever the plan's jobs are processed to, and however often, alone or among outcomes of other plans, is coherent. */
  lemma ProcessedIsCoherent(planId: nat, credentials: seq<seq<string>>, os: seq<BatchOutcome>, c: Codec)
    requires forall o :: o in os && o.planId == planId ==> o in ProcessAll(JobsOf(planId, credentials), c)
    ensures Coherent(planId, os)
  {
    JobsInOrder(planId, credentials);
    InOrderIsTied(JobsOf(planId, credentials), planId, c);
  }

}
