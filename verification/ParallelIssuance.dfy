/**
 The executor-driven assembler: the hidden children of an array or object are assembled first, their jobs are handed
 to an executor as one batch, and the disclosures are recorded only when the batch comes back. Whatever order an
 honest executor answers in, the result is that of the serial assembler.
 */
module ParallelIssuance {
  import opened Assembly
  import opened ClaimTree
  import opened Json
  import opened Plan
  import opened Registry
  import opened Restoration
  import opened Sequences
  import opened SerialIssuance
  import opened Strategy
  import opened Wrappers

  /** What the executor answers to each batch; by `ReadyBatches.BatchesDiffer` the batches of a run differ. */
  type Executor = seq<IssuanceJob> -> Result<seq<Outcome>, ExecError>

  /** An element of an array under construction: its value, or the place of its disclosure in the batch. */
  datatype ItemOutput = Ready(value: Value) | Awaited(index: nat)

  datatype ItemBatch = ItemBatch(outputs: seq<ItemOutput>, jobs: seq<IssuanceJob>)

  datatype MemberBatch = MemberBatch(members: seq<Member>, jobs: seq<IssuanceJob>)

  function OfPlan<T>(r: Result<T, PlanError>): Result<T, ExecError> {
    match r
    case Success(v) => Success(v)
    case Failure(e) => Failure(BadPlan(e))
  }

  function JobOperationOf(op: Operation, value: Value): JobOperation {
    match op
    case ObjectDisclosure(_, key, salt) => ObjectJob(key, salt, value)
    case ArrayDisclosure(_, salt) => ArrayJob(salt, value)
    case Decoy(salt) => DecoyJob(salt)
  }

  function JobFor(jobId: nat, location: nat, op: Operation, value: Value): IssuanceJob {
    IssuanceJob(Identity(jobId, location, KindOf(op), OrdinalOf(op)), JobOperationOf(op, value))
  }

  /** `execute_and_restore`. */
  ghost function RunBatch(jobs: seq<IssuanceJob>, ex: Executor): Result<seq<Restored>, ExecError> {
    if jobs == [] then Success([])
    else
      var outcomes :- ex(jobs);
      Restore(Identities(jobs), multiset(outcomes))
  }

  ghost function BatchedValue(pv: PlannedValue, asm: Slots, ex: Executor): Result<(Value, Slots), ExecError>
    decreases pv, 2
  {
    match pv.kind
    case Scalar(v) => Success((v, asm))
    case PlannedArray(es) =>
      var r :- CollectItems(es, asm, ex);
      var restored :- RunBatch(r.0.jobs, ex);
      var filled :- FillItems(r.0.outputs, restored, r.1);
      Success((Array(filled.0), filled.1))
    case PlannedObject(es, decoys) =>
      var r :- CollectMembers(es, asm, ex);
      var d :- CollectDecoys(decoys, pv.location, r.0.jobs, r.1);
      var restored :- RunBatch(d.0, ex);
      var recorded :- RecordBatch(restored, d.1);
      Success((Object(Seal(r.0.members, recorded.0)), recorded.1))
  }

  /** Assemble a hidden child and take its job. */
  ghost function CollectDisclosed(value: PlannedValue, jobId: nat, inDict: bool, asm: Slots, ex: Executor)
    : Result<(IssuanceJob, Slots), ExecError>
    decreases value, 3
  {
    var subtree :- BatchedValue(value, asm, ex);
    var taken :- OfPlan(Take(subtree.1, jobId, value.location, DisclosureKind(inDict)));
    Success((JobFor(jobId, value.location, taken.0, subtree.0), taken.1))
  }

  ghost function CollectItems(es: seq<PlannedEntry>, asm: Slots, ex: Executor): Result<(ItemBatch, Slots), ExecError>
    decreases es, 0
  {
    if es == [] then Success((ItemBatch([], []), asm))
    else
      var n := |es| - 1;
      var r :- CollectItems(es[..n], asm, ex);
      CollectItem(r.0, es[n], r.1, ex)
  }

  ghost function CollectItem(b: ItemBatch, e: PlannedEntry, asm: Slots, ex: Executor): Result<(ItemBatch, Slots), ExecError>
    decreases e, 4
  {
    match e
    case Visible(_, value) =>
      var v :- BatchedValue(value, asm, ex);
      Success((b.(outputs := b.outputs + [Ready(v.0)]), v.1))
    case Disclosed(value, jobId) =>
      var d :- CollectDisclosed(value, jobId, false, asm, ex);
      Success((ItemBatch(b.outputs + [Awaited(|b.jobs|)], b.jobs + [d.0]), d.1))
  }

  function FillItems(outputs: seq<ItemOutput>, restored: seq<Restored>, asm: Slots): Result<(seq<Value>, Slots), ExecError> {
    if outputs == [] then Success(([], asm))
    else
      var n := |outputs| - 1;
      var r :- FillItems(outputs[..n], restored, asm);
      FillItem(r.0, outputs[n], restored, r.1)
  }

  function FillItem(claims: seq<Value>, output: ItemOutput, restored: seq<Restored>, asm: Slots): Result<(seq<Value>, Slots), ExecError> {
    match output
    case Ready(v) => Success((claims + [v], asm))
    case Awaited(index) =>
      if index >= |restored| then Failure(MissingOutcome)
      else
        var x := restored[index];
        if x.product.DecoyDigest? then Failure(WrongResultKind)
        else
          var slots :- RecordRestored(x.identity, x.product.d, asm);
          Success((claims + [Placeholder(x.product.d.hash)], slots))
  }

  function RecordRestored(identity: Identity, d: Issued, asm: Slots): Result<Slots, ExecError> {
    if identity.ordinal.None? then Failure(NoOrdinal)
    else OfPlan(Assembly.Record(asm, identity.jobId, identity.ordinal.value, d))
  }

  ghost function CollectMembers(es: seq<PlannedEntry>, asm: Slots, ex: Executor): Result<(MemberBatch, Slots), ExecError>
    decreases es, 0
  {
    if es == [] then Success((MemberBatch([Member(SD_DIGESTS_KEY, Null)], []), asm))
    else
      var n := |es| - 1;
      var r :- CollectMembers(es[..n], asm, ex);
      CollectMember(r.0, es[n], r.1, ex)
  }

  ghost function CollectMember(b: MemberBatch, e: PlannedEntry, asm: Slots, ex: Executor): Result<(MemberBatch, Slots), ExecError>
    decreases e, 4
  {
    match e
    case Visible(key, value) =>
      var v :- BatchedValue(value, asm, ex);
      Success((b.(members := Put(b.members, key, v.0)), v.1))
    case Disclosed(value, jobId) =>
      var d :- CollectDisclosed(value, jobId, true, asm, ex);
      Success((b.(jobs := b.jobs + [d.0]), d.1))
  }

  function CollectDecoys(decoys: seq<nat>, location: nat, batch: seq<IssuanceJob>, asm: Slots): Result<(seq<IssuanceJob>, Slots), ExecError> {
    if decoys == [] then Success((batch, asm))
    else
      var n := |decoys| - 1;
      var r :- CollectDecoys(decoys[..n], location, batch, asm);
      var taken :- OfPlan(Take(r.1, decoys[n], location, DecoyKind));
      Success((r.0 + [JobFor(decoys[n], location, taken.0, Null)], taken.1))
  }

  /** Record the disclosures of an object's batch and gather its digests. */
  function RecordBatch(restored: seq<Restored>, asm: Slots): Result<(seq<string>, Slots), ExecError> {
    if restored == [] then Success(([], asm))
    else
      var n := |restored| - 1;
      var r :- RecordBatch(restored[..n], asm);
      RecordOne(r.0, restored[n], r.1)
  }

  function RecordOne(digests: seq<string>, x: Restored, asm: Slots): Result<(seq<string>, Slots), ExecError> {
    match x.product
    case Disclosure(d) =>
      var slots :- RecordRestored(x.identity, d, asm);
      Success((digests + [d.hash], slots))
    case DecoyDigest(digest) => Success((digests + [digest], asm))
  }

  /** The executor-driven form of `IssuancePlan::execute_serial`. */
  ghost function ExecuteBatched(plan: IssuancePlan, ex: Executor): Result<Assembled, ExecError> {
    var e := RegistryError(plan.jobs, plan.disclosureJobIds);
    if e.Some? then Failure(BadPlan(e.value))
    else
      var r :- BatchedValue(plan.root, Fresh(plan), ex);
      OfPlan(Finish(r.0, r.1))
  }

  /** The executor processes every job of a batch, answering in any order. */
  ghost predicate Honest(ex: Executor, c: Codec) {
    forall jobs :: Answered(ex(jobs), jobs, c)
  }

  ghost predicate Answered(r: Result<seq<Outcome>, ExecError>, jobs: seq<IssuanceJob>, c: Codec) {
    r.Success? && multiset(r.value) == multiset(ProcessAll(jobs, c))
  }

  // The batch of a container

  ghost function OwnRefs(es: seq<PlannedEntry>): seq<nat> {
    if es == [] then []
    else
      var n := |es| - 1;
      var r := OwnRefs(es[..n]);
      if es[n].Disclosed? then r + [es[n].jobId] else r
  }

  ghost function JobOf(e: PlannedEntry, inDict: bool, jobs: seq<PlannedJob>, c: Codec): IssuanceJob
    requires e.Disclosed? && EntryBound(e, inDict, jobs)
  {
    JobFor(e.jobId, e.value.location, jobs[e.jobId].operation, Payload(Resolve(e.value, jobs), c))
  }

  ghost function Batch(es: seq<PlannedEntry>, inDict: bool, jobs: seq<PlannedJob>, c: Codec): seq<IssuanceJob>
    requires EntriesBound(es, inDict, jobs)
  {
    if es == [] then []
    else
      var n := |es| - 1;
      var r := Batch(es[..n], inDict, jobs, c);
      if es[n].Disclosed? then r + [JobOf(es[n], inDict, jobs, c)] else r
  }

  ghost function DecoyBatch(decoys: seq<nat>, location: nat, jobs: seq<PlannedJob>): seq<IssuanceJob>
    requires DecoysBound(decoys, location, jobs)
  {
    if decoys == [] then []
    else
      var n := |decoys| - 1;
      DecoyBatch(decoys[..n], location, jobs) + [JobFor(decoys[n], location, jobs[decoys[n]].operation, Null)]
  }

  ghost function Outputs(es: seq<PlannedEntry>, jobs: seq<PlannedJob>, c: Codec): seq<ItemOutput>
    requires EntriesBound(es, false, jobs)
  {
    if es == [] then []
    else
      var n := |es| - 1;
      var r := Outputs(es[..n], jobs, c);
      if es[n].Disclosed? then r + [Awaited(|Batch(es[..n], false, jobs, c)|)]
      else r + [Ready(Payload(ResolveEntry(es[n], false, jobs).value, c))]
  }

  /** Disclosures made below the entries, and those of the entries themselves. */
  ghost function InnerWork(es: seq<PlannedEntry>, inDict: bool, jobs: seq<PlannedJob>, c: Codec): map<nat, Issued>
    requires EntriesBound(es, inDict, jobs)
  {
    if es == [] then map[]
    else
      var n := |es| - 1;
      InnerWork(es[..n], inDict, jobs, c) + Below(es[n], inDict, jobs, c)
  }

  ghost function Below(e: PlannedEntry, inDict: bool, jobs: seq<PlannedJob>, c: Codec): map<nat, Issued>
    requires EntryBound(e, inDict, jobs)
  {
    Work(e.value, jobs, c)
  }

  ghost function OwnWork(es: seq<PlannedEntry>, inDict: bool, jobs: seq<PlannedJob>, c: Codec): map<nat, Issued>
    requires EntriesBound(es, inDict, jobs)
  {
    if es == [] then map[]
    else
      var n := |es| - 1;
      var r := OwnWork(es[..n], inDict, jobs, c);
      if es[n].Disclosed? then r[es[n].jobId := IssuedOf(ResolveEntry(es[n], inDict, jobs), inDict, c)] else r
  }

  lemma {:induction false} OwnWorkKeys(es: seq<PlannedEntry>, inDict: bool, jobs: seq<PlannedJob>, c: Codec)
    requires EntriesBound(es, inDict, jobs)
    ensures forall x :: x in OwnWork(es, inDict, jobs, c) <==> x in OwnRefs(es)
    ensures forall x :: x in OwnRefs(es) ==> x in EntryRefs(es)
  {
    if es != [] {
      OwnWorkKeys(es[..|es| - 1], inDict, jobs, c);
    }
  }

  lemma {:induction false} InnerWorkKeys(es: seq<PlannedEntry>, inDict: bool, jobs: seq<PlannedJob>, c: Codec)
    requires EntriesBound(es, inDict, jobs)
    ensures forall x :: x in InnerWork(es, inDict, jobs, c) ==> x in EntryRefs(es)
  {
    if es != [] {
      InnerWorkKeys(es[..|es| - 1], inDict, jobs, c);
      WorkKeys(es[|es| - 1].value, jobs, c);
    }
  }

  ghost predicate Separates(inner: map<nat, Issued>, own: map<nat, Issued>, all: map<nat, Issued>) {
    inner.Keys !! own.Keys && inner + own == all
  }

  lemma OneMoreSeparates(inner: map<nat, Issued>, own: map<nat, Issued>, all: map<nat, Issued>, below: map<nat, Issued>, jobId: nat, d: Issued)
    requires Separates(inner, own, all)
    requires own.Keys !! below.Keys
    ensures Separates(inner + below, own, all + below)
    ensures jobId !in inner + below ==> Separates(inner + below, own[jobId := d], all + below[jobId := d])
  {
  }

  /** Recording the disclosures of a container late makes no difference. */
  lemma {:induction false} LateRecording(es: seq<PlannedEntry>, inDict: bool, jobs: seq<PlannedJob>, c: Codec)
    requires EntriesBound(es, inDict, jobs) && NoDup(EntryRefs(es))
    ensures Separates(InnerWork(es, inDict, jobs, c), OwnWork(es, inDict, jobs, c), EntriesWork(es, inDict, jobs, c))
  {
    if es != [] {
      var n := |es| - 1;
      var front, e := es[..n], es[n];
      NoDupConcat(EntryRefs(front), RefsOf(e));
      LateRecording(front, inDict, jobs, c);
      OwnWorkKeys(front, inDict, jobs, c);
      InnerWorkKeys(front, inDict, jobs, c);
      EntryApart(e, inDict, jobs, c);
      OneMoreSeparates(InnerWork(front, inDict, jobs, c), OwnWork(front, inDict, jobs, c), EntriesWork(front, inDict, jobs, c),
                       Below(e, inDict, jobs, c), if e.Disclosed? then e.jobId else 0,
                       if e.Disclosed? then IssuedOf(ResolveEntry(e, inDict, jobs), inDict, c) else Issued("", ""));
    }
  }

  lemma EntryApart(e: PlannedEntry, inDict: bool, jobs: seq<PlannedJob>, c: Codec)
    requires EntryBound(e, inDict, jobs) && NoDup(RefsOf(e))
    ensures forall x :: x in Below(e, inDict, jobs, c) ==> x in RefsOf(e)
    ensures e.Disclosed? ==> e.jobId in RefsOf(e) && e.jobId !in Below(e, inDict, jobs, c)
  {
    WorkKeys(e.value, jobs, c);
    if e.Disclosed? {
      NoDupConcat(Refs(e.value), [e.jobId]);
      assert e.jobId in [e.jobId];
    }
  }

  // Running a batch

  ghost predicate Names(batch: seq<IssuanceJob>, refs: seq<nat>) {
    |batch| == |refs| && forall i :: 0 <= i < |batch| ==> batch[i].identity.jobId == refs[i] && WellKinded(batch[i])
  }

  lemma {:induction false} BatchNames(es: seq<PlannedEntry>, inDict: bool, jobs: seq<PlannedJob>, c: Codec)
    requires EntriesBound(es, inDict, jobs)
    ensures Names(Batch(es, inDict, jobs, c), OwnRefs(es))
  {
    if es != [] {
      BatchNames(es[..|es| - 1], inDict, jobs, c);
    }
  }

  lemma {:induction false} DecoyBatchNames(decoys: seq<nat>, location: nat, jobs: seq<PlannedJob>)
    requires DecoysBound(decoys, location, jobs)
    ensures Names(DecoyBatch(decoys, location, jobs), decoys)
  {
    if decoys != [] {
      DecoyBatchNames(decoys[..|decoys| - 1], location, jobs);
    }
  }

  lemma {:induction false} OwnRefsDistinct(es: seq<PlannedEntry>)
    requires NoDup(EntryRefs(es))
    ensures NoDup(OwnRefs(es))
    ensures forall x :: x in OwnRefs(es) ==> x in EntryRefs(es)
  {
    if es != [] {
      var n := |es| - 1;
      NoDupConcat(EntryRefs(es[..n]), RefsOf(es[n]));
      OwnRefsDistinct(es[..n]);
      if es[n].Disclosed? {
        assert es[n].jobId in RefsOf(es[n]);
      }
    }
  }

  lemma RunBatchHonest(batch: seq<IssuanceJob>, refs: seq<nat>, ex: Executor, c: Codec)
    requires Honest(ex, c) && Names(batch, refs) && NoDup(refs)
    ensures RunBatch(batch, ex) == Success(AllRestored(batch, c))
  {
    if batch != [] {
      assert Answered(ex(batch), batch, c);
      RestoreHonest(batch, ex(batch).value, c);
    }
  }

  lemma ProductAsPlanned(e: PlannedEntry, inDict: bool, jobs: seq<PlannedJob>, c: Codec)
    requires e.Disclosed? && EntryBound(e, inDict, jobs)
    ensures ProductOf(JobOf(e, inDict, jobs, c), c) == Disclosure(IssuedOf(ResolveEntry(e, inDict, jobs), inDict, c))
  {
    MadeAsPlanned(e, inDict, jobs, c);
  }

  lemma AllRestoredSnoc(batch: seq<IssuanceJob>, job: IssuanceJob, c: Codec)
    ensures AllRestored(batch + [job], c) == AllRestored(batch, c) + [Restored(job.identity, ProductOf(job, c))]
  {
  }

  /** One disclosure of the batch is recorded as the serial assembler would have recorded it. */
  lemma RecordRestoredExact(
      e: PlannedEntry, inDict: bool, jobs: seq<PlannedJob>, ids: seq<nat>, taken: set<nat>, done: map<nat, Issued>, c: Codec)
    requires ValidRegistry(jobs, ids) && e.Disclosed? && EntryBound(e, inDict, jobs) && e.jobId !in done
    ensures var d := IssuedOf(ResolveEntry(e, inDict, jobs), inDict, c);
      RecordRestored(JobOf(e, inDict, jobs, c).identity, d, After(jobs, ids, taken, done))
        == Success(After(jobs, ids, taken, done[e.jobId := d]))
  {
    RecordExact(jobs, ids, taken, done, e.jobId, IssuedOf(ResolveEntry(e, inDict, jobs), inDict, c));
  }

  lemma {:induction false} FillExact(
      es: seq<PlannedEntry>, restored: seq<Restored>, jobs: seq<PlannedJob>, ids: seq<nat>, taken: set<nat>, done: map<nat, Issued>,
      c: Codec)
    requires ValidRegistry(jobs, ids) && EntriesBound(es, false, jobs) && NoDup(OwnRefs(es))
    requires AllRestored(Batch(es, false, jobs, c), c) <= restored
    requires forall x :: x in OwnRefs(es) ==> x !in done
    ensures FillItems(Outputs(es, jobs, c), restored, After(jobs, ids, taken, done))
      == Success((ListPayload(ResolveEntries(es, false, jobs), c), After(jobs, ids, taken, done + OwnWork(es, false, jobs, c))))
  {
    if es == [] {
      assert done + map[] == done;
    } else {
      var n := |es| - 1;
      var front, e := es[..n], es[n];
      OwnRefsFront(es);
      FrontRestored(es, restored, jobs, c);
      FillExact(front, restored, jobs, ids, taken, done, c);
      OwnWorkKeys(front, false, jobs, c);
      FillOne(ListPayload(ResolveEntries(front, false, jobs), c), front, e, restored, jobs, ids, taken,
              done + OwnWork(front, false, jobs, c), c);
      OutputsSnoc(es, jobs, c);
      Snoc(ResolveEntries(front, false, jobs), ResolveEntry(e, false, jobs));
      if e.Disclosed? {
        WorkUpdate(done, OwnWork(front, false, jobs, c), e.jobId, IssuedOf(ResolveEntry(e, false, jobs), false, c));
      }
    }
  }

  lemma OwnRefsFront(es: seq<PlannedEntry>)
    requires es != [] && NoDup(OwnRefs(es))
    ensures var front, e := es[..|es| - 1], es[|es| - 1];
      && NoDup(OwnRefs(front))
      && (forall x :: x in OwnRefs(front) ==> x in OwnRefs(es))
      && (e.Disclosed? ==> e.jobId in OwnRefs(es) && e.jobId !in OwnRefs(front))
  {
    var front, e := es[..|es| - 1], es[|es| - 1];
    if e.Disclosed? {
      NoDupConcat(OwnRefs(front), [e.jobId]);
      assert e.jobId in [e.jobId];
    }
  }

  /** The disclosure of a hidden array element came back at place `k`. */
  ghost predicate Holds(restored: seq<Restored>, k: nat, e: PlannedEntry, jobs: seq<PlannedJob>, c: Codec)
    requires e.Disclosed? && EntryBound(e, false, jobs)
  {
    && k < |restored|
    && restored[k] == Restored(JobOf(e, false, jobs, c).identity, Disclosure(IssuedOf(ResolveEntry(e, false, jobs), false, c)))
  }

  lemma FrontRestored(es: seq<PlannedEntry>, restored: seq<Restored>, jobs: seq<PlannedJob>, c: Codec)
    requires es != [] && EntriesBound(es, false, jobs)
    requires AllRestored(Batch(es, false, jobs, c), c) <= restored
    ensures var front, e := es[..|es| - 1], es[|es| - 1];
      var k := |Batch(front, false, jobs, c)|;
      && AllRestored(Batch(front, false, jobs, c), c) <= restored
      && (e.Disclosed? ==> Holds(restored, k, e, jobs, c))
  {
    var front, e := es[..|es| - 1], es[|es| - 1];
    if e.Disclosed? {
      AllRestoredSnoc(Batch(front, false, jobs, c), JobOf(e, false, jobs, c), c);
      ProductAsPlanned(e, false, jobs, c);
    }
  }

  ghost function OutputOf(e: PlannedEntry, front: seq<PlannedEntry>, jobs: seq<PlannedJob>, c: Codec): ItemOutput
    requires EntryBound(e, false, jobs) && EntriesBound(front, false, jobs)
  {
    if e.Disclosed? then Awaited(|Batch(front, false, jobs, c)|) else Ready(Payload(ResolveEntry(e, false, jobs).value, c))
  }

  lemma OutputsSnoc(es: seq<PlannedEntry>, jobs: seq<PlannedJob>, c: Codec)
    requires es != [] && EntriesBound(es, false, jobs)
    ensures var n := |es| - 1;
      var o := Outputs(es, jobs, c);
      o != [] && o[..|o| - 1] == Outputs(es[..n], jobs, c) && o[|o| - 1] == OutputOf(es[n], es[..n], jobs, c)
  {
    Snoc(Outputs(es[..|es| - 1], jobs, c), OutputOf(es[|es| - 1], es[..|es| - 1], jobs, c));
  }

  lemma FillOne(
      claims: seq<Value>, front: seq<PlannedEntry>, e: PlannedEntry, restored: seq<Restored>, jobs: seq<PlannedJob>, ids: seq<nat>,
      taken: set<nat>, done: map<nat, Issued>, c: Codec)
    requires ValidRegistry(jobs, ids) && EntriesBound(front, false, jobs) && EntryBound(e, false, jobs)
    requires e.Disclosed? ==> e.jobId !in done && Holds(restored, |Batch(front, false, jobs, c)|, e, jobs, c)
    ensures var r := ResolveEntry(e, false, jobs);
      FillItem(claims, OutputOf(e, front, jobs, c), restored, After(jobs, ids, taken, done))
        == Success((claims + [ItemPayload(r, c)],
                    After(jobs, ids, taken, if e.Disclosed? then done[e.jobId := IssuedOf(r, false, c)] else done)))
  {
    if e.Disclosed? {
      RecordRestoredExact(e, false, jobs, ids, taken, done, c);
    }
  }

  lemma {:induction false} RecordBatchExact(
      es: seq<PlannedEntry>, jobs: seq<PlannedJob>, ids: seq<nat>, taken: set<nat>, done: map<nat, Issued>, c: Codec)
    requires ValidRegistry(jobs, ids) && EntriesBound(es, true, jobs) && NoDup(OwnRefs(es))
    requires forall x :: x in OwnRefs(es) ==> x !in done
    ensures RecordBatch(AllRestored(Batch(es, true, jobs, c), c), After(jobs, ids, taken, done))
      == Success((OwnDigests(ResolveEntries(es, true, jobs), true, c), After(jobs, ids, taken, done + OwnWork(es, true, jobs, c))))
  {
    if es == [] {
      assert done + map[] == done;
    } else {
      var n := |es| - 1;
      var front, e := es[..n], es[n];
      OwnRefsFront(es);
      RecordBatchExact(front, jobs, ids, taken, done, c);
      OwnWorkKeys(front, true, jobs, c);
      Snoc(ResolveEntries(front, true, jobs), ResolveEntry(e, true, jobs));
      if e.Disclosed? {
        RecordLast(Batch(front, true, jobs, c), e, OwnDigests(ResolveEntries(front, true, jobs), true, c),
                   After(jobs, ids, taken, done), jobs, ids, taken, done + OwnWork(front, true, jobs, c), c);
        WorkUpdate(done, OwnWork(front, true, jobs, c), e.jobId, IssuedOf(ResolveEntry(e, true, jobs), true, c));
      }
    }
  }

  lemma RecordLast(
      batch: seq<IssuanceJob>, e: PlannedEntry, digests: seq<string>, asm: Slots, jobs: seq<PlannedJob>, ids: seq<nat>,
      taken: set<nat>, done: map<nat, Issued>, c: Codec)
    requires ValidRegistry(jobs, ids) && e.Disclosed? && EntryBound(e, true, jobs) && e.jobId !in done
    requires RecordBatch(AllRestored(batch, c), asm) == Success((digests, After(jobs, ids, taken, done)))
    ensures var d := IssuedOf(ResolveEntry(e, true, jobs), true, c);
      RecordBatch(AllRestored(batch + [JobOf(e, true, jobs, c)], c), asm)
        == Success((digests + [d.hash], After(jobs, ids, taken, done[e.jobId := d])))
  {
    var job := JobOf(e, true, jobs, c);
    ProductAsPlanned(e, true, jobs, c);
    AllRestoredSnoc(batch, job, c);
    Snoc(AllRestored(batch, c), Restored(job.identity, ProductOf(job, c)));
    RecordRestoredExact(e, true, jobs, ids, taken, done, c);
  }

  lemma {:induction false} RecordDecoys(
      batch: seq<IssuanceJob>, digests: seq<string>, asm: Slots, asm': Slots, decoys: seq<nat>, location: nat, jobs: seq<PlannedJob>,
      c: Codec)
    requires DecoysBound(decoys, location, jobs)
    requires RecordBatch(AllRestored(batch, c), asm) == Success((digests, asm'))
    ensures RecordBatch(AllRestored(batch + DecoyBatch(decoys, location, jobs), c), asm)
      == Success((digests + DecoyDigests(DecoySalts(decoys, location, jobs), c), asm'))
  {
    if decoys == [] {
      assert batch + [] == batch && digests + DecoyDigests([], c) == digests;
    } else {
      var n := |decoys| - 1;
      var salts, op := DecoySalts(decoys[..n], location, jobs), jobs[decoys[n]].operation;
      var before, job := batch + DecoyBatch(decoys[..n], location, jobs), JobFor(decoys[n], location, op, Null);
      RecordDecoys(batch, digests, asm, asm', decoys[..n], location, jobs, c);
      assert batch + DecoyBatch(decoys, location, jobs) == before + [job];
      RecordLastDecoy(before, job, digests + DecoyDigests(salts, c), asm, asm', c);
      DecoyDigestsSnoc(salts, op.salt, digests, c);
    }
  }

  lemma RecordLastDecoy(batch: seq<IssuanceJob>, job: IssuanceJob, digests: seq<string>, asm: Slots, asm': Slots, c: Codec)
    requires job.operation.DecoyJob? && RecordBatch(AllRestored(batch, c), asm) == Success((digests, asm'))
    ensures RecordBatch(AllRestored(batch + [job], c), asm) == Success((digests + [c.hash(job.operation.salt)], asm'))
  {
    AllRestoredSnoc(batch, job, c);
    Snoc(AllRestored(batch, c), Restored(job.identity, ProductOf(job, c)));
  }

  // Exactness

  lemma {:induction false} BatchedValueExact(
      pv: PlannedValue, ex: Executor, c: Codec, jobs: seq<PlannedJob>, ids: seq<nat>, taken: set<nat>, done: map<nat, Issued>)
    requires Honest(ex, c) && ValidRegistry(jobs, ids) && done.Keys <= taken
    ensures var r, bound := BatchedValue(pv, After(jobs, ids, taken, done), ex), WellBound(pv, jobs);
      && (bound ==> Runs(r, true, Refs(pv), Payload(Resolve(pv, jobs), c), Work(pv, jobs, c), jobs, ids, taken, done))
      && (!bound ==> r.Failure?)
    decreases pv, 1
  {
    match pv.kind
    case Scalar(_) =>
      assert taken + Elements<nat>([]) == taken && done + map[] == done;
    case PlannedArray(es) =>
      CollectItemsExact(es, ex, c, jobs, ids, taken, done);
      ArrayExact(es, pv.location, ex, c, jobs, ids, taken, done);
    case PlannedObject(es, decoys) =>
      CollectMembersExact(es, ex, c, jobs, ids, taken, done);
      ObjectBatchExact(es, decoys, pv.location, ex, c, jobs, ids, taken, done);
  }

  lemma {:induction false} CollectDisclosedExact(
      e: PlannedEntry, inDict: bool, ex: Executor, c: Codec, jobs: seq<PlannedJob>, ids: seq<nat>, taken: set<nat>,
      done: map<nat, Issued>)
    requires Honest(ex, c) && e.Disclosed? && ValidRegistry(jobs, ids) && done.Keys <= taken
    ensures var r, bound := CollectDisclosed(e.value, e.jobId, inDict, After(jobs, ids, taken, done), ex), EntryBound(e, inDict, jobs);
      && (bound ==> Runs(r, true, RefsOf(e), JobOf(e, inDict, jobs, c), Below(e, inDict, jobs, c), jobs, ids, taken, done))
      && (!bound ==> r.Failure?)
    decreases e, 2
  {
    var value, jobId := e.value, e.jobId;
    BatchedValueExact(value, ex, c, jobs, ids, taken, done);
    UntakenConcat(Refs(value), [jobId], taken);
    var r := BatchedValue(value, After(jobs, ids, taken, done), ex);
    if r.Success? {
      var taken', done' := taken + Elements(Refs(value)), done + Work(value, jobs, c);
      TakeExact(jobs, ids, taken', done', jobId, value.location, DisclosureKind(inDict));
      SingleUntaken(jobId, taken');
    }
  }

  ghost function ItemBatchOf(es: seq<PlannedEntry>, jobs: seq<PlannedJob>, c: Codec): ItemBatch
    requires EntriesBound(es, false, jobs)
  {
    ItemBatch(Outputs(es, jobs, c), Batch(es, false, jobs, c))
  }

  lemma {:induction false} CollectItemsExact(
      es: seq<PlannedEntry>, ex: Executor, c: Codec, jobs: seq<PlannedJob>, ids: seq<nat>, taken: set<nat>, done: map<nat, Issued>)
    requires Honest(ex, c) && ValidRegistry(jobs, ids) && done.Keys <= taken
    ensures var r, bound := CollectItems(es, After(jobs, ids, taken, done), ex), EntriesBound(es, false, jobs);
      && (bound ==> Runs(r, true, EntryRefs(es), ItemBatchOf(es, jobs, c), InnerWork(es, false, jobs, c), jobs, ids, taken, done))
      && (!bound ==> r.Failure?)
    decreases es, 0
  {
    if es == [] {
      assert taken + Elements<nat>([]) == taken && done + map[] == done;
    } else {
      var n := |es| - 1;
      CollectItemsExact(es[..n], ex, c, jobs, ids, taken, done);
      UntakenConcat(EntryRefs(es[..n]), RefsOf(es[n]), taken);
      var r := CollectItems(es[..n], After(jobs, ids, taken, done), ex);
      if r.Success? {
        var taken', done' := taken + Elements(EntryRefs(es[..n])), done + InnerWork(es[..n], false, jobs, c);
        InnerWorkKeys(es[..n], false, jobs, c);
        CollectItemExact(es[..n], es[n], ex, c, jobs, ids, taken', done');
        if EntryBound(es[n], false, jobs) {
          WorkAssociates(done, InnerWork(es[..n], false, jobs, c), Below(es[n], false, jobs, c));
        }
      }
    }
  }

  ghost function WithItem(es: seq<PlannedEntry>, e: PlannedEntry, jobs: seq<PlannedJob>, c: Codec): ItemBatch
    requires EntriesBound(es, false, jobs) && EntryBound(e, false, jobs)
  {
    ItemBatch(Outputs(es, jobs, c) + [OutputOf(e, es, jobs, c)],
              if e.Disclosed? then Batch(es, false, jobs, c) + [JobOf(e, false, jobs, c)] else Batch(es, false, jobs, c))
  }

  lemma {:induction false} CollectItemExact(
      es: seq<PlannedEntry>, e: PlannedEntry, ex: Executor, c: Codec, jobs: seq<PlannedJob>, ids: seq<nat>, taken: set<nat>,
      done: map<nat, Issued>)
    requires Honest(ex, c) && ValidRegistry(jobs, ids) && done.Keys <= taken && EntriesBound(es, false, jobs)
    ensures var r, bound := CollectItem(ItemBatchOf(es, jobs, c), e, After(jobs, ids, taken, done), ex), EntryBound(e, false, jobs);
      && (bound ==> Runs(r, true, RefsOf(e), WithItem(es, e, jobs, c), Below(e, false, jobs, c), jobs, ids, taken, done))
      && (!bound ==> r.Failure?)
    decreases e, 3
  {
    match e
    case Visible(_, value) => BatchedValueExact(value, ex, c, jobs, ids, taken, done);
    case Disclosed(_, _) => CollectDisclosedExact(e, false, ex, c, jobs, ids, taken, done);
  }

  ghost function MemberBatchOf(es: seq<PlannedEntry>, jobs: seq<PlannedJob>, c: Codec): MemberBatch
    requires EntriesBound(es, true, jobs)
  {
    MemberBatch(VisibleMembers(ResolveEntries(es, true, jobs), c), Batch(es, true, jobs, c))
  }

  lemma {:induction false} CollectMembersExact(
      es: seq<PlannedEntry>, ex: Executor, c: Codec, jobs: seq<PlannedJob>, ids: seq<nat>, taken: set<nat>, done: map<nat, Issued>)
    requires Honest(ex, c) && ValidRegistry(jobs, ids) && done.Keys <= taken
    ensures var r, bound := CollectMembers(es, After(jobs, ids, taken, done), ex), EntriesBound(es, true, jobs);
      && (bound ==> Runs(r, true, EntryRefs(es), MemberBatchOf(es, jobs, c), InnerWork(es, true, jobs, c), jobs, ids, taken, done))
      && (!bound ==> r.Failure?)
    decreases es, 0
  {
    if es == [] {
      assert taken + Elements<nat>([]) == taken && done + map[] == done;
    } else {
      var n := |es| - 1;
      CollectMembersExact(es[..n], ex, c, jobs, ids, taken, done);
      UntakenConcat(EntryRefs(es[..n]), RefsOf(es[n]), taken);
      var r := CollectMembers(es[..n], After(jobs, ids, taken, done), ex);
      if r.Success? {
        var taken', done' := taken + Elements(EntryRefs(es[..n])), done + InnerWork(es[..n], true, jobs, c);
        InnerWorkKeys(es[..n], true, jobs, c);
        CollectMemberExact(r.value.0, es[n], ex, c, jobs, ids, taken', done');
        if EntryBound(es[n], true, jobs) {
          WorkAssociates(done, InnerWork(es[..n], true, jobs, c), Below(es[n], true, jobs, c));
          Snoc(ResolveEntries(es[..n], true, jobs), ResolveEntry(es[n], true, jobs));
        }
      }
    }
  }

  ghost function WithMember(b: MemberBatch, e: PlannedEntry, jobs: seq<PlannedJob>, c: Codec): MemberBatch
    requires EntryBound(e, true, jobs)
  {
    if e.Disclosed? then b.(jobs := b.jobs + [JobOf(e, true, jobs, c)])
    else b.(members := Put(b.members, e.key, Payload(ResolveEntry(e, true, jobs).value, c)))
  }

  lemma {:induction false} CollectMemberExact(
      b: MemberBatch, e: PlannedEntry, ex: Executor, c: Codec, jobs: seq<PlannedJob>, ids: seq<nat>, taken: set<nat>,
      done: map<nat, Issued>)
    requires Honest(ex, c) && ValidRegistry(jobs, ids) && done.Keys <= taken
    ensures var r, bound := CollectMember(b, e, After(jobs, ids, taken, done), ex), EntryBound(e, true, jobs);
      && (bound ==> Runs(r, true, RefsOf(e), WithMember(b, e, jobs, c), Below(e, true, jobs, c), jobs, ids, taken, done))
      && (!bound ==> r.Failure?)
    decreases e, 3
  {
    match e
    case Visible(_, value) => BatchedValueExact(value, ex, c, jobs, ids, taken, done);
    case Disclosed(_, _) => CollectDisclosedExact(e, true, ex, c, jobs, ids, taken, done);
  }

  lemma {:induction false} CollectDecoysExact(
      decoys: seq<nat>, location: nat, batch: seq<IssuanceJob>, jobs: seq<PlannedJob>, ids: seq<nat>, taken: set<nat>,
      done: map<nat, Issued>)
    requires ValidRegistry(jobs, ids)
    ensures var r, bound := CollectDecoys(decoys, location, batch, After(jobs, ids, taken, done)), DecoysBound(decoys, location, jobs);
      && (bound ==> Runs(r, true, decoys, batch + DecoyBatch(decoys, location, jobs), map[], jobs, ids, taken, done))
      && (!bound ==> r.Failure?)
  {
    assert done + map[] == done;
    if decoys == [] {
      assert taken + Elements<nat>([]) == taken && batch + [] == batch;
    } else {
      var n := |decoys| - 1;
      CollectDecoysExact(decoys[..n], location, batch, jobs, ids, taken, done);
      assert decoys == decoys[..n] + [decoys[n]];
      UntakenConcat(decoys[..n], [decoys[n]], taken);
      SingleUntaken(decoys[n], taken + Elements(decoys[..n]));
      var r := CollectDecoys(decoys[..n], location, batch, After(jobs, ids, taken, done));
      if r.Success? {
        TakeExact(jobs, ids, taken + Elements(decoys[..n]), done, decoys[n], location, DecoyKind);
        if BoundTo(decoys[n], location, DecoyKind, jobs) {
          var job := JobFor(decoys[n], location, jobs[decoys[n]].operation, Null);
          assert (batch + DecoyBatch(decoys[..n], location, jobs)) + [job] == batch + DecoyBatch(decoys, location, jobs);
        }
      }
    }
  }

  /** Once the children are collected, running the batch and recording it completes the container. */
  lemma OwnUnrecorded(es: seq<PlannedEntry>, inDict: bool, jobs: seq<PlannedJob>, taken: set<nat>, done: map<nat, Issued>, c: Codec)
    requires EntriesBound(es, inDict, jobs) && Untaken(EntryRefs(es), taken) && done.Keys <= taken
    ensures NoDup(OwnRefs(es))
    ensures forall x :: x in OwnRefs(es) ==> x !in done + InnerWork(es, inDict, jobs, c)
    ensures (done + InnerWork(es, inDict, jobs, c)) + OwnWork(es, inDict, jobs, c) == done + EntriesWork(es, inDict, jobs, c)
  {
    OwnRefsDistinct(es);
    OwnWorkKeys(es, inDict, jobs, c);
    LateRecording(es, inDict, jobs, c);
    WorkAssociates(done, InnerWork(es, inDict, jobs, c), OwnWork(es, inDict, jobs, c));
  }

  lemma ArrayExact(
      es: seq<PlannedEntry>, location: nat, ex: Executor, c: Codec, jobs: seq<PlannedJob>, ids: seq<nat>, taken: set<nat>,
      done: map<nat, Issued>)
    requires Honest(ex, c) && ValidRegistry(jobs, ids) && done.Keys <= taken
    requires var r, bound := CollectItems(es, After(jobs, ids, taken, done), ex), EntriesBound(es, false, jobs);
      && (bound ==> Runs(r, true, EntryRefs(es), ItemBatchOf(es, jobs, c), InnerWork(es, false, jobs, c), jobs, ids, taken, done))
      && (!bound ==> r.Failure?)
    ensures var pv := PlannedValue(location, PlannedArray(es));
      var r, bound := BatchedValue(pv, After(jobs, ids, taken, done), ex), WellBound(pv, jobs);
      && (bound ==> Runs(r, true, Refs(pv), Payload(Resolve(pv, jobs), c), Work(pv, jobs, c), jobs, ids, taken, done))
      && (!bound ==> r.Failure?)
  {
    if CollectItems(es, After(jobs, ids, taken, done), ex).Success? {
      OwnUnrecorded(es, false, jobs, taken, done, c);
      BatchNames(es, false, jobs, c);
      RunBatchHonest(Batch(es, false, jobs, c), OwnRefs(es), ex, c);
      FillExact(es, AllRestored(Batch(es, false, jobs, c), c), jobs, ids, taken + Elements(EntryRefs(es)),
                done + InnerWork(es, false, jobs, c), c);
    }
  }

  lemma ObjectBatchExact(
      es: seq<PlannedEntry>, decoys: seq<nat>, location: nat, ex: Executor, c: Codec, jobs: seq<PlannedJob>, ids: seq<nat>,
      taken: set<nat>, done: map<nat, Issued>)
    requires Honest(ex, c) && ValidRegistry(jobs, ids) && done.Keys <= taken
    requires var r, bound := CollectMembers(es, After(jobs, ids, taken, done), ex), EntriesBound(es, true, jobs);
      && (bound ==> Runs(r, true, EntryRefs(es), MemberBatchOf(es, jobs, c), InnerWork(es, true, jobs, c), jobs, ids, taken, done))
      && (!bound ==> r.Failure?)
    ensures var pv := PlannedValue(location, PlannedObject(es, decoys));
      var r, bound := BatchedValue(pv, After(jobs, ids, taken, done), ex), WellBound(pv, jobs);
      && (bound ==> Runs(r, true, Refs(pv), Payload(Resolve(pv, jobs), c), Work(pv, jobs, c), jobs, ids, taken, done))
      && (!bound ==> r.Failure?)
  {
    UntakenConcat(EntryRefs(es), decoys, taken);
    if CollectMembers(es, After(jobs, ids, taken, done), ex).Success? {
      var taken', done' := taken + Elements(EntryRefs(es)), done + InnerWork(es, true, jobs, c);
      CollectDecoysExact(decoys, location, Batch(es, true, jobs, c), jobs, ids, taken', done');
      assert done' + map[] == done';
      if DecoysBound(decoys, location, jobs) && Untaken(decoys, taken') {
        OwnUnrecorded(es, true, jobs, taken, done, c);
        ObjectRecorded(es, decoys, location, ex, c, jobs, ids, taken' + Elements(decoys), done');
      }
    }
  }

  lemma ObjectRecorded(
      es: seq<PlannedEntry>, decoys: seq<nat>, location: nat, ex: Executor, c: Codec, jobs: seq<PlannedJob>, ids: seq<nat>,
      taken: set<nat>, done: map<nat, Issued>)
    requires Honest(ex, c) && ValidRegistry(jobs, ids) && EntriesBound(es, true, jobs) && DecoysBound(decoys, location, jobs)
    requires NoDup(EntryRefs(es) + decoys) && forall x :: x in OwnRefs(es) ==> x !in done
    ensures var restored := RunBatch(Batch(es, true, jobs, c) + DecoyBatch(decoys, location, jobs), ex);
      && restored.Success?
      && RecordBatch(restored.value, After(jobs, ids, taken, done))
        == Success((OwnDigests(ResolveEntries(es, true, jobs), true, c) + DecoyDigests(DecoySalts(decoys, location, jobs), c),
                    After(jobs, ids, taken, done + OwnWork(es, true, jobs, c))))
  {
    var batch, decoyBatch := Batch(es, true, jobs, c), DecoyBatch(decoys, location, jobs);
    NoDupConcat(EntryRefs(es), decoys);
    OwnRefsDistinct(es);
    NoDupConcat(OwnRefs(es), decoys);
    BatchNames(es, true, jobs, c);
    DecoyBatchNames(decoys, location, jobs);
    RunBatchHonest(batch + decoyBatch, OwnRefs(es) + decoys, ex, c);
    RecordBatchExact(es, jobs, ids, taken, done, c);
    RecordDecoys(batch, OwnDigests(ResolveEntries(es, true, jobs), true, c), After(jobs, ids, taken, done),
                 After(jobs, ids, taken, done + OwnWork(es, true, jobs, c)), decoys, location, jobs, c);
  }

  /**
   For every plan, corrupted ones included, and every honest executor: the executor-driven assembler succeeds exactly
   when the serial one does, and then with the same payload and the same disclosures in the same order.
   */
  lemma BatchedRefinesSerial(plan: IssuancePlan, ex: Executor, c: Codec)
    requires Honest(ex, c)
    ensures ExecuteBatched(plan, ex).Success? <==> ExecuteSerial(plan, c).Success?
    ensures ExecuteSerial(plan, c).Success? ==> ExecuteBatched(plan, ex).value == ExecuteSerial(plan, c).value
  {
    var jobs, ids, root := plan.jobs, plan.disclosureJobIds, plan.root;
    RegistryErrorIff(jobs, ids);
    if ValidRegistry(jobs, ids) {
      FreshIsAfter(plan);
      ValueExact(root, c, jobs, ids, {}, map[]);
      BatchedValueExact(root, ex, c, jobs, ids, {}, map[]);
    }
  }

  /** Planner-made plans: whatever the order of completion, the serial payload and ordered disclosures. */
  lemma PlannedBatchedIssuance(claims: Value, s: Strategy, cfg: Config, ex: Executor, c: Codec)
    requires Honest(ex, c)
    ensures var plan := Create(claims, s, cfg);
      && WellBound(plan.root, plan.jobs)
      && var t := Resolve(plan.root, plan.jobs);
      ExecuteBatched(plan, ex) == Success(Assembled(Payload(t, c), Issues(t, c)))
  {
    PlannedIssuance(claims, s, cfg, c);
    BatchedRefinesSerial(Create(claims, s, cfg), ex, c);
  }
}
