/**
 `SerialAssembler`: the slots that assembly takes from and fills, and its methods, serial and executor-driven, against
 the functions of `Assembly` and `ParallelIssuance`.
 */
module Assembler {
  import opened Assembly
  import opened ClaimTree
  import opened Json
  import opened ParallelIssuance
  import opened Plan
  import opened Restoration
  import opened Wrappers

  /** `validate_registry`. */
  method ValidateRegistry(jobs: seq<PlannedJob>, disclosureJobIds: seq<nat>) returns (r: Result<(), PlanError>)
    ensures r == match RegistryError(jobs, disclosureJobIds) case None => Success(()) case Some(e) => Failure(e)
  {
    for index := 0 to |jobs|
      invariant JobsError(jobs[..index], disclosureJobIds).None?
    {
      JobsErrorPrefix(jobs, index + 1, disclosureJobIds);
      assert jobs[..index + 1][..index] == jobs[..index];
      var job := jobs[index];
      if job.jobId != index {
        return Failure(JobIndexMismatch);
      }
      var ordinal := OrdinalOf(job.operation);
      if ordinal.Some? {
        if ordinal.value >= |disclosureJobIds| {
          return Failure(OrdinalOutOfBounds);
        }
        if disclosureJobIds[ordinal.value] != job.jobId {
          return Failure(OrdinalNamesOtherJob);
        }
      }
    }
    assert jobs[..|jobs|] == jobs;
    for ordinal := 0 to |disclosureJobIds|
      invariant IdsError(disclosureJobIds[..ordinal], jobs).None?
    {
      IdsErrorPrefix(disclosureJobIds, ordinal + 1, jobs);
      assert disclosureJobIds[..ordinal + 1][..ordinal] == disclosureJobIds[..ordinal];
      var jobId := disclosureJobIds[ordinal];
      if jobId >= |jobs| {
        return Failure(DisclosureJobOutOfBounds);
      }
      if OrdinalOf(jobs[jobId].operation) != Some(ordinal) {
        return Failure(OrdinalMismatch);
      }
    }
    assert disclosureJobIds[..|disclosureJobIds|] == disclosureJobIds;
    return Success(());
  }

  class SerialAssembler {
    var disclosures: seq<Option<Issued>>
    var jobs: seq<Option<PlannedJob>>
    var disclosureJobIds: seq<nat>

    constructor (jobs: seq<PlannedJob>, disclosureJobIds: seq<nat>)
      ensures forall root :: State() == Fresh(IssuancePlan(root, jobs, disclosureJobIds))
    {
      this.jobs := seq(|jobs|, i requires 0 <= i < |jobs| => Some(jobs[i]));
      this.disclosures := seq(|disclosureJobIds|, i => None);
      this.disclosureJobIds := disclosureJobIds;
    }

    function State(): Slots
      reads this
    {
      Slots(jobs, disclosures, disclosureJobIds)
    }

    /** The method's result and the slots it leaves are those of the specification `spec`. */
    ghost predicate Follows<T(!new), E(!new)>(r: Result<T, E>, spec: Result<(T, Slots), E>)
      reads this
    {
      match spec
      case Success(out) => r == Success(out.0) && State() == out.1
      case Failure(e) => r == Failure(e)
    }

    method TakePlannedJob(jobId: nat, location: nat, kind: Kind) returns (r: Result<Operation, PlanError>)
      modifies this
      ensures Follows(r, Take(old(State()), jobId, location, kind))
    {
      if jobId >= |jobs| {
        return Failure(JobOutOfBounds);
      }
      var slot := jobs[jobId];
      jobs := jobs[jobId := None];
      if slot.None? {
        return Failure(JobTakenTwice);
      }
      var job := slot.value;
      if job.jobId != jobId {
        return Failure(WrongIdentity);
      }
      if job.location != location {
        return Failure(WrongLocation);
      }
      if KindOf(job.operation) != kind {
        return Failure(WrongKind);
      }
      return Success(job.operation);
    }

    method RecordDisclosure(jobId: nat, ordinal: nat, disclosure: Issued) returns (r: Result<(), PlanError>)
      modifies this
      ensures match Assembly.Record(old(State()), jobId, ordinal, disclosure)
        case Success(slots) => r == Success(()) && State() == slots
        case Failure(e) => r == Failure(e)
    {
      if ordinal >= |disclosureJobIds| || disclosureJobIds[ordinal] != jobId {
        return Failure(ResultNamesOtherJob);
      }
      if ordinal >= |disclosures| {
        return Failure(OrdinalOutOfBounds);
      }
      if disclosures[ordinal].Some? {
        return Failure(OrdinalRepeated);
      }
      disclosures := disclosures[ordinal := Some(disclosure)];
      return Success(());
    }

    method FinishAssembly(claims: Value) returns (r: Result<Assembled, PlanError>)
      ensures r == Finish(claims, State())
    {
      for i := 0 to |jobs|
        invariant forall j :: 0 <= j < i ==> jobs[j].None?
      {
        if jobs[i].Some? {
          return Failure(JobsLeft);
        }
      }
      var made := [];
      for o := 0 to |disclosures|
        invariant |made| == o && forall j :: 0 <= j < o ==> disclosures[j] == Some(made[j])
      {
        if disclosures[o].None? {
          return Failure(DisclosureMissing);
        }
        made := made + [disclosures[o].value];
      }
      assert made == Finish(claims, State()).value.disclosures;
      return Success(Assembled(claims, made));
    }

    method ExecuteValue(value: PlannedValue, c: Codec) returns (r: Result<Value, PlanError>)
      modifies this
      ensures Follows(r, ExecValue(value, old(State()), c))
      decreases value, 2
    {
      match value.kind
      case Scalar(v) => return Success(v);
      case PlannedArray(entries) => r := ExecuteArray(entries, c);
      case PlannedObject(entries, decoyJobIds) => r := ExecuteObject(value.location, entries, decoyJobIds, c);
    }

    method ExecuteDisclosed(value: PlannedValue, jobId: nat, inDict: bool, c: Codec) returns (r: Result<Issued, PlanError>)
      modifies this
      ensures Follows(r, ExecDisclosed(value, jobId, inDict, old(State()), c))
      decreases value, 3
    {
      var subtree :- ExecuteValue(value, c);
      var operation :- TakePlannedJob(jobId, value.location, DisclosureKind(inDict));
      var disclosure := NewDisclosure(operation, subtree, c);
      var _ :- RecordDisclosure(jobId, operation.ordinal, disclosure);
      return Success(disclosure);
    }

    method ExecuteArray(entries: seq<PlannedEntry>, c: Codec) returns (r: Result<Value, PlanError>)
      modifies this
      ensures Follows(r, ExecValue(PlannedValue(0, PlannedArray(entries)), old(State()), c))
      decreases entries
    {
      var claims := [];
      for i := 0 to |entries|
        invariant ExecItems(entries[..i], old(State()), c) == Success((claims, State()))
      {
        ItemsNext(entries, i, old(State()), c);
        var entry := entries[i];
        match entry {
          case Visible(_, value) =>
            var v :- ExecuteValue(value, c);
            claims := claims + [v];
          case Disclosed(value, jobId) =>
            assert value < entry;
            var disclosure :- ExecuteDisclosed(value, jobId, false, c);
            claims := claims + [Placeholder(disclosure.hash)];
        }
      }
      assert entries[..|entries|] == entries;
      return Success(Array(claims));
    }

    method ExecuteObject(location: nat, entries: seq<PlannedEntry>, decoyJobIds: seq<nat>, c: Codec)
      returns (r: Result<Value, PlanError>)
      modifies this
      ensures Follows(r, ExecValue(PlannedValue(location, PlannedObject(entries, decoyJobIds)), old(State()), c))
      decreases entries
    {
      var claims := [Member(SD_DIGESTS_KEY, Null)];
      var digests := [];
      for i := 0 to |entries|
        invariant ExecMembers(entries[..i], old(State()), c) == Success((Partial(claims, digests), State()))
      {
        MembersNext(entries, i, old(State()), c);
        var entry := entries[i];
        match entry {
          case Visible(key, value) =>
            var v :- ExecuteValue(value, c);
            claims := Put(claims, key, v);
          case Disclosed(value, jobId) =>
            assert value < entry;
            var disclosure :- ExecuteDisclosed(value, jobId, true, c);
            digests := digests + [disclosure.hash];
        }
      }
      assert entries[..|entries|] == entries;
      ghost var middle, own := State(), digests;
      for i := 0 to |decoyJobIds|
        invariant ExecDecoys(decoyJobIds[..i], location, own, middle, c) == Success((digests, State()))
      {
        ExecDecoysPrefix(decoyJobIds, i + 1, location, own, middle, c);
        assert decoyJobIds[..i + 1][..i] == decoyJobIds[..i];
        var operation :- TakePlannedJob(decoyJobIds[i], location, DecoyKind);
        digests := digests + [c.hash(operation.salt)];
      }
      assert decoyJobIds[..|decoyJobIds|] == decoyJobIds;
      return Success(Object(Seal(claims, digests)));
    }

    method ExecuteValueWithExecutor(value: PlannedValue, executor: Executor) returns (r: Result<Value, ExecError>)
      modifies this
      ensures Follows(r, BatchedValue(value, old(State()), executor))
      decreases value, 2
    {
      match value.kind
      case Scalar(v) => return Success(v);
      case PlannedArray(entries) => r := ExecuteArrayWithExecutor(entries, executor);
      case PlannedObject(entries, decoyJobIds) => r := ExecuteObjectWithExecutor(value.location, entries, decoyJobIds, executor);
    }

    method CollectJob(value: PlannedValue, jobId: nat, inDict: bool, executor: Executor) returns (r: Result<IssuanceJob, ExecError>)
      modifies this
      ensures Follows(r, CollectDisclosed(value, jobId, inDict, old(State()), executor))
      decreases value, 3
    {
      var subtree :- ExecuteValueWithExecutor(value, executor);
      var taken := TakePlannedJob(jobId, value.location, DisclosureKind(inDict));
      var operation :- OfPlan(taken);
      return Success(JobFor(jobId, value.location, operation, subtree));
    }

    method RecordProduct(identity: Identity, disclosure: Issued) returns (r: Result<(), ExecError>)
      modifies this
      ensures match RecordRestored(identity, disclosure, old(State()))
        case Success(slots) => r == Success(()) && State() == slots
        case Failure(e) => r == Failure(e)
    {
      if identity.ordinal.None? {
        return Failure(NoOrdinal);
      }
      var recorded := RecordDisclosure(identity.jobId, identity.ordinal.value, disclosure);
      return OfPlan(recorded);
    }

    method ExecuteArrayWithExecutor(entries: seq<PlannedEntry>, executor: Executor) returns (r: Result<Value, ExecError>)
      modifies this
      ensures Follows(r, BatchedValue(PlannedValue(0, PlannedArray(entries)), old(State()), executor))
      decreases entries, 1
    {
      var batch :- CollectArrayBatch(entries, executor);
      var restored :- ExecuteAndRestore(batch.jobs, executor);
      ghost var middle := State();
      var outputs, claims := batch.outputs, [];
      for i := 0 to |outputs|
        invariant FillItems(outputs[..i], restored, middle) == Success((claims, State()))
      {
        FillNext(outputs, i, restored, middle);
        match outputs[i] {
          case Ready(v) => claims := claims + [v];
          case Awaited(index) =>
            if index >= |restored| {
              return Failure(MissingOutcome);
            }
            var job := restored[index];
            if job.product.DecoyDigest? {
              return Failure(WrongResultKind);
            }
            var _ :- RecordProduct(job.identity, job.product.d);
            claims := claims + [Placeholder(job.product.d.hash)];
        }
      }
      assert outputs[..|outputs|] == outputs;
      return Success(Array(claims));
    }

    method CollectArrayBatch(entries: seq<PlannedEntry>, executor: Executor) returns (r: Result<ItemBatch, ExecError>)
      modifies this
      ensures Follows(r, CollectItems(entries, old(State()), executor))
      decreases entries, 0
    {
      var outputs, jobs := [], [];
      for i := 0 to |entries|
        invariant CollectItems(entries[..i], old(State()), executor) == Success((ItemBatch(outputs, jobs), State()))
      {
        CollectItemsNext(entries, i, old(State()), executor);
        var entry := entries[i];
        match entry {
          case Visible(_, value) =>
            var v :- ExecuteValueWithExecutor(value, executor);
            outputs := outputs + [Ready(v)];
          case Disclosed(value, jobId) =>
            assert value < entry;
            var job :- CollectJob(value, jobId, false, executor);
            outputs, jobs := outputs + [Awaited(|jobs|)], jobs + [job];
        }
      }
      assert entries[..|entries|] == entries;
      return Success(ItemBatch(outputs, jobs));
    }

    method ExecuteObjectWithExecutor(location: nat, entries: seq<PlannedEntry>, decoyJobIds: seq<nat>, executor: Executor)
      returns (r: Result<Value, ExecError>)
      modifies this
      ensures Follows(r, BatchedValue(PlannedValue(location, PlannedObject(entries, decoyJobIds)), old(State()), executor))
      decreases entries, 1
    {
      var batch :- CollectObjectBatch(entries, executor);
      var jobs :- CollectDecoyJobs(location, decoyJobIds, batch.jobs);
      var restored :- ExecuteAndRestore(jobs, executor);
      ghost var middle := State();
      var digests := [];
      for i := 0 to |restored|
        invariant RecordBatch(restored[..i], middle) == Success((digests, State()))
      {
        RecordNext(restored, i, middle);
        match restored[i].product {
          case Disclosure(d) =>
            var _ :- RecordProduct(restored[i].identity, d);
            digests := digests + [d.hash];
          case DecoyDigest(digest) => digests := digests + [digest];
        }
      }
      assert restored[..|restored|] == restored;
      return Success(Object(Seal(batch.members, digests)));
    }

    method CollectObjectBatch(entries: seq<PlannedEntry>, executor: Executor) returns (r: Result<MemberBatch, ExecError>)
      modifies this
      ensures Follows(r, CollectMembers(entries, old(State()), executor))
      decreases entries, 0
    {
      var claims, jobs := [Member(SD_DIGESTS_KEY, Null)], [];
      for i := 0 to |entries|
        invariant CollectMembers(entries[..i], old(State()), executor) == Success((MemberBatch(claims, jobs), State()))
      {
        CollectMembersNext(entries, i, old(State()), executor);
        var entry := entries[i];
        match entry {
          case Visible(key, value) =>
            var v :- ExecuteValueWithExecutor(value, executor);
            claims := Put(claims, key, v);
          case Disclosed(value, jobId) =>
            assert value < entry;
            var job :- CollectJob(value, jobId, true, executor);
            jobs := jobs + [job];
        }
      }
      assert entries[..|entries|] == entries;
      return Success(MemberBatch(claims, jobs));
    }

    method CollectDecoyJobs(location: nat, decoyJobIds: seq<nat>, batch: seq<IssuanceJob>) returns (r: Result<seq<IssuanceJob>, ExecError>)
      modifies this
      ensures Follows(r, CollectDecoys(decoyJobIds, location, batch, old(State())))
    {
      var jobs := batch;
      for i := 0 to |decoyJobIds|
        invariant CollectDecoys(decoyJobIds[..i], location, batch, old(State())) == Success((jobs, State()))
      {
        CollectDecoysPrefix(decoyJobIds, i + 1, location, batch, old(State()));
        assert decoyJobIds[..i + 1][..i] == decoyJobIds[..i];
        var taken := TakePlannedJob(decoyJobIds[i], location, DecoyKind);
        var operation :- OfPlan(taken);
        jobs := jobs + [JobFor(decoyJobIds[i], location, operation, Null)];
      }
      assert decoyJobIds[..|decoyJobIds|] == decoyJobIds;
      return Success(jobs);
    }
  }

  /** `execute_and_restore`. */
  method ExecuteAndRestore(jobs: seq<IssuanceJob>, executor: Executor) returns (r: Result<seq<Restored>, ExecError>)
    ensures r == RunBatch(jobs, executor)
  {
    if jobs == [] {
      return Success([]);
    }
    var outcomes :- executor(jobs);
    r := RestoreIssuanceOutcomes(Identities(jobs), outcomes);
  }

  /** `execute_with_executor`. */
  method ExecuteWithExecutor(plan: IssuancePlan, executor: Executor) returns (r: Result<Assembled, ExecError>)
    ensures r == ExecuteBatched(plan, executor)
  {
    var valid := ValidateRegistry(plan.jobs, plan.disclosureJobIds);
    var _ :- OfPlan(valid);
    var assembler := new SerialAssembler(plan.jobs, plan.disclosureJobIds);
    assert assembler.State() == Fresh(IssuancePlan(plan.root, plan.jobs, plan.disclosureJobIds));
    var claims :- assembler.ExecuteValueWithExecutor(plan.root, executor);
    var assembled := assembler.FinishAssembly(claims);
    return OfPlan(assembled);
  }

  /** `execute_serial`. */
  method Execute(plan: IssuancePlan, c: Codec) returns (r: Result<Assembled, PlanError>)
    ensures r == ExecuteSerial(plan, c)
  {
    var _ :- ValidateRegistry(plan.jobs, plan.disclosureJobIds);
    var assembler := new SerialAssembler(plan.jobs, plan.disclosureJobIds);
    assert assembler.State() == Fresh(IssuancePlan(plan.root, plan.jobs, plan.disclosureJobIds));
    var claims :- assembler.ExecuteValue(plan.root, c);
    r := assembler.FinishAssembly(claims);
  }

  // An error in a prefix is the error of the whole list

  lemma {:induction false} JobsErrorPrefix(jobs: seq<PlannedJob>, i: nat, ids: seq<nat>)
    requires i <= |jobs|
    ensures JobsError(jobs[..i], ids).Some? ==> JobsError(jobs, ids) == JobsError(jobs[..i], ids)
  {
    if i == |jobs| {
      assert jobs[..i] == jobs;
    } else {
      JobsErrorPrefix(jobs[..|jobs| - 1], i, ids);
      assert jobs[..|jobs| - 1][..i] == jobs[..i];
    }
  }

  lemma {:induction false} IdsErrorPrefix(ids: seq<nat>, i: nat, jobs: seq<PlannedJob>)
    requires i <= |ids|
    ensures IdsError(ids[..i], jobs).Some? ==> IdsError(ids, jobs) == IdsError(ids[..i], jobs)
  {
    if i == |ids| {
      assert ids[..i] == ids;
    } else {
      IdsErrorPrefix(ids[..|ids| - 1], i, jobs);
      assert ids[..|ids| - 1][..i] == ids[..i];
    }
  }

  lemma {:induction false} ExecItemsPrefix(es: seq<PlannedEntry>, i: nat, asm: Slots, c: Codec)
    requires i <= |es|
    ensures ExecItems(es[..i], asm, c).Failure? ==> ExecItems(es, asm, c) == ExecItems(es[..i], asm, c)
  {
    if i == |es| {
      assert es[..i] == es;
    } else {
      ExecItemsPrefix(es[..|es| - 1], i, asm, c);
      assert es[..|es| - 1][..i] == es[..i];
    }
  }

  /** One more entry: its outcome is the outcome of the longer prefix, and its error that of the whole list. */
  lemma ItemsNext(es: seq<PlannedEntry>, i: nat, asm: Slots, c: Codec)
    requires i < |es| && ExecItems(es[..i], asm, c).Success?
    ensures var r := ExecItems(es[..i], asm, c).value;
      var next := ExecItem(r.0, es[i], r.1, c);
      ExecItems(es[..i + 1], asm, c) == next && (next.Failure? ==> ExecItems(es, asm, c) == next)
  {
    ExecItemsPrefix(es, i + 1, asm, c);
    assert es[..i + 1][..i] == es[..i];
  }

  lemma {:induction false} ExecMembersPrefix(es: seq<PlannedEntry>, i: nat, asm: Slots, c: Codec)
    requires i <= |es|
    ensures ExecMembers(es[..i], asm, c).Failure? ==> ExecMembers(es, asm, c) == ExecMembers(es[..i], asm, c)
  {
    if i == |es| {
      assert es[..i] == es;
    } else {
      ExecMembersPrefix(es[..|es| - 1], i, asm, c);
      assert es[..|es| - 1][..i] == es[..i];
    }
  }

  lemma MembersNext(es: seq<PlannedEntry>, i: nat, asm: Slots, c: Codec)
    requires i < |es| && ExecMembers(es[..i], asm, c).Success?
    ensures var r := ExecMembers(es[..i], asm, c).value;
      var next := ExecMember(r.0, es[i], r.1, c);
      ExecMembers(es[..i + 1], asm, c) == next && (next.Failure? ==> ExecMembers(es, asm, c) == next)
  {
    ExecMembersPrefix(es, i + 1, asm, c);
    assert es[..i + 1][..i] == es[..i];
  }

  lemma {:induction false} ExecDecoysPrefix(decoys: seq<nat>, i: nat, location: nat, digests: seq<string>, asm: Slots, c: Codec)
    requires i <= |decoys|
    ensures ExecDecoys(decoys[..i], location, digests, asm, c).Failure? ==>
      ExecDecoys(decoys, location, digests, asm, c) == ExecDecoys(decoys[..i], location, digests, asm, c)
  {
    if i == |decoys| {
      assert decoys[..i] == decoys;
    } else {
      ExecDecoysPrefix(decoys[..|decoys| - 1], i, location, digests, asm, c);
      assert decoys[..|decoys| - 1][..i] == decoys[..i];
    }
  }

  lemma {:induction false} CollectItemsPrefix(es: seq<PlannedEntry>, i: nat, asm: Slots, ex: Executor)
    requires i <= |es|
    ensures CollectItems(es[..i], asm, ex).Failure? ==> CollectItems(es, asm, ex) == CollectItems(es[..i], asm, ex)
  {
    if i == |es| {
      assert es[..i] == es;
    } else {
      CollectItemsPrefix(es[..|es| - 1], i, asm, ex);
      assert es[..|es| - 1][..i] == es[..i];
    }
  }

  lemma CollectItemsNext(es: seq<PlannedEntry>, i: nat, asm: Slots, ex: Executor)
    requires i < |es| && CollectItems(es[..i], asm, ex).Success?
    ensures var r := CollectItems(es[..i], asm, ex).value;
      var next := CollectItem(r.0, es[i], r.1, ex);
      CollectItems(es[..i + 1], asm, ex) == next && (next.Failure? ==> CollectItems(es, asm, ex) == next)
  {
    CollectItemsPrefix(es, i + 1, asm, ex);
    assert es[..i + 1][..i] == es[..i];
  }

  lemma {:induction false} CollectMembersPrefix(es: seq<PlannedEntry>, i: nat, asm: Slots, ex: Executor)
    requires i <= |es|
    ensures CollectMembers(es[..i], asm, ex).Failure? ==> CollectMembers(es, asm, ex) == CollectMembers(es[..i], asm, ex)
  {
    if i == |es| {
      assert es[..i] == es;
    } else {
      CollectMembersPrefix(es[..|es| - 1], i, asm, ex);
      assert es[..|es| - 1][..i] == es[..i];
    }
  }

  lemma CollectMembersNext(es: seq<PlannedEntry>, i: nat, asm: Slots, ex: Executor)
    requires i < |es| && CollectMembers(es[..i], asm, ex).Success?
    ensures var r := CollectMembers(es[..i], asm, ex).value;
      var next := CollectMember(r.0, es[i], r.1, ex);
      CollectMembers(es[..i + 1], asm, ex) == next && (next.Failure? ==> CollectMembers(es, asm, ex) == next)
  {
    CollectMembersPrefix(es, i + 1, asm, ex);
    assert es[..i + 1][..i] == es[..i];
  }

  lemma {:induction false} CollectDecoysPrefix(decoys: seq<nat>, i: nat, location: nat, batch: seq<IssuanceJob>, asm: Slots)
    requires i <= |decoys|
    ensures CollectDecoys(decoys[..i], location, batch, asm).Failure? ==>
      CollectDecoys(decoys, location, batch, asm) == CollectDecoys(decoys[..i], location, batch, asm)
  {
    if i == |decoys| {
      assert decoys[..i] == decoys;
    } else {
      CollectDecoysPrefix(decoys[..|decoys| - 1], i, location, batch, asm);
      assert decoys[..|decoys| - 1][..i] == decoys[..i];
    }
  }

  lemma {:induction false} FillPrefix(outputs: seq<ItemOutput>, i: nat, restored: seq<Restored>, asm: Slots)
    requires i <= |outputs|
    ensures FillItems(outputs[..i], restored, asm).Failure? ==> FillItems(outputs, restored, asm) == FillItems(outputs[..i], restored, asm)
  {
    if i == |outputs| {
      assert outputs[..i] == outputs;
    } else {
      FillPrefix(outputs[..|outputs| - 1], i, restored, asm);
      assert outputs[..|outputs| - 1][..i] == outputs[..i];
    }
  }

  lemma FillNext(outputs: seq<ItemOutput>, i: nat, restored: seq<Restored>, asm: Slots)
    requires i < |outputs| && FillItems(outputs[..i], restored, asm).Success?
    ensures var r := FillItems(outputs[..i], restored, asm).value;
      var next := FillItem(r.0, outputs[i], restored, r.1);
      FillItems(outputs[..i + 1], restored, asm) == next && (next.Failure? ==> FillItems(outputs, restored, asm) == next)
  {
    FillPrefix(outputs, i + 1, restored, asm);
    assert outputs[..i + 1][..i] == outputs[..i];
  }

  lemma {:induction false} RecordPrefix(restored: seq<Restored>, i: nat, asm: Slots)
    requires i <= |restored|
    ensures RecordBatch(restored[..i], asm).Failure? ==> RecordBatch(restored, asm) == RecordBatch(restored[..i], asm)
  {
    if i == |restored| {
      assert restored[..i] == restored;
    } else {
      RecordPrefix(restored[..|restored| - 1], i, asm);
      assert restored[..|restored| - 1][..i] == restored[..i];
    }
  }

  lemma RecordNext(restored: seq<Restored>, i: nat, asm: Slots)
    requires i < |restored| && RecordBatch(restored[..i], asm).Success?
    ensures var r := RecordBatch(restored[..i], asm).value;
      var next := RecordOne(r.0, restored[i], r.1);
      RecordBatch(restored[..i + 1], asm) == next && (next.Failure? ==> RecordBatch(restored, asm) == next)
  {
    RecordPrefix(restored, i + 1, asm);
    assert restored[..i + 1][..i] == restored[..i];
  }
}
