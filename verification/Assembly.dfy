/**
 `SerialAssembler` as functions of its slots, and exactly when it succeeds: on a valid registry, when the tree's
 references are distinct, untaken and bound to jobs of their kind and location. It then yields the payload of the
 resolved claim tree.
 */
module Assembly {
  import opened ClaimTree
  import opened Json
  import opened Plan
  import opened Registry
  import opened Sequences
  import opened Wrappers

  datatype PlanError =
    | JobIndexMismatch
    | OrdinalOutOfBounds
    | OrdinalNamesOtherJob
    | DisclosureJobOutOfBounds
    | OrdinalMismatch
    | JobOutOfBounds
    | JobTakenTwice
    | WrongIdentity
    | WrongLocation
    | WrongKind
    | ResultNamesOtherJob
    | OrdinalRepeated
    | JobsLeft
    | DisclosureMissing

  /** Slots of the assembler: jobs not yet taken, disclosures made so far, and the job of each ordinal. */
  datatype Slots = Slots(jobs: seq<Option<PlannedJob>>, disclosures: seq<Option<Issued>>, ids: seq<nat>)

  datatype Assembled = Assembled(claims: Value, disclosures: seq<Issued>)

  // validate_registry

  function JobError(job: PlannedJob, index: nat, ids: seq<nat>): Option<PlanError> {
    var ordinal := OrdinalOf(job.operation);
    if job.jobId != index then Some(JobIndexMismatch)
    else if ordinal.Some? && ordinal.value >= |ids| then Some(OrdinalOutOfBounds)
    else if ordinal.Some? && ids[ordinal.value] != job.jobId then Some(OrdinalNamesOtherJob)
    else None
  }

  function JobsError(jobs: seq<PlannedJob>, ids: seq<nat>): Option<PlanError> {
    if jobs == [] then None
    else
      var n := |jobs| - 1;
      var r := JobsError(jobs[..n], ids);
      if r.Some? then r else JobError(jobs[n], n, ids)
  }

  function IdError(id: nat, ordinal: nat, jobs: seq<PlannedJob>): Option<PlanError> {
    if id >= |jobs| then Some(DisclosureJobOutOfBounds)
    else if OrdinalOf(jobs[id].operation) != Some(ordinal) then Some(OrdinalMismatch)
    else None
  }

  function IdsError(ids: seq<nat>, jobs: seq<PlannedJob>): Option<PlanError> {
    if ids == [] then None
    else
      var n := |ids| - 1;
      var r := IdsError(ids[..n], jobs);
      if r.Some? then r else IdError(ids[n], n, jobs)
  }

  function RegistryError(jobs: seq<PlannedJob>, ids: seq<nat>): Option<PlanError> {
    var r := JobsError(jobs, ids);
    if r.Some? then r else IdsError(ids, jobs)
  }

  // Assembly

  function Fresh(plan: IssuancePlan): Slots {
    Slots(seq(|plan.jobs|, i requires 0 <= i < |plan.jobs| => Some(plan.jobs[i])),
          seq(|plan.disclosureJobIds|, i => None),
          plan.disclosureJobIds)
  }

  /** `take_planned_job`. */
  function Take(asm: Slots, jobId: nat, location: nat, kind: Kind): Result<(Operation, Slots), PlanError> {
    if jobId >= |asm.jobs| then Failure(JobOutOfBounds)
    else if asm.jobs[jobId].None? then Failure(JobTakenTwice)
    else
      var job := asm.jobs[jobId].value;
      if job.jobId != jobId then Failure(WrongIdentity)
      else if job.location != location then Failure(WrongLocation)
      else if KindOf(job.operation) != kind then Failure(WrongKind)
      else Success((job.operation, asm.(jobs := asm.jobs[jobId := None])))
  }

  /** `record_disclosure`. */
  function Record(asm: Slots, jobId: nat, ordinal: nat, d: Issued): Result<Slots, PlanError> {
    if ordinal >= |asm.ids| || asm.ids[ordinal] != jobId then Failure(ResultNamesOtherJob)
    else if ordinal >= |asm.disclosures| then Failure(OrdinalOutOfBounds)
    else if asm.disclosures[ordinal].Some? then Failure(OrdinalRepeated)
    else Success(asm.(disclosures := asm.disclosures[ordinal := Some(d)]))
  }

  /** `SDJWTDisclosure::new_with_salt`. */
  function NewDisclosure(op: Operation, value: Value, c: Codec): Issued
    requires !op.Decoy?
  {
    var raw := c.encode(if op.ObjectDisclosure? then Array([Str(op.salt), Str(op.key), value]) else Array([Str(op.salt), value]));
    Issued(raw, c.hash(raw))
  }

  function ExecValue(pv: PlannedValue, asm: Slots, c: Codec): Result<(Value, Slots), PlanError>
    decreases pv, 2
  {
    match pv.kind
    case Scalar(v) => Success((v, asm))
    case PlannedArray(es) =>
      var r :- ExecItems(es, asm, c);
      Success((Array(r.0), r.1))
    case PlannedObject(es, decoys) =>
      var r :- ExecMembers(es, asm, c);
      var d :- ExecDecoys(decoys, pv.location, r.0.digests, r.1, c);
      Success((Object(Seal(r.0.members, d.0)), d.1))
  }

  /** Assemble a hidden child, then take its job, make its disclosure and record it. */
  function ExecDisclosed(value: PlannedValue, jobId: nat, inDict: bool, asm: Slots, c: Codec): Result<(Issued, Slots), PlanError>
    decreases value, 3
  {
    var subtree :- ExecValue(value, asm, c);
    var taken :- Take(subtree.1, jobId, value.location, DisclosureKind(inDict));
    var d := NewDisclosure(taken.0, subtree.0, c);
    var slots :- Record(taken.1, jobId, taken.0.ordinal, d);
    Success((d, slots))
  }

  function ExecItems(es: seq<PlannedEntry>, asm: Slots, c: Codec): Result<(seq<Value>, Slots), PlanError>
    decreases es, 0
  {
    if es == [] then Success(([], asm))
    else
      var n := |es| - 1;
      var r :- ExecItems(es[..n], asm, c);
      ExecItem(r.0, es[n], r.1, c)
  }

  function ExecItem(claims: seq<Value>, e: PlannedEntry, asm: Slots, c: Codec): Result<(seq<Value>, Slots), PlanError>
    decreases e, 4
  {
    match e
    case Visible(_, value) =>
      var v :- ExecValue(value, asm, c);
      Success((claims + [v.0], v.1))
    case Disclosed(value, jobId) =>
      var d :- ExecDisclosed(value, jobId, false, asm, c);
      Success((claims + [Placeholder(d.0.hash)], d.1))
  }

  /** An object under construction: its visible members and its digests. */
  datatype Partial = Partial(members: seq<Member>, digests: seq<string>)

  const NoMembers := Partial([Member(SD_DIGESTS_KEY, Null)], [])

  function ExecMembers(es: seq<PlannedEntry>, asm: Slots, c: Codec): Result<(Partial, Slots), PlanError>
    decreases es, 0
  {
    if es == [] then Success((NoMembers, asm))
    else
      var n := |es| - 1;
      var r :- ExecMembers(es[..n], asm, c);
      ExecMember(r.0, es[n], r.1, c)
  }

  function ExecMember(p: Partial, e: PlannedEntry, asm: Slots, c: Codec): Result<(Partial, Slots), PlanError>
    decreases e, 4
  {
    match e
    case Visible(key, value) =>
      var v :- ExecValue(value, asm, c);
      Success((p.(members := Put(p.members, key, v.0)), v.1))
    case Disclosed(value, jobId) =>
      var d :- ExecDisclosed(value, jobId, true, asm, c);
      Success((p.(digests := p.digests + [d.0.hash]), d.1))
  }

  function ExecDecoys(decoys: seq<nat>, location: nat, digests: seq<string>, asm: Slots, c: Codec): Result<(seq<string>, Slots), PlanError> {
    if decoys == [] then Success((digests, asm))
    else
      var n := |decoys| - 1;
      var r :- ExecDecoys(decoys[..n], location, digests, asm, c);
      var taken :- Take(r.1, decoys[n], location, DecoyKind);
      Success((r.0 + [c.hash(taken.0.salt)], taken.1))
  }

  /** `finish`: every job was taken and every ordinal filled. */
  function Finish(claims: Value, asm: Slots): Result<Assembled, PlanError> {
    if exists i :: 0 <= i < |asm.jobs| && asm.jobs[i].Some? then Failure(JobsLeft)
    else if exists o :: 0 <= o < |asm.disclosures| && asm.disclosures[o].None? then Failure(DisclosureMissing)
    else Success(Assembled(claims, seq(|asm.disclosures|, o requires 0 <= o < |asm.disclosures| => asm.disclosures[o].value)))
  }

  /** `execute_serial`. */
  function ExecuteSerial(plan: IssuancePlan, c: Codec): Result<Assembled, PlanError> {
    var e := RegistryError(plan.jobs, plan.disclosureJobIds);
    if e.Some? then Failure(e.value)
    else
      var r :- ExecValue(plan.root, Fresh(plan), c);
      Finish(r.0, r.1)
  }

  // When the registry check passes

  lemma {:induction false} JobsErrorIff(jobs: seq<PlannedJob>, ids: seq<nat>)
    ensures JobsError(jobs, ids).None? <==> forall i :: 0 <= i < |jobs| ==> JobError(jobs[i], i, ids).None?
  {
    if jobs != [] {
      var n := |jobs| - 1;
      JobsErrorIff(jobs[..n], ids);
      assert forall i :: 0 <= i < n ==> jobs[..n][i] == jobs[i];
    }
  }

  lemma {:induction false} IdsErrorIff(ids: seq<nat>, jobs: seq<PlannedJob>)
    ensures IdsError(ids, jobs).None? <==> forall o :: 0 <= o < |ids| ==> IdError(ids[o], o, jobs).None?
  {
    if ids != [] {
      var n := |ids| - 1;
      IdsErrorIff(ids[..n], jobs);
      assert forall o :: 0 <= o < n ==> ids[..n][o] == ids[o];
    }
  }

  lemma RegistryErrorIff(jobs: seq<PlannedJob>, ids: seq<nat>)
    ensures RegistryError(jobs, ids).None? <==> ValidRegistry(jobs, ids)
  {
    JobsErrorIff(jobs, ids);
    IdsErrorIff(ids, jobs);
    assert RegistryError(jobs, ids).None? <==>
      && (forall i :: 0 <= i < |jobs| ==> JobError(jobs[i], i, ids).None?)
      && (forall o :: 0 <= o < |ids| ==> IdError(ids[o], o, jobs).None?);
    ErrorsAreInvalid(jobs, ids);
  }

  lemma ErrorsAreInvalid(jobs: seq<PlannedJob>, ids: seq<nat>)
    ensures ValidRegistry(jobs, ids) <==>
      && (forall i :: 0 <= i < |jobs| ==> JobError(jobs[i], i, ids).None?)
      && (forall o :: 0 <= o < |ids| ==> IdError(ids[o], o, jobs).None?)
  {
  }

  // The state of a run

  /** Slots once the jobs in `taken` were taken from the registry and the disclosures in `done` recorded. */
  ghost function After(jobs: seq<PlannedJob>, ids: seq<nat>, taken: set<nat>, done: map<nat, Issued>): Slots {
    Slots(seq(|jobs|, i requires 0 <= i < |jobs| => if i in taken then None else Some(jobs[i])),
          seq(|ids|, o requires 0 <= o < |ids| => if ids[o] in done then Some(done[ids[o]]) else None),
          ids)
  }

  lemma FreshIsAfter(plan: IssuancePlan)
    ensures Fresh(plan) == After(plan.jobs, plan.disclosureJobIds, {}, map[])
  {
    var a, b := Fresh(plan), After(plan.jobs, plan.disclosureJobIds, {}, map[]);
    assert a.jobs == b.jobs && a.disclosures == b.disclosures;
  }

  lemma TakeExact(jobs: seq<PlannedJob>, ids: seq<nat>, taken: set<nat>, done: map<nat, Issued>, jobId: nat, location: nat, kind: Kind)
    requires ValidRegistry(jobs, ids)
    ensures var r := Take(After(jobs, ids, taken, done), jobId, location, kind);
      && (r.Success? <==> BoundTo(jobId, location, kind, jobs) && jobId !in taken)
      && (r.Success? ==> r.value == (jobs[jobId].operation, After(jobs, ids, taken + {jobId}, done)))
  {
    var r := Take(After(jobs, ids, taken, done), jobId, location, kind);
    if r.Success? {
      assert r.value.1.jobs == After(jobs, ids, taken + {jobId}, done).jobs;
    }
  }

  lemma RecordExact(jobs: seq<PlannedJob>, ids: seq<nat>, taken: set<nat>, done: map<nat, Issued>, jobId: nat, d: Issued)
    requires ValidRegistry(jobs, ids) && jobId < |jobs| && !jobs[jobId].operation.Decoy? && jobId !in done
    ensures Record(After(jobs, ids, taken, done), jobId, jobs[jobId].operation.ordinal, d)
      == Success(After(jobs, ids, taken, done[jobId := d]))
  {
    var ordinal := jobs[jobId].operation.ordinal;
    assert OrdinalOf(jobs[jobId].operation) == Some(ordinal);
    var a, b := After(jobs, ids, taken, done), After(jobs, ids, taken, done[jobId := d]);
    forall o | 0 <= o < |ids|
      ensures a.disclosures[ordinal := Some(d)][o] == b.disclosures[o]
    {
      assert OrdinalOf(jobs[ids[o]].operation) == Some(o);
    }
    assert a.disclosures[ordinal := Some(d)] == b.disclosures;
  }

  /** The disclosures made for a subtree, by job. */
  ghost function Work(pv: PlannedValue, jobs: seq<PlannedJob>, c: Codec): map<nat, Issued>
    requires WellBound(pv, jobs)
  {
    match pv.kind
    case Scalar(_) => map[]
    case PlannedArray(es) => EntriesWork(es, false, jobs, c)
    case PlannedObject(es, _) => EntriesWork(es, true, jobs, c)
  }

  ghost function EntriesWork(es: seq<PlannedEntry>, inDict: bool, jobs: seq<PlannedJob>, c: Codec): map<nat, Issued>
    requires EntriesBound(es, inDict, jobs)
  {
    if es == [] then map[]
    else
      var n := |es| - 1;
      EntriesWork(es[..n], inDict, jobs, c) + EntryWork(es[n], inDict, jobs, c)
  }

  ghost function EntryWork(e: PlannedEntry, inDict: bool, jobs: seq<PlannedJob>, c: Codec): map<nat, Issued>
    requires EntryBound(e, inDict, jobs)
  {
    match e
    case Visible(_, value) => Work(value, jobs, c)
    case Disclosed(value, jobId) => Work(value, jobs, c)[jobId := IssuedOf(ResolveEntry(e, inDict, jobs), inDict, c)]
  }

  lemma {:induction false} WorkKeys(pv: PlannedValue, jobs: seq<PlannedJob>, c: Codec)
    requires WellBound(pv, jobs)
    ensures forall x :: x in Work(pv, jobs, c) ==> x in Refs(pv)
    decreases pv, 1
  {
    match pv.kind
    case Scalar(_) =>
    case PlannedArray(es) => EntriesWorkKeys(es, false, jobs, c);
    case PlannedObject(es, _) => EntriesWorkKeys(es, true, jobs, c);
  }

  lemma {:induction false} EntriesWorkKeys(es: seq<PlannedEntry>, inDict: bool, jobs: seq<PlannedJob>, c: Codec)
    requires EntriesBound(es, inDict, jobs)
    ensures forall x :: x in EntriesWork(es, inDict, jobs, c) ==> x in EntryRefs(es)
    decreases es, 0
  {
    if es != [] {
      var n := |es| - 1;
      EntriesWorkKeys(es[..n], inDict, jobs, c);
      EntryWorkKeys(es[n], inDict, jobs, c);
    }
  }

  lemma {:induction false} EntryWorkKeys(e: PlannedEntry, inDict: bool, jobs: seq<PlannedJob>, c: Codec)
    requires EntryBound(e, inDict, jobs)
    ensures forall x :: x in EntryWork(e, inDict, jobs, c) ==> x in RefsOf(e)
    decreases e, 2
  {
    match e
    case Visible(_, value) => WorkKeys(value, jobs, c);
    case Disclosed(value, jobId) =>
      WorkKeys(value, jobs, c);
      assert RefsOf(e)[|Refs(value)|] == jobId;
  }

  // Exactness

  ghost predicate Untaken(refs: seq<nat>, taken: set<nat>) {
    NoDup(refs) && forall x :: x in refs ==> x !in taken
  }

  lemma UntakenConcat(a: seq<nat>, b: seq<nat>, taken: set<nat>)
    ensures Untaken(a + b, taken) <==> Untaken(a, taken) && Untaken(b, taken + Elements(a))
    ensures taken + Elements(a + b) == taken + Elements(a) + Elements(b)
  {
    NoDupConcat(a, b);
    assert forall x :: x in a + b <==> x in a || x in b;
  }

  /** A run over references `refs`: it succeeds iff they are bound and untaken, leaving the slots it should. */
  ghost predicate Runs<T, E>(
      r: Result<(T, Slots), E>, bound: bool, refs: seq<nat>, product: T, work: map<nat, Issued>,
      jobs: seq<PlannedJob>, ids: seq<nat>, taken: set<nat>, done: map<nat, Issued>)
  {
    && (r.Success? <==> bound && Untaken(refs, taken))
    && (r.Success? ==> r.value == (product, After(jobs, ids, taken + Elements(refs), done + work)))
  }

  lemma {:induction false} ValueExact(
      pv: PlannedValue, c: Codec, jobs: seq<PlannedJob>, ids: seq<nat>, taken: set<nat>, done: map<nat, Issued>)
    requires ValidRegistry(jobs, ids) && done.Keys <= taken
    ensures var r, bound := ExecValue(pv, After(jobs, ids, taken, done), c), WellBound(pv, jobs);
      && (bound ==> Runs(r, true, Refs(pv), Payload(Resolve(pv, jobs), c), Work(pv, jobs, c), jobs, ids, taken, done))
      && (!bound ==> r.Failure?)
    decreases pv, 1
  {
    match pv.kind
    case Scalar(_) =>
      assert taken + Elements<nat>([]) == taken && done + map[] == done;
    case PlannedArray(es) => ItemsExact(es, c, jobs, ids, taken, done);
    case PlannedObject(es, decoys) =>
      MembersExact(es, c, jobs, ids, taken, done);
      ObjectExact(es, decoys, pv.location, c, jobs, ids, taken, done);
  }

  lemma {:induction false} DisclosedExact(
      e: PlannedEntry, inDict: bool, c: Codec, jobs: seq<PlannedJob>, ids: seq<nat>, taken: set<nat>, done: map<nat, Issued>)
    requires e.Disclosed? && ValidRegistry(jobs, ids) && done.Keys <= taken
    ensures var r, bound := ExecDisclosed(e.value, e.jobId, inDict, After(jobs, ids, taken, done), c), EntryBound(e, inDict, jobs);
      && (bound ==> Runs(r, true, RefsOf(e), IssuedOf(ResolveEntry(e, inDict, jobs), inDict, c), EntryWork(e, inDict, jobs, c),
                         jobs, ids, taken, done))
      && (!bound ==> r.Failure?)
    decreases e, 2
  {
    var value, jobId := e.value, e.jobId;
    ValueExact(value, c, jobs, ids, taken, done);
    UntakenConcat(Refs(value), [jobId], taken);
    var r := ExecValue(value, After(jobs, ids, taken, done), c);
    if r.Success? {
      var taken', done' := taken + Elements(Refs(value)), done + Work(value, jobs, c);
      WorkKeys(value, jobs, c);
      TakeExact(jobs, ids, taken', done', jobId, value.location, DisclosureKind(inDict));
      SingleUntaken(jobId, taken');
      if BoundTo(jobId, value.location, DisclosureKind(inDict), jobs) && jobId !in taken' {
        var d := NewDisclosure(jobs[jobId].operation, Payload(Resolve(value, jobs), c), c);
        RecordExact(jobs, ids, taken' + {jobId}, done', jobId, d);
        MadeAsPlanned(e, inDict, jobs, c);
        WorkUpdate(done, Work(value, jobs, c), jobId, d);
      }
    }
  }

  lemma MadeAsPlanned(e: PlannedEntry, inDict: bool, jobs: seq<PlannedJob>, c: Codec)
    requires e.Disclosed? && EntryBound(e, inDict, jobs)
    ensures NewDisclosure(jobs[e.jobId].operation, Payload(Resolve(e.value, jobs), c), c) == IssuedOf(ResolveEntry(e, inDict, jobs), inDict, c)
  {
    var op, v := jobs[e.jobId].operation, Payload(Resolve(e.value, jobs), c);
    var r := ResolveEntry(e, inDict, jobs);
    if inDict {
      assert Disclosure(r, true, c) == Array([Str(op.salt), Str(op.key), v]);
    } else {
      assert Disclosure(r, false, c) == Array([Str(op.salt), v]);
    }
  }

  lemma WorkUpdate(a: map<nat, Issued>, b: map<nat, Issued>, k: nat, d: Issued)
    ensures (a + b)[k := d] == a + b[k := d]
  {
  }

  lemma SingleUntaken(x: nat, taken: set<nat>)
    ensures Untaken([x], taken) <==> x !in taken
    ensures Elements([x]) == {x}
  {
    assert x in [x];
  }

  lemma {:induction false} ItemsExact(
      es: seq<PlannedEntry>, c: Codec, jobs: seq<PlannedJob>, ids: seq<nat>, taken: set<nat>, done: map<nat, Issued>)
    requires ValidRegistry(jobs, ids) && done.Keys <= taken
    ensures var r, bound := ExecItems(es, After(jobs, ids, taken, done), c), EntriesBound(es, false, jobs);
      && (bound ==> Runs(r, true, EntryRefs(es), ListPayload(ResolveEntries(es, false, jobs), c), EntriesWork(es, false, jobs, c),
                         jobs, ids, taken, done))
      && (!bound ==> r.Failure?)
    decreases es, 0
  {
    if es == [] {
      assert taken + Elements<nat>([]) == taken && done + map[] == done;
    } else {
      var n := |es| - 1;
      ItemsExact(es[..n], c, jobs, ids, taken, done);
      UntakenConcat(EntryRefs(es[..n]), RefsOf(es[n]), taken);
      var r := ExecItems(es[..n], After(jobs, ids, taken, done), c);
      if r.Success? {
        var taken', done' := taken + Elements(EntryRefs(es[..n])), done + EntriesWork(es[..n], false, jobs, c);
        EntriesWorkKeys(es[..n], false, jobs, c);
        ItemExact(r.value.0, es[n], c, jobs, ids, taken', done');
        if EntryBound(es[n], false, jobs) {
          WorkAssociates(done, EntriesWork(es[..n], false, jobs, c), EntryWork(es[n], false, jobs, c));
          Snoc(ResolveEntries(es[..n], false, jobs), ResolveEntry(es[n], false, jobs));
        }
      }
    }
  }

  lemma WorkAssociates(a: map<nat, Issued>, b: map<nat, Issued>, c: map<nat, Issued>)
    ensures (a + b) + c == a + (b + c)
  {
  }

  ghost function ItemPayload(e: Entry, c: Codec): Value {
    if e.salt.Some? then Placeholder(Digest(e, false, c)) else Payload(e.value, c)
  }

  lemma {:induction false} ItemExact(
      claims: seq<Value>, e: PlannedEntry, c: Codec, jobs: seq<PlannedJob>, ids: seq<nat>, taken: set<nat>, done: map<nat, Issued>)
    requires ValidRegistry(jobs, ids) && done.Keys <= taken
    ensures var r, bound := ExecItem(claims, e, After(jobs, ids, taken, done), c), EntryBound(e, false, jobs);
      && (bound ==> Runs(r, true, RefsOf(e), claims + [ItemPayload(ResolveEntry(e, false, jobs), c)], EntryWork(e, false, jobs, c),
                         jobs, ids, taken, done))
      && (!bound ==> r.Failure?)
    decreases e, 3
  {
    match e
    case Visible(_, value) => ValueExact(value, c, jobs, ids, taken, done);
    case Disclosed(_, _) => DisclosedExact(e, false, c, jobs, ids, taken, done);
  }

  ghost function MembersProduct(es: seq<Entry>, c: Codec): Partial {
    Partial(VisibleMembers(es, c), OwnDigests(es, true, c))
  }

  lemma {:induction false} MembersExact(
      es: seq<PlannedEntry>, c: Codec, jobs: seq<PlannedJob>, ids: seq<nat>, taken: set<nat>, done: map<nat, Issued>)
    requires ValidRegistry(jobs, ids) && done.Keys <= taken
    ensures var r, bound := ExecMembers(es, After(jobs, ids, taken, done), c), EntriesBound(es, true, jobs);
      && (bound ==> Runs(r, true, EntryRefs(es), MembersProduct(ResolveEntries(es, true, jobs), c), EntriesWork(es, true, jobs, c),
                         jobs, ids, taken, done))
      && (!bound ==> r.Failure?)
    decreases es, 0
  {
    if es == [] {
      assert taken + Elements<nat>([]) == taken && done + map[] == done;
    } else {
      var n := |es| - 1;
      MembersExact(es[..n], c, jobs, ids, taken, done);
      UntakenConcat(EntryRefs(es[..n]), RefsOf(es[n]), taken);
      var r := ExecMembers(es[..n], After(jobs, ids, taken, done), c);
      if r.Success? {
        var taken', done' := taken + Elements(EntryRefs(es[..n])), done + EntriesWork(es[..n], true, jobs, c);
        EntriesWorkKeys(es[..n], true, jobs, c);
        MemberExact(r.value.0, es[n], c, jobs, ids, taken', done');
        if EntryBound(es[n], true, jobs) {
          WorkAssociates(done, EntriesWork(es[..n], true, jobs, c), EntryWork(es[n], true, jobs, c));
          Snoc(ResolveEntries(es[..n], true, jobs), ResolveEntry(es[n], true, jobs));
        }
      }
    }
  }

  ghost function MemberProduct(p: Partial, e: Entry, c: Codec): Partial {
    if e.salt.Some? then p.(digests := p.digests + [Digest(e, true, c)])
    else p.(members := Put(p.members, e.key, Payload(e.value, c)))
  }

  lemma {:induction false} MemberExact(
      p: Partial, e: PlannedEntry, c: Codec, jobs: seq<PlannedJob>, ids: seq<nat>, taken: set<nat>, done: map<nat, Issued>)
    requires ValidRegistry(jobs, ids) && done.Keys <= taken
    ensures var r, bound := ExecMember(p, e, After(jobs, ids, taken, done), c), EntryBound(e, true, jobs);
      && (bound ==> Runs(r, true, RefsOf(e), MemberProduct(p, ResolveEntry(e, true, jobs), c), EntryWork(e, true, jobs, c),
                         jobs, ids, taken, done))
      && (!bound ==> r.Failure?)
    decreases e, 3
  {
    match e
    case Visible(_, value) => ValueExact(value, c, jobs, ids, taken, done);
    case Disclosed(_, _) => DisclosedExact(e, true, c, jobs, ids, taken, done);
  }

  lemma {:induction false} DecoysExact(
      decoys: seq<nat>, location: nat, digests: seq<string>, c: Codec, jobs: seq<PlannedJob>, ids: seq<nat>, taken: set<nat>,
      done: map<nat, Issued>)
    requires ValidRegistry(jobs, ids)
    ensures DecoysRun(decoys, location, digests, c, jobs, ids, taken, done)
  {
    if decoys == [] {
      assert done + map[] == done;
      assert taken + Elements<nat>([]) == taken;
      assert digests + DecoyDigests([], c) == digests;
    } else {
      var n := |decoys| - 1;
      DecoysExact(decoys[..n], location, digests, c, jobs, ids, taken, done);
      OneMoreDecoyExact(decoys[..n], decoys[n], location, digests, c, jobs, ids, taken, done);
      assert decoys == decoys[..n] + [decoys[n]];
    }
  }

  ghost predicate DecoysRun(
      decoys: seq<nat>, location: nat, digests: seq<string>, c: Codec, jobs: seq<PlannedJob>, ids: seq<nat>, taken: set<nat>,
      done: map<nat, Issued>)
  {
    var r, bound := ExecDecoys(decoys, location, digests, After(jobs, ids, taken, done), c), DecoysBound(decoys, location, jobs);
    && (bound ==> Runs(r, true, decoys, digests + DecoyDigests(DecoySalts(decoys, location, jobs), c), map[], jobs, ids, taken, done))
    && (!bound ==> r.Failure?)
  }

  lemma OneMoreDecoyExact(
      front: seq<nat>, id: nat, location: nat, digests: seq<string>, c: Codec, jobs: seq<PlannedJob>, ids: seq<nat>, taken: set<nat>,
      done: map<nat, Issued>)
    requires ValidRegistry(jobs, ids) && DecoysRun(front, location, digests, c, jobs, ids, taken, done)
    ensures DecoysRun(front + [id], location, digests, c, jobs, ids, taken, done)
  {
    Snoc(front, id);
    assert done + map[] == done;
    UntakenConcat(front, [id], taken);
    SingleUntaken(id, taken + Elements(front));
    var r := ExecDecoys(front, location, digests, After(jobs, ids, taken, done), c);
    if r.Success? {
      TakeExact(jobs, ids, taken + Elements(front), done, id, location, DecoyKind);
      if BoundTo(id, location, DecoyKind, jobs) {
        DecoyDigestsSnoc(DecoySalts(front, location, jobs), jobs[id].operation.salt, digests, c);
      }
    }
  }

  lemma DecoyDigestsSnoc(salts: seq<string>, salt: string, digests: seq<string>, c: Codec)
    ensures digests + DecoyDigests(salts + [salt], c) == digests + DecoyDigests(salts, c) + [c.hash(salt)]
  {
  }

  lemma ObjectExact(
      es: seq<PlannedEntry>, decoys: seq<nat>, location: nat, c: Codec, jobs: seq<PlannedJob>, ids: seq<nat>, taken: set<nat>,
      done: map<nat, Issued>)
    requires ValidRegistry(jobs, ids) && done.Keys <= taken
    requires var r, bound := ExecMembers(es, After(jobs, ids, taken, done), c), EntriesBound(es, true, jobs);
      && (bound ==> Runs(r, true, EntryRefs(es), MembersProduct(ResolveEntries(es, true, jobs), c), EntriesWork(es, true, jobs, c),
                         jobs, ids, taken, done))
      && (!bound ==> r.Failure?)
    ensures var pv := PlannedValue(location, PlannedObject(es, decoys));
      var r, bound := ExecValue(pv, After(jobs, ids, taken, done), c), WellBound(pv, jobs);
      && (bound ==> Runs(r, true, Refs(pv), Payload(Resolve(pv, jobs), c), Work(pv, jobs, c), jobs, ids, taken, done))
      && (!bound ==> r.Failure?)
  {
    UntakenConcat(EntryRefs(es), decoys, taken);
    var r := ExecMembers(es, After(jobs, ids, taken, done), c);
    if r.Success? {
      var taken', done' := taken + Elements(EntryRefs(es)), done + EntriesWork(es, true, jobs, c);
      DecoysExact(decoys, location, r.value.0.digests, c, jobs, ids, taken', done');
      assert done' + map[] == done';
    }
  }
}
