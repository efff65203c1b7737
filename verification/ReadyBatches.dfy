/**
 The batches of a run of the executor-driven assembler. No job is in two of them, for any plan and any executor, and
 the run depends on nothing else of the executor than its answers to them. So an executor that is a function of the
 batch stands for one whose answers change from call to call, and honesty matters only where it is asked.
 */
module ReadyBatches {
  import opened Assembly
  import opened ClaimTree
  import Json
  import opened Plan
  import opened ParallelIssuance
  import opened Restoration
  import opened Sequences
  import opened Wrappers

  /** The jobs and slots after the entries of a container, its decoys not yet taken. */
  ghost function Collected(es: seq<PlannedEntry>, inDict: bool, asm: Slots, ex: Executor): Result<(seq<IssuanceJob>, Slots), ExecError> {
    if inDict then
      var r :- CollectMembers(es, asm, ex);
      Success((r.0.jobs, r.1))
    else
      var r :- CollectItems(es, asm, ex);
      Success((r.0.jobs, r.1))
  }

  function CallFor(jobs: seq<IssuanceJob>): seq<seq<IssuanceJob>> {
    if jobs == [] then [] else [jobs]
  }

  /** The batches handed to the executor, in order, up to the end or the first error. */
  ghost function Calls(pv: PlannedValue, asm: Slots, ex: Executor): seq<seq<IssuanceJob>>
    decreases pv, 2
  {
    match pv.kind
    case Scalar(_) => []
    case PlannedArray(es) => EntryCalls(es, false, asm, ex) + OwnCall(es, false, [], pv.location, asm, ex)
    case PlannedObject(es, decoys) => EntryCalls(es, true, asm, ex) + OwnCall(es, true, decoys, pv.location, asm, ex)
  }

  ghost function OwnCall(es: seq<PlannedEntry>, inDict: bool, decoys: seq<nat>, location: nat, asm: Slots, ex: Executor)
    : seq<seq<IssuanceJob>>
  {
    var r := Collected(es, inDict, asm, ex);
    if r.Failure? then []
    else
      var d := CollectDecoys(decoys, location, r.value.0, r.value.1);
      if d.Failure? then [] else CallFor(d.value.0)
  }

  ghost function EntryCalls(es: seq<PlannedEntry>, inDict: bool, asm: Slots, ex: Executor): seq<seq<IssuanceJob>>
    decreases es, 0
  {
    if es == [] then []
    else
      var n := |es| - 1;
      var last, r := es[n], Collected(es[..n], inDict, asm, ex);
      assert last.value < last;
      EntryCalls(es[..n], inDict, asm, ex) + if r.Failure? then [] else Calls(last.value, r.value.1, ex)
  }

  // No job is in two batches

  function Ids(jobs: seq<IssuanceJob>): multiset<nat> {
    if jobs == [] then multiset{}
    else Ids(jobs[..|jobs| - 1]) + multiset{jobs[|jobs| - 1].identity.jobId}
  }

  function AllIds(calls: seq<seq<IssuanceJob>>): multiset<nat> {
    if calls == [] then multiset{} else AllIds(calls[..|calls| - 1]) + Ids(calls[|calls| - 1])
  }

  lemma BagAssociates(a: multiset<nat>, b: multiset<nat>, c: multiset<nat>)
    ensures (a + b) + c == a + (b + c)
  {
  }

  lemma BagCommutes(a: multiset<nat>, b: multiset<nat>, c: multiset<nat>)
    ensures a + b + c == a + c + b
  {
  }

  lemma {:induction false} AllIdsConcat(a: seq<seq<IssuanceJob>>, b: seq<seq<IssuanceJob>>)
    ensures AllIds(a + b) == AllIds(a) + AllIds(b)
    decreases |b|
  {
    if b == [] {
      assert a + b == a;
    } else {
      var front, last := b[..|b| - 1], b[|b| - 1];
      AllIdsConcat(a, front);
      assert (a + b)[..|a + b| - 1] == a + front && (a + b)[|a + b| - 1] == last;
      BagAssociates(AllIds(a), AllIds(front), Ids(last));
    }
  }

  lemma CallForIds(jobs: seq<IssuanceJob>)
    ensures AllIds(CallFor(jobs)) == Ids(jobs)
  {
    if jobs != [] {
      assert [jobs][..0] == [];
    }
  }

  /** Different jobs that are all there to take. */
  ghost predicate There(asm: Slots, ids: multiset<nat>) {
    forall x :: x in ids ==> ids[x] == 1 && x < |asm.jobs| && asm.jobs[x].Some?
  }

  /** Between two states different jobs were taken, these among them, and none came back. */
  ghost predicate Took(asm: Slots, ids: multiset<nat>, asm': Slots) {
    && There(asm, ids) && |asm'.jobs| == |asm.jobs|
    && (forall x :: x in ids && x < |asm'.jobs| ==> asm'.jobs[x].None?)
    && (forall x :: 0 <= x < |asm'.jobs| && asm'.jobs[x].Some? ==> asm.jobs[x].Some?)
  }

  lemma ThenThere(asm: Slots, a: multiset<nat>, asm': Slots, b: multiset<nat>)
    requires Took(asm, a, asm') && There(asm', b)
    ensures There(asm, a + b)
  {
    forall x | x in a + b ensures (a + b)[x] == 1 && x < |asm.jobs| && asm.jobs[x].Some? {
      if x in a {
        assert x !in b;
      }
    }
  }

  lemma ThenTook(asm: Slots, a: multiset<nat>, asm': Slots, b: multiset<nat>, asm'': Slots)
    requires Took(asm, a, asm') && Took(asm', b, asm'')
    ensures Took(asm, a + b, asm'')
  {
    ThenThere(asm, a, asm', b);
  }

  /** What a part of a run that hands over the given jobs does to the slots. */
  ghost predicate Hands<T>(asm: Slots, ids: multiset<nat>, r: Result<(T, Slots), ExecError>) {
    There(asm, ids) && (r.Success? ==> Took(asm, ids, r.value.1))
  }

  lemma {:induction false} FillKeepsJobs(outputs: seq<ItemOutput>, restored: seq<Restored>, asm: Slots)
    ensures var r := FillItems(outputs, restored, asm); r.Success? ==> r.value.1.jobs == asm.jobs
  {
    if outputs != [] {
      FillKeepsJobs(outputs[..|outputs| - 1], restored, asm);
    }
  }

  lemma {:induction false} RecordKeepsJobs(restored: seq<Restored>, asm: Slots)
    ensures var r := RecordBatch(restored, asm); r.Success? ==> r.value.1.jobs == asm.jobs
  {
    if restored != [] {
      RecordKeepsJobs(restored[..|restored| - 1], asm);
    }
  }

  lemma IdsSnoc(jobs: seq<IssuanceJob>, job: IssuanceJob)
    ensures Ids(jobs + [job]) == Ids(jobs) + multiset{job.identity.jobId}
  {
    Snoc(jobs, job);
  }

  lemma {:induction false} DecoysHand(decoys: seq<nat>, location: nat, batch: seq<IssuanceJob>, before: multiset<nat>, asm: Slots, asm': Slots)
    requires Took(asm, before + Ids(batch), asm')
    ensures var d := CollectDecoys(decoys, location, batch, asm');
      d.Success? ==> Took(asm, before + Ids(d.value.0), d.value.1)
  {
    if decoys != [] {
      var n := |decoys| - 1;
      DecoysHand(decoys[..n], location, batch, before, asm, asm');
      var r := CollectDecoys(decoys[..n], location, batch, asm');
      if r.Success? {
        var taken := Take(r.value.1, decoys[n], location, DecoyKind);
        if taken.Success? {
          var job := JobFor(decoys[n], location, taken.value.0, Json.Null);
          ThenTook(asm, before + Ids(r.value.0), r.value.1, multiset{decoys[n]}, taken.value.1);
          IdsSnoc(r.value.0, job);
          assert before + Ids(r.value.0 + [job]) == before + Ids(r.value.0) + multiset{decoys[n]};
        }
      }
    }
  }

  /**
   For any plan and executor: the batches of a run, whether it ends well or not, have no job in common and none twice,
   and all their jobs were there to take.
   */
  lemma {:induction false} RunHands(pv: PlannedValue, asm: Slots, ex: Executor)
    ensures Hands(asm, AllIds(Calls(pv, asm, ex)), BatchedValue(pv, asm, ex))
    decreases pv, 2
  {
    match pv.kind
    case Scalar(_) =>
    case PlannedArray(es) =>
      EntriesHand(es, false, asm, ex);
      ContainerHands(es, false, [], pv.location, asm, ex);
      ArrayHands(pv, es, asm, ex, AllIds(Calls(pv, asm, ex)));
    case PlannedObject(es, decoys) =>
      EntriesHand(es, true, asm, ex);
      ContainerHands(es, true, decoys, pv.location, asm, ex);
      ObjectHands(pv, es, decoys, asm, ex, AllIds(Calls(pv, asm, ex)));
  }

  lemma ArrayHands(pv: PlannedValue, es: seq<PlannedEntry>, asm: Slots, ex: Executor, ids: multiset<nat>)
    requires pv.kind == PlannedArray(es) && There(asm, ids)
    requires var r := CollectItems(es, asm, ex); r.Success? ==> Took(asm, ids, r.value.1)
    ensures Hands(asm, ids, BatchedValue(pv, asm, ex))
  {
    var r := CollectItems(es, asm, ex);
    if r.Success? && RunBatch(r.value.0.jobs, ex).Success? {
      FillKeepsJobs(r.value.0.outputs, RunBatch(r.value.0.jobs, ex).value, r.value.1);
    }
  }

  lemma ObjectHands(pv: PlannedValue, es: seq<PlannedEntry>, decoys: seq<nat>, asm: Slots, ex: Executor, ids: multiset<nat>)
    requires pv.kind == PlannedObject(es, decoys) && There(asm, ids)
    requires var r := CollectMembers(es, asm, ex);
      r.Success? ==>
        var d := CollectDecoys(decoys, pv.location, r.value.0.jobs, r.value.1);
        d.Success? ==> Took(asm, ids, d.value.1)
    ensures Hands(asm, ids, BatchedValue(pv, asm, ex))
  {
    var r := CollectMembers(es, asm, ex);
    if r.Success? {
      var d := CollectDecoys(decoys, pv.location, r.value.0.jobs, r.value.1);
      if d.Success? && RunBatch(d.value.0, ex).Success? {
        RecordKeepsJobs(RunBatch(d.value.0, ex).value, d.value.1);
      }
    }
  }

  lemma ContainerHands(es: seq<PlannedEntry>, inDict: bool, decoys: seq<nat>, location: nat, asm: Slots, ex: Executor)
    requires There(asm, AllIds(EntryCalls(es, inDict, asm, ex)))
    requires var r := Collected(es, inDict, asm, ex);
      r.Success? ==> Took(asm, AllIds(EntryCalls(es, inDict, asm, ex)) + Ids(r.value.0), r.value.1)
    ensures var calls, r := EntryCalls(es, inDict, asm, ex) + OwnCall(es, inDict, decoys, location, asm, ex), Collected(es, inDict, asm, ex);
      && There(asm, AllIds(calls))
      && (r.Success? ==>
            var d := CollectDecoys(decoys, location, r.value.0, r.value.1);
            d.Success? ==> Took(asm, AllIds(calls), d.value.1))
  {
    var inner, own, r := EntryCalls(es, inDict, asm, ex), OwnCall(es, inDict, decoys, location, asm, ex), Collected(es, inDict, asm, ex);
    AllIdsConcat(inner, own);
    if r.Success? {
      DecoysHand(decoys, location, r.value.0, AllIds(inner), asm, r.value.1);
      var d := CollectDecoys(decoys, location, r.value.0, r.value.1);
      if d.Success? {
        CallForIds(d.value.0);
      }
    }
  }

  lemma {:induction false} EntriesHand(es: seq<PlannedEntry>, inDict: bool, asm: Slots, ex: Executor)
    ensures There(asm, AllIds(EntryCalls(es, inDict, asm, ex)))
    ensures var r := Collected(es, inDict, asm, ex);
      r.Success? ==> Took(asm, AllIds(EntryCalls(es, inDict, asm, ex)) + Ids(r.value.0), r.value.1)
    decreases es, 0
  {
    if es != [] {
      var n := |es| - 1;
      var front, last := es[..n], es[n];
      EntriesHand(front, inDict, asm, ex);
      var r := Collected(front, inDict, asm, ex);
      var calls := EntryCalls(front, inDict, asm, ex);
      CollectedSnoc(es, inDict, asm, ex);
      if r.Failure? {
        assert EntryCalls(es, inDict, asm, ex) == calls;
      } else {
        var more := Calls(last.value, r.value.1, ex);
        AllIdsConcat(calls, more);
        assert last.value < last;
        RunHands(last.value, r.value.1, ex);
        EntryHands(last, inDict, asm, AllIds(calls), r.value.0, r.value.1, AllIds(more), ex);
      }
    }
  }

  lemma FewerAreThere(asm: Slots, a: multiset<nat>, b: multiset<nat>)
    requires There(asm, a + b)
    ensures There(asm, a)
  {
    forall x | x in a ensures a[x] == 1 && x < |asm.jobs| && asm.jobs[x].Some? {
      assert x in a + b;
    }
  }

  /** The jobs and slots after one more entry. */
  ghost function CollectedEntry(jobs: seq<IssuanceJob>, e: PlannedEntry, inDict: bool, asm: Slots, ex: Executor)
    : Result<(seq<IssuanceJob>, Slots), ExecError>
  {
    match e
    case Visible(_, value) =>
      var v :- BatchedValue(value, asm, ex);
      Success((jobs, v.1))
    case Disclosed(value, jobId) =>
      var d :- CollectDisclosed(value, jobId, inDict, asm, ex);
      Success((jobs + [d.0], d.1))
  }

  lemma CollectedSnoc(es: seq<PlannedEntry>, inDict: bool, asm: Slots, ex: Executor)
    requires es != []
    ensures var r := Collected(es[..|es| - 1], inDict, asm, ex);
      Collected(es, inDict, asm, ex)
        == if r.Failure? then r else CollectedEntry(r.value.0, es[|es| - 1], inDict, r.value.1, ex)
  {
    var front, last := es[..|es| - 1], es[|es| - 1];
    if inDict {
      var r := CollectMembers(front, asm, ex);
      if r.Success? {
        assert CollectMembers(es, asm, ex) == CollectMember(r.value.0, last, r.value.1, ex);
      }
    } else {
      var r := CollectItems(front, asm, ex);
      if r.Success? {
        assert CollectItems(es, asm, ex) == CollectItem(r.value.0, last, r.value.1, ex);
      }
    }
  }

  lemma EntryHands(
      e: PlannedEntry, inDict: bool, asm: Slots, calls: multiset<nat>, jobs: seq<IssuanceJob>, asm': Slots, more: multiset<nat>,
      ex: Executor)
    requires Took(asm, calls + Ids(jobs), asm') && Hands(asm', more, BatchedValue(e.value, asm', ex))
    ensures There(asm, calls + more)
    ensures var r := CollectedEntry(jobs, e, inDict, asm', ex);
      r.Success? ==> Took(asm, calls + more + Ids(r.value.0), r.value.1)
  {
    var v := BatchedValue(e.value, asm', ex);
    ThenThere(asm, calls + Ids(jobs), asm', more);
    BagCommutes(calls, Ids(jobs), more);
    FewerAreThere(asm, calls + more, Ids(jobs));
    if v.Success? {
      ThenTook(asm, calls + Ids(jobs), asm', more, v.value.1);
      if e.Disclosed? {
        TakeHands(e, inDict, asm, calls + more, jobs, v.value.0, v.value.1);
      }
    }
  }

  lemma TakeHands(e: PlannedEntry, inDict: bool, asm: Slots, ids: multiset<nat>, jobs: seq<IssuanceJob>, value: Json.Value, asm': Slots)
    requires e.Disclosed? && Took(asm, ids + Ids(jobs), asm')
    ensures var taken := Take(asm', e.jobId, e.value.location, DisclosureKind(inDict));
      taken.Success? ==>
        Took(asm, ids + Ids(jobs + [JobFor(e.jobId, e.value.location, taken.value.0, value)]), taken.value.1)
  {
    var taken := Take(asm', e.jobId, e.value.location, DisclosureKind(inDict));
    if taken.Success? {
      ThenTook(asm, ids + Ids(jobs), asm', multiset{e.jobId}, taken.value.1);
      IdsSnoc(jobs, JobFor(e.jobId, e.value.location, taken.value.0, value));
      BagAssociates(ids, Ids(jobs), multiset{e.jobId});
    }
  }

  lemma {:induction false} IdsWithin(calls: seq<seq<IssuanceJob>>, i: nat)
    requires i < |calls|
    ensures Ids(calls[i]) <= AllIds(calls)
  {
    if i < |calls| - 1 {
      IdsWithin(calls[..|calls| - 1], i);
    }
  }

  lemma {:induction false} TwoWithin(calls: seq<seq<IssuanceJob>>, k: nat, i: nat)
    requires k < i < |calls|
    ensures Ids(calls[k]) + Ids(calls[i]) <= AllIds(calls)
  {
    var front := calls[..|calls| - 1];
    assert front[k] == calls[k];
    if i < |front| {
      TwoWithin(front, k, i);
    } else {
      IdsWithin(front, k);
    }
  }

  lemma {:induction false} CallsAreBatches(pv: PlannedValue, asm: Slots, ex: Executor)
    ensures forall b :: b in Calls(pv, asm, ex) ==> b != []
    decreases pv, 2
  {
    match pv.kind
    case Scalar(_) =>
    case PlannedArray(es) => EntryCallsAreBatches(es, false, asm, ex);
    case PlannedObject(es, _) => EntryCallsAreBatches(es, true, asm, ex);
  }

  lemma {:induction false} EntryCallsAreBatches(es: seq<PlannedEntry>, inDict: bool, asm: Slots, ex: Executor)
    ensures forall b :: b in EntryCalls(es, inDict, asm, ex) ==> b != []
    decreases es, 0
  {
    if es != [] {
      var n := |es| - 1;
      EntryCallsAreBatches(es[..n], inDict, asm, ex);
      var r := Collected(es[..n], inDict, asm, ex);
      if r.Success? {
        var last := es[n];
        assert last.value < last;
        CallsAreBatches(last.value, r.value.1, ex);
      }
    }
  }

  /** No job is handed over twice in a run, so no two of its batches are the same. */
  lemma BatchesDiffer(plan: IssuancePlan, ex: Executor)
    ensures var calls := Calls(plan.root, Fresh(plan), ex);
      && (forall x :: x in AllIds(calls) ==> AllIds(calls)[x] == 1 && x < |plan.jobs|)
      && NoDup(calls)
  {
    var asm := Fresh(plan);
    var calls := Calls(plan.root, asm, ex);
    RunHands(plan.root, asm, ex);
    CallsAreBatches(plan.root, asm, ex);
    forall i, k | 0 <= k < i < |calls| ensures calls[k] != calls[i] {
      TwoWithin(calls, k, i);
      var b := calls[i];
      assert b in calls;
      var x := b[|b| - 1].identity.jobId;
      assert x in Ids(b) && (Ids(calls[k]) + Ids(b))[x] <= AllIds(calls)[x];
    }
  }

  // A run depends on the answers to its batches only

  ghost predicate AgreeOn(ex: Executor, ex': Executor, calls: seq<seq<IssuanceJob>>) {
    forall b :: b in calls ==> ex(b) == ex'(b)
  }

  lemma {:induction false} SameRun(pv: PlannedValue, asm: Slots, ex: Executor, ex': Executor)
    requires AgreeOn(ex, ex', Calls(pv, asm, ex))
    ensures BatchedValue(pv, asm, ex) == BatchedValue(pv, asm, ex') && Calls(pv, asm, ex) == Calls(pv, asm, ex')
    decreases pv, 2
  {
    match pv.kind
    case Scalar(_) =>
    case PlannedArray(es) =>
      SameCollected(es, false, asm, ex, ex');
      var r := CollectItems(es, asm, ex);
      if r.Success? && r.value.0.jobs != [] {
        assert OwnCall(es, false, [], pv.location, asm, ex) == [r.value.0.jobs];
        assert r.value.0.jobs in Calls(pv, asm, ex);
      }
    case PlannedObject(es, decoys) =>
      SameCollected(es, true, asm, ex, ex');
      var r := CollectMembers(es, asm, ex);
      if r.Success? {
        var d := CollectDecoys(decoys, pv.location, r.value.0.jobs, r.value.1);
        if d.Success? && d.value.0 != [] {
          assert OwnCall(es, true, decoys, pv.location, asm, ex) == [d.value.0];
          assert d.value.0 in Calls(pv, asm, ex);
        }
      }
  }

  lemma AgreeOnParts(ex: Executor, ex': Executor, a: seq<seq<IssuanceJob>>, b: seq<seq<IssuanceJob>>)
    requires AgreeOn(ex, ex', a + b)
    ensures AgreeOn(ex, ex', a) && AgreeOn(ex, ex', b)
  {
    forall x | x in a ensures ex(x) == ex'(x) {
      assert x in a + b;
    }
    forall x | x in b ensures ex(x) == ex'(x) {
      assert x in a + b;
    }
  }

  lemma SameItem(b: ItemBatch, e: PlannedEntry, asm: Slots, ex: Executor, ex': Executor)
    requires BatchedValue(e.value, asm, ex) == BatchedValue(e.value, asm, ex')
    ensures CollectItem(b, e, asm, ex) == CollectItem(b, e, asm, ex')
  {
  }

  lemma SameMember(b: MemberBatch, e: PlannedEntry, asm: Slots, ex: Executor, ex': Executor)
    requires BatchedValue(e.value, asm, ex) == BatchedValue(e.value, asm, ex')
    ensures CollectMember(b, e, asm, ex) == CollectMember(b, e, asm, ex')
  {
  }

  lemma {:induction false} SameCollected(es: seq<PlannedEntry>, inDict: bool, asm: Slots, ex: Executor, ex': Executor)
    requires AgreeOn(ex, ex', EntryCalls(es, inDict, asm, ex))
    ensures EntryCalls(es, inDict, asm, ex) == EntryCalls(es, inDict, asm, ex')
    ensures if inDict then CollectMembers(es, asm, ex) == CollectMembers(es, asm, ex')
            else CollectItems(es, asm, ex) == CollectItems(es, asm, ex')
    decreases es, 0
  {
    if es != [] {
      var n := |es| - 1;
      var front, last := es[..n], es[n];
      var r := Collected(front, inDict, asm, ex);
      var more := if r.Failure? then [] else Calls(last.value, r.value.1, ex);
      AgreeOnParts(ex, ex', EntryCalls(front, inDict, asm, ex), more);
      SameCollected(front, inDict, asm, ex, ex');
      if r.Success? {
        assert last.value < last;
        SameRun(last.value, r.value.1, ex, ex');
        if inDict {
          SameMember(CollectMembers(front, asm, ex).value.0, last, r.value.1, ex, ex');
        } else {
          SameItem(CollectItems(front, asm, ex).value.0, last, r.value.1, ex, ex');
        }
      }
    }
  }

  /** The executor processes every job of the batches it is given in this run. */
  ghost predicate HonestInRun(plan: IssuancePlan, ex: Executor, c: Codec) {
    forall b :: b in Calls(plan.root, Fresh(plan), ex) ==> Answered(ex(b), b, c)
  }

  /** The refinement of the serial assembler asks for honesty only about the batches of the run itself. */
  lemma HonestRunRefinesSerial(plan: IssuancePlan, ex: Executor, c: Codec)
    requires HonestInRun(plan, ex, c)
    ensures ExecuteBatched(plan, ex).Success? <==> ExecuteSerial(plan, c).Success?
    ensures ExecuteSerial(plan, c).Success? ==> ExecuteBatched(plan, ex).value == ExecuteSerial(plan, c).value
  {
    var calls := Calls(plan.root, Fresh(plan), ex);
    var ex': Executor := b => if b in calls then ex(b) else Success(ProcessAll(b, c));
    forall b ensures Answered(ex'(b), b, c) {
    }
    SameRun(plan.root, Fresh(plan), ex, ex');
    BatchedRefinesSerial(plan, ex', c);
  }
}
