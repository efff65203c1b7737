/**
 Exactly which plans the serial assembler executes, corrupted ones included, and what it makes of planner-made ones.
 */
module SerialIssuance {
  import opened Assembly
  import opened ClaimTree
  import opened Json
  import opened Plan
  import opened Registry
  import opened Sequences
  import opened Strategy
  import opened Wrappers

  // Every disclosure job among the references has its disclosure made

  lemma {:induction false} WorkComplete(pv: PlannedValue, jobs: seq<PlannedJob>, c: Codec)
    requires WellBound(pv, jobs)
    ensures forall x :: x in Refs(pv) ==> x < |jobs|
    ensures forall x :: x in Refs(pv) && !jobs[x].operation.Decoy? ==> x in Work(pv, jobs, c)
    decreases pv, 1
  {
    match pv.kind
    case Scalar(_) =>
    case PlannedArray(es) => EntriesWorkComplete(es, false, jobs, c);
    case PlannedObject(es, decoys) =>
      EntriesWorkComplete(es, true, jobs, c);
      DecoysAreDecoys(decoys, pv.location, jobs);
  }

  lemma {:induction false} DecoysAreDecoys(decoys: seq<nat>, location: nat, jobs: seq<PlannedJob>)
    requires DecoysBound(decoys, location, jobs)
    ensures forall x :: x in decoys ==> x < |jobs| && jobs[x].operation.Decoy?
  {
    if decoys != [] {
      var n := |decoys| - 1;
      DecoysAreDecoys(decoys[..n], location, jobs);
      assert forall x :: x in decoys ==> x in decoys[..n] || x == decoys[n];
    }
  }

  lemma {:induction false} EntriesWorkComplete(es: seq<PlannedEntry>, inDict: bool, jobs: seq<PlannedJob>, c: Codec)
    requires EntriesBound(es, inDict, jobs)
    ensures forall x :: x in EntryRefs(es) ==> x < |jobs|
    ensures forall x :: x in EntryRefs(es) && !jobs[x].operation.Decoy? ==> x in EntriesWork(es, inDict, jobs, c)
    decreases es, 0
  {
    if es != [] {
      var n := |es| - 1;
      EntriesWorkComplete(es[..n], inDict, jobs, c);
      EntryWorkComplete(es[n], inDict, jobs, c);
    }
  }

  lemma {:induction false} EntryWorkComplete(e: PlannedEntry, inDict: bool, jobs: seq<PlannedJob>, c: Codec)
    requires EntryBound(e, inDict, jobs)
    ensures forall x :: x in RefsOf(e) ==> x < |jobs|
    ensures forall x :: x in RefsOf(e) && !jobs[x].operation.Decoy? ==> x in EntryWork(e, inDict, jobs, c)
    decreases e, 2
  {
    match e
    case Visible(_, value) => WorkComplete(value, jobs, c);
    case Disclosed(value, jobId) => WorkComplete(value, jobs, c);
  }

  /** The tree refers to every job of the registry exactly once, at its location and by its kind. */
  ghost predicate Sound(plan: IssuancePlan) {
    && ValidRegistry(plan.jobs, plan.disclosureJobIds)
    && WellBound(plan.root, plan.jobs)
    && multiset(Refs(plan.root)) == multiset(Range(0, |plan.jobs|))
  }

  lemma RefsCoverIff(refs: seq<nat>, n: nat)
    requires forall x :: x in refs ==> x < n
    ensures NoDup(refs) && (forall i :: 0 <= i < n ==> i in refs) <==> multiset(refs) == multiset(Range(0, n))
  {
    var all := Range(0, n);
    NoDupMultiset(refs);
    NoDupMultiset(all);
    assert NoDup(all);
    forall i | 0 <= i < n ensures i in all {
      assert all[i] == i;
    }
    assert forall x :: x in all ==> x < n;
    if NoDup(refs) && forall i :: 0 <= i < n ==> i in refs {
      forall x: nat ensures multiset(refs)[x] == multiset(all)[x] {
        assert x in refs <==> x in multiset(refs);
        assert x in all <==> x in multiset(all);
      }
    }
    if multiset(refs) == multiset(all) {
      forall i | 0 <= i < n ensures i in refs {
        assert all[i] in multiset(all);
      }
    }
  }

  /** `r` holds the payload of the plan's tree and, ordinal by ordinal, the disclosures made for its jobs. */
  ghost predicate Delivers(r: Assembled, plan: IssuancePlan, c: Codec)
    requires WellBound(plan.root, plan.jobs)
  {
    && r.claims == Payload(Resolve(plan.root, plan.jobs), c)
    && |r.disclosures| == |plan.disclosureJobIds|
    && forall o :: 0 <= o < |r.disclosures| ==>
         plan.disclosureJobIds[o] in Work(plan.root, plan.jobs, c)
         && r.disclosures[o] == Work(plan.root, plan.jobs, c)[plan.disclosureJobIds[o]]
  }

  /** For any plan whatsoever: serial execution succeeds exactly when the plan is sound, and delivers its payload. */
  lemma SerialExact(plan: IssuancePlan, c: Codec)
    ensures ExecuteSerial(plan, c).Success? <==> Sound(plan)
    ensures Sound(plan) ==> Delivers(ExecuteSerial(plan, c).value, plan, c)
  {
    var jobs, ids, root := plan.jobs, plan.disclosureJobIds, plan.root;
    RegistryErrorIff(jobs, ids);
    if ValidRegistry(jobs, ids) {
      FreshIsAfter(plan);
      ValueExact(root, c, jobs, ids, {}, map[]);
      if WellBound(root, jobs) {
        WorkComplete(root, jobs, c);
        RefsCoverIff(Refs(root), |jobs|);
        FinishExact(plan, Payload(Resolve(root, jobs), c), c);
      }
    }
  }

  lemma FinishExact(plan: IssuancePlan, claims: Value, c: Codec)
    requires ValidRegistry(plan.jobs, plan.disclosureJobIds) && WellBound(plan.root, plan.jobs)
    requires claims == Payload(Resolve(plan.root, plan.jobs), c)
    ensures var refs := Refs(plan.root);
      var slots := After(plan.jobs, plan.disclosureJobIds, {} + Elements(refs), map[] + Work(plan.root, plan.jobs, c));
      var r := Finish(claims, slots);
      && (r.Success? <==> forall i :: 0 <= i < |plan.jobs| ==> i in refs)
      && (r.Success? ==> Delivers(r.value, plan, c))
  {
    var refs, w := Refs(plan.root), Work(plan.root, plan.jobs, c);
    var slots := After(plan.jobs, plan.disclosureJobIds, {} + Elements(refs), map[] + w);
    WorkComplete(plan.root, plan.jobs, c);
    assert forall i :: 0 <= i < |plan.jobs| ==> (slots.jobs[i].None? <==> i in refs);
    forall o | 0 <= o < |plan.disclosureJobIds|
      ensures (forall i :: 0 <= i < |plan.jobs| ==> i in refs) ==> plan.disclosureJobIds[o] in w
    {
      assert OrdinalOf(plan.jobs[plan.disclosureJobIds[o]].operation) == Some(o);
    }
  }

  // Ordinal order

  lemma {:induction false} WorkInOrder(pv: PlannedValue, jobs: seq<PlannedJob>, c: Codec)
    requires WellBound(pv, jobs) && NoDup(Refs(pv))
    ensures InOrder(DisclosureRefs(pv), Work(pv, jobs, c), Issues(Resolve(pv, jobs), c))
    decreases pv, 1
  {
    match pv.kind
    case Scalar(_) =>
    case PlannedArray(es) => EntriesWorkInOrder(es, false, jobs, c);
    case PlannedObject(es, decoys) =>
      NoDupConcat(EntryRefs(es), decoys);
      EntriesWorkInOrder(es, true, jobs, c);
  }

  /** Looking the references up one by one gives the disclosures in that order. */
  ghost predicate InOrder(refs: seq<nat>, work: map<nat, Issued>, issues: seq<Issued>) {
    |refs| == |issues| && forall k :: 0 <= k < |refs| ==> refs[k] in work && work[refs[k]] == issues[k]
  }

  lemma {:induction false} EntriesWorkInOrder(es: seq<PlannedEntry>, inDict: bool, jobs: seq<PlannedJob>, c: Codec)
    requires EntriesBound(es, inDict, jobs) && NoDup(EntryRefs(es))
    ensures InOrder(EntryDisclosureRefs(es), EntriesWork(es, inDict, jobs, c), EntryIssues(ResolveEntries(es, inDict, jobs), inDict, c))
    decreases es, 0
  {
    if es != [] {
      var n := |es| - 1;
      NoDupConcat(EntryRefs(es[..n]), RefsOf(es[n]));
      EntriesWorkInOrder(es[..n], inDict, jobs, c);
      EntryWorkInOrder(es[n], inDict, jobs, c);
      EntriesWorkKeys(es[..n], inDict, jobs, c);
      EntryWorkKeys(es[n], inDict, jobs, c);
      InOrderConcat(EntryDisclosureRefs(es[..n]), EntriesWork(es[..n], inDict, jobs, c),
                    EntryIssues(ResolveEntries(es[..n], inDict, jobs), inDict, c),
                    DisclosureRefsOf(es[n]), EntryWork(es[n], inDict, jobs, c), IssuesOf(ResolveEntry(es[n], inDict, jobs), inDict, c));
      Snoc(ResolveEntries(es[..n], inDict, jobs), ResolveEntry(es[n], inDict, jobs));
    }
  }

  lemma InOrderConcat(a: seq<nat>, w: map<nat, Issued>, i: seq<Issued>, b: seq<nat>, w': map<nat, Issued>, i': seq<Issued>)
    requires InOrder(a, w, i) && InOrder(b, w', i') && w.Keys !! w'.Keys
    ensures InOrder(a + b, w + w', i + i')
  {
  }

  lemma {:induction false} EntryWorkInOrder(e: PlannedEntry, inDict: bool, jobs: seq<PlannedJob>, c: Codec)
    requires EntryBound(e, inDict, jobs) && NoDup(RefsOf(e))
    ensures InOrder(DisclosureRefsOf(e), EntryWork(e, inDict, jobs, c), IssuesOf(ResolveEntry(e, inDict, jobs), inDict, c))
    decreases e, 2
  {
    match e
    case Visible(_, value) => WorkInOrder(value, jobs, c);
    case Disclosed(value, jobId) =>
      NoDupConcat(Refs(value), [jobId]);
      WorkInOrder(value, jobs, c);
      WorkKeys(value, jobs, c);
      assert jobId in [jobId];
      var d := IssuedOf(ResolveEntry(e, inDict, jobs), inDict, c);
      assert map[jobId := d].Keys == {jobId};
      assert Work(value, jobs, c)[jobId := d] == Work(value, jobs, c) + map[jobId := d];
      InOrderConcat(DisclosureRefs(value), Work(value, jobs, c), Issues(Resolve(value, jobs), c), [jobId], map[jobId := d], [d]);
  }

  /**
   Every planner-made plan runs to the end: its payload is that of a tree of the given claims in which exactly the
   chosen entries are hidden, and its disclosures are those of the tree, nested ones first.
   */
  lemma PlannedIssuance(claims: Value, s: Strategy, cfg: Config, c: Codec)
    ensures var plan := Create(claims, s, cfg);
      && Sound(plan)
      && var t := Resolve(plan.root, plan.jobs);
      && Claims(t) == claims
      && Chosen(t, s)
      && ExecuteSerial(plan, c) == Success(Assembled(Payload(t, c), Issues(t, c)))
  {
    var plan := Create(claims, s, cfg);
    PlannerMadePlan(claims, s, cfg);
    SerialExact(plan, c);
    assert NoDup(Refs(plan.root));
    WorkInOrder(plan.root, plan.jobs, c);
    assert ExecuteSerial(plan, c).value.disclosures == Issues(Resolve(plan.root, plan.jobs), c);
  }
}
