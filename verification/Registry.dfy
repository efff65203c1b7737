/**
 What ties an issuance plan together. A planner-made plan refers to every job of its registry exactly once, in
 order, with a child's jobs before its parent's, and resolves to a tree of the given claims in which exactly the
 entries chosen by the strategy are hidden.
 */
module Registry {
  import opened ClaimTree
  import opened Json
  import opened Plan
  import opened Sequences
  import opened Strategy
  import opened Wrappers

  function Range(a: nat, b: nat): seq<nat>
    requires a <= b
  {
    seq(b - a, i requires 0 <= i < b - a => a + i)
  }

  // References of the tree, in the order in which assembly takes the jobs

  function Refs(pv: PlannedValue): seq<nat> {
    match pv.kind
    case Scalar(_) => []
    case PlannedArray(es) => EntryRefs(es)
    case PlannedObject(es, decoys) => EntryRefs(es) + decoys
  }

  function EntryRefs(es: seq<PlannedEntry>): seq<nat> {
    if es == [] then []
    else
      var n := |es| - 1;
      EntryRefs(es[..n]) + RefsOf(es[n])
  }

  function RefsOf(e: PlannedEntry): seq<nat> {
    match e
    case Visible(_, value) => Refs(value)
    case Disclosed(value, jobId) => Refs(value) + [jobId]
  }

  function DisclosureRefs(pv: PlannedValue): seq<nat> {
    match pv.kind
    case Scalar(_) => []
    case PlannedArray(es) => EntryDisclosureRefs(es)
    case PlannedObject(es, _) => EntryDisclosureRefs(es)
  }

  function EntryDisclosureRefs(es: seq<PlannedEntry>): seq<nat> {
    if es == [] then []
    else
      var n := |es| - 1;
      EntryDisclosureRefs(es[..n]) + DisclosureRefsOf(es[n])
  }

  function DisclosureRefsOf(e: PlannedEntry): seq<nat> {
    match e
    case Visible(_, value) => DisclosureRefs(value)
    case Disclosed(value, jobId) => DisclosureRefs(value) + [jobId]
  }

  /** `validate_registry`: jobs are numbered by position, and disclosures and ordinals name each other. */
  predicate ValidRegistry(jobs: seq<PlannedJob>, ids: seq<nat>) {
    && (forall i :: 0 <= i < |jobs| ==> jobs[i].jobId == i)
    && (forall i :: 0 <= i < |jobs| ==>
          OrdinalOf(jobs[i].operation).Some? ==>
            OrdinalOf(jobs[i].operation).value < |ids| && ids[OrdinalOf(jobs[i].operation).value] == i)
    && (forall o :: 0 <= o < |ids| ==> ids[o] < |jobs| && OrdinalOf(jobs[ids[o]].operation) == Some(o))
  }

  /** Every reference of the tree finds a job of its kind, planned for its location. */
  predicate WellBound(pv: PlannedValue, jobs: seq<PlannedJob>) {
    match pv.kind
    case Scalar(_) => true
    case PlannedArray(es) => EntriesBound(es, false, jobs)
    case PlannedObject(es, decoys) => EntriesBound(es, true, jobs) && DecoysBound(decoys, pv.location, jobs)
  }

  predicate EntriesBound(es: seq<PlannedEntry>, inDict: bool, jobs: seq<PlannedJob>) {
    es == [] || (var n := |es| - 1; EntriesBound(es[..n], inDict, jobs) && EntryBound(es[n], inDict, jobs))
  }

  predicate EntryBound(e: PlannedEntry, inDict: bool, jobs: seq<PlannedJob>) {
    match e
    case Visible(_, value) => WellBound(value, jobs)
    case Disclosed(value, jobId) =>
      WellBound(value, jobs) && BoundTo(jobId, value.location, DisclosureKind(inDict), jobs)
  }

  predicate BoundTo(jobId: nat, location: nat, kind: Kind, jobs: seq<PlannedJob>) {
    jobId < |jobs| && jobs[jobId].location == location && KindOf(jobs[jobId].operation) == kind
  }

  predicate DecoysBound(decoys: seq<nat>, location: nat, jobs: seq<PlannedJob>) {
    decoys == [] || (var n := |decoys| - 1; DecoysBound(decoys[..n], location, jobs) && BoundTo(decoys[n], location, DecoyKind, jobs))
  }

  // The claim tree a plan stands for

  function Resolve(pv: PlannedValue, jobs: seq<PlannedJob>): Tree
    requires WellBound(pv, jobs)
  {
    match pv.kind
    case Scalar(v) => Leaf(v)
    case PlannedArray(es) => List(ResolveEntries(es, false, jobs))
    case PlannedObject(es, decoys) => Dict(ResolveEntries(es, true, jobs), DecoySalts(decoys, pv.location, jobs))
  }

  function ResolveEntries(es: seq<PlannedEntry>, inDict: bool, jobs: seq<PlannedJob>): seq<Entry>
    requires EntriesBound(es, inDict, jobs)
  {
    if es == [] then []
    else
      var n := |es| - 1;
      ResolveEntries(es[..n], inDict, jobs) + [ResolveEntry(es[n], inDict, jobs)]
  }

  function ResolveEntry(e: PlannedEntry, inDict: bool, jobs: seq<PlannedJob>): Entry
    requires EntryBound(e, inDict, jobs)
  {
    match e
    case Visible(key, value) => Entry(if inDict then key else "", Resolve(value, jobs), None)
    case Disclosed(value, jobId) =>
      var operation := jobs[jobId].operation;
      Entry(if inDict then operation.key else "", Resolve(value, jobs), Some(operation.salt))
  }

  function DecoySalts(decoys: seq<nat>, location: nat, jobs: seq<PlannedJob>): seq<string>
    requires DecoysBound(decoys, location, jobs)
  {
    if decoys == [] then []
    else
      var n := |decoys| - 1;
      DecoySalts(decoys[..n], location, jobs) + [jobs[decoys[n]].operation.salt]
  }

  /** Exactly the entries chosen by the strategy are hidden, and leaves are scalars. */
  predicate Chosen(t: Tree, s: Strategy) {
    match t
    case Leaf(v) => IsScalar(v)
    case List(es) => ItemsChosen(es, s)
    case Dict(es, _) => MembersChosen(es, s)
  }

  predicate ItemsChosen(es: seq<Entry>, s: Strategy) {
    es == [] || (var n := |es| - 1; ItemsChosen(es[..n], s) && EntryChosen(es[n], IndexKey(n), s))
  }

  predicate MembersChosen(es: seq<Entry>, s: Strategy) {
    es == [] || (var n := |es| - 1; MembersChosen(es[..n], s) && EntryChosen(es[n], es[n].key, s))
  }

  predicate EntryChosen(e: Entry, key: string, s: Strategy) {
    (e.salt.Some? <==> SdForKey(s, key)) && Chosen(e.value, NextLevel(s, key))
  }

  // Growing the registry changes nothing that was bound before

  lemma {:induction false} ResolveGrows(pv: PlannedValue, jobs: seq<PlannedJob>, more: seq<PlannedJob>)
    requires WellBound(pv, jobs) && jobs <= more
    ensures WellBound(pv, more) && Resolve(pv, more) == Resolve(pv, jobs)
    decreases pv, 1
  {
    match pv.kind
    case Scalar(_) =>
    case PlannedArray(es) => ResolveEntriesGrow(es, false, jobs, more);
    case PlannedObject(es, decoys) =>
      ResolveEntriesGrow(es, true, jobs, more);
      DecoySaltsGrow(decoys, pv.location, jobs, more);
  }

  lemma {:induction false} ResolveEntriesGrow(es: seq<PlannedEntry>, inDict: bool, jobs: seq<PlannedJob>, more: seq<PlannedJob>)
    requires EntriesBound(es, inDict, jobs) && jobs <= more
    ensures EntriesBound(es, inDict, more) && ResolveEntries(es, inDict, more) == ResolveEntries(es, inDict, jobs)
    decreases es, 0
  {
    if es != [] {
      var n := |es| - 1;
      ResolveEntriesGrow(es[..n], inDict, jobs, more);
      ResolveEntryGrows(es[n], inDict, jobs, more);
    }
  }

  lemma {:induction false} ResolveEntryGrows(e: PlannedEntry, inDict: bool, jobs: seq<PlannedJob>, more: seq<PlannedJob>)
    requires EntryBound(e, inDict, jobs) && jobs <= more
    ensures EntryBound(e, inDict, more) && ResolveEntry(e, inDict, more) == ResolveEntry(e, inDict, jobs)
    decreases e, 2
  {
    match e
    case Visible(_, value) => ResolveGrows(value, jobs, more);
    case Disclosed(value, _) => ResolveGrows(value, jobs, more);
  }

  lemma {:induction false} DecoySaltsGrow(decoys: seq<nat>, location: nat, jobs: seq<PlannedJob>, more: seq<PlannedJob>)
    requires DecoysBound(decoys, location, jobs) && jobs <= more
    ensures DecoysBound(decoys, location, more) && DecoySalts(decoys, location, more) == DecoySalts(decoys, location, jobs)
  {
    if decoys != [] {
      DecoySaltsGrow(decoys[..|decoys| - 1], location, jobs, more);
    }
  }

  // Planner-made plans

  /** Between two states of the planner, jobs were added in the order of `refs`, and disclosures in that of `discs`. */
  ghost predicate Extends(st: PlanState, st': PlanState, refs: seq<nat>, discs: seq<nat>) {
    && st.jobs <= st'.jobs
    && refs == Range(|st.jobs|, |st'.jobs|)
    && st'.disclosureJobIds == st.disclosureJobIds + discs
    && ValidRegistry(st'.jobs, st'.disclosureJobIds)
  }

  lemma ExtendsTrans(a: PlanState, b: PlanState, c: PlanState, refs: seq<nat>, discs: seq<nat>, refs': seq<nat>, discs': seq<nat>)
    requires Extends(a, b, refs, discs) && Extends(b, c, refs', discs')
    ensures Extends(a, c, refs + refs', discs + discs')
  {
  }

  lemma AddDisclosureExtends(st: PlanState, inDict: bool, key: string, location: nat, tape: Tape)
    requires ValidRegistry(st.jobs, st.disclosureJobIds)
    ensures Extends(st, AddDisclosure(st, inDict, key, location, tape), [|st.jobs|], [|st.jobs|])
  {
  }

  lemma AddDecoyExtends(st: PlanState, location: nat, tape: Tape)
    requires ValidRegistry(st.jobs, st.disclosureJobIds)
    ensures Extends(st, AddDecoy(st, location, tape), [|st.jobs|], [])
  {
  }

  lemma OneMoreDecoy(ids: seq<nat>, location: nat, st: PlanState, st': PlanState, tape: Tape)
    requires Extends(st, st', ids, []) && DecoysBound(ids, location, st'.jobs)
    ensures var st'' := AddDecoy(st', location, tape);
      Extends(st, st'', ids + [|st'.jobs|], []) && DecoysBound(ids + [|st'.jobs|], location, st''.jobs)
  {
    var st'' := AddDecoy(st', location, tape);
    AddDecoyExtends(st', location, tape);
    ExtendsTrans(st, st', st'', ids, [], [|st'.jobs|], []);
    DecoySaltsGrow(ids, location, st'.jobs, st''.jobs);
    Snoc(ids, |st'.jobs|);
    assert BoundTo(|st'.jobs|, location, DecoyKind, st''.jobs);
  }

  lemma {:induction false} PlanDecoysSound(count: nat, location: nat, st: PlanState, tape: Tape)
    requires ValidRegistry(st.jobs, st.disclosureJobIds)
    ensures var (ids, st') := PlanDecoys(count, location, st, tape);
      Extends(st, st', ids, []) && DecoysBound(ids, location, st'.jobs)
  {
    if count > 0 {
      PlanDecoysSound(count - 1, location, st, tape);
      var (ids, st') := PlanDecoys(count - 1, location, st, tape);
      OneMoreDecoy(ids, location, st, st', tape);
    }
  }

  /** `pv` was planned for `v` between the two states. */
  ghost predicate Plans(pv: PlannedValue, v: Value, s: Strategy, location: nat, st: PlanState, st': PlanState) {
    && pv.location == location
    && Extends(st, st', Refs(pv), DisclosureRefs(pv))
    && WellBound(pv, st'.jobs)
    && Claims(Resolve(pv, st'.jobs)) == v
    && Chosen(Resolve(pv, st'.jobs), s)
  }

  lemma {:induction false} PlanValueSound(v: Value, s: Strategy, location: nat, st: PlanState, cfg: Config)
    requires ValidRegistry(st.jobs, st.disclosureJobIds)
    ensures var (pv, st') := PlanValue(v, s, location, st, cfg); Plans(pv, v, s, location, st, st')
    decreases v, 2
  {
    match v
    case Array(items) => PlanItemsSound(items, s, st, cfg);
    case Object(members) =>
      PlanMembersSound(members, s, st, cfg);
      PlanObjectSound(members, s, location, st, cfg);
    case _ =>
  }

  lemma PlanObjectSound(members: seq<Member>, s: Strategy, location: nat, st: PlanState, cfg: Config)
    requires var (es, st') := PlanMembers(members, s, st, cfg); PlansMembers(es, members, s, st, st')
    ensures var (pv, st') := PlanValue(Object(members), s, location, st, cfg); Plans(pv, Object(members), s, location, st, st')
  {
    var (es, st') := PlanMembers(members, s, st, cfg);
    WithDecoysSound(es, members, s, location, st, st', cfg);
  }

  lemma WithDecoysSound(
      es: seq<PlannedEntry>, members: seq<Member>, s: Strategy, location: nat, st: PlanState, st': PlanState, cfg: Config)
    requires PlansMembers(es, members, s, st, st')
    ensures var (pv, st'') := WithDecoys(es, location, st', cfg); Plans(pv, Object(members), s, location, st, st'')
  {
    if cfg.addDecoys {
      var count := cfg.tape.decoyCount(st'.draws.counts);
      var counted := st'.(draws := st'.draws.(counts := st'.draws.counts + 1));
      var (decoys, st'') := PlanDecoys(count, location, counted, cfg.tape);
      PlanDecoysSound(count, location, counted, cfg.tape);
      AddedDecoys(es, members, decoys, s, location, st, st', st'');
    } else {
      AddedDecoys(es, members, [], s, location, st, st', st');
    }
  }

  lemma AddedDecoys(
      es: seq<PlannedEntry>, members: seq<Member>, decoys: seq<nat>, s: Strategy, location: nat, st: PlanState, st': PlanState,
      st'': PlanState)
    requires PlansMembers(es, members, s, st, st')
    requires Extends(st', st'', decoys, []) && DecoysBound(decoys, location, st''.jobs)
    ensures Plans(PlannedValue(location, PlannedObject(es, decoys)), Object(members), s, location, st, st'')
  {
    ExtendsTrans(st, st', st'', EntryRefs(es), EntryDisclosureRefs(es), decoys, []);
    assert EntryDisclosureRefs(es) + [] == EntryDisclosureRefs(es);
    ResolveEntriesGrow(es, true, st'.jobs, st''.jobs);
  }

  ghost predicate PlansItems(es: seq<PlannedEntry>, items: seq<Value>, s: Strategy, st: PlanState, st': PlanState) {
    && Extends(st, st', EntryRefs(es), EntryDisclosureRefs(es))
    && EntriesBound(es, false, st'.jobs)
    && ClaimItems(ResolveEntries(es, false, st'.jobs)) == items
    && ItemsChosen(ResolveEntries(es, false, st'.jobs), s)
  }

  ghost predicate PlansMembers(es: seq<PlannedEntry>, members: seq<Member>, s: Strategy, st: PlanState, st': PlanState) {
    && Extends(st, st', EntryRefs(es), EntryDisclosureRefs(es))
    && EntriesBound(es, true, st'.jobs)
    && ClaimMembers(ResolveEntries(es, true, st'.jobs)) == members
    && MembersChosen(ResolveEntries(es, true, st'.jobs), s)
  }

  ghost predicate PlansEntry(e: PlannedEntry, inDict: bool, key: string, v: Value, s: Strategy, st: PlanState, st': PlanState) {
    && Extends(st, st', RefsOf(e), DisclosureRefsOf(e))
    && EntryBound(e, inDict, st'.jobs)
    && (var r := ResolveEntry(e, inDict, st'.jobs);
        Claims(r.value) == v && (inDict ==> r.key == key) && EntryChosen(r, key, s))
  }

  lemma {:induction false} PlanItemsSound(items: seq<Value>, s: Strategy, st: PlanState, cfg: Config)
    requires ValidRegistry(st.jobs, st.disclosureJobIds)
    ensures var (es, st') := PlanItems(items, s, st, cfg); PlansItems(es, items, s, st, st')
    decreases items, 0
  {
    if items != [] {
      var n := |items| - 1;
      PlanItemsSound(items[..n], s, st, cfg);
      var (es, st') := PlanItems(items[..n], s, st, cfg);
      PlanEntrySound(false, IndexKey(n), items[n], s, st', cfg);
      var (e, st'') := PlanEntry(false, IndexKey(n), items[n], s, st', cfg);
      OneMoreItem(es, items[..n], e, items[n], s, st, st', st'');
      PlanItemsUnfolds(items, s, st, cfg);
    }
  }

  lemma PlanItemsUnfolds(items: seq<Value>, s: Strategy, st: PlanState, cfg: Config)
    requires items != []
    ensures var n := |items| - 1;
      var (es, st') := PlanItems(items[..n], s, st, cfg);
      var (e, st'') := PlanEntry(false, IndexKey(n), items[n], s, st', cfg);
      PlanItems(items, s, st, cfg) == (es + [e], st'') && items[..n] + [items[n]] == items
  {
  }

  lemma OneMoreItem(
      es: seq<PlannedEntry>, items: seq<Value>, e: PlannedEntry, v: Value, s: Strategy, st: PlanState, st': PlanState, st'': PlanState)
    requires PlansItems(es, items, s, st, st') && PlansEntry(e, false, IndexKey(|items|), v, s, st', st'')
    ensures PlansItems(es + [e], items + [v], s, st, st'')
  {
    Snoc(es, e);
    ExtendsTrans(st, st', st'', EntryRefs(es), EntryDisclosureRefs(es), RefsOf(e), DisclosureRefsOf(e));
    ResolveEntriesGrow(es, false, st'.jobs, st''.jobs);
    Snoc(ResolveEntries(es, false, st'.jobs), ResolveEntry(e, false, st''.jobs));
  }

  lemma {:induction false} PlanMembersSound(members: seq<Member>, s: Strategy, st: PlanState, cfg: Config)
    requires ValidRegistry(st.jobs, st.disclosureJobIds)
    ensures var (es, st') := PlanMembers(members, s, st, cfg); PlansMembers(es, members, s, st, st')
    decreases members, 0
  {
    if members != [] {
      var n := |members| - 1;
      var m := members[n];
      PlanMembersSound(members[..n], s, st, cfg);
      var (es, st') := PlanMembers(members[..n], s, st, cfg);
      PlanEntrySound(true, m.key, m.value, s, st', cfg);
      var (e, st'') := PlanEntry(true, m.key, m.value, s, st', cfg);
      OneMoreMember(es, members[..n], e, m, s, st, st', st'');
      PlanMembersUnfolds(members, s, st, cfg);
    }
  }

  lemma PlanMembersUnfolds(members: seq<Member>, s: Strategy, st: PlanState, cfg: Config)
    requires members != []
    ensures var n := |members| - 1;
      var (es, st') := PlanMembers(members[..n], s, st, cfg);
      var (e, st'') := PlanEntry(true, members[n].key, members[n].value, s, st', cfg);
      PlanMembers(members, s, st, cfg) == (es + [e], st'') && members[..n] + [members[n]] == members
  {
  }

  lemma OneMoreMember(
      es: seq<PlannedEntry>, members: seq<Member>, e: PlannedEntry, m: Member, s: Strategy, st: PlanState, st': PlanState, st'': PlanState)
    requires PlansMembers(es, members, s, st, st') && PlansEntry(e, true, m.key, m.value, s, st', st'')
    ensures PlansMembers(es + [e], members + [m], s, st, st'')
  {
    Snoc(es, e);
    ExtendsTrans(st, st', st'', EntryRefs(es), EntryDisclosureRefs(es), RefsOf(e), DisclosureRefsOf(e));
    ResolveEntriesGrow(es, true, st'.jobs, st''.jobs);
    Snoc(ResolveEntries(es, true, st'.jobs), ResolveEntry(e, true, st''.jobs));
  }

  lemma {:induction false} PlanEntrySound(inDict: bool, key: string, v: Value, s: Strategy, st: PlanState, cfg: Config)
    requires ValidRegistry(st.jobs, st.disclosureJobIds)
    ensures var (e, st') := PlanEntry(inDict, key, v, s, st, cfg); PlansEntry(e, inDict, key, v, s, st, st')
    decreases v, 3
  {
    var location := st.nextLocation;
    var next := st.(nextLocation := location + 1);
    PlanValueSound(v, NextLevel(s, key), location, next, cfg);
    var (pv, st') := PlanValue(v, NextLevel(s, key), location, next, cfg);
    if SdForKey(s, key) {
      HiddenSound(pv, inDict, key, v, s, location, st, st', cfg.tape);
    }
  }

  lemma HiddenSound(
      pv: PlannedValue, inDict: bool, key: string, v: Value, s: Strategy, location: nat, st: PlanState, st': PlanState, tape: Tape)
    requires SdForKey(s, key) && Plans(pv, v, NextLevel(s, key), location, st.(nextLocation := location + 1), st')
    ensures PlansEntry(Disclosed(pv, |st'.jobs|), inDict, key, v, s, st, AddDisclosure(st', inDict, key, location, tape))
  {
    var st'' := AddDisclosure(st', inDict, key, location, tape);
    AddDisclosureExtends(st', inDict, key, location, tape);
    ExtendsTrans(st, st', st'', Refs(pv), DisclosureRefs(pv), [|st'.jobs|], [|st'.jobs|]);
    ResolveGrows(pv, st'.jobs, st''.jobs);
    assert BoundTo(|st'.jobs|, location, DisclosureKind(inDict), st''.jobs);
  }

  /**
   A planner-made plan: its registry is valid, the tree refers to the jobs 0, 1, 2, ... in assembly order and to the
   disclosures in ordinal order, and it resolves to the claims with exactly the chosen entries hidden.
   */
  lemma PlannerMadePlan(claims: Value, s: Strategy, cfg: Config)
    ensures var plan := Create(claims, s, cfg);
      && ValidRegistry(plan.jobs, plan.disclosureJobIds)
      && WellBound(plan.root, plan.jobs)
      && Refs(plan.root) == Range(0, |plan.jobs|)
      && plan.disclosureJobIds == DisclosureRefs(plan.root)
      && Claims(Resolve(plan.root, plan.jobs)) == claims
      && Chosen(Resolve(plan.root, plan.jobs), s)
  {
    PlanValueSound(claims, s, 0, Start, cfg);
  }
}
