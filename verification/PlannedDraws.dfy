/**
 What a plan does with the random source and the location counter: every node has a location of its own, every object as
 many decoys as were drawn for it, and every disclosure and decoy the next salt that was drawn, none used twice.
 */
module PlannedDraws {
  import opened Assembly
  import opened ClaimTree
  import opened Issuance
  import opened Json
  import opened Plan
  import opened Registry
  import opened Sequences
  import opened SerialIssuance
  import opened Strategy
  import opened Wrappers

  // Locations and decoy counts

  /** The locations of a planned value, a container before its children. */
  function Locations(pv: PlannedValue): seq<nat> {
    match pv.kind
    case Scalar(_) => [pv.location]
    case PlannedArray(es) => [pv.location] + EntryLocations(es)
    case PlannedObject(es, _) => [pv.location] + EntryLocations(es)
  }

  function EntryLocations(es: seq<PlannedEntry>): seq<nat> {
    if es == [] then []
    else
      var n := |es| - 1;
      var last := es[n];
      assert last.value < last;
      EntryLocations(es[..n]) + Locations(last.value)
  }

  /** How many decoys each object has, objects after those nested in them. */
  function DecoyCounts(pv: PlannedValue): seq<nat> {
    match pv.kind
    case Scalar(_) => []
    case PlannedArray(es) => EntryDecoyCounts(es)
    case PlannedObject(es, decoys) => EntryDecoyCounts(es) + [|decoys|]
  }

  function EntryDecoyCounts(es: seq<PlannedEntry>): seq<nat> {
    if es == [] then []
    else
      var n := |es| - 1;
      var last := es[n];
      assert last.value < last;
      EntryDecoyCounts(es[..n]) + DecoyCounts(last.value)
  }

  /** The counts are the draws between the two numbers, or all zero when no decoys are wanted. */
  ghost predicate CountsDrawn(counts: seq<nat>, a: nat, b: nat, cfg: Config) {
    if cfg.addDecoys then a + |counts| == b && forall i :: 0 <= i < |counts| ==> counts[i] == cfg.tape.decoyCount(a + i)
    else forall i :: 0 <= i < |counts| ==> counts[i] == 0
  }

  lemma ThenDrawn(x: seq<nat>, a: nat, b: nat, y: seq<nat>, c: nat, cfg: Config)
    requires CountsDrawn(x, a, b, cfg) && CountsDrawn(y, b, c, cfg)
    ensures CountsDrawn(x + y, a, c, cfg)
  {
  }

  ghost predicate Shapes(locations: seq<nat>, counts: seq<nat>, st: PlanState, st': PlanState, cfg: Config) {
    && st.nextLocation <= st'.nextLocation && locations == Range(st.nextLocation, st'.nextLocation)
    && CountsDrawn(counts, st.draws.counts, st'.draws.counts, cfg)
  }

  lemma {:induction false} DecoysShape(count: nat, location: nat, st: PlanState, tape: Tape)
    ensures var (ids, st') := PlanDecoys(count, location, st, tape);
      |ids| == count && st'.nextLocation == st.nextLocation && st'.draws.counts == st.draws.counts
  {
    if count > 0 {
      DecoysShape(count - 1, location, st, tape);
    }
  }

  lemma {:induction false} ValueShape(v: Value, s: Strategy, location: nat, st: PlanState, cfg: Config)
    ensures var (pv, st') := PlanValue(v, s, location, st, cfg);
      Locations(pv)[0] == location && Shapes(Locations(pv)[1..], DecoyCounts(pv), st, st', cfg)
    decreases v, 2
  {
    match v
    case Array(items) => ItemsShape(items, s, st, cfg);
    case Object(members) =>
      MembersShape(members, s, st, cfg);
      var (es, st') := PlanMembers(members, s, st, cfg);
      ObjectShape(es, location, st, st', cfg);
    case _ =>
  }

  lemma ObjectShape(es: seq<PlannedEntry>, location: nat, st: PlanState, st': PlanState, cfg: Config)
    requires Shapes(EntryLocations(es), EntryDecoyCounts(es), st, st', cfg)
    ensures var (pv, st'') := WithDecoys(es, location, st', cfg);
      Locations(pv) == [location] + EntryLocations(es) && Shapes(EntryLocations(es), DecoyCounts(pv), st, st'', cfg)
  {
    if cfg.addDecoys {
      var count := cfg.tape.decoyCount(st'.draws.counts);
      var counted := st'.(draws := st'.draws.(counts := st'.draws.counts + 1));
      DecoysShape(count, location, counted, cfg.tape);
      ThenDrawn(EntryDecoyCounts(es), st.draws.counts, st'.draws.counts, [count], st'.draws.counts + 1, cfg);
    }
  }

  lemma OneMoreShape(es: seq<PlannedEntry>, e: PlannedEntry, st: PlanState, st': PlanState, st'': PlanState, cfg: Config)
    requires Shapes(EntryLocations(es), EntryDecoyCounts(es), st, st', cfg)
    requires Shapes(Locations(e.value), DecoyCounts(e.value), st', st'', cfg)
    ensures Shapes(EntryLocations(es + [e]), EntryDecoyCounts(es + [e]), st, st'', cfg)
  {
    Snoc(es, e);
    ThenDrawn(EntryDecoyCounts(es), st.draws.counts, st'.draws.counts, DecoyCounts(e.value), st''.draws.counts, cfg);
  }

  lemma {:induction false} ItemsShape(items: seq<Value>, s: Strategy, st: PlanState, cfg: Config)
    ensures var (es, st') := PlanItems(items, s, st, cfg); Shapes(EntryLocations(es), EntryDecoyCounts(es), st, st', cfg)
    decreases items, 0
  {
    if items != [] {
      var n := |items| - 1;
      ItemsShape(items[..n], s, st, cfg);
      var (es, st') := PlanItems(items[..n], s, st, cfg);
      EntryShape(false, IndexKey(n), items[n], s, st', cfg);
      var (e, st'') := PlanEntry(false, IndexKey(n), items[n], s, st', cfg);
      OneMoreShape(es, e, st, st', st'', cfg);
      PlanItemsUnfolds(items, s, st, cfg);
    }
  }

  lemma {:induction false} MembersShape(members: seq<Member>, s: Strategy, st: PlanState, cfg: Config)
    ensures var (es, st') := PlanMembers(members, s, st, cfg); Shapes(EntryLocations(es), EntryDecoyCounts(es), st, st', cfg)
    decreases members, 0
  {
    if members != [] {
      var n := |members| - 1;
      var m := members[n];
      assert m.value < m;
      MembersShape(members[..n], s, st, cfg);
      var (es, st') := PlanMembers(members[..n], s, st, cfg);
      EntryShape(true, m.key, m.value, s, st', cfg);
      var (e, st'') := PlanEntry(true, m.key, m.value, s, st', cfg);
      OneMoreShape(es, e, st, st', st'', cfg);
      PlanMembersUnfolds(members, s, st, cfg);
    }
  }

  lemma {:induction false} EntryShape(inDict: bool, key: string, v: Value, s: Strategy, st: PlanState, cfg: Config)
    ensures var (e, st') := PlanEntry(inDict, key, v, s, st, cfg); Shapes(Locations(e.value), DecoyCounts(e.value), st, st', cfg)
    decreases v, 3
  {
    var location := st.nextLocation;
    var next := st.(nextLocation := location + 1);
    ValueShape(v, NextLevel(s, key), location, next, cfg);
    var (pv, st') := PlanValue(v, NextLevel(s, key), location, next, cfg);
    assert Locations(pv) == [location] + Locations(pv)[1..];
    assert Range(location, st'.nextLocation) == [location] + Range(location + 1, st'.nextLocation);
  }

  // Salts

  ghost predicate Salted(op: Operation, salt: string) {
    !op.Decoy? && op.salt == salt
  }

  function DecoyJobSalts(jobs: seq<PlannedJob>): seq<string> {
    if jobs == [] then []
    else
      var n := |jobs| - 1;
      var r := DecoyJobSalts(jobs[..n]);
      if jobs[n].operation.Decoy? then r + [jobs[n].operation.salt] else r
  }

  /** Disclosures have the salts drawn so far, by ordinal, and decoys theirs, in registry order. */
  ghost predicate SaltsDrawn(jobs: seq<PlannedJob>, ids: seq<nat>, decoySalts: nat, tape: Tape) {
    && (forall o :: 0 <= o < |ids| ==> ids[o] < |jobs| && Salted(jobs[ids[o]].operation, tape.salt(o)))
    && |DecoyJobSalts(jobs)| == decoySalts && forall i :: 0 <= i < decoySalts ==> DecoyJobSalts(jobs)[i] == tape.decoySalt(i)
  }

  ghost predicate Drawn(st: PlanState, tape: Tape) {
    st.draws.salts == |st.disclosureJobIds| && SaltsDrawn(st.jobs, st.disclosureJobIds, st.draws.decoySalts, tape)
  }

  lemma AddDisclosureDraws(st: PlanState, inDict: bool, key: string, location: nat, tape: Tape)
    requires Drawn(st, tape)
    ensures Drawn(AddDisclosure(st, inDict, key, location, tape), tape)
  {
    var st' := AddDisclosure(st, inDict, key, location, tape);
    Snoc(st.jobs, st'.jobs[|st.jobs|]);
  }

  lemma AddDecoyDraws(st: PlanState, location: nat, tape: Tape)
    requires Drawn(st, tape)
    ensures Drawn(AddDecoy(st, location, tape), tape)
  {
    var st' := AddDecoy(st, location, tape);
    Snoc(st.jobs, st'.jobs[|st.jobs|]);
  }

  lemma {:induction false} DecoysDraw(count: nat, location: nat, st: PlanState, tape: Tape)
    requires Drawn(st, tape)
    ensures Drawn(PlanDecoys(count, location, st, tape).1, tape)
  {
    if count > 0 {
      DecoysDraw(count - 1, location, st, tape);
      AddDecoyDraws(PlanDecoys(count - 1, location, st, tape).1, location, tape);
    }
  }

  lemma {:induction false} ValueDraws(v: Value, s: Strategy, location: nat, st: PlanState, cfg: Config)
    requires Drawn(st, cfg.tape)
    ensures Drawn(PlanValue(v, s, location, st, cfg).1, cfg.tape)
    decreases v, 2
  {
    match v
    case Array(items) => ItemsDraw(items, s, st, cfg);
    case Object(members) =>
      MembersDraw(members, s, st, cfg);
      var (_, st') := PlanMembers(members, s, st, cfg);
      if cfg.addDecoys {
        DecoysDraw(cfg.tape.decoyCount(st'.draws.counts), location, st'.(draws := st'.draws.(counts := st'.draws.counts + 1)), cfg.tape);
      }
    case _ =>
  }

  lemma {:induction false} ItemsDraw(items: seq<Value>, s: Strategy, st: PlanState, cfg: Config)
    requires Drawn(st, cfg.tape)
    ensures Drawn(PlanItems(items, s, st, cfg).1, cfg.tape)
    decreases items, 0
  {
    if items != [] {
      var n := |items| - 1;
      ItemsDraw(items[..n], s, st, cfg);
      EntryDraws(false, IndexKey(n), items[n], s, PlanItems(items[..n], s, st, cfg).1, cfg);
      PlanItemsUnfolds(items, s, st, cfg);
    }
  }

  lemma {:induction false} MembersDraw(members: seq<Member>, s: Strategy, st: PlanState, cfg: Config)
    requires Drawn(st, cfg.tape)
    ensures Drawn(PlanMembers(members, s, st, cfg).1, cfg.tape)
    decreases members, 0
  {
    if members != [] {
      var n := |members| - 1;
      var m := members[n];
      assert m.value < m;
      MembersDraw(members[..n], s, st, cfg);
      EntryDraws(true, m.key, m.value, s, PlanMembers(members[..n], s, st, cfg).1, cfg);
      PlanMembersUnfolds(members, s, st, cfg);
    }
  }

  lemma {:induction false} EntryDraws(inDict: bool, key: string, v: Value, s: Strategy, st: PlanState, cfg: Config)
    requires Drawn(st, cfg.tape)
    ensures Drawn(PlanEntry(inDict, key, v, s, st, cfg).1, cfg.tape)
    decreases v, 3
  {
    var location := st.nextLocation;
    var next := st.(nextLocation := location + 1);
    ValueDraws(v, NextLevel(s, key), location, next, cfg);
    AddDisclosureDraws(PlanValue(v, NextLevel(s, key), location, next, cfg).1, inDict, key, location, cfg.tape);
  }

  /**
   For any claims, strategy and draws: the nodes have the locations 0, 1, 2, ... with a container before its children,
   objects have the decoys drawn for them, and disclosures and decoys the salts in the order in which they were drawn.
   */
  lemma PlanDraws(claims: Value, s: Strategy, cfg: Config)
    ensures var plan := Create(claims, s, cfg);
      var locations, counts := Locations(plan.root), DecoyCounts(plan.root);
      && locations == Range(0, |locations|)
      && CountsDrawn(counts, 0, |counts|, cfg)
      && SaltsDrawn(plan.jobs, plan.disclosureJobIds, |DecoyJobSalts(plan.jobs)|, cfg.tape)
  {
    ValueShape(claims, s, 0, Start, cfg);
    assert DecoyJobSalts(Start.jobs) == [];
    ValueDraws(claims, s, 0, Start, cfg);
    var (root, st) := PlanValue(claims, s, 0, Start, cfg);
    assert Locations(root) == [0] + Locations(root)[1..];
    assert Range(0, st.nextLocation) == [0] + Range(1, st.nextLocation);
  }

  // The credential's disclosures

  /** The text encodes the salt, then a name and a value or a value alone, and is hashed as it is. */
  ghost predicate FromSalt(d: Issued, salt: string, c: Codec) {
    && d.hash == c.hash(d.raw)
    && exists parts: seq<Value> :: 1 <= |parts| <= 2 && d.raw == c.encode(Array([Str(salt)] + parts))
  }

  ghost predicate SaltedWork(work: map<nat, Issued>, jobs: seq<PlannedJob>, c: Codec) {
    forall x :: x in work ==> x < |jobs| && !jobs[x].operation.Decoy? && FromSalt(work[x], jobs[x].operation.salt, c)
  }

  lemma {:induction false} WorkIsSalted(pv: PlannedValue, jobs: seq<PlannedJob>, c: Codec)
    requires WellBound(pv, jobs)
    ensures SaltedWork(Work(pv, jobs, c), jobs, c)
    decreases pv, 1
  {
    match pv.kind
    case Scalar(_) =>
    case PlannedArray(es) => EntriesWorkIsSalted(es, false, jobs, c);
    case PlannedObject(es, _) => EntriesWorkIsSalted(es, true, jobs, c);
  }

  lemma {:induction false} EntriesWorkIsSalted(es: seq<PlannedEntry>, inDict: bool, jobs: seq<PlannedJob>, c: Codec)
    requires EntriesBound(es, inDict, jobs)
    ensures SaltedWork(EntriesWork(es, inDict, jobs, c), jobs, c)
    decreases es, 0
  {
    if es != [] {
      EntriesWorkIsSalted(es[..|es| - 1], inDict, jobs, c);
      EntryWorkIsSalted(es[|es| - 1], inDict, jobs, c);
    }
  }

  lemma {:induction false} EntryWorkIsSalted(e: PlannedEntry, inDict: bool, jobs: seq<PlannedJob>, c: Codec)
    requires EntryBound(e, inDict, jobs)
    ensures SaltedWork(EntryWork(e, inDict, jobs, c), jobs, c)
    decreases e, 2
  {
    WorkIsSalted(e.value, jobs, c);
    if e.Disclosed? {
      var r := ResolveEntry(e, inDict, jobs);
      var parts := if inDict then [Str(r.key), Payload(r.value, c)] else [Payload(r.value, c)];
      assert Disclosure(r, inDict, c) == Array([Str(r.salt.value)] + parts);
      assert FromSalt(IssuedOf(r, inDict, c), jobs[e.jobId].operation.salt, c);
    }
  }

  /** The i-th disclosure of any credential carries the i-th salt that was drawn. */
  lemma DisclosuresAreSalted(claims: Value, strategy: Strategy, holderKey: Option<Value>, cfg: Config, c: Codec)
    requires Issue(claims, strategy, holderKey, cfg, c).Success?
    ensures var disclosures := Issue(claims, strategy, holderKey, cfg, c).value.disclosures;
      forall i :: 0 <= i < |disclosures| ==> FromSalt(Issued(disclosures[i], c.hash(disclosures[i])), cfg.tape.salt(i), c)
  {
    var planned := Object(PlannedClaims(claims.members, holderKey));
    var s := Checked(claims, strategy).value;
    var plan := Create(planned, s, cfg);
    PlanDraws(planned, s, cfg);
    SerialExact(plan, c);
    WorkIsSalted(plan.root, plan.jobs, c);
    var r := ExecuteSerial(plan, c).value;
    forall i | 0 <= i < |r.disclosures| ensures FromSalt(r.disclosures[i], cfg.tape.salt(i), c) {
      var id := plan.disclosureJobIds[i];
      assert Salted(plan.jobs[id].operation, cfg.tape.salt(i));
    }
  }
}
