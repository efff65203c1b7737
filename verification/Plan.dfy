/**
 Issuance plans: a tree that refers, by job id, to a registry of disclosure and decoy jobs. The functions below say
 which plan `Planner` makes, depth first, for given claims, strategy and random draws.
 */
module Plan {
  import opened Json
  import opened Strategy
  import opened Wrappers

  datatype PlannedJob = PlannedJob(jobId: nat, location: nat, operation: Operation)

  datatype Operation =
    | ObjectDisclosure(ordinal: nat, key: string, salt: string)
    | ArrayDisclosure(ordinal: nat, salt: string)
    | Decoy(salt: string)

  datatype Kind = ObjectDisclosureKind | ArrayDisclosureKind | DecoyKind

  function KindOf(op: Operation): Kind {
    match op
    case ObjectDisclosure(_, _, _) => ObjectDisclosureKind
    case ArrayDisclosure(_, _) => ArrayDisclosureKind
    case Decoy(_) => DecoyKind
  }

  function DisclosureKind(inDict: bool): Kind {
    if inDict then ObjectDisclosureKind else ArrayDisclosureKind
  }

  function OrdinalOf(op: Operation): Option<nat> {
    if op.Decoy? then None else Some(op.ordinal)
  }

  datatype PlannedValue = PlannedValue(location: nat, kind: PlannedKind)

  datatype PlannedKind =
    | Scalar(v: Value)
    | PlannedArray(entries: seq<PlannedEntry>)
    | PlannedObject(entries: seq<PlannedEntry>, decoyJobIds: seq<nat>)

  /** An array element or an object member; the key of a visible array element is its index text and is not used. */
  datatype PlannedEntry =
    | Visible(key: string, value: PlannedValue)
    | Disclosed(value: PlannedValue, jobId: nat)

  datatype IssuancePlan = IssuancePlan(root: PlannedValue, jobs: seq<PlannedJob>, disclosureJobIds: seq<nat>)

  /** The random source: what the n-th request of each sort is answered. */
  datatype Tape = Tape(salt: nat -> string, decoyCount: nat -> nat, decoySalt: nat -> string)

  datatype Draws = Draws(salts: nat, counts: nat, decoySalts: nat)

  datatype PlanState = PlanState(nextLocation: nat, jobs: seq<PlannedJob>, disclosureJobIds: seq<nat>, draws: Draws)

  datatype Config = Config(tape: Tape, addDecoys: bool)

  function AddDisclosure(st: PlanState, inDict: bool, key: string, location: nat, tape: Tape): PlanState {
    var ordinal, jobId, salt := |st.disclosureJobIds|, |st.jobs|, tape.salt(st.draws.salts);
    var operation := if inDict then ObjectDisclosure(ordinal, key, salt) else ArrayDisclosure(ordinal, salt);
    st.(jobs := st.jobs + [PlannedJob(jobId, location, operation)],
        disclosureJobIds := st.disclosureJobIds + [jobId],
        draws := st.draws.(salts := st.draws.salts + 1))
  }

  function AddDecoy(st: PlanState, location: nat, tape: Tape): PlanState {
    st.(jobs := st.jobs + [PlannedJob(|st.jobs|, location, Decoy(tape.decoySalt(st.draws.decoySalts)))],
        draws := st.draws.(decoySalts := st.draws.decoySalts + 1))
  }

  function PlanValue(v: Value, s: Strategy, location: nat, st: PlanState, cfg: Config): (PlannedValue, PlanState)
    decreases v, 2
  {
    match v
    case Array(items) =>
      var (entries, st') := PlanItems(items, s, st, cfg);
      (PlannedValue(location, PlannedArray(entries)), st')
    case Object(members) =>
      var (entries, st') := PlanMembers(members, s, st, cfg);
      WithDecoys(entries, location, st', cfg)
    case _ => (PlannedValue(location, Scalar(v)), st)
  }

  function WithDecoys(entries: seq<PlannedEntry>, location: nat, st: PlanState, cfg: Config): (PlannedValue, PlanState) {
    if cfg.addDecoys then
      var count := cfg.tape.decoyCount(st.draws.counts);
      var (decoys, st') := PlanDecoys(count, location, st.(draws := st.draws.(counts := st.draws.counts + 1)), cfg.tape);
      (PlannedValue(location, PlannedObject(entries, decoys)), st')
    else (PlannedValue(location, PlannedObject(entries, [])), st)
  }

  function PlanItems(items: seq<Value>, s: Strategy, st: PlanState, cfg: Config): (seq<PlannedEntry>, PlanState)
    decreases items, 0
  {
    if items == [] then ([], st)
    else
      var n := |items| - 1;
      var (entries, st') := PlanItems(items[..n], s, st, cfg);
      var (entry, st'') := PlanEntry(false, IndexKey(n), items[n], s, st', cfg);
      (entries + [entry], st'')
  }

  function PlanMembers(members: seq<Member>, s: Strategy, st: PlanState, cfg: Config): (seq<PlannedEntry>, PlanState)
    decreases members, 0
  {
    if members == [] then ([], st)
    else
      var n := |members| - 1;
      var (entries, st') := PlanMembers(members[..n], s, st, cfg);
      var (entry, st'') := PlanEntry(true, members[n].key, members[n].value, s, st', cfg);
      (entries + [entry], st'')
  }

  /** Plan a child below a fresh location and, if the strategy hides it, its disclosure after it. */
  function PlanEntry(inDict: bool, key: string, v: Value, s: Strategy, st: PlanState, cfg: Config): (PlannedEntry, PlanState)
    decreases v, 3
  {
    var location := st.nextLocation;
    var (value, st') := PlanValue(v, NextLevel(s, key), location, st.(nextLocation := location + 1), cfg);
    if SdForKey(s, key)
    then (Disclosed(value, |st'.jobs|), AddDisclosure(st', inDict, key, location, cfg.tape))
    else (Visible(key, value), st')
  }

  function PlanDecoys(count: nat, location: nat, st: PlanState, tape: Tape): (seq<nat>, PlanState) {
    if count == 0 then ([], st)
    else
      var (ids, st') := PlanDecoys(count - 1, location, st, tape);
      (ids + [|st'.jobs|], AddDecoy(st', location, tape))
  }

  const Start := PlanState(1, [], [], Draws(0, 0, 0))

  /** `IssuancePlan::create`: the root has location 0. */
  function Create(claims: Value, s: Strategy, cfg: Config): IssuancePlan {
    var (root, st) := PlanValue(claims, s, 0, Start, cfg);
    IssuancePlan(root, st.jobs, st.disclosureJobIds)
  }
}
