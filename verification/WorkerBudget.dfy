/**
 The process-wide worker budget as a protocol: any number of callers load the counter, try a compare-and-swap that may
 fail for no reason, spawn and join workers under their leases, and give the permits back.
 */
module WorkerBudget {
  import opened Chunks

  /** Where a caller is. `jobs` is how many jobs it would run, `observed` what it last read from the counter. */
  datatype Phase =
    | Idle
    | Requesting(workers: nat, jobs: nat)
    | Loaded(workers: nat, jobs: nat, observed: nat)
    | Leased(workers: nat, jobs: nat, spawned: nat, running: nat)

  /** The counter and the callers. */
  datatype State = State(available: nat, callers: seq<Phase>)

  datatype Action =
    | Request(workers: nat, jobs: nat)
    | Load
    | Refuse
    | SwapOk
    | SwapFail
    | Spawn
    | Join
    | Release

  function Init(capacity: nat, callers: nat): State {
    State(capacity, seq(callers, i => Idle))
  }

  function At(s: State, i: nat, available: nat, phase: Phase): State
    requires i < |s.callers|
  {
    State(available, s.callers[i := phase])
  }

  /**
   One step of caller `i`. A request for fewer than two workers, more than the capacity or no jobs is refused at once.
   A swap succeeds only if the counter still has the observed value, but may fail even then. The release adds to the
   counter modulo the machine word.
   */
  ghost predicate Step(s: State, s': State, capacity: nat, i: nat, a: Action) {
    && i < |s.callers|
    && var p := s.callers[i];
       match a
       case Request(workers, jobs) =>
         && p.Idle? && jobs > 0
         && s' == At(s, i, s.available, if workers < 2 || workers > capacity then Idle else Requesting(workers, jobs))
       case Load => p.Requesting? && s' == At(s, i, s.available, Loaded(p.workers, p.jobs, s.available))
       case Refuse => p.Loaded? && p.observed < p.workers && s' == At(s, i, s.available, Idle)
       case SwapOk =>
         && p.Loaded? && p.observed >= p.workers && s.available == p.observed
         && s' == At(s, i, p.observed - p.workers, Leased(p.workers, p.jobs, 0, 0))
       case SwapFail =>
         p.Loaded? && p.observed >= p.workers && s' == At(s, i, s.available, Loaded(p.workers, p.jobs, s.available))
       case Spawn =>
         && p.Leased? && p.jobs > 0 && p.workers > 0 && p.spawned < ChunkCount(p.jobs, Min(p.workers, p.jobs))
         && s' == At(s, i, s.available, Leased(p.workers, p.jobs, p.spawned + 1, p.running + 1))
       case Join => p.Leased? && p.running > 0 && s' == At(s, i, s.available, Leased(p.workers, p.jobs, p.spawned, p.running - 1))
       case Release =>
         p.Leased? && p.running == 0 && s' == At(s, i, (s.available + p.workers) % USIZE_LIMIT, Idle)
  }

  ghost predicate Next(s: State, s': State, capacity: nat) {
    exists i, a :: Step(s, s', capacity, i, a)
  }

  /** A run: any interleaving of the callers' steps. */
  ghost predicate Run(states: seq<State>, capacity: nat, callers: nat) {
    && states != [] && states[0] == Init(capacity, callers)
    && forall k :: 0 <= k < |states| - 1 ==> Next(states[k], states[k + 1], capacity)
  }

  // What every reachable state keeps

  function LeasedTo(p: Phase): nat {
    if p.Leased? then p.workers else 0
  }

  function Running(p: Phase): nat {
    if p.Leased? then p.running else 0
  }

  function Leases(callers: seq<Phase>): nat {
    if callers == [] then 0 else Leases(callers[..|callers| - 1]) + LeasedTo(callers[|callers| - 1])
  }

  function Threads(callers: seq<Phase>): nat {
    if callers == [] then 0 else Threads(callers[..|callers| - 1]) + Running(callers[|callers| - 1])
  }

  ghost predicate PhaseOk(p: Phase, capacity: nat) {
    match p
    case Idle => true
    case Requesting(workers, jobs) => 2 <= workers <= capacity && jobs > 0
    case Loaded(workers, jobs, observed) => 2 <= workers <= capacity && jobs > 0 && observed <= capacity
    case Leased(workers, jobs, spawned, running) => 2 <= workers <= capacity && jobs > 0 && running <= spawned <= workers
  }

  ghost predicate Safe(s: State, capacity: nat) {
    && s.available + Leases(s.callers) == capacity
    && forall i :: 0 <= i < |s.callers| ==> PhaseOk(s.callers[i], capacity)
  }

  lemma {:induction false} LeasesUpdate(callers: seq<Phase>, i: nat, p: Phase)
    requires i < |callers|
    ensures Leases(callers[i := p]) + LeasedTo(callers[i]) == Leases(callers) + LeasedTo(p)
  {
    var n := |callers| - 1;
    if i == n {
      assert callers[i := p][..n] == callers[..n];
    } else {
      LeasesUpdate(callers[..n], i, p);
      assert callers[i := p][..n] == callers[..n][i := p];
    }
  }

  lemma {:induction false} LeaseWithin(callers: seq<Phase>, i: nat)
    requires i < |callers|
    ensures LeasedTo(callers[i]) <= Leases(callers)
  {
    if i < |callers| - 1 {
      LeaseWithin(callers[..|callers| - 1], i);
    }
  }

  lemma {:induction false} NothingLeased(callers: nat)
    ensures Leases(seq(callers, i => Idle)) == 0
  {
    if callers > 0 {
      NothingLeased(callers - 1);
      assert seq(callers, i => Idle)[..callers - 1] == seq(callers - 1, i => Idle);
    }
  }

  lemma InitIsSafe(capacity: nat, callers: nat)
    ensures Safe(Init(capacity, callers), capacity)
  {
    NothingLeased(callers);
  }

  /** Fewer workers are spawned than were leased, as long as a chunk is left. */
  lemma SpawnWithinLease(jobs: nat, workers: nat)
    requires jobs > 0 && workers > 0
    ensures ChunkCount(jobs, Min(workers, jobs)) <= workers
  {
    AtMostWorkers(jobs, Min(workers, jobs));
  }

  lemma StepIsSafe(s: State, s': State, capacity: nat, i: nat, a: Action)
    requires Safe(s, capacity) && Step(s, s', capacity, i, a) && capacity < USIZE_LIMIT
    ensures Safe(s', capacity)
  {
    var p := s.callers[i];
    LeasesUpdate(s.callers, i, s'.callers[i]);
    LeaseWithin(s.callers, i);
    if a.Spawn? {
      SpawnWithinLease(p.jobs, p.workers);
    }
    assert PhaseOk(p, capacity);
    assert PhaseOk(s'.callers[i], capacity);
    assert s'.callers == s.callers[i := s'.callers[i]];
  }

  /** In every state of every run, the counter and the live leases make up the capacity. */
  lemma {:induction false} RunIsSafe(states: seq<State>, capacity: nat, callers: nat, k: nat)
    requires Run(states, capacity, callers) && capacity < USIZE_LIMIT && k < |states|
    ensures Safe(states[k], capacity)
  {
    if k == 0 {
      InitIsSafe(capacity, callers);
    } else {
      RunIsSafe(states, capacity, callers, k - 1);
      assert Next(states[k - 1], states[k - 1 + 1], capacity);
      var i, a :| Step(states[k - 1], states[k], capacity, i, a);
      StepIsSafe(states[k - 1], states[k], capacity, i, a);
    }
  }

  // What follows

  lemma {:induction false} ThreadsWithinLeases(callers: seq<Phase>, capacity: nat)
    requires forall i :: 0 <= i < |callers| ==> PhaseOk(callers[i], capacity)
    ensures Threads(callers) <= Leases(callers)
  {
    if callers != [] {
      ThreadsWithinLeases(callers[..|callers| - 1], capacity);
      assert PhaseOk(callers[|callers| - 1], capacity);
    }
  }

  lemma {:induction false} IdleHasNoLeases(callers: seq<Phase>)
    requires forall i :: 0 <= i < |callers| ==> !callers[i].Leased?
    ensures Leases(callers) == 0
  {
    if callers != [] {
      IdleHasNoLeases(callers[..|callers| - 1]);
    }
  }

  /** The threads running under all leases together never exceed the capacity. */
  lemma ThreadsNeverExceedCapacity(states: seq<State>, capacity: nat, callers: nat, k: nat)
    requires Run(states, capacity, callers) && capacity < USIZE_LIMIT && k < |states|
    ensures Threads(states[k].callers) <= capacity - states[k].available
  {
    RunIsSafe(states, capacity, callers, k);
    ThreadsWithinLeases(states[k].callers, capacity);
  }

  /** A release never takes the counter past the capacity, so it never wraps. */
  lemma ReleaseNeverOverflows(states: seq<State>, capacity: nat, callers: nat, k: nat, i: nat)
    requires Run(states, capacity, callers) && capacity < USIZE_LIMIT && k < |states|
    requires i < |states[k].callers| && states[k].callers[i].Leased?
    ensures states[k].available <= capacity - states[k].callers[i].workers
    ensures (states[k].available + states[k].callers[i].workers) % USIZE_LIMIT == states[k].available + states[k].callers[i].workers
  {
    RunIsSafe(states, capacity, callers, k);
    LeaseWithin(states[k].callers, i);
  }

  /** Whenever no lease is live, the full capacity is available again. */
  lemma QuiescenceRestoresCapacity(states: seq<State>, capacity: nat, callers: nat, k: nat)
    requires Run(states, capacity, callers) && capacity < USIZE_LIMIT && k < |states|
    requires forall i :: 0 <= i < |states[k].callers| ==> !states[k].callers[i].Leased?
    ensures states[k].available == capacity
  {
    RunIsSafe(states, capacity, callers, k);
    IdleHasNoLeases(states[k].callers);
  }

  /** A caller that reads too few permits reads them because others hold leases for the rest. */
  lemma RefusalMeansContention(states: seq<State>, capacity: nat, callers: nat, k: nat, i: nat)
    requires Run(states, capacity, callers) && capacity < USIZE_LIMIT && k < |states|
    requires i < |states[k].callers| && states[k].callers[i].Requesting? && states[k].available < states[k].callers[i].workers
    ensures exists j :: 0 <= j < |states[k].callers| && j != i && states[k].callers[j].Leased?
  {
    RunIsSafe(states, capacity, callers, k);
    assert PhaseOk(states[k].callers[i], capacity);
    if forall j :: 0 <= j < |states[k].callers| ==> !states[k].callers[j].Leased? {
      IdleHasNoLeases(states[k].callers);
    }
  }

  /** A swap that succeeds takes permits that are there, though the counter may have changed and changed back. */
  lemma SwapTakesWhatIsThere(states: seq<State>, capacity: nat, callers: nat, k: nat, i: nat)
    requires Run(states, capacity, callers) && capacity < USIZE_LIMIT && k + 1 < |states|
    requires Step(states[k], states[k + 1], capacity, i, SwapOk)
    ensures states[k + 1].available + states[k].callers[i].workers == states[k].available
    ensures Leases(states[k + 1].callers) == Leases(states[k].callers) + states[k].callers[i].workers
  {
    LeasesUpdate(states[k].callers, i, states[k + 1].callers[i]);
  }
}
