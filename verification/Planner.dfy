/** `Planner` and its random source as objects, against the functions of `Plan`. */
module Planner {
  import opened Json
  import P = Plan
  import opened Strategy

  class RandomSource {
    const tape: P.Tape
    var salts: nat
    var counts: nat
    var decoySalts: nat

    constructor (tape: P.Tape)
      ensures this.tape == tape && Draws() == P.Draws(0, 0, 0)
    {
      this.tape := tape;
      salts, counts, decoySalts := 0, 0, 0;
    }

    function Draws(): P.Draws
      reads this
    {
      P.Draws(salts, counts, decoySalts)
    }

    method DisclosureSalt() returns (salt: string)
      modifies this
      ensures salt == tape.salt(old(salts))
      ensures Draws() == old(Draws()).(salts := old(salts) + 1)
    {
      salt := tape.salt(salts);
      salts := salts + 1;
    }

    method DecoyCount() returns (count: nat)
      modifies this
      ensures count == tape.decoyCount(old(counts))
      ensures Draws() == old(Draws()).(counts := old(counts) + 1)
    {
      count := tape.decoyCount(counts);
      counts := counts + 1;
    }

    method DecoySalt() returns (salt: string)
      modifies this
      ensures salt == tape.decoySalt(old(decoySalts))
      ensures Draws() == old(Draws()).(decoySalts := old(decoySalts) + 1)
    {
      salt := tape.decoySalt(decoySalts);
      decoySalts := decoySalts + 1;
    }
  }

  /** `IssuancePlan::create`. */
  method Create(claims: Value, s: Strategy, addDecoyClaims: bool, random: RandomSource) returns (plan: P.IssuancePlan)
    requires random.Draws() == P.Draws(0, 0, 0)
    modifies random
    ensures plan == P.Create(claims, s, P.Config(random.tape, addDecoyClaims))
  {
    var planner := new Planner(addDecoyClaims);
    var rootLocation := planner.AllocateLocationId();
    var root := planner.PlanValue(claims, s, rootLocation, random);
    return P.IssuancePlan(root, planner.jobs, planner.disclosureJobIds);
  }

  class Planner {
    const addDecoyClaims: bool
    var nextLocationId: nat
    var jobs: seq<P.PlannedJob>
    var disclosureJobIds: seq<nat>

    constructor (addDecoyClaims: bool)
      ensures this.addDecoyClaims == addDecoyClaims
      ensures nextLocationId == 0 && jobs == [] && disclosureJobIds == []
    {
      this.addDecoyClaims := addDecoyClaims;
      nextLocationId, jobs, disclosureJobIds := 0, [], [];
    }

    function State(random: RandomSource): P.PlanState
      reads this, random
    {
      P.PlanState(nextLocationId, jobs, disclosureJobIds, random.Draws())
    }

    function Cfg(random: RandomSource): P.Config {
      P.Config(random.tape, addDecoyClaims)
    }

    method AllocateLocationId() returns (location: nat)
      modifies this
      ensures location == old(nextLocationId) && nextLocationId == location + 1
      ensures jobs == old(jobs) && disclosureJobIds == old(disclosureJobIds)
    {
      location := nextLocationId;
      nextLocationId := nextLocationId + 1;
    }

    method PlanValue(v: Value, s: Strategy, location: nat, random: RandomSource) returns (pv: P.PlannedValue)
      modifies this, random
      ensures (pv, State(random)) == P.PlanValue(v, s, location, old(State(random)), Cfg(random))
      decreases v, 2
    {
      match v
      case Array(items) =>
        var kind := PlanArray(items, s, random);
        return P.PlannedValue(location, kind);
      case Object(members) =>
        var kind := PlanObject(members, s, location, random);
        return P.PlannedValue(location, kind);
      case _ =>
        return P.PlannedValue(location, P.Scalar(v));
    }

    method PlanArray(items: seq<Value>, s: Strategy, random: RandomSource) returns (kind: P.PlannedKind)
      modifies this, random
      ensures kind.PlannedArray?
      ensures (kind.entries, State(random)) == P.PlanItems(items, s, old(State(random)), Cfg(random))
      decreases items, 0
    {
      var entries := [];
      for index := 0 to |items|
        invariant (entries, State(random)) == P.PlanItems(items[..index], s, old(State(random)), Cfg(random))
      {
        assert items[..index + 1][..index] == items[..index];
        var key := IndexKey(index);
        var location := AllocateLocationId();
        var value := PlanValue(items[index], NextLevel(s, key), location, random);
        if SdForKey(s, key) {
          var jobId := PlanDisclosure(false, key, location, random);
          entries := entries + [P.Disclosed(value, jobId)];
        } else {
          entries := entries + [P.Visible(key, value)];
        }
      }
      assert items[..|items|] == items;
      return P.PlannedArray(entries);
    }

    method PlanObject(members: seq<Member>, s: Strategy, location: nat, random: RandomSource) returns (kind: P.PlannedKind)
      modifies this, random
      ensures (P.PlannedValue(location, kind), State(random)) == P.PlanValue(Object(members), s, location, old(State(random)), Cfg(random))
      decreases members, 0
    {
      var entries := [];
      for i := 0 to |members|
        invariant (entries, State(random)) == P.PlanMembers(members[..i], s, old(State(random)), Cfg(random))
      {
        assert members[..i + 1][..i] == members[..i];
        var key := members[i].key;
        var childLocation := AllocateLocationId();
        var value := PlanValue(members[i].value, NextLevel(s, key), childLocation, random);
        if SdForKey(s, key) {
          var jobId := PlanDisclosure(true, key, childLocation, random);
          entries := entries + [P.Disclosed(value, jobId)];
        } else {
          entries := entries + [P.Visible(key, value)];
        }
      }
      assert members[..|members|] == members;
      if !addDecoyClaims {
        return P.PlannedObject(entries, []);
      }
      var count := random.DecoyCount();
      var decoys := [];
      ghost var counted := State(random);
      for i := 0 to count
        invariant (decoys, State(random)) == P.PlanDecoys(i, location, counted, random.tape)
      {
        var jobId := PlanDecoy(location, random);
        decoys := decoys + [jobId];
      }
      return P.PlannedObject(entries, decoys);
    }

    /** `plan_object_disclosure` and `plan_array_disclosure`. */
    method PlanDisclosure(inDict: bool, key: string, location: nat, random: RandomSource) returns (jobId: nat)
      modifies this, random
      ensures jobId == |old(jobs)|
      ensures State(random) == P.AddDisclosure(old(State(random)), inDict, key, location, random.tape)
    {
      var ordinal := |disclosureJobIds|;
      jobId := |jobs|;
      var salt := random.DisclosureSalt();
      var operation := if inDict then P.ObjectDisclosure(ordinal, key, salt) else P.ArrayDisclosure(ordinal, salt);
      jobs := jobs + [P.PlannedJob(jobId, location, operation)];
      disclosureJobIds := disclosureJobIds + [jobId];
    }

    method PlanDecoy(location: nat, random: RandomSource) returns (jobId: nat)
      modifies this, random
      ensures jobId == |old(jobs)|
      ensures State(random) == P.AddDecoy(old(State(random)), location, random.tape)
    {
      jobId := |jobs|;
      var salt := random.DecoySalt();
      jobs := jobs + [P.PlannedJob(jobId, location, P.Decoy(salt))];
    }
  }
}
