/**
 When the outcomes for one credential are accepted, for arbitrary jobs and outcomes: exactly when they answer every job
 once, each with its own text, and each with a digest of its own. Nothing is lost and nothing is added.
 */
module OutcomeContract {
  import opened ClaimTree
  import opened Preprocessing
  import opened Sequences
  import opened Wrappers

  /** The jobs that the outcomes say they answer. */
  function Answered(os: seq<Outcome>): (r: seq<Job>)
    ensures |r| == |os|
    ensures forall i :: 0 <= i < |r| ==> r[i] == Job(os[i].ordinal, os[i].encoded)
  {
    seq(|os|, i requires 0 <= i < |os| => Job(os[i].ordinal, os[i].encoded))
  }

  ghost predicate Numbered(jobs: seq<Job>) {
    forall i :: 0 <= i < |jobs| ==> jobs[i].ordinal == i
  }

  // One by one

  lemma {:induction false} JobsErrorIff(jobs: seq<Job>)
    ensures JobsError(jobs).None? <==> Numbered(jobs)
  {
    if jobs != [] {
      var n := |jobs| - 1;
      JobsErrorIff(jobs[..n]);
      assert forall i :: 0 <= i < n ==> jobs[..n][i] == jobs[i];
    }
  }

  lemma {:induction false} RangeErrorIff(os: seq<Outcome>, count: nat)
    ensures RangeError(os, count).None? <==> forall i :: 0 <= i < |os| ==> os[i].ordinal < count
  {
    if os != [] {
      var n := |os| - 1;
      RangeErrorIff(os[..n], count);
      assert forall i :: 0 <= i < n ==> os[..n][i] == os[i];
    }
  }

  lemma {:induction false} MatchErrorIff(os: seq<Outcome>, jobs: seq<Job>)
    ensures MatchError(os, jobs).None? <==>
      forall i :: 0 <= i < |os| ==> os[i].ordinal == i && (i < |jobs| ==> os[i].encoded == jobs[i].encoded)
  {
    if os != [] {
      var n := |os| - 1;
      MatchErrorIff(os[..n], jobs);
      assert forall i :: 0 <= i < n ==> os[..n][i] == os[i];
    }
  }

  lemma {:induction false} NoRepeatWhenNumbered(os: seq<Outcome>)
    requires forall i :: 0 <= i < |os| ==> os[i].ordinal == i
    ensures RepeatError(os).None?
  {
    if |os| >= 2 {
      NoRepeatWhenNumbered(os[..|os| - 1]);
    }
  }

  lemma NoLonger(os: seq<Outcome>, count: nat)
    requires forall i :: 0 <= i < |os| ==> os[i].ordinal == i && os[i].ordinal < count
    ensures |os| <= count
  {
    assert os != [] ==> os[|os| - 1].ordinal == |os| - 1;
  }

  /** On any list: no error exactly when it answers the jobs in their order. */
  lemma NoErrorIff(jobs: seq<Job>, os: seq<Outcome>)
    ensures ContractError(jobs, os).None? <==> Numbered(jobs) && Answered(os) == jobs
  {
    JobsErrorIff(jobs);
    RangeErrorIff(os, |jobs|);
    MatchErrorIff(os, jobs);
    if ContractError(jobs, os).None? {
      NoLonger(os, |jobs|);
    }
    if Numbered(jobs) && Answered(os) == jobs {
      forall i | 0 <= i < |os| ensures os[i].ordinal == i && os[i].encoded == jobs[i].encoded {
        assert Answered(os)[i] == jobs[i];
      }
      NoRepeatWhenNumbered(os);
    }
  }

  // In any order

  lemma AnsweredPermutes(a: seq<Outcome>, b: seq<Outcome>)
    requires multiset(a) == multiset(b)
    ensures multiset(Answered(a)) == multiset(Answered(b))
  {
    var answer := (o: Outcome) => Job(o.ordinal, o.encoded);
    MapPermutes(a, b, answer);
    assert Answered(a) == Mapped(a, answer) && Answered(b) == Mapped(b, answer);
  }

  /** Numbered jobs have only one order in which their ordinals ascend. */
  lemma NumberedIsUnique(a: seq<Job>, jobs: seq<Job>)
    requires Numbered(jobs) && multiset(a) == multiset(jobs) && forall i, j :: 0 <= i <= j < |a| ==> a[i].ordinal <= a[j].ordinal
    ensures a == jobs
  {
    SameLength(a, jobs);
    var ordinal := (job: Job) => job.ordinal;
    MapPermutes(a, jobs, ordinal);
    AscendingUnique(Mapped(a, ordinal), Mapped(jobs, ordinal));
    forall i | 0 <= i < |a| ensures a[i] == jobs[i] {
      assert Mapped(a, ordinal)[i] == Mapped(jobs, ordinal)[i];
      assert a[i] in multiset(jobs);
      var k :| 0 <= k < |jobs| && jobs[k] == a[i];
    }
  }

  /** For arbitrary jobs and outcomes: validation passes exactly when the jobs are numbered and each is answered once. */
  lemma ContractExactly(jobs: seq<Job>, outcomes: seq<Outcome>)
    ensures ContractError(jobs, SortOutcomes(outcomes)).None? <==>
      Numbered(jobs) && multiset(Answered(outcomes)) == multiset(jobs)
    ensures ContractError(jobs, SortOutcomes(outcomes)).None? ==> Answered(SortOutcomes(outcomes)) == jobs
  {
    var os := SortOutcomes(outcomes);
    SortSorts(outcomes);
    SortKeeps(outcomes);
    AnsweredPermutes(outcomes, os);
    NoErrorIff(jobs, os);
    if Numbered(jobs) && multiset(Answered(outcomes)) == multiset(jobs) {
      NumberedIsUnique(Answered(os), jobs);
    }
  }

  /** Outcomes processed from jobs of any kind pass validation exactly as a permutation of the plan's own. */
  lemma ValidationExact(encoded: seq<string>, outcomes: seq<Outcome>, c: Codec)
    requires forall o :: o in outcomes ==> o == Process(Job(o.ordinal, o.encoded), c)
    ensures ContractError(PlanJobs(encoded), SortOutcomes(outcomes)).None? <==>
      multiset(outcomes) == multiset(ProcessAll(encoded, c))
  {
    var jobs, all, os := PlanJobs(encoded), ProcessAll(encoded, c), SortOutcomes(outcomes);
    ContractExactly(jobs, outcomes);
    SortKeeps(outcomes);
    assert Answered(all) == jobs;
    if multiset(outcomes) == multiset(all) {
      AnsweredPermutes(outcomes, all);
    }
    if ContractError(jobs, os).None? {
      forall i | 0 <= i < |os| ensures os[i] == all[i] {
        assert os[i] in multiset(outcomes);
        assert Answered(os)[i] == jobs[i];
      }
      assert os == all;
    }
  }

  // What is published

  ghost predicate Done(o: Outcome) {
    o.result.Some? && o.result.value.Success?
  }

  /** Every outcome has a result, and no two the same digest. */
  ghost predicate AllDone(os: seq<Outcome>) {
    && (forall i :: 0 <= i < |os| ==> Done(os[i]))
    && forall i, k :: 0 <= i < k < |os| ==> os[i].result.value.value.digest != os[k].result.value.value.digest
  }

  /** The digests in order, each leading to its own text and value, and nothing else. */
  ghost predicate Publishes(m: Mappings, os: seq<Outcome>)
    requires AllDone(os)
  {
    && |m.digests| == |os|
    && (forall i :: 0 <= i < |os| ==>
          var p := os[i].result.value.value;
          && m.digests[i] == p.digest
          && p.digest in m.decoded && m.decoded[p.digest] == p.decoded
          && p.digest in m.encoded && m.encoded[p.digest] == os[i].encoded)
    && (forall x :: x in m.decoded <==> x in m.digests) && (forall x :: x in m.encoded <==> x in m.digests)
  }

  lemma AbsorbOne(m: Mappings, os: seq<Outcome>)
    requires os != [] && AllDone(os[..|os| - 1]) && Publishes(m, os[..|os| - 1])
    ensures Absorb(m, os[|os| - 1]).Success? <==> AllDone(os)
    ensures AllDone(os) ==> Publishes(Absorb(m, os[|os| - 1]).value, os)
  {
    var n := |os| - 1;
    var front := os[..n];
    assert forall i :: 0 <= i < n ==> front[i] == os[i];
    if Done(os[n]) {
      var x := os[n].result.value.value.digest;
      if x in m.decoded {
        var k :| 0 <= k < |m.digests| && m.digests[k] == x;
        assert os[k].result.value.value.digest == x;
      } else {
        forall k | 0 <= k < n ensures os[k].result.value.value.digest != x {
          assert m.digests[k] in m.digests;
        }
      }
    }
  }

  lemma {:induction false} AbsorbedExactly(os: seq<Outcome>)
    ensures AbsorbAll(os).Success? <==> AllDone(os)
    ensures AllDone(os) ==> Publishes(AbsorbAll(os).value, os)
  {
    if os != [] {
      var n := |os| - 1;
      AbsorbedExactly(os[..n]);
      if AllDone(os[..n]) {
        AbsorbOne(AbsorbAll(os[..n]).value, os);
      } else {
        assert forall i :: 0 <= i < n ==> os[..n][i] == os[i];
      }
    }
  }

  /**
   For arbitrary jobs and outcomes: assembly succeeds exactly when some order of the outcomes answers the numbered jobs
   one by one, with results whose digests differ; those are then published in that order.
   */
  lemma AssembledExactly(jobs: seq<Job>, outcomes: seq<Outcome>)
    ensures Assemble(jobs, outcomes).Success? <==>
      Numbered(jobs) && multiset(Answered(outcomes)) == multiset(jobs) && AllDone(SortOutcomes(outcomes))
    ensures Assemble(jobs, outcomes).Success? ==>
      && Answered(SortOutcomes(outcomes)) == jobs
      && Publishes(Assemble(jobs, outcomes).value, SortOutcomes(outcomes))
  {
    ContractExactly(jobs, outcomes);
    AbsorbedExactly(SortOutcomes(outcomes));
  }

  ghost function WorkedAll(encoded: seq<string>, worker: Job -> Outcome): (r: seq<Outcome>)
    ensures |r| == |encoded|
    ensures forall i :: 0 <= i < |r| ==> r[i] == worker(Job(i, encoded[i]))
  {
    seq(|encoded|, i requires 0 <= i < |encoded| => worker(Job(i, encoded[i])))
  }

  /** The last job is answered as its own. */
  lemma AnsweredSnoc(os: seq<Outcome>, encoded: seq<string>)
    requires encoded != [] && |os| == |encoded|
    ensures var n := |encoded| - 1;
      Answered(os) == PlanJobs(encoded) <==>
        Answered(os[..n]) == PlanJobs(encoded[..n]) && os[n].ordinal == n && os[n].encoded == encoded[n]
  {
    var n := |encoded| - 1;
    assert Answered(os) == Answered(os[..n]) + [Job(os[n].ordinal, os[n].encoded)];
    assert PlanJobs(encoded) == PlanJobs(encoded[..n]) + [Job(n, encoded[n])];
    if Answered(os) == PlanJobs(encoded) {
      assert Answered(os)[n] == PlanJobs(encoded)[n];
      assert Answered(os[..n]) == Answered(os)[..n] && PlanJobs(encoded[..n]) == PlanJobs(encoded)[..n];
    }
  }

  lemma DoneInFront(os: seq<Outcome>, n: nat)
    requires n <= |os| && AllDone(os)
    ensures AllDone(os[..n])
  {
  }

  /** The serial form with any worker: it succeeds exactly when every job is answered as its own, with digests that differ. */
  lemma {:induction false} SerialExactly(encoded: seq<string>, worker: Job -> Outcome)
    ensures var r, os := PreprocessSerial(encoded, worker), WorkedAll(encoded, worker);
      && (r.Success? <==> Answered(os) == PlanJobs(encoded) && AllDone(os))
      && (r.Success? ==> Publishes(r.value, os))
  {
    var os := WorkedAll(encoded, worker);
    if encoded == [] {
      assert Answered(os) == PlanJobs(encoded);
    } else {
      var n := |encoded| - 1;
      SerialExactly(encoded[..n], worker);
      assert os[..n] == WorkedAll(encoded[..n], worker);
      AnsweredSnoc(os, encoded);
      var r := PreprocessSerial(encoded[..n], worker);
      if r.Success? {
        AbsorbOne(r.value, os);
        StepExactly(r.value, n, encoded[n], worker);
      } else if AllDone(os) {
        DoneInFront(os, n);
      }
    }
  }

  lemma StepExactly(m: Mappings, ordinal: nat, encoded: string, worker: Job -> Outcome)
    ensures var o := worker(Job(ordinal, encoded));
      var r := SerialStep(m, ordinal, encoded, worker);
      && (r.Success? <==> o.ordinal == ordinal && o.encoded == encoded && Absorb(m, o).Success?)
      && (r.Success? ==> r == Absorb(m, o))
  {
  }
}
