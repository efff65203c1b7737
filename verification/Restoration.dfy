/**
 Bringing executor outcomes back into planned order. `Restore` is a function of the bag of outcomes, so what the
 method computes cannot depend on the order in which workers finish, however malformed their outcomes are.
 */
module Restoration {
  import opened Assembly
  import opened ClaimTree
  import opened Json
  import opened Plan
  import opened Sequences
  import opened Wrappers

  datatype Identity = Identity(jobId: nat, location: nat, kind: Kind, ordinal: Option<nat>)

  datatype JobOperation =
    | ObjectJob(key: string, salt: string, value: Value)
    | ArrayJob(salt: string, value: Value)
    | DecoyJob(salt: string)

  datatype IssuanceJob = IssuanceJob(identity: Identity, operation: JobOperation)

  datatype Product = Disclosure(d: Issued) | DecoyDigest(digest: string)

  datatype ExecError =
    | BadPlan(e: PlanError)
    | IdentitiesNotUnique
    | UnexpectedIdentity
    | DuplicateIdentity
    | MisplacedIdentity
    | MissingOutcome
    | NoOutput
    | WrongResultKind
    | NoOrdinal
    | ExecutorFailed(code: nat)

  datatype Outcome = Outcome(identity: Identity, result: Option<Result<Product, ExecError>>)

  datatype Restored = Restored(identity: Identity, product: Product)

  ghost predicate UniqueIds(expected: seq<Identity>) {
    forall i, j :: 0 <= i < j < |expected| ==> expected[i].jobId != expected[j].jobId
  }

  /** Some job was answered twice. */
  ghost predicate Repeats(bag: multiset<Outcome>) {
    exists a, b :: a in bag && b in bag && a.identity.jobId == b.identity.jobId && (a != b || bag[a] > 1)
  }

  ghost predicate Answers(bag: multiset<Outcome>, jobId: nat) {
    exists o :: o in bag && o.identity.jobId == jobId
  }

  ghost predicate Expects(expected: seq<Identity>, jobId: nat) {
    exists i :: 0 <= i < |expected| && expected[i].jobId == jobId
  }

  /** Some outcome answers no planned job. */
  ghost predicate Foreign(expected: seq<Identity>, bag: multiset<Outcome>) {
    exists o :: o in bag && !Expects(expected, o.identity.jobId)
  }

  /** Some outcome answers a planned job from the wrong place or with the wrong kind. */
  ghost predicate Misbound(expected: seq<Identity>, bag: multiset<Outcome>) {
    exists o :: o in bag && o.identity !in expected
  }

  ghost predicate Complete(expected: seq<Identity>, bag: multiset<Outcome>) {
    forall i :: 0 <= i < |expected| ==> Answers(bag, expected[i].jobId)
  }

  ghost function AnswerTo(bag: multiset<Outcome>, jobId: nat): Outcome
    requires Answers(bag, jobId)
  {
    var o :| o in bag && o.identity.jobId == jobId;
    o
  }

  /** Unwrap one answer and check that it is of the planned kind. */
  function Accept(identity: Identity, o: Outcome): Result<Restored, ExecError> {
    if o.result.None? then Failure(NoOutput)
    else
      var product :- o.result.value;
      if (identity.kind == DecoyKind) == product.DecoyDigest? then Success(Restored(identity, product)) else Failure(WrongResultKind)
  }

  /** The answers in planned order, up to the first failure. */
  ghost function Collect(expected: seq<Identity>, bag: multiset<Outcome>): Result<seq<Restored>, ExecError>
    requires Complete(expected, bag)
  {
    if expected == [] then Success([])
    else
      var n := |expected| - 1;
      var r :- Collect(expected[..n], bag);
      var x :- Accept(expected[n], AnswerTo(bag, expected[n].jobId));
      Success(r + [x])
  }

  /** Contract errors in their order of precedence, then the first failure in planned order. */
  ghost function Restore(expected: seq<Identity>, bag: multiset<Outcome>): Result<seq<Restored>, ExecError> {
    if !UniqueIds(expected) then Failure(IdentitiesNotUnique)
    else if Foreign(expected, bag) then Failure(UnexpectedIdentity)
    else if Repeats(bag) then Failure(DuplicateIdentity)
    else if Misbound(expected, bag) then Failure(MisplacedIdentity)
    else if !Complete(expected, bag) then Failure(MissingOutcome)
    else Collect(expected, bag)
  }

  // The method

  /** Position of the job in the plan. */
  method IndexOf(expected: seq<Identity>, jobId: nat) returns (index: Option<nat>)
    ensures index.Some? ==> index.value < |expected| && expected[index.value].jobId == jobId
    ensures index.None? ==> !Expects(expected, jobId)
  {
    for i := 0 to |expected|
      invariant forall j :: 0 <= j < i ==> expected[j].jobId != jobId
    {
      if expected[i].jobId == jobId {
        return Some(i);
      }
    }
    return None;
  }

  method HasUniqueIds(expected: seq<Identity>) returns (r: bool)
    ensures r <==> UniqueIds(expected)
  {
    var ids := {};
    for i := 0 to |expected|
      invariant forall j, k :: 0 <= j < k < i ==> expected[j].jobId != expected[k].jobId
      invariant forall x :: x in ids <==> exists j :: 0 <= j < i && expected[j].jobId == x
    {
      if expected[i].jobId in ids {
        return false;
      }
      ids := ids + {expected[i].jobId};
    }
    return true;
  }

  /** What the loop over the outcomes knows after `done` of them. */
  ghost predicate Scanned(
      expected: seq<Identity>, done: seq<Outcome>, slots: seq<Option<Outcome>>, unexpected: bool, duplicate: bool, misplaced: bool)
  {
    && |slots| == |expected|
    && (unexpected <==> Foreign(expected, multiset(done)))
    && (forall i :: 0 <= i < |slots| && slots[i].Some? ==>
          slots[i].value in done && slots[i].value.identity.jobId == expected[i].jobId)
    && (forall i :: 0 <= i < |slots| && slots[i].None? ==> forall o :: o in done ==> o.identity.jobId != expected[i].jobId)
    && (!unexpected ==> (duplicate <==> Repeats(multiset(done))))
    && (!unexpected && !duplicate ==> (misplaced <==> Misbound(expected, multiset(done))))
  }

  /** `restore_issuance_outcomes`. */
  method RestoreIssuanceOutcomes(expected: seq<Identity>, outcomes: seq<Outcome>) returns (r: Result<seq<Restored>, ExecError>)
    ensures r == Restore(expected, multiset(outcomes))
  {
    var unique := HasUniqueIds(expected);
    if !unique {
      return Failure(IdentitiesNotUnique);
    }
    var slots, unexpected, duplicate, misplaced := ScanOutcomes(expected, outcomes);
    ScannedComplete(expected, outcomes, slots, unexpected, duplicate, misplaced);
    if unexpected {
      return Failure(UnexpectedIdentity);
    }
    if duplicate {
      return Failure(DuplicateIdentity);
    }
    if misplaced {
      return Failure(MisplacedIdentity);
    }
    if exists i :: 0 <= i < |slots| && slots[i].None? {
      return Failure(MissingOutcome);
    }
    r := TakeSlots(expected, outcomes, slots);
  }

  /** Put each outcome in the slot of its job, and note what is wrong with the others. */
  method ScanOutcomes(expected: seq<Identity>, outcomes: seq<Outcome>)
    returns (slots: seq<Option<Outcome>>, unexpected: bool, duplicate: bool, misplaced: bool)
    requires UniqueIds(expected)
    ensures Scanned(expected, outcomes, slots, unexpected, duplicate, misplaced)
  {
    slots := seq(|expected|, i => None);
    unexpected, duplicate, misplaced := false, false, false;
    for k := 0 to |outcomes|
      invariant Scanned(expected, outcomes[..k], slots, unexpected, duplicate, misplaced)
    {
      var o := outcomes[k];
      ghost var done := outcomes[..k];
      assert outcomes[..k + 1] == done + [o];
      var index := IndexOf(expected, o.identity.jobId);
      if index.None? {
        ScanUnexpected(expected, done, o, slots, unexpected, duplicate, misplaced);
        unexpected := true;
      } else if slots[index.value].Some? {
        ScanDuplicate(expected, done, o, index.value, slots, unexpected, duplicate, misplaced);
        duplicate := true;
      } else {
        ScanFirst(expected, done, o, index.value, slots, unexpected, duplicate, misplaced);
        if o.identity != expected[index.value] {
          misplaced := true;
        }
        slots := slots[index.value := Some(o)];
      }
    }
    assert outcomes[..|outcomes|] == outcomes;
  }

  lemma ScannedComplete(
      expected: seq<Identity>, outcomes: seq<Outcome>, slots: seq<Option<Outcome>>, unexpected: bool, duplicate: bool, misplaced: bool)
    requires Scanned(expected, outcomes, slots, unexpected, duplicate, misplaced)
    ensures (forall i :: 0 <= i < |slots| ==> slots[i].Some?) <==> Complete(expected, multiset(outcomes))
  {
    var bag := multiset(outcomes);
    forall i | 0 <= i < |slots| ensures slots[i].Some? <==> Answers(bag, expected[i].jobId) {
      if slots[i].Some? {
        assert slots[i].value in bag;
      }
    }
  }

  lemma RepeatsGrows(done: seq<Outcome>, o: Outcome)
    ensures Repeats(multiset(done + [o])) <==>
      Repeats(multiset(done)) || exists p :: p in done && p.identity.jobId == o.identity.jobId
  {
    var bag, more := multiset(done), multiset(done + [o]);
    assert more == bag + multiset{o};
    if Repeats(bag) {
      var a, b :| a in bag && b in bag && a.identity.jobId == b.identity.jobId && (a != b || bag[a] > 1);
      assert a in more && b in more && (a != b || more[a] > 1);
    }
    if p :| p in done && p.identity.jobId == o.identity.jobId {
      assert p in bag && p in more && o in more && (p != o || more[p] > 1);
    }
    if Repeats(more) {
      var a, b :| a in more && b in more && a.identity.jobId == b.identity.jobId && (a != b || more[a] > 1);
      if a == o && a !in bag {
        assert b in bag;
      } else if b == o && b !in bag {
        assert a in bag;
      } else if a == b && bag[a] <= 1 {
        assert a == o && o in bag;
      } else {
        assert a in bag && b in bag && (a != b || bag[a] > 1);
      }
    }
  }

  lemma BagGrows(expected: seq<Identity>, done: seq<Outcome>, o: Outcome)
    ensures forall p :: p in done + [o] <==> p in done || p == o
    ensures Foreign(expected, multiset(done + [o])) <==> Foreign(expected, multiset(done)) || !Expects(expected, o.identity.jobId)
    ensures Misbound(expected, multiset(done + [o])) <==> Misbound(expected, multiset(done)) || o.identity !in expected
  {
    var bag, more := multiset(done), multiset(done + [o]);
    assert forall p :: p in more <==> p in bag || p == o;
    if Foreign(expected, bag) {
      var p :| p in bag && !Expects(expected, p.identity.jobId);
      assert p in more;
    }
    if Misbound(expected, bag) {
      var p :| p in bag && p.identity !in expected;
      assert p in more;
    }
    assert o in more;
  }

  lemma ScanUnexpected(
      expected: seq<Identity>, done: seq<Outcome>, o: Outcome, slots: seq<Option<Outcome>>, unexpected: bool, duplicate: bool,
      misplaced: bool)
    requires Scanned(expected, done, slots, unexpected, duplicate, misplaced) && !Expects(expected, o.identity.jobId)
    ensures Scanned(expected, done + [o], slots, true, duplicate, misplaced)
  {
    assert o in multiset(done + [o]);
  }

  lemma ScanDuplicate(
      expected: seq<Identity>, done: seq<Outcome>, o: Outcome, index: nat, slots: seq<Option<Outcome>>, unexpected: bool,
      duplicate: bool, misplaced: bool)
    requires Scanned(expected, done, slots, unexpected, duplicate, misplaced)
    requires UniqueIds(expected) && index < |expected| && expected[index].jobId == o.identity.jobId && slots[index].Some?
    ensures Scanned(expected, done + [o], slots, unexpected, true, misplaced)
  {
    RepeatsGrows(done, o);
    BagGrows(expected, done, o);
    assert slots[index].value in done;
  }

  lemma ScanFirst(
      expected: seq<Identity>, done: seq<Outcome>, o: Outcome, index: nat, slots: seq<Option<Outcome>>, unexpected: bool,
      duplicate: bool, misplaced: bool)
    requires Scanned(expected, done, slots, unexpected, duplicate, misplaced)
    requires UniqueIds(expected) && index < |expected| && expected[index].jobId == o.identity.jobId && slots[index].None?
    ensures Scanned(expected, done + [o], slots[index := Some(o)], unexpected, duplicate, misplaced || o.identity != expected[index])
  {
    RepeatsGrows(done, o);
    BagGrows(expected, done, o);
    assert o.identity in expected <==> o.identity == expected[index];
  }

  /** The answer to a job is the one in its slot. */
  lemma SlotIsAnswer(expected: seq<Identity>, outcomes: seq<Outcome>, slots: seq<Option<Outcome>>, i: nat)
    requires Scanned(expected, outcomes, slots, false, false, false) && i < |expected| && slots[i].Some?
    ensures Answers(multiset(outcomes), expected[i].jobId)
    ensures AnswerTo(multiset(outcomes), expected[i].jobId) == slots[i].value
  {
    var bag, id := multiset(outcomes), expected[i].jobId;
    assert slots[i].value in bag && slots[i].value.identity.jobId == id;
    var a := AnswerTo(bag, id);
    if a != slots[i].value {
      assert Repeats(bag);
    }
  }

  method TakeSlots(expected: seq<Identity>, outcomes: seq<Outcome>, slots: seq<Option<Outcome>>)
    returns (r: Result<seq<Restored>, ExecError>)
    requires Scanned(expected, outcomes, slots, false, false, false)
    requires forall i :: 0 <= i < |slots| ==> slots[i].Some?
    ensures Complete(expected, multiset(outcomes)) && r == Collect(expected, multiset(outcomes))
  {
    ghost var bag := multiset(outcomes);
    forall i | 0 <= i < |expected| ensures Answers(bag, expected[i].jobId) {
      SlotIsAnswer(expected, outcomes, slots, i);
    }
    var restored := [];
    for i := 0 to |expected|
      invariant Collect(expected[..i], bag) == Success(restored)
    {
      CollectPrefix(expected, i + 1, bag);
      assert expected[..i + 1][..i] == expected[..i];
      SlotIsAnswer(expected, outcomes, slots, i);
      var x :- Accept(expected[i], slots[i].value);
      restored := restored + [x];
    }
    assert expected[..|expected|] == expected;
    return Success(restored);
  }

  lemma {:induction false} CollectPrefix(expected: seq<Identity>, i: nat, bag: multiset<Outcome>)
    requires i <= |expected| && Complete(expected, bag)
    ensures Collect(expected[..i], bag).Failure? ==> Collect(expected, bag) == Collect(expected[..i], bag)
  {
    if i == |expected| {
      assert expected[..i] == expected;
    } else {
      var n := |expected| - 1;
      CollectPrefix(expected[..n], i, bag);
      assert expected[..n][..i] == expected[..i];
    }
  }

  // Honest executors

  /** `process_issuance_job`. */
  function Process(job: IssuanceJob, c: Codec): Outcome {
    Outcome(job.identity, Some(Success(ProductOf(job, c))))
  }

  function ProductOf(job: IssuanceJob, c: Codec): Product {
    match job.operation
    case ObjectJob(key, salt, value) =>
      var raw := c.encode(Array([Str(salt), Str(key), value]));
      Disclosure(Issued(raw, c.hash(raw)))
    case ArrayJob(salt, value) =>
      var raw := c.encode(Array([Str(salt), value]));
      Disclosure(Issued(raw, c.hash(raw)))
    case DecoyJob(salt) => DecoyDigest(c.hash(salt))
  }

  function ProcessAll(jobs: seq<IssuanceJob>, c: Codec): (r: seq<Outcome>)
    ensures |r| == |jobs|
    ensures forall i :: 0 <= i < |jobs| ==> r[i] == Process(jobs[i], c)
  {
    seq(|jobs|, i requires 0 <= i < |jobs| => Process(jobs[i], c))
  }

  function Identities(jobs: seq<IssuanceJob>): (r: seq<Identity>)
    ensures |r| == |jobs|
    ensures forall i :: 0 <= i < |jobs| ==> r[i] == jobs[i].identity
  {
    seq(|jobs|, i requires 0 <= i < |jobs| => jobs[i].identity)
  }

  function AllRestored(jobs: seq<IssuanceJob>, c: Codec): (r: seq<Restored>)
    ensures |r| == |jobs|
    ensures forall i :: 0 <= i < |jobs| ==> r[i] == Restored(jobs[i].identity, ProductOf(jobs[i], c))
  {
    seq(|jobs|, i requires 0 <= i < |jobs| => Restored(jobs[i].identity, ProductOf(jobs[i], c)))
  }

  /** The identity of a job names the kind of its operation. */
  predicate WellKinded(job: IssuanceJob) {
    (job.identity.kind == DecoyKind) == job.operation.DecoyJob?
  }

  lemma {:induction false} CollectHonest(jobs: seq<IssuanceJob>, k: nat, bag: multiset<Outcome>, c: Codec)
    requires k <= |jobs| && !Repeats(bag)
    requires forall i :: 0 <= i < |jobs| ==> WellKinded(jobs[i]) && Process(jobs[i], c) in bag
    ensures Complete(Identities(jobs)[..k], bag)
    ensures Collect(Identities(jobs)[..k], bag) == Success(AllRestored(jobs, c)[..k])
  {
    forall i | 0 <= i < k ensures Answers(bag, Identities(jobs)[..k][i].jobId) {
      assert Process(jobs[i], c) in bag;
    }
    if k > 0 {
      CollectHonest(jobs, k - 1, bag, c);
      assert Identities(jobs)[..k][..k - 1] == Identities(jobs)[..k - 1];
      var id := jobs[k - 1].identity.jobId;
      var a := AnswerTo(bag, id);
      assert a in bag && a.identity.jobId == id && Process(jobs[k - 1], c) in bag;
      assert AllRestored(jobs, c)[..k] == AllRestored(jobs, c)[..k - 1] + [AllRestored(jobs, c)[k - 1]];
    }
  }

  /** Whatever the order of completion, honest outcomes restore to the products in planned order. */
  lemma RestoreHonest(jobs: seq<IssuanceJob>, outcomes: seq<Outcome>, c: Codec)
    requires UniqueIds(Identities(jobs)) && forall i :: 0 <= i < |jobs| ==> WellKinded(jobs[i])
    requires multiset(outcomes) == multiset(ProcessAll(jobs, c))
    ensures Restore(Identities(jobs), multiset(outcomes)) == Success(AllRestored(jobs, c))
  {
    var expected, bag := Identities(jobs), multiset(ProcessAll(jobs, c));
    HonestBag(jobs, c);
    NoRepeats(jobs, c);
    CollectHonest(jobs, |jobs|, bag, c);
    assert expected[..|jobs|] == expected && AllRestored(jobs, c)[..|jobs|] == AllRestored(jobs, c);
    assert !Foreign(expected, bag) && !Misbound(expected, bag);
  }

  lemma HonestBag(jobs: seq<IssuanceJob>, c: Codec)
    ensures var expected, bag := Identities(jobs), multiset(ProcessAll(jobs, c));
      && (forall i :: 0 <= i < |jobs| ==> Process(jobs[i], c) in bag)
      && (forall o :: o in bag ==> Expects(expected, o.identity.jobId) && o.identity in expected)
  {
    var all, expected := ProcessAll(jobs, c), Identities(jobs);
    forall i | 0 <= i < |jobs| ensures Process(jobs[i], c) in multiset(all) {
      assert all[i] in all;
    }
    forall o | o in multiset(all) ensures Expects(expected, o.identity.jobId) && o.identity in expected {
      assert o in all;
      var i :| 0 <= i < |all| && all[i] == o;
      assert expected[i] == o.identity;
    }
  }

  lemma NoRepeats(jobs: seq<IssuanceJob>, c: Codec)
    requires UniqueIds(Identities(jobs))
    ensures !Repeats(multiset(ProcessAll(jobs, c)))
  {
    var all := ProcessAll(jobs, c);
    var bag := multiset(all);
    assert NoDup(all) by {
      forall i, j | 0 <= i < j < |all| ensures all[i] != all[j] {
        assert Identities(jobs)[i].jobId != Identities(jobs)[j].jobId;
      }
    }
    NoDupMultiset(all);
    forall a, b | a in bag && b in bag && a.identity.jobId == b.identity.jobId ensures a == b && bag[a] == 1 {
      var i :| 0 <= i < |all| && all[i] == a;
      var j :| 0 <= j < |all| && all[j] == b;
      assert Identities(jobs)[i].jobId == Identities(jobs)[j].jobId;
    }
  }

  // Dishonest executors

  /** The outcomes answer the planned jobs one by one, each with a product of its kind. */
  ghost predicate AnswersInOrder(expected: seq<Identity>, os: seq<Outcome>) {
    && |os| == |expected|
    && forall i :: 0 <= i < |os| ==>
         && os[i].identity == expected[i] && os[i].result.Some? && os[i].result.value.Success?
         && (os[i].result.value.value.DecoyDigest? <==> expected[i].kind == DecoyKind)
  }

  /** One order of the bag answers the planned jobs one by one. */
  ghost predicate Orders(os: seq<Outcome>, expected: seq<Identity>, bag: multiset<Outcome>) {
    multiset(os) == bag && AnswersInOrder(expected, os)
  }

  lemma {:induction false} CollectedExactly(expected: seq<Identity>, k: nat, os: seq<Outcome>, bag: multiset<Outcome>)
    requires k <= |expected| == |os| && Complete(expected, bag)
    requires forall i :: 0 <= i < |os| ==> os[i] == AnswerTo(bag, expected[i].jobId) && os[i].identity == expected[i]
    ensures Collect(expected[..k], bag).Success? <==> AnswersInOrder(expected[..k], os[..k])
    ensures Collect(expected[..k], bag).Success? ==>
      var r := Collect(expected[..k], bag).value;
      |r| == k && forall i :: 0 <= i < k ==> r[i] == Restored(expected[i], os[i].result.value.value)
  {
    if k > 0 {
      CollectedExactly(expected, k - 1, os, bag);
      assert expected[..k][..k - 1] == expected[..k - 1] && os[..k][..k - 1] == os[..k - 1];
      assert AnswersInOrder(expected[..k], os[..k]) ==> AnswersInOrder(expected[..k - 1], os[..k - 1]);
    }
  }

  lemma CollectedWhole(expected: seq<Identity>, os: seq<Outcome>, bag: multiset<Outcome>)
    requires |expected| == |os| && Complete(expected, bag)
    requires forall i :: 0 <= i < |os| ==> os[i] == AnswerTo(bag, expected[i].jobId) && os[i].identity == expected[i]
    ensures Collect(expected, bag).Success? <==> AnswersInOrder(expected, os)
    ensures AnswersInOrder(expected, os) ==> Collect(expected, bag) == Success(Products(expected, os))
  {
    CollectedExactly(expected, |expected|, os, bag);
    assert expected[..|expected|] == expected && os[..|os|] == os;
    if AnswersInOrder(expected, os) {
      assert Collect(expected, bag).value == Products(expected, os);
    }
  }

  /** Without repetitions the answer to a job is the only one. */
  lemma OnlyAnswer(bag: multiset<Outcome>, o: Outcome)
    requires !Repeats(bag) && o in bag
    ensures bag[o] == 1 && Answers(bag, o.identity.jobId) && AnswerTo(bag, o.identity.jobId) == o
  {
  }

  lemma AnswersMakeBag(expected: seq<Identity>, os: seq<Outcome>, bag: multiset<Outcome>)
    requires UniqueIds(expected) && !Repeats(bag) && !Misbound(expected, bag) && Complete(expected, bag) && |os| == |expected|
    requires forall i :: 0 <= i < |os| ==> os[i] == AnswerTo(bag, expected[i].jobId)
    ensures multiset(os) == bag
  {
    forall i, j | 0 <= i < j < |os| ensures os[i] != os[j] {
      assert os[i].identity.jobId == expected[i].jobId && os[j].identity.jobId == expected[j].jobId;
    }
    NoDupMultiset(os);
    forall i | 0 <= i < |os| ensures os[i] in bag {
      assert Answers(bag, expected[i].jobId);
    }
    forall o ensures multiset(os)[o] == bag[o] {
      assert o in multiset(os) ==> o in bag;
      if o in bag {
        OnlyAnswer(bag, o);
        var i :| 0 <= i < |expected| && expected[i] == o.identity;
        assert os[i] == o;
        assert o in multiset(os);
      }
    }
  }

  lemma OrderedIsPlanned(expected: seq<Identity>, os: seq<Outcome>, bag: multiset<Outcome>)
    requires Orders(os, expected, bag)
    ensures !Foreign(expected, bag) && !Misbound(expected, bag) && Complete(expected, bag)
    ensures forall i :: 0 <= i < |os| ==> os[i] in bag
  {
    forall o | o in bag ensures o.identity in expected && Expects(expected, o.identity.jobId) {
      assert o in multiset(os);
      var i :| 0 <= i < |os| && os[i] == o;
    }
    forall i | 0 <= i < |os| ensures os[i] in bag && Answers(bag, expected[i].jobId) {
      assert os[i] in multiset(os);
    }
  }

  lemma OrderedHasNoRepeats(expected: seq<Identity>, os: seq<Outcome>, bag: multiset<Outcome>)
    requires UniqueIds(expected) && Orders(os, expected, bag)
    ensures !Repeats(bag)
  {
    assert NoDup(os);
    NoDupMultiset(os);
    forall a, b | a in bag && b in bag && a.identity.jobId == b.identity.jobId ensures a == b && bag[a] <= 1 {
      assert a in multiset(os) && b in multiset(os);
      var i :| 0 <= i < |os| && os[i] == a;
      var j :| 0 <= j < |os| && os[j] == b;
    }
  }

  lemma OrderedRestores(expected: seq<Identity>, os: seq<Outcome>, bag: multiset<Outcome>)
    requires UniqueIds(expected) && Orders(os, expected, bag)
    ensures Restore(expected, bag) == Success(Products(expected, os))
  {
    OrderedIsPlanned(expected, os, bag);
    OrderedHasNoRepeats(expected, os, bag);
    forall i | 0 <= i < |os| ensures os[i] == AnswerTo(bag, expected[i].jobId) {
      OnlyAnswer(bag, os[i]);
    }
    CollectedWhole(expected, os, bag);
  }

  lemma PlannedIdentity(expected: seq<Identity>, bag: multiset<Outcome>, o: Outcome, i: nat)
    requires UniqueIds(expected) && !Misbound(expected, bag) && o in bag && i < |expected| && o.identity.jobId == expected[i].jobId
    ensures o.identity == expected[i]
  {
    var k :| 0 <= k < |expected| && expected[k] == o.identity;
  }

  lemma RestoredIsOrdered(expected: seq<Identity>, bag: multiset<Outcome>)
    requires Restore(expected, bag).Success?
    ensures exists os :: Orders(os, expected, bag)
  {
    var os := seq(|expected|, i requires 0 <= i < |expected| => AnswerTo(bag, expected[i].jobId));
    AnswersMakeBag(expected, os, bag);
    forall i | 0 <= i < |os| ensures os[i].identity == expected[i] {
      assert os[i] in multiset(os);
      PlannedIdentity(expected, bag, os[i], i);
    }
    CollectedWhole(expected, os, bag);
    assert Orders(os, expected, bag);
  }

  /**
   For arbitrary outcomes: restoring succeeds exactly when the job ids are different and some order of the outcomes
   answers the planned jobs one by one, and it then gives their products under the planned identities.
   */
  lemma RestoredExactly(expected: seq<Identity>, bag: multiset<Outcome>)
    ensures Restore(expected, bag).Success? <==> UniqueIds(expected) && exists os :: Orders(os, expected, bag)
    ensures forall os :: UniqueIds(expected) && Orders(os, expected, bag) ==> Restore(expected, bag) == Success(Products(expected, os))
  {
    if Restore(expected, bag).Success? {
      RestoredIsOrdered(expected, bag);
    }
    forall os | UniqueIds(expected) && Orders(os, expected, bag)
      ensures Restore(expected, bag) == Success(Products(expected, os))
    {
      OrderedRestores(expected, os, bag);
    }
  }

  ghost function Products(expected: seq<Identity>, os: seq<Outcome>): (r: seq<Restored>)
    requires AnswersInOrder(expected, os)
    ensures |r| == |os|
    ensures forall i :: 0 <= i < |r| ==> r[i] == Restored(expected[i], os[i].result.value.value)
  {
    seq(|os|, i requires 0 <= i < |os| => Restored(expected[i], os[i].result.value.value))
  }
}
