/**
 Estimating the work of a batch with machine words. The checked sums give the true cost when it fits a word and give up
 otherwise, so chunks of a batch that was estimated can be estimated too. Texts are one character per byte.
 */
module WorkEstimate {
  import opened Chunks
  import opened Json
  import R = Restoration
  import opened Wrappers

  /** A number, if it fits a machine word. */
  function Fitted(n: nat): Option<nat> {
    if n < USIZE_LIMIT then Some(n) else None
  }

  /** `checked_add`, giving up as soon as either side has. */
  function Plus(a: Option<nat>, b: Option<nat>): Option<nat> {
    if a.None? || b.None? then None else Fitted(a.value + b.value)
  }

  // What the source computes

  function EstimateValue(v: Value): Option<nat> {
    match v
    case Null => Some(4)
    case Bool(b) => Some(if b then 4 else 5)
    case Number(text) => Fitted(|text|)
    case Str(s) => Plus(Fitted(|s|), Some(2))
    case Array(items) => EstimateItems(items)
    case Object(members) => EstimateMembers(members)
  }

  function EstimateItems(items: seq<Value>): Option<nat> {
    if items == [] then Some(2)
    else
      var n := |items| - 1;
      Plus(Plus(EstimateItems(items[..n]), Some(if n != 0 then 1 else 0)), EstimateValue(items[n]))
  }

  function EstimateMembers(members: seq<Member>): Option<nat> {
    if members == [] then Some(2)
    else
      var n := |members| - 1;
      Plus(Plus(Plus(EstimateMembers(members[..n]), Some(if n != 0 then 1 else 0)), Plus(Fitted(|members[n].key|), Some(3))),
           EstimateValue(members[n].value))
  }

  function EstimateJob(job: R.IssuanceJob): Option<nat> {
    match job.operation
    case ObjectJob(key, salt, value) => Plus(Plus(Plus(Fitted(|salt|), Fitted(|key|)), EstimateValue(value)), Some(10))
    case ArrayJob(salt, value) => Plus(Plus(Fitted(|salt|), EstimateValue(value)), Some(6))
    case DecoyJob(salt) => Fitted(|salt|)
  }

  /** `estimate_ready_job_work_bytes`. */
  function Estimate(jobs: seq<R.IssuanceJob>): Option<nat> {
    if jobs == [] then Some(0)
    else
      var n := |jobs| - 1;
      Plus(Estimate(jobs[..n]), EstimateJob(jobs[n]))
  }

  // The cost it stands for

  function CostValue(v: Value): nat {
    match v
    case Null => 4
    case Bool(b) => if b then 4 else 5
    case Number(text) => |text|
    case Str(s) => |s| + 2
    case Array(items) => CostItems(items)
    case Object(members) => CostMembers(members)
  }

  function CostItems(items: seq<Value>): nat {
    if items == [] then 2
    else
      var n := |items| - 1;
      CostItems(items[..n]) + (if n != 0 then 1 else 0) + CostValue(items[n])
  }

  function CostMembers(members: seq<Member>): nat {
    if members == [] then 2
    else
      var n := |members| - 1;
      CostMembers(members[..n]) + (if n != 0 then 1 else 0) + |members[n].key| + 3 + CostValue(members[n].value)
  }

  function CostJob(job: R.IssuanceJob): nat {
    match job.operation
    case ObjectJob(key, salt, value) => |salt| + |key| + CostValue(value) + 10
    case ArrayJob(salt, value) => |salt| + CostValue(value) + 6
    case DecoyJob(salt) => |salt|
  }

  function Cost(jobs: seq<R.IssuanceJob>): nat {
    if jobs == [] then 0 else Cost(jobs[..|jobs| - 1]) + CostJob(jobs[|jobs| - 1])
  }

  lemma {:induction false} ValueExact(v: Value)
    ensures EstimateValue(v) == Fitted(CostValue(v))
    decreases v, 1
  {
    match v
    case Array(items) => ItemsExact(items);
    case Object(members) => MembersExact(members);
    case _ =>
  }

  lemma {:induction false} ItemsExact(items: seq<Value>)
    ensures EstimateItems(items) == Fitted(CostItems(items))
    decreases items, 0
  {
    if items != [] {
      var n := |items| - 1;
      ItemsExact(items[..n]);
      ValueExact(items[n]);
    }
  }

  lemma {:induction false} MembersExact(members: seq<Member>)
    ensures EstimateMembers(members) == Fitted(CostMembers(members))
    decreases members, 0
  {
    if members != [] {
      var n := |members| - 1;
      MembersExact(members[..n]);
      ValueExact(members[n].value);
    }
  }

  lemma JobExact(job: R.IssuanceJob)
    ensures EstimateJob(job) == Fitted(CostJob(job))
  {
    match job.operation
    case ObjectJob(_, _, value) => ValueExact(value);
    case ArrayJob(_, value) => ValueExact(value);
    case DecoyJob(_) =>
  }

  /** The estimate is the true cost, or none when that does not fit a machine word. */
  lemma {:induction false} EstimateExact(jobs: seq<R.IssuanceJob>)
    ensures Estimate(jobs) == Fitted(Cost(jobs))
  {
    if jobs != [] {
      EstimateExact(jobs[..|jobs| - 1]);
      JobExact(jobs[|jobs| - 1]);
    }
  }

  lemma {:induction false} CostConcat(a: seq<R.IssuanceJob>, b: seq<R.IssuanceJob>)
    ensures Cost(a + b) == Cost(a) + Cost(b)
  {
    if b == [] {
      assert a + b == a;
    } else {
      var n := |b| - 1;
      CostConcat(a, b[..n]);
      assert (a + b)[..|a + b| - 1] == a + b[..n];
    }
  }

  function CostChunks(chunks: seq<seq<R.IssuanceJob>>): nat {
    if chunks == [] then 0 else CostChunks(chunks[..|chunks| - 1]) + Cost(chunks[|chunks| - 1])
  }

  lemma {:induction false} ChunksCost(chunks: seq<seq<R.IssuanceJob>>)
    ensures CostChunks(chunks) == Cost(Concat(chunks))
    ensures forall i :: 0 <= i < |chunks| ==> Cost(chunks[i]) <= CostChunks(chunks)
  {
    if chunks != [] {
      var n := |chunks| - 1;
      ChunksCost(chunks[..n]);
      CostConcat(Concat(chunks[..n]), chunks[n]);
      forall i | 0 <= i < n ensures Cost(chunks[i]) <= CostChunks(chunks[..n]) {
        assert chunks[i] == chunks[..n][i];
      }
    }
  }

  /** When a batch can be estimated, so can each of its chunks, and their estimates add up to the batch's. */
  lemma ChunkEstimates(jobs: seq<R.IssuanceJob>, size: nat)
    requires size > 0 && Estimate(jobs).Some?
    ensures var chunks := Chunked(jobs, size);
      && (forall i :: 0 <= i < |chunks| ==> Estimate(chunks[i]) == Some(Cost(chunks[i])))
      && CostChunks(chunks) == Estimate(jobs).value
  {
    var chunks := Chunked(jobs, size);
    EstimateExact(jobs);
    ChunksConcat(jobs, size);
    ChunksCost(chunks);
    forall i | 0 <= i < |chunks| ensures Estimate(chunks[i]) == Some(Cost(chunks[i])) {
      EstimateExact(chunks[i]);
    }
  }

  // What the cost means

  /** A value as compact JSON text, when nothing in it needs an escape. */
  function Printed(v: Value): string {
    match v
    case Null => "null"
    case Bool(b) => if b then "true" else "false"
    case Number(text) => text
    case Str(s) => "\"" + s + "\""
    case Array(items) => "[" + PrintedItems(items) + "]"
    case Object(members) => "{" + PrintedMembers(members) + "}"
  }

  function PrintedItems(items: seq<Value>): string {
    if items == [] then ""
    else
      var n := |items| - 1;
      PrintedItems(items[..n]) + (if n != 0 then "," else "") + Printed(items[n])
  }

  function PrintedMembers(members: seq<Member>): string {
    if members == [] then ""
    else
      var n := |members| - 1;
      PrintedMembers(members[..n]) + (if n != 0 then "," else "") + "\"" + members[n].key + "\":" + Printed(members[n].value)
  }

  /** The text that is hashed for a job: its disclosure, or the salt of a decoy. */
  function HashedText(job: R.IssuanceJob): string {
    match job.operation
    case ObjectJob(key, salt, value) => "[\"" + salt + "\", \"" + key + "\", " + Printed(value) + "]"
    case ArrayJob(salt, value) => "[\"" + salt + "\", " + Printed(value) + "]"
    case DecoyJob(salt) => salt
  }

  lemma {:induction false} CostIsLength(v: Value)
    ensures CostValue(v) == |Printed(v)|
    decreases v, 1
  {
    match v
    case Array(items) => ItemsCost(items);
    case Object(members) => MembersCost(members);
    case _ =>
  }

  lemma {:induction false} ItemsCost(items: seq<Value>)
    ensures CostItems(items) == |PrintedItems(items)| + 2
    decreases items, 0
  {
    if items != [] {
      ItemsCost(items[..|items| - 1]);
      CostIsLength(items[|items| - 1]);
    }
  }

  lemma {:induction false} MembersCost(members: seq<Member>)
    ensures CostMembers(members) == |PrintedMembers(members)| + 2
    decreases members, 0
  {
    if members != [] {
      MembersCost(members[..|members| - 1]);
      CostIsLength(members[|members| - 1].value);
    }
  }

  /** The estimate of a job is the length of the text that is hashed for it, or none when that does not fit a machine word. */
  lemma EstimateIsTextLength(job: R.IssuanceJob)
    ensures EstimateJob(job) == Fitted(|HashedText(job)|)
  {
    JobExact(job);
    match job.operation
    case ObjectJob(_, _, value) => CostIsLength(value);
    case ArrayJob(_, value) => CostIsLength(value);
    case DecoyJob(_) =>
  }
}
