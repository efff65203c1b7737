/** Issuing through an executor: the same credential, and so the same law for whoever is shown it. */
module ExecutorIssuance {
  import opened ClaimTree
  import opened CredentialLaw
  import opened Issuance
  import opened Json
  import opened ParallelIssuance
  import opened Plan
  import opened Restoration
  import opened SerialIssuance
  import opened Strategy
  import opened Wrappers

  datatype BatchedError = Issuing(i: IssueError) | Executing(x: ExecError)

  /** `prepare_with_random_source_and_plan_executor` with the executor-driven assembler. */
  ghost function IssueWith(ex: Executor, claims: Value, strategy: Strategy, holderKey: Option<Value>, cfg: Config)
    : Result<Credential, BatchedError>
  {
    var s := Checked(claims, strategy);
    if s.Failure? then Failure(Issuing(s.error))
    else
      var r := ExecuteBatched(Create(Object(PlannedClaims(claims.members, holderKey)), s.value, cfg), ex);
      if r.Failure? then Failure(Executing(r.error))
      else
        var credential := Completed(claims.members, holderKey, r.value);
        if credential.Failure? then Failure(Issuing(credential.error)) else Success(credential.value)
  }

  ghost function Batched<T>(r: Result<T, IssueError>): Result<T, BatchedError> {
    match r
    case Success(v) => Success(v)
    case Failure(e) => Failure(Issuing(e))
  }

  /** For all claims, clean or not: an honest executor leads to the serial credential or the serial error. */
  lemma IssuesTheSame(ex: Executor, claims: Value, strategy: Strategy, holderKey: Option<Value>, cfg: Config, c: Codec)
    requires Honest(ex, c)
    ensures IssueWith(ex, claims, strategy, holderKey, cfg) == Batched(Issue(claims, strategy, holderKey, cfg, c))
  {
    var s := Checked(claims, strategy);
    if s.Success? {
      var planned := Object(PlannedClaims(claims.members, holderKey));
      PlannedIssuance(planned, s.value, cfg, c);
      PlannedBatchedIssuance(planned, s.value, cfg, ex, c);
    }
  }

  /** Hide, then reveal, for a credential issued through an honest executor. */
  lemma HideThenRevealWith(
      ex: Executor, claims: seq<Member>, strategy: Strategy, holderKey: Option<Value>, cfg: Config, c: Codec, presented: seq<string>)
    requires Honest(ex, c) && Issuable(claims, strategy, holderKey)
    requires var w := WholeTree(claims, strategy, holderKey, cfg); SoundlyEncoded(w, c) && Selection(presented, Issues(w, c))
    ensures var w, credential := WholeTree(claims, strategy, holderKey, cfg), IssueWith(ex, Object(claims), strategy, holderKey, cfg);
      && credential.Success? && credential.value.disclosures == Raws(Issues(w, c))
      && Lawful(Verify(credential.value.payload, presented, c), w, c, Held(presented, c))
  {
    IssuesTheSame(ex, Object(claims), strategy, holderKey, cfg, c);
    HideThenReveal(claims, strategy, holderKey, cfg, c, presented);
  }
}
