/** Issuing a credential from user claims, and presenting it to the verifier. */
module Issuance {
  import opened Assembly
  import opened ClaimTree
  import opened Json
  import opened Plan
  import Preprocessing
  import opened Strategy
  import Unpacking
  import opened Wrappers

  const CNF_KEY := "cnf"
  const JWK_KEY := "jwk"

  datatype IssueError = ClaimsNotObject | BadPath | ReservedKey | BadPlan(error: PlanError)

  /** What the issuer hands over: the signed payload and the encoded disclosures, in ordinal order. */
  datatype Credential = Credential(payload: seq<Member>, disclosures: seq<string>)

  /** `check_for_sd_claim`: no object in `v` has a reserved member name. */
  predicate FreeOfReserved(v: Value) {
    match v
    case Array(items) => ItemsFreeOfReserved(items)
    case Object(members) => MembersFreeOfReserved(members)
    case _ => true
  }

  predicate ItemsFreeOfReserved(items: seq<Value>) {
    items == [] || (var n := |items| - 1; ItemsFreeOfReserved(items[..n]) && FreeOfReserved(items[n]))
  }

  predicate MembersFreeOfReserved(members: seq<Member>) {
    members == [] ||
    (var n := |members| - 1;
     && MembersFreeOfReserved(members[..n])
     && members[n].key != SD_DIGESTS_KEY && members[n].key != SD_LIST_PREFIX
     && FreeOfReserved(members[n].value))
  }

  /** Members of these names, in the order of the names. */
  function Pick(ms: seq<Member>, keys: seq<string>): seq<Member> {
    if keys == [] then []
    else
      var n := |keys| - 1;
      var r := Pick(ms, keys[..n]);
      var v := Find(ms, keys[n]);
      if v.Some? then r + [Member(keys[n], v.value)] else r
  }

  function RemoveAll(ms: seq<Member>, keys: seq<string>): seq<Member> {
    if keys == [] then ms
    else Remove(RemoveAll(ms, keys[..|keys| - 1]), keys[|keys| - 1])
  }

  function PutAll(ms: seq<Member>, more: seq<Member>): seq<Member> {
    if more == [] then ms
    else
      var n := |more| - 1;
      Put(PutAll(ms, more[..n]), more[n].key, more[n].value)
  }

  const ALWAYS_REVEALED: seq<string> := ["iss", "iat", "exp"]

  /** A holder key replaces any `cnf` claim of the user. */
  function WithoutCnf(claims: seq<Member>, holderKey: Option<Value>): seq<Member> {
    if holderKey.Some? then Remove(claims, CNF_KEY) else claims
  }

  /** The claims that are planned: all but the always revealed ones. */
  function PlannedClaims(claims: seq<Member>, holderKey: Option<Value>): seq<Member> {
    RemoveAll(WithoutCnf(claims, holderKey), ALWAYS_REVEALED)
  }

  /** The members added to the assembled payload, after `_sd_alg`. */
  function AddedMembers(claims: seq<Member>, holderKey: Option<Value>): seq<Member> {
    var revealed := Pick(WithoutCnf(claims, holderKey), ALWAYS_REVEALED);
    if holderKey.Some? then revealed + [Member(CNF_KEY, Object([Member(JWK_KEY, holderKey.value)]))] else revealed
  }

  function Raws(ds: seq<Issued>): (r: seq<string>)
    ensures |r| == |ds|
    ensures forall i :: 0 <= i < |ds| ==> r[i] == ds[i].raw
  {
    seq(|ds|, i requires 0 <= i < |ds| => ds[i].raw)
  }

  /** The checks before planning; they give the strategy to plan with. */
  function Checked(claims: Value, strategy: Strategy): Result<Strategy, IssueError> {
    var s := Finalize(strategy);
    if s.Failure? then Failure(BadPath)
    else if !FreeOfReserved(claims) then Failure(ReservedKey)
    else if !claims.Object? then Failure(ClaimsNotObject)
    else Success(s.value)
  }

  /** What is handed over for an assembled payload: `_sd_alg` and the always revealed claims are added to it. */
  function Completed(claims: seq<Member>, holderKey: Option<Value>, a: Assembled): Result<Credential, IssueError> {
    if !a.claims.Object? then Failure(ClaimsNotObject)
    else
      var payload := Put(a.claims.members, DIGEST_ALG_KEY, Str(Unpacking.DEFAULT_DIGEST_ALG));
      Success(Credential(PutAll(payload, AddedMembers(claims, holderKey)), Raws(a.disclosures)))
  }

  /** `prepare_with_random_source_and_plan_executor`, up to signing. */
  function Issue(claims: Value, strategy: Strategy, holderKey: Option<Value>, cfg: Config, c: Codec): Result<Credential, IssueError> {
    var s := Checked(claims, strategy);
    if s.Failure? then Failure(s.error)
    else
      var r := ExecuteSerial(Create(Object(PlannedClaims(claims.members, holderKey)), s.value, cfg), c);
      if r.Failure? then Failure(BadPlan(r.error)) else Completed(claims.members, holderKey, r.value)
  }

  datatype VerifyError = Preprocess(e: Preprocessing.WorkError) | Unpack(u: Unpacking.Error)

  /** The verifier's claims for a payload and the disclosures presented with it. */
  function Verify(payload: seq<Member>, presented: seq<string>, c: Codec): Result<Value, VerifyError> {
    var m := Preprocessing.PreprocessSerial(presented, Preprocessing.Worker(c));
    if m.Failure? then Failure(Preprocess(m.error))
    else
      var r := Unpacking.ExtractClaims(payload, m.value.decoded, m.value.digests, |presented|);
      if r.Failure? then Failure(Unpack(r.error)) else Success(r.value)
  }

  // The claim tree of a credential

  /** A value without hidden parts. */
  function Plain(v: Value): Tree {
    match v
    case Array(items) => List(PlainItems(items))
    case Object(members) => Dict(PlainEntries(members), [])
    case _ => Leaf(v)
  }

  function PlainItems(items: seq<Value>): seq<Entry> {
    if items == [] then []
    else
      var n := |items| - 1;
      PlainItems(items[..n]) + [Entry("", Plain(items[n]), None)]
  }

  function PlainEntries(members: seq<Member>): seq<Entry> {
    if members == [] then []
    else
      var n := |members| - 1;
      PlainEntries(members[..n]) + [Entry(members[n].key, Plain(members[n].value), None)]
  }
}
