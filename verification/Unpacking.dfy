/**
 What `SDJWTVerifier` computes when it rebuilds the claims (section 7.1 of RFC 9901), as functions of the
 payload, the digest-to-disclosure map and the digests already seen. Each list is folded from its front, so
 the value of a prefix is the state of the corresponding loop.
 */
module Unpacking {
  import opened Json
  import opened Wrappers

  const MAX_PROCESSED_SD_JWT_DEPTH := 128

  datatype Error =
    | DepthExceeded
    | EmptyArray
    | ExtraPlaceholderKey
    | DigestNotString
    | DuplicateDigest
    | ObjectDisclosureNotArray
    | ObjectDisclosureLength
    | ClaimNameNotString
    | ReservedClaimName
    | DuplicateClaim
    | ArrayDisclosureNotArray
    | ArrayDisclosureLength
    | UnsupportedDigestAlgorithm
    | NestedDigestAlgorithm
    | InconsistentState
    | UnreferencedDisclosure

  type DigestMap = map<string, Value>

  datatype Out<T> = Out(value: T, seen: set<string>)

  function Levels(depth: nat): nat {
    if depth < MAX_PROCESSED_SD_JWT_DEPTH then MAX_PROCESSED_SD_JWT_DEPTH - depth else 0
  }

  function EnterContainer(depth: nat): Result<nat, Error> {
    if depth + 1 > MAX_PROCESSED_SD_JWT_DEPTH then Failure(DepthExceeded) else Success(depth + 1)
  }

  function RecordDigest(digest: string, seen: set<string>): Result<set<string>, Error> {
    if digest in seen then Failure(DuplicateDigest) else Success(seen + {digest})
  }

  function UnpackValue(v: Value, depth: nat, disclosed: DigestMap, seen: set<string>): Result<Out<Value>, Error>
    decreases Levels(depth), 0, 0
  {
    match v
    case Array(items) =>
      var inner :- EnterContainer(depth);
      UnpackArray(items, inner, disclosed, seen)
    case Object(members) =>
      var inner :- EnterContainer(depth);
      UnpackObject(members, inner, disclosed, seen)
    case _ => Success(Out(v, seen))
  }

  function UnpackArray(items: seq<Value>, depth: nat, disclosed: DigestMap, seen: set<string>): Result<Out<Value>, Error>
    decreases Levels(depth), 2, |items|
  {
    if items == [] then Failure(EmptyArray)
    else
      var r :- UnpackItems(items, depth, disclosed, seen);
      Success(Out(Array(r.value), r.seen))
  }

  function UnpackItems(items: seq<Value>, depth: nat, disclosed: DigestMap, seen: set<string>): Result<Out<seq<Value>>, Error>
    decreases Levels(depth), 1, |items|
  {
    if items == [] then Success(Out([], seen))
    else
      var n := |items| - 1;
      var r :- UnpackItems(items[..n], depth, disclosed, seen);
      UnpackItem(r.value, items[n], depth, disclosed, r.seen)
  }

  predicate IsPlaceholder(v: Value) {
    v.Object? && HasKey(v.members, SD_LIST_PREFIX)
  }

  /** One iteration of the array loop: a placeholder adds its disclosed value, if it has one. */
  function UnpackItem(claims: seq<Value>, item: Value, depth: nat, disclosed: DigestMap, seen: set<string>): Result<Out<seq<Value>>, Error>
    decreases Levels(depth), 1, 0
  {
    if IsPlaceholder(item) then
      if |item.members| > 1 then Failure(ExtraPlaceholderKey)
      else
        var r :- UnpackFromDigest(Find(item.members, SD_LIST_PREFIX).value, depth, disclosed, seen);
        Success(Out(if r.value.Some? then claims + [r.value.value] else claims, r.seen))
    else
      var r :- UnpackValue(item, depth, disclosed, seen);
      Success(Out(claims + [r.value], r.seen))
  }

  function UnpackFromDigest(digest: Value, depth: nat, disclosed: DigestMap, seen: set<string>): Result<Out<Option<Value>>, Error>
    decreases Levels(depth), 0, 1
  {
    if !digest.Str? then Failure(DigestNotString)
    else
      var seen' :- RecordDigest(digest.s, seen);
      if digest.s !in disclosed then Success(Out(None, seen'))
      else
        var disclosure := disclosed[digest.s];
        if !disclosure.Array? then Failure(ArrayDisclosureNotArray)
        else if |disclosure.items| != 2 then Failure(ArrayDisclosureLength)
        else
          var r :- UnpackValue(disclosure.items[1], depth, disclosed, seen');
          Success(Out(Some(r.value), r.seen))
  }

  function UnpackObject(members: seq<Member>, depth: nat, disclosed: DigestMap, seen: set<string>): Result<Out<Value>, Error>
    decreases Levels(depth), 2, |members|
  {
    var visible :- UnpackMembers(members, depth, disclosed, seen);
    var digests := Find(members, SD_DIGESTS_KEY);
    if digests.Some? && digests.value.Array? then
      var r :- UnpackFromDigests(visible.value, digests.value.items, depth, disclosed, visible.seen);
      Success(Out(Object(r.value), r.seen))
    else
      Success(Out(Object(visible.value), visible.seen))
  }

  function UnpackMembers(members: seq<Member>, depth: nat, disclosed: DigestMap, seen: set<string>): Result<Out<seq<Member>>, Error>
    decreases Levels(depth), 1, |members|
  {
    if members == [] then Success(Out([], seen))
    else
      var n := |members| - 1;
      var r :- UnpackMembers(members[..n], depth, disclosed, seen);
      UnpackMember(r.value, members[n], depth, disclosed, r.seen)
  }

  predicate IsStructural(key: string) {
    key == SD_DIGESTS_KEY || key == DIGEST_ALG_KEY
  }

  function UnpackMember(claims: seq<Member>, m: Member, depth: nat, disclosed: DigestMap, seen: set<string>): Result<Out<seq<Member>>, Error>
    decreases Levels(depth), 1, 0
  {
    if IsStructural(m.key) then Success(Out(claims, seen))
    else
      var r :- UnpackValue(m.value, depth, disclosed, seen);
      Success(Out(Put(claims, m.key, r.value), r.seen))
  }

  function UnpackFromDigests(claims: seq<Member>, digests: seq<Value>, depth: nat, disclosed: DigestMap, seen: set<string>)
    : Result<Out<seq<Member>>, Error>
    decreases Levels(depth), 1, |digests|
  {
    if digests == [] then Success(Out(claims, seen))
    else
      var n := |digests| - 1;
      var r :- UnpackFromDigests(claims, digests[..n], depth, disclosed, seen);
      UnpackMemberDigest(r.value, digests[n], depth, disclosed, r.seen)
  }

  function UnpackMemberDigest(claims: seq<Member>, digest: Value, depth: nat, disclosed: DigestMap, seen: set<string>)
    : Result<Out<seq<Member>>, Error>
    decreases Levels(depth), 1, 0
  {
    if !digest.Str? then Failure(DigestNotString)
    else
      var seen' :- RecordDigest(digest.s, seen);
      if digest.s !in disclosed then Success(Out(claims, seen'))
      else
        var disclosure := disclosed[digest.s];
        if !disclosure.Array? then Failure(ObjectDisclosureNotArray)
        else if |disclosure.items| != 3 then Failure(ObjectDisclosureLength)
        else if !disclosure.items[1].Str? then Failure(ClaimNameNotString)
        else
          var key := disclosure.items[1].s;
          if key == SD_DIGESTS_KEY || key == SD_LIST_PREFIX then Failure(ReservedClaimName)
          else if HasKey(claims, key) then Failure(DuplicateClaim)
          else
            var r :- UnpackValue(disclosure.items[2], depth, disclosed, seen');
            Success(Out(Put(claims, key, r.value), r.seen))
  }

  /** `reject_nested_sd_alg`: no object anywhere in `v` has the `_sd_alg` member. */
  predicate FreeOfSdAlg(v: Value) {
    match v
    case Object(members) =>
      !HasKey(members, DIGEST_ALG_KEY) && forall i :: 0 <= i < |members| ==> FreeOfSdAlg(members[i].value)
    case Array(items) => forall i :: 0 <= i < |items| ==> FreeOfSdAlg(items[i])
    case _ => true
  }

  const DEFAULT_DIGEST_ALG := "sha-256"

  /** `extract_sd_claims`, with `digests` the digest of each presented disclosure in order. */
  function ExtractClaims(payload: seq<Member>, disclosed: DigestMap, digests: seq<string>, inputCount: nat): Result<Value, Error> {
    var alg := Find(payload, DIGEST_ALG_KEY);
    if alg.Some? && alg.value != Str(DEFAULT_DIGEST_ALG) then Failure(UnsupportedDigestAlgorithm)
    else if exists i :: 0 <= i < |payload| && payload[i].key != DIGEST_ALG_KEY && !FreeOfSdAlg(payload[i].value) then
      Failure(NestedDigestAlgorithm)
    else
      var r :- UnpackValue(Object(payload), 0, disclosed, {});
      if |digests| != inputCount then Failure(InconsistentState)
      else if exists i :: 0 <= i < |digests| && digests[i] !in r.seen then Failure(UnreferencedDisclosure)
      else Success(r.value)
  }
}
