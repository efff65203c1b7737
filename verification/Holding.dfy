/**
 The holder's choice of disclosures: a walk over the request and the signed claims, through the digests of the
 disclosures it holds.
 */
module Holding {
  import opened Json
  import opened Preprocessing
  import opened Wrappers

  /** `AbsentKey` is the panic of indexing a hash map with a key it does not have. */
  datatype SelectError = ClaimDoesNotExist | NotAnObject | NotAnArray | AbsentKey

  /** serde_json's indexing of a value: null beyond the end, or when it is no array. */
  function At(v: Value, i: nat): Value {
    if v.Array? && i < |v.items| then v.items[i] else Null
  }

  predicate Names(digest: Value, key: string, m: Mappings) {
    digest.Str? && digest.s in m.decoded && At(m.decoded[digest.s], 1) == Str(key)
  }

  /** The last of the digests whose disclosure names the claim. */
  function LastNaming(digests: seq<Value>, key: string, m: Mappings): (r: Option<string>)
    ensures r.Some? ==> r.value in m.decoded
  {
    if digests == [] then None
    else
      var n := |digests| - 1;
      if Names(digests[n], key, m) then Some(digests[n].s) else LastNaming(digests[..n], key, m)
  }

  /** Look the claim up in `sd_map`. */
  function HiddenDigest(claims: seq<Member>, key: string, m: Mappings): (r: Option<string>)
    ensures r.Some? ==> r.value in m.decoded
  {
    var digests := Find(claims, SD_DIGESTS_KEY);
    if digests.Some? && digests.value.Array? then LastNaming(digests.value.items, key, m) else None
  }

  predicate Withheld(v: Value) {
    v == Null || v == Bool(false)
  }

  function Encoded(digest: string, m: Mappings): Result<string, SelectError> {
    if digest in m.encoded then Success(m.encoded[digest]) else Failure(AbsentKey)
  }

  /** `select_disclosures`. */
  function Select(claims: seq<Member>, request: seq<Member>, m: Mappings): Result<seq<string>, SelectError>
    decreases request, 0
  {
    if request == [] then Success([])
    else
      var n := |request| - 1;
      var r :- Select(claims, request[..n], m);
      var more :- SelectClaim(claims, request[n].key, request[n].value, m);
      Success(r + more)
  }

  function SelectClaim(claims: seq<Member>, key: string, v: Value, m: Mappings): Result<seq<string>, SelectError>
    decreases v, 2
  {
    if Withheld(v) then Success([])
    else
      var nested :- SelectNested(claims, key, v, m);
      if HasKey(claims, key) then Success(nested)
      else
        var digest := HiddenDigest(claims, key, m);
        if digest.None? then Failure(ClaimDoesNotExist)
        else
          var own :- Encoded(digest.value, m);
          Success(nested + [own])
  }

  function SelectNested(claims: seq<Member>, key: string, v: Value, m: Mappings): Result<seq<string>, SelectError>
    decreases v, 1
  {
    var visible, digest := Find(claims, key), HiddenDigest(claims, key, m);
    match v
    case Array(requests) =>
      if visible.Some? && visible.value.Array? then SelectItems(visible.value.items, requests, m)
      else if digest.Some? && At(m.decoded[digest.value], 2).Array? then SelectItems(At(m.decoded[digest.value], 2).items, requests, m)
      else Success([])
    case Object(request) =>
      if request == [] then Success([])
      else if visible.Some? && visible.value.Object? then Select(visible.value.members, request, m)
      else if digest.None? then Failure(AbsentKey)
      else if !At(m.decoded[digest.value], 2).Object? then Failure(NotAnObject)
      else Select(At(m.decoded[digest.value], 2).members, request, m)
    case _ => Success([])
  }

  /** `select_disclosures_from_disclosed_list`: requests and elements side by side. */
  function SelectItems(items: seq<Value>, requests: seq<Value>, m: Mappings): Result<seq<string>, SelectError>
    decreases requests, 0
  {
    if requests == [] then Success([])
    else
      var n := |requests| - 1;
      var r :- SelectItems(items, requests[..n], m);
      if n >= |items| then Success(r)
      else
        var more :- SelectItem(items[n], requests[n], m);
        Success(r + more)
  }

  function SelectItem(item: Value, v: Value, m: Mappings): Result<seq<string>, SelectError>
    decreases v, 2
  {
    if item.Object? then
      var digest := Find(item.members, SD_LIST_PREFIX);
      if digest.Some? && digest.value.Str? then SelectHidden(digest.value.s, v, m)
      else if v.Object? then Select(item.members, v.members, m)
      else Success([])
    else if item.Array? && v.Array? then SelectItems(item.items, v.items, m)
    else Success([])
  }

  /** A hidden element: its own disclosure, then those nested in it. */
  function SelectHidden(digest: string, v: Value, m: Mappings): Result<seq<string>, SelectError>
    decreases v, 1
  {
    if v == Bool(true) then
      var own :- Encoded(digest, m);
      Success([own])
    else if digest !in m.decoded then Failure(AbsentKey)
    else if !m.decoded[digest].Array? then Failure(NotAnArray)
    else
      var inner := At(m.decoded[digest], 1);
      if v.Array? && inner.Array? then
        var own :- Encoded(digest, m);
        var nested :- SelectItems(inner.items, v.items, m);
        Success([own] + nested)
      else if v.Object? && inner.Object? then
        var own :- Encoded(digest, m);
        var nested :- Select(inner.members, v.members, m);
        Success([own] + nested)
      else Success([])
  }
}
