/** `SDJWTHolder`: the state a presentation changes, and its methods against the functions of `Holding` and `Compact`. */
module Holder {
  import opened ClaimTree
  import opened Compact
  import opened Holding
  import opened Json
  import P = Preprocessing
  import opened Wrappers

  datatype HolderError =
    | Parsing(p: ParseError)
    | KeyBindingPresent
    | Mapping(m: P.WorkError)
    | Selecting(s: SelectError)
    | UnknownAlgorithm
    | ConfirmationNotPublic
    | NoConfirmationKey
    | UnusableConfirmationKey

  const KB_DIGEST_KEY := "sd_hash"

  /** What the holder keeps of a credential. */
  datatype Kept = Kept(payload: seq<Member>, sdJwt: string, mappings: P.Mappings)

  /** `SDJWTHolder::build`, without the check of the issuer's signature. */
  function Keep(text: string, j: JwtCodec, c: Codec): Result<Kept, HolderError> {
    var p := Parse(text, j);
    if p.Failure? then Failure(Parsing(p.error))
    else if p.value.keyBindingJwt.Some? then Failure(KeyBindingPresent)
    else
      var m := P.PreprocessSerial(p.value.disclosures, P.Worker(c));
      if m.Failure? then Failure(Mapping(m.error)) else Success(Kept(p.value.payload, p.value.sdJwt, m.value))
  }

  /** The presentation of what is requested, without key binding. */
  function Present(kept: Kept, request: seq<Member>): Result<string, HolderError> {
    var r := Select(kept.payload, request, kept.mappings);
    if r.Failure? then Failure(Selecting(r.error)) else Success(RenderPresentation(kept.sdJwt, r.value, ""))
  }

  const DEFAULT_SIGNING_ALG := "ES256"

  /** `PreparedKeyBindingPresentation`: what awaits the holder's signature. */
  datatype Prepared = Prepared(disclosures: seq<string>, sdJwt: string, signingInput: string)

  /** Its completion with an encoded signature. */
  function Complete(p: Prepared, signature: string): string {
    RenderPresentation(p.sdJwt, p.disclosures, KeyBindingJwt(p, signature))
  }

  function KeyBindingJwt(p: Prepared, signature: string): string {
    p.signingInput + [JWT_SEPARATOR] + signature
  }

  /** What a presentation is bound to, and the algorithm asked for. */
  datatype Binding = Binding(nonce: string, aud: string, iat: string, algorithm: Option<string>)

  /**
   What the key libraries say and do: which algorithms there are, whether a confirmation claim is public, whether its
   key is usable with an algorithm, and how header and claims are printed.
   */
  datatype Signing = Signing(
    knows: string -> bool, public: seq<Member> -> bool, usable: (Value, string) -> bool, render: (string, map<string, Value>) -> string)

  /** The claims of a key-binding JWT for these disclosures. */
  function KeyBindingClaims(sdJwt: string, disclosures: seq<string>, b: Binding, c: Codec): map<string, Value> {
    map["nonce" := Str(b.nonce), "aud" := Str(b.aud), "iat" := Number(b.iat),
        KB_DIGEST_KEY := Str(c.hash(KeyBindingInput(sdJwt, disclosures)))]
  }

  /** The holder's key in the signed payload. */
  function ConfirmationKey(payload: seq<Member>): Option<Value> {
    var confirmation := Find(payload, "cnf");
    if confirmation.Some? && confirmation.value.Object? then Find(confirmation.value.members, "jwk") else None
  }

  function AlgorithmOf(b: Binding): string {
    if b.algorithm.Some? then b.algorithm.value else DEFAULT_SIGNING_ALG
  }

  /** A key-bound presentation of what is requested, up to the signature. */
  function Prepare(kept: Kept, request: seq<Member>, b: Binding, s: Signing, c: Codec): Result<Prepared, HolderError> {
    var r := Select(kept.payload, request, kept.mappings);
    if r.Failure? then Failure(Selecting(r.error))
    else if !s.knows(AlgorithmOf(b)) then Failure(UnknownAlgorithm)
    else if !s.public(kept.payload) then Failure(ConfirmationNotPublic)
    else
      var key := ConfirmationKey(kept.payload);
      if key.None? then Failure(NoConfirmationKey)
      else if !s.usable(key.value, AlgorithmOf(b)) then Failure(UnusableConfirmationKey)
      else Success(Prepared(r.value, kept.sdJwt, s.render(AlgorithmOf(b), KeyBindingClaims(kept.sdJwt, r.value, b, c))))
  }

  // Binding

  datatype KeyBindingError = NoKeyBindingJwt | BadKeyBindingJwt | InvalidDigest

  /** `sd_hash` as the verifier recomputes it. */
  function VerifierHash(p: Parsed, c: Codec): string {
    c.hash(KeyBindingInput(p.sdJwt, p.disclosures))
  }

  /** The verifier's digest check, with `claims` reading the key-binding JWT. */
  function CheckDigest(p: Parsed, claims: string -> Option<map<string, Value>>, c: Codec): Result<(), KeyBindingError> {
    if p.keyBindingJwt.None? then Failure(NoKeyBindingJwt)
    else
      var kb := claims(p.keyBindingJwt.value);
      if kb.None? then Failure(BadKeyBindingJwt)
      else if KB_DIGEST_KEY !in kb.value || kb.value[KB_DIGEST_KEY] != Str(VerifierHash(p, c)) then Failure(InvalidDigest)
      else Success(())
  }

  /** What the prepared presentation is made of, when there is one. */
  lemma PreparedParts(kept: Kept, request: seq<Member>, b: Binding, s: Signing, c: Codec)
    requires Prepare(kept, request, b, s, c).Success?
    ensures var p, r := Prepare(kept, request, b, s, c).value, Select(kept.payload, request, kept.mappings);
      && r.Success? && p.disclosures == r.value && p.sdJwt == kept.sdJwt
      && p.signingInput == s.render(AlgorithmOf(b), KeyBindingClaims(kept.sdJwt, r.value, b, c))
  {
  }

  /** The holder's key as the payload carries it. */
  ghost predicate CarriesKey(payload: seq<Member>, key: Value) {
    exists confirmation :: Find(payload, "cnf") == Some(Object(confirmation)) && Find(confirmation, "jwk") == Some(key)
  }

  /** The algorithm is the one asked for, or `ES256`. */
  predicate PlainAlgorithm(b: Binding, algorithm: string) {
    algorithm == match b.algorithm case Some(asked) => asked case None => "ES256"
  }

  /** The claims are the nonce, the audience, the time and the hash of what is presented, and nothing else. */
  predicate PlainClaims(m: map<string, Value>, b: Binding, presentation: string, c: Codec) {
    && m.Keys == {"nonce", "aud", "iat", "sd_hash"}
    && m["nonce"] == Str(b.nonce) && m["aud"] == Str(b.aud) && m["iat"] == Number(b.iat)
    && m["sd_hash"] == Str(c.hash(presentation))
  }

  /**
   In plain names: a key-bound presentation is prepared exactly when selection succeeds, the algorithm is known, the
   confirmation claim is public and its key is usable; what is to be signed names nonce, audience, time and the hash of
   the presentation without key binding.
   */
  lemma PreparedExactly(kept: Kept, request: seq<Member>, b: Binding, s: Signing, c: Codec, algorithm: string)
    requires PlainAlgorithm(b, algorithm)
    ensures var r, p := Select(kept.payload, request, kept.mappings), Prepare(kept, request, b, s, c);
      && (p.Success? <==>
            && r.Success? && s.knows(algorithm) && s.public(kept.payload)
            && exists key :: CarriesKey(kept.payload, key) && s.usable(key, algorithm))
      && (p.Success? ==>
            && p.value.sdJwt == kept.sdJwt && p.value.disclosures == r.value
            && exists m :: p.value.signingInput == s.render(algorithm, m)
                 && PlainClaims(m, b, RenderPresentation(kept.sdJwt, r.value, ""), c))
  {
    var r, p := Select(kept.payload, request, kept.mappings), Prepare(kept, request, b, s, c);
    var key := ConfirmationKey(kept.payload);
    if key.Some? {
      assert CarriesKey(kept.payload, key.value);
    }
    if p.Success? {
      var m := KeyBindingClaims(kept.sdJwt, r.value, b, c);
      CredentialIsPresentation(kept.sdJwt, r.value);
      assert PlainClaims(m, b, RenderPresentation(kept.sdJwt, r.value, ""), c);
    }
  }

  /** A text is kept exactly when it parses, ends with a tilde, and its disclosures can be mapped. */
  lemma KeptExactly(text: string, j: JwtCodec, c: Codec)
    ensures Keep(text, j, c).Success? <==>
      && Parse(text, j).Success? && text != "" && text[|text| - 1] == '~'
      && P.PreprocessSerial(Parse(text, j).value.disclosures, P.Worker(c)).Success?
  {
    if Parse(text, j).Success? {
      var p := Parse(text, j).value;
      ParsedSerializes(text, j);
      var last := if p.keyBindingJwt.Some? then p.keyBindingJwt.value else "";
      JoinSnoc([p.sdJwt] + p.disclosures, last, SEPARATOR);
      assert text == Join([p.sdJwt] + p.disclosures, SEPARATOR) + ['~'] + last;
    }
  }

  /**
   The verifier accepts the digest of every completed presentation whose key-binding JWT reads as what was printed: it
   recomputes the holder's `sd_hash` from the text alone.
   */
  lemma CompletedIsBound(
      kept: Kept, request: seq<Member>, b: Binding, s: Signing, c: Codec, signature: string, j: JwtCodec,
      claims: string -> Option<map<string, Value>>)
    requires Prepare(kept, request, b, s, c).Success?
    requires var p := Prepare(kept, request, b, s, c).value;
      && AllFree([p.sdJwt] + p.disclosures, SEPARATOR) && Free(KeyBindingJwt(p, signature), SEPARATOR)
      && claims(KeyBindingJwt(p, signature)) == Some(KeyBindingClaims(p.sdJwt, p.disclosures, b, c))
      && Parse(Complete(p, signature), j).Success?
    ensures var p := Prepare(kept, request, b, s, c).value;
      var q := Parse(Complete(p, signature), j).value;
      && q.keyBindingJwt == Some(p.signingInput + "." + signature) && q.sdJwt == p.sdJwt && q.disclosures == p.disclosures
      && CheckDigest(q, claims, c) == Success(())
  {
    var p := Prepare(kept, request, b, s, c).value;
    var kb := KeyBindingJwt(p, signature);
    var parts := [p.sdJwt] + p.disclosures + [kb];
    assert kb != "";
    KeyBindingAgrees(p.sdJwt, p.disclosures, kb, j);
    SplitJoin(parts, SEPARATOR);
    assert parts[|parts| - 1] == kb;
  }

  /** A key-binding JWT made for one list of disclosures is accepted with no other JWT or list, short of a hash collision. */
  lemma BoundToOneList(sdJwt: string, disclosures: seq<string>, b: Binding, c: Codec, q: Parsed, claims: string -> Option<map<string, Value>>)
    requires AllFree([sdJwt] + disclosures, SEPARATOR) && AllFree([q.sdJwt] + q.disclosures, SEPARATOR)
    requires q.keyBindingJwt.Some? && claims(q.keyBindingJwt.value) == Some(KeyBindingClaims(sdJwt, disclosures, b, c))
    requires c.hash(KeyBindingInput(sdJwt, disclosures)) == VerifierHash(q, c) ==>
      KeyBindingInput(sdJwt, disclosures) == KeyBindingInput(q.sdJwt, q.disclosures)
    ensures CheckDigest(q, claims, c).Success? <==> q.sdJwt == sdJwt && q.disclosures == disclosures
  {
    if CheckDigest(q, claims, c).Success? {
      KeyBindingBinds(sdJwt, disclosures, q.sdJwt, q.disclosures);
    }
  }

  class SDJWTHolder {
    const payload: seq<Member>
    const sdJwt: string
    const mappings: P.Mappings
    var hsDisclosures: seq<string>
    var keyBindingPayload: map<string, Value>
    var keyBindingJwt: string

    constructor (kept: Kept)
      ensures State() == kept && hsDisclosures == [] && keyBindingPayload == map[] && keyBindingJwt == ""
    {
      payload, sdJwt, mappings := kept.payload, kept.sdJwt, kept.mappings;
      hsDisclosures, keyBindingPayload, keyBindingJwt := [], map[], "";
    }

    function State(): Kept {
      Kept(payload, sdJwt, mappings)
    }

    method SelectDisclosures(claims: seq<Member>, request: seq<Member>) returns (r: Result<seq<string>, SelectError>)
      ensures r == Select(claims, request, mappings)
      decreases request, 0
    {
      var selected := [];
      for i := 0 to |request|
        invariant Select(claims, request[..i], mappings) == Success(selected)
      {
        SelectNext(claims, request, i, mappings);
        var member := request[i];
        var key, value := member.key, member.value;
        if Withheld(value) {
          assert selected + [] == selected;
          continue;
        }
        ghost var before := selected;
        var nested :- SelectNestedDisclosures(claims, key, value);
        selected := selected + nested;
        if !HasKey(claims, key) {
          var digest := HiddenDigest(claims, key, mappings);
          if digest.None? {
            return Failure(ClaimDoesNotExist);
          }
          var own :- Encoded(digest.value, mappings);
          selected := selected + [own];
          assert selected == before + (nested + [own]);
        }
      }
      assert request[..|request|] == request;
      return Success(selected);
    }

    method SelectNestedDisclosures(claims: seq<Member>, key: string, value: Value) returns (r: Result<seq<string>, SelectError>)
      ensures r == SelectNested(claims, key, value, mappings)
      decreases value, 1
    {
      var visible, digest := Find(claims, key), HiddenDigest(claims, key, mappings);
      match value
      case Array(requests) =>
        if visible.Some? && visible.value.Array? {
          r := SelectDisclosuresFromDisclosedList(visible.value.items, requests);
        } else if digest.Some? && At(mappings.decoded[digest.value], 2).Array? {
          r := SelectDisclosuresFromDisclosedList(At(mappings.decoded[digest.value], 2).items, requests);
        } else {
          return Success([]);
        }
      case Object(request) =>
        if request == [] {
          return Success([]);
        } else if visible.Some? && visible.value.Object? {
          r := SelectDisclosures(visible.value.members, request);
        } else if digest.None? {
          return Failure(AbsentKey);
        } else if !At(mappings.decoded[digest.value], 2).Object? {
          return Failure(NotAnObject);
        } else {
          r := SelectDisclosures(At(mappings.decoded[digest.value], 2).members, request);
        }
      case _ => return Success([]);
    }

    method SelectDisclosuresFromDisclosedList(items: seq<Value>, requests: seq<Value>) returns (r: Result<seq<string>, SelectError>)
      ensures r == SelectItems(items, requests, mappings)
      decreases requests, 0
    {
      var selected := [];
      for i := 0 to |requests|
        invariant SelectItems(items, requests[..i], mappings) == Success(selected)
      {
        SelectItemsNext(items, requests, i, mappings);
        if i < |items| {
          var request := requests[i];
          var more :- SelectElement(items[i], request);
          selected := selected + more;
        }
      }
      assert requests[..|requests|] == requests;
      return Success(selected);
    }

    method SelectElement(item: Value, value: Value) returns (r: Result<seq<string>, SelectError>)
      ensures r == SelectItem(item, value, mappings)
      decreases value, 2
    {
      if item.Object? {
        var digest := Find(item.members, SD_LIST_PREFIX);
        if digest.Some? && digest.value.Str? {
          r := SelectHiddenElement(digest.value.s, value);
        } else if value.Object? {
          r := SelectDisclosures(item.members, value.members);
        } else {
          return Success([]);
        }
      } else if item.Array? && value.Array? {
        r := SelectDisclosuresFromDisclosedList(item.items, value.items);
      } else {
        return Success([]);
      }
    }

    method SelectHiddenElement(digest: string, value: Value) returns (r: Result<seq<string>, SelectError>)
      ensures r == SelectHidden(digest, value, mappings)
      decreases value, 1
    {
      if value == Bool(true) {
        var own :- Encoded(digest, mappings);
        return Success([own]);
      }
      if digest !in mappings.decoded {
        return Failure(AbsentKey);
      }
      if !mappings.decoded[digest].Array? {
        return Failure(NotAnArray);
      }
      var inner := At(mappings.decoded[digest], 1);
      var nested;
      if value.Array? && inner.Array? {
        var own :- Encoded(digest, mappings);
        nested :- SelectDisclosuresFromDisclosedList(inner.items, value.items);
        return Success([own] + nested);
      } else if value.Object? && inner.Object? {
        var own :- Encoded(digest, mappings);
        nested :- SelectDisclosures(inner.members, value.members);
        return Success([own] + nested);
      } else {
        return Success([]);
      }
    }

    /** `create_presentation`. */
    method CreatePresentation(request: seq<Member>) returns (r: Result<string, HolderError>)
      modifies this
      ensures r == Present(State(), request)
      ensures keyBindingPayload == map[] && keyBindingJwt == ""
      ensures hsDisclosures ==
        if r.Success? then Select(payload, request, mappings).value else old(hsDisclosures)
    {
      keyBindingPayload, keyBindingJwt := map[], "";
      var selected := SelectDisclosures(payload, request);
      if selected.Failure? {
        return Failure(Selecting(selected.error));
      }
      hsDisclosures := selected.value;
      return Success(RenderPresentation(sdJwt, hsDisclosures, keyBindingJwt));
    }

    /** `set_key_binding_digest_key`. */
    method SetKeyBindingDigestKey(c: Codec)
      modifies `keyBindingPayload
      ensures keyBindingPayload == old(keyBindingPayload)[KB_DIGEST_KEY := Str(c.hash(KeyBindingInput(sdJwt, hsDisclosures)))]
    {
      keyBindingPayload := keyBindingPayload[KB_DIGEST_KEY := Str(c.hash(KeyBindingInput(sdJwt, hsDisclosures)))];
    }

    /** `prepare_key_binding_presentation`. */
    method PrepareKeyBindingPresentation(request: seq<Member>, b: Binding, s: Signing, c: Codec) returns (r: Result<Prepared, HolderError>)
      modifies this
      ensures r == Prepare(State(), request, b, s, c) && keyBindingJwt == ""
      ensures var selected := Select(payload, request, mappings);
        && hsDisclosures == (if selected.Success? then selected.value else old(hsDisclosures))
        && keyBindingPayload ==
           if selected.Success? && s.knows(AlgorithmOf(b)) then KeyBindingClaims(sdJwt, selected.value, b, c) else map[]
    {
      keyBindingPayload, keyBindingJwt := map[], "";
      var selected := SelectDisclosures(payload, request);
      if selected.Failure? {
        return Failure(Selecting(selected.error));
      }
      hsDisclosures := selected.value;
      var algorithm := AlgorithmOf(b);
      if !s.knows(algorithm) {
        return Failure(UnknownAlgorithm);
      }
      keyBindingPayload := keyBindingPayload["nonce" := Str(b.nonce)]["aud" := Str(b.aud)]["iat" := Number(b.iat)];
      SetKeyBindingDigestKey(c);
      if !s.public(payload) {
        return Failure(ConfirmationNotPublic);
      }
      var key := ConfirmationKey(payload);
      if key.None? {
        return Failure(NoConfirmationKey);
      }
      if !s.usable(key.value, algorithm) {
        return Failure(UnusableConfirmationKey);
      }
      return Success(Prepared(hsDisclosures, sdJwt, s.render(algorithm, keyBindingPayload)));
    }
  }

  /** `SDJWTHolder::build`. */
  method Build(text: string, j: JwtCodec, c: Codec) returns (r: Result<SDJWTHolder, HolderError>)
    ensures match Keep(text, j, c)
      case Success(kept) => r.Success? && fresh(r.value) && r.value.State() == kept
      case Failure(e) => r == Failure(e)
  {
    var p := Parse(text, j);
    if p.Failure? {
      return Failure(Parsing(p.error));
    }
    if p.value.keyBindingJwt.Some? {
      return Failure(KeyBindingPresent);
    }
    var m := P.PreprocessWithWorker(p.value.disclosures, P.Worker(c));
    if m.Failure? {
      return Failure(Mapping(m.error));
    }
    var holder := new SDJWTHolder(Kept(p.value.payload, p.value.sdJwt, m.value));
    return Success(holder);
  }

  // An error in a prefix is the error of the whole request

  lemma {:induction false} SelectPrefix(claims: seq<Member>, request: seq<Member>, i: nat, m: P.Mappings)
    requires i <= |request|
    ensures Select(claims, request[..i], m).Failure? ==> Select(claims, request, m) == Select(claims, request[..i], m)
  {
    if i == |request| {
      assert request[..i] == request;
    } else {
      SelectPrefix(claims, request[..|request| - 1], i, m);
      assert request[..|request| - 1][..i] == request[..i];
    }
  }

  lemma SelectNext(claims: seq<Member>, request: seq<Member>, i: nat, m: P.Mappings)
    requires i < |request| && Select(claims, request[..i], m).Success?
    ensures var more := SelectClaim(claims, request[i].key, request[i].value, m);
      if more.Success? then Select(claims, request[..i + 1], m) == Success(Select(claims, request[..i], m).value + more.value)
      else Select(claims, request, m) == Failure(more.error)
  {
    SelectPrefix(claims, request, i + 1, m);
    assert request[..i + 1][..i] == request[..i];
  }

  lemma {:induction false} SelectItemsPrefix(items: seq<Value>, requests: seq<Value>, i: nat, m: P.Mappings)
    requires i <= |requests|
    ensures SelectItems(items, requests[..i], m).Failure? ==> SelectItems(items, requests, m) == SelectItems(items, requests[..i], m)
  {
    if i == |requests| {
      assert requests[..i] == requests;
    } else {
      SelectItemsPrefix(items, requests[..|requests| - 1], i, m);
      assert requests[..|requests| - 1][..i] == requests[..i];
    }
  }

  lemma SelectItemsNext(items: seq<Value>, requests: seq<Value>, i: nat, m: P.Mappings)
    requires i < |requests| && SelectItems(items, requests[..i], m).Success?
    ensures var r := SelectItems(items, requests[..i], m).value;
      if i >= |items| then SelectItems(items, requests[..i + 1], m) == Success(r)
      else
        var more := SelectItem(items[i], requests[i], m);
        if more.Success? then SelectItems(items, requests[..i + 1], m) == Success(r + more.value)
        else SelectItems(items, requests, m) == Failure(more.error)
  {
    SelectItemsPrefix(items, requests, i + 1, m);
    assert requests[..i + 1][..i] == requests[..i];
  }
}
