/** `SDJWTVerifier`: the state its unpacking changes, and its methods against the functions of `Unpacking`. */
module Verifier {
  import opened Json
  import opened Unpacking
  import opened Wrappers

  class SDJWTVerifier {
    var payload: seq<Member>
    var disclosed: DigestMap
    var orderedDigests: seq<string>
    var inputDisclosures: seq<string>
    var duplicateHashCheck: set<string>

    constructor (payload: seq<Member>, disclosed: DigestMap, orderedDigests: seq<string>, inputDisclosures: seq<string>)
      ensures this.payload == payload && this.disclosed == disclosed
      ensures this.orderedDigests == orderedDigests && this.inputDisclosures == inputDisclosures
      ensures duplicateHashCheck == {}
    {
      this.payload, this.disclosed := payload, disclosed;
      this.orderedDigests, this.inputDisclosures := orderedDigests, inputDisclosures;
      duplicateHashCheck := {};
    }

    /** The method's result and the digests it leaves seen are those of the specification `spec`. */
    ghost predicate Follows<T>(r: Result<T, Error>, spec: Result<Out<T>, Error>)
      reads this
    {
      match spec
      case Success(out) => r == Success(out.value) && duplicateHashCheck == out.seen
      case Failure(e) => r == Failure(e)
    }

    method ExtractSdClaims() returns (r: Result<Value, Error>)
      modifies `duplicateHashCheck
      ensures r == ExtractClaims(payload, disclosed, orderedDigests, |inputDisclosures|)
    {
      var alg := Find(payload, DIGEST_ALG_KEY);
      if alg.Some? && alg.value != Str(DEFAULT_DIGEST_ALG) {
        return Failure(UnsupportedDigestAlgorithm);
      }
      for i := 0 to |payload|
        invariant forall j :: 0 <= j < i ==> payload[j].key == DIGEST_ALG_KEY || FreeOfSdAlg(payload[j].value)
      {
        if payload[i].key != DIGEST_ALG_KEY && !FreeOfSdAlg(payload[i].value) {
          return Failure(NestedDigestAlgorithm);
        }
      }
      duplicateHashCheck := {};
      var unpacked := UnpackDisclosedClaims(Object(payload), 0);
      if unpacked.Failure? {
        return unpacked;
      }
      if |orderedDigests| != |inputDisclosures| {
        return Failure(InconsistentState);
      }
      for i := 0 to |orderedDigests|
        invariant forall j :: 0 <= j < i ==> orderedDigests[j] in duplicateHashCheck
      {
        if orderedDigests[i] !in duplicateHashCheck {
          return Failure(UnreferencedDisclosure);
        }
      }
      return unpacked;
    }

    method RecordDigest(digest: string) returns (r: Result<(), Error>)
      modifies `duplicateHashCheck
      ensures digest in old(duplicateHashCheck) <==> r == Failure(DuplicateDigest)
      ensures digest !in old(duplicateHashCheck) ==> r == Success(()) && duplicateHashCheck == old(duplicateHashCheck) + {digest}
    {
      if digest in duplicateHashCheck {
        return Failure(DuplicateDigest);
      }
      duplicateHashCheck := duplicateHashCheck + {digest};
      return Success(());
    }

    method UnpackDisclosedClaims(v: Value, depth: nat) returns (r: Result<Value, Error>)
      modifies `duplicateHashCheck
      ensures Follows(r, UnpackValue(v, depth, disclosed, old(duplicateHashCheck)))
      decreases Levels(depth), 0, 0
    {
      match v
      case Array(items) =>
        var inner :- EnterContainer(depth);
        r := UnpackDisclosedClaimsInArray(items, inner);
      case Object(members) =>
        var inner :- EnterContainer(depth);
        r := UnpackDisclosedClaimsInObject(members, inner);
      case _ => return Success(v);
    }

    method UnpackDisclosedClaimsInArray(items: seq<Value>, depth: nat) returns (r: Result<Value, Error>)
      modifies `duplicateHashCheck
      ensures Follows(r, UnpackArray(items, depth, disclosed, old(duplicateHashCheck)))
      decreases Levels(depth), 2, |items|
    {
      if items == [] {
        return Failure(EmptyArray);
      }
      var claims := [];
      for i := 0 to |items|
        invariant UnpackItems(items[..i], depth, disclosed, old(duplicateHashCheck)) == Success(Out(claims, duplicateHashCheck))
      {
        ItemsPrefix(items, i + 1, depth, disclosed, old(duplicateHashCheck));
        assert items[..i + 1][..i] == items[..i];
        if IsPlaceholder(items[i]) {
          if |items[i].members| > 1 {
            return Failure(ExtraPlaceholderKey);
          }
          var claim :- UnpackFromDigestValue(Find(items[i].members, SD_LIST_PREFIX).value, depth);
          if claim.Some? {
            claims := claims + [claim.value];
          }
        } else {
          var claim :- UnpackDisclosedClaims(items[i], depth);
          claims := claims + [claim];
        }
      }
      assert items[..|items|] == items;
      return Success(Array(claims));
    }

    method UnpackFromDigestValue(digest: Value, depth: nat) returns (r: Result<Option<Value>, Error>)
      modifies `duplicateHashCheck
      ensures Follows(r, UnpackFromDigest(digest, depth, disclosed, old(duplicateHashCheck)))
      decreases Levels(depth), 0, 1
    {
      if !digest.Str? {
        return Failure(DigestNotString);
      }
      var _ :- RecordDigest(digest.s);
      if digest.s !in disclosed {
        return Success(None);
      }
      var disclosure := disclosed[digest.s];
      if !disclosure.Array? {
        return Failure(ArrayDisclosureNotArray);
      }
      if |disclosure.items| != 2 {
        return Failure(ArrayDisclosureLength);
      }
      var value :- UnpackDisclosedClaims(disclosure.items[1], depth);
      return Success(Some(value));
    }

    method UnpackDisclosedClaimsInObject(members: seq<Member>, depth: nat) returns (r: Result<Value, Error>)
      modifies `duplicateHashCheck
      ensures Follows(r, UnpackObject(members, depth, disclosed, old(duplicateHashCheck)))
      decreases Levels(depth), 2, |members|
    {
      var claims: seq<Member> := [];
      for i := 0 to |members|
        invariant UnpackMembers(members[..i], depth, disclosed, old(duplicateHashCheck)) == Success(Out(claims, duplicateHashCheck))
      {
        MembersNext(members, i, depth, disclosed, old(duplicateHashCheck));
        if !IsStructural(members[i].key) {
          var v :- UnpackDisclosedClaims(members[i].value, depth);
          claims := Put(claims, members[i].key, v);
        }
      }
      assert members[..|members|] == members;
      var digests := Find(members, SD_DIGESTS_KEY);
      if digests.Some? && digests.value.Array? {
        claims :- UnpackDigests(claims, digests.value.items, depth);
      }
      return Success(Object(claims));
    }

    method UnpackDigests(preOutput: seq<Member>, digests: seq<Value>, depth: nat) returns (r: Result<seq<Member>, Error>)
      modifies `duplicateHashCheck
      ensures Follows(r, UnpackFromDigests(preOutput, digests, depth, disclosed, old(duplicateHashCheck)))
      decreases Levels(depth), 1, |digests|
    {
      var claims := preOutput;
      for i := 0 to |digests|
        invariant UnpackFromDigests(preOutput, digests[..i], depth, disclosed, old(duplicateHashCheck))
          == Success(Out(claims, duplicateHashCheck))
      {
        DigestsPrefix(preOutput, digests, i + 1, depth, disclosed, old(duplicateHashCheck));
        assert digests[..i + 1][..i] == digests[..i];
        if !digests[i].Str? {
          return Failure(DigestNotString);
        }
        var _ :- RecordDigest(digests[i].s);
        if digests[i].s in disclosed {
          var disclosure := disclosed[digests[i].s];
          if !disclosure.Array? {
            return Failure(ObjectDisclosureNotArray);
          }
          if |disclosure.items| != 3 {
            return Failure(ObjectDisclosureLength);
          }
          if !disclosure.items[1].Str? {
            return Failure(ClaimNameNotString);
          }
          var key := disclosure.items[1].s;
          if key == SD_DIGESTS_KEY || key == SD_LIST_PREFIX {
            return Failure(ReservedClaimName);
          }
          if HasKey(claims, key) {
            return Failure(DuplicateClaim);
          }
          var value :- UnpackDisclosedClaims(disclosure.items[2], depth);
          claims := Put(claims, key, value);
        }
      }
      assert digests[..|digests|] == digests;
      return Success(claims);
    }
  }

  // An error in a prefix is the error of the whole list

  lemma {:induction false} ItemsPrefix(items: seq<Value>, i: nat, depth: nat, d: DigestMap, seen: set<string>)
    requires i <= |items|
    ensures UnpackItems(items[..i], depth, d, seen).Failure? ==>
      UnpackItems(items, depth, d, seen) == UnpackItems(items[..i], depth, d, seen)
  {
    if i == |items| {
      assert items[..i] == items;
    } else {
      var n := |items| - 1;
      ItemsPrefix(items[..n], i, depth, d, seen);
      assert items[..n][..i] == items[..i];
    }
  }

  lemma {:induction false} MembersPrefix(members: seq<Member>, i: nat, depth: nat, d: DigestMap, seen: set<string>)
    requires i <= |members|
    ensures UnpackMembers(members[..i], depth, d, seen).Failure? ==>
      UnpackMembers(members, depth, d, seen) == UnpackMembers(members[..i], depth, d, seen)
  {
    if i == |members| {
      assert members[..i] == members;
    } else {
      var n := |members| - 1;
      MembersPrefix(members[..n], i, depth, d, seen);
      assert members[..n][..i] == members[..i];
    }
  }

  /** One more member: its outcome is that of the longer prefix, and its error that of the whole list. */
  lemma MembersNext(members: seq<Member>, i: nat, depth: nat, d: DigestMap, seen: set<string>)
    requires i < |members| && UnpackMembers(members[..i], depth, d, seen).Success?
    ensures var r := UnpackMembers(members[..i], depth, d, seen).value;
      var next := UnpackMember(r.value, members[i], depth, d, r.seen);
      && UnpackMembers(members[..i + 1], depth, d, seen) == next
      && (next.Failure? ==> UnpackMembers(members, depth, d, seen) == next)
  {
    MembersPrefix(members, i + 1, depth, d, seen);
    assert members[..i + 1][..i] == members[..i];
  }

  lemma {:induction false} DigestsPrefix(claims: seq<Member>, digests: seq<Value>, i: nat, depth: nat, d: DigestMap, seen: set<string>)
    requires i <= |digests|
    ensures UnpackFromDigests(claims, digests[..i], depth, d, seen).Failure? ==>
      UnpackFromDigests(claims, digests, depth, d, seen) == UnpackFromDigests(claims, digests[..i], depth, d, seen)
  {
    if i == |digests| {
      assert digests[..i] == digests;
    } else {
      var n := |digests| - 1;
      DigestsPrefix(claims, digests[..n], i, depth, d, seen);
      assert digests[..n][..i] == digests[..i];
    }
  }
}
