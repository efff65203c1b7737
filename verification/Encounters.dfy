/**
 Every digest the verifier comes across, in the order of its walk through payload and disclosures. Unpacking succeeds
 only if no digest is met twice, has then recorded each of them exactly once, and speaks of a duplicate only if there
 is one, for any digest map whatsoever.
 */
module Encounters {
  import opened Json
  import opened Sequences
  import opened Unpacking
  import opened Wrappers

  // The walk

  function Met(v: Value, depth: nat, d: DigestMap): seq<string>
    decreases Levels(depth), 0, 0
  {
    if depth >= MAX_PROCESSED_SD_JWT_DEPTH then []
    else
      match v
      case Array(items) => MetInItems(items, depth + 1, d)
      case Object(members) => MetInObject(members, depth + 1, d)
      case _ => []
  }

  function MetInItems(items: seq<Value>, depth: nat, d: DigestMap): seq<string>
    decreases Levels(depth), 1, |items|
  {
    if items == [] then []
    else
      var n := |items| - 1;
      MetInItems(items[..n], depth, d) + MetInItem(items[n], depth, d)
  }

  function MetInItem(item: Value, depth: nat, d: DigestMap): seq<string>
    decreases Levels(depth), 1, 0
  {
    if IsPlaceholder(item) then MetThrough(Find(item.members, SD_LIST_PREFIX).value, 2, depth, d) else Met(item, depth, d)
  }

  /** A digest, and what is met below its disclosure, whose value is the last of `length` parts. */
  function MetThrough(digest: Value, length: nat, depth: nat, d: DigestMap): seq<string>
    requires length > 0
    decreases Levels(depth), 0, 1
  {
    if !digest.Str? then []
    else if digest.s in d && d[digest.s].Array? && |d[digest.s].items| == length then
      [digest.s] + Met(d[digest.s].items[length - 1], depth, d)
    else [digest.s]
  }

  function MetInObject(members: seq<Member>, depth: nat, d: DigestMap): seq<string>
    decreases Levels(depth), 2, |members|
  {
    var visible, digests := MetInMembers(members, depth, d), Find(members, SD_DIGESTS_KEY);
    if digests.Some? && digests.value.Array? then visible + MetInDigests(digests.value.items, depth, d) else visible
  }

  function MetInMembers(members: seq<Member>, depth: nat, d: DigestMap): seq<string>
    decreases Levels(depth), 1, |members|
  {
    if members == [] then []
    else
      var n := |members| - 1;
      var r := MetInMembers(members[..n], depth, d);
      if IsStructural(members[n].key) then r else r + Met(members[n].value, depth, d)
  }

  function MetInDigests(digests: seq<Value>, depth: nat, d: DigestMap): seq<string>
    decreases Levels(depth), 1, |digests|
  {
    if digests == [] then []
    else
      var n := |digests| - 1;
      MetInDigests(digests[..n], depth, d) + MetThrough(digests[n], 3, depth, d)
  }

  // What unpacking tells of it

  ghost predicate Fresh(log: seq<string>, seen: set<string>) {
    NoDup(log) && forall x :: x in log ==> x !in seen
  }

  /** On success the digests are fresh and recorded; a duplicate is reported only if they are not fresh. */
  ghost predicate Tells<T(!new)>(r: Result<Out<T>, Error>, log: seq<string>, seen: set<string>) {
    && (r.Success? ==> Fresh(log, seen) && r.value.seen == seen + Elements(log))
    && (r == Failure(DuplicateDigest) ==> !Fresh(log, seen))
  }

  lemma FreshConcat(a: seq<string>, b: seq<string>, seen: set<string>)
    ensures Fresh(a + b, seen) <==> Fresh(a, seen) && Fresh(b, seen + Elements(a))
    ensures seen + Elements(a + b) == seen + Elements(a) + Elements(b)
  {
    NoDupConcat(a, b);
    assert forall x :: x in a + b <==> x in a || x in b;
  }

  /** One thing after another. */
  lemma Then<S(!new), T(!new)>(r: Result<Out<S>, Error>, a: seq<string>, next: Result<Out<T>, Error>, b: seq<string>, seen: set<string>)
    requires Tells(r, a, seen)
    requires if r.Success? then Tells(next, b, r.value.seen) else next == Failure(r.error)
    ensures Tells(next, a + b, seen)
  {
    FreshConcat(a, b, seen);
  }

  lemma Nothing<T(!new)>(value: T, seen: set<string>)
    ensures Tells(Success(Out(value, seen)), [], seen)
  {
    assert seen + Elements<string>([]) == seen;
  }

  lemma OneDigest(digest: string, seen: set<string>)
    ensures Fresh([digest], seen) <==> digest !in seen
    ensures Elements([digest]) == {digest}
  {
    assert digest in [digest];
  }

  /** For any value, depth and digest map, cyclic ones included. */
  lemma {:induction false} UnpackTells(v: Value, depth: nat, d: DigestMap, seen: set<string>)
    ensures Tells(UnpackValue(v, depth, d, seen), Met(v, depth, d), seen)
    decreases Levels(depth), 0, 0
  {
    Nothing(v, seen);
    if depth < MAX_PROCESSED_SD_JWT_DEPTH {
      match v
      case Array(items) => ArrayTells(items, depth + 1, d, seen);
      case Object(members) => ObjectTells(members, depth + 1, d, seen);
      case _ =>
    }
  }

  lemma {:induction false} ArrayTells(items: seq<Value>, depth: nat, d: DigestMap, seen: set<string>)
    ensures Tells(UnpackArray(items, depth, d, seen), MetInItems(items, depth, d), seen)
    decreases Levels(depth), 2, |items|
  {
    ItemsTell(items, depth, d, seen);
  }

  lemma {:induction false} ItemsTell(items: seq<Value>, depth: nat, d: DigestMap, seen: set<string>)
    ensures Tells(UnpackItems(items, depth, d, seen), MetInItems(items, depth, d), seen)
    decreases Levels(depth), 1, |items|
  {
    if items == [] {
      Nothing<seq<Value>>([], seen);
    } else {
      var n := |items| - 1;
      ItemsTell(items[..n], depth, d, seen);
      var r := UnpackItems(items[..n], depth, d, seen);
      if r.Success? {
        ItemTells(r.value.value, items[n], depth, d, r.value.seen);
      }
      Then(r, MetInItems(items[..n], depth, d), UnpackItems(items, depth, d, seen), MetInItem(items[n], depth, d), seen);
    }
  }

  lemma {:induction false} ItemTells(claims: seq<Value>, item: Value, depth: nat, d: DigestMap, seen: set<string>)
    ensures Tells(UnpackItem(claims, item, depth, d, seen), MetInItem(item, depth, d), seen)
    decreases Levels(depth), 1, 0
  {
    if IsPlaceholder(item) {
      DigestTells(Find(item.members, SD_LIST_PREFIX).value, depth, d, seen);
    } else {
      UnpackTells(item, depth, d, seen);
    }
  }

  lemma {:induction false} DigestTells(digest: Value, depth: nat, d: DigestMap, seen: set<string>)
    ensures Tells(UnpackFromDigest(digest, depth, d, seen), MetThrough(digest, 2, depth, d), seen)
    decreases Levels(depth), 0, 1
  {
    if digest.Str? {
      var x := digest.s;
      OneDigest(x, seen);
      if x in d && d[x].Array? && |d[x].items| == 2 {
        UnpackTells(d[x].items[1], depth, d, seen + {x});
        FreshConcat([x], Met(d[x].items[1], depth, d), seen);
      }
    }
  }

  lemma {:induction false} ObjectTells(members: seq<Member>, depth: nat, d: DigestMap, seen: set<string>)
    ensures Tells(UnpackObject(members, depth, d, seen), MetInObject(members, depth, d), seen)
    decreases Levels(depth), 2, |members|
  {
    MembersTell(members, depth, d, seen);
    var r, digests := UnpackMembers(members, depth, d, seen), Find(members, SD_DIGESTS_KEY);
    if digests.Some? && digests.value.Array? {
      if r.Success? {
        DigestsTell(r.value.value, digests.value.items, depth, d, r.value.seen);
      }
      Then(r, MetInMembers(members, depth, d), UnpackObject(members, depth, d, seen), MetInDigests(digests.value.items, depth, d), seen);
    }
  }

  lemma {:induction false} MembersTell(members: seq<Member>, depth: nat, d: DigestMap, seen: set<string>)
    ensures Tells(UnpackMembers(members, depth, d, seen), MetInMembers(members, depth, d), seen)
    decreases Levels(depth), 1, |members|
  {
    if members == [] {
      Nothing<seq<Member>>([], seen);
    } else {
      var n := |members| - 1;
      MembersTell(members[..n], depth, d, seen);
      var r := UnpackMembers(members[..n], depth, d, seen);
      if !IsStructural(members[n].key) {
        if r.Success? {
          MemberTells(r.value.value, members[n], depth, d, r.value.seen);
        }
        Then(r, MetInMembers(members[..n], depth, d), UnpackMembers(members, depth, d, seen), Met(members[n].value, depth, d), seen);
      }
    }
  }

  lemma {:induction false} MemberTells(claims: seq<Member>, m: Member, depth: nat, d: DigestMap, seen: set<string>)
    requires !IsStructural(m.key)
    ensures Tells(UnpackMember(claims, m, depth, d, seen), Met(m.value, depth, d), seen)
    decreases Levels(depth), 1, 0
  {
    UnpackTells(m.value, depth, d, seen);
  }

  lemma {:induction false} DigestsTell(claims: seq<Member>, digests: seq<Value>, depth: nat, d: DigestMap, seen: set<string>)
    ensures Tells(UnpackFromDigests(claims, digests, depth, d, seen), MetInDigests(digests, depth, d), seen)
    decreases Levels(depth), 1, |digests|
  {
    if digests == [] {
      Nothing(claims, seen);
    } else {
      var n := |digests| - 1;
      DigestsTell(claims, digests[..n], depth, d, seen);
      var r := UnpackFromDigests(claims, digests[..n], depth, d, seen);
      if r.Success? {
        MemberDigestTells(r.value.value, digests[n], depth, d, r.value.seen);
      }
      Then(r, MetInDigests(digests[..n], depth, d), UnpackFromDigests(claims, digests, depth, d, seen),
           MetThrough(digests[n], 3, depth, d), seen);
    }
  }

  lemma {:induction false} MemberDigestTells(claims: seq<Member>, digest: Value, depth: nat, d: DigestMap, seen: set<string>)
    ensures Tells(UnpackMemberDigest(claims, digest, depth, d, seen), MetThrough(digest, 3, depth, d), seen)
    decreases Levels(depth), 1, 0
  {
    if digest.Str? {
      var x := digest.s;
      OneDigest(x, seen);
      if x in d && d[x].Array? && |d[x].items| == 3 {
        UnpackTells(d[x].items[2], depth, d, seen + {x});
        FreshConcat([x], Met(d[x].items[2], depth, d), seen);
      }
    }
  }
}
