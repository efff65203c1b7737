/**
 Unpacking without the depth limit. It terminates even on cyclic digest maps, because no digest may be met twice,
 and it says what the limit of the real verifier changes: exactly that results nested too deeply are refused.
 */
module UnboundedUnpacking {
  import opened Json
  import opened Unpacking
  import opened Wrappers

  ghost function Unmet(disclosed: DigestMap, seen: set<string>): nat {
    |disclosed.Keys - seen|
  }

  lemma UnmetShrinks(disclosed: DigestMap, seen: set<string>, more: set<string>)
    requires seen <= more
    ensures Unmet(disclosed, more) <= Unmet(disclosed, seen)
    ensures forall x :: x in disclosed && x !in seen && x in more ==> Unmet(disclosed, more) < Unmet(disclosed, seen)
  {
    var a, b := disclosed.Keys - more, disclosed.Keys - seen;
    Subset(a, b);
    forall x | x in disclosed && x !in seen && x in more ensures |a| < |b| {
      Subset(a, b - {x});
    }
  }

  lemma Subset(a: set<string>, b: set<string>)
    requires a <= b
    ensures |a| <= |b|
  {
    assert b == a + (b - a);
  }

  ghost function Unpack(v: Value, disclosed: DigestMap, seen: set<string>): (r: Result<Out<Value>, Error>)
    ensures r.Success? ==> seen <= r.value.seen
    decreases Unmet(disclosed, seen), v, 1
  {
    match v
    case Array(items) =>
      if items == [] then Failure(EmptyArray)
      else
        var r :- Items(items, disclosed, seen);
        Success(Out(Array(r.value), r.seen))
    case Object(members) =>
      var r :- Members(members, disclosed, seen);
      var digests := Find(members, SD_DIGESTS_KEY);
      if digests.Some? && digests.value.Array? then
        UnmetShrinks(disclosed, seen, r.seen);
        assert Member(SD_DIGESTS_KEY, digests.value) in members;
        var q :- Digests(r.value, digests.value.items, disclosed, r.seen);
        Success(Out(Object(q.value), q.seen))
      else Success(Out(Object(r.value), r.seen))
    case _ => Success(Out(v, seen))
  }

  ghost function Items(items: seq<Value>, disclosed: DigestMap, seen: set<string>): (r: Result<Out<seq<Value>>, Error>)
    ensures r.Success? ==> seen <= r.value.seen
    decreases Unmet(disclosed, seen), items, 0
  {
    if items == [] then Success(Out([], seen))
    else
      var n := |items| - 1;
      var r :- Items(items[..n], disclosed, seen);
      UnmetShrinks(disclosed, seen, r.seen);
      if IsPlaceholder(items[n]) then
        if |items[n].members| > 1 then Failure(ExtraPlaceholderKey)
        else
          var v :- Disclosed(Find(items[n].members, SD_LIST_PREFIX).value, disclosed, r.seen);
          Success(Out(if v.value.Some? then r.value + [v.value.value] else r.value, v.seen))
      else
        var v :- Unpack(items[n], disclosed, r.seen);
        Success(Out(r.value + [v.value], v.seen))
  }

  ghost function Disclosed(digest: Value, disclosed: DigestMap, seen: set<string>): (r: Result<Out<Option<Value>>, Error>)
    ensures r.Success? ==> seen <= r.value.seen
    decreases Unmet(disclosed, seen), digest, 0
  {
    if !digest.Str? then Failure(DigestNotString)
    else
      var seen' :- RecordDigest(digest.s, seen);
      if digest.s !in disclosed then Success(Out(None, seen'))
      else
        UnmetShrinks(disclosed, seen, seen');
        var disclosure := disclosed[digest.s];
        if !disclosure.Array? then Failure(ArrayDisclosureNotArray)
        else if |disclosure.items| != 2 then Failure(ArrayDisclosureLength)
        else
          var r :- Unpack(disclosure.items[1], disclosed, seen');
          Success(Out(Some(r.value), r.seen))
  }

  ghost function Members(members: seq<Member>, disclosed: DigestMap, seen: set<string>): (r: Result<Out<seq<Member>>, Error>)
    ensures r.Success? ==> seen <= r.value.seen
    decreases Unmet(disclosed, seen), members, 0
  {
    if members == [] then Success(Out([], seen))
    else
      var n := |members| - 1;
      var r :- Members(members[..n], disclosed, seen);
      UnmetShrinks(disclosed, seen, r.seen);
      if IsStructural(members[n].key) then Success(r)
      else
        var v :- Unpack(members[n].value, disclosed, r.seen);
        Success(Out(Put(r.value, members[n].key, v.value), v.seen))
  }

  ghost function Digests(claims: seq<Member>, digests: seq<Value>, disclosed: DigestMap, seen: set<string>)
    : (r: Result<Out<seq<Member>>, Error>)
    ensures r.Success? ==> seen <= r.value.seen
    decreases Unmet(disclosed, seen), digests, 0
  {
    if digests == [] then Success(Out(claims, seen))
    else
      var n := |digests| - 1;
      var r :- Digests(claims, digests[..n], disclosed, seen);
      UnmetShrinks(disclosed, seen, r.seen);
      MemberDigest(r.value, digests[n], disclosed, r.seen)
  }

  ghost function MemberDigest(claims: seq<Member>, digest: Value, disclosed: DigestMap, seen: set<string>)
    : (r: Result<Out<seq<Member>>, Error>)
    ensures r.Success? ==> seen <= r.value.seen
    decreases Unmet(disclosed, seen), digest, 0
  {
    if !digest.Str? then Failure(DigestNotString)
    else
      var seen' :- RecordDigest(digest.s, seen);
      if digest.s !in disclosed then Success(Out(claims, seen'))
      else
        UnmetShrinks(disclosed, seen, seen');
        var disclosure := disclosed[digest.s];
        if !disclosure.Array? then Failure(ObjectDisclosureNotArray)
        else if |disclosure.items| != 3 then Failure(ObjectDisclosureLength)
        else if !disclosure.items[1].Str? then Failure(ClaimNameNotString)
        else
          var key := disclosure.items[1].s;
          if key == SD_DIGESTS_KEY || key == SD_LIST_PREFIX then Failure(ReservedClaimName)
          else if HasKey(claims, key) then Failure(DuplicateClaim)
          else
            var v :- Unpack(disclosure.items[2], disclosed, seen');
            Success(Out(Put(claims, key, v.value), v.seen))
  }

  /** Objects of a parsed JSON text have distinct member names. */
  ghost predicate WellKeyed(v: Value) {
    match v
    case Array(items) => WellKeyedItems(items)
    case Object(members) => DistinctKeys(members) && WellKeyedMembers(members)
    case _ => true
  }

  ghost predicate WellKeyedItems(items: seq<Value>) {
    forall i :: 0 <= i < |items| ==> WellKeyed(items[i])
  }

  ghost predicate WellKeyedMembers(members: seq<Member>) {
    forall i :: 0 <= i < |members| ==> WellKeyed(members[i].value)
  }

  ghost predicate WellKeyedMap(disclosed: DigestMap) {
    forall x :: x in disclosed ==> WellKeyed(disclosed[x])
  }

  lemma WellKeyedItem(v: Value, i: nat)
    requires WellKeyed(v) && v.Array? && i < |v.items|
    ensures WellKeyed(v.items[i])
  {
  }

  // What the depth limit changes

  /**
   The verifier's bounded unpacking succeeds exactly when the unbounded one does with a result that fits below
   `depth`, and then they agree.
   */
  lemma {:induction false} BoundedIsExact(v: Value, depth: nat, d: DigestMap, seen: set<string>)
    requires depth <= MAX_PROCESSED_SD_JWT_DEPTH && WellKeyed(v) && WellKeyedMap(d)
    ensures var b, r := UnpackValue(v, depth, d, seen), Unpack(v, d, seen);
      && (b.Success? <==> r.Success? && depth + Nesting(r.value.value) <= MAX_PROCESSED_SD_JWT_DEPTH)
      && (b.Success? ==> b == r)
    decreases Unmet(d, seen), v, 1
  {
    match v
    case Array(items) =>
      if items != [] && depth < MAX_PROCESSED_SD_JWT_DEPTH {
        ItemsExact(items, depth + 1, d, seen);
      }
    case Object(members) =>
      if depth < MAX_PROCESSED_SD_JWT_DEPTH {
        ObjectExact(members, depth + 1, d, seen);
      }
    case _ =>
  }

  lemma {:induction false} ObjectExact(members: seq<Member>, depth: nat, d: DigestMap, seen: set<string>)
    requires 0 < depth <= MAX_PROCESSED_SD_JWT_DEPTH && WellKeyed(Object(members)) && WellKeyedMap(d)
    ensures var b, r := UnpackObject(members, depth, d, seen), Unpack(Object(members), d, seen);
      && (b.Success? <==> r.Success? && depth - 1 + Nesting(r.value.value) <= MAX_PROCESSED_SD_JWT_DEPTH)
      && (b.Success? ==> b == r)
    decreases Unmet(d, seen), members, 1
  {
    MembersExact(members, depth, d, seen);
    var digests := Find(members, SD_DIGESTS_KEY);
    var r := Members(members, d, seen);
    if r.Success? && digests.Some? && digests.value.Array? {
      UnmetShrinks(d, seen, r.value.seen);
      assert Member(SD_DIGESTS_KEY, digests.value) in members;
      DigestsExact(r.value.value, digests.value.items, depth, d, r.value.seen);
    }
  }

  lemma {:induction false} ItemsExact(items: seq<Value>, depth: nat, d: DigestMap, seen: set<string>)
    requires depth <= MAX_PROCESSED_SD_JWT_DEPTH && WellKeyedItems(items) && WellKeyedMap(d)
    ensures var b, r := UnpackItems(items, depth, d, seen), Items(items, d, seen);
      && (b.Success? <==> r.Success? && depth + NestingItems(r.value.value) <= MAX_PROCESSED_SD_JWT_DEPTH)
      && (b.Success? ==> b == r)
    decreases Unmet(d, seen), items, 0
  {
    if items != [] {
      var n := |items| - 1;
      ItemsExact(items[..n], depth, d, seen);
      var r := Items(items[..n], d, seen);
      if r.Success? {
        UnmetShrinks(d, seen, r.value.seen);
        if !IsPlaceholder(items[n]) {
          BoundedIsExact(items[n], depth, d, r.value.seen);
          var v := Unpack(items[n], d, r.value.seen);
          if v.Success? {
            NestingSnoc(r.value.value, v.value.value);
          }
        } else if |items[n].members| == 1 {
          var digest := Find(items[n].members, SD_LIST_PREFIX).value;
          DisclosedExact(digest, depth, d, r.value.seen);
          var v := Disclosed(digest, d, r.value.seen);
          if v.Success? && v.value.value.Some? {
            NestingSnoc(r.value.value, v.value.value.value);
          }
        }
      }
    }
  }

  lemma NestingSnoc(items: seq<Value>, v: Value)
    ensures NestingItems(items + [v]) == Max(NestingItems(items), Nesting(v))
  {
    assert (items + [v])[..|items|] == items;
  }

  lemma NestingPut(ms: seq<Member>, key: string, v: Value)
    requires !HasKey(ms, key)
    ensures NestingMembers(Put(ms, key, v)) == Max(NestingMembers(ms), Nesting(v))
  {
    assert (ms + [Member(key, v)])[..|ms|] == ms;
  }

  lemma {:induction false} DisclosedExact(digest: Value, depth: nat, d: DigestMap, seen: set<string>)
    requires depth <= MAX_PROCESSED_SD_JWT_DEPTH && WellKeyedMap(d)
    ensures var b, r := UnpackFromDigest(digest, depth, d, seen), Disclosed(digest, d, seen);
      && (b.Success? <==>
            r.Success? && (r.value.value.Some? ==> depth + Nesting(r.value.value.value) <= MAX_PROCESSED_SD_JWT_DEPTH))
      && (b.Success? ==> b == r)
    decreases Unmet(d, seen), digest, 0
  {
    if digest.Str? && digest.s !in seen && digest.s in d {
      UnmetShrinks(d, seen, seen + {digest.s});
      var disclosure := d[digest.s];
      if disclosure.Array? && |disclosure.items| == 2 {
        WellKeyedItem(d[digest.s], 1);
        BoundedIsExact(disclosure.items[1], depth, d, seen + {digest.s});
      }
    }
  }

  lemma {:induction false} MembersKeys(members: seq<Member>, d: DigestMap, seen: set<string>)
    ensures var r := Members(members, d, seen);
      r.Success? ==> forall k :: HasKey(r.value.value, k) ==> HasKey(members, k)
  {
    if members != [] {
      var n := |members| - 1;
      MembersKeys(members[..n], d, seen);
      var r := Members(members, d, seen);
      if r.Success? {
        forall k | HasKey(r.value.value, k) ensures HasKey(members, k) {
          var before := Members(members[..n], d, seen).value.value;
          PutKeys(before, r.value.value, members[n].key, k);
          if HasKey(members[..n], k) {
            var i :| 0 <= i < n && members[..n][i].key == k;
            assert members[i].key == k;
          } else {
            assert members[n].key == k;
          }
        }
      }
    }
  }

  lemma PutKeys(before: seq<Member>, after: seq<Member>, key: string, k: string)
    requires after == before || exists v :: after == Put(before, key, v)
    requires HasKey(after, k)
    ensures HasKey(before, k) || k == key
  {
    if after != before {
      var v :| after == Put(before, key, v);
      var i :| 0 <= i < |after| && after[i].key == k;
      if i < |before| && before[i].key != key {
        assert before[i].key == k;
      }
    }
  }

  lemma {:induction false} MembersExact(members: seq<Member>, depth: nat, d: DigestMap, seen: set<string>)
    requires depth <= MAX_PROCESSED_SD_JWT_DEPTH && DistinctKeys(members) && WellKeyedMembers(members) && WellKeyedMap(d)
    ensures var b, r := UnpackMembers(members, depth, d, seen), Members(members, d, seen);
      && (b.Success? <==> r.Success? && depth + NestingMembers(r.value.value) <= MAX_PROCESSED_SD_JWT_DEPTH)
      && (b.Success? ==> b == r)
    decreases Unmet(d, seen), members, 0
  {
    if members != [] {
      var n := |members| - 1;
      MembersExact(members[..n], depth, d, seen);
      var r := Members(members[..n], d, seen);
      if r.Success? && !IsStructural(members[n].key) {
        UnmetShrinks(d, seen, r.value.seen);
        BoundedIsExact(members[n].value, depth, d, r.value.seen);
        MembersKeys(members[..n], d, seen);
        assert !HasKey(members[..n], members[n].key);
        var v := Unpack(members[n].value, d, r.value.seen);
        if v.Success? {
          NestingPut(r.value.value, members[n].key, v.value.value);
        }
      }
    }
  }

  lemma {:induction false} DigestsExact(claims: seq<Member>, digests: seq<Value>, depth: nat, d: DigestMap, seen: set<string>)
    requires depth <= MAX_PROCESSED_SD_JWT_DEPTH && WellKeyedMap(d)
    ensures var b, r := UnpackFromDigests(claims, digests, depth, d, seen), Digests(claims, digests, d, seen);
      && (r.Success? ==> NestingMembers(claims) <= NestingMembers(r.value.value))
      && (depth + NestingMembers(claims) <= MAX_PROCESSED_SD_JWT_DEPTH ==>
            && (b.Success? <==> r.Success? && depth + NestingMembers(r.value.value) <= MAX_PROCESSED_SD_JWT_DEPTH)
            && (b.Success? ==> b == r))
    decreases Unmet(d, seen), digests, 0
  {
    if digests != [] {
      var n := |digests| - 1;
      DigestsExact(claims, digests[..n], depth, d, seen);
      var r := Digests(claims, digests[..n], d, seen);
      if r.Success? {
        UnmetShrinks(d, seen, r.value.seen);
        DigestExact(r.value.value, digests[n], depth, d, r.value.seen);
      }
    }
  }

  /** One turn of the `_sd` loop. */
  lemma {:induction false} DigestExact(claims: seq<Member>, digest: Value, depth: nat, d: DigestMap, seen: set<string>)
    requires depth <= MAX_PROCESSED_SD_JWT_DEPTH && WellKeyedMap(d)
    ensures var b, r := UnpackMemberDigest(claims, digest, depth, d, seen), MemberDigest(claims, digest, d, seen);
      && (r.Success? ==> NestingMembers(claims) <= NestingMembers(r.value.value))
      && (depth + NestingMembers(claims) <= MAX_PROCESSED_SD_JWT_DEPTH ==>
            && (b.Success? <==> r.Success? && depth + NestingMembers(r.value.value) <= MAX_PROCESSED_SD_JWT_DEPTH)
            && (b.Success? ==> b == r))
    decreases Unmet(d, seen), digest, 0
  {
    if digest.Str? && digest.s !in seen && digest.s in d {
      UnmetShrinks(d, seen, seen + {digest.s});
      var disclosure := d[digest.s];
      if disclosure.Array? && |disclosure.items| == 3 && disclosure.items[1].Str? && !HasKey(claims, disclosure.items[1].s) {
        WellKeyedItem(d[digest.s], 2);
        BoundedIsExact(disclosure.items[2], depth, d, seen + {digest.s});
        var v := Unpack(disclosure.items[2], d, seen + {digest.s});
        if v.Success? {
          NestingPut(claims, disclosure.items[1].s, v.value.value);
        }
      }
    }
  }
}
