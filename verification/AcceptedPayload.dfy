/**
 What acceptance means for any payload and any disclosures, also those no issuer made: which members called `_sd_alg` are
 tolerated, and what every value that the verifier visits must look like.
 */
module AcceptedPayload {
  import Encounters
  import opened Json
  import opened JsonFacts
  import opened Places
  import opened Sequences
  import opened Unpacking
  import opened Wrappers

  // `_sd_alg`

  lemma {:induction false} FreeOfSdAlgExactly(v: Value)
    ensures FreeOfSdAlg(v) <==> Nowhere(v, "_sd_alg")
  {
    match v
    case Array(items) =>
      NowhereInArray(items, "_sd_alg");
      forall i | 0 <= i < |items| ensures FreeOfSdAlg(items[i]) <==> Nowhere(items[i], "_sd_alg") {
        FreeOfSdAlgExactly(items[i]);
      }
    case Object(members) =>
      NowhereInObject(members, "_sd_alg");
      forall i | 0 <= i < |members| ensures FreeOfSdAlg(members[i].value) <==> Nowhere(members[i].value, "_sd_alg") {
        FreeOfSdAlgExactly(members[i].value);
      }
    case _ => NowhereInScalar(v, "_sd_alg");
  }

  /** The algorithm is the default one, if it is named at all, and no object below the top level names one. */
  ghost predicate AlgorithmInOrder(payload: seq<Member>) {
    && (HasKey(payload, "_sd_alg") ==> Find(payload, "_sd_alg") == Some(Str("sha-256")))
    && forall i :: 0 <= i < |payload| && payload[i].key != "_sd_alg" ==> Nowhere(payload[i].value, "_sd_alg")
  }

  /**
   For any payload: it is accepted exactly when its algorithm is in order, it can be unpacked, and every presented
   disclosure was met on the way.
   */
  lemma ExtractedExactly(payload: seq<Member>, disclosed: DigestMap, digests: seq<string>, inputCount: nat)
    ensures var r, u := ExtractClaims(payload, disclosed, digests, inputCount), UnpackValue(Object(payload), 0, disclosed, {});
      && (r.Success? <==>
            && AlgorithmInOrder(payload) && u.Success? && |digests| == inputCount
            && forall x :: x in digests ==> x in u.value.seen)
      && (r.Success? ==> r.value == u.value.value)
  {
    forall i | 0 <= i < |payload| ensures FreeOfSdAlg(payload[i].value) <==> Nowhere(payload[i].value, "_sd_alg") {
      FreeOfSdAlgExactly(payload[i].value);
    }
    var u := UnpackValue(Object(payload), 0, disclosed, {});
    if u.Success? {
      assert (forall x :: x in digests ==> x in u.value.seen) <==> (forall i :: 0 <= i < |digests| ==> digests[i] in u.value.seen);
    }
  }

  // What the verifier visits

  /** `...` marks an element as a stand-in for a hidden one. */
  predicate StandsIn(item: Value) {
    item.Object? && HasKey(item.members, "...")
  }

  /** The value inside the disclosure with this digest, if it is presented and has the given number of parts. */
  function Inner(digest: Value, parts: nat, d: DigestMap): Option<Value>
    requires parts > 0
  {
    if digest.Str? && digest.s in d && d[digest.s].Array? && |d[digest.s].items| == parts
    then Some(d[digest.s].items[parts - 1]) else None
  }

  /** The digests listed in an object. */
  function Listed(members: seq<Member>): seq<Value> {
    var digests := Find(members, "_sd");
    if digests.Some? && digests.value.Array? then digests.value.items else []
  }

  ghost predicate ItemLeads(item: Value, u: Value, d: DigestMap) {
    if StandsIn(item) then Inner(Find(item.members, "...").value, 2, d) == Some(u) else u == item
  }

  /** `u` is an element of `v`, a member that is not structural, or stands in a presented disclosure for one of the two. */
  ghost predicate Leads(v: Value, u: Value, d: DigestMap) {
    match v
    case Array(items) => exists i :: 0 <= i < |items| && ItemLeads(items[i], u, d)
    case Object(members) => MemberLeads(members, u) || DigestLeads(Listed(members), u, d)
    case _ => false
  }

  ghost predicate MemberLeads(members: seq<Member>, u: Value) {
    exists i :: 0 <= i < |members| && members[i].key != "_sd" && members[i].key != "_sd_alg" && members[i].value == u
  }

  ghost predicate DigestLeads(digests: seq<Value>, u: Value, d: DigestMap) {
    exists i :: 0 <= i < |digests| && Inner(digests[i], 3, d) == Some(u)
  }

  /** A way from one visited value to the next, from the outside in. */
  ghost predicate Way(chain: seq<Value>, d: DigestMap) {
    chain != [] && forall i :: 0 <= i < |chain| - 1 ==> Leads(chain[i], chain[i + 1], d)
  }

  // What a visited value must look like

  /** A stand-in holds one digest and nothing else, and its disclosure has a salt and a value. */
  predicate ItemProper(item: Value, d: DigestMap) {
    StandsIn(item) ==>
      && |item.members| == 1 && item.members[0].value.Str?
      && (item.members[0].value.s in d ==>
            var x := d[item.members[0].value.s];
            x.Array? && |x.items| == 2)
  }

  /** A listed digest is text, and its disclosure has a salt, a name that is not reserved, and a value. */
  predicate DigestProper(digest: Value, d: DigestMap) {
    && digest.Str?
    && (digest.s in d ==>
          var x := d[digest.s];
          x.Array? && |x.items| == 3 && x.items[1].Str? && x.items[1].s != "_sd" && x.items[1].s != "...")
  }

  function NameOf(digest: Value, d: DigestMap): Option<string> {
    if Inner(digest, 3, d).Some? && d[digest.s].items[1].Str? then Some(d[digest.s].items[1].s) else None
  }

  /** The names that are revealed differ from each other and from those that are visible. */
  predicate NamesProper(members: seq<Member>, digests: seq<Value>, d: DigestMap) {
    && (forall i, k :: 0 <= i < |digests| && 0 <= k < |members| && members[k].key != "_sd" && members[k].key != "_sd_alg" ==>
          NameOf(digests[i], d) != Some(members[k].key))
    && forall i, k :: 0 <= i < k < |digests| && NameOf(digests[i], d).Some? ==> NameOf(digests[i], d) != NameOf(digests[k], d)
  }

  predicate Proper(v: Value, d: DigestMap) {
    match v
    case Array(items) => items != [] && forall i :: 0 <= i < |items| ==> ItemProper(items[i], d)
    case Object(members) =>
      && (forall i :: 0 <= i < |Listed(members)| ==> DigestProper(Listed(members)[i], d))
      && NamesProper(members, Listed(members), d)
    case _ => true
  }

  /** Proper, and a container only within 128 levels. */
  predicate ProperAt(v: Value, level: nat, d: DigestMap) {
    Proper(v, d) && (v.Array? || v.Object? ==> level <= 128)
  }

  // Acceptance makes every visited value proper

  ghost predicate Unpacks(v: Value, depth: nat, d: DigestMap) {
    exists seen :: UnpackValue(v, depth, d, seen).Success?
  }

  lemma {:induction false} ItemsUnpack(items: seq<Value>, depth: nat, d: DigestMap, seen: set<string>, i: nat)
    requires UnpackItems(items, depth, d, seen).Success? && i < |items|
    ensures ItemProper(items[i], d) && forall u :: ItemLeads(items[i], u, d) ==> Unpacks(u, depth, d)
  {
    var n := |items| - 1;
    if i < n {
      ItemsUnpack(items[..n], depth, d, seen, i);
    } else {
      var r := UnpackItems(items[..n], depth, d, seen).value;
      ItemUnpacks(r.value, items[n], depth, d, r.seen);
    }
  }

  lemma ItemUnpacks(claims: seq<Value>, item: Value, depth: nat, d: DigestMap, seen: set<string>)
    requires UnpackItem(claims, item, depth, d, seen).Success?
    ensures ItemProper(item, d) && forall u :: ItemLeads(item, u, d) ==> Unpacks(u, depth, d)
  {
    if StandsIn(item) {
      var digest := Find(item.members, "...").value;
      assert item.members == [item.members[0]] && item.members[0] == Member("...", digest);
      assert UnpackFromDigest(digest, depth, d, seen).Success?;
      forall u | ItemLeads(item, u, d) ensures Unpacks(u, depth, d) {
        assert UnpackValue(u, depth, d, seen + {digest.s}).Success?;
      }
    } else {
      assert UnpackValue(item, depth, d, seen).Success?;
    }
  }

  ghost predicate ShowsName(members: seq<Member>, key: string) {
    exists i :: 0 <= i < |members| && members[i].key == key && key != "_sd" && key != "_sd_alg"
  }

  lemma PutKeys(ms: seq<Member>, key: string, v: Value, k: string)
    ensures HasKey(Put(ms, key, v), k) <==> HasKey(ms, k) || k == key
  {
    PutFind(ms, key, v, k);
  }

  lemma {:induction false} MembersUnpack(members: seq<Member>, depth: nat, d: DigestMap, seen: set<string>)
    requires UnpackMembers(members, depth, d, seen).Success?
    ensures forall u :: MemberLeads(members, u) ==> Unpacks(u, depth, d)
    ensures forall k :: HasKey(UnpackMembers(members, depth, d, seen).value.value, k) <==> ShowsName(members, k)
  {
    if members != [] {
      var n := |members| - 1;
      var r, m := UnpackMembers(members[..n], depth, d, seen).value, members[n];
      MembersUnpack(members[..n], depth, d, seen);
      MemberInFrontOrLast(members);
      if !IsStructural(m.key) {
        var v := UnpackValue(m.value, depth, d, r.seen);
        assert Unpacks(m.value, depth, d);
        forall k ensures HasKey(Put(r.value, m.key, v.value.value), k) <==> ShowsName(members, k) {
          PutKeys(r.value, m.key, v.value.value, k);
        }
      }
    }
  }

  lemma MemberInFrontOrLast(members: seq<Member>)
    requires members != []
    ensures var n := |members| - 1;
      && (forall u :: MemberLeads(members, u) <==> MemberLeads(members[..n], u) || (!IsStructural(members[n].key) && members[n].value == u))
      && (forall k :: ShowsName(members, k) <==> ShowsName(members[..n], k) || (!IsStructural(k) && members[n].key == k))
  {
    var n := |members| - 1;
    assert forall i :: 0 <= i < n ==> members[..n][i] == members[i];
    assert !IsStructural(members[n].key) ==> MemberLeads(members, members[n].value) && ShowsName(members, members[n].key);
  }

  ghost predicate RevealsName(digests: seq<Value>, key: string, d: DigestMap) {
    exists i :: 0 <= i < |digests| && NameOf(digests[i], d) == Some(key)
  }

  /** All listed digests are proper, and their names new to `claims` and to each other. */
  ghost predicate DigestsProper(claims: seq<Member>, digests: seq<Value>, d: DigestMap) {
    && (forall i :: 0 <= i < |digests| ==> DigestProper(digests[i], d))
    && (forall k :: RevealsName(digests, k, d) ==> !HasKey(claims, k))
    && forall i, k :: 0 <= i < k < |digests| && NameOf(digests[i], d).Some? ==> NameOf(digests[i], d) != NameOf(digests[k], d)
  }

  lemma DigestsProperSnoc(claims: seq<Member>, digests: seq<Value>, d: DigestMap)
    requires digests != []
    ensures var n := |digests| - 1;
      && (forall k :: RevealsName(digests, k, d) <==> RevealsName(digests[..n], k, d) || NameOf(digests[n], d) == Some(k))
      && (DigestsProper(claims, digests, d) <==>
            && DigestsProper(claims, digests[..n], d) && DigestProper(digests[n], d)
            && forall k :: NameOf(digests[n], d) == Some(k) ==> !HasKey(claims, k) && !RevealsName(digests[..n], k, d))
  {
    var n := |digests| - 1;
    assert forall i :: 0 <= i < n ==> digests[..n][i] == digests[i];
  }

  lemma {:induction false} DigestsUnpack(claims: seq<Member>, digests: seq<Value>, depth: nat, d: DigestMap, seen: set<string>)
    requires UnpackFromDigests(claims, digests, depth, d, seen).Success?
    ensures DigestsProper(claims, digests, d)
    ensures forall k ::
      HasKey(UnpackFromDigests(claims, digests, depth, d, seen).value.value, k) <==> HasKey(claims, k) || RevealsName(digests, k, d)
  {
    if digests != [] {
      var n := |digests| - 1;
      var r := UnpackFromDigests(claims, digests[..n], depth, d, seen).value;
      DigestsUnpack(claims, digests[..n], depth, d, seen);
      MemberDigestUnpacks(r.value, digests[n], depth, d, r.seen);
      DigestsProperSnoc(claims, digests, d);
    }
  }

  lemma {:induction false} DigestsLead(claims: seq<Member>, digests: seq<Value>, depth: nat, d: DigestMap, seen: set<string>, i: nat)
    requires UnpackFromDigests(claims, digests, depth, d, seen).Success? && i < |digests|
    ensures Inner(digests[i], 3, d).Some? ==> Unpacks(Inner(digests[i], 3, d).value, depth, d)
  {
    var n := |digests| - 1;
    var r := UnpackFromDigests(claims, digests[..n], depth, d, seen).value;
    if i < n {
      DigestsLead(claims, digests[..n], depth, d, seen, i);
    } else {
      MemberDigestUnpacks(r.value, digests[n], depth, d, r.seen);
    }
  }

  lemma MemberDigestUnpacks(claims: seq<Member>, digest: Value, depth: nat, d: DigestMap, seen: set<string>)
    requires UnpackMemberDigest(claims, digest, depth, d, seen).Success?
    ensures DigestProper(digest, d)
    ensures var name := NameOf(digest, d);
      && (name.Some? ==> !HasKey(claims, name.value))
      && forall k :: HasKey(UnpackMemberDigest(claims, digest, depth, d, seen).value.value, k) <==> HasKey(claims, k) || name == Some(k)
    ensures Inner(digest, 3, d).Some? ==> Unpacks(Inner(digest, 3, d).value, depth, d)
  {
    if digest.s in d {
      var x := d[digest.s];
      var v := UnpackValue(x.items[2], depth, d, seen + {digest.s});
      forall k ensures HasKey(Put(claims, x.items[1].s, v.value.value), k) <==> HasKey(claims, k) || k == x.items[1].s {
        PutKeys(claims, x.items[1].s, v.value.value, k);
      }
    }
  }

  lemma UnpackedIsProper(v: Value, depth: nat, d: DigestMap, seen: set<string>)
    requires UnpackValue(v, depth, d, seen).Success?
    ensures ProperAt(v, depth + 1, d) && forall u :: Leads(v, u, d) ==> Unpacks(u, depth + 1, d)
  {
    match v
    case Array(items) =>
      forall i | 0 <= i < |items|
        ensures ItemProper(items[i], d) && forall u :: ItemLeads(items[i], u, d) ==> Unpacks(u, depth + 1, d)
      {
        ItemsUnpack(items, depth + 1, d, seen, i);
      }
    case Object(members) =>
      var visible := UnpackMembers(members, depth + 1, d, seen).value;
      MembersUnpack(members, depth + 1, d, seen);
      if Listed(members) != [] {
        DigestsUnpack(visible.value, Listed(members), depth + 1, d, visible.seen);
        forall i | 0 <= i < |Listed(members)|
          ensures Inner(Listed(members)[i], 3, d).Some? ==> Unpacks(Inner(Listed(members)[i], 3, d).value, depth + 1, d)
        {
          DigestsLead(visible.value, Listed(members), depth + 1, d, visible.seen, i);
        }
        NamesInObject(members, visible.value, d);
      }
    case _ =>
  }

  lemma NamesInObject(members: seq<Member>, claims: seq<Member>, d: DigestMap)
    requires forall k :: HasKey(claims, k) <==> ShowsName(members, k)
    ensures DigestsProper(claims, Listed(members), d) <==> Proper(Object(members), d)
  {
    var digests := Listed(members);
    if NamesProper(members, digests, d) {
      forall k | RevealsName(digests, k, d) ensures !ShowsName(members, k) {
      }
    }
    if forall k :: RevealsName(digests, k, d) ==> !HasKey(claims, k) {
      forall i, k | 0 <= i < |digests| && 0 <= k < |members| && !IsStructural(members[k].key)
        ensures NameOf(digests[i], d) != Some(members[k].key)
      {
        assert ShowsName(members, members[k].key);
        assert NameOf(digests[i], d) == Some(members[k].key) ==> RevealsName(digests, members[k].key, d);
      }
    }
  }

  lemma {:induction false} VisitedIsProper(chain: seq<Value>, depth: nat, d: DigestMap)
    requires Way(chain, d) && Unpacks(chain[0], depth, d)
    ensures ProperAt(chain[|chain| - 1], depth + |chain|, d)
  {
    var seen :| UnpackValue(chain[0], depth, d, seen).Success?;
    UnpackedIsProper(chain[0], depth, d, seen);
    if |chain| > 1 {
      var rest := chain[1..];
      assert Leads(chain[0], chain[1], d);
      forall i | 0 <= i < |rest| - 1 ensures Leads(rest[i], rest[i + 1], d) {
        assert Leads(chain[i + 1], chain[i + 2], d);
      }
      VisitedIsProper(rest, depth + 1, d);
    }
  }

  // Refusal has a reason

  /** Some value visited from `v` on, itself at the given level, is not proper. */
  ghost predicate Faulty(v: Value, level: nat, d: DigestMap) {
    exists chain :: Leaves(v, chain, level, d)
  }

  ghost predicate Leaves(v: Value, chain: seq<Value>, level: nat, d: DigestMap) {
    Way(chain, d) && chain[0] == v && !ProperAt(chain[|chain| - 1], level + |chain| - 1, d)
  }

  lemma FaultyItself(v: Value, level: nat, d: DigestMap)
    requires level > 0 && !ProperAt(v, level, d)
    ensures Faulty(v, level, d)
  {
    assert Leaves(v, [v], level, d);
  }

  lemma FaultyBelow(v: Value, u: Value, level: nat, d: DigestMap)
    requires level > 0 && Leads(v, u, d) && Faulty(u, level + 1, d)
    ensures Faulty(v, level, d)
  {
    var chain :| Leaves(u, chain, level + 1, d);
    var longer := [v] + chain;
    forall i | 0 <= i < |longer| - 1 ensures Leads(longer[i], longer[i + 1], d) {
      assert i > 0 ==> Leads(chain[i - 1], chain[i], d);
    }
    assert Leaves(v, longer, level, d);
  }

  /** A failure is that of a digest met twice, or something is wrong with what is visited. */
  ghost predicate Excused<T>(r: Result<T, Error>, wrong: bool) {
    r.Failure? ==> r.error == DuplicateDigest || wrong
  }

  ghost predicate ItemWrong(item: Value, level: nat, d: DigestMap) {
    !ItemProper(item, d) || exists u :: ItemLeads(item, u, d) && Faulty(u, level, d)
  }

  ghost predicate DigestWrong(digest: Value, level: nat, d: DigestMap) {
    Inner(digest, 3, d).Some? && Faulty(Inner(digest, 3, d).value, level, d)
  }

  lemma {:induction false} ValueRefused(v: Value, depth: nat, d: DigestMap, seen: set<string>)
    ensures Excused(UnpackValue(v, depth, d, seen), Faulty(v, depth + 1, d))
    decreases Levels(depth), 0, 0
  {
    if (v.Array? || v.Object?) && depth + 1 > MAX_PROCESSED_SD_JWT_DEPTH {
      FaultyItself(v, depth + 1, d);
    } else {
      match v
      case Array(items) => ArrayRefused(items, depth + 1, d, seen);
      case Object(members) => ObjectRefused(members, depth + 1, d, seen);
      case _ =>
    }
  }

  lemma {:induction false} ArrayRefused(items: seq<Value>, depth: nat, d: DigestMap, seen: set<string>)
    requires depth > 0
    ensures Excused(UnpackArray(items, depth, d, seen), Faulty(Array(items), depth, d))
    decreases Levels(depth), 2, |items|
  {
    if !Proper(Array(items), d) {
      FaultyItself(Array(items), depth, d);
    } else {
      ItemsRefused(items, depth, d, seen);
      if exists i :: 0 <= i < |items| && ItemWrong(items[i], depth + 1, d) {
        var i :| 0 <= i < |items| && ItemWrong(items[i], depth + 1, d);
        var u :| ItemLeads(items[i], u, d) && Faulty(u, depth + 1, d);
        FaultyBelow(Array(items), u, depth, d);
      }
    }
  }

  lemma {:induction false} ItemsRefused(items: seq<Value>, depth: nat, d: DigestMap, seen: set<string>)
    ensures Excused(UnpackItems(items, depth, d, seen), exists i :: 0 <= i < |items| && ItemWrong(items[i], depth + 1, d))
    decreases Levels(depth), 1, |items|
  {
    if items != [] {
      var n := |items| - 1;
      var r := UnpackItems(items[..n], depth, d, seen);
      ItemsRefused(items[..n], depth, d, seen);
      if r.Success? {
        ItemRefused(r.value.value, items[n], depth, d, r.value.seen);
      }
    }
  }

  lemma {:induction false} ItemRefused(claims: seq<Value>, item: Value, depth: nat, d: DigestMap, seen: set<string>)
    ensures Excused(UnpackItem(claims, item, depth, d, seen), ItemWrong(item, depth + 1, d))
    decreases Levels(depth), 1, 0
  {
    if !StandsIn(item) {
      ValueRefused(item, depth, d, seen);
    } else if ItemProper(item, d) {
      var digest := item.members[0].value;
      assert item.members == [item.members[0]];
      if Inner(digest, 2, d).Some? {
        ValueRefused(Inner(digest, 2, d).value, depth, d, seen + {digest.s});
      }
    }
  }

  lemma {:induction false} ObjectRefused(members: seq<Member>, depth: nat, d: DigestMap, seen: set<string>)
    requires depth > 0
    ensures Excused(UnpackObject(members, depth, d, seen), Faulty(Object(members), depth, d))
    decreases Levels(depth), 2, |members|
  {
    var visible := UnpackMembers(members, depth, d, seen);
    MembersRefused(members, depth, d, seen);
    if exists u :: MemberLeads(members, u) && Faulty(u, depth + 1, d) {
      var u :| MemberLeads(members, u) && Faulty(u, depth + 1, d);
      FaultyBelow(Object(members), u, depth, d);
    }
    if visible.Success? {
      MembersUnpack(members, depth, d, seen);
      NamesInObject(members, visible.value.value, d);
      if !Proper(Object(members), d) {
        FaultyItself(Object(members), depth, d);
      } else {
        DigestsRefused(visible.value.value, Listed(members), depth, d, visible.value.seen);
        if exists i :: 0 <= i < |Listed(members)| && DigestWrong(Listed(members)[i], depth + 1, d) {
          var i :| 0 <= i < |Listed(members)| && DigestWrong(Listed(members)[i], depth + 1, d);
          FaultyBelow(Object(members), Inner(Listed(members)[i], 3, d).value, depth, d);
        }
      }
    }
  }

  lemma {:induction false} MembersRefused(members: seq<Member>, depth: nat, d: DigestMap, seen: set<string>)
    ensures Excused(UnpackMembers(members, depth, d, seen), exists u :: MemberLeads(members, u) && Faulty(u, depth + 1, d))
    decreases Levels(depth), 1, |members|
  {
    if members != [] {
      var n := |members| - 1;
      var r := UnpackMembers(members[..n], depth, d, seen);
      MembersRefused(members[..n], depth, d, seen);
      MemberInFrontOrLast(members);
      if r.Success? && !IsStructural(members[n].key) {
        assert MemberLeads(members, members[n].value);
        ValueRefused(members[n].value, depth, d, r.value.seen);
      }
    }
  }

  lemma {:induction false} DigestsRefused(claims: seq<Member>, digests: seq<Value>, depth: nat, d: DigestMap, seen: set<string>)
    requires DigestsProper(claims, digests, d)
    ensures Excused(UnpackFromDigests(claims, digests, depth, d, seen),
                    exists i :: 0 <= i < |digests| && DigestWrong(digests[i], depth + 1, d))
    decreases Levels(depth), 1, |digests|
  {
    if digests != [] {
      var n := |digests| - 1;
      var r := UnpackFromDigests(claims, digests[..n], depth, d, seen);
      DigestsProperSnoc(claims, digests, d);
      DigestsRefused(claims, digests[..n], depth, d, seen);
      if r.Success? {
        DigestsUnpack(claims, digests[..n], depth, d, seen);
        DigestRefused(r.value.value, digests[n], depth, d, r.value.seen);
      }
    }
  }

  lemma {:induction false} DigestRefused(claims: seq<Member>, digest: Value, depth: nat, d: DigestMap, seen: set<string>)
    requires DigestProper(digest, d) && (NameOf(digest, d).Some? ==> !HasKey(claims, NameOf(digest, d).value))
    ensures Excused(UnpackMemberDigest(claims, digest, depth, d, seen), DigestWrong(digest, depth + 1, d))
    decreases Levels(depth), 1, 0
  {
    if digest.s in d {
      ValueRefused(d[digest.s].items[2], depth, d, seen + {digest.s});
    }
  }

  /**
   For any value and digest map, cyclic ones included: unpacking succeeds exactly when no digest is met twice and every
   value that is visited is proper and, if it is a container, within 128 levels.
   */
  lemma UnpackedExactly(v: Value, d: DigestMap)
    ensures UnpackValue(v, 0, d, {}).Success? <==>
      && NoDup(Encounters.Met(v, 0, d))
      && forall chain :: Way(chain, d) && chain[0] == v ==> ProperAt(chain[|chain| - 1], |chain|, d)
  {
    Encounters.UnpackTells(v, 0, d, {});
    ValueRefused(v, 0, d, {});
    if UnpackValue(v, 0, d, {}).Success? {
      forall chain | Way(chain, d) && chain[0] == v ensures ProperAt(chain[|chain| - 1], |chain|, d) {
        VisitedIsProper(chain, 0, d);
      }
    } else if NoDup(Encounters.Met(v, 0, d)) {
      var chain :| Leaves(v, chain, 1, d);
    }
  }

  /** The whole check, for any payload and any presented disclosures, in terms of what the verifier visits and meets. */
  lemma AcceptedExactly(payload: seq<Member>, disclosed: DigestMap, digests: seq<string>, inputCount: nat)
    ensures ExtractClaims(payload, disclosed, digests, inputCount).Success? <==>
      && AlgorithmInOrder(payload) && |digests| == inputCount
      && NoDup(Encounters.Met(Object(payload), 0, disclosed))
      && (forall x :: x in digests ==> x in Encounters.Met(Object(payload), 0, disclosed))
      && forall chain :: Way(chain, disclosed) && chain[0] == Object(payload) ==> ProperAt(chain[|chain| - 1], |chain|, disclosed)
  {
    ExtractedExactly(payload, disclosed, digests, inputCount);
    UnpackedExactly(Object(payload), disclosed);
    Encounters.UnpackTells(Object(payload), 0, disclosed, {});
  }
}
