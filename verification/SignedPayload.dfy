/**
 The signed payload reads like the payload of the credential tree: `_sd_alg`, which the issuer adds and the verifier
 passes over, makes no difference.
 */
module SignedPayload {
  import opened ClaimTree
  import opened Issuance
  import opened Json
  import opened JsonFacts
  import opened Reconstruction
  import opened Sequences
  import UnboundedUnpacking
  import opened Unpacking
  import opened Wrappers

  // Values without hidden parts

  ghost predicate CleanMembers(ms: seq<Member>) {
    DistinctKeys(ms) && MembersFreeOfReserved(ms) && UnboundedUnpacking.WellKeyedMembers(ms)
  }

  ghost predicate Clean(v: Value) {
    FreeOfReserved(v) && UnboundedUnpacking.WellKeyed(v)
  }

  lemma {:induction false} MemberIsFree(ms: seq<Member>, i: nat)
    requires MembersFreeOfReserved(ms) && i < |ms|
    ensures ms[i].key != SD_DIGESTS_KEY && ms[i].key != SD_LIST_PREFIX && FreeOfReserved(ms[i].value)
  {
    var n := |ms| - 1;
    if i < n {
      MemberIsFree(ms[..n], i);
    }
  }

  lemma {:induction false} PlainHidesNothing(v: Value, c: Codec)
    ensures var t := Plain(v); Claims(t) == v && Tags(t, c) == [] && Issues(t, c) == [] && HiddenTags(t, c) == {}
    decreases v, 1
  {
    match v
    case Array(items) => PlainItemsHideNothing(items, c);
    case Object(members) =>
      PlainMembersHideNothing(members, c);
      DictHidesNothing(PlainEntries(members), c);
    case _ =>
  }

  lemma DictHidesNothing(es: seq<Entry>, c: Codec)
    requires EntryTags(es, true, c) == [] && EntryIssues(es, true, c) == [] && EntryHiddenTags(es, true, c) == {}
    ensures var t := Dict(es, []); Tags(t, c) == [] && Issues(t, c) == [] && HiddenTags(t, c) == {}
  {
    assert DecoyDigests([], c) == [];
  }

  lemma {:induction false} PlainItemsHideNothing(items: seq<Value>, c: Codec)
    ensures var es := PlainItems(items);
      && ClaimItems(es) == items
      && EntryTags(es, false, c) == [] && EntryIssues(es, false, c) == [] && EntryHiddenTags(es, false, c) == {}
    decreases items, 0
  {
    if items != [] {
      var n := |items| - 1;
      PlainItemsHideNothing(items[..n], c);
      PlainHidesNothing(items[n], c);
      Snoc(PlainItems(items[..n]), Entry("", Plain(items[n]), None));
      assert items == items[..n] + [items[n]];
    }
  }

  lemma {:induction false} PlainMembersHideNothing(ms: seq<Member>, c: Codec)
    ensures var es := PlainEntries(ms);
      && ClaimMembers(es) == ms && OwnDigests(es, true, c) == []
      && EntryTags(es, true, c) == [] && EntryIssues(es, true, c) == [] && EntryHiddenTags(es, true, c) == {}
    decreases ms, 0
  {
    if ms != [] {
      var n := |ms| - 1;
      PlainMembersHideNothing(ms[..n], c);
      PlainHidesNothing(ms[n].value, c);
      Snoc(PlainEntries(ms[..n]), Entry(ms[n].key, Plain(ms[n].value), None));
      assert ms == ms[..n] + [ms[n]];
    }
  }

  lemma {:induction false} PlainValue(v: Value, c: Codec)
    requires Clean(v)
    ensures WellFormed(Plain(v)) && Payload(Plain(v), c) == v
    decreases v, 1
  {
    match v
    case Array(items) => PlainItemsFacts(items, c);
    case Object(members) =>
      PlainMembersFacts(members, c);
      PlainMembersHideNothing(members, c);
      SealedMembers(PlainEntries(members), [], c);
      assert OwnDigests(PlainEntries(members), true, c) + DecoyDigests([], c) == [];
      assert [] + members == members;
    case _ =>
  }

  lemma CleanItemsSplit(items: seq<Value>)
    requires Clean(Array(items)) && items != []
    ensures Clean(Array(items[..|items| - 1])) && Clean(items[|items| - 1])
  {
    var n := |items| - 1;
    assert ItemsFreeOfReserved(items) && UnboundedUnpacking.WellKeyedItems(items);
    assert ItemsFreeOfReserved(items[..n]) && UnboundedUnpacking.WellKeyed(items[n]);
    forall i | 0 <= i < n ensures UnboundedUnpacking.WellKeyed(items[..n][i]) {
      assert items[..n][i] == items[i];
    }
  }

  lemma CleanMembersSplit(ms: seq<Member>)
    requires CleanMembers(ms) && ms != []
    ensures CleanMembers(ms[..|ms| - 1]) && Clean(ms[|ms| - 1].value)
  {
    var n := |ms| - 1;
    forall i | 0 <= i < n ensures UnboundedUnpacking.WellKeyed(ms[..n][i].value) {
      assert ms[..n][i] == ms[i];
    }
  }

  lemma {:induction false} PlainItemsFacts(items: seq<Value>, c: Codec)
    requires Clean(Array(items))
    ensures WellFormedEntries(PlainItems(items)) && ListPayload(PlainItems(items), c) == items
    decreases items, 0
  {
    if items != [] {
      var n := |items| - 1;
      CleanItemsSplit(items);
      PlainItemsFacts(items[..n], c);
      PlainValue(items[n], c);
      Snoc(PlainItems(items[..n]), Entry("", Plain(items[n]), None));
      assert items == items[..n] + [items[n]];
    }
  }

  lemma {:induction false} PlainMembersFacts(ms: seq<Member>, c: Codec)
    requires CleanMembers(ms)
    ensures DistinctEntries(PlainEntries(ms)) && WellFormedEntries(PlainEntries(ms)) && PlainMembers(PlainEntries(ms), c) == ms
    decreases ms, 0
  {
    if ms != [] {
      var n := |ms| - 1;
      CleanMembersSplit(ms);
      PlainMembersFacts(ms[..n], c);
      PlainValue(ms[n].value, c);
      var es, e := PlainEntries(ms[..n]), Entry(ms[n].key, Plain(ms[n].value), None);
      Snoc(es, e);
      assert ms == ms[..n] + [ms[n]];
      PlainKeys(ms[..n]);
      forall i | 0 <= i < |es| ensures es[i].key != e.key {
        assert ms[..n][i] == ms[i];
      }
      DistinctSnoc(es, e);
    }
  }

  lemma DistinctSnoc(es: seq<Entry>, e: Entry)
    requires DistinctEntries(es) && e.key != SD_DIGESTS_KEY && e.key != SD_LIST_PREFIX
    requires forall i :: 0 <= i < |es| ==> es[i].key != e.key
    ensures DistinctEntries(es + [e])
  {
  }

  // Entries appended to an object

  lemma AppendFront<T>(a: seq<T>, b: seq<T>)
    requires b != []
    ensures (a + b)[..|a + b| - 1] == a + b[..|b| - 1] && (a + b)[|a + b| - 1] == b[|b| - 1]
  {
  }

  lemma {:induction false} AppendTags(es: seq<Entry>, xs: seq<Entry>, c: Codec)
    ensures EntryTags(es + xs, true, c) == EntryTags(es, true, c) + EntryTags(xs, true, c)
  {
    if xs == [] {
      assert es + xs == es;
    } else {
      AppendFront(es, xs);
      AppendTags(es, xs[..|xs| - 1], c);
    }
  }

  lemma {:induction false} AppendIssues(es: seq<Entry>, xs: seq<Entry>, c: Codec)
    ensures EntryIssues(es + xs, true, c) == EntryIssues(es, true, c) + EntryIssues(xs, true, c)
  {
    if xs == [] {
      assert es + xs == es;
    } else {
      AppendFront(es, xs);
      AppendIssues(es, xs[..|xs| - 1], c);
    }
  }

  lemma {:induction false} AppendOwnDigests(es: seq<Entry>, xs: seq<Entry>, c: Codec)
    ensures OwnDigests(es + xs, true, c) == OwnDigests(es, true, c) + OwnDigests(xs, true, c)
  {
    if xs == [] {
      assert es + xs == es;
    } else {
      AppendFront(es, xs);
      AppendOwnDigests(es, xs[..|xs| - 1], c);
    }
  }

  lemma {:induction false} AppendMembers(es: seq<Entry>, xs: seq<Entry>, c: Codec)
    ensures PlainMembers(es + xs, c) == PlainMembers(es, c) + PlainMembers(xs, c)
    ensures ClaimMembers(es + xs) == ClaimMembers(es) + ClaimMembers(xs)
    ensures WellFormedEntries(es + xs) <==> WellFormedEntries(es) && WellFormedEntries(xs)
  {
    if xs == [] {
      assert es + xs == es;
    } else {
      AppendFront(es, xs);
      AppendMembers(es, xs[..|xs| - 1], c);
    }
  }

  // Passing over `_sd` and `_sd_alg`

  function Ordinary(ms: seq<Member>): seq<Member> {
    if ms == [] then []
    else
      var n := |ms| - 1;
      var r := Ordinary(ms[..n]);
      if IsStructural(ms[n].key) then r else r + [ms[n]]
  }

  lemma {:induction false} OnlyOrdinaryMatters(ms: seq<Member>, depth: nat, d: DigestMap, seen: set<string>)
    ensures UnpackMembers(ms, depth, d, seen) == UnpackMembers(Ordinary(ms), depth, d, seen)
  {
    if ms != [] {
      var n := |ms| - 1;
      OnlyOrdinaryMatters(ms[..n], depth, d, seen);
      Snoc(Ordinary(ms[..n]), ms[n]);
    }
  }

  lemma {:induction false} OrdinaryAppend(a: seq<Member>, b: seq<Member>)
    ensures Ordinary(a + b) == Ordinary(a) + Ordinary(b)
  {
    if b == [] {
      assert a + b == a;
    } else {
      assert (a + b)[..|a + b| - 1] == a + b[..|b| - 1];
      OrdinaryAppend(a, b[..|b| - 1]);
    }
  }

  lemma {:induction false} OrdinaryReplace(ms: seq<Member>, key: string, v: Value)
    requires IsStructural(key)
    ensures Ordinary(Replace(ms, key, v)) == Ordinary(ms)
  {
    if ms != [] {
      var n := |ms| - 1;
      OrdinaryReplace(ms[..n], key, v);
      assert Replace(ms, key, v)[..n] == Replace(ms[..n], key, v);
    }
  }

  lemma OrdinaryPut(ms: seq<Member>, key: string, v: Value)
    requires IsStructural(key)
    ensures Ordinary(Put(ms, key, v)) == Ordinary(ms)
  {
    if HasKey(ms, key) {
      OrdinaryReplace(ms, key, v);
    } else {
      OrdinaryAppend(ms, [Member(key, v)]);
      assert [Member(key, v)][..0] == [];
    }
  }

  lemma ReadsAlike(a: seq<Member>, b: seq<Member>, d: DigestMap)
    requires Ordinary(a) == Ordinary(b) && Find(a, SD_DIGESTS_KEY) == Find(b, SD_DIGESTS_KEY)
    ensures UnpackValue(Object(a), 0, d, {}) == UnpackValue(Object(b), 0, d, {})
  {
    OnlyOrdinaryMatters(a, 1, d, {});
    OnlyOrdinaryMatters(b, 1, d, {});
    assert UnpackMembers(a, 1, d, {}) == UnpackMembers(b, 1, d, {});
    assert UnpackObject(a, 1, d, {}) == UnpackObject(b, 1, d, {});
  }

  // The payload

  lemma {:induction false} PutAllFresh(ms: seq<Member>, more: seq<Member>)
    requires DistinctKeys(more) && forall m :: m in more ==> !HasKey(ms, m.key)
    ensures PutAll(ms, more) == ms + more
  {
    if more != [] {
      var n := |more| - 1;
      PutAllFresh(ms, more[..n]);
      assert more == more[..n] + [more[n]];
      assert more[n] in more;
      forall i | 0 <= i < |ms + more[..n]| ensures (ms + more[..n])[i].key != more[n].key {}
    }
  }

  /** The signed payload of an object tree, with members added. */
  function Signed(es: seq<Entry>, decoys: seq<string>, added: seq<Member>, c: Codec): seq<Member> {
    PutAll(Put(Payload(Dict(es, decoys), c).members, DIGEST_ALG_KEY, Str(DEFAULT_DIGEST_ALG)), added)
  }

  ghost predicate Addable(es: seq<Entry>, added: seq<Member>) {
    && DistinctEntries(es) && WellFormedEntries(es) && CleanMembers(added)
    && forall m :: m in added ==> m.key != DIGEST_ALG_KEY && forall e :: e in es ==> e.key != m.key
  }

  lemma SignedShape(es: seq<Entry>, decoys: seq<string>, added: seq<Member>, c: Codec)
    requires Addable(es, added)
    ensures var base := Payload(Dict(es, decoys), c).members;
      Signed(es, decoys, added, c) == Put(base, DIGEST_ALG_KEY, Str(DEFAULT_DIGEST_ALG)) + added
  {
    var digests := OwnDigests(es, true, c) + DecoyDigests(decoys, c);
    var base := Payload(Dict(es, decoys), c).members;
    var payload := Put(base, DIGEST_ALG_KEY, Str(DEFAULT_DIGEST_ALG));
    SealedMembers(es, digests, c);
    PlainMembersKeys(es, c);
    forall m | m in added ensures !HasKey(payload, m.key) {
      var k :| 0 <= k < |added| && added[k] == m;
      MemberIsFree(added, k);
      forall i | 0 <= i < |payload| ensures payload[i].key != m.key {
        if payload[i].key != DIGEST_ALG_KEY {
          assert payload[i] in base;
          if payload[i] in PlainMembers(es, c) {
            var j :| 0 <= j < |es| && es[j].salt.None? && es[j].key == payload[i].key;
            assert es[j] in es;
          }
        }
      }
    }
    PutAllFresh(payload, added);
  }

  lemma TreePayload(es: seq<Entry>, decoys: seq<string>, added: seq<Member>, c: Codec)
    requires Addable(es, added)
    ensures DistinctEntries(es + PlainEntries(added)) && WellFormedEntries(es + PlainEntries(added))
    ensures Payload(Dict(es + PlainEntries(added), decoys), c).members == Payload(Dict(es, decoys), c).members + added
  {
    var xs := PlainEntries(added);
    PlainMembersFacts(added, c);
    PlainMembersHideNothing(added, c);
    AppendOwnDigests(es, xs, c);
    AppendMembers(es, xs, c);
    DistinctTogether(es, added);
    assert OwnDigests(es, true, c) + [] == OwnDigests(es, true, c);
    SealedTogether(es, xs, added, OwnDigests(es, true, c) + DecoyDigests(decoys, c), c);
  }

  lemma SealedTogether(es: seq<Entry>, xs: seq<Entry>, added: seq<Member>, digests: seq<string>, c: Codec)
    requires DistinctEntries(es) && DistinctEntries(es + xs) && PlainMembers(es + xs, c) == PlainMembers(es, c) + added
    ensures Seal(VisibleMembers(es + xs, c), digests) == Seal(VisibleMembers(es, c), digests) + added
  {
    SealedMembers(es, digests, c);
    SealedMembers(es + xs, digests, c);
    var sd := if digests == [] then [] else [Member(SD_DIGESTS_KEY, Array(Strings(Sort(digests))))];
    ConcatAssociates(sd, PlainMembers(es, c), added);
  }

  lemma ConcatAssociates<T>(a: seq<T>, b: seq<T>, c: seq<T>)
    ensures (a + b) + c == a + (b + c)
  {
  }

  lemma DistinctTogether(es: seq<Entry>, added: seq<Member>)
    requires Addable(es, added)
    ensures DistinctEntries(es + PlainEntries(added))
  {
    var xs := PlainEntries(added);
    PlainKeys(added);
    forall i | 0 <= i < |added| ensures xs[i].key != SD_DIGESTS_KEY && xs[i].key != SD_LIST_PREFIX {
      MemberIsFree(added, i);
    }
    forall i, j | 0 <= i < |es| && 0 <= j < |xs| ensures es[i].key != xs[j].key {
      assert added[j] in added && es[i] in es;
    }
  }

  lemma {:induction false} PlainKeys(ms: seq<Member>)
    ensures |PlainEntries(ms)| == |ms| && forall i :: 0 <= i < |ms| ==> PlainEntries(ms)[i].key == ms[i].key
  {
    if ms != [] {
      PlainKeys(ms[..|ms| - 1]);
    }
  }

  /** Unpacking the signed payload is unpacking the payload of the tree with the added members. */
  lemma SignedReadsAsTree(es: seq<Entry>, decoys: seq<string>, added: seq<Member>, c: Codec, d: DigestMap)
    requires Addable(es, added)
    ensures UnpackValue(Object(Signed(es, decoys, added, c)), 0, d, {})
      == UnpackValue(Payload(Dict(es + PlainEntries(added), decoys), c), 0, d, {})
  {
    var base := Payload(Dict(es, decoys), c).members;
    var alg := Str(DEFAULT_DIGEST_ALG);
    SignedShape(es, decoys, added, c);
    TreePayload(es, decoys, added, c);
    OrdinaryPut(base, DIGEST_ALG_KEY, alg);
    OrdinaryAppend(Put(base, DIGEST_ALG_KEY, alg), added);
    OrdinaryAppend(base, added);
    FindAppend(Put(base, DIGEST_ALG_KEY, alg), added, SD_DIGESTS_KEY);
    FindAppend(base, added, SD_DIGESTS_KEY);
    PutFind(base, DIGEST_ALG_KEY, alg, SD_DIGESTS_KEY);
    ReadsAlike(Signed(es, decoys, added, c), base + added, d);
  }

  // The checks on `_sd_alg`

  lemma {:induction false} AlgFreePayload(t: Tree, c: Codec, held: set<string>)
    requires WellFormed(t) && AlgFree(t, c, held)
    ensures FreeOfSdAlg(Payload(t, c))
    decreases t, 1
  {
    match t
    case Leaf(_) =>
    case List(es) => AlgFreeItems(es, c, held);
    case Dict(es, decoys) =>
      AlgFreeMembers(es, c, held);
      SealedFree(es, OwnDigests(es, true, c) + DecoyDigests(decoys, c), c);
  }

  ghost predicate FreeMember(m: Member) {
    m.key != DIGEST_ALG_KEY && FreeOfSdAlg(m.value)
  }

  lemma FreeObject(ms: seq<Member>)
    ensures FreeOfSdAlg(Object(ms)) <==> forall m :: m in ms ==> FreeMember(m)
  {
    if FreeOfSdAlg(Object(ms)) {
      forall m | m in ms ensures FreeMember(m) {
        var i :| 0 <= i < |ms| && ms[i] == m;
        assert FreeOfSdAlg(ms[i].value) && ms[i].key != DIGEST_ALG_KEY;
      }
    }
    if forall m :: m in ms ==> FreeMember(m) {
      forall i | 0 <= i < |ms| ensures ms[i].key != DIGEST_ALG_KEY && FreeOfSdAlg(ms[i].value) {
        assert FreeMember(ms[i]);
      }
    }
  }

  lemma SealedFree(es: seq<Entry>, digests: seq<string>, c: Codec)
    requires DistinctEntries(es) && forall m :: m in PlainMembers(es, c) ==> FreeMember(m)
    ensures FreeOfSdAlg(Object(Seal(VisibleMembers(es, c), digests)))
  {
    SealedMembers(es, digests, c);
    var strings := Strings(Sort(digests));
    assert forall i :: 0 <= i < |strings| ==> FreeOfSdAlg(strings[i]);
    assert FreeMember(Member(SD_DIGESTS_KEY, Array(strings)));
    FreeObject(Seal(VisibleMembers(es, c), digests));
  }

  lemma {:induction false} AlgFreeItems(es: seq<Entry>, c: Codec, held: set<string>)
    requires WellFormedEntries(es) && AlgFreeEntries(es, false, c, held)
    ensures forall i :: 0 <= i < |es| ==> FreeOfSdAlg(ListPayload(es, c)[i])
    decreases es, 0
  {
    if es != [] {
      var n := |es| - 1;
      AlgFreeItems(es[..n], c, held);
      if es[n].salt.None? {
        AlgFreePayload(es[n].value, c, held);
      }
    }
  }

  lemma {:induction false} AlgFreeMembers(es: seq<Entry>, c: Codec, held: set<string>)
    requires WellFormedEntries(es) && AlgFreeEntries(es, true, c, held)
    ensures forall m :: m in PlainMembers(es, c) ==> FreeMember(m)
    decreases es, 0
  {
    if es != [] {
      var n := |es| - 1;
      AlgFreeMembers(es[..n], c, held);
      if es[n].salt.None? {
        AlgFreePayload(es[n].value, c, held);
      }
    }
  }

  lemma PutMembers(ms: seq<Member>, key: string, v: Value)
    ensures forall m :: m in Put(ms, key, v) ==> m in ms || m.key == key
  {
  }

  lemma SignedPassesAlgChecks(es: seq<Entry>, decoys: seq<string>, added: seq<Member>, c: Codec, held: set<string>)
    requires Addable(es, added)
    ensures Find(Signed(es, decoys, added, c), DIGEST_ALG_KEY) == Some(Str(DEFAULT_DIGEST_ALG))
    ensures AlgFree(Dict(es + PlainEntries(added), decoys), c, held) ==>
      forall m :: m in Signed(es, decoys, added, c) && m.key != DIGEST_ALG_KEY ==> FreeMember(m)
  {
    var base := Payload(Dict(es, decoys), c).members;
    var alg := Str(DEFAULT_DIGEST_ALG);
    SignedShape(es, decoys, added, c);
    TreePayload(es, decoys, added, c);
    FindAppend(Put(base, DIGEST_ALG_KEY, alg), added, DIGEST_ALG_KEY);
    PutFind(base, DIGEST_ALG_KEY, alg, DIGEST_ALG_KEY);
    if AlgFree(Dict(es + PlainEntries(added), decoys), c, held) {
      AlgFreePayload(Dict(es + PlainEntries(added), decoys), c, held);
      FreeObject(base + added);
      PutMembers(base, DIGEST_ALG_KEY, alg);
    }
  }
}
