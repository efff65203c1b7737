/**
 What a request means on the claim tree itself, without digests: which disclosures it asks for, and in which order.
 The holder's walk over the signed claims computes exactly this.
 */
module Choosing {
  import opened ClaimTree
  import opened Holding
  import opened Issuance
  import opened Json
  import opened JsonFacts
  import opened Preprocessing
  import opened Reconstruction
  import opened Sequences
  import opened Unpacking
  import opened Wrappers

  function Named(es: seq<Entry>, key: string): (r: Option<Entry>)
    ensures r.Some? ==> r.value in es && r.value.key == key
  {
    if es == [] then None
    else
      var n := |es| - 1;
      if es[n].key == key then Some(es[n]) else Named(es[..n], key)
  }

  function AllDigests(es: seq<Entry>, decoys: seq<string>, c: Codec): seq<string> {
    OwnDigests(es, true, c) + DecoyDigests(decoys, c)
  }

  /** Member names of a signed object that are no claims. */
  function Structural(es: seq<Entry>, decoys: seq<string>, withAlg: bool, c: Codec): set<string> {
    (if AllDigests(es, decoys, c) == [] then {} else {SD_DIGESTS_KEY}) + (if withAlg then {DIGEST_ALG_KEY} else {})
  }

  function Choose(es: seq<Entry>, structural: set<string>, request: seq<Member>, c: Codec): Result<seq<Issued>, SelectError>
    decreases request, 0
  {
    if request == [] then Success([])
    else
      var n := |request| - 1;
      var r :- Choose(es, structural, request[..n], c);
      var more :- ChooseClaim(es, structural, request[n].key, request[n].value, c);
      Success(r + more)
  }

  function ChooseClaim(es: seq<Entry>, structural: set<string>, key: string, v: Value, c: Codec): Result<seq<Issued>, SelectError>
    decreases v, 3
  {
    if Withheld(v) then Success([])
    else if key == DIGEST_ALG_KEY && key in structural then ChooseShadowed(es, v, c)
    else
      var e := Named(es, key);
      if e.Some? then
        var nested :- ChooseBelow(e.value, v, c);
        Success(if e.value.salt.Some? then nested + [IssuedOf(e.value, true, c)] else nested)
      else if v.Object? && v.members != [] then Failure(AbsentKey)
      else if key in structural then Success([])
      else Failure(ClaimDoesNotExist)
  }

  /**
   A claim called `_sd_alg` stands behind the payload's own member of that name: it is never chosen itself, but if it is
   hidden, what the request names inside it is.
   */
  function ChooseShadowed(es: seq<Entry>, v: Value, c: Codec): Result<seq<Issued>, SelectError>
    decreases v, 2
  {
    var e := Named(es, DIGEST_ALG_KEY);
    if e.Some? && e.value.salt.Some? then ChooseBelow(e.value, v, c)
    else if v.Object? && v.members != [] then Failure(AbsentKey)
    else Success([])
  }

  function ChooseBelow(e: Entry, v: Value, c: Codec): Result<seq<Issued>, SelectError>
    decreases v, 1
  {
    match v
    case Array(requests) => if e.value.List? then ChooseItems(e.value.entries, requests, c) else Success([])
    case Object(request) =>
      if request == [] then Success([])
      else if e.value.Dict? then Choose(e.value.entries, Structural(e.value.entries, e.value.decoys, false, c), request, c)
      else Failure(if e.salt.Some? then NotAnObject else AbsentKey)
    case _ => Success([])
  }

  function ChooseItems(es: seq<Entry>, requests: seq<Value>, c: Codec): Result<seq<Issued>, SelectError>
    decreases requests, 0
  {
    if requests == [] then Success([])
    else
      var n := |requests| - 1;
      var r :- ChooseItems(es, requests[..n], c);
      if n >= |es| then Success(r)
      else
        var more :- ChooseItem(es[n], requests[n], c);
        Success(r + more)
  }

  function ChooseItem(e: Entry, v: Value, c: Codec): Result<seq<Issued>, SelectError>
    decreases v, 2
  {
    if e.salt.Some? && v == Bool(true) then Success([IssuedOf(e, false, c)])
    else if Opens(e.value, v) then
      var nested :- ChooseInside(e.value, v, c);
      Success(if e.salt.Some? then [IssuedOf(e, false, c)] + nested else nested)
    else Success([])
  }

  /** An array is asked for by an array and an object by an object. */
  predicate Opens(t: Tree, v: Value) {
    (t.List? && v.Array?) || (t.Dict? && v.Object?)
  }

  function ChooseInside(t: Tree, v: Value, c: Codec): Result<seq<Issued>, SelectError>
    requires Opens(t, v)
    decreases v, 1
  {
    match t
    case List(es) => ChooseItems(es, v.items, c)
    case Dict(es, decoys) => Choose(es, Structural(es, decoys, false, c), v.members, c)
  }

  // The holder's mappings against the tree

  /** The holder has every disclosure of the tree, and nothing under the digest of a decoy. */
  ghost predicate Equipped(t: Tree, c: Codec, m: Mappings) {
    match t
    case Leaf(_) => true
    case List(es) => EquippedEntries(es, false, c, m)
    case Dict(es, decoys) => EquippedEntries(es, true, c, m) && forall d :: d in DecoyDigests(decoys, c) ==> d !in m.decoded
  }

  ghost predicate EquippedEntries(es: seq<Entry>, inDict: bool, c: Codec, m: Mappings) {
    es == [] || (var n := |es| - 1; EquippedEntries(es[..n], inDict, c, m) && EquippedEntry(es[n], inDict, c, m))
  }

  ghost predicate EquippedEntry(e: Entry, inDict: bool, c: Codec, m: Mappings) {
    Equipped(e.value, c, m) && (e.salt.Some? ==> Holds(e, inDict, c, m))
  }

  ghost predicate Holds(e: Entry, inDict: bool, c: Codec, m: Mappings)
    requires e.salt.Some?
  {
    var d := Digest(e, inDict, c);
    && d in m.decoded && m.decoded[d] == ClaimTree.Disclosure(e, inDict, c)
    && d in m.encoded && m.encoded[d] == Raw(e, inDict, c)
  }

  /** `ms` is the signed object of these entries, with `_sd_alg` in front of everything at the top level. */
  ghost predicate Shows(ms: seq<Member>, es: seq<Entry>, decoys: seq<string>, withAlg: bool, c: Codec) {
    forall k :: Find(ms, k) == if withAlg && k == DIGEST_ALG_KEY then Some(Str(DEFAULT_DIGEST_ALG))
                               else Find(Payload(Dict(es, decoys), c).members, k)
  }

  lemma {:induction false} FindVisible(es: seq<Entry>, key: string, c: Codec)
    requires DistinctEntries(es)
    ensures Find(PlainMembers(es, c), key) ==
      match Named(es, key) case Some(e) => (if e.salt.None? then Some(Payload(e.value, c)) else None) case None => None
  {
    if es != [] {
      var n := |es| - 1;
      FindVisible(es[..n], key, c);
      if es[n].key == key {
        PlainMembersKeys(es[..n], c);
        FindAbsent(PlainMembers(es[..n], c), key);
      }
      if es[n].salt.None? {
        Snoc(PlainMembers(es[..n], c), Member(es[n].key, Payload(es[n].value, c)));
      }
    }
  }

  /** What looking a name up in a signed object gives. */
  ghost function Lookup(es: seq<Entry>, decoys: seq<string>, withAlg: bool, key: string, c: Codec): Option<Value> {
    if withAlg && key == DIGEST_ALG_KEY then Some(Str(DEFAULT_DIGEST_ALG))
    else if key == SD_DIGESTS_KEY then
      if AllDigests(es, decoys, c) == [] then None else Some(Array(Strings(Sort(AllDigests(es, decoys, c)))))
    else
      match Named(es, key)
      case Some(e) => if e.salt.None? then Some(Payload(e.value, c)) else None
      case None => None
  }

  lemma LookupShown(ms: seq<Member>, es: seq<Entry>, decoys: seq<string>, withAlg: bool, key: string, c: Codec)
    requires DistinctEntries(es) && Shows(ms, es, decoys, withAlg, c)
    ensures Find(ms, key) == Lookup(es, decoys, withAlg, key, c)
  {
    var digests := AllDigests(es, decoys, c);
    var plain := PlainMembers(es, c);
    var head := if digests == [] then [] else [Member(SD_DIGESTS_KEY, Array(Strings(Sort(digests))))];
    SealedMembers(es, digests, c);
    FindVisible(es, key, c);
    if key == SD_DIGESTS_KEY {
      FindAbsent(plain, key);
      if head == [] {
        assert head + plain == plain;
      } else {
        FindHead(key, head[0].value, plain);
      }
    } else {
      FindAppend(head, plain, key);
      assert head != [] ==> head[..0] == [];
    }
  }

  /** Exactly the digest of the hidden entry of that name leads to a disclosure naming the claim. */
  lemma {:induction false} NamesOwn(es: seq<Entry>, key: string, x: string, m: Mappings, c: Codec)
    requires DistinctEntries(es) && EquippedEntries(es, true, c, m) && x in OwnDigests(es, true, c)
    ensures x in m.decoded
    ensures Names(Str(x), key, m) <==> (var e := Named(es, key); e.Some? && e.value.salt.Some? && Digest(e.value, true, c) == x)
  {
    var n := |es| - 1;
    var e := es[n];
    if e.salt.Some? && Digest(e, true, c) == x {
      assert m.decoded[x] == ClaimTree.Disclosure(e, true, c);
      if e.key != key {
        OtherName(es[..n], key, x, m, c);
      }
    } else {
      NamesOwn(es[..n], key, x, m, c);
      if e.key == key {
        assert EquippedEntry(e, true, c, m);
        NoSuchName(es[..n], key);
      }
    }
  }

  lemma {:induction false} NoSuchName(es: seq<Entry>, key: string)
    requires forall i :: 0 <= i < |es| ==> es[i].key != key
    ensures Named(es, key) == None
  {
  }

  lemma {:induction false} OtherName(es: seq<Entry>, key: string, x: string, m: Mappings, c: Codec)
    requires DistinctEntries(es) && EquippedEntries(es, true, c, m) && x in m.decoded && At(m.decoded[x], 1) != Str(key)
    ensures var e := Named(es, key); e.Some? && e.value.salt.Some? ==> Digest(e.value, true, c) != x
  {
    if es != [] {
      var n := |es| - 1;
      OtherName(es[..n], key, x, m, c);
      if es[n].key == key && es[n].salt.Some? {
        assert Holds(es[n], true, c, m);
      }
    }
  }

  lemma {:induction false} OnlyNaming(order: seq<string>, key: string, m: Mappings, x: Option<string>)
    requires forall y :: y in order ==> (Names(Str(y), key, m) <==> x == Some(y))
    ensures LastNaming(Strings(order), key, m) == if x.Some? && x.value in order then x else None
  {
    if order != [] {
      var n := |order| - 1;
      assert Strings(order)[..n] == Strings(order[..n]);
      OnlyNaming(order[..n], key, m, x);
      assert order[n] in order;
    }
  }

  lemma {:induction false} OwnDigestIn(es: seq<Entry>, key: string, c: Codec)
    ensures var e := Named(es, key); e.Some? && e.value.salt.Some? ==> Digest(e.value, true, c) in OwnDigests(es, true, c)
  {
    if es != [] {
      var n := |es| - 1;
      OwnDigestIn(es[..n], key, c);
      if es[n].salt.Some? {
        var own := OwnDigests(es, true, c);
        assert own[|own| - 1] == Digest(es[n], true, c);
      }
    }
  }

  /** The digest of the hidden claim of that name, if there is one. */
  ghost function OwnDigest(es: seq<Entry>, key: string, c: Codec): Option<string> {
    match Named(es, key)
    case Some(e) => if e.salt.Some? then Some(Digest(e, true, c)) else None
    case None => None
  }

  lemma DigestFound(ms: seq<Member>, es: seq<Entry>, decoys: seq<string>, withAlg: bool, key: string, m: Mappings, c: Codec)
    requires DistinctEntries(es) && Shows(ms, es, decoys, withAlg, c) && Equipped(Dict(es, decoys), c, m)
    ensures HiddenDigest(ms, key, m) == OwnDigest(es, key, c)
  {
    var own, digests := OwnDigests(es, true, c), AllDigests(es, decoys, c);
    LookupShown(ms, es, decoys, withAlg, SD_DIGESTS_KEY, c);
    OwnDigestIn(es, key, c);
    forall y | y in Sort(digests) ensures Names(Str(y), key, m) <==> OwnDigest(es, key, c) == Some(y) {
      assert y in multiset(digests);
      if y in own {
        NamesOwn(es, key, y, m, c);
      } else {
        assert y in DecoyDigests(decoys, c);
      }
    }
    OnlyNaming(Sort(digests), key, m, OwnDigest(es, key, c));
    if OwnDigest(es, key, c).Some? {
      assert OwnDigest(es, key, c).value in digests;
      assert OwnDigest(es, key, c).value in multiset(Sort(digests));
    }
  }

  // The walk over the signed claims is the choice on the tree

  ghost function Texts(r: Result<seq<Issued>, SelectError>): Result<seq<string>, SelectError> {
    match r
    case Success(ds) => Success(Raws(ds))
    case Failure(e) => Failure(e)
  }

  lemma RawsConcat(a: seq<Issued>, b: seq<Issued>)
    ensures Raws(a + b) == Raws(a) + Raws(b)
  {
  }

  lemma {:induction false} EntryAt(es: seq<Entry>, e: Entry, inDict: bool, c: Codec, m: Mappings)
    requires EquippedEntries(es, inDict, c, m) && WellFormedEntries(es) && e in es
    ensures EquippedEntry(e, inDict, c, m) && WellFormed(e.value)
  {
    var n := |es| - 1;
    if e != es[n] {
      EntryAt(es[..n], e, inDict, c, m);
    }
  }

  /** The signed form of a nested object shows its entries. */
  lemma ShowsItself(t: Tree, c: Codec)
    requires t.Dict?
    ensures Payload(t, c).Object? && Shows(Payload(t, c).members, t.entries, t.decoys, false, c)
  {
  }

  lemma {:induction false} SelectChooses(
      ms: seq<Member>, es: seq<Entry>, decoys: seq<string>, withAlg: bool, request: seq<Member>, m: Mappings, c: Codec)
    requires WellFormed(Dict(es, decoys)) && Shows(ms, es, decoys, withAlg, c) && Equipped(Dict(es, decoys), c, m)
    ensures Select(ms, request, m) == Texts(Choose(es, Structural(es, decoys, withAlg, c), request, c))
    decreases request, 0
  {
    if request != [] {
      var n := |request| - 1;
      SelectChooses(ms, es, decoys, withAlg, request[..n], m, c);
      SelectClaimChooses(ms, es, decoys, withAlg, request[n].key, request[n].value, m, c);
      var r, more := Choose(es, Structural(es, decoys, withAlg, c), request[..n], c),
        ChooseClaim(es, Structural(es, decoys, withAlg, c), request[n].key, request[n].value, c);
      if r.Success? && more.Success? {
        RawsConcat(r.value, more.value);
      }
    }
  }

  lemma {:induction false} SelectClaimChooses(
      ms: seq<Member>, es: seq<Entry>, decoys: seq<string>, withAlg: bool, key: string, v: Value, m: Mappings, c: Codec)
    requires WellFormed(Dict(es, decoys)) && Shows(ms, es, decoys, withAlg, c) && Equipped(Dict(es, decoys), c, m)
    ensures SelectClaim(ms, key, v, m) == Texts(ChooseClaim(es, Structural(es, decoys, withAlg, c), key, v, c))
    decreases v, 3
  {
    LookupShown(ms, es, decoys, withAlg, key, c);
    DigestFound(ms, es, decoys, withAlg, key, m, c);
    var e := Named(es, key);
    if withAlg && key == DIGEST_ALG_KEY {
      if e.Some? && e.value.salt.Some? {
        EntryAt(es, e.value, true, c, m);
        SelectNestedChooses(ms, es, decoys, withAlg, e.value, v, m, c);
      } else {
        NotNestedIn(ms, key, v, m, []);
      }
      ShadowedClaim(ms, es, Structural(es, decoys, withAlg, c), v, m, c);
    } else if e.Some? {
      assert key != SD_DIGESTS_KEY;
      EntryAt(es, e.value, true, c, m);
      SelectNestedChooses(ms, es, decoys, withAlg, e.value, v, m, c);
      NamedClaim(ms, es, Structural(es, decoys, withAlg, c), e.value, v, m, c);
    } else {
      NothingNested(ms, es, decoys, withAlg, key, v, m, c);
      StructuralKeys(ms, es, decoys, withAlg, key, c);
      UnnamedClaim(ms, es, Structural(es, decoys, withAlg, c), key, v, m, c);
    }
  }

  lemma ShadowedClaim(ms: seq<Member>, es: seq<Entry>, structural: set<string>, v: Value, m: Mappings, c: Codec)
    requires DIGEST_ALG_KEY in structural && HasKey(ms, DIGEST_ALG_KEY)
    requires SelectNested(ms, DIGEST_ALG_KEY, v, m) == Texts(ChooseShadowed(es, v, c))
    ensures SelectClaim(ms, DIGEST_ALG_KEY, v, m) == Texts(ChooseClaim(es, structural, DIGEST_ALG_KEY, v, c))
  {
    assert Raws([]) == [];
  }

  lemma UnnamedClaim(
      ms: seq<Member>, es: seq<Entry>, structural: set<string>, key: string, v: Value, m: Mappings, c: Codec)
    requires Named(es, key).None? && HiddenDigest(ms, key, m) == None && (HasKey(ms, key) <==> key in structural)
    requires !(key == DIGEST_ALG_KEY && key in structural)
    requires SelectNested(ms, key, v, m) == if v.Object? && v.members != [] then Failure(AbsentKey) else Success([])
    ensures SelectClaim(ms, key, v, m) == Texts(ChooseClaim(es, structural, key, v, c))
  {
    assert Raws([]) == [];
  }

  lemma StructuralKeys(ms: seq<Member>, es: seq<Entry>, decoys: seq<string>, withAlg: bool, key: string, c: Codec)
    requires Named(es, key).None? && Find(ms, key) == Lookup(es, decoys, withAlg, key, c)
    ensures HasKey(ms, key) <==> key in Structural(es, decoys, withAlg, c)
  {
  }

  lemma NamedClaim(ms: seq<Member>, es: seq<Entry>, structural: set<string>, e: Entry, v: Value, m: Mappings, c: Codec)
    requires Named(es, e.key) == Some(e) && EquippedEntry(e, true, c, m) && !(e.key == DIGEST_ALG_KEY && e.key in structural)
    requires Find(ms, e.key) == if e.salt.None? then Some(Payload(e.value, c)) else None
    requires HiddenDigest(ms, e.key, m) == if e.salt.Some? then Some(Digest(e, true, c)) else None
    requires SelectNested(ms, e.key, v, m) == Texts(ChooseBelow(e, v, c))
    ensures SelectClaim(ms, e.key, v, m) == Texts(ChooseClaim(es, structural, e.key, v, c))
  {
    OwnAfterNested(ChooseBelow(e, v, c), e, c);
  }

  lemma OwnAfterNested(nested: Result<seq<Issued>, SelectError>, e: Entry, c: Codec)
    ensures e.salt.Some? && nested.Success? ==> Raws(nested.value + [IssuedOf(e, true, c)]) == Raws(nested.value) + [Raw(e, true, c)]
  {
  }

  /** A name that is no claim: nothing is nested below it. */
  lemma NothingNested(
      ms: seq<Member>, es: seq<Entry>, decoys: seq<string>, withAlg: bool, key: string, v: Value, m: Mappings, c: Codec)
    requires Named(es, key).None?
    requires Find(ms, key) == Lookup(es, decoys, withAlg, key, c) && HiddenDigest(ms, key, m) == None
    ensures SelectNested(ms, key, v, m) == if v.Object? && v.members != [] then Failure(AbsentKey) else Success([])
  {
    var visible := Find(ms, key);
    if visible.Some? && visible.value.Array? {
      assert visible.value.items == Strings(Sort(AllDigests(es, decoys, c)));
    }
    NotNestedIn(ms, key, v, m, Sort(AllDigests(es, decoys, c)));
  }

  lemma NotNestedIn(ms: seq<Member>, key: string, v: Value, m: Mappings, digests: seq<string>)
    requires HiddenDigest(ms, key, m) == None
    requires var visible := Find(ms, key);
      visible.Some? ==> !visible.value.Object? && (visible.value.Array? ==> visible.value.items == Strings(digests))
    ensures SelectNested(ms, key, v, m) == if v.Object? && v.members != [] then Failure(AbsentKey) else Success([])
  {
    if v.Array? {
      NothingInStrings(digests, v.items, m);
    }
  }

  lemma {:induction false} NothingInStrings(digests: seq<string>, requests: seq<Value>, m: Mappings)
    ensures SelectItems(Strings(digests), requests, m) == Success([])
  {
    if requests != [] {
      var n := |requests| - 1;
      NothingInStrings(digests, requests[..n], m);
      if n < |digests| {
        assert SelectItem(Strings(digests)[n], requests[n], m) == Success([]);
        var none: seq<string> := [];
        assert none + none == none;
      }
    }
  }

  lemma {:induction false} SelectNestedChooses(
      ms: seq<Member>, es: seq<Entry>, decoys: seq<string>, withAlg: bool, e: Entry, v: Value, m: Mappings, c: Codec)
    requires var visible := Find(ms, e.key);
      if e.salt.None? then visible == Some(Payload(e.value, c)) else visible.Some? ==> IsScalar(visible.value)
    requires HiddenDigest(ms, e.key, m) == if e.salt.Some? then Some(Digest(e, true, c)) else None
    requires WellFormed(e.value) && EquippedEntry(e, true, c, m)
    ensures SelectNested(ms, e.key, v, m) == Texts(ChooseBelow(e, v, c))
    decreases v, 2
  {
    var t := e.value;
    if e.salt.Some? {
      assert At(m.decoded[Digest(e, true, c)], 2) == Payload(t, c);
    }
    match v
    case Array(requests) =>
      if t.List? {
        SelectItemsChoose(t.entries, requests, m, c);
      }
    case Object(request) =>
      if t.Dict? {
        ShowsItself(t, c);
        SelectChooses(Payload(t, c).members, t.entries, t.decoys, false, request, m, c);
      }
    case _ =>
  }

  lemma {:induction false} SelectItemsChoose(es: seq<Entry>, requests: seq<Value>, m: Mappings, c: Codec)
    requires WellFormedEntries(es) && EquippedEntries(es, false, c, m)
    ensures SelectItems(ListPayload(es, c), requests, m) == Texts(ChooseItems(es, requests, c))
    decreases requests, 0
  {
    if requests != [] {
      var n := |requests| - 1;
      SelectItemsChoose(es, requests[..n], m, c);
      if n < |es| {
        ListPayloadAt(es, n, c);
        EntryAt(es, es[n], false, c, m);
        SelectItemChooses(es[n], requests[n], m, c);
        var r, more := ChooseItems(es, requests[..n], c), ChooseItem(es[n], requests[n], c);
        if r.Success? && more.Success? {
          RawsConcat(r.value, more.value);
        }
      }
    }
  }

  lemma {:induction false} ListPayloadAt(es: seq<Entry>, i: nat, c: Codec)
    requires i < |es|
    ensures ListPayload(es, c)[i] == ItemPayloadOf(es[i], c)
  {
    if i < |es| - 1 {
      ListPayloadAt(es[..|es| - 1], i, c);
    }
  }

  ghost function ItemPayloadOf(e: Entry, c: Codec): Value {
    if e.salt.Some? then Placeholder(Digest(e, false, c)) else Payload(e.value, c)
  }

  lemma {:induction false} SelectItemChooses(e: Entry, v: Value, m: Mappings, c: Codec)
    requires WellFormed(e.value) && EquippedEntry(e, false, c, m)
    ensures SelectItem(ItemPayloadOf(e, c), v, m) == Texts(ChooseItem(e, v, c))
    decreases v, 3
  {
    if e.salt.Some? {
      PlaceholderFound(Digest(e, false, c));
      HiddenItemChooses(e, v, m, c);
    } else {
      if e.value.Dict? {
        ShowsItself(e.value, c);
        assert Shows(Payload(e.value, c).members, e.value.entries, e.value.decoys, false, c);
        LookupShown(Payload(e.value, c).members, e.value.entries, e.value.decoys, false, SD_LIST_PREFIX, c);
        assert Named(e.value.entries, SD_LIST_PREFIX) == None;
      }
      if Opens(e.value, v) {
        InsideChooses(e.value, v, m, c);
      }
    }
  }

  lemma PlaceholderFound(digest: string)
    ensures Placeholder(digest).Object? && Find(Placeholder(digest).members, SD_LIST_PREFIX) == Some(Str(digest))
  {
  }

  lemma {:induction false} HiddenItemChooses(e: Entry, v: Value, m: Mappings, c: Codec)
    requires e.salt.Some? && WellFormed(e.value) && EquippedEntry(e, false, c, m)
    ensures SelectHidden(Digest(e, false, c), v, m) == Texts(ChooseItem(e, v, c))
    decreases v, 2
  {
    var own := IssuedOf(e, false, c);
    assert At(m.decoded[own.hash], 1) == Payload(e.value, c);
    assert Raws([own]) == [own.raw];
    if Opens(e.value, v) {
      InsideChooses(e.value, v, m, c);
      var nested := ChooseInside(e.value, v, c);
      if nested.Success? {
        RawsConcat([own], nested.value);
      }
    }
  }

  lemma {:induction false} InsideChooses(t: Tree, v: Value, m: Mappings, c: Codec)
    requires Opens(t, v) && WellFormed(t) && Equipped(t, c, m)
    ensures t.List? ==> SelectItems(ListPayload(t.entries, c), v.items, m) == Texts(ChooseInside(t, v, c))
    ensures t.Dict? ==> Select(Payload(t, c).members, v.members, m) == Texts(ChooseInside(t, v, c))
    decreases v, 1
  {
    match t
    case List(es) => SelectItemsChoose(es, v.items, m, c);
    case Dict(es, decoys) =>
      ShowsItself(t, c);
      SelectChooses(Payload(t, c).members, es, decoys, false, v.members, m, c);
  }
}
