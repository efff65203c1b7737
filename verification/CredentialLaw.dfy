/**
 Hide, then reveal: what the verifier makes of an issued credential presented with any of its disclosures.
 The digests of the credential are taken to be distinct and its disclosures to decode to what was encoded.
 */
module CredentialLaw {
  import opened Acceptance
  import opened Assembly
  import opened ClaimTree
  import opened Issuance
  import opened Json
  import opened JsonFacts
  import opened Plan
  import Preprocessing
  import opened Reconstruction
  import opened Registry
  import opened Sequences
  import opened SerialIssuance
  import opened SignedPayload
  import opened Strategy
  import UnboundedUnpacking
  import opened Unpacking
  import opened Wrappers

  /** Every disclosure of the tree decodes to what was encoded. */
  ghost predicate Faithful(t: Tree, c: Codec) {
    match t
    case Leaf(_) => true
    case List(es) => FaithfulEntries(es, false, c)
    case Dict(es, _) => FaithfulEntries(es, true, c)
  }

  ghost predicate FaithfulEntries(es: seq<Entry>, inDict: bool, c: Codec) {
    es == [] || (var n := |es| - 1; FaithfulEntries(es[..n], inDict, c) && FaithfulEntry(es[n], inDict, c))
  }

  ghost predicate FaithfulEntry(e: Entry, inDict: bool, c: Codec) {
    && Faithful(e.value, c)
    && (e.salt.Some? ==> c.decode(Raw(e, inDict, c)) == Some(Disclosure(e, inDict, c)))
  }

  // Tags are the digests of disclosures and of decoys

  ghost function Hashes(ds: seq<Issued>): seq<string> {
    seq(|ds|, i requires 0 <= i < |ds| => ds[i].hash)
  }

  lemma HashesConcat(a: seq<Issued>, b: seq<Issued>)
    ensures Hashes(a + b) == Hashes(a) + Hashes(b)
  {
  }

  ghost function DecoyTags(t: Tree, c: Codec): seq<string> {
    match t
    case Leaf(_) => []
    case List(es) => EntryDecoyTags(es, c)
    case Dict(es, decoys) => EntryDecoyTags(es, c) + DecoyDigests(decoys, c)
  }

  ghost function EntryDecoyTags(es: seq<Entry>, c: Codec): seq<string> {
    if es == [] then []
    else
      var n := |es| - 1;
      EntryDecoyTags(es[..n], c) + DecoyTags(es[n].value, c)
  }

  lemma {:induction false} TagsSplit(t: Tree, c: Codec)
    ensures multiset(Tags(t, c)) == multiset(Hashes(Issues(t, c))) + multiset(DecoyTags(t, c))
    decreases t, 1
  {
    match t
    case Leaf(_) =>
    case List(es) => EntryTagsSplit(es, false, c);
    case Dict(es, decoys) => EntryTagsSplit(es, true, c);
  }

  lemma {:induction false} EntryTagsSplit(es: seq<Entry>, inDict: bool, c: Codec)
    ensures multiset(EntryTags(es, inDict, c)) == multiset(Hashes(EntryIssues(es, inDict, c))) + multiset(EntryDecoyTags(es, c))
    decreases es, 0
  {
    if es != [] {
      var n := |es| - 1;
      EntryTagsSplit(es[..n], inDict, c);
      OneTagSplit(es[n], inDict, c);
      HashesConcat(EntryIssues(es[..n], inDict, c), IssuesOf(es[n], inDict, c));
    }
  }

  lemma {:induction false} OneTagSplit(e: Entry, inDict: bool, c: Codec)
    ensures multiset(TagsOf(e, inDict, c)) == multiset(Hashes(IssuesOf(e, inDict, c))) + multiset(DecoyTags(e.value, c))
    decreases e, 2
  {
    TagsSplit(e.value, c);
    if e.salt.Some? {
      var d := IssuedOf(e, inDict, c);
      HashesConcat(Issues(e.value, c), [d]);
      assert Hashes([d]) == [d.hash];
    }
  }

  lemma {:induction false} HiddenAreIssued(t: Tree, c: Codec)
    ensures HiddenTags(t, c) == Elements(Hashes(Issues(t, c)))
    decreases t, 1
  {
    match t
    case Leaf(_) =>
    case List(es) => EntryHiddenAreIssued(es, false, c);
    case Dict(es, decoys) => EntryHiddenAreIssued(es, true, c);
  }

  lemma {:induction false} EntryHiddenAreIssued(es: seq<Entry>, inDict: bool, c: Codec)
    ensures EntryHiddenTags(es, inDict, c) == Elements(Hashes(EntryIssues(es, inDict, c)))
    decreases es, 0
  {
    if es != [] {
      var n := |es| - 1;
      EntryHiddenAreIssued(es[..n], inDict, c);
      OneHiddenIsIssued(es[n], inDict, c);
      HashesConcat(EntryIssues(es[..n], inDict, c), IssuesOf(es[n], inDict, c));
      ElementsConcat(Hashes(EntryIssues(es[..n], inDict, c)), Hashes(IssuesOf(es[n], inDict, c)));
      assert EntryHiddenTags(es, inDict, c) == EntryHiddenTags(es[..n], inDict, c) + HiddenOf(es[n], inDict, c);
    }
  }

  lemma {:induction false} OneHiddenIsIssued(e: Entry, inDict: bool, c: Codec)
    ensures HiddenOf(e, inDict, c) == Elements(Hashes(IssuesOf(e, inDict, c)))
    decreases e, 2
  {
    HiddenAreIssued(e.value, c);
    if e.salt.Some? {
      var d := IssuedOf(e, inDict, c);
      HashesConcat(Issues(e.value, c), [d]);
      assert Hashes([d]) == [d.hash];
      ElementsConcat(Hashes(Issues(e.value, c)), [d.hash]);
      assert Elements([d.hash]) == {d.hash};
    }
  }

  lemma ElementsConcat(a: seq<string>, b: seq<string>)
    ensures Elements(a + b) == Elements(a) + Elements(b)
  {
  }

  /** Each issued digest is the hash of its disclosure's text. */
  lemma {:induction false} IssuesHashed(t: Tree, c: Codec)
    ensures forall d :: d in Issues(t, c) ==> d.hash == c.hash(d.raw)
    decreases t, 1
  {
    match t
    case Leaf(_) =>
    case List(es) => EntryIssuesHashed(es, false, c);
    case Dict(es, _) => EntryIssuesHashed(es, true, c);
  }

  lemma {:induction false} EntryIssuesHashed(es: seq<Entry>, inDict: bool, c: Codec)
    ensures forall d :: d in EntryIssues(es, inDict, c) ==> d.hash == c.hash(d.raw)
    decreases es, 0
  {
    if es != [] {
      var n := |es| - 1;
      EntryIssuesHashed(es[..n], inDict, c);
      IssuesHashed(es[n].value, c);
    }
  }

  /** Distinct tags: a digest determines its disclosure, and is no decoy's. */
  ghost predicate Unambiguous(ds: seq<Issued>, decoys: seq<string>) {
    && (forall i, j :: 0 <= i < |ds| && 0 <= j < |ds| && ds[i].hash == ds[j].hash ==> i == j)
    && (forall i :: 0 <= i < |ds| ==> ds[i].hash !in decoys)
  }

  lemma TagsUnambiguous(t: Tree, c: Codec)
    requires NoDup(Tags(t, c))
    ensures Unambiguous(Issues(t, c), DecoyTags(t, c))
  {
    var ds, hashes, decoys := Issues(t, c), Hashes(Issues(t, c)), DecoyTags(t, c);
    TagsSplit(t, c);
    NoDupPermutation(Tags(t, c), hashes + decoys);
    NoDupConcat(hashes, decoys);
    forall i, j | 0 <= i < j < |ds| ensures ds[i].hash != ds[j].hash {
      assert hashes[i] != hashes[j];
    }
    forall i | 0 <= i < |ds| ensures ds[i].hash !in decoys {
      assert hashes[i] in hashes;
    }
  }

  // Binding the presented disclosures

  /** The map holds, for the digests it has, what the disclosures decode to. */
  ghost predicate Presents(disclosed: DigestMap, ds: seq<Issued>, c: Codec) {
    forall d :: d in ds && d.hash in disclosed ==> c.decode(d.raw) == Some(disclosed[d.hash])
  }

  lemma {:induction false} PresentedIsBound(t: Tree, ds: seq<Issued>, disclosed: DigestMap, c: Codec)
    requires Faithful(t, c) && Presents(disclosed, ds, c)
    requires (forall d :: d in Issues(t, c) ==> d in ds) && forall x :: x in DecoyTags(t, c) ==> x !in disclosed
    ensures Bound(t, c, disclosed)
    decreases t, 1
  {
    match t
    case Leaf(_) =>
    case List(es) => PresentedEntriesBound(es, false, ds, disclosed, c);
    case Dict(es, decoys) =>
      var ts := DecoyDigests(decoys, c);
      assert forall x :: x in EntryDecoyTags(es, c) || x in ts ==> x in DecoyTags(t, c);
      PresentedEntriesBound(es, true, ds, disclosed, c);
  }

  lemma {:induction false} PresentedEntriesBound(es: seq<Entry>, inDict: bool, ds: seq<Issued>, disclosed: DigestMap, c: Codec)
    requires FaithfulEntries(es, inDict, c) && Presents(disclosed, ds, c)
    requires (forall d :: d in EntryIssues(es, inDict, c) ==> d in ds) && forall x :: x in EntryDecoyTags(es, c) ==> x !in disclosed
    ensures BoundEntries(es, inDict, c, disclosed)
    decreases es, 0
  {
    if es != [] {
      var n := |es| - 1;
      var e := es[n];
      var issues, tags := IssuesOf(e, inDict, c), DecoyTags(e.value, c);
      assert forall d :: d in EntryIssues(es[..n], inDict, c) || d in issues ==> d in EntryIssues(es, inDict, c);
      assert forall x :: x in EntryDecoyTags(es[..n], c) || x in tags ==> x in EntryDecoyTags(es, c);
      PresentedEntriesBound(es[..n], inDict, ds, disclosed, c);
      assert forall d :: d in Issues(e.value, c) ==> d in issues;
      PresentedIsBound(e.value, ds, disclosed, c);
      if e.salt.Some? {
        assert issues[|issues| - 1] == IssuedOf(e, inDict, c);
      }
    }
  }

  function PresentedMap(presented: seq<string>, c: Codec): DigestMap
    requires Decodable(presented, c)
  {
    if presented == [] then map[]
    else
      var n := |presented| - 1;
      PresentedMap(presented[..n], c)[c.hash(presented[n]) := c.decode(presented[n]).value]
  }

  ghost function HashAll(presented: seq<string>, c: Codec): seq<string> {
    seq(|presented|, i requires 0 <= i < |presented| => c.hash(presented[i]))
  }

  ghost predicate DistinctHashes(presented: seq<string>, c: Codec) {
    forall i, j :: 0 <= i < j < |presented| ==> c.hash(presented[i]) != c.hash(presented[j])
  }

  ghost predicate Decodable(presented: seq<string>, c: Codec) {
    forall p :: p in presented ==> c.decode(p).Some?
  }

  lemma FrontPresented(presented: seq<string>, c: Codec)
    requires presented != [] && Decodable(presented, c) && DistinctHashes(presented, c)
    ensures var front, p := presented[..|presented| - 1], presented[|presented| - 1];
      && Decodable(front, c) && DistinctHashes(front, c) && c.decode(p).Some?
      && HashAll(presented, c) == HashAll(front, c) + [c.hash(p)]
      && Elements(HashAll(presented, c)) == Elements(HashAll(front, c)) + {c.hash(p)}
      && c.hash(p) !in HashAll(front, c)
  {
    var n := |presented| - 1;
    var front, p := presented[..n], presented[n];
    assert p in presented;
    assert HashAll(presented, c) == HashAll(front, c) + [c.hash(p)];
    ElementsConcat(HashAll(front, c), [c.hash(p)]);
    assert Elements([c.hash(p)]) == {c.hash(p)};
    forall i | 0 <= i < n ensures HashAll(front, c)[i] != c.hash(p) {
      assert front[i] == presented[i];
    }
  }

  lemma {:induction false} PresentedMapFacts(presented: seq<string>, c: Codec)
    requires Decodable(presented, c) && DistinctHashes(presented, c)
    ensures PresentedMap(presented, c).Keys == Elements(HashAll(presented, c))
    ensures forall i :: 0 <= i < |presented| ==>
      c.hash(presented[i]) in PresentedMap(presented, c)
      && PresentedMap(presented, c)[c.hash(presented[i])] == c.decode(presented[i]).value
  {
    if presented != [] {
      var n := |presented| - 1;
      FrontPresented(presented, c);
      PresentedMapFacts(presented[..n], c);
      forall i | 0 <= i < n ensures c.hash(presented[i]) != c.hash(presented[n]) && presented[..n][i] == presented[i] {
      }
    }
  }

  /** Disclosures that decode and have distinct digests are all mapped. */
  lemma {:induction false} PreprocessPresented(presented: seq<string>, c: Codec)
    requires Decodable(presented, c) && DistinctHashes(presented, c)
    ensures var r := Preprocessing.PreprocessSerial(presented, Preprocessing.Worker(c));
      r.Success? && r.value.decoded == PresentedMap(presented, c) && r.value.digests == HashAll(presented, c)
  {
    if presented != [] {
      var n := |presented| - 1;
      FrontPresented(presented, c);
      PreprocessPresented(presented[..n], c);
      PresentedMapFacts(presented[..n], c);
      StepPresented(Preprocessing.PreprocessSerial(presented[..n], Preprocessing.Worker(c)).value, n, presented[n], c);
    }
  }

  lemma StepPresented(m: Preprocessing.Mappings, ordinal: nat, p: string, c: Codec)
    requires c.decode(p).Some? && c.hash(p) !in m.decoded
    ensures var r := Preprocessing.SerialStep(m, ordinal, p, Preprocessing.Worker(c));
      && r.Success? && r.value.decoded == m.decoded[c.hash(p) := c.decode(p).value]
      && r.value.digests == m.digests + [c.hash(p)]
  {
  }

  /** A list of different disclosures of `ds`. */
  ghost predicate Selection(presented: seq<string>, ds: seq<Issued>) {
    NoDup(presented) && forall p :: p in presented ==> exists d :: d in ds && d.raw == p
  }

  ghost function Held(presented: seq<string>, c: Codec): set<string> {
    Elements(HashAll(presented, c))
  }

  lemma {:induction false} FaithfulDecodes(t: Tree, c: Codec)
    requires Faithful(t, c)
    ensures forall d :: d in Issues(t, c) ==> c.decode(d.raw).Some?
    decreases t, 1
  {
    match t
    case Leaf(_) =>
    case List(es) => FaithfulEntriesDecode(es, false, c);
    case Dict(es, _) => FaithfulEntriesDecode(es, true, c);
  }

  lemma {:induction false} FaithfulEntriesDecode(es: seq<Entry>, inDict: bool, c: Codec)
    requires FaithfulEntries(es, inDict, c)
    ensures forall d :: d in EntryIssues(es, inDict, c) ==> c.decode(d.raw).Some?
    decreases es, 0
  {
    if es != [] {
      var n := |es| - 1;
      FaithfulEntriesDecode(es[..n], inDict, c);
      FaithfulDecodes(es[n].value, c);
    }
  }

  lemma HeldBy(presented: seq<string>, c: Codec, x: string)
    ensures x in Held(presented, c) <==> exists i :: 0 <= i < |presented| && c.hash(presented[i]) == x
  {
    if x in HashAll(presented, c) {
      var i :| 0 <= i < |presented| && HashAll(presented, c)[i] == x;
      assert c.hash(presented[i]) == x;
    }
    if i :| 0 <= i < |presented| && c.hash(presented[i]) == x {
      assert HashAll(presented, c)[i] == x;
    }
  }

  /** A held digest is that of exactly one of the disclosures, whose text was presented. */
  lemma HeldIssue(presented: seq<string>, ds: seq<Issued>, c: Codec, x: string)
    requires Selection(presented, ds) && (forall d :: d in ds ==> d.hash == c.hash(d.raw))
    requires x in Held(presented, c)
    ensures exists d :: d in ds && d.hash == x && d.raw in presented
  {
    HeldBy(presented, c, x);
    var i :| 0 <= i < |presented| && c.hash(presented[i]) == x;
    assert presented[i] in presented;
  }

  lemma SameHashSameIssue(ds: seq<Issued>, a: Issued, b: Issued)
    requires forall i, j :: 0 <= i < |ds| && 0 <= j < |ds| && ds[i].hash == ds[j].hash ==> i == j
    requires a in ds && b in ds && a.hash == b.hash
    ensures a == b
  {
  }

  lemma HashOfIssue(ds: seq<Issued>, d: Issued)
    requires d in ds
    ensures d.hash in Hashes(ds)
  {
    var k :| 0 <= k < |ds| && ds[k] == d;
    assert Hashes(ds)[k] == d.hash;
  }

  /** What preprocessing makes of a selection of a tree's disclosures. */
  lemma SelectionIsBound(t: Tree, presented: seq<string>, c: Codec)
    requires NoDup(Tags(t, c)) && Faithful(t, c) && Selection(presented, Issues(t, c))
    ensures var r := Preprocessing.PreprocessSerial(presented, Preprocessing.Worker(c));
      && r.Success? && r.value.digests == HashAll(presented, c) && r.value.decoded.Keys == Held(presented, c)
      && Bound(t, c, r.value.decoded) && Held(presented, c) <= HiddenTags(t, c)
  {
    var ds := Issues(t, c);
    TagsUnambiguous(t, c);
    IssuesHashed(t, c);
    FaithfulDecodes(t, c);
    SelectionHashes(presented, ds, c);
    PreprocessPresented(presented, c);
    PresentedMapFacts(presented, c);
    HiddenAreIssued(t, c);
    forall x | x in Held(presented, c) ensures x in HiddenTags(t, c) && x !in DecoyTags(t, c) {
      HeldIssue(presented, ds, c, x);
      var d :| d in ds && d.hash == x && d.raw in presented;
      HashOfIssue(ds, d);
    }
    SelectionPresents(presented, ds, c);
    PresentedIsBound(t, ds, PresentedMap(presented, c), c);
  }

  lemma SelectionPresents(presented: seq<string>, ds: seq<Issued>, c: Codec)
    requires Selection(presented, ds) && (forall d :: d in ds ==> d.hash == c.hash(d.raw) && c.decode(d.raw).Some?)
    requires forall i, j :: 0 <= i < |ds| && 0 <= j < |ds| && ds[i].hash == ds[j].hash ==> i == j
    requires DistinctHashes(presented, c)
    ensures Presents(PresentedMap(presented, c), ds, c)
  {
    PresentedMapFacts(presented, c);
    forall d | d in ds && d.hash in PresentedMap(presented, c)
      ensures c.decode(d.raw) == Some(PresentedMap(presented, c)[d.hash])
    {
      HeldIssue(presented, ds, c, d.hash);
      var d' :| d' in ds && d'.hash == d.hash && d'.raw in presented;
      SameHashSameIssue(ds, d, d');
      var i :| 0 <= i < |presented| && presented[i] == d.raw;
    }
  }

  lemma SelectionHashes(presented: seq<string>, ds: seq<Issued>, c: Codec)
    requires Selection(presented, ds) && (forall d :: d in ds ==> d.hash == c.hash(d.raw))
    requires forall i, j :: 0 <= i < |ds| && 0 <= j < |ds| && ds[i].hash == ds[j].hash ==> i == j
    ensures DistinctHashes(presented, c)
  {
    forall i, j | 0 <= i < j < |presented| ensures c.hash(presented[i]) != c.hash(presented[j]) {
      assert presented[i] in presented && presented[j] in presented && presented[i] != presented[j];
      var d :| d in ds && d.raw == presented[i];
      var e :| e in ds && e.raw == presented[j];
      var k :| 0 <= k < |ds| && ds[k] == d;
      var l :| 0 <= l < |ds| && ds[l] == e;
    }
  }

  // From claims to a well-formed tree

  lemma {:induction false} ChosenIsWellFormed(t: Tree, s: Strategy)
    requires Chosen(t, s) && Clean(Claims(t))
    ensures WellFormed(t)
    decreases t, 1
  {
    match t
    case Leaf(_) =>
    case List(es) => ItemsWellFormed(es, s);
    case Dict(es, _) => MembersWellFormed(es, s);
  }

  lemma {:induction false} ItemsWellFormed(es: seq<Entry>, s: Strategy)
    requires ItemsChosen(es, s) && Clean(Array(ClaimItems(es)))
    ensures WellFormedEntries(es)
    decreases es, 0
  {
    if es != [] {
      var n := |es| - 1;
      CleanItemsSplit(ClaimItems(es));
      assert ClaimItems(es)[..n] == ClaimItems(es[..n]);
      ItemsWellFormed(es[..n], s);
      ChosenIsWellFormed(es[n].value, NextLevel(s, IndexKey(n)));
    }
  }

  lemma {:induction false} MembersWellFormed(es: seq<Entry>, s: Strategy)
    requires MembersChosen(es, s) && CleanMembers(ClaimMembers(es))
    ensures DistinctEntries(es) && WellFormedEntries(es)
    decreases es, 0
  {
    if es != [] {
      var n := |es| - 1;
      var ms := ClaimMembers(es);
      CleanMembersSplit(ms);
      MemberIsFree(ms, n);
      assert ms[..n] == ClaimMembers(es[..n]);
      MembersWellFormed(es[..n], s);
      ChosenIsWellFormed(es[n].value, NextLevel(s, es[n].key));
      forall i | 0 <= i < n ensures es[i].key != es[n].key {
        assert ms[i].key != ms[n].key;
      }
      assert es == es[..n] + [es[n]];
      DistinctSnoc(es[..n], es[n]);
    }
  }

  lemma {:induction false} CleanSubset(ms: seq<Member>, more: seq<Member>)
    requires DistinctKeys(ms) && CleanMembers(more) && forall m :: m in ms ==> m in more
    ensures CleanMembers(ms)
  {
    if ms != [] {
      var n := |ms| - 1;
      CleanSubset(ms[..n], more);
      assert ms[n] in more;
      var k :| 0 <= k < |more| && more[k] == ms[n];
      MemberIsFree(more, k);
      forall i | 0 <= i < |ms| ensures UnboundedUnpacking.WellKeyed(ms[i].value) {
        assert ms[i] in more;
        var j :| 0 <= j < |more| && more[j] == ms[i];
        assert UnboundedUnpacking.WellKeyed(more[j].value);
      }
    }
  }

  lemma {:induction false} RemoveAllMembers(ms: seq<Member>, keys: seq<string>)
    requires DistinctKeys(ms)
    ensures DistinctKeys(RemoveAll(ms, keys))
    ensures forall m :: m in RemoveAll(ms, keys) <==> m in ms && m.key !in keys
  {
    if keys != [] {
      var n := |keys| - 1;
      RemoveAllMembers(ms, keys[..n]);
      RemoveMembers(RemoveAll(ms, keys[..n]), keys[n]);
      RemoveDistinct(RemoveAll(ms, keys[..n]), keys[n]);
      assert forall k :: k in keys <==> k in keys[..n] || k == keys[n];
    }
  }

  lemma {:induction false} RemoveAllAbsent(ms: seq<Member>, keys: seq<string>)
    requires forall k :: k in keys ==> !HasKey(ms, k)
    ensures RemoveAll(ms, keys) == ms
  {
    if keys != [] {
      var n := |keys| - 1;
      RemoveAllAbsent(ms, keys[..n]);
      RemoveAbsent(ms, keys[n]);
    }
  }

  lemma {:induction false} PickMembers(ms: seq<Member>, keys: seq<string>)
    requires DistinctKeys(ms) && NoDup(keys)
    ensures DistinctKeys(Pick(ms, keys))
    ensures forall m :: m in Pick(ms, keys) <==> m in ms && m.key in keys
  {
    if keys != [] {
      var n := |keys| - 1;
      PickMembers(ms, keys[..n]);
      var r := Pick(ms, keys[..n]);
      assert keys[n] !in keys[..n];
      assert forall k :: k in keys <==> k in keys[..n] || k == keys[n];
      forall i | 0 <= i < |r| ensures r[i].key != keys[n] {
        assert r[i] in r;
      }
      forall m | m in ms && m.key == keys[n] ensures Find(ms, keys[n]) == Some(m.value) {
        FindDistinct(ms, m);
      }
    }
  }

  // The credential

  /** What the issuer is given: an object with clean members, a clean holder key and a path list it accepts. */
  ghost predicate Issuable(claims: seq<Member>, strategy: Strategy, holderKey: Option<Value>) {
    && CleanMembers(claims) && (holderKey.Some? ==> Clean(holderKey.value))
    && Finalize(strategy).Success?
  }

  ghost function PlannedTree(claims: seq<Member>, strategy: Strategy, holderKey: Option<Value>, cfg: Config): Tree
    requires Issuable(claims, strategy, holderKey)
  {
    var plan := Create(Object(PlannedClaims(claims, holderKey)), Finalize(strategy).value, cfg);
    PlannedIssuance(Object(PlannedClaims(claims, holderKey)), Finalize(strategy).value, cfg, Codec(v => "", s => "", s => None));
    Resolve(plan.root, plan.jobs)
  }

  lemma CnfIsClean(key: Value)
    requires Clean(key)
    ensures var m := Member(CNF_KEY, Object([Member(JWK_KEY, key)])); CleanMembers([m])
  {
    var inner := [Member(JWK_KEY, key)];
    assert inner[..0] == [];
    assert MembersFreeOfReserved(inner);
    assert UnboundedUnpacking.WellKeyedMembers(inner);
    var outer := [Member(CNF_KEY, Object(inner))];
    assert outer[..0] == [];
    assert UnboundedUnpacking.WellKeyedMembers(outer);
  }

  lemma AppendClean(ms: seq<Member>, m: Member)
    requires CleanMembers(ms) && CleanMembers([m]) && forall i :: 0 <= i < |ms| ==> ms[i].key != m.key
    ensures CleanMembers(ms + [m])
  {
    Snoc(ms, m);
    MemberIsFree([m], 0);
    var one := [m];
    assert UnboundedUnpacking.WellKeyed(one[0].value);
  }

  /** The planned claims and the added members: clean, and with different names. */
  lemma SplitClaims(claims: seq<Member>, holderKey: Option<Value>)
    requires CleanMembers(claims) && (holderKey.Some? ==> Clean(holderKey.value))
    ensures CleanMembers(PlannedClaims(claims, holderKey)) && CleanMembers(AddedMembers(claims, holderKey))
    ensures forall m :: m in AddedMembers(claims, holderKey) ==>
      m.key != DIGEST_ALG_KEY && forall p :: p in PlannedClaims(claims, holderKey) ==> p.key != m.key
  {
    var kept := WithoutCnf(claims, holderKey);
    RemoveMembers(claims, CNF_KEY);
    RemoveDistinct(claims, CNF_KEY);
    assert NoDup(ALWAYS_REVEALED);
    RemoveAllMembers(kept, ALWAYS_REVEALED);
    PickMembers(kept, ALWAYS_REVEALED);
    var revealed := Pick(kept, ALWAYS_REVEALED);
    CleanSubset(PlannedClaims(claims, holderKey), claims);
    CleanSubset(revealed, claims);
    assert forall k :: k in ALWAYS_REVEALED <==> k == "iss" || k == "iat" || k == "exp";
    if holderKey.Some? {
      CnfIsClean(holderKey.value);
      forall i | 0 <= i < |revealed| ensures revealed[i].key != CNF_KEY {
        assert revealed[i] in revealed;
      }
      AppendClean(revealed, Member(CNF_KEY, Object([Member(JWK_KEY, holderKey.value)])));
    }
  }

  lemma IssueUnfolds(claims: seq<Member>, strategy: Strategy, holderKey: Option<Value>, cfg: Config, t: Tree, c: Codec)
    requires Issuable(claims, strategy, holderKey) && t.Dict?
    requires var plan := Create(Object(PlannedClaims(claims, holderKey)), Finalize(strategy).value, cfg);
      ExecuteSerial(plan, c) == Success(Assembled(Payload(t, c), Issues(t, c)))
    ensures Issue(Object(claims), strategy, holderKey, cfg, c)
      == Success(Credential(Signed(t.entries, t.decoys, AddedMembers(claims, holderKey), c), Raws(Issues(t, c))))
  {
    assert FreeOfReserved(Object(claims));
  }

  /** The issued credential is the signed payload of the planned tree, with its disclosures in nesting order. */
  lemma IssuedCredential(claims: seq<Member>, strategy: Strategy, holderKey: Option<Value>, cfg: Config, c: Codec)
    requires Issuable(claims, strategy, holderKey)
    ensures var t, added := PlannedTree(claims, strategy, holderKey, cfg), AddedMembers(claims, holderKey);
      && t.Dict? && Addable(t.entries, added)
      && Issue(Object(claims), strategy, holderKey, cfg, c)
           == Success(Credential(Signed(t.entries, t.decoys, added, c), Raws(Issues(t, c))))
      && ClaimMembers(t.entries) == PlannedClaims(claims, holderKey)
      && Chosen(t, Finalize(strategy).value)
  {
    var s, planned := Finalize(strategy).value, PlannedClaims(claims, holderKey);
    var t, added := PlannedTree(claims, strategy, holderKey, cfg), AddedMembers(claims, holderKey);
    PlannedIssuance(Object(planned), s, cfg, c);
    SplitClaims(claims, holderKey);
    ChosenIsWellFormed(t, s);
    assert t.Dict?;
    IssueUnfolds(claims, strategy, holderKey, cfg, t, c);
    forall m, e | m in added && e in t.entries ensures e.key != m.key {
      var i :| 0 <= i < |t.entries| && t.entries[i] == e;
      assert ClaimMembers(t.entries)[i] in planned;
    }
  }

  /** The tree the verifier is to read: the planned one with the added members visible. */
  ghost function WholeTree(claims: seq<Member>, strategy: Strategy, holderKey: Option<Value>, cfg: Config): Tree
    requires Issuable(claims, strategy, holderKey)
  {
    var t := PlannedTree(claims, strategy, holderKey, cfg);
    var added := PlainEntries(AddedMembers(claims, holderKey));
    if t.Dict? then Dict(t.entries + added, t.decoys) else t
  }

  lemma WholeTreeFacts(claims: seq<Member>, strategy: Strategy, holderKey: Option<Value>, cfg: Config, c: Codec)
    requires Issuable(claims, strategy, holderKey)
    ensures var t, w := PlannedTree(claims, strategy, holderKey, cfg), WholeTree(claims, strategy, holderKey, cfg);
      && t.Dict? && w == Dict(t.entries + PlainEntries(AddedMembers(claims, holderKey)), t.decoys)
      && WellFormed(w) && Issues(w, c) == Issues(t, c)
      && ClaimMembers(w.entries) == PlannedClaims(claims, holderKey) + AddedMembers(claims, holderKey)
  {
    var t, added := PlannedTree(claims, strategy, holderKey, cfg), AddedMembers(claims, holderKey);
    IssuedCredential(claims, strategy, holderKey, cfg, c);
    TreePayload(t.entries, t.decoys, added, c);
    PlainMembersHideNothing(added, c);
    AppendIssues(t.entries, PlainEntries(added), c);
    AppendMembers(t.entries, PlainEntries(added), c);
    assert Issues(t, c) + [] == Issues(t, c);
  }

  /** The claims the credential is about: the user's, with the holder key in place of any `cnf`. */
  function SubjectClaims(claims: seq<Member>, holderKey: Option<Value>): seq<Member> {
    var kept := WithoutCnf(claims, holderKey);
    if holderKey.Some? then kept + [Member(CNF_KEY, Object([Member(JWK_KEY, holderKey.value)]))] else kept
  }

  /** The whole tree is made from the subject's claims, up to the order of the top-level members. */
  lemma WholeTreeClaims(claims: seq<Member>, strategy: Strategy, holderKey: Option<Value>, cfg: Config)
    requires Issuable(claims, strategy, holderKey)
    ensures Denote(Claims(WholeTree(claims, strategy, holderKey, cfg))) == Denote(Object(SubjectClaims(claims, holderKey)))
  {
    WholeTreeFacts(claims, strategy, holderKey, cfg, Codec(v => "", s => "", s => None));
    SameSubject(claims, holderKey);
    MeaningIgnoresOrder(PlannedClaims(claims, holderKey) + AddedMembers(claims, holderKey), SubjectClaims(claims, holderKey));
  }

  lemma SameSubject(claims: seq<Member>, holderKey: Option<Value>)
    requires CleanMembers(claims) && (holderKey.Some? ==> Clean(holderKey.value))
    ensures var all := PlannedClaims(claims, holderKey) + AddedMembers(claims, holderKey);
      && DistinctKeys(all) && DistinctKeys(SubjectClaims(claims, holderKey))
      && forall m :: m in all <==> m in SubjectClaims(claims, holderKey)
  {
    var planned, added, kept := PlannedClaims(claims, holderKey), AddedMembers(claims, holderKey), WithoutCnf(claims, holderKey);
    SplitClaims(claims, holderKey);
    RemoveMembers(claims, CNF_KEY);
    RemoveDistinct(claims, CNF_KEY);
    assert NoDup(ALWAYS_REVEALED);
    RemoveAllMembers(kept, ALWAYS_REVEALED);
    PickMembers(kept, ALWAYS_REVEALED);
    DistinctConcat(planned, added);
    if holderKey.Some? {
      DistinctConcat(kept, [Member(CNF_KEY, Object([Member(JWK_KEY, holderKey.value)]))]);
    }
  }

  lemma DistinctConcat(a: seq<Member>, b: seq<Member>)
    requires DistinctKeys(a) && DistinctKeys(b) && forall m, m' :: m in a && m' in b ==> m.key != m'.key
    ensures DistinctKeys(a + b)
  {
    forall i, j | 0 <= i < |a| && 0 <= j < |b| ensures a[i].key != b[j].key {
      assert a[i] in a && b[j] in b;
    }
  }

  // The law

  /** Hypotheses about hashing and encoding: no two digests of the credential coincide, and disclosures decode. */
  ghost predicate SoundlyEncoded(t: Tree, c: Codec) {
    NoDup(Tags(t, c)) && Faithful(t, c)
  }

  lemma VerifySelection(es: seq<Entry>, decoys: seq<string>, added: seq<Member>, presented: seq<string>, c: Codec)
    requires Addable(es, added)
    requires var w := Dict(es + PlainEntries(added), decoys);
      SoundlyEncoded(w, c) && WellFormed(w) && Selection(presented, Issues(w, c))
    ensures var w := Dict(es + PlainEntries(added), decoys);
      Lawful(Verify(Signed(es, decoys, added, c), presented, c), w, c, Held(presented, c))
  {
    var w := Dict(es + PlainEntries(added), decoys);
    var signed, held := Signed(es, decoys, added, c), Held(presented, c);
    SelectionIsBound(w, presented, c);
    var m := Preprocessing.PreprocessSerial(presented, Preprocessing.Worker(c)).value;
    SignedReadsAsTree(es, decoys, added, c, m.decoded);
    SignedPassesAlgChecks(es, decoys, added, c, held);
    VerifyIsReading(signed, presented, c, m);
    ReadingIsLawful(w, c, m.decoded);
  }

  /** `r` is the pruned claims iff the selection fits and is closed; and where it fits, `r` succeeds iff it is closed. */
  ghost predicate Lawful<E>(r: Result<Value, E>, w: Tree, c: Codec, held: set<string>) {
    && ((r.Success? && Denote(r.value) == Denote(Prune(w, c, held, false))) <==> Fits(w, c, held) && ParentClosed(w, c, held))
    && (Fits(w, c, held) ==> (r.Success? <==> ParentClosed(w, c, held)))
  }

  /** Unpacking followed by the check that every disclosure was met. */
  ghost function Reading(payload: Value, d: DigestMap): Result<Value, Error> {
    var u := UnpackValue(payload, 0, d, {});
    if u.Failure? then Failure(u.error)
    else if d.Keys <= u.value.seen then Success(u.value.value)
    else Failure(UnreferencedDisclosure)
  }

  lemma ReadingIsLawful(w: Tree, c: Codec, d: DigestMap)
    requires WellFormed(w) && Bound(w, c, d) && NoDup(Tags(w, c)) && d.Keys <= HiddenTags(w, c)
    ensures Lawful(Reading(Payload(w, c), d), w, c, d.Keys)
  {
    ExactReading(w, c, d);
    UnpackTree(w, c, 0, d, {});
    if Fits(w, c, d.Keys) {
      DropMatters(w, c, d.Keys);
    }
  }

  /** With passing `_sd_alg` checks, the verifier reads; otherwise it rejects or reads. */
  lemma VerifyIsReading(signed: seq<Member>, presented: seq<string>, c: Codec, m: Preprocessing.Mappings)
    requires Preprocessing.PreprocessSerial(presented, Preprocessing.Worker(c)) == Success(m)
    requires m.digests == HashAll(presented, c) && m.decoded.Keys == Held(presented, c)
    requires Find(signed, DIGEST_ALG_KEY) == Some(Str(DEFAULT_DIGEST_ALG))
    ensures var r, u := Verify(signed, presented, c), Reading(Object(signed), m.decoded);
      && (r.Success? ==> u == Success(r.value))
      && ((forall x :: x in signed && x.key != DIGEST_ALG_KEY ==> FreeMember(x)) ==> (u.Success? <==> r.Success?))
  {
    var u := UnpackValue(Object(signed), 0, m.decoded, {});
    AllReferenced(presented, c, if u.Success? then u.value.seen else {});
    if forall x :: x in signed && x.key != DIGEST_ALG_KEY ==> FreeMember(x) {
      assert forall i :: 0 <= i < |signed| && signed[i].key != DIGEST_ALG_KEY ==> FreeMember(signed[i]);
    }
  }

  lemma AllReferenced(presented: seq<string>, c: Codec, seen: set<string>)
    ensures (forall i :: 0 <= i < |HashAll(presented, c)| ==> HashAll(presented, c)[i] in seen) <==> Held(presented, c) <= seen
  {
    if forall i :: 0 <= i < |HashAll(presented, c)| ==> HashAll(presented, c)[i] in seen {
      forall x | x in Held(presented, c) ensures x in seen {
        var i :| 0 <= i < |HashAll(presented, c)| && HashAll(presented, c)[i] == x;
      }
    }
    if Held(presented, c) <= seen {
      forall i | 0 <= i < |HashAll(presented, c)| ensures HashAll(presented, c)[i] in seen {
        assert HashAll(presented, c)[i] in Held(presented, c);
      }
    }
  }

  /**
   Hide, then reveal. Present any selection of an issued credential's disclosures, in any order: the verifier accepts
   and reads the claims without exactly the hidden entries that were not presented, if and only if the selection is
   parent-closed and what it shows fits the verifier (non-empty arrays, at most 128 levels, no visible `_sd_alg`).
   Where it fits, the verifier accepts exactly the parent-closed selections.
   */
  lemma HideThenReveal(
      claims: seq<Member>, strategy: Strategy, holderKey: Option<Value>, cfg: Config, c: Codec, presented: seq<string>)
    requires Issuable(claims, strategy, holderKey)
    requires var w := WholeTree(claims, strategy, holderKey, cfg); SoundlyEncoded(w, c) && Selection(presented, Issues(w, c))
    ensures var w, credential := WholeTree(claims, strategy, holderKey, cfg), Issue(Object(claims), strategy, holderKey, cfg, c);
      && credential.Success? && credential.value.disclosures == Raws(Issues(w, c))
      && Lawful(Verify(credential.value.payload, presented, c), w, c, Held(presented, c))
  {
    IssuedCredential(claims, strategy, holderKey, cfg, c);
    WholeTreeFacts(claims, strategy, holderKey, cfg, c);
    var t := PlannedTree(claims, strategy, holderKey, cfg);
    VerifySelection(t.entries, t.decoys, AddedMembers(claims, holderKey), presented, c);
  }

  // Showing everything

  lemma {:induction false} PruneNothing(t: Tree, c: Codec, held: set<string>)
    requires HiddenTags(t, c) <= held
    ensures Prune(t, c, held, false) == Claims(t)
    decreases t, 1
  {
    match t
    case Leaf(_) =>
    case List(es) => PruneNoItem(es, c, held);
    case Dict(es, _) => PruneNoMember(es, c, held);
  }

  lemma {:induction false} PruneNoItem(es: seq<Entry>, c: Codec, held: set<string>)
    requires EntryHiddenTags(es, false, c) <= held
    ensures PruneItems(es, c, held, false) == ClaimItems(es)
    decreases es, 0
  {
    if es != [] {
      var n := |es| - 1;
      PruneNoItem(es[..n], c, held);
      PruneNothing(es[n].value, c, held);
    }
  }

  lemma {:induction false} PruneNoMember(es: seq<Entry>, c: Codec, held: set<string>)
    requires EntryHiddenTags(es, true, c) <= held
    ensures PruneMembers(es, c, held, false) == ClaimMembers(es)
    decreases es, 0
  {
    if es != [] {
      var n := |es| - 1;
      PruneNoMember(es[..n], c, held);
      PruneNothing(es[n].value, c, held);
    }
  }

  lemma {:induction false} EdgesWithin(t: Tree, c: Codec, parent: Option<string>)
    ensures forall e :: e in Edges(t, c, parent) ==> e.1 == parent || (e.1.Some? && e.1.value in HiddenTags(t, c))
    decreases t, 1
  {
    match t
    case Leaf(_) =>
    case List(es) => EntryEdgesWithin(es, false, c, parent);
    case Dict(es, _) => EntryEdgesWithin(es, true, c, parent);
  }

  lemma {:induction false} EntryEdgesWithin(es: seq<Entry>, inDict: bool, c: Codec, parent: Option<string>)
    ensures forall e :: e in EntryEdges(es, inDict, c, parent) ==>
      e.1 == parent || (e.1.Some? && e.1.value in EntryHiddenTags(es, inDict, c))
    decreases es, 0
  {
    if es != [] {
      var n := |es| - 1;
      EntryEdgesWithin(es[..n], inDict, c, parent);
      EdgesWithin(es[n].value, c, if es[n].salt.Some? then Some(Digest(es[n], inDict, c)) else parent);
    }
  }

  /** Presenting all disclosures, in any order, gives back the subject's claims, exactly when the whole tree fits. */
  lemma ShowEverything(
      claims: seq<Member>, strategy: Strategy, holderKey: Option<Value>, cfg: Config, c: Codec, presented: seq<string>)
    requires Issuable(claims, strategy, holderKey)
    requires var w := WholeTree(claims, strategy, holderKey, cfg);
      SoundlyEncoded(w, c) && Selection(presented, Issues(w, c)) && HiddenTags(w, c) <= Held(presented, c)
    ensures var w, credential := WholeTree(claims, strategy, holderKey, cfg), Issue(Object(claims), strategy, holderKey, cfg, c);
      && credential.Success?
      && var r := Verify(credential.value.payload, presented, c);
      (r.Success? && Denote(r.value) == Denote(Object(SubjectClaims(claims, holderKey)))) <==> Fits(w, c, Held(presented, c))
  {
    var w, held := WholeTree(claims, strategy, holderKey, cfg), Held(presented, c);
    HideThenReveal(claims, strategy, holderKey, cfg, c, presented);
    WholeTreeClaims(claims, strategy, holderKey, cfg);
    PruneNothing(w, c, held);
    EdgesWithin(w, c, None);
  }

  // What fits

  /** Conditions on a value alone: no empty array, no `_sd_alg` member, at most `levels` levels of nesting. */
  predicate Fitting(v: Value, levels: nat) {
    match v
    case Array(items) => items != [] && levels > 0 && FittingItems(items, levels - 1)
    case Object(members) => levels > 0 && FittingMembers(members, levels - 1)
    case _ => true
  }

  predicate FittingItems(items: seq<Value>, levels: nat) {
    items == [] || (var n := |items| - 1; FittingItems(items[..n], levels) && Fitting(items[n], levels))
  }

  predicate FittingMembers(members: seq<Member>, levels: nat) {
    members == [] ||
    (var n := |members| - 1;
     FittingMembers(members[..n], levels) && members[n].key != DIGEST_ALG_KEY && Fitting(members[n].value, levels))
  }

  /** Fitting claims fit whatever is held of them, whichever way they were hidden. */
  lemma {:induction false} FittingFits(t: Tree, c: Codec, held: set<string>, depth: nat)
    requires depth <= MAX_PROCESSED_SD_JWT_DEPTH && Fitting(Claims(t), MAX_PROCESSED_SD_JWT_DEPTH - depth)
    ensures Shape(t, c, held, depth) && AlgFree(t, c, held)
    decreases t, 1
  {
    match t
    case Leaf(_) =>
    case List(es) => FittingItemsFit(es, c, held, depth + 1);
    case Dict(es, _) => FittingMembersFit(es, c, held, depth + 1);
  }

  lemma {:induction false} FittingItemsFit(es: seq<Entry>, c: Codec, held: set<string>, depth: nat)
    requires depth <= MAX_PROCESSED_SD_JWT_DEPTH && FittingItems(ClaimItems(es), MAX_PROCESSED_SD_JWT_DEPTH - depth)
    ensures ShapeEntries(es, false, c, held, depth) && AlgFreeEntries(es, false, c, held)
    decreases es, 0
  {
    if es != [] {
      var n := |es| - 1;
      assert ClaimItems(es)[..n] == ClaimItems(es[..n]);
      FittingItemsFit(es[..n], c, held, depth);
      FittingFits(es[n].value, c, held, depth);
    }
  }

  lemma {:induction false} FittingMembersFit(es: seq<Entry>, c: Codec, held: set<string>, depth: nat)
    requires depth <= MAX_PROCESSED_SD_JWT_DEPTH && FittingMembers(ClaimMembers(es), MAX_PROCESSED_SD_JWT_DEPTH - depth)
    ensures ShapeEntries(es, true, c, held, depth) && AlgFreeEntries(es, true, c, held)
    decreases es, 0
  {
    if es != [] {
      var n := |es| - 1;
      assert ClaimMembers(es)[..n] == ClaimMembers(es[..n]);
      FittingMembersFit(es[..n], c, held, depth);
      FittingFits(es[n].value, c, held, depth);
    }
  }

  /** For fitting claims the verifier accepts exactly the parent-closed selections, and reads what was not withheld. */
  lemma FittingClaimsAreRead(
      claims: seq<Member>, strategy: Strategy, holderKey: Option<Value>, cfg: Config, c: Codec, presented: seq<string>)
    requires Issuable(claims, strategy, holderKey)
    requires Fitting(Object(PlannedClaims(claims, holderKey) + AddedMembers(claims, holderKey)), MAX_PROCESSED_SD_JWT_DEPTH)
    requires var w := WholeTree(claims, strategy, holderKey, cfg); SoundlyEncoded(w, c) && Selection(presented, Issues(w, c))
    ensures var w, credential := WholeTree(claims, strategy, holderKey, cfg), Issue(Object(claims), strategy, holderKey, cfg, c);
      && credential.Success?
      && var r, held := Verify(credential.value.payload, presented, c), Held(presented, c);
      && (r.Success? <==> ParentClosed(w, c, held))
      && (r.Success? ==> Denote(r.value) == Denote(Prune(w, c, held, false)))
  {
    HideThenReveal(claims, strategy, holderKey, cfg, c, presented);
    WholeTreeFacts(claims, strategy, holderKey, cfg, c);
    FittingFits(WholeTree(claims, strategy, holderKey, cfg), c, Held(presented, c), 0);
  }
}
