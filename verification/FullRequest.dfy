/**
 Asking for the claims themselves. Every disclosure is selected in the issuer's order, exactly unless a hidden member is
 `false` or null, which reads as a refusal, or a hidden array element is neither `true` nor a container that hides
 nothing: another scalar does not ask for it, and a container is selected before what is hidden in it.
 */
module FullRequest {
  import opened Acceptance
  import opened Choosing
  import opened ClaimTree
  import opened CredentialLaw
  import opened HolderLaw
  import opened Holding
  import opened Issuance
  import opened Json
  import opened JsonFacts
  import opened Plan
  import opened Preprocessing
  import opened Sequences
  import opened SignedPayload
  import opened Strategy
  import opened Wrappers

  /** No entry is hidden, at any level. */
  ghost predicate Open(t: Tree) {
    match t
    case Leaf(_) => true
    case List(es) => OpenEntries(es)
    case Dict(es, _) => OpenEntries(es)
  }

  ghost predicate OpenEntries(es: seq<Entry>) {
    es == [] || (var n := |es| - 1; OpenEntries(es[..n]) && es[n].salt.None? && Open(es[n].value))
  }

  lemma {:induction false} OpenExactly(t: Tree, c: Codec)
    ensures Open(t) <==> Issues(t, c) == []
    decreases t, 1
  {
    match t
    case Leaf(_) =>
    case List(es) => OpenEntriesExactly(es, false, c);
    case Dict(es, _) => OpenEntriesExactly(es, true, c);
  }

  lemma {:induction false} OpenEntriesExactly(es: seq<Entry>, inDict: bool, c: Codec)
    ensures OpenEntries(es) <==> EntryIssues(es, inDict, c) == []
    decreases es, 0
  {
    if es != [] {
      OpenEntriesExactly(es[..|es| - 1], inDict, c);
      OpenExactly(es[|es| - 1].value, c);
    }
  }

  /** Every hidden entry is one that asking for its claims reveals, and in the issuer's order. */
  ghost predicate Revealable(t: Tree) {
    match t
    case Leaf(_) => true
    case List(es) => RevealableItems(es)
    case Dict(es, _) => RevealableEntries(es)
  }

  ghost predicate RevealableEntries(es: seq<Entry>) {
    es == [] || (var n := |es| - 1; RevealableEntries(es[..n]) && RevealableEntry(es[n]))
  }

  ghost predicate RevealableEntry(e: Entry) {
    (e.salt.Some? ==> Claims(e.value) != Null && Claims(e.value) != Bool(false)) && Revealable(e.value)
  }

  ghost predicate RevealableItems(es: seq<Entry>) {
    es == [] || (var n := |es| - 1; RevealableItems(es[..n]) && RevealableItem(es[n]))
  }

  ghost predicate RevealableItem(e: Entry) {
    if e.salt.Some? then Claims(e.value) == Bool(true) || (!e.value.Leaf? && Open(e.value)) else Revealable(e.value)
  }

  /** The disclosures of the claims that are asked for, and whether asking gets all of them in this order. */
  datatype Wanted = Wanted(issues: seq<Issued>, revealable: bool)

  ghost function WantedFor(es: seq<Entry>, request: seq<Member>, c: Codec): Wanted {
    if request == [] then Wanted([], true)
    else
      var n := |request| - 1;
      var r, e := WantedFor(es, request[..n], c), Named(es, request[n].key);
      if e.None? then r else Wanted(r.issues + IssuesOf(e.value, true, c), r.revealable && RevealableEntry(e.value))
  }

  /** Never more is got than is wanted, and exactly what is wanted if and only if that is possible. */
  ghost predicate Gets(r: Result<seq<Issued>, SelectError>, w: Wanted) {
    && r.Success? && |r.value| <= |w.issues|
    && (r.value == w.issues <==> w.revealable)
  }

  lemma GetsTogether(a: seq<Issued>, v: Wanted, b: seq<Issued>, w: Wanted)
    requires Gets(Success(a), v) && Gets(Success(b), w)
    ensures Gets(Success(a + b), Wanted(v.issues + w.issues, v.revealable && w.revealable))
  {
    if a + b == v.issues + w.issues {
      assert |a| == |v.issues| && |b| == |w.issues|;
      assert a == (a + b)[..|a|] && b == (a + b)[|a|..];
      assert v.issues == (v.issues + w.issues)[..|a|] && w.issues == (v.issues + w.issues)[|a|..];
    }
  }

  lemma {:induction false} NamedDistinct(es: seq<Entry>, i: nat)
    requires DistinctEntries(es) && i < |es|
    ensures Named(es, es[i].key) == Some(es[i])
  {
    var n := |es| - 1;
    if i < n {
      NamedDistinct(es[..n], i);
      assert es[i].key != es[n].key;
    }
  }

  lemma {:induction false} WantedOwn(all: seq<Entry>, k: nat, c: Codec)
    requires DistinctEntries(all) && k <= |all|
    ensures WantedFor(all, ClaimMembers(all)[..k], c) == Wanted(EntryIssues(all[..k], true, c), RevealableEntries(all[..k]))
  {
    if k > 0 {
      var n := k - 1;
      WantedOwn(all, n, c);
      assert ClaimMembers(all)[..k][..n] == ClaimMembers(all)[..n] && all[..k][..n] == all[..n];
      NamedDistinct(all, n);
    }
  }

  lemma {:induction false} ClaimMembersAt(es: seq<Entry>, i: nat)
    requires i < |es|
    ensures ClaimMembers(es)[i] == Member(es[i].key, Claims(es[i].value))
  {
    if i < |es| - 1 {
      ClaimMembersAt(es[..|es| - 1], i);
    }
  }

  lemma {:induction false} ClaimItemsAt(es: seq<Entry>, i: nat)
    requires i < |es|
    ensures ClaimItems(es)[i] == Claims(es[i].value)
  {
    if i < |es| - 1 {
      ClaimItemsAt(es[..|es| - 1], i);
    }
  }

  /** The request asks for the entries by their own claims. */
  ghost predicate Asks(es: seq<Entry>, request: seq<Member>) {
    forall i :: 0 <= i < |request| ==> AsksOne(es, request[i])
  }

  ghost predicate AsksOne(es: seq<Entry>, m: Member) {
    Named(es, m.key).Some? && Claims(Named(es, m.key).value.value) == m.value
  }

  /** No claim that is asked for stands behind a structural member. */
  ghost predicate InFront(structural: set<string>, request: seq<Member>) {
    DIGEST_ALG_KEY in structural ==> !HasKey(request, DIGEST_ALG_KEY)
  }

  lemma {:induction false} FullChoose(es: seq<Entry>, structural: set<string>, request: seq<Member>, c: Codec)
    requires DistinctEntries(es) && WellFormedEntries(es) && NoDup(EntryTags(es, true, c))
    requires Asks(es, request) && InFront(structural, request)
    ensures Gets(Choose(es, structural, request, c), WantedFor(es, request, c))
    decreases request, 0
  {
    if request != [] {
      var n := |request| - 1;
      var front, m := request[..n], request[n];
      assert Asks(es, front) && AsksOne(es, m);
      KeyInFrontOrLast(request, DIGEST_ALG_KEY);
      FullChoose(es, structural, front, c);
      FullClaim(es, structural, m, c);
      var e := Named(es, m.key).value;
      GetsTogether(Choose(es, structural, front, c).value, WantedFor(es, front, c),
                   ChooseClaim(es, structural, m.key, m.value, c).value, Wanted(IssuesOf(e, true, c), RevealableEntry(e)));
    }
  }

  lemma {:induction false} FullClaim(es: seq<Entry>, structural: set<string>, m: Member, c: Codec)
    requires DistinctEntries(es) && WellFormedEntries(es) && NoDup(EntryTags(es, true, c))
    requires AsksOne(es, m) && InFront(structural, [m])
    ensures var e := Named(es, m.key).value;
      Gets(ChooseClaim(es, structural, m.key, m.value, c), Wanted(IssuesOf(e, true, c), RevealableEntry(e)))
    decreases m.value, 3
  {
    var e := Named(es, m.key).value;
    NamedAt(es, m.key);
    var i :| 0 <= i < |es| && es[i] == e;
    TreeOfEntry(es, i);
    HiddenApart(es, true, c, i);
    InnerTags(e, true, c);
    assert [m][0].key == m.key;
    if Withheld(m.value) {
      assert e.value.Leaf?;
    } else {
      FullBelow(e, c);
      if e.salt.Some? {
        var own := [IssuedOf(e, true, c)];
        GetsTogether(ChooseBelow(e, m.value, c).value, Wanted(Issues(e.value, c), Revealable(e.value)), own, Wanted(own, true));
      }
    }
  }

  lemma {:induction false} FullBelow(e: Entry, c: Codec)
    requires WellFormed(e.value) && NoDup(Tags(e.value, c))
    ensures Gets(ChooseBelow(e, Claims(e.value), c), Wanted(Issues(e.value, c), Revealable(e.value)))
    decreases Claims(e.value), 2
  {
    if !e.value.Leaf? {
      FullInside(e.value, c);
    }
  }

  lemma {:induction false} FullInside(t: Tree, c: Codec)
    requires !t.Leaf? && WellFormed(t) && NoDup(Tags(t, c))
    ensures Opens(t, Claims(t)) && Gets(ChooseInside(t, Claims(t), c), Wanted(Issues(t, c), Revealable(t)))
    decreases Claims(t), 1
  {
    match t
    case List(es) =>
      FullItems(es, |es|, c);
      assert ClaimItems(es)[..|es|] == ClaimItems(es) && es[..|es|] == es;
    case Dict(es, decoys) =>
      var request := ClaimMembers(es);
      NoDupConcat(EntryTags(es, true, c), DecoyDigests(decoys, c));
      assert request[..|es|] == request && es[..|es|] == es;
      WantedOwn(es, |es|, c);
      forall i | 0 <= i < |request| ensures AsksOne(es, request[i]) {
        ClaimMembersAt(es, i);
        NamedDistinct(es, i);
      }
      FullChoose(es, Structural(es, decoys, false, c), request, c);
  }

  lemma {:induction false} FullItems(all: seq<Entry>, k: nat, c: Codec)
    requires k <= |all| && WellFormedEntries(all) && NoDup(EntryTags(all, false, c))
    ensures Gets(ChooseItems(all, ClaimItems(all)[..k], c), Wanted(EntryIssues(all[..k], false, c), RevealableItems(all[..k])))
    decreases ClaimItems(all), 0, k
  {
    if k > 0 {
      var n := k - 1;
      var e := all[n];
      FullItems(all, n, c);
      ClaimItemsAt(all, n);
      TreeOfEntry(all, n);
      HiddenApart(all, false, c, n);
      FullItem(e, c);
      assert ClaimItems(all)[..k][..n] == ClaimItems(all)[..n] && all[..k][..n] == all[..n];
      GetsTogether(ChooseItems(all, ClaimItems(all)[..n], c).value, Wanted(EntryIssues(all[..n], false, c), RevealableItems(all[..n])),
                   ChooseItem(e, Claims(e.value), c).value, Wanted(IssuesOf(e, false, c), RevealableItem(e)));
    }
  }

  lemma {:induction false} FullItem(e: Entry, c: Codec)
    requires WellFormed(e.value) && NoDup(TagsOf(e, false, c))
    ensures Gets(ChooseItem(e, Claims(e.value), c), Wanted(IssuesOf(e, false, c), RevealableItem(e)))
    decreases Claims(e.value), 2
  {
    if !e.value.Leaf? {
      InnerTags(e, false, c);
      FullInside(e.value, c);
      if e.salt.Some? {
        OwnBeforeNested(e, ChooseInside(e.value, Claims(e.value), c).value, c);
      }
    }
  }

  /** A hidden container comes before what is hidden in it: in the issuer's order only if nothing is. */
  lemma OwnBeforeNested(e: Entry, nested: seq<Issued>, c: Codec)
    requires e.salt.Some? && NoDup(TagsOf(e, false, c)) && |nested| <= |Issues(e.value, c)|
    ensures [IssuedOf(e, false, c)] + nested == Issues(e.value, c) + [IssuedOf(e, false, c)] <==> Open(e.value)
  {
    var own, issues := IssuedOf(e, false, c), Issues(e.value, c);
    OpenExactly(e.value, c);
    OwnIsApart(e, c);
    if issues == [] {
      assert nested == [];
    } else {
      assert issues[0] in issues;
      assert ([own] + nested)[0] == own && (issues + [own])[0] == issues[0];
    }
  }

  lemma OwnIsApart(e: Entry, c: Codec)
    requires e.salt.Some? && NoDup(TagsOf(e, false, c))
    ensures forall d :: d in Issues(e.value, c) ==> d != IssuedOf(e, false, c)
  {
    var x := Digest(e, false, c);
    NoDupConcat(Tags(e.value, c), [x]);
    HiddenAreIssued(e.value, c);
    HiddenWithinTags(e.value, c);
    forall d | d in Issues(e.value, c) ensures d.hash in Tags(e.value, c) {
      HashOfIssue(Issues(e.value, c), d);
    }
    assert x in [x];
  }

  // The credential

  lemma {:induction false} PlainRevealable(v: Value)
    ensures Revealable(Plain(v))
    decreases v, 1
  {
    match v
    case Array(items) => PlainItemsRevealable(items);
    case Object(members) => PlainEntriesRevealable(members);
    case _ =>
  }

  lemma {:induction false} PlainItemsRevealable(items: seq<Value>)
    ensures RevealableItems(PlainItems(items))
    decreases items, 0
  {
    if items != [] {
      var n := |items| - 1;
      PlainItemsRevealable(items[..n]);
      PlainRevealable(items[n]);
    }
  }

  lemma {:induction false} PlainEntriesRevealable(members: seq<Member>)
    ensures RevealableEntries(PlainEntries(members))
    ensures forall e :: e in PlainEntries(members) ==> exists m :: m in members && e == Entry(m.key, Plain(m.value), None)
    decreases members, 0
  {
    if members != [] {
      var n := |members| - 1;
      PlainEntriesRevealable(members[..n]);
      PlainRevealable(members[n].value);
      forall e | e in PlainEntries(members) ensures exists m :: m in members && e == Entry(m.key, Plain(m.value), None) {
        if e in PlainEntries(members[..n]) {
          var m :| m in members[..n] && e == Entry(m.key, Plain(m.value), None);
          assert m in members;
        } else {
          assert members[n] in members && e == Entry(members[n].key, Plain(members[n].value), None);
        }
      }
    }
  }

  /** Nothing is wanted for this name: there is no such entry, or it hides nothing. */
  ghost predicate WantsNothing(es: seq<Entry>, key: string, c: Codec) {
    var e := Named(es, key);
    e.Some? ==> IssuesOf(e.value, true, c) == [] && RevealableEntry(e.value)
  }

  lemma {:induction false} WantedWithout(es: seq<Entry>, request: seq<Member>, key: string, c: Codec)
    requires WantsNothing(es, key, c)
    ensures WantedFor(es, Remove(request, key), c) == WantedFor(es, request, c)
  {
    if request != [] {
      var n := |request| - 1;
      WantedWithout(es, request[..n], key, c);
      if request[n].key != key {
        Snoc(Remove(request[..n], key), request[n]);
      } else {
        assert WantedFor(es, request[..n], c).issues + [] == WantedFor(es, request[..n], c).issues;
      }
    }
  }

  lemma {:induction false} WantedWithoutAll(es: seq<Entry>, request: seq<Member>, keys: seq<string>, c: Codec)
    requires forall k :: k in keys ==> WantsNothing(es, k, c)
    ensures WantedFor(es, RemoveAll(request, keys), c) == WantedFor(es, request, c)
  {
    if keys != [] {
      var n := |keys| - 1;
      WantedWithoutAll(es, request, keys[..n], c);
      WantedWithout(es, RemoveAll(request, keys[..n]), keys[n], c);
    }
  }

  /** A name that no planned entry has wants nothing. */
  lemma AddedWantNothing(es: seq<Entry>, added: seq<Member>, key: string, c: Codec)
    requires forall e :: e in es ==> e.key != key
    ensures WantsNothing(es + PlainEntries(added), key, c)
  {
    var e := Named(es + PlainEntries(added), key);
    if e.Some? {
      PlainEntriesRevealable(added);
      var m :| m in added && e.value == Entry(m.key, Plain(m.value), None);
      PlainHidesNothing(m.value, c);
      PlainRevealable(m.value);
    }
  }

  /** The top level of the claims, asked for in their own order, wants what was planned. */
  lemma WantedAtTop(claims: seq<Member>, es: seq<Entry>, added: seq<Member>, c: Codec)
    requires DistinctKeys(claims) && DistinctEntries(es + PlainEntries(added)) && ClaimMembers(es) == RemoveAll(claims, ALWAYS_REVEALED)
    ensures WantedFor(es + PlainEntries(added), claims, c) == Wanted(EntryIssues(es, true, c), RevealableEntries(es))
  {
    var all := es + PlainEntries(added);
    RemoveAllMembers(claims, ALWAYS_REVEALED);
    forall k | k in ALWAYS_REVEALED ensures WantsNothing(all, k, c) {
      forall e | e in es ensures e.key != k {
        var i :| 0 <= i < |es| && es[i] == e;
        assert ClaimMembers(es)[i] in ClaimMembers(es);
      }
      AddedWantNothing(es, added, k, c);
    }
    WantedWithoutAll(all, claims, ALWAYS_REVEALED, c);
    WantedOwn(all, |es|, c);
    assert all[..|es|] == es;
    FrontClaims(es, PlainEntries(added));
  }

  lemma {:induction false} FrontClaims(es: seq<Entry>, xs: seq<Entry>)
    ensures ClaimMembers(es + xs)[..|es|] == ClaimMembers(es)
  {
    if xs == [] {
      assert es + xs == es;
    } else {
      var n := |xs| - 1;
      FrontClaims(es, xs[..n]);
      assert (es + xs)[..|es + xs| - 1] == es + xs[..n];
    }
  }

  /**
   Ask for the user's claims, in claim order: selection succeeds, and it gives all disclosures in exactly the issuer's
   order if and only if the tree is revealable.
   */
  lemma FullRequestSelectsAll(
      claims: seq<Member>, strategy: Strategy, holderKey: Option<Value>, cfg: Config, c: Codec, presented: seq<string>)
    requires Issuable(claims, strategy, holderKey) && !HasKey(claims, DIGEST_ALG_KEY)
    requires holderKey.Some? ==> !HasKey(claims, CNF_KEY)
    requires var w := WholeTree(claims, strategy, holderKey, cfg);
      SoundlyEncoded(w, c) && Selection(presented, Issues(w, c)) && HiddenTags(w, c) <= Held(presented, c)
    ensures var credential := Issue(Object(claims), strategy, holderKey, cfg, c);
      && credential.Success? && PreprocessSerial(presented, Worker(c)).Success?
      && var r := SelectFrom(claims, strategy, holderKey, cfg, c, presented, claims);
      && r.Success?
      && (r.value == credential.value.disclosures <==> Revealable(PlannedTree(claims, strategy, holderKey, cfg)))
  {
    var t, w := PlannedTree(claims, strategy, holderKey, cfg), WholeTree(claims, strategy, holderKey, cfg);
    SelectFromChooses(claims, strategy, holderKey, cfg, c, presented, claims);
    CredentialShows(claims, strategy, holderKey, cfg, c);
    var chosen := Choose(w.entries, Structural(w.entries, w.decoys, true, c), claims, c);
    FullTop(claims, strategy, holderKey, cfg, c);
    TagsUnambiguous(w, c);
    IssuesHashed(w, c);
    ChooseIssued(w.entries, Structural(w.entries, w.decoys, true, c), claims, c);
    SameTexts(chosen.value, Issues(w, c), c);
  }

  /** At the top level, asking for the claims gets what was planned. */
  lemma FullTop(claims: seq<Member>, strategy: Strategy, holderKey: Option<Value>, cfg: Config, c: Codec)
    requires Issuable(claims, strategy, holderKey) && !HasKey(claims, DIGEST_ALG_KEY)
    requires holderKey.Some? ==> !HasKey(claims, CNF_KEY)
    requires SoundlyEncoded(WholeTree(claims, strategy, holderKey, cfg), c)
    ensures var t, w := PlannedTree(claims, strategy, holderKey, cfg), WholeTree(claims, strategy, holderKey, cfg);
      && w.Dict?
      && Gets(Choose(w.entries, Structural(w.entries, w.decoys, true, c), claims, c), Wanted(Issues(w, c), Revealable(t)))
  {
    var t, w := PlannedTree(claims, strategy, holderKey, cfg), WholeTree(claims, strategy, holderKey, cfg);
    IssuedCredential(claims, strategy, holderKey, cfg, c);
    WholeTreeFacts(claims, strategy, holderKey, cfg, c);
    if holderKey.Some? {
      RemoveAbsent(claims, CNF_KEY);
    }
    AsksForAll(claims, holderKey, w.entries);
    NoDupConcat(EntryTags(w.entries, true, c), DecoyDigests(w.decoys, c));
    FullChoose(w.entries, Structural(w.entries, w.decoys, true, c), claims, c);
    WantedAtTop(claims, t.entries, AddedMembers(claims, holderKey), c);
  }

  /** Disclosures of one credential are told apart by their texts. */
  lemma SameTexts(a: seq<Issued>, issues: seq<Issued>, c: Codec)
    requires (forall d :: d in a ==> d in issues) && forall d :: d in issues ==> d.hash == c.hash(d.raw)
    ensures Raws(a) == Raws(issues) <==> a == issues
  {
    if Raws(a) == Raws(issues) {
      forall i | 0 <= i < |a| ensures a[i] == issues[i] {
        assert a[i] in a && issues[i] in issues;
        assert Raws(a)[i] == Raws(issues)[i];
      }
    }
  }

  lemma AsksForAll(claims: seq<Member>, holderKey: Option<Value>, es: seq<Entry>)
    requires CleanMembers(claims) && (holderKey.Some? ==> Clean(holderKey.value) && !HasKey(claims, CNF_KEY)) && DistinctEntries(es)
    requires ClaimMembers(es) == PlannedClaims(claims, holderKey) + AddedMembers(claims, holderKey)
    ensures Asks(es, claims)
  {
    SameSubject(claims, holderKey);
    if holderKey.Some? {
      RemoveAbsent(claims, CNF_KEY);
    }
    forall i | 0 <= i < |claims| ensures AsksOne(es, claims[i]) {
      assert claims[i] in SubjectClaims(claims, holderKey);
      assert claims[i] in ClaimMembers(es);
      var j :| 0 <= j < |es| && ClaimMembers(es)[j] == claims[i];
      ClaimMembersAt(es, j);
      NamedDistinct(es, j);
    }
  }
}
