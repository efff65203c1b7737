/**
 A top-level claim called `_sd_alg` stands behind the member of that name which every payload has. Selections stay
 parent-closed whatever is asked for, exactly unless such a claim is hidden and hides something inside.
 */
module ShadowedClaim {
  import opened Acceptance
  import opened Choosing
  import opened ClaimTree
  import opened CredentialLaw
  import opened FullRequest
  import opened HolderLaw
  import opened Holding
  import opened Issuance
  import opened Json
  import opened Plan
  import opened Preprocessing
  import opened Registry
  import opened Sequences
  import opened SignedPayload
  import opened Strategy
  import opened UnboundedUnpacking
  import opened Wrappers

  // Something hidden can be asked for

  /** A request that reaches the last hidden entry of a tree. */
  ghost function Asking(t: Tree, c: Codec): Value
    requires HiddenTags(t, c) != {}
    decreases t, 1
  {
    match t
    case List(es) => Array(AskingItems(es, c))
    case Dict(es, _) => Object(AskingMembers(es, c))
  }

  ghost function AskingItems(es: seq<Entry>, c: Codec): seq<Value>
    requires EntryHiddenTags(es, false, c) != {}
    decreases es, 0
  {
    var n := |es| - 1;
    if HiddenOf(es[n], false, c) == {} then AskingItems(es[..n], c)
    else seq(n, i => Null) + [AskingEntry(es[n], false, c)]
  }

  ghost function AskingMembers(es: seq<Entry>, c: Codec): seq<Member>
    requires EntryHiddenTags(es, true, c) != {}
    decreases es, 0
  {
    var n := |es| - 1;
    if HiddenOf(es[n], true, c) == {} then AskingMembers(es[..n], c) else [Member(es[n].key, AskingEntry(es[n], true, c))]
  }

  ghost function AskingEntry(e: Entry, inDict: bool, c: Codec): Value
    requires HiddenOf(e, inDict, c) != {}
    decreases e, 2
  {
    if e.salt.Some? then Bool(true) else Asking(e.value, c)
  }

  /** The request is well-keyed, opens the tree, and chooses something. */
  ghost predicate Asks(t: Tree, v: Value, c: Codec) {
    && WellKeyed(v) && Opens(t, v) && (v.Object? ==> v.members != [])
    && ChooseInside(t, v, c).Success? && ChooseInside(t, v, c).value != []
  }

  lemma {:induction false} AskingAsks(t: Tree, c: Codec)
    requires WellFormed(t) && HiddenTags(t, c) != {}
    ensures Asks(t, Asking(t, c), c)
    decreases t, 1
  {
    match t
    case List(es) => AskingItemsChoose(es, c);
    case Dict(es, decoys) => AskingMembersChoose(es, es, Structural(es, decoys, false, c), c);
  }

  lemma {:induction false} NullsChooseNothing(es: seq<Entry>, n: nat, c: Codec)
    ensures ChooseItems(es, seq(n, i => Null), c) == Success([])
  {
    if n > 0 {
      var nulls, none: seq<Issued> := seq(n, i => Null), [];
      assert nulls[..n - 1] == seq(n - 1, i => Null);
      NullsChooseNothing(es, n - 1, c);
      assert none + none == none;
    }
  }

  /** What an entry's own request chooses. */
  lemma {:induction false} AskingEntryChooses(e: Entry, inDict: bool, c: Codec)
    requires WellFormed(e.value) && HiddenOf(e, inDict, c) != {}
    ensures e.salt.None? ==> Asks(e.value, AskingEntry(e, inDict, c), c)
    decreases e, 2
  {
    if e.salt.None? {
      AskingAsks(e.value, c);
    }
  }

  lemma {:induction false} AskingItemsChoose(es: seq<Entry>, c: Codec)
    requires WellFormedEntries(es) && EntryHiddenTags(es, false, c) != {}
    ensures var r := ChooseItems(es, AskingItems(es, c), c); r.Success? && r.value != []
    ensures WellKeyed(Array(AskingItems(es, c)))
    decreases es, 0
  {
    var n := |es| - 1;
    var e := es[n];
    if HiddenOf(e, false, c) == {} {
      AskingItemsChoose(es[..n], c);
      AskingLength(es[..n], c);
      FewerItems(es, AskingItems(es[..n], c), c);
    } else {
      var nulls, v := seq(n, i => Null), AskingEntry(e, false, c);
      AskingEntryChooses(e, false, c);
      NullsChooseNothing(es, n, c);
      Snoc(nulls, v);
      assert ChooseItem(e, v, c).Success? && ChooseItem(e, v, c).value != [];
    }
  }

  lemma {:induction false} AskingLength(es: seq<Entry>, c: Codec)
    requires EntryHiddenTags(es, false, c) != {}
    ensures |AskingItems(es, c)| <= |es|
  {
    var n := |es| - 1;
    if HiddenOf(es[n], false, c) == {} {
      AskingLength(es[..n], c);
    }
  }

  /** A request no longer than a front of the list asks the front. */
  lemma {:induction false} FewerItems(es: seq<Entry>, requests: seq<Value>, c: Codec)
    requires es != [] && |requests| <= |es| - 1
    ensures ChooseItems(es, requests, c) == ChooseItems(es[..|es| - 1], requests, c)
  {
    if requests != [] {
      FewerItems(es, requests[..|requests| - 1], c);
    }
  }

  lemma {:induction false} AskingMembersChoose(all: seq<Entry>, es: seq<Entry>, structural: set<string>, c: Codec)
    requires es <= all && DistinctEntries(all) && WellFormedEntries(es) && EntryHiddenTags(es, true, c) != {}
    requires DIGEST_ALG_KEY !in structural
    ensures var request := AskingMembers(es, c);
      var r := Choose(all, structural, request, c);
      request != [] && WellKeyed(Object(request)) && r.Success? && r.value != []
    decreases es, 0
  {
    var n := |es| - 1;
    if HiddenOf(es[n], true, c) == {} {
      AskingMembersChoose(all, es[..n], structural, c);
    } else {
      AskingEntryChooses(es[n], true, c);
      NamedDistinct(all, n);
      AskingOne(all, es[n], structural, AskingEntry(es[n], true, c), c);
    }
  }

  lemma AskingOne(all: seq<Entry>, e: Entry, structural: set<string>, v: Value, c: Codec)
    requires Named(all, e.key) == Some(e) && DIGEST_ALG_KEY !in structural
    requires if e.salt.Some? then v == Bool(true) else Asks(e.value, v, c)
    ensures var request := [Member(e.key, v)];
      var r := Choose(all, structural, request, c);
      WellKeyed(Object(request)) && r.Success? && r.value != []
  {
    assert ChooseClaim(all, structural, e.key, v, c).Success? && ChooseClaim(all, structural, e.key, v, c).value != [];
    ChooseSingle(all, structural, e.key, v, c);
  }

  // Behind the payload's own member

  /** Asking for what is hidden inside a hidden `_sd_alg` claim chooses that alone. */
  lemma AskBehind(es: seq<Entry>, e: Entry, structural: set<string>, c: Codec)
    requires Named(es, DIGEST_ALG_KEY) == Some(e) && DIGEST_ALG_KEY in structural
    requires e.salt.Some? && WellFormed(e.value) && HiddenTags(e.value, c) != {}
    ensures var request := [Member(DIGEST_ALG_KEY, Asking(e.value, c))];
      && WellKeyed(Object(request))
      && Choose(es, structural, request, c) == ChooseInside(e.value, Asking(e.value, c), c)
      && Asks(e.value, Asking(e.value, c), c)
  {
    var v := Asking(e.value, c);
    AskingAsks(e.value, c);
    assert ChooseBelow(e, v, c) == ChooseInside(e.value, v, c);
    assert ChooseClaim(es, structural, DIGEST_ALG_KEY, v, c) == ChooseBelow(e, v, c);
    ChooseSingle(es, structural, DIGEST_ALG_KEY, v, c);
    assert [Member(DIGEST_ALG_KEY, v)][0].value == v;
  }

  lemma ChooseSingle(es: seq<Entry>, structural: set<string>, key: string, v: Value, c: Codec)
    requires ChooseClaim(es, structural, key, v, c).Success?
    ensures Choose(es, structural, [Member(key, v)], c) == ChooseClaim(es, structural, key, v, c)
  {
    var request, none: seq<Issued> := [Member(key, v)], [];
    assert request[..0] == [];
    assert none + ChooseClaim(es, structural, key, v, c).value == ChooseClaim(es, structural, key, v, c).value;
  }

  lemma {:induction false} EntryEdgesHave(es: seq<Entry>, e: Entry, inDict: bool, c: Codec, parent: Option<string>)
    requires e in es
    ensures EdgesOf(e, inDict, c, parent) <= EntryEdges(es, inDict, c, parent)
  {
    if e != es[|es| - 1] {
      EntryEdgesHave(es[..|es| - 1], e, inDict, c, parent);
    }
  }

  /** Disclosures from inside a hidden entry, without its own, are not parent-closed. */
  lemma InsideAloneIsOpen(w: Tree, e: Entry, c: Codec, held: set<string>)
    requires w.Dict? && e in w.entries && e.salt.Some? && Digest(e, true, c) !in held && !(HiddenTags(e.value, c) !! held)
    ensures !ParentClosed(w, c, held)
  {
    var x := Digest(e, true, c);
    NothingHeldBelow(e.value, c, x, held);
    EntryEdgesHave(w.entries, e, true, c, None);
    assert Edges(e.value, c, Some(x)) <= Edges(w, c, None);
  }

  lemma HashesOf(ds: seq<Issued>, issues: seq<Issued>, c: Codec)
    requires (forall d :: d in ds ==> d in issues) && forall d :: d in issues ==> d.hash == c.hash(d.raw)
    ensures HashAll(Raws(ds), c) == Hashes(ds) && Elements(Hashes(ds)) <= Elements(Hashes(issues))
  {
    forall i | 0 <= i < |ds| ensures c.hash(ds[i].raw) == ds[i].hash && ds[i].hash in Elements(Hashes(issues)) {
      assert ds[i] in ds;
      HashOfIssue(issues, ds[i]);
    }
    assert HashAll(Raws(ds), c) == Hashes(ds);
  }

  /** What is chosen inside the hidden claim is held, and the claim itself is not. */
  lemma ChosenInsideIsOpen(w: Tree, e: Entry, c: Codec)
    requires w.Dict? && e in w.entries && e.salt.Some? && WellFormed(e.value) && HiddenTags(e.value, c) != {}
    requires NoDup(TagsOf(e, true, c))
    ensures var r := ChooseInside(e.value, Asking(e.value, c), c); r.Success? && !ParentClosed(w, c, Held(Raws(r.value), c))
  {
    AskingAsks(e.value, c);
    var ds := ChooseInside(e.value, Asking(e.value, c), c).value;
    InsideChosenIssued(e.value, Asking(e.value, c), c);
    IssuesHashed(e.value, c);
    HashesOf(ds, Issues(e.value, c), c);
    HiddenAreIssued(e.value, c);
    HiddenWithinTags(e.value, c);
    NoDupConcat(Tags(e.value, c), [Digest(e, true, c)]);
    assert Digest(e, true, c) in [Digest(e, true, c)];
    assert Hashes(ds)[0] in Elements(Hashes(ds));
    InsideAloneIsOpen(w, e, c, Held(Raws(ds), c));
  }

  // The law

  /** Whatever is asked for, a selection that succeeds is parent-closed. */
  ghost predicate KeepsParents(
      claims: seq<Member>, strategy: Strategy, holderKey: Option<Value>, cfg: Config, c: Codec, presented: seq<string>)
    requires Issuable(claims, strategy, holderKey)
    requires Issue(Object(claims), strategy, holderKey, cfg, c).Success? && PreprocessSerial(presented, Worker(c)).Success?
  {
    forall request :: WellKeyed(Object(request)) ==>
      ClosedIfSelected(SelectFrom(claims, strategy, holderKey, cfg, c, presented, request), WholeTree(claims, strategy, holderKey, cfg), c)
  }

  ghost predicate ClosedIfSelected(r: Result<seq<string>, SelectError>, w: Tree, c: Codec) {
    r.Success? ==> ParentClosed(w, c, Held(r.value, c))
  }

  /**
   On a fully held credential every selection is parent-closed, exactly unless a hidden claim called `_sd_alg` hides
   something inside.
   */
  lemma KeepsParentsExactly(
      claims: seq<Member>, strategy: Strategy, holderKey: Option<Value>, cfg: Config, c: Codec, presented: seq<string>)
    requires Issuable(claims, strategy, holderKey)
    requires var w := WholeTree(claims, strategy, holderKey, cfg);
      SoundlyEncoded(w, c) && Selection(presented, Issues(w, c)) && HiddenTags(w, c) <= Held(presented, c)
    ensures Issue(Object(claims), strategy, holderKey, cfg, c).Success? && PreprocessSerial(presented, Worker(c)).Success?
    ensures WholeTree(claims, strategy, holderKey, cfg).Dict?
    ensures KeepsParents(claims, strategy, holderKey, cfg, c, presented)
      <==> !HidesBehindAlg(WholeTree(claims, strategy, holderKey, cfg).entries, c)
  {
    var w := WholeTree(claims, strategy, holderKey, cfg);
    SelectFromChooses(claims, strategy, holderKey, cfg, c, presented, []);
    if !HidesBehindAlg(w.entries, c) {
      forall request | WellKeyed(Object(request))
        ensures ClosedIfSelected(SelectFrom(claims, strategy, holderKey, cfg, c, presented, request), w, c)
      {
        SelectionIsAccepted(claims, strategy, holderKey, cfg, c, presented, request);
      }
    } else {
      var e :| e in w.entries && e.key == DIGEST_ALG_KEY && e.salt.Some? && HiddenTags(e.value, c) != {};
      var request := [Member(DIGEST_ALG_KEY, Asking(e.value, c))];
      EntryFacts(w, e, c);
      AskBehind(w.entries, e, Structural(w.entries, w.decoys, true, c), c);
      ChosenInsideIsOpen(w, e, c);
      SelectFromChooses(claims, strategy, holderKey, cfg, c, presented, request);
      assert !ClosedIfSelected(SelectFrom(claims, strategy, holderKey, cfg, c, presented, request), w, c);
    }
  }

  lemma EntryFacts(w: Tree, e: Entry, c: Codec)
    requires w.Dict? && WellFormed(w) && NoDup(Tags(w, c)) && e in w.entries
    ensures Named(w.entries, e.key) == Some(e) && WellFormed(e.value) && NoDup(TagsOf(e, true, c))
  {
    var i :| 0 <= i < |w.entries| && w.entries[i] == e;
    NoDupConcat(EntryTags(w.entries, true, c), DecoyDigests(w.decoys, c));
    NamedDistinct(w.entries, i);
    TreeOfEntry(w.entries, i);
    HiddenApart(w.entries, true, c, i);
  }

  // A credential that shows it

  const AlgClaims := [Member(DIGEST_ALG_KEY, Object([Member("a", Str("x"))]))]

  lemma AlgClaimsIssuable()
    ensures Issuable(AlgClaims, AllLevels, None)
  {
    var inner := [Member("a", Str("x"))];
    OneFree(inner[0]);
    OneFree(AlgClaims[0]);
    assert AlgClaims == [AlgClaims[0]] && inner == [inner[0]];
  }

  lemma OneFree(m: Member)
    requires m.key != SD_DIGESTS_KEY && m.key != SD_LIST_PREFIX && FreeOfReserved(m.value) && WellKeyed(m.value)
    ensures CleanMembers([m]) && FreeOfReserved(Object([m])) && WellKeyed(Object([m]))
  {
    assert [m][..0] == [];
    assert MembersFreeOfReserved([m]);
    assert WellKeyedMembers([m]);
  }

  /** With every level hidden, a tree over an object with a member hides something. */
  lemma HidesMembers(t: Tree, c: Codec)
    requires Chosen(t, AllLevels) && t.Dict? && t.entries != []
    ensures HiddenTags(t, c) != {}
  {
    var e := t.entries[|t.entries| - 1];
    MemberAllHidden(t.entries, |t.entries| - 1);
    assert Digest(e, true, c) in EntryHiddenTags(t.entries, true, c);
  }

  /** Issued with every level hidden, the claims `{"_sd_alg": {"a": "x"}}` let a selection lose the enclosing claim. */
  lemma HiddenAlgClaimLosesParent(cfg: Config, c: Codec, presented: seq<string>)
    ensures Issuable(AlgClaims, AllLevels, None)
    ensures var w := WholeTree(AlgClaims, AllLevels, None, cfg);
      SoundlyEncoded(w, c) && Selection(presented, Issues(w, c)) && HiddenTags(w, c) <= Held(presented, c) ==>
        && Issue(Object(AlgClaims), AllLevels, None, cfg, c).Success? && PreprocessSerial(presented, Worker(c)).Success?
        && !KeepsParents(AlgClaims, AllLevels, None, cfg, c, presented)
  {
    AlgClaimsIssuable();
    var w := WholeTree(AlgClaims, AllLevels, None, cfg);
    if SoundlyEncoded(w, c) && Selection(presented, Issues(w, c)) && HiddenTags(w, c) <= Held(presented, c) {
      KeepsParentsExactly(AlgClaims, AllLevels, None, cfg, c, presented);
      AlgClaimHides(cfg, c);
    }
  }

  /** Its tree hides the claim, and the one inside. */
  lemma AlgClaimHides(cfg: Config, c: Codec)
    requires Issuable(AlgClaims, AllLevels, None) && SoundlyEncoded(WholeTree(AlgClaims, AllLevels, None, cfg), c)
    ensures var w := WholeTree(AlgClaims, AllLevels, None, cfg); w.Dict? && HidesBehindAlg(w.entries, c)
  {
    var t, w := PlannedTree(AlgClaims, AllLevels, None, cfg), WholeTree(AlgClaims, AllLevels, None, cfg);
    IssuedCredential(AlgClaims, AllLevels, None, cfg, c);
    WholeTreeFacts(AlgClaims, AllLevels, None, cfg, c);
    PlannedAlgClaims();
    var e := t.entries[0];
    ClaimMembersAt(t.entries, 0);
    MemberAllHidden(t.entries, 0);
    assert e in w.entries;
    assert Claims(e.value) == AlgClaims[0].value;
    assert e.value.Dict? && |ClaimMembers(e.value.entries)| == 1;
    HidesMembers(e.value, c);
  }

  lemma PlannedAlgClaims()
    ensures PlannedClaims(AlgClaims, None) == AlgClaims
  {
    forall k | k in ALWAYS_REVEALED ensures !HasKey(AlgClaims, k) {
      assert k == "iss" || k == "iat" || k == "exp";
    }
    RemoveAllAbsent(AlgClaims, ALWAYS_REVEALED);
  }

  lemma {:induction false} MemberAllHidden(es: seq<Entry>, i: nat)
    requires MembersChosen(es, AllLevels) && i < |es|
    ensures es[i].salt.Some? && Chosen(es[i].value, AllLevels)
  {
    if i < |es| - 1 {
      MemberAllHidden(es[..|es| - 1], i);
    }
  }
}
