/**
 What an issuer may rely on, in plain names: which claims are refused, which stay in the clear, what the payload says of
 the holder and of the hash, and what the strategies without paths hide.
 */
module IssuerPromises {
  import opened Assembly
  import opened Choosing
  import opened ClaimTree
  import opened CredentialLaw
  import opened FullRequest
  import opened Issuance
  import opened Json
  import opened JsonFacts
  import opened PathStrategy
  import opened Places
  import opened Plan
  import opened Registry
  import opened SerialIssuance
  import opened SignedPayload
  import opened Strategy
  import opened Wrappers

  // What is refused

  lemma {:induction false} FreeOfReservedExactly(v: Value)
    ensures FreeOfReserved(v) <==> Nowhere(v, "_sd") && Nowhere(v, "...")
    decreases v, 1
  {
    match v
    case Array(items) =>
      ItemsFreeExactly(items);
      NowhereInArray(items, "_sd");
      NowhereInArray(items, "...");
    case Object(members) =>
      MembersFreeExactly(members);
      NowhereInObject(members, "_sd");
      NowhereInObject(members, "...");
    case _ =>
      NowhereInScalar(v, "_sd");
      NowhereInScalar(v, "...");
  }

  ghost predicate NowhereReserved(v: Value) {
    Nowhere(v, "_sd") && Nowhere(v, "...")
  }

  lemma {:induction false} ItemsFreeExactly(items: seq<Value>)
    ensures ItemsFreeOfReserved(items) <==> forall i :: 0 <= i < |items| ==> NowhereReserved(items[i])
    decreases items, 0
  {
    if items != [] {
      var n := |items| - 1;
      ItemsFreeExactly(items[..n]);
      FreeOfReservedExactly(items[n]);
      assert forall i :: 0 <= i < n ==> items[..n][i] == items[i];
    }
  }

  lemma {:induction false} MembersFreeExactly(members: seq<Member>)
    ensures MembersFreeOfReserved(members) <==>
      && !HasKey(members, "_sd") && !HasKey(members, "...")
      && forall i :: 0 <= i < |members| ==> NowhereReserved(members[i].value)
    decreases members, 0
  {
    if members != [] {
      var n := |members| - 1;
      var last := members[n];
      MembersFreeExactly(members[..n]);
      assert last.value < last;
      FreeOfReservedExactly(last.value);
      KeyInFrontOrLast(members, "_sd");
      KeyInFrontOrLast(members, "...");
      assert forall i :: 0 <= i < n ==> members[..n][i] == members[i];
    }
  }

  /** Listed paths begin with `$.`, and are used without it. */
  lemma {:induction false} FinalizedExactly(paths: seq<string>)
    ensures FinalizePaths(paths).Success? <==> forall i :: 0 <= i < |paths| ==> "$." <= paths[i]
    ensures FinalizePaths(paths).Success? ==>
      var r := FinalizePaths(paths).value;
      |r| == |paths| && forall i :: 0 <= i < |r| ==> "$." + r[i] == paths[i]
  {
    if paths != [] {
      var n := |paths| - 1;
      FinalizedExactly(paths[..n]);
      assert forall i :: 0 <= i < n ==> paths[..n][i] == paths[i];
    }
  }

  /** For any input: issuing succeeds exactly for an object without reserved names at any depth, and paths from the root. */
  lemma IssuedExactly(claims: Value, strategy: Strategy, holderKey: Option<Value>, cfg: Config, c: Codec)
    ensures Issue(claims, strategy, holderKey, cfg, c).Success? <==>
      && claims.Object? && Nowhere(claims, "_sd") && Nowhere(claims, "...")
      && (strategy.Custom? ==> forall i :: 0 <= i < |strategy.paths| ==> "$." <= strategy.paths[i])
  {
    FreeOfReservedExactly(claims);
    if strategy.Custom? {
      FinalizedExactly(strategy.paths);
    }
    var s := Checked(claims, strategy);
    if s.Success? {
      PlannedIssuance(Object(PlannedClaims(claims.members, holderKey)), s.value, cfg, c);
    }
  }

  // What stays in the clear

  ghost predicate AlwaysClear(key: string) {
    key == "iss" || key == "iat" || key == "exp"
  }

  lemma FoundInBoth(a: seq<Member>, b: seq<Member>, key: string)
    requires DistinctKeys(a) && DistinctKeys(b) && forall m: Member :: m.key == key ==> (m in a <==> m in b)
    ensures Find(a, key) == Find(b, key)
  {
    if HasKey(a, key) {
      FindDistinct(b, Member(key, Find(a, key).value));
    } else if HasKey(b, key) {
      FindDistinct(a, Member(key, Find(b, key).value));
    }
  }

  /** The added members are the claims that stay in the clear, and the holder key. */
  lemma AddedInPlainNames(claims: seq<Member>, holderKey: Option<Value>)
    requires CleanMembers(claims) && (holderKey.Some? ==> Clean(holderKey.value))
    ensures forall k :: AlwaysClear(k) ==> Find(AddedMembers(claims, holderKey), k) == Find(claims, k)
    ensures holderKey.Some? ==>
      Find(AddedMembers(claims, holderKey), "cnf") == Some(Object([Member("jwk", holderKey.value)]))
  {
    var kept, added := WithoutCnf(claims, holderKey), AddedMembers(claims, holderKey);
    SplitClaims(claims, holderKey);
    RemoveMembers(claims, CNF_KEY);
    RemoveDistinct(claims, CNF_KEY);
    PickMembers(kept, ALWAYS_REVEALED);
    forall k | AlwaysClear(k) ensures Find(added, k) == Find(claims, k) {
      assert k in ["iss", "iat", "exp"];
      FoundInBoth(added, claims, k);
    }
    if holderKey.Some? {
      FindDistinct(added, added[|added| - 1]);
    }
  }

  /** All other claims are planned, but for a `cnf` that the holder key replaces. */
  lemma PlannedInPlainNames(claims: seq<Member>, holderKey: Option<Value>)
    requires DistinctKeys(claims)
    ensures forall m :: m in PlannedClaims(claims, holderKey) <==>
      m in claims && !AlwaysClear(m.key) && (holderKey.Some? ==> m.key != "cnf")
  {
    RemoveMembers(claims, CNF_KEY);
    RemoveDistinct(claims, CNF_KEY);
    assert ALWAYS_REVEALED == ["iss", "iat", "exp"];
    RemoveAllMembers(WithoutCnf(claims, holderKey), ALWAYS_REVEALED);
  }

  lemma SignedFinds(es: seq<Entry>, decoys: seq<string>, added: seq<Member>, key: string, c: Codec)
    requires Addable(es, added)
    ensures Find(Signed(es, decoys, added, c), "_sd_alg") == Some(Str("sha-256"))
    ensures HasKey(added, key) ==> Find(Signed(es, decoys, added, c), key) == Find(added, key)
    ensures !HasKey(added, key) && key != "_sd" && key != "_sd_alg" && (forall e :: e in es ==> e.key != key) ==>
      Find(Signed(es, decoys, added, c), key) == None
  {
    var base := Payload(Dict(es, decoys), c).members;
    var front := Put(base, DIGEST_ALG_KEY, Str("sha-256"));
    SignedShape(es, decoys, added, c);
    FindAppend(front, added, key);
    FindAppend(front, added, "_sd_alg");
    PutFind(base, DIGEST_ALG_KEY, Str("sha-256"), "_sd_alg");
    PutFind(base, DIGEST_ALG_KEY, Str("sha-256"), key);
    forall i | 0 <= i < |added| ensures added[i].key != "_sd_alg" {
      assert added[i] in added;
    }
    if forall e :: e in es ==> e.key != key {
      ShowsItself(Dict(es, decoys), c);
      LookupShown(base, es, decoys, false, key, c);
      NoSuchName(es, key);
    }
  }

  /**
   Whatever the strategy: the signed payload has `iss`, `iat` and `exp` as they were given, names `sha-256`, and carries
   the holder key as `cnf.jwk`; none of these claims is hidden, and all others are planned.
   */
  lemma ClaimsInTheClear(claims: seq<Member>, strategy: Strategy, holderKey: Option<Value>, cfg: Config, c: Codec)
    requires Issuable(claims, strategy, holderKey)
    ensures var r, t := Issue(Object(claims), strategy, holderKey, cfg, c), PlannedTree(claims, strategy, holderKey, cfg);
      && r.Success? && t.Dict?
      && Find(r.value.payload, "_sd_alg") == Some(Str("sha-256"))
      && (forall k :: AlwaysClear(k) ==> Find(r.value.payload, k) == Find(claims, k))
      && (holderKey.Some? ==> Find(r.value.payload, "cnf") == Some(Object([Member("jwk", holderKey.value)])))
      && (forall m :: m in ClaimMembers(t.entries) <==>
            m in claims && !AlwaysClear(m.key) && (holderKey.Some? ==> m.key != "cnf"))
      && (forall e :: e in t.entries ==> !AlwaysClear(e.key) && (holderKey.Some? ==> e.key != "cnf"))
  {
    var t := PlannedTree(claims, strategy, holderKey, cfg);
    IssuedCredential(claims, strategy, holderKey, cfg, c);
    PlannedInPlainNames(claims, holderKey);
    PlannedNames(claims, holderKey, t.entries);
    SignedInTheClear(claims, holderKey, t.entries, t.decoys, c);
  }

  lemma SignedInTheClear(claims: seq<Member>, holderKey: Option<Value>, es: seq<Entry>, decoys: seq<string>, c: Codec)
    requires CleanMembers(claims) && (holderKey.Some? ==> Clean(holderKey.value))
    requires Addable(es, AddedMembers(claims, holderKey)) && ClaimMembers(es) == PlannedClaims(claims, holderKey)
    ensures var payload := Signed(es, decoys, AddedMembers(claims, holderKey), c);
      && Find(payload, "_sd_alg") == Some(Str("sha-256"))
      && (forall k :: AlwaysClear(k) ==> Find(payload, k) == Find(claims, k))
      && (holderKey.Some? ==> Find(payload, "cnf") == Some(Object([Member("jwk", holderKey.value)])))
  {
    var added := AddedMembers(claims, holderKey);
    AddedInPlainNames(claims, holderKey);
    PlannedNames(claims, holderKey, es);
    SignedFinds(es, decoys, added, "cnf", c);
    forall k | AlwaysClear(k) ensures Find(Signed(es, decoys, added, c), k) == Find(claims, k) {
      SignedFinds(es, decoys, added, k, c);
    }
  }

  lemma PlannedNames(claims: seq<Member>, holderKey: Option<Value>, es: seq<Entry>)
    requires DistinctKeys(claims) && ClaimMembers(es) == PlannedClaims(claims, holderKey)
    ensures forall e :: e in es ==> !AlwaysClear(e.key) && (holderKey.Some? ==> e.key != "cnf")
  {
    PlannedInPlainNames(claims, holderKey);
    forall e | e in es ensures !AlwaysClear(e.key) && (holderKey.Some? ==> e.key != "cnf") {
      var i :| 0 <= i < |es| && es[i] == e;
      assert ClaimMembers(es)[i] in ClaimMembers(es);
    }
  }

  // What strategies without paths hide

  /** Some node is there at the path, and it is hidden exactly if `hidden`. */
  ghost predicate HidesAt(t: Tree, path: seq<Segment>, hidden: bool)
    requires path != []
  {
    NodeAt(t, path) ==> (HiddenAt(t, path) <==> hidden)
  }

  lemma {:induction false} DecidesNothing(path: seq<Segment>)
    requires path != []
    ensures !Decides(NoSDClaims, path)
    decreases |path|
  {
    if |path| > 1 {
      DecidesNothing(path[1..]);
    }
  }

  lemma {:induction false} DecidesAll(path: seq<Segment>)
    requires path != []
    ensures Decides(AllLevels, path)
    decreases |path|
  {
    if |path| > 1 {
      DecidesAll(path[1..]);
    }
  }

  lemma {:induction false} ChosenByNoneIsOpen(t: Tree)
    requires Chosen(t, NoSDClaims)
    ensures Open(t)
    decreases t, 1
  {
    match t
    case Leaf(_) =>
    case List(es) => ItemsByNone(es);
    case Dict(es, _) => MembersByNone(es);
  }

  lemma {:induction false} ItemsByNone(es: seq<Entry>)
    requires ItemsChosen(es, NoSDClaims)
    ensures OpenEntries(es)
    decreases es, 0
  {
    if es != [] {
      ItemsByNone(es[..|es| - 1]);
      ChosenByNoneIsOpen(es[|es| - 1].value);
    }
  }

  lemma {:induction false} MembersByNone(es: seq<Entry>)
    requires MembersChosen(es, NoSDClaims)
    ensures OpenEntries(es)
    decreases es, 0
  {
    if es != [] {
      MembersByNone(es[..|es| - 1]);
      ChosenByNoneIsOpen(es[|es| - 1].value);
    }
  }

  /** Without selective disclosure nothing is hidden, and there are no disclosures. */
  lemma NothingHidden(claims: seq<Member>, holderKey: Option<Value>, cfg: Config, c: Codec)
    requires Issuable(claims, NoSDClaims, holderKey)
    ensures var t, r := PlannedTree(claims, NoSDClaims, holderKey, cfg), Issue(Object(claims), NoSDClaims, holderKey, cfg, c);
      && r.Success? && r.value.disclosures == []
      && forall path :: path != [] ==> HidesAt(t, path, false)
  {
    var t := PlannedTree(claims, NoSDClaims, holderKey, cfg);
    IssuedCredential(claims, NoSDClaims, holderKey, cfg, c);
    ChosenByNoneIsOpen(t);
    OpenExactly(t, c);
    forall path | path != [] ensures HidesAt(t, path, false) {
      if NodeAt(t, path) {
        HiddenWhereDecided(t, NoSDClaims, path);
        DecidesNothing(path);
      }
    }
  }

  /** With the top level only: every planned claim is hidden, and nothing below any of them. */
  lemma TopLevelHidden(claims: seq<Member>, holderKey: Option<Value>, cfg: Config, c: Codec)
    requires Issuable(claims, TopLevel, holderKey)
    ensures var t := PlannedTree(claims, TopLevel, holderKey, cfg);
      && t.Dict? && |Issues(t, c)| == |t.entries|
      && (forall e :: e in t.entries ==> e.salt.Some? && Issues(e.value, c) == [])
      && forall path :: path != [] ==> HidesAt(t, path, |path| == 1)
  {
    var t := PlannedTree(claims, TopLevel, holderKey, cfg);
    IssuedCredential(claims, TopLevel, holderKey, cfg, c);
    TopMembers(t.entries, c);
    forall path | path != [] ensures HidesAt(t, path, |path| == 1) {
      if NodeAt(t, path) {
        HiddenWhereDecided(t, TopLevel, path);
        if |path| > 1 {
          DecidesNothing(path[1..]);
        }
      }
    }
  }

  lemma {:induction false} TopMembers(es: seq<Entry>, c: Codec)
    requires MembersChosen(es, TopLevel)
    ensures |EntryIssues(es, true, c)| == |es| && forall e :: e in es ==> e.salt.Some? && Issues(e.value, c) == []
  {
    if es != [] {
      var n := |es| - 1;
      TopMembers(es[..n], c);
      ChosenByNoneIsOpen(es[n].value);
      OpenExactly(es[n].value, c);
      assert forall e :: e in es ==> e in es[..n] || e == es[n];
    }
  }

  /** With all levels: every planned claim, every nested claim and every array element is hidden. */
  lemma AllLevelsHidden(claims: seq<Member>, holderKey: Option<Value>, cfg: Config)
    requires Issuable(claims, AllLevels, holderKey)
    ensures var t := PlannedTree(claims, AllLevels, holderKey, cfg);
      forall path :: path != [] ==> HidesAt(t, path, true)
  {
    var t := PlannedTree(claims, AllLevels, holderKey, cfg);
    IssuedCredential(claims, AllLevels, holderKey, cfg, Codec(v => "", s => "", s => None));
    forall path | path != [] ensures HidesAt(t, path, true) {
      if NodeAt(t, path) {
        HiddenWhereDecided(t, AllLevels, path);
        DecidesAll(path);
      }
    }
  }
}
