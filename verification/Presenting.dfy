/**
 From the issuer's text to the verifier's claims: the credential is serialized, kept by a holder, presented, parsed
 again and verified.
 */
module Presenting {
  import opened Acceptance
  import opened ClaimTree
  import opened Compact
  import opened CredentialLaw
  import opened FullRequest
  import opened Holder
  import opened HolderLaw
  import opened Holding
  import opened Issuance
  import opened Json
  import opened JsonFacts
  import opened Plan
  import P = Preprocessing
  import opened Sequences
  import opened Strategy
  import opened UnboundedUnpacking
  import opened Wrappers

  datatype VerifierError = Unparsed(p: ParseError) | Refused(e: VerifyError)

  /** The verifier's claims for a text, its signature and key-binding claims left aside. */
  function VerifyText(text: string, j: JwtCodec, c: Codec): Result<Value, VerifierError> {
    var p := Parse(text, j);
    if p.Failure? then Failure(Unparsed(p.error))
    else
      var r := Verify(p.value.payload, p.value.disclosures, c);
      if r.Failure? then Failure(Refused(r.error)) else Success(r.value)
  }

  // A selection is no longer than the whole

  function Total(parts: seq<string>): nat {
    if parts == [] then 0 else Total(parts[..|parts| - 1]) + |parts[|parts| - 1]|
  }

  lemma {:induction false} TotalWithout(parts: seq<string>, i: nat)
    requires i < |parts|
    ensures Total(parts) == Total(parts[..i] + parts[i + 1..]) + |parts[i]|
  {
    var n := |parts| - 1;
    if i == n {
      assert parts[..i] + parts[i + 1..] == parts[..n];
    } else {
      TotalWithout(parts[..n], i);
      assert (parts[..i] + parts[i + 1..])[..n - 1] == parts[..n][..i] + parts[..n][i + 1..];
    }
  }

  lemma {:induction false} TotalOfSome(a: seq<string>, b: seq<string>)
    requires NoDup(a) && forall x :: x in a ==> x in b
    ensures |a| <= |b| && Total(a) <= Total(b)
  {
    if a != [] {
      var n := |a| - 1;
      assert a[n] in b;
      var i :| 0 <= i < |b| && b[i] == a[n];
      var rest := b[..i] + b[i + 1..];
      forall x | x in a[..n] ensures x in rest {
        assert x in a && x != a[n];
        var k :| 0 <= k < |b| && b[k] == x;
        assert if k < i then rest[k] == x else rest[k - 1] == x;
      }
      TotalOfSome(a[..n], rest);
      TotalWithout(b, i);
    }
  }

  lemma {:induction false} JoinLength(parts: seq<string>, sep: char)
    requires parts != []
    ensures |Join(parts, sep)| == Total(parts) + |parts| - 1
  {
    if |parts| > 1 {
      JoinLength(parts[..|parts| - 1], sep);
    } else {
      assert parts[..0] == [];
    }
  }

  lemma CredentialLength(sdJwt: string, disclosures: seq<string>)
    ensures |RenderCredential(sdJwt, disclosures)| == |sdJwt| + Total(disclosures) + |disclosures| + 1
  {
    JoinLength([sdJwt] + disclosures, SEPARATOR);
    TotalFront(sdJwt, disclosures);
  }

  lemma {:induction false} TotalFront(first: string, parts: seq<string>)
    ensures Total([first] + parts) == |first| + Total(parts)
  {
    var all := [first] + parts;
    if parts == [] {
      assert all[..0] == [];
    } else {
      TotalFront(first, parts[..|parts| - 1]);
      assert all[..|all| - 1] == [first] + parts[..|parts| - 1];
    }
  }

  /**
   If a credential's text is accepted by the parser, so is that of any selection of its disclosures, without a
   key-binding JWT or with one that leaves the text within the size limit.
   */
  lemma SelectionParses(sdJwt: string, all: seq<string>, some: seq<string>, keyBindingJwt: string, j: JwtCodec)
    requires AllFree([sdJwt] + all, SEPARATOR) && Parse(RenderCredential(sdJwt, all), j).Success?
    requires NoDup(some) && forall x :: x in some ==> x in all
    requires Free(keyBindingJwt, SEPARATOR)
    requires keyBindingJwt != "" ==> |RenderPresentation(sdJwt, some, keyBindingJwt)| <= MAX_SD_JWT_INPUT_BYTES
    ensures var p := Parse(RenderCredential(sdJwt, all), j).value;
      && p.sdJwt == sdJwt && p.disclosures == all && p.keyBindingJwt == None
      && Parse(RenderPresentation(sdJwt, some, keyBindingJwt), j)
           == Success(p.(disclosures := some, keyBindingJwt := NonEmpty(keyBindingJwt)))
  {
    var p := Parse(RenderCredential(sdJwt, all), j).value;
    CredentialIsPresentation(sdJwt, all);
    CredentialIsPresentation(sdJwt, some);
    CredentialParts(sdJwt, all, j);
    ParsedSerializes(RenderCredential(sdJwt, all), j);
    CredentialLength(sdJwt, all);
    CredentialLength(sdJwt, some);
    TotalOfSome(some, all);
    PartsOf(sdJwt, all, some);
    SerializedParses(RenderPresentation(sdJwt, some, keyBindingJwt),
                     p.(disclosures := some, keyBindingJwt := NonEmpty(keyBindingJwt)), j);
  }

  lemma PartsOf(sdJwt: string, all: seq<string>, some: seq<string>)
    requires AllFree([sdJwt] + all, SEPARATOR) && forall x :: x in some ==> x in all
    ensures AllFree([sdJwt] + some, SEPARATOR)
    ensures forall i :: 0 <= i < |some| ==> exists k :: 0 <= k < |all| && all[k] == some[i]
  {
    var front := [sdJwt] + all;
    assert Free(front[0], SEPARATOR);
    forall i | 0 <= i < |some|
      ensures Free(some[i], SEPARATOR)
      ensures exists k :: 0 <= k < |all| && all[k] == some[i]
    {
      assert some[i] in all;
      var k :| 0 <= k < |all| && all[k] == some[i];
      assert front[k + 1] == some[i];
    }
    var shown := [sdJwt] + some;
    forall i | 0 <= i < |shown| ensures Free(shown[i], SEPARATOR) {
      assert i > 0 ==> shown[i] == some[i - 1];
    }
  }

  lemma CredentialParts(sdJwt: string, all: seq<string>, j: JwtCodec)
    requires AllFree([sdJwt] + all, SEPARATOR) && Parse(RenderCredential(sdJwt, all), j).Success?
    ensures var p := Parse(RenderCredential(sdJwt, all), j).value;
      p.sdJwt == sdJwt && p.disclosures == all && p.keyBindingJwt == None
  {
    var parts := [sdJwt] + all + [""];
    CredentialIsPresentation(sdJwt, all);
    SplitJoin(parts, SEPARATOR);
    assert parts[1..|parts| - 1] == all;
  }

  // The issuer's own list is a full selection

  lemma AllOfThem(w: Tree, c: Codec)
    requires NoDup(Tags(w, c))
    ensures Selection(Raws(Issues(w, c)), Issues(w, c)) && HiddenTags(w, c) <= Held(Raws(Issues(w, c)), c)
  {
    var ds := Issues(w, c);
    TagsUnambiguous(w, c);
    IssuesHashed(w, c);
    HiddenAreIssued(w, c);
    forall i, k | 0 <= i < k < |ds| ensures Hashes(ds)[i] != Hashes(ds)[k] {
    }
    ChoiceIsSelection(ds, ds, c);
  }

  lemma SelectedAreIssued(some: seq<string>, ds: seq<Issued>)
    requires Selection(some, ds)
    ensures NoDup(some) && forall x :: x in some ==> x in Raws(ds)
  {
    forall x | x in some ensures x in Raws(ds) {
      var d :| d in ds && d.raw == x;
      var i :| 0 <= i < |ds| && ds[i] == d;
      assert Raws(ds)[i] == x;
    }
  }

  /** `sdJwt` carries the payload, and its text with the disclosures is one the parser accepts. */
  ghost predicate Serialized(sdJwt: string, credential: Credential, j: JwtCodec) {
    && AllFree([sdJwt] + credential.disclosures, SEPARATOR)
    && var p := Parse(RenderCredential(sdJwt, credential.disclosures), j);
    p.Success? && p.value.payload == credential.payload
  }

  // End to end

  /** A credential that is issued, carried by `sdJwt`, with sound digests. */
  ghost predicate Carried(
      claims: seq<Member>, strategy: Strategy, holderKey: Option<Value>, cfg: Config, c: Codec, j: JwtCodec, sdJwt: string)
  {
    && Issuable(claims, strategy, holderKey) && SoundlyEncoded(WholeTree(claims, strategy, holderKey, cfg), c)
    && var credential := Issue(Object(claims), strategy, holderKey, cfg, c);
    credential.Success? && Serialized(sdJwt, credential.value, j)
  }

  ghost function Kept(
      claims: seq<Member>, strategy: Strategy, holderKey: Option<Value>, cfg: Config, c: Codec, j: JwtCodec, sdJwt: string)
    : Result<Holder.Kept, HolderError>
    requires Issue(Object(claims), strategy, holderKey, cfg, c).Success?
  {
    Keep(RenderCredential(sdJwt, Issue(Object(claims), strategy, holderKey, cfg, c).value.disclosures), j, c)
  }

  /** Keeping the issuer's text gives what the holder selects from. */
  lemma KeptSelects(
      claims: seq<Member>, strategy: Strategy, holderKey: Option<Value>, cfg: Config, c: Codec, j: JwtCodec, sdJwt: string,
      request: seq<Member>)
    requires Carried(claims, strategy, holderKey, cfg, c, j, sdJwt)
    ensures var all, kept := Issue(Object(claims), strategy, holderKey, cfg, c).value.disclosures,
                             Kept(claims, strategy, holderKey, cfg, c, j, sdJwt);
      var w := WholeTree(claims, strategy, holderKey, cfg);
      && all == Raws(Issues(w, c)) && Selection(all, Issues(w, c)) && HiddenTags(w, c) <= Held(all, c)
      && kept.Success? && kept.value.sdJwt == sdJwt && P.PreprocessSerial(all, P.Worker(c)).Success?
      && kept.value.payload == Issue(Object(claims), strategy, holderKey, cfg, c).value.payload
      && Select(kept.value.payload, request, kept.value.mappings)
           == SelectFrom(claims, strategy, holderKey, cfg, c, all, request)
  {
    var w, credential := WholeTree(claims, strategy, holderKey, cfg), Issue(Object(claims), strategy, holderKey, cfg, c).value;
    CredentialShows(claims, strategy, holderKey, cfg, c);
    AllOfThem(w, c);
    SelectFromChooses(claims, strategy, holderKey, cfg, c, credential.disclosures, request);
    SelectionParses(sdJwt, credential.disclosures, [], "", j);
  }

  /** The verifier parses a selection, with or without a key-binding JWT, and reads it. */
  lemma SelectionIsRead(
      claims: seq<Member>, strategy: Strategy, holderKey: Option<Value>, cfg: Config, c: Codec, j: JwtCodec, sdJwt: string,
      shown: seq<string>, keyBindingJwt: string)
    requires Carried(claims, strategy, holderKey, cfg, c, j, sdJwt)
    requires var w, credential := WholeTree(claims, strategy, holderKey, cfg), Issue(Object(claims), strategy, holderKey, cfg, c).value;
      && credential.disclosures == Raws(Issues(w, c)) && Selection(shown, Issues(w, c))
      && Accepts(credential.payload, shown, w, c)
    requires Free(keyBindingJwt, SEPARATOR)
    requires keyBindingJwt != "" ==> |RenderPresentation(sdJwt, shown, keyBindingJwt)| <= MAX_SD_JWT_INPUT_BYTES
    ensures var text := RenderPresentation(sdJwt, shown, keyBindingJwt);
      && ReadsAs(VerifyText(text, j, c), WholeTree(claims, strategy, holderKey, cfg), c, Held(shown, c))
      && Parse(text, j).Success? && Parse(text, j).value.keyBindingJwt == NonEmpty(keyBindingJwt)
      && AllFree([sdJwt] + shown, SEPARATOR)
  {
    var all := Issue(Object(claims), strategy, holderKey, cfg, c).value.disclosures;
    SelectedAreIssued(shown, Issues(WholeTree(claims, strategy, holderKey, cfg), c));
    SelectionParses(sdJwt, all, shown, keyBindingJwt, j);
    PartsOf(sdJwt, all, shown);
  }

  /**
   Keep the issuer's text, ask for anything, and present what is selected. The verifier parses the presentation and,
   wherever what is shown fits, reads the claims without the hidden ones that were not selected.
   */
  lemma PresentationIsAccepted(
      claims: seq<Member>, strategy: Strategy, holderKey: Option<Value>, cfg: Config, c: Codec, j: JwtCodec, sdJwt: string,
      request: seq<Member>)
    requires Carried(claims, strategy, holderKey, cfg, c, j, sdJwt) && WellKeyed(Object(request))
    requires var w := WholeTree(claims, strategy, holderKey, cfg); w.Dict? ==> !HidesBehindAlg(w.entries, c)
    ensures var w, kept := WholeTree(claims, strategy, holderKey, cfg), Kept(claims, strategy, holderKey, cfg, c, j, sdJwt);
      && kept.Success?
      && var shown, text := Select(kept.value.payload, request, kept.value.mappings), Present(kept.value, request);
      && (text.Success? <==> shown.Success?)
      && (text.Success? && Fits(w, c, Held(shown.value, c)) ==> ReadsAs(VerifyText(text.value, j, c), w, c, Held(shown.value, c)))
  {
    KeptSelects(claims, strategy, holderKey, cfg, c, j, sdJwt, request);
    var w, kept := WholeTree(claims, strategy, holderKey, cfg), Kept(claims, strategy, holderKey, cfg, c, j, sdJwt).value;
    var all := Issue(Object(claims), strategy, holderKey, cfg, c).value.disclosures;
    SelectionIsAccepted(claims, strategy, holderKey, cfg, c, all, request);
    var shown := Select(kept.payload, request, kept.mappings);
    if shown.Success? && Fits(w, c, Held(shown.value, c)) {
      SelectionIsRead(claims, strategy, holderKey, cfg, c, j, sdJwt, shown.value, "");
    }
  }

  /**
   The same with key binding: a prepared presentation, completed with any signature, is read in the same way, and the
   verifier finds its own `sd_hash` in the key-binding JWT.
   */
  lemma BoundPresentationIsAccepted(
      claims: seq<Member>, strategy: Strategy, holderKey: Option<Value>, cfg: Config, c: Codec, j: JwtCodec, sdJwt: string,
      request: seq<Member>, b: Binding, s: Signing, signature: string, readJwt: string -> Option<map<string, Value>>)
    requires Carried(claims, strategy, holderKey, cfg, c, j, sdJwt) && WellKeyed(Object(request))
    requires var w := WholeTree(claims, strategy, holderKey, cfg); w.Dict? ==> !HidesBehindAlg(w.entries, c)
    requires var kept := Kept(claims, strategy, holderKey, cfg, c, j, sdJwt);
      kept.Success? && Prepare(kept.value, request, b, s, c).Success?
    requires var p := Prepare(Kept(claims, strategy, holderKey, cfg, c, j, sdJwt).value, request, b, s, c).value;
      && Free(KeyBindingJwt(p, signature), SEPARATOR) && |Complete(p, signature)| <= MAX_SD_JWT_INPUT_BYTES
      && readJwt(KeyBindingJwt(p, signature)) == Some(KeyBindingClaims(p.sdJwt, p.disclosures, b, c))
    ensures var w := WholeTree(claims, strategy, holderKey, cfg);
      var p := Prepare(Kept(claims, strategy, holderKey, cfg, c, j, sdJwt).value, request, b, s, c).value;
      Fits(w, c, Held(p.disclosures, c)) ==>
        && ReadsAs(VerifyText(Complete(p, signature), j, c), w, c, Held(p.disclosures, c))
        && CheckDigest(Parse(Complete(p, signature), j).value, readJwt, c) == Success(())
  {
    var w, kept := WholeTree(claims, strategy, holderKey, cfg), Kept(claims, strategy, holderKey, cfg, c, j, sdJwt).value;
    var all, p := Issue(Object(claims), strategy, holderKey, cfg, c).value.disclosures, Prepare(kept, request, b, s, c).value;
    KeptSelects(claims, strategy, holderKey, cfg, c, j, sdJwt, request);
    SelectionIsAccepted(claims, strategy, holderKey, cfg, c, all, request);
    PreparedParts(kept, request, b, s, c);
    if Fits(w, c, Held(p.disclosures, c)) {
      SelectionIsRead(claims, strategy, holderKey, cfg, c, j, sdJwt, p.disclosures, KeyBindingJwt(p, signature));
      CompletedIsBound(kept, request, b, s, c, signature, j, readJwt);
    }
  }

  ghost predicate ReadsAs<E>(r: Result<Value, E>, w: Tree, c: Codec, held: set<string>) {
    r.Success? && Denote(r.value) == Denote(Prune(w, c, held, false))
  }

  /** Asking for the claims themselves gives back the issuer's text exactly, if and only if the tree is revealable. */
  lemma FullPresentationIsCredential(
      claims: seq<Member>, strategy: Strategy, holderKey: Option<Value>, cfg: Config, c: Codec, j: JwtCodec, sdJwt: string)
    requires Carried(claims, strategy, holderKey, cfg, c, j, sdJwt)
    requires !HasKey(claims, Json.DIGEST_ALG_KEY) && (holderKey.Some? ==> !HasKey(claims, CNF_KEY))
    ensures var all, kept := Issue(Object(claims), strategy, holderKey, cfg, c).value.disclosures,
                             Kept(claims, strategy, holderKey, cfg, c, j, sdJwt);
      && kept.Success?
      && var r := Present(kept.value, claims);
      r.Success? && (r.value == RenderCredential(sdJwt, all) <==> Revealable(PlannedTree(claims, strategy, holderKey, cfg)))
  {
    KeptSelects(claims, strategy, holderKey, cfg, c, j, sdJwt, claims);
    var w, kept := WholeTree(claims, strategy, holderKey, cfg), Kept(claims, strategy, holderKey, cfg, c, j, sdJwt).value;
    var all := Issue(Object(claims), strategy, holderKey, cfg, c).value.disclosures;
    FullRequestSelectsAll(claims, strategy, holderKey, cfg, c, all);
    FullIsSelection(claims, strategy, holderKey, cfg, c, all);
    var shown := Select(kept.payload, claims, kept.mappings).value;
    SelectedAreIssued(shown, Issues(w, c));
    PartsOf(sdJwt, all, shown);
    CredentialIsPresentation(sdJwt, shown);
    if RenderCredential(sdJwt, shown) == RenderCredential(sdJwt, all) {
      KeyBindingBinds(sdJwt, shown, sdJwt, all);
    }
  }

  /** What is selected for the claims themselves are disclosures of the credential. */
  lemma FullIsSelection(
      claims: seq<Member>, strategy: Strategy, holderKey: Option<Value>, cfg: Config, c: Codec, presented: seq<string>)
    requires Issuable(claims, strategy, holderKey) && !HasKey(claims, Json.DIGEST_ALG_KEY)
    requires var w := WholeTree(claims, strategy, holderKey, cfg);
      SoundlyEncoded(w, c) && Selection(presented, Issues(w, c)) && HiddenTags(w, c) <= Held(presented, c)
    ensures Issue(Object(claims), strategy, holderKey, cfg, c).Success? && P.PreprocessSerial(presented, P.Worker(c)).Success?
    ensures var r := SelectFrom(claims, strategy, holderKey, cfg, c, presented, claims);
      r.Success? ==> Selection(r.value, Issues(WholeTree(claims, strategy, holderKey, cfg), c))
  {
    var w := WholeTree(claims, strategy, holderKey, cfg);
    WholeTreeFacts(claims, strategy, holderKey, cfg, c);
    SplitClaims(claims, holderKey);
    NoAlgBehind(claims, holderKey, w, c);
    SelectionIsAccepted(claims, strategy, holderKey, cfg, c, presented, claims);
  }

  lemma NoAlgBehind(claims: seq<Member>, holderKey: Option<Value>, w: Tree, c: Codec)
    requires DistinctKeys(claims) && !HasKey(claims, Json.DIGEST_ALG_KEY) && w.Dict?
    requires ClaimMembers(w.entries) == PlannedClaims(claims, holderKey) + AddedMembers(claims, holderKey)
    requires forall m :: m in AddedMembers(claims, holderKey) ==> m.key != Json.DIGEST_ALG_KEY
    ensures !HidesBehindAlg(w.entries, c)
  {
    RemoveMembers(claims, CNF_KEY);
    RemoveDistinct(claims, CNF_KEY);
    RemoveAllMembers(WithoutCnf(claims, holderKey), ALWAYS_REVEALED);
    forall e | e in w.entries ensures e.key != Json.DIGEST_ALG_KEY {
      var i :| 0 <= i < |w.entries| && w.entries[i] == e;
      assert ClaimMembers(w.entries)[i] in ClaimMembers(w.entries);
    }
  }
}
