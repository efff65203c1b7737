/**
 The holder's choice is fit for the verifier: whatever is asked for, the chosen disclosures are different, are the
 credential's, and come with every disclosure that encloses them.
 */
module HolderLaw {
  import opened Acceptance
  import opened Choosing
  import opened ClaimTree
  import opened CredentialLaw
  import opened Holding
  import opened Issuance
  import opened Json
  import opened JsonFacts
  import opened Plan
  import opened Preprocessing
  import opened Sequences
  import opened SignedPayload
  import opened Strategy
  import opened UnboundedUnpacking
  import opened Unpacking
  import opened Wrappers

  type Edge = (string, Option<string>)

  /** Every chosen disclosure comes with the one enclosing it, up to `parent`. */
  ghost predicate Under(edges: set<Edge>, parent: Option<string>, chosen: set<string>) {
    forall e :: e in edges && e.0 in chosen ==> e.1 == parent || (e.1.Some? && e.1.value in chosen)
  }

  ghost predicate Picks(hashes: seq<string>, tags: set<string>, edges: set<Edge>, parent: Option<string>) {
    NoDup(hashes) && Elements(hashes) <= tags && Under(edges, parent, Elements(hashes))
  }

  lemma {:induction false} EdgeChildren(t: Tree, c: Codec, parent: Option<string>)
    ensures forall e :: e in Edges(t, c, parent) ==> e.0 in HiddenTags(t, c)
    decreases t, 1
  {
    match t
    case Leaf(_) =>
    case List(es) => EntryEdgeChildren(es, false, c, parent);
    case Dict(es, _) => EntryEdgeChildren(es, true, c, parent);
  }

  lemma {:induction false} EntryEdgeChildren(es: seq<Entry>, inDict: bool, c: Codec, parent: Option<string>)
    ensures forall e :: e in EntryEdges(es, inDict, c, parent) ==> e.0 in EntryHiddenTags(es, inDict, c)
    decreases es, 0
  {
    if es != [] {
      EntryEdgeChildren(es[..|es| - 1], inDict, c, parent);
      EdgeChildrenOf(es[|es| - 1], inDict, c, parent);
    }
  }

  lemma {:induction false} EdgeChildrenOf(e: Entry, inDict: bool, c: Codec, parent: Option<string>)
    ensures forall x :: x in EdgesOf(e, inDict, c, parent) ==> x.0 in HiddenOf(e, inDict, c)
    decreases e, 2
  {
    EdgeChildren(e.value, c, if e.salt.Some? then Some(Digest(e, inDict, c)) else parent);
  }

  /** Different entries hide different disclosures. */
  lemma {:induction false} HiddenApart(es: seq<Entry>, inDict: bool, c: Codec, i: nat)
    requires i < |es| && NoDup(EntryTags(es, inDict, c))
    ensures NoDup(TagsOf(es[i], inDict, c)) && HiddenOf(es[i], inDict, c) <= EntryHiddenTags(es, inDict, c)
    ensures forall j :: 0 <= j < |es| && j != i ==> HiddenOf(es[i], inDict, c) !! HiddenOf(es[j], inDict, c)
  {
    var n := |es| - 1;
    NoDupConcat(EntryTags(es[..n], inDict, c), TagsOf(es[n], inDict, c));
    EntryHiddenWithinTags(es[..n], inDict, c);
    HiddenOfWithinTags(es[n], inDict, c);
    assert HiddenOf(es[n], inDict, c) !! EntryHiddenTags(es[..n], inDict, c);
    assert EntryHiddenTags(es, inDict, c) == EntryHiddenTags(es[..n], inDict, c) + HiddenOf(es[n], inDict, c);
    if i < n {
      HiddenApart(es[..n], inDict, c, i);
    } else {
      forall j | 0 <= j < n ensures HiddenOf(es[j], inDict, c) <= EntryHiddenTags(es[..n], inDict, c) {
        HiddenApart(es[..n], inDict, c, j);
      }
    }
  }

  /** What is well chosen in one entry is well chosen among all. */
  lemma {:induction false} Lift(es: seq<Entry>, inDict: bool, c: Codec, i: nat, parent: Option<string>, chosen: set<string>)
    requires i < |es| && NoDup(EntryTags(es, inDict, c))
    requires chosen <= HiddenOf(es[i], inDict, c) && Under(EdgesOf(es[i], inDict, c, parent), parent, chosen)
    ensures Under(EntryEdges(es, inDict, c, parent), parent, chosen)
  {
    var n := |es| - 1;
    var front := es[..n];
    NoDupConcat(EntryTags(front, inDict, c), TagsOf(es[n], inDict, c));
    HiddenApart(es, inDict, c, i);
    if i < n {
      Lift(front, inDict, c, i, parent, chosen);
      EdgeChildrenOf(es[n], inDict, c, parent);
    } else {
      EntryEdgeChildren(front, inDict, c, parent);
      EntryHiddenWithinTags(front, inDict, c);
      HiddenOfWithinTags(es[n], inDict, c);
    }
  }

  lemma PicksTogether(a: seq<string>, b: seq<string>, tags: set<string>, edges: set<Edge>, parent: Option<string>)
    requires Picks(a, tags, edges, parent) && Picks(b, tags, edges, parent) && Elements(a) !! Elements(b)
    ensures Picks(a + b, tags, edges, parent)
  {
    forall x | x in a ensures x !in b {
      assert x in Elements(a);
    }
    NoDupConcat(a, b);
    ElementsConcat(a, b);
  }

  /** A hidden entry's own disclosure completes what is chosen inside it, before or after. */
  lemma OwnCompletes(e: Entry, inDict: bool, c: Codec, nested: seq<string>, parent: Option<string>)
    requires e.salt.Some? && NoDup(TagsOf(e, inDict, c))
    requires var q := Some(Digest(e, inDict, c)); Picks(nested, HiddenTags(e.value, c), Edges(e.value, c, q), q)
    ensures var own := [Digest(e, inDict, c)];
      && Picks(nested + own, HiddenOf(e, inDict, c), EdgesOf(e, inDict, c, parent), parent)
      && Picks(own + nested, HiddenOf(e, inDict, c), EdgesOf(e, inDict, c, parent), parent)
  {
    var x := Digest(e, inDict, c);
    NoDupConcat(Tags(e.value, c), [x]);
    HiddenWithinTags(e.value, c);
    EdgeChildren(e.value, c, Some(x));
    assert x in [x];
    UnderOwn(Edges(e.value, c, Some(x)), x, parent, Elements(nested), HiddenTags(e.value, c));
    WithOwn(nested, x, HiddenTags(e.value, c));
    assert EdgesOf(e, inDict, c, parent) == {(x, parent)} + Edges(e.value, c, Some(x));
    assert HiddenOf(e, inDict, c) == HiddenTags(e.value, c) + {x};
  }

  lemma WithOwn(nested: seq<string>, x: string, tags: set<string>)
    requires NoDup(nested) && Elements(nested) <= tags && x !in tags
    ensures NoDup(nested + [x]) && Elements(nested + [x]) == Elements(nested) + {x}
    ensures NoDup([x] + nested) && Elements([x] + nested) == Elements(nested) + {x}
  {
    assert x in [x];
    assert Elements([x]) == {x};
    assert x !in Elements(nested);
    ElementsConcat(nested, [x]);
    ElementsConcat([x], nested);
    NoDupConcat(nested, [x]);
    NoDupConcat([x], nested);
  }

  lemma UnderOwn(edges: set<Edge>, x: string, parent: Option<string>, chosen: set<string>, tags: set<string>)
    requires Under(edges, Some(x), chosen) && x !in tags && forall e :: e in edges ==> e.0 in tags
    ensures Under({(x, parent)} + edges, parent, chosen + {x})
  {
  }

  ghost function Below(e: Entry, inDict: bool, c: Codec, parent: Option<string>): Option<string> {
    if e.salt.Some? then Some(Digest(e, inDict, c)) else parent
  }

  lemma {:induction false} NamedAt(es: seq<Entry>, key: string)
    requires Named(es, key).Some?
    ensures exists i :: 0 <= i < |es| && es[i] == Named(es, key).value
  {
  }

  /** Entries of names that are not asked for are left alone. */
  ghost predicate Untouched(es: seq<Entry>, c: Codec, request: seq<Member>, hashes: seq<string>) {
    forall i :: 0 <= i < |es| && !HasKey(request, es[i].key) ==> HiddenOf(es[i], true, c) !! Elements(hashes)
  }

  /** A hidden claim called `_sd_alg` hides something inside. */
  ghost predicate HidesBehindAlg(es: seq<Entry>, c: Codec) {
    exists e :: e in es && e.key == DIGEST_ALG_KEY && e.salt.Some? && HiddenTags(e.value, c) != {}
  }

  lemma {:induction false} ChooseSound(es: seq<Entry>, structural: set<string>, request: seq<Member>, c: Codec, parent: Option<string>)
    requires NoDup(EntryTags(es, true, c)) && DistinctEntries(es) && WellFormedEntries(es) && WellKeyed(Object(request))
    requires DIGEST_ALG_KEY in structural ==> !HidesBehindAlg(es, c)
    requires Choose(es, structural, request, c).Success?
    ensures var hashes := Hashes(Choose(es, structural, request, c).value);
      && Picks(hashes, EntryHiddenTags(es, true, c), EntryEdges(es, true, c, parent), parent)
      && Untouched(es, c, request, hashes)
    decreases request, 0
  {
    if request != [] {
      var n := |request| - 1;
      var front, last := request[..n], request[n];
      ChooseSound(es, structural, front, c, parent);
      var r := Choose(es, structural, front, c).value;
      var more := ChooseClaim(es, structural, last.key, last.value, c).value;
      HashesConcat(r, more);
      ClaimSound(es, structural, last.key, last.value, c, parent);
      OneMoreClaim(es, front, last, Hashes(r), Hashes(more), c, parent);
      assert front + [last] == request;
    }
  }

  ghost predicate FromOne(es: seq<Entry>, key: string, c: Codec, hashes: seq<string>) {
    hashes == [] || exists i :: 0 <= i < |es| && es[i].key == key && Elements(hashes) <= HiddenOf(es[i], true, c)
  }

  lemma OneMoreClaim(
      es: seq<Entry>, request: seq<Member>, last: Member, hashes: seq<string>, more: seq<string>, c: Codec, parent: Option<string>)
    requires NoDup(EntryTags(es, true, c)) && DistinctEntries(es) && DistinctKeys(request + [last])
    requires Picks(hashes, EntryHiddenTags(es, true, c), EntryEdges(es, true, c, parent), parent) && Untouched(es, c, request, hashes)
    requires Picks(more, EntryHiddenTags(es, true, c), EntryEdges(es, true, c, parent), parent) && FromOne(es, last.key, c, more)
    ensures Picks(hashes + more, EntryHiddenTags(es, true, c), EntryEdges(es, true, c, parent), parent)
    ensures Untouched(es, c, request + [last], hashes + more)
  {
    var all := request + [last];
    ElementsConcat(hashes, more);
    KeysOfMore(request, last);
    if more == [] {
      assert hashes + more == hashes;
    } else {
      var i :| 0 <= i < |es| && es[i].key == last.key && Elements(more) <= HiddenOf(es[i], true, c);
      PicksTogether(hashes, more, EntryHiddenTags(es, true, c), EntryEdges(es, true, c, parent), parent);
      HiddenApart(es, true, c, i);
    }
  }

  lemma KeysOfMore(request: seq<Member>, last: Member)
    requires DistinctKeys(request + [last])
    ensures !HasKey(request, last.key)
    ensures forall k :: HasKey(request + [last], k) <==> HasKey(request, k) || k == last.key
  {
    var all := request + [last];
    forall i | 0 <= i < |request| ensures request[i].key != last.key {
      assert all[i].key != all[|request|].key;
    }
    forall k ensures HasKey(all, k) <==> HasKey(request, k) || k == last.key {
      if HasKey(request, k) {
        var i :| 0 <= i < |request| && request[i].key == k;
        assert all[i].key == k;
      }
      if k == last.key {
        assert all[|request|].key == k;
      }
    }
  }

  lemma {:induction false} ClaimSound(es: seq<Entry>, structural: set<string>, key: string, v: Value, c: Codec, parent: Option<string>)
    requires NoDup(EntryTags(es, true, c)) && DistinctEntries(es) && WellFormedEntries(es) && WellKeyed(v)
    requires DIGEST_ALG_KEY in structural ==> !HidesBehindAlg(es, c)
    requires ChooseClaim(es, structural, key, v, c).Success?
    ensures var hashes := Hashes(ChooseClaim(es, structural, key, v, c).value);
      && Picks(hashes, EntryHiddenTags(es, true, c), EntryEdges(es, true, c, parent), parent)
      && FromOne(es, key, c, hashes)
    decreases v, 3
  {
    if !Withheld(v) && Named(es, key).Some? {
      NamedAt(es, key);
      var i :| 0 <= i < |es| && es[i] == Named(es, key).value;
      var e := es[i];
      HiddenApart(es, true, c, i);
      TreeOfEntry(es, i);
      if ChooseBelow(e, v, c).Success? {
        BelowSound(e, true, v, c, Below(e, true, c, parent));
      }
      if key == DIGEST_ALG_KEY && key in structural {
        ShadowedSound(es, e, structural, v, c);
      } else {
        OwnClaimSound(es, i, structural, v, c, parent);
      }
    }
  }

  /** Nothing is chosen in front of a claim that hides nothing. */
  lemma ShadowedSound(es: seq<Entry>, e: Entry, structural: set<string>, v: Value, c: Codec)
    requires e in es && Named(es, DIGEST_ALG_KEY) == Some(e) && DIGEST_ALG_KEY in structural && !HidesBehindAlg(es, c)
    requires !Withheld(v) && ChooseClaim(es, structural, DIGEST_ALG_KEY, v, c).Success?
    requires ChooseBelow(e, v, c).Success? ==> Elements(Hashes(ChooseBelow(e, v, c).value)) <= HiddenTags(e.value, c)
    ensures ChooseClaim(es, structural, DIGEST_ALG_KEY, v, c).value == []
  {
    if e.salt.Some? {
      var hashes := Hashes(ChooseBelow(e, v, c).value);
      if hashes != [] {
        SomeElement(hashes);
      }
    }
  }

  lemma SomeElement(hashes: seq<string>)
    requires hashes != []
    ensures Elements(hashes) != {}
  {
    assert hashes[0] in Elements(hashes);
  }

  lemma OwnClaimSound(es: seq<Entry>, i: nat, structural: set<string>, v: Value, c: Codec, parent: Option<string>)
    requires i < |es| && Named(es, es[i].key) == Some(es[i]) && !(es[i].key == DIGEST_ALG_KEY && es[i].key in structural)
    requires NoDup(EntryTags(es, true, c)) && NoDup(TagsOf(es[i], true, c)) && !Withheld(v)
    requires HiddenOf(es[i], true, c) <= EntryHiddenTags(es, true, c)
    requires ChooseClaim(es, structural, es[i].key, v, c).Success?
    requires var e := es[i];
      var q := Below(e, true, c, parent);
      ChooseBelow(e, v, c).Success? ==> Picks(Hashes(ChooseBelow(e, v, c).value), HiddenTags(e.value, c), Edges(e.value, c, q), q)
    ensures var hashes := Hashes(ChooseClaim(es, structural, es[i].key, v, c).value);
      && Picks(hashes, EntryHiddenTags(es, true, c), EntryEdges(es, true, c, parent), parent)
      && FromOne(es, es[i].key, c, hashes)
  {
    var e, nested := es[i], ChooseBelow(es[i], v, c).value;
    if e.salt.Some? {
      OwnCompletes(e, true, c, Hashes(nested), parent);
      HashesConcat(nested, [IssuedOf(e, true, c)]);
      assert Hashes([IssuedOf(e, true, c)]) == [Digest(e, true, c)];
    }
    Lift(es, true, c, i, parent, Elements(Hashes(ChooseClaim(es, structural, e.key, v, c).value)));
  }

  lemma {:induction false} TreeOfEntry(es: seq<Entry>, i: nat)
    requires i < |es| && WellFormedEntries(es)
    ensures WellFormed(es[i].value)
  {
    if i < |es| - 1 {
      TreeOfEntry(es[..|es| - 1], i);
    }
  }

  lemma {:induction false} BelowSound(e: Entry, inDict: bool, v: Value, c: Codec, parent: Option<string>)
    requires NoDup(TagsOf(e, inDict, c)) && WellFormed(e.value) && WellKeyed(v) && ChooseBelow(e, v, c).Success?
    ensures Picks(Hashes(ChooseBelow(e, v, c).value), HiddenTags(e.value, c), Edges(e.value, c, parent), parent)
    decreases v, 2
  {
    InnerTags(e, inDict, c);
    match v
    case Array(requests) =>
      if e.value.List? {
        ItemsSound(e.value.entries, requests, c, parent);
      }
    case Object(request) =>
      if request != [] && e.value.Dict? {
        NoDupConcat(EntryTags(e.value.entries, true, c), DecoyDigests(e.value.decoys, c));
        ChooseSound(e.value.entries, Structural(e.value.entries, e.value.decoys, false, c), request, c, parent);
      }
    case _ =>
  }

  lemma InnerTags(e: Entry, inDict: bool, c: Codec)
    requires NoDup(TagsOf(e, inDict, c))
    ensures NoDup(Tags(e.value, c))
  {
    if e.salt.Some? {
      NoDupConcat(Tags(e.value, c), [Digest(e, inDict, c)]);
    }
  }

  /** Elements beyond the requests are left alone. */
  ghost predicate UntouchedFrom(es: seq<Entry>, k: nat, c: Codec, hashes: seq<string>) {
    forall i :: k <= i < |es| ==> HiddenOf(es[i], false, c) !! Elements(hashes)
  }

  lemma {:induction false} ItemsSound(es: seq<Entry>, requests: seq<Value>, c: Codec, parent: Option<string>)
    requires NoDup(EntryTags(es, false, c)) && WellFormedEntries(es) && WellKeyed(Array(requests))
    requires ChooseItems(es, requests, c).Success?
    ensures var hashes := Hashes(ChooseItems(es, requests, c).value);
      && Picks(hashes, EntryHiddenTags(es, false, c), EntryEdges(es, false, c, parent), parent)
      && UntouchedFrom(es, |requests|, c, hashes)
    decreases requests, 0
  {
    if requests != [] {
      var n := |requests| - 1;
      ItemsSound(es, requests[..n], c, parent);
      if n < |es| {
        var r, more := ChooseItems(es, requests[..n], c).value, ChooseItem(es[n], requests[n], c).value;
        HashesConcat(r, more);
        ElementsConcat(Hashes(r), Hashes(more));
        HiddenApart(es, false, c, n);
        TreeOfEntry(es, n);
        ItemSound(es[n], requests[n], c, parent);
        Lift(es, false, c, n, parent, Elements(Hashes(more)));
        PicksTogether(Hashes(r), Hashes(more), EntryHiddenTags(es, false, c), EntryEdges(es, false, c, parent), parent);
      }
    }
  }

  lemma {:induction false} ItemSound(e: Entry, v: Value, c: Codec, parent: Option<string>)
    requires NoDup(TagsOf(e, false, c)) && WellFormed(e.value) && WellKeyed(v) && ChooseItem(e, v, c).Success?
    ensures Picks(Hashes(ChooseItem(e, v, c).value), HiddenOf(e, false, c), EdgesOf(e, false, c, parent), parent)
    decreases v, 3
  {
    if e.salt.Some? {
      assert Hashes([IssuedOf(e, false, c)]) == [Digest(e, false, c)];
    }
    if e.salt.Some? && v == Bool(true) {
      OwnCompletes(e, false, c, [], parent);
      assert [Digest(e, false, c)] + [] == [Digest(e, false, c)];
    } else if Opens(e.value, v) {
      InnerTags(e, false, c);
      InsideSound(e.value, v, c, Below(e, false, c, parent));
      var nested := ChooseInside(e.value, v, c).value;
      if e.salt.Some? {
        OwnCompletes(e, false, c, Hashes(nested), parent);
        HashesConcat([IssuedOf(e, false, c)], nested);
      }
    }
  }

  lemma {:induction false} InsideSound(t: Tree, v: Value, c: Codec, parent: Option<string>)
    requires Opens(t, v) && NoDup(Tags(t, c)) && WellFormed(t) && WellKeyed(v) && ChooseInside(t, v, c).Success?
    ensures Picks(Hashes(ChooseInside(t, v, c).value), HiddenTags(t, c), Edges(t, c, parent), parent)
    decreases v, 1
  {
    match t
    case List(es) => ItemsSound(es, v.items, c, parent);
    case Dict(es, decoys) =>
      NoDupConcat(EntryTags(es, true, c), DecoyDigests(decoys, c));
      ChooseSound(es, Structural(es, decoys, false, c), v.members, c, parent);
  }

  // What is chosen is issued

  lemma {:induction false} EntryIssued(es: seq<Entry>, inDict: bool, c: Codec, e: Entry)
    requires e in es
    ensures forall d :: d in IssuesOf(e, inDict, c) ==> d in EntryIssues(es, inDict, c)
  {
    var n := |es| - 1;
    if e != es[n] {
      EntryIssued(es[..n], inDict, c, e);
    }
  }

  lemma InsideIssued(e: Entry, inDict: bool, c: Codec)
    ensures forall d :: d in Issues(e.value, c) ==> d in IssuesOf(e, inDict, c)
    ensures e.salt.Some? ==> IssuedOf(e, inDict, c) in IssuesOf(e, inDict, c)
  {
    if e.salt.Some? {
      assert IssuesOf(e, inDict, c)[|Issues(e.value, c)|] == IssuedOf(e, inDict, c);
    }
  }

  lemma {:induction false} ChooseIssued(es: seq<Entry>, structural: set<string>, request: seq<Member>, c: Codec)
    requires Choose(es, structural, request, c).Success?
    ensures forall d :: d in Choose(es, structural, request, c).value ==> d in EntryIssues(es, true, c)
    decreases request, 0
  {
    if request != [] {
      var n := |request| - 1;
      ChooseIssued(es, structural, request[..n], c);
      var key, v := request[n].key, request[n].value;
      if !Withheld(v) && Named(es, key).Some? {
        var e := Named(es, key).value;
        EntryIssued(es, true, c, e);
        if ChooseBelow(e, v, c).Success? {
          BelowIssued(e, v, c);
        }
        ClaimIssued(es, structural, e, v, c);
      } else {
        NothingChosen(es, structural, key, v, c);
      }
      assert forall d :: d in ChooseClaim(es, structural, key, v, c).value ==> d in EntryIssues(es, true, c);
    }
  }

  lemma NothingChosen(es: seq<Entry>, structural: set<string>, key: string, v: Value, c: Codec)
    requires (Withheld(v) || Named(es, key).None?) && ChooseClaim(es, structural, key, v, c).Success?
    ensures ChooseClaim(es, structural, key, v, c).value == []
  {
  }

  lemma ClaimIssued(es: seq<Entry>, structural: set<string>, e: Entry, v: Value, c: Codec)
    requires Named(es, e.key) == Some(e) && !Withheld(v) && ChooseClaim(es, structural, e.key, v, c).Success?
    requires ChooseBelow(e, v, c).Success? ==> forall d :: d in ChooseBelow(e, v, c).value ==> d in Issues(e.value, c)
    ensures forall d :: d in ChooseClaim(es, structural, e.key, v, c).value ==> d in IssuesOf(e, true, c)
  {
    InsideIssued(e, true, c);
  }

  lemma {:induction false} BelowIssued(e: Entry, v: Value, c: Codec)
    requires ChooseBelow(e, v, c).Success?
    ensures forall d :: d in ChooseBelow(e, v, c).value ==> d in Issues(e.value, c)
    decreases v, 2
  {
    match v
    case Array(requests) =>
      if e.value.List? {
        ItemsIssued(e.value.entries, requests, c);
      }
    case Object(request) =>
      if request != [] && e.value.Dict? {
        ChooseIssued(e.value.entries, Structural(e.value.entries, e.value.decoys, false, c), request, c);
      }
    case _ =>
  }

  lemma {:induction false} ItemsIssued(es: seq<Entry>, requests: seq<Value>, c: Codec)
    requires ChooseItems(es, requests, c).Success?
    ensures forall d :: d in ChooseItems(es, requests, c).value ==> d in EntryIssues(es, false, c)
    decreases requests, 0
  {
    if requests != [] {
      var n := |requests| - 1;
      ItemsIssued(es, requests[..n], c);
      if n < |es| {
        EntryIssued(es, false, c, es[n]);
        InsideIssued(es[n], false, c);
        if Opens(es[n].value, requests[n]) && !(es[n].salt.Some? && requests[n] == Bool(true)) {
          InsideChosenIssued(es[n].value, requests[n], c);
        }
      }
    }
  }

  lemma {:induction false} InsideChosenIssued(t: Tree, v: Value, c: Codec)
    requires Opens(t, v) && ChooseInside(t, v, c).Success?
    ensures forall d :: d in ChooseInside(t, v, c).value ==> d in Issues(t, c)
    decreases v, 1
  {
    match t
    case List(es) => ItemsIssued(es, v.items, c);
    case Dict(es, decoys) => ChooseIssued(es, Structural(es, decoys, false, c), v.members, c);
  }

  // The holder's mappings

  /** The mappings hold every disclosure of `ds`, by digest. */
  ghost predicate HoldsAll(m: Mappings, ds: seq<Issued>, c: Codec) {
    forall d :: d in ds ==>
      && d.hash in m.encoded && m.encoded[d.hash] == d.raw
      && d.hash in m.decoded && Some(m.decoded[d.hash]) == c.decode(d.raw)
  }

  lemma {:induction false} HoldingEquips(t: Tree, ds: seq<Issued>, m: Mappings, c: Codec)
    requires Faithful(t, c) && HoldsAll(m, ds, c)
    requires (forall d :: d in Issues(t, c) ==> d in ds) && forall x :: x in DecoyTags(t, c) ==> x !in m.decoded
    ensures Equipped(t, c, m)
    decreases t, 1
  {
    match t
    case Leaf(_) =>
    case List(es) => HoldingEquipsEntries(es, false, ds, m, c);
    case Dict(es, decoys) =>
      var ts := DecoyDigests(decoys, c);
      assert forall x :: x in EntryDecoyTags(es, c) || x in ts ==> x in DecoyTags(t, c);
      HoldingEquipsEntries(es, true, ds, m, c);
  }

  lemma {:induction false} HoldingEquipsEntries(es: seq<Entry>, inDict: bool, ds: seq<Issued>, m: Mappings, c: Codec)
    requires FaithfulEntries(es, inDict, c) && HoldsAll(m, ds, c)
    requires (forall d :: d in EntryIssues(es, inDict, c) ==> d in ds) && forall x :: x in EntryDecoyTags(es, c) ==> x !in m.decoded
    ensures EquippedEntries(es, inDict, c, m)
    decreases es, 0
  {
    if es != [] {
      var n := |es| - 1;
      var e := es[n];
      var issues, tags := IssuesOf(e, inDict, c), DecoyTags(e.value, c);
      assert forall d :: d in EntryIssues(es[..n], inDict, c) || d in issues ==> d in EntryIssues(es, inDict, c);
      assert forall x :: x in EntryDecoyTags(es[..n], c) || x in tags ==> x in EntryDecoyTags(es, c);
      HoldingEquipsEntries(es[..n], inDict, ds, m, c);
      InsideIssued(e, inDict, c);
      HoldingEquips(e.value, ds, m, c);
      if e.salt.Some? {
        assert Holds(e, inDict, c, m);
      }
    }
  }

  lemma {:induction false} PreprocessedTexts(presented: seq<string>, c: Codec)
    requires PreprocessSerial(presented, Worker(c)).Success?
    ensures var m := PreprocessSerial(presented, Worker(c)).value;
      && m.encoded.Keys == m.decoded.Keys
      && forall x :: x in m.encoded ==> m.encoded[x] in presented && c.hash(m.encoded[x]) == x
  {
    if presented != [] {
      PreprocessedTexts(presented[..|presented| - 1], c);
    }
  }

  /** Preprocessing all disclosures of a tree, in any order, equips the holder. */
  lemma FullHolding(t: Tree, presented: seq<string>, c: Codec)
    requires SoundlyEncoded(t, c) && Selection(presented, Issues(t, c)) && HiddenTags(t, c) <= Held(presented, c)
    ensures var r := PreprocessSerial(presented, Worker(c)); r.Success? && Equipped(t, c, r.value)
  {
    var ds := Issues(t, c);
    SelectionIsBound(t, presented, c);
    var m := PreprocessSerial(presented, Worker(c)).value;
    PreprocessedTexts(presented, c);
    IssuesHashed(t, c);
    TagsUnambiguous(t, c);
    HiddenAreIssued(t, c);
    FaithfulDecodes(t, c);
    SelectionHashes(presented, ds, c);
    PreprocessPresented(presented, c);
    SelectionPresents(presented, ds, c);
    forall d | d in ds
      ensures d.hash in m.encoded && m.encoded[d.hash] == d.raw
      ensures d.hash in m.decoded && Some(m.decoded[d.hash]) == c.decode(d.raw)
    {
      HashOfIssue(ds, d);
      var p := m.encoded[d.hash];
      var d' :| d' in ds && d'.raw == p;
      SameHashSameIssue(ds, d, d');
    }
    DecoysNotHeld(ds, DecoyTags(t, c), m.decoded.Keys);
    HoldingEquips(t, ds, m, c);
  }

  lemma DecoysNotHeld(ds: seq<Issued>, decoys: seq<string>, held: set<string>)
    requires Unambiguous(ds, decoys) && held <= Elements(Hashes(ds))
    ensures forall x :: x in decoys ==> x !in held
  {
    forall x | x in held ensures x !in decoys {
      assert x in Hashes(ds);
      var i :| 0 <= i < |ds| && Hashes(ds)[i] == x;
    }
  }

  /** The signed payload of a credential shows the whole tree, with `_sd_alg`. */
  lemma SignedShows(es: seq<Entry>, decoys: seq<string>, added: seq<Member>, c: Codec)
    requires Addable(es, added)
    ensures Shows(Signed(es, decoys, added, c), es + PlainEntries(added), decoys, true, c)
  {
    var base := Payload(Dict(es, decoys), c).members;
    var alg := Str(DEFAULT_DIGEST_ALG);
    SignedShape(es, decoys, added, c);
    TreePayload(es, decoys, added, c);
    assert !HasKey(added, DIGEST_ALG_KEY) by {
      assert forall i :: 0 <= i < |added| ==> added[i] in added;
    }
    forall k
      ensures Find(Signed(es, decoys, added, c), k) == if k == DIGEST_ALG_KEY then Some(alg) else Find(base + added, k)
    {
      FindAppend(Put(base, DIGEST_ALG_KEY, alg), added, k);
      FindAppend(base, added, k);
      PutFind(base, DIGEST_ALG_KEY, alg, k);
    }
  }

  lemma CredentialShows(claims: seq<Member>, strategy: Strategy, holderKey: Option<Value>, cfg: Config, c: Codec)
    requires Issuable(claims, strategy, holderKey)
    ensures var w, credential := WholeTree(claims, strategy, holderKey, cfg), Issue(Object(claims), strategy, holderKey, cfg, c);
      && credential.Success? && w.Dict? && WellFormed(w)
      && Shows(credential.value.payload, w.entries, w.decoys, true, c)
      && credential.value.disclosures == Raws(Issues(w, c))
  {
    var t := PlannedTree(claims, strategy, holderKey, cfg);
    IssuedCredential(claims, strategy, holderKey, cfg, c);
    WholeTreeFacts(claims, strategy, holderKey, cfg, c);
    SignedShows(t.entries, t.decoys, AddedMembers(claims, holderKey), c);
  }

  lemma ChoiceIsSelection(ds: seq<Issued>, issues: seq<Issued>, c: Codec)
    requires NoDup(Hashes(ds)) && (forall d :: d in ds ==> d in issues) && forall d :: d in issues ==> d.hash == c.hash(d.raw)
    ensures Selection(Raws(ds), issues) && HashAll(Raws(ds), c) == Hashes(ds)
  {
    forall i | 0 <= i < |ds| ensures c.hash(ds[i].raw) == ds[i].hash {
      assert ds[i] in ds;
    }
    assert HashAll(Raws(ds), c) == Hashes(ds);
    forall i, j | 0 <= i < j < |ds| ensures Raws(ds)[i] != Raws(ds)[j] {
      assert Hashes(ds)[i] != Hashes(ds)[j];
    }
    forall p | p in Raws(ds) ensures exists d :: d in issues && d.raw == p {
      var i :| 0 <= i < |ds| && Raws(ds)[i] == p;
      assert ds[i] in ds;
    }
  }

  /** The holder's answer to a request, after preprocessing what was presented to it. */
  ghost function SelectFrom(
      claims: seq<Member>, strategy: Strategy, holderKey: Option<Value>, cfg: Config, c: Codec, presented: seq<string>,
      request: seq<Member>)
    : Result<seq<string>, SelectError>
    requires Issue(Object(claims), strategy, holderKey, cfg, c).Success? && PreprocessSerial(presented, Worker(c)).Success?
  {
    Select(Issue(Object(claims), strategy, holderKey, cfg, c).value.payload, request, PreprocessSerial(presented, Worker(c)).value)
  }

  lemma SelectFromChooses(
      claims: seq<Member>, strategy: Strategy, holderKey: Option<Value>, cfg: Config, c: Codec, presented: seq<string>,
      request: seq<Member>)
    requires Issuable(claims, strategy, holderKey)
    requires var w := WholeTree(claims, strategy, holderKey, cfg);
      SoundlyEncoded(w, c) && Selection(presented, Issues(w, c)) && HiddenTags(w, c) <= Held(presented, c)
    ensures Issue(Object(claims), strategy, holderKey, cfg, c).Success? && PreprocessSerial(presented, Worker(c)).Success?
    ensures var w := WholeTree(claims, strategy, holderKey, cfg);
      && w.Dict? && WellFormed(w)
      && SelectFrom(claims, strategy, holderKey, cfg, c, presented, request)
           == Texts(Choose(w.entries, Structural(w.entries, w.decoys, true, c), request, c))
  {
    var w := WholeTree(claims, strategy, holderKey, cfg);
    CredentialShows(claims, strategy, holderKey, cfg, c);
    FullHolding(w, presented, c);
    var payload, m := Issue(Object(claims), strategy, holderKey, cfg, c).value.payload, PreprocessSerial(presented, Worker(c)).value;
    SelectChooses(payload, w.entries, w.decoys, true, request, m, c);
  }

  /**
   The holder of all disclosures of a credential may ask for anything, unless a hidden claim called `_sd_alg` hides
   something inside: what is selected, if selection succeeds, is a list of different disclosures of the credential, each
   with the one enclosing it. So the verifier accepts the presentation wherever what it shows fits, and reads the claims
   without the hidden ones that were not selected.
   */
  lemma SelectionIsAccepted(
      claims: seq<Member>, strategy: Strategy, holderKey: Option<Value>, cfg: Config, c: Codec, presented: seq<string>,
      request: seq<Member>)
    requires Issuable(claims, strategy, holderKey) && WellKeyed(Object(request))
    requires var w := WholeTree(claims, strategy, holderKey, cfg);
      SoundlyEncoded(w, c) && Selection(presented, Issues(w, c)) && HiddenTags(w, c) <= Held(presented, c)
    requires var w := WholeTree(claims, strategy, holderKey, cfg); w.Dict? ==> !HidesBehindAlg(w.entries, c)
    ensures var w, credential := WholeTree(claims, strategy, holderKey, cfg), Issue(Object(claims), strategy, holderKey, cfg, c);
      && credential.Success? && PreprocessSerial(presented, Worker(c)).Success?
      && var r := SelectFrom(claims, strategy, holderKey, cfg, c, presented, request);
      (r.Success? ==>
         && Selection(r.value, Issues(w, c)) && ParentClosed(w, c, Held(r.value, c))
         && (Fits(w, c, Held(r.value, c)) ==> Accepts(credential.value.payload, r.value, w, c)))
  {
    var w := WholeTree(claims, strategy, holderKey, cfg);
    SelectFromChooses(claims, strategy, holderKey, cfg, c, presented, request);
    var chosen := Choose(w.entries, Structural(w.entries, w.decoys, true, c), request, c);
    if chosen.Success? {
      ChosenIsClosed(w, Structural(w.entries, w.decoys, true, c), request, c);
      HideThenReveal(claims, strategy, holderKey, cfg, c, Raws(chosen.value));
    }
  }

  /** The verifier accepts the list and reads the claims without exactly the hidden entries outside it. */
  ghost predicate Accepts(payload: seq<Member>, presented: seq<string>, w: Tree, c: Codec) {
    var r := Verify(payload, presented, c);
    r.Success? && Denote(r.value) == Denote(Prune(w, c, Held(presented, c), false))
  }

  lemma ChosenIsClosed(w: Tree, structural: set<string>, request: seq<Member>, c: Codec)
    requires w.Dict? && WellFormed(w) && NoDup(Tags(w, c)) && WellKeyed(Object(request))
    requires DIGEST_ALG_KEY in structural ==> !HidesBehindAlg(w.entries, c)
    requires Choose(w.entries, structural, request, c).Success?
    ensures var raws := Raws(Choose(w.entries, structural, request, c).value);
      Selection(raws, Issues(w, c)) && ParentClosed(w, c, Held(raws, c))
  {
    var ds := Choose(w.entries, structural, request, c).value;
    NoDupConcat(EntryTags(w.entries, true, c), DecoyDigests(w.decoys, c));
    ChooseSound(w.entries, structural, request, c, None);
    ChooseIssued(w.entries, structural, request, c);
    IssuesHashed(w, c);
    ChoiceIsSelection(ds, Issues(w, c), c);
  }
}
