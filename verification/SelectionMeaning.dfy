/**
 What a request selects, place by place: a hidden member for any value but `false` and null, a hidden element for `true`
 or a value of its own kind, and both wherever the request goes on below; and exactly which requests are refused.
 */
module SelectionMeaning {
  import opened Choosing
  import opened ClaimTree
  import opened CredentialLaw
  import opened HolderLaw
  import opened Holding
  import opened Issuance
  import opened Json
  import opened JsonFacts
  import opened PathStrategy
  import opened Plan
  import opened Preprocessing
  import opened Strategy
  import opened TaggedClaims
  import opened UnboundedUnpacking
  import opened Wrappers

  // What is asked for

  /** What in a request reveals an entry that is hidden. */
  predicate Asked(e: Entry, inDict: bool, x: Value) {
    if inDict then x != Null && x != Bool(false)
    else x == Bool(true) || (e.value.List? && x.Array?) || (e.value.Dict? && x.Object?)
  }

  /** The disclosure of the hidden entry at the path, which the request asks for at the same path. */
  ghost predicate Selects(t: Tree, v: Value, path: seq<Segment>, d: Issued, c: Codec)
    requires path != []
    decreases |path|
  {
    var e, x := Child(t, path[0]), ChildValue(v, path[0]);
    && e.Some? && x.Some?
    && if |path| > 1 then Selects(e.value.value, x.value, path[1..], d, c)
       else e.value.salt.Some? && Asked(e.value, t.Dict?, x.value) && d == IssuedOf(e.value, t.Dict?, c)
  }

  ghost predicate SelectsSome(t: Tree, v: Value, d: Issued, c: Codec) {
    exists path :: path != [] && Selects(t, v, path, d, c)
  }

  /** The request for an entry gets its own disclosure, or one below it. */
  ghost predicate Gets(e: Entry, inDict: bool, x: Value, d: Issued, c: Codec) {
    (e.salt.Some? && Asked(e, inDict, x) && d == IssuedOf(e, inDict, c)) || SelectsSome(e.value, x, d, c)
  }

  ghost predicate GetsAt(t: Tree, v: Value, seg: Segment, d: Issued, c: Codec) {
    var e, x := Child(t, seg), ChildValue(v, seg);
    e.Some? && x.Some? && Gets(e.value, t.Dict?, x.value, d, c)
  }

  lemma SelectsStep(t: Tree, v: Value, d: Issued, c: Codec)
    ensures SelectsSome(t, v, d, c) <==> exists seg :: GetsAt(t, v, seg, d, c)
  {
    if SelectsSome(t, v, d, c) {
      var path :| path != [] && Selects(t, v, path, d, c);
      var e, x := Child(t, path[0]).value, ChildValue(v, path[0]).value;
      assert |path| > 1 ==> Selects(e.value, x, path[1..], d, c);
      assert GetsAt(t, v, path[0], d, c);
    }
    if exists seg :: GetsAt(t, v, seg, d, c) {
      var seg :| GetsAt(t, v, seg, d, c);
      var e, x := Child(t, seg).value, ChildValue(v, seg).value;
      if SelectsSome(e.value, x, d, c) {
        var path :| path != [] && Selects(e.value, x, path, d, c);
        assert ([seg] + path)[1..] == path;
        assert Selects(t, v, [seg] + path, d, c);
      } else {
        assert Selects(t, v, [seg], d, c);
      }
    }
  }

  /** At the top level, the claim behind the payload's own `_sd_alg` is never selected itself. */
  ghost predicate ClaimGets(e: Entry, structural: set<string>, x: Value, d: Issued, c: Codec) {
    if e.key == "_sd_alg" && e.key in structural then e.salt.Some? && SelectsSome(e.value, x, d, c) else Gets(e, true, x, d, c)
  }

  ghost predicate NameGets(es: seq<Entry>, structural: set<string>, request: seq<Member>, k: string, d: Issued, c: Codec) {
    HasKey(request, k) && Named(es, k).Some? && ClaimGets(Named(es, k).value, structural, Find(request, k).value, d, c)
  }

  lemma ScalarsSelectNothing(t: Tree, v: Value, d: Issued, c: Codec)
    requires !Opens(t, v)
    ensures !SelectsSome(t, v, d, c)
  {
    SelectsStep(t, v, d, c);
  }

  lemma DictSelects(es: seq<Entry>, decoys: seq<string>, structural: set<string>, request: seq<Member>, d: Issued, c: Codec)
    requires "_sd_alg" !in structural
    ensures SelectsSome(Dict(es, decoys), Object(request), d, c) <==> exists k :: NameGets(es, structural, request, k, d, c)
  {
    var t, v := Dict(es, decoys), Object(request);
    SelectsStep(t, v, d, c);
    if exists seg :: GetsAt(t, v, seg, d, c) {
      var seg :| GetsAt(t, v, seg, d, c);
      assert NameGets(es, structural, request, seg.name, d, c);
    }
    if exists k :: NameGets(es, structural, request, k, d, c) {
      var k :| NameGets(es, structural, request, k, d, c);
      assert GetsAt(t, v, Key(k), d, c);
    }
  }

  ghost predicate ItemGets(es: seq<Entry>, requests: seq<Value>, i: nat, d: Issued, c: Codec) {
    i < |es| && i < |requests| && Gets(es[i], false, requests[i], d, c)
  }

  lemma ListSelects(es: seq<Entry>, requests: seq<Value>, d: Issued, c: Codec)
    ensures SelectsSome(List(es), Array(requests), d, c) <==> exists i :: ItemGets(es, requests, i, d, c)
  {
    var t, v := List(es), Array(requests);
    SelectsStep(t, v, d, c);
    if exists seg :: GetsAt(t, v, seg, d, c) {
      var seg :| GetsAt(t, v, seg, d, c);
      assert ItemGets(es, requests, seg.index, d, c);
    }
    if exists i :: ItemGets(es, requests, i, d, c) {
      var i :| ItemGets(es, requests, i, d, c);
      assert GetsAt(t, v, Index(i), d, c);
    }
  }

  // The choice is what is asked for

  lemma {:induction false} ChooseMeans(es: seq<Entry>, structural: set<string>, request: seq<Member>, d: Issued, c: Codec)
    requires WellKeyed(Object(request)) && Choose(es, structural, request, c).Success?
    ensures d in Choose(es, structural, request, c).value <==> exists k :: NameGets(es, structural, request, k, d, c)
    decreases request, 0
  {
    if request != [] {
      var n := |request| - 1;
      var front, m := request[..n], request[n];
      assert m.value < m;
      assert WellKeyed(Object(front)) && WellKeyed(m.value);
      ChooseMeans(es, structural, front, d, c);
      ClaimMeans(es, structural, m.key, m.value, d, c);
      NamesSnoc(es, structural, request, d, c);
    }
  }

  lemma NamesSnoc(es: seq<Entry>, structural: set<string>, request: seq<Member>, d: Issued, c: Codec)
    requires request != [] && DistinctKeys(request)
    ensures var n := |request| - 1;
      var m, e := request[n], Named(es, request[n].key);
      (exists k :: NameGets(es, structural, request, k, d, c)) <==>
        (exists k :: NameGets(es, structural, request[..n], k, d, c)) || (e.Some? && ClaimGets(e.value, structural, m.value, d, c))
  {
    var n := |request| - 1;
    var front, m := request[..n], request[n];
    forall k ensures HasKey(request, k) <==> HasKey(front, k) || k == m.key {
      KeyInFrontOrLast(request, k);
    }
    forall k | HasKey(front, k) ensures k != m.key && Find(request, k) == Find(front, k) {
      var i :| 0 <= i < n && front[i].key == k;
      assert request[i].key != request[n].key;
    }
    if exists k :: NameGets(es, structural, front, k, d, c) {
      var k :| NameGets(es, structural, front, k, d, c);
      assert NameGets(es, structural, request, k, d, c);
    }
    if exists k :: NameGets(es, structural, request, k, d, c) {
      var k :| NameGets(es, structural, request, k, d, c);
      assert k != m.key ==> NameGets(es, structural, front, k, d, c);
    }
    if Named(es, m.key).Some? && ClaimGets(Named(es, m.key).value, structural, m.value, d, c) {
      assert NameGets(es, structural, request, m.key, d, c);
    }
  }

  lemma {:induction false} ClaimMeans(es: seq<Entry>, structural: set<string>, key: string, v: Value, d: Issued, c: Codec)
    requires WellKeyed(v) && ChooseClaim(es, structural, key, v, c).Success?
    ensures var e := Named(es, key);
      d in ChooseClaim(es, structural, key, v, c).value <==> e.Some? && ClaimGets(e.value, structural, v, d, c)
    decreases v, 2
  {
    var e := Named(es, key);
    if e.Some? {
      if Withheld(v) {
        ScalarsSelectNothing(e.value.value, v, d, c);
      } else if ChooseBelow(e.value, v, c).Success? {
        BelowMeans(e.value, v, d, c);
      }
    }
  }

  lemma {:induction false} BelowMeans(e: Entry, v: Value, d: Issued, c: Codec)
    requires WellKeyed(v) && ChooseBelow(e, v, c).Success?
    ensures d in ChooseBelow(e, v, c).value <==> SelectsSome(e.value, v, d, c)
    decreases v, 1
  {
    if Opens(e.value, v) {
      InsideMeans(e.value, v, d, c);
    } else {
      ScalarsSelectNothing(e.value, v, d, c);
    }
  }

  lemma {:induction false} InsideMeans(t: Tree, v: Value, d: Issued, c: Codec)
    requires WellKeyed(v) && Opens(t, v) && ChooseInside(t, v, c).Success?
    ensures d in ChooseInside(t, v, c).value <==> SelectsSome(t, v, d, c)
    decreases v, 0
  {
    match t
    case List(es) =>
      ItemsMean(es, v.items, d, c);
      ListSelects(es, v.items, d, c);
    case Dict(es, decoys) =>
      ChooseMeans(es, Structural(es, decoys, false, c), v.members, d, c);
      DictSelects(es, decoys, Structural(es, decoys, false, c), v.members, d, c);
  }

  lemma {:induction false} ItemsMean(es: seq<Entry>, requests: seq<Value>, d: Issued, c: Codec)
    requires WellKeyed(Array(requests)) && ChooseItems(es, requests, c).Success?
    ensures d in ChooseItems(es, requests, c).value <==> exists i :: ItemGets(es, requests, i, d, c)
    decreases requests, 0
  {
    if requests != [] {
      var n := |requests| - 1;
      assert WellKeyed(Array(requests[..n])) && WellKeyed(requests[n]);
      ItemsMean(es, requests[..n], d, c);
      ItemsSnoc(es, requests, d, c);
      if n < |es| {
        ItemMeans(es[n], requests[n], d, c);
      }
    }
  }

  lemma ItemsSnoc(es: seq<Entry>, requests: seq<Value>, d: Issued, c: Codec)
    requires requests != []
    ensures var n := |requests| - 1;
      (exists i :: ItemGets(es, requests, i, d, c)) <==>
        (exists i :: ItemGets(es, requests[..n], i, d, c)) || (n < |es| && Gets(es[n], false, requests[n], d, c))
  {
    var n := |requests| - 1;
    forall i: nat ensures ItemGets(es, requests[..n], i, d, c) <==> ItemGets(es, requests, i, d, c) && i < n {
    }
    assert n < |es| && Gets(es[n], false, requests[n], d, c) ==> ItemGets(es, requests, n, d, c);
  }

  lemma {:induction false} ItemMeans(e: Entry, v: Value, d: Issued, c: Codec)
    requires WellKeyed(v) && ChooseItem(e, v, c).Success?
    ensures d in ChooseItem(e, v, c).value <==> Gets(e, false, v, d, c)
    decreases v, 1
  {
    if Opens(e.value, v) {
      InsideMeans(e.value, v, d, c);
    } else {
      ScalarsSelectNothing(e.value, v, d, c);
    }
  }

  // What is refused

  ghost predicate AsksInside(x: Value) {
    x.Object? && x.members != []
  }

  /**
   A request for a name can be answered: there is such a claim, an object if the request goes inside; or the name is that
   of a digest list or of the algorithm, and the request does not go inside.
   */
  ghost predicate Answerable(es: seq<Entry>, structural: set<string>, m: Member) {
    var e := Named(es, m.key);
    || m.value == Null || m.value == Bool(false)
    || (!AsksInside(m.value) && (e.Some? || m.key in structural))
    || (e.Some? && e.value.value.Dict? && (m.key == "_sd_alg" && m.key in structural ==> e.value.salt.Some?))
  }

  ghost predicate AllAnswerable(es: seq<Entry>, structural: set<string>, request: seq<Member>) {
    forall i :: 0 <= i < |request| ==> Answerable(es, structural, request[i])
  }

  /** `_sd` is a name of an object that has digests. */
  ghost function ListNames(es: seq<Entry>, decoys: seq<string>): set<string> {
    if decoys == [] && forall e :: e in es ==> e.salt.None? then {} else {"_sd"}
  }

  /** Where an object is asked for by an object, every name can be answered. */
  ghost predicate Fine(t: Tree, v: Value) {
    t.Dict? && v.Object? ==> AllAnswerable(t.entries, ListNames(t.entries, t.decoys), v.members)
  }

  /** The same wherever the request and the claims lead along the path. */
  ghost predicate FineAt(t: Tree, v: Value, path: seq<Segment>)
    decreases |path|
  {
    if path == [] then Fine(t, v)
    else
      var e, x := Child(t, path[0]), ChildValue(v, path[0]);
      e.Some? && x.Some? ==> FineAt(e.value.value, x.value, path[1..])
  }

  ghost predicate FineEverywhere(t: Tree, v: Value) {
    forall path :: FineAt(t, v, path)
  }

  ghost predicate FineBelow(t: Tree, v: Value, seg: Segment) {
    var e, x := Child(t, seg), ChildValue(v, seg);
    e.Some? && x.Some? ==> FineEverywhere(e.value.value, x.value)
  }

  lemma FineStep(t: Tree, v: Value)
    ensures FineEverywhere(t, v) <==> Fine(t, v) && forall seg :: FineBelow(t, v, seg)
  {
    if FineEverywhere(t, v) {
      assert FineAt(t, v, []);
      forall seg ensures FineBelow(t, v, seg) {
        var e, x := Child(t, seg), ChildValue(v, seg);
        if e.Some? && x.Some? {
          forall path ensures FineAt(e.value.value, x.value, path) {
            assert ([seg] + path)[1..] == path;
            assert FineAt(t, v, [seg] + path);
          }
        }
      }
    }
    if Fine(t, v) && forall seg :: FineBelow(t, v, seg) {
      forall path ensures FineAt(t, v, path) {
        assert path != [] ==> FineBelow(t, v, path[0]);
      }
    }
  }

  lemma ScalarsAreFine(t: Tree, v: Value)
    requires !Opens(t, v)
    ensures FineEverywhere(t, v)
  {
    FineStep(t, v);
  }

  /** One member of a request is answered: by itself, and everywhere below. */
  ghost predicate MemberFine(es: seq<Entry>, structural: set<string>, m: Member) {
    var e := Named(es, m.key);
    && Answerable(es, structural, m)
    && (e.Some? && (m.key == "_sd_alg" && m.key in structural ==> e.value.salt.Some?) ==> FineEverywhere(e.value.value, m.value))
  }

  ghost predicate MembersFine(es: seq<Entry>, structural: set<string>, request: seq<Member>) {
    forall i :: 0 <= i < |request| ==> MemberFine(es, structural, request[i])
  }

  lemma StructuralIsListNames(es: seq<Entry>, decoys: seq<string>, c: Codec)
    ensures Structural(es, decoys, false, c) == ListNames(es, decoys)
  {
    NoOwnDigests(es, c);
  }

  lemma {:induction false} NoOwnDigests(es: seq<Entry>, c: Codec)
    ensures OwnDigests(es, true, c) == [] <==> forall e :: e in es ==> e.salt.None?
  {
    if es != [] {
      NoOwnDigests(es[..|es| - 1], c);
      assert forall e :: e in es <==> e in es[..|es| - 1] || e == es[|es| - 1];
    }
  }

  lemma DictFine(es: seq<Entry>, decoys: seq<string>, request: seq<Member>)
    requires DistinctKeys(request)
    ensures FineEverywhere(Dict(es, decoys), Object(request)) <==> MembersFine(es, ListNames(es, decoys), request)
  {
    var t, v := Dict(es, decoys), Object(request);
    FineStep(t, v);
    if FineEverywhere(t, v) {
      forall i | 0 <= i < |request| ensures MemberFine(es, ListNames(es, decoys), request[i]) {
        FindDistinct(request, request[i]);
        assert FineBelow(t, v, Key(request[i].key));
      }
    }
    if MembersFine(es, ListNames(es, decoys), request) {
      forall seg ensures FineBelow(t, v, seg) {
        if Child(t, seg).Some? && ChildValue(v, seg).Some? {
          var m := Member(seg.name, Find(request, seg.name).value);
          var i :| 0 <= i < |request| && request[i] == m;
          assert MemberFine(es, ListNames(es, decoys), request[i]);
        }
      }
    }
  }

  lemma ListFine(es: seq<Entry>, requests: seq<Value>)
    ensures FineEverywhere(List(es), Array(requests)) <==>
      forall i :: 0 <= i < |es| && i < |requests| ==> FineEverywhere(es[i].value, requests[i])
  {
    var t, v := List(es), Array(requests);
    FineStep(t, v);
    if FineEverywhere(t, v) {
      forall i | 0 <= i < |es| && i < |requests| ensures FineEverywhere(es[i].value, requests[i]) {
        assert FineBelow(t, v, Index(i));
      }
    }
  }

  lemma {:induction false} ChooseSucceeds(es: seq<Entry>, structural: set<string>, request: seq<Member>, c: Codec)
    requires WellKeyed(Object(request))
    ensures Choose(es, structural, request, c).Success? <==> MembersFine(es, structural, request)
    decreases request, 0
  {
    if request != [] {
      var n := |request| - 1;
      var front, m := request[..n], request[n];
      assert m.value < m;
      assert WellKeyed(Object(front)) && WellKeyed(m.value);
      ChooseSucceeds(es, structural, front, c);
      ClaimSucceeds(es, structural, m, c);
      assert forall i :: 0 <= i < n ==> front[i] == request[i];
    }
  }

  lemma {:induction false} ClaimSucceeds(es: seq<Entry>, structural: set<string>, m: Member, c: Codec)
    requires WellKeyed(m.value)
    ensures ChooseClaim(es, structural, m.key, m.value, c).Success? <==> MemberFine(es, structural, m)
    decreases m.value, 2
  {
    var e := Named(es, m.key);
    if e.Some? {
      if Withheld(m.value) {
        ScalarsAreFine(e.value.value, m.value);
      } else {
        BelowSucceeds(e.value, m.value, c);
      }
    }
  }

  lemma {:induction false} BelowSucceeds(e: Entry, v: Value, c: Codec)
    requires WellKeyed(v)
    ensures ChooseBelow(e, v, c).Success? <==> (AsksInside(v) ==> e.value.Dict?) && FineEverywhere(e.value, v)
    decreases v, 1
  {
    if Opens(e.value, v) {
      InsideSucceeds(e.value, v, c);
    } else {
      ScalarsAreFine(e.value, v);
    }
  }

  lemma {:induction false} InsideSucceeds(t: Tree, v: Value, c: Codec)
    requires WellKeyed(v) && Opens(t, v)
    ensures ChooseInside(t, v, c).Success? <==> FineEverywhere(t, v)
    decreases v, 0
  {
    match t
    case List(es) =>
      ItemsSucceed(es, v.items, c);
      ListFine(es, v.items);
    case Dict(es, decoys) =>
      StructuralIsListNames(es, decoys, c);
      ChooseSucceeds(es, Structural(es, decoys, false, c), v.members, c);
      DictFine(es, decoys, v.members);
  }

  lemma {:induction false} ItemsSucceed(es: seq<Entry>, requests: seq<Value>, c: Codec)
    requires WellKeyed(Array(requests))
    ensures ChooseItems(es, requests, c).Success? <==>
      forall i :: 0 <= i < |es| && i < |requests| ==> FineEverywhere(es[i].value, requests[i])
    decreases requests, 0
  {
    if requests != [] {
      var n := |requests| - 1;
      assert WellKeyed(Array(requests[..n])) && WellKeyed(requests[n]);
      ItemsSucceed(es, requests[..n], c);
      assert forall i :: 0 <= i < n ==> requests[..n][i] == requests[i];
      if n < |es| {
        ItemSucceeds(es[n], requests[n], c);
      }
    }
  }

  lemma {:induction false} ItemSucceeds(e: Entry, v: Value, c: Codec)
    requires WellKeyed(v)
    ensures ChooseItem(e, v, c).Success? <==> FineEverywhere(e.value, v)
    decreases v, 1
  {
    if Opens(e.value, v) {
      InsideSucceeds(e.value, v, c);
    } else {
      ScalarsAreFine(e.value, v);
    }
  }

  // The credential

  /** At the top level, a claim called `_sd_alg` is not selected itself, and below it something only if it is hidden. */
  ghost predicate TopSelects(w: Tree, request: seq<Member>, path: seq<Segment>, d: Issued, c: Codec)
    requires path != []
  {
    && Selects(w, Object(request), path, d, c)
    && (path[0] == Key("_sd_alg") ==> |path| > 1 && HiddenAt(w, [path[0]]))
  }

  ghost predicate TopSelectsText(w: Tree, request: seq<Member>, text: string, c: Codec) {
    exists path: seq<Segment>, d: Issued :: path != [] && d.raw == text && TopSelects(w, request, path, d, c)
  }

  lemma TopMeans(es: seq<Entry>, decoys: seq<string>, request: seq<Member>, d: Issued, c: Codec)
    ensures var structural := ListNames(es, decoys) + {"_sd_alg"};
      (exists k :: NameGets(es, structural, request, k, d, c)) <==>
        exists path :: path != [] && TopSelects(Dict(es, decoys), request, path, d, c)
  {
    var w, structural := Dict(es, decoys), ListNames(es, decoys) + {"_sd_alg"};
    if exists k :: NameGets(es, structural, request, k, d, c) {
      var k :| NameGets(es, structural, request, k, d, c);
      TopPath(es, decoys, request, k, d, c);
    }
    if exists path :: path != [] && TopSelects(w, request, path, d, c) {
      var path: seq<Segment> :| path != [] && TopSelects(w, request, path, d, c);
      var e, x := Child(w, path[0]).value, ChildValue(Object(request), path[0]).value;
      assert |path| > 1 ==> Selects(e.value, x, path[1..], d, c);
      assert NameGets(es, structural, request, path[0].name, d, c);
    }
  }

  lemma TopPath(es: seq<Entry>, decoys: seq<string>, request: seq<Member>, k: string, d: Issued, c: Codec)
    requires NameGets(es, ListNames(es, decoys) + {"_sd_alg"}, request, k, d, c)
    ensures exists path :: path != [] && TopSelects(Dict(es, decoys), request, path, d, c)
  {
    var w, e, x := Dict(es, decoys), Named(es, k).value, Find(request, k).value;
    if SelectsSome(e.value, x, d, c) && (k == "_sd_alg" ==> e.salt.Some?) {
      var path :| path != [] && Selects(e.value, x, path, d, c);
      assert ([Key(k)] + path)[1..] == path;
      assert TopSelects(w, request, [Key(k)] + path, d, c);
    } else {
      assert TopSelects(w, request, [Key(k)], d, c);
    }
  }

  /** Every name of the request can be answered, at the top level and wherever the request goes on. */
  ghost predicate TopFine(w: Tree, request: seq<Member>) {
    w.Dict? && MembersFine(w.entries, ListNames(w.entries, w.decoys) + {"_sd_alg"}, request)
  }

  /**
   On a fully held credential: selection succeeds exactly when every name can be answered, and the disclosures selected
   are exactly those of the places asked for.
   */
  lemma SelectionMeans(
      claims: seq<Member>, strategy: Strategy, holderKey: Option<Value>, cfg: Config, c: Codec, presented: seq<string>,
      request: seq<Member>)
    requires Issuable(claims, strategy, holderKey) && WellKeyed(Object(request))
    requires var w := WholeTree(claims, strategy, holderKey, cfg);
      SoundlyEncoded(w, c) && Selection(presented, Issues(w, c)) && HiddenTags(w, c) <= Held(presented, c)
    ensures Issue(Object(claims), strategy, holderKey, cfg, c).Success? && PreprocessSerial(presented, Worker(c)).Success?
    ensures var w, r := WholeTree(claims, strategy, holderKey, cfg), SelectFrom(claims, strategy, holderKey, cfg, c, presented, request);
      && (r.Success? <==> TopFine(w, request))
      && (r.Success? ==> forall text :: text in r.value <==> TopSelectsText(w, request, text, c))
  {
    var w := WholeTree(claims, strategy, holderKey, cfg);
    SelectFromChooses(claims, strategy, holderKey, cfg, c, presented, request);
    ChoiceMeans(w, request, c);
  }

  lemma ChoiceMeans(w: Tree, request: seq<Member>, c: Codec)
    requires w.Dict? && WellKeyed(Object(request))
    ensures var r := Texts(Choose(w.entries, Structural(w.entries, w.decoys, true, c), request, c));
      && (r.Success? <==> TopFine(w, request))
      && (r.Success? ==> forall text :: text in r.value <==> TopSelectsText(w, request, text, c))
  {
    var structural := Structural(w.entries, w.decoys, true, c);
    StructuralIsListNames(w.entries, w.decoys, c);
    assert structural == ListNames(w.entries, w.decoys) + {"_sd_alg"};
    ChooseSucceeds(w.entries, structural, request, c);
    if TopFine(w, request) {
      forall text
        ensures text in Raws(Choose(w.entries, structural, request, c).value) <==> TopSelectsText(w, request, text, c)
      {
        TextMeans(w, request, text, c);
      }
    }
  }

  lemma TextMeans(w: Tree, request: seq<Member>, text: string, c: Codec)
    requires w.Dict? && WellKeyed(Object(request))
    requires Choose(w.entries, ListNames(w.entries, w.decoys) + {"_sd_alg"}, request, c).Success?
    ensures var r := Choose(w.entries, ListNames(w.entries, w.decoys) + {"_sd_alg"}, request, c).value;
      text in Raws(r) <==> TopSelectsText(w, request, text, c)
  {
    var structural := ListNames(w.entries, w.decoys) + {"_sd_alg"};
    var r := Choose(w.entries, structural, request, c).value;
    forall d ensures d in r <==> exists path :: path != [] && TopSelects(w, request, path, d, c) {
      ChooseMeans(w.entries, structural, request, d, c);
      TopMeans(w.entries, w.decoys, request, d, c);
    }
    if text in Raws(r) {
      var i :| 0 <= i < |r| && Raws(r)[i] == text;
      assert r[i] in r;
    }
    if TopSelectsText(w, request, text, c) {
      var path: seq<Segment>, d: Issued :| path != [] && d.raw == text && TopSelects(w, request, path, d, c);
      assert d in r;
      var i :| 0 <= i < |r| && r[i] == d;
      assert Raws(r)[i] == text;
    }
  }
}
