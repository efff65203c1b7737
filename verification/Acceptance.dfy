/**
 Which presented disclosures the verifier accepts: exactly the parent-closed sets. And when what it reads is the
 pruned claims: exactly when no shown object has a visible member called `_sd_alg`.
 */
module Acceptance {
  import opened ClaimTree
  import opened Json
  import opened Reconstruction
  import opened Sequences
  import opened Unpacking
  import opened Wrappers

  /** The digest of each disclosure, paired with that of the disclosure most tightly enclosing it, if any. */
  ghost function Edges(t: Tree, c: Codec, parent: Option<string>): set<(string, Option<string>)> {
    match t
    case Leaf(_) => {}
    case List(es) => EntryEdges(es, false, c, parent)
    case Dict(es, _) => EntryEdges(es, true, c, parent)
  }

  ghost function EntryEdges(es: seq<Entry>, inDict: bool, c: Codec, parent: Option<string>): set<(string, Option<string>)> {
    if es == [] then {}
    else
      var n := |es| - 1;
      EntryEdges(es[..n], inDict, c, parent) + EdgesOf(es[n], inDict, c, parent)
  }

  ghost function EdgesOf(e: Entry, inDict: bool, c: Codec, parent: Option<string>): set<(string, Option<string>)> {
    if e.salt.Some? then {(Digest(e, inDict, c), parent)} + Edges(e.value, c, Some(Digest(e, inDict, c)))
    else Edges(e.value, c, parent)
  }

  ghost predicate Closed(edges: set<(string, Option<string>)>, held: set<string>) {
    forall e :: e in edges && e.0 in held && e.1.Some? ==> e.1.value in held
  }

  /** Whoever holds a disclosure also holds the one that encloses it. */
  ghost predicate ParentClosed(t: Tree, c: Codec, held: set<string>) {
    Closed(Edges(t, c, None), held)
  }

  ghost function HiddenOf(e: Entry, inDict: bool, c: Codec): set<string> {
    HiddenTags(e.value, c) + if e.salt.Some? then {Digest(e, inDict, c)} else {}
  }

  /** Every held disclosure among `tags` is met. */
  ghost predicate AllMet(tags: set<string>, met: set<string>, held: set<string>) {
    forall x :: x in tags && x in held ==> x in met
  }

  lemma {:induction false} HiddenWithinTags(t: Tree, c: Codec)
    ensures forall x :: x in HiddenTags(t, c) ==> x in Tags(t, c)
    decreases t, 1
  {
    match t
    case Leaf(_) =>
    case List(es) => EntryHiddenWithinTags(es, false, c);
    case Dict(es, decoys) => EntryHiddenWithinTags(es, true, c);
  }

  lemma {:induction false} EntryHiddenWithinTags(es: seq<Entry>, inDict: bool, c: Codec)
    ensures forall x :: x in EntryHiddenTags(es, inDict, c) ==> x in EntryTags(es, inDict, c)
    decreases es, 0
  {
    if es != [] {
      EntryHiddenWithinTags(es[..|es| - 1], inDict, c);
      HiddenOfWithinTags(es[|es| - 1], inDict, c);
    }
  }

  lemma {:induction false} HiddenOfWithinTags(e: Entry, inDict: bool, c: Codec)
    ensures forall x :: x in HiddenOf(e, inDict, c) ==> x in TagsOf(e, inDict, c)
    decreases e, 3
  {
    HiddenWithinTags(e.value, c);
    var tags := TagsOf(e, inDict, c);
    assert e.salt.Some? ==> tags[|tags| - 1] == Digest(e, inDict, c);
    assert forall x :: x in Tags(e.value, c) ==> x in tags;
  }

  // Below a disclosure that is not held, closure leaves nothing

  lemma {:induction false} NothingHeldBelow(t: Tree, c: Codec, parent: string, held: set<string>)
    requires parent !in held
    ensures Closed(Edges(t, c, Some(parent)), held) <==> HiddenTags(t, c) !! held
    decreases t, 1
  {
    match t
    case Leaf(_) =>
    case List(es) => NoEntryHeldBelow(es, false, c, parent, held);
    case Dict(es, decoys) => NoEntryHeldBelow(es, true, c, parent, held);
  }

  lemma {:induction false} NoEntryHeldBelow(es: seq<Entry>, inDict: bool, c: Codec, parent: string, held: set<string>)
    requires parent !in held
    ensures Closed(EntryEdges(es, inDict, c, Some(parent)), held) <==> EntryHiddenTags(es, inDict, c) !! held
    decreases es, 0
  {
    if es != [] {
      var n := |es| - 1;
      NoEntryHeldBelow(es[..n], inDict, c, parent, held);
      SplitClosed(EntryEdges(es[..n], inDict, c, Some(parent)), EdgesOf(es[n], inDict, c, Some(parent)), held);
      if es[n].salt.Some? {
        var x := Digest(es[n], inDict, c);
        SplitClosed({(x, Some(parent))}, Edges(es[n].value, c, Some(x)), held);
        HeldWithoutParent(x, parent, held);
        if x !in held {
          NothingHeldBelow(es[n].value, c, x, held);
        }
      } else {
        NothingHeldBelow(es[n].value, c, parent, held);
      }
    }
  }

  lemma SplitClosed(a: set<(string, Option<string>)>, b: set<(string, Option<string>)>, held: set<string>)
    ensures Closed(a + b, held) <==> Closed(a, held) && Closed(b, held)
  {
  }

  lemma HeldWithoutParent(x: string, parent: string, held: set<string>)
    requires parent !in held
    ensures Closed({(x, Some(parent))}, held) <==> x !in held
  {
    var edge: (string, Option<string>) := (x, Some(parent));
    assert edge in {edge};
  }

  // Closed sets are those whose members are all met

  lemma {:induction false} ClosedIsMet(t: Tree, c: Codec, parent: Option<string>, held: set<string>)
    requires AlgFree(t, c, held) && NoDup(Tags(t, c))
    requires parent.Some? ==> parent.value in held
    ensures Closed(Edges(t, c, parent), held) <==> AllMet(HiddenTags(t, c), Met(t, c, held), held)
    decreases t, 1
  {
    match t
    case Leaf(_) =>
    case List(es) => ClosedEntriesMet(es, false, c, parent, held);
    case Dict(es, decoys) =>
      var ds := DecoyDigests(decoys, c);
      NoDupConcat(EntryTags(es, true, c), ds);
      ClosedEntriesMet(es, true, c, parent, held);
      EntryHiddenWithinTags(es, true, c);
      assert forall x :: x in EntryHiddenTags(es, true, c) ==> x !in ds;
  }

  lemma {:induction false} ClosedEntriesMet(es: seq<Entry>, inDict: bool, c: Codec, parent: Option<string>, held: set<string>)
    requires AlgFreeEntries(es, inDict, c, held) && NoDup(EntryTags(es, inDict, c))
    requires parent.Some? ==> parent.value in held
    ensures Closed(EntryEdges(es, inDict, c, parent), held)
      <==> AllMet(EntryHiddenTags(es, inDict, c), MetEntries(es, inDict, c, held), held)
    decreases es, 0
  {
    if es != [] {
      var n := |es| - 1;
      var e := es[n];
      NoDupConcat(EntryTags(es[..n], inDict, c), TagsOf(e, inDict, c));
      ClosedEntriesMet(es[..n], inDict, c, parent, held);
      ClosedEntryMet(e, inDict, c, parent, held);
      SplitClosed(EntryEdges(es[..n], inDict, c, parent), EdgesOf(e, inDict, c, parent), held);
      MetApart(es, inDict, c, held);
    }
  }

  /** Digests of different entries are met independently. */
  lemma MetApart(es: seq<Entry>, inDict: bool, c: Codec, held: set<string>)
    requires es != [] && NoDup(EntryTags(es, inDict, c))
    ensures var n := |es| - 1;
      AllMet(EntryHiddenTags(es, inDict, c), MetEntries(es, inDict, c, held), held)
      <==> (AllMet(EntryHiddenTags(es[..n], inDict, c), MetEntries(es[..n], inDict, c, held), held)
            && AllMet(HiddenOf(es[n], inDict, c), MetEntry(es[n], inDict, c, held), held))
  {
    var n := |es| - 1;
    var e := es[n];
    NoDupConcat(EntryTags(es[..n], inDict, c), TagsOf(e, inDict, c));
    MetEntriesWithinTags(es[..n], inDict, c, held);
    MetEntryWithinTags(e, inDict, c, held);
    EntryHiddenWithinTags(es[..n], inDict, c);
    HiddenOfWithinTags(e, inDict, c);
    assert EntryHiddenTags(es, inDict, c) == EntryHiddenTags(es[..n], inDict, c) + HiddenOf(e, inDict, c);
  }

  lemma MetEntryWithinTags(e: Entry, inDict: bool, c: Codec, held: set<string>)
    ensures forall x :: x in MetEntry(e, inDict, c, held) ==> x in TagsOf(e, inDict, c)
  {
    MetWithinTags(e.value, c, held);
    var tags := TagsOf(e, inDict, c);
    assert e.salt.Some? ==> tags[|tags| - 1] == Digest(e, inDict, c);
    assert forall x :: x in Tags(e.value, c) ==> x in tags;
  }

  lemma {:induction false} ClosedEntryMet(e: Entry, inDict: bool, c: Codec, parent: Option<string>, held: set<string>)
    requires NoDup(TagsOf(e, inDict, c)) && (parent.Some? ==> parent.value in held)
    requires Shown(e, inDict, c, held) ==> !(inDict && Dropped(e)) && AlgFree(e.value, c, held)
    ensures Closed(EdgesOf(e, inDict, c, parent), held) <==> AllMet(HiddenOf(e, inDict, c), MetEntry(e, inDict, c, held), held)
    decreases e, 3
  {
    if e.salt.None? {
      ClosedIsMet(e.value, c, parent, held);
    } else {
      var x := Digest(e, inDict, c);
      NoDupConcat(Tags(e.value, c), [x]);
      assert x in [x];
      HiddenWithinTags(e.value, c);
      SplitClosed({(x, parent)}, Edges(e.value, c, Some(x)), held);
      if x in held {
        ClosedIsMet(e.value, c, Some(x), held);
      } else {
        NothingHeldBelow(e.value, c, x, held);
      }
    }
  }

  // Meaning

  lemma {:induction false} DropMatters(t: Tree, c: Codec, held: set<string>)
    requires WellFormed(t)
    ensures Denote(Prune(t, c, held, true)) == Denote(Prune(t, c, held, false)) <==> AlgFree(t, c, held)
    decreases t, 1
  {
    match t
    case Leaf(_) =>
    case List(es) => DropMattersInList(es, c, held);
    case Dict(es, decoys) =>
      FieldsOfPrune(es, c, held, true);
      FieldsOfPrune(es, c, held, false);
      DropMattersInDict(es, c, held);
  }

  lemma {:induction false} DropMattersInList(es: seq<Entry>, c: Codec, held: set<string>)
    requires WellFormedEntries(es)
    ensures |PruneItems(es, c, held, true)| == |PruneItems(es, c, held, false)|
    ensures DenoteItems(PruneItems(es, c, held, true)) == DenoteItems(PruneItems(es, c, held, false)) <==> AlgFreeEntries(es, false, c, held)
    decreases es, 0
  {
    if es != [] {
      var n := |es| - 1;
      DropMattersInList(es[..n], c, held);
      if Shown(es[n], false, c, held) {
        DropMatters(es[n].value, c, held);
        var a, b := PruneItems(es[..n], c, held, true), PruneItems(es[..n], c, held, false);
        var x, y := Prune(es[n].value, c, held, true), Prune(es[n].value, c, held, false);
        Snoc(a, x);
        Snoc(b, y);
        DenoteItemsLength(a);
        DenoteItemsLength(b);
        SnocEqual(DenoteItems(a), DenoteItems(b), Denote(x), Denote(y));
      }
    }
  }

  lemma {:induction false} DenoteItemsLength(items: seq<Value>)
    ensures |DenoteItems(items)| == |items|
  {
    if items != [] {
      DenoteItemsLength(items[..|items| - 1]);
    }
  }

  lemma SnocEqual<T>(a: seq<T>, b: seq<T>, x: T, y: T)
    requires |a| == |b|
    ensures a + [x] == b + [y] <==> a == b && x == y
  {
    if a + [x] == b + [y] {
      assert a == (a + [x])[..|a|] && b == (b + [y])[..|b|];
      assert x == (a + [x])[|a|] && y == (b + [y])[|b|];
    }
  }

  lemma {:induction false} DropMattersInDict(es: seq<Entry>, c: Codec, held: set<string>)
    requires WellFormedEntries(es) && DistinctEntries(es)
    ensures Fields(es, c, held, true) == Fields(es, c, held, false) <==> AlgFreeEntries(es, true, c, held)
    decreases es, 0
  {
    if es != [] {
      var n := |es| - 1;
      var e := es[n];
      DropMattersInDict(es[..n], c, held);
      FieldsKeys(es[..n], c, held, true);
      FieldsKeys(es[..n], c, held, false);
      var a, b := Fields(es[..n], c, held, true), Fields(es[..n], c, held, false);
      assert e.key !in a && e.key !in b;
      if Shown(e, true, c, held) {
        DropMatters(e.value, c, held);
        UpdateEqual(a, b, e.key, Denote(Prune(e.value, c, held, true)), Denote(Prune(e.value, c, held, false)));
      }
    }
  }

  lemma UpdateEqual(a: map<string, Meaning>, b: map<string, Meaning>, k: string, x: Meaning, y: Meaning)
    requires k !in a && k !in b
    ensures a[k := x] == b[k := y] <==> a == b && x == y
    ensures a != b[k := y]
  {
    if a[k := x] == b[k := y] {
      assert a[k := x][k] == x && b[k := y][k] == y;
      forall j ensures (j in a <==> j in b) && (j in a ==> a[j] == b[j]) {
        assert j != k ==> (j in a[k := x] <==> j in b[k := y]);
      }
    }
    assert k in b[k := y];
  }

  // The law

  /** Reached containers have the shape the verifier insists on, and no shown object keeps an `_sd_alg` member. */
  ghost predicate Fits(t: Tree, c: Codec, held: set<string>) {
    Shape(t, c, held, 0) && AlgFree(t, c, held)
  }

  /**
   For a tree with distinct digests and any of its disclosures: unpacking meets every held disclosure and means
   the claims without the others, exactly when the held set is parent-closed and fits the verifier's limits.
   */
  lemma ExactReading(t: Tree, c: Codec, d: DigestMap)
    requires WellFormed(t) && Bound(t, c, d) && NoDup(Tags(t, c)) && d.Keys <= HiddenTags(t, c)
    ensures var r := UnpackValue(Payload(t, c), 0, d, {});
      (r.Success? && d.Keys <= r.value.seen && Denote(r.value.value) == Denote(Prune(t, c, d.Keys, false)))
      <==> Fits(t, c, d.Keys) && ParentClosed(t, c, d.Keys)
  {
    UnpackTree(t, c, 0, d, {});
    DropMatters(t, c, d.Keys);
    if AlgFree(t, c, d.Keys) {
      ClosedIsMet(t, c, None, d.Keys);
      assert AllMet(HiddenTags(t, c), Met(t, c, d.Keys), d.Keys) <==> d.Keys <= Met(t, c, d.Keys);
    }
  }
}
