/**
 Unpacking what the issuer signed: for every claim tree and every map binding some of its digests to their
 disclosures, the verifier fails exactly when a reached container has a bad shape, and otherwise reads the
 pruned claims and meets exactly the digests of `Met`.
 */
module Reconstruction {
  import opened ClaimTree
  import opened Json
  import opened Sequences
  import opened Unpacking
  import opened Wrappers

  // Shape of a signed object

  /** The visible members alone, in claim order. */
  function PlainMembers(es: seq<Entry>, c: Codec): seq<Member> {
    if es == [] then []
    else
      var n := |es| - 1;
      var r := PlainMembers(es[..n], c);
      if es[n].salt.Some? then r else r + [Member(es[n].key, Payload(es[n].value, c))]
  }

  lemma {:induction false} PlainMembersKeys(es: seq<Entry>, c: Codec)
    ensures forall m :: m in PlainMembers(es, c) ==> exists i :: 0 <= i < |es| && es[i].salt.None? && es[i].key == m.key
  {
    if es != [] {
      var n := |es| - 1;
      PlainMembersKeys(es[..n], c);
      forall m | m in PlainMembers(es, c)
        ensures exists i :: 0 <= i < |es| && es[i].salt.None? && es[i].key == m.key
      {
        if m in PlainMembers(es[..n], c) {
          var i :| 0 <= i < |es[..n]| && es[..n][i].salt.None? && es[..n][i].key == m.key;
          assert es[i].salt.None? && es[i].key == m.key;
        } else {
          assert es[n].salt.None? && es[n].key == m.key;
        }
      }
    }
  }

  lemma {:induction false} VisibleMembersPlain(es: seq<Entry>, c: Codec)
    requires DistinctEntries(es)
    ensures VisibleMembers(es, c) == [Member(SD_DIGESTS_KEY, Null)] + PlainMembers(es, c)
  {
    if es != [] {
      var n := |es| - 1;
      VisibleMembersPlain(es[..n], c);
      PlainMembersKeys(es[..n], c);
      var r := VisibleMembers(es[..n], c);
      forall i | 0 <= i < |r| && es[n].salt.None? ensures r[i].key != es[n].key {
        assert i == 0 || r[i] in PlainMembers(es[..n], c);
      }
    }
  }

  lemma {:induction false} RemoveHead(key: string, v: Value, ms: seq<Member>)
    requires forall m :: m in ms ==> m.key != key
    ensures Remove([Member(key, v)] + ms, key) == ms
  {
    var all := [Member(key, v)] + ms;
    if ms == [] {
      assert all[..0] == [];
    } else {
      var n := |ms| - 1;
      assert all[..|all| - 1] == [Member(key, v)] + ms[..n];
      RemoveHead(key, v, ms[..n]);
      assert ms == ms[..n] + [ms[n]];
    }
  }

  lemma ReplaceHead(key: string, was: Value, v: Value, ms: seq<Member>)
    requires forall m :: m in ms ==> m.key != key
    ensures Put([Member(key, was)] + ms, key, v) == [Member(key, v)] + ms
  {
    var all := [Member(key, was)] + ms;
    assert all[0].key == key;
    assert forall i :: 0 < i < |all| ==> all[i] == ms[i - 1] && ms[i - 1] in ms;
  }

  lemma SealedMembers(es: seq<Entry>, digests: seq<string>, c: Codec)
    requires DistinctEntries(es)
    ensures Seal(VisibleMembers(es, c), digests) ==
      (if digests == [] then [] else [Member(SD_DIGESTS_KEY, Array(Strings(Sort(digests))))]) + PlainMembers(es, c)
    ensures forall m :: m in PlainMembers(es, c) ==> m.key != SD_DIGESTS_KEY && m.key != SD_LIST_PREFIX
  {
    var plain := PlainMembers(es, c);
    PlainMembersKeys(es, c);
    VisibleMembersPlain(es, c);
    if digests == [] {
      RemoveHead(SD_DIGESTS_KEY, Null, plain);
    } else {
      ReplaceHead(SD_DIGESTS_KEY, Null, Array(Strings(Sort(digests))), plain);
    }
  }

  lemma {:induction false} FindAbsent(ms: seq<Member>, key: string)
    requires forall m :: m in ms ==> m.key != key
    ensures Find(ms, key) == None
  {
  }

  lemma {:induction false} FindHead(key: string, v: Value, ms: seq<Member>)
    requires forall m :: m in ms ==> m.key != key
    ensures Find([Member(key, v)] + ms, key) == Some(v)
  {
    if ms != [] {
      var all, n := [Member(key, v)] + ms, |ms| - 1;
      assert all[..|all| - 1] == [Member(key, v)] + ms[..n];
      FindHead(key, v, ms[..n]);
      assert all[|all| - 1] in ms;
    }
  }

  /** The `_sd` member is passed over by the walk through the members. */
  lemma {:induction false} UnpackMembersSkipsHead(m: Member, ms: seq<Member>, depth: nat, d: DigestMap, seen: set<string>)
    requires IsStructural(m.key)
    ensures UnpackMembers([m] + ms, depth, d, seen) == UnpackMembers(ms, depth, d, seen)
  {
    var all := [m] + ms;
    if ms == [] {
      assert UnpackMembers(all[..0], depth, d, seen) == Success(Out([], seen));
    } else {
      var n := |ms| - 1;
      assert all[..|all| - 1] == [m] + ms[..n];
      UnpackMembersSkipsHead(m, ms[..n], depth, d, seen);
    }
  }

  /** A signed value is never mistaken for an array placeholder. */
  lemma PayloadIsNotPlaceholder(t: Tree, c: Codec)
    requires WellFormed(t)
    ensures !IsPlaceholder(Payload(t, c))
  {
    if t.Dict? {
      var digests := OwnDigests(t.entries, true, c) + DecoyDigests(t.decoys, c);
      SealedMembers(t.entries, digests, c);
    }
  }

  // Disjointness

  ghost predicate Fresh(tags: seq<string>, seen: set<string>) {
    forall x :: x in tags ==> x !in seen
  }

  /** What distinct digests say about the last entry of a container and those before it. */
  lemma SplitTags(es: seq<Entry>, inDict: bool, c: Codec, seen: set<string>)
    requires es != [] && NoDup(EntryTags(es, inDict, c)) && Fresh(EntryTags(es, inDict, c), seen)
    ensures var n := |es| - 1; var e, front := es[n], EntryTags(es[..n], inDict, c);
      && NoDup(front) && Fresh(front, seen)
      && NoDup(Tags(e.value, c)) && Fresh(Tags(e.value, c), seen) && Disjoint(Tags(e.value, c), front)
      && (e.salt.Some? ==>
            Digest(e, inDict, c) !in seen && Digest(e, inDict, c) !in Tags(e.value, c) && Digest(e, inDict, c) !in front)
  {
    var n := |es| - 1;
    var e := es[n];
    var front, last := EntryTags(es[..n], inDict, c), TagsOf(e, inDict, c);
    NoDupConcat(front, last);
    assert forall x :: x in Tags(e.value, c) ==> x in last;
    assert forall x :: x in front || x in last ==> x in EntryTags(es, inDict, c);
    if e.salt.Some? {
      var own := [Digest(e, inDict, c)];
      NoDupConcat(Tags(e.value, c), own);
      assert own[0] in own && own[0] in last;
    }
  }

  lemma {:induction false} MetWithinTags(t: Tree, c: Codec, held: set<string>)
    ensures forall x :: x in Met(t, c, held) ==> x in Tags(t, c)
    decreases t, 1
  {
    match t
    case Leaf(_) =>
    case List(es) => MetEntriesWithinTags(es, false, c, held);
    case Dict(es, decoys) => MetEntriesWithinTags(es, true, c, held);
  }

  lemma {:induction false} MetEntriesWithinTags(es: seq<Entry>, inDict: bool, c: Codec, held: set<string>)
    ensures forall x :: x in MetEntries(es, inDict, c, held) ==> x in EntryTags(es, inDict, c)
    decreases es, 0
  {
    if es != [] {
      var n := |es| - 1;
      MetEntriesWithinTags(es[..n], inDict, c, held);
      MetWithinTags(es[n].value, c, held);
      var last := TagsOf(es[n], inDict, c);
      assert es[n].salt.Some? ==> last[|last| - 1] == Digest(es[n], inDict, c);
      assert forall x :: x in Tags(es[n].value, c) ==> x in last;
    }
  }

  // Objects: the visible members come first, the hidden ones in the order of their digests

  function Part(es: seq<Entry>, hidden: bool): seq<Entry> {
    if es == [] then []
    else
      var n := |es| - 1;
      var r := Part(es[..n], hidden);
      if es[n].salt.Some? == hidden then r + [es[n]] else r
  }

  lemma {:induction false} PartMembers(es: seq<Entry>, hidden: bool)
    ensures forall e :: e in Part(es, hidden) ==> e in es && e.salt.Some? == hidden
  {
    if es != [] {
      PartMembers(es[..|es| - 1], hidden);
    }
  }

  lemma {:induction false} PartDistinct(es: seq<Entry>, hidden: bool)
    requires DistinctEntries(es)
    ensures DistinctEntries(Part(es, hidden))
  {
    if es != [] {
      var n := |es| - 1;
      PartDistinct(es[..n], hidden);
      PartMembers(es[..n], hidden);
      var front := Part(es[..n], hidden);
      assert forall i :: 0 <= i < |front| ==> front[i] in front;
    }
  }

  lemma {:induction false} PartInherits(es: seq<Entry>, hidden: bool, c: Codec, d: DigestMap)
    requires WellFormedEntries(es) && BoundEntries(es, true, c, d)
    ensures WellFormedEntries(Part(es, hidden)) && BoundEntries(Part(es, hidden), true, c, d)
  {
    if es != [] {
      var n := |es| - 1;
      PartInherits(es[..n], hidden, c, d);
      var front := Part(es[..n], hidden);
      Snoc(front, es[n]);
    }
  }

  lemma {:induction false} PartPayload(es: seq<Entry>, c: Codec)
    ensures PlainMembers(es, c) == PlainMembers(Part(es, false), c)
    ensures OwnDigests(es, true, c) == OwnDigests(Part(es, true), true, c)
  {
    if es != [] {
      var n := |es| - 1;
      PartPayload(es[..n], c);
      var vs, hs := Part(es[..n], false), Part(es[..n], true);
      Snoc(vs, es[n]);
      Snoc(hs, es[n]);
    }
  }

  lemma {:induction false} PartTags(es: seq<Entry>, c: Codec)
    ensures multiset(EntryTags(es, true, c))
      == multiset(EntryTags(Part(es, false), true, c)) + multiset(EntryTags(Part(es, true), true, c))
  {
    if es != [] {
      var n := |es| - 1;
      PartTags(es[..n], c);
      var vs, hs := Part(es[..n], false), Part(es[..n], true);
      Snoc(vs, es[n]);
      Snoc(hs, es[n]);
    }
  }

  lemma {:induction false} PartMet(es: seq<Entry>, c: Codec, held: set<string>)
    ensures MetEntries(es, true, c, held)
      == MetEntries(Part(es, false), true, c, held) + MetEntries(Part(es, true), true, c, held)
  {
    if es != [] {
      var n := |es| - 1;
      PartMet(es[..n], c, held);
      var vs, hs := Part(es[..n], false), Part(es[..n], true);
      Snoc(vs, es[n]);
      Snoc(hs, es[n]);
    }
  }

  lemma {:induction false} PartShape(es: seq<Entry>, c: Codec, held: set<string>, depth: nat)
    ensures ShapeEntries(es, true, c, held, depth)
      <==> ShapeEntries(Part(es, false), true, c, held, depth) && ShapeEntries(Part(es, true), true, c, held, depth)
  {
    if es != [] {
      var n := |es| - 1;
      PartShape(es[..n], c, held, depth);
      var vs, hs := Part(es[..n], false), Part(es[..n], true);
      Snoc(vs, es[n]);
      Snoc(hs, es[n]);
    }
  }

  /** The fields a reader gets from these entries. */
  ghost function Fields(es: seq<Entry>, c: Codec, held: set<string>, drop: bool): map<string, Meaning> {
    if es == [] then map[]
    else
      var n := |es| - 1;
      var r := Fields(es[..n], c, held, drop);
      if Kept(es[n], c, held, drop) then r[es[n].key := Denote(Prune(es[n].value, c, held, drop))] else r
  }

  ghost function Field(e: Entry, c: Codec, held: set<string>): map<string, Meaning> {
    if Reached(e, true, c, held) then map[e.key := Denote(Prune(e.value, c, held, true))] else map[]
  }

  lemma FieldsStep(es: seq<Entry>, base: map<string, Meaning>, c: Codec, held: set<string>)
    requires es != []
    ensures (base + Fields(es[..|es| - 1], c, held, true)) + Field(es[|es| - 1], c, held) == base + Fields(es, c, held, true)
  {
  }

  lemma {:induction false} FieldsOfPrune(es: seq<Entry>, c: Codec, held: set<string>, drop: bool)
    ensures DenoteMembers(PruneMembers(es, c, held, drop)) == Fields(es, c, held, drop)
  {
    if es != [] {
      var n := |es| - 1;
      FieldsOfPrune(es[..n], c, held, drop);
      var front := PruneMembers(es[..n], c, held, drop);
      if Kept(es[n], c, held, drop) {
        Snoc(front, Member(es[n].key, Prune(es[n].value, c, held, drop)));
      }
    }
  }

  lemma {:induction false} FieldsKeys(es: seq<Entry>, c: Codec, held: set<string>, drop: bool)
    ensures forall k :: k in Fields(es, c, held, drop) ==> exists e :: e in es && e.key == k
  {
    if es != [] {
      FieldsKeys(es[..|es| - 1], c, held, drop);
      assert es[|es| - 1] in es;
    }
  }

  lemma UpdateUnion(a: map<string, Meaning>, b: map<string, Meaning>, k: string, v: Meaning)
    ensures a + b[k := v] == (a + b)[k := v]
    ensures k !in b ==> a[k := v] + b == (a + b)[k := v]
  {
  }

  lemma {:induction false} PartFields(es: seq<Entry>, c: Codec, held: set<string>)
    requires DistinctEntries(es)
    ensures Fields(es, c, held, true) == Fields(Part(es, false), c, held, true) + Fields(Part(es, true), c, held, true)
  {
    if es != [] {
      var n := |es| - 1;
      PartFields(es[..n], c, held);
      var vs, hs := Part(es[..n], false), Part(es[..n], true);
      Snoc(vs, es[n]);
      Snoc(hs, es[n]);
      FieldsKeys(hs, c, held, true);
      PartMembers(es[..n], true);
      assert es[n].key !in Fields(hs, c, held, true);
      UpdateUnion(Fields(vs, c, held, true), Fields(hs, c, held, true), es[n].key, Denote(Prune(es[n].value, c, held, true)));
    }
  }

  // Taking one entry out of a list

  function Without(es: seq<Entry>, i: nat): seq<Entry>
    requires i < |es|
  {
    es[..i] + es[i + 1..]
  }

  lemma WithoutFront(es: seq<Entry>, i: nat)
    requires i < |es|
    ensures i == |es| - 1 ==> Without(es, i) == es[..i]
    ensures i < |es| - 1 ==>
      var n := |es| - 1; Without(es, i)[..n - 1] == Without(es[..n], i) && Without(es, i)[n - 1] == es[n] && es[..n][i] == es[i]
  {
  }

  lemma {:induction false} WithoutInherits(es: seq<Entry>, i: nat, c: Codec, d: DigestMap)
    requires i < |es| && WellFormedEntries(es) && BoundEntries(es, true, c, d)
    ensures WellFormedEntries(Without(es, i)) && BoundEntries(Without(es, i), true, c, d)
    ensures WellFormed(es[i].value) && Bound(es[i].value, c, d) && BoundEntry(es[i], true, c, d)
  {
    WithoutFront(es, i);
    if i < |es| - 1 {
      WithoutInherits(es[..|es| - 1], i, c, d);
    }
  }

  lemma EntryTagsSnoc(es: seq<Entry>, e: Entry, c: Codec)
    ensures EntryTags(es + [e], true, c) == EntryTags(es, true, c) + TagsOf(e, true, c)
  {
    Snoc(es, e);
  }

  lemma {:induction false} WithoutTags(es: seq<Entry>, i: nat, c: Codec)
    requires i < |es|
    ensures multiset(EntryTags(es, true, c)) == multiset(EntryTags(Without(es, i), true, c)) + multiset(TagsOf(es[i], true, c))
  {
    var front, last := es[..|es| - 1], es[|es| - 1];
    assert es == front + [last];
    EntryTagsSnoc(front, last, c);
    if i < |es| - 1 {
      assert Without(es, i) == Without(front, i) + [last];
      EntryTagsSnoc(Without(front, i), last, c);
      WithoutTags(front, i, c);
      SwapLast(EntryTags(front, true, c), EntryTags(Without(front, i), true, c), TagsOf(es[i], true, c), TagsOf(last, true, c));
    } else {
      assert Without(es, i) == front;
    }
  }

  lemma SwapLast(a: seq<string>, b: seq<string>, taken: seq<string>, last: seq<string>)
    requires multiset(a) == multiset(b) + multiset(taken)
    ensures multiset(a + last) == multiset(b + last) + multiset(taken)
  {
  }

  lemma {:induction false} WithoutDigest(es: seq<Entry>, i: nat, c: Codec)
    requires i < |es| && es[i].salt.Some?
    ensures multiset(OwnDigests(es, true, c)) == multiset(OwnDigests(Without(es, i), true, c)) + multiset{Digest(es[i], true, c)}
  {
    WithoutFront(es, i);
    if i < |es| - 1 {
      WithoutDigest(es[..|es| - 1], i, c);
    }
  }

  lemma {:induction false} WithoutMet(es: seq<Entry>, i: nat, c: Codec, held: set<string>)
    requires i < |es|
    ensures MetEntries(es, true, c, held) == MetEntries(Without(es, i), true, c, held) + MetEntry(es[i], true, c, held)
  {
    WithoutFront(es, i);
    if i < |es| - 1 {
      WithoutMet(es[..|es| - 1], i, c, held);
    }
  }

  lemma {:induction false} WithoutShape(es: seq<Entry>, i: nat, c: Codec, held: set<string>, depth: nat)
    requires i < |es|
    ensures ShapeEntries(es, true, c, held, depth)
      <==> (ShapeEntries(Without(es, i), true, c, held, depth)
            && (Reached(es[i], true, c, held) ==> Shape(es[i].value, c, held, depth)))
  {
    WithoutFront(es, i);
    if i < |es| - 1 {
      WithoutShape(es[..|es| - 1], i, c, held, depth);
    }
  }

  lemma {:induction false} WithoutFields(es: seq<Entry>, i: nat, c: Codec, held: set<string>)
    requires i < |es| && DistinctEntries(es)
    ensures Fields(es, c, held, true) == Fields(Without(es, i), c, held, true) + Field(es[i], c, held)
    ensures es[i].key !in Fields(Without(es, i), c, held, true)
  {
    WithoutFront(es, i);
    FieldsKeys(Without(es, i), c, held, true);
    if i < |es| - 1 {
      WithoutFields(es[..|es| - 1], i, c, held);
    }
  }

  // Unpacking

  /** `r` is the reading of `t` at `depth`, from a state where `seen` was met. */
  ghost predicate Reads(r: Result<Out<Value>, Error>, t: Tree, c: Codec, held: set<string>, depth: nat, seen: set<string>) {
    && (r.Success? <==> Shape(t, c, held, depth))
    && (r.Success? ==>
          && Denote(r.value.value) == Denote(Prune(t, c, held, true))
          && r.value.seen == seen + Met(t, c, held))
  }

  ghost predicate ReadsList(r: Result<Out<seq<Value>>, Error>, es: seq<Entry>, c: Codec, held: set<string>, depth: nat, seen: set<string>) {
    && (r.Success? <==> ShapeEntries(es, false, c, held, depth))
    && (r.Success? ==>
          && DenoteItems(r.value.value) == DenoteItems(PruneItems(es, c, held, true))
          && r.value.seen == seen + MetEntries(es, false, c, held))
  }

  lemma {:induction false} UnpackTree(t: Tree, c: Codec, depth: nat, d: DigestMap, seen: set<string>)
    requires WellFormed(t) && Bound(t, c, d) && NoDup(Tags(t, c)) && Fresh(Tags(t, c), seen)
    ensures Reads(UnpackValue(Payload(t, c), depth, d, seen), t, c, d.Keys, depth, seen)
    decreases t, 1
  {
    match t
    case Leaf(v) =>
    case List(es) => UnpackList(es, c, depth, d, seen);
    case Dict(es, decoys) =>
      if depth < MAX_PROCESSED_SD_JWT_DEPTH {
        UnpackDict(es, decoys, c, depth + 1, d, seen);
      }
  }

  lemma {:induction false} UnpackList(es: seq<Entry>, c: Codec, depth: nat, d: DigestMap, seen: set<string>)
    requires WellFormedEntries(es) && BoundEntries(es, false, c, d)
    requires NoDup(EntryTags(es, false, c)) && Fresh(EntryTags(es, false, c), seen)
    ensures Reads(UnpackValue(Array(ListPayload(es, c)), depth, d, seen), List(es), c, d.Keys, depth, seen)
    decreases es, 1
  {
    if depth < MAX_PROCESSED_SD_JWT_DEPTH && es != [] {
      UnpackListEntries(es, c, depth + 1, d, seen);
    }
  }

  lemma {:induction false} UnpackListEntries(es: seq<Entry>, c: Codec, depth: nat, d: DigestMap, seen: set<string>)
    requires WellFormedEntries(es) && BoundEntries(es, false, c, d)
    requires NoDup(EntryTags(es, false, c)) && Fresh(EntryTags(es, false, c), seen)
    ensures ReadsList(UnpackItems(ListPayload(es, c), depth, d, seen), es, c, d.Keys, depth, seen)
    decreases es, 0
  {
    if es != [] {
      var n := |es| - 1;
      var items := ListPayload(es, c);
      assert items[..n] == ListPayload(es[..n], c);
      SplitTags(es, false, c, seen);
      UnpackListEntries(es[..n], c, depth, d, seen);
      var r := UnpackItems(items[..n], depth, d, seen);
      if r.Success? {
        var held, e := d.Keys, es[n];
        MetEntriesWithinTags(es[..n], false, c, held);
        UnpackListEntry(e, c, depth, d, r.value.value, r.value.seen);
        UnionAssociates(seen, MetEntries(es[..n], false, c, held), MetEntry(e, false, c, held));
        Snoc(PruneItems(es[..n], c, held, true), Prune(e.value, c, held, true));
      }
    }
  }

  lemma {:induction false} UnpackListEntry(e: Entry, c: Codec, depth: nat, d: DigestMap, claims: seq<Value>, seen: set<string>)
    requires WellFormed(e.value) && Bound(e.value, c, d) && BoundEntry(e, false, c, d)
    requires NoDup(Tags(e.value, c)) && Fresh(Tags(e.value, c), seen)
    requires e.salt.Some? ==> Digest(e, false, c) !in seen && Digest(e, false, c) !in Tags(e.value, c)
    ensures var item := if e.salt.Some? then Placeholder(Digest(e, false, c)) else Payload(e.value, c);
      var r := UnpackItem(claims, item, depth, d, seen);
      && (r.Success? <==> (Reached(e, false, c, d.Keys) ==> Shape(e.value, c, d.Keys, depth)))
      && (r.Success? ==>
            && DenoteItems(r.value.value) == (if Shown(e, false, c, d.Keys)
                 then DenoteItems(claims) + [Denote(Prune(e.value, c, d.Keys, true))] else DenoteItems(claims))
            && r.value.seen == seen + MetEntry(e, false, c, d.Keys))
    decreases e, 3
  {
    if e.salt.Some? {
      var digest := Digest(e, false, c);
      var p := Placeholder(digest);
      assert p.members[0].key == SD_LIST_PREFIX && IsPlaceholder(p);
      assert Find(p.members, SD_LIST_PREFIX) == Some(Str(digest));
      if digest in d {
        UnpackTree(e.value, c, depth, d, seen + {digest});
        var v := UnpackValue(Payload(e.value, c), depth, d, seen + {digest});
        if v.Success? {
          Snoc(claims, v.value.value);
        }
      }
    } else {
      PayloadIsNotPlaceholder(e.value, c);
      UnpackTree(e.value, c, depth, d, seen);
      var v := UnpackValue(Payload(e.value, c), depth, d, seen);
      if v.Success? {
        Snoc(claims, v.value.value);
      }
    }
  }

  lemma {:induction false} UnpackVisible(all: seq<Entry>, es: seq<Entry>, c: Codec, depth: nat, d: DigestMap, seen: set<string>)
    requires forall e :: e in es ==> e in all && e.salt.None?
    requires DistinctEntries(es) && WellFormedEntries(es) && BoundEntries(es, true, c, d)
    requires NoDup(EntryTags(es, true, c)) && Fresh(EntryTags(es, true, c), seen)
    ensures ReadsMembers(UnpackMembers(PlainMembers(es, c), depth, d, seen), es, map[], {}, c, d.Keys, depth, seen)
    decreases all, 1, |es|
  {
    if es != [] {
      var n := |es| - 1;
      var e, held := es[n], d.Keys;
      assert e in es;
      Snoc(PlainMembers(es[..n], c), Member(e.key, Payload(e.value, c)));
      SplitTags(es, true, c, seen);
      UnpackVisible(all, es[..n], c, depth, d, seen);
      var r := UnpackMembers(PlainMembers(es[..n], c), depth, d, seen);
      if r.Success? {
        MetEntriesWithinTags(es[..n], true, c, held);
        UnionAssociates(seen, MetEntries(es[..n], true, c, held), MetEntry(e, true, c, held));
        FieldsKeys(es[..n], c, held, true);
        FieldsStep(es, map[], c, held);
        UnpackVisibleEntry(e, r.value.value, c, depth, d, r.value.seen);
      }
    }
  }

  lemma {:induction false} UnpackVisibleEntry(e: Entry, claims: seq<Member>, c: Codec, depth: nat, d: DigestMap, seen: set<string>)
    requires e.salt.None? && e.key != SD_DIGESTS_KEY && e.key !in DenoteMembers(claims)
    requires WellFormed(e.value) && Bound(e.value, c, d)
    requires NoDup(Tags(e.value, c)) && Fresh(Tags(e.value, c), seen)
    ensures var r := UnpackMember(claims, Member(e.key, Payload(e.value, c)), depth, d, seen);
      && (r.Success? <==> (Reached(e, true, c, d.Keys) ==> Shape(e.value, c, d.Keys, depth)))
      && (r.Success? ==>
            && DenoteMembers(r.value.value) == DenoteMembers(claims) + Field(e, c, d.Keys)
            && r.value.seen == seen + MetEntry(e, true, c, d.Keys))
    decreases e, 3
  {
    if !Dropped(e) {
      UnpackTree(e.value, c, depth, d, seen);
      PlainMember(e.key, Payload(e.value, c), claims, depth, d, seen, Shape(e.value, c, d.Keys, depth),
                  Denote(Prune(e.value, c, d.Keys, true)), Met(e.value, c, d.Keys));
    }
  }

  /** What unpacking gives: success exactly when `shape` holds, then a value of this meaning after meeting these digests. */
  ghost predicate Gives(r: Result<Out<Value>, Error>, shape: bool, meaning: Meaning, met: set<string>, seen: set<string>) {
    && (r.Success? <==> shape)
    && (r.Success? ==> Denote(r.value.value) == meaning && r.value.seen == seen + met)
  }

  ghost predicate GivesMember(
      r: Result<Out<seq<Member>>, Error>, shape: bool, base: map<string, Meaning>, key: string, meaning: Meaning, met: set<string>,
      seen: set<string>)
  {
    && (r.Success? <==> shape)
    && (r.Success? ==> DenoteMembers(r.value.value) == base + map[key := meaning] && r.value.seen == seen + met)
  }

  lemma PlainMember(
      key: string, value: Value, claims: seq<Member>, depth: nat, d: DigestMap, seen: set<string>, shape: bool, meaning: Meaning,
      met: set<string>)
    requires !IsStructural(key) && key !in DenoteMembers(claims)
    requires Gives(UnpackValue(value, depth, d, seen), shape, meaning, met, seen)
    ensures GivesMember(UnpackMember(claims, Member(key, value), depth, d, seen), shape, DenoteMembers(claims), key, meaning, met, seen)
  {
    var v := UnpackValue(value, depth, d, seen);
    if v.Success? {
      MeaningOfAppend(claims, key, v.value.value);
    }
  }

  lemma MeaningOfAppend(ms: seq<Member>, key: string, v: Value)
    requires key !in DenoteMembers(ms)
    ensures DenoteMembers(Put(ms, key, v)) == DenoteMembers(ms) + map[key := Denote(v)]
  {
    MeaningKeys(ms, key);
    Snoc(ms, Member(key, v));
  }

  /** The digests `order` are those of the entries `es` and `ds`, in any order; none occurs twice or was seen. */
  ghost predicate Listed(order: seq<string>, es: seq<Entry>, ds: seq<string>, c: Codec, seen: set<string>) {
    && multiset(order) == multiset(OwnDigests(es, true, c)) + multiset(ds)
    && Once(multiset(EntryTags(es, true, c)) + multiset(ds), seen)
  }

  ghost predicate Once(tags: multiset<string>, seen: set<string>) {
    forall x :: x in tags ==> tags[x] == 1 && x !in seen
  }

  /** Hidden members of a well-formed object, none of which was claimed yet. */
  ghost predicate Pending(es: seq<Entry>, claims: seq<Member>, c: Codec, d: DigestMap) {
    && (forall i :: 0 <= i < |es| ==> es[i].salt.Some? && es[i].key !in DenoteMembers(claims))
    && DistinctEntries(es) && WellFormedEntries(es) && BoundEntries(es, true, c, d)
  }

  /** The loop over `_sd`, whose sorted order need not be the order of the members. */
  lemma {:induction false} UnpackHidden(
      all: seq<Entry>, order: seq<string>, es: seq<Entry>, ds: seq<string>, claims: seq<Member>, c: Codec, depth: nat, d: DigestMap,
      seen: set<string>)
    requires Listed(order, es, ds, c, seen) && Pending(es, claims, c, d)
    requires (forall i :: 0 <= i < |es| ==> es[i] in all) && forall x :: x in ds ==> x !in d
    ensures ReadsMembers(UnpackFromDigests(claims, Strings(order), depth, d, seen),
                         es, DenoteMembers(claims), Elements(ds), c, d.Keys, depth, seen)
    decreases all, 1, |order|
  {
    if order == [] {
      NothingHidden(es, ds, c);
    } else {
      var x := order[|order| - 1];
      assert x in multiset(order);
      if x in ds {
        UnpackHiddenAfterDecoy(all, order, es, ds, claims, c, depth, d, seen);
      } else {
        OwnDigestOwner(es, c, x);
        var i :| 0 <= i < |es| && es[i].salt.Some? && Digest(es[i], true, c) == x;
        UnpackHiddenAfterEntry(all, order, es, i, ds, claims, c, depth, d, seen);
      }
    }
  }

  lemma {:induction false} UnpackHiddenAfterDecoy(
      all: seq<Entry>, order: seq<string>, es: seq<Entry>, ds: seq<string>, claims: seq<Member>, c: Codec, depth: nat, d: DigestMap,
      seen: set<string>)
    requires Listed(order, es, ds, c, seen) && Pending(es, claims, c, d)
    requires (forall i :: 0 <= i < |es| ==> es[i] in all) && forall x :: x in ds ==> x !in d
    requires order != [] && order[|order| - 1] in ds
    ensures ReadsMembers(UnpackFromDigests(claims, Strings(order), depth, d, seen),
                         es, DenoteMembers(claims), Elements(ds), c, d.Keys, depth, seen)
    decreases all, 1, |order|, 0
  {
    var n := |order| - 1;
    var j :| 0 <= j < |ds| && ds[j] == order[n];
    var rest := ds[..j] + ds[j + 1..];
    ListedDecoy(order, es, ds, j, c, seen);
    UnpackHidden(all, order[..n], es, rest, claims, c, depth, d, seen);
    UnpackDecoy(order, es, ds, rest, claims, c, depth, d, seen);
  }

  lemma {:induction false} UnpackHiddenAfterEntry(
      all: seq<Entry>, order: seq<string>, es: seq<Entry>, i: nat, ds: seq<string>, claims: seq<Member>, c: Codec, depth: nat,
      d: DigestMap, seen: set<string>)
    requires Listed(order, es, ds, c, seen) && Pending(es, claims, c, d)
    requires (forall i :: 0 <= i < |es| ==> es[i] in all) && forall x :: x in ds ==> x !in d
    requires order != [] && i < |es| && es[i].salt.Some? && Digest(es[i], true, c) == order[|order| - 1]
    ensures ReadsMembers(UnpackFromDigests(claims, Strings(order), depth, d, seen),
                         es, DenoteMembers(claims), Elements(ds), c, d.Keys, depth, seen)
    decreases all, 1, |order|, 0
  {
    ListedEntry(order, es, i, ds, c, seen);
    PendingWithout(es, i, claims, c, d);
    UnpackHidden(all, order[..|order| - 1], Without(es, i), ds, claims, c, depth, d, seen);
    UnpackHiddenEntry(all, order, es, i, ds, claims, c, depth, d, seen);
  }

  lemma NothingHidden(es: seq<Entry>, ds: seq<string>, c: Codec)
    requires multiset(OwnDigests(es, true, c)) + multiset(ds) == multiset{}
    requires forall i :: 0 <= i < |es| ==> es[i].salt.Some?
    ensures es == [] && ds == []
  {
    assert |multiset(OwnDigests(es, true, c)) + multiset(ds)| == |OwnDigests(es, true, c)| + |ds|;
  }

  lemma {:induction false} OwnDigestOwner(es: seq<Entry>, c: Codec, x: string)
    requires x in OwnDigests(es, true, c)
    ensures exists i :: 0 <= i < |es| && es[i].salt.Some? && Digest(es[i], true, c) == x
  {
    var n := |es| - 1;
    if es[n].salt.None? || Digest(es[n], true, c) != x {
      OwnDigestOwner(es[..n], c, x);
      var i :| 0 <= i < |es[..n]| && es[..n][i].salt.Some? && Digest(es[..n][i], true, c) == x;
      assert es[i].salt.Some? && Digest(es[i], true, c) == x;
    }
  }

  lemma ListedDecoy(order: seq<string>, es: seq<Entry>, ds: seq<string>, j: nat, c: Codec, seen: set<string>)
    requires order != [] && Listed(order, es, ds, c, seen) && j < |ds| && ds[j] == order[|order| - 1]
    ensures var rest := ds[..j] + ds[j + 1..];
      && Listed(order[..|order| - 1], es, rest, c, seen)
      && Elements(ds) == Elements(rest) + {ds[j]}
      && (forall y :: y in rest ==> y in ds)
      && ds[j] !in rest && ds[j] !in EntryTags(es, true, c) && ds[j] !in seen
  {
    var x, rest := ds[j], ds[..j] + ds[j + 1..];
    var tags := multiset(EntryTags(es, true, c));
    TakeOut(ds, j);
    RemoveOnce(tags + multiset(rest), x, seen);
    assert tags + multiset(ds) == tags + multiset(rest) + multiset{x};
    DropLast(order, multiset(OwnDigests(es, true, c)) + multiset(rest));
    assert x !in tags + multiset(rest);
    assert x in EntryTags(es, true, c) ==> x in tags;
    assert x in rest ==> x in multiset(rest);
  }

  lemma TakeOut(ds: seq<string>, j: nat)
    requires j < |ds|
    ensures var rest := ds[..j] + ds[j + 1..];
      && multiset(ds) == multiset(rest) + multiset{ds[j]} && Elements(ds) == Elements(rest) + {ds[j]}
      && forall y :: y in rest ==> y in ds
  {
    assert ds == ds[..j] + [ds[j]] + ds[j + 1..];
  }

  lemma RemoveOnce(tags: multiset<string>, x: string, seen: set<string>)
    ensures Once(tags + multiset{x}, seen) ==> Once(tags, seen) && x !in tags && x !in seen
  {
    assert x in tags + multiset{x};
    if Once(tags + multiset{x}, seen) {
      forall y | y in tags ensures tags[y] == 1 && y !in seen && y != x {
        assert y in tags + multiset{x};
      }
    }
  }

  lemma DropLast(order: seq<string>, rest: multiset<string>)
    requires order != [] && multiset(order) == rest + multiset{order[|order| - 1]}
    ensures multiset(order[..|order| - 1]) == rest
  {
    var front, x := order[..|order| - 1], order[|order| - 1];
    assert order == front + [x];
    forall y ensures multiset(front)[y] == rest[y] {
      assert multiset(order)[y] == (multiset(front) + multiset{x})[y];
    }
  }

  lemma UnpackDecoy(
      order: seq<string>, es: seq<Entry>, ds: seq<string>, rest: seq<string>, claims: seq<Member>, c: Codec, depth: nat, d: DigestMap,
      seen: set<string>)
    requires order != []
    requires order[|order| - 1] !in d && order[|order| - 1] !in rest
    requires order[|order| - 1] !in EntryTags(es, true, c) && order[|order| - 1] !in seen
    requires Elements(ds) == Elements(rest) + {order[|order| - 1]}
    requires ReadsMembers(UnpackFromDigests(claims, Strings(order[..|order| - 1]), depth, d, seen),
                          es, DenoteMembers(claims), Elements(rest), c, d.Keys, depth, seen)
    ensures ReadsMembers(UnpackFromDigests(claims, Strings(order), depth, d, seen),
                         es, DenoteMembers(claims), Elements(ds), c, d.Keys, depth, seen)
  {
    var n := |order| - 1;
    assert Strings(order)[..n] == Strings(order[..n]);
    MetEntriesWithinTags(es, true, c, d.Keys);
    var r := UnpackFromDigests(claims, Strings(order[..n]), depth, d, seen);
    if r.Success? {
      var met := MetEntries(es, true, c, d.Keys);
      assert order[n] !in r.value.seen;
      assert r.value.seen + {order[n]} == seen + met + Elements(ds);
      assert UnpackFromDigests(claims, Strings(order), depth, d, seen) == Success(Out(r.value.value, r.value.seen + {order[n]}));
    }
  }

  lemma ListedEntry(order: seq<string>, es: seq<Entry>, i: nat, ds: seq<string>, c: Codec, seen: set<string>)
    requires order != [] && Listed(order, es, ds, c, seen) && i < |es| && es[i].salt.Some?
    requires Digest(es[i], true, c) == order[|order| - 1]
    ensures Listed(order[..|order| - 1], Without(es, i), ds, c, seen)
    ensures var e := es[i];
      && NoDup(TagsOf(e, true, c)) && Fresh(TagsOf(e, true, c), seen)
      && Disjoint(TagsOf(e, true, c), EntryTags(Without(es, i), true, c)) && Disjoint(TagsOf(e, true, c), ds)
  {
    var e, rest := es[i], Without(es, i);
    WithoutTags(es, i, c);
    WithoutDigest(es, i, c);
    var own, others := multiset(TagsOf(e, true, c)), multiset(EntryTags(rest, true, c)) + multiset(ds);
    assert multiset(EntryTags(es, true, c)) + multiset(ds) == own + others;
    SplitOnce(own, others, seen);
    DropLast(order, multiset(OwnDigests(rest, true, c)) + multiset(ds));
    ApartOnce(TagsOf(e, true, c), EntryTags(rest, true, c), ds, seen);
  }

  lemma ApartOnce(own: seq<string>, others: seq<string>, ds: seq<string>, seen: set<string>)
    requires Once(multiset(own) + (multiset(others) + multiset(ds)), seen)
    ensures NoDup(own) && Fresh(own, seen) && Disjoint(own, others) && Disjoint(own, ds)
  {
    SplitOnce(multiset(own), multiset(others) + multiset(ds), seen);
    NoDupMultiset(own);
    forall x | x in own
      ensures x !in seen && x !in others && x !in ds
    {
      assert x in multiset(own);
      assert x in others || x in ds ==> x in multiset(others) + multiset(ds);
    }
  }

  lemma SplitOnce(a: multiset<string>, b: multiset<string>, seen: set<string>)
    requires Once(a + b, seen)
    ensures Once(a, seen) && Once(b, seen)
    ensures forall x :: x in a ==> x !in b
    ensures forall x :: a[x] <= 1
  {
    forall x | x in a ensures a[x] == 1 && x !in seen && x !in b {
      assert x in a + b;
    }
    forall x | x in b ensures b[x] == 1 && x !in seen {
      assert x in a + b;
    }
  }

  lemma PendingWithout(es: seq<Entry>, i: nat, claims: seq<Member>, c: Codec, d: DigestMap)
    requires i < |es| && Pending(es, claims, c, d)
    ensures Pending(Without(es, i), claims, c, d)
    ensures WellFormed(es[i].value) && Bound(es[i].value, c, d) && BoundEntry(es[i], true, c, d)
  {
    WithoutInherits(es, i, c, d);
  }

  lemma {:induction false} UnpackHiddenEntry(
      all: seq<Entry>, order: seq<string>, es: seq<Entry>, i: nat, ds: seq<string>, claims: seq<Member>, c: Codec, depth: nat,
      d: DigestMap, seen: set<string>)
    requires order != [] && i < |es| && es[i] in all && es[i].salt.Some? && Digest(es[i], true, c) == order[|order| - 1]
    requires Pending(es, claims, c, d)
    requires WellFormed(es[i].value) && Bound(es[i].value, c, d) && BoundEntry(es[i], true, c, d)
    requires var e := es[i];
      && NoDup(TagsOf(e, true, c)) && Fresh(TagsOf(e, true, c), seen)
      && Disjoint(TagsOf(e, true, c), EntryTags(Without(es, i), true, c)) && Disjoint(TagsOf(e, true, c), ds)
    requires ReadsMembers(UnpackFromDigests(claims, Strings(order[..|order| - 1]), depth, d, seen),
                          Without(es, i), DenoteMembers(claims), Elements(ds), c, d.Keys, depth, seen)
    ensures ReadsMembers(UnpackFromDigests(claims, Strings(order), depth, d, seen),
                         es, DenoteMembers(claims), Elements(ds), c, d.Keys, depth, seen)
    decreases all, 0
  {
    var n := |order| - 1;
    var e, rest, held := es[i], Without(es, i), d.Keys;
    assert Strings(order)[..n] == Strings(order[..n]);
    WithoutMet(es, i, c, held);
    WithoutShape(es, i, c, held, depth);
    WithoutFields(es, i, c, held);
    var r := UnpackFromDigests(claims, Strings(order[..n]), depth, d, seen);
    if r.Success? {
      MetEntriesWithinTags(rest, true, c, held);
      OwnTags(e, c, r.value.seen);
      assert e.key !in DenoteMembers(r.value.value);
      UnpackMemberEntry(e, r.value.value, c, depth, d, r.value.seen);
      AddField(DenoteMembers(claims), Fields(rest, c, held, true), Field(e, c, held));
    }
  }

  lemma AddField(base: map<string, Meaning>, fields: map<string, Meaning>, field: map<string, Meaning>)
    ensures (base + fields) + field == base + (fields + field)
  {
  }

  lemma OwnTags(e: Entry, c: Codec, seen: set<string>)
    requires e.salt.Some? && NoDup(TagsOf(e, true, c)) && Fresh(TagsOf(e, true, c), seen)
    ensures NoDup(Tags(e.value, c)) && Fresh(Tags(e.value, c), seen)
    ensures Digest(e, true, c) !in seen && Digest(e, true, c) !in Tags(e.value, c)
  {
    var tags, own := Tags(e.value, c), [Digest(e, true, c)];
    NoDupConcat(tags, own);
    assert own[0] in own && own[0] in tags + own;
    assert forall x :: x in tags ==> x in tags + own;
  }

  lemma {:induction false} UnpackMemberEntry(e: Entry, claims: seq<Member>, c: Codec, depth: nat, d: DigestMap, seen: set<string>)
    requires e.salt.Some? && e.key != SD_DIGESTS_KEY && e.key != SD_LIST_PREFIX && e.key !in DenoteMembers(claims)
    requires WellFormed(e.value) && Bound(e.value, c, d) && BoundEntry(e, true, c, d)
    requires NoDup(Tags(e.value, c)) && Fresh(Tags(e.value, c), seen)
    requires Digest(e, true, c) !in seen && Digest(e, true, c) !in Tags(e.value, c)
    ensures var r := UnpackMemberDigest(claims, Str(Digest(e, true, c)), depth, d, seen);
      && (r.Success? <==> (Reached(e, true, c, d.Keys) ==> Shape(e.value, c, d.Keys, depth)))
      && (r.Success? ==>
            && DenoteMembers(r.value.value) == DenoteMembers(claims) + Field(e, c, d.Keys)
            && r.value.seen == seen + MetEntry(e, true, c, d.Keys))
    decreases e, 3
  {
    var x := Digest(e, true, c);
    if x in d {
      UnpackTree(e.value, c, depth, d, seen + {x});
      RevealedMember(x, e.salt.value, e.key, Payload(e.value, c), claims, depth, d, seen, Shape(e.value, c, d.Keys, depth),
                     Denote(Prune(e.value, c, d.Keys, true)), Met(e.value, c, d.Keys));
    }
  }

  lemma RevealedMember(
      x: string, salt: string, key: string, value: Value, claims: seq<Member>, depth: nat, d: DigestMap, seen: set<string>,
      shape: bool, meaning: Meaning, met: set<string>)
    requires key != SD_DIGESTS_KEY && key != SD_LIST_PREFIX && key !in DenoteMembers(claims)
    requires x in d && d[x] == Array([Str(salt), Str(key), value]) && x !in seen
    requires Gives(UnpackValue(value, depth, d, seen + {x}), shape, meaning, met, seen + {x})
    ensures GivesMember(UnpackMemberDigest(claims, Str(x), depth, d, seen), shape, DenoteMembers(claims), key, meaning, {x} + met, seen)
  {
    MeaningKeys(claims, key);
    var v := UnpackValue(value, depth, d, seen + {x});
    if v.Success? {
      MeaningOfAppend(claims, key, v.value.value);
    }
  }

  /** `r` adds to `base` the fields of `es`, and to `seen` their digests and `extra`. */
  ghost predicate ReadsMembers(
      r: Result<Out<seq<Member>>, Error>, es: seq<Entry>, base: map<string, Meaning>, extra: set<string>,
      c: Codec, held: set<string>, depth: nat, seen: set<string>)
  {
    && (r.Success? <==> ShapeEntries(es, true, c, held, depth))
    && (r.Success? ==>
          && DenoteMembers(r.value.value) == base + Fields(es, c, held, true)
          && r.value.seen == seen + MetEntries(es, true, c, held) + extra)
  }

  ghost predicate ReadsDict(
      r: Result<Out<Value>, Error>, es: seq<Entry>, decoys: seq<string>, c: Codec, held: set<string>, depth: nat, seen: set<string>)
  {
    && (r.Success? <==> ShapeEntries(es, true, c, held, depth))
    && (r.Success? ==>
          && Denote(r.value.value) == Denote(Object(PruneMembers(es, c, held, true)))
          && r.value.seen == seen + Met(Dict(es, decoys), c, held))
  }

  lemma {:induction false} UnpackDict(es: seq<Entry>, decoys: seq<string>, c: Codec, depth: nat, d: DigestMap, seen: set<string>)
    requires WellFormed(Dict(es, decoys)) && Bound(Dict(es, decoys), c, d)
    requires NoDup(Tags(Dict(es, decoys), c)) && Fresh(Tags(Dict(es, decoys), c), seen)
    ensures ReadsDict(UnpackObject(Payload(Dict(es, decoys), c).members, depth, d, seen), es, decoys, c, d.Keys, depth, seen)
    decreases es, 5
  {
    var vs, hs, ds, held := Part(es, false), Part(es, true), DecoyDigests(decoys, c), d.Keys;
    var digests := OwnDigests(es, true, c) + ds;
    UnpackSealed(es, digests, c, depth, d, seen);
    PartEntries(es, c, d);
    PartApart(es, ds, c, seen);
    UnpackVisible(es, vs, c, depth, d, seen);
    var visible := UnpackMembers(PlainMembers(vs, c), depth, d, seen);
    PartPayload(es, c);
    PartShape(es, c, held, depth);
    if visible.Success? {
      MetEntriesWithinTags(vs, true, c, held);
      FewerSeen(multiset(EntryTags(hs, true, c)) + multiset(ds), seen + Elements(EntryTags(vs, true, c)), visible.value.seen);
      FieldsOfParts(es, c, held);
      UnpackHidden(es, Sort(digests), hs, ds, visible.value.value, c, depth, d, visible.value.seen);
      JoinParts(es, ds, c, held, seen);
    }
  }

  /** What the verifier does with a signed object: its visible members, then the sorted digests. */
  lemma UnpackSealed(es: seq<Entry>, digests: seq<string>, c: Codec, depth: nat, d: DigestMap, seen: set<string>)
    requires DistinctEntries(es)
    ensures var visible := UnpackMembers(PlainMembers(es, c), depth, d, seen);
      var r := UnpackObject(Seal(VisibleMembers(es, c), digests), depth, d, seen);
      && (visible.Failure? ==> r.Failure?)
      && (visible.Success? ==>
            var rest := UnpackFromDigests(visible.value.value, Strings(Sort(digests)), depth, d, visible.value.seen);
            && (rest.Failure? ==> r.Failure?)
            && (rest.Success? ==> r == Success(Out(Object(rest.value.value), rest.value.seen))))
  {
    var plain, ds := PlainMembers(es, c), Array(Strings(Sort(digests)));
    SealedMembers(es, digests, c);
    if digests == [] {
      assert [] + plain == plain;
      FindAbsent(plain, SD_DIGESTS_KEY);
    } else {
      UnpackMembersSkipsHead(Member(SD_DIGESTS_KEY, ds), plain, depth, d, seen);
      FindHead(SD_DIGESTS_KEY, ds, plain);
    }
  }

  lemma PartEntries(es: seq<Entry>, c: Codec, d: DigestMap)
    requires DistinctEntries(es) && WellFormedEntries(es) && BoundEntries(es, true, c, d)
    ensures forall hidden :: var part := Part(es, hidden);
      && DistinctEntries(part) && WellFormedEntries(part) && BoundEntries(part, true, c, d)
      && forall i :: 0 <= i < |part| ==> part[i] in es && part[i].salt.Some? == hidden
  {
    forall hidden: bool
      ensures var part := Part(es, hidden);
        && DistinctEntries(part) && WellFormedEntries(part) && BoundEntries(part, true, c, d)
        && forall i :: 0 <= i < |part| ==> part[i] in es && part[i].salt.Some? == hidden
    {
      PartDistinct(es, hidden);
      PartInherits(es, hidden, c, d);
      PartMembers(es, hidden);
      var part := Part(es, hidden);
      assert forall i :: 0 <= i < |part| ==> part[i] in part;
    }
  }

  lemma PartApart(es: seq<Entry>, ds: seq<string>, c: Codec, seen: set<string>)
    requires NoDup(EntryTags(es, true, c) + ds) && Fresh(EntryTags(es, true, c) + ds, seen)
    ensures NoDup(EntryTags(Part(es, false), true, c)) && Fresh(EntryTags(Part(es, false), true, c), seen)
    ensures Once(multiset(EntryTags(Part(es, true), true, c)) + multiset(ds), seen + Elements(EntryTags(Part(es, false), true, c)))
  {
    var vs, hs := EntryTags(Part(es, false), true, c), EntryTags(Part(es, true), true, c);
    PartTags(es, c);
    var all := EntryTags(es, true, c) + ds;
    NoDupMultiset(all);
    assert multiset(all) == multiset(vs) + (multiset(hs) + multiset(ds));
    forall x | x in multiset(all) ensures multiset(all)[x] == 1 && x !in seen {
      assert x in all;
    }
    SplitOnce(multiset(vs), multiset(hs) + multiset(ds), seen);
    NoDupMultiset(vs);
    forall x | x in vs ensures x !in seen && x !in multiset(hs) + multiset(ds) {
      assert x in multiset(vs);
    }
  }

  lemma FewerSeen(tags: multiset<string>, seen: set<string>, fewer: set<string>)
    requires Once(tags, seen) && fewer <= seen
    ensures Once(tags, fewer)
  {
  }

  lemma FieldsOfParts(es: seq<Entry>, c: Codec, held: set<string>)
    requires DistinctEntries(es)
    ensures forall i :: 0 <= i < |Part(es, true)| ==> Part(es, true)[i].key !in map[] + Fields(Part(es, false), c, held, true)
  {
    var vs, hs := Part(es, false), Part(es, true);
    FieldsKeys(vs, c, held, true);
    PartMembers(es, false);
    PartMembers(es, true);
    forall i | 0 <= i < |hs| ensures hs[i].key !in Fields(vs, c, held, true) {
      assert hs[i] in hs;
    }
  }

  lemma JoinParts(es: seq<Entry>, ds: seq<string>, c: Codec, held: set<string>, seen: set<string>)
    requires DistinctEntries(es)
    ensures var vs, hs := Part(es, false), Part(es, true);
      && (map[] + Fields(vs, c, held, true)) + Fields(hs, c, held, true) == DenoteMembers(PruneMembers(es, c, held, true))
      && (seen + MetEntries(vs, true, c, held) + {}) + MetEntries(hs, true, c, held) + Elements(ds)
         == seen + (MetEntries(es, true, c, held) + Elements(ds))
  {
    PartFields(es, c, held);
    FieldsOfPrune(es, c, held, true);
    PartMet(es, c, held);
  }
}
