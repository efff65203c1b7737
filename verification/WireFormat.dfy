/**
 What a signed object or array looks like in RFC 9901, with the names and orders that a reader relies on:
 the sorted list of digests under `_sd`, the digests of a hidden member and a hidden element, and decoys among them.
 */
module WireFormat {
  import opened Choosing
  import opened ClaimTree
  import opened Json
  import opened Sequences
  import opened Wrappers

  /** The digest is that of this hidden member: of its salt, its name and its signed value. */
  ghost predicate MemberDigest(e: Entry, digest: string, c: Codec) {
    e.salt.Some? && digest == c.hash(c.encode(Array([Str(e.salt.value), Str(e.key), Payload(e.value, c)])))
  }

  ghost predicate OfMember(es: seq<Entry>, digest: string, c: Codec) {
    exists e :: e in es && MemberDigest(e, digest, c)
  }

  ghost predicate OfDecoy(decoys: seq<string>, digest: string, c: Codec) {
    exists salt :: salt in decoys && digest == c.hash(salt)
  }

  function HiddenCount(es: seq<Entry>): nat {
    if es == [] then 0
    else HiddenCount(es[..|es| - 1]) + if es[|es| - 1].salt.Some? then 1 else 0
  }

  lemma {:induction false} OwnDigestsAre(es: seq<Entry>, c: Codec)
    ensures |OwnDigests(es, true, c)| == HiddenCount(es)
    ensures forall x :: x in OwnDigests(es, true, c) <==> OfMember(es, x, c)
  {
    if es != [] {
      var n := |es| - 1;
      OwnDigestsAre(es[..n], c);
      assert forall e :: e in es <==> e in es[..n] || e == es[n];
      var r := OwnDigests(es, true, c);
      forall x ensures MemberDigest(es[n], x, c) <==> es[n].salt.Some? && x == Digest(es[n], true, c) {
        DigestInFull(es[n], c);
      }
      forall x ensures x in r <==> OfMember(es, x, c) {
        assert x in r <==> x in OwnDigests(es[..n], true, c) || MemberDigest(es[n], x, c);
      }
    }
  }

  lemma DigestInFull(e: Entry, c: Codec)
    ensures e.salt.Some? ==>
      && Digest(e, true, c) == c.hash(c.encode(Array([Str(e.salt.value), Str(e.key), Payload(e.value, c)])))
      && Digest(e, false, c) == c.hash(c.encode(Array([Str(e.salt.value), Payload(e.value, c)])))
  {
    if e.salt.Some? {
      assert Disclosure(e, true, c) == Array([Str(e.salt.value), Str(e.key), Payload(e.value, c)]);
      assert Disclosure(e, false, c) == Array([Str(e.salt.value), Payload(e.value, c)]);
      assert Raw(e, true, c) == c.encode(Disclosure(e, true, c)) && Raw(e, false, c) == c.encode(Disclosure(e, false, c));
    }
  }

  lemma DecoyDigestsAre(decoys: seq<string>, c: Codec)
    ensures forall x :: x in DecoyDigests(decoys, c) <==> OfDecoy(decoys, x, c)
  {
    forall x ensures x in DecoyDigests(decoys, c) <==> OfDecoy(decoys, x, c) {
      if x in DecoyDigests(decoys, c) {
        var i :| 0 <= i < |decoys| && DecoyDigests(decoys, c)[i] == x;
        assert decoys[i] in decoys;
      }
      if OfDecoy(decoys, x, c) {
        var salt :| salt in decoys && x == c.hash(salt);
        var i :| 0 <= i < |decoys| && decoys[i] == salt;
        assert DecoyDigests(decoys, c)[i] == x;
      }
    }
  }

  /** A list of digests in ascending order, one for each hidden member and each decoy. */
  ghost predicate DigestList(v: Option<Value>, es: seq<Entry>, decoys: seq<string>, digests: seq<string>, c: Codec) {
    && v == Some(Array(Strings(digests))) && Sorted(digests) && |digests| == HiddenCount(es) + |decoys|
    && forall x :: x in digests <==> OfMember(es, x, c) || OfDecoy(decoys, x, c)
  }

  /** A member as it is, if it is there and not hidden. */
  function AsItIs(e: Option<Entry>, c: Codec): Option<Value> {
    if e.Some? && e.value.salt.None? then Some(Payload(e.value.value, c)) else None
  }

  /** A signed object has its visible members as they are and, if anything is hidden or a decoy added, a digest list. */
  lemma ObjectFormat(es: seq<Entry>, decoys: seq<string>, c: Codec)
    requires DistinctEntries(es)
    ensures var v := Payload(Dict(es, decoys), c);
      && v.Object?
      && (forall k :: k != "_sd" ==> Find(v.members, k) == AsItIs(Named(es, k), c))
      && (HasKey(v.members, "_sd") <==> HiddenCount(es) + |decoys| > 0)
      && (HasKey(v.members, "_sd") ==> exists digests :: DigestList(Find(v.members, "_sd"), es, decoys, digests, c))
  {
    var ms := Payload(Dict(es, decoys), c).members;
    ShowsItself(Dict(es, decoys), c);
    forall k ensures Find(ms, k) == Lookup(es, decoys, false, k, c) {
      LookupShown(ms, es, decoys, false, k, c);
    }
    SortedDigests(es, decoys, c);
    if AllDigests(es, decoys, c) != [] {
      assert DigestList(Find(ms, "_sd"), es, decoys, Sort(AllDigests(es, decoys, c)), c);
    }
  }

  lemma SortedDigests(es: seq<Entry>, decoys: seq<string>, c: Codec)
    ensures var all := AllDigests(es, decoys, c);
      && |all| == HiddenCount(es) + |decoys|
      && DigestList(Some(Array(Strings(Sort(all)))), es, decoys, Sort(all), c)
  {
    var all := AllDigests(es, decoys, c);
    OwnDigestsAre(es, c);
    DecoyDigestsAre(decoys, c);
    SortSorted(all);
    assert forall x :: x in Sort(all) <==> x in multiset(Sort(all));
    assert forall x :: x in all <==> x in multiset(all);
  }

  /** A signed array has its visible elements as they are, and a stand-in with its digest for each hidden one. */
  lemma ArrayFormat(es: seq<Entry>, i: nat, c: Codec)
    requires i < |es|
    ensures var v, e := Payload(List(es), c), es[i];
      && v.Array? && |v.items| == |es|
      && v.items[i] ==
         if e.salt.None? then Payload(e.value, c)
         else Object([Member("...", Str(c.hash(c.encode(Array([Str(e.salt.value), Payload(e.value, c)])))))])
  {
    ListPayloadAt(es, i, c);
    DigestInFull(es[i], c);
  }
}
