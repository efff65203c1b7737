/** JSON values as serde_json keeps them with `preserve_order`: an object is a sequence of members. */
module Json {
  import opened Wrappers

  datatype Value =
    | Null
    | Bool(b: bool)
    | Number(text: string)
    | Str(s: string)
    | Array(items: seq<Value>)
    | Object(members: seq<Member>)

  datatype Member = Member(key: string, value: Value)

  const SD_DIGESTS_KEY := "_sd"
  const SD_LIST_PREFIX := "..."
  const DIGEST_ALG_KEY := "_sd_alg"

  predicate IsScalar(v: Value) {
    !v.Array? && !v.Object?
  }

  predicate HasKey(ms: seq<Member>, key: string) {
    exists i :: 0 <= i < |ms| && ms[i].key == key
  }

  predicate DistinctKeys(ms: seq<Member>) {
    forall i, j :: 0 <= i < j < |ms| ==> ms[i].key != ms[j].key
  }

  /** `Map::get`. */
  function Find(ms: seq<Member>, key: string): (r: Option<Value>)
    ensures r.Some? <==> HasKey(ms, key)
    ensures r.Some? ==> Member(key, r.value) in ms
  {
    if ms == [] then None
    else
      var n := |ms| - 1;
      if ms[n].key == key then Some(ms[n].value) else Find(ms[..n], key)
  }

  /** `Map::insert`: an existing key keeps its position, a new one goes last. */
  function Put(ms: seq<Member>, key: string, v: Value): seq<Member> {
    if HasKey(ms, key) then Replace(ms, key, v) else ms + [Member(key, v)]
  }

  function Replace(ms: seq<Member>, key: string, v: Value): (r: seq<Member>)
    ensures |r| == |ms|
    ensures forall i :: 0 <= i < |ms| ==> r[i] == if ms[i].key == key then Member(key, v) else ms[i]
  {
    seq(|ms|, i requires 0 <= i < |ms| => if ms[i].key == key then Member(key, v) else ms[i])
  }

  /** `Map::shift_remove`: the other members keep their order. */
  function Remove(ms: seq<Member>, key: string): seq<Member> {
    if ms == [] then []
    else
      var n := |ms| - 1;
      var r := Remove(ms[..n], key);
      if ms[n].key == key then r else r + [ms[n]]
  }

  /** What a value means once member order is forgotten; serde_json compares maps this way. */
  datatype Meaning = Atom(v: Value) | Listing(items: seq<Meaning>) | Record(fields: map<string, Meaning>)

  function Denote(v: Value): Meaning {
    match v
    case Array(items) => Listing(DenoteItems(items))
    case Object(members) => Record(DenoteMembers(members))
    case _ => Atom(v)
  }

  function DenoteItems(items: seq<Value>): seq<Meaning> {
    if items == [] then []
    else
      var n := |items| - 1;
      DenoteItems(items[..n]) + [Denote(items[n])]
  }

  function DenoteMembers(ms: seq<Member>): map<string, Meaning> {
    if ms == [] then map[]
    else
      var n := |ms| - 1;
      DenoteMembers(ms[..n])[ms[n].key := Denote(ms[n].value)]
  }

  /** Nesting depth: scalars are 0, a container one more than its deepest child. */
  function Nesting(v: Value): nat {
    match v
    case Array(items) => 1 + NestingItems(items)
    case Object(members) => 1 + NestingMembers(members)
    case _ => 0
  }

  function NestingItems(items: seq<Value>): nat {
    if items == [] then 0
    else
      var n := |items| - 1;
      Max(NestingItems(items[..n]), Nesting(items[n]))
  }

  function NestingMembers(ms: seq<Member>): nat {
    if ms == [] then 0
    else
      var n := |ms| - 1;
      Max(NestingMembers(ms[..n]), Nesting(ms[n].value))
  }

  function Max(a: nat, b: nat): nat {
    if a < b then b else a
  }

  lemma {:induction false} MeaningKeys(ms: seq<Member>, k: string)
    ensures k in DenoteMembers(ms) <==> HasKey(ms, k)
  {
    if ms != [] {
      var n := |ms| - 1;
      MeaningKeys(ms[..n], k);
      if HasKey(ms[..n], k) {
        var i :| 0 <= i < n && ms[..n][i].key == k;
        assert ms[i].key == k;
      }
      if HasKey(ms, k) && ms[n].key != k {
        var i :| 0 <= i < |ms| && ms[i].key == k;
        assert ms[..n][i].key == k;
      }
    }
  }

  lemma {:induction false} MeaningOfMember(ms: seq<Member>, i: nat)
    requires DistinctKeys(ms) && i < |ms|
    ensures ms[i].key in DenoteMembers(ms) && DenoteMembers(ms)[ms[i].key] == Denote(ms[i].value)
  {
    var n := |ms| - 1;
    if i < n {
      MeaningOfMember(ms[..n], i);
    }
  }

  /** Reordering the members of an object does not change its meaning. */
  lemma MeaningIgnoresOrder(a: seq<Member>, b: seq<Member>)
    requires DistinctKeys(a) && DistinctKeys(b) && (forall m :: m in a <==> m in b)
    ensures Denote(Object(a)) == Denote(Object(b))
  {
    var ma, mb := DenoteMembers(a), DenoteMembers(b);
    forall k
      ensures k in ma <==> k in mb
      ensures k in ma ==> ma[k] == mb[k]
    {
      MeaningKeys(a, k);
      MeaningKeys(b, k);
      if HasKey(a, k) {
        var i :| 0 <= i < |a| && a[i].key == k;
        assert a[i] in b;
        var j :| 0 <= j < |b| && b[j] == a[i];
        MeaningOfMember(a, i);
        MeaningOfMember(b, j);
        assert b[j].key == k;
      }
      if HasKey(b, k) {
        var j :| 0 <= j < |b| && b[j].key == k;
        assert b[j] in a;
        var i :| 0 <= i < |a| && a[i] == b[j];
        assert a[i].key == k;
      }
    }
    assert ma == mb;
  }
}
