/**
 Claims with their selective-disclosure choices: every array element and object member carries the salt of its
 disclosure when it is hidden, and every object the salts of its decoys. `Payload` is what the issuer signs for
 such a tree and `Prune` what a reader may see of it.
 */
module ClaimTree {
  import opened Json
  import opened Sequences
  import opened Unpacking
  import opened Wrappers

  datatype Tree =
    | Leaf(v: Value)
    | List(entries: seq<Entry>)
    | Dict(entries: seq<Entry>, decoys: seq<string>)

  /** An array element (whose key is not used) or an object member; `salt` is present when it is hidden. */
  datatype Entry = Entry(key: string, value: Tree, salt: Option<string>)

  /**
   How a disclosure becomes text and a digest: `encode` stands for JSON printing and base64url, `hash` for
   base64url of SHA-256, `decode` for base64url and JSON parsing.
   */
  datatype Codec = Codec(encode: Value -> string, hash: string -> string, decode: string -> Option<Value>)

  // What the issuer signs

  function Payload(t: Tree, c: Codec): Value {
    match t
    case Leaf(v) => v
    case List(es) => Array(ListPayload(es, c))
    case Dict(es, decoys) => Object(Seal(VisibleMembers(es, c), OwnDigests(es, true, c) + DecoyDigests(decoys, c)))
  }

  function Placeholder(digest: string): Value {
    Object([Member(SD_LIST_PREFIX, Str(digest))])
  }

  function ListPayload(es: seq<Entry>, c: Codec): (r: seq<Value>)
    ensures |r| == |es|
  {
    if es == [] then []
    else
      var n := |es| - 1;
      ListPayload(es[..n], c)
        + [if es[n].salt.Some? then Placeholder(Digest(es[n], false, c)) else Payload(es[n].value, c)]
  }

  /** Members visible in the signed object, after the slot reserved for `_sd`. */
  function VisibleMembers(es: seq<Entry>, c: Codec): seq<Member> {
    if es == [] then [Member(SD_DIGESTS_KEY, Null)]
    else
      var n := |es| - 1;
      var r := VisibleMembers(es[..n], c);
      if es[n].salt.Some? then r else Put(r, es[n].key, Payload(es[n].value, c))
  }

  /** Fill the reserved slot with the sorted digests, or drop it when there are none. */
  function Seal(ms: seq<Member>, digests: seq<string>): seq<Member> {
    if digests == [] then Remove(ms, SD_DIGESTS_KEY)
    else Put(ms, SD_DIGESTS_KEY, Array(Strings(Sort(digests))))
  }

  function Strings(ss: seq<string>): (r: seq<Value>)
    ensures |r| == |ss|
    ensures forall i :: 0 <= i < |ss| ==> r[i] == Str(ss[i])
  {
    seq(|ss|, i requires 0 <= i < |ss| => Str(ss[i]))
  }

  /** The disclosure of a hidden entry: `[salt, key, value]` in an object, `[salt, value]` in an array. */
  function Disclosure(e: Entry, inDict: bool, c: Codec): Value
    requires e.salt.Some?
    decreases e, 0
  {
    if inDict then Array([Str(e.salt.value), Str(e.key), Payload(e.value, c)])
    else Array([Str(e.salt.value), Payload(e.value, c)])
  }

  function Raw(e: Entry, inDict: bool, c: Codec): string
    requires e.salt.Some?
    decreases e, 1
  {
    c.encode(Disclosure(e, inDict, c))
  }

  function Digest(e: Entry, inDict: bool, c: Codec): string
    requires e.salt.Some?
    decreases e, 2
  {
    c.hash(Raw(e, inDict, c))
  }

  function OwnDigests(es: seq<Entry>, inDict: bool, c: Codec): seq<string> {
    if es == [] then []
    else
      var n := |es| - 1;
      var r := OwnDigests(es[..n], inDict, c);
      if es[n].salt.Some? then r + [Digest(es[n], inDict, c)] else r
  }

  function DecoyDigests(decoys: seq<string>, c: Codec): (r: seq<string>)
    ensures |r| == |decoys|
    ensures forall i :: 0 <= i < |decoys| ==> r[i] == c.hash(decoys[i])
  {
    seq(|decoys|, i requires 0 <= i < |decoys| => c.hash(decoys[i]))
  }

  // What can be read of it

  /** Whether a hidden entry with this digest is shown to someone holding the disclosures with digests `held`. */
  predicate Shown(e: Entry, inDict: bool, c: Codec, held: set<string>) {
    e.salt.Some? ==> Digest(e, inDict, c) in held
  }

  /**
   The claims with exactly the hidden entries outside `held` removed. With `drop`, visible members called
   `_sd_alg` are removed as well, as the verifier does.
   */
  function Prune(t: Tree, c: Codec, held: set<string>, drop: bool): Value {
    match t
    case Leaf(v) => v
    case List(es) => Array(PruneItems(es, c, held, drop))
    case Dict(es, _) => Object(PruneMembers(es, c, held, drop))
  }

  function PruneItems(es: seq<Entry>, c: Codec, held: set<string>, drop: bool): seq<Value> {
    if es == [] then []
    else
      var n := |es| - 1;
      var r := PruneItems(es[..n], c, held, drop);
      if Shown(es[n], false, c, held) then r + [Prune(es[n].value, c, held, drop)] else r
  }

  predicate Dropped(e: Entry) {
    e.salt.None? && e.key == DIGEST_ALG_KEY
  }

  predicate Kept(e: Entry, c: Codec, held: set<string>, drop: bool) {
    Shown(e, true, c, held) && !(drop && Dropped(e))
  }

  function PruneMembers(es: seq<Entry>, c: Codec, held: set<string>, drop: bool): seq<Member> {
    if es == [] then []
    else
      var n := |es| - 1;
      var r := PruneMembers(es[..n], c, held, drop);
      if Kept(es[n], c, held, drop) then r + [Member(es[n].key, Prune(es[n].value, c, held, drop))] else r
  }

  /** The claims the tree was made from. */
  function Claims(t: Tree): Value {
    match t
    case Leaf(v) => v
    case List(es) => Array(ClaimItems(es))
    case Dict(es, _) => Object(ClaimMembers(es))
  }

  function ClaimItems(es: seq<Entry>): (r: seq<Value>)
    ensures |r| == |es|
  {
    if es == [] then []
    else
      var n := |es| - 1;
      ClaimItems(es[..n]) + [Claims(es[n].value)]
  }

  function ClaimMembers(es: seq<Entry>): (r: seq<Member>)
    ensures |r| == |es|
    ensures forall i :: 0 <= i < |es| ==> r[i].key == es[i].key
  {
    if es == [] then []
    else
      var n := |es| - 1;
      ClaimMembers(es[..n]) + [Member(es[n].key, Claims(es[n].value))]
  }

  // Digests and disclosures

  /** Every digest of the tree, decoys included, in the order in which the issuer computes them. */
  function Tags(t: Tree, c: Codec): seq<string> {
    match t
    case Leaf(_) => []
    case List(es) => EntryTags(es, false, c)
    case Dict(es, decoys) => EntryTags(es, true, c) + DecoyDigests(decoys, c)
  }

  function EntryTags(es: seq<Entry>, inDict: bool, c: Codec): seq<string> {
    if es == [] then []
    else
      var n := |es| - 1;
      EntryTags(es[..n], inDict, c) + TagsOf(es[n], inDict, c)
  }

  function TagsOf(e: Entry, inDict: bool, c: Codec): seq<string> {
    if e.salt.Some? then Tags(e.value, c) + [Digest(e, inDict, c)] else Tags(e.value, c)
  }

  /** A made disclosure: its text and digest. */
  datatype Issued = Issued(raw: string, hash: string)

  /** The disclosures of the tree, each after those nested in it. */
  function Issues(t: Tree, c: Codec): seq<Issued> {
    match t
    case Leaf(_) => []
    case List(es) => EntryIssues(es, false, c)
    case Dict(es, _) => EntryIssues(es, true, c)
  }

  function EntryIssues(es: seq<Entry>, inDict: bool, c: Codec): seq<Issued> {
    if es == [] then []
    else
      var n := |es| - 1;
      EntryIssues(es[..n], inDict, c) + IssuesOf(es[n], inDict, c)
  }

  function IssuesOf(e: Entry, inDict: bool, c: Codec): seq<Issued> {
    if e.salt.Some? then Issues(e.value, c) + [IssuedOf(e, inDict, c)] else Issues(e.value, c)
  }

  function IssuedOf(e: Entry, inDict: bool, c: Codec): Issued
    requires e.salt.Some?
  {
    Issued(Raw(e, inDict, c), Digest(e, inDict, c))
  }

  /** Digests of the disclosures of the tree. */
  function HiddenTags(t: Tree, c: Codec): set<string> {
    match t
    case Leaf(_) => {}
    case List(es) => EntryHiddenTags(es, false, c)
    case Dict(es, _) => EntryHiddenTags(es, true, c)
  }

  function EntryHiddenTags(es: seq<Entry>, inDict: bool, c: Codec): set<string> {
    if es == [] then {}
    else
      var n := |es| - 1;
      var r := EntryHiddenTags(es[..n], inDict, c) + HiddenTags(es[n].value, c);
      if es[n].salt.Some? then r + {Digest(es[n], inDict, c)} else r
  }

  /** A tree over JSON: scalar leaves, distinct member names, none of them reserved. */
  ghost predicate WellFormed(t: Tree) {
    match t
    case Leaf(v) => IsScalar(v)
    case List(es) => WellFormedEntries(es)
    case Dict(es, _) => DistinctEntries(es) && WellFormedEntries(es)
  }

  ghost predicate WellFormedEntries(es: seq<Entry>) {
    es == [] || (var n := |es| - 1; WellFormedEntries(es[..n]) && WellFormed(es[n].value))
  }

  ghost predicate DistinctEntries(es: seq<Entry>) {
    && (forall i :: 0 <= i < |es| ==> es[i].key != SD_DIGESTS_KEY && es[i].key != SD_LIST_PREFIX)
    && (forall i, j :: 0 <= i < j < |es| ==> es[i].key != es[j].key)
  }

  /** The map binds the digests of this tree, if at all, to their disclosures; decoys are bound to nothing. */
  ghost predicate Bound(t: Tree, c: Codec, disclosed: DigestMap) {
    match t
    case Leaf(_) => true
    case List(es) => BoundEntries(es, false, c, disclosed)
    case Dict(es, decoys) =>
      BoundEntries(es, true, c, disclosed) && forall d :: d in DecoyDigests(decoys, c) ==> d !in disclosed
  }

  ghost predicate BoundEntries(es: seq<Entry>, inDict: bool, c: Codec, disclosed: DigestMap) {
    es == [] ||
    (var n := |es| - 1;
     BoundEntries(es[..n], inDict, c, disclosed) && Bound(es[n].value, c, disclosed) && BoundEntry(es[n], inDict, c, disclosed))
  }

  ghost predicate BoundEntry(e: Entry, inDict: bool, c: Codec, disclosed: DigestMap) {
    e.salt.Some? && Digest(e, inDict, c) in disclosed ==> disclosed[Digest(e, inDict, c)] == Disclosure(e, inDict, c)
  }

  // What the verifier meets

  /** Entries the verifier unpacks: shown, and not a visible `_sd_alg` member. */
  predicate Reached(e: Entry, inDict: bool, c: Codec, held: set<string>) {
    if inDict then Kept(e, c, held, true) else Shown(e, false, c, held)
  }

  /** Digests met on the way: those of reached containers and, below them, of reached entries. */
  ghost function Met(t: Tree, c: Codec, held: set<string>): set<string> {
    match t
    case Leaf(_) => {}
    case List(es) => MetEntries(es, false, c, held)
    case Dict(es, decoys) => MetEntries(es, true, c, held) + Elements(DecoyDigests(decoys, c))
  }

  ghost function MetEntries(es: seq<Entry>, inDict: bool, c: Codec, held: set<string>): set<string> {
    if es == [] then {}
    else
      var n := |es| - 1;
      MetEntries(es[..n], inDict, c, held) + MetEntry(es[n], inDict, c, held)
  }

  ghost function MetEntry(e: Entry, inDict: bool, c: Codec, held: set<string>): set<string> {
    (if e.salt.Some? then {Digest(e, inDict, c)} else {})
      + (if Reached(e, inDict, c, held) then Met(e.value, c, held) else {})
  }

  /** Every reached array has an element and every reached container lies within the depth limit. */
  ghost predicate Shape(t: Tree, c: Codec, held: set<string>, depth: nat) {
    match t
    case Leaf(_) => true
    case List(es) => depth < MAX_PROCESSED_SD_JWT_DEPTH && es != [] && ShapeEntries(es, false, c, held, depth + 1)
    case Dict(es, _) => depth < MAX_PROCESSED_SD_JWT_DEPTH && ShapeEntries(es, true, c, held, depth + 1)
  }

  ghost predicate ShapeEntries(es: seq<Entry>, inDict: bool, c: Codec, held: set<string>, depth: nat) {
    es == [] ||
    (var n := |es| - 1;
     ShapeEntries(es[..n], inDict, c, held, depth) && (Reached(es[n], inDict, c, held) ==> Shape(es[n].value, c, held, depth)))
  }

  /** No shown object has a visible member called `_sd_alg`. */
  ghost predicate AlgFree(t: Tree, c: Codec, held: set<string>) {
    match t
    case Leaf(_) => true
    case List(es) => AlgFreeEntries(es, false, c, held)
    case Dict(es, _) => AlgFreeEntries(es, true, c, held)
  }

  ghost predicate AlgFreeEntries(es: seq<Entry>, inDict: bool, c: Codec, held: set<string>) {
    es == [] ||
    (var n := |es| - 1;
     AlgFreeEntries(es[..n], inDict, c, held)
     && (Shown(es[n], inDict, c, held) ==> !(inDict && Dropped(es[n])) && AlgFree(es[n].value, c, held)))
  }
}
