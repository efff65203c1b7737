/**
 Claims written with `!sd` tags: the paths generated from them, the claims left when the tags are removed, and that an
 issuer given both hides exactly the tagged nodes.
 */
module TaggedClaims {
  import opened Choosing
  import opened ClaimTree
  import opened Json
  import opened JsonFacts
  import opened PathStrategy
  import opened Plan
  import opened Registry
  import opened Strategy
  import opened Wrappers

  datatype Yaml =
    | Scalar(v: Value)
    | Sequence(items: seq<Yaml>)
    | Mapping(entries: seq<YamlEntry>)
    | Tagged(inner: Yaml)

  /** A mapping's key: text, tagged text, or null, which is passed over. */
  datatype YamlKey = Text(name: string) | SdText(name: string) | NullKey

  datatype YamlEntry = YamlEntry(key: YamlKey, value: Yaml)

  // The generator

  /** The paths pushed for a value, in order. */
  function Paths(y: Yaml, path: string): seq<string>
    decreases y, 1
  {
    match y
    case Mapping(entries) => EntryPaths(entries, path)
    case Sequence(items) => ItemPaths(items, path)
    case Tagged(inner) => [path] + if inner.Mapping? || inner.Sequence? then Paths(inner, path) else []
    case Scalar(_) => []
  }

  function EntryPaths(entries: seq<YamlEntry>, path: string): seq<string>
    decreases entries, 0
  {
    if entries == [] then []
    else
      var n := |entries| - 1;
      EntryPaths(entries[..n], path) + PathsOf(entries[n], path)
  }

  function PathsOf(e: YamlEntry, path: string): seq<string>
    decreases e, 2
  {
    match e.key
    case Text(name) => Paths(e.value, path + "." + name)
    case SdText(name) => [path + "." + name] + Paths(e.value, path + "." + name)
    case NullKey => []
  }

  function ItemPaths(items: seq<Yaml>, path: string): seq<string>
    decreases items, 0
  {
    if items == [] then []
    else
      var n := |items| - 1;
      ItemPaths(items[..n], path) + Paths(items[n], path + ".[" + Decimal(n) + "]")
  }

  class PathList {
    var paths: seq<string>

    constructor ()
      ensures paths == []
    {
      paths := [];
    }

    /** `generate_jsonpath_from_tagged_values`. */
    method Generate(yaml: Yaml, start: string)
      modifies this
      ensures paths == old(paths) + Paths(yaml, if start == "" then "$" else start)
      decreases yaml, 1
    {
      var path := if start == "" then "$" else start;
      match yaml
      case Mapping(entries) => GenerateFromMapping(entries, path);
      case Sequence(items) => GenerateFromSequence(items, path);
      case Tagged(inner) =>
        paths := paths + [path];
        if inner.Mapping? || inner.Sequence? {
          Generate(inner, path);
        }
      case Scalar(_) =>
    }

    method GenerateFromMapping(entries: seq<YamlEntry>, path: string)
      requires path != ""
      modifies this
      ensures paths == old(paths) + EntryPaths(entries, path)
      decreases entries, 0
    {
      for i := 0 to |entries|
        invariant paths == old(paths) + EntryPaths(entries[..i], path)
      {
        assert entries[..i + 1][..i] == entries[..i];
        GenerateFromEntry(entries[i], path);
      }
      assert entries[..|entries|] == entries;
    }

    method GenerateFromEntry(entry: YamlEntry, path: string)
      requires path != ""
      modifies this
      ensures paths == old(paths) + PathsOf(entry, path)
      decreases entry, 2
    {
      match entry.key
      case SdText(name) =>
        paths := paths + [path + "." + name];
        Generate(entry.value, path + "." + name);
      case Text(name) => Generate(entry.value, path + "." + name);
      case NullKey =>
    }

    method GenerateFromSequence(items: seq<Yaml>, path: string)
      requires path != ""
      modifies this
      ensures paths == old(paths) + ItemPaths(items, path)
      decreases items, 0
    {
      for idx := 0 to |items|
        invariant paths == old(paths) + ItemPaths(items[..idx], path)
      {
        assert items[..idx + 1][..idx] == items[..idx];
        Generate(items[idx], path + ".[" + Decimal(idx) + "]");
      }
      assert items[..|items|] == items;
    }
  }

  // Removing tags

  /** `_remove_tags`. */
  function RemoveTags(y: Yaml): Value
    decreases y, 1
  {
    match y
    case Tagged(inner) => RemoveTags(inner)
    case Mapping(entries) => Object(RemoveEntryTags(entries))
    case Sequence(items) => Array(RemoveItemTags(items))
    case Scalar(v) => v
  }

  function RemoveEntryTags(entries: seq<YamlEntry>): seq<Member>
    decreases entries, 0
  {
    if entries == [] then []
    else
      var n := |entries| - 1;
      InsertUntagged(RemoveEntryTags(entries[..n]), entries[n])
  }

  function InsertUntagged(ms: seq<Member>, e: YamlEntry): seq<Member>
    decreases e, 2
  {
    if e.key.NullKey? then ms else Put(ms, e.key.name, RemoveTags(e.value))
  }

  function RemoveItemTags(items: seq<Yaml>): (r: seq<Value>)
    ensures |r| == |items|
    decreases items, 0
  {
    if items == [] then []
    else
      var n := |items| - 1;
      RemoveItemTags(items[..n]) + [RemoveTags(items[n])]
  }

  // Tagged nodes

  /** The node at the path carries a tag, on its value or on its name. */
  ghost predicate TaggedAt(y: Yaml, path: seq<Segment>)
    decreases y, 3
  {
    if path == [] then y.Tagged?
    else
      match y
      case Tagged(inner) => (inner.Mapping? || inner.Sequence?) && TaggedAt(inner, path)
      case Mapping(entries) => path[0].Key? && EntryTaggedAt(entries, path[0].name, path[1..])
      case Sequence(items) => path[0].Index? && path[0].index < |items| && TaggedAt(items[path[0].index], path[1..])
      case Scalar(_) => false
  }

  ghost predicate EntryTaggedAt(entries: seq<YamlEntry>, name: string, rest: seq<Segment>)
    decreases entries, 2
  {
    entries != [] &&
    (var n := |entries| - 1;
     EntryTaggedAt(entries[..n], name, rest) || OneTaggedAt(entries[n], name, rest))
  }

  ghost predicate OneTaggedAt(e: YamlEntry, name: string, rest: seq<Segment>)
    decreases e, 4
  {
    !e.key.NullKey? && e.key.name == name && ((rest == [] && e.key.SdText?) || TaggedAt(e.value, rest))
  }

  /** Names are non-empty and free of `.` and `[`, no two agree once tags are removed, and no tag is on a tag. */
  ghost predicate Plainly(y: Yaml)
    decreases y, 1
  {
    match y
    case Scalar(v) => IsScalar(v)
    case Sequence(items) => PlainlyItems(items)
    case Mapping(entries) => PlainlyEntries(entries)
    case Tagged(inner) => !inner.Tagged? && Plainly(inner)
  }

  ghost predicate PlainlyItems(items: seq<Yaml>)
    decreases items, 0
  {
    items == [] || (var n := |items| - 1; PlainlyItems(items[..n]) && Plainly(items[n]))
  }

  ghost predicate PlainlyEntries(entries: seq<YamlEntry>)
    decreases entries, 0
  {
    entries == [] ||
    (var n := |entries| - 1;
     && PlainlyEntries(entries[..n])
     && PlainlyEntry(entries[n])
     && forall i :: 0 <= i < n ==> NameOf(entries[i]) != NameOf(entries[n]))
  }

  ghost predicate PlainlyEntry(e: YamlEntry)
    decreases e, 2
  {
    !e.key.NullKey? && GoodName(e.key.name) && Plainly(e.value)
  }

  ghost function NameOf(e: YamlEntry): string {
    if e.key.NullKey? then "" else e.key.name
  }

  // Generated paths are those of the tagged nodes

  /** A path with a dot before every segment. */
  function Dotted(path: seq<Segment>): string {
    if path == [] then "" else "." + KeyOf(path[0]) + Dotted(path[1..])
  }

  ghost predicate Generated(y: Yaml, start: string, p: string) {
    exists path :: TaggedAt(y, path) && p == start + Dotted(path)
  }

  lemma {:induction false} GenerateTagged(y: Yaml, start: string, p: string)
    requires Plainly(y)
    ensures p in Paths(y, start) <==> Generated(y, start, p)
    decreases y, 1
  {
    match y
    case Scalar(_) =>
      assert forall path :: !TaggedAt(y, path);
    case Tagged(inner) =>
      if inner.Mapping? || inner.Sequence? {
        GenerateTagged(inner, start, p);
      }
      TagItself(y, start, p);
    case Mapping(entries) =>
      GenerateEntries(entries, start, p);
      MappingStep(entries, start, p);
    case Sequence(items) =>
      GenerateItems(items, start, p);
      SequenceStep(items, start, p);
  }

  lemma TagItself(y: Yaml, start: string, p: string)
    requires y.Tagged? && !y.inner.Tagged?
    ensures Generated(y, start, p) <==> p == start || ((y.inner.Mapping? || y.inner.Sequence?) && Generated(y.inner, start, p))
  {
    assert start + Dotted([]) == start;
    if p == start {
      assert TaggedAt(y, []);
    }
    if Generated(y.inner, start, p) && (y.inner.Mapping? || y.inner.Sequence?) {
      var path: seq<Segment> :| TaggedAt(y.inner, path) && p == start + Dotted(path);
      assert path != [];
      assert TaggedAt(y, path);
    }
    if Generated(y, start, p) && p != start {
      var path: seq<Segment> :| TaggedAt(y, path) && p == start + Dotted(path);
      assert path != [];
      assert TaggedAt(y.inner, path);
    }
  }

  ghost predicate EntryGenerated(entries: seq<YamlEntry>, start: string, p: string) {
    exists name, rest :: EntryTaggedAt(entries, name, rest) && p == start + "." + name + Dotted(rest)
  }

  lemma MappingStep(entries: seq<YamlEntry>, start: string, p: string)
    ensures Generated(Mapping(entries), start, p) <==> EntryGenerated(entries, start, p)
  {
    if Generated(Mapping(entries), start, p) {
      var path: seq<Segment> :| TaggedAt(Mapping(entries), path) && p == start + Dotted(path);
      DottedFirst(start, path);
      assert EntryTaggedAt(entries, path[0].name, path[1..]);
    }
    if EntryGenerated(entries, start, p) {
      var name: string, rest: seq<Segment> :| EntryTaggedAt(entries, name, rest) && p == start + "." + name + Dotted(rest);
      OutOfEntry(entries, start, name, rest);
    }
  }

  lemma OutOfEntry(entries: seq<YamlEntry>, start: string, name: string, rest: seq<Segment>)
    requires EntryTaggedAt(entries, name, rest)
    ensures Generated(Mapping(entries), start, start + "." + name + Dotted(rest))
  {
    var path := [Key(name)] + rest;
    assert path[1..] == rest;
    DottedFirst(start, path);
    assert TaggedAt(Mapping(entries), path);
  }

  ghost predicate OneGenerated(e: YamlEntry, start: string, p: string) {
    exists rest :: OneTaggedAt(e, NameOf(e), rest) && p == start + "." + NameOf(e) + Dotted(rest)
  }

  lemma {:induction false} GenerateEntries(entries: seq<YamlEntry>, start: string, p: string)
    requires PlainlyEntries(entries)
    ensures p in EntryPaths(entries, start) <==> EntryGenerated(entries, start, p)
    decreases entries, 0
  {
    if entries == [] {
      assert !EntryGenerated(entries, start, p);
    } else {
      var n := |entries| - 1;
      GenerateEntries(entries[..n], start, p);
      GenerateEntry(entries[n], start, p);
      EntriesStep(entries, start, p);
    }
  }

  lemma EntriesStep(entries: seq<YamlEntry>, start: string, p: string)
    requires entries != [] && !entries[|entries| - 1].key.NullKey?
    ensures var n := |entries| - 1;
      EntryGenerated(entries, start, p) <==> EntryGenerated(entries[..n], start, p) || OneGenerated(entries[n], start, p)
  {
    var n := |entries| - 1;
    if EntryGenerated(entries[..n], start, p) {
      var name: string, rest: seq<Segment> :| EntryTaggedAt(entries[..n], name, rest) && p == start + "." + name + Dotted(rest);
      assert EntryTaggedAt(entries, name, rest);
    }
    if OneGenerated(entries[n], start, p) {
      var rest: seq<Segment> :| OneTaggedAt(entries[n], NameOf(entries[n]), rest) && p == start + "." + NameOf(entries[n]) + Dotted(rest);
      assert EntryTaggedAt(entries, NameOf(entries[n]), rest);
    }
    if EntryGenerated(entries, start, p) {
      var name: string, rest: seq<Segment> :| EntryTaggedAt(entries, name, rest) && p == start + "." + name + Dotted(rest);
      if !EntryTaggedAt(entries[..n], name, rest) {
        assert OneTaggedAt(entries[n], name, rest) && name == NameOf(entries[n]);
      }
    }
  }

  lemma {:induction false} GenerateEntry(e: YamlEntry, start: string, p: string)
    requires !e.key.NullKey? && Plainly(e.value)
    ensures p in PathsOf(e, start) <==> OneGenerated(e, start, p)
    decreases e, 2
  {
    var sub := start + "." + e.key.name;
    GenerateTagged(e.value, sub, p);
    assert sub + Dotted([]) == sub;
    if Generated(e.value, sub, p) {
      var path: seq<Segment> :| TaggedAt(e.value, path) && p == sub + Dotted(path);
      assert OneTaggedAt(e, NameOf(e), path);
    }
    if e.key.SdText? && p == sub {
      assert OneTaggedAt(e, NameOf(e), []);
    }
    if OneGenerated(e, start, p) {
      var rest: seq<Segment> :| OneTaggedAt(e, NameOf(e), rest) && p == sub + Dotted(rest);
      assert (rest == [] && e.key.SdText?) || TaggedAt(e.value, rest);
    }
  }

  ghost predicate ItemGenerated(items: seq<Yaml>, start: string, p: string) {
    exists i :: 0 <= i < |items| && Generated(items[i], start + "." + IndexKey(i), p)
  }

  lemma SequenceStep(items: seq<Yaml>, start: string, p: string)
    ensures Generated(Sequence(items), start, p) <==> ItemGenerated(items, start, p)
  {
    if Generated(Sequence(items), start, p) {
      var path: seq<Segment> :| TaggedAt(Sequence(items), path) && p == start + Dotted(path);
      IntoItem(items, start, p, path);
    }
    if ItemGenerated(items, start, p) {
      var i :| 0 <= i < |items| && Generated(items[i], start + "." + IndexKey(i), p);
      OutOfItem(items, start, p, i);
    }
  }

  lemma IntoItem(items: seq<Yaml>, start: string, p: string, path: seq<Segment>)
    requires TaggedAt(Sequence(items), path) && p == start + Dotted(path)
    ensures ItemGenerated(items, start, p)
  {
    var i := path[0].index;
    DottedFirst(start, path);
    assert TaggedAt(items[i], path[1..]);
    assert Generated(items[i], start + "." + IndexKey(i), p);
  }

  lemma OutOfItem(items: seq<Yaml>, start: string, p: string, i: nat)
    requires i < |items| && Generated(items[i], start + "." + IndexKey(i), p)
    ensures Generated(Sequence(items), start, p)
  {
    var rest: seq<Segment> :| TaggedAt(items[i], rest) && p == start + "." + IndexKey(i) + Dotted(rest);
    var path := [Index(i)] + rest;
    assert path[1..] == rest;
    DottedFirst(start, path);
    assert TaggedAt(Sequence(items), path);
  }

  lemma DottedFirst(start: string, path: seq<Segment>)
    requires path != []
    ensures start + Dotted(path) == start + "." + KeyOf(path[0]) + Dotted(path[1..])
  {
    Associate(start, ".", KeyOf(path[0]), Dotted(path[1..]));
  }

  lemma Associate(a: string, b: string, c: string, d: string)
    ensures a + (b + c + d) == a + b + c + d
  {
  }

  lemma {:induction false} GenerateItems(items: seq<Yaml>, start: string, p: string)
    requires PlainlyItems(items)
    ensures p in ItemPaths(items, start) <==> ItemGenerated(items, start, p)
    decreases items, 0
  {
    if items != [] {
      var n := |items| - 1;
      GenerateItems(items[..n], start, p);
      GenerateTagged(items[n], start + "." + IndexKey(n), p);
      assert start + ".[" + Decimal(n) + "]" == start + "." + IndexKey(n);
      ItemsStep(items, start, p);
    }
  }

  lemma ItemsStep(items: seq<Yaml>, start: string, p: string)
    requires items != []
    ensures var n := |items| - 1;
      ItemGenerated(items, start, p) <==> ItemGenerated(items[..n], start, p) || Generated(items[n], start + "." + IndexKey(n), p)
  {
    var n := |items| - 1;
    if ItemGenerated(items[..n], start, p) {
      var i :| 0 <= i < n && Generated(items[..n][i], start + "." + IndexKey(i), p);
      assert Generated(items[i], start + "." + IndexKey(i), p);
    }
    if ItemGenerated(items, start, p) {
      var i :| 0 <= i < |items| && Generated(items[i], start + "." + IndexKey(i), p);
      assert i < n ==> Generated(items[..n][i], start + "." + IndexKey(i), p);
    }
  }

  // Nodes of the untagged claims

  predicate NodeIn(v: Value, path: seq<Segment>)
    decreases |path|
  {
    path == [] ||
    match (v, path[0])
    case (Object(ms), Key(name)) => Find(ms, name).Some? && NodeIn(Find(ms, name).value, path[1..])
    case (Array(items), Index(index)) => index < |items| && NodeIn(items[index], path[1..])
    case _ => false
  }

  lemma {:induction false} FindClaim(es: seq<Entry>, name: string)
    ensures Find(ClaimMembers(es), name) == match Named(es, name) case Some(e) => Some(Claims(e.value)) case None => None
  {
    if es != [] {
      var n := |es| - 1;
      FindClaim(es[..n], name);
      assert ClaimMembers(es)[..n] == ClaimMembers(es[..n]);
    }
  }

  lemma {:induction false} ClaimItemAt(es: seq<Entry>, i: nat)
    requires i < |es|
    ensures ClaimItems(es)[i] == Claims(es[i].value)
  {
    if i < |es| - 1 {
      ClaimItemAt(es[..|es| - 1], i);
    }
  }

  /** A step down the claims. */
  function ChildValue(v: Value, seg: Segment): Option<Value> {
    match (v, seg)
    case (Object(ms), Key(name)) => Find(ms, name)
    case (Array(items), Index(index)) => if index < |items| then Some(items[index]) else None
    case _ => None
  }

  lemma NodeBelow(v: Value, path: seq<Segment>)
    requires path != []
    ensures NodeIn(v, path) <==> ChildValue(v, path[0]).Some? && NodeIn(ChildValue(v, path[0]).value, path[1..])
  {
  }

  lemma ChildOfClaims(t: Tree, s: Strategy, seg: Segment)
    requires Chosen(t, s)
    ensures ChildValue(Claims(t), seg) ==
      match Child(t, seg) case Some(e) => Some(Claims(e.value)) case None => None
  {
    match (t, seg)
    case (Dict(es, _), Key(name)) => FindClaim(es, name);
    case (List(es), Index(index)) =>
      if index < |es| {
        ClaimItemAt(es, index);
      }
    case _ =>
  }

  /** The tree has a node exactly where its claims have one. */
  lemma {:induction false} NodesOfClaims(t: Tree, s: Strategy, path: seq<Segment>)
    requires path != [] && Chosen(t, s)
    ensures NodeAt(t, path) <==> NodeIn(Claims(t), path)
    decreases |path|
  {
    ChildOfClaims(t, s, path[0]);
    NodeBelow(Claims(t), path);
    var e := Child(t, path[0]);
    if e.Some? && |path| > 1 {
      ChildChosen(t, s, path[0]);
      NodesOfClaims(e.value.value, NextLevel(s, KeyOf(path[0])), path[1..]);
    }
  }

  /** Names of the untagged claims are those of the tagged ones. */
  lemma {:induction false} UntaggedMember(entries: seq<YamlEntry>, name: string)
    requires PlainlyEntries(entries)
    ensures var v := Find(RemoveEntryTags(entries), name);
      && (v.Some? <==> exists e :: e in entries && NameOf(e) == name)
      && forall e :: e in entries && NameOf(e) == name ==> v == Some(RemoveTags(e.value)) && PlainlyEntry(e)
  {
    if entries != [] {
      var n := |entries| - 1;
      var front, e := entries[..n], entries[n];
      UntaggedMember(front, name);
      PutFind(RemoveEntryTags(front), e.key.name, RemoveTags(e.value), name);
      assert forall x :: x in entries <==> x in front || x == e;
      forall x | x in front ensures NameOf(x) != NameOf(e) {
        var i :| 0 <= i < n && front[i] == x;
        assert entries[i] == x;
      }
    }
  }

  lemma {:induction false} UntaggedItem(items: seq<Yaml>, i: nat)
    requires PlainlyItems(items) && i < |items|
    ensures RemoveItemTags(items)[i] == RemoveTags(items[i]) && Plainly(items[i])
  {
    if i < |items| - 1 {
      UntaggedItem(items[..|items| - 1], i);
    }
  }

  lemma {:induction false} EntryTaggedOwner(entries: seq<YamlEntry>, name: string, rest: seq<Segment>)
    requires EntryTaggedAt(entries, name, rest)
    ensures exists e :: e in entries && OneTaggedAt(e, name, rest)
  {
    var n := |entries| - 1;
    if EntryTaggedAt(entries[..n], name, rest) {
      EntryTaggedOwner(entries[..n], name, rest);
      var e :| e in entries[..n] && OneTaggedAt(e, name, rest);
      assert e in entries;
    } else {
      assert entries[n] in entries;
    }
  }

  /** Tagged nodes are nodes of the untagged claims. */
  lemma {:induction false} TaggedIsNode(y: Yaml, path: seq<Segment>)
    requires Plainly(y) && TaggedAt(y, path)
    ensures NodeIn(RemoveTags(y), path)
    decreases y
  {
    if path != [] {
      match y
      case Tagged(inner) => TaggedIsNode(inner, path);
      case Mapping(entries) =>
        EntryTaggedOwner(entries, path[0].name, path[1..]);
        var e :| e in entries && OneTaggedAt(e, path[0].name, path[1..]);
        UntaggedMember(entries, path[0].name);
        assert NameOf(e) == path[0].name;
        if path[1..] != [] {
          TaggedIsNode(e.value, path[1..]);
        }
      case Sequence(items) =>
        UntaggedItem(items, path[0].index);
        TaggedIsNode(items[path[0].index], path[1..]);
    }
  }

  /** Nodes of the untagged claims have good names. */
  lemma {:induction false} NodeIsGood(y: Yaml, path: seq<Segment>)
    requires Plainly(y) && NodeIn(RemoveTags(y), path)
    ensures Good(path)
    decreases y
  {
    if path != [] {
      match y
      case Tagged(inner) => NodeIsGood(inner, path);
      case Mapping(entries) =>
        UntaggedMember(entries, path[0].name);
        var e :| e in entries && NameOf(e) == path[0].name;
        NodeIsGood(e.value, path[1..]);
        GoodFirst(path);
      case Sequence(items) =>
        UntaggedItem(items, path[0].index);
        NodeIsGood(items[path[0].index], path[1..]);
        GoodFirst(path);
      case Scalar(_) =>
    }
  }

  lemma GoodFirst(path: seq<Segment>)
    requires path != [] && Good(path[1..]) && (path[0].Key? ==> GoodName(path[0].name))
    ensures Good(path)
  {
    forall i | 0 <= i < |path| && path[i].Key? ensures GoodName(path[i].name) {
      assert i > 0 ==> path[i] == path[1..][i - 1];
    }
  }

  // The law

  ghost function AllDotted(n: nat): seq<bool> {
    seq(n, i => true)
  }

  lemma {:induction false} DottedIsRendered(path: seq<Segment>)
    requires path != []
    ensures Dotted(path) == "." + Render(path, AllDotted(|path|))
  {
    var all := AllDotted(|path|);
    if |path| > 1 {
      DottedIsRendered(path[1..]);
      assert all[1..] == AllDotted(|path[1..]|);
      assert Separator(path[1], all[1]) == ".";
      Associate(".", KeyOf(path[0]), ".", Render(path[1..], all[1..]));
    } else {
      assert path[1..] == [];
      assert "." + KeyOf(path[0]) + "" == "." + KeyOf(path[0]);
    }
  }

  lemma {:induction false} Stripped(paths: seq<string>)
    requires forall p :: p in paths ==> "$." <= p
    ensures FinalizePaths(paths).Success?
    ensures forall q :: q in FinalizePaths(paths).value <==> "$." + q in paths
  {
    if paths != [] {
      var n := |paths| - 1;
      assert forall p :: p in paths[..n] ==> p in paths;
      Stripped(paths[..n]);
      assert paths[n] in paths;
      forall q ensures q in FinalizePaths(paths).value <==> "$." + q in paths {
        assert "$." + q in paths <==> "$." + q in paths[..n] || "$." + q == paths[n];
        assert "$." + q == paths[n] <==> q == paths[n][2..];
      }
    }
  }

  ghost predicate TaggedAs(y: Yaml, q: string) {
    exists path :: path != [] && TaggedAt(y, path) && q == Render(path, AllDotted(|path|))
  }

  lemma RenderedPath(q: string, path: seq<Segment>)
    requires path != []
    ensures "$." + q == "$" + Dotted(path) <==> q == Render(path, AllDotted(|path|))
  {
    DottedIsRendered(path);
    SameRest(q, Render(path, AllDotted(|path|)));
  }

  lemma RenderedIsGenerated(y: Yaml, q: string)
    requires y.Mapping?
    ensures TaggedAs(y, q) <==> Generated(y, "$", "$." + q)
  {
    if Generated(y, "$", "$." + q) {
      var path: seq<Segment> :| TaggedAt(y, path) && "$." + q == "$" + Dotted(path);
      RenderedPath(q, path);
    }
    if TaggedAs(y, q) {
      var path: seq<Segment> :| path != [] && TaggedAt(y, path) && q == Render(path, AllDotted(|path|));
      RenderedPath(q, path);
    }
  }

  /** The paths of a mapping, without `$.`, are the renderings of its tagged nodes. */
  lemma GeneratedPaths(y: Yaml)
    requires Plainly(y) && y.Mapping?
    ensures forall p :: p in Paths(y, "$") ==> "$." <= p
    ensures forall q :: "$." + q in Paths(y, "$") <==> TaggedAs(y, q)
  {
    forall p | p in Paths(y, "$") ensures "$." <= p {
      GenerateTagged(y, "$", p);
      var path: seq<Segment> :| TaggedAt(y, path) && p == "$" + Dotted(path);
      DottedIsRendered(path);
    }
    forall q ensures "$." + q in Paths(y, "$") <==> TaggedAs(y, q) {
      GenerateTagged(y, "$", "$." + q);
      RenderedIsGenerated(y, q);
    }
  }

  lemma SameRest(q: string, r: string)
    ensures "$." + q == "$" + ("." + r) <==> q == r
  {
    assert q == ("$." + q)[2..];
    assert r == ("$" + ("." + r))[2..];
    assert "$." + r == "$" + ("." + r);
  }

  /** A node is listed by the generated paths exactly when it is tagged. */
  lemma ListedIsTagged(y: Yaml, paths: seq<string>, path: seq<Segment>)
    requires Plainly(y) && y.Mapping? && path != [] && Good(path)
    requires forall q :: q in paths <==> "$." + q in Paths(y, "$")
    ensures Listed(paths, path) <==> TaggedAt(y, path)
  {
    GeneratedPaths(y);
    if Listed(paths, path) {
      var dotted :| |dotted| == |path| && Render(path, dotted) in paths;
      var q := Render(path, dotted);
      assert "$." + q in Paths(y, "$");
      var other: seq<Segment> :| other != [] && TaggedAt(y, other) && q == Render(other, AllDotted(|other|));
      TaggedIsNode(y, other);
      NodeIsGood(y, other);
      RenderInjective(path, dotted, other, AllDotted(|other|));
    }
    if TaggedAt(y, path) {
      assert TaggedAs(y, Render(path, AllDotted(|path|)));
      assert "$." + Render(path, AllDotted(|path|)) in Paths(y, "$");
      assert |AllDotted(|path|)| == |path|;
    }
  }

  /**
   Generate the paths, remove the tags, and plan with both: the nodes that are hidden are exactly the tagged ones.
   */
  lemma TaggedIsHidden(y: Yaml, cfg: Config, path: seq<Segment>)
    requires Plainly(y) && y.Mapping? && path != []
    ensures var s := Finalize(Custom(Paths(y, "$")));
      && s.Success?
      && var plan := Create(RemoveTags(y), s.value, cfg);
      && WellBound(plan.root, plan.jobs)
      && var t := Resolve(plan.root, plan.jobs);
      Claims(t) == RemoveTags(y) && (HiddenAt(t, path) <==> TaggedAt(y, path))
  {
    var paths := Paths(y, "$");
    GeneratedPaths(y);
    Stripped(paths);
    var s := Finalize(Custom(paths)).value;
    PlannerMadePlan(RemoveTags(y), s, cfg);
    var plan := Create(RemoveTags(y), s, cfg);
    HiddenIsTagged(y, s.paths, Resolve(plan.root, plan.jobs), path);
  }

  lemma HiddenIsTagged(y: Yaml, paths: seq<string>, t: Tree, path: seq<Segment>)
    requires Plainly(y) && y.Mapping? && path != []
    requires forall q :: q in paths <==> "$." + q in Paths(y, "$")
    requires Chosen(t, Custom(paths)) && Claims(t) == RemoveTags(y)
    ensures HiddenAt(t, path) <==> TaggedAt(y, path)
  {
    NodesOfClaims(t, Custom(paths), path);
    if HiddenAt(t, path) {
      HiddenIsNode(t, path);
    }
    if TaggedAt(y, path) {
      TaggedIsNode(y, path);
    }
    if NodeAt(t, path) {
      NodeIsGood(y, path);
      ListedIsTagged(y, paths, path);
      GoodIsClear(path);
      DecidesListed(paths, path);
      HiddenWhereDecided(t, Custom(paths), path);
    }
  }

  lemma {:induction false} HiddenIsNode(t: Tree, path: seq<Segment>)
    requires path != [] && HiddenAt(t, path)
    ensures NodeAt(t, path)
    decreases |path|
  {
    if |path| > 1 {
      HiddenIsNode(Child(t, path[0]).value.value, path[1..]);
    }
  }

  // Nothing but the tags is removed

  /** `v` is `y` with its tags taken off: the same scalars, elements and members, in the same order. */
  ghost predicate Untags(y: Yaml, v: Value)
    decreases y
  {
    match y
    case Tagged(inner) => Untags(inner, v)
    case Scalar(u) => v == u
    case Sequence(items) =>
      v.Array? && |v.items| == |items| && forall i :: 0 <= i < |items| ==> Untags(items[i], v.items[i])
    case Mapping(entries) =>
      v.Object? && |v.members| == |entries| && forall i :: 0 <= i < |entries| ==> MemberUntags(entries[i], v.members[i])
  }

  ghost predicate MemberUntags(e: YamlEntry, m: Member)
    decreases e
  {
    m.key == NameOf(e) && Untags(e.value, m.value)
  }

  lemma {:induction false} MembersUntagged(entries: seq<YamlEntry>)
    requires PlainlyEntries(entries)
    ensures var ms := RemoveEntryTags(entries);
      && |ms| == |entries|
      && forall i :: 0 <= i < |ms| ==> ms[i] == Member(NameOf(entries[i]), RemoveTags(entries[i].value)) && PlainlyEntry(entries[i])
  {
    if entries != [] {
      var n := |entries| - 1;
      var front := RemoveEntryTags(entries[..n]);
      MembersUntagged(entries[..n]);
      assert forall i :: 0 <= i < n ==> entries[..n][i] == entries[i];
      assert !HasKey(front, NameOf(entries[n]));
    }
  }

  /** Removing the tags gives exactly the untagged claims. */
  lemma {:induction false} UntaggedExactly(y: Yaml, v: Value)
    requires Plainly(y)
    ensures Untags(y, v) <==> v == RemoveTags(y)
    decreases y
  {
    match y
    case Tagged(inner) => UntaggedExactly(inner, v);
    case Scalar(_) =>
    case Sequence(items) =>
      if v.Array? && |v.items| == |items| {
        forall i | 0 <= i < |items| ensures Untags(items[i], v.items[i]) <==> v.items[i] == RemoveItemTags(items)[i] {
          UntaggedItem(items, i);
          UntaggedExactly(items[i], v.items[i]);
        }
        assert v.items == RemoveItemTags(items) <==> forall i :: 0 <= i < |items| ==> v.items[i] == RemoveItemTags(items)[i];
      }
    case Mapping(entries) =>
      MembersUntagged(entries);
      if v.Object? && |v.members| == |entries| {
        MappingUntagged(y, entries, v.members);
      }
  }

  lemma {:induction false} MappingUntagged(y: Yaml, entries: seq<YamlEntry>, members: seq<Member>)
    requires y == Mapping(entries) && Plainly(y) && |members| == |entries|
    ensures Untags(y, Object(members)) <==> members == RemoveEntryTags(entries)
    decreases y, 0
  {
    var ms := RemoveEntryTags(entries);
    MembersUntagged(entries);
    forall i | 0 <= i < |entries| ensures members[i] == ms[i] <==> MemberUntags(entries[i], members[i]) {
      var e := entries[i];
      assert e.value < e;
      UntaggedExactly(e.value, members[i].value);
    }
    assert members == ms <==> forall i :: 0 <= i < |ms| ==> members[i] == ms[i];
  }
}
