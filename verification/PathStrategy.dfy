/**
 What a list of paths chooses. Descending key by key, the issuer hides exactly the claims whose rendered path is listed,
 an array index being written with or without a dot before it.
 */
module PathStrategy {
  import opened Choosing
  import opened ClaimTree
  import opened Registry
  import opened Strategy
  import opened Wrappers

  /** One step from a container to a child. */
  datatype Segment = Key(name: string) | Index(index: nat)

  function KeyOf(seg: Segment): string {
    match seg
    case Key(name) => name
    case Index(index) => IndexKey(index)
  }

  ghost predicate GoodName(name: string) {
    name != "" && forall i :: 0 <= i < |name| ==> name[i] != '.' && name[i] != '['
  }

  ghost predicate Good(path: seq<Segment>) {
    forall i :: 0 <= i < |path| && path[i].Key? ==> GoodName(path[i].name)
  }

  /** The issuer's decision for a node: descend to its parent with `next_level`, then ask `sd_for_key`. */
  predicate Decides(s: Strategy, path: seq<Segment>)
    requires path != []
    decreases |path|
  {
    if |path| == 1 then SdForKey(s, KeyOf(path[0])) else Decides(NextLevel(s, KeyOf(path[0])), path[1..])
  }

  /** A path as text; `dotted` says which array indices have a dot before them. */
  function Render(path: seq<Segment>, dotted: seq<bool>): string
    requires path != [] && |dotted| == |path|
  {
    if |path| == 1 then KeyOf(path[0])
    else KeyOf(path[0]) + Separator(path[1], dotted[1]) + Render(path[1..], dotted[1..])
  }

  function Separator(seg: Segment, dotted: bool): string {
    if seg.Key? || dotted then "." else ""
  }

  // Membership below a key

  lemma {:induction false} BelowAllMembers(paths: seq<string>, key: string, q: string)
    ensures q in BelowAll(paths, key) <==> exists p :: p in paths && Below(p, key) == Some(q)
  {
    if paths != [] {
      var n := |paths| - 1;
      BelowAllMembers(paths[..n], key, q);
      if p :| p in paths && Below(p, key) == Some(q) {
        assert p in paths[..n] || p == paths[n];
      }
      if q in BelowAll(paths[..n], key) {
        var p :| p in paths[..n] && Below(p, key) == Some(q);
        assert p in paths;
      }
      if Below(paths[n], key) == Some(q) {
        assert paths[n] in paths;
      }
    }
  }

  /** The text begins with a bracket. */
  predicate Bracketed(text: string) {
    text != "" && text[0] == '['
  }

  /**
   A rendering that begins at the i-th segment may open with a bracket: the segment's name does, or it is empty and an
   index follows.
   */
  predicate MayOpen(path: seq<Segment>, i: nat)
    requires i < |path|
  {
    match path[i]
    case Index(_) => true
    case Key(name) => if name == "" then i + 1 < |path| && path[i + 1].Index? else name[0] == '['
  }

  /** Past the first segment, only indices may open with a bracket. */
  predicate Clear(path: seq<Segment>) {
    forall i :: 1 <= i < |path| && MayOpen(path, i) ==> path[i].Index?
  }

  lemma GoodIsClear(path: seq<Segment>)
    requires Good(path)
    ensures Clear(path)
  {
  }

  lemma ClearBelow(path: seq<Segment>)
    requires path != [] && Clear(path)
    ensures Clear(path[1..])
  {
    forall i | 1 <= i < |path[1..]| && MayOpen(path[1..], i) ensures path[1..][i].Index? {
      assert MayOpen(path, i + 1);
    }
  }

  lemma IndexRendersOpen(path: seq<Segment>, dotted: seq<bool>)
    requires path != [] && |dotted| == |path| && path[0].Index?
    ensures Bracketed(Render(path, dotted))
  {
    assert Render(path, dotted)[0] == KeyOf(path[0])[0];
  }

  lemma OpenRendering(path: seq<Segment>, dotted: seq<bool>)
    requires path != [] && |dotted| == |path| && Bracketed(Render(path, dotted))
    ensures MayOpen(path, 0)
  {
    if path[0].Key? && path[0].name != "" {
      assert Render(path, dotted)[0] == path[0].name[0];
    } else if path[0].Key? && |path| > 1 {
      assert Render(path, dotted) == Separator(path[1], dotted[1]) + Render(path[1..], dotted[1..]);
    }
  }

  /** Nothing stands before the first segment. */
  lemma RenderIgnoresFirst(path: seq<Segment>, a: seq<bool>, b: seq<bool>)
    requires path != [] && |a| == |path| == |b| && a[1..] == b[1..]
    ensures Render(path, a) == Render(path, b)
  {
    if |path| > 1 {
      assert a[1] == a[1..][0] && b[1] == b[1..][0];
    }
  }

  ghost function WithFirst(dotted: seq<bool>, first: bool): seq<bool>
    requires |dotted| > 1
  {
    [true, first] + dotted[2..]
  }

  lemma RenderFirst(path: seq<Segment>, dotted: seq<bool>, first: bool)
    requires |path| > 1 && |dotted| == |path|
    ensures Render(path, WithFirst(dotted, first)) == KeyOf(path[0]) + Separator(path[1], first) + Render(path[1..], dotted[1..])
  {
    var full := WithFirst(dotted, first);
    assert full[1..][1..] == dotted[1..][1..];
    RenderIgnoresFirst(path[1..], dotted[1..], full[1..]);
  }

  /** What is left below the first key is a rendering of what is left of the path. */
  lemma BelowRendered(path: seq<Segment>, dotted: seq<bool>, p: string)
    requires |path| > 1 && |dotted| == |path| && Clear(path)
    requires Below(p, KeyOf(path[0])) == Some(Render(path[1..], dotted[1..]))
    ensures var first := |p| > |KeyOf(path[0])| && p[|KeyOf(path[0])|] == '.'; p == Render(path, WithFirst(dotted, first))
  {
    var key, first := KeyOf(path[0]), |p| > |KeyOf(path[0])| && p[|KeyOf(path[0])|] == '.';
    BelowSplit(p, key, Render(path[1..], dotted[1..]));
    if !first {
      OpenRendering(path[1..], dotted[1..]);
      assert MayOpen(path, 1);
    }
    RenderFirst(path, dotted, first);
  }

  lemma BelowSplit(p: string, key: string, q: string)
    requires Below(p, key) == Some(q)
    ensures if |p| > |key| && p[|key|] == '.' then p == key + "." + q else p == key + "" + q && q != "" && q[0] == '['
  {
    var rest := p[|key|..];
    assert p == key + rest;
    assert rest[0] == '.' ==> rest == "." + rest[1..];
  }

  lemma RenderedBelow(path: seq<Segment>, dotted: seq<bool>)
    requires |path| > 1 && |dotted| == |path|
    ensures Below(Render(path, dotted), KeyOf(path[0])) == Some(Render(path[1..], dotted[1..]))
  {
    if path[1].Index? {
      IndexRendersOpen(path[1..], dotted[1..]);
    }
    BelowJoined(KeyOf(path[0]), Separator(path[1], dotted[1]), Render(path[1..], dotted[1..]));
  }

  lemma BelowJoined(key: string, sep: string, q: string)
    requires sep == "." || (sep == "" && q != "" && q[0] == '[')
    ensures Below(key + sep + q, key) == Some(q)
  {
    var p := key + sep + q;
    assert p[|key|..] == sep + q;
    assert p[..|key|] == key;
  }

  ghost predicate Listed(paths: seq<string>, path: seq<Segment>)
    requires path != []
  {
    exists dotted :: |dotted| == |path| && Render(path, dotted) in paths
  }

  /** A listed node is chosen, whatever its names. */
  lemma {:induction false} ListedIsDecided(paths: seq<string>, path: seq<Segment>)
    requires path != [] && Listed(paths, path)
    ensures Decides(Custom(paths), path)
    decreases |path|
  {
    if |path| > 1 {
      var dotted :| |dotted| == |path| && Render(path, dotted) in paths;
      RenderedBelow(path, dotted);
      BelowAllMembers(paths, KeyOf(path[0]), Render(path[1..], dotted[1..]));
      assert |dotted[1..]| == |path[1..]|;
      ListedIsDecided(BelowAll(paths, KeyOf(path[0])), path[1..]);
    }
  }

  /** A chosen node is listed, if past the first segment only indices may open with a bracket. */
  lemma {:induction false} DecidedIsListed(paths: seq<string>, path: seq<Segment>)
    requires path != [] && Clear(path) && Decides(Custom(paths), path)
    ensures Listed(paths, path)
    decreases |path|
  {
    if |path| == 1 {
      assert Render(path, [true]) in paths;
    } else {
      var key := KeyOf(path[0]);
      var below := BelowAll(paths, key);
      ClearBelow(path);
      DecidedIsListed(below, path[1..]);
      var dotted :| |dotted| == |path[1..]| && Render(path[1..], dotted) in below;
      BelowAllMembers(paths, key, Render(path[1..], dotted));
      var p :| p in paths && Below(p, key) == Some(Render(path[1..], dotted));
      assert ([true] + dotted)[1..] == dotted;
      BelowRendered(path, [true] + dotted, p);
      var first := |p| > |key| && p[|key|] == '.';
      assert |WithFirst([true] + dotted, first)| == |path|;
    }
  }

  /** For arbitrary listed texts: such a node is chosen exactly when its path is listed, in either style. */
  lemma DecidesListed(paths: seq<string>, path: seq<Segment>)
    requires path != [] && Clear(path)
    ensures Decides(Custom(paths), path) <==> Listed(paths, path)
  {
    if Decides(Custom(paths), path) {
      DecidedIsListed(paths, path);
    }
    if Listed(paths, path) {
      ListedIsDecided(paths, path);
    }
  }

  // Where it fails

  ghost function NoDots(n: nat): seq<bool> {
    seq(n, i => false)
  }

  lemma NoDotsBelow(n: nat)
    requires n > 0
    ensures NoDots(n)[1..] == NoDots(n - 1)
  {
  }

  /** The shortest rendering without the dot before the i-th segment. */
  ghost function Squeezed(path: seq<Segment>, i: nat): string
    requires 1 <= i < |path|
  {
    if i == 1 then KeyOf(path[0]) + Render(path[1..], NoDots(|path| - 1))
    else KeyOf(path[0]) + Separator(path[1], false) + Squeezed(path[1..], i - 1)
  }

  /** A rendering is no shorter than the one without optional dots. */
  lemma {:induction false} ShortestRendering(path: seq<Segment>, dotted: seq<bool>)
    requires path != [] && |dotted| == |path|
    ensures |Render(path, dotted)| >= |Render(path, NoDots(|path|))|
  {
    if |path| > 1 {
      ShortestRendering(path[1..], dotted[1..]);
      NoDotsBelow(|path|);
    }
  }

  lemma {:induction false} SqueezedIsShorter(path: seq<Segment>, i: nat)
    requires 1 <= i < |path| && path[i].Key?
    ensures |Squeezed(path, i)| < |Render(path, NoDots(|path|))|
  {
    NoDotsBelow(|path|);
    if i > 1 {
      SqueezedIsShorter(path[1..], i - 1);
    }
  }

  lemma OpensWithoutDots(path: seq<Segment>)
    requires path != [] && MayOpen(path, 0)
    ensures Bracketed(Render(path, NoDots(|path|)))
  {
    NoDotsBelow(|path|);
    if path[0].Key? && path[0].name == "" {
      IndexRendersOpen(path[1..], NoDots(|path| - 1));
      assert Render(path, NoDots(|path|)) == Render(path[1..], NoDots(|path| - 1));
    } else {
      assert Render(path, NoDots(|path|))[0] == KeyOf(path[0])[0];
    }
  }

  /** Where a name may open with a bracket, the text without the dot before it still leads there. */
  lemma {:induction false} SqueezedIsDecided(paths: seq<string>, path: seq<Segment>, i: nat)
    requires 1 <= i < |path| && MayOpen(path, i) && Squeezed(path, i) in paths
    ensures Decides(Custom(paths), path)
    decreases |path|
  {
    var key, below, rest := KeyOf(path[0]), BelowAll(paths, KeyOf(path[0])), NoDots(|path| - 1);
    if i == 1 {
      assert MayOpen(path[1..], 0);
      OpensWithoutDots(path[1..]);
      BelowJoined(key, "", Render(path[1..], rest));
      assert key + "" + Render(path[1..], rest) == Squeezed(path, i);
      BelowAllMembers(paths, key, Render(path[1..], rest));
      assert |rest| == |path[1..]|;
      ListedIsDecided(below, path[1..]);
    } else {
      assert MayOpen(path[1..], i - 1);
      SqueezedStart(path[1..], i - 1);
      BelowJoined(key, Separator(path[1], false), Squeezed(path[1..], i - 1));
      BelowAllMembers(paths, key, Squeezed(path[1..], i - 1));
      SqueezedIsDecided(below, path[1..], i - 1);
    }
  }

  lemma SqueezedStart(path: seq<Segment>, i: nat)
    requires 1 <= i < |path|
    ensures path[0].Index? ==> Bracketed(Squeezed(path, i))
  {
    if path[0].Index? {
      assert Squeezed(path, i)[0] == KeyOf(path[0])[0];
    }
  }

  lemma SqueezedIsUnlisted(path: seq<Segment>, i: nat)
    requires 1 <= i < |path| && path[i].Key?
    ensures !Listed([Squeezed(path, i)], path)
  {
    SqueezedIsShorter(path, i);
    forall dotted | |dotted| == |path| ensures Render(path, dotted) != Squeezed(path, i) {
      ShortestRendering(path, dotted);
    }
  }

  /** The choice goes by listed paths, for every list of texts, exactly at these nodes. */
  ghost predicate ByListing(path: seq<Segment>)
    requires path != []
  {
    forall paths :: Decides(Custom(paths), path) <==> Listed(paths, path)
  }

  lemma ByListingExactly(path: seq<Segment>)
    requires path != []
    ensures ByListing(path) <==> Clear(path)
  {
    if Clear(path) {
      forall paths ensures Decides(Custom(paths), path) <==> Listed(paths, path) {
        DecidesListed(paths, path);
      }
    } else {
      var i :| 1 <= i < |path| && MayOpen(path, i) && !path[i].Index?;
      SqueezedIsDecided([Squeezed(path, i)], path, i);
      SqueezedIsUnlisted(path, i);
    }
  }

  /** For one, a name opening with a bracket, or an empty name before an index: chosen, but not listed. */
  lemma ChosenUnlisted()
    ensures var paths, path := ["a[b"], [Key("a"), Key("[b")]; Decides(Custom(paths), path) && !Listed(paths, path)
    ensures var paths, path := ["a[0]"], [Key("a"), Key(""), Index(0)]; Decides(Custom(paths), path) && !Listed(paths, path)
  {
    var named, empty := [Key("a"), Key("[b")], [Key("a"), Key(""), Index(0)];
    assert MayOpen(named, 1) && MayOpen(empty, 1);
    assert named[1..] == [Key("[b")] && empty[1..] == [Key(""), Index(0)] && empty[1..][1..] == [Index(0)];
    assert Squeezed(named, 1) == "a[b";
    assert Render([Index(0)], NoDots(1)) == "[0]" && NoDots(2)[1..] == NoDots(1);
    assert Render([Key(""), Index(0)], NoDots(2)) == "[0]";
    assert Squeezed(empty, 1) == "a[0]";
    SqueezedIsDecided(["a[b"], named, 1);
    SqueezedIsUnlisted(named, 1);
    SqueezedIsDecided(["a[0]"], empty, 1);
    SqueezedIsUnlisted(empty, 1);
  }

  // One name for several nodes

  /** The name, listed as a path, also chooses a node that is not the claim of that name. */
  ghost predicate Ambiguous(name: string) {
    exists path :: path != [] && path != [Key(name)] && Decides(Custom([name]), path)
  }

  lemma OnlyBelow(p: string, key: string, q: string)
    ensures q in BelowAll([p], key) <==> Below(p, key) == Some(q)
  {
    BelowAllMembers([p], key, q);
    assert p in [p];
  }

  lemma NothingBelow(p: string, key: string)
    requires Below(p, key).None?
    ensures BelowAll([p], key) == []
  {
    assert [p][..0] == [];
  }

  lemma {:induction false} NothingDecided(path: seq<Segment>)
    requires path != []
    ensures !Decides(Custom([]), path)
    decreases |path|
  {
    if |path| > 1 {
      assert BelowAll([], KeyOf(path[0])) == [];
      NothingDecided(path[1..]);
    }
  }

  lemma SplitDecides(name: string, key: string, rest: string)
    requires Below(name, key) == Some(rest)
    ensures Decides(Custom([name]), [Key(key), Key(rest)])
  {
    var path := [Key(key), Key(rest)];
    OnlyBelow(name, key, rest);
    assert path[1..] == [Key(rest)];
  }

  /** A listed name chooses nothing but its own claim, exactly when it has neither a dot nor a bracket. */
  lemma AmbiguousExactly(name: string)
    ensures Ambiguous(name) <==> exists k :: 0 <= k < |name| && (name[k] == '.' || name[k] == '[')
  {
    if k :| 0 <= k < |name| && (name[k] == '.' || name[k] == '[') {
      assert name[k..][0] == name[k] && name[k..][1..] == name[k + 1..] && name[..k] <= name;
      var rest := if name[k] == '.' then name[k + 1..] else name[k..];
      assert Below(name, name[..k]) == Some(rest);
      SplitDecides(name, name[..k], rest);
      assert |[Key(name[..k]), Key(rest)]| == 2;
    }
    if path: seq<Segment> :| path != [] && path != [Key(name)] && Decides(Custom([name]), path) {
      if |path| == 1 {
        assert name == KeyOf(path[0]);
        assert path[0].Key? ==> path == [Key(name)];
        assert name[0] == '[';
      } else if Below(name, KeyOf(path[0])).None? {
        NothingBelow(name, KeyOf(path[0]));
        NothingDecided(path[1..]);
      } else {
        assert name[|KeyOf(path[0])|..][0] == name[|KeyOf(path[0])|];
      }
    }
  }

  /** Why names must not be empty for a rendering to tell its path. */
  lemma EmptyNameIsAmbiguous()
    ensures Render([Key(""), Key("a")], [true, true]) == ".a" == Render([Key(".a")], [true])
  {
    assert [Key(""), Key("a")][1..] == [Key("a")];
  }

  // Rendering is injective

  lemma {:induction false} DecimalDigits(n: nat)
    ensures Decimal(n) != "" && forall i :: 0 <= i < |Decimal(n)| ==> '0' <= Decimal(n)[i] <= '9'
  {
    if n >= 10 {
      DecimalDigits(n / 10);
    }
  }

  lemma {:induction false} DecimalInjective(a: nat, b: nat)
    requires Decimal(a) == Decimal(b)
    ensures a == b
  {
    DecimalDigits(a / 10);
    DecimalDigits(b / 10);
    var x, y := Decimal(a), Decimal(b);
    assert x[|x| - 1] == ('0' as int + a % 10) as char && y[|y| - 1] == ('0' as int + b % 10) as char;
    if a >= 10 && b >= 10 {
      assert x[..|x| - 1] == Decimal(a / 10) && y[..|y| - 1] == Decimal(b / 10);
      DecimalInjective(a / 10, b / 10);
    }
  }

  /** What may follow a key: nothing, a dot or a bracket. */
  ghost predicate Tail(x: string) {
    x == "" || x[0] == '.' || x[0] == '['
  }

  /** A key is determined by a text it begins. */
  lemma SameKey(a: Segment, b: Segment, x: string, y: string)
    requires (a.Key? ==> GoodName(a.name)) && (b.Key? ==> GoodName(b.name))
    requires KeyOf(a) + x == KeyOf(b) + y && Tail(x) && Tail(y)
    ensures a == b && x == y
  {
    var k, l := KeyOf(a), KeyOf(b);
    assert k[0] == (k + x)[0] && l[0] == (l + y)[0];
    if a.Key? {
      SameLengthKey(k, l, x, y);
      SameLengthKey(l, k, y, x);
    } else {
      SameIndex(a.index, b.index, x, y);
      DecimalInjective(a.index, b.index);
    }
    assert k == (k + x)[..|k|] && l == (l + y)[..|l|];
    assert x == (k + x)[|k|..] && y == (l + y)[|l|..];
  }

  lemma SameLengthKey(k: string, l: string, x: string, y: string)
    requires k + x == l + y && Tail(x) && GoodName(l)
    ensures |l| <= |k|
  {
    assert forall i :: 0 <= i < |l| ==> (k + x)[i] == l[i];
    assert x != "" ==> (k + x)[|k|] == x[0];
  }

  lemma SameIndex(a: nat, b: nat, x: string, y: string)
    requires IndexKey(a) + x == IndexKey(b) + y
    ensures Decimal(a) == Decimal(b)
  {
    var d, e := Decimal(a), Decimal(b);
    var s, t := IndexKey(a) + x, IndexKey(b) + y;
    DecimalDigits(a);
    DecimalDigits(b);
    assert forall i :: 0 <= i < |d| ==> s[i + 1] == d[i];
    assert forall i :: 0 <= i < |e| ==> t[i + 1] == e[i];
    assert s[|d| + 1] == ']' && t[|e| + 1] == ']';
    assert forall i :: 0 < i <= |d| ==> s[i] == d[i - 1] && s[i] != ']';
    assert forall i :: 0 < i <= |e| ==> t[i] == e[i - 1] && t[i] != ']';
    assert |d| == |e|;
    forall i | 0 <= i < |d| ensures d[i] == e[i] {
      assert s[i + 1] == t[i + 1];
    }
  }

  lemma RenderNotEmpty(path: seq<Segment>, dotted: seq<bool>)
    requires path != [] && |dotted| == |path| && Good(path)
    ensures Render(path, dotted) != "" && (Bracketed(Render(path, dotted)) <==> path[0].Index?)
    ensures Render(path, dotted)[0] != '.'
  {
    assert Render(path, dotted)[0] == KeyOf(path[0])[0];
  }

  ghost function RestOf(path: seq<Segment>, dotted: seq<bool>): string
    requires path != [] && |dotted| == |path|
  {
    if |path| == 1 then "" else Separator(path[1], dotted[1]) + Render(path[1..], dotted[1..])
  }

  lemma RestIsTail(path: seq<Segment>, dotted: seq<bool>)
    requires path != [] && |dotted| == |path| && Good(path)
    ensures Render(path, dotted) == KeyOf(path[0]) + RestOf(path, dotted) && Tail(RestOf(path, dotted))
    ensures |path| > 1 ==> RestOf(path, dotted) != "" && Render(path[1..], dotted[1..]) != ""
    ensures |path| > 1 ==>
      Render(path[1..], dotted[1..]) == if RestOf(path, dotted)[0] == '.' then RestOf(path, dotted)[1..] else RestOf(path, dotted)
  {
    if |path| > 1 {
      var r := Render(path[1..], dotted[1..]);
      RenderNotEmpty(path[1..], dotted[1..]);
      assert Render(path, dotted) == KeyOf(path[0]) + (Separator(path[1], dotted[1]) + r);
      if Separator(path[1], dotted[1]) == "" {
        assert RestOf(path, dotted) == r;
      } else {
        assert RestOf(path, dotted)[1..] == r;
      }
    } else {
      assert KeyOf(path[0]) + "" == KeyOf(path[0]);
    }
  }

  /** A text is the rendering of one path only. */
  lemma {:induction false} RenderInjective(a: seq<Segment>, x: seq<bool>, b: seq<Segment>, y: seq<bool>)
    requires a != [] && b != [] && |x| == |a| && |y| == |b| && Good(a) && Good(b)
    requires Render(a, x) == Render(b, y)
    ensures a == b
    decreases |a|
  {
    RestIsTail(a, x);
    RestIsTail(b, y);
    SameKey(a[0], b[0], RestOf(a, x), RestOf(b, y));
    if |a| > 1 && |b| > 1 {
      RenderInjective(a[1..], x[1..], b[1..], y[1..]);
      SamePath(a, b);
    }
  }

  lemma SamePath(a: seq<Segment>, b: seq<Segment>)
    requires a != [] && b != [] && a[0] == b[0] && a[1..] == b[1..]
    ensures a == b
  {
    assert a == [a[0]] + a[1..] && b == [b[0]] + b[1..];
  }

  // Hidden nodes of a planned tree

  /** The child of a tree one step down. */
  function Child(t: Tree, seg: Segment): Option<Entry> {
    match (t, seg)
    case (Dict(es, _), Key(name)) => Named(es, name)
    case (List(es), Index(index)) => if index < |es| then Some(es[index]) else None
    case _ => None
  }

  predicate HiddenAt(t: Tree, path: seq<Segment>)
    requires path != []
  {
    var e := Child(t, path[0]);
    e.Some? && if |path| == 1 then e.value.salt.Some? else HiddenAt(e.value.value, path[1..])
  }

  predicate NodeAt(t: Tree, path: seq<Segment>)
    requires path != []
  {
    var e := Child(t, path[0]);
    e.Some? && (|path| == 1 || NodeAt(e.value.value, path[1..]))
  }

  lemma {:induction false} MemberChosen(es: seq<Entry>, s: Strategy, name: string)
    requires MembersChosen(es, s) && Named(es, name).Some?
    ensures EntryChosen(Named(es, name).value, name, s)
  {
    var n := |es| - 1;
    if es[n].key != name {
      MemberChosen(es[..n], s, name);
    }
  }

  lemma {:induction false} ItemChosen(es: seq<Entry>, s: Strategy, i: nat)
    requires ItemsChosen(es, s) && i < |es|
    ensures EntryChosen(es[i], IndexKey(i), s)
  {
    if i < |es| - 1 {
      ItemChosen(es[..|es| - 1], s, i);
    }
  }

  lemma ChildChosen(t: Tree, s: Strategy, seg: Segment)
    requires Chosen(t, s) && Child(t, seg).Some?
    ensures EntryChosen(Child(t, seg).value, KeyOf(seg), s)
  {
    match (t, seg)
    case (Dict(es, _), Key(name)) => MemberChosen(es, s, name);
    case (List(es), Index(index)) => ItemChosen(es, s, index);
    case _ =>
  }

  /** Where the strategy chose the hidden entries, a node is hidden exactly when the strategy decides so on its path. */
  lemma {:induction false} HiddenWhereDecided(t: Tree, s: Strategy, path: seq<Segment>)
    requires path != [] && Chosen(t, s) && NodeAt(t, path)
    ensures HiddenAt(t, path) <==> Decides(s, path)
    decreases |path|
  {
    ChildChosen(t, s, path[0]);
    if |path| > 1 {
      HiddenWhereDecided(Child(t, path[0]).value.value, NextLevel(s, KeyOf(path[0])), path[1..]);
    }
  }
}
