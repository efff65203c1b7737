/**
 Making disclosure text ASCII: characters beyond ASCII are printed as `\u` escapes of their UTF-16 code units. Reading
 a JSON string body (section 7 of RFC 8259) undoes it. Text is a sequence of Unicode scalar values.
 */
module Escape {
  import opened Wrappers

  type Text = seq<nat>

  const QUOTE := 0x22
  const BACKSLASH := 0x5C
  const LETTER_U := 0x75

  predicate IsScalarValue(c: nat) {
    c < 0xD800 || 0xE000 <= c <= 0x10FFFF
  }

  predicate IsAscii(c: nat) {
    c < 0x80
  }

  // The printer

  /** `char::encode_utf16`. */
  function Units(c: nat): (r: seq<nat>)
    requires IsScalarValue(c)
    ensures forall i :: 0 <= i < |r| ==> r[i] < 0x10000
  {
    if c < 0x10000 then [c]
    else [0xD800 + (c - 0x10000) / 0x400, 0xDC00 + (c - 0x10000) % 0x400]
  }

  function HexDigit(n: nat): nat
    requires n < 16
  {
    if n < 10 then 0x30 + n else 0x61 + (n - 10)
  }

  /** `\u` and four lower-case hexadecimal digits. */
  function PrintUnit(u: nat): Text
    requires u < 0x10000
  {
    [BACKSLASH, LETTER_U, HexDigit(u / 0x1000), HexDigit(u / 0x100 % 16), HexDigit(u / 0x10 % 16), HexDigit(u % 16)]
  }

  function PrintUnits(us: seq<nat>): Text
    requires forall i :: 0 <= i < |us| ==> us[i] < 0x10000
  {
    if us == [] then [] else PrintUnit(us[0]) + PrintUnits(us[1..])
  }

  function EscapeOne(c: nat): Text
    requires IsScalarValue(c)
  {
    if IsAscii(c) then [c] else PrintUnits(Units(c))
  }

  predicate WellScalar(s: Text) {
    forall i :: 0 <= i < |s| ==> IsScalarValue(s[i])
  }

  function EscapeText(s: Text): Text
    requires WellScalar(s)
  {
    if s == [] then [] else EscapeOne(s[0]) + EscapeText(s[1..])
  }

  /** `escape_unicode_chars`. */
  method EscapeUnicodeChars(s: Text) returns (result: Text)
    requires WellScalar(s)
    ensures result == EscapeText(s)
  {
    result := [];
    for i := 0 to |s|
      invariant result == EscapeText(s[..i])
    {
      EscapeSnoc(s[..i], s[i]);
      assert s[..i + 1] == s[..i] + [s[i]];
      if IsAscii(s[i]) {
        result := result + [s[i]];
      } else {
        var printed := PrintAll(Units(s[i]));
        result := result + printed;
      }
    }
    assert s[..|s|] == s;
  }

  method PrintAll(units: seq<nat>) returns (printed: Text)
    requires forall i :: 0 <= i < |units| ==> units[i] < 0x10000
    ensures printed == PrintUnits(units)
  {
    printed := [];
    for k := 0 to |units|
      invariant printed + PrintUnits(units[k..]) == PrintUnits(units)
    {
      assert units[k..][1..] == units[k + 1..];
      printed := printed + PrintUnit(units[k]);
    }
  }

  // The reader

  function HexValue(c: nat): Option<nat> {
    if 0x30 <= c <= 0x39 then Some(c - 0x30)
    else if 0x61 <= c <= 0x66 then Some(c - 0x61 + 10)
    else if 0x41 <= c <= 0x46 then Some(c - 0x41 + 10)
    else None
  }

  /** The code unit of an escape at the start of the text. */
  function UnitAt(s: Text): (r: Option<nat>)
    ensures r.Some? ==> |s| >= 6
  {
    if |s| < 6 || s[0] != BACKSLASH || s[1] != LETTER_U then None
    else
      var a, b, c, d := HexValue(s[2]), HexValue(s[3]), HexValue(s[4]), HexValue(s[5]);
      if a.None? || b.None? || c.None? || d.None? then None
      else Some(a.value * 0x1000 + b.value * 0x100 + c.value * 0x10 + d.value)
  }

  /** The character of a two-character escape. */
  function ShortEscape(c: nat): Option<nat> {
    if c == 0x22 || c == 0x5C || c == 0x2F then Some(c)
    else if c == 0x62 then Some(0x08)
    else if c == 0x66 then Some(0x0C)
    else if c == 0x6E then Some(0x0A)
    else if c == 0x72 then Some(0x0D)
    else if c == 0x74 then Some(0x09)
    else None
  }

  datatype Read = Read(c: nat, length: nat)

  /** The first character a JSON string body stands for, and how much text it takes; lone surrogates are errors. */
  function ReadOne(s: Text): (r: Option<Read>)
    requires s != []
    ensures r.Some? ==> 0 < r.value.length <= |s|
  {
    if s[0] != BACKSLASH then if s[0] < 0x20 || s[0] == QUOTE then None else Some(Read(s[0], 1))
    else if |s| < 2 then None
    else if s[1] != LETTER_U then
      var c := ShortEscape(s[1]);
      if c.None? then None else Some(Read(c.value, 2))
    else
      var u := UnitAt(s);
      if u.None? then None
      else if IsScalarValue(u.value) then Some(Read(u.value, 6))
      else if u.value >= 0xDC00 then None
      else
        var low := UnitAt(s[6..]);
        if low.None? || low.value < 0xDC00 || low.value > 0xDFFF then None
        else Some(Read(0x10000 + (u.value - 0xD800) * 0x400 + (low.value - 0xDC00), 12))
  }

  function Unescape(s: Text): Option<Text> {
    if s == [] then Some([])
    else
      var r := ReadOne(s);
      if r.None? then None
      else
        var rest := Unescape(s[r.value.length..]);
        if rest.None? then None else Some([r.value.c] + rest.value)
  }

  // The printer is undone

  predicate AllAscii(s: Text) {
    forall i :: 0 <= i < |s| ==> IsAscii(s[i])
  }

  /** A character that begins with an ASCII one is ASCII text throughout. */
  lemma ReadIsAscii(s: Text)
    requires s != [] && ReadOne(s).Some? && IsAscii(s[0])
    ensures AllAscii(s[..ReadOne(s).value.length])
  {
    var n := ReadOne(s).value.length;
    if n >= 6 {
      assert UnitAt(s).Some?;
    }
    if n == 12 {
      assert UnitAt(s[6..]).Some?;
      assert forall i :: 6 <= i < 12 ==> s[i] == s[6..][i - 6];
    }
  }

  lemma UnitDepends(s: Text, t: Text)
    requires |s| >= 6 && |t| >= 6 && s[..6] == t[..6]
    ensures UnitAt(s) == UnitAt(t)
  {
    assert forall i :: 0 <= i < 6 ==> s[i] == s[..6][i] && t[i] == t[..6][i];
  }

  /** Only the text of the character matters, not what comes after. */
  lemma ReadDepends(s: Text, t: Text)
    requires s != [] && ReadOne(s).Some?
    requires var n := ReadOne(s).value.length; |t| >= n && s[..n] == t[..n]
    ensures ReadOne(t) == ReadOne(s)
  {
    var n := ReadOne(s).value.length;
    assert forall i :: 0 <= i < n ==> s[i] == s[..n][i] && t[i] == t[..n][i];
    if n >= 6 {
      assert s[..6] == t[..6];
      UnitDepends(s, t);
    }
    if n == 12 {
      assert s[6..][..6] == t[6..][..6] by {
        assert s[6..12] == s[..n][6..12] && t[6..12] == t[..n][6..12];
      }
      UnitDepends(s[6..], t[6..]);
    }
  }

  lemma HexRoundTrip(n: nat)
    requires n < 16
    ensures HexValue(HexDigit(n)) == Some(n) && IsAscii(HexDigit(n))
  {
  }

  /** A printed unit is a backslash, `u`, and four digits `0` to `9` or `a` to `f`. */
  lemma PrintedForm(u: nat)
    requires u < 0x10000
    ensures var p := PrintUnit(u);
      && |p| == 6 && p[0] == 0x5C && p[1] == 0x75
      && forall i :: 2 <= i < 6 ==> 0x30 <= p[i] <= 0x39 || 0x61 <= p[i] <= 0x66
  {
    HexDigits(u);
  }

  lemma HexDigits(u: nat)
    requires u < 0x10000
    ensures u / 0x1000 * 0x1000 + u / 0x100 % 16 * 0x100 + u / 0x10 % 16 * 0x10 + u % 16 == u
    ensures u / 0x1000 < 16
  {
  }

  lemma UnitRoundTrip(u: nat, rest: Text)
    requires u < 0x10000
    ensures |PrintUnit(u)| == 6 && AllAscii(PrintUnit(u)) && UnitAt(PrintUnit(u) + rest) == Some(u)
  {
    HexDigits(u);
    HexRoundTrip(u / 0x1000);
    HexRoundTrip(u / 0x100 % 16);
    HexRoundTrip(u / 0x10 % 16);
    HexRoundTrip(u % 16);
  }

  /** A printed character beyond ASCII reads as itself, surrogate pairs included. */
  lemma ReadPrinted(c: nat, rest: Text)
    requires IsScalarValue(c) && !IsAscii(c)
    ensures var printed := EscapeOne(c); printed != [] && AllAscii(printed) && ReadOne(printed + rest) == Some(Read(c, |printed|))
  {
    var units := Units(c);
    if c < 0x10000 {
      assert units == [c] && [c][1..] == [];
      assert PrintUnits([c]) == PrintUnit(c) + PrintUnits([]);
      assert EscapeOne(c) == PrintUnit(c);
      UnitRoundTrip(c, rest);
    } else {
      ReadPair(c, rest);
    }
  }

  lemma ReadPair(c: nat, rest: Text)
    requires 0x10000 <= c <= 0x10FFFF
    ensures var printed := EscapeOne(c); |printed| == 12 && AllAscii(printed) && ReadOne(printed + rest) == Some(Read(c, 12))
  {
    var high, low := Units(c)[0], Units(c)[1];
    assert Units(c)[1..] == [low] && [low][1..] == [];
    assert PrintUnits([low]) == PrintUnit(low);
    var printed := EscapeOne(c);
    assert printed == PrintUnit(high) + PrintUnit(low);
    UnitRoundTrip(high, PrintUnit(low) + rest);
    UnitRoundTrip(low, rest);
    assert printed + rest == PrintUnit(high) + (PrintUnit(low) + rest);
    assert (printed + rest)[6..] == PrintUnit(low) + rest;
  }

  lemma {:induction false} EscapeConcat(s: Text, t: Text)
    requires WellScalar(s) && WellScalar(t)
    ensures EscapeText(s + t) == EscapeText(s) + EscapeText(t)
  {
    if s == [] {
      assert s + t == t;
    } else {
      assert (s + t)[1..] == s[1..] + t;
      EscapeConcat(s[1..], t);
    }
  }

  lemma EscapeSnoc(s: Text, c: nat)
    requires WellScalar(s) && IsScalarValue(c)
    ensures EscapeText(s + [c]) == EscapeText(s) + EscapeOne(c)
  {
    EscapeConcat(s, [c]);
    assert [c][1..] == [];
    assert EscapeText([c]) == EscapeOne(c) + EscapeText([]);
  }

  /** ASCII text is left as it is. */
  lemma {:induction false} AsciiUntouched(s: Text)
    requires AllAscii(s)
    ensures EscapeText(s) == s
  {
    if s != [] {
      AsciiUntouched(s[1..]);
      assert s == [s[0]] + s[1..];
    }
  }

  lemma {:induction false} EscapedIsAscii(s: Text)
    requires WellScalar(s)
    ensures AllAscii(EscapeText(s))
  {
    if s != [] {
      EscapedIsAscii(s[1..]);
      if !IsAscii(s[0]) {
        ReadPrinted(s[0], []);
      }
    }
  }

  lemma UnescapeStep(s: Text, rest: Text, r: Read)
    requires s != [] && ReadOne(s) == Some(r) && s[r.length..] == rest
    ensures Unescape(s) == (var x := Unescape(rest); if x.None? then None else Some([r.c] + x.value))
  {
  }

  lemma AsciiFront(s: Text, n: nat)
    requires WellScalar(s) && n <= |s| && AllAscii(s[..n])
    ensures EscapeText(s) == s[..n] + EscapeText(s[n..])
  {
    AsciiUntouched(s[..n]);
    EscapeConcat(s[..n], s[n..]);
    assert s == s[..n] + s[n..];
  }

  /** The same first character before texts that stand for the same. */
  lemma SameFront(s: Text, rest: Text, r: Read)
    requires s != [] && ReadOne(s) == Some(r) && Unescape(rest) == Unescape(s[r.length..])
    ensures Unescape(s[..r.length] + rest) == Unescape(s)
  {
    var t := s[..r.length] + rest;
    assert t[..r.length] == s[..r.length] && t[r.length..] == rest;
    ReadDepends(s, t);
    UnescapeStep(t, rest, r);
    UnescapeStep(s, s[r.length..], r);
  }

  lemma UndoAscii(s: Text, r: Read)
    requires WellScalar(s) && s != [] && ReadOne(s) == Some(r) && IsAscii(s[0])
    requires Unescape(EscapeText(s[r.length..])) == Unescape(s[r.length..])
    ensures Unescape(EscapeText(s)) == Unescape(s)
  {
    ReadIsAscii(s);
    AsciiFront(s, r.length);
    SameFront(s, EscapeText(s[r.length..]), r);
  }

  lemma UndoPrinted(s: Text)
    requires WellScalar(s) && s != [] && !IsAscii(s[0])
    requires Unescape(EscapeText(s[1..])) == Unescape(s[1..])
    ensures Unescape(EscapeText(s)) == Unescape(s)
  {
    var printed, rest := EscapeOne(s[0]), EscapeText(s[1..]);
    ReadPrinted(s[0], rest);
    assert (printed + rest)[|printed|..] == rest;
    UnescapeStep(printed + rest, rest, Read(s[0], |printed|));
    UnescapeStep(s, s[1..], Read(s[0], 1));
  }

  /** For every well-formed string body: its escaped form is ASCII and stands for the same characters. */
  lemma {:induction false} UnescapeUndoesEscape(s: Text)
    requires WellScalar(s) && Unescape(s).Some?
    ensures AllAscii(EscapeText(s)) && Unescape(EscapeText(s)) == Unescape(s)
    decreases |s|
  {
    EscapedIsAscii(s);
    if s != [] {
      var r := ReadOne(s).value;
      UnescapeUndoesEscape(s[r.length..]);
      if IsAscii(s[0]) {
        UndoAscii(s, r);
      } else {
        UndoPrinted(s);
      }
    }
  }
}
