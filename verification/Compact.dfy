/**
 The compact serialization: the issuer-signed JWT, the disclosures and the optional key-binding JWT, separated by `~`.
 Texts are sequences of bytes, one per character.
 */
module Compact {
  import opened Json
  import opened Sequences
  import opened Wrappers

  const SEPARATOR := '~'
  const JWT_SEPARATOR := '.'
  const MAX_SD_JWT_DISCLOSURES := 8192
  const MAX_SD_JWT_DISCLOSURE_BYTES := 65536
  const MAX_SD_JWT_INPUT_BYTES := 2 * 1024 * 1024

  /** `str::split` on one character. */
  function Split(s: string, sep: char): (r: seq<string>)
    ensures r != []
  {
    if s == "" then [""]
    else
      var n := |s| - 1;
      var r := Split(s[..n], sep);
      if s[n] == sep then r + [""] else r[..|r| - 1] + [r[|r| - 1] + [s[n]]]
  }

  /** `join` with one character. */
  function Join(parts: seq<string>, sep: char): string {
    if parts == [] then ""
    else if |parts| == 1 then parts[0]
    else Join(parts[..|parts| - 1], sep) + [sep] + parts[|parts| - 1]
  }

  function Count(s: string, sep: char): nat {
    if s == "" then 0
    else Count(s[..|s| - 1], sep) + if s[|s| - 1] == sep then 1 else 0
  }

  /** Decoding of the first part of a JWT to its `alg`, and of its second part to its claims. */
  datatype JwtCodec = JwtCodec(algorithm: string -> Option<string>, claims: string -> Option<seq<Member>>)

  datatype ParseError = InputTooLarge | TooManyDisclosures | TooFewParts | NoJwtPayload | BadJwtPayload | DisclosureTooLarge

  datatype Parsed = Parsed(
    sdJwt: string, disclosures: seq<string>, keyBindingJwt: Option<string>, payload: seq<Member>, signAlg: Option<string>)

  /** `decode_header_and_get_sign_algorithm`. */
  function SignAlgorithm(jwt: string, j: JwtCodec): Option<string> {
    var parts := Split(jwt, JWT_SEPARATOR);
    if |parts| < 2 then None else j.algorithm(parts[0])
  }

  function NonEmpty(s: string): Option<string> {
    if s == "" then None else Some(s)
  }

  /** `parse_compact_sd_jwt`. */
  function ParseCompact(s: string, j: JwtCodec): Result<Parsed, ParseError> {
    if Count(s, SEPARATOR) > MAX_SD_JWT_DISCLOSURES + 1 then Failure(TooManyDisclosures)
    else FromParts(Split(s, SEPARATOR), j)
  }

  /** The first part is the JWT, the last one the key-binding JWT unless it is empty, and the disclosures lie between. */
  function FromParts(parts: seq<string>, j: JwtCodec): Result<Parsed, ParseError> {
    if |parts| < 2 then Failure(TooFewParts)
    else
      var jwt := Split(parts[0], JWT_SEPARATOR);
      if |jwt| < 2 then Failure(NoJwtPayload)
      else
        var payload := j.claims(jwt[1]);
        if payload.None? then Failure(BadJwtPayload)
        else
          Success(Parsed(parts[0], parts[1..|parts| - 1], NonEmpty(parts[|parts| - 1]), payload.value, SignAlgorithm(parts[0], j)))
  }

  predicate WithinLimits(disclosures: seq<string>) {
    |disclosures| <= MAX_SD_JWT_DISCLOSURES && forall i :: 0 <= i < |disclosures| ==> |disclosures[i]| <= MAX_SD_JWT_DISCLOSURE_BYTES
  }

  /** `parse_sd_jwt` for the compact form. */
  function Parse(s: string, j: JwtCodec): Result<Parsed, ParseError> {
    if |s| > MAX_SD_JWT_INPUT_BYTES then Failure(InputTooLarge)
    else
      var p :- ParseCompact(s, j);
      if |p.disclosures| > MAX_SD_JWT_DISCLOSURES then Failure(TooManyDisclosures)
      else if !WithinLimits(p.disclosures) then Failure(DisclosureTooLarge)
      else Success(p)
  }

  /** A credential as the issuer serializes it: a separator ends it. */
  function RenderCredential(sdJwt: string, disclosures: seq<string>): string {
    Join([sdJwt] + disclosures, SEPARATOR) + [SEPARATOR]
  }

  /** A presentation as the holder serializes it; the key-binding JWT is empty when there is none. */
  function RenderPresentation(sdJwt: string, disclosures: seq<string>, keyBindingJwt: string): string {
    Join([sdJwt] + disclosures + [keyBindingJwt], SEPARATOR)
  }

  /** What `sd_hash` is computed over, by the holder when binding a key and by the verifier when checking it. */
  function KeyBindingInput(sdJwt: string, disclosures: seq<string>): string {
    Join([sdJwt] + disclosures, SEPARATOR) + [SEPARATOR]
  }

  // Splitting and joining

  ghost predicate Free(s: string, sep: char) {
    forall i :: 0 <= i < |s| ==> s[i] != sep
  }

  ghost predicate AllFree(parts: seq<string>, sep: char) {
    forall i :: 0 <= i < |parts| ==> Free(parts[i], sep)
  }

  lemma JoinSnoc(parts: seq<string>, last: string, sep: char)
    requires parts != []
    ensures Join(parts + [last], sep) == Join(parts, sep) + [sep] + last
  {
    assert (parts + [last])[..|parts|] == parts;
  }

  lemma {:induction false} SplitParts(s: string, sep: char)
    ensures AllFree(Split(s, sep), sep) && |Split(s, sep)| == Count(s, sep) + 1
  {
    if s != "" {
      SplitParts(s[..|s| - 1], sep);
    }
  }

  /** Joining what was split gives the text back. */
  lemma {:induction false} JoinSplit(s: string, sep: char)
    ensures Join(Split(s, sep), sep) == s
  {
    if s != "" {
      var n := |s| - 1;
      var r := Split(s[..n], sep);
      JoinSplit(s[..n], sep);
      if s[n] == sep {
        JoinSnoc(r, "", sep);
      } else {
        LastGrows(r, s[n], sep);
      }
      assert s == s[..n] + [s[n]];
    }
  }

  lemma LastGrows(r: seq<string>, x: char, sep: char)
    requires r != []
    ensures Join(r[..|r| - 1] + [r[|r| - 1] + [x]], sep) == Join(r, sep) + [x]
  {
    var k := |r| - 1;
    assert r == r[..k] + [r[k]];
    if k > 0 {
      JoinSnoc(r[..k], r[k] + [x], sep);
      JoinSnoc(r[..k], r[k], sep);
      assert Join(r[..k], sep) + [sep] + (r[k] + [x]) == (Join(r[..k], sep) + [sep] + r[k]) + [x];
    }
  }

  ghost function WithLast(r: seq<string>, t: string): seq<string>
    requires r != []
  {
    r[..|r| - 1] + [r[|r| - 1] + t]
  }

  lemma WithLastMore(r: seq<string>, t: string, x: char)
    requires r != []
    ensures var w := WithLast(r, t); w[..|w| - 1] + [w[|w| - 1] + [x]] == WithLast(r, t + [x])
  {
    var w := WithLast(r, t);
    assert w[|w| - 1] + [x] == r[|r| - 1] + (t + [x]);
    assert w[..|w| - 1] == r[..|r| - 1];
  }

  /** Appending text free of the separator extends the last part. */
  lemma {:induction false} SplitExtend(s: string, t: string, sep: char)
    requires Free(t, sep)
    ensures Split(s + t, sep) == WithLast(Split(s, sep), t)
  {
    var r := Split(s, sep);
    if t == "" {
      assert s + t == s;
      assert r[|r| - 1] + t == r[|r| - 1];
    } else {
      var n := |t| - 1;
      SplitExtend(s, t[..n], sep);
      Snoc(s + t[..n], t[n]);
      assert s + t == (s + t[..n]) + [t[n]];
      WithLastMore(r, t[..n], t[n]);
      assert t[..n] + [t[n]] == t;
    }
  }

  lemma SplitOne(s: string, t: string, sep: char)
    requires Free(t, sep)
    ensures Split(s + [sep] + t, sep) == Split(s, sep) + [t]
  {
    Snoc(s, sep);
    SplitExtend(s + [sep], t, sep);
    Snoc(Split(s, sep), "");
    assert "" + t == t;
  }

  /** Splitting what was joined gives the parts back, when no part holds the separator. */
  lemma {:induction false} SplitJoin(parts: seq<string>, sep: char)
    requires parts != [] && AllFree(parts, sep)
    ensures Split(Join(parts, sep), sep) == parts
  {
    var n := |parts| - 1;
    if n == 0 {
      SplitExtend("", parts[0], sep);
      assert "" + parts[0] == parts[0];
    } else {
      SplitJoin(parts[..n], sep);
      SplitOne(Join(parts[..n], sep), parts[n], sep);
      assert parts == parts[..n] + [parts[n]];
    }
  }

  // Parsing and rendering

  /** The issuer's form is the holder's form without a key-binding JWT. */
  lemma CredentialIsPresentation(sdJwt: string, disclosures: seq<string>)
    ensures RenderCredential(sdJwt, disclosures) == RenderPresentation(sdJwt, disclosures, "")
  {
    JoinSnoc([sdJwt] + disclosures, "", SEPARATOR);
  }

  /** What a text must be for the parser to accept it as these parts. */
  ghost predicate Serializes(s: string, p: Parsed, j: JwtCodec) {
    && s == RenderPresentation(p.sdJwt, p.disclosures, if p.keyBindingJwt.Some? then p.keyBindingJwt.value else "")
    && p.keyBindingJwt != Some("")
    && AllFree([p.sdJwt] + p.disclosures, '~') && (p.keyBindingJwt.Some? ==> Free(p.keyBindingJwt.value, '~'))
    && |s| <= 2097152 && |p.disclosures| <= 8192 && (forall i :: 0 <= i < |p.disclosures| ==> |p.disclosures[i]| <= 65536)
    && |Split(p.sdJwt, '.')| >= 2
    && j.claims(Split(p.sdJwt, '.')[1]) == Some(p.payload)
    && p.signAlg == j.algorithm(Split(p.sdJwt, '.')[0])
  }

  /** A presentation in plain text: every part after the JWT has a tilde before it. */
  lemma RenderedInPlainText(sdJwt: string, disclosures: seq<string>, last: string)
    ensures RenderPresentation(sdJwt, [], last) == sdJwt + "~" + last
    ensures forall kb :: RenderPresentation(sdJwt, disclosures + [last], kb) == RenderPresentation(sdJwt, disclosures, last) + "~" + kb
    ensures RenderCredential(sdJwt, disclosures) == KeyBindingInput(sdJwt, disclosures) == RenderPresentation(sdJwt, disclosures, "")
  {
    CredentialIsPresentation(sdJwt, disclosures);
    JoinSnoc([sdJwt], last, SEPARATOR);
    assert [sdJwt] + [] + [last] == [sdJwt] + [last];
    forall kb
      ensures RenderPresentation(sdJwt, disclosures + [last], kb) == RenderPresentation(sdJwt, disclosures, last) + "~" + kb
    {
      assert [sdJwt] + (disclosures + [last]) + [kb] == ([sdJwt] + disclosures + [last]) + [kb];
      JoinSnoc([sdJwt] + disclosures + [last], kb, SEPARATOR);
    }
  }

  lemma ParsedSerializes(s: string, j: JwtCodec)
    requires Parse(s, j).Success?
    ensures Serializes(s, Parse(s, j).value, j)
  {
    var p := Parse(s, j).value;
    var last := ParsedFromParts(s, p, j);
    JoinSplit(s, SEPARATOR);
    assert p.keyBindingJwt == NonEmpty(last);
  }

  lemma ParsedFromParts(s: string, p: Parsed, j: JwtCodec) returns (last: string)
    requires Parse(s, j) == Success(p)
    ensures Split(s, '~') == [p.sdJwt] + p.disclosures + [last] && NonEmpty(last) == p.keyBindingJwt
    ensures AllFree([p.sdJwt] + p.disclosures, '~') && Free(last, '~')
  {
    var parts := Split(s, SEPARATOR);
    SplitParts(s, SEPARATOR);
    last := parts[|parts| - 1];
    var front := [p.sdJwt] + p.disclosures;
    assert parts == front + [last];
    forall i | 0 <= i < |front| ensures Free(front[i], '~') {
      assert front[i] == parts[i];
    }
  }

  lemma SerializedParses(s: string, p: Parsed, j: JwtCodec)
    requires Serializes(s, p, j)
    ensures Parse(s, j) == Success(p)
  {
    var last := if p.keyBindingJwt.Some? then p.keyBindingJwt.value else "";
    SplitParts(s, SEPARATOR);
    SplitJoin([p.sdJwt] + p.disclosures + [last], SEPARATOR);
    PartsParse(s, p, last, j);
  }

  lemma PartsParse(s: string, p: Parsed, last: string, j: JwtCodec)
    requires Split(s, SEPARATOR) == [p.sdJwt] + p.disclosures + [last] && NonEmpty(last) == p.keyBindingJwt
    requires Count(s, SEPARATOR) == |p.disclosures| + 1 && |s| <= MAX_SD_JWT_INPUT_BYTES && WithinLimits(p.disclosures)
    requires |Split(p.sdJwt, JWT_SEPARATOR)| >= 2 && j.claims(Split(p.sdJwt, JWT_SEPARATOR)[1]) == Some(p.payload)
    requires p.signAlg == SignAlgorithm(p.sdJwt, j)
    ensures Parse(s, j) == Success(p)
  {
    PartsGive([p.sdJwt] + p.disclosures + [last], p, last, j);
  }

  lemma PartsGive(parts: seq<string>, p: Parsed, last: string, j: JwtCodec)
    requires parts == [p.sdJwt] + p.disclosures + [last] && NonEmpty(last) == p.keyBindingJwt
    requires |Split(p.sdJwt, JWT_SEPARATOR)| >= 2 && j.claims(Split(p.sdJwt, JWT_SEPARATOR)[1]) == Some(p.payload)
    requires p.signAlg == SignAlgorithm(p.sdJwt, j)
    ensures FromParts(parts, j) == Success(p)
  {
    assert parts[0] == p.sdJwt && parts[|parts| - 1] == last;
    assert parts[1..|parts| - 1] == p.disclosures;
  }

  /** For every text: it parses to `p` exactly when it is the rendering of `p`'s separator-free parts within the limits. */
  lemma ParseExact(s: string, p: Parsed, j: JwtCodec)
    ensures Parse(s, j) == Success(p) <==> Serializes(s, p, j)
  {
    if Parse(s, j) == Success(p) {
      ParsedSerializes(s, j);
    }
    if Serializes(s, p, j) {
      SerializedParses(s, p, j);
    }
  }

  /** The verifier recomputes `sd_hash` over the same text as the holder, whatever key-binding JWT it is shown. */
  lemma KeyBindingAgrees(sdJwt: string, disclosures: seq<string>, keyBindingJwt: string, j: JwtCodec)
    requires AllFree([sdJwt] + disclosures, SEPARATOR) && Free(keyBindingJwt, SEPARATOR)
    ensures var s, input := RenderPresentation(sdJwt, disclosures, keyBindingJwt), KeyBindingInput(sdJwt, disclosures);
      && s == input + keyBindingJwt
      && (Parse(s, j).Success? ==> KeyBindingInput(Parse(s, j).value.sdJwt, Parse(s, j).value.disclosures) == input)
  {
    var parts, s := [sdJwt] + disclosures, RenderPresentation(sdJwt, disclosures, keyBindingJwt);
    JoinSnoc(parts, keyBindingJwt, SEPARATOR);
    SplitJoin(parts + [keyBindingJwt], SEPARATOR);
    if Parse(s, j).Success? {
      assert Split(s, SEPARATOR)[1..|parts|] == disclosures;
    }
  }

  /** The hashed text determines the JWT and the disclosures, in order. */
  lemma KeyBindingBinds(sdJwt: string, disclosures: seq<string>, sdJwt': string, disclosures': seq<string>)
    requires AllFree([sdJwt] + disclosures, SEPARATOR) && AllFree([sdJwt'] + disclosures', SEPARATOR)
    requires KeyBindingInput(sdJwt, disclosures) == KeyBindingInput(sdJwt', disclosures')
    ensures sdJwt == sdJwt' && disclosures == disclosures'
  {
    var a, b := [sdJwt] + disclosures, [sdJwt'] + disclosures';
    assert Join(a, SEPARATOR) == KeyBindingInput(sdJwt, disclosures)[..|KeyBindingInput(sdJwt, disclosures)| - 1];
    assert Join(b, SEPARATOR) == KeyBindingInput(sdJwt', disclosures')[..|KeyBindingInput(sdJwt', disclosures')| - 1];
    SplitJoin(a, SEPARATOR);
    SplitJoin(b, SEPARATOR);
    assert a[0] == b[0] && a[1..] == b[1..] && a[1..] == disclosures && b[1..] == disclosures';
  }
}
