/** `ClaimsForSelectiveDisclosureStrategy`: which claims the issuer makes selectively disclosable. */
module Strategy {
  import opened Wrappers

  datatype Strategy = NoSDClaims | TopLevel | AllLevels | Custom(paths: seq<string>)

  datatype PathError = InvalidPath

  function StripPrefix(s: string, prefix: string): Option<string> {
    if prefix <= s then Some(s[|prefix|..]) else None
  }

  /** `finalize_input`: every custom path must start with `$.`, which is removed. */
  function Finalize(s: Strategy): Result<Strategy, PathError> {
    if s.Custom? then
      var paths :- FinalizePaths(s.paths);
      Success(Custom(paths))
    else Success(s)
  }

  function FinalizePaths(paths: seq<string>): Result<seq<string>, PathError> {
    if paths == [] then Success([])
    else
      var n := |paths| - 1;
      var r :- FinalizePaths(paths[..n]);
      var p := StripPrefix(paths[n], "$.");
      if p.Some? then Success(r + [p.value]) else Failure(InvalidPath)
  }

  /** What is left of a path below `key`, if the path goes there. */
  function Below(path: string, key: string): Option<string> {
    var rest := StripPrefix(path, key);
    if rest.None? || rest.value == "" then None
    else if rest.value[0] == '.' then Some(rest.value[1..])
    else if rest.value[0] == '[' then Some(rest.value)
    else None
  }

  function BelowAll(paths: seq<string>, key: string): seq<string> {
    if paths == [] then []
    else
      var n := |paths| - 1;
      var r := BelowAll(paths[..n], key);
      var p := Below(paths[n], key);
      if p.Some? then r + [p.value] else r
  }

  function NextLevel(s: Strategy, key: string): Strategy {
    match s
    case NoSDClaims => NoSDClaims
    case TopLevel => NoSDClaims
    case AllLevels => AllLevels
    case Custom(paths) => Custom(BelowAll(paths, key))
  }

  predicate SdForKey(s: Strategy, key: string) {
    match s
    case NoSDClaims => false
    case TopLevel => true
    case AllLevels => true
    case Custom(paths) => key in paths
  }

  function Decimal(n: nat): string {
    var digit := [('0' as int + n % 10) as char];
    if n < 10 then digit else Decimal(n / 10) + digit
  }

  /** The key under which an array element is looked up: `[index]`. */
  function IndexKey(index: nat): string {
    "[" + Decimal(index) + "]"
  }
}
