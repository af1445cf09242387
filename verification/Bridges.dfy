/** Bridge lines: the strict parser and the canonical printer. */
module Bridges {
  import opened Text
  import opened Addresses

  const MAX_BRIDGE_LINE_LENGTH := 4096

  predicate IsLetter(c: char) { 'a' <= c <= 'z' || 'A' <= c <= 'Z' }

  /** `_FINGERPRINT_RE` */
  predicate IsFingerprint(s: string) {
    |s| == 40 && forall i | 0 <= i < 40 :: IsHex(s[i])
  }

  predicate KeyChar(c: char) { IsLetter(c) || IsDigit(c) || c in "_-" }

  predicate ValueChar(c: char) { IsLetter(c) || IsDigit(c) || c in "._~:/?&=+,%@-" }

  predicate CertChar(c: char) { IsLetter(c) || IsDigit(c) || c in "+/=_-" }

  predicate IsKey(s: string) {
    s != "" && IsLetter(s[0]) && forall i | 0 <= i < |s| :: KeyChar(s[i])
  }

  predicate IsValue(s: string) {
    s != "" && forall i | 0 <= i < |s| :: ValueChar(s[i])
  }

  predicate IsCert(s: string) {
    s != "" && forall i | 0 <= i < |s| :: CertChar(s[i])
  }

  type Parameter = (string, string)

  /** `_OPTION_RE.fullmatch`: keys hold no `=`, so the match is at the first one. */
  function OptionToken(token: string): Option<Parameter> {
    var n := IndexOf(token, '=');
    if n < |token| && IsKey(token[..n]) && IsValue(token[n + 1..]) then Some((token[..n], token[n + 1..])) else None
  }

  predicate Distinct(parameters: seq<Parameter>) {
    forall i, j | 0 <= i < j < |parameters| :: parameters[i].0 != parameters[j].0
  }

  /** `dict(parameters).get(key)` */
  function Lookup(parameters: seq<Parameter>, key: string): Option<string> {
    if parameters == [] then None
    else
      var rest := Lookup(parameters[1..], key);
      if rest.Some? then rest else if parameters[0].0 == key then Some(parameters[0].1) else None
  }

  /** The parameters an obfs4 bridge must have. */
  predicate Obfs4Parameters(parameters: seq<Parameter>) {
    && (forall i | 0 <= i < |parameters| :: parameters[i].0 in ["cert", "iat-mode"])
    && Lookup(parameters, "cert").Some? && IsCert(Lookup(parameters, "cert").value)
    && Lookup(parameters, "iat-mode").Some? && Lookup(parameters, "iat-mode").value in ["0", "1", "2"]
  }

  datatype Bridge = Bridge(transport: string, address: string, fingerprint: string, parameters: seq<Parameter>)

  /** The checks of `Bridge.__post_init__`. */
  predicate Constructible(b: Bridge) {
    && b.transport in ["vanilla", "obfs4", "snowflake"]
    && Address(b.address) == Some(b.address)
    && IsFingerprint(b.fingerprint)
    && (forall i | 0 <= i < |b.parameters| :: OptionToken(OptionText(b.parameters[i])).Some?)
    && Distinct(b.parameters)
    && (b.transport == "vanilla" ==> b.parameters == [])
    && (b.transport == "obfs4" ==> Obfs4Parameters(b.parameters))
  }

  function OptionText(p: Parameter): string {
    p.0 + "=" + p.1
  }

  function OptionsText(parameters: seq<Parameter>): string {
    if parameters == [] then "" else " " + OptionText(parameters[0]) + OptionsText(parameters[1..])
  }

  /** `Bridge.line` */
  function Line(b: Bridge): string {
    (if b.transport == "vanilla" then "" else b.transport + " ") + b.address + " " + b.fingerprint
        + OptionsText(b.parameters)
  }

  // ---- parser ------------------------------------------------------------------------

  /** What `_safe_input` asks of a line, but for its length. */
  predicate Spaced(line: string) {
    && line != "" && line[0] != ' ' && line[|line| - 1] != ' '
    && (forall i | 0 <= i < |line| :: ' ' <= line[i] && line[i] != '\U{7F}' && line[i] != '#')
    && (forall i | 0 <= i < |line| - 1 :: !(line[i] == ' ' && line[i + 1] == ' '))
  }

  /** `_safe_input` for the ASCII range. A character outside it passes here and is refused
      by the token checks, see `AcceptedIsAscii`. */
  predicate SafeInput(line: string) {
    |line| <= MAX_BRIDGE_LINE_LENGTH && Spaced(line)
  }

  /** The option tokens of a line: all well-formed, no key twice. */
  function Parameters(tokens: seq<string>): Option<seq<Parameter>> {
    if forall i | 0 <= i < |tokens| :: OptionToken(tokens[i]).Some? then
      var parameters := seq(|tokens|, i requires 0 <= i < |tokens| => OptionToken(tokens[i]).value);
      if Distinct(parameters) then Some(parameters) else None
    else None
  }

  function Upper(s: string): (r: string)
    ensures |r| == |s|
  {
    seq(|s|, i requires 0 <= i < |s| => if 'a' <= s[i] <= 'z' then s[i] - 'a' + 'A' else s[i])
  }

  /** The options a transport allows: none, the two of obfs4 in a fixed order, or any. */
  function Normalise(transport: string, parameters: seq<Parameter>): Option<seq<Parameter>> {
    if transport == "vanilla" then if parameters == [] then Some([]) else None
    else if transport == "obfs4" then
      if !Obfs4Parameters(parameters) then None
      else Some([("cert", Lookup(parameters, "cert").value), ("iat-mode", Lookup(parameters, "iat-mode").value)])
    else Some(parameters)
  }

  function Assemble(transport: string, address: string, fingerprint: string, options: seq<string>): Option<Bridge> {
    var rendered, parameters := Address(address), Parameters(options);
    if rendered.None? || !IsFingerprint(fingerprint) || parameters.None? then None
    else
      var normal := Normalise(transport, parameters.value);
      if normal.None? then None
      else Some(Bridge(transport, rendered.value, Upper(fingerprint), normal.value))
  }

  function ParseTokens(tokens: seq<string>): Option<Bridge>
    requires tokens != []
  {
    var transport := if tokens[0] in ["obfs4", "snowflake"] then tokens[0] else "vanilla";
    var offset := if transport != "vanilla" then 1 else 0;
    if |tokens| < offset + 2 then None
    else Assemble(transport, tokens[offset], tokens[offset + 1], tokens[offset + 2..])
  }

  /** `parse_bridge_line` */
  function ParseLine(line: string): Option<Bridge> {
    if SafeInput(line) then ParseTokens(Split(line, ' ')) else None
  }

  /** `parse_bridge_line`, with the loop that collects options and the keys it has seen. */
  method ParseBridgeLine(line: string) returns (r: Option<Bridge>)
    ensures r == ParseLine(line)
  {
    if !SafeInput(line) {
      return None;
    }
    var tokens := Split(line, ' ');
    var transport := if tokens[0] in ["obfs4", "snowflake"] then tokens[0] else "vanilla";
    var offset := if transport != "vanilla" then 1 else 0;
    if |tokens| < offset + 2 {
      return None;
    }
    var address := Address(tokens[offset]);
    var fingerprint := tokens[offset + 1];
    if address.None? || !IsFingerprint(fingerprint) {
      return None;
    }
    var collected := CollectOptions(tokens[offset + 2..]);
    if collected.None? {
      return None;
    }
    var parameters := collected.value;
    if transport == "vanilla" && parameters != [] {
      return None;
    }
    if transport == "obfs4" {
      if !Obfs4Parameters(parameters) {
        return None;
      }
      parameters := [("cert", Lookup(parameters, "cert").value), ("iat-mode", Lookup(parameters, "iat-mode").value)];
    }
    r := Some(Bridge(transport, address.value, Upper(fingerprint), parameters));
  }

  lemma DuplicateKey(tokens: seq<string>, i: nat, j: nat)
    requires i < j < |tokens| && OptionToken(tokens[i]).Some? && OptionToken(tokens[j]).Some?
    requires OptionToken(tokens[i]).value.0 == OptionToken(tokens[j]).value.0
    ensures Parameters(tokens) == None
  {
    if forall k | 0 <= k < |tokens| :: OptionToken(tokens[k]).Some? {
      var parameters := seq(|tokens|, k requires 0 <= k < |tokens| => OptionToken(tokens[k]).value);
      assert parameters[i].0 == parameters[j].0;
    }
  }

  /** The loop of `parse_bridge_line`: a malformed token or a key seen before refuses the line. */
  method CollectOptions(tokens: seq<string>) returns (r: Option<seq<Parameter>>)
    ensures r == Parameters(tokens)
  {
    var parameters: seq<Parameter> := [];
    var seen: set<string> := {};
    for i := 0 to |tokens|
      invariant |parameters| == i && Distinct(parameters)
      invariant forall j | 0 <= j < i :: OptionToken(tokens[j]) == Some(parameters[j])
      invariant seen == set j | 0 <= j < i :: parameters[j].0
    {
      var option := OptionToken(tokens[i]);
      if option.None? {
        return None;
      }
      if option.value.0 in seen {
        ghost var j :| 0 <= j < i && parameters[j].0 == option.value.0;
        DuplicateKey(tokens, j, i);
        return None;
      }
      seen := seen + {option.value.0};
      parameters := parameters + [option.value];
    }
    assert parameters == seq(|tokens|, i requires 0 <= i < |tokens| => OptionToken(tokens[i]).value);
    r := Some(parameters);
  }
}
