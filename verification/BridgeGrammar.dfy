/** The accepted bridge lines as a grammar, written down apart from the parser. */
module BridgeGrammar {
  import opened Text
  import opened Addresses
  import opened Bridges
  import opened BridgeLaws
  import opened BridgeLimits

  // ---- characters --------------------------------------------------------------------------------

  /** The code points of letters and digits. */
  predicate Alphanumeric(n: int) { 48 <= n <= 57 || 65 <= n <= 90 || 97 <= n <= 122 }

  /** The classes of the three regular expressions, by code points. */
  lemma ClassesExactly(c: char)
    ensures IsLetter(c) <==> 65 <= c as int <= 90 || 97 <= c as int <= 122
    ensures IsHex(c) <==> 48 <= c as int <= 57 || 65 <= c as int <= 70 || 97 <= c as int <= 102
    ensures KeyChar(c) <==> Alphanumeric(c as int) || c as int in [45, 95]
    ensures ValueChar(c)
       <==> Alphanumeric(c as int) || c as int in [37, 38, 43, 44, 45, 46, 47, 58, 61, 63, 64, 95, 126]
    ensures CertChar(c) <==> Alphanumeric(c as int) || c as int in [43, 45, 47, 61, 95]
  {
  }

  predicate IsUpperHex(c: char) { '0' <= c <= '9' || 'A' <= c <= 'F' }

  /** The fingerprint of a parsed bridge has the same digits in upper case. */
  predicate SameDigits(text: string, fingerprint: string) {
    && |text| == 40 && |fingerprint| == 40
    && forall i | 0 <= i < 40 ::
         && IsHex(text[i]) && IsUpperHex(fingerprint[i]) && DigitValue(text[i]) == DigitValue(fingerprint[i])
  }

  lemma DigitsExactly(text: string, fingerprint: string)
    ensures SameDigits(text, fingerprint) <==> IsFingerprint(text) && fingerprint == Upper(text)
  {
    if SameDigits(text, fingerprint) {
      forall i | 0 <= i < 40
        ensures fingerprint[i] == Upper(text)[i]
      {
        OneDigit(text[i], fingerprint[i]);
      }
    }
    if IsFingerprint(text) && fingerprint == Upper(text) {
      forall i | 0 <= i < 40
        ensures IsHex(text[i]) && IsUpperHex(fingerprint[i]) && DigitValue(text[i]) == DigitValue(fingerprint[i])
      {
      }
    }
  }

  lemma OneDigit(a: char, b: char)
    requires IsHex(a) && IsUpperHex(b) && DigitValue(a) == DigitValue(b)
    ensures b == if 'a' <= a <= 'z' then a - 'a' + 'A' else a
  {
  }

  // ---- options -------------------------------------------------------------------------------------

  /** `key=value` in the classes of the option pattern. */
  predicate Writes(token: string, p: Parameter) {
    && token == p.0 + "=" + p.1
    && p.0 != "" && IsLetter(p.0[0]) && All(p.0, KeyChar)
    && p.1 != "" && All(p.1, ValueChar)
  }

  lemma WritesExactly(token: string, p: Parameter)
    ensures Writes(token, p) <==> OptionToken(token) == Some(p)
  {
    if Writes(token, p) {
      assert !Has(p.0, '=') by {
        forall i | 0 <= i < |p.0|
          ensures p.0[i] != '='
        {
          assert KeyChar(p.0[i]);
        }
      }
      OptionSplit(p.0, p.1);
    }
    if OptionToken(token) == Some(p) {
      OptionParsed(token);
    }
  }

  /** The options of a transport: none, the two of obfs4 in either order, or any with different keys. */
  predicate Lists(transport: string, options: seq<string>, parameters: seq<Parameter>) {
    match transport
    case "vanilla" => options == [] && parameters == []
    case "obfs4" =>
      && |parameters| == 2 && parameters[0].0 == "cert" && parameters[1].0 == "iat-mode"
      && parameters[0].1 != "" && All(parameters[0].1, CertChar) && parameters[1].1 in ["0", "1", "2"]
      && |options| == 2
      && ((Writes(options[0], parameters[0]) && Writes(options[1], parameters[1]))
          || (Writes(options[1], parameters[0]) && Writes(options[0], parameters[1])))
    case _ =>
      && |options| == |parameters| && (forall i | 0 <= i < |options| :: Writes(options[i], parameters[i]))
      && forall i, j | 0 <= i < j < |parameters| :: parameters[i].0 != parameters[j].0
  }

  lemma ParametersExactly(options: seq<string>, ps: seq<Parameter>)
    ensures Parameters(options) == Some(ps)
       <==> && |options| == |ps| && (forall i | 0 <= i < |options| :: Writes(options[i], ps[i]))
            && forall i, j | 0 <= i < j < |ps| :: ps[i].0 != ps[j].0
  {
    forall i | 0 <= i < |options| && i < |ps|
      ensures Writes(options[i], ps[i]) <==> OptionToken(options[i]) == Some(ps[i])
    {
      WritesExactly(options[i], ps[i]);
    }
    if |options| == |ps| && forall i | 0 <= i < |options| :: OptionToken(options[i]) == Some(ps[i]) {
      assert seq(|options|, i requires 0 <= i < |options| => OptionToken(options[i]).value) == ps;
    }
  }

  predicate Normalises(transport: string, options: seq<string>, parameters: seq<Parameter>) {
    Parameters(options).Some? && Normalise(transport, Parameters(options).value) == Some(parameters)
  }

  lemma ListsExactly(transport: string, options: seq<string>, parameters: seq<Parameter>)
    requires transport in ["vanilla", "obfs4", "snowflake"]
    ensures Lists(transport, options, parameters) <==> Normalises(transport, options, parameters)
  {
    if transport == "vanilla" {
      ParametersExactly(options, []);
    } else if transport == "snowflake" {
      ParametersExactly(options, parameters);
    } else {
      Obfs4Lists(options, parameters);
    }
  }

  lemma Obfs4Lists(options: seq<string>, parameters: seq<Parameter>)
    ensures Lists("obfs4", options, parameters) <==> Normalises("obfs4", options, parameters)
  {
    if Lists("obfs4", options, parameters) {
      var swapped := [parameters[1], parameters[0]];
      var found := if Writes(options[0], parameters[0]) then parameters else swapped;
      assert parameters == [parameters[0], parameters[1]];
      ParametersExactly(options, found);
      PairLookup(parameters[0].1, parameters[1].1);
    }
    if Normalises("obfs4", options, parameters) {
      var found := Parameters(options).value;
      ParametersExactly(options, found);
      Obfs4Order(found);
    }
  }

  lemma PairLookup(cert: string, mode: string)
    requires cert != "" && All(cert, CertChar) && mode in ["0", "1", "2"]
    ensures forall ps | ps in [[("cert", cert), ("iat-mode", mode)], [("iat-mode", mode), ("cert", cert)]] ::
              && Obfs4Parameters(ps)
              && Lookup(ps, "cert") == Some(cert) && Lookup(ps, "iat-mode") == Some(mode)
  {
    LookupPair(cert, mode);
    var ps := [("iat-mode", mode), ("cert", cert)];
    assert ps[1..] == [("cert", cert)] && ps[1..][1..] == [];
    assert Lookup(ps[1..], "cert") == Some(cert) && Lookup(ps[1..], "iat-mode") == None;
  }

  // ---- lines ---------------------------------------------------------------------------------------

  /** The tokens spell the bridge. */
  predicate Spells(tokens: seq<string>, b: Bridge) {
    && b.transport in ["vanilla", "obfs4", "snowflake"]
    && var n := if b.transport == "vanilla" then 0 else 1;
       && |tokens| >= n + 2
       && (if n == 0 then tokens[0] != "obfs4" && tokens[0] != "snowflake" else tokens[0] == b.transport)
       && Address(tokens[n]) == Some(b.address)
       && SameDigits(tokens[n + 1], b.fingerprint)
       && Lists(b.transport, tokens[n + 2..], b.parameters)
  }

  lemma SpellsExactly(tokens: seq<string>, b: Bridge)
    requires tokens != []
    ensures Spells(tokens, b) <==> ParseTokens(tokens) == Some(b)
  {
    var transport := if tokens[0] in ["obfs4", "snowflake"] then tokens[0] else "vanilla";
    var n := if transport != "vanilla" then 1 else 0;
    if |tokens| >= n + 2 {
      DigitsExactly(tokens[n + 1], b.fingerprint);
      ListsExactly(transport, tokens[n + 2..], b.parameters);
      AssembleExactly(transport, tokens[n], tokens[n + 1], tokens[n + 2..], b);
    }
  }

  lemma AssembleExactly(transport: string, address: string, fingerprint: string, options: seq<string>, b: Bridge)
    ensures Assemble(transport, address, fingerprint, options) == Some(b)
       <==> && b.transport == transport && Address(address) == Some(b.address)
            && IsFingerprint(fingerprint) && b.fingerprint == Upper(fingerprint)
            && Normalises(transport, options, b.parameters)
  {
  }

  /** A line parses to a bridge exactly if it has at most 4096 characters and its tokens, one blank apart,
      spell the bridge. */
  lemma GrammarExactly(line: string, b: Bridge)
    ensures ParseLine(line) == Some(b) <==> |line| <= 4096 && Spells(Split(line, ' '), b)
  {
    var tokens := Split(line, ' ');
    SpellsExactly(tokens, b);
    if ParseTokens(tokens) == Some(b) {
      forall i | 0 <= i < |tokens|
        ensures IsToken(tokens[i])
      {
        AcceptedIsAscii(tokens, i);
      }
      JoinSplit(line, ' ');
      JoinSpaced(tokens);
    }
  }
}
