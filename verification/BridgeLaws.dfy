/** Parsing and printing bridge lines are inverse to each other. */
module BridgeLaws {
  import opened Text
  import opened Addresses
  import opened AddressLaws
  import opened Bridges

  // ---- tokens ---------------------------------------------------------------------------

  /** Printable ASCII but for the comment sign. */
  predicate TokenChar(c: char) { '!' <= c <= '~' && c != '#' }

  predicate IsToken(s: string) {
    s != "" && forall i | 0 <= i < |s| :: TokenChar(s[i])
  }

  predicate AllTokens(tokens: seq<string>) {
    tokens != [] && forall i | 0 <= i < |tokens| :: IsToken(tokens[i])
  }

  lemma TokenSpaced(token: string)
    requires IsToken(token)
    ensures Spaced(token) && !Has(token, ' ')
  {
    assert TokenChar(token[0]) && TokenChar(token[|token| - 1]);
  }

  lemma SpacedAppend(a: string, b: string)
    requires Spaced(a) && Spaced(b)
    ensures Spaced(a + [' '] + b)
  {
    var s := a + [' '] + b;
    assert forall i | 0 <= i < |s| :: s[i] == if i < |a| then a[i] else if i == |a| then ' ' else b[i - |a| - 1];
  }

  lemma {:induction false} JoinSpaced(tokens: seq<string>)
    requires AllTokens(tokens)
    ensures Spaced(Join(tokens, ' '))
  {
    TokenSpaced(tokens[0]);
    if |tokens| > 1 {
      JoinSpaced(tokens[1..]);
      SpacedAppend(tokens[0], Join(tokens[1..], ' '));
    }
  }

  lemma TokensSeparable(tokens: seq<string>)
    requires AllTokens(tokens)
    ensures Separable(tokens, ' ')
  {
    forall i | 0 <= i < |tokens|
      ensures !Has(tokens[i], ' ')
    {
      TokenSpaced(tokens[i]);
    }
  }

  // ---- a bridge as tokens -------------------------------------------------------------------

  function OptionTokens(parameters: seq<Parameter>): (r: seq<string>)
    ensures |r| == |parameters| && forall i | 0 <= i < |r| :: r[i] == OptionText(parameters[i])
  {
    seq(|parameters|, i requires 0 <= i < |parameters| => OptionText(parameters[i]))
  }

  function Tokens(b: Bridge): seq<string> {
    (if b.transport == "vanilla" then [] else [b.transport]) + [b.address, b.fingerprint] + OptionTokens(b.parameters)
  }

  lemma {:induction false} JoinOptions(head: string, parameters: seq<Parameter>)
    ensures Join([head] + OptionTokens(parameters), ' ') == head + OptionsText(parameters)
    decreases |parameters|
  {
    var tokens := [head] + OptionTokens(parameters);
    if parameters != [] {
      JoinOptions(OptionText(parameters[0]), parameters[1..]);
      assert tokens[1..] == [OptionText(parameters[0])] + OptionTokens(parameters[1..]);
    }
  }

  lemma JoinCons(head: string, tail: seq<string>)
    requires tail != []
    ensures Join([head] + tail, ' ') == head + " " + Join(tail, ' ')
  {
    assert ([head] + tail)[1..] == tail;
  }

  lemma LineIsJoin(b: Bridge)
    ensures Line(b) == Join(Tokens(b), ' ')
  {
    JoinOptions(b.fingerprint, b.parameters);
    JoinThree(b.transport, b.address, b.fingerprint, OptionTokens(b.parameters));
  }

  lemma JoinThree(transport: string, address: string, fingerprint: string, options: seq<string>)
    ensures Join([] + [address, fingerprint] + options, ' ') == address + " " + Join([fingerprint] + options, ' ')
    ensures Join([transport] + [address, fingerprint] + options, ' ')
         == transport + " " + address + " " + Join([fingerprint] + options, ' ')
  {
    var rest := [fingerprint] + options;
    JoinCons(address, rest);
    JoinCons(transport, [address] + rest);
    assert [] + [address, fingerprint] + options == [address] + rest;
    assert [transport] + [address, fingerprint] + options == [transport] + ([address] + rest);
  }

  /** What every bridge the parser builds satisfies: the constructor's checks and the choices the
      parser makes where the constructor leaves one. */
  predicate Canonical(b: Bridge) {
    && Constructible(b)
    && Upper(b.fingerprint) == b.fingerprint
    && (forall i | 0 <= i < |b.parameters| :: !Has(b.parameters[i].0, '='))
    && (b.transport == "obfs4" ==>
          |b.parameters| == 2 && b.parameters[0].0 == "cert" && b.parameters[1].0 == "iat-mode")
  }

  // ---- options ------------------------------------------------------------------------------

  lemma OptionSplit(key: string, value: string)
    requires !Has(key, '=')
    ensures OptionToken(key + "=" + value) == if IsKey(key) && IsValue(value) then Some((key, value)) else None
  {
    var token := key + "=" + value;
    IndexOfIs(token, '=', |key|);
    assert token[..|key|] == key && token[|key| + 1..] == value;
  }

  lemma OptionParsed(token: string)
    requires OptionToken(token).Some?
    ensures var p := OptionToken(token).value;
            && IsKey(p.0) && IsValue(p.1) && !Has(p.0, '=')
            && OptionText(p) == token && OptionToken(OptionText(p)) == Some(p)
  {
    var n := IndexOf(token, '=');
    assert token == token[..n] + "=" + token[n + 1..];
  }

  lemma OptionIsToken(p: Parameter)
    requires IsKey(p.0) && IsValue(p.1)
    ensures IsToken(OptionText(p))
  {
    var s := OptionText(p);
    forall i | 0 <= i < |s|
      ensures TokenChar(s[i])
    {
      if i < |p.0| {
        assert s[i] == p.0[i] && KeyChar(p.0[i]);
      } else if i > |p.0| {
        assert s[i] == p.1[i - |p.0| - 1] && ValueChar(p.1[i - |p.0| - 1]);
      }
    }
  }

  lemma ParametersRoundTrip(parameters: seq<Parameter>)
    requires forall i | 0 <= i < |parameters| ::
               OptionToken(OptionText(parameters[i])).Some? && !Has(parameters[i].0, '=')
    requires Distinct(parameters)
    ensures Parameters(OptionTokens(parameters)) == Some(parameters)
    ensures forall i | 0 <= i < |parameters| :: IsToken(OptionTokens(parameters)[i])
  {
    var tokens := OptionTokens(parameters);
    forall i | 0 <= i < |parameters|
      ensures OptionToken(tokens[i]) == Some(parameters[i]) && IsToken(tokens[i])
    {
      OptionSplit(parameters[i].0, parameters[i].1);
      OptionIsToken(parameters[i]);
    }
    assert seq(|tokens|, i requires 0 <= i < |tokens| => OptionToken(tokens[i]).value) == parameters;
  }

  lemma ParametersParsed(tokens: seq<string>)
    requires Parameters(tokens).Some?
    ensures var ps := Parameters(tokens).value;
            && Distinct(ps) && |ps| == |tokens|
            && forall i | 0 <= i < |ps| ::
                 && OptionToken(tokens[i]) == Some(ps[i]) && OptionToken(OptionText(ps[i])) == Some(ps[i])
                 && !Has(ps[i].0, '=')
  {
    forall i | 0 <= i < |tokens| {
      OptionParsed(tokens[i]);
    }
  }

  lemma {:induction false} LookupIn(parameters: seq<Parameter>, key: string)
    requires Lookup(parameters, key).Some?
    ensures (key, Lookup(parameters, key).value) in parameters
  {
    if Lookup(parameters[1..], key).Some? {
      LookupIn(parameters[1..], key);
    }
  }

  lemma LookupPair(cert: string, mode: string)
    ensures Lookup([("cert", cert), ("iat-mode", mode)], "cert") == Some(cert)
    ensures Lookup([("cert", cert), ("iat-mode", mode)], "iat-mode") == Some(mode)
  {
    var tail := [("iat-mode", mode)];
    assert [("cert", cert), ("iat-mode", mode)][1..] == tail;
    assert Lookup(tail[1..], "cert") == None && Lookup(tail[1..], "iat-mode") == None;
  }

  lemma FixedKeys()
    ensures IsKey("cert") && IsKey("iat-mode") && !Has("cert", '=') && !Has("iat-mode", '=')
  {
  }

  /** Normalising obfs4 parameters keeps them well-formed. */
  lemma NormalisedObfs4(parameters: seq<Parameter>)
    requires Obfs4Parameters(parameters)
    requires forall i | 0 <= i < |parameters| :: OptionToken(OptionText(parameters[i])) == Some(parameters[i])
    ensures var cert, mode := Lookup(parameters, "cert").value, Lookup(parameters, "iat-mode").value;
            var normal := [("cert", cert), ("iat-mode", mode)];
            && Distinct(normal) && Obfs4Parameters(normal)
            && forall i | 0 <= i < 2 :: OptionToken(OptionText(normal[i])).Some?
  {
    var cert, mode := Lookup(parameters, "cert").value, Lookup(parameters, "iat-mode").value;
    LookedUp(parameters, "cert");
    LookedUp(parameters, "iat-mode");
    PairIsObfs4(cert, mode);
  }

  lemma LookedUp(parameters: seq<Parameter>, key: string)
    requires Lookup(parameters, key).Some?
    requires forall i | 0 <= i < |parameters| :: OptionToken(OptionText(parameters[i])) == Some(parameters[i])
    ensures OptionToken(OptionText((key, Lookup(parameters, key).value))).Some?
  {
    LookupIn(parameters, key);
  }

  lemma PairIsObfs4(cert: string, mode: string)
    requires IsCert(cert) && mode in ["0", "1", "2"]
    ensures Distinct([("cert", cert), ("iat-mode", mode)]) && Obfs4Parameters([("cert", cert), ("iat-mode", mode)])
  {
    LookupPair(cert, mode);
  }

  // ---- fingerprints ---------------------------------------------------------------------------

  lemma UpperFingerprint(s: string)
    requires IsFingerprint(s)
    ensures IsFingerprint(Upper(s)) && Upper(Upper(s)) == Upper(s)
  {
  }

  lemma FingerprintToken(s: string)
    requires IsFingerprint(s)
    ensures IsToken(s)
  {
  }

  // ---- parsed bridges are canonical -----------------------------------------------------------

  lemma NormaliseSound(transport: string, parameters: seq<Parameter>)
    requires transport in ["vanilla", "obfs4", "snowflake"] && Normalise(transport, parameters).Some?
    requires Distinct(parameters)
    requires forall i | 0 <= i < |parameters| ::
               OptionToken(OptionText(parameters[i])) == Some(parameters[i]) && !Has(parameters[i].0, '=')
    ensures var normal := Normalise(transport, parameters).value;
            && Distinct(normal)
            && (forall i | 0 <= i < |normal| :: OptionToken(OptionText(normal[i])).Some? && !Has(normal[i].0, '='))
            && (transport == "vanilla" ==> normal == [])
            && (transport == "obfs4" ==>
                  Obfs4Parameters(normal) && |normal| == 2 && normal[0].0 == "cert" && normal[1].0 == "iat-mode")
  {
    if transport == "obfs4" {
      NormalisedObfs4(parameters);
      FixedKeys();
    }
  }

  lemma AssembledCanonical(transport: string, address: string, fingerprint: string, options: seq<string>)
    requires transport in ["vanilla", "obfs4", "snowflake"]
    requires Assemble(transport, address, fingerprint, options).Some?
    ensures Canonical(Assemble(transport, address, fingerprint, options).value)
  {
    AddressIdempotent(address);
    UpperFingerprint(fingerprint);
    ParametersParsed(options);
    NormaliseSound(transport, Parameters(options).value);
  }

  lemma ParsedTokensCanonical(tokens: seq<string>)
    requires tokens != [] && ParseTokens(tokens).Some?
    ensures Canonical(ParseTokens(tokens).value)
  {
    var transport := if tokens[0] in ["obfs4", "snowflake"] then tokens[0] else "vanilla";
    var offset := if transport != "vanilla" then 1 else 0;
    AssembledCanonical(transport, tokens[offset], tokens[offset + 1], tokens[offset + 2..]);
  }

  /** Every bridge the parser builds passes the constructor's checks and is canonical. */
  lemma ParsedIsCanonical(line: string)
    requires ParseLine(line).Some?
    ensures Constructible(ParseLine(line).value) && Canonical(ParseLine(line).value)
  {
    ParsedTokensCanonical(Split(line, ' '));
  }

  // ---- canonical bridges parse back ------------------------------------------------------------

  lemma AddressTextIsToken(text: string)
    requires text != "" && All(text, AddressChar)
    ensures IsToken(text)
  {
    forall i | 0 <= i < |text|
      ensures TokenChar(text[i])
    {
      assert AddressChar(text[i]);
    }
  }

  lemma AddressIsToken(address: string)
    requires Address(address) == Some(address)
    ensures IsToken(address) && address !in ["obfs4", "snowflake"]
  {
    AddressChars(address);
    AddressTextIsToken(address);
    TransportsPlain();
  }

  lemma TransportsPlain()
    ensures !Has("obfs4", ':') && !Has("snowflake", ':')
  {
  }

  lemma CanonicalTokens(b: Bridge)
    requires Canonical(b)
    ensures AllTokens(Tokens(b))
  {
    AddressIsToken(b.address);
    FingerprintToken(b.fingerprint);
    ParametersRoundTrip(b.parameters);
    TransportToken(b.transport);
    TokensOf(if b.transport == "vanilla" then [] else [b.transport], b.address, b.fingerprint,
             OptionTokens(b.parameters));
  }

  lemma TransportToken(transport: string)
    requires transport in ["vanilla", "obfs4", "snowflake"]
    ensures IsToken(transport)
  {
  }

  lemma TokensOf(head: seq<string>, address: string, fingerprint: string, options: seq<string>)
    requires forall i | 0 <= i < |head| :: IsToken(head[i])
    requires forall i | 0 <= i < |options| :: IsToken(options[i])
    requires IsToken(address) && IsToken(fingerprint)
    ensures AllTokens(head + [address, fingerprint] + options)
  {
  }

  lemma CanonicalParses(b: Bridge)
    requires Canonical(b)
    ensures ParseTokens(Tokens(b)) == Some(b)
  {
    AddressChars(b.address);
    ReaddressedParses(b, b);
  }

  lemma LineReads(b: Bridge)
    requires Canonical(b)
    ensures Split(Line(b), ' ') == Tokens(b) && Spaced(Line(b))
    ensures SafeInput(Line(b)) <==> |Line(b)| <= MAX_BRIDGE_LINE_LENGTH
  {
    LineIsJoin(b);
    CanonicalTokens(b);
    TokensSeparable(Tokens(b));
    SplitJoin(Tokens(b), ' ');
    JoinSpaced(Tokens(b));
  }

  /** A constructible bridge prints to a line that parses back to it exactly when it is canonical
      and its line is not too long. */
  lemma RoundTripExactly(b: Bridge)
    requires Constructible(b)
    ensures ParseLine(Line(b)) == Some(b) <==> Canonical(b) && |Line(b)| <= MAX_BRIDGE_LINE_LENGTH
  {
    if ParseLine(Line(b)) == Some(b) {
      ParsedIsCanonical(Line(b));
    }
    if Canonical(b) {
      LineReads(b);
      CanonicalParses(b);
    }
  }

  /** An accepted line prints to a line that parses to the same bridge, unless printing made it
      longer than the limit; then the printed line is refused. */
  lemma PrintedLineParses(line: string)
    requires ParseLine(line).Some?
    ensures var b := ParseLine(line).value;
            && ParseLine(Line(b)) == (if |Line(b)| <= MAX_BRIDGE_LINE_LENGTH then Some(b) else None)
            && (|Line(b)| <= MAX_BRIDGE_LINE_LENGTH ==> Line(ParseLine(Line(b)).value) == Line(b))
  {
    ParsedIsCanonical(line);
    var b := ParseLine(line).value;
    LineReads(b);
    CanonicalParses(b);
  }

  /** Different bridges have different lines. */
  lemma LineInjective(a: Bridge, b: Bridge)
    requires Canonical(a) && Canonical(b) && Line(a) == Line(b)
    ensures a == b
  {
    LineReads(a);
    LineReads(b);
    CanonicalParses(a);
    CanonicalParses(b);
  }

  // ---- length ---------------------------------------------------------------------------------

  function TotalLength(tokens: seq<string>): nat {
    if tokens == [] then 0 else |tokens[0]| + TotalLength(tokens[1..])
  }

  lemma {:induction false} JoinLength(tokens: seq<string>, sep: char)
    requires tokens != []
    ensures |Join(tokens, sep)| == TotalLength(tokens) + |tokens| - 1
  {
    if |tokens| > 1 {
      JoinLength(tokens[1..], sep);
    }
  }

  lemma {:induction false} TotalLengthAppend(a: seq<string>, b: seq<string>)
    ensures TotalLength(a + b) == TotalLength(a) + TotalLength(b)
  {
    if a == [] {
      assert a + b == b;
    } else {
      assert (a + b)[1..] == a[1..] + b;
      TotalLengthAppend(a[1..], b);
    }
  }

  lemma Pigeonhole(a: string, b: string, c: string)
    requires a in ["cert", "iat-mode"] && b in ["cert", "iat-mode"] && c in ["cert", "iat-mode"]
    ensures a == b || b == c || a == c
  {
  }

  /** Normalising two obfs4 options only orders them. */
  lemma Obfs4Order(parameters: seq<Parameter>)
    requires Distinct(parameters) && Obfs4Parameters(parameters)
    ensures var cert, mode := Lookup(parameters, "cert").value, Lookup(parameters, "iat-mode").value;
            parameters == [("cert", cert), ("iat-mode", mode)] || parameters == [("iat-mode", mode), ("cert", cert)]
  {
    LookupIn(parameters, "cert");
    LookupIn(parameters, "iat-mode");
    if |parameters| > 2 {
      Pigeonhole(parameters[0].0, parameters[1].0, parameters[2].0);
    }
  }

  lemma OptionLengths(tokens: seq<string>, normal: seq<Parameter>)
    requires Parameters(tokens).Some?
    requires var ps := Parameters(tokens).value;
             normal == ps || (|ps| == 2 && normal == [ps[1], ps[0]])
    ensures |normal| == |tokens| && TotalLength(OptionTokens(normal)) == TotalLength(tokens)
  {
    var ps := Parameters(tokens).value;
    forall i | 0 <= i < |tokens|
      ensures OptionTokens(ps)[i] == tokens[i]
    {
      OptionParsed(tokens[i]);
    }
    assert OptionTokens(ps) == tokens;
    if normal != ps {
      assert OptionTokens(normal) == [tokens[1], tokens[0]] && tokens == [tokens[0], tokens[1]];
      TotalLengthAppend([tokens[0]], [tokens[1]]);
      TotalLengthAppend([tokens[1]], [tokens[0]]);
      assert [tokens[0]] + [tokens[1]] == tokens && [tokens[1]] + [tokens[0]] == OptionTokens(normal);
    }
  }

  lemma LengthOfThree(head: seq<string>, address: string, fingerprint: string, options: seq<string>)
    ensures TotalLength(head + [address, fingerprint] + options)
         == TotalLength(head) + |address| + |fingerprint| + TotalLength(options)
  {
    TotalLengthAppend(head + [address, fingerprint], options);
    TotalLengthAppend(head, [address, fingerprint]);
    assert TotalLength([fingerprint]) == |fingerprint| + TotalLength([fingerprint][1..]);
    assert [address, fingerprint][1..] == [fingerprint];
  }

  /** A canonical IPv4 address comes from an IPv4 text. */
  lemma V4Origin(value: string)
    requires Address(value).Some? && IsV4Address(Address(value).value)
    ensures |Address(value).value| <= |value|
  {
    AddressIdempotent(value);
    AddressChars(value);
    AddressChars(Address(value).value);
    V4AddressLength(value);
  }

  lemma OptionsKeepLength(tokens: seq<string>)
    requires tokens != [] && ParseTokens(tokens).Some?
    ensures var b := ParseTokens(tokens).value;
            var offset := if b.transport == "vanilla" then 0 else 1;
            && offset + 2 <= |tokens|
            && |OptionTokens(b.parameters)| == |tokens| - offset - 2
            && TotalLength(OptionTokens(b.parameters)) == TotalLength(tokens[offset + 2..])
  {
    var b := ParseTokens(tokens).value;
    var offset := if b.transport == "vanilla" then 0 else 1;
    var options := tokens[offset + 2..];
    ParametersParsed(options);
    if b.transport == "obfs4" {
      Obfs4Order(Parameters(options).value);
    }
    OptionLengths(options, b.parameters);
  }

  /** Which parts of a bridge come from which tokens. */
  lemma ParsedParts(tokens: seq<string>)
    requires tokens != [] && ParseTokens(tokens).Some?
    ensures var b := ParseTokens(tokens).value;
            var offset := if b.transport == "vanilla" then 0 else 1;
            && offset + 2 <= |tokens|
            && tokens[..offset] == (if b.transport == "vanilla" then [] else [b.transport])
            && Address(tokens[offset]) == Some(b.address)
            && |b.fingerprint| == |tokens[offset + 1]|
  {
  }

  lemma TokensShrink(tokens: seq<string>)
    requires tokens != [] && ParseTokens(tokens).Some?
    requires IsV4Address(ParseTokens(tokens).value.address)
    ensures |Tokens(ParseTokens(tokens).value)| == |tokens|
    ensures TotalLength(Tokens(ParseTokens(tokens).value)) <= TotalLength(tokens)
  {
    ParsedParts(tokens);
    OptionsKeepLength(tokens);
    var b := ParseTokens(tokens).value;
    var offset := if b.transport == "vanilla" then 0 else 1;
    V4Origin(tokens[offset]);
    ShrinksTo(b, tokens, offset);
  }

  lemma ShrinksTo(b: Bridge, tokens: seq<string>, offset: nat)
    requires offset + 2 <= |tokens| && tokens[..offset] == (if b.transport == "vanilla" then [] else [b.transport])
    requires |b.address| <= |tokens[offset]| && |b.fingerprint| == |tokens[offset + 1]|
    requires |OptionTokens(b.parameters)| == |tokens| - offset - 2
    requires TotalLength(OptionTokens(b.parameters)) == TotalLength(tokens[offset + 2..])
    ensures |Tokens(b)| == |tokens| && TotalLength(Tokens(b)) <= TotalLength(tokens)
  {
    var head := tokens[..offset];
    assert tokens == head + [tokens[offset], tokens[offset + 1]] + tokens[offset + 2..];
    LengthOfThree(head, tokens[offset], tokens[offset + 1], tokens[offset + 2..]);
    LengthOfThree(head, b.address, b.fingerprint, OptionTokens(b.parameters));
  }

  /** An IPv4 line never grows when it is printed, so its printed line always parses back. */
  lemma V4LineShrinks(line: string)
    requires ParseLine(line).Some? && IsV4Address(ParseLine(line).value.address)
    ensures |Line(ParseLine(line).value)| <= |line|
    ensures ParseLine(Line(ParseLine(line).value)) == ParseLine(line)
  {
    var b := ParseLine(line).value;
    TokensShrink(Split(line, ' '));
    JoinSplit(line, ' ');
    JoinLength(Split(line, ' '), ' ');
    LineIsJoin(b);
    JoinLength(Tokens(b), ' ');
    PrintedLineParses(line);
  }

  /** The bare form of a bracketed IPv6 address is two characters shorter and means the same, so a
      line at the limit can print to a line beyond it. */
  lemma BareV6LineGrows(b: Bridge, hextets: seq<nat>, port: string)
    requires Canonical(b) && IsV6(hextets) && IsPort(port)
    requires b.address == "[" + PrintV6(hextets) + "]" + ":" + port
    ensures var bare := Line(b.(address := PrintV6(hextets) + ":" + port));
            && |bare| == |Line(b)| - 2
            && (|bare| <= MAX_BRIDGE_LINE_LENGTH ==> ParseLine(bare) == Some(b))
  {
    var written := b.(address := PrintV6(hextets) + ":" + port);
    BareV6Address(hextets, port);
    CanonicalTokens(b);
    ReaddressedTokens(b, written);
    ReplaceToken(Tokens(b), if b.transport == "vanilla" then 0 else 1, written.address);
    ReaddressedParses(b, written);
    SameShapeLength(b, written);
    TokensRead(written, b);
  }

  lemma TokensRead(written: Bridge, b: Bridge)
    requires AllTokens(Tokens(written)) && ParseTokens(Tokens(written)) == Some(b)
    ensures ParseLine(Line(written)) == if |Line(written)| <= MAX_BRIDGE_LINE_LENGTH then Some(b) else None
  {
    LineIsJoin(written);
    TokensSeparable(Tokens(written));
    SplitJoin(Tokens(written), ' ');
    JoinSpaced(Tokens(written));
  }

  lemma SameShapeLength(b: Bridge, written: Bridge)
    requires written == b.(address := written.address)
    ensures |Line(written)| - |written.address| == |Line(b)| - |b.address|
  {
    var head := if b.transport == "vanilla" then [] else [b.transport];
    LineIsJoin(b);
    LineIsJoin(written);
    JoinLength(Tokens(b), ' ');
    JoinLength(Tokens(written), ' ');
    LengthOfThree(head, b.address, b.fingerprint, OptionTokens(b.parameters));
    LengthOfThree(head, written.address, b.fingerprint, OptionTokens(b.parameters));
  }

  lemma BareV6Address(hextets: seq<nat>, port: string)
    requires IsV6(hextets) && IsPort(port)
    ensures Address(PrintV6(hextets) + ":" + port) == Some("[" + PrintV6(hextets) + "]" + ":" + port)
    ensures IsToken(PrintV6(hextets) + ":" + port) && Has(PrintV6(hextets) + ":" + port, ':')
  {
    var text := PrintV6(hextets);
    V6Chars(hextets);
    assert text != "" && V6Char(text[0]);
    SplitPlain(text, port);
    V6ParsesBack(hextets);
    BareIsToken(text, port);
  }

  lemma BareIsToken(text: string, port: string)
    requires All(text, V6Char) && IsDecimal(port)
    ensures IsToken(text + ":" + port) && Has(text + ":" + port, ':')
  {
    var bare := text + ":" + port;
    assert bare[|text|] == ':';
    forall i | 0 <= i < |bare|
      ensures TokenChar(bare[i])
    {
      if i < |text| {
        assert bare[i] == text[i] && V6Char(text[i]);
      } else if i > |text| {
        assert bare[i] == port[i - |text| - 1];
      }
    }
  }

  lemma ReplaceToken(tokens: seq<string>, i: nat, token: string)
    requires AllTokens(tokens) && i < |tokens| && IsToken(token)
    ensures AllTokens(tokens[i := token])
  {
  }

  lemma ReaddressedTokens(b: Bridge, written: Bridge)
    requires written == b.(address := written.address)
    ensures Tokens(written) == Tokens(b)[if b.transport == "vanilla" then 0 else 1 := written.address]
  {
  }

  /** Replacing the address by another text of it changes neither the tokens' form nor the bridge. */
  lemma ReaddressedParses(b: Bridge, written: Bridge)
    requires Canonical(b) && written == b.(address := written.address)
    requires Address(written.address) == Some(b.address) && Has(written.address, ':')
    ensures ParseTokens(Tokens(written)) == Some(b)
  {
    TokenParts(written);
    TransportsPlain();
    CanonicalAssembles(b, written.address);
  }

  lemma NormaliseFixed(b: Bridge)
    requires Canonical(b)
    ensures Normalise(b.transport, b.parameters) == Some(b.parameters)
  {
    if b.transport == "obfs4" {
      var cert, mode := b.parameters[0].1, b.parameters[1].1;
      assert b.parameters == [("cert", cert), ("iat-mode", mode)];
      LookupPair(cert, mode);
    }
  }

  lemma CanonicalAssembles(b: Bridge, address: string)
    requires Canonical(b) && Address(address) == Some(b.address)
    ensures Assemble(b.transport, address, b.fingerprint, OptionTokens(b.parameters)) == Some(b)
  {
    ParametersRoundTrip(b.parameters);
    NormaliseFixed(b);
  }

  lemma TokenParts(b: Bridge)
    ensures var offset := if b.transport == "vanilla" then 0 else 1;
            && |Tokens(b)| == offset + 2 + |b.parameters| && Tokens(b)[offset] == b.address
            && Tokens(b)[offset + 1] == b.fingerprint && Tokens(b)[offset + 2..] == OptionTokens(b.parameters)
    ensures b.transport != "vanilla" ==> Tokens(b)[0] == b.transport
  {
  }
}
