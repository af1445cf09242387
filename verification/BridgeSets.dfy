/** All-or-nothing parsing of a whole response of bridge lines. */
module BridgeSets {
  import opened Text
  import opened Lines
  import opened Addresses
  import opened AddressLaws
  import opened Bridges
  import opened BridgeLaws
  import opened BridgeLimits

  // ---- the obfs4 regular expression --------------------------------------------------------

  predicate IsSpaces(s: string) {
    s != "" && forall i | 0 <= i < |s| :: IsSpace(s[i])
  }

  predicate IsDotted(s: string) {
    s != "" && forall i | 0 <= i < |s| :: IsDigit(s[i]) || s[i] == '.'
  }

  /** `[1-9]\d{0,4}` */
  predicate IsShortPort(s: string) {
    0 < |s| <= 5 && s[0] != '0' && forall i | 0 <= i < |s| :: IsDigit(s[i])
  }

  predicate IsSolid(s: string) {
    s != "" && forall i | 0 <= i < |s| :: !IsSpace(s[i])
  }

  /** `OBFS4_RESULT_RE.fullmatch`: some way of cutting the line fits the pattern. */
  ghost predicate FullMatch(line: string) {
    exists s1, a, p, s2, f, s3, c, s4, m ::
      Matches(line, s1, a, p, s2, f, s3, c, s4, m)
  }

  predicate Matches(line: string, s1: string, a: string, p: string, s2: string, f: string, s3: string, c: string,
                    s4: string, m: string) {
    && line == "obfs4" + (s1 + ((a + ":" + p) + (s2 + (f + (s3 + (("cert=" + c) + (s4 + ("iat-mode=" + m))))))))
    && IsSpaces(s1) && IsSpaces(s2) && IsSpaces(s3) && IsSpaces(s4)
    && IsDotted(a) && IsShortPort(p) && IsFingerprint(f) && IsSolid(c) && m in ["0", "1"]
  }

  /** The same pattern over the tokens of a line. */
  predicate TokensMatch(tokens: seq<string>) {
    && |tokens| == 5
    && tokens[0] == "obfs4"
    && tokens[1] != "" && tokens[1][0] != '['
    && HostAndPort(tokens[1]).Some?
    && IsDotted(HostAndPort(tokens[1]).value.0) && IsShortPort(HostAndPort(tokens[1]).value.1)
    && IsFingerprint(tokens[2])
    && "cert=" <= tokens[3] && IsSolid(tokens[3][5..])
    && tokens[4] in ["iat-mode=0", "iat-mode=1"]
  }

  /** White space comes as single blanks. */
  predicate Tidy(s: string) {
    && (forall i | 0 <= i < |s| :: IsSpace(s[i]) ==> s[i] == ' ')
    && (forall i | 0 <= i < |s| - 1 :: !(s[i] == ' ' && s[i + 1] == ' '))
  }

  lemma WideGap(head: string, gap: string, rest: string)
    requires IsSpaces(gap) && |gap| > 1
    ensures !Tidy(head + (gap + rest))
  {
    var s := head + (gap + rest);
    assert s[|head|] == gap[0] && s[|head| + 1] == gap[1];
  }

  lemma PeelGap(head: string, gap: string, rest: string)
    requires Tidy(head + (gap + rest)) && IsSpaces(gap)
    ensures gap == " " && Tidy(rest)
  {
    var s := head + (gap + rest);
    assert forall i | 0 <= i < |gap| :: s[|head| + i] == gap[i];
    assert forall i | 0 <= i < |rest| :: s[|head| + |gap| + i] == rest[i];
    if |gap| > 1 {
      WideGap(head, gap, rest);
    }
    forall i | 0 <= i < |rest| - 1
      ensures !(rest[i] == ' ' && rest[i + 1] == ' ')
    {
      assert rest[i] == s[|head| + |gap| + i] && rest[i + 1] == s[|head| + |gap| + i + 1];
    }
  }

  lemma TokenCharSolid(c: char)
    requires TokenChar(c)
    ensures !IsSpace(c)
  {
  }

  lemma {:induction false} JoinOnlySpaces(tokens: seq<string>)
    requires AllTokens(tokens)
    ensures forall i | 0 <= i < |Join(tokens, ' ')| :: IsSpace(Join(tokens, ' ')[i]) ==> Join(tokens, ' ')[i] == ' '
  {
    forall i | 0 <= i < |tokens[0]|
      ensures !IsSpace(tokens[0][i])
    {
      TokenCharSolid(tokens[0][i]);
    }
    if |tokens| > 1 {
      JoinOnlySpaces(tokens[1..]);
      var s, n := Join(tokens, ' '), |tokens[0]|;
      assert forall i | 0 <= i < |s| ::
          s[i] == if i < n then tokens[0][i] else if i == n then ' ' else Join(tokens[1..], ' ')[i - n - 1];
    }
  }

  lemma JoinFive(t0: string, t1: string, t2: string, t3: string, t4: string)
    ensures Join([t0, t1, t2, t3, t4], ' ') == t0 + (" " + (t1 + (" " + (t2 + (" " + (t3 + (" " + t4)))))))
  {
    JoinPair(t0, [t1, t2, t3, t4]);
    JoinPair(t1, [t2, t3, t4]);
    JoinPair(t2, [t3, t4]);
    JoinPair(t3, [t4]);
    assert [t0] + [t1, t2, t3, t4] == [t0, t1, t2, t3, t4];
    assert [t1] + [t2, t3, t4] == [t1, t2, t3, t4];
    assert [t2] + [t3, t4] == [t2, t3, t4];
    assert [t3] + [t4] == [t3, t4];
  }

  lemma JoinPair(head: string, tail: seq<string>)
    requires tail != []
    ensures Join([head] + tail, ' ') == head + (" " + Join(tail, ' '))
  {
    JoinCons(head, tail);
    assert head + " " + Join(tail, ' ') == head + (" " + Join(tail, ' '));
  }

  predicate SpaceFree(s: string) {
    forall i | 0 <= i < |s| :: s[i] != ' '
  }

  lemma CutSeparable(cut: seq<string>)
    requires cut != [] && forall i | 0 <= i < |cut| :: SpaceFree(cut[i])
    ensures Split(Join(cut, ' '), ' ') == cut
  {
    forall i | 0 <= i < |cut|
      ensures !Has(cut[i], ' ')
    {
      assert SpaceFree(cut[i]);
    }
    SplitJoin(cut, ' ');
  }

  lemma FieldsSpaceFree(a: string, p: string, f: string, c: string, m: string)
    requires IsDotted(a) && IsShortPort(p) && IsFingerprint(f) && IsSolid(c) && m in ["0", "1"]
    ensures SpaceFree(a + ":" + p) && SpaceFree(f) && SpaceFree("cert=" + c) && SpaceFree("iat-mode=" + m)
            && SpaceFree("obfs4")
  {
    assert SpaceFree("cert=") && SpaceFree("iat-mode=0") && SpaceFree("iat-mode=1");
  }

  /** On a line made of tokens, any match of the pattern cuts it at its single spaces. */
  lemma MatchCutsTokens(tokens: seq<string>, s1: string, a: string, p: string, s2: string, f: string, s3: string,
                        c: string, s4: string, m: string)
    requires AllTokens(tokens) && Matches(Join(tokens, ' '), s1, a, p, s2, f, s3, c, s4, m)
    ensures tokens == ["obfs4", a + ":" + p, f, "cert=" + c, "iat-mode=" + m]
  {
    JoinSpaced(tokens);
    JoinOnlySpaces(tokens);
    var t1, t3, t4 := a + ":" + p, "cert=" + c, "iat-mode=" + m;
    PeelGap("obfs4", s1, t1 + (s2 + (f + (s3 + (t3 + (s4 + t4))))));
    PeelGap(t1, s2, f + (s3 + (t3 + (s4 + t4))));
    PeelGap(f, s3, t3 + (s4 + t4));
    PeelGap(t3, s4, t4);
    JoinFive("obfs4", t1, f, t3, t4);
    FieldsSpaceFree(a, p, f, c, m);
    CutSeparable(["obfs4", t1, f, t3, t4]);
    TokensSeparable(tokens);
    SplitJoin(tokens, ' ');
  }

  lemma TokensThenMatch(tokens: seq<string>)
    requires TokensMatch(tokens)
    ensures FullMatch(Join(tokens, ' '))
  {
    var (a, p) := HostAndPort(tokens[1]).value;
    var c, m := tokens[3][5..], tokens[4][9..];
    DottedAddress(tokens[1]);
    assert tokens[3] == "cert=" + c;
    assert tokens[4] == "iat-mode=" + m;
    assert m == "0" || m == "1";
    assert tokens == ["obfs4", a + ":" + p, tokens[2], "cert=" + c, "iat-mode=" + m];
    JoinFive("obfs4", a + ":" + p, tokens[2], "cert=" + c, "iat-mode=" + m);
    assert IsSpaces(" ");
    assert Matches(Join(tokens, ' '), " ", a, p, " ", tokens[2], " ", c, " ", m);
  }

  /** A host of digits and dots is not in brackets. */
  lemma DottedAddress(value: string)
    requires HostAndPort(value).Some? && IsDotted(HostAndPort(value).value.0) && IsShortPort(HostAndPort(value).value.1)
    requires value[0] != '['
    ensures value == HostAndPort(value).value.0 + ":" + HostAndPort(value).value.1
  {
  }

  lemma MatchThenTokens(tokens: seq<string>)
    requires AllTokens(tokens) && FullMatch(Join(tokens, ' '))
    ensures TokensMatch(tokens)
  {
    var s1, a, p, s2, f, s3, c, s4, m :| Matches(Join(tokens, ' '), s1, a, p, s2, f, s3, c, s4, m);
    MatchCutsTokens(tokens, s1, a, p, s2, f, s3, c, s4, m);
    SplitPlain(a, p);
    assert tokens[1] == a + ":" + p && tokens[1][0] == a[0];
    assert ("cert=" + c)[5..] == c;
    assert "iat-mode=" + "0" == "iat-mode=0" && "iat-mode=" + "1" == "iat-mode=1";
  }

  /** What the pattern adds to the parser's own checks: an IPv4 host, and a mode other than 2. */
  predicate PlainObfs4(b: Bridge) {
    IsV4Address(b.address) && Lookup(b.parameters, "iat-mode") in [Some("0"), Some("1")]
  }

  lemma CanonicalPort(address: string)
    requires Address(address) == Some(address)
    ensures IsPort(HostAndPort(address).value.1) && IsShortPort(HostAndPort(address).value.1)
  {
    AddressShape(address);
    var port := HostAndPort(address).value.1;
    PortLength(port);
  }

  lemma AddressDotted(address: string)
    requires Address(address) == Some(address)
    ensures IsV4Address(address) <==>
              address[0] != '[' && IsDotted(HostAndPort(address).value.0) && IsShortPort(HostAndPort(address).value.1)
  {
    AddressChars(address);
    AddressShape(address);
    CanonicalPort(address);
    if IsV4Address(address) {
      V4IsDotted(HostAndPort(address).value.0);
    }
  }

  lemma V4IsDotted(host: string)
    requires All(host, V4Char) && host != ""
    ensures IsDotted(host)
  {
    forall i | 0 <= i < |host|
      ensures IsDigit(host[i]) || host[i] == '.'
    {
      assert V4Char(host[i]);
    }
  }

  lemma CertSolid(cert: string)
    requires IsCert(cert)
    ensures IsSolid(cert)
  {
    forall i | 0 <= i < |cert|
      ensures !IsSpace(cert[i])
    {
      assert CertChar(cert[i]);
    }
  }

  lemma PairTokens(cert: string, mode: string)
    ensures OptionTokens([("cert", cert), ("iat-mode", mode)]) == ["cert=" + cert, "iat-mode=" + mode]
  {
    var tokens := OptionTokens([("cert", cert), ("iat-mode", mode)]);
    assert tokens[0] == "cert" + "=" + cert && tokens[1] == "iat-mode" + "=" + mode;
    assert "cert" + "=" == "cert=" && "iat-mode" + "=" == "iat-mode=";
  }

  lemma Obfs4Pair(b: Bridge)
    requires Canonical(b) && b.transport == "obfs4"
    ensures |b.parameters| == 2 && b.parameters == [("cert", b.parameters[0].1), ("iat-mode", b.parameters[1].1)]
    ensures IsCert(b.parameters[0].1) && Lookup(b.parameters, "iat-mode") == Some(b.parameters[1].1)
    ensures Address(b.address) == Some(b.address) && IsFingerprint(b.fingerprint)
  {
    var cert, mode := b.parameters[0].1, b.parameters[1].1;
    assert b.parameters == [("cert", cert), ("iat-mode", mode)];
    LookupPair(cert, mode);
  }

  lemma Obfs4Tokens(b: Bridge, cert: string, mode: string)
    requires b.transport == "obfs4" && b.parameters == [("cert", cert), ("iat-mode", mode)]
    ensures Tokens(b) == ["obfs4", b.address, b.fingerprint, "cert=" + cert, "iat-mode=" + mode]
  {
    PairTokens(cert, mode);
  }

  lemma ModeTokens(mode: string)
    ensures "iat-mode=" + mode in ["iat-mode=0", "iat-mode=1"] <==> mode in ["0", "1"]
  {
    assert ("iat-mode=" + mode)[9..] == mode;
    assert "iat-mode=0"[9..] == "0" && "iat-mode=1"[9..] == "1";
    assert "iat-mode=" + "0" == "iat-mode=0" && "iat-mode=" + "1" == "iat-mode=1";
  }

  lemma FiveTokensMatch(address: string, fingerprint: string, cert: string, mode: string)
    requires Address(address) == Some(address) && IsFingerprint(fingerprint) && IsCert(cert)
    ensures TokensMatch(["obfs4", address, fingerprint, "cert=" + cert, "iat-mode=" + mode])
       <==> IsV4Address(address) && mode in ["0", "1"]
  {
    AddressDotted(address);
    AddressChars(address);
    CertSolid(cert);
    ModeTokens(mode);
    var tokens := ["obfs4", address, fingerprint, "cert=" + cert, "iat-mode=" + mode];
    assert tokens[3][5..] == cert;
  }

  lemma CanonicalTokensMatch(b: Bridge)
    requires Canonical(b) && b.transport == "obfs4"
    ensures TokensMatch(Tokens(b)) <==> PlainObfs4(b)
  {
    Obfs4Pair(b);
    var cert, mode := b.parameters[0].1, b.parameters[1].1;
    Obfs4Tokens(b, cert, mode);
    FiveTokensMatch(b.address, b.fingerprint, cert, mode);
  }

  /** On the printed line of a parsed obfs4 bridge the regular expression matches exactly when the
      host is IPv4 and the mode is 0 or 1. */
  lemma PatternMeaning(b: Bridge)
    requires Canonical(b) && b.transport == "obfs4"
    ensures FullMatch(Line(b)) <==> PlainObfs4(b)
    ensures FullMatch(Line(b)) <==> TokensMatch(Split(Line(b), ' '))
  {
    LineReads(b);
    LineIsJoin(b);
    CanonicalTokens(b);
    CanonicalTokensMatch(b);
    if TokensMatch(Tokens(b)) {
      TokensThenMatch(Tokens(b));
    }
    if FullMatch(Line(b)) {
      MatchThenTokens(Tokens(b));
    }
  }

  // ---- a whole set ---------------------------------------------------------------------------

  datatype SetError = EmptyResult | InvalidLine | MalformedObfs4 | InvalidAddress | InvalidPort | NoBridges

  datatype SetResult = Parsed(bridges: seq<Bridge>) | Refused(error: SetError)

  /** A line without its break, unless it is blank. */
  function Visible(line: string): seq<string> {
    if Trim(Chomp(line)) == "" then [] else [Chomp(line)]
  }

  /** The lines of `text.splitlines()` that are not blank. */
  function NonBlank(lines: seq<string>): seq<string> {
    FlatMap(lines, Visible)
  }

  /** A line the set accepts. */
  predicate Wanted(line: string, transport: Option<string>) {
    && ParseLine(line).Some?
    && (transport.Some? ==> ParseLine(line).value.transport == transport.value)
    && (ParseLine(line).value.transport == "obfs4" ==> PlainObfs4(ParseLine(line).value))
  }

  predicate AllWanted(lines: seq<string>, transport: Option<string>) {
    forall i | 0 <= i < |lines| :: Wanted(lines[i], transport)
  }

  /** One line of the loop in `parse_bridge_set`. Once the pattern has matched, the later checks of
      the address and the port cannot fail. */
  method CheckLine(line: string, transport: Option<string>) returns (r: SetResult)
    ensures r.Parsed? <==> Wanted(line, transport)
    ensures r.Parsed? ==> r.bridges == [ParseLine(line).value]
    ensures r.Refused? ==> r.error in {InvalidLine, MalformedObfs4}
    ensures r == Refused(InvalidLine)
       <==> ParseLine(line).None? || (transport.Some? && ParseLine(line).value.transport != transport.value)
  {
    var parsed := ParseBridgeLine(line);
    if parsed.None? || (transport.Some? && parsed.value.transport != transport.value) {
      return Refused(InvalidLine);
    }
    var bridge := parsed.value;
    ParsedIsCanonical(line);
    if bridge.transport == "obfs4" {
      PatternMeaning(bridge);
      if !TokensMatch(Split(Line(bridge), ' ')) {
        return Refused(MalformedObfs4);
      }
      LaterChecksPass(bridge);
    }
    r := Parsed([bridge]);
  }

  /** `IPv4Address(host)` succeeds and the port is in range for every bridge the pattern lets through. */
  lemma LaterChecksPass(b: Bridge)
    requires Canonical(b) && b.transport == "obfs4" && FullMatch(Line(b))
    ensures var n := AfterLast(b.address, ':');
            && n > 0 && ParseV4(b.address[..n - 1]).Some?
            && IsDecimal(b.address[n..]) && (DecimalNumeral(b.address[n..]); 1 <= FromBase(b.address[n..], 10) <= 65535)
  {
    PatternMeaning(b);
    AddressChars(b.address);
    CanonicalPort(b.address);
  }

  /** The line parses to a bridge of the transport asked for, whose printed form the pattern matches if it is
      one of obfs4. */
  ghost predicate Accepts(line: string, transport: Option<string>) {
    var parsed := ParseLine(line);
    && parsed.Some?
    && (transport.None? || parsed.value.transport == transport.value)
    && (parsed.value.transport == "obfs4" ==> FullMatch(Line(parsed.value)))
  }

  lemma AcceptsExactly(line: string, transport: Option<string>)
    ensures Accepts(line, transport) <==> Wanted(line, transport)
  {
    if ParseLine(line).Some? {
      ParsedIsCanonical(line);
      if ParseLine(line).value.transport == "obfs4" {
        PatternMeaning(ParseLine(line).value);
      }
    }
  }

  /** The texts the set accepts, line by line: blank lines do not matter, and one other is enough to refuse. */
  lemma SetExactly(lines: seq<string>, transport: Option<string>)
    ensures NonBlank(lines) != [] && AllWanted(NonBlank(lines), transport)
       <==> && (exists i | 0 <= i < |lines| :: Trim(Chomp(lines[i])) != "")
            && forall i | 0 <= i < |lines| && Trim(Chomp(lines[i])) != "" :: Accepts(Chomp(lines[i]), transport)
  {
    NonBlankExactly(lines);
    var visible := NonBlank(lines);
    if i :| 0 <= i < |lines| && Trim(Chomp(lines[i])) != "" {
      assert Chomp(lines[i]) in visible;
    }
    if visible != [] {
      assert visible[0] in visible;
    }
    AllWantedExactly(visible, transport);
    if forall line | line in visible :: Accepts(line, transport) {
      forall i | 0 <= i < |lines| && Trim(Chomp(lines[i])) != ""
        ensures Accepts(Chomp(lines[i]), transport)
      {
        assert Chomp(lines[i]) in visible;
      }
    } else {
      var line :| line in visible && !Accepts(line, transport);
      var i :| 0 <= i < |lines| && Trim(Chomp(lines[i])) != "" && line == Chomp(lines[i]);
      assert !Accepts(Chomp(lines[i]), transport);
    }
  }

  lemma AllWantedExactly(visible: seq<string>, transport: Option<string>)
    ensures AllWanted(visible, transport) <==> forall line | line in visible :: Accepts(line, transport)
  {
    forall line | line in visible
      ensures Accepts(line, transport) <==> Wanted(line, transport)
    {
      AcceptsExactly(line, transport);
    }
    if AllWanted(visible, transport) {
      forall line | line in visible
        ensures Wanted(line, transport)
      {
        var i :| 0 <= i < |visible| && visible[i] == line;
      }
    }
  }

  lemma {:induction false} NonBlankExactly(lines: seq<string>)
    ensures forall line :: line in NonBlank(lines)
              <==> exists i | 0 <= i < |lines| :: Trim(Chomp(lines[i])) != "" && line == Chomp(lines[i])
    decreases |lines|
  {
    if lines != [] {
      NonBlankExactly(lines[1..]);
      assert NonBlank(lines) == Visible(lines[0]) + NonBlank(lines[1..]);
      forall line
        ensures line in NonBlank(lines)
           <==> exists i | 0 <= i < |lines| :: Trim(Chomp(lines[i])) != "" && line == Chomp(lines[i])
      {
        if i :| 0 <= i < |lines| && Trim(Chomp(lines[i])) != "" && line == Chomp(lines[i]) {
          assert i > 0 ==> lines[i] == lines[1..][i - 1];
        }
        if line in NonBlank(lines[1..]) {
          var i :| 0 <= i < |lines| - 1 && Trim(Chomp(lines[1..][i])) != "" && line == Chomp(lines[1..][i]);
          assert lines[i + 1] == lines[1..][i];
        }
      }
    }
  }

  /** An obfs4 bridge of an accepted set has an IPv4 address and the mode 0 or 1. */
  lemma AcceptedObfs4(line: string, transport: Option<string>)
    requires Accepts(line, transport) && ParseLine(line).value.transport == "obfs4"
    ensures var b := ParseLine(line).value;
            IsV4Address(b.address) && Lookup(b.parameters, "iat-mode") in [Some("0"), Some("1")]
  {
    ParsedIsCanonical(line);
    PatternMeaning(ParseLine(line).value);
  }

  /** The bridges are the parses of the lines, in order. */
  predicate AllParsed(lines: seq<string>, bridges: seq<Bridge>, transport: Option<string>) {
    |bridges| == |lines|
    && forall i | 0 <= i < |lines| :: Wanted(lines[i], transport) && ParseLine(lines[i]) == Some(bridges[i])
  }

  lemma ParsedSnoc(lines: seq<string>, bridges: seq<Bridge>, transport: Option<string>, line: string,
                   parsed: seq<Bridge>)
    requires AllParsed(lines, bridges, transport) && Wanted(line, transport) && parsed == [ParseLine(line).value]
    ensures AllParsed(lines + [line], bridges + parsed, transport)
  {
  }

  lemma Unwanted(lines: seq<string>, i: nat, transport: Option<string>)
    requires i < |lines| && Visible(lines[i]) == [Chomp(lines[i])] && !Wanted(Chomp(lines[i]), transport)
    ensures NonBlank(lines) != [] && !AllWanted(NonBlank(lines), transport)
  {
    FlatMapStep(lines, i, Visible);
    FlatMapPrefix(lines, i + 1, Visible);
    var n := |NonBlank(lines[..i])|;
    assert NonBlank(lines[..i + 1])[n] == Chomp(lines[i]);
    assert NonBlank(lines)[n] == Chomp(lines[i]);
  }

  lemma ParsedWanted(lines: seq<string>, bridges: seq<Bridge>, transport: Option<string>)
    requires AllParsed(lines, bridges, transport)
    ensures AllWanted(lines, transport)
  {
  }

  /** `parse_bridge_set`: all lines or nothing. */
  method ParseBridgeSet(text: string, transport: Option<string>) returns (r: SetResult)
    ensures var lines := NonBlank(SplitLines(text));
            && (r.Parsed? <==> lines != [] && AllWanted(lines, transport))
            && (r.Parsed? ==> AllParsed(lines, r.bridges, transport))
    ensures r.Refused? ==> r.error !in {InvalidAddress, InvalidPort}
    ensures r == Refused(EmptyResult) <==> SplitLines(text) == []
    ensures r == Refused(NoBridges) <==> SplitLines(text) != [] && NonBlank(SplitLines(text)) == []
  {
    var lines := SplitLines(text);
    if lines == [] {
      return Refused(EmptyResult);
    }
    var bridges: seq<Bridge> := [];
    for i := 0 to |lines|
      invariant AllParsed(NonBlank(lines[..i]), bridges, transport)
    {
      FlatMapStep(lines, i, Visible);
      var line := Chomp(lines[i]);
      if Trim(line) != "" {
        var checked := CheckLine(line, transport);
        if checked.Refused? {
          Unwanted(lines, i, transport);
          return checked;
        }
        ParsedSnoc(NonBlank(lines[..i]), bridges, transport, line, checked.bridges);
        bridges := bridges + checked.bridges;
      }
    }
    assert lines[..|lines|] == lines;
    ParsedWanted(NonBlank(lines), bridges, transport);
    if bridges == [] {
      return Refused(NoBridges);
    }
    r := Parsed(bridges);
  }
}
