/** Where the round trip of bridge lines ends: every IPv6 address has an accepted line that
    outgrows the length limit when it is printed. And what an accepted line can contain. */
module BridgeLimits {
  import opened Text
  import opened Addresses
  import opened AddressLaws
  import opened Bridges
  import opened BridgeLaws

  lemma PortLength(port: string)
    requires IsPort(port)
    ensures |port| <= 5
  {
    DecimalNumeral(port);
    var n := FromBase(port, 10);
    DecimalLength(n);
  }

  lemma DecimalLength(n: nat)
    requires n < 100000
    ensures |ToBase(n, 10)| <= 5
  {
    if n >= 10 {
      var a := n / 10;
      assert ToBase(n, 10) == ToBase(a, 10) + [DigitChar(n % 10)];
      if a >= 10 {
        var b := a / 10;
        assert ToBase(a, 10) == ToBase(b, 10) + [DigitChar(a % 10)];
        if b >= 10 {
          var c := b / 10;
          assert ToBase(b, 10) == ToBase(c, 10) + [DigitChar(b % 10)];
          if c >= 10 {
            var d := c / 10;
            assert d < 10;
            assert ToBase(c, 10) == ToBase(d, 10) + [DigitChar(c % 10)];
          }
        }
      }
    }
  }

  lemma {:induction false} ShortParts(parts: seq<string>)
    requires forall i | 0 <= i < |parts| :: |parts[i]| <= 4
    ensures TotalLength(parts) <= 4 * |parts|
  {
    if parts != [] {
      ShortParts(parts[1..]);
    }
  }

  lemma CompressShort(h: seq<nat>, i: nat)
    requires IsV6(h) && i < |Compress(h)|
    ensures |Compress(h)[i]| <= 4
  {
    CompressedFrom(h, i);
  }

  lemma CompressFew(h: seq<nat>)
    requires IsV6(h)
    ensures 3 <= |Compress(h)| <= 9
  {
    var s := BestStart(h, 0);
    var e := s + ZeroRun(h, s);
    if e > s + 1 {
      AroundAt(HexParts(h[..s]), HexParts(h[e..]), 0);
    }
  }

  lemma V6Length(h: seq<nat>)
    requires IsV6(h)
    ensures |PrintV6(h)| <= 44
  {
    CompressFew(h);
    forall i | 0 <= i < |Compress(h)|
      ensures |Compress(h)[i]| <= 4
    {
      CompressShort(h, i);
    }
    ShortParts(Compress(h));
    JoinLength(Compress(h), ':');
  }

  function Letters(n: nat): (s: string)
    ensures |s| == n && forall i | 0 <= i < n :: s[i] == 'a'
  {
    seq(n, _ => 'a')
  }

  /** A snowflake bridge at the given address whose printed line has `length` characters. */
  function Snowflake(address: string, length: nat): Bridge
    requires length >= |address| + 54
  {
    Bridge("snowflake", address, seq(40, _ => '0'), [("k", Letters(length - |address| - 54))])
  }

  lemma SnowflakeLength(address: string, length: nat)
    requires length >= |address| + 54
    ensures |Line(Snowflake(address, length))| == length
  {
    var b := Snowflake(address, length);
    assert OptionsText(b.parameters) == " " + ("k=" + b.parameters[0].1) + OptionsText(b.parameters[1..]);
    assert OptionsText(b.parameters[1..]) == "";
  }

  lemma OneOption(address: string, fingerprint: string, p: Parameter)
    requires Address(address) == Some(address) && IsFingerprint(fingerprint) && Upper(fingerprint) == fingerprint
    requires OptionToken(OptionText(p)).Some? && !Has(p.0, '=')
    ensures Canonical(Bridge("snowflake", address, fingerprint, [p]))
  {
  }

  lemma LettersOption(n: nat)
    requires n > 0
    ensures OptionToken(OptionText(("k", Letters(n)))).Some? && !Has("k", '=')
  {
    assert IsKey("k") && !Has("k", '=');
    OptionSplit("k", Letters(n));
  }

  lemma SnowflakeCanonical(address: string, length: nat)
    requires length > |address| + 54 && Address(address) == Some(address)
    ensures Canonical(Snowflake(address, length))
  {
    var n := length - |address| - 54;
    LettersOption(n);
    ZeroFingerprint(seq(40, _ => '0'));
    OneOption(address, seq(40, _ => '0'), ("k", Letters(n)));
  }

  lemma ZeroFingerprint(s: string)
    requires |s| == 40 && forall i | 0 <= i < 40 :: s[i] == '0'
    ensures IsFingerprint(s) && Upper(s) == s
  {
  }

  /** For every IPv6 address and port: the line of 4096 characters that names it without brackets
      is accepted, its bridge prints to 4098 characters, and that line is refused. */
  lemma PrintedLineTooLong(h: seq<nat>, port: string)
    requires IsV6(h) && IsPort(port)
    ensures |PrintV6(h)| + |port| <= 49
    ensures var b := Snowflake("[" + PrintV6(h) + "]" + ":" + port, 4098);
            var line := Line(b.(address := PrintV6(h) + ":" + port));
            |line| == 4096 && ParseLine(line) == Some(b) && |Line(b)| == 4098 && ParseLine(Line(b)) == None
  {
    V6Length(h);
    PortLength(port);
    var address := "[" + PrintV6(h) + "]" + ":" + port;
    BareV6Address(h, port);
    AddressIdempotent(PrintV6(h) + ":" + port);
    SnowflakeCanonical(address, 4098);
    SnowflakeLength(address, 4098);
    BareV6LineGrows(Snowflake(address, 4098), h, port);
    LineReads(Snowflake(address, 4098));
  }

  // ---- characters outside ASCII -------------------------------------------------------------

  lemma ExpandedParts(parts: seq<string>, k: nat, i: nat)
    requires 1 <= k < |parts| - 1 && parts[k] == "" && Expand(parts, k).Some? && i < |parts|
    ensures parts[i] == "" || IsHextet(parts[i])
  {
    var hi := if parts[0] == "" then 0 else k;
    var lo := if parts[|parts| - 1] == "" then 0 else |parts| - k - 1;
    assert i < hi || i >= |parts| - lo || i == k || i == 0 || i == |parts| - 1;
  }

  lemma V6PartChars(host: string, i: nat)
    requires ParseV6(host).Some? && i < |Split(host, ':')|
    ensures All(Split(host, ':')[i], HostChar)
  {
    var split := Split(host, ':');
    var parts := Undotted(split).value;
    var k := NextSkip(parts, 1);
    if i == |split| - 1 && Has(split[i], '.') {
      V4Canonical(split[i]);
      V4Chars(ParseV4(split[i]).value);
      V4HostChars(split[i]);
    } else {
      assert parts[i] == split[i];
      if k < |parts| - 1 {
        ExpandedParts(parts, k, i);
      }
    }
  }

  lemma V4HostChars(text: string)
    requires All(text, V4Char)
    ensures All(text, HostChar)
  {
    forall i | 0 <= i < |text|
      ensures HostChar(text[i])
    {
      assert V4Char(text[i]);
    }
  }

  lemma HostChars(host: string)
    requires ParseIp(host).Some?
    ensures All(host, HostChar)
  {
    if ParseV4(host).Some? {
      V4Canonical(host);
      V4Chars(ParseV4(host).value);
      V4HostChars(host);
    } else {
      forall i | 0 <= i < |Split(host, ':')|
        ensures All(Split(host, ':')[i], HostChar)
      {
        V6PartChars(host, i);
      }
      JoinSplit(host, ':');
      JoinAll(Split(host, ':'), ':', HostChar);
    }
  }

  lemma AddressInput(value: string)
    requires Address(value).Some?
    ensures value != "" && All(value, AddressChar)
    ensures forall i | 0 < i < |value| :: value[i] != '['
  {
    HostChars(HostAndPort(value).value.0);
    Reassembled(value);
  }

  lemma AddressInputToken(value: string)
    requires Address(value).Some?
    ensures IsToken(value)
  {
    AddressInput(value);
    AddressTextIsToken(value);
  }

  lemma Reassembled(value: string)
    requires HostAndPort(value).Some?
    requires All(HostAndPort(value).value.0, HostChar) && All(HostAndPort(value).value.1, IsDigit)
    ensures All(value, AddressChar)
    ensures forall i | 0 < i < |value| :: value[i] != '['
  {
    var (host, port) := HostAndPort(value).value;
    forall i | 0 <= i < |value|
      ensures AddressChar(value[i]) && (i > 0 ==> value[i] != '[')
    {
      if value[0] == '[' {
        assert value[i] == if i == 0 then '[' else if i <= |host| then host[i - 1] else if i == |host| + 1 then ']'
                           else if i == |host| + 2 then ':' else port[i - |host| - 3];
      } else {
        assert value[i] == if i < |host| then host[i] else if i == |host| then ':' else port[i - |host| - 1];
      }
    }
  }

  lemma OptionInput(token: string)
    requires OptionToken(token).Some?
    ensures IsToken(token)
  {
    OptionParsed(token);
    OptionIsToken(OptionToken(token).value);
  }

  /** Every accepted line consists of printable ASCII tokens, so it does not matter how
      `_safe_input` classifies any other character. */
  lemma AcceptedIsAscii(tokens: seq<string>, i: nat)
    requires tokens != [] && ParseTokens(tokens).Some? && i < |tokens|
    ensures IsToken(tokens[i])
  {
    var offset := if tokens[0] in ["obfs4", "snowflake"] then 1 else 0;
    if i < offset {
      TransportToken(tokens[i]);
    } else if i == offset {
      AddressInputToken(tokens[i]);
    } else if i == offset + 1 {
      FingerprintToken(tokens[i]);
    } else {
      assert tokens[i] == tokens[offset + 2..][i - offset - 2];
      OptionInput(tokens[i]);
    }
  }
}
