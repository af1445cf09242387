/** `_address` on IPv6 addresses with a zone identifier (section 11 of RFC 4007), which `ipaddress` accepts
    and prints again. The address it renders is not always one it accepts. */
module Zones {
  import opened Text
  import opened Addresses
  import opened AddressLaws
  import opened BridgeLimits

  /** An address and its zone, empty if there is none. */
  datatype Scoped = Scoped(ip: Ip, zone: string)

  predicate IsZone(zone: string) {
    zone != "" && !Has(zone, '%') && !Has(zone, '/')
  }

  /** `ipaddress.ip_address(host)` with `_split_scope_id`. */
  function ParseScoped(host: string): Option<Scoped> {
    var n := IndexOf(host, '%');
    if n == |host| then
      var ip := ParseIp(host);
      if ip.Some? then Some(Scoped(ip.value, "")) else None
    else
      var hextets := ParseV6(host[..n]);
      if hextets.Some? && IsZone(host[n + 1..]) then Some(Scoped(V6(hextets.value), host[n + 1..])) else None
  }

  lemma ParsedScoped(host: string)
    requires ParseScoped(host).Some?
    ensures ValidIp(ParseScoped(host).value.ip)
    ensures var s := ParseScoped(host).value; s.zone != "" ==> s.ip.V6? && IsZone(s.zone)
  {
    var n := IndexOf(host, '%');
    if n == |host| {
      ParsedIp(host);
    } else {
      ParsedV6(host[..n]);
    }
  }

  /** The host of a rendered address, without brackets. */
  function HostText(s: Scoped): string
    requires s.ip.V6? && ValidIp(s.ip)
  {
    PrintV6(s.ip.hextets) + if s.zone == "" then "" else "%" + s.zone
  }

  function RenderScoped(s: Scoped): string
    requires ValidIp(s.ip)
  {
    if s.ip.V4? then RenderHost(s.ip) else "[" + HostText(s) + "]"
  }

  /** `_address` */
  function ScopedAddress(value: string): Option<string> {
    var split := HostAndPort(value);
    if split.None? then None
    else
      var parsed := ParseScoped(split.value.0);
      if parsed.None? || !IsPort(split.value.1) then None
      else ParsedScoped(split.value.0); Some(RenderScoped(parsed.value) + ":" + split.value.1)
  }

  lemma ScopedIs(value: string, host: string, port: string, s: Scoped)
    requires HostAndPort(value) == Some((host, port)) && ParseScoped(host) == Some(s) && IsPort(port) && ValidIp(s.ip)
    ensures ScopedAddress(value) == Some(RenderScoped(s) + ":" + port)
  {
  }

  /** Without a zone this is the function all the other modules use. */
  lemma WithoutZone(value: string)
    requires !Has(value, '%')
    ensures ScopedAddress(value) == Address(value)
  {
    if HostAndPort(value).Some? {
      var (host, port) := HostAndPort(value).value;
      HostWithin(value, '%');
      Unscoped(host);
      if ParseIp(host).Some? {
        ParsedIp(host);
        RenderUnscoped(ParseIp(host).value);
      }
    }
  }

  lemma HostWithin(value: string, c: char)
    requires HostAndPort(value).Some? && !Has(value, c)
    ensures !Has(HostAndPort(value).value.0, c)
  {
    var host := HostAndPort(value).value.0;
    forall i | 0 <= i < |host|
      ensures host[i] != c
    {
      assert host[i] == if value[0] == '[' then value[i + 1] else value[i];
    }
  }

  lemma Unscoped(host: string)
    requires !Has(host, '%')
    ensures ParseScoped(host) == var ip := ParseIp(host); if ip.Some? then Some(Scoped(ip.value, "")) else None
  {
    IndexOfIs(host, '%', |host|);
  }

  lemma RenderUnscoped(ip: Ip)
    requires ValidIp(ip)
    ensures RenderScoped(Scoped(ip, "")) == RenderHost(ip)
  {
    if ip.V6? {
      assert PrintV6(ip.hextets) + "" == PrintV6(ip.hextets);
    }
  }

  /** Behind an IPv6 text and a percent sign stands any zone but an empty one, or one with another percent sign or
      a slash. */
  lemma ZonesExactly(text: string, zone: string)
    requires ParseV6(text).Some?
    ensures ParseScoped(text + "%" + zone)
         == if zone != "" && (forall i | 0 <= i < |zone| :: zone[i] != '%' && zone[i] != '/')
            then Some(Scoped(V6(ParseV6(text).value), zone)) else None
  {
    var host := text + "%" + zone;
    HostChars(text);
    forall i | 0 <= i < |text|
      ensures host[i] != '%'
    {
      assert HostChar(text[i]);
    }
    IndexOfIs(host, '%', |text|);
    assert host[..|text|] == text && host[|text| + 1..] == zone;
  }

  lemma PlainText(text: string)
    requires All(text, V6Char) && text != ""
    ensures !Has(text, '%') && !Has(text, ']') && text[0] != '['
  {
    assert V6Char(text[0]);
  }

  lemma PrintedPlain(h: seq<nat>)
    requires IsV6(h)
    ensures !Has(PrintV6(h), '%') && !Has(PrintV6(h), ']') && PrintV6(h) != "" && PrintV6(h)[0] != '['
  {
    V6Chars(h);
    PlainText(PrintV6(h));
  }

  /** Every eight hextets with any zone print and read back. */
  lemma ScopedRoundTrip(h: seq<nat>, zone: string)
    requires IsV6(h) && (zone == "" || IsZone(zone))
    ensures ParseScoped(HostText(Scoped(V6(h), zone))) == Some(Scoped(V6(h), zone))
  {
    PrintedPlain(h);
    if zone == "" {
      assert PrintV6(h) + "" == PrintV6(h);
      V6ParsesBack(h);
      Unscoped(PrintV6(h));
    } else {
      V6RoundTrip(h);
      ScopeRead(PrintV6(h), zone, h);
    }
  }

  lemma ScopeRead(text: string, zone: string, h: seq<nat>)
    requires !Has(text, '%') && IsZone(zone) && ParseV6(text) == Some(h)
    ensures ParseScoped(text + ("%" + zone)) == Some(Scoped(V6(h), zone))
  {
    var host := text + ("%" + zone);
    IndexOfIs(host, '%', |text|);
    assert host[..|text|] == text && host[|text| + 1..] == zone;
  }

  /** The rendered address of hextets and zone is accepted again exactly if the zone has no bracket. */
  lemma RenderedAgain(h: seq<nat>, zone: string, port: string)
    requires IsV6(h) && (zone == "" || IsZone(zone)) && IsPort(port)
    ensures var s := Scoped(V6(h), zone);
            var address := RenderScoped(s) + ":" + port;
            ScopedAddress(address) == if Has(zone, ']') then None else Some(address)
  {
    var host := HostText(Scoped(V6(h), zone));
    PrintedPlain(h);
    HostBracket(PrintV6(h), zone);
    if Has(zone, ']') {
      Overfull(host, port);
    } else {
      SplitBracketed(host, port);
      ScopedRoundTrip(h, zone);
    }
  }

  lemma HostBracket(text: string, zone: string)
    requires !Has(text, ']')
    ensures Has(text + (if zone == "" then "" else "%" + zone), ']') <==> Has(zone, ']')
  {
    var host := text + if zone == "" then "" else "%" + zone;
    if Has(zone, ']') {
      var i :| 0 <= i < |zone| && zone[i] == ']';
      assert host[|text| + 1 + i] == ']';
    }
  }

  /** A bracket inside the brackets ends the host early, and what is left is no port. */
  lemma Overfull(host: string, port: string)
    requires Has(host, ']')
    ensures ScopedAddress("[" + host + "]" + ":" + port) == None
  {
    var a := "[" + host + "]" + ":" + port;
    var n := IndexOf(host, ']');
    assert forall i | 0 < i < |host| + 1 :: a[i] == host[i - 1];
    IndexOfIs(a, ']', n + 1);
    if HostAndPort(a).Some? {
      var rest := HostAndPort(a).value.1;
      assert rest == a[n + 3..];
      assert rest[|host| + 1 - (n + 3)] == a[|host| + 1] == ']';
      assert !IsDigit(']');
    }
  }

  lemma NoBracketHost(host: string)
    requires ParseScoped(host).Some?
    ensures Has(host, ']') <==> Has(ParseScoped(host).value.zone, ']')
  {
    var n := IndexOf(host, '%');
    if n == |host| {
      NoBracketIp(host);
    } else {
      NoBracketIp(host[..n]);
      BracketBeyond(host, n);
    }
  }

  lemma BracketBeyond(host: string, n: nat)
    requires n < |host| && host[n] == '%' && host[n + 1..] != "" && !Has(host[..n], ']')
    ensures Has(host, ']') <==> Has(host[n + 1..], ']')
  {
    HostBracket(host[..n], host[n + 1..]);
    assert host == host[..n] + ("%" + host[n + 1..]);
  }

  lemma NoBracketIp(host: string)
    requires ParseIp(host).Some? || ParseV6(host).Some?
    ensures !Has(host, ']')
  {
    HostChars(host);
    forall i | 0 <= i < |host|
      ensures host[i] != ']'
    {
      assert HostChar(host[i]);
    }
  }

  /** The zone has a bracket exactly if the text has one and is not itself in brackets. */
  lemma ZoneBracket(value: string, host: string, port: string)
    requires HostAndPort(value) == Some((host, port)) && ParseScoped(host).Some? && IsPort(port)
    ensures Has(ParseScoped(host).value.zone, ']') <==> value[0] != '[' && Has(value, ']')
  {
    NoBracketHost(host);
    HostBrackets(value, host, port);
  }

  lemma HostBrackets(value: string, host: string, port: string)
    requires HostAndPort(value) == Some((host, port)) && IsDecimal(port)
    ensures Has(host, ']') <==> value[0] != '[' && Has(value, ']')
  {
    if value[0] != '[' {
      assert value == host + ":" + port;
      BracketInHost(host, port);
    } else {
      assert forall i | 0 <= i < |host| :: host[i] == value[i + 1];
    }
  }

  lemma BracketInHost(host: string, port: string)
    requires IsDecimal(port)
    ensures Has(host + ":" + port, ']') <==> Has(host, ']')
  {
    var value := host + ":" + port;
    if Has(value, ']') {
      var i :| 0 <= i < |value| && value[i] == ']';
      assert i < |host| ==> host[i] == ']';
      assert i > |host| ==> IsDigit(value[i]);
    }
    if Has(host, ']') {
      var i :| 0 <= i < |host| && host[i] == ']';
      assert value[i] == ']';
    }
  }

  lemma V4Again(value: string)
    requires ScopedAddress(value).Some? && ParseScoped(HostAndPort(value).value.0).value.ip.V4?
    ensures ScopedAddress(ScopedAddress(value).value) == ScopedAddress(value)
  {
    AddressIdempotent(value);
    RenderedFree(value);
    WithoutZone(Address(value).value);
  }

  lemma RenderedFree(value: string)
    requires Address(value).Some?
    ensures !Has(Address(value).value, '%')
  {
    AddressChars(value);
    var address := Address(value).value;
    forall i | 0 <= i < |address|
      ensures address[i] != '%'
    {
      assert AddressChar(address[i]);
    }
  }

  /** Rendering an accepted address again changes nothing, if and only if the text is bracketed or has no
      closing bracket. Otherwise the rendered address is refused: then the constructor, which asks for this,
      raises `ValueError` out of `parse_bridge_line`. */
  lemma ScopedIdempotent(value: string)
    requires ScopedAddress(value).Some?
    ensures var address := ScopedAddress(value).value;
            ScopedAddress(address) == if value[0] == '[' || !Has(value, ']') then Some(address) else None
  {
    var (host, port) := HostAndPort(value).value;
    ParsedScoped(host);
    var s := ParseScoped(host).value;
    ZoneBracket(value, host, port);
    if s.ip.V6? {
      RenderedAgain(s.ip.hextets, s.zone, port);
    } else {
      V4Again(value);
    }
  }

  /** Such texts exist for every IPv6 address, every port and every zone with a bracket, like `a]b`: without
      brackets of its own the address is accepted and printed, and then refused. */
  lemma BracketInZone(h: seq<nat>, zone: string, port: string)
    requires IsV6(h) && IsZone(zone) && Has(zone, ']') && IsPort(port)
    ensures var s := Scoped(V6(h), zone);
            && ScopedAddress(HostText(s) + ":" + port) == Some(RenderScoped(s) + ":" + port)
            && ScopedAddress(RenderScoped(s) + ":" + port) == None
  {
    var s := Scoped(V6(h), zone);
    PrintedPlain(h);
    ScopedRoundTrip(h, zone);
    assert HostText(s)[0] == PrintV6(h)[0];
    SplitPlain(HostText(s), port);
    ScopedIs(HostText(s) + ":" + port, HostText(s), port, s);
    RenderedAgain(h, zone, port);
  }

  // ---- the dotted notation of later versions ----------------------------------------------------

  /** How CPython prints an IPv4-mapped address from version 3.13 on. */
  function PrintMapped(octets: seq<nat>): string
    requires IsV4(octets)
  {
    Join(["", "", "ffff", PrintV4(octets)], ':')
  }

  lemma MappedParts(octets: seq<nat>)
    requires IsV4(octets)
    ensures Split(PrintMapped(octets), ':') == ["", "", "ffff", PrintV4(octets)] && Has(PrintV4(octets), '.')
  {
    V4Chars(octets);
    var quad := PrintV4(octets);
    forall i | 0 <= i < |quad|
      ensures quad[i] != ':'
    {
      assert V4Char(quad[i]);
    }
    var parts := ["", "", "ffff", quad];
    assert Separable(parts, ':');
    SplitJoin(parts, ':');
    assert quad[|ToBase(octets[0], 10)|] == '.';
  }

  lemma MappedUndotted(quad: string, right: seq<string>)
    requires Has(quad, '.') && ParseV4(quad).Some? && |right| == 3 && right[0] == "ffff"
    requires var o := ParseV4(quad).value;
             right[1] == ToBase(o[0] * 256 + o[1], 16) && right[2] == ToBase(o[2] * 256 + o[3], 16)
    ensures Undotted(["", "", "ffff", quad]) == Some(Around([], right))
  {
    var split := ["", "", "ffff", quad];
    assert right == ["ffff", right[1], right[2]];
    assert split[..3] == ["", "", "ffff"];
    assert Around([], right) == ["", "", "ffff", right[1], right[2]];
    assert split[..3] + [right[1], right[2]] == Around([], right);
  }

  lemma UndottedParses(host: string, right: seq<string>)
    requires |Split(host, ':')| >= 3 && Undotted(Split(host, ':')) == Some(Around([], right))
    requires PlainParts(right) && |right| == 3
    ensures ParseV6(host) == Some([0, 0, 0, 0, 0] + HextetValues(right))
  {
    AroundAt([], right, 0);
    AroundSkips([], right);
    AroundExpands([], right);
    FiveZeros(HextetValues(right));
  }

  lemma FiveZeros(tail: seq<nat>)
    ensures HextetValues([]) + seq(5, _ => 0) + tail == [0, 0, 0, 0, 0] + tail
  {
  }

  lemma MappedTail(a: nat, b: nat)
    requires a < 65536 && b < 65536
    ensures var right := HexParts([0xffff, a, b]);
            && PlainParts(right) && right == ["ffff", ToBase(a, 16), ToBase(b, 16)]
            && HextetValues(right) == [0xffff, a, b]
  {
    HexPartsFacts([0xffff, a, b]);
    FullHextet();
  }

  /** It reads back as the same eight hextets. */
  lemma MappedRoundTrip(octets: seq<nat>)
    requires IsV4(octets)
    ensures ParseV6(PrintMapped(octets))
         == Some([0, 0, 0, 0, 0] + [0xffff, octets[0] * 256 + octets[1], octets[2] * 256 + octets[3]])
  {
    var a, b := octets[0] * 256 + octets[1], octets[2] * 256 + octets[3];
    MappedParts(octets);
    V4RoundTrip(octets);
    MappedTail(a, b);
    MappedUndotted(PrintV4(octets), HexParts([0xffff, a, b]));
    UndottedParses(PrintMapped(octets), HexParts([0xffff, a, b]));
  }

  lemma FullHextet()
    ensures ToBase(0xffff, 16) == "ffff"
  {
    assert ToBase(0xf, 16) == "f";
    assert ToBase(0xff, 16) == ToBase(0xf, 16) + "f";
    assert ToBase(0xfff, 16) == ToBase(0xff, 16) + "f";
    assert ToBase(0xffff, 16) == ToBase(0xfff, 16) + "f";
  }
}
