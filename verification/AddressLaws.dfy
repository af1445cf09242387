/** `_address` is a projection onto canonical addresses. */
module AddressLaws {
  import opened Text
  import opened Addresses

  predicate V4Char(c: char) { IsDigit(c) || c == '.' }

  predicate V6Char(c: char) { IsHex(c) || c == ':' }

  predicate HostChar(c: char) { IsHex(c) || c in ".:" }

  predicate AddressChar(c: char) { HostChar(c) || c in "[]" }

  lemma V4Chars(octets: seq<nat>)
    requires IsV4(octets)
    ensures All(PrintV4(octets), V4Char) && PrintV4(octets) != ""
  {
    var parts := [ToBase(octets[0], 10), ToBase(octets[1], 10), ToBase(octets[2], 10), ToBase(octets[3], 10)];
    forall i | 0 <= i < 4
      ensures All(parts[i], V4Char)
    {
      ToBaseDigits(octets[i]);
    }
    JoinAll(parts, '.', V4Char);
  }

  lemma V6Chars(h: seq<nat>)
    requires IsV6(h)
    ensures All(PrintV6(h), V6Char) && Has(PrintV6(h), ':')
  {
    var parts := Compress(h);
    forall i | 0 <= i < |parts|
      ensures All(parts[i], V6Char)
    {
      CompressedPart(h, i);
    }
    JoinAll(parts, ':', V6Char);
    assert |parts| >= 3;
    assert PrintV6(h)[|parts[0]|] == ':';
  }

  lemma CompressedPart(h: seq<nat>, i: nat)
    requires IsV6(h) && i < |Compress(h)|
    ensures All(Compress(h)[i], V6Char)
  {
    CompressedFrom(h, i);
  }

  /** Every part of a compressed address is empty or a hextet. */
  lemma CompressedFrom(h: seq<nat>, i: nat)
    requires IsV6(h) && i < |Compress(h)|
    ensures Compress(h)[i] == "" || IsHextet(Compress(h)[i])
  {
    var s := BestStart(h, 0);
    var e := s + ZeroRun(h, s);
    if e <= s + 1 {
      HexPartsFacts(h);
    } else {
      HexPartsFacts(h[..s]);
      HexPartsFacts(h[e..]);
      AroundFrom(HexParts(h[..s]), HexParts(h[e..]), i);
    }
  }

  lemma AroundFrom(left: seq<string>, right: seq<string>, i: nat)
    requires PlainParts(left) && PlainParts(right) && i < |Around(left, right)|
    ensures Around(left, right)[i] == "" || IsHextet(Around(left, right)[i])
  {
    AroundAt(left, right, i);
  }

  lemma AfterLastIs(s: string, c: char, n: nat)
    requires 0 < n <= |s| && s[n - 1] == c
    requires forall i | n <= i < |s| :: s[i] != c
    ensures AfterLast(s, c) == n
  {
  }

  lemma SplitPlain(host: string, port: string)
    requires host != "" && host[0] != '[' && IsDecimal(port)
    ensures HostAndPort(host + ":" + port) == Some((host, port))
  {
    var a := host + ":" + port;
    assert forall i | |host| < i < |a| :: a[i] == port[i - |host| - 1];
    AfterLastIs(a, ':', |host| + 1);
    assert a[0] == host[0];
    assert a[..|host|] == host && a[|host| + 1..] == port;
  }

  lemma SplitBracketed(host: string, port: string)
    requires !Has(host, ']')
    ensures HostAndPort("[" + host + "]" + ":" + port) == Some((host, port))
  {
    var a := "[" + host + "]" + ":" + port;
    assert forall i | 0 < i < |host| + 1 :: a[i] == host[i - 1];
    IndexOfIs(a, ']', |host| + 1);
    assert a[1..|host| + 1] == host && a[|host| + 3..] == port;
  }

  /** A canonical IPv6 text is not an IPv4 text, and reads back. */
  lemma V6ParsesBack(h: seq<nat>)
    requires IsV6(h)
    ensures ParseIp(PrintV6(h)) == Some(V6(h))
  {
    V6RoundTrip(h);
    V6Chars(h);
    var text := PrintV6(h);
    if ParseV4(text).Some? {
      V4Canonical(text);
      V4Chars(ParseV4(text).value);
    }
  }

  /** What a rendered address is made of. */
  lemma AddressShape(value: string)
    requires Address(value).Some?
    ensures var (host, port) := HostAndPort(value).value;
            var ip := ParseIp(host).value;
            && IsPort(port) && ValidIp(ip)
            && Address(value).value == RenderHost(ip) + ":" + port
            && (ip.V4? ==> RenderHost(ip) == host && All(host, V4Char) && host != "")
            && (ip.V6? ==> RenderHost(ip) == "[" + PrintV6(ip.hextets) + "]" && All(PrintV6(ip.hextets), V6Char))
  {
    var (host, port) := HostAndPort(value).value;
    ParsedIp(host);
    var ip := ParseIp(host).value;
    if ip.V4? {
      V4Canonical(host);
      V4Chars(ip.octets);
    } else {
      V6Chars(ip.hextets);
    }
  }

  /** Rendering an address again changes nothing. */
  lemma AddressIdempotent(value: string)
    requires Address(value).Some?
    ensures Address(Address(value).value) == Address(value)
  {
    AddressShape(value);
    var (host, port) := HostAndPort(value).value;
    var ip := ParseIp(host).value;
    if ip.V4? {
      SplitPlain(host, port);
    } else {
      V6Rendered(ip.hextets, port);
    }
  }

  lemma V6Rendered(h: seq<nat>, port: string)
    requires IsV6(h) && IsPort(port)
    ensures Address(RenderHost(V6(h)) + ":" + port) == Some(RenderHost(V6(h)) + ":" + port)
  {
    V6Chars(h);
    NoBrackets(PrintV6(h));
    V6ParsesBack(h);
    SplitBracketed(PrintV6(h), port);
  }

  lemma NoBrackets(text: string)
    requires All(text, V6Char)
    ensures !Has(text, ']')
  {
  }

  predicate IsV4Address(address: string) {
    HostAndPort(address).Some? && ParseV4(HostAndPort(address).value.0).Some?
  }

  lemma BracketChars(text: string)
    requires All(text, V6Char)
    ensures All("[" + text + "]", AddressChar)
  {
    var s := "[" + text + "]";
    forall i | 0 <= i < |s|
      ensures AddressChar(s[i])
    {
      if 0 < i < |text| + 1 {
        assert s[i] == text[i - 1] && V6Char(text[i - 1]);
      }
    }
  }

  lemma V4AddressChars(text: string)
    requires All(text, V4Char) && text != ""
    ensures All(text, AddressChar) && text[0] != '['
  {
    assert V4Char(text[0]);
    forall i | 0 <= i < |text|
      ensures AddressChar(text[i])
    {
      assert V4Char(text[i]);
    }
  }

  lemma RenderedChars(ip: Ip)
    requires ValidIp(ip)
    ensures All(RenderHost(ip), AddressChar) && RenderHost(ip) != ""
    ensures RenderHost(ip)[0] == '[' <==> ip.V6?
  {
    if ip.V4? {
      V4Chars(ip.octets);
      V4AddressChars(PrintV4(ip.octets));
    } else {
      V6Chars(ip.hextets);
      BracketChars(PrintV6(ip.hextets));
    }
  }

  lemma AddressChars(value: string)
    requires Address(value).Some?
    ensures All(Address(value).value, AddressChar) && Has(Address(value).value, ':')
    ensures Address(value).value != "" && (Address(value).value[0] == '[' <==> !IsV4Address(value))
  {
    AddressShape(value);
    var (host, port) := HostAndPort(value).value;
    var ip := ParseIp(host).value;
    RenderedChars(ip);
    PortedChars(RenderHost(ip), port);
  }

  lemma PortedChars(rendered: string, port: string)
    requires All(rendered, AddressChar) && rendered != "" && IsDecimal(port)
    ensures All(rendered + ":" + port, AddressChar) && Has(rendered + ":" + port, ':')
    ensures (rendered + ":" + port)[0] == rendered[0]
  {
    var a := rendered + ":" + port;
    assert a[|rendered|] == ':';
    forall i | 0 <= i < |a|
      ensures AddressChar(a[i])
    {
      assert a[i] == if i < |rendered| then rendered[i] else if i == |rendered| then ':' else port[i - |rendered| - 1];
    }
  }

  /** An IPv4 address never grows when it is rendered. */
  lemma V4AddressLength(value: string)
    requires Address(value).Some? && IsV4Address(value)
    ensures |Address(value).value| <= |value|
  {
    AddressShape(value);
  }
}
