/** Bridge addresses: IPv4 in dotted decimal, IPv6 in and out of its canonical text
    (section 2.2 of RFC 4291, section 4 of RFC 5952), and the port behind them. */
module Addresses {
  import opened Text

  // ---- numerals --------------------------------------------------------------------

  predicate IsDecimal(s: string) {
    s != "" && forall i | 0 <= i < |s| :: IsDigit(s[i])
  }

  lemma DecimalNumeral(s: string)
    requires IsDecimal(s)
    ensures IsNumeral(s, 10)
  {
  }

  lemma {:induction false} ToBaseDigits(n: nat)
    ensures IsDecimal(ToBase(n, 10))
  {
    if n >= 10 {
      ToBaseDigits(n / 10);
    }
  }

  /** A decimal numeral without a leading zero is what its value prints as. */
  lemma {:induction false} CanonicalDecimal(s: string)
    requires IsDecimal(s) && (s[0] != '0' || |s| == 1)
    ensures IsNumeral(s, 10) && ToBase(FromBase(s, 10), 10) == s
    ensures s[0] != '0' ==> FromBase(s, 10) > 0
  {
    if |s| > 1 {
      var init, last := s[..|s| - 1], DigitValue(s[|s| - 1]);
      CanonicalDecimal(init);
      var n := FromBase(init, 10);
      assert FromBase(s, 10) == n * 10 + last;
      assert (n * 10 + last) / 10 == n && (n * 10 + last) % 10 == last;
      assert s == init + [s[|s| - 1]];
    }
  }

  lemma HexLength(n: nat)
    requires n < 65536
    ensures |ToBase(n, 16)| <= 4
  {
    if n >= 16 {
      var a := n / 16;
      assert ToBase(n, 16) == ToBase(a, 16) + [DigitChar(n % 16)];
      if a >= 16 {
        var b := a / 16;
        assert ToBase(a, 16) == ToBase(b, 16) + [DigitChar(a % 16)];
        if b >= 16 {
          var c := b / 16;
          assert c < 16;
          assert ToBase(b, 16) == ToBase(c, 16) + [DigitChar(b % 16)];
        }
      }
    }
  }

  // ---- IPv4 ------------------------------------------------------------------------

  /** A dec-octet (section 3.2.2 of RFC 3986): no leading zeros. */
  predicate IsOctet(s: string) {
    IsDecimal(s) && |s| <= 3 && (s == "0" || s[0] != '0') && (DecimalNumeral(s); FromBase(s, 10) <= 255)
  }

  function OctetValue(s: string): (n: nat)
    requires IsOctet(s)
    ensures n < 256
  {
    DecimalNumeral(s);
    FromBase(s, 10)
  }

  /** `IPv4Address(host)` */
  function ParseV4(host: string): (r: Option<seq<nat>>)
    ensures r.Some? ==> IsV4(r.value)
  {
    var parts := Split(host, '.');
    if |parts| == 4 && forall i | 0 <= i < 4 :: IsOctet(parts[i])
    then Some([OctetValue(parts[0]), OctetValue(parts[1]), OctetValue(parts[2]), OctetValue(parts[3])])
    else None
  }

  predicate IsV4(octets: seq<nat>) {
    |octets| == 4 && forall i | 0 <= i < 4 :: octets[i] < 256
  }

  function PrintV4(octets: seq<nat>): string
    requires |octets| == 4
  {
    Join([ToBase(octets[0], 10), ToBase(octets[1], 10), ToBase(octets[2], 10), ToBase(octets[3], 10)], '.')
  }

  /** Only the canonical text of an IPv4 address is accepted. */
  lemma V4Canonical(host: string)
    requires ParseV4(host).Some?
    ensures PrintV4(ParseV4(host).value) == host
  {
    var parts := Split(host, '.');
    JoinSplit(host, '.');
    forall i | 0 <= i < 4
      ensures ToBase(OctetValue(parts[i]), 10) == parts[i]
    {
      CanonicalDecimal(parts[i]);
    }
    var o := ParseV4(host).value;
    assert [ToBase(o[0], 10), ToBase(o[1], 10), ToBase(o[2], 10), ToBase(o[3], 10)] == parts;
  }

  lemma OctetText(n: nat)
    requires n < 256
    ensures IsOctet(ToBase(n, 10)) && OctetValue(ToBase(n, 10)) == n && !Has(ToBase(n, 10), '.')
  {
    ToBaseDigits(n);
    ToFromBase(n, 10);
    if n >= 10 {
      var a := n / 10;
      assert ToBase(n, 10) == ToBase(a, 10) + [DigitChar(n % 10)];
      if a >= 10 {
        assert ToBase(a, 10) == ToBase(a / 10, 10) + [DigitChar(a % 10)];
      }
    }
  }

  lemma V4RoundTrip(octets: seq<nat>)
    requires IsV4(octets)
    ensures ParseV4(PrintV4(octets)) == Some(octets)
  {
    var parts := [ToBase(octets[0], 10), ToBase(octets[1], 10), ToBase(octets[2], 10), ToBase(octets[3], 10)];
    forall i | 0 <= i < 4
      ensures IsOctet(parts[i]) && OctetValue(parts[i]) == octets[i] && !Has(parts[i], '.')
    {
      OctetText(octets[i]);
    }
    SplitJoin(parts, '.');
    assert [OctetValue(parts[0]), OctetValue(parts[1]), OctetValue(parts[2]), OctetValue(parts[3])] == octets;
  }

  // ---- IPv6 ------------------------------------------------------------------------

  predicate IsHextet(s: string) {
    0 < |s| <= 4 && forall i | 0 <= i < |s| :: IsHex(s[i])
  }

  function HextetValue(s: string): nat
    requires IsHextet(s)
  {
    FromBase(s, 16)
  }

  function HextetValues(parts: seq<string>): (r: seq<nat>)
    requires forall i | 0 <= i < |parts| :: IsHextet(parts[i])
    ensures |r| == |parts| && forall i | 0 <= i < |parts| :: r[i] == HextetValue(parts[i])
  {
    seq(|parts|, i requires 0 <= i < |parts| => HextetValue(parts[i]))
  }

  /** First empty part at or after `from` that is not the last part, or the last position. */
  function NextSkip(parts: seq<string>, from: nat): (k: nat)
    requires from < |parts|
    ensures from <= k < |parts|
    ensures k < |parts| - 1 ==> parts[k] == ""
    ensures forall j | from <= j < k :: parts[j] != ""
    decreases |parts| - from
  {
    if from == |parts| - 1 || parts[from] == "" then from else NextSkip(parts, from + 1)
  }

  /** A trailing dotted quad stands for two hextets. */
  function Undotted(parts: seq<string>): Option<seq<string>>
    requires parts != []
  {
    var last := parts[|parts| - 1];
    if !Has(last, '.') then Some(parts)
    else
      var quad := ParseV4(last);
      if quad.None? then None
      else
        var o := quad.value;
        Some(parts[..|parts| - 1] + [ToBase(o[0] * 256 + o[1], 16), ToBase(o[2] * 256 + o[3], 16)])
  }

  /** The eight hextets of colon-separated parts whose run of zeros is skipped at `k`. */
  function Expand(parts: seq<string>, k: nat): Option<seq<nat>>
    requires 1 <= k < |parts| - 1
  {
    var hi := if parts[0] == "" then 0 else k;
    var lo := if parts[|parts| - 1] == "" then 0 else |parts| - k - 1;
    if (parts[0] == "" && k != 1) || (parts[|parts| - 1] == "" && k != |parts| - 2) || hi + lo > 7 then None
    else if (forall i | 0 <= i < hi :: IsHextet(parts[i]))
        && (forall i | |parts| - lo <= i < |parts| :: IsHextet(parts[i])) then
      Some(HextetValues(parts[..hi]) + seq(8 - hi - lo, _ => 0) + HextetValues(parts[|parts| - lo..]))
    else None
  }

  /** `IPv6Address(host)` without a zone identifier. */
  function ParseV6(host: string): Option<seq<nat>> {
    var split := Split(host, ':');
    if |split| < 3 then None
    else
      var undotted := Undotted(split);
      if undotted.None? || |undotted.value| > 9 then None
      else
        var parts := undotted.value;
        var k := NextSkip(parts, 1);
        if k == |parts| - 1 then
          if |parts| == 8 && forall i | 0 <= i < 8 :: IsHextet(parts[i]) then Some(HextetValues(parts)) else None
        else if NextSkip(parts, k + 1) != |parts| - 1 then None
        else Expand(parts, k)
  }

  predicate IsV6(h: seq<nat>) {
    |h| == 8 && forall i | 0 <= i < 8 :: h[i] < 65536
  }

  /** Number of consecutive zeros from `i` on. */
  function ZeroRun(h: seq<nat>, i: nat): (n: nat)
    requires i <= |h|
    ensures i + n <= |h| && forall j | i <= j < i + n :: h[j] == 0
    ensures i + n < |h| ==> h[i + n] != 0
    decreases |h| - i
  {
    if i == |h| || h[i] != 0 then 0 else 1 + ZeroRun(h, i + 1)
  }

  /** Start of the leftmost among the longest runs of zeros that begin at or after `i`. */
  function BestStart(h: seq<nat>, i: nat): (s: nat)
    requires i < |h|
    ensures i <= s < |h|
    ensures forall j | i <= j < |h| :: ZeroRun(h, j) <= ZeroRun(h, s)
    ensures forall j | i <= j < s :: ZeroRun(h, j) < ZeroRun(h, s)
    decreases |h| - i
  {
    if i == |h| - 1 then i
    else
      var s := BestStart(h, i + 1);
      if ZeroRun(h, i) >= ZeroRun(h, s) then i else s
  }

  function HexParts(h: seq<nat>): (r: seq<string>)
    ensures |r| == |h| && forall i | 0 <= i < |h| :: r[i] == ToBase(h[i], 16)
  {
    seq(|h|, i requires 0 <= i < |h| => ToBase(h[i], 16))
  }

  /** Parts around an empty one; an empty side needs one more empty part. */
  function Around(left: seq<string>, right: seq<string>): seq<string> {
    (if left == [] then [""] else []) + left + [""] + right + (if right == [] then [""] else [])
  }

  /** `_compress_hextets`: the best run of at least two zeros becomes an empty part. */
  function Compress(h: seq<nat>): seq<string>
    requires |h| == 8
  {
    var s := BestStart(h, 0);
    var e := s + ZeroRun(h, s);
    if e <= s + 1 then HexParts(h)
    else Around(HexParts(h[..s]), HexParts(h[e..]))
  }

  /** `IPv6Address.compressed` */
  function PrintV6(h: seq<nat>): string
    requires |h| == 8
  {
    Join(Compress(h), ':')
  }

  lemma HexPart(n: nat)
    requires n < 65536
    ensures IsHextet(ToBase(n, 16)) && HextetValue(ToBase(n, 16)) == n
    ensures !Has(ToBase(n, 16), ':') && !Has(ToBase(n, 16), '.')
  {
    HexLength(n);
    ToFromBase(n, 16);
  }

  lemma HexPartsFacts(h: seq<nat>)
    requires forall i | 0 <= i < |h| :: h[i] < 65536
    ensures forall i | 0 <= i < |h| ::
              IsHextet(HexParts(h)[i]) && !Has(HexParts(h)[i], ':') && !Has(HexParts(h)[i], '.')
    ensures HextetValues(HexParts(h)) == h
  {
    forall i | 0 <= i < |h|
      ensures IsHextet(HexParts(h)[i]) && !Has(HexParts(h)[i], ':') && !Has(HexParts(h)[i], '.')
      ensures HextetValue(HexParts(h)[i]) == h[i]
    {
      HexPart(h[i]);
    }
  }

  lemma NextSkipIs(parts: seq<string>, from: nat, k: nat)
    requires from <= k < |parts|
    requires forall j | from <= j < k :: parts[j] != ""
    requires k == |parts| - 1 || parts[k] == ""
    ensures NextSkip(parts, from) == k
    decreases k - from
  {
  }

  predicate PlainParts(parts: seq<string>) {
    forall i | 0 <= i < |parts| :: IsHextet(parts[i]) && !Has(parts[i], ':') && !Has(parts[i], '.')
  }

  lemma AroundAt(left: seq<string>, right: seq<string>, i: nat)
    requires i < |Around(left, right)|
    ensures var k := if left == [] then 1 else |left|;
            && k < |Around(left, right)| - 1 && |Around(left, right)| == k + 1 + (if right == [] then 1 else |right|)
            && Around(left, right)[i]
               == if i < |left| then left[i] else if k < i < k + 1 + |right| then right[i - k - 1] else ""
  {
  }

  lemma AroundSkips(left: seq<string>, right: seq<string>)
    requires PlainParts(left) && PlainParts(right)
    ensures var parts := Around(left, right);
            var k := if left == [] then 1 else |left|;
            k < |parts| - 1 && NextSkip(parts, 1) == k && NextSkip(parts, k + 1) == |parts| - 1
  {
    var parts := Around(left, right);
    var k := if left == [] then 1 else |left|;
    forall i | 0 <= i < |parts|
      ensures parts[i] == if i < |left| then left[i] else if k < i < k + 1 + |right| then right[i - k - 1] else ""
    {
      AroundAt(left, right, i);
    }
    AroundAt(left, right, 0);
    NextSkipIs(parts, 1, k);
    NextSkipIs(parts, k + 1, |parts| - 1);
  }

  lemma AroundSlices(left: seq<string>, right: seq<string>)
    requires |left| + |right| <= 7
    ensures left <= Around(left, right) && |right| <= |Around(left, right)|
    ensures Around(left, right)[|Around(left, right)| - |right|..] == right
  {
  }

  lemma ExpandIs(parts: seq<string>, k: nat, left: seq<string>, right: seq<string>)
    requires PlainParts(left) && PlainParts(right) && |left| + |right| <= 7
    requires |parts| == k + 1 + (if right == [] then 1 else |right|) && k == if left == [] then 1 else |left|
    requires left <= parts && parts[|parts| - |right|..] == right
    requires parts[0] == "" <==> left == []
    requires parts[|parts| - 1] == "" <==> right == []
    ensures Expand(parts, k) == Some(HextetValues(left) + seq(8 - |left| - |right|, _ => 0) + HextetValues(right))
  {
    var hi := if parts[0] == "" then 0 else k;
    var lo := if parts[|parts| - 1] == "" then 0 else |parts| - k - 1;
    assert hi == |left| && lo == |right|;
    assert parts[..hi] == left && parts[|parts| - lo..] == right;
    assert forall i | 0 <= i < hi :: parts[i] == left[i];
    assert forall i | |parts| - lo <= i < |parts| :: parts[i] == right[i - (|parts| - lo)];
  }

  lemma AroundExpands(left: seq<string>, right: seq<string>)
    requires PlainParts(left) && PlainParts(right) && |left| + |right| <= 7
    ensures var k := if left == [] then 1 else |left|;
            && k < |Around(left, right)| - 1 <= 8
            && Expand(Around(left, right), k)
               == Some(HextetValues(left) + seq(8 - |left| - |right|, _ => 0) + HextetValues(right))
  {
    var parts := Around(left, right);
    AroundAt(left, right, 0);
    AroundAt(left, right, |parts| - 1);
    AroundSlices(left, right);
    ExpandIs(parts, if left == [] then 1 else |left|, left, right);
  }

  lemma AroundSeparable(left: seq<string>, right: seq<string>)
    requires PlainParts(left) && PlainParts(right)
    ensures Separable(Around(left, right), ':')
    ensures forall i | 0 <= i < |Around(left, right)| :: !Has(Around(left, right)[i], '.')
  {
    var parts := Around(left, right);
    forall i | 0 <= i < |parts|
      ensures parts[i] == "" || parts[i] in left || parts[i] in right
    {
    }
  }

  lemma AroundParses(left: seq<string>, right: seq<string>)
    requires PlainParts(left) && PlainParts(right) && |left| + |right| <= 7
    ensures ParseV6(Join(Around(left, right), ':'))
         == Some(HextetValues(left) + seq(8 - |left| - |right|, _ => 0) + HextetValues(right))
  {
    var parts := Around(left, right);
    AroundAt(left, right, 0);
    AroundSeparable(left, right);
    SplitJoin(parts, ':');
    AroundSkips(left, right);
    AroundExpands(left, right);
    assert Undotted(parts) == Some(parts);
  }

  lemma AllParses(parts: seq<string>)
    requires PlainParts(parts) && |parts| == 8
    ensures ParseV6(Join(parts, ':')) == Some(HextetValues(parts))
  {
    SplitJoin(parts, ':');
    NextSkipIs(parts, 1, 7);
    assert Undotted(parts) == Some(parts);
  }

  /** The canonical text of eight hextets reads back as those hextets. */
  lemma V6RoundTrip(h: seq<nat>)
    requires IsV6(h)
    ensures ParseV6(PrintV6(h)) == Some(h)
  {
    var s := BestStart(h, 0);
    var e := s + ZeroRun(h, s);
    if e <= s + 1 {
      HexPartsFacts(h);
      AllParses(HexParts(h));
    } else {
      RunParses(h, s, e);
    }
  }

  lemma RunParses(h: seq<nat>, s: nat, e: nat)
    requires IsV6(h) && s + 1 < e <= 8 && forall i | s <= i < e :: h[i] == 0
    ensures ParseV6(Join(Around(HexParts(h[..s]), HexParts(h[e..])), ':')) == Some(h)
  {
    HexPartsFacts(h[..s]);
    HexPartsFacts(h[e..]);
    AroundParses(HexParts(h[..s]), HexParts(h[e..]));
    assert h == h[..s] + seq(e - s, _ => 0) + h[e..];
  }

  // ---- host and port ------------------------------------------------------------------

  datatype Ip = V4(octets: seq<nat>) | V6(hextets: seq<nat>)

  /** `ipaddress.ip_address(host)` */
  function ParseIp(host: string): Option<Ip> {
    if ParseV4(host).Some? then Some(V4(ParseV4(host).value))
    else if ParseV6(host).Some? then Some(V6(ParseV6(host).value))
    else None
  }

  /** Position after the last `c`, or 0. */
  function AfterLast(s: string, c: char): (n: nat)
    ensures n <= |s| && (n > 0 ==> s[n - 1] == c)
    ensures forall i | n <= i < |s| :: s[i] != c
  {
    if s == "" then 0 else if s[|s| - 1] == c then |s| else AfterLast(s[..|s| - 1], c)
  }

  /** A port from 1 to 65535 exactly as `str` prints it. */
  predicate IsPort(s: string) {
    && IsDecimal(s)
    && (DecimalNumeral(s); 1 <= FromBase(s, 10) <= 65535)
    && s == (DecimalNumeral(s); ToBase(FromBase(s, 10), 10))
  }

  /** Host and port text of an address, in brackets or not. */
  function HostAndPort(value: string): Option<(string, string)> {
    if value != "" && value[0] == '[' then
      var end := IndexOf(value, ']');
      if end + 1 >= |value| || value[end + 1] != ':' then None else Some((value[1..end], value[end + 2..]))
    else
      var n := AfterLast(value, ':');
      if n == 0 then None else Some((value[..n - 1], value[n..]))
  }

  function RenderHost(ip: Ip): string
    requires if ip.V4? then |ip.octets| == 4 else |ip.hextets| == 8
  {
    if ip.V4? then PrintV4(ip.octets) else "[" + PrintV6(ip.hextets) + "]"
  }

  predicate ValidIp(ip: Ip) {
    if ip.V4? then IsV4(ip.octets) else IsV6(ip.hextets)
  }

  /** `_address`: the canonical rendering of an address and port. */
  function Address(value: string): Option<string> {
    var split := HostAndPort(value);
    if split.None? then None
    else
      var ip := ParseIp(split.value.0);
      if ip.None? || !IsPort(split.value.1) then None
      else ParsedIp(split.value.0); Some(RenderHost(ip.value) + ":" + split.value.1)
  }

  lemma HextetBound(s: string)
    requires IsHextet(s)
    ensures HextetValue(s) < 65536
  {
    if |s| > 1 {
      var a := s[..|s| - 1];
      assert FromBase(s, 16) == FromBase(a, 16) * 16 + DigitValue(s[|s| - 1]);
      if |a| > 1 {
        var b := a[..|a| - 1];
        assert FromBase(a, 16) == FromBase(b, 16) * 16 + DigitValue(a[|a| - 1]);
        if |b| > 1 {
          var c := b[..|b| - 1];
          assert FromBase(b, 16) == FromBase(c, 16) * 16 + DigitValue(b[|b| - 1]);
          assert |c| == 1;
        }
      }
    }
  }

  lemma HextetsBound(parts: seq<string>)
    requires forall i | 0 <= i < |parts| :: IsHextet(parts[i])
    ensures forall i | 0 <= i < |parts| :: HextetValues(parts)[i] < 65536
  {
    forall i | 0 <= i < |parts|
      ensures HextetValues(parts)[i] < 65536
    {
      HextetBound(parts[i]);
    }
  }

  lemma ExpandBound(parts: seq<string>, k: nat)
    requires 1 <= k < |parts| - 1 && Expand(parts, k).Some?
    ensures IsV6(Expand(parts, k).value)
  {
    var hi := if parts[0] == "" then 0 else k;
    var lo := if parts[|parts| - 1] == "" then 0 else |parts| - k - 1;
    HextetsBound(parts[..hi]);
    HextetsBound(parts[|parts| - lo..]);
  }

  lemma ParsedV6(host: string)
    requires ParseV6(host).Some?
    ensures IsV6(ParseV6(host).value)
  {
    var parts := Undotted(Split(host, ':')).value;
    var k := NextSkip(parts, 1);
    if k == |parts| - 1 {
      HextetsBound(parts);
    } else {
      ExpandBound(parts, k);
    }
  }

  lemma ParsedIp(host: string)
    requires ParseIp(host).Some?
    ensures ValidIp(ParseIp(host).value)
  {
    if ParseV4(host).None? {
      ParsedV6(host);
    }
  }
}
