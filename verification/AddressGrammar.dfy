/** The accepted IPv6 texts as a grammar (section 2.2 of RFC 4291), written down apart from the parser, and the
    form in which they are printed (section 4 of RFC 5952). */
module AddressGrammar {
  import opened Text
  import opened Addresses
  import opened AddressLaws
  import opened BridgeLimits

  /** Hextets in up to four digits each. */
  predicate Hex(parts: seq<string>, h: seq<nat>) {
    |parts| == |h| && forall i | 0 <= i < |parts| :: IsHextet(parts[i]) && HextetValue(parts[i]) == h[i]
  }

  /** The same, or with the last two hextets as an IPv4 address. */
  predicate Groups(parts: seq<string>, h: seq<nat>) {
    || Hex(parts, h)
    || (&& parts != [] && |h| == |parts| + 1
        && var n := |parts| - 1;
           var quad := ParseV4(parts[n]);
           && quad.Some? && Hex(parts[..n], h[..n])
           && h[n] == quad.value[0] * 256 + quad.value[1] && h[n + 1] == quad.value[2] * 256 + quad.value[3])
  }

  /** All eight hextets, colons between them. */
  ghost predicate Full(host: string, h: seq<nat>) {
    exists parts :: |h| == 8 && Groups(parts, h) && host == Join(parts, ':')
  }

  /** Two colons for one zero or more. */
  ghost predicate Short(host: string, h: seq<nat>) {
    exists left, right, l, r ::
      Hex(left, l) && Groups(right, r) && Abridges(host, h, left, right, l, r)
  }

  predicate Abridges(host: string, h: seq<nat>, left: seq<string>, right: seq<string>, l: seq<nat>, r: seq<nat>) {
    |l| + |r| <= 7 && h == l + seq(8 - |l| - |r|, _ => 0) + r && host == Join(left, ':') + "::" + Join(right, ':')
  }

  // ---- parts ---------------------------------------------------------------------------------------

  lemma HexPlain(parts: seq<string>, h: seq<nat>)
    requires Hex(parts, h)
    ensures PlainParts(parts) && HextetValues(parts) == h
    ensures forall i | 0 <= i < |parts| :: parts[i] != ""
  {
    forall i | 0 <= i < |parts|
      ensures !Has(parts[i], ':') && !Has(parts[i], '.')
    {
      HextetPlain(parts[i]);
    }
  }

  lemma HextetPlain(s: string)
    requires IsHextet(s)
    ensures !Has(s, ':') && !Has(s, '.')
  {
  }

  lemma QuadPlain(s: string)
    requires ParseV4(s).Some?
    ensures !Has(s, ':') && Has(s, '.') && s != ""
  {
    QuadChars(s);
    var o := ParseV4(s).value;
    V4Canonical(s);
    assert PrintV4(o)[|ToBase(o[0], 10)|] == '.';
  }

  lemma QuadChars(s: string)
    requires ParseV4(s).Some?
    ensures !Has(s, ':')
  {
    V4Canonical(s);
    V4Chars(ParseV4(s).value);
    forall i | 0 <= i < |s|
      ensures s[i] != ':'
    {
      assert V4Char(s[i]);
    }
  }

  // ---- the dotted end ------------------------------------------------------------------------------

  /** The parts once a dotted end has been turned into two hextets. */
  ghost predicate Turned(split: seq<string>, parts: seq<string>)
    requires split != []
  {
    || (parts == split && !Has(split[|split| - 1], '.'))
    || (var n := |split| - 1;
        var quad := ParseV4(split[n]);
        && quad.Some? && |parts| == n + 2 && parts[..n] == split[..n]
        && Hex(parts[n..], [quad.value[0] * 256 + quad.value[1], quad.value[2] * 256 + quad.value[3]]))
  }

  lemma TwoHextets(a: nat, b: nat)
    requires a < 65536 && b < 65536
    ensures Hex([ToBase(a, 16), ToBase(b, 16)], [a, b])
  {
    HexPart(a);
    HexPart(b);
  }

  lemma UndottedExactly(split: seq<string>)
    requires split != []
    ensures Undotted(split).Some? ==> Turned(split, Undotted(split).value)
    ensures ParseV4(split[|split| - 1]).Some? ==> Undotted(split).Some?
    ensures !Has(split[|split| - 1], '.') ==> Undotted(split) == Some(split)
  {
    var last := split[|split| - 1];
    if ParseV4(last).Some? {
      var o := ParseV4(last).value;
      QuadPlain(last);
      TwoHextets(o[0] * 256 + o[1], o[2] * 256 + o[3]);
      var parts := Undotted(split).value;
      assert parts[|split| - 1..] == [ToBase(o[0] * 256 + o[1], 16), ToBase(o[2] * 256 + o[3], 16)];
    }
  }

  /** Groups before and after the turn. */
  lemma TurnedGroups(split: seq<string>, parts: seq<string>, h: seq<nat>)
    requires split != [] && Turned(split, parts)
    ensures Groups(split, h) <==> Hex(parts, h)
  {
    var n := |split| - 1;
    if parts == split && !Has(split[n], '.') {
      if ParseV4(split[n]).Some? {
        QuadPlain(split[n]);
      }
    } else {
      var o := ParseV4(split[n]).value;
      QuadPlain(split[n]);
      var tail := [o[0] * 256 + o[1], o[2] * 256 + o[3]];
      TurnedQuad(split, parts, h, n, tail);
    }
  }

  lemma TurnedQuad(split: seq<string>, parts: seq<string>, h: seq<nat>, n: nat, tail: seq<nat>)
    requires n == |split| - 1 && ParseV4(split[n]).Some? && Has(split[n], '.') && |tail| == 2
    requires var o := ParseV4(split[n]).value; tail == [o[0] * 256 + o[1], o[2] * 256 + o[3]]
    requires |parts| == n + 2 && parts[..n] == split[..n] && Hex(parts[n..], tail)
    ensures Groups(split, h) <==> Hex(parts, h)
  {
    if Hex(split, h) {
      HextetPlain(split[n]);
    }
    if Hex(parts, h) {
      assert forall i | 0 <= i < n :: parts[..n][i] == parts[i];
      assert parts[n..][0] == parts[n] && parts[n..][1] == parts[n + 1];
    }
    if Groups(split, h) {
      forall i | 0 <= i < |parts|
        ensures IsHextet(parts[i]) && HextetValue(parts[i]) == h[i]
      {
        if i < n {
          assert parts[i] == parts[..n][i] == split[..n][i];
        } else {
          assert parts[i] == parts[n..][i - n];
        }
      }
    }
  }

  lemma GroupsPlain(parts: seq<string>, h: seq<nat>)
    requires Groups(parts, h)
    ensures forall i | 0 <= i < |parts| :: !Has(parts[i], ':') && parts[i] != ""
  {
    forall i | 0 <= i < |parts|
      ensures !Has(parts[i], ':') && parts[i] != ""
    {
      if Hex(parts, h) {
        HextetPlain(parts[i]);
      } else if i < |parts| - 1 {
        assert parts[i] == parts[..|parts| - 1][i];
        HextetPlain(parts[i]);
      } else {
        QuadPlain(parts[i]);
      }
    }
  }

  // ---- every text of the grammar is read ---------------------------------------------------------------

  lemma FullReads(host: string, h: seq<nat>, split: seq<string>)
    requires |h| == 8 && Groups(split, h) && host == Join(split, ':')
    ensures ParseV6(host) == Some(h)
  {
    GroupsPlain(split, h);
    SplitJoin(split, ':');
    UndottedExactly(split);
    var parts := Undotted(split).value;
    TurnedGroups(split, parts, h);
    HexPlain(parts, h);
    NextSkipIs(parts, 1, 7);
  }

  lemma {:induction false} JoinConcat(a: seq<string>, b: seq<string>)
    requires a != [] && b != []
    ensures Join(a + b, ':') == Join(a, ':') + ":" + Join(b, ':')
    decreases |a|
  {
    if |a| == 1 {
      assert (a + b)[1..] == b;
    } else {
      assert (a + b)[1..] == a[1..] + b;
      JoinConcat(a[1..], b);
    }
  }

  lemma JoinAround(left: seq<string>, right: seq<string>)
    ensures Join(Around(left, right), ':') == Join(left, ':') + "::" + Join(right, ':')
  {
    var tail := right + if right == [] then [""] else [];
    var head := (if left == [] then [""] else []) + left;
    assert Around(left, right) == head + ([""] + tail);
    assert head == if left == [] then [""] else left;
    assert tail == if right == [] then [""] else right;
    assert Join(head, ':') == Join(left, ':') && Join(tail, ':') == Join(right, ':');
    JoinConcat([""], tail);
    JoinConcat(head, [""] + tail);
    assert "" + ":" + Join(tail, ':') == ":" + Join(tail, ':');
    assert Join(head, ':') + ":" + (":" + Join(tail, ':')) == Join(left, ':') + "::" + Join(right, ':');
  }

  lemma AroundMember(left: seq<string>, right: seq<string>, i: nat)
    requires i < |Around(left, right)|
    ensures Around(left, right)[i] == "" || Around(left, right)[i] in left || Around(left, right)[i] in right
  {
    AroundAt(left, right, i);
  }

  /** A turn at the end of abridged parts is a turn at the end of the right half. */
  lemma TurnedRight(left: seq<string>, right: seq<string>, parts: seq<string>, r: seq<nat>)
    returns (turned: seq<string>)
    requires Groups(right, r) && Turned(Around(left, right), parts)
    ensures Hex(turned, r) && parts == Around(left, turned)
  {
    var split := Around(left, right);
    if right == [] {
      turned := [];
      if ParseV4(split[|split| - 1]).Some? {
        QuadPlain(split[|split| - 1]);
      }
    } else {
      var n := |right| - 1;
      assert split[|split| - 1] == right[n];
      if ParseV4(right[n]).Some? {
        turned := right[..n] + parts[|split| - 1..];
        QuadPlain(right[n]);
        assert split == split[..|split| - 1] + [right[n]];
        assert parts == split[..|split| - 1] + parts[|split| - 1..];
        assert Turned(right, turned);
        TurnedGroups(right, turned, r);
        AroundExtend(left, right[..n], right[n], parts[|split| - 1..]);
      } else {
        turned := right;
        TurnedGroups(right, right, r);
      }
    }
  }

  lemma AroundExtend(left: seq<string>, init: seq<string>, last: string, tail: seq<string>)
    requires tail != []
    ensures var split := Around(left, init + [last]);
            split[..|split| - 1] + tail == Around(left, init + tail)
  {
  }

  lemma OneSkip(host: string, parts: seq<string>, k: nat, h: seq<nat>)
    requires Undotted(Split(host, ':')) == Some(parts) && |Split(host, ':')| >= 3 && 3 <= |parts| <= 9
    requires 1 <= k < |parts| - 1 && NextSkip(parts, 1) == k && NextSkip(parts, k + 1) == |parts| - 1
    requires Expand(parts, k) == Some(h)
    ensures ParseV6(host) == Some(h)
  {
  }

  lemma UndottedReads(host: string, left: seq<string>, turned: seq<string>, l: seq<nat>, r: seq<nat>)
    requires Undotted(Split(host, ':')) == Some(Around(left, turned)) && |Split(host, ':')| >= 3
    requires Hex(left, l) && Hex(turned, r) && |l| + |r| <= 7
    ensures ParseV6(host) == Some(l + seq(8 - |l| - |r|, _ => 0) + r)
  {
    HexPlain(left, l);
    HexPlain(turned, r);
    AroundAt(left, turned, 0);
    AroundSkips(left, turned);
    var k := if left == [] then 1 else |left|;
    AroundValue(left, turned, l, r, k);
    OneSkip(host, Around(left, turned), k, l + seq(8 - |l| - |r|, _ => 0) + r);
  }

  lemma AroundValue(left: seq<string>, turned: seq<string>, l: seq<nat>, r: seq<nat>, k: nat)
    requires Hex(left, l) && Hex(turned, r) && |l| + |r| <= 7 && k == if left == [] then 1 else |left|
    ensures k < |Around(left, turned)| - 1 <= 8
    ensures Expand(Around(left, turned), k) == Some(l + seq(8 - |l| - |r|, _ => 0) + r)
  {
    HexPlain(left, l);
    HexPlain(turned, r);
    AroundExpands(left, turned);
  }

  lemma ShortReads(host: string, h: seq<nat>, left: seq<string>, right: seq<string>, l: seq<nat>, r: seq<nat>)
    requires Hex(left, l) && Groups(right, r) && Abridges(host, h, left, right, l, r)
    ensures ParseV6(host) == Some(h)
  {
    var split := Around(left, right);
    HexPlain(left, l);
    GroupsPlain(right, r);
    JoinAround(left, right);
    forall i | 0 <= i < |split|
      ensures !Has(split[i], ':')
    {
      AroundMember(left, right, i);
    }
    SplitJoin(split, ':');
    UndottedExactly(split);
    LastTurns(left, right, r);
    var turned := TurnedRight(left, right, Undotted(split).value, r);
    UndottedReads(host, left, turned, l, r);
  }

  lemma LastTurns(left: seq<string>, right: seq<string>, r: seq<nat>)
    requires Groups(right, r)
    ensures Undotted(Around(left, right)).Some?
  {
    var split := Around(left, right);
    UndottedExactly(split);
    if right == [] {
      assert split[|split| - 1] == "";
    } else {
      assert split[|split| - 1] == right[|right| - 1];
      if Hex(right, r) {
        HextetPlain(right[|right| - 1]);
      }
    }
  }

  // ---- and nothing else is -------------------------------------------------------------------------------

  /** What an expansion makes of parts with one skip. */
  lemma ExpandedHalves(parts: seq<string>, k: nat, h: seq<nat>)
    returns (left: seq<string>, turned: seq<string>, l: seq<nat>, r: seq<nat>)
    requires 1 <= k < |parts| - 1 && parts[k] == "" && Expand(parts, k) == Some(h)
    ensures Hex(left, l) && Hex(turned, r) && |l| + |r| <= 7
    ensures h == l + seq(8 - |l| - |r|, _ => 0) + r && parts == Around(left, turned)
  {
    var hi := if parts[0] == "" then 0 else k;
    var lo := if parts[|parts| - 1] == "" then 0 else |parts| - k - 1;
    ExpandedValue(parts, k, h, hi, lo);
    left, turned := parts[..hi], parts[|parts| - lo..];
    l, r := HextetValues(left), HextetValues(turned);
    HalvesAround(parts, k, hi, lo);
  }

  lemma ExpandedValue(parts: seq<string>, k: nat, h: seq<nat>, hi: nat, lo: nat)
    requires 1 <= k < |parts| - 1 && Expand(parts, k) == Some(h)
    requires hi == if parts[0] == "" then 0 else k
    requires lo == if parts[|parts| - 1] == "" then 0 else |parts| - k - 1
    ensures (parts[0] == "" ==> k == 1) && (parts[|parts| - 1] == "" ==> k == |parts| - 2) && hi + lo <= 7
    ensures AllHextets(parts[..hi]) && AllHextets(parts[|parts| - lo..])
    ensures h == HextetValues(parts[..hi]) + seq(8 - hi - lo, _ => 0) + HextetValues(parts[|parts| - lo..])
  {
    HalvesHex(parts, hi, lo);
  }

  lemma HalvesHex(parts: seq<string>, hi: nat, lo: nat)
    requires hi <= |parts| && lo <= |parts|
    requires forall i | 0 <= i < hi :: IsHextet(parts[i])
    requires forall i | |parts| - lo <= i < |parts| :: IsHextet(parts[i])
    ensures AllHextets(parts[..hi]) && AllHextets(parts[|parts| - lo..])
  {
  }

  predicate AllHextets(parts: seq<string>) {
    forall i | 0 <= i < |parts| :: IsHextet(parts[i])
  }

  lemma HalvesAround(parts: seq<string>, k: nat, hi: nat, lo: nat)
    requires 1 <= k < |parts| - 1 && parts[k] == ""
    requires hi == if parts[0] == "" then 0 else k
    requires lo == if parts[|parts| - 1] == "" then 0 else |parts| - k - 1
    requires (parts[0] == "" ==> k == 1) && (parts[|parts| - 1] == "" ==> k == |parts| - 2)
    ensures parts == Around(parts[..hi], parts[|parts| - lo..])
  {
    var made := Around(parts[..hi], parts[|parts| - lo..]);
    assert |made| == |parts|;
    forall i | 0 <= i < |parts|
      ensures made[i] == parts[i]
    {
      AroundAt(parts[..hi], parts[|parts| - lo..], i);
    }
  }

  /** The turn undone in the right half. */
  lemma UnturnedRight(split: seq<string>, left: seq<string>, turned: seq<string>, r: seq<nat>)
    returns (right: seq<string>)
    requires split != [] && Turned(split, Around(left, turned)) && Hex(turned, r)
    ensures Groups(right, r) && split == Around(left, right)
  {
    var parts, n := Around(left, turned), |split| - 1;
    if parts == split && !Has(split[n], '.') {
      right := turned;
    } else {
      assert parts[n] == parts[n..][0] && parts[n + 1] == parts[n..][1];
      TwoAtEnd(left, turned);
      right := turned[..|turned| - 2] + [split[n]];
      UnturnedSplit(split, left, turned, right);
      UnturnedGroups(split[n], parts[n..], turned, right, r);
    }
  }

  lemma UnturnedSplit(split: seq<string>, left: seq<string>, turned: seq<string>, right: seq<string>)
    requires split != [] && |turned| >= 2 && |Around(left, turned)| == |split| + 1
    requires Around(left, turned)[..|split| - 1] == split[..|split| - 1]
    requires right == turned[..|turned| - 2] + [split[|split| - 1]]
    ensures split == Around(left, right)
  {
    var m := |turned| - 2;
    assert turned == turned[..m] + turned[m..];
    AroundShrink(left, turned[..m], turned[m..], split[|split| - 1]);
    assert split == split[..|split| - 1] + [split[|split| - 1]];
  }

  lemma UnturnedGroups(last: string, tail: seq<string>, turned: seq<string>, right: seq<string>, r: seq<nat>)
    requires |turned| >= 2 && tail == turned[|turned| - 2..] && Hex(turned, r) && ParseV4(last).Some?
    requires right == turned[..|turned| - 2] + [last]
    requires var o := ParseV4(last).value; Hex(tail, [o[0] * 256 + o[1], o[2] * 256 + o[3]])
    ensures Groups(right, r)
  {
    var n := |right| - 1;
    assert right[..n] == turned[..n] && turned[n..] == tail;
    assert Turned(right, turned);
    TurnedGroups(right, turned, r);
  }

  lemma TwoAtEnd(left: seq<string>, turned: seq<string>)
    requires var parts := Around(left, turned); parts[|parts| - 1] != "" && parts[|parts| - 2] != ""
    ensures |turned| >= 2
    ensures var parts := Around(left, turned); parts[|parts| - 2..] == turned[|turned| - 2..]
  {
  }

  lemma AroundShrink(left: seq<string>, init: seq<string>, tail: seq<string>, last: string)
    requires tail != []
    ensures var parts := Around(left, init + tail);
            parts[..|parts| - |tail|] + [last] == Around(left, init + [last])
  {
  }

  /** Exactly the texts that are read as these hextets. */
  lemma TextsExactly(host: string, h: seq<nat>)
    ensures ParseV6(host) == Some(h) <==> Full(host, h) || Short(host, h)
  {
    if Full(host, h) {
      var parts :| |h| == 8 && Groups(parts, h) && host == Join(parts, ':');
      FullReads(host, h, parts);
    }
    if Short(host, h) {
      var left, right, l, r :| Hex(left, l) && Groups(right, r) && Abridges(host, h, left, right, l, r);
      ShortReads(host, h, left, right, l, r);
    }
    if ParseV6(host) == Some(h) {
      ReadIsText(host, h);
    }
  }

  lemma ReadIsText(host: string, h: seq<nat>)
    requires ParseV6(host) == Some(h)
    ensures Full(host, h) || Short(host, h)
  {
    var split := Split(host, ':');
    var parts := Undotted(split).value;
    var k := NextSkip(parts, 1);
    JoinSplit(host, ':');
    UndottedExactly(split);
    if k == |parts| - 1 {
      assert Hex(parts, h);
      TurnedGroups(split, parts, h);
    } else {
      var left, turned, l, r := ExpandedHalves(parts, k, h);
      var right := UnturnedRight(split, left, turned, r);
      JoinAround(left, right);
      assert Abridges(host, h, left, right, l, r);
    }
  }

  // ---- the printed form ------------------------------------------------------------------------------------

  /** Zeros from `a` to `b`. */
  predicate Zeros(h: seq<nat>, a: nat, b: nat) {
    a <= b <= |h| && forall i | a <= i < b :: h[i] == 0
  }

  /** An address without two zeros in a row is printed in full. */
  lemma PrintedInFull(h: seq<nat>)
    requires IsV6(h) && forall i | 0 <= i < 7 :: h[i] != 0 || h[i + 1] != 0
    ensures PrintV6(h) == Join(HexParts(h), ':')
  {
    var s := BestStart(h, 0);
    var e := s + ZeroRun(h, s);
    if e > s + 1 {
      TwoZeros(h, s);
    }
  }

  lemma TwoZeros(h: seq<nat>, s: nat)
    requires s < |h| && ZeroRun(h, s) >= 2
    ensures s + 1 < |h| && h[s] == 0 && h[s + 1] == 0
  {
  }

  /** Otherwise the longest run of zeros, the first of several, becomes two colons. */
  lemma PrintedShort(h: seq<nat>, i: nat) returns (s: nat, e: nat)
    requires IsV6(h) && i < 7 && h[i] == 0 && h[i + 1] == 0
    ensures Zeros(h, s, e) && e - s >= 2
    ensures forall a: nat, b: nat | Zeros(h, a, b) :: b - a < e - s || (b - a == e - s && s <= a)
    ensures PrintV6(h) == Join(HexParts(h[..s]), ':') + "::" + Join(HexParts(h[e..]), ':')
  {
    s, e := LongestRun(h, i);
    JoinAround(HexParts(h[..s]), HexParts(h[e..]));
  }

  lemma LongestRun(h: seq<nat>, i: nat) returns (s: nat, e: nat)
    requires IsV6(h) && i < 7 && h[i] == 0 && h[i + 1] == 0
    ensures Zeros(h, s, e) && e - s >= 2 && s == BestStart(h, 0) && e == s + ZeroRun(h, s)
    ensures forall a: nat, b: nat | Zeros(h, a, b) :: b - a < e - s || (b - a == e - s && s <= a)
  {
    s := BestStart(h, 0);
    e := s + ZeroRun(h, s);
    assert Zeros(h, i, i + 2);
    LongestFirst(h, i, i + 2);
    forall a: nat, b: nat | Zeros(h, a, b)
      ensures b - a < e - s || (b - a == e - s && s <= a)
    {
      LongestFirst(h, a, b);
    }
  }

  lemma LongestFirst(h: seq<nat>, a: nat, b: nat)
    requires IsV6(h) && Zeros(h, a, b)
    ensures var s := BestStart(h, 0);
            b - a < ZeroRun(h, s) || (b - a == ZeroRun(h, s) && (s <= a || a == b))
  {
    RunCovers(h, a, b);
  }

  lemma {:induction false} RunCovers(h: seq<nat>, a: nat, b: nat)
    requires Zeros(h, a, b)
    ensures ZeroRun(h, a) >= b - a
    decreases |h| - a
  {
    if a < b {
      RunCovers(h, a + 1, b);
    }
  }

  /** The digits of hextets are those of lower-case hexadecimal numerals. */
  lemma DigitsExactly(d: nat)
    requires d < 16
    ensures DigitChar(d) as int == if d < 10 then 48 + d else 87 + d
  {
  }

  // ---- address and port --------------------------------------------------------------------------------------

  /** A port is the numeral `str` prints for a number from 1 to 65535. */
  lemma PortExactly(s: string)
    ensures IsPort(s) <==> exists n: nat :: 1 <= n <= 65535 && s == ToBase(n, 10)
  {
    if IsPort(s) {
      DecimalNumeral(s);
      var n := FromBase(s, 10);
      assert 1 <= n <= 65535 && s == ToBase(n, 10);
    }
    if n: nat :| 1 <= n <= 65535 && s == ToBase(n, 10) {
      ToBaseDigits(n);
      ToFromBase(n, 10);
    }
  }

  /** The text is the host and the port, with brackets around the host or without. */
  predicate Parts(value: string, host: string, port: string) {
    || value == "[" + host + "]" + ":" + port
    || (value == host + ":" + port && value[0] != '[')
  }

  /** Exactly the accepted addresses, and what each is rendered as. */
  lemma AddressExactly(value: string, address: string)
    ensures Address(value) == Some(address)
       <==> exists host, port :: Parts(value, host, port) && IsPort(port) && Renders(host, port, address)
  {
    if Address(value) == Some(address) {
      var (host, port) := HostAndPort(value).value;
      PartsOf(value, host, port);
      AddressShape(value);
      assert Renders(host, port, address);
    }
    if host, port :| Parts(value, host, port) && IsPort(port) && Renders(host, port, address) {
      HostChars(host);
      PartsRead(value, host, port);
      ParsedIp(host);
      RendersExactly(host, port, address);
    }
  }

  /** An IPv4 host is rendered as it is, an IPv6 host in its printed form and in brackets. */
  ghost predicate Renders(host: string, port: string, address: string) {
    && (ParseV4(host).Some? || ParseV6(host).Some?)
    && address == (if ParseV4(host).Some? then host else "[" + PrintV6Of(host) + "]") + ":" + port
  }

  /** The printed form of an IPv6 text. */
  function PrintV6Of(host: string): string {
    if ParseV6(host).Some? then ParsedV6(host); PrintV6(ParseV6(host).value) else ""
  }

  lemma RendersExactly(host: string, port: string, address: string)
    requires Renders(host, port, address)
    ensures ParseIp(host).Some? && ValidIp(ParseIp(host).value)
    ensures address == RenderHost(ParseIp(host).value) + ":" + port
  {
    ParsedIp(host);
    if ParseV4(host).Some? {
      V4Canonical(host);
    }
  }

  lemma PartsOf(value: string, host: string, port: string)
    requires HostAndPort(value) == Some((host, port))
    ensures Parts(value, host, port)
  {
    if value[0] == '[' {
      var end := IndexOf(value, ']');
      assert value == value[..1] + value[1..end] + value[end..end + 2] + value[end + 2..];
    }
  }

  lemma PartsRead(value: string, host: string, port: string)
    requires Parts(value, host, port) && IsPort(port) && All(host, HostChar)
    ensures HostAndPort(value) == Some((host, port))
  {
    if value == "[" + host + "]" + ":" + port {
      forall i | 0 <= i < |host|
        ensures host[i] != ']'
      {
        assert HostChar(host[i]);
      }
      SplitBracketed(host, port);
    } else {
      PlainRead(value, host, port);
    }
  }

  lemma PlainRead(value: string, host: string, port: string)
    requires value == host + ":" + port && value[0] != '[' && IsDecimal(port)
    ensures HostAndPort(value) == Some((host, port))
  {
    assert forall i | |host| < i < |value| :: value[i] == port[i - |host| - 1];
    AfterLastIs(value, ':', |host| + 1);
    assert value[..|host|] == host && value[|host| + 1..] == port;
  }
}
