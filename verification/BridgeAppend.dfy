/** An append to the bridges file is faithful exactly when the old text ends its last line. */
module BridgeAppend {
  import opened Text
  import opened Lines
  import opened Addresses
  import opened AddressLaws
  import opened Bridges
  import opened BridgeLaws
  import opened BridgeLimits
  import opened BridgeStore

  lemma NoInnerBracket(u: string, a: string)
    requires u != "" && a != "" && Address(u + a).Some?
    ensures a[0] != '['
  {
    AddressInput(u + a);
    assert (u + a)[|u|] == a[0];
  }

  lemma V4Glued(u: string, host: string, port: string)
    requires u != "" && host != "" && All(host, V4Char)
    ensures HostAndPort(u + (host + ":" + port)) != Some((host, port))
  {
    var v := u + (host + ":" + port);
    assert v[|u| + |host| - 1] == host[|host| - 1];
    assert V4Char(host[|host| - 1]);
  }

  /** Nothing can stand in front of a canonical address and leave it the same address. */
  lemma GluedAddress(u: string, a: string)
    requires u != "" && Address(a) == Some(a)
    ensures Address(u + a) != Some(a)
  {
    if Address(u + a) == Some(a) {
      AddressChars(u + a);
      NoInnerBracket(u, a);
      AddressShape(u + a);
      var (host, port) := HostAndPort(u + a).value;
      V4Glued(u, host, port);
    }
  }

  lemma GlueNoSep(u: string, s: string, sep: char)
    requires !Has(u, sep)
    ensures Split(u + s, sep) == [u + Split(s, sep)[0]] + Split(s, sep)[1..]
  {
    var m := IndexOf(s, sep);
    IndexOfIs(u + s, sep, |u| + m);
    if m < |s| {
      assert (u + s)[..|u| + m] == u + s[..m];
      assert (u + s)[|u| + m + 1..] == s[m + 1..];
    }
  }

  /** Text in front of a line adds to the number of its tokens, or to its first token. */
  lemma {:induction false} SplitGlue(u: string, s: string, sep: char)
    ensures |Split(u + s, sep)| >= |Split(s, sep)|
    ensures |Split(u + s, sep)| == |Split(s, sep)| ==> !Has(u, sep)
    decreases |u|
  {
    var n := IndexOf(u, sep);
    if n == |u| {
      GlueNoSep(u, s, sep);
    } else {
      IndexOfIs(u + s, sep, n);
      assert (u + s)[n + 1..] == u[n + 1..] + s;
      SplitGlue(u[n + 1..], s, sep);
    }
  }

  /** Nor in front of a whole canonical line. */
  lemma GluedLine(u: string, b: Bridge)
    requires u != "" && Canonical(b)
    ensures ParseLine(u + Line(b)) != Some(b)
  {
    if ParseLine(u + Line(b)) == Some(b) {
      var tokens := Split(u + Line(b), ' ');
      LineReads(b);
      SplitGlue(u, Line(b), ' ');
      ParsedParts(tokens);
      OptionsKeepLength(tokens);
      GlueNoSep(u, Line(b), ' ');
      assert tokens[0] == u + Tokens(b)[0];
      if b.transport == "vanilla" {
        GluedAddress(u, b.address);
      }
    }
  }

  lemma LoadLineParses(line: string, b: Bridge)
    requires LoadLine(line) == [b]
    ensures ParseLine(Chomp(line)) == Some(b)
  {
  }

  lemma LoadLineShort(line: string)
    ensures |LoadLine(line)| <= 1
  {
  }

  lemma ChompLine(text: string)
    requires text != "" && text[|text| - 1] != '\r'
    ensures Chomp(text + "\n") == text
  {
    var line := text + "\n";
    assert line[|line| - 2] == text[|text| - 1];
    assert line[..|line| - 1] == text;
  }

  lemma LoadGlued(u: string, b: Bridge)
    requires u != "" && Canonical(b)
    ensures LoadLine(u + Line(b) + "\n") != LoadLine(u) + [b]
  {
    LoadLineShort(u);
    LoadLineShort(u + Line(b) + "\n");
    PrintedLine(b);
    ChompLine(u + Line(b));
    GluedLine(u, b);
    if LoadLine(u + Line(b) + "\n") == [b] {
      LoadLineParses(u + Line(b) + "\n", b);
    }
  }

  /** The lines of a text whose last line has no break. */
  lemma UnendedLast(text: string) returns (init: seq<string>, u: string)
    requires !Has(text, '\r') && !LineEnded(text)
    ensures SplitLines(text) == init + [u] && Concat(init + [u]) == text
    ensures ProperLines(init + [u]) && !Terminated(u) && u != ""
  {
    ConcatSplit(text);
    var lines := SplitLines(text);
    ConcatLast(lines);
    init, u := lines[..|lines| - 1], lines[|lines| - 1];
    assert lines == init + [u];
  }

  lemma GluedProper(u: string, text: string)
    requires Proper(u) && !Terminated(u) && Proper(text)
    ensures Proper(u + text)
  {
    var line := u + text;
    assert forall i | 0 <= i < |line| :: line[i] == if i < |u| then u[i] else text[i - |u|];
  }

  lemma ConcatOne(line: string)
    ensures Concat([line]) == line
  {
    assert [line][1..] == [];
  }

  lemma GluedConcat(init: seq<string>, u: string, text: string)
    ensures Concat(init + [u]) + text == Concat(init + [u + text])
  {
    ConcatAppend(init, [u]);
    ConcatAppend(init, [u + text]);
    ConcatOne(u);
    ConcatOne(u + text);
    assert Concat(init) + u + text == Concat(init) + (u + text);
  }

  lemma InitProper(init: seq<string>, u: string)
    requires ProperLines(init + [u])
    ensures ProperLines(init) && Proper(u) && (init != [] ==> Terminated(init[|init| - 1]))
  {
    var ls := init + [u];
    assert forall i | 0 <= i < |init| :: ls[i] == init[i];
    assert ls[|init|] == u;
  }

  /** The first line of a text that is appended joins an unfinished last line. */
  lemma GluedLines(init: seq<string>, u: string, line: string, tail: seq<string>)
    requires ProperLines(init + [u]) && !Terminated(u)
    requires Proper(line) && Terminated(line) && ProperLines(tail)
    ensures SplitLines(ReadText(Concat(init + [u]) + (line + Concat(tail)))) == init + [u + line] + tail
  {
    GluedAll(init, u, line, tail);
    GluedConcat(init, u, line);
    ConcatAppend(init + [u + line], tail);
    assert Concat(init + [u]) + (line + Concat(tail)) == Concat(init + [u]) + line + Concat(tail);
    ReadBack(init + [u + line] + tail);
  }

  lemma GluedAll(init: seq<string>, u: string, line: string, tail: seq<string>)
    requires ProperLines(init + [u]) && !Terminated(u)
    requires Proper(line) && Terminated(line) && ProperLines(tail)
    ensures ProperLines(init + [u + line] + tail)
  {
    InitProper(init, u);
    GluedProper(u, line);
    ProperAppend(init, [u + line]);
    ProperAppend(init + [u + line], tail);
  }

  lemma EncodeFirst(b: Bridge, rest: seq<Bridge>)
    ensures Encode([b] + rest) == Line(b) + "\n" + Encode(rest)
  {
    EncodeCons(b, rest);
    assert ([Line(b) + "\n"] + EncodeLines(rest))[1..] == EncodeLines(rest);
  }

  /** The line a text ends with. */
  function LastLine(text: string): string {
    var lines := SplitLines(text);
    if lines == [] then "" else lines[|lines| - 1]
  }

  /** The two ways in which a batch can follow an unfinished line unharmed: there is none, or its first
      line is too long to be read anyway and the unfinished line means nothing either. */
  predicate NothingToLose(text: string, bridges: seq<Bridge>) {
    bridges == [] || (|Line(bridges[0])| > MAX_BRIDGE_LINE_LENGTH && LoadLine(LastLine(text)) == [])
  }

  /** An unfinished line and the line glued to it mean what both mean apart only in that case. */
  lemma GlueLoses(u: string, b: Bridge)
    requires u != "" && Canonical(b)
    ensures LoadLine(u + (Line(b) + "\n")) == LoadLine(u) + Readable([b])
       <==> |Line(b)| > MAX_BRIDGE_LINE_LENGTH && LoadLine(u) == []
  {
    ReadableFirst(b);
    var glued := u + Line(b);
    assert u + (Line(b) + "\n") == glued + "\n";
    if |Line(b)| <= MAX_BRIDGE_LINE_LENGTH {
      LoadGlued(u, b);
    } else {
      PrintedLine(b);
      ChompLine(glued);
      TooLong(glued + "\n", glued);
    }
  }

  lemma TooLong(line: string, text: string)
    requires Chomp(line) == text && |text| > MAX_BRIDGE_LINE_LENGTH
    ensures LoadLine(line) == []
  {
  }

  lemma Unended(text: string, b: Bridge, rest: seq<Bridge>)
    requires AllCanonical([b] + rest) && !Has(text, '\r') && !LineEnded(text)
    ensures FlatMap(SplitLines(ReadText(text + Encode([b] + rest))), LoadLine)
         == FlatMap(SplitLines(text), LoadLine) + Readable([b] + rest)
       <==> NothingToLose(text, [b] + rest)
  {
    var init, u := UnendedLast(text);
    assert Canonical(([b] + rest)[0]);
    PrintedLine(b);
    EncodeFirst(b, rest);
    assert Line(b) + "\n" + Encode(rest) == (Line(b) + "\n") + Concat(EncodeLines(rest));
    RestCanonical(b, rest);
    EncodedProper(rest);
    GluedLines(init, u, Line(b) + "\n", EncodeLines(rest));
    LoadEncoded(rest);
    ReadableAppend([b], rest);
    Between(init, u + (Line(b) + "\n"), u, EncodeLines(rest), Readable([b]), LoadLine);
    GlueLoses(u, b);
  }

  lemma RestCanonical(b: Bridge, rest: seq<Bridge>)
    requires AllCanonical([b] + rest)
    ensures AllCanonical(rest)
  {
    forall i | 0 <= i < |rest|
      ensures Canonical(rest[i])
    {
      assert Canonical(([b] + rest)[i + 1]);
    }
  }

  /** Appending a batch gives the old bridges and the readable ones of the batch exactly when the text in
      the file is empty or ends with a line break, or there is nothing to lose. Otherwise the last line
      swallows the first appended one. */
  lemma AppendExactly(content: string, bridges: seq<Bridge>)
    requires AllCanonical(bridges)
    ensures Load(Saved(Some(content), bridges, true)) == Load(content) + Readable(bridges)
       <==> LineEnded(ReadText(content)) || NothingToLose(ReadText(content), bridges)
  {
    var text := ReadText(content);
    if LineEnded(text) {
      AppendLoads(content, bridges);
    } else if bridges == [] {
      assert Encode(bridges) == "" && text + "" == text;
      ReadTextIdentity(text);
    } else {
      assert [bridges[0]] + bridges[1..] == bridges;
      Unended(text, bridges[0], bridges[1..]);
    }
  }

  /** Of two lists that differ in one element, what `f` makes of them differs if it does for that one. */
  lemma Between<T, U>(init: seq<T>, x: T, y: T, tail: seq<T>, extra: seq<U>, f: T -> seq<U>)
    ensures FlatMap(init + [x] + tail, f) == FlatMap(init + [y], f) + (extra + FlatMap(tail, f))
            <==> f(x) == f(y) + extra
  {
    FlatMapAppend(init + [x], tail, f);
    FlatMapAppend(init, [x], f);
    FlatMapAppend(init, [y], f);
    FlatMapOne(x, f);
    FlatMapOne(y, f);
    Sandwich(FlatMap(init, f), f(x), f(y) + extra, FlatMap(tail, f));
    assert FlatMap(init, f) + f(y) + (extra + FlatMap(tail, f)) == FlatMap(init, f) + (f(y) + extra) + FlatMap(tail, f);
  }

  lemma Sandwich<T>(a: seq<T>, x: seq<T>, y: seq<T>, z: seq<T>)
    ensures a + x + z == a + y + z <==> x == y
  {
    if a + x + z == a + y + z {
      assert |x| == |y|;
      assert x == (a + x + z)[|a|..|a| + |x|] && y == (a + y + z)[|a|..|a| + |y|];
    }
  }
}
