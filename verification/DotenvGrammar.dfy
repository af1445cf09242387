/** The assignments of a `.env` line as a grammar, written down apart from the parser. */
module DotenvGrammar {
  import opened Text
  import opened Dotenv

  predicate Blank(s: string) {
    forall i | 0 <= i < |s| :: IsSpace(s[i])
  }

  /** Text that starts with something to see. */
  predicate Starts(s: string) {
    s != "" && !IsSpace(s[0])
  }

  /** A name and a value around the first equals sign, white space aside. */
  ghost predicate Pair(body: string, key: string, value: string) {
    exists k, v :: body == k + "=" + v && !Has(k, '=') && Trim(k) == key && Trim(v) == value
  }

  /** White space, and then the pair, or `export`, a blank and the pair; but not a comment. */
  ghost predicate Reads(line: string, key: string, value: string) {
    exists lead, body :: line == lead + body && Blank(lead) && Starts(body) && body[0] != '#' && Body(body, key, value)
  }

  ghost predicate Body(body: string, key: string, value: string) {
    if "export " <= body then
      exists gap, rest :: body == "export " + gap + rest && Blank(gap) && Starts(rest) && Pair(rest, key, value)
    else Pair(body, key, value)
  }

  lemma {:induction false} TrimmedLeft(lead: string, body: string)
    requires Blank(lead) && (body == "" || Starts(body))
    ensures TrimLeft(lead + body) == body
    decreases |lead|
  {
    if lead == "" {
      assert lead + body == body;
    } else {
      assert (lead + body)[1..] == lead[1..] + body && (lead + body)[0] == lead[0];
      TrimmedLeft(lead[1..], body);
    }
  }

  lemma PairExactly(body: string, key: string, value: string)
    ensures Pair(body, key, value) <==> Binding(body) == Some((key, value))
  {
    if Pair(body, key, value) {
      var k, v :| body == k + "=" + v && !Has(k, '=') && Trim(k) == key && Trim(v) == value;
      IndexOfIs(body, '=', |k|);
      assert body[..|k|] == k && body[|k| + 1..] == v;
    }
    if Binding(body) == Some((key, value)) {
      var n := IndexOf(body, '=');
      assert body == body[..n] + "=" + body[n + 1..];
      assert !Has(body[..n], '=');
    }
  }

  lemma BodyExactly(body: string, key: string, value: string)
    ensures Body(body, key, value)
       <==> Binding(if "export " <= body then TrimLeft(body[7..]) else body) == Some((key, value))
  {
    if "export " <= body {
      assert body == "export " + body[7..];
      ExportedExactly(body, body[7..], key, value);
    } else {
      PairExactly(body, key, value);
    }
  }

  ghost predicate Exported(tail: string, key: string, value: string) {
    exists gap, rest :: tail == gap + rest && Blank(gap) && Starts(rest) && Pair(rest, key, value)
  }

  lemma ExportedExactly(body: string, tail: string, key: string, value: string)
    requires body == "export " + tail
    ensures Body(body, key, value) <==> Binding(TrimLeft(tail)) == Some((key, value))
  {
    ExportedBody(body, tail, key, value);
    TailExactly(tail, key, value);
  }

  lemma ExportedBody(body: string, tail: string, key: string, value: string)
    requires body == "export " + tail
    ensures Body(body, key, value) <==> Exported(tail, key, value)
  {
    if Body(body, key, value) {
      var gap, rest :| body == "export " + gap + rest && Blank(gap) && Starts(rest) && Pair(rest, key, value);
      assert "export " + gap + rest == "export " + (gap + rest);
      assert tail == body[7..] == gap + rest;
    }
    if Exported(tail, key, value) {
      var gap, rest :| tail == gap + rest && Blank(gap) && Starts(rest) && Pair(rest, key, value);
      assert body == "export " + gap + rest;
    }
  }

  lemma TailExactly(tail: string, key: string, value: string)
    ensures Exported(tail, key, value) <==> Binding(TrimLeft(tail)) == Some((key, value))
  {
    var (lead, rest) := Parted(tail);
    if Exported(tail, key, value) {
      var gap, r :| tail == gap + r && Blank(gap) && Starts(r) && Pair(r, key, value);
      TrimmedLeft(gap, r);
      PairExactly(r, key, value);
    }
    if Binding(rest) == Some((key, value)) {
      PairExactly(rest, key, value);
      NonEmpty(rest, key, value);
    }
  }

  lemma NonEmpty(rest: string, key: string, value: string)
    requires Binding(rest) == Some((key, value))
    ensures rest != ""
  {
  }

  /** A text as its white space in front and the rest. */
  function Parted(s: string): (r: (string, string))
    ensures s == r.0 + r.1 && Blank(r.0) && r.1 == TrimLeft(s) && (r.1 == "" || Starts(r.1))
  {
    if s != "" && IsSpace(s[0]) then
      var (lead, rest) := Parted(s[1..]);
      assert s == [s[0]] + s[1..];
      ([s[0]] + lead, rest)
    else ("", s)
  }

  /** Exactly the lines that assign a value to a key. */
  lemma AssignmentExactly(line: string, key: string, value: string)
    ensures Assignment(line) == Some((key, value)) <==> Reads(line, key, value)
  {
    var (lead, body) := Parted(line);
    if body != "" && body[0] != '#' {
      BodyExactly(body, key, value);
    }
    if Reads(line, key, value) {
      var l, b :| line == l + b && Blank(l) && Starts(b) && b[0] != '#' && Body(b, key, value);
      TrimmedLeft(l, b);
    }
  }
}
