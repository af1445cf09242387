/** Text files as Python sees them: universal newlines and `splitlines(keepends=True)`. */
module Lines {
  import opened Text

  /** `Path.read_text` turns `\r\n` and `\r` into `\n`. */
  function ReadText(raw: string): (text: string)
    ensures !Has(text, '\r')
  {
    if raw == "" then ""
    else if raw[0] == '\r' then "\n" + ReadText(raw[if |raw| > 1 && raw[1] == '\n' then 2 else 1..])
    else [raw[0]] + ReadText(raw[1..])
  }

  /** Character by character. */
  lemma ReadTextExactly(c: char, rest: string)
    ensures c != '\r' ==> ReadText([c] + rest) == [c] + ReadText(rest)
    ensures rest == "" || rest[0] != '\n' ==> ReadText("\r" + rest) == "\n" + ReadText(rest)
    ensures ReadText("\r\n" + rest) == "\n" + ReadText(rest)
  {
    assert ([c] + rest)[1..] == rest && ("\r" + rest)[1..] == rest && ("\r\n" + rest)[2..] == rest;
  }

  lemma {:induction false} ReadTextIdentity(text: string)
    requires !Has(text, '\r')
    ensures ReadText(text) == text
  {
    if text != "" {
      assert forall i | 0 <= i < |text| - 1 :: text[1..][i] == text[i + 1];
      ReadTextIdentity(text[1..]);
    }
  }

  /** Length of the first line, its line break included. */
  function FirstLine(text: string): (n: nat)
    requires text != ""
    ensures 0 < n <= |text|
  {
    if |text| > 1 && text[0] == '\r' && text[1] == '\n' then 2
    else if |text| == 1 || IsBreak(text[0]) then 1
    else 1 + FirstLine(text[1..])
  }

  /** `text.splitlines(keepends=True)` */
  function SplitLines(text: string): seq<string>
    decreases |text|
  {
    if text == "" then []
    else var n := FirstLine(text); [text[..n]] + SplitLines(text[n..])
  }

  /** `splitlines()` drops the break that `splitlines(keepends=True)` keeps. */
  function Chomp(line: string): string {
    if |line| >= 2 && line[|line| - 2..] == "\r\n" then line[..|line| - 2]
    else if line != "" && IsBreak(line[|line| - 1]) then line[..|line| - 1]
    else line
  }

  /** One break goes from the end, `\r\n` being one, and nothing else. */
  lemma ChompExactly(text: string)
    ensures (text == "" || !IsBreak(text[|text| - 1])) ==> Chomp(text) == text
    ensures forall c | IsBreak(c) && !(c == '\n' && text != "" && text[|text| - 1] == '\r') ::
              Chomp(text + [c]) == text
    ensures Chomp(text + "\r\n") == text
  {
    assert (text + "\r\n")[|text|..] == "\r\n" && (text + "\r\n")[..|text|] == text;
    forall c | IsBreak(c) && !(c == '\n' && text != "" && text[|text| - 1] == '\r')
      ensures Chomp(text + [c]) == text
    {
      var line := text + [c];
      assert line[..|text|] == text;
      assert line[|line| - 1] == c && (|text| > 0 ==> line[|line| - 2] == text[|text| - 1]);
    }
  }

  predicate Terminated(line: string) {
    line != "" && IsBreak(line[|line| - 1])
  }

  /** A line of a file read with universal newlines. */
  predicate Proper(line: string) {
    && line != ""
    && (forall i | 0 <= i < |line| :: line[i] != '\r')
    && (forall i | 0 <= i < |line| - 1 :: !IsBreak(line[i]))
  }

  /** What `splitlines` yields: only the last line may lack a break. */
  predicate ProperLines(ls: seq<string>) {
    && (forall i | 0 <= i < |ls| :: Proper(ls[i]))
    && (forall i | 0 <= i < |ls| - 1 :: Terminated(ls[i]))
  }

  lemma {:induction false} FirstLineIs(line: string, rest: string)
    requires Proper(line)
    requires Terminated(line) || rest == ""
    ensures FirstLine(line + rest) == |line|
  {
    var text := line + rest;
    if |line| == 1 {
    } else {
      assert text[1..] == line[1..] + rest;
      assert !IsBreak(line[0]);
      FirstLineIs(line[1..], rest);
    }
  }

  /** Lines that `splitlines` could have produced come back from their concatenation. */
  lemma {:induction false} SplitConcat(ls: seq<string>)
    requires ProperLines(ls)
    ensures SplitLines(Concat(ls)) == ls
  {
    if ls != [] {
      var rest := Concat(ls[1..]);
      FirstLineIs(ls[0], rest);
      assert (ls[0] + rest)[..|ls[0]|] == ls[0];
      assert (ls[0] + rest)[|ls[0]|..] == rest;
      SplitConcat(ls[1..]);
    }
  }

  lemma {:induction false} FirstLineProper(text: string)
    requires text != "" && !Has(text, '\r')
    ensures Proper(text[..FirstLine(text)])
    ensures FirstLine(text) < |text| ==> Terminated(text[..FirstLine(text)])
  {
    if |text| > 1 && !IsBreak(text[0]) {
      FirstLineProper(text[1..]);
      var n := FirstLine(text[1..]);
      assert text[..n + 1] == [text[0]] + text[1..][..n];
    }
  }

  lemma {:induction false} ConcatSplit(text: string)
    requires !Has(text, '\r')
    ensures Concat(SplitLines(text)) == text
    ensures ProperLines(SplitLines(text))
    decreases |text|
  {
    if text != "" {
      var n := FirstLine(text);
      FirstLineProper(text);
      ConcatSplit(text[n..]);
      assert text == text[..n] + text[n..];
    }
  }

  lemma {:induction false} ConcatNoReturn(ls: seq<string>)
    requires forall i | 0 <= i < |ls| :: Proper(ls[i])
    ensures !Has(Concat(ls), '\r')
  {
    if ls != [] {
      ConcatNoReturn(ls[1..]);
    }
  }

  /** Lines written out are the lines read back. */
  lemma ReadBack(ls: seq<string>)
    requires ProperLines(ls)
    ensures SplitLines(ReadText(Concat(ls))) == ls
  {
    ConcatNoReturn(ls);
    ReadTextIdentity(Concat(ls));
    SplitConcat(ls);
  }

  /** A text ends with the last character of its last line. */
  lemma ConcatLast(ls: seq<string>)
    requires ls != [] && ls[|ls| - 1] != ""
    ensures Concat(ls) != "" && Concat(ls)[|Concat(ls)| - 1] == ls[|ls| - 1][|ls[|ls| - 1]| - 1]
  {
    var init, last := ls[..|ls| - 1], ls[|ls| - 1];
    assert ls == init + [last];
    ConcatAppend(init, [last]);
    assert Concat([last]) == last;
  }
}
