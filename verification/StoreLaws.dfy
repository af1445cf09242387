/** What loading, saving and adding do, case by case. */
module StoreLaws {
  import opened Text
  import opened Lines
  import opened Bridges
  import opened BridgeStore
  import opened BridgeAppend

  /** A line gives the bridge it parses to; that comments and empty lines are passed over makes no difference. */
  lemma LoadLineExactly(line: string)
    ensures LoadLine(line) == match ParseLine(Chomp(line)) case Some(b) => [b] case None => []
  {
    var text := Chomp(line);
    if text != "" && text[0] == '#' {
      assert !Spaced(text);
    }
  }

  /** The text of a batch, a line for each bridge. */
  function BatchText(lines: seq<string>): string
    requires forall i | 0 <= i < |lines| :: ParseLine(lines[i]).Some?
  {
    if lines == [] then "" else Line(ParseLine(lines[0]).value) + "\n" + BatchText(lines[1..])
  }

  lemma {:induction false} BatchTextExactly(lines: seq<string>, bridges: seq<Bridge>)
    requires |lines| == |bridges| && forall i | 0 <= i < |lines| :: ParseLine(lines[i]) == Some(bridges[i])
    ensures Encode(bridges) == BatchText(lines)
    decreases |lines|
  {
    if lines != [] {
      BatchTextExactly(lines[1..], bridges[1..]);
      EncodedFirst(bridges);
    }
  }

  lemma EncodedFirst(bridges: seq<Bridge>)
    requires bridges != []
    ensures Encode(bridges) == Line(bridges[0]) + "\n" + Encode(bridges[1..])
  {
    assert [bridges[0]] + bridges[1..] == bridges;
    EncodeFirst(bridges[0], bridges[1..]);
  }

  lemma AllParse(lines: seq<string>)
    ensures ParseAll(lines).Some? <==> forall i | 0 <= i < |lines| :: ParseLine(lines[i]).Some?
    ensures ParseAll(lines).Some? ==>
              && |ParseAll(lines).value| == |lines|
              && forall i | 0 <= i < |lines| :: ParseLine(lines[i]) == Some(ParseAll(lines).value[i])
  {
    SequenceWhen(ParseEach(lines));
    ParseEachAt(lines);
    if forall i | 0 <= i < |lines| :: ParseLine(lines[i]).Some? {
      assert forall i | 0 <= i < |lines| :: ParseEach(lines)[i].Some?;
    }
    if ParseAll(lines).Some? {
      forall i | 0 <= i < |lines|
        ensures ParseLine(lines[i]) == Some(ParseAll(lines).value[i])
      {
        assert ParseEach(lines)[i] == Some(ParseAll(lines).value[i]);
      }
    }
  }

  /** A line that does not parse stops a save before it writes anything. */
  lemma SaveRefused(lines: seq<string>, append: bool, outcome: WriteOutcome, file: Option<string>, i: nat)
    requires i < |lines| && ParseLine(lines[i]).None?
    ensures SaveOutcome(lines, append, outcome, file) == (ValueError, file)
  {
    AllParse(lines);
  }

  /** Otherwise the file gets the printed lines, after what an append found in it, unless the system prevents it. */
  lemma SaveExactly(lines: seq<string>, append: bool, outcome: WriteOutcome, file: Option<string>)
    requires forall i | 0 <= i < |lines| :: ParseLine(lines[i]).Some?
    ensures var text := (if append && file.Some? then ReadText(file.value) else "") + BatchText(lines);
            SaveOutcome(lines, append, outcome, file)
            == match outcome
               case Writes => (SavedOk, Some(text))
               case Undecodable => if append && file.Some? then (ValueError, file) else (SavedOk, Some(text))
               case FailsBefore => (OsError, file)
               case FailsAfter => (OsError, Some(text))
  {
    AllParse(lines);
    BatchTextExactly(lines, ParseAll(lines).value);
    Outcomes(lines, append, outcome, file);
  }

  lemma Outcomes(lines: seq<string>, append: bool, outcome: WriteOutcome, file: Option<string>)
    requires ParseAll(lines).Some?
    ensures var text := (if append && file.Some? then ReadText(file.value) else "") + Encode(ParseAll(lines).value);
            SaveOutcome(lines, append, outcome, file)
            == match outcome
               case Writes => (SavedOk, Some(text))
               case Undecodable => if append && file.Some? then (ValueError, file) else (SavedOk, Some(text))
               case FailsBefore => (OsError, file)
               case FailsAfter => (OsError, Some(text))
  {
  }

  /** What `add_bridge` returns and leaves for a line that it does not try to save. */
  lemma AddRefused(file: Option<string>, bridges: seq<string>, line: string, outcome: WriteOutcome)
    ensures ParseLine(line).None? ==>
              Added(file, bridges, line, outcome) == (AddResult(false, |bridges|, true), file, bridges)
    ensures ParseLine(line).Some? && Line(ParseLine(line).value) in bridges ==>
              Added(file, bridges, line, outcome) == (AddResult(false, |bridges|, false), file, bridges)
  {
  }

  /** And for one that it does. */
  lemma AddExactly(file: Option<string>, bridges: seq<string>, line: string, outcome: WriteOutcome)
    requires ParseLine(line).Some? && Line(ParseLine(line).value) !in bridges
    ensures var printed, n := Line(ParseLine(line).value), |bridges|;
            var text := (if file.Some? then ReadText(file.value) else "") + printed + "\n";
            Added(file, bridges, line, outcome)
            == if |printed| > 4096 || (file.Some? && outcome.Undecodable?) then (RaisesValueError, file, bridges)
               else if outcome.FailsBefore? then (AddResult(false, n, true), file, bridges)
               else if outcome.FailsAfter? then (AddResult(false, n, true), Some(text), bridges)
               else (AddResult(true, n + 1, false), Some(text), bridges + [printed])
  {
    SavedOne(file, ParseLine(line).value);
    AddedCases(file, bridges, ParseLine(line).value, outcome);
  }

  lemma AddedCases(file: Option<string>, bridges: seq<string>, b: Bridge, outcome: WriteOutcome)
    ensures var n, saved := |bridges|, Some(Saved(file, [b], true));
            AddedNew(file, bridges, b, outcome)
            == if |Line(b)| > 4096 || (file.Some? && outcome.Undecodable?) then (RaisesValueError, file, bridges)
               else if outcome.FailsBefore? then (AddResult(false, n, true), file, bridges)
               else if outcome.FailsAfter? then (AddResult(false, n, true), saved, bridges)
               else (AddResult(true, n + 1, false), saved, bridges + [Line(b)])
  {
  }

  lemma SavedOne(file: Option<string>, b: Bridge)
    ensures Saved(file, [b], true) == (if file.Some? then ReadText(file.value) else "") + Line(b) + "\n"
  {
    EncodedFirst([b]);
    assert [b][1..] == [];
    assert Encode([]) == "";
  }
}
