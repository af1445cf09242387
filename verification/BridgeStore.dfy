/** The bridges file: one printed bridge a line, loaded, overwritten and appended to. */
module BridgeStore {
  import opened Text
  import opened Lines
  import opened Bridges
  import opened BridgeLaws

  // ---- format ---------------------------------------------------------------------------

  /** What `load_bridges_from_file` makes of one line: comments and junk give nothing. */
  function LoadLine(line: string): seq<Bridge> {
    var text := Chomp(line);
    if text == "" || text[0] == '#' then []
    else if ParseLine(text).Some? then [ParseLine(text).value] else []
  }

  /** `load_bridges_from_file` on the content of an existing file. */
  function Load(content: string): seq<Bridge> {
    FlatMap(SplitLines(ReadText(content)), LoadLine)
  }

  function EncodeLines(bridges: seq<Bridge>): (r: seq<string>)
    ensures |r| == |bridges| && forall i | 0 <= i < |r| :: r[i] == Line(bridges[i]) + "\n"
  {
    seq(|bridges|, i requires 0 <= i < |bridges| => Line(bridges[i]) + "\n")
  }

  /** The text of a batch of bridges. */
  function Encode(bridges: seq<Bridge>): string {
    Concat(EncodeLines(bridges))
  }

  predicate AllCanonical(bridges: seq<Bridge>) {
    forall i | 0 <= i < |bridges| :: Canonical(bridges[i])
  }

  /** The bridges whose printed line is short enough to be read again. */
  function Readable(bridges: seq<Bridge>): seq<Bridge> {
    if bridges == [] then []
    else (if |Line(bridges[0])| <= MAX_BRIDGE_LINE_LENGTH then [bridges[0]] else []) + Readable(bridges[1..])
  }

  lemma {:induction false} ReadableAppend(a: seq<Bridge>, b: seq<Bridge>)
    ensures Readable(a + b) == Readable(a) + Readable(b)
  {
    if a == [] {
      assert a + b == b;
    } else {
      var head := if |Line(a[0])| <= MAX_BRIDGE_LINE_LENGTH then [a[0]] else [];
      assert (a + b)[0] == a[0] && (a + b)[1..] == a[1..] + b;
      ReadableAppend(a[1..], b);
      assert Readable(a + b) == head + (Readable(a[1..]) + Readable(b));
    }
  }

  lemma TokenNoBreak(c: char)
    requires ' ' <= c <= '~'
    ensures !IsBreak(c) && c != '\r'
  {
  }

  lemma {:induction false} JoinPrintable(tokens: seq<string>)
    requires AllTokens(tokens)
    ensures forall i | 0 <= i < |Join(tokens, ' ')| :: ' ' <= Join(tokens, ' ')[i] <= '~'
  {
    if |tokens| > 1 {
      JoinPrintable(tokens[1..]);
      var s, n := Join(tokens, ' '), |tokens[0]|;
      assert forall i | 0 <= i < |s| ::
          s[i] == if i < n then tokens[0][i] else if i == n then ' ' else Join(tokens[1..], ' ')[i - n - 1];
    }
  }

  /** A printed bridge is one line of a file. */
  lemma PrintedLine(b: Bridge)
    requires Canonical(b)
    ensures Line(b) != ""
    ensures forall i | 0 <= i < |Line(b)| :: !IsBreak(Line(b)[i]) && Line(b)[i] != '\r' && Line(b)[i] != '#'
    ensures Proper(Line(b) + "\n") && Terminated(Line(b) + "\n") && Chomp(Line(b) + "\n") == Line(b)
  {
    LineIsJoin(b);
    CanonicalTokens(b);
    JoinPrintable(Tokens(b));
    LineReads(b);
    PrintableLine(Line(b));
  }

  lemma PrintableLine(text: string)
    requires text != "" && forall i | 0 <= i < |text| :: ' ' <= text[i] <= '~'
    ensures forall i | 0 <= i < |text| :: !IsBreak(text[i]) && text[i] != '\r'
    ensures Proper(text + "\n") && Terminated(text + "\n") && Chomp(text + "\n") == text
  {
    forall i | 0 <= i < |text|
      ensures !IsBreak(text[i]) && text[i] != '\r'
    {
      TokenNoBreak(text[i]);
    }
    var line := text + "\n";
    assert line[..|line| - 1] == text;
    assert line[|line| - 2] == text[|text| - 1];
  }

  lemma LoadPrinted(b: Bridge)
    requires Canonical(b)
    ensures LoadLine(Line(b) + "\n") == Readable([b])
  {
    PrintedLine(b);
    CanonicalReads(b);
    ReadableFirst(b);
    ChompedLine(Line(b));
  }

  lemma CanonicalReads(b: Bridge)
    requires Canonical(b)
    ensures ParseLine(Line(b)) == if |Line(b)| <= MAX_BRIDGE_LINE_LENGTH then Some(b) else None
  {
    LineReads(b);
    CanonicalParses(b);
  }

  lemma ReadableFirst(b: Bridge)
    ensures Readable([b]) == if |Line(b)| <= MAX_BRIDGE_LINE_LENGTH then [b] else []
  {
    assert Readable([b][1..]) == [];
  }

  lemma ChompedLine(text: string)
    requires text != "" && text[0] != '#' && Chomp(text + "\n") == text
    ensures LoadLine(text + "\n") == if ParseLine(text).Some? then [ParseLine(text).value] else []
  {
  }

  lemma {:induction false} LoadEncoded(bridges: seq<Bridge>)
    requires AllCanonical(bridges)
    ensures FlatMap(EncodeLines(bridges), LoadLine) == Readable(bridges)
  {
    if bridges != [] {
      var b, rest := bridges[0], bridges[1..];
      LoadPrinted(b);
      LoadEncoded(rest);
      EncodeCons(b, rest);
      FlatMapCons(Line(b) + "\n", EncodeLines(rest), LoadLine);
      ReadableAppend([b], rest);
      assert [b] + rest == bridges;
    }
  }

  lemma EncodeCons(b: Bridge, rest: seq<Bridge>)
    ensures EncodeLines([b] + rest) == [Line(b) + "\n"] + EncodeLines(rest)
  {
  }

  /** The text is empty or its last line is finished. */
  predicate LineEnded(text: string) {
    text == "" || IsBreak(text[|text| - 1])
  }

  lemma EncodedProper(bridges: seq<Bridge>)
    requires AllCanonical(bridges)
    ensures ProperLines(EncodeLines(bridges)) && forall i | 0 <= i < |bridges| :: Terminated(EncodeLines(bridges)[i])
  {
    forall i | 0 <= i < |bridges|
      ensures Proper(EncodeLines(bridges)[i]) && Terminated(EncodeLines(bridges)[i])
    {
      PrintedLine(bridges[i]);
    }
  }

  lemma ProperAppend(a: seq<string>, b: seq<string>)
    requires ProperLines(a) && ProperLines(b) && (a != [] ==> Terminated(a[|a| - 1]))
    ensures ProperLines(a + b)
  {
    var ls := a + b;
    assert forall i | 0 <= i < |ls| :: ls[i] == if i < |a| then a[i] else b[i - |a|];
    assert forall i | 0 <= i < |a| :: Terminated(a[i]);
  }

  /** The text of a previous file followed by a batch splits into the previous lines and the batch. */
  lemma AppendedLines(previous: string, bridges: seq<Bridge>)
    requires !Has(previous, '\r') && LineEnded(previous) && AllCanonical(bridges)
    ensures SplitLines(ReadText(previous + Encode(bridges))) == SplitLines(previous) + EncodeLines(bridges)
  {
    var before, batch := SplitLines(previous), EncodeLines(bridges);
    ConcatSplit(previous);
    EncodedProper(bridges);
    if before != [] {
      ConcatLast(before);
    }
    ProperAppend(before, batch);
    ConcatAppend(before, batch);
    ReadBack(before + batch);
  }

  // ---- operations on the file -------------------------------------------------------------

  /** The content `save_bridges_to_file` writes for parsed bridges. */
  function Saved(file: Option<string>, bridges: seq<Bridge>, append: bool): string {
    (if append && file.Some? then ReadText(file.value) else "") + Encode(bridges)
  }

  /** Appending to a file whose last line is finished adds exactly the readable bridges of the
      batch, in order, and disturbs nothing that was there. */
  lemma AppendLoads(content: string, bridges: seq<Bridge>)
    requires LineEnded(ReadText(content)) && AllCanonical(bridges)
    ensures Load(Saved(Some(content), bridges, true)) == Load(content) + Readable(bridges)
  {
    AppendedLines(ReadText(content), bridges);
    FlatMapAppend(SplitLines(ReadText(content)), EncodeLines(bridges), LoadLine);
    LoadEncoded(bridges);
  }

  /** Overwriting leaves exactly the readable bridges. */
  lemma OverwriteLoads(file: Option<string>, bridges: seq<Bridge>)
    requires AllCanonical(bridges)
    ensures Load(Saved(file, bridges, false)) == Readable(bridges)
  {
    AppendedLines("", bridges);
    LoadEncoded(bridges);
    assert "" + Encode(bridges) == Encode(bridges);
    assert SplitLines("") + EncodeLines(bridges) == EncodeLines(bridges);
  }

  /** All the values, or none. */
  function Sequence<T>(xs: seq<Option<T>>): Option<seq<T>> {
    if xs == [] then Some([])
    else if xs[0].None? || Sequence(xs[1..]).None? then None
    else Some([xs[0].value] + Sequence(xs[1..]).value)
  }

  lemma {:induction false} SequenceWhen<T>(xs: seq<Option<T>>)
    ensures Sequence(xs).Some? <==> forall i | 0 <= i < |xs| :: xs[i].Some?
    ensures Sequence(xs).Some? ==> |Sequence(xs).value| == |xs|
    ensures Sequence(xs).Some? ==> forall i | 0 <= i < |xs| :: xs[i] == Some(Sequence(xs).value[i])
  {
    if xs != [] {
      SequenceWhen(xs[1..]);
      assert forall i | 0 < i < |xs| :: xs[i] == xs[1..][i - 1];
    }
  }

  function ParseOne(line: string): seq<Option<Bridge>> {
    [ParseLine(line)]
  }

  function ParseEach(lines: seq<string>): seq<Option<Bridge>> {
    FlatMap(lines, ParseOne)
  }

  lemma {:induction false} SingletonMap<T, U>(xs: seq<T>, f: T -> seq<U>)
    requires forall x | x in xs :: |f(x)| == 1
    ensures |FlatMap(xs, f)| == |xs|
    ensures forall i | 0 <= i < |xs| :: [FlatMap(xs, f)[i]] == f(xs[i])
  {
    if xs != [] {
      SingletonMap(xs[1..], f);
    }
  }

  lemma ParseEachAt(lines: seq<string>)
    ensures |ParseEach(lines)| == |lines|
    ensures forall i | 0 <= i < |lines| :: ParseEach(lines)[i] == ParseLine(lines[i])
  {
    SingletonMap(lines, ParseOne);
    forall i | 0 <= i < |lines|
      ensures ParseEach(lines)[i] == ParseLine(lines[i])
    {
      assert [ParseEach(lines)[i]] == ParseOne(lines[i]);
    }
  }

  /** The bridges of all lines, if every line parses. */
  function ParseAll(lines: seq<string>): Option<seq<Bridge>> {
    Sequence(ParseEach(lines))
  }

  lemma ParsedAllCanonical(lines: seq<string>)
    requires ParseAll(lines).Some?
    ensures AllCanonical(ParseAll(lines).value)
  {
    SequenceWhen(ParseEach(lines));
    ParseEachAt(lines);
    forall i | 0 <= i < |lines|
      ensures Canonical(ParseAll(lines).value[i])
    {
      ParsedIsCanonical(lines[i]);
    }
  }

  /** The list of parsed lines in `save_bridges_to_file`, with its holes. */
  method ParseLines(lines: seq<string>) returns (parsed: seq<Option<Bridge>>)
    ensures parsed == ParseEach(lines)
  {
    parsed := [];
    for i := 0 to |lines|
      invariant parsed == FlatMap(lines[..i], ParseOne)
    {
      FlatMapStep(lines, i, ParseOne);
      var bridge := ParseBridgeLine(lines[i]);
      parsed := parsed + [bridge];
    }
    assert lines[..|lines|] == lines;
  }

  lemma PrintedAlone(line: string)
    requires ParseLine(line).Some?
    ensures var b := ParseLine(line).value;
            ParseAll([Line(b)]) == if |Line(b)| <= MAX_BRIDGE_LINE_LENGTH then Some([b]) else None
  {
    var b := ParseLine(line).value;
    PrintedLineParses(line);
    ParseSingle(Line(b));
  }

  lemma ParseSingle(line: string)
    ensures ParseAll([line]) == var r := ParseLine(line); if r.Some? then Some([r.value]) else None
  {
    var parsed := ParseEach([line]);
    ParseEachAt([line]);
    SequenceOne(parsed, ParseLine(line));
  }

  lemma SequenceOne<T>(xs: seq<Option<T>>, x: Option<T>)
    requires |xs| == 1 && xs[0] == x
    ensures Sequence(xs) == if x.Some? then Some([x.value]) else None
  {
    assert xs[1..] == [];
    if x.Some? {
      assert [x.value] + Sequence(xs[1..]).value == [x.value];
    }
  }

  /** What `save_bridges_to_file` makes of the file it reads, if every line parses. */
  function SaveText(lines: seq<string>, append: bool, file: Option<string>): Option<string> {
    var parsed := ParseAll(lines);
    if parsed.None? then None else Some(Saved(file, parsed.value, append))
  }

  datatype SaveResult = SavedOk | ValueError | OsError

  /** What the file system does to a save: nothing wrong, an old text that does not decode, an error that
      leaves the file alone, or an error after the file has been replaced (its mode or directory could
      not be synced). `UnicodeDecodeError` is a `ValueError`. */
  datatype WriteOutcome = Writes | Undecodable | FailsBefore | FailsAfter

  /** What `secure_read` does: read the text, or raise one of its two kinds of exception. */
  datatype ReadOutcome = Reads | ReadValueError | ReadOsError

  datatype LoadResult<T> = Loaded(value: T) | LoadRaises(error: SaveResult)

  /** The text is read only for an append to a file that exists. */
  predicate ReadFails(append: bool, file: Option<string>, outcome: WriteOutcome) {
    append && file.Some? && outcome.Undecodable?
  }

  /** The result of a save and the file it leaves. */
  function SaveOutcome(lines: seq<string>, append: bool, outcome: WriteOutcome, file: Option<string>)
    : (SaveResult, Option<string>)
  {
    if ParseAll(lines).None? || ReadFails(append, file, outcome) then (ValueError, file)
    else if outcome.FailsBefore? then (OsError, file)
    else (if outcome.FailsAfter? then OsError else SavedOk, SaveText(lines, append, file))
  }

  /** Loading the file; a missing one has no bridges and is not read. */
  function LoadOutcome(file: Option<string>, read: ReadOutcome): LoadResult<seq<Bridge>> {
    if file.None? then Loaded([])
    else
      match read
      case Reads => Loaded(Load(file.value))
      case ReadValueError => LoadRaises(ValueError)
      case ReadOsError => LoadRaises(OsError)
  }

  datatype AddResult = AddResult(added: bool, total: nat, failed: bool) | RaisesValueError

  class Store {
    var file: Option<string>
    var bridges: seq<string>

    constructor (file: Option<string>)
      ensures this.file == file && bridges == []
    {
      this.file, bridges := file, [];
    }

    /** `save_bridges_to_file`: nothing is written unless every line parses. */
    method Save(lines: seq<string>, append: bool, outcome: WriteOutcome) returns (r: SaveResult)
      modifies this`file
      ensures (r, file) == SaveOutcome(lines, append, outcome, old(file))
    {
      var parsed := ParseLines(lines);
      SequenceWhen(parsed);
      if None in parsed {
        return ValueError;
      }
      if ReadFails(append, file, outcome) {
        return ValueError;
      }
      if outcome.FailsBefore? {
        return OsError;
      }
      var previous := if append && file.Some? then ReadText(file.value) else "";
      file := Some(previous + Encode(Sequence(parsed).value));
      r := if outcome.FailsAfter? then OsError else SavedOk;
    }

    /** `load_bridges_from_file` */
    method LoadFile(read: ReadOutcome) returns (r: LoadResult<seq<Bridge>>)
      ensures r == LoadOutcome(file, read)
    {
      if file.None? {
        return Loaded([]);
      }
      if !read.Reads? {
        return LoadRaises(if read.ReadValueError? then ValueError else OsError);
      }
      var lines := SplitLines(ReadText(file.value));
      var bridges: seq<Bridge> := [];
      for i := 0 to |lines|
        invariant bridges == FlatMap(lines[..i], LoadLine)
      {
        FlatMapStep(lines, i, LoadLine);
        var line := Chomp(lines[i]);
        if line != "" && line[0] != '#' {
          var bridge := ParseBridgeLine(line);
          if bridge.Some? {
            bridges := bridges + [bridge.value];
          }
        }
      }
      assert lines[..|lines|] == lines;
      r := Loaded(bridges);
    }

    /** `TorManager.load_bridges`. An exception of the read leaves it, and memory as it was. */
    method LoadBridges(read: ReadOutcome) returns (r: LoadResult<nat>)
      modifies this`bridges
      ensures match LoadOutcome(file, read)
              case Loaded(loaded) => bridges == PrintAll(loaded) && r == Loaded(|bridges|)
              case LoadRaises(error) => bridges == old(bridges) && r == LoadRaises(error)
    {
      var loaded := LoadFile(read);
      if loaded.LoadRaises? {
        return LoadRaises(loaded.error);
      }
      bridges := PrintAll(loaded.value);
      r := Loaded(|bridges|);
    }

    /** `TorManager.add_bridge`: persist first, remember afterwards. */
    method AddBridge(line: string, outcome: WriteOutcome) returns (r: AddResult)
      modifies this
      ensures r == Added(old(file), old(bridges), line, outcome).0
      ensures file == Added(old(file), old(bridges), line, outcome).1
      ensures bridges == Added(old(file), old(bridges), line, outcome).2
    {
      var bridge := ParseBridgeLine(line);
      if bridge.None? {
        return AddResult(false, |bridges|, true);
      }
      var printed := Line(bridge.value);
      if printed in bridges {
        return AddResult(false, |bridges|, false);
      }
      PrintedAlone(line);
      r := PersistAndRemember(bridge.value, outcome);
    }

    method PersistAndRemember(bridge: Bridge, outcome: WriteOutcome) returns (r: AddResult)
      requires ParseAll([Line(bridge)]) == if |Line(bridge)| <= MAX_BRIDGE_LINE_LENGTH then Some([bridge]) else None
      modifies this
      ensures r == AddedNew(old(file), old(bridges), bridge, outcome).0
      ensures file == AddedNew(old(file), old(bridges), bridge, outcome).1
      ensures bridges == AddedNew(old(file), old(bridges), bridge, outcome).2
    {
      var saved := Save([Line(bridge)], true, outcome);
      match saved {
        case ValueError => return RaisesValueError;
        case OsError => return AddResult(false, |bridges|, true);
        case SavedOk =>
      }
      bridges := bridges + [Line(bridge)];
      r := AddResult(true, |bridges|, false);
    }
  }

  function PrintAll(bridges: seq<Bridge>): (r: seq<string>)
    ensures |r| == |bridges| && forall i | 0 <= i < |r| :: r[i] == Line(bridges[i])
  {
    seq(|bridges|, i requires 0 <= i < |bridges| => Line(bridges[i]))
  }

  /** Adding a bridge that memory does not list. One whose printed line is too long to parse again
      makes the save raise `ValueError`, and so does an old text that does not decode; `add_bridge`
      catches neither. */
  function AddedNew(file: Option<string>, bridges: seq<string>, bridge: Bridge, outcome: WriteOutcome)
    : (AddResult, Option<string>, seq<string>)
  {
    if |Line(bridge)| > MAX_BRIDGE_LINE_LENGTH || ReadFails(true, file, outcome) then (RaisesValueError, file, bridges)
    else
      var saved := Some(Saved(file, [bridge], true));
      match outcome
      case Writes | Undecodable => (AddResult(true, |bridges| + 1, false), saved, bridges + [Line(bridge)])
      case FailsBefore => (AddResult(false, |bridges|, true), file, bridges)
      case FailsAfter => (AddResult(false, |bridges|, true), saved, bridges)
  }

  /** Result, file and memory after `add_bridge`. */
  function Added(file: Option<string>, bridges: seq<string>, line: string, outcome: WriteOutcome)
    : (AddResult, Option<string>, seq<string>)
  {
    var bridge := ParseLine(line);
    if bridge.None? then (AddResult(false, |bridges|, true), file, bridges)
    else if Line(bridge.value) in bridges then (AddResult(false, |bridges|, false), file, bridges)
    else AddedNew(file, bridges, bridge.value, outcome)
  }

  function OnDisk(file: Option<string>): seq<string> {
    PrintAll(if file.None? then [] else Load(file.value))
  }

  /** The file is ready for an append and holds everything memory lists. */
  predicate Remembered(file: Option<string>, bridges: seq<string>) {
    && (file.Some? ==> LineEnded(ReadText(file.value)))
    && (forall b | b in bridges :: b in OnDisk(file))
  }

  lemma AddedNewRemembered(file: Option<string>, bridges: seq<string>, b: Bridge, outcome: WriteOutcome)
    requires Remembered(file, bridges) && Canonical(b)
    ensures Remembered(AddedNew(file, bridges, b, outcome).1, AddedNew(file, bridges, b, outcome).2)
    ensures OnDisk(file) <= OnDisk(AddedNew(file, bridges, b, outcome).1)
  {
    AddedNewCases(file, bridges, b, outcome);
    if |Line(b)| <= MAX_BRIDGE_LINE_LENGTH {
      SavedRemembered(file, bridges, b);
    }
  }

  lemma AddedNewCases(file: Option<string>, bridges: seq<string>, b: Bridge, outcome: WriteOutcome)
    ensures var (result, end, memory) := AddedNew(file, bridges, b, outcome);
            || (end == file && memory == bridges)
            || (|Line(b)| <= MAX_BRIDGE_LINE_LENGTH && end == Some(Saved(file, [b], true))
                && (memory == bridges || memory == bridges + [Line(b)]))
  {
  }

  lemma SavedRemembered(file: Option<string>, bridges: seq<string>, b: Bridge)
    requires Remembered(file, bridges) && Canonical(b) && |Line(b)| <= MAX_BRIDGE_LINE_LENGTH
    ensures var saved := Some(Saved(file, [b], true));
            && Remembered(saved, bridges) && Remembered(saved, bridges + [Line(b)])
            && OnDisk(file) <= OnDisk(saved)
  {
    AddedOnDisk(file, b);
    var saved := Some(Saved(file, [b], true));
    assert forall x | x in bridges + [Line(b)] :: x in OnDisk(saved);
  }

  /** Memory never lists a bridge that the file does not hold: the file is written first, so this
      survives every outcome, including an error raised after the file was replaced. */
  lemma AddKeepsMemoryOnDisk(file: Option<string>, bridges: seq<string>, line: string, outcome: WriteOutcome)
    requires Remembered(file, bridges)
    ensures Remembered(Added(file, bridges, line, outcome).1, Added(file, bridges, line, outcome).2)
    ensures OnDisk(file) <= OnDisk(Added(file, bridges, line, outcome).1)
  {
    if ParseLine(line).Some? {
      ParsedIsCanonical(line);
      AddedNewRemembered(file, bridges, ParseLine(line).value, outcome);
    }
  }

  lemma PrintAllAppend(a: seq<Bridge>, b: seq<Bridge>)
    ensures PrintAll(a + b) == PrintAll(a) + PrintAll(b)
  {
  }

  lemma AddedOnDisk(file: Option<string>, b: Bridge)
    requires file.Some? ==> LineEnded(ReadText(file.value))
    requires Canonical(b) && |Line(b)| <= MAX_BRIDGE_LINE_LENGTH
    ensures OnDisk(Some(Saved(file, [b], true))) == OnDisk(file) + [Line(b)]
    ensures LineEnded(ReadText(Saved(file, [b], true)))
  {
    var content := if file.Some? then file.value else "";
    ReadableFirst(b);
    EmptyFile();
    assert Saved(file, [b], true) == Saved(Some(content), [b], true);
    AppendLoads(content, [b]);
    PrintAllAppend(Load(content), [b]);
    assert PrintAll([b]) == [Line(b)];
    SavedEnded(content, [b]);
  }

  lemma EmptyFile()
    ensures ReadText("") == "" && Load("") == []
  {
    assert SplitLines("") == [];
  }

  /** A batch ends in a newline, so the file a save leaves is ready for the next append. */
  lemma SavedEnded(content: string, bridges: seq<Bridge>)
    requires LineEnded(ReadText(content)) && AllCanonical(bridges)
    ensures LineEnded(ReadText(Saved(Some(content), bridges, true)))
  {
    AppendedLines(ReadText(content), bridges);
    EncodedProper(bridges);
    ConcatSplit(ReadText(content));
    ConcatSplit(ReadText(Saved(Some(content), bridges, true)));
    LastEnded(SplitLines(ReadText(content)), EncodeLines(bridges));
  }

  lemma LastEnded(before: seq<string>, batch: seq<string>)
    requires LineEnded(Concat(before)) && (forall i | 0 <= i < |before| :: before[i] != "")
    requires forall i | 0 <= i < |batch| :: Terminated(batch[i])
    ensures LineEnded(Concat(before + batch))
  {
    if batch == [] {
      assert before + batch == before;
    } else {
      ConcatLast(before + batch);
    }
  }
}
