/** The `.env` rewriter: retire a proven legacy footprint, drop the managed
    assignments, append fresh ones. */
module Dotenv {
  import opened Text
  import opened Lines
  import opened Policy

  const RETIRED_PREFIX := "# darkloom-retired-legacy-platform-proxy: "

  /** The keys of `tor_vars`, in the order in which `sorted` puts them (`DotenvFile.ManagedSorted`). */
  const MANAGED: seq<string> := [
    "ALL_PROXY", "HTTPS_PROXY", "HTTP_PROXY", "NO_PROXY", "TOR_ENABLED", "TOR_HEALTH", "TOR_PROXY",
    "all_proxy", "http_proxy", "https_proxy", "no_proxy", "tor_proxy"]

  // ---- one line -------------------------------------------------------------

  /** `_dotenv_assignment` */
  function Assignment(line: string): Option<(string, string)> {
    var stripped := TrimLeft(line);
    if stripped == "" || stripped[0] == '#' then None
    else
      Binding(if "export " <= stripped then TrimLeft(stripped[7..]) else stripped)
  }

  /** `candidate.partition("=")`, if there is a separator. */
  function Binding(candidate: string): Option<(string, string)> {
    var n := IndexOf(candidate, '=');
    if n == |candidate| then None else Some((Trim(candidate[..n]), Trim(candidate[n + 1..])))
  }

  predicate Assigns(line: string, key: string) {
    Assignment(line).Some? && Assignment(line).value.0 == key
  }

  predicate AssignsAny(line: string, keys: set<string>) {
    Assignment(line).Some? && Assignment(line).value.0 in keys
  }

  /** The newline the writer may add to a last line does not change what it assigns. */
  lemma AssignmentNewline(line: string)
    ensures Assignment(line + "\n") == Assignment(line)
  {
    TrimLeftAppend(line, "\n");
    var stripped := TrimLeft(line);
    if stripped != "" && stripped[0] != '#' {
      assert ("export " <= stripped + "\n") == ("export " <= stripped) by {
        assert "export "[6] == ' ';
      }
      if "export " <= stripped {
        assert (stripped + "\n")[7..] == stripped[7..] + "\n";
        TrimLeftAppend(stripped[7..], "\n");
        assert TrimLeft(stripped[7..]) == "" ==> Binding("\n") == None && Binding("") == None;
        BindingNewline(TrimLeft(stripped[7..]));
      } else {
        BindingNewline(stripped);
      }
    }
  }

  lemma BindingNewline(candidate: string)
    ensures Binding(candidate + "\n") == Binding(candidate)
  {
    var n := IndexOf(candidate, '=');
    if n < |candidate| {
      IndexOfIs(candidate + "\n", '=', n);
      assert (candidate + "\n")[..n] == candidate[..n];
      assert (candidate + "\n")[n + 1..] == candidate[n + 1..] + "\n";
      TrimAppendSpace(candidate[n + 1..], '\n');
    } else {
      IndexOfIs(candidate + "\n", '=', n + 1);
    }
  }

  /** Letters and underscores, as in every managed and platform name. */
  predicate IsName(s: string) {
    s != "" && forall i | 0 <= i < |s| :: 'A' <= s[i] <= 'Z' || 'a' <= s[i] <= 'z' || s[i] == '_'
  }

  predicate NoSpace(s: string) {
    forall i | 0 <= i < |s| :: !IsSpace(s[i])
  }

  lemma TrimNoSpace(s: string)
    requires NoSpace(s)
    ensures Trim(s) == s
  {
  }

  function Render(key: string, value: string): string {
    key + "=" + value + "\n"
  }

  /** A name is a word, so it cannot be taken for the `export ` prefix. */
  lemma NotExport(key: string, rest: string)
    requires IsName(key)
    ensures !("export " <= key + "=" + rest)
  {
    var line := key + "=" + rest;
    assert line[|key|] == '=';
    assert |key| > 6 ==> line[6] == key[6];
  }

  lemma RenderedProper(key: string, value: string)
    requires IsName(key) && NoSpace(value)
    ensures Proper(Render(key, value)) && Terminated(Render(key, value))
  {
    var line := Render(key, value);
    forall i | 0 <= i < |line| - 1
      ensures !IsBreak(line[i])
    {
      assert line[i] == if i < |key| then key[i] else if i == |key| then '=' else value[i - |key| - 1];
    }
  }

  lemma NamePlain(key: string)
    requires IsName(key)
    ensures NoSpace(key) && key[0] != '#' && !Has(key, '=')
  {
  }

  lemma RenderedAssignment(key: string, value: string)
    requires IsName(key) && NoSpace(value)
    ensures Assignment(Render(key, value)) == Some((key, value))
  {
    NamePlain(key);
    var line := Render(key, value);
    assert line == key + "=" + (value + "\n");
    NotExport(key, value + "\n");
    assert TrimLeft(line) == line by { assert line[0] == key[0]; }
    assert IndexOf(line, '=') == |key| by { IndexOfIs(line, '=', |key|); }
    assert line[..|key|] == key && line[|key| + 1..] == value + "\n";
    TrimNoSpace(key);
    assert Trim(value + "\n") == value by {
      TrimAppendSpace(value, '\n');
      TrimNoSpace(value);
    }
  }

  // ---- a whole file ----------------------------------------------------------

  /** The values a file assigns to `key`, in order. */
  function Values(ls: seq<string>, key: string): seq<string> {
    FlatMap(ls, line => ValueIn(line, key))
  }

  function ValueIn(line: string, key: string): seq<string> {
    if Assigns(line, key) then [Assignment(line).value.1] else []
  }

  function LastOr(values: seq<string>, default: string): string {
    if values == [] then default else values[|values| - 1]
  }

  /** Lines that survive the removal of the keys in `drop`. */
  function Keep(ls: seq<string>, drop: set<string>): seq<string> {
    FlatMap(ls, line => Unless(line, drop))
  }

  function Unless(line: string, drop: set<string>): seq<string> {
    if AssignsAny(line, drop) then [] else [line]
  }

  function RetireLine(line: string): string {
    if Assignment(line).Some? && Assignment(line).value.0 in PLATFORM_PROXIES then RETIRED_PREFIX + line else line
  }

  function RetireLines(ls: seq<string>): (r: seq<string>)
    ensures |r| == |ls| && forall i | 0 <= i < |ls| :: r[i] == RetireLine(ls[i])
  {
    if ls == [] then [] else [RetireLine(ls[0])] + RetireLines(ls[1..])
  }

  /** Every platform name is assigned exactly once. */
  predicate Complete(ls: seq<string>) {
    forall n | n in PLATFORM_PROXIES :: |Values(ls, n)| == 1
  }

  /** The `values` dictionary handed to `_legacy_platform_proxy_value`. */
  function Collected(ls: seq<string>, torEnabled: string): map<string, string>
    requires Complete(ls)
  {
    (map n | n in PLATFORM_PROXIES :: Values(ls, n)[0])["TOR_ENABLED" := torEnabled]
  }

  /** What the platform assignments are, whatever `TOR_ENABLED` says. */
  function Platform(ls: seq<string>, local: Question): Legacy {
    if Complete(ls) then LegacyProxyValue(Collected(ls, "1"), local) else Absent
  }

  /** A complete legacy footprint. */
  predicate Footprint(ls: seq<string>, local: Question) {
    Platform(ls, local).Proven?
  }

  /** All fourteen names once, with one value, on which `urlsplit` raises. */
  predicate Malformed(ls: seq<string>, local: Question) {
    Platform(ls, local).Raises?
  }

  predicate Enabled(ls: seq<string>) {
    Truthy(LastOr(Values(ls, "TOR_ENABLED"), ""))
  }

  /** `_legacy_platform_proxy_value` of what the file assigns. */
  function FileProxy(ls: seq<string>, local: Question): Legacy {
    if Complete(ls) then LegacyProxyValue(Collected(ls, LastOr(Values(ls, "TOR_ENABLED"), "")), local) else Absent
  }

  predicate MigrateRaises(ls: seq<string>, local: Question) {
    FileProxy(ls, local).Raises?
  }

  /** What `_retire_legacy_dotenv_platform_proxies` makes of the lines, unless it raises. */
  function Migrate(ls: seq<string>, local: Question): (r: seq<string>)
    ensures |r| == |ls|
  {
    if FileProxy(ls, local).Proven? then RetireLines(ls) else ls
  }

  lemma MigratesWhen(ls: seq<string>, local: Question)
    ensures FileProxy(ls, local) == if Enabled(ls) then Platform(ls, local) else Absent
  {
    TruthyDigits();
    if Complete(ls) {
      var a := Collected(ls, LastOr(Values(ls, "TOR_ENABLED"), ""));
      var b := Collected(ls, "1");
      NamesDisjoint();
      if Enabled(ls) {
        LegacyDepends(a, b, local);
      }
    }
  }

  /** `retained[-1] += "\n"` when the last retained line has no newline. */
  function FixLast(retained: seq<string>): seq<string> {
    if retained == [] then retained
    else
      var last := retained[|retained| - 1];
      if last != "" && last[|last| - 1] in ['\n', '\r'] then retained
      else retained[|retained| - 1 := last + "\n"]
  }

  /** `tor_vars` of a write. */
  function TorVars(port: int, healthy: bool): map<string, string> {
    PolicyEnvironment(SocksUrl(port))["TOR_HEALTH" := if healthy then "1" else "0"]
      + if healthy then map[] else map["TOR_ENABLED" := "0"]
  }

  function RenderAll(keys: seq<string>, vars: map<string, string>): seq<string>
    requires forall k | k in keys :: k in vars
  {
    if keys == [] then [] else [Render(keys[0], vars[keys[0]])] + RenderAll(keys[1..], vars)
  }

  function ManagedLines(port: int, healthy: bool): seq<string> {
    TorVarsKeys(port, healthy);
    RenderAll(MANAGED, TorVars(port, healthy))
  }

  /** The text a file has after an operation, and whether the operation raised. */
  datatype Outcome = Outcome(text: string, raised: bool)

  /** A write of the file's text, which stays as it is if the migration raises. */
  function Written(raw: string, port: int, healthy: bool, local: Question): Outcome {
    if MigrateRaises(SplitLines(ReadText(raw)), local) then Outcome(raw, true)
    else Outcome(Rewrite(raw, port, healthy, local), false)
  }

  /** The same for a removal. */
  function Removed(raw: string, local: Question): Outcome {
    if MigrateRaises(SplitLines(ReadText(raw)), local) then Outcome(raw, true)
    else Outcome(Remove(raw, local), false)
  }

  /** The text `write_gateway_env_file` puts in place of the text it read. */
  function Rewrite(raw: string, port: int, healthy: bool, local: Question): string {
    var retained := Keep(Migrate(SplitLines(ReadText(raw)), local), TorVars(port, healthy).Keys);
    Concat(FixLast(retained)) + Concat(ManagedLines(port, healthy))
  }

  /** The keys `remove_gateway_env_file` drops. */
  function ManagedKeys(): set<string> {
    PolicyEnvironment(SocksUrl(9050)).Keys + {"TOR_HEALTH"}
  }

  /** The text `remove_gateway_env_file` leaves. */
  function Remove(raw: string, local: Question): string {
    Concat(Keep(Migrate(SplitLines(ReadText(raw)), local), ManagedKeys()))
  }

  lemma TorVarsKeys(port: int, healthy: bool)
    ensures TorVars(port, healthy).Keys == ManagedKeys() == set k | k in MANAGED
  {
  }
}
