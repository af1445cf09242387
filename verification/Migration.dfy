/** Legacy migration is all-or-nothing and reversible. */
module Migration {
  import opened Text
  import opened Lines
  import opened Policy
  import opened Dotenv
  import opened DotenvLaws

  predicate AssignsOneOf(line: string, names: seq<string>) {
    Assignment(line).Some? && Assignment(line).value.0 in names
  }

  /** Number of lines that assign one of `names`. */
  function CountAny(ls: seq<string>, names: seq<string>): nat {
    if ls == [] then 0
    else (if AssignsOneOf(ls[0], names) then 1 else 0) + CountAny(ls[1..], names)
  }

  lemma {:induction false} CountSplit(ls: seq<string>, names: seq<string>)
    requires names != [] && names[0] !in names[1..]
    ensures CountAny(ls, names) == |Values(ls, names[0])| + CountAny(ls, names[1..])
  {
    if ls != [] {
      CountSplit(ls[1..], names);
      assert forall k :: k in names <==> k == names[0] || k in names[1..];
    }
  }

  lemma {:induction false} CountNone(ls: seq<string>)
    ensures CountAny(ls, []) == 0
  {
    if ls != [] {
      CountNone(ls[1..]);
    }
  }

  lemma {:induction false} CountOnce(ls: seq<string>, names: seq<string>)
    requires forall i, j | 0 <= i < j < |names| :: names[i] != names[j]
    requires forall i | 0 <= i < |names| :: |Values(ls, names[i])| == 1
    ensures CountAny(ls, names) == |names|
  {
    if names == [] {
      CountNone(ls);
    } else {
      CountSplit(ls, names);
      CountOnce(ls, names[1..]);
    }
  }

  /** A footprint is fourteen lines. */
  lemma FootprintSize(ls: seq<string>)
    requires Complete(ls)
    ensures CountAny(ls, PLATFORM_PROXIES) == 14
  {
    PlatformNamesDistinct();
    var names := PLATFORM_PROXIES;
    assert forall i | 0 <= i < |names| :: |Values(ls, names[i])| == 1 by {
      assert forall n | n in names :: |Values(ls, n)| == 1;
    }
    CountOnce(ls, names);
  }

  /** Either nothing changes, or exactly the fourteen platform lines become comments, in place. */
  lemma MigrateAllOrNothing(ls: seq<string>, local: Question)
    ensures !FileProxy(ls, local).Proven? ==> Migrate(ls, local) == ls
    ensures FileProxy(ls, local).Proven? ==>
              CountAny(ls, PLATFORM_PROXIES) == 14 && Commented(ls, Migrate(ls, local), PLATFORM_PROXIES)
  {
    if FileProxy(ls, local).Proven? {
      FootprintSize(ls);
      RetiredLines(ls);
    }
  }

  /** Exactly the lines that assign one of the names have gained the prefix. */
  predicate Commented(before: seq<string>, after: seq<string>, names: seq<string>) {
    && |after| == |before|
    && forall i | 0 <= i < |before| ::
         after[i] == if AssignsOneOf(before[i], names) then RETIRED_PREFIX + before[i] else before[i]
  }

  lemma CommentedOnce(lines: seq<string>, migrated: seq<string>)
    requires Commented(lines, migrated, PLATFORM_PROXIES)
    ensures migrated == RetireLines(lines)
  {
    RetiredLines(lines);
  }

  lemma RetiredLines(ls: seq<string>)
    ensures Commented(ls, RetireLines(ls), PLATFORM_PROXIES)
  {
    forall i | 0 <= i < |ls|
      ensures RetireLines(ls)[i] == if AssignsOneOf(ls[i], PLATFORM_PROXIES) then RETIRED_PREFIX + ls[i] else ls[i]
    {
      assert RetireLines(ls)[i] == RetireLine(ls[i]);
    }
  }

  /** Take the retirement prefix off a line that carries it. */
  function Unretire(line: string): string {
    if RETIRED_PREFIX <= line then line[|RETIRED_PREFIX|..] else line
  }

  function UnretireAll(ls: seq<string>): (r: seq<string>)
    ensures |r| == |ls| && forall i | 0 <= i < |ls| :: r[i] == Unretire(ls[i])
  {
    if ls == [] then [] else [Unretire(ls[0])] + UnretireAll(ls[1..])
  }

  /** Stripping the prefix recovers the file exactly when no line carried it beforehand. */
  lemma MigrateReversible(ls: seq<string>, local: Question)
    requires ProperLines(ls)
    ensures UnretireAll(Migrate(ls, local)) == ls <==> forall i | 0 <= i < |ls| :: !(RETIRED_PREFIX <= ls[i])
  {
    forall i | 0 <= i < |ls|
      ensures Unretire(Migrate(ls, local)[i]) == ls[i] <==> !(RETIRED_PREFIX <= ls[i])
    {
      var line := ls[i];
      assert (RETIRED_PREFIX + line)[|RETIRED_PREFIX|..] == line;
      if RETIRED_PREFIX <= line {
        RetiredAssignment(RETIRED_PREFIX + line);
        PrefixIsComment(line);
        assert |Unretire(line)| < |line|;
      }
    }
    if forall i | 0 <= i < |ls| :: !(RETIRED_PREFIX <= ls[i]) {
      assert UnretireAll(Migrate(ls, local)) == ls;
    } else {
      var i :| 0 <= i < |ls| && RETIRED_PREFIX <= ls[i];
      assert UnretireAll(Migrate(ls, local))[i] != ls[i];
    }
  }

  lemma PrefixIsComment(line: string)
    requires RETIRED_PREFIX <= line
    ensures Assignment(line) == None
  {
    assert line[0] == '#';
  }

  /** A migrated file has nothing left to migrate. */
  lemma MigrateIdempotent(ls: seq<string>, local: Question)
    requires ProperLines(ls)
    ensures Migrate(Migrate(ls, local), local) == Migrate(ls, local)
  {
    MigrateFacts(ls, local, PLATFORM_PROXIES[0]);
    if FileProxy(ls, local).Proven? {
      assert |Values(Migrate(ls, local), PLATFORM_PROXIES[0])| == 0;
    }
  }

  // ---- the loops of `_retire_legacy_dotenv_platform_proxies` ---------------------

  function Parsed(ls: seq<string>): (r: seq<Option<(string, string)>>)
    ensures |r| == |ls| && forall i | 0 <= i < |ls| :: r[i] == Assignment(ls[i])
  {
    seq(|ls|, i requires 0 <= i < |ls| => Assignment(ls[i]))
  }

  predicate Binds<K(==)>(assignment: Option<(K, string)>, key: K) {
    assignment.Some? && assignment.value.0 == key
  }

  /** Where, and with which value, the first `n` assignments bind `key`. */
  function Occurrences<K(==)>(parsed: seq<Option<(K, string)>>, n: nat, key: K): seq<(nat, string)>
    requires n <= |parsed|
  {
    if n == 0 then []
    else Occurrences(parsed, n - 1, key) + if Binds(parsed[n - 1], key) then [(n - 1, parsed[n - 1].value.1)] else []
  }

  lemma {:induction false} OccurrencesValues(ls: seq<string>, n: nat, key: string)
    requires n <= |ls|
    ensures |Occurrences(Parsed(ls), n, key)| == |Values(ls[..n], key)|
    ensures forall i | 0 <= i < |Values(ls[..n], key)| ::
            Occurrences(Parsed(ls), n, key)[i].1 == Values(ls[..n], key)[i]
  {
    if n > 0 {
      OccurrencesValues(ls, n - 1, key);
      assert ls[..n] == ls[..n - 1] + [ls[n - 1]];
      ValuesSnoc(ls[..n - 1], ls[n - 1], key);
      assert Assigns(ls[n - 1], key) == Binds(Parsed(ls)[n - 1], key);
    }
  }

  lemma {:induction false} OccurrencesSound<K>(parsed: seq<Option<(K, string)>>, n: nat, key: K, i: nat)
    requires n <= |parsed| && i < |Occurrences(parsed, n, key)|
    ensures var (at, value) := Occurrences(parsed, n, key)[i]; at < n && parsed[at] == Some((key, value))
  {
    if i < |Occurrences(parsed, n - 1, key)| {
      OccurrencesSound(parsed, n - 1, key, i);
    }
  }

  lemma {:induction false} OccurrencesAll<K>(parsed: seq<Option<(K, string)>>, n: nat, key: K, j: nat)
    requires j < n <= |parsed| && Binds(parsed[j], key)
    ensures exists i :: 0 <= i < |Occurrences(parsed, n, key)| && Occurrences(parsed, n, key)[i].0 == j
  {
    var before := Occurrences(parsed, n - 1, key);
    var after := Occurrences(parsed, n, key);
    if j == n - 1 {
      assert after[|before|].0 == j;
    } else {
      OccurrencesAll(parsed, n - 1, key, j);
      var i :| 0 <= i < |before| && before[i].0 == j;
      assert after[i] == before[i];
    }
  }

  lemma SoleOccurrence<K>(parsed: seq<Option<(K, string)>>, key: K)
    requires |Occurrences(parsed, |parsed|, key)| == 1
    ensures var (at, value) := Occurrences(parsed, |parsed|, key)[0];
            && at < |parsed| && parsed[at] == Some((key, value))
            && forall j | 0 <= j < |parsed| :: Binds(parsed[j], key) <==> j == at
  {
    OccurrencesSound(parsed, |parsed|, key, 0);
    forall j | 0 <= j < |parsed| && Binds(parsed[j], key)
      ensures j == Occurrences(parsed, |parsed|, key)[0].0
    {
      OccurrencesAll(parsed, |parsed|, key, j);
    }
  }

  lemma ProxyOfName(ls: seq<string>, local: Question, name: string)
    requires FileProxy(ls, local).Proven? && name in PLATFORM_PROXIES
    ensures |Values(ls, name)| == 1 && Trim(Values(ls, name)[0]) == FileProxy(ls, local).proxy
  {
    NamesDisjoint();
    var values := Collected(ls, LastOr(Values(ls, "TOR_ENABLED"), ""));
    assert values[name] == Values(ls, name)[0];
  }

  /** A footprint's line is the only one that assigns its name, and its value is the common proxy. */
  lemma OnlyOccurrence(ls: seq<string>, local: Question, name: string)
    requires FileProxy(ls, local).Proven? && name in PLATFORM_PROXIES
    ensures |Occurrences(Parsed(ls), |ls|, name)| == 1
    ensures var (at, value) := Occurrences(Parsed(ls), |ls|, name)[0];
            && value == FileProxy(ls, local).proxy
            && forall j | 0 <= j < |ls| :: Binds(Parsed(ls)[j], name) <==> j == at
  {
    ProxyOfName(ls, local, name);
    assert ls[..|ls|] == ls;
    OccurrencesValues(ls, |ls|, name);
    SoleOccurrence(Parsed(ls), name);
    TrimIdempotentAssignment(ls[Occurrences(Parsed(ls), |ls|, name)[0].0]);
  }

  lemma TrimIdempotentAssignment(line: string)
    requires Assignment(line).Some?
    ensures Trim(Assignment(line).value.1) == Assignment(line).value.1
  {
    var stripped := TrimLeft(line);
    var candidate := if "export " <= stripped then TrimLeft(stripped[7..]) else stripped;
    TrimIdempotent(candidate[IndexOf(candidate, '=') + 1..]);
  }

  /** The first loop: where each key is assigned, and the last value of the switch. */
  method CollectOccurrences<K(==)>(parsed: seq<Option<(K, string)>>, switch: K)
    returns (occurrences: map<K, seq<(nat, string)>>, last: string)
    ensures forall k | k in occurrences :: occurrences[k] == Occurrences(parsed, |parsed|, k)
    ensures forall k {:trigger Occurrences(parsed, |parsed|, k)} | k !in occurrences ::
            Occurrences(parsed, |parsed|, k) == []
    ensures last == LastSeen(Occurrences(parsed, |parsed|, switch))
  {
    occurrences, last := map[], "";
    for i := 0 to |parsed|
      invariant forall k | k in occurrences :: occurrences[k] == Occurrences(parsed, i, k)
      invariant forall k {:trigger Occurrences(parsed, i, k)} | k !in occurrences :: Occurrences(parsed, i, k) == []
      invariant last == LastSeen(Occurrences(parsed, i, switch))
    {
      var assignment := parsed[i];
      ghost var seen := Occurrences(parsed, i + 1, switch);
      assert if Binds(assignment, switch) then seen[|seen| - 1].1 == assignment.value.1
          else seen == Occurrences(parsed, i, switch);
      if assignment.Some? {
        var (key, value) := assignment.value;
        var before := if key in occurrences then occurrences[key] else [];
        assert before == Occurrences(parsed, i, key);
        occurrences := occurrences[key := before + [(i, value)]];
        if key == switch {
          last := value;
        }
      }
      assert LastSeen(seen) == last;
    }
  }

  function LastSeen(seen: seq<(nat, string)>): string {
    if seen == [] then "" else seen[|seen| - 1].1
  }

  /** The second loop: the value of each name, unless one is not assigned exactly once. */
  method SingleValues(names: seq<string>, occurrences: map<string, seq<(nat, string)>>, torEnabled: string)
    returns (values: Option<map<string, string>>)
    requires "TOR_ENABLED" !in names
    ensures values.None? <==> exists n | n in names :: n !in occurrences || |occurrences[n]| != 1
    ensures values.Some? ==>
              && values.value.Keys == (set n | n in names) + {"TOR_ENABLED"}
              && values.value["TOR_ENABLED"] == torEnabled
              && forall n | n in names :: values.value[n] == occurrences[n][0].1
  {
    var collected: map<string, string> := map["TOR_ENABLED" := torEnabled];
    for i := 0 to |names|
      invariant collected.Keys == (set n | n in names[..i]) + {"TOR_ENABLED"}
      invariant collected["TOR_ENABLED"] == torEnabled
      invariant forall n | n in names[..i] ::
                  n in occurrences && |occurrences[n]| == 1 && collected[n] == occurrences[n][0].1
    {
      var matches := if names[i] in occurrences then occurrences[names[i]] else [];
      if |matches| != 1 {
        return None;
      }
      collected := collected[names[i] := matches[0].1];
      assert names[..i + 1] == names[..i] + [names[i]];
    }
    assert names[..|names|] == names;
    values := Some(collected);
  }

  /** The third loop: turn the line of each name into a comment. */
  method CommentOut(lines: seq<string>, names: seq<string>, occurrences: map<string, seq<(nat, string)>>)
    returns (migrated: seq<string>, retired: seq<string>)
    requires forall i, j | 0 <= i < j < |names| :: names[i] != names[j]
    requires forall n | n in names ::
               && n in occurrences && |occurrences[n]| == 1 && occurrences[n][0].0 < |lines|
               && forall j | 0 <= j < |lines| :: Binds(Parsed(lines)[j], n) <==> j == occurrences[n][0].0
    ensures retired == names && Commented(lines, migrated, names)
  {
    retired, migrated := [], lines;
    for n := 0 to |names|
      invariant retired == names[..n]
      invariant Commented(lines, migrated, names[..n])
    {
      var index := occurrences[names[n]][0].0;
      var original := migrated[index];
      assert Binds(Parsed(lines)[index], names[n]);
      assert original == lines[index];
      var newline := if original != "" && original[|original| - 1] == '\n' then "\n" else "";
      var payload := if newline != "" then original[..|original| - 1] else original;
      assert RETIRED_PREFIX + payload + newline == RETIRED_PREFIX + original;
      migrated := migrated[index := RETIRED_PREFIX + payload + newline];
      retired := retired + [names[n]];
      assert names[..n + 1] == names[..n] + [names[n]];
      forall j | 0 <= j < |lines|
        ensures AssignsOneOf(lines[j], names[..n + 1]) <==> AssignsOneOf(lines[j], names[..n]) || j == index
      {
        assert Binds(Parsed(lines)[j], names[n]) <==> j == index;
      }
    }
    assert names[..|names|] == names;
  }

  lemma LastOccurrence(lines: seq<string>, key: string)
    ensures LastSeen(Occurrences(Parsed(lines), |lines|, key)) == LastOr(Values(lines, key), "")
  {
    assert lines[..|lines|] == lines;
    OccurrencesValues(lines, |lines|, key);
  }

  ghost predicate Located(lines: seq<string>, occurrences: map<string, seq<(nat, string)>>) {
    && (forall k | k in occurrences :: occurrences[k] == Occurrences(Parsed(lines), |lines|, k))
    && (forall k {:trigger Occurrences(Parsed(lines), |lines|, k)} | k !in occurrences ::
          Occurrences(Parsed(lines), |lines|, k) == [])
  }

  lemma LocatedValues(lines: seq<string>, occurrences: map<string, seq<(nat, string)>>, n: string)
    requires Located(lines, occurrences)
    ensures (n in occurrences && |occurrences[n]| == 1) <==> |Values(lines, n)| == 1
    ensures |Values(lines, n)| == 1 ==> occurrences[n][0].1 == Values(lines, n)[0]
  {
    assert lines[..|lines|] == lines;
    OccurrencesValues(lines, |lines|, n);
  }

  lemma LocatedFootprint(lines: seq<string>, occurrences: map<string, seq<(nat, string)>>, local: Question)
    requires Located(lines, occurrences) && FileProxy(lines, local).Proven?
    ensures forall n | n in PLATFORM_PROXIES ::
              && n in occurrences && |occurrences[n]| == 1 && occurrences[n][0].0 < |lines|
              && occurrences[n][0].1 == FileProxy(lines, local).proxy
              && forall j | 0 <= j < |lines| :: Binds(Parsed(lines)[j], n) <==> j == occurrences[n][0].0
  {
    forall n | n in PLATFORM_PROXIES
      ensures n in occurrences && |occurrences[n]| == 1 && occurrences[n][0].0 < |lines|
      ensures occurrences[n][0].1 == FileProxy(lines, local).proxy
      ensures forall j | 0 <= j < |lines| :: Binds(Parsed(lines)[j], n) <==> j == occurrences[n][0].0
    {
      OnlyOccurrence(lines, local, n);
      OccurrencesSound(Parsed(lines), |lines|, n, 0);
    }
  }

  /** The last switch is on, and each of the fourteen names is assigned once, to this value. */
  predicate LinesShare(ls: seq<string>, v: string) {
    var switches := Values(ls, "TOR_ENABLED");
    && switches != [] && Lower(Trim(switches[|switches| - 1])) in {"1", "true", "yes", "on"}
    && forall n | n in PLATFORM_PROXIES :: Values(ls, n) == [v]
  }

  /** Exactly the lines that assign a platform name have become comments. */
  predicate CommentedOut(before: seq<string>, after: seq<string>) {
    && |after| == |before|
    && forall i | 0 <= i < |before| ::
         after[i] == if AssignsOneOf(before[i], PLATFORM_PROXIES)
                     then "# darkloom-retired-legacy-platform-proxy: " + before[i] else before[i]
  }

  /** The same of a file: every assigned value has been stripped. */
  lemma LinesExactly(ls: seq<string>, local: Question)
    ensures forall v | LinesShare(ls, v) ::
              FileProxy(ls, local)
              == if local(v) == None then Raises else if local(v) == Some(true) then Proven(v) else Absent
    ensures (forall v :: !LinesShare(ls, v)) ==> FileProxy(ls, local) == Absent
  {
    forall v | LinesShare(ls, v)
      ensures FileProxy(ls, local)
           == if local(v) == None then Raises else if local(v) == Some(true) then Proven(v) else Absent
    {
      SharedCollected(ls, v);
      FootprintExactly(Collected(ls, LastOr(Values(ls, "TOR_ENABLED"), "")), local);
    }
    if !FileProxy(ls, local).Absent? {
      var values := Collected(ls, LastOr(Values(ls, "TOR_ENABLED"), ""));
      FootprintExactly(values, local);
      var v :| AllShare(values, v);
      CollectedShared(ls, v);
    }
  }

  lemma MigratesExactly(ls: seq<string>, local: Question)
    ensures FileProxy(ls, local).Proven? <==> exists v :: LinesShare(ls, v) && local(v) == Some(true)
    ensures MigrateRaises(ls, local) <==> exists v :: LinesShare(ls, v) && local(v) == None
    ensures CommentedOut(ls, RetireLines(ls))
  {
    LinesExactly(ls, local);
    RetiredLines(ls);
  }

  lemma SharedCollected(ls: seq<string>, v: string)
    requires LinesShare(ls, v)
    ensures Complete(ls) && AllShare(Collected(ls, LastOr(Values(ls, "TOR_ENABLED"), "")), v)
  {
    NamesDisjoint();
    assert PLATFORM_PROXIES[0] in PLATFORM_PROXIES && Values(ls, PLATFORM_PROXIES[0]) == [v];
    ValueTrimmed(ls, PLATFORM_PROXIES[0], 0);
  }

  lemma CollectedShared(ls: seq<string>, v: string)
    requires Complete(ls) && AllShare(Collected(ls, LastOr(Values(ls, "TOR_ENABLED"), "")), v)
    ensures LinesShare(ls, v)
  {
    NamesDisjoint();
    EmptyIsOff();
    forall n | n in PLATFORM_PROXIES
      ensures Values(ls, n) == [v]
    {
      ValueTrimmed(ls, n, 0);
    }
  }

  lemma EmptyIsOff()
    ensures Lower(Trim("")) == ""
  {
  }

  lemma {:induction false} ValueTrimmed(ls: seq<string>, key: string, i: nat)
    requires i < |Values(ls, key)|
    ensures Trim(Values(ls, key)[i]) == Values(ls, key)[i]
    decreases |ls|
  {
    var here := ValueIn(ls[0], key);
    if i < |here| {
      TrimIdempotentAssignment(ls[0]);
    } else {
      ValueTrimmed(ls[1..], key, i - |here|);
    }
  }

  /** Lines 255-264: the proxy of a proven footprint. */
  method ProvenProxy(lines: seq<string>, occurrences: map<string, seq<(nat, string)>>, torEnabled: string,
                     local: Question)
    returns (legacy: Legacy)
    requires Located(lines, occurrences)
    requires torEnabled == LastOr(Values(lines, "TOR_ENABLED"), "")
    ensures legacy == FileProxy(lines, local)
  {
    var names := PLATFORM_PROXIES;
    NamesDisjoint();
    forall n: string | n in names
      ensures (n in occurrences && |occurrences[n]| == 1) <==> |Values(lines, n)| == 1
      ensures |Values(lines, n)| == 1 ==> occurrences[n][0].1 == Values(lines, n)[0]
    {
      LocatedValues(lines, occurrences, n);
    }
    var values := SingleValues(names, occurrences, torEnabled);
    assert values.Some? <==> Complete(lines);
    if values.None? {
      return Absent;
    }
    assert values.value == Collected(lines, torEnabled);
    legacy := LegacyProxyValue(values.value, local);
  }

  /** `_retire_legacy_dotenv_platform_proxies`; `raised` is the `ValueError` of `urlsplit`. The exit at
      gateway.py:270 is the assertion before the last loop: it cannot be taken. */
  method RetireDotenvProxies(lines: seq<string>, local: Question)
    returns (migrated: seq<string>, retired: seq<string>, raised: bool)
    ensures migrated == Migrate(lines, local) && raised == MigrateRaises(lines, local)
    ensures retired == if FileProxy(lines, local).Proven? then PLATFORM_PROXIES else []
    ensures retired != [] <==> exists v :: LinesShare(lines, v) && local(v) == Some(true)
    ensures raised <==> exists v :: LinesShare(lines, v) && local(v) == None
    ensures retired == [] ==> migrated == lines
    ensures retired != [] ==> CommentedOut(lines, migrated)
  {
    MigratesExactly(lines, local);
    var occurrences: map<string, seq<(nat, string)>>, torEnabled: string :=
      CollectOccurrences(Parsed(lines), "TOR_ENABLED");
    LastOccurrence(lines, "TOR_ENABLED");
    var legacy := ProvenProxy(lines, occurrences, torEnabled, local);
    if !legacy.Proven? {
      return lines, [], legacy.Raises?;
    }
    LocatedFootprint(lines, occurrences, local);
    assert forall n: string | n in PLATFORM_PROXIES :: occurrences[n][0].1 == legacy.proxy;
    PlatformNamesDistinct();
    migrated, retired := CommentOut(lines, PLATFORM_PROXIES, occurrences);
    CommentedOnce(lines, migrated);
    raised := false;
  }
}
