/** The `.env` file as an object that writes and removals change in place. */
module DotenvFile {
  import opened Text
  import opened Lines
  import opened Policy
  import opened Dotenv
  import opened DotenvLaws
  import opened Migration
  import opened PrivateFile

  datatype Node = Missing | Symlink | Regular(raw: string)

  function Contents(node: Node): string {
    if node.Regular? then node.raw else ""
  }

  /** The file after a call of `write_gateway_env_file`, and whether the call completes. It raises on a
      symbolic link, an unreadable file, a failing write and where the migration does. A missing file
      counts as empty. */
  function WriteNode(node: Node, port: int, healthy: bool, local: Question, fault: Fault): (Node, bool) {
    var outcome := Written(Contents(node), port, healthy, local);
    if node.Symlink? || BeforeReplace(fault) || outcome.raised then (node, false)
    else (Regular(outcome.text), fault.Nowhere?)
  }

  /** The same for `remove_gateway_env_file`. A missing file stays missing, and nothing is written for it. */
  function CleanNode(node: Node, local: Question, fault: Fault): (Node, bool) {
    match node
    case Symlink => (node, false)
    case Missing => (node, !fault.AtRead?)
    case Regular(raw) =>
      var outcome := Removed(raw, local);
      if BeforeReplace(fault) || outcome.raised then (node, false) else (Regular(outcome.text), fault.Nowhere?)
  }

  // ---- what the two calls promise, line by line ------------------------------------------------

  /** The keys both calls own. */
  predicate Owned(key: string) {
    || key in ["ALL_PROXY", "HTTPS_PROXY", "HTTP_PROXY", "TOR_PROXY"]
    || key in ["all_proxy", "https_proxy", "http_proxy", "tor_proxy"]
    || key in ["NO_PROXY", "no_proxy", "TOR_ENABLED", "TOR_HEALTH"]
  }

  /** What a write gives them. */
  function OwnedValue(key: string, port: int, healthy: bool): string {
    if key == "NO_PROXY" || key == "no_proxy" then "localhost,127.0.0.1,::1"
    else if key == "TOR_ENABLED" || key == "TOR_HEALTH" then if healthy then "1" else "0"
    else "socks5://127.0.0.1:" + Decimal(port)
  }

  /** The file has an enabled footprint of older releases. */
  ghost predicate Legacy(lines: seq<string>, local: Question) {
    exists v :: LinesShare(lines, v) && local(v) == Some(true)
  }

  /** The migration raises. */
  ghost predicate Refused(lines: seq<string>, local: Question) {
    exists v :: LinesShare(lines, v) && local(v) == None
  }

  /** The lines that assign no owned key, in their order, those of a footprint as comments. */
  ghost predicate InOrder(before: seq<string>, after: seq<string>, local: Question) {
    exists at: seq<nat> :: StandsAt(before, after, at, Legacy(before, local))
  }

  predicate StandsAt(before: seq<string>, after: seq<string>, at: seq<nat>, legacy: bool) {
    && |at| == |after|
    && (forall i, j | 0 <= i < j < |at| :: at[i] < at[j])
    && (forall k | 0 <= k < |before| ::
          k in at <==> !(Assignment(before[k]).Some? && Owned(Assignment(before[k]).value.0)))
    && (forall i | 0 <= i < |at| ::
          && at[i] < |before|
          && after[i] == if legacy && AssignsOneOf(before[at[i]], PLATFORM_PROXIES)
                         then "# darkloom-retired-legacy-platform-proxy: " + before[at[i]] else before[at[i]])
  }

  /** A removal. */
  ghost predicate Removal(before: seq<string>, after: seq<string>, local: Question) {
    && InOrder(before, after, local)
    && forall key :: Values(after, key)
                  == if Owned(key) || (key in PLATFORM_PROXIES && Legacy(before, local)) then []
                     else Values(before, key)
  }

  /** A write: the same lines, the last one finished, and then one line for each owned key. */
  ghost predicate Update(before: seq<string>, after: seq<string>, port: int, healthy: bool, local: Question) {
    && (exists kept :: InOrder(before, kept, local) && |after| == |Finish(kept)| + 12 && Finish(kept) <= after)
    && forall key :: Values(after, key)
                  == if Owned(key) then [OwnedValue(key, port, healthy)]
                     else if key in PLATFORM_PROXIES && Legacy(before, local) then [] else Values(before, key)
  }

  lemma OwnedExactly(key: string)
    ensures Owned(key) <==> key in ManagedKeys()
    ensures !(Owned(key) && key in PLATFORM_PROXIES)
  {
    NamesExactly(key);
    NamesDisjoint();
  }

  lemma OwnedValueExactly(key: string, port: int, healthy: bool)
    requires Owned(key)
    ensures key in TorVars(port, healthy) && TorVars(port, healthy)[key] == OwnedValue(key, port, healthy)
  {
    BaseValue(key, port);
    SwitchValues(PolicyEnvironment(SocksUrl(port)), key, healthy);
  }

  lemma BaseValue(key: string, port: int)
    requires Owned(key)
    ensures key != "TOR_HEALTH" ==>
              && key in PolicyEnvironment(SocksUrl(port))
              && PolicyEnvironment(SocksUrl(port))[key]
                 == if key == "TOR_ENABLED" then "1" else OwnedValue(key, port, true)
  {
    NamesDisjoint();
    NamesExactly(key);
  }

  lemma SwitchValues(base: map<string, string>, key: string, healthy: bool)
    ensures var vars := base["TOR_HEALTH" := if healthy then "1" else "0"]
                        + if healthy then map[] else map["TOR_ENABLED" := "0"];
            && (key == "TOR_HEALTH" ==> key in vars && vars[key] == if healthy then "1" else "0")
            && (key == "TOR_ENABLED" && !healthy ==> key in vars && vars[key] == "0")
            && (key == "TOR_ENABLED" && healthy && key in base ==> key in vars && vars[key] == base[key])
            && (key !in ["TOR_HEALTH", "TOR_ENABLED"] && key in base ==> key in vars && vars[key] == base[key])
  {
  }

  lemma LegacyExactly(lines: seq<string>, local: Question)
    ensures FileProxy(lines, local).Proven? <==> Legacy(lines, local)
    ensures MigrateRaises(lines, local) <==> Refused(lines, local)
  {
    MigratesExactly(lines, local);
  }

  lemma MigratedLine(ls: seq<string>, local: Question, k: nat)
    requires k < |ls|
    ensures Migrate(ls, local)[k]
         == if Legacy(ls, local) && AssignsOneOf(ls[k], PLATFORM_PROXIES)
            then "# darkloom-retired-legacy-platform-proxy: " + ls[k] else ls[k]
    ensures AssignsAny(Migrate(ls, local)[k], ManagedKeys())
       <==> Assignment(ls[k]).Some? && Owned(Assignment(ls[k]).value.0)
  {
    LegacyExactly(ls, local);
    RetiredLines(ls);
    if Assignment(ls[k]).Some? {
      OwnedExactly(Assignment(ls[k]).value.0);
    }
    if FileProxy(ls, local).Proven? && AssignsOneOf(ls[k], PLATFORM_PROXIES) {
      PrefixIsComment(Migrate(ls, local)[k]);
    }
  }

  lemma RetainedInOrderOf(raw: string, local: Question)
    ensures InOrder(Read(raw), Retained(raw, local), local)
  {
    var before, ls := Read(raw), Migrate(Read(raw), local);
    var at := Positions(Survivors(ls, ManagedKeys()), 0);
    RetainedInOrder(raw, local);
    forall k | 0 <= k < |before|
      ensures k in at <==> !(Assignment(before[k]).Some? && Owned(Assignment(before[k]).value.0))
    {
      MigratedLine(before, local, k);
    }
    forall i | 0 <= i < |at|
      ensures Retained(raw, local)[i]
           == if Legacy(before, local) && AssignsOneOf(before[at[i]], PLATFORM_PROXIES)
              then "# darkloom-retired-legacy-platform-proxy: " + before[at[i]] else before[at[i]]
    {
      MigratedLine(before, local, at[i]);
    }
    assert StandsAt(before, Retained(raw, local), at, Legacy(before, local));
  }

  lemma RemovalExactly(raw: string, local: Question)
    ensures Removed(raw, local).raised <==> Refused(Read(raw), local)
    ensures Removal(Read(raw), Read(Remove(raw, local)), local)
  {
    LegacyExactly(Read(raw), local);
    RetainedInOrderOf(raw, local);
    RemovedText(raw, local);
    forall key
      ensures Values(Retained(raw, local), key)
           == if Owned(key) || (key in PLATFORM_PROXIES && Legacy(Read(raw), local)) then [] else Values(Read(raw), key)
    {
      OwnedExactly(key);
      RetainedValues(raw, local, key);
      ValuesFinish(Retained(raw, local), key);
    }
  }

  lemma UpdateExactly(raw: string, port: int, healthy: bool, local: Question)
    ensures Written(raw, port, healthy, local).raised <==> Refused(Read(raw), local)
    ensures Update(Read(raw), Read(Rewrite(raw, port, healthy, local)), port, healthy, local)
  {
    var kept := Retained(raw, local);
    LegacyExactly(Read(raw), local);
    RetainedInOrderOf(raw, local);
    RewrittenLines(raw, port, healthy, local);
    TwelveLines(port, healthy);
    assert InOrder(Read(raw), kept, local) && Finish(kept) <= Read(Rewrite(raw, port, healthy, local));
    forall key
      ensures Values(Read(Rewrite(raw, port, healthy, local)), key)
           == if Owned(key) then [OwnedValue(key, port, healthy)]
              else if key in PLATFORM_PROXIES && Legacy(Read(raw), local) then [] else Values(Read(raw), key)
    {
      UpdatedValue(raw, port, healthy, local, key);
    }
  }

  lemma NodeUpdated(node: Node, port: int, healthy: bool, local: Question, fault: Fault)
    ensures var (next, ok) := WriteNode(node, port, healthy, local, fault);
            var refused := node.Symlink? || Refused(Read(Contents(node)), local);
            && (ok <==> !refused && fault.Nowhere?)
            && (ok || (fault.AtSettle? && !refused) ==>
                  next.Regular? && Update(Read(Contents(node)), Read(next.raw), port, healthy, local))
            && (!ok && (!fault.AtSettle? || refused) ==> next == node)
  {
    var outcome := Written(Contents(node), port, healthy, local);
    OutcomeUpdated(Contents(node), port, healthy, local);
    NodeOutcome(node, port, healthy, local, fault, outcome);
  }

  lemma NodeOutcome(node: Node, port: int, healthy: bool, local: Question, fault: Fault, outcome: Outcome)
    requires outcome == Written(Contents(node), port, healthy, local)
    ensures WriteNode(node, port, healthy, local, fault)
         == if node.Symlink? || BeforeReplace(fault) || outcome.raised then (node, false)
            else (Regular(outcome.text), fault.Nowhere?)
  {
  }

  lemma OutcomeUpdated(raw: string, port: int, healthy: bool, local: Question)
    ensures var outcome := Written(raw, port, healthy, local);
            && (outcome.raised <==> Refused(Read(raw), local))
            && (!outcome.raised ==> Update(Read(raw), Read(outcome.text), port, healthy, local))
  {
    UpdateExactly(raw, port, healthy, local);
  }

  lemma UpdatedValue(raw: string, port: int, healthy: bool, local: Question, key: string)
    ensures Values(Read(Rewrite(raw, port, healthy, local)), key)
         == if Owned(key) then [OwnedValue(key, port, healthy)]
            else if key in PLATFORM_PROXIES && Legacy(Read(raw), local) then [] else Values(Read(raw), key)
  {
    LegacyExactly(Read(raw), local);
    OwnedExactly(key);
    TorVarsKeys(port, healthy);
    WrittenValues(raw, port, healthy, local, key);
    if Owned(key) {
      OwnedValueExactly(key, port, healthy);
    }
  }

  lemma TwelveLines(port: int, healthy: bool)
    ensures |ManagedLines(port, healthy)| == 12
  {
    TorVarsKeys(port, healthy);
    RenderedCount(MANAGED, TorVars(port, healthy));
  }

  lemma {:induction false} RenderedCount(keys: seq<string>, vars: map<string, string>)
    requires forall k | k in keys :: k in vars
    ensures |RenderAll(keys, vars)| == |keys|
  {
    if keys != [] {
      RenderedCount(keys[1..], vars);
    }
  }

  /** All fourteen names once, with one value that would be retired, or make the retirement raise, were the
      switch on. */
  ghost predicate Dormant(lines: seq<string>, local: Question) {
    exists v :: (forall n | n in PLATFORM_PROXIES :: Values(lines, n) == [v]) && local(v) != Some(false)
  }

  lemma DormantExactly(ls: seq<string>, local: Question)
    ensures Platform(ls, local).Absent? <==> !Dormant(ls, local)
  {
    if Dormant(ls, local) {
      var v :| (forall n | n in PLATFORM_PROXIES :: Values(ls, n) == [v]) && local(v) != Some(false);
      OnShared(ls, v);
      FootprintExactly(Collected(ls, "1"), local);
    } else if !Platform(ls, local).Absent? {
      FootprintExactly(Collected(ls, "1"), local);
      var v :| AllShare(Collected(ls, "1"), v);
      SharedOn(ls, v);
    }
  }

  lemma SharedOn(ls: seq<string>, v: string)
    requires Complete(ls) && AllShare(Collected(ls, "1"), v)
    ensures forall n | n in PLATFORM_PROXIES :: Values(ls, n) == [v]
  {
    NamesDisjoint();
    forall n | n in PLATFORM_PROXIES
      ensures Values(ls, n) == [v]
    {
      ValueTrimmed(ls, n, 0);
    }
  }

  lemma OnShared(ls: seq<string>, v: string)
    requires forall n | n in PLATFORM_PROXIES :: Values(ls, n) == [v]
    ensures Complete(ls) && AllShare(Collected(ls, "1"), v)
  {
    NamesDisjoint();
    assert PLATFORM_PROXIES[0] in PLATFORM_PROXIES && Values(ls, PLATFORM_PROXIES[0]) == [v];
    ValueTrimmed(ls, PLATFORM_PROXIES[0], 0);
    assert Trim("1") == "1" && Lower("1") == "1";
  }

  /** A write and then a removal on one file without owned keys whose last line is finished: the text that was
      read comes back, unless a healthy write turned something on. */
  method WriteThenClean(file: EnvFile, port: int, healthy: bool, local: Question) returns (ok: bool)
    requires file.node.Regular? && forall key | Owned(key) :: Values(Read(file.node.raw), key) == []
    requires var text := ReadText(file.node.raw); text == "" || text[|text| - 1] == '\n'
    modifies file
    ensures ok && file.node == Regular(ReadText(old(file.node.raw)))
       <==> !healthy || !Dormant(Read(old(file.node.raw)), local)
  {
    BothCalls(file.node.raw, port, healthy, local);
    ok := file.Write(port, healthy, local, Nowhere);
    ok := file.Clean(local, Nowhere);
  }

  lemma BothCalls(raw: string, port: int, healthy: bool, local: Question)
    requires forall key | Owned(key) :: Values(Read(raw), key) == []
    requires var text := ReadText(raw); text == "" || text[|text| - 1] == '\n'
    ensures CleanNode(WriteNode(Regular(raw), port, healthy, local, Nowhere).0, local, Nowhere)
            == (Regular(ReadText(raw)), true)
       <==> !healthy || !Dormant(Read(raw), local)
  {
    NothingOwned(raw);
    DormantExactly(Read(raw), local);
    RemoveRestores(raw, port, healthy, local);
    NotRaising(raw, local);
    CallsCompose(raw, port, healthy, local);
  }

  lemma CallsCompose(raw: string, port: int, healthy: bool, local: Question)
    requires !MigrateRaises(Read(raw), local)
    ensures var end := Removed(Written(raw, port, healthy, local).text, local);
            end == Outcome(ReadText(raw), false)
            <==> CleanNode(WriteNode(Regular(raw), port, healthy, local, Nowhere).0, local, Nowhere)
                 == (Regular(ReadText(raw)), true)
  {
    NodeWritten(raw, port, healthy, local);
    NodeCleaned(Written(raw, port, healthy, local).text, local);
  }

  lemma NodeWritten(raw: string, port: int, healthy: bool, local: Question)
    requires !MigrateRaises(Read(raw), local)
    ensures WriteNode(Regular(raw), port, healthy, local, Nowhere)
         == (Regular(Written(raw, port, healthy, local).text), true)
  {
  }

  lemma NodeCleaned(text: string, local: Question)
    ensures CleanNode(Regular(text), local, Nowhere)
         == var end := Removed(text, local); (Regular(if end.raised then text else end.text), !end.raised)
  {
  }

  lemma NothingOwned(raw: string)
    requires forall key | Owned(key) :: Values(Read(raw), key) == []
    ensures NoneAssigns(Read(raw), ManagedKeys())
  {
    var ls := Read(raw);
    forall i | 0 <= i < |ls|
      ensures !AssignsAny(ls[i], ManagedKeys())
    {
      if AssignsAny(ls[i], ManagedKeys()) {
        var key := Assignment(ls[i]).value.0;
        OwnedExactly(key);
        AssignedSomewhere(ls, i, key);
      }
    }
  }

  lemma {:induction false} AssignedSomewhere(ls: seq<string>, i: nat, key: string)
    requires i < |ls| && Assigns(ls[i], key)
    ensures Values(ls, key) != []
    decreases i
  {
    if i > 0 {
      AssignedSomewhere(ls[1..], i - 1, key);
    }
  }

  lemma NotRaising(raw: string, local: Question)
    requires forall key | Owned(key) :: Values(Read(raw), key) == []
    ensures !MigrateRaises(Read(raw), local)
  {
    assert Owned("TOR_ENABLED");
    EmptyIsOff();
  }

  class EnvFile {
    var node: Node

    constructor (initial: Node)
      ensures node == initial
    {
      node := initial;
    }

    /** `write_gateway_env_file`; `ok` is false when it raises. */
    method Write(port: int, healthy: bool, local: Question, fault: Fault) returns (ok: bool)
      modifies this
      ensures (node, ok) == WriteNode(old(node), port, healthy, local, fault)
      ensures ok <==> !old(node).Symlink? && fault.Nowhere? && !Refused(Read(Contents(old(node))), local)
      ensures ok || (fault.AtSettle? && !old(node).Symlink? && !Refused(Read(Contents(old(node))), local)) ==>
                node.Regular? && Update(Read(Contents(old(node))), Read(node.raw), port, healthy, local)
      ensures !ok && (!fault.AtSettle? || old(node).Symlink? || Refused(Read(Contents(old(node))), local)) ==>
                node == old(node)
    {
      NodeUpdated(node, port, healthy, local, fault);
      if node.Symlink? || fault.AtRead? {
        return false;
      }
      var existing := SplitLines(ReadText(Contents(node)));
      var migrated, retired, raised := RetireDotenvProxies(existing, local);
      if raised || BeforeReplace(fault) {
        return false;
      }
      var vars := TorVars(port, healthy);
      var retained := FixLast(Keep(migrated, vars.Keys));
      node := Regular(Concat(retained) + Concat(ManagedLines(port, healthy)));
      ok := fault.Nowhere?;
    }

    /** `remove_gateway_env_file` */
    method Clean(local: Question, fault: Fault) returns (ok: bool)
      modifies this
      ensures (node, ok) == CleanNode(old(node), local, fault)
      ensures old(node).Regular? ==> (ok <==> fault.Nowhere? && !Refused(Read(old(node).raw), local))
      ensures old(node).Regular? && (ok || (fault.AtSettle? && !Refused(Read(old(node).raw), local))) ==>
                node.Regular? && Removal(Read(old(node).raw), Read(node.raw), local)
      ensures old(node).Regular? && !ok && (!fault.AtSettle? || Refused(Read(old(node).raw), local)) ==>
                node == old(node)
      ensures !old(node).Regular? ==> node == old(node) && ok == (old(node).Missing? && !fault.AtRead?)
    {
      RemovalExactly(Contents(node), local);
      if node.Symlink? || fault.AtRead? {
        return false;
      }
      if node.Missing? {
        return true;
      }
      var existing := SplitLines(ReadText(node.raw));
      var migrated, retired, raised := RetireDotenvProxies(existing, local);
      if raised || BeforeReplace(fault) {
        return false;
      }
      node := Regular(Concat(Keep(migrated, ManagedKeys())));
      ok := fault.Nowhere?;
    }
  }

  /** The order in which a write lists the managed keys is the one `sorted` gives. */
  lemma ManagedSorted(i: nat)
    requires i + 1 < |MANAGED|
    ensures Precedes(MANAGED[i], MANAGED[i + 1])
  {
    var at := [0, 4, 0, 0, 4, 4, 0, 0, 4, 0, 0][i];
    var a, b := MANAGED[i], MANAGED[i + 1];
    assert a[..at] == b[..at] && a[at] < b[at];
  }

  predicate Precedes(a: string, b: string) {
    exists k | 0 <= k < |a| && k < |b| :: a[..k] == b[..k] && a[k] < b[k]
  }

  // ---- retained lines keep their order --------------------------------------------

  /** Which lines survive. */
  function Survivors(ls: seq<string>, drop: set<string>): (r: seq<bool>)
    ensures |r| == |ls| && forall i | 0 <= i < |ls| :: r[i] == !AssignsAny(ls[i], drop)
  {
    seq(|ls|, i requires 0 <= i < |ls| => !AssignsAny(ls[i], drop))
  }

  /** Positions, from `from` on, at which a flag is set. */
  function Positions(flags: seq<bool>, from: nat): seq<nat>
    decreases |flags|
  {
    if flags == [] then [] else (if flags[0] then [from] else []) + Positions(flags[1..], from + 1)
  }

  lemma {:induction false} PositionsOrdered(flags: seq<bool>, from: nat)
    ensures forall i | 0 <= i < |Positions(flags, from)| :: from <= Positions(flags, from)[i] < from + |flags|
    ensures forall i, j | 0 <= i < j < |Positions(flags, from)| :: Positions(flags, from)[i] < Positions(flags, from)[j]
    ensures forall k | from <= k < from + |flags| :: k in Positions(flags, from) <==> flags[k - from]
    decreases |flags|
  {
    if flags != [] {
      PositionsOrdered(flags[1..], from + 1);
    }
  }

  function Select<T>(xs: seq<T>, flags: seq<bool>): seq<T>
    requires |xs| == |flags|
  {
    if xs == [] then [] else (if flags[0] then [xs[0]] else []) + Select(xs[1..], flags[1..])
  }

  lemma {:induction false} SelectPositions<T>(xs: seq<T>, flags: seq<bool>, from: nat)
    requires |xs| == |flags|
    ensures |Positions(flags, from)| == |Select(xs, flags)|
    ensures forall i | 0 <= i < |Positions(flags, from)| ::
              && from <= Positions(flags, from)[i] < from + |xs|
              && Select(xs, flags)[i] == xs[Positions(flags, from)[i] - from]
    decreases |xs|
  {
    if xs != [] {
      SelectPositions(xs[1..], flags[1..], from + 1);
    }
  }

  lemma SelectedInOrder<T>(xs: seq<T>, flags: seq<bool>)
    requires |xs| == |flags|
    ensures var at := Positions(flags, 0);
            && |at| == |Select(xs, flags)|
            && (forall i | 0 <= i < |at| :: at[i] < |xs| && Select(xs, flags)[i] == xs[at[i]])
            && (forall i, j | 0 <= i < j < |at| :: at[i] < at[j])
            && (forall k | 0 <= k < |xs| :: k in at <==> flags[k])
  {
    SelectPositions(xs, flags, 0);
    PositionsOrdered(flags, 0);
  }

  lemma {:induction false} KeepSelects(ls: seq<string>, drop: set<string>)
    ensures Keep(ls, drop) == Select(ls, Survivors(ls, drop))
  {
    if ls != [] {
      assert Survivors(ls, drop)[1..] == Survivors(ls[1..], drop);
      KeepSelects(ls[1..], drop);
    }
  }

  /** The retained lines of a write keep their order: they stand at strictly increasing positions
      of the migrated file, and every line at another position assigns a managed key. */
  lemma RetainedInOrder(raw: string, local: Question)
    ensures var ls := Migrate(Read(raw), local);
            var at := Positions(Survivors(ls, ManagedKeys()), 0);
            && |at| == |Retained(raw, local)|
            && (forall i | 0 <= i < |at| :: at[i] < |ls| && Retained(raw, local)[i] == ls[at[i]])
            && (forall i, j | 0 <= i < j < |at| :: at[i] < at[j])
            && (forall k | 0 <= k < |ls| :: k in at <==> !AssignsAny(ls[k], ManagedKeys()))
  {
    var ls := Migrate(Read(raw), local);
    KeepSelects(ls, ManagedKeys());
    SelectedInOrder(ls, Survivors(ls, ManagedKeys()));
  }
}
