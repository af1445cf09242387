/** The algebra of `.env` rewriting: absorption, stabilisation, removal, and what a
    write does to every key. */
module DotenvLaws {
  import opened Text
  import opened Lines
  import opened Policy
  import opened Dotenv

  // ---- how lines and values move through the pipeline -------------------------

  lemma ValuesAppend(a: seq<string>, b: seq<string>, key: string)
    ensures Values(a + b, key) == Values(a, key) + Values(b, key)
  {
    FlatMapAppend(a, b, line => ValueIn(line, key));
  }

  lemma ValuesSnoc(ls: seq<string>, line: string, key: string)
    ensures Values(ls + [line], key) == Values(ls, key) + ValueIn(line, key)
  {
    ValuesAppend(ls, [line], key);
    FlatMapOne(line, l => ValueIn(l, key));
  }

  lemma KeepAppend(a: seq<string>, b: seq<string>, drop: set<string>)
    ensures Keep(a + b, drop) == Keep(a, drop) + Keep(b, drop)
  {
    FlatMapAppend(a, b, line => Unless(line, drop));
  }

  lemma {:induction false} ValuesKeep(ls: seq<string>, drop: set<string>, key: string)
    ensures Values(Keep(ls, drop), key) == if key in drop then [] else Values(ls, key)
  {
    if ls != [] {
      ValuesKeep(ls[1..], drop, key);
      ValuesAppend(if AssignsAny(ls[0], drop) then [] else [ls[0]], Keep(ls[1..], drop), key);
    }
  }

  predicate NoneAssigns(ls: seq<string>, drop: set<string>) {
    forall i | 0 <= i < |ls| :: !AssignsAny(ls[i], drop)
  }

  lemma {:induction false} KeepNone(ls: seq<string>, drop: set<string>)
    ensures NoneAssigns(Keep(ls, drop), drop)
    ensures NoneAssigns(ls, drop) ==> Keep(ls, drop) == ls
    ensures |Keep(ls, drop)| <= |ls|
  {
    if ls != [] {
      KeepNone(ls[1..], drop);
      KeepFirst(ls, drop);
      assert NoneAssigns(ls, drop) ==> NoneAssigns(ls[1..], drop);
    }
  }

  lemma KeepFirst(ls: seq<string>, drop: set<string>)
    requires ls != []
    ensures Keep(ls, drop) == (if AssignsAny(ls[0], drop) then [] else [ls[0]]) + Keep(ls[1..], drop)
  {
  }

  lemma {:induction false} KeepProper(ls: seq<string>, drop: set<string>)
    requires ProperLines(ls)
    ensures ProperLines(Keep(ls, drop))
    ensures ls != [] && Terminated(ls[|ls| - 1]) ==>
              Keep(ls, drop) == [] || Terminated(Keep(ls, drop)[|Keep(ls, drop)| - 1])
  {
    if ls != [] {
      KeepProper(ls[1..], drop);
      KeepNone(ls[1..], drop);
    }
  }

  /** A retired line is a comment. */
  lemma RetiredAssignment(line: string)
    requires Proper(line)
    ensures Assignment(RETIRED_PREFIX + line) == None
    ensures Proper(RETIRED_PREFIX + line)
    ensures Terminated(RETIRED_PREFIX + line) == Terminated(line)
  {
    var r := RETIRED_PREFIX + line;
    assert r[0] == '#';
    assert TrimLeft(r) == r;
    PrefixUnbroken();
    PrefixedLine(RETIRED_PREFIX, line);
  }

  lemma PrefixUnbroken()
    ensures forall i | 0 <= i < |RETIRED_PREFIX| :: !IsBreak(RETIRED_PREFIX[i]) && RETIRED_PREFIX[i] != '\r'
  {
  }

  lemma PrefixedLine(prefix: string, line: string)
    requires Proper(line) && forall i | 0 <= i < |prefix| :: !IsBreak(prefix[i]) && prefix[i] != '\r'
    ensures Proper(prefix + line) && Terminated(prefix + line) == Terminated(line)
  {
    var r := prefix + line;
    assert forall i | 0 <= i < |r| :: r[i] == if i < |prefix| then prefix[i] else line[i - |prefix|];
  }

  lemma RetireProper(ls: seq<string>)
    requires ProperLines(ls)
    ensures ProperLines(RetireLines(ls))
  {
    forall i | 0 <= i < |ls|
      ensures Proper(RetireLine(ls[i])) && Terminated(RetireLine(ls[i])) == Terminated(ls[i])
    {
      RetiredAssignment(ls[i]);
    }
  }

  lemma {:induction false} ValuesRetire(ls: seq<string>, key: string)
    requires forall i | 0 <= i < |ls| :: Proper(ls[i])
    ensures Values(RetireLines(ls), key) == if key in PLATFORM_PROXIES then [] else Values(ls, key)
  {
    if ls != [] {
      RetiredAssignment(ls[0]);
      ValuesRetire(ls[1..], key);
    }
  }

  lemma MigrateFacts(ls: seq<string>, local: Question, key: string)
    requires ProperLines(ls)
    ensures ProperLines(Migrate(ls, local))
    ensures Values(Migrate(ls, local), key)
         == if FileProxy(ls, local).Proven? && key in PLATFORM_PROXIES then [] else Values(ls, key)
  {
    RetireProper(ls);
    ValuesRetire(ls, key);
  }

  lemma PlatformDepends(a: seq<string>, b: seq<string>, local: Question)
    requires forall n | n in PLATFORM_PROXIES :: Values(a, n) == Values(b, n)
    ensures Platform(a, local) == Platform(b, local)
  {
    if Complete(a) {
      assert Complete(b);
      assert Collected(a, "1") == Collected(b, "1");
    } else {
      assert !Complete(b);
    }
  }

  /** `FixLast` read back as lines: a last line ending in a break other than a newline
      gets a second, empty line. */
  function Finish(ls: seq<string>): seq<string> {
    if ls == [] then ls
    else
      var last := ls[|ls| - 1];
      if last != "" && last[|last| - 1] == '\n' then ls
      else if Terminated(last) then ls + ["\n"]
      else ls[..|ls| - 1] + [last + "\n"]
  }

  predicate Closed(ls: seq<string>) {
    ProperLines(ls) && (ls != [] ==> ls[|ls| - 1][|ls[|ls| - 1]| - 1] == '\n')
  }

  lemma FinishClosed(ls: seq<string>)
    requires ProperLines(ls)
    ensures Closed(Finish(ls))
    ensures Closed(ls) ==> Finish(ls) == ls
  {
    if ls != [] {
      var init, last := ls[..|ls| - 1], ls[|ls| - 1];
      if last[|last| - 1] != '\n' {
        if Terminated(last) {
          ClosedSnoc(ls, "\n");
        } else {
          EndedLine(last);
          ClosedSnoc(init, last + "\n");
        }
      }
    }
  }

  lemma EndedLine(line: string)
    requires Proper(line) && !Terminated(line)
    ensures Proper(line + "\n")
  {
  }

  lemma ClosedSnoc(ls: seq<string>, line: string)
    requires ProperLines(ls) && (ls != [] ==> Terminated(ls[|ls| - 1]))
    requires Proper(line) && line[|line| - 1] == '\n'
    ensures Closed(ls + [line])
  {
  }

  lemma FinishText(ls: seq<string>)
    requires ProperLines(ls)
    ensures Concat(FixLast(ls)) == Concat(Finish(ls))
    ensures Concat(Finish(ls)) == if Closed(ls) then Concat(ls) else Concat(ls) + "\n"
  {
    if ls != [] && !Closed(ls) {
      var init, last := ls[..|ls| - 1], ls[|ls| - 1];
      assert Concat(ls) == Concat(init) + last by {
        assert ls == init + [last];
        ConcatAppend(init, [last]);
      }
      assert Concat(init + [last + "\n"]) == Concat(init) + (last + "\n") by {
        ConcatAppend(init, [last + "\n"]);
      }
      assert Concat(ls + ["\n"]) == Concat(ls) + "\n" by {
        ConcatAppend(ls, ["\n"]);
      }
      assert FixLast(ls) == init + [last + "\n"];
    }
  }

  lemma EmptyLine()
    ensures Assignment("\n") == None
  {
    assert TrimLeft("\n") == "";
  }

  lemma ValuesFinish(ls: seq<string>, key: string)
    ensures Values(Finish(ls), key) == Values(ls, key)
  {
    if ls != [] {
      var init, last := ls[..|ls| - 1], ls[|ls| - 1];
      assert ls == init + [last];
      ValuesSnoc(init, last, key);
      ValuesSnoc(init, last + "\n", key);
      ValuesSnoc(ls, "\n", key);
      AssignmentNewline(last);
      EmptyLine();
      assert ValueIn(last + "\n", key) == ValueIn(last, key) && ValueIn("\n", key) == [];
    }
  }

  lemma NoneFinish(ls: seq<string>, drop: set<string>)
    requires NoneAssigns(ls, drop)
    ensures NoneAssigns(Finish(ls), drop)
  {
    forall i | 0 <= i < |Finish(ls)|
      ensures !AssignsAny(Finish(ls)[i], drop)
    {
      EmptyLine();
      AssignmentNewline(ls[|ls| - 1]);
      assert i < |ls| ==> !AssignsAny(ls[i], drop);
    }
  }

  predicate Renderable(keys: seq<string>, vars: map<string, string>) {
    && (forall k | k in keys :: k in vars && IsName(k) && NoSpace(vars[k]))
    && (forall i, j | 0 <= i < j < |keys| :: keys[i] != keys[j])
  }

  lemma ClosedCons(line: string, ls: seq<string>)
    requires Proper(line) && line[|line| - 1] == '\n' && Closed(ls)
    ensures Closed([line] + ls)
  {
    var all := [line] + ls;
    assert forall i | 0 <= i < |all| :: all[i] == if i == 0 then line else ls[i - 1];
  }

  lemma {:induction false} RenderAllClosed(keys: seq<string>, vars: map<string, string>)
    requires Renderable(keys, vars)
    ensures Closed(RenderAll(keys, vars)) && |RenderAll(keys, vars)| == |keys|
  {
    if keys != [] {
      RenderAllClosed(keys[1..], vars);
      RenderedProper(keys[0], vars[keys[0]]);
      ClosedCons(Render(keys[0], vars[keys[0]]), RenderAll(keys[1..], vars));
    }
  }

  lemma {:induction false} RenderAllValues(keys: seq<string>, vars: map<string, string>, key: string)
    requires Renderable(keys, vars)
    ensures Values(RenderAll(keys, vars), key) == if key in keys then [vars[key]] else []
  {
    if keys != [] {
      RenderAllValues(keys[1..], vars, key);
      RenderedAssignment(keys[0], vars[keys[0]]);
      assert Assigns(Render(keys[0], vars[keys[0]]), key) == (key == keys[0]);
      assert key in keys <==> key == keys[0] || key in keys[1..];
    }
  }

  lemma {:induction false} KeepRendered(keys: seq<string>, vars: map<string, string>, drop: set<string>)
    requires Renderable(keys, vars)
    requires forall k | k in keys :: k in drop
    ensures Keep(RenderAll(keys, vars), drop) == []
  {
    if keys != [] {
      KeepRendered(keys[1..], vars, drop);
      RenderedAssignment(keys[0], vars[keys[0]]);
    }
  }

  lemma ManagedRenderable(port: int, healthy: bool)
    ensures Renderable(MANAGED, TorVars(port, healthy))
  {
    TorVarsKeys(port, healthy);
    ManagedNames();
    ManagedDistinct();
    TorVarsPlain(port, healthy);
  }

  lemma TorVarsPlain(port: int, healthy: bool)
    ensures forall k | k in TorVars(port, healthy) :: NoSpace(TorVars(port, healthy)[k])
  {
    UrlPlain(port);
    FixedPlain();
  }

  lemma FixedPlain()
    ensures NoSpace("1") && NoSpace("0") && NoSpace(LOOPBACK_BYPASS)
  {
    HostsPlain(LOOPBACK_HOSTS);
    JoinAll(LOOPBACK_HOSTS, ',', c => !IsSpace(c));
  }

  lemma HostsPlain(hosts: seq<string>)
    requires hosts == ["localhost", "127.0.0.1", "::1"]
    ensures forall i | 0 <= i < |hosts| :: All(hosts[i], c => !IsSpace(c))
  {
  }

  lemma ManagedNames()
    ensures forall k | k in MANAGED :: IsName(k)
  {
    assert forall i | 0 <= i < |MANAGED| :: IsName(MANAGED[i]);
  }

  lemma ManagedDistinct()
    ensures forall i, j | 0 <= i < j < |MANAGED| :: MANAGED[i] != MANAGED[j]
  {
  }

  lemma UrlPlain(port: int)
    ensures NoSpace(SocksUrl(port))
  {
    var head, tail := "socks5://127.0.0.1:", Decimal(port);
    assert NoSpace(head);
    assert forall i | 0 <= i < |SocksUrl(port)| ::
        SocksUrl(port)[i] == if i < |head| then head[i] else tail[i - |head|];
  }

  // ---- what a write leaves in the file -------------------------------------------

  function Read(raw: string): seq<string> {
    SplitLines(ReadText(raw))
  }

  function Retained(raw: string, local: Question): seq<string> {
    Keep(Migrate(Read(raw), local), ManagedKeys())
  }

  lemma RetainedFacts(raw: string, local: Question)
    ensures ProperLines(Read(raw)) && ProperLines(Retained(raw, local))
    ensures NoneAssigns(Retained(raw, local), ManagedKeys())
  {
    ConcatSplit(ReadText(raw));
    MigrateFacts(Read(raw), local, "");
    KeepProper(Migrate(Read(raw), local), ManagedKeys());
    KeepNone(Migrate(Read(raw), local), ManagedKeys());
  }

  lemma ClosedAppend(a: seq<string>, b: seq<string>)
    requires Closed(a) && Closed(b)
    ensures Closed(a + b)
  {
    assert forall i | 0 <= i < |a + b| :: (a + b)[i] == if i < |a| then a[i] else b[i - |a|];
  }

  lemma ManagedLinesFacts(port: int, healthy: bool)
    ensures Closed(ManagedLines(port, healthy)) && |ManagedLines(port, healthy)| == 12
    ensures Keep(ManagedLines(port, healthy), ManagedKeys()) == []
  {
    ManagedRenderable(port, healthy);
    TorVarsKeys(port, healthy);
    RenderAllClosed(MANAGED, TorVars(port, healthy));
    KeepRendered(MANAGED, TorVars(port, healthy), ManagedKeys());
  }

  /** A rewritten file is the retained lines in their order, then the twelve managed ones. */
  lemma RewrittenLines(raw: string, port: int, healthy: bool, local: Question)
    ensures Read(Rewrite(raw, port, healthy, local)) == Finish(Retained(raw, local)) + ManagedLines(port, healthy)
  {
    var retained, managed := Retained(raw, local), ManagedLines(port, healthy);
    TorVarsKeys(port, healthy);
    RetainedFacts(raw, local);
    FinishClosed(retained);
    FinishText(retained);
    ManagedLinesFacts(port, healthy);
    ClosedAppend(Finish(retained), managed);
    ConcatAppend(Finish(retained), managed);
    ReadBack(Finish(retained) + managed);
  }

  /** After a write every managed key is assigned exactly once, with its new value; the names
      of a retired footprint are not assigned; every other key has exactly the values it had. */
  lemma WrittenValues(raw: string, port: int, healthy: bool, local: Question, key: string)
    ensures Values(Read(Rewrite(raw, port, healthy, local)), key)
         == if key in TorVars(port, healthy) then [TorVars(port, healthy)[key]]
            else if FileProxy(Read(raw), local).Proven? && key in PLATFORM_PROXIES then []
            else Values(Read(raw), key)
  {
    RewrittenLines(raw, port, healthy, local);
    ValuesAppend(Finish(Retained(raw, local)), ManagedLines(port, healthy), key);
    RetainedValues(raw, local, key);
    ManagedValues(port, healthy, key);
    TorVarsKeys(port, healthy);
  }

  lemma RetainedValues(raw: string, local: Question, key: string)
    ensures Values(Finish(Retained(raw, local)), key)
         == if key in ManagedKeys() || (FileProxy(Read(raw), local).Proven? && key in PLATFORM_PROXIES) then []
            else Values(Read(raw), key)
  {
    RetainedFacts(raw, local);
    ValuesFinish(Retained(raw, local), key);
    ValuesKeep(Migrate(Read(raw), local), ManagedKeys(), key);
    MigrateFacts(Read(raw), local, key);
  }

  lemma ManagedValues(port: int, healthy: bool, key: string)
    ensures Values(ManagedLines(port, healthy), key)
         == if key in TorVars(port, healthy) then [TorVars(port, healthy)[key]] else []
  {
    TorVarsKeys(port, healthy);
    ManagedRenderable(port, healthy);
    RenderAllValues(MANAGED, TorVars(port, healthy), key);
  }

  lemma PlatformUnmanaged(port: int, healthy: bool)
    ensures forall n | n in PLATFORM_PROXIES :: n !in TorVars(port, healthy)
    ensures "TOR_ENABLED" in TorVars(port, healthy)
    ensures TorVars(port, healthy)["TOR_ENABLED"] == if healthy then "1" else "0"
  {
    NamesDisjoint();
    assert PolicyEnvironment(SocksUrl(port))["TOR_ENABLED"] == "1";
  }

  lemma WrittenPlatform(raw: string, port: int, healthy: bool, local: Question)
    ensures forall n | n in PLATFORM_PROXIES ::
              Values(Read(Rewrite(raw, port, healthy, local)), n)
              == if FileProxy(Read(raw), local).Proven? then [] else Values(Read(raw), n)
  {
    PlatformUnmanaged(port, healthy);
    forall n | n in PLATFORM_PROXIES
      ensures Values(Read(Rewrite(raw, port, healthy, local)), n)
              == if FileProxy(Read(raw), local).Proven? then [] else Values(Read(raw), n)
    {
      WrittenValues(raw, port, healthy, local, n);
    }
  }

  /** A write leaves a footprint standing only if the file did not say `TOR_ENABLED`, and leaves
      malformed platform assignments as they are. */
  lemma WrittenFootprint(raw: string, port: int, healthy: bool, local: Question)
    ensures Footprint(Read(Rewrite(raw, port, healthy, local)), local)
       <==> Footprint(Read(raw), local) && !Enabled(Read(raw))
    ensures Malformed(Read(Rewrite(raw, port, healthy, local)), local) <==> Malformed(Read(raw), local)
    ensures Enabled(Read(Rewrite(raw, port, healthy, local))) <==> healthy
  {
    var out := Read(Rewrite(raw, port, healthy, local));
    PlatformUnmanaged(port, healthy);
    TruthyDigits();
    MigratesWhen(Read(raw), local);
    WrittenValues(raw, port, healthy, local, "TOR_ENABLED");
    WrittenPlatform(raw, port, healthy, local);
    if FileProxy(Read(raw), local).Proven? {
      assert |Values(out, PLATFORM_PROXIES[0])| == 0;
    } else {
      PlatformDepends(out, Read(raw), local);
    }
  }

  // ---- absorption and stabilisation ----------------------------------------------

  /** The one family of files on which the first write changes what the second one does: platform
      assignments that the first write turns on by setting `TOR_ENABLED=1`. A footprint is then
      retired by the second write, and malformed ones make it raise. */
  predicate Armed(raw: string, healthy: bool, local: Question) {
    !Platform(Read(raw), local).Absent? && !Enabled(Read(raw)) && healthy
  }

  lemma RetainedAfterWrite(raw: string, port: int, healthy: bool, local: Question)
    requires !Armed(raw, healthy, local) && !MigrateRaises(Read(raw), local)
    ensures Retained(Rewrite(raw, port, healthy, local), local) == Finish(Retained(raw, local))
    ensures !MigrateRaises(Read(Rewrite(raw, port, healthy, local)), local)
  {
    var out := Read(Rewrite(raw, port, healthy, local));
    var kept := Finish(Retained(raw, local));
    RewrittenLines(raw, port, healthy, local);
    WrittenFootprint(raw, port, healthy, local);
    MigratesWhen(Read(raw), local);
    MigratesWhen(out, local);
    assert Migrate(out, local) == out;
    KeepAppend(kept, ManagedLines(port, healthy), ManagedKeys());
    ManagedLinesFacts(port, healthy);
    RetainedFacts(raw, local);
    NoneFinish(Retained(raw, local), ManagedKeys());
    KeepNone(kept, ManagedKeys());
  }

  /** An armed file is written, and then what its platform assignments are takes effect. */
  lemma ArmedWrite(raw: string, port: int, healthy: bool, local: Question)
    requires Armed(raw, healthy, local)
    ensures FileProxy(Read(raw), local) == Absent && |Values(Read(raw), "TELEGRAM_PROXY")| == 1
    ensures var once := Rewrite(raw, port, healthy, local);
            if Malformed(Read(raw), local) then MigrateRaises(Read(once), local)
            else FileProxy(Read(once), local).Proven?
  {
    WrittenFootprint(raw, port, healthy, local);
    MigratesWhen(Read(Rewrite(raw, port, healthy, local)), local);
    MigratesWhen(Read(raw), local);
    assert PLATFORM_PROXIES[0] == "TELEGRAM_PROXY";
  }

  lemma {:induction false} RetireAppend(a: seq<string>, b: seq<string>)
    ensures RetireLines(a + b) == RetireLines(a) + RetireLines(b)
  {
    if a == [] {
      assert a + b == b;
    } else {
      assert (a + b)[1..] == a[1..] + b;
      RetireAppend(a[1..], b);
    }
  }

  lemma {:induction false} RetireRendered(keys: seq<string>, vars: map<string, string>)
    requires Renderable(keys, vars) && forall k | k in keys :: k !in PLATFORM_PROXIES
    ensures RetireLines(RenderAll(keys, vars)) == RenderAll(keys, vars)
  {
    if keys != [] {
      RetireRendered(keys[1..], vars);
      RenderedAssignment(keys[0], vars[keys[0]]);
    }
  }

  /** What a healthy write of an armed footprint leaves to retain does not depend on its port. */
  lemma RetainedAfterArming(raw: string, port: int, local: Question)
    requires Armed(raw, true, local) && Footprint(Read(raw), local)
    ensures Retained(Rewrite(raw, port, true, local), local)
            == Keep(RetireLines(Finish(Retained(raw, local))), ManagedKeys())
  {
    var kept, managed := Finish(Retained(raw, local)), ManagedLines(port, true);
    ArmedWrite(raw, port, true, local);
    RewrittenLines(raw, port, true, local);
    RetireAppend(kept, managed);
    ManagedRenderable(port, true);
    TorVarsKeys(port, true);
    PlatformUnmanaged(port, true);
    RetireRendered(MANAGED, TorVars(port, true));
    KeepAppend(RetireLines(kept), managed, ManagedKeys());
    ManagedLinesFacts(port, true);
  }

  lemma RewriteAbsorbs(raw: string, port1: int, healthy1: bool, port2: int, healthy2: bool, local: Question)
    requires !Armed(raw, healthy1, local) && !MigrateRaises(Read(raw), local)
    ensures Rewrite(Rewrite(raw, port1, healthy1, local), port2, healthy2, local)
            == Rewrite(raw, port2, healthy2, local)
  {
    TorVarsKeys(port2, healthy2);
    RetainedAfterWrite(raw, port1, healthy1, local);
    RetainedFacts(raw, local);
    var kept := Retained(raw, local);
    FinishClosed(kept);
    FinishText(kept);
    FinishText(Finish(kept));
  }

  lemma RetiringDiffers(raw: string, port1: int, healthy1: bool, port2: int, healthy2: bool, local: Question)
    requires Armed(raw, healthy1, local) && Footprint(Read(raw), local)
    ensures Rewrite(Rewrite(raw, port1, healthy1, local), port2, healthy2, local)
            != Rewrite(raw, port2, healthy2, local)
  {
    var once := Rewrite(raw, port1, healthy1, local);
    ArmedWrite(raw, port1, healthy1, local);
    PlatformUnmanaged(port2, healthy2);
    assert PLATFORM_PROXIES[0] == "TELEGRAM_PROXY";
    WrittenValues(once, port2, healthy2, local, PLATFORM_PROXIES[0]);
    WrittenValues(raw, port2, healthy2, local, PLATFORM_PROXIES[0]);
  }

  /** A later write absorbs an earlier one, in text and outcome and also where writes raise: for every
      file outside that family and for none in it. */
  lemma WriteAbsorbs(raw: string, port1: int, healthy1: bool, port2: int, healthy2: bool, local: Question)
    ensures Written(Written(raw, port1, healthy1, local).text, port2, healthy2, local)
            == Written(raw, port2, healthy2, local)
       <==> !Armed(raw, healthy1, local)
  {
    if Armed(raw, healthy1, local) {
      ArmedWrite(raw, port1, healthy1, local);
      if Footprint(Read(raw), local) {
        RetiringDiffers(raw, port1, healthy1, port2, healthy2, local);
      }
    } else if !MigrateRaises(Read(raw), local) {
      RetainedAfterWrite(raw, port1, healthy1, local);
      RewriteAbsorbs(raw, port1, healthy1, port2, healthy2, local);
    }
  }

  /** Two healthy writes always reach a fixed point, and one does unless it armed a footprint. */
  lemma WritesStabilise(raw: string, port: int, local: Question)
    ensures var once := Written(raw, port, true, local).text;
            var twice := Written(once, port, true, local).text;
            && Written(twice, port, true, local).text == twice
            && (twice == once <==> !(Footprint(Read(raw), local) && !Enabled(Read(raw))))
  {
    MigratesWhen(Read(raw), local);
    if !MigrateRaises(Read(raw), local) {
      WrittenFootprint(raw, port, true, local);
      var once := Rewrite(raw, port, true, local);
      MigratesWhen(Read(once), local);
      if !Malformed(Read(raw), local) {
        WriteAbsorbs(once, port, true, port, true, local);
        WriteAbsorbs(raw, port, true, port, true, local);
        RetiredWrites(raw, port, local);
      }
    }
  }

  lemma RetiredWrites(raw: string, port: int, local: Question)
    requires !Malformed(Read(raw), local)
    ensures var once := Rewrite(raw, port, true, local);
            !MigrateRaises(Read(once), local) && !MigrateRaises(Read(Rewrite(once, port, true, local)), local)
  {
    var once := Rewrite(raw, port, true, local);
    WrittenFootprint(raw, port, true, local);
    WrittenFootprint(once, port, true, local);
    MigratesWhen(Read(once), local);
    MigratesWhen(Read(Rewrite(once, port, true, local)), local);
  }

  // ---- removal -----------------------------------------------------------------

  lemma RemovedText(raw: string, local: Question)
    ensures Remove(raw, local) == Concat(Retained(raw, local))
    ensures Read(Remove(raw, local)) == Retained(raw, local)
  {
    RetainedFacts(raw, local);
    ReadBack(Retained(raw, local));
  }

  function Newline(text: string): string {
    if text == "" || text[|text| - 1] == '\n' then "" else "\n"
  }

  lemma FinishedText(ls: seq<string>)
    requires ProperLines(ls)
    ensures Concat(Finish(ls)) == Concat(ls) + Newline(Concat(ls))
  {
    FinishText(ls);
    if ls != [] {
      ConcatLast(ls);
    }
  }

  /** The outcome with its last line finished, if the operation changed the file at all. */
  function Finished(o: Outcome): Outcome {
    if o.raised then o else Outcome(o.text + Newline(o.text), false)
  }

  lemma RemoveAfterUnarmed(raw: string, port: int, healthy: bool, local: Question)
    requires !Armed(raw, healthy, local) && !MigrateRaises(Read(raw), local)
    ensures Removed(Rewrite(raw, port, healthy, local), local) == Finished(Removed(raw, local))
  {
    var kept := Retained(raw, local);
    RemovedText(raw, local);
    RemovedText(Rewrite(raw, port, healthy, local), local);
    RetainedFacts(raw, local);
    FinishedText(kept);
    RetainedAfterWrite(raw, port, healthy, local);
  }

  lemma RemoveAfterRetiring(raw: string, port: int, healthy: bool, local: Question)
    requires Armed(raw, healthy, local) && Footprint(Read(raw), local)
    ensures Remove(Rewrite(raw, port, healthy, local), local) != Remove(raw, local) + Newline(Remove(raw, local))
  {
    var name, kept := PLATFORM_PROXIES[0], Retained(raw, local);
    ArmedWrite(raw, port, healthy, local);
    RemovedText(raw, local);
    RemovedText(Rewrite(raw, port, healthy, local), local);
    FinishedRetained(raw, local);
    ArmedValues(raw, port, healthy, local);
    assert Values(Retained(Rewrite(raw, port, healthy, local), local), name) != Values(Finish(kept), name);
  }

  lemma FinishedRetained(raw: string, local: Question)
    ensures Concat(Finish(Retained(raw, local))) == Concat(Retained(raw, local)) + Newline(Concat(Retained(raw, local)))
    ensures Read(Concat(Finish(Retained(raw, local)))) == Finish(Retained(raw, local))
  {
    RetainedFacts(raw, local);
    FinishedText(Retained(raw, local));
    FinishClosed(Retained(raw, local));
    ReadBack(Finish(Retained(raw, local)));
  }

  lemma ArmedValues(raw: string, port: int, healthy: bool, local: Question)
    requires Armed(raw, healthy, local) && Footprint(Read(raw), local)
    ensures |Values(Finish(Retained(raw, local)), PLATFORM_PROXIES[0])| == 1
    ensures Values(Retained(Rewrite(raw, port, healthy, local), local), PLATFORM_PROXIES[0]) == []
  {
    var name, out := PLATFORM_PROXIES[0], Rewrite(raw, port, healthy, local);
    assert name in PLATFORM_PROXIES && name == "TELEGRAM_PROXY";
    ArmedWrite(raw, port, healthy, local);
    PlatformUnmanaged(9050, true);
    TorVarsKeys(9050, true);
    RetainedValues(raw, local, name);
    RetainedFacts(out, local);
    MigrateFacts(Read(out), local, name);
    ValuesKeep(Migrate(Read(out), local), ManagedKeys(), name);
  }

  /** Removal undoes a write, up to one final newline and also where they raise, exactly when the write
      armed nothing. */
  lemma RemoveUndoesWrite(raw: string, port: int, healthy: bool, local: Question)
    ensures Removed(Written(raw, port, healthy, local).text, local) == Finished(Removed(raw, local))
       <==> !Armed(raw, healthy, local)
  {
    if Armed(raw, healthy, local) {
      ArmedWrite(raw, port, healthy, local);
      if Footprint(Read(raw), local) {
        RemoveAfterRetiring(raw, port, healthy, local);
      }
    } else if !MigrateRaises(Read(raw), local) {
      RemoveAfterUnarmed(raw, port, healthy, local);
    }
  }

  /** An empty or newline-terminated file without managed keys comes back as it was read, exactly when
      the write armed nothing. */
  lemma RemoveRestores(raw: string, port: int, healthy: bool, local: Question)
    requires NoneAssigns(Read(raw), ManagedKeys())
    requires Newline(ReadText(raw)) == ""
    ensures Removed(Written(raw, port, healthy, local).text, local) == Outcome(ReadText(raw), false)
       <==> Platform(Read(raw), local).Absent? || !healthy
  {
    RemoveUndoesWrite(raw, port, healthy, local);
    NothingToRemove(raw, local);
  }

  lemma NothingToRemove(raw: string, local: Question)
    requires NoneAssigns(Read(raw), ManagedKeys()) && Newline(ReadText(raw)) == ""
    ensures !Enabled(Read(raw)) && Finished(Removed(raw, local)) == Outcome(ReadText(raw), false)
  {
    var ls := Read(raw);
    TruthyDigits();
    KeepNone(ls, ManagedKeys());
    ValuesKeep(ls, ManagedKeys(), "TOR_ENABLED");
    MigratesWhen(ls, local);
    ConcatSplit(ReadText(raw));
  }

  lemma RemoveIdempotent(raw: string, local: Question)
    ensures Removed(Removed(raw, local).text, local) == Removed(raw, local)
  {
    if !MigrateRaises(Read(raw), local) {
      var kept := Retained(raw, local);
      RemovedText(raw, local);
      RemovedText(Remove(raw, local), local);
      TruthyDigits();
      ValuesKeep(Migrate(Read(raw), local), ManagedKeys(), "TOR_ENABLED");
      MigratesWhen(kept, local);
      RetainedFacts(raw, local);
      KeepNone(kept, ManagedKeys());
    }
  }
}
