/** The watchdog and the `.env` file it writes, taken together: the file decides whether a restart gets
    past its first write. The file has no other writer here. */
module GatewayFile {
  import opened Text
  import opened Policy
  import opened Gateway
  import GatewayLaws
  import opened Manager
  import opened Watchdog
  import WatchdogLaws
  import Dotenv
  import DotenvLaws
  import opened DotenvFile
  import opened PrivateFile

  datatype Filed = Filed(watch: Watch, file: Node)

  /** One check, with what the file system does to the two writes a restart makes. Whether they complete
      is not scripted: it follows from the file. */
  datatype FiledCheck = FiledCheck(check: CheckScript, blocking: Fault, routing: Fault)

  /** The write of the blocked `.env`. */
  function Blocking(file: Node, s: FiledCheck, cfg: Config): (Node, bool) {
    WriteNode(file, 1, false, cfg.urls.local, s.blocking)
  }

  /** The write of the live `.env`, which follows it. */
  function Routing(file: Node, s: FiledCheck, cfg: Config): (Node, bool) {
    WriteNode(Blocking(file, s, cfg).0, cfg.port, true, cfg.urls.local, s.routing)
  }

  function Resolved(file: Node, s: FiledCheck, cfg: Config): CheckScript {
    var restart := s.check.restart;
    s.check.(restart := restart.(blockWrites := Blocking(file, s, cfg).1, liveWrites := Routing(file, s, cfg).1))
  }

  /** One check of the watchdog and the writes it makes. */
  function Checked(f: Filed, s: FiledCheck, cfg: Config): (r: Filed)
    requires f.watch.count >= 0
    ensures r.watch.count >= 0
  {
    var next := After(f.watch, Resolved(f.file, s, cfg), cfg);
    var made := next.writes - f.watch.writes;
    Filed(next,
          if made == 0 then f.file else if made == 1 then Blocking(f.file, s, cfg).0 else Routing(f.file, s, cfg).0)
  }

  function RunFiled(f: Filed, checks: seq<FiledCheck>, cfg: Config): (r: Filed)
    requires f.watch.count >= 0
    ensures r.watch.count >= 0
    decreases |checks|
  {
    if checks == [] then f else RunFiled(Checked(f, checks[0], cfg), checks[1..], cfg)
  }

  /** `start_tor_for_gateway` with the write of the live `.env`, if asked for. */
  function StartFiled(process: State, file: Node, start: StartScript, fault: Fault, cfg: Config): Option<Filed> {
    var (end, written) := WriteNode(file, cfg.port, true, cfg.urls.local, fault);
    var w := StartGateway(process, start.(envWrites := written), cfg).1;
    if w.None? then None else Some(Filed(w.value, if start.writesEnv then end else file))
  }

  // ---- one restart and one check of the watchdog --------------------------------------------------

  predicate AllAt(env: Environment, url: string) {
    WatchdogLaws.AllAt(env, url)
  }

  /** One write leaves the variables dead. A second follows only where the first completed, and leaves
      them live. */
  predicate EndsAt(before: Watch, next: Watch, blockWrites: bool, cfg: Config) {
    || (next.writes == before.writes + 1 && AllAt(next.process.env, DEAD_URL))
    || (next.writes == before.writes + 2 && blockWrites && AllAt(next.process.env, SocksUrl(cfg.port)))
  }

  lemma AttemptEnds(w: Watch, script: RestartScript, cfg: Config)
    requires AllAt(w.process.env, DEAD_URL)
    ensures var next := Attempt(w, script, cfg);
            || (next.writes == w.writes && AllAt(next.process.env, DEAD_URL))
            || (next.writes == w.writes + 1 && AllAt(next.process.env, SocksUrl(cfg.port)))
  {
    WatchdogLaws.InjectedAllAt(w.process, cfg.port, None, cfg.urls);
    WatchdogLaws.RetireAllAt(w.process.env, cfg.urls, DEAD_URL);
  }

  lemma RestartEnds(w: Watch, script: RestartScript, cfg: Config)
    requires w.count >= 0 && !RetireRaises(w.process.env, cfg.urls)
    ensures EndsAt(w, Restart(w, script, cfg).0, script.blockWrites, cfg)
  {
    WatchdogLaws.BlockedAllAt(w.process, cfg.urls);
    var blocked := w.(process := Block(w.process, cfg.urls), writes := w.writes + 1);
    var delay := Delay(w.count, cfg);
    var waiting := blocked.(count := w.count + 1, waits := w.waits + [delay], tor := Tor(Stopped, false));
    AttemptEnds(waiting, script, cfg);
    assert BackOff(blocked, script, cfg).0 == if delay < 0.0 then waiting else Attempt(waiting, script, cfg);
  }

  /** A check that makes no write changes no variable, and one whose block would raise makes none. */
  lemma CheckEnds(w: Watch, script: CheckScript, cfg: Config)
    requires w.count >= 0
    ensures var next := Check(w, script, cfg).0;
            || (next.writes == w.writes && next.process == w.process)
            || (!RetireRaises(w.process.env, cfg.urls) && EndsAt(w, next, script.restart.blockWrites, cfg))
  {
    var status := StatusOf(w.tor, script.status, true);
    if status.Some? {
      var seen := w.(last := status.value, measured := script.status);
      var from := if status.value.Good() then seen.(count := 0, waits := []) else seen;
      if !RetireRaises(w.process.env, cfg.urls) {
        RestartEnds(from, script.restart, cfg);
      }
    }
  }

  /** What a start of Tor needs, apart from the status that calls for it. */
  predicate Startable(w: Watch, blockWrites: bool, cfg: Config) {
    !RetireRaises(w.process.env, cfg.urls) && blockWrites && cfg.maxRestarts > 0 && cfg.backoff >= 0.0
  }

  lemma RestartStarts(w: Watch, script: RestartScript, cfg: Config)
    requires w.count >= 0
    ensures Restart(w, script, cfg).0.starts
         == if Startable(w, script.blockWrites, cfg) && w.count < cfg.maxRestarts then w.starts + 1 else w.starts
  {
    WatchdogLaws.DelaySign(w.count, cfg);
  }

  lemma CheckStarts(w: Watch, script: CheckScript, cfg: Config)
    requires w.count >= 0
    ensures w.starts <= Check(w, script, cfg).0.starts
    ensures Check(w, script, cfg).0.starts > w.starts ==> Startable(w, script.restart.blockWrites, cfg)
  {
    var status := StatusOf(w.tor, script.status, true);
    if status.Some? {
      var seen := w.(last := status.value, measured := script.status);
      RestartStarts(if status.value.Good() then seen.(count := 0, waits := []) else seen, script.restart, cfg);
    }
  }

  // ---- one write of the file ---------------------------------------------------------------------

  function Lines(file: Node): seq<string> {
    DotenvLaws.Read(Contents(file))
  }

  /** A write of the file can complete. */
  predicate Writable(file: Node, cfg: Config) {
    !file.Symlink? && !Dotenv.MigrateRaises(Lines(file), cfg.urls.local)
  }

  /** The file assigns each of the eight variables once, to this endpoint. */
  predicate Names(file: Node, url: string) {
    file.Regular? && forall n | n in GENERIC_PROXIES :: Dotenv.Values(Lines(file), n) == [url]
  }

  lemma WriteEnds(file: Node, port: int, healthy: bool, fault: Fault, cfg: Config)
    ensures WriteNode(file, port, healthy, cfg.urls.local, fault)
         == if !Writable(file, cfg) || BeforeReplace(fault) then (file, false)
            else (Regular(Dotenv.Rewrite(Contents(file), port, healthy, cfg.urls.local)), fault.Nowhere?)
  {
  }

  lemma WriteNames(file: Node, port: int, healthy: bool, fault: Fault, cfg: Config)
    ensures var (next, ok) := WriteNode(file, port, healthy, cfg.urls.local, fault);
            && (ok <==> Writable(file, cfg) && fault.Nowhere?)
            && (ok ==> Names(next, SocksUrl(port)))
            && (next == file || Names(next, SocksUrl(port)))
  {
    WriteEnds(file, port, healthy, fault, cfg);
    RewriteNames(Contents(file), port, healthy, cfg);
  }

  lemma RewriteNames(raw: string, port: int, healthy: bool, cfg: Config)
    ensures Names(Regular(Dotenv.Rewrite(raw, port, healthy, cfg.urls.local)), SocksUrl(port))
  {
    forall n | n in GENERIC_PROXIES
      ensures Dotenv.Values(DotenvLaws.Read(Dotenv.Rewrite(raw, port, healthy, cfg.urls.local)), n) == [SocksUrl(port)]
    {
      DotenvLaws.WrittenValues(raw, port, healthy, cfg.urls.local, n);
      ManagedValue(port, healthy, n);
    }
  }

  lemma ManagedValue(port: int, healthy: bool, n: string)
    requires n in GENERIC_PROXIES
    ensures n in Dotenv.TorVars(port, healthy) && Dotenv.TorVars(port, healthy)[n] == SocksUrl(port)
  {
    NamesDisjoint();
  }

  /** Completed writes keep malformed platform assignments, and one that raises is raised by those alone. */
  lemma WriteForm(file: Node, port: int, healthy: bool, cfg: Config)
    requires Writable(file, cfg)
    ensures var next := WriteNode(file, port, healthy, cfg.urls.local, Nowhere).0;
            && (Dotenv.Malformed(Lines(next), cfg.urls.local) <==> Dotenv.Malformed(Lines(file), cfg.urls.local))
            && (Writable(next, cfg) <==> !(healthy && Dotenv.Malformed(Lines(file), cfg.urls.local)))
  {
    var next := WriteNode(file, port, healthy, cfg.urls.local, Nowhere).0;
    WriteEnds(file, port, healthy, Nowhere, cfg);
    DotenvLaws.WrittenFootprint(Contents(file), port, healthy, cfg.urls.local);
    Dotenv.MigratesWhen(Lines(next), cfg.urls.local);
  }

  // ---- when Tor can be restarted -----------------------------------------------------------------

  /** Some condition a restart needs fails, and will always fail. */
  predicate Stuck(f: Filed, cfg: Config) {
    !Writable(f.file, cfg) || RetireRaises(f.watch.process.env, cfg.urls) || cfg.maxRestarts <= 0 || cfg.backoff < 0.0
  }

  lemma CheckedStuck(f: Filed, s: FiledCheck, cfg: Config)
    requires f.watch.count >= 0 && Stuck(f, cfg)
    ensures Stuck(Checked(f, s, cfg), cfg) && Checked(f, s, cfg).watch.starts == f.watch.starts
    ensures !Writable(f.file, cfg) ==> Checked(f, s, cfg).file == f.file
  {
    var script := Resolved(f.file, s, cfg);
    CheckStarts(f.watch, script, cfg);
    CheckEnds(f.watch, script, cfg);
    WriteNames(f.file, 1, false, s.blocking, cfg);
    if !Writable(f.file, cfg) {
      WriteNames(f.file, cfg.port, true, s.routing, cfg);
    }
  }

  lemma {:induction false} RunStuck(f: Filed, checks: seq<FiledCheck>, cfg: Config)
    requires f.watch.count >= 0 && Stuck(f, cfg)
    ensures RunFiled(f, checks, cfg).watch.starts == f.watch.starts
    ensures !Writable(f.file, cfg) ==> RunFiled(f, checks, cfg).file == f.file
    decreases |checks|
  {
    if checks != [] {
      CheckedStuck(f, checks[0], cfg);
      RunStuck(Checked(f, checks[0], cfg), checks[1..], cfg);
    }
  }

  const UNHEALTHY := FiledCheck(WatchdogLaws.UNHEALTHY, Nowhere, Nowhere)

  lemma UnhealthyRestarts(w: Watch, script: CheckScript, cfg: Config)
    requires w.count >= 0 && script.status == Probe(false, false, false, None, false)
    ensures exists last :: Check(w, script, cfg).0
                        == Restart(w.(last := last, measured := script.status), script.restart, cfg).0
  {
    var last := StatusOf(w.tor, script.status, true).value;
    assert Check(w, script, cfg).0 == Restart(w.(last := last, measured := script.status), script.restart, cfg).0;
  }

  lemma UnhealthyStarts(f: Filed, cfg: Config)
    requires f.watch.count == 0 && !Stuck(f, cfg)
    ensures RunFiled(f, [UNHEALTHY], cfg).watch.starts == f.watch.starts + 1
  {
    var script := Resolved(f.file, UNHEALTHY, cfg);
    UnhealthyRestarts(f.watch, script, cfg);
    var last :| Check(f.watch, script, cfg).0
             == Restart(f.watch.(last := last, measured := script.status), script.restart, cfg).0;
    WriteNames(f.file, 1, false, Nowhere, cfg);
    RestartStarts(f.watch.(last := last, measured := script.status), script.restart, cfg);
    RunOne(f, UNHEALTHY, cfg);
  }

  lemma RunOne(f: Filed, s: FiledCheck, cfg: Config)
    requires f.watch.count >= 0
    ensures RunFiled(f, [s], cfg) == Checked(f, s, cfg)
  {
    assert [s][1..] == [];
  }

  /** What a verified start leaves, in terms of what it met. */
  lemma StartedFiled(process: State, file: Node, start: StartScript, fault: Fault, f: Filed, cfg: Config)
    requires StartFiled(process, file, start, fault, cfg) == Some(f)
    ensures 1 <= cfg.port && f.watch.count == 0 && f.watch.starts == 1 && AllAt(f.watch.process.env, SocksUrl(cfg.port))
    ensures RetireRaises(f.watch.process.env, cfg.urls) <==> GatewayLaws.Malformed(process.env, cfg.urls)
    ensures !start.writesEnv ==> f.file == file
    ensures start.writesEnv ==>
              && Names(f.file, SocksUrl(cfg.port)) && Writable(file, cfg)
              && (Writable(f.file, cfg) <==> !Dotenv.Malformed(Lines(file), cfg.urls.local))
              && (Dotenv.Malformed(Lines(f.file), cfg.urls.local) <==> Dotenv.Malformed(Lines(file), cfg.urls.local))
  {
    var (end, written) := WriteNode(file, cfg.port, true, cfg.urls.local, fault);
    WatchdogLaws.StartedLive(process, start.(envWrites := written), f.watch, cfg);
    WriteNames(file, cfg.port, true, fault, cfg);
    if start.writesEnv {
      WriteForm(file, cfg.port, true, cfg);
    }
  }

  lemma RestartsFrom(f: Filed, cfg: Config)
    requires f.watch.count == 0
    ensures (exists checks :: RunFiled(f, checks, cfg).watch.starts > f.watch.starts) <==> !Stuck(f, cfg)
  {
    if Stuck(f, cfg) {
      forall checks
        ensures RunFiled(f, checks, cfg).watch.starts == f.watch.starts
      {
        RunStuck(f, checks, cfg);
      }
    } else {
      UnhealthyStarts(f, cfg);
    }
  }

  /** After a verified start Tor can be started again if and only if the limit and the backoff allow it,
      the platform variables were not malformed, and the file lets itself be written: it is no link, and
      its platform assignments are not malformed, or without a write at the start not yet turned on. */
  lemma RestartsExactly(process: State, file: Node, start: StartScript, fault: Fault, f: Filed, cfg: Config)
    requires StartFiled(process, file, start, fault, cfg) == Some(f) && f.watch.count >= 0
    ensures (exists checks :: RunFiled(f, checks, cfg).watch.starts > 1)
       <==> && cfg.maxRestarts > 0 && cfg.backoff >= 0.0 && !GatewayLaws.Malformed(process.env, cfg.urls)
            && Writable(file, cfg) && (start.writesEnv ==> !Dotenv.Malformed(Lines(file), cfg.urls.local))
  {
    StartedFiled(process, file, start, fault, f, cfg);
    RestartsFrom(f, cfg);
  }

  /** If the start writes the file over malformed platform assignments, that is the last write: the file
      names the live endpoint and Tor is never started again, whatever the checks find. */
  lemma ArmedFileStays(process: State, file: Node, start: StartScript, fault: Fault, f: Filed,
                       checks: seq<FiledCheck>, cfg: Config)
    requires StartFiled(process, file, start, fault, cfg) == Some(f) && f.watch.count >= 0
    requires start.writesEnv && Dotenv.Malformed(Lines(file), cfg.urls.local)
    ensures var end := RunFiled(f, checks, cfg);
            end.file == f.file && Names(end.file, SocksUrl(cfg.port)) && end.watch.starts == 1
  {
    StartedFiled(process, file, start, fault, f, cfg);
    RunStuck(f, checks, cfg);
  }

  // ---- what the file names -----------------------------------------------------------------------

  predicate EitherEnd(file: Node, cfg: Config) {
    Names(file, SocksUrl(cfg.port)) || Names(file, DEAD_URL)
  }

  lemma CheckedEither(f: Filed, s: FiledCheck, cfg: Config)
    requires f.watch.count >= 0 && EitherEnd(f.file, cfg)
    ensures EitherEnd(Checked(f, s, cfg).file, cfg)
  {
    WatchdogLaws.DeadUrl();
    WriteNames(f.file, 1, false, s.blocking, cfg);
    WriteNames(Blocking(f.file, s, cfg).0, cfg.port, true, s.routing, cfg);
  }

  lemma {:induction false} RunEither(f: Filed, checks: seq<FiledCheck>, cfg: Config)
    requires f.watch.count >= 0 && EitherEnd(f.file, cfg)
    ensures EitherEnd(RunFiled(f, checks, cfg).file, cfg)
    decreases |checks|
  {
    if checks != [] {
      CheckedEither(f, checks[0], cfg);
      RunEither(Checked(f, checks[0], cfg), checks[1..], cfg);
    }
  }

  /** After a start that wrote the file, it names the live endpoint or the dead one, eight times the same,
      after any checks and wherever writes fail. */
  lemma FileNamesAnEnd(process: State, file: Node, start: StartScript, fault: Fault, f: Filed,
                       checks: seq<FiledCheck>, cfg: Config)
    requires StartFiled(process, file, start, fault, cfg) == Some(f) && f.watch.count >= 0 && start.writesEnv
    ensures EitherEnd(RunFiled(f, checks, cfg).file, cfg)
  {
    StartedFiled(process, file, start, fault, f, cfg);
    RunEither(f, checks, cfg);
  }

  /** The file names what the process is routed to. */
  predicate Agrees(f: Filed, cfg: Config) {
    || (AllAt(f.watch.process.env, DEAD_URL) && Names(f.file, DEAD_URL))
    || (AllAt(f.watch.process.env, SocksUrl(cfg.port)) && Names(f.file, SocksUrl(cfg.port)))
  }

  /** The system lets every write of the checks complete. */
  predicate Faultless(checks: seq<FiledCheck>) {
    forall i | 0 <= i < |checks| :: checks[i].blocking.Nowhere? && checks[i].routing.Nowhere?
  }

  /** A file and a process that will agree after any faultless check. */
  predicate InStep(f: Filed, cfg: Config) {
    Agrees(f, cfg)
    && (RetireRaises(f.watch.process.env, cfg.urls)
        || (Writable(f.file, cfg) && !Dotenv.Malformed(Lines(f.file), cfg.urls.local)))
  }

  lemma CheckedInStep(f: Filed, s: FiledCheck, cfg: Config)
    requires f.watch.count >= 0 && InStep(f, cfg) && s.blocking.Nowhere? && s.routing.Nowhere?
    ensures InStep(Checked(f, s, cfg), cfg)
  {
    CheckEnds(f.watch, Resolved(f.file, s, cfg), cfg);
    if !RetireRaises(f.watch.process.env, cfg.urls) {
      var blocked := Blocking(f.file, s, cfg).0;
      WatchdogLaws.DeadUrl();
      WriteNames(f.file, 1, false, Nowhere, cfg);
      WriteForm(f.file, 1, false, cfg);
      WriteNames(blocked, cfg.port, true, Nowhere, cfg);
      WriteForm(blocked, cfg.port, true, cfg);
    }
  }

  lemma {:induction false} RunInStep(f: Filed, checks: seq<FiledCheck>, cfg: Config)
    requires f.watch.count >= 0 && InStep(f, cfg) && Faultless(checks)
    ensures Agrees(RunFiled(f, checks, cfg), cfg)
    decreases |checks|
  {
    if checks != [] {
      CheckedInStep(f, checks[0], cfg);
      assert forall i | 0 <= i < |checks| - 1 :: checks[1..][i] == checks[i + 1];
      RunInStep(Checked(f, checks[0], cfg), checks[1..], cfg);
    }
  }

  /** With port 1 there is but one endpoint. */
  lemma {:induction false} OneEndpoint(f: Filed, checks: seq<FiledCheck>, cfg: Config)
    requires f.watch.count >= 0 && cfg.port == 1 && Names(f.file, DEAD_URL) && AllAt(f.watch.process.env, DEAD_URL)
    ensures Agrees(RunFiled(f, checks, cfg), cfg)
    decreases |checks|
  {
    if checks != [] {
      WatchdogLaws.DeadUrl();
      CheckEnds(f.watch, Resolved(f.file, checks[0], cfg), cfg);
      CheckedEither(f, checks[0], cfg);
      OneEndpoint(Checked(f, checks[0], cfg), checks[1..], cfg);
    }
  }

  /** The first unhealthy check over a file that does not let itself be written blocks the process alone. */
  lemma UnhealthyParts(f: Filed, cfg: Config)
    requires f.watch.count == 0 && 1 < cfg.port && !Writable(f.file, cfg) && Names(f.file, SocksUrl(cfg.port))
    requires !RetireRaises(f.watch.process.env, cfg.urls)
    ensures !Agrees(RunFiled(f, [UNHEALTHY], cfg), cfg)
  {
    var script := Resolved(f.file, UNHEALTHY, cfg);
    UnhealthyRestarts(f.watch, script, cfg);
    var last :| Check(f.watch, script, cfg).0
             == Restart(f.watch.(last := last, measured := script.status), script.restart, cfg).0;
    WriteNames(f.file, 1, false, Nowhere, cfg);
    RestartEnds(f.watch.(last := last, measured := script.status), script.restart, cfg);
    RunOne(f, UNHEALTHY, cfg);
    CheckedStuck(f, UNHEALTHY, cfg);
    WatchdogLaws.DeadUrl();
    WatchdogLaws.UrlInjective(cfg.port, 1);
    assert GENERIC_PROXIES[0] in GENERIC_PROXIES;
  }

  /** After a start that wrote the file, process and file name the same endpoint after any checks whose
      writes meet no fault, if and only if the file's platform assignments were not malformed: else the
      first unhealthy check blocks the process and leaves the file routed. It makes no difference if the
      platform variables were malformed, so that nothing is ever blocked, or if the port is 1. */
  lemma AgreesExactly(process: State, file: Node, start: StartScript, fault: Fault, f: Filed, cfg: Config)
    requires StartFiled(process, file, start, fault, cfg) == Some(f) && f.watch.count >= 0 && start.writesEnv
    ensures (forall checks | Faultless(checks) :: Agrees(RunFiled(f, checks, cfg), cfg))
       <==> || cfg.port == 1 || GatewayLaws.Malformed(process.env, cfg.urls)
            || !Dotenv.Malformed(Lines(file), cfg.urls.local)
  {
    StartedFiled(process, file, start, fault, f, cfg);
    AgreesFrom(f, cfg);
  }

  lemma AgreesFrom(f: Filed, cfg: Config)
    requires f.watch.count == 0 && 1 <= cfg.port
    requires Names(f.file, SocksUrl(cfg.port)) && AllAt(f.watch.process.env, SocksUrl(cfg.port))
    requires Writable(f.file, cfg) <==> !Dotenv.Malformed(Lines(f.file), cfg.urls.local)
    ensures (forall checks | Faultless(checks) :: Agrees(RunFiled(f, checks, cfg), cfg))
       <==> cfg.port == 1 || RetireRaises(f.watch.process.env, cfg.urls) || Writable(f.file, cfg)
  {
    if cfg.port == 1 || RetireRaises(f.watch.process.env, cfg.urls) || Writable(f.file, cfg) {
      forall checks | Faultless(checks)
        ensures Agrees(RunFiled(f, checks, cfg), cfg)
      {
        AlwaysAgrees(f, checks, cfg);
      }
    } else {
      SometimesParts(f, cfg);
    }
  }

  lemma SometimesParts(f: Filed, cfg: Config)
    requires f.watch.count == 0 && 1 < cfg.port && !Writable(f.file, cfg) && Names(f.file, SocksUrl(cfg.port))
    requires !RetireRaises(f.watch.process.env, cfg.urls)
    ensures exists checks :: Faultless(checks) && !Agrees(RunFiled(f, checks, cfg), cfg)
  {
    UnhealthyParts(f, cfg);
    assert Faultless([UNHEALTHY]);
  }

  lemma AlwaysAgrees(f: Filed, checks: seq<FiledCheck>, cfg: Config)
    requires f.watch.count == 0 && Faultless(checks)
    requires Names(f.file, SocksUrl(cfg.port)) && AllAt(f.watch.process.env, SocksUrl(cfg.port))
    requires Writable(f.file, cfg) <==> !Dotenv.Malformed(Lines(f.file), cfg.urls.local)
    requires cfg.port == 1 || RetireRaises(f.watch.process.env, cfg.urls) || Writable(f.file, cfg)
    ensures Agrees(RunFiled(f, checks, cfg), cfg)
  {
    if cfg.port == 1 {
      WatchdogLaws.DeadUrl();
      OneEndpoint(f, checks, cfg);
    } else {
      RunInStep(f, checks, cfg);
    }
  }
}
