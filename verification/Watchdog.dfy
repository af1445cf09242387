/** The self-healing watchdog and the start of the gateway, with every outcome of the
    outside world taken from a script. */
module Watchdog {
  import opened Text
  import opened Gateway
  import opened Manager

  /** What a restart meets, in order: the write of the blocked `.env`, the daemon's stop and
      start, the verification, and the write of the live `.env`. */
  datatype RestartScript = RestartScript(
    blockWrites: bool, stopRaises: bool, start: StartOutcome, verify: Probe, liveWrites: bool, stamp: real)

  datatype CheckScript = CheckScript(status: Probe, now: real, newnym: bool, restart: RestartScript)

  datatype Config = Config(port: int, maxRestarts: int, backoff: real, rotateInterval: real, urls: UrlParser)

  /** `last` is the last status the watchdog got and `measured` the probe behind it, `waits` the delays
      since the count was last reset; `starts` counts the calls of the manager's `start`, and `writes`
      those of `write_gateway_env_file`. */
  datatype Watch = Watch(
    process: State, tor: Tor, count: int, lastRotation: real, lastRestart: real,
    last: Status, measured: Probe, waits: seq<real>, starts: nat, writes: nat)

  function Pow2(n: nat): nat {
    if n == 0 then 1 else 2 * Pow2(n - 1)
  }

  /** The wait before the restart that follows `count` failed ones. */
  function Delay(count: nat, cfg: Config): real {
    cfg.backoff * (Pow2(count) as real)
  }

  /** A verified restart resets the count, injects and writes the live `.env`. */
  function Recovered(w: Watch, script: RestartScript, cfg: Config): Watch {
    var (process, injected) := Inject(w.process, cfg.port, None, cfg.urls);
    var w := w.(count := 0, waits := [], process := process);
    if injected.Raised? then w
    else
      var w := w.(writes := w.writes + 1);
      if script.liveWrites then w.(lastRestart := script.stamp) else w
  }

  /** The `try` block of `_restart_tor`: start, verify, and only then inject again. Nothing it
      raises leaves it. */
  function Attempt(w: Watch, script: RestartScript, cfg: Config): Watch {
    var w := w.(tor := Start(w.tor, script.start), starts := w.starts + 1);
    var status := StatusOf(w.tor, script.verify, true);
    if status.None? then w
    else
      var w := w.(last := status.value, measured := script.verify);
      if status.value.Good() then Recovered(w, script, cfg) else w
  }

  /** The part of `_restart_tor` below its limit: count, stop, wait, try. */
  function BackOff(w: Watch, script: RestartScript, cfg: Config): (Watch, bool)
    requires w.count >= 0
  {
    var delay := Delay(w.count, cfg);
    var w := w.(count := w.count + 1, waits := w.waits + [delay], tor := Tor(Stopped, false));
    if delay < 0.0 then (w, true) else (Attempt(w, script, cfg), false)
  }

  /** `_restart_tor`; the flag says that an exception leaves it, as when the block raises. */
  function Restart(w: Watch, script: RestartScript, cfg: Config): (Watch, bool)
    requires w.count >= 0
  {
    if RetireRaises(w.process.env, cfg.urls) then (w, true)
    else
      var w := w.(process := Block(w.process, cfg.urls), writes := w.writes + 1);
      if !script.blockWrites then (w, true)
      else if w.count >= cfg.maxRestarts then (w, false)
      else BackOff(w, script, cfg)
  }

  /** `_check_and_heal`; the flag says that an exception leaves it, to be logged by the loop. */
  function Check(w: Watch, script: CheckScript, cfg: Config): (Watch, bool)
    requires w.count >= 0
  {
    var status := StatusOf(w.tor, script.status, true);
    if status.None? then (w, true)
    else
      var w := w.(last := status.value, measured := script.status);
      if status.value.Good() then
        var w := w.(count := 0, waits := []);
        if script.now - w.lastRotation > cfg.rotateInterval then
          var (w, raised) := if w.tor.daemon && script.newnym then (w, false) else Restart(w, script.restart, cfg);
          (if raised then w else w.(lastRotation := script.now), raised)
        else (w, false)
      else if status.value.state == Error || !status.value.Healthy() || status.value.state == Stopped then
        Restart(w, script.restart, cfg)
      else (w, false)
  }

  /** What `start_tor_for_gateway` meets before the watchdog exists. */
  datatype StartScript = StartScript(
    installed: bool, compatible: bool, bridgesLoad: bool, start: StartOutcome, verify: Probe,
    stopRaises: bool, writesEnv: bool, envWrites: bool, now: real)

  /** `start_tor_for_gateway`: the environment it leaves, and the watchdog unless it raises. */
  function StartGateway(process: State, script: StartScript, cfg: Config): (State, Option<Watch>) {
    var raises := RetireRaises(process.env, cfg.urls);
    var process := process.(env := Retire(process.env, cfg.urls));
    var policy := EstablishPolicy(cfg.port, None, process.env, cfg.urls);
    if raises || policy.Raised? || (policy.value.strict && !script.installed) || !script.compatible
        || !script.bridgesLoad then
      (process, None)
    else
      var tor := Start(Tor(Stopped, false), script.start);
      var status := StatusOf(tor, script.verify, true);
      if tor.state != Running || status.None? then (process, None)
      else if !status.value.Healthy() then (Block(process, cfg.urls), None)
      else
        var (process, injected) := Inject(process, cfg.port, Some(policy.value), cfg.urls);
        if injected.Raised? || (script.writesEnv && !script.envWrites) then (process, None)
        else (process, Some(Watch(process, tor, 0, script.now, 0.0, status.value, script.verify, [], 1,
                                   if script.writesEnv then 1 else 0)))
  }

  /** The state after one check, completed or aborted. */
  function After(w: Watch, script: CheckScript, cfg: Config): (next: Watch)
    requires w.count >= 0
    ensures next.count >= 0
  {
    Check(w, script, cfg).0
  }

  /** Any number of checks. */
  function RunChecks(w: Watch, scripts: seq<CheckScript>, cfg: Config): (r: Watch)
    requires w.count >= 0
    ensures r.count >= 0
    decreases |scripts|
  {
    if scripts == [] then w else RunChecks(After(w, scripts[0], cfg), scripts[1..], cfg)
  }

  // ---- the object -------------------------------------------------------------------

  class TorWatchdog {
    const manager: TorManager
    const process: Process
    const cfg: Config
    var restartCount: int
    var lastRotation: real
    var lastRestart: real
    ghost var last: Status
    ghost var measured: Probe
    ghost var waits: seq<real>
    ghost var starts: nat
    ghost var writes: nat

    constructor (manager: TorManager, process: Process, cfg: Config, verified: Status, ghost probe: Probe,
                 now: real, ghost written: nat)
      requires process.urls == cfg.urls
      ensures Valid() && this.manager == manager && this.process == process && this.cfg == cfg
      ensures Now() == Watch(process.Now(), manager.Now(), 0, now, 0.0, verified, probe, [], 1, written)
    {
      this.manager, this.process, this.cfg := manager, process, cfg;
      restartCount, lastRotation, lastRestart := 0, now, 0.0;
      last, measured, waits, starts, writes := verified, probe, [], 1, written;
    }

    ghost predicate Valid()
      reads this
    {
      restartCount >= 0 && process.urls == cfg.urls
    }

    ghost function Now(): Watch
      reads this, manager, process
    {
      Watch(process.Now(), manager.Now(), restartCount, lastRotation, lastRestart, last, measured, waits, starts,
            writes)
    }

    method TryRestart(script: RestartScript)
      requires Valid()
      modifies this, manager, process
      ensures Valid() && Now() == Attempt(old(Now()), script, cfg)
    {
      ghost var before := Now();
      starts := starts + 1;
      var started := manager.StartDaemon(script.start);
      ghost var running := before.(tor := Start(before.tor, script.start), starts := before.starts + 1);
      assert Now() == running;
      var status := manager.GetStatus(script.verify, true);
      if status.None? {
        return;
      }
      last, measured := status.value, script.verify;
      assert Now() == running.(last := status.value, measured := script.verify);
      if status.value.Good() {
        RouteAgain(script);
      }
    }

    /** The end of a restart that has been verified. */
    method RouteAgain(script: RestartScript)
      requires Valid()
      modifies this, process
      ensures Valid() && Now() == Recovered(old(Now()), script, cfg)
    {
      ghost var before := Now();
      restartCount, waits := 0, [];
      var injected := process.InjectEnvironment(cfg.port, None);
      assert Now() == before.(count := 0, waits := [], process := Inject(before.process, cfg.port, None, cfg.urls).0);
      ghost var after := Now();
      if injected.Ok? {
        writes := writes + 1;
        assert Now() == after.(writes := after.writes + 1);
        if script.liveWrites {
          lastRestart := script.stamp;
        }
      }
    }

    method WaitAndTry(script: RestartScript) returns (raised: bool)
      requires Valid()
      modifies this, manager, process
      ensures Valid() && Now() == BackOff(old(Now()), script, cfg).0
      ensures raised == BackOff(old(Now()), script, cfg).1
    {
      var delay := Delay(restartCount, cfg);
      restartCount := restartCount + 1;
      waits := waits + [delay];
      var ignored := manager.StopDaemon(script.stopRaises);
      if delay < 0.0 {
        return true;
      }
      TryRestart(script);
      raised := false;
    }

    method RestartTor(script: RestartScript) returns (raised: bool)
      requires Valid()
      modifies this, manager, process
      ensures Valid() && Now() == Restart(old(Now()), script, cfg).0
      ensures raised == Restart(old(Now()), script, cfg).1
    {
      ghost var before := Now();
      raised := process.BlockEnvironment();
      assert Now() == before.(process := Block(before.process, cfg.urls));
      if raised {
        return;
      }
      writes := writes + 1;
      ghost var blocked := before.(process := Block(before.process, cfg.urls), writes := before.writes + 1);
      assert Now() == blocked;
      if !script.blockWrites {
        return true;
      }
      if restartCount >= cfg.maxRestarts {
        return false;
      }
      assert Restart(before, script, cfg) == BackOff(blocked, script, cfg);
      raised := WaitAndTry(script);
    }

    /** `_rotate_circuit` */
    method RotateCircuit(newnym: bool, script: RestartScript) returns (raised: bool)
      requires Valid()
      modifies this, manager, process
      ensures Valid()
      ensures Now() == if old(manager.daemon) && newnym then old(Now()) else Restart(old(Now()), script, cfg).0
      ensures raised == if old(manager.daemon) && newnym then false else Restart(old(Now()), script, cfg).1
    {
      if manager.daemon && newnym {
        return false;
      }
      raised := RestartTor(script);
    }

    method CheckAndHeal(script: CheckScript) returns (raised: bool)
      requires Valid()
      modifies this, manager, process
      ensures Valid() && Now() == Check(old(Now()), script, cfg).0
      ensures raised == Check(old(Now()), script, cfg).1
    {
      raised := false;
      var status := manager.GetStatus(script.status, true);
      if status.None? {
        return true;
      }
      last, measured := status.value, script.status;
      if status.value.Good() {
        restartCount, waits := 0, [];
        if script.now - lastRotation > cfg.rotateInterval {
          raised := RotateCircuit(script.newnym, script.restart);
          if !raised {
            lastRotation := script.now;
          }
        }
      } else if status.value.state == Error || !status.value.Healthy() {
        raised := RestartTor(script.restart);
      } else if status.value.state == Stopped {
        raised := RestartTor(script.restart);
      }
    }
  }
}
