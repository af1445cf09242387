/** What one check, one restart and one start do, field by field and case by case. */
module WatchdogSteps {
  import opened Text
  import opened Policy
  import opened Gateway
  import opened Manager
  import opened Watchdog
  import opened WatchdogLaws

  // ---- one restart -------------------------------------------------------------------------------

  /** The manager after a start of Tor from nothing. */
  function StartedTor(outcome: StartOutcome): Tor {
    match outcome
    case NotInstalled => Tor(Error, false)
    case DaemonRaises => Tor(Error, true)
    case Bootstraps(ProbeRaises) => Tor(Error, true)
    case Bootstraps(_) => Tor(Running, true)
  }

  /** The verification after it finds all four layers in order. */
  predicate Verified(script: RestartScript) {
    StartedTor(script.start) == Tor(Running, true) && script.verify == HEALTHY
  }

  /** A restart is aborted by its block, before which it does nothing, or by the blocked write. */
  lemma RestartAborts(w: Watch, script: RestartScript, cfg: Config)
    requires w.count >= 0
    ensures RetireRaises(w.process.env, cfg.urls) ==> Restart(w, script, cfg) == (w, true)
    ensures !RetireRaises(w.process.env, cfg.urls) && !script.blockWrites ==>
              Restart(w, script, cfg) == (w.(process := Block(w.process, cfg.urls), writes := w.writes + 1), true)
  {
  }

  /** At its limit it blocks, and leaves Tor as it is. */
  lemma RestartGivesUp(w: Watch, script: RestartScript, cfg: Config)
    requires w.count >= 0 && !RetireRaises(w.process.env, cfg.urls) && script.blockWrites
    requires w.count >= cfg.maxRestarts
    ensures Restart(w, script, cfg) == (w.(process := Block(w.process, cfg.urls), writes := w.writes + 1), false)
  {
  }

  /** Blocked, counted and stopped. */
  function Waiting(w: Watch, cfg: Config): Watch
    requires w.count >= 0
  {
    w.(process := Block(w.process, cfg.urls), writes := w.writes + 1, count := w.count + 1,
       waits := w.waits + [Delay(w.count, cfg)], tor := Tor(Stopped, false))
  }

  /** Below its limit it blocks, counts and stops, and then tries; a negative backoff makes the wait raise. */
  lemma RestartTries(w: Watch, script: RestartScript, cfg: Config)
    requires w.count >= 0 && !RetireRaises(w.process.env, cfg.urls) && script.blockWrites
    requires w.count < cfg.maxRestarts
    ensures Restart(w, script, cfg)
         == if cfg.backoff < 0.0 then (Waiting(w, cfg), true) else (Attempt(Waiting(w, cfg), script, cfg), false)
  {
    DelaySign(w.count, cfg);
    var blocked := w.(process := Block(w.process, cfg.urls), writes := w.writes + 1);
    assert Restart(w, script, cfg) == BackOff(blocked, script, cfg);
    assert BackOff(blocked, script, cfg)
        == if cfg.backoff < 0.0 then (Waiting(w, cfg), true) else (Attempt(Waiting(w, cfg), script, cfg), false);
  }

  /** One attempt that is not verified leaves the environment as it is and the attempt counted. */
  lemma AttemptFails(w: Watch, script: RestartScript, cfg: Config)
    requires w.tor == Tor(Stopped, false) && !Verified(script)
    ensures var next := Attempt(w, script, cfg);
            && next.starts == w.starts + 1 && next.tor == StartedTor(script.start)
            && next.process == w.process && next.writes == w.writes && next.count == w.count && next.waits == w.waits
            && next.lastRotation == w.lastRotation && next.lastRestart == w.lastRestart
  {
    NotVerified(script);
  }

  lemma NotVerified(script: RestartScript)
    requires !Verified(script)
    ensures Start(Tor(Stopped, false), script.start) == StartedTor(script.start)
    ensures var status := StatusOf(StartedTor(script.start), script.verify, true);
            status.Some? ==> !status.value.Good()
  {
  }

  /** One that is verified resets the count and injects; the live file is written only if that is accepted,
      and the time of the restart recorded only if the file could be written. */
  lemma AttemptRecovers(w: Watch, script: RestartScript, cfg: Config)
    requires w.tor == Tor(Stopped, false) && Verified(script)
    ensures var next := Attempt(w, script, cfg);
            var (process, injected) := Inject(w.process, cfg.port, None, cfg.urls);
            && next.starts == w.starts + 1 && next.tor == Tor(Running, true)
            && next.process == process && next.count == 0 && next.waits == []
            && next.last == Status(Running, true, true, true, true) && next.measured == HEALTHY
            && next.writes == (if injected.Ok? then w.writes + 1 else w.writes)
            && next.lastRestart == (if injected.Ok? && script.liveWrites then script.stamp else w.lastRestart)
            && next.lastRotation == w.lastRotation
  {
  }

  /** What every restart that is neither aborted nor given up does to Tor and the count. */
  lemma RestartStartsTor(w: Watch, script: RestartScript, cfg: Config)
    requires w.count >= 0 && !RetireRaises(w.process.env, cfg.urls) && script.blockWrites
    requires w.count < cfg.maxRestarts && cfg.backoff >= 0.0
    ensures var (next, raised) := Restart(w, script, cfg);
            && !raised && next.starts == w.starts + 1 && next.tor == StartedTor(script.start)
            && next.count == (if Verified(script) then 0 else w.count + 1) && next.lastRotation == w.lastRotation
  {
    RestartTries(w, script, cfg);
    if Verified(script) {
      AttemptRecovers(Waiting(w, cfg), script, cfg);
    } else {
      AttemptFails(Waiting(w, cfg), script, cfg);
    }
  }

  // ---- one check -----------------------------------------------------------------------------------

  /** What a good status makes of the watchdog: nothing is left of earlier failures. */
  function Healed(w: Watch): Watch {
    w.(last := Status(Running, true, true, true, true), measured := HEALTHY, count := 0, waits := [])
  }

  /** A check that finds all four layers in order resets the count and the waits. Unless a rotation is due
      that is all, whatever the script has for a restart. */
  lemma GoodCheck(w: Watch, script: CheckScript, cfg: Config)
    requires w.count >= 0 && w.tor == Tor(Running, true) && script.status == HEALTHY
    requires script.now - w.lastRotation <= cfg.rotateInterval
    ensures Check(w, script, cfg) == (Healed(w), false)
  {
  }

  /** If one is due and Tor accepts the signal, the time of the rotation moves as well, and Tor runs on. */
  lemma RotationAccepted(w: Watch, script: CheckScript, cfg: Config)
    requires w.count >= 0 && w.tor == Tor(Running, true) && script.status == HEALTHY
    requires script.now - w.lastRotation > cfg.rotateInterval && script.newnym
    ensures Check(w, script, cfg) == (Healed(w).(lastRotation := script.now), false)
  {
  }

  /** If Tor refuses it, there is a restart with a fresh count, and the time moves unless that is aborted. */
  lemma RotationRefused(w: Watch, script: CheckScript, cfg: Config)
    requires w.count >= 0 && w.tor == Tor(Running, true) && script.status == HEALTHY
    requires script.now - w.lastRotation > cfg.rotateInterval && !script.newnym
    ensures var (next, raised) := Restart(Healed(w), script.restart, cfg);
            Check(w, script, cfg) == (if raised then next else next.(lastRotation := script.now), raised)
  {
  }

  /** So a refused rotation stops Tor and starts it again, unless the block or its write fails. */
  lemma RefusedRestarts(w: Watch, script: CheckScript, cfg: Config)
    requires w.count >= 0 && w.tor == Tor(Running, true) && script.status == HEALTHY
    requires script.now - w.lastRotation > cfg.rotateInterval && !script.newnym
    requires !RetireRaises(w.process.env, cfg.urls) && script.restart.blockWrites
    requires cfg.maxRestarts > 0 && cfg.backoff >= 0.0
    ensures var (next, raised) := Check(w, script, cfg);
            && !raised && next.starts == w.starts + 1 && next.tor == StartedTor(script.restart.start)
            && next.lastRotation == script.now
  {
    RotationRefused(w, script, cfg);
    RestartStartsTor(Healed(w), script.restart, cfg);
  }

  /** A check whose status cannot be had is aborted and changes nothing. */
  lemma UnknownCheck(w: Watch, script: CheckScript, cfg: Config)
    requires w.count >= 0 && w.tor.daemon && script.status.ProbeRaises?
    ensures Check(w, script, cfg) == (w, true)
  {
  }

  /** What is seen of a manager by a probe that is not good. */
  predicate Bad(t: Tor, probe: Probe) {
    !t.daemon || (probe.Probe? && (t.state == Error || (probe != HEALTHY)))
  }

  /** A check that finds anything amiss restarts with the count it has. */
  lemma BadCheck(w: Watch, script: CheckScript, cfg: Config)
    requires w.count >= 0 && Bad(w.tor, script.status)
    ensures exists last :: Check(w, script, cfg)
                        == Restart(w.(last := last, measured := script.status), script.restart, cfg)
  {
    var last := StatusOf(w.tor, script.status, true).value;
    assert !last.Good();
    assert Check(w, script, cfg) == Restart(w.(last := last, measured := script.status), script.restart, cfg);
  }

  // ---- over runs -----------------------------------------------------------------------------------

  lemma {:induction false} RunAppend(w: Watch, a: seq<CheckScript>, b: seq<CheckScript>, cfg: Config)
    requires w.count >= 0
    ensures RunChecks(w, a + b, cfg) == RunChecks(RunChecks(w, a, cfg), b, cfg)
    decreases |a|
  {
    if a == [] {
      assert a + b == b;
    } else {
      assert (a + b)[0] == a[0] && (a + b)[1..] == a[1..] + b;
      RunAppend(After(w, a[0], cfg), a[1..], b, cfg);
    }
  }

  lemma RunTwo(w: Watch, a: CheckScript, b: CheckScript, cfg: Config)
    requires w.count >= 0
    ensures RunChecks(w, [a, b], cfg) == After(After(w, a, cfg), b, cfg)
  {
    assert [a, b][1..] == [b] && [b][1..] == [];
    var next := After(w, a, cfg);
    assert RunChecks(w, [a, b], cfg) == RunChecks(next, [b], cfg);
    assert RunChecks(next, [b], cfg) == RunChecks(After(next, b, cfg), [], cfg);
  }

  /** After any run, however many restarts had failed: a good check gives the whole number of attempts back,
      so the next check that finds something amiss starts Tor again. */
  lemma GoodCheckRenews(w: Watch, run: seq<CheckScript>, good: CheckScript, bad: CheckScript, cfg: Config)
    requires w.count >= 0 && cfg.maxRestarts > 0 && cfg.backoff >= 0.0
    requires var now := RunChecks(w, run, cfg);
             && now.tor == Tor(Running, true) && !RetireRaises(now.process.env, cfg.urls)
             && good.status == HEALTHY && (good.now - now.lastRotation <= cfg.rotateInterval || good.newnym)
             && bad.status.Probe? && bad.status != HEALTHY && bad.restart.blockWrites
    ensures var now, end := RunChecks(w, run, cfg), RunChecks(w, run + [good, bad], cfg);
            && end.starts == now.starts + 1 && end.tor == StartedTor(bad.restart.start)
            && end.count == if Verified(bad.restart) then 0 else 1
  {
    var now := RunChecks(w, run, cfg);
    RunAppend(w, run, [good, bad], cfg);
    RunTwo(now, good, bad, cfg);
    if good.now - now.lastRotation <= cfg.rotateInterval {
      GoodCheck(now, good, cfg);
    } else {
      RotationAccepted(now, good, cfg);
    }
    BadAfterGood(Check(now, good, cfg).0, bad, cfg);
  }

  lemma BadAfterGood(w: Watch, bad: CheckScript, cfg: Config)
    requires w.count == 0 && w.tor == Tor(Running, true) && !RetireRaises(w.process.env, cfg.urls)
    requires cfg.maxRestarts > 0 && cfg.backoff >= 0.0
    requires bad.status.Probe? && bad.status != HEALTHY && bad.restart.blockWrites
    ensures var end := Check(w, bad, cfg).0;
            && end.starts == w.starts + 1 && end.tor == StartedTor(bad.restart.start)
            && end.count == if Verified(bad.restart) then 0 else 1
  {
    BadCheck(w, bad, cfg);
    var last :| Check(w, bad, cfg) == Restart(w.(last := last, measured := bad.status), bad.restart, cfg);
    var seen := w.(last := last, measured := bad.status);
    RestartStartsTor(seen, bad.restart, cfg);
  }

  // ---- the start -----------------------------------------------------------------------------------

  /** Everything that is checked before Tor is started. */
  predicate Admitted(process: State, script: StartScript, cfg: Config) {
    && !RetireRaises(process.env, cfg.urls)
    && var policy := EstablishPolicy(cfg.port, None, Retire(process.env, cfg.urls), cfg.urls);
       && policy.Ok? && (policy.value.strict ==> script.installed)
       && script.compatible && script.bridgesLoad
  }

  /** Exactly when a start succeeds, and the watchdog it leaves. */
  lemma StartsExactly(process: State, script: StartScript, cfg: Config)
    ensures var w := StartGateway(process, script, cfg).1;
            && (w.Some? <==> && Admitted(process, script, cfg) && StartedTor(script.start) == Tor(Running, true)
                             && script.verify == HEALTHY && (script.writesEnv ==> script.envWrites))
            && (w.Some? ==> && w.value.tor == Tor(Running, true) && w.value.count == 0 && w.value.waits == []
                            && w.value.starts == 1 && w.value.lastRotation == script.now && w.value.lastRestart == 0.0
                            && w.value.last == Status(Running, true, true, true, true)
                            && w.value.measured == HEALTHY && w.value.writes == if script.writesEnv then 1 else 0)
  {
    if Admitted(process, script, cfg) {
      var clean := process.(env := Retire(process.env, cfg.urls));
      RetiredQuiet(process, cfg);
      EstablishedUrl(clean.env, cfg);
    }
  }

  lemma RetiredQuiet(process: State, cfg: Config)
    requires !RetireRaises(process.env, cfg.urls)
    ensures !RetireRaises(Retire(process.env, cfg.urls), cfg.urls)
  {
    if LegacyProxyValue(process.env, cfg.urls.local).Proven? {
      assert PLATFORM_PROXIES[0] in PLATFORM_PROXIES;
      assert PLATFORM_PROXIES[0] !in Retire(process.env, cfg.urls);
    }
  }

  lemma EstablishedUrl(env: Environment, cfg: Config)
    ensures var policy := EstablishPolicy(cfg.port, None, env, cfg.urls);
            policy.Ok? ==> policy.value.url == SocksUrl(cfg.port)
  {
  }

  /** A start that is not admitted, or whose Tor does not run, leaves the environment to the retirement. One
      whose verification finds a layer missing leaves the eight variables at the dead endpoint. */
  lemma FailedStartBlocks(process: State, script: StartScript, cfg: Config)
    ensures var (end, w) := StartGateway(process, script, cfg);
            && (!Admitted(process, script, cfg) || StartedTor(script.start) != Tor(Running, true)
                || script.verify.ProbeRaises? ==>
                  w.None? && end == process.(env := Retire(process.env, cfg.urls)))
            && (Admitted(process, script, cfg) && StartedTor(script.start) == Tor(Running, true)
                && script.verify.Probe? && script.verify != HEALTHY ==>
                  w.None? && AllAt(end.env, "socks5://127.0.0.1:1"))
  {
    var clean := process.(env := Retire(process.env, cfg.urls));
    if Admitted(process, script, cfg) {
      RetiredQuiet(process, cfg);
      BlockedAllAt(clean, cfg.urls);
    }
  }
}
