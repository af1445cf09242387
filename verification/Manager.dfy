/** `TorManager`: the state the watchdog observes and the daemon it starts and stops. */
module Manager {
  import opened Text

  datatype TorState = Stopped | Starting | Running | Stopping | Error

  /** What one round of measurements finds; the daemon, the sockets and the verifier are outside. */
  datatype Probe =
    | ProbeRaises
    | Probe(isRunning: bool, process: bool, socks: bool, bootstrap: Option<int>, usingTor: bool)

  datatype Status = Status(state: TorState, process: bool, socks: bool, bootstrapped: bool, route: bool)
  {
    predicate Healthy() {
      process && socks && bootstrapped && route
    }

    /** The test the watchdog makes before it trusts the route. */
    predicate Good() {
      state == Running && Healthy()
    }
  }

  /** How the daemon's start ends: before it exists, in an exception, or bootstrapped. */
  datatype StartOutcome = NotInstalled | DaemonRaises | Bootstraps(probe: Probe)

  datatype Tor = Tor(state: TorState, daemon: bool)

  /** `status`; `None` when a measurement raises. Without a daemon nothing is measured. */
  function StatusOf(t: Tor, probe: Probe, verifyRoute: bool): Option<Status> {
    if !t.daemon then Some(Status(t.state, false, false, false, false))
    else if probe.ProbeRaises? then None
    else
      var process := probe.isRunning && probe.process;
      var socks := process && probe.socks;
      var bootstrapped := process && probe.bootstrap == Some(100);
      Some(Status(t.state, process, socks, bootstrapped, verifyRoute && socks && bootstrapped && probe.usingTor))
  }

  /** Each layer of a status is what was measured of it, if the layers below it hold. */
  predicate Layered(s: Status, probe: Probe, verifyRoute: bool)
    requires probe.Probe?
  {
    && (s.process <==> probe.isRunning && probe.process)
    && (s.socks <==> s.process && probe.socks)
    && (s.bootstrapped <==> s.process && probe.bootstrap == Some(100))
    && (s.route <==> verifyRoute && s.socks && s.bootstrapped && probe.usingTor)
  }

  function Start(t: Tor, outcome: StartOutcome): Tor {
    match outcome
    case NotInstalled => t.(state := Error)
    case DaemonRaises => Tor(Error, true)
    case Bootstraps(probe) => Tor(if probe.ProbeRaises? then Error else Running, true)
  }

  /** What holds of the manager whenever nobody is inside one of its methods. */
  predicate AtRest(t: Tor) {
    t.state in {Stopped, Running, Error} && (t.state == Stopped ==> !t.daemon)
  }

  class TorManager {
    var state: TorState
    var daemon: bool

    constructor ()
      ensures Now() == Tor(Stopped, false)
    {
      state, daemon := Stopped, false;
    }

    ghost function Now(): Tor
      reads this
    {
      Tor(state, daemon)
    }

    /** `_transition` reports a move outside its table and makes it all the same. */
    method Transition(to: TorState)
      modifies this`state
      ensures state == to
    {
      state := to;
    }

    /** `status`. Without a daemon nothing is reported to hold. */
    method GetStatus(probe: Probe, verifyRoute: bool) returns (r: Option<Status>)
      ensures r == StatusOf(Now(), probe, verifyRoute)
      ensures r.None? <==> daemon && probe.ProbeRaises?
      ensures r.Some? ==> r.value.state == state
      ensures !daemon ==> r == Some(Status(state, false, false, false, false))
      ensures daemon && probe.Probe? ==> Layered(r.value, probe, verifyRoute)
    {
      if !daemon {
        return Some(Status(state, false, false, false, false));
      }
      if probe.ProbeRaises? {
        return None;
      }
      var process := if probe.isRunning then probe.process else false;
      var socks := if process then probe.socks else false;
      var bootstrap := if process then probe.bootstrap else None;
      var verified := verifyRoute && socks && bootstrap == Some(100) && probe.usingTor;
      r := Some(Status(state, process, socks, bootstrap == Some(100), verified));
    }

    method StartDaemon(outcome: StartOutcome) returns (r: Status)
      modifies this
      ensures Now() == Start(old(Now()), outcome)
      ensures state == if outcome.Bootstraps? && outcome.probe.Probe? then Running else Error
      ensures daemon == (old(daemon) || !outcome.NotInstalled?)
      ensures r.state == state
      ensures state == Running ==> Layered(r, outcome.probe, true)
      ensures state != Running ==> !r.process && !r.socks && !r.bootstrapped && !r.route
    {
      Transition(Starting);
      if !outcome.NotInstalled? {
        daemon := true;
        if outcome.Bootstraps? {
          Transition(Running);
          var status := GetStatus(outcome.probe, true);
          if status.Some? {
            return status.value;
          }
        }
      }
      Transition(Error);
      r := Status(Error, false, false, false, false);
    }

    /** `stop`: whatever the daemon's own stop does, the manager ends stopped without a daemon. */
    method StopDaemon(daemonRaises: bool) returns (raised: bool)
      modifies this
      ensures Now() == Tor(Stopped, false)
      ensures raised == (old(daemon) && daemonRaises)
    {
      Transition(Stopping);
      raised := daemon && daemonRaises;
      Transition(Stopped);
      daemon := false;
    }

    method Restart(daemonRaises: bool, outcome: StartOutcome) returns (raised: bool)
      modifies this
      ensures raised == (old(state) == Running && old(daemon) && daemonRaises)
      ensures Now() == if raised then Tor(Stopped, false)
                       else Start(if old(state) == Running then Tor(Stopped, false) else old(Now()), outcome)
    {
      raised := false;
      if state == Running {
        raised := StopDaemon(daemonRaises);
        if raised {
          return;
        }
      }
      var status := StartDaemon(outcome);
    }
  }

  lemma StartAtRest(t: Tor, outcome: StartOutcome)
    requires AtRest(t)
    ensures AtRest(Start(t, outcome))
    ensures Start(t, outcome).state == Running ==> outcome.Bootstraps? && Start(t, outcome).daemon
  {
  }
}
