/** Safety of the self-healing gateway over whole runs. */
module WatchdogLaws {
  import opened Text
  import opened Policy
  import opened Gateway
  import opened GatewayLaws
  import opened Manager
  import opened Watchdog

  /** The eight generic proxy variables are present and all name `url`. */
  predicate AllAt(env: Environment, url: string) {
    forall n | n in GENERIC_PROXIES :: n in env && env[n] == url
  }

  /** All four layers hold. */
  const HEALTHY := Probe(true, true, true, Some(100), true)

  // ---- the three operations on the eight variables -----------------------------------

  lemma GenericGet(env: Environment, urls: UrlParser, n: string)
    requires n in GENERIC_PROXIES || n == "TOR_STRICT_MODE"
    ensures Get(Retire(env, urls), n) == Get(env, n)
  {
    RetireGet(env, urls, n);
    NamesDisjoint();
  }

  lemma RetireAllAt(env: Environment, urls: UrlParser, url: string)
    requires AllAt(env, url)
    ensures AllAt(Retire(env, urls), url)
  {
    forall n | n in GENERIC_PROXIES
      ensures n in Retire(env, urls) && Retire(env, urls)[n] == url
    {
      GenericGet(env, urls, n);
      assert Get(Retire(env, urls), n) == Some(url);
    }
  }

  lemma BlockedAllAt(s: State, urls: UrlParser)
    requires !RetireRaises(s.env, urls)
    ensures AllAt(Block(s, urls).env, DEAD_URL)
    ensures StrictMode(Block(s, urls).env) == StrictMode(s.env)
  {
    OwnedNames("");
    NamesDisjoint();
    GenericGet(s.env, urls, "TOR_STRICT_MODE");
    BlockGet(s, urls, "TOR_STRICT_MODE");
    assert Get(Block(s, urls).env, "TOR_STRICT_MODE") == Get(s.env, "TOR_STRICT_MODE");
  }

  lemma InjectedAllAt(s: State, port: int, policy: Option<ProxyPolicy>, urls: UrlParser)
    ensures StrictMode(Inject(s, port, policy, urls).0.env) == StrictMode(s.env)
    ensures Inject(s, port, policy, urls).1.Ok? ==> AllAt(Inject(s, port, policy, urls).0.env, SocksUrl(port))
    ensures Inject(s, port, policy, urls).1.Raised? ==>
              Inject(s, port, policy, urls).0 == s.(env := Retire(s.env, urls))
  {
    KeepsMode(s, port, policy, urls);
    InjectOutcome(s, port, policy, urls);
    if Inject(s, port, policy, urls).1.Ok? {
      forall n | n in GENERIC_PROXIES
        ensures Get(Inject(s, port, policy, urls).0.env, n) == Some(SocksUrl(port))
      {
        InjectedValue(s, port, policy, urls, n);
      }
    }
  }

  lemma KeepsMode(s: State, port: int, policy: Option<ProxyPolicy>, urls: UrlParser)
    ensures StrictMode(Inject(s, port, policy, urls).0.env) == StrictMode(s.env)
  {
    OwnedNames("");
    GenericGet(s.env, urls, "TOR_STRICT_MODE");
    InjectGet(s, port, policy, urls, "TOR_STRICT_MODE");
    assert Get(Inject(s, port, policy, urls).0.env, "TOR_STRICT_MODE") == Get(s.env, "TOR_STRICT_MODE");
  }

  /** No operation makes platform variables malformed that were not. */
  lemma StaysWellFormed(s: State, op: Op, urls: UrlParser)
    requires !Malformed(s.env, urls)
    ensures !Malformed(Apply(s, op, urls).env, urls)
  {
    var next := Apply(s, op, urls).env;
    NamesDisjoint();
    OwnedNames("");
    forall n | n in PLATFORM_PROXIES
      ensures Get(next, n) == Get(Retire(s.env, urls), n)
    {
      if op.InjectOp? {
        InjectGet(s, op.port, op.policy, urls, n);
      } else if !RetireRaises(s.env, urls) {
        BlockGet(s, urls, n);
      }
    }
    PlatformDepends(next, Retire(s.env, urls), urls);
    RetireKeepsForm(s.env, urls);
  }

  lemma RetireKeepsForm(env: Environment, urls: UrlParser)
    requires !Malformed(env, urls)
    ensures !Malformed(Retire(env, urls), urls)
  {
    forall n | n in PLATFORM_PROXIES
      ensures Get(Retire(env, urls), n) == if Footprint(env, urls) && Enabled(env) then None else Get(env, n)
    {
      RetireGet(env, urls, n);
    }
    if Footprint(env, urls) && Enabled(env) {
      NoPlatformWithout(Retire(env, urls), urls);
    } else {
      PlatformDepends(Retire(env, urls), env, urls);
    }
  }

  lemma WellFormedNeverRaises(env: Environment, urls: UrlParser)
    requires !Malformed(env, urls)
    ensures !RetireRaises(env, urls)
  {
    RetiresWhen(env, urls);
  }

  /** Different ports have different URLs. */
  lemma UrlInjective(p: nat, q: nat)
    ensures SocksUrl(p) == SocksUrl(q) <==> p == q
  {
    var head := "socks5://127.0.0.1:";
    assert SocksUrl(p)[|head|..] == Decimal(p) && SocksUrl(q)[|head|..] == Decimal(q);
    ToFromBase(p, 10);
    ToFromBase(q, 10);
  }

  lemma DeadUrl()
    ensures DEAD_URL == SocksUrl(1)
    ensures Trim(DEAD_URL) == DEAD_URL
  {
    assert Decimal(1) == "1";
    assert forall i | 0 <= i < |DEAD_URL| :: !IsSpace(DEAD_URL[i]);
  }

  /** Injecting over a blocked environment succeeds out of strict mode, unless the retirement raises,
      and is refused in strict mode. */
  lemma InjectBlocked(s: State, port: int, urls: UrlParser)
    requires AllAt(s.env, DEAD_URL) && 1 <= port <= 65535
    ensures !StrictMode(s.env) ==> (Inject(s, port, None, urls).1.Ok? <==> !RetireRaises(s.env, urls))
    ensures StrictMode(s.env) && port != 1 ==> Inject(s, port, None, urls).1.Raised?
  {
    var env := Retire(s.env, urls);
    GenericGet(s.env, urls, "TOR_STRICT_MODE");
    assert Get(env, "TOR_STRICT_MODE") == Get(s.env, "TOR_STRICT_MODE");
    if StrictMode(s.env) && port != 1 {
      RetireAllAt(s.env, urls, DEAD_URL);
      DeadRejected(env, port, urls);
    }
  }

  /** Strict validation refuses the dead endpoint. */
  lemma DeadRejected(env: Environment, port: int, urls: UrlParser)
    requires AllAt(env, DEAD_URL) && StrictMode(env) && 1 < port <= 65535
    ensures EstablishPolicy(port, None, env, urls).Raised?
  {
    DeadUrl();
    UrlInjective(port, 1);
    var policy := ProxyPolicy(SocksUrl(port), true);
    assert GENERIC_PROXIES[0] in GENERIC_PROXIES;
    assert GenericError(env[GENERIC_PROXIES[0]], policy, urls).Some?;
  }

  lemma {:induction false} NoFirstError(names: seq<string>, env: Environment, policy: ProxyPolicy, urls: UrlParser)
    requires forall n | n in names :: n in env ==> GenericError(env[n], policy, urls) == None
    ensures FirstError(names, env, policy, urls) == None
  {
    if names != [] {
      NoFirstError(names[1..], env, policy, urls);
    }
  }

  // ---- injecting twice ------------------------------------------------------------------

  lemma UrlTrimmed(port: nat)
    ensures Trim(SocksUrl(port)) == SocksUrl(port)
    ensures SocksUrl(port) != "" && Lower(SocksUrl(port)) !in {"direct", "direct://", "none", "off"}
  {
    var head, tail := "socks5://127.0.0.1:", Decimal(port);
    var url := SocksUrl(port);
    assert forall i | 0 <= i < |head| :: !IsSpace(head[i]);
    assert forall i | 0 <= i < |url| :: url[i] == if i < |head| then head[i] else tail[i - |head|];
    assert forall i | 0 <= i < |url| :: !IsSpace(url[i]);
    TrimPlain(url);
    assert |Lower(url)| >= 19;
  }

  lemma BypassIsLoopback()
    ensures LoopbackOnly(LOOPBACK_BYPASS)
  {
    NoCommas(LOOPBACK_HOSTS);
    SplitJoin(LOOPBACK_HOSTS, ',');
    forall part | part in LOOPBACK_HOSTS
      ensures Lower(StripBrackets(Trim(part))) in {"localhost", "127.0.0.1", "::1"}
    {
      PlainHost(part);
    }
  }

  lemma NoCommas(hosts: seq<string>)
    requires hosts == ["localhost", "127.0.0.1", "::1"]
    ensures Separable(hosts, ',')
  {
  }

  /** The values an injection sets for `port` are the environment's. */
  predicate Routed(env: Environment, port: int) {
    && AllAt(env, SocksUrl(port))
    && Get(env, "NO_PROXY") == Some(LOOPBACK_BYPASS) && Get(env, "no_proxy") == Some(LOOPBACK_BYPASS)
    && Get(env, "TOR_ENABLED") == Some("1")
  }

  lemma InjectionRoutes(s: State, port: int, policy: Option<ProxyPolicy>, urls: UrlParser)
    requires Inject(s, port, policy, urls).1.Ok?
    ensures Routed(Inject(s, port, policy, urls).0.env, port)
  {
    InjectedAllAt(s, port, policy, urls);
    NamesDisjoint();
    InjectedValue(s, port, policy, urls, "NO_PROXY");
    InjectedValue(s, port, policy, urls, "no_proxy");
    InjectedValue(s, port, policy, urls, "TOR_ENABLED");
  }

  lemma RetireRouted(env: Environment, port: int, urls: UrlParser)
    requires Routed(env, port)
    ensures Routed(Retire(env, urls), port)
  {
    NamesDisjoint();
    RetireAllAt(env, urls, SocksUrl(port));
    RetireGet(env, urls, "NO_PROXY");
    RetireGet(env, urls, "no_proxy");
    RetireGet(env, urls, "TOR_ENABLED");
  }

  lemma RoutedAccepted(env: Environment, port: int, urls: UrlParser)
    requires Routed(env, port) && 1 <= port <= 65535 && urls.socks(SocksUrl(port)) == Some(true)
    ensures EstablishPolicy(port, None, env, urls) == Ok(ProxyPolicy(SocksUrl(port), StrictMode(env)))
  {
    UrlTrimmed(port);
    BypassIsLoopback();
    var policy := ProxyPolicy(SocksUrl(port), StrictMode(env));
    assert GenericError(SocksUrl(port), policy, urls) == None;
    NoFirstError(GENERIC_PROXIES, env, policy, urls);
    assert forall n | n in NO_PROXIES :: Get(env, n) == Some(LOOPBACK_BYPASS);
  }

  lemma RoutedAbsorbs(env: Environment, port: int)
    requires Routed(env, port)
    ensures env + PolicyEnvironment(SocksUrl(port)) == env
  {
    forall k | k in PolicyEnvironment(SocksUrl(port))
      ensures Get(env, k) == Get(PolicyEnvironment(SocksUrl(port)), k)
    {
      PolicyValues(SocksUrl(port), k);
    }
    Absorbed(env, PolicyEnvironment(SocksUrl(port)));
  }

  lemma Absorbed(a: Environment, b: Environment)
    requires forall k | k in b :: Get(a, k) == Get(b, k)
    ensures a + b == a
  {
    assert forall k | k in b :: k in a && a[k] == b[k];
  }

  lemma PlainHost(host: string)
    requires host in ["localhost", "127.0.0.1", "::1"]
    ensures Lower(StripBrackets(Trim(host))) == host
  {
    assert forall i | 0 <= i < |host| :: !IsSpace(host[i]);
    TrimPlain(host);
    assert host[0] !in "[]" && host[|host| - 1] !in "[]";
    assert forall i | 0 <= i < |host| :: !('A' <= host[i] <= 'Z');
  }

  /** Strict validation accepts what an injection for the same port has set, so injecting again
      succeeds in either mode, keeps the snapshot and changes nothing but a retirement, unless the
      platform variables are malformed: then, and only then, the second injection raises. */
  lemma InjectTwice(s: State, port: int, policy: Option<ProxyPolicy>, urls: UrlParser)
    requires Inject(s, port, policy, urls).1.Ok? && 1 <= port <= 65535 && urls.socks(SocksUrl(port)) == Some(true)
    ensures var (once, first) := Inject(s, port, policy, urls);
            var (twice, second) := Inject(once, port, None, urls);
            && twice == once.(env := Retire(once.env, urls))
            && (second.Ok? <==> !Malformed(s.env, urls))
            && (second.Raised? ==> second.error == InvalidUrl)
  {
    var once := Inject(s, port, policy, urls).0;
    InjectionRoutes(s, port, policy, urls);
    InjectOutcome(s, port, policy, urls);
    InjectedForm(s, port, policy, urls);
    if !Malformed(s.env, urls) {
      var env := Retire(once.env, urls);
      RetireRouted(once.env, port, urls);
      RoutedAccepted(env, port, urls);
      RoutedAbsorbs(env, port);
    }
    InjectOutcome(once, port, None, urls);
  }

  /** An accepted injection enables retirement, so from then on it raises if the variables are malformed. */
  lemma InjectedForm(s: State, port: int, policy: Option<ProxyPolicy>, urls: UrlParser)
    requires Inject(s, port, policy, urls).1.Ok?
    ensures RetireRaises(Inject(s, port, policy, urls).0.env, urls) <==> Malformed(s.env, urls)
    ensures Malformed(Inject(s, port, policy, urls).0.env, urls) <==> Malformed(s.env, urls)
  {
    var once := Inject(s, port, policy, urls).0;
    InjectOutcome(s, port, policy, urls);
    InjectedEnabled(Retire(s.env, urls), port);
    RetiresWhen(once.env, urls);
    if Malformed(s.env, urls) {
      OwnedNames("");
      forall n | n in PLATFORM_PROXIES
        ensures Get(once.env, n) == Get(s.env, n)
      {
        InjectGet(s, port, policy, urls, n);
        RetireGet(s.env, urls, n);
      }
      PlatformDepends(once.env, s.env, urls);
    } else {
      StaysWellFormed(s, InjectOp(port, policy), urls);
    }
  }

  // ---- from the first injection to the clear ----------------------------------------

  /** The endpoint is the dead one, or one that some injection named. */
  predicate NamedBy(url: string, ops: seq<Op>) {
    url == DEAD_URL || exists i | 0 <= i < |ops| && ops[i].InjectOp? :: url == SocksUrl(ops[i].port)
  }

  lemma ApplyRoutes(s: State, url: string, op: Op, urls: UrlParser) returns (next: string)
    requires AllAt(s.env, url)
    ensures AllAt(Apply(s, op, urls).env, next)
    ensures next == url || NamedBy(next, [op])
  {
    match op
    case BlockOp =>
      next := if RetireRaises(s.env, urls) then url else DEAD_URL;
      if !RetireRaises(s.env, urls) {
        BlockedAllAt(s, urls);
      }
    case InjectOp(port, policy) =>
      InjectedAllAt(s, port, policy, urls);
      RetireAllAt(s.env, urls, url);
      next := if Inject(s, port, policy, urls).1.Ok? then SocksUrl(port) else url;
      assert [op][0] == op;
  }

  /** However injections and blocks follow each other, whether they succeed or raise: once routed, the
      eight variables are never absent and never disagree. */
  lemma {:induction false} AlwaysRouted(s: State, url: string, ops: seq<Op>, urls: UrlParser) returns (last: string)
    requires AllAt(s.env, url)
    ensures AllAt(Run(s, ops, urls).env, last)
    ensures last == url || NamedBy(last, ops)
    decreases |ops|
  {
    last := url;
    if ops != [] {
      var next := ApplyRoutes(s, url, ops[0], urls);
      last := AlwaysRouted(Apply(s, ops[0], urls), next, ops[1..], urls);
      assert forall i | 0 <= i < |ops| - 1 :: ops[1..][i] == ops[i + 1];
    }
  }

  // ---- the invariant --------------------------------------------------------------

  /** Blocked, or live behind a status that was good, with nothing that could make a block raise. */
  predicate Safe(w: Watch, cfg: Config) {
    && 1 <= cfg.port <= 65535
    && AtRest(w.tor)
    && !Malformed(w.process.env, cfg.urls)
    && (AllAt(w.process.env, DEAD_URL)
        || (AllAt(w.process.env, SocksUrl(cfg.port)) && w.last.Good() && w.measured == HEALTHY))
  }

  lemma AttemptSafe(w: Watch, script: RestartScript, cfg: Config)
    requires Safe(w, cfg) && AllAt(w.process.env, DEAD_URL)
    ensures Safe(Attempt(w, script, cfg), cfg)
  {
    StartAtRest(w.tor, script.start);
    var started := w.(tor := Start(w.tor, script.start), starts := w.starts + 1);
    var status := StatusOf(started.tor, script.verify, true);
    if status.Some? && status.value.Good() {
      RecoveredSafe(started.(last := status.value, measured := script.verify), script, cfg);
    }
  }

  lemma RecoveredSafe(w: Watch, script: RestartScript, cfg: Config)
    requires Safe(w, cfg) && AllAt(w.process.env, DEAD_URL) && w.last.Good() && w.measured == HEALTHY
    ensures Safe(Recovered(w, script, cfg), cfg)
  {
    InjectedAllAt(w.process, cfg.port, None, cfg.urls);
    RetireAllAt(w.process.env, cfg.urls, DEAD_URL);
    StaysWellFormed(w.process, InjectOp(cfg.port, None), cfg.urls);
  }

  lemma BackOffSafe(w: Watch, script: RestartScript, cfg: Config)
    requires Safe(w, cfg) && w.count >= 0 && AllAt(w.process.env, DEAD_URL)
    ensures Safe(BackOff(w, script, cfg).0, cfg)
  {
    var delay := Delay(w.count, cfg);
    var waiting := w.(count := w.count + 1, waits := w.waits + [delay], tor := Tor(Stopped, false));
    assert Safe(waiting, cfg);
    AttemptSafe(waiting, script, cfg);
    assert BackOff(w, script, cfg).0 == if delay < 0.0 then waiting else Attempt(waiting, script, cfg);
  }

  /** A block is safe whatever was believed before it. */
  lemma BlockedSafe(w: Watch, seen: Status, probe: Probe, cfg: Config)
    requires Safe(w, cfg)
    ensures !RetireRaises(w.process.env, cfg.urls) && AllAt(Block(w.process, cfg.urls).env, DEAD_URL)
    ensures Safe(w.(last := seen, measured := probe, process := Block(w.process, cfg.urls), writes := w.writes + 1),
            cfg)
  {
    WellFormedNeverRaises(w.process.env, cfg.urls);
    BlockedAllAt(w.process, cfg.urls);
    StaysWellFormed(w.process, BlockOp, cfg.urls);
  }

  /** A restart blocks first. */
  lemma RestartSafe(w: Watch, seen: Status, probe: Probe, script: RestartScript, cfg: Config)
    requires Safe(w, cfg) && w.count >= 0
    ensures Safe(Restart(w.(last := seen, measured := probe), script, cfg).0, cfg)
  {
    BlockedSafe(w, seen, probe, cfg);
    var seeing := w.(last := seen, measured := probe);
    var blocked := seeing.(process := Block(w.process, cfg.urls), writes := w.writes + 1);
    BackOffSafe(blocked, script, cfg);
    assert Restart(seeing, script, cfg).0
        == if !script.blockWrites || w.count >= cfg.maxRestarts then blocked else BackOff(blocked, script, cfg).0;
  }

  lemma GoodSafe(w: Watch, status: Status, script: CheckScript, cfg: Config)
    requires Safe(w, cfg) && StatusOf(w.tor, script.status, true) == Some(status) && status.Good()
    ensures Safe(w.(last := status, measured := script.status, count := 0, waits := []), cfg)
  {
  }

  lemma CheckSafe(w: Watch, script: CheckScript, cfg: Config)
    requires Safe(w, cfg) && w.count >= 0
    ensures Safe(Check(w, script, cfg).0, cfg)
  {
    var status := StatusOf(w.tor, script.status, true);
    if status.Some? {
      if status.value.Good() {
        GoodSafe(w, status.value, script, cfg);
        RestartSafe(w.(count := 0, waits := []), status.value, script.status, script.restart, cfg);
      } else {
        // Not good at rest: the manager failed, or the daemon is unhealthy or gone.
        assert status.value.state == Error || !status.value.Healthy();
        RestartSafe(w, status.value, script.status, script.restart, cfg);
      }
    }
  }

  /** The state in which the rest of a run starts. */
  lemma AfterCheck(w: Watch, scripts: seq<CheckScript>, cfg: Config) returns (next: Watch)
    requires w.count >= 0 && scripts != []
    ensures next == Check(w, scripts[0], cfg).0 && next.count >= 0
    ensures RunChecks(w, scripts, cfg) == RunChecks(next, scripts[1..], cfg)
  {
    next := After(w, scripts[0], cfg);
  }

  lemma {:induction false} RunSafe(w: Watch, scripts: seq<CheckScript>, cfg: Config)
    requires Safe(w, cfg) && w.count >= 0
    ensures Safe(RunChecks(w, scripts, cfg), cfg)
    decreases |scripts|
  {
    if scripts != [] {
      CheckSafe(w, scripts[0], cfg);
      var next := AfterCheck(w, scripts, cfg);
      RunSafe(next, scripts[1..], cfg);
    }
  }

  /** What a verified start leaves: all eight live, a good status, and malformed platform variables
      exactly if they were so before. */
  lemma StartedLive(process: State, script: StartScript, w: Watch, cfg: Config)
    requires StartGateway(process, script, cfg).1 == Some(w)
    ensures 1 <= cfg.port <= 65535 && w.count == 0 && AtRest(w.tor) && w.last.Good() && w.measured == HEALTHY
    ensures AllAt(w.process.env, SocksUrl(cfg.port))
    ensures RetireRaises(w.process.env, cfg.urls) <==> Malformed(process.env, cfg.urls)
    ensures Malformed(w.process.env, cfg.urls) <==> Malformed(process.env, cfg.urls)
  {
    var clean := process.(env := Retire(process.env, cfg.urls));
    var policy := EstablishPolicy(cfg.port, None, clean.env, cfg.urls);
    InjectedAllAt(clean, cfg.port, Some(policy.value), cfg.urls);
    InjectedForm(clean, cfg.port, Some(policy.value), cfg.urls);
    StartAtRest(Tor(Stopped, false), script.start);
    RetiredForm(process.env, cfg.urls);
  }

  lemma RetiredForm(env: Environment, urls: UrlParser)
    ensures Malformed(Retire(env, urls), urls) <==> Malformed(env, urls)
  {
    RetiresWhen(env, urls);
    if !Malformed(env, urls) {
      RetireKeepsForm(env, urls);
    }
  }

  predicate Blocked(w: Watch) {
    AllAt(w.process.env, DEAD_URL)
  }

  predicate Live(w: Watch, cfg: Config) {
    AllAt(w.process.env, SocksUrl(cfg.port))
  }

  /** The eight variables are present and equal, name the dead endpoint or the live one, and name the
      live one only if the last completed status was running and healthy at all four layers. */
  predicate FailsClosed(w: Watch, cfg: Config) {
    && (Blocked(w) || Live(w, cfg))
    && (Live(w, cfg) ==>
          && w.last == Status(Running, true, true, true, true)
          && w.measured == Probe(true, true, true, Some(100), true))
  }

  lemma SafeFailsClosed(w: Watch, cfg: Config)
    requires Safe(w, cfg) && cfg.port != 1
    ensures FailsClosed(w, cfg)
  {
    DeadUrl();
    UrlInjective(cfg.port, 1);
    assert GENERIC_PROXIES[0] in GENERIC_PROXIES;
  }

  /** Over malformed platform variables every operation raises, so the environment that a verified
      start has made live stays as it is, whatever the checks find. */
  lemma MalformedStaysLive(w: Watch, scripts: seq<CheckScript>, cfg: Config)
    requires RetireRaises(w.process.env, cfg.urls) && w.count >= 0
    ensures RunChecks(w, scripts, cfg).process == w.process
  {
    var process := w.process;
    var inv: State -> bool := s => s == process;
    forall s, op | inv(s)
      ensures inv(Apply(s, op, cfg.urls))
    {
    }
    RunKeeps(w, scripts, cfg, inv);
  }

  /** A check that finds the daemon gone and is aborted by the write of the blocked `.env`. */
  const UNHEALTHY := CheckScript(Probe(false, false, false, None, false), 0.0, false,
                                 RestartScript(false, false, NotInstalled, ProbeRaises, false, 0.0))

  /** Port 1 is where blocking cannot be told from routing: an unhealthy check leaves the
      variables at what is then also the live endpoint. */
  lemma PortOneIsNeverBlocked(w: Watch, script: CheckScript, cfg: Config)
    requires cfg.port == 1 && w.count >= 0 && script.status == Probe(false, false, false, None, false)
    requires script.restart.blockWrites == false
    requires RetireRaises(w.process.env, cfg.urls) ==> Live(w, cfg)
    ensures Live(Check(w, script, cfg).0, cfg) && !Check(w, script, cfg).0.last.Healthy()
  {
    DeadUrl();
    if !RetireRaises(w.process.env, cfg.urls) {
      BlockedAllAt(w.process, cfg.urls);
    }
  }

  /** And where the block raises an unhealthy check changes no variable, for any port. */
  lemma RaisingBlockStaysLive(w: Watch, script: CheckScript, cfg: Config)
    requires w.count >= 0 && script.status == Probe(false, false, false, None, false)
    requires RetireRaises(w.process.env, cfg.urls) && Live(w, cfg)
    ensures Live(Check(w, script, cfg).0, cfg) && !Check(w, script, cfg).0.last.Healthy()
  {
  }

  lemma UnhealthyCheck(w: Watch, cfg: Config)
    requires Live(w, cfg) && w.count >= 0 && (cfg.port == 1 || RetireRaises(w.process.env, cfg.urls))
    ensures Live(RunChecks(w, [UNHEALTHY], cfg), cfg) && !RunChecks(w, [UNHEALTHY], cfg).last.Healthy()
  {
    var next := AfterCheck(w, [UNHEALTHY], cfg);
    assert [UNHEALTHY][1..] == [];
    if cfg.port == 1 {
      PortOneIsNeverBlocked(w, UNHEALTHY, cfg);
    } else {
      RaisingBlockStaysLive(w, UNHEALTHY, cfg);
    }
  }

  /** After a verified start, whatever the outside world does and whichever checks are aborted, the
      gateway fails closed: for every port but 1 and every environment whose platform variables are
      not malformed, and for no other. In any case the eight variables are dead or live. */
  lemma VerifiedStartThenSafe(process: State, start: StartScript, w: Watch, cfg: Config)
    requires StartGateway(process, start, cfg).1 == Some(w) && w.count >= 0
    ensures (forall scripts :: FailsClosed(RunChecks(w, scripts, cfg), cfg))
       <==> cfg.port != 1 && !Malformed(process.env, cfg.urls)
    ensures forall scripts :: Blocked(RunChecks(w, scripts, cfg)) || Live(RunChecks(w, scripts, cfg), cfg)
  {
    StartedLive(process, start, w, cfg);
    ClosedExactly(w, cfg);
  }

  lemma ClosedExactly(w: Watch, cfg: Config)
    requires 1 <= cfg.port <= 65535 && AtRest(w.tor) && w.count >= 0
    requires w.last.Good() && w.measured == HEALTHY && Live(w, cfg)
    requires RetireRaises(w.process.env, cfg.urls) <==> Malformed(w.process.env, cfg.urls)
    ensures (forall scripts :: FailsClosed(RunChecks(w, scripts, cfg), cfg))
       <==> cfg.port != 1 && !Malformed(w.process.env, cfg.urls)
    ensures forall scripts :: Blocked(RunChecks(w, scripts, cfg)) || Live(RunChecks(w, scripts, cfg), cfg)
  {
    if cfg.port == 1 || Malformed(w.process.env, cfg.urls) {
      UnhealthyCheck(w, cfg);
      assert !FailsClosed(RunChecks(w, [UNHEALTHY], cfg), cfg);
    }
    forall scripts
      ensures Blocked(RunChecks(w, scripts, cfg)) || Live(RunChecks(w, scripts, cfg), cfg)
      ensures cfg.port != 1 && !Malformed(w.process.env, cfg.urls) ==> FailsClosed(RunChecks(w, scripts, cfg), cfg)
    {
      RunRoutes(w, scripts, cfg);
    }
  }

  lemma RunRoutes(w: Watch, scripts: seq<CheckScript>, cfg: Config)
    requires 1 <= cfg.port <= 65535 && AtRest(w.tor) && w.count >= 0
    requires w.last.Good() && w.measured == HEALTHY && Live(w, cfg)
    requires RetireRaises(w.process.env, cfg.urls) <==> Malformed(w.process.env, cfg.urls)
    ensures Blocked(RunChecks(w, scripts, cfg)) || Live(RunChecks(w, scripts, cfg), cfg)
    ensures cfg.port != 1 && !Malformed(w.process.env, cfg.urls) ==> FailsClosed(RunChecks(w, scripts, cfg), cfg)
  {
    if Malformed(w.process.env, cfg.urls) {
      MalformedStaysLive(w, scripts, cfg);
    } else {
      RunSafe(w, scripts, cfg);
      if cfg.port != 1 {
        SafeFailsClosed(RunChecks(w, scripts, cfg), cfg);
      }
    }
  }

  const OPEN_BRACKET := "socks5://[::1"

  /** Such an environment: all fourteen platform names at a URL with an open bracket, on which `urlsplit`
      raises. The start succeeds, and the first unhealthy check leaves the gateway routed. */
  lemma OpenBracketStaysLive(cfg: Config, now: real)
    requires cfg.port == 9050 && cfg.urls.local(OPEN_BRACKET) == None
    ensures var env: Environment := map n | n in PLATFORM_PROXIES :: OPEN_BRACKET;
            var start := StartScript(true, true, true, Bootstraps(HEALTHY), HEALTHY, false, true, true, now);
            var w := StartGateway(State(env, None), start, cfg).1;
            && w.Some? && w.value.count == 0
            && Live(RunChecks(w.value, [UNHEALTHY], cfg), cfg)
            && !RunChecks(w.value, [UNHEALTHY], cfg).last.Healthy()
  {
    var env: Environment := map n | n in PLATFORM_PROXIES :: OPEN_BRACKET;
    var start := StartScript(true, true, true, Bootstraps(HEALTHY), HEALTHY, false, true, true, now);
    NamesDisjoint();
    BracketMalformed(env, cfg.urls);
    RelaxedStart(State(env, None), start, cfg);
    var w := StartGateway(State(env, None), start, cfg).1.value;
    StartedLive(State(env, None), start, w, cfg);
    UnhealthyCheck(w, cfg);
  }

  /** Out of strict mode a healthy daemon is all it takes to start. */
  lemma RelaxedStart(process: State, start: StartScript, cfg: Config)
    requires 1 <= cfg.port <= 65535 && !StrictMode(process.env) && !RetireRaises(process.env, cfg.urls)
    requires Retire(process.env, cfg.urls) == process.env
    requires start.compatible && start.bridgesLoad && start.envWrites
    requires start.start == Bootstraps(HEALTHY) && start.verify == HEALTHY
    ensures StartGateway(process, start, cfg).1.Some?
  {
    var policy := ProxyPolicy(SocksUrl(cfg.port), false);
    assert EstablishPolicy(cfg.port, None, process.env, cfg.urls) == Ok(policy);
    assert Inject(process, cfg.port, Some(policy), cfg.urls).1 == Ok(policy);
  }

  lemma BracketMalformed(env: Environment, urls: UrlParser)
    requires urls.local(OPEN_BRACKET) == None && "TOR_ENABLED" !in env
    requires forall n | n in PLATFORM_PROXIES :: n in env && env[n] == OPEN_BRACKET
    ensures Malformed(env, urls) && !RetireRaises(env, urls) && Retire(env, urls) == env
  {
    NamesDisjoint();
    TruthyDigits();
    RetiresWhen(env, urls);
    assert forall i | 0 <= i < |OPEN_BRACKET| :: !IsSpace(OPEN_BRACKET[i]);
    TrimPlain(OPEN_BRACKET);
    assert PLATFORM_PROXIES[0] in PLATFORM_PROXIES;
  }

  lemma RetiredNotAt(env: Environment, urls: UrlParser, url: string)
    requires AllAt(Retire(env, urls), url)
    ensures AllAt(env, url)
  {
    forall n | n in GENERIC_PROXIES
      ensures n in env && env[n] == url
    {
      GenericGet(env, urls, n);
      assert Get(Retire(env, urls), n) == Some(url);
    }
  }

  /** A start that raises brings the eight variables to the live endpoint only if all four layers
      had passed (and the write of `.env` then failed). */
  lemma FailedStart(process: State, start: StartScript, cfg: Config)
    requires StartGateway(process, start, cfg).1.None? && cfg.port != 1
    requires AllAt(StartGateway(process, start, cfg).0.env, SocksUrl(cfg.port))
    ensures || AllAt(process.env, SocksUrl(cfg.port))
            || (var status := StatusOf(Start(Tor(Stopped, false), start.start), start.verify, true);
                status.Some? && status.value.Healthy() && start.writesEnv && !start.envWrites)
  {
    var clean := process.(env := Retire(process.env, cfg.urls));
    var policy := EstablishPolicy(cfg.port, None, clean.env, cfg.urls);
    var end := StartGateway(process, start, cfg).0;
    if end == clean {
      RetiredNotAt(process.env, cfg.urls, SocksUrl(cfg.port));
    } else if end == Block(clean, cfg.urls) && !RetireRaises(clean.env, cfg.urls) {
      NotBothAt(clean, cfg);
    } else {
      InjectOutcome(clean, cfg.port, Some(policy.value), cfg.urls);
    }
  }

  lemma NotBothAt(s: State, cfg: Config)
    requires cfg.port > 1 && !RetireRaises(s.env, cfg.urls)
    ensures !AllAt(Block(s, cfg.urls).env, SocksUrl(cfg.port))
  {
    BlockedAllAt(s, cfg.urls);
    DeadUrl();
    UrlInjective(cfg.port, 1);
    assert "ALL_PROXY" in GENERIC_PROXIES;
  }

  // ---- recovery by mode --------------------------------------------------------------

  /** A restart whose last verification is good resets the count; it puts the live endpoint back
      out of strict mode, and in strict mode validation refuses and all eight stay dead. If the block
      at its head raises, the restart has done nothing. */
  lemma RecoveryByMode(w: Watch, script: RestartScript, cfg: Config)
    requires 1 <= cfg.port <= 65535 && 0 <= w.count < cfg.maxRestarts && cfg.backoff >= 0.0 && script.blockWrites
    requires StatusOf(Start(Tor(Stopped, false), script.start), script.verify, true).Some?
    requires StatusOf(Start(Tor(Stopped, false), script.start), script.verify, true).value.Good()
    ensures RetireRaises(w.process.env, cfg.urls) ==> Restart(w, script, cfg) == (w, true)
    ensures !RetireRaises(w.process.env, cfg.urls) ==>
            var (end, raised) := Restart(w, script, cfg);
            && !raised && end.count == 0 && end.waits == [] && end.starts == w.starts + 1
            && end.last.Good()
            && (!StrictMode(w.process.env) ==> AllAt(end.process.env, SocksUrl(cfg.port)))
            && (StrictMode(w.process.env) && cfg.port != 1 ==> AllAt(end.process.env, DEAD_URL))
  {
    if !RetireRaises(w.process.env, cfg.urls) {
      var blocked := Block(w.process, cfg.urls);
      BlockedAllAt(w.process, cfg.urls);
      BlockedRaisesNot(w.process, cfg.urls);
      InjectBlocked(blocked, cfg.port, cfg.urls);
      InjectedAllAt(blocked, cfg.port, None, cfg.urls);
      RetireAllAt(blocked.env, cfg.urls, DEAD_URL);
      DelaySign(w.count, cfg);
    }
  }

  /** A block that succeeds switches `TOR_ENABLED` off, so no retirement can raise after it. */
  lemma BlockedRaisesNot(s: State, urls: UrlParser)
    requires !RetireRaises(s.env, urls)
    ensures !RetireRaises(Block(s, urls).env, urls)
  {
    BlockedValue(s, urls, "TOR_ENABLED");
    NamesDisjoint();
    TruthyDigits();
    assert Get(Block(s, urls).env, "TOR_ENABLED") == Some("0");
    RetiresWhen(Block(s, urls).env, urls);
  }

  lemma DelaySign(n: nat, cfg: Config)
    ensures Delay(n, cfg) < 0.0 <==> cfg.backoff < 0.0
  {
    Pow2Positive(n);
    var a, b := cfg.backoff, Pow2(n) as real;
    assert b >= 1.0;
    assert a >= 0.0 ==> a * b >= 0.0;
    assert a < 0.0 ==> a * b < 0.0;
  }

  lemma {:induction false} Pow2Positive(n: nat)
    ensures Pow2(n) >= 1
  {
    if n > 0 {
      Pow2Positive(n - 1);
    }
  }

  predicate StrictlyBlocked(w: Watch, cfg: Config) {
    1 < cfg.port <= 65535 && StrictMode(w.process.env) && Blocked(w)
  }

  /** One attempt either leaves the process alone or injects. */
  lemma AttemptApplies(w: Watch, script: RestartScript, cfg: Config)
    ensures var next := Attempt(w, script, cfg);
            next.process == w.process || next.process == Apply(w.process, InjectOp(cfg.port, None), cfg.urls)
  {
  }

  /** After its block a restart either leaves the process alone or injects. */
  lemma RestartApplies(w: Watch, script: RestartScript, cfg: Config)
    requires w.count >= 0
    ensures var blocked, next := Apply(w.process, BlockOp, cfg.urls), Restart(w, script, cfg).0;
            next.process == blocked || next.process == Apply(blocked, InjectOp(cfg.port, None), cfg.urls)
  {
    var blocked := w.(process := Block(w.process, cfg.urls), writes := w.writes + 1);
    var delay := Delay(w.count, cfg);
    AttemptApplies(
      blocked.(count := w.count + 1, waits := w.waits + [delay], tor := Tor(Stopped, false)), script, cfg);
  }

  lemma InjectStaysBlocked(s: State, cfg: Config)
    requires 1 < cfg.port <= 65535 && StrictMode(s.env) && AllAt(s.env, DEAD_URL)
    ensures var env := Apply(s, InjectOp(cfg.port, None), cfg.urls).env; StrictMode(env) && AllAt(env, DEAD_URL)
  {
    InjectBlocked(s, cfg.port, cfg.urls);
    InjectedAllAt(s, cfg.port, None, cfg.urls);
    RetireAllAt(s.env, cfg.urls, DEAD_URL);
  }

  lemma RestartStaysBlocked(w: Watch, script: RestartScript, cfg: Config)
    requires 1 < cfg.port <= 65535 && StrictMode(w.process.env) && w.count >= 0
    requires Blocked(w) || !RetireRaises(w.process.env, cfg.urls)
    ensures StrictlyBlocked(Restart(w, script, cfg).0, cfg)
  {
    if !RetireRaises(w.process.env, cfg.urls) {
      BlockedAllAt(w.process, cfg.urls);
    }
    RestartApplies(w, script, cfg);
    InjectStaysBlocked(Apply(w.process, BlockOp, cfg.urls), cfg);
  }

  lemma CheckStaysBlocked(w: Watch, script: CheckScript, cfg: Config)
    requires StrictlyBlocked(w, cfg) && w.count >= 0
    ensures StrictlyBlocked(Check(w, script, cfg).0, cfg)
  {
    var status := StatusOf(w.tor, script.status, true);
    if status.Some? {
      var seen := w.(last := status.value, measured := script.status);
      RestartStaysBlocked(if status.value.Good() then seen.(count := 0, waits := []) else seen, script.restart, cfg);
    }
  }

  /** In strict mode a blocked gateway stays blocked: no later check, healthy or not, unblocks it. */
  lemma {:induction false} StrictStaysBlocked(w: Watch, scripts: seq<CheckScript>, cfg: Config)
    requires StrictlyBlocked(w, cfg) && w.count >= 0
    ensures StrictlyBlocked(RunChecks(w, scripts, cfg), cfg)
    decreases |scripts|
  {
    if scripts != [] {
      CheckStaysBlocked(w, scripts[0], cfg);
      var next := AfterCheck(w, scripts, cfg);
      StrictStaysBlocked(next, scripts[1..], cfg);
    }
  }

  // ---- backoff ---------------------------------------------------------------------

  function Cap(cfg: Config): int {
    if cfg.maxRestarts < 0 then 0 else cfg.maxRestarts
  }

  /** One wait for each start since the count was last reset, each twice the one before. */
  predicate BackedOff(w: Watch, cfg: Config) {
    && 0 <= w.count <= Cap(cfg)
    && |w.waits| == w.count
    && forall i | 0 <= i < |w.waits| :: w.waits[i] == Delay(i, cfg)
  }

  lemma AttemptCounts(w: Watch, script: RestartScript, cfg: Config)
    ensures var next := Attempt(w, script, cfg);
            && next.starts == w.starts + 1
            && ((next.count == w.count && next.waits == w.waits) || (next.count == 0 && next.waits == []))
  {
  }

  lemma BackOffBacksOff(w: Watch, script: RestartScript, cfg: Config)
    requires BackedOff(w, cfg) && w.count < cfg.maxRestarts
    ensures BackedOff(BackOff(w, script, cfg).0, cfg)
    ensures w.starts <= BackOff(w, script, cfg).0.starts <= w.starts + 1
    ensures BackOff(w, script, cfg).0.starts > w.starts ==> Delay(w.count, cfg) >= 0.0
  {
    var waiting := w.(count := w.count + 1, waits := w.waits + [Delay(w.count, cfg)], tor := Tor(Stopped, false));
    AttemptCounts(waiting, script, cfg);
  }

  lemma RestartBacksOff(w: Watch, script: RestartScript, cfg: Config)
    requires BackedOff(w, cfg)
    ensures BackedOff(Restart(w, script, cfg).0, cfg)
    ensures Restart(w, script, cfg).0.starts <= w.starts + 1
    ensures w.count >= cfg.maxRestarts ==>
              var raises := RetireRaises(w.process.env, cfg.urls);
              Restart(w, script, cfg).0
              == w.(process := Block(w.process, cfg.urls), writes := if raises then w.writes else w.writes + 1)
    ensures Restart(w, script, cfg).0.starts > w.starts ==>
              w.count < cfg.maxRestarts && Delay(w.count, cfg) >= 0.0
  {
    var blocked := w.(process := Block(w.process, cfg.urls), writes := w.writes + 1);
    if w.count < cfg.maxRestarts {
      BackOffBacksOff(blocked, script, cfg);
    }
  }

  lemma CheckBacksOff(w: Watch, script: CheckScript, cfg: Config)
    requires BackedOff(w, cfg)
    ensures BackedOff(Check(w, script, cfg).0, cfg)
  {
    var status := StatusOf(w.tor, script.status, true);
    if status.Some? {
      var seen := w.(last := status.value, measured := script.status);
      RestartBacksOff(if status.value.Good() then seen.(count := 0, waits := []) else seen, script.restart, cfg);
    }
  }

  lemma {:induction false} RunBacksOff(w: Watch, scripts: seq<CheckScript>, cfg: Config)
    requires BackedOff(w, cfg)
    ensures BackedOff(RunChecks(w, scripts, cfg), cfg)
    decreases |scripts|
  {
    if scripts != [] {
      CheckBacksOff(w, scripts[0], cfg);
      var next := AfterCheck(w, scripts, cfg);
      RunBacksOff(next, scripts[1..], cfg);
    }
  }

  function Sum(xs: seq<real>): real {
    if xs == [] then 0.0 else Sum(xs[..|xs| - 1]) + xs[|xs| - 1]
  }

  /** `backoff * (2^n - 1)` */
  function TotalDelay(n: nat, cfg: Config): real {
    cfg.backoff * ((Pow2(n) - 1) as real)
  }

  lemma {:induction false} SumOfDelays(waits: seq<real>, cfg: Config)
    requires forall i | 0 <= i < |waits| :: waits[i] == Delay(i, cfg)
    ensures Sum(waits) == TotalDelay(|waits|, cfg)
  {
    if waits != [] {
      var n := |waits| - 1;
      SumOfDelays(waits[..n], cfg);
      DistributeReal(cfg.backoff, (Pow2(n) - 1) as real, Pow2(n) as real);
      assert (Pow2(n + 1) - 1) as real == (Pow2(n) - 1) as real + Pow2(n) as real;
    } else {
      assert cfg.backoff * 0.0 == 0.0;
    }
  }

  lemma DistributeReal(a: real, b: real, c: real)
    ensures a * b + a * c == a * (b + c)
  {
  }

  lemma {:induction false} Pow2Monotone(m: nat, n: nat)
    requires m <= n
    ensures Pow2(m) <= Pow2(n)
    decreases n - m
  {
    if m < n {
      Pow2Positive(m);
      Pow2Monotone(m + 1, n);
    }
  }

  lemma ScaleReal(a: real, b: real, c: real)
    requires a >= 0.0 && b <= c
    ensures a * b <= a * c
  {
  }

  /** After any checks of a started gateway: the count is within its limit, the k-th wait since the
      last reset is `backoff * 2^(k-1)`, and all of them together `backoff * (2^k - 1)`, hence never
      more than `backoff * (2^max - 1)`. */
  lemma BackoffBound(process: State, start: StartScript, w0: Watch, scripts: seq<CheckScript>, cfg: Config)
    requires StartGateway(process, start, cfg).1 == Some(w0) && w0.count >= 0 && cfg.maxRestarts >= 0
    ensures var w := RunChecks(w0, scripts, cfg);
            && 0 <= w.count <= cfg.maxRestarts && |w.waits| == w.count
            && (forall k | 0 <= k < w.count :: w.waits[k] == Delay(k, cfg))
            && Sum(w.waits) == TotalDelay(w.count, cfg)
            && (cfg.backoff >= 0.0 ==> Sum(w.waits) <= TotalDelay(cfg.maxRestarts, cfg))
  {
    StartedFresh(process, start, w0, cfg);
    RunBacksOff(w0, scripts, cfg);
    WaitsBounded(RunChecks(w0, scripts, cfg), cfg);
  }

  lemma StartedFresh(process: State, start: StartScript, w0: Watch, cfg: Config)
    requires StartGateway(process, start, cfg).1 == Some(w0)
    ensures w0.count == 0 && BackedOff(w0, cfg)
  {
  }

  lemma WaitsBounded(w: Watch, cfg: Config)
    requires BackedOff(w, cfg) && cfg.maxRestarts >= 0
    ensures Sum(w.waits) == TotalDelay(w.count, cfg)
    ensures cfg.backoff >= 0.0 ==> Sum(w.waits) <= TotalDelay(cfg.maxRestarts, cfg)
  {
    SumOfDelays(w.waits, cfg);
    Pow2Monotone(w.count, cfg.maxRestarts);
    if cfg.backoff >= 0.0 {
      ScaleReal(cfg.backoff, (Pow2(w.count) - 1) as real, (Pow2(cfg.maxRestarts) - 1) as real);
    }
  }

  /** The check never sees a good status. */
  predicate NeverGood(t: Tor, scripts: seq<CheckScript>) {
    forall i | 0 <= i < |scripts| ::
      var status := StatusOf(t, scripts[i].status, true); status.Some? ==> !status.value.Good()
  }

  lemma CheckGivenUp(w: Watch, script: CheckScript, cfg: Config)
    requires 0 <= w.count && cfg.maxRestarts <= w.count
    requires var status := StatusOf(w.tor, script.status, true); status.Some? ==> !status.value.Good()
    ensures var next := Check(w, script, cfg).0;
            && next.starts == w.starts && next.tor == w.tor && next.count == w.count && next.waits == w.waits
            && (AllAt(w.process.env, DEAD_URL) ==> AllAt(next.process.env, DEAD_URL))
  {
    if !RetireRaises(w.process.env, cfg.urls) {
      BlockedAllAt(w.process, cfg.urls);
    }
  }

  /** Once the limit is reached, nothing is stopped or started again until a check sees a good status. */
  lemma {:induction false} GivenUpStaysDown(w: Watch, scripts: seq<CheckScript>, cfg: Config)
    requires 0 <= w.count && cfg.maxRestarts <= w.count && NeverGood(w.tor, scripts)
    ensures var end := RunChecks(w, scripts, cfg);
            && end.starts == w.starts && end.tor == w.tor && end.count == w.count && end.waits == w.waits
            && (AllAt(w.process.env, DEAD_URL) ==> AllAt(end.process.env, DEAD_URL))
    decreases |scripts|
  {
    if scripts != [] {
      var next := Check(w, scripts[0], cfg).0;
      CheckGivenUp(w, scripts[0], cfg);
      assert NeverGood(next.tor, scripts[1..]) by {
        assert forall i | 0 <= i < |scripts| - 1 :: scripts[1..][i] == scripts[i + 1];
      }
      GivenUpStaysDown(next, scripts[1..], cfg);
    }
  }

  // ---- circuit rotation -----------------------------------------------------------------

  /** How many of the checks moved the time of the last rotation. */
  function Rotations(w: Watch, scripts: seq<CheckScript>, cfg: Config): nat
    requires w.count >= 0
    decreases |scripts|
  {
    if scripts == [] then 0
    else
      var next := After(w, scripts[0], cfg);
      (if next.lastRotation != w.lastRotation then 1 else 0) + Rotations(next, scripts[1..], cfg)
  }

  /** `n` intervals. */
  function Intervals(n: nat, cfg: Config): real {
    if n == 0 then 0.0 else cfg.rotateInterval + Intervals(n - 1, cfg)
  }

  lemma CheckRotates(w: Watch, script: CheckScript, cfg: Config)
    requires w.count >= 0
    ensures var next := After(w, script, cfg);
            next.lastRotation != w.lastRotation ==>
              && next.lastRotation == script.now && script.now - w.lastRotation > cfg.rotateInterval
              && StatusOf(w.tor, script.status, true).Some? && StatusOf(w.tor, script.status, true).value.Good()
  {
  }

  /** Circuits rotate on good checks only and further apart than the interval: over any run the time
      of the last rotation moves on by at least an interval for each. */
  lemma {:induction false} RotationRate(w: Watch, scripts: seq<CheckScript>, cfg: Config)
    requires w.count >= 0
    ensures RunChecks(w, scripts, cfg).lastRotation - w.lastRotation >= Intervals(Rotations(w, scripts, cfg), cfg)
    decreases |scripts|
  {
    if scripts != [] {
      var next := AfterCheck(w, scripts, cfg);
      CheckRotates(w, scripts[0], cfg);
      RotationRate(next, scripts[1..], cfg);
    }
  }

  // ---- and after the run, a clear ------------------------------------------------------

  /** The environment can still be restored to `start`. */
  ghost predicate Restorable(s: State, start: Environment, urls: UrlParser) {
    exists retired, blocked :: Touched(s, start, retired, blocked) && Settled(s, start, retired, urls)
  }

  lemma ApplyRestorable(s: State, start: Environment, op: Op, urls: UrlParser)
    requires Restorable(s, start, urls)
    ensures Restorable(Apply(s, op, urls), start, urls)
  {
    var retired, blocked :| Touched(s, start, retired, blocked) && Settled(s, start, retired, urls);
    ApplyTouches(s, start, retired, blocked, op, urls);
  }

  /** What injections and blocks keep. */
  ghost predicate KeptByOps(inv: State -> bool, urls: UrlParser) {
    forall s, op :: inv(s) ==> inv(Apply(s, op, urls))
  }

  lemma RestartKeeps(w: Watch, script: RestartScript, cfg: Config, inv: State -> bool)
    requires KeptByOps(inv, cfg.urls) && inv(w.process) && w.count >= 0
    ensures inv(Restart(w, script, cfg).0.process)
  {
    RestartApplies(w, script, cfg);
    var blocked := Apply(w.process, BlockOp, cfg.urls);
    var injected := Apply(blocked, InjectOp(cfg.port, None), cfg.urls);
    assert inv(blocked) && inv(injected);
  }

  lemma CheckKeeps(w: Watch, script: CheckScript, cfg: Config, inv: State -> bool)
    requires KeptByOps(inv, cfg.urls) && inv(w.process) && w.count >= 0
    ensures inv(Check(w, script, cfg).0.process)
  {
    var status := StatusOf(w.tor, script.status, true);
    if status.Some? {
      var seen := w.(last := status.value, measured := script.status);
      RestartKeeps(if status.value.Good() then seen.(count := 0, waits := []) else seen, script.restart, cfg, inv);
    }
  }

  /** To the environment, a run of checks is a run of injections and blocks. */
  lemma {:induction false} RunKeeps(w: Watch, scripts: seq<CheckScript>, cfg: Config, inv: State -> bool)
    requires KeptByOps(inv, cfg.urls) && inv(w.process) && w.count >= 0
    ensures inv(RunChecks(w, scripts, cfg).process)
    decreases |scripts|
  {
    if scripts != [] {
      CheckKeeps(w, scripts[0], cfg, inv);
      var next := AfterCheck(w, scripts, cfg);
      RunKeeps(next, scripts[1..], cfg, inv);
    }
  }

  /** Start, any checks, clear: every owned variable has the value, or the absence, it had before. */
  lemma GatewayLeavesNoTrace(env: Environment, start: StartScript, w: Watch, scripts: seq<CheckScript>, cfg: Config,
                             k: string)
    requires StartGateway(State(env, None), start, cfg).1 == Some(w) && w.count >= 0 && k in Owned()
    ensures Get(Clear(RunChecks(w, scripts, cfg).process, cfg.urls).env, k) == Get(env, k)
  {
    var clean := Retire(env, cfg.urls);
    StartedRestorable(env, start, w, cfg);
    var inv: State -> bool := s => Restorable(s, clean, cfg.urls);
    forall s, op | inv(s)
      ensures inv(Apply(s, op, cfg.urls))
    {
      ApplyRestorable(s, clean, op, cfg.urls);
    }
    RunKeeps(w, scripts, cfg, inv);
    RestorableRestores(RunChecks(w, scripts, cfg).process, clean, cfg.urls, k);
    OwnedNames("");
    RetireGet(env, cfg.urls, k);
  }

  lemma StartedRestorable(env: Environment, start: StartScript, w: Watch, cfg: Config)
    requires StartGateway(State(env, None), start, cfg).1 == Some(w)
    ensures Restorable(w.process, Retire(env, cfg.urls), cfg.urls)
  {
    var clean := Retire(env, cfg.urls);
    var policy := EstablishPolicy(cfg.port, None, clean, cfg.urls).value;
    FirstInjection(clean, cfg.port, Some(policy), cfg.urls);
    assert w.process == Inject(State(clean, None), cfg.port, Some(policy), cfg.urls).0;
  }

  lemma RestorableRestores(s: State, start: Environment, urls: UrlParser, k: string)
    requires Restorable(s, start, urls) && k in Owned()
    ensures Get(Clear(s, urls).env, k) == Get(start, k)
  {
    OwnedNames("");
    RestoreGet(s.env, start, k);
    RetireGet(Restore(s.env, SnapshotOf(start)), urls, k);
  }
}
