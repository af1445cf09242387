/** Clearing undoes every run of injections and blocks, exactly. */
module GatewayLaws {
  import opened Text
  import opened Policy
  import opened Gateway

  /** The names an injection sets and a snapshot records. */
  function Owned(): set<string> {
    PolicyEnvironment("").Keys
  }

  lemma OwnedNames(url: string)
    ensures PolicyEnvironment(url).Keys == Owned() == (set n | n in GENERIC_PROXIES)
            + {"TOR_ENABLED", "NO_PROXY", "no_proxy"}
    ensures BlockedValues().Keys == (set n | n in GENERIC_PROXIES) + {"TOR_ENABLED", "TOR_HEALTH"}
    ensures PolicyEnvironment(url)["TOR_ENABLED"] == "1"
            && BlockedValues()["TOR_HEALTH"] == BlockedValues()["TOR_ENABLED"] == "0"
    ensures "TOR_HEALTH" !in Owned() && "TOR_STRICT_MODE" !in Owned()
    ensures forall n | n in PLATFORM_PROXIES :: n !in Owned() && n != "TOR_HEALTH"
  {
    OwnedKeys(url);
    FixedValues(url);
    Unshared(Owned());
  }

  lemma FixedValues(url: string)
    ensures BlockedValues().Keys == (set n | n in GENERIC_PROXIES) + {"TOR_ENABLED", "TOR_HEALTH"}
    ensures PolicyEnvironment(url)["TOR_ENABLED"] == "1"
            && BlockedValues()["TOR_HEALTH"] == BlockedValues()["TOR_ENABLED"] == "0"
  {
  }

  lemma Unshared(owned: set<string>)
    requires owned == (set n | n in GENERIC_PROXIES) + {"TOR_ENABLED", "NO_PROXY", "no_proxy"}
    ensures "TOR_HEALTH" !in owned && "TOR_STRICT_MODE" !in owned
    ensures forall n | n in PLATFORM_PROXIES :: n !in owned && n != "TOR_HEALTH"
  {
    NamesDisjoint();
  }

  lemma OwnedKeys(url: string)
    ensures PolicyEnvironment(url).Keys == Owned() == (set n | n in GENERIC_PROXIES)
            + {"TOR_ENABLED", "NO_PROXY", "no_proxy"}
  {
  }

  /** What the fourteen platform variables are, whatever `TOR_ENABLED` says. */
  function Platform(env: Environment, urls: UrlParser): Legacy {
    LegacyProxyValue(env["TOR_ENABLED" := "1"], urls.local)
  }

  /** A complete legacy footprint in the environment. */
  predicate Footprint(env: Environment, urls: UrlParser) {
    Platform(env, urls).Proven?
  }

  /** All fourteen names with one stripped value, on which `urlsplit` raises. */
  predicate Malformed(env: Environment, urls: UrlParser) {
    Platform(env, urls).Raises?
  }

  predicate Enabled(env: Environment) {
    "TOR_ENABLED" in env && Truthy(env["TOR_ENABLED"])
  }

  lemma RetiresWhen(env: Environment, urls: UrlParser)
    ensures LegacyProxyValue(env, urls.local) == if Enabled(env) then Platform(env, urls) else Absent
  {
    TruthyDigits();
    NamesDisjoint();
    if Enabled(env) {
      LegacyDepends(env, env["TOR_ENABLED" := "1"], urls.local);
    }
  }

  lemma PlatformDepends(a: Environment, b: Environment, urls: UrlParser)
    requires forall n | n in PLATFORM_PROXIES :: Get(a, n) == Get(b, n)
    ensures Platform(a, urls) == Platform(b, urls)
  {
    NamesDisjoint();
    var a1, b1 := a["TOR_ENABLED" := "1"], b["TOR_ENABLED" := "1"];
    forall n | n in PLATFORM_PROXIES
      ensures (n in a1 <==> n in b1) && (n in a1 ==> a1[n] == b1[n])
    {
      assert Get(a, n) == Get(b, n);
    }
  }

  lemma NoPlatformWithout(env: Environment, urls: UrlParser)
    requires forall n | n in PLATFORM_PROXIES :: Get(env, n) == None
    ensures Platform(env, urls) == Absent
  {
    NamesDisjoint();
    assert Get(env, PLATFORM_PROXIES[0]) == None;
  }

  datatype Op = InjectOp(port: int, policy: Option<ProxyPolicy>) | BlockOp

  function Apply(s: State, op: Op, urls: UrlParser): State {
    match op
    case InjectOp(port, policy) => Inject(s, port, policy, urls).0
    case BlockOp => Block(s, urls)
  }

  function Run(s: State, ops: seq<Op>, urls: UrlParser): State
    decreases |ops|
  {
    if ops == [] then s else Run(Apply(s, ops[0], urls), ops[1..], urls)
  }

  /** The state differs from `start` only in the owned names, the health flag if something
      blocked, and the platform names if a footprint was retired. */
  ghost predicate Touched(s: State, start: Environment, retired: bool, blocked: bool) {
    && s.snapshot == Some(SnapshotOf(start))
    && (forall k | k !in Owned() ::
          Get(s.env, k) == if k == "TOR_HEALTH" && blocked then Some("0")
                           else if retired && k in PLATFORM_PROXIES then None
                           else Get(start, k))
  }

  /** A retirement is still to come or has happened already. Over malformed platform variables every
      retirement raises. */
  predicate Settled(s: State, start: Environment, retired: bool, urls: UrlParser) {
    && (retired ==> Footprint(start, urls))
    && (retired || !Footprint(start, urls) || Enabled(s.env))
    && (Malformed(start, urls) ==> Enabled(s.env))
  }

  lemma RetireGet(env: Environment, urls: UrlParser, k: string)
    ensures Get(Retire(env, urls), k)
         == if Footprint(env, urls) && Enabled(env) && k in PLATFORM_PROXIES then None else Get(env, k)
  {
    RetiresWhen(env, urls);
  }

  /** Every operation retires first, so one operation settles the platform names. */
  lemma RetireTouches(s: State, start: Environment, retired: bool, blocked: bool, urls: UrlParser)
    requires Touched(s, start, retired, blocked) && Settled(s, start, retired, urls)
    ensures Touched(s.(env := Retire(s.env, urls)), start, Footprint(start, urls), blocked)
    ensures RetireRaises(s.env, urls) <==> Malformed(start, urls)
  {
    OwnedNames("");
    if retired {
      NoPlatformWithout(s.env, urls);
    } else {
      PlatformDepends(s.env, start, urls);
    }
    RetiresWhen(s.env, urls);
    forall k | k !in Owned()
      ensures Get(Retire(s.env, urls), k) == if k == "TOR_HEALTH" && blocked then Some("0")
                                             else if Footprint(start, urls) && k in PLATFORM_PROXIES then None
                                             else Get(start, k)
    {
      RetireGet(s.env, urls, k);
    }
  }

  lemma InjectOutcome(s: State, port: int, policy: Option<ProxyPolicy>, urls: UrlParser)
    ensures var (s', r) := Inject(s, port, policy, urls);
            if r.Ok? then
              && s'.snapshot == Some(if s.snapshot.Some? then s.snapshot.value else SnapshotOf(Retire(s.env, urls)))
              && s'.env == Retire(s.env, urls) + PolicyEnvironment(SocksUrl(port))
            else s' == s.(env := Retire(s.env, urls))
  {
  }

  /** An injection writes owned names only, successful or not. */
  lemma InjectGet(s: State, port: int, policy: Option<ProxyPolicy>, urls: UrlParser, k: string)
    requires k !in Owned()
    ensures Get(Inject(s, port, policy, urls).0.env, k) == Get(Retire(s.env, urls), k)
  {
    var (after, outcome) := Inject(s, port, policy, urls);
    InjectOutcome(s, port, policy, urls);
    if outcome.Ok? {
      Unowned(Retire(s.env, urls), SocksUrl(port), k);
    }
  }

  lemma Unowned(env: Environment, url: string, k: string)
    requires k !in Owned()
    ensures Get(env + PolicyEnvironment(url), k) == Get(env, k)
  {
    OwnedNames(url);
  }

  lemma InjectTouches(s: State, start: Environment, retired: bool, blocked: bool, port: int,
                      policy: Option<ProxyPolicy>, urls: UrlParser)
    requires Touched(s, start, retired, blocked) && Settled(s, start, retired, urls)
    ensures Touched(Inject(s, port, policy, urls).0, start, Footprint(start, urls), blocked)
  {
    var clean := s.(env := Retire(s.env, urls));
    var s' := Inject(s, port, policy, urls).0;
    RetireTouches(s, start, retired, blocked, urls);
    InjectOutcome(s, port, policy, urls);
    forall k | k !in Owned()
      ensures Get(s'.env, k) == Get(clean.env, k)
    {
      InjectGet(s, port, policy, urls, k);
    }
  }

  lemma BlockGet(s: State, urls: UrlParser, k: string)
    requires k !in Owned() && !RetireRaises(s.env, urls)
    ensures Get(Block(s, urls).env, k) == if k == "TOR_HEALTH" then Some("0") else Get(Retire(s.env, urls), k)
  {
    OwnedNames("");
  }

  lemma BlockTouches(s: State, start: Environment, retired: bool, blocked: bool, urls: UrlParser)
    requires Touched(s, start, retired, blocked) && Settled(s, start, retired, urls)
    ensures Touched(Block(s, urls), start, Footprint(start, urls), blocked || !Malformed(start, urls))
  {
    RetireTouches(s, start, retired, blocked, urls);
    if !Malformed(start, urls) {
      var clean := s.(env := Retire(s.env, urls));
      forall k | k !in Owned()
        ensures Get(Block(s, urls).env, k) == if k == "TOR_HEALTH" then Some("0") else Get(clean.env, k)
      {
        BlockGet(s, urls, k);
      }
    }
  }

  lemma ApplyTouches(s: State, start: Environment, retired: bool, blocked: bool, op: Op, urls: UrlParser)
    requires Touched(s, start, retired, blocked) && Settled(s, start, retired, urls)
    ensures Touched(Apply(s, op, urls), start, Footprint(start, urls),
                    blocked || (op.BlockOp? && !Malformed(start, urls)))
    ensures Settled(Apply(s, op, urls), start, Footprint(start, urls), urls)
  {
    RetireTouches(s, start, retired, blocked, urls);
    match op {
      case InjectOp(port, policy) => InjectTouches(s, start, retired, blocked, port, policy, urls);
      case BlockOp => BlockTouches(s, start, retired, blocked, urls);
    }
  }

  predicate Blocks(ops: seq<Op>) {
    exists i | 0 <= i < |ops| :: ops[i].BlockOp?
  }

  lemma BlocksCons(ops: seq<Op>)
    requires ops != []
    ensures Blocks(ops) <==> ops[0].BlockOp? || Blocks(ops[1..])
  {
    if Blocks(ops) && !ops[0].BlockOp? {
      var i :| 0 <= i < |ops| && ops[i].BlockOp?;
      assert ops[1..][i - 1].BlockOp?;
    }
    if Blocks(ops[1..]) {
      var i :| 0 <= i < |ops[1..]| && ops[1..][i].BlockOp?;
      assert ops[i + 1].BlockOp?;
    }
  }

  lemma {:induction false} RunTouches(s: State, start: Environment, retired: bool, blocked: bool, ops: seq<Op>,
                                      urls: UrlParser)
    requires Touched(s, start, retired, blocked) && Settled(s, start, retired, urls)
    ensures Touched(Run(s, ops, urls), start, if ops == [] then retired else Footprint(start, urls),
                    blocked || (Blocks(ops) && !Malformed(start, urls)))
    decreases |ops|
  {
    if ops != [] {
      ApplyTouches(s, start, retired, blocked, ops[0], urls);
      BlocksCons(ops);
      RunTouches(Apply(s, ops[0], urls), start, Footprint(start, urls),
                 blocked || (ops[0].BlockOp? && !Malformed(start, urls)), ops[1..], urls);
    }
  }

  lemma SnapshotRetired(env: Environment, urls: UrlParser)
    ensures SnapshotOf(Retire(env, urls)) == SnapshotOf(env)
  {
    OwnedNames("");
    forall k | k in Owned()
      ensures Get(Retire(env, urls), k) == Get(env, k)
    {
      RetireGet(env, urls, k);
    }
  }

  lemma InjectedEnabled(env: Environment, port: int)
    ensures Enabled(env + PolicyEnvironment(SocksUrl(port)))
  {
    OwnedNames(SocksUrl(port));
    TruthyDigits();
  }

  /** The first successful injection records the environment and touches only owned names. */
  lemma FirstInjection(start: Environment, port: int, policy: Option<ProxyPolicy>, urls: UrlParser)
    requires Inject(State(start, None), port, policy, urls).1.Ok?
    ensures var s := Inject(State(start, None), port, policy, urls).0;
            && Touched(s, start, Footprint(start, urls) && Enabled(start), false)
            && Settled(s, start, Footprint(start, urls) && Enabled(start), urls)
  {
    var s := Inject(State(start, None), port, policy, urls).0;
    InjectOutcome(State(start, None), port, policy, urls);
    SnapshotRetired(start, urls);
    InjectedEnabled(Retire(start, urls), port);
    forall k | k !in Owned()
      ensures Get(s.env, k)
           == if Footprint(start, urls) && Enabled(start) && k in PLATFORM_PROXIES then None else Get(start, k)
    {
      InjectGet(State(start, None), port, policy, urls, k);
      RetireGet(start, urls, k);
    }
  }

  lemma RestoreGet(env: Environment, start: Environment, k: string)
    ensures Get(Restore(env, SnapshotOf(start)), k) == if k in Owned() then Get(start, k) else Get(env, k)
  {
    var snapshot := SnapshotOf(start);
    assert snapshot.Keys == Owned();
    if k in Owned() {
      assert snapshot[k] == Get(start, k);
    }
  }

  lemma RestoredPlatform(s: State, start: Environment, retired: bool, blocked: bool, urls: UrlParser)
    requires Touched(s, start, retired, blocked)
    ensures var restored := Restore(s.env, SnapshotOf(start));
            Platform(restored, urls) == if retired then Absent else Platform(start, urls)
  {
    OwnedNames("");
    var restored := Restore(s.env, SnapshotOf(start));
    forall n | n in PLATFORM_PROXIES
      ensures Get(restored, n) == if retired then None else Get(start, n)
    {
      RestoreGet(s.env, start, n);
    }
    if retired {
      NoPlatformWithout(restored, urls);
    } else {
      PlatformDepends(restored, start, urls);
    }
  }

  lemma RestoredEnabled(s: State, start: Environment)
    ensures Enabled(Restore(s.env, SnapshotOf(start))) == Enabled(start)
  {
    OwnedNames("");
    RestoreGet(s.env, start, "TOR_ENABLED");
    assert Get(Restore(s.env, SnapshotOf(start)), "TOR_ENABLED") == Get(start, "TOR_ENABLED");
  }

  /** After the restoration there is nothing left to retire. */
  lemma RestoredIsSettled(s: State, start: Environment, retired: bool, blocked: bool, urls: UrlParser)
    requires Touched(s, start, retired, blocked)
    requires retired || !Footprint(start, urls) || !Enabled(start)
    ensures var restored := Restore(s.env, SnapshotOf(start));
            && Retire(restored, urls) == restored
            && (RetireRaises(restored, urls) <==> RetireRaises(start, urls) && !retired)
  {
    RetiresWhen(Restore(s.env, SnapshotOf(start)), urls);
    RetiresWhen(start, urls);
    RestoredPlatform(s, start, retired, blocked, urls);
    RestoredEnabled(s, start);
  }

  /** Clearing what any such run left restores every owned name, and leaves exactly two traces. It
      raises only if the environment it restores makes the retirement raise. */
  lemma ClearRestores(s: State, start: Environment, retired: bool, blocked: bool, urls: UrlParser, k: string)
    requires Touched(s, start, retired, blocked)
    requires retired || !Footprint(start, urls) || !Enabled(start)
    ensures Clear(s, urls).snapshot == None
    ensures RetireRaises(Restored(s), urls) <==> RetireRaises(start, urls) && !retired
    ensures Get(Clear(s, urls).env, k)
         == if k == "TOR_HEALTH" && blocked then Some("0")
            else if retired && k in PLATFORM_PROXIES then None
            else Get(start, k)
  {
    OwnedNames("");
    RestoredIsSettled(s, start, retired, blocked, urls);
    RestoreGet(s.env, start, k);
  }

  /** One successful injection, any injections and blocks, then a clear: the environment is the
      one before, but for `TOR_HEALTH=0` if anything blocked and a complete legacy footprint, which
      is gone if the environment said `TOR_ENABLED` or if any operation followed the injection. Over
      malformed platform variables every block raises and leaves no trace. The clear never raises. */
  lemma ExactRestore(start: Environment, port: int, policy: Option<ProxyPolicy>, ops: seq<Op>, urls: UrlParser,
                     k: string)
    requires Inject(State(start, None), port, policy, urls).1.Ok?
    ensures var last := Run(Inject(State(start, None), port, policy, urls).0, ops, urls);
            var final := Clear(last, urls);
            && final.snapshot == None && !RetireRaises(Restored(last), urls)
            && Get(final.env, k)
               == if k == "TOR_HEALTH" && Blocks(ops) && !Malformed(start, urls) then Some("0")
                  else if k in PLATFORM_PROXIES && Footprint(start, urls) && (Enabled(start) || ops != []) then None
                  else Get(start, k)
  {
    var first := Inject(State(start, None), port, policy, urls).0;
    var retired := Footprint(start, urls) && Enabled(start);
    FirstInjection(start, port, policy, urls);
    FirstRaisesNot(start, port, policy, urls);
    RunTouches(first, start, retired, false, ops, urls);
    ClearRestores(Run(first, ops, urls), start, if ops == [] then retired else Footprint(start, urls),
                  Blocks(ops) && !Malformed(start, urls), urls, k);
  }

  lemma FirstRaisesNot(start: Environment, port: int, policy: Option<ProxyPolicy>, urls: UrlParser)
    requires Inject(State(start, None), port, policy, urls).1.Ok?
    ensures !RetireRaises(start, urls)
  {
  }

  // ---- what each operation leaves in every variable -----------------------------------------

  lemma PolicyValues(url: string, k: string)
    ensures Get(PolicyEnvironment(url), k)
         == if k in GENERIC_PROXIES then Some(url)
            else if k == "TOR_ENABLED" then Some("1")
            else if k == "NO_PROXY" || k == "no_proxy" then Some(LOOPBACK_BYPASS)
            else None
  {
    NamesDisjoint();
  }

  /** After an injection every variable is known: routed, switched on, bypassing loopback only, or as
      retirement left it. */
  lemma InjectedValue(s: State, port: int, policy: Option<ProxyPolicy>, urls: UrlParser, k: string)
    requires Inject(s, port, policy, urls).1.Ok?
    ensures Get(Inject(s, port, policy, urls).0.env, k)
         == if k in GENERIC_PROXIES then Some(SocksUrl(port))
            else if k == "TOR_ENABLED" then Some("1")
            else if k == "NO_PROXY" || k == "no_proxy" then Some(LOOPBACK_BYPASS)
            else Get(Retire(s.env, urls), k)
  {
    InjectOutcome(s, port, policy, urls);
    PolicyValues(SocksUrl(port), k);
    Merged(Retire(s.env, urls), PolicyEnvironment(SocksUrl(port)), k);
  }

  lemma Merged(a: Environment, b: Environment, k: string)
    ensures Get(a + b, k) == if Get(b, k).Some? then Get(b, k) else Get(a, k)
  {
  }

  /** After a block every variable is known as well; one that raises has changed none. */
  lemma BlockedValue(s: State, urls: UrlParser, k: string)
    ensures Get(Block(s, urls).env, k)
         == if RetireRaises(s.env, urls) then Get(s.env, k)
            else if k in GENERIC_PROXIES then Some("socks5://127.0.0.1:1")
            else if k == "TOR_ENABLED" || k == "TOR_HEALTH" then Some("0")
            else Get(Retire(s.env, urls), k)
  {
    NamesDisjoint();
    Merged(Retire(s.env, urls), BlockedValues(), k);
  }
}
