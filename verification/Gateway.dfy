/** The process environment Darkloom injects, blocks and restores. */
module Gateway {
  import opened Text
  import opened Policy

  const NO_PROXIES: seq<string> := ["NO_PROXY", "no_proxy"]

  datatype ProxyPolicy = ProxyPolicy(url: string, strict: bool)

  /** `InvalidUrl` is the `ValueError` of `urlsplit`; the others are `ProxyPolicyError`. */
  datatype PolicyError = InvalidPort | NoProxyNotLoopback | ProxyRejected | PolicyMismatch | InvalidUrl

  datatype Result<+T> = Ok(value: T) | Raised(error: PolicyError)

  /** The two questions the code puts to `urlsplit`: is this a SOCKS URL on a loopback host, and
      is it a SOCKS URL with a host and a port. */
  datatype UrlParser = UrlParser(local: Question, socks: Question)

  type Environment = map<string, string>

  function Get(env: Environment, key: string): Option<string> {
    if key in env then Some(env[key]) else None
  }

  // ---- policy --------------------------------------------------------------------

  predicate StrictMode(env: Environment) {
    "TOR_STRICT_MODE" in env && Truthy(env["TOR_STRICT_MODE"])
  }

  function StripBrackets(s: string): string
    decreases |s|
  {
    if s != "" && s[0] in "[]" then StripBrackets(s[1..])
    else if s != "" && s[|s| - 1] in "[]" then StripBrackets(s[..|s| - 1])
    else s
  }

  /** `_validate_no_proxy` in strict mode accepts the value. */
  predicate LoopbackOnly(value: string) {
    forall part | part in Split(value, ',') ::
      Trim(part) != "" ==> Lower(StripBrackets(Trim(part))) in {"localhost", "127.0.0.1", "::1"}
  }

  /** `_validate_generic_proxy`: what it raises for the value, if anything. */
  function GenericError(value: string, policy: ProxyPolicy, urls: UrlParser): Option<PolicyError> {
    var candidate := Trim(value);
    if candidate == "" || Lower(candidate) in {"direct", "direct://", "none", "off"} then Some(ProxyRejected)
    else
      var answer := urls.socks(candidate);
      if answer.None? then Some(InvalidUrl)
      else if !answer.value || candidate != policy.url then Some(ProxyRejected)
      else None
  }

  /** What the validation of the variables, in their order, raises first. */
  function FirstError(names: seq<string>, env: Environment, policy: ProxyPolicy, urls: UrlParser): Option<PolicyError> {
    if names == [] then None
    else
      var error := if names[0] in env then GenericError(env[names[0]], policy, urls) else None;
      if error.Some? then error else FirstError(names[1..], env, policy, urls)
  }

  /** `establish_proxy_policy` */
  function EstablishPolicy(port: int, strict: Option<bool>, env: Environment, urls: UrlParser): Result<ProxyPolicy> {
    if !(1 <= port <= 65535) then Raised(InvalidPort)
    else
      var policy := ProxyPolicy(SocksUrl(port), if strict.Some? then strict.value else StrictMode(env));
      if policy.strict && exists n | n in NO_PROXIES :: n in env && !LoopbackOnly(env[n]) then
        Raised(NoProxyNotLoopback)
      else
        var error := if policy.strict then FirstError(GENERIC_PROXIES, env, policy, urls) else None;
        if error.Some? then Raised(error.value) else Ok(policy)
  }

  // ---- the three operations, as functions of the state -----------------------------

  datatype State = State(env: Environment, snapshot: Option<map<string, Option<string>>>)

  /** `_retire_legacy_process_platform_proxies`, which changes nothing if it raises. */
  function Retire(env: Environment, urls: UrlParser): Environment {
    if LegacyProxyValue(env, urls.local).Proven? then env - (set n | n in PLATFORM_PROXIES) else env
  }

  predicate RetireRaises(env: Environment, urls: UrlParser) {
    LegacyProxyValue(env, urls.local).Raises?
  }

  function SnapshotOf(env: Environment): map<string, Option<string>> {
    map k | k in PolicyEnvironment("") :: Get(env, k)
  }

  /** `inject_gateway_env`: retire, choose or establish the policy, snapshot once, update. */
  function Inject(s: State, port: int, policy: Option<ProxyPolicy>, urls: UrlParser): (State, Result<ProxyPolicy>) {
    var raises := RetireRaises(s.env, urls);
    var s := s.(env := Retire(s.env, urls));
    var chosen :=
      if raises then Raised(InvalidUrl)
      else if policy.Some? then Ok(policy.value)
      else EstablishPolicy(port, None, s.env, urls);
    if chosen.Raised? then (s, chosen)
    else if chosen.value.url != SocksUrl(port) then (s, Raised(PolicyMismatch))
    else
      var snapshot := if s.snapshot.None? then Some(SnapshotOf(s.env)) else s.snapshot;
      (State(s.env + PolicyEnvironment(chosen.value.url), snapshot), chosen)
  }

  const DEAD_URL := "socks5://127.0.0.1:1"

  function BlockedValues(): Environment {
    (map n | n in GENERIC_PROXIES :: DEAD_URL)["TOR_ENABLED" := "0"]["TOR_HEALTH" := "0"]
  }

  /** `block_gateway_env`. It retires first, so if that raises nothing is blocked. */
  function Block(s: State, urls: UrlParser): State {
    if RetireRaises(s.env, urls) then s else s.(env := Retire(s.env, urls) + BlockedValues())
  }

  function Restore(env: Environment, snapshot: map<string, Option<string>>): Environment {
    (env - (set k | k in snapshot && snapshot[k].None?))
    + (map k | k in snapshot && snapshot[k].Some? :: snapshot[k].value)
  }

  function Restored(s: State): Environment {
    if s.snapshot.Some? then Restore(s.env, s.snapshot.value) else s.env
  }

  /** `clear_gateway_env`. It restores first, so if the retirement raises all is restored. */
  function Clear(s: State, urls: UrlParser): State {
    State(Retire(Restored(s), urls), None)
  }

  // ---- the same operations on the object ---------------------------------------------

  /** `os.environ` and the module's snapshot. */
  class Process {
    var env: Environment
    var snapshot: Option<map<string, Option<string>>>
    const urls: UrlParser

    constructor (env: Environment, urls: UrlParser)
      ensures Now() == State(env, None) && this.urls == urls
    {
      this.env, this.snapshot, this.urls := env, None, urls;
    }

    ghost function Now(): State
      reads this
    {
      State(env, snapshot)
    }

    method RetirePlatformProxies() returns (retired: seq<string>, raised: bool)
      modifies this`env
      ensures env == Retire(old(env), urls) && raised == RetireRaises(old(env), urls)
      ensures retired == if LegacyProxyValue(old(env), urls.local).Proven? then PLATFORM_PROXIES else []
      ensures retired != [] <==> exists v :: AllShare(old(env), v) && urls.local(v) == Some(true)
      ensures raised <==> exists v :: AllShare(old(env), v) && urls.local(v) == None
      ensures if retired == [] then env == old(env)
              else retired == PLATFORM_PROXIES && env == old(env) - (set n | n in PLATFORM_PROXIES)
    {
      FootprintExactly(env, urls.local);
      var legacy := LegacyProxyValue(env, urls.local);
      raised := legacy.Raises?;
      if !legacy.Proven? {
        return [], raised;
      }
      PlatformNamesDistinct();
      retired := PopAll(PLATFORM_PROXIES, legacy.proxy);
    }

    /** The loop of the retirement, which finds every name with its proxy. */
    method PopAll(names: seq<string>, proxy: string) returns (retired: seq<string>)
      requires forall i, j | 0 <= i < j < |names| :: names[i] != names[j]
      requires forall n | n in names :: n in env && Trim(env[n]) == proxy
      modifies this`env
      ensures env == old(env) - (set n | n in names) && retired == names
    {
      retired := [];
      for i := 0 to |names|
        invariant env == old(env) - (set n | n in names[..i])
        invariant retired == names[..i]
      {
        assert names[..i + 1] == names[..i] + [names[i]];
        assert names[i] !in names[..i];
        if names[i] in env && Trim(env[names[i]]) == proxy {
          env := env - {names[i]};
          retired := retired + [names[i]];
        }
      }
      assert names[..|names|] == names;
    }

    method InjectEnvironment(port: int, policy: Option<ProxyPolicy>) returns (r: Result<ProxyPolicy>)
      modifies this
      ensures (Now(), r) == Inject(old(Now()), port, policy, urls)
    {
      var retired, raised := RetirePlatformProxies();
      if raised {
        return Raised(InvalidUrl);
      }
      r := if policy.Some? then Ok(policy.value) else EstablishPolicy(port, None, env, urls);
      if r.Raised? {
        return;
      }
      if r.value.url != SocksUrl(port) {
        return Raised(PolicyMismatch);
      }
      if snapshot.None? {
        snapshot := Some(SnapshotOf(env));
      }
      env := env + PolicyEnvironment(r.value.url);
    }

    method SetAll(names: seq<string>, value: string)
      modifies this`env
      ensures env == old(env) + map n | n in names :: value
    {
      for i := 0 to |names|
        invariant env == old(env) + map n | n in names[..i] :: value
      {
        assert names[..i + 1] == names[..i] + [names[i]];
        env := env[names[i] := value];
      }
      assert names[..|names|] == names;
    }

    method BlockEnvironment() returns (raised: bool)
      modifies this
      ensures Now() == Block(old(Now()), urls) && raised == RetireRaises(old(env), urls)
    {
      var retired;
      retired, raised := RetirePlatformProxies();
      if raised {
        return;
      }
      ghost var before := env;
      SetAll(GENERIC_PROXIES, DEAD_URL);
      env := env["TOR_ENABLED" := "0"];
      env := env["TOR_HEALTH" := "0"];
      UpdateLast(before, map n | n in GENERIC_PROXIES :: DEAD_URL, "TOR_ENABLED", "0", "TOR_HEALTH", "0");
    }

    method ClearEnvironment() returns (raised: bool)
      modifies this
      ensures Now() == Clear(old(Now()), urls) && raised == RetireRaises(Restored(old(Now())), urls)
    {
      if snapshot.Some? {
        var items := snapshot.value;
        ghost var done: set<string> := {};
        ghost var before := env;
        var todo := items.Keys;
        while todo != {}
          invariant done !! todo && done + todo == items.Keys
          invariant forall k | k !in done :: Get(env, k) == Get(before, k)
          invariant forall k | k in done :: Get(env, k) == items[k]
          invariant snapshot == old(snapshot)
          decreases todo
        {
          var key :| key in todo;
          if items[key].None? {
            env := env - {key};
          } else {
            env := env[key := items[key].value];
          }
          done, todo := done + {key}, todo - {key};
        }
        RestoreIs(before, env, items);
        snapshot := None;
      }
      var retired;
      retired, raised := RetirePlatformProxies();
    }
  }

  lemma UpdateLast<K, V>(a: map<K, V>, b: map<K, V>, k1: K, v1: V, k2: K, v2: V)
    ensures (a + b)[k1 := v1][k2 := v2] == a + b[k1 := v1][k2 := v2]
  {
  }

  lemma RestoreIs(before: Environment, after: Environment, items: map<string, Option<string>>)
    requires forall k | k !in items :: Get(after, k) == Get(before, k)
    requires forall k | k in items :: Get(after, k) == items[k]
    ensures after == Restore(before, items)
  {
    var r := Restore(before, items);
    assert forall k :: Get(after, k) == Get(r, k);
    assert forall k :: (k in after <==> k in r) && (k in after ==> after[k] == r[k]) by {
      forall k
        ensures (k in after <==> k in r) && (k in after ==> after[k] == r[k])
      {
        assert Get(after, k) == Get(r, k);
      }
    }
  }
}
