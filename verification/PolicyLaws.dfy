/** Exactly when a policy is established, and what an injection returns and keeps. */
module PolicyLaws {
  import opened Text
  import opened Policy
  import opened Gateway

  predicate IsBracket(c: char) { c == '[' || c == ']' }

  /** What stands between brackets at both ends, and has none at its own. */
  predicate Stripped(s: string, inner: string, i: nat, j: nat) {
    && i <= j <= |s| && inner == s[i..j]
    && (forall k | 0 <= k < |s| && (k < i || j <= k) :: IsBracket(s[k]))
    && (i < j ==> !IsBracket(s[i]) && !IsBracket(s[j - 1]))
  }

  /** Brackets go from both ends, and from nowhere else. */
  lemma {:induction false} BracketsStripped(s: string) returns (i: nat, j: nat)
    ensures Stripped(s, StripBrackets(s), i, j)
    decreases |s|
  {
    if s != "" && s[0] in "[]" {
      i, j := BracketsStripped(s[1..]);
      StrippedTail(s, StripBrackets(s[1..]), i, j);
      i, j := i + 1, j + 1;
    } else if s != "" && s[|s| - 1] in "[]" {
      i, j := BracketsStripped(s[..|s| - 1]);
      StrippedInit(s, StripBrackets(s[..|s| - 1]), i, j);
    } else {
      i, j := 0, |s|;
    }
  }

  lemma StrippedTail(s: string, inner: string, i: nat, j: nat)
    requires s != "" && IsBracket(s[0]) && Stripped(s[1..], inner, i, j)
    ensures Stripped(s, inner, i + 1, j + 1)
  {
    assert forall k | 0 < k < |s| :: s[k] == s[1..][k - 1];
  }

  lemma StrippedInit(s: string, inner: string, i: nat, j: nat)
    requires s != "" && IsBracket(s[|s| - 1]) && Stripped(s[..|s| - 1], inner, i, j)
    ensures Stripped(s, inner, i, j)
  {
    assert forall k | 0 <= k < |s| - 1 :: s[k] == s[..|s| - 1][k];
  }

  /** `TOR_STRICT_MODE` is on. */
  predicate Strict(env: Environment) {
    "TOR_STRICT_MODE" in env && Lower(Trim(env["TOR_STRICT_MODE"])) in {"1", "true", "yes", "on"}
  }

  /** Every entry of the list is empty or one of the three loopback hosts, in brackets or not. */
  predicate Bypasses(value: string) {
    forall part | part in Split(value, ',') && Trim(part) != "" ::
      var entry := Lower(StripBrackets(Trim(part)));
      entry == "localhost" || entry == "127.0.0.1" || entry == "::1"
  }

  /** The variable is the policy's own endpoint, white space aside. */
  predicate Conforms(value: string, url: string, urls: UrlParser) {
    Trim(value) == url && urls.socks(url) == Some(true)
  }

  lemma {:induction false} NoErrorExactly(names: seq<string>, env: Environment, policy: ProxyPolicy, urls: UrlParser)
    requires "socks5://" <= policy.url
    ensures FirstError(names, env, policy, urls).None?
       <==> forall n | n in names && n in env :: Conforms(env[n], policy.url, urls)
    decreases |names|
  {
    if names != [] {
      NoErrorExactly(names[1..], env, policy, urls);
      assert forall n :: n in names <==> n == names[0] || n in names[1..];
      if names[0] in env {
        ConformsExactly(env[names[0]], policy, urls);
      }
    }
  }

  lemma ConformsExactly(value: string, policy: ProxyPolicy, urls: UrlParser)
    requires "socks5://" <= policy.url
    ensures GenericError(value, policy, urls).None? <==> Conforms(value, policy.url, urls)
    ensures GenericError(value, policy, urls)
         == if Conforms(value, policy.url, urls) then None
            else if Trim(value) != "" && Lower(Trim(value)) !in {"direct", "direct://", "none", "off"}
                    && urls.socks(Trim(value)) == None then Some(InvalidUrl)
            else Some(ProxyRejected)
  {
    if Trim(value) == policy.url {
      assert policy.url[0] == 's';
      assert Lower(policy.url)[0] == 's';
    }
  }

  /** Exactly the environments in which a policy is established, and which. */
  lemma EstablishExactly(port: int, strict: Option<bool>, env: Environment, urls: UrlParser)
    ensures var r := EstablishPolicy(port, strict, env, urls);
            var on := if strict.Some? then strict.value else Strict(env);
            var url := "socks5://127.0.0.1:" + Decimal(port);
            && (r.Ok? <==>
                  && 1 <= port <= 65535
                  && (on ==> && (forall n | n in ["NO_PROXY", "no_proxy"] && n in env :: Bypasses(env[n]))
                             && (forall n | n in GENERIC_PROXIES && n in env :: Conforms(env[n], url, urls))))
            && (r.Ok? ==> r.value == ProxyPolicy(url, on))
  {
    var url := "socks5://127.0.0.1:" + Decimal(port);
    var on := if strict.Some? then strict.value else Strict(env);
    assert url[..9] == "socks5://";
    SwitchAndBypass(env);
    NoErrorExactly(GENERIC_PROXIES, env, ProxyPolicy(url, on), urls);
  }

  lemma SwitchAndBypass(env: Environment)
    ensures StrictMode(env) == Strict(env)
    ensures (exists n | n in NO_PROXIES :: n in env && !LoopbackOnly(env[n]))
       <==> exists n | n in ["NO_PROXY", "no_proxy"] && n in env :: !Bypasses(env[n])
  {
    forall n | n in env
      ensures LoopbackOnly(env[n]) <==> Bypasses(env[n])
    {
      BypassesExactly(env[n]);
    }
    assert forall n :: n in NO_PROXIES <==> n in ["NO_PROXY", "no_proxy"];
  }

  lemma BypassesExactly(value: string)
    ensures LoopbackOnly(value) <==> Bypasses(value)
  {
  }

  /** And with which error otherwise. */
  lemma EstablishFails(port: int, strict: Option<bool>, env: Environment, urls: UrlParser)
    ensures var r := EstablishPolicy(port, strict, env, urls);
            var on := if strict.Some? then strict.value else Strict(env);
            && (r == Raised(InvalidPort) <==> !(1 <= port <= 65535))
            && (r == Raised(NoProxyNotLoopback) <==>
                  && 1 <= port <= 65535 && on
                  && exists n | n in ["NO_PROXY", "no_proxy"] && n in env :: !Bypasses(env[n]))
            && r != Raised(PolicyMismatch)
  {
    var on := if strict.Some? then strict.value else Strict(env);
    var url := SocksUrl(port);
    SwitchAndBypass(env);
    ErrorKinds(GENERIC_PROXIES, env, ProxyPolicy(url, on), urls);
  }

  lemma {:induction false} ErrorKinds(names: seq<string>, env: Environment, policy: ProxyPolicy, urls: UrlParser)
    ensures FirstError(names, env, policy, urls) in {None, Some(ProxyRejected), Some(InvalidUrl)}
    decreases |names|
  {
    if names != [] {
      ErrorKinds(names[1..], env, policy, urls);
    }
  }

  /** The first variable that does not conform decides which error is raised. */
  lemma {:induction false} FirstDecides(names: seq<string>, env: Environment, policy: ProxyPolicy, urls: UrlParser,
                                        i: nat)
    requires i < |names| && names[i] in env && GenericError(env[names[i]], policy, urls).Some?
    requires forall j | 0 <= j < i :: names[j] in env ==> GenericError(env[names[j]], policy, urls).None?
    ensures FirstError(names, env, policy, urls) == GenericError(env[names[i]], policy, urls)
    decreases i
  {
    if i > 0 {
      assert names[0] in env ==> GenericError(env[names[0]], policy, urls).None?;
      FirstDecides(names[1..], env, policy, urls, i - 1);
    }
  }

  /** An injection fails before it does anything if the retirement raises; after it if no policy is established
      or the one given names another endpoint. The first that succeeds remembers the eleven variables as the
      retirement left them, and no later one changes that. */
  lemma InjectExactly(s: State, port: int, policy: Option<ProxyPolicy>, urls: UrlParser)
    ensures var (next, r) := Inject(s, port, policy, urls);
            var env := Retire(s.env, urls);
            var chosen := if policy.Some? then Ok(policy.value) else EstablishPolicy(port, None, env, urls);
            if RetireRaises(s.env, urls) then next == s && r == Raised(InvalidUrl)
            else if chosen.Raised? then next == s.(env := env) && r == chosen
            else if chosen.value.url != "socks5://127.0.0.1:" + Decimal(port) then
              next == s.(env := env) && r == Raised(PolicyMismatch)
            else
              && r == chosen && next.snapshot.Some?
              && (s.snapshot.Some? ==> next.snapshot == s.snapshot)
              && (s.snapshot.None? ==>
                    forall k :: if k in GENERIC_PROXIES || k in ["TOR_ENABLED", "NO_PROXY", "no_proxy"]
                                then k in next.snapshot.value && next.snapshot.value[k] == Get(env, k)
                                else k !in next.snapshot.value)
  {
  }

  /** A clear gives every remembered variable back its value or absence, forgets the snapshot, and retires a
      footprint that is there then. */
  lemma ClearExactly(s: State, urls: UrlParser, k: string)
    ensures var next := Clear(s, urls);
            var remembered := s.snapshot.Some? && k in s.snapshot.value;
            var restored := Restored(s);
            && next.snapshot == None
            && Get(restored, k) == (if remembered then s.snapshot.value[k] else Get(s.env, k))
            && ((exists v :: AllShare(restored, v) && urls.local(v) == Some(true)) ==>
                  Get(next.env, k) == if k in PLATFORM_PROXIES then None else Get(restored, k))
            && ((forall v :: AllShare(restored, v) ==> urls.local(v) != Some(true)) ==> next.env == restored)
  {
    FootprintExactly(Restored(s), urls.local);
  }
}
