/** The proxy variables Darkloom owns, the platform variables it only observes,
    and the recognition of the footprint older releases left behind. */
module Policy {
  import opened Text

  /** `PROXY_ENV_VARS` */
  const GENERIC_PROXIES: seq<string> := [
    "ALL_PROXY", "all_proxy", "HTTPS_PROXY", "https_proxy", "HTTP_PROXY", "http_proxy", "TOR_PROXY", "tor_proxy"]

  /** `OBSERVED_PLATFORM_PROXY_VARS` */
  const PLATFORM_PROXIES: seq<string> := [
    "TELEGRAM_PROXY", "telegram_proxy", "DISCORD_PROXY", "discord_proxy", "MATRIX_PROXY", "matrix_proxy",
    "PHOTON_PROXY", "photon_proxy", "WHATSAPP_PROXY", "whatsapp_proxy", "SLACK_PROXY", "slack_proxy",
    "GRPC_PROXY", "grpc_proxy"]

  const LOOPBACK_HOSTS: seq<string> := ["localhost", "127.0.0.1", "::1"]

  const LOOPBACK_BYPASS := Join(LOOPBACK_HOSTS, ',')

  function SocksUrl(port: int): string {
    "socks5://127.0.0.1:" + Decimal(port)
  }

  /** `_policy_environment`: the eleven variables an injection sets. */
  function PolicyEnvironment(url: string): map<string, string> {
    (map n | n in GENERIC_PROXIES :: url)
    + map["TOR_ENABLED" := "1", "NO_PROXY" := LOOPBACK_BYPASS, "no_proxy" := LOOPBACK_BYPASS]
  }

  predicate Truthy(value: string) {
    Lower(Trim(value)) in {"1", "true", "yes", "on"}
  }

  lemma TruthyDigits()
    ensures Truthy("1") && !Truthy("0") && !Truthy("")
  {
    assert Trim("1") == "1" && Trim("0") == "0" && Trim("") == "";
    assert Lower("1") == "1" && Lower("0") == "0" && Lower("") == "";
  }

  /** A question about a URL, which `urlsplit` lets the code answer unless it raises `ValueError`.
      Parsing URLs is the standard library's affair. */
  type Question = string -> Option<bool>

  /** No complete footprint, a proven one with its proxy, or a `ValueError` on the way. */
  datatype Legacy = Absent | Proven(proxy: string) | Raises

  /** `_legacy_platform_proxy_value`. `local` asks whether a value is a SOCKS URL on a loopback host. */
  function LegacyProxyValue(values: map<string, string>, local: Question): Legacy {
    if "TOR_ENABLED" in values && Truthy(values["TOR_ENABLED"])
       && (forall n | n in PLATFORM_PROXIES :: n in values)
       && (forall n | n in PLATFORM_PROXIES :: Trim(values[n]) == Trim(values[PLATFORM_PROXIES[0]]))
    then
      var candidate := Trim(values[PLATFORM_PROXIES[0]]);
      var answer := local(candidate);
      if answer.None? then Raises else if answer.value then Proven(candidate) else Absent
    else Absent
  }

  /** The switch is on, and all fourteen names are there with this value, white space aside. */
  predicate AllShare(values: map<string, string>, v: string) {
    && "TOR_ENABLED" in values && Lower(Trim(values["TOR_ENABLED"])) in {"1", "true", "yes", "on"}
    && forall n | n in PLATFORM_PROXIES :: n in values && Trim(values[n]) == v
  }

  /** A footprint is a shared value that is a local SOCKS URL, and the code raises exactly where a shared value
      cannot be split. */
  lemma FootprintExactly(values: map<string, string>, local: Question)
    ensures forall v | AllShare(values, v) ::
              LegacyProxyValue(values, local)
              == if local(v) == None then Raises else if local(v) == Some(true) then Proven(v) else Absent
    ensures (forall v :: !AllShare(values, v)) ==> LegacyProxyValue(values, local) == Absent
  {
    assert PLATFORM_PROXIES[0] in PLATFORM_PROXIES;
    if !LegacyProxyValue(values, local).Absent? {
      assert AllShare(values, Trim(values[PLATFORM_PROXIES[0]]));
    }
  }

  /** The names in both cases: four of the process's own, seven of platforms. */
  lemma NamesExactly(n: string)
    ensures n in GENERIC_PROXIES
       <==> n in ["ALL_PROXY", "HTTPS_PROXY", "HTTP_PROXY", "TOR_PROXY"]
            || n in ["all_proxy", "https_proxy", "http_proxy", "tor_proxy"]
    ensures n in PLATFORM_PROXIES
       <==> || n in ["TELEGRAM_PROXY", "DISCORD_PROXY", "MATRIX_PROXY", "PHOTON_PROXY", "WHATSAPP_PROXY", "SLACK_PROXY",
                     "GRPC_PROXY"]
            || n in ["telegram_proxy", "discord_proxy", "matrix_proxy", "photon_proxy", "whatsapp_proxy", "slack_proxy",
                     "grpc_proxy"]
    ensures LOOPBACK_BYPASS == "localhost,127.0.0.1,::1"
  {
    JoinThree("localhost", "127.0.0.1", "::1");
  }

  lemma JoinThree(a: string, b: string, c: string)
    ensures Join([a, b, c], ',') == a + "," + b + "," + c
  {
    assert [a, b, c][1..] == [b, c] && [b, c][1..] == [c];
    assert Join([b, c], ',') == b + [','] + Join([c], ',');
    assert Join([a, b, c], ',') == a + [','] + Join([b, c], ',');
  }

  /** What the footprint is depends on the fourteen names alone, once the switch is on. */
  lemma LegacyDepends(a: map<string, string>, b: map<string, string>, local: Question)
    requires "TOR_ENABLED" in a && "TOR_ENABLED" in b && Truthy(a["TOR_ENABLED"]) && Truthy(b["TOR_ENABLED"])
    requires forall n | n in PLATFORM_PROXIES :: (n in a <==> n in b) && (n in a ==> a[n] == b[n])
    ensures LegacyProxyValue(a, local) == LegacyProxyValue(b, local)
  {
  }

  lemma NamesDisjoint()
    ensures forall n | n in PLATFORM_PROXIES :: n !in GENERIC_PROXIES
    ensures forall n | n in PLATFORM_PROXIES ::
              n !in ["TOR_ENABLED", "NO_PROXY", "no_proxy", "TOR_HEALTH", "TOR_STRICT_MODE"]
    ensures forall n | n in GENERIC_PROXIES ::
              n !in ["TOR_ENABLED", "NO_PROXY", "no_proxy", "TOR_HEALTH", "TOR_STRICT_MODE"]
  {
  }

  lemma PlatformNamesDistinct()
    ensures forall i, j | 0 <= i < j < 14 :: PLATFORM_PROXIES[i] != PLATFORM_PROXIES[j]
  {
  }
}
