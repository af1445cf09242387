# Darkloom verification model

Darkloom routes a gateway process through a local Tor daemon and is meant to fail closed. This
project models the parts of it that keep state over whole runs or transform text and files, and
proves what they promise.

| part | files | main results |
|---|---|---|
| process environment, manager and watchdog | `Policy`, `Gateway`, `GatewayLaws`, `PolicyLaws`, `Manager`, `Watchdog`, `WatchdogSteps`, `WatchdogLaws`, `GatewayFile` | safety of every run after a verified start with its exact condition, exact restore, backoff bound, recovery by mode, when Tor can be restarted and when process and file agree |
| `.env` rewriting and legacy migration | `Dotenv`, `DotenvGrammar`, `DotenvLaws`, `Migration`, `DotenvFile` | absorption, stabilisation and removal, each with its exact condition; all-or-nothing reversible migration |
| bridge lines, sets and the bridges file | `Addresses`, `AddressLaws`, `AddressGrammar`, `Zones`, `Bridges`, `BridgeLaws`, `BridgeLimits`, `BridgeGrammar`, `BridgeSets`, `BridgeStore`, `StoreLaws`, `BridgeAppend` | round trip and injectivity for IPv4 and IPv6, where the round trip ends, what the result pattern means, when an append is faithful |
| archive plan, extraction and install | `Archive`, `ArchiveLaws`, `FileSystem`, `Extraction`, `Install` | acceptance as an if-and-only-if, exact contents after extraction with links present and when it succeeds, nothing outside touched, rollback |
| locked file updates and credential leases | `SecureFiles`, `SharedFiles`, `SharedEnv`, `PrivateFile`, `Leases`, `Credentials` | serialisation of any interleaving with crashes, whole versions for unlocked readers, one place for every lease |

`Text` and `Lines` hold the Python string and text-file operations the rest is built from.

## How the outside world enters

- Outcomes of the Tor process, sockets, verifier, sleeps and file writes are scripts: data that a
  step consumes, over which every theorem quantifies. A script entry can say that a call raises.
- Two questions about URLs, the digest function, the readability of archive members and what the
  umask leaves of a file mode are parameters. A question about a URL has three answers: yes, no, or
  the `ValueError` of `urlsplit`; no theorem assumes that it is answered.
- An object the source updates in place is a class; its methods are proved equal to a function of
  the old state, and the theorems are about those functions. What such a function does is also said
  apart from it, as a grammar or case by case (`...Exactly`, `WatchdogSteps`). Concurrent protocols are step functions
  over explicit states, and theorems are about `Run` over every sequence of actions.

## Where the code and its comments differ

The model follows the code.

- `_transition` logs an unexpected move and makes it all the same, so every move is allowed.
- In strict mode the injection after a restart is refused by the dead values that blocking has just
  written, and no later healthy check unblocks (`RecoveryByMode`, `StrictStaysBlocked`).
- `_is_local_socks_proxy` calls `urlsplit` outside its `try` (gateway.py:180-181). If all fourteen
  platform names hold one value that `urlsplit` rejects, such as `socks5://[::1`, then as soon as
  `TOR_ENABLED` is on every retirement raises. A start can still succeed, because
  `TOR_ENABLED` is off until its injection; from then on every block raises before it has blocked
  anything, and the gateway stays routed whatever the checks find (`OpenBracketStaysLive`,
  `MalformedStaysLive`). This and port 1 are exactly where a verified start does not fail closed.
- The same values in a `.env` file make the first healthy write the last: every later write or removal
  raises (`Armed`, `ArmedWrite`). If a verified start makes that write, no check ever restarts Tor, and the
  file names the live endpoint for good while the process is blocked (`ArmedFileStays`,
  `AgreesExactly`).
- With SOCKS port 1 the dead endpoint is the live one, so blocking has no effect
  (`PortOneIsNeverBlocked`).
- `TOR_HEALTH` is not in the snapshot: a run that ever blocked leaves `TOR_HEALTH=0` behind.
- A complete legacy footprint without `TOR_ENABLED` survives the first healthy write and is retired
  by the second, because the first one sets `TOR_ENABLED=1` (`Armed`). This, and the raising writes
  above, are exactly where absorption and removal fail.
- `add_bridge` does not catch the `ValueError` of a bridge whose printed line exceeds 4096
  characters (`PrintedLineTooLong`, `AddedNew`), nor that of an old file that does not decode.
- `parse_bridge_line` is meant to return `None` on any error. For an IPv6 address without brackets whose
  zone identifier has a closing bracket, such as `fe80::1%a]b:443`, `_address` renders a text that it does
  not accept itself, so the constructor raises `ValueError` instead (`BracketInZone`,
  `ScopedIdempotent`).
- An append to a bridges file whose last line is unfinished glues the first new line to it
  (`AppendExactly`).
- The `Bridge` constructor accepts a key that contains `=`; such a bridge does not round-trip
  (`RoundTripExactly`).
- If the first rename of an install raises after it has taken effect, nothing rolls it back
  (`Stranded`).

## Model

| member | source | states |
|---|---|---|
| Policy.NamesExactly | src/darkloom/gateway.py:25-49 | the names in both cases: four of the process, seven of platforms, and the bypass list |
| Policy.FootprintExactly | src/darkloom/gateway.py:180-212 | with the switch on and one value shared by all fourteen names: a footprint if it is a local SOCKS URL, the `ValueError` if it cannot be split; in all other cases nothing |
| PolicyLaws.EstablishExactly | src/darkloom/gateway.py:114-141 | exactly the ports and environments for which a policy is established, and which one |
| PolicyLaws.EstablishFails | src/darkloom/gateway.py:75-141 | when a bad port and a bad bypass list are the error, before any proxy variable is looked at |
| PolicyLaws.FirstDecides | src/darkloom/gateway.py:137-140 | the first proxy variable that does not conform decides the error |
| PolicyLaws.ConformsExactly | src/darkloom/gateway.py:89-111 | which error one variable raises, or none exactly for the policy's own endpoint |
| PolicyLaws.InjectExactly | src/darkloom/_gateway_runtime.py:190-226 | in which order an injection fails, and the eleven variables the first one remembers |
| PolicyLaws.ClearExactly | src/darkloom/gateway.py:312-319 | a clear restores every remembered variable, forgets the snapshot and retires a footprint that is there then |
| Gateway.Process.RetirePlatformProxies | src/darkloom/gateway.py:180-226 | something leaves the environment if and only if the switch is on and all fourteen names share one value that is a local SOCKS URL, and then exactly the fourteen; the `ValueError` exactly if that value cannot be split; else nothing changes |
| Gateway.Process.InjectEnvironment | src/darkloom/_gateway_runtime.py:190-226 | the new environment and snapshot of an injection, and the policy it returns or the error, also that of the retirement before it, which leaves all but the retired names alone |
| Gateway.Process.BlockEnvironment | src/darkloom/gateway.py:322-324 | the eight proxy variables at the dead endpoint and both flags 0, nothing else changed; if the retirement before it raises nothing is blocked |
| Gateway.Process.ClearEnvironment | src/darkloom/gateway.py:312-319 | every snapshotted key back to its value or absence, the snapshot gone, then retirement, and when that raises |
| GatewayLaws.RetireGet | src/darkloom/gateway.py:193-226 | retirement removes a platform name exactly when the whole footprint is there and Tor is enabled, and touches no other key |
| GatewayLaws.InjectedValue | src/darkloom/gateway.py:144-159 | every variable after an injection: the eight at the live endpoint, the switch on, the bypass list, all others as retirement left them |
| GatewayLaws.BlockedValue | src/darkloom/_gateway_runtime.py:250-261 | every variable after a block: the eight at the dead endpoint, both flags 0, all others as retirement left them; after one that raises, all as before |
| GatewayLaws.RunTouches | src/darkloom/gateway.py:297-324 | over any run of injections and blocks, completed or raising, the keys outside the owned names keep their first values, but for `TOR_HEALTH` and a retired footprint |
| GatewayLaws.ClearRestores | src/darkloom/gateway.py:312-319 | a clear after any such run restores every owned key, and raises only if retirement would in the environment it restores |
| GatewayLaws.ExactRestore | src/darkloom/_gateway_runtime.py:209-247 | inject, any injections and blocks, clear: the exact final value of every key of the environment, in terms of the first environment and of whether anything blocked; the clear never raises |
| Manager.TorManager.GetStatus | src/darkloom/manager.py:249-273 | each layer is reported if and only if it was measured and those below it hold, the route only if it was asked for and the verifier confirms it; nothing without a daemon, and an exception exactly when a measurement raises |
| Manager.TorManager.StartDaemon | src/darkloom/manager.py:199-235 | running with a daemon exactly when the daemon bootstraps and can be asked, else error; the status returned is what was measured |
| Manager.TorManager.StopDaemon | src/darkloom/manager.py:237-247 | stopped without a daemon even when the daemon's stop raises |
| Manager.TorManager.Restart | src/darkloom/manager.py:281-287 | the state after stop and start |
| Watchdog.TorWatchdog.CheckAndHeal | src/darkloom/_gateway_runtime.py:475-498 | the state after one check, completed or aborted by an exception |
| Watchdog.TorWatchdog.RestartTor | src/darkloom/_gateway_runtime.py:500-545 | block before anything else, give up at the limit, else count, stop, wait, start, verify and only then inject |
| Watchdog.TorWatchdog.RotateCircuit | src/darkloom/_gateway_runtime.py:547-561 | nothing if the signal is accepted, else a full restart |
| WatchdogLaws.VerifiedStartThenSafe | src/darkloom/_gateway_runtime.py:475-561 | after a verified start every run of checks, completed or aborted, leaves the eight variables present and equal, dead or live, and live only behind a running status and a probe that found all four layers in order, if and only if the port is not 1 and the platform variables were not malformed before the start |
| WatchdogLaws.OpenBracketStaysLive | src/darkloom/gateway.py:180-212 | the input on which safety fails: all fourteen platform names at `socks5://[::1`, a start that succeeds, and an unhealthy check that leaves the gateway routed |
| WatchdogLaws.MalformedStaysLive | src/darkloom/gateway.py:322-324 | once the retirement raises, no run of checks changes any variable |
| WatchdogLaws.RaisingBlockStaysLive | src/darkloom/_gateway_runtime.py:500-505 | for any port, an unhealthy check whose block raises leaves the live endpoint |
| WatchdogLaws.AlwaysRouted | src/darkloom/_gateway_runtime.py:209-261 | over any run of injections, accepted or refused, and blocks the eight variables are never absent and never disagree, at the dead endpoint or one an injection named |
| WatchdogLaws.FailedStart | src/darkloom/_gateway_runtime.py:592-653 | a start that raises brings the variables to the live endpoint only after all four layers passed |
| WatchdogLaws.PortOneIsNeverBlocked | src/darkloom/_gateway_runtime.py:250-261 | the port for which the safety property is false: an unhealthy check leaves the live endpoint |
| WatchdogLaws.InjectTwice | src/darkloom/gateway.py:75-141 | strict validation accepts what an injection for the same port has set: injecting again changes nothing but a pending retirement, and succeeds in either mode if and only if the platform variables are not malformed |
| WatchdogLaws.InjectBlocked | src/darkloom/gateway.py:89-141 | injecting over a blocked environment succeeds out of strict mode if and only if the retirement does not raise, and is refused in strict mode |
| WatchdogLaws.RecoveryByMode | src/darkloom/_gateway_runtime.py:500-545 | a verified restart resets the count, and routes again or stays dead according to the mode; one whose block raises changes nothing at all |
| WatchdogLaws.StrictStaysBlocked | src/darkloom/_gateway_runtime.py:475-545 | in strict mode no later run of checks unblocks |
| WatchdogLaws.RunBacksOff | src/darkloom/_gateway_runtime.py:479-514 | over any run the count stays within the limit and the k-th wait since the last reset is backoff times 2^(k-1) |
| WatchdogLaws.SumOfDelays | src/darkloom/_gateway_runtime.py:513-514 | k such waits add up to backoff times (2^k - 1) |
| WatchdogLaws.BackoffBound | src/darkloom/_gateway_runtime.py:479-535 | after a verified start, over any run, the waits since the last reset add up to at most backoff times (2^max - 1) |
| WatchdogLaws.GivenUpStaysDown | src/darkloom/_gateway_runtime.py:505-511 | at the limit nothing is stopped or started until a check sees a good status, and a dead environment stays dead |
| WatchdogLaws.RotationRate | src/darkloom/_gateway_runtime.py:482-486 | over any run the time of the last rotation moves on by at least one interval for each rotation |
| WatchdogLaws.GatewayLeavesNoTrace | src/darkloom/_gateway_runtime.py:229-247 | start, any checks, clear: every owned variable is as before the start |
| WatchdogSteps.GoodCheck | src/darkloom/_gateway_runtime.py:475-486 | a check that finds all four layers resets the count and the waits, and does nothing else unless a rotation is due |
| WatchdogSteps.RotationAccepted | src/darkloom/_gateway_runtime.py:482-486 | a due rotation that Tor accepts moves the time of the rotation and leaves Tor as it is |
| WatchdogSteps.RefusedRestarts | src/darkloom/_gateway_runtime.py:547-561 | a due rotation that Tor refuses stops and starts it and moves the time |
| WatchdogSteps.UnknownCheck | src/darkloom/_gateway_runtime.py:475-477 | a check whose measurement raises changes nothing |
| WatchdogSteps.BadCheck | src/darkloom/_gateway_runtime.py:488-498 | a check that finds anything amiss restarts with the count it has |
| WatchdogSteps.GoodCheckRenews | src/darkloom/_gateway_runtime.py:479-545 | after any run and however many failures, a good check followed by a bad one starts Tor again |
| WatchdogSteps.RestartAborts | src/darkloom/_gateway_runtime.py:500-504 | a restart does nothing if its block raises, and only blocks if the blocked write fails |
| WatchdogSteps.RestartGivesUp | src/darkloom/_gateway_runtime.py:505-511 | at the limit it blocks and leaves Tor as it is |
| WatchdogSteps.RestartTries | src/darkloom/_gateway_runtime.py:513-527 | below the limit it blocks, counts, stops and waits before it tries, and a negative backoff makes it raise |
| WatchdogSteps.AttemptFails | src/darkloom/_gateway_runtime.py:529-545 | a start that is not verified leaves the environment blocked and the attempt counted |
| WatchdogSteps.AttemptRecovers | src/darkloom/_gateway_runtime.py:529-541 | a verified one resets the count, injects, and writes and records only as far as that is accepted |
| WatchdogSteps.StartsExactly | src/darkloom/_gateway_runtime.py:594-653 | exactly when a start of the gateway succeeds, and the watchdog it leaves |
| WatchdogSteps.FailedStartBlocks | src/darkloom/_gateway_runtime.py:635-645 | a start whose verification finds a layer missing leaves the dead endpoint; one that fails earlier leaves the environment to the retirement |
| GatewayFile.RestartsExactly | src/darkloom/_gateway_runtime.py:500-545 | after a verified start some run of checks starts Tor again if and only if the limit is positive, the backoff not negative, the platform variables were not malformed, and the file can be written and, if the start wrote it, was not malformed |
| GatewayFile.ArmedFileStays | src/darkloom/gateway.py:334-356 | a start that writes over malformed platform assignments makes the last write: the file names the live endpoint and Tor is never started again |
| GatewayFile.FileNamesAnEnd | src/darkloom/_gateway_runtime.py:500-536 | after a start that wrote it, the file assigns each of the eight variables once, all to the live or all to the dead endpoint, whatever the checks find and wherever writes fail |
| GatewayFile.AgreesExactly | src/darkloom/_gateway_runtime.py:500-536 | process and file name the same endpoint after any checks whose writes meet no fault, if and only if the port is 1, the platform variables were malformed or the file's platform assignments were not |
| DotenvFile.EnvFile.Write | src/darkloom/gateway.py:327-356 | line by line: the lines that assign no owned key stay in their order, the last one finished, and each of the twelve owned keys has its value once; or the old file when the read, the migration or the write raises, or on a symbolic link |
| DotenvFile.EnvFile.Clean | src/darkloom/gateway.py:366-391 | line by line: no owned key has a value, every other key that is not retired has the values it had, and the lines keep their order; or the old file when the read, the migration or the write raises; a missing file left missing |
| DotenvFile.WriteThenClean | src/darkloom/gateway.py:327-391 | a write and then a removal on one file give back a finished text without owned keys, if and only if the write was not healthy or turned nothing on |
| DotenvGrammar.AssignmentExactly | src/darkloom/gateway.py:229-238 | exactly the lines that assign a value to a key, as a grammar |
| DotenvLaws.RewrittenLines | src/darkloom/gateway.py:344-356 | the new file reads back as the retained lines followed by the twelve managed ones |
| DotenvLaws.WrittenValues | src/darkloom/gateway.py:334-356 | all assignments of every key after a write: managed keys once with the new value, retired names none, every other key as before |
| DotenvLaws.WrittenFootprint | src/darkloom/gateway.py:193-212 | when a footprint or malformed platform assignments are still there after a write |
| DotenvLaws.WriteAbsorbs | src/darkloom/gateway.py:327-356 | a later write absorbs an earlier one, in text and in whether it raises, if and only if the file is not armed |
| DotenvLaws.WritesStabilise | src/darkloom/gateway.py:327-356 | three healthy writes leave what two leave, for every file, and two what one leaves if and only if no complete footprint lacks `TOR_ENABLED` |
| DotenvLaws.RemoveUndoesWrite | src/darkloom/gateway.py:366-391 | remove after write is remove alone up to one final newline, in text and in whether it raises, if and only if the file is not armed |
| DotenvLaws.RemoveRestores | src/darkloom/gateway.py:366-391 | a terminated file without managed keys comes back exactly, if and only if the write armed nothing |
| DotenvLaws.RemoveIdempotent | src/darkloom/gateway.py:366-391 | removing twice is removing once, for every file, also where it raises |
| DotenvFile.RetainedInOrder | src/darkloom/gateway.py:345-349 | retained lines stand at increasing positions of the file, and every dropped line assigns a managed key |
| Migration.RetireDotenvProxies | src/darkloom/gateway.py:180-277 | exactly the fourteen lines become comments if and only if the last switch is on and each name is assigned once, all to one local SOCKS URL; the `ValueError` exactly if that value cannot be split; else nothing changes; the exit at line 270 is proved unreachable |
| Migration.CollectOccurrences | src/darkloom/gateway.py:244-253 | for every key where and with which value it is assigned, and the last value of the switch |
| Migration.SingleValues | src/darkloom/gateway.py:255-260 | the value of each name, or nothing if one is not assigned exactly once |
| Migration.MigrateAllOrNothing | src/darkloom/gateway.py:241-277 | unchanged, or exactly the fourteen platform lines gain the prefix |
| Migration.MigrateReversible | src/darkloom/gateway.py:271-276 | stripping the prefix recovers the lines if and only if none carried it before |
| Migration.MigrateIdempotent | src/darkloom/gateway.py:241-277 | a second migration changes nothing |
| Migration.OnlyOccurrence | src/darkloom/gateway.py:267-270 | in a proven footprint each name has one line, and its value is the common proxy |
| Addresses.V4Canonical | src/darkloom/bridges.py:89-105 | an accepted IPv4 text is the text it prints as |
| Addresses.V4RoundTrip | src/darkloom/bridges.py:89-105 | every four octets print and read back |
| Addresses.V6RoundTrip | src/darkloom/bridges.py:89-105 | every eight hextets print in compressed form and read back |
| Zones.ScopedRoundTrip | src/darkloom/bridges.py:97-103 | every eight hextets with any zone identifier print and read back |
| Zones.MappedRoundTrip | src/darkloom/bridges.py:97-103 | the dotted notation of IPv4-mapped addresses, in which later CPython versions print them, reads back as the same hextets |
| Zones.ScopedIdempotent | src/darkloom/bridges.py:48-49 | the constructor accepts the address the parser rendered if and only if the text was in brackets or had no closing bracket |
| Zones.BracketInZone | src/darkloom/bridges.py:89-105 | for every IPv6 address, port and zone with a closing bracket a text that is accepted and whose rendering is refused |
| Zones.WithoutZone | src/darkloom/bridges.py:89-105 | without a percent sign this is the address function of the other modules |
| AddressLaws.AddressIdempotent | src/darkloom/bridges.py:48-49 | a rendered address renders to itself, as the constructor demands |
| AddressGrammar.TextsExactly | src/darkloom/bridges.py:98 | exactly the texts that are read as eight given hextets, as a grammar |
| AddressGrammar.PrintedInFull | src/darkloom/bridges.py:102 | without two zeros in a row an IPv6 address is printed in full |
| AddressGrammar.PrintedShort | src/darkloom/bridges.py:102 | otherwise the first of the longest runs of zeros becomes two colons |
| AddressGrammar.PortExactly | src/darkloom/bridges.py:99-101 | a port is the numeral of a number from 1 to 65535 as `str` prints it |
| AddressGrammar.AddressExactly | src/darkloom/bridges.py:89-105 | exactly the accepted addresses, and what each is rendered as |
| Zones.ZonesExactly | src/darkloom/bridges.py:98 | which zones an IPv6 text may carry |
| Bridges.ParseBridgeLine | src/darkloom/bridges.py:108-145 | the loop over options computes the parser's function |
| Bridges.CollectOptions | src/darkloom/bridges.py:124-131 | all options in order, or nothing if one is malformed or a key comes twice |
| BridgeGrammar.GrammarExactly | src/darkloom/bridges.py:108-145 | a line parses to a bridge if and only if it has at most 4096 characters and its tokens spell the bridge |
| BridgeGrammar.ListsExactly | src/darkloom/bridges.py:124-142 | the options of each transport as a grammar |
| BridgeGrammar.DigitsExactly | src/darkloom/bridges.py:145 | the fingerprint of a bridge has the same digits in upper case |
| BridgeGrammar.ClassesExactly | src/darkloom/bridges.py:24-26 | the character classes of the three patterns by code points |
| BridgeLaws.ParsedIsCanonical | src/darkloom/bridges.py:45-65 | every parsed bridge passes all constructor checks |
| BridgeLaws.RoundTripExactly | src/darkloom/bridges.py:67-145 | a constructible bridge prints to a line that parses back to it if and only if it is canonical and the line is short enough |
| BridgeLaws.PrintedLineParses | src/darkloom/bridges.py:67-145 | parse, print, parse gives the same bridge and the same line, unless the line is too long |
| BridgeLaws.LineInjective | src/darkloom/bridges.py:67-71 | different canonical bridges have different lines |
| BridgeLaws.V4LineShrinks | src/darkloom/bridges.py:89-145 | an accepted IPv4 line never grows, so it always round-trips |
| BridgeLaws.BareV6LineGrows | src/darkloom/bridges.py:95-103 | an IPv6 address written without brackets parses to the same bridge and costs two characters |
| BridgeLimits.PrintedLineTooLong | src/darkloom/bridges.py:22-23 | for every IPv6 address and port an accepted line of 4096 characters whose printed form is refused |
| BridgeLimits.AcceptedIsAscii | src/darkloom/bridges.py:74-86 | every token of an accepted line is printable ASCII |
| BridgeSets.PatternMeaning | src/darkloom/bridges.py:30-33 | on a printed obfs4 bridge the pattern matches if and only if the host is IPv4 and the mode is 0 or 1 |
| BridgeSets.LaterChecksPass | src/darkloom/bridges.py:177-184 | after the pattern the address and port checks cannot fail |
| BridgeSets.CheckLine | src/darkloom/bridges.py:166-185 | one line is accepted if and only if it parses, has the wanted transport and, for obfs4, a plain form |
| BridgeSets.ParseBridgeSet | src/darkloom/bridges.py:152-189 | success if and only if there is a non-blank line and all are wanted, with their parses in order; the later errors never occur |
| BridgeSets.SetExactly | src/darkloom/bridges.py:152-189 | the accepted texts line by line: blank lines do not matter, every other must parse, have the transport and, for obfs4, match the pattern |
| BridgeSets.AcceptedObfs4 | src/darkloom/bridges.py:30-33 | an obfs4 bridge of an accepted set has an IPv4 address and the mode 0 or 1 |
| BridgeStore.Store.Save | src/darkloom/bridges.py:214-233 | nothing is written unless every line parses and the old text of an append decodes, then the whole new text; which error is raised |
| BridgeStore.Store.LoadFile | src/darkloom/bridges.py:192-211 | the parses of the lines that are neither empty, comments nor junk, in order, or the exception of the read; a missing file is not read |
| BridgeStore.Store.LoadBridges | src/darkloom/manager.py:173-182 | memory becomes the printed bridges of the file, or stays as it was when the read raises |
| BridgeStore.Store.AddBridge | src/darkloom/manager.py:184-197 | result, file and memory for every line and every outcome of the read and the write, also where `ValueError` leaves the call |
| StoreLaws.LoadLineExactly | src/darkloom/bridges.py:203-210 | a line of the file gives the bridge it parses to, and nothing else does |
| StoreLaws.SaveRefused | src/darkloom/bridges.py:223-225 | one line that does not parse stops a save before it writes |
| StoreLaws.SaveExactly | src/darkloom/bridges.py:227-233 | the text of the file and the error for every outcome of a save |
| StoreLaws.AddRefused | src/darkloom/manager.py:186-191 | an invalid or a remembered line changes nothing |
| StoreLaws.AddExactly | src/darkloom/manager.py:192-197 | result, file and memory for a new line and every outcome |
| BridgeStore.AppendLoads | src/darkloom/bridges.py:228-233 | appending to a finished file adds exactly the readable bridges of the batch |
| BridgeStore.OverwriteLoads | src/darkloom/bridges.py:228-233 | overwriting leaves exactly the readable bridges of the batch |
| BridgeStore.AddKeepsMemoryOnDisk | src/darkloom/manager.py:184-197 | whatever the write does, every remembered bridge loads from the file and none on disk is lost |
| BridgeAppend.AppendExactly | src/darkloom/bridges.py:229-232 | appending a batch adds its bridges and disturbs nothing if and only if the old text is empty or ends with a line break, or the batch has nothing to lose: it is empty, or its first line cannot be read and neither can the unfinished one |
| BridgeAppend.GluedLine | src/darkloom/bridges.py:108-145 | no text in front of a canonical line leaves it the same bridge |
| Archive.NormalisedIsClean | src/darkloom/downloader.py:58-69 | an accepted name has no parent steps, separators of any platform or NUL |
| Archive.PosixInjective | src/darkloom/downloader.py:84-88 | comparing texts compares paths, so the duplicate check is sound |
| Archive.ResolveCounts | src/darkloom/downloader.py:100-116 | the stack machine accepts a target if and only if no prefix climbs above the root and no part has a backslash, and its depth is the count |
| Archive.ResolveTarget | src/darkloom/downloader.py:100-116 | the loop computes the stack machine and accepts exactly the safe targets |
| Archive.InspectMember | src/darkloom/downloader.py:90-123 | one member passes if and only if its kind, target, size and execute bits are sound |
| Archive.InspectArchive | src/darkloom/downloader.py:72-135 | a plan if and only if the archive is acceptable, and then the member list in order with its paths |
| ArchiveLaws.NameExactly | src/darkloom/downloader.py:58-69 | exactly the accepted member names, and the path of each |
| ArchiveLaws.TargetExactly | src/darkloom/downloader.py:100-116 | exactly the accepted link targets |
| ArchiveLaws.ModeDigits | src/darkloom/downloader.py:119 | the execute bits are the odd permission digits |
| ArchiveLaws.AcceptableExactly | src/darkloom/downloader.py:72-135 | exactly the acceptable archives, condition by condition |
| ArchiveLaws.PlanExactly | src/darkloom/downloader.py:125 | the plan has the members in their order, each with its path |
| ArchiveLaws.LinkStaysBelow | src/darkloom/downloader.py:100-116 | following an accepted link through real directories ends below the staging directory, at the place its steps resolve to |
| ArchiveLaws.AcceptedLinkStaysBelow | src/darkloom/downloader.py:72-135 | so does every link of an accepted archive |
| FileSystem.MakeAllGrows | src/darkloom/downloader.py:170-174 | making directories through any links adds, changes and removes no regular file |
| FileSystem.WalkKeeps | src/darkloom/downloader.py:169-174 | a path that was found is found at the same place after anything has been added |
| FileSystem.MakeAllTree | src/darkloom/downloader.py:154-157 | below a tree without links `mkdir` makes real directories of the whole path and adds nothing off that path |
| FileSystem.MakeAllClear | src/darkloom/downloader.py:154-157 | `mkdir` succeeds where only directories stand on the way, and adds directories on that way only |
| FileSystem.FileStops | src/darkloom/downloader.py:154-157 | a regular file on the way makes `mkdir` fail |
| FileSystem.MadeExactly | src/darkloom/downloader.py:170-173 | through any links `mkdir` with parents succeeds if and only if the path is a directory already or leads, at some step, to a place where nothing stands |
| FileSystem.NodeExactly | src/darkloom/downloader.py:172-174 | with its parents made a link can be made if and only if its path so opens |
| FileSystem.MadeInTree | src/darkloom/downloader.py:161-167 | an exclusive create lands where its name says, below real directories |
| Extraction.Staging.FillStaging | src/darkloom/downloader.py:150-167 | the first phase succeeds if and only if every file can be read and no other stored member is at or below its path; then the regular files are exactly the archive's, with their contents, below real directories |
| Extraction.Staging.MakeLinks | src/darkloom/downloader.py:169-174 | every link is at its place, and no regular file anywhere was added, changed or removed; success if and only if each target is usable and each path opens in the tree with the links before it, links below links included; for that no stored member may be at or below a link's path and no file above it, which is enough if no link is below another |
| Extraction.Staging.VerifyDigests | src/darkloom/downloader.py:176-184 | success if and only if every pinned name is a regular file with its digest, which then has mode 0755 |
| Extraction.Staging.RestrictModes | src/darkloom/downloader.py:186-189 | every other listed regular file loses its execute bits, links are not followed |
| Extraction.Staging.Extract | src/darkloom/downloader.py:138-189 | on success the exact regular files, directories and links of the archive, pinned files with mode 0755 and all others with 0600; success if and only if the archive is acceptable, its files can be read and have their places, its links open one after the other and every pinned digest is that of a regular file, case aside; in every case no regular file outside staging differs |
| Extraction.FurnishedOnce | src/darkloom/downloader.py:150-167 | the state in which the first link is made is determined by the plan and the state before |
| Install.Site.AtomicInstall | src/darkloom/downloader.py:192-208 | exactly when it returns and when it raises; in every intermediate state neither tree is lost; a rollback that works restores the old state; the destination ends as the old or the new tree if and only if the failure does not strand it |
| SecureFiles.ReplaceKeeps | src/darkloom/secure_files.py:148-149 | what replaces the file is the update of what is in it now |
| SecureFiles.MutualExclusion | src/darkloom/secure_files.py:94-123 | no two processes are inside the lock |
| SecureFiles.Serialized | src/darkloom/secure_files.py:94-157 | over any interleaving with failures and crashes the file is the initial one with the committed updates applied in lock order |
| SecureFiles.ReaderSeesOneVersion | src/darkloom/secure_files.py:126-157 | an unlocked reader has a prefix of the one version that was current when it opened the file |
| SecureFiles.CommittedForGood | src/darkloom/secure_files.py:149-157 | an update past its replace stays in the file whatever happens later |
| SecureFiles.NothingLeftBehind | src/darkloom/secure_files.py:156-157 | without crashes or failed unlinks no temporary file outlives its writer |
| SecureFiles.UndisturbedCommits | src/darkloom/secure_files.py:132-157 | a writer that finds the lock free and meets no failure commits its update |
| SecureFiles.CrashFrees | src/darkloom/secure_files.py:94-123 | a process that dies gives the lock back and leaves the file |
| SecureFiles.FailureReleases | src/darkloom/secure_files.py:111-157 | so does one that meets an exception; a temporary file stays exactly if it had one and could not unlink it |
| SecureFiles.NothingToWrite | src/darkloom/gateway.py:372-374 | an update that makes nothing of the file leaves it and gives the lock back |
| SecureFiles.ReaderGetsAll | src/darkloom/secure_files.py:126-129 | a reader that reads to the end has the whole text |
| PrivateFile.PrivateFile.AtomicWrite | src/darkloom/secure_files.py:132-157 | all of the text or none, for a failure at any statement, and when a temporary file remains |
| PrivateFile.PrivateFile.Update | src/darkloom/secure_files.py:94-157 | when a locked update takes effect and when it completes, for every place of a failure; the lock is always released |
| SharedFiles.ConcurrentAppends | src/darkloom/bridges.py:214-233 | concurrent saves in append mode leave the initial text and the whole batches in lock order, which load as the initial bridges and theirs |
| SharedFiles.UnlockedReader | src/darkloom/bridges.py:214-233 | a reader without the lock gets the initial text and whole batches only |
| SharedEnv.LastCallWins | src/darkloom/gateway.py:341-391 | concurrent writes and removals of `.env` leave what the last call alone makes of the initial file, missing or not, with its last line finished if there was a write; of an armed file, what the calls after the first healthy write leave of that write's text, or that text itself if all later calls raise |
| SharedEnv.RetiredAlike | src/darkloom/gateway.py:341-391 | what a call leaves after the first healthy write of an armed footprint does not depend on that write's port |
| Leases.OnePlace | src/darkloom/daemon.py:166-181 | every lease is active and whole, or with exactly one thread, or discarded and all zero at unchanged length |
| Leases.RemovedOnce | src/darkloom/daemon.py:175-181 | no lease is removed twice or becomes active again |
| Leases.DiscardedForGood | src/darkloom/daemon.py:110-118 | a discarded lease never authenticates again and stays wiped |
| Leases.ShutdownErasesAll | src/darkloom/daemon.py:422-428 | once discard-all and all threads are done no secret byte is left |
| Leases.IssuedIsActive | src/darkloom/daemon.py:166-173 | issuing makes one new active lease with its secrets and changes no other |
| Leases.DiscardCompletes | src/darkloom/daemon.py:175-181 | an idle thread can discard any active lease, which ends wiped and marked, and no other changes |
| Leases.TakeAllEmpties | src/darkloom/daemon.py:422-428 | discarding all takes every active lease at once |
| Leases.ErasingProceeds | src/darkloom/daemon.py:115-118 | a thread that is erasing is never stuck |
| Credentials.SocksCredential.Discard | src/darkloom/daemon.py:115-118 | both arrays zero at their lengths, no authentication afterwards |
| Credentials.TorDaemon.Issue | src/darkloom/daemon.py:166-173 | a fresh credential joins the active set and shares no memory with others |
| Credentials.TorDaemon.DiscardOne | src/darkloom/daemon.py:175-181 | only an active credential is discarded, and the others keep their bytes |
| Credentials.TorDaemon.DiscardAll | src/darkloom/daemon.py:422-428 | the set is empty and every credential that was in it is wiped |

## Left out

- Gateway.EstablishPolicy: whether a value is a SOCKS URL, local or not, or one that `urlsplit` rejects, is a parameter, because parsing URLs belongs to the standard library.
- Addresses.ParseV6: refuses zone identifiers (section 11 of RFC 4007) and its inverse prints IPv4-mapped addresses without dotted notation; `Zones` covers both for addresses alone.
- Bridges.ParseLine: lines whose address has a zone identifier are refused here, so what the other modules say of accepted lines, of their characters and of files of them is said of lines without one.
- FileSystem.Walk: `.` and empty parts are no steps, so a trailing slash does not demand a directory; directory modes and ownership are not modelled.
- Extraction.Staging.Extract: says nothing about disk errors or where links lead beyond the lexical check; a member whose content cannot be read fails before its file is created.
- GatewayFile.RestartsExactly: the `.env` file has no other writer there; several writers are the subject of `SharedEnv`.
- Install.Site.AtomicInstall: a tree is one value, so a rename between file systems and a crash of the machine are not modelled.
- SecureFiles.Serialized: owner and type checks of paths, creation of the private directory and a failing unlock are not steps of the model.
- Leases.OnePlace: what the lock protects is one step; uniqueness of random secrets is not claimed, nor are copies the interpreter may keep.
- The Tor process, its control and SOCKS sockets, the HTTP client, GnuPG and the download: scripts of outcomes only.
- `policy.py`, `hardening.py`, `proxy_http.py`: case analyses that one reading settles.
- `privacy.py`: depends on regular-expression replacement, not on the repository's own logic.
- Windows branches (access lists, case-insensitive environment, `msvcrt` locks) and asynchronous interrupts.
- Log messages and the texts of errors; which error is raised is kept where callers can tell.
