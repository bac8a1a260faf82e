# A verified model of the key-routing proxy

The proxy sits between clients and a set of key/value backends. At start-up it
reads its command line (`-port <p>`, one or more `-server <address> <port>`).
Then it probes each backend to learn whether it speaks TCP or UDP, asks each one
for its key names (`GET NAMES`, answered `OK <count> <k1> ... <kn>`) and records
which backend owns which key. After that it answers client lines:

- `GET NAMES` from its own registry;
- `GET VALUE k` and `SET k v` by forwarding to the owner of `k`;
- `QUIT` by broadcasting to every backend;
- anything else with `NA`.

The Dafny project models this routing core:

| file | module | models |
|---|---|---|
| `wrappers.dfy` | `Wrappers` | `Option` (Java `null`) and `Result` (a thrown `IllegalArgumentException`) |
| `java_text.dfy` | `JavaText` | the `java.lang` behaviour the core relies on: `String.trim`, `split("\\s+")`, `startsWith`, `Integer.parseInt`, the decimal text of an `int`, 32-bit wrap-around |
| `server_info.dfy` | `Model` | `ServerInfo`: constant address and port, a mutable protocol, and `equals`/`hashCode` on (address, port) |
| `wire.dfy` | `Wire` | the network as a deterministic oracle, plus `ServerForwarder.forwardToServer` |
| `key_discovery.dfy` | `Discovery` | `KeyDiscovery`: protocol detection, key-listing parsing, the per-backend discovery loop and the registry reads |
| `command_processor.dfy` | `Command` | `CommandProcessor`: tokenising and dispatch, the `GET NAMES` listing, lookup-then-forward, the `QUIT` broadcast |
| `proxy_config.dfy` | `Config` | `ProxyConfig.parseArguments` and the configuration object |

Socket work is not modelled as I/O. Every exchange is one call of a
`Network = (Endpoint, Protocol, Phase, string) -> Option<string>`:

- `None` means a refused connection, a timeout, a lost datagram or a stream closed before a line arrived.
- `Phase` tells apart the three exchanges, which run under different timeouts: probe, discovery and forwarding.
- A TCP reply is used as the line read. A UDP reply is trimmed, as the source trims every datagram it receives.

The state-changing parts are classes whose methods are proved against specification functions:

- `KeyDiscovery` holds the routing map and key set and keeps them in step.
- `ServerInfo.protocol` is set in place.
- `ParseArguments` walks the argument array with an index.

Properties proved include:

- the registry invariant;
- last-writer-wins ownership;
- that a GET NAMES reply is read back by the discovery parser as exactly the registered keys;
- the command-line round trip and that trailing tokens are ignored;
- that the QUIT broadcast reaches every backend in order;
- that a later `-port` overrides an earlier one;
- that backends are collected in order;
- that a bad or out-of-range port, a missing `-port` or a missing `-server` is refused with its own error;
- that a forwarded request relays the owner's answer to the client;
- the port-range guarantees.

## Model

| member | source | states |
|---|---|---|
| JavaText.Trim | src/command/CommandProcessor.java:23 | `trim()` leaves a result that is empty or starts and ends above U+0020, and leaves a string that already does so unchanged |
| JavaText.SplitWs | src/command/CommandProcessor.java:27 | `split("\\s+")` on a string that does not start with whitespace yields its maximal whitespace-free runs, at least one |
| JavaText.TokensOfWordThen | src/discovery/KeyDiscovery.java:276 | a token followed by space-prefixed tokens splits back into exactly those tokens |
| JavaText.SpacePrefixedSnoc | src/command/CommandProcessor.java:72-74 | appending `" " + key` to the listing extends it by one space-prefixed key |
| JavaText.JoinedPlainTokens | src/command/CommandProcessor.java:27 | a line of plain tokens joined by single spaces is unchanged by trim and splits into exactly those tokens |
| JavaText.ParseInt | src/discovery/KeyDiscovery.java:283 | `Integer.parseInt` succeeds exactly on an optional sign followed by at least one digit whose signed decimal value is in the 32-bit range, and then returns that value; a negative result comes from a leading '-' |
| JavaText.FormatNat | src/command/CommandProcessor.java:70 | the decimal text of a count is non-empty, all digits, denotes the count and has no leading zero |
| JavaText.ParseFormatNat | src/command/CommandProcessor.java:70 | parsing the decimal text of an int-sized count gives the count back |
| JavaText.Wrap32 | src/discovery/KeyDiscovery.java:285 | 32-bit `int` addition: the result is in range, congruent to the exact sum mod 2^32, and exact when no overflow occurs |
| JavaText.WrapPastMax | src/discovery/KeyDiscovery.java:285 | a 32-bit sum one or two past the largest `int` wraps to a negative value |
| Model.StringHash | src/model/ServerInfo.java:55 | `String.hashCode` stays within the 32-bit range |
| Model.ServerInfo.constructor | src/model/ServerInfo.java:11-15 | the two-argument constructor keeps address and port and sets protocol TCP |
| Model.ServerInfo.WithProtocol | src/model/ServerInfo.java:17-21 | the three-argument constructor keeps all three values |
| Model.ServerInfo.SetProtocol | src/model/ServerInfo.java:35-37 | only the protocol changes; address and port are constants |
| Model.ServerInfo.HashCode | src/model/ServerInfo.java:53-56 | `Objects.hash(address, port)` is a 32-bit value |
| Model.ServerInfo.Equals | src/model/ServerInfo.java:45-51 | a record equals itself, and anything it equals is a non-null `ServerInfo` |
| Model.EqualsIffSameEndpoint | src/model/ServerInfo.java:45-51 | equals holds exactly for a non-null `ServerInfo` with the same address and port |
| Model.EqualsIgnoresProtocol | src/model/ServerInfo.java:45-51 | two records with one endpoint are equal in both directions whatever their protocols |
| Model.EqualsIsEquivalence | src/model/ServerInfo.java:45-51 | equals is reflexive, symmetric and transitive |
| Model.EqualsImpliesSameHash | src/model/ServerInfo.java:53-56 | equal records have equal hash codes |
| Wire.Deliver | src/command/ServerForwarder.java:26-131 | a forwarded command yields NA when nothing comes back; otherwise the backend's answer is relayed, as the line read over TCP and as the trimmed datagram over UDP |
| Discovery.TcpProbeSucceeds | src/discovery/KeyDiscovery.java:94-128 | the TCP probe passes exactly when a reply line arrived and its first two characters are "OK" |
| Discovery.UdpProbeSucceeds | src/discovery/KeyDiscovery.java:130-172 | the UDP probe passes exactly when a datagram arrived whose trimmed text passes the "OK" test; every reply that passes over TCP also passes over UDP |
| Discovery.ChooseProtocol | src/discovery/KeyDiscovery.java:72-89 | UDP is chosen exactly when the TCP probe fails and the UDP probe succeeds; a TCP success always gives TCP; both failing gives TCP |
| Discovery.ProbeIsPrefixTest | src/discovery/KeyDiscovery.java:110-163 | a probe reply passes by the "OK" prefix alone; leading blanks pass only over UDP, which trims |
| Discovery.ListingReply | src/discovery/KeyDiscovery.java:177-265 | the listing is missing exactly when the backend gives no reply on its transport; a UDP listing is already trimmed |
| Discovery.ListedKeys | src/discovery/KeyDiscovery.java:271-290 | every recorded key is a whitespace-free token |
| Discovery.ListedKeysAreHeadOfRest | src/discovery/KeyDiscovery.java:285 | exactly min(count, tokens after the count) keys are taken, none for count <= 0, and they are the first tokens after the count |
| Discovery.SplitOkListing | src/discovery/KeyDiscovery.java:272-276 | `OK <c> <k>` passes the prefix test and splits into its three tokens |
| Discovery.ListingOfParts | src/discovery/KeyDiscovery.java:271-285 | once the prefix, arity and count checks pass, the recorded keys are the slice `parts[2..min(2+count, length)]` |
| Discovery.ListedKeysAsWritten | src/discovery/KeyDiscovery.java:285 | the keys the 32-bit loop takes are a prefix of the intended ones, and the same keys whenever the count is below 2147483646 |
| Discovery.CountOverflowDropsKeys | src/discovery/KeyDiscovery.java:283-290 | for a count of 2147483646 or 2147483647 the loop as written records nothing, while the intended bound records the listed key |
| Discovery.OverflowingCount | src/discovery/KeyDiscovery.java:285 | with a count of 2147483646 or more, the loop as written takes no key while the intended bound takes every token after the count |
| Discovery.DiscoveredKeys | src/discovery/KeyDiscovery.java:40-61 | after discovery a key is routed exactly when it was routed before or some backend listed it |
| Discovery.LastListerOwns | src/discovery/KeyDiscovery.java:287 | a key is owned by the last backend in list order that listed it |
| Discovery.UnlistedKeyUnchanged | src/discovery/KeyDiscovery.java:285-288 | a key no backend lists keeps its presence and its owner |
| Discovery.SilentServerIsolated | src/discovery/KeyDiscovery.java:45-61 | a backend that lists nothing leaves the routing map as if it were not configured |
| Discovery.UnreachableServerListsNothing | src/discovery/KeyDiscovery.java:205-209 | a backend that gives no listing reply contributes no key |
| Discovery.KeyDiscovery.constructor | src/discovery/KeyDiscovery.java:32-35 | the registry starts empty and satisfies its invariant |
| Discovery.KeyDiscovery.DiscoverKeys | src/discovery/KeyDiscovery.java:40-67 | the routing map becomes the fold of every backend's listing in list order, every backend ends with its detected protocol, and the invariant is kept |
| Discovery.KeyDiscovery.DiscoverFromServer | src/discovery/KeyDiscovery.java:45-60 | one backend is detected and then listed; no failure escapes, and only that backend's keys change |
| Discovery.KeyDiscovery.DetectProtocol | src/discovery/KeyDiscovery.java:72-89 | the backend's protocol becomes the choice made from its two probe outcomes |
| Discovery.KeyDiscovery.DiscoverKeysFromServer | src/discovery/KeyDiscovery.java:176-264 | the listing is fetched over the backend's own transport (UDP payload trimmed) and recorded; a missing reply records nothing |
| Discovery.KeyDiscovery.ParseKeysResponse | src/discovery/KeyDiscovery.java:271-294 | the map gains exactly the listed keys, all owned by this backend, overwriting older owners; every other key is unchanged; a malformed reply changes nothing. The listed keys use the intended unbounded `2 + count`; the 32-bit bound as written is Discovery.ListedKeysAsWritten (see Findings) |
| Discovery.KeyDiscovery.RecordKeys | src/discovery/KeyDiscovery.java:285-290 | the loop puts `parts[2..min(2+count, length)]` into both the map and the key set, keeping them equal. The bound is the intended unbounded `2 + count`; the 32-bit bound as written is Discovery.ListedKeysAsWritten (see Findings) |
| Discovery.KeyDiscovery.GetServerForKey | src/discovery/KeyDiscovery.java:299-301 | an owner is returned exactly for a routed key, and it is that key's owner |
| Discovery.KeyDiscovery.GetAllKeys | src/discovery/KeyDiscovery.java:306-308 | the key set equals the routing map's domain |
| Discovery.KeyDiscovery.HasKey | src/discovery/KeyDiscovery.java:313-315 | hasKey(k) holds exactly when getServerForKey(k) is not null |
| Discovery.KeyDiscovery.GetKeyCount | src/discovery/KeyDiscovery.java:320-322 | the count is the number of routed keys |
| Command.Classify | src/command/CommandProcessor.java:30-59 | a recognised request is spelled by the first tokens of the line, and a first token other than GET, SET or QUIT (case-sensitive) is never recognised |
| Command.ParseRequest | src/command/CommandProcessor.java:22-28 | a null, empty or blank line is invalid; a recognised request's words are a prefix of the trimmed line's tokens |
| Command.ParseJoined | src/command/CommandProcessor.java:27 | a line of plain tokens is classified on exactly those tokens |
| Command.ClassifyWords | src/command/CommandProcessor.java:47-106 | the words of any request, followed by any tokens, classify as that request |
| Command.RequestLineRoundTrip | src/command/CommandProcessor.java:22-44 | writing a request as a command line and parsing it gives the request back |
| Command.TrailingTokensIgnored | src/command/CommandProcessor.java:52-57 | GET NAMES, GET VALUE k, SET k v and QUIT ignore any tokens after them |
| Command.ForwardedLineSpelling | src/command/CommandProcessor.java:87 | the forwarded lines "GET VALUE " + key and "SET " + key + " " + value are the requests' canonical command lines |
| Command.EmptyListing | src/command/CommandProcessor.java:65-67 | "OK 0" is the listing of the empty key set |
| Command.ListingSplits | src/command/CommandProcessor.java:69-76 | "OK", a count token and space-prefixed key tokens pass the "OK" prefix test and split back into exactly those tokens |
| Command.NamesListingRoundTrip | src/command/CommandProcessor.java:69-76 | the discovery parser reads a GET NAMES reply back as exactly the listed keys, in order |
| Command.NamesReplyListsRegistry | src/command/CommandProcessor.java:62-76 | whatever order the set was walked in, the parsed reply holds every registered key exactly once |
| Command.BroadcastInOrder | src/command/CommandProcessor.java:111-113 | the QUIT broadcast holds one message per configured backend, in list order |
| Command.CommandProcessor.ForwardedReplyRelayed | src/command/CommandProcessor.java:80-106 | a served GET VALUE or SET for a routed key sends one message to the owner, and the client gets the owner's answer (trimmed over UDP) or NA when none came back |
| Command.CommandProcessor.constructor | src/command/CommandProcessor.java:15-19 | the router keeps the registry and backend list it was given |
| Command.CommandProcessor.ProcessCommand | src/command/CommandProcessor.java:22-44 | the reply and the messages sent are those the parsed request calls for (NA; the listing; forward to the owner only; the QUIT broadcast with reply "") |
| Command.CommandProcessor.HandleGet | src/command/CommandProcessor.java:47-60 | GET needs NAMES or VALUE with a key; anything else is NA and sends nothing |
| Command.CommandProcessor.HandleGetNames | src/command/CommandProcessor.java:62-77 | the reply is "OK", the key count, then every registered key exactly once, in some order |
| Command.CommandProcessor.HandleGetValue | src/command/CommandProcessor.java:80-88 | an unknown key gives NA and sends nothing; a known key sends "GET VALUE k" to its owner alone and returns the reply unchanged |
| Command.CommandProcessor.HandleSet | src/command/CommandProcessor.java:91-106 | fewer than three tokens or an unknown key gives NA; otherwise "SET k v" goes to the owner alone and its reply is returned |
| Command.CommandProcessor.HandleQuit | src/command/CommandProcessor.java:108-113 | "QUIT" is sent to every configured backend in list order, whatever keys it owns |
| Config.ParseArgs | src/config/ProxyConfig.java:29-79 | fewer than 4 arguments is an error; on success the port is in 1..65535 and there is at least one backend, every one with a port in 1..65535 |
| Config.Scan | src/config/ProxyConfig.java:39-68 | a successful walk only appends backends, and any port it changes is in 1..65535 |
| Config.ScanKeepsPortsValid | src/config/ProxyConfig.java:39-68 | every stored port passes the range check, and backends are only ever appended |
| Config.ScanAppend | src/config/ProxyConfig.java:39-68 | once a prefix of the arguments has been read without error, the walk continues from the state it left |
| Config.ScanWithoutPortKeepsPort | src/config/ProxyConfig.java:39-68 | arguments without a `-port` never change the proxy port |
| Config.LaterPortWins | src/config/ProxyConfig.java:45 | after a valid `-port p` with no later `-port`, the proxy port is p whatever came before |
| Config.ServersInOrder | src/config/ProxyConfig.java:63 | a valid `-server a p` adds Endpoint(a, p) right after the backends collected before it |
| Config.UnknownArgumentSkipped | src/config/ProxyConfig.java:39-68 | an argument other than `-port`/`-server` in option position changes nothing |
| Config.MissingOperandsRejected | src/config/ProxyConfig.java:41-55 | a trailing `-port`, or `-server` with fewer than two operands, is an error |
| Config.ScanWithoutServerKeepsServers | src/config/ProxyConfig.java:39-68 | arguments without a `-server` add no backend |
| Config.BadPortRejected | src/config/ProxyConfig.java:44-51 | a `-port` value that is not an int fails with BadPort(value), and one outside 1..65535 with PortOutOfRange, whatever follows |
| Config.BadServerPortRejected | src/config/ProxyConfig.java:53-66 | a `-server` port that is not an int fails with BadServerPort(value), and one outside 1..65535 with ServerPortOutOfRange, whatever follows |
| Config.NoPortRejected | src/config/ProxyConfig.java:70-72 | a command line of at least 4 arguments that never names `-port` and walks without error is refused with NoPort |
| Config.NoServersRejected | src/config/ProxyConfig.java:74-76 | a command line that sets the port but never names `-server` is refused with NoServers |
| Config.ProxyConfig.GetProxyPort | src/config/ProxyConfig.java:20-22 | returns the configured proxy port |
| Config.ProxyConfig.GetServers | src/config/ProxyConfig.java:24-26 | returns the configured backend list, as a value rather than an alias |
| Config.ProxyConfig.constructor | src/config/ProxyConfig.java:15-18 | the configuration holds its own copy of the port and the backend list |
| Config.ParseArguments | src/config/ProxyConfig.java:29-79 | the index walk fails exactly when, and with the error that, the argument specification gives; on success it gives that port and those backends in order, all starting as TCP |

## Left out

- Socket I/O, timeouts and byte encodings are an oracle, `Network`. It is deterministic: the same request to the same backend in the same phase gets the same answer. `Phase` stands for the three timeout settings.
- Threads, the `ConcurrentHashMap` and concurrent key set, the TCP and UDP listeners, the client handlers and `Proxy.java`'s start-up wiring. These are concurrency and plumbing.
- The delayed `System.exit` thread in `handleQuit`. Process termination is not modelled.
- Logging (`System.out`/`System.err`) and `toString`.
- The exception messages of `parseArguments`. They are replaced by the `ArgError` constructors, one per throw site.
- `sendWithoutResponse` becomes a recorded `Message`. Whether the send succeeded is not modelled, because the source ignores it.
- Forwarded datagrams carry the bare command. This follows `ServerForwarder`, which sends `command.getBytes()`. The specification instead describes a trailing delimiter byte.
- JavaText.ParseInt: accepts ASCII digits only, because Java also accepts other Unicode decimal digits and the model has no Unicode tables.
- Model.StringHash: hashes each Dafny `char` (a Unicode scalar value) as one unit. Java hashes UTF-16 code units, so characters outside the Basic Multilingual Plane hash differently.
- Model.ServerInfo.HashCode: a null address is not modelled, because the model's strings are never null.
- Discovery.KeyDiscovery.GetKeyCount: returns the exact count, because Java's `size()` saturates at 2147483647 and no real registry reaches that size.
- Command.NamesListingRoundTrip: assumes at most 2147483647 keys, for the same reason: `append(allKeys.size())` writes a saturated `int`.
- Command.RequestLineRoundTrip: covers keys and values made of characters above U+0020 only. A token may contain a control character that is not in `\s`, and trim strips such a character from the ends of a forwarded line.

## Findings

| source | as written | input that shows it | evidently intended | confidence | as-written member | corrected member |
|---|---|---|---|---|---|---|
| src/discovery/KeyDiscovery.java:285 | the loop bound `2 + count` is computed in 32-bit `int`, so a count of 2147483646 or more wraps to a negative bound and no key is recorded | the listing reply `OK 2147483647 a` records nothing | record `min(count, tokens available)` keys, as for any other count (here `a`) | not executed | Discovery.CountOverflowDropsKeys | Discovery.ListedKeysAreHeadOfRest |
