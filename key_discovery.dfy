/**
 * Key discovery (`discovery.KeyDiscovery`): detect each backend's transport,
 * ask it for its key names, and record key -> backend in a routing map kept
 * together with the set of all known keys.
 */
module Discovery {
  import opened Wrappers
  import opened JavaText
  import opened Model
  import opened Wire

  /** The name-enumeration request sent by probes and by discovery. */
  const NAMES_REQUEST: string := "GET NAMES"

  // ---------------------------------------------------------------------------
  // Protocol detection

  /** `tryTCP`: a reply line arrived and starts with "OK" (a prefix test, not a token test). */
  function TcpProbeSucceeds(reply: Option<string>): (ok: bool)
    ensures ok <==> reply.Some? && |reply.value| >= 2 && reply.value[0] == 'O' && reply.value[1] == 'K'
  {
    reply.Some? && StartsWith(reply.value, "OK")
  }

  /** `tryUDP`: a datagram arrived and, once trimmed, starts with "OK". */
  function UdpProbeSucceeds(reply: Option<string>): (ok: bool)
    ensures ok <==> reply.Some? && TcpProbeSucceeds(Some(Trim(reply.value)))
    ensures TcpProbeSucceeds(reply) ==> ok
  {
    if reply.Some? && TcpProbeSucceeds(reply) then
      var v := reply.value;
      assert TrimStart(v) == v;
      assert |TrimEnd(v)| >= 2;
      assert Trim(v)[..2] == v[..2];
      true
    else
      reply.Some? && StartsWith(Trim(reply.value), "OK")
  }

  /** The choice `detectProtocol` makes from its two probes, TCP tried first. */
  function ChooseProtocol(tcpOk: bool, udpOk: bool): (p: Protocol)
    ensures p == UDP <==> !tcpOk && udpOk
    ensures tcpOk ==> p == TCP
  {
    if tcpOk then TCP else if udpOk then UDP else TCP
  }

  function DetectedProtocol(net: Network, e: Endpoint): Protocol {
    ChooseProtocol(TcpProbeSucceeds(net(e, TCP, Probe, NAMES_REQUEST)),
                   UdpProbeSucceeds(net(e, UDP, Probe, NAMES_REQUEST)))
  }

  /** "OK" followed by anything passes a probe; leading blanks pass only over UDP, which trims. */
  lemma ProbeIsPrefixTest(rest: string)
    ensures TcpProbeSucceeds(Some("OK" + rest))
    ensures UdpProbeSucceeds(Some(" OK"))
    ensures !TcpProbeSucceeds(Some(" OK"))
  {
    assert "OK" <= "OK" + rest;
    var padded := " OK";
    assert padded[0] == ' ' && padded[1..] == "OK";
    assert TrimStart("OK") == "OK";
    assert TrimStart(padded) == "OK";
    assert Trim(padded) == "OK";
  }

  // ---------------------------------------------------------------------------
  // The key listing

  /** What discovery parses: the TCP reply line as read, or the UDP datagram trimmed. */
  function ListingReply(net: Network, e: Endpoint, p: Protocol): (r: Option<string>)
    ensures r.None? <==> net(e, p, Discovery, NAMES_REQUEST).None?
    ensures r.Some? && p == UDP ==> Trim(r.value) == r.value
  {
    match net(e, p, Discovery, NAMES_REQUEST)
    case None => None
    case Some(r) =>
      if p == TCP then Some(r)
      else
        var t := Trim(r);
        assert t == [] || (t[0] > ' ' && t[|t| - 1] > ' ');
        Some(t)
  }

  function Min(a: int, b: int): int {
    if a < b then a else b
  }

  /** The header of an `OK <count> <k1> ... <kn>` reply: its tokens and the parsed count,
      or `None` when the reply is missing, lacks the "OK" prefix, has fewer than two
      tokens, or its count is not an int. */
  function ListingHeader(response: Option<string>): Option<(seq<string>, int)> {
    if response.None? || !StartsWith(response.value, "OK") then None
    else
      var parts := SplitWs(response.value);
      if |parts| < 2 then None
      else match ParseInt(parts[1])
        case None => None
        case Some(count) => Some((parts, count))
  }

  /** The keys `parseKeysResponse` records: the tokens after the count, at most `count` of them. */
  function ListedKeys(response: Option<string>): (keys: seq<string>)
    ensures forall k :: k in keys ==> IsToken(k)
  {
    match ListingHeader(response)
    case None => []
    case Some((parts, count)) =>
      assert response.value[0] == 'O';
      parts[2..if count <= 0 then 2 else Min(2 + count, |parts|)]
  }

  /** Exactly `min(count, tokens available)` keys are taken, none for a count of zero or less,
      and they are the tokens right after the count, in order. */
  lemma ListedKeysAreHeadOfRest(response: Option<string>)
    requires ListingHeader(response).Some?
    ensures var (parts, count) := ListingHeader(response).value;
      && |ListedKeys(response)| == (if count <= 0 then 0 else Min(count, |parts| - 2))
      && ListedKeys(response) <= parts[2..]
  {
  }

  /** The loop bound of the source, `2 + count`, in Java's 32-bit arithmetic. */
  function ListedKeysAsWritten(response: Option<string>): (keys: seq<string>)
    ensures keys <= ListedKeys(response)
    ensures ListingHeader(response).Some? && ListingHeader(response).value.1 < INT_MAX - 1 ==>
              keys == ListedKeys(response)
  {
    match ListingHeader(response)
    case None => []
    case Some((parts, count)) =>
      var bound := Wrap32(2 + count);
      parts[2..if bound <= 2 then 2 else Min(bound, |parts|)]
  }

  /** A count of 2147483646 or 2147483647 makes `2 + count` wrap to a negative bound, so the
      source records no key at all where the intended reading records every listed key
      (for instance `OK 2147483647 a`). */
  lemma CountOverflowDropsKeys(n: nat, k: string)
    requires INT_MAX - 1 <= n <= INT_MAX
    requires IsToken(k)
    ensures var reply := Some("OK" + SpacePrefixed([FormatNat(n), k]));
      ListedKeysAsWritten(reply) == [] && ListedKeys(reply) == [k]
  {
    var c := FormatNat(n);
    var text := "OK" + SpacePrefixed([c, k]);
    FormatNatIsToken(n);
    ParseFormatNat(n);
    SplitOkListing(c, k);
    var parts := ["OK", c, k];
    ListingOfParts(text, parts, n);
    OverflowingCount(Some(text), parts, n);
  }

  /** With an overflowing count, the loop as written takes nothing and the intended bound
      takes every token after the count. */
  lemma OverflowingCount(response: Option<string>, parts: seq<string>, count: int)
    requires ListingHeader(response) == Some((parts, count))
    requires INT_MAX - 1 <= count <= INT_MAX && 2 <= |parts| <= 2 + count
    ensures ListedKeysAsWritten(response) == []
    ensures ListedKeys(response) == parts[2..]
  {
    WrapPastMax(2 + count);
  }

  /** `OK <c> <k>` splits into its three tokens. */
  lemma SplitOkListing(c: string, k: string)
    requires IsToken(c) && IsToken(k)
    ensures StartsWith("OK" + SpacePrefixed([c, k]), "OK")
    ensures SplitWs("OK" + SpacePrefixed([c, k])) == ["OK", c, k]
  {
    var text := "OK" + SpacePrefixed([c, k]);
    assert text[0] == 'O' && text[..2] == "OK";
    assert IsToken("OK") by {
      forall ch | ch in "OK" ensures !IsWs(ch) {}
    }
    TokensOfWordThen("OK", [c, k]);
  }

  /** Connects the step-by-step checks of `parseKeysResponse` with `ListedKeys`. */
  lemma ListingOfParts(text: string, parts: seq<string>, count: int)
    requires StartsWith(text, "OK") && parts == SplitWs(text) && |parts| >= 2
    requires ParseInt(parts[1]) == Some(count)
    ensures forall t :: t in parts ==> IsToken(t)
    ensures ListingHeader(Some(text)) == Some((parts, count))
    ensures ListedKeys(Some(text)) == parts[2..if count <= 0 then 2 else Min(2 + count, |parts|)]
  {
    assert text[0] == 'O';
    assert ListingHeader(Some(text)) == Some((parts, count));
  }

  // ---------------------------------------------------------------------------
  // Discovery over all backends, as a specification

  /** The keys one backend contributes: its listing, fetched over its detected transport. */
  function ServerKeys(net: Network, s: ServerInfo): seq<string> {
    ListedKeys(ListingReply(net, s.EndpointOf(), DetectedProtocol(net, s.EndpointOf())))
  }

  /** Every key of `keys` mapped to `s`. */
  function MapAll(keys: seq<string>, s: ServerInfo): (m: map<string, ServerInfo>)
    ensures m.Keys == set k | k in keys
    ensures forall k :: k in m ==> m[k] == s
  {
    map k | k in keys :: s
  }

  lemma MapAllSnoc(keys: seq<string>, k: string, s: ServerInfo)
    ensures MapAll(keys + [k], s) == MapAll(keys, s)[k := s]
  {
  }

  lemma OverrideThenUpdate<K, V>(a: map<K, V>, b: map<K, V>, k: K, v: V)
    ensures (a + b)[k := v] == a + b[k := v]
  {
  }

  /** The routing map after discovering `servers` in list order, starting from `m`, when
      backend `s` lists `keysOf(s)`; a later backend overwrites the owner of a key an
      earlier one listed. */
  function Discovered(m: map<string, ServerInfo>, servers: seq<ServerInfo>,
                      keysOf: ServerInfo -> seq<string>): map<string, ServerInfo>
    decreases |servers|
  {
    if servers == [] then m
    else
      var last := servers[|servers| - 1];
      Discovered(m, servers[..|servers| - 1], keysOf) + MapAll(keysOf(last), last)
  }

  /** What each backend lists over the network `net`. */
  function KeysOf(net: Network): ServerInfo -> seq<string> {
    (s: ServerInfo) => ServerKeys(net, s)
  }

  /** A key is routed after discovery exactly when it was routed before or some backend listed it. */
  lemma {:induction false} DiscoveredKeys(m: map<string, ServerInfo>, servers: seq<ServerInfo>,
                                          keysOf: ServerInfo -> seq<string>, k: string)
    ensures k in Discovered(m, servers, keysOf) <==>
            k in m || exists j :: 0 <= j < |servers| && k in keysOf(servers[j])
    decreases |servers|
  {
    if servers != [] {
      var n := |servers| - 1;
      DiscoveredKeys(m, servers[..n], keysOf, k);
      if exists j :: 0 <= j < |servers| && k in keysOf(servers[j]) {
        var j :| 0 <= j < |servers| && k in keysOf(servers[j]);
        if j < n {
          assert servers[..n][j] == servers[j];
        }
      }
      forall j | 0 <= j < n && k in keysOf(servers[..n][j])
        ensures k in keysOf(servers[j])
      {
      }
    }
  }

  /** Last writer wins: the owner of a key is the last backend in list order that listed it. */
  lemma {:induction false} LastListerOwns(m: map<string, ServerInfo>, servers: seq<ServerInfo>,
                                          keysOf: ServerInfo -> seq<string>, k: string, j: nat)
    requires j < |servers| && k in keysOf(servers[j])
    requires forall i :: j < i < |servers| ==> k !in keysOf(servers[i])
    ensures k in Discovered(m, servers, keysOf) && Discovered(m, servers, keysOf)[k] == servers[j]
    decreases |servers|
  {
    var n := |servers| - 1;
    if j < n {
      forall i | j < i < n ensures k !in keysOf(servers[..n][i]) {
        assert servers[..n][i] == servers[i];
      }
      LastListerOwns(m, servers[..n], keysOf, k, j);
    }
  }

  /** A key no backend listed keeps whatever owner it had. */
  lemma {:induction false} UnlistedKeyUnchanged(m: map<string, ServerInfo>, servers: seq<ServerInfo>,
                                                keysOf: ServerInfo -> seq<string>, k: string)
    requires forall i :: 0 <= i < |servers| ==> k !in keysOf(servers[i])
    ensures k in Discovered(m, servers, keysOf) <==> k in m
    ensures k in m ==> Discovered(m, servers, keysOf)[k] == m[k]
    decreases |servers|
  {
    if servers != [] {
      var n := |servers| - 1;
      forall i | 0 <= i < n ensures k !in keysOf(servers[..n][i]) {
        assert servers[..n][i] == servers[i];
      }
      UnlistedKeyUnchanged(m, servers[..n], keysOf, k);
    }
  }

  /** A backend that lists nothing disturbs nothing: discovery gives the same routing map
      as if it were not configured at all. */
  lemma {:induction false} SilentServerIsolated(m: map<string, ServerInfo>, before: seq<ServerInfo>,
                                                silent: ServerInfo, after: seq<ServerInfo>,
                                                keysOf: ServerInfo -> seq<string>)
    requires keysOf(silent) == []
    ensures Discovered(m, before + [silent] + after, keysOf) == Discovered(m, before + after, keysOf)
    decreases |after|
  {
    var all := before + [silent] + after;
    if after == [] {
      assert all[..|all| - 1] == before;
      assert before + after == before;
    } else {
      var n := |after| - 1;
      assert all[..|all| - 1] == before + [silent] + after[..n];
      assert (before + after)[..|before + after| - 1] == before + after[..n];
      SilentServerIsolated(m, before, silent, after[..n], keysOf);
    }
  }

  /** A backend that never answers the listing request (refused, timed out, closed) lists nothing. */
  lemma UnreachableServerListsNothing(net: Network, s: ServerInfo)
    requires ListingReply(net, s.EndpointOf(), DetectedProtocol(net, s.EndpointOf())).None?
    ensures KeysOf(net)(s) == []
  {
  }

  // ---------------------------------------------------------------------------
  // The registry

  class KeyDiscovery {
    var keyToServer: map<string, ServerInfo>
    var allKeys: set<string>

    /** The key set is the routing map's domain, and every key is a whitespace-free token. */
    ghost predicate Valid()
      reads this
    {
      && allKeys == keyToServer.Keys
      && forall k :: k in allKeys ==> IsToken(k)
    }

    constructor ()
      ensures Valid()
      ensures keyToServer == map[] && allKeys == {}
    {
      keyToServer := map[];
      allKeys := {};
    }

    /** `discoverKeys`: each backend in turn has its transport detected and its keys recorded;
        a backend that fails contributes nothing and the loop goes on. */
    method DiscoverKeys(servers: seq<ServerInfo>, net: Network)
      requires Valid()
      modifies this, servers
      ensures Valid()
      ensures keyToServer == Discovered(old(keyToServer), servers, KeysOf(net))
      ensures forall s :: s in servers ==> s.protocol == DetectedProtocol(net, s.EndpointOf())
    {
      ghost var detected := seq(|servers|, j requires 0 <= j < |servers| => DetectedProtocol(net, servers[j].EndpointOf()));
      for i := 0 to |servers|
        invariant Valid()
        invariant keyToServer == Discovered(old(keyToServer), servers[..i], KeysOf(net))
        invariant forall j :: 0 <= j < i ==> servers[j].protocol == detected[j]
      {
        ghost var before := keyToServer;
        var server := servers[i];
        assert detected[i] == DetectedProtocol(net, server.EndpointOf());
        label Probed:
        DiscoverFromServer(server, net);
        forall j | 0 <= j < i + 1 ensures servers[j].protocol == detected[j] {
          if servers[j] == server {
            assert detected[j] == detected[i];
          } else {
            assert servers[j].protocol == old@Probed(servers[j].protocol);
          }
        }
        assert servers[..i + 1][..i] == servers[..i];
        assert keyToServer == before + MapAll(KeysOf(net)(servers[i]), servers[i]);
      }
      assert servers[..|servers|] == servers;
    }

    /** The body of the `discoverKeys` loop for one backend: detect, then list. Failures
        inside either step are absorbed (a probe failure selects TCP, a failed listing adds
        nothing), so no failure reaches the loop. */
    method DiscoverFromServer(server: ServerInfo, net: Network)
      requires Valid()
      modifies this, server`protocol
      ensures Valid()
      ensures server.protocol == DetectedProtocol(net, server.EndpointOf())
      ensures keyToServer == old(keyToServer) + MapAll(KeysOf(net)(server), server)
    {
      DetectProtocol(server, net);
      DiscoverKeysFromServer(server, net);
    }

    /** `detectProtocol`: TCP if the TCP probe succeeds, else UDP if the UDP probe does, else TCP. */
    method DetectProtocol(server: ServerInfo, net: Network)
      modifies server`protocol
      ensures server.protocol == DetectedProtocol(net, server.EndpointOf())
    {
      var e := server.EndpointOf();
      if TcpProbeSucceeds(net(e, TCP, Probe, NAMES_REQUEST)) {
        server.SetProtocol(TCP);
      } else if UdpProbeSucceeds(net(e, UDP, Probe, NAMES_REQUEST)) {
        server.SetProtocol(UDP);
      } else {
        server.SetProtocol(TCP);
      }
    }

    /** `discoverKeysFromServer`: one listing request over the server's transport. */
    method DiscoverKeysFromServer(server: ServerInfo, net: Network)
      requires Valid()
      modifies this
      ensures Valid()
      ensures keyToServer == old(keyToServer)
                + MapAll(ListedKeys(ListingReply(net, server.EndpointOf(), server.protocol)), server)
    {
      var e := server.EndpointOf();
      if server.protocol == TCP {
        var line := net(e, TCP, Discovery, NAMES_REQUEST);
        if line.Some? {
          ParseKeysResponse(line, server);
        }
      } else {
        var payload := net(e, UDP, Discovery, NAMES_REQUEST);
        if payload.Some? {
          ParseKeysResponse(Some(Trim(payload.value)), server);
        }
      }
    }

    /** `parseKeysResponse`: record each listed key as owned by `server`, overwriting any
        earlier owner; a malformed reply changes nothing. */
    method ParseKeysResponse(response: Option<string>, server: ServerInfo)
      requires Valid()
      modifies this
      ensures Valid()
      ensures keyToServer == old(keyToServer) + MapAll(ListedKeys(response), server)
    {
      if response.None? || !StartsWith(response.value, "OK") {
        return;
      }
      var parts := SplitWs(response.value);
      if |parts| < 2 {
        return;
      }
      var parsed := ParseInt(parts[1]);
      if parsed.None? {
        return;  // NumberFormatException: logged, nothing recorded
      }
      var count := parsed.value;
      ListingOfParts(response.value, parts, count);
      RecordKeys(parts, count, server);
    }

    /** The loop of `parseKeysResponse`: tokens from index 2 while `i < 2 + count` and
        tokens remain, each put into the routing map and the key set. */
    method RecordKeys(parts: seq<string>, count: int, server: ServerInfo)
      requires Valid()
      requires |parts| >= 2 && forall t :: t in parts ==> IsToken(t)
      modifies this
      ensures Valid()
      ensures keyToServer == old(keyToServer)
                + MapAll(parts[2..if count <= 0 then 2 else Min(2 + count, |parts|)], server)
    {
      var i := 2;
      while i < 2 + count && i < |parts|
        invariant 2 <= i <= |parts|
        invariant i == 2 || i <= 2 + count
        invariant Valid()
        invariant keyToServer == old(keyToServer) + MapAll(parts[2..i], server)
      {
        var key := parts[i];
        assert key in parts;
        assert parts[2..i + 1] == parts[2..i] + [key];
        MapAllSnoc(parts[2..i], key, server);
        OverrideThenUpdate(old(keyToServer), MapAll(parts[2..i], server), key, server);
        keyToServer := keyToServer[key := server];
        allKeys := allKeys + {key};
        i := i + 1;
      }
    }

    /** `getServerForKey`: the owner of `key`, or `None` (Java's null) for an unknown key. */
    function GetServerForKey(key: string): (r: Option<ServerInfo>)
      reads this
      ensures r.Some? <==> key in keyToServer
      ensures r.Some? ==> r.value == keyToServer[key]
    {
      if key in keyToServer then Some(keyToServer[key]) else None
    }

    /** `getAllKeys`: exactly the keys that have an owner. */
    function GetAllKeys(): (keys: set<string>)
      reads this
      requires Valid()
      ensures keys == keyToServer.Keys
    {
      allKeys
    }

    /** `hasKey`: agrees with the routing map. */
    function HasKey(key: string): (b: bool)
      reads this
      requires Valid()
      ensures b <==> GetServerForKey(key).Some?
    {
      key in allKeys
    }

    /** `getKeyCount`: the number of routed keys. */
    function GetKeyCount(): (n: nat)
      reads this
      requires Valid()
      ensures n == |keyToServer|
    {
      |allKeys|
    }
  }
}
