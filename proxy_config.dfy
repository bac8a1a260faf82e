/**
 * The proxy's command line (`config.ProxyConfig`): `-port <p>` sets the proxy's
 * own port (a later one overrides an earlier one), each `-server <address> <port>`
 * adds a backend in command-line order, anything else is skipped, and every
 * port must be an integer in 1..65535.
 */
module Config {
  import opened Wrappers
  import opened JavaText
  import opened Model

  /** Why `parseArguments` throws `IllegalArgumentException`. */
  datatype ArgError =
    | TooFewArguments
    | MissingPortValue
    | BadPort(arg: string)
    | PortOutOfRange
    | MissingServerOperands
    | BadServerPort(arg: string)
    | ServerPortOutOfRange
    | NoPort
    | NoServers

  /** The proxy port before any `-port` is seen. */
  const NO_PORT: int := -1

  predicate IsPort(p: int) {
    1 <= p <= 65535
  }

  /** The parser's locals: the proxy port so far and the backends collected so far. */
  datatype Scanned = Scanned(port: int, servers: seq<Endpoint>)

  /** The argument walk from the current position: `rest` is what is still to be read. */
  function Scan(rest: seq<string>, st: Scanned): (r: Result<Scanned, ArgError>)
    ensures r.Success? ==> st.servers <= r.value.servers
    ensures r.Success? && r.value.port != st.port ==> IsPort(r.value.port)
    decreases |rest|
  {
    if rest == [] then Success(st)
    else if rest[0] == "-port" then
      if |rest| < 2 then Failure(MissingPortValue)
      else match ParseInt(rest[1])
        case None => Failure(BadPort(rest[1]))
        case Some(p) =>
          if !IsPort(p) then Failure(PortOutOfRange)
          else Scan(rest[2..], st.(port := p))
    else if rest[0] == "-server" then
      if |rest| < 3 then Failure(MissingServerOperands)
      else match ParseInt(rest[2])
        case None => Failure(BadServerPort(rest[2]))
        case Some(p) =>
          if !IsPort(p) then Failure(ServerPortOutOfRange)
          else Scan(rest[3..], st.(servers := st.servers + [Endpoint(rest[1], p)]))
    else Scan(rest[1..], st)
  }

  /** `parseArguments` as a function of the argument list. */
  function ParseArgs(args: seq<string>): (r: Result<Scanned, ArgError>)
    ensures |args| < 4 ==> r == Failure(TooFewArguments)
    ensures r.Success? ==> IsPort(r.value.port) && r.value.servers != []
    ensures r.Success? ==> forall e :: e in r.value.servers ==> IsPort(e.port)
  {
    if |args| < 4 then Failure(TooFewArguments)
    else
      var initial := Scanned(NO_PORT, []);
      ScanKeepsPortsValid(args, initial);
      match Scan(args, initial)
      case Failure(e) => Failure(e)
      case Success(st) =>
        if st.port == NO_PORT then Failure(NoPort)
        else if st.servers == [] then Failure(NoServers)
        else Success(st)
  }

  /** Every port the walk stores is in range, and backends are only ever appended. */
  lemma {:induction false} ScanKeepsPortsValid(rest: seq<string>, st: Scanned)
    ensures var r := Scan(rest, st);
      r.Success? ==>
        && (r.value.port == st.port || IsPort(r.value.port))
        && st.servers <= r.value.servers
        && forall i :: |st.servers| <= i < |r.value.servers| ==> IsPort(r.value.servers[i].port)
    decreases |rest|
  {
    if rest == [] {
    } else if rest[0] == "-port" {
      if |rest| >= 2 && ParseInt(rest[1]).Some? && IsPort(ParseInt(rest[1]).value) {
        ScanKeepsPortsValid(rest[2..], st.(port := ParseInt(rest[1]).value));
      }
    } else if rest[0] == "-server" {
      if |rest| >= 3 && ParseInt(rest[2]).Some? && IsPort(ParseInt(rest[2]).value) {
        var next := st.(servers := st.servers + [Endpoint(rest[1], ParseInt(rest[2]).value)]);
        ScanKeepsPortsValid(rest[3..], next);
      }
    } else {
      ScanKeepsPortsValid(rest[1..], st);
    }
  }

  /** Once a prefix has been read completely, the walk goes on from the state it left. */
  lemma {:induction false} ScanAppend(pre: seq<string>, post: seq<string>, st: Scanned)
    requires Scan(pre, st).Success?
    ensures Scan(pre + post, st) == Scan(post, Scan(pre, st).value)
    decreases |pre|
  {
    if pre == [] {
      assert pre + post == post;
    } else {
      var all := pre + post;
      assert all[0] == pre[0];
      if pre[0] == "-port" {
        assert all[1] == pre[1];
        assert all[2..] == pre[2..] + post;
        ScanAppend(pre[2..], post, st.(port := ParseInt(pre[1]).value));
      } else if pre[0] == "-server" {
        assert all[1] == pre[1] && all[2] == pre[2];
        assert all[3..] == pre[3..] + post;
        var next := st.(servers := st.servers + [Endpoint(pre[1], ParseInt(pre[2]).value)]);
        ScanAppend(pre[3..], post, next);
      } else {
        assert all[1..] == pre[1..] + post;
        ScanAppend(pre[1..], post, st);
      }
    }
  }

  /** Without a `-port` among them, the remaining arguments leave the proxy port alone. */
  lemma {:induction false} ScanWithoutPortKeepsPort(rest: seq<string>, st: Scanned)
    requires "-port" !in rest
    requires Scan(rest, st).Success?
    ensures Scan(rest, st).value.port == st.port
    decreases |rest|
  {
    if rest != [] {
      if rest[0] == "-server" {
        assert forall a :: a in rest[3..] ==> a in rest;
        var next := st.(servers := st.servers + [Endpoint(rest[1], ParseInt(rest[2]).value)]);
        ScanWithoutPortKeepsPort(rest[3..], next);
      } else {
        assert forall a :: a in rest[1..] ==> a in rest;
        ScanWithoutPortKeepsPort(rest[1..], st);
      }
    }
  }

  /** A command line whose walk succeeds but that never names `-port` is refused with
      `NoPort`. */
  lemma NoPortRejected(args: seq<string>)
    requires |args| >= 4 && "-port" !in args
    requires Scan(args, Scanned(NO_PORT, [])).Success?
    ensures ParseArgs(args) == Failure(NoPort)
  {
    ScanWithoutPortKeepsPort(args, Scanned(NO_PORT, []));
  }

  /** A command line whose walk succeeds and sets the port but never names `-server` is
      refused with `NoServers`. */
  lemma NoServersRejected(args: seq<string>)
    requires |args| >= 4 && "-server" !in args
    requires Scan(args, Scanned(NO_PORT, [])).Success?
    requires Scan(args, Scanned(NO_PORT, [])).value.port != NO_PORT
    ensures ParseArgs(args) == Failure(NoServers)
  {
    ScanWithoutServerKeepsServers(args, Scanned(NO_PORT, []));
  }

  /** Without a `-server` among them, the remaining arguments add no backend. */
  lemma {:induction false} ScanWithoutServerKeepsServers(rest: seq<string>, st: Scanned)
    requires "-server" !in rest
    requires Scan(rest, st).Success?
    ensures Scan(rest, st).value.servers == st.servers
    decreases |rest|
  {
    if rest != [] {
      if rest[0] == "-port" {
        assert forall a :: a in rest[2..] ==> a in rest;
        ScanWithoutServerKeepsServers(rest[2..], st.(port := ParseInt(rest[1]).value));
      } else {
        assert forall a :: a in rest[1..] ==> a in rest;
        ScanWithoutServerKeepsServers(rest[1..], st);
      }
    }
  }

  /** A `-port` value that is not an int, or an int outside 1..65535, stops the walk with
      the matching error, whatever follows it. */
  lemma BadPortRejected(pre: seq<string>, value: string, post: seq<string>, st: Scanned)
    requires Scan(pre, st).Success?
    ensures ParseInt(value).None? ==>
              Scan(pre + ["-port", value] + post, st) == Failure(BadPort(value))
    ensures ParseInt(value).Some? && !IsPort(ParseInt(value).value) ==>
              Scan(pre + ["-port", value] + post, st) == Failure(PortOutOfRange)
  {
    var tail := ["-port", value] + post;
    assert pre + ["-port", value] + post == pre + tail;
    ScanAppend(pre, tail, st);
    assert tail[0] == "-port" && tail[1] == value;
  }

  /** A `-server` port that is not an int, or an int outside 1..65535, stops the walk with
      the matching error, whatever follows it. */
  lemma BadServerPortRejected(pre: seq<string>, address: string, value: string, post: seq<string>,
                              st: Scanned)
    requires Scan(pre, st).Success?
    ensures ParseInt(value).None? ==>
              Scan(pre + ["-server", address, value] + post, st) == Failure(BadServerPort(value))
    ensures ParseInt(value).Some? && !IsPort(ParseInt(value).value) ==>
              Scan(pre + ["-server", address, value] + post, st) == Failure(ServerPortOutOfRange)
  {
    var tail := ["-server", address, value] + post;
    assert pre + ["-server", address, value] + post == pre + tail;
    ScanAppend(pre, tail, st);
    assert tail[0] == "-server" && tail[2] == value;
  }

  /** A later `-port` overrides an earlier one: after a valid `-port p`, with no further
      `-port` on the line, the proxy port is `p` whatever came before. */
  lemma LaterPortWins(pre: seq<string>, value: string, post: seq<string>, st: Scanned)
    requires Scan(pre, st).Success?
    requires ParseInt(value).Some? && IsPort(ParseInt(value).value)
    requires "-port" !in post
    requires Scan(pre + ["-port", value] + post, st).Success?
    ensures Scan(pre + ["-port", value] + post, st).value.port == ParseInt(value).value
  {
    var mid := Scan(pre, st).value;
    var tail := ["-port", value] + post;
    assert pre + ["-port", value] + post == pre + tail;
    ScanAppend(pre, tail, st);
    assert tail[2..] == post;
    ScanWithoutPortKeepsPort(post, mid.(port := ParseInt(value).value));
  }

  /** Backends are collected in command-line order: a valid `-server a p` read after `pre`
      puts `Endpoint(a, p)` right after the backends `pre` collected. */
  lemma ServersInOrder(pre: seq<string>, address: string, port: string, post: seq<string>, st: Scanned)
    requires Scan(pre, st).Success?
    requires ParseInt(port).Some? && IsPort(ParseInt(port).value)
    requires Scan(pre + ["-server", address, port] + post, st).Success?
    ensures Scan(pre, st).value.servers + [Endpoint(address, ParseInt(port).value)]
            <= Scan(pre + ["-server", address, port] + post, st).value.servers
  {
    var mid := Scan(pre, st).value;
    var tail := ["-server", address, port] + post;
    assert pre + ["-server", address, port] + post == pre + tail;
    ScanAppend(pre, tail, st);
    assert tail[3..] == post;
    var next := mid.(servers := mid.servers + [Endpoint(address, ParseInt(port).value)]);
    ScanKeepsPortsValid(post, next);
  }

  /** An argument that is neither `-port` nor `-server`, met where an option is expected,
      is skipped without effect. */
  lemma UnknownArgumentSkipped(pre: seq<string>, arg: string, post: seq<string>, st: Scanned)
    requires Scan(pre, st).Success?
    requires arg != "-port" && arg != "-server"
    ensures Scan(pre + [arg] + post, st) == Scan(pre + post, st)
  {
    var tail := [arg] + post;
    assert pre + [arg] + post == pre + tail;
    ScanAppend(pre, tail, st);
    ScanAppend(pre, post, st);
    assert tail[1..] == post;
  }

  /** A `-port` or `-server` missing its operands at the end of the line is an error. */
  lemma MissingOperandsRejected(pre: seq<string>, st: Scanned, address: string)
    requires Scan(pre, st).Success?
    ensures Scan(pre + ["-port"], st) == Failure(MissingPortValue)
    ensures Scan(pre + ["-server"], st) == Failure(MissingServerOperands)
    ensures Scan(pre + ["-server", address], st) == Failure(MissingServerOperands)
  {
    ScanAppend(pre, ["-port"], st);
    ScanAppend(pre, ["-server"], st);
    ScanAppend(pre, ["-server", address], st);
  }

  /** The endpoints of a list of backends, in order. */
  function Endpoints(servers: seq<ServerInfo>): (es: seq<Endpoint>)
    ensures |es| == |servers|
    ensures forall i :: 0 <= i < |servers| ==> es[i] == servers[i].EndpointOf()
    decreases |servers|
  {
    if servers == [] then []
    else Endpoints(servers[..|servers| - 1]) + [servers[|servers| - 1].EndpointOf()]
  }

  lemma EndpointsSnoc(servers: seq<ServerInfo>, server: ServerInfo)
    ensures Endpoints(servers + [server]) == Endpoints(servers) + [server.EndpointOf()]
  {
    assert (servers + [server])[..|servers|] == servers;
  }

  /** The proxy's configuration. Backends are held as an immutable sequence, so the list
      the caller passed in and the list handed out are copies, never aliases. */
  class ProxyConfig {
    const proxyPort: int
    const servers: seq<ServerInfo>

    constructor (proxyPort: int, servers: seq<ServerInfo>)
      ensures this.proxyPort == proxyPort && this.servers == servers
    {
      this.proxyPort := proxyPort;
      this.servers := servers;
    }

    function GetProxyPort(): (p: int)
      ensures p == proxyPort
    {
      proxyPort
    }

    /** A value copy of the backend list: nothing a caller does to it reaches the configuration. */
    function GetServers(): (ss: seq<ServerInfo>)
      ensures ss == servers
    {
      servers
    }
  }

  /** `parseArguments`: walks `args` with an index, consuming operands as it goes, and stops
      at the first error; every backend it creates starts out as TCP. */
  method ParseArguments(args: seq<string>) returns (r: Result<ProxyConfig, ArgError>)
    ensures r.Failure? <==> ParseArgs(args).Failure?
    ensures r.Failure? ==> r.error == ParseArgs(args).error
    ensures r.Success? ==> r.value.proxyPort == ParseArgs(args).value.port
    ensures r.Success? ==> Endpoints(r.value.servers) == ParseArgs(args).value.servers
    ensures r.Success? ==> forall s :: s in r.value.servers ==> s.protocol == TCP
  {
    if |args| < 4 {
      return Failure(TooFewArguments);
    }
    ghost var outcome := Scan(args, Scanned(NO_PORT, []));
    var proxyPort := NO_PORT;
    var servers: seq<ServerInfo> := [];
    var i := 0;
    while i < |args|
      invariant 0 <= i <= |args|
      invariant Scan(args[i..], Scanned(proxyPort, Endpoints(servers))) == outcome
      invariant forall s :: s in servers ==> s.protocol == TCP
      decreases |args| - i
    {
      ghost var st := Scanned(proxyPort, Endpoints(servers));
      ghost var rest := args[i..];
      if args[i] == "-port" {
        if i + 1 >= |args| {
          assert outcome == Failure(MissingPortValue);
          return Failure(MissingPortValue);
        }
        i := i + 1;
        assert rest[1] == args[i];
        var parsed := ParseInt(args[i]);
        if parsed.None? {
          assert outcome == Failure(BadPort(args[i]));
          return Failure(BadPort(args[i]));
        }
        proxyPort := parsed.value;
        if !IsPort(proxyPort) {
          assert outcome == Failure(PortOutOfRange);
          return Failure(PortOutOfRange);
        }
        assert outcome == Scan(rest[2..], st.(port := proxyPort));
        assert rest[2..] == args[i + 1..];
      } else if args[i] == "-server" {
        if i + 2 >= |args| {
          assert outcome == Failure(MissingServerOperands);
          return Failure(MissingServerOperands);
        }
        i := i + 1;
        var address := args[i];
        i := i + 1;
        assert rest[1] == address && rest[2] == args[i];
        var parsed := ParseInt(args[i]);
        if parsed.None? {
          assert outcome == Failure(BadServerPort(args[i]));
          return Failure(BadServerPort(args[i]));
        }
        var port := parsed.value;
        if !IsPort(port) {
          assert outcome == Failure(ServerPortOutOfRange);
          return Failure(ServerPortOutOfRange);
        }
        assert outcome == Scan(rest[3..], st.(servers := st.servers + [Endpoint(address, port)]));
        label Allocating:
        var server := new ServerInfo(address, port);
        assert forall s :: s in servers ==> s.protocol == old@Allocating(s.protocol);
        assert Endpoints(servers + [server]) == Endpoints(servers) + [Endpoint(address, port)];
        servers := servers + [server];
        assert rest[3..] == args[i + 1..];
      } else {
        assert rest[1..] == args[i + 1..];
      }
      i := i + 1;
    }
    assert ParseArgs(args) == match outcome
      case Failure(e) => Failure(e)
      case Success(st) =>
        if st.port == NO_PORT then Failure(NoPort)
        else if st.servers == [] then Failure(NoServers)
        else Success(st);
    if proxyPort == NO_PORT {
      return Failure(NoPort);
    }
    if servers == [] {
      return Failure(NoServers);
    }
    var config := new ProxyConfig(proxyPort, servers);
    r := Success(config);
  }
}
