/**
 * The command router (`command.CommandProcessor`): a client line is trimmed,
 * split on whitespace and dispatched on its first token. `GET NAMES` is answered
 * from the key registry, `GET VALUE k` and `SET k v` are forwarded to the
 * backend that owns `k`, and `QUIT` is broadcast to every configured backend.
 */
module Command {
  import opened Wrappers
  import opened JavaText
  import opened Model
  import opened Wire
  import opened Discovery

  /** What a client line asks for, once tokenised. */
  datatype Request =
    | GetNames
    | GetValue(key: string)
    | SetValue(key: string, value: string)
    | Quit
    | Invalid

  /** The tokens a well-formed request is written with. */
  function Words(req: Request): (ws: seq<string>)
    ensures req != Invalid <==> ws != []
  {
    match req
    case GetNames => ["GET", "NAMES"]
    case GetValue(k) => ["GET", "VALUE", k]
    case SetValue(k, v) => ["SET", k, v]
    case Quit => ["QUIT"]
    case Invalid => []
  }

  /** The canonical command line of a request: its words joined by single spaces. */
  function RequestLine(req: Request): string
    requires req != Invalid
  {
    Joined(Words(req))
  }

  /** `processCommand`'s switch and `handleGet`/`handleSet`'s arity checks over the tokens.
      A recognised request is spelled by the first tokens of the line (anything after them
      is ignored), and a first token other than GET, SET or QUIT (compared case-sensitively)
      is never recognised. */
  function Classify(parts: seq<string>): (req: Request)
    requires parts != []
    ensures req != Invalid ==> Words(req) <= parts
    ensures parts[0] != "GET" && parts[0] != "SET" && parts[0] != "QUIT" ==> req == Invalid
  {
    if parts[0] == "GET" then
      if |parts| < 2 then Invalid
      else if parts[1] == "NAMES" then GetNames
      else if parts[1] == "VALUE" && |parts| >= 3 then GetValue(parts[2])
      else Invalid
    else if parts[0] == "SET" then
      if |parts| < 3 then Invalid else SetValue(parts[1], parts[2])
    else if parts[0] == "QUIT" then Quit
    else Invalid
  }

  /** The request a client line stands for: a null, empty or blank line is invalid; otherwise
      the trimmed line's `\s+`-separated tokens are classified. */
  function ParseRequest(command: Option<string>): (req: Request)
    ensures command.None? || Trim(command.value) == [] ==> req == Invalid
    ensures req != Invalid ==> command.Some? && Words(req) <= SplitWs(Trim(command.value))
  {
    if command.None? || Trim(command.value) == [] then Invalid
    else Classify(SplitWs(Trim(command.value)))
  }

  /** A line of plain tokens joined by single spaces is classified on exactly those tokens. */
  lemma ParseJoined(ts: seq<string>)
    requires ts != [] && forall t :: t in ts ==> IsPlainToken(t)
    ensures ParseRequest(Some(Joined(ts))) == Classify(ts)
  {
    JoinedPlainTokens(ts);
    assert ts[0] in ts;
    assert Joined(ts) != [];
  }

  /** The words of a request, followed by anything, classify as that request. */
  lemma ClassifyWords(req: Request, extra: seq<string>)
    requires req != Invalid
    ensures Classify(Words(req) + extra) == req
  {
    var ps := Words(req) + extra;
    match req
    case GetNames =>
      assert ps[0] == "GET" && ps[1] == "NAMES";
    case GetValue(k) =>
      assert ps[0] == "GET" && ps[1] == "VALUE" && ps[2] == k;
      assert "VALUE" != "NAMES";
    case SetValue(k, v) =>
      assert ps[0] == "SET" && ps[1] == k && ps[2] == v;
      assert "SET" != "GET";
    case Quit =>
      assert ps[0] == "QUIT";
      assert "QUIT" != "GET" && "QUIT" != "SET";
  }

  /** Writing a request out and reading it back gives the request again, for keys and
      values free of blanks and control characters. */
  lemma RequestLineRoundTrip(req: Request)
    requires req != Invalid
    requires forall t :: t in Words(req) ==> IsPlainToken(t)
    ensures ParseRequest(Some(RequestLine(req))) == req
  {
    ParseJoined(Words(req));
    ClassifyWords(req, []);
    assert Words(req) + [] == Words(req);
  }

  /** Tokens after a recognised request are ignored: `GET NAMES x`, `GET VALUE k x`,
      `SET k v x` and `QUIT x` mean what they mean without the `x`. */
  lemma TrailingTokensIgnored(req: Request, extra: seq<string>)
    requires req != Invalid
    requires forall t :: t in Words(req) + extra ==> IsPlainToken(t)
    ensures ParseRequest(Some(Joined(Words(req) + extra))) == req
  {
    ParseJoined(Words(req) + extra);
    ClassifyWords(req, extra);
  }

  /** The line the proxy forwards for a key command is the source's literal concatenation
      (`"GET VALUE " + key`, `"SET " + key + " " + value`). */
  lemma ForwardedLineSpelling(req: Request)
    requires req.GetValue? || req.SetValue?
    ensures req.GetValue? ==> RequestLine(req) == "GET VALUE " + req.key
    ensures req.SetValue? ==> RequestLine(req) == "SET " + req.key + " " + req.value
  {
    var ws := Words(req);
    if req.GetValue? {
      assert ws[1..][1..] == [req.key];
      assert SpacePrefixed([req.key]) == " " + req.key;
      assert SpacePrefixed(ws[1..]) == " " + "VALUE" + " " + req.key;
    } else {
      assert ws[1..][1..] == [req.value];
      assert SpacePrefixed([req.value]) == " " + req.value;
      assert SpacePrefixed(ws[1..]) == " " + req.key + " " + req.value;
    }
  }

  // ---------------------------------------------------------------------------
  // The key listing sent for GET NAMES

  /** `reply` lists the key set `keys` in the order `order`: "OK", the number of keys,
      then each key exactly once, all separated by single spaces. */
  predicate IsListingOf(reply: string, keys: set<string>, order: seq<string>) {
    && |order| == |keys|
    && (forall k :: k in order ==> k in keys)
    && (forall k :: k in keys ==> k in order)
    && reply == "OK " + FormatNat(|keys|) + SpacePrefixed(order)
  }

  /** Some iteration order of the key set yields `reply` (a `HashSet`'s order is unspecified). */
  ghost predicate IsNamesListing(reply: string, keys: set<string>) {
    exists order :: IsListingOf(reply, keys, order)
  }

  /** An empty registry answers "OK 0". */
  lemma EmptyListing()
    ensures IsListingOf("OK 0", {}, [])
  {
    assert FormatNat(0) == "0";
  }

  /** What GET NAMES answers is read back by key discovery as exactly the listed keys,
      in the listed order: the proxy's listing format and its parser agree. */
  lemma NamesListingRoundTrip(reply: string, keys: set<string>, order: seq<string>)
    requires IsListingOf(reply, keys, order)
    requires forall k :: k in keys ==> IsToken(k)
    requires |keys| <= INT_MAX
    ensures ListedKeys(Some(reply)) == order
  {
    var n := |keys|;
    var count := FormatNat(n);
    FormatNatIsToken(n);
    ParseFormatNat(n);
    assert forall k :: k in order ==> IsToken(k);
    ListingSplits(count, order);
    ListingOfParts(reply, ["OK", count] + order, n);
    assert (["OK", count] + order)[2..] == order;
  }

  /** `OK <count> <k1> ... <kn>` passes the prefix test and splits into its tokens. */
  lemma ListingSplits(count: string, order: seq<string>)
    requires IsToken(count) && forall k :: k in order ==> IsToken(k)
    ensures var text := "OK " + count + SpacePrefixed(order);
      StartsWith(text, "OK") && SplitWs(text) == ["OK", count] + order
  {
    var parts := ["OK", count] + order;
    var text := "OK " + count + SpacePrefixed(order);
    assert parts[1..] == [count] + order;
    assert ([count] + order)[1..] == order;
    assert text == "OK" + SpacePrefixed(parts[1..]);
    assert IsToken("OK") by {
      forall ch | ch in "OK" ensures !IsWs(ch) {}
    }
    assert forall u :: u in parts[1..] ==> IsToken(u);
    TokensOfWordThen("OK", parts[1..]);
    assert [parts[0]] + parts[1..] == parts;
    assert text[0] == 'O' && text[..2] == "OK";
  }

  /** Whatever order the key set was walked in, key discovery reads a GET NAMES reply back as
      every registered key exactly once. */
  lemma NamesReplyListsRegistry(reply: string, keys: set<string>)
    requires IsNamesListing(reply, keys)
    requires forall k :: k in keys ==> IsToken(k)
    requires |keys| <= INT_MAX
    ensures (set k | k in ListedKeys(Some(reply))) == keys
    ensures |ListedKeys(Some(reply))| == |keys|
  {
    var order :| IsListingOf(reply, keys, order);
    NamesListingRoundTrip(reply, keys, order);
  }

  // ---------------------------------------------------------------------------
  // QUIT

  /** One `text` message to each server, in list order. */
  function Broadcast(servers: seq<ServerInfo>, text: string): (ms: seq<Message>)
    reads servers
    decreases |servers|
  {
    if servers == [] then []
    else Broadcast(servers[..|servers| - 1], text) + [MessageTo(servers[|servers| - 1], text)]
  }

  /** The broadcast reaches every server exactly once, in list order, over its own transport. */
  lemma {:induction false} BroadcastInOrder(servers: seq<ServerInfo>, text: string)
    ensures |Broadcast(servers, text)| == |servers|
    ensures forall i :: 0 <= i < |servers| ==> Broadcast(servers, text)[i] == MessageTo(servers[i], text)
    decreases |servers|
  {
    if servers != [] {
      var n := |servers| - 1;
      BroadcastInOrder(servers[..n], text);
      forall i | 0 <= i < n ensures Broadcast(servers, text)[i] == MessageTo(servers[i], text) {
        assert servers[..n][i] == servers[i];
      }
    }
  }

  // ---------------------------------------------------------------------------
  // The router

  class CommandProcessor {
    const keyDiscovery: KeyDiscovery
    const servers: seq<ServerInfo>
    /** The backends as the forwarder reaches them. */
    const network: Network

    constructor (keyDiscovery: KeyDiscovery, servers: seq<ServerInfo>, network: Network)
      ensures this.keyDiscovery == keyDiscovery && this.servers == servers && this.network == network
    {
      this.keyDiscovery := keyDiscovery;
      this.servers := servers;
      this.network := network;
    }

    /** A key command is forwarded, as its canonical line, to the key's owner only, and the
        owner's reply is returned unchanged; for an unknown key nothing is sent and the
        answer is NA. */
    ghost predicate Forwarded(req: Request, reply: string, sent: seq<Message>)
      requires req.GetValue? || req.SetValue?
      reads keyDiscovery, keyDiscovery.keyToServer.Values
    {
      if req.key in keyDiscovery.keyToServer then
        && sent == [MessageTo(keyDiscovery.keyToServer[req.key], RequestLine(req))]
        && reply == Deliver(network, sent[0])
      else
        reply == INVALID && sent == []
    }

    /** The answer to `req` and the messages sent to backends while producing it. */
    ghost predicate Served(req: Request, reply: string, sent: seq<Message>)
      reads keyDiscovery, keyDiscovery.keyToServer.Values, servers
    {
      match req
      case Invalid => reply == INVALID && sent == []
      case GetNames => sent == [] && IsNamesListing(reply, keyDiscovery.keyToServer.Keys)
      case GetValue(_) => Forwarded(req, reply, sent)
      case SetValue(_, _) => Forwarded(req, reply, sent)
      case Quit => reply == "" && sent == Broadcast(servers, "QUIT")
    }

    /** A routed key command relays what its owner answered: the TCP line as read, the
        datagram trimmed, or NA when the owner gave no answer. */
    lemma ForwardedReplyRelayed(req: Request, reply: string, sent: seq<Message>)
      requires req.GetValue? || req.SetValue?
      requires req.key in keyDiscovery.keyToServer
      requires Served(req, reply, sent)
      ensures var owner := keyDiscovery.keyToServer[req.key];
        var answer := network(owner.EndpointOf(), owner.protocol, Forwarding, RequestLine(req));
        && sent == [Message(owner.EndpointOf(), owner.protocol, RequestLine(req))]
        && (answer.None? ==> reply == INVALID)
        && (answer.Some? && owner.protocol == TCP ==> reply == answer.value)
        && (answer.Some? && owner.protocol == UDP ==> reply == Trim(answer.value))
    {
      assert Forwarded(req, reply, sent);
    }

    /** `processCommand`. */
    method ProcessCommand(command: Option<string>) returns (reply: string, sent: seq<Message>)
      requires keyDiscovery.Valid()
      ensures Served(ParseRequest(command), reply, sent)
    {
      if command.None? || Trim(command.value) == [] {
        return INVALID, [];
      }
      var parts := SplitWs(Trim(command.value));
      var cmd := parts[0];
      if cmd == "GET" {
        reply, sent := HandleGet(parts);
      } else if cmd == "SET" {
        reply, sent := HandleSet(parts);
      } else if cmd == "QUIT" {
        sent := HandleQuit();
        reply := "";
      } else {
        reply, sent := INVALID, [];
      }
    }

    /** `handleGet`: NAMES, or VALUE with a key; anything else is NA. */
    method HandleGet(parts: seq<string>) returns (reply: string, sent: seq<Message>)
      requires keyDiscovery.Valid()
      requires parts != [] && parts[0] == "GET"
      ensures Served(Classify(parts), reply, sent)
    {
      if |parts| < 2 {
        return INVALID, [];
      }
      if parts[1] == "NAMES" {
        reply := HandleGetNames();
        sent := [];
      } else if parts[1] == "VALUE" && |parts| >= 3 {
        var key := parts[2];
        reply, sent := HandleGetValue(key);
      } else {
        reply, sent := INVALID, [];
      }
    }

    /** `handleGetNames`: "OK 0" for an empty registry, otherwise "OK", the key count and
        every key once, in the key set's iteration order. */
    method HandleGetNames() returns (reply: string)
      requires keyDiscovery.Valid()
      ensures IsNamesListing(reply, keyDiscovery.keyToServer.Keys)
    {
      var allKeys := keyDiscovery.GetAllKeys();
      if |allKeys| == 0 {
        EmptyListing();
        return "OK 0";
      }
      var sb := "OK " + FormatNat(|allKeys|);
      var remaining := allKeys;
      ghost var order: seq<string> := [];
      while remaining != {}
        invariant remaining <= allKeys
        invariant forall k :: k in order <==> k in allKeys && k !in remaining
        invariant |order| + |remaining| == |allKeys|
        invariant sb == "OK " + FormatNat(|allKeys|) + SpacePrefixed(order)
        decreases |remaining|
      {
        var key :| key in remaining;
        SpacePrefixedSnoc(order, key);
        sb := sb + " " + key;
        order := order + [key];
        remaining := remaining - {key};
      }
      reply := sb;
      assert IsListingOf(reply, allKeys, order);
    }

    /** `handleGetValue`: forward "GET VALUE key" to the owner, or NA for an unknown key. */
    method HandleGetValue(key: string) returns (reply: string, sent: seq<Message>)
      ensures Forwarded(GetValue(key), reply, sent)
    {
      var server := keyDiscovery.GetServerForKey(key);
      if server.None? {
        return INVALID, [];
      }
      ForwardedLineSpelling(GetValue(key));
      var m := MessageTo(server.value, "GET VALUE " + key);
      reply := Deliver(network, m);
      sent := [m];
    }

    /** `handleSet`: at least `SET key value`; forward "SET key value" to the owner of key,
        or NA for a short line or an unknown key. */
    method HandleSet(parts: seq<string>) returns (reply: string, sent: seq<Message>)
      requires parts != [] && parts[0] == "SET"
      ensures Served(Classify(parts), reply, sent)
    {
      if |parts| < 3 {
        return INVALID, [];
      }
      var key := parts[1];
      var value := parts[2];
      var server := keyDiscovery.GetServerForKey(key);
      if server.None? {
        return INVALID, [];
      }
      ForwardedLineSpelling(SetValue(key, value));
      var m := MessageTo(server.value, "SET " + key + " " + value);
      reply := Deliver(network, m);
      sent := [m];
    }

    /** `handleQuit`'s broadcast: "QUIT" to every configured backend in list order,
        whatever keys it owns; send failures are swallowed, so every send happens. */
    method HandleQuit() returns (sent: seq<Message>)
      ensures sent == Broadcast(servers, "QUIT")
    {
      sent := [];
      for i := 0 to |servers|
        invariant sent == Broadcast(servers[..i], "QUIT")
      {
        assert servers[..i + 1][..i] == servers[..i];
        sent := sent + [MessageTo(servers[i], "QUIT")];
      }
      assert servers[..|servers|] == servers;
    }
  }
}
