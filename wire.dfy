/**
 * The network as the routing logic sees it. Every socket exchange of the
 * proxy (probe, key listing, forwarded command) is one call of a
 * deterministic `Network` oracle; `None` stands for a refused or timed-out
 * connection, a lost datagram, or a TCP stream closed before a line arrived.
 */
module Wire {
  import opened Wrappers
  import opened JavaText
  import opened Model

  /** Which exchange is made; they run under different timeouts (1 s for a probe,
      2 s for key discovery, a 2 s connect for a forwarded command). */
  datatype Phase = Probe | Discovery | Forwarding

  /** The reply line (TCP) or raw datagram payload (UDP) a backend gives to one request. */
  type Network = (Endpoint, Protocol, Phase, string) -> Option<string>

  /** One command line the proxy sent to one backend over one transport. */
  datatype Message = Message(to: Endpoint, protocol: Protocol, text: string)

  /** The single marker for an unknown key, a malformed command or an unreachable backend. */
  const INVALID: string := "NA"

  /** The message for `text` addressed to `server` over its current transport. */
  function MessageTo(server: ServerInfo, text: string): Message
    reads server
  {
    Message(server.EndpointOf(), server.protocol, text)
  }

  /** `ServerForwarder.forwardToServer`: the backend's reply line, or its trimmed datagram,
      or `NA` when nothing came back; a datagram reply is never padded. */
  function Deliver(net: Network, m: Message): (reply: string)
    ensures var answer := net(m.to, m.protocol, Forwarding, m.text);
      match answer
      case None => reply == INVALID
      case Some(line) => reply == (if m.protocol == TCP then line else Trim(line))
    ensures m.protocol == UDP ==> Trim(reply) == reply
  {
    match net(m.to, m.protocol, Forwarding, m.text)
    case None => INVALID
    case Some(line) => if m.protocol == TCP then line else Trim(line)
  }
}
