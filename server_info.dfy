/**
 * A configured backend (`model.ServerInfo`): its address and port never
 * change, its transport is set by protocol detection, and two records are
 * equal exactly when they name the same address and port.
 */
module Model {
  import opened JavaText

  /** The transport a backend speaks. */
  datatype Protocol = TCP | UDP

  /** The identity of a backend: its address and port. */
  datatype Endpoint = Endpoint(address: string, port: int)

  /** `String.hashCode()`: `h = 31 * h + c` over the characters, in 32-bit arithmetic. */
  function StringHash(s: string): (h: int)
    ensures INT_MIN <= h <= INT_MAX
  {
    if s == [] then 0 else Wrap32(31 * StringHash(s[..|s| - 1]) + s[|s| - 1] as int)
  }

  class ServerInfo {
    const address: string
    const port: int
    var protocol: Protocol

    /** A backend not yet probed starts out as TCP. */
    constructor (address: string, port: int)
      ensures this.address == address && this.port == port
      ensures protocol == TCP
    {
      this.address := address;
      this.port := port;
      protocol := TCP;
    }

    constructor WithProtocol(address: string, port: int, protocol: Protocol)
      ensures this.address == address && this.port == port
      ensures this.protocol == protocol
    {
      this.address := address;
      this.port := port;
      this.protocol := protocol;
    }

    function EndpointOf(): Endpoint {
      Endpoint(address, port)
    }

    /** Only the transport changes; address and port are constants. */
    method SetProtocol(protocol: Protocol)
      modifies this`protocol
      ensures this.protocol == protocol
    {
      this.protocol := protocol;
    }

    /** `equals(Object)`: the same object, or another `ServerInfo` with the same port and address. */
    function Equals(o: object?): (b: bool)
      ensures this == o ==> b
      ensures b ==> o != null && o is ServerInfo
    {
      this == o || (o != null && o is ServerInfo && (o as ServerInfo).port == port
                    && (o as ServerInfo).address == address)
    }

    /** `hashCode()` = `Objects.hash(address, port)` = `31 * (31 * 1 + address.hashCode()) + port`. */
    function HashCode(): (h: int)
      ensures INT_MIN <= h <= INT_MAX
    {
      Wrap32(31 * Wrap32(31 * 1 + StringHash(address)) + port)
    }
  }

  /** Equality is decided by the endpoint alone, and never holds for null or for another class. */
  lemma EqualsIffSameEndpoint(a: ServerInfo, o: object?)
    ensures a.Equals(o) <==> o is ServerInfo && o != null && (o as ServerInfo).EndpointOf() == a.EndpointOf()
  {
  }

  /** The transport plays no part in equality: two records with one endpoint are equal whatever their protocols. */
  lemma EqualsIgnoresProtocol(a: ServerInfo, b: ServerInfo)
    requires a.address == b.address && a.port == b.port
    ensures a.Equals(b) && b.Equals(a)
  {
  }

  lemma EqualsIsEquivalence(a: ServerInfo, b: ServerInfo, c: ServerInfo)
    ensures a.Equals(a)
    ensures a.Equals(b) ==> b.Equals(a)
    ensures a.Equals(b) && b.Equals(c) ==> a.Equals(c)
  {
  }

  /** Equal records hash alike. */
  lemma EqualsImpliesSameHash(a: ServerInfo, b: ServerInfo)
    requires a.Equals(b)
    ensures a.HashCode() == b.HashCode()
  {
  }
}
