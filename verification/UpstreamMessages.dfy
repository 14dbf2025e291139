/** The messages a connection opens with towards its upstream server, by upstream method. */
module UpstreamMessages {
  import opened Bytes
  import opened Shadowsocks

  datatype UpstreamKind = Https | Socks4 | Socks4A | Socks5 | Shadow

  datatype Destination =
    | Ipv4(address: Bytes, port: nat)
    | Ipv6(address: Bytes, port: nat)
    | Domain(name: Bytes, port: nat)
  {
    function Port(): Bytes {
      [port / 256 % 256, port % 256]
    }

    lemma PortBytes()
      ensures (Port()[0] as int) * 256 + Port()[1] == port % 0x1_0000
    {
    }

    /** Address type, address and port, as SOCKS5 and Shadowsocks both write them. */
    function Header(): Bytes {
      match this
      case Ipv4(address, _) => [0x01] + address + Port()
      case Ipv6(address, _) => [0x04] + address + Port()
      case Domain(name, _) => [0x03, |name| % 256] + name + Port()
    }

    /** On the wire: the type byte, a length byte for names only, the address, the port high byte first. */
    lemma HeaderBytes()
      ensures var h, n := Header(), |Header()|;
              && n >= 3 && (h[n - 2] as int) * 256 + h[n - 1] == port % 0x1_0000
              && (Ipv4? ==> h[0] == 1 && h[1..n - 2] == address)
              && (Ipv6? ==> h[0] == 4 && h[1..n - 2] == address)
              && (Domain? ==> n >= 4 && h[0] == 3 && h[1] == |name| % 256 && h[2..n - 2] == name)
    {
      PortBytes();
      var h, n := Header(), |Header()|;
      assert h[n - 2] == Port()[0] && h[n - 1] == Port()[1];
      match this
      case Ipv4(a, _) => assert h[1..n - 2] == a;
      case Ipv6(a, _) => assert h[1..n - 2] == a;
      case Domain(a, _) => assert h[2..n - 2] == a;
    }
  }

  /**
   * What a connection is set up with. `hostText` is the destination's name or printed address,
   * `connectHeader` the HTTP CONNECT request built from it, `salt` the encoder's random salt,
   * `parseResponse` the length of a granting HTTP response header at the front of a buffer, and
   * `reply` what the client is told before anything of the server's (empty without CONNECT).
   */
  datatype Config = Config(
    upstream: UpstreamKind,
    username: Bytes,
    password: Bytes,
    dest: Destination,
    hostText: Bytes,
    connectHeader: Bytes,
    aead: Aead,
    salt: Bytes,
    parseResponse: Bytes -> Option<nat>,
    reply: Bytes)
  {
    ghost predicate Ok() {
      connectHeader != [] && dest.Header() != [] && aead.Sound() && |salt| == aead.saltLen
    }

    predicate AuthRequired() {
      username != [] && password != []
    }

    function MethodSelect(): Bytes {
      [5, 1, if AuthRequired() then 2 else 0]
    }

    /** The server's consent to the method offered. */
    function MethodAnswer(): Bytes {
      [5, if AuthRequired() then 2 else 0]
    }

    /** The granting header the parser finds inside `buf`, if it finds one. */
    function GrantedLength(buf: Bytes): (r: Option<nat>)
      ensures r.None? <==> parseResponse(buf).None? || parseResponse(buf).value > |buf|
      ensures r.Some? ==> r == parseResponse(buf) && r.value <= |buf|
    {
      if parseResponse(buf).Some? && parseResponse(buf).value <= |buf| then parseResponse(buf) else None
    }

    /** The version byte is 5 here, where section 2 of RFC 1929 has 1. */
    function AuthRequest(): Bytes {
      [5, |username| % 256] + username + [|password| % 256] + password
    }

    function Socks5Request(): Bytes {
      [5, 1, 0] + dest.Header()
    }

    function Socks4Request(): Bytes {
      [4, 1] + dest.Port() + (if dest.Ipv4? then dest.address else []) + [0]
    }

    function Socks4ARequest(): Bytes {
      [4, 1] + dest.Port() + [0, 0, 0, 0x0f, 0] + hostText + [0]
    }

    /** Slots the SOCKS5 negotiation starts with. */
    function FirstSlots(): nat {
      if !upstream.Socks5? then 0 else if AuthRequired() then 2 else 1
    }

    /** The messages put into the queue when `slots` of them are still to be built. */
    function Released(slots: nat): Bytes {
      match upstream
      case Https => connectHeader
      case Socks4 => Socks4Request()
      case Socks4A => Socks4ARequest()
      case Shadow => []
      case Socks5 =>
        if slots >= 2 then MethodSelect()
        else if slots == 1 then MethodSelect() + (if AuthRequired() then AuthRequest() else [])
        else MethodSelect() + (if AuthRequired() then AuthRequest() else []) + Socks5Request()
    }

    /** The next message of the negotiation, for the slot at the head of the queue. */
    function NextMessage(slots: nat): (m: Bytes)
      ensures m != []
    {
      if slots == 2 then AuthRequest() else Socks5Request()
    }

    lemma NextReleased(slots: nat)
      requires upstream.Socks5? && 1 <= slots <= FirstSlots()
      ensures Released(slots - 1) == Released(slots) + NextMessage(slots)
    {
    }

    lemma ReleasedIsPrefix(slots: nat)
      requires slots <= FirstSlots()
      ensures IsPrefix(Released(slots), Released(0))
    {
      if slots == 1 {
        NextReleased(1);
      } else if slots == 2 {
        NextReleased(1);
        NextReleased(2);
        PrefixTrans(Released(2), Released(1), Released(0));
      }
    }
  }
}
