/** How a SOCKS or Shadowsocks server of the same program reads the opening messages. */
module RequestParsers {
  import opened Bytes
  import opened UpstreamMessages

  datatype Parsed<+T> = Good(value: T, used: nat) | Wrong | Indeterminate

  function Number16(high: byte, low: byte): nat {
    (high as int) * 256 + low
  }

  /** The destination of a SOCKS5 request; `beyond` lies behind the buffer. */
  function ParseAddress(s: Bytes, beyond: byte): Parsed<Destination> {
    if |s| < 1 then Indeterminate
    else if s[0] == 0x01 then
      if |s| < 7 then Indeterminate else Good(Ipv4(s[1..5], Number16(s[5], s[6])), 7)
    else if s[0] == 0x04 then
      if |s| < 19 then Indeterminate else Good(Ipv6(s[1..17], Number16(s[17], s[18])), 19)
    else if s[0] == 0x03 then ParseDomain(s, beyond)
    else Wrong
  }

  function ParseDomain(s: Bytes, beyond: byte): Parsed<Destination> {
    if |s| < 4 || |s| < 1 + (s[1] as int) + 2 then Indeterminate
    else
      var n: int := s[1];
      Good(Domain(s[2..2 + n], Number16(s[2 + n], if 3 + n < |s| then s[3 + n] else beyond)), 4 + n)
  }

  /** The command a client opens a connection with, in both protocols. */
  const CMD_CONNECT: byte := 1

  datatype Socks5Fields = Socks5Fields(command: byte, reserved: byte, dest: Destination)

  function ParseSocks5(s: Bytes, beyond: byte): Parsed<Socks5Fields> {
    if |s| < 3 then Indeterminate
    else if s[0] != 5 then Wrong
    else
      match ParseAddress(s[3..], beyond)
      case Good(d, used) => Good(Socks5Fields(s[1], s[2], d), used + 3)
      case Wrong => Wrong
      case Indeterminate => Indeterminate
  }

  /** The methods a client offers. */
  function ParseMethodSelect(s: Bytes): Parsed<Bytes> {
    if |s| < 2 then Indeterminate
    else if s[0] != 5 then Wrong
    else if |s| < 2 + (s[1] as int) then Indeterminate
    else Good(s[2..2 + (s[1] as int)], 2 + (s[1] as int))
  }

  datatype Credentials = Credentials(username: Bytes, password: Bytes)

  /** A length byte, which may not be zero, and that many bytes. */
  function ParseCounted(s: Bytes): Parsed<Bytes> {
    if |s| < 1 then Indeterminate
    else if s[0] == 0 then Wrong
    else if |s| < 1 + (s[0] as int) then Indeterminate
    else Good(s[1..1 + (s[0] as int)], 1 + (s[0] as int))
  }

  function ParseAuth(s: Bytes): Parsed<Credentials> {
    if |s| < 1 then Indeterminate
    else if s[0] != 5 then Wrong
    else
      match ParseCounted(s[1..])
      case Wrong => Wrong
      case Indeterminate => Indeterminate
      case Good(username, n) =>
        if |s| < 1 + n then Indeterminate
        else
          match ParseCounted(s[1 + n..])
          case Wrong => Wrong
          case Indeterminate => Indeterminate
          case Good(password, m) => Good(Credentials(username, password), 1 + n + m)
  }

  // ---------------------------------------------------------------- round trips

  ghost predicate SizedAddress(d: Destination) {
    match d
    case Ipv4(a, _) => |a| == 4
    case Ipv6(a, _) => |a| == 16
    case Domain(_, _) => true
  }

  lemma PortRoundTrip(port: nat)
    ensures Number16(port / 256 % 256, port % 256) == port <==> port <= 0xffff
  {
  }

  lemma ShortDomain(name: Bytes, high: byte, low: byte, tail: Bytes, beyond: byte)
    requires |name| <= 0xff
    ensures ParseDomain([0x03, |name|] + name + [high, low] + tail, beyond)
         == Good(Domain(name, Number16(high, low)), 4 + |name|)
  {
    var n := |name|;
    var s := [0x03, n] + name + [high, low] + tail;
    assert s[1] == n;
    assert s[2..2 + n] == name;
    assert s[2 + n] == high && s[3 + n] == low;
  }

  lemma LongDomain(name: Bytes, s: Bytes, beyond: byte)
    requires |name| > 0xff && |s| >= 2 && s[1] == |name| % 256
    ensures ParseDomain(s, beyond).Good? ==> |ParseDomain(s, beyond).value.name| < |name|
  {
  }

  lemma DomainRoundTrip(name: Bytes, port: nat, tail: Bytes, beyond: byte)
    ensures ParseDomain([0x03, |name| % 256] + name + Domain(name, port).Port() + tail, beyond)
         == Good(Domain(name, port), 4 + |name|)
       <==> port <= 0xffff && |name| <= 0xff
  {
    if |name| <= 0xff {
      ShortDomain(name, port / 256 % 256, port % 256, tail, beyond);
      PortRoundTrip(port);
    } else {
      LongDomain(name, [0x03, |name| % 256] + name + Domain(name, port).Port() + tail, beyond);
    }
  }

  /** A destination is read back exactly when its port has 16 bits and its name a length byte. */
  lemma AddressRoundTrip(d: Destination, tail: Bytes, beyond: byte)
    requires SizedAddress(d)
    ensures ParseAddress(d.Header() + tail, beyond) == Good(d, |d.Header()|)
       <==> d.port <= 0xffff && (d.Domain? ==> |d.name| <= 0xff)
  {
    var s := d.Header() + tail;
    PortRoundTrip(d.port);
    match d
    case Ipv4(a, port) =>
      assert s[0] == 1 && s[1..5] == a && s[5] == port / 256 % 256 && s[6] == port % 256;
    case Ipv6(a, port) =>
      assert s[0] == 4 && s[1..17] == a && s[17] == port / 256 % 256 && s[18] == port % 256;
    case Domain(name, port) =>
      DomainRoundTrip(name, port, tail, beyond);
  }

  /**
   * A header that is not all there is waited for, with one exception: a domain header that lacks
   * its last byte is taken for whole, and the port's low byte is whatever lies behind the buffer.
   */
  lemma CutAddress(d: Destination, k: nat, beyond: byte)
    requires SizedAddress(d) && (d.Domain? ==> |d.name| <= 0xff) && k < |d.Header()|
    ensures ParseAddress(d.Header()[..k], beyond) == Indeterminate <==>
      !(d.Domain? && d.name != [] && k == |d.Header()| - 1)
  {
    var h := d.Header();
    var s := h[..k];
    if k >= 1 {
      assert s[0] == h[0];
    }
    if d.Domain? && k >= 2 {
      assert s[1] == h[1] == |d.name|;
    }
  }

  // ---------------------------------------------------------------- the Shadowsocks header

  /** The same header, read by the Shadowsocks server: it asks for one byte more before it looks. */
  function ParseSsAddress(s: Bytes, beyond: byte): Parsed<Destination> {
    if |s| < 1 then Indeterminate
    else if s[0] == 0x01 then
      if |s| < 8 then Indeterminate else Good(Ipv4(s[1..5], Number16(s[5], s[6])), 7)
    else if s[0] == 0x04 then
      if |s| < 20 then Indeterminate else Good(Ipv6(s[1..17], Number16(s[17], s[18])), 19)
    else if s[0] != 0x03 then Wrong
    else if |s| < 5 then Indeterminate
    else ParseDomain(s, beyond)
  }

  /**
   * The Shadowsocks server reads a destination back exactly when its port has 16 bits, its name a
   * length byte, and the header is followed by something or is that of a non-empty name.
   */
  lemma SsAddressRoundTrip(d: Destination, tail: Bytes, beyond: byte)
    requires SizedAddress(d)
    ensures ParseSsAddress(d.Header() + tail, beyond) == Good(d, |d.Header()|)
       <==> d.port <= 0xffff && (d.Domain? ==> |d.name| <= 0xff) && (tail != [] || (d.Domain? && d.name != []))
  {
    AddressRoundTrip(d, tail, beyond);
    var s := d.Header() + tail;
    assert s[0] == d.Header()[0] && |s| == |d.Header()| + |tail|;
  }

  /** A bare IPv4 header is waited upon although all of it is there. */
  lemma BareHeaderWaits(beyond: byte)
    ensures ParseSsAddress(Ipv4([1, 2, 3, 4], 80).Header(), beyond) == Indeterminate
  {
    assert |Ipv4([1, 2, 3, 4], 80).Header()| == 7;
  }

  /** An incomplete header is waited for, except one that lacks the last byte behind a name of two or more. */
  lemma CutSsAddress(d: Destination, k: nat, beyond: byte)
    requires SizedAddress(d) && (d.Domain? ==> |d.name| <= 0xff) && k < |d.Header()|
    ensures ParseSsAddress(d.Header()[..k], beyond) == Indeterminate <==>
      !(d.Domain? && |d.name| >= 2 && k == |d.Header()| - 1)
  {
    var h := d.Header();
    var s := h[..k];
    if k >= 1 {
      assert s[0] == h[0];
    }
    if d.Domain? && k >= 2 {
      assert s[1] == h[1] == |d.name|;
    }
  }

  lemma Socks5RoundTrip(cfg: Config, tail: Bytes, beyond: byte)
    requires SizedAddress(cfg.dest)
    ensures ParseSocks5(cfg.Socks5Request() + tail, beyond)
         == Good(Socks5Fields(CMD_CONNECT, 0, cfg.dest), |cfg.Socks5Request()|)
       <==> cfg.dest.port <= 0xffff && (cfg.dest.Domain? ==> |cfg.dest.name| <= 0xff)
  {
    var s := cfg.Socks5Request() + tail;
    assert s[3..] == cfg.dest.Header() + tail;
    AddressRoundTrip(cfg.dest, tail, beyond);
  }

  lemma MethodSelectRoundTrip(cfg: Config, tail: Bytes)
    ensures ParseMethodSelect(cfg.MethodSelect() + tail) == Good([if cfg.AuthRequired() then 2 else 0], 3)
  {
    var s := cfg.MethodSelect() + tail;
    assert s[2..3] == [if cfg.AuthRequired() then 2 else 0];
  }

  lemma CountedRoundTrip(text: Bytes, tail: Bytes)
    ensures ParseCounted([|text| % 256] + text + tail) == Good(text, 1 + |text|) <==> 1 <= |text| <= 0xff
  {
    var s := [|text| % 256] + text + tail;
    if |text| <= 0xff {
      assert s[1..1 + |text|] == text;
    }
  }

  lemma CountedUsed(s: Bytes)
    ensures ParseCounted(s).Good? ==> ParseCounted(s).used == 1 + |ParseCounted(s).value| <= |s|
  {
  }

  /** The credentials behind the version byte: two counted strings in a row. */
  lemma AuthIsTwoCounted(x: Bytes)
    ensures ParseCounted(x).Good? ==> ParseCounted(x).used <= |x|
    ensures ParseAuth([5] + x).Good? <==> ParseCounted(x).Good? && ParseCounted(x[ParseCounted(x).used..]).Good?
    ensures ParseAuth([5] + x).Good? ==>
              var first := ParseCounted(x);
              var second := ParseCounted(x[first.used..]);
              ParseAuth([5] + x) == Good(Credentials(first.value, second.value), 1 + first.used + second.used)
  {
    var s := [5] + x;
    assert s[1..] == x;
    if ParseCounted(x).Good? {
      var n := ParseCounted(x).used;
      assert s[1 + n..] == x[n..];
    }
  }

  /** Credentials are read back exactly when both fit their length bytes. */
  lemma AuthRoundTrip(cfg: Config, tail: Bytes)
    ensures ParseAuth(cfg.AuthRequest() + tail) == Good(Credentials(cfg.username, cfg.password), |cfg.AuthRequest()|)
       <==> 1 <= |cfg.username| <= 0xff && 1 <= |cfg.password| <= 0xff
  {
    var u, p := cfg.username, cfg.password;
    var second := [|p| % 256] + p + tail;
    var x := [|u| % 256] + u + second;
    AuthBytes(u, p, tail);
    CountedRoundTrip(u, second);
    CountedRoundTrip(p, tail);
    TwoCounted(u, p, x, second);
  }

  lemma AuthBytes(u: Bytes, p: Bytes, tail: Bytes)
    ensures var x := [|u| % 256] + u + ([|p| % 256] + p + tail);
            && [5, |u| % 256] + u + [|p| % 256] + p + tail == [5] + x
            && |x| >= 1 + |u| && x[1 + |u|..] == [|p| % 256] + p + tail
  {
    var second := [|p| % 256] + p + tail;
    assert [5, |u| % 256] + u + [|p| % 256] + p + tail == [5, |u| % 256] + u + second;
    assert [5, |u| % 256] + u + second == [5] + ([|u| % 256] + u + second);
  }

  /** Two counted strings in a row are read back exactly if each of them is. */
  lemma TwoCounted(u: Bytes, p: Bytes, x: Bytes, second: Bytes)
    requires |x| >= 1 + |u| && x[1 + |u|..] == second
    ensures ParseAuth([5] + x) == Good(Credentials(u, p), 3 + |u| + |p|)
       <==> ParseCounted(x) == Good(u, 1 + |u|) && ParseCounted(second) == Good(p, 1 + |p|)
  {
    AuthIsTwoCounted(x);
    CountedUsed(x);
    CountedUsed(second);
  }

  datatype Negotiation = Negotiation(
    methods: Bytes,
    credentials: Option<Credentials>,
    request: Socks5Fields,
    rest: Bytes)

  /** The negotiation as a server reads it: credentials come next if their method was offered. */
  function ReadNegotiation(s: Bytes, beyond: byte): Option<Negotiation> {
    var hello := ParseMethodSelect(s);
    if !hello.Good? || hello.used > |s| then None
    else if hello.value != [2] then ReadRequest(hello.value, None, s[hello.used..], beyond)
    else
      var s1 := s[hello.used..];
      var auth := ParseAuth(s1);
      if !auth.Good? || auth.used > |s1| then None
      else ReadRequest(hello.value, Some(auth.value), s1[auth.used..], beyond)
  }

  function ReadRequest(methods: Bytes, credentials: Option<Credentials>, s: Bytes, beyond: byte): Option<Negotiation> {
    var request := ParseSocks5(s, beyond);
    if !request.Good? || request.used > |s| then None
    else Some(Negotiation(methods, credentials, request.value, s[request.used..]))
  }

  lemma RequestUnderstood(cfg: Config, methods: Bytes, credentials: Option<Credentials>, client: Bytes, beyond: byte)
    requires SizedAddress(cfg.dest) && cfg.dest.port <= 0xffff && (cfg.dest.Domain? ==> |cfg.dest.name| <= 0xff)
    ensures ReadRequest(methods, credentials, cfg.Socks5Request() + client, beyond)
         == Some(Negotiation(methods, credentials, Socks5Fields(CMD_CONNECT, 0, cfg.dest), client))
  {
    Socks5RoundTrip(cfg, client, beyond);
    assert (cfg.Socks5Request() + client)[|cfg.Socks5Request()|..] == client;
  }

  /**
   * From all the connection sends, the server reads the offered method, the credentials if both
   * are set and a CONNECT to the destination, and is left with exactly the client's bytes.
   */
  lemma NegotiationUnderstood(cfg: Config, client: Bytes, beyond: byte)
    requires cfg.upstream.Socks5? && SizedAddress(cfg.dest)
    requires cfg.dest.port <= 0xffff && (cfg.dest.Domain? ==> |cfg.dest.name| <= 0xff)
    requires |cfg.username| <= 0xff && |cfg.password| <= 0xff
    ensures ReadNegotiation(cfg.Released(0) + client, beyond)
         == (var request := Socks5Fields(CMD_CONNECT, 0, cfg.dest);
             Some(if cfg.username != [] && cfg.password != []
                  then Negotiation([2], Some(Credentials(cfg.username, cfg.password)), request, client)
                  else Negotiation([0], None, request, client)))
  {
    var hello, auth, request := cfg.MethodSelect(), cfg.AuthRequest(), cfg.Socks5Request();
    var s2 := request + client;
    var s1 := if cfg.AuthRequired() then auth + s2 else s2;
    assert cfg.Released(0) + client == hello + s1 by {
      if cfg.AuthRequired() {
        Regroup(hello + auth, request, client);
        Regroup(hello, auth, s2);
      } else {
        assert hello + [] == hello;
        Regroup(hello, request, client);
      }
    }
    MethodSelectRoundTrip(cfg, s1);
    assert (hello + s1)[3..] == s1;
    if cfg.AuthRequired() {
      AuthRoundTrip(cfg, s2);
      assert (auth + s2)[|auth|..] == s2;
      RequestUnderstood(cfg, [2], Some(Credentials(cfg.username, cfg.password)), client, beyond);
    } else {
      RequestUnderstood(cfg, [0], None, client, beyond);
    }
  }

  // ---------------------------------------------------------------- the server's answer to a request

  /** The length of a server's positive answer to a SOCKS request, if `buf` starts with one. */
  function SocksReplyLength(kind: UpstreamKind, buf: Bytes): (r: Option<nat>)
    ensures r.Some? ==> r.value <= |buf|
  {
    if kind.Socks4? || kind.Socks4A? then
      if |buf| < 8 || buf[0] != 0 || buf[1] != 0x5a then None else Some(8)
    else if |buf| < 4 || buf[0] != 5 || buf[1] != 0 || buf[2] != 0 then None
    else
      var length :=
        if buf[3] == 0x01 then 4 + 4 + 2
        else if buf[3] == 0x04 then 4 + 16 + 2
        else if buf[3] == 0x03 && |buf| >= 7 then 4 + 1 + 2 + buf[4]
        else |buf| + 1;
      if |buf| < length then None else Some(length)
  }

  /** An answer is recognised on its own as well as with bytes behind it. */
  lemma AnswerAlone(kind: UpstreamKind, s: Bytes)
    requires SocksReplyLength(kind, s).Some?
    ensures var n := SocksReplyLength(kind, s).value;
            SocksReplyLength(kind, s[..n]) == Some(n)
  {
    var n := SocksReplyLength(kind, s).value;
    var a := s[..n];
    assert forall i :: 0 <= i < n ==> a[i] == s[i];
  }

  /** Every positive SOCKS5 answer, with any bound address, is accepted and cut off exactly. */
  lemma Socks5AnswerAccepted(bound: Destination, tail: Bytes)
    requires SizedAddress(bound) && (bound.Domain? ==> |bound.name| <= 0xff)
    ensures SocksReplyLength(Socks5, [5, 0, 0] + bound.Header() + tail) == Some(3 + |bound.Header()|)
  {
    var s := [5, 0, 0] + bound.Header() + tail;
    assert s[3] == bound.Header()[0];
    if bound.Domain? {
      assert s[4] == |bound.name|;
    }
  }

  /** What is cut off is a positive answer: version, status, reserved byte and a whole address. */
  lemma Socks5AnswerOnly(s: Bytes, beyond: byte)
    requires SocksReplyLength(Socks5, s).Some?
    ensures var n := SocksReplyLength(Socks5, s).value;
            && 3 <= n <= |s| && s[..3] == [5, 0, 0]
            && ParseAddress(s[3..n], beyond).Good? && ParseAddress(s[3..n], beyond).used == n - 3
  {
    var n := SocksReplyLength(Socks5, s).value;
    var address := s[3..n];
    assert address[0] == s[3] && address[1] == s[4];
  }

  /** A positive SOCKS4 answer is eight bytes: zero, the status, and six that do not matter. */
  lemma Socks4AnswerAccepted(kind: UpstreamKind, port: Bytes, address: Bytes, tail: Bytes)
    requires (kind.Socks4? || kind.Socks4A?) && |port| == 2 && |address| == 4
    ensures SocksReplyLength(kind, [0, 0x5a] + port + address + tail) == Some(8)
  {
  }

  lemma Socks4AnswerOnly(kind: UpstreamKind, s: Bytes)
    requires kind.Socks4? || kind.Socks4A?
    ensures SocksReplyLength(kind, s).Some? <==> |s| >= 8 && s[..2] == [0, 0x5a]
    ensures SocksReplyLength(kind, s).Some? ==> SocksReplyLength(kind, s).value == 8
  {
  }

  // ---------------------------------------------------------------- SOCKS4 and SOCKS4A

  datatype Socks4Fields = Socks4Fields(
    command: byte,
    port: nat,
    address: Bytes,
    userId: Bytes,
    domain: Option<Bytes>)

  /** Where the first zero byte is; the length if there is none. */
  function FirstZero(s: Bytes): (n: nat)
    ensures n <= |s| && (n < |s| ==> s[n] == 0) && (forall i :: 0 <= i < n ==> s[i] != 0)
  {
    if s == [] || s[0] == 0 then 0 else 1 + FirstZero(s[1..])
  }

  /** An address 0.0.0.x with x not zero announces a domain name. */
  predicate IsSocks4A(address: Bytes)
    requires |address| == 4
  {
    address[3] != 0 && address[..3] == [0, 0, 0]
  }

  function ParseSocks4(s: Bytes): Parsed<Socks4Fields> {
    if |s| < 8 then Indeterminate
    else if s[0] != 4 then Wrong
    else
      var port, address, n := Number16(s[2], s[3]), s[4..8], FirstZero(s[8..]);
      if 8 + n == |s| then Indeterminate
      else if !IsSocks4A(address) then Good(Socks4Fields(s[1], port, address, s[8..8 + n], None), 9 + n)
      else
        var domain := s[9 + n..];
        var m := FirstZero(domain);
        if m == |domain| then Indeterminate
        else Good(Socks4Fields(s[1], port, address, s[8..8 + n], Some(domain[..m])), 10 + n + m)
  }

  /** A SOCKS4 request is read back exactly when its address does not look like SOCKS4A. */
  lemma Socks4RoundTrip(cfg: Config, tail: Bytes)
    requires cfg.dest.Ipv4? && |cfg.dest.address| == 4
    ensures ParseSocks4(cfg.Socks4Request() + tail)
         == Good(Socks4Fields(CMD_CONNECT, cfg.dest.port, cfg.dest.address, [], None), 9)
       <==> cfg.dest.port <= 0xffff && !IsSocks4A(cfg.dest.address)
  {
    var s := cfg.Socks4Request() + tail;
    PortRoundTrip(cfg.dest.port);
    assert s[4..8] == cfg.dest.address && s[8..][0] == 0;
    assert s[8..8] == [];
  }

  lemma FirstZeroOf(name: Bytes, tail: Bytes)
    ensures FirstZero(name + [0] + tail) == |name| <==> 0 !in name
  {
    var s := name + [0] + tail;
    assert s[|name|] == 0;
    forall i | 0 <= i < |name|
      ensures s[i] == name[i]
    {
    }
    if 0 in name {
      var i :| 0 <= i < |name| && name[i] == 0;
      assert s[i] == 0;
    }
  }

  /** A SOCKS4A request is read back exactly when the name holds no zero byte. */
  lemma Socks4ARoundTrip(cfg: Config, tail: Bytes)
    ensures ParseSocks4(cfg.Socks4ARequest() + tail)
         == Good(Socks4Fields(CMD_CONNECT, cfg.dest.port, [0, 0, 0, 0x0f], [], Some(cfg.hostText)), 10 + |cfg.hostText|)
       <==> cfg.dest.port <= 0xffff && 0 !in cfg.hostText
  {
    var s := cfg.Socks4ARequest() + tail;
    PortRoundTrip(cfg.dest.port);
    assert s[4..8] == [0, 0, 0, 0x0f] && s[8..][0] == 0;
    assert s[8..8] == [];
    assert s[9..] == cfg.hostText + [0] + tail;
    FirstZeroOf(cfg.hostText, tail);
    assert (cfg.hostText + [0] + tail)[..|cfg.hostText|] == cfg.hostText;
  }
}
