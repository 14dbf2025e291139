/** What became of the bytes the server sent: answers to the negotiation, then the client's. */
module DownstreamHistory {
  import opened Bytes
  import opened Shadowsocks
  import opened UpstreamMessages
  import RequestParsers

  /**
   * How far the server's answers are in (method, authentication, the grant itself), the piece an
   * HTTP grant was cut from, all the server sent, and a piece that was refused or broke the stream.
   */
  datatype Received = Received(
    hello: bool,
    authed: bool,
    granted: Option<Bytes>,
    piece: Bytes,
    got: Bytes,
    refused: Bytes)

  const NothingReceived := Received(false, false, None, [], [], [])

  /** The bytes of the answers so far. */
  ghost function Answers(cfg: Config, r: Received): Bytes {
    (if r.hello then cfg.MethodAnswer() else [])
    + (if r.authed then [5, 0] else [])
    + (if r.granted.Some? then r.granted.value else [])
  }

  /** The answers come in order, and the last one really grants the request. */
  ghost predicate AnswersInOrder(cfg: Config, r: Received) {
    && (r.hello ==> cfg.upstream.Socks5?)
    && (r.authed ==> r.hello && cfg.AuthRequired())
    && (r.granted.Some? ==>
          && (cfg.upstream.Socks5? ==> r.hello && (cfg.AuthRequired() ==> r.authed))
          && Grants(cfg, r.granted.value, r.piece))
  }

  /** A whole positive SOCKS answer, or the granting header of the HTTP response in `piece`. */
  ghost predicate Grants(cfg: Config, answer: Bytes, piece: Bytes) {
    if cfg.upstream.Https? then answer <= piece && cfg.parseResponse(piece) == Some(|answer|)
    else RequestParsers.SocksReplyLength(cfg.upstream, answer) == Some(|answer|)
  }

  /** Whether `data` is not the answer that is due. */
  ghost predicate Refusable(cfg: Config, r: Received, data: Bytes) {
    if cfg.upstream.Socks5? && !r.hello then data != cfg.MethodAnswer()
    else if cfg.upstream.Socks5? && cfg.AuthRequired() && !r.authed then data != [5, 0]
    else if cfg.upstream.Https? then cfg.parseResponse(data).None? || cfg.parseResponse(data).value > |data|
    else RequestParsers.SocksReplyLength(cfg.upstream, data).None?
  }

  ghost predicate RelayedNow(cfg: Config, d: Decoder, r: Received, pushed: Bytes) {
    if cfg.upstream.Shadow? then
      && cfg.aead.Sound() && Synced(cfg.aead, d, r.got) && pushed == cfg.reply + Flat(Decrypted(cfg.aead, r.got).frames)
      && (r.refused != [] <==> BrokenStream(cfg.aead, r.got))
    else
      && cfg.reply <= pushed && AnswersInOrder(cfg, r)
      && r.got == Answers(cfg, r) + (pushed[|cfg.reply|..] + r.refused)
      && (r.granted.None? ==> pushed == cfg.reply)
      && (r.refused != [] ==> r.granted.None? && Refusable(cfg, r, r.refused))
  }

  /**
   * `pushed`, what was queued for the client, is the reply and then exactly what the server sent
   * behind its answers; nothing is thrown away but a piece that refuses the connection.
   */
  ghost predicate Relayed(cfg: Config, d: Decoder, r: Received, pushed: Bytes) {
    forall k :: Opened(k, (d, r, pushed)) ==> RelayedNow(cfg, d, r, pushed)
  }

  lemma NothingRelayed(cfg: Config)
    requires cfg.aead.Sound()
    ensures Relayed(cfg, NewDecoder, NothingReceived, cfg.reply)
  {
    assert SyncedNow(cfg.aead, NewDecoder, []);
    assert Decrypted(cfg.aead, []).frames == [] && Flat([]) == [] && cfg.reply + [] == cfg.reply;
    assert cfg.reply[|cfg.reply|..] == [];
  }

  /** Before the grant the client has got the reply alone. */
  lemma NotGranted(cfg: Config, d: Decoder, r: Received, pushed: Bytes)
    requires Relayed(cfg, d, r, pushed) && !cfg.upstream.Shadow? && r.granted.None?
    ensures pushed == cfg.reply && r.got == Answers(cfg, r) + r.refused && AnswersInOrder(cfg, r)
  {
    assert Opened(0, (d, r, pushed));
    assert pushed[|cfg.reply|..] == [] && [] + r.refused == r.refused;
  }

  /** The converse, for a history in which nothing is granted yet. */
  lemma StillNegotiating(cfg: Config, d: Decoder, r: Received)
    requires !cfg.upstream.Shadow? && AnswersInOrder(cfg, r) && r.granted.None?
    requires r.got == Answers(cfg, r) + r.refused && (r.refused != [] ==> Refusable(cfg, r, r.refused))
    ensures Relayed(cfg, d, r, cfg.reply)
  {
    assert cfg.reply[|cfg.reply|..] == [] && [] + r.refused == r.refused;
  }

  function WithHello(cfg: Config, r: Received): Received {
    r.(hello := true, got := r.got + cfg.MethodAnswer())
  }

  lemma HelloTaken(cfg: Config, d: Decoder, r: Received, pushed: Bytes)
    requires Relayed(cfg, d, r, pushed) && cfg.upstream.Socks5? && !r.hello && r.granted.None? && r.refused == []
    ensures Relayed(cfg, d, WithHello(cfg, r), pushed)
  {
    NotGranted(cfg, d, r, pushed);
    assert Answers(cfg, r) + [] == [] && Answers(cfg, WithHello(cfg, r)) + [] == cfg.MethodAnswer();
    assert r.got + cfg.MethodAnswer() == cfg.MethodAnswer();
    StillNegotiating(cfg, d, WithHello(cfg, r));
  }

  function WithAuth(r: Received): Received {
    r.(authed := true, got := r.got + [5, 0])
  }

  lemma AuthTaken(cfg: Config, d: Decoder, r: Received, pushed: Bytes)
    requires Relayed(cfg, d, r, pushed) && cfg.upstream.Socks5? && cfg.AuthRequired()
    requires r.hello && !r.authed && r.granted.None? && r.refused == []
    ensures Relayed(cfg, d, WithAuth(r), pushed)
  {
    NotGranted(cfg, d, r, pushed);
    assert Answers(cfg, r) + [] == cfg.MethodAnswer();
    assert Answers(cfg, WithAuth(r)) + [] == cfg.MethodAnswer() + [5, 0];
    StillNegotiating(cfg, d, WithAuth(r));
  }

  function WithGrant(r: Received, answer: Bytes, piece: Bytes): Received {
    r.(granted := Some(answer), piece := piece, got := r.got + answer)
  }

  lemma GrantTaken(cfg: Config, d: Decoder, r: Received, pushed: Bytes, answer: Bytes, piece: Bytes)
    requires Relayed(cfg, d, r, pushed) && !cfg.upstream.Shadow? && r.granted.None? && r.refused == []
    requires cfg.upstream.Socks5? ==> r.hello && (cfg.AuthRequired() ==> r.authed)
    requires Grants(cfg, answer, piece)
    ensures Relayed(cfg, d, WithGrant(r, answer, piece), pushed)
  {
    NotGranted(cfg, d, r, pushed);
    var r' := WithGrant(r, answer, piece);
    assert Answers(cfg, r) + [] == Answers(cfg, r);
    assert Answers(cfg, r') == Answers(cfg, r) + answer;
    assert pushed[|cfg.reply|..] + [] == [];
    assert Answers(cfg, r') + [] == Answers(cfg, r');
  }

  lemma PayloadRelayed(cfg: Config, d: Decoder, r: Received, pushed: Bytes, payload: Bytes)
    requires Relayed(cfg, d, r, pushed) && !cfg.upstream.Shadow? && r.granted.Some?
    ensures Relayed(cfg, d, r.(got := r.got + payload), pushed + payload)
  {
    assert Opened(0, (d, r, pushed));
    var a, p := Answers(cfg, r), pushed[|cfg.reply|..];
    assert (pushed + payload)[|cfg.reply|..] == p + payload;
    calc {
      r.got + payload;
      { assert p + [] == p; }
      (a + p) + payload;
      { Regroup(a, p, payload); }
      a + (p + payload);
      { assert (p + payload) + [] == p + payload; }
      a + ((p + payload) + []);
    }
  }

  lemma PieceRefused(cfg: Config, d: Decoder, r: Received, pushed: Bytes, data: Bytes)
    requires Relayed(cfg, d, r, pushed) && !cfg.upstream.Shadow? && r.granted.None? && r.refused == []
    requires Refusable(cfg, r, data)
    ensures Relayed(cfg, d, r.(got := r.got + data, refused := data), pushed)
  {
    NotGranted(cfg, d, r, pushed);
    var r' := r.(got := r.got + data, refused := data);
    assert Answers(cfg, r) + [] == Answers(cfg, r) == Answers(cfg, r');
    StillNegotiating(cfg, d, r');
  }

  lemma FramesRelayed(cfg: Config, d: Decoder, r: Received, pushed: Bytes, data: Bytes, d': Decoder, r': Received,
                      frames: seq<Bytes>)
    requires Relayed(cfg, d, r, pushed) && cfg.upstream.Shadow?
    requires Synced(cfg.aead, d', r.got + data)
    requires Decrypted(cfg.aead, r.got + data).frames == Decrypted(cfg.aead, r.got).frames + frames
    requires r'.got == r.got + data && (r'.refused != [] <==> BrokenStream(cfg.aead, r.got + data))
    ensures Relayed(cfg, d', r', pushed + Flat(frames))
  {
    assert Opened(0, (d, r, pushed));
    FlatConcat(Decrypted(cfg.aead, r.got).frames, frames);
    Regroup(cfg.reply, Flat(Decrypted(cfg.aead, r.got).frames), Flat(frames));
  }

  /** Once granted, the client's bytes are what the server sent behind its answers. */
  lemma GrantedPayload(cfg: Config, d: Decoder, r: Received, pushed: Bytes)
    requires Relayed(cfg, d, r, pushed) && !cfg.upstream.Shadow? && r.granted.Some?
    ensures Answers(cfg, r) <= r.got && pushed == cfg.reply + r.got[|Answers(cfg, r)|..] && AnswersInOrder(cfg, r)
  {
    assert Opened(0, (d, r, pushed));
    var p := pushed[|cfg.reply|..];
    assert p + [] == p;
    assert r.got[|Answers(cfg, r)|..] == p;
  }

  /** Whether all answers are in, by the connection's handshake flags. */
  predicate AllAnswered(cfg: Config, methodSelect: bool, auth: bool, socks: bool, https: bool) {
    match cfg.upstream
    case Https => !https
    case Shadow => true
    case _ => !methodSelect && !auth && !socks
  }

  ghost predicate InStepNow(cfg: Config, r: Received, methodSelect: bool, auth: bool, socks: bool, https: bool) {
    cfg.upstream.Shadow? ||
    (&& (cfg.upstream.Socks5? ==>
           r.hello == !methodSelect && r.authed == (cfg.AuthRequired() && !methodSelect && !auth))
     && r.granted.Some? == AllAnswered(cfg, methodSelect, auth, socks, https) && r.refused == [])
  }

  /** The flags say which of the server's answers are in. */
  ghost predicate InStep(cfg: Config, r: Received, methodSelect: bool, auth: bool, socks: bool, https: bool) {
    forall k :: Opened(k, (r, methodSelect, auth, socks, https)) ==> InStepNow(cfg, r, methodSelect, auth, socks, https)
  }

  lemma InStepFacts(cfg: Config, r: Received, methodSelect: bool, auth: bool, socks: bool, https: bool)
    requires InStep(cfg, r, methodSelect, auth, socks, https)
    ensures InStepNow(cfg, r, methodSelect, auth, socks, https)
  {
    assert Opened(0, (r, methodSelect, auth, socks, https));
  }

  // ---------------------------------------------------------------- with the socket's log

  ghost predicate LoggedNow(cfg: Config, d: Decoder, r: Received, pushed: Bytes, from: Bytes, rest: Bytes,
                            greeted: bool) {
    && Relayed(cfg, d, r, pushed)
    && from == r.got + rest && r.piece <= from
    && (!greeted ==> r == NothingReceived && pushed == cfg.reply)
  }

  /**
   * All that came from the server, `from`, is accounted for except `rest`, which has just been
   * read; nothing came before the opening messages were out.
   */
  ghost predicate Logged(cfg: Config, d: Decoder, r: Received, pushed: Bytes, from: Bytes, rest: Bytes, greeted: bool) {
    forall k :: Opened(k, (d, r, pushed, from, rest, greeted)) ==> LoggedNow(cfg, d, r, pushed, from, rest, greeted)
  }

  lemma LoggedFacts(cfg: Config, d: Decoder, r: Received, pushed: Bytes, from: Bytes, rest: Bytes, greeted: bool)
    requires Logged(cfg, d, r, pushed, from, rest, greeted)
    ensures Relayed(cfg, d, r, pushed) && from == r.got + rest && r.piece <= from
    ensures !greeted ==> r == NothingReceived && pushed == cfg.reply
  {
    assert Opened(0, (d, r, pushed, from, rest, greeted));
  }

  lemma LoggedStart(cfg: Config)
    requires cfg.aead.Sound()
    ensures Logged(cfg, NewDecoder, NothingReceived, cfg.reply, [], [], false)
  {
    NothingRelayed(cfg);
  }

  lemma LoggedGreeted(cfg: Config, d: Decoder, r: Received, pushed: Bytes, from: Bytes, rest: Bytes)
    requires Logged(cfg, d, r, pushed, from, rest, false)
    ensures Logged(cfg, d, r, pushed, from, rest, true)
  {
    LoggedFacts(cfg, d, r, pushed, from, rest, false);
  }

  lemma LoggedRead(cfg: Config, d: Decoder, r: Received, pushed: Bytes, from: Bytes, data: Bytes, greeted: bool)
    requires Logged(cfg, d, r, pushed, from, [], greeted)
    ensures Logged(cfg, d, r, pushed, from + data, data, greeted)
  {
    LoggedFacts(cfg, d, r, pushed, from, [], greeted);
    assert r.got + [] == r.got;
  }

  lemma LoggedHello(cfg: Config, d: Decoder, r: Received, pushed: Bytes, from: Bytes)
    requires Logged(cfg, d, r, pushed, from, cfg.MethodAnswer(), true)
    requires cfg.upstream.Socks5? && !r.hello && r.granted.None? && r.refused == []
    ensures Logged(cfg, d, WithHello(cfg, r), pushed, from, [], true)
  {
    LoggedFacts(cfg, d, r, pushed, from, cfg.MethodAnswer(), true);
    HelloTaken(cfg, d, r, pushed);
    assert WithHello(cfg, r).got + [] == WithHello(cfg, r).got;
  }

  lemma LoggedAuth(cfg: Config, d: Decoder, r: Received, pushed: Bytes, from: Bytes)
    requires Logged(cfg, d, r, pushed, from, [5, 0], true)
    requires cfg.upstream.Socks5? && cfg.AuthRequired() && r.hello && !r.authed && r.granted.None? && r.refused == []
    ensures Logged(cfg, d, WithAuth(r), pushed, from, [], true)
  {
    LoggedFacts(cfg, d, r, pushed, from, [5, 0], true);
    AuthTaken(cfg, d, r, pushed);
    assert WithAuth(r).got + [] == WithAuth(r).got;
  }

  lemma LoggedGrant(cfg: Config, d: Decoder, r: Received, pushed: Bytes, from: Bytes, answer: Bytes, rest: Bytes,
                    piece: Bytes)
    requires Logged(cfg, d, r, pushed, from, answer + rest, true)
    requires !cfg.upstream.Shadow? && r.granted.None? && r.refused == []
    requires cfg.upstream.Socks5? ==> r.hello && (cfg.AuthRequired() ==> r.authed)
    requires Grants(cfg, answer, piece) && (piece == [] || (piece == answer + rest && !cfg.upstream.Socks5?))
    ensures Logged(cfg, d, WithGrant(r, answer, piece), pushed, from, rest, true)
  {
    LoggedFacts(cfg, d, r, pushed, from, answer + rest, true);
    NotGranted(cfg, d, r, pushed);
    assert !cfg.upstream.Socks5? ==> r.got == [] && [] + (answer + rest) == answer + rest;
    GrantTaken(cfg, d, r, pushed, answer, piece);
    Regroup(r.got, answer, rest);
  }

  lemma LoggedPayload(cfg: Config, d: Decoder, r: Received, pushed: Bytes, from: Bytes, payload: Bytes)
    requires Logged(cfg, d, r, pushed, from, payload, true) && !cfg.upstream.Shadow? && r.granted.Some?
    ensures Logged(cfg, d, r.(got := r.got + payload), pushed + payload, from, [], true)
  {
    LoggedFacts(cfg, d, r, pushed, from, payload, true);
    PayloadRelayed(cfg, d, r, pushed, payload);
    assert (r.got + payload) + [] == r.got + payload;
  }

  lemma LoggedRefused(cfg: Config, d: Decoder, r: Received, pushed: Bytes, from: Bytes, data: Bytes)
    requires Logged(cfg, d, r, pushed, from, data, true)
    requires !cfg.upstream.Shadow? && r.granted.None? && r.refused == [] && Refusable(cfg, r, data)
    ensures Logged(cfg, d, r.(got := r.got + data, refused := data), pushed, from, [], true)
  {
    LoggedFacts(cfg, d, r, pushed, from, data, true);
    PieceRefused(cfg, d, r, pushed, data);
    assert (r.got + data) + [] == r.got + data;
  }

  /** A piece of ciphertext more; one that breaks the stream is the last. */
  function WithPiece(r: Received, data: Bytes, broken: bool): Received {
    r.(got := r.got + data, refused := if broken then data else [])
  }

  /** `process_bytes` on a piece from the channel. */
  method DecryptPiece(cfg: Config, d: Decoder, ghost r: Received, ghost pushed: Bytes, ghost from: Bytes, data: Bytes)
    returns (d': Decoder, frames: seq<Bytes>, protocolError: bool)
    requires Logged(cfg, d, r, pushed, from, data, true) && cfg.upstream.Shadow? && data != []
    ensures Logged(cfg, d', WithPiece(r, data, protocolError), pushed + Flat(frames), from, [], true) && NoEmpty(frames)
  {
    LoggedFacts(cfg, d, r, pushed, from, data, true);
    assert Opened(0, (d, r, pushed));
    d', frames, protocolError := ProcessBytes(cfg.aead, d, data, r.got);
    FramesRelayed(cfg, d, r, pushed, data, d', WithPiece(r, data, protocolError), frames);
    assert (r.got + data) + [] == r.got + data;
  }
}
