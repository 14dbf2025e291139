/** The upstream queue together with its history: what the server has got and will get. */
module UpstreamHistory {
  import opened Bytes
  import opened Shadowsocks
  import opened UpstreamMessages
  import opened UpstreamQueue
  import FrameCode

  /**
   * Whether the opening messages are queued, how many slots are open, how many buffers stand
   * before the first one, the bytes the channel took, the client bytes passed on and, for
   * Shadowsocks, the plaintext chunks sealed so far.
   */
  datatype History = History(
    greeted: bool,
    slots: nat,
    front: nat,
    sent: Bytes,
    forwarded: Bytes,
    chunks: seq<Bytes>)

  /** Everything the server is to receive up to now. */
  ghost function Stream(cfg: Config, h: History): Bytes
    requires FrameSized(h.chunks)
  {
    if cfg.upstream.Shadow? then Wire(cfg.aead, cfg.salt, h.chunks) else cfg.Released(h.slots) + h.forwarded
  }

  ghost predicate OrderedNow(cfg: Config, q: seq<Bytes>, e: Encoder, h: History) {
    && cfg.Ok()
    && e.Sealed(h.chunks)
    && h.slots <= cfg.FirstSlots()
    && (h.greeted ==>
          && Slotted(q, h.slots, h.front, h.sent, cfg.Released(h.slots), h.forwarded, Stream(cfg, h))
          && (cfg.upstream.Shadow? ==> Flat(h.chunks) == cfg.dest.Header() + h.forwarded))
    && (!h.greeted ==> q == [] && h == History(false, 0, 0, [], [], []))
  }

  /** The order the whole negotiation relies on, kept by every operation on the queue. */
  ghost predicate Ordered(cfg: Config, q: seq<Bytes>, e: Encoder, h: History) {
    forall k :: Opened(k, (q, e, h)) ==> OrderedNow(cfg, q, e, h)
  }

  lemma OrderedFacts(cfg: Config, q: seq<Bytes>, e: Encoder, h: History)
    requires Ordered(cfg, q, e, h)
    ensures h.slots <= cfg.FirstSlots()
    ensures q == [] ==> h.slots == 0
    ensures q != [] ==> h.greeted && (q[0] == [] <==> h.slots > 0 && h.front == 0)
    ensures !h.greeted ==> q == [] && h == History(false, 0, 0, [], [], [])
  {
    assert Opened(0, (q, e, h));
  }

  function AfterSend(q: seq<Bytes>, h: History, n: nat): History
    requires q != [] && n <= |q[0]|
  {
    h.(sent := h.sent + q[0][..n], front := FrontAfterWrite(q, h.slots, h.front, n))
  }

  lemma SendKeepsOrder(cfg: Config, q: seq<Bytes>, e: Encoder, h: History, n: nat)
    requires Ordered(cfg, q, e, h) && q != [] && q[0] != [] && n <= |q[0]|
    ensures Ordered(cfg, AfterWrite(q, n), e, AfterSend(q, h, n))
  {
    assert Opened(0, (q, e, h));
    WriteKeepsOrder(q, h.slots, h.front, h.sent, cfg.Released(h.slots), h.forwarded, Stream(cfg, h), n);
  }

  lemma ForwardKeepsOrder(cfg: Config, q: seq<Bytes>, e: Encoder, h: History, b: Bytes)
    requires Ordered(cfg, q, e, h) && h.greeted && !cfg.upstream.Shadow? && b != []
    ensures Ordered(cfg, q + [b], e, h.(forwarded := h.forwarded + b))
  {
    assert Opened(0, (q, e, h));
    PushKeepsOrder(q, h.slots, h.front, h.sent, cfg.Released(h.slots), h.forwarded, Stream(cfg, h), b);
    Regroup(cfg.Released(h.slots), h.forwarded, b);
  }

  function AfterAnswer(h: History): History
    requires h.slots >= 1
  {
    h.(slots := h.slots - 1, front := if h.slots > 1 then 1 else 0)
  }

  /** The server's answer lets the next message take the slot at the head of the queue. */
  lemma AnswerKeepsOrder(cfg: Config, q: seq<Bytes>, e: Encoder, h: History)
    requires Ordered(cfg, q, e, h) && q != [] && q[0] == []
    ensures h.slots >= 1
    ensures Ordered(cfg, [cfg.NextMessage(h.slots)] + q[1..], e, AfterAnswer(h))
  {
    assert Opened(0, (q, e, h));
    var m := cfg.NextMessage(h.slots);
    FillKeepsOrder(q, h.slots, h.sent, cfg.Released(h.slots), h.forwarded, Stream(cfg, h), m);
    cfg.NextReleased(h.slots);
    Regroup(cfg.Released(h.slots), m, h.forwarded);
  }

  /** Encrypting into the last buffer, even one that is partly sent, appends to the stream. */
  lemma EncryptKeepsOrder(cfg: Config, q: seq<Bytes>, e: Encoder, h: History, b: Bytes, q': seq<Bytes>, e': Encoder,
                          added: Bytes)
    requires Ordered(cfg, q, e, h) && h.greeted && cfg.upstream.Shadow? && FrameSized(h.chunks)
    requires e'.Sealed(h.chunks + Chunks(b))
    requires |q'| == (if q == [] then 1 else |q|) && q'[..|q'| - 1] == q[..|q'| - 1] && q'[|q'| - 1] != []
    requires Flat(q') == Flat(q) + added
    requires Wire(cfg.aead, cfg.salt, h.chunks + Chunks(b)) == Wire(cfg.aead, cfg.salt, h.chunks) + added
    ensures Ordered(cfg, q', e', h.(forwarded := h.forwarded + b, chunks := h.chunks + Chunks(b)))
  {
    assert Opened(0, (q, e, h));
    ChunksWhole(b);
    FlatConcat(h.chunks, Chunks(b));
    Regroup(cfg.dest.Header(), h.forwarded, b);
    Regroup(h.sent, Flat(q), added);
    OnlyBackChanged(q, q');
  }

  /** `EncryptData` on the upstream queue. */
  method EncryptForward(cfg: Config, q: seq<Bytes>, e: Encoder, ghost h: History, b: Bytes)
    returns (q': seq<Bytes>, e': Encoder)
    requires Ordered(cfg, q, e, h) && h.greeted && cfg.upstream.Shadow? && b != []
    ensures q' != [] && Ordered(cfg, q', e', h.(forwarded := h.forwarded + b, chunks := h.chunks + Chunks(b)))
  {
    assert Opened(0, (q, e, h));
    ghost var added;
    e', q', added := EncryptData(cfg.aead, cfg.salt, e, q, b, h.chunks);
    EncryptKeepsOrder(cfg, q, e, h, b, q', e', added);
  }

  lemma OnlyBackChanged(was: seq<Bytes>, now: seq<Bytes>)
    requires NoEmpty(was) && |now| == (if was == [] then 1 else |was|)
    requires now[..|now| - 1] == was[..|now| - 1] && now[|now| - 1] != []
    ensures NoEmpty(now)
  {
    forall i | 0 <= i < |now|
      ensures now[i] != []
    {
      if i < |now| - 1 {
        assert now[..|now| - 1][i] == was[..|now| - 1][i];
      }
    }
  }

  /** The queue as the opening messages leave it. */
  function OpeningQueue(cfg: Config): seq<Bytes>
    requires !cfg.upstream.Shadow?
  {
    if cfg.upstream.Socks5? then [cfg.MethodSelect()] + seq(cfg.FirstSlots(), _ => [])
    else [cfg.Released(0)]
  }

  lemma OpeningOrdered(cfg: Config, q: seq<Bytes>, e: Encoder, h: History)
    requires Ordered(cfg, q, e, h) && !h.greeted && !cfg.upstream.Shadow?
    ensures var n := cfg.FirstSlots();
            Ordered(cfg, OpeningQueue(cfg), e, History(true, n, if n > 0 then 1 else 0, [], [], []))
  {
    assert Opened(0, (q, e, h));
    var n, o := cfg.FirstSlots(), OpeningQueue(cfg);
    FlatOne(o[0]);
    assert n == 0 ==> o == [o[0]];
    if n > 0 {
      assert o[..1] == [o[0]];
      assert o[1 + n..] == [];
    }
  }

  /** Shadowsocks opens with the destination, encrypted like everything else. */
  lemma EncryptedOpeningOrdered(cfg: Config, q: seq<Bytes>, e: Encoder, added: Bytes)
    requires cfg.Ok() && cfg.upstream.Shadow?
    requires e.Sealed([] + Chunks(cfg.dest.Header())) && |q| == 1 && q[0] != []
    requires Flat(q) == Flat([]) + added
    requires Wire(cfg.aead, cfg.salt, [] + Chunks(cfg.dest.Header())) == Wire(cfg.aead, cfg.salt, []) + added
    ensures Ordered(cfg, q, e, History(true, 0, 0, [], [], Chunks(cfg.dest.Header())))
  {
    var h := cfg.dest.Header();
    ChunksWhole(h);
    assert [] + Chunks(h) == Chunks(h) && h + [] == h;
    assert [] + Flat(q) == Flat(q) && Flat([]) + added == added;
  }

  method EncryptOpening(cfg: Config, q: seq<Bytes>, e: Encoder, ghost h: History) returns (q': seq<Bytes>, e': Encoder)
    requires Ordered(cfg, q, e, h) && !h.greeted && cfg.upstream.Shadow?
    ensures q' != [] && Ordered(cfg, q', e', History(true, 0, 0, [], [], Chunks(cfg.dest.Header())))
  {
    assert Opened(0, (q, e, h));
    ghost var added;
    e', q', added := EncryptData(cfg.aead, cfg.salt, e, q, cfg.dest.Header(), []);
    EncryptedOpeningOrdered(cfg, q', e', added);
  }

  /**
   * At every moment of the negotiation the server has got a prefix of: method selection, then
   * authentication if both credentials are set, then the request, then client bytes in the
   * order they came. No client byte is among them before the request is.
   */
  lemma SentInOrder(cfg: Config, q: seq<Bytes>, e: Encoder, h: History)
    requires Ordered(cfg, q, e, h) && h.greeted && !cfg.upstream.Shadow?
    ensures IsPrefix(h.sent, cfg.Released(0) + h.forwarded)
    ensures h.slots > 0 ==> IsPrefix(h.sent, cfg.Released(h.slots)) && IsPrefix(cfg.Released(h.slots), cfg.Released(0))
    ensures h.slots > 0 ==> q != [] && (q[0] == [] <==> h.sent == cfg.Released(h.slots))
  {
    assert Opened(0, (q, e, h));
    cfg.ReleasedIsPrefix(h.slots);
    if h.slots > 0 {
      HeadIsSlot(q, h.slots, h.front, h.sent, cfg.Released(h.slots), h.forwarded, Stream(cfg, h));
      PrefixTrans(h.sent, cfg.Released(h.slots), cfg.Released(0));
      PrefixOfSum(h.sent, cfg.Released(0), h.forwarded);
    }
  }

  /** What was sent and what is queued are packets under numbers of their own. */
  lemma SentSealed(cfg: Config, q: seq<Bytes>, e: Encoder, h: History)
    requires Ordered(cfg, q, e, h) && h.greeted && cfg.upstream.Shadow?
    ensures FrameSized(h.chunks) && SealedInOrder(cfg.aead, cfg.salt, h.chunks, h.sent + Flat(q))
    ensures Flat(h.chunks) == cfg.dest.Header() + h.forwarded
  {
    assert Opened(0, (q, e, h));
    WireSealedInOrder(cfg.aead, cfg.salt, h.chunks);
  }

  /** What the server can decrypt so far is a prefix of the request and the client bytes. */
  lemma SentDecrypts(cfg: Config, q: seq<Bytes>, e: Encoder, h: History)
    requires Ordered(cfg, q, e, h) && h.greeted && cfg.upstream.Shadow?
    ensures IsPrefix(Flat(Decrypted(cfg.aead, h.sent).frames), cfg.dest.Header() + h.forwarded)
    ensures q == [] && h.chunks != [] ==> Decrypted(cfg.aead, h.sent) == FrameCode.Scanned(h.chunks, [], |h.chunks|)
  {
    assert Opened(0, (q, e, h));
    var w := Wire(cfg.aead, cfg.salt, h.chunks);
    assert w[..|h.sent|] == h.sent;
    PartialWireIsPrefix(cfg.aead, cfg.salt, h.chunks, |h.sent|);
    if q == [] && h.chunks != [] {
      assert h.sent == w;
      DecryptWire(cfg.aead, cfg.salt, h.chunks);
    }
  }
}
