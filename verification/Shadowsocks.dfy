/**
 * The Shadowsocks AEAD stream: a salt, then frames of <sealed length> <sealed payload>.
 *
 * The AEAD primitive is a parameter. `Sound` is all that is asked of it: opening undoes sealing
 * under the same salt and packet number, and a sealed text is longer by the tag.
 */
module Shadowsocks {
  import opened Bytes
  import opened FrameCode

  const SS_FRAME_SIZE: nat := 16384 - 128
  const CHUNK_SIZE_LEN: nat := 2
  const CHUNK_SIZE_MASK: nat := 0x3fff

  type pos = n: nat | n > 0 witness 1

  datatype Aead = Aead(
    saltLen: pos,
    tagLen: nat,
    seal: (Bytes, nat, Bytes) -> Bytes,
    open: (Bytes, nat, Bytes) -> Option<Bytes>)
  {
    ghost predicate Sound() {
      && (forall salt: Bytes, n: nat, m: Bytes :: |seal(salt, n, m)| == |m| + tagLen)
      && (forall salt: Bytes, n: nat, m: Bytes :: open(salt, n, seal(salt, n, m)) == Some(m))
      && (forall salt: Bytes, n: nat, c: Bytes ::
            open(salt, n, c).Some? ==> |open(salt, n, c).value| + tagLen == |c|)
    }
  }

  function LengthBytes(n: nat): (r: Bytes)
    requires n <= CHUNK_SIZE_MASK
    ensures |r| == CHUNK_SIZE_LEN
  {
    [n / 256, n % 256]
  }

  /** One encrypted frame; packet numbers `counter` and `counter + 1` are used up. */
  function SealedFrame(a: Aead, salt: Bytes, counter: nat, m: Bytes): Bytes
    requires |m| <= CHUNK_SIZE_MASK
  {
    a.seal(salt, counter, LengthBytes(|m|)) + a.seal(salt, counter + 1, m)
  }

  /** The decrypter's verdict on the front of its buffer. */
  function OpenFrame(a: Aead, salt: Bytes, counter: nat, s: Bytes): (r: Step)
    ensures r.Frame? ==> 1 <= r.used <= |s|
  {
    var head := CHUNK_SIZE_LEN + a.tagLen;
    if |s| < head + a.tagLen then More
    else
      match a.open(salt, counter, s[..head])
      case None => Bad
      case Some(len) =>
        var mlen := if |len| == CHUNK_SIZE_LEN then PayloadLength(len) else 0;
        if mlen == 0 then Bad
        else if |s| < head + mlen + a.tagLen then More
        else
          match a.open(salt, counter + 1, s[head..head + mlen + a.tagLen])
          case None => Bad
          case Some(p) => Frame(p, head + mlen + a.tagLen)
  }

  function PayloadLength(len: Bytes): (n: nat)
    requires |len| == CHUNK_SIZE_LEN
    ensures n <= CHUNK_SIZE_MASK
  {
    ((len[0] as int) * 256 + len[1]) % (CHUNK_SIZE_MASK + 1)
  }

  /** Frame number `i` of a stream is sealed with packet numbers `2 * i` and `2 * i + 1`. */
  function SsCode(a: Aead, salt: Bytes): Code {
    (i: nat, s: Bytes) => OpenFrame(a, salt, 2 * i, s)
  }

  lemma OpenFrameStable(a: Aead, salt: Bytes, counter: nat, s: Bytes, t: Bytes)
    requires !OpenFrame(a, salt, counter, s).More?
    ensures OpenFrame(a, salt, counter, s + t) == OpenFrame(a, salt, counter, s)
  {
    var head := CHUNK_SIZE_LEN + a.tagLen;
    assert (s + t)[..head] == s[..head];
    var len := a.open(salt, counter, s[..head]);
    if len.Some? && |len.value| == CHUNK_SIZE_LEN {
      var end := head + PayloadLength(len.value) + a.tagLen;
      if PayloadLength(len.value) > 0 {
        assert (s + t)[head..end] == s[head..end];
      }
    }
  }

  lemma SsCodeStable(a: Aead, salt: Bytes)
    ensures Stable(SsCode(a, salt))
  {
    var next := SsCode(a, salt);
    forall i: nat, s: Bytes, t: Bytes | !next(i, s).More?
      ensures next(i, s + t) == next(i, s)
    {
      OpenFrameStable(a, salt, 2 * i, s, t);
    }
  }

  lemma LengthRoundTrip(n: nat)
    requires n <= CHUNK_SIZE_MASK
    ensures PayloadLength(LengthBytes(n)) == n
  {
  }

  /** A sealed frame opens to its message and is used up whole. */
  lemma SealedFrameOpens(a: Aead, salt: Bytes, counter: nat, m: Bytes)
    requires a.Sound() && 1 <= |m| <= CHUNK_SIZE_MASK
    ensures var f := SealedFrame(a, salt, counter, m);
            OpenFrame(a, salt, counter, f) == Frame(m, |f|)
  {
    var f := SealedFrame(a, salt, counter, m);
    var head := CHUNK_SIZE_LEN + a.tagLen;
    var first := a.seal(salt, counter, LengthBytes(|m|));
    assert f[..head] == first;
    assert f[head..head + |m| + a.tagLen] == a.seal(salt, counter + 1, m);
    LengthRoundTrip(|m|);
    assert a.open(salt, counter, first) == Some(LengthBytes(|m|));
  }

  // ---------------------------------------------------------------- packets

  /** Texts sealed one after the other, each under its own number, counted from `first`. */
  ghost function Packets(a: Aead, salt: Bytes, first: nat, texts: seq<Bytes>): Bytes
    decreases |texts|
  {
    if texts == [] then [] else a.seal(salt, first, texts[0]) + Packets(a, salt, first + 1, texts[1..])
  }

  /** A chunk takes two texts: its size, high byte first, and itself. */
  ghost predicate Announces(size: Bytes, chunk: Bytes) {
    |size| == 2 && (size[0] as int) * 256 + size[1] == |chunk|
  }

  ghost predicate Carries(texts: seq<Bytes>, chunks: seq<Bytes>) {
    && |texts| == 2 * |chunks|
    && forall k :: 0 <= k < |chunks| ==> Announces(texts[2 * k], chunks[k]) && texts[2 * k + 1] == chunks[k]
  }

  /**
   * The stream `w` is the salt and then packets: number `2 * k` seals the size of chunk `k`, number
   * `2 * k + 1` the chunk, and no number seals two texts.
   */
  ghost predicate SealedInOrder(a: Aead, salt: Bytes, chunks: seq<Bytes>, w: Bytes) {
    exists texts ::
      Carries(texts, chunks) && w == (if chunks == [] then [] else salt + Packets(a, salt, 0, texts))
  }

  lemma {:induction false} PacketsAppend(a: Aead, salt: Bytes, first: nat, texts: seq<Bytes>, t: Bytes, u: Bytes)
    ensures Packets(a, salt, first, texts + [t, u])
         == Packets(a, salt, first, texts) + (a.seal(salt, first + |texts|, t) + a.seal(salt, first + |texts| + 1, u))
    decreases |texts|
  {
    var v := a.seal(salt, first + |texts|, t) + a.seal(salt, first + |texts| + 1, u);
    if texts == [] {
      assert texts + [t, u] == [t, u] && [t, u][1..] == [u] && [u][1..] == [];
      assert Packets(a, salt, first + 1, [u]) == a.seal(salt, first + 1, u) + [];
      assert [] + v == v;
    } else {
      assert (texts + [t, u])[1..] == texts[1..] + [t, u];
      PacketsAppend(a, salt, first + 1, texts[1..], t, u);
      Regroup(a.seal(salt, first, texts[0]), Packets(a, salt, first + 1, texts[1..]), v);
    }
  }

  lemma CarriesAppend(texts: seq<Bytes>, chunks: seq<Bytes>, size: Bytes, m: Bytes)
    requires Carries(texts, chunks) && Announces(size, m)
    ensures Carries(texts + [size, m], chunks + [m])
  {
    var t, c := texts + [size, m], chunks + [m];
    forall k | 0 <= k < |c|
      ensures Announces(t[2 * k], c[k]) && t[2 * k + 1] == c[k]
    {
    }
  }

  /** The frames of chunks, as packets. */
  lemma {:induction false} FramesArePackets(a: Aead, salt: Bytes, chunks: seq<Bytes>) returns (texts: seq<Bytes>)
    requires FrameSized(chunks)
    ensures Carries(texts, chunks) && Flat(SealedFrames(a, salt, 0, chunks)) == Packets(a, salt, 0, texts)
    decreases |chunks|
  {
    if chunks == [] {
      return [];
    }
    var n := |chunks| - 1;
    var front, m := chunks[..n], chunks[n];
    var before := FramesArePackets(a, salt, front);
    assert chunks == front + [m];
    FramesAppend(a, salt, front, m);
    FlatPush(SealedFrames(a, salt, 0, front), SealedFrame(a, salt, 2 * n, m));
    CarriesAppend(before, front, LengthBytes(|m|), m);
    PacketsAppend(a, salt, 0, before, LengthBytes(|m|), m);
    texts := before + [LengthBytes(|m|), m];
  }

  /** What is on the wire, in terms of the primitive alone. */
  lemma WireSealedInOrder(a: Aead, salt: Bytes, chunks: seq<Bytes>)
    requires FrameSized(chunks)
    ensures SealedInOrder(a, salt, chunks, Wire(a, salt, chunks))
  {
    var texts := FramesArePackets(a, salt, chunks);
  }

  // ---------------------------------------------------------------- encryption

  ghost predicate FrameSized(chunks: seq<Bytes>) {
    forall k :: 0 <= k < |chunks| ==> 1 <= |chunks[k]| <= SS_FRAME_SIZE
  }

  /** The frames of a stream carrying `chunks`, from frame number `i` on. */
  ghost function SealedFrames(a: Aead, salt: Bytes, i: nat, chunks: seq<Bytes>): (r: seq<Bytes>)
    requires FrameSized(chunks)
    ensures |r| == |chunks|
    ensures forall k :: 0 <= k < |r| ==> r[k] == SealedFrame(a, salt, 2 * (i + k), chunks[k])
  {
    seq(|chunks|, k requires 0 <= k < |chunks| => SealedFrame(a, salt, 2 * (i + k), chunks[k]))
  }

  /** The whole stream: nothing before the first chunk, then the salt and the frames. */
  ghost function Wire(a: Aead, salt: Bytes, chunks: seq<Bytes>): Bytes
    requires FrameSized(chunks)
  {
    if chunks == [] then [] else salt + Flat(SealedFrames(a, salt, 0, chunks))
  }

  lemma FramesAppend(a: Aead, salt: Bytes, chunks: seq<Bytes>, m: Bytes)
    requires FrameSized(chunks) && 1 <= |m| <= SS_FRAME_SIZE
    ensures FrameSized(chunks + [m])
    ensures SealedFrames(a, salt, 0, chunks + [m])
         == SealedFrames(a, salt, 0, chunks) + [SealedFrame(a, salt, 2 * |chunks|, m)]
  {
    assert forall k :: 0 <= k < |chunks| ==> (chunks + [m])[k] == chunks[k];
  }

  lemma WireAppend(a: Aead, salt: Bytes, chunks: seq<Bytes>, m: Bytes)
    requires FrameSized(chunks) && 1 <= |m| <= SS_FRAME_SIZE
    ensures FrameSized(chunks + [m])
    ensures Wire(a, salt, chunks + [m])
         == Wire(a, salt, chunks) + (if chunks == [] then salt else []) + SealedFrame(a, salt, 2 * |chunks|, m)
  {
    var f := SealedFrame(a, salt, 2 * |chunks|, m);
    FramesAppend(a, salt, chunks, m);
    FlatPush(SealedFrames(a, salt, 0, chunks), f);
    if chunks == [] {
      assert Flat(SealedFrames(a, salt, 0, chunks)) == [];
    } else {
      assert salt + (Flat(SealedFrames(a, salt, 0, chunks)) + f) == Wire(a, salt, chunks) + [] + f;
    }
  }

  /** The encoder's state: whether the salt is out, and the next packet number. */
  datatype Encoder = Encoder(init: bool, counter: nat)
  {
    ghost predicate Sealed(chunks: seq<Bytes>) {
      FrameSized(chunks) && init == (chunks != []) && counter == 2 * |chunks|
    }
  }

  /** `cipher::encrypt`: appends one frame, and before the first one the salt, to a buffer. */
  function Encrypt(a: Aead, salt: Bytes, e: Encoder, m: Bytes, buf: Bytes): (Encoder, Bytes)
    requires |m| <= CHUNK_SIZE_MASK
  {
    var salted := if e.init then buf else buf + salt;
    (Encoder(true, e.counter + 2), salted + SealedFrame(a, salt, e.counter, m))
  }

  lemma EncryptAppends(a: Aead, salt: Bytes, e: Encoder, chunks: seq<Bytes>, m: Bytes, buf: Bytes)
    requires a.Sound() && e.Sealed(chunks) && 1 <= |m| <= SS_FRAME_SIZE
    ensures var (e', buf') := Encrypt(a, salt, e, m, buf);
            && e'.Sealed(chunks + [m]) && buf < buf'
            && Wire(a, salt, chunks + [m]) == Wire(a, salt, chunks) + buf'[|buf|..]
  {
    WireAppend(a, salt, chunks, m);
  }

  /** So each call takes the next two packet numbers, one for the size and one for the chunk. */
  lemma EncryptSeals(a: Aead, salt: Bytes, e: Encoder, chunks: seq<Bytes>, m: Bytes, buf: Bytes)
    requires a.Sound() && e.Sealed(chunks) && 1 <= |m| <= SS_FRAME_SIZE
    ensures SealedInOrder(a, salt, chunks + [m], Wire(a, salt, chunks) + Encrypt(a, salt, e, m, buf).1[|buf|..])
  {
    EncryptAppends(a, salt, e, chunks, m, buf);
    WireSealedInOrder(a, salt, chunks + [m]);
  }

  function FirstSize(plaintext: Bytes): nat {
    if |plaintext| < SS_FRAME_SIZE then |plaintext| else SS_FRAME_SIZE
  }

  /** How a plaintext is cut for the wire. */
  function Chunks(plaintext: Bytes): seq<Bytes>
    decreases |plaintext|
  {
    if plaintext == [] then []
    else
      var size := FirstSize(plaintext);
      [plaintext[..size]] + Chunks(plaintext[size..])
  }

  /** Cutting loses nothing, no frame is empty or too long, and no frame could be saved. */
  lemma {:induction false} ChunksWhole(plaintext: Bytes)
    ensures Flat(Chunks(plaintext)) == plaintext && FrameSized(Chunks(plaintext))
    ensures |Chunks(plaintext)| == (|plaintext| + SS_FRAME_SIZE - 1) / SS_FRAME_SIZE
    decreases |plaintext|
  {
    if plaintext != [] {
      var size := FirstSize(plaintext);
      ChunksWhole(plaintext[size..]);
      assert Chunks(plaintext)[1..] == Chunks(plaintext[size..]);
      assert plaintext == plaintext[..size] + plaintext[size..];
    }
  }

  /** With `done` of a plaintext encrypted behind `back`, `buf` is ahead of the wire by `back`. */
  ghost predicate Encrypting(a: Aead, salt: Bytes, e: Encoder, chunks: seq<Bytes>, done: seq<Bytes>, back: Bytes,
                             buf: Bytes) {
    forall k :: Opened(k, (e, chunks, done, back, buf)) ==>
      && FrameSized(chunks)
      && e.Sealed(chunks + done)
      && back <= buf && (done == [] || back < buf)
      && Wire(a, salt, chunks + done) == Wire(a, salt, chunks) + buf[|back|..]
  }

  lemma EncryptStart(a: Aead, salt: Bytes, e: Encoder, chunks: seq<Bytes>, back: Bytes)
    requires e.Sealed(chunks)
    ensures Encrypting(a, salt, e, chunks, [], back, back)
  {
    assert chunks + [] == chunks;
  }

  lemma EncryptStep(a: Aead, salt: Bytes, e: Encoder, chunks: seq<Bytes>, done: seq<Bytes>, back: Bytes, buf: Bytes,
                    m: Bytes)
    requires a.Sound() && Encrypting(a, salt, e, chunks, done, back, buf) && 1 <= |m| <= SS_FRAME_SIZE
    ensures var r := Encrypt(a, salt, e, m, buf);
            Encrypting(a, salt, r.0, chunks, done + [m], back, r.1)
  {
    assert Opened(0, (e, chunks, done, back, buf));
    var buf' := Encrypt(a, salt, e, m, buf).1;
    EncryptAppends(a, salt, e, chunks + done, m, buf);
    Regroup(chunks, done, [m]);
    DropChain(back, buf, buf');
    var w := Wire(a, salt, chunks);
    calc {
      Wire(a, salt, chunks + done + [m]);
      (w + buf[|back|..]) + buf'[|buf|..];
      { Regroup(w, buf[|back|..], buf'[|buf|..]); }
      w + buf'[|back|..];
    }
  }

  /** Cutting goes on from any point the loop reaches. */
  lemma NextChunk(plaintext: Bytes, offset: nat, size: nat, done: seq<Bytes>)
    requires offset < |plaintext| && size == FirstSize(plaintext[offset..])
    requires Chunks(plaintext) == done + Chunks(plaintext[offset..])
    ensures Chunks(plaintext) == done + [plaintext[offset..offset + size]] + Chunks(plaintext[offset + size..])
  {
    var rest := plaintext[offset..];
    calc {
      Chunks(plaintext);
      done + ([rest[..size]] + Chunks(rest[size..]));
      { Regroup(done, [rest[..size]], Chunks(rest[size..])); }
      done + [rest[..size]] + Chunks(rest[size..]);
      { assert rest[..size] == plaintext[offset..offset + size];
        assert rest[size..] == plaintext[offset + size..]; }
      done + [plaintext[offset..offset + size]] + Chunks(plaintext[offset + size..]);
    }
  }

  /** Replacing the last buffer by a longer one appends the difference to the queue's bytes. */
  lemma BackGrows(queue: seq<Bytes>, back: Bytes, buf: Bytes)
    requires back <= buf && (if queue == [] then back == [] else back == queue[|queue| - 1])
    ensures Flat(if queue == [] then [buf] else queue[|queue| - 1 := buf]) == Flat(queue) + buf[|back|..]
  {
    assert buf == back + buf[|back|..];
    if queue == [] {
      FlatOne(buf);
    } else {
      FlatExtendBack(queue, buf[|back|..]);
    }
  }

  /**
   * Encrypts `plaintext` into the last buffer of `queue` (a new one when the queue is empty).
   * `chunks` is what the stream has carried so far.
   */
  method EncryptData(a: Aead, salt: Bytes, e: Encoder, queue: seq<Bytes>, plaintext: Bytes, ghost chunks: seq<Bytes>)
    returns (e': Encoder, queue': seq<Bytes>, ghost added: Bytes)
    requires a.Sound() && e.Sealed(chunks)
    ensures e'.Sealed(chunks + Chunks(plaintext))
    ensures |queue'| == (if queue == [] then 1 else |queue|)
    ensures queue'[..|queue'| - 1] == queue[..|queue'| - 1]
    ensures queue != [] ==> queue[|queue| - 1] <= queue'[|queue| - 1]
    ensures Flat(queue') == Flat(queue) + added && (plaintext != [] ==> queue'[|queue'| - 1] != [])
    ensures Wire(a, salt, chunks + Chunks(plaintext)) == Wire(a, salt, chunks) + added
    ensures SealedInOrder(a, salt, chunks + Chunks(plaintext), Wire(a, salt, chunks) + added)
  {
    var back := if queue == [] then [] else queue[|queue| - 1];
    var buf := back;
    e' := e;
    var offset := 0;
    ghost var done: seq<Bytes> := [];
    EncryptStart(a, salt, e, chunks, back);
    while offset < |plaintext|
      invariant 0 <= offset <= |plaintext|
      invariant Chunks(plaintext) == done + Chunks(plaintext[offset..])
      invariant Encrypting(a, salt, e', chunks, done, back, buf)
    {
      var size := if |plaintext| - offset < SS_FRAME_SIZE then |plaintext| - offset else SS_FRAME_SIZE;
      var m := plaintext[offset..offset + size];
      NextChunk(plaintext, offset, size, done);
      EncryptStep(a, salt, e', chunks, done, back, buf, m);
      var r := Encrypt(a, salt, e', m, buf);
      e', buf := r.0, r.1;
      done := done + [m];
      offset := offset + size;
    }
    assert done == Chunks(plaintext) && Opened(0, (e', chunks, done, back, buf));
    BackGrows(queue, back, buf);
    queue' := if queue == [] then [buf] else queue[|queue| - 1 := buf];
    added := buf[|back|..];
    WireSealedInOrder(a, salt, chunks + Chunks(plaintext));
  }

  // ---------------------------------------------------------------- decryption

  /** The two packets of a frame at the front of `s`: its size under `number`, then `p` under the next one. */
  ghost predicate OpensAs(a: Aead, salt: Bytes, number: nat, s: Bytes, p: Bytes) {
    var head := 2 + a.tagLen;
    && p != [] && |s| >= head + |p| + a.tagLen
    && (match a.open(salt, number, s[..head])
        case None => false
        case Some(size) => |size| == 2 && ((size[0] as int) * 256 + size[1]) % 0x4000 == |p|)
    && a.open(salt, number + 1, s[head..head + |p| + a.tagLen]) == Some(p)
  }

  ghost predicate OpensAsNone(a: Aead, salt: Bytes, number: nat, s: Bytes) {
    forall p :: !OpensAs(a, salt, number, s, p)
  }

  /** Frame after frame of `s`, numbers counted from `number`, opens as `frames`; `rest` is left. */
  ghost predicate OpensTo(a: Aead, salt: Bytes, number: nat, s: Bytes, frames: seq<Bytes>, rest: Bytes)
    decreases |frames|
  {
    if frames == [] then s == rest
    else
      && OpensAs(a, salt, number, s, frames[0])
      && OpensTo(a, salt, number + 2, s[2 + a.tagLen + |frames[0]| + a.tagLen..], frames[1..], rest)
  }

  /** The front of `s` can never become a frame: a packet that is all there does not open, or has no size. */
  ghost predicate Broken(a: Aead, salt: Bytes, number: nat, s: Bytes) {
    var head := 2 + a.tagLen;
    |s| >= head + a.tagLen &&
    (match a.open(salt, number, s[..head])
     case None => true
     case Some(size) =>
       |size| != 2 ||
       (var n := ((size[0] as int) * 256 + size[1]) % 0x4000;
        n == 0 || (|s| >= head + n + a.tagLen && a.open(salt, number + 1, s[head..head + n + a.tagLen]).None?)))
  }

  /** The decrypter's verdict, in terms of the primitive alone. */
  lemma OpenFrameMeans(a: Aead, salt: Bytes, number: nat, s: Bytes)
    requires a.Sound()
    ensures OpenFrame(a, salt, number, s).Bad? <==> Broken(a, salt, number, s)
    ensures OpenFrame(a, salt, number, s).Frame? ==>
              var f := OpenFrame(a, salt, number, s);
              f.used == 2 + a.tagLen + |f.payload| + a.tagLen && OpensAs(a, salt, number, s, f.payload)
    ensures !OpenFrame(a, salt, number, s).Frame? ==> OpensAsNone(a, salt, number, s)
  {
  }

  /** A scan opens the packets it reads and leaves none that opens. */
  ghost predicate ScanIsOpening(a: Aead, salt: Bytes, i: nat, s: Bytes)
    requires Stable(SsCode(a, salt))
  {
    var r := Scan(SsCode(a, salt), i, s);
    OpensTo(a, salt, 2 * i, s, r.frames, r.rest) && OpensAsNone(a, salt, 2 * r.index, r.rest)
  }

  lemma {:induction false} ScanOpens(a: Aead, salt: Bytes, i: nat, s: Bytes)
    requires a.Sound() && Stable(SsCode(a, salt))
    ensures ScanIsOpening(a, salt, i, s)
    decreases |s|
  {
    ScanStep(a, salt, i, s);
    var f := OpenFrame(a, salt, 2 * i, s);
    if f.Frame? {
      ScanOpens(a, salt, i + 1, s[f.used..]);
      ScanOpensFrame(a, salt, i, s);
    } else {
      ScanOpensNone(a, salt, i, s);
    }
  }

  lemma ScanOpensNone(a: Aead, salt: Bytes, i: nat, s: Bytes)
    requires a.Sound() && Stable(SsCode(a, salt)) && !OpenFrame(a, salt, 2 * i, s).Frame?
    ensures ScanIsOpening(a, salt, i, s)
  {
    ScanStep(a, salt, i, s);
    OpenFrameMeans(a, salt, 2 * i, s);
  }

  lemma ScanOpensFrame(a: Aead, salt: Bytes, i: nat, s: Bytes)
    requires a.Sound() && Stable(SsCode(a, salt)) && OpenFrame(a, salt, 2 * i, s).Frame?
    requires ScanIsOpening(a, salt, i + 1, s[OpenFrame(a, salt, 2 * i, s).used..])
    ensures ScanIsOpening(a, salt, i, s)
  {
    ScanStep(a, salt, i, s);
    OpenFrameMeans(a, salt, 2 * i, s);
    var f := OpenFrame(a, salt, 2 * i, s);
    var r := Scan(SsCode(a, salt), i + 1, s[f.used..]);
    OpensOneMore(a, salt, 2 * i, s, f.payload, r.frames, r.rest);
  }

  lemma ScanStep(a: Aead, salt: Bytes, i: nat, s: Bytes)
    requires Stable(SsCode(a, salt))
    ensures var f, r := OpenFrame(a, salt, 2 * i, s), Scan(SsCode(a, salt), i, s);
            if f.Frame? then 1 <= f.used <= |s| && r == Prepend(f.payload, Scan(SsCode(a, salt), i + 1, s[f.used..]))
            else r == Scanned([], s, i)
  {
    FrameMoves(SsCode(a, salt), i, s);
  }

  lemma OpensOneMore(a: Aead, salt: Bytes, number: nat, s: Bytes, p: Bytes, frames: seq<Bytes>, rest: Bytes)
    requires OpensAs(a, salt, number, s, p)
    requires OpensTo(a, salt, number + 2, s[2 + a.tagLen + |p| + a.tagLen..], frames, rest)
    ensures OpensTo(a, salt, number, s, [p] + frames, rest)
  {
    assert ([p] + frames)[1..] == frames;
  }

  /**
   * What a stream decrypts to: frame `k` is what numbers `2 * k` and `2 * k + 1` open, and what is
   * left opens as no frame.
   */
  lemma DecryptedOpens(a: Aead, s: Bytes)
    requires a.Sound() && |s| >= a.saltLen
    ensures var r := Decrypted(a, s);
            && OpensTo(a, s[..a.saltLen], 0, s[a.saltLen..], r.frames, r.rest) && r.index == |r.frames|
            && OpensAsNone(a, s[..a.saltLen], 2 * |r.frames|, r.rest)
  {
    SsCodeStable(a, s[..a.saltLen]);
    ScanOpens(a, s[..a.saltLen], 0, s[a.saltLen..]);
  }

  /** The stream cannot be decrypted any further, whatever follows. */
  ghost predicate BrokenStream(a: Aead, s: Bytes) {
    |s| >= a.saltLen && Broken(a, s[..a.saltLen], 2 * |Decrypted(a, s).frames|, Decrypted(a, s).rest)
  }

  /** What a stream `s` decrypts to, read as a whole. */
  ghost function Decrypted(a: Aead, s: Bytes): Scanned {
    if |s| < a.saltLen then Scanned([], s, 0)
    else
      SsCodeStable(a, s[..a.saltLen]);
      Scan(SsCode(a, s[..a.saltLen]), 0, s[a.saltLen..])
  }

  /** Decrypting what was encrypted gives back the chunks, and nothing is left over. */
  lemma DecryptWire(a: Aead, salt: Bytes, chunks: seq<Bytes>)
    requires a.Sound() && |salt| == a.saltLen && FrameSized(chunks) && chunks != []
    ensures Decrypted(a, Wire(a, salt, chunks)) == Scanned(chunks, [], |chunks|)
  {
    var code := SsCode(a, salt);
    var frames := SealedFrames(a, salt, 0, chunks);
    SsCodeStable(a, salt);
    forall k | 0 <= k < |frames|
      ensures code(0 + k, frames[k]) == Frame(chunks[k], |frames[k]|)
    {
      SealedFrameOpens(a, salt, 2 * k, chunks[k]);
    }
    ScanEncoded(code, 0, frames, chunks, []);
    assert Flat(frames) + [] == Flat(frames);
    var w := Wire(a, salt, chunks);
    assert w[..a.saltLen] == salt && w[a.saltLen..] == Flat(frames);
    assert code(|chunks|, []) == More;
    assert chunks + [] == chunks;
  }

  /** Wherever the stream breaks off, what was decrypted by then is a prefix of the plaintext. */
  lemma PartialWireIsPrefix(a: Aead, salt: Bytes, chunks: seq<Bytes>, k: nat)
    requires a.Sound() && |salt| == a.saltLen && FrameSized(chunks)
    requires k <= |Wire(a, salt, chunks)|
    ensures IsPrefix(Flat(Decrypted(a, Wire(a, salt, chunks)[..k]).frames), Flat(chunks))
  {
    var w := Wire(a, salt, chunks);
    if k >= a.saltLen {
      DecryptWire(a, salt, chunks);
      SsCodeStable(a, salt);
      var s, t := w[..k][a.saltLen..], w[k..];
      assert w[..k][..a.saltLen] == salt == w[..a.saltLen];
      assert w[a.saltLen..] == s + t;
      ScanMonotone(SsCode(a, salt), 0, s, t);
    }
  }

  /** The decoder's state: salt seen, packet number, and the bytes not decrypted yet. */
  datatype Decoder = Decoder(init: bool, salt: Bytes, counter: nat, chunk: Bytes)

  const NewDecoder := Decoder(false, [], 0, [])

  ghost predicate SyncedNow(a: Aead, d: Decoder, received: Bytes) {
    if !d.init then |received| < a.saltLen && d.chunk == received && d.counter == 0
    else
      && |received| >= a.saltLen && d.salt == received[..a.saltLen] && d.counter % 2 == 0
      && Decrypted(a, received).rest == d.chunk && Decrypted(a, received).index == d.counter / 2
  }

  /** The decoder stands where reading all of `received` at once would leave it. */
  ghost predicate Synced(a: Aead, d: Decoder, received: Bytes) {
    forall k :: Opened(k, (d, received)) ==> SyncedNow(a, d, received)
  }

  /** Salt in, frames before number `counter / 2` in `out`, `chunk` still to be decrypted. */
  ghost predicate Decrypting(a: Aead, d: Decoder, received: Bytes, out: seq<Bytes>) {
    forall k :: Opened(k, (d, received, out)) ==>
      && d.init && |received| >= a.saltLen && d.salt == received[..a.saltLen] && d.counter % 2 == 0
      && Stable(SsCode(a, d.salt))
      && Reassembling(SsCode(a, d.salt), received[a.saltLen..], d.counter / 2, d.chunk, out)
  }

  lemma SaltArrives(a: Aead, received: Bytes)
    requires |received| >= a.saltLen
    ensures Decrypting(a, Decoder(true, received[..a.saltLen], 0, received[a.saltLen..]), received, [])
  {
    SsCodeStable(a, received[..a.saltLen]);
    var m := Scan(SsCode(a, received[..a.saltLen]), 0, received[a.saltLen..]);
    assert [] + m.frames == m.frames;
  }

  lemma MoreArrives(a: Aead, d: Decoder, was: Bytes, data: Bytes)
    requires Synced(a, d, was)
    ensures d.init ==> Decrypting(a, d.(chunk := d.chunk + data), was + data, Decrypted(a, was).frames)
    ensures !d.init ==> d.chunk + data == was + data && d.counter == 0 && Decrypted(a, was).frames == []
  {
    assert Opened(0, (d, was));
    if d.init {
      SsCodeStable(a, d.salt);
      assert (was + data)[a.saltLen..] == was[a.saltLen..] + data;
      PieceArrives(SsCode(a, d.salt), was[a.saltLen..], data);
    }
  }

  /** `d` after it has handed over one frame. */
  function AfterFrame(d: Decoder, used: nat): Decoder
    requires used <= |d.chunk|
  {
    d.(chunk := d.chunk[used..], counter := d.counter + 2)
  }

  lemma FrameOpened(a: Aead, d: Decoder, received: Bytes, out: seq<Bytes>)
    requires a.Sound() && Decrypting(a, d, received, out)
    ensures var f := OpenFrame(a, d.salt, d.counter, d.chunk);
            f.Frame? ==> f.payload != [] && Decrypting(a, AfterFrame(d, f.used), received, out + [f.payload])
  {
    assert Opened(0, (d, received, out));
    if OpenFrame(a, d.salt, d.counter, d.chunk).Frame? {
      FrameTaken(SsCode(a, d.salt), received[a.saltLen..], d.counter / 2, d.chunk, out);
    }
  }

  lemma AllOpened(a: Aead, d: Decoder, received: Bytes, out: seq<Bytes>)
    requires Decrypting(a, d, received, out) && !OpenFrame(a, d.salt, d.counter, d.chunk).Frame?
    ensures Synced(a, d, received) && Decrypted(a, received).frames == out
  {
    assert Opened(0, (d, received, out));
    NoFrameLeft(SsCode(a, d.salt), received[a.saltLen..], d.counter / 2, d.chunk, out);
  }

  lemma StreamRead(a: Aead, d: Decoder, received: Bytes, out: seq<Bytes>)
    requires a.Sound() && Decrypting(a, d, received, out) && !OpenFrame(a, d.salt, d.counter, d.chunk).Frame?
    ensures Synced(a, d, received) && Decrypted(a, received).frames == out
    ensures d.init && |received| >= a.saltLen && d.salt == received[..a.saltLen]
    ensures d.chunk == Decrypted(a, received).rest
    ensures OpenFrame(a, d.salt, d.counter, d.chunk).Bad? <==> BrokenStream(a, received)
  {
    AllOpened(a, d, received, out);
    assert Opened(0, (d, received, out)) && Opened(0, (d, received));
    OpenFrameMeans(a, d.salt, d.counter, d.chunk);
    DecryptedOpens(a, received);
  }

  /**
   * Takes a piece of ciphertext; `frames` go to the visitor, which is also told when the stream
   * is broken. `received` is what came before.
   */
  method ProcessBytes(a: Aead, d: Decoder, ciphertext: Bytes, ghost received: Bytes)
    returns (d': Decoder, frames: seq<Bytes>, protocolError: bool)
    requires a.Sound() && Synced(a, d, received)
    ensures Synced(a, d', received + ciphertext)
    ensures Decrypted(a, received + ciphertext).frames == Decrypted(a, received).frames + frames
    ensures NoEmpty(frames)
    ensures protocolError <==> BrokenStream(a, received + ciphertext)
    ensures |received + ciphertext| >= a.saltLen ==>
      var s := received + ciphertext;
      && d'.init && d'.salt == s[..a.saltLen]
      && OpensTo(a, d'.salt, 0, s[a.saltLen..], Decrypted(a, received).frames + frames, d'.chunk)
  {
    MoreArrives(a, d, received, ciphertext);
    d' := d.(chunk := d.chunk + ciphertext);
    if !d'.init {
      if |d'.chunk| < a.saltLen {
        return d', [], false;
      }
      SaltArrives(a, received + ciphertext);
      d' := Decoder(true, d'.chunk[..a.saltLen], d'.counter, d'.chunk[a.saltLen..]);
    }
    d', frames, protocolError := OpenFrames(a, d', received + ciphertext, Decrypted(a, received).frames);
    DecryptedOpens(a, received + ciphertext);
  }

  method OpenFrames(a: Aead, d: Decoder, ghost received: Bytes, ghost before: seq<Bytes>)
    returns (d': Decoder, frames: seq<Bytes>, protocolError: bool)
    requires a.Sound() && Decrypting(a, d, received, before)
    ensures Synced(a, d', received) && Decrypted(a, received).frames == before + frames && NoEmpty(frames)
    ensures d'.init && |received| >= a.saltLen && d'.salt == received[..a.saltLen]
    ensures d'.chunk == Decrypted(a, received).rest && (protocolError <==> BrokenStream(a, received))
  {
    d', frames, protocolError := d, [], false;
    assert before + [] == before;
    while d'.chunk != []
      invariant Decrypting(a, d', received, before + frames) && NoEmpty(frames) && !protocolError
      decreases |d'.chunk|
    {
      var frame := OpenFrame(a, d'.salt, d'.counter, d'.chunk);
      if !frame.Frame? {
        protocolError := frame.Bad?;
        break;
      }
      FrameOpened(a, d', received, before + frames);
      Regroup(before, frames, [frame.payload]);
      d' := AfterFrame(d', frame.used);
      frames := frames + [frame.payload];
    }
    StreamRead(a, d', received, before + frames);
  }

  /** Any cutting of the ciphertext into reads decrypts to the same frames. */
  method DecryptAll(a: Aead, pieces: seq<Bytes>) returns (frames: seq<Bytes>)
    requires a.Sound()
    ensures frames == Decrypted(a, Flat(pieces)).frames
  {
    var d := NewDecoder;
    frames := [];
    for i := 0 to |pieces|
      invariant Synced(a, d, Flat(pieces[..i])) && frames == Decrypted(a, Flat(pieces[..i])).frames
    {
      assert pieces[..i + 1] == pieces[..i] + [pieces[i]];
      FlatPush(pieces[..i], pieces[i]);
      var more, broken;
      d, more, broken := ProcessBytes(a, d, pieces[i], Flat(pieces[..i]));
      frames := frames + more;
    }
    assert pieces[..|pieces|] == pieces;
  }
}
