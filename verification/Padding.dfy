/**
 * The padding code of the HTTP/2 tunnel: the first `kFirstPaddings` chunks of each direction
 * travel as <length, 2 bytes> <padding length, 1 byte> <payload> <padding>.
 */
module Padding {
  import opened Bytes
  import opened FrameCode

  const kFirstPaddings: nat := 8
  const kPaddingHeaderSize: nat := 3

  function Zeros(n: nat): (r: Bytes)
    ensures |r| == n
  {
    seq(n, _ => 0)
  }

  /** The frame built for a chunk; the length field keeps the low 16 bits of the size only. */
  function AddPadding(buf: Bytes, paddingSize: byte): Bytes {
    var payloadSize := |buf| % 0x1_0000;
    [payloadSize / 256, payloadSize % 256, paddingSize] + buf[..payloadSize] + Zeros(paddingSize)
  }

  datatype Removal = Removed(payload: Bytes, used: nat) | TryAgain | InvalidArgument

  function RemovePadding(buf: Bytes): Removal {
    if |buf| < kPaddingHeaderSize then TryAgain
    else
      var payloadSize := (buf[0] as int) * 256 + buf[1];
      var end := kPaddingHeaderSize + payloadSize;
      if payloadSize == 0 then InvalidArgument
      else if |buf| < end + buf[2] then TryAgain
      else Removed(buf[kPaddingHeaderSize..end], end + buf[2])
  }

  /** On the wire: the size with its high byte first, the padding's size, the chunk, and zeros. */
  lemma PaddedFrame(buf: Bytes, paddingSize: byte)
    requires |buf| <= 0xffff
    ensures var f := AddPadding(buf, paddingSize);
            && |f| == 3 + |buf| + paddingSize && (f[0] as int) * 256 + f[1] == |buf| && f[2] == paddingSize
            && f[3..3 + |buf|] == buf && (forall i :: 3 + |buf| <= i < |f| ==> f[i] == 0)
  {
    var f, n := AddPadding(buf, paddingSize), |buf|;
    assert n % 0x1_0000 == n && buf[..n] == buf;
    assert f == [n / 256, n % 256, paddingSize] + buf + Zeros(paddingSize);
    assert f[0] == n / 256 && f[1] == n % 256 && f[2] == paddingSize;
  }

  /** And as it is read: exactly a frame that is all there and not empty is taken. */
  lemma RemovalMeans(s: Bytes, p: Bytes, used: nat)
    ensures RemovePadding(s) == Removed(p, used) <==>
      && |s| >= 3 && p != [] && |p| == (s[0] as int) * 256 + s[1]
      && used == 3 + |p| + s[2] && used <= |s| && s[3..3 + |p|] == p
    ensures RemovePadding(s) == InvalidArgument <==> |s| >= 3 && s[0] == 0 && s[1] == 0
  {
  }

  /** One frame at the front of a buffer is undone exactly when its chunk fits the length field. */
  lemma PaddingUndone(buf: Bytes, paddingSize: byte, tail: Bytes)
    ensures var f := AddPadding(buf, paddingSize);
            RemovePadding(f + tail) == Removed(buf, |f|) <==> 1 <= |buf| <= 0xffff
  {
    var n := |buf| % 0x1_0000;
    var f := AddPadding(buf, paddingSize);
    var s := f + tail;
    assert s[0] == n / 256 && s[1] == n % 256 && s[2] == paddingSize;
    assert (s[0] as int) * 256 + s[1] == n;
    assert s[3..3 + n] == f[3..3 + n] == buf[..n];
    assert n > 0 ==> RemovePadding(s) == Removed(buf[..n], |f|);
    assert n < |buf| ==> buf[..n] != buf;
    assert buf[..|buf|] == buf;
  }

  /** A frame of which any byte is still missing is left alone. */
  lemma CutFrameWaits(buf: Bytes, paddingSize: byte, k: nat)
    requires 1 <= |buf| <= 0xffff && k < |AddPadding(buf, paddingSize)|
    ensures RemovePadding(AddPadding(buf, paddingSize)[..k]) == TryAgain
  {
    var f := AddPadding(buf, paddingSize);
    var s := f[..k];
    if k >= 3 {
      assert s[0] == f[0] && s[1] == f[1] && s[2] == f[2];
    }
  }

  /** Padding removal as a frame code: frames number 8 and up are never cut off. */
  function PaddingCode(i: nat, s: Bytes): Step {
    if i >= kFirstPaddings then More
    else
      match RemovePadding(s)
      case Removed(p, used) => Frame(p, used)
      case TryAgain => More
      case InvalidArgument => Bad
  }

  lemma PaddingCodeStable()
    ensures Stable(PaddingCode)
  {
    forall i: nat, s: Bytes, t: Bytes | !PaddingCode(i, s).More?
      ensures PaddingCode(i, s + t) == PaddingCode(i, s)
    {
      assert (s + t)[0] == s[0] && (s + t)[1] == s[1] && (s + t)[2] == s[2];
      if PaddingCode(i, s).Frame? {
        var end := kPaddingHeaderSize + ((s[0] as int) * 256 + s[1]);
        assert (s + t)[kPaddingHeaderSize..end] == s[kPaddingHeaderSize..end];
      }
    }
  }

  ghost function Unpadded(s: Bytes): (r: Scanned)
    ensures r.index == |r.frames|
  {
    PaddingCodeStable();
    Scan(PaddingCode, 0, s)
  }

  /**
   * What the peer's stream `s` stands for: the contents of the first `kFirstPaddings` frames,
   * and once they are all there, the rest of the stream as it is.
   */
  ghost function Delivered(s: Bytes): Bytes {
    var r := Unpadded(s);
    Flat(r.frames) + if r.index < kFirstPaddings then [] else r.rest
  }

  lemma {:induction false} ScanStopsAtLimit(i: nat, s: Bytes)
    requires Stable(PaddingCode) && i <= kFirstPaddings
    ensures Scan(PaddingCode, i, s).index <= kFirstPaddings
    decreases |s|
  {
    var f := PaddingCode(i, s);
    if f.Frame? {
      ScanStopsAtLimit(i + 1, s[f.used..]);
    }
  }

  lemma AtMostFirstPaddings(s: Bytes)
    ensures |Unpadded(s).frames| <= kFirstPaddings
  {
    PaddingCodeStable();
    ScanStopsAtLimit(0, s);
  }

  /** Bytes that arrive later never take back bytes already delivered. */
  lemma DeliveredGrows(s: Bytes, t: Bytes)
    ensures IsPrefix(Delivered(s), Delivered(s + t))
  {
    var a := Unpadded(s);
    if a.index >= kFirstPaddings {
      AtMostFirstPaddings(s);
      PassesThrough(s, t);
    } else {
      PaddingCodeStable();
      ScanMonotone(PaddingCode, 0, s, t);
      assert Flat(a.frames) + [] == Flat(a.frames);
      var b := Unpadded(s + t);
      PrefixOfSum(Flat(a.frames), Flat(b.frames), if b.index < kFirstPaddings then [] else b.rest);
    }
  }

  /** What travels for chunk number `k` of a connection: the first ones padded, the others not. */
  ghost predicate SentAs(k: nat, frame: Bytes, chunk: Bytes) {
    if k < kFirstPaddings then exists p: byte :: frame == AddPadding(chunk, p) else frame == chunk
  }

  ghost predicate Padded(wire: seq<Bytes>, chunks: seq<Bytes>) {
    && |wire| == |chunks|
    && forall k :: 0 <= k < |wire| ==> SentAs(k, wire[k], chunks[k])
  }

  ghost predicate FitsLengthField(chunks: seq<Bytes>) {
    forall k :: 0 <= k < |chunks| ==> 1 <= |chunks[k]| <= 0xffff
  }

  lemma PaddedEncodes(wire: seq<Bytes>, chunks: seq<Bytes>)
    requires Padded(wire, chunks) && FitsLengthField(chunks)
    requires |wire| <= kFirstPaddings
    ensures Encodes(PaddingCode, 0, wire, chunks)
  {
    forall k | 0 <= k < |wire|
      ensures PaddingCode(0 + k, wire[k]) == Frame(chunks[k], |wire[k]|)
    {
      assert SentAs(k, wire[k], chunks[k]);
      var p: byte :| wire[k] == AddPadding(chunks[k], p);
      PaddingUndone(chunks[k], p, []);
      assert wire[k] + [] == wire[k];
    }
  }

  /** The receiver's meaning of what a sender sends is what the sender was given. */
  lemma PaddingRoundTrip(wire: seq<Bytes>, chunks: seq<Bytes>)
    requires Padded(wire, chunks) && FitsLengthField(chunks)
    ensures Delivered(Flat(wire)) == Flat(chunks)
  {
    var n := if |wire| < kFirstPaddings then |wire| else kFirstPaddings;
    var w, c, tail := wire[..n], chunks[..n], wire[n..];
    assert tail == chunks[n..] by {
      assert forall k :: n <= k < |wire| ==> SentAs(k, wire[k], chunks[k]);
    }
    PaddedEncodes(w, c);
    PaddedScan(w, c, Flat(tail));
    assert wire == w + tail && chunks == c + tail;
    FlatConcat(w, tail);
    FlatConcat(c, tail);
    assert n < kFirstPaddings ==> tail == [];
  }

  lemma PaddedScan(wire: seq<Bytes>, chunks: seq<Bytes>, tail: Bytes)
    requires Encodes(PaddingCode, 0, wire, chunks)
    requires |wire| <= kFirstPaddings && (tail == [] || |wire| == kFirstPaddings)
    ensures Unpadded(Flat(wire) + tail) == Scanned(chunks, tail, |chunks|)
  {
    PaddingCodeStable();
    ScanEncoded(PaddingCode, 0, wire, chunks, tail);
    assert PaddingCode(|chunks|, tail) == More;
    assert chunks + [] == chunks;
  }

  /** Wherever the stream is cut off, what was delivered by then is a prefix of what was sent. */
  lemma PartialDeliveryIsPrefix(wire: seq<Bytes>, chunks: seq<Bytes>, k: nat)
    requires Padded(wire, chunks) && FitsLengthField(chunks)
    requires k <= |Flat(wire)|
    ensures IsPrefix(Delivered(Flat(wire)[..k]), Flat(chunks))
  {
    PaddingRoundTrip(wire, chunks);
    assert Flat(wire) == Flat(wire)[..k] + Flat(wire)[k..];
    DeliveredGrows(Flat(wire)[..k], Flat(wire)[k..]);
  }

  /** Once all padded frames are in, further payloads are delivered as they are. */
  lemma PassesThrough(was: Bytes, data: Bytes)
    ensures Unpadded(was).index == kFirstPaddings ==>
        && Unpadded(was + data).index == kFirstPaddings
        && Delivered(was + data) == Delivered(was) + data
  {
    PaddingCodeStable();
    ScanResumes(PaddingCode, 0, was, data);
    var a := Unpadded(was);
    if a.index == kFirstPaddings {
      assert Scan(PaddingCode, a.index, a.rest + data) == Scanned([], a.rest + data, a.index);
      assert a.frames + [] == a.frames;
    }
  }

  /** The sending half: which chunks of the connection are padded. */
  class PaddingSender {
    var numPaddingSend: nat
    var wire: seq<Bytes>
    ghost var chunks: seq<Bytes>

    ghost predicate Valid()
      reads this
    {
      && numPaddingSend == (if |chunks| < kFirstPaddings then |chunks| else kFirstPaddings)
      && Padded(wire, chunks)
    }

    constructor ()
      ensures Valid() && chunks == []
    {
      numPaddingSend, wire, chunks := 0, [], [];
    }

    method SendChunk(buf: Bytes, randomSize: byte)
      requires Valid()
      modifies this
      ensures Valid() && chunks == old(chunks) + [buf]
    {
      var send := buf;
      if numPaddingSend < kFirstPaddings {
        numPaddingSend := numPaddingSend + 1;
        send := AddPadding(buf, randomSize);
      }
      assert SentAs(|chunks|, send, buf);
      wire := wire + [send];
      chunks := chunks + [buf];
    }
  }

  /** The receiving half: reassembly of padded frames out of DATA payloads. */
  class PaddingReceiver {
    const paddingSupport: bool
    var numPaddingRecv: nat
    var inMiddle: Option<Bytes>
    var downstream: seq<Bytes>
    ghost var received: Bytes

    function Middle(): Bytes
      reads this
    {
      if inMiddle.Some? then inMiddle.value else []
    }

    ghost predicate Valid()
      reads this
    {
      if paddingSupport then
        var r := Unpadded(received);
        && numPaddingRecv == r.index <= kFirstPaddings
        && Flat(downstream) == Delivered(received)
        && (numPaddingRecv < kFirstPaddings ==> Middle() == r.rest && downstream == r.frames)
      else
        Flat(downstream) == received
    }

    constructor (support: bool)
      ensures Valid() && received == [] && paddingSupport == support
    {
      paddingSupport := support;
      numPaddingRecv, inMiddle, downstream, received := 0, None, [], [];
    }

    method OnDataForStream(data: Bytes)
      requires Valid()
      modifies this
      ensures Valid() && received == old(received) + data
    {
      ghost var was := received;
      received := received + data;
      if paddingSupport && numPaddingRecv < kFirstPaddings {
        inMiddle := Some(Middle() + data);
        PaddingCodeStable();
        PieceArrives(PaddingCode, was, data);
        Reassemble();
        if numPaddingRecv >= kFirstPaddings && inMiddle.value != [] {
          FlatPush(downstream, inMiddle.value);
          downstream := downstream + [inMiddle.value];
          inMiddle := None;
        }
        return;
      }
      FlatPush(downstream, data);
      PassesThrough(was, data);
      downstream := downstream + [data];
    }

    /** Cuts whole frames off the kept bytes until one is missing or none is expected. */
    method Reassemble()
      requires Stable(PaddingCode) && inMiddle.Some? && numPaddingRecv <= kFirstPaddings
      requires Reassembling(PaddingCode, received, numPaddingRecv, inMiddle.value, downstream)
      modifies this`numPaddingRecv, this`inMiddle, this`downstream
      ensures inMiddle.Some? && numPaddingRecv <= kFirstPaddings
      ensures Unpadded(received) == Scanned(downstream, inMiddle.value, numPaddingRecv)
    {
      while numPaddingRecv < kFirstPaddings
        invariant inMiddle.Some? && numPaddingRecv <= kFirstPaddings
        invariant Reassembling(PaddingCode, received, numPaddingRecv, inMiddle.value, downstream)
        decreases kFirstPaddings - numPaddingRecv
      {
        var removal := RemovePadding(inMiddle.value);
        if !removal.Removed? {
          break;
        }
        FrameTaken(PaddingCode, received, numPaddingRecv, inMiddle.value, downstream);
        downstream := downstream + [removal.payload];
        inMiddle := Some(inMiddle.value[removal.used..]);
        numPaddingRecv := numPaddingRecv + 1;
      }
      NoFrameLeft(PaddingCode, received, numPaddingRecv, inMiddle.value, downstream);
    }
  }

  /** Any cutting of the peer's stream into DATA payloads delivers the same bytes. */
  method ReceiveAll(support: bool, payloads: seq<Bytes>) returns (delivered: Bytes)
    ensures support ==> delivered == Delivered(Flat(payloads))
    ensures !support ==> delivered == Flat(payloads)
  {
    var receiver := new PaddingReceiver(support);
    for i := 0 to |payloads|
      invariant fresh(receiver) && receiver.Valid() && receiver.paddingSupport == support
      invariant receiver.received == Flat(payloads[..i])
    {
      receiver.OnDataForStream(payloads[i]);
      assert payloads[..i + 1] == payloads[..i] + [payloads[i]];
      FlatPush(payloads[..i], payloads[i]);
    }
    assert payloads[..|payloads|] == payloads;
    delivered := Flat(receiver.downstream);
  }

  /**
   * Sender and receiver together are the identity, whatever random padding is drawn and
   * however the transport cuts the stream.
   */
  method Tunnel(chunks: seq<Bytes>, randomSizes: seq<byte>, payloads: seq<Bytes>)
    returns (wire: seq<Bytes>, delivered: Bytes)
    requires FitsLengthField(chunks) && |randomSizes| == |chunks|
    ensures Flat(payloads) == Flat(wire) ==> delivered == Flat(chunks)
  {
    var sender := new PaddingSender();
    for i := 0 to |chunks|
      invariant fresh(sender) && sender.Valid() && sender.chunks == chunks[..i]
    {
      sender.SendChunk(chunks[i], randomSizes[i]);
    }
    wire := sender.wire;
    delivered := ReceiveAll(true, payloads);
    assert chunks[..|chunks|] == chunks;
    PaddingRoundTrip(wire, chunks);
  }
}
