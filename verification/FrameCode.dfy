/**
 * Self-delimiting frame codes read from a byte stream that arrives in arbitrary pieces.
 *
 * Both stream decoders of the relay (padding removal and Shadowsocks decryption) have the
 * same shape: keep the undecoded tail, append what arrives, cut off whole frames. The facts
 * that make such a decoder independent of the cutting are proved here once.
 */
module FrameCode {
  import opened Bytes

  /** What the next frame of a buffer is: a whole one, not enough bytes yet, or broken. */
  datatype Step = Frame(payload: Bytes, used: nat) | More | Bad

  /** A code gives the step for frame number `i` at the front of a buffer. */
  type Code = (nat, Bytes) -> Step

  /** A verdict uses up at least one byte of the buffer and bytes that follow never change it. */
  ghost predicate Stable(next: Code) {
    forall k :: Opened(k, next) ==> Moves(next) && Persists(next)
  }

  ghost predicate Moves(next: Code) {
    forall i: nat, s: Bytes :: next(i, s).Frame? ==> 1 <= next(i, s).used <= |s|
  }

  ghost predicate Persists(next: Code) {
    forall i: nat, s: Bytes, t: Bytes {:trigger next(i, s + t)} :: !next(i, s).More? ==> next(i, s + t) == next(i, s)
  }

  lemma FrameMoves(next: Code, i: nat, s: Bytes)
    requires Stable(next)
    ensures next(i, s).Frame? ==> 1 <= next(i, s).used <= |s|
  {
    assert Opened(0, next);
  }

  lemma FramePersists(next: Code, i: nat, s: Bytes, t: Bytes)
    requires Stable(next) && !next(i, s).More?
    ensures next(i, s + t) == next(i, s)
  {
    assert Opened(0, next);
  }

  /** The frames found, the tail that is left and the number of the next frame. */
  datatype Scanned = Scanned(frames: seq<Bytes>, rest: Bytes, index: nat)

  function Prepend(p: Bytes, r: Scanned): Scanned {
    r.(frames := [p] + r.frames)
  }

  /** The whole-stream reference decoder. */
  ghost function Scan(next: Code, i: nat, s: Bytes): (r: Scanned)
    requires Stable(next)
    ensures r.index == i + |r.frames|
    decreases |s|
  {
    FrameMoves(next, i, s);
    match next(i, s)
    case Frame(p, used) =>
      Prepend(p, Scan(next, i + 1, s[used..]))
    case _ => Scanned([], s, i)
  }

  /** The first frame of a buffer is unaffected by the bytes behind it. */
  lemma FirstFrame(next: Code, i: nat, s: Bytes, t: Bytes)
    requires Stable(next) && next(i, s).Frame?
    ensures var f := next(i, s);
            && f.used <= |s|
            && Scan(next, i, s + t) == Prepend(f.payload, Scan(next, i + 1, s[f.used..] + t))
  {
    FrameMoves(next, i, s);
    FramePersists(next, i, s, t);
    assert (s + t)[next(i, s).used..] == s[next(i, s).used..] + t;
  }

  /** Decoding may stop after any piece and go on from the tail it kept. */
  lemma {:induction false} ScanResumes(next: Code, i: nat, s: Bytes, t: Bytes)
    requires Stable(next)
    ensures var a := Scan(next, i, s);
            var b := Scan(next, a.index, a.rest + t);
            Scan(next, i, s + t) == Scanned(a.frames + b.frames, b.rest, b.index)
    decreases |s|
  {
    var a := Scan(next, i, s);
    FrameMoves(next, i, s);
    if next(i, s).Frame? {
      var f := next(i, s);
      var a' := Scan(next, i + 1, s[f.used..]);
      var b := Scan(next, a.index, a.rest + t);
      calc {
        Scan(next, i, s + t);
        { FirstFrame(next, i, s, t); }
        Prepend(f.payload, Scan(next, i + 1, s[f.used..] + t));
        { ScanResumes(next, i + 1, s[f.used..], t); }
        Prepend(f.payload, Scanned(a'.frames + b.frames, b.rest, b.index));
        { Regroup([f.payload], a'.frames, b.frames); }
        Scanned(a.frames + b.frames, b.rest, b.index);
      }
    } else {
      var b := Scan(next, i, s + t);
      assert [] + b.frames == b.frames;
    }
  }

  /** What a prefix of the stream decodes to is a prefix of what the stream decodes to. */
  lemma ScanMonotone(next: Code, i: nat, s: Bytes, t: Bytes)
    requires Stable(next)
    ensures IsPrefix(Flat(Scan(next, i, s).frames), Flat(Scan(next, i, s + t).frames))
  {
    ScanResumes(next, i, s, t);
    var a := Scan(next, i, s);
    FlatConcat(a.frames, Scan(next, a.index, a.rest + t).frames);
  }

  /**
   * The invariant of a decoder's loop: with the frames before number `n` in `out` and `kept` not
   * yet looked at, the frames of the stream `received` are `out` and the ones in `kept`.
   */
  ghost predicate Reassembling(next: Code, received: Bytes, n: nat, kept: Bytes, out: seq<Bytes>)
    requires Stable(next)
  {
    var m := Scan(next, n, kept);
    n == |out| && Scan(next, 0, received) == Scanned(out + m.frames, m.rest, m.index)
  }

  /** An arriving piece, appended to the kept tail, is where the loop starts. */
  lemma PieceArrives(next: Code, was: Bytes, data: Bytes)
    requires Stable(next)
    ensures var a := Scan(next, 0, was);
            Reassembling(next, was + data, a.index, a.rest + data, a.frames)
  {
    ScanResumes(next, 0, was, data);
  }

  lemma FrameTaken(next: Code, received: Bytes, n: nat, kept: Bytes, out: seq<Bytes>)
    requires Stable(next) && Reassembling(next, received, n, kept, out) && next(n, kept).Frame?
    ensures var f := next(n, kept);
            1 <= f.used <= |kept| && Reassembling(next, received, n + 1, kept[f.used..], out + [f.payload])
  {
    FrameMoves(next, n, kept);
    var f := next(n, kept);
    Regroup(out, [f.payload], Scan(next, n + 1, kept[f.used..]).frames);
  }

  /** No whole frame is left: the frames taken are all there are. */
  lemma NoFrameLeft(next: Code, received: Bytes, n: nat, kept: Bytes, out: seq<Bytes>)
    requires Stable(next) && Reassembling(next, received, n, kept, out) && !next(n, kept).Frame?
    ensures Scan(next, 0, received) == Scanned(out, kept, n)
  {
    assert out + [] == out;
  }

  /** `wire` is the encoding of `msgs` as frames number `i`, `i + 1`, ... of the code. */
  ghost predicate Encodes(next: Code, i: nat, wire: seq<Bytes>, msgs: seq<Bytes>) {
    && |wire| == |msgs|
    && forall k :: 0 <= k < |wire| ==> next(i + k, wire[k]) == Frame(msgs[k], |wire[k]|)
  }

  lemma EncodesTail(next: Code, i: nat, wire: seq<Bytes>, msgs: seq<Bytes>)
    requires Encodes(next, i, wire, msgs) && wire != []
    ensures next(i, wire[0]) == Frame(msgs[0], |wire[0]|)
    ensures Encodes(next, i + 1, wire[1..], msgs[1..])
  {
    assert next(i + 0, wire[0]) == Frame(msgs[0], |wire[0]|);
    forall k | 0 <= k < |wire[1..]|
      ensures next(i + 1 + k, wire[1..][k]) == Frame(msgs[1..][k], |wire[1..][k]|)
    {
      assert next(i + (k + 1), wire[k + 1]) == Frame(msgs[k + 1], |wire[k + 1]|);
    }
  }

  lemma ScanWholeFrame(next: Code, i: nat, frame: Bytes, msg: Bytes, w: Bytes)
    requires Stable(next) && next(i, frame) == Frame(msg, |frame|)
    ensures Scan(next, i, frame + w) == Prepend(msg, Scan(next, i + 1, w))
  {
    FirstFrame(next, i, frame, w);
    assert frame[|frame|..] + w == w;
  }

  /** The reference decoder gives back the messages, in order, and keeps the tail. */
  lemma {:induction false} ScanEncoded(next: Code, i: nat, wire: seq<Bytes>, msgs: seq<Bytes>, tail: Bytes)
    requires Stable(next) && Encodes(next, i, wire, msgs)
    ensures var t := Scan(next, i + |msgs|, tail);
            Scan(next, i, Flat(wire) + tail) == Scanned(msgs + t.frames, t.rest, t.index)
    decreases |wire|
  {
    var t := Scan(next, i + |msgs|, tail);
    if wire == [] {
      assert Flat(wire) + tail == tail;
      assert msgs + t.frames == t.frames;
    } else {
      EncodesTail(next, i, wire, msgs);
      var w := Flat(wire[1..]) + tail;
      calc {
        Scan(next, i, Flat(wire) + tail);
        { Regroup(wire[0], Flat(wire[1..]), tail); }
        Scan(next, i, wire[0] + w);
        { ScanWholeFrame(next, i, wire[0], msgs[0], w); }
        Prepend(msgs[0], Scan(next, i + 1, w));
        { assert i + 1 + |msgs[1..]| == i + |msgs|;
          ScanEncoded(next, i + 1, wire[1..], msgs[1..], tail); }
        Prepend(msgs[0], Scanned(msgs[1..] + t.frames, t.rest, t.index));
        { Regroup([msgs[0]], msgs[1..], t.frames);
          assert [msgs[0]] + msgs[1..] == msgs; }
        Scanned(msgs + t.frames, t.rest, t.index);
      }
    }
  }
}
