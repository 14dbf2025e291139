/** The source the HTTP/2 adapter draws DATA payloads from. */
module DataFrame {
  import opened Bytes

  /** The adapter's "nothing to send now". */
  const kBlocked: int := 0

  class DataFrameSource {
    var chunks: seq<Bytes>
    var lastFrame: bool
    var blockedStream: nat
    ghost var added: Bytes
    ghost var sent: Bytes

    ghost predicate Valid()
      reads this
    {
      Fifo(sent, chunks, added)
    }

    constructor ()
      ensures Valid() && chunks == [] && added == [] && sent == [] && !lastFrame
    {
      chunks, lastFrame, blockedStream, added, sent := [], false, 0, [], [];
    }

    method AddChunk(chunk: Bytes)
      requires Valid() && chunk != []
      modifies this`chunks, this`added
      ensures Valid() && chunks == old(chunks) + [chunk] && added == old(added) + chunk
    {
      FifoPush(sent, chunks, added, chunk);
      chunks := chunks + [chunk];
      added := added + chunk;
    }

    method SetLastFrame(last: bool)
      modifies this`lastFrame
      ensures lastFrame == last
    {
      lastFrame := last;
    }

    /** How many bytes the next DATA frame may carry, and whether it ends the stream. */
    function SelectPayloadLength(maxLength: nat): (r: (int, bool))
      reads this
      ensures chunks == [] ==> r == (kBlocked, lastFrame)
      ensures chunks != [] ==> 0 <= r.0 <= maxLength && r.0 <= |chunks[0]|
      ensures chunks != [] ==> (r.1 <==> lastFrame && |chunks| == 1 && r.0 == |chunks[0]|)
    {
      if chunks == [] then (kBlocked, lastFrame)
      else
        var size := |chunks[0]|;
        (if size < maxLength then size else maxLength, |chunks| <= 1 && size <= maxLength && lastFrame)
    }

    method Send(payloadLength: nat) returns (payload: Bytes)
      requires Valid() && (payloadLength > 0 ==> chunks != [] && payloadLength <= |chunks[0]|)
      modifies this`chunks, this`sent, this`blockedStream
      ensures Valid() && sent == old(sent) + payload && |payload| == payloadLength
      ensures payloadLength == 0 ==> chunks == old(chunks)
      ensures payloadLength > 0 ==> chunks == AfterWrite(old(chunks), payloadLength)
      ensures payloadLength > 0 && chunks == [] ==> blockedStream == 0
    {
      if payloadLength == 0 {
        assert sent + [] == sent;
        return [];
      }
      payload := chunks[0][..payloadLength];
      FifoWrite(sent, chunks, added, payloadLength);
      sent := sent + payload;
      chunks := AfterWrite(chunks, payloadLength);
      if chunks == [] {
        blockedStream := 0;
      }
    }

    /**
     * One turn of the adapter: ask, then send what was answered. The end of the stream is
     * announced exactly when this frame leaves the source empty and the last frame was marked.
     */
    method Turn(maxLength: nat) returns (payload: Bytes, finished: bool)
      requires Valid()
      modifies this`chunks, this`sent, this`blockedStream
      ensures Valid() && sent == old(sent) + payload
      ensures old(chunks) == [] ==> payload == [] && chunks == []
      ensures old(chunks) != [] ==>
        |payload| == (if |old(chunks)[0]| < maxLength then |old(chunks)[0]| else maxLength)
        && (maxLength > 0 ==> payload != [])
      ensures finished <==> chunks == [] && lastFrame
    {
      FifoFacts(sent, chunks, added);
      var selected := SelectPayloadLength(maxLength);
      payload := Send(selected.0);
      finished := selected.1;
    }

    /** Asked often enough, with any positive frame size, it sends everything that was added. */
    method SendAll(maxLength: nat) returns (frames: seq<Bytes>, finished: bool)
      requires Valid() && maxLength > 0 && chunks != []
      modifies this`chunks, this`sent, this`blockedStream
      ensures Valid() && chunks == [] && sent == added == old(sent) + Flat(frames)
      ensures finished == lastFrame
      ensures forall i :: 0 <= i < |frames| ==> 0 < |frames[i]| <= maxLength
    {
      frames := [];
      finished := false;
      assert old(sent) + [] == old(sent);
      while chunks != []
        invariant Valid() && sent == old(sent) + Flat(frames)
        invariant chunks == [] ==> finished == lastFrame
        invariant forall i :: 0 <= i < |frames| ==> 0 < |frames[i]| <= maxLength
        decreases |added| - |sent|
      {
        FifoFacts(sent, chunks, added);
        var payload;
        payload, finished := Turn(maxLength);
        FifoFacts(sent, chunks, added);
        FlatPush(frames, payload);
        Regroup(old(sent), Flat(frames), payload);
        frames := frames + [payload];
      }
      FifoFacts(sent, chunks, added);
    }
  }

  /** What happens to a source: a chunk is added, the last frame is marked or not, a frame is drawn. */
  datatype Operation = Add(chunk: Bytes) | Mark(last: bool) | Draw(maxLength: nat)

  ghost predicate NonEmptyChunks(ops: seq<Operation>) {
    forall i :: 0 <= i < |ops| && ops[i].Add? ==> ops[i].chunk != []
  }

  /** All that the operations add. */
  ghost function Given(ops: seq<Operation>): Bytes {
    if ops == [] then []
    else
      var op := ops[|ops| - 1];
      Given(ops[..|ops| - 1]) + if op.Add? then op.chunk else []
  }

  /** The mark they leave. */
  ghost function Marked(ops: seq<Operation>): bool {
    ops != [] && (var op := ops[|ops| - 1]; if op.Mark? then op.last else Marked(ops[..|ops| - 1]))
  }

  /**
   * Up to operation `i` no byte is drawn that was not added before, in that order, and `i` ends the
   * stream exactly if it draws, all that was added is drawn, and the last frame is marked.
   */
  ghost predicate DrawnInOrder(ops: seq<Operation>, frames: seq<Bytes>, ends: seq<bool>, i: nat)
    requires i < |ops| && i < |frames| && i < |ends|
  {
    && IsPrefix(Flat(frames[..i + 1]), Given(ops[..i + 1]))
    && (frames[i] != [] ==> ops[i].Draw? && |frames[i]| <= ops[i].maxLength)
    && (ends[i] <==> ops[i].Draw? && Flat(frames[..i + 1]) == Given(ops[..i + 1]) && Marked(ops[..i + 1]))
  }

  lemma DrawnStays(ops: seq<Operation>, frames: seq<Bytes>, ends: seq<bool>, frame: Bytes, end: bool)
    requires |frames| == |ends| <= |ops|
    requires forall k :: 0 <= k < |frames| ==> DrawnInOrder(ops, frames, ends, k)
    ensures forall k :: 0 <= k < |frames| ==> DrawnInOrder(ops, frames + [frame], ends + [end], k)
  {
    forall k | 0 <= k < |frames|
      ensures DrawnInOrder(ops, frames + [frame], ends + [end], k)
    {
      assert DrawnInOrder(ops, frames, ends, k);
      assert (frames + [frame])[..k + 1] == frames[..k + 1];
    }
  }

  /** One operation on a source; the frame is empty unless one is drawn. */
  method Operate(c: DataFrameSource, op: Operation) returns (frame: Bytes, end: bool)
    requires c.Valid() && (op.Add? ==> op.chunk != [])
    modifies c
    ensures c.Valid() && c.added == old(c.added) + (if op.Add? then op.chunk else [])
    ensures c.lastFrame == (if op.Mark? then op.last else old(c.lastFrame))
    ensures c.sent == old(c.sent) + frame && (frame != [] ==> op.Draw? && |frame| <= op.maxLength)
    ensures end <==> op.Draw? && c.sent == c.added && c.lastFrame
  {
    frame, end := [], false;
    assert c.sent + [] == c.sent && c.added + [] == c.added;
    match op {
      case Add(chunk) => c.AddChunk(chunk);
      case Mark(last) => c.SetLastFrame(last);
      case Draw(maxLength) => frame, end := c.Turn(maxLength);
    }
    FifoFacts(c.sent, c.chunks, c.added);
  }

  /** Any interleaving of chunks, marks and draws. */
  method RunSource(ops: seq<Operation>) returns (frames: seq<Bytes>, ends: seq<bool>)
    requires NonEmptyChunks(ops)
    ensures |frames| == |ends| == |ops|
    ensures forall i :: 0 <= i < |ops| ==> DrawnInOrder(ops, frames, ends, i)
  {
    var c := new DataFrameSource();
    frames, ends := [], [];
    for i := 0 to |ops|
      invariant fresh(c) && c.Valid() && |frames| == |ends| == i
      invariant c.sent == Flat(frames) && c.added == Given(ops[..i]) && c.lastFrame == Marked(ops[..i])
      invariant forall k :: 0 <= k < i ==> DrawnInOrder(ops, frames, ends, k)
    {
      var frame, end := Operate(c, ops[i]);
      DrawnStays(ops, frames, ends, frame, end);
      FlatPush(frames, frame);
      frames, ends := frames + [frame], ends + [end];
      assert ops[..i + 1][..i] == ops[..i];
      assert frames[..i + 1] == frames;
      FifoFacts(c.sent, c.chunks, c.added);
    }
  }
}
