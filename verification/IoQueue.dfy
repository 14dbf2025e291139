/** The ring of buffers behind every queue of a connection, and the sequence it stands for. */
module IoQueue {
  import opened Bytes

  type Slot = Option<Bytes>

  function NoBuffers(n: nat): (r: seq<Slot>)
    ensures |r| == n && forall i :: 0 <= i < n ==> r[i] == None
  {
    seq(n, _ => None)
  }

  ghost predicate AllBuffers(s: seq<Slot>) {
    forall i :: 0 <= i < |s| ==> s[i].Some?
  }

  /** `i % n`, for an index that has gone round at most once. */
  function Wrap(i: nat, n: nat): (r: nat)
    requires i < 2 * n
    ensures r < n && r == i % n
  {
    if i < n then
      ModuloOnce(i, n, 0); i
    else
      ModuloOnce(i - n, n, 1); i - n
  }

  lemma ModuloOnce(r: nat, n: nat, q: nat)
    requires r < n && q <= 1
    ensures (q * n + r) % n == r
  {
    if q == 1 {
      assert (n + r) % n == r;
    }
  }

  /** The slots from `idx` around to `end`; all of them when the two have met. */
  ghost function Around(queue: seq<Slot>, idx: nat, end: nat): seq<Slot>
    requires idx < |queue| && end < |queue|
  {
    if idx < end then queue[idx..end] else queue[idx..] + queue[..end]
  }

  /** What the ring holds, front first. */
  ghost function Held(queue: seq<Slot>, idx: nat, end: nat): seq<Slot>
    requires idx < |queue| && end < |queue|
  {
    if idx == end then [] else Around(queue, idx, end)
  }

  lemma HeldAt(queue: seq<Slot>, idx: nat, end: nat, k: nat)
    requires idx < |queue| && end < |queue| && k < |Held(queue, idx, end)|
    ensures idx + k < 2 * |queue| && Held(queue, idx, end)[k] == queue[Wrap(idx + k, |queue|)]
    ensures k + 1 == |Held(queue, idx, end)| <==> Wrap(idx + k + 1, |queue|) == end
  {
  }

  lemma HeldLength(queue: seq<Slot>, idx: nat, end: nat)
    requires idx < |queue| && end < |queue|
    ensures |Held(queue, idx, end)| == Wrap(end + |queue| - idx, |queue|)
  {
  }

  lemma PushHeld(queue: seq<Slot>, idx: nat, end: nat, x: Slot)
    requires idx < |queue| && end < |queue|
    ensures Around(queue[end := x], idx, Wrap(end + 1, |queue|)) == Held(queue, idx, end) + [x]
  {
    var q := queue[end := x];
    if idx > end {
      assert q[idx..] == queue[idx..];
      assert q[..end + 1] == queue[..end] + [x];
    } else if end + 1 < |queue| {
      assert q[idx..end + 1] == queue[idx..end] + [x];
    } else {
      assert q[idx..] + q[..0] == queue[idx..end] + [x];
    }
  }

  lemma PopHeld(queue: seq<Slot>, idx: nat, end: nat)
    requires idx < |queue| && end < |queue| && idx != end
    ensures Held(queue[idx := None], Wrap(idx + 1, |queue|), end) == Held(queue, idx, end)[1..]
  {
    var q := queue[idx := None];
    var h := Held(queue, idx, end);
    if idx < end {
      assert q[idx + 1..end] == queue[idx + 1..end];
    } else if idx + 1 < |queue| {
      assert q[idx + 1..] + q[..end] == h[1..];
    } else {
      assert q[..end] == h[1..];
    }
  }

  class IoQueue {
    var queue: seq<Slot>
    var idx: nat
    var endIdx: nat

    ghost predicate Valid()
      reads this
    {
      && idx < |queue| && endIdx < |queue|
      && AllBuffers(Held(queue, idx, endIdx))
      && (forall i :: 0 <= i < |queue| && !InUse(i) ==> queue[i] == None)
    }

    predicate InUse(i: nat)
      reads this
    {
      if idx <= endIdx then idx <= i < endIdx else i >= idx || i < endIdx
    }

    ghost function Contents(): seq<Slot>
      requires idx < |queue| && endIdx < |queue|
      reads this
    {
      Held(queue, idx, endIdx)
    }

    constructor (depth: nat)
      requires depth >= 2
      ensures Valid() && Contents() == []
    {
      queue, idx, endIdx := NoBuffers(depth), 0, 0;
    }

    predicate Empty()
      reads this
    {
      idx == endIdx
    }

    function Length(): (n: nat)
      requires Valid()
      reads this
      ensures n == |Contents()| && (n == 0 <==> Empty())
    {
      HeldLength(queue, idx, endIdx);
      Wrap(endIdx + |queue| - idx, |queue|)
    }

    method Front() returns (buf: Bytes)
      requires Valid() && !Empty()
      ensures Some(buf) == Contents()[0]
    {
      HeldAt(queue, idx, endIdx, 0);
      buf := queue[idx].value;
    }

    method Back() returns (buf: Bytes)
      requires Valid() && !Empty()
      ensures Some(buf) == Contents()[|Contents()| - 1]
    {
      HeldAt(queue, idx, endIdx, |Contents()| - 1);
      buf := queue[Wrap(endIdx + |queue| - 1, |queue|)].value;
    }

    method PopFront()
      requires Valid() && !Empty()
      modifies this
      ensures Valid() && Contents() == old(Contents())[1..]
    {
      PopHeld(queue, idx, endIdx);
      queue := queue[idx := None];
      idx := Wrap(idx + 1, |queue|);
    }

    method PushBack(buf: Bytes)
      requires Valid()
      modifies this
      ensures Valid() && Contents() == old(Contents()) + [Some(buf)]
    {
      PushHeld(queue, idx, endIdx, Some(buf));
      queue := queue[endIdx := Some(buf)];
      endIdx := Wrap(endIdx + 1, |queue|);
      if endIdx == idx {
        Enlarge();
      }
    }

    /** Full: twice the room, with the front moved to slot 0. */
    method Enlarge()
      requires idx == endIdx < |queue| && AllBuffers(Around(queue, idx, endIdx))
      modifies this
      ensures Valid() && Contents() == old(Around(queue, idx, endIdx))
    {
      var size := |queue|;
      var order := queue[idx..] + queue[..endIdx];
      queue := order + NoBuffers(size);
      idx := 0;
      endIdx := size;
      assert queue[..size] == order;
    }

    /** The bytes of all buffers, added up around the ring. */
    method ByteLength() returns (n: nat)
      requires Valid()
      ensures n == Total(Contents())
    {
      n := 0;
      var i := idx;
      ghost var k := 0;
      assert Contents()[..0] == [];
      while i != endIdx
        invariant k <= |Contents()| && i == Wrap(idx + k, |queue|)
        invariant i == endIdx <==> k == |Contents()|
        invariant n == Total(Contents()[..k])
        decreases |Contents()| - k
      {
        HeldAt(queue, idx, endIdx, k);
        TotalPush(Contents(), k);
        n := n + |queue[i].value|;
        i := Wrap(i + 1, |queue|);
        k := k + 1;
      }
      assert Contents()[..k] == Contents();
    }
  }

  ghost function Total(s: seq<Slot>): nat
    requires AllBuffers(s)
  {
    if s == [] then 0 else Total(s[..|s| - 1]) + |s[|s| - 1].value|
  }

  lemma TotalPush(s: seq<Slot>, k: nat)
    requires AllBuffers(s) && k < |s|
    ensures Total(s[..k + 1]) == Total(s[..k]) + |s[k].value|
  {
    assert s[..k + 1][..k] == s[..k];
  }
}
