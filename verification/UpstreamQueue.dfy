/**
 * The queue of bytes on their way to the upstream server while the SOCKS5 negotiation holds
 * empty placeholder buffers in it. Each placeholder ("slot") stands for a message that cannot be
 * built before the server has answered the previous one.
 */
module UpstreamQueue {
  import opened Bytes

  /**
   * The queue `q` is `front` buffers still to be sent, then `slots` empty slots, then client
   * bytes. `sent` has left for the server. `released` are the negotiation messages put into the
   * queue so far and `stream` is what the server is to receive up to now.
   *
   * While there is a slot, what has left or may leave is `released` alone; without one it is
   * `stream`.
   */
  ghost predicate Slotted(q: seq<Bytes>, slots: nat, front: nat, sent: Bytes, released: Bytes, client: Bytes,
                          stream: Bytes) {
    && front + slots <= |q|
    && (forall i :: 0 <= i < |q| ==> (q[i] == [] <==> front <= i < front + slots))
    && (slots == 0 ==> front == 0 && sent + Flat(q) == stream)
    && (slots > 0 ==> front <= 1 && sent + Flat(q[..front]) == released && Flat(q[front + slots..]) == client)
  }

  /** The head of the queue is a slot exactly when every released byte has left. */
  lemma HeadIsSlot(q: seq<Bytes>, slots: nat, front: nat, sent: Bytes, released: Bytes, client: Bytes, stream: Bytes)
    requires Slotted(q, slots, front, sent, released, client, stream) && q != []
    ensures q[0] == [] <==> slots > 0 && front == 0
    ensures slots > 0 && q[0] == [] ==> sent == released
    ensures slots > 0 && q[0] != [] ==> sent != released
  {
    if slots > 0 && front == 1 {
      assert q[..1] == [q[0]];
      FlatOne(q[0]);
    }
  }

  function FrontAfterWrite(q: seq<Bytes>, slots: nat, front: nat, n: nat): nat
    requires q != []
  {
    if slots > 0 && front == 1 && n == |q[0]| then 0 else front
  }

  /** A write of any length keeps the order. */
  lemma WriteKeepsOrder(q: seq<Bytes>, slots: nat, front: nat, sent: Bytes, released: Bytes, client: Bytes,
                        stream: Bytes, n: nat)
    requires Slotted(q, slots, front, sent, released, client, stream)
    requires q != [] && q[0] != [] && n <= |q[0]|
    ensures Slotted(AfterWrite(q, n), slots, FrontAfterWrite(q, slots, front, n), sent + q[0][..n], released, client,
                    stream)
  {
    var r := AfterWrite(q, n);
    FlatDrain(q, n);
    if slots == 0 {
      Regroup(sent, q[0][..n], Flat(r));
    } else {
      assert front == 1 && q[..1] == [q[0]];
      FlatOne(q[0]);
      if n == |q[0]| {
        assert r[slots..] == q[1 + slots..];
        assert r[..0] == [];
      } else {
        assert r[..1] == [q[0][n..]];
        FlatOne(q[0][n..]);
        calc {
          sent + q[0][..n] + Flat(r[..1]);
          { Regroup(sent, q[0][..n], q[0][n..]); }
          sent + (q[0][..n] + q[0][n..]);
          { assert q[0][..n] + q[0][n..] == q[0]; }
          released;
        }
        assert r[1 + slots..] == q[1 + slots..];
      }
    }
  }

  /** Client bytes queue up behind everything else. */
  lemma PushKeepsOrder(q: seq<Bytes>, slots: nat, front: nat, sent: Bytes, released: Bytes, client: Bytes,
                       stream: Bytes, b: Bytes)
    requires Slotted(q, slots, front, sent, released, client, stream) && b != []
    ensures Slotted(q + [b], slots, front, sent, released, client + b, stream + b)
  {
    if slots == 0 {
      FlatPush(q, b);
      Regroup(sent, Flat(q), b);
    } else {
      assert (q + [b])[..front] == q[..front];
      assert (q + [b])[front + slots..] == q[front + slots..] + [b];
      FlatPush(q[front + slots..], b);
    }
  }

  /** The message built for the slot at the head takes its place before all client bytes. */
  lemma FillKeepsOrder(q: seq<Bytes>, slots: nat, sent: Bytes, released: Bytes, client: Bytes, stream: Bytes, m: Bytes)
    requires Slotted(q, slots, 0, sent, released, client, stream) && slots > 0 && m != []
    ensures Slotted([m] + q[1..], slots - 1, if slots > 1 then 1 else 0, sent, released + m, client,
                    released + m + client)
  {
    var r := [m] + q[1..];
    assert q[..0] == [];
    if slots == 1 {
      assert r[1..] == q[1..];
      calc {
        sent + Flat(r);
        sent + (m + client);
        { Regroup(sent, m, client); }
        released + m + client;
      }
    } else {
      assert r[..1] == [m];
      FlatOne(m);
      assert r[slots..] == q[slots..];
    }
  }
}
