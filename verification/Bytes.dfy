/** Byte strings, queues of byte buffers, and the option type the other modules share. */
module Bytes {
  type byte = x: int | 0 <= x < 256

  type Bytes = seq<byte>

  /** The most one read from a socket returns. */
  const SOCKET_BUF_SIZE: nat := 17 * 1024

  datatype Option<+T> = None | Some(value: T)

  /**
   * Some invariants of a value `v` are stated for every `Opened(k, v)`. They stay a single fact
   * until an `Opened` term for that value is at hand, that is in the lemmas that need the inside.
   */
  predicate Opened<T>(k: int, v: T) {
    k == k
  }

  /** The bytes a queue of buffers holds, front buffer first. */
  function Flat(q: seq<Bytes>): Bytes {
    if q == [] then [] else q[0] + Flat(q[1..])
  }

  ghost predicate NoEmpty(q: seq<Bytes>) {
    forall i :: 0 <= i < |q| ==> q[i] != []
  }

  ghost predicate IsPrefix(a: Bytes, b: Bytes) {
    |a| <= |b| && b[..|a|] == a
  }

  /** Regrouping a concatenation; called where the solver should not search for it. */
  lemma Regroup<T>(a: seq<T>, b: seq<T>, c: seq<T>)
    ensures a + (b + c) == (a + b) + c
  {
  }

  lemma {:induction false} FlatConcat(a: seq<Bytes>, b: seq<Bytes>)
    ensures Flat(a + b) == Flat(a) + Flat(b)
  {
    if a == [] {
      assert a + b == b;
    } else {
      assert (a + b)[1..] == a[1..] + b;
      calc {
        Flat(a + b);
        a[0] + Flat(a[1..] + b);
        { FlatConcat(a[1..], b); }
        a[0] + (Flat(a[1..]) + Flat(b));
        Flat(a) + Flat(b);
      }
    }
  }

  lemma FlatOne(b: Bytes)
    ensures Flat([b]) == b
  {
    assert Flat([b]) == b + Flat([]);
  }

  lemma FlatPush(q: seq<Bytes>, b: Bytes)
    ensures Flat(q + [b]) == Flat(q) + b
  {
    FlatConcat(q, [b]);
    FlatOne(b);
  }

  /** Writing `n` bytes of the front buffer moves exactly those bytes out of the queue. */
  lemma FlatDrain(q: seq<Bytes>, n: nat)
    requires q != [] && n <= |q[0]|
    ensures Flat(q) == q[0][..n] + Flat([q[0][n..]] + q[1..])
    ensures n == |q[0]| ==> Flat(q) == q[0] + Flat(q[1..])
  {
    var a, b, rest := q[0][..n], q[0][n..], q[1..];
    calc {
      Flat(q);
      { assert q[0] == a + b; }
      (a + b) + Flat(rest);
      { Regroup(a, b, Flat(rest)); }
      a + (b + Flat(rest));
      { assert ([b] + rest)[1..] == rest; }
      a + Flat([b] + rest);
    }
  }

  /** Appending to the last buffer in place is appending to the queue's bytes. */
  lemma FlatExtendBack(q: seq<Bytes>, b: Bytes)
    requires q != []
    ensures Flat(q[|q| - 1 := q[|q| - 1] + b]) == Flat(q) + b
  {
    var k := |q| - 1;
    assert q == q[..k] + [q[k]];
    assert q[k := q[k] + b] == q[..k] + [q[k] + b];
    FlatPush(q[..k], q[k]);
    FlatPush(q[..k], q[k] + b);
  }

  lemma DropChain(a: Bytes, b: Bytes, c: Bytes)
    requires a <= b <= c
    ensures a <= c && c[|a|..] == b[|a|..] + c[|b|..]
  {
    assert c == b + c[|b|..] == a + b[|a|..] + c[|b|..];
  }

  lemma PrefixOfSum(a: Bytes, b: Bytes, c: Bytes)
    requires IsPrefix(a, b)
    ensures IsPrefix(a, b + c)
  {
    assert (b + c)[..|a|] == b[..|a|];
  }

  lemma PrefixTrans(a: Bytes, b: Bytes, c: Bytes)
    requires IsPrefix(a, b) && IsPrefix(b, c)
    ensures IsPrefix(a, c)
  {
    assert c[..|a|] == c[..|b|][..|a|];
  }

  /** Of the bytes `pushed` into a queue ever, `sent` have left it and `q` has the rest. */
  ghost predicate Fifo(sent: Bytes, q: seq<Bytes>, pushed: Bytes) {
    forall k :: Opened(k, (sent, q, pushed)) ==> sent + Flat(q) == pushed && NoEmpty(q)
  }

  function AfterWrite(q: seq<Bytes>, n: nat): seq<Bytes>
    requires q != [] && n <= |q[0]|
  {
    if n == |q[0]| then q[1..] else [q[0][n..]] + q[1..]
  }

  lemma FifoWrite(sent: Bytes, q: seq<Bytes>, pushed: Bytes, n: nat)
    requires Fifo(sent, q, pushed) && q != [] && n <= |q[0]|
    ensures Fifo(sent + q[0][..n], AfterWrite(q, n), pushed)
  {
    assert Opened(0, (sent, q, pushed));
    FlatDrain(q, n);
    Regroup(sent, q[0][..n], Flat(AfterWrite(q, n)));
  }

  lemma FifoPush(sent: Bytes, q: seq<Bytes>, pushed: Bytes, b: Bytes)
    requires Fifo(sent, q, pushed) && b != []
    ensures Fifo(sent, q + [b], pushed + b)
  {
    assert Opened(0, (sent, q, pushed));
    FlatPush(q, b);
    Regroup(sent, Flat(q), b);
  }

  lemma FifoFacts(sent: Bytes, q: seq<Bytes>, pushed: Bytes)
    requires Fifo(sent, q, pushed)
    ensures NoEmpty(q) && IsPrefix(sent, pushed)
    ensures sent == pushed <==> q == []
  {
    assert Opened(0, (sent, q, pushed));
    if q != [] {
      assert |Flat(q)| >= |q[0]|;
    }
  }
}
