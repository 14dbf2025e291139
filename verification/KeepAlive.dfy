/**
 * HTTP/1.1 keep-alive: every request on a reused connection gets its header rewritten, and the
 * body is counted so that the next header is found.
 */
module KeepAlive {
  import opened Bytes

  const kIncompleteLimit: nat := 64 * 1024
  const TLSEXT_MAXLEN_host_name: nat := 255

  // ---------------------------------------------------------------- the header rewrite

  /** A growable buffer: `mem` is its whole capacity, the contents start at `offset`. */
  datatype Buffer = Buffer(mem: Bytes, offset: nat)
  {
    predicate Valid() {
      offset <= |mem|
    }

    function Size(): nat
      requires Valid()
    {
      |mem| - offset
    }

    function Contents(): Bytes
      requires Valid()
    {
      mem[offset..]
    }

    /** New memory holds whatever bytes `fill` gives. */
    function SetCapacity(capacity: nat, fill: nat -> byte): Buffer {
      if capacity == |mem| then this
      else if capacity < |mem| then Buffer(mem[..capacity], offset)
      else Buffer(mem + seq<byte>(capacity - |mem|, fill), offset)
    }

    /** Moves `n` bytes inside the buffer; what would land behind its end is lost. */
    function Move(to: nat, from: nat, n: nat): Buffer
      requires from + n <= |mem| && to <= |mem|
    {
      var fits := if to + n <= |mem| then n else |mem| - to;
      Buffer(mem[..to] + mem[from..from + fits] + mem[to + fits..], offset)
    }
  }

  /** The buffer behind the parsed bytes, with room for the new header. */
  function Grown(buf: Buffer, nparsed: nat, header: Bytes, fill: nat -> byte): (r: Buffer)
    requires buf.Valid() && nparsed <= buf.Size()
    ensures r.Valid() && r.offset == buf.offset + nparsed && |r.mem| >= |header|
  {
    var parsed := buf.(offset := buf.offset + nparsed);
    var room := if nparsed > |header| then nparsed else |header|;
    parsed.SetCapacity(buf.offset + room + parsed.Size(), fill)
  }

  /** Replaces the first `nparsed` bytes of the contents by `header`, in place. */
  function Rewrite(buf: Buffer, nparsed: nat, header: Bytes, fill: nat -> byte): Buffer
    requires buf.Valid() && nparsed <= buf.Size()
  {
    var grown := Grown(buf, nparsed, header, fill);
    var size := grown.Size();
    var moved := grown.Move(|header|, grown.offset, size);
    var cut := moved.(offset := 0).SetCapacity(|header| + size, fill);
    Buffer(header + cut.mem[|header|..], 0)
  }

  /** With no need to grow, the payload moves down and the header goes in front of it. */
  lemma RewriteInPlace(buf: Buffer, nparsed: nat, header: Bytes, fill: nat -> byte)
    requires buf.Valid() && nparsed <= buf.Size() && |header| <= nparsed
    ensures Rewrite(buf, nparsed, header, fill) == Buffer(header + buf.Contents()[nparsed..], 0)
  {
    var from, h := buf.offset + nparsed, |header|;
    var t := |buf.mem| - from;
    var moved := buf.mem[..h] + buf.mem[from..from + t] + buf.mem[h + t..];
    MovedDown(buf.mem, h, from, t);
    var cut := Buffer(moved, 0).SetCapacity(h + t, fill);
    assert cut.mem[h..] == moved[h..h + t];
    assert buf.Contents()[nparsed..] == buf.mem[from..];
    assert Rewrite(buf, nparsed, header, fill) == Buffer(header + cut.mem[h..], 0);
  }

  lemma MovedDown(mem: Bytes, to: nat, from: nat, n: nat)
    requires to <= from && from + n == |mem|
    ensures var r := mem[..to] + mem[from..from + n] + mem[to + n..];
            |r| == |mem| && r[to..to + n] == mem[from..]
  {
    assert mem[from..from + n] == mem[from..];
  }

  /** Measured after growing, the payload comes out too long by as much as the buffer grew. */
  lemma RewriteGrown(buf: Buffer, nparsed: nat, header: Bytes, fill: nat -> byte)
    requires buf.Valid() && nparsed <= buf.Size() && |header| > nparsed
    ensures var r := Rewrite(buf, nparsed, header, fill);
            r.offset == 0 && |r.mem| == |header| + (buf.Size() - nparsed) + (|header| - nparsed)
  {
  }

  /** But it is all there, behind the header. */
  lemma RewriteGrownHolds(buf: Buffer, nparsed: nat, header: Bytes, fill: nat -> byte)
    requires buf.Valid() && nparsed <= buf.Size() && |header| > nparsed
    ensures header + buf.Contents()[nparsed..] <= Rewrite(buf, nparsed, header, fill).mem
  {
    var h, from, payload := |header|, buf.offset + nparsed, buf.Contents()[nparsed..];
    var grown := Grown(buf, nparsed, header, fill);
    GrownHolds(buf, nparsed, header, fill);
    var size := grown.Size();
    MovedUp(grown.mem, h, from, size, |payload|);
    CutKeeps(grown.Move(h, from, size), h, size, payload, fill);
    HeaderInFront(header, grown.Move(h, from, size).(offset := 0).SetCapacity(h + size, fill).mem, payload);
  }

  lemma GrownHolds(buf: Buffer, nparsed: nat, header: Bytes, fill: nat -> byte)
    requires buf.Valid() && nparsed <= buf.Size() && |header| > nparsed
    ensures var grown, from := Grown(buf, nparsed, header, fill), buf.offset + nparsed;
            var payload := buf.Contents()[nparsed..];
            && grown.offset == from && |grown.mem| == buf.offset + |header| + |payload|
            && from + |payload| <= |grown.mem| && grown.mem[from..from + |payload|] == payload
  {
  }

  lemma CutKeeps(moved: Buffer, h: nat, size: nat, payload: Bytes, fill: nat -> byte)
    requires |payload| <= size && h + |payload| <= |moved.mem| && moved.mem[h..h + |payload|] == payload
    ensures var cut := moved.(offset := 0).SetCapacity(h + size, fill).mem;
            |cut| == h + size && cut[h..h + |payload|] == payload
  {
  }

  lemma HeaderInFront(header: Bytes, cut: Bytes, payload: Bytes)
    requires |header| + |payload| <= |cut| && cut[|header|..|header| + |payload|] == payload
    ensures header + payload <= header + cut[|header|..]
  {
    assert cut[|header|..][..|payload|] == payload;
  }

  /** Of the bytes moved, the first `k` arrive if there is room for them. */
  lemma MovedUp(mem: Bytes, to: nat, from: nat, n: nat, k: nat)
    requires from + n <= |mem| && k <= n && to + k <= |mem|
    ensures var r := Buffer(mem, 0).Move(to, from, n).mem;
            |r| == |mem| && r[to..to + k] == mem[from..from + k]
  {
    var fits := if to + n <= |mem| then n else |mem| - to;
    MiddleOf(mem[..to], mem[from..from + fits], mem[to + fits..], k);
    assert mem[from..from + fits][..k] == mem[from..from + k];
  }

  lemma MiddleOf(a: Bytes, b: Bytes, c: Bytes, k: nat)
    requires k <= |b|
    ensures (a + b + c)[|a|..|a| + k] == b[..k]
  {
  }

  /** The rewrite is exact if and only if the new header is not longer than the parsed one. */
  lemma RewriteExact(buf: Buffer, nparsed: nat, header: Bytes, fill: nat -> byte)
    requires buf.Valid() && nparsed <= buf.Size()
    ensures var r := Rewrite(buf, nparsed, header, fill);
            && r.Valid()
            && header + buf.Contents()[nparsed..] <= r.Contents()
            && (r.Contents() == header + buf.Contents()[nparsed..] <==> |header| <= nparsed)
            && r.Size() == |header| + (buf.Size() - nparsed) + (if |header| > nparsed then |header| - nparsed else 0)
  {
    if |header| <= nparsed {
      RewriteInPlace(buf, nparsed, header, fill);
    } else {
      RewriteGrown(buf, nparsed, header, fill);
      RewriteGrownHolds(buf, nparsed, header, fill);
    }
  }

  /** The move stays inside the buffer if and only if the header grows by no more than the offset. */
  lemma RewriteInBounds(buf: Buffer, nparsed: nat, header: Bytes, fill: nat -> byte)
    requires buf.Valid() && nparsed <= buf.Size()
    ensures var grown := Grown(buf, nparsed, header, fill);
            |header| + grown.Size() <= |grown.mem| <==> |header| <= nparsed + buf.offset
  {
  }

  // ---------------------------------------------------------------- the reference

  /** What the request parser reports for a header at the front of a buffer. */
  datatype Request = Request(
    nparsed: nat,
    header: Bytes,
    contentLength: nat,
    keepAlive: bool,
    isConnect: bool,
    chunked: bool,
    destination: HostPort)

  datatype HostPort = HostPort(host: string, port: nat)

  type Parser = Bytes -> Option<Request>

  /** What the n-th lookup makes of a host: an address in its printed form, or the name itself. */
  type Resolver = (nat, HostPort) -> HostPort

  /** A host that every lookup leaves as it is. */
  ghost predicate Canonical(resolve: Resolver, h: HostPort) {
    forall n :: resolve(n, h) == h
  }

  /** What a lookup gives is canonical: a printed address reads back as that address. */
  ghost predicate Addressed(resolve: Resolver) {
    forall n, h :: Canonical(resolve, resolve(n, h))
  }

  /** The hosts a channel can be asked for. */
  predicate Connectable(h: HostPort) {
    0 < |h.host| <= TLSEXT_MAXLEN_host_name && h.port != 0
  }

  /** A header is found only when all of it is there, and bytes behind it do not matter. */
  ghost predicate SelfDelimiting(parse: Parser) {
    && (forall s: Bytes :: parse(s).Some? ==> 1 <= parse(s).value.nparsed <= |s|)
    && (forall s: Bytes, t: Bytes {:trigger parse(s + t)} :: parse(s).Some? ==> parse(s + t) == parse(s))
  }

  /** A request the keep-alive rules are meant for, to the destination the connection has. */
  predicate Plain(r: Request, destination: HostPort) {
    r.keepAlive && !r.isConnect && !r.chunked && r.destination == destination && |r.header| <= r.nparsed
  }

  predicate IsRequest(parse: Parser, s: Bytes) {
    parse(s).Some? && !parse(s).value.isConnect
  }

  predicate Elsewhere(parse: Parser, destination: HostPort, s: Bytes) {
    IsRequest(parse, s) && parse(s).value.destination != destination
  }

  /** A request that stays on the channel and ends keep-alive handling: a closing or chunked one. */
  predicate Last(parse: Parser, destination: HostPort, s: Bytes) {
    && IsRequest(parse, s) && parse(s).value.destination == destination
    && |parse(s).value.header| <= parse(s).value.nparsed <= |s|
    && (!parse(s).value.keepAlive || parse(s).value.chunked)
  }

  /**
   * What goes up of a buffer that starts with such a request: all of it, unless it claims to be
   * kept alive and has bytes behind its announced length.
   */
  function LastUp(parse: Parser, s: Bytes): Bytes
    requires parse(s).Some? && parse(s).value.nparsed <= |s|
  {
    var r, payload := parse(s).value, s[parse(s).value.nparsed..];
    r.header + (if r.keepAlive && r.contentLength < |payload| then payload[..r.contentLength] else payload)
  }

  /**
   * How a stretch of the client's bytes ends: with `remaining` bytes of a body to come, with the
   * first bytes `rest` of a header, or where `rest` starts with a request that is not `Plain`.
   */
  datatype Ending = Whole(remaining: nat) | Cut(rest: Bytes) | Odd(rest: Bytes)

  datatype Framing = Framing(out: Bytes, ending: Ending)

  function Before(out: Bytes, f: Framing): Framing {
    f.(out := out + f.out)
  }

  /**
   * The simple rule: a rewritten header, then as many body bytes as it announces, then the next
   * header; `remaining` body bytes are still due at the start.
   */
  ghost function Follow(parse: Parser, dest: HostPort, remaining: nat, s: Bytes): Framing
    requires SelfDelimiting(parse)
    decreases |s|
  {
    if s == [] then Framing([], Whole(remaining))
    else if remaining > 0 then
      var n := if remaining < |s| then remaining else |s|;
      Before(s[..n], Follow(parse, dest, remaining - n, s[n..]))
    else
      match parse(s)
      case None => Framing([], Cut(s))
      case Some(r) =>
        if !Plain(r, dest) then Framing([], Odd(s))
        else Before(r.header, Follow(parse, dest, r.contentLength, s[r.nparsed..]))
  }

  /** What goes up of a stretch: by the rule, and then the last request if the rule ends at one. */
  ghost function GoesUp(parse: Parser, dest: HostPort, remaining: nat, s: Bytes): Bytes
    requires SelfDelimiting(parse)
  {
    var f := Follow(parse, dest, remaining, s);
    f.out + if f.ending.Odd? && Last(parse, dest, f.ending.rest) then LastUp(parse, f.ending.rest) else []
  }

  lemma BeforeTwice(a: Bytes, b: Bytes, f: Framing)
    ensures Before(a, Before(b, f)) == Before(a + b, f)
  {
    Regroup(a, b, f.out);
  }

  /** The first whole piece of a stretch: a header, or the end of a body. */
  lemma FirstPiece(parse: Parser, dest: HostPort, remaining: nat, s: Bytes, t: Bytes)
    requires SelfDelimiting(parse) && s != [] && remaining < |s|
    requires remaining == 0 ==> parse(s).Some? && Plain(parse(s).value, dest)
    ensures var n := if remaining > 0 then remaining else parse(s).value.nparsed;
            var first := if remaining > 0 then s[..n] else parse(s).value.header;
            var due := if remaining > 0 then 0 else parse(s).value.contentLength;
            && Follow(parse, dest, remaining, s) == Before(first, Follow(parse, dest, due, s[n..]))
            && Follow(parse, dest, remaining, s + t) == Before(first, Follow(parse, dest, due, s[n..] + t))
  {
    if remaining > 0 {
      assert (s + t)[remaining..] == s[remaining..] + t && (s + t)[..remaining] == s[..remaining];
    } else {
      var n := parse(s).value.nparsed;
      assert parse(s + t) == parse(s);
      assert (s + t)[n..] == s[n..] + t;
    }
  }

  /** A stretch that does not end inside a header can be followed by another. */
  lemma {:induction false} FollowOn(parse: Parser, dest: HostPort, remaining: nat, s: Bytes, t: Bytes)
    requires SelfDelimiting(parse) && Follow(parse, dest, remaining, s).ending.Whole?
    ensures var f := Follow(parse, dest, remaining, s);
            Follow(parse, dest, remaining, s + t) == Before(f.out, Follow(parse, dest, f.ending.remaining, t))
    decreases |s|
  {
    var f := Follow(parse, dest, remaining, s);
    if s == [] {
      assert s + t == t;
      assert [] + Follow(parse, dest, remaining, t).out == Follow(parse, dest, remaining, t).out;
    } else if remaining >= |s| {
      FollowBody(parse, dest, remaining, s, t);
    } else {
      FirstPiece(parse, dest, remaining, s, t);
      var n := if remaining > 0 then remaining else parse(s).value.nparsed;
      var due := if remaining > 0 then 0 else parse(s).value.contentLength;
      FollowOn(parse, dest, due, s[n..], t);
      BeforeTwice(if remaining > 0 then s[..n] else parse(s).value.header,
                  Follow(parse, dest, due, s[n..]).out, Follow(parse, dest, f.ending.remaining, t));
    }
  }

  /** Body bytes that do not reach the end of the body. */
  lemma FollowBody(parse: Parser, dest: HostPort, remaining: nat, s: Bytes, t: Bytes)
    requires SelfDelimiting(parse) && s != [] && remaining >= |s|
    ensures Follow(parse, dest, remaining, s) == Framing(s, Whole(remaining - |s|))
    ensures Follow(parse, dest, remaining, s + t) == Before(s, Follow(parse, dest, remaining - |s|, t))
  {
    BodyOnly(parse, dest, remaining, s);
    if t == [] {
      assert s + t == s && s + [] == s;
    } else if remaining == |s| {
      assert (s + t)[..|s|] == s && (s + t)[|s|..] == t;
    } else {
      BodyGoesOn(parse, dest, remaining, s, t);
    }
  }

  lemma BodyOnly(parse: Parser, dest: HostPort, remaining: nat, s: Bytes)
    requires SelfDelimiting(parse) && s != [] && remaining >= |s|
    ensures Follow(parse, dest, remaining, s) == Framing(s, Whole(remaining - |s|))
  {
    assert s[..|s|] == s && s[|s|..] == [] && s + [] == s;
    assert Follow(parse, dest, remaining - |s|, []) == Framing([], Whole(remaining - |s|));
  }

  lemma BodyGoesOn(parse: Parser, dest: HostPort, remaining: nat, s: Bytes, t: Bytes)
    requires SelfDelimiting(parse) && s != [] && t != [] && remaining > |s|
    ensures Follow(parse, dest, remaining, s + t) == Before(s, Follow(parse, dest, remaining - |s|, t))
  {
    var n := if remaining < |s + t| then remaining else |s + t|;
    var m := n - |s|;
    calc {
      Follow(parse, dest, remaining, s + t);
      Before((s + t)[..n], Follow(parse, dest, remaining - n, (s + t)[n..]));
      { assert (s + t)[..n] == s + t[..m] && (s + t)[n..] == t[m..]; }
      Before(s + t[..m], Follow(parse, dest, remaining - n, t[m..]));
      { BeforeTwice(s, t[..m], Follow(parse, dest, remaining - n, t[m..])); }
      Before(s, Before(t[..m], Follow(parse, dest, remaining - n, t[m..])));
      Before(s, Follow(parse, dest, remaining - |s|, t));
    }
  }

  /** A request as the client writes it: header bytes, and a body of the announced length. */
  datatype Message = Message(head: Bytes, body: Bytes)

  ghost predicate WellFormed(parse: Parser, dest: HostPort, m: Message) {
    && m.head != []
    && parse(m.head).Some?
    && parse(m.head).value.nparsed == |m.head|
    && parse(m.head).value.contentLength == |m.body|
    && Plain(parse(m.head).value, dest)
  }

  ghost predicate Session(parse: Parser, dest: HostPort, ms: seq<Message>) {
    forall i :: 0 <= i < |ms| ==> WellFormed(parse, dest, ms[i])
  }

  ghost function Written(ms: seq<Message>): Bytes {
    if ms == [] then [] else ms[0].head + (ms[0].body + Written(ms[1..]))
  }

  /** What the server is to get: each rewritten header, followed by exactly its body. */
  ghost function Reframed(parse: Parser, dest: HostPort, ms: seq<Message>): Bytes
    requires Session(parse, dest, ms)
  {
    if ms == [] then [] else parse(ms[0].head).value.header + (ms[0].body + Reframed(parse, dest, ms[1..]))
  }

  /** The rule applied to a session, read in one piece, frames it request by request. */
  lemma {:induction false} SessionFramed(parse: Parser, dest: HostPort, ms: seq<Message>)
    requires SelfDelimiting(parse) && Session(parse, dest, ms)
    ensures Follow(parse, dest, 0, Written(ms)) == Framing(Reframed(parse, dest, ms), Whole(0))
  {
    if ms != [] {
      var m, rest := ms[0], Written(ms[1..]);
      assert WellFormed(parse, dest, m);
      SessionFramed(parse, dest, ms[1..]);
      HeaderFollowed(parse, dest, m.head, m.body + rest);
      if m.body == [] {
        assert m.body + rest == rest;
        assert [] + Reframed(parse, dest, ms[1..]) == Reframed(parse, dest, ms[1..]);
      } else {
        FollowBody(parse, dest, |m.body|, m.body, rest);
      }
    }
  }

  lemma HeaderFollowed(parse: Parser, dest: HostPort, head: Bytes, t: Bytes)
    requires SelfDelimiting(parse) && head != [] && parse(head).Some?
    requires parse(head).value.nparsed == |head| && Plain(parse(head).value, dest)
    ensures var r := parse(head).value;
            Follow(parse, dest, 0, head + t) == Before(r.header, Follow(parse, dest, r.contentLength, t))
  {
    assert parse(head + t) == parse(head);
    assert (head + t)[|head|..] == t;
  }

  /** A header, and as much of its body as is there; the rest is followed on its own. */
  lemma RequestFollowed(parse: Parser, dest: HostPort, s: Bytes)
    requires SelfDelimiting(parse) && s != [] && parse(s).Some? && Plain(parse(s).value, dest)
    ensures var r := parse(s).value;
            var payload := s[r.nparsed..];
            var n := if r.contentLength < |payload| then r.contentLength else |payload|;
            Follow(parse, dest, 0, s)
            == Before(r.header + payload[..n], Follow(parse, dest, r.contentLength - n, payload[n..]))
  {
    var r := parse(s).value;
    var payload := s[r.nparsed..];
    var n := if r.contentLength < |payload| then r.contentLength else |payload|;
    if n == 0 {
      assert payload[..0] == [] && payload[0..] == payload && r.header + [] == r.header;
    } else {
      BeforeTwice(r.header, payload[..n], Follow(parse, dest, r.contentLength - n, payload[n..]));
    }
  }

  /** What the rewrite of a buffer that starts with `r` may leave in it. */
  ghost predicate IsRewritten(buf: Bytes, r: Request, all: Bytes) {
    && r.nparsed <= |buf|
    && |all| == |r.header| + (|buf| - r.nparsed) + (if |r.header| > r.nparsed then |r.header| - r.nparsed else 0)
    && r.header + buf[r.nparsed..] <= all
    && (all == r.header + buf[r.nparsed..] <==> |r.header| <= r.nparsed)
  }

  method RewriteHeader(buf: Bytes, r: Request, fill: nat -> byte) returns (all: Bytes)
    requires r.nparsed <= |buf|
    ensures IsRewritten(buf, r, all)
  {
    RewriteExact(Buffer(buf, 0), r.nparsed, r.header, fill);
    all := Rewrite(Buffer(buf, 0), r.nparsed, r.header, fill).Contents();
  }

  /** The last request, rewritten and split, is what goes up. */
  lemma LastIsUp(parse: Parser, buf: Bytes, all: Bytes, out: Bytes)
    requires parse(buf).Some? && |parse(buf).value.header| <= parse(buf).value.nparsed
    requires IsRewritten(buf, parse(buf).value, all)
    requires var r := parse(buf).value;
             var size := r.contentLength + |r.header|;
             out == if r.keepAlive && size < |all| then all[..size] else all
    ensures out == LastUp(parse, buf)
  {
    var r := parse(buf).value;
    SplitBehindRequest(buf, r, all);
  }

  /** Splitting the rewritten buffer behind the request leaves header, body and what follows. */
  lemma SplitBehindRequest(buf: Bytes, r: Request, all: Bytes)
    requires IsRewritten(buf, r, all) && |r.header| <= r.nparsed
    ensures var payload := buf[r.nparsed..];
            var size := r.contentLength + |r.header|;
            && (size < |all| ==>
                  && all[..size] == r.header + payload[..r.contentLength]
                  && all[size..] == payload[r.contentLength..])
            && (size >= |all| ==> all == r.header + payload[..|payload|] && payload[|payload|..] == [])
            && size - |all| == r.contentLength - |payload|
  {
    var payload := buf[r.nparsed..];
    assert payload[..|payload|] == payload;
  }

  /** Following `s` with `due` body bytes to come is: `sent`, then following `rest` with `due'`. */
  ghost predicate OneStep(parse: Parser, dest: HostPort, due: nat, s: Bytes, sent: Bytes, due': nat, rest: Bytes)
    requires SelfDelimiting(parse)
  {
    forall k :: Opened(k, (due, s, sent, due', rest)) ==>
      |rest| < |s| && Follow(parse, dest, due, s) == Before(sent, Follow(parse, dest, due', rest))
  }

  lemma StepOverRequest(parse: Parser, dest: HostPort, s: Bytes)
    requires SelfDelimiting(parse) && s != [] && parse(s).Some? && Plain(parse(s).value, dest)
    ensures var r := parse(s).value;
            var payload := s[r.nparsed..];
            var n := if r.contentLength < |payload| then r.contentLength else |payload|;
            OneStep(parse, dest, 0, s, r.header + payload[..n], r.contentLength - n, payload[n..])
  {
    RequestFollowed(parse, dest, s);
  }

  lemma StepOverBody(parse: Parser, dest: HostPort, due: nat, s: Bytes)
    requires SelfDelimiting(parse) && s != [] && due > 0
    ensures due < |s| ==> OneStep(parse, dest, due, s, s[..due], 0, s[due..])
    ensures due >= |s| ==> OneStep(parse, dest, due, s, s, due - |s|, [])
  {
    if due < |s| {
      FirstPiece(parse, dest, due, s, []);
    } else {
      FollowBody(parse, dest, due, s, []);
      assert s + [] == s;
    }
  }

  /** Of following `all` from `due0`, `acc` is done; `due` and `rest` say how it goes on. */
  ghost predicate Progress(parse: Parser, dest: HostPort, due0: nat, all: Bytes, acc: Bytes, due: nat, rest: Bytes)
    requires SelfDelimiting(parse)
  {
    forall k :: Opened(k, (due0, all, acc, due, rest)) ==>
      Follow(parse, dest, due0, all) == Before(acc, Follow(parse, dest, due, rest))
  }

  lemma ProgressStart(parse: Parser, dest: HostPort, due: nat, all: Bytes)
    requires SelfDelimiting(parse)
    ensures Progress(parse, dest, due, all, [], due, all)
  {
    assert [] + Follow(parse, dest, due, all).out == Follow(parse, dest, due, all).out;
  }

  lemma ProgressStep(parse: Parser, dest: HostPort, due0: nat, all: Bytes, acc: Bytes, due: nat, rest: Bytes,
                     sent: Bytes, due': nat, rest': Bytes)
    requires SelfDelimiting(parse)
    requires Progress(parse, dest, due0, all, acc, due, rest) && OneStep(parse, dest, due, rest, sent, due', rest')
    ensures Progress(parse, dest, due0, all, acc + sent, due', rest') && |rest'| < |rest|
  {
    assert Opened(0, (due0, all, acc, due, rest)) && Opened(0, (due, rest, sent, due', rest'));
    BeforeTwice(acc, sent, Follow(parse, dest, due', rest'));
  }

  /** Where a stretch goes on after a body, it is with a plain request, an odd one, or a cut header. */
  lemma ProgressPlain(parse: Parser, dest: HostPort, due0: nat, all: Bytes, acc: Bytes, rest: Bytes)
    requires SelfDelimiting(parse) && Progress(parse, dest, due0, all, acc, 0, rest) && rest != []
    ensures parse(rest).None? ==> Follow(parse, dest, due0, all) == Framing(acc, Cut(rest))
    ensures parse(rest).Some? && !Plain(parse(rest).value, dest) ==>
      Follow(parse, dest, due0, all) == Framing(acc, Odd(rest))
  {
    var zero: nat := 0;
    assert Opened(0, (due0, all, acc, zero, rest));
    assert acc + [] == acc;
  }

  lemma ProgressEnd(parse: Parser, dest: HostPort, due0: nat, all: Bytes, acc: Bytes, due: nat)
    requires SelfDelimiting(parse) && Progress(parse, dest, due0, all, acc, due, [])
    ensures Follow(parse, dest, due0, all) == Framing(acc, Whole(due))
  {
    var none: Bytes := [];
    assert Opened(0, (due0, all, acc, due, none));
    assert acc + [] == acc;
  }

  // ---------------------------------------------------------------- the connection

  /**
   * `Queued`: a buffer went upstream; `TryAgain`: no buffer now; `Stalled`: an error that nobody
   * handles; `NoBuffer`: a refusal whose handler looks at a buffer that has been handed over.
   */
  datatype Outcome = Queued | TryAgain | InvalidArgument | Stalled | NoBuffer

  class KeepAliveConnection {
    const parse: Parser
    const resolve: Resolver

    var keepAlive: bool
    var remaining: int
    var pendingBuf: Option<Bytes>
    var previousBuf: Option<Bytes>
    var isConnect: bool
    var host: HostPort
    var request: HostPort
    var lookups: nat

    /** The client was turned away, or the code went on without a buffer. */
    var ended: bool

    /** Whether the channel is established, and the queues before and behind it. */
    var connected: bool
    var pendingData: seq<Bytes>
    var upstream: seq<Bytes>

    /**
     * Holds in every reachable state, chunked and unparsable requests included. The host of the
     * last request is the one connected to exactly if it is canonical.
     */
    ghost predicate Valid()
      reads this
    {
      && Addressed(resolve)
      && (pendingBuf.Some? ==> remaining == 0 && pendingBuf.value != [])
      && (keepAlive ==> remaining >= 0)
      && (previousBuf.Some? ==> !keepAlive)
      && (keepAlive && !ended ==> Asked())
    }

    /** The bytes read but not looked at yet. */
    function Pending(): Bytes
      reads this
    {
      if pendingBuf.Some? then pendingBuf.value else []
    }

    constructor (parse: Parser, resolve: Resolver)
      requires Addressed(resolve)
      ensures this.parse == parse && this.resolve == resolve && Unopened()
    {
      this.parse, this.resolve := parse, resolve;
      keepAlive, remaining, pendingBuf, previousBuf, isConnect := false, 0, None, None, false;
      host, request, lookups, ended := HostPort("", 0), HostPort("", 0), 0, false;
      connected, pendingData, upstream := false, [], [];
    }

    /**
     * Parses and rewrites the request at the front of `buf`. Of a buffer that holds more than the
     * request, the rest is set aside; a chunked request ends keep-alive handling after that.
     */
    method OnReadHttpRequest(buf: Bytes, fill: nat -> byte) returns (ok: bool, out: Bytes, ghost all: Bytes)
      requires remaining == 0 && pendingBuf.None? && SelfDelimiting(parse)
      modifies this`keepAlive, this`remaining, this`pendingBuf, this`isConnect, this`host
      ensures ok == parse(buf).Some?
      ensures !ok ==>
        out == buf && !keepAlive && remaining == 0 && pendingBuf.None? && unchanged(this`isConnect, this`host)
      ensures ok ==> isConnect == parse(buf).value.isConnect && host == parse(buf).value.destination
      ensures ok && isConnect ==>
        out == buf[parse(buf).value.nparsed..] && !keepAlive && remaining == 0 && pendingBuf.None?
      ensures ok && !isConnect ==> IsRewritten(buf, parse(buf).value, all) && SplitOff(parse(buf).value, all, out)
      ensures ok && Plain(parse(buf).value, host) ==> HeaderAndBody(buf, parse(buf).value, out)
      ensures Stranded() <==>
        && ok && !isConnect && parse(buf).value.keepAlive && parse(buf).value.chunked
        && parse(buf).value.contentLength + |parse(buf).value.header| < |all|
    {
      out, all := buf, [];
      keepAlive := false;
      remaining := 0;
      ok := parse(buf).Some?;
      if ok {
        var r := parse(buf).value;
        host := r.destination;
        isConnect := r.isConnect;
        if isConnect {
          out := buf[r.nparsed..];
        } else {
          out, all := RewriteAndSplit(buf, r, fill);
        }
      }
    }

    /** Bytes are set aside that will never be looked at: keep-alive handling is over. */
    ghost predicate Stranded()
      reads this
    {
      pendingBuf.Some? && !keepAlive
    }

    /** Of the rewritten buffer `all`, the request is `out`; for a kept-alive one the rest is pending. */
    ghost predicate SplitOff(r: Request, all: Bytes, out: Bytes)
      reads this
    {
      var size := r.contentLength + |r.header|;
      && keepAlive == (r.keepAlive && !r.chunked)
      && (if r.keepAlive && size < |all|
          then out == all[..size] && pendingBuf == Some(all[size..]) && remaining == 0
          else out == all && pendingBuf.None? && remaining == size - |all|)
    }

    /** The request at the front of `buf` was rewritten to `all` and split. */
    ghost predicate Rewritten(buf: Bytes, all: Bytes, out: Bytes)
      requires parse(buf).Some?
      reads this
    {
      IsRewritten(buf, parse(buf).value, all) && SplitOff(parse(buf).value, all, out)
    }

    /** `out` is the header and as much of the body as is there; what follows the body is pending. */
    ghost predicate HeaderAndBody(buf: Bytes, r: Request, out: Bytes)
      requires r.nparsed <= |buf|
      reads this
    {
      var payload := buf[r.nparsed..];
      var n := if r.contentLength < |payload| then r.contentLength else |payload|;
      && keepAlive && out == r.header + payload[..n] && Pending() == payload[n..] && remaining == r.contentLength - n
      && (pendingBuf.Some? ==> remaining == 0 && pendingBuf.value != [])
    }

    method RewriteAndSplit(buf: Bytes, r: Request, fill: nat -> byte) returns (out: Bytes, ghost all: Bytes)
      requires r.nparsed <= |buf| && pendingBuf.None?
      modifies this`keepAlive, this`remaining, this`pendingBuf
      ensures IsRewritten(buf, r, all) && SplitOff(r, all, out)
      ensures Plain(r, r.destination) ==> HeaderAndBody(buf, r, out)
    {
      out := RewriteHeader(buf, r, fill);
      all := out;
      keepAlive := r.keepAlive;
      remaining := r.contentLength + |r.header| - |out|;
      if keepAlive && remaining < 0 {
        var size := r.contentLength + |r.header|;
        remaining := 0;
        pendingBuf := Some(out[size..]);
        out := out[..size];
      }
      if r.chunked {
        keepAlive := false;
      }
      if |r.header| <= r.nparsed {
        SplitBehindRequest(buf, r, all);
      }
    }

    /** The connection's host and what was asked for agree exactly if the host is canonical. */
    ghost predicate Asked()
      reads this
    {
      Canonical(resolve, request) && (host == request <==> Canonical(resolve, host))
    }

    /** `PerformCmdOpsHttp`: whether a channel to the host can be asked for, and what is asked for. */
    method AskForChannel() returns (ok: bool)
      requires Addressed(resolve)
      modifies this`request, this`lookups
      ensures ok == Connectable(host) && (ok ==> Asked())
      ensures if ok then request == resolve(old(lookups), host) && lookups == old(lookups) + 1
              else unchanged(this`request, this`lookups)
    {
      ok := Connectable(host);
      if ok {
        request := resolve(lookups, host);
        lookups := lookups + 1;
      }
    }

    /** The request goes to another host: it waits for another channel, if there can be one. */
    method SwitchChannel(out: Bytes) returns (outcome: Outcome)
      requires Addressed(resolve) && !ended
      modifies this`request, this`lookups, this`ended, this`connected, this`pendingData
      ensures !connected && pendingData == old(pendingData) + [out] && ended == !Connectable(host)
      ensures if Connectable(host) then outcome == TryAgain && request == resolve(old(lookups), host) && Asked()
              else outcome == NoBuffer
    {
      connected := false;
      pendingData := pendingData + [out];
      var ok := AskForChannel();
      ended := !ok;
      outcome := if ok then TryAgain else NoBuffer;
    }

    /**
     * The next request of a reused connection; another destination needs another channel. So does
     * the same one, unless it is canonical.
     */
    method OnReadHttpRequestAfterReuse(buf: Bytes, fill: nat -> byte)
      returns (outcome: Outcome, out: Bytes, ghost all: Bytes)
      requires Valid() && !ended && connected && SelfDelimiting(parse) && buf != []
      requires keepAlive && remaining == 0 && pendingBuf.None?
      modifies this`keepAlive, this`remaining, this`pendingBuf, this`isConnect, this`host, this`request, this`lookups,
               this`ended, this`connected, this`pendingData
      ensures Valid()
      ensures outcome == InvalidArgument <==> !IsRequest(parse, buf)
      ensures outcome == Queued <==> IsRequest(parse, buf) && parse(buf).value.destination == old(request)
      ensures outcome == TryAgain <==>
        Elsewhere(parse, old(request), buf) && Connectable(parse(buf).value.destination)
      ensures outcome != Stalled && (ended <==> outcome == NoBuffer)
      ensures IsRequest(parse, buf) && parse(buf).value.destination == old(host) ==>
        (outcome == Queued <==> Canonical(resolve, old(host)))
      ensures outcome == InvalidArgument ==>
        !keepAlive && pendingBuf.None? && out == (if parse(buf).None? then buf else buf[parse(buf).value.nparsed..])
      ensures IsRequest(parse, buf) ==> Rewritten(buf, all, out)
      ensures outcome == InvalidArgument || outcome == Queued ==>
        unchanged(this`request, this`lookups, this`connected, this`pendingData)
      ensures outcome == TryAgain || outcome == NoBuffer ==> !connected && pendingData == old(pendingData) + [out]
      ensures outcome == TryAgain ==> request == resolve(old(lookups), parse(buf).value.destination)
      ensures parse(buf).Some? && Plain(parse(buf).value, old(request)) ==> HeaderAndBody(buf, parse(buf).value, out)
    {
      var ok;
      ok, out, all := OnReadHttpRequest(buf, fill);
      if !ok || isConnect {
        outcome := InvalidArgument;
      } else if request != host {
        outcome := SwitchChannel(out);
      } else {
        outcome := Queued;
      }
    }

    /** A buffer from the client, read just now or set aside before. */
    method Take(buf: Bytes, fill: nat -> byte) returns (outcome: Outcome, ghost sent: Bytes, ghost all: Bytes)
      requires Valid() && !ended && (keepAlive ==> pendingBuf.None?) && buf != [] && SelfDelimiting(parse)
      modifies this
      ensures Valid() && (ended <==> outcome == NoBuffer)
      ensures old(connected) && old(keepAlive) && old(remaining) == 0 ==>
        HeaderTaken(buf, old(request), old(upstream), old(pendingData), outcome, sent, all)
      ensures
        && old(connected) && old(keepAlive)
        && (old(remaining) > 0 || (parse(buf).Some? && Plain(parse(buf).value, old(request))))
        ==> PieceQueued(old(remaining), buf, old(upstream), outcome, sent) && unchanged(this`previousBuf, this`request)
      ensures old(connected) && !old(keepAlive) ==>
        && outcome == Queued && upstream == old(upstream) + [buf]
        && unchanged(this`keepAlive, this`pendingBuf, this`previousBuf, this`remaining, this`connected, this`request)
      ensures !old(connected) ==>
        && outcome == TryAgain && pendingData == old(pendingData) + [buf]
        && unchanged(this`upstream, this`keepAlive, this`pendingBuf, this`previousBuf, this`remaining, this`connected,
                     this`request)
    {
      sent, all := buf, [];
      if !connected {
        pendingData := pendingData + [buf];
        return TryAgain, sent, all;
      }
      if !keepAlive {
        upstream := upstream + [buf];
        return Queued, sent, all;
      }
      if remaining == 0 {
        outcome, sent, all := TakeHeader(buf, fill);
      } else {
        outcome, sent := TakeBody(buf);
      }
    }

    /** The header is not all there: put away, and keep-alive handling is over. */
    ghost predicate HeaderIncomplete(buf: Bytes, queue: seq<Bytes>, outcome: Outcome)
      reads this
    {
      && !keepAlive && connected && upstream == queue && pendingBuf.None? && outcome != NoBuffer
      && (|buf| < kIncompleteLimit ==> previousBuf == Some(buf) && outcome == TryAgain)
    }

    /** One more piece is upstream and the rest of the buffer is pending. */
    ghost predicate PieceQueued(due: int, buf: Bytes, queue: seq<Bytes>, outcome: Outcome, sent: Bytes)
      requires SelfDelimiting(parse)
      reads this
    {
      && keepAlive && connected && outcome == Queued && upstream == queue + [sent]
      && due >= 0 && remaining >= 0 && OneStep(parse, request, due, buf, sent, remaining, Pending())
    }

    /** The request is for another host: the channel is gone, and it waits for the next one. */
    ghost predicate ChannelDropped(buf: Bytes, queue: seq<Bytes>, kept: seq<Bytes>, outcome: Outcome, sent: Bytes)
      requires parse(buf).Some?
      reads this
    {
      && !connected && pendingData == kept + [sent] && upstream == queue && previousBuf.None?
      && outcome == (if Connectable(parse(buf).value.destination) then TryAgain else NoBuffer)
    }

    /**
     * What becomes of a buffer where a request is due: a request, whatever its kind, goes up
     * rewritten or waits rewritten for another channel; anything else is put away.
     */
    ghost predicate HeaderTaken(buf: Bytes, dest: HostPort, queue: seq<Bytes>, kept: seq<Bytes>, outcome: Outcome,
                                sent: Bytes, all: Bytes)
      reads this
    {
      && (parse(buf).None? ==> HeaderIncomplete(buf, queue, outcome))
      && (parse(buf).Some? && parse(buf).value.isConnect ==>
            parse(buf).value.nparsed <= |buf| && HeaderIncomplete(buf[parse(buf).value.nparsed..], queue, outcome))
      && (IsRequest(parse, buf) ==>
            && Rewritten(buf, all, sent)
            && (if parse(buf).value.destination != dest then ChannelDropped(buf, queue, kept, outcome, sent)
                else connected && previousBuf.None? && outcome == Queued && upstream == queue + [sent]))
    }

    method TakeHeader(buf: Bytes, fill: nat -> byte) returns (outcome: Outcome, ghost sent: Bytes, ghost all: Bytes)
      requires Valid() && !ended && connected && SelfDelimiting(parse) && buf != []
      requires keepAlive && remaining == 0 && pendingBuf.None?
      modifies this
      ensures Valid() && (ended <==> outcome == NoBuffer)
      ensures HeaderTaken(buf, old(request), old(upstream), old(pendingData), outcome, sent, all)
      ensures parse(buf).Some? && Plain(parse(buf).value, old(request)) ==>
        PieceQueued(0, buf, old(upstream), outcome, sent) && unchanged(this`previousBuf, this`request)
    {
      var out;
      outcome, out, all := OnReadHttpRequestAfterReuse(buf, fill);
      sent := out;
      if parse(buf).Some? && Plain(parse(buf).value, old(request)) {
        StepOverRequest(parse, request, buf);
      }
      if outcome == InvalidArgument {
        outcome := Incomplete(out);
      }
      if outcome == Queued {
        upstream := upstream + [out];
      }
    }

    /** Body bytes: up to the end of the body, the rest is the next request. */
    method TakeBody(buf: Bytes) returns (outcome: Outcome, ghost sent: Bytes)
      requires Valid() && connected && SelfDelimiting(parse) && buf != []
      requires keepAlive && remaining > 0 && pendingBuf.None?
      modifies this`pendingBuf, this`remaining, this`upstream
      ensures Valid() && PieceQueued(old(remaining), buf, old(upstream), outcome, sent)
    {
      StepOverBody(parse, request, remaining, buf);
      var out := buf;
      if remaining < |buf| {
        pendingBuf := Some(buf[remaining..]);
        out := buf[..remaining];
        remaining := 0;
      } else {
        remaining := remaining - |buf|;
      }
      upstream := upstream + [out];
      outcome, sent := Queued, out;
    }

    method Incomplete(buf: Bytes) returns (outcome: Outcome)
      requires Valid() && !keepAlive
      modifies this`previousBuf
      ensures Valid()
      ensures if |buf| < kIncompleteLimit then outcome == TryAgain && previousBuf == Some(buf)
              else outcome == Stalled && unchanged(this)
    {
      if |buf| < kIncompleteLimit {
        previousBuf := Some(buf);
        return TryAgain;
      }
      return Stalled;
    }

    /**
     * The next buffer: what was set aside goes before what is read. The branch for a buffer put
     * away by `Incomplete` is dead, because putting it away has ended keep-alive handling.
     */
    method GetNext(read: Bytes, fill: nat -> byte)
      returns (usedRead: bool, outcome: Outcome, ghost sent: Bytes, ghost all: Bytes)
      requires Valid() && !ended && read != [] && SelfDelimiting(parse)
      modifies this
      ensures Valid() && (ended <==> outcome == NoBuffer)
      ensures usedRead == !(old(keepAlive) && old(pendingBuf).Some?)
      ensures old(connected) && old(keepAlive) && old(remaining) == 0 ==>
        var buf := if usedRead then read else old(pendingBuf).value;
        HeaderTaken(buf, old(request), old(upstream), old(pendingData), outcome, sent, all)
      ensures old(connected) && !old(keepAlive) ==>
        && outcome == Queued && upstream == old(upstream) + [read]
        && unchanged(this`keepAlive, this`pendingBuf, this`previousBuf, this`connected)
    {
      var buf := read;
      usedRead := true;
      if keepAlive && pendingBuf.Some? {
        buf := pendingBuf.value;
        pendingBuf := None;
        usedRead := false;
      }
      assert !(keepAlive && previousBuf.Some?);
      outcome, sent, all := Take(buf, fill);
    }

    /** The rule goes on with `buf`, a body or a plain request. */
    predicate GoesOn(buf: Bytes)
      reads this
    {
      remaining != 0 || (parse(buf).Some? && Plain(parse(buf).value, request))
    }

    /** How the connection stands when the rule has ended at `rest`. */
    ghost predicate StopsAt(rest: Bytes, dest: HostPort)
      reads this
    {
      if parse(rest).None? then !keepAlive && connected && !ended && previousBuf == Some(rest)
      else
        && previousBuf.None?
        && (if Last(parse, dest, rest) then !keepAlive && connected && !ended
            else !connected && ended == !Connectable(parse(rest).value.destination))
    }

    /** One buffer, by the rule or up to its end. */
    method TakeNext(buf: Bytes, fill: nat -> byte) returns (ghost sent: Bytes)
      requires Valid() && !ended && connected && keepAlive && pendingBuf.None? && SelfDelimiting(parse)
      requires 0 < |buf| <= SOCKET_BUF_SIZE
      requires !GoesOn(buf) ==> parse(buf).None? || Elsewhere(parse, request, buf) || Last(parse, request, buf)
      modifies this
      ensures Valid()
      ensures old(GoesOn(buf)) ==>
        && keepAlive && connected && !ended && old(remaining) >= 0 && remaining >= 0
        && OneStep(parse, request, old(remaining), buf, sent, remaining, Pending())
        && Flat(upstream) == old(Flat(upstream)) + sent && unchanged(this`previousBuf, this`request)
      ensures !old(GoesOn(buf)) ==>
        && StopsAt(buf, old(request)) && (!connected || !keepAlive)
        && Flat(upstream) == old(Flat(upstream)) + (if Last(parse, old(request), buf) then LastUp(parse, buf) else [])
    {
      ghost var queue, last, goesOn, all := upstream, Last(parse, request, buf), GoesOn(buf), [];
      var outcome;
      outcome, sent, all := Take(buf, fill);
      FlatPush(queue, sent);
      if !goesOn && last {
        LastIsUp(parse, buf, all, sent);
      }
      assert Flat(queue) + [] == Flat(queue);
    }

    /** One read from the client and the resumptions it leads to. */
    method Receive(read: Bytes, fill: nat -> byte)
      requires Valid() && !ended && connected && keepAlive && pendingBuf.None? && SelfDelimiting(parse)
      requires 0 < |read| <= SOCKET_BUF_SIZE
      requires var ending := Follow(parse, request, remaining, read).ending;
               ending.Odd? ==> Elsewhere(parse, request, ending.rest) || Last(parse, request, ending.rest)
      modifies this
      ensures Valid()
      ensures Flat(upstream) == old(Flat(upstream)) + GoesUp(parse, old(request), old(remaining), read)
      ensures match Follow(parse, old(request), old(remaining), read).ending
              case Whole(r) =>
                && keepAlive && connected && !ended && remaining == r && pendingBuf.None?
                && unchanged(this`request, this`previousBuf)
              case Cut(rest) => StopsAt(rest, old(request)) && parse(rest).None?
              case Odd(rest) => StopsAt(rest, old(request)) && parse(rest).Some?
    {
      ghost var due0, dest, acc: Bytes, sent := remaining, request, [], [];
      var buf := read;
      ProgressStart(parse, dest, due0, read);
      while true
        invariant Valid() && !ended && connected && keepAlive && pendingBuf.None? && remaining >= 0
        invariant 0 < |buf| <= SOCKET_BUF_SIZE
        invariant request == dest && previousBuf == old(previousBuf)
        invariant Progress(parse, dest, due0, read, acc, remaining, buf)
        invariant Flat(upstream) == old(Flat(upstream)) + acc
        decreases |buf|
      {
        ghost var due := remaining;
        if remaining == 0 {
          ProgressPlain(parse, dest, due0, read, acc, buf);
        }
        sent := TakeNext(buf, fill);
        if !connected || !keepAlive {
          Regroup(old(Flat(upstream)), acc, if Last(parse, dest, buf) then LastUp(parse, buf) else []);
          return;
        }
        ProgressStep(parse, dest, due0, read, acc, due, buf, sent, remaining, Pending());
        Regroup(old(Flat(upstream)), acc, sent);
        acc := acc + sent;
        if pendingBuf.None? {
          ProgressEnd(parse, dest, due0, read, acc, remaining);
          assert acc + [] == acc;
          return;
        }
        buf := pendingBuf.value;
        pendingBuf := None;
      }
    }

    /** Nothing has been read yet. */
    ghost predicate Unopened()
      reads this
    {
      && Valid() && !keepAlive && remaining == 0 && pendingBuf.None? && previousBuf.None?
      && upstream == [] && pendingData == [] && !connected && !ended && lookups == 0
    }

    /**
     * The first buffer of the client, whatever it holds. One that is unparsable, or asks for a host
     * that cannot be, ends the connection; otherwise `out`, if not empty, waits for the channel.
     */
    method Open(read: Bytes, fill: nat -> byte) returns (ok: bool, out: Bytes, ghost all: Bytes)
      requires Unopened() && read != [] && SelfDelimiting(parse)
      modifies this
      ensures Valid() && !connected && upstream == [] && previousBuf.None? && ended == !ok
      ensures ok <==> parse(read).Some? && Connectable(parse(read).value.destination)
      ensures !ok ==> pendingData == []
      ensures parse(read).None? ==> !keepAlive && pendingBuf.None?
      ensures ok ==>
        host == parse(read).value.destination && request == resolve(old(lookups), host) && Flat(pendingData) == out
      ensures ok && !parse(read).value.isConnect ==>
        IsRewritten(read, parse(read).value, all) && SplitOff(parse(read).value, all, out)
      ensures ok && Plain(parse(read).value, host) ==> HeaderAndBody(read, parse(read).value, out)
    {
      ok, out, all := OnReadHttpRequest(read, fill);
      if ok {
        ok := AskForChannel();
      }
      if !ok {
        ended := true;
        return;
      }
      KeepUntilConnected(out);
    }

    method KeepUntilConnected(buf: Bytes)
      requires pendingData == []
      modifies this`pendingData
      ensures Flat(pendingData) == buf
    {
      if buf != [] {
        FlatOne(buf);
        pendingData := [buf];
      }
    }

    /** The channel is established: what waited for it goes first. */
    method Connect()
      requires Valid() && !ended && !connected
      modifies this`connected, this`upstream, this`pendingData
      ensures Valid() && connected && pendingData == [] && upstream == old(upstream) + old(pendingData)
    {
      connected := true;
      upstream, pendingData := upstream + pendingData, [];
    }
  }

  /** How much of the body is in a buffer that starts with a request. */
  function BodyThere(parse: Parser, read: Bytes): (n: nat)
    requires parse(read).Some? && parse(read).value.nparsed <= |read|
    ensures n <= parse(read).value.contentLength && parse(read).value.nparsed + n <= |read|
  {
    var r := parse(read).value;
    if r.contentLength < |read| - r.nparsed then r.contentLength else |read| - r.nparsed
  }

  /** Of that buffer: what goes up, how much of the body is still due, and what lies behind the body. */
  function FirstUp(parse: Parser, read: Bytes): Bytes
    requires parse(read).Some? && parse(read).value.nparsed <= |read|
  {
    parse(read).value.header + read[parse(read).value.nparsed..][..BodyThere(parse, read)]
  }

  function DueThen(parse: Parser, read: Bytes): nat
    requires parse(read).Some? && parse(read).value.nparsed <= |read|
  {
    parse(read).value.contentLength - BodyThere(parse, read)
  }

  function Behind(parse: Parser, read: Bytes): Bytes
    requires parse(read).Some? && parse(read).value.nparsed <= |read|
  {
    read[parse(read).value.nparsed..][BodyThere(parse, read)..]
  }

  function Piece(s: Bytes): seq<Bytes> {
    if s == [] then [] else [s]
  }

  /** The first read of a plain request; `pending` is what was read behind the request. */
  method ReceiveFirst(c: KeepAliveConnection, read: Bytes, fill: nat -> byte) returns (ok: bool, pending: seq<Bytes>)
    requires c.Unopened() && SelfDelimiting(c.parse)
    requires 0 < |read| <= SOCKET_BUF_SIZE && c.parse(read).Some?
    requires Plain(c.parse(read).value, c.parse(read).value.destination)
    modifies c
    ensures c.Valid() && (ok <==> Connectable(c.parse(read).value.destination))
    ensures ok ==>
      && c.connected && !c.ended && c.keepAlive && c.pendingBuf.None? && c.previousBuf.None?
      && c.host == c.parse(read).value.destination && c.request == c.resolve(0, c.host)
    ensures ok ==>
      && Flat(c.upstream) == FirstUp(c.parse, read) && c.remaining == DueThen(c.parse, read)
      && pending == Piece(Behind(c.parse, read))
  {
    pending := [];
    var out;
    ghost var all;
    ok, out, all := c.Open(read, fill);
    if ok {
      assert [] + c.pendingData == c.pendingData;
      c.Connect();
      if c.pendingBuf.Some? {
        pending := [c.pendingBuf.value];
        c.pendingBuf := None;
      }
    }
  }

  /**
   * What the event loop brings: a turn to take client bytes, or a channel that is established. In a
   * turn `data` is what a read would give; a pending buffer goes before it and leaves it unread.
   */
  datatype Happening = ClientBytes(data: Bytes) | ChannelUp

  /**
   * Any run at all, with chunked, closing, CONNECT and unparsable requests, other destinations
   * and cut headers: the state invariant holds throughout. So the debug checks on the count and on
   * the buffers never fail, and the one on the host fails exactly if the host is not canonical.
   */
  method RunAny(parse: Parser, resolve: Resolver, first: Bytes, happenings: seq<Happening>, fill: nat -> byte)
    returns (c: KeepAliveConnection)
    requires SelfDelimiting(parse) && Addressed(resolve) && first != []
    requires forall i :: 0 <= i < |happenings| && happenings[i].ClientBytes? ==> happenings[i].data != []
    ensures fresh(c) && c.resolve == resolve && c.Valid()
    ensures c.pendingBuf.Some? ==> c.remaining == 0
    ensures c.keepAlive ==> c.remaining >= 0 && c.previousBuf.None?
    ensures c.keepAlive && !c.ended ==> (c.host == c.request <==> Canonical(resolve, c.host))
  {
    c := new KeepAliveConnection(parse, resolve);
    var ok, out;
    ghost var all;
    ok, out, all := c.Open(first, fill);
    for i := 0 to |happenings|
      invariant fresh(c) && c.parse == parse && c.resolve == resolve && c.Valid()
    {
      if c.ended {
        return;
      }
      match happenings[i] {
        case ClientBytes(data) =>
          ghost var sent, all;
          var usedRead, outcome;
          usedRead, outcome, sent, all := c.GetNext(data, fill);
        case ChannelUp =>
          if !c.connected {
            c.Connect();
          }
      }
    }
  }

  /** No piece of the client's bytes ends inside a header. */
  ghost predicate NeverCut(parse: Parser, dest: HostPort, due: nat, pieces: seq<Bytes>)
    requires SelfDelimiting(parse)
    decreases |pieces|
  {
    pieces == [] ||
    (var f := Follow(parse, dest, due, pieces[0]);
     f.ending.Whole? && NeverCut(parse, dest, f.ending.remaining, pieces[1..]))
  }

  /** Up to the first cut header, request for another host or last request, if any, every request is plain. */
  ghost predicate AllPlain(parse: Parser, dest: HostPort, due: nat, pieces: seq<Bytes>)
    requires SelfDelimiting(parse)
    decreases |pieces|
  {
    pieces == [] ||
    (match Follow(parse, dest, due, pieces[0]).ending
     case Whole(r) => AllPlain(parse, dest, r, pieces[1..])
     case Cut(_) => true
     case Odd(rest) => Elsewhere(parse, dest, rest) || Last(parse, dest, rest))
  }

  /** No request for another host comes before the first cut header or last request, if any. */
  ghost predicate StaysHere(parse: Parser, dest: HostPort, due: nat, pieces: seq<Bytes>)
    requires SelfDelimiting(parse)
    decreases |pieces|
  {
    pieces == [] ||
    (match Follow(parse, dest, due, pieces[0]).ending
     case Whole(r) => StaysHere(parse, dest, r, pieces[1..])
     case Cut(_) => true
     case Odd(rest) => Last(parse, dest, rest))
  }

  /** No read cuts a header before the first odd request, if any. */
  ghost predicate NoCut(parse: Parser, dest: HostPort, due: nat, pieces: seq<Bytes>)
    requires SelfDelimiting(parse)
    decreases |pieces|
  {
    pieces == [] ||
    (match Follow(parse, dest, due, pieces[0]).ending
     case Whole(r) => NoCut(parse, dest, r, pieces[1..])
     case Cut(_) => false
     case Odd(_) => true)
  }

  /**
   * What goes up on this channel: the rule up to the first cut header or last request, then bytes
   * as they come.
   */
  ghost function Passed(parse: Parser, dest: HostPort, due: nat, pieces: seq<Bytes>): Bytes
    requires SelfDelimiting(parse)
    decreases |pieces|
  {
    if pieces == [] then []
    else
      GoesUp(parse, dest, due, pieces[0]) +
      match Follow(parse, dest, due, pieces[0]).ending
      case Whole(r) => Passed(parse, dest, r, pieces[1..])
      case Cut(_) => Flat(pieces[1..])
      case Odd(rest) => if Last(parse, dest, rest) then Flat(pieces[1..]) else []
  }

  /** Without a cut header, following the pieces one by one is following the whole. */
  lemma {:induction false} PiecesFollowed(parse: Parser, dest: HostPort, due: nat, pieces: seq<Bytes>)
    requires SelfDelimiting(parse) && NeverCut(parse, dest, due, pieces)
    ensures AllPlain(parse, dest, due, pieces) && StaysHere(parse, dest, due, pieces)
    ensures Follow(parse, dest, due, Flat(pieces)).out == Passed(parse, dest, due, pieces)
    decreases |pieces|
  {
    if pieces != [] {
      var f := Follow(parse, dest, due, pieces[0]);
      PiecesFollowed(parse, dest, f.ending.remaining, pieces[1..]);
      FollowOn(parse, dest, due, pieces[0], Flat(pieces[1..]));
    }
  }

  ghost predicate SocketSized(pieces: seq<Bytes>) {
    forall i :: 0 <= i < |pieces| ==> 0 < |pieces[i]| <= SOCKET_BUF_SIZE
  }

  /**
   * Feeds a connection in use with one read after the other, until its channel is dropped, if it
   * is: exactly at a request for another host. A buffer is put away, never to be used again, if
   * and only if a read before that cuts a header.
   */
  method ReceiveAll(c: KeepAliveConnection, pieces: seq<Bytes>, fill: nat -> byte)
    requires c.Valid() && !c.ended && c.connected && c.keepAlive && c.pendingBuf.None? && c.previousBuf.None?
    requires SelfDelimiting(c.parse) && AllPlain(c.parse, c.request, c.remaining, pieces) && SocketSized(pieces)
    modifies c
    ensures c.Valid()
    ensures Flat(c.upstream) == old(Flat(c.upstream)) + Passed(c.parse, old(c.request), old(c.remaining), pieces)
    ensures c.connected <==> StaysHere(c.parse, old(c.request), old(c.remaining), pieces)
    ensures c.previousBuf.None? <==> NoCut(c.parse, old(c.request), old(c.remaining), pieces)
    ensures c.connected && c.keepAlive <==> NeverCut(c.parse, old(c.request), old(c.remaining), pieces)
    decreases |pieces|
  {
    if pieces != [] {
      ghost var queued, gone := Flat(c.upstream), GoesUp(c.parse, c.request, c.remaining, pieces[0]);
      c.Receive(pieces[0], fill);
      if !c.connected {
        assert queued + (gone + []) == queued + gone;
      } else if c.keepAlive {
        Regroup(queued, gone, Passed(c.parse, c.request, c.remaining, pieces[1..]));
        ReceiveAll(c, pieces[1..], fill);
      } else {
        Regroup(queued, gone, Flat(pieces[1..]));
        PassRaw(c, pieces[1..], fill);
      }
    }
  }

  method PassRaw(c: KeepAliveConnection, pieces: seq<Bytes>, fill: nat -> byte)
    requires c.Valid() && !c.ended && c.connected && !c.keepAlive && SelfDelimiting(c.parse) && SocketSized(pieces)
    modifies c
    ensures c.Valid() && c.connected && !c.keepAlive && c.previousBuf == old(c.previousBuf)
    ensures Flat(c.upstream) == old(Flat(c.upstream)) + Flat(pieces)
    decreases |pieces|
  {
    if pieces != [] {
      ghost var queue := c.upstream;
      ghost var sent, all;
      var usedRead, outcome;
      usedRead, outcome, sent, all := c.GetNext(pieces[0], fill);
      FlatPush(queue, pieces[0]);
      Regroup(Flat(queue), pieces[0], Flat(pieces[1..]));
      PassRaw(c, pieces[1..], fill);
    }
  }

  /** Pieces that do not reach the end of the body are passed on, whatever the host. */
  lemma {:induction false} BodyPieces(parse: Parser, dest: HostPort, due: nat, pieces: seq<Bytes>)
    requires SelfDelimiting(parse) && |Flat(pieces)| <= due
    ensures NeverCut(parse, dest, due, pieces) && Passed(parse, dest, due, pieces) == Flat(pieces)
    decreases |pieces|
  {
    if pieces != [] {
      assert |Flat(pieces)| == |pieces[0]| + |Flat(pieces[1..])|;
      BodyPieces(parse, dest, due - |pieces[0]|, pieces[1..]);
      BodyPieceMore(parse, dest, due, pieces);
    }
  }

  lemma BodyPieceMore(parse: Parser, dest: HostPort, due: nat, pieces: seq<Bytes>)
    requires SelfDelimiting(parse) && pieces != [] && |pieces[0]| <= due
    requires NeverCut(parse, dest, due - |pieces[0]|, pieces[1..])
    ensures NeverCut(parse, dest, due, pieces)
    ensures Passed(parse, dest, due, pieces) == pieces[0] + Passed(parse, dest, due - |pieces[0]|, pieces[1..])
  {
    BodyPiece(parse, dest, due, pieces[0]);
    WholePassed(parse, dest, due, pieces);
  }

  lemma BodyPiece(parse: Parser, dest: HostPort, due: nat, p: Bytes)
    requires SelfDelimiting(parse) && |p| <= due
    ensures Follow(parse, dest, due, p) == Framing(p, Whole(due - |p|))
  {
    if p != [] {
      BodyOnly(parse, dest, due, p);
    }
  }

  lemma WholePassed(parse: Parser, dest: HostPort, due: nat, pieces: seq<Bytes>)
    requires SelfDelimiting(parse) && pieces != [] && Follow(parse, dest, due, pieces[0]).ending.Whole?
    ensures var f := Follow(parse, dest, due, pieces[0]);
            Passed(parse, dest, due, pieces) == f.out + Passed(parse, dest, f.ending.remaining, pieces[1..])
  {
    var f := Follow(parse, dest, due, pieces[0]);
    assert f.out + [] == f.out;
  }

  /** Plain requests to `dest`, no header cut, and at most a last request and bytes behind it. */
  ghost predicate Framed(parse: Parser, dest: HostPort, due: nat, pieces: seq<Bytes>)
    requires SelfDelimiting(parse)
  {
    AllPlain(parse, dest, due, pieces) && NoCut(parse, dest, due, pieces) && StaysHere(parse, dest, due, pieces)
  }

  lemma {:induction false} NeverCutFramed(parse: Parser, dest: HostPort, due: nat, pieces: seq<Bytes>)
    requires SelfDelimiting(parse) && NeverCut(parse, dest, due, pieces)
    ensures Framed(parse, dest, due, pieces)
    decreases |pieces|
  {
    if pieces != [] {
      NeverCutFramed(parse, dest, Follow(parse, dest, due, pieces[0]).ending.remaining, pieces[1..]);
    }
  }

  /** The host of a request where one is due decides whether another connection keeps its channel. */
  lemma OddForAnother(parse: Parser, dest: HostPort, other: HostPort, due: nat, s: Bytes)
    requires SelfDelimiting(parse) && |s| > due && dest != other
    requires var ending := Follow(parse, dest, due, s).ending;
             !ending.Cut? && (ending.Odd? ==> Last(parse, dest, ending.rest))
    ensures Follow(parse, other, due, s).ending == Odd(s[due..]) && Elsewhere(parse, other, s[due..])
  {
    var rest := s[due..];
    if due == 0 {
      assert rest == s;
    }
    assert parse(rest).Some? && (Plain(parse(rest).value, dest) || Last(parse, dest, rest));
  }

  lemma {:induction false} DroppedAtNext(parse: Parser, dest: HostPort, other: HostPort, due: nat, pieces: seq<Bytes>)
    requires SelfDelimiting(parse) && Framed(parse, dest, due, pieces) && |Flat(pieces)| > due && dest != other
    ensures AllPlain(parse, other, due, pieces) && !StaysHere(parse, other, due, pieces)
    decreases |pieces|
  {
    var p := pieces[0];
    if |p| > due {
      OddForAnother(parse, dest, other, due, p);
    } else {
      if p != [] {
        BodyOnly(parse, dest, due, p);
        BodyOnly(parse, other, due, p);
      }
      DroppedAtNext(parse, dest, other, due - |p|, pieces[1..]);
    }
  }

  /** Pieces framed for `dest`, as a connection to `request` takes them. */
  lemma ForHost(parse: Parser, dest: HostPort, request: HostPort, due: nat, pieces: seq<Bytes>)
    requires SelfDelimiting(parse) && Framed(parse, dest, due, pieces)
    ensures AllPlain(parse, request, due, pieces)
    ensures StaysHere(parse, request, due, pieces) <==> dest == request || |Flat(pieces)| <= due
    ensures StaysHere(parse, request, due, pieces) ==>
      Passed(parse, request, due, pieces) == Passed(parse, dest, due, pieces)
  {
    if dest != request {
      if |Flat(pieces)| <= due {
        BodyPieces(parse, dest, due, pieces);
        BodyPieces(parse, request, due, pieces);
        NeverCutFramed(parse, request, due, pieces);
      } else {
        DroppedAtNext(parse, dest, request, due, pieces);
      }
    }
  }

  /** The first piece in two steps. */
  lemma PassedOn(parse: Parser, dest: HostPort, first: Bytes, due: nat, rest: Bytes, pieces: seq<Bytes>)
    requires SelfDelimiting(parse) && pieces != [] && Framed(parse, dest, 0, pieces)
    requires Follow(parse, dest, 0, pieces[0]) == Before(first, Follow(parse, dest, due, rest))
    ensures Framed(parse, dest, due, Piece(rest) + pieces[1..])
    ensures Passed(parse, dest, 0, pieces) == first + Passed(parse, dest, due, Piece(rest) + pieces[1..])
  {
    var f := Follow(parse, dest, due, rest);
    var end := if f.ending.Odd? then LastUp(parse, f.ending.rest) else [];
    var later := if f.ending.Odd? then Flat(pieces[1..]) else Passed(parse, dest, f.ending.remaining, pieces[1..]);
    assert Passed(parse, dest, 0, pieces) == (first + f.out) + end + later;
    Regroup(first, f.out, end);
    Regroup(first, f.out + end, later);
    if rest == [] {
      assert [] + pieces[1..] == pieces[1..] && [] + [] + later == later;
    } else {
      assert ([rest] + pieces[1..])[1..] == pieces[1..];
      assert Passed(parse, dest, due, [rest] + pieces[1..]) == f.out + end + later;
    }
  }

  lemma BehindLength(parse: Parser, pieces: seq<Bytes>)
    requires SelfDelimiting(parse) && pieces != [] && parse(pieces[0]).Some?
    ensures |Flat(Piece(Behind(parse, pieces[0])) + pieces[1..])|
         == |Flat(pieces)| - parse(pieces[0]).value.nparsed - BodyThere(parse, pieces[0])
  {
    var rest := Behind(parse, pieces[0]);
    assert ([rest] + pieces[1..])[1..] == pieces[1..] && [] + pieces[1..] == pieces[1..];
  }

  /**
   * A client's bytes, the first request plain: requests to one destination, read in any way that
   * cuts no header, perhaps a last one and bytes behind it. They are served on one channel if and
   * only if the host can be connected to and is canonical, or nothing lies behind the first request.
   */
  method ServeReads(parse: Parser, resolve: Resolver, pieces: seq<Bytes>, fill: nat -> byte)
    returns (served: bool, sentUp: Bytes)
    requires SelfDelimiting(parse) && Addressed(resolve)
    requires SocketSized(pieces) && pieces != [] && parse(pieces[0]).Some?
    requires var r := parse(pieces[0]).value;
             Plain(r, r.destination) && Framed(parse, r.destination, 0, pieces)
    ensures var r := parse(pieces[0]).value;
            && (served <==>
                  && Connectable(r.destination)
                  && (Canonical(resolve, r.destination) || |Flat(pieces)| <= r.nparsed + r.contentLength))
            && (served ==> sentUp == Passed(parse, r.destination, 0, pieces))
  {
    ghost var dest := parse(pieces[0]).value.destination;
    var c := new KeepAliveConnection(parse, resolve);
    var pending;
    served, pending := ReceiveFirst(c, pieces[0], fill);
    sentUp := [];
    if served {
      FirstRequest(parse, dest, pieces);
      ForHost(parse, dest, c.request, c.remaining, pending + pieces[1..]);
      ReceiveAll(c, pending + pieces[1..], fill);
      served, sentUp := c.connected, Flat(c.upstream);
    }
  }

  /** The first request taken off. */
  lemma FirstRequest(parse: Parser, dest: HostPort, pieces: seq<Bytes>)
    requires SelfDelimiting(parse) && pieces != [] && pieces[0] != [] && parse(pieces[0]).Some?
    requires Plain(parse(pieces[0]).value, dest) && Framed(parse, dest, 0, pieces)
    ensures var due, rest := DueThen(parse, pieces[0]), Piece(Behind(parse, pieces[0])) + pieces[1..];
            && Framed(parse, dest, due, rest)
            && Passed(parse, dest, 0, pieces) == FirstUp(parse, pieces[0]) + Passed(parse, dest, due, rest)
            && |Flat(rest)| - due
               == |Flat(pieces)| - parse(pieces[0]).value.nparsed - parse(pieces[0]).value.contentLength
  {
    BehindLength(parse, pieces);
    RequestFollowed(parse, dest, pieces[0]);
    PassedOn(parse, dest, FirstUp(parse, pieces[0]), DueThen(parse, pieces[0]), Behind(parse, pieces[0]), pieces);
  }

  /** Something is left behind the first request exactly if there is a second one. */
  lemma SecondRequest(parse: Parser, dest: HostPort, ms: seq<Message>, more: Bytes, pieces: seq<Bytes>)
    requires SelfDelimiting(parse) && Session(parse, dest, ms) && ms != [] && Flat(pieces) == Written(ms) + more
    requires pieces != [] && pieces[0] != [] && parse(pieces[0]).Some?
    ensures parse(pieces[0]) == parse(ms[0].head) && WellFormed(parse, dest, ms[0])
    ensures var r := parse(pieces[0]).value;
            |Flat(pieces)| > r.nparsed + r.contentLength <==> |ms| > 1 || more != []
  {
    var m, rest := ms[0], Written(ms[1..]);
    assert WellFormed(parse, dest, m);
    var behind := (m.body + rest) + more;
    Regroup(m.head, m.body + rest, more);
    SameRequest(parse, pieces[0], Flat(pieces[1..]), m.head, behind);
    assert |Flat(pieces)| == |m.head| + |behind|;
    if |ms| > 1 {
      assert WellFormed(parse, dest, ms[1]);
      assert |rest| >= |ms[1].head| > 0;
    }
  }

  /** A header is the same whatever is read with it. */
  lemma SameRequest(parse: Parser, a: Bytes, b: Bytes, c: Bytes, d: Bytes)
    requires SelfDelimiting(parse) && parse(a).Some? && parse(c).Some? && a + b == c + d
    ensures parse(a) == parse(c)
  {
    assert parse(a + b) == parse(a) && parse(c + d) == parse(c);
  }

  /**
   * A session of plain requests to one destination, cut into reads in any way that never cuts a
   * header. It is served on one channel if and only if the host can be connected to and, should
   * there be a second request, is canonical. Then the server gets each rewritten header followed
   * by exactly its body.
   */
  method Serve(parse: Parser, resolve: Resolver, ghost ms: seq<Message>, pieces: seq<Bytes>, fill: nat -> byte)
    returns (served: bool, sentUp: Bytes)
    requires SelfDelimiting(parse) && Addressed(resolve)
    requires SocketSized(pieces) && pieces != [] && parse(pieces[0]).Some?
    requires var dest := parse(pieces[0]).value.destination;
             Session(parse, dest, ms) && NeverCut(parse, dest, 0, pieces) && Flat(pieces) == Written(ms)
    ensures var dest := parse(pieces[0]).value.destination;
            && (served <==> Connectable(dest) && (|ms| > 1 ==> Canonical(resolve, dest)))
            && (served ==> sentUp == Reframed(parse, dest, ms))
  {
    ghost var dest := parse(pieces[0]).value.destination;
    assert Written(ms) + [] == Written(ms);
    SecondRequest(parse, dest, ms, [], pieces);
    NeverCutFramed(parse, dest, 0, pieces);
    PiecesFollowed(parse, dest, 0, pieces);
    SessionFramed(parse, dest, ms);
    served, sentUp := ServeReads(parse, resolve, pieces, fill);
  }

  /** What follows an odd request changes nothing before it. */
  lemma {:induction false} OddOn(parse: Parser, dest: HostPort, remaining: nat, s: Bytes, t: Bytes)
    requires SelfDelimiting(parse) && Follow(parse, dest, remaining, s).ending.Odd?
    ensures var f := Follow(parse, dest, remaining, s);
            && parse(f.ending.rest).Some?
            && Follow(parse, dest, remaining, s + t) == Framing(f.out, Odd(f.ending.rest + t))
    decreases |s|
  {
    if remaining > 0 {
      if remaining >= |s| {
        BodyOnly(parse, dest, remaining, s);
      }
      FirstPiece(parse, dest, remaining, s, t);
      OddOn(parse, dest, 0, s[remaining..], t);
    } else if Plain(parse(s).value, dest) {
      FirstPiece(parse, dest, 0, s, t);
      OddOn(parse, dest, parse(s).value.contentLength, s[parse(s).value.nparsed..], t);
    } else {
      assert parse(s + t) == parse(s);
    }
  }

  /** Of a closing request all goes up, whatever follows. */
  lemma ClosingUp(parse: Parser, dest: HostPort, s: Bytes, t: Bytes)
    requires SelfDelimiting(parse) && parse(s).Some? && Last(parse, dest, s + t) && !parse(s + t).value.keepAlive
    ensures Last(parse, dest, s) && LastUp(parse, s + t) == LastUp(parse, s) + t
  {
    assert parse(s + t) == parse(s);
    var n := parse(s).value.nparsed;
    assert (s + t)[n..] == s[n..] + t;
    Regroup(parse(s).value.header, s[n..], t);
  }

  /** Reads of a stretch that ends with a closing request pass on what the whole stretch would. */
  lemma {:induction false} ClosingPassed(parse: Parser, dest: HostPort, due: nat, pieces: seq<Bytes>)
    requires SelfDelimiting(parse) && NoCut(parse, dest, due, pieces)
    requires var ending := Follow(parse, dest, due, Flat(pieces)).ending;
             ending.Odd? && Last(parse, dest, ending.rest) && !parse(ending.rest).value.keepAlive
    ensures Framed(parse, dest, due, pieces)
    ensures Passed(parse, dest, due, pieces) == GoesUp(parse, dest, due, Flat(pieces))
    decreases |pieces|
  {
    var p, t := pieces[0], Flat(pieces[1..]);
    var f := Follow(parse, dest, due, p);
    if f.ending.Whole? {
      FollowOn(parse, dest, due, p, t);
      ClosingPassed(parse, dest, f.ending.remaining, pieces[1..]);
      var g := Follow(parse, dest, f.ending.remaining, t);
      Regroup(f.out, g.out, LastUp(parse, g.ending.rest));
      assert f.out + [] == f.out;
    } else {
      OddOn(parse, dest, due, p, t);
      ClosingUp(parse, dest, f.ending.rest, t);
      Regroup(f.out, LastUp(parse, f.ending.rest), t);
    }
  }

  /** A session, and behind it a closing request with whatever follows. */
  lemma ClosingFollowed(parse: Parser, dest: HostPort, ms: seq<Message>, head: Bytes, tail: Bytes)
    requires SelfDelimiting(parse) && Session(parse, dest, ms)
    requires Last(parse, dest, head) && parse(head).value.nparsed == |head| && !parse(head).value.keepAlive
    ensures var s, f := Written(ms) + (head + tail), Follow(parse, dest, 0, Written(ms) + (head + tail));
            && f == Framing(Reframed(parse, dest, ms), Odd(head + tail)) && Last(parse, dest, head + tail)
            && GoesUp(parse, dest, 0, s) == Reframed(parse, dest, ms) + (parse(head).value.header + tail)
  {
    SessionFramed(parse, dest, ms);
    FollowOn(parse, dest, 0, Written(ms), head + tail);
    assert parse(head + tail) == parse(head);
    assert (head + tail)[|head|..] == tail;
    assert Reframed(parse, dest, ms) + [] == Reframed(parse, dest, ms);
  }

  /**
   * The same, and behind the session a closing request with whatever follows it, a body or not:
   * the server gets the framed session, the rewritten closing header, and all that follows.
   */
  method ServeClosing(parse: Parser, resolve: Resolver, ghost ms: seq<Message>, ghost head: Bytes, ghost tail: Bytes,
                      pieces: seq<Bytes>, fill: nat -> byte)
    returns (served: bool, sentUp: Bytes)
    requires SelfDelimiting(parse) && Addressed(resolve)
    requires SocketSized(pieces) && pieces != [] && parse(pieces[0]).Some?
    requires var dest := parse(pieces[0]).value.destination;
             && Session(parse, dest, ms) && ms != [] && NoCut(parse, dest, 0, pieces)
             && Last(parse, dest, head) && parse(head).value.nparsed == |head| && !parse(head).value.keepAlive
             && Flat(pieces) == Written(ms) + (head + tail)
    ensures var dest := parse(pieces[0]).value.destination;
            && (served <==> Connectable(dest) && Canonical(resolve, dest))
            && (served ==> sentUp == Reframed(parse, dest, ms) + (parse(head).value.header + tail))
  {
    ghost var dest := parse(pieces[0]).value.destination;
    SecondRequest(parse, dest, ms, head + tail, pieces);
    ClosingFollowed(parse, dest, ms, head, tail);
    ClosingPassed(parse, dest, 0, pieces);
    served, sentUp := ServeReads(parse, resolve, pieces, fill);
  }

  /** A parser that knows one header, two bytes long. */
  function TwoByteHeader(s: Bytes): Option<Request> {
    if |s| >= 2 && s[..2] == [7, 10] then Some(Request(2, [7, 10], 0, true, false, false, HostPort("host", 80)))
    else None
  }

  lemma TwoByteHeaderFollowed(dest: HostPort, s: Bytes)
    requires dest == HostPort("host", 80)
    ensures SelfDelimiting(TwoByteHeader)
    ensures s == [7, 10] ==> Follow(TwoByteHeader, dest, 0, s) == Framing([7, 10], Whole(0))
    ensures s == [7] ==> Follow(TwoByteHeader, dest, 0, s) == Framing([], Cut([7]))
  {
    forall s: Bytes, t: Bytes | TwoByteHeader(s).Some?
      ensures TwoByteHeader(s + t) == TwoByteHeader(s)
    {
      assert (s + t)[..2] == s[..2];
    }
    if s == [7, 10] {
      assert s[..2] == s && s[2..] == [];
      assert Follow(TwoByteHeader, dest, 0, []) == Framing([], Whole(0));
    }
  }

  function NoLookup(n: nat, h: HostPort): HostPort {
    h
  }

  /** A lookup that finds the host's address. */
  function LocalLookup(n: nat, h: HostPort): HostPort {
    if h.host == "host" then HostPort("10.0.0.1", h.port) else h
  }

  lemma LookupsAddressed()
    ensures Addressed(NoLookup) && Addressed(LocalLookup)
  {
  }

  /** The first of two equal requests is in. */
  method FirstHeader(resolve: Resolver, fill: nat -> byte) returns (c: KeepAliveConnection)
    requires Addressed(resolve)
    ensures fresh(c) && c.parse == TwoByteHeader && c.resolve == resolve && c.Valid() && !c.ended
    ensures c.connected && c.keepAlive && c.pendingBuf.None? && c.previousBuf.None? && c.remaining == 0
    ensures c.request == resolve(0, HostPort("host", 80)) && Flat(c.upstream) == [7, 10]
  {
    var read: Bytes := [7, 10];
    TwoByteHeaderFollowed(HostPort("host", 80), read);
    assert read[..2] == read && read[2..][..0] == [] && read + [] == read;
    c := new KeepAliveConnection(TwoByteHeader, resolve);
    var ok, pending := ReceiveFirst(c, read, fill);
  }

  /**
   * Bytes are lost when a read does cut a header: two equal requests, the second one read whole
   * here, and in two pieces in `SecondHeaderCut`.
   */
  method SecondHeaderWhole(fill: nat -> byte) returns (sentUp: Bytes)
    ensures sentUp == [7, 10] + [7, 10]
  {
    LookupsAddressed();
    TwoByteHeaderFollowed(HostPort("host", 80), [7, 10]);
    var c := FirstHeader(NoLookup, fill);
    c.Receive([7, 10], fill);
    sentUp := Flat(c.upstream);
  }

  method SecondHeaderCut(fill: nat -> byte) returns (sentUp: Bytes)
    ensures sentUp == [7, 10] + [10]
  {
    LookupsAddressed();
    CutHeaderPassed(HostPort("host", 80));
    var c := FirstHeader(NoLookup, fill);
    ReceiveAll(c, [[7], [10]], fill);
    sentUp := Flat(c.upstream);
  }

  lemma CutHeaderPassed(dest: HostPort)
    requires dest == HostPort("host", 80)
    ensures SelfDelimiting(TwoByteHeader) && AllPlain(TwoByteHeader, dest, 0, [[7], [10]])
    ensures Passed(TwoByteHeader, dest, 0, [[7], [10]]) == [10]
  {
    TwoByteHeaderFollowed(dest, [7]);
    var pieces: seq<Bytes> := [[7], [10]];
    assert pieces[1..] == [[10]];
    FlatOne(pieces[1]);
  }

  /** The same two requests, and a host that was looked up: the second one costs the channel. */
  method SecondRequestReconnects(fill: nat -> byte) returns (outcome: Outcome, connected: bool, sentUp: Bytes)
    ensures outcome == TryAgain && !connected && sentUp == [7, 10]
  {
    LookupsAddressed();
    var again: Bytes := [7, 10];
    TwoByteHeaderFollowed(HostPort("host", 80), again);
    assert again[..2] == again;
    var c := FirstHeader(LocalLookup, fill);
    ghost var sent, all;
    outcome, sent, all := c.Take(again, fill);
    connected, sentUp := c.connected, Flat(c.upstream);
  }

  /** The same header, of a request with a chunked body. */
  function ChunkedHeader(s: Bytes): Option<Request> {
    if |s| >= 2 && s[..2] == [7, 10] then Some(Request(2, [7, 10], 0, true, false, true, HostPort("host", 80)))
    else None
  }

  lemma ChunkedHeaderParsed()
    ensures SelfDelimiting(ChunkedHeader)
    ensures ChunkedHeader([7, 10, 9]) == Some(Request(2, [7, 10], 0, true, false, true, HostPort("host", 80)))
  {
    forall s: Bytes, t: Bytes | ChunkedHeader(s).Some?
      ensures ChunkedHeader(s + t) == ChunkedHeader(s)
    {
      assert (s + t)[..2] == s[..2];
    }
    var whole: Bytes := [7, 10, 9];
    assert whole[..2] == [7, 10];
  }

  /** The body byte 9, read together with the chunked header, never goes up; the next read does. */
  method ChunkedBodyLost(fill: nat -> byte) returns (sentUp: Bytes)
    ensures sentUp == [7, 10] + [8]
  {
    ChunkedHeaderParsed();
    var c := new KeepAliveConnection(ChunkedHeader, NoLookup);
    OpenChunked(c, fill);
    FlatPush(c.upstream, [8]);
    ghost var sent, all;
    var usedRead, outcome;
    usedRead, outcome, sent, all := c.GetNext([8], fill);
    sentUp := Flat(c.upstream);
  }

  method OpenChunked(c: KeepAliveConnection, fill: nat -> byte)
    requires c.Unopened() && c.parse == ChunkedHeader && SelfDelimiting(ChunkedHeader)
    modifies c
    ensures c.Valid() && !c.ended && c.connected && c.Stranded() && c.pendingBuf == Some([9])
    ensures Flat(c.upstream) == [7, 10]
  {
    ChunkedHeaderParsed();
    var read: Bytes := [7, 10, 9];
    var ok, out;
    ghost var all;
    ok, out, all := c.Open(read, fill);
    assert read[2..] == [9] && all == [7, 10] + [9];
    assert all[..2] == [7, 10] && all[2..] == [9];
    assert [] + c.pendingData == c.pendingData;
    c.Connect();
  }
}
